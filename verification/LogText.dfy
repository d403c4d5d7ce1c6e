/** The bytes of log records: records in buffers, batches of buffers, and what of a batch reaches the file. */
module LogText {
  import opened Numerals

  type Record = string

  const BUFFER_SIZE: nat := 0x20_0000   // StackBuffer<2 MB>
  const RECORD_SIZE: nat := 0x1000      // LogBuffer, StackBuffer<4 KB>
  const MAX_BUFFERS: nat := 24

  /** The bytes of some records, or of some buffers. */
  function Join(parts: seq<string>): string {
    if parts == [] then "" else Join(parts[..|parts| - 1]) + parts[|parts| - 1]
  }

  lemma JoinAppend(parts: seq<string>, part: string)
    ensures Join(parts + [part]) == Join(parts) + part
  {
    assert (parts + [part])[..|parts|] == parts;
  }

  lemma {:induction false} JoinSplit(a: seq<string>, b: seq<string>)
    ensures Join(a + b) == Join(a) + Join(b)
  {
    hide Join;
    if b == [] {
      assert a + b == a;
      assert Join([]) == "" by { JoinNone(); }
    } else {
      var front, last := b[..|b| - 1], b[|b| - 1];
      JoinSplit(a, front);
      JoinAppend(a + front, last);
      JoinAppend(front, last);
      assert a + b == (a + front) + [last] && b == front + [last];
    }
  }

  lemma JoinNone()
    ensures Join([]) == ""
  {
  }

  // The records of buffers.

  /** The buffers made of the given records. */
  function Buffers(records: seq<seq<Record>>): seq<string> {
    seq(|records|, i requires 0 <= i < |records| => Join(records[i]))
  }

  lemma BuffersAppend(records: seq<seq<Record>>, more: seq<Record>)
    ensures Buffers(records + [more]) == Buffers(records) + [Join(more)]
  {
    hide Join;
  }

  lemma BuffersPrefix(records: seq<seq<Record>>, n: nat)
    requires n <= |records|
    ensures Buffers(records)[..n] == Buffers(records[..n])
  {
    hide Join;
  }

  function Flat(records: seq<seq<Record>>): seq<Record> {
    if records == [] then [] else Flat(records[..|records| - 1]) + records[|records| - 1]
  }

  lemma FlatAppend(records: seq<seq<Record>>, more: seq<Record>)
    ensures Flat(records + [more]) == Flat(records) + more
  {
    assert (records + [more])[..|records|] == records;
  }

  lemma FlatNone()
    ensures Flat([]) == []
  {
  }

  lemma {:induction false} FlatSplit(a: seq<seq<Record>>, b: seq<seq<Record>>)
    ensures Flat(a + b) == Flat(a) + Flat(b)
  {
    hide Flat;
    if b == [] {
      assert a + b == a;
      FlatNone();
    } else {
      var front, last := b[..|b| - 1], b[|b| - 1];
      FlatSplit(a, front);
      FlatAppend(a + front, last);
      FlatAppend(front, last);
      assert a + b == (a + front) + [last] && b == front + [last];
    }
  }

  /** The buffers hold the records one after the other. */
  lemma {:induction false} JoinBuffers(records: seq<seq<Record>>)
    ensures Join(Buffers(records)) == Join(Flat(records))
  {
    if records == [] {
      assert Buffers(records) == [];
      FlatNone();
    } else {
      var front, last := records[..|records| - 1], records[|records| - 1];
      JoinBuffers(front);
      BuffersAppend(front, last);
      JoinAppend(Buffers(front), Join(last));
      FlatAppend(front, last);
      JoinSplit(Flat(front), last);
      assert records == front + [last];
    }
  }

  // What reaches the file.

  datatype Item = Line(r: Record) | Warning(dropped: nat) {
    function Text(): string {
      match this
      case Line(r) => r
      case Warning(dropped) => "Dropped " + Numeral(dropped, 10) + " log buffers\n"
    }
  }

  function Lines(rs: seq<Record>): seq<Item> {
    seq(|rs|, i requires 0 <= i < |rs| => Line(rs[i]))
  }

  /** The buffers of a batch that are written: all of them, or the first half of too many. */
  function Surviving(batch: seq<seq<Record>>): seq<seq<Record>> {
    if |batch| > MAX_BUFFERS then batch[..|batch| / 2] else batch
  }

  /** The buffers of a batch that are lost. */
  function Dropped(batch: seq<seq<Record>>): seq<seq<Record>> {
    batch[|Surviving(batch)|..]
  }

  function Notice(batch: seq<seq<Record>>): seq<Item> {
    if |batch| > MAX_BUFFERS then [Warning(|batch| / 2)] else []
  }

  function Output(batch: seq<seq<Record>>): seq<Item> {
    Lines(Flat(Surviving(batch))) + Notice(batch)
  }

  function Outputs(batches: seq<seq<seq<Record>>>): seq<Item> {
    if batches == [] then [] else Outputs(batches[..|batches| - 1]) + Output(batches[|batches| - 1])
  }

  function Inputs(batches: seq<seq<seq<Record>>>): seq<Record> {
    if batches == [] then [] else Inputs(batches[..|batches| - 1]) + Flat(batches[|batches| - 1])
  }

  /** The bytes of the file. */
  function Texts(items: seq<Item>): seq<string> {
    seq(|items|, i requires 0 <= i < |items| => items[i].Text())
  }

  lemma TextsSplit(a: seq<Item>, b: seq<Item>)
    ensures Texts(a + b) == Texts(a) + Texts(b)
  {
    hide Item.Text;
  }

  lemma TextsOfLines(rs: seq<Record>)
    ensures Texts(Lines(rs)) == rs
  {
  }

  /** The text of a warning has the number in it, in decimal. */
  lemma WarningText(dropped: nat) returns (digits: string)
    ensures Warning(dropped).Text() == "Dropped " + digits + " log buffers\n"
    ensures Parse(digits, 10) == dropped && (digits[0] == '0' <==> dropped == 0)
  {
    digits := Numeral(dropped, 10);
    ParseNumeral(dropped, 10);
    NoLeadingZero(dropped, 10);
    hide Numeral;
  }

  /** What the sync thread writes for a batch is the text of its output. */
  lemma OutputText(batch: seq<seq<Record>>)
    ensures Join(Texts(Output(batch))) == Join(Buffers(Surviving(batch)) + Texts(Notice(batch)))
  {
    hide Join, Flat, Numeral, Texts, Notice, Lines;
    var lines := Lines(Flat(Surviving(batch)));
    TextsSplit(lines, Notice(batch));
    TextsOfLines(Flat(Surviving(batch)));
    JoinSplit(Flat(Surviving(batch)), Texts(Notice(batch)));
    JoinBuffers(Surviving(batch));
    JoinSplit(Buffers(Surviving(batch)), Texts(Notice(batch)));
  }

  /** A batch loses buffers exactly if it has more than 24; the warning reports the loss exactly if their number is
      even, and one buffer too few otherwise. */
  lemma LossReported(batch: seq<seq<Record>>)
    ensures batch == Surviving(batch) + Dropped(batch)
    ensures Flat(batch) == Flat(Surviving(batch)) + Flat(Dropped(batch))
    ensures Dropped(batch) != [] <==> |batch| > 24
    ensures |batch| > 24 ==> |Surviving(batch)| == |batch| / 2 && Notice(batch) == [Warning(|batch| / 2)]
    ensures |batch| > 24 ==> (|Dropped(batch)| == |batch| / 2 <==> |batch| % 2 == 0)
    ensures |batch| > 24 && |batch| % 2 == 1 ==> |Dropped(batch)| == |batch| / 2 + 1
  {
    FlatSplit(Surviving(batch), Dropped(batch));
    hide Flat;
    assert Surviving(batch) == batch[..|Surviving(batch)|];
  }

  predicate NoneOversized(batches: seq<seq<seq<Record>>>) {
    forall i :: 0 <= i < |batches| ==> |batches[i]| <= MAX_BUFFERS
  }

  /** The bytes of the file after the batches. */
  function File(batches: seq<seq<seq<Record>>>): string {
    Join(Texts(Outputs(batches)))
  }

  /** What the sync thread writes to the file for a batch. */
  function Written(localBuffers: seq<string>): seq<string> {
    if |localBuffers| > MAX_BUFFERS then localBuffers[..|localBuffers| / 2] + [Warning(|localBuffers| / 2).Text()]
    else localBuffers
  }

  lemma WrittenText(localBuffers: seq<string>, local: seq<seq<Record>>)
    requires localBuffers == Buffers(local)
    ensures Join(Written(localBuffers)) == Join(Texts(Output(local)))
  {
    NoticeText(local);
    OutputText(local);
    BuffersPrefix(local, |Surviving(local)|);
    hide Buffers, Texts, Output, Join, Notice, Item.Text;
    assert Written(localBuffers) == Buffers(Surviving(local)) + Texts(Notice(local));
  }

  lemma NoticeText(batch: seq<seq<Record>>)
    ensures |Buffers(batch)| == |batch|
    ensures Texts(Notice(batch)) == if |batch| > MAX_BUFFERS then [Warning(|batch| / 2).Text()] else []
  {
    hide Item.Text, Join;
  }

  lemma FileGrows(batches: seq<seq<seq<Record>>>, batch: seq<seq<Record>>)
    ensures Join(Texts(Outputs(batches + [batch]))) == Join(Texts(Outputs(batches))) + Join(Texts(Output(batch)))
  {
    hide Join, Texts, Output;
    assert (batches + [batch])[..|batches|] == batches;
    TextsSplit(Outputs(batches), Output(batch));
    JoinSplit(Texts(Outputs(batches)), Texts(Output(batch)));
  }

  // What a loss does to the bytes.

  const LEAST: nat := 0x1F_F001 // BUFFER_SIZE - RECORD_SIZE + 1

  /** Not enough room was left for a record. */
  predicate NearlyFull(buffer: seq<Record>) {
    |Join(buffer)| >= LEAST
  }

  /** All buffers of a batch but the last were retired for lack of room. */
  predicate Retired(batch: seq<seq<Record>>) {
    forall i :: 0 <= i < |batch| - 1 ==> NearlyFull(batch[i])
  }

  lemma {:induction false} ManyBytes(buffers: seq<seq<Record>>)
    requires forall i :: 0 <= i < |buffers| ==> NearlyFull(buffers[i])
    ensures |Join(Flat(buffers))| >= 0x1F_F001 * |buffers|
  {
    if buffers != [] {
      var front, last := buffers[..|buffers| - 1], buffers[|buffers| - 1];
      ManyBytes(front);
      FlatAppend(front, last);
      JoinSplit(Flat(front), last);
      assert buffers == front + [last] && NearlyFull(last);
      hide Flat, Join;
    }
  }

  lemma {:induction false} NumeralShort(n: nat)
    ensures |Numeral(n, 10)| <= n + 1
  {
    if n >= 10 {
      NumeralShort(n / 10);
    }
  }

  lemma WarningShort(n: nat)
    ensures |Warning(n).Text()| <= n + 22
  {
    NumeralShort(n);
    hide Numeral;
  }

  /** What an oversized batch loses is longer than the warning that takes its place. */
  lemma LossIsLonger(batch: seq<seq<Record>>)
    requires Retired(batch)
    ensures |Join(Texts(Output(batch)))| <= |Join(Flat(batch))|
    ensures |batch| > MAX_BUFFERS ==> |Join(Texts(Output(batch)))| < |Join(Flat(batch))|
    ensures |batch| <= MAX_BUFFERS ==> Join(Texts(Output(batch))) == Join(Flat(batch))
  {
    LossReported(batch);
    OutputText(batch);
    NoticeText(batch);
    JoinSplit(Buffers(Surviving(batch)), Texts(Notice(batch)));
    JoinBuffers(Surviving(batch));
    JoinSplit(Flat(Surviving(batch)), Flat(Dropped(batch)));
    JoinNone();
    FlatNone();
    if |batch| > MAX_BUFFERS {
      LostBytes(batch);
      WarningShort(|batch| / 2);
      JoinAppend([], Warning(|batch| / 2).Text());
      assert [] + [Warning(|batch| / 2).Text()] == [Warning(|batch| / 2).Text()];
    }
    hide Join, Flat, Texts, Buffers, Output, Notice, Item.Text;
  }

  lemma LostBytes(batch: seq<seq<Record>>)
    requires Retired(batch) && |batch| > MAX_BUFFERS
    ensures |Join(Flat(Dropped(batch)))| > |batch| / 2 + 22
  {
    hide Flat, Join, NearlyFull;
    var lost := Dropped(batch);
    var front, last := lost[..|lost| - 1], lost[|lost| - 1];
    forall i | 0 <= i < |front| ensures NearlyFull(front[i]) {
      assert front[i] == batch[|batch| / 2 + i];
    }
    assert |front| == |batch| - |batch| / 2 - 1;
    ManyBytes(front);
    FlatAppend(front, last);
    JoinSplit(Flat(front), last);
    assert lost == front + [last];
    hide Dropped, Retired;
  }

  /** The file has exactly the bytes handed over iff no batch was oversized. */
  lemma LosslessIff(batches: seq<seq<seq<Record>>>)
    requires forall i :: 0 <= i < |batches| ==> Retired(batches[i])
    ensures File(batches) == Join(Inputs(batches)) <==> NoneOversized(batches)
  {
    hide File, Inputs, Join;
    FileNotLonger(batches);
  }

  lemma FileNone()
    ensures File([]) == "" && Join(Inputs([])) == ""
  {
    assert Texts([]) == [];
  }

  lemma FileNext(batches: seq<seq<seq<Record>>>, batch: seq<seq<Record>>)
    ensures File(batches + [batch]) == File(batches) + Join(Texts(Output(batch)))
    ensures Join(Inputs(batches + [batch])) == Join(Inputs(batches)) + Join(Flat(batch))
  {
    FileGrows(batches, batch);
    assert (batches + [batch])[..|batches|] == batches;
    JoinSplit(Inputs(batches), Flat(batch));
    hide Join, Texts, Output, Flat, Outputs;
  }

  lemma {:induction false} FileNotLonger(batches: seq<seq<seq<Record>>>)
    requires forall i :: 0 <= i < |batches| ==> Retired(batches[i])
    ensures |File(batches)| <= |Join(Inputs(batches))|
    ensures NoneOversized(batches) ==> File(batches) == Join(Inputs(batches))
    ensures !NoneOversized(batches) ==> |File(batches)| < |Join(Inputs(batches))|
  {
    hide File, Inputs, Join, Retired, Texts, Output, Flat;
    if batches == [] {
      FileNone();
    } else {
      var front, last := batches[..|batches| - 1], batches[|batches| - 1];
      FileNotLonger(front);
      LossIsLonger(last);
      FileNext(front, last);
      assert batches == front + [last];
      assert NoneOversized(batches) <==> NoneOversized(front) && |last| <= MAX_BUFFERS;
    }
  }
}
