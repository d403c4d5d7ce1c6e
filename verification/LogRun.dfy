/** A log appender as a value: which records are where, what every turn of a thread makes of that, and what holds in
    whole runs. */
module LogRuns {
  import opened LogText

  /** One turn of some thread: a producer's append, or what the sync thread does next. */
  datatype Turn = Produce(record: Record) | Sync

  datatype Log = Log(
    cached: seq<Record>,                 // in the cache
    full: seq<seq<Record>>,              // in the full buffers
    local: seq<seq<Record>>,             // in the batch of the sync thread
    swapped: bool,                       // the sync thread has taken a batch and not written it yet
    batches: seq<seq<seq<Record>>>,      // written so far
    backup: bool)                        // there is a backup buffer
  {
    /** There is something for the sync thread to take. */
    predicate Takes() {
      full != [] || |Join(cached)| > 0
    }

    /** All records, in order: those handed to the file, the batch, the full buffers, the cache. */
    function Records(): seq<Record> {
      Inputs(batches) + Flat(local) + Flat(full) + cached
    }
  }

  function Fresh(): Log {
    Log([], [], [], false, [], true)
  }

  /** The cache takes the record if more room than that is left; else it is retired, and the record starts a new one. */
  function Produced(l: Log, r: Record): Log {
    if BUFFER_SIZE - |Join(l.cached)| > |r| then l.(cached := l.cached + [r])
    else l.(cached := [r], full := l.full + [l.cached], backup := false)
  }

  /** The sync thread writes the batch it has, or takes one if there is something to take. */
  function Synced(l: Log): Log {
    if l.swapped then l.(batches := l.batches + [l.local], local := [], swapped := false)
    else if l.Takes() then l.(cached := [], full := [], local := l.full + [l.cached], swapped := true)
    else l
  }

  function Next(l: Log, turn: Turn): Log {
    match turn
    case Produce(r) => Produced(l, r)
    case Sync => Synced(l)
  }

  function After(turns: seq<Turn>): Log {
    if turns == [] then Fresh() else Next(After(turns[..|turns| - 1]), turns[|turns| - 1])
  }

  /** Records of producers fit a LogBuffer. */
  predicate Short(turns: seq<Turn>) {
    forall i :: 0 <= i < |turns| && turns[i].Produce? ==> |turns[i].record| < RECORD_SIZE
  }

  // Conservation.

  function Appended(turns: seq<Turn>): seq<Record> {
    if turns == [] then []
    else Appended(turns[..|turns| - 1]) + match turns[|turns| - 1] case Produce(r) => [r] case Sync => []
  }

  lemma ProducedRecords(l: Log, r: Record)
    ensures Produced(l, r).Records() == l.Records() + [r]
  {
    FlatAppend(l.full, l.cached);
    hide Flat, Inputs, Join;
  }

  lemma WrittenRecords(l: Log)
    ensures l.(batches := l.batches + [l.local], local := [], swapped := false).Records() == l.Records()
  {
    assert (l.batches + [l.local])[..|l.batches|] == l.batches;
    assert Inputs(l.batches + [l.local]) == Inputs(l.batches) + Flat(l.local);
    FlatNone();
    hide Flat, Inputs;
  }

  lemma TakenRecords(l: Log)
    requires l.local == []
    ensures l.(cached := [], full := [], local := l.full + [l.cached], swapped := true).Records() == l.Records()
  {
    FlatAppend(l.full, l.cached);
    FlatNone();
    hide Flat, Inputs;
  }

  lemma NextRecords(l: Log, turn: Turn)
    requires !l.swapped ==> l.local == []
    ensures Next(l, turn).Records() == l.Records() + match turn case Produce(r) => [r] case Sync => []
    ensures !Next(l, turn).swapped ==> Next(l, turn).local == []
  {
    match turn
    case Produce(r) =>
      ProducedRecords(l, r);
      hide Log.Records, Join;
    case Sync =>
      WrittenRecords(l);
      if !l.swapped {
        TakenRecords(l);
      }
      assert l.Records() + [] == l.Records();
      hide Log.Records, Join;
  }

  /** In any interleaving of producers and the sync thread, the records handed to the file, the sync thread's batch, the
      full buffers and the cache are the records appended, in the order of the lock. */
  lemma {:induction false} ConservationTheorem(turns: seq<Turn>)
    ensures After(turns).Records() == Appended(turns)
    ensures !After(turns).swapped ==> After(turns).local == []
  {
    if turns == [] {
      FlatNone();
    } else {
      ConservationTheorem(turns[..|turns| - 1]);
      hide Log.Records, Next;
      NextRecords(After(turns[..|turns| - 1]), turns[|turns| - 1]);
    }
  }

  // Buffers are retired nearly full.

  ghost predicate Ok(l: Log) {
    && (forall i :: 0 <= i < |l.full| ==> NearlyFull(l.full[i]))
    && |Join(l.cached)| < 0x20_0000
    && (forall i :: 0 <= i < |l.full| ==> |Join(l.full[i])| < 0x20_0000)
    && Retired(l.local)
    && (forall i :: 0 <= i < |l.batches| ==> Retired(l.batches[i]))
  }

  lemma ProducedOk(l: Log, r: Record)
    requires Ok(l) && |r| < RECORD_SIZE
    ensures Ok(Produced(l, r))
  {
    JoinNone();
    JoinAppend(l.cached, r);
    JoinAppend([], r);
    assert [] + [r] == [r];
    hide Join;
    var l' := Produced(l, r);
    forall i | 0 <= i < |l'.full| ensures NearlyFull(l'.full[i]) && |Join(l'.full[i])| < 0x20_0000 {
      if i < |l.full| {
        assert l'.full[i] == l.full[i] && NearlyFull(l.full[i]);
      }
    }
  }

  lemma SyncedOk(l: Log)
    requires Ok(l)
    ensures Ok(Synced(l))
  {
    JoinNone();
    hide Join, NearlyFull;
  }

  lemma NextOk(l: Log, turn: Turn)
    requires Ok(l) && (turn.Produce? ==> |turn.record| < RECORD_SIZE)
    ensures Ok(Next(l, turn))
  {
    hide Ok, Produced, Synced;
    if turn.Produce? {
      ProducedOk(l, turn.record);
    } else {
      SyncedOk(l);
    }
  }

  lemma {:induction false} RunOk(turns: seq<Turn>)
    requires Short(turns)
    ensures Ok(After(turns))
  {
    JoinNone();
    if turns != [] {
      RunOk(turns[..|turns| - 1]);
      hide Ok, Next;
      NextOk(After(turns[..|turns| - 1]), turns[|turns| - 1]);
    }
  }

  /** In every run, the file has exactly the bytes of the records handed to it iff no batch was oversized. */
  lemma LossTheorem(turns: seq<Turn>)
    requires Short(turns)
    ensures File(After(turns).batches) == Join(Inputs(After(turns).batches)) <==> NoneOversized(After(turns).batches)
  {
    RunOk(turns);
    hide After;
    LosslessIff(After(turns).batches);
  }

  /** The cache and the full buffers stay below 2 MB, and a full buffer has less room left than the longest record. */
  lemma SizeTheorem(turns: seq<Turn>)
    requires Short(turns)
    ensures |Join(After(turns).cached)| < 0x20_0000
    ensures forall i :: 0 <= i < |After(turns).full| ==>
      0x20_0000 - 0x1000 < |Join(After(turns).full[i])| < 0x20_0000
  {
    RunOk(turns);
    hide Join, After;
  }

  // The sync thread gets everything to the file.

  lemma SyncedBytes(l: Log)
    requires !l.swapped && l.local == []
    ensures var l' := Synced(Synced(l));
      && !l'.swapped && l'.local == [] && l'.full == [] && |Join(l'.cached)| == 0
      && Join(Inputs(l'.batches)) == Join(Inputs(l.batches)) + Join(Flat(l.full)) + Join(l.cached)
  {
    JoinNone();
    FlatNone();
    FlatAppend(l.full, l.cached);
    JoinSplit(Flat(l.full), l.cached);
    FileNext(l.batches, l.full + [l.cached]);
    hide Join, Flat, Inputs;
  }

  lemma TwiceMore(turns: seq<Turn>)
    ensures After(turns + [Sync] + [Sync] + [Sync]) == Synced(Synced(Synced(After(turns))))
  {
    AfterTwo(turns);
    var two := turns + [Sync] + [Sync];
    assert (two + [Sync])[..|two|] == two;
    hide Synced;
  }

  lemma RecordBytes(l: Log)
    ensures Join(l.Records()) == Join(Inputs(l.batches)) + Join(Flat(l.local)) + Join(Flat(l.full)) + Join(l.cached)
  {
    JoinSplit(Inputs(l.batches) + Flat(l.local) + Flat(l.full), l.cached);
    JoinSplit(Inputs(l.batches) + Flat(l.local), Flat(l.full));
    JoinSplit(Inputs(l.batches), Flat(l.local));
    hide Join, Flat, Inputs;
  }

  lemma FlushedFrom(l: Log)
    requires !l.swapped && l.local == []
    ensures Join(Inputs(Synced(Synced(l)).batches)) == Join(l.Records())
    ensures Synced(Synced(Synced(l))).batches == Synced(Synced(l)).batches
  {
    RecordBytes(l);
    FlatNone();
    JoinNone();
    SyncedBytes(l);
    hide Join, Flat, Inputs, Log.Records;
  }

  /** Once producers pause, three turns of the sync thread hand over every byte appended. */
  lemma FlushTheorem(turns: seq<Turn>)
    ensures Join(Inputs(After(turns + [Sync] + [Sync] + [Sync]).batches)) == Join(Appended(turns))
  {
    ConservationTheorem(turns);
    TwiceMore(turns);
    var l := After(turns);
    hide Join, Flat, Inputs, After;
    if l.swapped {
      WrittenRecords(l);
      FlushedFrom(Synced(l));
    } else {
      FlushedFrom(l);
    }
    hide Log.Records;
  }

  // A pace at which nothing is lost.

  /** The bytes produced since the Sync turn in front of the last `syncs` ones. */
  function Recent(turns: seq<Turn>, syncs: nat): nat {
    if turns == [] then 0
    else
      var before := turns[..|turns| - 1];
      match turns[|turns| - 1]
      case Produce(r) => Recent(before, syncs) + |r|
      case Sync => if syncs == 0 then 0 else Recent(before, syncs - 1)
  }

  /** The bytes that wait for the sync thread. */
  function Waiting(l: Log): nat {
    |Join(Flat(l.full))| + |Join(l.cached)|
  }

  lemma WaitingNext(l: Log, turn: Turn)
    ensures turn.Produce? ==> Waiting(Next(l, turn)) == Waiting(l) + |turn.record|
    ensures turn.Sync? && l.swapped ==> Waiting(Next(l, turn)) == Waiting(l)
    ensures turn.Sync? && !l.swapped ==> Waiting(Next(l, turn)) == 0
  {
    FlatNone();
    JoinNone();
    FlatAppend(l.full, l.cached);
    JoinSplit(Flat(l.full), l.cached);
    if turn.Produce? {
      JoinAppend(l.cached, turn.record);
      JoinAppend([], turn.record);
      assert [] + [turn.record] == [turn.record];
    }
    hide Flat, Join;
  }

  /** What waits was produced since the sync thread took its last batch, that is since its last turn but one at most. */
  lemma {:induction false} WaitingIsRecent(turns: seq<Turn>)
    ensures Waiting(After(turns)) <= Recent(turns, 1)
    ensures After(turns).swapped ==> Waiting(After(turns)) <= Recent(turns, 0)
  {
    if turns == [] {
      JoinNone();
      FlatNone();
    } else {
      var before, turn := turns[..|turns| - 1], turns[|turns| - 1];
      WaitingIsRecent(before);
      WaitingNext(After(before), turn);
      assert Next(After(before), turn).swapped == if turn.Sync? then !After(before).swapped && After(before).Takes()
                                                  else After(before).swapped;
      hide Waiting, Next;
    }
  }

  /** The least that 24 retired buffers hold, close to 48 MB. */
  const PACE: nat := MAX_BUFFERS * LEAST

  /** Between any two turns of the sync thread but one, producers make fewer bytes than that. */
  predicate KeepsPace(turns: seq<Turn>) {
    forall k :: 0 <= k <= |turns| ==> Recent(turns[..k], 1) < PACE
  }

  lemma FewBuffers(l: Log)
    requires Ok(l) && Waiting(l) < PACE
    ensures |l.full| < MAX_BUFFERS
  {
    ManyBytes(l.full);
    hide Join, Flat;
  }

  /** At that pace nothing is lost: no batch is ever oversized, and the file has exactly the bytes handed to it. */
  lemma PaceTheorem(turns: seq<Turn>)
    requires Short(turns) && KeepsPace(turns)
    ensures |After(turns).local| <= MAX_BUFFERS && NoneOversized(After(turns).batches)
    ensures File(After(turns).batches) == Join(Inputs(After(turns).batches))
  {
    NeverOversized(turns);
    LossTheorem(turns);
  }

  lemma PaceBefore(turns: seq<Turn>)
    requires turns != [] && KeepsPace(turns)
    ensures KeepsPace(turns[..|turns| - 1]) && Recent(turns[..|turns| - 1], 1) < PACE
  {
    hide Recent;
    var before := turns[..|turns| - 1];
    forall k | 0 <= k <= |before| ensures Recent(before[..k], 1) < PACE {
      assert before[..k] == turns[..k];
    }
  }

  lemma NextNotOversized(l: Log, turn: Turn)
    requires |l.full| < MAX_BUFFERS && |l.local| <= MAX_BUFFERS && NoneOversized(l.batches)
    ensures |Next(l, turn).local| <= MAX_BUFFERS && NoneOversized(Next(l, turn).batches)
  {
    hide Join;
  }

  lemma {:induction false} NeverOversized(turns: seq<Turn>)
    requires Short(turns) && KeepsPace(turns)
    ensures |After(turns).local| <= MAX_BUFFERS && NoneOversized(After(turns).batches)
  {
    hide KeepsPace, Ok, Waiting, Next, Recent, NoneOversized;
    if turns == [] {
      assert NoneOversized([]) by { NothingOversized(); }
    } else {
      var before := turns[..|turns| - 1];
      PaceBefore(turns);
      NeverOversized(before);
      WaitingIsRecent(before);
      RunOk(before);
      FewBuffers(After(before));
      NextNotOversized(After(before), turns[|turns| - 1]);
    }
  }

  lemma NothingOversized()
    ensures NoneOversized([])
  {
  }

  // A run that loses buffers, and reports one too few.

  const LONGEST: nat := RECORD_SIZE - 1
  const PER_BUFFER: nat := 512

  function Longest(): Record {
    seq(LONGEST, i => 'x')
  }

  function Copies(n: nat): seq<Record> {
    seq(n, i => Longest())
  }

  function Burst(n: nat): seq<Turn> {
    seq(n, i => Produce(Longest()))
  }

  function Fulls(q: nat): seq<seq<Record>> {
    seq(q, i => Copies(PER_BUFFER))
  }

  lemma {:induction false} CopiesLength(n: nat)
    ensures |Join(Copies(n))| == n * LONGEST
  {
    if n > 0 {
      CopiesLength(n - 1);
      assert Copies(n) == Copies(n - 1) + [Longest()];
      JoinAppend(Copies(n - 1), Longest());
      hide Join;
    } else {
      JoinNone();
    }
  }

  lemma BurstNext(n: nat)
    ensures After(Burst(n + 1)) == Produced(After(Burst(n)), Longest())
  {
    assert Burst(n + 1)[..n] == Burst(n);
    hide Produced;
  }

  /** The longest records fill a buffer 512 at a time. */
  lemma {:induction false} BurstFills(q: nat, c: nat)
    requires 1 <= c <= PER_BUFFER
    ensures After(Burst(PER_BUFFER * q + c)) == Log(Copies(c), Fulls(q), [], false, [], q == 0)
    decreases q, c
  {
    hide After, Longest;
    var n := PER_BUFFER * q + c - 1;
    BurstNext(n);
    CopiesLength(c - 1);
    CopiesLength(PER_BUFFER);
    assert Copies(1) == [Longest()] && Copies(0) == [];
    hide Join;
    if c > 1 {
      BurstFills(q, c - 1);
      assert Copies(c) == Copies(c - 1) + [Longest()];
    } else if q > 0 {
      BurstFills(q - 1, PER_BUFFER);
      assert Fulls(q) == Fulls(q - 1) + [Copies(PER_BUFFER)];
    } else {
      assert Burst(0) == [];
      assert After(Burst(0)) == Fresh() by { FreshAtFirst(); }
      assert Fulls(0) == [];
    }
  }

  lemma FreshAtFirst()
    ensures After([]) == Fresh()
  {
  }

  lemma AfterTwo(turns: seq<Turn>)
    ensures After(turns + [Sync] + [Sync]) == Synced(Synced(After(turns)))
  {
    assert (turns + [Sync] + [Sync])[..|turns| + 1] == turns + [Sync];
    assert (turns + [Sync])[..|turns|] == turns;
    hide Synced;
  }

  /** For every size above 24 there is a run whose batch has that size, so that the file loses bytes; and if the size is
      odd, the warning in the file reports one buffer too few. */
  lemma LossyRun(size: nat) returns (turns: seq<Turn>)
    requires size > MAX_BUFFERS
    ensures Short(turns)
    ensures var batches := After(turns).batches;
      && |batches| == 1 && |batches[0]| == size
      && File(batches) != Join(Inputs(batches))
      && Warning(size / 2) in Outputs(batches)
      && (size % 2 == 1 ==> |Dropped(batches[0])| == size / 2 + 1)
  {
    hide After, Join, Inputs, File, Flat, Outputs, Dropped;
    var batch;
    turns, batch := BurstTaken(size - 1);
    LossTheorem(turns);
    LossReported(batch);
    WarningWritten(batch);
  }

  lemma BurstTaken(q: nat) returns (turns: seq<Turn>, batch: seq<seq<Record>>)
    ensures Short(turns) && After(turns).batches == [batch] && |batch| == q + 1
  {
    hide After, Join, Longest;
    var burst := Burst(PER_BUFFER * q + 1);
    turns := burst + [Sync] + [Sync];
    assert |Longest()| < RECORD_SIZE by { LongestShort(); }
    BurstFills(q, 1);
    AfterTwo(burst);
    CopiesLength(1);
    batch := Fulls(q) + [Copies(1)];
  }

  lemma LongestShort()
    ensures |Longest()| < RECORD_SIZE
  {
  }

  lemma WarningWritten(batch: seq<seq<Record>>)
    requires |batch| > MAX_BUFFERS
    ensures Warning(|batch| / 2) in Outputs([batch])
  {
    hide Flat, Lines;
    assert [batch][..0] == [];
    assert Outputs([batch]) == Outputs([]) + Output(batch);
    assert Notice(batch)[0] == Warning(|batch| / 2);
  }
}
