/** A channel as a value: its state and its books, what every event makes of them, and what holds in whole runs. */
module ChannelRuns {
  import opened BigEndian
  import opened ByteBuffers
  import opened BlockList
  import opened OutboundBooks

  datatype ChannelState = Inactive | Active | HalfClose

  /** What `doRead` returned: bytes for the user, zero, or an error, which is transient or not. */
  datatype ReadOutcome = Data | Zero | TransientError | HardError

  /** Why the channel became inactive: the peer's end of stream, or an error. */
  datatype Ending = Open | ByEof | ByError

  /** A call of `write` by the user, with the kernel's answer in case the data goes to the socket at once. */
  datatype UserWrite = UserWrite(data: seq<byte>, present: bool, reply: Reply) {
    /** Hard errors of a direct write are not part of the model. */
    predicate Ok() {
      !reply.Failed? && (reply.Wrote? ==> reply.n <= |data|)
    }

    /** The bytes that the kernel takes at once, if asked. */
    function Taken(): nat {
      if reply.Wrote? then reply.n else 0
    }
  }

  predicate AllOk(ws: seq<UserWrite>) {
    forall i :: 0 <= i < |ws| ==> ws[i].Ok()
  }

  /** The bytes of the writes, in order. */
  function Written(ws: seq<UserWrite>): seq<byte> {
    if ws == [] then [] else ws[0].data + Written(ws[1..])
  }

  datatype Ready = Ready(error: bool, read: bool, write: bool)

  /** What can happen to a channel: the user writes, or the poller reports a ready set; the user may write while
      handling what was read. */
  datatype Happening =
    | Writing(ws: seq<UserWrite>)
    | Reported(ready: Ready, outcome: ReadOutcome, ws: seq<UserWrite>)

  /** The bytes that the user writes when this happens to an open channel. */
  function Offer(h: Happening): seq<byte> {
    match h
    case Writing(ws) => Written(ws)
    case Reported(ready, outcome, ws) => if !ready.error && ready.read && outcome == Data then Written(ws) else []
  }

  function Offered(script: seq<Happening>): seq<byte> {
    if script == [] then [] else Offered(script[..|script| - 1]) + Offer(script[|script| - 1])
  }

  /** The writes that the user makes when this happens to an open channel. */
  function Calls(h: Happening): seq<UserWrite> {
    match h
    case Writing(ws) => ws
    case Reported(ready, outcome, ws) => if !ready.error && ready.read && outcome == Data then ws else []
  }

  function AllCalls(script: seq<Happening>): seq<UserWrite> {
    if script == [] then [] else AllCalls(script[..|script| - 1]) + Calls(script[|script| - 1])
  }

  /** The history that these writes should leave: one entry for each that has data, in order, with the length of the
      stream after it and whether it carries a callback. */
  function Entries(ws: seq<UserWrite>): seq<Accepted> {
    if ws == [] then []
    else
      var before, w := ws[..|ws| - 1], ws[|ws| - 1];
      Entries(before) + if w.data == [] then [] else [Accepted(|Written(before)| + |w.data|, w.present)]
  }

  datatype Status = Status(state: ChannelState, ending: Ending, books: Books) {
    /** The books balance; the channel ends when it becomes inactive, and ends by end of stream only with nothing
        pending. */
    ghost predicate Ok() {
      && books.Balanced()
      && (books.broken ==> state == Inactive)
      && (state == HalfClose ==> books.blocks != [])
      && (state != Inactive <==> ending == Open)
      && (ending == ByEof ==> books.blocks == [] && !books.broken)
    }

    function Ended(why: Ending): Status {
      this.(state := Inactive, ending := why)
    }
  }

  // What events make of a status.

  /** A write goes behind what is pending, or to the socket and the rest to the list. */
  function Booked(b: Books, w: UserWrite): Books
    requires w.Ok()
  {
    if w.data == [] then b
    else if b.blocks != [] then Take(b, w.data, w.present, 0, Appended(b.blocks, w.data))
    else if w.Taken() == |w.data| then Take(b, w.data, w.present, |w.data|, [])
    else Take(b, w.data, w.present, w.Taken(), Appended([], w.data[w.Taken()..]))
  }

  function BookedAll(b: Books, ws: seq<UserWrite>): Books
    requires AllOk(ws)
  {
    if ws == [] then b else Booked(BookedAll(b, ws[..|ws| - 1]), ws[|ws| - 1])
  }

  function UserWrote(s: Status, ws: seq<UserWrite>): Status
    requires AllOk(ws)
  {
    if s.state == Inactive then s else s.(books := BookedAll(s.books, ws))
  }

  function ErrorHandled(s: Status): Status {
    if s.state == Inactive then s else s.Ended(ByError)
  }

  function ReadHandled(s: Status, outcome: ReadOutcome, ws: seq<UserWrite>): Status
    requires AllOk(ws)
  {
    if s.state == Inactive then s
    else match outcome
      case Data => UserWrote(s, ws)
      case Zero => if s.books.blocks == [] then s.Ended(ByEof) else s.(state := HalfClose)
      case TransientError => s
      case HardError => s.Ended(ByError)
  }

  /** The list is empty: all callbacks are scheduled. */
  function Emptied(b: Books): Books {
    b.(blocks := [], callbacks := [], scheduled := WithCallback(b.writes, |b.writes|))
  }

  function WriteHandled(s: Status, replies: seq<Reply>): Status
    requires Legal(s.books.blocks, 0, replies)
  {
    if s.state == Inactive then s
    else
      var outcome := Gather(s.books.blocks, 0, replies);
      var b := Drain(s.books, outcome.sent);
      if outcome.failed then s.(books := b.(broken := true)).Ended(ByError)
      else if |outcome.sent| == |Pending(s.books.blocks)| then
        var emptied := s.(books := Emptied(b));
        if s.state == HalfClose then emptied.Ended(ByEof) else emptied
      else s.(books := b.(blocks := Dropped(s.books.blocks, |outcome.sent|)))
  }

  /** The status when the write handler starts. */
  function BeforeWrite(s: Status, ready: Ready, outcome: ReadOutcome, ws: seq<UserWrite>): Status
    requires AllOk(ws)
  {
    var s1 := if ready.error then ErrorHandled(s) else s;
    if ready.read then ReadHandled(s1, outcome, ws) else s1
  }

  /** The kernel reports writability only if it was asked for, that is if bytes are pending. */
  predicate Asked(s: Status, ready: Ready) {
    ready.write && s.state != Inactive && s.books.blocks != []
  }

  /** One happening. */
  ghost predicate Moves(h: Happening, replies: seq<Reply>, s: Status, s': Status) {
    && AllOk(h.ws)
    && match h
       case Writing(ws) => s' == UserWrote(s, ws)
       case Reported(ready, outcome, ws) =>
         var s1 := BeforeWrite(s, ready, outcome, ws);
         if Asked(s, ready) then Legal(s1.books.blocks, 0, replies) && s' == WriteHandled(s1, replies) else s' == s1
  }

  /** From activation on, `statuses[i]` becomes `statuses[i + 1]` by `script[i]`, with the kernel's answers. */
  ghost predicate IsRun(script: seq<Happening>, answers: seq<seq<Reply>>, statuses: seq<Status>) {
    && |answers| == |script| && |statuses| == |script| + 1
    && statuses[0] == Status(Active, Open, NoBooks())
    && forall i :: 0 <= i < |script| ==> Moves(script[i], answers[i], statuses[i], statuses[i + 1])
  }

  // What every event keeps.

  /** A write keeps the books balanced; it takes all of the data and queues at most one callback. */
  lemma BookedBalances(b: Books, w: UserWrite)
    requires b.Balanced() && !b.broken && w.Ok()
    ensures var b' := Booked(b, w);
      && b'.Balanced() && !b'.broken && b'.inOrder == b.inOrder
      && b'.accepted == b.accepted + w.data
      && b'.sent == b.sent + (if b.blocks == [] then w.data[..w.Taken()] else [])
      && b'.writes == b.writes
           + (if w.data == [] then [] else [Accepted(|b.accepted| + |w.data|, w.present)])
      && |b'.callbacks| <= |b.callbacks| + 1
      && (b.blocks != [] ==> b'.blocks != [])
  {
    hide Books.Balanced, Pending, NoEmpty, Appended, IsPrefix;
    BalancedStream(b);
    if w.data != [] {
      if b.blocks != [] {
        AppendedHolds(b.blocks, w.data);
        QueueingBalances(b, w.data, w.present, 0, Appended(b.blocks, w.data));
      } else if w.Taken() == |w.data| {
        SendingBalances(b, w.data, w.present);
      } else {
        AppendedHolds([], w.data[w.Taken()..]);
        QueueingBalances(b, w.data, w.present, w.Taken(), Appended([], w.data[w.Taken()..]));
      }
    }
  }

  lemma {:induction false} BookedAllBalances(b: Books, ws: seq<UserWrite>)
    requires b.Balanced() && !b.broken && AllOk(ws)
    ensures var b' := BookedAll(b, ws);
      && b'.Balanced() && !b'.broken && b'.inOrder == b.inOrder
      && b'.accepted == b.accepted + Written(ws) && b.sent <= b'.sent
      && |b'.callbacks| <= |b.callbacks| + |ws|
      && (b.blocks != [] ==> b'.blocks != [])
  {
    hide Books.Balanced, Booked, UserWrite.Ok;
    if ws != [] {
      var before, w := ws[..|ws| - 1], ws[|ws| - 1];
      BookedAllBalances(b, before);
      BookedBalances(BookedAll(b, before), w);
      WrittenAppend(before, w);
      assert ws == before + [w];
    }
  }

  lemma {:induction false} WrittenAppend(ws: seq<UserWrite>, w: UserWrite)
    ensures Written(ws + [w]) == Written(ws) + w.data
  {
    if ws == [] {
      assert Written([w]) == w.data + Written([]);
      assert ws + [w] == [w];
    } else {
      WrittenAppend(ws[1..], w);
      assert (ws + [w])[1..] == ws[1..] + [w];
    }
  }

  lemma UserWroteKeeps(s: Status, ws: seq<UserWrite>)
    requires s.Ok() && AllOk(ws)
    ensures var s' := UserWrote(s, ws);
      && s'.Ok() && s'.state == s.state && (s.state == Inactive ==> s' == s) && s'.books.inOrder == s.books.inOrder
      && s'.books.accepted == (if s.state == Inactive then s.books.accepted else s.books.accepted + Written(ws))
      && |s'.books.callbacks| <= |s.books.callbacks| + |ws|
  {
    hide Books.Balanced, BookedAll, Written;
    if s.state != Inactive {
      BookedAllBalances(s.books, ws);
    }
  }

  lemma BeforeWriteKeeps(s: Status, ready: Ready, outcome: ReadOutcome, ws: seq<UserWrite>)
    requires s.Ok() && AllOk(ws)
    ensures var s' := BeforeWrite(s, ready, outcome, ws);
      && s'.Ok() && s'.books.inOrder == s.books.inOrder && (s.state == Inactive ==> s' == s)
      && (s.state != Inactive ==> s'.books.accepted == s.books.accepted + Offer(Reported(ready, outcome, ws)))
      && |s'.books.callbacks| <= |s.books.callbacks| + |ws|
  {
    hide Books.Balanced, BookedAll, Written, UserWrote;
    UserWroteKeeps(s, ws);
  }

  lemma WriteHandledKeeps(s: Status, replies: seq<Reply>)
    requires s.Ok() && Legal(s.books.blocks, 0, replies)
    ensures var s' := WriteHandled(s, replies);
      && s'.Ok() && s'.books.accepted == s.books.accepted && (s.state == Inactive ==> s' == s)
      && s'.books.inOrder == (s.books.inOrder && (s.state != Inactive ==> |s.books.blocks| <= 2 * CHUNK))
  {
    hide Books.Balanced, Pending, WithCallback, Latest, Gather, Legal, IsPrefix, Dropped;
    if s.state != Inactive {
      var b, outcome := s.books, Gather(s.books.blocks, 0, replies);
      BalancedStream(b);
      GatheredStream(b, replies);
      if outcome.failed {
        FailingBalances(b, outcome.sent);
      } else if |outcome.sent| == |Pending(b.blocks)| {
        EmptyingBalances(b, outcome.sent);
      } else {
        TrimmingBalances(b, outcome.sent);
        DroppedExactly(b.blocks, |outcome.sent|);
      }
    }
  }

  /** One happening: what it accepts, that it keeps the books, and exactly when it keeps them in order. */
  lemma MoveKeeps(h: Happening, replies: seq<Reply>, s: Status, s': Status)
    requires s.Ok() && Moves(h, replies, s, s')
    ensures s'.Ok() && (s.state == Inactive ==> s' == s)
    ensures s.state != Inactive ==> s'.books.accepted == s.books.accepted + Offer(h)
    ensures s.books.inOrder && |s.books.callbacks| + |h.ws| <= 2 * CHUNK ==> s'.books.inOrder
  {
    hide Books.Stream, Books.Ends, BookedAll, Written, UserWrote, WriteHandled, BeforeWrite, Legal;
    hide WithCallback, Latest;
    match h
    case Writing(ws) =>
      UserWroteKeeps(s, ws);
    case Reported(ready, outcome, ws) =>
      BeforeWriteKeeps(s, ready, outcome, ws);
      if Asked(s, ready) {
        WriteHandledKeeps(BeforeWrite(s, ready, outcome, ws), replies);
      }
  }

  lemma BookedBehind(b: Books, w: UserWrite)
    requires b.blocks != [] && w.data != [] && w.Ok()
    ensures Booked(b, w) == Take(b, w.data, w.present, 0, Appended(b.blocks, w.data[0..]))
  {
    assert w.data[0..] == w.data;
  }

  lemma BookedKeeps(s: Status, w: UserWrite)
    requires s.Ok() && s.state != Inactive && w.Ok()
    ensures s.(books := Booked(s.books, w)).Ok()
  {
    hide Books.Balanced, Booked;
    BookedBalances(s.books, w);
  }

  lemma NothingBalances()
    ensures NoBooks().Balanced()
  {
    PendingNone();
  }

  lemma NotBroken(s: Status)
    requires s.Ok() && s.state != Inactive
    ensures !s.books.broken && s.books.Balanced() && s.ending == Open && (s.state == HalfClose ==> s.books.blocks != [])
  {
  }

  lemma BookedOne(b: Books, w: UserWrite)
    requires w.Ok()
    ensures BookedAll(b, [w]) == Booked(b, w)
  {
    hide Booked;
    assert [w][..0] == [];
    assert BookedAll(b, []) == b;
  }

  lemma UserWroteNone(s: Status)
    ensures UserWrote(s, []) == s
  {
  }

  lemma UserWroteNext(s: Status, ws: seq<UserWrite>, w: UserWrite)
    requires AllOk(ws) && w.Ok()
    ensures AllOk(ws + [w]) && UserWrote(s, ws + [w]) == UserWrote(UserWrote(s, ws), [w])
  {
    hide Booked;
    assert (ws + [w])[..|ws|] == ws;
    BookedOne(BookedAll(s.books, ws), w);
  }

  /** Nothing happens to an inactive channel. */
  lemma InactiveIgnores(s: Status, ready: Ready, outcome: ReadOutcome, ws: seq<UserWrite>)
    requires AllOk(ws)
    ensures s.state == Inactive ==> BeforeWrite(s, ready, outcome, ws) == s
    ensures forall replies :: s.state == Inactive && Legal(s.books.blocks, 0, replies) ==> WriteHandled(s, replies) == s
    ensures forall b :: BeforeWrite(s, ready.(write := b), outcome, ws) == BeforeWrite(s, ready, outcome, ws)
  {
  }

  lemma RunNext(
    script: seq<Happening>, answers: seq<seq<Reply>>, statuses: seq<Status>,
    h: Happening, replies: seq<Reply>, s: Status)
    requires IsRun(script, answers, statuses) && Moves(h, replies, statuses[|statuses| - 1], s)
    ensures IsRun(script + [h], answers + [replies], statuses + [s])
  {
    hide Moves;
    var script', answers', statuses' := script + [h], answers + [replies], statuses + [s];
    forall i | 0 <= i < |script'| ensures Moves(script'[i], answers'[i], statuses'[i], statuses'[i + 1]) {
      if i < |script| {
        assert Moves(script[i], answers[i], statuses[i], statuses[i + 1]);
      }
    }
  }

  // What holds in runs.

  lemma {:induction false} RunKeeps(script: seq<Happening>, answers: seq<seq<Reply>>, statuses: seq<Status>, i: nat)
    requires IsRun(script, answers, statuses) && i < |statuses|
    ensures statuses[i].Ok()
  {
    if i > 0 {
      RunKeeps(script, answers, statuses, i - 1);
      hide Status.Ok, Moves;
      MoveKeeps(script[i - 1], answers[i - 1], statuses[i - 1], statuses[i]);
    }
  }

  /** Stream integrity, with a condition on the load: as long as no more than 512 writes are outstanding whenever
      something happens, the channel keeps the byte order; then at any time what an open channel accepted is what it
      sent followed by what is pending, and what a closed one sent is a prefix of what it accepted. */
  lemma {:induction false} StreamTheorem(
    script: seq<Happening>, answers: seq<seq<Reply>>, statuses: seq<Status>, i: nat)
    requires IsRun(script, answers, statuses) && i < |statuses|
    requires forall k :: 0 <= k < i ==> |statuses[k].books.callbacks| + |script[k].ws| <= 2 * CHUNK
    ensures var b := statuses[i].books;
      && b.inOrder && IsPrefix(b.sent, b.accepted)
      && (statuses[i].state != Inactive ==> b.accepted == b.sent + Pending(b.blocks))
      && (statuses[i].ending == ByEof ==> b.sent == b.accepted)
  {
    RunKeeps(script, answers, statuses, i);
    if i > 0 {
      StreamTheorem(script, answers, statuses, i - 1);
      RunKeeps(script, answers, statuses, i - 1);
      hide Pending, Moves, IsPrefix;
      MoveKeeps(script[i - 1], answers[i - 1], statuses[i - 1], statuses[i]);
    }
    PendingNone();
  }

  /** The number of writes in a script. */
  function CountWrites(script: seq<Happening>): nat {
    if script == [] then 0 else CountWrites(script[..|script| - 1]) + |script[|script| - 1].ws|
  }

  lemma {:induction false} OutstandingWrites(
    script: seq<Happening>, answers: seq<seq<Reply>>, statuses: seq<Status>, i: nat)
    requires IsRun(script, answers, statuses) && i < |statuses|
    ensures |statuses[i].books.callbacks| <= CountWrites(script[..i])
  {
    if i > 0 {
      OutstandingWrites(script, answers, statuses, i - 1);
      RunKeeps(script, answers, statuses, i - 1);
      assert script[..i][..i - 1] == script[..i - 1];
      hide Status.Ok;
      MoveQueues(script[i - 1], answers[i - 1], statuses[i - 1], statuses[i]);
      hide Moves;
    }
  }

  lemma MoveQueues(h: Happening, replies: seq<Reply>, s: Status, s': Status)
    requires s.Ok() && Moves(h, replies, s, s')
    ensures |s'.books.callbacks| <= |s.books.callbacks| + |h.ws|
  {
    hide Status.Ok, BookedAll, UserWrote, BeforeWrite, Legal, Gather, Pending, Dropped, WithCallback;
    match h
    case Writing(ws) => UserWroteKeeps(s, ws);
    case Reported(ready, outcome, ws) => BeforeWriteKeeps(s, ready, outcome, ws);
  }

  lemma {:induction false} CountGrows(script: seq<Happening>, k: nat)
    requires k < |script|
    ensures CountWrites(script[..k]) + |script[k].ws| <= CountWrites(script)
  {
    var front := script[..|script| - 1];
    if k < |front| {
      CountGrows(front, k);
      assert front[..k] == script[..k];
    }
  }

  /** A condition that can be read off the script: a run of at most 512 writes keeps the byte order. */
  lemma FewWritesInOrder(script: seq<Happening>, answers: seq<seq<Reply>>, statuses: seq<Status>, i: nat)
    requires IsRun(script, answers, statuses) && i < |statuses| && CountWrites(script) <= 2 * CHUNK
    ensures var b := statuses[i].books;
      && IsPrefix(b.sent, b.accepted)
      && (statuses[i].state != Inactive ==> b.accepted == b.sent + Pending(b.blocks))
  {
    forall k | 0 <= k < i ensures |statuses[k].books.callbacks| + |script[k].ws| <= 2 * CHUNK {
      OutstandingWrites(script, answers, statuses, k);
      CountGrows(script, k);
    }
    hide IsRun;
    StreamTheorem(script, answers, statuses, i);
  }

  /** An open channel accepted every byte offered; a closed one those offered before it closed. */
  lemma {:induction false} AcceptanceTheorem(
    script: seq<Happening>, answers: seq<seq<Reply>>, statuses: seq<Status>, i: nat)
    requires IsRun(script, answers, statuses) && i < |statuses|
    ensures if statuses[i].state == Inactive then statuses[i].books.accepted <= Offered(script[..i])
            else statuses[i].books.accepted == Offered(script[..i])
  {
    if i > 0 {
      AcceptanceTheorem(script, answers, statuses, i - 1);
      RunKeeps(script, answers, statuses, i - 1);
      hide Status.Ok, Moves, Offer;
      MoveKeeps(script[i - 1], answers[i - 1], statuses[i - 1], statuses[i]);
      MoveAccepts(script[i - 1], answers[i - 1], statuses[i - 1], statuses[i]);
      assert script[..i][..i - 1] == script[..i - 1];
    }
  }

  /** Once inactive, a channel never becomes active again and accepts nothing more. */
  lemma MoveAccepts(h: Happening, replies: seq<Reply>, s: Status, s': Status)
    requires s.Ok() && Moves(h, replies, s, s')
    ensures s.state == Inactive ==> s'.state == Inactive && s'.books.accepted == s.books.accepted
  {
    hide Status.Ok;
    MoveKeeps(h, replies, s, s');
  }

  // The history of writes is that of the user's calls.

  ghost predicate Tells(b: Books, ws: seq<UserWrite>) {
    b.writes == Entries(ws) && b.accepted == Written(ws)
  }

  lemma BookedTells(b: Books, ws: seq<UserWrite>, w: UserWrite)
    requires b.Balanced() && !b.broken && w.Ok() && Tells(b, ws)
    ensures Tells(Booked(b, w), ws + [w])
  {
    BookedBalances(b, w);
    WrittenAppend(ws, w);
    assert (ws + [w])[..|ws|] == ws;
    hide Booked, Books.Balanced, Written;
  }

  lemma {:induction false} BookedAllTells(b: Books, before: seq<UserWrite>, ws: seq<UserWrite>)
    requires b.Balanced() && !b.broken && AllOk(ws) && Tells(b, before)
    ensures Tells(BookedAll(b, ws), before + ws)
  {
    hide Books.Balanced, Booked, Tells, UserWrite.Ok;
    if ws == [] {
      assert before + ws == before;
    } else {
      var front, w := ws[..|ws| - 1], ws[|ws| - 1];
      BookedAllTells(b, before, front);
      BookedAllBalances(b, front);
      BookedTells(BookedAll(b, front), before + front, w);
      assert before + ws == (before + front) + [w];
    }
  }

  lemma MoveTells(h: Happening, replies: seq<Reply>, s: Status, s': Status, before: seq<UserWrite>)
    requires s.Ok() && Moves(h, replies, s, s') && s.state != Inactive && Tells(s.books, before)
    ensures Tells(s'.books, before + Calls(h))
  {
    NotBroken(s);
    BookedAllTells(s.books, before, h.ws);
    assert before + [] == before;
    match h
    case Writing(ws) =>
    case Reported(ready, outcome, ws) =>
      var s1 := BeforeWrite(s, ready, outcome, ws);
      assert Tells(s1.books, before + Calls(h));
      if Asked(s, ready) {
        WriteHandledTells(s1, replies);
      }
  }

  lemma WriteHandledTells(s: Status, replies: seq<Reply>)
    requires Legal(s.books.blocks, 0, replies)
    ensures WriteHandled(s, replies).books.writes == s.books.writes
    ensures WriteHandled(s, replies).books.accepted == s.books.accepted
  {
    hide Gather, Legal, Pending, Dropped, WithCallback;
  }

  /** An open channel has accepted exactly the user's writes, each with its length and its callback, in order; a
      closed one those of the script up to some point. */
  lemma {:induction false} WritesTheorem(
    script: seq<Happening>, answers: seq<seq<Reply>>, statuses: seq<Status>, i: nat) returns (k: nat)
    requires IsRun(script, answers, statuses) && i < |statuses|
    ensures k <= i && (statuses[i].state != Inactive ==> k == i)
    ensures statuses[i].books.writes == Entries(AllCalls(script[..k]))
    ensures statuses[i].books.accepted == Written(AllCalls(script[..k]))
  {
    if i == 0 {
      k := 0;
      assert script[..0] == [];
    } else {
      k := WritesTheorem(script, answers, statuses, i - 1);
      RunKeeps(script, answers, statuses, i - 1);
      var s, h := statuses[i - 1], script[i - 1];
      assert Moves(h, answers[i - 1], s, statuses[i]);
      hide IsRun, Status.Ok, Moves, Entries, Written, AllCalls, Calls;
      if s.state == Inactive {
        MoveKeeps(h, answers[i - 1], s, statuses[i]);
      } else {
        MoveTells(h, answers[i - 1], s, statuses[i], AllCalls(script[..i - 1]));
        AllCallsNext(script, i - 1);
        k := i;
      }
    }
  }

  lemma AllCallsNext(script: seq<Happening>, i: nat)
    requires i < |script|
    ensures AllCalls(script[..i + 1]) == AllCalls(script[..i]) + Calls(script[i])
  {
    assert script[..i + 1][..i] == script[..i];
    hide Calls;
  }

  // What closes a channel.

  /** An open channel becomes inactive exactly on an error event, on a hard read error, on the end of stream with
      nothing pending, on a write that fails hard, or, if the peer has closed, when the last byte is sent; and it
      half-closes exactly on the end of stream with bytes pending. */
  lemma ClosingTheorem(h: Happening, replies: seq<Reply>, s: Status, s': Status)
    requires s.Ok() && Moves(h, replies, s, s') && s.state != Inactive
    ensures s'.state == Inactive <==>
      h.Reported?
      && (|| h.ready.error
          || (h.ready.read && h.outcome == HardError)
          || (h.ready.read && h.outcome == Zero && s.books.blocks == [])
          || s'.books.broken
          || ((s.state == HalfClose || (h.ready.read && h.outcome == Zero)) && s'.books.blocks == []))
    ensures s'.state == Inactive ==>
      (s'.ending == ByEof <==>
        !h.ready.error && !(h.ready.read && h.outcome == HardError) && !s'.books.broken)
    ensures s'.state == HalfClose ==>
      s.state == HalfClose || (h.Reported? && h.ready.read && h.outcome == Zero && s.books.blocks != [])
    ensures h.Reported? && h.ready.read && h.outcome == Zero && s'.state != Inactive ==> s'.state == HalfClose
    ensures s.state == HalfClose ==> s'.state != Active
  {
    MoveKeeps(h, replies, s, s');
    if h.Reported? {
      BeforeWriteKeeps(s, h.ready, h.outcome, h.ws);
      if Asked(s, h.ready) {
        WriteHandledKeeps(BeforeWrite(s, h.ready, h.outcome, h.ws), replies);
      }
      if Asked(s, h.ready) && BeforeWrite(s, h.ready, h.outcome, h.ws).state != Inactive {
        WriteHandledBlocks(BeforeWrite(s, h.ready, h.outcome, h.ws), replies);
      }
    }
    BlocksStay(s, h.ws);
    hide Books.Balanced, BookedAll, WriteHandled, Gather, Legal, Pending;
  }

  lemma BlocksStay(s: Status, ws: seq<UserWrite>)
    requires s.Ok() && s.state != Inactive && AllOk(ws)
    ensures s.books.blocks != [] ==> BookedAll(s.books, ws).blocks != []
    ensures BookedAll(s.books, ws).broken == s.books.broken == false
  {
    BookedAllBalances(s.books, ws);
  }

  /** The outcomes of a write event for the state. */
  lemma WriteHandledBlocks(s: Status, replies: seq<Reply>)
    requires s.Ok() && s.state != Inactive && Legal(s.books.blocks, 0, replies)
    ensures var s' := WriteHandled(s, replies);
      && (s'.books.broken <==> Gather(s.books.blocks, 0, replies).failed)
      && (s'.books.broken ==> s'.state == Inactive)
      && (!s'.books.broken && s.state == HalfClose ==>
            s'.state == if s'.books.blocks == [] then Inactive else HalfClose)
      && (!s'.books.broken && s.state == Active ==> s'.state == Active)
      && (s'.state == Inactive ==> s'.ending == if s'.books.broken then ByError else ByEof)
  {
    NotBroken(s);
    BalancedStream(s.books);
    GatheredStream(s.books, replies);
    hide Gather, Legal, Pending, WithCallback, Books.Balanced, Status.Ok;
    if |Gather(s.books.blocks, 0, replies).sent| < |Pending(s.books.blocks)| {
      DroppedExactly(s.books.blocks, |Gather(s.books.blocks, 0, replies).sent|);
    }
  }

  /** A report of writability is acted upon: the list is gathered chunk after chunk, what the kernel takes is sent,
      and if that is all of it, nothing is pending any more and every callback is scheduled. */
  lemma WriteEventTheorem(h: Happening, replies: seq<Reply>, s: Status, s': Status) returns (calls: nat)
    requires s.Ok() && Moves(h, replies, s, s') && s.state != Inactive && s.books.blocks != []
    requires h.Reported? && h.ready.write && !h.ready.error && !h.ready.read
    ensures 0 < calls <= |replies| && GoesOn(s.books.blocks, 0, replies, calls)
    ensures var b, b' := s.books, s'.books;
      && b'.accepted == b.accepted && b'.writes == b.writes
      && |b'.sent| == |b.sent| + Taken(replies[..calls])
      && (b'.broken <==> replies[calls - 1].Failed?)
      && (!b'.broken && Taken(replies[..calls]) == |Pending(b.blocks)| ==>
            && b'.blocks == [] && b'.callbacks == [] && |b'.sent| == |b'.accepted|
            && forall w :: 0 <= w < |b'.writes| && b'.writes[w].present ==> w in b'.scheduled)
      && (!b'.broken && Taken(replies[..calls]) < |Pending(b.blocks)| ==>
            b'.scheduled == b.scheduled && b'.callbacks == b.callbacks && b'.blocks != [] && s'.state == s.state)
  {
    assert s' == WriteHandled(s, replies) && Legal(s.books.blocks, 0, replies);
    calls := GatherCalls(s.books.blocks, 0, replies);
    WrittenEvent(s, replies);
    hide Legal, Gather, GoesOn, Taken, Pending, WriteHandled, WithCallback, Books.Balanced, Moves;
  }

  lemma WrittenEvent(s: Status, replies: seq<Reply>)
    requires s.Ok() && s.state != Inactive && s.books.blocks != [] && Legal(s.books.blocks, 0, replies)
    ensures var b, b', out := s.books, WriteHandled(s, replies).books, Gather(s.books.blocks, 0, replies);
      && b'.accepted == b.accepted && b'.writes == b.writes && b'.sent == b.sent + out.sent
      && |out.sent| <= |Pending(b.blocks)|
      && b'.broken == out.failed
      && (!out.failed && |out.sent| == |Pending(b.blocks)| ==>
            && b'.blocks == [] && b'.callbacks == [] && |b'.sent| == |b'.accepted|
            && forall w :: 0 <= w < |b'.writes| && b'.writes[w].present ==> w in b'.scheduled)
      && (!out.failed && |out.sent| < |Pending(b.blocks)| ==>
            && b'.scheduled == b.scheduled && b'.callbacks == b.callbacks && b'.blocks != []
            && WriteHandled(s, replies).state == s.state)
  {
    NotBroken(s);
    BalancedStream(s.books);
    GatheredStream(s.books, replies);
    WithCallbackIncreases(s.books.writes, |s.books.writes|);
    hide Gather, Legal, Pending, WithCallback, Books.Balanced, Status.Ok;
    if |Gather(s.books.blocks, 0, replies).sent| < |Pending(s.books.blocks)| {
      DroppedExactly(s.books.blocks, |Gather(s.books.blocks, 0, replies).sent|);
    }
  }

  /** In every state of every run: callbacks were scheduled in write order, each at most once, none lost, and only
      once the last byte of their write was sent; and a channel that ended by end of stream has sent every accepted
      byte. */
  lemma CompletionTheorem(script: seq<Happening>, answers: seq<seq<Reply>>, statuses: seq<Status>, i: nat)
    requires IsRun(script, answers, statuses) && i < |statuses|
    ensures var b := statuses[i].books;
      && (forall k, l :: 0 <= k < l < |b.scheduled| ==> b.scheduled[k] < b.scheduled[l])
      && (forall w :: w in b.scheduled ==> 0 <= w < |b.writes| && b.writes[w].present && b.writes[w].end <= |b.sent|)
      && (forall w :: 0 <= w < |b.writes| && b.writes[w].present ==>
            (w in b.scheduled <==> Callback(w, true) !in b.callbacks))
      && (b.callbacks == [] <==> b.blocks == [])
      && (statuses[i].ending == ByEof ==> |b.sent| == |b.accepted| && b.callbacks == [])
  {
    RunKeeps(script, answers, statuses, i);
    ScheduledInOrder(statuses[i].books);
    PendingNone();
  }

  // A run that breaks the order.

  /** One-byte writes that the kernel does not take. */
  function SingleWrites(count: nat, odd: nat): seq<UserWrite> {
    seq(count, i => UserWrite([SingleByte(i, odd)], false, Again))
  }

  lemma SingleWriteQueues(b: Books, i: nat, odd: nat)
    requires b.blocks == Singles(i, odd) && b.sent == [] && b.accepted == Pending(Singles(i, odd))
    ensures var b' := Booked(b, UserWrite([SingleByte(i, odd)], false, Again));
      b'.blocks == Singles(i + 1, odd) && b'.sent == [] && b'.accepted == Pending(Singles(i + 1, odd))
  {
    var data, block := [SingleByte(i, odd)], Block([SingleByte(i, odd)], 0);
    SinglesAppended(i, odd);
    assert Singles(i + 1, odd) == Singles(i, odd) + [block];
    PendingSplit(Singles(i, odd), [block]);
    PendingOne(block);
    assert data[0..] == data && data[..0] == [];
    assert i == 0 ==> Singles(0, odd) == [];
    hide Pending, Appended;
  }

  lemma {:induction false} SingleWritesQueue(count: nat, odd: nat)
    ensures AllOk(SingleWrites(count, odd))
    ensures var b := BookedAll(NoBooks(), SingleWrites(count, odd));
      b.blocks == Singles(count, odd) && b.sent == [] && b.accepted == Pending(Singles(count, odd))
  {
    var ws := SingleWrites(count, odd);
    hide Pending, Booked;
    if count == 0 {
      PendingNone();
      assert Singles(0, odd) == [];
    } else {
      SingleWritesQueue(count - 1, odd);
      assert ws[..count - 1] == SingleWrites(count - 1, odd);
      hide Singles;
      SingleWriteQueues(BookedAll(NoBooks(), ws[..count - 1]), count - 1, odd);
    }
  }

  /** With any larger number of writes outstanding there is a run that breaks the order: so many one-byte writes,
      and then one write event. */
  lemma OutOfOrderRun(count: nat)
    returns (script: seq<Happening>, answers: seq<seq<Reply>>, statuses: seq<Status>)
    requires count > 2 * CHUNK
    ensures IsRun(script, answers, statuses) && |script| == 2 && CountWrites(script) == count
    ensures !IsPrefix(statuses[2].books.sent, statuses[2].books.accepted)
  {
    var ws := SingleWrites(count, 2 * CHUNK);
    SingleWritesQueue(count, 2 * CHUNK);
    var blocks, replies := ThirdChunkOutOfOrder(count);
    var s0 := Status(Active, Open, NoBooks());
    var s1 := UserWrote(s0, ws);
    hide Gather, Legal, Pending, BookedAll, IsPrefix, Singles, AllOk, Dropped;
    script := [Writing(ws), Reported(Ready(false, false, true), Zero, [])];
    CountTwo(script[0], script[1]);
    answers, statuses := [[], replies], [s0, s1, WriteHandled(s1, replies)];
    assert Moves(script[0], answers[0], s0, s1);
    NoWritesOk();
    assert Moves(script[1], answers[1], s1, statuses[2]);
    WriteHandledSends(s1, replies);
  }

  lemma NoWritesOk()
    ensures AllOk([])
  {
  }

  lemma CountTwo(a: Happening, b: Happening)
    ensures CountWrites([a, b]) == |a.ws| + |b.ws|
  {
    assert [a, b][..1] == [a] && [a][..0] == [];
    assert CountWrites([]) == 0;
    assert CountWrites([a]) == |a.ws|;
  }

  lemma WriteHandledSends(s: Status, replies: seq<Reply>)
    requires s.state != Inactive && Legal(s.books.blocks, 0, replies)
    ensures var b := WriteHandled(s, replies).books;
      b.accepted == s.books.accepted && b.sent == s.books.sent + Gather(s.books.blocks, 0, replies).sent
  {
    hide Gather, Pending, Dropped, WithCallback;
  }
}
