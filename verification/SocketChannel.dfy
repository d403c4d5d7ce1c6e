/** The outbound path of SocketChannel: a write goes to the socket or to the block list, write events drain the list,
    and completion callbacks, epoll interest and disconnection follow the list.

    The kernel's answers and the outcome of a read are inputs. The fields marked as histories, and the ghost fields,
    record the run and do not steer it. */
module SocketChannels {
  import opened BigEndian
  import opened Capacity
  import opened ByteBuffers
  import opened BlockList
  import opened OutboundBooks
  import opened ChannelRuns

  datatype Interest = Interest(read: bool, write: bool)

  class SocketChannel {
    var state: ChannelState
    var events: Interest
    var mask: Interest // what the kernel was told
    var registered: bool
    var writeBuffer: seq<Block>
    var callbacks: seq<Callback>
    var scheduled: seq<nat> // writes whose callback became a task of the loop
    var disconnects: nat
    var accepted: seq<byte> // history: bytes taken from the user
    var sent: seq<byte> // history: bytes taken by the kernel
    var writes: seq<Accepted> // history: one entry for each accepted write
    ghost var joined: bool
    ghost var ending: Ending
    ghost var inOrder: bool // no gathering write met more than two chunks of blocks
    ghost var broken: bool // a gathering write failed hard

    ghost function Record(): Books
      reads this
    {
      Books(accepted, sent, writeBuffer, writes, callbacks, scheduled, inOrder, broken)
    }

    ghost function View(): Status
      reads this
    {
      Status(state, ending, Record())
    }

    /** The kernel watches exactly what the channel needs: writability iff bytes are pending. */
    ghost predicate Watching()
      reads this
    {
      && (state != Inactive ==> joined && registered && mask == events && (events.write <==> writeBuffer != []))
      && (!joined ==> state == Inactive && events == Interest(false, false) && Record() == NoBooks() && ending == Open)
      && (state == Active ==> events.read)
      && (state == HalfClose ==> !events.read)
    }

    /** The disconnect event fires once, when an open channel becomes inactive. */
    ghost predicate Valid()
      reads this
    {
      && (joined ==> View().Ok())
      && Watching()
      && disconnects == (if ending == Open then 0 else 1)
    }

    constructor ()
      ensures Valid() && !joined
    {
      state, events, mask, registered := Inactive, Interest(false, false), Interest(false, false), false;
      writeBuffer, callbacks, scheduled, disconnects := [], [], [], 0;
      accepted, sent, writes := [], [], [];
      joined, ending, inOrder, broken := false, Open, true, false;
    }

    method ChannelActive()
      requires Valid() && !joined
      modifies this
      ensures Valid() && joined && mask == Interest(true, false)
      ensures View() == Status(Active, Open, NoBooks())
    {
      hide Books.Balanced;
      NothingBalances();
      events := events.(read := true);
      registered := true;
      Modify();
      state, joined := Active, true;
    }

    method Modify()
      modifies this`mask
      ensures mask == events
    {
      mask := events;
    }

    /** Fires the disconnect event; the deregistration that follows is a later task of the loop. */
    method ChannelInactive(ghost why: Ending)
      modifies this`state, this`disconnects, this`ending
      ensures state == Inactive && disconnects == old(disconnects) + 1 && ending == why
    {
      state, disconnects := Inactive, disconnects + 1;
      ending := why;
    }

    /** Appends to the last block if it has room, else starts a block; asks for writability once. */
    method AppendBuffer(data: seq<byte>)
      modifies this`writeBuffer, this`events, this`mask
      ensures writeBuffer == Appended(old(writeBuffer), data)
      ensures events == old(events).(write := true)
      ensures mask == if old(events).write then old(mask) else events
    {
      if writeBuffer != [] && writeBuffer[|writeBuffer| - 1].writable >= |data| {
        writeBuffer := writeBuffer[..|writeBuffer| - 1] + [writeBuffer[|writeBuffer| - 1].Append(data)];
      } else {
        NewCapacityHolds(|data|);
        writeBuffer := writeBuffer + [BlockOf(data)];
      }
      if !events.write {
        events := events.(write := true);
        Modify();
      }
    }

    /** Accepts the data unless the channel is inactive: all of it is sent or queued, in order. */
    method DoWrite(w: UserWrite)
      requires Valid() && w.Ok()
      modifies this
      ensures Valid() && joined == old(joined) && (old(mask).write ==> mask.write)
      ensures View() == UserWrote(old(View()), [w])
    {
      assert UserWrote(View(), [w]) == if state == Inactive then View() else View().(books := Booked(Record(), w)) by {
        BookedOne(Record(), w);
      }
      hide Status.Ok, BookedAll, UserWrote, Appended;
      if state == Inactive || w.data == [] {
        return;
      }
      hide Booked;
      if writeBuffer != [] {
        DoWriteBehind(w);
      } else {
        DoWriteDirectly(w);
      }
    }

    /** Something is pending: the data goes behind it. */
    method DoWriteBehind(w: UserWrite)
      requires Valid() && state != Inactive && w.data != [] && writeBuffer != [] && w.Ok()
      modifies this`accepted, this`sent, this`writes, this`callbacks
      modifies this`writeBuffer, this`events, this`mask
      ensures Valid() && mask == events && mask.write && Record() == Booked(old(Record()), w)
    {
      BookedKeeps(View(), w);
      BookedBehind(Record(), w);
      hide Status.Ok, Appended, Booked;
      Defer(w.data, w.present, 0);
    }

    method DoWriteDirectly(w: UserWrite)
      requires Valid() && state != Inactive && w.data != [] && writeBuffer == [] && w.Ok()
      modifies this`accepted, this`sent, this`writes, this`callbacks, this`scheduled
      modifies this`writeBuffer, this`events, this`mask
      ensures Valid() && mask == events && Record() == Booked(old(Record()), w)
    {
      BookedKeeps(View(), w);
      hide Status.Ok, Appended;
      var bytes := if w.reply.Wrote? then w.reply.n else 0;
      if bytes == |w.data| {
        Complete(w.data, w.present);
      } else {
        Defer(w.data, w.present, bytes);
      }
    }

    /** The kernel took all of `data`: its callback becomes a task at once. */
    method Complete(data: seq<byte>, present: bool)
      requires writeBuffer == []
      modifies this`accepted, this`sent, this`writes, this`scheduled
      ensures Record() == Take(old(Record()), data, present, |data|, [])
    {
      if present {
        scheduled := scheduled + [|writes|];
      }
      accepted, writes, sent := accepted + data, writes + [Accepted(|accepted| + |data|, present)], sent + data;
      assert data[..|data|] == data;
    }

    /** The kernel took the first `bytes` bytes, and the list gets the rest along with the callback. */
    method Defer(data: seq<byte>, present: bool, bytes: nat)
      requires bytes < |data| && (events.write ==> mask == events)
      modifies this`accepted, this`sent, this`writes, this`callbacks, this`writeBuffer, this`events, this`mask
      ensures Record() == Take(old(Record()), data, present, bytes, Appended(old(writeBuffer), data[bytes..]))
      ensures mask == events == old(events).(write := true) && writeBuffer != []
    {
      AppendBuffer(data[bytes..]);
      callbacks := callbacks + [Callback(|writes|, present)];
      accepted, writes := accepted + data, writes + [Accepted(|accepted| + |data|, present)];
      sent := sent + data[..bytes];
    }

    /** Drops the first `writtenBytes` bytes of the list: whole blocks, then the front of one block. */
    method RemoveSentBuffer(writtenBytes: nat)
      modifies this`writeBuffer
      ensures writeBuffer == Dropped(old(writeBuffer), writtenBytes)
    {
      var left: nat, it: nat := writtenBytes, 0;
      while it < |writeBuffer| && left > 0
        invariant it <= |writeBuffer|
        invariant it == 0 || left == 0
        invariant Dropped(writeBuffer, left) == Dropped(old(writeBuffer), writtenBytes)
        decreases |writeBuffer| - it
      {
        var bytes := |writeBuffer[it].readable|;
        if bytes <= left {
          assert writeBuffer[..0] + writeBuffer[1..] == writeBuffer[1..];
          writeBuffer := writeBuffer[..it] + writeBuffer[it + 1..];
          left := left - bytes;
        } else {
          assert writeBuffer[0 := writeBuffer[0].Skip(left)] == [writeBuffer[0].Skip(left)] + writeBuffer[1..];
          writeBuffer := writeBuffer[it := writeBuffer[it].Skip(left)];
          left, it := 0, it + 1;
        }
      }
    }

    /** The summation loop of `writev`: the lengths of the blocks from `from` up to `to`, none if `to` comes first. */
    static method SumOfLengths(blocks: seq<Block>, from: nat, to: nat) returns (sum: nat)
      requires to <= |blocks|
      ensures sum == if from < to then |Pending(blocks[from..to])| else 0
    {
      sum := 0;
      var i := from;
      while i < to
        invariant from <= i && (from < to ==> i <= to && sum == |Pending(blocks[from..i])|)
        invariant from >= to ==> sum == 0
      {
        PendingSplit(blocks[from..i], [blocks[i]]);
        PendingOne(blocks[i]);
        assert blocks[from..i + 1] == blocks[from..i] + [blocks[i]];
        sum := sum + |blocks[i].readable|;
        i := i + 1;
      }
    }

    /** Gathering writes, chunk after chunk, until one is short or would block; -1 is a hard error. */
    method Writev(replies: seq<Reply>) returns (written: int)
      requires Legal(writeBuffer, 0, replies)
      modifies this`sent
      ensures var outcome := Gather(writeBuffer, 0, replies);
        && sent == old(sent) + outcome.sent
        && written == if outcome.failed then -1 else |outcome.sent|
    {
      hide Pending, Gather, Legal;
      var writtenBlocks: nat, rest := 0, replies;
      ghost var whole := Gather(writeBuffer, 0, replies);
      written := 0;
      while writtenBlocks < |writeBuffer|
        invariant writtenBlocks <= |writeBuffer| && Legal(writeBuffer, writtenBlocks, rest)
        invariant sent + Gather(writeBuffer, writtenBlocks, rest).sent == old(sent) + whole.sent
        invariant |sent| == |old(sent)| + written
        invariant Gather(writeBuffer, writtenBlocks, rest).failed == whole.failed
      {
        var leftBlocks := |writeBuffer| - writtenBlocks;
        var count := if leftBlocks < CHUNK then leftBlocks else CHUNK;
        var expectedWriteLen := SumOfLengths(writeBuffer, writtenBlocks, count);
        var iovecs := writeBuffer[writtenBlocks..writtenBlocks + count];
        assert iovecs == Chunk(writeBuffer, writtenBlocks);
        GatherNext(writeBuffer, writtenBlocks, rest);
        writtenBlocks := writtenBlocks + count;
        match rest[0] {
          case Failed => return -1;
          case Again => return;
          case Wrote(bytes) =>
            sent := sent + Pending(iovecs)[..bytes];
            written := written + bytes;
            if bytes < expectedWriteLen {
              return;
            }
        }
        rest := rest[1..];
      }
      GatherDone(writeBuffer, rest);
    }

    /** Pops every queued callback and makes a task of each that is not null. */
    method FlushCallbacks()
      requires |callbacks| <= |writes| && callbacks == Latest(writes, |writes| - |callbacks|)
      requires scheduled == WithCallback(writes, |writes| - |callbacks|)
      modifies this`callbacks, this`scheduled
      ensures callbacks == [] && scheduled == WithCallback(writes, |writes|)
      ensures old(scheduled) <= scheduled
    {
      while callbacks != []
        invariant |callbacks| <= |writes| && callbacks == Latest(writes, |writes| - |callbacks|)
        invariant scheduled == WithCallback(writes, |writes| - |callbacks|)
        invariant old(scheduled) <= scheduled
        decreases |callbacks|
      {
        var callback := callbacks[0];
        callbacks := callbacks[1..];
        if callback.present {
          scheduled := scheduled + [callback.write];
        }
      }
    }

    /** A write event: the kernel reports writability only if it was asked for, so bytes are pending. */
    method HandleWriteEvent(replies: seq<Reply>)
      requires Valid() && Legal(writeBuffer, 0, replies) && (state != Inactive ==> mask.write)
      modifies this
      ensures Valid() && joined == old(joined) && View() == WriteHandled(old(View()), replies)
    {
      hide Pending, Books.Balanced, WithCallback, Latest, Gather, Legal, Dropped, IsPrefix, NoEmpty, Status.Ok;
      if state == Inactive {
        return;
      }
      ghost var b := Record();
      NotBroken(View());
      WriteHandledKeeps(View(), replies);
      assert writeBuffer != []; // SocketChannel.cpp:193
      var totalBytes := SumOfLengths(writeBuffer, 0, |writeBuffer|);
      assert writeBuffer[0..|writeBuffer|] == writeBuffer;
      BalancedStream(b);
      assert totalBytes > 0; // SocketChannel.cpp:203
      var writtenBytes := Writev(replies);
      AccountWritten(View().(books := b), replies, totalBytes, writtenBytes);
    }

    /** What is done about the result of a gathering write, of which the kernel has taken its part already. */
    method AccountWritten(ghost s: Status, replies: seq<Reply>, totalBytes: nat, writtenBytes: int)
      requires s.Ok() && s.state != Inactive && Legal(s.books.blocks, 0, replies)
      requires var outcome := Gather(s.books.blocks, 0, replies);
        && View() == s.(books := s.books.(sent := s.books.sent + outcome.sent))
        && totalBytes == |Pending(s.books.blocks)|
        && writtenBytes == if outcome.failed then -1 else |outcome.sent|
      requires Watching() && disconnects == 0
      modifies this`writeBuffer, this`callbacks, this`scheduled, this`inOrder, this`broken
      modifies this`state, this`disconnects, this`ending, this`events, this`mask
      ensures Watching() && disconnects == (if ending == Open then 0 else 1)
      ensures View() == WriteHandled(s, replies)
    {
      hide Pending, Books.Balanced, WithCallback, Latest, Gather, Legal, Dropped, IsPrefix, NoEmpty, Status.Ok;
      NotBroken(s);
      inOrder := inOrder && |writeBuffer| <= 2 * CHUNK;
      if writtenBytes < 0 {
        broken := true;
        ChannelInactive(ByError);
      } else if totalBytes == writtenBytes {
        FinishDrain(s.books);
      } else {
        BalancedStream(s.books);
        GatheredStream(s.books, replies);
        DroppedExactly(s.books.blocks, writtenBytes);
        RemoveSentBuffer(writtenBytes);
      }
    }

    /** Everything is sent: callbacks are scheduled, and the channel closes if the peer had closed, else it watches for
        reading only. */
    method FinishDrain(ghost b: Books)
      requires b.Balanced() && b.writes == writes && b.callbacks == callbacks && b.scheduled == scheduled
      modifies this`writeBuffer, this`callbacks, this`scheduled
      modifies this`state, this`disconnects, this`ending, this`events, this`mask
      ensures Record() == Emptied(old(Record())) && old(scheduled) <= scheduled
      ensures if old(state) == HalfClose then
          state == Inactive && disconnects == old(disconnects) + 1 && ending == ByEof
        else
          && state == old(state) && disconnects == old(disconnects) && ending == old(ending)
          && events == mask == Interest(true, false)
    {
      hide Books.Stream, Books.Ends, WithCallback, Latest;
      writeBuffer := [];
      FlushCallbacks();
      if state == HalfClose {
        ChannelInactive(ByEof);
      } else {
        events := Interest(true, false);
        Modify();
      }
    }

    /** A read event. On end of stream the channel closes if nothing is pending, else it stops reading and keeps
        writing. The user may write while handling what was read. */
    method HandleReadEvent(outcome: ReadOutcome, replying: seq<UserWrite>)
      requires Valid() && AllOk(replying)
      modifies this
      ensures Valid() && joined == old(joined) && View() == ReadHandled(old(View()), outcome, replying)
      ensures state == Inactive || (old(mask).write ==> mask.write)
    {
      hide Books.Balanced;
      if state == Inactive {
        return;
      }
      match outcome {
        case Data =>
          UserWrites(replying);
        case Zero =>
          if writeBuffer == [] {
            NotBroken(View());
            ChannelInactive(ByEof);
          } else {
            state, events := HalfClose, Interest(false, true);
            Modify();
          }
        case TransientError =>
        case HardError =>
          ChannelInactive(ByError);
      }
    }

    method UserWrites(ws: seq<UserWrite>)
      requires Valid() && AllOk(ws)
      modifies this
      ensures Valid() && joined == old(joined) && (old(mask).write ==> mask.write)
      ensures View() == UserWrote(old(View()), ws)
    {
      hide Valid, UserWrote;
      UserWroteNone(View());
      for n := 0 to |ws|
        invariant Valid() && joined == old(joined) && (old(mask).write ==> mask.write)
        invariant View() == UserWrote(old(View()), ws[..n])
      {
        UserWroteNext(old(View()), ws[..n], ws[n]);
        assert ws[..n + 1] == ws[..n] + [ws[n]];
        DoWrite(ws[n]);
      }
      assert ws[..|ws|] == ws;
    }

    method HandleErrorEvent()
      requires Valid()
      modifies this
      ensures Valid() && joined == old(joined) && View() == ErrorHandled(old(View())) && mask == old(mask)
    {
      hide Books.Balanced;
      if state == Inactive {
        return;
      }
      ChannelInactive(ByError);
    }

    /** Dispatch of one ready set, in the order error, read, write. The kernel reported writability only if it was asked
        for at the time of the poll; what the earlier handlers do cannot make the write handler's assertions fail. */
    method HandleEvent(ready: Ready, outcome: ReadOutcome, replying: seq<UserWrite>) returns (ghost replies: seq<Reply>)
      requires Valid() && (ready.write ==> mask.write) && AllOk(replying)
      modifies this
      ensures Valid() && joined == old(joined)
      ensures var s := BeforeWrite(old(View()), ready, outcome, replying);
        if ready.write then Legal(s.books.blocks, 0, replies) && View() == WriteHandled(s, replies) else View() == s
    {
      hide Valid, WriteHandled, Legal;
      replies := [];
      if ready.error {
        HandleErrorEvent();
      }
      if ready.read {
        HandleReadEvent(outcome, replying);
      }
      if ready.write {
        StopsThere(writeBuffer, 0);
        var answers: seq<Reply> :| Legal(writeBuffer, 0, answers);
        replies := answers;
        HandleWriteEvent(answers);
      }
    }
  }

  /** Any run of a channel from its activation, whatever the kernel and the user do, is a run of the specification: what
      holds of those runs holds of it. Interest and list agree at the end, and disconnect fired at most once. */
  method AnyRun(script: seq<Happening>)
    returns (ch: SocketChannel, ghost answers: seq<seq<Reply>>, ghost statuses: seq<Status>)
    requires forall i :: 0 <= i < |script| ==> AllOk(script[i].ws)
    ensures fresh(ch) && ch.Valid() && ch.joined
    ensures IsRun(script, answers, statuses) && ch.View() == statuses[|script|]
    ensures ch.disconnects == if ch.state == Inactive then 1 else 0
    ensures ch.state != Inactive ==> ch.mask == ch.events && (ch.mask.write <==> ch.writeBuffer != [])
    ensures CountWrites(script) <= 2 * CHUNK && ch.state != Inactive ==>
      Offered(script) == ch.accepted == ch.sent + Pending(ch.writeBuffer)
  {
    ch := new SocketChannel();
    ch.ChannelActive();
    answers, statuses := [], [ch.View()];
    for i := 0 to |script|
      invariant fresh(ch) && ch.Valid() && ch.joined
      invariant |statuses| == i + 1 && IsRun(script[..i], answers, statuses) && ch.View() == statuses[i]
    {
      hide SocketChannel.Valid, IsRun, Moves;
      assert AllOk(script[i].ws);
      ghost var replies := Happen(ch, script[i]);
      RunNext(script[..i], answers, statuses, script[i], replies, ch.View());
      assert script[..i + 1] == script[..i] + [script[i]];
      answers, statuses := answers + [replies], statuses + [ch.View()];
    }
    assert script[..|script|] == script;
    AcceptanceTheorem(script, answers, statuses, |script|);
    if CountWrites(script) <= 2 * CHUNK {
      FewWritesInOrder(script, answers, statuses, |script|);
    }
  }

  /** One happening; the kernel reports writability only if it was asked for. */
  method Happen(ch: SocketChannel, h: Happening) returns (ghost replies: seq<Reply>)
    requires ch.Valid() && ch.joined && AllOk(h.ws)
    modifies ch
    ensures ch.Valid() && ch.joined && Moves(h, replies, old(ch.View()), ch.View())
  {
    hide WriteHandled, BeforeWrite, Legal, UserWrote, Status.Ok;
    replies := [];
    match h
    case Writing(ws) =>
      ch.UserWrites(ws);
    case Reported(ready, outcome, ws) =>
      InactiveIgnores(ch.View(), ready, outcome, ws);
      replies := ch.HandleEvent(ready.(write := ready.write && ch.mask.write), outcome, ws);
  }
}
