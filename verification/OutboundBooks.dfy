/** The books of an outbound stream: which bytes were accepted, sent and are pending, and which completion callbacks are
    queued and scheduled. */
module OutboundBooks {
  import opened BigEndian
  import opened ByteBuffers
  import opened BlockList

  /** A queued completion callback; null callbacks are queued too. */
  datatype Callback = Callback(write: nat, present: bool)

  /** An accepted write: the length of the stream after it, and whether it carries a callback. */
  datatype Accepted = Accepted(end: nat, present: bool)

  datatype Books = Books(
    accepted: seq<byte>,
    sent: seq<byte>,
    blocks: seq<Block>,
    writes: seq<Accepted>,
    callbacks: seq<Callback>,
    scheduled: seq<nat>,
    inOrder: bool, // no gathering write met more than two chunks of blocks
    broken: bool)  // a gathering write failed hard
  {
    /** Accepted bytes are sent bytes followed by pending bytes. */
    ghost predicate Stream() {
      && NoEmpty(blocks)
      && |sent| <= |accepted|
      && (inOrder ==> IsPrefix(sent, accepted))
      && (!broken ==> |accepted| == |sent| + |Pending(blocks)|)
      && (inOrder && !broken ==> accepted == sent + Pending(blocks))
    }

    /** The number of writes whose callback has left the queue. */
    function Done(): int {
      |writes| - |callbacks|
    }

    ghost predicate Queue() {
      && |callbacks| <= |writes|
      && callbacks == Latest(writes, Done())
      && (callbacks == [] <==> blocks == [])
      && |blocks| <= |callbacks|
    }

    /** Write ends increase, and every write whose callback has left the queue is sent to its last byte. */
    ghost predicate Ends() {
      && (forall i :: 0 <= i < |writes| ==> writes[i].end <= |accepted|)
      && (forall i, j :: 0 <= i < j < |writes| ==> writes[i].end < writes[j].end)
      && (forall i :: 0 <= i < Done() && i < |writes| ==> writes[i].end <= |sent|)
    }

    ghost predicate Balanced() {
      Stream() && Queue() && Ends() && scheduled == WithCallback(writes, Done())
    }
  }

  function NoBooks(): Books {
    Books([], [], [], [], [], [], true, false)
  }

  /** The writes below `k` that carry a callback, in order. */
  function WithCallback(writes: seq<Accepted>, k: nat): seq<nat>
    requires k <= |writes|
  {
    if k == 0 then []
    else WithCallback(writes, k - 1) + if writes[k - 1].present then [k - 1] else []
  }

  /** The callbacks of the writes from `k` on, as queued. */
  function Latest(writes: seq<Accepted>, k: nat): (queued: seq<Callback>)
    requires k <= |writes|
    ensures |queued| == |writes| - k
  {
    seq(|writes| - k, i requires 0 <= i < |writes| - k => Callback(k + i, writes[k + i].present))
  }

  lemma {:induction false} WithCallbackFrame(writes: seq<Accepted>, more: seq<Accepted>, k: nat)
    requires k <= |writes|
    ensures WithCallback(writes + more, k) == WithCallback(writes, k)
  {
    if k > 0 {
      WithCallbackFrame(writes, more, k - 1);
    }
  }

  /** In balanced books, callbacks were scheduled in write order, each at most once, none for a write that has a byte
      unsent; and the callbacks still to come are those of the later writes. */
  lemma ScheduledInOrder(b: Books)
    requires b.Balanced()
    ensures forall i, j :: 0 <= i < j < |b.scheduled| ==> b.scheduled[i] < b.scheduled[j]
    ensures forall w :: w in b.scheduled ==> 0 <= w < |b.writes| && b.writes[w].present && b.writes[w].end <= |b.sent|
    ensures forall w :: 0 <= w < |b.writes| && b.writes[w].present ==>
      (w in b.scheduled <==> Callback(w, true) !in b.callbacks)
  {
    WithCallbackIncreases(b.writes, b.Done());
    forall w | 0 <= w < |b.writes| && b.writes[w].present
      ensures w in b.scheduled <==> Callback(w, true) !in b.callbacks
    {
      if w >= b.Done() {
        assert b.callbacks[w - b.Done()] == Callback(w, true);
      }
    }
  }

  lemma {:induction false} WithCallbackIncreases(writes: seq<Accepted>, k: nat)
    requires k <= |writes|
    ensures forall i, j :: 0 <= i < j < |WithCallback(writes, k)| ==>
      WithCallback(writes, k)[i] < WithCallback(writes, k)[j]
    ensures forall w :: w in WithCallback(writes, k) <==> 0 <= w < k && writes[w].present
  {
    if k > 0 {
      WithCallbackIncreases(writes, k - 1);
      var before := WithCallback(writes, k - 1);
      assert forall i :: 0 <= i < |before| ==> before[i] in before;
    }
  }

  /** Books after a write of `data` of which the kernel took the first `n` bytes and the list got the rest. */
  function Take(b: Books, data: seq<byte>, present: bool, n: nat, blocks: seq<Block>): Books
    requires n <= |data|
  {
    var write := Accepted(|b.accepted| + |data|, present);
    var bytes := b.(
      accepted := b.accepted + data, sent := b.sent + data[..n], writes := b.writes + [write], blocks := blocks);
    if n < |data| then bytes.(callbacks := b.callbacks + [Callback(|b.writes|, present)])
    else bytes.(scheduled := b.scheduled + if present then [|b.writes|] else [])
  }

  lemma Extends(accepted: seq<byte>, sent: seq<byte>, pending: seq<byte>, data: seq<byte>, n: nat)
    requires accepted == sent + pending && n <= |data| && (n > 0 ==> pending == [])
    ensures accepted + data == (sent + data[..n]) + (pending + data[n..])
    ensures IsPrefix(sent + data[..n], accepted + data)
  {
    assert data == data[..n] + data[n..];
    if n == 0 {
      assert data[..n] == [] && data[n..] == data;
    }
  }

  lemma QueueingStream(b: Books, data: seq<byte>, present: bool, n: nat, blocks: seq<Block>)
    requires b.Stream() && !b.broken && n < |data| && (n > 0 ==> b.blocks == [])
    requires NoEmpty(blocks) && Pending(blocks) == Pending(b.blocks) + data[n..]
    ensures Take(b, data, present, n, blocks).Stream()
  {
    hide Pending, NoEmpty, IsPrefix;
    PendingNone();
    if b.inOrder {
      Extends(b.accepted, b.sent, Pending(b.blocks), data, n);
    }
  }

  /** A write that leaves bytes behind; only an empty list lets bytes go to the kernel at once. */
  lemma QueueingBalances(b: Books, data: seq<byte>, present: bool, n: nat, blocks: seq<Block>)
    requires b.Balanced() && !b.broken && n < |data| && (n > 0 ==> b.blocks == []) && |blocks| <= |b.blocks| + 1
    requires NoEmpty(blocks) && Pending(blocks) == Pending(b.blocks) + data[n..]
    ensures Take(b, data, present, n, blocks).Balanced()
  {
    hide Pending, NoEmpty, Books.Stream, WithCallback;
    var b' := Take(b, data, present, n, blocks);
    QueueingStream(b, data, present, n, blocks);
    StreamBlocks(b);
    StreamBlocks(b');
    WithCallbackFrame(b.writes, [b'.writes[|b.writes|]], b.Done());
    assert b'.Done() == b.Done();
    assert b'.callbacks == Latest(b'.writes, b.Done());
    assert b'.Ends();
  }

  /** A write that the kernel takes whole. */
  lemma SendingBalances(b: Books, data: seq<byte>, present: bool)
    requires b.Balanced() && !b.broken && data != [] && b.blocks == []
    ensures Take(b, data, present, |data|, []).Balanced()
  {
    hide Pending, NoEmpty, Books.Stream, WithCallback, Latest;
    var b' := Take(b, data, present, |data|, []);
    SendingStream(b, data, present);
    StreamBlocks(b);
    StreamBlocks(b');
    WithCallbackFrame(b.writes, [b'.writes[|b.writes|]], |b.writes|);
    WithCallbackNext(b'.writes, |b.writes|);
    assert b'.Done() == |b'.writes| && b'.callbacks == [];
    LatestOfNone(b.writes);
    LatestOfNone(b'.writes);
    assert b'.Ends();
  }

  lemma LatestOfNone(writes: seq<Accepted>)
    ensures Latest(writes, |writes|) == []
  {
  }

  lemma WithCallbackNext(writes: seq<Accepted>, k: nat)
    requires k < |writes|
    ensures WithCallback(writes, k + 1) == WithCallback(writes, k) + if writes[k].present then [k] else []
  {
  }

  lemma SendingStream(b: Books, data: seq<byte>, present: bool)
    requires b.Stream() && !b.broken && b.blocks == []
    ensures Take(b, data, present, |data|, []).Stream()
    ensures |b.sent| == |b.accepted|
  {
    hide Pending;
    PendingNone();
    assert data[..|data|] == data;
    assert b.sent + [] == b.sent;
    assert b.inOrder ==> b.accepted == b.sent;
    assert b.inOrder ==> b.accepted + data == (b.sent + data) + [];
  }

  /** Books after a gathering write that put `out` on the wire. */
  function Drain(b: Books, out: seq<byte>): Books {
    b.(sent := b.sent + out, inOrder := b.inOrder && |b.blocks| <= 2 * CHUNK)
  }

  lemma GatheredStream(b: Books, replies: seq<Reply>)
    requires b.Stream() && !b.broken && Legal(b.blocks, 0, replies)
    ensures var out := Gather(b.blocks, 0, replies).sent;
      && |out| <= |Pending(b.blocks)|
      && (|out| == |Pending(b.blocks)| ==> out == Pending(b.blocks))
      && (|b.blocks| <= 2 * CHUNK ==> IsPrefix(out, Pending(b.blocks)))
  {
    GatherBounded(b.blocks, 0, replies);
    assert b.blocks[0..] == b.blocks;
    if |b.blocks| <= 2 * CHUNK {
      TwoChunksInOrder(b.blocks, replies);
    }
  }

  /** A write event that empties the list empties the callback queue too. */
  lemma EmptyingBalances(b: Books, out: seq<byte>)
    requires b.Balanced() && !b.broken && out == Pending(b.blocks)
    ensures Drain(b, out).(blocks := [], callbacks := [], scheduled := WithCallback(b.writes, |b.writes|)).Balanced()
  {
  }

  lemma Splice(accepted: seq<byte>, sent: seq<byte>, pending: seq<byte>, out: seq<byte>)
    requires accepted == sent + pending && IsPrefix(out, pending)
    ensures accepted == (sent + out) + pending[|out|..] && IsPrefix(sent + out, accepted)
  {
    assert pending == out + pending[|out|..];
  }

  lemma TrimmedStream(b: Books, out: seq<byte>)
    requires b.Stream() && !b.broken && |out| < |Pending(b.blocks)|
    requires |b.blocks| <= 2 * CHUNK ==> IsPrefix(out, Pending(b.blocks))
    ensures Drain(b, out).(blocks := Dropped(b.blocks, |out|)).Stream()
  {
    hide Dropped, Pending, NoEmpty, IsPrefix;
    DroppedExactly(b.blocks, |out|);
    if Drain(b, out).inOrder {
      Splice(b.accepted, b.sent, Pending(b.blocks), out);
    }
  }

  /** Books whose stream moved on, with the same writes and callbacks, stay balanced. */
  lemma StreamMoves(b: Books, b': Books)
    requires b.Balanced() && b'.Stream() && (b'.blocks == [] <==> b.blocks == []) && |b.sent| <= |b'.sent|
    requires |b'.blocks| <= |b.blocks|
    requires b'.writes == b.writes && b'.callbacks == b.callbacks && b'.scheduled == b.scheduled
    requires b'.accepted == b.accepted
    ensures b'.Balanced()
  {
    hide Books.Stream, WithCallback, Latest;
  }

  /** A write event that sends some of the list drops exactly what it sent. */
  lemma TrimmingBalances(b: Books, out: seq<byte>)
    requires b.Balanced() && !b.broken && |out| < |Pending(b.blocks)|
    requires |b.blocks| <= 2 * CHUNK ==> IsPrefix(out, Pending(b.blocks))
    ensures Drain(b, out).(blocks := Dropped(b.blocks, |out|)).Balanced()
  {
    hide Dropped, Pending, NoEmpty, IsPrefix, Books.Balanced;
    BalancedStream(b);
    hide Books.Stream;
    TrimmedStream(b, out);
    DroppedExactly(b.blocks, |out|);
    StreamMoves(b, Drain(b, out).(blocks := Dropped(b.blocks, |out|)));
  }

  lemma StreamBlocks(b: Books)
    requires b.Stream()
    ensures NoEmpty(b.blocks) && (b.blocks == [] <==> |Pending(b.blocks)| == 0)
    ensures |b.sent| <= |b.accepted|
  {
    PendingNonEmpty(b.blocks);
  }

  lemma BalancedStream(b: Books)
    requires b.Balanced()
    ensures b.Stream() && NoEmpty(b.blocks) && (b.blocks == [] <==> |Pending(b.blocks)| == 0)
  {
    PendingNonEmpty(b.blocks);
  }

  /** A gathering write that fails hard may have sent a part that stays in the list. */
  lemma FailingBalances(b: Books, out: seq<byte>)
    requires b.Balanced() && !b.broken && |out| <= |Pending(b.blocks)|
    requires |b.blocks| <= 2 * CHUNK ==> IsPrefix(out, Pending(b.blocks))
    ensures Drain(b, out).(broken := true).Balanced()
  {
    hide Pending, NoEmpty, IsPrefix, WithCallback, Latest;
    if Drain(b, out).inOrder {
      Splice(b.accepted, b.sent, Pending(b.blocks), out);
    }
  }
}
