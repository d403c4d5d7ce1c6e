/** The list of blocks waiting to be sent, and the gathering write that drains it. */
module BlockList {
  import opened BigEndian
  import opened Capacity
  import opened ByteBuffers

  /** The bytes of all blocks, in order. */
  function Pending(blocks: seq<Block>): seq<byte> {
    if blocks == [] then [] else blocks[0].readable + Pending(blocks[1..])
  }

  predicate NoEmpty(blocks: seq<Block>) {
    forall i :: 0 <= i < |blocks| ==> blocks[i].readable != []
  }

  lemma {:induction false} PendingSplit(blocks: seq<Block>, more: seq<Block>)
    ensures Pending(blocks + more) == Pending(blocks) + Pending(more)
  {
    hide Pending;
    if blocks == [] {
      assert blocks + more == more;
      assert Pending([]) == [] by { PendingNone(); }
    } else {
      PendingSplit(blocks[1..], more);
      PendingHead(blocks + more);
      PendingHead(blocks);
      assert (blocks + more)[1..] == blocks[1..] + more && (blocks + more)[0] == blocks[0];
      Associates(blocks[0].readable, Pending(blocks[1..]), Pending(more));
    }
  }

  lemma PendingNone()
    ensures Pending([]) == []
  {
  }

  lemma Associates(a: seq<byte>, b: seq<byte>, c: seq<byte>)
    ensures a + (b + c) == (a + b) + c
  {
  }

  lemma PendingHead(blocks: seq<Block>)
    requires blocks != []
    ensures Pending(blocks) == blocks[0].readable + Pending(blocks[1..])
  {
  }

  lemma PendingOne(block: Block)
    ensures Pending([block]) == block.readable
  {
    assert [block][1..] == [];
  }

  /** Exchanging the last block exchanges the tail of the pending bytes. */
  lemma PendingLast(blocks: seq<Block>, last: Block)
    requires blocks != []
    ensures Pending(blocks[..|blocks| - 1] + [last]) == Pending(blocks[..|blocks| - 1]) + last.readable
    ensures Pending(blocks) == Pending(blocks[..|blocks| - 1]) + blocks[|blocks| - 1].readable
  {
    hide Pending;
    var front := blocks[..|blocks| - 1];
    PendingSplit(front, [last]);
    PendingSplit(front, [blocks[|blocks| - 1]]);
    PendingOne(last);
    PendingOne(blocks[|blocks| - 1]);
    assert blocks == front + [blocks[|blocks| - 1]];
  }

  lemma PendingNonEmpty(blocks: seq<Block>)
    requires NoEmpty(blocks)
    ensures Pending(blocks) == [] <==> blocks == []
  {
  }

  /** The list after a write that could not go to the socket: the last block takes the data if it has room, else a block
      is started. */
  function Appended(blocks: seq<Block>, data: seq<byte>): (appended: seq<Block>)
    ensures |blocks| <= |appended| <= |blocks| + 1
  {
    if blocks != [] && blocks[|blocks| - 1].writable >= |data| then
      blocks[..|blocks| - 1] + [blocks[|blocks| - 1].Append(data)]
    else
      NewCapacityHolds(|data|);
      blocks + [BlockOf(data)]
  }

  lemma AppendedHolds(blocks: seq<Block>, data: seq<byte>)
    requires data != [] && NoEmpty(blocks)
    ensures Appended(blocks, data) != [] && NoEmpty(Appended(blocks, data))
    ensures Pending(Appended(blocks, data)) == Pending(blocks) + data
    ensures |Appended(blocks, data)| == |blocks| <==> blocks != [] && blocks[|blocks| - 1].writable >= |data|
  {
    hide Pending;
    if blocks != [] && blocks[|blocks| - 1].writable >= |data| {
      PendingLast(blocks, blocks[|blocks| - 1].Append(data));
    } else {
      NewCapacityHolds(|data|);
      PendingSplit(blocks, [BlockOf(data)]);
      PendingOne(BlockOf(data));
    }
  }

  /** The list without its first `n` bytes. */
  function Dropped(blocks: seq<Block>, n: nat): seq<Block> {
    if blocks == [] || n == 0 then blocks
    else if |blocks[0].readable| <= n then Dropped(blocks[1..], n - |blocks[0].readable|)
    else [blocks[0].Skip(n)] + blocks[1..]
  }

  lemma DropFromSum(a: seq<byte>, b: seq<byte>, n: nat)
    requires n <= |a| + |b|
    ensures (a + b)[n..] == if |a| <= n then b[n - |a|..] else a[n..] + b
  {
  }

  lemma PendingCons(block: Block, rest: seq<Block>)
    ensures Pending([block] + rest) == block.readable + Pending(rest)
  {
    assert ([block] + rest)[1..] == rest;
  }

  /** Exactly the first `n` bytes go, and no empty block is left behind. */
  lemma {:induction false} DroppedExactly(blocks: seq<Block>, n: nat)
    requires n <= |Pending(blocks)| && NoEmpty(blocks)
    ensures Pending(Dropped(blocks, n)) == Pending(blocks)[n..]
    ensures NoEmpty(Dropped(blocks, n))
    ensures Dropped(blocks, n) == [] <==> n == |Pending(blocks)|
    ensures |Dropped(blocks, n)| <= |blocks|
  {
    hide Pending;
    PendingNonEmpty(blocks);
    if blocks != [] && n > 0 {
      var head, tail := blocks[0], blocks[1..];
      assert blocks == [head] + tail;
      PendingCons(head, tail);
      DropFromSum(head.readable, Pending(tail), n);
      if |head.readable| <= n {
        DroppedExactly(tail, n - |head.readable|);
      } else {
        PendingCons(head.Skip(n), tail);
      }
    }
  }

  // writev in chunks.

  const CHUNK: nat := 256 // IOV_MAX >> 2

  /** What the kernel answers to one write: a count, EAGAIN or EINTR, or a hard error. */
  datatype Reply = Wrote(n: nat) | Again | Failed

  function Min(a: nat, b: nat): nat {
    if a < b then a else b
  }

  /** The blocks that the call at index `at` passes to the kernel. */
  function Chunk(blocks: seq<Block>, at: nat): seq<Block>
    requires at <= |blocks|
  {
    blocks[at..at + Min(|blocks| - at, CHUNK)]
  }

  /** The length that the code expects that call to write: its summation starts at `at` but ends at the chunk's
      size, so it is the length of the first chunk, and zero for every later one. */
  function Expected(blocks: seq<Block>, at: nat): nat
    requires at <= |blocks|
  {
    var end := Min(|blocks| - at, CHUNK);
    if at < end then |Pending(blocks[at..end])| else 0
  }

  /** The answers are legal: no call writes more than it was given. */
  predicate Legal(blocks: seq<Block>, at: nat, replies: seq<Reply>)
    requires at <= |blocks|
    decreases |blocks| - at
  {
    at < |blocks| ==>
      && replies != []
      && (replies[0].Wrote? ==>
            && replies[0].n <= |Pending(Chunk(blocks, at))|
            && Legal(blocks, at + |Chunk(blocks, at)|, replies[1..]))
  }

  /** What a gathering write puts on the wire, and the count it returns. */
  datatype Outcome = Outcome(sent: seq<byte>, failed: bool)

  function Gather(blocks: seq<Block>, at: nat, replies: seq<Reply>): Outcome
    requires at <= |blocks| && Legal(blocks, at, replies)
    decreases |blocks| - at
  {
    if at == |blocks| then Outcome([], false)
    else match replies[0]
      case Failed => Outcome([], true)
      case Again => Outcome([], false)
      case Wrote(n) =>
        var part := Pending(Chunk(blocks, at))[..n];
        if n < Expected(blocks, at) then Outcome(part, false)
        else
          var rest := Gather(blocks, at + |Chunk(blocks, at)|, replies[1..]);
          Outcome(part + rest.sent, rest.failed)
  }

  /** What the next call of a gathering write does. */
  lemma GatherNext(blocks: seq<Block>, at: nat, replies: seq<Reply>)
    requires at < |blocks| && Legal(blocks, at, replies)
    ensures replies != []
    ensures replies[0].Failed? ==> Gather(blocks, at, replies) == Outcome([], true)
    ensures replies[0].Again? ==> Gather(blocks, at, replies) == Outcome([], false)
    ensures replies[0].Wrote? ==>
      var n, chunk := replies[0].n, Chunk(blocks, at);
      && n <= |Pending(chunk)| && Legal(blocks, at + |chunk|, replies[1..])
      && var rest := Gather(blocks, at + |chunk|, replies[1..]);
         Gather(blocks, at, replies) ==
           if n < Expected(blocks, at) then Outcome(Pending(chunk)[..n], false)
           else Outcome(Pending(chunk)[..n] + rest.sent, rest.failed)
  {
  }

  lemma GatherDone(blocks: seq<Block>, replies: seq<Reply>)
    requires Legal(blocks, |blocks|, replies)
    ensures Gather(blocks, |blocks|, replies) == Outcome([], false)
  {
  }

  /** The bytes that the kernel says it took. */
  function Taken(replies: seq<Reply>): nat {
    if replies == [] then 0
    else (if replies[0].Wrote? then replies[0].n else 0) + Taken(replies[1..])
  }

  /** A gathering write goes on, chunk after chunk, over answers that are no shorter than it expects, and stops at the
      first that is, or that is no count, or at the end of the list. It has put on the wire as many bytes as the kernel
      took, and has failed exactly if it stopped at a hard error. */
  lemma {:induction false} GatherCalls(blocks: seq<Block>, at: nat, replies: seq<Reply>) returns (calls: nat)
    requires at <= |blocks| && Legal(blocks, at, replies)
    ensures calls <= |replies| && (calls == 0 <==> at == |blocks|)
    ensures |Gather(blocks, at, replies).sent| == Taken(replies[..calls])
    ensures Gather(blocks, at, replies).failed <==> calls > 0 && replies[calls - 1].Failed?
    ensures GoesOn(blocks, at, replies, calls)
    decreases |blocks| - at
  {
    hide Pending, Gather, Legal, Expected, GoesOn;
    calls := 0;
    if at < |blocks| {
      GatherNext(blocks, at, replies);
      calls := 1;
      TakenFirst(replies, 1);
      if replies[0].Wrote? && replies[0].n >= Expected(blocks, at) {
        var next := at + |Chunk(blocks, at)|;
        var more := GatherCalls(blocks, next, replies[1..]);
        calls := 1 + more;
        TakenFirst(replies, calls);
        assert replies[1..][..more] == replies[1..calls];
        OneMore(blocks, at, replies, more);
      } else {
        StopsAtOnce(blocks, at, replies);
      }
    } else {
      GatherDone(blocks, replies);
      NoCalls(blocks, at, replies);
    }
  }

  lemma NoCalls(blocks: seq<Block>, at: nat, replies: seq<Reply>)
    ensures GoesOn(blocks, at, replies, 0)
  {
  }

  lemma StopsAtOnce(blocks: seq<Block>, at: nat, replies: seq<Reply>)
    requires at < |blocks| && replies != [] && (replies[0].Wrote? ==> replies[0].n < Expected(blocks, at))
    ensures GoesOn(blocks, at, replies, 1)
  {
    hide Expected;
  }

  lemma OneMore(blocks: seq<Block>, at: nat, replies: seq<Reply>, more: nat)
    requires at < |blocks| && replies != [] && replies[0].Wrote? && replies[0].n >= Expected(blocks, at)
    requires more <= |replies| - 1 && (more == 0 <==> at + |Chunk(blocks, at)| == |blocks|)
    requires GoesOn(blocks, at + |Chunk(blocks, at)|, replies[1..], more)
    ensures GoesOn(blocks, at, replies, 1 + more)
  {
    hide Expected;
    if more > 0 {
      forall k | 1 <= k < more ensures GoesPast(blocks, at, replies, k) {
        assert GoesPast(blocks, at + CHUNK, replies[1..], k - 1);
      }
    }
  }

  /** Call `k` is not the last: it wrote no less than expected. */
  ghost predicate GoesPast(blocks: seq<Block>, at: nat, replies: seq<Reply>, k: nat) {
    && k < |replies| && at + k * CHUNK < |blocks|
    && replies[k].Wrote? && replies[k].n >= Expected(blocks, at + k * CHUNK)
  }

  /** All calls but the last go on, and the last one stops: it is short, or no count, or at the end of the list. */
  ghost predicate GoesOn(blocks: seq<Block>, at: nat, replies: seq<Reply>, calls: nat) {
    && calls <= |replies|
    && (forall k :: 0 <= k < calls - 1 ==> GoesPast(blocks, at, replies, k))
    && (calls > 0 && replies[calls - 1].Wrote? ==>
          at + calls * CHUNK >= |blocks| || replies[calls - 1].n < Expected(blocks, at + (calls - 1) * CHUNK))
  }

  lemma TakenFirst(replies: seq<Reply>, n: nat)
    requires 1 <= n <= |replies|
    ensures Taken(replies[..n]) == (if replies[0].Wrote? then replies[0].n else 0) + Taken(replies[1..n])
  {
    assert replies[..n][1..] == replies[1..n];
  }

  ghost predicate IsPrefix(a: seq<byte>, b: seq<byte>) {
    |a| <= |b| && a == b[..|a|]
  }

  lemma ChunkSplit(blocks: seq<Block>, at: nat)
    requires at <= |blocks|
    ensures Pending(blocks[at..]) == Pending(Chunk(blocks, at)) + Pending(blocks[at + |Chunk(blocks, at)|..])
  {
    PendingSplit(Chunk(blocks, at), blocks[at + |Chunk(blocks, at)|..]);
    assert blocks[at..] == Chunk(blocks, at) + blocks[at + |Chunk(blocks, at)|..];
  }

  lemma FirstExpected(blocks: seq<Block>)
    ensures Expected(blocks, 0) == |Pending(Chunk(blocks, 0))|
  {
    if blocks == [] {
      assert Chunk(blocks, 0) == [];
    }
  }

  /** A gathering write never sends more than is pending; if it sends that much, it sent exactly that. */
  lemma {:induction false} GatherBounded(blocks: seq<Block>, at: nat, replies: seq<Reply>)
    requires at <= |blocks| && Legal(blocks, at, replies)
    ensures |Gather(blocks, at, replies).sent| <= |Pending(blocks[at..])|
    ensures |Gather(blocks, at, replies).sent| == |Pending(blocks[at..])| ==>
      Gather(blocks, at, replies).sent == Pending(blocks[at..])
    decreases |blocks| - at
  {
    ChunkSplit(blocks, at);
    if at < |blocks| && replies[0].Wrote? {
      GatherBounded(blocks, at + |Chunk(blocks, at)|, replies[1..]);
    }
  }

  /** From the second chunk on, with no third one behind it, whatever is sent is a prefix. */
  lemma LastChunkInOrder(blocks: seq<Block>, at: nat, replies: seq<Reply>)
    requires at <= |blocks| <= at + CHUNK && Legal(blocks, at, replies)
    ensures IsPrefix(Gather(blocks, at, replies).sent, Pending(blocks[at..]))
  {
    assert Chunk(blocks, at) == blocks[at..];
  }

  lemma PrefixJoins(head: seq<byte>, a: seq<byte>, b: seq<byte>)
    requires IsPrefix(a, b)
    ensures IsPrefix(head[..|head|] + a, head + b)
  {
    assert head[..|head|] == head;
  }

  /** With at most two chunks the bytes sent are the first bytes pending, whatever the kernel answers. */
  lemma TwoChunksInOrder(blocks: seq<Block>, replies: seq<Reply>)
    requires |blocks| <= 2 * CHUNK && Legal(blocks, 0, replies)
    ensures IsPrefix(Gather(blocks, 0, replies).sent, Pending(blocks))
  {
    hide Pending, Expected;
    assert blocks[0..] == blocks;
    FirstExpected(blocks);
    ChunkSplit(blocks, 0);
    if blocks != [] && replies[0].Wrote? {
      var next := |Chunk(blocks, 0)|;
      LastChunkInOrder(blocks, next, replies[1..]);
      if replies[0].n == |Pending(Chunk(blocks, 0))| {
        PrefixJoins(Pending(Chunk(blocks, 0)), Gather(blocks, next, replies[1..]).sent, Pending(blocks[next..]));
      }
    }
  }

  /** One block for each of `count` one-byte writes, of zeros but for the one at `odd`. */
  function Singles(count: nat, odd: nat): seq<Block> {
    seq(count, i => Block([SingleByte(i, odd)], 0))
  }

  function SingleByte(i: int, odd: int): byte {
    if i == odd then 1 else 0
  }

  /** That is the list after those writes. */
  lemma SinglesAppended(count: nat, odd: nat)
    ensures Appended(Singles(count, odd), [SingleByte(count, odd)]) == Singles(count + 1, odd)
  {
    NewCapacityHolds(1);
    assert BlockOf([SingleByte(count, odd)]) == Block([SingleByte(count, odd)], 0);
  }

  lemma {:induction false} ZeroBytes(blocks: seq<Block>)
    requires forall i :: 0 <= i < |blocks| ==> blocks[i].readable == [0]
    ensures |Pending(blocks)| == |blocks|
    ensures forall j :: 0 <= j < |Pending(blocks)| ==> Pending(blocks)[j] == 0
  {
    if blocks != [] {
      ZeroBytes(blocks[1..]);
    }
  }

  /** One call that writes `n` bytes, no fewer than the code expects, followed by the rest. */
  lemma GatherStep(blocks: seq<Block>, at: nat, n: nat, rest: seq<Reply>)
    requires at < |blocks| && Expected(blocks, at) <= n <= |Pending(Chunk(blocks, at))|
    requires Legal(blocks, at + |Chunk(blocks, at)|, rest)
    ensures Legal(blocks, at, [Wrote(n)] + rest)
    ensures Gather(blocks, at, [Wrote(n)] + rest).sent
         == Pending(Chunk(blocks, at))[..n] + Gather(blocks, at + |Chunk(blocks, at)|, rest).sent
  {
    assert ([Wrote(n)] + rest)[1..] == rest;
  }

  lemma ChunksOfSingles(count: nat)
    requires count > 2 * CHUNK
    ensures var blocks := Singles(count, 2 * CHUNK);
      && |Chunk(blocks, 0)| == |Pending(Chunk(blocks, 0))| == CHUNK
      && |Chunk(blocks, CHUNK)| == |Pending(Chunk(blocks, CHUNK))| == CHUNK
      && Pending(Chunk(blocks, CHUNK))[1] == 0
      && |Pending(Chunk(blocks, 2 * CHUNK))| >= 1 && Pending(Chunk(blocks, 2 * CHUNK))[0] == 1
  {
    var blocks := Singles(count, 2 * CHUNK);
    var c0, c1, c2 := Chunk(blocks, 0), Chunk(blocks, CHUNK), Chunk(blocks, 2 * CHUNK);
    hide Pending;
    forall i | 0 <= i < CHUNK ensures c0[i].readable == c1[i].readable == [0] {
      assert c0[i] == blocks[i] && c1[i] == blocks[CHUNK + i];
    }
    ZeroBytes(c0);
    ZeroBytes(c1);
    OddFirst(c2);
  }

  /** With a third chunk the order can break: after a short second write the code goes on to the third. */
  lemma ThirdChunkOutOfOrder(count: nat) returns (blocks: seq<Block>, replies: seq<Reply>)
    requires count > 2 * CHUNK
    ensures blocks == Singles(count, 2 * CHUNK)
    ensures |blocks| == count && NoEmpty(blocks) && Legal(blocks, 0, replies)
    ensures !IsPrefix(Gather(blocks, 0, replies).sent, Pending(blocks))
  {
    blocks := Singles(count, 2 * CHUNK);
    assert NoEmpty(blocks);
    ChunksOfSingles(count);
    FirstExpected(blocks);
    LaterExpected(blocks, CHUNK);
    LaterExpected(blocks, 2 * CHUNK);
    ChunkSplit(blocks, 0);
    ChunkSplit(blocks, CHUNK);
    assert blocks[0..] == blocks;
    hide Gather, Legal, Expected, Pending, Singles, NoEmpty, Chunk;
    StopsThere(blocks, 2 * CHUNK + |Chunk(blocks, 2 * CHUNK)|);
    GatherStep(blocks, 2 * CHUNK, 1, [Again]);
    GatherStep(blocks, CHUNK, 1, [Wrote(1)] + [Again]);
    GatherStep(blocks, 0, CHUNK, [Wrote(1)] + ([Wrote(1)] + [Again]));
    replies := [Wrote(CHUNK)] + ([Wrote(1)] + ([Wrote(1)] + [Again]));
    var p0, p1, p2 := Pending(Chunk(blocks, 0)), Pending(Chunk(blocks, CHUNK)), Pending(Chunk(blocks, 2 * CHUNK));
    hide IsPrefix;
    NotInOrder(p0, p1, p2, Pending(blocks[2 * CHUNK..]));
  }

  /** All of `p0`, then the first byte of `p1` and the first of `p2`, where the second of `p1` differs from that. */
  lemma NotInOrder(p0: seq<byte>, p1: seq<byte>, p2: seq<byte>, rest: seq<byte>)
    requires |p1| >= 2 && |p2| >= 1 && p1[1] == 0 && p2[0] == 1
    ensures !IsPrefix(p0[..|p0|] + (p1[..1] + (p2[..1] + [])), p0 + (p1 + rest))
  {
    assert (p0[..|p0|] + (p1[..1] + (p2[..1] + [])))[|p0| + 1] == 1;
    assert (p0 + (p1 + rest))[|p0| + 1] == 0;
  }

  lemma OddFirst(blocks: seq<Block>)
    requires blocks != [] && blocks[0].readable == [1]
    ensures |Pending(blocks)| >= 1 && Pending(blocks)[0] == 1
  {
  }

  lemma LaterExpected(blocks: seq<Block>, at: nat)
    requires CHUNK <= at <= |blocks|
    ensures Expected(blocks, at) == 0
  {
  }

  lemma StopsThere(blocks: seq<Block>, at: nat)
    requires at <= |blocks|
    ensures Legal(blocks, at, [Again]) && Gather(blocks, at, [Again]).sent == []
  {
  }

  ghost predicate AlwaysInOrder(count: nat) {
    forall blocks, replies :: |blocks| == count && NoEmpty(blocks) && Legal(blocks, 0, replies) ==>
      IsPrefix(Gather(blocks, 0, replies).sent, Pending(blocks))
  }

  /** Exactly when a gathering write keeps the byte order against every kernel: at most two chunks of blocks. */
  lemma InOrderIffTwoChunks(count: nat)
    ensures AlwaysInOrder(count) <==> count <= 512
  {
    if count <= 2 * CHUNK {
      forall blocks, replies | |blocks| == count && NoEmpty(blocks) && Legal(blocks, 0, replies)
        ensures IsPrefix(Gather(blocks, 0, replies).sent, Pending(blocks))
      {
        TwoChunksInOrder(blocks, replies);
      }
    } else {
      var blocks, replies := ThirdChunkOutOfOrder(count);
    }
  }
}
