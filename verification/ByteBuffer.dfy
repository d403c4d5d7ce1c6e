/** Capacities: the doubling loop of ByteBuffer::calculateNewCapacity. */
module Capacity {

  function TwoTo(k: nat): (r: nat)
    ensures r > 0
  {
    if k == 0 then 1 else 2 * TwoTo(k - 1)
  }

  ghost predicate PowerOfTwo(n: nat) {
    exists k :: n == TwoTo(k)
  }

  /** Doubles `c` until it reaches `target`. */
  function Doubled(c: nat, target: nat): (r: nat)
    requires c > 0
    decreases target - c
  {
    if c >= target then c else Doubled(2 * c, target)
  }

  function NewCapacity(target: nat): nat {
    if target == 0 then 0 else Doubled(1, target)
  }

  lemma {:induction false} TwoToIncreases(i: nat, j: nat)
    requires i < j
    ensures 2 * TwoTo(i) <= TwoTo(j)
  {
    if i + 1 < j {
      TwoToIncreases(i, j - 1);
    }
  }

  /** A larger power of two is at least twice as large. */
  lemma PowersDouble(a: nat, b: nat)
    requires PowerOfTwo(a) && PowerOfTwo(b) && a < b
    ensures 2 * a <= b
  {
    var i: nat :| a == TwoTo(i);
    var j: nat :| b == TwoTo(j);
    if i < j {
      TwoToIncreases(i, j);
    } else if j < i {
      TwoToIncreases(j, i);
    }
  }

  lemma {:induction false} DoubledHolds(k: nat, target: nat)
    requires TwoTo(k) < 2 * target
    ensures PowerOfTwo(Doubled(TwoTo(k), target)) && target <= Doubled(TwoTo(k), target) < 2 * target
    decreases target - TwoTo(k)
  {
    if TwoTo(k) < target {
      assert TwoTo(k + 1) == 2 * TwoTo(k);
      DoubledHolds(k + 1, target);
    }
  }

  /** The new capacity is a power of two that holds the target and is below twice the target. */
  lemma NewCapacityHolds(target: nat)
    ensures target == 0 ==> NewCapacity(target) == 0
    ensures target > 0 ==> PowerOfTwo(NewCapacity(target)) && target <= NewCapacity(target) < 2 * target
  {
    if target > 0 {
      assert TwoTo(0) == 1;
      DoubledHolds(0, target);
    }
  }

  /** No smaller power of two holds the target. */
  lemma NewCapacityIsLeast(target: nat, p: nat)
    requires PowerOfTwo(p) && p >= target
    ensures NewCapacity(target) <= p
  {
    hide NewCapacity;
    NewCapacityHolds(target);
    if p < NewCapacity(target) {
      PowersDouble(p, NewCapacity(target));
    }
  }

  // The same loop on 64-bit words.

  const WORD: nat := 0x1_0000_0000_0000_0000

  /** The loop's variable after `k` shifts. */
  function Shifted(k: nat): nat {
    if k == 0 then 1 else 2 * Shifted(k - 1) % WORD
  }

  lemma PowersOfWord()
    ensures TwoTo(30) == 0x4000_0000 && TwoTo(63) == 0x8000_0000_0000_0000
  {
    TwoToSum(15, 15);
    assert TwoTo(7) == 0x80;
    TwoToSum(7, 8);
    assert TwoTo(8) == 0x100;
    TwoToSum(8, 8);
    TwoToSum(15, 16);
    TwoToSum(16, 16);
    TwoToSum(31, 32);
  }

  lemma {:induction false} TwoToSum(i: nat, j: nat)
    ensures TwoTo(i + j) == TwoTo(i) * TwoTo(j)
  {
    if i > 0 {
      TwoToSum(i - 1, j);
    }
  }

  lemma ShiftedNext(k: nat)
    requires k > 0
    ensures Shifted(k - 1) < 0x8000_0000_0000_0000 ==> Shifted(k) == 2 * Shifted(k - 1)
    ensures Shifted(k - 1) == 0x8000_0000_0000_0000 ==> Shifted(k) == 0
  {
    var x := Shifted(k - 1);
    if x < 0x8000_0000_0000_0000 {
      assert (2 * x) % WORD == 2 * x;
    }
  }

  /** Sixty-three shifts double; the next one clears the word, which then stays zero. */
  lemma {:induction false} ShiftedIs(k: nat)
    ensures Shifted(k) == if k < 64 then TwoTo(k) else 0
  {
    PowersOfWord();
    if k == 0 {
      assert TwoTo(0) == 1;
    } else {
      ShiftedNext(k);
      if k < 64 {
        BelowWord(k);
      }
      hide Shifted, TwoTo;
      ShiftedIs(k - 1);
    }
  }

  lemma BelowWord(k: nat)
    requires 0 < k < 64
    ensures TwoTo(k) == 2 * TwoTo(k - 1) < WORD
  {
    PowersOfWord();
    if k < 63 {
      TwoToIncreases(k, 63);
    }
  }

  /** The loop on words ends exactly for targets up to 2^63; for larger ones it runs forever. */
  lemma LoopEndsIff(target: nat)
    requires 0 < target < WORD
    ensures (exists k :: Shifted(k) >= target) <==> target <= 0x8000_0000_0000_0000
  {
    PowersOfWord();
    ShiftedIs(63);
    if target > 0x8000_0000_0000_0000 {
      forall k ensures Shifted(k) < target {
        ShiftedIs(k);
        if k < 63 {
          TwoToIncreases(k, 63);
        }
      }
    }
  }

  /** Where it ends, it ends with the capacity of the unbounded loop. */
  lemma LoopEndsWith(target: nat, k: nat)
    requires 0 < target && Shifted(k) >= target && forall j :: 0 <= j < k ==> Shifted(j) < target
    ensures Shifted(k) == NewCapacity(target)
  {
    ShiftedIs(k);
    assert PowerOfTwo(TwoTo(k));
    NewCapacityIsLeast(target, TwoTo(k));
    NewCapacityHolds(target);
    hide NewCapacity;
    var m: nat :| NewCapacity(target) == TwoTo(m);
    if k < m {
      TwoToIncreases(k, m);
    } else if m < k {
      ShiftedIs(m);
    }
  }

  method CalculateNewCapacity(target: nat) returns (capacity: nat)
    ensures capacity == NewCapacity(target)
  {
    if target == 0 {
      return 0;
    }
    capacity := 1;
    while capacity < target
      invariant capacity > 0 && Doubled(capacity, target) == NewCapacity(target)
    {
      capacity := 2 * capacity;
    }
  }
}

/** ByteBuffer as a byte queue over an array with a reader and a writer index. */
module ByteBuffers {
  import opened Basics
  import opened BigEndian
  import opened Capacity

  const MAX_CAPACITY: nat := 0x7FFF_FFFE

  /** What a buffer offers to its user: the bytes to read and the room behind them. */
  datatype Block = Block(readable: seq<byte>, writable: nat) {
    function Append(data: seq<byte>): Block
      requires |data| <= writable
    {
      Block(readable + data, writable - |data|)
    }

    function Skip(n: nat): Block
      requires n <= |readable|
    {
      Block(readable[n..], writable)
    }
  }

  /** A buffer made from `data` alone has the least power of two as its capacity. */
  function BlockOf(data: seq<byte>): Block
    requires |data| <= NewCapacity(|data|)
  {
    Block(data, NewCapacity(|data|) - |data|)
  }

  /** What is played before and after one operation that was not refused. */
  lemma Played(
    values: seq<int>, ops: seq<Op>, k: nat, bytes: seq<byte>, value: Option<int>, bytes': seq<byte>, all: seq<int>)
    requires InRange(ops) && k < |ops| && values + Play(ops[k..], bytes) == all
    requires ops[k].Write? ==> bytes' == bytes + Encode(ops[k].item.kind, ops[k].item.value)
    requires ops[k].Read? ==> (value.None? <==> |bytes| < ops[k].kind.width)
    requires ops[k].Read? && value.Some? ==>
      value.value == Decode(ops[k].kind, bytes[..ops[k].kind.width]) && bytes' == bytes[ops[k].kind.width..]
    ensures ops[k].Write? ==> values + Play(ops[k + 1..], bytes') == all
    ensures ops[k].Read? ==>
      if value.None? then values == all else (values + [value.value]) + Play(ops[k + 1..], bytes') == all
  {
    PlayNext(ops, k, bytes);
    hide Play, Encode, Decode;
  }

  class ByteBuffer {
    var buffer: array<byte>
    var readerIndex: nat
    var writerIndex: nat
    ghost var copied: nat // bytes moved by all reallocations so far

    /** Indices in order; and the copying done so far is paid for by the capacity reached. */
    ghost predicate Valid()
      reads this
    {
      && readerIndex <= writerIndex <= buffer.Length
      && copied <= buffer.Length
      && (copied > 0 ==> PowerOfTwo(buffer.Length))
    }

    ghost function Contents(): seq<byte>
      requires Valid()
      reads this, buffer
    {
      buffer[readerIndex..writerIndex]
    }

    ghost function View(): Block
      requires Valid()
      reads this, buffer
    {
      Block(Contents(), buffer.Length - writerIndex)
    }

    constructor (capacity: nat)
      ensures Valid() && fresh(buffer) && Contents() == [] && buffer.Length == capacity && copied == 0
    {
      buffer := new byte[capacity](_ => 0);
      readerIndex, writerIndex, copied := 0, 0, 0;
    }

    constructor FromData(data: seq<byte>)
      ensures Valid() && fresh(buffer)
      ensures |data| <= NewCapacity(|data|) && View() == BlockOf(data)
    {
      buffer := new byte[0];
      readerIndex, writerIndex, copied := 0, 0, 0;
      new;
      NewCapacityHolds(|data|);
      hide NewCapacity, PowerOfTwo, Refuses;
      assert Contents() == [];
      var ok := WriteBytes(data);
      assert Contents() == [] + data == data;
    }

    function ReadableBytes(): nat
      requires Valid()
      reads this
    {
      writerIndex - readerIndex
    }

    function WritableBytes(): nat
      requires Valid()
      reads this
    {
      buffer.Length - writerIndex
    }

    /** Whether making room for `length` bytes is refused with an out-of-memory exception. */
    predicate Refuses(length: nat)
      requires Valid()
      reads this
    {
      && WritableBytes() < length
      && buffer.Length != 0
      && MAX_CAPACITY <
           if WritableBytes() + readerIndex < length then NewCapacity(writerIndex + length) else buffer.Length
    }

    method Clear()
      requires Valid()
      modifies this
      ensures Valid() && Contents() == [] && readerIndex == 0 && buffer == old(buffer) && copied == old(copied)
      ensures writerIndex == 0
    {
      readerIndex, writerIndex := 0, 0;
    }

    /** Skips bytes, or gives back bytes that were read. */
    method SetReaderIndex(index: nat)
      requires Valid() && index <= writerIndex
      modifies this
      ensures Valid() && buffer == old(buffer) && copied == old(copied) && WritableBytes() == old(WritableBytes())
      ensures index >= old(readerIndex) ==> View() == old(View()).Skip(index - old(readerIndex))
      ensures index < old(readerIndex) ==> Contents() == buffer[index..old(readerIndex)] + old(Contents())
    {
      readerIndex := index;
    }

    /** Moves the readable bytes to the front, of a larger array or of the same one. */
    method AdjustCapacity(newCapacity: nat)
      requires Valid() && newCapacity >= buffer.Length
      requires newCapacity > buffer.Length ==> PowerOfTwo(newCapacity)
      modifies this, buffer
      ensures Valid() && Contents() == old(Contents())
      ensures buffer.Length == newCapacity && readerIndex == 0 && writerIndex <= old(writerIndex)
      ensures if newCapacity == old(buffer.Length) then buffer == old(buffer) else fresh(buffer)
      ensures copied == old(copied) + if newCapacity == old(buffer.Length) then 0 else |old(Contents())|
    {
      var contentBytes := ReadableBytes();
      if newCapacity != buffer.Length {
        var newBuffer := new byte[newCapacity](_ => 0);
        forall i | 0 <= i < contentBytes {
          newBuffer[i] := buffer[readerIndex + i];
        }
        if copied > 0 {
          PowersDouble(buffer.Length, newCapacity);
        }
        buffer, copied := newBuffer, copied + contentBytes;
      } else {
        forall i | 0 <= i < contentBytes {
          buffer[i] := buffer[readerIndex + i];
        }
      }
      readerIndex, writerIndex := 0, contentBytes;
    }

    /** Makes room for `length` more bytes; a refusal changes nothing. A reallocation from a power of two at least
        doubles the capacity. */
    method EnsureWritable(length: nat) returns (ok: bool)
      requires Valid()
      modifies this, buffer
      ensures Valid() && ok == !old(Refuses(length))
      ensures ok ==> WritableBytes() >= length && Contents() == old(Contents())
      ensures !ok ==> unchanged(this) && unchanged(buffer)
      ensures buffer == old(buffer) || fresh(buffer)
      ensures copied == old(copied) + if buffer == old(buffer) then 0 else |old(Contents())|
      ensures buffer != old(buffer) ==>
        && PowerOfTwo(buffer.Length) && buffer.Length < 2 * (old(writerIndex) + length)
        && (PowerOfTwo(old(buffer.Length)) ==> buffer.Length >= 2 * old(buffer.Length))
      ensures old(WritableBytes()) >= length ==> ok && unchanged(this) && unchanged(buffer)
      ensures writerIndex <= old(writerIndex)
      ensures buffer.Length <= old(buffer.Length) || buffer.Length <= MAX_CAPACITY || old(buffer.Length) == 0
      ensures old(buffer.Length) == 0 ==> ok && readerIndex == 0 && buffer.Length == NewCapacity(length)
      ensures buffer != old(buffer) && old(buffer.Length) != 0 ==>
        buffer.Length == NewCapacity(old(writerIndex) + length)
    {
      if WritableBytes() >= length {
        return true;
      }
      var newCapacity := buffer.Length;
      if buffer.Length != 0 {
        if WritableBytes() + readerIndex < length {
          newCapacity := CalculateNewCapacity(writerIndex + length);
        }
        if newCapacity > MAX_CAPACITY {
          return false;
        }
      } else {
        newCapacity := CalculateNewCapacity(length);
      }
      NewCapacityHolds(writerIndex + length);
      if PowerOfTwo(buffer.Length) && newCapacity != buffer.Length {
        PowersDouble(buffer.Length, newCapacity);
      }
      AdjustCapacity(newCapacity);
      return true;
    }

    /** Copies `data` behind the readable bytes. */
    method Put(data: seq<byte>)
      requires Valid() && |data| <= WritableBytes()
      modifies this`writerIndex, buffer
      ensures Valid() && View() == old(View()).Append(data)
      ensures writerIndex == old(writerIndex) + |data|
    {
      forall i | 0 <= i < |data| {
        buffer[writerIndex + i] := data[i];
      }
      writerIndex := writerIndex + |data|;
    }

    /** Appends `data`; a refused write changes nothing. */
    method WriteBytes(data: seq<byte>) returns (ok: bool)
      requires Valid()
      modifies this, buffer
      ensures Valid() && ok == !old(Refuses(|data|))
      ensures Contents() == if ok then old(Contents()) + data else old(Contents())
      ensures !ok ==> unchanged(this) && unchanged(buffer)
      ensures buffer == old(buffer) || fresh(buffer)
      ensures copied == old(copied) + if buffer == old(buffer) then 0 else |old(Contents())|
      ensures writerIndex <= old(writerIndex) + |data|
      ensures buffer.Length <= old(buffer.Length) || buffer.Length <= MAX_CAPACITY || old(buffer.Length) == 0
      ensures |data| <= old(WritableBytes()) ==> ok && buffer == old(buffer) && View() == old(View()).Append(data)
      ensures old(buffer.Length) == 0 ==> ok && writerIndex == |data| && buffer.Length == NewCapacity(|data|)
    {
      hide NewCapacity, PowerOfTwo, Refuses;
      NewCapacityHolds(|data|);
      ok := EnsureWritable(|data|);
      if ok {
        Put(data);
      }
    }

    /** Drops `n` bytes at the front, or all if there are fewer; an emptied buffer starts over at index zero. */
    method AdjustReaderIndex(n: nat)
      requires Valid()
      modifies this
      ensures Valid() && buffer == old(buffer) && copied == old(copied)
      ensures Contents() == if n < |old(Contents())| then old(Contents())[n..] else []
      ensures n >= |old(Contents())| ==> readerIndex == 0
      ensures writerIndex <= old(writerIndex)
    {
      if ReadableBytes() > n {
        readerIndex := readerIndex + n;
      } else {
        Clear();
      }
    }

    /** Takes `n` bytes from the front; with fewer than `n` bytes it throws and changes nothing. */
    method ReadBytes(n: nat) returns (r: Option<seq<byte>>)
      requires Valid()
      modifies this
      ensures Valid() && buffer == old(buffer) && writerIndex <= old(writerIndex)
      ensures r.None? <==> |old(Contents())| < n
      ensures r.None? ==> unchanged(this)
      ensures r.Some? ==> r.value == old(Contents())[..n] && Contents() == old(Contents())[n..]
    {
      if ReadableBytes() < n {
        return None;
      }
      r := Some(buffer[readerIndex..readerIndex + n]);
      AdjustReaderIndex(n);
    }

    method WriteInteger(item: Typed) returns (ok: bool)
      requires Valid() && item.kind.Holds(item.value)
      modifies this, buffer
      ensures Valid() && ok == !old(Refuses(item.kind.width))
      ensures Contents() == if ok then old(Contents()) + Encode(item.kind, item.value) else old(Contents())
      ensures !ok ==> Refuses(item.kind.width)
      ensures ok ==>
        && |Contents()| == |old(Contents())| + item.kind.width
        && NetworkOrder(item.value, Contents()[|old(Contents())|..])
      ensures buffer == old(buffer) || fresh(buffer)
      ensures writerIndex <= old(writerIndex) + item.kind.width
      ensures buffer.Length <= old(buffer.Length) || buffer.Length <= MAX_CAPACITY || old(buffer.Length) == 0
      ensures old(buffer.Length) == 0 ==> buffer.Length == NewCapacity(item.kind.width)
    {
      EncodedInOrder(item.kind, item.value);
      hide Encode, Refuses, NewCapacity, NetworkOrder;
      assert forall bytes: seq<byte> :: (bytes + Encode(item.kind, item.value))[|bytes|..]
                                     == Encode(item.kind, item.value);
      ok := WriteBytes(Encode(item.kind, item.value));
    }

    /** A write that ends within 2^30 bytes is never refused, as long as the capacity is within its maximum; and it
        keeps the capacity there. */
    lemma NotRefused(length: nat)
      requires Valid() && buffer.Length <= MAX_CAPACITY && writerIndex + length <= 0x4000_0000
      ensures !Refuses(length) && NewCapacity(length) <= MAX_CAPACITY
    {
      var p := TwoTo(30);
      PowersOfWord();
      assert PowerOfTwo(p);
      NewCapacityIsLeast(writerIndex + length, p);
      NewCapacityIsLeast(length, p);
    }

    method ReadInteger(kind: Kind) returns (r: Option<int>)
      requires Valid()
      modifies this
      ensures Valid() && buffer == old(buffer) && writerIndex <= old(writerIndex)
      ensures r.None? <==> |old(Contents())| < kind.width
      ensures r.None? ==> unchanged(this)
      ensures r.Some? ==>
        r.value == Decode(kind, old(Contents())[..kind.width]) && Contents() == old(Contents())[kind.width..]
      ensures r.Some? ==>
        kind.Holds(r.value) && r.value % Radix(kind.width) == PlaceSum(old(Contents())[..kind.width])
    {
      var bytes := ReadBytes(kind.width);
      match bytes
      case None => r := None;
      case Some(b) =>
        DecodedIs(kind, b);
        r := Some(Decode(kind, b));
    }

    /** One typed write or read. A write that is in range of 2^30 bytes is not refused and keeps the capacity within its
        maximum. */
    method Do(op: Op) returns (ok: bool, value: Option<int>)
      requires Valid() && (op.Write? ==> op.item.kind.Holds(op.item.value))
      modifies this, buffer
      ensures Valid() && (buffer == old(buffer) || fresh(buffer))
      ensures op.Write? ==>
        && ok == !old(Refuses(op.item.kind.width)) && (!ok ==> Refuses(op.item.kind.width)) && value.None?
        && Contents() == if ok then old(Contents()) + Encode(op.item.kind, op.item.value) else old(Contents())
      ensures op.Read? ==> ok && (value.None? <==> |old(Contents())| < op.kind.width)
      ensures op.Read? && value.Some? ==>
        && value.value == Decode(op.kind, old(Contents())[..op.kind.width])
        && Contents() == old(Contents())[op.kind.width..]
      ensures old(writerIndex) + Bytes([op]) <= 0x4000_0000 && old(buffer.Length) <= MAX_CAPACITY ==>
        ok && writerIndex <= old(writerIndex) + Bytes([op]) && buffer.Length <= MAX_CAPACITY
    {
      assert [op][1..] == [] && Bytes([]) == 0;
      assert Bytes([op]) == if op.Write? then op.item.kind.width else 0;
      match op
      case Write(item) =>
        if writerIndex + item.kind.width <= 0x4000_0000 && buffer.Length <= MAX_CAPACITY {
          NotRefused(item.kind.width);
        }
        hide Refuses, NewCapacity, PowerOfTwo, Encode, Bytes;
        ok := WriteInteger(item);
        value := None;
      case Read(kind) =>
        value := ReadInteger(kind);
        ok := true;
    }

    /** Any interleaving of typed writes and matching reads, on the real buffer: the reads return the written values in
        order, all of them unless a write is refused. If one is, the values are those of the reads in front of it. None
        is, if all the bytes written fit within 2^30 behind the writer index. */
    method Interleave(ops: seq<Op>) returns (values: seq<int>, ok: bool)
      requires Valid() && Contents() == [] && InRange(ops) && Matching(ops, [])
      modifies this, buffer
      ensures Valid()
      ensures ok ==> values == Replay(ops, [])
      ensures !ok ==> exists k ::
        && 0 <= k < |ops| && ops[k].Write? && Refuses(ops[k].item.kind.width)
        && |values| == Reads(ops[..k]) && values <= Replay(ops, [])
      ensures old(writerIndex) + Bytes(ops) <= 0x4000_0000 && old(buffer.Length) <= MAX_CAPACITY ==> ok
    {
      TypedQueueTheorem(ops, []);
      ghost var fits := writerIndex + Bytes(ops) <= 0x4000_0000 && buffer.Length <= MAX_CAPACITY;
      values, ok := [], true;
      assert ops[0..] == ops && Reads(ops[..0]) == 0;
      assert forall bytes :: Play([], bytes) == [];
      hide Play, Replay, Reads, Bytes, Encode, Decode, Matching, Refuses, Contents, Valid, Kind.Holds;
      for k := 0 to |ops|
        invariant Valid() && (buffer == old(buffer) || fresh(buffer)) && ok
        invariant values + Play(ops[k..], Contents()) == Play(ops, [])
        invariant |values| == Reads(ops[..k])
        invariant fits ==> writerIndex + Bytes(ops[k..]) <= 0x4000_0000 && buffer.Length <= MAX_CAPACITY
      {
        ReadsNext(ops, k);
        BytesNext(ops, k);
        ghost var bytes := Contents();
        var value;
        ok, value := Do(ops[k]);
        if !ok {
          return;
        }
        Played(values, ops, k, bytes, value, Contents(), Play(ops, []));
        if ops[k].Read? {
          if value.None? {
            return;
          }
          values := values + [value.value];
        }
      }
      assert ops[|ops|..] == [];
    }
  }
}
