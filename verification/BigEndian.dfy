/** Fixed-width integers in network byte order (Appendix B of RFC 791), signed ones in two's complement. */
module BigEndian {

  type byte = x: int | 0 <= x < 256

  function Radix(width: nat): (r: nat)
    ensures r > 0
  {
    if width == 0 then 1 else 256 * Radix(width - 1)
  }

  /** An integer type of the buffer's interface: its width in bytes and whether it has a sign. */
  datatype Kind = Kind(width: nat, signed: bool) {
    predicate Holds(value: int) {
      if signed then 0 <= 2 * value + Radix(width) < 2 * Radix(width) else 0 <= value < Radix(width)
    }
  }

  function Unsigned(kind: Kind, value: int): (bits: nat)
    requires kind.Holds(value)
    ensures bits < Radix(kind.width)
  {
    if value < 0 then value + Radix(kind.width) else value
  }

  function Signed(kind: Kind, bits: nat): (value: int)
    requires bits < Radix(kind.width)
    ensures kind.Holds(value)
  {
    if kind.signed && 2 * bits >= Radix(kind.width) then bits - Radix(kind.width) else bits
  }

  /** Most significant byte first. */
  function Digits(bits: nat, width: nat): (bytes: seq<byte>)
    ensures |bytes| == width
  {
    if width == 0 then [] else Digits(bits / 256, width - 1) + [bits % 256]
  }

  function Value(bytes: seq<byte>): (bits: nat)
    ensures bits < Radix(|bytes|)
  {
    if bytes == [] then 0 else 256 * Value(bytes[..|bytes| - 1]) + bytes[|bytes| - 1]
  }

  lemma {:induction false} ValueOfDigits(bits: nat, width: nat)
    requires bits < Radix(width)
    ensures Value(Digits(bits, width)) == bits
  {
    if width > 0 {
      ValueOfDigits(bits / 256, width - 1);
      assert Digits(bits, width)[..width - 1] == Digits(bits / 256, width - 1);
    }
  }

  lemma {:induction false} DigitsOfValue(bytes: seq<byte>)
    ensures Digits(Value(bytes), |bytes|) == bytes
  {
    if bytes != [] {
      DigitsOfValue(bytes[..|bytes| - 1]);
      assert bytes == bytes[..|bytes| - 1] + [bytes[|bytes| - 1]];
    }
  }

  function Encode(kind: Kind, value: int): (bytes: seq<byte>)
    requires kind.Holds(value)
    ensures |bytes| == kind.width
  {
    Digits(Unsigned(kind, value), kind.width)
  }

  function Decode(kind: Kind, bytes: seq<byte>): (value: int)
    requires |bytes| == kind.width
    ensures kind.Holds(value)
  {
    Signed(kind, Value(bytes))
  }

  // Network order, by place values.

  lemma Widths()
    ensures Radix(1) == 0x100 && Radix(2) == 0x1_0000
    ensures Radix(4) == 0x1_0000_0000 && Radix(8) == 0x1_0000_0000_0000_0000
  {
    assert Radix(3) == 0x100_0000;
    assert Radix(6) == 0x1_0000_0000_0000;
  }

  lemma DivideTwice(a: nat, m: nat)
    requires m > 0
    ensures (a / 256) / m == a / (256 * m)
  {
    var q := a / (256 * m);
    var r := a - q * (256 * m);
    Euclid(a, 256 * m);
    assert a == 256 * (q * m) + r;
    Within(r, m);
    assert a / 256 == q * m + r / 256;
    QuotientIs(a / 256, m, q, r / 256);
  }

  lemma Within(r: nat, m: nat)
    requires r < 256 * m
    ensures r / 256 < m
  {
  }

  lemma AtLeastOnce(d: nat, n: int)
    requires n >= 1
    ensures n * d >= d
  {
  }

  /** Quotient and remainder are unique. */
  lemma Unique(d: nat, q: int, r: nat, p: int, s: nat)
    requires r < d && s < d && q * d + r == p * d + s
    ensures p == q && r == s
  {
    if p < q {
      assert (q - p) * d == q * d - p * d;
      AtLeastOnce(d, q - p);
    } else if q < p {
      assert (p - q) * d == p * d - q * d;
      AtLeastOnce(d, p - q);
    }
  }

  lemma Euclid(a: int, d: nat)
    requires d > 0
    ensures a == (a / d) * d + a % d && 0 <= a % d < d
  {
  }

  lemma QuotientIs(a: nat, d: nat, q: nat, r: nat)
    requires a == q * d + r && r < d
    ensures a / d == q
  {
    Euclid(a, d);
    Unique(d, q, r, a / d, a % d);
  }

  lemma RemainderIs(a: int, d: nat, r: nat, q: int)
    requires a == q * d + r && r < d
    ensures a % d == r
  {
    Euclid(a, d);
    Unique(d, q, r, a / d, a % d);
  }

  lemma {:induction false} DigitsAt(bits: nat, width: nat, k: nat)
    requires k < width
    ensures Digits(bits, width)[k] == (bits / Radix(width - 1 - k)) % 256
  {
    if k < width - 1 {
      DigitsAt(bits / 256, width - 1, k);
      DivideTwice(bits, Radix(width - 2 - k));
    }
  }

  lemma UnsignedIsRemainder(kind: Kind, value: int)
    requires kind.Holds(value)
    ensures Unsigned(kind, value) == value % Radix(kind.width)
  {
    if value < 0 {
      RemainderIs(value, Radix(kind.width), value + Radix(kind.width), -1);
    } else {
      RemainderIs(value, Radix(kind.width), value, 0);
    }
  }

  /** Network order: the byte at `k` is the digit of place value 256^(width - 1 - k), of the value modulo 256^width. */
  lemma EncodedAt(kind: Kind, value: int, k: nat)
    requires kind.Holds(value) && k < kind.width
    ensures Encode(kind, value)[k] == (value % Radix(kind.width)) / Radix(kind.width - 1 - k) % 256
  {
    UnsignedIsRemainder(kind, value);
    DigitsAt(Unsigned(kind, value), kind.width, k);
  }

  /** The bytes are the digits of the value modulo 256^width, the one of the largest place value first. */
  ghost predicate NetworkOrder(value: int, bytes: seq<byte>) {
    forall k :: 0 <= k < |bytes| ==> bytes[k] == (value % Radix(|bytes|)) / Radix(|bytes| - 1 - k) % 256
  }

  lemma EncodedInOrder(kind: Kind, value: int)
    requires kind.Holds(value)
    ensures NetworkOrder(value, Encode(kind, value))
  {
    forall k | 0 <= k < kind.width
      ensures Encode(kind, value)[k] == (value % Radix(kind.width)) / Radix(kind.width - 1 - k) % 256
    {
      EncodedAt(kind, value, k);
    }
  }

  /** The bytes weighted with their place values, the first one with the largest. */
  function PlaceSum(bytes: seq<byte>): (sum: nat) {
    if bytes == [] then 0 else bytes[0] * Radix(|bytes| - 1) + PlaceSum(bytes[1..])
  }

  lemma {:induction false} PlaceSumAppend(bytes: seq<byte>, last: byte)
    ensures PlaceSum(bytes + [last]) == 256 * PlaceSum(bytes) + last
  {
    if bytes == [] {
      assert bytes + [last] == [last];
      assert PlaceSum([last]) == last * Radix(0) + PlaceSum([]);
    } else {
      PlaceSumAppend(bytes[1..], last);
      assert (bytes + [last])[1..] == bytes[1..] + [last];
      assert bytes[0] * (256 * Radix(|bytes| - 1)) == 256 * (bytes[0] * Radix(|bytes| - 1));
    }
  }

  lemma {:induction false} ValueIsPlaceSum(bytes: seq<byte>)
    ensures Value(bytes) == PlaceSum(bytes)
  {
    if bytes != [] {
      ValueIsPlaceSum(bytes[..|bytes| - 1]);
      PlaceSumAppend(bytes[..|bytes| - 1], bytes[|bytes| - 1]);
      assert bytes == bytes[..|bytes| - 1] + [bytes[|bytes| - 1]];
    }
  }

  /** Decoding gives the one value of the kind that is the place sum modulo 256^width. */
  lemma DecodedIs(kind: Kind, bytes: seq<byte>)
    requires |bytes| == kind.width
    ensures kind.Holds(Decode(kind, bytes)) && Decode(kind, bytes) % Radix(kind.width) == PlaceSum(bytes)
  {
    var value := Decode(kind, bytes);
    ValueIsPlaceSum(bytes);
    if value < 0 {
      RemainderIs(value, Radix(kind.width), Value(bytes), -1);
    } else {
      RemainderIs(value, Radix(kind.width), Value(bytes), 0);
    }
  }

  /** Encoding and decoding are inverse bijections between the values of a kind and the byte strings of its width. */
  lemma RoundTrip(kind: Kind, value: int, bytes: seq<byte>)
    requires kind.Holds(value) && |bytes| == kind.width
    ensures Decode(kind, Encode(kind, value)) == value
    ensures Encode(kind, Decode(kind, bytes)) == bytes
  {
    ValueOfDigits(Unsigned(kind, value), kind.width);
    DigitsOfValue(bytes);
  }

  // Interleaved typed writes and reads on a byte queue.

  datatype Typed = Typed(kind: Kind, value: int)

  datatype Op = Write(item: Typed) | Read(kind: Kind)

  predicate InRange(ops: seq<Op>) {
    forall i :: 0 <= i < |ops| && ops[i].Write? ==> ops[i].item.kind.Holds(ops[i].item.value)
  }

  /** What the reads return on a byte queue; a read of too few bytes ends the sequence. */
  function Play(ops: seq<Op>, bytes: seq<byte>): seq<int>
    requires InRange(ops)
  {
    if ops == [] then []
    else match ops[0]
      case Write(item) => Play(ops[1..], bytes + Encode(item.kind, item.value))
      case Read(kind) =>
        if |bytes| < kind.width then []
        else [Decode(kind, bytes[..kind.width])] + Play(ops[1..], bytes[kind.width..])
  }

  /** The reference: a queue of values, each read taking the oldest value not yet read. */
  function Replay(ops: seq<Op>, pending: seq<Typed>): seq<int> {
    if ops == [] then []
    else match ops[0]
      case Write(item) => Replay(ops[1..], pending + [item])
      case Read(kind) => if pending == [] then [] else [pending[0].value] + Replay(ops[1..], pending[1..])
  }

  lemma PlayNext(ops: seq<Op>, k: nat, bytes: seq<byte>)
    requires InRange(ops) && k < |ops|
    ensures InRange(ops[k..]) && InRange(ops[k + 1..])
    ensures ops[k].Write? ==>
      Play(ops[k..], bytes) == Play(ops[k + 1..], bytes + Encode(ops[k].item.kind, ops[k].item.value))
    ensures ops[k].Read? ==>
      Play(ops[k..], bytes) ==
        if |bytes| < ops[k].kind.width then []
        else [Decode(ops[k].kind, bytes[..ops[k].kind.width])] + Play(ops[k + 1..], bytes[ops[k].kind.width..])
  {
    assert ops[k..][1..] == ops[k + 1..];
    hide Encode, Decode;
  }

  /** The number of reads. */
  function Reads(ops: seq<Op>): nat {
    if ops == [] then 0 else Reads(ops[..|ops| - 1]) + if ops[|ops| - 1].Read? then 1 else 0
  }

  lemma ReadsNext(ops: seq<Op>, k: nat)
    requires k < |ops|
    ensures Reads(ops[..k + 1]) == Reads(ops[..k]) + if ops[k].Read? then 1 else 0
  {
    assert ops[..k + 1][..k] == ops[..k];
  }

  /** The number of bytes written. */
  function Bytes(ops: seq<Op>): nat {
    if ops == [] then 0 else Bytes(ops[1..]) + if ops[0].Write? then ops[0].item.kind.width else 0
  }

  lemma BytesNext(ops: seq<Op>, k: nat)
    requires k < |ops|
    ensures Bytes(ops[k..]) == Bytes(ops[k + 1..]) + Bytes([ops[k]])
  {
    assert [ops[k]][1..] == [] && Bytes([]) == 0;
    assert ops[k..][1..] == ops[k + 1..];
  }

  /** Every read asks for the kind of the oldest value not yet read. */
  predicate Matching(ops: seq<Op>, pending: seq<Typed>) {
    if ops == [] then true
    else match ops[0]
      case Write(item) => Matching(ops[1..], pending + [item])
      case Read(kind) => pending != [] && pending[0].kind == kind && Matching(ops[1..], pending[1..])
  }

  predicate AllHold(pending: seq<Typed>) {
    forall i :: 0 <= i < |pending| ==> pending[i].kind.Holds(pending[i].value)
  }

  function Laid(pending: seq<Typed>): seq<byte>
    requires AllHold(pending)
  {
    if pending == [] then [] else Encode(pending[0].kind, pending[0].value) + Laid(pending[1..])
  }

  lemma {:induction false} LaidAppend(pending: seq<Typed>, item: Typed)
    requires AllHold(pending) && item.kind.Holds(item.value)
    ensures AllHold(pending + [item])
    ensures Laid(pending + [item]) == Laid(pending) + Encode(item.kind, item.value)
  {
    if pending == [] {
      assert pending + [item] == [item];
    } else {
      LaidAppend(pending[1..], item);
      assert (pending + [item])[1..] == pending[1..] + [item];
    }
  }

  /** Reads that match the writes return the written values, in order, whatever the interleaving. */
  lemma {:induction false} TypedQueueTheorem(ops: seq<Op>, pending: seq<Typed>)
    requires InRange(ops) && AllHold(pending) && Matching(ops, pending)
    ensures Play(ops, Laid(pending)) == Replay(ops, pending)
  {
    if ops != [] {
      match ops[0]
      case Write(item) =>
        LaidAppend(pending, item);
        TypedQueueTheorem(ops[1..], pending + [item]);
      case Read(kind) =>
        var head := pending[0];
        RoundTrip(kind, head.value, Encode(kind, head.value));
        assert Laid(pending)[..kind.width] == Encode(kind, head.value);
        assert Laid(pending)[kind.width..] == Laid(pending[1..]);
        TypedQueueTheorem(ops[1..], pending[1..]);
    }
  }
}
