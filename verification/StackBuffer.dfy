/** Numerals in a base, as StackBuffer prints them. */
module Numerals {

  const DIGITS := "0123456789abcdef"

  function DigitOf(c: char): (d: int)
    ensures 0 <= d < 16 ==> DIGITS[d] == c
  {
    if '0' <= c <= '9' then c as int - '0' as int
    else if 'a' <= c <= 'f' then c as int - 'a' as int + 10
    else 16
  }

  /** The canonical numeral: most significant digit first, without leading zeros. */
  function Numeral(n: nat, base: nat): (s: string)
    requires 2 <= base <= 16
    ensures |s| > 0
  {
    if n < base then [DIGITS[n]]
    else
      QuotientPositive(n, base);
      Numeral(n / base, base) + [DIGITS[n % base]]
  }

  /** The number that a string of digits denotes. */
  function Parse(s: string, base: nat): int {
    if s == [] then 0 else base * Parse(s[..|s| - 1], base) + DigitOf(s[|s| - 1])
  }

  lemma DigitRoundTrip(d: nat)
    requires d < 16
    ensures DigitOf(DIGITS[d]) == d
  {
  }

  lemma ParseAppend(s: string, c: char, base: nat)
    ensures Parse(s + [c], base) == base * Parse(s, base) + DigitOf(c)
  {
    assert (s + [c])[..|s|] == s;
  }

  lemma {:induction false} ParseNumeral(n: nat, base: nat)
    requires 2 <= base <= 16
    ensures Parse(Numeral(n, base), base) == n
  {
    hide Parse, DigitOf;
    if n < base {
      DigitRoundTrip(n);
      ParseOne(DIGITS[n], base);
    } else {
      ParseNumeral(n / base, base);
      DigitRoundTrip(n % base);
      ParseAppend(Numeral(n / base, base), DIGITS[n % base], base);
      DivMod(n, base);
    }
  }

  lemma ParseOne(c: char, base: nat)
    ensures Parse([c], base) == DigitOf(c)
  {
    ParseAppend([], c, base);
    assert Parse([], base) == 0;
  }

  lemma DivMod(n: nat, base: nat)
    requires base > 0
    ensures n == base * (n / base) + n % base
  {
  }

  /** Only zero starts with the digit zero. */
  lemma {:induction false} NoLeadingZero(n: nat, base: nat)
    requires 2 <= base <= 16
    ensures Numeral(n, base)[0] == '0' <==> n == 0
  {
    if n >= base {
      QuotientPositive(n, base);
      NoLeadingZero(n / base, base);
    } else {
      DigitRoundTrip(n);
    }
  }

  lemma QuotientPositive(n: nat, base: nat)
    requires 2 <= base <= n
    ensures 0 < n / base < n && 0 <= n % base < base
  {
  }

  lemma SmallRemainder(n: nat, base: nat)
    requires n < base
    ensures n % base == n
  {
  }

  function Power(base: nat, k: nat): nat {
    if k == 0 then 1 else base * Power(base, k - 1)
  }

  lemma {:induction false} NumeralLength(n: nat, base: nat, k: nat)
    requires 2 <= base <= 16 && k > 0 && n < Power(base, k)
    ensures |Numeral(n, base)| <= k
    decreases n
  {
    hide Power, Numeral;
    NumeralStep(n, base);
    if n >= base {
      PowerStep(base, k);
      QuotientBelow(n, base, Power(base, k - 1));
      var q := n / base;
      NumeralLength(q, base, k - 1);
    }
  }

  lemma NumeralStep(n: nat, base: nat)
    requires 2 <= base <= 16
    ensures n < base ==> |Numeral(n, base)| == 1
    ensures n >= base ==> 0 < n / base < n && |Numeral(n, base)| == |Numeral(n / base, base)| + 1
  {
    if n >= base {
      QuotientPositive(n, base);
    }
  }

  lemma PowerStep(base: nat, k: nat)
    requires k > 0
    ensures Power(base, k) == base * Power(base, k - 1)
    ensures k == 1 ==> Power(base, k) == base
  {
    assert Power(base, 0) == 1;
  }

  lemma QuotientBelow(n: nat, base: nat, m: nat)
    requires base > 0 && n < base * m
    ensures n / base < m
  {
    DivMod(n, base);
    TimesMonotone(base, m, n / base);
  }

  lemma TimesMonotone(base: nat, m: nat, q: nat)
    ensures m <= q ==> base * m <= base * q
  {
  }

  /** The character of a digit: decimal digits, then small letters. */
  lemma DigitCharacters(d: nat)
    requires d < 16
    ensures d < 10 ==> DIGITS[d] as int == '0' as int + d
    ensures d >= 10 ==> DIGITS[d] as int == 'a' as int + (d - 10)
  {
  }

  /** The character of the digit of place value `place`. */
  function DigitAt(n: nat, base: nat, place: nat): char
    requires 2 <= base <= 16 && place > 0
  {
    RemainderInRange(n / place, base);
    DIGITS[(n / place) % base]
  }

  lemma RemainderInRange(n: int, base: nat)
    requires base > 0
    ensures 0 <= n % base < base
  {
  }

  /** The character at `k` from the end is that of the digit of place value base^k. */
  lemma {:induction false} NumeralAt(n: nat, base: nat, k: nat)
    requires 2 <= base <= 16 && k < |Numeral(n, base)|
    ensures Power(base, k) > 0
    ensures Numeral(n, base)[|Numeral(n, base)| - 1 - k] == DigitAt(n, base, Power(base, k))
  {
    hide Numeral, Power, DigitAt;
    PowerPositive(base, k);
    if k == 0 {
      LastDigit(n, base);
    } else {
      FrontDigits(n, base);
      var q := n / base;
      NumeralAt(q, base, k - 1);
      PowerStep(base, k);
      DigitAgain(n, base, Power(base, k - 1));
      Shifted(Numeral(n, base), Numeral(q, base), k);
    }
  }

  lemma Shifted(s: string, front: string, k: nat)
    requires 0 < k <= |front| && |s| == |front| + 1 && s[..|front|] == front
    ensures s[|s| - 1 - k] == front[|front| - 1 - (k - 1)]
  {
  }

  lemma DigitAgain(n: nat, base: nat, m: nat)
    requires 2 <= base <= 16 && m > 0
    ensures base * m > 0 && 0 <= n / base
    ensures DigitAt(n / base, base, m) == DigitAt(n, base, base * m)
  {
    DivideAgain(n, base, m);
  }

  lemma {:induction false} PowerPositive(base: nat, k: nat)
    requires base > 0
    ensures Power(base, k) > 0
  {
    if k > 0 {
      PowerPositive(base, k - 1);
      AtLeastOnce(Power(base, k - 1), base);
    }
  }

  lemma AtLeastOnce(m: nat, n: nat)
    requires n > 0
    ensures n * m >= m
  {
  }

  lemma LastDigit(n: nat, base: nat)
    requires 2 <= base <= 16
    ensures Power(base, 0) == 1
    ensures Numeral(n, base)[|Numeral(n, base)| - 1] == DigitAt(n, base, 1)
  {
    assert n / 1 == n;
    if n < base {
      SmallRemainder(n, base);
    } else {
      QuotientPositive(n, base);
    }
  }

  lemma FrontDigits(n: nat, base: nat)
    requires 2 <= base <= 16 && |Numeral(n, base)| > 1
    ensures n >= base && 0 <= n / base
    ensures |Numeral(n, base)| == |Numeral(n / base, base)| + 1
    ensures Numeral(n, base)[..|Numeral(n / base, base)|] == Numeral(n / base, base)
  {
    if n >= base {
      QuotientPositive(n, base);
    }
  }

  lemma DivideAgain(a: nat, d: nat, m: nat)
    requires d > 0 && m > 0
    ensures d * m > 0 && 0 <= a / d && (a / d) / m == a / (d * m)
  {
    AtLeastOnce(m, d);
    var q, r := (a / d) / m, (a / d) % m;
    DivMod(a, d);
    DivMod(a / d, m);
    assert a == d * (m * q + r) + a % d;
    assert d * (m * q + r) == (d * m) * q + d * r;
    RemainderBound(d, r, m, a % d);
    QuotientUnique(a, d * m, q, d * r + a % d);
  }

  lemma RemainderBound(d: nat, r: nat, m: nat, s: nat)
    requires r < m && s < d
    ensures d * r + s < d * m
  {
    assert d * m == d * r + d * (m - r);
    AtLeastOnce(d, m - r);
  }

  lemma QuotientUnique(a: nat, d: nat, q: nat, r: nat)
    requires d > 0 && a == d * q + r && r < d
    ensures a / d == q
  {
    DivMod(a, d);
    SameQuotient(d, q, r, a / d, a % d);
  }

  lemma SameQuotient(d: nat, q: int, r: nat, p: int, s: nat)
    requires r < d && s < d && d * q + r == d * p + s
    ensures p == q
  {
    if p < q {
      assert d * (q - p) == d * q - d * p;
      AtLeastOnce(d, q - p);
    } else if q < p {
      assert d * (p - q) == d * p - d * q;
      AtLeastOnce(d, p - q);
    }
  }

  /** Values of 64 bits have at most 20 decimal and 16 hexadecimal digits. */
  lemma Digits64(n: nat)
    requires n < 0x1_0000_0000_0000_0000
    ensures |Numeral(n, 10)| <= 20 && |Numeral(n, 16)| <= 16
  {
    Powers64();
    NumeralLength(n, 10, 20);
    NumeralLength(n, 16, 16);
  }

  lemma Powers64()
    ensures Power(10, 20) == 100_000_000_000_000_000_000 && Power(16, 16) == 0x1_0000_0000_0000_0000
  {
    assert Power(10, 5) == 100_000;
    assert Power(10, 10) == 10_000_000_000;
    assert Power(10, 15) == 1_000_000_000_000_000;
    assert Power(16, 5) == 0x10_0000;
    assert Power(16, 10) == 0x100_0000_0000;
  }

  function Backwards(s: string): (r: string)
    ensures |r| == |s|
  {
    if s == [] then [] else Backwards(s[1..]) + [s[0]]
  }

  lemma {:induction false} BackwardsAppend(s: string, c: char)
    ensures Backwards(s + [c]) == [c] + Backwards(s)
  {
    if s == [] {
      assert s + [c] == [c];
    } else {
      BackwardsAppend(s[1..], c);
      assert (s + [c])[1..] == s[1..] + [c];
    }
  }

  lemma NoneBackwards()
    ensures Backwards("") == ""
  {
  }

  lemma Turned(was: string, now: string, from: nat, to: nat)
    requires from <= to <= |was| == |now|
    requires forall k :: from <= k < to ==> now[k] == was[from + to - 1 - k]
    ensures now[from..to] == Backwards(was[from..to])
  {
    var part := was[from..to];
    forall k | 0 <= k < |part| ensures now[from..to][k] == Backwards(part)[k] {
      FromTheBack(part, k);
    }
  }

  lemma {:induction false} FromTheBack(s: string, k: nat)
    requires k < |s|
    ensures Backwards(s)[k] == s[|s| - 1 - k]
  {
    if k < |s| - 1 {
      FromTheBack(s[1..], k);
    }
  }
}

/** StackBuffer: a fixed array of characters with a write index. */
module StackBuffers {
  import opened Numerals

  const NUMBER_LIMIT: nat := 20 // decimal digits of a 64-bit number

  /** The contents of a buffer after a write of `data`: all of it if more room than that is left, else nothing. */
  function Written(contents: string, size: nat, data: string): string {
    if size - |contents| > |data| then contents + data else contents
  }

  class StackBuffer {
    const buffer: array<char>
    var writerIndex: nat

    ghost predicate Valid()
      reads this
    {
      writerIndex <= buffer.Length
    }

    ghost function Contents(): string
      requires Valid()
      reads this, buffer
    {
      buffer[..writerIndex]
    }

    constructor (size: nat)
      ensures Valid() && fresh(buffer) && buffer.Length == size && Contents() == []
    {
      buffer := new char[size](_ => '\0');
      writerIndex := 0;
    }

    function WritableBytes(): nat
      requires Valid()
      reads this
    {
      buffer.Length - writerIndex
    }

    /** Appends all of `data` or nothing. */
    method WriteBytes(data: string)
      requires Valid()
      modifies this, buffer
      ensures Valid()
      ensures Contents() == Written(old(Contents()), buffer.Length, data)
      ensures old(writerIndex) + |data| < buffer.Length ==> Contents() == old(Contents()) + data
      ensures old(writerIndex) + |data| >= buffer.Length ==> Contents() == old(Contents())
    {
      if WritableBytes() > |data| {
        forall i | 0 <= i < |data| {
          buffer[writerIndex + i] := data[i];
        }
        writerIndex := writerIndex + |data|;
      }
    }

    /** One digit goes from the number that is left to the digits written. */
    static lemma DigitWritten(rest: nat, base: nat, written: string)
      requires 2 <= base <= 16
      ensures var written' := written + [DIGITS[rest % base]];
        if rest < base then
          |Numeral(rest, base)| == 1 && Backwards(written') == Numeral(rest, base) + Backwards(written)
        else
          && 0 < rest / base < rest && |Numeral(rest, base)| == |Numeral(rest / base, base)| + 1
          && Numeral(rest / base, base) + Backwards(written') == Numeral(rest, base) + Backwards(written)
    {
      BackwardsAppend(written, DIGITS[rest % base]);
      hide Backwards;
      if rest < base {
        SmallRemainder(rest, base);
      } else {
        QuotientPositive(rest, base);
      }
    }

    /** Writes the digits of `value` at `from`, least significant first, and returns the end. */
    method PutDigits(value: nat, base: nat, from: nat) returns (end: nat)
      requires 2 <= base <= 16 && from + |Numeral(value, base)| <= buffer.Length
      modifies buffer
      ensures end == from + |Numeral(value, base)|
      ensures Backwards(buffer[from..end]) == Numeral(value, base)
      ensures buffer[..from] == old(buffer[..from])
    {
      NoneBackwards();
      hide Numeral, Backwards;
      var rest: nat := value;
      end := from;
      while true
        invariant from <= end && end + |Numeral(rest, base)| == from + |Numeral(value, base)|
        invariant Numeral(rest, base) + Backwards(buffer[from..end]) == Numeral(value, base)
        invariant buffer[..from] == old(buffer[..from])
        decreases rest
      {
        ghost var written := buffer[from..end];
        DigitWritten(rest, base, written);
        buffer[end] := DIGITS[rest % base];
        end := end + 1;
        assert buffer[from..end] == written + [DIGITS[rest % base]];
        if rest < base {
          return;
        }
        rest := rest / base;
      }
    }

    /** Reverses the characters from `from` up to `to`, in place. */
    method TurnDigits(from: nat, to: nat)
      requires from <= to <= buffer.Length
      modifies buffer
      ensures buffer[from..to] == Backwards(old(buffer[from..to]))
      ensures buffer[..from] == old(buffer[..from])
    {
      ghost var was := buffer[..];
      var first, last := from, to;
      while first < last
        invariant from <= first <= last + 1 <= to + 1 && first + last == from + to
        invariant forall k :: 0 <= k < from ==> buffer[k] == was[k]
        invariant forall k :: from <= k < first || last <= k < to ==> buffer[k] == was[from + to - 1 - k]
        invariant forall k :: first <= k < last ==> buffer[k] == was[k]
      {
        last := last - 1;
        buffer[first], buffer[last] := buffer[last], buffer[first];
        first := first + 1;
      }
      Turned(was, buffer[..], from, to);
    }

    /** Appends the numeral of a 64-bit value behind `prefix`, which is already in the array. */
    method WriteNumeral(value: nat, base: nat, from: nat)
      requires Valid() && 2 <= base <= 16 && writerIndex <= from
      requires from + |Numeral(value, base)| <= buffer.Length
      modifies this, buffer
      ensures Valid() && writerIndex == from + |Numeral(value, base)|
      ensures buffer[..writerIndex] == old(buffer[..from]) + Numeral(value, base)
    {
      var end := PutDigits(value, base, from);
      TurnDigits(from, end);
      writerIndex := end;
      assert buffer[..end] == buffer[..from] + buffer[from..end];
    }

    /** Appends the decimal numeral of a value below 2^64 if more than 20 characters are free, else nothing. */
    method WriteInteger(value: nat)
      requires Valid() && value < 0x1_0000_0000_0000_0000
      modifies this, buffer
      ensures Valid()
      ensures Contents() == old(Contents()) + if old(WritableBytes()) > 20 then Numeral(value, 10) else []
    {
      if WritableBytes() > NUMBER_LIMIT {
        Digits64(value);
        WriteNumeral(value, 10, writerIndex);
      }
    }

    /** Appends "0x" and the hexadecimal numeral, under the same guard. */
    method WritePointer(value: nat)
      requires Valid() && value < 0x1_0000_0000_0000_0000
      modifies this, buffer
      ensures Valid()
      ensures Contents() ==
        old(Contents()) + if old(WritableBytes()) > 20 then "0x" + Numeral(value, 16) else []
    {
      if WritableBytes() > NUMBER_LIMIT {
        Digits64(value);
        buffer[writerIndex], buffer[writerIndex + 1] := '0', 'x';
        assert buffer[..writerIndex + 2] == old(Contents()) + "0x";
        WriteNumeral(value, 16, writerIndex + 2);
      }
    }
  }
}
