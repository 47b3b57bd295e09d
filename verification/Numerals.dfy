/** Numerals as the C library reads them at the start of a text. */
module Numerals {
  import opened Text
  import opened Values

  /** What was read and how many characters it took; none when there is no numeral. */
  datatype Whole = Whole(value: int, length: nat)
  datatype Decimal = Decimal(value: real, length: nat)

  predicate IsSign(c: char) {
    c == '-' || c == '+'
  }

  function SignLength(s: string): (n: nat)
    ensures n <= |s| && n <= 1
  {
    if s != [] && IsSign(s[0]) then 1 else 0
  }

  predicate Negative(s: string) {
    s != [] && s[0] == '-'
  }

  /** The digits at the start of a text. */
  function Digits(s: string): (d: string)
    ensures d <= s && forall i :: 0 <= i < |d| ==> IsDigit(d[i])
  {
    s[..Span(s, IsDigit)]
  }

  /** A signed whole number in base 10, not yet confined to a machine word. */
  function ReadWhole(s: string): (r: Whole)
    ensures r.length <= |s|
  {
    var sign := SignLength(s);
    var digits := Digits(s[sign..]);
    var value: int := NatOf(digits);
    if digits == [] then Whole(0, 0) else Whole(if Negative(s) then -value else value, sign + |digits|)
  }

  const LONG_MAX: int := 0x7FFF_FFFF_FFFF_FFFF

  /** strtol into an `int`: confined to 64 bits, then cut to 32. */
  function ReadInt(s: string): (r: Whole)
    ensures r.length <= |s|
  {
    var w := ReadWhole(s);
    Whole(Wrap32(Clamp(w.value)), w.length)
  }

  function Clamp(i: int): int {
    if i > LONG_MAX then LONG_MAX else if i < -LONG_MAX - 1 then -LONG_MAX - 1 else i
  }

  function Wrap32(i: int): int {
    (i + 0x8000_0000) % 0x1_0000_0000 - 0x8000_0000
  }

  /** strtoull: a value out of range is the largest one, and a minus sign negates modulo 2^64. */
  function ReadUnsigned(s: string): (r: Whole)
    ensures r.length <= |s| && 0 <= r.value < U64
  {
    var w := ReadWhole(s);
    var size := if w.value < 0 then -w.value else w.value;
    Whole(if size >= U64 then U64 - 1 else w.value % U64, w.length)
  }

  function Pow10(n: nat): (r: real)
    ensures r > 0.0
  {
    if n == 0 then 1.0 else 10.0 * Pow10(n - 1)
  }

  /** Digits with an optional fraction; there must be a digit somewhere. */
  function ReadMantissa(s: string): (r: Decimal)
    ensures r.length <= |s|
  {
    var whole := Digits(s);
    var rest := s[|whole|..];
    if rest == [] || rest[0] != '.' then Decimal(NatOf(whole) as real, |whole|)
    else
      var fraction := Digits(rest[1..]);
      if whole == [] && fraction == [] then Decimal(0.0, 0)
      else Decimal(NatOf(whole) as real + NatOf(fraction) as real / Pow10(|fraction|), |whole| + 1 + |fraction|)
  }

  /** A decimal exponent; it counts only with a digit in it. */
  function ReadExponent(s: string): (r: Whole)
    ensures r.length <= |s|
  {
    if s == [] || Lower(s[0]) != 'e' then Whole(0, 0)
    else
      var w := ReadWhole(s[1..]);
      if w.length == 0 then Whole(0, 0) else Whole(w.value, w.length + 1)
  }

  /** strtod on decimal numerals. */
  function ReadDecimal(s: string): (r: Decimal)
    ensures r.length <= |s|
  {
    var sign := SignLength(s);
    var m := ReadMantissa(s[sign..]);
    if m.length == 0 then Decimal(0.0, 0)
    else
      var e := ReadExponent(s[sign + m.length..]);
      var size := if e.value >= 0 then m.value * Pow10(e.value) else m.value / Pow10(-e.value);
      Decimal(if Negative(s) then -size else size, sign + m.length + e.length)
  }

  // ----- reading back a printed number

  /** Nothing in `tail` could continue a number. */
  predicate EndsNumber(tail: string) {
    tail == [] || !(IsDigit(tail[0]) || tail[0] == '.' || Lower(tail[0]) == 'e')
  }

  lemma DigitsOf(digits: string, tail: string)
    requires forall i :: 0 <= i < |digits| ==> IsDigit(digits[i])
    requires tail == [] || !IsDigit(tail[0])
    ensures Digits(digits + tail) == digits
    ensures (digits + tail)[|digits|..] == tail
  {
    SpanIs(digits + tail, IsDigit, |digits|);
  }

  lemma WholeOfNat(n: nat, tail: string)
    requires tail == [] || !IsDigit(tail[0])
    ensures ReadWhole(NatText(n) + tail) == Whole(n, |NatText(n)|)
  {
    NatOfNatText(n);
    DigitsOf(NatText(n), tail);
    assert (NatText(n) + tail)[0] == NatText(n)[0];
  }

  lemma WholeOfInt(i: int, tail: string)
    requires tail == [] || !IsDigit(tail[0])
    ensures ReadWhole(IntText(i) + tail) == Whole(i, |IntText(i)|)
  {
    if i >= 0 {
      WholeOfNat(i, tail);
    } else {
      NatOfNatText(-i);
      DigitsOf(NatText(-i), tail);
      assert IntText(i) + tail == "-" + (NatText(-i) + tail);
      assert ("-" + (NatText(-i) + tail))[1..] == NatText(-i) + tail;
    }
  }

  lemma DecimalOfNat(n: nat, tail: string)
    requires EndsNumber(tail)
    ensures ReadDecimal(NatText(n) + tail) == Decimal(n as real, |NatText(n)|)
  {
    var s := NatText(n) + tail;
    NatOfNatText(n);
    DigitsOf(NatText(n), tail);
    assert s[0] == NatText(n)[0];
    assert s[0..] == s;
  }

  lemma DecimalOfInt(i: int, tail: string)
    requires EndsNumber(tail)
    ensures ReadDecimal(IntText(i) + tail) == Decimal(i as real, |IntText(i)|)
  {
    if i >= 0 {
      DecimalOfNat(i, tail);
    } else {
      NatOfNatText(-i);
      DigitsOf(NatText(-i), tail);
      var s := NatText(-i) + tail;
      assert IntText(i) + tail == "-" + s;
      assert ("-" + s)[1..] == s;
      assert ("-" + s)[|IntText(i)|..] == tail;
    }
  }
}
