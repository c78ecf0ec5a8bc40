/**
 * Number semantics of the two host languages that the palette code relies on:
 * Python's half-to-even `round`, Python's `int(s, 16)` and `'%02x'` formatting,
 * JavaScript's 32-bit bitwise operators and `parseInt`.
 */
module Numbers {
  import opened Wrappers
  import opened Text

  function MinReal(a: real, b: real): real { if a <= b then a else b }
  function MaxReal(a: real, b: real): real { if a >= b then a else b }
  function MinInt(a: int, b: int): int { if a <= b then a else b }
  function MaxInt(a: int, b: int): int { if a >= b then a else b }

  /** Python's `round(x)` on a number: the nearest integer, ties going to the even one. */
  function RoundHalfEven(x: real): (n: int)
    ensures x - 1.0 / 2.0 <= n as real <= x + 1.0 / 2.0
    ensures (n as real == x - 1.0 / 2.0 || n as real == x + 1.0 / 2.0) ==> n % 2 == 0
  {
    var f := x.Floor;
    var d := x - f as real;
    if d < 1.0 / 2.0 then f
    else if d > 1.0 / 2.0 then f + 1
    else if f % 2 == 0 then f else f + 1
  }

  lemma RoundOfInteger(n: int)
    ensures RoundHalfEven(n as real) == n
  {
  }

  lemma {:induction false} RoundMonotone(x: real, y: real)
    requires x <= y
    ensures RoundHalfEven(x) <= RoundHalfEven(y)
  {
    // Both results lie within 1/2 of x <= y; a decrease would need two adjacent
    // integers that are both ties, hence both even.
  }

  /** Rounding keeps a value inside integer bounds that enclose it. */
  lemma RoundWithin(x: real, lo: int, hi: int)
    requires lo as real <= x <= hi as real
    ensures lo <= RoundHalfEven(x) <= hi
  {
    RoundMonotone(lo as real, x);
    RoundMonotone(x, hi as real);
    RoundOfInteger(lo);
    RoundOfInteger(hi);
  }

  // ---------------------------------------------------------------- hexadecimal text

  predicate AllHex(s: string) { forall i :: 0 <= i < |s| ==> IsHexDigit(s[i]) }
  predicate AllLowerHex(s: string) { forall i :: 0 <= i < |s| ==> IsLowerHexDigit(s[i]) }
  predicate AllDigits(s: string) { forall i :: 0 <= i < |s| ==> IsDigit(s[i]) }

  /** The value of a string of hexadecimal digits, most significant first. */
  function HexNumber(d: string): nat
    requires AllHex(d)
  {
    if d == [] then 0 else HexNumber(d[..|d| - 1]) * 16 + HexValue(d[|d| - 1])
  }

  /** The value of a string of decimal digits, most significant first. */
  function DecimalNumber(d: string): nat
    requires AllDigits(d)
  {
    if d == [] then 0 else DecimalNumber(d[..|d| - 1]) * 10 + (d[|d| - 1] as int - '0' as int)
  }

  /** Lower-case hexadecimal digits of `n` with no leading zero (JavaScript `n.toString(16)`). */
  function HexDigits(n: nat): (r: string)
    ensures 0 < |r| && AllLowerHex(r) && HexNumber(r) == n
    ensures n < 16 ==> r == [HexChar(n)]
    ensures 16 <= n < 256 ==> r == [HexChar(n / 16), HexChar(n % 16)]
  {
    if n < 16 then [HexChar(n)]
    else
      var p := HexDigits(n / 16);
      var r := p + [HexChar(n % 16)];
      assert r[..|r| - 1] == p;
      r
  }

  /** Python's `'%02x' % n`: hexadecimal, at least two characters wide, zero-padded. */
  function Hex02(n: int): (r: string)
    ensures 0 <= n < 256 ==> r == [HexChar(n / 16), HexChar(n % 16)]
  {
    if n < 0 then "-" + HexDigits(-n)
    else if n < 16 then "0" + HexDigits(n)
    else HexDigits(n)
  }

  lemma HexPairValue(a: char, b: char)
    requires IsHexDigit(a) && IsHexDigit(b)
    ensures AllHex([a, b]) && HexNumber([a, b]) == HexValue(a) * 16 + HexValue(b)
  {
    var d := [a, b];
    assert d[..|d| - 1] == [a] && d[|d| - 1] == b;
    assert [a][..0] == [] && [a][0] == a;
    assert HexNumber([a]) == HexValue(a);
    assert HexNumber(d) == HexNumber([a]) * 16 + HexValue(b);
  }

  /**
   * Python's `int(s, 16)` for the strings of at most two characters that `hex_to_rgb`
   * hands it: surrounding whitespace is ignored, one optional sign, then one or more
   * hexadecimal digits; anything else is a `ValueError` (None).
   */
  function PyIntBase16(s: string): (r: Option<int>)
    ensures AllHex(s) && s != [] ==> r == Some(HexNumber(s))
    ensures |s| <= 2 && r.Some? ==> -15 <= r.value <= 255
  {
    var t := Trim(s);
    var negative := t != [] && t[0] == '-';
    var digits := if t != [] && (t[0] == '+' || t[0] == '-') then t[1..] else t;
    if digits == [] || !AllHex(digits) then None
    else
      HexNumberBound(digits);
      var v: int := HexNumber(digits);
      Some(if negative then -v else v)
  }

  lemma HexNumberBound(d: string)
    requires AllHex(d)
    ensures |d| <= 1 ==> HexNumber(d) < 16
    ensures |d| <= 2 ==> HexNumber(d) < 256
  {
    if d != [] {
      HexNumberBound(d[..|d| - 1]);
    }
  }

  // ---------------------------------------------------------------- JavaScript numbers

  const TwoTo32: int := 0x1_0000_0000
  const TwoTo31: int := 0x8000_0000

  /** ECMAScript ToInt32: the integer modulo 2^32, read as a signed 32-bit value. */
  function ToInt32(x: int): (r: int)
    ensures -TwoTo31 <= r < TwoTo31
    ensures (x - r) % TwoTo32 == 0
    ensures -TwoTo31 <= x < TwoTo31 ==> r == x
  {
    var m := x % TwoTo32;
    if m >= TwoTo31 then m - TwoTo32 else m
  }

  function Pow2(n: nat): (r: nat)
    ensures r >= 1
  {
    if n == 0 then 1 else 2 * Pow2(n - 1)
  }

  /** The powers of two the shifts of this model use. */
  lemma Pow2Values()
    ensures Pow2(5) == 32 && Pow2(8) == 256 && Pow2(16) == 65536
  {
    assert Pow2(4) == 16;
    assert Pow2(8) == 256;
    assert Pow2(12) == 4096;
  }

  /** Scaling two integers that agree modulo 2^32 by the same factor keeps them in agreement. */
  lemma ScaledMultiple(a: int, b: int, k: int)
    requires (a - b) % TwoTo32 == 0
    ensures (a * k - b * k) % TwoTo32 == 0
  {
    var q := (a - b) / TwoTo32;
    assert a == b + TwoTo32 * q;
    Distribute(b, TwoTo32 * q, k);
    assert a * k - b * k == TwoTo32 * (q * k);
  }

  lemma Distribute(a: int, b: int, k: int)
    ensures (a + b) * k == a * k + b * k
  {
  }

  /** Integers that agree modulo 2^32 have the same signed 32-bit value. */
  lemma ToInt32Congruent(a: int, b: int)
    requires (a - b) % TwoTo32 == 0
    ensures ToInt32(a) == ToInt32(b)
  {
    var ra, rb := ToInt32(a), ToInt32(b);
    var q, qa, qb := (a - b) / TwoTo32, (a - ra) / TwoTo32, (b - rb) / TwoTo32;
    assert a - b == TwoTo32 * q && a - ra == TwoTo32 * qa && b - rb == TwoTo32 * qb;
    assert ra - rb == TwoTo32 * (q - qa + qb);
  }

  /** JavaScript `x << n` for 0 <= n < 32: `x * 2^n` wrapped to a signed 32-bit value. */
  function ShiftLeft(x: int, n: nat): (r: int)
    requires n < 32
    ensures -TwoTo31 <= r < TwoTo31
  {
    ToInt32(ToInt32(x) * Pow2(n))
  }

  /** The shift agrees with `x * 2^n` modulo 2^32. */
  lemma ShiftLeftCongruent(x: int, n: nat)
    requires n < 32
    ensures (ShiftLeft(x, n) - x * Pow2(n)) % TwoTo32 == 0
  {
    WrappedProduct(x, Pow2(n));
  }

  /** Wrapping a factor before multiplying, and the product after, still agrees with the exact product. */
  lemma WrappedProduct(x: int, p: int)
    ensures (ToInt32(ToInt32(x) * p) - x * p) % TwoTo32 == 0
  {
    var t := ToInt32(x);
    ScaledMultiple(x, t, p);
    Congruent(x * p, t * p, ToInt32(t * p));
  }

  /** Agreement modulo 2^32 is transitive. */
  lemma Congruent(a: int, b: int, c: int)
    requires (a - b) % TwoTo32 == 0 && (b - c) % TwoTo32 == 0
    ensures (c - a) % TwoTo32 == 0
  {
    var qa, qb := (a - b) / TwoTo32, (b - c) / TwoTo32;
    assert c - a == TwoTo32 * (-qa - qb);
  }

  /** JavaScript `x >> n` (sign-propagating) for 0 <= n < 32: the 32-bit value divided by 2^n, rounded down. */
  function ShiftRight(x: int, n: nat): int
    requires n < 32
  {
    ToInt32(x) / Pow2(n)
  }

  /** JavaScript `x & 0xff`: the low byte of the 32-bit two's complement value, that is of `x` itself. */
  function LowByte(x: int): (r: int)
    ensures 0 <= r < 256
    ensures (x - r) % 256 == 0
  {
    LowByteCongruent(x);
    ToInt32(x) % 256
  }

  lemma LowByteCongruent(x: int)
    ensures (x - ToInt32(x) % 256) % 256 == 0
  {
    var t := ToInt32(x);
    var q, m := (x - t) / TwoTo32, t / 256;
    assert x - t == TwoTo32 * q;
    assert t == 256 * m + t % 256;
    assert x - t % 256 == 256 * (16777216 * q + m);
  }

  /** The longest prefix of `s` made of hexadecimal digits. */
  function HexPrefix(s: string): (p: string)
    ensures |p| <= |s| && p == s[..|p|] && AllHex(p)
    ensures |p| < |s| ==> !IsHexDigit(s[|p|])
  {
    if s != [] && IsHexDigit(s[0]) then [s[0]] + HexPrefix(s[1..]) else []
  }

  /** The longest prefix of `s` made of decimal digits. */
  function DecimalPrefix(s: string): (p: string)
    ensures |p| <= |s| && p == s[..|p|] && AllDigits(p)
    ensures |p| < |s| ==> !IsDigit(s[|p|])
  {
    if s != [] && IsDigit(s[0]) then [s[0]] + DecimalPrefix(s[1..]) else []
  }

  /** Sign handling shared by both `parseInt` variants: (negative, rest after the sign). */
  function SplitSign(s: string): (bool, string) {
    var t := TrimLeading(s);
    if t != [] && (t[0] == '+' || t[0] == '-') then (t[0] == '-', t[1..]) else (false, t)
  }

  predicate HasHexPrefix(s: string) {
    |s| >= 2 && s[0] == '0' && (s[1] == 'x' || s[1] == 'X')
  }

  /**
   * JavaScript `parseInt(s, 16)`: leading whitespace, an optional sign and an optional
   * `0x` are skipped, then the longest run of hexadecimal digits is read; no digit
   * at all gives NaN (None).
   */
  function JsParseHex(s: string): (r: Option<int>)
  {
    var (negative, rest) := SplitSign(s);
    var body := if HasHexPrefix(rest) then rest[2..] else rest;
    var digits := HexPrefix(body);
    if digits == [] then None
    else
      var v: int := HexNumber(digits);
      Some(if negative then -v else v)
  }

  lemma JsParseHexOfDigits(s: string)
    requires AllHex(s) && s != [] && !HasHexPrefix(s)
    ensures JsParseHex(s) == Some(HexNumber(s))
  {
    assert !IsSpace(s[0]) && s[0] != '+' && s[0] != '-';
    assert TrimLeading(s) == s;
    HexPrefixOfDigits(s);
  }

  /** Two hexadecimal digits parse to their value. */
  lemma JsParseHexPair(d: string)
    requires |d| == 2 && AllHex(d)
    ensures JsParseHex(d) == Some(HexNumber(d))
  {
    assert !HasHexPrefix(d) by {
      assert IsHexDigit(d[1]);
    }
    JsParseHexOfDigits(d);
  }

  lemma {:induction false} HexPrefixOfDigits(s: string)
    requires AllHex(s)
    ensures HexPrefix(s) == s
  {
    if s != [] {
      HexPrefixOfDigits(s[1..]);
    }
  }

  lemma {:induction false} DecimalPrefixOfDigits(s: string)
    requires AllDigits(s)
    ensures DecimalPrefix(s) == s
  {
    if s != [] {
      DecimalPrefixOfDigits(s[1..]);
    }
  }

  /** JavaScript `parseInt(s)` with no radix: decimal unless the text starts with `0x`. */
  function JsParseInt(s: string): (r: Option<int>)
  {
    var (negative, rest) := SplitSign(s);
    if HasHexPrefix(rest) then
      var digits := HexPrefix(rest[2..]);
      if digits == [] then None else var v: int := HexNumber(digits); Some(if negative then -v else v)
    else
      var digits := DecimalPrefix(rest);
      if digits == [] then None else var v: int := DecimalNumber(digits); Some(if negative then -v else v)
  }

  lemma JsParseIntOfDigits(s: string)
    requires AllDigits(s) && s != []
    ensures JsParseInt(s) == Some(DecimalNumber(s))
  {
    assert !IsSpace(s[0]) && s[0] != '+' && s[0] != '-';
    assert TrimLeading(s) == s;
    DecimalPrefixOfDigits(s);
  }
}
