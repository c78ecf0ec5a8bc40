/**
 * The avatar helpers of frontend/src/utils/avatarUtils.ts: a colour derived from a string
 * by a rolling hash, the text colour that contrasts with that colour, and the initials
 * shown in the avatar. A character stands for one UTF-16 code unit, its `charCodeAt`.
 */
module Avatar {
  import opened Wrappers
  import opened Text
  import opened Numbers

  /**
   * One step of the hash: the code unit plus `(hash << 5) - hash`. Only the shift wraps
   * to 32 bits; the subtraction and the addition are exact. Modulo 2^32 it is
   * `hash * 31 + c`.
   */
  function HashStep(hash: int, c: char): (r: int)
    ensures (r - (hash * 31 + c as int)) % TwoTo32 == 0
  {
    Pow2Values();
    ShiftLeftCongruent(hash, 5);
    c as int + (ShiftLeft(hash, 5) - hash)
  }

  /** The polynomial string hash `s[0] * 31^(n-1) + ... + s[n-1]`, without wrap-around. */
  function PolyHash(s: string): int {
    if s == [] then 0 else PolyHash(s[..|s| - 1]) * 31 + s[|s| - 1] as int
  }

  /** The hash of `s`, folded over its characters from 0: the polynomial hash modulo 2^32. */
  function Hash(s: string): (r: int)
    ensures (r - PolyHash(s)) % TwoTo32 == 0
  {
    if s == [] then 0
    else
      var h := Hash(s[..|s| - 1]);
      StepCongruent(h, PolyHash(s[..|s| - 1]), s[|s| - 1] as int, HashStep(h, s[|s| - 1]));
      HashStep(h, s[|s| - 1])
  }

  /** Stepping a hash that agrees with `p` modulo 2^32 agrees with the polynomial step from `p`. */
  lemma StepCongruent(h: int, p: int, c: int, r: int)
    requires (h - p) % TwoTo32 == 0 && (r - (h * 31 + c)) % TwoTo32 == 0
    ensures (r - (p * 31 + c)) % TwoTo32 == 0
  {
    var q, k := (h - p) / TwoTo32, (r - (h * 31 + c)) / TwoTo32;
    assert h - p == TwoTo32 * q;
    assert r - (h * 31 + c) == TwoTo32 * k;
    assert r - (p * 31 + c) == TwoTo32 * (k + 31 * q);
  }

  /** Byte `i` of the hash: `(hash >> (i * 8)) & 0xff`. */
  function HashByte(hash: int, i: nat): (r: int)
    requires i < 3
    ensures 0 <= r < 256
  {
    LowByte(ShiftRight(hash, i * 8))
  }

  /** JavaScript `s.slice(-2)`: the last two characters, or all of a shorter string. */
  function LastTwo(s: string): (r: string)
    ensures |s| >= 2 ==> |r| == 2 && r == s[|s| - 2..]
  {
    if |s| <= 2 then s else s[|s| - 2..]
  }

  /** `` `00${value.toString(16)}`.slice(-2) `` for one byte. */
  function PairText(v: int): (r: string)
    requires 0 <= v < 256
    ensures r == [HexChar(v / 16), HexChar(v % 16)]
  {
    var d := HexDigits(v);
    assert "00" + d == (if v < 16 then ['0', '0', HexChar(v)] else ['0', '0', HexChar(v / 16), HexChar(v % 16)]);
    LastTwo("00" + d)
  }

  /** The pairs of bytes 0 to n - 1 of the hash, in order. */
  function Pairs(hash: int, n: nat): (r: string)
    requires n <= 3
    ensures |r| == 2 * n
  {
    if n == 0 then "" else Pairs(hash, n - 1) + PairText(HashByte(hash, n - 1))
  }

  /** The colour `stringToColor` returns for a string with hash `hash`. */
  function ColourOfHash(hash: int): string {
    "#" + Pairs(hash, 3)
  }

  /** The colour `stringToColor` returns. */
  function ColourOf(s: string): string {
    ColourOfHash(Hash(s))
  }

  /** `stringToColor`: the hash loop, then one zero-padded pair per byte. */
  method StringToColor(s: string) returns (color: string)
    ensures color == ColourOf(s)
  {
    var hash := 0;
    for i := 0 to |s|
      invariant hash == Hash(s[..i])
    {
      assert s[..i + 1][..i] == s[..i];
      hash := s[i] as int + (ShiftLeft(hash, 5) - hash);
    }
    assert s[..|s|] == s;
    color := "#";
    for i := 0 to 3
      invariant color == "#" + Pairs(hash, i)
    {
      var value := HashByte(hash, i);
      color := color + LastTwo("00" + HexDigits(value));
    }
  }

  /** The colour spelled out: `#`, then the two digits of each byte of the hash. */
  lemma ColourDigits(hash: int)
    ensures ColourOfHash(hash) == Spelled(HashByte(hash, 0), HashByte(hash, 1), HashByte(hash, 2))
  {
    assert Pairs(hash, 1) == PairText(HashByte(hash, 0));
    assert Pairs(hash, 2) == PairText(HashByte(hash, 0)) + PairText(HashByte(hash, 1));
    assert Pairs(hash, 3) == PairText(HashByte(hash, 0)) + PairText(HashByte(hash, 1)) + PairText(HashByte(hash, 2));
    SpelledPairs(HashByte(hash, 0), HashByte(hash, 1), HashByte(hash, 2));
  }

  lemma SpelledPairs(b0: int, b1: int, b2: int)
    requires 0 <= b0 < 256 && 0 <= b1 < 256 && 0 <= b2 < 256
    ensures "#" + PairText(b0) + PairText(b1) + PairText(b2) == Spelled(b0, b1, b2)
  {
    var p0, p1, p2 := PairText(b0), PairText(b1), PairText(b2);
    assert "#" + p0 + p1 + p2 == ['#', p0[0], p0[1], p1[0], p1[1], p2[0], p2[1]];
  }

  /** Three bytes as `#` and two lower-case hexadecimal digits each. */
  function Spelled(b0: int, b1: int, b2: int): (c: string)
    requires 0 <= b0 < 256 && 0 <= b1 < 256 && 0 <= b2 < 256
    ensures |c| == 7 && c[0] == '#' && AllLowerHex(c[1..])
    ensures AllHex(c[1..3]) && HexNumber(c[1..3]) == b0
    ensures AllHex(c[3..5]) && HexNumber(c[3..5]) == b1
    ensures AllHex(c[5..7]) && HexNumber(c[5..7]) == b2
  {
    var c := ['#', HexChar(b0 / 16), HexChar(b0 % 16), HexChar(b1 / 16), HexChar(b1 % 16),
              HexChar(b2 / 16), HexChar(b2 % 16)];
    PairValue(c, 1, b0);
    PairValue(c, 3, b1);
    PairValue(c, 5, b2);
    c
  }

  lemma PairValue(c: string, j: nat, v: int)
    requires j + 2 <= |c| && 0 <= v < 256 && c[j] == HexChar(v / 16) && c[j + 1] == HexChar(v % 16)
    ensures AllHex(c[j..j + 2]) && HexNumber(c[j..j + 2]) == v
  {
    assert c[j..j + 2] == [HexChar(v / 16), HexChar(v % 16)];
    HexPairValue(HexChar(v / 16), HexChar(v % 16));
  }

  /**
   * The colour is `#` and six lower-case hexadecimal digits, and pair `i` reads back as
   * byte `i` of the hash.
   */
  lemma ColourFormat(s: string)
    ensures var c, h := ColourOf(s), Hash(s);
      && |c| == 7 && c[0] == '#' && AllLowerHex(c[1..])
      && AllHex(c[1..3]) && HexNumber(c[1..3]) == HashByte(h, 0)
      && AllHex(c[3..5]) && HexNumber(c[3..5]) == HashByte(h, 1)
      && AllHex(c[5..7]) && HexNumber(c[5..7]) == HashByte(h, 2)
  {
    ColourDigits(Hash(s));
  }

  /** Hashes that agree modulo 2^32 give the same colour. */
  lemma SameColour(h: int, k: int)
    requires (h - k) % TwoTo32 == 0
    ensures ColourOfHash(h) == ColourOfHash(k)
  {
    ToInt32Congruent(h, k);
    SameBytes(h, k);
    ColourDigits(h);
    ColourDigits(k);
  }

  /** Hashes with the same 32-bit value have the same bytes. */
  lemma SameBytes(h: int, k: int)
    requires ToInt32(h) == ToInt32(k)
    ensures HashByte(h, 0) == HashByte(k, 0) && HashByte(h, 1) == HashByte(k, 1) && HashByte(h, 2) == HashByte(k, 2)
  {
  }

  /** The empty string hashes to 0 and gets black. */
  lemma EmptyColour()
    ensures ColourOf("") == "#000000"
  {
    Pow2Values();
    assert HashByte(0, 0) == 0 && HashByte(0, 1) == 0 && HashByte(0, 2) == 0;
    ColourDigits(0);
  }

  /**
   * Byte `i` is that byte of the hash taken modulo 2^32: the signed reading of the
   * shift and the mask agrees with the unsigned 32-bit value.
   */
  lemma HashByteUnsigned(hash: int)
    ensures HashByte(hash, 0) == (hash % TwoTo32) % 256
    ensures HashByte(hash, 1) == (hash % TwoTo32) / 256 % 256
    ensures HashByte(hash, 2) == (hash % TwoTo32) / 65536 % 256
  {
    Pow2Values();
    assert Pow2(0) == 1;
    UnsignedByte(hash, 1);
    UnsignedByte(hash, 256);
    UnsignedByte(hash, 65536);
  }

  /** Masking the signed value shifted by a whole number of bytes reads the unsigned one. */
  lemma UnsignedByte(hash: int, k: int)
    requires k == 1 || k == 256 || k == 65536
    ensures LowByte(ToInt32(hash) / k) == (hash % TwoTo32) / k % 256
  {
    var t, u := ToInt32(hash), hash % TwoTo32;
    assert ToInt32(t / k) == t / k;
    if u != t {
      WrappedQuotient(t, k);
    }
  }

  /** Adding 2^32 to a value adds a multiple of 256 to its quotient by `k`. */
  lemma WrappedQuotient(t: int, k: int)
    requires k == 1 || k == 256 || k == 65536
    ensures (t + TwoTo32) / k % 256 == t / k % 256
  {
    if k == 1 {
    } else if k == 256 {
      assert (t + TwoTo32) / 256 == t / 256 + 16777216;
    } else {
      assert (t + TwoTo32) / 65536 == t / 65536 + 65536;
    }
  }

  /** JavaScript `s.replace(c, "")` with a one-character pattern: the first `c` is removed. */
  function RemoveFirst(s: string, c: char): (r: string)
    ensures |s| > 0 && s[0] == c ==> r == s[1..]
    ensures c !in s ==> r == s
  {
    if s == [] then [] else if s[0] == c then s[1..] else [s[0]] + RemoveFirst(s[1..], c)
  }

  /** JavaScript `s.substr(start, length)` for a non-negative start and length. */
  function Substr(s: string, start: nat, length: nat): (r: string)
    ensures start + length <= |s| ==> r == s[start..start + length]
  {
    if start >= |s| then "" else s[start..MinInt(start + length, |s|)]
  }

  /** Whether the weighted sum of the channels, read back with `parseInt(_, 16)`, reaches 128. */
  predicate LightEnough(r: Option<int>, g: Option<int>, b: Option<int>) {
    // NaN compares false, so a channel that does not parse never counts as light.
    r.Some? && g.Some? && b.Some? && (r.value * 299 + g.value * 587 + b.value * 114) as real / 1000.0 >= 128.0
  }

  /**
   * `stringToContrastColor`: black when the YIQ brightness of the avatar colour is at
   * least 128, white otherwise.
   */
  function ContrastOf(s: string): (r: string)
    ensures var h := Hash(s);
      r == "#000000" <==> HashByte(h, 0) * 299 + HashByte(h, 1) * 587 + HashByte(h, 2) * 114 >= 128000
    ensures r == "#000000" || r == "#ffffff"
  {
    var h := Hash(s);
    var hex := ColourOf(s);
    var contrastHex := RemoveFirst(hex, '#');
    ColourDigits(h);
    ReadBack(hex, HashByte(h, 0), HashByte(h, 1), HashByte(h, 2));
    var r, g, b := JsParseHex(Substr(contrastHex, 0, 2)), JsParseHex(Substr(contrastHex, 2, 2)), JsParseHex(Substr(contrastHex, 4, 2));
    if LightEnough(r, g, b) then "#000000" else "#ffffff"
  }

  /** The three pairs of a spelled colour, after its `#` is removed, parse back to its bytes. */
  lemma ReadBack(hex: string, b0: int, b1: int, b2: int)
    requires 0 <= b0 < 256 && 0 <= b1 < 256 && 0 <= b2 < 256 && hex == Spelled(b0, b1, b2)
    ensures var c := RemoveFirst(hex, '#');
      && JsParseHex(Substr(c, 0, 2)) == Some(b0)
      && JsParseHex(Substr(c, 2, 2)) == Some(b1)
      && JsParseHex(Substr(c, 4, 2)) == Some(b2)
  {
    var c := RemoveFirst(hex, '#');
    assert Substr(c, 0, 2) == hex[1..3];
    assert Substr(c, 2, 2) == hex[3..5];
    assert Substr(c, 4, 2) == hex[5..7];
    JsParseHexPair(hex[1..3]);
    JsParseHexPair(hex[3..5]);
    JsParseHexPair(hex[5..7]);
  }

  /** The first character of a name, or "" for an empty one (`name[0] || ""`). */
  function Initial(name: string): (r: string)
    ensures name == [] ==> r == []
    ensures name != [] ==> r == [name[0]]
  {
    if name == [] then [] else name[..1]
  }

  /** `generateAvatarLabel`: the upper-cased initials of the first and last name. */
  function AvatarLabel(firstName: string, lastName: string): (r: string)
    ensures |r| == |Initial(firstName)| + |Initial(lastName)| <= 2
    ensures firstName == [] && lastName == [] ==> r == []
    ensures firstName != [] ==> r[0] == UpperChar(firstName[0])
    ensures lastName != [] ==> r[|r| - 1] == UpperChar(lastName[0])
    ensures forall i :: 0 <= i < |r| ==> !IsLowerLetter(r[i])
  {
    Upper(Initial(firstName)) + Upper(Initial(lastName))
  }
}
