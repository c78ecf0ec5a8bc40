/**
 * The colour conversions shared by the Django generator (backend/generator/generator.py)
 * and the older Flask generator (app/generator.py): hex parsing and formatting, the
 * brightness-based contrast rule and RGB to CMYK. Both generators define these helpers
 * with identical bodies, so they are defined once here.
 *
 * `colorsys.hsv_to_rgb` and `colorsys.rgb_to_hsv` are floating-point library code; they
 * are parameters of type `Colorsys`, and floats are exact reals.
 */
module ColorCodec {
  import opened Wrappers
  import opened Text
  import opened Numbers

  datatype Rgb = Rgb(r: int, g: int, b: int)
  datatype Hsb = Hsb(h: real, s: real, b: real)
  datatype Cmyk = Cmyk(c: int, m: int, y: int, k: int)

  /** A `colorsys` conversion: a triple of fractions to a triple of fractions. */
  type Colorsys = (real, real, real) -> (real, real, real)

  const Black := Rgb(0, 0, 0)
  const White := Rgb(255, 255, 255)

  predicate InByteRange(c: Rgb) {
    0 <= c.r <= 255 && 0 <= c.g <= 255 && 0 <= c.b <= 255
  }

  predicate IsIntegral(x: real) {
    x.Floor as real == x
  }

  predicate IntegralHsb(c: Hsb) {
    IsIntegral(c.h) && IsIntegral(c.s) && IsIntegral(c.b)
  }

  /** Python's slice `s[i:j]` for non-negative bounds: both bounds are cut back to `|s|`. */
  function PySlice(s: string, i: nat, j: nat): (r: string)
    ensures |r| == MaxInt(0, MinInt(j, |s|) - i)
    ensures j <= |s| && i <= j ==> r == s[i..j]
  {
    var hi := if j <= |s| then j else |s|;
    var lo := if i <= hi then i else hi;
    s[lo..hi]
  }

  /** The message of the `ValueError` that `int(s, 16)` raises. */
  function InvalidLiteral(s: string): string {
    "invalid literal for int() with base 16: '" + s + "'"
  }

  /** `int(d[i:i+2], 16)`: Err carries the `ValueError` message. */
  function ParsePair(d: string, i: nat): (r: Result<int, string>)
    ensures r.Ok? ==> -15 <= r.value <= 255
    ensures i >= |d| ==> r.Err?
    ensures r.Err? ==> r.error != ""
  {
    var p := PySlice(d, i, i + 2);
    match PyIntBase16(p)
    case None => Err(InvalidLiteral(p))
    case Some(v) => Ok(v)
  }

  /** Two hex digits at `i` parse to their two-digit value. */
  lemma ParsePairOfDigits(d: string, i: nat)
    requires i + 2 <= |d| && IsHexDigit(d[i]) && IsHexDigit(d[i + 1])
    ensures ParsePair(d, i) == Ok(PairAt(d, i))
  {
    assert PySlice(d, i, i + 2) == [d[i], d[i + 1]];
    HexPairValue(d[i], d[i + 1]);
  }

  /**
   * `hex_to_rgb`: strip every leading and trailing `#`, then read the slices [0:2], [2:4]
   * and [4:6] with `int(_, 16)`. A slice `int` rejects (the empty slice of a short input,
   * a non-hex character) is the `ValueError` the function raises.
   */
  function HexToRgb(hex: string): (r: Result<Rgb, string>)
    ensures |StripChar(hex, '#')| <= 4 ==> r.Err?
    ensures r.Ok? ==> -15 <= r.value.r <= 255 && -15 <= r.value.g <= 255 && -15 <= r.value.b <= 255
    ensures r.Err? ==> r.error != ""
  {
    ReadPairs(StripChar(hex, '#'))
  }

  /** The three `int(_, 16)` calls on the `#`-stripped text, the first failure winning. */
  function ReadPairs(d: string): (r: Result<Rgb, string>)
    ensures |d| <= 4 ==> r.Err?
    ensures r.Ok? ==> -15 <= r.value.r <= 255 && -15 <= r.value.g <= 255 && -15 <= r.value.b <= 255
    ensures r.Err? ==> r.error != ""
  {
    match ParsePair(d, 0)
    case Err(e) => Err(e)
    case Ok(r) =>
      match ParsePair(d, 2)
      case Err(e) => Err(e)
      case Ok(g) =>
        match ParsePair(d, 4)
        case Err(e) => Err(e)
        case Ok(b) => Ok(Rgb(r, g, b))
  }

  /** The text starts with six hexadecimal digits. */
  predicate SixHex(d: string) {
    |d| >= 6 && IsHexDigit(d[0]) && IsHexDigit(d[1]) && IsHexDigit(d[2])
    && IsHexDigit(d[3]) && IsHexDigit(d[4]) && IsHexDigit(d[5])
  }

  /** The three two-digit values of a text that starts with six hex digits. */
  function PairValues(d: string): (c: Rgb)
    requires SixHex(d)
    ensures InByteRange(c)
  {
    Rgb(PairAt(d, 0), PairAt(d, 2), PairAt(d, 4))
  }

  /** The value of the two hex digits at `i`. */
  function PairAt(d: string, i: nat): (v: int)
    requires i + 2 <= |d| && IsHexDigit(d[i]) && IsHexDigit(d[i + 1])
    ensures 0 <= v < 256
  {
    HexValue(d[i]) * 16 + HexValue(d[i + 1])
  }

  /** Six hex digits after the stripped `#` parse as three two-digit pairs, each in 0..255. */
  lemma HexToRgbOfDigits(hex: string)
    requires SixHex(StripChar(hex, '#'))
    ensures HexToRgb(hex) == Ok(PairValues(StripChar(hex, '#')))
  {
    ReadPairsOfDigits(StripChar(hex, '#'));
  }

  lemma ReadPairsOfDigits(d: string)
    requires SixHex(d)
    ensures ReadPairs(d) == Ok(PairValues(d))
  {
    ParsePairOfDigits(d, 0);
    ParsePairOfDigits(d, 2);
    ParsePairOfDigits(d, 4);
    ReadPairsOfParsed(d, PairAt(d, 0), PairAt(d, 2), PairAt(d, 4));
  }

  lemma ReadPairsOfParsed(d: string, x: int, y: int, z: int)
    requires ParsePair(d, 0) == Ok(x) && ParsePair(d, 2) == Ok(y) && ParsePair(d, 4) == Ok(z)
    ensures ReadPairs(d) == Ok(Rgb(x, y, z))
  {
  }

  /** `'#%02x%02x%02x' % rgb`. */
  function FormatHex(c: Rgb): (r: string)
    ensures |r| > 0 && r[0] == '#'
    ensures InByteRange(c) ==> |r| == 7 && AllLowerHex(r[1..])
  {
    "#" + Hex02(c.r) + Hex02(c.g) + Hex02(c.b)
  }

  /** A hexadecimal digit read and printed back is its lower-case form. */
  lemma HexCharOfValue(c: char)
    requires IsHexDigit(c)
    ensures HexChar(HexValue(c)) == LowerChar(c)
  {
  }

  /**
   * Round trip: for six hex digits `h`, with or without a leading `#`, formatting the
   * parsed triple gives `#` followed by `h` in lower case.
   */
  lemma HexRoundTrip(h: string, withHash: bool)
    requires |h| == 6 && AllHex(h)
    ensures var input := if withHash then "#" + h else h;
      HexToRgb(input).Ok? && FormatHex(HexToRgb(input).value) == "#" + Lower(h)
  {
    var input := if withHash then "#" + h else h;
    StripHash(h, withHash);
    assert SixHex(h);
    HexToRgbOfDigits(input);
    FormatHexOfDigits(h);
  }

  lemma FormatHexOfDigits(h: string)
    requires |h| == 6 && SixHex(h)
    ensures FormatHex(PairValues(h)) == "#" + Lower(h)
  {
    var c := PairValues(h);
    var a := [LowerChar(h[0]), LowerChar(h[1])];
    var b := [LowerChar(h[2]), LowerChar(h[3])];
    var e := [LowerChar(h[4]), LowerChar(h[5])];
    assert Hex02(c.r) == a by { Hex02OfPair(h, 0); }
    assert Hex02(c.g) == b by { Hex02OfPair(h, 2); }
    assert Hex02(c.b) == e by { Hex02OfPair(h, 4); }
    LowerOfSix(h);
  }

  lemma LowerOfSix(h: string)
    requires |h| == 6
    ensures "#" + Lower(h) == "#" + [LowerChar(h[0]), LowerChar(h[1])] + [LowerChar(h[2]), LowerChar(h[3])]
      + [LowerChar(h[4]), LowerChar(h[5])]
  {
  }

  /** `'%02x'` of a two-digit hex value prints the two digits back in lower case. */
  lemma Hex02OfPair(d: string, i: nat)
    requires i + 2 <= |d| && IsHexDigit(d[i]) && IsHexDigit(d[i + 1])
    ensures Hex02(PairAt(d, i)) == [LowerChar(d[i]), LowerChar(d[i + 1])]
  {
    var n := PairAt(d, i);
    assert n / 16 == HexValue(d[i]) && n % 16 == HexValue(d[i + 1]);
    HexCharOfValue(d[i]);
    HexCharOfValue(d[i + 1]);
  }

  /** Round trip the other way: a triple of bytes formatted and parsed back is itself. */
  lemma FormatParseRoundTrip(c: Rgb)
    requires InByteRange(c)
    ensures HexToRgb(FormatHex(c)) == Ok(c)
  {
    var h := FormattedDigits(c);
    HexToRgbOfDigits(FormatHex(c));
    PairOfHex02(h, 0, c.r);
    PairOfHex02(h, 2, c.g);
    PairOfHex02(h, 4, c.b);
  }

  /** The digits of a formatted byte colour: six hex digits, two per channel, behind the `#`. */
  lemma FormattedDigits(c: Rgb) returns (h: string)
    requires InByteRange(c)
    ensures StripChar(FormatHex(c), '#') == h && SixHex(h)
    ensures h == Hex02(c.r) + Hex02(c.g) + Hex02(c.b)
  {
    var hex := FormatHex(c);
    h := hex[1..];
    assert hex == "#" + h;
    assert h == Hex02(c.r) + Hex02(c.g) + Hex02(c.b);
    assert IsLowerHexDigit(h[0]) && IsLowerHexDigit(h[5]);
    StripHash(h, true);
  }

  /** Two digits printed by `'%02x'` read back as the value printed. */
  lemma PairOfHex02(d: string, i: nat, n: int)
    requires 0 <= n < 256 && i + 2 <= |d|
    requires d[i] == HexChar(n / 16) && d[i + 1] == HexChar(n % 16)
    ensures PairAt(d, i) == n
  {
  }

  /** Stripping `#` from `h`, or from `#` followed by `h`, gives `h` when `h` neither starts nor ends with `#`. */
  lemma StripHash(h: string, withHash: bool)
    requires h != [] && h[0] != '#' && h[|h| - 1] != '#'
    ensures StripChar(if withHash then "#" + h else h, '#') == h
  {
    var s := if withHash then "#" + h else h;
    assert StripLeading(s, '#') == h by {
      if withHash {
        assert s[0] == '#' && s[1..] == h;
      }
    }
    assert StripTrailing(h, '#') == h;
  }

  /** Four-character `#abc`: `hex_to_rgb` raises, because the third slice is empty. */
  lemma ShortHexRaises(h: string)
    requires |h| == 3 && AllHex(h)
    ensures HexToRgb("#" + h) == Err(InvalidLiteral(""))
  {
    StripHash(h, true);
    assert IsHexDigit(h[0]) && IsHexDigit(h[1]) && IsHexDigit(h[2]);
    ShortReadPairs(h);
  }

  /** Three hex digits: the slice [4:6] is empty and `int('', 16)` raises. */
  lemma ShortReadPairs(h: string)
    requires |h| == 3 && IsHexDigit(h[0]) && IsHexDigit(h[1]) && IsHexDigit(h[2])
    ensures ReadPairs(h) == Err(InvalidLiteral(""))
  {
    ParsePairOfDigits(h, 0);
    OneDigitPair(h, 2);
    EmptyPairFails(h, 4);
    ReadPairsThirdFails(h, InvalidLiteral(""));
  }

  /** A single hex digit left at `i`: `int` reads it. */
  lemma OneDigitPair(d: string, i: nat)
    requires i + 1 == |d| && IsHexDigit(d[i])
    ensures ParsePair(d, i) == Ok(HexValue(d[i]))
  {
    var p := PySlice(d, i, i + 2);
    assert p == [d[i]];
    assert AllHex(p) && HexNumber(p) == HexValue(d[i]) by {
      assert p[..0] == [];
    }
  }

  /** Nothing left at `i`: `int('', 16)` raises. */
  lemma EmptyPairFails(d: string, i: nat)
    requires |d| <= i
    ensures ParsePair(d, i) == Err(InvalidLiteral(""))
  {
    assert PySlice(d, i, i + 2) == [];
  }

  lemma ReadPairsThirdFails(d: string, e: string)
    requires ParsePair(d, 0).Ok? && ParsePair(d, 2).Ok? && ParsePair(d, 4) == Err(e)
    ensures ReadPairs(d) == Err(e)
  {
  }

  /** Python's `int(x)` on a float: truncation toward zero. */
  function Trunc(x: real): (n: int)
    ensures 0.0 <= x ==> n as real <= x < n as real + 1.0
    ensures x < 0.0 ==> n as real - 1.0 < x <= n as real
  {
    if x >= 0.0 then x.Floor else -((-x).Floor)
  }

  /** `hsb_to_rgb`: the fractions from `colorsys.hsv_to_rgb`, each times 255 and truncated. */
  function HsbToRgb(hsvToRgb: Colorsys, c: Hsb): (r: Rgb)
    ensures var (x, y, z) := hsvToRgb(c.h / 360.0, c.s / 100.0, c.b / 100.0);
      0.0 <= x <= 1.0 && 0.0 <= y <= 1.0 && 0.0 <= z <= 1.0 ==> InByteRange(r)
  {
    var (x, y, z) := hsvToRgb(c.h / 360.0, c.s / 100.0, c.b / 100.0);
    Rgb(Trunc(x * 255.0), Trunc(y * 255.0), Trunc(z * 255.0))
  }

  /** `hsb_to_hex`. */
  function HsbToHex(hsvToRgb: Colorsys, c: Hsb): (r: string)
    ensures |r| > 0 && r[0] == '#'
  {
    FormatHex(HsbToRgb(hsvToRgb, c))
  }

  /**
   * An exception the conversions raise: the `ValueError` of `int(_, 16)` with its message,
   * or the `ZeroDivisionError` of `colorsys.rgb_to_hsv`.
   */
  datatype ConversionError = ValueError(message: string) | ZeroDivisionError

  /** `type(e).__name__`. */
  function ErrorType(e: ConversionError): string {
    if e.ValueError? then "ValueError" else "ZeroDivisionError"
  }

  /** `str(e)` of Python's `ZeroDivisionError` on floats. */
  const DivisionByZero := "float division by zero"

  /** `str(e)`. */
  function ErrorText(e: ConversionError): string {
    if e.ValueError? then e.message else DivisionByZero
  }

  /**
   * `colorsys.rgb_to_hsv` divides the channel range by the largest channel once the
   * channels differ, so it raises when the largest is 0 and another is below it. Only a
   * parsed negative channel (`int('-f', 16)` is -15) can make that happen.
   */
  predicate HsvDividesByZero(c: Rgb) {
    MaxInt(c.r, MaxInt(c.g, c.b)) == 0 && MinInt(c.r, MinInt(c.g, c.b)) < 0
  }

  /** `hex_to_hsb` returns rather than raises. */
  predicate Convertible(hex: string) {
    HexToRgb(hex).Ok? && !HsvDividesByZero(HexToRgb(hex).value)
  }

  /**
   * `hex_to_hsb`: parse, `colorsys.rgb_to_hsv`, scale to 360/100/100, round half to even.
   * A parse failure is the `ValueError`; a zero largest channel below which another lies
   * is the `ZeroDivisionError`.
   */
  function HexToHsb(rgbToHsv: Colorsys, hex: string): (r: Result<Hsb, ConversionError>)
    ensures r.Ok? <==> Convertible(hex)
    ensures HexToRgb(hex).Err? ==> r == Err(ValueError(HexToRgb(hex).error))
    ensures HexToRgb(hex).Ok? && r.Err? ==> r == Err(ZeroDivisionError)
    ensures r.Err? ==> ErrorText(r.error) != ""
    ensures r.Ok? ==> IntegralHsb(r.value)
  {
    match HexToRgb(hex)
    case Err(e) => Err(ValueError(e))
    case Ok(c) =>
      if HsvDividesByZero(c) then Err(ZeroDivisionError)
      else
        var (h, s, v) := rgbToHsv(c.r as real / 255.0, c.g as real / 255.0, c.b as real / 255.0);
        Ok(Hsb(RoundHalfEven(h * 360.0) as real, RoundHalfEven(s * 100.0) as real, RoundHalfEven(v * 100.0) as real))
  }

  /** Six hex digits (with or without `#`) always convert: their channels are bytes. */
  lemma SixDigitsConvertible(hex: string)
    requires SixHex(StripChar(hex, '#'))
    ensures Convertible(hex)
  {
    HexToRgbOfDigits(hex);
  }

  /**
   * A signed pair passes the length test and parses, but then divides by zero:
   * `#-f0000` is the channels (-15, 0, 0), whose largest is 0.
   */
  lemma NegativeChannelRaises(rgbToHsv: Colorsys)
    ensures HexToRgb("#-f0000") == Ok(Rgb(-15, 0, 0))
    ensures HexToHsb(rgbToHsv, "#-f0000") == Err(ZeroDivisionError)
  {
    StripSigned();
    SignedPairs();
    assert ReadPairs("-f0000") == Ok(Rgb(-15, 0, 0));
  }

  lemma StripSigned()
    ensures StripChar("#-f0000", '#') == "-f0000"
  {
    assert StripLeading("#-f0000", '#') == StripLeading("-f0000", '#') == "-f0000";
  }

  /** `int('-f', 16)` is -15 and `int('00', 16)` is 0. */
  lemma SignedPairs()
    ensures ParsePair("-f0000", 0) == Ok(-15)
    ensures ParsePair("-f0000", 2) == Ok(0) && ParsePair("-f0000", 4) == Ok(0)
  {
    assert PySlice("-f0000", 0, 2) == "-f";
    assert PySlice("-f0000", 2, 4) == "00" && PySlice("-f0000", 4, 6) == "00";
    MinusF();
    DoubleZero();
  }

  lemma MinusF()
    ensures PyIntBase16("-f") == Some(-15)
  {
    assert TrimLeading("-f") == "-f";
    assert TrimTrailing("-f") == "-f";
    assert "-f"[1..] == "f" && "f"[..0] == [];
    assert HexNumber("f") == 15;
  }

  lemma DoubleZero()
    ensures PyIntBase16("00") == Some(0)
  {
    assert AllHex("00");
    assert "00"[..1] == "0" && "0"[..0] == [];
    assert HexNumber("00") == 0;
  }

  /** `brightness`: the weighted channel sum over 1000, with blue weighted 2.2. */
  function Brightness(c: Rgb): real {
    (c.r as real * 299.0 + c.g as real * 587.0 + c.b as real * 2.2) / 1000.0
  }

  /** `contrast_color`: black text on a bright colour, white text otherwise. */
  function ContrastColor(c: Rgb): (r: Rgb)
    ensures r == Black <==> Brightness(c) > 128.0
    ensures r == Black || r == White
  {
    if Brightness(c) > 128.0 then Black else White
  }

  /** Raising channels never turns black text back to white. */
  lemma ContrastMonotone(c: Rgb, d: Rgb)
    requires 0 <= c.r <= d.r && 0 <= c.g <= d.g && 0 <= c.b <= d.b
    ensures ContrastColor(c) == Black ==> ContrastColor(d) == Black
  {
    assert Brightness(c) <= Brightness(d);
  }

  /** White gets black text; black and pure blue (blue weighs only 2.2) get white text. */
  lemma ContrastExtremes()
    ensures ContrastColor(White) == Black
    ensures ContrastColor(Black) == White
    ensures ContrastColor(Rgb(0, 0, 255)) == White
  {
  }

  function Max3(a: int, b: int, c: int): int {
    MaxInt(a, MaxInt(b, c))
  }

  /**
   * `rgb_to_cmyk`: with channel fractions x/255 and K = 1 - max, black is (0, 0, 0, 100);
   * otherwise each ink is (1 - x - K) / (1 - K), and all four are scaled to percent and
   * rounded half to even.
   */
  function RgbToCmyk(c: Rgb): (r: Cmyk)
    ensures Max3(c.r, c.g, c.b) == 0 ==> r == Cmyk(0, 0, 0, 100)
  {
    var x, y, z := c.r as real / 255.0, c.g as real / 255.0, c.b as real / 255.0;
    var k := 1.0 - MaxReal(x, MaxReal(y, z));
    if k == 1.0 then Cmyk(0, 0, 0, 100)
    else
      Cmyk(RoundHalfEven((1.0 - x - k) / (1.0 - k) * 100.0),
           RoundHalfEven((1.0 - y - k) / (1.0 - k) * 100.0),
           RoundHalfEven((1.0 - z - k) / (1.0 - k) * 100.0),
           RoundHalfEven(k * 100.0))
  }

  /** With K = 1 - m/255, the ink (1 - x/255 - K) / (1 - K) is (m - x) / m. */
  lemma InkIsShortfall(x: int, m: int)
    requires 0 < m
    ensures var k := 1.0 - m as real / 255.0;
      (1.0 - x as real / 255.0 - k) / (1.0 - k) == (m - x) as real / m as real
  {
    var k := 1.0 - m as real / 255.0;
    assert 1.0 - x as real / 255.0 - k == (m - x) as real / 255.0;
    assert 1.0 - k == m as real / 255.0;
  }

  lemma FractionWithin(x: int, m: int)
    requires 0 <= x <= m && 0 < m
    ensures 0.0 <= (m - x) as real / m as real * 100.0 <= 100.0
  {
    assert (m - x) as real / m as real <= 1.0;
  }

  /** The ink of a channel `x` when the largest channel is `m`: round(100 (m - x) / m). */
  function Ink(x: int, m: int): int
    requires 0 < m
  {
    RoundHalfEven((m - x) as real / m as real * 100.0)
  }

  /** For a colour that is not black, the floating-point formula reduces to shortfalls from the largest channel. */
  lemma {:induction false} CmykFormula(c: Rgb)
    requires Max3(c.r, c.g, c.b) > 0
    ensures var m := Max3(c.r, c.g, c.b);
      RgbToCmyk(c) == Cmyk(Ink(c.r, m), Ink(c.g, m), Ink(c.b, m), RoundHalfEven((1.0 - m as real / 255.0) * 100.0))
  {
    var m := Max3(c.r, c.g, c.b);
    var x, y, z := c.r as real / 255.0, c.g as real / 255.0, c.b as real / 255.0;
    assert MaxReal(x, MaxReal(y, z)) == m as real / 255.0;
    InkIsShortfall(c.r, m);
    InkIsShortfall(c.g, m);
    InkIsShortfall(c.b, m);
  }

  lemma InkRange(x: int, m: int)
    requires 0 <= x <= m && 0 < m
    ensures 0 <= Ink(x, m) <= 100
    ensures x == m ==> Ink(x, m) == 0
  {
    FractionWithin(x, m);
    RoundWithin((m - x) as real / m as real * 100.0, 0, 100);
    RoundOfInteger(0);
  }

  /**
   * For channels in 0..255 that are not all zero: with m the largest channel, each ink
   * is round(100 (m - x) / m), the largest channel gets no ink, K is round(100 (1 - m/255)),
   * and all four values lie in 0..100.
   */
  lemma CmykOfNonBlack(c: Rgb)
    requires InByteRange(c) && Max3(c.r, c.g, c.b) > 0
    ensures var m := Max3(c.r, c.g, c.b); var r := RgbToCmyk(c);
      && r.c == Ink(c.r, m) && r.m == Ink(c.g, m) && r.y == Ink(c.b, m)
      && r.k == RoundHalfEven((1.0 - m as real / 255.0) * 100.0)
      && (c.r == m ==> r.c == 0) && (c.g == m ==> r.m == 0) && (c.b == m ==> r.y == 0)
      && 0 <= r.c <= 100 && 0 <= r.m <= 100 && 0 <= r.y <= 100 && 0 <= r.k <= 100
  {
    var m := Max3(c.r, c.g, c.b);
    CmykFormula(c);
    InkRange(c.r, m);
    InkRange(c.g, m);
    InkRange(c.b, m);
    RoundWithin((1.0 - m as real / 255.0) * 100.0, 0, 100);
  }
}
