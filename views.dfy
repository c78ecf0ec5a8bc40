/**
 * The palette endpoints of backend/generator/views.py: the preview response built shade
 * by shade, the input guards of the anonymous download, the content type of a single-file
 * download, and the state a stored palette is left in after its files are generated.
 * Files, zip archives, temporary directories and the database are not modelled: what
 * they contribute is an exception message passed in as a parameter.
 */
module Views {
  import opened Wrappers
  import opened Text
  import opened Numbers
  import opened Dict
  import opened Paths
  import opened ColorCodec
  import opened ShadeRamp
  import opened PaletteAssembly
  import opened PaletteText
  import opened BackendGenerator
  import opened Serializers
  import M = Models

  /** The body of a 400 response. */
  datatype ErrorBody =
    | Invalid(fields: seq<(string, string)>)   // the request serializer's field errors
    | Failure(error: string, errorType: string) // `{"error": ..., "type": ...}`
    | Refused(error: string)                    // `{"error": ...}`

  datatype Response<T> = Success(data: T) | BadRequest(body: ErrorBody)

  // ---------------------------------------------------------------- preview shades

  /** `max(lo, min(hi, x))`. */
  function Clamp(x: real, lo: real, hi: real): (r: real)
    requires lo <= hi
    ensures lo <= r <= hi
    ensures lo <= x <= hi ==> r == x
    ensures x < lo ==> r == lo
    ensures hi < x ==> r == hi
  {
    MaxReal(lo, MinReal(hi, x))
  }

  /** `max(0, min(255, n))`. */
  function ClampByte(n: int): (r: int)
    ensures 0 <= r <= 255
    ensures 0 <= n <= 255 ==> r == n
    ensures n < 0 ==> r == 0
    ensures 255 < n ==> r == 255
  {
    MaxInt(0, MinInt(255, n))
  }

  /** The hue clamped to [0, 360], saturation and brightness to [0, 100]. */
  function ClampHsb(c: Hsb): (r: Hsb)
    ensures 0.0 <= r.h <= 360.0 && 0.0 <= r.s <= 100.0 && 0.0 <= r.b <= 100.0
    ensures 0.0 <= c.h <= 360.0 && 0.0 <= c.s <= 100.0 && 0.0 <= c.b <= 100.0 ==> r == c
  {
    Hsb(Clamp(c.h, 0.0, 360.0), Clamp(c.s, 0.0, 100.0), Clamp(c.b, 0.0, 100.0))
  }

  /** `colorsys.hsv_to_rgb` of the clamped triple, each channel rounded half to even, then clamped. */
  function PreviewRgb(hsvToRgb: Colorsys, c: Hsb): (r: Rgb)
    ensures InByteRange(r)
  {
    var (x, y, z) := hsvToRgb(c.h / 360.0, c.s / 100.0, c.b / 100.0);
    Rgb(ClampByte(RoundHalfEven(x * 255.0)), ClampByte(RoundHalfEven(y * 255.0)), ClampByte(RoundHalfEven(z * 255.0)))
  }

  /**
   * The preview rounds where the generated files (`hsb_to_rgb`) truncate: for a fraction
   * in [0, 1] the preview channel is the file channel or one more.
   */
  lemma PreviewChannelNearFile(x: real)
    requires 0.0 <= x <= 1.0
    ensures var file, preview := Trunc(x * 255.0), ClampByte(RoundHalfEven(x * 255.0));
      preview == file || preview == file + 1
  {
    RoundWithin(x * 255.0, 0, 255);
  }

  /** A lower-case hex text is its own `.lower()`. */
  lemma LowerOfLowerHex(s: string)
    requires s != [] && s[0] == '#' && AllLowerHex(s[1..])
    ensures Lower(s) == s
  {
    forall i | 0 <= i < |s| ensures Lower(s)[i] == s[i] {
      if i > 0 {
        assert s[i] == s[1..][i - 1];
      }
    }
  }

  /** Every CMYK value of a byte triple lies in 0..100. */
  lemma CmykInRange(c: Rgb)
    requires InByteRange(c)
    ensures var k := RgbToCmyk(c);
      0 <= k.c <= 100 && 0 <= k.m <= 100 && 0 <= k.y <= 100 && 0 <= k.k <= 100
  {
    if Max3(c.r, c.g, c.b) > 0 {
      CmykOfNonBlack(c);
    }
  }

  /** One entry of `shade_data`: the clamped HSB, the rounded and clamped RGB, its hex in lower case and its CMYK. */
  function ShadeOf(hsvToRgb: Colorsys, hsb: Hsb): ShadeInfo {
    var c := ClampHsb(hsb);
    var rgb := PreviewRgb(hsvToRgb, c);
    var cmyk := RgbToCmyk(rgb);
    ShadeInfo([rgb.r, rgb.g, rgb.b], Lower(FormatHex(rgb)), [c.h, c.s, c.b], [cmyk.c, cmyk.m, cmyk.y, cmyk.k])
  }

  /** `ShadeOf` as a function value, so that every mention of it is the same value. */
  function ShadeFn(hsvToRgb: Colorsys): Hsb -> ShadeInfo {
    hsb => ShadeOf(hsvToRgb, hsb)
  }

  /** The shades of a ramp with distinct keys, each mapped by `ShadeOf`, in ramp order. */
  function ShadesOf(hsvToRgb: Colorsys, ramp: Ramp): seq<(string, ShadeInfo)> {
    MapValues(ramp, ShadeFn(hsvToRgb))
  }

  /**
   * Every shade of the preview meets `ColorShadeSerializer`'s constraints and reports the
   * clamped HSB.
   */
  lemma ShadeOfMeetsSchema(hsvToRgb: Colorsys, hsb: Hsb)
    ensures ValidShade(ShadeOf(hsvToRgb, hsb))
    ensures var c := ClampHsb(hsb); ShadeOf(hsvToRgb, hsb).hsb == [c.h, c.s, c.b]
  {
    CmykInRange(PreviewRgb(hsvToRgb, ClampHsb(hsb)));
  }

  /**
   * The hex of a preview shade is `#` and six lower-case digits that parse back to the
   * shade's RGB, and its CMYK is that of its RGB.
   */
  lemma ShadeOfHex(hsvToRgb: Colorsys, hsb: Hsb)
    ensures var r := ShadeOf(hsvToRgb, hsb);
      && |r.rgb| == 3 && |r.cmyk| == 4
      && |r.hex| == 7 && r.hex[0] == '#' && AllLowerHex(r.hex[1..])
      && HexToRgb(r.hex) == Ok(Rgb(r.rgb[0], r.rgb[1], r.rgb[2]))
      && (var k := RgbToCmyk(Rgb(r.rgb[0], r.rgb[1], r.rgb[2])); r.cmyk == [k.c, k.m, k.y, k.k])
  {
    var rgb := PreviewRgb(hsvToRgb, ClampHsb(hsb));
    FormatParseRoundTrip(rgb);
    LowerOfLowerHex(FormatHex(rgb));
  }

  /** The dict `shade_data[shade] = ...` builds over a ramp. */
  function ShadeData(hsvToRgb: Colorsys, ramp: Ramp): (r: seq<(string, ShadeInfo)>)
    ensures r == [] <==> ramp == []
  {
    PutAll(ramp, ShadeFn(hsvToRgb))
  }

  /** Over a ramp with distinct keys, the shade data keeps the ramp's keys and order. */
  lemma ShadeDataOfDistinct(hsvToRgb: Colorsys, ramp: Ramp)
    requires DistinctKeys(ramp)
    ensures ShadeData(hsvToRgb, ramp) == ShadesOf(hsvToRgb, ramp)
  {
    PutAllDistinct(ramp, ShadeFn(hsvToRgb));
  }

  /** The inner loop of `post`: one entry per shade of a ramp. */
  method BuildShadeData(hsvToRgb: Colorsys, ramp: Ramp) returns (shadeData: seq<(string, ShadeInfo)>)
    ensures shadeData == ShadeData(hsvToRgb, ramp)
  {
    shadeData := [];
    var j := 0;
    while j < |ramp|
      invariant 0 <= j <= |ramp|
      invariant shadeData == ShadeData(hsvToRgb, ramp[..j])
    {
      var (shade, hsb) := ramp[j];
      shadeData := Put(shadeData, shade, ShadeOf(hsvToRgb, hsb));
      PutAllStep(ramp, ShadeFn(hsvToRgb), j);
      j := j + 1;
    }
    assert ramp[..j] == ramp;
  }

  // ---------------------------------------------------------------- preview response

  /** The colours of a palette that have shades, in palette order. */
  function WithShades(palette: Palette): (r: Palette)
    ensures |r| <= |palette|
    ensures forall c :: 0 <= c < |r| ==> r[c].1 != []
  {
    if palette == [] then []
    else
      var last := palette[|palette| - 1];
      WithShades(palette[..|palette| - 1]) + (if last.1 == [] then [] else [last])
  }

  /** The colours that have shades, each with its name and shade data, in palette order. */
  function ColorEntries(hsvToRgb: Colorsys, palette: Palette): (r: seq<(string, ColorEntry)>)
    ensures var q := WithShades(palette);
      |r| == |q| && forall c :: 0 <= c < |q| ==> r[c] == (q[c].0, ColorEntry(q[c].0, ShadeData(hsvToRgb, q[c].1)))
  {
    var q := WithShades(palette);
    seq(|q|, c requires 0 <= c < |q| => (q[c].0, ColorEntry(q[c].0, ShadeData(hsvToRgb, q[c].1))))
  }

  /** The entry of one colour, or none for a colour without shades. */
  function EntryOf(hsvToRgb: Colorsys, name: string, ramp: Ramp): seq<(string, ColorEntry)> {
    if ramp == [] then [] else [(name, ColorEntry(name, ShadeData(hsvToRgb, ramp)))]
  }

  /** Adding a colour adds its entry when it has shades, and nothing otherwise. */
  lemma ColorEntriesSnoc(hsvToRgb: Colorsys, palette: Palette, name: string, ramp: Ramp)
    ensures ColorEntries(hsvToRgb, palette + [(name, ramp)]) == ColorEntries(hsvToRgb, palette) + EntryOf(hsvToRgb, name, ramp)
  {
    var p := palette + [(name, ramp)];
    assert p[..|p| - 1] == palette;
    assert WithShades(p) == WithShades(palette) + (if ramp == [] then [] else [(name, ramp)]);
  }

  /** Colour `i` of the palette adds its entry, if any, to those of the colours before it. */
  lemma ColorEntriesStep(hsvToRgb: Colorsys, palette: Palette, i: nat)
    requires i < |palette|
    ensures ColorEntries(hsvToRgb, palette[..i + 1]) == ColorEntries(hsvToRgb, palette[..i]) + EntryOf(hsvToRgb, palette[i].0, palette[i].1)
  {
    assert palette[..i + 1] == palette[..i] + [(palette[i].0, palette[i].1)];
    ColorEntriesSnoc(hsvToRgb, palette[..i], palette[i].0, palette[i].1);
  }

  /** `response_data`: each colour with shades under its lowercased name. */
  function ResponseData(hsvToRgb: Colorsys, palette: Palette): seq<(string, ColorEntry)> {
    LowerKeyed(ColorEntries(hsvToRgb, palette))
  }

  lemma LowerKeyedSnoc<V>(d: seq<(string, V)>, x: (string, V))
    ensures LowerKeyed(d + [x]) == Put(LowerKeyed(d), Lower(x.0), x.1)
  {
    assert (d + [x])[..|d|] == d;
  }

  /** The outer loop of `post`: a colour is added under its lowercased name only when it has shades. */
  method BuildResponseData(hsvToRgb: Colorsys, palette: Palette) returns (responseData: seq<(string, ColorEntry)>)
    ensures responseData == ResponseData(hsvToRgb, palette)
  {
    responseData := [];
    ghost var entries: seq<(string, ColorEntry)> := [];
    var i := 0;
    while i < |palette|
      invariant 0 <= i <= |palette|
      invariant entries == ColorEntries(hsvToRgb, palette[..i])
      invariant responseData == LowerKeyed(entries)
    {
      var colorName := palette[i].0;
      var shadeData := BuildShadeData(hsvToRgb, palette[i].1);
      ColorEntriesStep(hsvToRgb, palette, i);
      if shadeData != [] {
        LowerKeyedSnoc(entries, (colorName, ColorEntry(colorName, shadeData)));
        responseData := Put(responseData, Lower(colorName), ColorEntry(colorName, shadeData));
        entries := entries + [(colorName, ColorEntry(colorName, shadeData))];
      }
      i := i + 1;
    }
    assert palette[..i] == palette;
  }

  /**
   * When every colour has shades and no two names lowercase alike, the response has one
   * entry per colour, in palette order, under the lowercased name, keeping the original
   * name and the ramp's shades in the ramp's order.
   */
  lemma ResponseOfFullPalette(hsvToRgb: Colorsys, palette: Palette)
    requires forall c :: 0 <= c < |palette| ==> palette[c].1 != [] && DistinctKeys(palette[c].1)
    requires forall i, j :: 0 <= i < j < |palette| ==> Lower(palette[i].0) != Lower(palette[j].0)
    ensures var r := ResponseData(hsvToRgb, palette);
      && |r| == |palette|
      && forall c :: 0 <= c < |palette| ==>
           r[c] == (Lower(palette[c].0), ColorEntry(palette[c].0, ShadesOf(hsvToRgb, palette[c].1)))
  {
    var entries := ColorEntries(hsvToRgb, palette);
    AllWithShades(palette);
    LowerKeyedDistinct(entries);
    forall c | 0 <= c < |palette|
      ensures entries[c].1 == ColorEntry(palette[c].0, ShadesOf(hsvToRgb, palette[c].1))
    {
      ShadeDataOfDistinct(hsvToRgb, palette[c].1);
    }
  }

  lemma {:induction false} AllWithShades(palette: Palette)
    requires forall c :: 0 <= c < |palette| ==> palette[c].1 != []
    ensures WithShades(palette) == palette
  {
    if palette != [] {
      AllWithShades(palette[..|palette| - 1]);
    }
  }

  /** A colour without shades is left out of the response. */
  lemma EmptyColourOmitted(hsvToRgb: Colorsys, palette: Palette, name: string)
    ensures ResponseData(hsvToRgb, palette + [(name, [])]) == ResponseData(hsvToRgb, palette)
  {
    var a, b := ColorEntries(hsvToRgb, palette + [(name, [])]), ColorEntries(hsvToRgb, palette);
    ColorEntriesSnoc(hsvToRgb, palette, name, []);
    assert EntryOf(hsvToRgb, name, []) == [];
    assert a == b + [] == b;
  }

  /**
   * The preview of a palette whose colour names, and whose ramps' keys, are given lists that
   * stay distinct (lowercased, for the names): one entry per colour in order, each ramp's
   * shades keyed as given.
   */
  lemma ResponseOfNamed(hsvToRgb: Colorsys, palette: Palette, names: seq<string>, keys: seq<string>)
    requires Keys(palette) == names && LowerDistinct(names)
    requires keys != [] && Distinct(keys)
    requires forall c :: 0 <= c < |palette| ==> Keys(palette[c].1) == keys
    ensures var r := ResponseData(hsvToRgb, palette);
      && |r| == |palette|
      && forall c :: 0 <= c < |palette| ==>
           && r[c] == (Lower(palette[c].0), ColorEntry(palette[c].0, ShadesOf(hsvToRgb, palette[c].1)))
           && Keys(r[c].1.shades) == keys
  {
    ShadesKeys(hsvToRgb, palette, keys);
    RampsFull(palette, keys);
    NamesLowerDistinct(palette, names);
    ResponseOfFullPalette(hsvToRgb, palette);
  }

  /** Mapping the shades keeps each ramp's keys. */
  lemma ShadesKeys(hsvToRgb: Colorsys, palette: Palette, keys: seq<string>)
    requires forall c :: 0 <= c < |palette| ==> Keys(palette[c].1) == keys
    ensures forall c :: 0 <= c < |palette| ==> Keys(ShadesOf(hsvToRgb, palette[c].1)) == keys
  {
    forall c | 0 <= c < |palette| ensures Keys(ShadesOf(hsvToRgb, palette[c].1)) == keys {
      MapValuesKeys(palette[c].1, ShadeFn(hsvToRgb));
    }
  }

  /** Ramps keyed by a non-empty list of distinct keys are not empty and have each key once. */
  lemma RampsFull(palette: Palette, keys: seq<string>)
    requires keys != [] && Distinct(keys)
    requires forall c :: 0 <= c < |palette| ==> Keys(palette[c].1) == keys
    ensures forall c :: 0 <= c < |palette| ==> palette[c].1 != [] && DistinctKeys(palette[c].1)
  {
    forall c | 0 <= c < |palette| ensures palette[c].1 != [] && DistinctKeys(palette[c].1) {
      assert |palette[c].1| == |keys|;
      forall i, j | 0 <= i < j < |palette[c].1| ensures palette[c].1[i].0 != palette[c].1[j].0 {
        assert Keys(palette[c].1)[i] == palette[c].1[i].0;
        assert Keys(palette[c].1)[j] == palette[c].1[j].0;
      }
    }
  }

  /** A palette whose names do not lowercase alike has no two colours that do. */
  lemma NamesLowerDistinct(palette: Palette, names: seq<string>)
    requires Keys(palette) == names && LowerDistinct(names)
    ensures forall i, j :: 0 <= i < j < |palette| ==> Lower(palette[i].0) != Lower(palette[j].0)
  {
    forall i, j | 0 <= i < j < |palette| ensures Lower(palette[i].0) != Lower(palette[j].0) {
      assert Keys(palette)[i] == palette[i].0;
      assert Keys(palette)[j] == palette[j].0;
    }
  }

  /** No two of `names` are equal once lowercased. */
  predicate LowerDistinct(names: seq<string>) {
    forall i, j :: 0 <= i < j < |names| ==> Lower(names[i]) != Lower(names[j])
  }

  /** The shade keys "100" to "900" are distinct. */
  lemma ShadeKeysDistinct()
    ensures Distinct(ShadeKeys)
  {
    var firsts := ['1', '2', '3', '4', '5', '6', '7', '8', '9'];
    assert forall i :: 0 <= i < |ShadeKeys| ==> ShadeKeys[i][0] == firsts[i];
    forall i, j | 0 <= i < j < |ShadeKeys| ensures ShadeKeys[i] != ShadeKeys[j] {
      assert ShadeKeys[i][0] == firsts[i] && ShadeKeys[j][0] == firsts[j];
    }
  }

  /** No two colour names of a palette lowercase alike. */
  lemma PaletteNamesLowerDistinct(hasSecondary: bool, hasTertiary: bool)
    ensures LowerDistinct(PaletteNames(hasSecondary, hasTertiary))
  {
    var names, initials := PaletteNames(hasSecondary, hasTertiary), Initials(hasSecondary, hasTertiary);
    InitialsDistinct(hasSecondary, hasTertiary);
    if hasSecondary && hasTertiary {
      assert names == ["Primary", "Secondary", "Tertiary", "Neutral", "Green", "Orange", "Red", "Blue"];
    } else if hasSecondary {
      assert names == ["Primary", "Secondary", "Neutral", "Green", "Orange", "Red", "Blue"];
    } else if hasTertiary {
      assert names == ["Primary", "Tertiary", "Neutral", "Green", "Orange", "Red", "Blue"];
    } else {
      assert names == ["Primary", "Neutral", "Green", "Orange", "Red", "Blue"];
    }
    assert |names| == |initials|;
    assert forall i :: 0 <= i < |names| ==> |names[i]| > 0 && names[i][0] == initials[i];
    LowerDistinctByInitial(names, initials);
  }

  /** The first letters of the colour names, in palette order. */
  function Initials(hasSecondary: bool, hasTertiary: bool): seq<char> {
    ['P'] + (if hasSecondary then ['S'] else []) + (if hasTertiary then ['T'] else []) + ['N', 'G', 'O', 'R', 'B']
  }

  /** The initials are distinct capitals. */
  lemma InitialsDistinct(hasSecondary: bool, hasTertiary: bool)
    ensures var initials := Initials(hasSecondary, hasTertiary);
      && (forall i :: 0 <= i < |initials| ==> IsUpperLetter(initials[i]))
      && (forall i, j :: 0 <= i < j < |initials| ==> initials[i] != initials[j])
  {
    if hasSecondary && hasTertiary {
      assert Initials(hasSecondary, hasTertiary) == ['P', 'S', 'T', 'N', 'G', 'O', 'R', 'B'];
    } else if hasSecondary {
      assert Initials(hasSecondary, hasTertiary) == ['P', 'S', 'N', 'G', 'O', 'R', 'B'];
    } else if hasTertiary {
      assert Initials(hasSecondary, hasTertiary) == ['P', 'T', 'N', 'G', 'O', 'R', 'B'];
    } else {
      assert Initials(hasSecondary, hasTertiary) == ['P', 'N', 'G', 'O', 'R', 'B'];
    }
  }

  /** Names whose first letters are distinct capitals stay distinct when lowercased. */
  lemma LowerDistinctByInitial(names: seq<string>, initials: seq<char>)
    requires |names| == |initials|
    requires forall i :: 0 <= i < |names| ==> |names[i]| > 0 && names[i][0] == initials[i] && IsUpperLetter(initials[i])
    requires forall i, j :: 0 <= i < j < |initials| ==> initials[i] != initials[j]
    ensures forall i, j :: 0 <= i < j < |names| ==> Lower(names[i]) != Lower(names[j])
  {
    forall i, j | 0 <= i < j < |names| ensures Lower(names[i]) != Lower(names[j]) {
      assert Lower(names[i])[0] == LowerChar(initials[i]);
      assert Lower(names[j])[0] == LowerChar(initials[j]);
    }
  }

  // ---------------------------------------------------------------- PalettePreviewView.post

  /** The tertiary colour handed to the generator: the request's only when `include_tertiary` is set. */
  function TertiaryArgument(data: PreviewRequest): (r: Option<string>)
    ensures !data.includeTertiary ==> r.None?
    ensures data.includeTertiary ==> r == data.tertiary
  {
    if data.includeTertiary then data.tertiary else None
  }

  /**
   * `PalettePreviewView.post` as a value: field errors of the request, else a generation
   * error as a 400 with its message and type, else the response data (the response
   * serializer's `to_internal_value` is the identity, so the data is returned as built).
   */
  function PreviewOf(hsvToRgb: Colorsys, rgbToHsv: Colorsys, req: PreviewRequest): (r: Response<seq<(string, ColorEntry)>>)
    ensures ValidateRequest(req).Err? ==> r == BadRequest(Invalid(ValidateRequest(req).error))
    ensures ValidateRequest(req).Ok? ==>
      var data := ValidateRequest(req).value;
      (r.Success? <==> PaletteOf(rgbToHsv, data.primary, data.secondary, TertiaryArgument(data)).Ok?)
    ensures r.BadRequest? && r.body.Failure? ==>
      var data := ValidateRequest(req).value;
      var e := PaletteOf(rgbToHsv, data.primary, data.secondary, TertiaryArgument(data)).error;
      r.body == Failure("Error generating palette: " + ErrorText(e), ErrorType(e))
  {
    match ValidateRequest(req)
    case Err(errors) => BadRequest(Invalid(errors))
    case Ok(data) =>
      match PaletteOf(rgbToHsv, data.primary, data.secondary, TertiaryArgument(data))
      case Err(e) => BadRequest(Failure("Error generating palette: " + ErrorText(e), ErrorType(e)))
      case Ok(palette) => Success(ResponseData(hsvToRgb, palette))
  }

  /** `PalettePreviewView.post`. */
  method Preview(hsvToRgb: Colorsys, rgbToHsv: Colorsys, req: PreviewRequest)
    returns (r: Response<seq<(string, ColorEntry)>>)
    ensures r == PreviewOf(hsvToRgb, rgbToHsv, req)
  {
    var validated := ValidateRequest(req);
    if validated.Err? {
      return BadRequest(Invalid(validated.error));
    }
    var data := validated.value;
    var tertiary := if data.includeTertiary then data.tertiary else None;
    var palette := GeneratePalette(rgbToHsv, data.primary, data.secondary, tertiary);
    if palette.Err? {
      return BadRequest(Failure("Error generating palette: " + ErrorText(palette.error), ErrorType(palette.error)));
    }
    var responseData := BuildResponseData(hsvToRgb, palette.value);
    return Success(responseData);
  }

  /**
   * A successful preview lists the palette's colours under their lowercased names, in the
   * generator's order, each with all nine shades in ramp order.
   */
  lemma PreviewSucceeds(hsvToRgb: Colorsys, rgbToHsv: Colorsys, req: PreviewRequest)
    requires PreviewOf(hsvToRgb, rgbToHsv, req).Success?
    ensures var data := ValidateRequest(req).value;
      var palette := PaletteOf(rgbToHsv, data.primary, data.secondary, TertiaryArgument(data)).value;
      var r := PreviewOf(hsvToRgb, rgbToHsv, req).data;
      && Keys(palette) == PaletteNames(Truthy(data.secondary), Truthy(TertiaryArgument(data)))
      && |r| == |palette|
      && forall c :: 0 <= c < |palette| ==>
           && r[c] == (Lower(palette[c].0), ColorEntry(palette[c].0, ShadesOf(hsvToRgb, palette[c].1)))
           && Keys(r[c].1.shades) == ShadeKeys
  {
    var data := ValidateRequest(req).value;
    PreviewData(hsvToRgb, rgbToHsv, req);
    ResponseOfPalette(hsvToRgb, rgbToHsv, data.primary, data.secondary, TertiaryArgument(data));
  }

  /** The response data of a generated palette: every colour in order, with all its shades. */
  lemma ResponseOfPalette(hsvToRgb: Colorsys, rgbToHsv: Colorsys, primary: string,
                          secondary: Option<string>, tertiary: Option<string>)
    requires PaletteOf(rgbToHsv, primary, secondary, tertiary).Ok?
    ensures var palette := PaletteOf(rgbToHsv, primary, secondary, tertiary).value;
      var r := ResponseData(hsvToRgb, palette);
      && Keys(palette) == PaletteNames(Truthy(secondary), Truthy(tertiary))
      && |r| == |palette|
      && forall c :: 0 <= c < |palette| ==>
           && r[c] == (Lower(palette[c].0), ColorEntry(palette[c].0, ShadesOf(hsvToRgb, palette[c].1)))
           && Keys(r[c].1.shades) == ShadeKeys
  {
    PaletteKeys(rgbToHsv, primary, secondary, tertiary);
    PaletteNamesLowerDistinct(Truthy(secondary), Truthy(tertiary));
    ShadeKeysDistinct();
    ResponseOfNamed(hsvToRgb, PaletteOf(rgbToHsv, primary, secondary, tertiary).value,
                    PaletteNames(Truthy(secondary), Truthy(tertiary)), ShadeKeys);
  }

  /** A successful preview answers with the response data of the generated palette. */
  lemma PreviewData(hsvToRgb: Colorsys, rgbToHsv: Colorsys, req: PreviewRequest)
    requires PreviewOf(hsvToRgb, rgbToHsv, req).Success?
    ensures var data := ValidateRequest(req).value;
      && PaletteOf(rgbToHsv, data.primary, data.secondary, TertiaryArgument(data)).Ok?
      && PreviewOf(hsvToRgb, rgbToHsv, req).data
         == ResponseData(hsvToRgb, PaletteOf(rgbToHsv, data.primary, data.secondary, TertiaryArgument(data)).value)
  {
  }

  /**
   * A shorthand `#RGB` primary passes validation but not generation: the preview answers
   * 400 with a `ValueError`; with three hex digits the message is that of `int('', 16)`.
   */
  lemma ShorthandPrimaryFails(hsvToRgb: Colorsys, rgbToHsv: Colorsys, req: PreviewRequest)
    requires ValidateRequest(req).Ok? && |ValidateRequest(req).value.primary| == 4
    ensures PreviewOf(hsvToRgb, rgbToHsv, req).BadRequest?
    ensures PreviewOf(hsvToRgb, rgbToHsv, req).body.Failure?
    ensures PreviewOf(hsvToRgb, rgbToHsv, req).body.errorType == "ValueError"
    ensures |req.primary| == 3 && AllHex(req.primary) ==>
      PreviewOf(hsvToRgb, rgbToHsv, req).body.error == "Error generating palette: " + InvalidLiteral("")
  {
    var primary := ValidateRequest(req).value.primary;
    assert |StripChar(primary, '#')| <= 4;
    if |req.primary| == 3 && AllHex(req.primary) {
      ShortHexPasses(req.primary);
    }
  }

  /**
   * Without `include_tertiary` the tertiary colour never reaches the generator: the
   * preview is the one for the same request without a tertiary. It is still validated,
   * so a malformed one is refused all the same.
   */
  lemma TertiaryOnlyWhenIncluded(hsvToRgb: Colorsys, rgbToHsv: Colorsys, req: PreviewRequest)
    requires !req.includeTertiary
    ensures ValidateField(req.tertiary).Ok? ==>
      PreviewOf(hsvToRgb, rgbToHsv, req) == PreviewOf(hsvToRgb, rgbToHsv, req.(tertiary := None))
    ensures ValidateField(req.tertiary).Err? ==>
      PreviewOf(hsvToRgb, rgbToHsv, req).BadRequest? && PreviewOf(hsvToRgb, rgbToHsv, req).body.Invalid?
  {
  }

  /**
   * `#-f0000` has the seven characters the request serializer asks for, so it is accepted,
   * but converting it divides by zero: the preview answers 400 with the `ZeroDivisionError`.
   */
  lemma NegativePrimaryFails(hsvToRgb: Colorsys, rgbToHsv: Colorsys, req: PreviewRequest)
    requires req.primary == "#-f0000" && ValidateRequest(req).Ok?
    ensures PreviewOf(hsvToRgb, rgbToHsv, req)
      == BadRequest(Failure("Error generating palette: " + DivisionByZero, "ZeroDivisionError"))
  {
    NegativeChannelRaises(rgbToHsv);
    DividingPrimaryFails(hsvToRgb, rgbToHsv, req);
  }

  /**
   * A seven-character primary that parses but divides by zero in `rgb_to_hsv` is answered
   * with the `ZeroDivisionError`, whatever the other colours.
   */
  lemma DividingPrimaryFails(hsvToRgb: Colorsys, rgbToHsv: Colorsys, req: PreviewRequest)
    requires |req.primary| == 7 && req.primary[0] == '#' && ValidateRequest(req).Ok?
    requires HexToRgb(req.primary).Ok? && HsvDividesByZero(HexToRgb(req.primary).value)
    ensures PreviewOf(hsvToRgb, rgbToHsv, req)
      == BadRequest(Failure("Error generating palette: " + DivisionByZero, "ZeroDivisionError"))
  {
    var data := ValidateRequest(req).value;
    ValidatedSeven(req);
    DividingPrimaryPalette(rgbToHsv, data.primary, data.secondary, TertiaryArgument(data));
    PreviewFailure(hsvToRgb, rgbToHsv, req, ZeroDivisionError);
  }

  lemma DividingPrimaryPalette(rgbToHsv: Colorsys, primary: string, secondary: Option<string>, tertiary: Option<string>)
    requires HexToRgb(primary).Ok? && HsvDividesByZero(HexToRgb(primary).value)
    ensures PaletteOf(rgbToHsv, primary, secondary, tertiary) == Err(ZeroDivisionError)
  {
  }

  /** A generation error is answered with its message and type. */
  lemma PreviewFailure(hsvToRgb: Colorsys, rgbToHsv: Colorsys, req: PreviewRequest, e: ConversionError)
    requires ValidateRequest(req).Ok?
    requires var data := ValidateRequest(req).value;
      PaletteOf(rgbToHsv, data.primary, data.secondary, TertiaryArgument(data)) == Err(e)
    ensures PreviewOf(hsvToRgb, rgbToHsv, req)
      == BadRequest(Failure("Error generating palette: " + ErrorText(e), ErrorType(e)))
  {
  }

  /** A seven-character primary starting with `#` passes validation unchanged. */
  lemma ValidatedSeven(req: PreviewRequest)
    requires |req.primary| == 7 && req.primary[0] == '#' && ValidateRequest(req).Ok?
    ensures ValidateRequest(req).value.primary == req.primary
  {
  }

  // ---------------------------------------------------------------- AnonymousPaletteDownloadView.post

  /** What the anonymous download generates and how the zip is named. */
  datatype Download = Download(zipName: string, paletteName: string, primary: string,
                               secondary: string, tertiary: Option<string>)

  const NameRequired := "Palette name is required"
  const ColoursRequired := "Primary and secondary colors are required"

  /** The zip's file name: the slug of the name, or "palette" when the slug is empty. */
  function ZipName(slug: string): (r: string)
    ensures EndsWith(r, "-palette-files.zip")
    ensures slug != "" ==> StartsWith(r, slug)
    ensures slug == "" ==> r == "palette-palette-files.zip"
  {
    var r := (if slug == "" then "palette" else slug) + "-palette-files.zip";
    assert r[|r| - |"-palette-files.zip"|..] == "-palette-files.zip";
    assert slug != "" ==> r[..|slug|] == slug;
    r
  }

  /** `not palette_name or not palette_name.strip()`. */
  predicate BlankName(name: string) {
    name == "" || Trim(name) == ""
  }

  /**
   * `AnonymousPaletteDownloadView.post` as a value. `name` is the request's `name` field
   * (`None` when it is not sent), `slugify` Django's slug function, and `fileError` the
   * message and type of an exception raised while the files are written or zipped.
   */
  function AnonymousDownloadOf(rgbToHsv: Colorsys, slugify: string -> string, req: PreviewRequest,
                               name: Option<string>, fileError: Option<(string, string)>): (r: Response<Download>)
    ensures ValidateRequest(req).Err? ==> r == BadRequest(Invalid(ValidateRequest(req).error))
    ensures r.Success? ==>
      && r.data.paletteName == name.GetOr("palette") && !BlankName(r.data.paletteName)
      && r.data.zipName == ZipName(slugify(r.data.paletteName))
      && r.data.primary == ValidateRequest(req).value.primary
      && Some(r.data.secondary) == ValidateRequest(req).value.secondary
    ensures r.BadRequest? && r.body.Failure? && fileError.None? ==>
      r.body.errorType == "ValueError" || r.body.errorType == "ZeroDivisionError"
  {
    match ValidateRequest(req)
    case Err(errors) => BadRequest(Invalid(errors))
    case Ok(data) =>
      var paletteName := name.GetOr("palette");
      if BlankName(paletteName) then BadRequest(Refused(NameRequired))
      else if data.primary == "" || !Truthy(data.secondary) then BadRequest(Refused(ColoursRequired))
      else
        match PaletteOf(rgbToHsv, data.primary, data.secondary, TertiaryArgument(data))
        case Err(e) => BadRequest(Failure("Error generating palette files: " + ErrorText(e), ErrorType(e)))
        case Ok(_) =>
          if fileError.Some? then BadRequest(Failure("Error generating palette files: " + fileError.value.0, fileError.value.1))
          else Success(Download(ZipName(slugify(paletteName)), paletteName, data.primary,
                                data.secondary.value, TertiaryArgument(data)))
  }

  /**
   * A primary that parses but divides by zero in `rgb_to_hsv` (`#-f0000`) passes the
   * guards and is answered with the `ZeroDivisionError`, before any file is written.
   */
  lemma DividingPrimaryDownloadFails(rgbToHsv: Colorsys, slugify: string -> string, req: PreviewRequest,
                                     name: Option<string>, fileError: Option<(string, string)>)
    requires |req.primary| == 7 && req.primary[0] == '#' && ValidateRequest(req).Ok?
    requires HexToRgb(req.primary).Ok? && HsvDividesByZero(HexToRgb(req.primary).value)
    requires !BlankName(name.GetOr("palette")) && Truthy(req.secondary)
    ensures AnonymousDownloadOf(rgbToHsv, slugify, req, name, fileError)
      == BadRequest(Failure("Error generating palette files: " + DivisionByZero, "ZeroDivisionError"))
  {
    var data := ValidateRequest(req).value;
    ValidatedSeven(req);
    AnonymousGuards(rgbToHsv, rgbToHsv, slugify, req, name, fileError);
    DividingPrimaryPalette(rgbToHsv, data.primary, data.secondary, TertiaryArgument(data));
  }

  /**
   * The guards come before any generation, in order: the field errors, then a blank name,
   * then a missing secondary colour (a validated primary is never empty). A refusal does
   * not depend on the colour conversion or on the file system.
   */
  lemma AnonymousGuards(rgbToHsv: Colorsys, other: Colorsys, slugify: string -> string, req: PreviewRequest,
                        name: Option<string>, fileError: Option<(string, string)>)
    requires ValidateRequest(req).Ok?
    ensures var r := AnonymousDownloadOf(rgbToHsv, slugify, req, name, fileError);
      && (BlankName(name.GetOr("palette")) <==> r == BadRequest(Refused(NameRequired)))
      && (!BlankName(name.GetOr("palette")) && !Truthy(req.secondary) <==> r == BadRequest(Refused(ColoursRequired)))
      && (r.BadRequest? && r.body.Refused? ==> r == AnonymousDownloadOf(other, slugify, req, name, None))
  {
    ValidatedPrimary(req);
    var data := ValidateRequest(req).value;
    assert Truthy(data.secondary) <==> Truthy(req.secondary) by {
      if req.secondary.Some? && req.secondary.value != "" {
        assert data.secondary == Some(ValidateHex(req.secondary.value).value);
        ValidatedNonEmpty(req.secondary.value);
      }
    }
  }

  /** A validated colour is never empty. */
  lemma ValidatedNonEmpty(value: string)
    requires ValidateHex(value).Ok?
    ensures ValidateHex(value).value != ""
  {
  }

  /** A name not sent defaults to "palette", which is not blank. */
  lemma DefaultNameAccepted(rgbToHsv: Colorsys, slugify: string -> string, req: PreviewRequest,
                            fileError: Option<(string, string)>)
    requires ValidateRequest(req).Ok?
    ensures AnonymousDownloadOf(rgbToHsv, slugify, req, None, fileError) != BadRequest(Refused(NameRequired))
  {
    assert "palette"[0] == 'p';
    assert Trim("palette") != "" by {
      TrimEmpty("palette");
    }
  }

  /**
   * A download succeeds exactly when the request is valid, the name is not blank, a
   * secondary colour is given, the palette can be generated and the files can be written;
   * the zip is then named after the slug of the name and the tertiary colour is passed on
   * only with `include_tertiary`.
   */
  lemma AnonymousSucceeds(rgbToHsv: Colorsys, slugify: string -> string, req: PreviewRequest,
                          name: Option<string>, fileError: Option<(string, string)>)
    ensures var r := AnonymousDownloadOf(rgbToHsv, slugify, req, name, fileError);
      r.Success? <==>
        && ValidateRequest(req).Ok? && !BlankName(name.GetOr("palette")) && Truthy(req.secondary)
        && Generable(ValidateRequest(req).value.primary, ValidateRequest(req).value.secondary,
                     TertiaryArgument(ValidateRequest(req).value))
        && fileError.None?
    ensures var r := AnonymousDownloadOf(rgbToHsv, slugify, req, name, fileError);
      r.Success? ==>
        && EndsWith(r.data.zipName, "-palette-files.zip")
        && r.data.zipName == ZipName(slugify(name.GetOr("palette")))
        && (req.includeTertiary || r.data.tertiary.None?)
  {
    if ValidateRequest(req).Ok? {
      AnonymousGuards(rgbToHsv, rgbToHsv, slugify, req, name, fileError);
    }
  }

  // ---------------------------------------------------------------- PaletteFileViewSet.download

  const PngType := "image/png"
  const XlsxType := "application/vnd.openxmlformats-officedocument.spreadsheetml.sheet"
  const CssType := "text/css"
  const TsType := "application/typescript"
  const DartType := "application/dart"

  /** The content type set from the file's extension; `None` keeps the response's default. */
  function ContentType(filePath: string): (r: Option<string>)
    ensures EndsWith(filePath, ".png") <==> r == Some(PngType)
    ensures EndsWith(filePath, ".xlsx") <==> r == Some(XlsxType)
    ensures EndsWith(filePath, ".css") <==> r == Some(CssType)
    ensures EndsWith(filePath, ".ts") <==> r == Some(TsType)
    ensures EndsWith(filePath, ".dart") <==> r == Some(DartType)
    ensures r.None? <==> !EndsWith(filePath, ".png") && !EndsWith(filePath, ".xlsx") && !EndsWith(filePath, ".css")
                         && !EndsWith(filePath, ".ts") && !EndsWith(filePath, ".dart")
  {
    LastTwo(filePath, ".png");
    LastTwo(filePath, ".xlsx");
    LastTwo(filePath, ".css");
    LastTwo(filePath, ".ts");
    LastTwo(filePath, ".dart");
    if EndsWith(filePath, ".png") then Some(PngType)
    else if EndsWith(filePath, ".xlsx") then Some(XlsxType)
    else if EndsWith(filePath, ".css") then Some(CssType)
    else if EndsWith(filePath, ".ts") then Some(TsType)
    else if EndsWith(filePath, ".dart") then Some(DartType)
    else None
  }

  /** A string ends with the last two characters of each of its suffixes. */
  lemma LastTwo(s: string, suffix: string)
    requires |suffix| >= 2
    ensures EndsWith(s, suffix) ==> s[|s| - 1] == suffix[|suffix| - 1] && s[|s| - 2] == suffix[|suffix| - 2]
  {
    if EndsWith(s, suffix) {
      assert s[|s| - |suffix|..][|suffix| - 1] == s[|s| - 1];
      assert s[|s| - |suffix|..][|suffix| - 2] == s[|s| - 2];
    }
  }

  /**
   * A stored palette file, saved under a directory with the palette's file name, is served
   * with the content type of its file type's extension.
   */
  lemma ContentTypeOfPaletteFile(dir: string, paletteName: string, ext: string)
    ensures var path := PathJoin(dir, M.PaletteFileName(paletteName, Some(ext)));
      && (ext == "png" ==> ContentType(path) == Some(PngType))
      && (ext == "xlsx" ==> ContentType(path) == Some(XlsxType))
      && (ext == "css" ==> ContentType(path) == Some(CssType))
      && (ext == "ts" ==> ContentType(path) == Some(TsType))
      && (ext == "dart" ==> ContentType(path) == Some(DartType))
  {
    var fileName := M.PaletteFileName(paletteName, Some(ext));
    EndsWithTrans(PathJoin(dir, fileName), fileName, "." + ext);
    ContentTypeOfExtension(PathJoin(dir, fileName), ext);
  }

  /** A path ending in `.<ext>` is served with the content type of `ext`. */
  lemma ContentTypeOfExtension(path: string, ext: string)
    requires EndsWith(path, "." + ext)
    ensures ext == "png" ==> ContentType(path) == Some(PngType)
    ensures ext == "xlsx" ==> ContentType(path) == Some(XlsxType)
    ensures ext == "css" ==> ContentType(path) == Some(CssType)
    ensures ext == "ts" ==> ContentType(path) == Some(TsType)
    ensures ext == "dart" ==> ContentType(path) == Some(DartType)
  {
    if ext == "png" {
      assert "." + ext == ".png";
    } else if ext == "xlsx" {
      assert "." + ext == ".xlsx";
    } else if ext == "css" {
      assert "." + ext == ".css";
    } else if ext == "ts" {
      assert "." + ext == ".ts";
    } else if ext == "dart" {
      assert "." + ext == ".dart";
    }
  }

  // ---------------------------------------------------------------- PaletteViewSet._generate_palette_files

  /** The palette's directory relative to MEDIA_ROOT: `palettes/<id>-<slug>`. */
  function PaletteDir(id: int, slug: string): (r: string)
    ensures StartsWith(r, "palettes/")
    ensures EndsWith(r, IntToDecimal(id) + "-" + (if slug == "" then "palette" else slug))
  {
    var leaf := IntToDecimal(id) + "-" + (if slug == "" then "palette" else slug);
    assert leaf[0] != '/' by {
      if id < 0 {
        assert leaf[0] == '-';
      } else {
        assert leaf[0] == NatToDecimal(id)[0];
      }
    }
    assert !StartsWith(leaf, "/");
    var r := PathJoin("palettes", leaf);
    assert r == "palettes/" + leaf;
    assert r[..|"palettes/"|] == "palettes/";
    r
  }

  /**
   * `_generate_palette_files`: the palette is generated and written under its directory,
   * one `PaletteFile` is created per file type, and the palette is marked done with its
   * storage path; an exception (from creating the directory, from generating the palette,
   * or from writing the files) is stored as the palette's error message instead, with no
   * file created. Either way the palette is no longer processing.
   */
  method GeneratePaletteFiles(rgbToHsv: Colorsys, slugify: string -> string, palette: M.Palette,
                              fileTypes: seq<M.PaletteFileType>, dirError: Option<string>,
                              writeError: Option<string>)
    returns (files: seq<M.PaletteFile>)
    modifies palette
    ensures !palette.isProcessing
    ensures var error := GenerationError(rgbToHsv, palette.primary, palette.secondary, palette.tertiary, dirError, writeError);
      && (error.None? ==>
            && palette.storagePath == Some(PaletteDir(palette.id, slugify(palette.name)))
            && palette.errorMessage == old(palette.errorMessage)
            && StoredFiles(files, palette, fileTypes, PaletteDir(palette.id, slugify(palette.name))))
      && (error.Some? ==>
            && palette.errorMessage == error
            && palette.storagePath == old(palette.storagePath)
            && files == [])
  {
    var dir := PaletteDir(palette.id, slugify(palette.name));
    var error := WriteFiles(rgbToHsv, palette.primary, palette.secondary, palette.tertiary, dirError, writeError);
    if error.Some? {
      palette.errorMessage := error;
      palette.isProcessing := false;
      return [];
    }
    files := CreatePaletteFiles(palette, fileTypes, dir);
    palette.isProcessing := false;
    palette.storagePath := Some(dir);
  }

  /**
   * The `try` block up to the file records: the directory is created, then the palette is
   * generated and its files written; the first exception, if any, is returned.
   */
  method WriteFiles(rgbToHsv: Colorsys, primary: string, secondary: Option<string>, tertiary: Option<string>,
                    dirError: Option<string>, writeError: Option<string>)
    returns (error: Option<string>)
    ensures error == GenerationError(rgbToHsv, primary, secondary, tertiary, dirError, writeError)
  {
    if dirError.Some? {
      return dirError;
    }
    var generated := GeneratePalette(rgbToHsv, primary, secondary, tertiary);
    error := if generated.Err? then Some(ErrorText(generated.error)) else writeError;
  }

  /**
   * The exception `_generate_palette_files` meets first, if any: creating the directory,
   * then generating the palette, then writing its files.
   */
  function GenerationError(rgbToHsv: Colorsys, primary: string, secondary: Option<string>, tertiary: Option<string>,
                           dirError: Option<string>, writeError: Option<string>): (r: Option<string>)
    ensures dirError.Some? ==> r == dirError
    ensures dirError.None? && PaletteOf(rgbToHsv, primary, secondary, tertiary).Err? ==>
      r == Some(ErrorText(PaletteOf(rgbToHsv, primary, secondary, tertiary).error))
    ensures dirError.None? && PaletteOf(rgbToHsv, primary, secondary, tertiary).Ok? ==> r == writeError
  {
    if dirError.Some? then dirError
    else match PaletteOf(rgbToHsv, primary, secondary, tertiary)
      case Err(e) => Some(ErrorText(e))
      case Ok(_) => writeError
  }

  /** One file per file type, in order, named after the palette and stored under `dir`. */
  predicate StoredFiles(files: seq<M.PaletteFile>, palette: M.Palette, fileTypes: seq<M.PaletteFileType>, dir: string)
    reads files
  {
    && |files| == |fileTypes|
    && forall i :: 0 <= i < |files| ==>
         && files[i].palette == palette && files[i].fileType == fileTypes[i]
         && files[i].fileName == M.PaletteFileName(palette.name, fileTypes[i].fileExtension)
         && files[i].filePath == PathJoin(dir, files[i].fileName)
  }

  /** The loop of `_generate_palette_files` that creates one `PaletteFile` per file type. */
  method CreatePaletteFiles(palette: M.Palette, fileTypes: seq<M.PaletteFileType>, dir: string)
    returns (files: seq<M.PaletteFile>)
    ensures StoredFiles(files, palette, fileTypes, dir)
    ensures forall i :: 0 <= i < |files| ==> fresh(files[i])
  {
    files := [];
    var i := 0;
    while i < |fileTypes|
      invariant 0 <= i <= |fileTypes|
      invariant |files| == i
      invariant forall k :: 0 <= k < i ==>
        && files[k].palette == palette && files[k].fileType == fileTypes[k]
        && files[k].fileName == M.PaletteFileName(palette.name, fileTypes[k].fileExtension)
        && files[k].filePath == PathJoin(dir, files[k].fileName)
      invariant forall k :: 0 <= k < i ==> fresh(files[k])
    {
      var fileName := M.PaletteFileName(palette.name, fileTypes[i].fileExtension);
      var file := new M.PaletteFile(palette, fileTypes[i], fileName, PathJoin(dir, fileName));
      file.Save();
      assert file.filePath == PathJoin(dir, fileName);
      files := files + [file];
      i := i + 1;
    }
  }

  /**
   * The status a palette reports once `_generate_palette_files` has run, with the message it
   * stored: "completed" when nothing failed and no earlier message is kept, "error" when
   * the stored `str(e)` is non-empty. An exception whose `str(e)` is empty is stored as ""
   * and then reported as "completed", since `get_status` tests the message's truth. A
   * colour that does not convert always leaves "error".
   */
  lemma StatusAfterGeneration(rgbToHsv: Colorsys, primary: string, secondary: Option<string>, tertiary: Option<string>,
                              dirError: Option<string>, writeError: Option<string>, errorMessage: Option<string>)
    ensures var error := GenerationError(rgbToHsv, primary, secondary, tertiary, dirError, writeError);
      var stored := if error.Some? then error else errorMessage;
      && (error.None? ==> (GetStatus(false, stored) == "completed" <==> !Truthy(errorMessage)))
      && (error.Some? ==> (GetStatus(false, stored) == "error" <==> error.value != ""))
    ensures dirError.None? && !Generable(primary, secondary, tertiary) ==>
      GetStatus(false, GenerationError(rgbToHsv, primary, secondary, tertiary, dirError, writeError)) == "error"
    ensures dirError == Some("") ==>
      GetStatus(false, GenerationError(rgbToHsv, primary, secondary, tertiary, dirError, writeError)) == "completed"
  {
  }
}
