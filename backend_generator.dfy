/**
 * The Django backend's palette generator (backend/generator/generator.py): the unrounded
 * shade ramp, `generate_palette`, the output file name, and the text of the CSS,
 * TypeScript and Dart files it writes.
 */
module BackendGenerator {
  import opened Wrappers
  import opened Text
  import opened Numbers
  import opened Dict
  import opened Paths
  import opened ColorCodec
  import opened ShadeRamp
  import opened PaletteAssembly
  import opened PaletteText

  /** `generate_shades`: the nine shades from the offsets, sorted by key, without rounding. */
  function GenerateShades(base: Hsb): (r: Ramp)
    ensures Keys(r) == ShadeKeys
    ensures |r| == 9 && r[4] == ("500", base)
    ensures forall i :: 0 <= i < |r| ==> r[i].1.h == base.h
  {
    var derive := step => Derive(step, base);
    RampKeys(derive);
    RampOf(derive)
  }

  /**
   * The ramp is the dict `generate_shades` fills (500, 100, 900, ...) sorted by the integer
   * value of its keys.
   */
  lemma ShadesAreSorted(base: Hsb)
    ensures forall e :: e in GenerateShades(base) <==> e in InsertedRamp(step => Derive(step, base))
    ensures KeysAscending(GenerateShades(base)) && DistinctKeys(GenerateShades(base))
  {
    RampIsSortedInsertion(step => Derive(step, base));
  }

  /**
   * For a base with saturation and brightness in [0, 100], every shade stays in [0, 100],
   * brightness never increases and saturation never decreases from "100" to "900".
   */
  lemma ShadesMonotone(base: Hsb)
    requires 0.0 <= base.s <= 100.0 && 0.0 <= base.b <= 100.0
    ensures var r := GenerateShades(base);
      && (forall i :: 0 <= i < |r| ==> 0.0 <= r[i].1.s <= 100.0 && 0.0 <= r[i].1.b <= 100.0)
      && (forall i, j :: 0 <= i < j < |r| ==> r[i].1.b >= r[j].1.b && r[i].1.s <= r[j].1.s)
  {
    var r := GenerateShades(base);
    ShadesInRange(base);
    ShadesAdjacent(base);
    NonIncreasing(Brightnesses(r));
    NonDecreasing(Saturations(r));
  }

  lemma ShadesInRange(base: Hsb)
    requires 0.0 <= base.s <= 100.0 && 0.0 <= base.b <= 100.0
    ensures var r := GenerateShades(base);
      forall i :: 0 <= i < |r| ==> 0.0 <= r[i].1.s <= 100.0 && 0.0 <= r[i].1.b <= 100.0
  {
    var r := GenerateShades(base);
    StepsNonNegative();
    forall i | 0 <= i < |r| ensures 0.0 <= r[i].1.s <= 100.0 && 0.0 <= r[i].1.b <= 100.0 {
      DeriveInRange(ShadeSteps[i].1, base);
    }
  }

  lemma ShadesAdjacent(base: Hsb)
    requires 0.0 <= base.s <= 100.0 && 0.0 <= base.b <= 100.0
    ensures var r := GenerateShades(base);
      forall i :: 0 <= i < |r| - 1 ==> Brightnesses(r)[i] >= Brightnesses(r)[i + 1] && Saturations(r)[i] <= Saturations(r)[i + 1]
  {
    var r := GenerateShades(base);
    StepsOrdered();
    forall i | 0 <= i < |r| - 1 ensures r[i].1.b >= r[i + 1].1.b && r[i].1.s <= r[i + 1].1.s {
      DeriveOrdered(ShadeSteps[i].1, ShadeSteps[i + 1].1, base);
    }
  }

  /** Shade "500" of a ramp is its base. */
  lemma Shade500(base: Hsb)
    ensures Get(GenerateShades(base), "500") == Some(base)
  {
    ShadesAreSorted(base);
    GetDistinct(GenerateShades(base), 4);
  }

  // ---------------------------------------------------------------- generate_palette

  /**
   * `generate_palette` as a value: the first conversion error of the given colours, or
   * the shade ramp of every named seed in insertion order.
   */
  function PaletteOf(rgbToHsv: Colorsys, primary: string, secondary: Option<string>, tertiary: Option<string>)
    : (r: Result<Palette, ConversionError>)
    ensures r.Err? <==> !Generable(primary, secondary, tertiary)
    ensures !Convertible(primary) ==> r == Err(HexToHsb(rgbToHsv, primary).error)
    ensures r.Err? ==> ErrorText(r.error) != ""
  {
    match SeedsOf(rgbToHsv, primary, secondary, tertiary)
    case Err(e) => Err(e)
    case Ok((p, s, t)) => Ok(MapValues(NamedSeeds(p, s, t), GenerateShades))
  }

  /** `generate_palette(primary, secondary, tertiary)`; an exception is an `Err`. */
  method GeneratePalette(rgbToHsv: Colorsys, primary: string, secondary: Option<string>, tertiary: Option<string>)
    returns (r: Result<Palette, ConversionError>)
    ensures r == PaletteOf(rgbToHsv, primary, secondary, tertiary)
  {
    var seeds := SeedsOf(rgbToHsv, primary, secondary, tertiary);
    if seeds.Err? {
      return Err(seeds.error);
    }
    var (p, s, t) := seeds.value;
    var palette := AssemblePalette(GenerateShades, p, s, t);
    return Ok(palette);
  }

  /**
   * The palette's colour names in order: Primary, Secondary exactly when a non-empty
   * secondary is given, Tertiary exactly when a non-empty tertiary is given, Neutral,
   * Green, Orange, Red, Blue; every ramp has the keys "100".."900".
   */
  lemma PaletteKeys(rgbToHsv: Colorsys, primary: string, secondary: Option<string>, tertiary: Option<string>)
    requires PaletteOf(rgbToHsv, primary, secondary, tertiary).Ok?
    ensures var palette := PaletteOf(rgbToHsv, primary, secondary, tertiary).value;
      && Keys(palette) == PaletteNames(Truthy(secondary), Truthy(tertiary))
      && forall c :: 0 <= c < |palette| ==> Keys(palette[c].1) == ShadeKeys
  {
    var (p, s, t) := SeedsOf(rgbToHsv, primary, secondary, tertiary).value;
    GeneratedKeys(p, s, t);
  }

  /** The keys of a palette generated from seeds, and of each of its ramps. */
  lemma GeneratedKeys(p: Hsb, s: Option<Hsb>, t: Option<Hsb>)
    ensures var palette := MapValues(NamedSeeds(p, s, t), GenerateShades);
      && Keys(palette) == PaletteNames(s.Some?, t.Some?)
      && forall c :: 0 <= c < |palette| ==> Keys(palette[c].1) == ShadeKeys
  {
    NamedSeedsOrder(p, s, t);
    MapValuesKeys(NamedSeeds(p, s, t), GenerateShades);
  }

  /**
   * Where each ramp of a generated palette comes from: Primary from its own colour;
   * Neutral from (primary hue, 15, 70); the supporting colours from hues 134, 23, 0 and
   * 204 with the primary's saturation - 10 and brightness - 2, not clamped, so their
   * "500" shade can be negative.
   */
  lemma RampSeeds(p: Hsb, s: Option<Hsb>, t: Option<Hsb>)
    ensures var palette := MapValues(NamedSeeds(p, s, t), GenerateShades);
      && Get(palette, "Primary") == Some(GenerateShades(p))
      && Get(palette, "Neutral") == Some(GenerateShades(Hsb(p.h, 15.0, 70.0)))
      && Get(palette, "Green") == Some(GenerateShades(Hsb(134.0, p.s - 10.0, p.b - 2.0)))
      && Get(palette, "Orange") == Some(GenerateShades(Hsb(23.0, p.s - 10.0, p.b - 2.0)))
      && Get(palette, "Red") == Some(GenerateShades(Hsb(0.0, p.s - 10.0, p.b - 2.0)))
      && Get(palette, "Blue") == Some(GenerateShades(Hsb(204.0, p.s - 10.0, p.b - 2.0)))
  {
    var named := NamedSeeds(p, s, t);
    NamedSeedsLookup(p, s, t);
    MapValuesGet(named, GenerateShades, "Primary");
    MapValuesGet(named, GenerateShades, "Neutral");
    MapValuesGet(named, GenerateShades, "Green");
    MapValuesGet(named, GenerateShades, "Orange");
    MapValuesGet(named, GenerateShades, "Red");
    MapValuesGet(named, GenerateShades, "Blue");
  }

  /** Every ramp of a generated palette has nine shades, "500" among them. */
  lemma PaletteRamps(p: Hsb, s: Option<Hsb>, t: Option<Hsb>)
    ensures var palette := MapValues(NamedSeeds(p, s, t), GenerateShades);
      forall c :: 0 <= c < |palette| ==> |palette[c].1| == 9 && "500" in Keys(palette[c].1)
  {
  }

  // ---------------------------------------------------------------- output files

  /** `get_output_path`: `os.path.join(output_dir, f'{name}-color-palette.{extension}')`. */
  function OutputPath(outputDir: string, name: string, extension: string): (r: string)
    ensures EndsWith(r, name + "-color-palette." + extension)
    ensures outputDir != "" && !EndsWith(outputDir, "/") && !StartsWith(name, "/")
      ==> r == outputDir + "/" + name + "-color-palette." + extension
  {
    var file := name + "-color-palette." + extension;
    assert !StartsWith(name, "/") ==> !StartsWith(file, "/") by {
      if name != [] {
        assert file[..1] == name[..1];
      } else {
        assert file[0] == '-';
      }
    }
    PathJoin(outputDir, name + "-color-palette." + extension)
  }

  /** The comment block at the top of the CSS file, before `:root {`. */
  const CssUsageComment: seq<string> := [
    "/* EXAMPLE USAGE */", "/* .header { */", "/* background-color: var(--primary-500); */",
    "/* color: var(--neutral-900); */", "/* } */", "",
    "/* Button Styles */", "/* .button { */", "/*   background-color: var(--secondary-500); */",
    "/*   color: var(--neutral-100); */", "/* } */", "",
    "/* Color Variables */"]

  /** The lines of the CSS file. */
  function CssFile(hsvToRgb: Colorsys, palette: Palette): (lines: seq<string>)
    ensures |lines| >= |CssUsageComment| + 2
    ensures lines[..|CssUsageComment| + 1] == CssUsageComment + [":root {"] && lines[|lines| - 1] == "}"
  {
    CssUsageComment + [":root {"] + PaletteLines(CssLayout(hsvToRgb), palette) + ["}"]
  }

  /** `generate_css_file`, line by line. */
  method WriteCss(hsvToRgb: Colorsys, palette: Palette) returns (lines: seq<string>)
    ensures lines == CssFile(hsvToRgb, palette)
  {
    lines := CssUsageComment + [":root {"];
    var vars := WritePaletteLines(CssLayout(hsvToRgb), palette);
    lines := lines + vars + ["}"];
  }

  /**
   * With `n` shades per colour: the comment block, then `:root {`, then exactly one
   * `--name-shade: hex;` line per colour and shade in palette order, then `}`.
   */
  lemma CssFileShape(hsvToRgb: Colorsys, palette: Palette, n: nat)
    requires forall c :: 0 <= c < |palette| ==> |palette[c].1| == n
    ensures var lines := CssFile(hsvToRgb, palette);
      && |lines| == |CssUsageComment| + 2 + |palette| * n
      && lines[..|CssUsageComment|] == CssUsageComment
      && lines[|CssUsageComment|] == ":root {"
      && lines[|lines| - 1] == "}"
      && forall c, j :: 0 <= c < |palette| && 0 <= j < n ==>
           lines[|CssUsageComment| + 1 + BlockLine(c, j, n, |palette|)]
             == CssVarLine(palette[c].0, palette[c].1[j].0, HsbToHex(hsvToRgb, palette[c].1[j].1))
  {
    CssVarLinesAt(hsvToRgb, palette, n);
  }

  /** The TypeScript object: per colour `  name: {`, one `    shade: 'hex',` per shade, `  },`. */
  function TsLayout(hsvToRgb: Colorsys): Layout {
    Layout(name => [TsOpenLine(name)], (name, shade, hsb) => TsShadeLine(shade, HsbToHex(hsvToRgb, hsb)), ["  },"])
  }

  /** `  {name.lower()}: {`. */
  function TsOpenLine(name: string): string {
    "  " + Lower(name) + ": {"
  }

  /** `    {shade}: '{hex}',`. */
  function TsShadeLine(shade: string, hex: string): string {
    "    " + shade + ": '" + hex + "',"
  }

  const TsHeader: seq<string> := ["// Centralized shared components for theme configuration", "const paletteComponents = {"]
  const TsFooter: seq<string> := ["};", "", "export default paletteComponents;"]

  /** The lines of the TypeScript file. */
  function TsFile(hsvToRgb: Colorsys, palette: Palette): (lines: seq<string>)
    ensures |lines| >= |TsHeader| + |TsFooter|
    ensures lines[..|TsHeader|] == TsHeader && lines[|lines| - |TsFooter|..] == TsFooter
  {
    TsHeader + PaletteLines(TsLayout(hsvToRgb), palette) + TsFooter
  }

  /**
   * `generate_typescript_file`, line by line. Its last-colour test writes the same
   * closing line on both branches, so every colour closes with `  },`.
   */
  method WriteTypeScript(hsvToRgb: Colorsys, palette: Palette) returns (lines: seq<string>)
    ensures lines == TsFile(hsvToRgb, palette)
  {
    lines := TsHeader;
    var body := WritePaletteLines(TsLayout(hsvToRgb), palette);
    lines := lines + body + TsFooter;
  }

  /**
   * With `n` shades per colour every colour takes `n + 2` lines: its opening line
   * `  name: {` with the name lower-cased, then one `    shade: 'hex',` line per shade.
   */
  lemma TsFileShape(hsvToRgb: Colorsys, palette: Palette, n: nat)
    requires forall c :: 0 <= c < |palette| ==> |palette[c].1| == n
    ensures var lines := TsFile(hsvToRgb, palette);
      && |lines| == |TsHeader| + |palette| * (n + 2) + |TsFooter|
      && (forall c :: 0 <= c < |palette| ==>
           lines[|TsHeader| + BlockLine(c, 0, n + 2, |palette|)] == TsOpenLine(palette[c].0))
      && (forall c, j :: 0 <= c < |palette| && 0 <= j < n ==>
           lines[|TsHeader| + BlockLine(c, 1 + j, n + 2, |palette|)]
             == TsShadeLine(palette[c].1[j].0, HsbToHex(hsvToRgb, palette[c].1[j].1)))
  {
    var body := PaletteLines(TsLayout(hsvToRgb), palette);
    TsBodyAt(hsvToRgb, palette, n);
    TsFileBody(hsvToRgb, palette);
    var lines := TsFile(hsvToRgb, palette);
    forall c | 0 <= c < |palette|
      ensures lines[|TsHeader| + BlockLine(c, 0, n + 2, |palette|)] == TsOpenLine(palette[c].0)
    {
      assert lines[|TsHeader| + BlockLine(c, 0, n + 2, |palette|)] == body[BlockLine(c, 0, n + 2, |palette|)];
    }
    forall c, j | 0 <= c < |palette| && 0 <= j < n
      ensures lines[|TsHeader| + BlockLine(c, 1 + j, n + 2, |palette|)]
        == TsShadeLine(palette[c].1[j].0, HsbToHex(hsvToRgb, palette[c].1[j].1))
    {
      assert lines[|TsHeader| + BlockLine(c, 1 + j, n + 2, |palette|)] == body[BlockLine(c, 1 + j, n + 2, |palette|)];
    }
  }

  /** The colour blocks of the TypeScript object, `n + 2` lines per colour. */
  lemma TsBodyAt(hsvToRgb: Colorsys, palette: Palette, n: nat)
    requires forall c :: 0 <= c < |palette| ==> |palette[c].1| == n
    ensures var body := PaletteLines(TsLayout(hsvToRgb), palette);
      && |body| == |palette| * (n + 2)
      && (forall c :: 0 <= c < |palette| ==> body[BlockLine(c, 0, n + 2, |palette|)] == TsOpenLine(palette[c].0))
      && (forall c, j :: 0 <= c < |palette| && 0 <= j < n ==>
           body[BlockLine(c, 1 + j, n + 2, |palette|)] == TsShadeLine(palette[c].1[j].0, HsbToHex(hsvToRgb, palette[c].1[j].1)))
  {
    var layout := TsLayout(hsvToRgb);
    forall c | 0 <= c < |palette| ensures |ColourBlock(layout, palette[c].0, palette[c].1)| == n + 2 {
      TsBlock(hsvToRgb, palette[c].0, palette[c].1);
    }
    PaletteLinesAt(layout, palette, n + 2);
    var body := PaletteLines(layout, palette);
    forall c | 0 <= c < |palette|
      ensures body[BlockLine(c, 0, n + 2, |palette|)] == TsOpenLine(palette[c].0)
    {
      TsBlock(hsvToRgb, palette[c].0, palette[c].1);
    }
    forall c, j | 0 <= c < |palette| && 0 <= j < n
      ensures body[BlockLine(c, 1 + j, n + 2, |palette|)] == TsShadeLine(palette[c].1[j].0, HsbToHex(hsvToRgb, palette[c].1[j].1))
    {
      TsBlock(hsvToRgb, palette[c].0, palette[c].1);
    }
  }

  /** One colour of the TypeScript object: `  name: {`, its shade lines, `  },`. */
  lemma TsBlock(hsvToRgb: Colorsys, name: string, ramp: Ramp)
    ensures var block := ColourBlock(TsLayout(hsvToRgb), name, ramp);
      && |block| == |ramp| + 2
      && block[0] == TsOpenLine(name)
      && forall j :: 0 <= j < |ramp| ==> block[1 + j] == TsShadeLine(ramp[j].0, HsbToHex(hsvToRgb, ramp[j].1))
  {
    var layout := TsLayout(hsvToRgb);
    assert |layout.open(name)| == 1 && layout.open(name)[0] == TsOpenLine(name);
    assert |layout.close| == 1;
    OneLineEnds(layout, name, ramp);
  }

  /** The TypeScript file is its header, the colour blocks, and its footer. */
  lemma TsFileBody(hsvToRgb: Colorsys, palette: Palette)
    ensures var lines, body := TsFile(hsvToRgb, palette), PaletteLines(TsLayout(hsvToRgb), palette);
      && |lines| == |TsHeader| + |body| + |TsFooter|
      && forall i :: 0 <= i < |body| ==> lines[|TsHeader| + i] == body[i]
  {
  }

  /** The Dart colour maps: per colour a `Map<int, Color>` with one `Color(0xFF...)` entry per shade. */
  function DartLayout(hsvToRgb: Colorsys): Layout {
    Layout(name => ["  static const Map<int, Color> " + Lower(name) + " = {"],
           (name, shade, hsb) => "    " + shade + ": Color(" + DartColor(HsbToHex(hsvToRgb, hsb)) + "),",
           ["  };", ""])
  }

  /** `0xFF` followed by the hex digits after `#`, upper-cased. */
  function DartColor(hex: string): string
    requires |hex| > 0
  {
    "0xFF" + Upper(hex[1..])
  }

  const DartHeader: seq<string> := [
    "import 'package:flutter/material.dart';", "",
    "// Centralized shared components for theme configuration", "class PaletteComponents {"]

  /** The colours that get a `MaterialColor` swatch, when the palette has them. */
  const SwatchNames: seq<string> := ["primary", "secondary", "tertiary"]

  predicate EveryRampHas500(palette: Palette) {
    forall e :: e in palette ==> "500" in Keys(e.1)
  }

  /**
   * The `for name in ['primary', 'secondary', 'tertiary']: if name.capitalize() in
   * self.palette: ...` loop.
   */
  method WriteSwatches(hsvToRgb: Colorsys, palette: Palette, names: seq<string>) returns (lines: seq<string>)
    requires EveryRampHas500(palette)
    ensures lines == Swatches(hsvToRgb, palette, names)
  {
    lines := [];
    var k := 0;
    while k < |names|
      invariant 0 <= k <= |names|
      invariant lines == Swatches(hsvToRgb, palette, names[..k])
    {
      var swatch := WriteSwatch(hsvToRgb, palette, names[k]);
      SwatchesPrefix(hsvToRgb, palette, names, k);
      lines := lines + swatch;
      k := k + 1;
    }
    assert names[..k] == names;
  }

  /** One turn of the swatch loop: the swatch of `name` when the palette has `name.capitalize()`. */
  method WriteSwatch(hsvToRgb: Colorsys, palette: Palette, name: string) returns (lines: seq<string>)
    requires EveryRampHas500(palette)
    ensures lines == Swatch(hsvToRgb, palette, name)
  {
    lines := [];
    var key := Capitalize(name);
    if key in Keys(palette) {
      var ramp := Get(palette, key).value;
      assert (key, ramp) in palette;
      lines := SwatchOf(hsvToRgb, name, Get(ramp, "500").value);
    }
  }

  /** The swatch of a colour whose shade "500" is `base`. */
  function SwatchOf(hsvToRgb: Colorsys, name: string, base: Hsb): seq<string> {
    var hex := HsbToHex(hsvToRgb, base);
    ["  static const MaterialColor " + name + "Swatch = MaterialColor(",
     "    " + DartColor(hex) + ",",
     "    " + name + ",",
     "  );",
     ""]
  }

  /** The swatch for `name`, built from the "500" shade of `name.capitalize()`, if the palette has it. */
  function Swatch(hsvToRgb: Colorsys, palette: Palette, name: string): seq<string>
    requires EveryRampHas500(palette)
  {
    match Get(palette, Capitalize(name))
    case None => []
    case Some(ramp) => SwatchOf(hsvToRgb, name, Get(ramp, "500").value)
  }

  /** The swatches of `names`, in order. */
  function Swatches(hsvToRgb: Colorsys, palette: Palette, names: seq<string>): seq<string>
    requires EveryRampHas500(palette)
  {
    if names == [] then []
    else Swatches(hsvToRgb, palette, names[..|names| - 1]) + Swatch(hsvToRgb, palette, names[|names| - 1])
  }

  /** The lines of the Dart file. */
  function DartFile(hsvToRgb: Colorsys, palette: Palette): (lines: seq<string>)
    requires EveryRampHas500(palette)
    ensures |lines| >= |DartHeader| + 2
    ensures lines[..|DartHeader|] == DartHeader && lines[|lines| - 1] == "}"
  {
    DartHeader + PaletteLines(DartLayout(hsvToRgb), palette)
      + ["  // Material Color Swatches"] + Swatches(hsvToRgb, palette, SwatchNames) + ["}"]
  }

  /**
   * `generate_dart_file`, line by line. It looks up shade "500" of each swatch colour, so
   * it needs every ramp to have one (otherwise Python raises `KeyError`).
   */
  method WriteDart(hsvToRgb: Colorsys, palette: Palette) returns (lines: seq<string>)
    requires EveryRampHas500(palette)
    ensures lines == DartFile(hsvToRgb, palette)
  {
    lines := DartHeader;
    var maps := WritePaletteLines(DartLayout(hsvToRgb), palette);
    lines := lines + maps + ["  // Material Color Swatches"];
    var swatches := WriteSwatches(hsvToRgb, palette, SwatchNames);
    lines := lines + swatches;
    lines := lines + ["}"];
  }

  /** Three names give their three swatches, in order. */
  lemma SwatchesOfThree(hsvToRgb: Colorsys, palette: Palette, a: string, b: string, c: string)
    requires EveryRampHas500(palette)
    ensures Swatches(hsvToRgb, palette, [a, b, c])
      == Swatch(hsvToRgb, palette, a) + Swatch(hsvToRgb, palette, b) + Swatch(hsvToRgb, palette, c)
  {
    assert Swatches(hsvToRgb, palette, [a]) == Swatch(hsvToRgb, palette, a) by {
      assert [a] == [] + [a];
      SwatchesSnoc(hsvToRgb, palette, [], a);
    }
    assert Swatches(hsvToRgb, palette, [a, b]) == Swatches(hsvToRgb, palette, [a]) + Swatch(hsvToRgb, palette, b) by {
      assert [a, b] == [a] + [b];
      SwatchesSnoc(hsvToRgb, palette, [a], b);
    }
    assert Swatches(hsvToRgb, palette, [a, b, c]) == Swatches(hsvToRgb, palette, [a, b]) + Swatch(hsvToRgb, palette, c) by {
      assert [a, b, c] == [a, b] + [c];
      SwatchesSnoc(hsvToRgb, palette, [a, b], c);
    }
  }

  lemma SwatchesPrefix(hsvToRgb: Colorsys, palette: Palette, names: seq<string>, k: nat)
    requires EveryRampHas500(palette) && k < |names|
    ensures Swatches(hsvToRgb, palette, names[..k + 1])
      == Swatches(hsvToRgb, palette, names[..k]) + Swatch(hsvToRgb, palette, names[k])
  {
    assert names[..k + 1][..k] == names[..k];
  }

  lemma SwatchesSnoc(hsvToRgb: Colorsys, palette: Palette, names: seq<string>, name: string)
    requires EveryRampHas500(palette)
    ensures Swatches(hsvToRgb, palette, names + [name]) == Swatches(hsvToRgb, palette, names) + Swatch(hsvToRgb, palette, name)
  {
    var s := names + [name];
    assert s[..|s| - 1] == names;
  }

  /** Every ramp of a generated palette has a "500" shade. */
  lemma GeneratedHas500(named: seq<(string, Hsb)>)
    ensures EveryRampHas500(MapValues(named, GenerateShades))
  {
    var palette := MapValues(named, GenerateShades);
    forall e | e in palette ensures "500" in Keys(e.1) {
      var c :| 0 <= c < |palette| && palette[c] == e;
      assert Keys(e.1)[4] == "500";
    }
  }

  /**
   * The swatch of `name` in a generated palette, when the seed stored under
   * `name.capitalize()` is `seed`: none without a seed, else the seed's own colour.
   */
  lemma GeneratedSwatch(hsvToRgb: Colorsys, named: seq<(string, Hsb)>, name: string, seed: Option<Hsb>)
    requires EveryRampHas500(MapValues(named, GenerateShades))
    requires Get(named, Capitalize(name)) == seed
    ensures Swatch(hsvToRgb, MapValues(named, GenerateShades), name)
      == if seed.Some? then SwatchOf(hsvToRgb, name, seed.value) else []
  {
    MapValuesGet(named, GenerateShades, Capitalize(name));
    if seed.Some? { Shade500(seed.value); }
  }

  lemma CapitalizePrimary()
    ensures Capitalize("primary") == "Primary"
  {
    CapitalizeLowerWord("primary");
  }

  lemma CapitalizeSecondary()
    ensures Capitalize("secondary") == "Secondary"
  {
    CapitalizeLowerWord("secondary");
  }

  lemma CapitalizeTertiary()
    ensures Capitalize("tertiary") == "Tertiary"
  {
    CapitalizeLowerWord("tertiary");
  }

  /**
   * In a generated palette the swatches are exactly: primary, then secondary when a
   * secondary seed is given, then tertiary when a tertiary seed is given, each carrying
   * the colour of its seed (the ramp's "500" shade).
   */
  lemma GeneratedSwatches(hsvToRgb: Colorsys, p: Hsb, s: Option<Hsb>, t: Option<Hsb>)
    ensures var palette := MapValues(NamedSeeds(p, s, t), GenerateShades);
      EveryRampHas500(palette)
      && Swatches(hsvToRgb, palette, SwatchNames)
         == SwatchOf(hsvToRgb, "primary", p)
            + (if s.Some? then SwatchOf(hsvToRgb, "secondary", s.value) else [])
            + (if t.Some? then SwatchOf(hsvToRgb, "tertiary", t.value) else [])
  {
    var named := NamedSeeds(p, s, t);
    var palette := MapValues(named, GenerateShades);
    GeneratedHas500(named);
    assert Swatch(hsvToRgb, palette, "primary") == SwatchOf(hsvToRgb, "primary", p) by {
      CapitalizePrimary();
      BrandLookup(p, s, t);
      GeneratedSwatch(hsvToRgb, named, "primary", Some(p));
    }
    assert Swatch(hsvToRgb, palette, "secondary") == if s.Some? then SwatchOf(hsvToRgb, "secondary", s.value) else [] by {
      CapitalizeSecondary();
      SecondaryLookup(p, s, t);
      GeneratedSwatch(hsvToRgb, named, "secondary", s);
    }
    assert Swatch(hsvToRgb, palette, "tertiary") == if t.Some? then SwatchOf(hsvToRgb, "tertiary", t.value) else [] by {
      CapitalizeTertiary();
      TertiaryLookup(p, s, t);
      GeneratedSwatch(hsvToRgb, named, "tertiary", t);
    }
    SwatchesOfThree(hsvToRgb, palette, "primary", "secondary", "tertiary");
  }
}
