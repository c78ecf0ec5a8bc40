/**
 * The older Flask generator (app/generator.py): the same ramp as the Django generator but
 * with every derived saturation and brightness passed through Python's `round`, the same
 * `generate_palette`, and a CSS file that is the bare `:root { ... }` block.
 */
module FlaskGenerator {
  import opened Wrappers
  import opened Text
  import opened Numbers
  import opened Dict
  import opened ColorCodec
  import opened ShadeRamp
  import opened PaletteAssembly
  import opened PaletteText

  /** A shade of the Flask ramp: the base itself for "500", else the derived shade rounded half to even. */
  function RoundedShade(step: Step, base: Hsb): Hsb {
    if step.Base? then base else RoundSB(Derive(step, base))
  }

  /** `(h, round(s), round(b))`. */
  function RoundSB(c: Hsb): Hsb {
    Hsb(c.h, RoundHalfEven(c.s) as real, RoundHalfEven(c.b) as real)
  }

  /** `generate_shades` of app/generator.py: the nine rounded shades, sorted by key. */
  function GenerateShades(base: Hsb): (r: Ramp)
    ensures Keys(r) == ShadeKeys
    ensures |r| == 9 && r[4] == ("500", base)
    ensures forall i :: 0 <= i < |r| ==> r[i].1.h == base.h
  {
    var derive := step => RoundedShade(step, base);
    RampKeys(derive);
    RampOf(derive)
  }

  /** The ramp is the dict `generate_shades` fills, sorted by the integer value of its keys. */
  lemma ShadesAreSorted(base: Hsb)
    ensures forall e :: e in GenerateShades(base) <==> e in InsertedRamp(step => RoundedShade(step, base))
    ensures KeysAscending(GenerateShades(base)) && DistinctKeys(GenerateShades(base))
  {
    RampIsSortedInsertion(step => RoundedShade(step, base));
  }

  /**
   * Every shade other than "500" has an integral saturation and brightness, whatever the
   * base; so for an integral base (as `hex_to_hsb` returns) every shade is integral.
   */
  lemma ShadesIntegral(base: Hsb)
    ensures var r := GenerateShades(base);
      forall i :: 0 <= i < |r| && i != 4 ==> IsIntegral(r[i].1.s) && IsIntegral(r[i].1.b)
    ensures IntegralHsb(base) ==> forall i :: 0 <= i < 9 ==> IntegralHsb(GenerateShades(base)[i].1)
  {
    var r := GenerateShades(base);
    OnlyMiddleIsBase();
    forall i | 0 <= i < |r| && i != 4 ensures IsIntegral(r[i].1.s) && IsIntegral(r[i].1.b) {
      RoundedShadeIntegral(ShadeSteps[i].1, base);
    }
  }

  /** A rounded shade has an integral saturation and brightness and keeps the hue. */
  lemma RoundedShadeIntegral(step: Step, base: Hsb)
    requires !step.Base?
    ensures var c := RoundedShade(step, base);
      IsIntegral(c.s) && IsIntegral(c.b) && c.h == base.h
  {
    var d := Derive(step, base);
    IntegralOfInt(RoundHalfEven(d.s));
    IntegralOfInt(RoundHalfEven(d.b));
  }

  lemma IntegralOfInt(n: int)
    ensures IsIntegral(n as real)
  {
  }

  /** For an integral base, rounding the base changes nothing: each shade is its derived shade rounded. */
  lemma RoundedIsRoundSB(step: Step, base: Hsb)
    requires IntegralHsb(base)
    ensures RoundedShade(step, base) == RoundSB(Derive(step, base))
  {
    if step.Base? {
      RoundOfInteger(base.s.Floor);
      RoundOfInteger(base.b.Floor);
    }
  }

  /**
   * For an integral base with saturation and brightness in [0, 100], every shade stays in
   * [0, 100], brightness never increases and saturation never decreases from "100" to "900".
   */
  lemma ShadesMonotone(base: Hsb)
    requires IntegralHsb(base) && 0.0 <= base.s <= 100.0 && 0.0 <= base.b <= 100.0
    ensures var r := GenerateShades(base);
      && (forall i :: 0 <= i < |r| ==> 0.0 <= r[i].1.s <= 100.0 && 0.0 <= r[i].1.b <= 100.0)
      && (forall i, j :: 0 <= i < j < |r| ==> r[i].1.b >= r[j].1.b && r[i].1.s <= r[j].1.s)
  {
    var r := GenerateShades(base);
    ShadesInRange(base);
    ShadesAdjacent(base);
    NonIncreasing(Brightnesses(r));
    NonDecreasing(Saturations(r));
  }

  lemma ShadesInRange(base: Hsb)
    requires IntegralHsb(base) && 0.0 <= base.s <= 100.0 && 0.0 <= base.b <= 100.0
    ensures var r := GenerateShades(base);
      forall i :: 0 <= i < |r| ==> 0.0 <= r[i].1.s <= 100.0 && 0.0 <= r[i].1.b <= 100.0
  {
    var r := GenerateShades(base);
    StepsNonNegative();
    forall i | 0 <= i < |r| ensures 0.0 <= r[i].1.s <= 100.0 && 0.0 <= r[i].1.b <= 100.0 {
      var d := Derive(ShadeSteps[i].1, base);
      DeriveInRange(ShadeSteps[i].1, base);
      RoundedIsRoundSB(ShadeSteps[i].1, base);
      RoundWithin(d.s, 0, 100);
      RoundWithin(d.b, 0, 100);
    }
  }

  lemma ShadesAdjacent(base: Hsb)
    requires IntegralHsb(base) && 0.0 <= base.s <= 100.0 && 0.0 <= base.b <= 100.0
    ensures var r := GenerateShades(base);
      forall i :: 0 <= i < |r| - 1 ==> Brightnesses(r)[i] >= Brightnesses(r)[i + 1] && Saturations(r)[i] <= Saturations(r)[i + 1]
  {
    var r := GenerateShades(base);
    StepsOrdered();
    forall i | 0 <= i < |r| - 1 ensures r[i].1.b >= r[i + 1].1.b && r[i].1.s <= r[i + 1].1.s {
      var x, y := ShadeSteps[i].1, ShadeSteps[i + 1].1;
      DeriveOrdered(x, y, base);
      RoundedIsRoundSB(x, base);
      RoundedIsRoundSB(y, base);
      RoundMonotone(Derive(y, base).b, Derive(x, base).b);
      RoundMonotone(Derive(x, base).s, Derive(y, base).s);
    }
  }

  /** Shade "500" of a ramp is its base, unrounded. */
  lemma Shade500(base: Hsb)
    ensures Get(GenerateShades(base), "500") == Some(base)
  {
    ShadesAreSorted(base);
    GetDistinct(GenerateShades(base), 4);
  }

  // ---------------------------------------------------------------- generate_palette

  /** `generate_palette` of app/generator.py as a value. */
  function PaletteOf(rgbToHsv: Colorsys, primary: string, secondary: Option<string>, tertiary: Option<string>)
    : (r: Result<Palette, ConversionError>)
    ensures r.Err? <==> !Generable(primary, secondary, tertiary)
    ensures !Convertible(primary) ==> r == Err(HexToHsb(rgbToHsv, primary).error)
    ensures r.Err? ==> ErrorText(r.error) != ""
  {
    match SeedsOf(rgbToHsv, primary, secondary, tertiary)
    case Err(e) => Err(e)
    case Ok((p, s, t)) => Ok(MapValues(NamedSeeds(p, s, t), GenerateShades))
  }

  /** `generate_palette(primary, secondary, tertiary)`; an exception is an `Err`. */
  method GeneratePalette(rgbToHsv: Colorsys, primary: string, secondary: Option<string>, tertiary: Option<string>)
    returns (r: Result<Palette, ConversionError>)
    ensures r == PaletteOf(rgbToHsv, primary, secondary, tertiary)
  {
    var seeds := SeedsOf(rgbToHsv, primary, secondary, tertiary);
    if seeds.Err? {
      return Err(seeds.error);
    }
    var (p, s, t) := seeds.value;
    var palette := AssemblePalette(GenerateShades, p, s, t);
    return Ok(palette);
  }

  /**
   * The same colour names in the same order as the Django generator, every ramp keyed
   * "100".."900", and Neutral and the supporting colours derived from the primary seed.
   */
  lemma PaletteKeys(rgbToHsv: Colorsys, primary: string, secondary: Option<string>, tertiary: Option<string>)
    requires PaletteOf(rgbToHsv, primary, secondary, tertiary).Ok?
    ensures var palette := PaletteOf(rgbToHsv, primary, secondary, tertiary).value;
      && Keys(palette) == PaletteNames(Truthy(secondary), Truthy(tertiary))
      && forall c :: 0 <= c < |palette| ==> Keys(palette[c].1) == ShadeKeys
  {
    var (p, s, t) := SeedsOf(rgbToHsv, primary, secondary, tertiary).value;
    NamedSeedsOrder(p, s, t);
    MapValuesKeys(NamedSeeds(p, s, t), GenerateShades);
  }

  /** Neutral and the supporting colours come from the primary seed, as in the Django generator. */
  lemma RampSeeds(p: Hsb, s: Option<Hsb>, t: Option<Hsb>)
    ensures var palette := MapValues(NamedSeeds(p, s, t), GenerateShades);
      && Get(palette, "Primary") == Some(GenerateShades(p))
      && Get(palette, "Neutral") == Some(GenerateShades(Hsb(p.h, 15.0, 70.0)))
      && Get(palette, "Green") == Some(GenerateShades(Hsb(134.0, p.s - 10.0, p.b - 2.0)))
      && Get(palette, "Orange") == Some(GenerateShades(Hsb(23.0, p.s - 10.0, p.b - 2.0)))
      && Get(palette, "Red") == Some(GenerateShades(Hsb(0.0, p.s - 10.0, p.b - 2.0)))
      && Get(palette, "Blue") == Some(GenerateShades(Hsb(204.0, p.s - 10.0, p.b - 2.0)))
  {
    var named := NamedSeeds(p, s, t);
    NamedSeedsLookup(p, s, t);
    MapValuesGet(named, GenerateShades, "Primary");
    MapValuesGet(named, GenerateShades, "Neutral");
    MapValuesGet(named, GenerateShades, "Green");
    MapValuesGet(named, GenerateShades, "Orange");
    MapValuesGet(named, GenerateShades, "Red");
    MapValuesGet(named, GenerateShades, "Blue");
  }

  // ---------------------------------------------------------------- CSS file

  /** The lines of the Flask CSS file: `:root {`, the variables, `}`. */
  function CssFile(hsvToRgb: Colorsys, palette: Palette): (lines: seq<string>)
    ensures |lines| >= 2 && lines[0] == ":root {" && lines[|lines| - 1] == "}"
  {
    [":root {"] + PaletteLines(CssLayout(hsvToRgb), palette) + ["}"]
  }

  /** `generate_css_file`, line by line. */
  method WriteCss(hsvToRgb: Colorsys, palette: Palette) returns (lines: seq<string>)
    ensures lines == CssFile(hsvToRgb, palette)
  {
    lines := [":root {"];
    var vars := WritePaletteLines(CssLayout(hsvToRgb), palette);
    lines := lines + vars + ["}"];
  }

  /**
   * With `n` shades per colour: `:root {`, then exactly one `--name-shade: hex;` line per
   * colour and shade in palette order, then `}`.
   */
  lemma CssFileShape(hsvToRgb: Colorsys, palette: Palette, n: nat)
    requires forall c :: 0 <= c < |palette| ==> |palette[c].1| == n
    ensures var lines := CssFile(hsvToRgb, palette);
      && |lines| == 2 + |palette| * n
      && lines[0] == ":root {"
      && lines[|lines| - 1] == "}"
      && forall c, j :: 0 <= c < |palette| && 0 <= j < n ==>
           lines[1 + BlockLine(c, j, n, |palette|)]
             == CssVarLine(palette[c].0, palette[c].1[j].0, HsbToHex(hsvToRgb, palette[c].1[j].1))
  {
    var vars := PaletteLines(CssLayout(hsvToRgb), palette);
    var lines := CssFile(hsvToRgb, palette);
    CssVarLinesAt(hsvToRgb, palette, n);
    assert lines == [":root {"] + vars + ["}"];
    forall c, j | 0 <= c < |palette| && 0 <= j < n
      ensures lines[1 + BlockLine(c, j, n, |palette|)]
        == CssVarLine(palette[c].0, palette[c].1[j].0, HsbToHex(hsvToRgb, palette[c].1[j].1))
    {
      assert lines[1 + BlockLine(c, j, n, |palette|)] == vars[BlockLine(c, j, n, |palette|)];
    }
  }
}
