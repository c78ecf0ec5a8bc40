/**
 * The CSS variables the preview provider (frontend/src/components/preview/PaletteVarsProvider.tsx)
 * derives from a preview palette: one `--<colour>-<shade>` variable per non-empty hex of
 * the brand and neutral colours, then the semantic variables of the theme, each read from
 * a mode-dependent shade with a fixed fallback. JavaScript objects whose keys are not
 * array indices keep insertion order, so both the palette and the result are dicts.
 */
module PaletteVars {
  import opened Wrappers
  import opened Text
  import opened Dict

  /** The shades of one colour: shade key to hex, where "" stands for a missing or empty hex. */
  type Shades = seq<(string, string)>

  /** A preview palette: lowercased colour name to its shades. */
  type PreviewPalette = seq<(string, Shades)>

  /** CSS variable name to value. */
  type Vars = seq<(string, string)>

  datatype Mode = Light | Dark

  /** A shade key as the preview response has them: a non-empty string of digits. */
  predicate Numeric(s: string) {
    s != [] && forall i :: 0 <= i < |s| ==> IsDigit(s[i])
  }

  /** Shade keys are distinct and numeric. */
  predicate ShadesWellFormed(shades: Shades) {
    DistinctKeys(shades) && forall e :: e in shades ==> Numeric(e.0)
  }

  /** Every colour of the palette has well-formed shades. */
  predicate WellFormed(palette: PreviewPalette) {
    forall c :: c in palette ==> ShadesWellFormed(c.1)
  }

  /** The name of the variable of one shade of one colour. */
  function VarName(key: string, shade: string): (r: string)
    ensures |r| == |key| + |shade| + 3
  {
    "--" + key + "-" + shade
  }

  /** `palette[key]?.shades || {}`. */
  function ShadesOf(palette: PreviewPalette, key: string): (r: Shades)
    ensures key !in Keys(palette) ==> r == []
    ensures key in Keys(palette) ==> (key, r) in palette
  {
    Get(palette, key).GetOr([])
  }

  /** `shades[shade]?.hex`, with "" for a missing shade. */
  function HexOf(shades: Shades, shade: string): (r: string)
    ensures shade !in Keys(shades) ==> r == ""
    ensures r != "" ==> (shade, r) in shades
  {
    Get(shades, shade).GetOr("")
  }

  /** `palette?.[group]?.shades?.[shade]?.hex`. */
  function PaletteHex(palette: PreviewPalette, group: string, shade: string): string {
    HexOf(ShadesOf(palette, group), shade)
  }

  /** Whether the tertiary colour is shown: `isTertiaryEnabled && palette.tertiary`. */
  predicate ShowsTertiary(palette: PreviewPalette, tertiaryEnabled: bool) {
    tertiaryEnabled && "tertiary" in Keys(palette)
  }

  /** The colours that get one variable per shade. */
  function ColourKeys(palette: PreviewPalette, tertiaryEnabled: bool): (r: seq<string>)
    ensures Distinct(r)
    ensures forall g :: g in r <==> g in ["primary", "secondary", "neutral"] || (g == "tertiary" && ShowsTertiary(palette, tertiaryEnabled))
  {
    ["primary", "secondary", "neutral"] + (if ShowsTertiary(palette, tertiaryEnabled) then ["tertiary"] else [])
  }

  /** The inner loop: one assignment per shade of `key` whose hex is not empty, in shade order. */
  function EmitShades(out: Vars, key: string, shades: Shades): Vars {
    if shades == [] then out
    else
      var prev := EmitShades(out, key, shades[..|shades| - 1]);
      var (shade, hex) := shades[|shades| - 1];
      if hex != "" then Put(prev, VarName(key, shade), hex) else prev
  }

  /** The outer loop: the shades of each of `keys`, in order. */
  function EmitColours(out: Vars, palette: PreviewPalette, keys: seq<string>): Vars {
    if keys == [] then out
    else
      var key := keys[|keys| - 1];
      EmitShades(EmitColours(out, palette, keys[..|keys| - 1]), key, ShadesOf(palette, key))
  }

  /** The per-shade variables. */
  function ShadeVars(palette: PreviewPalette, tertiaryEnabled: bool): Vars {
    EmitColours([], palette, ColourKeys(palette, tertiaryEnabled))
  }

  /**
   * `get(group, shade, fallback)`: the palette's hex, else the variable already emitted for
   * that shade, else the fallback.
   */
  function Lookup(palette: PreviewPalette, out: Vars, group: string, shade: string, fallback: string): (r: string)
    ensures PaletteHex(palette, group, shade) != "" ==> r == PaletteHex(palette, group, shade)
    ensures r == "" ==> fallback == ""
    ensures r != PaletteHex(palette, group, shade) && r != fallback ==> Get(out, VarName(group, shade)) == Some(r)
  {
    var fromPalette := PaletteHex(palette, group, shade);
    if fromPalette != "" then fromPalette
    else
      var emitted := Get(out, VarName(group, shade)).GetOr("");
      if emitted != "" then emitted else fallback
  }

  /** What a semantic variable is meant to hold: the palette's hex of that shade, else the fallback. */
  function PaletteOr(palette: PreviewPalette, group: string, shade: string, fallback: string): (r: string)
    ensures PaletteHex(palette, group, shade) != "" ==> r == PaletteHex(palette, group, shade)
    ensures PaletteHex(palette, group, shade) == "" ==> r == fallback
  {
    if PaletteHex(palette, group, shade) != "" then PaletteHex(palette, group, shade) else fallback
  }

  function Pick(dark: bool, darkShade: string, lightShade: string): string {
    if dark then darkShade else lightShade
  }


  /**
   * One semantic assignment `out[name] = get(group, shade, inner)`, where `inner` is
   * `get(group, second, fallback)` when a second shade is given and `fallback` otherwise.
   */
  datatype Assignment = Assignment(name: string, group: string, shade: string, second: Option<string>, fallback: string)

  function Nested(name: string, group: string, shade: string, second: string, fallback: string): Assignment {
    Assignment(name, group, shade, Some(second), fallback)
  }

  function Flat(name: string, group: string, shade: string, fallback: string): Assignment {
    Assignment(name, group, shade, None, fallback)
  }

  /** The value `get` gives an assignment, over the variables emitted so far. */
  function Evaluate(palette: PreviewPalette, out: Vars, a: Assignment): string {
    var inner := if a.second.Some? then Lookup(palette, out, a.group, a.second.value, a.fallback) else a.fallback;
    Lookup(palette, out, a.group, a.shade, inner)
  }

  function Assign(palette: PreviewPalette, out: Vars, a: Assignment): Vars {
    Put(out, a.name, Evaluate(palette, out, a))
  }

  /** `step` applied to each of `xs` in turn, starting from `start`. */
  function Fold<S, A>(step: (S, A) -> S, start: S, xs: seq<A>): S {
    if xs == [] then start else step(Fold(step, start, xs[..|xs| - 1]), xs[|xs| - 1])
  }

  function Step(palette: PreviewPalette): (Vars, Assignment) -> Vars {
    (out, a) => Assign(palette, out, a)
  }

  /** The assignments, one after the other. */
  function AssignAll(palette: PreviewPalette, out: Vars, assignments: seq<Assignment>): Vars {
    Fold(Step(palette), out, assignments)
  }


  /** The brand mains; the tertiary one only when the tertiary colour is shown. */
  function BrandMains(tertiary: bool, dark: bool): seq<Assignment> {
    var main := Pick(dark, "600", "500");
    [Nested("--primary-main", "primary", main, "500", "#4f68c5"),
     Nested("--secondary-main", "secondary", main, "500", "#a351a9")]
    + (if tertiary then [Nested("--tertiary-main", "tertiary", main, "500", "#8fac38")] else [])
  }

  function Backgrounds(dark: bool): seq<Assignment> {
    [Nested("--bg-default", "neutral", Pick(dark, "800", "400"), Pick(dark, "800", "400"), "#979db2"),
     Nested("--bg-paper", "neutral", Pick(dark, "700", "500"), Pick(dark, "700", "500"), "#646b85")]
  }

  function TextColours(dark: bool): seq<Assignment> {
    [Nested("--text-primary", "neutral", Pick(dark, "300", "900"), Pick(dark, "300", "900"), Pick(dark, "#e0e0e0", "#1f2937")),
     Nested("--text-secondary", "neutral", Pick(dark, "400", "800"), Pick(dark, "400", "800"), Pick(dark, "#cbd5e1", "#374151"))]
  }

  /** The brands used in text; the tertiary one only when the tertiary colour is shown. */
  function BrandTexts(tertiary: bool, dark: bool): seq<Assignment> {
    var text := Pick(dark, "300", "700");
    [Nested("--text-branda", "primary", text, text, "#7993f2"),
     Nested("--text-brandb", "secondary", text, text, "#772f7c")]
    + (if tertiary then [Nested("--text-brandc", "tertiary", text, text, "#667f1d")] else [])
  }

  /** The feedback colours, read from the supporting ramps with a single fallback. */
  function FeedbackColours(dark: bool): seq<Assignment> {
    var text := Pick(dark, "300", "700");
    [Flat("--error-main", "red", text, "#ed8e8e"),
     Flat("--warning-main", "orange", text, "#edb28e"),
     Flat("--info-main", "blue", text, "#8ec7ed"),
     Flat("--success-main", "green", text, "#8eeda4")]
  }

  function Divider(dark: bool): seq<Assignment> {
    [Nested("--divider", "neutral", Pick(dark, "500", "700"), Pick(dark, "500", "700"), "#646b85")]
  }

  /** The semantic variables of the theme, in the order the provider assigns them. */
  function SemanticAssignments(tertiary: bool, dark: bool): seq<Assignment> {
    BrandMains(tertiary, dark) + Backgrounds(dark) + TextColours(dark) + BrandTexts(tertiary, dark)
    + FeedbackColours(dark) + Divider(dark)
  }

  /** The `cssVars` memo: nothing for a missing palette. */
  function CssVarsOf(palette: Option<PreviewPalette>, tertiaryEnabled: bool, mode: Mode): (r: Vars)
    ensures palette.None? ==> r == []
  {
    match palette
    case None => []
    case Some(p) => AssignAll(p, ShadeVars(p, tertiaryEnabled), SemanticAssignments(ShowsTertiary(p, tertiaryEnabled), mode == Dark))
  }

  /** The nested loops of `cssVars`: for each key, each shade with a non-empty hex. */
  method EmitShadeVars(palette: PreviewPalette, keys: seq<string>) returns (out: Vars)
    ensures out == EmitColours([], palette, keys)
  {
    out := [];
    for i := 0 to |keys|
      invariant out == EmitColours([], palette, keys[..i])
    {
      var key := keys[i];
      var shades := ShadesOf(palette, key);
      var before := out;
      for j := 0 to |shades|
        invariant out == EmitShades(before, key, shades[..j])
      {
        var (shade, v) := shades[j];
        if v != "" {
          out := Put(out, VarName(key, shade), v);
        }
        assert shades[..j + 1][..j] == shades[..j];
      }
      assert shades[..|shades|] == shades;
      assert keys[..i + 1][..i] == keys[..i];
    }
    assert keys[..|keys|] == keys;
  }

  /** `cssVars`, computed as the provider does: nested loops, then one assignment per variable. */
  method CssVars(palette: Option<PreviewPalette>, tertiaryEnabled: bool, mode: Mode) returns (out: Vars)
    ensures out == CssVarsOf(palette, tertiaryEnabled, mode)
  {
    if palette.None? {
      return [];
    }
    var p := palette.value;
    out := EmitShadeVars(p, ColourKeys(p, tertiaryEnabled));
    ghost var sv := out;
    var dark := mode == Dark;
    var tertiary := ShowsTertiary(p, tertiaryEnabled);
    out := AssignBrandMains(p, out, tertiary, dark);
    out := AssignBackgrounds(p, out, dark);
    out := AssignTextColours(p, out, dark);
    out := AssignBrandTexts(p, out, tertiary, dark);
    out := AssignFeedbackColours(p, out, dark);
    out := AssignDivider(p, out, dark);
    SemanticBlocks(p, sv, tertiary, dark);
  }

  /** Brand mains. */
  method AssignBrandMains(p: PreviewPalette, vars: Vars, tertiary: bool, dark: bool) returns (out: Vars)
    ensures out == AssignAll(p, vars, BrandMains(tertiary, dark))
  {
    ghost var block, i := BrandMains(tertiary, dark), 0;
    var main := Pick(dark, "600", "500");
    out := vars;
    out := Put(out, "--primary-main", Lookup(p, out, "primary", main, Lookup(p, out, "primary", "500", "#4f68c5")));
    i := Next(p, vars, block, i);
    out := Put(out, "--secondary-main", Lookup(p, out, "secondary", main, Lookup(p, out, "secondary", "500", "#a351a9")));
    i := Next(p, vars, block, i);
    if tertiary {
      out := Put(out, "--tertiary-main", Lookup(p, out, "tertiary", main, Lookup(p, out, "tertiary", "500", "#8fac38")));
      i := Next(p, vars, block, i);
    }
    assert block[..i] == block;
  }

  /** Backgrounds. */
  method AssignBackgrounds(p: PreviewPalette, vars: Vars, dark: bool) returns (out: Vars)
    ensures out == AssignAll(p, vars, Backgrounds(dark))
  {
    ghost var block, i := Backgrounds(dark), 0;
    out := vars;
    out := Put(out, "--bg-default",
               Lookup(p, out, "neutral", Pick(dark, "800", "400"), Lookup(p, out, "neutral", Pick(dark, "800", "400"), "#979db2")));
    i := Next(p, vars, block, i);
    out := Put(out, "--bg-paper",
               Lookup(p, out, "neutral", Pick(dark, "700", "500"), Lookup(p, out, "neutral", Pick(dark, "700", "500"), "#646b85")));
    i := Next(p, vars, block, i);
    assert block[..i] == block;
  }

  /** Text. */
  method AssignTextColours(p: PreviewPalette, vars: Vars, dark: bool) returns (out: Vars)
    ensures out == AssignAll(p, vars, TextColours(dark))
  {
    ghost var block, i := TextColours(dark), 0;
    out := vars;
    out := Put(out, "--text-primary",
               Lookup(p, out, "neutral", Pick(dark, "300", "900"),
                      Lookup(p, out, "neutral", Pick(dark, "300", "900"), Pick(dark, "#e0e0e0", "#1f2937"))));
    i := Next(p, vars, block, i);
    out := Put(out, "--text-secondary",
               Lookup(p, out, "neutral", Pick(dark, "400", "800"),
                      Lookup(p, out, "neutral", Pick(dark, "400", "800"), Pick(dark, "#cbd5e1", "#374151"))));
    i := Next(p, vars, block, i);
    assert block[..i] == block;
  }

  /** Brands in text. */
  method AssignBrandTexts(p: PreviewPalette, vars: Vars, tertiary: bool, dark: bool) returns (out: Vars)
    ensures out == AssignAll(p, vars, BrandTexts(tertiary, dark))
  {
    ghost var block, i := BrandTexts(tertiary, dark), 0;
    var text := Pick(dark, "300", "700");
    out := vars;
    out := Put(out, "--text-branda", Lookup(p, out, "primary", text, Lookup(p, out, "primary", text, "#7993f2")));
    i := Next(p, vars, block, i);
    out := Put(out, "--text-brandb", Lookup(p, out, "secondary", text, Lookup(p, out, "secondary", text, "#772f7c")));
    i := Next(p, vars, block, i);
    if tertiary {
      out := Put(out, "--text-brandc", Lookup(p, out, "tertiary", text, Lookup(p, out, "tertiary", text, "#667f1d")));
      i := Next(p, vars, block, i);
    }
    assert block[..i] == block;
  }

  /** Feedback colours. */
  method AssignFeedbackColours(p: PreviewPalette, vars: Vars, dark: bool) returns (out: Vars)
    ensures out == AssignAll(p, vars, FeedbackColours(dark))
  {
    ghost var block, i := FeedbackColours(dark), 0;
    var text := Pick(dark, "300", "700");
    out := vars;
    out := Put(out, "--error-main", Lookup(p, out, "red", text, "#ed8e8e"));
    i := Next(p, vars, block, i);
    out := Put(out, "--warning-main", Lookup(p, out, "orange", text, "#edb28e"));
    i := Next(p, vars, block, i);
    out := Put(out, "--info-main", Lookup(p, out, "blue", text, "#8ec7ed"));
    i := Next(p, vars, block, i);
    out := Put(out, "--success-main", Lookup(p, out, "green", text, "#8eeda4"));
    i := Next(p, vars, block, i);
    assert block[..i] == block;
  }

  /** Divider. */
  method AssignDivider(p: PreviewPalette, vars: Vars, dark: bool) returns (out: Vars)
    ensures out == AssignAll(p, vars, Divider(dark))
  {
    ghost var block, i := Divider(dark), 0;
    out := vars;
    out := Put(out, "--divider",
               Lookup(p, out, "neutral", Pick(dark, "500", "700"), Lookup(p, out, "neutral", Pick(dark, "500", "700"), "#646b85")));
    i := Next(p, vars, block, i);
    assert block[..i] == block;
  }


  // The per-shade variables

  predicate EndsInDigit(s: string) {
    s != [] && IsDigit(s[|s| - 1])
  }

  /** The variable of a numeric shade ends in a digit. */
  lemma VarNameEndsInDigit(key: string, shade: string)
    requires Numeric(shade)
    ensures EndsInDigit(VarName(key, shade))
  {
    var x := VarName(key, shade);
    assert x[|x| - 1] == shade[|shade| - 1];
  }

  /** With numeric shades, a variable name determines its colour and its shade. */
  lemma VarNameInjective(g: string, s: string, k: string, t: string)
    requires Numeric(s) && Numeric(t) && VarName(g, s) == VarName(k, t)
    ensures g == k && s == t
  {
    NoLongerColour(g, s, k, t);
    NoLongerColour(k, t, g, s);
    var x := VarName(g, s);
    assert g == x[2..|g| + 2] == k;
    assert s == x[|g| + 3..] == t;
  }

  /** The dash after a longer colour name would fall among the digits of the shorter one's shade. */
  lemma NoLongerColour(g: string, s: string, k: string, t: string)
    requires Numeric(s) && VarName(g, s) == VarName(k, t)
    ensures |k| <= |g|
  {
    var x := VarName(g, s);
    assert x[|k| + 2] == '-';
    assert forall i :: |g| + 3 <= i < |x| ==> x[i] == s[i - |g| - 3];
  }

  /** The shades of any colour of a well-formed palette are well-formed. */
  lemma ShadesOfWellFormed(palette: PreviewPalette, key: string)
    requires WellFormed(palette)
    ensures ShadesWellFormed(ShadesOf(palette, key))
  {
  }

  /** A prefix of well-formed shades is well-formed, and misses the next key. */
  lemma ShadesPrefix(shades: Shades, n: nat)
    requires ShadesWellFormed(shades) && n < |shades|
    ensures ShadesWellFormed(shades[..n]) && shades[n].0 !in Keys(shades[..n])
    ensures Numeric(shades[n].0)
    ensures shades[..n + 1] == shades[..n] + [shades[n]]
  {
    assert forall e :: e in shades[..n] ==> e in shades;
    NextKeyIsNew(shades, n);
  }

  /**
   * After the inner loop over the shades of `key`, the variable of a numeric shade of
   * `key` holds that shade's hex when it is not empty; every other variable is unchanged.
   */
  lemma {:induction false} EmitShadesGet(out: Vars, key: string, shades: Shades, g: string, s: string)
    requires ShadesWellFormed(shades) && Numeric(s)
    ensures Get(EmitShades(out, key, shades), VarName(g, s)) ==
      if g == key && HexOf(shades, s) != "" then Some(HexOf(shades, s)) else Get(out, VarName(g, s))
  {
    if shades != [] {
      var n := |shades| - 1;
      var init, t, h := shades[..n], shades[n].0, shades[n].1;
      ShadesPrefix(shades, n);
      EmitShadesGet(out, key, init, g, s);
      var prev := EmitShades(out, key, init);
      assert EmitShades(out, key, shades) == if h != "" then Put(prev, VarName(key, t), h) else prev;
      HexOfSnoc(init, t, h, s);
      assert shades == init + [(t, h)];
      if h != "" {
        if VarName(key, t) == VarName(g, s) {
          VarNameInjective(key, t, g, s);
        } else {
          PutKeepsOthers(prev, VarName(key, t), h, VarName(g, s));
        }
      }
    }
  }

  /** The hex of a shade once one more shade is added after the others. */
  lemma HexOfSnoc(shades: Shades, t: string, h: string, s: string)
    requires t !in Keys(shades)
    ensures HexOf(shades + [(t, h)], s) == if s == t then h else HexOf(shades, s)
  {
    GetAppend(shades, [(t, h)], s);
  }

  /**
   * After the outer loop over `keys`, the variable of a numeric shade of a colour among
   * `keys` holds that shade's hex when it is not empty; every other variable is unchanged.
   */
  lemma {:induction false} EmitColoursGet(out: Vars, palette: PreviewPalette, keys: seq<string>, g: string, s: string)
    requires WellFormed(palette) && Distinct(keys) && Numeric(s)
    ensures Get(EmitColours(out, palette, keys), VarName(g, s)) ==
      if g in keys && PaletteHex(palette, g, s) != "" then Some(PaletteHex(palette, g, s)) else Get(out, VarName(g, s))
  {
    if keys != [] {
      var n := |keys| - 1;
      var init, key := keys[..n], keys[n];
      assert keys == init + [key];
      assert Distinct(init) && key !in init;
      EmitColoursGet(out, palette, init, g, s);
      ShadesOfWellFormed(palette, key);
      EmitShadesGet(EmitColours(out, palette, init), key, ShadesOf(palette, key), g, s);
    }
  }

  /** Every variable the loops add is the variable of a numeric shade. */
  lemma {:induction false} EmitShadesKeys(out: Vars, key: string, shades: Shades)
    requires ShadesWellFormed(shades) && forall k :: k in Keys(out) ==> EndsInDigit(k)
    ensures forall k :: k in Keys(EmitShades(out, key, shades)) ==> EndsInDigit(k)
  {
    if shades != [] {
      var n := |shades| - 1;
      ShadesPrefix(shades, n);
      EmitShadesKeys(out, key, shades[..n]);
      var prev := EmitShades(out, key, shades[..n]);
      PutKeys(prev, VarName(key, shades[n].0), shades[n].1);
      VarNameEndsInDigit(key, shades[n].0);
    }
  }

  lemma {:induction false} EmitColoursKeys(palette: PreviewPalette, keys: seq<string>)
    requires WellFormed(palette)
    ensures forall k :: k in Keys(EmitColours([], palette, keys)) ==> EndsInDigit(k)
  {
    if keys != [] {
      var n := |keys| - 1;
      EmitColoursKeys(palette, keys[..n]);
      ShadesOfWellFormed(palette, keys[n]);
      EmitShadesKeys(EmitColours([], palette, keys[..n]), keys[n], ShadesOf(palette, keys[n]));
    }
  }

  /**
   * The per-shade variables: one for each numeric shade with a non-empty hex of primary,
   * secondary, neutral and, when shown, tertiary, holding that hex; none for any other
   * colour, and none for an empty hex.
   */
  lemma ShadeVarsGet(palette: PreviewPalette, tertiaryEnabled: bool, g: string, s: string)
    requires WellFormed(palette) && Numeric(s)
    ensures Get(ShadeVars(palette, tertiaryEnabled), VarName(g, s)) ==
      if g in ColourKeys(palette, tertiaryEnabled) && PaletteHex(palette, g, s) != ""
      then Some(PaletteHex(palette, g, s)) else None
  {
    EmitColoursGet([], palette, ColourKeys(palette, tertiaryEnabled), g, s);
  }

  /** A dict whose numeric-shade variables agree with the palette, and whose keys all end in a digit. */
  ghost predicate Emitted(palette: PreviewPalette, sv: Vars) {
    && (forall k :: k in Keys(sv) ==> EndsInDigit(k))
    && (forall g, s :: Numeric(s) && Get(sv, VarName(g, s)).Some? ==> Get(sv, VarName(g, s)).value == PaletteHex(palette, g, s))
  }

  lemma ShadeVarsEmitted(palette: PreviewPalette, tertiaryEnabled: bool)
    requires WellFormed(palette)
    ensures Emitted(palette, ShadeVars(palette, tertiaryEnabled))
  {
    EmitColoursKeys(palette, ColourKeys(palette, tertiaryEnabled));
    forall g, s | Numeric(s)
      ensures Get(ShadeVars(palette, tertiaryEnabled), VarName(g, s)).Some? ==>
        Get(ShadeVars(palette, tertiaryEnabled), VarName(g, s)).value == PaletteHex(palette, g, s)
    {
      ShadeVarsGet(palette, tertiaryEnabled, g, s);
    }
  }

  // The semantic variables

  /** A dict whose keys are all semantic names: none ends in a digit. */
  predicate Named(e: Vars) {
    forall k :: k in Keys(e) ==> !EndsInDigit(k)
  }

  lemma ShadeLiteralsNumeric()
    ensures Numeric("300") && Numeric("400") && Numeric("500") && Numeric("600")
    ensures Numeric("700") && Numeric("800") && Numeric("900")
  {
    assert "300"[0] == '3' && "300"[1] == '0' && "300"[2] == '0';
    assert "400"[0] == '4' && "400"[1] == '0' && "400"[2] == '0';
    assert "500"[0] == '5' && "500"[1] == '0' && "500"[2] == '0';
    assert "600"[0] == '6' && "600"[1] == '0' && "600"[2] == '0';
    assert "700"[0] == '7' && "700"[1] == '0' && "700"[2] == '0';
    assert "800"[0] == '8' && "800"[1] == '0' && "800"[2] == '0';
    assert "900"[0] == '9' && "900"[1] == '0' && "900"[2] == '0';
  }

  /**
   * `get` never needs the variables already emitted: a shade variable exists only where the
   * palette has that hex, so the lookup is the palette's hex or the fallback.
   */
  lemma LookupIsPaletteOr(palette: PreviewPalette, sv: Vars, e: Vars, g: string, s: string, fallback: string)
    requires Emitted(palette, sv) && Named(e) && Numeric(s)
    ensures Lookup(palette, sv + e, g, s, fallback) == PaletteOr(palette, g, s, fallback)
  {
    var x := VarName(g, s);
    GetAppend(sv, e, x);
    VarNameEndsInDigit(g, s);
    assert x !in Keys(e);
  }

  /** Assigning a semantic name not yet present appends it after the others. */
  lemma AssignNew(sv: Vars, e: Vars, name: string, v: string)
    requires (forall k :: k in Keys(sv) ==> EndsInDigit(k)) && name !in Keys(e) && !EndsInDigit(name)
    ensures Put(sv + e, name, v) == sv + (e + [(name, v)])
  {
    AppendNew(sv, e, name, v);
  }

  /** One more semantic entry: its name joins the keys, and the entries stay semantic. */
  lemma Extend(e: Vars, x: (string, string))
    ensures Keys(e + [x]) == Keys(e) + [x.0]
    ensures Named(e) && !EndsInDigit(x.0) ==> Named(e + [x])
  {
    KeysAppend(e, [x]);
  }

  lemma AppendNew(sv: Vars, e: Vars, name: string, v: string)
    requires name !in Keys(sv) && name !in Keys(e)
    ensures Put(sv + e, name, v) == sv + (e + [(name, v)])
  {
    assert name !in Keys(sv + e) by {
      KeysAppend(sv, e);
    }
    PutNew(sv + e, name, v);
    Append1(sv, e, (name, v));
  }

  lemma Append1<T>(a: seq<T>, b: seq<T>, x: T)
    ensures a + b + [x] == a + (b + [x])
  {
  }


  /** One more assignment of a block, as the method tracks them. */
  lemma Next(palette: PreviewPalette, start: Vars, block: seq<Assignment>, i: nat) returns (j: nat)
    requires i < |block|
    ensures j == i + 1
    ensures AssignAll(palette, start, block[..j]) == Assign(palette, AssignAll(palette, start, block[..i]), block[i])
  {
    j := i + 1;
    assert block[..j][..i] == block[..i];
  }


  /** The assignments `xs` and then `ys` are the assignments `xs + ys`. */
  lemma {:induction false} FoldAppend<S, A>(step: (S, A) -> S, start: S, xs: seq<A>, ys: seq<A>)
    ensures Fold(step, start, xs + ys) == Fold(step, Fold(step, start, xs), ys)
  {
    if ys == [] {
      assert xs + ys == xs;
    } else {
      var zs := xs + ys;
      FoldAppend(step, start, xs, ys[..|ys| - 1]);
      assert zs[..|zs| - 1] == xs + ys[..|ys| - 1];
    }
  }

  lemma AssignAllAppend(palette: PreviewPalette, out: Vars, xs: seq<Assignment>, ys: seq<Assignment>)
    ensures AssignAll(palette, out, xs + ys) == AssignAll(palette, AssignAll(palette, out, xs), ys)
  {
    FoldAppend(Step(palette), out, xs, ys);
  }


  /** The semantic assignments, block by block. */
  lemma SemanticBlocks(palette: PreviewPalette, sv: Vars, tertiary: bool, dark: bool)
    ensures AssignAll(palette, sv, SemanticAssignments(tertiary, dark))
         == AssignAll(palette, AssignAll(palette, AssignAll(palette, AssignAll(palette, AssignAll(palette,
              AssignAll(palette, sv, BrandMains(tertiary, dark)), Backgrounds(dark)), TextColours(dark)),
              BrandTexts(tertiary, dark)), FeedbackColours(dark)), Divider(dark))
  {
    var b, bg, t, bt, f, d := BrandMains(tertiary, dark), Backgrounds(dark), TextColours(dark),
                              BrandTexts(tertiary, dark), FeedbackColours(dark), Divider(dark);
    AssignAllAppend(palette, sv, b + bg + t + bt + f, d);
    AssignAllAppend(palette, sv, b + bg + t + bt, f);
    AssignAllAppend(palette, sv, b + bg + t, bt);
    AssignAllAppend(palette, sv, b + bg, t);
    AssignAllAppend(palette, sv, b, bg);
  }

  /** The names the assignments give values to, in order. */
  function Names(assignments: seq<Assignment>): (r: seq<string>)
    ensures |r| == |assignments| && forall i :: 0 <= i < |r| ==> r[i] == assignments[i].name
  {
    seq(|assignments|, i requires 0 <= i < |assignments| => assignments[i].name)
  }

  /**
   * Assignments whose shades are numeric, whose names end in no digit (so that none is
   * the name of a per-shade variable), and whose names are all different.
   */
  predicate Valid(assignments: seq<Assignment>) {
    && Distinct(Names(assignments))
    && (forall a :: a in assignments ==> !EndsInDigit(a.name))
    && NumericShades(assignments)
  }

  predicate NumericShades(assignments: seq<Assignment>) {
    forall a :: a in assignments ==> Numeric(a.shade) && (a.second.Some? ==> Numeric(a.second.value))
  }

  /**
   * The value a semantic variable is meant to hold: the palette's hex of its shade, else
   * the palette's hex of its second shade, else its fallback.
   */
  function Intended(palette: PreviewPalette, a: Assignment): (r: string)
    ensures PaletteHex(palette, a.group, a.shade) != "" ==> r == PaletteHex(palette, a.group, a.shade)
    ensures PaletteHex(palette, a.group, a.shade) == "" && a.second.None? ==> r == a.fallback
    ensures PaletteHex(palette, a.group, a.shade) == "" && a.second.Some? ==> r == PaletteOr(palette, a.group, a.second.value, a.fallback)
  {
    var inner := if a.second.Some? then PaletteOr(palette, a.group, a.second.value, a.fallback) else a.fallback;
    PaletteOr(palette, a.group, a.shade, inner)
  }

  /** The semantic variables as they are meant to come out: each name with its intended value, in order. */
  function Entries(palette: PreviewPalette, assignments: seq<Assignment>): (r: Vars)
    ensures |r| == |assignments|
    ensures forall i :: 0 <= i < |r| ==> r[i] == (assignments[i].name, Intended(palette, assignments[i]))
  {
    seq(|assignments|, i requires 0 <= i < |assignments| => (assignments[i].name, Intended(palette, assignments[i])))
  }

  lemma EntriesKeys(palette: PreviewPalette, assignments: seq<Assignment>)
    ensures Keys(Entries(palette, assignments)) == Names(assignments)
  {
    var k, n := Keys(Entries(palette, assignments)), Names(assignments);
    assert |k| == |n|;
    forall i | 0 <= i < |k| ensures k[i] == n[i] {
    }
  }

  lemma EntriesSnoc(palette: PreviewPalette, assignments: seq<Assignment>)
    requires assignments != []
    ensures var n := |assignments| - 1;
      Entries(palette, assignments) == Entries(palette, assignments[..n]) + [(assignments[n].name, Intended(palette, assignments[n]))]
  {
    var n := |assignments| - 1;
    var l, r := Entries(palette, assignments), Entries(palette, assignments[..n]) + [(assignments[n].name, Intended(palette, assignments[n]))];
    assert |l| == |r|;
    forall i | 0 <= i < |l| ensures l[i] == r[i] {
      if i < n {
        assert assignments[..n][i] == assignments[i];
      }
    }
  }

  lemma ValidPrefix(assignments: seq<Assignment>, n: nat)
    requires Valid(assignments) && n <= |assignments|
    ensures Valid(assignments[..n])
  {
    var xs, ys := Names(assignments[..n]), Names(assignments);
    forall i, j | 0 <= i < j < |xs| ensures xs[i] != xs[j] {
      assert xs[i] == ys[i] && xs[j] == ys[j];
    }
  }

  /** The last of valid assignments is named like none before it. */
  lemma ValidLastIsNew(assignments: seq<Assignment>)
    requires Valid(assignments) && assignments != []
    ensures assignments[|assignments| - 1].name !in Names(assignments[..|assignments| - 1])
  {
    var n := |assignments| - 1;
    var xs := Names(assignments[..n]);
    forall i | 0 <= i < n ensures xs[i] != assignments[n].name {
      assert Names(assignments)[i] == xs[i];
    }
  }

  /** The entries of valid assignments are semantic names. */
  lemma EntriesNamed(palette: PreviewPalette, assignments: seq<Assignment>)
    requires Valid(assignments)
    ensures Named(Entries(palette, assignments))
  {
    EntriesKeys(palette, assignments);
    forall k | k in Keys(Entries(palette, assignments)) ensures !EndsInDigit(k) {
      var i :| 0 <= i < |assignments| && Names(assignments)[i] == k;
      assert assignments[i] in assignments;
    }
  }

  /** Over the shade variables and semantic entries, `get` reads only the palette. */
  lemma EvaluateIsIntended(palette: PreviewPalette, sv: Vars, e: Vars, a: Assignment)
    requires Emitted(palette, sv) && Named(e) && Numeric(a.shade) && (a.second.Some? ==> Numeric(a.second.value))
    ensures Evaluate(palette, sv + e, a) == Intended(palette, a)
  {
    if a.second.Some? {
      LookupIsPaletteOr(palette, sv, e, a.group, a.second.value, a.fallback);
      LookupIsPaletteOr(palette, sv, e, a.group, a.shade, PaletteOr(palette, a.group, a.second.value, a.fallback));
    } else {
      LookupIsPaletteOr(palette, sv, e, a.group, a.shade, a.fallback);
    }
  }

  /**
   * After the per-shade variables, valid assignments each append their name with its
   * intended value: `get` never picks up a variable emitted before, and no assignment
   * overwrites another.
   */
  lemma {:induction false} AssignAllShape(palette: PreviewPalette, sv: Vars, assignments: seq<Assignment>)
    requires Emitted(palette, sv) && Valid(assignments)
    ensures AssignAll(palette, sv, assignments) == sv + Entries(palette, assignments)
  {
    if assignments == [] {
      assert Entries(palette, assignments) == [];
    } else {
      var n := |assignments| - 1;
      var init, last := assignments[..n], assignments[n];
      var e := Entries(palette, init);
      ValidPrefix(assignments, n);
      AssignAllShape(palette, sv, init);
      EntriesNamed(palette, init);
      assert last in assignments;
      EvaluateIsIntended(palette, sv, e, last);
      ValidLastIsNew(assignments);
      EntriesKeys(palette, init);
      AssignNew(sv, e, last.name, Intended(palette, last));
      EntriesSnoc(palette, assignments);
    }
  }

  // The semantic assignments of the provider

  /** The names of the semantic variables, in the order they are assigned. */
  function SemanticNames(tertiary: bool): seq<string> {
    ["--primary-main", "--secondary-main"] + (if tertiary then ["--tertiary-main"] else [])
    + ["--bg-default", "--bg-paper"]
    + ["--text-primary", "--text-secondary"]
    + ["--text-branda", "--text-brandb"] + (if tertiary then ["--text-brandc"] else [])
    + ["--error-main", "--warning-main", "--info-main", "--success-main"]
    + ["--divider"]
  }

  lemma NamesAppend(xs: seq<Assignment>, ys: seq<Assignment>)
    ensures Names(xs + ys) == Names(xs) + Names(ys)
  {
    var l, r := Names(xs + ys), Names(xs) + Names(ys);
    assert |l| == |r|;
    forall i | 0 <= i < |l| ensures l[i] == r[i] {
    }
  }

  lemma NumericShadesAppend(xs: seq<Assignment>, ys: seq<Assignment>)
    requires NumericShades(xs) && NumericShades(ys)
    ensures NumericShades(xs + ys)
  {
  }

  /** The provider assigns exactly the semantic names, in order. */
  lemma SemanticNamesOf(tertiary: bool, dark: bool)
    ensures Names(SemanticAssignments(tertiary, dark)) == SemanticNames(tertiary)
  {
    var b, bg, t, bt, f, d := BrandMains(tertiary, dark), Backgrounds(dark), TextColours(dark),
                              BrandTexts(tertiary, dark), FeedbackColours(dark), Divider(dark);
    BlockNames(tertiary, dark);
    NamesAppend(b, bg);
    NamesAppend(b + bg, t);
    NamesAppend(b + bg + t, bt);
    NamesAppend(b + bg + t + bt, f);
    NamesAppend(b + bg + t + bt + f, d);
  }

  lemma BlockNames(tertiary: bool, dark: bool)
    ensures Names(BrandMains(tertiary, dark)) == ["--primary-main", "--secondary-main"] + (if tertiary then ["--tertiary-main"] else [])
    ensures Names(Backgrounds(dark)) == ["--bg-default", "--bg-paper"]
    ensures Names(TextColours(dark)) == ["--text-primary", "--text-secondary"]
    ensures Names(BrandTexts(tertiary, dark)) == ["--text-branda", "--text-brandb"] + (if tertiary then ["--text-brandc"] else [])
    ensures Names(FeedbackColours(dark)) == ["--error-main", "--warning-main", "--info-main", "--success-main"]
    ensures Names(Divider(dark)) == ["--divider"]
  {
  }

  /** No two semantic names are equal, and none ends in a digit. */
  lemma SemanticNamesDistinct(tertiary: bool)
    ensures Distinct(SemanticNames(tertiary))
    ensures forall n :: n in SemanticNames(tertiary) ==> !EndsInDigit(n)
  {
    SemanticNamesSpelled();
    SpelledNamesDistinct();
    SpelledNamesEndInLetters();
  }

  /** The semantic names written out, with and without the tertiary ones. */
  const NamesWithTertiary: seq<string> :=
    ["--primary-main", "--secondary-main", "--tertiary-main", "--bg-default", "--bg-paper",
     "--text-primary", "--text-secondary", "--text-branda", "--text-brandb", "--text-brandc",
     "--error-main", "--warning-main", "--info-main", "--success-main", "--divider"]
  const NamesWithoutTertiary: seq<string> :=
    ["--primary-main", "--secondary-main", "--bg-default", "--bg-paper", "--text-primary",
     "--text-secondary", "--text-branda", "--text-brandb", "--error-main", "--warning-main",
     "--info-main", "--success-main", "--divider"]

  lemma SemanticNamesSpelled()
    ensures SemanticNames(true) == NamesWithTertiary && SemanticNames(false) == NamesWithoutTertiary
  {
  }

  lemma SpelledNamesDistinct()
    ensures Distinct(NamesWithTertiary) && Distinct(NamesWithoutTertiary)
  {
    NameKeys();
    DistinctByKey(NamesWithTertiary);
    DistinctByKey(NamesWithoutTertiary);
  }

  lemma SpelledNamesEndInLetters()
    ensures forall n :: n in NamesWithTertiary ==> !EndsInDigit(n)
    ensures forall n :: n in NamesWithoutTertiary ==> !EndsInDigit(n)
  {
  }

  /**
   * A number that tells the semantic names apart: their length, third character and last
   * character.
   */
  function NameKey(s: string): int {
    if |s| < 3 then |s| else 1000000 * |s| + 1000 * (s[2] as int) + s[|s| - 1] as int
  }

  lemma NameKeys()
    ensures NameKey("--primary-main") == 14112110
      && NameKey("--secondary-main") == 16115110
      && NameKey("--tertiary-main") == 15116110
      && NameKey("--bg-default") == 12098116
      && NameKey("--bg-paper") == 10098114
      && NameKey("--text-primary") == 14116121
      && NameKey("--text-secondary") == 16116121
      && NameKey("--text-branda") == 13116097
      && NameKey("--text-brandb") == 13116098
      && NameKey("--text-brandc") == 13116099
      && NameKey("--error-main") == 12101110
      && NameKey("--warning-main") == 14119110
      && NameKey("--info-main") == 11105110
      && NameKey("--success-main") == 14115110
      && NameKey("--divider") == 9100114
  {
  }

  lemma DistinctByKey(names: seq<string>)
    requires forall i, j :: 0 <= i < j < |names| ==> NameKey(names[i]) != NameKey(names[j])
    ensures Distinct(names)
  {
  }

  /** Every shade the semantic assignments read is numeric. */
  lemma SemanticShadesNumeric(tertiary: bool, dark: bool)
    ensures NumericShades(SemanticAssignments(tertiary, dark))
  {
    var b, bg, t, bt, f, d := BrandMains(tertiary, dark), Backgrounds(dark), TextColours(dark),
                              BrandTexts(tertiary, dark), FeedbackColours(dark), Divider(dark);
    BlockShadesNumeric(tertiary, dark);
    NumericShadesAppend(b, bg);
    NumericShadesAppend(b + bg, t);
    NumericShadesAppend(b + bg + t, bt);
    NumericShadesAppend(b + bg + t + bt, f);
    NumericShadesAppend(b + bg + t + bt + f, d);
  }

  lemma BlockShadesNumeric(tertiary: bool, dark: bool)
    ensures NumericShades(BrandMains(tertiary, dark)) && NumericShades(Backgrounds(dark))
    ensures NumericShades(TextColours(dark)) && NumericShades(BrandTexts(tertiary, dark))
    ensures NumericShades(FeedbackColours(dark)) && NumericShades(Divider(dark))
  {
    BrandShadesNumeric(tertiary, dark);
    NeutralShadesNumeric(dark);
    FeedbackShadesNumeric(dark);
  }

  lemma BrandShadesNumeric(tertiary: bool, dark: bool)
    ensures NumericShades(BrandMains(tertiary, dark)) && NumericShades(BrandTexts(tertiary, dark))
  {
    ShadeLiteralsNumeric();
    assert Numeric(Pick(dark, "600", "500")) && Numeric(Pick(dark, "300", "700"));
  }

  lemma NeutralShadesNumeric(dark: bool)
    ensures NumericShades(Backgrounds(dark)) && NumericShades(TextColours(dark)) && NumericShades(Divider(dark))
  {
    ShadeLiteralsNumeric();
    assert Numeric(Pick(dark, "800", "400")) && Numeric(Pick(dark, "700", "500"));
    assert Numeric(Pick(dark, "300", "900")) && Numeric(Pick(dark, "400", "800"));
    assert Numeric(Pick(dark, "500", "700"));
  }

  lemma FeedbackShadesNumeric(dark: bool)
    ensures NumericShades(FeedbackColours(dark))
  {
    ShadeLiteralsNumeric();
    assert Numeric(Pick(dark, "300", "700"));
  }


  lemma SemanticValid(tertiary: bool, dark: bool)
    ensures Valid(SemanticAssignments(tertiary, dark))
  {
    SemanticNamesOf(tertiary, dark);
    SemanticNamesDistinct(tertiary);
    SemanticShadesNumeric(tertiary, dark);
    ValidByNames(SemanticAssignments(tertiary, dark), SemanticNames(tertiary));
  }

  lemma ValidByNames(xs: seq<Assignment>, names: seq<string>)
    requires Names(xs) == names && Distinct(names) && (forall n :: n in names ==> !EndsInDigit(n)) && NumericShades(xs)
    ensures Valid(xs)
  {
    forall a | a in xs ensures !EndsInDigit(a.name) {
      var i :| 0 <= i < |xs| && xs[i] == a;
      assert names[i] == a.name;
    }
  }


  /**
   * For a well-formed palette, `cssVars` is the per-shade variables followed by the
   * semantic variables, each holding its intended value.
   */
  lemma CssVarsShape(palette: PreviewPalette, tertiaryEnabled: bool, mode: Mode)
    requires WellFormed(palette)
    ensures CssVarsOf(Some(palette), tertiaryEnabled, mode)
         == ShadeVars(palette, tertiaryEnabled) + Entries(palette, SemanticAssignments(ShowsTertiary(palette, tertiaryEnabled), mode == Dark))
  {
    ShadeVarsEmitted(palette, tertiaryEnabled);
    SemanticValid(ShowsTertiary(palette, tertiaryEnabled), mode == Dark);
    AssignAllShape(palette, ShadeVars(palette, tertiaryEnabled), SemanticAssignments(ShowsTertiary(palette, tertiaryEnabled), mode == Dark));
  }

  /**
   * The variables of `cssVars` are the per-shade ones followed by the semantic names; the
   * tertiary ones are there exactly when the tertiary colour is shown.
   */
  lemma CssVarsKeys(palette: PreviewPalette, tertiaryEnabled: bool, mode: Mode)
    requires WellFormed(palette)
    ensures Keys(CssVarsOf(Some(palette), tertiaryEnabled, mode))
         == Keys(ShadeVars(palette, tertiaryEnabled)) + SemanticNames(ShowsTertiary(palette, tertiaryEnabled))
    ensures "--tertiary-main" in Keys(CssVarsOf(Some(palette), tertiaryEnabled, mode)) <==> ShowsTertiary(palette, tertiaryEnabled)
    ensures "--text-brandc" in Keys(CssVarsOf(Some(palette), tertiaryEnabled, mode)) <==> ShowsTertiary(palette, tertiaryEnabled)
  {
    var tertiary := ShowsTertiary(palette, tertiaryEnabled);
    var sv, xs := ShadeVars(palette, tertiaryEnabled), SemanticAssignments(tertiary, mode == Dark);
    CssVarsShape(palette, tertiaryEnabled, mode);
    KeysAppend(sv, Entries(palette, xs));
    EntriesKeys(palette, xs);
    SemanticNamesOf(tertiary, mode == Dark);
    ShadeVarsEmitted(palette, tertiaryEnabled);
    TertiaryNames(tertiary);
  }

  /** The tertiary names are semantic names exactly when the tertiary colour is shown. */
  lemma TertiaryNames(tertiary: bool)
    ensures !EndsInDigit("--tertiary-main") && !EndsInDigit("--text-brandc")
    ensures "--tertiary-main" in SemanticNames(tertiary) <==> tertiary
    ensures "--text-brandc" in SemanticNames(tertiary) <==> tertiary
  {
  }

  /** Each semantic variable ends up with its intended value, whatever was emitted before it. */
  lemma SemanticValue(palette: PreviewPalette, tertiaryEnabled: bool, mode: Mode, a: Assignment)
    requires WellFormed(palette) && a in SemanticAssignments(ShowsTertiary(palette, tertiaryEnabled), mode == Dark)
    ensures Get(CssVarsOf(Some(palette), tertiaryEnabled, mode), a.name) == Some(Intended(palette, a))
  {
    CssVarsShape(palette, tertiaryEnabled, mode);
    SemanticValid(ShowsTertiary(palette, tertiaryEnabled), mode == Dark);
    ShadeVarsEmitted(palette, tertiaryEnabled);
    EntryValue(palette, ShadeVars(palette, tertiaryEnabled), SemanticAssignments(ShowsTertiary(palette, tertiaryEnabled), mode == Dark), a);
  }

  lemma EntryValue(palette: PreviewPalette, sv: Vars, xs: seq<Assignment>, a: Assignment)
    requires Emitted(palette, sv) && Valid(xs) && a in xs
    ensures Get(sv + Entries(palette, xs), a.name) == Some(Intended(palette, a))
  {
    var e := Entries(palette, xs);
    GetAppend(sv, e, a.name);
    var i :| 0 <= i < |xs| && xs[i] == a;
    EntriesKeys(palette, xs);
    assert DistinctKeys(e) by {
      forall j, k | 0 <= j < k < |e| ensures e[j].0 != e[k].0 {
        assert Names(xs)[j] == e[j].0 && Names(xs)[k] == e[k].0;
      }
    }
    GetDistinct(e, i);
  }

  /**
   * A per-shade variable is the palette's non-empty hex of a shown colour, or absent:
   * no semantic variable overwrites one.
   */
  lemma ShadeVarValue(palette: PreviewPalette, tertiaryEnabled: bool, mode: Mode, g: string, s: string)
    requires WellFormed(palette) && Numeric(s)
    ensures Get(CssVarsOf(Some(palette), tertiaryEnabled, mode), VarName(g, s)) ==
      if g in ColourKeys(palette, tertiaryEnabled) && PaletteHex(palette, g, s) != "" then Some(PaletteHex(palette, g, s)) else None
  {
    var xs := SemanticAssignments(ShowsTertiary(palette, tertiaryEnabled), mode == Dark);
    var sv, e := ShadeVars(palette, tertiaryEnabled), Entries(palette, xs);
    CssVarsShape(palette, tertiaryEnabled, mode);
    SemanticValid(ShowsTertiary(palette, tertiaryEnabled), mode == Dark);
    EntriesNamed(palette, xs);
    VarNameEndsInDigit(g, s);
    GetAppend(sv, e, VarName(g, s));
    ShadeVarsGet(palette, tertiaryEnabled, g, s);
  }

  /**
   * The primary main colour: in dark mode the palette's 600, in light mode its 500, else
   * its 500, else the default brand blue.
   */
  lemma PrimaryMainValue(palette: PreviewPalette, tertiaryEnabled: bool, mode: Mode)
    requires WellFormed(palette)
    ensures Get(CssVarsOf(Some(palette), tertiaryEnabled, mode), "--primary-main")
         == Some(PaletteOr(palette, "primary", if mode == Dark then "600" else "500", PaletteOr(palette, "primary", "500", "#4f68c5")))
  {
    var xs := SemanticAssignments(ShowsTertiary(palette, tertiaryEnabled), mode == Dark);
    assert xs[0] == Nested("--primary-main", "primary", Pick(mode == Dark, "600", "500"), "500", "#4f68c5");
    SemanticValue(palette, tertiaryEnabled, mode, xs[0]);
  }
}
