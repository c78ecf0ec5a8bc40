/**
 * The part of `generate_palette` that both generators share (backend/generator/generator.py
 * and app/generator.py): which seeds are converted, which named colours the palette gets,
 * in which order, and from which seed each is derived. The two generators differ only in
 * the shade function they apply to each seed, so the assembly is generic in it.
 */
module PaletteAssembly {
  import opened Wrappers
  import opened Text
  import opened Dict
  import opened ColorCodec

  /** The supporting colours and their fixed hues, in the order of the `supporting_colors` dict. */
  const SupportingHues: seq<(string, real)> := [("Green", 134.0), ("Orange", 23.0), ("Red", 0.0), ("Blue", 204.0)]

  /** Neutral keeps the primary hue at saturation 15 and brightness 70. */
  function NeutralSeed(p: Hsb): Hsb {
    Hsb(p.h, 15.0, 70.0)
  }

  /** A supporting colour: a fixed hue with the primary's saturation - 10 and brightness - 2, not clamped. */
  function SupportingSeed(p: Hsb, hue: real): Hsb {
    Hsb(hue, p.s - 10.0, p.b - 2.0)
  }

  /** The `supporting_colors` dict built from the primary seed. */
  function SupportingSeeds(p: Hsb): (r: seq<(string, Hsb)>)
    ensures |r| == |SupportingHues|
    ensures forall i :: 0 <= i < |r| ==> r[i] == (SupportingHues[i].0, SupportingSeed(p, SupportingHues[i].1))
  {
    seq(|SupportingHues|, i requires 0 <= i < |SupportingHues| => (SupportingHues[i].0, SupportingSeed(p, SupportingHues[i].1)))
  }

  function OptionalEntry(name: string, o: Option<Hsb>): seq<(string, Hsb)> {
    if o.Some? then [(name, o.value)] else []
  }

  /** The entries written before the supporting loop: Primary, the optional ones, Neutral. */
  function BrandSeeds(p: Hsb, s: Option<Hsb>, t: Option<Hsb>): seq<(string, Hsb)> {
    [("Primary", p)] + OptionalEntry("Secondary", s) + OptionalEntry("Tertiary", t) + [("Neutral", NeutralSeed(p))]
  }

  /** Every named seed of a palette, in the order `generate_palette` inserts them. */
  function NamedSeeds(p: Hsb, s: Option<Hsb>, t: Option<Hsb>): seq<(string, Hsb)> {
    BrandSeeds(p, s, t) + SupportingSeeds(p)
  }

  function OptionalName(name: string, present: bool): seq<string> {
    if present then [name] else []
  }

  /** The colour names of a palette, in insertion order. */
  function PaletteNames(hasSecondary: bool, hasTertiary: bool): seq<string> {
    ["Primary"] + OptionalName("Secondary", hasSecondary) + OptionalName("Tertiary", hasTertiary)
      + ["Neutral", "Green", "Orange", "Red", "Blue"]
  }

  /**
   * The palette's colour names, in order: Primary, Secondary exactly when a secondary seed
   * is given, Tertiary exactly when a tertiary seed is given, then Neutral, Green, Orange,
   * Red and Blue.
   */
  lemma NamedSeedsOrder(p: Hsb, s: Option<Hsb>, t: Option<Hsb>)
    ensures Keys(NamedSeeds(p, s, t)) == PaletteNames(s.Some?, t.Some?)
  {
    var primary, secondary := [("Primary", p)], OptionalEntry("Secondary", s);
    var tertiary, neutral := OptionalEntry("Tertiary", t), [("Neutral", NeutralSeed(p))];
    KeysAppend(primary + secondary + tertiary + neutral, SupportingSeeds(p));
    KeysAppend(primary + secondary + tertiary, neutral);
    KeysAppend(primary + secondary, tertiary);
    KeysAppend(primary, secondary);
    SupportingKeys(p);
  }

  lemma SupportingKeys(p: Hsb)
    ensures Keys(SupportingSeeds(p)) == ["Green", "Orange", "Red", "Blue"]
  {
  }

  /** No colour name occurs twice in a palette. */
  lemma NamedSeedsDistinct(p: Hsb, s: Option<Hsb>, t: Option<Hsb>)
    ensures DistinctKeys(NamedSeeds(p, s, t))
  {
    var r := NamedSeeds(p, s, t);
    var initials := ['P'] + (if s.Some? then ['S'] else []) + (if t.Some? then ['T'] else []) + ['N', 'G', 'O', 'R', 'B'];
    NamedSeedsInitials(p, s, t);
    forall i, j | 0 <= i < j < |r| ensures r[i].0 != r[j].0 {
      assert r[i].0[0] == initials[i] && r[j].0[0] == initials[j];
    }
  }

  /** The colour names start with P, S, T, N, G, O, R and B: no two alike. */
  lemma NamedSeedsInitials(p: Hsb, s: Option<Hsb>, t: Option<Hsb>)
    ensures var r := NamedSeeds(p, s, t);
      var initials := ['P'] + (if s.Some? then ['S'] else []) + (if t.Some? then ['T'] else []) + ['N', 'G', 'O', 'R', 'B'];
      |r| == |initials| && forall i :: 0 <= i < |r| ==> |r[i].0| > 0 && r[i].0[0] == initials[i]
  {
    NamedSeedsPositions(p, s, t);
  }

  /**
   * Looking names up: Primary, Secondary and Tertiary are the given seeds; Neutral is
   * (primary hue, 15, 70); the supporting colours have hues 134, 23, 0 and 204 with the
   * primary's saturation - 10 and brightness - 2.
   */
  lemma NamedSeedsLookup(p: Hsb, s: Option<Hsb>, t: Option<Hsb>)
    ensures var r := NamedSeeds(p, s, t);
      && Get(r, "Primary") == Some(p) && Get(r, "Secondary") == s && Get(r, "Tertiary") == t
      && Get(r, "Neutral") == Some(Hsb(p.h, 15.0, 70.0))
      && Get(r, "Green") == Some(Hsb(134.0, p.s - 10.0, p.b - 2.0))
      && Get(r, "Orange") == Some(Hsb(23.0, p.s - 10.0, p.b - 2.0))
      && Get(r, "Red") == Some(Hsb(0.0, p.s - 10.0, p.b - 2.0))
      && Get(r, "Blue") == Some(Hsb(204.0, p.s - 10.0, p.b - 2.0))
  {
    BrandLookup(p, s, t);
    SupportingLookups(p, s, t);
  }

  lemma SupportingLookups(p: Hsb, s: Option<Hsb>, t: Option<Hsb>)
    ensures var r := NamedSeeds(p, s, t);
      && Get(r, "Green") == Some(Hsb(134.0, p.s - 10.0, p.b - 2.0))
      && Get(r, "Orange") == Some(Hsb(23.0, p.s - 10.0, p.b - 2.0))
      && Get(r, "Red") == Some(Hsb(0.0, p.s - 10.0, p.b - 2.0))
      && Get(r, "Blue") == Some(Hsb(204.0, p.s - 10.0, p.b - 2.0))
  {
    SupportingLookup(p, s, t, 0, "Green", 134.0);
    SupportingLookup(p, s, t, 1, "Orange", 23.0);
    SupportingLookup(p, s, t, 2, "Red", 0.0);
    SupportingLookup(p, s, t, 3, "Blue", 204.0);
  }

  lemma BrandLookup(p: Hsb, s: Option<Hsb>, t: Option<Hsb>)
    ensures var r := NamedSeeds(p, s, t);
      && Get(r, "Primary") == Some(p) && Get(r, "Secondary") == s && Get(r, "Tertiary") == t
      && Get(r, "Neutral") == Some(NeutralSeed(p))
  {
    var r := NamedSeeds(p, s, t);
    NamedSeedsDistinct(p, s, t);
    GetDistinct(r, 0);
    GetDistinct(r, |BrandSeeds(p, s, t)| - 1);
    SecondaryLookup(p, s, t);
    TertiaryLookup(p, s, t);
  }

  lemma SecondaryLookup(p: Hsb, s: Option<Hsb>, t: Option<Hsb>)
    ensures Get(NamedSeeds(p, s, t), "Secondary") == s
  {
    var r := NamedSeeds(p, s, t);
    if s.Some? {
      NamedSeedsDistinct(p, s, t);
      assert r[1] == ("Secondary", s.value);
      GetDistinct(r, 1);
    } else {
      NamedSeedsOrder(p, s, t);
      assert "Secondary" !in Keys(r);
    }
  }

  lemma TertiaryLookup(p: Hsb, s: Option<Hsb>, t: Option<Hsb>)
    ensures Get(NamedSeeds(p, s, t), "Tertiary") == t
  {
    var r := NamedSeeds(p, s, t);
    if t.Some? {
      NamedSeedsDistinct(p, s, t);
      var before := [("Primary", p)] + OptionalEntry("Secondary", s);
      assert r[|before|] == ("Tertiary", t.value);
      GetDistinct(r, |before|);
    } else {
      NamedSeedsOrder(p, s, t);
      assert "Tertiary" !in Keys(r);
    }
  }

  lemma SupportingLookup(p: Hsb, s: Option<Hsb>, t: Option<Hsb>, i: nat, name: string, hue: real)
    requires i < |SupportingHues| && SupportingHues[i] == (name, hue)
    ensures Get(NamedSeeds(p, s, t), name) == Some(Hsb(hue, p.s - 10.0, p.b - 2.0))
  {
    var r := NamedSeeds(p, s, t);
    NamedSeedsDistinct(p, s, t);
    var n := |BrandSeeds(p, s, t)|;
    assert r[n + i] == SupportingSeeds(p)[i] == (name, Hsb(hue, p.s - 10.0, p.b - 2.0));
    GetDistinct(r, n + i);
  }

  /** Where each named seed sits: the brand seeds first, in order, then the supporting ones. */
  lemma NamedSeedsPositions(p: Hsb, s: Option<Hsb>, t: Option<Hsb>)
    ensures var r, n := NamedSeeds(p, s, t), |BrandSeeds(p, s, t)|;
      && n == 2 + |OptionalEntry("Secondary", s)| + |OptionalEntry("Tertiary", t)|
      && |r| == n + |SupportingHues|
      && r[0] == ("Primary", p)
      && (s.Some? ==> r[1] == ("Secondary", s.value))
      && (t.Some? ==> r[n - 2] == ("Tertiary", t.value))
      && r[n - 1] == ("Neutral", NeutralSeed(p))
      && forall i :: 0 <= i < |SupportingHues| ==> r[n + i] == SupportingSeeds(p)[i]
  {
  }

  lemma BrandPositions(p: Hsb, s: Option<Hsb>, t: Option<Hsb>)
    ensures var r, n := NamedSeeds(p, s, t), |BrandSeeds(p, s, t)|;
      && n == 2 + |OptionalEntry("Secondary", s)| + |OptionalEntry("Tertiary", t)| && n < |r|
      && r[0] == ("Primary", p)
      && (s.Some? ==> r[1] == ("Secondary", s.value))
      && (t.Some? ==> r[n - 2] == ("Tertiary", t.value))
      && r[n - 1] == ("Neutral", NeutralSeed(p))
  {
    NamedSeedsPositions(p, s, t);
  }

  /**
   * `generate_palette`'s dict building: Primary, then Secondary and Tertiary when given,
   * then Neutral, then one entry per supporting colour in a loop; each value is the
   * shade ramp of its seed.
   */
  method AssemblePalette<R>(shades: Hsb -> R, p: Hsb, s: Option<Hsb>, t: Option<Hsb>)
    returns (palette: seq<(string, R)>)
    ensures palette == MapValues(NamedSeeds(p, s, t), shades)
  {
    NamedSeedsDistinct(p, s, t);
    palette := PutBrandSeeds(shades, p, s, t);
    var supporting := SupportingSeeds(p);
    ghost var named := NamedSeeds(p, s, t);
    ghost var k := |BrandSeeds(p, s, t)|;
    assert named == BrandSeeds(p, s, t) + supporting;
    assert forall i :: 0 <= i < |supporting| ==> named[k + i] == supporting[i];
    palette := PutEach(palette, supporting, shades, named, k);
  }

  /**
   * The supporting loop `for name, hsb in entries: palette[name] = shades(hsb)`, when
   * `entries` ends the named seeds and the palette already holds the ones before it.
   */
  method PutEach<R>(palette: seq<(string, R)>, entries: seq<(string, Hsb)>, shades: Hsb -> R,
                    ghost named: seq<(string, Hsb)>, ghost k: nat)
    returns (r: seq<(string, R)>)
    requires DistinctKeys(named) && k + |entries| == |named|
    requires forall i :: 0 <= i < |entries| ==> named[k + i] == entries[i]
    requires palette == MapValues(named[..k], shades)
    ensures r == MapValues(named, shades)
  {
    r := palette;
    var i := 0;
    while i < |entries|
      invariant 0 <= i <= |entries|
      invariant r == MapValues(named[..k + i], shades)
    {
      var (name, seed) := entries[i];
      assert named[k + i] == (name, seed);
      r := PutSeed(r, name, seed, shades, named, k + i);
      i := i + 1;
    }
    assert named[..k + i] == named;
  }

  /** The assignments before the supporting loop: Primary, Secondary and Tertiary when given, Neutral. */
  method PutBrandSeeds<R>(shades: Hsb -> R, p: Hsb, s: Option<Hsb>, t: Option<Hsb>)
    returns (palette: seq<(string, R)>)
    ensures palette == MapValues(NamedSeeds(p, s, t)[..|BrandSeeds(p, s, t)|], shades)
  {
    ghost var named := NamedSeeds(p, s, t);
    ghost var m := 0;
    NamedSeedsDistinct(p, s, t);
    BrandPositions(p, s, t);
    palette := [];
    palette := PutSeed(palette, "Primary", p, shades, named, m);
    m := m + 1;
    if s.Some? {
      palette := PutSeed(palette, "Secondary", s.value, shades, named, m);
      m := m + 1;
    }
    if t.Some? {
      palette := PutSeed(palette, "Tertiary", t.value, shades, named, m);
      m := m + 1;
    }
    palette := PutSeed(palette, "Neutral", NeutralSeed(p), shades, named, m);
    m := m + 1;
  }

  /** `palette[name] = shades(seed)` for the next named seed `named[m] == (name, seed)`. */
  method PutSeed<R>(palette: seq<(string, R)>, name: string, seed: Hsb, shades: Hsb -> R,
                    ghost named: seq<(string, Hsb)>, ghost m: nat)
    returns (r: seq<(string, R)>)
    requires DistinctKeys(named) && m < |named| && named[m] == (name, seed)
    requires palette == MapValues(named[..m], shades)
    ensures r == MapValues(named[..m + 1], shades)
  {
    PutNext(named, shades, m);
    r := Put(palette, name, shades(seed));
  }

  /** Every colour given converts: the primary, and the secondary and tertiary when truthy. */
  predicate Generable(primary: string, secondary: Option<string>, tertiary: Option<string>) {
    && Convertible(primary)
    && (Truthy(secondary) ==> Convertible(secondary.value))
    && (Truthy(tertiary) ==> Convertible(tertiary.value))
  }

  /**
   * `hex_to_hsb` on each given colour in the order Python evaluates them: primary, then
   * secondary and tertiary only when they are truthy (present and non-empty). The first
   * conversion that raises is the error.
   */
  function SeedsOf(rgbToHsv: Colorsys, primary: string, secondary: Option<string>, tertiary: Option<string>)
    : (r: Result<(Hsb, Option<Hsb>, Option<Hsb>), ConversionError>)
    ensures r.Ok? ==> (r.value.1.Some? <==> Truthy(secondary)) && (r.value.2.Some? <==> Truthy(tertiary))
    ensures r.Ok? ==> HexToHsb(rgbToHsv, primary) == Ok(r.value.0)
    ensures r.Err? <==> !Generable(primary, secondary, tertiary)
    ensures !Convertible(primary) ==> r == Err(HexToHsb(rgbToHsv, primary).error)
    ensures r.Err? ==> ErrorText(r.error) != ""
  {
    match HexToHsb(rgbToHsv, primary)
    case Err(e) => Err(e)
    case Ok(p) =>
      match OptionalSeed(rgbToHsv, secondary)
      case Err(e) => Err(e)
      case Ok(s) =>
        match OptionalSeed(rgbToHsv, tertiary)
        case Err(e) => Err(e)
        case Ok(t) => Ok((p, s, t))
  }

  /** `hex_to_hsb(x) if x else None`. */
  function OptionalSeed(rgbToHsv: Colorsys, x: Option<string>): (r: Result<Option<Hsb>, ConversionError>)
    ensures r.Ok? ==> (r.value.Some? <==> Truthy(x))
    ensures r.Err? <==> Truthy(x) && !Convertible(x.value)
    ensures r.Err? ==> r == Err(HexToHsb(rgbToHsv, x.value).error) && ErrorText(r.error) != ""
  {
    if Truthy(x) then
      match HexToHsb(rgbToHsv, x.value)
      case Err(e) => Err(e)
      case Ok(c) => Ok(Some(c))
    else Ok(None)
  }
}
