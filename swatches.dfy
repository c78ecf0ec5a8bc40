/**
 * The swatch grid shared by frontend/src/components/layout/PreviewSection.tsx and
 * frontend/src/components/layout/MyPalettesPage.tsx, which carry identical copies of
 * `orderedSwatchKeys` and of the shade label colour: which colour columns are shown, in
 * which order, and whether a shade's label is dark or light. `Array.prototype.filter`,
 * used there and in the palette search, is defined here once.
 */
module Swatches {
  import opened Wrappers
  import opened Text
  import opened Dict
  import opened Numbers
  import opened PaletteVars

  /** `xs.filter(keep)`. */
  function Filter<T(!new)>(xs: seq<T>, keep: T -> bool): (r: seq<T>)
    ensures |r| <= |xs|
    ensures forall x :: x in r <==> x in xs && keep(x)
  {
    if xs == [] then []
    else (if keep(xs[0]) then [xs[0]] else []) + Filter(xs[1..], keep)
  }

  /** Filtering a concatenation filters each part: what is kept keeps its relative order. */
  lemma {:induction false} FilterAppend<T(!new)>(a: seq<T>, b: seq<T>, keep: T -> bool)
    ensures Filter(a + b, keep) == Filter(a, keep) + Filter(b, keep)
  {
    if a == [] {
      assert a + b == b;
    } else {
      assert (a + b)[1..] == a[1..] + b;
      FilterAppend(a[1..], b, keep);
    }
  }

  /** When everything is kept the list comes back unchanged. */
  lemma {:induction false} FilterAll<T(!new)>(xs: seq<T>, keep: T -> bool)
    requires forall i :: 0 <= i < |xs| ==> keep(xs[i])
    ensures Filter(xs, keep) == xs
  {
    if xs != [] {
      FilterAll(xs[1..], keep);
    }
  }

  /** Two tests that agree everywhere keep the same elements. */
  lemma {:induction false} FilterSame<T(!new)>(xs: seq<T>, f: T -> bool, g: T -> bool)
    requires forall i :: 0 <= i < |xs| ==> f(xs[i]) == g(xs[i])
    ensures Filter(xs, f) == Filter(xs, g)
  {
    if xs != [] {
      FilterSame(xs[1..], f, g);
    }
  }

  /** Two kept elements appear in the same order in the original list. */
  lemma {:induction false} FilterOrder<T(!new)>(xs: seq<T>, keep: T -> bool, i: nat, j: nat)
    requires i < j < |Filter(xs, keep)|
    ensures exists i', j' :: 0 <= i' < j' < |xs| && xs[i'] == Filter(xs, keep)[i] && xs[j'] == Filter(xs, keep)[j]
  {
    var r := Filter(xs, keep);
    var rest := Filter(xs[1..], keep);
    if keep(xs[0]) {
      assert r == [xs[0]] + rest;
      if i == 0 {
        assert r[j] == rest[j - 1] && rest[j - 1] in rest;
        var k :| 0 <= k < |xs[1..]| && xs[1..][k] == rest[j - 1];
        assert xs[0] == r[0] && xs[k + 1] == r[j];
      } else {
        FilterOrder(xs[1..], keep, i - 1, j - 1);
        var i', j' :| 0 <= i' < j' < |xs[1..]| && xs[1..][i'] == rest[i - 1] && xs[1..][j'] == rest[j - 1];
        assert xs[i' + 1] == r[i] && xs[j' + 1] == r[j];
      }
    } else {
      assert r == rest;
      FilterOrder(xs[1..], keep, i, j);
      var i', j' :| 0 <= i' < j' < |xs[1..]| && xs[1..][i'] == rest[i] && xs[1..][j'] == rest[j];
      assert xs[i' + 1] == r[i] && xs[j' + 1] == r[j];
    }
  }

  /** `base`: primary, secondary, tertiary when shown, then neutral. */
  function BaseKeys(data: PreviewPalette, showTertiary: bool): (base: seq<string>)
    ensures |base| == if ShowsTertiary(data, showTertiary) then 4 else 3
    ensures base[0] == "primary" && base[1] == "secondary" && base[|base| - 1] == "neutral"
    ensures ShowsTertiary(data, showTertiary) ==> base[2] == "tertiary"
    ensures forall k :: k in base <==> k in ["primary", "secondary", "neutral"] || (k == "tertiary" && ShowsTertiary(data, showTertiary))
  {
    ["primary", "secondary"] + (if ShowsTertiary(data, showTertiary) then ["tertiary"] else []) + ["neutral"]
  }

  /** The data keys that are neither in `base` nor "tertiary", in the palette's order. */
  function MiscKeys(data: PreviewPalette, showTertiary: bool): (misc: seq<string>)
    ensures forall k :: k in misc <==> k in Keys(data) && k !in ["primary", "secondary", "tertiary", "neutral"]
  {
    var base := BaseKeys(data, showTertiary);
    Filter(Keys(data), k => k !in base && k != "tertiary")
  }

  /**
   * `orderedSwatchKeys`: primary and secondary, tertiary when it is shown and present,
   * neutral, then every other key of the palette. "tertiary" appears exactly when shown.
   */
  function OrderedSwatchKeys(data: PreviewPalette, showTertiary: bool): (r: seq<string>)
    ensures |r| >= if ShowsTertiary(data, showTertiary) then 4 else 3
    ensures r[0] == "primary" && r[1] == "secondary"
    ensures ShowsTertiary(data, showTertiary) ==> r[2] == "tertiary" && r[3] == "neutral"
    ensures !ShowsTertiary(data, showTertiary) ==> r[2] == "neutral"
    ensures "tertiary" in r <==> ShowsTertiary(data, showTertiary)
    ensures forall k :: k in Keys(data) && k != "tertiary" ==> k in r
    ensures var n := if ShowsTertiary(data, showTertiary) then 4 else 3;
      forall i :: n <= i < |r| ==> r[i] in Keys(data) && r[i] !in ["primary", "secondary", "tertiary", "neutral"]
  {
    var base := BaseKeys(data, showTertiary);
    var misc := MiscKeys(data, showTertiary);
    var r := base + misc;
    assert forall i :: |base| <= i < |r| ==> r[i] == misc[i - |base|];
    r
  }

  /** The keys after the fixed columns keep the order they have in the palette. */
  lemma MiscKeysInPaletteOrder(data: PreviewPalette, showTertiary: bool, i: nat, j: nat)
    requires i < j < |MiscKeys(data, showTertiary)|
    ensures var m := MiscKeys(data, showTertiary);
      exists i', j' :: 0 <= i' < j' < |data| && data[i'].0 == m[i] && data[j'].0 == m[j]
  {
    var base := BaseKeys(data, showTertiary);
    FilterOrder(Keys(data), k => k !in base && k != "tertiary", i, j);
  }

  /** The label colour of a shade: dark on the light shades below 500, light otherwise (NaN too). */
  function ShadeTextColour(shade: string): (r: string)
    ensures r == "grey.900" || r == "grey.100"
    ensures AllDigits(shade) && shade != [] ==> (r == "grey.900" <==> DecimalNumber(shade) < 500)
  {
    if AllDigits(shade) && shade != [] then JsParseIntOfDigits(shade); ShadeLabel(JsParseInt(shade))
    else ShadeLabel(JsParseInt(shade))
  }

  function ShadeLabel(n: Option<int>): string {
    if n.Some? && n.value < 500 then "grey.900" else "grey.100"
  }

  /** On the scale 100–900 the first four shades get dark labels and the other five light ones. */
  lemma ShadeScaleLabels()
    ensures forall s :: s in ["100", "200", "300", "400"] ==> ShadeTextColour(s) == "grey.900"
    ensures forall s :: s in ["500", "600", "700", "800", "900"] ==> ShadeTextColour(s) == "grey.100"
  {
    forall s | s in ["100", "200", "300", "400"] ensures ShadeTextColour(s) == "grey.900" {
      Hundreds(s);
    }
    forall s | s in ["500", "600", "700", "800", "900"] ensures ShadeTextColour(s) == "grey.100" {
      Hundreds(s);
    }
  }

  lemma Hundreds(s: string)
    requires |s| == 3 && IsDigit(s[0]) && s[1] == '0' && s[2] == '0'
    ensures AllDigits(s) && DecimalNumber(s) == (s[0] as int - '0' as int) * 100
  {
    assert s[..2][..1] == s[..1] && s[..1][..0] == s[..0] == [];
    assert DecimalNumber(s[..1]) == s[0] as int - '0' as int;
  }
}
