/**
 * The shade ramp shared by both generators' `generate_shades`: nine shades keyed
 * "100".."900", each derived from the base by fixed saturation and brightness offsets
 * clamped to [0, 100], with shade "500" the base itself and the hue never changed.
 */
module ShadeRamp {
  import opened Numbers
  import opened Dict
  import opened ColorCodec

  type Ramp = seq<(string, Hsb)>

  /** How one shade is derived: the base itself, lighter, or darker by the given offsets. */
  datatype Step = Base | Lighten(ds: real, db: real) | Darken(ds: real, db: real)

  /** The nine shades with their offsets, in ascending key order. */
  const ShadeSteps: seq<(string, Step)> := [
    ("100", Lighten(40.0, 50.0)), ("200", Lighten(30.0, 37.5)), ("300", Lighten(20.0, 25.0)),
    ("400", Lighten(10.0, 12.5)), ("500", Base), ("600", Darken(10.0, 17.5)),
    ("700", Darken(20.0, 35.0)), ("800", Darken(30.0, 52.5)), ("900", Darken(40.0, 70.0))]

  const ShadeKeys: seq<string> := ["100", "200", "300", "400", "500", "600", "700", "800", "900"]

  /**
   * The order `generate_shades` assigns the shades in (500, 100, 900, 300, 700, 200, 400,
   * 600, 800), as positions in `ShadeSteps`.
   */
  const InsertionIndex: seq<nat> := [4, 0, 8, 2, 6, 1, 3, 5, 7]

  /** A shade before any rounding: `(h, max(0, s - ds), min(b + db, 100))` or the darker mirror. */
  function Derive(step: Step, base: Hsb): Hsb {
    match step
    case Base => base
    case Lighten(ds, db) => Hsb(base.h, MaxReal(0.0, base.s - ds), MinReal(base.b + db, 100.0))
    case Darken(ds, db) => Hsb(base.h, MinReal(base.s + ds, 100.0), MaxReal(base.b - db, 0.0))
  }

  /** The ramp in key order, each shade computed from its step by `derive`. */
  function RampOf(derive: Step -> Hsb): (r: Ramp)
    ensures |r| == |ShadeSteps|
    ensures forall i :: 0 <= i < |r| ==> r[i] == (ShadeSteps[i].0, derive(ShadeSteps[i].1))
  {
    seq(|ShadeSteps|, i requires 0 <= i < |ShadeSteps| => (ShadeSteps[i].0, derive(ShadeSteps[i].1)))
  }

  /** The `shades` dict as `generate_shades` fills it, before sorting. */
  function InsertedRamp(derive: Step -> Hsb): (r: Ramp)
    ensures |r| == |InsertionIndex|
  {
    seq(|InsertionIndex|, i requires 0 <= i < |InsertionIndex| =>
      (ShadeSteps[InsertionIndex[i]].0, derive(ShadeSteps[InsertionIndex[i]].1)))
  }

  /** Keys ascend by their integer value, as `sorted(..., key=lambda item: int(item[0]))` orders them. */
  predicate KeysAscending(r: Ramp) {
    && (forall i :: 0 <= i < |r| ==> AllDigits(r[i].0))
    && (forall i, j :: 0 <= i < j < |r| ==> DecimalNumber(r[i].0) < DecimalNumber(r[j].0))
  }

  /**
   * `dict(sorted(shades.items(), key=lambda item: int(item[0])))`: the ramp in key order
   * has the same number of entries as the dict `generate_shades` filled, exactly the same
   * entries, distinct keys, and keys ascending numerically; so it is that dict sorted.
   */
  lemma RampIsSortedInsertion(derive: Step -> Hsb)
    ensures |RampOf(derive)| == |InsertedRamp(derive)|
    ensures forall e :: e in RampOf(derive) <==> e in InsertedRamp(derive)
    ensures KeysAscending(RampOf(derive)) && DistinctKeys(RampOf(derive))
  {
    RampSameEntries(derive);
    RampKeysAscending(derive);
  }

  lemma RampSameEntries(derive: Step -> Hsb)
    ensures forall e :: e in RampOf(derive) <==> e in InsertedRamp(derive)
  {
    var r := RampOf(derive);
    var s := InsertedRamp(derive);
    assert r == [r[0], r[1], r[2], r[3], r[4], r[5], r[6], r[7], r[8]];
    assert s == [r[4], r[0], r[8], r[2], r[6], r[1], r[3], r[5], r[7]];
  }

  lemma RampKeysAscending(derive: Step -> Hsb)
    ensures KeysAscending(RampOf(derive)) && DistinctKeys(RampOf(derive))
  {
    var r := RampOf(derive);
    forall i | 0 <= i < |r| ensures AllDigits(r[i].0) && DecimalNumber(r[i].0) == 100 * (i + 1) {
      HundredsValue(r[i].0, i + 1);
    }
  }

  /** The ramp's keys are "100".."900" in this order. */
  lemma RampKeys(derive: Step -> Hsb)
    ensures Keys(RampOf(derive)) == ShadeKeys
  {
    var r := RampOf(derive);
    assert |Keys(r)| == |ShadeKeys|;
  }

  /** "d00" for a digit d in 1..9 is the number 100·d. */
  lemma HundredsValue(k: string, d: int)
    requires 1 <= d <= 9 && k == [('0' as int + d) as char, '0', '0']
    ensures AllDigits(k) && DecimalNumber(k) == 100 * d
  {
    var a := [k[0]];
    var ab := [k[0], '0'];
    assert a[..0] == [];
    assert DecimalNumber(a) == d;
    assert ab[..1] == a;
    assert DecimalNumber(ab) == 10 * d;
    assert k[..2] == ab;
  }

  /**
   * `x` gives a shade at least as light as `y` does: lighter steps with larger offsets
   * first, then the base, then darker steps with growing offsets.
   */
  predicate StepBefore(x: Step, y: Step) {
    match (x, y)
    case (Lighten(s1, b1), Lighten(s2, b2)) => s1 >= s2 && b1 >= b2
    case (Lighten(s1, b1), Base) => s1 >= 0.0 && b1 >= 0.0
    case (Base, Darken(s2, b2)) => s2 >= 0.0 && b2 >= 0.0
    case (Darken(s1, b1), Darken(s2, b2)) => s1 <= s2 && b1 <= b2
    case _ => false
  }

  /** Each step of the table comes before the next one. */
  lemma StepsOrdered()
    ensures forall i :: 0 <= i < |ShadeSteps| - 1 ==> StepBefore(ShadeSteps[i].1, ShadeSteps[i + 1].1)
  {
  }

  /**
   * For a base with saturation and brightness in [0, 100], a step that comes before
   * another gives a shade no darker and no more saturated.
   */
  lemma DeriveOrdered(x: Step, y: Step, base: Hsb)
    requires StepBefore(x, y) && 0.0 <= base.s <= 100.0 && 0.0 <= base.b <= 100.0
    ensures Derive(x, base).b >= Derive(y, base).b && Derive(x, base).s <= Derive(y, base).s
  {
  }

  predicate NonNegativeOffsets(step: Step) {
    step.Base? || (step.ds >= 0.0 && step.db >= 0.0)
  }

  /** Every step of the table moves saturation and brightness by non-negative offsets. */
  lemma StepsNonNegative()
    ensures forall i :: 0 <= i < |ShadeSteps| ==> NonNegativeOffsets(ShadeSteps[i].1)
  {
  }

  /** For a base in [0, 100], a step with non-negative offsets keeps the shade in [0, 100]. */
  lemma DeriveInRange(step: Step, base: Hsb)
    requires NonNegativeOffsets(step) && 0.0 <= base.s <= 100.0 && 0.0 <= base.b <= 100.0
    ensures 0.0 <= Derive(step, base).s <= 100.0 && 0.0 <= Derive(step, base).b <= 100.0
  {
  }

  /** Only the middle step, "500", is the base itself. */
  lemma OnlyMiddleIsBase()
    ensures forall i :: 0 <= i < |ShadeSteps| ==> (ShadeSteps[i].1.Base? <==> i == 4)
  {
  }

  /** The saturation column of a ramp, lightest shade first. */
  function Saturations(r: Ramp): (xs: seq<real>)
    ensures |xs| == |r| && forall i :: 0 <= i < |r| ==> xs[i] == r[i].1.s
  {
    seq(|r|, i requires 0 <= i < |r| => r[i].1.s)
  }

  /** The brightness column of a ramp, lightest shade first. */
  function Brightnesses(r: Ramp): (xs: seq<real>)
    ensures |xs| == |r| && forall i :: 0 <= i < |r| ==> xs[i] == r[i].1.b
  {
    seq(|r|, i requires 0 <= i < |r| => r[i].1.b)
  }

  /** A sequence that descends between neighbours descends throughout. */
  lemma {:induction false} NonIncreasing(xs: seq<real>)
    requires forall i :: 0 <= i < |xs| - 1 ==> xs[i] >= xs[i + 1]
    ensures forall i, j :: 0 <= i < j < |xs| ==> xs[i] >= xs[j]
  {
    if |xs| > 1 {
      var tail := xs[1..];
      assert forall i :: 0 <= i < |tail| ==> tail[i] == xs[i + 1];
      NonIncreasing(tail);
      forall i, j | 0 <= i < j < |xs| ensures xs[i] >= xs[j] {
        if i > 0 {
          assert xs[i] == tail[i - 1] && xs[j] == tail[j - 1];
        } else if j > 1 {
          assert xs[1] == tail[0] && xs[j] == tail[j - 1];
        }
      }
    }
  }

  /** A sequence that ascends between neighbours ascends throughout. */
  lemma {:induction false} NonDecreasing(xs: seq<real>)
    requires forall i :: 0 <= i < |xs| - 1 ==> xs[i] <= xs[i + 1]
    ensures forall i, j :: 0 <= i < j < |xs| ==> xs[i] <= xs[j]
  {
    if |xs| > 1 {
      var tail := xs[1..];
      assert forall i :: 0 <= i < |tail| ==> tail[i] == xs[i + 1];
      NonDecreasing(tail);
      forall i, j | 0 <= i < j < |xs| ensures xs[i] <= xs[j] {
        if i > 0 {
          assert xs[i] == tail[i - 1] && xs[j] == tail[j - 1];
        } else if j > 1 {
          assert xs[1] == tail[0] && xs[j] == tail[j - 1];
        }
      }
    }
  }
}
