/**
 * The request and response serializers of backend/generator/serializers.py: the hex
 * validators of the preview request, the status a stored palette reports, the field
 * constraints of one shade in a preview response, and the response's lowercased keys.
 */
module Serializers {
  import opened Wrappers
  import opened Text
  import opened Numbers
  import opened Dict
  import opened ColorCodec

  const InvalidFormat := "Invalid hex color format"

  /**
   * `validate_primary`: a `#` is put in front when missing, and the result must have the
   * length of `#RGB` or `#RRGGBB`. Only the length is checked, never the characters.
   */
  function ValidateHex(value: string): (r: Result<string, string>)
    ensures StartsWith(value, "#") ==> (r.Ok? <==> |value| == 4 || |value| == 7)
    ensures !StartsWith(value, "#") ==> (r.Ok? <==> |value| == 3 || |value| == 6)
    ensures r.Ok? && StartsWith(value, "#") ==> r.value == value
    ensures r.Ok? && !StartsWith(value, "#") ==> r.value == "#" + value
    ensures r.Err? ==> r.error == InvalidFormat
  {
    var v := if StartsWith(value, "#") then value else "#" + value;
    if |v| == 4 || |v| == 7 then Ok(v) else Err(InvalidFormat)
  }

  /** A value that passed validation passes again unchanged. */
  lemma ValidateIdempotent(value: string)
    requires ValidateHex(value).Ok?
    ensures ValidateHex(ValidateHex(value).value) == ValidateHex(value)
  {
    var v := ValidateHex(value).value;
    assert v[..1] == "#";
  }

  /**
   * The characters are not checked: two values of the same length that both have, or both
   * lack, the leading `#` are accepted or refused together.
   */
  lemma ValidateIgnoresCharacters(a: string, b: string)
    requires |a| == |b| && StartsWith(a, "#") == StartsWith(b, "#")
    ensures ValidateHex(a).Ok? <==> ValidateHex(b).Ok?
  {
  }

  /**
   * Three hex digits pass validation as `#RGB`, but `hex_to_rgb` then reads the third pair
   * from an empty slice and raises.
   */
  lemma ShortHexPasses(h: string)
    requires |h| == 3 && AllHex(h)
    ensures ValidateHex(h) == Ok("#" + h)
    ensures HexToRgb(ValidateHex(h).value) == Err(InvalidLiteral(""))
  {
    ShortHexRaises(h);
  }

  /** `validate_secondary` and `validate_tertiary`: an empty value is returned as it is. */
  function ValidateOptional(value: string): (r: Result<string, string>)
    ensures value == "" ==> r == Ok("")
    ensures value != "" ==> r == ValidateHex(value)
  {
    if value == "" then Ok(value) else ValidateHex(value)
  }

  /** The fields of a preview request; an optional field not sent is `None`. */
  datatype PreviewRequest = PreviewRequest(primary: string, secondary: Option<string>,
                                           tertiary: Option<string>, includeTertiary: bool)

  /** The validator of an optional field that was sent, or nothing for one that was not. */
  function ValidateField(value: Option<string>): (r: Result<Option<string>, string>)
    ensures value.None? ==> r == Ok(None)
    ensures value == Some("") ==> r == Ok(Some(""))
    ensures value.Some? && value.value != "" ==> (r.Ok? <==> ValidateHex(value.value).Ok?)
    ensures r.Ok? && value.Some? && value.value != "" ==> r.value == Some(ValidateHex(value.value).value)
    ensures r.Err? ==> r.error == ValidateHex(value.value).error
  {
    match value
    case None => Ok(None)
    case Some(v) =>
      match ValidateOptional(v)
      case Ok(w) => Ok(Some(w))
      case Err(e) => Err(e)
  }

  /** The error of one field, listed under that field's name. */
  function FieldErrors<T>(field: string, r: Result<T, string>): (es: seq<(string, string)>)
    ensures |es| <= 1
    ensures r.Err? ==> es == [(field, r.error)]
    ensures r.Ok? ==> es == []
  {
    if r.Err? then [(field, r.error)] else []
  }

  /**
   * `PalettePreviewRequestSerializer.is_valid`: every field is validated, and the errors of
   * all failing fields are reported together, in field order.
   */
  function ValidateRequest(req: PreviewRequest): (r: Result<PreviewRequest, seq<(string, string)>>)
    ensures r.Ok? <==> ValidateHex(req.primary).Ok? && ValidateField(req.secondary).Ok? && ValidateField(req.tertiary).Ok?
    ensures r.Ok? ==> r.value == PreviewRequest(ValidateHex(req.primary).value, ValidateField(req.secondary).value,
                                                ValidateField(req.tertiary).value, req.includeTertiary)
    ensures r.Err? ==> r.error != [] && forall e :: e in r.error ==> e.1 == InvalidFormat
    ensures r.Err? ==> (ValidateHex(req.primary).Err? <==> ("primary", InvalidFormat) in r.error)
  {
    var p, s, t := ValidateHex(req.primary), ValidateField(req.secondary), ValidateField(req.tertiary);
    if p.Ok? && s.Ok? && t.Ok? then Ok(PreviewRequest(p.value, s.value, t.value, req.includeTertiary))
    else
      var es := FieldErrors("primary", p) + FieldErrors("secondary", s) + FieldErrors("tertiary", t);
      assert FieldErrors("primary", p) == es[..|FieldErrors("primary", p)|];
      Err(es)
  }

  /** A validated primary colour is never empty: it starts with `#` and has 4 or 7 characters. */
  lemma ValidatedPrimary(req: PreviewRequest)
    requires ValidateRequest(req).Ok?
    ensures var p := ValidateRequest(req).value.primary;
      StartsWith(p, "#") && (|p| == 4 || |p| == 7)
  {
    var p := ValidateRequest(req).value.primary;
    assert p[..1] == "#";
  }

  /** `PaletteSerializer.get_status`. */
  function GetStatus(isProcessing: bool, errorMessage: Option<string>): (r: string)
    ensures isProcessing ==> r == "processing"
    ensures !isProcessing && Truthy(errorMessage) ==> r == "error"
    ensures !isProcessing && !Truthy(errorMessage) ==> r == "completed"
  {
    if isProcessing then "processing"
    else if errorMessage.Some? && errorMessage.value != "" then "error"
    else "completed"
  }

  /** One shade of a preview response. */
  datatype ShadeInfo = ShadeInfo(rgb: seq<int>, hex: string, hsb: seq<real>, cmyk: seq<int>)

  /**
   * The constraints of `ColorShadeSerializer`: three integers in 0..255, any hex text,
   * three non-negative numbers, four numbers in 0..100.
   */
  predicate ValidShade(s: ShadeInfo) {
    && |s.rgb| == 3 && (forall i :: 0 <= i < 3 ==> 0 <= s.rgb[i] <= 255)
    && |s.hsb| == 3 && (forall i :: 0 <= i < 3 ==> 0.0 <= s.hsb[i])
    && |s.cmyk| == 4 && (forall i :: 0 <= i < 4 ==> 0 <= s.cmyk[i] <= 100)
  }

  /** One colour of a preview response: its name as generated and its shades by key. */
  datatype ColorEntry = ColorEntry(name: string, shades: seq<(string, ShadeInfo)>)

  /** The keys of `d`, each lowercased, in order. */
  function LowerKeys<V>(d: seq<(string, V)>): (r: seq<string>)
    ensures |r| == |d| && forall i :: 0 <= i < |d| ==> r[i] == Lower(d[i].0)
  {
    seq(|d|, i requires 0 <= i < |d| => Lower(d[i].0))
  }

  /** The dict `representation[key.lower()] = value` builds, entry after entry. */
  function LowerKeyed<V>(d: seq<(string, V)>): seq<(string, V)> {
    if d == [] then []
    else
      var last := d[|d| - 1];
      Put(LowerKeyed(d[..|d| - 1]), Lower(last.0), last.1)
  }

  /** `PalettePreviewResponseSerializer.to_representation`. */
  method ToRepresentation(instance: seq<(string, ColorEntry)>) returns (r: seq<(string, ColorEntry)>)
    ensures r == LowerKeyed(instance)
  {
    r := [];
    var i := 0;
    while i < |instance|
      invariant 0 <= i <= |instance|
      invariant r == LowerKeyed(instance[..i])
    {
      var (colorName, colorData) := instance[i];
      r := Put(r, Lower(colorName), ColorEntry(colorData.name, colorData.shades));
      assert instance[..i + 1][..i] == instance[..i];
      i := i + 1;
    }
    assert instance[..i] == instance;
  }

  /** The representation has each key at most once. */
  lemma {:induction false} LowerKeyedKeys<V>(d: seq<(string, V)>)
    ensures DistinctKeys(LowerKeyed(d))
  {
    if d != [] {
      var init, last := d[..|d| - 1], d[|d| - 1];
      var prev := LowerKeyed(init);
      assert LowerKeyed(d) == Put(prev, Lower(last.0), last.1);
      LowerKeyedKeys(init);
      PutKeepsDistinct(prev, Lower(last.0), last.1);
    }
  }

  /** Every key of the representation is a lowercased key of the instance. */
  lemma {:induction false} LowerKeyedFrom<V>(d: seq<(string, V)>)
    ensures forall k :: k in Keys(LowerKeyed(d)) ==> k in LowerKeys(d)
  {
    if d != [] {
      var init, last := d[..|d| - 1], d[|d| - 1];
      var prev := LowerKeyed(init);
      var r := LowerKeyed(d);
      assert r == Put(prev, Lower(last.0), last.1);
      LowerKeyedFrom(init);
      PutKeys(prev, Lower(last.0), last.1);
      forall k | k in Keys(r) ensures k in LowerKeys(d) {
        if k == Lower(last.0) {
          assert LowerKeys(d)[|d| - 1] == k;
        } else {
          assert k in LowerKeys(init);
          var j :| 0 <= j < |init| && LowerKeys(init)[j] == k;
          assert LowerKeys(d)[j] == k;
        }
      }
    }
  }

  /** Every lowercased key of the instance is a key of the representation. */
  lemma {:induction false} LowerKeyedHas<V>(d: seq<(string, V)>)
    ensures forall i :: 0 <= i < |d| ==> Lower(d[i].0) in Keys(LowerKeyed(d))
  {
    if d != [] {
      var init, last := d[..|d| - 1], d[|d| - 1];
      var prev := LowerKeyed(init);
      var r := LowerKeyed(d);
      assert r == Put(prev, Lower(last.0), last.1);
      LowerKeyedHas(init);
      PutKeys(prev, Lower(last.0), last.1);
      forall i | 0 <= i < |d| ensures Lower(d[i].0) in Keys(r) {
        if i < |d| - 1 {
          assert d[i] == init[i];
        }
      }
    }
  }

  /**
   * When no two keys lowercase alike, the representation keeps every entry in its place,
   * with the key lowercased and the value unchanged.
   */
  lemma {:induction false} LowerKeyedDistinct<V>(d: seq<(string, V)>)
    requires forall i, j :: 0 <= i < j < |d| ==> Lower(d[i].0) != Lower(d[j].0)
    ensures |LowerKeyed(d)| == |d|
    ensures forall i :: 0 <= i < |d| ==> LowerKeyed(d)[i] == (Lower(d[i].0), d[i].1)
  {
    if d != [] {
      var init, last := d[..|d| - 1], d[|d| - 1];
      var prev := LowerKeyed(init);
      assert LowerKeyed(d) == Put(prev, Lower(last.0), last.1);
      LowerKeyedDistinct(init);
      LowerKeyedFrom(init);
      assert Lower(last.0) !in LowerKeys(init) by {
        forall j | 0 <= j < |init| ensures LowerKeys(init)[j] != Lower(last.0) {
          assert init[j] == d[j];
        }
      }
      PutNew(prev, Lower(last.0), last.1);
      forall i | 0 <= i < |d| ensures LowerKeyed(d)[i] == (Lower(d[i].0), d[i].1) {
        if i < |d| - 1 {
          assert d[i] == init[i];
        }
      }
    }
  }
}
