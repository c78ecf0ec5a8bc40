/**
 * The `generate` route of the Flask app (app/routes.py): a POST sanitises the palette
 * name, turns empty optional colours into `None` and runs the generator; any other method
 * redirects home. Characters are ASCII: `str.title` and `str.isalnum` are modelled on
 * ASCII letters and digits.
 */
module FlaskRoutes {
  import opened Wrappers
  import opened Text
  import opened Dict
  import opened ColorCodec
  import opened PaletteAssembly
  import opened FlaskGenerator

  /** `str.title()`: a letter is upper-cased when no letter precedes it, lower-cased otherwise. */
  function Title(s: string): (r: string)
    ensures |r| == |s|
  {
    TitleAfter(s, false)
  }

  /** `str.title()` on the rest of a string, `afterLetter` telling whether a letter came just before. */
  function TitleAfter(s: string, afterLetter: bool): (r: string)
    ensures |r| == |s|
  {
    if s == [] then []
    else
      var c := if !IsLetter(s[0]) then s[0] else if afterLetter then LowerChar(s[0]) else UpperChar(s[0]);
      [c] + TitleAfter(s[1..], IsLetter(s[0]))
  }

  /** Character `i` of `s.title()`, stated for that position alone. */
  function TitleCharAt(s: string, i: nat): char
    requires i < |s|
  {
    if !IsLetter(s[i]) then s[i]
    else if i > 0 && IsLetter(s[i - 1]) then LowerChar(s[i])
    else UpperChar(s[i])
  }

  /** Every character of the title-cased string is the one its position calls for. */
  lemma TitlePointwise(s: string)
    ensures forall i :: 0 <= i < |s| ==> Title(s)[i] == TitleCharAt(s, i)
  {
    TitleAfterPointwise(s, [], false);
  }

  lemma {:induction false} TitleAfterPointwise(s: string, before: string, afterLetter: bool)
    requires afterLetter == (before != [] && IsLetter(before[|before| - 1]))
    ensures forall i :: 0 <= i < |s| ==> TitleAfter(s, afterLetter)[i] == TitleCharAt(before + s, |before| + i)
  {
    if s != [] {
      var t := before + s;
      assert t[|before|] == s[0];
      assert |before| > 0 ==> t[|before| - 1] == before[|before| - 1];
      TitleAfterPointwise(s[1..], before + [s[0]], IsLetter(s[0]));
      forall i | 0 <= i < |s| ensures TitleAfter(s, afterLetter)[i] == TitleCharAt(t, |before| + i) {
        if i > 0 {
          assert before + [s[0]] + s[1..] == t;
        }
      }
    }
  }

  /** The characters of `s` that satisfy `keep`, in order (a comprehension with an `if`). */
  function Filter(s: string, keep: char -> bool): (r: string)
    ensures |r| <= |s|
    ensures forall i :: 0 <= i < |r| ==> keep(r[i])
  {
    if s == [] then [] else (if keep(s[0]) then [s[0]] else []) + Filter(s[1..], keep)
  }

  /** Nothing that satisfies `keep` is dropped: it survives with as many occurrences. */
  lemma {:induction false} FilterKeepsAll(s: string, keep: char -> bool)
    ensures forall c :: keep(c) ==> multiset(Filter(s, keep))[c] == multiset(s)[c]
    ensures forall c :: !keep(c) ==> multiset(Filter(s, keep))[c] == 0
  {
    if s != [] {
      FilterKeepsAll(s[1..], keep);
      assert s == [s[0]] + s[1..];
    }
  }

  /**
   * The sanitised palette name: `name.title().replace(" ", "")`, then only the
   * alphanumeric characters joined.
   */
  function SanitiseName(name: string): (r: string)
    ensures forall i :: 0 <= i < |r| ==> IsAlnum(r[i])
    ensures |r| <= |name|
  {
    Filter(Filter(Title(name), c => c != ' '), IsAlnum)
  }

  /** A letter that starts the name or follows a space appears upper-cased in the sanitised name. */
  lemma SanitiseKeepsWords(name: string, i: nat)
    requires i < |name| && IsLetter(name[i]) && (i == 0 || name[i - 1] == ' ')
    ensures UpperChar(name[i]) in SanitiseName(name)
  {
    var t := Title(name);
    TitlePointwise(name);
    assert t[i] == UpperChar(name[i]);
    var spaceless := Filter(t, c => c != ' ');
    FilterKeepsAll(t, c => c != ' ');
    assert t[i] in multiset(t);
    FilterKeepsAll(spaceless, IsAlnum);
    assert UpperChar(name[i]) in multiset(SanitiseName(name));
  }

  /**
   * The sanitised name holds every alphanumeric character of the title-cased name as
   * often as it occurs there, and nothing else.
   */
  lemma SanitiseKeepsAlnum(name: string)
    ensures forall c :: IsAlnum(c) ==> multiset(SanitiseName(name))[c] == multiset(Title(name))[c]
    ensures forall c :: !IsAlnum(c) ==> c !in SanitiseName(name)
  {
    var t := Title(name);
    FilterKeepsAll(t, c => c != ' ');
    FilterKeepsAll(Filter(t, c => c != ' '), IsAlnum);
  }

  /** `request.form.get(field)` when truthy, else `None`. */
  function OptionalField(form: seq<(string, string)>, field: string): (r: Option<string>)
    ensures r.Some? <==> Get(form, field).Some? && Get(form, field).value != ""
    ensures r.Some? ==> r == Get(form, field)
  {
    var v := Get(form, field);
    if v.Some? && v.value != "" then v else None
  }

  /** What the template receives after a successful POST. */
  datatype GenerateData = GenerateData(name: string, primary: string, secondary: Option<string>,
                                       tertiary: Option<string>, excelFile: string, pngFile: string)

  /** The route's outcome; an exception escapes as its type name and `str(e)`. */
  datatype RouteResponse = Redirect(location: string) | Rendered(data: GenerateData)
                         | Raised(errorType: string, message: string)

  const AttributeError := "AttributeError"
  const NoTitle := "'NoneType' object has no attribute 'title'"
  const NoStrip := "'NoneType' object has no attribute 'strip'"

  /**
   * `generate`: anything but POST redirects to "/". A POST without a name, or without a
   * primary colour (which `hex_to_rgb` then strips), raises an `AttributeError`; a colour
   * `hex_to_hsb` cannot convert raises its `ValueError` or `ZeroDivisionError`, which the
   * route does not catch.
   */
  function Generate(rgbToHsv: Colorsys, httpMethod: string, form: seq<(string, string)>): (r: RouteResponse)
    ensures httpMethod != "POST" <==> r == Redirect("/")
    ensures r.Rendered? ==> Get(form, "name").Some? && r.data.name == SanitiseName(Get(form, "name").value)
    ensures r.Rendered? ==> r.data.secondary == OptionalField(form, "secondary")
    ensures r.Rendered? ==> r.data.tertiary == OptionalField(form, "tertiary")
    ensures r.Rendered? ==> r.data.excelFile == r.data.name + "-color-pallete.xlsx"
    ensures r.Rendered? ==> r.data.pngFile == r.data.name + "-color-palette.png"
  {
    if httpMethod != "POST" then Redirect("/")
    else
      match Get(form, "name")
      case None => Raised(AttributeError, NoTitle)
      case Some(raw) =>
        var name := SanitiseName(raw);
        var secondary := OptionalField(form, "secondary");
        var tertiary := OptionalField(form, "tertiary");
        match Get(form, "primary")
        case None => Raised(AttributeError, NoStrip)
        case Some(primary) =>
          match PaletteOf(rgbToHsv, primary, secondary, tertiary)
          case Err(e) => Raised(ErrorType(e), ErrorText(e))
          case Ok(_) =>
            Rendered(GenerateData(name, primary, secondary, tertiary,
                                  name + "-color-pallete.xlsx", name + "-color-palette.png"))
  }

  /**
   * A POST renders exactly when a name and a primary colour are sent and every colour
   * given converts; `#-f0000` passes the form but makes the route raise.
   */
  lemma GenerateSucceeds(rgbToHsv: Colorsys, form: seq<(string, string)>)
    ensures Generate(rgbToHsv, "POST", form).Rendered? <==>
      && Get(form, "name").Some? && Get(form, "primary").Some?
      && Generable(Get(form, "primary").value, OptionalField(form, "secondary"), OptionalField(form, "tertiary"))
    ensures Get(form, "name").Some? && Get(form, "primary") == Some("#-f0000") ==>
      Generate(rgbToHsv, "POST", form) == Raised("ZeroDivisionError", DivisionByZero)
  {
    NegativeChannelRaises(rgbToHsv);
  }
}
