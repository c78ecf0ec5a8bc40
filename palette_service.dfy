/**
 * The two pieces of logic in frontend/src/services/palette.ts that do not depend on the
 * network: how `fetchUserPalettes` turns whatever the server sent into a list, and how
 * `createPalette` turns a failed request into an error message. The HTTP calls themselves
 * are parameters: the response body or the kind of failure is given.
 */
module PaletteService {
  import opened Wrappers
  import opened Text
  import opened Dict

  /** A parsed JSON value; numbers are integers, object fields are distinct and in order. */
  datatype Json =
    | JNull
    | JBool(b: bool)
    | JNumber(n: int)
    | JString(s: string)
    | JArray(items: seq<Json>)
    | JObject(fields: seq<(string, Json)>)

  /** JavaScript truthiness of a JSON value: null, false, 0 and "" are falsy. */
  predicate JsTruthy(v: Json) {
    match v
    case JNull => false
    case JBool(b) => b
    case JNumber(n) => n != 0
    case JString(s) => s != ""
    case _ => true
  }

  /** JavaScript `String(v)`: arrays join their elements with commas, objects are opaque. */
  function JsString(v: Json): string
    decreases v, 1
  {
    match v
    case JNull => "null"
    case JBool(b) => if b then "true" else "false"
    case JNumber(n) => IntToDecimal(n)
    case JString(s) => s
    case JArray(items) => Join(ElementStrings(items), ",")
    case JObject(_) => "[object Object]"
  }

  /** The strings `Array.prototype.join` uses for the elements: null becomes "". */
  function ElementStrings(items: seq<Json>): (r: seq<string>)
    decreases items, 0
    ensures |r| == |items|
  {
    if items == [] then []
    else [if items[0].JNull? then "" else JsString(items[0])] + ElementStrings(items[1..])
  }

  /** The `results` field of an object, if it has one. */
  function Results(v: Json): Option<Json> {
    if v.JObject? then Get(v.fields, "results") else None
  }

  /**
   * `fetchUserPalettes`: an array is returned as it is; an object yields its `results`
   * when that is truthy, else a one-element list holding the object; anything else,
   * null included, yields the empty list.
   */
  function UserPalettes(data: Json): (r: Json)
    ensures data.JArray? ==> r == data
    ensures data.JObject? && Results(data).Some? && JsTruthy(Results(data).value) ==> r == Results(data).value
    ensures data.JObject? && !(Results(data).Some? && JsTruthy(Results(data).value)) ==> r == JArray([data])
    ensures !data.JArray? && !data.JObject? ==> r == JArray([])
  {
    if data.JArray? then data
    else if JsTruthy(data) && data.JObject? then
      match Results(data)
      case Some(results) => if JsTruthy(results) then results else JArray([data])
      case None => JArray([data])
    else JArray([])
  }

  /**
   * The result is a list unless the object carries a truthy `results` that is not one:
   * that value is passed through untouched.
   */
  lemma UserPalettesIsList(data: Json)
    ensures UserPalettes(data).JArray? <==>
      !(data.JObject? && Results(data).Some? && JsTruthy(Results(data).value) && !Results(data).value.JArray?)
    ensures data.JObject? && Results(data).None? ==> UserPalettes(data).items == [data]
    ensures data == JNull ==> UserPalettes(data).items == []
  {
  }

  /** The body `fetchPalettePreview` posts; the optional fields are absent unless set. */
  datatype PreviewRequest = PreviewRequest(primary: string, secondary: string, tertiary: Option<string>,
                                           includeTertiary: Option<bool>)

  /** How a request can fail, as axios reports it. */
  datatype RequestError =
    | ResponseError(data: Json)          // the server answered with an error body
    | NoResponse                         // the request was sent but nothing came back
    | SetupError(message: Option<string>) // the request could not be made

  /** What `createPalette` throws: a new error with a message, or the original error again. */
  datatype Thrown = Raised(message: string) | Rethrown

  const FailurePrefix := "Failed to create palette"
  const NoResponseMessage := "No response received from the server. Please check your connection."
  const UnknownMessage := "An unknown error occurred while creating the palette."

  /** `Object.entries`: the fields of an object, or the indices of an array as strings. */
  function Entries(v: Json): (r: seq<(string, Json)>)
    ensures v.JObject? ==> r == v.fields
    ensures v.JArray? ==> |r| == |v.items| && forall i :: 0 <= i < |r| ==> r[i] == (NatToDecimal(i), v.items[i])
  {
    match v
    case JObject(fields) => fields
    case JArray(items) => seq(|items|, i requires 0 <= i < |items| => (NatToDecimal(i), items[i]))
    case _ => []
  }

  /** One line of the message: the field, then its errors joined by spaces (or its `String`). */
  function FieldLine(field: string, errors: Json): string {
    field + ": " + (if errors.JArray? then Join(ElementStrings(errors.items), " ") else JsString(errors))
  }

  /** The lines of all fields, in order. */
  function FieldLines(entries: seq<(string, Json)>): (r: seq<string>)
    ensures |r| == |entries|
    ensures forall i :: 0 <= i < |r| ==> r[i] == FieldLine(entries[i].0, entries[i].1)
  {
    seq(|entries|, i requires 0 <= i < |entries| => FieldLine(entries[i].0, entries[i].1))
  }

  /**
   * The error `createPalette` throws. A string body is the message verbatim; an object
   * body lists one line per field; a falsy body rethrows the original error.
   */
  function CreateError(e: RequestError): (r: Thrown)
    ensures e.ResponseError? && e.data.JString? && e.data.s != "" ==> r == Raised(e.data.s)
    ensures e.ResponseError? && !JsTruthy(e.data) ==> r == Rethrown
    ensures e.ResponseError? && (e.data.JObject? || e.data.JArray?) ==>
      r == Raised(FailurePrefix + ": " + Join(FieldLines(Entries(e.data)), "\n"))
    ensures e.ResponseError? && (e.data.JNumber? || e.data.JBool?) && JsTruthy(e.data) ==> r == Raised(FailurePrefix)
    ensures e == NoResponse ==> r == Raised(NoResponseMessage)
    ensures e.SetupError? ==> r == Raised(if Truthy(e.message) then e.message.value else UnknownMessage)
  {
    match e
    case ResponseError(data) =>
      if !JsTruthy(data) then Rethrown
      else if data.JString? then Raised(data.s)
      else if data.JObject? || data.JArray? then
        Raised(FailurePrefix + ": " + Join(FieldLines(Entries(data)), "\n"))
      else Raised(FailurePrefix)
    case NoResponse => Raised(NoResponseMessage)
    case SetupError(message) => Raised(if message.Some? && message.value != "" then message.value else UnknownMessage)
  }

  /** JavaScript `s.split(c)` for a one-character separator. */
  function Split(s: string, c: char): (r: seq<string>)
    ensures |r| >= 1
  {
    if s == [] then [""]
    else
      var rest := Split(s[1..], c);
      if s[0] == c then [""] + rest else [[s[0]] + rest[0]] + rest[1..]
  }

  lemma {:induction false} SplitNone(s: string, c: char)
    requires c !in s
    ensures Split(s, c) == [s]
  {
    if s != [] {
      SplitNone(s[1..], c);
      assert [s[0]] + s[1..] == s;
    }
  }

  lemma {:induction false} SplitAt(a: string, c: char, b: string)
    requires c !in a
    ensures Split(a + [c] + b, c) == [a] + Split(b, c)
  {
    if a == [] {
      assert [c] + b == a + [c] + b;
      assert ([c] + b)[1..] == b;
    } else {
      var s := a + [c] + b;
      assert s[1..] == a[1..] + [c] + b;
      SplitAt(a[1..], c, b);
      assert [a[0]] + a[1..] == a;
    }
  }

  /** Joining lines that hold no separator and splitting again gives the lines back. */
  lemma {:induction false} SplitJoin(lines: seq<string>, c: char)
    requires lines != []
    requires forall i :: 0 <= i < |lines| ==> c !in lines[i]
    ensures Split(Join(lines, [c]), c) == lines
  {
    if |lines| == 1 {
      SplitNone(lines[0], c);
    } else {
      SplitJoin(lines[1..], c);
      SplitAt(lines[0], c, Join(lines[1..], [c]));
      assert lines[0] + [c] + Join(lines[1..], [c]) == Join(lines, [c]);
      assert [lines[0]] + lines[1..] == lines;
    }
  }

  /**
   * For an object body whose field lines hold no line break, the message is the prefix
   * followed by exactly one line per field, in field order.
   */
  lemma ObjectErrorLines(data: Json)
    requires data.JObject? && data.fields != []
    requires forall i :: 0 <= i < |data.fields| ==> '\n' !in FieldLine(data.fields[i].0, data.fields[i].1)
    ensures var m := CreateError(ResponseError(data)).message;
      && StartsWith(m, FailurePrefix + ": ")
      && Split(m[|FailurePrefix + ": "|..], '\n') == FieldLines(data.fields)
  {
    var lines := FieldLines(data.fields);
    var m := CreateError(ResponseError(data)).message;
    assert m == FailurePrefix + ": " + Join(lines, "\n");
    assert m[|FailurePrefix + ": "|..] == Join(lines, "\n");
    SplitJoin(lines, '\n');
  }
}
