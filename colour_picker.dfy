/**
 * The colour picker of frontend/src/components/layout/ColorPickerSection.tsx: its local
 * colour and enabled flag, the handlers that change them, the effects that resynchronise
 * them with the props, and the text colour chosen to contrast with the picked colour.
 * Callbacks passed as props are recorded as the values they were called with.
 */
module ColourPicker {
  import opened Wrappers
  import opened Text
  import opened Numbers
  import opened ColorCodec

  /** JavaScript `s.slice(i, j)` for 0 <= i <= j. */
  function JsSlice(s: string, i: nat, j: nat): (r: string)
    requires i <= j
    ensures j <= |s| ==> r == s[i..j]
  {
    if i >= |s| then "" else s[i..MinInt(j, |s|)]
  }

  /**
   * Whether the relative luminance `(0.299 r + 0.587 g + 0.114 b) / 255` of the parsed
   * channels exceeds one half; a channel that does not parse (NaN) makes it false.
   */
  predicate Light(r: Option<int>, g: Option<int>, b: Option<int>) {
    r.Some? && g.Some? && b.Some?
    && (0.299 * r.value as real + 0.587 * g.value as real + 0.114 * b.value as real) / 255.0 > 0.5
  }

  /**
   * `calculateContrastTextColor`: black for an empty colour or a light one, upper-case
   * white otherwise.
   */
  function ContrastTextColour(hexColor: string): (r: string)
    ensures hexColor == "" ==> r == "#000000"
    ensures r == "#000000" || r == "#FFFFFF"
    ensures |hexColor| == 7 && hexColor[0] == '#' && SixHex(hexColor[1..]) ==>
      (r == "#000000" <==> 299 * PairAt(hexColor, 1) + 587 * PairAt(hexColor, 3) + 114 * PairAt(hexColor, 5) > 127500)
  {
    if hexColor == "" then "#000000"
    else
      var r, g, b := JsParseHex(JsSlice(hexColor, 1, 3)), JsParseHex(JsSlice(hexColor, 3, 5)), JsParseHex(JsSlice(hexColor, 5, 7));
      if |hexColor| == 7 && hexColor[0] == '#' && SixHex(hexColor[1..]) then
        ParsePairAt(hexColor, 1);
        ParsePairAt(hexColor, 3);
        ParsePairAt(hexColor, 5);
        if Light(r, g, b) then "#000000" else "#FFFFFF"
      else
        if Light(r, g, b) then "#000000" else "#FFFFFF"
  }

  lemma ParsePairAt(s: string, i: nat)
    requires i + 2 <= |s| && IsHexDigit(s[i]) && IsHexDigit(s[i + 1])
    ensures JsParseHex(s[i..i + 2]) == Some(PairAt(s, i))
  {
    assert s[i..i + 2] == [s[i], s[i + 1]];
    HexPairValue(s[i], s[i + 1]);
    JsParseHexPair(s[i..i + 2]);
  }

  /** White text goes on black and black text on white, whatever the case of the digits. */
  lemma ContrastExtremes()
    ensures ContrastTextColour("#ffffff") == "#000000"
    ensures ContrastTextColour("#FFFFFF") == "#000000"
    ensures ContrastTextColour("#000000") == "#FFFFFF"
  {
    Grey("#ffffff", 'f', 255);
    Grey("#FFFFFF", 'F', 255);
    Grey("#000000", '0', 0);
  }

  /** A grey `#dddddd` is light exactly when its channel value is above 127.5. */
  lemma Grey(hex: string, d: char, v: int)
    requires IsHexDigit(d) && HexValue(d) * 17 == v
    requires hex == ['#', d, d, d, d, d, d]
    ensures ContrastTextColour(hex) == (if v * 1000 > 127500 then "#000000" else "#FFFFFF")
  {
    assert hex[1..] == [d, d, d, d, d, d];
    assert PairAt(hex, 1) == v && PairAt(hex, 3) == v && PairAt(hex, 5) == v;
  }

  /** The local state of one picker. */
  class Picker {
    var color: string
    var isEnabled: bool
    /** The colours passed to `onColorChange`, in order. */
    var changes: seq<string>
    /** The values passed to `onToggle`, in order. */
    var toggles: seq<bool>

    /** The initial state: the default colour, enabled unless disabled. */
    constructor (defaultColor: string, disabled: bool)
      ensures color == defaultColor && isEnabled == !disabled
      ensures changes == [] && toggles == []
    {
      color := defaultColor;
      isEnabled := !disabled;
      changes := [];
      toggles := [];
    }

    /** `handleColorChange`: ignored while disabled; otherwise kept and forwarded. */
    method HandleColorChange(newColor: string)
      modifies this
      ensures !old(isEnabled) ==> color == old(color) && changes == old(changes)
      ensures old(isEnabled) ==> color == newColor && changes == old(changes) + [newColor]
      ensures isEnabled == old(isEnabled) && toggles == old(toggles)
    {
      if !isEnabled {
        return;
      }
      color := newColor;
      changes := changes + [newColor];
    }

    /** `handleToggle`: the flag takes the checkbox value, forwarded when `onToggle` is given. */
    method HandleToggle(checked: bool, hasOnToggle: bool)
      modifies this
      ensures isEnabled == checked
      ensures hasOnToggle ==> toggles == old(toggles) + [checked]
      ensures !hasOnToggle ==> toggles == old(toggles)
      ensures color == old(color) && changes == old(changes)
    {
      isEnabled := checked;
      if hasOnToggle {
        toggles := toggles + [checked];
      }
    }

    /** The effect on `defaultColor`: the local colour follows the prop. */
    method SyncColour(defaultColor: string)
      modifies this
      ensures color == defaultColor
      ensures isEnabled == old(isEnabled) && changes == old(changes) && toggles == old(toggles)
    {
      color := defaultColor;
    }

    /** The effect on `disabled`: enabled exactly when not disabled. */
    method SyncDisabled(disabled: bool)
      modifies this
      ensures isEnabled == !disabled
      ensures color == old(color) && changes == old(changes) && toggles == old(toggles)
    {
      isEnabled := !disabled;
    }
  }
}
