/**
 * The pure decisions of the saved-palettes page, frontend/src/components/layout/MyPalettesPage.tsx:
 * the search over the user's palettes, the preview request for the selected one, the
 * presentation of its generated files, the label colour on its seed colours, and when
 * its files can be downloaded. The swatch grid it shares with the preview is in `Swatches`.
 */
module MyPalettes {
  import opened Wrappers
  import opened Text
  import opened Numbers
  import opened ColorCodec
  import opened PaletteService
  import opened Swatches

  /** The generation status of a saved palette ('processing', 'completed' or 'error'). */
  datatype Status = Processing | Completed | Failed

  /** `UserPalette`, without its timestamps and files. */
  datatype UserPalette = UserPalette(id: int, name: string, primary: string, secondary: Option<string>,
                                     tertiary: Option<string>, status: Status)

  /** Whether the palette's name contains the search term, both lower-cased. */
  predicate Matches(palette: UserPalette, term: string) {
    Contains(Lower(palette.name), Lower(term))
  }

  /** The filtered list the search effect stores: the matching palettes, in their order. */
  function Search(palettes: seq<UserPalette>, term: string): (r: seq<UserPalette>)
    ensures |r| <= |palettes|
    ensures forall p :: p in r <==> p in palettes && Matches(p, term)
  {
    Filter(palettes, p => Matches(p, term))
  }

  /** An empty search term keeps every palette, in order. */
  lemma SearchEmpty(palettes: seq<UserPalette>)
    ensures Search(palettes, "") == palettes
  {
    forall i | 0 <= i < |palettes| ensures Matches(palettes[i], "") {
      ContainsEmpty(Lower(palettes[i].name));
    }
    FilterAll(palettes, p => Matches(p, ""));
  }

  /** The search of a concatenation is the concatenation of the searches: order is kept. */
  lemma SearchAppend(a: seq<UserPalette>, b: seq<UserPalette>, term: string)
    ensures Search(a + b, term) == Search(a, term) + Search(b, term)
  {
    FilterAppend(a, b, p => Matches(p, term));
  }

  lemma LowerOfUpper(s: string)
    ensures Lower(Upper(s)) == Lower(s)
  {
    assert forall i :: 0 <= i < |s| ==> LowerChar(UpperChar(s[i])) == LowerChar(s[i]);
  }

  lemma UpperOfLower(s: string)
    ensures Upper(Lower(s)) == Upper(s)
  {
    assert forall i :: 0 <= i < |s| ==> UpperChar(LowerChar(s[i])) == UpperChar(s[i]);
  }

  /** The search ignores the case of the term. */
  lemma SearchIgnoresCase(palettes: seq<UserPalette>, term: string)
    ensures Search(palettes, Upper(term)) == Search(palettes, term)
  {
    LowerOfUpper(term);
    FilterSame(palettes, p => Matches(p, Upper(term)), p => Matches(p, term));
  }

  /**
   * The body of the preview request in `fetchPaletteData`: a missing or empty secondary
   * colour is replaced by #a351a9, and the tertiary colour comes with `include_tertiary`
   * only when the palette has one.
   */
  function PreviewPayload(palette: UserPalette): (r: PreviewRequest)
    ensures r.primary == palette.primary
    ensures Truthy(palette.secondary) ==> r.secondary == palette.secondary.value
    ensures !Truthy(palette.secondary) ==> r.secondary == "#a351a9"
    ensures r.tertiary.Some? <==> Truthy(palette.tertiary)
    ensures r.includeTertiary.Some? <==> Truthy(palette.tertiary)
    ensures Truthy(palette.tertiary) ==> r.tertiary == palette.tertiary && r.includeTertiary == Some(true)
  {
    PreviewRequest(palette.primary,
                   if palette.secondary.Some? && palette.secondary.value != "" then palette.secondary.value else "#a351a9",
                   if palette.tertiary.Some? && palette.tertiary.value != "" then palette.tertiary else None,
                   if palette.tertiary.Some? && palette.tertiary.value != "" then Some(true) else None)
  }

  /** How a generated file is shown: its icon, colour and label. */
  datatype FileStyle = FileStyle(icon: string, color: string, caption: string)

  const TypeScriptStyle := FileStyle("vscode-icons:file-type-typescript", "warning.main", "TypeScript")

  /** Whether `getFileTypeConfig` knows the upper-cased type. */
  predicate KnownFileType(upper: string) {
    upper == "XLSX" || upper == "PNG" || upper == "TYPESCRIPT" || upper == "TS" || upper == "DART" || upper == "CSS"
  }

  /**
   * `getFileTypeConfig`: the entry for the upper-cased type, or a default file icon in
   * grey.300 labelled with the type as given. No key inherited by a JavaScript object is
   * all upper-case, so only the six entries can match.
   */
  function FileTypeConfig(fileType: string): (r: FileStyle)
    ensures !KnownFileType(Upper(fileType)) ==> r == FileStyle("vscode-icons:default-file", "grey.300", fileType)
    ensures Upper(fileType) == "TS" || Upper(fileType) == "TYPESCRIPT" ==> r == TypeScriptStyle
    ensures Upper(fileType) == "XLSX" ==> r.caption == "Excel" && r.color == "success.main"
    ensures Upper(fileType) == "PNG" ==> r.caption == "PNG Image" && r.color == "info.main"
    ensures Upper(fileType) == "DART" ==> r.caption == "Dart" && r.color == "primary.main"
    ensures Upper(fileType) == "CSS" ==> r.caption == "CSS" && r.color == "secondary.main"
  {
    var t := Upper(fileType);
    if t == "XLSX" then FileStyle("vscode-icons:file-type-excel", "success.main", "Excel")
    else if t == "PNG" then FileStyle("vscode-icons:file-type-image", "info.main", "PNG Image")
    else if t == "TYPESCRIPT" then TypeScriptStyle
    else if t == "TS" then TypeScriptStyle
    else if t == "DART" then FileStyle("vscode-icons:file-type-dartlang", "primary.main", "Dart")
    else if t == "CSS" then FileStyle("vscode-icons:file-type-css", "secondary.main", "CSS")
    else FileStyle("vscode-icons:default-file", "grey.300", fileType)
  }

  /** A known type is styled the same whatever its case; an unknown one keeps its own spelling as label. */
  lemma FileTypeIgnoresCase(fileType: string)
    ensures KnownFileType(Upper(fileType)) ==> FileTypeConfig(Lower(fileType)) == FileTypeConfig(fileType)
    ensures !KnownFileType(Upper(fileType)) ==> FileTypeConfig(Lower(fileType)).caption == Lower(fileType)
  {
    UpperOfLower(fileType);
  }

  /** `parseInt(hex.slice(1), 16)`, with NaN read as 0 as the shifts that follow do. */
  function SeedValue(hex: string): int {
    var digits := if |hex| >= 1 then hex[1..] else "";
    match JsParseHex(digits)
    case Some(v) => v
    case None => 0
  }

  /**
   * The label colour on a seed colour: the red, green and blue bytes of the parsed value
   * weighted 299/587/114; black ('#000') when the weighted mean exceeds 128, white otherwise.
   */
  function SeedLabelColour(hex: string): (r: string)
    ensures r == "#000" || r == "#fff"
    ensures SeedValue(hex) == 0 ==> r == "#fff"
    ensures |hex| == 7 && hex[0] == '#' && SixHex(hex[1..]) ==>
      (r == "#000" <==> 299 * PairAt(hex, 1) + 587 * PairAt(hex, 3) + 114 * PairAt(hex, 5) > 128000)
  {
    var rgb := SeedValue(hex);
    var red, green, blue := LowByte(ShiftRight(rgb, 16)), LowByte(ShiftRight(rgb, 8)), LowByte(rgb);
    ZeroChannels();
    if |hex| == 7 && hex[0] == '#' && SixHex(hex[1..]) then
      SeedChannels(hex);
      if (red * 299 + green * 587 + blue * 114) as real / 1000.0 > 128.0 then "#000" else "#fff"
    else
      if (red * 299 + green * 587 + blue * 114) as real / 1000.0 > 128.0 then "#000" else "#fff"
  }

  /** A zero seed has three zero channels. */
  lemma ZeroChannels()
    ensures LowByte(ShiftRight(0, 16)) == 0 && LowByte(ShiftRight(0, 8)) == 0 && LowByte(0) == 0
  {
    Pow2Values();
  }

  /** The three channels of a `#rrggbb` seed are its three digit pairs. */
  lemma SeedChannels(hex: string)
    requires |hex| == 7 && hex[0] == '#' && SixHex(hex[1..])
    ensures var rgb := SeedValue(hex);
      && LowByte(ShiftRight(rgb, 16)) == PairAt(hex, 1)
      && LowByte(ShiftRight(rgb, 8)) == PairAt(hex, 3)
      && LowByte(rgb) == PairAt(hex, 5)
  {
    SeedValueOfDigits(hex);
    Channels(PairAt(hex, 1), PairAt(hex, 3), PairAt(hex, 5));
  }

  /** Six hex digits after the `#` parse to the three pairs packed as 0xRRGGBB. */
  lemma SeedValueOfDigits(hex: string)
    requires |hex| == 7 && hex[0] == '#' && SixHex(hex[1..])
    ensures SeedValue(hex) == 65536 * PairAt(hex, 1) + 256 * PairAt(hex, 3) + PairAt(hex, 5)
  {
    var d := hex[1..];
    assert AllHex(d) by {
      assert forall i :: 0 <= i < 6 ==> d[i] == hex[i + 1];
    }
    assert !HasHexPrefix(d) by {
      assert IsHexDigit(d[1]);
    }
    JsParseHexOfDigits(d);
    SixDigits(d);
    assert PairAt(d, 0) == PairAt(hex, 1) && PairAt(d, 2) == PairAt(hex, 3) && PairAt(d, 4) == PairAt(hex, 5);
  }

  /** Six hexadecimal digits are three bytes, most significant first. */
  lemma SixDigits(d: string)
    requires |d| == 6 && AllHex(d)
    ensures HexNumber(d) == 65536 * PairAt(d, 0) + 256 * PairAt(d, 2) + PairAt(d, 4)
  {
    assert d[..1][..0] == [];
    assert d[..2][..1] == d[..1];
    assert d[..3][..2] == d[..2];
    assert d[..4][..3] == d[..3];
    assert d[..5][..4] == d[..4];
    assert d[..6] == d && d[..5] == d[..|d| - 1];
    assert HexNumber(d[..1]) == HexValue(d[0]);
    assert HexNumber(d[..2]) == HexNumber(d[..1]) * 16 + HexValue(d[1]);
    assert HexNumber(d[..3]) == HexNumber(d[..2]) * 16 + HexValue(d[2]);
    assert HexNumber(d[..4]) == HexNumber(d[..3]) * 16 + HexValue(d[3]);
    assert HexNumber(d[..5]) == HexNumber(d[..4]) * 16 + HexValue(d[4]);
  }

  /** Shifting and masking a 24-bit value recovers its three bytes. */
  lemma Channels(x: int, y: int, z: int)
    requires 0 <= x < 256 && 0 <= y < 256 && 0 <= z < 256
    ensures var v := 65536 * x + 256 * y + z;
      LowByte(ShiftRight(v, 16)) == x && LowByte(ShiftRight(v, 8)) == y && LowByte(v) == z
  {
    Pow2Values();
    var v := 65536 * x + 256 * y + z;
    assert ToInt32(v) == v;
    assert v / 65536 == x;
    assert v / 256 == 256 * x + y;
    assert ToInt32(x) == x && ToInt32(256 * x + y) == 256 * x + y;
  }

  /** Black and white seeds get white and black labels. */
  lemma SeedLabelExtremes()
    ensures SeedLabelColour("#000000") == "#fff" && SeedLabelColour("#ffffff") == "#000"
  {
    assert SixHex("#000000"[1..]) && SixHex("#ffffff"[1..]);
    assert PairAt("#ffffff", 1) == 255 && PairAt("#ffffff", 3) == 255 && PairAt("#ffffff", 5) == 255;
  }

  /** The download buttons are disabled unless a palette is selected and its files are complete. */
  predicate DownloadDisabled(selected: Option<UserPalette>) {
    selected.None? || selected.value.status != Completed
  }

  /** Only a completed palette's files can be downloaded, whatever else it holds. */
  lemma DownloadOnlyWhenCompleted(selected: Option<UserPalette>)
    ensures !DownloadDisabled(selected) <==> selected.Some? && selected.value.status == Completed
  {
  }

  /** The swatch columns of the selected palette: the tertiary column needs a tertiary seed. */
  function SwatchColumns(data: PaletteVars.PreviewPalette, selected: Option<UserPalette>): (r: seq<string>)
    ensures "tertiary" in r <==> selected.Some? && Truthy(selected.value.tertiary) && PaletteVars.ShowsTertiary(data, true)
  {
    OrderedSwatchKeys(data, selected.Some? && Truthy(selected.value.tertiary))
  }
}
