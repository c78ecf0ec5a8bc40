/**
 * The shape shared by the generators' text writers (CSS, TypeScript, Dart): for each
 * colour of the palette, in palette order, some opening lines, then one line per shade in
 * ramp order, then some closing lines. A file is written line by line; a line here is its
 * text without the trailing newline.
 */
module PaletteText {
  import opened Text
  import opened ColorCodec
  import opened ShadeRamp

  /** A palette: colour names with their ramps, in insertion order. */
  type Palette = seq<(string, Ramp)>

  /** How a writer renders one colour: lines before its shades, one line per shade, lines after. */
  datatype Layout = Layout(open: string -> seq<string>, line: (string, string, Hsb) -> string, close: seq<string>)

  /** A CSS custom property for one shade: `  --{name.lower()}-{shade}: {hex};`. */
  function CssVarLine(name: string, shade: string, hex: string): string {
    "  --" + Lower(name) + "-" + shade + ": " + hex + ";"
  }

  /** The lines for the shades of one colour, in ramp order. */
  function ShadeLines(layout: Layout, name: string, ramp: Ramp): (r: seq<string>)
    ensures |r| == |ramp|
    ensures forall j :: 0 <= j < |ramp| ==> r[j] == layout.line(name, ramp[j].0, ramp[j].1)
  {
    seq(|ramp|, j requires 0 <= j < |ramp| => layout.line(name, ramp[j].0, ramp[j].1))
  }

  /** All lines for one colour. */
  function ColourBlock(layout: Layout, name: string, ramp: Ramp): seq<string> {
    layout.open(name) + ShadeLines(layout, name, ramp) + layout.close
  }

  /** The blocks of all colours, one after the other in palette order. */
  function PaletteLines(layout: Layout, palette: Palette): seq<string> {
    if palette == [] then []
    else
      var last := palette[|palette| - 1];
      PaletteLines(layout, palette[..|palette| - 1]) + ColourBlock(layout, last.0, last.1)
  }

  /**
   * The nested `for name, palette in self.palette.items(): ... for shade, hsb in
   * palette.items(): f.write(...)` loop of every writer.
   */
  method WritePaletteLines(layout: Layout, palette: Palette) returns (lines: seq<string>)
    ensures lines == PaletteLines(layout, palette)
  {
    lines := [];
    var i := 0;
    while i < |palette|
      invariant 0 <= i <= |palette|
      invariant lines == PaletteLines(layout, palette[..i])
    {
      var (name, ramp) := palette[i];
      lines := lines + layout.open(name);
      var j := 0;
      while j < |ramp|
        invariant 0 <= j <= |ramp|
        invariant lines == PaletteLines(layout, palette[..i]) + layout.open(name) + ShadeLines(layout, name, ramp[..j])
      {
        var (shade, hsb) := ramp[j];
        lines := lines + [layout.line(name, shade, hsb)];
        j := j + 1;
      }
      assert ramp[..j] == ramp;
      lines := lines + layout.close;
      assert palette[..i + 1][..i] == palette[..i];
      i := i + 1;
    }
    assert palette[..i] == palette;
  }

  /**
   * When every colour's block has `m` lines, the output has `m` lines per colour and line
   * `c * m + t` is line `t` of colour `c`'s block: one block per colour, in palette order,
   * nothing else.
   */
  lemma {:induction false} PaletteLinesAt(layout: Layout, palette: Palette, m: nat)
    requires forall c :: 0 <= c < |palette| ==> |ColourBlock(layout, palette[c].0, palette[c].1)| == m
    ensures |PaletteLines(layout, palette)| == |palette| * m
    ensures forall c, t :: 0 <= c < |palette| && 0 <= t < m ==>
      PaletteLines(layout, palette)[BlockLine(c, t, m, |palette|)] == ColourBlock(layout, palette[c].0, palette[c].1)[t]
  {
    if palette != [] {
      var n := |palette|;
      var init := palette[..n - 1];
      assert forall c :: 0 <= c < |init| ==> init[c] == palette[c];
      PaletteLinesAt(layout, init, m);
      var rest := PaletteLines(layout, init);
      assert |rest| == (n - 1) * m;
      assert n * m == (n - 1) * m + m;
      forall c, t | 0 <= c < n && 0 <= t < m
        ensures PaletteLines(layout, palette)[BlockLine(c, t, m, n)] == ColourBlock(layout, palette[c].0, palette[c].1)[t]
      {
        if c < n - 1 {
          assert BlockLine(c, t, m, n) == BlockLine(c, t, m, n - 1);
          assert init[c] == palette[c];
        }
      }
    }
  }

  /** A colour's block: its opening lines, then its shade lines, then the closing lines. */
  lemma ColourBlockParts(layout: Layout, name: string, ramp: Ramp)
    ensures var block, a := ColourBlock(layout, name, ramp), |layout.open(name)|;
      && |block| == a + |ramp| + |layout.close|
      && (forall t :: 0 <= t < a ==> block[t] == layout.open(name)[t])
      && (forall j :: 0 <= j < |ramp| ==> block[a + j] == layout.line(name, ramp[j].0, ramp[j].1))
  {
    var lines := ShadeLines(layout, name, ramp);
    assert forall j :: 0 <= j < |ramp| ==> lines[j] == layout.line(name, ramp[j].0, ramp[j].1);
  }

  /** A block with one opening and one closing line: the opening line, then the shade lines. */
  lemma OneLineEnds(layout: Layout, name: string, ramp: Ramp)
    requires |layout.open(name)| == 1 && |layout.close| == 1
    ensures var block := ColourBlock(layout, name, ramp);
      && |block| == |ramp| + 2
      && block[0] == layout.open(name)[0]
      && forall j :: 0 <= j < |ramp| ==> block[1 + j] == layout.line(name, ramp[j].0, ramp[j].1)
  {
    ColourBlockParts(layout, name, ramp);
  }

  /** The variables block of a CSS file: one custom property per colour and shade, nothing else. */
  function CssLayout(hsvToRgb: Colorsys): Layout {
    Layout(name => [], (name, shade, hsb) => CssVarLine(name, shade, HsbToHex(hsvToRgb, hsb)), [])
  }

  /**
   * With `n` shades per colour, the variables block has `n` lines per colour and line
   * `c * n + j` is the custom property of colour `c`'s shade `j`.
   */
  lemma CssVarLinesAt(hsvToRgb: Colorsys, palette: Palette, n: nat)
    requires forall c :: 0 <= c < |palette| ==> |palette[c].1| == n
    ensures |PaletteLines(CssLayout(hsvToRgb), palette)| == |palette| * n
    ensures forall c, j :: 0 <= c < |palette| && 0 <= j < n ==>
      PaletteLines(CssLayout(hsvToRgb), palette)[BlockLine(c, j, n, |palette|)]
        == CssVarLine(palette[c].0, palette[c].1[j].0, HsbToHex(hsvToRgb, palette[c].1[j].1))
  {
    var layout := CssLayout(hsvToRgb);
    forall c | 0 <= c < |palette| ensures |ColourBlock(layout, palette[c].0, palette[c].1)| == n {
      ColourBlockParts(layout, palette[c].0, palette[c].1);
    }
    PaletteLinesAt(layout, palette, n);
    forall c, j | 0 <= c < |palette| && 0 <= j < n
      ensures ColourBlock(layout, palette[c].0, palette[c].1)[j]
        == CssVarLine(palette[c].0, palette[c].1[j].0, HsbToHex(hsvToRgb, palette[c].1[j].1))
    {
      ColourBlockParts(layout, palette[c].0, palette[c].1);
      assert |layout.open(palette[c].0)| == 0;
    }
  }

  /** Line `t` of block `c` when every block has `m` lines: `c * m + t`, inside the first `k` blocks. */
  function BlockLine(c: nat, t: nat, m: nat, k: nat): (i: nat)
    requires c < k && t < m
    ensures i < k * m
  {
    MulMonotone(c + 1, k, m);
    assert (c + 1) * m == c * m + m;
    c * m + t
  }

  lemma {:induction false} MulMonotone(a: nat, b: nat, m: nat)
    requires a <= b
    ensures a * m <= b * m
  {
    if a < b {
      MulMonotone(a, b - 1, m);
      assert (b - 1) * m + m == b * m;
    }
  }
}
