/** `PixelFont`: a 3 x 5 bitmap font and the renderer that lays glyphs out
    side by side with a one-pixel gap. A grid is a sequence of rows. */
module PixelFont {
  import opened Geometry
  import opened Text

  type Grid = seq<seq<bool>>

  const T: bool := true
  const F: bool := false

  const GlyphWidth: nat := 3
  const GlyphHeight: nat := 5
  /** Horizontal distance between the left edges of neighbouring glyphs:
      three pixels of glyph and one of gap. */
  const Advance: nat := 4

  /** Five rows of three pixels. */
  predicate IsGlyph(g: Grid)
  {
    |g| == GlyphHeight && forall r :: 0 <= r < |g| ==> |g[r]| == GlyphWidth
  }

  /** The glyph table: uppercase letters, digits and ". - ! ? space". */
  function Glyph(c: char): Option<Grid>
  {
    match c
    case 'A' => Some([[F,T,F],[T,F,T],[T,T,T],[T,F,T],[T,F,T]])
    case 'B' => Some([[T,T,F],[T,F,T],[T,T,F],[T,F,T],[T,T,F]])
    case 'C' => Some([[F,T,T],[T,F,F],[T,F,F],[T,F,F],[F,T,T]])
    case 'D' => Some([[T,T,F],[T,F,T],[T,F,T],[T,F,T],[T,T,F]])
    case 'E' => Some([[T,T,T],[T,F,F],[T,T,F],[T,F,F],[T,T,T]])
    case 'F' => Some([[T,T,T],[T,F,F],[T,T,F],[T,F,F],[T,F,F]])
    case 'G' => Some([[F,T,T],[T,F,F],[T,F,T],[T,F,T],[F,T,T]])
    case 'H' => Some([[T,F,T],[T,F,T],[T,T,T],[T,F,T],[T,F,T]])
    case 'I' => Some([[T,T,T],[F,T,F],[F,T,F],[F,T,F],[T,T,T]])
    case 'J' => Some([[F,F,T],[F,F,T],[F,F,T],[T,F,T],[F,T,F]])
    case 'K' => Some([[T,F,T],[T,F,T],[T,T,F],[T,F,T],[T,F,T]])
    case 'L' => Some([[T,F,F],[T,F,F],[T,F,F],[T,F,F],[T,T,T]])
    case 'M' => Some([[T,F,T],[T,T,T],[T,T,T],[T,F,T],[T,F,T]])
    case 'N' => Some([[T,F,T],[T,T,T],[T,T,T],[T,T,T],[T,F,T]])
    case 'O' => Some([[F,T,F],[T,F,T],[T,F,T],[T,F,T],[F,T,F]])
    case 'P' => Some([[T,T,F],[T,F,T],[T,T,F],[T,F,F],[T,F,F]])
    case 'Q' => Some([[F,T,F],[T,F,T],[T,F,T],[T,T,F],[F,T,T]])
    case 'R' => Some([[T,T,F],[T,F,T],[T,T,F],[T,F,T],[T,F,T]])
    case 'S' => Some([[F,T,T],[T,F,F],[F,T,F],[F,F,T],[T,T,F]])
    case 'T' => Some([[T,T,T],[F,T,F],[F,T,F],[F,T,F],[F,T,F]])
    case 'U' => Some([[T,F,T],[T,F,T],[T,F,T],[T,F,T],[F,T,F]])
    case 'V' => Some([[T,F,T],[T,F,T],[T,F,T],[T,F,T],[F,T,F]])
    case 'W' => Some([[T,F,T],[T,F,T],[T,T,T],[T,T,T],[T,F,T]])
    case 'X' => Some([[T,F,T],[T,F,T],[F,T,F],[T,F,T],[T,F,T]])
    case 'Y' => Some([[T,F,T],[T,F,T],[F,T,F],[F,T,F],[F,T,F]])
    case 'Z' => Some([[T,T,T],[F,F,T],[F,T,F],[T,F,F],[T,T,T]])
    case '0' => Some([[F,T,F],[T,F,T],[T,F,T],[T,F,T],[F,T,F]])
    case '1' => Some([[F,T,F],[T,T,F],[F,T,F],[F,T,F],[T,T,T]])
    case '2' => Some([[T,T,F],[F,F,T],[F,T,F],[T,F,F],[T,T,T]])
    case '3' => Some([[T,T,F],[F,F,T],[F,T,F],[F,F,T],[T,T,F]])
    case '4' => Some([[T,F,T],[T,F,T],[T,T,T],[F,F,T],[F,F,T]])
    case '5' => Some([[T,T,T],[T,F,F],[T,T,F],[F,F,T],[T,T,F]])
    case '6' => Some([[F,T,T],[T,F,F],[T,T,F],[T,F,T],[F,T,F]])
    case '7' => Some([[T,T,T],[F,F,T],[F,T,F],[F,T,F],[F,T,F]])
    case '8' => Some([[F,T,F],[T,F,T],[F,T,F],[T,F,T],[F,T,F]])
    case '9' => Some([[F,T,F],[T,F,T],[F,T,T],[F,F,T],[T,T,F]])
    case '.' => Some([[F,F,F],[F,F,F],[F,F,F],[F,F,F],[F,T,F]])
    case '-' => Some([[F,F,F],[F,F,F],[T,T,T],[F,F,F],[F,F,F]])
    case '!' => Some([[F,T,F],[F,T,F],[F,T,F],[F,F,F],[F,T,F]])
    case '?' => Some([[T,T,F],[F,F,T],[F,T,F],[F,F,F],[F,T,F]])
    case ' ' => Some([[F,F,F],[F,F,F],[F,F,F],[F,F,F],[F,F,F]])
    case _ => None
  }

  predicate HasGlyph(c: char)
  {
    ('A' <= c <= 'Z') || ('0' <= c <= '9') || c == '.' || c == '-' || c == '!' || c == '?' || c == ' '
  }

  /** The table holds exactly the 41 characters above, each a 3 x 5 bitmap. */
  lemma GlyphTable(c: char)
    ensures Glyph(c).Some? <==> HasGlyph(c)
    ensures Glyph(c).Some? ==> IsGlyph(Glyph(c).value)
  {
  }

  /** The glyph drawn for `c`: its own, or the '?' glyph when it has none. */
  function GlyphFor(c: char): (g: Grid)
    ensures IsGlyph(g)
    ensures HasGlyph(c) ==> Some(g) == Glyph(c)
    ensures !HasGlyph(c) ==> Some(g) == Glyph('?')
  {
    GlyphTable(c);
    GlyphTable('?');
    match Glyph(c)
    case Some(g) => g
    case None => Glyph('?').value
  }

  /** The glyphs of the uppercased text, one per character. */
  function CharGrids(text: string): (gs: seq<Grid>)
    ensures |gs| == |text|
    ensures forall i :: 0 <= i < |text| ==> gs[i] == GlyphFor(UpperChar(text[i]))
  {
    var upper := Upper(text);
    seq(|upper|, i requires 0 <= i < |upper| => GlyphFor(upper[i]))
  }

  /** Pixel (r, col) of a rendered line: gap columns are off, the others
      come from glyph col / 4 at column col % 4. */
  function Cell(gs: seq<Grid>, r: nat, col: nat): bool
    requires r < GlyphHeight && col < |gs| * Advance
    requires forall i :: 0 <= i < |gs| ==> IsGlyph(gs[i])
  {
    if col % Advance == GlyphWidth then false
    else
      var ci := col / Advance;
      assert ci < |gs| && IsGlyph(gs[ci]);
      gs[ci][r][col % Advance]
  }

  /** The rendered grid, pixel by pixel: nothing for empty text, else five
      rows of 4n - 1 pixels. */
  function RenderSpec(text: string): (grid: Grid)
    ensures text == [] <==> grid == []
    ensures text != [] ==> |grid| == GlyphHeight
    ensures text != [] ==> forall r :: 0 <= r < |grid| ==> |grid[r]| == Advance * |text| - 1
  {
    var gs := CharGrids(text);
    if gs == [] then []
    else
      var w := Advance * |gs| - 1;
      seq(GlyphHeight, r requires 0 <= r < GlyphHeight =>
        seq(w, col requires 0 <= col < w => Cell(gs, r, col)))
  }

  lemma DivMod4(ci: nat, c: nat)
    requires c < Advance
    ensures (Advance * ci + c) / Advance == ci && (Advance * ci + c) % Advance == c
  {
  }

  /** Glyph ci occupies columns 4ci .. 4ci + 2 of every row, and the column
      after it is a blank gap. */
  lemma RenderPlacesGlyphs(text: string, r: nat, ci: nat, c: nat)
    requires r < GlyphHeight && ci < |text| && c < Advance
    ensures c < GlyphWidth ==> RenderSpec(text)[r][Advance * ci + c] == GlyphFor(UpperChar(text[ci]))[r][c]
    ensures c == GlyphWidth && Advance * ci + c < Advance * |text| - 1 ==>
              !RenderSpec(text)[r][Advance * ci + c]
  {
    DivMod4(ci, c);
  }

  /** Rendering uppercases first, so the case of the input does not matter. */
  lemma RenderIgnoresCase(text: string)
    ensures RenderSpec(Upper(text)) == RenderSpec(text)
  {
    UpperIdempotent(text);
    assert CharGrids(Upper(text)) == CharGrids(text);
  }

  /** A character without a glyph, even after uppercasing, renders as '?'. */
  lemma UnknownRendersAsQuestionMark(c: char)
    requires !HasGlyph(UpperChar(c))
    ensures RenderSpec([c]) == RenderSpec("?")
  {
    assert CharGrids([c]) == CharGrids("?");
  }

  // ---------------------------------------------------------------------
  // The renderer as written: a blank grid filled glyph by glyph

  /** Whether pixel (r, col) has been written once glyphs 0 .. ci - 1 are
      done, rows 0 .. row - 1 of glyph ci are done and columns 0 .. c - 1 of
      its row `row` are done. Gap columns are never written. */
  predicate Written(ci: nat, row: nat, c: nat, r: nat, col: nat)
  {
    || col < Advance * ci
    || (r < row && Advance * ci <= col < Advance * ci + GlyphWidth)
    || (r == row && Advance * ci <= col < Advance * ci + c)
  }

  ghost predicate Progress(grid: Grid, gs: seq<Grid>, ci: nat, row: nat, c: nat)
    requires forall i :: 0 <= i < |gs| ==> IsGlyph(gs[i])
  {
    && |grid| == GlyphHeight
    && (forall r :: 0 <= r < GlyphHeight ==> |grid[r]| == Advance * |gs| - 1)
    && forall r, col :: 0 <= r < GlyphHeight && 0 <= col < Advance * |gs| - 1 ==>
         grid[r][col] == (if Written(ci, row, c, r, col) && col % Advance != GlyphWidth then Cell(gs, r, col) else false)
  }

  /** One row of glyph ci: its three pixels copied into the grid. */
  method PlaceRow(grid: Grid, gs: seq<Grid>, ci: nat, row: nat) returns (out: Grid)
    requires forall i :: 0 <= i < |gs| ==> IsGlyph(gs[i])
    requires ci < |gs| && row < GlyphHeight
    requires Progress(grid, gs, ci, row, 0)
    ensures Progress(out, gs, ci, row + 1, 0)
  {
    out := grid;
    var c := 0;
    while c < GlyphWidth
      invariant 0 <= c <= GlyphWidth
      invariant Progress(out, gs, ci, row, c)
    {
      DivMod4(ci, c);
      out := out[row := out[row][Advance * ci + c := gs[ci][row][c]]];
      c := c + 1;
    }
  }

  /** `PixelFont.render`: uppercase, look up each glyph (falling back to
      '?'), then copy every glyph's pixels at horizontal offset 4 * index. */
  method Render(text: string) returns (grid: Grid)
    ensures grid == RenderSpec(text)
  {
    var gs := CharGrids(text);
    if |gs| == 0 {
      return [];
    }
    var totalW := Advance * |gs| - 1;
    grid := seq(GlyphHeight, _ => seq(totalW, _ => false));
    var ci := 0;
    while ci < |gs|
      invariant 0 <= ci <= |gs|
      invariant Progress(grid, gs, ci, 0, 0)
    {
      var row := 0;
      while row < GlyphHeight
        invariant 0 <= row <= GlyphHeight
        invariant Progress(grid, gs, ci, row, 0)
      {
        grid := PlaceRow(grid, gs, ci, row);
        row := row + 1;
      }
      assert Progress(grid, gs, ci + 1, 0, 0) by {
        forall r, col | 0 <= r < GlyphHeight && 0 <= col < totalW
          ensures Written(ci, GlyphHeight, 0, r, col) && col % Advance != GlyphWidth
                  <==> Written(ci + 1, 0, 0, r, col) && col % Advance != GlyphWidth
        {
          if Advance * ci + GlyphWidth == col {
            DivMod4(ci, GlyphWidth);
          }
        }
      }
      ci := ci + 1;
    }
    var spec := RenderSpec(text);
    forall r | 0 <= r < GlyphHeight
      ensures grid[r] == spec[r]
    {
      assert forall col :: 0 <= col < totalW ==> grid[r][col] == spec[r][col];
    }
  }
}
