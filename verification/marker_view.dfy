/** The arithmetic of a person's marker: the name shown on the tag, the
    tag's estimated half width, the mapping between normalized chart
    coordinates and pixels, the clamped tag position and the normalized
    point a finished drag reports. */
module MarkerView {
  import opened Geometry
  import opened Text
  import opened People
  import PixelFont
  import Theme
  import TagLayout
  import ChartModel

  // ---------------------------------------------------------------------
  // Name tag text

  /** `NameTagView.maxDisplayChars`; the same cap as the layout engine's. */
  const MaxDisplayChars: nat := TagLayout.MaxDisplayChars as nat

  const Ellipsis: char := '…'

  /** `displayName`: the uppercased name, cut to 11 characters plus an
      ellipsis when it is longer than 12. */
  function DisplayName(name: string): (r: string)
    ensures |r| == MinInt(|name|, MaxDisplayChars)
  {
    var upper := Upper(name);
    if |upper| <= MaxDisplayChars then upper
    else upper[..MaxDisplayChars - 1] + [Ellipsis]
  }

  /** What the tag shows, character by character: a name of at most 12
      characters is shown whole, uppercased; a longer one shows its first 11
      characters, uppercased, then an ellipsis. */
  lemma DisplayNameShows(name: string)
    ensures |name| <= MaxDisplayChars ==>
              forall i :: 0 <= i < |name| ==> DisplayName(name)[i] == UpperChar(name[i])
    ensures |name| > MaxDisplayChars ==>
              && (forall i :: 0 <= i < MaxDisplayChars - 1 ==> DisplayName(name)[i] == UpperChar(name[i]))
              && DisplayName(name)[MaxDisplayChars - 1] == Ellipsis
  {
  }

  /** Long names that agree on their first 11 characters look the same. */
  lemma DisplayNameKeepsPrefix(a: string, b: string)
    requires |a| > MaxDisplayChars && |b| > MaxDisplayChars
    requires a[..MaxDisplayChars - 1] == b[..MaxDisplayChars - 1]
    ensures DisplayName(a) == DisplayName(b)
  {
    UpperPrefix(a, MaxDisplayChars - 1);
    UpperPrefix(b, MaxDisplayChars - 1);
  }

  /** Shortening is done once: the display name of a display name is itself. */
  lemma DisplayNameIdempotent(name: string)
    ensures DisplayName(DisplayName(name)) == DisplayName(name)
  {
    var d := DisplayName(name);
    UpperIdempotent(Upper(name));
    assert forall i :: 0 <= i < |d| ==> UpperChar(d[i]) == d[i];
  }

  // ---------------------------------------------------------------------
  // Tag width

  /** `estimatedTagHalfWidth(name:theme:)` in points, from the name's length. */
  function EstimatedTagHalfWidth(nameLength: nat, theme: Theme.ChartTheme): real
  {
    var displayLen := MinInt(nameLength, MaxDisplayChars) as real;
    if theme.usePixelFont then
      var cols := displayLen * 4.0;
      var frameW := cols * theme.pixelFontSize + 8.0;
      frameW / 2.0 + 12.0
    else
      displayLen * 6.5 / 2.0 + 14.0
  }

  /** The estimate sees at most 12 characters, never shrinks as the name
      grows (for a non-negative pixel size), and has a fixed margin. */
  lemma EstimatedTagHalfWidthMonotone(m: nat, n: nat, theme: Theme.ChartTheme)
    requires theme.pixelFontSize >= 0.0
    ensures n >= MaxDisplayChars ==>
              EstimatedTagHalfWidth(n, theme) == EstimatedTagHalfWidth(MaxDisplayChars, theme)
    ensures m <= n ==> EstimatedTagHalfWidth(m, theme) <= EstimatedTagHalfWidth(n, theme)
    ensures EstimatedTagHalfWidth(n, theme) >= (if theme.usePixelFont then 16.0 else 14.0)
  {
    var a, b := MinInt(m, MaxDisplayChars) as real, MinInt(n, MaxDisplayChars) as real;
    if m <= n && theme.usePixelFont {
      assert (b - a) * 4.0 * theme.pixelFontSize >= 0.0 by {
        MulNonneg((b - a) * 4.0, theme.pixelFontSize);
      }
    }
    MulNonneg(b * 4.0, theme.pixelFontSize);
  }

  /** The pixel tag's frame width: the rendered grid's width in pixels, or
      one pixel for an empty grid, times the pixel size, plus 8 points. */
  function PixelTagWidth(name: string, theme: Theme.ChartTheme): real
  {
    var grid := PixelFont.RenderSpec(DisplayName(name));
    var cols := if grid == [] then 1 else |grid[0]|;
    cols as real * theme.pixelFontSize + 8.0
  }

  /** For a non-empty name the estimate exceeds half the pixel tag's real
      frame width by 12 points plus half a pixel: the gap after the last
      glyph is counted, which the renderer leaves out. */
  lemma EstimateCoversPixelTag(name: string, theme: Theme.ChartTheme)
    requires theme.usePixelFont && name != []
    ensures EstimatedTagHalfWidth(|name|, theme)
            == PixelTagWidth(name, theme) / 2.0 + 12.0 + theme.pixelFontSize / 2.0
  {
    var d := DisplayName(name);
    var grid := PixelFont.RenderSpec(d);
    assert |grid[0]| == 4 * |d| - 1;
  }

  // ---------------------------------------------------------------------
  // Placement on screen

  /** The chart area inside the padding. */
  function DrawableSize(chart: Size, pad: real): Size
  {
    Size(chart.width - pad * 2.0, chart.height - pad * 2.0)
  }

  /** `snapPosition`: normalized position to pixels, with y pointing down.
      A normalized x lands between the two paddings; y is flipped, so the
      top of the unit square (y = 1) is the top padding line and the bottom
      (y = 0) the bottom one. */
  function SnapPosition(pos: Point, chart: Size, pad: real): (q: Point)
    ensures 0.0 <= pos.x <= 1.0 && DrawableSize(chart, pad).width >= 0.0 ==>
              pad <= q.x <= chart.width - pad
    ensures pos.x == 0.0 ==> q.x == pad
    ensures pos.x == 1.0 ==> q.x == chart.width - pad
    ensures pos.y == 1.0 ==> q.y == pad
    ensures pos.y == 0.0 ==> q.y == chart.height - pad
    ensures 0.0 <= pos.y <= 1.0 && DrawableSize(chart, pad).height >= 0.0 ==>
              pad <= q.y <= chart.height - pad
  {
    var d := DrawableSize(chart, pad);
    Point(Along(pad, pos.x, d.width), Along(pad, 1.0 - pos.y, d.height))
  }

  /** `tagPosition`: the dot's x clamped so the tag stays inside the chart,
      and the dot's y raised by the tag offset. */
  function TagPosition(p: Person, chart: Size, pad: real, theme: Theme.ChartTheme): (t: Point)
    ensures var halfW := EstimatedTagHalfWidth(|p.name|, theme);
            var minX := pad + halfW;
            var maxX := chart.width - pad - halfW;
            var rawX := SnapPosition(p.position, chart, pad).x;
            && t.x >= minX
            && (minX <= maxX ==> t.x <= maxX)
            && (minX <= rawX <= maxX ==> t.x == rawX)
            && (rawX < minX ==> t.x == minX)
            && (rawX > maxX ==> t.x == Max(minX, maxX))
    ensures t.y == SnapPosition(p.position, chart, pad).y - p.tagOffset * DrawableSize(chart, pad).height
  {
    var snap := SnapPosition(p.position, chart, pad);
    var halfW := EstimatedTagHalfWidth(|p.name|, theme);
    var minX := pad + halfW;
    var maxX := chart.width - pad - halfW;
    Point(Max(minX, Min(snap.x, maxX)), snap.y - p.tagOffset * DrawableSize(chart, pad).height)
  }

  /** A positive offset puts the tag above the dot by that fraction of the
      drawable height, a negative one below. */
  lemma TagSitsOffsetFromDot(p: Person, chart: Size, pad: real, theme: Theme.ChartTheme)
    requires DrawableSize(chart, pad).height > 0.0
    ensures var dotY := SnapPosition(p.position, chart, pad).y;
            var tagY := TagPosition(p, chart, pad, theme).y;
            && (p.tagOffset > 0.0 <==> tagY < dotY)
            && (p.tagOffset < 0.0 <==> tagY > dotY)
  {
    var h := DrawableSize(chart, pad).height;
    if p.tagOffset > 0.0 {
      assert p.tagOffset * h > 0.0;
    } else if p.tagOffset < 0.0 {
      assert (-p.tagOffset) * h > 0.0;
    }
  }

  /** The dashed leader line is drawn when the tag is more than 0.01 away. */
  predicate ShowsLeaderLine(p: Person)
  {
    Abs(p.tagOffset) > 0.01
  }

  /** After a layout every person's tag is far enough away to get a leader line. */
  lemma LaidOutTagsShowLeaderLines(people: seq<Person>, i: nat)
    requires i < |people|
    ensures ShowsLeaderLine(ChartModel.Relayout(people)[i])
  {
    ChartModel.RelayoutOffsetsBounded(people, i);
  }

  /** The drag's `onEnded`: the finger's final pixel turned back into
      normalized coordinates. */
  function DragEndTarget(pos: Point, chart: Size, pad: real, translation: Size): (t: Point)
    requires DrawableSize(chart, pad).width != 0.0 && DrawableSize(chart, pad).height != 0.0
    ensures Along(pad, t.x, DrawableSize(chart, pad).width) == SnapPosition(pos, chart, pad).x + translation.width
    ensures Along(pad, 1.0 - t.y, DrawableSize(chart, pad).height) == SnapPosition(pos, chart, pad).y + translation.height
  {
    var d := DrawableSize(chart, pad);
    var snap := SnapPosition(pos, chart, pad);
    var finalX := snap.x + translation.width;
    var finalY := snap.y + translation.height;
    DivCancel(finalX - pad, d.width);
    DivCancel(finalY - pad, d.height);
    Point((finalX - pad) / d.width, 1.0 - (finalY - pad) / d.height)
  }

  /** The aspect ratio passed along with the target: width over the height,
      the latter floored at 1. */
  function DragAspect(chart: Size, pad: real): (a: real)
    ensures a >= 0.0 <==> DrawableSize(chart, pad).width >= 0.0
    ensures DrawableSize(chart, pad).height <= 1.0 ==> a == DrawableSize(chart, pad).width
    ensures DrawableSize(chart, pad).height > 1.0 ==>
              a * DrawableSize(chart, pad).height == DrawableSize(chart, pad).width
  {
    var d := DrawableSize(chart, pad);
    d.width / Max(d.height, 1.0)
  }

  /** The drag target is the inverse of `snapPosition`: mapped back to pixels
      it lands where the finger lifted, and with no movement it is the
      person's own position. */
  lemma DragEndInvertsSnapPosition(pos: Point, chart: Size, pad: real, translation: Size)
    requires DrawableSize(chart, pad).width != 0.0 && DrawableSize(chart, pad).height != 0.0
    ensures var target := DragEndTarget(pos, chart, pad, translation);
            var snap := SnapPosition(pos, chart, pad);
            SnapPosition(target, chart, pad) == Point(snap.x + translation.width, snap.y + translation.height)
    ensures translation == Size(0.0, 0.0) ==> DragEndTarget(pos, chart, pad, translation) == pos
  {
    var d := DrawableSize(chart, pad);
    var target := DragEndTarget(pos, chart, pad, translation);
    if translation == Size(0.0, 0.0) {
      AlongCancel(pad, target.x, pos.x, d.width);
      AlongCancel(pad, 1.0 - target.y, 1.0 - pos.y, d.height);
    }
  }
}
