/** The shapes drawn behind the markers, as the sequences of path commands
    they issue: the curve through the sampler's four segments, and the
    retro grid's interior lines. */
module CurveShape {
  import opened Geometry
  import opened CurveSampler

  datatype PathCommand =
    | MoveTo(p: Point)
    | LineTo(p: Point)
    | CurveTo(p: Point, control1: Point, control2: Point)

  /** Where the pen is after a command. */
  function EndPoint(c: PathCommand): Point
  {
    match c
    case MoveTo(p) => p
    case LineTo(p) => p
    case CurveTo(p, _, _) => p
  }

  // ---------------------------------------------------------------------
  // The curve

  /** The shape's `pt`: normalized point to the rectangle's pixels, y down. */
  function Pt(p: Point, rect: Size): Point
  {
    Point(p.x * rect.width, (1.0 - p.y) * rect.height)
  }

  /** Back from pixels to normalized coordinates. */
  function Unpt(q: Point, rect: Size): Point
    requires rect.width != 0.0 && rect.height != 0.0
  {
    Point(q.x / rect.width, 1.0 - q.y / rect.height)
  }

  /** On a non-degenerate rectangle `Pt` is invertible. */
  lemma PtRoundTrip(p: Point, q: Point, rect: Size)
    requires rect.width != 0.0 && rect.height != 0.0
    ensures Unpt(Pt(p, rect), rect) == p
    ensures Pt(Unpt(q, rect), rect) == q
  {
    MulDivCancel(p.x, rect.width);
    MulDivCancel(1.0 - p.y, rect.height);
    DivCancel(q.x, rect.width);
    DivCancel(q.y, rect.height);
  }

  function SegmentCommand(seg: CubicSegment, rect: Size): PathCommand
  {
    CurveTo(Pt(seg.p3, rect), Pt(seg.p1, rect), Pt(seg.p2, rect))
  }

  /** `DKCurveShape.path(in:)`: nothing for no segments, otherwise a move to
      the first start point and one cubic per segment. */
  function CurvePath(segs: seq<CubicSegment>, rect: Size): (cmds: seq<PathCommand>)
    ensures segs == [] <==> cmds == []
    ensures segs != [] ==> |cmds| == |segs| + 1
  {
    if segs == [] then []
    else [MoveTo(Pt(segs[0].p0, rect))]
         + seq(|segs|, k requires 0 <= k < |segs| => SegmentCommand(segs[k], rect))
  }

  /** The path traces the segments in order: each cubic starts where the
      pen stands, which for contiguous segments is that segment's own start,
      and uses its own control points. */
  lemma CurvePathFollowsSegments(segs: seq<CubicSegment>, rect: Size, k: nat)
    requires Contiguous(segs) && k < |segs|
    ensures var cmds := CurvePath(segs, rect);
            && EndPoint(cmds[k]) == Pt(segs[k].p0, rect)
            && cmds[k + 1] == CurveTo(Pt(segs[k].p3, rect), Pt(segs[k].p1, rect), Pt(segs[k].p2, rect))
  {
  }

  /** The canonical curve is drawn from the left edge to the right edge. */
  lemma CanonicalPathSpansWidth(rect: Size)
    ensures var cmds := CurvePath(CanonicalSegments(), rect);
            EndPoint(cmds[0]).x == 0.0 && EndPoint(cmds[|cmds| - 1]).x == rect.width
  {
  }

  /** The loop that builds the curve path. */
  method BuildCurvePath(segs: seq<CubicSegment>, rect: Size) returns (cmds: seq<PathCommand>)
    ensures cmds == CurvePath(segs, rect)
  {
    if segs == [] {
      return [];
    }
    cmds := [MoveTo(Pt(segs[0].p0, rect))];
    var k := 0;
    while k < |segs|
      invariant 0 <= k <= |segs|
      invariant |cmds| == k + 1 && cmds[0] == MoveTo(Pt(segs[0].p0, rect))
      invariant forall j :: 0 <= j < k ==> cmds[j + 1] == SegmentCommand(segs[j], rect)
    {
      cmds := cmds + [SegmentCommand(segs[k], rect)];
      k := k + 1;
    }
    assert forall j :: 0 <= j < |cmds| ==> cmds[j] == CurvePath(segs, rect)[j];
  }

  // ---------------------------------------------------------------------
  // The grid

  const GridColumns: nat := 10
  const GridRows: nat := 8

  /** Interior line i of the grid: a move to one edge and a line to the
      opposite edge, i / 10 of the way across (vertical lines) or i / 8 of
      the way down (horizontal lines). */
  function GridLine(rect: Size, vertical: bool, i: nat): seq<PathCommand>
  {
    if vertical then
      var x := rect.width * i as real / GridColumns as real;
      [MoveTo(Point(x, 0.0)), LineTo(Point(x, rect.height))]
    else
      var y := rect.height * i as real / GridRows as real;
      [MoveTo(Point(0.0, y)), LineTo(Point(rect.width, y))]
  }

  function Cells(vertical: bool): nat
  {
    if vertical then GridColumns else GridRows
  }

  /** Lines 1 .. cells - 1 of one direction, in order. */
  function GridLinesSpec(rect: Size, vertical: bool): (cmds: seq<PathCommand>)
    ensures |cmds| == 2 * (Cells(vertical) - 1)
  {
    var n := 2 * (Cells(vertical) - 1);
    seq(n, j requires 0 <= j < n => GridLine(rect, vertical, j / 2 + 1)[j % 2])
  }

  /** One of the two `for i in 1..<count` loops. */
  method BuildGridLines(rect: Size, vertical: bool) returns (cmds: seq<PathCommand>)
    ensures cmds == GridLinesSpec(rect, vertical)
  {
    cmds := [];
    var i := 1;
    while i < Cells(vertical)
      invariant 1 <= i <= Cells(vertical) && |cmds| == 2 * (i - 1)
      invariant forall j :: 0 <= j < |cmds| ==> cmds[j] == GridLine(rect, vertical, j / 2 + 1)[j % 2]
    {
      cmds := cmds + GridLine(rect, vertical, i);
      i := i + 1;
    }
  }

  /** `RetroGridLines.path(in:)`: the nine vertical lines, then the seven
      horizontal ones. */
  method GridLines(rect: Size) returns (cmds: seq<PathCommand>)
    ensures |cmds| == 2 * (GridColumns - 1) + 2 * (GridRows - 1)
    ensures cmds == GridLinesSpec(rect, true) + GridLinesSpec(rect, false)
  {
    var v := BuildGridLines(rect, true);
    var h := BuildGridLines(rect, false);
    cmds := v + h;
  }

  /** Every grid line crosses the rectangle edge to edge, strictly inside it,
      and neighbouring lines are a tenth (vertical) or an eighth
      (horizontal) of the side apart. */
  lemma GridLinesInside(rect: Size, i: nat)
    requires rect.width > 0.0 && rect.height > 0.0
    ensures 1 <= i < GridColumns ==>
              var x := EndPoint(GridLine(rect, true, i)[0]).x;
              && 0.0 < x < rect.width
              && EndPoint(GridLine(rect, true, i)[1]) == Point(x, rect.height)
              && EndPoint(GridLine(rect, true, i + 1)[0]).x - x == rect.width / GridColumns as real
    ensures 1 <= i < GridRows ==>
              var y := EndPoint(GridLine(rect, false, i)[0]).y;
              && 0.0 < y < rect.height
              && EndPoint(GridLine(rect, false, i)[1]) == Point(rect.width, y)
              && EndPoint(GridLine(rect, false, i + 1)[0]).y - y == rect.height / GridRows as real
  {
    if 1 <= i < GridColumns {
      FractionInside(rect.width, i, GridColumns);
    }
    if 1 <= i < GridRows {
      FractionInside(rect.height, i, GridRows);
    }
  }
}
