/** The chart's responsive sizes and the CRT scanline overlay's rows. */
module ChartLayout {
  import opened Geometry

  /** `chartPad(for:)`: 28 points below 500 points of width, else 44. */
  function ChartPad(size: Size): (pad: real)
    ensures pad == 28.0 || pad == 44.0
    ensures pad == 28.0 <==> size.width < 500.0
  {
    if size.width < 500.0 then 28.0 else 44.0
  }

  /** `phaseFontSize(for:)`: 9, 11 or 13 points at the 400 and 600 breakpoints. */
  function PhaseFontSize(size: Size): (pt: real)
    ensures pt == 9.0 <==> size.width < 400.0
    ensures 400.0 <= size.width < 600.0 ==> pt == 11.0
    ensures pt == 13.0 <==> size.width >= 600.0
  {
    if size.width < 400.0 then 9.0 else if size.width < 600.0 then 11.0 else 13.0
  }

  /** `axisFontSize(for:)`: 8, 10 or 11 points at the same breakpoints. */
  function AxisFontSize(size: Size): (pt: real)
    ensures pt == 8.0 <==> size.width < 400.0
    ensures 400.0 <= size.width < 600.0 ==> pt == 10.0
    ensures pt == 11.0 <==> size.width >= 600.0
  {
    if size.width < 400.0 then 8.0 else if size.width < 600.0 then 10.0 else 11.0
  }

  /** All three sizes grow with the width, never shrink, and the axis labels
      are always smaller than the phase labels. */
  lemma SizesGrowWithWidth(a: Size, b: Size)
    ensures a.width <= b.width ==>
              ChartPad(a) <= ChartPad(b) && PhaseFontSize(a) <= PhaseFontSize(b) && AxisFontSize(a) <= AxisFontSize(b)
    ensures AxisFontSize(a) < PhaseFontSize(a)
    ensures 8.0 <= AxisFontSize(a) <= 11.0 && 9.0 <= PhaseFontSize(a) <= 13.0
  {
  }

  /** Spacing between scanlines, in points. */
  const LineSpacing: real := 3.0

  /** The number of scanlines for a canvas `height` tall: the least n with
      3n >= height. */
  function ScanlineCount(height: real): (n: nat)
    ensures LineSpacing * n as real >= height
    ensures n > 0 ==> LineSpacing * (n - 1) as real < height
    decreases if height > 0.0 then height.Floor + 1 else 0
  {
    if height <= 0.0 then 0 else 1 + ScanlineCount(height - LineSpacing)
  }

  /** `CRTScanlinesView`'s loop: the y of every one-point line drawn. */
  method Scanlines(height: real) returns (rows: seq<real>)
    ensures |rows| == ScanlineCount(height)
    ensures forall i :: 0 <= i < |rows| ==> rows[i] == LineSpacing * i as real
    ensures forall i :: 0 <= i < |rows| ==> 0.0 <= rows[i] < height
  {
    rows := [];
    var y := 0.0;
    while y < height
      invariant y == LineSpacing * |rows| as real
      invariant forall i :: 0 <= i < |rows| ==> rows[i] == LineSpacing * i as real && rows[i] < height
      invariant ScanlineCount(height) == |rows| + ScanlineCount(height - y)
      decreases height - y
    {
      rows := rows + [y];
      y := y + LineSpacing;
    }
  }
}
