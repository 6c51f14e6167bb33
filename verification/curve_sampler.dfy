/** The Dunning-Kruger curve: four cubic Bezier segments in normalized space,
    a lookup table of samples sorted by x, the height-at-x query (binary
    search plus linear interpolation) and `snap`, which moves a point onto
    the curve. */
module CurveSampler {
  import opened Geometry
  import opened Sorting

  datatype CubicSegment = CubicSegment(p0: Point, p1: Point, p2: Point, p3: Point)

  /** One coordinate of a cubic Bezier in Bernstein form. */
  function Bernstein(a0: real, a1: real, a2: real, a3: real, t: real): real
  {
    var mt := 1.0 - t;
    var mt2 := mt * mt;
    var mt3 := mt2 * mt;
    var t2 := t * t;
    var t3 := t2 * t;
    mt3 * a0 + 3.0 * mt2 * t * a1 + 3.0 * mt * t2 * a2 + t3 * a3
  }

  /** The point of `seg` at parameter `t`; t = 0 is the start and t = 1 the end. */
  function Evaluate(seg: CubicSegment, t: real): (p: Point)
    ensures t == 0.0 ==> p == seg.p0
    ensures t == 1.0 ==> p == seg.p3
  {
    Point(Bernstein(seg.p0.x, seg.p1.x, seg.p2.x, seg.p3.x, t),
          Bernstein(seg.p0.y, seg.p1.y, seg.p2.y, seg.p3.y, t))
  }

  lemma DivUnit(num: real, den: real)
    requires 0.0 <= num <= den && den > 0.0
    ensures 0.0 <= num / den <= 1.0
  {
    var q := num / den;
    assert q * den == num;
  }

  /** The four Bernstein weights of degree 3 sum to 1. */
  lemma WeightsSumToOne(mt: real, t: real)
    requires mt == 1.0 - t
    ensures mt * mt * mt + 3.0 * (mt * mt) * t + 3.0 * mt * (t * t) + t * t * t == 1.0
  {
    assert mt + t == 1.0;
    calc {
      mt * mt * mt + 3.0 * (mt * mt) * t + 3.0 * mt * (t * t) + t * t * t;
      (mt + t) * (mt + t) * (mt + t);
      1.0;
    }
  }

  /** A convex combination of four values in [lo, hi] is in [lo, hi]. */
  lemma ConvexCombinationWithin(b0: real, b1: real, b2: real, b3: real,
                                a0: real, a1: real, a2: real, a3: real, lo: real, hi: real)
    requires 0.0 <= b0 && 0.0 <= b1 && 0.0 <= b2 && 0.0 <= b3 && b0 + b1 + b2 + b3 == 1.0
    requires lo <= a0 <= hi && lo <= a1 <= hi && lo <= a2 <= hi && lo <= a3 <= hi
    ensures lo <= b0 * a0 + b1 * a1 + b2 * a2 + b3 * a3 <= hi
  {
    MulNonneg(b0, a0 - lo);
    MulNonneg(b1, a1 - lo);
    MulNonneg(b2, a2 - lo);
    MulNonneg(b3, a3 - lo);
    MulNonneg(b0, hi - a0);
    MulNonneg(b1, hi - a1);
    MulNonneg(b2, hi - a2);
    MulNonneg(b3, hi - a3);
  }

  /** Convex hull property: for t in [0,1] a Bezier coordinate stays within
      the range of its four control values. */
  lemma BernsteinWithin(a0: real, a1: real, a2: real, a3: real, t: real, lo: real, hi: real)
    requires 0.0 <= t <= 1.0
    requires lo <= a0 <= hi && lo <= a1 <= hi && lo <= a2 <= hi && lo <= a3 <= hi
    ensures lo <= Bernstein(a0, a1, a2, a3, t) <= hi
  {
    var mt := 1.0 - t;
    var mt2 := mt * mt;
    var t2 := t * t;
    MulNonneg(mt, mt);
    MulNonneg(mt2, mt);
    MulNonneg(mt2, t);
    MulNonneg(t, t);
    MulNonneg(mt, t2);
    MulNonneg(t2, t);
    WeightsSumToOne(mt, t);
    ConvexCombinationWithin(mt2 * mt, 3.0 * mt2 * t, 3.0 * mt * t2, t2 * t, a0, a1, a2, a3, lo, hi);
  }

  ghost predicate InUnitSquare(p: Point)
  {
    0.0 <= p.x <= 1.0 && 0.0 <= p.y <= 1.0
  }

  ghost predicate ControlsInUnitSquare(seg: CubicSegment)
  {
    InUnitSquare(seg.p0) && InUnitSquare(seg.p1) && InUnitSquare(seg.p2) && InUnitSquare(seg.p3)
  }

  lemma EvaluateInUnitSquare(seg: CubicSegment, t: real)
    requires 0.0 <= t <= 1.0 && ControlsInUnitSquare(seg)
    ensures InUnitSquare(Evaluate(seg, t))
  {
    BernsteinWithin(seg.p0.x, seg.p1.x, seg.p2.x, seg.p3.x, t, 0.0, 1.0);
    BernsteinWithin(seg.p0.y, seg.p1.y, seg.p2.y, seg.p3.y, t, 0.0, 1.0);
  }

  /** Each segment ends where the next one starts. */
  ghost predicate Contiguous(segs: seq<CubicSegment>)
  {
    forall k :: 0 <= k < |segs| - 1 ==> segs[k].p3 == segs[k + 1].p0
  }

  /** The four canonical segments of the Dunning-Kruger curve. */
  function CanonicalSegments(): (segs: seq<CubicSegment>)
    ensures |segs| == 4 && Contiguous(segs)
    ensures segs[0].p0.x == 0.0 && segs[3].p3.x == 1.0
    ensures forall k :: 0 <= k < |segs| ==> ControlsInUnitSquare(segs[k])
  {
    [ CubicSegment(Point(0.00, 0.15), Point(0.05, 0.15), Point(0.08, 0.95), Point(0.15, 0.95)),
      CubicSegment(Point(0.15, 0.95), Point(0.22, 0.95), Point(0.30, 0.12), Point(0.40, 0.12)),
      CubicSegment(Point(0.40, 0.12), Point(0.50, 0.12), Point(0.60, 0.45), Point(0.70, 0.60)),
      CubicSegment(Point(0.70, 0.60), Point(0.80, 0.72), Point(0.90, 0.75), Point(1.00, 0.75)) ]
  }

  /** The samples of one segment at t = i/n for i = 0..n. */
  function SegmentSamples(seg: CubicSegment, n: nat): (r: seq<Point>)
    requires n > 0
    ensures |r| == n + 1
    ensures r[0] == seg.p0 && r[n] == seg.p3
  {
    assert n as real / n as real == 1.0;
    seq(n + 1, i requires 0 <= i <= n => Evaluate(seg, i as real / n as real))
  }

  /** All segments' samples, segment after segment, before sorting. */
  function RawSamples(segs: seq<CubicSegment>, n: nat): (r: seq<Point>)
    requires n > 0
    ensures |r| == |segs| * (n + 1)
  {
    if segs == [] then []
    else SegmentSamples(segs[0], n) + RawSamples(segs[1..], n)
  }

  lemma {:induction false} RawSamplesInUnitSquare(segs: seq<CubicSegment>, n: nat)
    requires n > 0
    requires forall k :: 0 <= k < |segs| ==> ControlsInUnitSquare(segs[k])
    ensures forall i :: 0 <= i < |RawSamples(segs, n)| ==> InUnitSquare(RawSamples(segs, n)[i])
  {
    if segs != [] {
      var tail := segs[1..];
      assert forall k :: 0 <= k < |tail| ==> tail[k] == segs[k + 1];
      RawSamplesInUnitSquare(tail, n);
      var head := SegmentSamples(segs[0], n);
      var rest := RawSamples(tail, n);
      var all := RawSamples(segs, n);
      assert all == head + rest;
      forall i | 0 <= i < |all|
        ensures InUnitSquare(all[i])
      {
        if i < |head| {
          DivUnit(i as real, n as real);
          EvaluateInUnitSquare(segs[0], i as real / n as real);
          assert all[i] == head[i];
        } else {
          assert all[i] == rest[i - |head|];
        }
      }
    }
  }

  lemma {:induction false} RawSamplesEnds(segs: seq<CubicSegment>, n: nat)
    requires n > 0 && |segs| > 0
    ensures RawSamples(segs, n)[0] == segs[0].p0
    ensures RawSamples(segs, n)[|RawSamples(segs, n)| - 1] == segs[|segs| - 1].p3
  {
    if |segs| > 1 {
      RawSamplesEnds(segs[1..], n);
    }
  }

  /** The sampler owns the lookup table, sorted by x. */
  datatype Sampler = Sampler(table: seq<Point>)

  /** What the binary search relies on: at least two samples, sorted by x. */
  ghost predicate ValidTable(table: seq<Point>)
  {
    |table| >= 2 && SortedBy(table, PointX)
  }

  /** A table that also starts at x = 0, ends at x = 1 and stays in the unit square. */
  ghost predicate SpansUnit(table: seq<Point>)
  {
    && ValidTable(table)
    && table[0].x == 0.0
    && table[|table| - 1].x == 1.0
    && forall i :: 0 <= i < |table| ==> InUnitSquare(table[i])
  }

  /** The sampler's initializer: every segment sampled at `n` + 1 parameter
      values, the whole sorted by x. */
  function Build(segs: seq<CubicSegment>, n: nat): (s: Sampler)
    requires n > 0
    ensures |s.table| == |segs| * (n + 1)
    ensures multiset(s.table) == multiset(RawSamples(segs, n))
    ensures SortedBy(s.table, PointX)
  {
    Sampler(SortBy(RawSamples(segs, n), PointX))
  }

  /** A sorted permutation of samples that lie in the unit square and begin
      at x = 0 and end at x = 1 spans the unit interval. */
  lemma SortedSamplesSpanUnit(raw: seq<Point>, table: seq<Point>)
    requires |raw| >= 2 && multiset(table) == multiset(raw) && SortedBy(table, PointX)
    requires forall i :: 0 <= i < |raw| ==> InUnitSquare(raw[i])
    requires raw[0].x == 0.0 && raw[|raw| - 1].x == 1.0
    ensures SpansUnit(table)
  {
    assert |table| == |multiset(table)| == |raw|;
    forall i | 0 <= i < |table|
      ensures InUnitSquare(table[i])
    {
      assert table[i] in multiset(raw);
    }
    assert raw[0] in multiset(table);
    var k :| 0 <= k < |table| && table[k] == raw[0];
    assert PointX(table[0]) <= PointX(table[k]);
    var last := |raw| - 1;
    assert raw[last] in multiset(table);
    var m :| 0 <= m < |table| && table[m] == raw[last];
    assert PointX(table[m]) <= PointX(table[|table| - 1]);
  }

  /** Sampling segments whose control points lie in the unit square, from
      x = 0 to x = 1, gives a table spanning the unit interval. */
  lemma BuildSpansUnit(segs: seq<CubicSegment>, n: nat)
    requires n > 0 && |segs| > 0
    requires forall k :: 0 <= k < |segs| ==> ControlsInUnitSquare(segs[k])
    requires segs[0].p0.x == 0.0 && segs[|segs| - 1].p3.x == 1.0
    ensures SpansUnit(Build(segs, n).table)
  {
    var raw := RawSamples(segs, n);
    assert |raw| >= 2 by {
      assert |segs| * (n + 1) >= n + 1;
    }
    RawSamplesInUnitSquare(segs, n);
    RawSamplesEnds(segs, n);
    SortedSamplesSpanUnit(raw, Build(segs, n).table);
  }

  /** The shared sampler: 4 segments x 51 samples = 204 table entries,
      sorted by x, from x = 0 to x = 1. */
  function Shared(): (s: Sampler)
    ensures |s.table| == 204
    ensures SpansUnit(s.table)
  {
    BuildSpansUnit(CanonicalSegments(), 50);
    Build(CanonicalSegments(), 50)
  }

  /** Bracket width under which interpolation falls back to the left sample. */
  const DegenerateWidth: real := 0.000000001

  /** Scanning down from index `i`, the first index that is 0 or whose sample
      lies at or left of `c`. */
  function BracketFrom(table: seq<Point>, c: real, i: nat): (lo: nat)
    requires i < |table|
    ensures lo <= i
    ensures lo == 0 || table[lo].x <= c
    ensures forall k :: lo < k <= i ==> table[k].x > c
  {
    if i == 0 || table[i].x <= c then i else BracketFrom(table, c, i - 1)
  }

  /** The left end of the interpolation bracket for `c`: the greatest index
      below the last one that is 0 or holds a sample at or left of `c`. */
  function Bracket(table: seq<Point>, c: real): (lo: nat)
    requires |table| >= 2
    ensures lo + 1 < |table|
    ensures lo == 0 || table[lo].x <= c
    ensures forall k :: lo < k < |table| - 1 ==> table[k].x > c
  {
    BracketFrom(table, c, |table| - 2)
  }

  /** Linear interpolation between `a` and `b` at `c`, with the guard for a
      degenerate bracket. */
  function Interpolate(a: Point, b: Point, c: real): real
  {
    if Abs(b.x - a.x) < DegenerateWidth then a.y else Lerp(a, b, c)
  }

  /** The height at `c` of the straight line through `a` and `b`. */
  function Lerp(a: Point, b: Point, c: real): real
    requires a.x != b.x
  {
    a.y + (c - a.x) / (b.x - a.x) * (b.y - a.y)
  }

  /** The curve's height at `x`, clamped to [0,1] first. */
  function CurveY(s: Sampler, x: real): real
    requires ValidTable(s.table)
  {
    var c := Clamp01(x);
    var lo := Bracket(s.table, c);
    Interpolate(s.table[lo], s.table[lo + 1], c)
  }

  /** A point is on the curve when its x is normalized and its y is the
      curve's height there. */
  ghost predicate OnCurve(s: Sampler, p: Point)
    requires ValidTable(s.table)
  {
    0.0 <= p.x <= 1.0 && p.y == CurveY(s, p.x)
  }

  /** Keeps the point's x (clamped) and replaces its y with the curve's height. */
  function Snap(s: Sampler, p: Point): (q: Point)
    requires ValidTable(s.table)
    ensures q.x == Clamp01(p.x)
    ensures OnCurve(s, q)
  {
    var cx := Clamp01(p.x);
    Point(cx, CurveY(s, cx))
  }

  // ---------------------------------------------------------------------
  // Binary search

  /** Any index meeting the loop's exit conditions is the bracket. */
  lemma BracketUnique(table: seq<Point>, c: real, lo: nat)
    requires ValidTable(table) && lo + 1 < |table|
    requires lo == 0 || table[lo].x <= c
    requires lo + 1 == |table| - 1 || table[lo + 1].x > c
    ensures lo == Bracket(table, c)
  {
  }

  /** The binary search of `curveY`: narrows [lo, hi] until hi == lo + 1. */
  method SearchBracket(table: seq<Point>, c: real) returns (lo: nat, hi: nat)
    requires ValidTable(table)
    ensures hi == lo + 1 && hi < |table|
    ensures lo == 0 || table[lo].x <= c
    ensures hi == |table| - 1 || table[hi].x > c
    ensures lo == Bracket(table, c)
  {
    lo := 0;
    hi := |table| - 1;
    while lo < hi - 1
      invariant 0 <= lo < hi < |table|
      invariant lo == 0 || table[lo].x <= c
      invariant hi == |table| - 1 || table[hi].x > c
      decreases hi - lo
    {
      var mid := (lo + hi) / 2;
      if table[mid].x <= c {
        lo := mid;
      } else {
        hi := mid;
      }
    }
    BracketUnique(table, c, lo);
  }

  /** `curveY(atX:)` as written: clamp, binary search, then interpolate. */
  method CurveYSearch(s: Sampler, x: real) returns (y: real)
    requires ValidTable(s.table)
    ensures y == CurveY(s, x)
  {
    var clamped := Min(Max(x, 0.0), 1.0);
    var lo, hi := SearchBracket(s.table, clamped);
    var a := s.table[lo];
    var b := s.table[hi];
    if Abs(b.x - a.x) < DegenerateWidth {
      return a.y;
    }
    var frac := (clamped - a.x) / (b.x - a.x);
    y := a.y + frac * (b.y - a.y);
  }

  // ---------------------------------------------------------------------
  // Properties of the height query

  /** On a table spanning [0,1] the bracket encloses the clamped x. */
  lemma BracketEncloses(s: Sampler, x: real)
    requires SpansUnit(s.table)
    ensures s.table[Bracket(s.table, Clamp01(x))].x <= Clamp01(x)
    ensures Clamp01(x) <= s.table[Bracket(s.table, Clamp01(x)) + 1].x
  {
    var c := Clamp01(x);
    var lo := Bracket(s.table, c);
    if lo + 1 < |s.table| - 1 {
      assert s.table[lo + 1].x > c;
    }
  }

  /** Inputs left of the curve read the height at 0, inputs right of it the
      height at 1. */
  lemma CurveYClamps(s: Sampler, x: real)
    requires ValidTable(s.table)
    ensures x < 0.0 ==> CurveY(s, x) == CurveY(s, 0.0)
    ensures x > 1.0 ==> CurveY(s, x) == CurveY(s, 1.0)
  {
  }

  /** A bracket narrower than the guard yields the left sample's height. */
  lemma CurveYDegenerate(s: Sampler, x: real)
    requires ValidTable(s.table)
    requires var lo := Bracket(s.table, Clamp01(x));
             s.table[lo + 1].x - s.table[lo].x < DegenerateWidth
    ensures CurveY(s, x) == s.table[Bracket(s.table, Clamp01(x))].y
  {
    var lo := Bracket(s.table, Clamp01(x));
    assert PointX(s.table[lo]) <= PointX(s.table[lo + 1]);
  }

  /** Interpolating inside a bracket yields a height between its two ends. */
  lemma InterpolateBetween(a: Point, b: Point, c: real)
    requires a.x <= c <= b.x
    ensures Min(a.y, b.y) <= Interpolate(a, b, c) <= Max(a.y, b.y)
  {
    if Abs(b.x - a.x) >= DegenerateWidth {
      var frac := (c - a.x) / (b.x - a.x);
      DivUnit(c - a.x, b.x - a.x);
      var d := b.y - a.y;
      if d >= 0.0 {
        MulNonneg(frac, d);
        MulNonneg(1.0 - frac, d);
      } else {
        MulNonneg(frac, -d);
        MulNonneg(1.0 - frac, -d);
      }
    }
  }

  /** Outside the degenerate case the height is the linear interpolation of
      the bracketing samples and lies between their heights; on a table
      spanning [0,1] the height is itself in [0,1]. */
  lemma CurveYInterpolates(s: Sampler, x: real)
    requires SpansUnit(s.table)
    ensures var lo := Bracket(s.table, Clamp01(x));
            var a := s.table[lo];
            var b := s.table[lo + 1];
            && a.x <= Clamp01(x) <= b.x
            && (b.x - a.x >= DegenerateWidth ==> CurveY(s, x) == Lerp(a, b, Clamp01(x)))
            && Min(a.y, b.y) <= CurveY(s, x) <= Max(a.y, b.y)
    ensures 0.0 <= CurveY(s, x) <= 1.0
  {
    var c := Clamp01(x);
    var lo := Bracket(s.table, c);
    var a, b := s.table[lo], s.table[lo + 1];
    BracketEncloses(s, x);
    assert CurveY(s, x) == Interpolate(a, b, c);
    assert Abs(b.x - a.x) == b.x - a.x;
    InterpolateBetween(a, b, c);
    assert InUnitSquare(a) && InUnitSquare(b);
  }

  // ---------------------------------------------------------------------
  // Properties of snap

  /** `snap` ignores the input's y. */
  lemma SnapIgnoresY(s: Sampler, p: Point, y: real)
    requires ValidTable(s.table)
    ensures Snap(s, p) == Snap(s, Point(p.x, y))
  {
  }

  /** Points already on the curve are fixed points of `snap`; hence `snap`
      is idempotent. */
  lemma SnapFixesOnCurve(s: Sampler, p: Point)
    requires ValidTable(s.table)
    ensures OnCurve(s, p) ==> Snap(s, p) == p
    ensures Snap(s, Snap(s, p)) == Snap(s, p)
  {
  }
}
