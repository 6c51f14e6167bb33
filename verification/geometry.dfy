/** Points in the chart's coordinate spaces and the small real-number helpers
    (`min`, `max`, `abs`, clamping) every other module uses. `CGFloat` is
    modelled as `real`: no rounding, no infinities, no NaN. */
module Geometry {

  /** A point; normalized chart space is [0,1] x [0,1] with y = confidence. */
  datatype Point = Point(x: real, y: real)

  /** A width/height pair (`CGSize`). */
  datatype Size = Size(width: real, height: real)

  datatype Option<T> = None | Some(value: T)

  function Min(a: real, b: real): real { if a <= b then a else b }

  function Max(a: real, b: real): real { if a >= b then a else b }

  function Abs(a: real): real { if a < 0.0 then -a else a }

  function MinInt(a: int, b: int): int { if a <= b then a else b }

  function MaxInt(a: int, b: int): int { if a >= b then a else b }

  /** `min(max(v, lo), hi)`, the clamp idiom of the source. */
  function Clamp(v: real, lo: real, hi: real): (r: real)
    requires lo <= hi
    ensures lo <= r <= hi
    ensures lo <= v <= hi ==> r == v
    ensures v < lo ==> r == lo
    ensures v > hi ==> r == hi
  {
    Min(Max(v, lo), hi)
  }

  /** Clamp to the normalized range [0,1]. */
  function Clamp01(v: real): real { Clamp(v, 0.0, 1.0) }

  /** The x coordinate, as a first-class function (sort key). */
  function PointX(p: Point): real { p.x }

  // Real arithmetic the solver needs spelled out.

  lemma MulNonneg(a: real, b: real)
    requires 0.0 <= a && 0.0 <= b
    ensures 0.0 <= a * b
  {
  }

  /** A fraction in [0,1] of a non-negative length is at most that length. */
  lemma ScaleWithin(t: real, w: real)
    ensures 0.0 <= t <= 1.0 && 0.0 <= w ==> 0.0 <= t * w <= w
  {
    if 0.0 <= t <= 1.0 && 0.0 <= w {
      MulNonneg(t, w);
      MulNonneg(1.0 - t, w);
    }
  }

  /** The point a fraction `t` of the way along a segment of length `len`
      that starts at `lo`. */
  function Along(lo: real, t: real, len: real): (v: real)
    ensures t == 0.0 ==> v == lo
    ensures t == 1.0 ==> v == lo + len
    ensures 0.0 <= t <= 1.0 && 0.0 <= len ==> lo <= v <= lo + len
  {
    ScaleWithin(t, len);
    lo + t * len
  }

  /** A non-zero factor can be cancelled. */
  lemma MulRightCancel(a: real, b: real, c: real)
    requires c != 0.0 && a * c == b * c
    ensures a == b
  {
    assert (a - b) * c == 0.0;
  }

  /** Two points along the same non-degenerate segment coincide only at
      the same fraction. */
  lemma AlongCancel(lo: real, a: real, b: real, len: real)
    requires len != 0.0 && Along(lo, a, len) == Along(lo, b, len)
    ensures a == b
  {
    MulRightCancel(a, b, len);
  }

  lemma DivCancel(a: real, b: real)
    requires b != 0.0
    ensures a / b * b == a
  {
  }

  lemma MulDivCancel(a: real, b: real)
    requires b != 0.0
    ensures a * b / b == a
  {
  }

  /** A fraction i / n of a positive length w, for 0 < i < n, lies strictly
      inside (0, w), and consecutive fractions are w / n apart. */
  lemma FractionInside(w: real, i: nat, n: nat)
    requires w > 0.0 && 0 < i < n
    ensures 0.0 < w * i as real / n as real < w
    ensures w * (i + 1) as real / n as real - w * i as real / n as real == w / n as real
  {
    var a := w * i as real;
    assert a < w * n as real by {
      assert w * n as real - a == w * (n - i) as real;
      MulNonneg(w, (n - i - 1) as real);
    }
    assert a > 0.0 by {
      MulNonneg(w, (i - 1) as real);
    }
    assert w * (i + 1) as real == a + w;
  }
}
