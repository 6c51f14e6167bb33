/** The tag overlap resolver: one rectangle per name tag, sorted by x, then a
    greedy left-to-right sweep that compares each tag with at most its four
    sorted predecessors, flipping it to the other side of the curve and
    pushing it away in steps while it overlaps. The offsets are finally
    scattered back to the callers' indices. */
module TagLayout {
  import opened Geometry
  import opened Sorting

  /** Estimated tag width per character, normalized. */
  const CharWidthNorm: real := 0.009
  /** Minimum vertical offset from the curve. */
  const BaseOffset: real := 0.10
  /** Extra push while still overlapping. */
  const PushStep: real := 0.05
  /** Name lengths are capped like the displayed, truncated name. */
  const MaxDisplayChars: int := 12
  const TagHalfHeight: real := 0.03
  /** Number of sorted predecessors each tag is compared with. */
  const NeighbourWindow: nat := 4
  /** Pushes tried against one neighbour. */
  const MaxPushes: nat := 5
  /** Largest possible offset magnitude: the base plus every push against every neighbour. */
  const MaxOffset: real := BaseOffset + (NeighbourWindow * MaxPushes) as real * PushStep

  /** One entry of the engine's input: (index, x, curve y, name length). */
  datatype TagInput = TagInput(index: int, x: real, curveY: real, nameLength: int)

  datatype TagRect = TagRect(index: int, x: real, y: real, halfWidth: real, halfHeight: real,
                             offset: real)
  {
    function MinX(): real { x - halfWidth }
    function MaxX(): real { x + halfWidth }
    /** Positive offsets are above the curve, negative below. */
    function EffectiveY(): real { y + offset }
    function MinY(): real { EffectiveY() - halfHeight }
    function MaxY(): real { EffectiveY() + halfHeight }
  }

  function RectX(r: TagRect): real { r.x }

  /** `b` is `a` with possibly another offset: the sweep never moves a box sideways. */
  ghost predicate SameBox(a: TagRect, b: TagRect)
  {
    a.(offset := b.offset) == b
  }

  function HalfWidth(nameLength: int): real
  {
    MinInt(nameLength, MaxDisplayChars) as real * CharWidthNorm / 2.0 + 0.01
  }

  function MakeRect(t: TagInput): TagRect
  {
    TagRect(t.index, t.x, t.curveY, HalfWidth(t.nameLength), TagHalfHeight, BaseOffset)
  }

  /** Names longer than the display cap size like the cap, and a longer name
      never gets a narrower box. */
  lemma HalfWidthCapped(m: int, n: int)
    ensures n >= MaxDisplayChars ==> HalfWidth(n) == HalfWidth(MaxDisplayChars)
    ensures m <= n ==> HalfWidth(m) <= HalfWidth(n)
    ensures 0 <= n ==> 0.01 <= HalfWidth(n) <= 12.0 * CharWidthNorm / 2.0 + 0.01
  {
  }

  predicate XOverlap(a: TagRect, b: TagRect)
  {
    a.MaxX() > b.MinX() && b.MaxX() > a.MinX()
  }

  predicate YOverlap(a: TagRect, b: TagRect)
  {
    a.MaxY() > b.MinY() && b.MaxY() > a.MinY()
  }

  /** Strict on both axes: boxes that merely touch do not overlap. */
  predicate Overlaps(a: TagRect, b: TagRect)
  {
    XOverlap(a, b) && YOverlap(a, b)
  }

  lemma OverlapsSymmetricStrict(a: TagRect, b: TagRect)
    ensures Overlaps(a, b) <==> Overlaps(b, a)
    ensures a.MaxX() == b.MinX() || a.MaxY() == b.MinY() ==> !Overlaps(a, b)
  {
  }

  /** Moves `r` to the other side of the curve when it is on the same side as `nb`. */
  function Flip(r: TagRect, nb: TagRect): TagRect
  {
    if r.offset > 0.0 && nb.offset > 0.0 then r.(offset := -BaseOffset)
    else if r.offset < 0.0 && nb.offset < 0.0 then r.(offset := BaseOffset)
    else r
  }

  /** One push away from the curve. */
  function PushOnce(r: TagRect): TagRect
  {
    r.(offset := if r.offset > 0.0 then r.offset + PushStep else r.offset - PushStep)
  }

  /** The push loop: while `r` overlaps `nb` and fewer than five pushes were
      made, push once more. */
  function Push(nb: TagRect, r: TagRect, attempts: nat): (res: TagRect)
    requires attempts <= MaxPushes
    ensures SameBox(r, res)
    ensures !Overlaps(nb, r) ==> res == r
    ensures Abs(r.offset) > 0.0 ==> (res.offset > 0.0 <==> r.offset > 0.0)
    ensures Abs(r.offset) > 0.0 ==>
              Abs(r.offset) <= Abs(res.offset) <= Abs(r.offset) + (MaxPushes - attempts) as real * PushStep
    ensures Abs(r.offset) > 0.0 && Overlaps(nb, res) ==>
              Abs(res.offset) == Abs(r.offset) + (MaxPushes - attempts) as real * PushStep
    decreases MaxPushes - attempts
  {
    if Overlaps(nb, r) && attempts < MaxPushes then Push(nb, PushOnce(r), attempts + 1)
    else r
  }

  /** Handling of one neighbour `nb`: nothing unless they overlap; otherwise
      flip, then push. */
  function Settle(nb: TagRect, r: TagRect): (res: TagRect)
    ensures SameBox(r, res)
    ensures !Overlaps(nb, r) ==> res == r
    ensures Abs(r.offset) >= BaseOffset ==>
              BaseOffset <= Abs(res.offset) <= Abs(r.offset) + MaxPushes as real * PushStep
  {
    if Overlaps(nb, r) then Push(nb, Flip(r, nb), 0) else r
  }

  /** The alternation above and below the curve: after an overlap the tag
      ends on the side opposite its neighbour. A tag on the neighbour's side
      flips; one already on the other side stays there. */
  lemma SettleEndsOppositeNeighbour(nb: TagRect, r: TagRect)
    requires Overlaps(nb, r) && nb.offset != 0.0 && r.offset != 0.0
    ensures (Settle(nb, r).offset > 0.0) != (nb.offset > 0.0)
    ensures (r.offset > 0.0) == (nb.offset > 0.0) ==> (Settle(nb, r).offset > 0.0) != (r.offset > 0.0)
    ensures (r.offset > 0.0) != (nb.offset > 0.0) ==> (Settle(nb, r).offset > 0.0) == (r.offset > 0.0)
  {
  }

  /** Settles `r` against `placed[j]`, `placed[j-1]`, ..., `placed[lo]`, in that order. */
  function SettleDown(placed: seq<TagRect>, r: TagRect, j: int, lo: nat): (res: TagRect)
    requires -1 <= j < |placed|
    ensures SameBox(r, res)
    ensures Abs(r.offset) >= BaseOffset ==>
              BaseOffset <= Abs(res.offset)
                         <= Abs(r.offset) + MaxInt(j - lo + 1, 0) as real * (MaxPushes as real * PushStep)
    decreases j + 1
  {
    if j < lo then r else SettleDown(placed, Settle(placed[j], r), j - 1, lo)
  }

  /** Lowest sorted position the tag at position `i` is compared with. */
  function Window(i: nat): nat
  {
    MaxInt(0, i - NeighbourWindow)
  }

  /** The final rectangle of the next tag, given the already placed ones. */
  function PlaceNext(placed: seq<TagRect>, r: TagRect): TagRect
  {
    SettleDown(placed, r, |placed| - 1, Window(|placed|))
  }

  /** A tag starting at the base offset ends between the base offset and
      `MaxOffset`: at most four neighbours, each adding at most five pushes. */
  lemma PlaceNextBounded(placed: seq<TagRect>, r: TagRect)
    ensures SameBox(r, PlaceNext(placed, r))
    ensures r.offset == BaseOffset ==> BaseOffset <= Abs(PlaceNext(placed, r).offset) <= MaxOffset
  {
    var m := MaxInt(|placed| - 1 - Window(|placed|) + 1, 0);
    assert m <= 4;
    assert MaxPushes as real * PushStep == 0.25;
    assert m as real * 0.25 <= 1.0;
    assert MaxOffset == 1.1;
  }

  ghost predicate AllAtBase(rs: seq<TagRect>)
  {
    forall k :: 0 <= k < |rs| ==> rs[k].offset == BaseOffset
  }

  /** The sweep over an x-sorted sequence of rectangles, as a function of its
      prefix: each tag is placed once, after all tags to its left. */
  function SweepSpec(rects: seq<TagRect>): (out: seq<TagRect>)
    ensures |out| == |rects|
    decreases |rects|
  {
    if rects == [] then []
    else
      var n := |rects| - 1;
      var prev := SweepSpec(rects[..n]);
      prev + [PlaceNext(prev, rects[n])]
  }

  /** The sweep only moves tags along the curve's normal: every box is kept
      and the leftmost tag is never moved. */
  lemma {:induction false} SweepKeepsBoxes(rects: seq<TagRect>)
    ensures forall k :: 0 <= k < |rects| ==> SameBox(rects[k], SweepSpec(rects)[k])
    ensures |rects| > 0 ==> SweepSpec(rects)[0] == rects[0]
    decreases |rects|
  {
    if rects != [] {
      var n := |rects| - 1;
      var front := rects[..n];
      SweepKeepsBoxes(front);
      var prev := SweepSpec(front);
      var last := PlaceNext(prev, rects[n]);
      var out := SweepSpec(rects);
      assert out == prev + [last];
      forall k | 0 <= k < |rects|
        ensures SameBox(rects[k], out[k])
      {
        if k < n {
          assert front[k] == rects[k] && out[k] == prev[k];
        } else {
          assert out[k] == last;
        }
      }
      if n == 0 {
        assert last == SettleDown([], rects[0], -1, 0) == rects[0];
      }
    }
  }

  /** Starting from +0.10 everywhere, every tag ends between 0.10 and
      `MaxOffset` away from the curve. */
  lemma {:induction false} SweepOffsetsBounded(rects: seq<TagRect>)
    requires AllAtBase(rects)
    ensures forall k :: 0 <= k < |rects| ==> BaseOffset <= Abs(SweepSpec(rects)[k].offset) <= MaxOffset
    decreases |rects|
  {
    if rects != [] {
      var n := |rects| - 1;
      var front := rects[..n];
      assert forall k :: 0 <= k < n ==> front[k] == rects[k];
      SweepOffsetsBounded(front);
      var prev := SweepSpec(front);
      var last := PlaceNext(prev, rects[n]);
      var out := SweepSpec(rects);
      assert out == prev + [last];
      PlaceNextBounded(prev, rects[n]);
      forall k | 0 <= k < n
        ensures BaseOffset <= Abs(out[k].offset) <= MaxOffset
      {
        assert out[k] == prev[k];
      }
    }
  }

  /** One more tag: the sweep of the first i + 1 rectangles extends the
      sweep of the first i by the placement of rectangle i. */
  lemma SweepSpecSnoc(rects: seq<TagRect>, i: nat)
    requires i < |rects|
    ensures SweepSpec(rects[..i + 1]) == SweepSpec(rects[..i]) + [PlaceNext(SweepSpec(rects[..i]), rects[i])]
  {
    var front := rects[..i + 1];
    assert front[..i] == rects[..i] && front[i] == rects[i];
  }

  // ---------------------------------------------------------------------
  // The sweep as written: nested loops over sorted positions

  /** The body of the inner `for j` loop for one neighbour: flip when on the
      same side, then push while still overlapping, at most five times. */
  method SettleAgainst(nb: TagRect, r: TagRect) returns (cur: TagRect)
    ensures cur == Settle(nb, r)
  {
    cur := r;
    if Overlaps(nb, cur) {
      if cur.offset > 0.0 && nb.offset > 0.0 {
        cur := cur.(offset := -BaseOffset);
      } else if cur.offset < 0.0 && nb.offset < 0.0 {
        cur := cur.(offset := BaseOffset);
      }
      var attempts := 0;
      while Overlaps(nb, cur) && attempts < 5
        invariant 0 <= attempts <= 5
        invariant Push(nb, cur, attempts) == Settle(nb, r)
        decreases 5 - attempts
      {
        if cur.offset > 0.0 {
          cur := cur.(offset := cur.offset + PushStep);
        } else {
          cur := cur.(offset := cur.offset - PushStep);
        }
        attempts := attempts + 1;
      }
    }
  }

  /** The inner `for j` loop: neighbours i-1 down to max(0, i-4). */
  method PlaceTag(placed: seq<TagRect>, r: TagRect) returns (cur: TagRect)
    ensures cur == PlaceNext(placed, r)
  {
    var i := |placed|;
    cur := r;
    var lo := MaxInt(0, i - 4);
    var j := i - 1;
    while j >= lo
      invariant lo - 1 <= j <= i - 1
      invariant SettleDown(placed, cur, j, lo) == PlaceNext(placed, r)
    {
      cur := SettleAgainst(placed[j], cur);
      j := j - 1;
    }
  }

  /** The greedy sweep of `resolveOverlaps`, over rectangles already sorted by x. */
  method Sweep(rects: seq<TagRect>) returns (out: seq<TagRect>)
    ensures out == SweepSpec(rects)
  {
    if |rects| == 0 {
      return [];
    }
    out := [rects[0]];
    assert out == SweepSpec(rects[..1]) by { SweepSpecSnoc(rects, 0); }
    var i := 1;
    while i < |rects|
      invariant 1 <= i <= |rects|
      invariant out == SweepSpec(rects[..i])
    {
      var cur := PlaceTag(out, rects[i]);
      SweepSpecSnoc(rects, i);
      out := out + [cur];
      i := i + 1;
    }
    assert rects[..|rects|] == rects;
  }

  // ---------------------------------------------------------------------
  // Properties of the sweep

  /** Later tags never influence earlier ones: the sweep of a prefix is the
      prefix of the sweep. */
  lemma {:induction false} SweepPrefix(rects: seq<TagRect>, k: nat)
    requires k <= |rects|
    ensures SweepSpec(rects[..k]) == SweepSpec(rects)[..k]
    decreases |rects|
  {
    if k < |rects| {
      var n := |rects| - 1;
      assert rects[..k] == rects[..n][..k];
      SweepPrefix(rects[..n], k);
    } else {
      assert rects[..k] == rects;
    }
  }

  /** Each tag's final rectangle is its own rectangle settled against the
      final rectangles at sorted positions i-1 down to max(0, i-4). */
  lemma SweepStep(rects: seq<TagRect>, i: nat)
    requires i < |rects|
    ensures SweepSpec(rects)[i] == PlaceNext(SweepSpec(rects)[..i], rects[i])
  {
    var full := SweepSpec(rects);
    var front := rects[..i + 1];
    assert front[..i] == rects[..i] && front[i] == rects[i];
    SweepSpecSnoc(rects, i);
    SweepPrefix(rects, i + 1);
    SweepPrefix(rects, i);
    assert full[i] == SweepSpec(front)[i];
  }

  /** Settling reads only the neighbours between `lo` and `j`. */
  lemma {:induction false} SettleDownLocal(placed: seq<TagRect>, other: seq<TagRect>, r: TagRect, j: int, lo: nat)
    requires -1 <= j < |placed| && j < |other|
    requires forall k :: lo <= k <= j ==> placed[k] == other[k]
    ensures SettleDown(placed, r, j, lo) == SettleDown(other, r, j, lo)
    decreases j + 1
  {
    if j >= lo {
      SettleDownLocal(placed, other, Settle(placed[j], r), j - 1, lo);
    }
  }

  /** The window: a tag's placement depends on its own rectangle and on the
      placed rectangles at positions max(0, i-4) .. i-1 only. */
  lemma PlaceNextWindow(placed: seq<TagRect>, other: seq<TagRect>, r: TagRect)
    requires |placed| == |other|
    requires forall k :: Window(|placed|) <= k < |placed| ==> placed[k] == other[k]
    ensures PlaceNext(placed, r) == PlaceNext(other, r)
  {
    SettleDownLocal(placed, other, r, |placed| - 1, Window(|placed|));
  }

  /** Settling against neighbours none of which overlaps `r` keeps `r`. */
  lemma {:induction false} SettleDownNoOverlap(placed: seq<TagRect>, r: TagRect, j: int, lo: nat)
    requires -1 <= j < |placed|
    requires forall k :: lo <= k <= j ==> !Overlaps(placed[k], r)
    ensures SettleDown(placed, r, j, lo) == r
    decreases j + 1
  {
    if j >= lo {
      SettleDownNoOverlap(placed, r, j - 1, lo);
    }
  }

  /** A tag whose x-range strictly intersects none of its (at most four)
      sorted predecessors keeps its initial rectangle, hence offset +0.10. */
  lemma IsolatedTagKeepsOffset(rects: seq<TagRect>, i: nat)
    requires i < |rects|
    requires forall k :: Window(i) <= k < i ==> !XOverlap(rects[k], rects[i])
    ensures SweepSpec(rects)[i] == rects[i]
    ensures AllAtBase(rects) ==> SweepSpec(rects)[i].offset == BaseOffset
  {
    var out := SweepSpec(rects);
    SweepKeepsBoxes(rects);
    if AllAtBase(rects) {
      SweepOffsetsBounded(rects);
    }
    SweepStep(rects, i);
    forall k | Window(i) <= k < i
      ensures !Overlaps(out[..i][k], rects[i])
    {
      assert SameBox(rects[k], out[k]);
    }
    SettleDownNoOverlap(out[..i], rects[i], i - 1, Window(i));
  }

  /** Three tags at the same point: the third one flips below the curve on
      top of the second one, which it has already been compared with, so
      the sweep leaves two overlapping tags even among window neighbours. */
  lemma StackedTagsMayStillOverlap()
    ensures var r0 := TagRect(0, 0.5, 0.5, HalfWidth(5), TagHalfHeight, BaseOffset);
            var r1 := r0.(index := 1);
            var r2 := r0.(index := 2);
            var out := SweepSpec([r0, r1, r2]);
            out[1].offset == -BaseOffset && out[2].offset == -BaseOffset && Overlaps(out[1], out[2])
  {
    var r0 := TagRect(0, 0.5, 0.5, HalfWidth(5), TagHalfHeight, BaseOffset);
    var r1 := r0.(index := 1);
    var r2 := r0.(index := 2);
    var rects := [r0, r1, r2];
    assert rects[..1] == [r0];
    assert rects[..2] == [r0, r1];
    assert SweepSpec([r0]) == [r0];
    var s1 := Settle(r0, r1);
    assert s1 == r1.(offset := -BaseOffset);
    assert SweepSpec([r0, r1]) == [r0, s1];
    var t1 := Settle(s1, r2);
    assert t1 == r2;
    var t0 := Settle(r0, t1);
    assert t0 == r2.(offset := -BaseOffset);
    assert SweepSpec(rects) == [r0, s1, t0];
  }

  // ---------------------------------------------------------------------
  // Scattering back to the original indices

  ghost predicate DistinctIndices(rs: seq<TagRect>)
  {
    forall a, b :: 0 <= a < b < |rs| ==> rs[a].index != rs[b].index
  }

  /** `result[rect.index] = rect.offset` for each rectangle, in order. */
  function Scatter(res: seq<real>, rs: seq<TagRect>): (r: seq<real>)
    requires forall m :: 0 <= m < |rs| ==> 0 <= rs[m].index < |res|
    ensures |r| == |res|
    ensures forall k :: 0 <= k < |res| && (forall m :: 0 <= m < |rs| ==> rs[m].index != k) ==> r[k] == res[k]
    ensures DistinctIndices(rs) ==> forall m :: 0 <= m < |rs| ==> r[rs[m].index] == rs[m].offset
    decreases |rs|
  {
    if rs == [] then res
    else
      var r := Scatter(res[rs[0].index := rs[0].offset], rs[1..]);
      assert forall m :: 1 <= m < |rs| ==> rs[1..][m - 1] == rs[m];
      r
  }

  /** Duplicate-free values occur at most once. */
  lemma {:induction false} DistinctIndicesCountAtMostOne(t: seq<TagRect>, v: TagRect)
    requires DistinctIndices(t)
    ensures multiset(t)[v] <= 1
    decreases |t|
  {
    if t != [] {
      var n := |t| - 1;
      assert t == t[..n] + [t[n]];
      DistinctIndicesCountAtMostOne(t[..n], v);
    }
  }

  lemma CountAtLeastTwo(s: seq<TagRect>, a: nat, b: nat)
    requires a < b < |s| && s[a] == s[b]
    ensures multiset(s)[s[a]] >= 2
  {
    assert s == s[..a] + [s[a]] + s[a + 1..b] + [s[b]] + s[b + 1..];
  }

  /** Reordering keeps indices pairwise distinct. */
  lemma DistinctIndicesPermutation(s: seq<TagRect>, t: seq<TagRect>)
    requires multiset(s) == multiset(t) && DistinctIndices(t)
    ensures DistinctIndices(s)
  {
    forall a, b | 0 <= a < b < |s|
      ensures s[a].index != s[b].index
    {
      if s[a] == s[b] {
        CountAtLeastTwo(s, a, b);
        DistinctIndicesCountAtMostOne(t, s[a]);
      } else {
        assert s[a] in multiset(t) && s[b] in multiset(t);
        var p :| 0 <= p < |t| && t[p] == s[a];
        var q :| 0 <= q < |t| && t[q] == s[b];
        assert p != q;
      }
    }
  }

  // ---------------------------------------------------------------------
  // The engine

  ghost predicate IndicesInRange(tags: seq<TagInput>)
  {
    forall p :: 0 <= p < |tags| ==> 0 <= tags[p].index < |tags|
  }

  ghost predicate DistinctTagIndices(tags: seq<TagInput>)
  {
    forall p, q :: 0 <= p < q < |tags| ==> tags[p].index != tags[q].index
  }

  function Rects(tags: seq<TagInput>): (rs: seq<TagRect>)
    ensures |rs| == |tags|
    ensures forall p :: 0 <= p < |tags| ==> rs[p] == MakeRect(tags[p])
    ensures forall p :: 0 <= p < |tags| ==>
              && rs[p].index == tags[p].index && rs[p].x == tags[p].x
              && rs[p].halfHeight == TagHalfHeight && rs[p].offset == BaseOffset
  {
    seq(|tags|, p requires 0 <= p < |tags| => MakeRect(tags[p]))
  }

  /** The placed rectangles in sweep (x-sorted) order. */
  function Placement(tags: seq<TagInput>): (placed: seq<TagRect>)
    ensures |placed| == |tags|
  {
    SweepSpec(SortBy(Rects(tags), RectX))
  }

  /** `TagLayoutEngine.resolveOverlaps`: the offset of every tag, stored at
      the tag's index. */
  function ResolveOverlaps(tags: seq<TagInput>): (offsets: seq<real>)
    requires IndicesInRange(tags)
    ensures |offsets| == |tags|
  {
    if tags == [] then []
    else
      var placed := Placement(tags);
      var sorted := SortBy(Rects(tags), RectX);
      SweepKeepsBoxes(sorted);
      assert forall m :: 0 <= m < |placed| ==> 0 <= placed[m].index < |tags| by {
        forall m | 0 <= m < |placed|
          ensures 0 <= placed[m].index < |tags|
        {
          assert SameBox(sorted[m], placed[m]);
          assert sorted[m] in multiset(Rects(tags));
        }
      }
      Scatter(seq(|tags|, _ => 0.0), placed)
  }

  /** With pairwise distinct indices, the tag given at position p receives
      at its index the offset the sweep computed for its rectangle, and
      that offset is at least 0.10 and at most 0.10 + 4 * 5 * 0.05 away from
      the curve. */
  lemma ResolveOverlapsPlacesEveryTag(tags: seq<TagInput>, p: nat)
    requires IndicesInRange(tags) && DistinctTagIndices(tags) && p < |tags|
    ensures exists m :: 0 <= m < |tags|
              && SameBox(MakeRect(tags[p]), Placement(tags)[m])
              && ResolveOverlaps(tags)[tags[p].index] == Placement(tags)[m].offset
    ensures BaseOffset <= Abs(ResolveOverlaps(tags)[tags[p].index]) <= MaxOffset
  {
    var rects := Rects(tags);
    var sorted := SortBy(rects, RectX);
    var placed := Placement(tags);
    SweepKeepsBoxes(sorted);
    assert DistinctIndices(rects) by {
      forall a, b | 0 <= a < b < |rects|
        ensures rects[a].index != rects[b].index
      {
        assert rects[a].index == tags[a].index && rects[b].index == tags[b].index;
      }
    }
    DistinctIndicesPermutation(sorted, rects);
    assert DistinctIndices(placed) by {
      forall a, b | 0 <= a < b < |placed|
        ensures placed[a].index != placed[b].index
      {
        assert SameBox(sorted[a], placed[a]) && SameBox(sorted[b], placed[b]);
      }
    }
    assert AllAtBase(sorted) by {
      forall m | 0 <= m < |sorted|
        ensures sorted[m].offset == BaseOffset
      {
        assert sorted[m] in multiset(rects);
      }
    }
    assert rects[p] in multiset(sorted);
    SweepOffsetsBounded(sorted);
    var m :| 0 <= m < |sorted| && sorted[m] == rects[p];
    assert SameBox(sorted[m], placed[m]);
    assert ResolveOverlaps(tags)[placed[m].index] == placed[m].offset;
  }

  /** No tags, no offsets; a lone tag keeps the default offset +0.10. */
  lemma ResolveOverlapsSmall(tags: seq<TagInput>)
    requires IndicesInRange(tags) && |tags| <= 1
    ensures |tags| == 0 ==> ResolveOverlaps(tags) == []
    ensures |tags| == 1 ==> ResolveOverlaps(tags) == [BaseOffset]
  {
    if |tags| == 1 {
      var rects := Rects(tags);
      assert SortBy(rects, RectX) == rects;
      assert Placement(tags) == rects;
    }
  }
}
