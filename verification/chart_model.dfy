/** The chart's view-model: the list of plotted people, the colour counter
    and the rule that every mutation is followed by a fresh tag layout. The
    state is a value; `ChartViewModel` at the end wraps it in an object. */
module ChartModel {
  import opened Geometry
  import opened Text
  import opened People
  import opened CurveSampler
  import opened TagLayout

  datatype ChartState = ChartState(people: seq<Person>, nextColorIndex: int)

  /** The view-model as first created: nobody plotted, counter at zero. */
  function Initial(): (st: ChartState)
    ensures st.people == [] && st.nextColorIndex == 0
    ensures Valid(st)
  {
    ChartState([], 0)
  }

  // ---------------------------------------------------------------------
  // Layout

  /** The engine input for person `i`: its list position as index, its
      position and its name length. */
  function TagOf(people: seq<Person>, i: nat): TagInput
    requires i < |people|
  {
    TagInput(i, people[i].position.x, people[i].position.y, |people[i].name|)
  }

  /** The engine input for the whole list; indices are 0, 1, ..., n - 1. */
  function Tags(people: seq<Person>): (tags: seq<TagInput>)
    ensures |tags| == |people|
    ensures forall i :: 0 <= i < |people| ==> tags[i] == TagOf(people, i)
    ensures IndicesInRange(tags) && DistinctTagIndices(tags)
  {
    seq(|people|, i requires 0 <= i < |people| => TagOf(people, i))
  }

  /** Two lists that differ at most in their tag offsets. */
  ghost predicate SameExceptOffset(a: seq<Person>, b: seq<Person>)
  {
    |a| == |b| && forall i :: 0 <= i < |a| ==> a[i] == b[i].(tagOffset := a[i].tagOffset)
  }

  /** Every offset is the engine's output for the list's own tags. */
  ghost predicate LaidOut(people: seq<Person>)
  {
    forall i :: 0 <= i < |people| ==> people[i].tagOffset == ResolveOverlaps(Tags(people))[i]
  }

  /** The engine does not read tag offsets. */
  lemma TagsIgnoreOffsets(a: seq<Person>, b: seq<Person>)
    requires SameExceptOffset(a, b)
    ensures Tags(a) == Tags(b)
  {
    assert forall i :: 0 <= i < |a| ==> TagOf(a, i) == TagOf(b, i);
  }

  /** `resolveOverlaps()` of the view-model: an empty list is left alone,
      otherwise every person gets the engine's offset for its position. */
  function Relayout(people: seq<Person>): (r: seq<Person>)
    ensures SameExceptOffset(r, people)
    ensures LaidOut(r)
  {
    if people == [] then people
    else
      var offsets := ResolveOverlaps(Tags(people));
      var r := seq(|people|, i requires 0 <= i < |people| => people[i].(tagOffset := offsets[i]));
      TagsIgnoreOffsets(r, people);
      r
  }

  /** A laid-out list is determined by everything except its offsets. */
  lemma LaidOutUnique(a: seq<Person>, b: seq<Person>)
    requires SameExceptOffset(a, b) && LaidOut(a) && LaidOut(b)
    ensures a == b
  {
    TagsIgnoreOffsets(a, b);
    assert forall i :: 0 <= i < |a| ==> a[i] == b[i];
  }

  /** Laying out a laid-out list changes nothing, so running the layout
      twice gives the offsets of running it once. */
  lemma RelayoutIdempotent(people: seq<Person>)
    ensures LaidOut(people) ==> Relayout(people) == people
    ensures Relayout(Relayout(people)) == Relayout(people)
  {
    if LaidOut(people) {
      LaidOutUnique(Relayout(people), people);
    }
    LaidOutUnique(Relayout(Relayout(people)), Relayout(people));
  }

  /** After a layout every tag sits between 0.10 and the push ceiling away
      from its marker, on one side or the other, and the offset at i is the
      one the sweep computed for person i's own rectangle. */
  lemma RelayoutOffsetsBounded(people: seq<Person>, i: nat)
    requires i < |people|
    ensures BaseOffset <= Abs(Relayout(people)[i].tagOffset) <= MaxOffset
    ensures exists m :: 0 <= m < |people|
              && SameBox(MakeRect(TagOf(people, i)), Placement(Tags(people))[m])
              && Relayout(people)[i].tagOffset == Placement(Tags(people))[m].offset
  {
    var tags := Tags(people);
    ResolveOverlapsPlacesEveryTag(tags, i);
    assert tags[i].index == i;
  }

  // ---------------------------------------------------------------------
  // Invariant

  ghost predicate DistinctIds(people: seq<Person>)
  {
    forall i, j :: 0 <= i < j < |people| ==> people[i].id != people[j].id
  }

  /** Ids are unique, and colour indices are unique and below the counter:
      each person took the counter's value when added and it only grows. */
  ghost predicate Valid(st: ChartState)
  {
    && 0 <= st.nextColorIndex
    && DistinctIds(st.people)
    && (forall i :: 0 <= i < |st.people| ==> 0 <= st.people[i].colorIndex < st.nextColorIndex)
    && (forall i, j :: 0 <= i < j < |st.people| ==> st.people[i].colorIndex != st.people[j].colorIndex)
  }

  /** The invariant reads only ids and colour indices. */
  lemma ValidSameKeys(a: seq<Person>, b: seq<Person>, next: int)
    requires |a| == |b| && Valid(ChartState(b, next))
    requires forall i :: 0 <= i < |a| ==> a[i].id == b[i].id && a[i].colorIndex == b[i].colorIndex
    ensures Valid(ChartState(a, next))
  {
  }

  /** The invariant does not read tag offsets. */
  lemma ValidIgnoresOffsets(a: seq<Person>, b: seq<Person>, next: int)
    requires SameExceptOffset(a, b) && Valid(ChartState(b, next))
    ensures Valid(ChartState(a, next))
  {
    assert forall i :: 0 <= i < |a| ==> a[i].id == b[i].id && a[i].colorIndex == b[i].colorIndex;
    ValidSameKeys(a, b, next);
  }

  /** Every plotted person sits on the curve. */
  ghost predicate AllOnCurve(s: Sampler, people: seq<Person>)
    requires ValidTable(s.table)
  {
    forall i :: 0 <= i < |people| ==> OnCurve(s, people[i].position)
  }

  // ---------------------------------------------------------------------
  // Adding

  /** `addPerson(named:)` with the view-model's sampler `s`. `randomX` is
      the draw from 0.1...0.9 and `id` the fresh UUID; both are supplied by
      the caller. */
  function AddPerson(s: Sampler, st: ChartState, name: string, randomX: real, id: PersonId): (r: ChartState)
    requires ValidTable(s.table) && 0.1 <= randomX <= 0.9
    ensures Trim(name) == [] ==> r == st
    ensures Trim(name) != [] ==>
              |r.people| == |st.people| + 1 && r.nextColorIndex == st.nextColorIndex + 1
  {
    var trimmed := Trim(name);
    if trimmed == [] then st
    else
      var snapped := Snap(s, Point(randomX, 0.0));
      var person := NewPerson(id, trimmed, st.nextColorIndex, snapped);
      ChartState(Relayout(st.people + [person]), st.nextColorIndex + 1)
  }

  /** What adding a non-blank name does: the people already plotted change
      only in tag offset, and one person is appended with the fresh id, the
      trimmed name, the counter's old value as colour index and the random
      x, snapped onto the curve; then the whole list is laid out. */
  lemma AddPersonAppends(s: Sampler, st: ChartState, name: string, randomX: real, id: PersonId)
    requires ValidTable(s.table) && 0.1 <= randomX <= 0.9 && Trim(name) != []
    ensures var r := AddPerson(s, st, name, randomX, id);
            var n := |st.people|;
            && SameExceptOffset(r.people[..n], st.people)
            && r.people[n].id == id
            && r.people[n].name == Trim(name)
            && r.people[n].colorIndex == st.nextColorIndex
            && r.people[n].position.x == randomX
            && OnCurve(s, r.people[n].position)
            && LaidOut(r.people)
  {
    var r := AddPerson(s, st, name, randomX, id);
    var n := |st.people|;
    var person := NewPerson(id, Trim(name), st.nextColorIndex, Snap(s, Point(randomX, 0.0)));
    var before := st.people + [person];
    assert r.people == Relayout(before);
    assert SameExceptOffset(r.people, before);
    forall i | 0 <= i < n
      ensures r.people[..n][i] == st.people[i].(tagOffset := r.people[..n][i].tagOffset)
    {
      assert r.people[..n][i] == r.people[i] && before[i] == st.people[i];
    }
    assert r.people[n] == person.(tagOffset := r.people[n].tagOffset);
  }

  /** Appending one person with a fresh id and the counter's value as
      colour index, while bumping the counter, keeps the invariant. */
  lemma ValidAfterAppend(st: ChartState, r: ChartState)
    requires Valid(st)
    requires |r.people| == |st.people| + 1 && r.nextColorIndex == st.nextColorIndex + 1
    requires SameExceptOffset(r.people[..|st.people|], st.people)
    requires forall i :: 0 <= i < |st.people| ==> st.people[i].id != r.people[|st.people|].id
    requires r.people[|st.people|].colorIndex == st.nextColorIndex
    ensures Valid(r)
  {
    var n := |st.people|;
    forall i | 0 <= i < n
      ensures r.people[i].id == st.people[i].id && r.people[i].colorIndex == st.people[i].colorIndex
    {
      assert r.people[..n][i] == r.people[i];
    }
  }

  /** Adding with a fresh id keeps the invariant. */
  lemma AddPersonPreservesValid(s: Sampler, st: ChartState, name: string, randomX: real, id: PersonId)
    requires ValidTable(s.table) && 0.1 <= randomX <= 0.9
    requires Valid(st) && forall i :: 0 <= i < |st.people| ==> st.people[i].id != id
    ensures Valid(AddPerson(s, st, name, randomX, id))
  {
    var r := AddPerson(s, st, name, randomX, id);
    if Trim(name) != [] {
      AddPersonAppends(s, st, name, randomX, id);
      ValidAfterAppend(st, r);
    }
  }

  /** Appending a person on the curve keeps everybody on the curve. */
  lemma OnCurveAfterAppend(s: Sampler, before: seq<Person>, after: seq<Person>)
    requires ValidTable(s.table) && AllOnCurve(s, before)
    requires |after| == |before| + 1
    requires SameExceptOffset(after[..|before|], before)
    requires OnCurve(s, after[|before|].position)
    ensures AllOnCurve(s, after)
  {
    var n := |before|;
    forall i | 0 <= i < n
      ensures after[i].position == before[i].position
    {
      assert after[..n][i] == after[i];
    }
  }

  /** Adding keeps everybody on the curve. */
  lemma AddPersonKeepsOnCurve(s: Sampler, st: ChartState, name: string, randomX: real, id: PersonId)
    requires ValidTable(s.table) && 0.1 <= randomX <= 0.9
    requires AllOnCurve(s, st.people)
    ensures AllOnCurve(s, AddPerson(s, st, name, randomX, id).people)
  {
    var r := AddPerson(s, st, name, randomX, id);
    if Trim(name) != [] {
      AddPersonAppends(s, st, name, randomX, id);
      OnCurveAfterAppend(s, st.people, r.people);
    }
  }

  /** The first person added to an empty chart gets the default offset. */
  lemma FirstPersonAtBaseOffset(s: Sampler, name: string, randomX: real, id: PersonId)
    requires ValidTable(s.table) && 0.1 <= randomX <= 0.9 && Trim(name) != []
    ensures var r := AddPerson(s, Initial(), name, randomX, id);
            |r.people| == 1 && r.people[0].tagOffset == BaseOffset && r.nextColorIndex == 1
  {
    var r := AddPerson(s, Initial(), name, randomX, id);
    AddPersonAppends(s, Initial(), name, randomX, id);
    ResolveOverlapsSmall(Tags(r.people));
  }

  // ---------------------------------------------------------------------
  // Removing

  /** The list without the entries carrying `id`, in order. */
  function Without(people: seq<Person>, id: PersonId): (r: seq<Person>)
    ensures |r| <= |people|
    ensures forall i :: 0 <= i < |r| ==> r[i].id != id
  {
    if people == [] then []
    else (if people[0].id == id then [] else [people[0]]) + Without(people[1..], id)
  }

  /** Filtering distributes over concatenation, so the kept entries stay in
      their original order. */
  lemma {:induction false} WithoutAppend(a: seq<Person>, b: seq<Person>, id: PersonId)
    ensures Without(a + b, id) == Without(a, id) + Without(b, id)
    decreases |a|
  {
    if a == [] {
      assert a + b == b;
    } else {
      assert (a + b)[0] == a[0];
      assert (a + b)[1..] == a[1..] + b;
      WithoutAppend(a[1..], b, id);
    }
  }

  /** An entry survives exactly when it is in the list and has another id. */
  lemma {:induction false} WithoutMembers(people: seq<Person>, id: PersonId, p: Person)
    ensures p in Without(people, id) <==> p in people && p.id != id
    decreases |people|
  {
    if people != [] {
      WithoutMembers(people[1..], id, p);
      assert people == [people[0]] + people[1..];
    }
  }

  /** Nothing is removed when no entry carries the id. */
  lemma {:induction false} WithoutAbsent(people: seq<Person>, id: PersonId)
    requires forall i :: 0 <= i < |people| ==> people[i].id != id
    ensures Without(people, id) == people
    decreases |people|
  {
    if people != [] {
      WithoutAbsent(people[1..], id);
    }
  }

  /** `removePerson(_:)`: every entry with that id goes, then the layout is redone. */
  function RemovePerson(st: ChartState, id: PersonId): (r: ChartState)
    ensures r.nextColorIndex == st.nextColorIndex
    ensures SameExceptOffset(r.people, Without(st.people, id))
    ensures forall i :: 0 <= i < |r.people| ==> r.people[i].id != id
    ensures LaidOut(r.people)
  {
    ChartState(Relayout(Without(st.people, id)), st.nextColorIndex)
  }

  /** Removing keeps everybody on the curve. */
  lemma RemovePersonKeepsOnCurve(s: Sampler, st: ChartState, id: PersonId)
    requires ValidTable(s.table) && AllOnCurve(s, st.people)
    ensures AllOnCurve(s, RemovePerson(st, id).people)
  {
    var w := Without(st.people, id);
    forall i | 0 <= i < |w|
      ensures OnCurve(s, w[i].position)
    {
      assert w[i] in w;
      WithoutMembers(st.people, id, w[i]);
    }
  }

  /** Removing keeps the invariant. */
  lemma RemovePersonPreservesValid(st: ChartState, id: PersonId)
    requires Valid(st)
    ensures Valid(RemovePerson(st, id))
  {
    var w := Without(st.people, id);
    var r := RemovePerson(st, id);
    WithoutKeepsDistinct(st.people, id);
    forall i | 0 <= i < |w|
      ensures w[i] in st.people
    {
      assert w[i] in w;
      WithoutMembers(st.people, id, w[i]);
    }
    assert Valid(ChartState(w, st.nextColorIndex));
    ValidIgnoresOffsets(r.people, w, st.nextColorIndex);
  }

  /** Filtering keeps ids pairwise distinct and colour indices pairwise
      distinct. */
  lemma {:induction false} WithoutKeepsDistinct(people: seq<Person>, id: PersonId)
    ensures DistinctIds(people) ==> DistinctIds(Without(people, id))
    ensures (forall i, j :: 0 <= i < j < |people| ==> people[i].colorIndex != people[j].colorIndex) ==>
            (forall i, j :: 0 <= i < j < |Without(people, id)| ==>
               Without(people, id)[i].colorIndex != Without(people, id)[j].colorIndex)
    decreases |people|
  {
    if people != [] {
      var rest := people[1..];
      WithoutKeepsDistinct(rest, id);
      var wr := Without(rest, id);
      forall k | 0 <= k < |wr|
        ensures wr[k] in rest
      {
        assert wr[k] in wr;
        WithoutMembers(rest, id, wr[k]);
      }
    }
  }

  // ---------------------------------------------------------------------
  // Moving

  /** `firstIndex(where:)` on the id. */
  function FirstIndexOf(people: seq<Person>, id: PersonId): (r: Option<nat>)
    ensures r.None? <==> forall i :: 0 <= i < |people| ==> people[i].id != id
    ensures r.Some? ==> r.value < |people| && people[r.value].id == id
    ensures r.Some? ==> forall i :: 0 <= i < r.value ==> people[i].id != id
  {
    if people == [] then None
    else if people[0].id == id then Some(0)
    else match FirstIndexOf(people[1..], id)
      case None => None
      case Some(k) => Some(k + 1)
  }

  /** `updatePosition(for:to:aspectRatio:)`. The curve's nearest-point
      search is supplied by the caller as `nearest`. */
  function UpdatePosition(st: ChartState, id: PersonId, target: Point, aspect: real,
                          nearest: (Point, real) -> Point): (r: ChartState)
    ensures r.nextColorIndex == st.nextColorIndex
    ensures |r.people| == |st.people|
    ensures FirstIndexOf(st.people, id).None? ==> r == st
    ensures FirstIndexOf(st.people, id).Some? ==>
              var k := FirstIndexOf(st.people, id).value;
              && r.people[k] == st.people[k].(position := nearest(target, aspect), tagOffset := r.people[k].tagOffset)
              && (forall i :: 0 <= i < |st.people| && i != k ==>
                    r.people[i] == st.people[i].(tagOffset := r.people[i].tagOffset))
              && LaidOut(r.people)
  {
    match FirstIndexOf(st.people, id)
    case None => st
    case Some(k) =>
      var moved := st.people[k := st.people[k].(position := nearest(target, aspect))];
      ChartState(Relayout(moved), st.nextColorIndex)
  }

  /** Moving keeps the invariant. */
  lemma UpdatePositionPreservesValid(st: ChartState, id: PersonId, target: Point, aspect: real,
                                     nearest: (Point, real) -> Point)
    requires Valid(st)
    ensures Valid(UpdatePosition(st, id, target, aspect, nearest))
  {
    var r := UpdatePosition(st, id, target, aspect, nearest);
    match FirstIndexOf(st.people, id)
    case None =>
    case Some(k) =>
      var moved := st.people[k := st.people[k].(position := nearest(target, aspect))];
      assert SameExceptOffset(r.people, moved);
      assert forall i :: 0 <= i < |moved| ==>
               moved[i].id == st.people[i].id && moved[i].colorIndex == st.people[i].colorIndex;
      ValidSameKeys(moved, st.people, st.nextColorIndex);
      ValidIgnoresOffsets(r.people, moved, st.nextColorIndex);
  }

  /** Moving keeps everybody on the curve when the nearest-point search
      answers with a point on the curve. */
  lemma UpdatePositionKeepsOnCurve(s: Sampler, st: ChartState, id: PersonId, target: Point, aspect: real,
                                   nearest: (Point, real) -> Point)
    requires ValidTable(s.table) && AllOnCurve(s, st.people) && OnCurve(s, nearest(target, aspect))
    ensures AllOnCurve(s, UpdatePosition(st, id, target, aspect, nearest).people)
  {
  }

  // ---------------------------------------------------------------------
  // Applying offsets

  /** The loop that writes the engine's offsets back, one person at a time. */
  method ApplyOffsets(people: seq<Person>, offsets: seq<real>) returns (r: seq<Person>)
    requires |offsets| == |people|
    ensures SameExceptOffset(r, people)
    ensures forall i :: 0 <= i < |r| ==> r[i].tagOffset == offsets[i]
  {
    r := people;
    var i := 0;
    while i < |r|
      invariant 0 <= i <= |r| == |people|
      invariant forall k :: 0 <= k < i ==> r[k] == people[k].(tagOffset := offsets[k])
      invariant forall k :: i <= k < |r| ==> r[k] == people[k]
    {
      r := r[i := r[i].(tagOffset := offsets[i])];
      i := i + 1;
    }
  }

  /** The view-model's layout step as the source performs it. */
  method RelayoutPeople(people: seq<Person>) returns (r: seq<Person>)
    ensures r == Relayout(people)
  {
    if people == [] {
      return people;
    }
    var offsets := ResolveOverlaps(Tags(people));
    r := ApplyOffsets(people, offsets);
    assert forall i :: 0 <= i < |r| ==> r[i] == Relayout(people)[i];
  }

  // ---------------------------------------------------------------------
  // The object

  /** `ChartViewModel`: the published list and the private colour counter. */
  class ChartViewModel {
    var people: seq<Person>
    var nextColorIndex: int
    const sampler: Sampler

    /** The sampler is usable, ids and colour indices are as `Valid`
        demands, and every tag offset is the engine's layout of the list. */
    ghost predicate Inv()
      reads this
    {
      ValidTable(sampler.table) && Valid(ChartState(people, nextColorIndex)) && LaidOut(people)
    }

    /** The app passes `DKCurveSampler.shared`, i.e. `Shared()`. */
    constructor (s: Sampler)
      requires ValidTable(s.table)
      ensures people == [] && nextColorIndex == 0 && sampler == s && Inv()
    {
      people := [];
      nextColorIndex := 0;
      sampler := s;
    }

    /** `id` stands for the fresh `UUID()`: no plotted person carries it. */
    method AddPersonNamed(name: string, randomX: real, id: PersonId)
      requires Inv() && 0.1 <= randomX <= 0.9
      requires forall i :: 0 <= i < |people| ==> people[i].id != id
      modifies this
      ensures ChartState(people, nextColorIndex)
              == AddPerson(sampler, old(ChartState(people, nextColorIndex)), name, randomX, id)
      ensures Inv()
    {
      AddPersonPreservesValid(sampler, ChartState(people, nextColorIndex), name, randomX, id);
      var st := AddPerson(sampler, ChartState(people, nextColorIndex), name, randomX, id);
      people, nextColorIndex := st.people, st.nextColorIndex;
    }

    method RemovePersonWithId(id: PersonId)
      requires Inv()
      modifies this
      ensures ChartState(people, nextColorIndex)
              == RemovePerson(old(ChartState(people, nextColorIndex)), id)
      ensures nextColorIndex == old(nextColorIndex)
      ensures Inv()
    {
      RemovePersonPreservesValid(ChartState(people, nextColorIndex), id);
      var w := Without(people, id);
      var laid := RelayoutPeople(w);
      people := laid;
    }

    method UpdatePositionFor(id: PersonId, target: Point, aspect: real, nearest: (Point, real) -> Point)
      requires Inv()
      modifies this
      ensures ChartState(people, nextColorIndex)
              == UpdatePosition(old(ChartState(people, nextColorIndex)), id, target, aspect, nearest)
      ensures Inv()
    {
      UpdatePositionPreservesValid(ChartState(people, nextColorIndex), id, target, aspect, nearest);
      match FirstIndexOf(people, id)
      case None =>
      case Some(k) =>
        var moved := people[k := people[k].(position := nearest(target, aspect))];
        var laid := RelayoutPeople(moved);
        people := laid;
    }
  }
}
