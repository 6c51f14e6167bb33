/** Sorting by a real-valued key. Both the curve sampler's table and the tag
    layout engine sort by x; the source uses the library sort, which promises
    only a permutation ordered by the key. The model uses a stable insertion
    sort and states exactly those two facts about it, so every property proved
    downstream holds for any ordering the library might choose among equal
    keys wherever the downstream contract takes the sorted sequence as input. */
module Sorting {

  ghost predicate SortedBy<T>(s: seq<T>, key: T -> real)
  {
    forall i, j :: 0 <= i < j < |s| ==> key(s[i]) <= key(s[j])
  }

  /** Inserts `a` in front of the first element whose key is not below its
      own, so `a` precedes the equal keys already in `s`. */
  function InsertBy<T>(a: T, s: seq<T>, key: T -> real): (r: seq<T>)
    requires SortedBy(s, key)
    ensures |r| == |s| + 1
    ensures multiset(r) == multiset(s) + multiset{a}
    ensures SortedBy(r, key)
  {
    if s == [] then [a]
    else if key(a) <= key(s[0]) then [a] + s
    else
      var rest := InsertBy(a, s[1..], key);
      assert s == [s[0]] + s[1..];
      HeadBelowInserted(a, s, key, rest);
      ConsSorted(s[0], rest, key);
      [s[0]] + rest
  }

  /** Every element of `InsertBy(a, s[1..])` has a key at least `s[0]`'s
      when `a` goes after `s[0]`. */
  lemma HeadBelowInserted<T>(a: T, s: seq<T>, key: T -> real, rest: seq<T>)
    requires |s| > 0 && SortedBy(s, key) && key(s[0]) < key(a)
    requires multiset(rest) == multiset(s[1..]) + multiset{a}
    ensures forall k :: 0 <= k < |rest| ==> key(s[0]) <= key(rest[k])
  {
    forall k | 0 <= k < |rest|
      ensures key(s[0]) <= key(rest[k])
    {
      assert rest[k] in multiset(rest);
      if rest[k] != a {
        assert rest[k] in multiset(s[1..]);
        var m :| 0 <= m < |s[1..]| && s[1..][m] == rest[k];
        assert s[m + 1] == rest[k];
      }
    }
  }

  lemma ConsSorted<T>(h: T, s: seq<T>, key: T -> real)
    requires SortedBy(s, key)
    requires forall k :: 0 <= k < |s| ==> key(h) <= key(s[k])
    ensures SortedBy([h] + s, key)
  {
    var r := [h] + s;
    forall i, j | 0 <= i < j < |r|
      ensures key(r[i]) <= key(r[j])
    {
      assert r[j] == s[j - 1];
      if i > 0 { assert r[i] == s[i - 1]; }
    }
  }

  /** Insertion sort by `key`: a permutation of `s` ordered by the key. */
  function SortBy<T>(s: seq<T>, key: T -> real): (r: seq<T>)
    ensures |r| == |s|
    ensures multiset(r) == multiset(s)
    ensures SortedBy(r, key)
  {
    if s == [] then []
    else
      assert s == [s[0]] + s[1..];
      InsertBy(s[0], SortBy(s[1..], key), key)
  }
}
