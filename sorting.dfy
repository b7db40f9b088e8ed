/** Ascending sort of a list of integers: the effect of List<int>.Sort, which
    the median filter calls on each channel's window values. */
module Sorting {

  predicate Sorted(s: seq<int>)
  {
    forall i, j :: 0 <= i < j < |s| ==> s[i] <= s[j]
  }

  /** Insert `v` into a sorted list, keeping it sorted. */
  function Insert(v: int, s: seq<int>): (t: seq<int>)
    requires Sorted(s)
    ensures Sorted(t)
    ensures multiset(t) == multiset(s) + multiset{v}
  {
    if s == [] || v <= s[0] then
      [v] + s
    else
      var rest := Insert(v, s[1..]);
      InsertBehindHead(v, s, rest);
      [s[0]] + rest
  }

  /** The head of a sorted list stays in front of a sorted rearrangement of
      its tail plus a larger value. */
  lemma InsertBehindHead(v: int, s: seq<int>, rest: seq<int>)
    requires s != [] && Sorted(s) && s[0] < v
    requires Sorted(rest) && multiset(rest) == multiset(s[1..]) + multiset{v}
    ensures Sorted([s[0]] + rest)
    ensures multiset([s[0]] + rest) == multiset(s) + multiset{v}
  {
    assert s == [s[0]] + s[1..];
    forall k | 0 <= k < |rest|
      ensures s[0] <= rest[k]
    {
      assert rest[k] in multiset(rest);
    }
  }

  /** The ascending rearrangement of `s`. */
  function Sort(s: seq<int>): (t: seq<int>)
    ensures Sorted(t)
    ensures multiset(t) == multiset(s)
    ensures |t| == |s|
  {
    if s == [] then
      []
    else
      assert s == [s[0]] + s[1..];
      Insert(s[0], Sort(s[1..]))
  }

  /** A list has only one sorted rearrangement, so whatever algorithm the
      library's Sort uses, its result is Sort(s). */
  lemma {:induction false} SortedPermutationsEqual(a: seq<int>, b: seq<int>)
    requires Sorted(a) && Sorted(b)
    requires multiset(a) == multiset(b)
    ensures a == b
  {
    if a != [] {
      assert a[0] in multiset(b);
      SortedHeadIsLeast(b, a[0]);
      SortedHeadIsLeast(a, b[0]);
      TailsPermuted(a, b);
      SortedTail(a);
      SortedTail(b);
      SortedPermutationsEqual(a[1..], b[1..]);
      assert a == [a[0]] + a[1..];
      assert b == [b[0]] + b[1..];
    }
  }

  /** The head of a non-empty sorted list is at most any of its values. */
  lemma SortedHeadIsLeast(s: seq<int>, v: int)
    requires Sorted(s) && v in multiset(s)
    ensures s != [] && s[0] <= v
  {
    assert v in s;
  }

  /** Two rearrangements of one multiset that start alike agree on the rest. */
  lemma TailsPermuted(a: seq<int>, b: seq<int>)
    requires a != [] && b != [] && a[0] == b[0]
    requires multiset(a) == multiset(b)
    ensures multiset(a[1..]) == multiset(b[1..])
  {
    assert a == [a[0]] + a[1..];
    assert b == [b[0]] + b[1..];
    assert multiset(a[1..]) == multiset(a) - multiset{a[0]};
    assert multiset(b[1..]) == multiset(b) - multiset{b[0]};
  }

  lemma SortedTail(s: seq<int>)
    requires s != [] && Sorted(s)
    ensures Sorted(s[1..])
  {
  }

  /** Every sorted rearrangement of `s` is Sort(s). */
  lemma SortIsTheSortedPermutation(s: seq<int>, t: seq<int>)
    requires Sorted(t) && multiset(t) == multiset(s)
    ensures t == Sort(s)
  {
    SortedPermutationsEqual(t, Sort(s));
  }

  /** The element at index |vs| / 2 of the ascending rearrangement: for an
      odd-length list, its median. */
  function Median(vs: seq<int>): (m: int)
    requires |vs| > 0
    ensures m in vs
  {
    var t := Sort(vs);
    assert t[|t| / 2] in multiset(vs);
    t[|vs| / 2]
  }

  /** The median splits the list: no more than half of the values lie strictly
      below it and no more than half strictly above it. */
  lemma MedianSplits(vs: seq<int>)
    requires |vs| > 0
    ensures CountBelow(vs, Median(vs)) <= |vs| / 2
    ensures CountAbove(vs, Median(vs)) <= |vs| - 1 - |vs| / 2
  {
    var t := Sort(vs);
    var m := Median(vs);
    CountBelowPermutation(vs, t, m);
    CountAbovePermutation(vs, t, m);
    CountBelowSortedPrefix(t, m, |t| / 2);
    CountAboveSortedSuffix(t, m, |t| / 2);
  }

  /** A list whose values are all `v` has median `v`. */
  lemma MedianConstant(vs: seq<int>, v: int)
    requires |vs| > 0
    requires forall i :: 0 <= i < |vs| ==> vs[i] == v
    ensures Median(vs) == v
  {
  }

  /** The number of values strictly below `m`. */
  function CountBelow(s: seq<int>, m: int): nat
  {
    if s == [] then 0 else (if s[0] < m then 1 else 0) + CountBelow(s[1..], m)
  }

  /** The number of values strictly above `m`. */
  function CountAbove(s: seq<int>, m: int): nat
  {
    if s == [] then 0 else (if s[0] > m then 1 else 0) + CountAbove(s[1..], m)
  }

  lemma {:induction false} CountBelowPermutation(a: seq<int>, b: seq<int>, m: int)
    requires multiset(a) == multiset(b)
    ensures CountBelow(a, m) == CountBelow(b, m)
    decreases |a|
  {
    if a == [] {
      assert |b| == |multiset(b)| == 0;
    } else {
      assert a[0] in multiset(b);
      var i :| 0 <= i < |b| && b[i] == a[0];
      RemoveAt(b, i);
      RemoveAt(a, 0);
      CountBelowPermutation(a[1..], b[..i] + b[i + 1..], m);
      CountBelowRemove(b, i, m);
    }
  }

  /** Removing the entry at index i removes one copy of it from the multiset. */
  lemma RemoveAt(s: seq<int>, i: nat)
    requires i < |s|
    ensures multiset(s[..i] + s[i + 1..]) == multiset(s) - multiset{s[i]}
  {
    assert s == s[..i] + [s[i]] + s[i + 1..];
    assert s[..0] + s[1..] == s[1..];
  }

  lemma {:induction false} CountBelowRemove(s: seq<int>, i: nat, m: int)
    requires i < |s|
    ensures CountBelow(s, m) == (if s[i] < m then 1 else 0) + CountBelow(s[..i] + s[i + 1..], m)
  {
    if i > 0 {
      CountBelowRemove(s[1..], i - 1, m);
      var r := s[..i] + s[i + 1..];
      assert r != [] && r[0] == s[0];
      assert r[1..] == s[1..][..i - 1] + s[1..][i..];
    } else {
      assert s[..0] + s[1..] == s[1..];
    }
  }

  lemma {:induction false} CountAbovePermutation(a: seq<int>, b: seq<int>, m: int)
    requires multiset(a) == multiset(b)
    ensures CountAbove(a, m) == CountAbove(b, m)
    decreases |a|
  {
    if a == [] {
      assert |b| == |multiset(b)| == 0;
    } else {
      assert a[0] in multiset(b);
      var i :| 0 <= i < |b| && b[i] == a[0];
      RemoveAt(b, i);
      RemoveAt(a, 0);
      CountAbovePermutation(a[1..], b[..i] + b[i + 1..], m);
      CountAboveRemove(b, i, m);
    }
  }

  lemma {:induction false} CountAboveRemove(s: seq<int>, i: nat, m: int)
    requires i < |s|
    ensures CountAbove(s, m) == (if s[i] > m then 1 else 0) + CountAbove(s[..i] + s[i + 1..], m)
  {
    if i > 0 {
      CountAboveRemove(s[1..], i - 1, m);
      var r := s[..i] + s[i + 1..];
      assert r != [] && r[0] == s[0];
      assert r[1..] == s[1..][..i - 1] + s[1..][i..];
    } else {
      assert s[..0] + s[1..] == s[1..];
    }
  }

  /** In a sorted list only the entries before index k can lie below t[k]. */
  lemma {:induction false} CountBelowSortedPrefix(t: seq<int>, m: int, k: nat)
    requires Sorted(t) && k < |t| && t[k] == m
    ensures CountBelow(t, m) <= k
  {
    if k > 0 {
      CountBelowSortedPrefix(t[1..], m, k - 1);
    } else {
      CountBelowNone(t, m);
    }
  }

  lemma {:induction false} CountBelowNone(t: seq<int>, m: int)
    requires forall i :: 0 <= i < |t| ==> t[i] >= m
    ensures CountBelow(t, m) == 0
  {
    if t != [] {
      CountBelowNone(t[1..], m);
    }
  }

  /** In a sorted list only the entries after index k can lie above t[k]. */
  lemma {:induction false} CountAboveSortedSuffix(t: seq<int>, m: int, k: nat)
    requires Sorted(t) && k < |t| && t[k] == m
    ensures CountAbove(t, m) <= |t| - 1 - k
  {
    if k > 0 {
      assert t[0] <= m;
      CountAboveSortedSuffix(t[1..], m, k - 1);
    } else {
      CountAboveAtMost(t[1..], m);
    }
  }

  lemma {:induction false} CountAboveAtMost(t: seq<int>, m: int)
    ensures CountAbove(t, m) <= |t|
  {
    if t != [] {
      CountAboveAtMost(t[1..], m);
    }
  }
}
