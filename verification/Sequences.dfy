/** Filters and stable sorting of sequences, the vocabulary of the list pipelines. */
module Sequences {

  function Filter<T>(p: T -> bool, s: seq<T>): seq<T> {
    if s == [] then []
    else
      var front := Filter(p, s[..|s| - 1]);
      if p(s[|s| - 1]) then front + [s[|s| - 1]] else front
  }

  /** Exactly the elements that satisfy the predicate survive. */
  lemma {:induction false} FilterMembers<T(!new)>(p: T -> bool, s: seq<T>)
    ensures |Filter(p, s)| <= |s|
    ensures forall x :: x in Filter(p, s) <==> x in s && p(x)
  {
    if s != [] {
      var front, last := s[..|s| - 1], s[|s| - 1];
      FilterMembers(p, front);
      assert s == front + [last];
    }
  }

  lemma {:induction false} FilterConcat<T>(p: T -> bool, a: seq<T>, b: seq<T>)
    ensures Filter(p, a + b) == Filter(p, a) + Filter(p, b)
  {
    if b == [] {
      assert a + b == a;
    } else {
      FilterConcat(p, a, b[..|b| - 1]);
      assert (a + b)[..|a + b| - 1] == a + b[..|b| - 1];
    }
  }

  /** A stricter filter keeps fewer elements, unless there is none on which the two disagree. */
  lemma {:induction false} StricterFilter<T>(loose: T -> bool, strict: T -> bool, s: seq<T>)
    requires forall x :: strict(x) ==> loose(x)
    ensures if exists i :: 0 <= i < |s| && loose(s[i]) && !strict(s[i])
      then |Filter(loose, s)| > |Filter(strict, s)| else Filter(loose, s) == Filter(strict, s)
  {
    if s != [] {
      StricterFilter(loose, strict, s[..|s| - 1]);
    }
  }

  /** The first n elements, or all of them when there are fewer. */
  function Take<T>(s: seq<T>, n: nat): seq<T> {
    if n <= |s| then s[..n] else s
  }

  /** What is left after skipping n elements. */
  function Skip<T>(s: seq<T>, n: nat): seq<T> {
    if n <= |s| then s[n..] else []
  }

  function Min(a: int, b: int): int { if a < b then a else b }

  function Max(a: int, b: int): int { if a < b then b else a }

  ghost predicate Distinct<T>(s: seq<T>) {
    forall i, j :: 0 <= i < j < |s| ==> s[i] != s[j]
  }

  // ----- stable sorting by a real key, ascending -----

  ghost predicate Ascending<T(!new)>(key: T -> real, s: seq<T>) {
    forall i, j :: 0 <= i < j < |s| ==> key(s[i]) <= key(s[j])
  }

  predicate HasKey<T>(key: T -> real, k: real, x: T) { key(x) == k }

  function WithKey<T>(key: T -> real, k: real): T -> bool { x => HasKey(key, k, x) }

  /** x goes behind every element whose key is not greater than its own. */
  function InsertStable<T>(key: T -> real, s: seq<T>, x: T): seq<T> {
    if s == [] || key(s[|s| - 1]) <= key(x) then s + [x]
    else InsertStable(key, s[..|s| - 1], x) + [s[|s| - 1]]
  }

  /** The standard library's stable sort by key. */
  function StableSort<T>(key: T -> real, s: seq<T>): seq<T> {
    if s == [] then [] else InsertStable(key, StableSort(key, s[..|s| - 1]), s[|s| - 1])
  }

  lemma {:induction false} InsertStableMultiset<T>(key: T -> real, s: seq<T>, x: T)
    ensures multiset(InsertStable(key, s, x)) == multiset(s) + multiset{x}
  {
    if !(s == [] || key(s[|s| - 1]) <= key(x)) {
      var front, last := s[..|s| - 1], s[|s| - 1];
      assert s == front + [last];
      InsertStableMultiset(key, front, x);
    }
  }

  lemma {:induction false} InsertStableAscending<T(!new)>(key: T -> real, s: seq<T>, x: T)
    requires Ascending(key, s)
    ensures Ascending(key, InsertStable(key, s, x))
  {
    if !(s == [] || key(s[|s| - 1]) <= key(x)) {
      var front, last := s[..|s| - 1], s[|s| - 1];
      InsertStableAscending(key, front, x);
      InsertStableMultiset(key, front, x);
      var r := InsertStable(key, front, x);
      forall i | 0 <= i < |r| ensures key(r[i]) <= key(last) {
        assert r[i] in multiset(r);
        assert r[i] == x || r[i] in front;
      }
    }
  }

  lemma {:induction false} InsertStableKeepsTies<T>(key: T -> real, s: seq<T>, x: T, k: real)
    ensures Filter(WithKey(key, k), InsertStable(key, s, x)) == Filter(WithKey(key, k), s + [x])
  {
    if !(s == [] || key(s[|s| - 1]) <= key(x)) {
      var p, front, last := WithKey(key, k), s[..|s| - 1], s[|s| - 1];
      InsertStableKeepsTies(key, front, x, k);
      FilterConcat(p, InsertStable(key, front, x), [last]);
      FilterConcat(p, front, [x]);
      FilterConcat(p, s, [x]);
      assert s == front + [last];
      FilterConcat(p, front, [last]);
    }
  }

  /** Sorted, and a permutation. */
  lemma {:induction false} StableSortProperties<T(!new)>(key: T -> real, s: seq<T>)
    ensures Ascending(key, StableSort(key, s))
    ensures multiset(StableSort(key, s)) == multiset(s)
    ensures |StableSort(key, s)| == |s|
  {
    if s != [] {
      var front, last := s[..|s| - 1], s[|s| - 1];
      assert s == front + [last];
      StableSortProperties(key, front);
      InsertStableAscending(key, StableSort(key, front), last);
      InsertStableMultiset(key, StableSort(key, front), last);
    }
    assert |multiset(StableSort(key, s))| == |multiset(s)|;
  }

  /** Elements with equal keys keep their order. */
  lemma {:induction false} StableSortKeepsTies<T>(key: T -> real, s: seq<T>, k: real)
    ensures Filter(WithKey(key, k), StableSort(key, s)) == Filter(WithKey(key, k), s)
  {
    if s != [] {
      var p, front, last := WithKey(key, k), s[..|s| - 1], s[|s| - 1];
      assert s == front + [last];
      StableSortKeepsTies(key, front, k);
      InsertStableKeepsTies(key, StableSort(key, front), last, k);
      FilterConcat(p, StableSort(key, front), [last]);
      FilterConcat(p, front, [last]);
    }
  }

  lemma SameElements<T(!new)>(a: seq<T>, b: seq<T>)
    requires multiset(a) == multiset(b)
    ensures forall x :: x in a <==> x in b
  {
    forall x ensures x in a <==> x in b {
      assert x in a <==> x in multiset(a);
      assert x in b <==> x in multiset(b);
    }
  }

  lemma InsertStableLast<T>(key: T -> real, s: seq<T>, x: T)
    requires s != [] ==> key(s[|s| - 1]) <= key(x)
    ensures InsertStable(key, s, x) == s + [x]
  {}

  /** A sequence already in order is left alone. */
  lemma {:induction false} StableSortOfAscending<T(!new)>(key: T -> real, s: seq<T>)
    requires Ascending(key, s)
    ensures StableSort(key, s) == s
  {
    if s != [] {
      var front, last := s[..|s| - 1], s[|s| - 1];
      StableSortOfAscending(key, front);
      if front != [] {
        assert key(s[|front| - 1]) <= key(last);
      }
      InsertStableLast(key, front, last);
      assert s == front + [last];
    }
  }

  // ----- distinctness is a matter of multiplicities -----

  lemma {:induction false} DistinctMultiplicity<T(!new)>(s: seq<T>)
    ensures Distinct(s) <==> forall x :: multiset(s)[x] <= 1
  {
    if s != [] {
      var front, last := s[..|s| - 1], s[|s| - 1];
      assert s == front + [last];
      DistinctMultiplicity(front);
      assert forall x :: multiset(s)[x] == multiset(front)[x] + if x == last then 1 else 0;
      if !Distinct(front) {
        var x :| multiset(front)[x] > 1;
        assert multiset(s)[x] > 1;
      } else if last in front {
        var i :| 0 <= i < |front| && front[i] == last;
        assert s[i] == s[|s| - 1];
        assert last in multiset(front);
        assert multiset(s)[last] > 1;
      } else {
        assert last !in multiset(front);
      }
    }
  }

  lemma PermutationKeepsDistinct<T(!new)>(a: seq<T>, b: seq<T>)
    requires multiset(a) == multiset(b) && Distinct(a)
    ensures Distinct(b)
  {
    DistinctMultiplicity(a);
    DistinctMultiplicity(b);
  }
}
