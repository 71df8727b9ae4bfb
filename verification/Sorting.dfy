/** Stable sorting by an integer key, as Python's sorted does it. */
module Sorting {
  predicate SortedBy<T>(key: T -> int, xs: seq<T>) {
    forall i, j :: 0 <= i < j < |xs| ==> key(xs[i]) <= key(xs[j])
  }

  /** The elements with one key, in order. */
  function Keep<T>(key: T -> int, k: int, xs: seq<T>): seq<T> {
    if xs == [] then []
    else Keep(key, k, xs[..|xs| - 1]) + (if key(xs[|xs| - 1]) == k then [xs[|xs| - 1]] else [])
  }

  /** Behind everything that is not larger. */
  function Insert<T>(key: T -> int, x: T, xs: seq<T>): (r: seq<T>)
    ensures |r| == |xs| + 1
  {
    if xs == [] || key(xs[|xs| - 1]) <= key(x) then xs + [x]
    else Insert(key, x, xs[..|xs| - 1]) + [xs[|xs| - 1]]
  }

  function StableSort<T>(key: T -> int, xs: seq<T>): (r: seq<T>)
    ensures |r| == |xs|
  {
    if xs == [] then [] else Insert(key, xs[|xs| - 1], StableSort(key, xs[..|xs| - 1]))
  }

  lemma {:induction false} InsertMembers<T>(key: T -> int, x: T, xs: seq<T>)
    ensures multiset(Insert(key, x, xs)) == multiset(xs) + multiset{x}
  {
    if xs != [] && key(xs[|xs| - 1]) > key(x) {
      InsertMembers(key, x, xs[..|xs| - 1]);
      assert xs == xs[..|xs| - 1] + [xs[|xs| - 1]];
    }
  }

  lemma {:induction false} InsertKeepsOrder<T>(key: T -> int, x: T, xs: seq<T>)
    requires SortedBy(key, xs)
    ensures SortedBy(key, Insert(key, x, xs))
    ensures forall y :: y in Insert(key, x, xs) ==> y in xs || y == x
  {
    if xs != [] && key(xs[|xs| - 1]) > key(x) {
      var front := Insert(key, x, xs[..|xs| - 1]);
      InsertKeepsOrder(key, x, xs[..|xs| - 1]);
      forall i | 0 <= i < |front| ensures key(front[i]) <= key(xs[|xs| - 1]) {
        assert front[i] in front;
      }
    }
  }

  lemma {:induction false} NoneKept<T>(key: T -> int, k: int, xs: seq<T>)
    requires forall i :: 0 <= i < |xs| ==> key(xs[i]) != k
    ensures Keep(key, k, xs) == []
  {
    if xs != [] {
      NoneKept(key, k, xs[..|xs| - 1]);
    }
  }

  lemma KeepSnoc<T>(key: T -> int, k: int, xs: seq<T>, x: T)
    ensures Keep(key, k, xs + [x]) == Keep(key, k, xs) + (if key(x) == k then [x] else [])
  {
    assert (xs + [x])[..|xs|] == xs;
  }

  /** A newcomer goes behind its equals. */
  lemma {:induction false} InsertIsLast<T>(key: T -> int, x: T, xs: seq<T>, k: int)
    requires SortedBy(key, xs)
    ensures Keep(key, k, Insert(key, x, xs)) == Keep(key, k, xs) + (if key(x) == k then [x] else [])
  {
    if xs == [] || key(xs[|xs| - 1]) <= key(x) {
      KeepSnoc(key, k, xs, x);
    } else {
      var front, last := xs[..|xs| - 1], xs[|xs| - 1];
      InsertIsLast(key, x, front, k);
      KeepSnoc(key, k, Insert(key, x, front), last);
    }
  }

  /** Sorted, the same elements, and equal keys in their old order. */
  lemma {:induction false} StableSortIsStable<T>(key: T -> int, xs: seq<T>)
    ensures SortedBy(key, StableSort(key, xs)) && multiset(StableSort(key, xs)) == multiset(xs)
    ensures forall k :: Keep(key, k, StableSort(key, xs)) == Keep(key, k, xs)
  {
    if xs != [] {
      var front, last := xs[..|xs| - 1], xs[|xs| - 1];
      StableSortIsStable(key, front);
      InsertKeepsOrder(key, last, StableSort(key, front));
      InsertMembers(key, last, StableSort(key, front));
      assert xs == front + [last];
      forall k ensures Keep(key, k, StableSort(key, xs)) == Keep(key, k, xs) {
        InsertIsLast(key, last, StableSort(key, front), k);
      }
    }
  }

  lemma {:induction false} SortedIsUnmoved<T>(key: T -> int, xs: seq<T>)
    requires SortedBy(key, xs)
    ensures StableSort(key, xs) == xs
  {
    if xs != [] {
      SortedIsUnmoved(key, xs[..|xs| - 1]);
    }
  }
}
