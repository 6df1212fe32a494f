/**
 * Ordering newest first: `xs.sort((a, b) => key(b) - key(a))`, and the
 * store's `order(column, { ascending: false })`. The comparison is a stable
 * insertion sort on an integer key.
 */
module Sorting {

  /** Keys never increase from left to right. */
  ghost predicate SortedDesc<T>(xs: seq<T>, key: T -> int)
  {
    forall i, j :: 0 <= i < j < |xs| ==> key(xs[i]) >= key(xs[j])
  }

  /** No two positions carry the same key. */
  ghost predicate DistinctKeys<T>(xs: seq<T>, key: T -> int)
  {
    forall i, j :: 0 <= i < j < |xs| ==> key(xs[i]) != key(xs[j])
  }

  /** Puts `x` in front of the first element whose key is not larger than its own. */
  function InsertDesc<T>(x: T, xs: seq<T>, key: T -> int): (r: seq<T>)
    ensures multiset(r) == multiset(xs) + multiset{x}
    decreases |xs|
  {
    if xs == [] || key(x) >= key(xs[0]) then [x] + xs
    else
      assert xs == [xs[0]] + xs[1..];
      [xs[0]] + InsertDesc(x, xs[1..], key)
  }

  /** Every element of `InsertDesc(x, xs, key)` is `x` or an element of `xs`. */
  lemma InsertDescFrom<T>(x: T, xs: seq<T>, key: T -> int, k: nat)
    requires k < |InsertDesc(x, xs, key)|
    ensures InsertDesc(x, xs, key)[k] == x || exists j :: 0 <= j < |xs| && xs[j] == InsertDesc(x, xs, key)[k]
  {
    var y := InsertDesc(x, xs, key)[k];
    assert y in multiset(InsertDesc(x, xs, key));
    if y != x {
      assert y in multiset(xs);
    }
  }

  /** Inserting into a newest-first sequence keeps it newest first. */
  lemma {:induction false} InsertDescSorted<T>(x: T, xs: seq<T>, key: T -> int)
    requires SortedDesc(xs, key)
    ensures SortedDesc(InsertDesc(x, xs, key), key)
    decreases |xs|
  {
    if xs != [] && key(x) < key(xs[0]) {
      var rest := InsertDesc(x, xs[1..], key);
      InsertDescSorted(x, xs[1..], key);
      forall k | 0 <= k < |rest| ensures key(rest[k]) <= key(xs[0]) {
        InsertDescFrom(x, xs[1..], key, k);
      }
    }
  }

  /** The newest-first ordering of `xs`: sorted by decreasing key, a permutation of `xs`. */
  function SortDesc<T>(xs: seq<T>, key: T -> int): (r: seq<T>)
    ensures multiset(r) == multiset(xs)
    ensures SortedDesc(r, key)
    decreases |xs|
  {
    if xs == [] then []
    else
      assert xs == [xs[0]] + xs[1..];
      var sorted := SortDesc(xs[1..], key);
      InsertDescSorted(xs[0], sorted, key);
      InsertDesc(xs[0], sorted, key)
  }

  lemma {:induction false} InsertDescDistinct<T>(x: T, xs: seq<T>, key: T -> int)
    requires DistinctKeys(xs, key)
    requires forall i :: 0 <= i < |xs| ==> key(xs[i]) != key(x)
    ensures DistinctKeys(InsertDesc(x, xs, key), key)
    decreases |xs|
  {
    if xs != [] && key(x) < key(xs[0]) {
      var rest := InsertDesc(x, xs[1..], key);
      InsertDescDistinct(x, xs[1..], key);
      forall k | 0 <= k < |rest| ensures key(rest[k]) != key(xs[0]) {
        InsertDescFrom(x, xs[1..], key, k);
      }
    }
  }

  /** Sorting keeps keys distinct; with a sorted result this makes the order strict. */
  lemma {:induction false} SortDescDistinct<T>(xs: seq<T>, key: T -> int)
    requires DistinctKeys(xs, key)
    ensures DistinctKeys(SortDesc(xs, key), key)
    ensures forall i, j :: 0 <= i < j < |SortDesc(xs, key)| ==>
      key(SortDesc(xs, key)[i]) > key(SortDesc(xs, key)[j])
    decreases |xs|
  {
    if xs != [] {
      var sorted := SortDesc(xs[1..], key);
      SortDescDistinct(xs[1..], key);
      forall i | 0 <= i < |sorted| ensures key(sorted[i]) != key(xs[0]) {
        assert sorted[i] in multiset(xs[1..]);
        var j :| 0 <= j < |xs[1..]| && xs[1..][j] == sorted[i];
        assert xs[j + 1] == sorted[i];
      }
      InsertDescDistinct(xs[0], sorted, key);
    }
  }
}
