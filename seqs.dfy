/**
 * The array operations the dashboard code leans on: `filter`, `map`,
 * `reduce` with `+`, and `[...new Set(xs)]`.
 */
module Seqs {

  /** `xs.filter(p)`: the elements of `xs` that satisfy `p`, in their original order. */
  function Filter<T>(xs: seq<T>, p: T -> bool): (r: seq<T>)
    ensures |r| <= |xs|
    ensures forall i :: 0 <= i < |r| ==> r[i] in xs && p(r[i])
    ensures forall i :: 0 <= i < |xs| && p(xs[i]) ==> xs[i] in r
    decreases |xs|
  {
    if xs == [] then []
    else
      var init := Filter(xs[..|xs| - 1], p);
      assert xs == xs[..|xs| - 1] + [xs[|xs| - 1]];
      if p(xs[|xs| - 1]) then init + [xs[|xs| - 1]] else init
  }

  /** An element is in `Filter(xs, p)` exactly when it is in `xs` and passes `p`. */
  lemma FilterMember<T>(xs: seq<T>, p: T -> bool, x: T)
    ensures x in Filter(xs, p) <==> x in xs && p(x)
  {
    var r := Filter(xs, p);
    if x in r {
      var i :| 0 <= i < |r| && r[i] == x;
    }
    if x in xs && p(x) {
      var i :| 0 <= i < |xs| && xs[i] == x;
    }
  }

  /** Two lists that agree, position by position, on what passes `p` filter to the same list. */
  lemma {:induction false} FilterAgree<T>(xs: seq<T>, ys: seq<T>, p: T -> bool)
    requires |xs| == |ys|
    requires forall i :: 0 <= i < |xs| ==> p(xs[i]) == p(ys[i]) && (p(xs[i]) ==> xs[i] == ys[i])
    ensures Filter(xs, p) == Filter(ys, p)
    decreases |xs|
  {
    if xs != [] {
      FilterAgree(xs[..|xs| - 1], ys[..|ys| - 1], p);
    }
  }

  /**
   * The positions in `xs` that `Filter(xs, p)` keeps. They are strictly
   * increasing, so the kept elements appear in their original relative order.
   */
  function FilterIndices<T>(xs: seq<T>, p: T -> bool): (idx: seq<nat>)
    ensures |idx| == |Filter(xs, p)|
    ensures forall k :: 0 <= k < |idx| ==> idx[k] < |xs| && Filter(xs, p)[k] == xs[idx[k]]
    ensures forall k, l :: 0 <= k < l < |idx| ==> idx[k] < idx[l]
    decreases |xs|
  {
    if xs == [] then []
    else
      var n := |xs| - 1;
      var init := FilterIndices(xs[..n], p);
      assert forall i :: 0 <= i < n ==> xs[..n][i] == xs[i];
      if p(xs[n]) then
        assert Filter(xs, p) == Filter(xs[..n], p) + [xs[n]];
        init + [n]
      else
        assert Filter(xs, p) == Filter(xs[..n], p);
        init
  }

  lemma {:induction false} FilterConcat<T>(a: seq<T>, b: seq<T>, p: T -> bool)
    ensures Filter(a + b, p) == Filter(a, p) + Filter(b, p)
    decreases |b|
  {
    if b == [] {
      assert a + b == a;
    } else {
      var b' := b[..|b| - 1];
      assert (a + b)[..|a + b| - 1] == a + b';
      FilterConcat(a, b', p);
    }
  }

  /** Filtering twice by the same predicate is filtering once. */
  lemma {:induction false} FilterIdempotent<T>(xs: seq<T>, p: T -> bool)
    ensures Filter(Filter(xs, p), p) == Filter(xs, p)
    decreases |xs|
  {
    if xs != [] {
      var init := xs[..|xs| - 1];
      FilterIdempotent(init, p);
      if p(xs[|xs| - 1]) {
        assert Filter(xs, p)[..|Filter(xs, p)| - 1] == Filter(init, p);
      }
    }
  }

  /** A filter that rejects nothing in `xs` returns `xs` unchanged. */
  lemma {:induction false} FilterKeepsAll<T>(xs: seq<T>, p: T -> bool)
    requires forall i :: 0 <= i < |xs| ==> p(xs[i])
    ensures Filter(xs, p) == xs
    decreases |xs|
  {
    if xs != [] {
      FilterKeepsAll(xs[..|xs| - 1], p);
      assert xs == xs[..|xs| - 1] + [xs[|xs| - 1]];
    }
  }

  /** Nothing passes the test: nothing is kept. */
  lemma FilterNone<T>(xs: seq<T>, p: T -> bool)
    requires forall i :: 0 <= i < |xs| ==> !p(xs[i])
    ensures Filter(xs, p) == []
  {
  }

  /** Two predicates that agree on every element of `xs` filter it alike. */
  lemma {:induction false} FilterCongruent<T>(xs: seq<T>, p: T -> bool, q: T -> bool)
    requires forall i :: 0 <= i < |xs| ==> p(xs[i]) == q(xs[i])
    ensures Filter(xs, p) == Filter(xs, q)
    decreases |xs|
  {
    if xs != [] {
      FilterCongruent(xs[..|xs| - 1], p, q);
    }
  }

  /** The conjunction of two tests. */
  function Both<T>(p: T -> bool, q: T -> bool): T -> bool
  {
    x => p(x) && q(x)
  }

  /** Two filters in a row keep what passes both. */
  lemma {:induction false} FilterFilter<T>(xs: seq<T>, p: T -> bool, q: T -> bool)
    ensures Filter(Filter(xs, p), q) == Filter(xs, Both(p, q))
    decreases |xs|
  {
    if xs != [] {
      var init := xs[..|xs| - 1];
      FilterFilter(init, p, q);
      if p(xs[|xs| - 1]) {
        assert (Filter(init, p) + [xs[|xs| - 1]])[..|Filter(init, p)|] == Filter(init, p);
      }
    }
  }

  /** How often `x` occurs in `Filter(xs, p)`: as often as in `xs` if it passes, else never. */
  lemma {:induction false} FilterCount<T>(xs: seq<T>, p: T -> bool, x: T)
    ensures multiset(Filter(xs, p))[x] == if p(x) then multiset(xs)[x] else 0
    decreases |xs|
  {
    if xs != [] {
      var init := xs[..|xs| - 1];
      FilterCount(init, p, x);
      assert xs == init + [xs[|xs| - 1]];
    }
  }

  /** Filtering commutes with reordering: permutations filter to permutations. */
  lemma FilterPermutation<T>(a: seq<T>, b: seq<T>, p: T -> bool)
    requires multiset(a) == multiset(b)
    ensures multiset(Filter(a, p)) == multiset(Filter(b, p))
  {
    forall x ensures multiset(Filter(a, p))[x] == multiset(Filter(b, p))[x] {
      FilterCount(a, p, x);
      FilterCount(b, p, x);
    }
  }

  /** `xs.map(f)`. */
  function Map<T, U>(xs: seq<T>, f: T -> U): (r: seq<U>)
    ensures |r| == |xs|
    ensures forall i :: 0 <= i < |xs| ==> r[i] == f(xs[i])
  {
    seq(|xs|, i requires 0 <= i < |xs| => f(xs[i]))
  }

  lemma MapConcat<T, U>(a: seq<T>, b: seq<T>, f: T -> U)
    ensures Map(a + b, f) == Map(a, f) + Map(b, f)
  {
  }

  /** `xs.reduce((sum, x) => sum + f(x), 0)`, a left fold. */
  function Sum<T>(xs: seq<T>, f: T -> nat): nat
    decreases |xs|
  {
    if xs == [] then 0 else Sum(xs[..|xs| - 1], f) + f(xs[|xs| - 1])
  }

  lemma {:induction false} SumConcat<T>(a: seq<T>, b: seq<T>, f: T -> nat)
    ensures Sum(a + b, f) == Sum(a, f) + Sum(b, f)
    decreases |b|
  {
    if b == [] {
      assert a + b == a;
    } else {
      var b' := b[..|b| - 1];
      assert (a + b)[..|a + b| - 1] == a + b';
      SumConcat(a, b', f);
    }
  }

  /** Every term is at most the sum, and the sum is 0 exactly when every term is. */
  lemma {:induction false} SumBounds<T>(xs: seq<T>, f: T -> nat)
    ensures forall i :: 0 <= i < |xs| ==> f(xs[i]) <= Sum(xs, f)
    ensures Sum(xs, f) == 0 <==> forall i :: 0 <= i < |xs| ==> f(xs[i]) == 0
    decreases |xs|
  {
    if xs != [] {
      var init := xs[..|xs| - 1];
      SumBounds(init, f);
      assert forall i :: 0 <= i < |init| ==> init[i] == xs[i];
    }
  }

  /** Replacing one element changes the sum by exactly the difference. */
  lemma SumUpdate<T>(xs: seq<T>, i: nat, y: T, f: T -> nat)
    requires i < |xs|
    ensures Sum(xs[i := y], f) + f(xs[i]) == Sum(xs, f) + f(y)
  {
    assert xs == xs[..i] + [xs[i]] + xs[i + 1..];
    assert xs[i := y] == xs[..i] + [y] + xs[i + 1..];
    SumConcat(xs[..i] + [xs[i]], xs[i + 1..], f);
    SumConcat(xs[..i] + [y], xs[i + 1..], f);
    SumConcat(xs[..i], [xs[i]], f);
    SumConcat(xs[..i], [y], f);
  }

  /** A sum does not depend on the order of its terms. */
  lemma {:induction false} SumPermutation<T>(a: seq<T>, b: seq<T>, f: T -> nat)
    requires multiset(a) == multiset(b)
    ensures Sum(a, f) == Sum(b, f)
    decreases |a|
  {
    if a == [] {
      assert |b| == |multiset(b)| == 0;
    } else {
      var x := a[|a| - 1];
      var a' := a[..|a| - 1];
      assert a == a' + [x];
      assert x in multiset(b);
      var j :| 0 <= j < |b| && b[j] == x;
      var b' := b[..j] + b[j + 1..];
      assert b == b[..j] + [x] + b[j + 1..];
      assert multiset(b') == multiset(b) - multiset{x};
      SumPermutation(a', b', f);
      SumConcat(b[..j] + [x], b[j + 1..], f);
      SumConcat(b[..j], [x], f);
      SumConcat(b[..j], b[j + 1..], f);
    }
  }

  /** `[...new Set(xs)]`: each distinct element once, at its first occurrence. */
  function Dedup<T(==)>(xs: seq<T>): (r: seq<T>)
    ensures forall i :: 0 <= i < |r| ==> r[i] in xs
    ensures forall i :: 0 <= i < |xs| ==> xs[i] in r
    ensures forall i, j :: 0 <= i < j < |r| ==> r[i] != r[j]
    decreases |xs|
  {
    if xs == [] then []
    else
      var init := Dedup(xs[..|xs| - 1]);
      assert xs == xs[..|xs| - 1] + [xs[|xs| - 1]];
      if xs[|xs| - 1] in init then init else init + [xs[|xs| - 1]]
  }

  /** Some occurrence in `xs` of each element of `r` comes before every occurrence of the elements after it. */
  ghost predicate InFirstOccurrenceOrder<T>(xs: seq<T>, r: seq<T>)
  {
    forall i, j :: 0 <= i < j < |r| ==> exists l :: 0 <= l < |xs| && xs[l] == r[i] && r[j] !in xs[..l]
  }

  /**
   * `Dedup` lists the elements in the order of their first occurrences: some
   * occurrence of an earlier element comes before every occurrence of a later one.
   */
  lemma {:induction false} DedupFirstOccurrenceOrder<T>(xs: seq<T>)
    ensures InFirstOccurrenceOrder(xs, Dedup(xs))
    decreases |xs|
  {
    if xs != [] {
      var init := xs[..|xs| - 1];
      var x := xs[|xs| - 1];
      var d := Dedup(init);
      DedupFirstOccurrenceOrder(init);
      var r := Dedup(xs);
      forall i, j | 0 <= i < j < |r| ensures exists l :: 0 <= l < |xs| && xs[l] == r[i] && r[j] !in xs[..l] {
        assert r == d || r == d + [x];
        if j < |d| {
          assert r[i] == d[i] && r[j] == d[j];
          var l :| 0 <= l < |init| && init[l] == d[i] && d[j] !in init[..l];
          assert init[..l] == xs[..l];
          assert xs[l] == r[i] && r[j] !in xs[..l];
        } else {
          assert r[j] == x && x !in d;
          assert x !in init;
          var l :| 0 <= l < |init| && init[l] == d[i];
          assert xs[..l] == init[..l];
          assert xs[l] == r[i] && r[j] !in xs[..l];
        }
      }
      assert InFirstOccurrenceOrder(xs, r);
    }
  }
}
