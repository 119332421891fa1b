/**
 * Sequence folds the pages use again and again: `filter`, `filter(..).length`,
 * a `reduce` that sums, and `slice(0, n)`. Each is defined by recursion on the
 * last element, the order in which `reduce` visits its input.
 */
module Seqs {

  /** `xs.reduce((sum, x) => sum + f(x), 0)` */
  function SumOf<T>(xs: seq<T>, f: T -> real): real
  {
    if |xs| == 0 then 0.0 else SumOf(xs[..|xs| - 1], f) + f(xs[|xs| - 1])
  }

  /** Summing over a concatenation adds the two sums. */
  lemma {:induction false} SumOfAppend<T>(xs: seq<T>, ys: seq<T>, f: T -> real)
    ensures SumOf(xs + ys, f) == SumOf(xs, f) + SumOf(ys, f)
    decreases |ys|
  {
    if |ys| == 0 {
      assert xs + ys == xs;
    } else {
      var init := ys[..|ys| - 1];
      assert (xs + ys)[..|xs + ys| - 1] == xs + init;
      SumOfAppend(xs, init, f);
    }
  }

  /** Summing from the front gives the same result. */
  lemma SumOfCons<T>(x: T, xs: seq<T>, f: T -> real)
    ensures SumOf([x] + xs, f) == f(x) + SumOf(xs, f)
  {
    SumOfAppend([x], xs, f);
    assert [x][..0] == [];
  }

  /** A sum of terms that are all at least zero is at least zero. */
  lemma {:induction false} SumOfNonNegative<T>(xs: seq<T>, f: T -> real)
    requires forall x :: x in xs ==> f(x) >= 0.0
    ensures SumOf(xs, f) >= 0.0
  {
    if |xs| > 0 {
      SumOfNonNegative(xs[..|xs| - 1], f);
    }
  }

  /** `xs.filter(p)`, keeping order. */
  function Filter<T(!new)>(xs: seq<T>, p: T -> bool): (r: seq<T>)
    ensures |r| <= |xs|
    ensures forall x :: x in r <==> x in xs && p(x)
  {
    if |xs| == 0 then []
    else Filter(xs[..|xs| - 1], p) + (if p(xs[|xs| - 1]) then [xs[|xs| - 1]] else [])
  }

  /** Every element either passes a filter or its negation, never both. */
  lemma {:induction false} FilterSplits<T(!new)>(xs: seq<T>, p: T -> bool, q: T -> bool)
    requires forall x :: x in xs ==> q(x) == !p(x)
    ensures |Filter(xs, p)| + |Filter(xs, q)| == |xs|
  {
    if |xs| > 0 {
      FilterSplits(xs[..|xs| - 1], p, q);
    }
  }

  /** Filtering by a test every element passes changes nothing. */
  lemma {:induction false} FilterAll<T(!new)>(xs: seq<T>, p: T -> bool)
    requires forall x :: x in xs ==> p(x)
    ensures Filter(xs, p) == xs
  {
    if |xs| > 0 {
      FilterAll(xs[..|xs| - 1], p);
    }
  }

  /** No two elements share a value of `f`. */
  predicate DistinctBy<T, U(==)>(xs: seq<T>, f: T -> U)
  {
    forall i, j :: 0 <= i < j < |xs| ==> f(xs[i]) != f(xs[j])
  }

  /** Replacing one term of a sum changes the sum by the difference. */
  lemma {:induction false} SumOfUpdate<T>(xs: seq<T>, j: nat, y: T, f: T -> real)
    requires j < |xs|
    ensures SumOf(xs[j := y], f) == SumOf(xs, f) - f(xs[j]) + f(y)
  {
    var n := |xs| - 1;
    if j < n {
      assert xs[j := y][..n] == xs[..n][j := y];
      SumOfUpdate(xs[..n], j, y, f);
    } else {
      assert xs[j := y][..n] == xs[..n];
    }
  }

  /** `xs.slice(0, n)` */
  function Take<T>(xs: seq<T>, n: nat): (r: seq<T>)
    ensures |r| == if |xs| <= n then |xs| else n
    ensures |xs| <= n ==> r == xs
    ensures r <= xs
  {
    if |xs| <= n then xs else xs[..n]
  }
}
