/**
 * `Array.prototype.sort` with a numeric comparator `(a, b) => key(b) - key(a)`:
 * a descending order by a real-valued key. An ascending sort is the
 * descending sort by the negated key. The model sorts by insertion, which,
 * like the engine's sort, is stable.
 */
module Sorting {
  import opened Seqs

  /** Every element's key is at least the key of every later element. */
  predicate SortedDesc<T(!new)>(xs: seq<T>, key: T -> real)
  {
    forall i, j :: 0 <= i < j < |xs| ==> key(xs[i]) >= key(xs[j])
  }

  /** Places `x` in front of the first element whose key it reaches. */
  function Insert<T(!new)>(x: T, s: seq<T>, key: T -> real): (r: seq<T>)
    ensures |r| == |s| + 1
    ensures multiset(r) == multiset(s) + multiset{x}
  {
    if |s| == 0 || key(x) >= key(s[0]) then [x] + s
    else
      assert s == [s[0]] + s[1..];
      [s[0]] + Insert(x, s[1..], key)
  }

  /** `xs.slice().sort((a, b) => key(b) - key(a))` */
  function SortDesc<T(!new)>(xs: seq<T>, key: T -> real): (r: seq<T>)
    ensures |r| == |xs|
    ensures multiset(r) == multiset(xs)
  {
    if |xs| == 0 then []
    else
      assert xs == [xs[0]] + xs[1..];
      Insert(xs[0], SortDesc(xs[1..], key), key)
  }

  lemma {:induction false} InsertSorted<T(!new)>(x: T, s: seq<T>, key: T -> real)
    requires SortedDesc(s, key)
    ensures SortedDesc(Insert(x, s, key), key)
    decreases |s|
  {
    if |s| > 0 && key(x) < key(s[0]) {
      var t := Insert(x, s[1..], key);
      InsertSorted(x, s[1..], key);
      forall k | 0 <= k < |s[1..]| ensures key(s[1..][k]) <= key(s[0]) {
        assert s[1..][k] == s[k + 1];
      }
      InsertKeysBelow(x, s[1..], key, key(s[0]));
      ConsSorted(s[0], t, key);
    }
  }

  /** Inserting below a bound keeps every key below it. */
  lemma InsertKeysBelow<T(!new)>(x: T, s: seq<T>, key: T -> real, bound: real)
    requires key(x) <= bound && forall k :: 0 <= k < |s| ==> key(s[k]) <= bound
    ensures forall k :: 0 <= k < |Insert(x, s, key)| ==> key(Insert(x, s, key)[k]) <= bound
  {
    var r := Insert(x, s, key);
    forall k | 0 <= k < |r| ensures key(r[k]) <= bound {
      assert r[k] in multiset(s) + multiset{x};
      if r[k] in multiset(s) {
        var m :| 0 <= m < |s| && s[m] == r[k];
      }
    }
  }

  /** A head no smaller than every key of a sorted tail gives a sorted sequence. */
  lemma ConsSorted<T(!new)>(h: T, t: seq<T>, key: T -> real)
    requires SortedDesc(t, key) && forall k :: 0 <= k < |t| ==> key(t[k]) <= key(h)
    ensures SortedDesc([h] + t, key)
  {
    var r := [h] + t;
    forall i, j | 0 <= i < j < |r| ensures key(r[i]) >= key(r[j]) {
      assert r[j] == t[j - 1];
      if i > 0 {
        assert r[i] == t[i - 1];
      }
    }
  }

  /** The result is ordered by key, largest first. */
  lemma {:induction false} SortDescSorted<T(!new)>(xs: seq<T>, key: T -> real)
    ensures SortedDesc(SortDesc(xs, key), key)
  {
    if |xs| > 0 {
      SortDescSorted(xs[1..], key);
      InsertSorted(xs[0], SortDesc(xs[1..], key), key);
    }
  }

  /** Sorting keeps exactly the elements, so any sum over them is unchanged. */
  lemma {:induction false} InsertSum<T(!new)>(x: T, s: seq<T>, key: T -> real, f: T -> real)
    ensures SumOf(Insert(x, s, key), f) == f(x) + SumOf(s, f)
    decreases |s|
  {
    if |s| == 0 || key(x) >= key(s[0]) {
      SumOfCons(x, s, f);
    } else {
      InsertSum(x, s[1..], key, f);
      SumOfCons(s[0], Insert(x, s[1..], key), f);
      SumOfCons(s[0], s[1..], f);
      assert [s[0]] + s[1..] == s;
    }
  }

  lemma {:induction false} SortDescSum<T(!new)>(xs: seq<T>, key: T -> real, f: T -> real)
    ensures SumOf(SortDesc(xs, key), f) == SumOf(xs, f)
  {
    if |xs| > 0 {
      var rest := SortDesc(xs[1..], key);
      assert SortDesc(xs, key) == Insert(xs[0], rest, key);
      SortDescSum(xs[1..], key, f);
      InsertSum(xs[0], rest, key, f);
      SumOfCons(xs[0], xs[1..], f);
      assert [xs[0]] + xs[1..] == xs;
    }
  }

  /** An element is in the sorted result exactly when it is in the input. */
  lemma SortDescMembers<T(!new)>(xs: seq<T>, key: T -> real)
    ensures forall x :: x in SortDesc(xs, key) <==> x in xs
  {
    var r := SortDesc(xs, key);
    forall x
      ensures x in r <==> x in xs
    {
      assert x in r <==> x in multiset(r);
      assert x in xs <==> x in multiset(xs);
    }
  }

  /** Values that no two input elements share stay unshared after sorting. */
  lemma {:induction false} SortDescDistinct<T(!new), U>(xs: seq<T>, key: T -> real, f: T -> U)
    requires DistinctBy(xs, f)
    ensures DistinctBy(SortDesc(xs, key), f)
  {
    if |xs| > 0 {
      SortDescDistinct(xs[1..], key, f);
      var s := SortDesc(xs[1..], key);
      forall y | y in s
        ensures f(y) != f(xs[0])
      {
        SortDescMembers(xs[1..], key);
        assert y in xs[1..];
        var k :| 0 <= k < |xs[1..]| && xs[1..][k] == y;
        assert xs[k + 1] == y;
      }
      InsertDistinct(xs[0], s, key, f);
    }
  }

  lemma {:induction false} InsertDistinct<T(!new), U>(x: T, s: seq<T>, key: T -> real, f: T -> U)
    requires DistinctBy(s, f)
    requires forall y :: y in s ==> f(y) != f(x)
    ensures DistinctBy(Insert(x, s, key), f)
    decreases |s|
  {
    var r := Insert(x, s, key);
    if |s| == 0 || key(x) >= key(s[0]) {
      forall i, j | 0 <= i < j < |r|
        ensures f(r[i]) != f(r[j])
      {
        if i > 0 {
          assert r[i] == s[i - 1] && r[j] == s[j - 1];
        } else {
          assert r[j] == s[j - 1];
        }
      }
    } else {
      InsertDistinct(x, s[1..], key, f);
      var t := Insert(x, s[1..], key);
      forall i, j | 0 <= i < j < |r|
        ensures f(r[i]) != f(r[j])
      {
        if i == 0 {
          assert r[j] == t[j - 1];
          assert r[j] in multiset(s[1..]) + multiset{x};
          assert r[0] == s[0] && s[0] in s;
          if r[j] != x {
            assert r[j] in multiset(s[1..]);
            assert r[j] in s[1..];
            var k :| 0 <= k < |s[1..]| && s[1..][k] == r[j];
            assert s[k + 1] == r[j];
            assert f(s[0]) != f(s[k + 1]);
          }
        } else {
          assert r[i] == t[i - 1] && r[j] == t[j - 1];
        }
      }
    }
  }

  /** `slice(0, n)` of a sorted sequence is sorted. */
  lemma TakeSorted<T(!new)>(xs: seq<T>, n: nat, key: T -> real)
    requires SortedDesc(xs, key)
    ensures SortedDesc(Take(xs, n), key)
  {
  }

  /** `slice(0, n)` keeps values unshared. */
  lemma TakeDistinct<T, U>(xs: seq<T>, n: nat, f: T -> U)
    requires DistinctBy(xs, f)
    ensures DistinctBy(Take(xs, n), f)
  {
  }
}
