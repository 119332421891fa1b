/**
 * The `reduce` that groups rows into a plain object keyed by a string:
 * `acc[k]` is created the first time key `k` is seen and updated in place
 * afterwards, and `Object.entries(acc)` lists the keys in the order they
 * were first seen. (JavaScript lists keys that are array indices, such as
 * "7", first and in numeric order; the model keeps every key in
 * first-seen order.)
 *
 * `GroupBy` is the specification: the groups, in first-seen order, each with
 * the rows that carry its key. The accumulators the pages keep (a running
 * total and count, or those plus a nested per-name tally) are functions of
 * a group's rows, and the methods `TallyBy` and `NestedTallyBy` build them
 * the way the pages do: look the key up, then bump the entry or append one.
 */
module Grouping {
  import opened Seqs

  datatype Group<K, T> = Group(key: K, members: seq<T>)

  function Keys<K, T>(gs: seq<Group<K, T>>): (r: seq<K>)
    ensures |r| == |gs|
    ensures forall i :: 0 <= i < |gs| ==> r[i] == gs[i].key
  {
    seq(|gs|, i requires 0 <= i < |gs| => gs[i].key)
  }

  /** Adds `x` to the group keyed `k`, or opens that group at the end. */
  function Place<K(==), T>(gs: seq<Group<K, T>>, k: K, x: T): seq<Group<K, T>>
  {
    if |gs| == 0 then [Group(k, [x])]
    else if gs[0].key == k then [Group(k, gs[0].members + [x])] + gs[1..]
    else [gs[0]] + Place(gs[1..], k, x)
  }

  /** The rows of `xs` grouped by `key`, groups in first-seen order. */
  function GroupBy<K(==), T>(xs: seq<T>, key: T -> K): seq<Group<K, T>>
  {
    if |xs| == 0 then []
    else Place(GroupBy(xs[..|xs| - 1], key), key(xs[|xs| - 1]), xs[|xs| - 1])
  }

  /** The rows of `xs` whose key is `k`, in order. */
  function Members<K(==), T>(xs: seq<T>, key: T -> K, k: K): seq<T>
  {
    if |xs| == 0 then []
    else Members(xs[..|xs| - 1], key, k) + (if key(xs[|xs| - 1]) == k then [xs[|xs| - 1]] else [])
  }

  lemma MembersAppend<K, T>(xs: seq<T>, x: T, key: T -> K, k: K)
    ensures Members(xs + [x], key, k) == Members(xs, key, k) + (if key(x) == k then [x] else [])
  {
    assert (xs + [x])[..|xs|] == xs;
  }

  /** Every member carries the key and comes from the rows. */
  lemma {:induction false} MembersHaveKey<K(!new), T(!new)>(xs: seq<T>, key: T -> K, k: K)
    ensures forall y :: y in Members(xs, key, k) ==> y in xs && key(y) == k
  {
    if |xs| > 0 {
      MembersHaveKey(xs[..|xs| - 1], key, k);
    }
  }

  /** Placing into the first group with the key bumps that group only. */
  lemma {:induction false} PlaceAt<K, T>(gs: seq<Group<K, T>>, k: K, x: T, j: nat)
    requires j < |gs| && gs[j].key == k
    requires forall i :: 0 <= i < j ==> gs[i].key != k
    ensures Place(gs, k, x) == gs[j := Group(k, gs[j].members + [x])]
  {
    if j > 0 {
      PlaceAt(gs[1..], k, x, j - 1);
    }
  }

  /** Placing a key no group has appends a new group. */
  lemma {:induction false} PlaceNew<K, T>(gs: seq<Group<K, T>>, k: K, x: T)
    requires k !in Keys(gs)
    ensures Place(gs, k, x) == gs + [Group(k, [x])]
  {
    if |gs| > 0 {
      assert Keys(gs[1..]) == Keys(gs)[1..];
      PlaceNew(gs[1..], k, x);
    }
  }

  /** No two groups share a key. */
  ghost predicate DistinctKeys<K, T>(gs: seq<Group<K, T>>)
  {
    forall i, j :: 0 <= i < j < |gs| ==> gs[i].key != gs[j].key
  }

  /** What the grouping promises about the rows it was built from. */
  ghost predicate Represents<K(!new), T(!new)>(gs: seq<Group<K, T>>, xs: seq<T>, key: T -> K)
  {
    && DistinctKeys(gs)
    && (forall i :: 0 <= i < |gs| ==> gs[i].members == Members(xs, key, gs[i].key) && |gs[i].members| > 0)
    && (forall x :: x in xs ==> key(x) in Keys(gs))
  }

  /** The index of the first group with key `k`. */
  function FirstKey<K(==), T>(gs: seq<Group<K, T>>, k: K): (j: nat)
    requires k in Keys(gs)
    ensures j < |gs| && gs[j].key == k
    ensures forall i :: 0 <= i < j ==> gs[i].key != k
  {
    if gs[0].key == k then 0
    else
      assert Keys(gs[1..]) == Keys(gs)[1..];
      1 + FirstKey(gs[1..], k)
  }

  /** With distinct keys the first group with a key is the only one. */
  lemma OnlyKey<K, T>(gs: seq<Group<K, T>>, k: K)
    requires DistinctKeys(gs) && k in Keys(gs)
    ensures forall i :: 0 <= i < |gs| && gs[i].key == k ==> i == FirstKey(gs, k)
  {
  }

  /** Adding a row to the grouping of a prefix gives the grouping of the longer prefix. */
  lemma {:induction false} PlaceRepresents<K(!new), T(!new)>(gs: seq<Group<K, T>>, xs: seq<T>, x: T, key: T -> K)
    requires Represents(gs, xs, key)
    ensures Represents(Place(gs, key(x), x), xs + [x], key)
  {
    var k := key(x);
    var ys := xs + [x];
    forall k' ensures Members(ys, key, k') == Members(xs, key, k') + (if k == k' then [x] else []) {
      MembersAppend(xs, x, key, k');
    }
    if k in Keys(gs) {
      var j := FirstKey(gs, k);
      OnlyKey(gs, k);
      PlaceAt(gs, k, x, j);
      var r := Place(gs, k, x);
      assert Keys(r) == Keys(gs);
      forall y | y in ys ensures key(y) in Keys(r) {
        if y != x { assert y in xs; }
      }
    } else {
      PlaceNew(gs, k, x);
      var r := Place(gs, k, x);
      assert Keys(r) == Keys(gs) + [k];
      forall y | y in ys ensures key(y) in Keys(r) {
        if y != x { assert y in xs; }
      }
      assert Members(xs, key, k) == [] by {
        MembersAbsent(xs, key, k);
      }
    }
  }

  /** A key no row carries has no members. */
  lemma {:induction false} MembersAbsent<K(!new), T(!new)>(xs: seq<T>, key: T -> K, k: K)
    requires forall x :: x in xs ==> key(x) != k
    ensures Members(xs, key, k) == []
  {
    if |xs| > 0 {
      MembersAbsent(xs[..|xs| - 1], key, k);
    }
  }

  /**
   * The groups have distinct keys, every row's key has a group, and each
   * group holds exactly the rows with its key, in their input order.
   */
  lemma {:induction false} GroupByRepresents<K(!new), T(!new)>(xs: seq<T>, key: T -> K)
    ensures Represents(GroupBy(xs, key), xs, key)
  {
    if |xs| > 0 {
      var init := xs[..|xs| - 1];
      GroupByRepresents(init, key);
      PlaceRepresents(GroupBy(init, key), init, xs[|xs| - 1], key);
      assert init + [xs[|xs| - 1]] == xs;
    }
  }

  // ---------------------------------------------------------------------------
  // Running totals and counts

  /** An accumulator entry `{ total, count }` under its key. */
  datatype Tally<K> = Tally(key: K, total: real, count: nat)

  function TallyKey<K>(t: Tally<K>): K { t.key }
  function TallyTotal<K>(t: Tally<K>): real { t.total }
  function TallyCount<K>(t: Tally<K>): real { t.count as real }

  /** The entry a group's rows add up to. */
  function TallyOf<K, T>(g: Group<K, T>, amount: T -> real): Tally<K>
  {
    Tally(g.key, SumOf(g.members, amount), |g.members|)
  }

  function Tallies<K, T>(gs: seq<Group<K, T>>, amount: T -> real): (r: seq<Tally<K>>)
    ensures |r| == |gs|
  {
    if |gs| == 0 then [] else [TallyOf(gs[0], amount)] + Tallies(gs[1..], amount)
  }

  /** Entry `i` is what group `i` adds up to. */
  lemma {:induction false} TalliesAt<K, T>(gs: seq<Group<K, T>>, amount: T -> real)
    ensures forall i :: 0 <= i < |gs| ==> Tallies(gs, amount)[i] == TallyOf(gs[i], amount)
  {
    if |gs| > 0 {
      TalliesAt(gs[1..], amount);
    }
  }

  /** `acc[k].total += a; acc[k].count += 1` */
  function Bump<K>(t: Tally<K>, a: real): Tally<K>
  {
    Tally(t.key, t.total + a, t.count + 1)
  }

  /**
   * One step of the `reduce`: bump the first entry with key `k`, or append
   * a fresh entry when there is none.
   */
  function Step<K(==)>(ts: seq<Tally<K>>, k: K, a: real): (r: seq<Tally<K>>)
  {
    if |ts| == 0 then [Tally(k, a, 1)]
    else if ts[0].key == k then [Bump(ts[0], a)] + ts[1..]
    else [ts[0]] + Step(ts[1..], k, a)
  }

  lemma SumOfSnoc<T>(xs: seq<T>, x: T, f: T -> real)
    ensures SumOf(xs + [x], f) == SumOf(xs, f) + f(x)
  {
    assert (xs + [x])[..|xs|] == xs;
  }

  /** Placing a row in its group is one step on the groups' entries. */
  lemma {:induction false} TalliesPlace<K, T>(gs: seq<Group<K, T>>, k: K, x: T, amount: T -> real)
    ensures Tallies(Place(gs, k, x), amount) == Step(Tallies(gs, amount), k, amount(x))
  {
    if |gs| == 0 {
      SumOfSnoc([], x, amount);
    } else if gs[0].key == k {
      SumOfSnoc(gs[0].members, x, amount);
    } else {
      TalliesPlace(gs[1..], k, x, amount);
    }
  }

  /** The entries for a longer prefix are one step on those for the shorter one. */
  lemma TalliesGroupByStep<K, T>(xs: seq<T>, n: nat, key: T -> K, amount: T -> real)
    requires n < |xs|
    ensures Tallies(GroupBy(xs[..n + 1], key), amount) ==
      Step(Tallies(GroupBy(xs[..n], key), amount), key(xs[n]), amount(xs[n]))
  {
    assert xs[..n + 1][..n] == xs[..n];
    TalliesPlace(GroupBy(xs[..n], key), key(xs[n]), xs[n], amount);
  }

  /** A step adds one to the sum of the counts. */
  lemma {:induction false} StepCount<K>(ts: seq<Tally<K>>, k: K, a: real)
    ensures SumOf(Step(ts, k, a), TallyCount) == SumOf(ts, TallyCount) + 1.0
    ensures SumOf(Step(ts, k, a), TallyTotal) == SumOf(ts, TallyTotal) + a
  {
    if |ts| == 0 {
      SumOfSnoc([], Tally(k, a, 1), TallyCount);
      SumOfSnoc([], Tally(k, a, 1), TallyTotal);
    } else {
      SumOfCons(ts[0], ts[1..], TallyCount);
      SumOfCons(ts[0], ts[1..], TallyTotal);
      assert [ts[0]] + ts[1..] == ts;
      if ts[0].key == k {
        SumOfCons(Bump(ts[0], a), ts[1..], TallyCount);
        SumOfCons(Bump(ts[0], a), ts[1..], TallyTotal);
      } else {
        StepCount(ts[1..], k, a);
        SumOfCons(ts[0], Step(ts[1..], k, a), TallyCount);
        SumOfCons(ts[0], Step(ts[1..], k, a), TallyTotal);
      }
    }
  }

  /** The counts add up to the number of rows, the totals to the sum of the amounts. */
  lemma {:induction false} TallySums<K, T>(xs: seq<T>, key: T -> K, amount: T -> real)
    ensures SumOf(Tallies(GroupBy(xs, key), amount), TallyCount) == |xs| as real
    ensures SumOf(Tallies(GroupBy(xs, key), amount), TallyTotal) == SumOf(xs, amount)
  {
    if |xs| > 0 {
      var n := |xs| - 1;
      TallySums(xs[..n], key, amount);
      TalliesGroupByStep(xs, n, key, amount);
      StepCount(Tallies(GroupBy(xs[..n], key), amount), key(xs[n]), amount(xs[n]));
      assert xs[..n + 1] == xs;
    }
  }

  /**
   * One entry per distinct key, every row's key has an entry, and each
   * entry's count and total are those of exactly the rows with its key.
   */
  lemma TallyFacts<K(!new), T(!new)>(xs: seq<T>, key: T -> K, amount: T -> real)
    ensures var ts := Tallies(GroupBy(xs, key), amount);
      && DistinctBy(ts, TallyKey)
      && (forall t :: t in ts ==>
            && t.count == |Members(xs, key, t.key)| >= 1
            && t.total == SumOf(Members(xs, key, t.key), amount))
      && (forall x :: x in xs ==> exists t :: t in ts && t.key == key(x))
  {
    var gs := GroupBy(xs, key);
    var ts := Tallies(gs, amount);
    GroupByRepresents(xs, key);
    TalliesAt(gs, amount);
    forall i, j | 0 <= i < j < |ts|
      ensures TallyKey(ts[i]) != TallyKey(ts[j])
    {
      assert ts[i].key == gs[i].key && ts[j].key == gs[j].key;
    }
    forall t | t in ts
      ensures t.count == |Members(xs, key, t.key)| >= 1
      ensures t.total == SumOf(Members(xs, key, t.key), amount)
    {
      var i :| 0 <= i < |ts| && ts[i] == t;
      assert t == TallyOf(gs[i], amount);
    }
    forall x | x in xs
      ensures exists t :: t in ts && t.key == key(x)
    {
      var i :| 0 <= i < |gs| && Keys(gs)[i] == key(x);
      assert ts[i] in ts && ts[i].key == key(x);
    }
  }

  lemma {:induction false} StepAt<K>(ts: seq<Tally<K>>, k: K, a: real, j: nat)
    requires j < |ts| && ts[j].key == k
    requires forall i :: 0 <= i < j ==> ts[i].key != k
    ensures Step(ts, k, a) == ts[j := Bump(ts[j], a)]
  {
    if j > 0 {
      StepAt(ts[1..], k, a, j - 1);
    }
  }

  lemma {:induction false} StepNew<K>(ts: seq<Tally<K>>, k: K, a: real)
    requires forall i :: 0 <= i < |ts| ==> ts[i].key != k
    ensures Step(ts, k, a) == ts + [Tally(k, a, 1)]
  {
    if |ts| > 0 {
      StepNew(ts[1..], k, a);
    }
  }

  /**
   * `acc[k]`: look the key up, then add to the entry found or create it.
   */
  method StepInPlace<K(==)>(acc: seq<Tally<K>>, k: K, a: real) returns (r: seq<Tally<K>>)
    ensures r == Step(acc, k, a)
  {
    var j := 0;
    while j < |acc| && acc[j].key != k
      invariant j <= |acc|
      invariant forall i :: 0 <= i < j ==> acc[i].key != k
    {
      j := j + 1;
    }
    r := acc;
    if j == |acc| {
      StepNew(acc, k, a);
      r := r + [Tally(k, 0.0, 0)];
    } else {
      StepAt(acc, k, a, j);
    }
    r := r[j := Bump(r[j], a)];
  }

  /** The page's `reduce` into `{ total, count }` entries, one row at a time. */
  method TallyBy<K(==), T>(xs: seq<T>, key: T -> K, amount: T -> real) returns (acc: seq<Tally<K>>)
    ensures acc == Tallies(GroupBy(xs, key), amount)
  {
    acc := [];
    for n := 0 to |xs|
      invariant acc == Tallies(GroupBy(xs[..n], key), amount)
    {
      TalliesGroupByStep(xs, n, key, amount);
      acc := StepInPlace(acc, key(xs[n]), amount(xs[n]));
    }
    assert xs[..|xs|] == xs;
  }

  // ---------------------------------------------------------------------------
  // Entries with a nested per-name tally

  /** An accumulator entry `{ total_spent, purchase_count, items }` under its key. */
  datatype Nested<K, N> = Nested(key: K, total: real, count: nat, items: seq<Tally<N>>)

  /** The entry a group's rows add up to, with its rows tallied by `name`. */
  function NestedOf<K, N(==), T>(g: Group<K, T>, name: T -> N, amount: T -> real): Nested<K, N>
  {
    Nested(g.key, SumOf(g.members, amount), |g.members|, Tallies(GroupBy(g.members, name), amount))
  }

  function NestedTallies<K, N(==), T>(gs: seq<Group<K, T>>, name: T -> N, amount: T -> real): (r: seq<Nested<K, N>>)
    ensures |r| == |gs|
  {
    if |gs| == 0 then [] else [NestedOf(gs[0], name, amount)] + NestedTallies(gs[1..], name, amount)
  }

  lemma {:induction false} NestedTalliesAt<K, N, T>(gs: seq<Group<K, T>>, name: T -> N, amount: T -> real)
    ensures forall i :: 0 <= i < |gs| ==> NestedTallies(gs, name, amount)[i] == NestedOf(gs[i], name, amount)
  {
    if |gs| > 0 {
      NestedTalliesAt(gs[1..], name, amount);
    }
  }

  /**
   * One step of the nested `reduce`: add to the entry with key `k` and to
   * its item `n`, creating either when missing.
   */
  function NestedStep<K(==), N(==)>(es: seq<Nested<K, N>>, k: K, n: N, a: real): seq<Nested<K, N>>
  {
    if |es| == 0 then [Nested(k, a, 1, [Tally(n, a, 1)])]
    else if es[0].key == k then [Nested(k, es[0].total + a, es[0].count + 1, Step(es[0].items, n, a))] + es[1..]
    else [es[0]] + NestedStep(es[1..], k, n, a)
  }

  /** Tallying a group's rows plus one more is one step on its items. */
  lemma TalliesSnoc<N, T>(m: seq<T>, x: T, name: T -> N, amount: T -> real)
    ensures Tallies(GroupBy(m + [x], name), amount) == Step(Tallies(GroupBy(m, name), amount), name(x), amount(x))
  {
    assert (m + [x])[..|m|] == m;
    TalliesPlace(GroupBy(m, name), name(x), x, amount);
  }

  lemma {:induction false} NestedTalliesPlace<K, N, T>(gs: seq<Group<K, T>>, k: K, x: T, name: T -> N, amount: T -> real)
    ensures NestedTallies(Place(gs, k, x), name, amount) == NestedStep(NestedTallies(gs, name, amount), k, name(x), amount(x))
  {
    if |gs| == 0 {
      SumOfSnoc([], x, amount);
      TalliesSnoc([], x, name, amount);
      assert [] + [x] == [x];
    } else if gs[0].key == k {
      assert gs == [gs[0]] + gs[1..];
      NestedTalliesCons(gs[0], gs[1..], name, amount);
      NestedPlaceFirst(gs[0], gs[1..], x, name, amount);
    } else {
      NestedTalliesPlace(gs[1..], k, x, name, amount);
      NestedTalliesCons(gs[0], Place(gs[1..], k, x), name, amount);
    }
  }

  /** A row joining the first group `g` moves `g`'s entry by one step. */
  lemma NestedPlaceFirst<K, N, T>(g: Group<K, T>, rest: seq<Group<K, T>>, x: T, name: T -> N, amount: T -> real)
    ensures NestedTallies([Group(g.key, g.members + [x])] + rest, name, amount)
      == NestedStep([NestedOf(g, name, amount)] + NestedTallies(rest, name, amount), g.key, name(x), amount(x))
  {
    SumOfSnoc(g.members, x, amount);
    TalliesSnoc(g.members, x, name, amount);
    NestedTalliesCons(Group(g.key, g.members + [x]), rest, name, amount);
    assert ([NestedOf(g, name, amount)] + NestedTallies(rest, name, amount))[1..] == NestedTallies(rest, name, amount);
  }

  /** The entries of groups `[g] + rest` are `g`'s entry followed by those of `rest`. */
  lemma NestedTalliesCons<K, N, T>(g: Group<K, T>, rest: seq<Group<K, T>>, name: T -> N, amount: T -> real)
    ensures NestedTallies([g] + rest, name, amount) == [NestedOf(g, name, amount)] + NestedTallies(rest, name, amount)
  {
    assert ([g] + rest)[1..] == rest;
  }

  lemma NestedGroupByStep<K, N, T>(xs: seq<T>, n: nat, key: T -> K, name: T -> N, amount: T -> real)
    requires n < |xs|
    ensures NestedTallies(GroupBy(xs[..n + 1], key), name, amount) ==
      NestedStep(NestedTallies(GroupBy(xs[..n], key), name, amount), key(xs[n]), name(xs[n]), amount(xs[n]))
  {
    assert xs[..n + 1][..n] == xs[..n];
    NestedTalliesPlace(GroupBy(xs[..n], key), key(xs[n]), xs[n], name, amount);
  }

  lemma {:induction false} NestedStepAt<K, N>(es: seq<Nested<K, N>>, k: K, n: N, a: real, j: nat)
    requires j < |es| && es[j].key == k
    requires forall i :: 0 <= i < j ==> es[i].key != k
    ensures NestedStep(es, k, n, a) == es[j := Nested(k, es[j].total + a, es[j].count + 1, Step(es[j].items, n, a))]
  {
    if j > 0 {
      NestedStepAt(es[1..], k, n, a, j - 1);
    }
  }

  lemma {:induction false} NestedStepNew<K, N>(es: seq<Nested<K, N>>, k: K, n: N, a: real)
    requires forall i :: 0 <= i < |es| ==> es[i].key != k
    ensures NestedStep(es, k, n, a) == es + [Nested(k, a, 1, [Tally(n, a, 1)])]
  {
    if |es| > 0 {
      NestedStepNew(es[1..], k, n, a);
    }
  }

  /**
   * Every entry's count is the sum of its items' counts and its total the
   * sum of their totals; item names are distinct within an entry; entry keys
   * are distinct; and each entry covers exactly the rows with its key.
   */
  lemma NestedFacts<K(!new), N(!new), T(!new)>(xs: seq<T>, key: T -> K, name: T -> N, amount: T -> real)
    ensures var es := NestedTallies(GroupBy(xs, key), name, amount);
      && (forall i, j :: 0 <= i < j < |es| ==> es[i].key != es[j].key)
      && (forall e :: e in es ==>
            && e.count == |Members(xs, key, e.key)| >= 1
            && e.total == SumOf(Members(xs, key, e.key), amount)
            && SumOf(e.items, TallyCount) == e.count as real
            && SumOf(e.items, TallyTotal) == e.total
            && DistinctBy(e.items, TallyKey))
  {
    var gs := GroupBy(xs, key);
    var es := NestedTallies(gs, name, amount);
    GroupByRepresents(xs, key);
    NestedTalliesAt(gs, name, amount);
    forall i, j | 0 <= i < j < |es|
      ensures es[i].key != es[j].key
    {
      assert es[i].key == gs[i].key && es[j].key == gs[j].key;
    }
    forall e | e in es
      ensures e.count == |Members(xs, key, e.key)| >= 1
      ensures e.total == SumOf(Members(xs, key, e.key), amount)
      ensures SumOf(e.items, TallyCount) == e.count as real
      ensures SumOf(e.items, TallyTotal) == e.total
      ensures DistinctBy(e.items, TallyKey)
    {
      var i :| 0 <= i < |es| && es[i] == e;
      assert e == NestedOf(gs[i], name, amount);
      TallySums(gs[i].members, name, amount);
      TallyFacts(gs[i].members, name, amount);
    }
  }

  /**
   * One step of the nested `reduce` done in place: find or create the
   * entry, add to its total and count, then find or create the item within
   * it and add to that.
   */
  method NestedStepInPlace<K(==), N(==)>(acc: seq<Nested<K, N>>, k: K, n: N, a: real) returns (r: seq<Nested<K, N>>)
    ensures r == NestedStep(acc, k, n, a)
  {
    var j := 0;
    while j < |acc| && acc[j].key != k
      invariant j <= |acc|
      invariant forall i :: 0 <= i < j ==> acc[i].key != k
    {
      j := j + 1;
    }
    r := acc;
    if j == |acc| {
      NestedStepNew(acc, k, n, a);
      r := r + [Nested(k, 0.0, 0, [])];
    } else {
      NestedStepAt(acc, k, n, a, j);
    }
    var items := StepInPlace(r[j].items, n, a);
    r := r[j := Nested(k, r[j].total + a, r[j].count + 1, items)];
  }

  /** The page's `reduce` into `{ total_spent, purchase_count, items }`. */
  method NestedTallyBy<K(==), N(==), T>(xs: seq<T>, key: T -> K, name: T -> N, amount: T -> real)
    returns (acc: seq<Nested<K, N>>)
    ensures acc == NestedTallies(GroupBy(xs, key), name, amount)
  {
    acc := [];
    for n := 0 to |xs|
      invariant acc == NestedTallies(GroupBy(xs[..n], key), name, amount)
    {
      NestedGroupByStep(xs, n, key, name, amount);
      acc := NestedStepInPlace(acc, key(xs[n]), name(xs[n]), amount(xs[n]));
    }
    assert xs[..|xs|] == xs;
  }
}
