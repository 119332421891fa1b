/**
 * The item-suggestions hook behind the autocomplete fields: the distinct
 * brands, generic names and variants found among the user's receipt
 * items, each list in JavaScript's default sort order, and a loading flag.
 *
 * The default sort compares strings code unit by code unit; here it
 * compares characters, which agrees for text without surrogate pairs.
 */
module ItemSuggestions {
  import opened Wrappers
  import opened Records

  /** The three columns the hook selects from `receipt_items`. */
  datatype ItemFields = ItemFields(brand: Option<string>, generic_name: Option<string>, variant: Option<string>)

  function Brand(i: ItemFields): Option<string> { i.brand }
  function Generic(i: ItemFields): Option<string> { i.generic_name }
  function Variant(i: ItemFields): Option<string> { i.variant }

  // ---------------------------------------------------------------------------
  // Default string order

  /** `a` sorts before `b`: lexicographic order on characters, a proper prefix first. */
  predicate Below(a: string, b: string)
    decreases |a|
  {
    if |a| == 0 then |b| > 0
    else |b| > 0 && (a[0] < b[0] || (a[0] == b[0] && Below(a[1..], b[1..])))
  }

  lemma {:induction false} BelowIrreflexive(a: string)
    ensures !Below(a, a)
    decreases |a|
  {
    if |a| > 0 {
      BelowIrreflexive(a[1..]);
    }
  }

  lemma {:induction false} BelowTransitive(a: string, b: string, c: string)
    requires Below(a, b) && Below(b, c)
    ensures Below(a, c)
    decreases |a|
  {
    if |a| > 0 && a[0] == b[0] && b[0] == c[0] {
      BelowTransitive(a[1..], b[1..], c[1..]);
    }
  }

  /** Two different strings are ordered one way or the other. */
  lemma {:induction false} BelowTotal(a: string, b: string)
    requires a != b
    ensures Below(a, b) || Below(b, a)
    decreases |a|
  {
    if |a| > 0 && |b| > 0 && a[0] == b[0] {
      assert a == [a[0]] + a[1..] && b == [b[0]] + b[1..];
      BelowTotal(a[1..], b[1..]);
    }
  }

  lemma {:induction false} BelowAsymmetric(a: string, b: string)
    requires Below(a, b)
    ensures !Below(b, a)
  {
    if Below(b, a) {
      BelowTransitive(a, b, a);
      BelowIrreflexive(a);
    }
  }

  /** Every element sorts before every later one (so there are no repeats either). */
  predicate Ascending(xs: seq<string>)
  {
    forall i, j :: 0 <= i < j < |xs| ==> Below(xs[i], xs[j])
  }

  /** `x` placed before the first element it does not sort after. */
  function Insert(x: string, xs: seq<string>): (r: seq<string>)
    ensures multiset(r) == multiset(xs) + multiset{x}
  {
    if |xs| == 0 || !Below(xs[0], x) then [x] + xs
    else
      assert xs == [xs[0]] + xs[1..];
      [xs[0]] + Insert(x, xs[1..])
  }

  lemma {:induction false} InsertAscending(x: string, xs: seq<string>)
    requires Ascending(xs) && x !in xs
    ensures Ascending(Insert(x, xs))
  {
    var r := Insert(x, xs);
    if |xs| == 0 {
    } else if !Below(xs[0], x) {
      BelowTotal(x, xs[0]);
      forall j | 0 < j < |r|
        ensures Below(r[0], r[j])
      {
        if j > 1 {
          BelowTransitive(x, xs[0], xs[j - 1]);
        }
      }
    } else {
      var tail := xs[1..];
      assert Ascending(tail);
      InsertAscending(x, tail);
      var rest := Insert(x, tail);
      forall j | 0 <= j < |rest|
        ensures Below(xs[0], rest[j])
      {
        assert rest[j] in multiset(rest);
        if rest[j] != x {
          assert rest[j] in tail;
        }
      }
    }
  }

  /** `Array.from(set).sort()` for a list without repeats. */
  function Sort(xs: seq<string>): (r: seq<string>)
    ensures multiset(r) == multiset(xs)
  {
    if |xs| == 0 then []
    else
      assert xs == [xs[0]] + xs[1..];
      Insert(xs[0], Sort(xs[1..]))
  }

  predicate Distinct(xs: seq<string>)
  {
    forall i, j :: 0 <= i < j < |xs| ==> xs[i] != xs[j]
  }

  /** A list without repeats sorts into ascending order. */
  lemma {:induction false} SortAscending(xs: seq<string>)
    requires Distinct(xs)
    ensures Ascending(Sort(xs))
  {
    if |xs| > 0 {
      var tail := xs[1..];
      SortAscending(tail);
      assert forall k :: 0 <= k < |tail| ==> tail[k] == xs[k + 1];
      assert xs[0] !in multiset(Sort(tail));
      InsertAscending(xs[0], Sort(tail));
    }
  }

  // ---------------------------------------------------------------------------
  // Collecting the values

  /** Some item has the field set to `s`, and `s` is not empty. */
  ghost predicate Occurs(items: seq<ItemFields>, field: ItemFields -> Option<string>, s: string)
  {
    s != "" && exists i :: 0 <= i < |items| && field(items[i]) == Some(s)
  }

  /** The contents of a `Set` after adding each present value in turn: first appearances, in order. */
  function Values(items: seq<ItemFields>, field: ItemFields -> Option<string>): seq<string>
  {
    if |items| == 0 then []
    else
      var rest := Values(items[..|items| - 1], field);
      var v := field(items[|items| - 1]);
      if Present(v) && v.value !in rest then rest + [v.value] else rest
  }

  /** The values are without repeats and are exactly the non-empty values of the field. */
  lemma {:induction false} ValuesFacts(items: seq<ItemFields>, field: ItemFields -> Option<string>)
    ensures Distinct(Values(items, field))
    ensures forall s :: s in Values(items, field) <==> Occurs(items, field, s)
  {
    if |items| > 0 {
      var init := items[..|items| - 1];
      ValuesFacts(init, field);
      forall s
        ensures s in Values(items, field) <==> Occurs(items, field, s)
      {
        if Occurs(items, field, s) {
          var i :| 0 <= i < |items| && field(items[i]) == Some(s);
          if i < |init| {
            assert field(init[i]) == Some(s);
          }
        }
        if Occurs(init, field, s) {
          var i :| 0 <= i < |init| && field(init[i]) == Some(s);
          assert field(items[i]) == Some(s);
        }
      }
    }
  }

  /** The three sorted lists. */
  datatype Lists = Lists(brands: seq<string>, genericNames: seq<string>, variants: seq<string>)

  function ListOf(items: seq<ItemFields>, field: ItemFields -> Option<string>): seq<string>
  {
    Sort(Values(items, field))
  }

  /** Each list holds exactly the distinct non-empty values of its field, in ascending order. */
  lemma ListFacts(items: seq<ItemFields>, field: ItemFields -> Option<string>)
    ensures Ascending(ListOf(items, field))
    ensures forall s :: s in ListOf(items, field) <==> Occurs(items, field, s)
  {
    ValuesFacts(items, field);
    SortAscending(Values(items, field));
    assert forall s :: s in ListOf(items, field) <==> s in multiset(Values(items, field));
  }

  /** Each field of an item counts on its own: an item without a brand still adds its generic name and variant. */
  lemma EveryPresentFieldCounts(items: seq<ItemFields>, k: nat)
    requires k < |items|
    ensures Present(items[k].brand) ==> items[k].brand.value in ListOf(items, Brand)
    ensures Present(items[k].generic_name) ==> items[k].generic_name.value in ListOf(items, Generic)
    ensures Present(items[k].variant) ==> items[k].variant.value in ListOf(items, Variant)
  {
    ListFacts(items, Brand);
    ListFacts(items, Generic);
    ListFacts(items, Variant);
    assert Brand(items[k]) == items[k].brand;
    assert Generic(items[k]) == items[k].generic_name;
    assert Variant(items[k]) == items[k].variant;
  }

  /** The `forEach` over the items, adding each present value to its set. */
  method Collect(items: seq<ItemFields>) returns (brands: seq<string>, genericNames: seq<string>, variants: seq<string>)
    ensures brands == Values(items, Brand)
    ensures genericNames == Values(items, Generic)
    ensures variants == Values(items, Variant)
  {
    brands, genericNames, variants := [], [], [];
    var n := 0;
    while n < |items|
      invariant n <= |items|
      invariant brands == Values(items[..n], Brand)
      invariant genericNames == Values(items[..n], Generic)
      invariant variants == Values(items[..n], Variant)
    {
      var item := items[n];
      assert items[..n + 1][..n] == items[..n];
      if Present(item.brand) && item.brand.value !in brands {
        brands := brands + [item.brand.value];
      }
      if Present(item.generic_name) && item.generic_name.value !in genericNames {
        genericNames := genericNames + [item.generic_name.value];
      }
      if Present(item.variant) && item.variant.value !in variants {
        variants := variants + [item.variant.value];
      }
      n := n + 1;
    }
    assert items[..n] == items;
  }

  // ---------------------------------------------------------------------------
  // The hook's state

  class Hook {
    var suggestions: Lists
    var loading: bool

    /** Three empty lists, loading. */
    constructor()
      ensures suggestions == Lists([], [], []) && loading
    {
      suggestions := Lists([], [], []);
      loading := true;
    }

    /**
     * The fetch on mount. Without a user, or without data (a null result
     * or an error), the lists stay as they are; otherwise each is the
     * sorted distinct values of its field. Loading ends either way.
     */
    method Load(signedIn: bool, items: Option<seq<ItemFields>>)
      modifies this
      ensures !loading
      ensures !signedIn || items.None? ==> suggestions == old(suggestions)
      ensures signedIn && items.Some? ==>
        suggestions == Lists(ListOf(items.value, Brand), ListOf(items.value, Generic), ListOf(items.value, Variant))
    {
      if signedIn && items.Some? {
        var brands, genericNames, variants := Collect(items.value);
        suggestions := Lists(Sort(brands), Sort(genericNames), Sort(variants));
      }
      loading := false;
    }
  }
}
