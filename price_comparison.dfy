/**
 * The price-comparison panel of a store page: for each compared item, its
 * stores sorted by average price (a sorted copy; the input is left as it
 * is), the cheapest and the most expensive store, the possible saving,
 * and the per-store rows with their badges.
 */
module PriceComparison {
  import opened Wrappers
  import opened Sorting
  import opened Records
  import opened Text

  datatype StorePrice = StorePrice(
    store_name: string,
    avg_price: real,
    avg_size: Option<string>,
    avg_unit: Option<string>,
    purchase_count: nat)

  datatype Comparison = Comparison(
    generic_name: string,
    brand: Option<string>,
    variant: Option<string>,
    stores: seq<StorePrice>)

  /** `${comparison.brand || ''}-${comparison.generic_name}` */
  function ItemKey(c: Comparison): string
  {
    TextOr(c.brand, "") + "-" + c.generic_name
  }

  /**
   * Keys tell items apart when brands hold no '-': equal keys mean the
   * same brand text and the same generic name.
   */
  lemma ItemKeyInjective(a: Comparison, b: Comparison)
    requires !Contains(TextOr(a.brand, ""), "-") && !Contains(TextOr(b.brand, ""), "-")
    requires ItemKey(a) == ItemKey(b)
    ensures TextOr(a.brand, "") == TextOr(b.brand, "")
    ensures a.generic_name == b.generic_name
  {
    var x, y := TextOr(a.brand, ""), TextOr(b.brand, "");
    if |x| < |y| {
      assert ItemKey(b)[|x|] == y[|x|];
      assert OccursAt(y, "-", |x|);
    } else if |y| < |x| {
      assert ItemKey(a)[|y|] == x[|y|];
      assert OccursAt(x, "-", |y|);
    } else {
      assert x == ItemKey(a)[..|x|];
      assert a.generic_name == ItemKey(a)[|x| + 1..];
    }
  }

  // ---------------------------------------------------------------------------
  // Sorted stores

  /** Sorting key: `(a, b) => a.avg_price - b.avg_price` is descending on the negated price. */
  function NegPrice(s: StorePrice): real { -s.avg_price }

  /** `[...comparison.stores].sort((a, b) => a.avg_price - b.avg_price)` */
  function SortedStores(stores: seq<StorePrice>): seq<StorePrice>
  {
    SortDesc(stores, NegPrice)
  }

  /** The sorted copy is a permutation of the stores, ascending by average price. */
  lemma SortedStoresFacts(stores: seq<StorePrice>)
    ensures var sorted := SortedStores(stores);
      && multiset(sorted) == multiset(stores)
      && forall i, j :: 0 <= i < j < |sorted| ==> sorted[i].avg_price <= sorted[j].avg_price
  {
    var sorted := SortedStores(stores);
    SortDescSorted(stores, NegPrice);
    forall i, j | 0 <= i < j < |sorted|
      ensures sorted[i].avg_price <= sorted[j].avg_price
    {
      assert NegPrice(sorted[i]) >= NegPrice(sorted[j]);
    }
  }

  // ---------------------------------------------------------------------------
  // The summary line of one item

  datatype Summary = Summary(
    itemKey: string,
    sorted: seq<StorePrice>,
    cheapest: StorePrice,
    mostExpensive: StorePrice,
    savings: real,
    showSavings: bool)

  /** What the item's collapsed row computes; an item without stores makes the page throw. */
  function Summarize(c: Comparison): Summary
    requires |c.stores| > 0
  {
    var sorted := SortedStores(c.stores);
    var cheapest := sorted[0];
    var mostExpensive := sorted[|sorted| - 1];
    var savings := mostExpensive.avg_price - cheapest.avg_price;
    Summary(ItemKey(c), sorted, cheapest, mostExpensive, savings, savings > 0.5)
  }

  /**
   * The cheapest and the most expensive are stores of the item with the
   * lowest and the highest average price; the saving is their difference,
   * never negative, and is shown only with at least two stores.
   */
  lemma SummarizeFacts(c: Comparison)
    requires |c.stores| > 0
    ensures var s := Summarize(c);
      && s.cheapest in c.stores && s.mostExpensive in c.stores
      && (forall st :: st in c.stores ==> s.cheapest.avg_price <= st.avg_price <= s.mostExpensive.avg_price)
      && s.savings == s.mostExpensive.avg_price - s.cheapest.avg_price
      && s.savings >= 0.0
      && (s.showSavings ==> |c.stores| >= 2)
  {
    var sorted := SortedStores(c.stores);
    SortedStoresFacts(c.stores);
    SortDescMembers(c.stores, NegPrice);
    assert sorted[0] in sorted && sorted[|sorted| - 1] in sorted;
    forall st | st in c.stores
      ensures sorted[0].avg_price <= st.avg_price <= sorted[|sorted| - 1].avg_price
    {
      assert st in sorted;
      var k :| 0 <= k < |sorted| && sorted[k] == st;
      assert k == 0 || sorted[0].avg_price <= sorted[k].avg_price;
      assert k == |sorted| - 1 || sorted[k].avg_price <= sorted[|sorted| - 1].avg_price;
    }
  }

  // ---------------------------------------------------------------------------
  // The per-store rows

  datatype Row = Row(
    store: StorePrice,
    bestPrice: bool,
    mostExpensiveBadge: bool,
    priceVsCheapest: real,
    showDifference: bool,
    showSize: bool,
    plural: bool)

  /** Row `i` of the sorted stores. */
  function RowAt(sorted: seq<StorePrice>, i: nat): Row
    requires i < |sorted|
  {
    var diff := sorted[i].avg_price - sorted[0].avg_price;
    Row(
      sorted[i],
      i == 0,
      i == |sorted| - 1 && |sorted| > 2,
      diff,
      diff > 0.0,
      Present(sorted[i].avg_size) && Present(sorted[i].avg_unit),
      sorted[i].purchase_count != 1)
  }

  function Rows(sorted: seq<StorePrice>): (r: seq<Row>)
    ensures |r| == |sorted|
  {
    seq(|sorted|, i requires 0 <= i < |sorted| => RowAt(sorted, i))
  }

  /**
   * Rows follow the sorted stores; only the first carries BEST PRICE, only
   * the last carries "Most Expensive" and only with more than two stores;
   * no store is cheaper than the cheapest, and the "+$" line shows exactly
   * for the stores dearer than it.
   */
  lemma RowsFacts(c: Comparison)
    requires |c.stores| > 0
    ensures var sorted := SortedStores(c.stores);
      var rows := Rows(sorted);
      && (forall i :: 0 <= i < |rows| ==> rows[i].store == sorted[i])
      && (forall i :: 0 <= i < |rows| ==> (rows[i].bestPrice <==> i == 0))
      && (forall i :: 0 <= i < |rows| ==> (rows[i].mostExpensiveBadge <==> i == |rows| - 1 && |rows| > 2))
      && (forall i :: 0 <= i < |rows| ==> rows[i].priceVsCheapest >= 0.0)
      && (forall i :: 0 <= i < |rows| ==> (rows[i].showDifference <==> rows[i].store.avg_price > sorted[0].avg_price))
  {
    SortedStoresFacts(c.stores);
  }

  // ---------------------------------------------------------------------------
  // The panel

  /** `capitalizeWords(brand) + ' '`, the generic name, and `' - ' + capitalizeWords(variant)`. */
  function Title(c: Comparison): string
  {
    (if Present(c.brand) then CapitalizeOrEmpty(c.brand) + " " else "")
    + CapitalizeOrEmpty(Some(c.generic_name))
    + (if Present(c.variant) then " - " + CapitalizeOrEmpty(c.variant) else "")
  }

  /** The title is as long as its parts, and without brand or variant is the capitalized generic name. */
  lemma TitleFacts(c: Comparison)
    ensures !Present(c.brand) && !Present(c.variant) ==> Title(c) == CapitalizeOrEmpty(Some(c.generic_name))
    ensures |Title(c)| ==
      (if Present(c.brand) then |c.brand.value| + 1 else 0) + |c.generic_name|
      + (if Present(c.variant) then 3 + |c.variant.value| else 0)
  {
  }

  /**
   * What the card renders. An item without stores reads `avg_price` of
   * `undefined` and the render throws a TypeError: `Crashed`.
   */
  datatype Panel = Placeholder | Items(summaries: seq<Summary>) | Crashed

  /** An item with no store row in the comparison list. */
  predicate HasStorelessItem(comparisons: seq<Comparison>)
  {
    exists i :: 0 <= i < |comparisons| && |comparisons[i].stores| == 0
  }

  /**
   * An empty list shows the placeholder; a list holding an item without
   * stores throws; otherwise one summary per item, in order.
   */
  function Show(comparisons: seq<Comparison>): (p: Panel)
    ensures p.Placeholder? <==> |comparisons| == 0
    ensures p.Crashed? <==> |comparisons| > 0 && HasStorelessItem(comparisons)
    ensures p.Items? ==> |p.summaries| == |comparisons|
    ensures p.Items? ==> forall i :: 0 <= i < |comparisons| ==>
      |comparisons[i].stores| > 0 && p.summaries[i] == Summarize(comparisons[i])
  {
    if |comparisons| == 0 then Placeholder
    else if HasStorelessItem(comparisons) then Crashed
    else Items(seq(|comparisons|, i requires 0 <= i < |comparisons| && |comparisons[i].stores| > 0 => Summarize(comparisons[i])))
  }
}
