/**
 * The analytics page: summary figures, the top store and category, sale
 * savings, spending by store, by category and over time, and the item
 * rankings grouped by brand, by generic name, or by item name.
 *
 * Every `reduce` into an object is a `GroupBy` followed by per-group
 * entries (see the Grouping module); `Object.entries(..).sort(..)` is
 * `SortDesc` on those entries.
 */
module Analytics {
  import opened Wrappers
  import opened Seqs
  import opened Sorting
  import opened Grouping
  import opened Records

  function ReceiptTotal(r: Receipt): real { AmountOf(r.total_amount) }
  function ItemTotal(i: ReceiptItem): real { AmountOf(i.total_price) }
  function ItemName(i: ReceiptItem): string { i.item_name }

  /** `r.store_name || 'Unknown'` */
  function StoreKey(r: Receipt): string { TextOr(r.store_name, "Unknown") }

  /** `item.category || 'other'` */
  function CategoryKey(i: ReceiptItem): string { TextOr(i.category, "other") }

  /** `r.purchase_date || today`, where `today` is the current ISO date. */
  function DateKey(today: string): Receipt -> string
  {
    (r: Receipt) => TextOr(r.purchase_date, today)
  }

  // ---------------------------------------------------------------------------
  // Summary figures

  function StoreTotals(receipts: seq<Receipt>): seq<Tally<string>>
  {
    Tallies(GroupBy(receipts, StoreKey), ReceiptTotal)
  }

  function CategoryTotals(items: seq<ReceiptItem>): seq<Tally<string>>
  {
    Tallies(GroupBy(items, CategoryKey), ItemTotal)
  }

  /** `Object.entries(acc).sort((a, b) => b - a)[0]?.[0] || null` */
  function TopKey(ts: seq<Tally<string>>): Option<string>
  {
    var sorted := SortDesc(ts, TallyTotal);
    if |sorted| == 0 || sorted[0].key == "" then None else Some(sorted[0].key)
  }

  /** `k` is the key of an entry whose total no other entry exceeds. */
  ghost predicate IsTopKey(ts: seq<Tally<string>>, k: string)
  {
    exists i :: 0 <= i < |ts| && ts[i].key == k && (forall j :: 0 <= j < |ts| ==> ts[j].total <= ts[i].total)
  }

  /** With non-empty keys, the top key exists exactly when there are entries, and its total is the largest. */
  lemma TopKeyIsMax(ts: seq<Tally<string>>)
    requires forall t :: t in ts ==> t.key != ""
    ensures TopKey(ts).None? <==> |ts| == 0
    ensures TopKey(ts).Some? ==> IsTopKey(ts, TopKey(ts).value)
  {
    var sorted := SortDesc(ts, TallyTotal);
    SortDescMembers(ts, TallyTotal);
    if |ts| > 0 {
      SortDescSorted(ts, TallyTotal);
      assert sorted[0] in sorted;
      var i :| 0 <= i < |ts| && ts[i] == sorted[0];
      forall j | 0 <= j < |ts|
        ensures ts[j].total <= ts[i].total
      {
        assert ts[j] in sorted;
        var k :| 0 <= k < |sorted| && sorted[k] == ts[j];
        assert k == 0 || TallyTotal(sorted[0]) >= TallyTotal(sorted[k]);
      }
    }
  }

  function OnSale(i: ReceiptItem): bool { i.was_on_sale }

  /** The assumed saving on a sale item: a fifth of its price. */
  function SaleSaving(i: ReceiptItem): real { ItemTotal(i) * 0.2 }

  datatype Summary = Summary(
    totalSpent: real,
    totalReceipts: nat,
    totalItems: nat,
    avgReceiptAmount: real,
    topStore: Option<string>,
    topCategory: Option<string>,
    saleItemsCount: nat,
    saleItemsSavings: real)

  /** `totalReceipts > 0 ? totalSpent / totalReceipts : 0` */
  function Average(total: real, count: nat): (avg: real)
    ensures count > 0 ==> avg * count as real == total
    ensures count == 0 ==> avg == 0.0
  {
    if count > 0 then total / count as real else 0.0
  }

  function Summarize(receipts: seq<Receipt>, items: seq<ReceiptItem>): Summary
  {
    var totalSpent := SumOf(receipts, ReceiptTotal);
    var saleItems := Filter(items, OnSale);
    Summary(
      totalSpent,
      |receipts|,
      |items|,
      Average(totalSpent, |receipts|),
      TopKey(StoreTotals(receipts)),
      TopKey(CategoryTotals(items)),
      |saleItems|,
      SumOf(saleItems, SaleSaving))
  }

  lemma StoreKeysNonEmpty(receipts: seq<Receipt>)
    ensures forall t :: t in StoreTotals(receipts) ==> t.key != ""
  {
    TallyFacts(receipts, StoreKey, ReceiptTotal);
    forall t | t in StoreTotals(receipts)
      ensures t.key != ""
    {
      MembersHaveKey(receipts, StoreKey, t.key);
      var r := Members(receipts, StoreKey, t.key)[0];
      assert r in Members(receipts, StoreKey, t.key);
    }
  }

  lemma CategoryKeysNonEmpty(items: seq<ReceiptItem>)
    ensures forall t :: t in CategoryTotals(items) ==> t.key != ""
  {
    TallyFacts(items, CategoryKey, ItemTotal);
    forall t | t in CategoryTotals(items)
      ensures t.key != ""
    {
      MembersHaveKey(items, CategoryKey, t.key);
      var i := Members(items, CategoryKey, t.key)[0];
      assert i in Members(items, CategoryKey, t.key);
    }
  }

  /**
   * The top store and category exist exactly when there are receipts or
   * items, and each is a key with the largest total.
   */
  lemma TopFacts(receipts: seq<Receipt>, items: seq<ReceiptItem>)
    ensures var s := Summarize(receipts, items);
      && (s.topStore.None? <==> |receipts| == 0)
      && (s.topCategory.None? <==> |items| == 0)
      && (s.topStore.Some? ==> IsTopKey(StoreTotals(receipts), s.topStore.value))
      && (s.topCategory.Some? ==> IsTopKey(CategoryTotals(items), s.topCategory.value))
  {
    StoreKeysNonEmpty(receipts);
    CategoryKeysNonEmpty(items);
    TopKeyIsMax(StoreTotals(receipts));
    TopKeyIsMax(CategoryTotals(items));
    assert |receipts| == 0 <==> |StoreTotals(receipts)| == 0 by {
      if |receipts| > 0 {
        TallyFacts(receipts, StoreKey, ReceiptTotal);
        assert receipts[0] in receipts;
      }
    }
    assert |items| == 0 <==> |CategoryTotals(items)| == 0 by {
      if |items| > 0 {
        TallyFacts(items, CategoryKey, ItemTotal);
        assert items[0] in items;
      }
    }
  }

  /** The sale figures cover exactly the items on sale; the savings are a fifth of their spend. */
  lemma SaleFacts(receipts: seq<Receipt>, items: seq<ReceiptItem>)
    ensures var s := Summarize(receipts, items);
      && (forall i :: i in Filter(items, OnSale) <==> i in items && i.was_on_sale)
      && s.saleItemsCount == |Filter(items, OnSale)| <= |items|
      && s.saleItemsSavings == SumOf(Filter(items, OnSale), ItemTotal) * 0.2
  {
    SavingsAreAFifth(Filter(items, OnSale));
  }

  lemma {:induction false} SavingsAreAFifth(items: seq<ReceiptItem>)
    ensures SumOf(items, SaleSaving) == SumOf(items, ItemTotal) * 0.2
  {
    if |items| > 0 {
      SavingsAreAFifth(items[..|items| - 1]);
    }
  }

  // ---------------------------------------------------------------------------
  // Spending by store, by category and over time

  /** Top ten stores by total spend, each with its receipt count. */
  function SpendingByStore(receipts: seq<Receipt>): seq<Tally<string>>
  {
    Take(SortDesc(StoreTotals(receipts), TallyTotal), 10)
  }

  /**
   * At most ten rows, by total descending, one per store name; each row
   * counts and sums exactly the receipts under its name.
   */
  lemma SpendingByStoreFacts(receipts: seq<Receipt>)
    ensures var rows := SpendingByStore(receipts);
      && |rows| <= 10
      && SortedDesc(rows, TallyTotal)
      && DistinctBy(rows, TallyKey)
      && (forall t :: t in rows ==>
            && t.count == |Members(receipts, StoreKey, t.key)| >= 1
            && t.total == SumOf(Members(receipts, StoreKey, t.key), ReceiptTotal))
  {
    var ts := StoreTotals(receipts);
    var sorted := SortDesc(ts, TallyTotal);
    TallyFacts(receipts, StoreKey, ReceiptTotal);
    SortDescMembers(ts, TallyTotal);
    SortDescSorted(ts, TallyTotal);
    SortDescDistinct(ts, TallyTotal, TallyKey);
    TakeSorted(sorted, 10, TallyTotal);
    TakeDistinct(sorted, 10, TallyKey);
  }

  /**
   * The slice keeps the biggest spenders: no store left out spent more
   * than a store shown, and with ten stores or fewer every receipt's store
   * is shown.
   */
  lemma SpendingByStoreTopTen(receipts: seq<Receipt>)
    ensures var rows := SpendingByStore(receipts);
      && (forall t, u :: t in StoreTotals(receipts) && t !in rows && u in rows ==> t.total <= u.total)
      && (|StoreTotals(receipts)| <= 10 ==> forall r :: r in receipts ==> exists t :: t in rows && t.key == StoreKey(r))
  {
    var ts := StoreTotals(receipts);
    var sorted := SortDesc(ts, TallyTotal);
    var rows := Take(sorted, 10);
    SortDescMembers(ts, TallyTotal);
    SortDescSorted(ts, TallyTotal);
    forall t, u | t in ts && t !in rows && u in rows
      ensures t.total <= u.total
    {
      var k :| 0 <= k < |sorted| && sorted[k] == t;
      var i :| 0 <= i < |rows| && rows[i] == u;
      assert sorted[i] == u;
      if k < |rows| {
        assert false;
      }
    }
    if |ts| <= 10 {
      TallyFacts(receipts, StoreKey, ReceiptTotal);
    }
  }

  /** The categories by total spend, descending. */
  function SpendingByCategory(items: seq<ReceiptItem>): seq<Tally<string>>
  {
    SortDesc(CategoryTotals(items), TallyTotal)
  }

  /**
   * By total descending, one row per category (`'other'` standing for
   * none), every item's category present, each row the sum of its items,
   * and the rows adding up to the whole spend.
   */
  lemma SpendingByCategoryFacts(items: seq<ReceiptItem>)
    ensures var rows := SpendingByCategory(items);
      && SortedDesc(rows, TallyTotal)
      && DistinctBy(rows, TallyKey)
      && (forall t :: t in rows ==>
            && |Members(items, CategoryKey, t.key)| >= 1
            && t.total == SumOf(Members(items, CategoryKey, t.key), ItemTotal))
      && (forall i :: i in items ==> exists t :: t in rows && t.key == CategoryKey(i))
      && SumOf(rows, TallyTotal) == SumOf(items, ItemTotal)
  {
    var ts := CategoryTotals(items);
    TallyFacts(items, CategoryKey, ItemTotal);
    TallySums(items, CategoryKey, ItemTotal);
    SortDescMembers(ts, TallyTotal);
    SortDescSorted(ts, TallyTotal);
    SortDescDistinct(ts, TallyTotal, TallyKey);
    SortDescSum(ts, TallyTotal, TallyTotal);
  }

  /** Sorting key for ascending dates: the negated time of the entry's date. */
  function ByDate(time: string -> real): Tally<string> -> real
  {
    (t: Tally<string>) => -time(t.key)
  }

  /**
   * Totals per purchase date (today's date standing in for none), ascending
   * by the time `time` gives each date.
   */
  function SpendingOverTime(receipts: seq<Receipt>, today: string, time: string -> real): seq<Tally<string>>
  {
    SortDesc(Tallies(GroupBy(receipts, DateKey(today)), ReceiptTotal), ByDate(time))
  }

  /**
   * One row per date that some receipt has, ascending in time, each row the
   * sum of that date's receipts, and the rows adding up to the whole spend.
   */
  lemma SpendingOverTimeFacts(receipts: seq<Receipt>, today: string, time: string -> real)
    ensures var rows := SpendingOverTime(receipts, today, time);
      && (forall i, j :: 0 <= i < j < |rows| ==> time(rows[i].key) <= time(rows[j].key))
      && DistinctBy(rows, TallyKey)
      && (forall t :: t in rows ==>
            && |Members(receipts, DateKey(today), t.key)| >= 1
            && t.total == SumOf(Members(receipts, DateKey(today), t.key), ReceiptTotal))
      && (forall r :: r in receipts ==> exists t :: t in rows && t.key == DateKey(today)(r))
      && SumOf(rows, TallyTotal) == SumOf(receipts, ReceiptTotal)
  {
    var ts := Tallies(GroupBy(receipts, DateKey(today)), ReceiptTotal);
    var rows := SortDesc(ts, ByDate(time));
    TallyFacts(receipts, DateKey(today), ReceiptTotal);
    TallySums(receipts, DateKey(today), ReceiptTotal);
    SortDescMembers(ts, ByDate(time));
    SortDescSorted(ts, ByDate(time));
    SortDescDistinct(ts, ByDate(time), TallyKey);
    SortDescSum(ts, ByDate(time), TallyTotal);
    forall i, j | 0 <= i < j < |rows|
      ensures time(rows[i].key) <= time(rows[j].key)
    {
      assert ByDate(time)(rows[i]) >= ByDate(time)(rows[j]);
    }
  }

  // ---------------------------------------------------------------------------
  // Item rankings

  function ItemBrand(i: ReceiptItem): Option<string> { i.brand }
  function ItemGeneric(i: ReceiptItem): Option<string> { i.generic_name }

  /** `items.filter((item) => item.brand)`, for the chosen field. */
  function HasField(field: ReceiptItem -> Option<string>): ReceiptItem -> bool
  {
    (i: ReceiptItem) => Present(field(i))
  }

  /** `item.brand!`, for the chosen field. */
  function FieldKey(field: ReceiptItem -> Option<string>): ReceiptItem -> string
  {
    (i: ReceiptItem) => field(i).GetOr("")
  }

  function NestedKey(e: Nested<string, string>): string { e.key }
  function NestedCount(e: Nested<string, string>): real { e.count as real }

  /**
   * The items with the field set, grouped by its value with a per-name
   * tally inside each group, by purchase count descending.
   */
  function Grouped(items: seq<ReceiptItem>, field: ReceiptItem -> Option<string>): seq<Nested<string, string>>
  {
    SortDesc(NestedTallies(GroupBy(Filter(items, HasField(field)), FieldKey(field)), ItemName, ItemTotal), NestedCount)
  }

  function GroupedByBrand(items: seq<ReceiptItem>): seq<Nested<string, string>> { Grouped(items, ItemBrand) }
  function GroupedByGeneric(items: seq<ReceiptItem>): seq<Nested<string, string>> { Grouped(items, ItemGeneric) }

  /** Groups come by purchase count descending, under distinct keys. */
  lemma GroupedOrder(items: seq<ReceiptItem>, field: ReceiptItem -> Option<string>)
    ensures SortedDesc(Grouped(items, field), NestedCount)
    ensures DistinctBy(Grouped(items, field), NestedKey)
  {
    var kept := Filter(items, HasField(field));
    var es := NestedTallies(GroupBy(kept, FieldKey(field)), ItemName, ItemTotal);
    NestedFacts(kept, FieldKey(field), ItemName, ItemTotal);
    assert DistinctBy(es, NestedKey);
    SortDescSorted(es, NestedCount);
    SortDescDistinct(es, NestedCount, NestedKey);
  }

  /** Only items with the field set are grouped: every group's key is non-empty. */
  lemma GroupedKeysPresent(items: seq<ReceiptItem>, field: ReceiptItem -> Option<string>)
    ensures forall g :: g in Grouped(items, field) ==> g.key != ""
  {
    var kept := Filter(items, HasField(field));
    var gs := GroupBy(kept, FieldKey(field));
    var es := NestedTallies(gs, ItemName, ItemTotal);
    GroupByRepresents(kept, FieldKey(field));
    NestedTalliesAt(gs, ItemName, ItemTotal);
    SortDescMembers(es, NestedCount);
    forall g | g in es
      ensures g.key != ""
    {
      var j :| 0 <= j < |es| && es[j] == g;
      MembersHaveKey(kept, FieldKey(field), g.key);
      var i := gs[j].members[0];
      assert i in Members(kept, FieldKey(field), g.key);
    }
  }

  /** Every item with the field set has a group under its value. */
  lemma GroupedKeysCover(items: seq<ReceiptItem>, field: ReceiptItem -> Option<string>)
    ensures forall i :: i in items && Present(field(i)) ==> exists g :: g in Grouped(items, field) && g.key == field(i).value
  {
    var kept := Filter(items, HasField(field));
    var gs := GroupBy(kept, FieldKey(field));
    var es := NestedTallies(gs, ItemName, ItemTotal);
    GroupByRepresents(kept, FieldKey(field));
    NestedTalliesAt(gs, ItemName, ItemTotal);
    SortDescMembers(es, NestedCount);
    forall i | i in items && Present(field(i))
      ensures exists g :: g in es && g.key == field(i).value
    {
      assert i in kept;
      assert FieldKey(field)(i) in Keys(gs);
      var j :| 0 <= j < |gs| && gs[j].key == FieldKey(field)(i);
      assert es[j].key == field(i).value;
    }
  }

  /**
   * Each group counts and sums exactly the items carrying its key; its
   * count is the sum of its sub-items' counts and its total theirs; the
   * sub-item names are distinct.
   */
  lemma GroupedEntries(items: seq<ReceiptItem>, field: ReceiptItem -> Option<string>)
    ensures var kept := Filter(items, HasField(field));
      forall g :: g in Grouped(items, field) ==>
        && g.count == |Members(kept, FieldKey(field), g.key)| >= 1
        && g.total == SumOf(Members(kept, FieldKey(field), g.key), ItemTotal)
        && SumOf(g.items, TallyCount) == g.count as real
        && SumOf(g.items, TallyTotal) == g.total
        && DistinctBy(g.items, TallyKey)
  {
    var kept := Filter(items, HasField(field));
    NestedFacts(kept, FieldKey(field), ItemName, ItemTotal);
    SortDescMembers(NestedTallies(GroupBy(kept, FieldKey(field)), ItemName, ItemTotal), NestedCount);
  }

  /** Every item ranked by its name, whatever its brand or generic name. */
  function Ungrouped(items: seq<ReceiptItem>): seq<Tally<string>>
  {
    SortDesc(Tallies(GroupBy(items, ItemName), ItemTotal), TallyCount)
  }

  /**
   * By purchase count descending, one row per name, counts adding up to
   * the number of items and totals to the whole spend.
   */
  lemma UngroupedFacts(items: seq<ReceiptItem>)
    ensures var rows := Ungrouped(items);
      && SortedDesc(rows, TallyCount)
      && DistinctBy(rows, TallyKey)
      && (forall t :: t in rows ==> t.count == |Members(items, ItemName, t.key)| >= 1)
      && SumOf(rows, TallyCount) == |items| as real
      && SumOf(rows, TallyTotal) == SumOf(items, ItemTotal)
  {
    var ts := Tallies(GroupBy(items, ItemName), ItemTotal);
    TallyFacts(items, ItemName, ItemTotal);
    TallySums(items, ItemName, ItemTotal);
    SortDescMembers(ts, TallyCount);
    SortDescSorted(ts, TallyCount);
    SortDescDistinct(ts, TallyCount, TallyKey);
    SortDescSum(ts, TallyCount, TallyCount);
    SortDescSum(ts, TallyCount, TallyTotal);
  }

  // ---------------------------------------------------------------------------
  // The page's accumulators, step by step

  /** The store `reduce` into `{ total, count }`, then sort and slice. */
  method ComputeSpendingByStore(receipts: seq<Receipt>) returns (rows: seq<Tally<string>>)
    ensures rows == SpendingByStore(receipts)
  {
    var acc := TallyBy(receipts, StoreKey, ReceiptTotal);
    rows := Take(SortDesc(acc, TallyTotal), 10);
  }

  /** The category `reduce`, then sort. */
  method ComputeSpendingByCategory(items: seq<ReceiptItem>) returns (rows: seq<Tally<string>>)
    ensures rows == SpendingByCategory(items)
  {
    var acc := TallyBy(items, CategoryKey, ItemTotal);
    rows := SortDesc(acc, TallyTotal);
  }

  /** The date `reduce`, then sort ascending by time. */
  method ComputeSpendingOverTime(receipts: seq<Receipt>, today: string, time: string -> real) returns (rows: seq<Tally<string>>)
    ensures rows == SpendingOverTime(receipts, today, time)
  {
    var acc := TallyBy(receipts, DateKey(today), ReceiptTotal);
    rows := SortDesc(acc, ByDate(time));
  }

  /** The brand or generic-name `reduce` with its nested item list, then sort. */
  method ComputeGrouped(items: seq<ReceiptItem>, field: ReceiptItem -> Option<string>) returns (rows: seq<Nested<string, string>>)
    ensures rows == Grouped(items, field)
  {
    var kept := Filter(items, HasField(field));
    var acc := NestedTallyBy(kept, FieldKey(field), ItemName, ItemTotal);
    rows := SortDesc(acc, NestedCount);
  }

  /** The item-name `reduce`, then sort by purchase count. */
  method ComputeUngrouped(items: seq<ReceiptItem>) returns (rows: seq<Tally<string>>)
    ensures rows == Ungrouped(items)
  {
    var acc := TallyBy(items, ItemName, ItemTotal);
    rows := SortDesc(acc, TallyCount);
  }
}
