/**
 * The "Most Purchased Items" card of the analytics page: a choice between
 * the items grouped by brand, grouped by generic name, or not grouped; the
 * first ten rows of the chosen list with their rank; and one row at a time
 * expanded into its per-name breakdown.
 */
module TopItems {
  import opened Wrappers
  import opened Seqs
  import opened Text
  import opened Grouping
  import opened Records
  import Analytics

  /** A row of any of the three lists; ungrouped rows carry no breakdown. */
  datatype Row = Row(display_name: string, total_spent: real, purchase_count: nat, items: Option<seq<Tally<string>>>)

  function FromNested(n: Nested<string, string>): Row
  {
    Row(n.key, n.total, n.count, Some(n.items))
  }

  function FromTally(t: Tally<string>): Row
  {
    Row(t.key, t.total, t.count, None)
  }

  function RowName(r: Row): string { r.display_name }

  datatype Mode = ByBrand | ByGeneric | NoGrouping

  /** The list the selector picks. */
  function Dataset(groupBy: Mode, byBrand: seq<Nested<string, string>>, byGeneric: seq<Nested<string, string>>,
                   ungrouped: seq<Tally<string>>): (data: seq<Row>)
    ensures groupBy == ByBrand ==> |data| == |byBrand| && forall i :: 0 <= i < |data| ==> data[i] == FromNested(byBrand[i])
    ensures groupBy == ByGeneric ==> |data| == |byGeneric| && forall i :: 0 <= i < |data| ==> data[i] == FromNested(byGeneric[i])
    ensures groupBy == NoGrouping ==> |data| == |ungrouped| && forall i :: 0 <= i < |data| ==> data[i] == FromTally(ungrouped[i])
  {
    match groupBy
    case ByBrand => seq(|byBrand|, i requires 0 <= i < |byBrand| => FromNested(byBrand[i]))
    case ByGeneric => seq(|byGeneric|, i requires 0 <= i < |byGeneric| => FromNested(byGeneric[i]))
    case NoGrouping => seq(|ungrouped|, i requires 0 <= i < |ungrouped| => FromTally(ungrouped[i]))
  }

  /** `item.items && item.items.length > 1`: the row can be expanded. */
  predicate Expandable(r: Row)
  {
    r.items.Some? && |r.items.value| > 1
  }

  /** What a click on a row makes of the expanded name. */
  function Toggle(expanded: Option<string>, r: Row): (e: Option<string>)
    ensures !Expandable(r) ==> e == expanded
    ensures Expandable(r) ==> (e == Some(r.display_name) <==> expanded != Some(r.display_name))
    ensures Expandable(r) ==> (e.None? <==> expanded == Some(r.display_name))
  {
    if !Expandable(r) then expanded
    else if expanded == Some(r.display_name) then None
    else Some(r.display_name)
  }

  /** Clicking the same expandable row twice returns to where one started, from nothing or that row open. */
  lemma ToggleTwice(expanded: Option<string>, r: Row)
    requires expanded.None? || expanded == Some(r.display_name)
    ensures Toggle(Toggle(expanded, r), r) == expanded
  {
  }

  // ---------------------------------------------------------------------------
  // What is drawn

  datatype Shown = Shown(
    rank: nat,
    title: string,
    row: Row,
    plural: bool,
    variants: Option<nat>,
    rotated: bool,
    breakdown: seq<Tally<string>>)

  const TopCount: nat := 10

  function ShownAt(data: seq<Row>, expanded: Option<string>, i: nat): Shown
    requires i < |data|
  {
    var r := data[i];
    var open := expanded == Some(r.display_name);
    Shown(
      i + 1,
      CapitalizeWords(r.display_name),
      r,
      r.purchase_count != 1,
      if Expandable(r) then Some(|r.items.value|) else None,
      Expandable(r) && open,
      if open && r.items.Some? then r.items.value else [])
  }

  datatype View = Placeholder | List(rows: seq<Shown>)

  function Render(data: seq<Row>, expanded: Option<string>): (v: View)
    ensures v.Placeholder? <==> |data| == 0
    ensures v.List? ==> |v.rows| == |Take(data, TopCount)|
  {
    if |data| == 0 then Placeholder
    else
      var top := Take(data, TopCount);
      List(seq(|top|, i requires 0 <= i < |top| => ShownAt(data, expanded, i)))
  }

  /**
   * At most ten rows show, the first ten of the list in order, ranked from
   * 1; only the row whose name is the expanded one shows a breakdown, and
   * that breakdown is the row's own per-name tally.
   */
  lemma RenderFacts(data: seq<Row>, expanded: Option<string>)
    ensures var v := Render(data, expanded);
      v.List? ==>
        && |v.rows| <= TopCount
        && (|data| >= TopCount ==> |v.rows| == TopCount)
        && (forall i :: 0 <= i < |v.rows| ==> v.rows[i].rank == i + 1 && v.rows[i].row == data[i])
        && (forall i :: 0 <= i < |v.rows| && |v.rows[i].breakdown| > 0 ==>
              Some(data[i].display_name) == expanded && data[i].items == Some(v.rows[i].breakdown))
  {
  }

  /** With distinct names, at most one row is open at a time. */
  lemma OneRowOpen(data: seq<Row>, expanded: Option<string>)
    requires DistinctBy(data, RowName)
    ensures var v := Render(data, expanded);
      v.List? ==> forall i, j :: 0 <= i < j < |v.rows| ==> !(v.rows[i].rotated && v.rows[j].rotated)
  {
    var v := Render(data, expanded);
    if v.List? {
      forall i, j | 0 <= i < j < |v.rows|
        ensures !(v.rows[i].rotated && v.rows[j].rotated)
      {
        assert RowName(data[i]) != RowName(data[j]);
      }
    }
  }

  /** The lists the analytics page computes have distinct names, so there too one row at most is open. */
  lemma PageListsDistinct(items: seq<ReceiptItem>, groupBy: Mode)
    ensures DistinctBy(Dataset(groupBy, Analytics.GroupedByBrand(items), Analytics.GroupedByGeneric(items),
                                Analytics.Ungrouped(items)), RowName)
  {
    var byBrand, byGeneric, ungrouped := Analytics.GroupedByBrand(items), Analytics.GroupedByGeneric(items), Analytics.Ungrouped(items);
    var data := Dataset(groupBy, byBrand, byGeneric, ungrouped);
    Analytics.GroupedOrder(items, Analytics.ItemBrand);
    Analytics.GroupedOrder(items, Analytics.ItemGeneric);
    Analytics.UngroupedFacts(items);
    forall i, j | 0 <= i < j < |data|
      ensures RowName(data[i]) != RowName(data[j])
    {
      match groupBy
      case ByBrand => assert Analytics.NestedKey(byBrand[i]) != Analytics.NestedKey(byBrand[j]);
      case ByGeneric => assert Analytics.NestedKey(byGeneric[i]) != Analytics.NestedKey(byGeneric[j]);
      case NoGrouping => assert TallyKey(ungrouped[i]) != TallyKey(ungrouped[j]);
    }
  }

  // ---------------------------------------------------------------------------
  // The card's state

  class Card {
    var groupBy: Mode
    var expandedItem: Option<string>

    /** Grouping starts by generic name, with nothing expanded. */
    constructor()
      ensures groupBy == ByGeneric && expandedItem.None?
    {
      groupBy := ByGeneric;
      expandedItem := None;
    }

    /** Choosing a grouping collapses any expanded row. */
    method SetGroupBy(g: Mode)
      modifies this
      ensures groupBy == g && expandedItem.None?
    {
      groupBy := g;
      expandedItem := None;
    }

    /** A click on a row toggles it when it has more than one sub-item and changes nothing otherwise. */
    method Click(r: Row)
      modifies this
      ensures groupBy == old(groupBy)
      ensures expandedItem == Toggle(old(expandedItem), r)
    {
      if r.items.Some? && |r.items.value| > 1 {
        expandedItem := if expandedItem == Some(r.display_name) then None else Some(r.display_name);
      }
    }
  }
}
