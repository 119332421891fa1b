/**
 * The dialog that links a receipt item to a product: when it searches and
 * with which filter, how the found rows are grouped by product, which id a
 * "Link Here" click links to, and when "create new product" may insert.
 */
module LinkItems {
  import opened Wrappers
  import opened Seqs
  import opened Text
  import opened Records

  // ---------------------------------------------------------------------------
  // The search

  /** The filter the search adds to its query, or no search at all. */
  datatype Search = Skip | ByText(query: string) | ByBrand(brand: string) | ByGeneric(genericName: string)

  /**
   * A non-blank query wins; else the item's brand, lower-cased; else its
   * generic name, lower-cased; with none of them there is no search.
   */
  function Plan(searchQuery: string, brand: Option<string>, genericName: Option<string>): (s: Search)
    ensures s.Skip? <==> Trim(searchQuery) == [] && !Present(brand) && !Present(genericName)
    ensures Trim(searchQuery) != [] ==> s == ByText(searchQuery)
    ensures Trim(searchQuery) == [] && Present(brand) ==> s == ByBrand(Lower(brand.value))
    ensures Trim(searchQuery) == [] && !Present(brand) && Present(genericName) ==> s == ByGeneric(Lower(genericName.value))
  {
    if Trim(searchQuery) == [] && !Present(brand) && !Present(genericName) then Skip
    else if Trim(searchQuery) != [] then ByText(searchQuery)
    else if Present(brand) then ByBrand(Lower(brand.value))
    else ByGeneric(Lower(genericName.value))
  }

  // ---------------------------------------------------------------------------
  // Grouping the rows by product

  /** `item.product_id || item.id` */
  function Key(r: ReceiptItem): string
  {
    TextOr(r.product_id, r.id)
  }

  /** One entry of the accumulator, `{ product_id, items, count }`, with the key it is stored under. */
  datatype LinkGroup = LinkGroup(key: string, product_id: Option<string>, items: seq<ReceiptItem>, count: nat)

  function GroupKey(g: LinkGroup): string { g.key }
  function GroupCount(g: LinkGroup): real { g.count as real }

  /** The position of the entry stored under `k`, or `|gs|` when there is none. */
  function FindKey(gs: seq<LinkGroup>, k: string): (j: nat)
    ensures j <= |gs|
    ensures j < |gs| ==> gs[j].key == k
    ensures forall i :: 0 <= i < j ==> gs[i].key != k
  {
    if |gs| == 0 then 0
    else if gs[0].key == k then 0
    else 1 + FindKey(gs[1..], k)
  }

  /** One call of the reducer on the entries in insertion order. */
  function LinkStep(gs: seq<LinkGroup>, r: ReceiptItem): seq<LinkGroup>
  {
    var j := FindKey(gs, Key(r));
    if j == |gs| then gs + [LinkGroup(Key(r), r.product_id, [r], 1)]
    else gs[j := gs[j].(items := gs[j].items + [r], count := gs[j].count + 1)]
  }

  /** `Object.values(data.reduce(...))`: the entries in the order their keys first appeared. */
  function LinkGroups(rows: seq<ReceiptItem>): seq<LinkGroup>
  {
    if |rows| == 0 then [] else LinkStep(LinkGroups(rows[..|rows| - 1]), rows[|rows| - 1])
  }

  /** An entry holds at least one row, counts its rows, and every row has the entry's key. */
  predicate GroupOk(g: LinkGroup)
  {
    && g.count == |g.items| >= 1
    && g.product_id == g.items[0].product_id
    && forall k :: 0 <= k < |g.items| ==> Key(g.items[k]) == g.key
  }

  predicate Keyed(gs: seq<LinkGroup>)
  {
    DistinctBy(gs, GroupKey) && forall i :: 0 <= i < |gs| ==> GroupOk(gs[i])
  }

  /** Every row sits in the entry stored under its key. */
  ghost predicate Placed(gs: seq<LinkGroup>, rows: seq<ReceiptItem>)
  {
    forall r :: r in rows ==> exists i :: 0 <= i < |gs| && gs[i].key == Key(r) && r in gs[i].items
  }

  /** The step keeps keys distinct and every entry well formed. */
  lemma StepKeyed(gs: seq<LinkGroup>, r: ReceiptItem)
    requires Keyed(gs)
    ensures Keyed(LinkStep(gs, r))
  {
    var j := FindKey(gs, Key(r));
    var next := LinkStep(gs, r);
    if j < |gs| {
      var g := gs[j].(items := gs[j].items + [r], count := gs[j].count + 1);
      assert next == gs[j := g];
      assert GroupOk(g) by {
        assert GroupOk(gs[j]);
        assert g.items[0] == gs[j].items[0];
      }
      assert forall a :: 0 <= a < |next| ==> GroupKey(next[a]) == GroupKey(gs[a]);
    }
  }

  /** The step puts the new row under its key and leaves the earlier rows where they were. */
  lemma StepPlaced(gs: seq<LinkGroup>, rows: seq<ReceiptItem>, r: ReceiptItem)
    requires Placed(gs, rows)
    ensures Placed(LinkStep(gs, r), rows + [r])
  {
    var j := FindKey(gs, Key(r));
    var next := LinkStep(gs, r);
    forall x | x in rows + [r]
      ensures exists i :: 0 <= i < |next| && next[i].key == Key(x) && x in next[i].items
    {
      if x in rows {
        var i :| 0 <= i < |gs| && gs[i].key == Key(x) && x in gs[i].items;
        assert next[i].key == gs[i].key && x in next[i].items;
      } else {
        assert next[j].key == Key(r) && r in next[j].items;
      }
    }
  }

  /** The step adds one to the total count. */
  lemma StepCount(gs: seq<LinkGroup>, r: ReceiptItem)
    ensures SumOf(LinkStep(gs, r), GroupCount) == SumOf(gs, GroupCount) + 1.0
  {
    var j := FindKey(gs, Key(r));
    if j == |gs| {
      var g := LinkGroup(Key(r), r.product_id, [r], 1);
      SumOfAppend(gs, [g], GroupCount);
      assert SumOf([g], GroupCount) == 1.0 by {
        assert [g][..0] == [];
      }
    } else {
      var g := gs[j].(items := gs[j].items + [r], count := gs[j].count + 1);
      SumOfUpdate(gs, j, g, GroupCount);
    }
  }

  /**
   * Every row lands in exactly one entry: the one under its key, keys being
   * distinct. Each entry's count is its number of rows, at least one, and
   * the counts add up to the number of rows found.
   */
  lemma {:induction false} LinkGroupsFacts(rows: seq<ReceiptItem>)
    ensures Keyed(LinkGroups(rows))
    ensures Placed(LinkGroups(rows), rows)
    ensures SumOf(LinkGroups(rows), GroupCount) == |rows| as real
  {
    if |rows| > 0 {
      var init := rows[..|rows| - 1];
      var r := rows[|rows| - 1];
      var gs := LinkGroups(init);
      assert LinkGroups(rows) == LinkStep(gs, r);
      assert init + [r] == rows;
      LinkGroupsFacts(init);
      StepKeyed(gs, r);
      StepPlaced(gs, init, r);
      StepCount(gs, r);
    }
  }

  // ---------------------------------------------------------------------------
  // The reducer, on an object: a map plus the order its keys were added in

  /** The accumulator object is consistent: its keys in insertion order, each entry under its own key. */
  ghost predicate Consistent(acc: map<string, LinkGroup>, order: seq<string>)
  {
    && (forall k :: k in acc <==> k in order)
    && (forall i, j :: 0 <= i < j < |order| ==> order[i] != order[j])
    && (forall i :: 0 <= i < |order| ==> order[i] in acc && acc[order[i]].key == order[i])
  }

  /** `Object.values(acc)` */
  function ValuesOf(acc: map<string, LinkGroup>, order: seq<string>): (vs: seq<LinkGroup>)
    requires Consistent(acc, order)
    ensures |vs| == |order|
    ensures forall i :: 0 <= i < |order| ==> vs[i] == acc[order[i]]
  {
    seq(|order|, i requires 0 <= i < |order| => acc[order[i]])
  }

  /** Adding a new key appends its entry to the values. */
  lemma ValuesAdd(acc: map<string, LinkGroup>, order: seq<string>, g: LinkGroup)
    requires Consistent(acc, order) && g.key !in acc
    ensures Consistent(acc[g.key := g], order + [g.key])
    ensures ValuesOf(acc[g.key := g], order + [g.key]) == ValuesOf(acc, order) + [g]
  {
    var acc', order' := acc[g.key := g], order + [g.key];
    assert Consistent(acc', order');
    assert forall i :: 0 <= i < |order| ==> acc'[order'[i]] == acc[order[i]];
  }

  /** Replacing the entry under an existing key replaces it in place among the values. */
  lemma ValuesUpdate(acc: map<string, LinkGroup>, order: seq<string>, j: nat, g: LinkGroup)
    requires Consistent(acc, order) && j < |order| && g.key == order[j]
    ensures Consistent(acc[g.key := g], order)
    ensures ValuesOf(acc[g.key := g], order) == ValuesOf(acc, order)[j := g]
  {
    var acc' := acc[g.key := g];
    assert Consistent(acc', order);
    assert forall i :: 0 <= i < |order| && i != j ==> acc'[order[i]] == acc[order[i]];
  }

  /** A row whose key is not yet stored opens a new entry at the end. */
  lemma StepNew(acc: map<string, LinkGroup>, order: seq<string>, r: ReceiptItem)
    requires Consistent(acc, order) && Key(r) !in acc
    ensures LinkStep(ValuesOf(acc, order), r) == ValuesOf(acc, order) + [LinkGroup(Key(r), r.product_id, [r], 1)]
  {
    var before := ValuesOf(acc, order);
    assert forall m :: 0 <= m < |before| ==> before[m].key == order[m] != Key(r);
  }

  /** A row whose key is stored at position `i` joins that entry. */
  lemma StepExisting(acc: map<string, LinkGroup>, order: seq<string>, i: nat, r: ReceiptItem)
    requires Consistent(acc, order) && i < |order| && order[i] == Key(r)
    ensures LinkStep(ValuesOf(acc, order), r)
      == ValuesOf(acc, order)[i := acc[Key(r)].(items := acc[Key(r)].items + [r], count := acc[Key(r)].count + 1)]
  {
    var before := ValuesOf(acc, order);
    assert before[i].key == Key(r);
    var j := FindKey(before, Key(r));
    assert j <= i;
    assert before[j].key == order[j];
    assert j == i;
    assert before[i] == acc[Key(r)];
  }

  /** The reducer's body: create the entry on first sight of the key, then push the row and count it. */
  method AddRow(acc: map<string, LinkGroup>, order: seq<string>, r: ReceiptItem)
    returns (acc': map<string, LinkGroup>, order': seq<string>)
    requires Consistent(acc, order)
    ensures Consistent(acc', order')
    ensures ValuesOf(acc', order') == LinkStep(ValuesOf(acc, order), r)
  {
    var key := Key(r);
    acc', order' := acc, order;
    if key !in acc' {
      acc' := acc'[key := LinkGroup(key, r.product_id, [], 0)];
      order' := order' + [key];
    }
    acc' := acc'[key := acc'[key].(items := acc'[key].items + [r], count := acc'[key].count + 1)];
    if key !in acc {
      var g := LinkGroup(key, r.product_id, [r], 1);
      assert [] + [r] == [r];
      assert acc' == acc[key := g];
      ValuesAdd(acc, order, g);
      StepNew(acc, order, r);
    } else {
      ghost var i :| 0 <= i < |order| && order[i] == key;
      ValuesUpdate(acc, order, i, acc[key].(items := acc[key].items + [r], count := acc[key].count + 1));
      StepExisting(acc, order, i, r);
    }
  }

  /** The reduce over the rows found. */
  method GroupRows(rows: seq<ReceiptItem>) returns (groups: seq<LinkGroup>)
    ensures groups == LinkGroups(rows)
  {
    var acc: map<string, LinkGroup> := map[];
    var order: seq<string> := [];
    var n := 0;
    while n < |rows|
      invariant n <= |rows|
      invariant Consistent(acc, order)
      invariant ValuesOf(acc, order) == LinkGroups(rows[..n])
    {
      assert rows[..n + 1][..n] == rows[..n];
      acc, order := AddRow(acc, order, rows[n]);
      n := n + 1;
    }
    assert rows[..n] == rows;
    groups := ValuesOf(acc, order);
  }

  // ---------------------------------------------------------------------------
  // Linking

  /** `group.product_id || group.items[0].id` */
  function Target(g: LinkGroup): string
    requires |g.items| > 0
  {
    TextOr(g.product_id, g.items[0].id)
  }

  /** A click on any entry links to the key it was stored under: its product, or its first row's id. */
  lemma TargetIsKey(rows: seq<ReceiptItem>)
    ensures forall g :: g in LinkGroups(rows) ==> |g.items| > 0 && Target(g) == g.key
  {
    LinkGroupsFacts(rows);
    forall g | g in LinkGroups(rows)
      ensures |g.items| > 0 && Target(g) == g.key
    {
      assert GroupOk(g);
      assert Key(g.items[0]) == g.key;
    }
  }

  // ---------------------------------------------------------------------------
  // Creating a product

  datatype ProductPayload = ProductPayload(canonical_name: string, brand: Option<string>, generic_name: Option<string>)

  datatype CreateOutcome = Rejected | NotAuthenticated | InsertFailed | LinkFailed | Created

  datatype CreateResult = CreateResult(inserted: Option<ProductPayload>, outcome: CreateOutcome)

  /** `x || null` on an optional prop. */
  function OrNull(s: Option<string>): (r: Option<string>)
    ensures Present(s) ==> r == s
    ensures !Present(s) ==> r.None?
  {
    if Present(s) then s else None
  }

  /**
   * "Create new product": a blank name is refused and nothing is inserted;
   * otherwise, with a user, the product is inserted with the name as typed
   * and the brand and generic name or null, and the item is linked to it.
   * `insertOk` and `linkOk` are the two database calls' outcomes.
   */
  function Create(canonicalName: string, brand: Option<string>, genericName: Option<string>,
                  signedIn: bool, insertOk: bool, linkOk: bool): (res: CreateResult)
    ensures Trim(canonicalName) == [] ==> res == CreateResult(None, Rejected)
    ensures res.inserted.Some? <==> Trim(canonicalName) != [] && signedIn
    ensures res.inserted.Some? ==> res.inserted.value == ProductPayload(canonicalName, OrNull(brand), OrNull(genericName))
    ensures res.outcome == Created <==> Trim(canonicalName) != [] && signedIn && insertOk && linkOk
  {
    if Trim(canonicalName) == [] then CreateResult(None, Rejected)
    else if !signedIn then CreateResult(None, NotAuthenticated)
    else
      var payload := Some(ProductPayload(canonicalName, OrNull(brand), OrNull(genericName)));
      if !insertOk then CreateResult(payload, InsertFailed)
      else if !linkOk then CreateResult(payload, LinkFailed)
      else CreateResult(payload, Created)
  }
}
