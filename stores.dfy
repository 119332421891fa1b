/**
 * The stores page: receipts grouped by store name, each store's spend,
 * visit count and receipts, its logo and colour looked up by name, its
 * average receipt and last visit, and the stores by visit count.
 *
 * The `reduce` keeps one accumulator entry per name and updates it in
 * place; `CollectStats` does the same, proved against `AllStats` of the
 * first-seen grouping. `new Date(..).getTime()` is the parameter `time`.
 */
module Stores {
  import opened Wrappers
  import opened Seqs
  import opened Sorting
  import opened Grouping
  import opened Records
  import opened Text

  /** A row of the `stores` table. */
  datatype StoreRow = StoreRow(name: string, logo_url: Option<string>, color: Option<string>)

  const DefaultColor: string := "#3b82f6"

  /** `receipt.store_name || 'Unknown Store'` */
  function StoreName(r: Receipt): string { TextOr(r.store_name, "Unknown Store") }

  /** `receipt.total_amount || 0` */
  function Spent(r: Receipt): real { AmountOf(r.total_amount) }

  // ---------------------------------------------------------------------------
  // The accumulator

  /** The entry `{ name, totalSpent, visitCount, receipts }`. */
  datatype StoreStats = StoreStats(name: string, totalSpent: real, visitCount: nat, receipts: seq<Receipt>)

  /** The entry a store's receipts add up to. */
  function StatsOf(g: Group<string, Receipt>): StoreStats
  {
    StoreStats(g.key, SumOf(g.members, Spent), |g.members|, g.members)
  }

  function AllStats(gs: seq<Group<string, Receipt>>): (r: seq<StoreStats>)
    ensures |r| == |gs|
  {
    if |gs| == 0 then [] else [StatsOf(gs[0])] + AllStats(gs[1..])
  }

  lemma {:induction false} AllStatsAt(gs: seq<Group<string, Receipt>>)
    ensures forall i :: 0 <= i < |gs| ==> AllStats(gs)[i] == StatsOf(gs[i])
  {
    if |gs| > 0 {
      AllStatsAt(gs[1..]);
    }
  }

  /** `totalSpent += ..; visitCount += 1; receipts.push(receipt)` */
  function Visit(s: StoreStats, r: Receipt): StoreStats
  {
    StoreStats(s.name, s.totalSpent + Spent(r), s.visitCount + 1, s.receipts + [r])
  }

  /** The entry created the first time a name is seen. */
  function Fresh(name: string): StoreStats
  {
    StoreStats(name, 0.0, 0, [])
  }

  /** One step of the `reduce`: visit the entry named `k`, creating it when missing. */
  function StatsStep(ss: seq<StoreStats>, k: string, r: Receipt): seq<StoreStats>
  {
    if |ss| == 0 then [Visit(Fresh(k), r)]
    else if ss[0].name == k then [Visit(ss[0], r)] + ss[1..]
    else [ss[0]] + StatsStep(ss[1..], k, r)
  }

  lemma {:induction false} AllStatsPlace(gs: seq<Group<string, Receipt>>, k: string, x: Receipt)
    ensures AllStats(Place(gs, k, x)) == StatsStep(AllStats(gs), k, x)
  {
    if |gs| == 0 {
      SumOfSnoc([], x, Spent);
      assert [] + [x] == [x];
      assert StatsOf(Group(k, [x])) == Visit(Fresh(k), x);
    } else if gs[0].key == k {
      SumOfSnoc(gs[0].members, x, Spent);
      var g := Group(k, gs[0].members + [x]);
      assert StatsOf(g) == Visit(StatsOf(gs[0]), x);
      assert Place(gs, k, x) == [g] + gs[1..];
      assert AllStats([g] + gs[1..]) == [StatsOf(g)] + AllStats(gs[1..]);
    } else {
      AllStatsPlace(gs[1..], k, x);
      assert Place(gs, k, x) == [gs[0]] + Place(gs[1..], k, x);
      assert AllStats([gs[0]] + Place(gs[1..], k, x)) == [StatsOf(gs[0])] + AllStats(Place(gs[1..], k, x));
    }
  }

  lemma StatsGroupByStep(receipts: seq<Receipt>, n: nat)
    requires n < |receipts|
    ensures AllStats(GroupBy(receipts[..n + 1], StoreName)) ==
      StatsStep(AllStats(GroupBy(receipts[..n], StoreName)), StoreName(receipts[n]), receipts[n])
  {
    assert receipts[..n + 1][..n] == receipts[..n];
    AllStatsPlace(GroupBy(receipts[..n], StoreName), StoreName(receipts[n]), receipts[n]);
  }

  lemma {:induction false} StatsStepAt(ss: seq<StoreStats>, k: string, r: Receipt, j: nat)
    requires j < |ss| && ss[j].name == k
    requires forall i :: 0 <= i < j ==> ss[i].name != k
    ensures StatsStep(ss, k, r) == ss[j := Visit(ss[j], r)]
  {
    if j > 0 {
      StatsStepAt(ss[1..], k, r, j - 1);
    }
  }

  lemma {:induction false} StatsStepNew(ss: seq<StoreStats>, k: string, r: Receipt)
    requires forall i :: 0 <= i < |ss| ==> ss[i].name != k
    ensures StatsStep(ss, k, r) == ss + [Visit(Fresh(k), r)]
  {
    if |ss| > 0 {
      StatsStepNew(ss[1..], k, r);
    }
  }

  /** `if (!acc[storeName]) acc[storeName] = {..}`, then the updates. */
  method StatsStepInPlace(acc: seq<StoreStats>, k: string, r: Receipt) returns (next: seq<StoreStats>)
    ensures next == StatsStep(acc, k, r)
  {
    var j := 0;
    while j < |acc| && acc[j].name != k
      invariant j <= |acc|
      invariant forall i :: 0 <= i < j ==> acc[i].name != k
    {
      j := j + 1;
    }
    next := acc;
    if j == |acc| {
      StatsStepNew(acc, k, r);
      next := next + [Fresh(k)];
    } else {
      StatsStepAt(acc, k, r, j);
    }
    next := next[j := Visit(next[j], r)];
  }

  /** The page's `reduce` over the receipts. */
  method CollectStats(receipts: seq<Receipt>) returns (acc: seq<StoreStats>)
    ensures acc == AllStats(GroupBy(receipts, StoreName))
  {
    acc := [];
    for n := 0 to |receipts|
      invariant acc == AllStats(GroupBy(receipts[..n], StoreName))
    {
      StatsGroupByStep(receipts, n);
      acc := StatsStepInPlace(acc, StoreName(receipts[n]), receipts[n]);
    }
    assert receipts[..|receipts|] == receipts;
  }

  // ---------------------------------------------------------------------------
  // Logo and colour

  /** The index of the first store whose name matches `name` case-insensitively, or `|stores|`. */
  function FindIndex(stores: seq<StoreRow>, name: string): (i: nat)
    ensures i <= |stores|
    ensures i < |stores| ==> Lower(stores[i].name) == Lower(name)
    ensures forall j :: 0 <= j < i ==> Lower(stores[j].name) != Lower(name)
  {
    if |stores| == 0 then 0
    else if Lower(stores[0].name) == Lower(name) then 0
    else 1 + FindIndex(stores[1..], name)
  }

  /** `stores?.find((s) => s.name.toLowerCase() === name.toLowerCase())` */
  function FindStore(stores: seq<StoreRow>, name: string): Option<StoreRow>
  {
    if FindIndex(stores, name) < |stores| then Some(stores[FindIndex(stores, name)]) else None
  }

  /** `stores[i]` is the first store whose name matches `name` case-insensitively. */
  ghost predicate IsFirstMatch(stores: seq<StoreRow>, name: string, i: int)
  {
    && 0 <= i < |stores|
    && Lower(stores[i].name) == Lower(name)
    && forall j :: 0 <= j < i ==> Lower(stores[j].name) != Lower(name)
  }

  /** The lookup finds the first match, and nothing exactly when no name matches. */
  lemma FindStoreFirst(stores: seq<StoreRow>, name: string)
    ensures FindStore(stores, name).None? <==> forall s :: s in stores ==> Lower(s.name) != Lower(name)
    ensures FindStore(stores, name).Some? ==> exists i :: IsFirstMatch(stores, name, i) && stores[i] == FindStore(stores, name).value
  {
  }

  /** `store?.logo_url` */
  function Logo(store: Option<StoreRow>): Option<string>
  {
    if store.Some? then store.value.logo_url else None
  }

  /** `store?.color || '#3b82f6'` */
  function Color(store: Option<StoreRow>): (c: string)
    ensures c != ""
  {
    if store.Some? then TextOr(store.value.color, DefaultColor) else DefaultColor
  }

  // ---------------------------------------------------------------------------
  // The store cards

  datatype StoreCard = StoreCard(
    name: string,
    totalSpent: real,
    visitCount: nat,
    receipts: seq<Receipt>,
    logo_url: Option<string>,
    color: string,
    avgReceiptTotal: real,
    lastVisit: Option<string>)

  /** `new Date(r.purchase_date || r.created_at).getTime()` */
  function VisitTime(time: string -> real): Receipt -> real
  {
    (r: Receipt) => time(TextOr(r.purchase_date, r.created_at))
  }

  /**
   * The `map` over the entries. The receipts are sorted newest first in
   * place, so the card carries them in that order, and the last visit is
   * the first one's purchase date.
   */
  function CardOf(s: StoreStats, stores: seq<StoreRow>, time: string -> real): (c: StoreCard)
    ensures c.name == s.name && c.totalSpent == s.totalSpent && c.visitCount == s.visitCount
    ensures multiset(c.receipts) == multiset(s.receipts)
    ensures c.visitCount > 0 ==> c.avgReceiptTotal == c.totalSpent / c.visitCount as real
  {
    var store := FindStore(stores, s.name);
    var sorted := SortDesc(s.receipts, VisitTime(time));
    StoreCard(
      s.name, s.totalSpent, s.visitCount, sorted,
      Logo(store), Color(store),
      if s.visitCount > 0 then s.totalSpent / s.visitCount as real else 0.0,
      if |sorted| > 0 then sorted[0].purchase_date else None)
  }

  function Cards(ss: seq<StoreStats>, stores: seq<StoreRow>, time: string -> real): (r: seq<StoreCard>)
    ensures |r| == |ss|
  {
    if |ss| == 0 then [] else [CardOf(ss[0], stores, time)] + Cards(ss[1..], stores, time)
  }

  lemma {:induction false} CardsAt(ss: seq<StoreStats>, stores: seq<StoreRow>, time: string -> real)
    ensures forall i :: 0 <= i < |ss| ==> Cards(ss, stores, time)[i] == CardOf(ss[i], stores, time)
  {
    if |ss| > 0 {
      CardsAt(ss[1..], stores, time);
    }
  }

  function CardVisits(c: StoreCard): real { c.visitCount as real }
  function CardSpent(c: StoreCard): real { c.totalSpent }
  function CardName(c: StoreCard): string { c.name }

  /** The page's `storeStats`: one card per store, most visited first. */
  function StoreCards(receipts: seq<Receipt>, stores: seq<StoreRow>, time: string -> real): seq<StoreCard>
  {
    SortDesc(Cards(AllStats(GroupBy(receipts, StoreName)), stores, time), CardVisits)
  }

  /** The page's computation, the `reduce` done in place. */
  method ComputeStoreCards(receipts: seq<Receipt>, stores: seq<StoreRow>, time: string -> real) returns (cards: seq<StoreCard>)
    ensures cards == StoreCards(receipts, stores, time)
  {
    var acc := CollectStats(receipts);
    cards := SortDesc(Cards(acc, stores, time), CardVisits);
  }

  /**
   * Card `c` sums up exactly the receipts under its name: at least one
   * visit, their count, their spend, those receipts, and the spend per
   * visit as its average.
   */
  ghost predicate Covers(receipts: seq<Receipt>, c: StoreCard)
  {
    var mine := Members(receipts, StoreName, c.name);
    && c.visitCount == |mine| >= 1
    && c.totalSpent == SumOf(mine, Spent)
    && multiset(c.receipts) == multiset(mine)
    && c.avgReceiptTotal == c.totalSpent / c.visitCount as real
  }

  /** Before sorting: one card per name, each covering its receipts. */
  lemma CardsCover(receipts: seq<Receipt>, stores: seq<StoreRow>, time: string -> real)
    ensures var cs := Cards(AllStats(GroupBy(receipts, StoreName)), stores, time);
      && DistinctBy(cs, CardName)
      && (forall i :: 0 <= i < |cs| ==> Covers(receipts, cs[i]))
  {
    var gs := GroupBy(receipts, StoreName);
    var cs := Cards(AllStats(gs), stores, time);
    GroupByRepresents(receipts, StoreName);
    AllStatsAt(gs);
    CardsAt(AllStats(gs), stores, time);
    forall i, j | 0 <= i < j < |cs|
      ensures CardName(cs[i]) != CardName(cs[j])
    {
      assert cs[i].name == gs[i].key && cs[j].name == gs[j].key;
    }
    forall i | 0 <= i < |cs|
      ensures Covers(receipts, cs[i])
    {
      var c := cs[i];
      assert c == CardOf(StatsOf(gs[i]), stores, time);
      assert gs[i].members == Members(receipts, StoreName, c.name);
      var mine := Members(receipts, StoreName, c.name);
      assert c.visitCount == |mine| >= 1;
      assert c.totalSpent == SumOf(mine, Spent);
      assert multiset(c.receipts) == multiset(mine);
      assert c.avgReceiptTotal == c.totalSpent / c.visitCount as real;
    }
  }

  /** Most visited first, one card per name, each covering exactly the receipts under its name. */
  lemma StoreCardsFacts(receipts: seq<Receipt>, stores: seq<StoreRow>, time: string -> real)
    ensures var cards := StoreCards(receipts, stores, time);
      && SortedDesc(cards, CardVisits)
      && DistinctBy(cards, CardName)
      && (forall c :: c in cards ==> Covers(receipts, c))
  {
    var cs := Cards(AllStats(GroupBy(receipts, StoreName)), stores, time);
    CardsCover(receipts, stores, time);
    SortDescSorted(cs, CardVisits);
    SortDescDistinct(cs, CardVisits, CardName);
    SortDescMembers(cs, CardVisits);
    forall c | c in SortDesc(cs, CardVisits)
      ensures Covers(receipts, c)
    {
      var i :| 0 <= i < |cs| && cs[i] == c;
    }
  }

  /** Summing over the cards of some groups is summing over their entries. */
  lemma {:induction false} CardSums(gs: seq<Group<string, Receipt>>, stores: seq<StoreRow>, time: string -> real)
    ensures SumOf(Cards(AllStats(gs), stores, time), CardVisits) == SumOf(Tallies(gs, Spent), TallyCount)
    ensures SumOf(Cards(AllStats(gs), stores, time), CardSpent) == SumOf(Tallies(gs, Spent), TallyTotal)
  {
    if |gs| > 0 {
      var cs := Cards(AllStats(gs), stores, time);
      var ts := Tallies(gs, Spent);
      CardSums(gs[1..], stores, time);
      assert cs == [cs[0]] + Cards(AllStats(gs[1..]), stores, time);
      assert ts == [ts[0]] + Tallies(gs[1..], Spent);
      SumOfCons(cs[0], Cards(AllStats(gs[1..]), stores, time), CardVisits);
      SumOfCons(cs[0], Cards(AllStats(gs[1..]), stores, time), CardSpent);
      SumOfCons(ts[0], Tallies(gs[1..], Spent), TallyCount);
      SumOfCons(ts[0], Tallies(gs[1..], Spent), TallyTotal);
    }
  }

  /** The visit counts add up to the number of receipts and the spends to the whole spend. */
  lemma StoreCardsTotals(receipts: seq<Receipt>, stores: seq<StoreRow>, time: string -> real)
    ensures SumOf(StoreCards(receipts, stores, time), CardVisits) == |receipts| as real
    ensures SumOf(StoreCards(receipts, stores, time), CardSpent) == SumOf(receipts, Spent)
  {
    var gs := GroupBy(receipts, StoreName);
    var cs := Cards(AllStats(gs), stores, time);
    CardSums(gs, stores, time);
    TallySums(receipts, StoreName, Spent);
    SortDescSum(cs, CardVisits, CardVisits);
    SortDescSum(cs, CardVisits, CardSpent);
  }

  /** Every receipt's store has a card. */
  lemma StoreCardsCover(receipts: seq<Receipt>, stores: seq<StoreRow>, time: string -> real)
    ensures forall r :: r in receipts ==> exists c :: c in StoreCards(receipts, stores, time) && c.name == StoreName(r)
  {
    var gs := GroupBy(receipts, StoreName);
    var ss := AllStats(gs);
    var cs := Cards(ss, stores, time);
    var sorted := StoreCards(receipts, stores, time);
    assert sorted == SortDesc(cs, CardVisits);
    SortDescMembers(cs, CardVisits);
    GroupByRepresents(receipts, StoreName);
    AllStatsAt(gs);
    CardsAt(ss, stores, time);
    forall r | r in receipts
      ensures exists c :: c in sorted && c.name == StoreName(r)
    {
      assert StoreName(r) in Keys(gs);
      var j :| 0 <= j < |gs| && gs[j].key == StoreName(r);
      assert cs[j] == CardOf(ss[j], stores, time) && ss[j] == StatsOf(gs[j]);
      assert cs[j].name == StoreName(r);
      assert cs[j] in sorted;
    }
  }

  /** `r` is one of `rs` whose visit time no other receipt of `rs` exceeds. */
  ghost predicate IsLatest(rs: seq<Receipt>, r: Receipt, time: string -> real)
  {
    r in rs && forall q :: q in rs ==> VisitTime(time)(q) <= VisitTime(time)(r)
  }

  /**
   * The last visit is the purchase date of a latest receipt, absent when
   * that receipt has none; logo and colour come from the first store whose
   * name matches, the colour falling back to the default.
   */
  lemma CardOfFacts(s: StoreStats, stores: seq<StoreRow>, time: string -> real)
    ensures var c := CardOf(s, stores, time);
      && (|s.receipts| > 0 ==> exists r :: IsLatest(s.receipts, r, time) && c.lastVisit == r.purchase_date)
      && (|s.receipts| == 0 ==> c.lastVisit.None?)
      && c.logo_url == Logo(FindStore(stores, s.name))
      && (FindStore(stores, s.name).None? ==> c.color == DefaultColor)
      && (FindStore(stores, s.name).Some? && !Present(FindStore(stores, s.name).value.color) ==>
            c.color == DefaultColor)
      && (FindStore(stores, s.name).Some? && Present(FindStore(stores, s.name).value.color) ==>
            c.color == FindStore(stores, s.name).value.color.value)
  {
    var sorted := SortDesc(s.receipts, VisitTime(time));
    if |s.receipts| > 0 {
      SortDescSorted(s.receipts, VisitTime(time));
      SortDescMembers(s.receipts, VisitTime(time));
      var r := sorted[0];
      assert r in sorted;
      forall q | q in s.receipts
        ensures VisitTime(time)(q) <= VisitTime(time)(r)
      {
        assert q in sorted;
        var k :| 0 <= k < |sorted| && sorted[k] == q;
        assert k == 0 || VisitTime(time)(sorted[0]) >= VisitTime(time)(sorted[k]);
      }
      assert IsLatest(s.receipts, r, time);
    }
  }
}
