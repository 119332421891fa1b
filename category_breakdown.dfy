/**
 * The category card of a store page: each category's display label, its
 * share of the store's total in percent, and its colour from a palette of
 * nine that repeats.
 *
 * Amounts are exact reals. A share is a division by the total; when the
 * total is 0 the page divides by zero and shows the IEEE 754 result that
 * `Doubles.Divide` spells out: "Infinity", "-Infinity" or "NaN".
 */
module CategoryBreakdown {
  import opened Seqs
  import opened Text
  import opened Doubles

  datatype Entry = Entry(category: string, total: real)

  function Total(e: Entry): real { e.total }

  /** The palette, in order. */
  const Colors: seq<string> := [
    "#3b82f6", "#10b981", "#f59e0b", "#ef4444", "#8b5cf6",
    "#ec4899", "#14b8a6", "#f97316", "#6366f1"]

  // ---------------------------------------------------------------------------
  // Labels

  /** The first position of `c` in `s`, or `|s|` when there is none. */
  function FirstAt(s: string, c: char): (k: nat)
    ensures k <= |s|
    ensures k < |s| ==> s[k] == c
    ensures forall i :: 0 <= i < k ==> s[i] != c
  {
    if |s| == 0 then 0
    else if s[0] == c then 0
    else 1 + FirstAt(s[1..], c)
  }

  /** `s.replace(a, b)` with a one-character pattern: only the first `a` becomes `b`. */
  function ReplaceFirst(s: string, a: char, b: char): (r: string)
    ensures |r| == |s|
    ensures forall i :: 0 <= i < |s| ==> r[i] == (if i == FirstAt(s, a) then b else s[i])
  {
    if |s| == 0 then ""
    else if s[0] == a then [b] + s[1..]
    else [s[0]] + ReplaceFirst(s[1..], a, b)
  }

  /** `category.charAt(0).toUpperCase() + category.slice(1).replace('-', ' ')` */
  function Label(category: string): string
  {
    if |category| == 0 then "" else [UpperChar(category[0])] + ReplaceFirst(category[1..], '-', ' ')
  }

  /**
   * A label is as long as its category; its first character is the
   * category's, upper-cased; after it only the first '-' becomes a space
   * and every other character, later dashes included, stays.
   */
  lemma LabelFacts(category: string)
    ensures |Label(category)| == |category|
    ensures |category| > 0 ==> Label(category)[0] == UpperChar(category[0])
    ensures |category| > 0 ==>
      var k := 1 + FirstAt(category[1..], '-');
      && (k < |category| ==> Label(category)[k] == ' ' && category[k] == '-')
      && (forall i :: 1 <= i < |category| && i != k ==> Label(category)[i] == category[i])
  {
    if |category| > 0 {
      var rest := category[1..];
      var r := ReplaceFirst(rest, '-', ' ');
      assert Label(category) == [UpperChar(category[0])] + r;
      forall i | 1 <= i < |category|
        ensures Label(category)[i] == r[i - 1]
      {
      }
    }
  }

  /** A category without a '-' only gets its first letter upper-cased. */
  lemma LabelWithoutDash(category: string)
    requires |category| > 0
    requires forall i :: 0 <= i < |category| ==> category[i] != '-'
    ensures Label(category) == [UpperChar(category[0])] + category[1..]
  {
    var rest := category[1..];
    assert FirstAt(rest, '-') == |rest|;
    assert ReplaceFirst(rest, '-', ' ') == rest;
  }

  // ---------------------------------------------------------------------------
  // Shares and colours

  /** `(cat.total / total) * 100` */
  function Share(total: real): Entry -> Double
  {
    (e: Entry) => Times(Divide(e.total, total), 100.0)
  }

  function Percent(total: real): Entry -> real
    requires total != 0.0
  {
    (e: Entry) => e.total / total * 100.0
  }

  /** Row `i` takes `COLORS[i % COLORS.length]`, in the pie and in the list alike. */
  function ColorAt(i: nat): (c: string)
    ensures c in Colors
  {
    Colors[i % |Colors|]
  }

  /** Colours repeat every nine rows, and nine rows in a row never share one. */
  lemma ColorFacts(i: nat, j: nat)
    ensures ColorAt(i + 9) == ColorAt(i)
    ensures i < j < i + 9 ==> ColorAt(i) != ColorAt(j)
  {
    assert (i + 9) % 9 == i % 9;
    if i < j < i + 9 {
      assert i % 9 != j % 9;
    }
  }

  // ---------------------------------------------------------------------------
  // The card

  datatype Row = Row(category: string, total: real, name: string, color: string, share: Double)

  datatype Card = Placeholder | Breakdown(rows: seq<Row>, total: real)

  function RowAt(data: seq<Entry>, total: real, i: nat): Row
    requires i < |data|
  {
    Row(data[i].category, data[i].total, Label(data[i].category), ColorAt(i), Share(total)(data[i]))
  }

  /** Empty data shows the placeholder only; otherwise one row per entry, in order. */
  function Render(data: seq<Entry>): (c: Card)
    ensures c.Placeholder? <==> |data| == 0
    ensures c.Breakdown? ==> |c.rows| == |data| && c.total == SumOf(data, Total)
    ensures c.Breakdown? ==> forall i :: 0 <= i < |data| ==>
      && c.rows[i].category == data[i].category
      && c.rows[i].total == data[i].total
      && c.rows[i].name == Label(data[i].category)
      && c.rows[i].color == ColorAt(i)
  {
    if |data| == 0 then Placeholder
    else
      var total := SumOf(data, Total);
      Breakdown(seq(|data|, i requires 0 <= i < |data| => RowAt(data, total, i)), total)
  }

  /** Each percentage is the entry's part of the whole. */
  lemma {:induction false} PercentSum(data: seq<Entry>, total: real)
    requires total != 0.0
    ensures SumOf(data, Percent(total)) == SumOf(data, Total) / total * 100.0
  {
    if |data| > 0 {
      var init := data[..|data| - 1];
      PercentSum(init, total);
      DivAdd(SumOf(init, Total), data[|data| - 1].total, total);
    }
  }

  lemma DivAdd(a: real, b: real, d: real)
    requires d != 0.0
    ensures a / d * 100.0 + b / d * 100.0 == (a + b) / d * 100.0
  {
  }

  /**
   * With a non-zero total every row shows a share, and the shares add up
   * to 100 percent.
   */
  lemma SharesSumTo100(data: seq<Entry>)
    requires |data| > 0 && SumOf(data, Total) != 0.0
    ensures var c := Render(data);
      && (forall i :: 0 <= i < |c.rows| ==> c.rows[i].share == Finite(Percent(c.total)(data[i])))
      && SumOf(data, Percent(c.total)) == 100.0
  {
    var total := SumOf(data, Total);
    var c := Render(data);
    forall i | 0 <= i < |c.rows| ensures c.rows[i].share == Finite(Percent(c.total)(data[i])) {
      assert c.rows[i] == RowAt(data, total, i);
    }
    PercentSum(data, total);
    WholeIs100(total);
  }

  lemma WholeIs100(total: real)
    requires total != 0.0
    ensures total / total * 100.0 == 100.0
  {
  }

  /**
   * With a total of 0 every share divides by zero: a positive entry shows
   * +Infinity, a negative one -Infinity, and an entry of 0 NaN.
   */
  lemma ZeroTotalShares(data: seq<Entry>)
    requires |data| > 0 && SumOf(data, Total) == 0.0
    ensures var c := Render(data);
      forall i :: 0 <= i < |c.rows| ==>
        && (c.rows[i].share == PlusInfinity <==> data[i].total > 0.0)
        && (c.rows[i].share == MinusInfinity <==> data[i].total < 0.0)
        && (c.rows[i].share == NaN <==> data[i].total == 0.0)
  {
    var c := Render(data);
    forall i | 0 <= i < |c.rows|
      ensures c.rows[i].share == Share(0.0)(data[i])
    {
      assert c.rows[i] == RowAt(data, 0.0, i);
    }
  }
}
