/**
 * The spending-trend card of a store page: the visit count, average,
 * highest and lowest spend, the chart rows, and the insight comparing the
 * last three visits with the earlier ones.
 *
 * Amounts are exact reals. The one place where the page divides by a value
 * that can be zero, the percentage change against an earlier average of 0,
 * gives the IEEE 754 results that `Doubles.Divide` spells out.
 */
module StoreTrend {
  import opened Seqs
  import opened Doubles

  datatype Entry = Entry(date: string, total: real)

  function Total(e: Entry): real { e.total }

  // ---------------------------------------------------------------------------
  // Stats

  /** `Math.max(...data.map((item) => item.total))` */
  function MaxTotal(data: seq<Entry>): (m: real)
    requires |data| > 0
    ensures forall e :: e in data ==> e.total <= m
    ensures exists e :: e in data && e.total == m
  {
    var last := data[|data| - 1];
    if |data| == 1 then last.total
    else
      var rest := MaxTotal(data[..|data| - 1]);
      assert forall e :: e in data ==> e in data[..|data| - 1] || e == last;
      if last.total > rest then last.total else rest
  }

  /** `Math.min(...data.map((item) => item.total))` */
  function MinTotal(data: seq<Entry>): (m: real)
    requires |data| > 0
    ensures forall e :: e in data ==> m <= e.total
    ensures exists e :: e in data && e.total == m
  {
    var last := data[|data| - 1];
    if |data| == 1 then last.total
    else
      var rest := MinTotal(data[..|data| - 1]);
      assert forall e :: e in data ==> e in data[..|data| - 1] || e == last;
      if last.total < rest then last.total else rest
  }

  datatype Stats = Stats(visits: nat, totalSpent: real, avgSpent: real, maxSpent: real, minSpent: real)

  /** The four figures over non-empty data. */
  function Summarize(data: seq<Entry>): Stats
    requires |data| > 0
  {
    var total := SumOf(data, Total);
    Stats(|data|, total, total / |data| as real, MaxTotal(data), MinTotal(data))
  }

  /** `n` copies of `x` added up, the product `n * x` without a multiplication. */
  function Copies(n: nat, x: real): real
  {
    if n == 0 then 0.0 else Copies(n - 1, x) + x
  }

  lemma {:induction false} CopiesIsProduct(n: nat, x: real)
    ensures Copies(n, x) == n as real * x
  {
    if n > 0 {
      CopiesIsProduct(n - 1, x);
      assert (n - 1) as real * x + x == n as real * x;
    }
  }

  /** A sum lies between the count times the lowest term and the count times the highest. */
  lemma {:induction false} SumBetween(data: seq<Entry>, lo: real, hi: real)
    requires forall e :: e in data ==> lo <= e.total <= hi
    ensures Copies(|data|, lo) <= SumOf(data, Total) <= Copies(|data|, hi)
  {
    if |data| > 0 {
      var init := data[..|data| - 1];
      assert forall e :: e in init ==> e in data;
      SumBetween(init, lo, hi);
      assert data[|data| - 1] in data;
    }
  }

  /** The lowest spend is at most the average, which is at most the highest. */
  lemma MinAvgMax(data: seq<Entry>)
    requires |data| > 0
    ensures var s := Summarize(data);
      s.minSpent <= s.avgSpent <= s.maxSpent
  {
    var s := Summarize(data);
    SumBetween(data, s.minSpent, s.maxSpent);
    Bounds(s.totalSpent, s.visits, s.minSpent, s.maxSpent);
  }

  lemma Bounds(total: real, n: nat, lo: real, hi: real)
    requires n > 0 && Copies(n, lo) <= total <= Copies(n, hi)
    ensures lo <= total / n as real <= hi
  {
    CopiesIsProduct(n, lo);
    CopiesIsProduct(n, hi);
    var m := n as real;
    var q := total / m;
    assert q * m == total;
    if q < lo {
      Positive(lo - q, m);
    }
    if q > hi {
      Positive(q - hi, m);
    }
  }

  lemma Positive(a: real, b: real)
    requires a > 0.0 && b > 0.0
    ensures a * b > 0.0
  {
  }

  // ---------------------------------------------------------------------------
  // Chart rows

  datatype ChartRow = ChartRow(date: string, total: real, displayDate: string)

  /** `data.map((item) => ({ ...item, displayDate: format(item.date) }))` */
  function ChartData(data: seq<Entry>, format: string -> string): (rows: seq<ChartRow>)
    ensures |rows| == |data|
    ensures forall i :: 0 <= i < |data| ==>
      rows[i].date == data[i].date && rows[i].total == data[i].total && rows[i].displayDate == format(data[i].date)
  {
    seq(|data|, i requires 0 <= i < |data| => ChartRow(data[i].date, data[i].total, format(data[i].date)))
  }

  datatype Card = Placeholder | Chart(stats: Stats, rows: seq<ChartRow>, insight: Insight)

  // ---------------------------------------------------------------------------
  // Trend insight

  /** `((recentAvg - earlierAvg) / earlierAvg) * 100` */
  function PercentChange(recentAvg: real, earlierAvg: real): Double
  {
    Times(Divide(recentAvg - earlierAvg, earlierAvg), 100.0)
  }

  /** `percentChange > 5` */
  predicate Above(c: Double) { c == PlusInfinity || (c.Finite? && c.value > 5.0) }
  /** `percentChange < -5` */
  predicate Below(c: Double) { c == MinusInfinity || (c.Finite? && c.value < -5.0) }

  datatype Insight = NoInsight | Rising(change: Double) | Falling(change: Double)

  function Average(entries: seq<Entry>): real
    requires |entries| > 0
  {
    SumOf(entries, Total) / |entries| as real
  }

  /** The last three visits against the ones before them, or the recent average when there are none. */
  function Averages(data: seq<Entry>): (real, real)
    requires |data| >= 3
  {
    var recent := data[|data| - 3..];
    var earlier := data[..|data| - 3];
    var recentAvg := Average(recent);
    (recentAvg, if |earlier| > 0 then Average(earlier) else recentAvg)
  }

  /** The insight shown under the chart. */
  function Trend(data: seq<Entry>): Insight
  {
    if |data| < 3 then NoInsight
    else
      var (recentAvg, earlierAvg) := Averages(data);
      var change := PercentChange(recentAvg, earlierAvg);
      if Above(change) then Rising(change)
      else if Below(change) then Falling(change)
      else NoInsight
  }

  /**
   * Fewer than three visits show no insight, nor do exactly three (the
   * earlier average is then the recent one); otherwise the trend rises
   * exactly when the change is above 5 percent and falls exactly when it is
   * below -5 percent.
   */
  lemma TrendFacts(data: seq<Entry>)
    ensures |data| <= 3 ==> Trend(data) == NoInsight
    ensures |data| >= 3 ==>
      var change := PercentChange(Averages(data).0, Averages(data).1);
      && (Trend(data).Rising? <==> Above(change))
      && (Trend(data).Falling? <==> Below(change))
  {
    if |data| == 3 {
      var (r, e) := Averages(data);
      assert e == r;
      if r != 0.0 {
        assert (r - e) / e * 100.0 == 0.0;
      }
    }
  }

  /** A rise and a fall never show together. */
  lemma RiseAndFallExclusive(c: Double)
    ensures !(Above(c) && Below(c))
  {
  }

  /**
   * Against a positive earlier average the trend rises exactly when the
   * recent average is more than 5 percent higher, and falls exactly when
   * it is more than 5 percent lower.
   */
  lemma TrendAgainstPositive(recentAvg: real, earlierAvg: real)
    requires earlierAvg > 0.0
    ensures Above(PercentChange(recentAvg, earlierAvg)) <==> recentAvg > earlierAvg * 1.05
    ensures Below(PercentChange(recentAvg, earlierAvg)) <==> recentAvg < earlierAvg * 0.95
  {
    var c := PercentChange(recentAvg, earlierAvg);
    var q := (recentAvg - earlierAvg) / earlierAvg;
    assert c == Finite(q * 100.0);
    assert Above(c) <==> q > 0.05;
    assert Below(c) <==> q < -0.05;
    Quotient(recentAvg - earlierAvg, earlierAvg, 0.05);
    Quotient(recentAvg - earlierAvg, earlierAvg, -0.05);
  }

  /** A quotient by a positive value lies above or below a bound exactly when the dividend does, scaled. */
  lemma Quotient(x: real, d: real, bound: real)
    requires d > 0.0
    ensures x / d > bound <==> x > bound * d
    ensures x / d < bound <==> x < bound * d
  {
    var q := x / d;
    assert q * d == x;
    Scale(q, bound, d);
  }

  /** Comparing a quotient with a bound is comparing the products, for a positive factor. */
  lemma Scale(q: real, bound: real, d: real)
    requires d > 0.0
    ensures q > bound <==> q * d > bound * d
    ensures q < bound <==> q * d < bound * d
  {
    if q > bound {
      Positive(q - bound, d);
    } else if q < bound {
      Positive(bound - q, d);
    }
  }

  /** Against an earlier average of 0 any recent spend reads as a rise, any refund as a fall. */
  lemma TrendAgainstZero(recentAvg: real)
    ensures Above(PercentChange(recentAvg, 0.0)) <==> recentAvg > 0.0
    ensures Below(PercentChange(recentAvg, 0.0)) <==> recentAvg < 0.0
  {
  }

  /** Empty data shows the placeholder only; otherwise the stats, the chart rows and the insight. */
  function Render(data: seq<Entry>, format: string -> string): (c: Card)
    ensures c.Placeholder? <==> |data| == 0
    ensures c.Chart? ==> c.rows == ChartData(data, format) && c.insight == Trend(data)
  {
    if |data| == 0 then Placeholder else Chart(Summarize(data), ChartData(data, format), Trend(data))
  }
}
