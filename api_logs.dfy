/**
 * The admin API-logs page: who may see it, the summary figures over the
 * fetched logs, and the response preview in each row. `parseFloat` is the
 * parameter `parse`, with `None` for NaN.
 */
module ApiLogs {
  import opened Wrappers
  import opened Seqs

  /** The fields of an `api_logs` row the page reads. */
  datatype ApiLog = ApiLog(
    estimated_cost: string,
    total_tokens: Option<nat>,
    parsing_successful: bool,
    was_truncated: bool,
    response_text: Option<string>)

  // ---------------------------------------------------------------------------
  // Access

  datatype Gate = ToLogin | ToDashboard | ShowLogs

  /** No user goes to the login page, a user who is not an admin to the dashboard. */
  function Access(signedIn: bool, isAdmin: bool): (g: Gate)
    ensures g == ShowLogs <==> signedIn && isAdmin
    ensures g == ToLogin <==> !signedIn
  {
    if !signedIn then ToLogin
    else if !isAdmin then ToDashboard
    else ShowLogs
  }

  // ---------------------------------------------------------------------------
  // Summary figures

  /** `parseFloat(log.estimated_cost) || 0` */
  function Cost(parse: string -> Option<real>): ApiLog -> real
  {
    (l: ApiLog) => parse(l.estimated_cost).GetOr(0.0)
  }

  /** `log.total_tokens || 0` */
  function Tokens(l: ApiLog): real { l.total_tokens.GetOr(0) as real }

  function Succeeded(l: ApiLog): bool { l.parsing_successful }
  function Failed(l: ApiLog): bool { !l.parsing_successful }
  function Truncated(l: ApiLog): bool { l.was_truncated }

  datatype Totals = Totals(
    totalCalls: nat,
    totalCost: real,
    totalTokens: real,
    successCount: nat,
    failureCount: nat,
    truncatedCount: nat)

  function Summarize(logs: seq<ApiLog>, parse: string -> Option<real>): Totals
  {
    Totals(
      |logs|,
      SumOf(logs, Cost(parse)),
      SumOf(logs, Tokens),
      |Filter(logs, Succeeded)|,
      |Filter(logs, Failed)|,
      |Filter(logs, Truncated)|)
  }

  /**
   * Every call counts once as a success or a failure, the truncated calls
   * are among the calls, and no call adds a negative token count.
   */
  lemma SummarizeFacts(logs: seq<ApiLog>, parse: string -> Option<real>)
    ensures var t := Summarize(logs, parse);
      && t.successCount + t.failureCount == t.totalCalls
      && t.truncatedCount <= t.totalCalls
      && t.totalTokens >= 0.0
  {
    FilterSplits(logs, Succeeded, Failed);
    SumOfNonNegative(logs, Tokens);
  }

  /** Logs without a parsable cost, or without tokens, add nothing to those totals. */
  lemma MissingValuesCountZero(log: ApiLog, parse: string -> Option<real>)
    ensures parse(log.estimated_cost).None? ==> Cost(parse)(log) == 0.0
    ensures log.total_tokens.None? ==> Tokens(log) == 0.0
    ensures SumOf([log], Tokens) == Tokens(log)
  {
    assert [log][..0] == [];
  }

  /** `logs.length ? (successCount / logs.length) * 100 : 0` */
  function SuccessRate(successCount: nat, calls: nat): real
  {
    if calls > 0 then (successCount as real / calls as real) * 100.0 else 0.0
  }

  /**
   * The rate is zero without calls; otherwise it is the share of successes
   * in percent, between 0 and 100, and 100 exactly when every call succeeded.
   */
  lemma SuccessRateFacts(logs: seq<ApiLog>, parse: string -> Option<real>)
    ensures var t := Summarize(logs, parse);
      var rate := SuccessRate(t.successCount, t.totalCalls);
      && (t.totalCalls == 0 ==> rate == 0.0)
      && (t.totalCalls > 0 ==> rate * t.totalCalls as real == t.successCount as real * 100.0)
      && 0.0 <= rate <= 100.0
      && (t.totalCalls > 0 ==> (rate == 100.0 <==> t.failureCount == 0))
  {
    var t := Summarize(logs, parse);
    SummarizeFacts(logs, parse);
    if t.totalCalls > 0 {
      var n := t.totalCalls as real;
      var s := t.successCount as real;
      RateBounds(s, n);
    }
  }

  lemma RateBounds(s: real, n: real)
    requires 0.0 <= s <= n && n > 0.0
    ensures (s / n) * 100.0 * n == s * 100.0
    ensures 0.0 <= (s / n) * 100.0 <= 100.0
    ensures (s / n) * 100.0 == 100.0 <==> s == n
  {
    var q := s / n;
    assert q * n == s;
    if q > 1.0 {
      ProductPositive(q - 1.0, n);
      assert false;
    }
    if s == n && q < 1.0 {
      ProductPositive(1.0 - q, n);
      assert false;
    }
  }

  lemma ProductPositive(a: real, b: real)
    requires a > 0.0 && b > 0.0
    ensures a * b > 0.0
  {
  }

  // ---------------------------------------------------------------------------
  // Response preview

  const PreviewLength: nat := 1000

  /**
   * `log.response_text?.substring(0, 1000)` followed by `'...'` when the
   * text is longer than 1000 characters.
   */
  function Preview(text: Option<string>): string
  {
    match text
    case None => ""
    case Some(t) => Take(t, PreviewLength) + (if |t| > PreviewLength then "..." else "")
  }

  /**
   * The preview starts with the text's first 1000 characters, shows a
   * short text whole, and ends in '...' exactly when the text is longer.
   */
  lemma PreviewFacts(t: string)
    ensures var p := Preview(Some(t));
      && (|t| <= PreviewLength ==> p == t)
      && (|t| > PreviewLength ==> p == t[..PreviewLength] + "...")
      && |p| <= PreviewLength + 3
      && (|p| == PreviewLength + 3 <==> |t| > PreviewLength)
  {
  }

  /** No text shows nothing. */
  lemma PreviewNone()
    ensures Preview(None) == ""
  {
  }
}
