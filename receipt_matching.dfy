/**
 * The historical match enhancer: fuzzy matching of a parsed receipt line
 * against the user's earlier items, and back-filling of the fields the parser
 * left empty.
 */
module ReceiptMatching {
  import opened Wrappers
  import opened Text

  /** An earlier item consulted for matching; every field may be null. */
  datatype MatchCandidate = MatchCandidate(
    generic_name: Option<string>,
    brand: Option<string>,
    variant: Option<string>,
    size: Option<string>,
    unit: Option<string>,
    category: Option<string>)

  /** A line item as the parser produced it. */
  datatype ParsedItem = ParsedItem(
    receipt_text: string,
    item_name: string,
    brand: Option<string>,
    generic_name: Option<string>,
    variant: Option<string>,
    size: Option<string>,
    unit: Option<string>,
    category: Option<string>)

  /** JavaScript truthiness of a `string | null` field. */
  predicate Present(f: Option<string>)
  {
    f.Some? && f.value != ""
  }

  /** `a || b` on two `string | null` fields. */
  function Or(a: Option<string>, b: Option<string>): (r: Option<string>)
    ensures Present(a) ==> r == a
    ensures !Present(a) ==> r == b
  {
    if Present(a) then a else b
  }

  // ---------------------------------------------------------------------------
  // Edit distance

  function Min3(x: nat, y: nat, z: nat): (m: nat)
    ensures m <= x && m <= y && m <= z
    ensures m == x || m == y || m == z
  {
    if x <= y && x <= z then x else if y <= z then y else z
  }

  /**
   * Unit-cost Levenshtein distance (insert, delete, substitute), defined
   * recursively on the last characters of the two texts.
   */
  function EditDistance(a: string, b: string): nat
    decreases |a| + |b|
  {
    if |a| == 0 then |b|
    else if |b| == 0 then |a|
    else if a[|a| - 1] == b[|b| - 1] then EditDistance(a[..|a| - 1], b[..|b| - 1])
    else 1 + Min3(EditDistance(a[..|a| - 1], b[..|b| - 1]),
                  EditDistance(a, b[..|b| - 1]),
                  EditDistance(a[..|a| - 1], b))
  }

  /** Distance to the empty text is the other text's length. */
  lemma EditDistanceEmpty(a: string)
    ensures EditDistance(a, "") == |a| && EditDistance("", a) == |a|
  {
  }

  lemma {:induction false} EditDistanceSymmetric(a: string, b: string)
    ensures EditDistance(a, b) == EditDistance(b, a)
    decreases |a| + |b|
  {
    if |a| > 0 && |b| > 0 {
      EditDistanceSymmetric(a[..|a| - 1], b[..|b| - 1]);
      EditDistanceSymmetric(a, b[..|b| - 1]);
      EditDistanceSymmetric(a[..|a| - 1], b);
    }
  }

  /** The distance never exceeds the longer text's length. */
  lemma {:induction false} EditDistanceUpperBound(a: string, b: string)
    ensures EditDistance(a, b) <= if |a| >= |b| then |a| else |b|
    decreases |a| + |b|
  {
    if |a| > 0 && |b| > 0 {
      EditDistanceUpperBound(a[..|a| - 1], b[..|b| - 1]);
    }
  }

  /** The distance is at least the difference of the lengths. */
  lemma {:induction false} EditDistanceLowerBound(a: string, b: string)
    ensures EditDistance(a, b) >= |a| - |b| && EditDistance(a, b) >= |b| - |a|
    decreases |a| + |b|
  {
    if |a| > 0 && |b| > 0 {
      EditDistanceLowerBound(a[..|a| - 1], b[..|b| - 1]);
      EditDistanceLowerBound(a, b[..|b| - 1]);
      EditDistanceLowerBound(a[..|a| - 1], b);
    }
  }

  /** The distance is zero exactly when the texts are equal. */
  lemma {:induction false} EditDistanceZeroIffEqual(a: string, b: string)
    ensures EditDistance(a, b) == 0 <==> a == b
    decreases |a| + |b|
  {
    if |a| > 0 && |b| > 0 {
      EditDistanceZeroIffEqual(a[..|a| - 1], b[..|b| - 1]);
      assert a == a[..|a| - 1] + [a[|a| - 1]];
      assert b == b[..|b| - 1] + [b[|b| - 1]];
    }
  }

  /** The recurrence the matrix fills in, stated on prefixes. */
  lemma EditDistancePrefixStep(a: string, b: string, i: nat, j: nat)
    requires 0 < i <= |a| && 0 < j <= |b|
    ensures EditDistance(a[..i], b[..j]) ==
      if a[i - 1] == b[j - 1] then EditDistance(a[..i - 1], b[..j - 1])
      else 1 + Min3(EditDistance(a[..i - 1], b[..j - 1]),
                    EditDistance(a[..i], b[..j - 1]),
                    EditDistance(a[..i - 1], b[..j]))
  {
    assert a[..i][..i - 1] == a[..i - 1];
    assert b[..j][..j - 1] == b[..j - 1];
  }

  /**
   * `levenshteinDistance(str1, str2)`: fills the (|str2|+1) x (|str1|+1)
   * matrix row by row and returns its bottom-right cell.
   */
  method LevenshteinDistance(str1: string, str2: string) returns (d: nat)
    ensures d == EditDistance(str2, str1)
  {
    var matrix := new nat[|str2| + 1, |str1| + 1];
    for i := 0 to |str2| + 1
      invariant forall r :: 0 <= r < i ==> matrix[r, 0] == r
    {
      matrix[i, 0] := i;
    }
    for j := 0 to |str1| + 1
      invariant forall c :: 0 <= c < j ==> matrix[0, c] == c
      invariant forall r :: 1 <= r <= |str2| ==> matrix[r, 0] == r
    {
      matrix[0, j] := j;
    }
    for i := 1 to |str2| + 1
      invariant forall r, c :: 0 <= r < i && 0 <= c <= |str1| ==>
        matrix[r, c] == EditDistance(str2[..r], str1[..c])
      invariant forall r :: i <= r <= |str2| ==> matrix[r, 0] == r
    {
      FillRow(matrix, str2, str1, i);
    }
    assert str2[..|str2|] == str2 && str1[..|str1|] == str1;
    d := matrix[|str2|, |str1|];
  }

  /** One row of the matrix: row `i` from row `i - 1` and the cell to the left. */
  method FillRow(matrix: array2<nat>, str2: string, str1: string, i: nat)
    requires matrix.Length0 == |str2| + 1 && matrix.Length1 == |str1| + 1 && 1 <= i <= |str2|
    requires forall c :: 0 <= c <= |str1| ==> matrix[i - 1, c] == EditDistance(str2[..i - 1], str1[..c])
    requires matrix[i, 0] == i
    modifies matrix
    ensures forall c :: 0 <= c <= |str1| ==> matrix[i, c] == EditDistance(str2[..i], str1[..c])
    ensures forall r, c :: 0 <= r < matrix.Length0 && 0 <= c < matrix.Length1 && r != i ==>
      matrix[r, c] == old(matrix[r, c])
  {
    EditDistanceEmpty(str2[..i]);
    for j := 1 to |str1| + 1
      invariant forall c :: 0 <= c < j ==> matrix[i, c] == EditDistance(str2[..i], str1[..c])
      invariant forall r, c :: 0 <= r < matrix.Length0 && 0 <= c < matrix.Length1 && r != i ==>
        matrix[r, c] == old(matrix[r, c])
    {
      var v;
      if str2[i - 1] == str1[j - 1] {
        v := matrix[i - 1, j - 1];
      } else {
        v := Min3(matrix[i - 1, j - 1] + 1, matrix[i, j - 1] + 1, matrix[i - 1, j] + 1);
      }
      assert v == EditDistance(str2[..i], str1[..j]) by {
        EditDistancePrefixStep(str2, str1, i, j);
      }
      matrix[i, j] := v;
    }
  }

  // ---------------------------------------------------------------------------
  // Similarity

  /** The texts `calculateSimilarity` compares: lower-cased, then trimmed. */
  function Normalize(s: string): string
  {
    Trim(Lower(s))
  }

  /** `(longer.length - editDistance) / longer.length` */
  function EditRatio(longer: string, shorter: string): (r: real)
    requires 0 < |longer| && |shorter| <= |longer|
    ensures 0.0 <= r <= 1.0
  {
    var d := EditDistance(shorter, longer);
    EditDistanceUpperBound(shorter, longer);
    RatioBounds(|longer| - d, |longer|);
    (|longer| - d) as real / |longer| as real
  }

  lemma RatioBounds(x: int, y: int)
    requires 0 <= x <= y && y > 0
    ensures 0.0 <= x as real / y as real <= 1.0
    ensures x as real / y as real == 1.0 <==> x == y
  {
    var q := x as real / y as real;
    assert q * y as real == x as real;
  }

  /**
   * `calculateSimilarity`: 1.0 for equal normalized texts, 0.8 when one
   * contains the other, otherwise (L - d) / L with L the longer length and
   * d the edit distance.
   */
  function Similarity(str1: string, str2: string): (score: real)
    ensures 0.0 <= score <= 1.0
  {
    NormalizedSimilarity(Normalize(str1), Normalize(str2))
  }

  /** The body of `calculateSimilarity` after the two texts are normalized. */
  function NormalizedSimilarity(s1: string, s2: string): (score: real)
    ensures 0.0 <= score <= 1.0
  {
    if s1 == s2 then 1.0
    else if Contains(s1, s2) || Contains(s2, s1) then 0.8
    else if |s1| > |s2| then EditRatio(s1, s2)
    else if |s2| == 0 then 1.0
    else EditRatio(s2, s1)
  }

  /** `calculateSimilarity` as the source computes it, through the matrix. */
  method CalculateSimilarity(str1: string, str2: string) returns (score: real)
    ensures score == Similarity(str1, str2)
  {
    var s1 := Normalize(str1);
    var s2 := Normalize(str2);
    score := CompareNormalized(s1, s2);
  }

  /** The steps of `calculateSimilarity` after both texts are normalized. */
  method CompareNormalized(s1: string, s2: string) returns (score: real)
    ensures score == NormalizedSimilarity(s1, s2)
  {
    if s1 == s2 {
      return 1.0;
    }
    if Contains(s1, s2) || Contains(s2, s1) {
      return 0.8;
    }
    var longer := if |s1| > |s2| then s1 else s2;
    var shorter := if |s1| > |s2| then s2 else s1;
    if |longer| == 0 {
      return 1.0;
    }
    var editDistance := LevenshteinDistance(longer, shorter);
    score := (|longer| - editDistance) as real / |longer| as real;
  }

  lemma {:induction false} SimilaritySymmetric(a: string, b: string)
    ensures Similarity(a, b) == Similarity(b, a)
  {
    NormalizedSimilaritySymmetric(Normalize(a), Normalize(b));
  }

  lemma NormalizedSimilaritySymmetric(s1: string, s2: string)
    ensures NormalizedSimilarity(s1, s2) == NormalizedSimilarity(s2, s1)
  {
    if s1 != s2 && |s1| == |s2| && |s1| > 0 {
      EditDistanceSymmetric(s1, s2);
      assert EditRatio(s1, s2) == EditRatio(s2, s1);
    }
  }

  /** Texts equal after lower-casing and trimming score exactly 1. */
  lemma {:induction false} SimilarityOneIffSameNormalized(a: string, b: string)
    ensures Similarity(a, b) == 1.0 <==> Normalize(a) == Normalize(b)
  {
    NormalizedSimilarityOne(Normalize(a), Normalize(b));
  }

  lemma NormalizedSimilarityOne(s1: string, s2: string)
    ensures NormalizedSimilarity(s1, s2) == 1.0 <==> s1 == s2
  {
    if s1 != s2 && !(Contains(s1, s2) || Contains(s2, s1)) {
      var longer := if |s1| > |s2| then s1 else s2;
      var shorter := if |s1| > |s2| then s2 else s1;
      if |longer| > 0 {
        EditDistanceZeroIffEqual(shorter, longer);
        EditDistanceUpperBound(shorter, longer);
        RatioBounds(|longer| - EditDistance(shorter, longer), |longer|);
      }
    }
  }

  /** A whitespace-only text scores 0.8 against any text that is not blank. */
  lemma SimilarityBlankText(blank: string, other: string)
    requires IsBlank(Lower(blank)) && !IsBlank(Lower(other))
    ensures Similarity(blank, other) == 0.8
  {
    TrimEmptyIffBlank(Lower(blank));
    TrimEmptyIffBlank(Lower(other));
    ContainsEmpty(Normalize(other));
  }

  // ---------------------------------------------------------------------------
  // Best match

  /** The acceptance threshold of `findBestMatch`. */
  const Threshold: real := 0.7

  /** `item.generic_name || item.brand || item.variant || ''` */
  function CompareText(c: MatchCandidate): (t: string)
    ensures t != "" <==> Present(c.generic_name) || Present(c.brand) || Present(c.variant)
  {
    if Present(c.generic_name) then c.generic_name.value
    else if Present(c.brand) then c.brand.value
    else if Present(c.variant) then c.variant.value
    else ""
  }

  /**
   * A similarity measure between a receipt text and a comparison text. The
   * selection and enhancement rules below are stated for any measure; the
   * source uses `Similarity`.
   */
  type Measure = (string, string) -> real

  /** The score `findBestMatch` computes for one candidate. */
  function Score(text: string, c: MatchCandidate): real
  {
    Similarity(text, CompareText(c))
  }

  /** A candidate that has something to compare and reaches the threshold. */
  predicate Qualifies(sim: Measure, text: string, c: MatchCandidate)
  {
    CompareText(c) != "" && sim(text, CompareText(c)) >= Threshold
  }

  /** Entry `k` is eligible and its score reaches the threshold. */
  predicate Accepts(scores: seq<real>, eligible: seq<bool>, k: int)
    requires |scores| == |eligible|
  {
    0 <= k < |scores| && eligible[k] && scores[k] >= Threshold
  }

  /**
   * The index of the first entry with the highest score among the accepted
   * ones, or None when no entry is accepted.
   */
  function FirstBest(scores: seq<real>, eligible: seq<bool>): (r: Option<nat>)
    requires |scores| == |eligible|
    ensures r.Some? ==> Accepts(scores, eligible, r.value)
    ensures r.Some? ==> forall k :: Accepts(scores, eligible, k) ==> scores[k] <= scores[r.value]
    ensures r.Some? ==> forall k :: 0 <= k < r.value && Accepts(scores, eligible, k) ==> scores[k] < scores[r.value]
    ensures r.None? <==> forall k :: !Accepts(scores, eligible, k)
    decreases |scores|
  {
    if |scores| == 0 then None
    else
      var n := |scores| - 1;
      var prev := FirstBest(scores[..n], eligible[..n]);
      assert forall k :: Accepts(scores[..n], eligible[..n], k) <==> k < n && Accepts(scores, eligible, k);
      if Accepts(scores, eligible, n) && (prev.None? || scores[n] > scores[prev.value])
      then Some(n)
      else prev
  }

  /** The score of one candidate; candidates with nothing to compare are not scored. */
  function ScoreBy(sim: Measure, text: string, c: MatchCandidate): real
  {
    if CompareText(c) == "" then 0.0 else sim(text, CompareText(c))
  }

  /** The scores of all candidates against one receipt text, in order. */
  function ScoresBy(sim: Measure, text: string, cands: seq<MatchCandidate>): (r: seq<real>)
    ensures |r| == |cands|
    ensures forall k :: 0 <= k < |cands| ==> r[k] == ScoreBy(sim, text, cands[k])
  {
    seq(|cands|, k requires 0 <= k < |cands| => ScoreBy(sim, text, cands[k]))
  }

  /** Which candidates have a non-empty comparison text. */
  function Comparable(cands: seq<MatchCandidate>): (r: seq<bool>)
    ensures |r| == |cands|
    ensures forall k :: 0 <= k < |cands| ==> r[k] == (CompareText(cands[k]) != "")
  {
    seq(|cands|, k requires 0 <= k < |cands| => CompareText(cands[k]) != "")
  }

  /** What `findBestMatch` returns, as a function of the measure. */
  function BestMatchBy(sim: Measure, text: string, cands: seq<MatchCandidate>): (r: Option<MatchCandidate>)
    ensures text == "" || cands == [] ==> r == None
  {
    if text == "" || |cands| == 0 then None
    else
      match FirstBest(ScoresBy(sim, text, cands), Comparable(cands))
      case None => None
      case Some(i) => Some(cands[i])
  }

  /**
   * The match is a candidate that qualifies and scores at least as high as
   * every qualifying candidate, and strictly higher than every qualifying
   * candidate before it; no match means that no candidate qualifies.
   */
  lemma BestMatchIsBest(sim: Measure, text: string, cands: seq<MatchCandidate>)
    requires text != ""
    ensures BestMatchBy(sim, text, cands).Some? ==>
      exists i :: 0 <= i < |cands| && BestMatchBy(sim, text, cands) == Some(cands[i])
        && Qualifies(sim, text, cands[i])
        && (forall k :: 0 <= k < |cands| && Qualifies(sim, text, cands[k]) ==>
              sim(text, CompareText(cands[k])) <= sim(text, CompareText(cands[i])))
        && (forall k :: 0 <= k < i && Qualifies(sim, text, cands[k]) ==>
              sim(text, CompareText(cands[k])) < sim(text, CompareText(cands[i])))
    ensures BestMatchBy(sim, text, cands).None? ==>
      forall k :: 0 <= k < |cands| ==> !Qualifies(sim, text, cands[k])
  {
    if |cands| > 0 {
      var scores, eligible := ScoresBy(sim, text, cands), Comparable(cands);
      assert forall k :: 0 <= k < |cands| ==> (Qualifies(sim, text, cands[k]) <==> Accepts(scores, eligible, k));
    }
  }

  /** With the source's measure: the match is a best-scoring qualifying candidate. */
  lemma FindBestMatchPicksHighest(text: string, cands: seq<MatchCandidate>, c: MatchCandidate)
    requires text != "" && c in cands && CompareText(c) != ""
    ensures BestMatchBy(Similarity, text, cands).None? ==> Score(text, c) < Threshold
    ensures BestMatchBy(Similarity, text, cands).Some? ==>
      Score(text, c) >= Threshold ==> Score(text, c) <= Score(text, BestMatchBy(Similarity, text, cands).value)
  {
    BestMatchIsBest(Similarity, text, cands);
  }

  /** Scoring one more candidate appends its score. */
  lemma ScoresBySnoc(sim: Measure, text: string, cands: seq<MatchCandidate>, i: nat)
    requires i < |cands|
    ensures ScoresBy(sim, text, cands[..i + 1]) == ScoresBy(sim, text, cands[..i]) + [ScoreBy(sim, text, cands[i])]
  {
  }

  lemma ComparableSnoc(cands: seq<MatchCandidate>, i: nat)
    requires i < |cands|
    ensures Comparable(cands[..i + 1]) == Comparable(cands[..i]) + [CompareText(cands[i]) != ""]
  {
    assert forall k :: 0 <= k < i ==> cands[..i + 1][k] == cands[..i][k];
  }

  /** Extending the entries by one keeps the best unless the new one beats it. */
  lemma FirstBestSnoc(scores: seq<real>, eligible: seq<bool>, s: real, e: bool)
    requires |scores| == |eligible|
    ensures FirstBest(scores + [s], eligible + [e]) ==
      var prev := FirstBest(scores, eligible);
      if e && s >= Threshold && (prev.None? || s > scores[prev.value]) then Some(|scores|) else prev
  {
    assert (scores + [s])[..|scores|] == scores;
    assert (eligible + [e])[..|scores|] == eligible;
  }

  /**
   * `findBestMatch`: one pass over the candidates keeping a running best;
   * a candidate replaces it when its score is strictly higher and at least
   * the threshold.
   */
  method FindBestMatch(receiptText: string, historicalItems: seq<MatchCandidate>)
    returns (bestMatch: Option<MatchCandidate>)
    ensures bestMatch == BestMatchBy(Similarity, receiptText, historicalItems)
  {
    if receiptText == "" || |historicalItems| == 0 {
      return None;
    }
    bestMatch := None;
    var bestScore := 0.0;
    ghost var seen: seq<real> := [];
    ghost var bestIndex: Option<nat> := None;
    for i := 0 to |historicalItems|
      invariant seen == ScoresBy(Similarity, receiptText, historicalItems[..i])
      invariant bestIndex == FirstBest(seen, Comparable(historicalItems[..i]))
      invariant bestIndex.None? ==> bestMatch == None && bestScore == 0.0
      invariant bestIndex.Some? ==>
        && bestIndex.value < i
        && bestMatch == Some(historicalItems[bestIndex.value])
        && bestScore == seen[bestIndex.value]
        && bestScore >= Threshold
    {
      ScoresBySnoc(Similarity, receiptText, historicalItems, i);
      ComparableSnoc(historicalItems, i);
      var item := historicalItems[i];
      var compareText := CompareText(item);
      if compareText == "" {
        FirstBestSnoc(seen, Comparable(historicalItems[..i]), 0.0, false);
        seen := seen + [0.0];
        continue;
      }
      var score := CalculateSimilarity(receiptText, compareText);
      FirstBestSnoc(seen, Comparable(historicalItems[..i]), score, true);
      if score > bestScore && score >= 0.7 {
        bestScore := score;
        bestMatch := Some(item);
        bestIndex := Some(i);
      }
      seen := seen + [score];
    }
    assert historicalItems[..|historicalItems|] == historicalItems;
  }

  // ---------------------------------------------------------------------------
  // Enhancement

  /** `!generic_name || !brand || !size || !unit` */
  predicate NeedsEnhancement(item: ParsedItem)
  {
    !Present(item.generic_name) || !Present(item.brand) || !Present(item.size) || !Present(item.unit)
  }

  /** `willEnhance`: some field the item lacks is present in the match. */
  predicate WillEnhance(item: ParsedItem, m: MatchCandidate)
  {
    || (!Present(item.generic_name) && Present(m.generic_name))
    || (!Present(item.brand) && Present(m.brand))
    || (!Present(item.variant) && Present(m.variant))
    || (!Present(item.size) && Present(m.size))
    || (!Present(item.unit) && Present(m.unit))
    || (!Present(item.category) && Present(m.category))
  }

  /** The merge `{...item, field: item.field || match.field, ...}`. */
  function Merge(item: ParsedItem, m: MatchCandidate): ParsedItem
  {
    item.(generic_name := Or(item.generic_name, m.generic_name),
          brand := Or(item.brand, m.brand),
          variant := Or(item.variant, m.variant),
          size := Or(item.size, m.size),
          unit := Or(item.unit, m.unit),
          category := Or(item.category, m.category))
  }

  /** The match looked up for an item, when the item is looked up at all. */
  function MatchFor(sim: Measure, item: ParsedItem, cands: seq<MatchCandidate>): Option<MatchCandidate>
  {
    if !NeedsEnhancement(item) || item.receipt_text == "" then None
    else BestMatchBy(sim, item.receipt_text, cands)
  }

  /** A present field of `before` is kept, for every field the merge touches. */
  predicate KeepsPresentFields(before: ParsedItem, after: ParsedItem)
  {
    && (Present(before.generic_name) ==> after.generic_name == before.generic_name)
    && (Present(before.brand) ==> after.brand == before.brand)
    && (Present(before.variant) ==> after.variant == before.variant)
    && (Present(before.size) ==> after.size == before.size)
    && (Present(before.unit) ==> after.unit == before.unit)
    && (Present(before.category) ==> after.category == before.category)
  }

  /** A field missing in `before` holds the match's value in `after`, for every field the merge touches. */
  predicate TakesMissingFrom(before: ParsedItem, after: ParsedItem, m: MatchCandidate)
  {
    && (!Present(before.generic_name) ==> after.generic_name == m.generic_name)
    && (!Present(before.brand) ==> after.brand == m.brand)
    && (!Present(before.variant) ==> after.variant == m.variant)
    && (!Present(before.size) ==> after.size == m.size)
    && (!Present(before.unit) ==> after.unit == m.unit)
    && (!Present(before.category) ==> after.category == m.category)
  }

  /** Some field missing in `before` has a non-empty value in `after`. */
  predicate GainedField(before: ParsedItem, after: ParsedItem)
  {
    || (!Present(before.generic_name) && Present(after.generic_name))
    || (!Present(before.brand) && Present(after.brand))
    || (!Present(before.variant) && Present(after.variant))
    || (!Present(before.size) && Present(after.size))
    || (!Present(before.unit) && Present(after.unit))
    || (!Present(before.category) && Present(after.category))
  }

  /** The callback of `parsedItems.map` in `enhanceWithMatches`. */
  function EnhanceItem(sim: Measure, item: ParsedItem, cands: seq<MatchCandidate>): (r: ParsedItem)
    ensures r.receipt_text == item.receipt_text && r.item_name == item.item_name
    ensures KeepsPresentFields(item, r)
    ensures !NeedsEnhancement(item) || item.receipt_text == "" ==> r == item
    ensures MatchFor(sim, item, cands).None? ==> r == item
    ensures MatchFor(sim, item, cands).Some? ==> TakesMissingFrom(item, r, MatchFor(sim, item, cands).value)
  {
    match MatchFor(sim, item, cands)
    case None => item
    case Some(m) => Merge(item, m)
  }

  /** The items `enhanceWithMatches` returns. */
  function EnhanceAll(sim: Measure, items: seq<ParsedItem>, cands: seq<MatchCandidate>): (r: seq<ParsedItem>)
    ensures |r| == |items|
    ensures forall i :: 0 <= i < |items| ==> r[i] == EnhanceItem(sim, items[i], cands)
  {
    seq(|items|, i requires 0 <= i < |items| => EnhanceItem(sim, items[i], cands))
  }

  lemma EnhanceAllSnoc(sim: Measure, items: seq<ParsedItem>, cands: seq<MatchCandidate>, i: nat)
    requires i < |items|
    ensures EnhanceAll(sim, items[..i + 1], cands) == EnhanceAll(sim, items[..i], cands) + [EnhanceItem(sim, items[i], cands)]
  {
  }

  /** Whether `enhanceWithMatches` counts this item. */
  predicate IsEnhanced(sim: Measure, item: ParsedItem, cands: seq<MatchCandidate>)
  {
    MatchFor(sim, item, cands).Some? && WillEnhance(item, MatchFor(sim, item, cands).value)
  }

  function CountEnhanced(sim: Measure, items: seq<ParsedItem>, cands: seq<MatchCandidate>): nat
  {
    if items == [] then 0
    else CountEnhanced(sim, items[..|items| - 1], cands) + (if IsEnhanced(sim, items[|items| - 1], cands) then 1 else 0)
  }

  /** An item is counted exactly when some missing field gains a non-empty value. */
  lemma IsEnhancedIffGained(sim: Measure, item: ParsedItem, cands: seq<MatchCandidate>)
    ensures IsEnhanced(sim, item, cands) <==> GainedField(item, EnhanceItem(sim, item, cands))
  {
  }

  lemma {:induction false} CountEnhancedBound(sim: Measure, items: seq<ParsedItem>, cands: seq<MatchCandidate>)
    ensures CountEnhanced(sim, items, cands) <= |items|
  {
    if items != [] {
      CountEnhancedBound(sim, items[..|items| - 1], cands);
    }
  }

  lemma CountEnhancedSnoc(sim: Measure, items: seq<ParsedItem>, cands: seq<MatchCandidate>, i: nat)
    requires i < |items|
    ensures CountEnhanced(sim, items[..i + 1], cands) ==
      CountEnhanced(sim, items[..i], cands) + (if IsEnhanced(sim, items[i], cands) then 1 else 0)
  {
    assert items[..i + 1][..i] == items[..i];
  }

  /** Items that already have every key field are returned as they are and never counted. */
  lemma {:induction false} CompleteItemsUntouched(sim: Measure, items: seq<ParsedItem>, cands: seq<MatchCandidate>)
    requires forall i :: 0 <= i < |items| ==> !NeedsEnhancement(items[i])
    ensures CountEnhanced(sim, items, cands) == 0
    ensures forall i :: 0 <= i < |items| ==> EnhanceItem(sim, items[i], cands) == items[i]
  {
    if items != [] {
      CompleteItemsUntouched(sim, items[..|items| - 1], cands);
    }
  }

  /**
   * `enhanceWithMatches`: maps every item through the enhancement and counts
   * the items that gained data.
   */
  method EnhanceWithMatches(parsedItems: seq<ParsedItem>, historicalItems: seq<MatchCandidate>)
    returns (items: seq<ParsedItem>, enhancedCount: nat)
    ensures items == EnhanceAll(Similarity, parsedItems, historicalItems)
    ensures enhancedCount == CountEnhanced(Similarity, parsedItems, historicalItems)
    ensures enhancedCount <= |parsedItems|
  {
    enhancedCount := 0;
    items := [];
    for i := 0 to |parsedItems|
      invariant items == EnhanceAll(Similarity, parsedItems[..i], historicalItems)
      invariant enhancedCount == CountEnhanced(Similarity, parsedItems[..i], historicalItems)
    {
      CountEnhancedSnoc(Similarity, parsedItems, historicalItems, i);
      EnhanceAllSnoc(Similarity, parsedItems, historicalItems, i);
      var item := parsedItems[i];
      var needsEnhancement := !Present(item.generic_name) || !Present(item.brand)
        || !Present(item.size) || !Present(item.unit);
      var enhanced := item;
      if needsEnhancement && item.receipt_text != "" {
        var found := FindBestMatch(item.receipt_text, historicalItems);
        if found.Some? {
          if WillEnhance(item, found.value) {
            enhancedCount := enhancedCount + 1;
          }
          enhanced := Merge(item, found.value);
        }
      }
      items := items + [enhanced];
    }
    assert parsedItems[..|parsedItems|] == parsedItems;
    CountEnhancedBound(Similarity, parsedItems, historicalItems);
  }
}
