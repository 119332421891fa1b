/**
 * String primitives the application leans on: case mapping (ASCII letters),
 * JavaScript's whitespace set for `trim` and `\s`, `includes`, `startsWith`,
 * `split`/`join` on a string separator, and the `capitalizeWords` helper that
 * several components repeat.
 */
module Text {
  import opened Wrappers

  // ---------------------------------------------------------------------------
  // Characters

  /** `toLowerCase` on one character (ASCII letters only). */
  function LowerChar(c: char): (r: char)
    ensures !('A' <= r <= 'Z')
    ensures ('A' <= c <= 'Z') == (r != c)
  {
    if 'A' <= c <= 'Z' then (c as int + 32) as char else c
  }

  /** `toUpperCase` on one character (ASCII letters only). */
  function UpperChar(c: char): (r: char)
    ensures !('a' <= r <= 'z')
    ensures ('a' <= c <= 'z') == (r != c)
  {
    if 'a' <= c <= 'z' then (c as int - 32) as char else c
  }

  /**
   * The characters JavaScript's `trim` removes and the regular-expression
   * class `\s` matches (WhiteSpace and LineTerminator of ECMA-262).
   */
  predicate IsSpace(c: char)
  {
    || c == '\t' || c == '\n' || c == '\U{B}' || c == '\U{C}' || c == '\r'
    || c == ' ' || c == '\U{A0}' || c == '\U{1680}'
    || ('\U{2000}' <= c <= '\U{200A}')
    || c == '\U{2028}' || c == '\U{2029}' || c == '\U{202F}' || c == '\U{205F}'
    || c == '\U{3000}' || c == '\U{FEFF}'
  }

  /** The characters that end a line for the regular-expression `.` and `$`. */
  predicate IsLineTerminator(c: char)
  {
    c == '\n' || c == '\r' || c == '\U{2028}' || c == '\U{2029}'
  }

  // ---------------------------------------------------------------------------
  // Case mapping

  function Lower(s: string): (r: string)
    ensures |r| == |s|
    ensures forall i :: 0 <= i < |s| ==> r[i] == LowerChar(s[i])
  {
    seq(|s|, i requires 0 <= i < |s| => LowerChar(s[i]))
  }

  // ---------------------------------------------------------------------------
  // Trimming

  /** True when every character is whitespace (so `trim` yields ""). */
  predicate IsBlank(s: string)
  {
    forall i :: 0 <= i < |s| ==> IsSpace(s[i])
  }

  /** The index of the first non-whitespace character at or after `i`, or `|s|`. */
  function SkipSpaces(s: string, i: nat): (j: nat)
    requires i <= |s|
    ensures i <= j <= |s|
    ensures j < |s| ==> !IsSpace(s[j])
    ensures forall k :: i <= k < j ==> IsSpace(s[k])
    decreases |s| - i
  {
    if i == |s| || !IsSpace(s[i]) then i else SkipSpaces(s, i + 1)
  }

  /** The end of `s[lo..e]` once its trailing whitespace is dropped. */
  function DropTrailing(s: string, lo: nat, e: nat): (j: nat)
    requires lo <= e <= |s|
    ensures lo <= j <= e
    ensures j > lo ==> !IsSpace(s[j - 1])
    ensures lo < e && !IsSpace(s[lo]) ==> lo < j
    ensures forall k :: j <= k < e ==> IsSpace(s[k])
    decreases e
  {
    if e == lo || !IsSpace(s[e - 1]) then e else DropTrailing(s, lo, e - 1)
  }

  /** `trim`: both ends' whitespace removed, the middle kept as it is. */
  function Trim(s: string): (r: string)
    ensures |r| <= |s|
    ensures r == [] || (!IsSpace(r[0]) && !IsSpace(r[|r| - 1]))
    ensures exists a, b :: 0 <= a <= b <= |s| && r == s[a..b] && IsBlank(s[..a]) && IsBlank(s[b..])
  {
    var start := SkipSpaces(s, 0);
    var end := DropTrailing(s, start, |s|);
    assert IsBlank(s[..start]) && IsBlank(s[end..]);
    s[start..end]
  }

  lemma {:induction false} SkipSpacesBlank(s: string, i: nat)
    requires i <= |s|
    ensures SkipSpaces(s, i) == |s| <==> forall k :: i <= k < |s| ==> IsSpace(s[k])
    decreases |s| - i
  {
    if i < |s| && IsSpace(s[i]) {
      SkipSpacesBlank(s, i + 1);
    }
  }

  /** `trim` yields the empty text exactly for whitespace-only texts. */
  lemma TrimEmptyIffBlank(s: string)
    ensures Trim(s) == [] <==> IsBlank(s)
  {
    SkipSpacesBlank(s, 0);
  }

  /** A text with no whitespace at either end is its own trim. */
  lemma TrimOfTrimmed(s: string)
    requires s == [] || (!IsSpace(s[0]) && !IsSpace(s[|s| - 1]))
    ensures Trim(s) == s
  {
  }

  // ---------------------------------------------------------------------------
  // Searching

  /** `startsWith` */
  predicate StartsWith(s: string, prefix: string)
  {
    prefix <= s
  }

  /** `t` occurs in `s` starting at position `j`. */
  predicate OccursAt(s: string, t: string, j: int)
  {
    0 <= j <= |s| && t <= s[j..]
  }

  lemma OccursAtShift(s: string, t: string, j: int)
    requires |s| > 0 && 0 <= j
    ensures OccursAt(s[1..], t, j) <==> OccursAt(s, t, j + 1)
  {
    if j <= |s| - 1 {
      assert s[1..][j..] == s[j + 1..];
    }
  }

  lemma OccursAtPrefix(s: string, t: string, i: int, j: int)
    requires 0 <= j && j + |t| <= i <= |s|
    ensures OccursAt(s[..i], t, j) <==> OccursAt(s, t, j)
  {
    assert s[..i][j..][..|t|] == s[j..][..|t|];
  }

  /** The first position at which `t` occurs in `s` (`indexOf`). */
  function IndexOf(s: string, t: string): (r: Option<nat>)
    ensures r.Some? ==> OccursAt(s, t, r.value) && r.value + |t| <= |s|
    ensures r.Some? ==> forall j :: 0 <= j < r.value ==> !OccursAt(s, t, j)
    ensures r.None? ==> forall j :: !OccursAt(s, t, j)
    decreases |s|
  {
    if |t| > |s| then None
    else if t <= s then Some(0)
    else
      var rest := IndexOf(s[1..], t);
      assert forall j :: 0 <= j ==> (OccursAt(s[1..], t, j) <==> OccursAt(s, t, j + 1)) by {
        forall j | 0 <= j ensures OccursAt(s[1..], t, j) <==> OccursAt(s, t, j + 1) {
          OccursAtShift(s, t, j);
        }
      }
      assert !OccursAt(s, t, 0);
      match rest
      case None =>
        assert forall j :: !OccursAt(s, t, j) by {
          forall j ensures !OccursAt(s, t, j) {
            if j >= 1 { assert !OccursAt(s[1..], t, j - 1); }
          }
        }
        None
      case Some(i) =>
        assert forall j :: 0 <= j < i + 1 ==> !OccursAt(s, t, j) by {
          forall j | 0 <= j < i + 1 ensures !OccursAt(s, t, j) {
            if j >= 1 { assert !OccursAt(s[1..], t, j - 1); }
          }
        }
        Some(i + 1)
  }

  /** A first occurrence is what `IndexOf` finds. */
  lemma IndexOfFirst(s: string, t: string, k: nat)
    requires OccursAt(s, t, k)
    requires forall j :: 0 <= j < k ==> !OccursAt(s, t, j)
    ensures IndexOf(s, t) == Some(k)
  {
  }

  /** `includes` */
  predicate Contains(s: string, t: string)
  {
    IndexOf(s, t).Some?
  }

  lemma ContainsAt(s: string, t: string, k: nat)
    requires OccursAt(s, t, k)
    ensures Contains(s, t)
  {
  }

  lemma ContainsEmpty(s: string)
    ensures Contains(s, [])
  {
    assert OccursAt(s, [], 0);
  }

  /** Every text contains itself. */
  lemma ContainsSelf(s: string)
    ensures Contains(s, s)
  {
    assert OccursAt(s, s, 0);
  }

  /** No occurrence in the part of `s` before its first occurrence. */
  lemma NotContainsBeforeFirst(s: string, t: string, i: nat)
    requires |t| > 0 && IndexOf(s, t) == Some(i)
    ensures !Contains(s[..i], t)
  {
    forall j | 0 <= j ensures !OccursAt(s[..i], t, j) {
      if j + |t| <= i {
        OccursAtPrefix(s, t, i, j);
      } else if j <= i {
        assert |s[..i][j..]| < |t|;
      }
    }
  }

  // ---------------------------------------------------------------------------
  // Splitting and joining

  /** `s.split(sep)` for a non-empty separator: cut at each leftmost occurrence. */
  function Split(s: string, sep: string): (r: seq<string>)
    requires |sep| > 0
    ensures |r| >= 1
    ensures forall k :: 0 <= k < |r| ==> !Contains(r[k], sep)
    decreases |s|
  {
    match IndexOf(s, sep)
    case None => [s]
    case Some(i) =>
      NotContainsBeforeFirst(s, sep, i);
      [s[..i]] + Split(s[i + |sep|..], sep)
  }

  /** `parts.join(sep)` */
  function Join(parts: seq<string>, sep: string): string
  {
    if |parts| == 0 then []
    else if |parts| == 1 then parts[0]
    else parts[0] + sep + Join(parts[1..], sep)
  }

  /** Joining the pieces of a split with the same separator gives the text back. */
  lemma {:induction false} JoinSplit(s: string, sep: string)
    requires |sep| > 0
    ensures Join(Split(s, sep), sep) == s
    decreases |s|
  {
    match IndexOf(s, sep)
    case None =>
    case Some(i) =>
      var rest := s[i + |sep|..];
      JoinSplit(rest, sep);
      assert s == s[..i] + sep + rest;
  }

  /**
   * The second piece of a split: present exactly when the separator occurs,
   * and then the text after its first occurrence up to the next one.
   */
  lemma SplitSecond(s: string, sep: string)
    requires |sep| > 0
    ensures |Split(s, sep)| > 1 <==> Contains(s, sep)
    ensures |Split(s, sep)| > 1 ==>
      var rest := s[IndexOf(s, sep).value + |sep|..];
      && Split(s, sep)[1] <= rest
      && (!Contains(rest, sep) ==> Split(s, sep)[1] == rest)
  {
    SplitUnfold(s, sep);
    if IndexOf(s, sep).Some? {
      SplitSecondAt(s, sep);
      SplitHead(s[IndexOf(s, sep).value + |sep|..], sep);
    }
  }

  /** `SplitSecond` once the separator is known to occur. */
  lemma SplitSecondAt(s: string, sep: string)
    requires |sep| > 0 && IndexOf(s, sep).Some?
    ensures |Split(s, sep)| > 1
    ensures Split(s, sep)[1] == Split(s[IndexOf(s, sep).value + |sep|..], sep)[0]
  {
    SplitUnfold(s, sep);
  }

  /** One step of `Split`, for a caller that knows where the separator first occurs. */
  lemma SplitUnfold(s: string, sep: string)
    requires |sep| > 0
    ensures IndexOf(s, sep).None? ==> Split(s, sep) == [s]
    ensures IndexOf(s, sep).Some? ==>
      var i := IndexOf(s, sep).value;
      Split(s, sep) == [s[..i]] + Split(s[i + |sep|..], sep)
  {
  }

  /** The first piece of a split is a prefix, the whole text when the separator is absent. */
  lemma SplitHead(s: string, sep: string)
    requires |sep| > 0
    ensures Split(s, sep)[0] <= s
    ensures !Contains(s, sep) ==> Split(s, sep)[0] == s
  {
  }

  /** After the first occurrence, the pieces are those of the rest. */
  lemma SplitTail(s: string, sep: string)
    requires |sep| > 0 && IndexOf(s, sep).Some?
    ensures Split(s, sep)[1..] == Split(s[IndexOf(s, sep).value + |sep|..], sep)
  {
  }

  /** A text that starts with the separator splits into "" and the rest's pieces. */
  lemma SplitAtFront(s: string, sep: string)
    requires |sep| > 0 && sep <= s
    ensures Split(s, sep) == [[]] + Split(s[|sep|..], sep)
  {
    assert IndexOf(s, sep) == Some(0);
  }

  /** A text without the separator splits into itself alone. */
  lemma SplitWithout(s: string, sep: string)
    requires |sep| > 0 && !Contains(s, sep)
    ensures Split(s, sep) == [s]
  {
  }

  // ---------------------------------------------------------------------------
  // capitalizeWords

  /** `word.charAt(0).toUpperCase() + word.slice(1)` */
  function UpperFirst(w: string): (r: string)
  {
    if w == [] then [] else [UpperChar(w[0])] + w[1..]
  }

  function MapUpperFirst(ws: seq<string>): (r: seq<string>)
    ensures |r| == |ws|
    ensures forall k :: 0 <= k < |ws| ==> r[k] == UpperFirst(ws[k])
  {
    seq(|ws|, k requires 0 <= k < |ws| => UpperFirst(ws[k]))
  }

  /**
   * `str.toLowerCase().split(' ').map(upper-case the first char).join(' ')`,
   * the helper of the top-items, autocomplete, edit-item and
   * price-comparison components.
   */
  function CapitalizeWords(s: string): string
  {
    Join(MapUpperFirst(Split(Lower(s), " ")), " ")
  }

  /**
   * The variant that first maps a missing or empty text to "" (the
   * `if (!str) return ''` guard of the edit-item and price-comparison copies).
   */
  function CapitalizeOrEmpty(s: Option<string>): (r: string)
    ensures s.None? || s == Some("") ==> r == ""
    ensures s.Some? ==> |r| == |s.value|
    ensures s.Some? && s.value != "" ==> r == CapitalizeWords(s.value)
  {
    match s
    case None => ""
    case Some(t) => CapitalizeWordsLength(t); if t == "" then "" else CapitalizeWords(t)
  }

  /** Whether position `i` of `s` starts a word (it is first or follows a space). */
  predicate WordStart(s: string, i: int)
    requires 0 <= i < |s|
  {
    i == 0 || s[i - 1] == ' '
  }

  /**
   * Character-by-character description of capitalizeWords: a character that
   * starts a word is lower-cased then upper-cased, every other is lower-cased.
   */
  function CapitalizeCharwise(s: string): (r: string)
  {
    seq(|s|, i requires 0 <= i < |s| =>
      if WordStart(s, i) then UpperChar(LowerChar(s[i])) else LowerChar(s[i]))
  }

  /** The same rule on an already lower-cased text: upper-case each word start. */
  function UpperWordStarts(t: string): (r: string)
    ensures |r| == |t|
  {
    seq(|t|, i requires 0 <= i < |t| => if WordStart(t, i) then UpperChar(t[i]) else t[i])
  }

  /** Before the first occurrence of a one-character text there is no such character. */
  lemma NoCharBefore(t: string, c: char, i: int)
    requires IndexOf(t, [c]).Some? ==> i <= IndexOf(t, [c]).value
    requires 0 <= i <= |t|
    ensures forall j :: 0 <= j < i ==> t[j] != c
  {
    forall j | 0 <= j < i ensures t[j] != c {
      assert !OccursAt(t, [c], j);
    }
  }

  lemma UpperWordStartsOneWord(t: string)
    requires forall j :: 0 <= j < |t| ==> t[j] != ' '
    ensures UpperWordStarts(t) == UpperFirst(t)
  {
  }

  lemma UpperWordStartsAtSpace(t: string, i: int)
    requires 0 <= i < |t| && t[i] == ' '
    requires forall j :: 0 <= j < i ==> t[j] != ' '
    ensures UpperWordStarts(t) == UpperFirst(t[..i]) + " " + UpperWordStarts(t[i + 1..])
  {
    var lhs := UpperFirst(t[..i]) + " " + UpperWordStarts(t[i + 1..]);
    assert |lhs| == |t|;
    forall j | 0 <= j < |t| ensures lhs[j] == UpperWordStarts(t)[j] {
      if j > i {
        assert lhs[j] == UpperWordStarts(t[i + 1..])[j - i - 1];
      }
    }
  }

  lemma JoinMapCons(head: string, parts: seq<string>)
    requires |parts| >= 1
    ensures Join(MapUpperFirst([head] + parts), " ")
         == UpperFirst(head) + " " + Join(MapUpperFirst(parts), " ")
  {
    assert MapUpperFirst([head] + parts)[1..] == MapUpperFirst(parts);
  }

  lemma {:induction false} JoinCapitalizedSplit(t: string)
    ensures Join(MapUpperFirst(Split(t, " ")), " ") == UpperWordStarts(t)
    decreases |t|
  {
    match IndexOf(t, " ")
    case None =>
      NoCharBefore(t, ' ', |t|);
      UpperWordStartsOneWord(t);
    case Some(i) =>
      NoCharBefore(t, ' ', i);
      assert t[i] == ' ' by { assert OccursAt(t, " ", i); }
      JoinCapitalizedSplit(t[i + 1..]);
      JoinMapCons(t[..i], Split(t[i + 1..], " "));
      UpperWordStartsAtSpace(t, i);
  }

  /** capitalizeWords agrees with its character-by-character description. */
  lemma CapitalizeWordsCharwise(s: string)
    ensures CapitalizeWords(s) == CapitalizeCharwise(s)
  {
    var t := Lower(s);
    JoinCapitalizedSplit(t);
    assert forall i :: 0 <= i < |s| ==> (t[i] == ' ' <==> s[i] == ' ');
    assert UpperWordStarts(t) == CapitalizeCharwise(s);
  }

  /** capitalizeWords keeps the length of its input. */
  lemma CapitalizeWordsLength(s: string)
    ensures |CapitalizeWords(s)| == |s|
  {
    CapitalizeWordsCharwise(s);
  }

  /** capitalizeWords keeps every space where it was, and adds none. */
  lemma CapitalizeWordsSpaces(s: string)
    ensures |CapitalizeWords(s)| == |s|
    ensures forall i :: 0 <= i < |s| ==> (CapitalizeWords(s)[i] == ' ' <==> s[i] == ' ')
  {
    CapitalizeWordsCharwise(s);
    forall i | 0 <= i < |s| ensures CapitalizeWords(s)[i] == ' ' <==> s[i] == ' ' {
      CaseCharFacts(s[i]);
    }
  }

  lemma CaseCharFacts(c: char)
    ensures LowerChar(LowerChar(c)) == LowerChar(c)
    ensures UpperChar(LowerChar(UpperChar(LowerChar(c)))) == UpperChar(LowerChar(c))
    ensures LowerChar(c) == ' ' <==> c == ' '
    ensures UpperChar(LowerChar(c)) == ' ' <==> c == ' '
  {
  }

  lemma CapitalizeCharwiseIdempotent(s: string)
    ensures CapitalizeCharwise(CapitalizeCharwise(s)) == CapitalizeCharwise(s)
  {
    var r := CapitalizeCharwise(s);
    forall i | 0 <= i < |s| ensures CapitalizeCharwise(r)[i] == r[i] {
      CaseCharFacts(s[i]);
      if i > 0 {
        CaseCharFacts(s[i - 1]);
      }
    }
  }

  /** Applying capitalizeWords twice is the same as applying it once. */
  lemma CapitalizeWordsIdempotent(s: string)
    ensures CapitalizeWords(CapitalizeWords(s)) == CapitalizeWords(s)
  {
    CapitalizeWordsCharwise(s);
    CapitalizeWordsCharwise(CapitalizeWords(s));
    CapitalizeCharwiseIdempotent(s);
  }

  /** The number of occurrences of character `c` in `s`. */
  function CountChar(s: string, c: char): nat
  {
    if s == [] then 0 else (if s[0] == c then 1 else 0) + CountChar(s[1..], c)
  }

  lemma {:induction false} CountCharAppend(a: string, b: string, c: char)
    ensures CountChar(a + b, c) == CountChar(a, c) + CountChar(b, c)
  {
    if a != [] {
      assert (a + b)[1..] == a[1..] + b;
      CountCharAppend(a[1..], b, c);
    } else {
      assert a + b == b;
    }
  }

  /** Splitting on one character gives one more piece than it has occurrences. */
  lemma {:induction false} SplitCharCount(s: string, c: char)
    ensures |Split(s, [c])| == CountChar(s, c) + 1
    decreases |s|
  {
    match IndexOf(s, [c])
    case None =>
      assert CountChar(s, c) == 0 by { NoCharNoCount(s, c); }
    case Some(i) =>
      SplitCharCount(s[i + 1..], c);
      assert s == s[..i] + [c] + s[i + 1..];
      CountCharAppend(s[..i] + [c], s[i + 1..], c);
      CountCharAppend(s[..i], [c], c);
      NotContainsBeforeFirst(s, [c], i);
      NoCharNoCount(s[..i], c);
  }

  lemma {:induction false} NoCharNoCount(s: string, c: char)
    requires !Contains(s, [c])
    ensures CountChar(s, c) == 0
    decreases |s|
  {
    if s != [] {
      assert !OccursAt(s, [c], 0);
      assert !Contains(s[1..], [c]) by {
        forall j | 0 <= j ensures !OccursAt(s[1..], [c], j) {
          OccursAtShift(s, [c], j);
        }
      }
      NoCharNoCount(s[1..], c);
    }
  }

  lemma {:induction false} SameSpacesSameCount(a: string, b: string)
    requires |a| == |b|
    requires forall i :: 0 <= i < |a| ==> (a[i] == ' ' <==> b[i] == ' ')
    ensures CountChar(a, ' ') == CountChar(b, ' ')
  {
    if a != [] {
      SameSpacesSameCount(a[1..], b[1..]);
    }
  }

  /** capitalizeWords keeps the number of space-separated words. */
  lemma CapitalizeWordsWordCount(s: string)
    ensures |Split(CapitalizeWords(s), " ")| == |Split(s, " ")|
  {
    CapitalizeWordsSpaces(s);
    SameSpacesSameCount(CapitalizeWords(s), s);
    SplitCharCount(CapitalizeWords(s), ' ');
    SplitCharCount(s, ' ');
  }
}
