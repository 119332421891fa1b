/**
 * The clean-up the receipt-parse route applies to the model's reply before
 * handing it to `JSON.parse`: five global regular-expression replacements
 * and a trim, each written here as a left-to-right scan.
 */
module ParseCleanup {
  import opened Wrappers
  import opened Text

  // ---------------------------------------------------------------------------
  // Code fences: `/```json\n?/g` and `/```\n?/g`, both replaced by ''

  /** Every occurrence of `fence`, with at most one newline after it, removed. */
  function StripFence(s: string, fence: string): (r: string)
    requires |fence| > 0
    ensures |r| <= |s|
    decreases |s|
  {
    if |s| == 0 then []
    else if fence <= s then
      var rest := s[|fence|..];
      if |rest| > 0 && rest[0] == '\n' then StripFence(rest[1..], fence) else StripFence(rest, fence)
    else [s[0]] + StripFence(s[1..], fence)
  }

  /** A text without the fence's first character passes through unchanged. */
  lemma {:induction false} StripFenceUntouched(s: string, fence: string)
    requires |fence| > 0
    requires forall i :: 0 <= i < |s| ==> s[i] != fence[0]
    ensures StripFence(s, fence) == s
    decreases |s|
  {
    if |s| > 0 {
      StripFenceUntouched(s[1..], fence);
    }
  }

  /** A text that does not start with the fence keeps its first character. */
  lemma StripFenceKeeps(s: string, fence: string)
    requires |fence| > 0 && |s| > 0 && !(fence <= s)
    ensures StripFence(s, fence) == [s[0]] + StripFence(s[1..], fence)
  {
  }

  /**
   * Text in front of which no fence starts (counting fences that run on
   * into the rest) is kept as it is, in front of the cleaned rest.
   */
  lemma {:induction false} StripFenceKeepsPrefix(a: string, x: string, fence: string)
    requires |fence| > 0
    requires forall j :: 0 <= j < |a| ==> !OccursAt(a + x, fence, j)
    ensures StripFence(a + x, fence) == a + StripFence(x, fence)
    decreases |a|
  {
    if |a| > 0 {
      assert !OccursAt(a + x, fence, 0);
      assert (a + x)[1..] == a[1..] + x;
      forall j | 0 <= j < |a| - 1
        ensures !OccursAt(a[1..] + x, fence, j)
      {
        OccursAtShift(a + x, fence, j);
      }
      StripFenceKeepsPrefix(a[1..], x, fence);
      StripFenceKeeps(a + x, fence);
      ConsAppend(a, StripFence(x, fence));
    } else {
      assert a + x == x;
    }
  }

  /** `b` without one leading newline, the `\n?` after a fence. */
  function DropNewline(b: string): (r: string)
    ensures r == b || (|b| > 0 && b[0] == '\n' && r == b[1..])
  {
    if |b| > 0 && b[0] == '\n' then b[1..] else b
  }

  /**
   * A fence is removed together with at most one newline after it: the text
   * before the first fence stays, and the text after it is cleaned in turn.
   */
  lemma StripFenceDrops(a: string, b: string, fence: string)
    requires |fence| > 0
    requires forall j :: 0 <= j < |a| ==> !OccursAt(a + (fence + b), fence, j)
    ensures StripFence(a + (fence + b), fence) == a + StripFence(DropNewline(b), fence)
  {
    StripFenceKeepsPrefix(a, fence + b, fence);
    assert (fence + b)[|fence|..] == b;
  }

  const Backticks: string := "```"

  /** Three backticks at the front, character by character. */
  lemma BackticksAtFront(s: string)
    ensures OccursAt(s, Backticks, 0) <==> |s| >= 3 && s[0] == '`' && s[1] == '`' && s[2] == '`'
  {
    if |s| >= 3 && s[0] == '`' && s[1] == '`' && s[2] == '`' {
      assert s[..3] == Backticks;
    }
  }

  lemma StripBackticksHead(u: string)
    ensures |StripFence(u, Backticks)| > 0 && StripFence(u, Backticks)[0] == '`' ==> |u| > 0 && u[0] == '`'
  {
  }

  lemma StripBackticksHead2(u: string)
    ensures var out := StripFence(u, Backticks);
      |out| > 1 && out[0] == '`' && out[1] == '`' ==> |u| > 1 && u[0] == '`' && u[1] == '`'
  {
    if |u| > 0 && !(Backticks <= u) {
      StripBackticksHead(u[1..]);
    }
  }

  /** No run of three backticks survives the second fence pass. */
  lemma {:induction false} NoBackticksAfterStrip(s: string)
    ensures forall j :: !OccursAt(StripFence(s, Backticks), Backticks, j)
    decreases |s|
  {
    if |s| > 0 {
      if Backticks <= s {
        var rest := s[3..];
        if |rest| > 0 && rest[0] == '\n' {
          NoBackticksAfterStrip(rest[1..]);
        } else {
          NoBackticksAfterStrip(rest);
        }
      } else {
        var r, tail := StripFence(s, Backticks), StripFence(s[1..], Backticks);
        NoBackticksAfterStrip(s[1..]);
        assert r == [s[0]] + tail;
        forall j | 0 <= j
          ensures !OccursAt(r, Backticks, j)
        {
          if j == 0 {
            BackticksAtFront(r);
            BackticksAtFront(s);
            StripBackticksHead2(s[1..]);
          } else {
            assert r[1..] == tail;
            OccursAtShift(r, Backticks, j - 1);
          }
        }
      }
    }
  }

  /** The fence passes: first "```json", then "```", then `trim`. */
  function StripFences(content: string): string
  {
    Trim(StripFence(StripFence(content, "```json"), Backticks))
  }

  /** After the fence passes the text holds no "```" anywhere. */
  lemma StripFencesLeavesNoFence(content: string)
    ensures !Contains(StripFence(StripFence(content, "```json"), Backticks), Backticks)
  {
    NoBackticksAfterStrip(StripFence(content, "```json"));
  }

  // ---------------------------------------------------------------------------
  // Line comments: `/\/\/.*$/gm` replaced by ''

  /** The index of the first line terminator at or after `i`, or `|s|`. */
  function LineEnd(s: string, i: nat): (e: nat)
    requires i <= |s|
    ensures i <= e <= |s|
    ensures e < |s| ==> IsLineTerminator(s[e])
    ensures forall k :: i <= k < e ==> !IsLineTerminator(s[k])
    decreases |s| - i
  {
    if i == |s| || IsLineTerminator(s[i]) then i else LineEnd(s, i + 1)
  }

  /** Every `//` up to, not including, the end of its line removed. */
  function StripLineComments(s: string): (r: string)
    ensures |r| <= |s|
    decreases |s|
  {
    if |s| == 0 then []
    else if "//" <= s then StripLineComments(s[LineEnd(s, 2)..])
    else [s[0]] + StripLineComments(s[1..])
  }

  /** Two slashes at the front, character by character. */
  lemma SlashesAtFront(s: string)
    ensures OccursAt(s, "//", 0) <==> |s| >= 2 && s[0] == '/' && s[1] == '/'
  {
    if |s| >= 2 && s[0] == '/' && s[1] == '/' {
      assert s[..2] == "//";
    }
  }

  lemma StripLineCommentsHead(u: string)
    ensures var out := StripLineComments(u);
      |out| > 0 && out[0] == '/' ==> |u| > 0 && u[0] == '/' && (|u| == 1 || u[1] != '/')
  {
    SlashesAtFront(u);
    if |u| > 0 && "//" <= u {
      var e := LineEnd(u, 2);
      if e < |u| {
        SlashesAtFront(u[e..]);
        assert StripLineComments(u[e..]) == [u[e]] + StripLineComments(u[e + 1..]);
      }
    }
  }

  /** No `//` survives: the removal deletes every line comment, URLs included. */
  lemma {:induction false} NoSlashesAfterStrip(s: string)
    ensures forall j :: !OccursAt(StripLineComments(s), "//", j)
    decreases |s|
  {
    if |s| > 0 {
      if "//" <= s {
        NoSlashesAfterStrip(s[LineEnd(s, 2)..]);
      } else {
        var r, tail := StripLineComments(s), StripLineComments(s[1..]);
        NoSlashesAfterStrip(s[1..]);
        assert r == [s[0]] + tail;
        forall j | 0 <= j
          ensures !OccursAt(r, "//", j)
        {
          if j == 0 {
            SlashesAtFront(r);
            SlashesAtFront(s);
            StripLineCommentsHead(s[1..]);
          } else {
            assert r[1..] == tail;
            OccursAtShift(r, "//", j - 1);
          }
        }
      }
    }
  }

  /** A text without `//` passes through unchanged. */
  lemma {:induction false} StripLineCommentsUntouched(s: string)
    requires forall j :: !OccursAt(s, "//", j)
    ensures StripLineComments(s) == s
    decreases |s|
  {
    if |s| > 0 {
      assert !OccursAt(s, "//", 0);
      forall j | 0 <= j ensures !OccursAt(s[1..], "//", j) {
        OccursAtShift(s, "//", j);
      }
      StripLineCommentsUntouched(s[1..]);
    }
  }

  /**
   * On one line, everything from the first `//` on is dropped and everything
   * before it is kept.
   */
  lemma {:induction false} StripLineCommentsOneLine(s: string, i: nat)
    requires forall k :: 0 <= k < |s| ==> !IsLineTerminator(s[k])
    requires OccursAt(s, "//", i)
    requires forall j :: 0 <= j < i ==> !OccursAt(s, "//", j)
    ensures StripLineComments(s) == s[..i]
    decreases i
  {
    if i == 0 {
      assert LineEnd(s, 2) == |s|;
    } else {
      assert !OccursAt(s, "//", 0);
      forall j | 0 <= j < i - 1 ensures !OccursAt(s[1..], "//", j) {
        OccursAtShift(s, "//", j);
      }
      OccursAtShift(s, "//", i - 1);
      StripLineCommentsOneLine(s[1..], i - 1);
      assert s[..i] == [s[0]] + s[1..][..i - 1];
    }
  }

  /**
   * No two-character opener `o` starts inside `a`, whatever text follows
   * it: no first character of `o` in `a` is followed by the second one or
   * by the end of `a`.
   */
  predicate OpensNowhere(a: string, o: string)
    requires |o| == 2
  {
    forall j :: 0 <= j < |a| && a[j] == o[0] ==> j + 1 < |a| && a[j + 1] != o[1]
  }

  lemma OpensNowhereTail(a: string, o: string)
    requires |a| > 0 && |o| == 2 && OpensNowhere(a, o)
    ensures OpensNowhere(a[1..], o)
  {
    forall j | 0 <= j < |a| - 1 && a[1..][j] == o[0]
      ensures j + 1 < |a| - 1 && a[1..][j + 1] != o[1]
    {
      assert a[j + 1] == o[0];
    }
  }

  /** A text `a + x` does not start with `o` when no `o` opens inside `a`. */
  lemma OpensNowhereFront(a: string, x: string, o: string)
    requires |a| > 0 && |o| == 2 && OpensNowhere(a, o)
    ensures !(o <= a + x)
  {
    if a[0] == o[0] {
      assert (a + x)[1] == a[1];
    }
  }

  lemma ConsAppend(a: string, r: string)
    requires |a| > 0
    ensures [a[0]] + (a[1..] + r) == a + r
  {
    assert a == [a[0]] + a[1..];
  }

  /** A text that does not start with `//` keeps its first character. */
  lemma StripLineCommentsKeeps(s: string)
    requires |s| > 0 && !("//" <= s)
    ensures StripLineComments(s) == [s[0]] + StripLineComments(s[1..])
  {
  }

  /** Text in which no comment opens is kept as it is, in front of the rest. */
  lemma {:induction false} StripLineCommentsKeepsPrefix(a: string, x: string)
    requires OpensNowhere(a, "//")
    ensures StripLineComments(a + x) == a + StripLineComments(x)
    decreases |a|
  {
    if |a| > 0 {
      OpensNowhereFront(a, x, "//");
      OpensNowhereTail(a, "//");
      StripLineCommentsKeepsPrefix(a[1..], x);
      assert (a + x)[1..] == a[1..] + x;
      StripLineCommentsKeeps(a + x);
      ConsAppend(a, StripLineComments(x));
    } else {
      assert a + x == x;
    }
  }

  /** A comment at the front goes up to its line break, which stays. */
  lemma StripLineCommentThenBreak(c: string, t: char, b: string)
    requires forall k :: 0 <= k < |c| ==> !IsLineTerminator(c[k])
    requires IsLineTerminator(t)
    ensures StripLineComments("//" + c + [t] + b) == [t] + StripLineComments(b)
  {
    var s := "//" + c + [t] + b;
    var rest := [t] + b;
    assert s[..2] == "//";
    assert s == "//" + c + rest;
    assert s[2 + |c|..] == rest;
    LineEndAt(s, 2, 2 + |c|);
    StripLineCommentsCuts(s);
    assert rest[1..] == b;
    StripLineCommentsKeeps(rest);
  }

  /**
   * A comment is cut up to the end of its line: the text before it and the
   * line break that ends it stay, and the following lines are cleaned in
   * turn.
   */
  lemma StripLineCommentsKeepsBreak(a: string, c: string, t: char, b: string)
    requires OpensNowhere(a, "//")
    requires forall k :: 0 <= k < |c| ==> !IsLineTerminator(c[k])
    requires IsLineTerminator(t)
    ensures StripLineComments(a + ("//" + c + [t] + b)) == a + ([t] + StripLineComments(b))
  {
    StripLineCommentsKeepsPrefix(a, "//" + c + [t] + b);
    StripLineCommentThenBreak(c, t, b);
  }

  /** The line ends at the first terminator. */
  lemma {:induction false} LineEndAt(s: string, i: nat, e: nat)
    requires i <= e < |s| && IsLineTerminator(s[e])
    requires forall k :: i <= k < e ==> !IsLineTerminator(s[k])
    ensures LineEnd(s, i) == e
    decreases e - i
  {
    if i < e {
      LineEndAt(s, i + 1, e);
    }
  }

  /** A text that starts with `//` loses everything up to the end of that line. */
  lemma StripLineCommentsCuts(s: string)
    requires "//" <= s
    ensures StripLineComments(s) == StripLineComments(s[LineEnd(s, 2)..])
  {
  }

  // ---------------------------------------------------------------------------
  // Block comments: `/\/\*[\s\S]*?\*\//g` replaced by ''

  const Closer: string := "*/"

  // The position of the first closer in `u`, the one `IndexOf(u, "*/")`
  // finds (FindCloserIsIndexOf).
  function FindCloser(u: string): (r: Option<nat>)
    ensures r.Some? ==> r.value + 2 <= |u|
  {
    if |u| < 2 then None
    else if u[0] == '*' && u[1] == '/' then Some(0)
    else match FindCloser(u[1..])
      case Some(k) => Some(k + 1)
      case None => None
  }

  lemma {:induction false} FindCloserIsIndexOf(u: string)
    ensures FindCloser(u) == IndexOf(u, Closer)
    decreases |u|
  {
    if |u| >= 2 {
      assert Closer <= u <==> u[0] == '*' && u[1] == '/' by {
        if u[0] == '*' && u[1] == '/' {
          assert u[..2] == Closer;
        }
      }
      FindCloserIsIndexOf(u[1..]);
    }
  }

  // Every comment opener together with the nearest following closer removed.
  function StripBlockComments(s: string): (r: string)
    ensures |r| <= |s|
    decreases |s|
  {
    if |s| == 0 then []
    else if "/*" <= s then
      match FindCloser(s[2..])
      case Some(k) => StripBlockComments(s[2 + k + 2..])
      case None => [s[0]] + StripBlockComments(s[1..])
    else [s[0]] + StripBlockComments(s[1..])
  }

  // A text without a comment opener passes through unchanged.
  lemma {:induction false} StripBlockCommentsUntouched(s: string)
    requires forall j :: !OccursAt(s, "/*", j)
    ensures StripBlockComments(s) == s
    decreases |s|
  {
    if |s| > 0 {
      assert !OccursAt(s, "/*", 0);
      forall j | 0 <= j ensures !OccursAt(s[1..], "/*", j) {
        OccursAtShift(s, "/*", j);
      }
      StripBlockCommentsUntouched(s[1..]);
    }
  }

  /** A text that does not start with an opener keeps its first character. */
  lemma StripBlockCommentsKeeps(s: string)
    requires |s| > 0 && !("/*" <= s)
    ensures StripBlockComments(s) == [s[0]] + StripBlockComments(s[1..])
  {
  }

  /** Text in which no comment opens is kept as it is, in front of the rest. */
  lemma {:induction false} StripBlockCommentsKeepsPrefix(a: string, x: string)
    requires OpensNowhere(a, "/*")
    ensures StripBlockComments(a + x) == a + StripBlockComments(x)
    decreases |a|
  {
    if |a| > 0 {
      OpensNowhereFront(a, x, "/*");
      OpensNowhereTail(a, "/*");
      StripBlockCommentsKeepsPrefix(a[1..], x);
      assert (a + x)[1..] == a[1..] + x;
      StripBlockCommentsKeeps(a + x);
      ConsAppend(a, StripBlockComments(x));
    } else {
      assert a + x == x;
    }
  }

  /** A text without a closer passes through unchanged: an opener with no closer after it stays. */
  lemma {:induction false} StripBlockCommentsNoCloser(s: string)
    requires forall j :: !OccursAt(s, "*/", j)
    ensures StripBlockComments(s) == s
    decreases |s|
  {
    if |s| > 0 {
      forall j | 0 <= j ensures !OccursAt(s[1..], "*/", j) {
        OccursAtShift(s, "*/", j);
      }
      if "/*" <= s {
        assert s[1..][1..] == s[2..];
        forall j | 0 <= j ensures !OccursAt(s[2..], "*/", j) {
          OccursAtShift(s[1..], "*/", j);
        }
        FindCloserIsIndexOf(s[2..]);
        assert IndexOf(s[2..], "*/") == None;
      }
      StripBlockCommentsNoCloser(s[1..]);
    }
  }

  /** A text that starts with a closed comment loses it. */
  lemma StripBlockCommentsCuts(s: string, k: nat)
    requires "/*" <= s && FindCloser(s[2..]) == Some(k)
    ensures StripBlockComments(s) == StripBlockComments(s[2 + k + 2..])
  {
  }

  /** A text that starts with an unclosed opener keeps its first character. */
  lemma StripBlockCommentsSkips(s: string)
    requires "/*" <= s && FindCloser(s[2..]) == None
    ensures StripBlockComments(s) == [s[0]] + StripBlockComments(s[1..])
  {
  }

  // In `m`, then a closer, then `b`, with no closer inside `m`, the first closer follows `m`.
  lemma FirstCloser(m: string, b: string)
    requires forall j :: !OccursAt(m, "*/", j)
    ensures IndexOf(m + "*/" + b, "*/") == Some(|m|)
  {
    var u := m + "*/" + b;
    assert u[..|m|] == m;
    assert u[|m|..][..2] == "*/";
    forall j | 0 <= j < |m| ensures !OccursAt(u, "*/", j) {
      if j + 2 <= |m| {
        OccursAtPrefix(u, "*/", |m|, j);
      } else {
        assert u[j..][1] == u[|m|] == '*';
      }
    }
    IndexOfFirst(u, "*/", |m|);
  }

  /** A closed comment at the front goes. */
  lemma StripClosedComment(m: string, b: string)
    requires forall j :: !OccursAt(m, "*/", j)
    ensures StripBlockComments("/*" + m + "*/" + b) == StripBlockComments(b)
  {
    var u := m + "*/" + b;
    var s := "/*" + u;
    assert "/*" + m + "*/" + b == s;
    assert s[..2] == "/*" && s[2..] == u;
    FirstCloser(m, b);
    FindCloserIsIndexOf(u);
    StripBlockCommentsCuts(s, |m|);
    assert s[2 + |m| + 2..] == b;
  }

  /**
   * A comment is removed from its opener through the nearest closer after
   * it; the text before it stays and the text after it is cleaned in turn.
   */
  lemma StripBlockCommentsClosed(a: string, m: string, b: string)
    requires OpensNowhere(a, "/*")
    requires forall j :: !OccursAt(m, "*/", j)
    ensures StripBlockComments(a + ("/*" + m + "*/" + b)) == a + StripBlockComments(b)
  {
    StripBlockCommentsKeepsPrefix(a, "/*" + m + "*/" + b);
    StripClosedComment(m, b);
  }

  /** An unclosed opener at the front stays, with the text after it. */
  lemma StripUnclosedComment(m: string)
    requires forall j :: !OccursAt(m, "*/", j)
    ensures StripBlockComments("/*" + m) == "/*" + m
  {
    var s := "/*" + m;
    assert s[..2] == "/*" && s[2..] == m;
    assert IndexOf(m, "*/") == None;
    FindCloserIsIndexOf(m);
    StripBlockCommentsSkips(s);
    var rest := s[1..];
    assert rest[0] == '*' && rest[1..] == m;
    assert !("/*" <= rest);
    StripBlockCommentsKeeps(rest);
    StripBlockCommentsNoCloser(m);
    assert s == [s[0]] + ([rest[0]] + m);
  }

  /** An opener with no closer after it stays, and so does the text around it. */
  lemma StripBlockCommentsUnclosed(a: string, m: string)
    requires OpensNowhere(a, "/*")
    requires forall j :: !OccursAt(m, "*/", j)
    ensures StripBlockComments(a + ("/*" + m)) == a + ("/*" + m)
  {
    StripBlockCommentsKeepsPrefix(a, "/*" + m);
    StripUnclosedComment(m);
  }

  // ---------------------------------------------------------------------------
  // Trailing commas: `/,(\s*[}\]])/g` replaced by '$1'

  /** `s` is whitespace followed by a closing brace or bracket. */
  predicate ClosesAfterSpaces(s: string)
    decreases |s|
  {
    |s| > 0 && (s[0] == '}' || s[0] == ']' || (IsSpace(s[0]) && ClosesAfterSpaces(s[1..])))
  }

  /**
   * Every comma that is followed by whitespace and a closing brace or bracket
   * removed; the whitespace and the bracket are kept.
   */
  function StripTrailingCommas(s: string): (r: string)
    ensures |r| <= |s|
    decreases |s|
  {
    if |s| == 0 then []
    else if s[0] == ',' && ClosesAfterSpaces(s[1..]) then StripTrailingCommas(s[1..])
    else [s[0]] + StripTrailingCommas(s[1..])
  }

  /** The characters other than commas, in order. */
  function NonCommas(s: string): (r: string)
    ensures |r| <= |s|
  {
    if |s| == 0 then [] else (if s[0] == ',' then [] else [s[0]]) + NonCommas(s[1..])
  }

  /** Only commas are ever removed. */
  lemma {:induction false} StripTrailingCommasOnlyCommas(s: string)
    ensures NonCommas(StripTrailingCommas(s)) == NonCommas(s)
    decreases |s|
  {
    if |s| > 0 {
      StripTrailingCommasOnlyCommas(s[1..]);
      var tail := StripTrailingCommas(s[1..]);
      if !(s[0] == ',' && ClosesAfterSpaces(s[1..])) {
        assert ([s[0]] + tail)[1..] == tail;
      }
    }
  }

  /** A text without commas passes through unchanged. */
  lemma {:induction false} StripTrailingCommasNoComma(s: string)
    requires forall i :: 0 <= i < |s| ==> s[i] != ','
    ensures StripTrailingCommas(s) == s
    decreases |s|
  {
    if |s| > 0 {
      StripTrailingCommasNoComma(s[1..]);
    }
  }

  /** Whitespace then a closing brace or bracket, whatever follows. */
  lemma {:induction false} ClosesAfterSpacesAt(w: string, c: char, b: string)
    requires forall k :: 0 <= k < |w| ==> IsSpace(w[k])
    requires c == '}' || c == ']'
    ensures ClosesAfterSpaces(w + [c] + b)
    decreases |w|
  {
    if |w| > 0 {
      assert (w + [c] + b)[1..] == w[1..] + [c] + b;
      ClosesAfterSpacesAt(w[1..], c, b);
    } else {
      assert (w + [c] + b)[0] == c;
    }
  }

  /** Once `u` is followed by neither whitespace nor a closer, what comes after it decides nothing. */
  lemma {:induction false} ClosesAfterSpacesStops(u: string, y: string)
    requires |y| > 0 && !IsSpace(y[0]) && y[0] != '}' && y[0] != ']'
    ensures ClosesAfterSpaces(u + y) == ClosesAfterSpaces(u)
    decreases |u|
  {
    if |u| > 0 {
      assert (u + y)[1..] == u[1..] + y;
      ClosesAfterSpacesStops(u[1..], y);
    } else {
      assert u + y == y;
    }
  }

  /** The pass works on each side of a character that is neither whitespace nor a closer on its own. */
  lemma {:induction false} StripTrailingCommasSplit(x: string, y: string)
    requires |y| > 0 && !IsSpace(y[0]) && y[0] != '}' && y[0] != ']'
    ensures StripTrailingCommas(x + y) == StripTrailingCommas(x) + StripTrailingCommas(y)
    decreases |x|
  {
    if |x| > 0 {
      assert (x + y)[1..] == x[1..] + y;
      ClosesAfterSpacesStops(x[1..], y);
      StripTrailingCommasSplit(x[1..], y);
    } else {
      assert x + y == y;
    }
  }

  /** A comma-free front is kept as it is. */
  lemma {:induction false} StripTrailingCommasKeepsCommaFree(u: string, y: string)
    requires forall k :: 0 <= k < |u| ==> u[k] != ','
    ensures StripTrailingCommas(u + y) == u + StripTrailingCommas(y)
    decreases |u|
  {
    if |u| > 0 {
      assert (u + y)[1..] == u[1..] + y;
      StripTrailingCommasKeepsCommaFree(u[1..], y);
    } else {
      assert u + y == y;
    }
  }

  /**
   * A comma followed by whitespace and a closing brace or bracket is
   * removed; the whitespace and the bracket stay, and the text on either
   * side is cleaned on its own.
   */
  lemma StripTrailingCommasDropsComma(a: string, w: string, c: char, b: string)
    requires forall k :: 0 <= k < |w| ==> IsSpace(w[k])
    requires c == '}' || c == ']'
    ensures StripTrailingCommas(a + ("," + (w + [c] + b))) == StripTrailingCommas(a) + (w + [c] + StripTrailingCommas(b))
  {
    var rest := w + [c] + b;
    StripTrailingCommasSplit(a, "," + rest);
    assert ("," + rest)[1..] == rest;
    ClosesAfterSpacesAt(w, c, b);
    StripTrailingCommasKeepsCommaFree(w + [c], b);
  }

  /** Any other comma stays, and the text on either side is cleaned on its own. */
  lemma StripTrailingCommasKeepsComma(a: string, y: string)
    requires !ClosesAfterSpaces(y)
    ensures StripTrailingCommas(a + ("," + y)) == StripTrailingCommas(a) + ("," + StripTrailingCommas(y))
  {
    StripTrailingCommasSplit(a, "," + y);
    assert ("," + y)[1..] == y;
  }

  /**
   * One pass is not a fixed point: in ",,]" only the second comma is
   * trailing when the scan reaches it.
   */
  lemma StripTrailingCommasOnePass()
    ensures StripTrailingCommas(",,]") == ",]"
    ensures StripTrailingCommas(",]") == "]"
  {
  }

  // ---------------------------------------------------------------------------
  // The whole chain

  /** `cleanContent` as the route builds it before calling `JSON.parse`. */
  function CleanContent(content: string): string
  {
    StripTrailingCommas(StripBlockComments(StripLineComments(StripFences(content))))
  }

  /** The cleaned text never contains a `//` left over from before the trailing-comma pass. */
  lemma CleanContentNoLineComment(content: string)
    ensures !Contains(StripLineComments(StripFences(content)), "//")
  {
    NoSlashesAfterStrip(StripFences(content));
  }

  // Text that is already clean (trimmed, no backtick, no line or block
  // comment opener, no comma) comes out unchanged.
  lemma CleanContentOfCleanText(content: string)
    requires content == [] || (!IsSpace(content[0]) && !IsSpace(content[|content| - 1]))
    requires forall i :: 0 <= i < |content| ==> content[i] != '`' && content[i] != ','
    requires forall j :: !OccursAt(content, "//", j)
    requires forall j :: !OccursAt(content, "/*", j)
    ensures CleanContent(content) == content
  {
    StripFenceUntouched(content, "```json");
    StripFenceUntouched(content, Backticks);
    TrimOfTrimmed(content);
    StripLineCommentsUntouched(content);
    StripBlockCommentsUntouched(content);
    StripTrailingCommasNoComma(content);
  }
}
