/**
 * The few java.util.regex replacements the cleaning code performs, written
 * as explicit left-to-right scanners over the input.
 *
 * `replaceAll` tries every start position from left to right and resumes
 * after each match. For a greedy run pattern `K{n,}` this replaces every
 * maximal run of at least n characters of class K. For `(?m)^\s+` it deletes
 * each whitespace run that begins at a line start. For `(?m)\s+$` it deletes,
 * inside each whitespace run, the longest prefix that ends at a line end
 * (the greedy run backs off to the last position where `$` holds).
 */
module JavaRegex {
  import opened JavaText

  /** The character classes that the cleaning patterns match runs of. */
  datatype CharClass =
    | Whitespace   // \s
    | Newline      // \n
    | SpaceOrTab   // [ \t]
    | Space        // a literal space

  predicate InClass(k: CharClass, c: char)
  {
    match k
    case Whitespace => IsRegexSpace(c)
    case Newline => c == '\n'
    case SpaceOrTab => c == ' ' || c == '\t'
    case Space => c == ' '
  }

  /** Every class used here is a subset of `\s`. */
  lemma ClassIsWhitespace(k: CharClass, c: char)
    ensures InClass(k, c) ==> IsRegexSpace(c)
  {
  }

  /** No two neighbouring characters both belong to class k. */
  predicate NoAdjacent(s: string, k: CharClass)
  {
    forall i :: 0 <= i < |s| - 1 ==> !(InClass(k, s[i]) && InClass(k, s[i + 1]))
  }

  lemma NoAdjacentSlice(s: string, k: CharClass, a: nat, b: nat)
    requires a <= b <= |s| && NoAdjacent(s, k)
    ensures NoAdjacent(s[a..b], k)
  {
    forall i | 0 <= i < b - a - 1 ensures !(InClass(k, s[a..b][i]) && InClass(k, s[a..b][i + 1])) {
      assert s[a..b][i] == s[a + i] && s[a..b][i + 1] == s[a + i + 1];
    }
  }

  lemma NoAdjacentCons(c: char, t: string, k: CharClass)
    requires NoAdjacent(t, k)
    requires t == [] || !(InClass(k, c) && InClass(k, t[0]))
    ensures NoAdjacent([c] + t, k)
  {
    var u := [c] + t;
    forall i | 0 <= i < |u| - 1 ensures !(InClass(k, u[i]) && InClass(k, u[i + 1])) {
      if i > 0 {
        assert u[i] == t[i - 1] && u[i + 1] == t[i];
      }
    }
  }

  lemma NoAdjacentConcat(x: string, t: string, k: CharClass)
    requires NoAdjacent(x, k) && NoAdjacent(t, k)
    requires x == [] || t == [] || !(InClass(k, x[|x| - 1]) && InClass(k, t[0]))
    ensures NoAdjacent(x + t, k)
  {
    var u := x + t;
    forall i | 0 <= i < |u| - 1 ensures !(InClass(k, u[i]) && InClass(k, u[i + 1])) {
      if i + 1 < |x| {
        assert u[i] == x[i] && u[i + 1] == x[i + 1];
      } else if i >= |x| {
        assert u[i] == t[i - |x|] && u[i + 1] == t[i + 1 - |x|];
      }
    }
  }

  /** The end of the run of class-k characters that starts at i. */
  function RunEnd(s: string, k: CharClass, i: nat): (e: nat)
    requires i <= |s|
    ensures i <= e <= |s|
    ensures forall j :: i <= j < e ==> InClass(k, s[j])
    ensures e < |s| ==> !InClass(k, s[e])
    decreases |s| - i
  {
    if i < |s| && InClass(k, s[i]) then RunEnd(s, k, i + 1) else i
  }

  // ---------------------------------------------------------------------
  // replaceAll("K{n,}", repl)
  // ---------------------------------------------------------------------

  function ReplaceRunsFrom(s: string, k: CharClass, n: nat, repl: string, i: nat): (r: string)
    requires n >= 1 && i <= |s|
    ensures forall c :: c in r ==> c in s[i..] || c in repl
    ensures i < |s| && !InClass(k, s[i]) ==> r != [] && r[0] == s[i]
    decreases |s| - i
  {
    if i == |s| then []
    else if !InClass(k, s[i]) then
      var rest := ReplaceRunsFrom(s, k, n, repl, i + 1);
      assert forall c :: c in s[i + 1..] ==> c in s[i..];
      [s[i]] + rest
    else
      var e := RunEnd(s, k, i);
      var rest := ReplaceRunsFrom(s, k, n, repl, e);
      assert forall c :: c in s[e..] ==> c in s[i..];
      assert forall c :: c in s[i..e] ==> c in s[i..];
      (if e - i >= n then repl else s[i..e]) + rest
  }

  /** `s.replaceAll("K{n,}", repl)` (with n == 1 this is `K+`). */
  function ReplaceRuns(s: string, k: CharClass, n: nat, repl: string): (r: string)
    requires n >= 1
    ensures forall c :: c in r ==> c in s || c in repl
  {
    assert s[0..] == s;
    ReplaceRunsFrom(s, k, n, repl, 0)
  }

  /** A string with no class-`k` run of length n or more is left as it is. */
  lemma {:induction false} ReplaceRunsFromShort(s: string, k: CharClass, n: nat, repl: string, i: nat)
    requires n >= 1 && i <= |s|
    requires forall j :: i <= j < |s| ==> !InClass(k, s[j])
    ensures ReplaceRunsFrom(s, k, n, repl, i) == s[i..]
    decreases |s| - i
  {
    if i < |s| {
      ReplaceRunsFromShort(s, k, n, repl, i + 1);
      assert s[i..] == [s[i]] + s[i + 1..];
    }
  }

  /**
   * Replacing every class-k run by one character of class k leaves no two
   * class-k characters side by side.
   */
  lemma {:induction false} ReplaceRunsFromSingle(s: string, k: CharClass, c: char, i: nat)
    requires i <= |s| && InClass(k, c)
    ensures NoAdjacent(ReplaceRunsFrom(s, k, 1, [c], i), k)
    ensures forall x :: x in ReplaceRunsFrom(s, k, 1, [c], i) && InClass(k, x) ==> x == c
    decreases |s| - i
  {
    var r := ReplaceRunsFrom(s, k, 1, [c], i);
    if i < |s| {
      if !InClass(k, s[i]) {
        ReplaceRunsFromSingle(s, k, c, i + 1);
        var rest := ReplaceRunsFrom(s, k, 1, [c], i + 1);
        NoAdjacentCons(s[i], rest, k);
      } else {
        var e := RunEnd(s, k, i);
        ReplaceRunsFromSingle(s, k, c, e);
        var rest := ReplaceRunsFrom(s, k, 1, [c], e);
        assert r == [c] + rest;
        NoAdjacentCons(c, rest, k);
      }
    }
  }

  lemma ReplaceRunsSingle(s: string, k: CharClass, c: char)
    requires InClass(k, c)
    ensures NoAdjacent(ReplaceRuns(s, k, 1, [c]), k)
    ensures forall x :: x in ReplaceRuns(s, k, 1, [c]) && InClass(k, x) ==> x == c
  {
    ReplaceRunsFromSingle(s, k, c, 0);
  }

  // ---------------------------------------------------------------------
  // Multiline anchors
  // ---------------------------------------------------------------------

  /**
   * `^` under MULTILINE at position i: never at the end of the input; at 0;
   * or after a line terminator, except between '\r' and '\n'.
   */
  predicate LineStart(s: string, i: nat)
    requires i <= |s|
  {
    i < |s| && (i == 0 || (IsLineTerminator(s[i - 1]) && !(s[i - 1] == '\r' && s[i] == '\n')))
  }

  /**
   * `$` under MULTILINE at position j: at the end of the input, or before a
   * line terminator, except between '\r' and '\n'.
   */
  predicate LineEnd(s: string, j: nat)
    requires j <= |s|
  {
    j == |s|
    || (s[j] == '\n' && !(j > 0 && s[j - 1] == '\r'))
    || s[j] == '\r' || s[j] == '\U{85}' || s[j] == '\U{2028}' || s[j] == '\U{2029}'
  }

  // ---------------------------------------------------------------------
  // replaceAll("(?m)^\\s+", "")
  // ---------------------------------------------------------------------

  function StripLineStartsFrom(s: string, i: nat): (r: string)
    requires i <= |s|
    ensures forall c :: c in r ==> c in s
    ensures r == [] || (i < |s| && r[0] == s[i]) || !IsRegexSpace(r[0])
    ensures i < |s| && IsRegexSpace(s[i]) && LineStart(s, i) ==> r == [] || !IsRegexSpace(r[0])
    decreases |s| - i
  {
    if i == |s| then []
    else if IsRegexSpace(s[i]) && LineStart(s, i) then
      var e := RunEnd(s, Whitespace, i);
      var rest := StripLineStartsFrom(s, e);
      assert e < |s| ==> rest[0] == s[e];
      rest
    else
      [s[i]] + StripLineStartsFrom(s, i + 1)
  }

  /** `s.replaceAll("(?m)^\\s+", "")`. */
  function StripLineStarts(s: string): (r: string)
    ensures forall c :: c in r ==> c in s
    ensures r == [] || !IsRegexSpace(r[0])
  {
    StripLineStartsFrom(s, 0)
  }

  lemma {:induction false} StripLineStartsFromNoAdjacent(s: string, k: CharClass, i: nat)
    requires i <= |s| && NoAdjacent(s, k)
    ensures NoAdjacent(StripLineStartsFrom(s, i), k)
    decreases |s| - i
  {
    if i < |s| {
      if IsRegexSpace(s[i]) && LineStart(s, i) {
        StripLineStartsFromNoAdjacent(s, k, RunEnd(s, Whitespace, i));
      } else {
        StripLineStartsFromNoAdjacent(s, k, i + 1);
        var rest := StripLineStartsFrom(s, i + 1);
        if rest != [] {
          ClassIsWhitespace(k, rest[0]);
        }
        NoAdjacentCons(s[i], rest, k);
      }
    }
  }

  lemma StripLineStartsNoAdjacent(s: string, k: CharClass)
    requires NoAdjacent(s, k)
    ensures NoAdjacent(StripLineStarts(s), k)
  {
    StripLineStartsFromNoAdjacent(s, k, 0);
  }

  // ---------------------------------------------------------------------
  // replaceAll("(?m)\\s+$", "")
  // ---------------------------------------------------------------------

  /** The last position in (a, e] where `$` holds, or a when there is none. */
  function LastLineEndIn(s: string, a: nat, e: nat): (j: nat)
    requires a < e <= |s|
    ensures a <= j <= e
    ensures j > a ==> LineEnd(s, j)
    ensures forall m :: j < m <= e ==> !LineEnd(s, m)
    decreases e - a
  {
    if LineEnd(s, e) then e else if e == a + 1 then a else LastLineEndIn(s, a, e - 1)
  }

  function StripLineEndsFrom(s: string, i: nat): (r: string)
    requires i <= |s|
    ensures forall c :: c in r ==> c in s
    ensures i < |s| && !IsRegexSpace(s[i]) ==> r != [] && r[0] == s[i]
    ensures r == [] || !IsRegexSpace(r[|r| - 1])
    decreases |s| - i
  {
    if i == |s| then []
    else if !IsRegexSpace(s[i]) then
      [s[i]] + StripLineEndsFrom(s, i + 1)
    else
      var e := RunEnd(s, Whitespace, i);
      var j := LastLineEndIn(s, i, e);
      var rest := StripLineEndsFrom(s, e);
      assert e == |s| ==> j == e;
      assert forall c :: c in s[j..e] ==> c in s;
      s[j..e] + rest
  }

  /** `s.replaceAll("(?m)\\s+$", "")`. */
  function StripLineEnds(s: string): (r: string)
    ensures forall c :: c in r ==> c in s
    ensures r == [] || !IsRegexSpace(r[|r| - 1])
    ensures s != [] && !IsRegexSpace(s[0]) ==> r != [] && r[0] == s[0]
  {
    StripLineEndsFrom(s, 0)
  }

  lemma {:induction false} StripLineEndsFromNoAdjacent(s: string, k: CharClass, i: nat)
    requires i <= |s| && NoAdjacent(s, k)
    ensures NoAdjacent(StripLineEndsFrom(s, i), k)
    decreases |s| - i
  {
    if i < |s| {
      if !IsRegexSpace(s[i]) {
        StripLineEndsFromNoAdjacent(s, k, i + 1);
        var rest := StripLineEndsFrom(s, i + 1);
        ClassIsWhitespace(k, s[i]);
        NoAdjacentCons(s[i], rest, k);
      } else {
        var e := RunEnd(s, Whitespace, i);
        var j := LastLineEndIn(s, i, e);
        StripLineEndsFromNoAdjacent(s, k, e);
        var rest := StripLineEndsFrom(s, e);
        NoAdjacentSlice(s, k, j, e);
        if rest != [] {
          assert rest[0] == s[e];
          ClassIsWhitespace(k, rest[0]);
        }
        NoAdjacentConcat(s[j..e], rest, k);
      }
    }
  }

  lemma StripLineEndsNoAdjacent(s: string, k: CharClass)
    requires NoAdjacent(s, k)
    ensures NoAdjacent(StripLineEnds(s), k)
  {
    StripLineEndsFromNoAdjacent(s, k, 0);
  }

  // ---------------------------------------------------------------------
  // Full matches with Matcher.matches()
  // ---------------------------------------------------------------------

  /**
   * The end of the run of characters satisfying p that starts at i. A greedy
   * `K+` or `K*` followed by a character outside K can only end here, so the
   * full-match predicates below never need to consider shorter runs.
   */
  function SpanEnd(s: string, i: nat, p: char -> bool): (e: nat)
    requires i <= |s|
    ensures i <= e <= |s|
    ensures forall j :: i <= j < e ==> p(s[j])
    ensures e < |s| ==> !p(s[e])
    decreases |s| - i
  {
    if i < |s| && p(s[i]) then SpanEnd(s, i + 1, p) else i
  }

  /**
   * `(.*)$` matches all of s[i..] under `matches()`: `.` stops at every line
   * terminator and `$` without MULTILINE cannot end the match before the
   * end, so the tail must hold no line terminator.
   */
  predicate DotStarToEnd(s: string, i: nat)
    requires i <= |s|
  {
    forall j :: i <= j < |s| ==> !IsLineTerminator(s[j])
  }

  /** A string with no line terminator at all. */
  predicate SingleLine(s: string)
  {
    DotStarToEnd(s, 0)
  }
}
