/**
 * The text side of the EPUB loader: HTML entity decoding, tag stripping,
 * whitespace cleaning, paragraph/heading extraction from an XHTML chapter,
 * the OPF structure (base path, spine, manifest), chapter extraction over an
 * archive modelled as a map from entry names to their contents, and
 * `Chapter.getCleanText`.
 *
 * The Java regular expressions used here are written out as scanners: a
 * `replaceAll` tries its pattern at each position from left to right, copies
 * the character when nothing matches and resumes after a match otherwise;
 * `find()` returns the leftmost match at or after its start.
 */
module EpubLoader {
  import opened Wrappers
  import opened JavaText
  import opened JavaRegex

  // ---------------------------------------------------------------------------
  // decodeHtmlEntities
  // ---------------------------------------------------------------------------

  /** The twelve entity replacements, applied one after the other in this order; null gives "". */
  function DecodeHtmlEntities(text: Option<string>): (r: string)
    ensures text.None? ==> r == []
  {
    if text.None? then []
    else
      var t1 := Replace(text.value, "&lt;", "<");
      var t2 := Replace(t1, "&gt;", ">");
      var t3 := Replace(t2, "&amp;", "&");
      var t4 := Replace(t3, "&quot;", "\"");
      var t5 := Replace(t4, "&apos;", "'");
      var t6 := Replace(t5, "&nbsp;", " ");
      var t7 := Replace(t6, "&#8212;", "—");
      var t8 := Replace(t7, "&#8211;", "–");
      var t9 := Replace(t8, "&#8220;", "\"");
      var t10 := Replace(t9, "&#8221;", "\"");
      var t11 := Replace(t10, "&#8216;", "'");
      Replace(t11, "&#8217;", "'")
  }

  /** Every replacement is shorter than its entity, so decoding never lengthens a text. */
  lemma DecodeShrinks(s: string)
    ensures |DecodeHtmlEntities(Some(s))| <= |s|
  {
    var t1 := Replace(s, "&lt;", "<");
    ReplaceShrinks(s, "&lt;", "<");
    var t2 := Replace(t1, "&gt;", ">");
    ReplaceShrinks(t1, "&gt;", ">");
    var t3 := Replace(t2, "&amp;", "&");
    ReplaceShrinks(t2, "&amp;", "&");
    var t4 := Replace(t3, "&quot;", "\"");
    ReplaceShrinks(t3, "&quot;", "\"");
    var t5 := Replace(t4, "&apos;", "'");
    ReplaceShrinks(t4, "&apos;", "'");
    var t6 := Replace(t5, "&nbsp;", " ");
    ReplaceShrinks(t5, "&nbsp;", " ");
    var t7 := Replace(t6, "&#8212;", "—");
    ReplaceShrinks(t6, "&#8212;", "—");
    var t8 := Replace(t7, "&#8211;", "–");
    ReplaceShrinks(t7, "&#8211;", "–");
    var t9 := Replace(t8, "&#8220;", "\"");
    ReplaceShrinks(t8, "&#8220;", "\"");
    var t10 := Replace(t9, "&#8221;", "\"");
    ReplaceShrinks(t9, "&#8221;", "\"");
    var t11 := Replace(t10, "&#8216;", "'");
    ReplaceShrinks(t10, "&#8216;", "'");
    ReplaceShrinks(t11, "&#8217;", "'");
  }

  /** A text without '&' holds no entity and is returned unchanged. */
  lemma DecodeWithoutAmpersand(s: string)
    requires '&' !in s
    ensures DecodeHtmlEntities(Some(s)) == s
  {
    NotContainsFirst(s, "&lt;");
    NotContainsFirst(s, "&gt;");
    NotContainsFirst(s, "&amp;");
    NotContainsFirst(s, "&quot;");
    NotContainsFirst(s, "&apos;");
    NotContainsFirst(s, "&nbsp;");
    NotContainsFirst(s, "&#8212;");
    NotContainsFirst(s, "&#8211;");
    NotContainsFirst(s, "&#8220;");
    NotContainsFirst(s, "&#8221;");
    NotContainsFirst(s, "&#8216;");
    NotContainsFirst(s, "&#8217;");
  }

  /** Decoding is a single pass: `&amp;` is replaced after `&lt;`, so "&amp;lt;" becomes "&lt;" and not "<". */
  lemma DecodeIsSinglePass()
    ensures DecodeHtmlEntities(Some("&amp;lt;")) == "&lt;"
  {
    var s := "&amp;lt;";
    assert s[..4] != "&lt;" by { assert s[..4][1] != "&lt;"[1]; }
    assert s[..4] != "&gt;" by { assert s[..4][1] != "&gt;"[1]; }
    OnlyAtStart(s, "&lt;");
    OnlyAtStart(s, "&gt;");
    assert s[..5] == "&amp;";
    assert Replace(s, "&amp;", "&") == "&" + Replace("lt;", "&amp;", "&");
    assert Replace(s, "&amp;", "&") == "&lt;";
    DecodeTail("&lt;");
  }

  /** A pattern whose first character occurs only at the start of `s`, and does not match there, is absent. */
  lemma OnlyAtStart(s: string, t: string)
    requires |t| > 0 && |s| > 0 && !StartsWith(s, t)
    requires forall k :: 0 < k < |s| ==> s[k] != t[0]
    ensures !Contains(s, t)
  {
    ContainsIff(s, t);
  }

  /** Only `&lt;` occurs in "&lt;", and the replacements after `&amp;` leave it alone. */
  lemma DecodeTail(s: string)
    requires s == "&lt;"
    ensures Replace(Replace(Replace(Replace(Replace(Replace(Replace(Replace(Replace(s,
              "&quot;", "\""), "&apos;", "'"), "&nbsp;", " "), "&#8212;", "—"), "&#8211;", "–"),
              "&#8220;", "\""), "&#8221;", "\""), "&#8216;", "'"), "&#8217;", "'") == s
  {
  }

  // ---------------------------------------------------------------------------
  // cleanHtmlTags
  // ---------------------------------------------------------------------------

  /** Case-insensitive (ASCII) occurrence of the lower-case literal `t` at `i`. */
  predicate LitAt(s: string, i: nat, t: string)
  {
    i + |t| <= |s| && ToLower(s[i..i + |t|]) == t
  }

  /** A case-insensitive literal starting with '<' can only match at a '<'. */
  lemma LitAtAngle(s: string, i: nat, t: string)
    requires t != [] && t[0] == '<' && LitAt(s, i, t)
    ensures s[i] == '<'
  {
    assert ToLower(s[i..i + |t|])[0] == ToLowerChar(s[i]);
  }

  /** Length of a match of `(?i)</(p|div|h[1-6]|br)>` at `i`, 0 when there is none. */
  function ClosingBreakLen(s: string, i: nat): (n: nat)
    ensures n == 0 || (i + n <= |s| && s[i] == '<')
  {
    if LitAt(s, i, "</p>") then LitAtAngle(s, i, "</p>"); 4
    else if LitAt(s, i, "</div>") then LitAtAngle(s, i, "</div>"); 6
    else if LitAt(s, i, "</h") && i + 5 <= |s| && '1' <= s[i + 3] <= '6' && s[i + 4] == '>' then
      LitAtAngle(s, i, "</h"); 5
    else if LitAt(s, i, "</br>") then LitAtAngle(s, i, "</br>"); 5
    else 0
  }

  /** Length of a match of `(?i)<br[^>]*>` at `i`: up to the first '>' after "<br". */
  function BrTagLen(s: string, i: nat): (n: nat)
    ensures n == 0 || (i + n <= |s| && s[i] == '<')
  {
    if LitAt(s, i, "<br") then
      LitAtAngle(s, i, "<br");
      var gt := FindChar(s, '>', i + 3);
      if gt >= 0 then gt - i + 1 else 0
    else 0
  }

  /** Length of a match of `<[^>]+>` at `i`: '<', at least one other character, the first '>'. */
  function TagLen(s: string, i: nat): (n: nat)
    ensures n == 0 || (i + n <= |s| && s[i] == '<')
  {
    if i + 1 < |s| && s[i] == '<' && s[i + 1] != '>' then
      var gt := FindChar(s, '>', i + 1);
      if gt >= 0 then gt - i + 1 else 0
    else 0
  }

  /** The three patterns `cleanHtmlTags` replaces, in the order it replaces them. */
  datatype TagRule = ClosingBreak | BreakTag | AnyTag

  function RuleLen(rule: TagRule, s: string, i: nat): (n: nat)
    ensures n == 0 || (i + n <= |s| && s[i] == '<')
  {
    match rule
    case ClosingBreak => ClosingBreakLen(s, i)
    case BreakTag => BrTagLen(s, i)
    case AnyTag => TagLen(s, i)
  }

  /** `replaceAll` of one tag rule on `s[i..]`. */
  function ReplaceTagsFrom(s: string, rule: TagRule, repl: string, i: nat): (r: string)
    requires i <= |s|
    ensures forall c :: c in r ==> c in s[i..] || c in repl
    ensures i < |s| && RuleLen(rule, s, i) == 0 ==> r != [] && r[0] == s[i]
    decreases |s| - i
  {
    if i == |s| then []
    else
      var n := RuleLen(rule, s, i);
      if n > 0 then
        var rest := ReplaceTagsFrom(s, rule, repl, i + n);
        assert forall c :: c in s[i + n..] ==> c in s[i..];
        repl + rest
      else
        var rest := ReplaceTagsFrom(s, rule, repl, i + 1);
        assert forall c :: c in s[i + 1..] ==> c in s[i..];
        [s[i]] + rest
  }

  function ReplaceTags(s: string, rule: TagRule, repl: string): (r: string)
    ensures forall c :: c in r ==> c in s || c in repl
  {
    assert s[0..] == s;
    ReplaceTagsFrom(s, rule, repl, 0)
  }

  /** Without a '<' no tag rule matches and the text is copied. */
  lemma {:induction false} ReplaceTagsFromNoAngle(s: string, rule: TagRule, repl: string, i: nat)
    requires i <= |s| && forall k :: i <= k < |s| ==> s[k] != '<'
    ensures ReplaceTagsFrom(s, rule, repl, i) == s[i..]
    decreases |s| - i
  {
    if i < |s| {
      ReplaceTagsFromNoAngle(s, rule, repl, i + 1);
      assert s[i..] == [s[i]] + s[i + 1..];
    }
  }

  lemma ReplaceTagsNoAngle(s: string, rule: TagRule, repl: string)
    requires '<' !in s
    ensures ReplaceTags(s, rule, repl) == s
  {
    ReplaceTagsFromNoAngle(s, rule, repl, 0);
  }

  /** Break tags become '\n', the remaining tags are deleted, and only then are entities decoded; null gives "". */
  function CleanHtmlTags(html: Option<string>): (r: string)
    ensures html.None? ==> r == []
  {
    if html.None? then []
    else
      var breaks := ReplaceTags(html.value, ClosingBreak, "\n");
      var brs := ReplaceTags(breaks, BreakTag, "\n");
      DecodeHtmlEntities(Some(StripTags(brs)))
  }

  /** `HTML_TAG_PATTERN.matcher(s).replaceAll("")`. */
  function StripTags(s: string): (r: string)
    ensures forall c :: c in r ==> c in s
  {
    ReplaceTags(s, AnyTag, "")
  }

  /** No position of `s` starts a match of `<[^>]+>`: after any '<' with a non-'>' successor there is no '>'. */
  predicate NoTag(s: string)
  {
    forall k :: 0 <= k < |s| - 1 && s[k] == '<' && s[k + 1] != '>' ==> '>' !in s[k + 1..]
  }

  /** `NoTag` is exactly "the tag pattern matches nowhere". */
  lemma NoTagIff(s: string)
    ensures NoTag(s) <==> forall k :: 0 <= k < |s| ==> TagLen(s, k) == 0
  {
    if NoTag(s) {
      forall k | 0 <= k < |s| ensures TagLen(s, k) == 0 {
        if k + 1 < |s| && s[k] == '<' && s[k + 1] != '>' {
          var gt := FindChar(s, '>', k + 1);
        }
      }
    } else {
      var k :| 0 <= k < |s| - 1 && s[k] == '<' && s[k + 1] != '>' && '>' in s[k + 1..];
      var j :| 0 <= j < |s[k + 1..]| && s[k + 1..][j] == '>';
      assert s[k + 1 + j] == '>';
      assert TagLen(s, k) != 0;
    }
  }

  lemma {:induction false} StripTagsFromNoTag(s: string, i: nat)
    requires i <= |s|
    ensures NoTag(ReplaceTagsFrom(s, AnyTag, "", i))
    decreases |s| - i
  {
    if i < |s| {
      var n := TagLen(s, i);
      if n > 0 {
        StripTagsFromNoTag(s, i + n);
        assert ReplaceTagsFrom(s, AnyTag, "", i) == ReplaceTagsFrom(s, AnyTag, "", i + n);
      } else {
        StripTagsFromNoTag(s, i + 1);
        StripRestFacts(s, i);
        NoTagCons(s, i, ReplaceTagsFrom(s, AnyTag, "", i + 1));
      }
    }
  }

  /** Where no tag starts, stripping keeps the character and goes on with the rest. */
  lemma StripRestFacts(s: string, i: nat)
    requires i < |s| && TagLen(s, i) == 0
    ensures var rest := ReplaceTagsFrom(s, AnyTag, "", i + 1);
      && ReplaceTagsFrom(s, AnyTag, "", i) == [s[i]] + rest
      && (forall c :: c in rest ==> c in s[i + 1..])
      && (i + 1 < |s| && TagLen(s, i + 1) == 0 ==> rest != [] && rest[0] == s[i + 1])
      && (i + 1 < |s| && s[i + 1] == '>' ==> rest != [] && rest[0] == '>')
  {
    if i + 1 < |s| && s[i + 1] == '>' {
      assert TagLen(s, i + 1) == 0;
    }
  }

  /** Prepending a character that starts no tag keeps a tag-free rest tag-free. */
  lemma NoTagCons(s: string, i: nat, rest: string)
    requires i < |s| && TagLen(s, i) == 0 && NoTag(rest)
    requires forall c :: c in rest ==> c in s[i + 1..]
    requires i + 1 < |s| && TagLen(s, i + 1) == 0 ==> rest != [] && rest[0] == s[i + 1]
    requires i + 1 < |s| && s[i + 1] == '>' ==> rest != [] && rest[0] == '>'
    ensures NoTag([s[i]] + rest)
  {
    var r := [s[i]] + rest;
    forall k | 0 <= k < |r| - 1 && r[k] == '<' && r[k + 1] != '>' ensures '>' !in r[k + 1..] {
      if k == 0 {
        assert r[1..] == rest;
        if i + 1 < |s| && s[i + 1] != '>' {
          var gt := FindChar(s, '>', i + 1);
          assert gt < 0;
          assert '>' !in s[i + 1..];
        } else if i + 1 == |s| {
          assert s[i + 1..] == [];
        }
      } else {
        assert r[k + 1..] == rest[k..];
      }
    }
  }

  /** After `StripTags` no tag remains. */
  lemma StripTagsNoTag(s: string)
    ensures NoTag(StripTags(s))
  {
    StripTagsFromNoTag(s, 0);
  }

  /**
   * Entities are decoded after the tags are removed, so an escaped tag survives
   * as a literal tag: `"&lt;b&gt;"` cleans to `"<b>"`.
   */
  lemma EscapedTagSurvives(t: string)
    requires '&' !in t && '<' !in t
    ensures CleanHtmlTags(Some("&lt;" + t + "&gt;")) == "<" + t + ">"
  {
    var s := "&lt;" + t + "&gt;";
    assert '<' !in s by {
      assert forall k :: 0 <= k < |s| ==> s[k] in "&lt;" || s[k] in t || s[k] in "&gt;";
    }
    CleanHtmlTagsNoAngle(s);
    DecodeEscapedTag(t);
  }

  /** Without a `<` no tag rule applies, so cleaning is decoding alone. */
  lemma CleanHtmlTagsNoAngle(s: string)
    requires '<' !in s
    ensures CleanHtmlTags(Some(s)) == DecodeHtmlEntities(Some(s))
  {
    ReplaceTagsNoAngle(s, ClosingBreak, "\n");
    ReplaceTagsNoAngle(s, BreakTag, "\n");
    ReplaceTagsNoAngle(s, AnyTag, "");
  }

  lemma DecodeEscapedTag(t: string)
    requires '&' !in t
    ensures DecodeHtmlEntities(Some("&lt;" + t + "&gt;")) == "<" + t + ">"
  {
    DecodeLtStep(t);
    DecodeGtStep(t);
    var u := "<" + t + ">";
    assert '&' !in u by {
      assert forall k :: 0 <= k < |u| ==> u[k] == '<' || u[k] in t || u[k] == '>';
    }
    DecodeTagsThenRest("&lt;" + t + "&gt;", u);
  }

  /** When the first two replacements leave a text without '&', the other ten change nothing. */
  lemma DecodeTagsThenRest(s: string, u: string)
    requires Replace(Replace(s, "&lt;", "<"), "&gt;", ">") == u && '&' !in u
    ensures DecodeHtmlEntities(Some(s)) == u
  {
    DecodeAfterTags(u);
  }

  lemma DecodeLtStep(t: string)
    requires '&' !in t
    ensures Replace("&lt;" + t + "&gt;", "&lt;", "<") == "<" + t + "&gt;"
  {
    var s := "&lt;" + t + "&gt;";
    assert s[..4] == "&lt;";
    assert s[4..] == t + "&gt;";
    ReplaceThroughPlain(t, "&gt;", "&lt;", "<");
    assert Replace("&gt;", "&lt;", "<") == "&gt;" by {
      assert "&gt;"[..4] != "&lt;" by { assert "&gt;"[..4][1] != "&lt;"[1]; }
      assert "&gt;"[1..] == "gt;";
      NotContainsFirst("gt;", "&lt;");
    }
  }

  lemma DecodeGtStep(t: string)
    requires '&' !in t
    ensures Replace("<" + t + "&gt;", "&gt;", ">") == "<" + t + ">"
  {
    assert "<" + t + "&gt;" == ("<" + t) + "&gt;";
    ReplaceThroughPlain("<" + t, "&gt;", "&gt;", ">");
    assert Replace("&gt;", "&gt;", ">") == ">" by {
      assert "&gt;"[..4] == "&gt;";
      assert "&gt;"[4..] == "";
    }
  }

  /** The replacements after `&gt;` leave a text without '&' alone. */
  lemma DecodeAfterTags(t: string)
    requires '&' !in t
    ensures Replace(Replace(Replace(Replace(Replace(Replace(Replace(Replace(Replace(Replace(t,
              "&amp;", "&"), "&quot;", "\""), "&apos;", "'"), "&nbsp;", " "), "&#8212;", "—"),
              "&#8211;", "–"), "&#8220;", "\""), "&#8221;", "\""), "&#8216;", "'"), "&#8217;", "'") == t
  {
    NotContainsFirst(t, "&amp;");
    NotContainsFirst(t, "&quot;");
    NotContainsFirst(t, "&apos;");
    NotContainsFirst(t, "&nbsp;");
    NotContainsFirst(t, "&#8212;");
    NotContainsFirst(t, "&#8211;");
    NotContainsFirst(t, "&#8220;");
    NotContainsFirst(t, "&#8221;");
    NotContainsFirst(t, "&#8216;");
    NotContainsFirst(t, "&#8217;");
  }

  // ---------------------------------------------------------------------------
  // cleanWhitespace
  // ---------------------------------------------------------------------------

  /**
   * `\s+` to one space, then `(?m)^\s+` and `(?m)\s+$` removed, then `\n{3,}` to "\n\n"; null gives "".
   * The first step already turns every newline into a space.
   */
  function CleanWhitespace(text: Option<string>): (r: string)
    ensures text.None? ==> r == []
    ensures forall c :: c in r && IsRegexSpace(c) ==> c == ' '
    ensures '\n' !in r
    ensures NoAdjacent(r, Whitespace)
    ensures r == [] || (!IsRegexSpace(r[0]) && !IsRegexSpace(r[|r| - 1]))
  {
    if text.None? then []
    else
      var spaced := ReplaceRuns(text.value, Whitespace, 1, " ");
      ReplaceRunsSingle(text.value, Whitespace, ' ');
      var starts := StripLineStarts(spaced);
      StripLineStartsNoAdjacent(spaced, Whitespace);
      var ends := StripLineEnds(starts);
      StripLineEndsNoAdjacent(starts, Whitespace);
      NewlineSqueezeIsNoOp(ends);
      ReplaceRuns(ends, Newline, 3, "\n\n")
  }

  /** The `\n{3,}` step of `cleanWhitespace` meets no newline and changes nothing. */
  lemma NewlineSqueezeIsNoOp(s: string)
    requires forall c :: c in s && IsRegexSpace(c) ==> c == ' '
    ensures ReplaceRuns(s, Newline, 3, "\n\n") == s
  {
    forall j | 0 <= j < |s| ensures !InClass(Newline, s[j]) {
      ClassIsWhitespace(Newline, s[j]);
    }
    ReplaceRunsFromShort(s, Newline, 3, "\n\n", 0);
    assert s[0..] == s;
  }

  // ---------------------------------------------------------------------------
  // Element patterns: `<p[^>]*>(.*?)</p>`, `<h[1-6][^>]*>(.*?)</h[1-6]>`,
  // `<body[^>]*>(.*?)</body>`, `<title[^>]*>(.*?)</title>` (DOTALL, CASE_INSENSITIVE)
  // ---------------------------------------------------------------------------

  datatype Element = Paragraph | Heading | Body | TitleTag

  /** The opening `<name` of the element (with the level digit for headings) at `i`. */
  predicate OpenAt(s: string, i: nat, e: Element)
  {
    match e
    case Paragraph => LitAt(s, i, "<p")
    case Heading => LitAt(s, i, "<h") && i + 3 <= |s| && '1' <= s[i + 2] <= '6'
    case Body => LitAt(s, i, "<body")
    case TitleTag => LitAt(s, i, "<title")
  }

  function OpenLen(e: Element): nat
  {
    match e
    case Paragraph => 2
    case Heading => 3
    case Body => 5
    case TitleTag => 6
  }

  /** The closing tag at `j`; a heading may be closed by a heading tag of any level. */
  predicate CloseAt(s: string, j: nat, e: Element)
  {
    match e
    case Paragraph => LitAt(s, j, "</p>")
    case Heading => LitAt(s, j, "</h") && j + 5 <= |s| && '1' <= s[j + 3] <= '6' && s[j + 4] == '>'
    case Body => LitAt(s, j, "</body>")
    case TitleTag => LitAt(s, j, "</title>")
  }

  function CloseLen(e: Element): nat
  {
    match e
    case Paragraph => 4
    case Heading => 5
    case Body => 7
    case TitleTag => 8
  }

  /** The first closing tag at or after `from`: the lazy `(.*?)` stops there. */
  function FirstClose(s: string, from: nat, e: Element): (r: int)
    requires from <= |s|
    ensures r == -1 || (from <= r && r + CloseLen(e) <= |s| && CloseAt(s, r, e))
    ensures forall k :: from <= k <= |s| && (r == -1 || k < r) ==> !CloseAt(s, k, e)
    decreases |s| - from
  {
    if from == |s| then -1
    else if CloseAt(s, from, e) then from
    else FirstClose(s, from + 1, e)
  }

  /** The span of one element match: its group-1 content and the index after the closing tag. */
  datatype Span = Span(contentStart: nat, contentEnd: nat, end: nat)

  /** The match of the element pattern starting exactly at `i`, if any. */
  function ElementAt(s: string, i: nat, e: Element): (m: Option<Span>)
    requires i <= |s|
    ensures m.Some? ==> i < m.value.contentStart <= m.value.contentEnd < m.value.end <= |s|
    ensures m.Some? ==> OpenAt(s, i, e) && CloseAt(s, m.value.contentEnd, e)
    ensures m.Some? ==> i + OpenLen(e) < m.value.contentStart && s[m.value.contentStart - 1] == '>'
    ensures m.Some? ==> forall k :: i + OpenLen(e) <= k < m.value.contentStart - 1 ==> s[k] != '>'
  {
    if !OpenAt(s, i, e) || i + OpenLen(e) > |s| then None
    else
      var gt := FindChar(s, '>', i + OpenLen(e));
      if gt < 0 then None
      else
        var c := FirstClose(s, gt + 1, e);
        if c < 0 then None else Some(Span(gt + 1, c, c + CloseLen(e)))
  }

  /** `matcher.find()` from `from`: the leftmost match starting at or after it. */
  function FindElement(s: string, from: nat, e: Element): (m: Option<Span>)
    requires from <= |s|
    ensures m.Some? ==> from < m.value.contentStart <= m.value.contentEnd < m.value.end <= |s|
    decreases |s| - from
  {
    if from == |s| then None
    else
      match ElementAt(s, from, e)
      case Some(m) => Some(m)
      case None => FindElement(s, from + 1, e)
  }

  /** `find()` never skips a match: every position before the one found starts none. */
  lemma FindElementIsLeftmost(s: string, from: nat, e: Element)
    requires from <= |s|
    ensures FindElement(s, from, e).None? ==> forall i :: from <= i <= |s| ==> ElementAt(s, i, e).None?
    ensures FindElement(s, from, e).Some? ==>
      exists i :: from <= i <= |s| && ElementAt(s, i, e) == FindElement(s, from, e)
        && forall j :: from <= j < i ==> ElementAt(s, j, e).None?
  {
    if FindElement(s, from, e).None? {
      FindElementNone(s, from, e);
    } else {
      var i := FindElementSome(s, from, e);
    }
  }

  lemma {:induction false} FindElementNone(s: string, from: nat, e: Element)
    requires from <= |s| && FindElement(s, from, e).None?
    ensures forall i :: from <= i <= |s| ==> ElementAt(s, i, e).None?
    decreases |s| - from
  {
    if from < |s| {
      assert ElementAt(s, from, e).None?;
      FindElementNone(s, from + 1, e);
      forall i | from <= i <= |s| ensures ElementAt(s, i, e).None? {
        if i > from {
          assert from + 1 <= i <= |s|;
        }
      }
    } else {
      assert ElementAt(s, from, e).None?;
    }
  }

  lemma {:induction false} FindElementSome(s: string, from: nat, e: Element) returns (i: nat)
    requires from <= |s| && FindElement(s, from, e).Some?
    ensures from <= i <= |s| && ElementAt(s, i, e) == FindElement(s, from, e)
    ensures forall j :: from <= j < i ==> ElementAt(s, j, e).None?
    decreases |s| - from
  {
    var here := ElementAt(s, from, e);
    if here.Some? {
      i := from;
      assert FindElement(s, from, e) == here;
    } else {
      assert FindElement(s, from, e) == FindElement(s, from + 1, e);
      i := FindElementSome(s, from + 1, e);
      forall j | from <= j < i ensures ElementAt(s, j, e).None? {
        if j == from {
          assert ElementAt(s, j, e) == here;
        }
      }
    }
  }

  /** The group-1 contents of successive `find()` calls from `from`. */
  function ElementContents(s: string, from: nat, e: Element): seq<string>
    requires from <= |s|
    decreases |s| - from
  {
    match FindElement(s, from, e)
    case None => []
    case Some(m) => [s[m.contentStart..m.contentEnd]] + ElementContents(s, m.end, e)
  }

  /** The group-1 content of the first match, if any. */
  function FirstContent(s: string, e: Element): Option<string>
  {
    match FindElement(s, 0, e)
    case None => None
    case Some(m) => Some(s[m.contentStart..m.contentEnd])
  }

  /** "<p" is only a prefix test: `<pre>` opens a paragraph match too. */
  lemma PreOpensParagraph()
    ensures FirstContent("<pre>x</p>", Paragraph) == Some("x")
  {
    var s := "<pre>x</p>";
    assert s[0..2] == "<p";
    assert OpenAt(s, 0, Paragraph);
    assert FindChar(s, '>', 2) == 4 by {
      assert s[2] != '>' && s[3] != '>' && s[4] == '>';
    }
    assert !CloseAt(s, 5, Paragraph) by { assert ToLower(s[5..9])[0] != "</p>"[0]; }
    assert s[6..10] == "</p>";
    assert FirstClose(s, 5, Paragraph) == 6;
    assert ElementAt(s, 0, Paragraph) == Some(Span(5, 6, 10));
    assert s[5..6] == "x";
  }

  // ---------------------------------------------------------------------------
  // extractAndCleanText
  // ---------------------------------------------------------------------------

  /** `cleanWhitespace(cleanHtmlTags(p)).trim()`. */
  function CleanParagraph(p: string): (r: string)
    ensures IsTrimmed(r)
    ensures '\n' !in r
  {
    Trim(CleanWhitespace(Some(CleanHtmlTags(Some(p)))))
  }

  /** `f` applied to every element, in order. */
  function Mapped<A, B>(f: A -> B, xs: seq<A>): (ys: seq<B>)
    ensures |ys| == |xs|
    ensures forall j :: 0 <= j < |xs| ==> ys[j] == f(xs[j])
  {
    if xs == [] then [] else Mapped(f, xs[..|xs| - 1]) + [f(xs[|xs| - 1])]
  }

  lemma MappedAppend<A, B>(f: A -> B, xs: seq<A>, x: A)
    ensures Mapped(f, xs + [x]) == Mapped(f, xs) + [f(x)]
  {
    assert (xs + [x])[..|xs|] == xs;
  }

  /** Every paragraph cleaned, in order. */
  function CleanAll(ps: seq<string>): (cs: seq<string>)
    ensures |cs| == |ps|
    ensures forall j :: 0 <= j < |ps| ==> cs[j] == CleanParagraph(ps[j])
  {
    Mapped(CleanParagraph, ps)
  }

  lemma CleanAllAppend(ps: seq<string>, p: string)
    ensures CleanAll(ps + [p]) == CleanAll(ps) + [CleanParagraph(p)]
  {
    MappedAppend(CleanParagraph, ps, p);
  }

  /** The cleaned paragraphs that are not blank, in document order. */
  function KeptParagraphs(ps: seq<string>): seq<string>
  {
    NonEmpty(CleanAll(ps))
  }

  /** Filtering trimmed one-line texts keeps exactly the non-empty ones, which stay trimmed and on one line. */
  lemma {:induction false} NonEmptyShape(cs: seq<string>)
    requires forall j :: 0 <= j < |cs| ==> IsTrimmed(cs[j]) && '\n' !in cs[j]
    ensures forall j :: 0 <= j < |NonEmpty(cs)| ==>
      NonEmpty(cs)[j] != [] && IsTrimmed(NonEmpty(cs)[j]) && '\n' !in NonEmpty(cs)[j]
    decreases |cs|
  {
    if cs != [] {
      NonEmptyShape(cs[..|cs| - 1]);
    }
  }

  /** Every kept paragraph is non-empty, trimmed and on one line. */
  lemma KeptParagraphsShape(ps: seq<string>)
    ensures forall j :: 0 <= j < |KeptParagraphs(ps)| ==>
      KeptParagraphs(ps)[j] != [] && IsTrimmed(KeptParagraphs(ps)[j]) && '\n' !in KeptParagraphs(ps)[j]
  {
    NonEmptyShape(CleanAll(ps));
  }

  /** What the `<p>` loop appends after each kept paragraph. */
  const ParagraphBreak: string := "\n\n"

  /** Each kept paragraph followed by "\n\n", as the loop's `StringBuilder` holds them. */
  function Terminated(qs: seq<string>): (r: string)
    ensures r == [] <==> qs == []
    decreases |qs|
  {
    if qs == [] then [] else Terminated(qs[..|qs| - 1]) + qs[|qs| - 1] + ParagraphBreak
  }

  lemma {:induction false} TerminatedIsJoin(qs: seq<string>)
    requires qs != []
    ensures Terminated(qs) == JoinWith(qs, ParagraphBreak) + ParagraphBreak
    decreases |qs|
  {
    if |qs| > 1 {
      TerminatedIsJoin(qs[..|qs| - 1]);
    }
  }

  /** The document `<body>` content, or the whole document when there is none. */
  function FallbackSource(html: string): string
  {
    match FirstContent(html, Body)
    case Some(b) => b
    case None => html
  }

  /**
   * The text `extractAndCleanText` returns: the kept paragraphs joined by blank
   * lines; when no paragraph survives, the cleaned body (or whole document).
   */
  function ExtractedText(html: string): (r: string)
    ensures IsTrimmed(r)
  {
    var kept := KeptParagraphs(ElementContents(html, 0, Paragraph));
    if kept != [] then
      KeptParagraphsShape(ElementContents(html, 0, Paragraph));
      JoinWithEnds(kept, ParagraphBreak);
      JoinWith(kept, ParagraphBreak)
    else Trim(CleanWhitespace(Some(CleanHtmlTags(Some(FallbackSource(html))))))
  }

  /** Joined paragraphs are separated by blank lines only: no paragraph holds a newline of its own. */
  lemma ExtractedParagraphsSingleLine(html: string)
    ensures forall q :: q in KeptParagraphs(ElementContents(html, 0, Paragraph)) ==> q != [] && '\n' !in q
    ensures KeptParagraphs(ElementContents(html, 0, Paragraph)) == [] ==> '\n' !in ExtractedText(html)
  {
    KeptParagraphsShape(ElementContents(html, 0, Paragraph));
  }

  method ExtractAndCleanText(html: string) returns (r: string)
    ensures r == ExtractedText(html)
  {
    var result := CollectParagraphs(html);
    if result == [] {
      var body := FirstContent(html, Body);
      var source := if body.Some? then body.value else html;
      var cleanText := CleanWhitespace(Some(CleanHtmlTags(Some(source))));
      result := result + Trim(cleanText);
      r := Trim(result);
      FinishFallback(html, ElementContents(html, 0, Paragraph), result);
    } else {
      r := Trim(result);
      FinishParagraphs(html, ElementContents(html, 0, Paragraph), result);
    }
  }

  /** The `<p>` loop of `extractAndCleanText`: each kept paragraph followed by a blank line. */
  method CollectParagraphs(html: string) returns (result: string)
    ensures result == Terminated(KeptParagraphs(ElementContents(html, 0, Paragraph)))
  {
    result := [];
    var pos: nat := 0;
    ghost var seen: seq<string> := [];
    var found := FindElement(html, pos, Paragraph);
    while found.Some?
      invariant pos <= |html|
      invariant found == FindElement(html, pos, Paragraph)
      invariant ElementContents(html, 0, Paragraph) == seen + ElementContents(html, pos, Paragraph)
      invariant result == Terminated(KeptParagraphs(seen))
      decreases |html| - pos
    {
      var m := found.value;
      var paragraph := html[m.contentStart..m.contentEnd];
      var cleanParagraph := CleanWhitespace(Some(CleanHtmlTags(Some(paragraph))));
      var trimmed := Trim(cleanParagraph);
      ParagraphStep(html, pos, seen, result);
      if trimmed != [] {
        result := result + (trimmed + ParagraphBreak);
      }
      seen := seen + [paragraph];
      pos := m.end;
      found := FindElement(html, pos, Paragraph);
    }
    assert seen == ElementContents(html, 0, Paragraph);
  }

  lemma FinishFallback(html: string, seen: seq<string>, result: string)
    requires seen == ElementContents(html, 0, Paragraph) && Terminated(KeptParagraphs(seen)) == []
    requires result == Trim(CleanWhitespace(Some(CleanHtmlTags(Some(FallbackSource(html))))))
    ensures Trim(result) == ExtractedText(html)
  {
  }

  lemma FinishParagraphs(html: string, seen: seq<string>, result: string)
    requires seen == ElementContents(html, 0, Paragraph)
    requires result == Terminated(KeptParagraphs(seen)) && result != []
    ensures Trim(result) == ExtractedText(html)
  {
    KeptParagraphsShape(seen);
    TrimTerminated(KeptParagraphs(seen));
  }

  /** Trimming the loop's text drops exactly the final blank line. */
  lemma TrimTerminated(kept: seq<string>)
    requires kept != []
    requires forall j :: 0 <= j < |kept| ==> kept[j] != [] && IsTrimmed(kept[j])
    ensures Trim(Terminated(kept)) == JoinWith(kept, ParagraphBreak)
  {
    TerminatedIsJoin(kept);
    BreakIsBlank();
    TrimJoinedTail(kept, ParagraphBreak);
  }

  lemma BreakIsBlank()
    ensures IsBlank(ParagraphBreak)
  {
  }

  /** A join of trimmed non-empty parts followed by a blank separator trims back to the join. */
  lemma TrimJoinedTail(parts: seq<string>, sep: string)
    requires parts != [] && IsBlank(sep)
    requires forall j :: 0 <= j < |parts| ==> parts[j] != [] && IsTrimmed(parts[j])
    ensures Trim(JoinWith(parts, sep) + sep) == JoinWith(parts, sep)
  {
    JoinWithEnds(parts, sep);
    TrimAppendBlank(JoinWith(parts, sep), sep);
  }

  /** One `find()` step: the contents seen so far grow by the match's content. */
  lemma ContentsStep(html: string, pos: nat, seen: seq<string>)
    requires pos <= |html| && FindElement(html, pos, Paragraph).Some?
    requires ElementContents(html, 0, Paragraph) == seen + ElementContents(html, pos, Paragraph)
    ensures var m := FindElement(html, pos, Paragraph).value;
      ElementContents(html, 0, Paragraph) == (seen + [html[m.contentStart..m.contentEnd]]) + ElementContents(html, m.end, Paragraph)
  {
  }

  /** One step of the `<p>` loop: the next paragraph joins those seen, and its cleaned text the result. */
  lemma ParagraphStep(html: string, pos: nat, seen: seq<string>, result: string)
    requires pos <= |html| && FindElement(html, pos, Paragraph).Some?
    requires ElementContents(html, 0, Paragraph) == seen + ElementContents(html, pos, Paragraph)
    requires result == Terminated(KeptParagraphs(seen))
    ensures var m := FindElement(html, pos, Paragraph).value;
      var p := html[m.contentStart..m.contentEnd];
      ElementContents(html, 0, Paragraph) == (seen + [p]) + ElementContents(html, m.end, Paragraph) &&
      result + (if CleanParagraph(p) != [] then CleanParagraph(p) + ParagraphBreak else []) ==
        Terminated(KeptParagraphs(seen + [p]))
  {
    var m := FindElement(html, pos, Paragraph).value;
    ContentsStep(html, pos, seen);
    KeptStep(seen, html[m.contentStart..m.contentEnd]);
  }

  /** One loop step: the terminated text grows by the paragraph's cleaned text when it is not blank. */
  lemma KeptStep(seen: seq<string>, p: string)
    ensures Terminated(KeptParagraphs(seen + [p])) ==
      Terminated(KeptParagraphs(seen)) + (if CleanParagraph(p) != [] then CleanParagraph(p) + ParagraphBreak else [])
  {
    CleanAllAppend(seen, p);
    NonEmptyStep(CleanAll(seen), CleanParagraph(p));
  }

  lemma NonEmptyStep(cs: seq<string>, c: string)
    ensures Terminated(NonEmpty(cs + [c])) == Terminated(NonEmpty(cs)) + (if c != [] then c + ParagraphBreak else [])
  {
    assert (cs + [c])[..|cs|] == cs;
    var k := NonEmpty(cs);
    if c != [] {
      assert (k + [c])[..|k|] == k;
    }
  }

  // ---------------------------------------------------------------------------
  // extractChapterTitle, parseChapter, Chapter
  // ---------------------------------------------------------------------------

  /** The first heading's cleaned text; without a heading, the `<title>` text; otherwise "". */
  function ExtractChapterTitle(html: string): (r: string)
    ensures IsTrimmed(r)
    ensures FirstContent(html, Heading).Some? ==> r == Trim(CleanHtmlTags(FirstContent(html, Heading)))
    ensures FirstContent(html, Heading).None? && FirstContent(html, TitleTag).None? ==> r == []
  {
    match FirstContent(html, Heading)
    case Some(h) => Trim(CleanHtmlTags(Some(h)))
    case None =>
      match FirstContent(html, TitleTag)
      case Some(t) => Trim(CleanHtmlTags(Some(t)))
      case None => []
  }

  /** A chapter as the loader builds it; a field never set stays null (`None`). */
  datatype Chapter = Chapter(id: Option<string>, title: Option<string>, content: Option<string>)

  /** The title used when the document yields none. */
  function DefaultTitle(chapterId: string): string
  {
    "第 " + chapterId + " 章"
  }

  /** The chapter `parseChapter` returns for a document and its spine id. */
  function ChapterOf(html: string, chapterId: string): (ch: Chapter)
    ensures ch.id == Some(chapterId) && ch.content == Some(ExtractedText(html))
    ensures ch.title.Some? && ch.title.value != []
    ensures ch.title == Some(DefaultTitle(chapterId)) <== ExtractChapterTitle(html) == []
    ensures ExtractChapterTitle(html) != [] ==> ch.title == Some(ExtractChapterTitle(html))
  {
    var title := ExtractChapterTitle(html);
    Chapter(Some(chapterId), Some(if title == [] then DefaultTitle(chapterId) else title), Some(ExtractedText(html)))
  }

  method ParseChapter(html: string, chapterId: string) returns (chapter: Chapter)
    ensures chapter == ChapterOf(html, chapterId)
  {
    var title := ExtractChapterTitle(html);
    var cleanText := ExtractAndCleanText(html);
    chapter := Chapter(Some(chapterId), Some(if title == [] then DefaultTitle(chapterId) else title), Some(cleanText));
  }

  /** A document without heading or `<title>` gets the default title. */
  lemma UntitledChapterGetsDefault(html: string, chapterId: string)
    requires FirstContent(html, Heading).None? && FirstContent(html, TitleTag).None?
    ensures ChapterOf(html, chapterId).title == Some(DefaultTitle(chapterId))
  {
  }

  /** `Chapter.getCleanText`: "" without content; the title and a blank line before the content when there is a title. */
  function GetCleanText(chapter: Chapter): (r: string)
    ensures chapter.content.None? ==> r == []
    ensures chapter.content.Some? && chapter.title.Some? && chapter.title.value != [] ==>
      r == chapter.title.value + "\n\n" + chapter.content.value
    ensures chapter.content.Some? && (chapter.title.None? || chapter.title.value == []) ==> r == chapter.content.value
  {
    if chapter.content.None? then []
    else if chapter.title.Some? && chapter.title.value != [] then chapter.title.value + "\n\n" + chapter.content.value
    else chapter.content.value
  }

  /** The clean text of a titled chapter starts with the title and ends with the content. */
  lemma CleanTextFrames(chapter: Chapter)
    requires chapter.content.Some? && chapter.title.Some? && chapter.title.value != []
    ensures StartsWith(GetCleanText(chapter), chapter.title.value + "\n\n")
    ensures EndsWith(GetCleanText(chapter), chapter.content.value)
    ensures |GetCleanText(chapter)| == |chapter.title.value| + 2 + |chapter.content.value|
  {
    var r := GetCleanText(chapter);
    var h := chapter.title.value + "\n\n";
    assert r == h + chapter.content.value;
    assert r[..|h|] == h;
    assert r[|r| - |chapter.content.value|..] == chapter.content.value;
  }

  // ---------------------------------------------------------------------------
  // EpubStructure and parseEpubStructure
  // ---------------------------------------------------------------------------

  const ContainerXml: string := "META-INF/container.xml"

  /** The directory part of the OPF path, with its trailing '/', when the last '/' is not at index 0. */
  function BasePathOf(opfPath: string): (r: string)
    ensures r != [] ==> 2 <= |r| <= |opfPath| && r == opfPath[..|r|] && r[|r| - 1] == '/'
    ensures forall k :: |r| <= k < |opfPath| && 0 < k ==> opfPath[k] != '/'
    ensures r == [] ==> forall k :: 0 < k < |opfPath| ==> opfPath[k] != '/'
  {
    var lastSlash := LastIndexOfChar(opfPath, '/');
    if lastSlash > 0 then opfPath[..lastSlash + 1] else []
  }

  /** An OPF `<item>`: id, href and media type. */
  datatype ManifestItem = ManifestItem(id: string, href: string, mediaType: string)

  /** The manifest table after putting each item in order: later duplicates win, hrefs are prefixed, media types dropped. */
  function ManifestMap(basePath: string, items: seq<ManifestItem>): map<string, string>
    decreases |items|
  {
    if items == [] then map[]
    else
      var last := items[|items| - 1];
      ManifestMap(basePath, items[..|items| - 1])[last.id := basePath + last.href]
  }

  /** An id is in the table exactly when some item has it. */
  lemma {:induction false} ManifestKeys(basePath: string, items: seq<ManifestItem>, id: string)
    ensures id in ManifestMap(basePath, items) <==> exists k :: 0 <= k < |items| && items[k].id == id
    decreases |items|
  {
    if items != [] {
      var init := items[..|items| - 1];
      ManifestKeys(basePath, init, id);
      if exists k :: 0 <= k < |items| && items[k].id == id {
        var k :| 0 <= k < |items| && items[k].id == id;
        if k < |init| {
          assert init[k] == items[k];
        }
      }
      if exists k :: 0 <= k < |init| && init[k].id == id {
        var k :| 0 <= k < |init| && init[k].id == id;
        assert items[k] == init[k];
      }
    }
  }

  /** An id is in the table exactly when some item has it, and maps to the base path plus the href of its last such item. */
  lemma {:induction false} ManifestLookup(basePath: string, items: seq<ManifestItem>, id: string)
    ensures id in ManifestMap(basePath, items) <==> exists k :: 0 <= k < |items| && items[k].id == id
    ensures id in ManifestMap(basePath, items) ==>
      exists k :: 0 <= k < |items| && items[k].id == id && ManifestMap(basePath, items)[id] == basePath + items[k].href
        && forall j :: k < j < |items| ==> items[j].id != id
    decreases |items|
  {
    ManifestKeys(basePath, items, id);
    if items != [] {
      var init := items[..|items| - 1];
      var n := |items| - 1;
      if items[n].id == id {
        assert ManifestMap(basePath, items)[id] == basePath + items[n].href;
      } else if id in ManifestMap(basePath, items) {
        ManifestLookup(basePath, init, id);
        var k :| 0 <= k < |init| && init[k].id == id && ManifestMap(basePath, init)[id] == basePath + init[k].href
          && forall j :: k < j < |init| ==> init[j].id != id;
        assert items[k] == init[k];
        assert forall j :: k < j < |items| ==> items[j].id != id by {
          forall j | k < j < |items|
            ensures items[j].id != id
          {
            if j < n {
              assert items[j] == init[j];
            }
          }
        }
      }
    }
  }

  class EpubStructure {
    var opfPath: string
    var basePath: string
    var spineItems: seq<string>
    var manifestItems: map<string, string>

    constructor()
      ensures opfPath == [] && basePath == [] && spineItems == [] && manifestItems == map[]
    {
      opfPath := [];
      basePath := [];
      spineItems := [];
      manifestItems := map[];
    }

    method SetOpfPath(path: string)
      modifies this
      ensures opfPath == path
      ensures basePath == old(basePath) && spineItems == old(spineItems) && manifestItems == old(manifestItems)
    {
      opfPath := path;
    }

    method SetBasePath(path: string)
      modifies this
      ensures basePath == path
      ensures opfPath == old(opfPath) && spineItems == old(spineItems) && manifestItems == old(manifestItems)
    {
      basePath := path;
    }

    method AddSpineItem(item: string)
      modifies this
      ensures spineItems == old(spineItems) + [item]
      ensures opfPath == old(opfPath) && basePath == old(basePath) && manifestItems == old(manifestItems)
    {
      spineItems := spineItems + [item];
    }

    /** Only id and href are kept; the media type is discarded. */
    method AddManifestItem(id: string, href: string, mediaType: string)
      modifies this
      ensures manifestItems == old(manifestItems)[id := href]
      ensures opfPath == old(opfPath) && basePath == old(basePath) && spineItems == old(spineItems)
    {
      manifestItems := manifestItems[id := href];
    }
  }

  /**
   * `parseEpubStructure`. The archive is the map from entry names to their
   * contents (`Err` when reading fails); the XML parsing is abstracted into
   * its results: the first rootfile's `full-path` (None when there is no
   * rootfile), the spine `idref`s and the manifest items, in document order.
   */
  method ParseEpubStructure(archive: map<string, Result<string>>, rootfilePath: Option<string>,
                            spine: seq<string>, manifest: seq<ManifestItem>)
    returns (r: Result<EpubStructure>)
    ensures ContainerXml !in archive ==> r == Err("找不到container.xml檔案")
    ensures ContainerXml in archive && rootfilePath.None? ==> r == Err("container.xml中找不到rootfile")
    ensures ContainerXml in archive && rootfilePath.Some? && rootfilePath.value !in archive ==>
      r == Err("找不到OPF檔案: " + rootfilePath.value)
    ensures r.Ok? <==> ContainerXml in archive && rootfilePath.Some? && rootfilePath.value in archive
    ensures r.Ok? ==>
      && fresh(r.value)
      && r.value.opfPath == rootfilePath.value
      && r.value.basePath == BasePathOf(rootfilePath.value)
      && r.value.spineItems == spine
      && r.value.manifestItems == ManifestMap(BasePathOf(rootfilePath.value), manifest)
  {
    var structure := new EpubStructure();
    if ContainerXml !in archive {
      return Err("找不到container.xml檔案");
    }
    if rootfilePath.None? {
      return Err("container.xml中找不到rootfile");
    }
    structure.SetOpfPath(rootfilePath.value);
    if structure.opfPath !in archive {
      return Err("找不到OPF檔案: " + structure.opfPath);
    }
    var basePath := [];
    var lastSlash := LastIndexOfChar(structure.opfPath, '/');
    if lastSlash > 0 {
      basePath := structure.opfPath[..lastSlash + 1];
    }
    structure.SetBasePath(basePath);
    for i := 0 to |spine|
      invariant structure.opfPath == rootfilePath.value && structure.basePath == basePath
      invariant structure.spineItems == spine[..i] && structure.manifestItems == map[]
    {
      structure.AddSpineItem(spine[i]);
      assert spine[..i + 1] == spine[..i] + [spine[i]];
    }
    for i := 0 to |manifest|
      invariant structure.opfPath == rootfilePath.value && structure.basePath == basePath
      invariant structure.spineItems == spine
      invariant structure.manifestItems == ManifestMap(basePath, manifest[..i])
    {
      structure.AddManifestItem(manifest[i].id, basePath + manifest[i].href, manifest[i].mediaType);
      assert manifest[..i + 1][..i] == manifest[..i];
    }
    assert spine[..|spine|] == spine;
    assert manifest[..|manifest|] == manifest;
    return Ok(structure);
  }

  // ---------------------------------------------------------------------------
  // extractChapters
  // ---------------------------------------------------------------------------

  /** The placeholder for an entry that could not be read: no id, an error title and an error text. */
  function ErrorChapter(spineId: string): Chapter
  {
    Chapter(None, Some("錯誤章節: " + spineId), Some("無法載入此章節內容"))
  }

  /** What one spine id contributes: nothing when the manifest or the archive lacks it. */
  function ChapterFor(spineId: string, manifest: map<string, string>, archive: map<string, Result<string>>): Option<Chapter>
  {
    if spineId in manifest && manifest[spineId] in archive then
      match archive[manifest[spineId]]
      case Ok(content) => Some(ChapterOf(content, spineId))
      case Err(_) => Some(ErrorChapter(spineId))
    else None
  }

  /** The chapters of a spine, in spine order. */
  function ChaptersFor(spine: seq<string>, manifest: map<string, string>, archive: map<string, Result<string>>): seq<Chapter>
    decreases |spine|
  {
    if spine == [] then []
    else
      var c := ChapterFor(spine[|spine| - 1], manifest, archive);
      ChaptersFor(spine[..|spine| - 1], manifest, archive) + (if c.Some? then [c.value] else [])
  }

  /** Chapters follow the spine: the chapters of a concatenation are the concatenation of the chapters. */
  lemma {:induction false} ChaptersForAppend(a: seq<string>, b: seq<string>,
                                            manifest: map<string, string>, archive: map<string, Result<string>>)
    ensures ChaptersFor(a + b, manifest, archive) == ChaptersFor(a, manifest, archive) + ChaptersFor(b, manifest, archive)
    decreases |b|
  {
    if b == [] {
      assert a + b == a;
    } else {
      var b0 := b[..|b| - 1];
      ChaptersForAppend(a, b0, manifest, archive);
      assert (a + b)[..|a + b| - 1] == a + b0;
      assert (a + b)[|a + b| - 1] == b[|b| - 1];
    }
  }

  /** One spine id gives no chapter when unresolvable, its parsed chapter when readable, and the placeholder otherwise. */
  lemma ChapterForSingle(spineId: string, manifest: map<string, string>, archive: map<string, Result<string>>)
    ensures spineId !in manifest || manifest[spineId] !in archive ==> ChaptersFor([spineId], manifest, archive) == []
    ensures spineId in manifest && manifest[spineId] in archive && archive[manifest[spineId]].Ok? ==>
      ChaptersFor([spineId], manifest, archive) == [ChapterOf(archive[manifest[spineId]].value, spineId)]
    ensures spineId in manifest && manifest[spineId] in archive && archive[manifest[spineId]].Err? ==>
      ChaptersFor([spineId], manifest, archive) == [ErrorChapter(spineId)]
  {
    assert [spineId][..0] == [];
  }

  method ExtractChapters(archive: map<string, Result<string>>, structure: EpubStructure) returns (chapters: seq<Chapter>)
    ensures chapters == ChaptersFor(structure.spineItems, structure.manifestItems, archive)
  {
    chapters := [];
    var spine := structure.spineItems;
    for i := 0 to |spine|
      invariant chapters == ChaptersFor(spine[..i], structure.manifestItems, archive)
    {
      var spineId := spine[i];
      assert spine[..i + 1][..i] == spine[..i];
      if spineId in structure.manifestItems {
        var filePath := structure.manifestItems[spineId];
        if filePath in archive {
          match archive[filePath]
          case Ok(content) =>
            var chapter := ParseChapter(content, spineId);
            chapters := chapters + [chapter];
          case Err(_) =>
            chapters := chapters + [ErrorChapter(spineId)];
        }
      }
    }
    assert spine[..|spine|] == spine;
  }
}
