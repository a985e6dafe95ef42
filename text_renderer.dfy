// The text-mode pane of the viewer package (viewer/TextRenderer.java): the
// extracted pages turned into display pages, the page on screen, the
// two-page spread in landscape, the search term and its highlights, and the
// chapter-heading test. Fonts, colours, margins and JavaFX nodes are left
// out; what the pane shows is the value `screen`.

module TextRenderer {
  import opened Wrappers
  import opened JavaText
  import opened JavaRegex
  import TextExtractor

  datatype DisplayMode = PageByPage | Continuous | TwoPage

  datatype DeviceOrientation = Portrait | Landscape

  datatype DeviceType = Desktop | Tablet

  /** What `formatPages` reads from one extracted page: its number and `getFormattedParagraphs()`. */
  datatype SourcePage = SourcePage(pageNumber: int, formatted: seq<string>)

  /** `TextPage`; `hasOriginal` stands for `originalPageText != null`. */
  datatype TextPage = TextPage(pageNumber: int, hasOriginal: bool, paragraphs: seq<string>, isEmpty: bool)

  // ---------------------------------------------------------------------
  // Formatting pages
  // ---------------------------------------------------------------------

  /** The paragraphs a text page keeps: each non-blank one, trimmed, in order. */
  function KeptParagraphs(formatted: seq<string>): seq<string>
  {
    NonEmpty(TrimAll(formatted))
  }

  /** The kept paragraphs are exactly the trimmed forms of the non-blank ones. */
  lemma {:induction false} KeptParagraphsIff(formatted: seq<string>, x: string)
    ensures x in KeptParagraphs(formatted) <==>
              exists k :: 0 <= k < |formatted| && !IsBlank(formatted[k]) && Trim(formatted[k]) == x
    decreases |formatted|
  {
    if formatted != [] {
      var init := formatted[..|formatted| - 1];
      var last := formatted[|formatted| - 1];
      assert TrimAll(formatted)[..|formatted| - 1] == TrimAll(init);
      KeptParagraphsIff(init, x);
      if exists k :: 0 <= k < |formatted| && !IsBlank(formatted[k]) && Trim(formatted[k]) == x {
        var k :| 0 <= k < |formatted| && !IsBlank(formatted[k]) && Trim(formatted[k]) == x;
        if k < |formatted| - 1 {
          assert init[k] == formatted[k];
        }
      }
    }
  }

  /** No kept paragraph is empty, and each is trimmed. */
  lemma KeptParagraphsTrimmed(formatted: seq<string>, x: string)
    requires x in KeptParagraphs(formatted)
    ensures x != [] && IsTrimmed(x)
  {
    KeptParagraphsIff(formatted, x);
  }

  /** The inner loop of `formatPages`: keep each non-blank paragraph, trimmed. */
  method TrimParagraphs(paragraphs: seq<string>) returns (kept: seq<string>)
    ensures kept == KeptParagraphs(paragraphs)
  {
    kept := [];
    for i := 0 to |paragraphs|
      invariant kept == KeptParagraphs(paragraphs[..i])
    {
      assert TrimAll(paragraphs[..i + 1])[..i] == TrimAll(paragraphs[..i]);
      if !IsBlank(paragraphs[i]) {
        kept := kept + [Trim(paragraphs[i])];
      }
    }
    assert paragraphs[..|paragraphs|] == paragraphs;
  }

  /** The display page `formatPages` makes of one extracted page. */
  function FormatPage(source: SourcePage): TextPage
  {
    TextPage(source.pageNumber, true, KeptParagraphs(source.formatted), source.formatted == [])
  }

  /**
   * The display pages of all extracted pages, one each, in order: the same
   * page number, the kept paragraphs, marked empty exactly when the page
   * had no paragraphs at all.
   */
  function FormatAll(sources: seq<SourcePage>): (r: seq<TextPage>)
    ensures |r| == |sources|
    ensures forall i :: 0 <= i < |sources| ==>
              r[i].pageNumber == sources[i].pageNumber && r[i].hasOriginal &&
              r[i].paragraphs == KeptParagraphs(sources[i].formatted) &&
              r[i].isEmpty == (sources[i].formatted == [])
  {
    seq(|sources|, i requires 0 <= i < |sources| => FormatPage(sources[i]))
  }

  /** The loop of `formatPages` over the extracted pages. */
  method FormatEach(sources: seq<SourcePage>) returns (pages: seq<TextPage>)
    ensures pages == FormatAll(sources)
  {
    pages := [];
    for i := 0 to |sources|
      invariant |pages| == i
      invariant forall j :: 0 <= j < i ==> pages[j] == FormatPage(sources[j])
    {
      var page := FormatOne(sources[i]);
      MapStep(FormatPage, sources, pages, page);
      pages := pages + [page];
    }
    FormatAllFrom(sources, pages);
  }

  /** One pass of the outer loop of `formatPages`. */
  method FormatOne(source: SourcePage) returns (page: TextPage)
    ensures page == FormatPage(source)
  {
    var paragraphs := TrimParagraphs(source.formatted);
    page := TextPage(source.pageNumber, true, paragraphs, source.formatted == []);
  }

  lemma FormatAllFrom(sources: seq<SourcePage>, pages: seq<TextPage>)
    requires |pages| == |sources|
    requires forall j :: 0 <= j < |sources| ==> pages[j] == FormatPage(sources[j])
    ensures pages == FormatAll(sources)
  {
  }

  // ---------------------------------------------------------------------
  // Chapter headings: String.matches of three anchored patterns
  // ---------------------------------------------------------------------

  /** `第[一二三四五六七八九十0-9]+[章節回部].*` matches all of t. */
  predicate ChineseChapterLine(t: string)
  {
    TextExtractor.StartsWithChineseChapter(t) &&
    DotStarToEnd(t, SpanEnd(t, 1, TextExtractor.IsChapterNumeral) + 1)
  }

  /** `word\s+\d+.*` matches all of t. */
  predicate NumberedWordLine(t: string, word: string)
  {
    TextExtractor.StartsWithNumberedWord(t, word) &&
    DotStarToEnd(t, SpanEnd(t, |word|, IsRegexSpace) + 1)
  }

  predicate IsListMark(c: char) { c == '、' || c == '．' }

  /** `[0-9]+[、．].*` matches all of t. */
  predicate NumberedLine(t: string)
  {
    var e := SpanEnd(t, 0, IsDigit);
    0 < e < |t| && IsListMark(t[e]) && DotStarToEnd(t, e + 1)
  }

  /**
   * `isChapterHeader`: never for a blank line or one over 100 characters;
   * otherwise the trimmed line is a Chinese or English chapter title, or a
   * numbered title shorter than 50 characters.
   */
  predicate IsChapterHeader(text: string)
  {
    !IsBlank(text) && |text| <= 100 &&
    var t := Trim(text);
    ChineseChapterLine(t) || NumberedWordLine(t, "Chapter") || NumberedWordLine(t, "CHAPTER") ||
    (NumberedLine(t) && |t| < 50)
  }

  /**
   * The numbered pattern read literally: a non-empty digit run, then a mark,
   * then no line terminator to the end.
   */
  lemma NumberedLineIff(t: string)
    ensures NumberedLine(t) <==>
      exists e :: 0 < e < |t| && (forall j :: 0 <= j < e ==> IsDigit(t[j])) && IsListMark(t[e]) &&
                  DotStarToEnd(t, e + 1)
  {
    if exists e :: 0 < e < |t| && (forall j :: 0 <= j < e ==> IsDigit(t[j])) && IsListMark(t[e]) &&
                   DotStarToEnd(t, e + 1) {
      var e :| 0 < e < |t| && (forall j :: 0 <= j < e ==> IsDigit(t[j])) && IsListMark(t[e]) &&
               DotStarToEnd(t, e + 1);
      TextExtractor.SpanEndAt(t, 0, e, IsDigit);
    }
  }

  lemma ChineseChapterHeaderExample()
    ensures IsChapterHeader("第三章 重逢")
  {
    var h := "第三章 重逢";
    assert LeadingTrimmable(h) == 0;
    assert TrailingStart(h) == |h|;
    assert Trim(h) == h;
    TextExtractor.SpanEndAt(h, 1, 2, TextExtractor.IsChapterNumeral);
  }

  /** A second line after the title defeats `.*`, which stops at line terminators. */
  lemma TwoLineChapterIsNoHeader()
    ensures !IsChapterHeader("第三章\n重逢")
  {
    var h := "第三章\n重逢";
    assert LeadingTrimmable(h) == 0;
    assert TrailingStart(h) == |h|;
    assert Trim(h) == h;
    TextExtractor.SpanEndAt(h, 1, 2, TextExtractor.IsChapterNumeral);
    assert !DotStarToEnd(h, 3) by { assert IsLineTerminator(h[3]); }
    assert SpanEnd(h, 0, IsDigit) == 0;
    assert !StartsWith(h, "Chapter") by { assert h[0] != 'C'; }
    assert !StartsWith(h, "CHAPTER") by { assert h[0] != 'C'; }
  }

  // ---------------------------------------------------------------------
  // Search highlights
  // ---------------------------------------------------------------------

  /** A piece of a rendered line: plain text, or a highlighted match of the search term. */
  datatype Piece = Plain(text: string) | Marked(text: string)

  /** The pieces' texts, concatenated. */
  function Texts(pieces: seq<Piece>): string
    decreases |pieces|
  {
    if pieces == [] then [] else pieces[0].text + Texts(pieces[1..])
  }

  /**
   * The pieces of `addHighlightedText` from `from` on: `lp` and `lt` are the
   * lower-cased paragraph and term, the pieces are cut from the paragraph p
   * itself. A match at `from` is highlighted; otherwise the text up to the
   * next match, or to the end, is plain.
   */
  function HighlightFrom(p: string, lp: string, lt: string, from: nat): seq<Piece>
    requires |lp| == |p| && lt != [] && from <= |p|
    decreases |p| - from
  {
    if from == |p| then []
    else
      var i := IndexOfFrom(lp, lt, from);
      if i == from then [Marked(p[from..from + |lt|])] + HighlightFrom(p, lp, lt, from + |lt|)
      else
        var e := if i < 0 then |p| else i;
        [Plain(p[from..e])] + HighlightFrom(p, lp, lt, e)
  }

  /** `addHighlightedText` for a non-empty term (the caller never passes ""). */
  function Highlighted(paragraph: string, searchTerm: string): seq<Piece>
    requires searchTerm != []
  {
    HighlightFrom(paragraph, ToLower(paragraph), ToLower(searchTerm), 0)
  }

  lemma TextsCons(x: Piece, rest: seq<Piece>)
    ensures Texts([x] + rest) == x.text + Texts(rest)
  {
    assert ([x] + rest)[1..] == rest;
  }

  /**
   * The pieces lay out lp from `at` on as successive leftmost matches: a
   * marked piece sits on a match of lt, a plain piece is non-empty, holds
   * the start of no match, and is followed by a marked piece if anything.
   */
  predicate LeftmostMatches(pieces: seq<Piece>, lp: string, lt: string, at: nat)
    decreases |pieces|
  {
    pieces == [] ||
    ((match pieces[0]
      case Marked(x) => MatchesAt(lp, lt, at) && |x| == |lt|
      case Plain(x) =>
        x != [] && (forall k :: at <= k < at + |x| ==> !MatchesAt(lp, lt, k)) &&
        (|pieces| > 1 ==> pieces[1].Marked?))
     && LeftmostMatches(pieces[1..], lp, lt, at + |pieces[0].text|))
  }

  /** A search from a match finds that match. */
  lemma IndexOfFromAtMatch(lp: string, lt: string, i: nat)
    requires i <= |lp| && MatchesAt(lp, lt, i)
    ensures IndexOfFrom(lp, lt, i) == i
  {
  }

  /** Where a match starts, the pieces start with its highlight. */
  lemma HighlightFromAtMatch(p: string, lp: string, lt: string, i: nat)
    requires |lp| == |p| && lt != [] && i <= |p| && MatchesAt(lp, lt, i)
    ensures i < |p| && i + |lt| <= |p|
    ensures HighlightFrom(p, lp, lt, i) == [Marked(p[i..i + |lt|])] + HighlightFrom(p, lp, lt, i + |lt|)
  {
    IndexOfFromAtMatch(lp, lt, i);
  }

  /** One step of `HighlightFrom`: the first piece covers p[from..e], the rest starts at e. */
  lemma HighlightFromStep(p: string, lp: string, lt: string, from: nat) returns (e: nat, head: Piece)
    requires |lp| == |p| && lt != [] && from < |p|
    ensures from < e <= |p| && head.text == p[from..e]
    ensures head.Marked? <==> IndexOfFrom(lp, lt, from) == from
    ensures var i := IndexOfFrom(lp, lt, from);
      e == if i == from then from + |lt| else if i < 0 then |p| else i
    ensures HighlightFrom(p, lp, lt, from) == [head] + HighlightFrom(p, lp, lt, e)
  {
    var i := IndexOfFrom(lp, lt, from);
    e := if i == from then from + |lt| else if i < 0 then |p| else i;
    head := if i == from then Marked(p[from..e]) else Plain(p[from..e]);
  }

  lemma {:induction false} HighlightFromSpells(p: string, lp: string, lt: string, from: nat)
    requires |lp| == |p| && lt != [] && from <= |p|
    ensures Texts(HighlightFrom(p, lp, lt, from)) == p[from..]
    decreases |p| - from
  {
    if from < |p| {
      var e, head := HighlightFromStep(p, lp, lt, from);
      HighlightFromSpells(p, lp, lt, e);
      TextsSliceCons(p, from, e, head, HighlightFrom(p, lp, lt, e), HighlightFrom(p, lp, lt, from));
    }
  }

  /** A piece spelling `p[from..e]` before pieces spelling `p[e..]` spells `p[from..]`. */
  lemma TextsSliceCons(p: string, from: nat, e: nat, head: Piece, rest: seq<Piece>, whole: seq<Piece>)
    requires from <= e <= |p| && head.text == p[from..e] && Texts(rest) == p[e..] && whole == [head] + rest
    ensures Texts(whole) == p[from..]
  {
    TextsCons(head, rest);
    assert p[from..] == p[from..e] + p[e..];
  }

  lemma {:induction false} HighlightFromLeftmost(p: string, lp: string, lt: string, from: nat)
    requires |lp| == |p| && lt != [] && from <= |p|
    ensures LeftmostMatches(HighlightFrom(p, lp, lt, from), lp, lt, from)
    decreases |p| - from
  {
    if from < |p| {
      var i := IndexOfFrom(lp, lt, from);
      var e, head := HighlightFromStep(p, lp, lt, from);
      HighlightFromLeftmost(p, lp, lt, e);
      var rest := HighlightFrom(p, lp, lt, e);
      var pieces := [head] + rest;
      assert pieces[1..] == rest;
      if i != from && i >= 0 && |pieces| > 1 {
        HighlightFromAtMatch(p, lp, lt, i);
        assert rest[0].Marked?;
      }
    }
  }

  /** What the first piece of a leftmost layout says about the text. */
  lemma LeftmostHead(a: seq<Piece>, lp: string, lt: string, at: nat)
    requires lt != [] && LeftmostMatches(a, lp, lt, at)
    ensures a != [] ==> a[0].text != [] && Texts(a) == a[0].text + Texts(a[1..])
    ensures (a != [] && a[0].Marked?) ==> MatchesAt(lp, lt, at) && |a[0].text| == |lt|
    ensures (a != [] && a[0].Plain?) ==> forall k :: at <= k < at + |a[0].text| ==> !MatchesAt(lp, lt, k)
    ensures (a != [] && a[0].Plain? && |Texts(a)| > |a[0].text|) ==> MatchesAt(lp, lt, at + |a[0].text|)
  {
    if |a| == 1 {
      assert a[1..] == [];
    } else if |a| > 1 {
      assert a[1..][0] == a[1];
    }
  }

  /** Two layouts of the same text as leftmost matches are the same layout. */
  lemma {:induction false} LeftmostUnique(a: seq<Piece>, b: seq<Piece>, lp: string, lt: string, at: nat)
    requires lt != []
    requires LeftmostMatches(a, lp, lt, at) && LeftmostMatches(b, lp, lt, at)
    requires Texts(a) == Texts(b)
    ensures a == b
    decreases |a|
  {
    LeftmostHead(a, lp, lt, at);
    LeftmostHead(b, lp, lt, at);
    if a == [] || b == [] {
      return;
    }
    var x, y := a[0].text, b[0].text;
    assert |x| == |y|;
    assert x == Texts(a)[..|x|] && y == Texts(b)[..|y|];
    assert a[0] == b[0];
    LeftmostUnique(a[1..], b[1..], lp, lt, at + |x|);
    assert a == [a[0]] + a[1..] && b == [b[0]] + b[1..];
  }

  /**
   * `addHighlightedText` loses nothing of the paragraph, highlights the
   * successive non-overlapping case-insensitive matches of the term, and no
   * other cut of the paragraph does both.
   */
  lemma HighlightedIsLeftmostMatches(paragraph: string, searchTerm: string)
    requires searchTerm != []
    ensures Texts(Highlighted(paragraph, searchTerm)) == paragraph
    ensures LeftmostMatches(Highlighted(paragraph, searchTerm), ToLower(paragraph), ToLower(searchTerm), 0)
    ensures forall pieces ::
              (Texts(pieces) == paragraph && LeftmostMatches(pieces, ToLower(paragraph), ToLower(searchTerm), 0)) ==>
              pieces == Highlighted(paragraph, searchTerm)
  {
    var lp, lt := ToLower(paragraph), ToLower(searchTerm);
    HighlightFromSpells(paragraph, lp, lt, 0);
    HighlightFromLeftmost(paragraph, lp, lt, 0);
    forall pieces | Texts(pieces) == paragraph && LeftmostMatches(pieces, lp, lt, 0)
      ensures pieces == Highlighted(paragraph, searchTerm)
    {
      LeftmostUnique(pieces, Highlighted(paragraph, searchTerm), lp, lt, 0);
    }
  }

  /** Every marked piece of a result is the lower-cased term once lower-cased. */
  predicate MarksMatch(pieces: seq<Piece>, lt: string)
  {
    forall k :: 0 <= k < |pieces| && pieces[k].Marked? ==> ToLower(pieces[k].text) == lt
  }

  lemma MarksCons(x: Piece, rest: seq<Piece>, lt: string)
    requires x.Marked? ==> ToLower(x.text) == lt
    requires MarksMatch(rest, lt)
    ensures MarksMatch([x] + rest, lt)
  {
    forall k | 0 <= k < |[x] + rest| && ([x] + rest)[k].Marked?
      ensures ToLower(([x] + rest)[k].text) == lt
    {
      if k > 0 {
        assert ([x] + rest)[k] == rest[k - 1];
      }
    }
  }

  lemma {:induction false} HighlightFromMarks(p: string, lp: string, lt: string, from: nat)
    requires |lp| == |p| && lt != [] && from <= |p| && lp == ToLower(p)
    ensures MarksMatch(HighlightFrom(p, lp, lt, from), lt)
    decreases |p| - from
  {
    if from < |p| {
      var e, head := HighlightFromStep(p, lp, lt, from);
      HighlightFromMarks(p, lp, lt, e);
      if head.Marked? {
        assert ToLower(head.text) == lp[from..e];
      }
      MarksCons(head, HighlightFrom(p, lp, lt, e), lt);
    }
  }

  /** Every highlighted piece is the search term up to upper and lower case. */
  lemma HighlightedMarksMatchTerm(paragraph: string, searchTerm: string)
    requires searchTerm != []
    ensures forall k :: 0 <= k < |Highlighted(paragraph, searchTerm)| && Highlighted(paragraph, searchTerm)[k].Marked? ==>
              ToLower(Highlighted(paragraph, searchTerm)[k].text) == ToLower(searchTerm)
  {
    HighlightFromMarks(paragraph, ToLower(paragraph), ToLower(searchTerm), 0);
  }

  /**
   * One round of the loop: the plain text before the match, if any, then
   * the match are appended, and the search goes on after the match.
   */
  lemma LoopStep(p: string, lp: string, lt: string, last: nat, i: int, pieces: seq<Piece>,
                 whole: seq<Piece>, pieces1: seq<Piece>)
    requires |lp| == |p| && lt != [] && last <= |p|
    requires i == IndexOfFrom(lp, lt, last) && i >= 0
    requires pieces + HighlightFrom(p, lp, lt, last) == whole
    requires last <= i && i + |lt| <= |p|
    requires pieces1 == (if i > last then pieces + [Plain(p[last..i])] else pieces) + [Marked(p[i..i + |lt|])]
    ensures pieces1 + HighlightFrom(p, lp, lt, i + |lt|) == whole
  {
    HighlightFromAtMatch(p, lp, lt, i);
    var m := Marked(p[i..i + |lt|]);
    var rest := HighlightFrom(p, lp, lt, i + |lt|);
    if i > last {
      var e, head := HighlightFromStep(p, lp, lt, last);
      assert head == Plain(p[last..i]) && e == i;
      AppendTwoHeads(pieces, head, m, rest);
    } else {
      AppendTwoHeads(pieces, m, m, rest);
    }
  }

  lemma AppendTwoHeads(pieces: seq<Piece>, x: Piece, y: Piece, rest: seq<Piece>)
    ensures (pieces + [x]) + [y] + rest == pieces + ([x] + ([y] + rest))
    ensures pieces + [y] + rest == pieces + ([y] + rest)
  {
  }

  /** After the last match the rest of the paragraph, if any, is one plain piece. */
  lemma LoopEnd(p: string, lp: string, lt: string, last: nat, pieces: seq<Piece>, whole: seq<Piece>)
    requires |lp| == |p| && lt != [] && last <= |p|
    requires IndexOfFrom(lp, lt, last) < 0
    requires pieces + HighlightFrom(p, lp, lt, last) == whole
    ensures last < |p| ==> pieces + [Plain(p[last..])] == whole
    ensures last == |p| ==> pieces == whole
  {
    if last < |p| {
      assert HighlightFrom(p, lp, lt, last) == [Plain(p[last..|p|])] + HighlightFrom(p, lp, lt, |p|);
      assert p[last..|p|] == p[last..];
    }
  }

  /** `addHighlightedText`: the term is searched for in both strings lower-cased. */
  method AddHighlightedText(paragraph: string, searchTerm: string) returns (pieces: seq<Piece>)
    requires searchTerm != []
    ensures pieces == Highlighted(paragraph, searchTerm)
  {
    var lowerParagraph := ToLower(paragraph);
    var lowerSearchTerm := ToLower(searchTerm);
    pieces := HighlightLoop(paragraph, lowerParagraph, lowerSearchTerm, |searchTerm|);
  }

  /** The loop of `addHighlightedText` over `lastIndex` and `index`. */
  method HighlightLoop(paragraph: string, lowerParagraph: string, lowerSearchTerm: string, termLength: nat)
    returns (pieces: seq<Piece>)
    requires |lowerParagraph| == |paragraph| && lowerSearchTerm != [] && termLength == |lowerSearchTerm|
    ensures pieces == HighlightFrom(paragraph, lowerParagraph, lowerSearchTerm, 0)
  {
    ghost var whole := HighlightFrom(paragraph, lowerParagraph, lowerSearchTerm, 0);
    pieces := [];
    var lastIndex := 0;
    var index := IndexOfFrom(lowerParagraph, lowerSearchTerm, lastIndex);
    while index != -1
      invariant 0 <= lastIndex <= |paragraph|
      invariant index == IndexOfFrom(lowerParagraph, lowerSearchTerm, lastIndex)
      invariant pieces + HighlightFrom(paragraph, lowerParagraph, lowerSearchTerm, lastIndex) == whole
      decreases |paragraph| - lastIndex
    {
      ghost var pieces0, last0 := pieces, lastIndex;
      if index > lastIndex {
        pieces := pieces + [Plain(paragraph[lastIndex..index])];
      }
      pieces := pieces + [Marked(paragraph[index..index + termLength])];
      lastIndex := index + termLength;
      LoopStep(paragraph, lowerParagraph, lowerSearchTerm, last0, index, pieces0, whole, pieces);
      index := IndexOfFrom(lowerParagraph, lowerSearchTerm, lastIndex);
    }
    LoopEnd(paragraph, lowerParagraph, lowerSearchTerm, lastIndex, pieces, whole);
    if lastIndex < |paragraph| {
      pieces := pieces + [Plain(paragraph[lastIndex..])];
    }
  }

  // ---------------------------------------------------------------------
  // What the pane shows
  // ---------------------------------------------------------------------

  /** One line of a page view: a spacer, a chapter heading, or text with its highlights. */
  datatype Block = Spacer | Chapter(text: string) | Line(pieces: seq<Piece>)

  /** A page's body: the "no text on this page" label, or its lines. */
  datatype Body = NoText | Blocks(blocks: seq<Block>)

  datatype PageView = PageView(header: string, body: Body)

  datatype Layout = SingleLayout | TwoLayout | ContinuousLayout

  /** The pane: the "nothing loaded" message, or page views in a layout. */
  datatype Screen = Cleared | NoContent | Shown(layout: Layout, views: seq<PageView>)

  /** `createLineTextFlow`: the plain line, or its highlights while a search is active. */
  function LinePieces(line: string, searchTerm: string): (r: seq<Piece>)
    ensures Texts(r) == line
  {
    if searchTerm == [] then
      assert Texts([Plain(line)]) == line + Texts([]);
      [Plain(line)]
    else
      HighlightedIsLeftmostMatches(line, searchTerm);
      Highlighted(line, searchTerm)
  }

  /** The block `createPageView` makes of one paragraph. */
  function BlockOf(line: string, searchTerm: string): (r: Block)
    ensures r == Spacer <==> line == []
    ensures r.Chapter? <==> line != [] && IsChapterHeader(line)
    ensures r.Chapter? ==> r.text == line
    ensures r.Line? ==> Texts(r.pieces) == line
  {
    if line == [] then Spacer
    else if IsChapterHeader(line) then Chapter(line)
    else Line(LinePieces(line, searchTerm))
  }

  /** The body of a page view: the label for a page without paragraphs, else one block per paragraph. */
  function BodyOf(page: TextPage, searchTerm: string): (r: Body)
    ensures r == NoText <==> page.isEmpty || page.paragraphs == []
    ensures r.Blocks? ==> |r.blocks| == |page.paragraphs|
    ensures r.Blocks? ==> forall k :: 0 <= k < |page.paragraphs| ==> r.blocks[k] == BlockOf(page.paragraphs[k], searchTerm)
  {
    if page.isEmpty || page.paragraphs == [] then NoText
    else Blocks(seq(|page.paragraphs|, k requires 0 <= k < |page.paragraphs| => BlockOf(page.paragraphs[k], searchTerm)))
  }

  /** `createPageHeader`: "第 n 頁" with the one-based page number. */
  function PageHeader(page: TextPage): string
  {
    "第 " + IntToString(page.pageNumber + 1) + " 頁"
  }

  function ViewOf(page: TextPage, searchTerm: string): PageView
  {
    PageView(PageHeader(page), BodyOf(page, searchTerm))
  }

  /**
   * `renderCurrentPage`'s choice: two pages only for TWO_PAGE in landscape;
   * TWO_PAGE in portrait falls back to one page.
   */
  function LayoutFor(mode: DisplayMode, orientation: DeviceOrientation): (r: Layout)
    ensures r == TwoLayout <==> mode == TwoPage && orientation == Landscape
    ensures r == ContinuousLayout <==> mode == Continuous
    ensures r == SingleLayout <==> mode == PageByPage || (mode == TwoPage && orientation == Portrait)
  {
    match mode
    case PageByPage => SingleLayout
    case TwoPage => (match orientation case Landscape => TwoLayout case Portrait => SingleLayout)
    case Continuous => ContinuousLayout
  }

  /** One view per page, in order. */
  function AllViews(pages: seq<TextPage>, searchTerm: string): (r: seq<PageView>)
    ensures |r| == |pages| && forall i :: 0 <= i < |pages| ==> r[i] == ViewOf(pages[i], searchTerm)
  {
    seq(|pages|, i requires 0 <= i < |pages| => ViewOf(pages[i], searchTerm))
  }

  /**
   * What a layout shows of the page views: the current one, the current one
   * and the next if there is one, or all of them.
   */
  function ViewsFor(layout: Layout, views: seq<PageView>, index: nat): (r: seq<PageView>)
    ensures layout == SingleLayout && index < |views| ==> r == [views[index]]
    ensures layout == TwoLayout && index + 1 < |views| ==> r == [views[index], views[index + 1]]
    ensures layout == TwoLayout && index + 1 == |views| ==> r == [views[index]]
    ensures layout == ContinuousLayout ==> r == views
  {
    match layout
    case SingleLayout => if index < |views| then [views[index]] else []
    case TwoLayout =>
      (if index < |views| then [views[index]] else []) + (if index + 1 < |views| then [views[index + 1]] else [])
    case ContinuousLayout => views
  }

  // ---------------------------------------------------------------------
  // Search
  // ---------------------------------------------------------------------

  /** Some paragraph of the page contains the lower-cased term, ignoring case. */
  predicate PageMatches(page: TextPage, lowerTerm: string)
  {
    exists k :: 0 <= k < |page.paragraphs| && Contains(ToLower(page.paragraphs[k]), lowerTerm)
  }

  /** The lowest index at or after `from` of a page that matches. */
  function FirstMatchFrom(pages: seq<TextPage>, lowerTerm: string, from: nat): (r: Option<nat>)
    requires from <= |pages|
    ensures r.Some? ==> from <= r.value < |pages| && PageMatches(pages[r.value], lowerTerm)
    ensures forall j :: from <= j < |pages| && (r.None? || j < r.value) ==> !PageMatches(pages[j], lowerTerm)
    decreases |pages| - from
  {
    if from == |pages| then None
    else if PageMatches(pages[from], lowerTerm) then Some(from)
    else FirstMatchFrom(pages, lowerTerm, from + 1)
  }

  /** `scrollToFirstMatch`'s target: the first page with a match, if any. */
  function FirstMatch(pages: seq<TextPage>, lowerTerm: string): (r: Option<nat>)
    ensures r.Some? ==> r.value < |pages| && PageMatches(pages[r.value], lowerTerm)
    ensures r.Some? ==> forall j :: 0 <= j < r.value ==> !PageMatches(pages[j], lowerTerm)
    ensures r.None? ==> forall j :: 0 <= j < |pages| ==> !PageMatches(pages[j], lowerTerm)
  {
    FirstMatchFrom(pages, lowerTerm, 0)
  }

  // ---------------------------------------------------------------------
  // Font size and line spacing
  // ---------------------------------------------------------------------

  /** `setFontSize`'s clamp to [8, 72]. */
  function ClampFontSize(size: real): (r: real)
    ensures 8.0 <= r <= 72.0
    ensures 8.0 <= size <= 72.0 ==> r == size
    ensures size < 8.0 ==> r == 8.0
    ensures size > 72.0 ==> r == 72.0
  {
    if size < 8.0 then 8.0 else if size > 72.0 then 72.0 else size
  }

  /** `setLineSpacing`'s clamp to [0.5, 5.0]. */
  function ClampLineSpacing(spacing: real): (r: real)
    ensures 0.5 <= r <= 5.0
    ensures 0.5 <= spacing <= 5.0 ==> r == spacing
    ensures spacing < 0.5 ==> r == 0.5
    ensures spacing > 5.0 ==> r == 5.0
  {
    if spacing < 0.5 then 0.5 else if spacing > 5.0 then 5.0 else spacing
  }

  /** A list of pages that is there and not empty. */
  predicate HasPages<T>(pages: Option<seq<T>>)
  {
    pages.Some? && |pages.value| > 0
  }

  class TextRenderer {
    var originalPages: Option<seq<SourcePage>>
    var formattedPages: Option<seq<TextPage>>
    var currentPageIndex: int
    var currentSearchTerm: string
    var displayMode: DisplayMode
    var orientation: DeviceOrientation
    var deviceType: DeviceType
    var baseFontSize: real
    var lineSpacing: real
    /** What `pageContainer` holds. */
    var screen: Screen

    /**
     * Formatted pages are never an empty list, the index names one of them,
     * and while the extracted pages are a non-empty list the formatted pages
     * are theirs.
     */
    ghost predicate Valid()
      reads this
    {
      0 <= currentPageIndex &&
      (formattedPages.Some? ==> 0 < |formattedPages.value| && currentPageIndex < |formattedPages.value|) &&
      (formattedPages.None? ==> currentPageIndex == 0) &&
      (HasPages(originalPages) ==> formattedPages == Some(FormatAll(originalPages.value)))
    }

    /** What `renderCurrentPage` puts on the pane for the present state. */
    function Rendered(): (r: Screen)
      reads this
      requires Valid()
      ensures r == NoContent <==> formattedPages.None?
      ensures r.Shown? ==> r.layout == LayoutFor(displayMode, orientation)
    {
      if formattedPages.None? then NoContent
      else
        var layout := LayoutFor(displayMode, orientation);
        Shown(layout, ViewsFor(layout, AllViews(formattedPages.value, currentSearchTerm), currentPageIndex))
    }

    /** `getTotalPages`. */
    function GetTotalPages(): (r: nat)
      reads this
      ensures formattedPages.None? ==> r == 0
      ensures formattedPages.Some? ==> r == |formattedPages.value|
    {
      if formattedPages.Some? then |formattedPages.value| else 0
    }

    /** The layout settings: display mode, orientation, device, font size and line spacing. */
    function Layout(): (DisplayMode, DeviceOrientation, DeviceType, real, real)
      reads this
    {
      (displayMode, orientation, deviceType, baseFontSize, lineSpacing)
    }

    /** A new pane: nothing loaded, one page at a time, portrait desktop, 18 pt at 1.8 spacing. */
    constructor ()
      ensures Valid()
      ensures originalPages == None && formattedPages == None && currentPageIndex == 0
      ensures currentSearchTerm == [] && displayMode == PageByPage && orientation == Portrait
      ensures deviceType == Desktop && baseFontSize == 18.0 && lineSpacing == 1.8
      ensures screen == Cleared
    {
      originalPages := None;
      formattedPages := None;
      currentPageIndex := 0;
      currentSearchTerm := [];
      displayMode := PageByPage;
      orientation := Portrait;
      deviceType := Desktop;
      baseFontSize := 18.0;
      lineSpacing := 1.8;
      screen := Cleared;
    }

    /** `renderCurrentPage`: the pane redrawn from the state; nothing else changes. */
    method RenderCurrentPage()
      requires Valid()
      modifies this
      ensures Valid() && screen == Rendered()
      ensures originalPages == old(originalPages) && formattedPages == old(formattedPages)
      ensures currentPageIndex == old(currentPageIndex) && currentSearchTerm == old(currentSearchTerm)
      ensures displayMode == old(displayMode) && orientation == old(orientation) && deviceType == old(deviceType)
      ensures baseFontSize == old(baseFontSize) && lineSpacing == old(lineSpacing)
    {
      screen := Rendered();
    }

    /** `formatPages`: one display page per extracted page, in order; nothing for no pages. */
    method FormatPages()
      modifies this
      ensures originalPages == old(originalPages)
      ensures HasPages(originalPages) ==> formattedPages == Some(FormatAll(originalPages.value))
      ensures !HasPages(originalPages) ==> formattedPages == old(formattedPages)
      ensures currentPageIndex == old(currentPageIndex)
      ensures currentSearchTerm == old(currentSearchTerm) && displayMode == old(displayMode)
      ensures orientation == old(orientation) && deviceType == old(deviceType)
      ensures baseFontSize == old(baseFontSize) && lineSpacing == old(lineSpacing) && screen == old(screen)
    {
      if !HasPages(originalPages) {
        return;
      }
      var pages := FormatEach(originalPages.value);
      formattedPages := Some(pages);
    }

    /**
     * `setPages`: a non-empty list is formatted and shown from its first
     * page; otherwise the pane says nothing is loaded and the previous
     * display pages and index stay.
     */
    method SetPages(pages: Option<seq<SourcePage>>)
      requires Valid()
      modifies this
      ensures Valid() && originalPages == pages
      ensures HasPages(pages) ==> formattedPages == Some(FormatAll(pages.value)) && currentPageIndex == 0
      ensures HasPages(pages) ==> screen == Rendered()
      ensures !HasPages(pages) ==>
                (formattedPages == old(formattedPages) && currentPageIndex == old(currentPageIndex) && screen == NoContent)
      ensures currentSearchTerm == old(currentSearchTerm) && Layout() == old(Layout())
    {
      originalPages := pages;
      if HasPages(pages) {
        FormatPages();
        currentPageIndex := 0;
        RenderCurrentPage();
      } else {
        screen := NoContent;
      }
    }

    /** `clearPages`: no pages, the first index, no search, and the "nothing loaded" message. */
    method ClearPages()
      modifies this
      ensures Valid()
      ensures originalPages == None && formattedPages == None && currentPageIndex == 0
      ensures currentSearchTerm == [] && screen == NoContent && GetTotalPages() == 0
      ensures Layout() == old(Layout())
    {
      originalPages := None;
      formattedPages := None;
      currentPageIndex := 0;
      currentSearchTerm := [];
      screen := NoContent;
    }

    /** `goToPage`: moves only to an index inside the display pages. */
    method GoToPage(pageIndex: int)
      requires Valid()
      modifies this
      ensures Valid()
      ensures 0 <= pageIndex < GetTotalPages() ==> currentPageIndex == pageIndex && screen == Rendered()
      ensures !(0 <= pageIndex < GetTotalPages()) ==> currentPageIndex == old(currentPageIndex) && screen == old(screen)
      ensures originalPages == old(originalPages) && formattedPages == old(formattedPages)
      ensures currentSearchTerm == old(currentSearchTerm) && Layout() == old(Layout())
    {
      if formattedPages.None? || pageIndex < 0 || pageIndex >= |formattedPages.value| {
        return;
      }
      currentPageIndex := pageIndex;
      RenderCurrentPage();
    }

    /** The step of `nextPage` and `previousPage`: a spread in TWO_PAGE landscape, else a page. */
    function Step(): (r: nat)
      reads this
      ensures r == 2 <==> displayMode == TwoPage && orientation == Landscape
      ensures r == 1 || r == 2
    {
      if displayMode == TwoPage && orientation == Landscape then 2 else 1
    }

    /** `nextPage`: forward by one step when that stays inside the pages. A null list throws. */
    method NextPage()
      requires Valid() && formattedPages.Some?
      modifies this
      ensures Valid()
      ensures old(currentPageIndex) + Step() < GetTotalPages() ==>
                currentPageIndex == old(currentPageIndex) + Step() && screen == Rendered()
      ensures old(currentPageIndex) + Step() >= GetTotalPages() ==>
                currentPageIndex == old(currentPageIndex) && screen == old(screen)
      ensures formattedPages == old(formattedPages) && originalPages == old(originalPages)
      ensures currentSearchTerm == old(currentSearchTerm) && Layout() == old(Layout())
    {
      if displayMode == TwoPage && orientation == Landscape {
        if currentPageIndex + 2 < |formattedPages.value| {
          currentPageIndex := currentPageIndex + 2;
          RenderCurrentPage();
        }
      } else {
        if currentPageIndex + 1 < |formattedPages.value| {
          currentPageIndex := currentPageIndex + 1;
          RenderCurrentPage();
        }
      }
    }

    /** `previousPage`: back by one step when that stays at or above the first page. */
    method PreviousPage()
      requires Valid()
      modifies this
      ensures Valid()
      ensures old(currentPageIndex) - Step() >= 0 ==>
                currentPageIndex == old(currentPageIndex) - Step() && screen == Rendered()
      ensures old(currentPageIndex) - Step() < 0 ==>
                currentPageIndex == old(currentPageIndex) && screen == old(screen)
      ensures formattedPages == old(formattedPages) && originalPages == old(originalPages)
      ensures currentSearchTerm == old(currentSearchTerm) && Layout() == old(Layout())
    {
      if displayMode == TwoPage && orientation == Landscape {
        if currentPageIndex - 2 >= 0 {
          currentPageIndex := currentPageIndex - 2;
          RenderCurrentPage();
        }
      } else {
        if currentPageIndex > 0 {
          currentPageIndex := currentPageIndex - 1;
          RenderCurrentPage();
        }
      }
    }

    /**
     * `scrollToFirstMatch`: to the first page holding the term, ignoring
     * case; nowhere without a term, without pages or without a match.
     */
    method ScrollToFirstMatch()
      requires Valid()
      modifies this
      ensures Valid()
      ensures currentSearchTerm != [] && formattedPages.Some? &&
              FirstMatch(formattedPages.value, ToLower(currentSearchTerm)).Some? ==>
                currentPageIndex == FirstMatch(formattedPages.value, ToLower(currentSearchTerm)).value &&
                screen == Rendered()
      ensures !(currentSearchTerm != [] && formattedPages.Some? &&
                FirstMatch(formattedPages.value, ToLower(currentSearchTerm)).Some?) ==>
                currentPageIndex == old(currentPageIndex) && screen == old(screen)
      ensures originalPages == old(originalPages) && formattedPages == old(formattedPages)
      ensures currentSearchTerm == old(currentSearchTerm) && Layout() == old(Layout())
    {
      if currentSearchTerm == [] || formattedPages.None? {
        return;
      }
      var lowerSearchTerm := ToLower(currentSearchTerm);
      var pages := formattedPages.value;
      for i := 0 to |pages|
        invariant forall j :: 0 <= j < i ==> !PageMatches(pages[j], lowerSearchTerm)
      {
        var paragraphs := pages[i].paragraphs;
        for k := 0 to |paragraphs|
          invariant forall m :: 0 <= m < k ==> !Contains(ToLower(paragraphs[m]), lowerSearchTerm)
        {
          if Contains(ToLower(paragraphs[k]), lowerSearchTerm) {
            GoToPage(i);
            return;
          }
        }
      }
    }

    /**
     * `searchText`: without pages or term nothing happens; otherwise the
     * trimmed term is kept, the pane redrawn, and a non-empty term moves to
     * its first page.
     */
    method SearchText(searchTerm: Option<string>)
      requires Valid()
      modifies this
      ensures Valid()
      ensures originalPages.None? || searchTerm.None? ==>
                currentSearchTerm == old(currentSearchTerm) && currentPageIndex == old(currentPageIndex) &&
                screen == old(screen)
      ensures originalPages.Some? && searchTerm.Some? ==>
                currentSearchTerm == Trim(searchTerm.value) && screen == Rendered()
      ensures originalPages.Some? && searchTerm.Some? && currentSearchTerm != [] && formattedPages.Some? &&
              FirstMatch(formattedPages.value, ToLower(currentSearchTerm)).Some? ==>
                currentPageIndex == FirstMatch(formattedPages.value, ToLower(currentSearchTerm)).value
      ensures !(currentSearchTerm != [] && formattedPages.Some? &&
                FirstMatch(formattedPages.value, ToLower(currentSearchTerm)).Some?) ==>
                currentPageIndex == old(currentPageIndex)
      ensures originalPages == old(originalPages) && formattedPages == old(formattedPages)
      ensures Layout() == old(Layout())
    {
      if originalPages.None? || searchTerm.None? {
        return;
      }
      currentSearchTerm := Trim(searchTerm.value);
      RenderCurrentPage();
      if currentSearchTerm != [] {
        ScrollToFirstMatch();
      }
    }

    /** `setFontSize`: the size clamped to [8, 72]; the pane redrawn when pages are loaded. */
    method SetFontSize(size: real)
      requires Valid()
      modifies this
      ensures Valid() && baseFontSize == ClampFontSize(size)
      ensures HasPages(formattedPages) ==> screen == Rendered()
      ensures !HasPages(formattedPages) ==> screen == old(screen)
      ensures originalPages == old(originalPages) && formattedPages == old(formattedPages)
      ensures currentPageIndex == old(currentPageIndex) && currentSearchTerm == old(currentSearchTerm)
      ensures displayMode == old(displayMode) && orientation == old(orientation) && deviceType == old(deviceType)
      ensures lineSpacing == old(lineSpacing)
    {
      baseFontSize := ClampFontSize(size);
      if HasPages(formattedPages) {
        RenderCurrentPage();
      }
    }

    /** `setLineSpacing`: the spacing clamped to [0.5, 5.0]; the pane redrawn when pages are loaded. */
    method SetLineSpacing(spacing: real)
      requires Valid()
      modifies this
      ensures Valid() && lineSpacing == ClampLineSpacing(spacing)
      ensures HasPages(formattedPages) ==> screen == Rendered()
      ensures !HasPages(formattedPages) ==> screen == old(screen)
      ensures originalPages == old(originalPages) && formattedPages == old(formattedPages)
      ensures currentPageIndex == old(currentPageIndex) && currentSearchTerm == old(currentSearchTerm)
      ensures displayMode == old(displayMode) && orientation == old(orientation) && deviceType == old(deviceType)
      ensures baseFontSize == old(baseFontSize)
    {
      lineSpacing := ClampLineSpacing(spacing);
      if HasPages(formattedPages) {
        RenderCurrentPage();
      }
    }

    /** `setDisplayMode`: the new mode, and the pane redrawn in it. */
    method SetDisplayMode(mode: DisplayMode)
      requires Valid()
      modifies this
      ensures Valid() && displayMode == mode && screen == Rendered()
      ensures originalPages == old(originalPages) && formattedPages == old(formattedPages)
      ensures currentPageIndex == old(currentPageIndex) && currentSearchTerm == old(currentSearchTerm)
      ensures orientation == old(orientation) && deviceType == old(deviceType)
      ensures baseFontSize == old(baseFontSize) && lineSpacing == old(lineSpacing)
    {
      displayMode := mode;
      RenderCurrentPage();
    }

    /**
     * `updateLayoutForSize`: for a positive size, a tablet below 800 wide
     * and landscape when wider than tall; the font and spacing of that
     * device and orientation, TWO_PAGE on a landscape tablet, and the pages
     * formatted again at the same index.
     */
    method UpdateLayoutForSize(width: real, height: real)
      requires Valid()
      modifies this
      ensures Valid()
      ensures width <= 0.0 || height <= 0.0 ==>
                deviceType == old(deviceType) && orientation == old(orientation) &&
                baseFontSize == old(baseFontSize) && lineSpacing == old(lineSpacing) &&
                displayMode == old(displayMode) && screen == old(screen)
      ensures width > 0.0 && height > 0.0 ==>
                deviceType == (if width < 800.0 then Tablet else Desktop) &&
                orientation == (if width > height then Landscape else Portrait)
      ensures width > 0.0 && height > 0.0 ==>
                baseFontSize == (match (deviceType, orientation)
                                 case (Tablet, Portrait) => 20.0
                                 case (Tablet, Landscape) => 18.0
                                 case (Desktop, Portrait) => 18.0
                                 case (Desktop, Landscape) => 16.0)
      ensures width > 0.0 && height > 0.0 ==>
                lineSpacing == (match (deviceType, orientation)
                                case (Tablet, Portrait) => 2.0
                                case (Tablet, Landscape) => 1.8
                                case (Desktop, Portrait) => 1.8
                                case (Desktop, Landscape) => 1.6)
      ensures width > 0.0 && height > 0.0 ==>
                displayMode == (if deviceType == Tablet && orientation == Landscape then TwoPage else old(displayMode))
      ensures width > 0.0 && height > 0.0 && HasPages(originalPages) ==> screen == Rendered()
      ensures currentPageIndex == old(currentPageIndex) && currentSearchTerm == old(currentSearchTerm)
      ensures originalPages == old(originalPages)
      ensures HasPages(originalPages) ==> formattedPages == Some(FormatAll(originalPages.value))
      ensures !HasPages(originalPages) ==> formattedPages == old(formattedPages)
    {
      if width <= 0.0 || height <= 0.0 {
        return;
      }
      deviceType := if width < 800.0 then Tablet else Desktop;
      orientation := if width > height then Landscape else Portrait;
      AdjustLayoutSettings();
      if HasPages(originalPages) {
        FormatPages();
        RenderCurrentPage();
      }
    }

    /** `adjustLayoutSettings`: font size and line spacing per device and orientation. */
    method AdjustLayoutSettings()
      modifies this
      ensures baseFontSize == (match (deviceType, orientation)
                               case (Tablet, Portrait) => 20.0
                               case (Tablet, Landscape) => 18.0
                               case (Desktop, Portrait) => 18.0
                               case (Desktop, Landscape) => 16.0)
      ensures lineSpacing == (match (deviceType, orientation)
                              case (Tablet, Portrait) => 2.0
                              case (Tablet, Landscape) => 1.8
                              case (Desktop, Portrait) => 1.8
                              case (Desktop, Landscape) => 1.6)
      ensures displayMode == (if deviceType == Tablet && orientation == Landscape then TwoPage else old(displayMode))
      ensures deviceType == old(deviceType) && orientation == old(orientation)
      ensures originalPages == old(originalPages) && formattedPages == old(formattedPages)
      ensures currentPageIndex == old(currentPageIndex) && currentSearchTerm == old(currentSearchTerm)
      ensures screen == old(screen)
    {
      match deviceType
      case Tablet =>
        if orientation == Portrait {
          baseFontSize := 20.0;
          lineSpacing := 2.0;
        } else {
          baseFontSize := 18.0;
          lineSpacing := 1.8;
          displayMode := TwoPage;
        }
      case Desktop =>
        if orientation == Portrait {
          baseFontSize := 18.0;
          lineSpacing := 1.8;
        } else {
          baseFontSize := 16.0;
          lineSpacing := 1.6;
        }
    }

    /**
     * `setContent`: a blank or null text shows the "nothing loaded" message;
     * any other text becomes one native page numbered 0.
     */
    method SetContent(content: Option<string>)
      requires Valid()
      modifies this
      ensures Valid()
      ensures content.None? || IsBlank(content.value) ==>
                screen == NoContent && originalPages == old(originalPages) &&
                formattedPages == old(formattedPages) && currentPageIndex == old(currentPageIndex)
      ensures content.Some? && !IsBlank(content.value) ==>
                originalPages == Some([SourcePage(0, TextExtractor.FormattedLines(content.value))]) &&
                formattedPages == Some([FormatPage(SourcePage(0, TextExtractor.FormattedLines(content.value)))]) &&
                currentPageIndex == 0 && screen == Rendered()
      ensures currentSearchTerm == old(currentSearchTerm) && Layout() == old(Layout())
    {
      if content.None? || IsBlank(content.value) {
        screen := NoContent;
        return;
      }
      var page := new TextExtractor.PageText();
      page.SetPageNumber(0);
      page.SetOriginalText(content);
      page.SetTextSource(Some(TextExtractor.Native));
      var paragraphs := page.GetFormattedParagraphs();
      assert page.BestText() == content.value;
      var source := SourcePage(page.pageNumber, paragraphs);
      assert source == SourcePage(0, TextExtractor.FormattedLines(content.value));
      assert FormatAll([source]) == [FormatPage(source)];
      SetPages(Some([source]));
    }
  }
}
