/**
 * The text-file loader: the fixed page budget, the split of a text into
 * pages at sentence ends or line breaks, and the greedy word wrap used when
 * a page is drawn. Reading the file and drawing on a canvas are not modelled.
 */
module TextLoader {
  import opened JavaText

  const PageWidth: int := 800
  const PageHeight: int := 1000
  const Margin: int := 50
  const LineSpacing: int := 20
  const FontSize: int := 16

  /** The single page returned when the text holds nothing but whitespace. */
  const EmptyPage: string := "檔案為空或無法讀取"

  /** Characters per page: (800 - 100) / (16 / 2) characters per line times (1000 - 100) / (16 + 20) lines. */
  function CharsPerPage(): (n: int)
    ensures n == 87 * 25 == 2175
  {
    var availableWidth := PageWidth - Margin * 2;
    var availableHeight := PageHeight - Margin * 2;
    var charsPerLine := availableWidth / (FontSize / 2);
    var linesPerPage := availableHeight / (FontSize + LineSpacing);
    charsPerLine * linesPerPage
  }

  /** A preferred place to end a page: just after a full stop or a line break. */
  predicate IsBreak(c: char)
  {
    c == '。' || c == '\n'
  }

  /**
   * The end of the page chunk that starts at `start`: the budget's end, moved
   * back (or one forward) to just after the last break at or before it, when
   * that break lies after `start` and the budget does not reach the end of
   * the text.
   */
  function ChunkEnd(content: string, start: nat, charsPerPage: nat): (e: nat)
    requires start < |content| && charsPerPage > 0
    ensures start < e <= |content| && e <= start + charsPerPage + 1
    ensures start + charsPerPage >= |content| ==> e == |content|
    ensures start + charsPerPage < |content| ==>
      var budget := start + charsPerPage;
      || (e == budget && forall k :: start < k <= budget ==> !IsBreak(content[k]))
      || (start < e - 1 <= budget && IsBreak(content[e - 1]) && forall k :: e - 1 < k <= budget ==> !IsBreak(content[k]))
  {
    var endIndex := if start + charsPerPage < |content| then start + charsPerPage else |content|;
    if endIndex < |content| then
      var lastPeriod := LastIndexOfCharFrom(content, '。', endIndex);
      var lastNewline := LastIndexOfCharFrom(content, '\n', endIndex);
      var splitPoint := if lastPeriod > lastNewline then lastPeriod else lastNewline;
      if splitPoint > start then splitPoint + 1 else endIndex
    else endIndex
  }

  /** The raw page chunks from `start` on, before trimming. */
  function RawChunks(content: string, start: nat, charsPerPage: nat): (r: seq<string>)
    requires start <= |content| && charsPerPage > 0
    ensures forall j :: 0 <= j < |r| ==> 0 < |r[j]| <= charsPerPage + 1
    decreases |content| - start
  {
    if start == |content| then []
    else
      var e := ChunkEnd(content, start, charsPerPage);
      [content[start..e]] + RawChunks(content, e, charsPerPage)
  }

  /** The chunks tile the text: in order, without gaps or overlaps, they make it up. */
  lemma {:induction false} RawChunksTile(content: string, start: nat, charsPerPage: nat)
    requires start <= |content| && charsPerPage > 0
    ensures Flatten(RawChunks(content, start, charsPerPage)) == content[start..]
    decreases |content| - start
  {
    if start < |content| {
      var e := RawChunksStep(content, start, charsPerPage);
      RawChunksTile(content, e, charsPerPage);
      FlattenSliceCons(content, start, e, RawChunks(content, start, charsPerPage), RawChunks(content, e, charsPerPage));
    }
  }

  /** The first chunk from `start` on ends at some e past `start`, and the rest start there. */
  lemma RawChunksStep(content: string, start: nat, charsPerPage: nat) returns (e: nat)
    requires start < |content| && charsPerPage > 0
    ensures start < e <= |content|
    ensures RawChunks(content, start, charsPerPage) == [content[start..e]] + RawChunks(content, e, charsPerPage)
  {
    e := ChunkEnd(content, start, charsPerPage);
  }

  /** A chunk can exceed the budget by one: the break may sit exactly at the budget's end. */
  lemma ChunkMayExceedBudget()
    ensures |RawChunks("ab\nc", 0, 2)[0]| == 3
  {
    assert LastIndexOfCharFrom("ab\nc", '\n', 2) == 2;
    assert LastIndexOfCharFrom("ab\nc", '。', 2) == -1 by {
      assert LastIndexOfCharFrom("ab\nc", '。', 0) == -1;
      assert LastIndexOfCharFrom("ab\nc", '。', 1) == -1;
    }
    assert ChunkEnd("ab\nc", 0, 2) == 3;
  }

  /** The pages: each chunk trimmed, blank chunks dropped. */
  function Pages(content: string, charsPerPage: nat): seq<string>
    requires charsPerPage > 0
  {
    NonEmpty(TrimAll(RawChunks(content, 0, charsPerPage)))
  }

  /** Every page is non-empty and trimmed. */
  lemma {:induction false} NonEmptyTrimmed(ts: seq<string>)
    requires forall j :: 0 <= j < |ts| ==> IsTrimmed(ts[j])
    ensures forall j :: 0 <= j < |NonEmpty(ts)| ==> NonEmpty(ts)[j] != [] && IsTrimmed(NonEmpty(ts)[j])
    decreases |ts|
  {
    if ts != [] {
      NonEmptyTrimmed(ts[..|ts| - 1]);
    }
  }

  lemma PagesTrimmed(content: string, charsPerPage: nat)
    requires charsPerPage > 0
    ensures forall j :: 0 <= j < |Pages(content, charsPerPage)| ==>
      Pages(content, charsPerPage)[j] != [] && IsTrimmed(Pages(content, charsPerPage)[j])
  {
    NonEmptyTrimmed(TrimAll(RawChunks(content, 0, charsPerPage)));
  }

  /** Nothing survives the filter exactly when every entry is empty. */
  lemma {:induction false} NonEmptyNone(ts: seq<string>)
    ensures NonEmpty(ts) == [] <==> forall j :: 0 <= j < |ts| ==> ts[j] == []
    decreases |ts|
  {
    if ts != [] {
      var init := ts[..|ts| - 1];
      NonEmptyNone(init);
      assert forall j :: 0 <= j < |init| ==> init[j] == ts[j];
      if ts[|ts| - 1] == [] {
        assert NonEmpty(ts) == NonEmpty(init);
      }
    }
  }

  lemma BlankConcat(a: string, b: string)
    ensures IsBlank(a + b) <==> IsBlank(a) && IsBlank(b)
  {
    if IsBlank(a) && IsBlank(b) {
      forall i | 0 <= i < |a + b| ensures IsTrimmable((a + b)[i]) {
        if i >= |a| {
          assert (a + b)[i] == b[i - |a|];
        }
      }
    }
    if IsBlank(a + b) {
      forall i | 0 <= i < |a| ensures IsTrimmable(a[i]) {
        assert (a + b)[i] == a[i];
      }
      forall i | 0 <= i < |b| ensures IsTrimmable(b[i]) {
        assert (a + b)[|a| + i] == b[i];
      }
    }
  }

  /** A concatenation is blank exactly when each of its pieces is. */
  lemma {:induction false} BlankFlatten(cs: seq<string>)
    ensures IsBlank(Flatten(cs)) <==> forall j :: 0 <= j < |cs| ==> IsBlank(cs[j])
    decreases |cs|
  {
    if cs != [] {
      var init := cs[..|cs| - 1];
      BlankFlatten(init);
      BlankConcat(Flatten(init), cs[|cs| - 1]);
      assert forall j :: 0 <= j < |init| ==> init[j] == cs[j];
    }
  }

  /** No page at all exactly when the text holds only whitespace. */
  lemma PagesEmptyIffBlank(content: string, charsPerPage: nat)
    requires charsPerPage > 0
    ensures Pages(content, charsPerPage) == [] <==> IsBlank(content)
  {
    var cs := RawChunks(content, 0, charsPerPage);
    RawChunksTile(content, 0, charsPerPage);
    assert content[0..] == content;
    BlankFlatten(cs);
    NonEmptyNone(TrimAll(cs));
  }

  /** `splitIntoPages`: the pages, or the single placeholder page when there is none. */
  function SplitPages(content: string): (r: seq<string>)
    ensures |r| >= 1
    ensures IsBlank(content) ==> r == [EmptyPage]
    ensures !IsBlank(content) ==> r == Pages(content, CharsPerPage())
    ensures forall j :: 0 <= j < |r| ==> r[j] != [] && IsTrimmed(r[j])
  {
    var pages := Pages(content, CharsPerPage());
    PagesEmptyIffBlank(content, CharsPerPage());
    PagesTrimmed(content, CharsPerPage());
    if pages == [] then [EmptyPage] else pages
  }

  /** One chunk more: its trimmed text is added when it is not blank. */
  lemma PagesStep(chunks: seq<string>, c: string)
    ensures NonEmpty(TrimAll(chunks + [c])) == NonEmpty(TrimAll(chunks)) + (if Trim(c) != [] then [Trim(c)] else [])
  {
    TrimAllAppend(chunks, [c]);
    var ts := TrimAll(chunks);
    assert (ts + [Trim(c)])[..|ts|] == ts;
  }

  method SplitIntoPages(content: string) returns (pages: seq<string>)
    ensures pages == SplitPages(content)
  {
    pages := [];
    var charsPerPage := CharsPerPage();
    var startIndex := 0;
    ghost var chunks: seq<string> := [];
    while startIndex < |content|
      invariant startIndex <= |content|
      invariant RawChunks(content, 0, charsPerPage) == chunks + RawChunks(content, startIndex, charsPerPage)
      invariant pages == NonEmpty(TrimAll(chunks))
      decreases |content| - startIndex
    {
      var endIndex := if startIndex + charsPerPage < |content| then startIndex + charsPerPage else |content|;
      if endIndex < |content| {
        var lastPeriod := LastIndexOfCharFrom(content, '。', endIndex);
        var lastNewline := LastIndexOfCharFrom(content, '\n', endIndex);
        var splitPoint := if lastPeriod > lastNewline then lastPeriod else lastNewline;
        if splitPoint > startIndex {
          endIndex := splitPoint + 1;
        }
      }
      assert endIndex == ChunkEnd(content, startIndex, charsPerPage);
      var pageContent := Trim(content[startIndex..endIndex]);
      PagesStep(chunks, content[startIndex..endIndex]);
      ChunksStep(content, startIndex, charsPerPage, chunks);
      if pageContent != [] {
        pages := pages + [pageContent];
      }
      chunks := chunks + [content[startIndex..endIndex]];
      startIndex := endIndex;
    }
    assert chunks == RawChunks(content, 0, charsPerPage);
    FinishPages(content, pages);
    if pages == [] {
      pages := [EmptyPage];
    }
  }

  /** One loop step: the chunks seen so far grow by the chunk at `start`. */
  lemma ChunksStep(content: string, start: nat, charsPerPage: nat, chunks: seq<string>)
    requires start < |content| && charsPerPage > 0
    requires RawChunks(content, 0, charsPerPage) == chunks + RawChunks(content, start, charsPerPage)
    ensures var e := ChunkEnd(content, start, charsPerPage);
      RawChunks(content, 0, charsPerPage) == (chunks + [content[start..e]]) + RawChunks(content, e, charsPerPage)
  {
  }

  lemma FinishPages(content: string, pages: seq<string>)
    requires pages == Pages(content, CharsPerPage())
    ensures (if pages == [] then [EmptyPage] else pages) == SplitPages(content)
  {
  }

  // ---------------------------------------------------------------------------
  // wrapText
  // ---------------------------------------------------------------------------

  /** The lines finished so far and the line being filled. */
  datatype WrapState = WrapState(lines: seq<string>, current: string)

  /** One word: start a new line when the estimated width (8 per character) would exceed the limit and the line is not empty. */
  function WrapStep(st: WrapState, word: string, maxWidth: int): WrapState
  {
    var testLine := st.current + (if st.current != [] then " " else "") + word;
    var estimatedWidth := |testLine| * (FontSize / 2);
    if estimatedWidth > maxWidth && st.current != [] then WrapState(st.lines + [st.current], word)
    else WrapState(st.lines, testLine)
  }

  function WrapWords(words: seq<string>, maxWidth: int): WrapState
    decreases |words|
  {
    if words == [] then WrapState([], [])
    else WrapStep(WrapWords(words[..|words| - 1], maxWidth), words[|words| - 1], maxWidth)
  }

  /** `wrapText`: `[""]` for the empty text; otherwise the finished lines and the last line when it is not empty. */
  function WrapLines(text: string, maxWidth: int): (r: seq<string>)
    ensures text == [] ==> r == [""]
  {
    if text == [] then [""]
    else
      var st := WrapWords(Split(text, ' '), maxWidth);
      if st.current != [] then st.lines + [st.current] else st.lines
  }

  /** A line fits the width or is a single word. */
  predicate FitsOrSingle(line: string, maxWidth: int)
  {
    |line| * (FontSize / 2) <= maxWidth || ' ' !in line
  }

  lemma {:induction false} WrapWordsFit(words: seq<string>, maxWidth: int)
    requires forall j :: 0 <= j < |words| ==> ' ' !in words[j]
    ensures var st := WrapWords(words, maxWidth);
      && FitsOrSingle(st.current, maxWidth)
      && forall k :: 0 <= k < |st.lines| ==> st.lines[k] != [] && FitsOrSingle(st.lines[k], maxWidth)
    decreases |words|
  {
    if words != [] {
      WrapWordsFit(words[..|words| - 1], maxWidth);
    }
  }

  /** The pieces of `split(" ")` hold no space. */
  lemma SplitPiecesNoSep(s: string, sep: char)
    ensures forall j :: 0 <= j < |Split(s, sep)| ==> sep !in Split(s, sep)[j]
  {
    if sep in s {
      var all := SplitAll(s, sep);
      var r := DropTrailingEmpty(all);
      assert forall j :: 0 <= j < |r| ==> r[j] == all[j];
    }
  }

  /** Every wrapped line of a non-empty text is non-empty and fits the width, or is one over-long word. */
  lemma WrapLinesFit(text: string, maxWidth: int)
    requires text != []
    ensures forall k :: 0 <= k < |WrapLines(text, maxWidth)| ==>
      WrapLines(text, maxWidth)[k] != [] && FitsOrSingle(WrapLines(text, maxWidth)[k], maxWidth)
  {
    var words := Split(text, ' ');
    SplitPiecesNoSep(text, ' ');
    WrapWordsFit(words, maxWidth);
    var st := WrapWords(words, maxWidth);
    var r := WrapLines(text, maxWidth);
    if st.current != [] {
      assert r == st.lines + [st.current];
      forall k | 0 <= k < |r| ensures r[k] != [] && FitsOrSingle(r[k], maxWidth) {
        if k < |st.lines| { assert r[k] == st.lines[k]; }
      }
    } else {
      assert r == st.lines;
    }
  }

  /** With no empty word (no doubled, leading or inner empty piece), wrapping only chooses where the spaces become breaks. */
  lemma {:induction false} WrapWordsKeepsWords(words: seq<string>, maxWidth: int)
    requires words != [] && forall j :: 0 <= j < |words| ==> words[j] != []
    ensures var st := WrapWords(words, maxWidth);
      st.current != [] && Join(st.lines + [st.current], ' ') == Join(words, ' ')
    decreases |words|
  {
    var init := words[..|words| - 1];
    var w := words[|words| - 1];
    if init == [] {
      assert words == [w];
      assert WrapWords(init, maxWidth) == WrapState([], []);
    } else {
      WrapWordsKeepsWords(init, maxWidth);
      var st := WrapWords(init, maxWidth);
      assert words == init + [w];
      JoinAppend(init, [w], ' ');
      var next := WrapStep(st, w, maxWidth);
      if |st.current + " " + w| * (FontSize / 2) > maxWidth {
        assert next == WrapState(st.lines + [st.current], w);
        JoinAppend(st.lines + [st.current], [w], ' ');
      } else {
        assert next == WrapState(st.lines, st.current + " " + w);
        if st.lines == [] {
          assert Join([st.current], ' ') == st.current;
        } else {
          JoinAppend(st.lines, [st.current], ' ');
          JoinAppend(st.lines, [st.current + " " + w], ' ');
        }
      }
    }
  }

  method WrapText(text: string, maxWidth: int) returns (lines: seq<string>)
    ensures lines == WrapLines(text, maxWidth)
  {
    lines := [];
    if text == [] {
      lines := [""];
      return;
    }
    var words := Split(text, ' ');
    var currentLine: string := [];
    for i := 0 to |words|
      invariant WrapState(lines, currentLine) == WrapWords(words[..i], maxWidth)
    {
      var word := words[i];
      var testLine := currentLine + (if currentLine != [] then " " else "") + word;
      var estimatedWidth := |testLine| * (FontSize / 2);
      assert words[..i + 1][..i] == words[..i];
      if estimatedWidth > maxWidth && currentLine != [] {
        lines := lines + [currentLine];
        currentLine := word;
      } else {
        if currentLine != [] {
          currentLine := currentLine + " ";
        }
        currentLine := currentLine + word;
      }
    }
    assert words[..|words|] == words;
    if currentLine != [] {
      lines := lines + [currentLine];
    }
  }
}
