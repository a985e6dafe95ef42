/**
 * The page-text record of the PDF/OCR text extractor (package E_Reader.core):
 * which of the two extracted texts a page shows, how that text is cut into
 * display lines, the chapter-header test, and the two cleaning chains that
 * post-process OCR and native PDF text.
 */
module TextExtractor {
  import opened Wrappers
  import opened JavaText
  import opened JavaRegex

  /** Where a page's text came from. */
  datatype TextSource = Native | Ocr | Mixed

  /**
   * `getBestText` for a page whose source is set: NATIVE prefers the native
   * text, OCR and MIXED prefer the recognised text, and each falls back to
   * the other text when its preferred one is empty.
   */
  function BestTextOf(source: TextSource, originalText: string, ocrText: string): (r: string)
    ensures r == originalText || r == ocrText
    ensures r == [] <==> originalText == [] && ocrText == []
    ensures source == Native && originalText != [] ==> r == originalText
    ensures source == Native && originalText == [] ==> r == ocrText
    ensures source != Native && ocrText != [] ==> r == ocrText
    ensures source != Native && ocrText == [] ==> r == originalText
  {
    match source
    case Native => if originalText == [] then ocrText else originalText
    case Ocr => if ocrText == [] then originalText else ocrText
    case Mixed => if ocrText != [] then ocrText else originalText
  }

  // ---------------------------------------------------------------------
  // Chapter headers: ^(第[一二三四五六七八九十0-9]+[章節回部]|Chapter\s+\d+|CHAPTER\s+\d+)
  // ---------------------------------------------------------------------

  predicate IsChapterNumeral(c: char) { c in "一二三四五六七八九十" || IsDigit(c) }

  predicate IsChapterUnit(c: char) { c == '章' || c == '節' || c == '回' || c == '部' }

  /**
   * `第[一二三四五六七八九十0-9]+[章節回部]` matches a prefix of s. No unit
   * character is a numeral, so the numeral run can only end where the
   * maximal run ends.
   */
  predicate StartsWithChineseChapter(s: string)
  {
    |s| >= 1 && s[0] == '第' &&
    var e := SpanEnd(s, 1, IsChapterNumeral);
    1 < e < |s| && IsChapterUnit(s[e])
  }

  /** `word\s+\d+` matches a prefix of s. */
  predicate StartsWithNumberedWord(s: string, word: string)
  {
    StartsWith(s, word) &&
    var e := SpanEnd(s, |word|, IsRegexSpace);
    |word| < e < |s| && IsDigit(s[e])
  }

  /** The anchored chapter pattern is found at the start of s. */
  predicate StartsWithChapterHeader(s: string)
  {
    StartsWithChineseChapter(s) || StartsWithNumberedWord(s, "Chapter") || StartsWithNumberedWord(s, "CHAPTER")
  }

  /** `PageText.isChapterHeader`: null and texts over 100 characters are never headers. */
  predicate IsChapterHeader(text: Option<string>)
  {
    text.Some? && |text.value| <= 100 && StartsWithChapterHeader(Trim(text.value))
  }

  /** A greedy run is exactly the run up to the first character outside the class. */
  lemma {:induction false} SpanEndAt(s: string, i: nat, e: nat, p: char -> bool)
    requires i <= e <= |s|
    requires forall j :: i <= j < e ==> p(s[j])
    requires e == |s| || !p(s[e])
    ensures SpanEnd(s, i, p) == e
    decreases e - i
  {
    if i < e {
      SpanEndAt(s, i + 1, e, p);
    }
  }

  /**
   * The scanner agrees with the regular expression read literally: some
   * non-empty numeral run after '第' is followed by a unit character.
   */
  lemma ChineseChapterIff(s: string)
    ensures StartsWithChineseChapter(s) <==>
      (|s| >= 1 && s[0] == '第' &&
       exists e :: 1 < e < |s| && (forall j :: 1 <= j < e ==> IsChapterNumeral(s[j])) && IsChapterUnit(s[e]))
  {
    if |s| >= 1 && s[0] == '第' {
      if exists e :: 1 < e < |s| && (forall j :: 1 <= j < e ==> IsChapterNumeral(s[j])) && IsChapterUnit(s[e]) {
        var e :| 1 < e < |s| && (forall j :: 1 <= j < e ==> IsChapterNumeral(s[j])) && IsChapterUnit(s[e]);
        SpanEndAt(s, 1, e, IsChapterNumeral);
      }
    }
  }

  /** The same for `word\s+\d+`: some non-empty whitespace run after the word is followed by a digit. */
  lemma NumberedWordIff(s: string, word: string)
    ensures StartsWithNumberedWord(s, word) <==>
      (StartsWith(s, word) &&
       exists e :: |word| < e < |s| && (forall j :: |word| <= j < e ==> IsRegexSpace(s[j])) && IsDigit(s[e]))
  {
    if StartsWith(s, word) {
      if exists e :: |word| < e < |s| && (forall j :: |word| <= j < e ==> IsRegexSpace(s[j])) && IsDigit(s[e]) {
        var e :| |word| < e < |s| && (forall j :: |word| <= j < e ==> IsRegexSpace(s[j])) && IsDigit(s[e]);
        SpanEndAt(s, |word|, e, IsRegexSpace);
      }
    }
  }

  /** A Chinese chapter title is a header even with leading blanks. */
  lemma ChineseChapterExample()
    ensures IsChapterHeader(Some("  第十二章 歸來"))
  {
    var h := "  第十二章 歸來";
    assert LeadingTrimmable(h) == 2;
    assert TrailingStart(h) == |h|;
    assert Trim(h) == "第十二章 歸來";
    SpanEndAt(Trim(h), 1, 3, IsChapterNumeral);
  }

  lemma EnglishChapterExample()
    ensures IsChapterHeader(Some("Chapter 3"))
  {
    var c := "Chapter 3";
    assert Trim(c) == c;
    assert StartsWith(c, "Chapter");
    SpanEndAt(c, 7, 8, IsRegexSpace);
  }

  /** "Chapter" needs digits after the blank. */
  lemma SpelledOutChapterExample()
    ensures !IsChapterHeader(Some("Chapter three"))
  {
    var t := "Chapter three";
    assert Trim(t) == t;
    SpanEndAt(t, 7, 8, IsRegexSpace);
    assert !IsDigit(t[8]);
    assert t[..7][1] != "CHAPTER"[1];
    assert !StartsWithChineseChapter(t);
  }

  /** '第' needs at least one numeral before the unit. */
  lemma MissingNumeralExample()
    ensures !IsChapterHeader(Some("第章"))
  {
    var z := "第章";
    assert Trim(z) == z;
    SpanEndAt(z, 1, 1, IsChapterNumeral);
  }

  // ---------------------------------------------------------------------
  // Line cleaning
  // ---------------------------------------------------------------------

  /**
   * `cleanLineContent`: trim, collapse each `\s+` run to one space, drop
   * every '|'. The pipe is removed after the collapse, so "a | b" keeps two
   * spaces (see CleanLineContentKeepsDoubleSpace).
   */
  function CleanLineContent(line: Option<string>): (r: string)
    ensures line.None? ==> r == []
    ensures '|' !in r
    ensures forall c :: c in r && IsRegexSpace(c) ==> c == ' '
    ensures forall c :: c in r ==> c == ' ' || (line.Some? && c in line.value)
  {
    if line.None? then []
    else
      var collapsed := ReplaceRuns(Trim(line.value), Whitespace, 1, " ");
      ReplaceRunsSingle(Trim(line.value), Whitespace, ' ');
      ReplaceRemovesChar(collapsed, "|", "");
      Replace(collapsed, "|", "")
  }

  /** Removing the pipe after collapsing the spaces can leave two spaces side by side. */
  lemma CleanLineContentKeepsDoubleSpace()
    ensures CleanLineContent(Some("a | b")) == "a  b"
  {
    var s := "a | b";
    assert Trim(s) == s;
    CollapseKeepsPipeLine();
    PipeRemovalExample();
  }

  /** "a | b" has no run of two blanks, so the collapse leaves it alone. */
  lemma CollapseKeepsPipeLine()
    ensures ReplaceRuns("a | b", Whitespace, 1, " ") == "a | b"
  {
    var s := "a | b";
    assert ReplaceRunsFrom(s, Whitespace, 1, " ", 5) == [];
    assert ReplaceRunsFrom(s, Whitespace, 1, " ", 4) == "b";
    assert RunEnd(s, Whitespace, 3) == 4;
    assert ReplaceRunsFrom(s, Whitespace, 1, " ", 3) == " b";
    assert ReplaceRunsFrom(s, Whitespace, 1, " ", 2) == "| b";
    assert RunEnd(s, Whitespace, 1) == 2;
    assert ReplaceRunsFrom(s, Whitespace, 1, " ", 1) == " | b";
    assert ReplaceRunsFrom(s, Whitespace, 1, " ", 0) == s;
  }

  /** Dropping the pipe from "a | b" joins its two blanks. */
  lemma PipeRemovalExample()
    ensures Replace("a | b", "|", "") == "a  b"
  {
    assert Replace("b", "|", "") == "b";
    assert Replace(" b", "|", "") == " b";
    assert Replace("| b", "|", "") == " b";
    assert Replace(" | b", "|", "") == "  b";
  }

  // ---------------------------------------------------------------------
  // formatTextWithOriginalLineBreaks
  // ---------------------------------------------------------------------

  /** The list with one "" appended unless it is empty or already ends with "". */
  function WithSeparator(acc: seq<string>): (r: seq<string>)
    ensures r == [] || r[|r| - 1] == []
    ensures r == acc || r == acc + [[]]
    ensures r == [] <==> acc == []
  {
    if acc != [] && acc[|acc| - 1] != [] then acc + [[]] else acc
  }

  /** What one raw line adds to the display list. */
  function AddDisplayLine(acc: seq<string>, raw: string): seq<string>
  {
    var line := Trim(raw);
    if line == [] then WithSeparator(acc)
    else if IsChapterHeader(Some(line)) then WithSeparator(acc) + [line, []]
    else
      var cleaned := CleanLineContent(Some(line));
      if cleaned != [] then acc + [cleaned] else acc
  }

  /** The display list after the loop over the given raw lines. */
  function DisplayLines(lines: seq<string>): seq<string>
    decreases |lines|
  {
    if lines == [] then [] else AddDisplayLine(DisplayLines(lines[..|lines| - 1]), lines[|lines| - 1])
  }

  /** The list without its leading "" entries. */
  function DropLeadingEmpty(parts: seq<string>): (r: seq<string>)
    ensures r == [] || r[0] != []
    ensures |r| <= |parts| && r == parts[|parts| - |r|..]
    decreases |parts|
  {
    if parts != [] && parts[0] == [] then DropLeadingEmpty(parts[1..]) else parts
  }

  /** The lines `getFormattedParagraphs` returns for a page's best text. */
  function FormattedLines(text: string): seq<string>
  {
    if text == [] then [] else DropTrailingEmpty(DropLeadingEmpty(DisplayLines(Split(text, '\n'))))
  }

  /** No two neighbouring entries are both "". */
  predicate NoAdjacentEmpty(parts: seq<string>)
  {
    forall k :: 0 <= k < |parts| - 1 ==> !(parts[k] == [] && parts[k + 1] == [])
  }

  /** The shape the loop keeps: no leading "" and no doubled "". */
  predicate WellSeparated(parts: seq<string>)
  {
    (parts == [] || parts[0] != []) && NoAdjacentEmpty(parts)
  }

  lemma WithSeparatorWellSeparated(acc: seq<string>)
    requires WellSeparated(acc)
    ensures WellSeparated(WithSeparator(acc))
  {
    var w := WithSeparator(acc);
    if w != acc {
      assert forall k :: 0 <= k < |acc| ==> w[k] == acc[k];
    }
  }

  lemma AppendTextWellSeparated(acc: seq<string>, t: string)
    requires WellSeparated(acc) && t != []
    ensures WellSeparated(acc + [t])
    ensures WellSeparated(WithSeparator(acc) + [t, []])
  {
    var r := acc + [t];
    assert forall k :: 0 <= k < |acc| ==> r[k] == acc[k];
    WithSeparatorWellSeparated(acc);
    var w := WithSeparator(acc);
    var r2 := w + [t, []];
    assert forall k :: 0 <= k < |w| ==> r2[k] == w[k];
  }

  lemma AddDisplayLineWellSeparated(acc: seq<string>, raw: string)
    requires WellSeparated(acc)
    ensures WellSeparated(AddDisplayLine(acc, raw))
  {
    var line := Trim(raw);
    WithSeparatorWellSeparated(acc);
    if line != [] {
      AppendTextWellSeparated(acc, line);
      if !IsChapterHeader(Some(line)) {
        var cleaned := CleanLineContent(Some(line));
        assert AddDisplayLine(acc, raw) == if cleaned != [] then acc + [cleaned] else acc;
        if cleaned != [] {
          AppendTextWellSeparated(acc, cleaned);
        }
      }
    }
  }

  lemma {:induction false} DisplayLinesWellSeparated(lines: seq<string>)
    ensures WellSeparated(DisplayLines(lines))
    decreases |lines|
  {
    if lines != [] {
      DisplayLinesWellSeparated(lines[..|lines| - 1]);
      AddDisplayLineWellSeparated(DisplayLines(lines[..|lines| - 1]), lines[|lines| - 1]);
    }
  }

  /**
   * The formatted lines never start or end with "" and never hold two ""
   * in a row, and the loop that strips leading "" entries never removes any.
   */
  lemma FormattedLinesShape(text: string)
    ensures var r := FormattedLines(text);
      (r == [] || (r[0] != [] && r[|r| - 1] != [])) && NoAdjacentEmpty(r)
    ensures text != [] ==> DropLeadingEmpty(DisplayLines(Split(text, '\n'))) == DisplayLines(Split(text, '\n'))
  {
    if text != [] {
      DisplayLinesWellSeparated(Split(text, '\n'));
      WellSeparatedStripped(DisplayLines(Split(text, '\n')));
    }
  }

  /** Stripping a well-separated list removes no leading "" and leaves no "" at either end. */
  lemma WellSeparatedStripped(d: seq<string>)
    requires WellSeparated(d)
    ensures DropLeadingEmpty(d) == d
    ensures var r := DropTrailingEmpty(d);
      (r == [] || (r[0] != [] && r[|r| - 1] != [])) && NoAdjacentEmpty(r)
  {
    var r := DropTrailingEmpty(d);
    assert forall k :: 0 <= k < |r| ==> r[k] == d[k];
  }

  /**
   * A chapter header is kept trimmed but uncleaned, with "" in front of it
   * unless nothing precedes it, and "" after it.
   */
  lemma ChapterHeaderSeparated(acc: seq<string>, raw: string)
    requires Trim(raw) != [] && IsChapterHeader(Some(Trim(raw)))
    ensures exists before ::
      && AddDisplayLine(acc, raw) == before + [Trim(raw), []]
      && (before == [] <==> acc == [])
      && (before == [] || before[|before| - 1] == [])
  {
    var before := WithSeparator(acc);
    assert AddDisplayLine(acc, raw) == before + [Trim(raw), []];
  }

  /** Blank lines only separate: they never add text, and add at most one "". */
  lemma BlankLineSeparates(acc: seq<string>, raw: string)
    requires IsBlank(raw)
    ensures AddDisplayLine(acc, raw) == acc || AddDisplayLine(acc, raw) == acc + [[]]
  {
  }

  /** The three branches of the loop body. */
  lemma AddDisplayLineCases(acc: seq<string>, raw: string)
    ensures Trim(raw) == [] ==> AddDisplayLine(acc, raw) == WithSeparator(acc)
    ensures Trim(raw) != [] && IsChapterHeader(Some(Trim(raw))) ==>
      AddDisplayLine(acc, raw) == WithSeparator(acc) + [Trim(raw), []]
    ensures Trim(raw) != [] && !IsChapterHeader(Some(Trim(raw))) ==>
      AddDisplayLine(acc, raw) == if CleanLineContent(Some(Trim(raw))) != [] then acc + [CleanLineContent(Some(Trim(raw)))] else acc
  {
  }

  lemma DisplayLinesStep(lines: seq<string>, i: nat)
    requires i < |lines|
    ensures DisplayLines(lines[..i + 1]) == AddDisplayLine(DisplayLines(lines[..i]), lines[i])
  {
    assert lines[..i + 1][..i] == lines[..i];
  }

  /** `formatTextWithOriginalLineBreaks`: the line loop, then the two stripping loops. */
  method FormatTextWithOriginalLineBreaks(text: string) returns (lines: seq<string>)
    ensures lines == DropTrailingEmpty(DropLeadingEmpty(DisplayLines(Split(text, '\n'))))
  {
    var originalLines := Split(text, '\n');
    lines := [];
    for i := 0 to |originalLines|
      invariant lines == DisplayLines(originalLines[..i])
    {
      DisplayLinesStep(originalLines, i);
      AddDisplayLineCases(lines, originalLines[i]);
      ghost var before := lines;
      var line := Trim(originalLines[i]);
      if line == [] {
        // A blank line leaves at most one "" as a paragraph break.
        lines := WithSeparator(lines);
      } else if IsChapterHeader(Some(line)) {
        lines := WithSeparator(lines) + [line, []];
      } else {
        var cleanedLine := CleanLineContent(Some(line));
        if cleanedLine != [] {
          lines := lines + [cleanedLine];
        }
      }
      assert lines == AddDisplayLine(before, originalLines[i]);
    }
    assert originalLines[..|originalLines|] == originalLines;
    ghost var folded := lines;
    while lines != [] && lines[0] == []
      invariant DropLeadingEmpty(lines) == DropLeadingEmpty(folded)
      decreases |lines|
    {
      lines := lines[1..];
    }
    ghost var stripped := lines;
    while lines != [] && lines[|lines| - 1] == []
      invariant DropTrailingEmpty(lines) == DropTrailingEmpty(stripped)
      decreases |lines|
    {
      lines := lines[..|lines| - 1];
    }
  }

  // ---------------------------------------------------------------------
  // The page record
  // ---------------------------------------------------------------------

  /** `PageText`: the text of one page. Text blocks are not part of this model. */
  class PageText {
    var pageNumber: int
    var originalText: string
    var ocrText: string
    var textSource: Option<TextSource>

    constructor()
      ensures pageNumber == 0 && originalText == [] && ocrText == [] && textSource == None
    {
      pageNumber := 0;
      originalText := [];
      ocrText := [];
      textSource := None;
    }

    method SetPageNumber(n: int)
      modifies this
      ensures pageNumber == n
      ensures originalText == old(originalText) && ocrText == old(ocrText) && textSource == old(textSource)
    {
      pageNumber := n;
    }

    /** A null text is stored as "". */
    method SetOriginalText(t: Option<string>)
      modifies this
      ensures originalText == t.GetOr([])
      ensures pageNumber == old(pageNumber) && ocrText == old(ocrText) && textSource == old(textSource)
    {
      originalText := if t.Some? then t.value else [];
    }

    /** A null text is stored as "". */
    method SetOcrText(t: Option<string>)
      modifies this
      ensures ocrText == t.GetOr([])
      ensures pageNumber == old(pageNumber) && originalText == old(originalText) && textSource == old(textSource)
    {
      ocrText := if t.Some? then t.value else [];
    }

    method SetTextSource(s: Option<TextSource>)
      modifies this
      ensures textSource == s
      ensures pageNumber == old(pageNumber) && originalText == old(originalText) && ocrText == old(ocrText)
    {
      textSource := s;
    }

    /** `getBestText`; a page without a source throws, so one is required. */
    function BestText(): string
      reads this
      requires textSource.Some?
    {
      BestTextOf(textSource.value, originalText, ocrText)
    }

    /** `getFormattedParagraphs`: no lines for an empty best text. */
    method GetFormattedParagraphs() returns (r: seq<string>)
      requires textSource.Some?
      ensures r == FormattedLines(BestText())
      ensures BestText() == [] ==> r == []
    {
      var text := BestText();
      if text == [] {
        r := [];
      } else {
        r := FormatTextWithOriginalLineBreaks(text);
      }
    }
  }

  // ---------------------------------------------------------------------
  // Cleaning chains
  // ---------------------------------------------------------------------

  /**
   * `cleanOCRText`: drop '|', turn whitespace runs of three or more into a
   * blank line, strip whitespace at line starts and ends, squeeze three or
   * more newlines into two, read '0' as 'O' and '丨' as '1', then trim.
   */
  function CleanOcrText(ocrText: Option<string>): (r: string)
    ensures ocrText.None? || IsBlank(ocrText.value) ==> r == []
    ensures IsTrimmed(r)
    ensures '|' !in r && '0' !in r && '丨' !in r
  {
    if ocrText.None? || IsBlank(ocrText.value) then []
    else
      var noPipes := Replace(ocrText.value, "|", "");
      ReplaceRemovesChar(ocrText.value, "|", "");
      var gaps := ReplaceRuns(noPipes, Whitespace, 3, "\n\n");
      var starts := StripLineStarts(gaps);
      var ends := StripLineEnds(starts);
      var squeezed := ReplaceRuns(ends, Newline, 3, "\n\n");
      var letterO := Replace(squeezed, "0", "O");
      ReplaceRemovesChar(squeezed, "0", "O");
      var digitOne := Replace(letterO, "丨", "1");
      ReplaceRemovesChar(letterO, "丨", "1");
      Trim(digitOne)
  }

  /**
   * `cleanExtractedText`: normalise line breaks to '\n', collapse each run of
   * spaces and tabs to one space, strip whitespace at line starts and ends,
   * then trim.
   */
  function CleanExtractedText(text: Option<string>): (r: string)
    ensures text.None? || IsBlank(text.value) ==> r == []
    ensures IsTrimmed(r)
    ensures '\r' !in r && '\t' !in r
    ensures forall i :: 0 <= i < |r| - 1 ==> !(r[i] == ' ' && r[i + 1] == ' ')
  {
    if text.None? || IsBlank(text.value) then []
    else
      var crlf := Replace(text.value, "\r\n", "\n");
      var cr := Replace(crlf, "\r", "\n");
      ReplaceRemovesChar(crlf, "\r", "\n");
      var spaces := ReplaceRuns(cr, SpaceOrTab, 1, " ");
      ReplaceRunsSingle(cr, SpaceOrTab, ' ');
      var starts := StripLineStarts(spaces);
      StripLineStartsNoAdjacent(spaces, SpaceOrTab);
      var ends := StripLineEnds(starts);
      StripLineEndsNoAdjacent(starts, SpaceOrTab);
      TrimNoAdjacent(ends, SpaceOrTab);
      Trim(ends)
  }

  lemma TrimNoAdjacent(s: string, k: CharClass)
    requires NoAdjacent(s, k)
    ensures NoAdjacent(Trim(s), k)
  {
    if Trim(s) != [] {
      NoAdjacentSlice(s, k, LeadingTrimmable(s), TrailingStart(s));
    }
  }
}
