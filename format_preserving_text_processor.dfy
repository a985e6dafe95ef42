/**
 * The format-preserving text processor of E_Reader.core: a line is split
 * into its indentation and its content, the content is classified, and it
 * is cut into text and space segments so that a renderer can keep the
 * original spacing. Raw text is also grouped into paragraphs.
 *
 * Java `null` arguments are modelled with `Option`; the JavaFX rendering
 * (fonts, colours, TextFlow) is not part of this model.
 */
module FormatPreservingTextProcessor {
  import opened Wrappers
  import opened JavaText
  import opened JavaRegex

  datatype LineType = Normal | Header | NumberedList | BulletList | AlignedText | Empty

  datatype SegmentType = NormalText | SingleSpace | MultipleSpaces

  datatype TextSegment = TextSegment(text: string, kind: SegmentType)

  datatype IndentInfo = IndentInfo(indentText: string, content: string, indentLevel: int)

  datatype FormattedLine = FormattedLine(
    originalText: string,
    content: string,
    indentLevel: int,
    lineType: LineType,
    indentText: string,
    segments: seq<TextSegment>)

  // ---------------------------------------------------------------------
  // Indentation
  // ---------------------------------------------------------------------

  /** U+3000, the full-width space of CHINESE_INDENT. */
  predicate IsIdeographicSpace(c: char) { c == '\U{3000}' }

  predicate IsSpaceOrTab(c: char) { c == ' ' || c == '\t' }

  predicate AllChars(s: string, p: char -> bool)
  {
    forall i :: 0 <= i < |s| ==> p(s[i])
  }

  function CountTabs(s: string): (n: nat)
    ensures n <= |s|
    decreases |s|
  {
    if s == [] then 0 else CountTabs(s[..|s| - 1]) + (if s[|s| - 1] == '\t' then 1 else 0)
  }

  /** Java's `(int)` conversion of a double: truncation toward zero. */
  function TruncateToInt(x: real): int
  {
    if x >= 0.0 then x.Floor else -((-x).Floor)
  }

  /**
   * What the indentation analysis promises about one line:
   *  - nothing is lost: the indent followed by the content is the line;
   *  - a line that holds a line terminator is never indented (`(.*)$`
   *    cannot cross one);
   *  - a leading run of U+3000 is the indent, one level per character;
   *  - a leading run of spaces and tabs is the indent, and only its tabs
   *    count: `indentLevel += 0.25` on an int truncates back to the old value;
   *  - any other line has no indent and level 0.
   */
  predicate IsIndentSplit(line: string, info: IndentInfo)
  {
    && info.indentText + info.content == line
    && (info.indentText != [] ==> SingleLine(line))
    && (line != [] && IsIdeographicSpace(line[0]) && SingleLine(line) ==>
          && info.indentText != []
          && AllChars(info.indentText, IsIdeographicSpace)
          && (info.content == [] || !IsIdeographicSpace(info.content[0]))
          && info.indentLevel == |info.indentText|)
    && (line != [] && IsSpaceOrTab(line[0]) && SingleLine(line) ==>
          && info.indentText != []
          && AllChars(info.indentText, IsSpaceOrTab)
          && (info.content == [] || !IsSpaceOrTab(info.content[0]))
          && info.indentLevel == CountTabs(info.indentText))
    && (!(line != [] && (IsIdeographicSpace(line[0]) || IsSpaceOrTab(line[0])) && SingleLine(line)) ==>
          info == IndentInfo("", line, 0))
  }

  /** `analyzeIndentation`: CHINESE_INDENT first, then LEADING_SPACES. */
  method AnalyzeIndentation(line: string) returns (info: IndentInfo)
    ensures IsIndentSplit(line, info)
  {
    if |line| == 0 {
      return IndentInfo("", line, 0);
    }
    if IsIdeographicSpace(line[0]) && SingleLine(line) {
      var e := SpanEnd(line, 0, IsIdeographicSpace);
      assert line[..e] + line[e..] == line;
      return IndentInfo(line[..e], line[e..], e);
    }
    if IsSpaceOrTab(line[0]) && SingleLine(line) {
      var e := SpanEnd(line, 0, IsSpaceOrTab);
      var indentText := line[..e];
      var level := IndentLevel(indentText);
      assert indentText + line[e..] == line;
      return IndentInfo(indentText, line[e..], level);
    }
    return IndentInfo("", line, 0);
  }

  /**
   * The level loop over a space-and-tab indent: a tab adds one, a space adds
   * 0.25 to an int, which truncates back, so the level counts the tabs.
   */
  method IndentLevel(indentText: string) returns (level: int)
    ensures level == CountTabs(indentText)
  {
    level := 0;
    for i := 0 to |indentText|
      invariant level == CountTabs(indentText[..i])
    {
      assert indentText[..i + 1][..i] == indentText[..i];
      if indentText[i] == '\t' {
        level := level + 1;
      } else if indentText[i] == ' ' {
        level := TruncateToInt(level as real + 0.25);
      }
    }
    assert indentText[..|indentText|] == indentText;
  }

  // ---------------------------------------------------------------------
  // Line types
  // ---------------------------------------------------------------------

  predicate IsHeaderNumeral(c: char) { c in "一二三四五六七八九十" || IsDigit(c) }

  predicate IsHeaderUnit(c: char) { c == '章' || c == '節' || c == '段' }

  /** The class `[.)、]` that ends a list or header number. */
  predicate IsNumberMark(c: char) { c == '.' || c == ')' || c == '、' }

  predicate IsUpperOrDigit(c: char) { IsUpperLetter(c) || IsDigit(c) }

  /** PARAGRAPH_HEADER `^(第[一…十0-9]+[章節段]|[A-Z0-9]+[.)、])(.*)$` under `matches()`. */
  predicate MatchesParagraphHeader(s: string)
  {
    || (|s| >= 1 && s[0] == '第' &&
          var e := SpanEnd(s, 1, IsHeaderNumeral);
          e > 1 && e < |s| && IsHeaderUnit(s[e]) && DotStarToEnd(s, e + 1))
    || (var e := SpanEnd(s, 0, IsUpperOrDigit);
          e > 0 && e < |s| && IsNumberMark(s[e]) && DotStarToEnd(s, e + 1))
  }

  /**
   * LINE_WITH_NUMBERS `^(\d+[.)、])\s*(.*)$`. The greedy `\s*` may back off,
   * but the tail from the end of the whole run is the easiest one to match.
   */
  predicate MatchesNumberedLine(s: string)
  {
    var e := SpanEnd(s, 0, IsDigit);
    e > 0 && e < |s| && IsNumberMark(s[e]) && DotStarToEnd(s, SpanEnd(s, e + 1, IsRegexSpace))
  }

  /** BULLET_POINTS `^([…])\s*(.*)$` for a given reading of its character class. */
  predicate MatchesBulletLine(s: string, isBullet: char -> bool)
  {
    |s| >= 1 && isBullet(s[0]) && DotStarToEnd(s, SpanEnd(s, 1, IsRegexSpace))
  }

  /**
   * The class `[•·-‧○●]` as java.util.regex reads it: the `-` between `·`
   * (U+00B7) and `‧` (U+2027) makes a range, so it holds `•`, every
   * character from U+00B7 to U+2027, `○` and `●`, but not the hyphen.
   */
  predicate IsBulletAsWritten(c: char)
  {
    c == '•' || ('\U{B7}' <= c <= '\U{2027}') || c == '○' || c == '●'
  }

  /** The six bullet symbols the class lists. */
  predicate IsBullet(c: char) { c in "•·-‧○●" }

  /** `analyzeLineType` with a given bullet class: the tests in their fixed order. */
  function ClassifyLine(content: string, isBullet: char -> bool): LineType
  {
    if IsBlank(content) then Empty
    else if MatchesParagraphHeader(content) then Header
    else if MatchesNumberedLine(content) then NumberedList
    else if MatchesBulletLine(content, isBullet) then BulletList
    else if Contains(content, "    ") || '\t' in content then AlignedText
    else Normal
  }

  /** `analyzeLineType` exactly as written, with the range in the bullet class. */
  function AnalyzeLineTypeAsWritten(content: string): LineType
  {
    ClassifyLine(content, IsBulletAsWritten)
  }

  /** `analyzeLineType` with the bullet class it evidently means. */
  function AnalyzeLineType(content: string): LineType
  {
    ClassifyLine(content, IsBullet)
  }

  /**
   * A numbered line without line terminators is already a HEADER: the digit
   * run is the whole `[A-Z0-9]+` run, because the mark after it is not in
   * that class.
   */
  lemma NumberedLineIsHeader(content: string, isBullet: char -> bool)
    requires SingleLine(content) && MatchesNumberedLine(content)
    ensures ClassifyLine(content, isBullet) == Header
  {
    var e := SpanEnd(content, 0, IsDigit);
    var e2 := SpanEnd(content, 0, IsUpperOrDigit);
    assert e2 == e;
    assert !IsTrimmable(content[0]);
  }

  /** NUMBERED_LIST is returned only for content that holds a line terminator. */
  lemma NumberedListNeedsLineTerminator(content: string, isBullet: char -> bool)
    ensures ClassifyLine(content, isBullet) == NumberedList ==>
      exists i :: 0 <= i < |content| && IsLineTerminator(content[i])
  {
    if ClassifyLine(content, isBullet) == NumberedList && SingleLine(content) {
      NumberedLineIsHeader(content, isBullet);
    }
  }

  /** It is reachable: a lone carriage return after the mark breaks HEADER's `(.*)$`. */
  lemma NumberedListWithCarriageReturn()
    ensures AnalyzeLineType("1.\r") == NumberedList
  {
    var s := "1.\r";
    assert SpanEnd(s, 0, IsUpperOrDigit) == 1 by {
      assert IsUpperOrDigit(s[0]) && !IsUpperOrDigit(s[1]);
    }
    assert !DotStarToEnd(s, 2) by {
      assert IsLineTerminator(s[2]);
    }
    assert !IsTrimmable(s[0]);
    assert SpanEnd(s, 0, IsDigit) == 1 by {
      assert IsDigit(s[0]) && !IsDigit(s[1]);
    }
    assert SpanEnd(s, 2, IsRegexSpace) == 3 by {
      assert IsRegexSpace(s[2]);
    }
  }

  /** The intended bullet rule: a single-line content is a bullet item iff it starts with a bullet symbol. */
  lemma BulletListIff(content: string)
    requires SingleLine(content)
    ensures AnalyzeLineType(content) == BulletList <==> content != [] && IsBullet(content[0])
  {
    if content != [] && IsBullet(content[0]) {
      assert !IsTrimmable(content[0]);
      assert SpanEnd(content, 0, IsUpperOrDigit) == 0;
      assert SpanEnd(content, 0, IsDigit) == 0;
    }
  }

  /** As written, the hyphen is no bullet but a French word is. */
  lemma BulletRangeAsWritten()
    ensures AnalyzeLineTypeAsWritten("- a") == Normal
    ensures AnalyzeLineType("- a") == BulletList
    ensures AnalyzeLineTypeAsWritten("été") == BulletList
    ensures AnalyzeLineType("été") == Normal
  {
    var h := "- a";
    assert SpanEnd(h, 0, IsUpperOrDigit) == 0 && SpanEnd(h, 0, IsDigit) == 0;
    assert !IsTrimmable(h[0]);
    assert !Contains(h, "    ");
    var w := "été";
    assert SpanEnd(w, 0, IsUpperOrDigit) == 0 && SpanEnd(w, 0, IsDigit) == 0;
    assert !IsTrimmable(w[0]);
    assert SpanEnd(w, 1, IsRegexSpace) == 1;
    assert !Contains(w, "    ");
  }

  /** A blank content is EMPTY, whatever else it matches. */
  lemma BlankIsEmpty(content: string)
    ensures AnalyzeLineType(content) == Empty <==> IsBlank(content)
  {
  }

  // ---------------------------------------------------------------------
  // Segments
  // ---------------------------------------------------------------------

  function ConcatTexts(segs: seq<TextSegment>): string
    decreases |segs|
  {
    if segs == [] then [] else ConcatTexts(segs[..|segs| - 1]) + segs[|segs| - 1].text
  }

  lemma ConcatTextsAppend(segs: seq<TextSegment>, g: TextSegment)
    ensures ConcatTexts(segs + [g]) == ConcatTexts(segs) + g.text
  {
    assert (segs + [g])[..|segs|] == segs;
  }

  predicate AllSpaces(s: string) { forall i :: 0 <= i < |s| ==> s[i] == ' ' }

  /** A segment of ordinary content: text without a double space, or a run of two or more spaces. */
  predicate IsRunSegment(g: TextSegment)
  {
    match g.kind
    case NormalText => g.text != [] && NoAdjacent(g.text, Space)
    case MultipleSpaces => |g.text| >= 2 && AllSpaces(g.text)
    case SingleSpace => false
  }

  /** Neighbouring segments alternate, and the space runs are maximal. */
  predicate RunSegmentsMeet(a: TextSegment, b: TextSegment)
  {
    || (a.kind == NormalText && b.kind == MultipleSpaces && a.text != [] && a.text[|a.text| - 1] != ' ')
    || (a.kind == MultipleSpaces && b.kind == NormalText && b.text != [] && b.text[0] != ' ')
  }

  /** The segmentation of ordinary content by MULTIPLE_SPACES `( {2,})`. */
  predicate IsSpaceRunSegmentation(segs: seq<TextSegment>)
  {
    && (forall k :: 0 <= k < |segs| ==> IsRunSegment(segs[k]))
    && (forall k :: 0 <= k < |segs| - 1 ==> RunSegmentsMeet(segs[k], segs[k + 1]))
  }

  lemma RunSegmentationAppend(segs: seq<TextSegment>, g: TextSegment)
    requires IsSpaceRunSegmentation(segs) && IsRunSegment(g)
    requires segs != [] ==> RunSegmentsMeet(segs[|segs| - 1], g)
    ensures IsSpaceRunSegmentation(segs + [g])
  {
    var t := segs + [g];
    assert forall k :: 0 <= k < |segs| ==> t[k] == segs[k];
  }

  /** The greedy run of `( {2,})` that starts at a double space is a MULTIPLE_SPACES segment. */
  lemma SpaceRunSegment(s: string, start: nat)
    requires start + 2 <= |s| && s[start] == ' ' && s[start + 1] == ' '
    ensures RunEnd(s, Space, start) >= start + 2
    ensures IsRunSegment(TextSegment(s[start..RunEnd(s, Space, start)], MultipleSpaces))
  {
    var e := RunEnd(s, Space, start);
    assert InClass(Space, s[start + 1]);
    forall i | 0 <= i < e - start
      ensures s[start..e][i] == ' '
    {
      assert InClass(Space, s[start + i]);
    }
  }

  lemma DoubleSpaceAt(s: string, k: nat)
    requires k + 2 <= |s|
    ensures MatchesAt(s, "  ", k) <==> s[k] == ' ' && s[k + 1] == ' '
  {
    if s[k] == ' ' && s[k + 1] == ' ' {
      assert s[k..k + 2] == "  ";
    }
  }

  lemma NoDoubleSpaceBetween(s: string, a: nat, b: nat)
    requires a <= b <= |s|
    requires forall k :: a <= k && k + 2 <= b ==> !MatchesAt(s, "  ", k)
    ensures NoAdjacent(s[a..b], Space)
  {
    forall i | 0 <= i < b - a - 1
      ensures !(InClass(Space, s[a..b][i]) && InClass(Space, s[a..b][i + 1]))
    {
      DoubleSpaceAt(s, a + i);
    }
  }

  /** The state of the find loop once everything before lastEnd is segmented. */
  predicate SpaceLoopState(content: string, segs: seq<TextSegment>, lastEnd: nat)
  {
    && lastEnd <= |content|
    && ConcatTexts(segs) == content[..lastEnd]
    && IsSpaceRunSegmentation(segs)
    && (segs != [] ==> segs[|segs| - 1].kind == MultipleSpaces)
    && (segs != [] ==> lastEnd == |content| || content[lastEnd] != ' ')
    && (segs == [] ==> lastEnd == 0)
  }

  /** One successful `find()`: the text before the run (if any), then the run. */
  lemma SpaceLoopStep(content: string, segs: seq<TextSegment>, lastEnd: nat, start: int)
    requires SpaceLoopState(content, segs, lastEnd)
    requires start >= 0 && start == IndexOfFrom(content, "  ", lastEnd)
    ensures start + 2 <= RunEnd(content, Space, start)
    ensures SpaceLoopState(content,
      (if start > lastEnd then segs + [TextSegment(content[lastEnd..start], NormalText)] else segs)
        + [TextSegment(content[start..RunEnd(content, Space, start)], MultipleSpaces)],
      RunEnd(content, Space, start))
  {
    DoubleSpaceAt(content, start);
    var end := RunEnd(content, Space, start);
    SpaceRunSegment(content, start);
    var spaces := TextSegment(content[start..end], MultipleSpaces);
    var segs1 := SpaceLoopBefore(content, segs, lastEnd, start);
    RunSegmentationAppend(segs1, spaces);
    ConcatTextsAppend(segs1, spaces);
    SliceSplit(content, 0, start, end);
  }

  /** The text before a found run, if any, closes the segments up to the run. */
  lemma SpaceLoopBefore(content: string, segs: seq<TextSegment>, lastEnd: nat, start: int)
    returns (segs1: seq<TextSegment>)
    requires SpaceLoopState(content, segs, lastEnd)
    requires start >= 0 && start == IndexOfFrom(content, "  ", lastEnd)
    ensures segs1 == if start > lastEnd then segs + [TextSegment(content[lastEnd..start], NormalText)] else segs
    ensures ConcatTexts(segs1) == content[..start] && IsSpaceRunSegmentation(segs1)
    ensures segs1 != [] ==> var g := segs1[|segs1| - 1];
      g.kind == NormalText && g.text != [] && g.text[|g.text| - 1] != ' '
  {
    DoubleSpaceAt(content, start);
    segs1 := segs;
    if start > lastEnd {
      var before := TextSegment(content[lastEnd..start], NormalText);
      PlainBeforeRun(content, lastEnd, start);
      RunSegmentationAppend(segs, before);
      ConcatTextsAppend(segs, before);
      SliceSplit(content, 0, lastEnd, start);
      segs1 := segs + [before];
    } else {
      assert segs == [];
    }
  }

  /**
   * The text between the end of the previous run and the next double space
   * is a NORMAL_TEXT segment: it starts where the content does and ends in a
   * non-space, since a space there would make the double space start earlier.
   */
  lemma PlainBeforeRun(content: string, lastEnd: nat, start: nat)
    requires lastEnd < start && start + 2 <= |content| && content[start] == ' '
    requires forall k :: lastEnd <= k && k < start ==> !MatchesAt(content, "  ", k)
    ensures var g := TextSegment(content[lastEnd..start], NormalText);
      IsRunSegment(g) && g.text[0] == content[lastEnd] && g.text[|g.text| - 1] != ' '
  {
    NoDoubleSpaceBetween(content, lastEnd, start);
    if content[start - 1] == ' ' {
      DoubleSpaceAt(content, start - 1);
    }
  }

  /** After the last `find()`: the remaining text, if any, is one NORMAL_TEXT segment. */
  lemma SpaceLoopFinish(content: string, segs: seq<TextSegment>, lastEnd: nat)
    requires SpaceLoopState(content, segs, lastEnd)
    requires IndexOfFrom(content, "  ", lastEnd) < 0
    ensures lastEnd < |content| ==>
      var segs1 := segs + [TextSegment(content[lastEnd..], NormalText)];
      ConcatTexts(segs1) == content && IsSpaceRunSegmentation(segs1)
    ensures lastEnd == |content| ==> ConcatTexts(segs) == content && IsSpaceRunSegmentation(segs)
  {
    if lastEnd < |content| {
      NoDoubleSpaceBetween(content, lastEnd, |content|);
      var rest := TextSegment(content[lastEnd..], NormalText);
      assert rest.text[0] == content[lastEnd];
      RunSegmentationAppend(segs, rest);
      ConcatTextsAppend(segs, rest);
      SliceSplit(content, 0, lastEnd, |content|);
    } else {
      assert content[..lastEnd] == content;
    }
  }

  /** The find loop of `processContentSpaces` for content that is not aligned text. */
  method SplitSpaceRuns(content: string) returns (segs: seq<TextSegment>)
    ensures ConcatTexts(segs) == content
    ensures IsSpaceRunSegmentation(segs)
  {
    segs := [];
    var lastEnd := 0;
    var start := IndexOfFrom(content, "  ", 0);
    while start >= 0
      invariant SpaceLoopState(content, segs, lastEnd)
      invariant start == IndexOfFrom(content, "  ", lastEnd)
      decreases |content| - lastEnd
    {
      SpaceLoopStep(content, segs, lastEnd, start);
      if start > lastEnd {
        segs := segs + [TextSegment(content[lastEnd..start], NormalText)];
      }
      var end := RunEnd(content, Space, start);
      segs := segs + [TextSegment(content[start..end], MultipleSpaces)];
      lastEnd := end;
      start := IndexOfFrom(content, "  ", lastEnd);
    }
    SpaceLoopFinish(content, segs, lastEnd);
    if lastEnd < |content| {
      segs := segs + [TextSegment(content[lastEnd..], NormalText)];
    }
  }

  /** `content.replaceAll("\t", "    ")`. */
  function ExpandTabs(s: string): (r: string)
    ensures '\t' !in r
    ensures |r| == |s| + 3 * CountTabs(s)
    ensures forall c :: c in r ==> c in s || c == ' '
    ensures '\t' !in s ==> r == s
    decreases |s|
  {
    if s == [] then []
    else
      var init := s[..|s| - 1];
      assert s == init + [s[|s| - 1]];
      ExpandTabs(init) + (if s[|s| - 1] == '\t' then "    " else [s[|s| - 1]])
  }

  /** A segment of aligned text: text without spaces, or a space run tagged by its length. */
  predicate IsAlignedSegment(g: TextSegment)
  {
    match g.kind
    case NormalText => g.text != [] && ' ' !in g.text
    case SingleSpace => g.text == " "
    case MultipleSpaces => |g.text| >= 2 && AllSpaces(g.text)
  }

  predicate IsSpaceSegment(g: TextSegment) { g.kind != NormalText }

  /** Maximal space and non-space runs, strictly alternating. */
  predicate IsAlignedSegmentation(segs: seq<TextSegment>)
  {
    && (forall k :: 0 <= k < |segs| ==> IsAlignedSegment(segs[k]))
    && (forall k :: 0 <= k < |segs| - 1 ==> IsSpaceSegment(segs[k]) != IsSpaceSegment(segs[k + 1]))
  }

  function SpacesSegment(spaces: string): TextSegment
  {
    TextSegment(spaces, if |spaces| == 1 then SingleSpace else MultipleSpaces)
  }

  lemma AlignedSegmentationAppend(segs: seq<TextSegment>, g: TextSegment)
    requires IsAlignedSegmentation(segs) && IsAlignedSegment(g)
    requires segs != [] ==> IsSpaceSegment(segs[|segs| - 1]) != IsSpaceSegment(g)
    ensures IsAlignedSegmentation(segs + [g])
  {
    var t := segs + [g];
    assert forall k :: 0 <= k < |segs| ==> t[k] == segs[k];
  }

  lemma SpacesSegmentIsAligned(spaces: string)
    requires spaces != [] && AllSpaces(spaces)
    ensures IsAlignedSegment(SpacesSegment(spaces)) && IsSpaceSegment(SpacesSegment(spaces))
  {
    if |spaces| == 1 {
      assert spaces == [spaces[0]];
    }
  }

  /** The two buffers: never both filled, the text without spaces, the spaces only spaces. */
  predicate AlignedBuffers(text: string, spaces: string)
  {
    (text == [] || spaces == []) && ' ' !in text && AllSpaces(spaces)
  }

  /** The segments so far alternate, and a filled buffer holds the other kind than the last segment. */
  predicate AlignedShape(segs: seq<TextSegment>, text: string, spaces: string)
  {
    && IsAlignedSegmentation(segs)
    && (text != [] && segs != [] ==> IsSpaceSegment(segs[|segs| - 1]))
    && (spaces != [] && segs != [] ==> !IsSpaceSegment(segs[|segs| - 1]))
    && (segs != [] ==> text != [] || spaces != [])
  }

  /** The state of the character loop of `processAlignedText` before position i. */
  predicate AlignedLoopState(p: string, i: nat, segs: seq<TextSegment>, text: string, spaces: string)
  {
    && i <= |p|
    && ConcatTexts(segs) + text + spaces == p[..i]
    && AlignedBuffers(text, spaces)
    && AlignedShape(segs, text, spaces)
  }

  /** A buffer flushed into a segment leaves the concatenation as it was. */
  lemma FlushKeepsText(segs: seq<TextSegment>, g: TextSegment, rest: string)
    ensures ConcatTexts(segs + [g]) + rest == ConcatTexts(segs) + g.text + rest
  {
    ConcatTextsAppend(segs, g);
  }

  /** What is read after one more character is the prefix one longer. */
  lemma ReadOneMore(p: string, i: nat, before: string, after: string)
    requires i < |p| && before == p[..i] && after == before + [p[i]]
    ensures after == p[..i + 1]
  {
    assert p[..i + 1] == p[..i] + [p[i]];
  }

  /** A space flushes the text buffer and joins the space buffer. */
  lemma AlignedSpaceStep(p: string, i: nat, segs: seq<TextSegment>, text: string, spaces: string,
                         segs1: seq<TextSegment>, spaces1: string)
    requires i < |p| && p[i] == ' ' && AlignedLoopState(p, i, segs, text, spaces)
    requires segs1 == if text != [] then segs + [TextSegment(text, NormalText)] else segs
    requires spaces1 == spaces + [' ']
    ensures AlignedLoopState(p, i + 1, segs1, [], spaces1)
  {
    AlignedSpaceText(segs, text, spaces, segs1, spaces1);
    ReadOneMore(p, i, ConcatTexts(segs) + text + spaces, ConcatTexts(segs1) + [] + spaces1);
    AlignedSpaceShape(segs, text, spaces, segs1, spaces1);
  }

  lemma AlignedSpaceText(segs: seq<TextSegment>, text: string, spaces: string,
                         segs1: seq<TextSegment>, spaces1: string)
    requires text == [] || spaces == []
    requires segs1 == if text != [] then segs + [TextSegment(text, NormalText)] else segs
    requires spaces1 == spaces + [' ']
    ensures ConcatTexts(segs1) + [] + spaces1 == ConcatTexts(segs) + text + spaces + [' ']
  {
    if text != [] {
      FlushKeepsText(segs, TextSegment(text, NormalText), spaces1);
      assert spaces1 == [' '];
    }
  }

  lemma AlignedSpaceShape(segs: seq<TextSegment>, text: string, spaces: string,
                          segs1: seq<TextSegment>, spaces1: string)
    requires AlignedBuffers(text, spaces) && AlignedShape(segs, text, spaces)
    requires segs1 == if text != [] then segs + [TextSegment(text, NormalText)] else segs
    requires spaces1 == spaces + [' ']
    ensures AlignedBuffers([], spaces1) && AlignedShape(segs1, [], spaces1)
  {
    assert AllSpaces(spaces1);
    if text != [] {
      AlignedSegmentationAppend(segs, TextSegment(text, NormalText));
    }
  }

  /** Any other character flushes the space buffer and joins the text buffer. */
  lemma AlignedTextStep(p: string, i: nat, segs: seq<TextSegment>, text: string, spaces: string,
                        segs1: seq<TextSegment>, text1: string)
    requires i < |p| && p[i] != ' ' && AlignedLoopState(p, i, segs, text, spaces)
    requires segs1 == if spaces != [] then segs + [SpacesSegment(spaces)] else segs
    requires text1 == text + [p[i]]
    ensures AlignedLoopState(p, i + 1, segs1, text1, [])
  {
    AlignedTextText(segs, text, spaces, segs1, text1, p[i]);
    ReadOneMore(p, i, ConcatTexts(segs) + text + spaces, ConcatTexts(segs1) + text1 + []);
    AlignedTextShape(segs, text, spaces, segs1, text1, p[i]);
  }

  lemma AlignedTextText(segs: seq<TextSegment>, text: string, spaces: string,
                        segs1: seq<TextSegment>, text1: string, c: char)
    requires text == [] || spaces == []
    requires segs1 == if spaces != [] then segs + [SpacesSegment(spaces)] else segs
    requires text1 == text + [c]
    ensures ConcatTexts(segs1) + text1 + [] == ConcatTexts(segs) + text + spaces + [c]
  {
    if spaces != [] {
      FlushKeepsText(segs, SpacesSegment(spaces), text1);
      assert text1 == [c];
    }
  }

  lemma AlignedTextShape(segs: seq<TextSegment>, text: string, spaces: string,
                         segs1: seq<TextSegment>, text1: string, c: char)
    requires c != ' ' && AlignedBuffers(text, spaces) && AlignedShape(segs, text, spaces)
    requires segs1 == if spaces != [] then segs + [SpacesSegment(spaces)] else segs
    requires text1 == text + [c]
    ensures AlignedBuffers(text1, []) && AlignedShape(segs1, text1, [])
  {
    assert ' ' !in text1;
    if spaces != [] {
      SpacesSegmentIsAligned(spaces);
      AlignedSegmentationAppend(segs, SpacesSegment(spaces));
    }
  }

  /** The two final flushes: the text buffer first, then the space buffer. */
  lemma AlignedLoopFinish(p: string, segs: seq<TextSegment>, text: string, spaces: string)
    requires AlignedLoopState(p, |p|, segs, text, spaces)
    ensures var segs1 := if text != [] then segs + [TextSegment(text, NormalText)] else segs;
      var segs2 := if spaces != [] then segs1 + [SpacesSegment(spaces)] else segs1;
      ConcatTexts(segs2) == p && IsAlignedSegmentation(segs2)
  {
    assert p[..|p|] == p;
    if text != [] {
      AlignedFlushLast(p, segs, TextSegment(text, NormalText));
    } else if spaces != [] {
      SpacesSegmentIsAligned(spaces);
      AlignedFlushLast(p, segs, SpacesSegment(spaces));
    }
  }

  /** The one buffer still holding something becomes the last segment. */
  lemma AlignedFlushLast(p: string, segs: seq<TextSegment>, g: TextSegment)
    requires ConcatTexts(segs) + g.text == p && IsAlignedSegmentation(segs) && IsAlignedSegment(g)
    requires segs != [] ==> IsSpaceSegment(segs[|segs| - 1]) != IsSpaceSegment(g)
    ensures ConcatTexts(segs + [g]) == p && IsAlignedSegmentation(segs + [g])
  {
    AlignedSegmentationAppend(segs, g);
    ConcatTextsAppend(segs, g);
  }

  /** `processAlignedText`: tabs expanded, then a character loop with a text and a space buffer. */
  method ProcessAlignedText(content: string) returns (segs: seq<TextSegment>)
    ensures ConcatTexts(segs) == ExpandTabs(content)
    ensures IsAlignedSegmentation(segs)
  {
    var processed := ExpandTabs(content);
    segs := [];
    var currentText := "";
    var currentSpaces := "";
    for i := 0 to |processed|
      invariant AlignedLoopState(processed, i, segs, currentText, currentSpaces)
    {
      var c := processed[i];
      ghost var segs0, text0, spaces0 := segs, currentText, currentSpaces;
      if c == ' ' {
        if |currentText| > 0 {
          segs := segs + [TextSegment(currentText, NormalText)];
          currentText := "";
        }
        currentSpaces := currentSpaces + [c];
        AlignedSpaceStep(processed, i, segs0, text0, spaces0, segs, currentSpaces);
      } else {
        if |currentSpaces| > 0 {
          segs := segs + [SpacesSegment(currentSpaces)];
          currentSpaces := "";
        }
        currentText := currentText + [c];
        AlignedTextStep(processed, i, segs0, text0, spaces0, segs, currentText);
      }
    }
    AlignedLoopFinish(processed, segs, currentText, currentSpaces);
    if |currentText| > 0 {
      segs := segs + [TextSegment(currentText, NormalText)];
    }
    if |currentSpaces| > 0 {
      segs := segs + [SpacesSegment(currentSpaces)];
    }
  }

  /**
   * `processContentSpaces`. Its final "no segment yet" fallback cannot be
   * reached for non-empty content and is not modelled.
   */
  method ProcessContentSpaces(content: string, lineType: LineType) returns (segs: seq<TextSegment>)
    ensures content == [] ==> segs == []
    ensures lineType == AlignedText ==> ConcatTexts(segs) == ExpandTabs(content) && IsAlignedSegmentation(segs)
    ensures lineType != AlignedText ==> ConcatTexts(segs) == content && IsSpaceRunSegmentation(segs)
  {
    if |content| == 0 {
      return [];
    }
    if lineType == AlignedText {
      segs := ProcessAlignedText(content);
    } else {
      segs := SplitSpaceRuns(content);
    }
  }

  // ---------------------------------------------------------------------
  // Lines and pages
  // ---------------------------------------------------------------------

  /** What `processLine` promises about the formatted line it builds. */
  predicate IsFormattingOf(line: Option<string>, fl: FormattedLine)
  {
    match line
    case None => fl == FormattedLine("", "", 0, Normal, "", [])
    case Some(s) =>
      && fl.originalText == s
      && IsIndentSplit(s, IndentInfo(fl.indentText, fl.content, fl.indentLevel))
      && fl.lineType == AnalyzeLineType(fl.content)
      && (fl.content == [] ==> fl.segments == [])
      && (fl.lineType == AlignedText ==>
            ConcatTexts(fl.segments) == ExpandTabs(fl.content) && IsAlignedSegmentation(fl.segments))
      && (fl.lineType != AlignedText ==>
            ConcatTexts(fl.segments) == fl.content && IsSpaceRunSegmentation(fl.segments))
  }

  method ProcessLine(originalLine: Option<string>) returns (fl: FormattedLine)
    ensures IsFormattingOf(originalLine, fl)
  {
    if originalLine.None? {
      return FormattedLine("", "", 0, Normal, "", []);
    }
    var line := originalLine.value;
    var info := AnalyzeIndentation(line);
    var lineType := AnalyzeLineType(info.content);
    var segments := ProcessContentSpaces(info.content, lineType);
    fl := FormattedLine(line, info.content, info.indentLevel, lineType, info.indentText, segments);
  }

  /** `processLines`; a null list is modelled by the empty sequence. */
  method ProcessLines(lines: seq<Option<string>>) returns (r: seq<FormattedLine>)
    ensures |r| == |lines|
    ensures forall i :: 0 <= i < |lines| ==> IsFormattingOf(lines[i], r[i])
  {
    r := [];
    for i := 0 to |lines|
      invariant |r| == i
      invariant forall j :: 0 <= j < i ==> IsFormattingOf(lines[j], r[j])
    {
      var fl := ProcessLine(lines[i]);
      r := r + [fl];
    }
  }

  function SomeAll(parts: seq<string>): (r: seq<Option<string>>)
    ensures |r| == |parts|
    ensures forall i :: 0 <= i < |parts| ==> r[i] == Some(parts[i])
  {
    seq(|parts|, i requires 0 <= i < |parts| => Some(parts[i]))
  }

  function OriginalTexts(lines: seq<FormattedLine>): (r: seq<string>)
    ensures |r| == |lines|
  {
    seq(|lines|, i requires 0 <= i < |lines| => lines[i].originalText)
  }

  /**
   * `processPageText`, given the page's best text (None for a null page).
   * Every "\n"-separated piece becomes one line, empty pieces included, so
   * joining the original texts with "\n" gives the page text back.
   */
  method ProcessPageText(bestText: Option<string>) returns (r: seq<FormattedLine>)
    ensures bestText.None? || bestText.value == [] ==> r == []
    ensures bestText.Some? && bestText.value != [] ==>
      && |r| == |SplitAll(bestText.value, '\n')|
      && (forall i :: 0 <= i < |r| ==> IsFormattingOf(Some(SplitAll(bestText.value, '\n')[i]), r[i]))
      && |r| >= 1
      && Join(OriginalTexts(r), '\n') == bestText.value
  {
    if bestText.None? || |bestText.value| == 0 {
      return [];
    }
    var lines := SplitAll(bestText.value, '\n');
    r := ProcessLines(SomeAll(lines));
    assert OriginalTexts(r) == lines;
  }

  // ---------------------------------------------------------------------
  // Paragraphs
  // ---------------------------------------------------------------------

  function DropCarriageReturn(s: string): (r: string)
    ensures forall c :: c in r ==> c in s
  {
    if s != [] && s[|s| - 1] == '\r' then s[..|s| - 1] else s
  }

  /**
   * `s.split("\\r?\\n")`: the pieces between line feeds, a carriage return
   * just before a line feed belonging to the separator, and trailing empty
   * pieces dropped (a string without line feed is its own only piece).
   */
  function SplitLines(s: string): (r: seq<string>)
    ensures forall k :: 0 <= k < |r| ==> '\n' !in r[k]
    ensures '\n' !in s ==> r == [s]
  {
    if '\n' !in s then [s]
    else
      var parts := SplitAll(s, '\n');
      var stripped := seq(|parts|, k requires 0 <= k < |parts| =>
        if k < |parts| - 1 then DropCarriageReturn(parts[k]) else parts[k]);
      assert forall k :: 0 <= k < |stripped| ==> '\n' !in stripped[k];
      DropTrailingEmpty(stripped)
  }

  predicate IsIndentChar(c: char) { c == ' ' || c == '\t' || c == '\U{3000}' }

  /** `line.matches("^[ \\t\u3000]{2,}.*")`: a new paragraph begins here. */
  predicate IsParagraphStart(line: string)
  {
    |line| >= 2 && IsIndentChar(line[0]) && IsIndentChar(line[1]) && SingleLine(line)
  }

  /**
   * The lines of each paragraph: blank lines are skipped, an indented line
   * opens a new paragraph, and every other line joins the current one.
   */
  function ParagraphGroups(lines: seq<string>): seq<seq<string>>
    decreases |lines|
  {
    if lines == [] then [] else AddLine(ParagraphGroups(lines[..|lines| - 1]), lines[|lines| - 1])
  }

  /** One line of the loop: skipped if blank, else a new group or the end of the current one. */
  function AddLine(g: seq<seq<string>>, line: string): seq<seq<string>>
  {
    if IsBlank(line) then g
    else if g == [] || IsParagraphStart(line) then g + [[line]]
    else g[..|g| - 1] + [g[|g| - 1] + [line]]
  }

  /** One paragraph: its trimmed lines joined by single spaces. */
  function ParagraphText(group: seq<string>): string
  {
    if group == [] then [] else Join(TrimAll(group), ' ')
  }

  function ParagraphTexts(groups: seq<seq<string>>): (r: seq<string>)
    ensures |r| == |groups|
  {
    seq(|groups|, k requires 0 <= k < |groups| => ParagraphText(groups[k]))
  }

  /** The paragraphs `splitIntoParagraphs` returns for a raw text. */
  function Paragraphs(rawText: string): seq<string>
  {
    ParagraphTexts(ParagraphGroups(SplitLines(rawText)))
  }

  /** The non-blank lines, in order. */
  function NonBlankLines(lines: seq<string>): seq<string>
    decreases |lines|
  {
    if lines == [] then []
    else
      var init := NonBlankLines(lines[..|lines| - 1]);
      if IsBlank(lines[|lines| - 1]) then init else init + [lines[|lines| - 1]]
  }

  predicate GroupsWellFormed(g: seq<seq<string>>)
  {
    && (forall k :: 0 <= k < |g| ==> g[k] != [])
    && (forall k, j :: 0 <= k < |g| && 0 <= j < |g[k]| ==> !IsBlank(g[k][j]))
    && (forall k :: 0 < k < |g| ==> IsParagraphStart(g[k][0]))
    && (forall k, j :: 0 <= k < |g| && 0 < j < |g[k]| ==> !IsParagraphStart(g[k][j]))
  }

  /**
   * The grouping is exactly the paragraph structure: non-empty groups of
   * non-blank lines, each group after the first opened by an indented line,
   * no indented line inside a group, and together the non-blank lines in order.
   */
  lemma {:induction false} ParagraphGroupsShape(lines: seq<string>)
    ensures GroupsWellFormed(ParagraphGroups(lines))
    ensures Flatten(ParagraphGroups(lines)) == NonBlankLines(lines)
    decreases |lines|
  {
    if lines != [] {
      var init := lines[..|lines| - 1];
      var line := lines[|lines| - 1];
      ParagraphGroupsShape(init);
      var g := ParagraphGroups(init);
      if !IsBlank(line) {
        if g == [] || IsParagraphStart(line) {
          NewGroupShape(g, line);
        } else {
          ExtendGroupShape(g, line);
        }
      }
    }
  }

  lemma NewGroupShape(g: seq<seq<string>>, line: string)
    requires GroupsWellFormed(g) && !IsBlank(line) && (g == [] || IsParagraphStart(line))
    ensures GroupsWellFormed(g + [[line]])
    ensures Flatten(g + [[line]]) == Flatten(g) + [line]
  {
    var g2 := g + [[line]];
    assert g2[..|g2| - 1] == g;
    assert forall k :: 0 <= k < |g| ==> g2[k] == g[k];
  }

  lemma ExtendGroupShape(g: seq<seq<string>>, line: string)
    requires GroupsWellFormed(g) && !IsBlank(line) && g != [] && !IsParagraphStart(line)
    ensures GroupsWellFormed(g[..|g| - 1] + [g[|g| - 1] + [line]])
    ensures Flatten(g[..|g| - 1] + [g[|g| - 1] + [line]]) == Flatten(g) + [line]
  {
    ExtendGroupLines(g, line);
    FlattenExtendLast(g, line);
  }

  lemma FlattenExtendLast(g: seq<seq<string>>, line: string)
    requires g != []
    ensures Flatten(g[..|g| - 1] + [g[|g| - 1] + [line]]) == Flatten(g) + [line]
  {
    var init := g[..|g| - 1];
    var last := g[|g| - 1];
    var g2 := init + [last + [line]];
    assert g2[..|g2| - 1] == init;
    assert Flatten(g) == Flatten(init) + last;
  }

  lemma ExtendGroupLines(g: seq<seq<string>>, line: string)
    requires GroupsWellFormed(g) && !IsBlank(line) && g != [] && !IsParagraphStart(line)
    ensures GroupsWellFormed(g[..|g| - 1] + [g[|g| - 1] + [line]])
  {
    var last := g[|g| - 1];
    var g2 := g[..|g| - 1] + [last + [line]];
    assert forall k :: 0 <= k < |g| - 1 ==> g2[k] == g[k];
    assert g2[|g| - 1] == last + [line];
    assert forall j :: 0 <= j < |last| ==> g2[|g| - 1][j] == last[j];
  }

  /** A group's paragraph is non-empty and trimmed. */
  lemma ParagraphTextTrimmed(group: seq<string>)
    requires group != []
    requires forall j :: 0 <= j < |group| ==> !IsBlank(group[j])
    ensures ParagraphText(group) != [] && IsTrimmed(ParagraphText(group))
  {
    JoinOfTrimmed(TrimAll(group));
  }

  /** Every paragraph is non-empty and trimmed. */
  lemma ParagraphsTrimmed(rawText: string)
    ensures forall p :: p in Paragraphs(rawText) ==> p != [] && IsTrimmed(p)
  {
    var g := ParagraphGroups(SplitLines(rawText));
    ParagraphGroupsShape(SplitLines(rawText));
    forall k | 0 <= k < |g|
      ensures ParagraphTexts(g)[k] != [] && IsTrimmed(ParagraphTexts(g)[k])
    {
      ParagraphTextTrimmed(g[k]);
    }
  }

  /** Joining the paragraphs joins the trimmed lines of all the groups. */
  lemma {:induction false} JoinParagraphs(g: seq<seq<string>>)
    requires g != [] && (forall k :: 0 <= k < |g| ==> g[k] != [])
    ensures Flatten(g) != []
    ensures Join(ParagraphTexts(g), ' ') == Join(TrimAll(Flatten(g)), ' ')
    decreases |g|
  {
    var init := g[..|g| - 1];
    var last := g[|g| - 1];
    assert g == init + [last];
    ParagraphTextsAppend(init, last);
    assert Flatten(g) == Flatten(init) + last;
    if |g| == 1 {
      assert init == [];
      assert Flatten(g) == last;
      assert ParagraphTexts(g) == [ParagraphText(last)];
      assert Join(ParagraphTexts(g), ' ') == ParagraphText(last);
    } else {
      JoinParagraphs(init);
      JoinAppend(ParagraphTexts(init), [ParagraphText(last)], ' ');
      TrimAllAppend(Flatten(init), last);
      JoinAppend(TrimAll(Flatten(init)), TrimAll(last), ' ');
    }
  }

  lemma ParagraphTextsAppend(g: seq<seq<string>>, group: seq<string>)
    ensures ParagraphTexts(g + [group]) == ParagraphTexts(g) + [ParagraphText(group)]
  {
    var a := ParagraphTexts(g + [group]);
    var b := ParagraphTexts(g) + [ParagraphText(group)];
    assert |a| == |b|;
    forall k | 0 <= k < |a| ensures a[k] == b[k] {
      if k < |g| {
        assert (g + [group])[k] == g[k];
      }
    }
  }

  /**
   * No text is lost or reordered: the paragraphs, joined by spaces, are the
   * trimmed non-blank lines joined by spaces, and there are no paragraphs
   * exactly when every line is blank.
   */
  lemma ParagraphsKeepText(rawText: string)
    ensures Paragraphs(rawText) == [] <==> NonBlankLines(SplitLines(rawText)) == []
    ensures Paragraphs(rawText) != [] ==>
      Join(Paragraphs(rawText), ' ') == Join(TrimAll(NonBlankLines(SplitLines(rawText))), ' ')
  {
    var g := ParagraphGroups(SplitLines(rawText));
    ParagraphGroupsShape(SplitLines(rawText));
    if g != [] {
      JoinParagraphs(g);
    }
  }

  /** The paragraph buffer: each line followed by one space. */
  function Spaced(ts: seq<string>): string
    decreases |ts|
  {
    if ts == [] then [] else Spaced(ts[..|ts| - 1]) + ts[|ts| - 1] + " "
  }

  lemma {:induction false} SpacedIsJoin(ts: seq<string>)
    requires ts != []
    ensures Spaced(ts) == Join(ts, ' ') + " "
    decreases |ts|
  {
    if |ts| > 1 {
      var init := ts[..|ts| - 1];
      SpacedIsJoin(init);
      assert ts == init + [ts[|ts| - 1]];
      JoinAppend(init, [ts[|ts| - 1]], ' ');
    }
  }

  lemma TrimAppendSpace(x: string)
    requires x != [] && IsTrimmed(x)
    ensures Trim(x + " ") == x
  {
    var s := x + " ";
    assert s[0] == x[0] && s[|x| - 1] == x[|x| - 1] && s[|x|] == ' ';
    var a := LeadingTrimmable(s);
    assert a == 0;
    var b := TrailingStart(s);
    assert b == |x|;
    assert s[a..b] == x;
  }

  /** Trimming the buffer of a group gives the group's paragraph. */
  lemma TrimSpacedGroup(group: seq<string>)
    requires group != []
    requires forall j :: 0 <= j < |group| ==> !IsBlank(group[j])
    ensures Trim(Spaced(TrimAll(group))) == ParagraphText(group)
  {
    SpacedIsJoin(TrimAll(group));
    JoinOfTrimmed(TrimAll(group));
    TrimAppendSpace(Join(TrimAll(group), ' '));
  }

  /** The loop state of `splitIntoParagraphs` after the first i lines. */
  predicate ParagraphLoopState(lines: seq<string>, i: nat, paragraphs: seq<string>, current: string)
  {
    i <= |lines| &&
    var g := ParagraphGroups(lines[..i]);
    && GroupsWellFormed(g)
    && (g == [] ==> current == [] && paragraphs == [])
    && (g != [] ==> paragraphs == ParagraphTexts(g[..|g| - 1]) && current == Spaced(TrimAll(g[|g| - 1])))
  }

  lemma ParagraphLoopNext(lines: seq<string>, i: nat)
    requires i < |lines|
    ensures ParagraphGroups(lines[..i + 1]) == AddLine(ParagraphGroups(lines[..i]), lines[i])
    ensures GroupsWellFormed(ParagraphGroups(lines[..i + 1]))
  {
    assert lines[..i + 1][..i] == lines[..i];
    assert lines[..i + 1][i] == lines[i];
    ParagraphGroupsShape(lines[..i + 1]);
  }

  lemma ParagraphLoopBlank(lines: seq<string>, i: nat, paragraphs: seq<string>, current: string)
    requires i < |lines| && ParagraphLoopState(lines, i, paragraphs, current) && IsBlank(lines[i])
    ensures ParagraphLoopState(lines, i + 1, paragraphs, current)
  {
    ParagraphLoopNext(lines, i);
  }

  /** An indented line closes the current paragraph and opens a new one. */
  lemma ParagraphLoopFlush(lines: seq<string>, i: nat, paragraphs: seq<string>, current: string)
    requires i < |lines| && ParagraphLoopState(lines, i, paragraphs, current)
    requires !IsBlank(lines[i]) && IsParagraphStart(lines[i]) && |current| > 0
    ensures ParagraphLoopState(lines, i + 1, paragraphs + [Trim(current)], Trim(lines[i]) + " ")
  {
    ParagraphLoopNext(lines, i);
    var line := lines[i];
    var g := ParagraphGroups(lines[..i]);
    assert g != [];
    var g2 := g + [[line]];
    assert ParagraphGroups(lines[..i + 1]) == g2;
    assert g2[..|g2| - 1] == g;
    var last := g[|g| - 1];
    TrimSpacedGroup(last);
    assert Trim(current) == ParagraphText(last);
    SplitLast(g);
    ParagraphTextsAppend(g[..|g| - 1], last);
    assert paragraphs + [Trim(current)] == ParagraphTexts(g);
    SpacedSingle(Trim(line));
    assert TrimAll([line]) == [Trim(line)];
    assert Trim(line) + " " == Spaced(TrimAll(g2[|g2| - 1]));
  }

  lemma SpacedSingle(t: string)
    ensures Spaced([t]) == t + " "
  {
    assert [t][..0] == [];
  }

  /** Any other non-blank line joins the current paragraph (or starts the first one). */
  lemma ParagraphLoopAppend(lines: seq<string>, i: nat, paragraphs: seq<string>, current: string)
    requires i < |lines| && ParagraphLoopState(lines, i, paragraphs, current)
    requires !IsBlank(lines[i]) && !(IsParagraphStart(lines[i]) && |current| > 0)
    ensures ParagraphLoopState(lines, i + 1, paragraphs, current + Trim(lines[i]) + " ")
  {
    ParagraphLoopNext(lines, i);
    if ParagraphGroups(lines[..i]) == [] {
      ParagraphLoopFirst(lines, i, paragraphs, current);
    } else {
      ParagraphLoopExtend(lines, i, paragraphs, current);
    }
  }

  lemma ParagraphLoopFirst(lines: seq<string>, i: nat, paragraphs: seq<string>, current: string)
    requires i < |lines| && ParagraphLoopState(lines, i, paragraphs, current)
    requires !IsBlank(lines[i]) && ParagraphGroups(lines[..i]) == []
    ensures ParagraphLoopState(lines, i + 1, paragraphs, current + Trim(lines[i]) + " ")
  {
    ParagraphLoopNext(lines, i);
    var line := lines[i];
    var g2 := [[line]];
    assert ParagraphGroups(lines[..i + 1]) == g2;
    assert g2[..0] == [];
    SpacedSingle(Trim(line));
    assert TrimAll([line]) == [Trim(line)];
  }

  lemma ParagraphLoopExtend(lines: seq<string>, i: nat, paragraphs: seq<string>, current: string)
    requires i < |lines| && ParagraphLoopState(lines, i, paragraphs, current)
    requires !IsBlank(lines[i]) && !IsParagraphStart(lines[i]) && ParagraphGroups(lines[..i]) != []
    ensures ParagraphLoopState(lines, i + 1, paragraphs, current + Trim(lines[i]) + " ")
  {
    ParagraphLoopNext(lines, i);
    var line := lines[i];
    var g := ParagraphGroups(lines[..i]);
    var last := g[|g| - 1];
    var init := g[..|g| - 1];
    var g2 := init + [last + [line]];
    assert ParagraphGroups(lines[..i + 1]) == g2;
    assert g2[..|g2| - 1] == init;
    assert g2[|g2| - 1] == last + [line];
    TrimAllAppend(last, [line]);
    assert TrimAll([line]) == [Trim(line)];
    SpacedAppend(TrimAll(last), Trim(line));
  }

  lemma SpacedAppend(ts: seq<string>, t: string)
    ensures Spaced(ts + [t]) == Spaced(ts) + t + " "
  {
    assert (ts + [t])[..|ts|] == ts;
  }

  lemma ParagraphLoopFinish(lines: seq<string>, paragraphs: seq<string>, current: string)
    requires ParagraphLoopState(lines, |lines|, paragraphs, current)
    ensures |current| > 0 ==> paragraphs + [Trim(current)] == ParagraphTexts(ParagraphGroups(lines))
    ensures |current| == 0 ==> paragraphs == ParagraphTexts(ParagraphGroups(lines))
  {
    assert lines[..|lines|] == lines;
    var g := ParagraphGroups(lines);
    if g != [] {
      assert TrimAll(g[|g| - 1]) != [];
      TrimSpacedGroup(g[|g| - 1]);
      SplitLast(g);
      ParagraphTextsAppend(g[..|g| - 1], g[|g| - 1]);
    }
  }

  /** `splitIntoParagraphs`: the line loop with a StringBuilder for the current paragraph. */
  method SplitIntoParagraphs(rawText: string) returns (paragraphs: seq<string>)
    ensures paragraphs == Paragraphs(rawText)
  {
    var lines := SplitLines(rawText);
    paragraphs := [];
    var current := "";
    assert lines[..0] == [];
    for i := 0 to |lines|
      invariant ParagraphLoopState(lines, i, paragraphs, current)
    {
      var line := lines[i];
      if IsBlank(line) {
        ParagraphLoopBlank(lines, i, paragraphs, current);
      } else {
        if IsParagraphStart(line) && |current| > 0 {
          ParagraphLoopFlush(lines, i, paragraphs, current);
          paragraphs := paragraphs + [Trim(current)];
          current := "";
        } else {
          ParagraphLoopAppend(lines, i, paragraphs, current);
        }
        current := current + Trim(line) + " ";
      }
    }
    ParagraphLoopFinish(lines, paragraphs, current);
    if |current| > 0 {
      paragraphs := paragraphs + [Trim(current)];
    }
  }
}
