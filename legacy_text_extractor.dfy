/**
 * The older page-text record in package E_Reader: best-text choice and the
 * paragraph joiner, which merges every maximal run of non-blank lines into
 * one paragraph.
 */
module LegacyTextExtractor {
  import opened JavaText

  datatype TextSource = Native | Ocr | Mixed

  /**
   * `getBestText`: OCR prefers the recognised text, every other source the
   * native text, and each falls back to the other when its choice is empty.
   */
  function BestTextOf(source: TextSource, originalText: string, ocrText: string): (r: string)
    ensures r == originalText || r == ocrText
    ensures r == [] <==> originalText == [] && ocrText == []
    ensures source == Ocr ==> r == (if ocrText != [] then ocrText else originalText)
    ensures source != Ocr ==> r == (if originalText != [] then originalText else ocrText)
  {
    match source
    case Native => if originalText == [] then ocrText else originalText
    case Ocr => if ocrText == [] then originalText else ocrText
    case Mixed => if originalText == [] then ocrText else originalText
  }

  // ---------------------------------------------------------------------
  // Paragraphs as maximal runs
  // ---------------------------------------------------------------------

  /** The maximal runs of non-empty entries, in order. */
  function Runs(ts: seq<string>): (r: seq<seq<string>>)
    ensures ts != [] && ts[|ts| - 1] != [] ==> r != []
    decreases |ts|
  {
    if ts == [] then []
    else
      var init := ts[..|ts| - 1];
      var t := ts[|ts| - 1];
      var r := Runs(init);
      if t == [] then r
      else if init != [] && init[|init| - 1] != [] then r[..|r| - 1] + [r[|r| - 1] + [t]]
      else r + [[t]]
  }

  /** Each run joined by single spaces. */
  function JoinRuns(groups: seq<seq<string>>): (r: seq<string>)
    ensures |r| == |groups|
    ensures forall k :: 0 <= k < |groups| && groups[k] != [] ==> r[k] == Join(groups[k], ' ')
  {
    seq(|groups|, k requires 0 <= k < |groups| => if groups[k] == [] then [] else Join(groups[k], ' '))
  }

  /** How many entries start a run: non-empty, first or after an empty one. */
  function RunStarts(ts: seq<string>): nat
    decreases |ts|
  {
    if ts == [] then 0
    else
      var init := ts[..|ts| - 1];
      var t := ts[|ts| - 1];
      RunStarts(init) + (if t != [] && (init == [] || init[|init| - 1] == []) then 1 else 0)
  }

  predicate RunsWellFormed(groups: seq<seq<string>>)
  {
    && (forall k :: 0 <= k < |groups| ==> groups[k] != [])
    && (forall k, j :: 0 <= k < |groups| && 0 <= j < |groups[k]| ==> groups[k][j] != [])
  }

  lemma AppendRunWellFormed(r: seq<seq<string>>, t: string)
    requires RunsWellFormed(r) && t != []
    ensures RunsWellFormed(r + [[t]])
    ensures Flatten(r + [[t]]) == Flatten(r) + [t]
  {
    var r2 := r + [[t]];
    assert r2[..|r2| - 1] == r;
    assert forall k :: 0 <= k < |r| ==> r2[k] == r[k];
  }

  lemma ExtendRunWellFormed(r: seq<seq<string>>, t: string)
    requires RunsWellFormed(r) && r != [] && t != []
    ensures RunsWellFormed(r[..|r| - 1] + [r[|r| - 1] + [t]])
    ensures Flatten(r[..|r| - 1] + [r[|r| - 1] + [t]]) == Flatten(r) + [t]
  {
    var init := r[..|r| - 1];
    var last := r[|r| - 1];
    var r2 := init + [last + [t]];
    assert r2[..|r2| - 1] == init;
    assert Flatten(r) == Flatten(init) + last by {
      assert r[..|r| - 1] == init;
    }
    ExtendRunEntries(r, t);
  }

  lemma ExtendRunEntries(r: seq<seq<string>>, t: string)
    requires RunsWellFormed(r) && r != [] && t != []
    ensures RunsWellFormed(r[..|r| - 1] + [r[|r| - 1] + [t]])
  {
    var last := r[|r| - 1];
    var r2 := r[..|r| - 1] + [last + [t]];
    assert forall k :: 0 <= k < |r| - 1 ==> r2[k] == r[k];
    assert r2[|r| - 1] == last + [t];
    assert forall j :: 0 <= j < |last| ==> r2[|r| - 1][j] == last[j];
  }

  /**
   * The runs are non-empty groups of non-empty entries that together are
   * the non-empty entries in order; there is one run per run start, so
   * never more runs than non-empty entries.
   */
  lemma {:induction false} RunsShape(ts: seq<string>)
    ensures RunsWellFormed(Runs(ts))
    ensures Flatten(Runs(ts)) == NonEmpty(ts)
    ensures |Runs(ts)| == RunStarts(ts)
    ensures RunStarts(ts) <= |NonEmpty(ts)|
    decreases |ts|
  {
    if ts != [] {
      var init := ts[..|ts| - 1];
      var t := ts[|ts| - 1];
      RunsShape(init);
      var r := Runs(init);
      if t != [] {
        if init != [] && init[|init| - 1] != [] {
          ExtendRunWellFormed(r, t);
        } else {
          AppendRunWellFormed(r, t);
        }
      }
    }
  }

  /** The paragraphs of a best text: each maximal run of non-blank lines, each line trimmed, joined by spaces. */
  function Paragraphs(text: string): seq<string>
  {
    if text == [] then [] else JoinRuns(Runs(TrimAll(Split(text, '\n'))))
  }

  /** No paragraph is empty or carries whitespace at either end, and there are at most as many paragraphs as non-blank lines. */
  lemma ParagraphsTrimmed(text: string)
    ensures forall p :: p in Paragraphs(text) ==> p != [] && IsTrimmed(p)
    ensures |Paragraphs(text)| <= |NonEmpty(TrimAll(Split(text, '\n')))|
  {
    var ts := TrimAll(Split(text, '\n'));
    RunsShape(ts);
    if text != [] {
      RunTextsTrimmed(ts);
    }
  }

  /** Every run of trimmed lines joins to a non-empty trimmed text. */
  lemma RunTextsTrimmed(ts: seq<string>)
    requires forall j :: 0 <= j < |ts| ==> IsTrimmed(ts[j])
    ensures forall k :: 0 <= k < |Runs(ts)| ==>
      Runs(ts)[k] != [] && Join(Runs(ts)[k], ' ') != [] && IsTrimmed(Join(Runs(ts)[k], ' '))
  {
    var runs := Runs(ts);
    RunsShape(ts);
    forall k | 0 <= k < |runs| ensures runs[k] != [] && Join(runs[k], ' ') != [] && IsTrimmed(Join(runs[k], ' ')) {
      assert forall j :: 0 <= j < |runs[k]| ==> runs[k][j] in Flatten(runs) by {
        FlattenHolds(runs, k);
      }
      forall j | 0 <= j < |runs[k]| ensures IsTrimmed(runs[k][j]) {
        NonEmptyOf(ts, runs[k][j]);
      }
      JoinOfTrimmed(runs[k]);
    }
  }

  lemma {:induction false} FlattenHolds(groups: seq<seq<string>>, k: nat)
    requires k < |groups|
    ensures forall j :: 0 <= j < |groups[k]| ==> groups[k][j] in Flatten(groups)
    decreases |groups|
  {
    var init := groups[..|groups| - 1];
    if k < |groups| - 1 {
      FlattenHolds(init, k);
      assert groups[k] == init[k];
    }
  }

  // ---------------------------------------------------------------------
  // The paragraph loop
  // ---------------------------------------------------------------------

  /**
   * After i trimmed lines: while a run is open (the last line was not
   * blank) its joined text is in `current` and the earlier runs are
   * finished; otherwise every run is finished and `current` is empty.
   */
  predicate LoopState(ts: seq<string>, i: nat, paragraphs: seq<string>, current: string)
    requires i <= |ts|
  {
    var r := Runs(ts[..i]);
    && RunsWellFormed(r)
    && (forall j :: 0 <= j < |ts| ==> IsTrimmed(ts[j]))
    && if i > 0 && ts[i - 1] != [] then
         r != [] && paragraphs == JoinRuns(r[..|r| - 1]) && current == Join(r[|r| - 1], ' ')
       else
         paragraphs == JoinRuns(r) && current == []
  }

  lemma RunsStep(ts: seq<string>, i: nat)
    requires i < |ts|
    ensures Runs(ts[..i + 1]) ==
      var r := Runs(ts[..i]);
      if ts[i] == [] then r
      else if i > 0 && ts[i - 1] != [] then r[..|r| - 1] + [r[|r| - 1] + [ts[i]]]
      else r + [[ts[i]]]
  {
    assert ts[..i + 1][..i] == ts[..i];
    if i > 0 {
      assert ts[..i][i - 1] == ts[i - 1];
    }
  }

  lemma OpenRunText(ts: seq<string>, i: nat, paragraphs: seq<string>, current: string)
    requires i <= |ts| && LoopState(ts, i, paragraphs, current)
    requires i > 0 && ts[i - 1] != []
    ensures current != [] && Trim(current) == current
    ensures paragraphs + [current] == JoinRuns(Runs(ts[..i]))
  {
    var t := ts[..i];
    assert forall j :: 0 <= j < |t| ==> IsTrimmed(t[j]);
    RunTextsTrimmed(t);
    JoinRunsSnoc(Runs(t));
  }

  lemma JoinRunsSnoc(r: seq<seq<string>>)
    requires r != [] && r[|r| - 1] != []
    ensures JoinRuns(r) == JoinRuns(r[..|r| - 1]) + [Join(r[|r| - 1], ' ')]
  {
    var init := r[..|r| - 1];
    assert forall k :: 0 <= k < |init| ==> init[k] == r[k];
  }

  lemma LoopBlank(ts: seq<string>, i: nat, paragraphs: seq<string>, current: string)
    requires i < |ts| && LoopState(ts, i, paragraphs, current) && ts[i] == []
    ensures |current| > 0 ==> LoopState(ts, i + 1, paragraphs + [Trim(current)], [])
    ensures |current| == 0 ==> LoopState(ts, i + 1, paragraphs, current)
  {
    RunsStep(ts, i);
    if i > 0 && ts[i - 1] != [] {
      OpenRunText(ts, i, paragraphs, current);
    }
  }

  lemma LoopLine(ts: seq<string>, i: nat, paragraphs: seq<string>, current: string)
    requires i < |ts| && LoopState(ts, i, paragraphs, current) && ts[i] != []
    ensures |current| > 0 ==> LoopState(ts, i + 1, paragraphs, current + " " + ts[i])
    ensures |current| == 0 ==> LoopState(ts, i + 1, paragraphs, current + ts[i])
  {
    if i > 0 && ts[i - 1] != [] {
      LoopLineExtends(ts, i, paragraphs, current);
    } else {
      LoopLineOpens(ts, i, paragraphs, current);
    }
  }

  /** A non-blank line after a non-blank line joins the open run. */
  lemma LoopLineExtends(ts: seq<string>, i: nat, paragraphs: seq<string>, current: string)
    requires i < |ts| && LoopState(ts, i, paragraphs, current) && ts[i] != []
    requires i > 0 && ts[i - 1] != []
    ensures current != [] && LoopState(ts, i + 1, paragraphs, current + " " + ts[i])
  {
    RunsStep(ts, i);
    var r := Runs(ts[..i]);
    OpenRunText(ts, i, paragraphs, current);
    var last := r[|r| - 1];
    var r2 := r[..|r| - 1] + [last + [ts[i]]];
    ExtendRunWellFormed(r, ts[i]);
    assert r2[..|r2| - 1] == r[..|r| - 1];
    JoinAppend(last, [ts[i]], ' ');
  }

  /** A non-blank line after a blank line, or first, opens a run. */
  lemma LoopLineOpens(ts: seq<string>, i: nat, paragraphs: seq<string>, current: string)
    requires i < |ts| && LoopState(ts, i, paragraphs, current) && ts[i] != []
    requires !(i > 0 && ts[i - 1] != [])
    ensures current == [] && LoopState(ts, i + 1, paragraphs, ts[i])
  {
    RunsStep(ts, i);
    var r := Runs(ts[..i]);
    var r2 := r + [[ts[i]]];
    AppendRunWellFormed(r, ts[i]);
    assert r2[..|r2| - 1] == r;
  }

  lemma LoopFinish(ts: seq<string>, paragraphs: seq<string>, current: string)
    requires LoopState(ts, |ts|, paragraphs, current)
    ensures |current| > 0 ==> paragraphs + [Trim(current)] == JoinRuns(Runs(ts))
    ensures |current| == 0 ==> paragraphs == JoinRuns(Runs(ts))
  {
    assert ts[..|ts|] == ts;
    if |ts| > 0 && ts[|ts| - 1] != [] {
      OpenRunText(ts, |ts|, paragraphs, current);
    }
  }

  /** The older `PageText`. Its setters take non-null strings here. */
  class PageText {
    var pageNumber: int
    var originalText: string
    var ocrText: string
    var textSource: TextSource

    constructor(source: TextSource)
      ensures pageNumber == 0 && originalText == [] && ocrText == [] && textSource == source
    {
      pageNumber := 0;
      originalText := [];
      ocrText := [];
      textSource := source;
    }

    method SetOriginalText(t: string)
      modifies this
      ensures originalText == t
      ensures pageNumber == old(pageNumber) && ocrText == old(ocrText) && textSource == old(textSource)
    {
      originalText := t;
    }

    method SetOcrText(t: string)
      modifies this
      ensures ocrText == t
      ensures pageNumber == old(pageNumber) && originalText == old(originalText) && textSource == old(textSource)
    {
      ocrText := t;
    }

    method SetTextSource(s: TextSource)
      modifies this
      ensures textSource == s
      ensures pageNumber == old(pageNumber) && originalText == old(originalText) && ocrText == old(ocrText)
    {
      textSource := s;
    }

    function BestText(): string
      reads this
    {
      BestTextOf(textSource, originalText, ocrText)
    }

    /** `getFormattedParagraphs`: the text split at '\n' and regrouped into paragraphs. */
    method GetFormattedParagraphs() returns (paragraphs: seq<string>)
      ensures paragraphs == Paragraphs(BestText())
      ensures BestText() == [] ==> paragraphs == []
    {
      var text := BestText();
      if text == [] {
        return [];
      }
      var lines := Split(text, '\n');
      ghost var ts := TrimAll(lines);
      paragraphs := [];
      var currentParagraph: string := [];
      for i := 0 to |lines|
        invariant LoopState(ts, i, paragraphs, currentParagraph)
      {
        var line := Trim(lines[i]);
        if line == [] {
          LoopBlank(ts, i, paragraphs, currentParagraph);
          if |currentParagraph| > 0 {
            paragraphs := paragraphs + [Trim(currentParagraph)];
            currentParagraph := [];
          }
        } else {
          LoopLine(ts, i, paragraphs, currentParagraph);
          if |currentParagraph| > 0 {
            currentParagraph := currentParagraph + " ";
          }
          currentParagraph := currentParagraph + line;
        }
      }
      LoopFinish(ts, paragraphs, currentParagraph);
      if |currentParagraph| > 0 {
        paragraphs := paragraphs + [Trim(currentParagraph)];
      }
    }
  }
}
