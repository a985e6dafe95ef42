// The LaTeX layer over the page-text extractor (core/EnhancedTextExtractor.java):
// which pages are sent to the formula recogniser, how a recognised formula is
// merged into a page's text, and how batch results are mapped to strings.
// The recogniser itself (LatexOCRIntegrator), PDF rendering and the base
// extractor's OCR are outside the model: their outcomes are parameters, one
// `LatexOcrResult` per page or image, a failed render or a thrown exception
// being a failed result.

module EnhancedTextExtractor {
  import opened Wrappers
  import opened JavaText
  import opened JavaRegex
  import TextExtractor

  datatype LatexDetectionMode = Disabled | Auto | Force

  /** What the recogniser reports for one image; `null` codes and messages are None. */
  datatype LatexOcrResult = LatexOcrResult(success: bool, latexCode: Option<string>, errorMessage: Option<string>)

  // ---------------------------------------------------------------------
  // Which pages are sent to the recogniser
  // ---------------------------------------------------------------------

  /** The character class of `MATH_FORMULA_INDICATORS`. */
  predicate IsMathIndicator(c: char)
  {
    c in {'+', '-', '*', '/', '=', '(', ')', '[', ']', '{', '}', '^', '$',
          '∑', '∏', '∫', '√', 'π', '∞', '≈', '≠', '≤', '≥', '±', '×', '÷', '∂', '∇', '∈', '∉', '⊂', '⊃', '∩', '∪', '∅'}
  }

  /**
   * `MATH_FORMULA_INDICATORS.matcher(s).matches()` for `.*[…].*`: the
   * string is some text, one indicator, and some text, where `.` takes no
   * line terminator.
   */
  predicate MatchesFormulaIndicators(s: string)
  {
    exists k :: 0 <= k < |s| && SingleLine(s[..k]) && IsMathIndicator(s[k]) && SingleLine(s[k + 1..])
  }

  /** The pattern holds exactly for a single line holding an indicator somewhere. */
  lemma MatchesFormulaIndicatorsIff(s: string)
    ensures MatchesFormulaIndicators(s) <==> SingleLine(s) && exists k :: 0 <= k < |s| && IsMathIndicator(s[k])
  {
    if MatchesFormulaIndicators(s) {
      var k :| 0 <= k < |s| && SingleLine(s[..k]) && IsMathIndicator(s[k]) && SingleLine(s[k + 1..]);
      forall j | 0 <= j < |s|
        ensures !IsLineTerminator(s[j])
      {
        if j < k {
          assert s[..k][j] == s[j];
        } else if j > k {
          assert s[k + 1..][j - k - 1] == s[j];
        } else {
          assert IsMathIndicator(s[j]);
        }
      }
    }
    if SingleLine(s) && exists k :: 0 <= k < |s| && IsMathIndicator(s[k]) {
      var k :| 0 <= k < |s| && IsMathIndicator(s[k]);
      forall j | 0 <= j < k
        ensures !IsLineTerminator(s[..k][j])
      {
        assert s[..k][j] == s[j];
      }
      var rest := s[k + 1..];
      forall j | 0 <= j < |rest|
        ensures !IsLineTerminator(rest[j])
      {
        assert rest[j] == s[k + 1 + j];
      }
      assert SingleLine(s[..k]) && SingleLine(s[k + 1..]);
    }
  }

  /** A formula on a line of its own still fails the test once another line follows. */
  lemma TwoLinesNeverMatch()
    ensures !MatchesFormulaIndicators("x = 1\ny")
  {
    var s := "x = 1\ny";
    assert s[5] == '\n' && IsLineTerminator(s[5]);
    MatchesFormulaIndicatorsIff(s);
  }

  /** The three fields of `PageText` the layer reads and writes. */
  datatype PageState = PageState(originalText: string, ocrText: string, textSource: Option<TextExtractor.TextSource>)

  function StateOf(page: TextExtractor.PageText): PageState
    reads page
  {
    PageState(page.originalText, page.ocrText, page.textSource)
  }

  /** `getBestText` of a page state whose source is set. */
  function BestOf(s: PageState): string
    requires s.textSource.Some?
  {
    TextExtractor.BestTextOf(s.textSource.value, s.originalText, s.ocrText)
  }

  /**
   * `shouldDetectLatex`: never when disabled, always when forced, and in
   * AUTO when the page's best text matches the indicator pattern. A page
   * without a source throws in AUTO, hence the precondition.
   */
  function DetectsLatex(mode: LatexDetectionMode, s: PageState): (r: bool)
    requires mode == Auto ==> s.textSource.Some?
    ensures mode == Disabled ==> !r
    ensures mode == Force ==> r
    ensures mode == Auto ==>
              (r <==> SingleLine(BestOf(s)) && exists k :: 0 <= k < |BestOf(s)| && IsMathIndicator(BestOf(s)[k]))
  {
    MatchesFormulaIndicatorsIff(if s.textSource.Some? then BestOf(s) else []);
    match mode
    case Disabled => false
    case Force => true
    case Auto => MatchesFormulaIndicators(BestOf(s))
  }

  // ---------------------------------------------------------------------
  // Merging a formula into a page
  // ---------------------------------------------------------------------

  const LatexHeader: string := "=== LaTeX 數學公式 ===\n"
  const LatexFooter: string := "\n=== LaTeX 公式結束 ==="

  /**
   * The text `enhancePageWithLatex` builds: the existing text and a blank
   * line when it is not blank, then the trimmed formula between the two
   * marker lines.
   */
  function MergedText(existingText: string, latexCode: string): (r: string)
    ensures !IsBlank(existingText) ==> StartsWith(r, existingText + "\n\n")
    ensures IsBlank(existingText) ==> StartsWith(r, LatexHeader)
    ensures EndsWith(r, Trim(latexCode) + LatexFooter)
    ensures |r| == (if IsBlank(existingText) then 0 else |existingText| + 2) + |LatexHeader| + |Trim(latexCode)| + |LatexFooter|
    ensures r != []
  {
    var prefix := if !IsBlank(existingText) then existingText + "\n\n" else "";
    var body := Trim(latexCode) + LatexFooter;
    ConcatParts(prefix + LatexHeader, body);
    ConcatParts(prefix, LatexHeader + body);
    ConcatParts(LatexHeader, body);
    assert prefix + LatexHeader + body == prefix + (LatexHeader + body);
    prefix + LatexHeader + body
  }

  /** A concatenation starts with its first part and ends with its second. */
  lemma ConcatParts(a: string, b: string)
    ensures StartsWith(a + b, a) && EndsWith(a + b, b) && |a + b| == |a| + |b|
  {
    assert (a + b)[..|a|] == a;
    assert (a + b)[|a + b| - |b|..] == b;
  }

  /** The recogniser found a formula: a success with a non-blank code. */
  predicate Recognised(result: LatexOcrResult)
  {
    result.success && result.latexCode.Some? && !IsBlank(result.latexCode.value)
  }

  /**
   * `enhancePageWithLatex` on a page state: with a formula, the merged text
   * becomes the recognised text and the source OCR stays OCR while anything
   * else becomes MIXED. A page without a source makes `getBestText` throw,
   * which the method catches, so that page and every page without a
   * formula stay as they were.
   */
  function Enhanced(s: PageState, result: LatexOcrResult): (r: PageState)
    ensures r.originalText == s.originalText
    ensures !(Recognised(result) && s.textSource.Some?) ==> r == s
    ensures Recognised(result) && s.textSource.Some? ==>
              r.ocrText == MergedText(BestOf(s), result.latexCode.value) &&
              r.textSource == Some(if s.textSource == Some(TextExtractor.Ocr) then TextExtractor.Ocr else TextExtractor.Mixed)
  {
    if Recognised(result) && s.textSource.Some? then
      var merged := MergedText(BestOf(s), result.latexCode.value);
      PageState(s.originalText, merged,
                Some(if s.textSource.value == TextExtractor.Ocr then TextExtractor.Ocr else TextExtractor.Mixed))
    else s
  }

  /**
   * After a merge the page shows the merged text: the source is OCR or
   * MIXED and the recognised text is not empty.
   */
  lemma EnhancedShowsMergedText(s: PageState, result: LatexOcrResult)
    requires Recognised(result) && s.textSource.Some?
    ensures Enhanced(s, result).textSource.Some?
    ensures BestOf(Enhanced(s, result)) == MergedText(BestOf(s), result.latexCode.value)
    ensures !IsBlank(BestOf(s)) ==> StartsWith(BestOf(Enhanced(s, result)), BestOf(s))
  {
    var merged := MergedText(BestOf(s), result.latexCode.value);
    if !IsBlank(BestOf(s)) {
      assert merged[..|BestOf(s)|] == (BestOf(s) + "\n\n")[..|BestOf(s)|];
    }
  }

  /** One page of the enhancement loop: sent to the recogniser only when `shouldDetectLatex` says so. */
  function PageStep(mode: LatexDetectionMode, s: PageState, result: LatexOcrResult): (r: PageState)
    requires mode == Auto ==> s.textSource.Some?
    ensures !DetectsLatex(mode, s) ==> r == s
    ensures DetectsLatex(mode, s) ==> r == Enhanced(s, result)
  {
    if DetectsLatex(mode, s) then Enhanced(s, result) else s
  }

  /** What a page changes to is some merge into it, or nothing. */
  lemma PageStepChangesOnlyWithFormula(mode: LatexDetectionMode, s: PageState, result: LatexOcrResult)
    requires mode == Auto ==> s.textSource.Some?
    ensures PageStep(mode, s, result) != s ==> mode != Disabled && Recognised(result) && s.textSource.Some?
    ensures mode == Disabled ==> PageStep(mode, s, result) == s
  {
  }

  // ---------------------------------------------------------------------
  // Mapping batch results
  // ---------------------------------------------------------------------

  /** A result's code, or "" for a failure or a null code. */
  function LatexOrEmpty(result: LatexOcrResult): (r: string)
    ensures result.success && result.latexCode.Some? ==> r == result.latexCode.value
    ensures !(result.success && result.latexCode.Some?) ==> r == []
  {
    if result.success && result.latexCode.Some? then result.latexCode.value else []
  }

  /** Distinct page records: a page list from the extractor holds each page once. */
  predicate Distinct(pages: seq<TextExtractor.PageText>)
  {
    forall i, j :: 0 <= i < j < |pages| ==> pages[i] != pages[j]
  }

  class EnhancedTextExtractor {
    var latexOcrEnabled: bool
    var latexDetectionMode: LatexDetectionMode

    /** A new extractor: LaTeX-OCR enabled when the recogniser initialised, AUTO detection. */
    constructor (initialized: bool)
      ensures latexOcrEnabled == initialized && latexDetectionMode == Auto
    {
      latexOcrEnabled := initialized;
      latexDetectionMode := Auto;
    }

    /** `reinitializeLatexOCR`: the recogniser's new start-up outcome, which is returned. */
    method ReinitializeLatexOcr(initialized: bool) returns (r: bool)
      modifies this
      ensures r == initialized && latexOcrEnabled == initialized
      ensures latexDetectionMode == old(latexDetectionMode)
    {
      latexOcrEnabled := initialized;
      r := latexOcrEnabled;
    }

    method SetLatexDetectionMode(mode: LatexDetectionMode)
      modifies this
      ensures latexDetectionMode == mode && latexOcrEnabled == old(latexOcrEnabled)
    {
      latexDetectionMode := mode;
    }

    /** `isLatexOcrAvailable`: enabled, and the recogniser says it is available. */
    function IsLatexOcrAvailable(recognizerAvailable: bool): (r: bool)
      reads this
      ensures r <==> latexOcrEnabled && recognizerAvailable
    {
      latexOcrEnabled && recognizerAvailable
    }

    /** `shouldDetectLatex` for the current mode. */
    function ShouldDetectLatex(page: TextExtractor.PageText): (r: bool)
      reads this, page
      requires latexDetectionMode == Auto ==> page.textSource.Some?
      ensures r == DetectsLatex(latexDetectionMode, StateOf(page))
    {
      match latexDetectionMode
      case Disabled => false
      case Force => true
      case Auto => MatchesFormulaIndicators(page.BestText())
    }

    /** `enhancePageWithLatex`: the recogniser's result merged into the page. */
    method EnhancePageWithLatex(page: TextExtractor.PageText, result: LatexOcrResult)
      modifies page
      ensures StateOf(page) == Enhanced(old(StateOf(page)), result)
      ensures page.pageNumber == old(page.pageNumber)
    {
      if result.success && result.latexCode.Some? && !IsBlank(result.latexCode.value) {
        if page.textSource.None? {
          return;
        }
        var existingText := page.BestText();
        var latexCode := Trim(result.latexCode.value);
        var enhancedText := MergedText(existingText, result.latexCode.value);
        if page.textSource == Some(TextExtractor.Ocr) {
          page.SetOcrText(Some(enhancedText));
        } else {
          page.SetOcrText(Some(enhancedText));
          page.SetTextSource(Some(TextExtractor.Mixed));
        }
      }
    }

    /**
     * The loop of `enhancePagesWithLatex` and `enhancePagesWithLatexFromImages`
     * over the first `count` pages, `results[i]` being what the recogniser
     * reports for page i.
     */
    method EnhancePages(pages: seq<TextExtractor.PageText>, count: nat, results: seq<LatexOcrResult>)
      requires count <= |pages| && count <= |results| && Distinct(pages)
      requires latexDetectionMode == Auto ==> forall i :: 0 <= i < count ==> pages[i].textSource.Some?
      modifies set i | 0 <= i < |pages| :: pages[i]
      ensures forall i :: 0 <= i < count ==>
                StateOf(pages[i]) == PageStep(latexDetectionMode, old(StateOf(pages[i])), results[i])
      ensures forall i :: count <= i < |pages| ==> StateOf(pages[i]) == old(StateOf(pages[i]))
      ensures forall i :: 0 <= i < |pages| ==> pages[i].pageNumber == old(pages[i].pageNumber)
    {
      for i := 0 to count
        invariant forall j :: 0 <= j < i ==>
                    StateOf(pages[j]) == PageStep(latexDetectionMode, old(StateOf(pages[j])), results[j])
        invariant forall j :: i <= j < |pages| ==> StateOf(pages[j]) == old(StateOf(pages[j]))
        invariant forall j :: 0 <= j < |pages| ==> pages[j].pageNumber == old(pages[j].pageNumber)
      {
        var page := pages[i];
        assert forall j :: 0 <= j < |pages| && j != i ==> pages[j] != page;
        EnhancePage(page, results[i]);
      }
    }

    /** One page of the loop of `enhancePagesWithLatex`: enhanced when detection asks for it. */
    method EnhancePage(page: TextExtractor.PageText, result: LatexOcrResult)
      requires latexDetectionMode == Auto ==> page.textSource.Some?
      modifies page
      ensures StateOf(page) == PageStep(latexDetectionMode, old(StateOf(page)), result)
      ensures page.pageNumber == old(page.pageNumber)
    {
      if ShouldDetectLatex(page) {
        EnhancePageWithLatex(page, result);
      }
    }

    /**
     * `extractTextFromPdf` after the base extraction: with LaTeX-OCR on and
     * detection not disabled, the pages the document has (None when it
     * cannot be loaded) are enhanced; otherwise nothing changes.
     */
    method ExtractTextFromPdf(pages: seq<TextExtractor.PageText>, documentPages: Option<nat>,
                              results: seq<LatexOcrResult>)
      requires Distinct(pages) && |results| >= |pages|
      requires latexDetectionMode == Auto ==> forall i :: 0 <= i < |pages| ==> pages[i].textSource.Some?
      modifies set i | 0 <= i < |pages| :: pages[i]
      ensures forall i :: 0 <= i < |pages| ==>
                StateOf(pages[i]) ==
                  if latexOcrEnabled && latexDetectionMode != Disabled && documentPages.Some? && i < documentPages.value
                  then PageStep(latexDetectionMode, old(StateOf(pages[i])), results[i])
                  else old(StateOf(pages[i]))
    {
      if latexOcrEnabled && latexDetectionMode != Disabled {
        if pages == [] || documentPages.None? {
          return;
        }
        var count := if |pages| < documentPages.value then |pages| else documentPages.value;
        EnhancePages(pages, count, results);
      }
    }

    /**
     * `extractTextFromImages` after the base extraction: with LaTeX-OCR on
     * and detection not disabled, the first min(#pages, #images) pages are
     * enhanced from their images; otherwise nothing changes.
     */
    method ExtractTextFromImages(pages: seq<TextExtractor.PageText>, imageCount: nat, results: seq<LatexOcrResult>)
      requires Distinct(pages) && |results| >= |pages|
      requires latexDetectionMode == Auto ==> forall i :: 0 <= i < |pages| ==> pages[i].textSource.Some?
      modifies set i | 0 <= i < |pages| :: pages[i]
      ensures forall i :: 0 <= i < |pages| ==>
                StateOf(pages[i]) ==
                  if latexOcrEnabled && latexDetectionMode != Disabled && i < imageCount
                  then PageStep(latexDetectionMode, old(StateOf(pages[i])), results[i])
                  else old(StateOf(pages[i]))
    {
      if latexOcrEnabled && latexDetectionMode != Disabled {
        if pages == [] || imageCount == 0 {
          return;
        }
        var maxPages := if |pages| < imageCount then |pages| else imageCount;
        EnhancePages(pages, maxPages, results);
      }
    }

    /**
     * `extractLatexFromImage`: "" when LaTeX-OCR is unavailable or there is
     * no image, else the result's code, "" for a failure or a null code.
     */
    function ExtractLatexFromImage(hasImage: bool, recognizerAvailable: bool, result: LatexOcrResult): (r: string)
      reads this
      ensures !IsLatexOcrAvailable(recognizerAvailable) || !hasImage ==> r == []
      ensures IsLatexOcrAvailable(recognizerAvailable) && hasImage ==> r == LatexOrEmpty(result)
    {
      if !IsLatexOcrAvailable(recognizerAvailable) || !hasImage then []
      else if result.success then (if result.latexCode.Some? then result.latexCode.value else [])
      else []
    }

    /**
     * `extractLatexFromImages`: nothing when LaTeX-OCR is unavailable or
     * there are no images; otherwise one string per recogniser result, in
     * order, "" for a failure.
     */
    method ExtractLatexFromImages<Image>(images: Option<seq<Image>>, recognizerAvailable: bool,
                                         ocrResults: seq<LatexOcrResult>) returns (results: seq<string>)
      ensures !IsLatexOcrAvailable(recognizerAvailable) || images.None? || images.value == [] ==> results == []
      ensures IsLatexOcrAvailable(recognizerAvailable) && images.Some? && images.value != [] ==>
                |results| == |ocrResults| && forall i :: 0 <= i < |ocrResults| ==> results[i] == LatexOrEmpty(ocrResults[i])
    {
      results := [];
      if !IsLatexOcrAvailable(recognizerAvailable) || images.None? || images.value == [] {
        return;
      }
      for i := 0 to |ocrResults|
        invariant |results| == i
        invariant forall j :: 0 <= j < i ==> results[j] == LatexOrEmpty(ocrResults[j])
      {
        var result := ocrResults[i];
        if result.success && result.latexCode.Some? {
          results := results + [result.latexCode.value];
        } else {
          results := results + [""];
        }
      }
    }
  }
}
