// The reader window's controller (ui/MainController.java), reduced to what it
// decides rather than how it lays out: page navigation in the two modes, the
// image click zones, the full-screen, controls and focus toggles, the page
// label and the reading-time label. The session state, the text renderer and
// the image viewer are the models of StateManager, viewer/TextRenderer and
// viewer/ImageViewer; styling, dialogs, progress ratios and file loading are
// not modelled. The clock is a parameter `now` in milliseconds.

module MainController {
  import opened Wrappers
  import opened JavaText
  import SM = StateManager
  import TR = TextRenderer
  import IV = ImageViewer

  // ---------------------------------------------------------------------
  // Reading time
  // ---------------------------------------------------------------------

  const MillisPerHour: int := 3_600_000
  const MillisPerMinute: int := 60_000
  const MillisPerSecond: int := 1000

  /** Java's `/` on `long`: the quotient rounded toward zero. */
  function JavaDiv(a: int, b: int): (r: int)
    requires b > 0
    ensures a >= 0 ==> r == a / b
    ensures a < 0 ==> r == -((-a) / b)
  {
    if a >= 0 then a / b else -((-a) / b)
  }

  /** Java's `%` on `long`: the remainder takes the sign of the dividend. */
  function JavaRem(a: int, b: int): (r: int)
    requires b > 0
    ensures a >= 0 ==> r == a % b
    ensures a < 0 ==> r == -((-a) % b)
  {
    a - JavaDiv(a, b) * b
  }

  datatype Clock = Clock(hours: int, minutes: int, seconds: int)

  /** The hours, minutes and seconds `updateReadingTime` derives from the total reading time. */
  function ClockOf(totalTime: int): (r: Clock)
  {
    var rest := JavaRem(totalTime, MillisPerHour);
    Clock(JavaDiv(totalTime, MillisPerHour), JavaDiv(rest, MillisPerMinute),
          JavaDiv(JavaRem(rest, MillisPerMinute), MillisPerSecond))
  }

  /** The milliseconds a clock reading stands for, up to the dropped fraction of a second. */
  function ClockMillis(c: Clock): int
  {
    c.hours * MillisPerHour + c.minutes * MillisPerMinute + c.seconds * MillisPerSecond
  }

  /** A well-formed reading of a non-negative time: minutes and seconds below 60. */
  predicate IsClockReading(c: Clock)
  {
    c.hours >= 0 && 0 <= c.minutes < 60 && 0 <= c.seconds < 60
  }

  /**
   * For a non-negative time, the reading has minutes and seconds below 60
   * and gives the time to the whole second, rounded down.
   */
  lemma ClockOfDecomposes(t: int)
    requires t >= 0
    ensures IsClockReading(ClockOf(t))
    ensures ClockMillis(ClockOf(t)) <= t < ClockMillis(ClockOf(t)) + 1000
  {
    var c := ClockOf(t);
    var rest := t % MillisPerHour;
    assert t == c.hours * MillisPerHour + rest;
    assert rest == c.minutes * MillisPerMinute + rest % MillisPerMinute;
    assert rest % MillisPerMinute == c.seconds * MillisPerSecond + (rest % MillisPerMinute) % MillisPerSecond;
  }

  /** The reading is the only well-formed one within the second: it names the time uniquely. */
  lemma ClockOfUnique(t: int, c: Clock)
    requires t >= 0 && IsClockReading(c)
    requires ClockMillis(c) <= t < ClockMillis(c) + 1000
    ensures ClockOf(t) == c
  {
    ClockOfDecomposes(t);
    var d := ClockOf(t);
    var x := c.minutes * MillisPerMinute + c.seconds * MillisPerSecond;
    var y := d.minutes * MillisPerMinute + d.seconds * MillisPerSecond;
    assert 0 <= x < MillisPerHour - 1000 + 1 && 0 <= y < MillisPerHour - 1000 + 1;
  }

  /** Two times within the same second read the same. */
  lemma ClockOfSameSecond(t1: int, t2: int)
    requires t1 >= 0 && t2 >= 0 && t1 / 1000 == t2 / 1000
    ensures ClockOf(t1) == ClockOf(t2)
  {
    var c := ClockOf(t1);
    ClockOfDecomposes(t1);
    ClockOfCountsSeconds(t1);
    assert ClockMillis(c) == 1000 * (t2 / 1000) by {
      assert ClockMillis(c) == 1000 * ClockSeconds(c);
    }
    ClockOfUnique(t2, c);
  }

  /** A negative time, which a clock set back can give, reads as the negated reading of its magnitude. */
  lemma ClockOfNegative(t: int)
    requires t < 0
    ensures ClockOf(t) == Clock(-ClockOf(-t).hours, -ClockOf(-t).minutes, -ClockOf(-t).seconds)
  {
  }

  /** `%02d`: at least two digits, a zero in front of a single digit. */
  function TwoDigits(n: int): (r: string)
    ensures |r| >= 2
    ensures 0 <= n ==> AllDigits(r)
  {
    if 0 <= n < 10 then "0" + IntToString(n) else IntToString(n)
  }

  lemma TwoDigitsInjective(m: nat, n: nat)
    requires TwoDigits(m) == TwoDigits(n)
    ensures m == n
  {
    if m < 10 && n < 10 {
      assert TwoDigits(m)[1..] == NatToString(m) && TwoDigits(n)[1..] == NatToString(n);
      NatToStringInjective(m, n);
    } else if m >= 10 && n >= 10 {
      NatToStringInjective(m, n);
    }
  }

  const ReadingTimePrefix: string := "閱讀時間: "

  /** `String.format("閱讀時間: %02d:%02d:%02d", …)` of a reading. */
  function ClockText(c: Clock): string
  {
    ReadingTimePrefix + TwoDigits(c.hours) + ":" + TwoDigits(c.minutes) + ":" + TwoDigits(c.seconds)
  }

  /** The text of `readingTimeLabel` for a total reading time. */
  function ReadingTimeText(totalTime: int): string
  {
    ClockText(ClockOf(totalTime))
  }

  /** The label the window starts with is the reading of no time at all. */
  lemma ReadingTimeTextOfZero()
    ensures ReadingTimeText(0) == "閱讀時間: 00:00:00"
  {
    ClockOfUnique(0, Clock(0, 0, 0));
    ZeroClockText();
  }

  lemma ZeroClockText()
    ensures ClockText(Clock(0, 0, 0)) == "閱讀時間: 00:00:00"
  {
    assert TwoDigits(0) == "00" by {
      assert NatToString(0) == "0";
    }
    assert ReadingTimePrefix + "00" + ":" + "00" + ":" + "00" == "閱讀時間: 00:00:00";
  }

  /** Three digit fields after a common prefix, split by colons, can be read back. */
  lemma ColonFieldsInjective(prefix: string, h: string, m: string, s: string, h': string, m': string, s': string)
    requires AllDigits(h) && AllDigits(m) && AllDigits(h') && AllDigits(m')
    requires prefix + h + ":" + m + ":" + s == prefix + h' + ":" + m' + ":" + s'
    ensures h == h' && m == m' && s == s'
  {
    var x := prefix + h + ":" + m + ":" + s;
    var y := prefix + h' + ":" + m' + ":" + s';
    assert x[|prefix|..] == h + ":" + (m + ":" + s);
    assert y[|prefix|..] == h' + ":" + (m' + ":" + s');
    DigitsSeparatedInjective(h, m + ":" + s, h', m' + ":" + s', ":");
    DigitsSeparatedInjective(m, s, m', s', ":");
  }

  /** A well-formed reading can be read back from its text. */
  lemma ClockTextInjective(c: Clock, d: Clock)
    requires IsClockReading(c) && IsClockReading(d)
    requires ClockText(c) == ClockText(d)
    ensures c == d
  {
    ColonFieldsInjective(ReadingTimePrefix, TwoDigits(c.hours), TwoDigits(c.minutes), TwoDigits(c.seconds),
                         TwoDigits(d.hours), TwoDigits(d.minutes), TwoDigits(d.seconds));
    TwoDigitsInjective(c.hours, d.hours);
    TwoDigitsInjective(c.minutes, d.minutes);
    TwoDigitsInjective(c.seconds, d.seconds);
  }

  /** The whole seconds a reading stands for. */
  function ClockSeconds(c: Clock): int
  {
    c.hours * 3600 + c.minutes * 60 + c.seconds
  }

  /** The reading of a non-negative time counts its whole seconds. */
  lemma ClockOfCountsSeconds(t: int)
    requires t >= 0
    ensures ClockSeconds(ClockOf(t)) == t / 1000
  {
    ClockOfDecomposes(t);
    var c := ClockOf(t);
    assert ClockMillis(c) == 1000 * ClockSeconds(c);
  }

  /** For non-negative times the label changes exactly when the whole second does. */
  lemma ReadingTimeTextIffSameSecond(t1: int, t2: int)
    requires t1 >= 0 && t2 >= 0
    ensures ReadingTimeText(t1) == ReadingTimeText(t2) <==> t1 / 1000 == t2 / 1000
  {
    if t1 / 1000 == t2 / 1000 {
      ClockOfSameSecond(t1, t2);
    }
    if ReadingTimeText(t1) == ReadingTimeText(t2) {
      ClockOfDecomposes(t1);
      ClockOfDecomposes(t2);
      ClockTextInjective(ClockOf(t1), ClockOf(t2));
      ClockOfCountsSeconds(t1);
      ClockOfCountsSeconds(t2);
    }
  }

  // ---------------------------------------------------------------------
  // Page label and click zones
  // ---------------------------------------------------------------------

  const TextLabelPrefix: string := "文字: "
  const ImageLabelPrefix: string := "頁面: "
  const EmptyPageLabel: string := "頁面: 0 / 0"

  /**
   * The text `updateControlsForMode` gives the page label: the text page of
   * the session's text pages (`null` is None), the image page of the
   * viewer, or "0 / 0".
   */
  function PageLabel(isTextMode: bool, textPageCount: Option<nat>, textIndex: nat,
                     imageCount: nat, imageIndex: nat): string
  {
    if isTextMode && textPageCount.Some? then
      TextLabelPrefix + IntToString(textIndex + 1) + " / " + IntToString(textPageCount.value)
    else if !isTextMode && imageCount > 0 then
      ImageLabelPrefix + IntToString(imageIndex + 1) + " / " + IntToString(imageCount)
    else EmptyPageLabel
  }

  /**
   * The label says which case wrote it: it reads "文字:" exactly for text
   * mode with text pages, and "0 / 0" exactly when neither mode has pages
   * to count.
   */
  lemma PageLabelNamesCase(isTextMode: bool, textPageCount: Option<nat>, textIndex: nat,
                           imageCount: nat, imageIndex: nat)
    ensures StartsWith(PageLabel(isTextMode, textPageCount, textIndex, imageCount, imageIndex), TextLabelPrefix)
            <==> isTextMode && textPageCount.Some?
    ensures PageLabel(isTextMode, textPageCount, textIndex, imageCount, imageIndex) == EmptyPageLabel
            <==> !(isTextMode && textPageCount.Some?) && !(!isTextMode && imageCount > 0)
  {
    var r := PageLabel(isTextMode, textPageCount, textIndex, imageCount, imageIndex);
    if isTextMode && textPageCount.Some? {
      assert r[..|TextLabelPrefix|] == TextLabelPrefix;
      assert r[0] == '文';
    } else {
      assert r[0] == '頁';
      if !isTextMode && imageCount > 0 {
        var n := IntToString(imageIndex + 1);
        var x := r[|ImageLabelPrefix|..];
        assert x == n + " / " + IntToString(imageCount);
        if r == EmptyPageLabel {
          assert x == "0" + " / " + "0";
          DigitsSeparatedInjective(n, IntToString(imageCount), "0", "0", " / ");
          assert false;
        }
      }
    }
  }

  /** A label with pages names the page number and the page count it was written for. */
  lemma PageLabelReadsBack(isTextMode: bool, n: nat, i: nat, m: nat, j: nat)
    requires n > 0 && m > 0
    requires PageLabel(isTextMode, Some(n), i, n, i) == PageLabel(isTextMode, Some(m), j, m, j)
    ensures i == j && n == m
  {
    if isTextMode {
      CounterLabelInjective(TextLabelPrefix, i + 1, n, j + 1, m);
    } else {
      CounterLabelInjective(ImageLabelPrefix, i + 1, n, j + 1, m);
    }
  }

  datatype ClickAction = NextPageClick | PreviousPageClick | ToggleControlsClick

  /** `handleImageClick` in image mode: the right 30% turns forward, the left 30% back, the middle toggles. */
  function ClickActionOf(x: real, imageWidth: real): (r: ClickAction)
    ensures r == NextPageClick <==> x > imageWidth * 0.7
    ensures r == PreviousPageClick <==> x <= imageWidth * 0.7 && x < imageWidth * 0.3
    ensures r == ToggleControlsClick <==> imageWidth * 0.3 <= x <= imageWidth * 0.7
  {
    if x > imageWidth * 0.7 then NextPageClick
    else if x < imageWidth * 0.3 then PreviousPageClick
    else ToggleControlsClick
  }

  function ClickRank(a: ClickAction): nat
  {
    match a
    case PreviousPageClick => 0
    case ToggleControlsClick => 1
    case NextPageClick => 2
  }

  /** Across an image, the zones run back, toggle, forward from left to right. */
  lemma ClickZonesOrdered(x1: real, x2: real, imageWidth: real)
    requires imageWidth >= 0.0 && x1 <= x2
    ensures ClickRank(ClickActionOf(x1, imageWidth)) <= ClickRank(ClickActionOf(x2, imageWidth))
  {
  }

  /** The three zones are not empty on an image with a width. */
  lemma ClickZonesExist(imageWidth: real)
    requires imageWidth > 0.0
    ensures ClickActionOf(imageWidth * 0.1, imageWidth) == PreviousPageClick
    ensures ClickActionOf(imageWidth * 0.5, imageWidth) == ToggleControlsClick
    ensures ClickActionOf(imageWidth * 0.9, imageWidth) == NextPageClick
  {
  }

  // ---------------------------------------------------------------------
  // The controller
  // ---------------------------------------------------------------------

  class MainController<Image, Page> {
    const stateManager: SM.StateManager<Image, Page>
    const textRenderer: TR.TextRenderer
    const imageViewer: IV.ImageViewer<Image>

    /** `primaryStage.isFullScreen()`. */
    var stageFullScreen: bool
    /** `controlsContainer`'s visible and managed flags. */
    var controlsVisible: bool
    var controlsManaged: bool
    var readingTimeLabelVisible: bool
    var readingProgressBarVisible: bool
    var pageLabel: string
    var readingTimeText: string

    /** The parts are in the states their own models keep. */
    ghost predicate Valid()
      reads this, textRenderer, imageViewer
    {
      textRenderer.Valid() && imageViewer.Valid() && imageViewer.Shows()
    }

    /**
     * The window agrees with the session about full screen, the controls
     * take space exactly when shown, and full screen hides them.
     */
    predicate ControlsConsistent()
      reads this, stateManager
    {
      stageFullScreen == stateManager.isFullScreen &&
      controlsManaged == controlsVisible &&
      (stateManager.isFullScreen ==> !controlsVisible)
    }

    /** What `updateControlsForMode` writes into the page label for the present state. */
    function Label(): string
      reads this, stateManager, textRenderer, imageViewer
      requires Valid()
    {
      PageLabel(stateManager.isTextMode,
                if stateManager.currentTextPages.Some? then Some(|stateManager.currentTextPages.value|) else None,
                textRenderer.currentPageIndex, imageViewer.GetTotalPages(), imageViewer.currentIndex)
    }

    /** A new window: a fresh session, renderer and viewer, controls and labels shown. */
    constructor (now: int)
      ensures Valid() && ControlsConsistent()
      ensures fresh(stateManager) && fresh(textRenderer) && fresh(imageViewer)
      ensures stateManager.readingStartTime == now && !stateManager.isTextMode && !stateManager.isFullScreen
      ensures controlsVisible && readingTimeLabelVisible && readingProgressBarVisible
      ensures pageLabel == Label() == EmptyPageLabel
      ensures readingTimeText == "閱讀時間: 00:00:00"
    {
      imageViewer := new IV.ImageViewer();
      textRenderer := new TR.TextRenderer();
      stateManager := new SM.StateManager(now);
      stageFullScreen := false;
      controlsVisible := true;
      controlsManaged := true;
      readingTimeLabelVisible := true;
      readingProgressBarVisible := true;
      pageLabel := EmptyPageLabel;
      readingTimeText := "閱讀時間: 00:00:00";
    }

    /** `updateUI`, of which the page label is modelled. */
    method UpdateUI()
      requires Valid()
      modifies this
      ensures Valid() && pageLabel == Label()
      ensures stageFullScreen == old(stageFullScreen) && controlsVisible == old(controlsVisible)
      ensures controlsManaged == old(controlsManaged) && readingTimeText == old(readingTimeText)
      ensures readingTimeLabelVisible == old(readingTimeLabelVisible)
      ensures readingProgressBarVisible == old(readingProgressBarVisible)
    {
      pageLabel := Label();
    }

    /** `goToFirstPage`: the first text page, or the viewer's first image. */
    method GoToFirstPage()
      requires Valid()
      modifies this, textRenderer, imageViewer
      ensures Valid() && pageLabel == Label()
      ensures stateManager.isTextMode ==>
                textRenderer.currentPageIndex ==
                  (if textRenderer.GetTotalPages() > 0 then 0 else old(textRenderer.currentPageIndex)) &&
                unchanged(imageViewer)
      ensures !stateManager.isTextMode ==>
                imageViewer.currentIndex ==
                  (if IV.Loaded(imageViewer.images) then 0 else old(imageViewer.currentIndex)) &&
                unchanged(textRenderer)
      ensures stateManager.isTextMode ==>
                textRenderer.screen == (if textRenderer.GetTotalPages() > 0 then textRenderer.Rendered() else old(textRenderer.screen))
      ensures textRenderer.originalPages == old(textRenderer.originalPages)
      ensures textRenderer.formattedPages == old(textRenderer.formattedPages)
      ensures textRenderer.currentSearchTerm == old(textRenderer.currentSearchTerm)
      ensures textRenderer.Layout() == old(textRenderer.Layout())
      ensures imageViewer.images == old(imageViewer.images) && imageViewer.zoomLevel == old(imageViewer.zoomLevel)
      ensures imageViewer.fitMode == old(imageViewer.fitMode) && imageViewer.rotation == old(imageViewer.rotation)
      ensures stageFullScreen == old(stageFullScreen) && controlsVisible == old(controlsVisible)
      ensures controlsManaged == old(controlsManaged) && readingTimeText == old(readingTimeText)
      ensures readingTimeLabelVisible == old(readingTimeLabelVisible)
      ensures readingProgressBarVisible == old(readingProgressBarVisible)
    {
      if stateManager.isTextMode {
        textRenderer.GoToPage(0);
      } else {
        imageViewer.GoToFirstPage();
      }
      UpdateUI();
    }

    /** `goToPreviousPage`: text mode moves back only from beyond the first page. */
    method GoToPreviousPage()
      requires Valid()
      modifies this, textRenderer, imageViewer
      ensures Valid() && pageLabel == Label()
      ensures stateManager.isTextMode ==>
                textRenderer.currentPageIndex ==
                  (if old(textRenderer.currentPageIndex) > 0 then old(textRenderer.currentPageIndex) - 1
                   else old(textRenderer.currentPageIndex)) &&
                unchanged(imageViewer)
      ensures !stateManager.isTextMode ==>
                imageViewer.currentIndex ==
                  (if old(imageViewer.CanGoPrevious()) then old(imageViewer.currentIndex) - 1
                   else old(imageViewer.currentIndex)) &&
                unchanged(textRenderer)
      ensures stateManager.isTextMode ==>
                textRenderer.screen == (if old(textRenderer.currentPageIndex) > 0 then textRenderer.Rendered() else old(textRenderer.screen))
      ensures textRenderer.originalPages == old(textRenderer.originalPages)
      ensures textRenderer.formattedPages == old(textRenderer.formattedPages)
      ensures textRenderer.currentSearchTerm == old(textRenderer.currentSearchTerm)
      ensures textRenderer.Layout() == old(textRenderer.Layout())
      ensures imageViewer.images == old(imageViewer.images) && imageViewer.zoomLevel == old(imageViewer.zoomLevel)
      ensures imageViewer.fitMode == old(imageViewer.fitMode) && imageViewer.rotation == old(imageViewer.rotation)
      ensures stageFullScreen == old(stageFullScreen) && controlsVisible == old(controlsVisible)
      ensures controlsManaged == old(controlsManaged) && readingTimeText == old(readingTimeText)
      ensures readingTimeLabelVisible == old(readingTimeLabelVisible)
      ensures readingProgressBarVisible == old(readingProgressBarVisible)
    {
      if stateManager.isTextMode {
        var currentIndex := textRenderer.currentPageIndex;
        if currentIndex > 0 {
          textRenderer.GoToPage(currentIndex - 1);
        }
      } else {
        imageViewer.PrevPage();
      }
      UpdateUI();
    }

    /** `goToNextPage`: text mode moves on only from before the last page. */
    method GoToNextPage()
      requires Valid()
      modifies this, textRenderer, imageViewer
      ensures Valid() && pageLabel == Label()
      ensures stateManager.isTextMode ==>
                textRenderer.currentPageIndex ==
                  (if old(textRenderer.currentPageIndex) < old(textRenderer.GetTotalPages()) - 1
                   then old(textRenderer.currentPageIndex) + 1
                   else old(textRenderer.currentPageIndex)) &&
                unchanged(imageViewer)
      ensures !stateManager.isTextMode ==>
                imageViewer.currentIndex ==
                  (if old(imageViewer.CanGoNext()) then old(imageViewer.currentIndex) + 1
                   else old(imageViewer.currentIndex)) &&
                unchanged(textRenderer)
      ensures stateManager.isTextMode ==>
                textRenderer.screen == (if old(textRenderer.currentPageIndex) < old(textRenderer.GetTotalPages()) - 1 then textRenderer.Rendered() else old(textRenderer.screen))
      ensures textRenderer.originalPages == old(textRenderer.originalPages)
      ensures textRenderer.formattedPages == old(textRenderer.formattedPages)
      ensures textRenderer.currentSearchTerm == old(textRenderer.currentSearchTerm)
      ensures textRenderer.Layout() == old(textRenderer.Layout())
      ensures imageViewer.images == old(imageViewer.images) && imageViewer.zoomLevel == old(imageViewer.zoomLevel)
      ensures imageViewer.fitMode == old(imageViewer.fitMode) && imageViewer.rotation == old(imageViewer.rotation)
      ensures stageFullScreen == old(stageFullScreen) && controlsVisible == old(controlsVisible)
      ensures controlsManaged == old(controlsManaged) && readingTimeText == old(readingTimeText)
      ensures readingTimeLabelVisible == old(readingTimeLabelVisible)
      ensures readingProgressBarVisible == old(readingProgressBarVisible)
    {
      if stateManager.isTextMode {
        var currentIndex := textRenderer.currentPageIndex;
        if currentIndex < textRenderer.GetTotalPages() - 1 {
          textRenderer.GoToPage(currentIndex + 1);
        }
      } else {
        imageViewer.NextPage();
      }
      UpdateUI();
    }

    /** `goToLastPage`: the last text page, or the viewer's last image. */
    method GoToLastPage()
      requires Valid()
      modifies this, textRenderer, imageViewer
      ensures Valid() && pageLabel == Label()
      ensures stateManager.isTextMode ==>
                textRenderer.currentPageIndex ==
                  (if textRenderer.GetTotalPages() > 0 then textRenderer.GetTotalPages() - 1
                   else old(textRenderer.currentPageIndex)) &&
                unchanged(imageViewer)
      ensures !stateManager.isTextMode ==>
                imageViewer.currentIndex ==
                  (if IV.Loaded(imageViewer.images) then imageViewer.GetTotalPages() - 1
                   else old(imageViewer.currentIndex)) &&
                unchanged(textRenderer)
      ensures stateManager.isTextMode ==>
                textRenderer.screen == (if textRenderer.GetTotalPages() > 0 then textRenderer.Rendered() else old(textRenderer.screen))
      ensures textRenderer.originalPages == old(textRenderer.originalPages)
      ensures textRenderer.formattedPages == old(textRenderer.formattedPages)
      ensures textRenderer.currentSearchTerm == old(textRenderer.currentSearchTerm)
      ensures textRenderer.Layout() == old(textRenderer.Layout())
      ensures imageViewer.images == old(imageViewer.images) && imageViewer.zoomLevel == old(imageViewer.zoomLevel)
      ensures imageViewer.fitMode == old(imageViewer.fitMode) && imageViewer.rotation == old(imageViewer.rotation)
      ensures stageFullScreen == old(stageFullScreen) && controlsVisible == old(controlsVisible)
      ensures controlsManaged == old(controlsManaged) && readingTimeText == old(readingTimeText)
      ensures readingTimeLabelVisible == old(readingTimeLabelVisible)
      ensures readingProgressBarVisible == old(readingProgressBarVisible)
    {
      if stateManager.isTextMode {
        textRenderer.GoToPage(textRenderer.GetTotalPages() - 1);
      } else {
        imageViewer.GoToLastPage();
      }
      UpdateUI();
    }

    /** `goToPage`: nothing at all without an open file; otherwise the mode's own `goToPage`. */
    method GoToPage(pageIndex: int)
      requires Valid()
      modifies this, textRenderer, imageViewer
      ensures Valid()
      ensures stateManager.GetCurrentFilePath() == [] ==>
                unchanged(this) && unchanged(textRenderer) && unchanged(imageViewer)
      ensures stateManager.GetCurrentFilePath() != [] ==>
                pageLabel == Label() &&
                (stateManager.isTextMode ==>
                   textRenderer.currentPageIndex ==
                     (if 0 <= pageIndex < textRenderer.GetTotalPages() then pageIndex
                      else old(textRenderer.currentPageIndex)) &&
                   unchanged(imageViewer)) &&
                (!stateManager.isTextMode ==>
                   imageViewer.currentIndex ==
                     (if IV.Loaded(imageViewer.images) && 0 <= pageIndex < imageViewer.GetTotalPages() then pageIndex
                      else old(imageViewer.currentIndex)) &&
                   unchanged(textRenderer))
      ensures stateManager.isTextMode ==>
                textRenderer.screen == (if stateManager.GetCurrentFilePath() != [] && 0 <= pageIndex < textRenderer.GetTotalPages() then textRenderer.Rendered() else old(textRenderer.screen))
      ensures textRenderer.originalPages == old(textRenderer.originalPages)
      ensures textRenderer.formattedPages == old(textRenderer.formattedPages)
      ensures textRenderer.currentSearchTerm == old(textRenderer.currentSearchTerm)
      ensures textRenderer.Layout() == old(textRenderer.Layout())
      ensures imageViewer.images == old(imageViewer.images) && imageViewer.zoomLevel == old(imageViewer.zoomLevel)
      ensures imageViewer.fitMode == old(imageViewer.fitMode) && imageViewer.rotation == old(imageViewer.rotation)
      ensures stageFullScreen == old(stageFullScreen) && controlsVisible == old(controlsVisible)
      ensures controlsManaged == old(controlsManaged) && readingTimeText == old(readingTimeText)
      ensures readingTimeLabelVisible == old(readingTimeLabelVisible)
      ensures readingProgressBarVisible == old(readingProgressBarVisible)
    {
      if stateManager.GetCurrentFilePath() == [] {
        return;
      }
      if stateManager.isTextMode {
        textRenderer.GoToPage(pageIndex);
      } else {
        imageViewer.GoToPage(pageIndex);
      }
      UpdateUI();
    }

    /**
     * `toggleFullscreen`: the flag flips in the session and on the stage;
     * entering full screen hides the controls, leaving it shows them as the
     * session remembers.
     */
    method ToggleFullscreen()
      modifies this, stateManager
      ensures stateManager.isFullScreen == !old(stateManager.isFullScreen)
      ensures stageFullScreen == stateManager.isFullScreen
      ensures controlsVisible == (!stateManager.isFullScreen && stateManager.isControlsVisible)
      ensures controlsManaged == controlsVisible
      ensures ControlsConsistent()
      ensures stateManager.isControlsVisible == old(stateManager.isControlsVisible)
      ensures stateManager.isTextMode == old(stateManager.isTextMode)
      ensures stateManager.currentFilePath == old(stateManager.currentFilePath)
      ensures stateManager.currentTextPages == old(stateManager.currentTextPages)
      ensures stateManager.Content() == old(stateManager.Content()) && stateManager.Indices() == old(stateManager.Indices())
      ensures stateManager.Clock() == old(stateManager.Clock()) && stateManager.isAutoScrolling == old(stateManager.isAutoScrolling)
      ensures pageLabel == old(pageLabel) && readingTimeText == old(readingTimeText)
      ensures readingTimeLabelVisible == old(readingTimeLabelVisible)
      ensures readingProgressBarVisible == old(readingProgressBarVisible)
    {
      var isFullScreen := !stateManager.isFullScreen;
      stateManager.SetFullScreen(isFullScreen);
      stageFullScreen := isFullScreen;
      if isFullScreen {
        controlsVisible := false;
        controlsManaged := false;
      } else {
        controlsVisible := stateManager.isControlsVisible;
        controlsManaged := stateManager.isControlsVisible;
      }
    }

    /** `toggleControlsVisibility`: flips the controls outside full screen; in full screen nothing happens. */
    method ToggleControlsVisibility()
      requires ControlsConsistent()
      modifies this, stateManager
      ensures ControlsConsistent()
      ensures old(stateManager.isFullScreen) ==> unchanged(this) && unchanged(stateManager)
      ensures !old(stateManager.isFullScreen) ==>
                stateManager.isControlsVisible == !old(stateManager.isControlsVisible) &&
                controlsVisible == stateManager.isControlsVisible && controlsManaged == controlsVisible
      ensures stateManager.isFullScreen == old(stateManager.isFullScreen)
      ensures stateManager.isTextMode == old(stateManager.isTextMode)
      ensures stateManager.currentFilePath == old(stateManager.currentFilePath)
      ensures stateManager.currentTextPages == old(stateManager.currentTextPages)
      ensures stateManager.Content() == old(stateManager.Content()) && stateManager.Indices() == old(stateManager.Indices())
      ensures stateManager.Clock() == old(stateManager.Clock()) && stateManager.isAutoScrolling == old(stateManager.isAutoScrolling)
      ensures stageFullScreen == old(stageFullScreen)
      ensures pageLabel == old(pageLabel) && readingTimeText == old(readingTimeText)
      ensures readingTimeLabelVisible == old(readingTimeLabelVisible)
      ensures readingProgressBarVisible == old(readingProgressBarVisible)
    {
      if !stateManager.isFullScreen {
        var isVisible := !stateManager.isControlsVisible;
        stateManager.SetControlsVisible(isVisible);
        controlsVisible := isVisible;
        controlsManaged := isVisible;
      }
    }

    /**
     * `toggleFocusMode` as written: the focus flag is the negation of the
     * controls' visibility, and the controls are then set to its negation,
     * so they keep the visibility they had; the reading time and progress
     * bar follow the controls.
     */
    method ToggleFocusModeAsWritten()
      modifies this
      ensures controlsVisible == old(controlsVisible) && controlsManaged == old(controlsVisible)
      ensures readingTimeLabelVisible == old(controlsVisible) && readingProgressBarVisible == old(controlsVisible)
      ensures stageFullScreen == old(stageFullScreen) && pageLabel == old(pageLabel)
      ensures readingTimeText == old(readingTimeText)
    {
      var focusMode := !controlsVisible;
      controlsVisible := !focusMode;
      controlsManaged := !focusMode;
      readingTimeLabelVisible := !focusMode;
      readingProgressBarVisible := !focusMode;
    }

    /**
     * `toggleFocusMode` as its name and its exit hint mean it: with the
     * controls on screen it enters focus mode and hides the controls, the
     * reading time and the progress bar; otherwise it shows all three. The
     * session's controls flag is not touched.
     */
    method ToggleFocusMode()
      modifies this
      ensures controlsVisible == !old(controlsVisible) && controlsManaged == controlsVisible
      ensures readingTimeLabelVisible == controlsVisible && readingProgressBarVisible == controlsVisible
      ensures !stateManager.isFullScreen && old(ControlsConsistent()) ==> ControlsConsistent()
      ensures stageFullScreen == old(stageFullScreen) && pageLabel == old(pageLabel)
      ensures readingTimeText == old(readingTimeText)
    {
      var focusMode := controlsVisible;
      controlsVisible := !focusMode;
      controlsManaged := !focusMode;
      readingTimeLabelVisible := !focusMode;
      readingProgressBarVisible := !focusMode;
    }

    /** `handleImageClick`: ignored in text mode; in image mode the zone picks the action. */
    method HandleImageClick(x: real, imageWidth: real)
      requires Valid() && ControlsConsistent()
      modifies this, stateManager, textRenderer, imageViewer
      ensures Valid() && ControlsConsistent()
      ensures old(stateManager.isTextMode) ==>
                unchanged(this) && unchanged(stateManager) && unchanged(textRenderer) && unchanged(imageViewer)
      ensures !old(stateManager.isTextMode) ==>
                unchanged(textRenderer) && !stateManager.isTextMode &&
                match ClickActionOf(x, imageWidth)
                case NextPageClick =>
                  imageViewer.currentIndex ==
                    (if old(imageViewer.CanGoNext()) then old(imageViewer.currentIndex) + 1
                     else old(imageViewer.currentIndex)) &&
                  pageLabel == Label() && unchanged(stateManager) &&
                  controlsVisible == old(controlsVisible) && controlsManaged == old(controlsManaged)
                case PreviousPageClick =>
                  imageViewer.currentIndex ==
                    (if old(imageViewer.CanGoPrevious()) then old(imageViewer.currentIndex) - 1
                     else old(imageViewer.currentIndex)) &&
                  pageLabel == Label() && unchanged(stateManager) &&
                  controlsVisible == old(controlsVisible) && controlsManaged == old(controlsManaged)
                case ToggleControlsClick =>
                  unchanged(imageViewer) &&
                  stateManager.isControlsVisible ==
                    (if old(stateManager.isFullScreen) then old(stateManager.isControlsVisible)
                     else !old(stateManager.isControlsVisible)) &&
                  controlsVisible ==
                    (if old(stateManager.isFullScreen) then old(controlsVisible)
                     else stateManager.isControlsVisible) &&
                  controlsManaged == controlsVisible && pageLabel == old(pageLabel)
      ensures stateManager.isFullScreen == old(stateManager.isFullScreen)
      ensures stateManager.isTextMode == old(stateManager.isTextMode)
      ensures stateManager.currentFilePath == old(stateManager.currentFilePath)
      ensures stateManager.Content() == old(stateManager.Content()) && stateManager.Indices() == old(stateManager.Indices())
      ensures stateManager.Clock() == old(stateManager.Clock()) && stateManager.isAutoScrolling == old(stateManager.isAutoScrolling)
      ensures imageViewer.images == old(imageViewer.images) && imageViewer.zoomLevel == old(imageViewer.zoomLevel)
      ensures imageViewer.fitMode == old(imageViewer.fitMode) && imageViewer.rotation == old(imageViewer.rotation)
      ensures stageFullScreen == old(stageFullScreen) && readingTimeText == old(readingTimeText)
      ensures readingTimeLabelVisible == old(readingTimeLabelVisible)
      ensures readingProgressBarVisible == old(readingProgressBarVisible)
    {
      if stateManager.isTextMode {
        return;
      }
      var action := ClickActionOf(x, imageWidth);
      match action
      case NextPageClick =>
        GoToNextPage();
      case PreviousPageClick =>
        GoToPreviousPage();
      case ToggleControlsClick =>
        ToggleControlsVisibility();
    }

    /** `updateReadingTime`: the label shows the session's total reading time at `now`. */
    method UpdateReadingTime(now: int)
      modifies this
      ensures readingTimeText == ReadingTimeText(stateManager.CalculateTotalReadingTime(now))
      ensures pageLabel == old(pageLabel) && stageFullScreen == old(stageFullScreen)
      ensures controlsVisible == old(controlsVisible) && controlsManaged == old(controlsManaged)
      ensures readingTimeLabelVisible == old(readingTimeLabelVisible)
      ensures readingProgressBarVisible == old(readingProgressBarVisible)
    {
      var totalTime := stateManager.CalculateTotalReadingTime(now);
      readingTimeText := ReadingTimeText(totalTime);
    }
  }
}
