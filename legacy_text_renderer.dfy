// The older text pane (E_Reader/TextRenderer.java). It draws pages the way
// the viewer's pane does (the same page bodies, chapter test and search
// highlights, taken from module TextRenderer) but differs in three places: a
// page without paragraphs keeps no reference to its extracted page, so its
// header reads "頁面 n"; TWO_PAGE in portrait scrolls all pages instead of
// showing one; and it has no clearPages or setContent.

module LegacyTextRenderer {
  import opened Wrappers
  import opened JavaText
  import Viewer = TextRenderer

  // ---------------------------------------------------------------------
  // Formatting
  // ---------------------------------------------------------------------

  /**
   * `formatPages` for one page: no paragraphs give an empty page with no
   * extracted page behind it; otherwise the non-blank paragraphs, trimmed.
   */
  function FormatPage(source: Viewer.SourcePage): (r: Viewer.TextPage)
  {
    if source.formatted == [] then Viewer.TextPage(source.pageNumber, false, [], true)
    else Viewer.TextPage(source.pageNumber, true, Viewer.KeptParagraphs(source.formatted), false)
  }

  /**
   * The older pane keeps the same paragraphs, page numbers and emptiness as
   * the viewer's; only the link to the extracted page is lost, and exactly
   * for the pages without paragraphs.
   */
  lemma FormatPageAgreesWithViewer(source: Viewer.SourcePage)
    ensures FormatPage(source).pageNumber == Viewer.FormatPage(source).pageNumber
    ensures FormatPage(source).paragraphs == Viewer.FormatPage(source).paragraphs
    ensures FormatPage(source).isEmpty == Viewer.FormatPage(source).isEmpty
    ensures FormatPage(source).hasOriginal <==> source.formatted != []
  {
    assert Viewer.KeptParagraphs([]) == [];
  }

  /** A page is empty exactly when it has no paragraphs to show and no extracted page. */
  lemma EmptyPageIff(source: Viewer.SourcePage)
    ensures FormatPage(source).isEmpty <==> !FormatPage(source).hasOriginal
    ensures FormatPage(source).isEmpty ==> FormatPage(source).paragraphs == []
    ensures forall x :: x in FormatPage(source).paragraphs ==> x != [] && IsTrimmed(x)
  {
    forall x | x in FormatPage(source).paragraphs
      ensures x != [] && IsTrimmed(x)
    {
      Viewer.KeptParagraphsTrimmed(source.formatted, x);
    }
  }

  function FormatAll(sources: seq<Viewer.SourcePage>): (r: seq<Viewer.TextPage>)
    ensures |r| == |sources|
    ensures forall i :: 0 <= i < |sources| ==> r[i] == FormatPage(sources[i])
  {
    seq(|sources|, i requires 0 <= i < |sources| => FormatPage(sources[i]))
  }

  /** The loop of `formatPages`: an empty page for no paragraphs, else the trimmed ones. */
  method FormatEach(sources: seq<Viewer.SourcePage>) returns (pages: seq<Viewer.TextPage>)
    ensures pages == FormatAll(sources)
  {
    pages := [];
    for i := 0 to |sources|
      invariant |pages| == i
      invariant forall j :: 0 <= j < i ==> pages[j] == FormatPage(sources[j])
    {
      var paragraphs := sources[i].formatted;
      if paragraphs == [] {
        pages := pages + [Viewer.TextPage(sources[i].pageNumber, false, [], true)];
        continue;
      }
      var kept := Viewer.TrimParagraphs(paragraphs);
      pages := pages + [Viewer.TextPage(sources[i].pageNumber, true, kept, false)];
    }
  }

  // ---------------------------------------------------------------------
  // What the pane shows
  // ---------------------------------------------------------------------

  /** `createPageHeader`: "第 n 頁" for a page with its extracted page, else "頁面 n". */
  function PageHeader(page: Viewer.TextPage): (r: string)
    ensures page.hasOriginal ==> r == Viewer.PageHeader(page)
  {
    if page.hasOriginal then "第 " + IntToString(page.pageNumber + 1) + " 頁"
    else "頁面 " + IntToString(page.pageNumber + 1)
  }

  /** The older header agrees with the viewer's exactly for pages with an extracted page. */
  lemma PageHeaderIff(page: Viewer.TextPage)
    ensures PageHeader(page) == Viewer.PageHeader(page) <==> page.hasOriginal
  {
    if !page.hasOriginal {
      assert PageHeader(page)[0] == '頁';
      assert Viewer.PageHeader(page)[0] == '第';
    }
  }

  /** The empty page of a page without paragraphs is headed "頁面 n". */
  lemma EmptyPageHeader(source: Viewer.SourcePage)
    requires source.formatted == []
    ensures PageHeader(FormatPage(source)) == "頁面 " + IntToString(source.pageNumber + 1)
    ensures PageHeader(FormatPage(source)) != Viewer.PageHeader(Viewer.FormatPage(source))
  {
    PageHeaderIff(FormatPage(source));
  }

  function ViewOf(page: Viewer.TextPage, searchTerm: string): Viewer.PageView
  {
    Viewer.PageView(PageHeader(page), Viewer.BodyOf(page, searchTerm))
  }

  function AllViews(pages: seq<Viewer.TextPage>, searchTerm: string): (r: seq<Viewer.PageView>)
    ensures |r| == |pages| && forall i :: 0 <= i < |pages| ==> r[i] == ViewOf(pages[i], searchTerm)
  {
    seq(|pages|, i requires 0 <= i < |pages| => ViewOf(pages[i], searchTerm))
  }

  /**
   * `renderCurrentPage`'s choice: one page for PAGE_BY_PAGE, two for
   * TWO_PAGE in landscape, and every other case scrolls all pages.
   */
  function LayoutFor(mode: Viewer.DisplayMode, orientation: Viewer.DeviceOrientation): (r: Viewer.Layout)
    ensures r == Viewer.SingleLayout <==> mode == Viewer.PageByPage
    ensures r == Viewer.TwoLayout <==> mode == Viewer.TwoPage && orientation == Viewer.Landscape
    ensures r == Viewer.ContinuousLayout <==>
              mode == Viewer.Continuous || (mode == Viewer.TwoPage && orientation == Viewer.Portrait)
  {
    match mode
    case PageByPage => Viewer.SingleLayout
    case TwoPage => (match orientation case Landscape => Viewer.TwoLayout case Portrait => Viewer.ContinuousLayout)
    case Continuous => Viewer.ContinuousLayout
  }

  /** The two panes choose the same layout except for TWO_PAGE in portrait. */
  lemma LayoutDiffersOnlyInPortraitTwoPage(mode: Viewer.DisplayMode, orientation: Viewer.DeviceOrientation)
    ensures LayoutFor(mode, orientation) != Viewer.LayoutFor(mode, orientation) <==>
              mode == Viewer.TwoPage && orientation == Viewer.Portrait
  {
  }

  // ---------------------------------------------------------------------
  // The pane
  // ---------------------------------------------------------------------

  class TextRenderer {
    var originalPages: Option<seq<Viewer.SourcePage>>
    var formattedPages: Option<seq<Viewer.TextPage>>
    var currentPageIndex: int
    var currentSearchTerm: string
    var displayMode: Viewer.DisplayMode
    var orientation: Viewer.DeviceOrientation
    var deviceType: Viewer.DeviceType
    var baseFontSize: real
    var lineSpacing: real
    /** What `pageContainer` holds. */
    var screen: Viewer.Screen

    /**
     * Formatted pages are never an empty list, the index names one of them,
     * and while the extracted pages are a non-empty list the formatted pages
     * are theirs.
     */
    ghost predicate Valid()
      reads this
    {
      0 <= currentPageIndex &&
      (formattedPages.Some? ==> 0 < |formattedPages.value| && currentPageIndex < |formattedPages.value|) &&
      (formattedPages.None? ==> currentPageIndex == 0) &&
      (Viewer.HasPages(originalPages) ==> formattedPages == Some(FormatAll(originalPages.value)))
    }

    /** What `renderCurrentPage` puts on the pane for the present state. */
    function Rendered(): (r: Viewer.Screen)
      reads this
      requires Valid()
      ensures r == Viewer.NoContent <==> formattedPages.None?
      ensures r.Shown? ==> r.layout == LayoutFor(displayMode, orientation)
    {
      if formattedPages.None? then Viewer.NoContent
      else
        var layout := LayoutFor(displayMode, orientation);
        Viewer.Shown(layout, Viewer.ViewsFor(layout, AllViews(formattedPages.value, currentSearchTerm), currentPageIndex))
    }

    /** `getTotalPages`. */
    function GetTotalPages(): (r: nat)
      reads this
      ensures formattedPages.None? ==> r == 0
      ensures formattedPages.Some? ==> r == |formattedPages.value|
    {
      if formattedPages.Some? then |formattedPages.value| else 0
    }

    /** `hasContent`: some formatted pages. */
    predicate HasContent()
      reads this
      requires Valid()
      ensures HasContent() <==> GetTotalPages() > 0
    {
      Viewer.HasPages(formattedPages)
    }

    /** The layout settings: display mode, orientation, device, font size and line spacing. */
    function Layout(): (Viewer.DisplayMode, Viewer.DeviceOrientation, Viewer.DeviceType, real, real)
      reads this
    {
      (displayMode, orientation, deviceType, baseFontSize, lineSpacing)
    }

    /** A new pane: nothing loaded, one page at a time, portrait desktop, 18 pt at 1.8 spacing. */
    constructor ()
      ensures Valid() && !HasContent()
      ensures originalPages == None && formattedPages == None && currentPageIndex == 0
      ensures currentSearchTerm == [] && displayMode == Viewer.PageByPage && orientation == Viewer.Portrait
      ensures deviceType == Viewer.Desktop && baseFontSize == 18.0 && lineSpacing == 1.8
      ensures screen == Viewer.Cleared
    {
      originalPages := None;
      formattedPages := None;
      currentPageIndex := 0;
      currentSearchTerm := [];
      displayMode := Viewer.PageByPage;
      orientation := Viewer.Portrait;
      deviceType := Viewer.Desktop;
      baseFontSize := 18.0;
      lineSpacing := 1.8;
      screen := Viewer.Cleared;
    }

    /** `renderCurrentPage`: the pane redrawn from the state; nothing else changes. */
    method RenderCurrentPage()
      requires Valid()
      modifies this
      ensures Valid() && screen == Rendered()
      ensures originalPages == old(originalPages) && formattedPages == old(formattedPages)
      ensures currentPageIndex == old(currentPageIndex) && currentSearchTerm == old(currentSearchTerm)
      ensures displayMode == old(displayMode) && orientation == old(orientation) && deviceType == old(deviceType)
      ensures baseFontSize == old(baseFontSize) && lineSpacing == old(lineSpacing)
    {
      screen := Rendered();
    }

    /** `formatPages`: one display page per extracted page, in order; nothing for no pages. */
    method FormatPages()
      modifies this
      ensures originalPages == old(originalPages)
      ensures Viewer.HasPages(originalPages) ==> formattedPages == Some(FormatAll(originalPages.value))
      ensures !Viewer.HasPages(originalPages) ==> formattedPages == old(formattedPages)
      ensures currentPageIndex == old(currentPageIndex)
      ensures currentSearchTerm == old(currentSearchTerm) && displayMode == old(displayMode)
      ensures orientation == old(orientation) && deviceType == old(deviceType)
      ensures baseFontSize == old(baseFontSize) && lineSpacing == old(lineSpacing) && screen == old(screen)
    {
      if !Viewer.HasPages(originalPages) {
        return;
      }
      var pages := FormatEach(originalPages.value);
      formattedPages := Some(pages);
    }

    /**
     * `setPages`: a non-empty list is formatted and shown from its first
     * page; otherwise the pane says nothing is loaded and the previous
     * display pages and index stay.
     */
    method SetPages(pages: Option<seq<Viewer.SourcePage>>)
      requires Valid()
      modifies this
      ensures Valid() && originalPages == pages
      ensures Viewer.HasPages(pages) ==> formattedPages == Some(FormatAll(pages.value)) && currentPageIndex == 0
      ensures Viewer.HasPages(pages) ==> screen == Rendered()
      ensures !Viewer.HasPages(pages) ==>
                (formattedPages == old(formattedPages) && currentPageIndex == old(currentPageIndex) &&
                 screen == Viewer.NoContent)
      ensures currentSearchTerm == old(currentSearchTerm) && Layout() == old(Layout())
    {
      originalPages := pages;
      if Viewer.HasPages(pages) {
        FormatPages();
        currentPageIndex := 0;
        RenderCurrentPage();
      } else {
        screen := Viewer.NoContent;
      }
    }

    /** `goToPage`: moves only to an index inside the display pages. */
    method GoToPage(pageIndex: int)
      requires Valid()
      modifies this
      ensures Valid()
      ensures 0 <= pageIndex < GetTotalPages() ==> currentPageIndex == pageIndex && screen == Rendered()
      ensures !(0 <= pageIndex < GetTotalPages()) ==> currentPageIndex == old(currentPageIndex) && screen == old(screen)
      ensures originalPages == old(originalPages) && formattedPages == old(formattedPages)
      ensures currentSearchTerm == old(currentSearchTerm) && Layout() == old(Layout())
    {
      if formattedPages.None? || pageIndex < 0 || pageIndex >= |formattedPages.value| {
        return;
      }
      currentPageIndex := pageIndex;
      RenderCurrentPage();
    }

    /** The step of `nextPage` and `previousPage`: a spread in TWO_PAGE landscape, else a page. */
    function Step(): (r: nat)
      reads this
      ensures r == 2 <==> displayMode == Viewer.TwoPage && orientation == Viewer.Landscape
      ensures r == 1 || r == 2
    {
      if displayMode == Viewer.TwoPage && orientation == Viewer.Landscape then 2 else 1
    }

    /** `nextPage`: forward by one step when that stays inside the pages. A null list throws. */
    method NextPage()
      requires Valid() && formattedPages.Some?
      modifies this
      ensures Valid()
      ensures old(currentPageIndex) + Step() < GetTotalPages() ==>
                currentPageIndex == old(currentPageIndex) + Step() && screen == Rendered()
      ensures old(currentPageIndex) + Step() >= GetTotalPages() ==>
                currentPageIndex == old(currentPageIndex) && screen == old(screen)
      ensures formattedPages == old(formattedPages) && originalPages == old(originalPages)
      ensures currentSearchTerm == old(currentSearchTerm) && Layout() == old(Layout())
    {
      if displayMode == Viewer.TwoPage && orientation == Viewer.Landscape {
        if currentPageIndex + 2 < |formattedPages.value| {
          currentPageIndex := currentPageIndex + 2;
          RenderCurrentPage();
        }
      } else {
        if currentPageIndex + 1 < |formattedPages.value| {
          currentPageIndex := currentPageIndex + 1;
          RenderCurrentPage();
        }
      }
    }

    /** `previousPage`: back by one step when that stays at or above the first page. */
    method PreviousPage()
      requires Valid()
      modifies this
      ensures Valid()
      ensures old(currentPageIndex) - Step() >= 0 ==>
                currentPageIndex == old(currentPageIndex) - Step() && screen == Rendered()
      ensures old(currentPageIndex) - Step() < 0 ==>
                currentPageIndex == old(currentPageIndex) && screen == old(screen)
      ensures formattedPages == old(formattedPages) && originalPages == old(originalPages)
      ensures currentSearchTerm == old(currentSearchTerm) && Layout() == old(Layout())
    {
      if displayMode == Viewer.TwoPage && orientation == Viewer.Landscape {
        if currentPageIndex - 2 >= 0 {
          currentPageIndex := currentPageIndex - 2;
          RenderCurrentPage();
        }
      } else {
        if currentPageIndex > 0 {
          currentPageIndex := currentPageIndex - 1;
          RenderCurrentPage();
        }
      }
    }

    /**
     * `scrollToFirstMatch`: to the first page holding the term, ignoring
     * case; nowhere without a term, without pages or without a match.
     */
    method ScrollToFirstMatch()
      requires Valid()
      modifies this
      ensures Valid()
      ensures currentSearchTerm != [] && formattedPages.Some? &&
              Viewer.FirstMatch(formattedPages.value, ToLower(currentSearchTerm)).Some? ==>
                currentPageIndex == Viewer.FirstMatch(formattedPages.value, ToLower(currentSearchTerm)).value &&
                screen == Rendered()
      ensures !(currentSearchTerm != [] && formattedPages.Some? &&
                Viewer.FirstMatch(formattedPages.value, ToLower(currentSearchTerm)).Some?) ==>
                currentPageIndex == old(currentPageIndex) && screen == old(screen)
      ensures originalPages == old(originalPages) && formattedPages == old(formattedPages)
      ensures currentSearchTerm == old(currentSearchTerm) && Layout() == old(Layout())
    {
      if currentSearchTerm == [] || formattedPages.None? {
        return;
      }
      var lowerSearchTerm := ToLower(currentSearchTerm);
      var pages := formattedPages.value;
      for i := 0 to |pages|
        invariant forall j :: 0 <= j < i ==> !Viewer.PageMatches(pages[j], lowerSearchTerm)
      {
        var paragraphs := pages[i].paragraphs;
        for k := 0 to |paragraphs|
          invariant forall m :: 0 <= m < k ==> !Contains(ToLower(paragraphs[m]), lowerSearchTerm)
        {
          if Contains(ToLower(paragraphs[k]), lowerSearchTerm) {
            GoToPage(i);
            return;
          }
        }
      }
    }

    /**
     * `searchText`: without pages or term nothing happens; otherwise the
     * trimmed term is kept, the pane redrawn, and a non-empty term moves to
     * its first page.
     */
    method SearchText(searchTerm: Option<string>)
      requires Valid()
      modifies this
      ensures Valid()
      ensures originalPages.None? || searchTerm.None? ==>
                currentSearchTerm == old(currentSearchTerm) && currentPageIndex == old(currentPageIndex) &&
                screen == old(screen)
      ensures originalPages.Some? && searchTerm.Some? ==>
                currentSearchTerm == Trim(searchTerm.value) && screen == Rendered()
      ensures originalPages.Some? && searchTerm.Some? && currentSearchTerm != [] && formattedPages.Some? &&
              Viewer.FirstMatch(formattedPages.value, ToLower(currentSearchTerm)).Some? ==>
                currentPageIndex == Viewer.FirstMatch(formattedPages.value, ToLower(currentSearchTerm)).value
      ensures !(currentSearchTerm != [] && formattedPages.Some? &&
                Viewer.FirstMatch(formattedPages.value, ToLower(currentSearchTerm)).Some?) ==>
                currentPageIndex == old(currentPageIndex)
      ensures originalPages == old(originalPages) && formattedPages == old(formattedPages)
      ensures Layout() == old(Layout())
    {
      if originalPages.None? || searchTerm.None? {
        return;
      }
      currentSearchTerm := Trim(searchTerm.value);
      RenderCurrentPage();
      if currentSearchTerm != [] {
        ScrollToFirstMatch();
      }
    }

    /** `setFontSize`: the size clamped to [8, 72]; the pane redrawn when pages are loaded. */
    method SetFontSize(size: real)
      requires Valid()
      modifies this
      ensures Valid() && baseFontSize == Viewer.ClampFontSize(size)
      ensures HasContent() ==> screen == Rendered()
      ensures !HasContent() ==> screen == old(screen)
      ensures originalPages == old(originalPages) && formattedPages == old(formattedPages)
      ensures currentPageIndex == old(currentPageIndex) && currentSearchTerm == old(currentSearchTerm)
      ensures displayMode == old(displayMode) && orientation == old(orientation) && deviceType == old(deviceType)
      ensures lineSpacing == old(lineSpacing)
    {
      baseFontSize := Viewer.ClampFontSize(size);
      if HasContent() {
        RenderCurrentPage();
      }
    }

    /** `setLineSpacing`: the spacing clamped to [0.5, 5.0]; the pane redrawn when pages are loaded. */
    method SetLineSpacing(spacing: real)
      requires Valid()
      modifies this
      ensures Valid() && lineSpacing == Viewer.ClampLineSpacing(spacing)
      ensures HasContent() ==> screen == Rendered()
      ensures !HasContent() ==> screen == old(screen)
      ensures originalPages == old(originalPages) && formattedPages == old(formattedPages)
      ensures currentPageIndex == old(currentPageIndex) && currentSearchTerm == old(currentSearchTerm)
      ensures displayMode == old(displayMode) && orientation == old(orientation) && deviceType == old(deviceType)
      ensures baseFontSize == old(baseFontSize)
    {
      lineSpacing := Viewer.ClampLineSpacing(spacing);
      if HasContent() {
        RenderCurrentPage();
      }
    }

    /** `setDisplayMode`: the new mode; the pane is redrawn in it only when pages are loaded. */
    method SetDisplayMode(mode: Viewer.DisplayMode)
      requires Valid()
      modifies this
      ensures Valid() && displayMode == mode
      ensures HasContent() ==> screen == Rendered()
      ensures !HasContent() ==> screen == old(screen)
      ensures originalPages == old(originalPages) && formattedPages == old(formattedPages)
      ensures currentPageIndex == old(currentPageIndex) && currentSearchTerm == old(currentSearchTerm)
      ensures orientation == old(orientation) && deviceType == old(deviceType)
      ensures baseFontSize == old(baseFontSize) && lineSpacing == old(lineSpacing)
    {
      displayMode := mode;
      if HasContent() {
        RenderCurrentPage();
      }
    }

    /**
     * `updateLayoutForSize`: for a positive size, a tablet below 800 wide
     * and landscape when wider than tall; the font and spacing of that
     * device and orientation, TWO_PAGE on a landscape tablet, and the pages
     * formatted again at the same index.
     */
    method UpdateLayoutForSize(width: real, height: real)
      requires Valid()
      modifies this
      ensures Valid()
      ensures width <= 0.0 || height <= 0.0 ==>
                deviceType == old(deviceType) && orientation == old(orientation) &&
                baseFontSize == old(baseFontSize) && lineSpacing == old(lineSpacing) &&
                displayMode == old(displayMode) && screen == old(screen)
      ensures width > 0.0 && height > 0.0 ==>
                deviceType == (if width < 800.0 then Viewer.Tablet else Viewer.Desktop) &&
                orientation == (if width > height then Viewer.Landscape else Viewer.Portrait)
      ensures width > 0.0 && height > 0.0 ==>
                baseFontSize == (match (deviceType, orientation)
                                 case (Tablet, Portrait) => 20.0
                                 case (Tablet, Landscape) => 18.0
                                 case (Desktop, Portrait) => 18.0
                                 case (Desktop, Landscape) => 16.0)
      ensures width > 0.0 && height > 0.0 ==>
                lineSpacing == (match (deviceType, orientation)
                                case (Tablet, Portrait) => 2.0
                                case (Tablet, Landscape) => 1.8
                                case (Desktop, Portrait) => 1.8
                                case (Desktop, Landscape) => 1.6)
      ensures width > 0.0 && height > 0.0 ==>
                displayMode == (if deviceType == Viewer.Tablet && orientation == Viewer.Landscape then Viewer.TwoPage
                                else old(displayMode))
      ensures width > 0.0 && height > 0.0 && Viewer.HasPages(originalPages) ==> screen == Rendered()
      ensures currentPageIndex == old(currentPageIndex) && currentSearchTerm == old(currentSearchTerm)
      ensures originalPages == old(originalPages)
      ensures Viewer.HasPages(originalPages) ==> formattedPages == Some(FormatAll(originalPages.value))
      ensures !Viewer.HasPages(originalPages) ==> formattedPages == old(formattedPages)
    {
      if width <= 0.0 || height <= 0.0 {
        return;
      }
      deviceType := if width < 800.0 then Viewer.Tablet else Viewer.Desktop;
      orientation := if width > height then Viewer.Landscape else Viewer.Portrait;
      AdjustLayoutSettings();
      if Viewer.HasPages(originalPages) {
        FormatPages();
        RenderCurrentPage();
      }
    }

    /** `adjustLayoutSettings`: font size and line spacing per device and orientation. */
    method AdjustLayoutSettings()
      modifies this
      ensures baseFontSize == (match (deviceType, orientation)
                               case (Tablet, Portrait) => 20.0
                               case (Tablet, Landscape) => 18.0
                               case (Desktop, Portrait) => 18.0
                               case (Desktop, Landscape) => 16.0)
      ensures lineSpacing == (match (deviceType, orientation)
                              case (Tablet, Portrait) => 2.0
                              case (Tablet, Landscape) => 1.8
                              case (Desktop, Portrait) => 1.8
                              case (Desktop, Landscape) => 1.6)
      ensures displayMode ==
                (if deviceType == Viewer.Tablet && orientation == Viewer.Landscape then Viewer.TwoPage
                 else old(displayMode))
      ensures deviceType == old(deviceType) && orientation == old(orientation)
      ensures originalPages == old(originalPages) && formattedPages == old(formattedPages)
      ensures currentPageIndex == old(currentPageIndex) && currentSearchTerm == old(currentSearchTerm)
      ensures screen == old(screen)
    {
      match deviceType
      case Tablet =>
        if orientation == Viewer.Portrait {
          baseFontSize := 20.0;
          lineSpacing := 2.0;
        } else {
          baseFontSize := 18.0;
          lineSpacing := 1.8;
          displayMode := Viewer.TwoPage;
        }
      case Desktop =>
        if orientation == Viewer.Portrait {
          baseFontSize := 18.0;
          lineSpacing := 1.8;
        } else {
          baseFontSize := 16.0;
          lineSpacing := 1.6;
        }
    }
  }
}
