// The reader's session state (core/StateManager.java): which file is open and
// in which mode, the loaded images and text pages, the remembered page index
// of each mode, the display flags, and the reading time. The clock
// (`System.currentTimeMillis`) is a parameter `now` in milliseconds. Images
// and text pages are type parameters; `null` lists are None.

module StateManager {
  import opened Wrappers

  /** A list that is there and has at least one element. */
  predicate NonEmpty<T>(list: Option<seq<T>>)
  {
    list.Some? && |list.value| > 0
  }

  class StateManager<Image, Page> {
    var isPdfMode: bool
    var isEpubMode: bool
    var isTextMode: bool
    /** `setCurrentFilePath(null)` can make it None. */
    var currentFilePath: Option<string>

    var isFullScreen: bool
    var isControlsVisible: bool
    var isAutoScrolling: bool

    var currentImages: Option<seq<Image>>
    var currentTextPages: Option<seq<Page>>

    var readingStartTime: int
    var totalReadingTime: int

    var currentImagePageIndex: int
    var currentTextPageIndex: int

    /** The loaded file's modes and content (the path is kept apart). */
    function Content(): (bool, bool, Option<seq<Image>>, Option<seq<Page>>)
      reads this
    {
      (isPdfMode, isEpubMode, currentImages, currentTextPages)
    }

    /** The display flags. */
    function Display(): (bool, bool, bool)
      reads this
    {
      (isFullScreen, isControlsVisible, isAutoScrolling)
    }

    /** The remembered page index of each mode: images, then text. */
    function Indices(): (int, int)
      reads this
    {
      (currentImagePageIndex, currentTextPageIndex)
    }

    /** The reading-time fields: session start, then banked total. */
    function Clock(): (int, int)
      reads this
    {
      (readingStartTime, totalReadingTime)
    }

    /** A new session: nothing loaded, controls shown, the clock started now. */
    constructor (now: int)
      ensures currentFilePath == Some("") && !isPdfMode && !isEpubMode && !isTextMode
      ensures !isFullScreen && isControlsVisible && !isAutoScrolling
      ensures currentImages == None && currentTextPages == None
      ensures readingStartTime == now && totalReadingTime == 0
      ensures currentImagePageIndex == 0 && currentTextPageIndex == 0
    {
      isPdfMode := false;
      isEpubMode := false;
      isTextMode := false;
      currentFilePath := Some("");
      isFullScreen := false;
      isControlsVisible := true;
      isAutoScrolling := false;
      currentImages := None;
      currentTextPages := None;
      readingStartTime := now;
      totalReadingTime := 0;
      currentImagePageIndex := 0;
      currentTextPageIndex := 0;
    }

    /** `setFileLoaded`: a new file, shown as images from the first page of both modes. */
    method SetFileLoaded(filePath: Option<string>, isPdf: bool, isEpub: bool, images: Option<seq<Image>>,
                         textPages: Option<seq<Page>>)
      modifies this
      ensures currentFilePath == filePath && isPdfMode == isPdf && isEpubMode == isEpub && !isTextMode
      ensures currentImages == images && currentTextPages == textPages
      ensures currentImagePageIndex == 0 && currentTextPageIndex == 0
      ensures isFullScreen == old(isFullScreen) && isControlsVisible == old(isControlsVisible)
      ensures isAutoScrolling == old(isAutoScrolling)
      ensures readingStartTime == old(readingStartTime) && totalReadingTime == old(totalReadingTime)
    {
      currentFilePath := filePath;
      isPdfMode := isPdf;
      isEpubMode := isEpub;
      isTextMode := false;
      currentImages := images;
      currentTextPages := textPages;
      currentImagePageIndex := 0;
      currentTextPageIndex := 0;
    }

    /** `clearFileState`: no file and no content; the display flags and the clock are kept. */
    method ClearFileState()
      modifies this
      ensures currentFilePath == Some("") && !isPdfMode && !isEpubMode && !isTextMode
      ensures currentImages == None && currentTextPages == None
      ensures currentImagePageIndex == 0 && currentTextPageIndex == 0
      ensures isFullScreen == old(isFullScreen) && isControlsVisible == old(isControlsVisible)
      ensures isAutoScrolling == old(isAutoScrolling)
      ensures readingStartTime == old(readingStartTime) && totalReadingTime == old(totalReadingTime)
    {
      currentFilePath := Some("");
      isPdfMode := false;
      isEpubMode := false;
      isTextMode := false;
      currentImages := None;
      currentTextPages := None;
      currentImagePageIndex := 0;
      currentTextPageIndex := 0;
    }

    /**
     * `clearCurrentFile`: the file state cleared, auto-scrolling stopped, and
     * the session's time so far moved into the total; a new session starts now.
     */
    method ClearCurrentFile(now: int)
      modifies this
      ensures currentFilePath == Some("") && !isPdfMode && !isEpubMode && !isTextMode
      ensures currentImages == None && currentTextPages == None
      ensures currentImagePageIndex == 0 && currentTextPageIndex == 0
      ensures isFullScreen == old(isFullScreen) && isControlsVisible == old(isControlsVisible)
      ensures !isAutoScrolling
      ensures totalReadingTime == old(totalReadingTime) + (now - old(readingStartTime)) && readingStartTime == now
      ensures CalculateTotalReadingTime(now) == old(CalculateTotalReadingTime(now))
    {
      ClearFileState();
      isAutoScrolling := false;
      var currentSessionTime := now - readingStartTime;
      totalReadingTime := totalReadingTime + currentSessionTime;
      readingStartTime := now;
    }

    /** `calculateTotalReadingTime`: the total so far plus the running session. */
    function CalculateTotalReadingTime(now: int): (r: int)
      reads this
      ensures now >= readingStartTime ==> r >= totalReadingTime
      ensures r - totalReadingTime == now - readingStartTime
    {
      totalReadingTime + (now - readingStartTime)
    }

    /** `resetReadingTimer`: the running session restarts now; the total is kept. */
    method ResetReadingTimer(now: int)
      modifies this
      ensures readingStartTime == now && totalReadingTime == old(totalReadingTime)
      ensures CalculateTotalReadingTime(now) == totalReadingTime
      ensures currentFilePath == old(currentFilePath) && isTextMode == old(isTextMode)
      ensures Content() == old(Content()) && Display() == old(Display()) && Indices() == old(Indices())
    {
      readingStartTime := now;
    }

    /** `getCurrentFilePath`: never null, "" in its place. */
    function GetCurrentFilePath(): (r: string)
      reads this
      ensures currentFilePath.Some? ==> r == currentFilePath.value
      ensures currentFilePath.None? ==> r == ""
    {
      if currentFilePath.Some? then currentFilePath.value else ""
    }

    /**
     * `hasLoadedContent`: a non-empty path and some images or text pages. A
     * `null` path makes `isEmpty()` throw, hence the precondition.
     */
    predicate HasLoadedContent()
      reads this
      requires currentFilePath.Some?
      ensures HasLoadedContent() ==> GetCurrentFilePath() != ""
      ensures HasLoadedContent() <==>
                GetCurrentFilePath() != "" && (NonEmpty(currentImages) || NonEmpty(currentTextPages))
      ensures !NonEmpty(currentImages) && !NonEmpty(currentTextPages) ==> !HasLoadedContent()
    {
      currentFilePath.value != "" && (NonEmpty(currentImages) || NonEmpty(currentTextPages))
    }

    /** `canSwitchToTextMode`. */
    predicate CanSwitchToTextMode()
      reads this
      requires currentFilePath.Some?
    {
      HasLoadedContent()
    }

    /** `isFileLoaded`: its own path test repeats the one inside `hasLoadedContent`. */
    predicate IsFileLoaded()
      reads this
      requires currentFilePath.Some?
      ensures IsFileLoaded() == HasLoadedContent()
    {
      currentFilePath.value != "" && HasLoadedContent()
    }

    /** `getCurrentPageIndex`: the index of the mode on screen. */
    function GetCurrentPageIndex(): (r: int)
      reads this
      ensures isTextMode ==> r == currentTextPageIndex
      ensures !isTextMode ==> r == currentImagePageIndex
    {
      if isTextMode then currentTextPageIndex else currentImagePageIndex
    }

    /** `setCurrentPageIndex`: only the index of the mode on screen changes. */
    method SetCurrentPageIndex(pageIndex: int)
      modifies this
      ensures GetCurrentPageIndex() == pageIndex
      ensures isTextMode == old(isTextMode)
      ensures isTextMode ==> currentImagePageIndex == old(currentImagePageIndex)
      ensures !isTextMode ==> currentTextPageIndex == old(currentTextPageIndex)
      ensures currentFilePath == old(currentFilePath) && Content() == old(Content())
      ensures Display() == old(Display()) && Clock() == old(Clock())
    {
      if isTextMode {
        currentTextPageIndex := pageIndex;
      } else {
        currentImagePageIndex := pageIndex;
      }
    }

    /** `setTextMode`: only the mode flag changes. */
    method SetTextMode(textMode: bool)
      modifies this
      ensures isTextMode == textMode
      ensures currentFilePath == old(currentFilePath) && Content() == old(Content())
      ensures Display() == old(Display()) && Indices() == old(Indices()) && Clock() == old(Clock())
    {
      isTextMode := textMode;
    }

    /** `setFullScreen`: only the full-screen flag changes. */
    method SetFullScreen(fullScreen: bool)
      modifies this
      ensures isFullScreen == fullScreen
      ensures isControlsVisible == old(isControlsVisible) && isAutoScrolling == old(isAutoScrolling)
      ensures isTextMode == old(isTextMode) && currentFilePath == old(currentFilePath)
      ensures Content() == old(Content()) && Indices() == old(Indices()) && Clock() == old(Clock())
    {
      isFullScreen := fullScreen;
    }

    /** `setControlsVisible`: only the controls flag changes. */
    method SetControlsVisible(visible: bool)
      modifies this
      ensures isControlsVisible == visible
      ensures isFullScreen == old(isFullScreen) && isAutoScrolling == old(isAutoScrolling)
      ensures isTextMode == old(isTextMode) && currentFilePath == old(currentFilePath)
      ensures Content() == old(Content()) && Indices() == old(Indices()) && Clock() == old(Clock())
    {
      isControlsVisible := visible;
    }

    /** `setCurrentFilePath`: `null` is stored as it is. */
    method SetCurrentFilePath(filePath: Option<string>)
      modifies this
      ensures currentFilePath == filePath
      ensures GetCurrentFilePath() == filePath.GetOr("")
      ensures isTextMode == old(isTextMode) && Content() == old(Content())
      ensures Display() == old(Display()) && Indices() == old(Indices()) && Clock() == old(Clock())
    {
      currentFilePath := filePath;
    }
  }
}
