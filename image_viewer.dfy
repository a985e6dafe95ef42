// The image pane of the reader (viewer/ImageViewer.java): a list of page
// images, the index of the one on screen, a zoom factor and a fit mode.
// Images are opaque values; the JavaFX ImageView is reduced to the image it
// shows, its rotation and the fit size it is given. Doubles are exact reals.

module ImageViewer {
  import opened Wrappers
  import opened JavaText

  /** `ImageViewer.FitMode`. */
  datatype FitMode = FitWidth | FitHeight | FitPage | OriginalSize

  /** The enum constant's name, as `toString()` prints it. */
  function FitModeName(m: FitMode): string
  {
    match m
    case FitWidth => "FIT_WIDTH"
    case FitHeight => "FIT_HEIGHT"
    case FitPage => "FIT_PAGE"
    case OriginalSize => "ORIGINAL_SIZE"
  }

  /** `FitMode.valueOf`: the constant with exactly that name, None for an IllegalArgumentException. */
  function FitModeValueOf(s: string): (r: Option<FitMode>)
    ensures forall m :: r == Some(m) <==> s == FitModeName(m)
  {
    if s == "FIT_WIDTH" then Some(FitWidth)
    else if s == "FIT_HEIGHT" then Some(FitHeight)
    else if s == "FIT_PAGE" then Some(FitPage)
    else if s == "ORIGINAL_SIZE" then Some(OriginalSize)
    else None
  }

  /** Printing a fit mode and reading it back gives the same mode. */
  lemma FitModeRoundTrip(m: FitMode)
    ensures FitModeValueOf(FitModeName(m)) == Some(m)
  {
  }

  /** `images != null && !images.isEmpty()`. */
  predicate Loaded<Image>(images: Option<seq<Image>>)
  {
    images.Some? && images.value != []
  }

  /** The page label `showImage` writes: "Page: <index+1> / <size>", or "Page: 0 / 0" with no images. */
  function PageLabel<Image>(images: Option<seq<Image>>, index: int): string
  {
    if !Loaded(images) then "Page: 0 / 0"
    else "Page: " + IntToString(index + 1) + " / " + IntToString(|images.value|)
  }

  /** The label names the page and the page count it was written for. */
  lemma PageLabelInjective<Image>(images: Option<seq<Image>>, i: nat, others: Option<seq<Image>>, j: nat)
    requires Loaded(images) && Loaded(others)
    requires PageLabel(images, i) == PageLabel(others, j)
    ensures i == j && |images.value| == |others.value|
  {
    CounterLabelInjective("Page: ", i + 1, |images.value|, j + 1, |others.value|);
  }

  /** A label with a page count never reads like the empty one. */
  lemma PageLabelOfLoaded<Image>(images: Option<seq<Image>>, i: nat)
    requires Loaded(images)
    ensures PageLabel(images, i) != "Page: 0 / 0"
  {
    EmptyPageLabelIsCounter();
    if PageLabel(images, i) == "Page: 0 / 0" {
      CounterLabelInjective("Page: ", i + 1, |images.value|, 0, 0);
    }
  }

  /** The empty label is the counter label of page 0 of 0. */
  lemma EmptyPageLabelIsCounter()
    ensures "Page: 0 / 0" == "Page: " + IntToString(0) + " / " + IntToString(0)
  {
    assert IntToString(0) == "0";
  }

  /** The width and height `applySizeMode` gives the view; 0 lets JavaFX derive that side. */
  function FitSize(m: FitMode, zoom: real, imageWidth: real, imageHeight: real): (real, real)
  {
    match m
    case FitWidth => (800.0 * zoom, 0.0)
    case FitHeight => (0.0, 600.0 * zoom)
    case FitPage => (800.0 * zoom, 600.0 * zoom)
    case OriginalSize => (imageWidth * zoom, imageHeight * zoom)
  }

  /** The fit size grows in proportion to the zoom in every mode. */
  lemma FitSizeScales(m: FitMode, zoom: real, k: real, w: real, h: real)
    ensures FitSize(m, k * zoom, w, h).0 == k * FitSize(m, zoom, w, h).0
    ensures FitSize(m, k * zoom, w, h).1 == k * FitSize(m, zoom, w, h).1
  {
  }

  const ZoomStep: real := 1.2
  const MinZoom: real := 0.1

  class ImageViewer<Image> {
    /** `null` is None. */
    var images: Option<seq<Image>>
    var currentIndex: int
    var zoomLevel: real
    var fitMode: FitMode
    /** What the ImageView shows: the current image, or nothing. */
    var shown: Option<Image>
    var rotation: int
    var pageLabel: string

    /** The index addresses an image whenever there are images, and the zoom never drops below its floor. */
    ghost predicate Valid()
      reads this
    {
      0 <= currentIndex &&
      (Loaded(images) ==> currentIndex < |images.value|) &&
      zoomLevel >= MinZoom
    }

    /** The screen agrees with the state, as `showImage` leaves it. */
    ghost predicate Shows()
      reads this
      requires Valid()
    {
      shown == (if Loaded(images) then Some(images.value[currentIndex]) else None) &&
      pageLabel == PageLabel(images, currentIndex)
    }

    constructor ()
      ensures Valid() && Shows()
      ensures images == None && currentIndex == 0 && zoomLevel == 1.0 && fitMode == FitWidth && rotation == 0
    {
      images := None;
      currentIndex := 0;
      zoomLevel := 1.0;
      fitMode := FitWidth;
      shown := None;
      rotation := 0;
      pageLabel := "Page: 0 / 0";
    }

    function GetTotalPages(): (r: nat)
      reads this
      ensures r == 0 <==> !Loaded(images)
    {
      if images.Some? then |images.value| else 0
    }

    predicate HasImages()
      reads this
    {
      Loaded(images)
    }

    predicate CanGoNext()
      reads this
    {
      HasImages() && currentIndex < |images.value| - 1
    }

    predicate CanGoPrevious()
      reads this
    {
      HasImages() && currentIndex > 0
    }

    /** `showImage`: puts the current image and its label on screen. */
    method ShowImage()
      requires Valid()
      modifies this
      ensures Valid() && Shows()
      ensures images == old(images) && currentIndex == old(currentIndex) && zoomLevel == old(zoomLevel)
      ensures fitMode == old(fitMode) && rotation == old(rotation)
    {
      if !Loaded(images) {
        shown := None;
        pageLabel := "Page: 0 / 0";
        return;
      }
      shown := Some(images.value[currentIndex]);
      pageLabel := PageLabel(images, currentIndex);
    }

    /** `setImages`: the new list, shown from its first page. */
    method SetImages(newImages: Option<seq<Image>>)
      requires Valid()
      modifies this
      ensures Valid() && Shows()
      ensures images == newImages && currentIndex == 0
      ensures zoomLevel == old(zoomLevel) && fitMode == old(fitMode) && rotation == old(rotation)
    {
      images := newImages;
      currentIndex := 0;
      ShowImage();
    }

    /** `clearImages`: no images, first page, zoom 1, fit to width, upright, and the empty label. */
    method ClearImages()
      modifies this
      ensures Valid() && Shows()
      ensures images == None && currentIndex == 0 && zoomLevel == 1.0 && fitMode == FitWidth && rotation == 0
      ensures GetTotalPages() == 0 && pageLabel == "Page: 0 / 0"
    {
      images := None;
      currentIndex := 0;
      zoomLevel := 1.0;
      fitMode := FitWidth;
      shown := None;
      rotation := 0;
      pageLabel := "Page: 0 / 0";
    }

    /** `nextPage`: one page on exactly when `canGoNext` holds. */
    method NextPage()
      requires Valid() && Shows()
      modifies this
      ensures Valid() && Shows()
      ensures currentIndex == if old(CanGoNext()) then old(currentIndex) + 1 else old(currentIndex)
      ensures images == old(images) && zoomLevel == old(zoomLevel) && fitMode == old(fitMode)
      ensures rotation == old(rotation)
    {
      if !Loaded(images) {
        return;
      }
      if currentIndex < |images.value| - 1 {
        currentIndex := currentIndex + 1;
        ShowImage();
      }
    }

    /** `prevPage`: one page back exactly when `canGoPrevious` holds. */
    method PrevPage()
      requires Valid() && Shows()
      modifies this
      ensures Valid() && Shows()
      ensures currentIndex == if old(CanGoPrevious()) then old(currentIndex) - 1 else old(currentIndex)
      ensures images == old(images) && zoomLevel == old(zoomLevel) && fitMode == old(fitMode)
      ensures rotation == old(rotation)
    {
      if !Loaded(images) {
        return;
      }
      if currentIndex > 0 {
        currentIndex := currentIndex - 1;
        ShowImage();
      }
    }

    /** `goToFirstPage`: page 0 when there are images, otherwise nothing. */
    method GoToFirstPage()
      requires Valid() && Shows()
      modifies this
      ensures Valid() && Shows()
      ensures currentIndex == if Loaded(images) then 0 else old(currentIndex)
      ensures images == old(images) && zoomLevel == old(zoomLevel) && fitMode == old(fitMode)
      ensures rotation == old(rotation)
    {
      if !Loaded(images) {
        return;
      }
      currentIndex := 0;
      ShowImage();
    }

    /** `goToLastPage`: the last page when there are images, otherwise nothing. */
    method GoToLastPage()
      requires Valid() && Shows()
      modifies this
      ensures Valid() && Shows()
      ensures currentIndex == if Loaded(images) then |images.value| - 1 else old(currentIndex)
      ensures images == old(images) && zoomLevel == old(zoomLevel) && fitMode == old(fitMode)
      ensures rotation == old(rotation)
    {
      if !Loaded(images) {
        return;
      }
      currentIndex := |images.value| - 1;
      ShowImage();
    }

    /** `goToPage`: moves exactly when the index names an image. */
    method GoToPage(pageIndex: int)
      requires Valid() && Shows()
      modifies this
      ensures Valid() && Shows()
      ensures currentIndex == if Loaded(images) && 0 <= pageIndex < |images.value| then pageIndex
                              else old(currentIndex)
      ensures images == old(images) && zoomLevel == old(zoomLevel) && fitMode == old(fitMode)
      ensures rotation == old(rotation)
    {
      if !Loaded(images) {
        return;
      }
      if 0 <= pageIndex < |images.value| {
        currentIndex := pageIndex;
        ShowImage();
      }
    }

    /** `zoomIn`: the zoom grows by the step. */
    method ZoomIn()
      requires Valid()
      modifies this
      ensures Valid() && zoomLevel == old(zoomLevel) * ZoomStep
      ensures zoomLevel > old(zoomLevel)
      ensures images == old(images) && currentIndex == old(currentIndex) && fitMode == old(fitMode)
      ensures shown == old(shown) && pageLabel == old(pageLabel) && rotation == old(rotation)
    {
      zoomLevel := zoomLevel * ZoomStep;
    }

    /** `zoomOut`: the zoom shrinks by the step but stops at the floor. */
    method ZoomOut()
      requires Valid()
      modifies this
      ensures Valid()
      ensures zoomLevel == if old(zoomLevel) / ZoomStep < MinZoom then MinZoom else old(zoomLevel) / ZoomStep
      ensures zoomLevel <= old(zoomLevel)
      ensures images == old(images) && currentIndex == old(currentIndex) && fitMode == old(fitMode)
      ensures shown == old(shown) && pageLabel == old(pageLabel) && rotation == old(rotation)
    {
      zoomLevel := zoomLevel / ZoomStep;
      if zoomLevel < MinZoom {
        zoomLevel := MinZoom;
      }
    }

    /** `resetZoom`. */
    method ResetZoom()
      requires Valid()
      modifies this
      ensures Valid() && zoomLevel == 1.0
      ensures images == old(images) && currentIndex == old(currentIndex) && fitMode == old(fitMode)
      ensures shown == old(shown) && pageLabel == old(pageLabel) && rotation == old(rotation)
    {
      zoomLevel := 1.0;
    }

    /** `setFitMode` and the `fitToWidth`/`fitToHeight`/`fitToPage`/`originalSize` buttons. */
    method SetFitMode(m: FitMode)
      requires Valid()
      modifies this
      ensures Valid() && fitMode == m
      ensures images == old(images) && currentIndex == old(currentIndex) && zoomLevel == old(zoomLevel)
      ensures shown == old(shown) && pageLabel == old(pageLabel) && rotation == old(rotation)
    {
      fitMode := m;
    }

    /** `rotate`: a quarter turn. */
    method Rotate()
      requires Valid()
      modifies this
      ensures Valid() && rotation == old(rotation) + 90
      ensures images == old(images) && currentIndex == old(currentIndex) && zoomLevel == old(zoomLevel)
      ensures fitMode == old(fitMode) && shown == old(shown) && pageLabel == old(pageLabel)
    {
      rotation := rotation + 90;
    }
  }

  /** Zooming out after zooming in returns to the zoom level it started from. */
  lemma ZoomOutUndoesZoomIn(z: real)
    requires z >= MinZoom
    ensures (z * ZoomStep) / ZoomStep == z
    ensures !((z * ZoomStep) / ZoomStep < MinZoom)
  {
  }

  /** Enough zooming out always ends at the floor exactly. */
  lemma ZoomOutReachesFloor(z: real)
    requires MinZoom <= z < MinZoom * ZoomStep
    ensures z / ZoomStep < MinZoom
  {
  }
}
