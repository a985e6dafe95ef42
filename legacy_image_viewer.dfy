// The first image pane (E_Reader/ImageViewer.java): page images, the index of
// the one on screen and the label under it; no zoom and no fit modes. The
// label has the same form as the newer viewer's.

module LegacyImageViewer {
  import opened Wrappers
  import ImageViewer

  class LegacyImageViewer<Image> {
    /** `null` is None. */
    var images: Option<seq<Image>>
    var currentIndex: int
    /** What the ImageView shows: the current image, or nothing. */
    var shown: Option<Image>
    var pageLabel: string

    /** For a non-empty list the index always names one of its images. */
    ghost predicate Valid()
      reads this
    {
      0 <= currentIndex && (ImageViewer.Loaded(images) ==> currentIndex < |images.value|)
    }

    /** The screen agrees with the state, as `showImage` leaves it. */
    ghost predicate Shows()
      reads this
      requires Valid()
    {
      shown == (if ImageViewer.Loaded(images) then Some(images.value[currentIndex]) else None) &&
      pageLabel == ImageViewer.PageLabel(images, currentIndex)
    }

    constructor ()
      ensures Valid() && Shows()
      ensures images == None && currentIndex == 0
    {
      images := None;
      currentIndex := 0;
      shown := None;
      pageLabel := "Page: 0 / 0";
    }

    /** `showImage`: the current image and its label, or nothing and "Page: 0 / 0". */
    method ShowImage()
      requires Valid()
      modifies this
      ensures Valid() && Shows()
      ensures images == old(images) && currentIndex == old(currentIndex)
    {
      if !ImageViewer.Loaded(images) {
        shown := None;
        pageLabel := "Page: 0 / 0";
        return;
      }
      shown := Some(images.value[currentIndex]);
      pageLabel := ImageViewer.PageLabel(images, currentIndex);
    }

    /** `setImages`: the new list from its first page. */
    method SetImages(newImages: Option<seq<Image>>)
      requires Valid()
      modifies this
      ensures Valid() && Shows()
      ensures images == newImages && currentIndex == 0
    {
      images := newImages;
      currentIndex := 0;
      ShowImage();
    }

    /** `nextPage`: moves on only from a page before the last; nothing at all without images. */
    method NextPage()
      requires Valid() && Shows()
      modifies this
      ensures Valid() && Shows() && images == old(images)
      ensures currentIndex == if ImageViewer.Loaded(images) && old(currentIndex) < |images.value| - 1
                              then old(currentIndex) + 1 else old(currentIndex)
    {
      if !ImageViewer.Loaded(images) {
        return;
      }
      if currentIndex < |images.value| - 1 {
        currentIndex := currentIndex + 1;
        ShowImage();
      }
    }

    /** `prevPage`: moves back only from a page after the first; nothing at all without images. */
    method PrevPage()
      requires Valid() && Shows()
      modifies this
      ensures Valid() && Shows() && images == old(images)
      ensures currentIndex == if ImageViewer.Loaded(images) && old(currentIndex) > 0
                              then old(currentIndex) - 1 else old(currentIndex)
    {
      if !ImageViewer.Loaded(images) {
        return;
      }
      if currentIndex > 0 {
        currentIndex := currentIndex - 1;
        ShowImage();
      }
    }
  }
}
