// The bookmark list (BookmarkManager.java): bookmarks are appended, removed by
// identity, edited in place and filtered by file. Bookmark has no equals, so
// the model gives every bookmark a reference number from a counter; clock
// readings are parameters and the JSON file is left out.

module BookmarkManager {
  import opened JavaText

  /** A bookmark; `pageNumber` is 0-based and shown as `pageNumber + 1`. */
  datatype Bookmark = Bookmark(ref: nat, title: string, filePath: string, pageNumber: int, createdTime: int,
                               notes: string)

  function BookmarkRef(b: Bookmark): nat { b.ref }

  /** The bookmark belongs to that file. */
  predicate InFile(filePath: string, b: Bookmark) { b.filePath == filePath }

  /** The title the add dialog stores: the trimmed input, or "書籤 - 頁面 <page+1>" when that is empty. */
  function DialogTitle(input: string, currentPage: int): (r: string)
    ensures r != []
    ensures Trim(input) != [] ==> r == Trim(input)
    ensures Trim(input) == [] ==> r == DefaultTitle(currentPage)
  {
    if Trim(input) == [] then DefaultTitle(currentPage) else Trim(input)
  }

  const DefaultTitlePrefix: string := "書籤 - 頁面 "

  function DefaultTitle(currentPage: int): string
  {
    DefaultTitlePrefix + IntToString(currentPage + 1)
  }

  lemma SamePrefixSameTail(prefix: string, a: string, b: string)
    requires prefix + a == prefix + b
    ensures a == b
  {
    assert a == (prefix + a)[|prefix|..];
    assert b == (prefix + b)[|prefix|..];
  }

  /** Default titles tell pages apart. */
  lemma DefaultTitleInjective(p: int, q: int)
    requires IsInt32(p + 1) && IsInt32(q + 1)
    requires DefaultTitle(p) == DefaultTitle(q)
    ensures p == q
  {
    SamePrefixSameTail(DefaultTitlePrefix, IntToString(p + 1), IntToString(q + 1));
    ParseIntOfIntToString(p + 1);
    ParseIntOfIntToString(q + 1);
  }

  /** The page number a stored bookmark is listed with. */
  function DisplayedPage(b: Bookmark): int { b.pageNumber + 1 }

  /** A bookmark's edit, applied to the bookmark object wherever it is listed. */
  function Edited(bs: seq<Bookmark>, ref: nat, title: string, notes: string): (r: seq<Bookmark>)
    ensures |r| == |bs|
    ensures forall i :: 0 <= i < |bs| && bs[i].ref == ref ==> r[i] == bs[i].(title := title, notes := notes)
    ensures forall i :: 0 <= i < |bs| && bs[i].ref != ref ==> r[i] == bs[i]
  {
    seq(|bs|, i requires 0 <= i < |bs| => if bs[i].ref == ref then bs[i].(title := title, notes := notes) else bs[i])
  }

  class BookmarkManager {
    var bookmarks: seq<Bookmark>
    /** The reference the next bookmark receives. */
    var nextRef: nat

    ghost predicate Valid()
      reads this
    {
      UniqueRefs(bookmarks, BookmarkRef) && RefsBelow(bookmarks, BookmarkRef, nextRef)
    }

    /** The list as the bookmark file held it (empty when there is none). */
    constructor (loaded: seq<Bookmark>, loadedRefs: nat)
      requires UniqueRefs(loaded, BookmarkRef) && RefsBelow(loaded, BookmarkRef, loadedRefs)
      ensures Valid() && bookmarks == loaded && nextRef == loadedRefs
    {
      bookmarks := loaded;
      nextRef := loadedRefs;
    }

    /** `addBookmark`: one new bookmark with exactly these fields, at the end. */
    method AddBookmark(title: string, filePath: string, pageNumber: int, notes: string, now: int)
      requires Valid()
      modifies this
      ensures Valid() && nextRef == old(nextRef) + 1
      ensures bookmarks == old(bookmarks) + [Bookmark(old(nextRef), title, filePath, pageNumber, now, notes)]
      ensures GetBookmarksForFile(filePath) == old(GetBookmarksForFile(filePath)) + [bookmarks[|bookmarks| - 1]]
    {
      AddedShowsForItsFile(bookmarks, Bookmark(nextRef, title, filePath, pageNumber, now, notes));
      bookmarks := bookmarks + [Bookmark(nextRef, title, filePath, pageNumber, now, notes)];
      nextRef := nextRef + 1;
    }

    /** The add dialog's button: default title for a blank one, trimmed notes, the current file and page. */
    method AddFromDialog(titleInput: string, notesInput: string, currentFilePath: string, currentPage: int, now: int)
      requires Valid()
      modifies this
      ensures Valid() && nextRef == old(nextRef) + 1
      ensures bookmarks == old(bookmarks) +
                [Bookmark(old(nextRef), DialogTitle(titleInput, currentPage), currentFilePath, currentPage, now,
                          Trim(notesInput))]
      ensures DisplayedPage(bookmarks[|bookmarks| - 1]) == currentPage + 1
    {
      var title := Trim(titleInput);
      if title == [] {
        title := DefaultTitle(currentPage);
      }
      AddBookmark(title, currentFilePath, currentPage, Trim(notesInput), now);
    }

    /** `removeBookmark`: that bookmark leaves the list and every other stays, in order. */
    method RemoveBookmark(ref: nat)
      requires Valid()
      modifies this
      ensures Valid() && nextRef == old(nextRef)
      ensures bookmarks == RemoveFirst(old(bookmarks), BookmarkRef, ref)
      ensures forall b :: b in bookmarks <==> b in old(bookmarks) && b.ref != ref
    {
      RemoveFirstExactly(bookmarks, BookmarkRef, ref);
      RemoveFirstKeepsRefs(bookmarks, BookmarkRef, ref, nextRef);
      bookmarks := RemoveFirst(bookmarks, BookmarkRef, ref);
    }

    /** `updateBookmark`: only the title and notes of that bookmark change. */
    method UpdateBookmark(ref: nat, title: string, notes: string)
      requires Valid()
      modifies this
      ensures Valid() && nextRef == old(nextRef)
      ensures bookmarks == Edited(old(bookmarks), ref, title, notes)
    {
      EditKeepsTheRest(bookmarks, ref, title, notes);
      bookmarks := Edited(bookmarks, ref, title, notes);
    }

    /** The edit dialog's save button: trimmed title and notes; a blank title is stored as it is. */
    method SaveEdit(ref: nat, titleInput: string, notesInput: string)
      requires Valid()
      modifies this
      ensures Valid() && nextRef == old(nextRef)
      ensures bookmarks == Edited(old(bookmarks), ref, Trim(titleInput), Trim(notesInput))
    {
      UpdateBookmark(ref, Trim(titleInput), Trim(notesInput));
    }

    /**
     * `getBookmarksForFile`: the bookmarks of that file, in list order and
     * with their multiplicity, as the stream filter `FilterWith` keeps them
     * (`FilterWithAppend` and `AddedShowsForItsFile` state that order).
     */
    function GetBookmarksForFile(filePath: string): (r: seq<Bookmark>)
      reads this
      ensures r == FilterWith(bookmarks, InFile, filePath)
      ensures forall b :: b in r <==> b in bookmarks && b.filePath == filePath
      ensures |r| <= |bookmarks|
    {
      FilterWithMembers(bookmarks, InFile, filePath);
      FilterWith(bookmarks, InFile, filePath)
    }
  }

  /** An edit changes nothing but the title and notes of the edited bookmark. */
  lemma EditKeepsTheRest(bs: seq<Bookmark>, ref: nat, title: string, notes: string)
    ensures forall i :: 0 <= i < |bs| ==>
              var e := Edited(bs, ref, title, notes)[i];
              e.ref == bs[i].ref && e.filePath == bs[i].filePath && e.pageNumber == bs[i].pageNumber &&
              e.createdTime == bs[i].createdTime
    ensures UniqueRefs(bs, BookmarkRef) ==> UniqueRefs(Edited(bs, ref, title, notes), BookmarkRef)
  {
  }

  /** Filtering by file after adding a bookmark of that file ends with that bookmark. */
  lemma AddedShowsForItsFile(bs: seq<Bookmark>, b: Bookmark)
    ensures FilterWith(bs + [b], InFile, b.filePath) == FilterWith(bs, InFile, b.filePath) + [b]
  {
    FilterWithAppend(bs, [b], InFile, b.filePath);
    assert [b][1..] == [];
  }
}
