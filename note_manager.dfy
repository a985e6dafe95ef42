// The highlight and note collections of the reader (NoteManager.java): one
// entry per book path holding two lists that grow, shrink and are searched.
// Highlight and Note objects are told apart by identity; the model gives each
// a reference number drawn from a counter. Clock readings are parameters.

module NoteManager {
  import opened JavaText

  /** A marked passage; `note` starts empty. */
  datatype Highlight = Highlight(ref: nat, pageIndex: int, startPosition: int, endPosition: int,
                                 selectedText: string, color: string, createdTime: int, note: string)

  /** A free-text note on a page. */
  datatype Note = Note(ref: nat, pageIndex: int, content: string, createdTime: int, modifiedTime: int,
                       title: string)

  /** Everything recorded for one book. */
  datatype BookNotes = BookNotes(bookPath: string, bookName: string, highlights: seq<Highlight>,
                                 notes: seq<Note>, lastModified: int)

  /** One hit of `searchNotes`: a highlight or a note. */
  datatype SearchResult = HighlightHit(highlight: Highlight) | NoteHit(note: Note)

  function HighlightRef(h: Highlight): nat { h.ref }
  function NoteRef(n: Note): nat { n.ref }

  /** The item lies on the page. */
  predicate HighlightOnPage(pageIndex: int, h: Highlight) { h.pageIndex == pageIndex }
  predicate NoteOnPage(pageIndex: int, n: Note) { n.pageIndex == pageIndex }

  /** Case-insensitive containment as `toLowerCase().contains` does it. */
  predicate ContainsIgnoringCase(s: string, keyword: string)
  {
    Contains(ToLower(s), ToLower(keyword))
  }

  predicate HighlightMatches(keyword: string, h: Highlight)
  {
    ContainsIgnoringCase(h.selectedText, keyword) || ContainsIgnoringCase(h.note, keyword)
  }

  predicate NoteMatches(keyword: string, n: Note)
  {
    ContainsIgnoringCase(n.content, keyword) || ContainsIgnoringCase(n.title, keyword)
  }

  function HighlightHits(hs: seq<Highlight>): (r: seq<SearchResult>)
    ensures |r| == |hs| && forall i :: 0 <= i < |hs| ==> r[i] == HighlightHit(hs[i])
  {
    seq(|hs|, i requires 0 <= i < |hs| => HighlightHit(hs[i]))
  }

  function NoteHits(ns: seq<Note>): (r: seq<SearchResult>)
    ensures |r| == |ns| && forall i :: 0 <= i < |ns| ==> r[i] == NoteHit(ns[i])
  {
    seq(|ns|, i requires 0 <= i < |ns| => NoteHit(ns[i]))
  }

  /** What `searchNotes` finds in one book: matching highlights in order, then matching notes in order. */
  function SearchBook(b: BookNotes, keyword: string): seq<SearchResult>
  {
    HighlightHits(FilterWith(b.highlights, HighlightMatches, keyword)) +
    NoteHits(FilterWith(b.notes, NoteMatches, keyword))
  }

  /** Every hit is a matching item of the book, every matching item is a hit, and highlights come first. */
  lemma SearchBookExactly(b: BookNotes, keyword: string)
    ensures forall h :: HighlightHit(h) in SearchBook(b, keyword) <==> h in b.highlights && HighlightMatches(keyword, h)
    ensures forall n :: NoteHit(n) in SearchBook(b, keyword) <==> n in b.notes && NoteMatches(keyword, n)
    ensures forall i, j :: 0 <= i < j < |SearchBook(b, keyword)| && SearchBook(b, keyword)[j].HighlightHit? ==>
              SearchBook(b, keyword)[i].HighlightHit?
  {
    FilterWithMembers(b.highlights, HighlightMatches, keyword);
    FilterWithMembers(b.notes, NoteMatches, keyword);
    HitsOf(FilterWith(b.highlights, HighlightMatches, keyword), FilterWith(b.notes, NoteMatches, keyword));
  }

  /** Highlight hits, then note hits: each list shows up exactly, in two consecutive blocks. */
  lemma HitsOf(hs: seq<Highlight>, ns: seq<Note>)
    ensures forall h :: HighlightHit(h) in HighlightHits(hs) + NoteHits(ns) <==> h in hs
    ensures forall n :: NoteHit(n) in HighlightHits(hs) + NoteHits(ns) <==> n in ns
    ensures forall i :: 0 <= i < |hs| + |ns| ==> ((HighlightHits(hs) + NoteHits(ns))[i].HighlightHit? <==> i < |hs|)
  {
    var r := HighlightHits(hs) + NoteHits(ns);
    forall h
      ensures HighlightHit(h) in r <==> h in hs
    {
      if HighlightHit(h) in r {
        var i :| 0 <= i < |r| && r[i] == HighlightHit(h);
        assert i < |hs| && hs[i] == h;
      }
      if h in hs {
        var i :| 0 <= i < |hs| && hs[i] == h;
        assert r[i] == HighlightHit(h);
      }
    }
    forall n
      ensures NoteHit(n) in r <==> n in ns
    {
      if NoteHit(n) in r {
        var i :| 0 <= i < |r| && r[i] == NoteHit(n);
        assert i >= |hs| && ns[i - |hs|] == n;
      }
      if n in ns {
        var i :| 0 <= i < |ns| && ns[i] == n;
        assert r[|hs| + i] == NoteHit(n);
      }
    }
    forall i | 0 <= i < |hs| + |ns|
      ensures r[i].HighlightHit? <==> i < |hs|
    {
      if i < |hs| {
        assert r[i] == HighlightHit(hs[i]);
      } else {
        assert r[i] == NoteHit(ns[i - |hs|]);
      }
    }
  }

  /** The number of items `getBookNotesStatistics` reports for a book. */
  function ItemCount(b: BookNotes): nat { |b.highlights| + |b.notes| }

  /** A note after `updateNote`: new content and title, and the modification time of `setContent`. */
  function UpdatedNotes(ns: seq<Note>, ref: nat, content: string, title: string, now: int): (r: seq<Note>)
    ensures |r| == |ns|
    ensures forall i :: 0 <= i < |ns| ==> r[i].ref == ns[i].ref && r[i].pageIndex == ns[i].pageIndex
    ensures forall i :: 0 <= i < |ns| && ns[i].ref == ref ==>
              r[i].content == content && r[i].title == title && r[i].modifiedTime == now &&
              r[i].createdTime == ns[i].createdTime
    ensures forall i :: 0 <= i < |ns| && ns[i].ref != ref ==> r[i] == ns[i]
  {
    seq(|ns|, i requires 0 <= i < |ns| =>
      if ns[i].ref == ref then ns[i].(content := content, modifiedTime := now, title := title) else ns[i])
  }

  /** Every entry is filed under its own path and holds uniquely numbered items below `nextRef`. */
  predicate BooksValid(books: map<string, BookNotes>, nextRef: nat)
  {
    forall p :: p in books ==>
      books[p].bookPath == p &&
      UniqueRefs(books[p].highlights, HighlightRef) && RefsBelow(books[p].highlights, HighlightRef, nextRef) &&
      UniqueRefs(books[p].notes, NoteRef) && RefsBelow(books[p].notes, NoteRef, nextRef)
  }

  /** Replacing one entry by a valid one, while the counter moves up by one, keeps the collection valid. */
  lemma BooksValidStep(books: map<string, BookNotes>, nextRef: nat, p: string, b: BookNotes)
    requires BooksValid(books, nextRef) && b.bookPath == p
    requires UniqueRefs(b.highlights, HighlightRef) && RefsBelow(b.highlights, HighlightRef, nextRef + 1)
    requires UniqueRefs(b.notes, NoteRef) && RefsBelow(b.notes, NoteRef, nextRef + 1)
    ensures BooksValid(books[p := b], nextRef + 1)
  {
  }

  class NoteManager {
    /** `bookNotesMap`, keyed by book path. */
    var books: map<string, BookNotes>
    /** The reference the next highlight or note receives. */
    var nextRef: nat

    ghost predicate Valid()
      reads this
    {
      BooksValid(books, nextRef)
    }

    /** The manager starts with no books (the notes file is never read back). */
    constructor ()
      ensures Valid() && books == map[] && nextRef == 0
    {
      books := map[];
      nextRef := 0;
    }

    /** `getOrCreateBookNotes`: an existing entry is kept as it is, name included; otherwise an empty one is added. */
    method GetOrCreateBookNotes(bookPath: string, bookName: string, now: int)
      requires Valid()
      modifies this
      ensures Valid() && nextRef == old(nextRef)
      ensures bookPath in old(books) ==> books == old(books)
      ensures bookPath !in old(books) ==> books == old(books)[bookPath := BookNotes(bookPath, bookName, [], [], now)]
    {
      if bookPath !in books {
        books := books[bookPath := BookNotes(bookPath, bookName, [], [], now)];
      }
    }

    /** `addHighlight`: one new highlight with an empty note at the end of that book's list. */
    method AddHighlight(bookPath: string, bookName: string, pageIndex: int, startPosition: int, endPosition: int,
                        selectedText: string, color: string, now: int)
      requires Valid()
      modifies this
      ensures Valid() && nextRef == old(nextRef) + 1
      ensures bookPath in books && books.Keys == old(books.Keys) + {bookPath}
      ensures forall p :: p in old(books) && p != bookPath ==> books[p] == old(books)[p]
      ensures books[bookPath].highlights ==
                GetHighlightsIn(old(books), bookPath) +
                [Highlight(old(nextRef), pageIndex, startPosition, endPosition, selectedText, color, now, "")]
      ensures books[bookPath].notes == GetNotesIn(old(books), bookPath)
      ensures books[bookPath].bookName == (if bookPath in old(books) then old(books)[bookPath].bookName else bookName)
      ensures books[bookPath].lastModified == now
    {
      GetOrCreateBookNotes(bookPath, bookName, now);
      var b := books[bookPath];
      var h := Highlight(nextRef, pageIndex, startPosition, endPosition, selectedText, color, now, "");
      AppendFreshRef(b.highlights, HighlightRef, h, nextRef);
      BooksValidStep(books, nextRef, bookPath, b.(highlights := b.highlights + [h], lastModified := now));
      books := books[bookPath := b.(highlights := b.highlights + [h], lastModified := now)];
      nextRef := nextRef + 1;
    }

    /** `addNote`: one new note at the end of that book's list. */
    method AddNote(bookPath: string, bookName: string, pageIndex: int, content: string, title: string, now: int)
      requires Valid()
      modifies this
      ensures Valid() && nextRef == old(nextRef) + 1
      ensures bookPath in books && books.Keys == old(books.Keys) + {bookPath}
      ensures forall p :: p in old(books) && p != bookPath ==> books[p] == old(books)[p]
      ensures books[bookPath].notes == GetNotesIn(old(books), bookPath) + [Note(old(nextRef), pageIndex, content, now, now, title)]
      ensures books[bookPath].highlights == GetHighlightsIn(old(books), bookPath)
      ensures books[bookPath].bookName == (if bookPath in old(books) then old(books)[bookPath].bookName else bookName)
      ensures books[bookPath].lastModified == now
    {
      GetOrCreateBookNotes(bookPath, bookName, now);
      var b := books[bookPath];
      var n := Note(nextRef, pageIndex, content, now, now, title);
      AppendFreshRef(b.notes, NoteRef, n, nextRef);
      BooksValidStep(books, nextRef, bookPath, b.(notes := b.notes + [n], lastModified := now));
      books := books[bookPath := b.(notes := b.notes + [n], lastModified := now)];
      nextRef := nextRef + 1;
    }

    /** `getHighlights`: the book's list, or an empty one for an unknown book. */
    function GetHighlights(bookPath: string): (r: seq<Highlight>)
      reads this
      ensures bookPath !in books ==> r == []
      ensures bookPath in books ==> r == books[bookPath].highlights
    {
      GetHighlightsIn(books, bookPath)
    }

    /** `getNotes`: the book's list, or an empty one for an unknown book. */
    function GetNotes(bookPath: string): (r: seq<Note>)
      reads this
      ensures bookPath !in books ==> r == []
      ensures bookPath in books ==> r == books[bookPath].notes
    {
      GetNotesIn(books, bookPath)
    }

    /** `getHighlightsForPage`: the book's highlights on that page, in list order. */
    method GetHighlightsForPage(bookPath: string, pageIndex: int) returns (r: seq<Highlight>)
      ensures r == FilterWith(GetHighlights(bookPath), HighlightOnPage, pageIndex)
      ensures forall h :: h in r <==> h in GetHighlights(bookPath) && h.pageIndex == pageIndex
    {
      var all := GetHighlights(bookPath);
      r := [];
      for i := 0 to |all|
        invariant r == FilterWith(all[..i], HighlightOnPage, pageIndex)
      {
        FilterWithStep(all, i, HighlightOnPage, pageIndex);
        if all[i].pageIndex == pageIndex {
          r := r + [all[i]];
        }
      }
      assert all[..|all|] == all;
      FilterWithMembers(all, HighlightOnPage, pageIndex);
    }

    /** `getNotesForPage`: the book's notes on that page, in list order. */
    method GetNotesForPage(bookPath: string, pageIndex: int) returns (r: seq<Note>)
      ensures r == FilterWith(GetNotes(bookPath), NoteOnPage, pageIndex)
      ensures forall n :: n in r <==> n in GetNotes(bookPath) && n.pageIndex == pageIndex
    {
      var all := GetNotes(bookPath);
      r := [];
      for i := 0 to |all|
        invariant r == FilterWith(all[..i], NoteOnPage, pageIndex)
      {
        FilterWithStep(all, i, NoteOnPage, pageIndex);
        if all[i].pageIndex == pageIndex {
          r := r + [all[i]];
        }
      }
      assert all[..|all|] == all;
      FilterWithMembers(all, NoteOnPage, pageIndex);
    }

    /** `removeHighlight`: drops that highlight from that book's list; an unknown book is left alone. */
    method RemoveHighlight(bookPath: string, ref: nat, now: int)
      requires Valid()
      modifies this
      ensures Valid() && nextRef == old(nextRef)
      ensures bookPath !in old(books) ==> books == old(books)
      ensures bookPath in old(books) ==>
                books == old(books)[bookPath := old(books)[bookPath].(
                  highlights := RemoveFirst(old(books)[bookPath].highlights, HighlightRef, ref), lastModified := now)]
      ensures bookPath in old(books) ==>
                forall x :: x in books[bookPath].highlights <==> x in old(books)[bookPath].highlights && x.ref != ref
    {
      if bookPath in books {
        var b := books[bookPath];
        RemoveFirstExactly(b.highlights, HighlightRef, ref);
        RemoveFirstKeepsRefs(b.highlights, HighlightRef, ref, nextRef);
        books := books[bookPath := b.(highlights := RemoveFirst(b.highlights, HighlightRef, ref), lastModified := now)];
      }
    }

    /** `removeNote`: drops that note from that book's list; an unknown book is left alone. */
    method RemoveNote(bookPath: string, ref: nat, now: int)
      requires Valid()
      modifies this
      ensures Valid() && nextRef == old(nextRef)
      ensures bookPath !in old(books) ==> books == old(books)
      ensures bookPath in old(books) ==>
                books == old(books)[bookPath := old(books)[bookPath].(
                  notes := RemoveFirst(old(books)[bookPath].notes, NoteRef, ref), lastModified := now)]
      ensures bookPath in old(books) ==>
                forall x :: x in books[bookPath].notes <==> x in old(books)[bookPath].notes && x.ref != ref
    {
      if bookPath in books {
        var b := books[bookPath];
        RemoveFirstExactly(b.notes, NoteRef, ref);
        RemoveFirstKeepsRefs(b.notes, NoteRef, ref, nextRef);
        books := books[bookPath := b.(notes := RemoveFirst(b.notes, NoteRef, ref), lastModified := now)];
      }
    }

    /**
     * `updateNote`: the note object itself gets the new content and title,
     * wherever it is listed; the given book's modification time moves on if
     * the book is known.
     */
    method UpdateNote(bookPath: string, ref: nat, newContent: string, newTitle: string, now: int)
      requires Valid()
      modifies this
      ensures Valid() && nextRef == old(nextRef)
      ensures books.Keys == old(books.Keys)
      ensures forall p :: p in books ==>
                books[p] == old(books)[p].(notes := UpdatedNotes(old(books)[p].notes, ref, newContent, newTitle, now),
                                           lastModified := if p == bookPath then now else old(books)[p].lastModified)
    {
      books := map p | p in books :: books[p].(notes := UpdatedNotes(books[p].notes, ref, newContent, newTitle, now),
                                               lastModified := if p == bookPath then now else books[p].lastModified);
    }

    /**
     * `getBookNotesStatistics`: book name to item count. Books sharing a name
     * share one key, which ends up with the count of one of them.
     */
    method GetBookNotesStatistics() returns (stats: map<string, nat>)
      ensures stats.Keys == set p | p in books :: books[p].bookName
      ensures forall name :: name in stats ==>
                exists p :: p in books && books[p].bookName == name && stats[name] == ItemCount(books[p])
      ensures forall p :: p in books && (forall q :: q in books && books[q].bookName == books[p].bookName ==> q == p) ==>
                stats[books[p].bookName] == ItemCount(books[p])
    {
      stats := map[];
      var pending := books.Keys;
      ghost var done: set<string> := {};
      while pending != {}
        invariant pending + done == books.Keys && pending !! done
        invariant stats.Keys == set p | p in done :: books[p].bookName
        invariant forall name :: name in stats ==>
                    exists p :: p in done && books[p].bookName == name && stats[name] == ItemCount(books[p])
        decreases |pending|
      {
        var p :| p in pending;
        stats := stats[books[p].bookName := ItemCount(books[p])];
        pending := pending - {p};
        done := done + {p};
      }
    }

    /** `searchNotes`: the book's matching highlights, then its matching notes; nothing for an unknown book. */
    method SearchNotes(bookPath: string, keyword: string) returns (results: seq<SearchResult>)
      ensures bookPath !in books ==> results == []
      ensures bookPath in books ==> results == SearchBook(books[bookPath], keyword)
    {
      results := [];
      if bookPath !in books {
        return;
      }
      var b := books[bookPath];
      var hits := [];
      for i := 0 to |b.highlights|
        invariant hits == FilterWith(b.highlights[..i], HighlightMatches, keyword)
      {
        FilterWithStep(b.highlights, i, HighlightMatches, keyword);
        if ContainsIgnoringCase(b.highlights[i].selectedText, keyword) ||
           ContainsIgnoringCase(b.highlights[i].note, keyword) {
          hits := hits + [b.highlights[i]];
        }
      }
      assert b.highlights[..|b.highlights|] == b.highlights;
      var noteHits := [];
      for i := 0 to |b.notes|
        invariant noteHits == FilterWith(b.notes[..i], NoteMatches, keyword)
      {
        FilterWithStep(b.notes, i, NoteMatches, keyword);
        if ContainsIgnoringCase(b.notes[i].content, keyword) || ContainsIgnoringCase(b.notes[i].title, keyword) {
          noteHits := noteHits + [b.notes[i]];
        }
      }
      assert b.notes[..|b.notes|] == b.notes;
      results := HighlightHits(hits) + NoteHits(noteHits);
    }
  }

  function GetHighlightsIn(books: map<string, BookNotes>, bookPath: string): seq<Highlight>
  {
    if bookPath in books then books[bookPath].highlights else []
  }

  function GetNotesIn(books: map<string, BookNotes>, bookPath: string): seq<Note>
  {
    if bookPath in books then books[bookPath].notes else []
  }
}
