// The pure helpers of the file manager window (FileManagerController.java):
// icons and extension rules, the special import folders, grid and list
// placement, search filtering, the rename dialog's name and the folder title.

module FileManagerController {
  import opened Wrappers
  import opened JavaText
  import opened FileManagerData

  // ---------------------------------------------------------------------
  // Extensions and icons
  // ---------------------------------------------------------------------

  const PdfIcon: string := "📄"
  const EpubIcon: string := "📚"
  const ImageIcon: string := "🖼️"
  const TextIcon: string := "📝"
  const WordIcon: string := "📘"
  const ArchiveIcon: string := "📦"
  const OtherIcon: string := "📎"

  /** The extensions `getFileIcon` draws as a picture. */
  const IconImageExtensions: set<string> := {"jpg", "jpeg", "png", "gif", "bmp"}

  /** `isImageExtension`: the exact (already lower-cased) image extensions. */
  predicate IsImageExtension(extension: string)
  {
    extension == "jpg" || extension == "jpeg" || extension == "png" || extension == "gif" ||
    extension == "bmp" || extension == "tiff" || extension == "webp"
  }

  /** `getFileIcon`: the icon for the lower-cased extension, the paper clip for anything unknown. */
  function FileIcon(extension: string): (r: string)
    ensures r == ImageIcon <==> ToLower(extension) in IconImageExtensions
    ensures r == OtherIcon <==>
              ToLower(extension) !in IconImageExtensions + {"pdf", "epub", "txt", "doc", "docx", "zip", "rar"}
    ensures r == PdfIcon <==> ToLower(extension) == "pdf"
  {
    var e := ToLower(extension);
    if e == "pdf" then PdfIcon
    else if e == "epub" then EpubIcon
    else if e in IconImageExtensions then ImageIcon
    else if e == "txt" then TextIcon
    else if e == "doc" || e == "docx" then WordIcon
    else if e == "zip" || e == "rar" then ArchiveIcon
    else OtherIcon
  }

  /** The two image formats the reader opens but the icon table does not know. */
  lemma IconMissesTwoImageFormats(extension: string)
    requires extension == ToLower(extension)
    ensures IsImageExtension(extension) && FileIcon(extension) != ImageIcon <==>
              extension == "tiff" || extension == "webp"
  {
  }

  /** The extensions `isSupportedByEReader` accepts. */
  const SupportedExtensions: set<string> :=
    {"pdf", "epub", "txt", "jpg", "jpeg", "png", "gif", "bmp", "tiff", "webp"}

  /** `isSupportedByEReader`: the file's recorded extension, lower-cased, is one the reader opens. */
  predicate IsSupportedByEReader(file: FileItem)
  {
    var extension := ToLower(file.extension);
    extension == "pdf" || extension == "epub" || IsImageExtension(extension) || extension == "txt"
  }

  lemma SupportedExactly(file: FileItem)
    ensures IsSupportedByEReader(file) <==> ToLower(file.extension) in SupportedExtensions
  {
  }

  /** `isValidFileType`: the lower-cased name's suffix decides for the three import kinds; any other kind passes. */
  predicate IsValidFileType(fileName: string, fileType: string)
  {
    var name := ToLower(fileName);
    match ToLower(fileType)
    case "pdf" => EndsWithExtension(name, "pdf")
    case "epub" => EndsWithExtension(name, "epub")
    case "images" =>
      EndsWithExtension(name, "jpg") || EndsWithExtension(name, "jpeg") || EndsWithExtension(name, "png") ||
      EndsWithExtension(name, "gif") || EndsWithExtension(name, "bmp") || EndsWithExtension(name, "tiff") ||
      EndsWithExtension(name, "webp")
    case _ => true
  }

  /** `name.endsWith("." + ext)`. */
  predicate EndsWithExtension(name: string, ext: string)
  {
    EndsWith(name, "." + ext)
  }

  /** Lower-casing keeps dots where they are and makes none. */
  lemma ToLowerDots(s: string, i: nat)
    requires i < |s|
    ensures ToLower(s)[i] == '.' <==> s[i] == '.'
  {
  }

  /** Lower-casing commutes with taking a tail. */
  lemma ToLowerTail(s: string, i: nat)
    requires i <= |s|
    ensures ToLower(s)[i..] == ToLower(s[i..])
  {
  }

  /** A string whose lower-cased form has no dot has none. */
  lemma NoDotBelowLower(t: string)
    requires '.' !in ToLower(t)
    ensures '.' !in t
  {
    forall k | 0 <= k < |t|
      ensures t[k] != '.'
    {
      ToLowerDots(t, k);
    }
  }

  /**
   * For a name whose last dot is not its first character, ending in "." + ext
   * (ignoring case) is the same as having the extension ext.
   */
  lemma SuffixIsExtension(fileName: string, ext: string)
    requires LastIndexOfChar(fileName, '.') > 0
    requires '.' !in ext && ToLower(ext) == ext
    ensures EndsWithExtension(ToLower(fileName), ext) <==> GetFileExtension(fileName) == ext
  {
    if GetFileExtension(fileName) == ext {
      ExtensionGivesSuffix(fileName, ext);
    }
    if EndsWithExtension(ToLower(fileName), ext) {
      SuffixGivesExtension(fileName, ext);
    }
  }

  lemma ExtensionGivesSuffix(fileName: string, ext: string)
    requires LastIndexOfChar(fileName, '.') > 0 && GetFileExtension(fileName) == ext
    ensures EndsWithExtension(ToLower(fileName), ext)
  {
    var d := LastIndexOfChar(fileName, '.');
    ToLowerTail(fileName, d + 1);
    ToLowerDots(fileName, d);
    DotThenTail(ToLower(fileName), d, ext);
  }

  /** A string whose character at `d` is a dot followed by `ext` ends with "." + ext. */
  lemma DotThenTail(s: string, d: nat, ext: string)
    requires d < |s| && s[d] == '.' && s[d + 1..] == ext
    ensures EndsWithExtension(s, ext)
  {
    assert s[d..] == [s[d]] + s[d + 1..];
  }

  /** A string ending with "." + ext has a dot at |s| - |ext| - 1 and `ext` after it. */
  lemma TailAfterDot(s: string, ext: string) returns (e: nat)
    requires EndsWithExtension(s, ext)
    ensures e == |s| - |ext| - 1 && s[e] == '.' && s[e + 1..] == ext
  {
    e := |s| - |ext| - 1;
    assert s[e..] == "." + ext;
    assert s[e] == s[e..][0];
    assert s[e + 1..] == s[e..][1..];
  }

  lemma SuffixGivesExtension(fileName: string, ext: string)
    requires LastIndexOfChar(fileName, '.') > 0
    requires '.' !in ext && EndsWithExtension(ToLower(fileName), ext)
    ensures GetFileExtension(fileName) == ext
  {
    var low := ToLower(fileName);
    var e := TailAfterDot(low, ext);
    ToLowerDots(fileName, e);
    ToLowerTail(fileName, e + 1);
    assert ToLower(fileName[e + 1..]) == ext;
    NoDotBelowLower(fileName[e + 1..]);
    LastDotAt(fileName, e);
    ExtensionAfterLastDot(fileName, e);
  }

  /** A dot with no dot after it is the last dot. */
  lemma LastDotAt(s: string, e: nat)
    requires e < |s| && s[e] == '.' && '.' !in s[e + 1..]
    ensures LastIndexOfChar(s, '.') == e
  {
  }

  /**
   * For names with a proper extension, the import filter agrees with the
   * extension the library records: a "pdf" or "epub" import accepts exactly
   * that extension, an "images" import exactly the image extensions.
   */
  lemma ValidTypeMatchesExtension(fileName: string)
    requires LastIndexOfChar(fileName, '.') > 0
    ensures IsValidFileType(fileName, "pdf") <==> GetFileExtension(fileName) == "pdf"
    ensures IsValidFileType(fileName, "epub") <==> GetFileExtension(fileName) == "epub"
    ensures IsValidFileType(fileName, "images") <==> IsImageExtension(GetFileExtension(fileName))
  {
    DocumentFilterCases(fileName);
    assert ToLower("pdf") == "pdf" && ToLower("epub") == "epub";
    SuffixIsExtension(fileName, "pdf");
    SuffixIsExtension(fileName, "epub");
    ImagesMatchExtension(fileName);
  }

  lemma ImagesMatchExtension(fileName: string)
    requires LastIndexOfChar(fileName, '.') > 0
    ensures IsValidFileType(fileName, "images") <==> IsImageExtension(GetFileExtension(fileName))
  {
    ImageFilterCases(fileName);
    ImageSuffixesMatch(fileName);
  }

  /** The seven image suffixes, each tested as in `SuffixIsExtension`. */
  lemma ImageSuffixesMatch(fileName: string)
    requires LastIndexOfChar(fileName, '.') > 0
    ensures var low := ToLower(fileName);
      (EndsWithExtension(low, "jpg") || EndsWithExtension(low, "jpeg") || EndsWithExtension(low, "png") ||
       EndsWithExtension(low, "gif") || EndsWithExtension(low, "bmp") || EndsWithExtension(low, "tiff") ||
       EndsWithExtension(low, "webp")) <==> IsImageExtension(GetFileExtension(fileName))
  {
    ImageExtensionsLower();
    SuffixIsExtension(fileName, "jpg");
    SuffixIsExtension(fileName, "jpeg");
    SuffixIsExtension(fileName, "png");
    SuffixIsExtension(fileName, "gif");
    SuffixIsExtension(fileName, "bmp");
    SuffixIsExtension(fileName, "tiff");
    SuffixIsExtension(fileName, "webp");
  }

  /** The image extensions are already lower case. */
  lemma ImageExtensionsLower()
    ensures ToLower("jpg") == "jpg" && ToLower("jpeg") == "jpeg" && ToLower("png") == "png"
    ensures ToLower("gif") == "gif" && ToLower("bmp") == "bmp" && ToLower("tiff") == "tiff"
    ensures ToLower("webp") == "webp"
  {
  }

  /** The "pdf" and "epub" import kinds test their own suffix. */
  lemma DocumentFilterCases(fileName: string)
    ensures IsValidFileType(fileName, "pdf") == EndsWithExtension(ToLower(fileName), "pdf")
    ensures IsValidFileType(fileName, "epub") == EndsWithExtension(ToLower(fileName), "epub")
  {
    assert ToLower("pdf") == "pdf";
    assert ToLower("epub") == "epub";
  }

  /** The "images" import kind tests the seven image suffixes. */
  lemma ImageFilterCases(fileName: string)
    ensures var low := ToLower(fileName);
      IsValidFileType(fileName, "images") ==
      (EndsWithExtension(low, "jpg") || EndsWithExtension(low, "jpeg") || EndsWithExtension(low, "png") ||
       EndsWithExtension(low, "gif") || EndsWithExtension(low, "bmp") || EndsWithExtension(low, "tiff") ||
       EndsWithExtension(low, "webp"))
  {
    assert ToLower("images") == "images";
  }

  /** A hidden file called ".pdf" passes the pdf import filter although its recorded extension is empty. */
  lemma HiddenPdfPassesFilter()
    ensures IsValidFileType(".pdf", "pdf") && GetFileExtension(".pdf") == []
  {
    assert ToLower("pdf") == "pdf";
    assert ToLower(".pdf") == ".pdf";
    assert ".pdf" == "." + "pdf";
    assert LastIndexOfChar(".pdf", '.') == 0 by {
      assert ".pdf"[0] == '.';
      assert forall k :: 0 < k < 4 ==> ".pdf"[k] != '.';
    }
  }

  // ---------------------------------------------------------------------
  // The special import folders
  // ---------------------------------------------------------------------

  /** The root folder each import kind goes to; none for an unknown kind. */
  function SpecialFolderName(folderType: string): (r: Option<string>)
    ensures r.Some? <==> ToLower(folderType) in {"pdf", "epub", "images"}
    ensures r.Some? ==> r.value in {"PDF文件", "電子書", "圖片"}
  {
    match ToLower(folderType)
    case "pdf" => Some("PDF文件")
    case "epub" => Some("電子書")
    case "images" => Some("圖片")
    case _ => None
  }

  /** Different import kinds use different folders. */
  lemma SpecialFolderNamesDistinct(a: string, b: string)
    requires SpecialFolderName(a).Some? && SpecialFolderName(a) == SpecialFolderName(b)
    ensures ToLower(a) == ToLower(b)
  {
  }

  /** The folders directly in the library root called `name`. */
  function RootFoldersNamed(folders: Folders, name: string): set<string>
  {
    set k | k in folders && folders[k].parentId == Root && folders[k].name == name
  }

  /**
   * `ensureSpecialFolderExists`: the id of the root folder for the import
   * kind, reusing one already called so and creating it otherwise;
   * `newId`, `now` and `diskOk` stand for the fresh UUID, the clock and the
   * directory creation.
   */
  method EnsureSpecialFolderExists(data: FileManagerData, folderType: string, newId: string, now: int, diskOk: bool)
    returns (r: Option<string>)
    requires data.Valid()
    requires newId != Root && newId !in data.folders
    requires forall k :: k in data.folders ==> data.folders[k].parentId != newId
    modifies data
    ensures data.Valid()
    ensures SpecialFolderName(folderType).None? ==> r.None? && data.folders == old(data.folders)
    ensures SpecialFolderName(folderType).Some? ==>
              var name := SpecialFolderName(folderType).value;
              // an existing folder is reused and nothing changes
              (RootFoldersNamed(old(data.folders), name) != {} ==>
                 r.Some? && r.value in RootFoldersNamed(old(data.folders), name) &&
                 data.folders == old(data.folders)) &&
              // otherwise one is created, if the disk allows it
              (RootFoldersNamed(old(data.folders), name) == {} ==>
                 (r.Some? <==> diskOk) &&
                 (r.Some? ==> r.value == newId &&
                              data.folders == old(data.folders)[newId := FolderItem(newId, name, Root, now)]) &&
                 (r.None? ==> data.folders == old(data.folders)))
    ensures data.files == old(data.files)
    ensures SiblingNamesUnique(old(data.folders)) ==> SiblingNamesUnique(data.folders)
  {
    var special := SpecialFolderName(folderType);
    if special.None? {
      return None;
    }
    var name := special.value;
    var found := FindRootFolder(data, name);
    if found.Some? {
      return found;
    }
    assert !NameTaken(data.folders, Root, name) by {
      assert forall k :: k in data.folders && data.folders[k].parentId == Root && data.folders[k].name == name ==>
        k in RootFoldersNamed(data.folders, name);
    }
    var created := data.CreateFolder(name, Root, newId, now, diskOk);
    if !created {
      return None;
    }
    assert RootFoldersNamed(data.folders, name) == {newId};
    r := FindRootFolder(data, name);
  }

  /** The search of the sorted root listing for a folder called `name`. */
  method FindRootFolder(data: FileManagerData, name: string) returns (r: Option<string>)
    requires data.Valid()
    ensures r.Some? <==> RootFoldersNamed(data.folders, name) != {}
    ensures r.Some? ==> r.value in RootFoldersNamed(data.folders, name)
  {
    var rootFolders := data.GetFolders(Root);
    var i := 0;
    while i < |rootFolders|
      invariant i <= |rootFolders|
      invariant forall j :: 0 <= j < i ==> rootFolders[j].name != name
    {
      if rootFolders[i].name == name {
        var x := rootFolders[i];
        assert x in data.folders.Values;
        var k :| k in data.folders && data.folders[k] == x;
        assert k == x.id && x.parentId == Root;
        assert x.id in RootFoldersNamed(data.folders, name);
        return Some(x.id);
      }
      i := i + 1;
    }
    return None;
  }

  /** Under unique sibling names the root folder for a kind is the only one so called. */
  lemma SpecialFolderUnique(folders: Folders, name: string, x: string, y: string)
    requires SiblingNamesUnique(folders)
    requires x in RootFoldersNamed(folders, name) && y in RootFoldersNamed(folders, name)
    ensures x == y
  {
  }

  // ---------------------------------------------------------------------
  // Grid and list placement
  // ---------------------------------------------------------------------

  /** One card or row of the view: a folder or a file. */
  datatype Entry = FolderEntry(folder: FolderItem) | FileEntry(file: FileItem)

  /** A cell of the view's grid. */
  datatype Placement = Placement(entry: Entry, column: nat, row: nat)

  /** Cards per grid row. */
  const MaxColumns: nat := 5

  /** The entries in display order: folders first, then files. */
  function Entries(folders: seq<FolderItem>, files: seq<FileItem>): (r: seq<Entry>)
    ensures |r| == |folders| + |files|
    ensures forall k :: 0 <= k < |folders| ==> r[k] == FolderEntry(folders[k])
    ensures forall k :: |folders| <= k < |r| ==> r[k] == FileEntry(files[k - |folders|])
  {
    seq(|folders|, k requires 0 <= k < |folders| => FolderEntry(folders[k])) +
    seq(|files|, k requires 0 <= k < |files| => FileEntry(files[k]))
  }

  /**
   * `refreshGridView` (and `displayFilteredItemsGrid`): the k-th entry goes
   * to column k mod 5 of row k div 5.
   */
  method PlaceInGrid(folders: seq<FolderItem>, files: seq<FileItem>) returns (cells: seq<Placement>)
    ensures |cells| == |folders| + |files|
    ensures forall k :: 0 <= k < |cells| ==>
              cells[k] == Placement(Entries(folders, files)[k], k % MaxColumns, k / MaxColumns)
  {
    var column: nat := 0;
    var row: nat := 0;
    cells := [];
    for i := 0 to |folders|
      invariant |cells| == i
      invariant column == i % MaxColumns && row == i / MaxColumns
      invariant forall k :: 0 <= k < i ==> cells[k] == Placement(FolderEntry(folders[k]), k % MaxColumns, k / MaxColumns)
    {
      cells := cells + [Placement(FolderEntry(folders[i]), column, row)];
      column := column + 1;
      if column >= MaxColumns {
        column := 0;
        row := row + 1;
      }
    }
    for i := 0 to |files|
      invariant |cells| == |folders| + i
      invariant column == |cells| % MaxColumns && row == |cells| / MaxColumns
      invariant forall k :: 0 <= k < |folders| ==> cells[k] == Placement(FolderEntry(folders[k]), k % MaxColumns, k / MaxColumns)
      invariant forall k :: |folders| <= k < |cells| ==>
                  cells[k] == Placement(FileEntry(files[k - |folders|]), k % MaxColumns, k / MaxColumns)
    {
      cells := cells + [Placement(FileEntry(files[i]), column, row)];
      column := column + 1;
      if column >= MaxColumns {
        column := 0;
        row := row + 1;
      }
    }
  }

  /** `refreshListView` (and `displayFilteredItemsList`): the k-th entry goes to row k of the only column. */
  method PlaceInList(folders: seq<FolderItem>, files: seq<FileItem>) returns (cells: seq<Placement>)
    ensures |cells| == |folders| + |files|
    ensures forall k :: 0 <= k < |cells| ==> cells[k] == Placement(Entries(folders, files)[k], 0, k)
  {
    var row: nat := 0;
    cells := [];
    for i := 0 to |folders|
      invariant |cells| == i == row
      invariant forall k :: 0 <= k < i ==> cells[k] == Placement(FolderEntry(folders[k]), 0, k)
    {
      cells := cells + [Placement(FolderEntry(folders[i]), 0, row)];
      row := row + 1;
    }
    for i := 0 to |files|
      invariant |cells| == |folders| + i == row
      invariant forall k :: 0 <= k < |folders| ==> cells[k] == Placement(FolderEntry(folders[k]), 0, k)
      invariant forall k :: |folders| <= k < |cells| ==> cells[k] == Placement(FileEntry(files[k - |folders|]), 0, k)
    {
      cells := cells + [Placement(FileEntry(files[i]), 0, row)];
      row := row + 1;
    }
  }

  /** No two entries of the grid share a cell, and no row holds more than five. */
  lemma GridCellsDistinct(j: nat, k: nat)
    requires j != k
    ensures (j % MaxColumns, j / MaxColumns) != (k % MaxColumns, k / MaxColumns)
    ensures j % MaxColumns < MaxColumns
  {
    assert j == MaxColumns * (j / MaxColumns) + j % MaxColumns;
    assert k == MaxColumns * (k / MaxColumns) + k % MaxColumns;
  }

  // ---------------------------------------------------------------------
  // Search
  // ---------------------------------------------------------------------

  /** The lower-cased name contains the lower-cased search text. */
  predicate FolderMatches(needle: string, f: FolderItem) { Contains(ToLower(f.name), needle) }
  predicate FileMatches(needle: string, f: FileItem) { Contains(ToLower(f.name), needle) }

  /**
   * `filterFiles`: the current folders and files whose lower-cased name
   * contains the lower-cased search text, in their order; an absent or blank
   * search shows everything.
   */
  function FilterFiles(folders: seq<FolderItem>, files: seq<FileItem>, searchText: Option<string>)
    : (r: (seq<FolderItem>, seq<FileItem>))
    ensures searchText.None? || IsBlank(searchText.value) ==> r == (folders, files)
    ensures searchText.Some? && !IsBlank(searchText.value) ==>
              (forall x :: x in r.0 <==> x in folders && Contains(ToLower(x.name), ToLower(searchText.value))) &&
              (forall x :: x in r.1 <==> x in files && Contains(ToLower(x.name), ToLower(searchText.value)))
    ensures searchText.Some? && !IsBlank(searchText.value) ==>
              r == (FilterWith(folders, FolderMatches, ToLower(searchText.value)),
                    FilterWith(files, FileMatches, ToLower(searchText.value)))
    ensures |r.0| <= |folders| && |r.1| <= |files|
  {
    if searchText.None? || IsBlank(searchText.value) then (folders, files)
    else
      var needle := ToLower(searchText.value);
      FilterWithMembers(folders, FolderMatches, needle);
      FilterWithMembers(files, FileMatches, needle);
      (FilterWith(folders, FolderMatches, needle), FilterWith(files, FileMatches, needle))
  }

  /**
   * The search keeps the input order and every repetition: searching two
   * concatenated listings gives the two results concatenated, and a single
   * entry is kept exactly when it matches.
   */
  lemma FilterFilesKeepsOrder(folders: seq<FolderItem>, moreFolders: seq<FolderItem>,
                              files: seq<FileItem>, moreFiles: seq<FileItem>, searchText: string)
    requires !IsBlank(searchText)
    ensures FilterFiles(folders + moreFolders, files + moreFiles, Some(searchText)) ==
              (FilterFiles(folders, files, Some(searchText)).0 + FilterFiles(moreFolders, moreFiles, Some(searchText)).0,
               FilterFiles(folders, files, Some(searchText)).1 + FilterFiles(moreFolders, moreFiles, Some(searchText)).1)
  {
    FilterWithAppend(folders, moreFolders, FolderMatches, ToLower(searchText));
    FilterWithAppend(files, moreFiles, FileMatches, ToLower(searchText));
  }

  /** A listing of one folder and one file keeps each exactly when its name matches. */
  lemma FilterFilesSingle(folder: FolderItem, file: FileItem, searchText: string)
    requires !IsBlank(searchText)
    ensures FilterFiles([folder], [file], Some(searchText)) ==
              (if Contains(ToLower(folder.name), ToLower(searchText)) then [folder] else [],
               if Contains(ToLower(file.name), ToLower(searchText)) then [file] else [])
  {
    FilterWithFirst([folder], FolderMatches, ToLower(searchText));
    FilterWithFirst([file], FileMatches, ToLower(searchText));
    assert [folder][1..] == [] && [file][1..] == [];
    var r := FilterFiles([folder], [file], Some(searchText));
    assert r.0 == (if Contains(ToLower(folder.name), ToLower(searchText)) then [folder] else []);
    assert r.1 == (if Contains(ToLower(file.name), ToLower(searchText)) then [file] else []);
  }

  // ---------------------------------------------------------------------
  // Rename dialog and folder title
  // ---------------------------------------------------------------------

  /**
   * `renameFileDialog`: the new name is the trimmed input followed by the
   * old name's extension from its last dot. A name without a dot makes the
   * dialog fail before it opens, and a blank input renames nothing.
   */
  function RenamedFileName(oldName: string, input: string): (r: Option<string>)
    ensures r.Some? <==> '.' in oldName && Trim(input) != []
    ensures r.Some? ==>
              var n := |Trim(input)|;
              // the trimmed input, then a tail of the old name that starts at a dot and holds no other
              n < |r.value| && r.value[..n] == Trim(input) && EndsWith(oldName, r.value[n..]) &&
              r.value[n] == '.' && '.' !in r.value[n + 1..]
  {
    var d := LastIndexOfChar(oldName, '.');
    if d < 0 || Trim(input) == [] then None
    else
      var name := Trim(input) + oldName[d..];
      assert name[|Trim(input)|..] == oldName[d..];
      Some(name)
  }

  /** The extension of a name whose last dot, not its first character, is at e. */
  lemma ExtensionAfterLastDot(s: string, e: nat)
    requires 0 < e < |s| && s[e] == '.' && '.' !in s[e + 1..]
    ensures GetFileExtension(s) == ToLower(s[e + 1..])
  {
    LastDotAt(s, e);
  }

  /** Appending a tail that starts at a dot and holds no other puts the last dot there. */
  lemma DotTailAppended(t: string, tail: string)
    requires tail != [] && tail[0] == '.' && '.' !in tail[1..]
    ensures (t + tail)[|t|] == '.' && (t + tail)[|t| + 1..] == tail[1..]
  {
    assert (t + tail)[|t|] == tail[0];
    assert (t + tail)[|t| + 1..] == tail[1..];
  }

  /** A renamed file keeps the extension the library records for it, whenever its old name had one. */
  lemma RenameKeepsExtension(oldName: string, input: string)
    requires LastIndexOfChar(oldName, '.') > 0 && Trim(input) != []
    ensures RenamedFileName(oldName, input).Some?
    ensures GetFileExtension(RenamedFileName(oldName, input).value) == GetFileExtension(oldName)
  {
    var d := LastIndexOfChar(oldName, '.');
    var t := Trim(input);
    var tail := oldName[d..];
    assert RenamedFileName(oldName, input) == Some(t + tail);
    assert tail[1..] == oldName[d + 1..];
    DotTailAppended(t, tail);
    ExtensionAfterLastDot(t + tail, |t|);
    ExtensionAfterLastDot(oldName, d);
  }

  /**
   * A hidden file such as ".txt" has no extension; renaming it to a
   * non-blank input keeps the whole old name as the extension part, so the
   * new name has one.
   */
  lemma RenameOfHiddenFileGainsExtension(ext: string, input: string)
    requires '.' !in ext && Trim(input) != []
    ensures GetFileExtension("." + ext) == []
    ensures RenamedFileName("." + ext, input) == Some(Trim(input) + "." + ext)
    ensures GetFileExtension(Trim(input) + "." + ext) == ToLower(ext)
  {
    var hidden := "." + ext;
    var t := Trim(input);
    assert hidden[1..] == ext;
    LastDotAt(hidden, 0);
    assert hidden[0..] == hidden;
    assert RenamedFileName(hidden, input) == Some(t + hidden);
    assert t + hidden == t + "." + ext;
    DotTailAppended(t, hidden);
    ExtensionAfterLastDot(t + hidden, |t|);
  }

  const RootDisplayName: string := "根目錄"
  const UnknownFolderDisplayName: string := "未知資料夾"

  /** `getCurrentFolderDisplayName`: the title of the folder being shown. */
  function CurrentFolderDisplayName(data: FileManagerData, currentFolderId: string): (r: string)
    requires data.Valid()
    reads data
    ensures currentFolderId == Root ==> r == RootDisplayName
    ensures currentFolderId != Root && currentFolderId in data.folders ==> r == data.folders[currentFolderId].name
    ensures currentFolderId != Root && currentFolderId !in data.folders ==> r == UnknownFolderDisplayName
  {
    if currentFolderId == Root then RootDisplayName
    else
      match data.GetFolder(currentFolderId)
      case Some(folder) => folder.name
      case None => UnknownFolderDisplayName
  }
}
