/**
 * The file manager's folder and file tables (FileManagerData.java): the two
 * tables keyed by id, the queries over them, and the operations that create,
 * rename, move and delete entries.  The library directory on disk is reduced
 * to what the operations observe of it: which paths exist (a parameter) and
 * whether a disk operation succeeds (a parameter); a deletion reports the
 * directories it asks the disk to remove.
 */
module FileManagerData {
  import opened Wrappers
  import opened JavaText

  // ---------------------------------------------------------------------
  // Paths
  // ---------------------------------------------------------------------

  /** An absolute filesystem path, as its name components below the filesystem root. */
  type Path = seq<string>

  /** `Path.resolve(name)` for a single name: an empty name leaves the path unchanged. */
  function Resolve(dir: Path, name: string): Path
  {
    if name == [] then dir else dir + [name]
  }

  /** The names resolved one after another below `base`, as the loop of `getPhysicalPath` does. */
  function ResolveAll(base: Path, names: seq<string>): Path
    decreases |names|
  {
    if names == [] then base else Resolve(ResolveAll(base, names[..|names| - 1]), names[|names| - 1])
  }

  predicate IsPrefix(p: Path, q: Path) { |p| <= |q| && q[..|p|] == p }

  /** Resolving names only ever extends a path. */
  lemma {:induction false} ResolveAllExtends(base: Path, names: seq<string>)
    ensures IsPrefix(base, ResolveAll(base, names))
    decreases |names|
  {
    if names != [] {
      ResolveAllExtends(base, names[..|names| - 1]);
    }
  }

  /** Resolving a longer list of names extends the path of a shorter one. */
  lemma {:induction false} ResolveAllAppend(base: Path, ns: seq<string>, ms: seq<string>)
    ensures ResolveAll(base, ns + ms) == ResolveAll(ResolveAll(base, ns), ms)
    decreases |ms|
  {
    if ms == [] {
      assert ns + ms == ns;
    } else {
      assert (ns + ms)[..|ns + ms| - 1] == ns + ms[..|ms| - 1];
      ResolveAllAppend(base, ns, ms[..|ms| - 1]);
    }
  }

  /** `Path.getFileName()`: the last component, none for the filesystem root. */
  function FileName(p: Path): Option<string>
  {
    if p == [] then None else Some(p[|p| - 1])
  }

  /** `Path.getParent()`: all but the last component, none for the filesystem root. */
  function ParentOf(p: Path): Option<Path>
  {
    if p == [] then None else Some(p[..|p| - 1])
  }

  // ---------------------------------------------------------------------
  // File names
  // ---------------------------------------------------------------------

  /**
   * `getFileExtension`: the lower-cased text after the last dot, or "" when
   * there is no dot or the only dot starts the name.
   */
  function GetFileExtension(fileName: string): (r: string)
    ensures '.' !in r
    ensures LastIndexOfChar(fileName, '.') <= 0 ==> r == []
    ensures LastIndexOfChar(fileName, '.') > 0 ==>
              |r| == |fileName| - LastIndexOfChar(fileName, '.') - 1
  {
    var lastDot := LastIndexOfChar(fileName, '.');
    if lastDot > 0 then ToLower(fileName[lastDot + 1..]) else []
  }

  /**
   * The base name and the extension (with its dot) that `importFile` and
   * `moveFile` split a name into before numbering it: the split is at the last
   * dot when that dot is not the first character.
   */
  function SplitName(name: string): (r: (string, string))
    ensures r.0 + r.1 == name
    ensures r.1 != [] ==> r.1[0] == '.' && '.' !in r.1[1..] && r.0 != []
    ensures r.1 == [] <==> LastIndexOfChar(name, '.') <= 0
  {
    var lastDot := LastIndexOfChar(name, '.');
    if lastDot > 0 then (name[..lastDot], name[lastDot..]) else (name, [])
  }

  /** The extension of a name is the lower-cased extension part of its split, without the dot. */
  lemma ExtensionOfSplit(name: string)
    ensures SplitName(name).1 == [] ==> GetFileExtension(name) == []
    ensures SplitName(name).1 != [] ==> GetFileExtension(name) == ToLower(SplitName(name).1[1..])
  {
    var d := LastIndexOfChar(name, '.');
    if d > 0 {
      assert name[d..][1..] == name[d + 1..];
    }
  }

  /** The n-th collision candidate, "base (n)ext". */
  function Candidate(base: string, ext: string, n: nat): string
  {
    base + " (" + NatToString(n) + ")" + ext
  }

  /** Different counters give different candidates. */
  lemma CandidateInjective(base: string, ext: string, m: nat, n: nat)
    requires Candidate(base, ext, m) == Candidate(base, ext, n)
    ensures m == n
  {
    var cm, cn := Candidate(base, ext, m), Candidate(base, ext, n);
    var sm, sn := NatToString(m), NatToString(n);
    assert |sm| == |sn| by {
      assert |cm| == |base| + 3 + |sm| + |ext|;
      assert |cn| == |base| + 3 + |sn| + |ext|;
    }
    assert sm == sn by {
      assert cm[|base| + 2..|base| + 2 + |sm|] == sm;
      assert cn[|base| + 2..|base| + 2 + |sn|] == sn;
    }
    NatToStringInjective(m, n);
  }

  /** Where the last occurrence of a character lies in a concatenation. */
  lemma {:induction false} LastIndexOfAppend(x: string, y: string, c: char)
    ensures c in y ==> LastIndexOfChar(x + y, c) == |x| + LastIndexOfChar(y, c)
    ensures c !in y ==> LastIndexOfChar(x + y, c) == LastIndexOfChar(x, c)
    decreases |y|
  {
    if y == [] {
      assert x + y == x;
    } else {
      var y' := y[..|y| - 1];
      assert (x + y)[..|x + y| - 1] == x + y';
      assert (x + y)[|x + y| - 1] == y[|y| - 1];
      if y[|y| - 1] != c {
        assert c in y <==> c in y' by {
          if c in y { var k :| 0 <= k < |y| && y[k] == c; assert y'[k] == c; }
          if c in y' { var k :| 0 <= k < |y'| && y'[k] == c; assert y[k] == c; }
        }
        LastIndexOfAppend(x, y', c);
      }
    }
  }

  /** The numbered part " (n)" of a candidate holds no dot. */
  lemma CounterHasNoDot(n: nat)
    ensures '.' !in " (" + NatToString(n) + ")"
  {
    var digits := NatToString(n);
    var t := " (" + digits + ")";
    forall i | 0 <= i < |t|
      ensures t[i] != '.'
    {
      if 2 <= i < 2 + |digits| {
        assert t[i] == digits[i - 2];
        assert IsDigit(digits[i - 2]);
      }
    }
  }

  /** A numbered copy keeps the extension of the name it was made from. */
  lemma CandidateKeepsExtension(name: string, n: nat)
    ensures GetFileExtension(Candidate(SplitName(name).0, SplitName(name).1, n)) == GetFileExtension(name)
  {
    var (base, ext) := SplitName(name);
    var mid := " (" + NatToString(n) + ")";
    CounterHasNoDot(n);
    assert Candidate(base, ext, n) == base + mid + ext;
    if ext == [] {
      assert base + mid + ext == base + mid;
      UndottedInsert(base, mid);
    } else {
      DottedInsert(base, mid, ext);
    }
  }

  /** Text without dots appended to a name without an extension leaves it without one. */
  lemma UndottedInsert(base: string, mid: string)
    requires LastIndexOfChar(base, '.') <= 0
    requires '.' !in mid
    ensures GetFileExtension(base + mid) == []
  {
    LastIndexOfAppend(base, mid, '.');
  }

  /** Text without dots inserted before the extension keeps the extension. */
  lemma DottedInsert(base: string, mid: string, ext: string)
    requires base != [] && ext != [] && ext[0] == '.' && '.' !in ext[1..]
    requires '.' !in mid
    ensures GetFileExtension(base + mid + ext) == GetFileExtension(base + ext)
  {
    assert LastIndexOfChar(ext, '.') == 0;
    var head := base + mid;
    assert GetFileExtension(head + ext) == ToLower(ext[1..]) by {
      LastIndexOfAppend(head, ext, '.');
      TailAfter(head, ext);
    }
    assert GetFileExtension(base + ext) == ToLower(ext[1..]) by {
      LastIndexOfAppend(base, ext, '.');
      TailAfter(base, ext);
    }
  }

  lemma TailAfter(x: string, y: string)
    requires y != []
    ensures (x + y)[|x| + 1..] == y[1..]
  {
  }

  /**
   * `name` is the one the collision search settles on in `dir`: the original
   * name when it is free, otherwise the first free candidate "base (n)ext"
   * with n >= 1, every smaller candidate being taken.
   */
  ghost predicate PicksFreeName(dir: Path, originalName: string, existing: set<Path>, name: string)
  {
    var (base, ext) := SplitName(originalName);
    if Resolve(dir, originalName) !in existing then name == originalName
    else exists n: nat :: 1 <= n && name == Candidate(base, ext, n) && Resolve(dir, name) !in existing &&
           forall j :: 1 <= j < n ==> Resolve(dir, Candidate(base, ext, j)) in existing
  }

  /** The collision rule names exactly one file: two names it picks are equal. */
  lemma PicksFreeNameUnique(dir: Path, originalName: string, existing: set<Path>, a: string, b: string)
    requires PicksFreeName(dir, originalName, existing, a)
    requires PicksFreeName(dir, originalName, existing, b)
    ensures a == b
  {
    var (base, ext) := SplitName(originalName);
    if Resolve(dir, originalName) in existing {
      var m: nat :| 1 <= m && a == Candidate(base, ext, m) && Resolve(dir, a) !in existing &&
                    forall j :: 1 <= j < m ==> Resolve(dir, Candidate(base, ext, j)) in existing;
      var n: nat :| 1 <= n && b == Candidate(base, ext, n) && Resolve(dir, b) !in existing &&
                    forall j :: 1 <= j < n ==> Resolve(dir, Candidate(base, ext, j)) in existing;
      if m < n {
        assert false;
      } else if n < m {
        assert false;
      }
    }
  }

  /**
   * The collision search of `importFile` (and the do-while of `moveFile`):
   * keep the name when it is free in `dir`, otherwise take the first counter
   * n >= 1 whose candidate "base (n)ext" is free.  `counter` is 0 when the
   * original name was kept.
   */
  method FreeName(dir: Path, originalName: string, existing: set<Path>) returns (name: string, counter: nat)
    ensures Resolve(dir, name) !in existing
    ensures counter == 0 <==> Resolve(dir, originalName) !in existing
    ensures counter == 0 ==> name == originalName
    ensures counter > 0 ==> name == Candidate(SplitName(originalName).0, SplitName(originalName).1, counter)
    ensures forall j :: 1 <= j < counter ==>
              Resolve(dir, Candidate(SplitName(originalName).0, SplitName(originalName).1, j)) in existing
    ensures PicksFreeName(dir, originalName, existing, name)
  {
    var (base, ext) := SplitName(originalName);
    name := originalName;
    counter := 0;
    ghost var tried: set<Path> := {};
    while Resolve(dir, name) in existing
      invariant counter == 0 ==> name == originalName
      invariant counter > 0 ==> name == Candidate(base, ext, counter)
      invariant counter > 0 ==> Resolve(dir, originalName) in existing
      invariant forall j :: 1 <= j < counter ==> Resolve(dir, Candidate(base, ext, j)) in existing
      invariant tried <= existing
      invariant |tried| == if counter == 0 then 0 else counter - 1
      invariant forall p :: p in tried ==> exists j :: 1 <= j < counter && p == dir + [Candidate(base, ext, j)]
      decreases |existing| - |tried| + (if counter == 0 then 1 else 0)
    {
      SubsetCard(tried, existing);
      if counter > 0 {
        var p := dir + [name];
        CandidateNotTried(dir, base, ext, counter, tried);
        tried := tried + {p};
        SubsetCard(tried, existing);
      }
      ghost var counter0, name0 := counter, name;
      counter := counter + 1;
      name := Candidate(base, ext, counter);
      TakenStep(dir, base, ext, existing, counter0, name0, counter);
    }
  }

  /** The name just found taken joins the taken candidates below the next counter. */
  lemma TakenStep(dir: Path, base: string, ext: string, existing: set<Path>, counter0: nat, name0: string, counter: nat)
    requires counter == counter0 + 1
    requires forall j :: 1 <= j < counter0 ==> Resolve(dir, Candidate(base, ext, j)) in existing
    requires counter0 > 0 ==> name0 == Candidate(base, ext, counter0)
    requires Resolve(dir, name0) in existing
    ensures forall j :: 1 <= j < counter ==> Resolve(dir, Candidate(base, ext, j)) in existing
  {
  }

  /** The candidate for `counter` is none of the paths tried with smaller counters. */
  lemma CandidateNotTried(dir: Path, base: string, ext: string, counter: nat, tried: set<Path>)
    requires forall p :: p in tried ==> exists j :: 1 <= j < counter && p == dir + [Candidate(base, ext, j)]
    ensures dir + [Candidate(base, ext, counter)] !in tried
  {
    var p := dir + [Candidate(base, ext, counter)];
    if p in tried {
      var j :| 1 <= j < counter && p == dir + [Candidate(base, ext, j)];
      assert p[|dir|] == Candidate(base, ext, j);
      CandidateInjective(base, ext, j, counter);
    }
  }

  lemma {:induction false} SubsetCard<T>(a: set<T>, b: set<T>)
    requires a <= b
    ensures |a| <= |b|
    decreases |a|
  {
    if a != {} {
      var x :| x in a;
      SubsetCard(a - {x}, b - {x});
    }
  }

  // ---------------------------------------------------------------------
  // Name order
  // ---------------------------------------------------------------------

  /** `a.compareTo(b) <= 0`: lexicographic order on characters, a prefix first. */
  predicate NameLe(a: string, b: string)
    decreases |a|
  {
    a == [] || (b != [] && (a[0] < b[0] || (a[0] == b[0] && NameLe(a[1..], b[1..]))))
  }

  lemma {:induction false} NameLeTotal(a: string, b: string)
    ensures NameLe(a, b) || NameLe(b, a)
    decreases |a|
  {
    if a != [] && b != [] && a[0] == b[0] {
      NameLeTotal(a[1..], b[1..]);
    }
  }

  lemma {:induction false} NameLeTrans(a: string, b: string, c: string)
    requires NameLe(a, b) && NameLe(b, c)
    ensures NameLe(a, c)
    decreases |a|
  {
    if a != [] && b != [] && c != [] && a[0] == b[0] && b[0] == c[0] {
      NameLeTrans(a[1..], b[1..], c[1..]);
    }
  }

  predicate SortedBy<T>(s: seq<T>, key: T -> string)
  {
    forall i, j :: 0 <= i < j < |s| ==> NameLe(key(s[i]), key(s[j]))
  }

  /** One insertion step of a stable sort by name. */
  function InsertBy<T>(s: seq<T>, x: T, key: T -> string): (r: seq<T>)
    requires SortedBy(s, key)
    ensures SortedBy(r, key)
    ensures multiset(r) == multiset(s) + multiset{x}
    decreases |s|
  {
    if s == [] then [x]
    else if NameLe(key(x), key(s[0])) then
      InsertFront(s, x, key);
      [x] + s
    else
      NameLeTotal(key(x), key(s[0]));
      var rest := InsertBy(s[1..], x, key);
      assert s == [s[0]] + s[1..];
      InsertBehind(s[0], s[1..], x, rest, key);
      [s[0]] + rest
  }

  lemma InsertFront<T>(s: seq<T>, x: T, key: T -> string)
    requires SortedBy(s, key) && s != [] && NameLe(key(x), key(s[0]))
    ensures SortedBy([x] + s, key)
  {
    forall j | 0 <= j < |s|
      ensures NameLe(key(x), key(s[j]))
    {
      if j > 0 { NameLeTrans(key(x), key(s[0]), key(s[j])); }
    }
  }

  lemma InsertBehind<T>(head: T, tail: seq<T>, x: T, rest: seq<T>, key: T -> string)
    requires SortedBy([head] + tail, key) && SortedBy(rest, key)
    requires NameLe(key(head), key(x))
    requires multiset(rest) == multiset(tail) + multiset{x}
    ensures SortedBy([head] + rest, key)
  {
    forall k | 0 <= k < |rest|
      ensures NameLe(key(head), key(rest[k]))
    {
      assert rest[k] in multiset(rest);
      if rest[k] != x {
        assert rest[k] in multiset(tail);
        var j :| 0 <= j < |tail| && tail[j] == rest[k];
        assert ([head] + tail)[0] == head && ([head] + tail)[j + 1] == tail[j];
      }
    }
    var r := [head] + rest;
    forall i, j | 0 <= i < j < |r|
      ensures NameLe(key(r[i]), key(r[j]))
    {
      if i > 0 { assert r[i] == rest[i - 1] && r[j] == rest[j - 1]; }
    }
  }

  /** The elements after an insertion are the old ones and the inserted one. */
  lemma InsertByMembers<T>(s: seq<T>, x: T, key: T -> string)
    requires SortedBy(s, key)
    ensures |InsertBy(s, x, key)| == |s| + 1
    ensures forall y :: y in InsertBy(s, x, key) <==> y in s || y == x
  {
    var r := InsertBy(s, x, key);
    assert |multiset(r)| == |multiset(s)| + 1;
    forall y
      ensures y in r <==> y in s || y == x
    {
      assert y in r <==> y in multiset(r);
      assert y in s <==> y in multiset(s);
    }
  }

  // ---------------------------------------------------------------------
  // Records and tables
  // ---------------------------------------------------------------------

  /** A folder entry (FolderItem.java); the creation time is an abstract timestamp. */
  datatype FolderItem = FolderItem(id: string, name: string, parentId: string, createdDate: int)

  /** A file entry (FileItem.java); `filePath` is the absolute path the entry was stored under. */
  datatype FileItem = FileItem(id: string, name: string, filePath: Path, extension: string, size: int,
                               lastModified: int, favorite: bool, folderId: string,
                               thumbnailPath: Option<string>)

  type Folders = map<string, FolderItem>
  type Files = map<string, FileItem>

  /** The id standing for the library directory itself; no folder entry carries it. */
  const Root: string := "root"
  const HomeLabel: string := "首頁"
  const UnknownPathLabel: string := "未知路徑"
  const PathSeparator: string := " > "

  function FolderName(f: FolderItem): string { f.name }
  function FileItemName(f: FileItem): string { f.name }

  /** The ids of the folders directly inside `parentId`. */
  function ChildIds(folders: Folders, parentId: string): set<string>
  {
    set k | k in folders && folders[k].parentId == parentId
  }

  /** The ids of the files directly inside `folderId`. */
  function FileIdsIn(files: Files, folderId: string): set<string>
  {
    set k | k in files && files[k].folderId == folderId
  }

  /** Some folder inside `parentId` is called `name`. */
  predicate NameTaken(folders: Folders, parentId: string, name: string)
  {
    exists k :: k in folders && folders[k].parentId == parentId && folders[k].name == name
  }

  /** Some folder inside `parentId` other than `id` is called `name`. */
  predicate NameTakenByOther(folders: Folders, parentId: string, name: string, id: string)
  {
    exists k :: k in folders && folders[k].parentId == parentId && folders[k].name == name && k != id
  }

  /** No two folders with the same parent share a name. */
  ghost predicate SiblingNamesUnique(folders: Folders)
  {
    forall x, y :: x in folders && y in folders && x != y && folders[x].parentId == folders[y].parentId ==>
      folders[x].name != folders[y].name
  }

  /** Adding a folder under a name its new siblings do not use keeps sibling names unique. */
  lemma CreateKeepsNamesUnique(folders: Folders, newId: string, item: FolderItem)
    requires SiblingNamesUnique(folders) && newId !in folders
    requires !NameTaken(folders, item.parentId, item.name)
    ensures SiblingNamesUnique(folders[newId := item])
  {
    var g := folders[newId := item];
    forall x, y | x in g && y in g && x != y && g[x].parentId == g[y].parentId
      ensures g[x].name != g[y].name
    {
      if x == newId { assert folders[y].parentId == item.parentId; }
      else if y == newId { assert folders[x].parentId == item.parentId; }
    }
  }

  /** Renaming a folder to a name no sibling uses keeps sibling names unique. */
  lemma RenameKeepsNamesUnique(folders: Folders, id: string, newName: string)
    requires SiblingNamesUnique(folders) && id in folders
    requires !NameTakenByOther(folders, folders[id].parentId, newName, id)
    ensures SiblingNamesUnique(folders[id := folders[id].(name := newName)])
  {
    var g := folders[id := folders[id].(name := newName)];
    forall x, y | x in g && y in g && x != y && g[x].parentId == g[y].parentId
      ensures g[x].name != g[y].name
    {
      if x == id { assert folders[y].parentId == folders[id].parentId && y != id; }
      else if y == id { assert folders[x].parentId == folders[id].parentId && x != id; }
    }
  }

  /** With entries keyed by their ids, picking the ids of a folder's children picks its child entries. */
  lemma FolderValues(folders: Folders, parentId: string, r: seq<FolderItem>)
    requires forall k :: k in folders ==> folders[k].id == k
    requires forall x :: x in r <==> x.id in ChildIds(folders, parentId) && folders[x.id] == x
    ensures forall x :: x in r <==> x in folders.Values && x.parentId == parentId
  {
    forall x | x in folders.Values
      ensures x.id in folders && folders[x.id] == x
    {
      var k :| k in folders && folders[k] == x;
    }
  }

  lemma FileValues(files: Files, folderId: string, r: seq<FileItem>)
    requires forall k :: k in files ==> files[k].id == k
    requires forall x :: x in r <==> x.id in FileIdsIn(files, folderId) && files[x.id] == x
    ensures forall x :: x in r <==> x in files.Values && x.folderId == folderId
  {
    forall x | x in files.Values
      ensures x.id in files && files[x.id] == x
    {
      var k :| k in files && files[k] == x;
    }
  }

  /** One step of `getFolders`' collecting loop: the folder `id` moves from the pool into the sorted list. */
  lemma FolderCollectStep(folders: Folders, all: set<string>, pool: set<string>, done: set<string>,
                          r: seq<FolderItem>, id: string)
    requires forall k :: k in folders ==> folders[k].id == k
    requires all <= folders.Keys && pool + done == all && pool !! done && id in pool
    requires SortedBy(r, FolderName) && |r| == |done|
    requires forall x :: x in r <==> x.id in done && folders[x.id] == x
    ensures (pool - {id}) + (done + {id}) == all && (pool - {id}) !! (done + {id})
    ensures SortedBy(InsertBy(r, folders[id], FolderName), FolderName)
    ensures |InsertBy(r, folders[id], FolderName)| == |done + {id}|
    ensures forall x :: x in InsertBy(r, folders[id], FolderName) <==> x.id in done + {id} && folders[x.id] == x
  {
    InsertByMembers(r, folders[id], FolderName);
  }

  /** One step of `getFiles`' collecting loop: the file `id` moves from the pool into the sorted list. */
  lemma FileCollectStep(files: Files, all: set<string>, pool: set<string>, done: set<string>,
                        r: seq<FileItem>, id: string)
    requires forall k :: k in files ==> files[k].id == k
    requires all <= files.Keys && pool + done == all && pool !! done && id in pool
    requires SortedBy(r, FileItemName) && |r| == |done|
    requires forall x :: x in r <==> x.id in done && files[x.id] == x
    ensures (pool - {id}) + (done + {id}) == all && (pool - {id}) !! (done + {id})
    ensures SortedBy(InsertBy(r, files[id], FileItemName), FileItemName)
    ensures |InsertBy(r, files[id], FileItemName)| == |done + {id}|
    ensures forall x :: x in InsertBy(r, files[id], FileItemName) <==> x.id in done + {id} && files[x.id] == x
  {
    InsertByMembers(r, files[id], FileItemName);
  }

  // ---------------------------------------------------------------------
  // Parent chains
  // ---------------------------------------------------------------------

  /**
   * Every folder whose parent is a folder has a larger depth than its parent:
   * the parent chains are acyclic, which the walks up the chain need to end.
   */
  ghost predicate Ranked(folders: Folders, depth: map<string, nat>)
  {
    folders.Keys <= depth.Keys &&
    forall x :: x in folders && folders[x].parentId in folders ==> depth[folders[x].parentId] < depth[x]
  }

  /** Following parent ids from `x` leads to `a` (or `x` is `a`). */
  ghost predicate Reaches(folders: Folders, depth: map<string, nat>, x: string, a: string)
    requires Ranked(folders, depth)
    decreases if x in folders then depth[x] + 1 else 0
  {
    x == a || (x in folders && Reaches(folders, depth, folders[x].parentId, a))
  }

  /** The folder `a` and all folders below it. */
  ghost function Subtree(folders: Folders, depth: map<string, nat>, a: string): set<string>
    requires Ranked(folders, depth)
  {
    set x | x in folders && Reaches(folders, depth, x, a)
  }

  /** The folders below any of `tops`, the tops included. */
  ghost function SubtreesOf(folders: Folders, depth: map<string, nat>, tops: set<string>): set<string>
    requires Ranked(folders, depth)
  {
    set x | x in folders && exists t :: t in tops && Reaches(folders, depth, x, t)
  }

  /** The names from the top-most recorded ancestor down to `id`; it stops at "root" or a missing id. */
  ghost function ChainOf(folders: Folders, depth: map<string, nat>, id: string): seq<string>
    requires Ranked(folders, depth)
    decreases if id in folders then depth[id] + 1 else 0
  {
    if id == Root || id !in folders then []
    else ChainOf(folders, depth, folders[id].parentId) + [folders[id].name]
  }

  /** Where `getPhysicalPath` puts a folder: its chain of names resolved below the library. */
  ghost function PhysicalPathIn(library: Path, folders: Folders, depth: map<string, nat>, id: string): Path
    requires Ranked(folders, depth)
  {
    if id == Root then library else ResolveAll(library, ChainOf(folders, depth, id))
  }

  /** A recorded folder's chain ends with its own name. */
  lemma ChainEndsWithName(folders: Folders, depth: map<string, nat>, id: string)
    requires Ranked(folders, depth) && id in folders && id != Root
    ensures ChainOf(folders, depth, id) != []
    ensures ChainOf(folders, depth, id)[|ChainOf(folders, depth, id)| - 1] == folders[id].name
  {
  }

  /** An ancestor's chain is a prefix of its descendant's: the names run root first. */
  lemma {:induction false} ChainOfAncestor(folders: Folders, depth: map<string, nat>, x: string, a: string)
    requires Ranked(folders, depth) && Root !in folders
    requires a in folders && Reaches(folders, depth, x, a)
    ensures |ChainOf(folders, depth, a)| <= |ChainOf(folders, depth, x)|
    ensures ChainOf(folders, depth, x) ==
            ChainOf(folders, depth, a) + ChainOf(folders, depth, x)[|ChainOf(folders, depth, a)|..]
    decreases if x in folders then depth[x] + 1 else 0
  {
    if x != a {
      var p := folders[x].parentId;
      ChainOfAncestor(folders, depth, p, a);
      assert p in folders;
    }
  }

  /** An ancestor's directory contains its descendant's directory. */
  lemma PathOfAncestor(library: Path, folders: Folders, depth: map<string, nat>, x: string, a: string)
    requires Ranked(folders, depth) && Root !in folders
    requires a in folders && Reaches(folders, depth, x, a)
    ensures IsPrefix(PhysicalPathIn(library, folders, depth, a), PhysicalPathIn(library, folders, depth, x))
  {
    var ca := ChainOf(folders, depth, a);
    var cx := ChainOf(folders, depth, x);
    ChainOfAncestor(folders, depth, x, a);
    ResolveAllAppend(library, ca, cx[|ca|..]);
    ResolveAllExtends(ResolveAll(library, ca), cx[|ca|..]);
  }

  /** A folder whose parent has no entry resolves directly below the library. */
  lemma DetachedPath(library: Path, folders: Folders, depth: map<string, nat>, s: string)
    requires Ranked(folders, depth) && s in folders && s != Root
    requires folders[s].parentId !in folders
    ensures PhysicalPathIn(library, folders, depth, s) == Resolve(library, folders[s].name)
  {
    var names := [folders[s].name];
    assert ChainOf(folders, depth, s) == names;
    assert names[..0] == [];
    assert ResolveAll(library, names) == Resolve(ResolveAll(library, []), folders[s].name);
  }

  // ---------------------------------------------------------------------
  // Subtrees
  // ---------------------------------------------------------------------

  /** `g` is `f` with the folders in `removed` taken out. */
  predicate FoldersWithout(g: Folders, f: Folders, removed: set<string>)
  {
    g.Keys == f.Keys - removed && forall k :: k in g ==> g[k] == f[k]
  }

  /** `g` is `f` with the files of the folders in `folderIds` taken out. */
  predicate FilesWithout(g: Files, f: Files, folderIds: set<string>)
  {
    g.Keys == (set k | k in f && f[k].folderId !in folderIds) && forall k :: k in g ==> g[k] == f[k]
  }

  lemma WithoutRanked(g: Folders, f: Folders, removed: set<string>, depth: map<string, nat>)
    requires Ranked(f, depth) && FoldersWithout(g, f, removed)
    ensures Ranked(g, depth)
  {
  }

  /** Parent links between the folders that remain are the original ones. */
  lemma {:induction false} ReachesInSub(f: Folders, g: Folders, depth: map<string, nat>, x: string, a: string)
    requires Ranked(f, depth) && Ranked(g, depth)
    requires forall k :: k in g ==> k in f && g[k] == f[k]
    requires Reaches(g, depth, x, a)
    ensures Reaches(f, depth, x, a)
    decreases if x in g then depth[x] + 1 else 0
  {
    if x != a {
      ReachesInSub(f, g, depth, g[x].parentId, a);
    }
  }

  /** A walk up to `a` survives the removal of folders outside the subtree of `a`. */
  lemma {:induction false} ReachesKept(f: Folders, g: Folders, depth: map<string, nat>, x: string, a: string)
    requires Ranked(f, depth) && Ranked(g, depth)
    requires forall k :: k in g ==> k in f && g[k] == f[k]
    requires forall k :: k in f && Reaches(f, depth, k, a) ==> k in g
    requires Reaches(f, depth, x, a)
    ensures Reaches(g, depth, x, a)
    decreases if x in f then depth[x] + 1 else 0
  {
    if x != a {
      assert x in g;
      ReachesKept(f, g, depth, f[x].parentId, a);
    }
  }

  /** Removing folders outside a subtree leaves that subtree as it was. */
  lemma SubtreeKept(f: Folders, g: Folders, removed: set<string>, depth: map<string, nat>, a: string)
    requires Ranked(f, depth) && FoldersWithout(g, f, removed)
    requires removed !! Subtree(f, depth, a)
    ensures Ranked(g, depth)
    ensures Subtree(g, depth, a) == Subtree(f, depth, a)
  {
    WithoutRanked(g, f, removed, depth);
    forall x | x in Subtree(g, depth, a)
      ensures x in Subtree(f, depth, a)
    {
      ReachesInSub(f, g, depth, x, a);
    }
    forall x | x in Subtree(f, depth, a)
      ensures x in Subtree(g, depth, a)
    {
      forall k | k in f && Reaches(f, depth, k, a)
        ensures k in g
      {
        assert k in Subtree(f, depth, a);
      }
      ReachesKept(f, g, depth, x, a);
    }
  }

  /** Walking up never reaches a deeper folder. */
  lemma {:induction false} ReachesDepth(f: Folders, depth: map<string, nat>, y: string, z: string)
    requires Ranked(f, depth) && y in f && z in f && Reaches(f, depth, y, z)
    ensures depth[z] <= depth[y]
    decreases depth[y]
  {
    if y != z {
      var p := f[y].parentId;
      if p != z {
        ReachesDepth(f, depth, p, z);
      }
    }
  }

  lemma {:induction false} ReachesTrans(f: Folders, depth: map<string, nat>, x: string, y: string, z: string)
    requires Ranked(f, depth) && Reaches(f, depth, x, y) && Reaches(f, depth, y, z)
    ensures Reaches(f, depth, x, z)
    decreases if x in f then depth[x] + 1 else 0
  {
    if x != y {
      ReachesTrans(f, depth, f[x].parentId, y, z);
    }
  }

  /** A folder is not below any of its children. */
  lemma ParentOutsideChild(f: Folders, depth: map<string, nat>, a: string, s: string)
    requires Ranked(f, depth) && a in f && s in ChildIds(f, a)
    ensures s != a && a !in Subtree(f, depth, s)
  {
    if a in Subtree(f, depth, s) {
      ReachesDepth(f, depth, a, s);
    }
  }

  /** Below two different children of a folder lie disjoint subtrees. */
  lemma {:induction false} SiblingsApart(f: Folders, depth: map<string, nat>, a: string, s1: string, s2: string, x: string)
    requires Ranked(f, depth) && a in f && s1 in ChildIds(f, a) && s2 in ChildIds(f, a) && s1 != s2
    ensures !(Reaches(f, depth, x, s1) && Reaches(f, depth, x, s2))
    decreases if x in f then depth[x] + 1 else 0
  {
    if Reaches(f, depth, x, s1) && Reaches(f, depth, x, s2) {
      if x == s1 {
        ReachesDepth(f, depth, a, s2);
      } else if x == s2 {
        ReachesDepth(f, depth, a, s1);
      } else {
        SiblingsApart(f, depth, a, s1, s2, f[x].parentId);
      }
    }
  }

  /** A folder strictly below `a` lies below one of the children of `a`. */
  lemma {:induction false} ChildOnTheWay(f: Folders, depth: map<string, nat>, a: string, x: string) returns (s: string)
    requires Ranked(f, depth) && x in f && x != a && Reaches(f, depth, x, a)
    ensures s in ChildIds(f, a) && Reaches(f, depth, x, s)
    decreases depth[x]
  {
    var p := f[x].parentId;
    if p == a {
      s := x;
    } else {
      s := ChildOnTheWay(f, depth, a, p);
    }
  }

  /** A subtree is its top and the subtrees of the top's children. */
  lemma SubtreeSplit(f: Folders, depth: map<string, nat>, a: string)
    requires Ranked(f, depth) && a in f
    ensures Subtree(f, depth, a) == {a} + SubtreesOf(f, depth, ChildIds(f, a))
  {
    forall x | x in Subtree(f, depth, a) && x != a
      ensures x in SubtreesOf(f, depth, ChildIds(f, a))
    {
      var s := ChildOnTheWay(f, depth, a, x);
    }
    forall x | x in SubtreesOf(f, depth, ChildIds(f, a))
      ensures x in Subtree(f, depth, a)
    {
      var t :| t in ChildIds(f, a) && Reaches(f, depth, x, t);
      assert Reaches(f, depth, f[t].parentId, a);
      ReachesTrans(f, depth, x, t, a);
    }
  }

  lemma SubtreesOfAdd(f: Folders, depth: map<string, nat>, tops: set<string>, t: string)
    requires Ranked(f, depth)
    ensures SubtreesOf(f, depth, tops + {t}) == SubtreesOf(f, depth, tops) + Subtree(f, depth, t)
  {
  }

  /** The directories reported for the subtrees done so far, followed by those of one more child's subtree, cover both. */
  lemma DeletedGrows(lib: Path, f: Folders, depth: map<string, nat>, done: set<string>, sub: string,
                     before: seq<Path>, more: seq<Path>, deleted: seq<Path>)
    requires Ranked(f, depth)
    requires forall x :: x in SubtreesOf(f, depth, done) ==> Resolve(lib, f[x].name) in before
    requires forall x :: x in Subtree(f, depth, sub) ==> Resolve(lib, f[x].name) in more
    requires deleted == before + more
    ensures forall x :: x in SubtreesOf(f, depth, done + {sub}) ==> Resolve(lib, f[x].name) in deleted
  {
    SubtreesOfAdd(f, depth, done, sub);
  }

  /** The next child's subtree shares nothing with the parent or the subtrees done so far. */
  lemma NextChildApart(f: Folders, depth: map<string, nat>, a: string, done: set<string>, s: string)
    requires Ranked(f, depth) && a in f && done <= ChildIds(f, a)
    requires s in ChildIds(f, a) && s !in done
    ensures ({a} + SubtreesOf(f, depth, done)) !! Subtree(f, depth, s)
  {
    ParentOutsideChild(f, depth, a, s);
    forall x | x in SubtreesOf(f, depth, done) && x in Subtree(f, depth, s)
      ensures false
    {
      var t :| t in done && Reaches(f, depth, x, t);
      SiblingsApart(f, depth, a, t, s, x);
    }
  }

  lemma PrefixTrans(p: Path, q: Path, r: Path)
    requires IsPrefix(p, q) && IsPrefix(q, r)
    ensures IsPrefix(p, r)
  {
    assert r[..|p|] == r[..|q|][..|p|];
  }

  /** Taking out a set that holds one of the keys shrinks the table. */
  lemma WithoutShrinks(g: Folders, f: Folders, removed: set<string>, x: string)
    requires FoldersWithout(g, f, removed) && x in f && x in removed
    ensures |g.Keys| < |f.Keys|
  {
    SubsetCard(g.Keys, f.Keys - {x});
  }

  /** Taking out two sets of folders one after the other. */
  lemma WithoutTwice(h: Folders, g: Folders, f: Folders, r1: set<string>, r2: set<string>)
    requires FoldersWithout(g, f, r1) && FoldersWithout(h, g, r2)
    ensures FoldersWithout(h, f, r1 + r2)
  {
  }

  /** Taking out the files of two sets of folders one after the other. */
  lemma FilesWithoutTwice(h: Files, g: Files, f: Files, d1: set<string>, d2: set<string>)
    requires FilesWithout(g, f, d1) && FilesWithout(h, g, d2)
    ensures FilesWithout(h, f, d1 + d2)
  {
    assert h.Keys == (set k | k in f && f[k].folderId !in d1 + d2);
  }

  /** Before deleting the next child: it is still recorded, with its subtree intact, and detached. */
  lemma DeleteBefore(f0: Folders, depth: map<string, nat>, a: string, done: set<string>, sub: string,
                     removed: set<string>, g: Folders)
    requires Ranked(f0, depth) && a in f0 && done <= ChildIds(f0, a)
    requires sub in ChildIds(f0, a) && sub !in done
    requires removed == {a} + SubtreesOf(f0, depth, done)
    requires FoldersWithout(g, f0, removed)
    ensures Ranked(g, depth) && sub in g && g[sub].parentId !in g
    ensures Subtree(g, depth, sub) == Subtree(f0, depth, sub)
    ensures a !in Subtree(f0, depth, sub)
    ensures |g.Keys| < |f0.Keys|
  {
    NextChildApart(f0, depth, a, done, sub);
    SubtreeKept(f0, g, removed, depth, sub);
    assert sub in Subtree(f0, depth, sub);
    WithoutShrinks(g, f0, removed, a);
  }

  /** After deleting the next child: its whole subtree has joined the removed folders. */
  lemma DeleteAfter(f0: Folders, files0: Files, depth: map<string, nat>, a: string, done: set<string>,
                    sub: string, removed: set<string>, g: Folders, h: Files, g2: Folders, h2: Files)
    requires Ranked(f0, depth)
    requires removed == {a} + SubtreesOf(f0, depth, done)
    requires a !in Subtree(f0, depth, sub)
    requires FoldersWithout(g, f0, removed) && FilesWithout(h, files0, removed - {a})
    requires FoldersWithout(g2, g, Subtree(f0, depth, sub)) && FilesWithout(h2, h, Subtree(f0, depth, sub))
    ensures removed + Subtree(f0, depth, sub) == {a} + SubtreesOf(f0, depth, done + {sub})
    ensures FoldersWithout(g2, f0, removed + Subtree(f0, depth, sub))
    ensures FilesWithout(h2, files0, (removed + Subtree(f0, depth, sub)) - {a})
  {
    var t := Subtree(f0, depth, sub);
    WithoutTwice(g2, g, f0, removed, t);
    FilesWithoutTwice(h2, h, files0, removed - {a}, t);
    assert (removed - {a}) + t == (removed + t) - {a};
    SubtreesOfAdd(f0, depth, done, sub);
  }

  /** After the children: the removed folders are the whole subtree, and its files go last. */
  lemma DeleteFinish(f0: Folders, files0: Files, depth: map<string, nat>, a: string,
                     removed: set<string>, h: Files, h2: Files)
    requires Ranked(f0, depth) && a in f0
    requires removed == {a} + SubtreesOf(f0, depth, ChildIds(f0, a))
    requires FilesWithout(h, files0, removed - {a}) && FilesWithout(h2, h, {a})
    ensures removed == Subtree(f0, depth, a)
    ensures FilesWithout(h2, files0, Subtree(f0, depth, a))
  {
    SubtreeSplit(f0, depth, a);
    FilesWithoutTwice(h2, h, files0, removed - {a}, {a});
    assert (removed - {a}) + {a} == removed;
  }

  /** The children of `a` once its own entry is gone are the children it had. */
  lemma ChildrenAfterRemoval(f0: Folders, depth: map<string, nat>, a: string)
    requires Ranked(f0, depth) && a in f0
    ensures ChildIds(f0 - {a}, a) == ChildIds(f0, a)
  {
    forall c | c in ChildIds(f0, a)
      ensures c != a
    {
      ParentOutsideChild(f0, depth, a, c);
    }
  }

  // ---------------------------------------------------------------------
  // The tables
  // ---------------------------------------------------------------------

  class FileManagerData {
    const libraryPath: Path
    var folders: Folders
    var files: Files
    /** A rank witnessing that the parent chains are acyclic. */
    ghost var depth: map<string, nat>

    /** Entries are stored under their own ids, no folder is "root", and parent chains are acyclic. */
    ghost predicate Valid()
      reads this
    {
      Ranked(folders, depth) && Root !in folders &&
      (forall k :: k in folders ==> folders[k].id == k) &&
      (forall k :: k in files ==> files[k].id == k)
    }

    /** The tables as the scan of the library directory left them. */
    constructor (libraryPath: Path, scannedFolders: Folders, scannedFiles: Files, ghost ranks: map<string, nat>)
      requires Ranked(scannedFolders, ranks) && Root !in scannedFolders
      requires forall k :: k in scannedFolders ==> scannedFolders[k].id == k
      requires forall k :: k in scannedFiles ==> scannedFiles[k].id == k
      ensures Valid()
      ensures this.libraryPath == libraryPath && folders == scannedFolders && files == scannedFiles
    {
      this.libraryPath := libraryPath;
      folders := scannedFolders;
      files := scannedFiles;
      depth := ranks;
    }

    // -- queries ---------------------------------------------------------

    /** `getFolders` (and `getSubFolders`): the folders directly inside `parentId`, sorted by name. */
    method GetFolders(parentId: string) returns (r: seq<FolderItem>)
      requires Valid()
      ensures SortedBy(r, FolderName)
      ensures forall x :: x in r <==> x in folders.Values && x.parentId == parentId
      ensures |r| == |ChildIds(folders, parentId)|
    {
      var pool := ChildIds(folders, parentId);
      ghost var done: set<string> := {};
      r := [];
      while pool != {}
        invariant pool + done == ChildIds(folders, parentId) && pool !! done
        invariant SortedBy(r, FolderName)
        invariant forall x :: x in r <==> x.id in done && folders[x.id] == x
        invariant |r| == |done|
        decreases |pool|
      {
        var id :| id in pool;
        FolderCollectStep(folders, ChildIds(folders, parentId), pool, done, r, id);
        r := InsertBy(r, folders[id], FolderName);
        pool := pool - {id};
        done := done + {id};
      }
      FolderValues(folders, parentId, r);
    }

    /** `getFiles`: the files directly inside `folderId`, sorted by name. */
    method GetFiles(folderId: string) returns (r: seq<FileItem>)
      requires Valid()
      ensures SortedBy(r, FileItemName)
      ensures forall x :: x in r <==> x in files.Values && x.folderId == folderId
      ensures |r| == |FileIdsIn(files, folderId)| == GetFileCount(folderId)
    {
      var pool := FileIdsIn(files, folderId);
      ghost var done: set<string> := {};
      r := [];
      while pool != {}
        invariant pool + done == FileIdsIn(files, folderId) && pool !! done
        invariant SortedBy(r, FileItemName)
        invariant forall x :: x in r <==> x.id in done && files[x.id] == x
        invariant |r| == |done|
        decreases |pool|
      {
        var id :| id in pool;
        FileCollectStep(files, FileIdsIn(files, folderId), pool, done, r, id);
        r := InsertBy(r, files[id], FileItemName);
        pool := pool - {id};
        done := done + {id};
      }
      FileValues(files, folderId, r);
    }

    /** `getFileCount`: how many files lie directly inside `folderId`. */
    function GetFileCount(folderId: string): (n: nat)
      reads this
      ensures n == |FileIdsIn(files, folderId)|
      ensures n <= |files.Keys|
    {
      SubsetCard(FileIdsIn(files, folderId), files.Keys);
      |FileIdsIn(files, folderId)|
    }

    /** `getFolder`: the entry stored under `folderId`, if any. */
    function GetFolder(folderId: string): (r: Option<FolderItem>)
      requires Valid()
      reads this
      ensures r.Some? <==> folderId in folders
      ensures r.Some? ==> r.value.id == folderId && r.value in folders.Values
    {
      if folderId in folders then Some(folders[folderId]) else None
    }

    /** `getParentFolderId`: the parent id of a recorded folder, whose chain ends in the folder's name. */
    function GetParentFolderId(folderId: string): (r: Option<string>)
      requires Valid()
      reads this
      ensures r.Some? <==> folderId in folders
      ensures r.Some? ==> ChainOf(folders, depth, folderId) ==
                          ChainOf(folders, depth, r.value) + [folders[folderId].name]
    {
      if folderId in folders then Some(folders[folderId].parentId) else None
    }

    /** The walk up the parent chain shared by `getFolderPath` and `getPhysicalPath`. */
    method CollectChain(folderId: string) returns (parts: seq<string>)
      requires Valid()
      ensures parts == ChainOf(folders, depth, folderId)
    {
      parts := [];
      var currentId := folderId;
      while currentId != Root
        invariant ChainOf(folders, depth, folderId) == ChainOf(folders, depth, currentId) + parts
        decreases if currentId in folders then depth[currentId] + 1 else 0
      {
        if currentId !in folders {
          break;
        }
        var folder := folders[currentId];
        parts := [folder.name] + parts;
        currentId := folder.parentId;
      }
    }

    /**
     * `getFolderPath`: "首頁" for the library itself, "未知路徑" for an id
     * without an entry, otherwise "首頁 > a > … > x" over the chain of names.
     */
    method GetFolderPath(folderId: string) returns (r: string)
      requires Valid()
      ensures folderId == Root ==> r == HomeLabel
      ensures folderId != Root && folderId !in folders ==> r == UnknownPathLabel
      ensures folderId != Root && folderId in folders ==>
                r == HomeLabel + PathSeparator + JoinWith(ChainOf(folders, depth, folderId), PathSeparator)
    {
      if folderId == Root {
        return HomeLabel;
      }
      if folderId !in folders {
        return UnknownPathLabel;
      }
      var parts := CollectChain(folderId);
      ChainEndsWithName(folders, depth, folderId);
      r := HomeLabel + (if parts == [] then [] else PathSeparator + JoinWith(parts, PathSeparator));
    }

    /** `getPhysicalPath`: the library for "root", otherwise the chain of names resolved below it. */
    method GetPhysicalPath(folderId: string) returns (p: Path)
      requires Valid()
      ensures p == PhysicalPathIn(libraryPath, folders, depth, folderId)
    {
      if folderId == Root {
        return libraryPath;
      }
      var parts := CollectChain(folderId);
      p := libraryPath;
      for i := 0 to |parts|
        invariant p == ResolveAll(libraryPath, parts[..i])
      {
        assert parts[..i + 1][..i] == parts[..i];
        p := Resolve(p, parts[i]);
      }
      assert parts[..|parts|] == parts;
    }
  
    // -- folders ---------------------------------------------------------

    /**
     * `createFolder`: refused when a folder inside `parentId` already has the
     * name, or when the directory cannot be created; otherwise one entry is
     * added under the fresh id.  `newId` stands for the random UUID: it is no
     * existing folder's id or parent.
     */
    method CreateFolder(name: string, parentId: string, newId: string, now: int, diskOk: bool) returns (ok: bool)
      requires Valid()
      requires newId != Root && newId != parentId && newId !in folders
      requires forall k :: k in folders ==> folders[k].parentId != newId
      modifies this
      ensures Valid()
      ensures ok <==> !NameTaken(old(folders), parentId, name) && diskOk
      ensures ok ==> folders == old(folders)[newId := FolderItem(newId, name, parentId, now)]
      ensures !ok ==> folders == old(folders)
      ensures files == old(files)
      ensures SiblingNamesUnique(old(folders)) ==> SiblingNamesUnique(folders)
    {
      var taken := NameTaken(folders, parentId, name);
      if taken {
        return false;
      }
      if !diskOk {
        return false;
      }
      var item := FolderItem(newId, name, parentId, now);
      if SiblingNamesUnique(folders) {
        CreateKeepsNamesUnique(folders, newId, item);
      }
      depth := depth[newId := if parentId in folders then depth[parentId] + 1 else 0];
      folders := folders[newId := item];
      ok := true;
    }

    /**
     * `renameFolder`: refused for an unknown id, for a name another folder
     * with the same parent holds, when the folder's directory has no parent
     * directory, or when the directory cannot be moved.
     */
    method RenameFolder(folderId: string, newName: string, diskOk: bool) returns (ok: bool)
      requires Valid()
      modifies this
      ensures Valid() && files == old(files)
      ensures ok <==> folderId in old(folders) &&
                      !NameTakenByOther(old(folders), old(folders)[folderId].parentId, newName, folderId) &&
                      ParentOf(PhysicalPathIn(libraryPath, old(folders), old(depth), folderId)).Some? && diskOk
      ensures ok ==> folders == old(folders)[folderId := old(folders)[folderId].(name := newName)]
      ensures !ok ==> folders == old(folders)
      ensures SiblingNamesUnique(old(folders)) ==> SiblingNamesUnique(folders)
    {
      if folderId !in folders {
        return false;
      }
      var folder := folders[folderId];
      var taken := NameTakenByOther(folders, folder.parentId, newName, folderId);
      if taken {
        return false;
      }
      var oldPath := GetPhysicalPath(folderId);
      if ParentOf(oldPath).None? || !diskOk {
        return false;
      }
      if SiblingNamesUnique(folders) {
        RenameKeepsNamesUnique(folders, folderId, newName);
      }
      folders := folders[folderId := folder.(name := newName)];
      ok := true;
    }

    // -- files -----------------------------------------------------------

    /**
     * `importFile`: the source is copied into the folder's directory under its
     * own name, or under the first free numbered name, and recorded under the
     * fresh id.  `sourceName` is the name of an existing file, so it is not
     * empty; `existing` holds the paths present on disk.  `diskOk` is false
     * when `Files.copy` or `Files.size` throws: the `IOException` leaves the
     * method before the entry is recorded, which the model reports as
     * `ok == false` with both tables unchanged.
     */
    method ImportFile(sourceName: string, size: int, folderId: string, newId: string, now: int,
                      existing: set<Path>, diskOk: bool) returns (ok: bool)
      requires Valid()
      requires sourceName != [] && newId !in files
      modifies this
      ensures Valid() && ok == diskOk
      ensures folders == old(folders)
      ensures !ok ==> files == old(files)
      ensures ok ==> newId in files && files == old(files)[newId := files[newId]]
      ensures ok ==> files[newId].folderId == folderId && files[newId].size == size && !files[newId].favorite
      ensures ok ==> files[newId].filePath == Resolve(PhysicalPathIn(libraryPath, folders, depth, folderId), files[newId].name)
      ensures ok ==> files[newId].filePath !in existing
      ensures ok ==> files[newId].extension == GetFileExtension(sourceName)
      ensures ok && Resolve(PhysicalPathIn(libraryPath, folders, depth, folderId), sourceName) !in existing ==>
                files[newId].name == sourceName
      ensures ok ==> PicksFreeName(PhysicalPathIn(libraryPath, folders, depth, folderId), sourceName, existing, files[newId].name)
    {
      var targetDir := GetPhysicalPath(folderId);
      var name, counter := FreeName(targetDir, sourceName, existing);
      if !diskOk {
        return false;
      }
      var targetPath := Resolve(targetDir, name);
      if counter > 0 {
        CandidateKeepsExtension(sourceName, counter);
      }
      var item := FileItem(newId, name, targetPath, GetFileExtension(name), size, now, false, folderId, None);
      files := files[newId := item];
      ok := true;
    }

    /**
     * `renameFile`: refused for an unknown id, for a path without a parent
     * directory, when the new name is taken on disk, or when the move fails;
     * otherwise the entry gets the new name and path and nothing else changes.
     */
    method RenameFile(fileId: string, newName: string, existing: set<Path>, diskOk: bool) returns (ok: bool)
      requires Valid()
      modifies this
      ensures Valid() && folders == old(folders)
      ensures fileId !in old(files) ==> !ok
      ensures ok <==> fileId in old(files) && ParentOf(old(files)[fileId].filePath).Some? &&
                      Resolve(ParentOf(old(files)[fileId].filePath).value, newName) !in existing && diskOk
      ensures ok ==> files == old(files)[fileId := old(files)[fileId].(
                name := newName, filePath := Resolve(ParentOf(old(files)[fileId].filePath).value, newName))]
      ensures !ok ==> files == old(files)
    {
      if fileId !in files {
        return false;
      }
      var file := files[fileId];
      var parent := ParentOf(file.filePath);
      if parent.None? {
        return false;
      }
      var newPath := Resolve(parent.value, newName);
      if newPath in existing || !diskOk {
        return false;
      }
      files := files[fileId := file.(name := newName, filePath := newPath)];
      ok := true;
    }

    /**
     * `moveFile`: the file goes into the target folder's directory under its
     * current file name, or the first free numbered name; only its folder id
     * and its path change.
     */
    method MoveFile(fileId: string, targetFolderId: string, existing: set<Path>, diskOk: bool) returns (ok: bool)
      requires Valid()
      modifies this
      ensures Valid() && folders == old(folders)
      ensures ok <==> fileId in old(files) && FileName(old(files)[fileId].filePath).Some? && diskOk
      ensures !ok ==> files == old(files)
      ensures ok ==> fileId in files && files == old(files)[fileId := old(files)[fileId].(
                       folderId := targetFolderId, filePath := files[fileId].filePath)]
      ensures ok ==> files[fileId].filePath !in existing
      ensures ok ==> IsPrefix(PhysicalPathIn(libraryPath, folders, depth, targetFolderId), files[fileId].filePath)
      ensures ok ==> |files[fileId].filePath| <= |PhysicalPathIn(libraryPath, folders, depth, targetFolderId)| + 1
      ensures ok ==>
                exists name :: PicksFreeName(PhysicalPathIn(libraryPath, folders, depth, targetFolderId),
                                             FileName(old(files)[fileId].filePath).value, existing, name) &&
                               files[fileId].filePath == Resolve(PhysicalPathIn(libraryPath, folders, depth, targetFolderId), name)
    {
      if fileId !in files {
        return false;
      }
      var file := files[fileId];
      var oldPath := file.filePath;
      var targetDir := GetPhysicalPath(targetFolderId);
      var fileName := FileName(oldPath);
      if fileName.None? {
        return false;
      }
      var newPath := Resolve(targetDir, fileName.value);
      var newName := fileName.value;
      if newPath in existing {
        var name, counter := FreeName(targetDir, fileName.value, existing);
        newPath := Resolve(targetDir, name);
        newName := name;
      }
      assert PicksFreeName(targetDir, fileName.value, existing, newName);
      if !diskOk {
        return false;
      }
      files := files[fileId := file.(folderId := targetFolderId, filePath := newPath)];
      ok := true;
    }

    /** `deleteFile`: refused for an unknown id or a failed deletion; otherwise the entry goes. */
    method DeleteFile(fileId: string, diskOk: bool) returns (ok: bool)
      requires Valid()
      modifies this
      ensures Valid() && folders == old(folders)
      ensures ok <==> fileId in old(files) && diskOk
      ensures ok ==> files == old(files) - {fileId}
      ensures !ok ==> files == old(files)
    {
      if fileId !in files || !diskOk {
        return false;
      }
      files := files - {fileId};
      ok := true;
    }
  
    // -- deleting a folder -----------------------------------------------

    /** The last step of a folder deletion: the entries of the files directly inside it go. */
    method RemoveFilesOf(folderId: string)
      requires Valid()
      modifies this
      ensures Valid() && folders == old(folders) && depth == old(depth)
      ensures FilesWithout(files, old(files), {folderId})
    {
      var fileIds := FileIdsIn(files, folderId);
      ghost var ids0 := fileIds;
      while fileIds != {}
        invariant fileIds <= ids0
        invariant files.Keys == old(files).Keys - (ids0 - fileIds)
        invariant forall k :: k in files ==> files[k] == old(files)[k]
        invariant Valid() && folders == old(folders) && depth == old(depth)
        decreases fileIds
      {
        var fileId :| fileId in fileIds;
        files := files - {fileId};
        fileIds := fileIds - {fileId};
      }
    }

    /**
     * `deleteFolder` as written: the folder's directory is deleted, its entry
     * removed, then every child is deleted the same way, then the files of the
     * folder.  The entries removed are exactly the folder's subtree and the
     * files inside it.  `deleted` lists the directories handed to the disk; a
     * child's directory is resolved after its parent's entry is gone, so it is
     * taken directly below the library.  `diskOk` is false when the walk of
     * the folder's directory throws: the exception is caught before any entry
     * is removed and the call returns false.
     */
    method DeleteFolder(folderId: string, diskOk: bool) returns (ok: bool, deleted: seq<Path>)
      requires Valid()
      modifies this
      decreases |folders.Keys|, 2
      ensures Valid() && depth == old(depth)
      ensures ok <==> folderId in old(folders) && diskOk
      ensures !ok ==> folders == old(folders) && files == old(files) && deleted == []
      ensures ok ==> FoldersWithout(folders, old(folders), Subtree(old(folders), old(depth), folderId))
      ensures ok ==> FilesWithout(files, old(files), Subtree(old(folders), old(depth), folderId))
      ensures ok ==> deleted != [] && deleted[0] == PhysicalPathIn(libraryPath, old(folders), old(depth), folderId)
      ensures ok ==> forall x :: x in Subtree(old(folders), old(depth), folderId) && x != folderId ==>
                       Resolve(libraryPath, old(folders)[x].name) in deleted
    {
      if folderId !in folders || !diskOk {
        return false, [];
      }
      var folderPath := GetPhysicalPath(folderId);
      ghost var f0, files0 := folders, files;
      folders := folders - {folderId};
      ChildrenAfterRemoval(f0, depth, folderId);
      var subFolderIds := ChildIds(folders, folderId);
      var more := DeleteSubFolders(folderId, subFolderIds, f0, files0);
      deleted := [folderPath] + more;
      ghost var h := files;
      RemoveFilesOf(folderId);
      DeleteFinish(f0, files0, depth, folderId, {folderId} + SubtreesOf(f0, depth, subFolderIds), h, files);
      ok := true;
    }

    /** The loop of `deleteFolder` over the children, each deleted by the recursive call. */
    method DeleteSubFolders(folderId: string, subFolderIds: set<string>,
                            ghost f0: Folders, ghost files0: Files) returns (deleted: seq<Path>)
      requires Valid() && Ranked(f0, depth) && folderId in f0
      requires subFolderIds == ChildIds(f0, folderId)
      requires FoldersWithout(folders, f0, {folderId}) && FilesWithout(files, files0, {})
      modifies this
      decreases |f0.Keys|, 1
      ensures Valid() && depth == old(depth)
      ensures FoldersWithout(folders, f0, {folderId} + SubtreesOf(f0, depth, subFolderIds))
      ensures FilesWithout(files, files0, ({folderId} + SubtreesOf(f0, depth, subFolderIds)) - {folderId})
      ensures forall x :: x in SubtreesOf(f0, depth, subFolderIds) ==> Resolve(libraryPath, f0[x].name) in deleted
    {
      deleted := [];
      ghost var removed: set<string> := {folderId};
      ghost var done: set<string> := {};
      var remaining := subFolderIds;
      assert removed - {folderId} == {};
      while remaining != {}
        invariant done + remaining == subFolderIds && done !! remaining
        invariant Ranked(f0, depth) && folderId in f0 && depth == old(depth)
        invariant removed == {folderId} + SubtreesOf(f0, depth, done)
        invariant FoldersWithout(folders, f0, removed)
        invariant FilesWithout(files, files0, removed - {folderId})
        invariant Valid()
        invariant forall x :: x in SubtreesOf(f0, depth, done) ==> Resolve(libraryPath, f0[x].name) in deleted
        decreases remaining
      {
        var sub :| sub in remaining;
        ghost var before := deleted;
        var more := DeleteSubFolder(folderId, sub, f0, files0, done, removed);
        deleted := deleted + more;
        DeletedGrows(libraryPath, f0, depth, done, sub, before, more, deleted);
        removed := removed + Subtree(f0, depth, sub);
        done := done + {sub};
        remaining := remaining - {sub};
      }
    }

    /**
     * One step of `DeleteSubFolders`: the recursive call, made once the
     * parent's entry is gone.  The child's directory walk is taken to succeed.
     */
    method DeleteSubFolder(folderId: string, sub: string, ghost f0: Folders, ghost files0: Files,
                           ghost done: set<string>, ghost removed: set<string>) returns (more: seq<Path>)
      requires Valid() && Ranked(f0, depth) && folderId in f0
      requires done <= ChildIds(f0, folderId) && sub in ChildIds(f0, folderId) && sub !in done
      requires removed == {folderId} + SubtreesOf(f0, depth, done)
      requires FoldersWithout(folders, f0, removed) && FilesWithout(files, files0, removed - {folderId})
      modifies this
      decreases |f0.Keys|, 0
      ensures Valid() && depth == old(depth)
      ensures removed + Subtree(f0, depth, sub) == {folderId} + SubtreesOf(f0, depth, done + {sub})
      ensures FoldersWithout(folders, f0, removed + Subtree(f0, depth, sub))
      ensures FilesWithout(files, files0, (removed + Subtree(f0, depth, sub)) - {folderId})
      ensures forall x :: x in Subtree(f0, depth, sub) ==> Resolve(libraryPath, f0[x].name) in more
    {
      DeleteBefore(f0, depth, folderId, done, sub, removed, folders);
      DetachedPath(libraryPath, folders, depth, sub);
      ghost var g, h := folders, files;
      var subOk, deletedBelow := DeleteFolder(sub, true);
      more := deletedBelow;
      DeleteAfter(f0, files0, depth, folderId, done, sub, removed, g, h, folders, files);
      forall x | x in Subtree(f0, depth, sub)
        ensures Resolve(libraryPath, f0[x].name) in more
      {
        assert g[x] == f0[x];
      }
    }

    /**
     * `deleteFolder` with each child's directory resolved below its parent's
     * directory before any entry is removed: the same entries go, and every
     * directory handed to the disk lies inside the deleted folder's directory.
     */
    method DeleteFolderResolvedFirst(folderId: string, diskOk: bool) returns (ok: bool, deleted: seq<Path>)
      requires Valid()
      modifies this
      ensures Valid() && depth == old(depth)
      ensures ok <==> folderId in old(folders) && diskOk
      ensures !ok ==> folders == old(folders) && files == old(files) && deleted == []
      ensures ok ==> FoldersWithout(folders, old(folders), Subtree(old(folders), old(depth), folderId))
      ensures ok ==> FilesWithout(files, old(files), Subtree(old(folders), old(depth), folderId))
      ensures ok ==> deleted != [] && deleted[0] == PhysicalPathIn(libraryPath, old(folders), old(depth), folderId)
      ensures forall p :: p in deleted ==> IsPrefix(PhysicalPathIn(libraryPath, old(folders), old(depth), folderId), p)
    {
      if folderId !in folders || !diskOk {
        return false, [];
      }
      var folderPath := GetPhysicalPath(folderId);
      deleted := DeleteTree(folderId, folderPath);
      ok := true;
    }

    /** Deletes the subtree of `folderId`, whose directory is `folderPath`. */
    method DeleteTree(folderId: string, folderPath: Path) returns (deleted: seq<Path>)
      requires Valid() && folderId in folders
      modifies this
      decreases |folders.Keys|, 2
      ensures Valid() && depth == old(depth)
      ensures FoldersWithout(folders, old(folders), Subtree(old(folders), old(depth), folderId))
      ensures FilesWithout(files, old(files), Subtree(old(folders), old(depth), folderId))
      ensures deleted != [] && deleted[0] == folderPath
      ensures forall p :: p in deleted ==> IsPrefix(folderPath, p)
    {
      ghost var f0, files0 := folders, files;
      folders := folders - {folderId};
      ChildrenAfterRemoval(f0, depth, folderId);
      var subFolderIds := ChildIds(folders, folderId);
      var more := DeleteChildTrees(folderId, folderPath, subFolderIds, f0, files0);
      deleted := [folderPath] + more;
      ghost var h := files;
      RemoveFilesOf(folderId);
      DeleteFinish(f0, files0, depth, folderId, {folderId} + SubtreesOf(f0, depth, subFolderIds), h, files);
    }

    /** The loop of `DeleteTree` over the children of `folderId`. */
    method DeleteChildTrees(folderId: string, folderPath: Path, subFolderIds: set<string>,
                            ghost f0: Folders, ghost files0: Files) returns (deleted: seq<Path>)
      requires Valid() && Ranked(f0, depth) && folderId in f0
      requires subFolderIds == ChildIds(f0, folderId)
      requires FoldersWithout(folders, f0, {folderId}) && FilesWithout(files, files0, {})
      modifies this
      decreases |f0.Keys|, 1
      ensures Valid() && depth == old(depth)
      ensures FoldersWithout(folders, f0, {folderId} + SubtreesOf(f0, depth, subFolderIds))
      ensures FilesWithout(files, files0, ({folderId} + SubtreesOf(f0, depth, subFolderIds)) - {folderId})
      ensures forall p :: p in deleted ==> IsPrefix(folderPath, p)
    {
      deleted := [];
      ghost var removed: set<string> := {folderId};
      ghost var done: set<string> := {};
      var remaining := subFolderIds;
      assert removed - {folderId} == {};
      while remaining != {}
        invariant done + remaining == subFolderIds && done !! remaining
        invariant Ranked(f0, depth) && folderId in f0 && depth == old(depth)
        invariant removed == {folderId} + SubtreesOf(f0, depth, done)
        invariant FoldersWithout(folders, f0, removed)
        invariant FilesWithout(files, files0, removed - {folderId})
        invariant Valid()
        invariant forall p :: p in deleted ==> IsPrefix(folderPath, p)
        decreases remaining
      {
        var sub :| sub in remaining;
        var more := DeleteChildTree(folderId, folderPath, sub, f0, files0, done, removed);
        deleted := deleted + more;
        removed := removed + Subtree(f0, depth, sub);
        done := done + {sub};
        remaining := remaining - {sub};
      }
    }

    /** One step of `DeleteChildTrees`: the child's directory is resolved below its parent's. */
    method DeleteChildTree(folderId: string, folderPath: Path, sub: string, ghost f0: Folders, ghost files0: Files,
                           ghost done: set<string>, ghost removed: set<string>) returns (more: seq<Path>)
      requires Valid() && Ranked(f0, depth) && folderId in f0
      requires done <= ChildIds(f0, folderId) && sub in ChildIds(f0, folderId) && sub !in done
      requires removed == {folderId} + SubtreesOf(f0, depth, done)
      requires FoldersWithout(folders, f0, removed) && FilesWithout(files, files0, removed - {folderId})
      modifies this
      decreases |f0.Keys|, 0
      ensures Valid() && depth == old(depth)
      ensures removed + Subtree(f0, depth, sub) == {folderId} + SubtreesOf(f0, depth, done + {sub})
      ensures FoldersWithout(folders, f0, removed + Subtree(f0, depth, sub))
      ensures FilesWithout(files, files0, (removed + Subtree(f0, depth, sub)) - {folderId})
      ensures forall p :: p in more ==> IsPrefix(folderPath, p)
    {
      DeleteBefore(f0, depth, folderId, done, sub, removed, folders);
      ghost var g, h := folders, files;
      var subPath := Resolve(folderPath, folders[sub].name);
      more := DeleteTree(sub, subPath);
      DeleteAfter(f0, files0, depth, folderId, done, sub, removed, g, h, folders, files);
      forall p | p in more
        ensures IsPrefix(folderPath, p)
      {
        PrefixTrans(folderPath, subPath, p);
      }
    }
  }

  /**
   * Deleting folder "A" that holds a folder named "X": the as-written deletion
   * hands the disk `library/X`, a directory outside `library/A`.
   */
  lemma DeleteFolderLeavesItsDirectory()
    ensures var library := ["library"];
            var folders := map["A" := FolderItem("A", "A", Root, 0), "B" := FolderItem("B", "X", "A", 0)];
            var depth := map["A" := 0, "B" := 1];
            Ranked(folders, depth) && "B" in Subtree(folders, depth, "A") && "B" != "A" &&
            Resolve(library, folders["B"].name) == ["library", "X"] &&
            PhysicalPathIn(library, folders, depth, "A") == ["library", "A"] &&
            !IsPrefix(PhysicalPathIn(library, folders, depth, "A"), ["library", "X"])
  {
    var library := ["library"];
    var folders := map["A" := FolderItem("A", "A", Root, 0), "B" := FolderItem("B", "X", "A", 0)];
    var depth := map["A" := 0, "B" := 1];
    assert Ranked(folders, depth);
    assert Reaches(folders, depth, "B", "A");
    assert "B" in Subtree(folders, depth, "A");
    DetachedPath(library, folders, depth, "A");
    assert PhysicalPathIn(library, folders, depth, "A") == ["library", "A"];
    assert ["library", "X"][..2] != ["library", "A"] by {
      assert ["library", "X"][1] != ["library", "A"][1];
    }
  }
}
