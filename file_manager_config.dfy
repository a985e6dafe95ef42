// The file manager's configuration (utils/FileManagerConfig.java): a
// properties table filled with twenty-five defaults and then overridden by
// the user's configuration file, read back through typed getters that fall
// back to a default whenever the stored text does not parse. The file is a
// parameter: what `load` read is passed in, what `store` would write is
// returned. `user.home` and `File.separator` are parameters too.

module FileManagerConfig {
  import opened Wrappers
  import opened JavaText

  /** The boolean settings, one per `is…` getter. */
  datatype Flag =
    | ShowWelcome | RememberLastFolder | ThumbnailEnabled | UseEmojiIcons
    | SearchCaseSensitive | SearchFuzzyEnabled | AutoGenerateThumbnail | ShowProgressForLargeFiles
    | DeleteRequireConfirmation | OperationLogging | LazyLoading | MultiThreading
    | DebugMode | ShowDetailedErrors | PerformanceMetrics

  /** The integer settings, one per `int` getter. */
  datatype Count = GridColumns | LargeFileThreshold | ThumbnailCacheSize | LogFileMaxSize | RefreshInterval | MemoryLimit

  /** The two `WxH` settings. */
  datatype Size = WindowSize | ThumbnailSize

  /** Every key `loadDefaultConfig` sets. */
  datatype Setting = LibraryPath | SortMethod | FlagSetting(flag: Flag) | CountSetting(count: Count) | SizeSetting(size: Size)

  function Key(s: Setting): string
  {
    match s
    case LibraryPath => "library.root.path"
    case SortMethod => "default.sort.method"
    case FlagSetting(f) => FlagKey(f)
    case CountSetting(c) => CountKey(c)
    case SizeSetting(z) => if z == WindowSize then "file.manager.window.size" else "file.thumbnail.size"
  }

  function FlagKey(f: Flag): string
  {
    match f
    case ShowWelcome => "file.manager.show.welcome"
    case RememberLastFolder => "file.manager.remember.last.folder"
    case ThumbnailEnabled => "file.thumbnail.enabled"
    case UseEmojiIcons => "file.manager.use.emoji.icons"
    case SearchCaseSensitive => "search.case.sensitive"
    case SearchFuzzyEnabled => "search.fuzzy.enabled"
    case AutoGenerateThumbnail => "import.auto.generate.thumbnail"
    case ShowProgressForLargeFiles => "import.show.progress.for.large.files"
    case DeleteRequireConfirmation => "delete.require.confirmation"
    case OperationLogging => "operation.logging.enabled"
    case LazyLoading => "lazy.loading.enabled"
    case MultiThreading => "multi.threading.enabled"
    case DebugMode => "debug.mode.enabled"
    case ShowDetailedErrors => "show.detailed.error.messages"
    case PerformanceMetrics => "performance.metrics.enabled"
  }

  function CountKey(c: Count): string
  {
    match c
    case GridColumns => "file.grid.columns.per.row"
    case LargeFileThreshold => "large.file.threshold"
    case ThumbnailCacheSize => "thumbnail.cache.max.size"
    case LogFileMaxSize => "log.file.max.size"
    case RefreshInterval => "file.list.refresh.interval"
    case MemoryLimit => "memory.usage.limit"
  }

  /** The `DEFAULT_…` constants. */
  function FlagDefault(f: Flag): bool
  {
    !(f == SearchCaseSensitive || f == DebugMode || f == PerformanceMetrics)
  }

  function CountDefault(c: Count): int
  {
    match c
    case GridColumns => 5
    case LargeFileThreshold => 10
    case ThumbnailCacheSize => 100
    case LogFileMaxSize => 5
    case RefreshInterval => 1000
    case MemoryLimit => 512
  }

  /** The pair a size getter returns when the stored text does not parse. */
  function SizeDefault(z: Size): (int, int)
  {
    if z == WindowSize then (1000, 700) else (80, 60)
  }

  const SortMethodDefault: string := "name-asc"

  /** The text `loadDefaultConfig` stores under each key. */
  function DefaultText(s: Setting): string
  {
    match s
    case LibraryPath => ""
    case SortMethod => SortMethodDefault
    case FlagSetting(f) => BoolToString(FlagDefault(f))
    case CountSetting(c) => IntToString(CountDefault(c))
    case SizeSetting(z) => SizeDefaultText(z)
  }

  /** `DEFAULT_WINDOW_SIZE` and `DEFAULT_THUMBNAIL_SIZE`. */
  function SizeDefaultText(z: Size): string
  {
    FormatSize(SizeDefault(z).0, SizeDefault(z).1)
  }

  /** The window size default is the text "1000x700". */
  lemma WindowSizeDefaultText()
    ensures DefaultText(SizeSetting(WindowSize)) == "1000x700"
  {
    assert IntToString(1000) == "1000";
    assert IntToString(700) == "700";
  }

  /** The thumbnail size default is the text "80x60". */
  lemma ThumbnailSizeDefaultText()
    ensures DefaultText(SizeSetting(ThumbnailSize)) == "80x60"
  {
    assert IntToString(80) == "80";
    assert IntToString(60) == "60";
  }

  /** The twenty-five settings. */
  const AllSettings: set<Setting> := {
    LibraryPath, SortMethod, SizeSetting(WindowSize), SizeSetting(ThumbnailSize),
    CountSetting(GridColumns), CountSetting(LargeFileThreshold), CountSetting(ThumbnailCacheSize),
    CountSetting(LogFileMaxSize), CountSetting(RefreshInterval), CountSetting(MemoryLimit),
    FlagSetting(ShowWelcome), FlagSetting(RememberLastFolder), FlagSetting(ThumbnailEnabled),
    FlagSetting(UseEmojiIcons), FlagSetting(SearchCaseSensitive), FlagSetting(SearchFuzzyEnabled),
    FlagSetting(AutoGenerateThumbnail), FlagSetting(ShowProgressForLargeFiles),
    FlagSetting(DeleteRequireConfirmation), FlagSetting(OperationLogging), FlagSetting(LazyLoading),
    FlagSetting(MultiThreading), FlagSetting(DebugMode), FlagSetting(ShowDetailedErrors),
    FlagSetting(PerformanceMetrics)
  }

  lemma AllSettingsComplete(s: Setting)
    ensures s in AllSettings
  {
    match s
    case LibraryPath =>
    case SortMethod =>
    case SizeSetting(z) =>
      if z == WindowSize {
      }
    case CountSetting(c) =>
      match c {
        case GridColumns =>
        case LargeFileThreshold =>
        case ThumbnailCacheSize =>
        case LogFileMaxSize =>
        case RefreshInterval =>
        case MemoryLimit =>
      }
    case FlagSetting(f) =>
      match f {
        case ShowWelcome =>
        case RememberLastFolder =>
        case ThumbnailEnabled =>
        case UseEmojiIcons =>
        case SearchCaseSensitive =>
        case SearchFuzzyEnabled =>
        case AutoGenerateThumbnail =>
        case ShowProgressForLargeFiles =>
        case DeleteRequireConfirmation =>
        case OperationLogging =>
        case LazyLoading =>
        case MultiThreading =>
        case DebugMode =>
        case ShowDetailedErrors =>
        case PerformanceMetrics =>
      }
  }

  /**
   * The keys are told apart by their length and their third and sixth
   * characters; `SettingOf` looks a key up by these and then compares it
   * with the candidate's key.
   */
  function Signature(s: Setting): (int, char, char)
  {
    match s
    case LibraryPath => (17, 'b', 'r')
    case SortMethod => (19, 'f', 'l')
    case SizeSetting(z) => if z == WindowSize then (24, 'l', 'm') else (19, 'l', 't')
    case CountSetting(c) =>
      (match c
       case GridColumns => (25, 'l', 'g')
       case LargeFileThreshold => (20, 'r', '.')
       case ThumbnailCacheSize => (24, 'u', 'n')
       case LogFileMaxSize => (17, 'g', 'i')
       case RefreshInterval => (26, 'l', 'l')
       case MemoryLimit => (18, 'm', 'y'))
    case FlagSetting(f) =>
      (match f
       case ShowWelcome => (25, 'l', 'm')
       case RememberLastFolder => (33, 'l', 'm')
       case ThumbnailEnabled => (22, 'l', 't')
       case UseEmojiIcons => (28, 'l', 'm')
       case SearchCaseSensitive => (21, 'a', 'h')
       case SearchFuzzyEnabled => (20, 'a', 'h')
       case AutoGenerateThumbnail => (30, 'p', 't')
       case ShowProgressForLargeFiles => (36, 'p', 't')
       case DeleteRequireConfirmation => (27, 'l', 'e')
       case OperationLogging => (25, 'e', 't')
       case LazyLoading => (20, 'z', 'l')
       case MultiThreading => (23, 'l', '.')
       case DebugMode => (18, 'b', '.')
       case ShowDetailedErrors => (28, 'o', 'd')
       case PerformanceMetrics => (27, 'r', 'r'))
  }

  function SignatureOf(key: string): (int, char, char)
    requires |key| >= 6
  {
    (|key|, key[2], key[5])
  }

  lemma SignatureOfKey(s: Setting)
    ensures |Key(s)| >= 6 && SignatureOf(Key(s)) == Signature(s)
  {
    match s
    case LibraryPath =>
    case SortMethod =>
    case SizeSetting(z) =>
    case CountSetting(c) =>
      if c.GridColumns? || c.LargeFileThreshold? || c.ThumbnailCacheSize? { SignatureOfCountKeys1(c); }
      else { SignatureOfCountKeys2(c); }
    case FlagSetting(f) =>
      if f.ShowWelcome? || f.RememberLastFolder? || f.ThumbnailEnabled? || f.UseEmojiIcons? { SignatureOfFlagKeys1(f); }
      else if f.SearchCaseSensitive? || f.SearchFuzzyEnabled? || f.AutoGenerateThumbnail? || f.ShowProgressForLargeFiles? { SignatureOfFlagKeys2(f); }
      else if f.DeleteRequireConfirmation? || f.OperationLogging? || f.LazyLoading? || f.MultiThreading? { SignatureOfFlagKeys3(f); }
      else { SignatureOfFlagKeys4(f); }
  }

  lemma SignatureOfCountKeys1(c: Count)
    requires c.GridColumns? || c.LargeFileThreshold? || c.ThumbnailCacheSize?
    ensures |CountKey(c)| >= 6 && SignatureOf(CountKey(c)) == Signature(CountSetting(c))
  {
  }

  lemma SignatureOfCountKeys2(c: Count)
    requires c.LogFileMaxSize? || c.RefreshInterval? || c.MemoryLimit?
    ensures |CountKey(c)| >= 6 && SignatureOf(CountKey(c)) == Signature(CountSetting(c))
  {
  }

  lemma SignatureOfFlagKeys1(f: Flag)
    requires f.ShowWelcome? || f.RememberLastFolder? || f.ThumbnailEnabled? || f.UseEmojiIcons?
    ensures |FlagKey(f)| >= 6 && SignatureOf(FlagKey(f)) == Signature(FlagSetting(f))
  {
  }

  lemma SignatureOfFlagKeys2(f: Flag)
    requires f.SearchCaseSensitive? || f.SearchFuzzyEnabled? || f.AutoGenerateThumbnail? || f.ShowProgressForLargeFiles?
    ensures |FlagKey(f)| >= 6 && SignatureOf(FlagKey(f)) == Signature(FlagSetting(f))
  {
  }

  lemma SignatureOfFlagKeys3(f: Flag)
    requires f.DeleteRequireConfirmation? || f.OperationLogging? || f.LazyLoading? || f.MultiThreading?
    ensures |FlagKey(f)| >= 6 && SignatureOf(FlagKey(f)) == Signature(FlagSetting(f))
  {
  }

  lemma SignatureOfFlagKeys4(f: Flag)
    requires f.DebugMode? || f.ShowDetailedErrors? || f.PerformanceMetrics?
    ensures |FlagKey(f)| >= 6 && SignatureOf(FlagKey(f)) == Signature(FlagSetting(f))
  {
  }

  /** The setting with a given signature, if any. */
  function SettingWith(sig: (int, char, char)): (r: Option<Setting>)
    ensures r.Some? ==> Signature(r.value) == sig
  {
    if sig == (17, 'b', 'r') then Some(LibraryPath)
    else if sig == (19, 'f', 'l') then Some(SortMethod)
    else if sig == (24, 'l', 'm') then Some(SizeSetting(WindowSize))
    else if sig == (19, 'l', 't') then Some(SizeSetting(ThumbnailSize))
    else if sig == (25, 'l', 'g') then Some(CountSetting(GridColumns))
    else if sig == (20, 'r', '.') then Some(CountSetting(LargeFileThreshold))
    else if sig == (24, 'u', 'n') then Some(CountSetting(ThumbnailCacheSize))
    else if sig == (17, 'g', 'i') then Some(CountSetting(LogFileMaxSize))
    else if sig == (26, 'l', 'l') then Some(CountSetting(RefreshInterval))
    else if sig == (18, 'm', 'y') then Some(CountSetting(MemoryLimit))
    else if sig == (25, 'l', 'm') then Some(FlagSetting(ShowWelcome))
    else if sig == (33, 'l', 'm') then Some(FlagSetting(RememberLastFolder))
    else if sig == (22, 'l', 't') then Some(FlagSetting(ThumbnailEnabled))
    else if sig == (28, 'l', 'm') then Some(FlagSetting(UseEmojiIcons))
    else if sig == (21, 'a', 'h') then Some(FlagSetting(SearchCaseSensitive))
    else if sig == (20, 'a', 'h') then Some(FlagSetting(SearchFuzzyEnabled))
    else if sig == (30, 'p', 't') then Some(FlagSetting(AutoGenerateThumbnail))
    else if sig == (36, 'p', 't') then Some(FlagSetting(ShowProgressForLargeFiles))
    else if sig == (27, 'l', 'e') then Some(FlagSetting(DeleteRequireConfirmation))
    else if sig == (25, 'e', 't') then Some(FlagSetting(OperationLogging))
    else if sig == (20, 'z', 'l') then Some(FlagSetting(LazyLoading))
    else if sig == (23, 'l', '.') then Some(FlagSetting(MultiThreading))
    else if sig == (18, 'b', '.') then Some(FlagSetting(DebugMode))
    else if sig == (28, 'o', 'd') then Some(FlagSetting(ShowDetailedErrors))
    else if sig == (27, 'r', 'r') then Some(FlagSetting(PerformanceMetrics))
    else None
  }

  /** Distinct settings have distinct signatures, and `SettingWith` finds each. */
  lemma SettingWithSignature(s: Setting)
    ensures SettingWith(Signature(s)) == Some(s)
  {
  }

  /** Which setting a key names, if any. */
  function SettingOf(key: string): (r: Option<Setting>)
    ensures r.Some? ==> Key(r.value) == key
  {
    if |key| < 9 then None
    else
      match SettingWith(SignatureOf(key))
      case Some(s) => if Key(s) == key then Some(s) else None
      case None => None
  }

  /** Each key names its own setting, so no two settings share a key. */
  lemma SettingOfKey(s: Setting)
    ensures SettingOf(Key(s)) == Some(s)
  {
    SignatureOfKey(s);
    SettingWithSignature(s);
  }

  lemma KeyInjective(s: Setting, t: Setting)
    requires Key(s) == Key(t)
    ensures s == t
  {
    SettingOfKey(s);
    SettingOfKey(t);
  }

  // ---------------------------------------------------------------------
  // The default table and the typed readers
  // ---------------------------------------------------------------------

  /** The keys `loadDefaultConfig` sets. */
  const DefaultKeys: set<string> := set s | s in AllSettings :: Key(s)

  /** The default text of the setting a key names; "" for a key that names none. */
  function DefaultTextOf(key: string): string
  {
    match SettingOf(key)
    case Some(s) => DefaultText(s)
    case None => ""
  }

  /** The table `loadDefaultConfig` fills in. */
  function DefaultConfig(): (p: Properties)
    ensures p.Keys == DefaultKeys
  {
    map k | k in DefaultKeys :: DefaultTextOf(k)
  }

  /** The default table holds exactly the twenty-five keys, each with its own default text. */
  lemma DefaultConfigAt(s: Setting)
    ensures Key(s) in DefaultConfig() && DefaultConfig()[Key(s)] == DefaultText(s)
  {
    AllSettingsComplete(s);
    SettingOfKey(s);
  }

  lemma DefaultKeysAreSettingKeys(key: string)
    ensures key in DefaultKeys <==> SettingOf(key).Some?
  {
    if key in DefaultKeys {
      var s :| s in AllSettings && Key(s) == key;
      SettingOfKey(s);
    }
    if SettingOf(key).Some? {
      AllSettingsComplete(SettingOf(key).value);
    }
  }

  /** `Boolean.parseBoolean` of the stored text, or of the default's text when the key is absent. */
  function ReadFlag(p: Properties, f: Flag): (r: bool)
    ensures FlagKey(f) in p ==> (r <==> ToLower(p[FlagKey(f)]) == "true")
    ensures FlagKey(f) !in p ==> r == FlagDefault(f)
  {
    ParseBooleanOfBoolToString(FlagDefault(f));
    ParseBoolean(GetProperty(p, FlagKey(f), BoolToString(FlagDefault(f))))
  }

  /** `Integer.parseInt` of the stored text; the default when it is absent or not an `int`. */
  function ReadCount(p: Properties, c: Count): (r: int)
    ensures CountKey(c) in p && ParseInt(p[CountKey(c)]).Some? ==> r == ParseInt(p[CountKey(c)]).value
    ensures CountKey(c) !in p || ParseInt(p[CountKey(c)]).None? ==> r == CountDefault(c)
    ensures IsInt32(r)
  {
    ParseIntOfIntToString(CountDefault(c));
    match ParseInt(GetProperty(p, CountKey(c), IntToString(CountDefault(c))))
    case Some(n) => n
    case None => CountDefault(c)
  }

  /** The text `setWindowSize` stores: `width + "x" + height`. */
  function FormatSize(width: int, height: int): string
  {
    IntToString(width) + "x" + IntToString(height)
  }

  /**
   * `split("x")` and `Integer.parseInt` of the first two fields; None where
   * Java throws (fewer than two fields, or one that is not an `int`). Fields
   * after the second are ignored.
   */
  function ParseSize(text: string): (r: Option<(int, int)>)
    ensures r.Some? ==> IsInt32(r.value.0) && IsInt32(r.value.1)
  {
    var parts := Split(text, 'x');
    if |parts| < 2 then None
    else
      match (ParseInt(parts[0]), ParseInt(parts[1]))
      case (Some(w), Some(h)) => Some((w, h))
      case _ => None
  }

  /** Text without an 'x' is a single field, which is never a size. */
  lemma ParseSizeNeedsSeparator(text: string)
    requires 'x' !in text
    ensures ParseSize(text) == None
  {
  }

  /** Two pieces without the separator split back into those two pieces. */
  lemma SplitTwo(a: string, b: string, sep: char)
    requires sep !in a && sep !in b && b != []
    ensures Split(a + [sep] + b, sep) == [a, b]
  {
    var s := a + [sep] + b;
    assert s[|a|] == sep;
    var i := IndexOfChar(s, sep);
    assert s[..|a|] == a;
    assert i == |a|;
    assert s[i + 1..] == b;
    assert SplitAll(b, sep) == [b];
    assert SplitAll(s, sep) == [a, b];
  }

  lemma NoSeparatorInInt(n: int)
    ensures 'x' !in IntToString(n)
  {
    var t := IntToString(n);
    if n < 0 {
      assert forall k :: 1 <= k < |t| ==> IsDigit(t[k]);
    }
  }

  /** What `setWindowSize` stores, `getWindowSize` reads back, for every pair of `int`s. */
  lemma ParseFormatSize(width: int, height: int)
    requires IsInt32(width) && IsInt32(height)
    ensures ParseSize(FormatSize(width, height)) == Some((width, height))
  {
    NoSeparatorInInt(width);
    NoSeparatorInInt(height);
    assert FormatSize(width, height) == IntToString(width) + ['x'] + IntToString(height);
    SplitTwo(IntToString(width), IntToString(height), 'x');
    ParseIntOfIntToString(width);
    ParseIntOfIntToString(height);
  }

  /** The default texts read as the fallback pairs. */
  lemma DefaultSizeParses(z: Size)
    ensures ParseSize(SizeDefaultText(z)) == Some(SizeDefault(z))
  {
    var d := SizeDefault(z);
    ParseFormatSize(d.0, d.1);
  }

  function SizeKey(z: Size): string { Key(SizeSetting(z)) }

  /** `getWindowSize`/`getThumbnailSize`: the stored pair, or the fallback pair when it does not parse. */
  function ReadSize(p: Properties, z: Size): (r: (int, int))
    ensures SizeKey(z) in p && ParseSize(p[SizeKey(z)]).Some? ==> r == ParseSize(p[SizeKey(z)]).value
    ensures SizeKey(z) !in p || ParseSize(p[SizeKey(z)]).None? ==> r == SizeDefault(z)
  {
    DefaultSizeParses(z);
    ParseSize(GetProperty(p, SizeKey(z), SizeDefaultText(z))).GetOr(SizeDefault(z))
  }

  /** `getLibraryRootPath`: the stored path unless it is blank, else `<home><separator>E_Reader_Library`. */
  function ReadLibraryRoot(p: Properties, userHome: string, separator: string): (r: string)
    ensures Key(LibraryPath) in p && Trim(p[Key(LibraryPath)]) != [] ==> r == p[Key(LibraryPath)]
    ensures Key(LibraryPath) !in p || Trim(p[Key(LibraryPath)]) == [] ==> r == userHome + separator + "E_Reader_Library"
  {
    var path := GetProperty(p, Key(LibraryPath), "");
    if Trim(path) == [] then userHome + separator + "E_Reader_Library" else path
  }

  /** `getDefaultSortMethod`. */
  function ReadSortMethod(p: Properties): (r: string)
    ensures Key(SortMethod) in p ==> r == p[Key(SortMethod)]
    ensures Key(SortMethod) !in p ==> r == SortMethodDefault
  {
    GetProperty(p, Key(SortMethod), SortMethodDefault)
  }

  /** Every getter on the default table returns its `DEFAULT_…` constant. */
  lemma DefaultFlagsRead(f: Flag)
    ensures ReadFlag(DefaultConfig(), f) == FlagDefault(f)
  {
    DefaultConfigAt(FlagSetting(f));
    ParseBooleanOfBoolToString(FlagDefault(f));
  }

  lemma DefaultCountsRead(c: Count)
    ensures ReadCount(DefaultConfig(), c) == CountDefault(c)
  {
    DefaultConfigAt(CountSetting(c));
    ParseIntOfIntToString(CountDefault(c));
  }

  lemma DefaultSizesRead(z: Size)
    ensures ReadSize(DefaultConfig(), z) == SizeDefault(z)
  {
    DefaultConfigAt(SizeSetting(z));
    SizeDefaultReads(DefaultConfig(), z);
  }

  lemma SizeDefaultReads(p: Properties, z: Size)
    requires SizeKey(z) in p && p[SizeKey(z)] == SizeDefaultText(z)
    ensures ReadSize(p, z) == SizeDefault(z)
  {
    DefaultSizeParses(z);
  }

  lemma DefaultPathsRead(userHome: string, separator: string)
    ensures ReadSortMethod(DefaultConfig()) == SortMethodDefault
    ensures ReadLibraryRoot(DefaultConfig(), userHome, separator) == userHome + separator + "E_Reader_Library"
  {
    DefaultConfigAt(SortMethod);
    DefaultConfigAt(LibraryPath);
  }

  // ---------------------------------------------------------------------
  // Setting and reading back
  // ---------------------------------------------------------------------

  lemma FlagReadsBack(p: Properties, f: Flag, b: bool)
    ensures ReadFlag(p[FlagKey(f) := BoolToString(b)], f) == b
  {
    ParseBooleanOfBoolToString(b);
  }

  lemma CountReadsBack(p: Properties, c: Count, n: int)
    requires IsInt32(n)
    ensures ReadCount(p[CountKey(c) := IntToString(n)], c) == n
  {
    ParseIntOfIntToString(n);
  }

  lemma SizeReadsBack(p: Properties, z: Size, width: int, height: int)
    requires IsInt32(width) && IsInt32(height)
    ensures ReadSize(p[SizeKey(z) := FormatSize(width, height)], z) == (width, height)
  {
    ParseFormatSize(width, height);
  }

  /** A non-blank path reads back as stored; `null` is stored as "" and reads as the home library. */
  lemma LibraryRootReadsBack(p: Properties, path: Option<string>, userHome: string, separator: string)
    ensures ReadLibraryRoot(p[Key(LibraryPath) := path.GetOr("")], userHome, separator) ==
            if path.Some? && Trim(path.value) != [] then path.value else userHome + separator + "E_Reader_Library"
  {
    if path.None? {
      assert Trim("") == [];
    }
  }

  /** What `load` found: no file, a file that could not be read, or its table. */
  datatype ConfigFile = Missing | Unreadable | Found(props: Properties)

  /** The table `loadConfig` leaves: the defaults, each overridden by the user's key when present. */
  function LoadedConfig(file: ConfigFile): (p: Properties)
    ensures !file.Found? ==> p == DefaultConfig()
    ensures file.Found? ==> p.Keys == DefaultKeys + file.props.Keys
    ensures file.Found? ==> forall k :: k in file.props ==> p[k] == file.props[k]
    ensures forall k :: k in DefaultKeys && !(file.Found? && k in file.props) ==> p[k] == DefaultConfig()[k]
  {
    if file.Found? then DefaultConfig() + file.props else DefaultConfig()
  }

  class FileManagerConfig {
    var config: Properties

    /** `getInstance()` on first use: the private constructor runs `loadConfig`. */
    constructor (file: ConfigFile)
      ensures config == LoadedConfig(file)
    {
      config := map[];
      new;
      var _ := LoadConfig(file);
    }

    /**
     * `loadConfig`: the defaults, then every key of the user's file copied
     * over them one at a time. A missing file is created with the defaults;
     * `created` is what would be written then.
     */
    method LoadConfig(file: ConfigFile) returns (created: Option<Properties>)
      modifies this
      ensures config == LoadedConfig(file)
      ensures created == if file.Missing? then Some(DefaultConfig()) else None
    {
      config := map[];
      LoadDefaultConfig();
      assert config == DefaultConfig();
      created := None;
      match file
      case Found(user) =>
        MergeUserConfig(user);
      case Unreadable =>
      case Missing =>
        // saveDefaultConfig
        created := Some(config);
    }

    /** The merge loop of `loadConfig`: every key of the user's table is set over the current one. */
    method MergeUserConfig(user: Properties)
      modifies this
      ensures config == old(config) + user
    {
      var keys := user.Keys;
      while keys != {}
        invariant keys <= user.Keys
        invariant config.Keys == old(config).Keys + (user.Keys - keys)
        invariant forall k :: k in config ==> config[k] == if k in user.Keys - keys then user[k] else old(config)[k]
        decreases |keys|
      {
        var key :| key in keys;
        config := config[key := user[key]];
        keys := keys - {key};
      }
      assert config == old(config) + user;
    }

    /** `loadDefaultConfig`: the twenty-five defaults written over the table. */
    method LoadDefaultConfig()
      modifies this
      ensures config == old(config) + DefaultConfig()
    {
      config := config + DefaultConfig();
    }

    /** `saveConfig`: the table as `store` would write it. */
    method SaveConfig() returns (written: Properties)
      ensures written == config
    {
      written := config;
    }

    /** `resetToDefaults`: only the defaults remain, and they are written out. */
    method ResetToDefaults() returns (written: Properties)
      modifies this
      ensures config == DefaultConfig() && written == config
    {
      config := map[];
      LoadDefaultConfig();
      assert config == DefaultConfig();
      written := SaveConfig();
    }

    function IsEnabled(f: Flag): bool
      reads this
    {
      ReadFlag(config, f)
    }

    function GetCount(c: Count): int
      reads this
    {
      ReadCount(config, c)
    }

    function GetSize(z: Size): (int, int)
      reads this
    {
      ReadSize(config, z)
    }

    function GetLibraryRootPath(userHome: string, separator: string): string
      reads this
    {
      ReadLibraryRoot(config, userHome, separator)
    }

    function GetDefaultSortMethod(): string
      reads this
    {
      ReadSortMethod(config)
    }

    /** `setLibraryRootPath`: `null` is stored as "". */
    method SetLibraryRootPath(path: Option<string>)
      modifies this
      ensures config == old(config)[Key(LibraryPath) := path.GetOr("")]
    {
      config := config[Key(LibraryPath) := if path.Some? then path.value else ""];
    }

    method SetShowWelcome(show: bool)
      modifies this
      ensures config == old(config)[FlagKey(ShowWelcome) := BoolToString(show)]
      ensures IsEnabled(ShowWelcome) == show
    {
      config := config[FlagKey(ShowWelcome) := BoolToString(show)];
      FlagReadsBack(old(config), ShowWelcome, show);
    }

    method SetRememberLastFolder(remember: bool)
      modifies this
      ensures config == old(config)[FlagKey(RememberLastFolder) := BoolToString(remember)]
      ensures IsEnabled(RememberLastFolder) == remember
    {
      config := config[FlagKey(RememberLastFolder) := BoolToString(remember)];
      FlagReadsBack(old(config), RememberLastFolder, remember);
    }

    method SetWindowSize(width: int, height: int)
      requires IsInt32(width) && IsInt32(height)
      modifies this
      ensures config == old(config)[SizeKey(WindowSize) := FormatSize(width, height)]
      ensures GetSize(WindowSize) == (width, height)
    {
      config := config[SizeKey(WindowSize) := FormatSize(width, height)];
      SizeReadsBack(old(config), WindowSize, width, height);
    }

    method SetGridColumnsPerRow(columns: int)
      requires IsInt32(columns)
      modifies this
      ensures config == old(config)[CountKey(GridColumns) := IntToString(columns)]
      ensures GetCount(GridColumns) == columns
    {
      config := config[CountKey(GridColumns) := IntToString(columns)];
      CountReadsBack(old(config), GridColumns, columns);
    }

    method SetThumbnailEnabled(enabled: bool)
      modifies this
      ensures config == old(config)[FlagKey(ThumbnailEnabled) := BoolToString(enabled)]
      ensures IsEnabled(ThumbnailEnabled) == enabled
    {
      config := config[FlagKey(ThumbnailEnabled) := BoolToString(enabled)];
      FlagReadsBack(old(config), ThumbnailEnabled, enabled);
    }

    method SetDefaultSortMethod(sortMethod: string)
      modifies this
      ensures config == old(config)[Key(SortMethod) := sortMethod]
      ensures GetDefaultSortMethod() == sortMethod
    {
      config := config[Key(SortMethod) := sortMethod];
    }
  }
}
