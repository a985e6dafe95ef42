// The application settings (settings/SettingsManager.java): thirteen typed
// fields kept beside a properties table that is written to and read from the
// settings file. The file itself is a parameter: what `store` would write is
// returned, and what `load` would read is passed in (None for an IOException).
// The clock hour is a parameter too.

module SettingsManager {
  import opened Wrappers
  import opened JavaText
  import opened ImageViewer

  /** `SettingsManager.ThemeMode`: five themes with a display name and three colours each. */
  datatype ThemeMode = Light | Dark | Black | EyeCare | Sepia

  function ThemeDisplayName(t: ThemeMode): string
  {
    match t
    case Light => "淺色模式"
    case Dark => "深色模式"
    case Black => "純黑模式"
    case EyeCare => "護眼模式"
    case Sepia => "復古模式"
  }

  function ThemeBackgroundColor(t: ThemeMode): string
  {
    match t
    case Light => "#ffffff"
    case Dark => "#1e1e1e"
    case Black => "#000000"
    case EyeCare => "#1a1a0f"
    case Sepia => "#f4ecd8"
  }

  function ThemeTextColor(t: ThemeMode): string
  {
    match t
    case Light => "#000000"
    case Dark => "#ffffff"
    case Black => "#e0e0e0"
    case EyeCare => "#d4d4aa"
    case Sepia => "#5d4e37"
  }

  function ThemeControlColor(t: ThemeMode): string
  {
    match t
    case Light => "#f5f5f5"
    case Dark => "#2b2b2b"
    case Black => "#121212"
    case EyeCare => "#2a2a1f"
    case Sepia => "#f0e6d2"
  }

  /** The enum constant's name, as `toString()` prints it. */
  function ThemeName(t: ThemeMode): string
  {
    match t
    case Light => "LIGHT"
    case Dark => "DARK"
    case Black => "BLACK"
    case EyeCare => "EYE_CARE"
    case Sepia => "SEPIA"
  }

  /** `ThemeMode.valueOf`: the constant with exactly that name, None for an IllegalArgumentException. */
  function ThemeValueOf(s: string): (r: Option<ThemeMode>)
    ensures forall t :: r == Some(t) <==> s == ThemeName(t)
  {
    if s == "LIGHT" then Some(Light)
    else if s == "DARK" then Some(Dark)
    else if s == "BLACK" then Some(Black)
    else if s == "EYE_CARE" then Some(EyeCare)
    else if s == "SEPIA" then Some(Sepia)
    else None
  }

  /** Every theme has its own background, so the colour tells the theme. */
  lemma ThemeBackgroundsDistinct(t: ThemeMode, u: ThemeMode)
    ensures ThemeBackgroundColor(t) == ThemeBackgroundColor(u) <==> t == u
  {
  }

  /** The values of the thirteen settings fields. */
  datatype Values = Values(
    fitMode: FitMode,
    backgroundColor: string,
    showPageNumbers: bool,
    enableTouchNavigation: bool,
    autoSaveInterval: int,
    defaultZoomLevel: real,
    rememberLastFile: bool,
    themeMode: ThemeMode,
    eyeCareMode: bool,
    eyeCareBrightness: int,
    nightMode: bool,
    nightModeStartHour: int,
    nightModeEndHour: int)

  /** The integer fields hold Java `int`s. */
  predicate IntFields(v: Values)
  {
    IsInt32(v.autoSaveInterval) && IsInt32(v.eyeCareBrightness) &&
    IsInt32(v.nightModeStartHour) && IsInt32(v.nightModeEndHour)
  }

  /** The field initialisers. */
  const DefaultValues: Values :=
    Values(FitWidth, "#1e1e1e", true, true, 30, 1.0, true, Dark, false, 80, false, 20, 7)

  /** What `loadDefaultSettings` writes into the table. */
  const DefaultProperties: Properties := map[
    "fitMode" := "FIT_WIDTH",
    "backgroundColor" := "#1e1e1e",
    "showPageNumbers" := "true",
    "enableTouchNavigation" := "true",
    "autoSaveInterval" := "30",
    "defaultZoomLevel" := "1.0",
    "rememberLastFile" := "true",
    "themeMode" := "DARK",
    "eyeCareMode" := "false",
    "eyeCareBrightness" := "80",
    "nightMode" := "false",
    "nightModeStartHour" := "20",
    "nightModeEndHour" := "7"]

  /** The thirteen keys. */
  const SettingKeys: set<string> := DefaultProperties.Keys

  /** The text `saveSettings` writes under one key. */
  function EncodeEntry(v: Values, d: DoubleText, key: string): string
  {
    if key == "fitMode" then FitModeName(v.fitMode)
    else if key == "backgroundColor" then v.backgroundColor
    else if key == "showPageNumbers" then BoolToString(v.showPageNumbers)
    else if key == "enableTouchNavigation" then BoolToString(v.enableTouchNavigation)
    else if key == "autoSaveInterval" then IntToString(v.autoSaveInterval)
    else if key == "defaultZoomLevel" then d.show(v.defaultZoomLevel)
    else if key == "rememberLastFile" then BoolToString(v.rememberLastFile)
    else if key == "themeMode" then ThemeName(v.themeMode)
    else if key == "eyeCareMode" then BoolToString(v.eyeCareMode)
    else if key == "eyeCareBrightness" then IntToString(v.eyeCareBrightness)
    else if key == "nightMode" then BoolToString(v.nightMode)
    else if key == "nightModeStartHour" then IntToString(v.nightModeStartHour)
    else IntToString(v.nightModeEndHour)
  }

  /** The thirteen entries `saveSettings` writes for these values. */
  function Encode(v: Values, d: DoubleText): (p: Properties)
    ensures p.Keys == DefaultProperties.Keys
  {
    map key | key in SettingKeys :: EncodeEntry(v, d, key)
  }

  /** The four numbers `loadSettings` parses in one try block: all of them, or None when any fails. */
  function ParseNumbers(p: Properties, d: DoubleText): (r: Option<(real, int, int, int)>)
    ensures r.Some? <==>
              d.parse(GetProperty(p, "defaultZoomLevel", "1.0")).Some? &&
              ParseInt(GetProperty(p, "eyeCareBrightness", "80")).Some? &&
              ParseInt(GetProperty(p, "nightModeStartHour", "20")).Some? &&
              ParseInt(GetProperty(p, "nightModeEndHour", "7")).Some?
  {
    var zoom := d.parse(GetProperty(p, "defaultZoomLevel", "1.0"));
    var brightness := ParseInt(GetProperty(p, "eyeCareBrightness", "80"));
    var start := ParseInt(GetProperty(p, "nightModeStartHour", "20"));
    var end := ParseInt(GetProperty(p, "nightModeEndHour", "7"));
    if zoom.Some? && brightness.Some? && start.Some? && end.Some? then
      Some((zoom.value, brightness.value, start.value, end.value))
    else None
  }

  /**
   * The fields `loadSettings` reads from the table. `autoSaveInterval` is not
   * read, so it keeps the value it had (`kept`).
   */
  function Decode(p: Properties, kept: int, d: DoubleText): (v: Values)
    ensures v.autoSaveInterval == kept
    ensures v.fitMode == FitModeValueOf(GetProperty(p, "fitMode", "FIT_WIDTH")).GetOr(FitWidth)
    ensures v.themeMode == ThemeValueOf(GetProperty(p, "themeMode", "DARK")).GetOr(Dark)
    ensures "backgroundColor" !in p ==> v.backgroundColor == ThemeBackgroundColor(v.themeMode)
    ensures ParseNumbers(p, d).None? ==>
              v.defaultZoomLevel == 1.0 && v.eyeCareBrightness == 80 &&
              v.nightModeStartHour == 20 && v.nightModeEndHour == 7
    ensures IsInt32(kept) ==> IntFields(v)
    ensures ReadsBack(d) ==> v.defaultZoomLevel in d.values
  {
    var fitMode := FitModeValueOf(GetProperty(p, "fitMode", "FIT_WIDTH")).GetOr(FitWidth);
    var themeMode := ThemeValueOf(GetProperty(p, "themeMode", "DARK")).GetOr(Dark);
    var numbers := ParseNumbers(p, d).GetOr((1.0, 80, 20, 7));
    Values(
      fitMode,
      GetProperty(p, "backgroundColor", ThemeBackgroundColor(themeMode)),
      ParseBoolean(GetProperty(p, "showPageNumbers", "true")),
      ParseBoolean(GetProperty(p, "enableTouchNavigation", "true")),
      kept,
      numbers.0,
      ParseBoolean(GetProperty(p, "rememberLastFile", "true")),
      themeMode,
      ParseBoolean(GetProperty(p, "eyeCareMode", "false")),
      numbers.1,
      ParseBoolean(GetProperty(p, "nightMode", "false")),
      numbers.2,
      numbers.3)
  }

  /**
   * Save then load: reading back the saved entries restores every field
   * except `autoSaveInterval`, whatever else the table held.
   */
  lemma DecodeEncode(base: Properties, v: Values, kept: int, d: DoubleText)
    requires IntFields(v) && ReadsBack(d) && v.defaultZoomLevel in d.values
    ensures Decode(base + Encode(v, d), kept, d) == v.(autoSaveInterval := kept)
  {
    var p := base + Encode(v, d);
    EncodedNames(base, v, d);
    EncodedFlags(base, v, d);
    EncodedModes(base, v, d);
    EncodedNumbers(base, v, d);
    assert ThemeValueOf(ThemeName(v.themeMode)) == Some(v.themeMode);
    FitModeRoundTrip(v.fitMode);
    ReadBoolBack(p, "showPageNumbers", "true", v.showPageNumbers);
    ReadBoolBack(p, "enableTouchNavigation", "true", v.enableTouchNavigation);
    ReadBoolBack(p, "rememberLastFile", "true", v.rememberLastFile);
    ReadBoolBack(p, "eyeCareMode", "false", v.eyeCareMode);
    ReadBoolBack(p, "nightMode", "false", v.nightMode);
    ReadNumbersBack(p, v, d);
  }

  // The saved entries are found in the table they were written into.

  lemma EncodedNames(base: Properties, v: Values, d: DoubleText)
    ensures var p := base + Encode(v, d);
            "fitMode" in p && p["fitMode"] == FitModeName(v.fitMode) &&
            "backgroundColor" in p && p["backgroundColor"] == v.backgroundColor &&
            "themeMode" in p && p["themeMode"] == ThemeName(v.themeMode)
  {
  }

  lemma EncodedFlags(base: Properties, v: Values, d: DoubleText)
    ensures var p := base + Encode(v, d);
            "showPageNumbers" in p && p["showPageNumbers"] == BoolToString(v.showPageNumbers) &&
            "enableTouchNavigation" in p && p["enableTouchNavigation"] == BoolToString(v.enableTouchNavigation) &&
            "rememberLastFile" in p && p["rememberLastFile"] == BoolToString(v.rememberLastFile)
  {
  }

  lemma EncodedModes(base: Properties, v: Values, d: DoubleText)
    ensures var p := base + Encode(v, d);
            "eyeCareMode" in p && p["eyeCareMode"] == BoolToString(v.eyeCareMode) &&
            "nightMode" in p && p["nightMode"] == BoolToString(v.nightMode)
  {
  }

  lemma EncodedNumbers(base: Properties, v: Values, d: DoubleText)
    ensures var p := base + Encode(v, d);
            "defaultZoomLevel" in p && p["defaultZoomLevel"] == d.show(v.defaultZoomLevel) &&
            "eyeCareBrightness" in p && p["eyeCareBrightness"] == IntToString(v.eyeCareBrightness) &&
            "nightModeStartHour" in p && p["nightModeStartHour"] == IntToString(v.nightModeStartHour) &&
            "nightModeEndHour" in p && p["nightModeEndHour"] == IntToString(v.nightModeEndHour)
  {
  }

  lemma ReadBoolBack(p: Properties, key: string, default: string, b: bool)
    requires key in p && p[key] == BoolToString(b)
    ensures ParseBoolean(GetProperty(p, key, default)) == b
  {
    ParseBooleanOfBoolToString(b);
  }

  lemma ReadNumbersBack(p: Properties, v: Values, d: DoubleText)
    requires IntFields(v) && ReadsBack(d) && v.defaultZoomLevel in d.values
    requires "defaultZoomLevel" in p && p["defaultZoomLevel"] == d.show(v.defaultZoomLevel)
    requires "eyeCareBrightness" in p && p["eyeCareBrightness"] == IntToString(v.eyeCareBrightness)
    requires "nightModeStartHour" in p && p["nightModeStartHour"] == IntToString(v.nightModeStartHour)
    requires "nightModeEndHour" in p && p["nightModeEndHour"] == IntToString(v.nightModeEndHour)
    ensures ParseNumbers(p, d) ==
            Some((v.defaultZoomLevel, v.eyeCareBrightness, v.nightModeStartHour, v.nightModeEndHour))
  {
    ParseIntOfIntToString(v.eyeCareBrightness);
    ParseIntOfIntToString(v.nightModeStartHour);
    ParseIntOfIntToString(v.nightModeEndHour);
    assert d.parse(d.show(v.defaultZoomLevel)) == Some(v.defaultZoomLevel);
  }

  /** The default table stands for the default fields. */
  lemma DefaultsEncode(d: DoubleText)
    requires ReadsBack(d)
    ensures Encode(DefaultValues, d) == DefaultProperties
  {
    forall key | key in SettingKeys
      ensures Encode(DefaultValues, d)[key] == DefaultProperties[key]
    {
      DefaultEntry(d, key);
    }
  }

  /** Each default value, written out, is the default table's text for its key. */
  lemma DefaultEntry(d: DoubleText, key: string)
    requires ReadsBack(d) && key in SettingKeys
    ensures EncodeEntry(DefaultValues, d, key) == DefaultProperties[key]
  {
    assert IntToString(30) == "30" && IntToString(80) == "80" && IntToString(20) == "20" && IntToString(7) == "7";
  }

  /** A fresh manager that loads a saved file gets every field back but `autoSaveInterval`, which is 30 again. */
  lemma FreshLoadLosesAutoSaveInterval(v: Values, d: DoubleText)
    requires IntFields(v) && ReadsBack(d) && v.defaultZoomLevel in d.values
    ensures Decode(DefaultProperties + (DefaultProperties + Encode(v, d)), DefaultValues.autoSaveInterval, d) ==
            v.(autoSaveInterval := 30)
  {
    var saved := DefaultProperties + Encode(v, d);
    assert DefaultProperties + saved == saved;
    DecodeEncode(DefaultProperties, v, 30, d);
  }

  /** One malformed number puts all four numeric fields back to their defaults, the good ones too. */
  lemma MalformedNumberResetsAll(p: Properties, kept: int, d: DoubleText)
    requires "nightModeEndHour" in p && ParseInt(p["nightModeEndHour"]).None?
    ensures var v := Decode(p, kept, d);
            v.defaultZoomLevel == 1.0 && v.eyeCareBrightness == 80 &&
            v.nightModeStartHour == 20 && v.nightModeEndHour == 7
  {
  }

  /**
   * `shouldEnableNightMode` at the given clock hour: never without night
   * mode, else the hours from start up to (not including) end, wrapping past
   * midnight when start is after end.
   */
  predicate ShouldEnableNightMode(nightMode: bool, start: int, end: int, hour: int)
  {
    if !nightMode then false
    else if start <= end then hour >= start && hour < end
    else hour >= start || hour < end
  }

  /** An overnight window is exactly the hours outside the daytime gap from end to start. */
  lemma NightWindowWraps(start: int, end: int, hour: int)
    requires start > end
    ensures ShouldEnableNightMode(true, start, end, hour) <==> !(end <= hour < start)
  {
  }

  /** A window that starts where it ends is empty, and night mode off never asks for night mode. */
  lemma NightWindowEmpty(nightMode: bool, start: int, end: int, hour: int)
    requires !nightMode || start == end
    ensures !ShouldEnableNightMode(nightMode, start, end, hour)
  {
  }

  /**
   * `getCurrentTheme`: black for night mode, else the eye-care theme, else the
   * chosen theme. The clock check between the first two never decides,
   * because it is false whenever night mode is off.
   */
  function CurrentTheme(v: Values, hour: int): (r: ThemeMode)
    ensures r == (if v.nightMode then Black else if v.eyeCareMode then EyeCare else v.themeMode)
  {
    if v.nightMode then Black
    else if ShouldEnableNightMode(v.nightMode, v.nightModeStartHour, v.nightModeEndHour, hour) then Black
    else if v.eyeCareMode then EyeCare
    else v.themeMode
  }

  /** `setThemeMode`: the theme and its background colour. */
  function WithTheme(v: Values, t: ThemeMode): Values
  {
    v.(themeMode := t, backgroundColor := ThemeBackgroundColor(t))
  }

  /** `toggleNightMode`'s field changes: the flag flips and the theme follows it (black on, dark off). */
  function ToggledNight(v: Values): (r: Values)
    ensures r.nightMode == !v.nightMode && r.eyeCareMode == v.eyeCareMode
    ensures r.themeMode == (if r.nightMode then Black else Dark)
    ensures r.backgroundColor == ThemeBackgroundColor(r.themeMode)
    ensures r.(nightMode := v.nightMode, themeMode := v.themeMode, backgroundColor := v.backgroundColor) == v
  {
    WithTheme(v.(nightMode := !v.nightMode), if !v.nightMode then Black else Dark)
  }

  /** `toggleEyeCareMode`'s field changes: the flag flips and the theme follows it (eye care on, dark off). */
  function ToggledEyeCare(v: Values): (r: Values)
    ensures r.eyeCareMode == !v.eyeCareMode && r.nightMode == v.nightMode
    ensures r.themeMode == (if r.eyeCareMode then EyeCare else Dark)
    ensures r.backgroundColor == ThemeBackgroundColor(r.themeMode)
    ensures r.(eyeCareMode := v.eyeCareMode, themeMode := v.themeMode, backgroundColor := v.backgroundColor) == v
  {
    WithTheme(v.(eyeCareMode := !v.eyeCareMode), if !v.eyeCareMode then EyeCare else Dark)
  }

  /**
   * Toggling twice restores the flag, but the theme becomes the one that goes
   * with the flag (black or eye care when it is on, dark when it is off): the
   * theme chosen before is lost.
   */
  lemma ToggleTwice(v: Values)
    ensures ToggledNight(ToggledNight(v)) == WithTheme(v, if v.nightMode then Black else Dark)
    ensures ToggledEyeCare(ToggledEyeCare(v)) == WithTheme(v, if v.eyeCareMode then EyeCare else Dark)
  {
  }

  /** Turning night mode on shows the black theme at every hour. */
  lemma NightOnShowsBlack(v: Values, hour: int)
    requires !v.nightMode
    ensures CurrentTheme(ToggledNight(v), hour) == Black
  {
  }

  /** Turning eye care on shows the eye-care theme unless night mode is on. */
  lemma EyeCareOnShowsEyeCare(v: Values, hour: int)
    requires !v.eyeCareMode
    ensures CurrentTheme(ToggledEyeCare(v), hour) == (if v.nightMode then Black else EyeCare)
  {
  }

  class SettingsManager {
    /** The properties table that mirrors the file. */
    var settings: Properties
    /** The thirteen typed fields, held as one record. */
    var fields: Values

    /** The text forms of doubles this manager prints and parses. */
    const doubles: DoubleText

    ghost predicate Valid()
      reads this
    {
      IntFields(fields) && ReadsBack(doubles) && fields.defaultZoomLevel in doubles.values
    }

    /** A new manager: the field initialisers and the default table. */
    constructor (d: DoubleText)
      requires ReadsBack(d)
      ensures Valid() && fields == DefaultValues && settings == DefaultProperties && doubles == d
    {
      doubles := d;
      settings := DefaultProperties;
      fields := DefaultValues;
    }

    /** `loadDefaultSettings`: the default entries go into the table; the fields stay as they are. */
    method LoadDefaultSettings()
      modifies this
      ensures settings == old(settings) + DefaultProperties && fields == old(fields)
    {
      settings := settings + DefaultProperties;
    }

    /**
     * `loadSettings`. A readable file is merged into the table and the fields
     * are read from the result; an unreadable one (None) only puts the
     * default entries back into the table.
     */
    method LoadSettings(file: Option<Properties>)
      requires Valid()
      modifies this
      ensures Valid()
      ensures file.Some? ==> settings == old(settings) + file.value &&
                             fields == Decode(settings, old(fields.autoSaveInterval), doubles)
      ensures file.None? ==> settings == old(settings) + DefaultProperties && fields == old(fields)
    {
      if file.None? {
        LoadDefaultSettings();
        return;
      }
      settings := settings + file.value;
      fields := Decode(settings, fields.autoSaveInterval, doubles);
    }

    /** `saveSettings`: the thirteen fields go into the table, and the whole table is what the file receives. */
    method SaveSettings() returns (written: Properties)
      requires Valid()
      modifies this
      ensures Valid() && fields == old(fields)
      ensures settings == old(settings) + Encode(fields, doubles) && written == settings
    {
      settings := settings + Encode(fields, doubles);
      written := settings;
    }

    /** `setThemeMode`: the theme and its background colour, nothing else. */
    method SetThemeMode(t: ThemeMode)
      requires Valid()
      modifies this
      ensures Valid() && fields == WithTheme(old(fields), t) && settings == old(settings)
    {
      fields := fields.(themeMode := t, backgroundColor := ThemeBackgroundColor(t));
    }

    /** `toggleNightMode`, then save. */
    method ToggleNightMode() returns (written: Properties)
      requires Valid()
      modifies this
      ensures Valid() && fields == ToggledNight(old(fields))
      ensures settings == old(settings) + Encode(fields, doubles) && written == settings
    {
      fields := fields.(nightMode := !fields.nightMode);
      if fields.nightMode {
        SetThemeMode(Black);
      } else {
        SetThemeMode(Dark);
      }
      written := SaveSettings();
    }

    /** `toggleEyeCareMode`, then save. */
    method ToggleEyeCareMode() returns (written: Properties)
      requires Valid()
      modifies this
      ensures Valid() && fields == ToggledEyeCare(old(fields))
      ensures settings == old(settings) + Encode(fields, doubles) && written == settings
    {
      fields := fields.(eyeCareMode := !fields.eyeCareMode);
      if fields.eyeCareMode {
        SetThemeMode(EyeCare);
      } else {
        SetThemeMode(Dark);
      }
      written := SaveSettings();
    }

    /** `shouldEnableNightMode` at the given clock hour. */
    predicate ShouldEnableNightModeAt(hour: int)
      reads this
    {
      ShouldEnableNightMode(fields.nightMode, fields.nightModeStartHour, fields.nightModeEndHour, hour)
    }

    /** `getCurrentTheme` at the given clock hour. */
    function GetCurrentTheme(hour: int): ThemeMode
      reads this
    {
      CurrentTheme(fields, hour)
    }
  }
}
