// The first settings dialog (E_Reader/SettingsPanel.java): seven typed fields,
// a properties table, and a form that shows the fields through display names.
// The form's controls are reduced to the values they hold; the file is a
// parameter as in SettingsManager. The source names its fit mode
// `ImageViewer.FitMode`; the model uses the viewer's FitMode.

module SettingsPanel {
  import opened Wrappers
  import opened JavaText
  import opened ImageViewer

  /** The four display names the form offers for fit modes. */
  const FitModeNames: set<string> := {"適合寬度", "適合高度", "適合頁面", "原始尺寸"}

  /** `getFitModeDisplayName`. */
  function FitModeDisplayName(m: FitMode): (name: string)
    ensures name in FitModeNames
  {
    match m
    case FitWidth => "適合寬度"
    case FitHeight => "適合高度"
    case FitPage => "適合頁面"
    case OriginalSize => "原始尺寸"
  }

  /** `getFitModeFromDisplayName`: unknown names give fit to width. */
  function FitModeFromDisplayName(name: string): (m: FitMode)
    ensures name !in FitModeNames ==> m == FitWidth
  {
    if name == "適合寬度" then FitWidth
    else if name == "適合高度" then FitHeight
    else if name == "適合頁面" then FitPage
    else if name == "原始尺寸" then OriginalSize
    else FitWidth
  }

  /** Every fit mode survives the trip through its display name, and every offered name the trip back. */
  lemma FitModeDisplayRoundTrip(m: FitMode, name: string)
    ensures FitModeFromDisplayName(FitModeDisplayName(m)) == m
    ensures name in FitModeNames ==> FitModeDisplayName(FitModeFromDisplayName(name)) == name
  {
  }

  /** The four background colours the form offers. */
  const KnownBackgrounds: set<string> := {"#1e1e1e", "#000000", "#ffffff", "#f5f5dc"}

  /** The four display names the form offers for them. */
  const BackgroundNames: set<string> := {"深灰色", "黑色", "白色", "米色"}

  /** `getBackgroundDisplayName`: unknown colours are shown as dark grey. */
  function BackgroundDisplayName(color: string): (name: string)
    ensures name in BackgroundNames
    ensures color !in KnownBackgrounds ==> name == "深灰色"
  {
    if color == "#1e1e1e" then "深灰色"
    else if color == "#000000" then "黑色"
    else if color == "#ffffff" then "白色"
    else if color == "#f5f5dc" then "米色"
    else "深灰色"
  }

  /** `getBackgroundColorFromDisplayName`: unknown names give dark grey. */
  function BackgroundColorFromDisplayName(name: string): (color: string)
    ensures color in KnownBackgrounds
    ensures name !in BackgroundNames ==> color == "#1e1e1e"
  {
    if name == "深灰色" then "#1e1e1e"
    else if name == "黑色" then "#000000"
    else if name == "白色" then "#ffffff"
    else if name == "米色" then "#f5f5dc"
    else "#1e1e1e"
  }

  /** The two background maps are inverse on the four colours and the four names. */
  lemma BackgroundRoundTrip(color: string, name: string)
    ensures color in KnownBackgrounds ==> BackgroundColorFromDisplayName(BackgroundDisplayName(color)) == color
    ensures name in BackgroundNames ==> BackgroundDisplayName(BackgroundColorFromDisplayName(name)) == name
    ensures color !in KnownBackgrounds ==> BackgroundColorFromDisplayName(BackgroundDisplayName(color)) == "#1e1e1e"
  {
  }

  /** The panel's seven fields. */
  datatype PanelValues = PanelValues(
    fitMode: FitMode,
    backgroundColor: string,
    showPageNumbers: bool,
    enableTouchNavigation: bool,
    autoSaveInterval: int,
    defaultZoomLevel: real,
    rememberLastFile: bool)

  const DefaultPanelValues: PanelValues := PanelValues(FitWidth, "#1e1e1e", true, true, 30, 1.0, true)

  /** What `loadDefaultSettings` writes into the table. */
  const PanelDefaults: Properties := map[
    "fitMode" := "FIT_WIDTH",
    "backgroundColor" := "#1e1e1e",
    "showPageNumbers" := "true",
    "enableTouchNavigation" := "true",
    "autoSaveInterval" := "30",
    "defaultZoomLevel" := "1.0",
    "rememberLastFile" := "true"]

  /** What the form's controls hold. */
  datatype Form = Form(
    fitModeChoice: string,
    backgroundChoice: string,
    showPageNumbers: bool,
    enableTouchNavigation: bool,
    zoom: real,
    rememberLastFile: bool)

  const MinSliderZoom: real := 0.5
  const MaxSliderZoom: real := 3.0

  /** A JavaFX slider keeps its value between its minimum and maximum. */
  function SliderValue(z: real): (r: real)
    ensures MinSliderZoom <= r <= MaxSliderZoom
    ensures MinSliderZoom <= z <= MaxSliderZoom ==> r == z
  {
    if z < MinSliderZoom then MinSliderZoom else if z > MaxSliderZoom then MaxSliderZoom else z
  }

  /** `createSettingsForm`/`updateFormFromSettings`: the form for these fields. */
  function FormOf(v: PanelValues): Form
  {
    Form(FitModeDisplayName(v.fitMode), BackgroundDisplayName(v.backgroundColor), v.showPageNumbers,
         v.enableTouchNavigation, SliderValue(v.defaultZoomLevel), v.rememberLastFile)
  }

  /** `saveSettingsFromForm`'s field updates; the auto-save interval has no control and is kept. */
  function FromForm(f: Form, kept: int): PanelValues
  {
    PanelValues(FitModeFromDisplayName(f.fitModeChoice), BackgroundColorFromDisplayName(f.backgroundChoice),
                f.showPageNumbers, f.enableTouchNavigation, kept, f.zoom, f.rememberLastFile)
  }

  /**
   * Opening the dialog and saving it unchanged keeps every field, except that
   * a colour outside the four becomes dark grey and the zoom is brought into
   * the slider's range.
   */
  lemma SaveUnchangedForm(v: PanelValues)
    ensures FromForm(FormOf(v), v.autoSaveInterval) ==
            v.(backgroundColor := if v.backgroundColor in KnownBackgrounds then v.backgroundColor else "#1e1e1e",
               defaultZoomLevel := SliderValue(v.defaultZoomLevel))
  {
    FitModeDisplayRoundTrip(v.fitMode, "");
    BackgroundRoundTrip(v.backgroundColor, "");
  }

  /** The six keys `saveSettingsFromForm` writes. */
  const FormKeys: set<string> :=
    {"fitMode", "backgroundColor", "showPageNumbers", "enableTouchNavigation", "defaultZoomLevel", "rememberLastFile"}

  /** The text written under one of those keys. */
  function FormEntry(v: PanelValues, d: DoubleText, key: string): string
  {
    if key == "fitMode" then FitModeName(v.fitMode)
    else if key == "backgroundColor" then v.backgroundColor
    else if key == "showPageNumbers" then BoolToString(v.showPageNumbers)
    else if key == "enableTouchNavigation" then BoolToString(v.enableTouchNavigation)
    else if key == "defaultZoomLevel" then d.show(v.defaultZoomLevel)
    else BoolToString(v.rememberLastFile)
  }

  /** The entries `saveSettingsFromForm` writes; `autoSaveInterval` is not among them. */
  function FormEntries(v: PanelValues, d: DoubleText): (p: Properties)
    ensures p.Keys == FormKeys && "autoSaveInterval" !in p
  {
    map key | key in FormKeys :: FormEntry(v, d, key)
  }

  /** The fields `loadSettings` reads; `autoSaveInterval` is not read and keeps `kept`. */
  function DecodePanel(p: Properties, kept: int, d: DoubleText): (v: PanelValues)
    ensures v.autoSaveInterval == kept
    ensures v.fitMode == FitModeValueOf(GetProperty(p, "fitMode", "FIT_WIDTH")).GetOr(FitWidth)
    ensures v.backgroundColor == GetProperty(p, "backgroundColor", "#1e1e1e")
    ensures v.defaultZoomLevel == d.parse(GetProperty(p, "defaultZoomLevel", "1.0")).GetOr(1.0)
    ensures ReadsBack(d) ==> v.defaultZoomLevel in d.values
  {
    PanelValues(
      FitModeValueOf(GetProperty(p, "fitMode", "FIT_WIDTH")).GetOr(FitWidth),
      GetProperty(p, "backgroundColor", "#1e1e1e"),
      ParseBoolean(GetProperty(p, "showPageNumbers", "true")),
      ParseBoolean(GetProperty(p, "enableTouchNavigation", "true")),
      kept,
      d.parse(GetProperty(p, "defaultZoomLevel", "1.0")).GetOr(1.0),
      ParseBoolean(GetProperty(p, "rememberLastFile", "true")))
  }

  /** Loading a table the form was saved into gives back the saved fields, whatever else the table held. */
  lemma DecodeFormEntries(base: Properties, v: PanelValues, kept: int, d: DoubleText)
    requires ReadsBack(d) && v.defaultZoomLevel in d.values
    ensures DecodePanel(base + FormEntries(v, d), kept, d) == v.(autoSaveInterval := kept)
  {
    var p := base + FormEntries(v, d);
    assert p["fitMode"] == FitModeName(v.fitMode);
    assert p["backgroundColor"] == v.backgroundColor;
    assert p["defaultZoomLevel"] == d.show(v.defaultZoomLevel);
    FitModeRoundTrip(v.fitMode);
    ReadFlagBack(p, "showPageNumbers", v.showPageNumbers);
    ReadFlagBack(p, "enableTouchNavigation", v.enableTouchNavigation);
    ReadFlagBack(p, "rememberLastFile", v.rememberLastFile);
  }

  lemma ReadFlagBack(p: Properties, key: string, b: bool)
    requires key in p && p[key] == BoolToString(b)
    ensures ParseBoolean(GetProperty(p, key, "true")) == b
  {
    ParseBooleanOfBoolToString(b);
  }

  /** The default table reads as the default fields. */
  lemma DefaultsDecode(kept: int, d: DoubleText)
    requires ReadsBack(d)
    ensures DecodePanel(PanelDefaults, kept, d) == DefaultPanelValues.(autoSaveInterval := kept)
  {
    assert PanelDefaults == PanelDefaults + FormEntries(DefaultPanelValues, d);
    DecodeFormEntries(PanelDefaults, DefaultPanelValues, kept, d);
  }

  class SettingsPanel {
    /** The properties table that mirrors the file. */
    var settings: Properties
    /** The seven typed fields, held as one record. */
    var fields: PanelValues

    /** The text forms of doubles this panel prints and parses. */
    const doubles: DoubleText

    constructor (d: DoubleText)
      ensures fields == DefaultPanelValues && settings == PanelDefaults && doubles == d
    {
      doubles := d;
      settings := PanelDefaults;
      fields := DefaultPanelValues;
    }

    /** `loadDefaultSettings`: the default entries go into the table; the fields stay as they are. */
    method LoadDefaultSettings()
      modifies this
      ensures settings == old(settings) + PanelDefaults && fields == old(fields)
    {
      settings := settings + PanelDefaults;
    }

    /**
     * The reset button: `loadDefaultSettings`, then `updateFormFromSettings`.
     * The form shows the fields, which the reset did not touch.
     */
    method ResetButton() returns (form: Form)
      modifies this
      ensures settings == old(settings) + PanelDefaults && fields == old(fields)
      ensures form == FormOf(old(fields))
    {
      LoadDefaultSettings();
      form := FormOf(fields);
    }

    /** The save button: the fields and six table entries from the form, then the whole table to the file. */
    method SaveButton(form: Form) returns (written: Properties)
      modifies this
      ensures fields == FromForm(form, old(fields.autoSaveInterval))
      ensures settings == old(settings) + FormEntries(fields, doubles) && written == settings
    {
      fields := FromForm(form, fields.autoSaveInterval);
      settings := settings + FormEntries(fields, doubles);
      written := SaveSettings();
    }

    /**
     * `loadSettings`. A readable file is merged into the table and the fields
     * are read from the result; an unreadable one (None) only puts the
     * default entries back.
     */
    method LoadSettings(file: Option<Properties>)
      modifies this
      ensures file.Some? ==> settings == old(settings) + file.value &&
                             fields == DecodePanel(settings, old(fields.autoSaveInterval), doubles)
      ensures file.None? ==> settings == old(settings) + PanelDefaults && fields == old(fields)
    {
      if file.None? {
        LoadDefaultSettings();
        return;
      }
      settings := settings + file.value;
      fields := DecodePanel(settings, fields.autoSaveInterval, doubles);
    }

    /** `saveSettings`: the table as it is goes to the file. */
    method SaveSettings() returns (written: Properties)
      ensures written == settings
    {
      written := settings;
    }

    method SetFitMode(m: FitMode)
      modifies this
      ensures fields == old(fields).(fitMode := m) && settings == old(settings)["fitMode" := FitModeName(m)]
    {
      fields := fields.(fitMode := m);
      settings := settings["fitMode" := FitModeName(m)];
    }

    method SetBackgroundColor(color: string)
      modifies this
      ensures fields == old(fields).(backgroundColor := color)
      ensures settings == old(settings)["backgroundColor" := color]
    {
      fields := fields.(backgroundColor := color);
      settings := settings["backgroundColor" := color];
    }

    method SetShowPageNumbers(b: bool)
      modifies this
      ensures fields == old(fields).(showPageNumbers := b)
      ensures settings == old(settings)["showPageNumbers" := BoolToString(b)]
    {
      fields := fields.(showPageNumbers := b);
      settings := settings["showPageNumbers" := BoolToString(b)];
    }

    method SetEnableTouchNavigation(b: bool)
      modifies this
      ensures fields == old(fields).(enableTouchNavigation := b)
      ensures settings == old(settings)["enableTouchNavigation" := BoolToString(b)]
    {
      fields := fields.(enableTouchNavigation := b);
      settings := settings["enableTouchNavigation" := BoolToString(b)];
    }

    method SetDefaultZoomLevel(z: real)
      modifies this
      ensures fields == old(fields).(defaultZoomLevel := z)
      ensures settings == old(settings)["defaultZoomLevel" := doubles.show(z)]
    {
      fields := fields.(defaultZoomLevel := z);
      settings := settings["defaultZoomLevel" := doubles.show(z)];
    }

    method SetRememberLastFile(b: bool)
      modifies this
      ensures fields == old(fields).(rememberLastFile := b)
      ensures settings == old(settings)["rememberLastFile" := BoolToString(b)]
    {
      fields := fields.(rememberLastFile := b);
      settings := settings["rememberLastFile" := BoolToString(b)];
    }
  }

  /** What a setter writes into the table is what `loadSettings` reads back for that field. */
  lemma SetterReadsBack(p: Properties, kept: int, d: DoubleText, m: FitMode, color: string, b: bool, z: real)
    requires ReadsBack(d)
    ensures DecodePanel(p["fitMode" := FitModeName(m)], kept, d).fitMode == m
    ensures DecodePanel(p["backgroundColor" := color], kept, d).backgroundColor == color
    ensures DecodePanel(p["showPageNumbers" := BoolToString(b)], kept, d).showPageNumbers == b
    ensures DecodePanel(p["enableTouchNavigation" := BoolToString(b)], kept, d).enableTouchNavigation == b
    ensures z in d.values ==> DecodePanel(p["defaultZoomLevel" := d.show(z)], kept, d).defaultZoomLevel == z
    ensures DecodePanel(p["rememberLastFile" := BoolToString(b)], kept, d).rememberLastFile == b
  {
    FitModeRoundTrip(m);
    ParseBooleanOfBoolToString(b);
    if z in d.values {
      assert d.parse(d.show(z)) == Some(z);
    }
  }
}
