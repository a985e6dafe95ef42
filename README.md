# E_Reader core in Dafny

This project models the logic of E_Reader, a JavaFX desktop reader for comics, PDF, EPUB and plain-text books. It covers five groups of Java classes, one Dafny module per class.

- **Text processing.** `FormatPreservingTextProcessor` classifies lines, indentation and space runs. Both `TextExtractor`s choose a page's best text and build paragraphs from it. The core extractor also cleans OCR and PDF text. `EpubLoader` strips HTML, decodes entities and resolves the package spine against the manifest. `TextLoader` paginates and word-wraps plain text.
- **The library catalogue.** `FileManagerData` keeps the folder and file tables: unique sibling names, cascading delete, path building and `" (n)"` collision naming. `FileManagerController` contributes its pure helpers: extension rules, grid and list placement, filtering, special folders and renaming.
- **Annotations.** `NoteManager` keeps highlights and notes per book. `BookmarkManager` keeps the bookmark list.
- **Settings.** `SettingsManager` holds theme priority, the night-mode hour window and the mode toggles. `SettingsPanel` holds the display-name mappings and the properties table. `FileManagerConfig` holds typed getters with defaults, `WxH` sizes and the default/user merge.
- **Reader state.** This group has both `ImageViewer`s, both `TextRenderer`s, `StateManager`, `NavigationBarController` and the navigation arithmetic of `MainController`. It also has `EnhancedTextExtractor`, which decides when to detect LaTeX and how recognised LaTeX is merged into a page.

Java's regular expressions become explicit scanners. They live in `JavaRegex`, with string helpers in `JavaText`; Java's `.` excludes the five line terminators, and `\s` is the six ASCII whitespace characters. Objects whose fields the Java code updates become classes with `modifies` frames, and their methods are proved against specification functions. Pure Java methods become functions with lemmas. `Properties` tables are `map<string, string>`. Loading and storing them, the filesystem's answers (which paths exist, whether a disk operation succeeds), the clock, the hour of day, `user.home` and UUIDs are all parameters. A `Wrappers` module supplies `Option` and `Result`.

## Model

| member | source | states |
|---|---|---|
| BookmarkManager.DialogTitle | src/main/java/E_Reader/BookmarkManager.java:205-208 | the stored title is never empty: the trimmed input when it is not blank, otherwise the default "書籤 - 頁面 <page+1>" |
| BookmarkManager.DefaultTitleInjective | src/main/java/E_Reader/BookmarkManager.java:207 | two pages get the same default title only if they are the same page |
| BookmarkManager.Edited | src/main/java/E_Reader/BookmarkManager.java:89-93 | an edit keeps the list length, sets title and notes of the bookmarks with that identity and leaves every other bookmark equal |
| BookmarkManager.BookmarkManager.constructor | src/main/java/E_Reader/BookmarkManager.java:71-76 | the manager starts from the loaded list, with unique identities below the counter |
| BookmarkManager.BookmarkManager.AddBookmark | src/main/java/E_Reader/BookmarkManager.java:78-82 | exactly one new bookmark with these fields is appended; identities stay unique; that file's bookmark list gains it at its end |
| BookmarkManager.BookmarkManager.AddFromDialog | src/main/java/E_Reader/BookmarkManager.java:204-211 | the add button appends one bookmark with the dialog title, the trimmed notes, the current file and page; it displays as page+1 |
| BookmarkManager.BookmarkManager.RemoveBookmark | src/main/java/E_Reader/BookmarkManager.java:84-87 | the list loses that bookmark and keeps every other one, in order |
| BookmarkManager.BookmarkManager.UpdateBookmark | src/main/java/E_Reader/BookmarkManager.java:89-93 | only title and notes of the identified bookmark change |
| BookmarkManager.BookmarkManager.SaveEdit | src/main/java/E_Reader/BookmarkManager.java:367-370 | the edit dialog stores the trimmed title and notes into that bookmark |
| BookmarkManager.BookmarkManager.GetBookmarksForFile | src/main/java/E_Reader/BookmarkManager.java:99-103 | the bookmarks of that file in list order and with their multiplicity (the filter the lemmas about `FilterWith` describe); a bookmark is returned exactly when it is listed and belongs to that file |
| BookmarkManager.EditKeepsTheRest | src/main/java/E_Reader/BookmarkManager.java:89-93 | an edit keeps identity, file, page and creation time of every bookmark, and keeps identities unique |
| BookmarkManager.AddedShowsForItsFile | src/main/java/E_Reader/BookmarkManager.java:99-103 | after adding, the file's bookmark list is the old one followed by the new bookmark |
| NoteManager.SearchBookExactly | src/main/java/E_Reader/core/NoteManager.java:282-307 | a search hit names exactly the book's highlights and notes whose text contains the keyword, ignoring case, with every highlight hit before every note hit |
| NoteManager.UpdatedNotes | src/main/java/E_Reader/core/NoteManager.java:213-221 | updating keeps the note list's length, identities and pages; the identified note gets the new content, title and modification time and keeps its creation time; others stay equal |
| NoteManager.NoteManager.constructor | src/main/java/E_Reader/core/NoteManager.java:18-22 | a fresh manager holds no books |
| NoteManager.NoteManager.GetOrCreateBookNotes | src/main/java/E_Reader/core/NoteManager.java:226-233 | a known book is left alone; an unknown one gets an empty entry with this name and time |
| NoteManager.NoteManager.AddHighlight | src/main/java/E_Reader/core/NoteManager.java:118-125 | the book's highlight list gains exactly one new highlight with an empty note at the end; notes and every other book are unchanged |
| NoteManager.NoteManager.AddNote | src/main/java/E_Reader/core/NoteManager.java:130-136 | the book's note list gains exactly one new note, created and modified at the one clock reading `now`, at the end; highlights and every other book are unchanged |
| NoteManager.NoteManager.GetHighlights | src/main/java/E_Reader/core/NoteManager.java:141-144 | an unknown book has no highlights; a known one returns its list |
| NoteManager.NoteManager.GetNotes | src/main/java/E_Reader/core/NoteManager.java:149-152 | an unknown book has no notes; a known one returns its list |
| NoteManager.NoteManager.GetHighlightsForPage | src/main/java/E_Reader/core/NoteManager.java:157-168 | the loop returns exactly the book's highlights on that page, in order |
| NoteManager.NoteManager.GetNotesForPage | src/main/java/E_Reader/core/NoteManager.java:173-184 | the loop returns exactly the book's notes on that page, in order |
| NoteManager.NoteManager.RemoveHighlight | src/main/java/E_Reader/core/NoteManager.java:189-196 | an unknown book changes nothing; otherwise that highlight leaves the list, every other stays and the book is stamped |
| NoteManager.NoteManager.RemoveNote | src/main/java/E_Reader/core/NoteManager.java:201-208 | an unknown book changes nothing; otherwise that note leaves the list, every other stays and the book is stamped |
| NoteManager.NoteManager.UpdateNote | src/main/java/E_Reader/core/NoteManager.java:213-221 | the note with that identity is updated in every book; only the named book's modification time changes |
| NoteManager.NoteManager.GetBookNotesStatistics | src/main/java/E_Reader/core/NoteManager.java:267-277 | one count per book name; each counts highlights plus notes of a book with that name, and of the very book when the name is unique |
| NoteManager.NoteManager.SearchNotes | src/main/java/E_Reader/core/NoteManager.java:282-307 | an unknown book gives no results; a known one gives the book's search in list order |
| StateManager.StateManager.constructor | src/main/java/E_Reader/core/StateManager.java:14-38 | a new state has the empty file path, no mode, windowed, controls visible, no content, page indices 0, the timer started now and no time accumulated |
| StateManager.StateManager.SetFileLoaded | src/main/java/E_Reader/core/StateManager.java:41-52 | path, modes and content are those given, text mode off, both page indices back to 0; display flags and the timer unchanged |
| StateManager.StateManager.ClearFileState | src/main/java/E_Reader/core/StateManager.java:54-64 | file, modes, content and page indices reset; display flags and the timer unchanged |
| StateManager.StateManager.ClearCurrentFile | src/main/java/E_Reader/core/StateManager.java:66-74 | the file state is reset, auto-scrolling stops and the elapsed time is banked: the total reading time reported now does not change |
| StateManager.StateManager.CalculateTotalReadingTime | src/main/java/E_Reader/core/StateManager.java:166-170 | the total is the banked time plus the time since the timer started, hence never less than the banked time for a later clock |
| StateManager.StateManager.ResetReadingTimer | src/main/java/E_Reader/core/StateManager.java:173-175 | the timer restarts now and the banked time stays, so the total reported now is the banked time; path, modes, content, display flags and page indices are unchanged |
| StateManager.StateManager.GetCurrentFilePath | src/main/java/E_Reader/core/StateManager.java:101-103 | the stored path, with a null path read as "" |
| StateManager.StateManager.HasLoadedContent | src/main/java/E_Reader/core/StateManager.java:178-182 | content is loaded exactly when the path is not empty and there are images or text pages |
| StateManager.StateManager.IsFileLoaded | src/main/java/E_Reader/core/StateManager.java:224-226 | a file counts as loaded exactly when content is loaded |
| StateManager.StateManager.GetCurrentPageIndex | src/main/java/E_Reader/core/StateManager.java:209-211 | the text page index in text mode, the image page index otherwise |
| StateManager.StateManager.SetCurrentPageIndex | src/main/java/E_Reader/core/StateManager.java:216-222 | afterwards the current page index reads back the value set; the index of the other mode, the mode, path, content, display flags and clock stay |
| StateManager.StateManager.SetTextMode | src/main/java/E_Reader/core/StateManager.java:97-99 | only the text-mode flag changes: path, content, display flags, page indices and clock are unchanged |
| StateManager.StateManager.SetFullScreen | src/main/java/E_Reader/core/StateManager.java:113-115 | only the full-screen flag changes: the other display flags, mode, path, content, page indices and clock are unchanged |
| StateManager.StateManager.SetControlsVisible | src/main/java/E_Reader/core/StateManager.java:121-123 | only the controls flag changes: the other display flags, mode, path, content, page indices and clock are unchanged |
| StateManager.StateManager.SetCurrentFilePath | src/main/java/E_Reader/core/StateManager.java:105-107 | the path is stored and reads back, with a null path read as ""; every other field is unchanged |
| ImageViewer.FitModeValueOf | src/main/java/E_Reader/viewer/ImageViewer.java:26-28 | a name reads back as a fit mode exactly when it is that constant's name; anything else has no mode |
| ImageViewer.FitModeRoundTrip | src/main/java/E_Reader/viewer/ImageViewer.java:26-28 | printing a fit mode and reading the name back gives the same mode |
| ImageViewer.PageLabelInjective | src/main/java/E_Reader/viewer/ImageViewer.java:151-167 | two page labels of loaded viewers are equal only when they name the same page and the same page count |
| ImageViewer.PageLabelOfLoaded | src/main/java/E_Reader/viewer/ImageViewer.java:151-167 | with images loaded the label is never the empty "Page: 0 / 0" |
| ImageViewer.FitSizeScales | src/main/java/E_Reader/viewer/ImageViewer.java:169-194 | in every fit mode both sides of the fitted size grow in proportion to the zoom |
| ImageViewer.ImageViewer.constructor | src/main/java/E_Reader/viewer/ImageViewer.java:17-24 | a new viewer shows nothing, at page 0, zoom 1.0, fit width, no rotation, with label "Page: 0 / 0" |
| ImageViewer.ImageViewer.GetTotalPages | src/main/java/E_Reader/viewer/ImageViewer.java:238-240 | the page count is 0 exactly when no images are loaded |
| ImageViewer.ImageViewer.ShowImage | src/main/java/E_Reader/viewer/ImageViewer.java:151-167 | the view shows the current image (or nothing) and the label names it; no other state changes |
| ImageViewer.ImageViewer.SetImages | src/main/java/E_Reader/viewer/ImageViewer.java:59-63 | the new list is shown from its first page; zoom, fit mode and rotation stay |
| ImageViewer.ImageViewer.ClearImages | src/main/java/E_Reader/viewer/ImageViewer.java:65-73 | images cleared, page 0, zoom 1.0, fit width, rotation 0, nothing shown and the label "Page: 0 / 0" |
| ImageViewer.ImageViewer.NextPage | src/main/java/E_Reader/viewer/ImageViewer.java:75-81 | the page advances by one exactly when a next page exists, and the screen follows |
| ImageViewer.ImageViewer.PrevPage | src/main/java/E_Reader/viewer/ImageViewer.java:83-89 | the page goes back by one exactly when a previous page exists, and the screen follows |
| ImageViewer.ImageViewer.GoToFirstPage | src/main/java/E_Reader/viewer/ImageViewer.java:91-95 | with images the first page is shown; without, nothing changes |
| ImageViewer.ImageViewer.GoToLastPage | src/main/java/E_Reader/viewer/ImageViewer.java:97-101 | with images the last page is shown; without, nothing changes |
| ImageViewer.ImageViewer.GoToPage | src/main/java/E_Reader/viewer/ImageViewer.java:103-109 | an index inside the list becomes the page shown; any other index changes nothing |
| ImageViewer.ImageViewer.ZoomIn | src/main/java/E_Reader/viewer/ImageViewer.java:111-114 | the zoom is multiplied by 1.2 and grows; nothing else changes |
| ImageViewer.ImageViewer.ZoomOut | src/main/java/E_Reader/viewer/ImageViewer.java:116-120 | the zoom is divided by 1.2 but never drops below 0.1, and never grows |
| ImageViewer.ImageViewer.ResetZoom | src/main/java/E_Reader/viewer/ImageViewer.java:122-125 | the zoom is back to 1.0; nothing else changes |
| ImageViewer.ImageViewer.SetFitMode | src/main/java/E_Reader/viewer/ImageViewer.java:127-145 | the fit mode is the one chosen; zoom, page and screen stay |
| ImageViewer.ImageViewer.Rotate | src/main/java/E_Reader/viewer/ImageViewer.java:147-149 | the rotation grows by 90 degrees; nothing else changes |
| ImageViewer.ZoomOutUndoesZoomIn | src/main/java/E_Reader/viewer/ImageViewer.java:111-120 | zooming out after zooming in returns to the earlier zoom, without touching the floor |
| ImageViewer.ZoomOutReachesFloor | src/main/java/E_Reader/viewer/ImageViewer.java:116-120 | below 1.2 times the floor, zooming out lands on the floor 0.1 |
| LegacyImageViewer.LegacyImageViewer.constructor | src/main/java/E_Reader/ImageViewer.java:11-20 | a new viewer has no images and page 0, and shows nothing |
| LegacyImageViewer.LegacyImageViewer.ShowImage | src/main/java/E_Reader/ImageViewer.java:44-52 | the view shows the current image (or nothing) and the label names it |
| LegacyImageViewer.LegacyImageViewer.SetImages | src/main/java/E_Reader/ImageViewer.java:22-26 | the new list is shown from its first page |
| LegacyImageViewer.LegacyImageViewer.NextPage | src/main/java/E_Reader/ImageViewer.java:28-34 | the page advances by one exactly when a next page exists, and the screen follows |
| LegacyImageViewer.LegacyImageViewer.PrevPage | src/main/java/E_Reader/ImageViewer.java:36-42 | the page goes back by one exactly when it is above 0, and the screen follows |
| SettingsManager.ThemeValueOf | src/main/java/E_Reader/settings/SettingsManager.java:33-38 | a name reads back as a theme exactly when it is that constant's name; anything else has no theme |
| SettingsManager.ThemeBackgroundsDistinct | src/main/java/E_Reader/settings/SettingsManager.java:33-38 | two themes have the same background colour exactly when they are the same theme |
| SettingsManager.Encode | src/main/java/E_Reader/settings/SettingsManager.java:123-144 | saving writes exactly the thirteen persisted keys |
| SettingsManager.ParseNumbers | src/main/java/E_Reader/settings/SettingsManager.java:103-113 | the four numeric settings parse together exactly when each of the four properties (or its default) parses |
| SettingsManager.Decode | src/main/java/E_Reader/settings/SettingsManager.java:79-121 | loading keeps the auto-save interval, reads fit mode and theme with their fallbacks, takes an absent background from the theme, resets all four numbers together when one is malformed, keeps the numbers in 32-bit range and the zoom a double |
| SettingsManager.DecodeEncode | src/main/java/E_Reader/settings/SettingsManager.java:79-144 | loading what was saved gives back every setting except the auto-save interval, which is never read, for every zoom that is a double |
| SettingsManager.EncodedNames | src/main/java/E_Reader/settings/SettingsManager.java:125-132 | the saved fit mode and theme are their constants' names and the background is stored as it is |
| SettingsManager.EncodedFlags | src/main/java/E_Reader/settings/SettingsManager.java:127-131 | the three display flags are saved as "true"/"false" |
| SettingsManager.EncodedModes | src/main/java/E_Reader/settings/SettingsManager.java:133-135 | the eye-care and night flags are saved as "true"/"false" |
| SettingsManager.EncodedNumbers | src/main/java/E_Reader/settings/SettingsManager.java:130-137 | zoom, brightness and the night hours are saved as their decimal texts |
| SettingsManager.ReadBoolBack | src/main/java/E_Reader/settings/SettingsManager.java:98-101 | a flag saved as "true"/"false" parses back to the same value |
| SettingsManager.ReadNumbersBack | src/main/java/E_Reader/settings/SettingsManager.java:103-107 | numbers saved as their texts parse back to the same four numbers when the zoom is a double |
| SettingsManager.DefaultsEncode | src/main/java/E_Reader/settings/SettingsManager.java:63-77 | saving the default settings writes exactly the default properties |
| SettingsManager.FreshLoadLosesAutoSaveInterval | src/main/java/E_Reader/settings/SettingsManager.java:58-121 | a new manager loading a saved file gets every setting back but an auto-save interval of 30 |
| SettingsManager.MalformedNumberResetsAll | src/main/java/E_Reader/settings/SettingsManager.java:108-113 | one malformed night end hour resets zoom, brightness and both night hours to their defaults |
| SettingsManager.NightWindowWraps | src/main/java/E_Reader/settings/SettingsManager.java:175-187 | when the start hour is after the end hour, night mode holds exactly outside the hours from end to start |
| SettingsManager.NightWindowEmpty | src/main/java/E_Reader/settings/SettingsManager.java:175-187 | with night mode off, or equal start and end hours, night mode never switches on |
| SettingsManager.CurrentTheme | src/main/java/E_Reader/settings/SettingsManager.java:190-203 | night mode shows Black, else eye care shows EyeCare, else the chosen theme |
| SettingsManager.ToggledNight | src/main/java/E_Reader/settings/SettingsManager.java:147-160 | toggling night mode flips only that flag and sets theme Black (on) or Dark (off) with its background |
| SettingsManager.ToggledEyeCare | src/main/java/E_Reader/settings/SettingsManager.java:162-172 | toggling eye care flips only that flag and sets theme EyeCare (on) or Dark (off) with its background |
| SettingsManager.ToggleTwice | src/main/java/E_Reader/settings/SettingsManager.java:147-172 | toggling twice restores the flag, but the theme becomes Black/EyeCare if the mode was on and Dark if it was off |
| SettingsManager.NightOnShowsBlack | src/main/java/E_Reader/settings/SettingsManager.java:147-160 | switching night mode on makes the current theme Black |
| SettingsManager.EyeCareOnShowsEyeCare | src/main/java/E_Reader/settings/SettingsManager.java:162-172 | switching eye care on makes the current theme EyeCare unless night mode is on |
| SettingsManager.SettingsManager.constructor | src/main/java/E_Reader/settings/SettingsManager.java:58-77 | a new manager holds the default fields and the default properties |
| SettingsManager.SettingsManager.LoadDefaultSettings | src/main/java/E_Reader/settings/SettingsManager.java:63-77 | the default properties are written over the table; the fields stay |
| SettingsManager.SettingsManager.LoadSettings | src/main/java/E_Reader/settings/SettingsManager.java:79-121 | a readable file is merged in and decoded into the fields; a missing one only writes the defaults |
| SettingsManager.SettingsManager.SaveSettings | src/main/java/E_Reader/settings/SettingsManager.java:123-144 | the table gets every field's encoding and is what is written; fields stay |
| SettingsManager.SettingsManager.SetThemeMode | src/main/java/E_Reader/settings/SettingsManager.java:249-252 | the theme and its background colour change; nothing else |
| SettingsManager.SettingsManager.ToggleNightMode | src/main/java/E_Reader/settings/SettingsManager.java:147-160 | the fields become the night toggle of the old fields and are saved |
| SettingsManager.SettingsManager.ToggleEyeCareMode | src/main/java/E_Reader/settings/SettingsManager.java:162-172 | the fields become the eye-care toggle of the old fields and are saved |
| SettingsPanel.FitModeDisplayName | src/main/java/E_Reader/SettingsPanel.java:247-255 | every fit mode is shown as one of the four combo-box names |
| SettingsPanel.FitModeFromDisplayName | src/main/java/E_Reader/SettingsPanel.java:257-265 | a name not in the combo box reads as fit width |
| SettingsPanel.FitModeDisplayRoundTrip | src/main/java/E_Reader/SettingsPanel.java:247-265 | showing a fit mode and reading the name back gives the mode, and every combo-box name survives the reverse trip |
| SettingsPanel.BackgroundDisplayName | src/main/java/E_Reader/SettingsPanel.java:267-275 | every colour is shown as one of the four combo-box names, an unknown colour as "深灰色" |
| SettingsPanel.BackgroundColorFromDisplayName | src/main/java/E_Reader/SettingsPanel.java:277-285 | every name reads as one of the four known colours, an unknown name as "#1e1e1e" |
| SettingsPanel.BackgroundRoundTrip | src/main/java/E_Reader/SettingsPanel.java:267-285 | the known colours and the combo-box names survive the trips both ways; an unknown colour comes back as "#1e1e1e" |
| SettingsPanel.SliderValue | src/main/java/E_Reader/SettingsPanel.java:164 | the zoom slider holds a value between 0.5 and 3.0, and a value already in that range unchanged |
| SettingsPanel.SaveUnchangedForm | src/main/java/E_Reader/SettingsPanel.java:195-245 | saving the form as it was filled changes only an unknown background (to "#1e1e1e") and a zoom outside the slider range (clamped) |
| SettingsPanel.FormEntries | src/main/java/E_Reader/SettingsPanel.java:216-221 | the form writes exactly its six keys and never the auto-save interval |
| SettingsPanel.DecodePanel | src/main/java/E_Reader/SettingsPanel.java:287-315 | loading keeps the auto-save interval, reads the fit mode with its fallback, the background as stored or "#1e1e1e", and the zoom or 1.0 when malformed; the zoom read is a double |
| SettingsPanel.DecodeFormEntries | src/main/java/E_Reader/SettingsPanel.java:195-315 | loading what the form saved gives back every setting except the auto-save interval, for every zoom that is a double |
| SettingsPanel.ReadFlagBack | src/main/java/E_Reader/SettingsPanel.java:300-309 | a flag saved as "true"/"false" parses back to the same value |
| SettingsPanel.DefaultsDecode | src/main/java/E_Reader/SettingsPanel.java:35-43 | loading the default properties gives the default settings |
| SettingsPanel.SettingsPanel.constructor | src/main/java/E_Reader/SettingsPanel.java:30-33 | a new panel holds the default settings and the default properties |
| SettingsPanel.SettingsPanel.LoadDefaultSettings | src/main/java/E_Reader/SettingsPanel.java:35-43 | the defaults are written over the table; the fields stay |
| SettingsPanel.SettingsPanel.ResetButton | src/main/java/E_Reader/SettingsPanel.java:96-99 | reset writes the default properties and refills the form from the unchanged fields |
| SettingsPanel.SettingsPanel.SaveButton | src/main/java/E_Reader/SettingsPanel.java:87-90 | save reads the fields from the form, writes them into the table and stores it |
| SettingsPanel.SettingsPanel.LoadSettings | src/main/java/E_Reader/SettingsPanel.java:287-315 | a readable file is merged in and decoded; a missing one only writes the defaults |
| SettingsPanel.SettingsPanel.SaveSettings | src/main/java/E_Reader/SettingsPanel.java:317-323 | the table is what is written |
| SettingsPanel.SettingsPanel.SetFitMode | src/main/java/E_Reader/SettingsPanel.java:351-354 | the field and its property change together, nothing else |
| SettingsPanel.SettingsPanel.SetBackgroundColor | src/main/java/E_Reader/SettingsPanel.java:356-359 | the field and its property change together, nothing else |
| SettingsPanel.SettingsPanel.SetShowPageNumbers | src/main/java/E_Reader/SettingsPanel.java:361-364 | the field and its property change together, nothing else |
| SettingsPanel.SettingsPanel.SetEnableTouchNavigation | src/main/java/E_Reader/SettingsPanel.java:366-369 | the field and its property change together, nothing else |
| SettingsPanel.SettingsPanel.SetDefaultZoomLevel | src/main/java/E_Reader/SettingsPanel.java:371-374 | the field and its property change together, nothing else |
| SettingsPanel.SettingsPanel.SetRememberLastFile | src/main/java/E_Reader/SettingsPanel.java:376-379 | the field and its property change together, nothing else |
| SettingsPanel.SetterReadsBack | src/main/java/E_Reader/SettingsPanel.java:351-379 | reading the table back after any setter gives the value that was set (for the zoom: any double) |
| FileManagerConfig.WindowSizeDefaultText | src/main/java/E_Reader/utils/FileManagerConfig.java:21 | the default window size is written "1000x700" |
| FileManagerConfig.ThumbnailSizeDefaultText | src/main/java/E_Reader/utils/FileManagerConfig.java:25 | the default thumbnail size is written "80x60" |
| FileManagerConfig.AllSettingsComplete | src/main/java/E_Reader/utils/FileManagerConfig.java:91-117 | the list of settings names every one of the 25 settings |
| FileManagerConfig.KeyInjective | src/main/java/E_Reader/utils/FileManagerConfig.java:91-117 | no two settings share a key |
| FileManagerConfig.DefaultConfig | src/main/java/E_Reader/utils/FileManagerConfig.java:91-117 | the defaults hold exactly the 25 keys |
| FileManagerConfig.DefaultConfigAt | src/main/java/E_Reader/utils/FileManagerConfig.java:17-43 | each setting's default property is its default constant's text |
| FileManagerConfig.DefaultKeysAreSettingKeys | src/main/java/E_Reader/utils/FileManagerConfig.java:91-117 | a key has a default exactly when it belongs to a setting |
| FileManagerConfig.ReadFlag | src/main/java/E_Reader/utils/FileManagerConfig.java:154-318 | a flag reads true exactly when its stored text is "true" ignoring case, and its default when absent |
| FileManagerConfig.ReadCount | src/main/java/E_Reader/utils/FileManagerConfig.java:177-296 | a number reads as its stored text when that parses, otherwise as its default, always in 32-bit range |
| FileManagerConfig.ParseSize | src/main/java/E_Reader/utils/FileManagerConfig.java:164-173 | a parsed size is two 32-bit numbers |
| FileManagerConfig.ParseSizeNeedsSeparator | src/main/java/E_Reader/utils/FileManagerConfig.java:164-173 | a text without "x" is not a size |
| FileManagerConfig.ParseFormatSize | src/main/java/E_Reader/utils/FileManagerConfig.java:164-173 | a size written "<width>x<height>" parses back to the same two numbers |
| FileManagerConfig.DefaultSizeParses | src/main/java/E_Reader/utils/FileManagerConfig.java:164-199 | each default size text parses to the default size |
| FileManagerConfig.ReadSize | src/main/java/E_Reader/utils/FileManagerConfig.java:164-199 | a size reads as its stored text when that parses, otherwise as its default |
| FileManagerConfig.ReadLibraryRoot | src/main/java/E_Reader/utils/FileManagerConfig.java:146-152 | a non-blank stored library path is used as it is; otherwise the path is user home, separator and "E_Reader_Library" |
| FileManagerConfig.ReadSortMethod | src/main/java/E_Reader/utils/FileManagerConfig.java:218-220 | the stored sort method, or "name-asc" when absent |
| FileManagerConfig.DefaultFlagsRead | src/main/java/E_Reader/utils/FileManagerConfig.java:154-318 | every flag read from the defaults is its default constant |
| FileManagerConfig.DefaultCountsRead | src/main/java/E_Reader/utils/FileManagerConfig.java:177-296 | every number read from the defaults is its default constant |
| FileManagerConfig.DefaultSizesRead | src/main/java/E_Reader/utils/FileManagerConfig.java:164-199 | both sizes read from the defaults are their default constants |
| FileManagerConfig.SizeDefaultReads | src/main/java/E_Reader/utils/FileManagerConfig.java:164-199 | a size stored as its default text reads as the default size |
| FileManagerConfig.DefaultPathsRead | src/main/java/E_Reader/utils/FileManagerConfig.java:146-220 | from the defaults the sort method is "name-asc" and the blank library path falls back to the home folder |
| FileManagerConfig.FlagReadsBack | src/main/java/E_Reader/utils/FileManagerConfig.java:326-344 | a flag written as "true"/"false" reads back as the same value |
| FileManagerConfig.CountReadsBack | src/main/java/E_Reader/utils/FileManagerConfig.java:338-340 | a 32-bit number written as text reads back as the same number |
| FileManagerConfig.SizeReadsBack | src/main/java/E_Reader/utils/FileManagerConfig.java:334-336 | a size written "<width>x<height>" reads back as the same size |
| FileManagerConfig.LibraryRootReadsBack | src/main/java/E_Reader/utils/FileManagerConfig.java:322-324 | a stored non-blank library path reads back; a blank or null one reads as the fallback |
| FileManagerConfig.LoadedConfig | src/main/java/E_Reader/utils/FileManagerConfig.java:59-86 | with no readable user file the defaults; with one, every user key overrides and every other default key keeps its default |
| FileManagerConfig.FileManagerConfig.constructor | src/main/java/E_Reader/utils/FileManagerConfig.java:45-47 | a new configuration is the loaded configuration |
| FileManagerConfig.FileManagerConfig.LoadConfig | src/main/java/E_Reader/utils/FileManagerConfig.java:59-86 | the table is the loaded configuration; a missing file causes the defaults to be written out |
| FileManagerConfig.FileManagerConfig.MergeUserConfig | src/main/java/E_Reader/utils/FileManagerConfig.java:69-73 | every user property overrides the table entry with its key |
| FileManagerConfig.FileManagerConfig.LoadDefaultConfig | src/main/java/E_Reader/utils/FileManagerConfig.java:91-117 | every default is written over the table |
| FileManagerConfig.FileManagerConfig.SaveConfig | src/main/java/E_Reader/utils/FileManagerConfig.java:134-142 | the table is what is written |
| FileManagerConfig.FileManagerConfig.ResetToDefaults | src/main/java/E_Reader/utils/FileManagerConfig.java:355-360 | the table becomes exactly the defaults and is written |
| FileManagerConfig.FileManagerConfig.SetLibraryRootPath | src/main/java/E_Reader/utils/FileManagerConfig.java:322-324 | only the library path entry changes |
| FileManagerConfig.FileManagerConfig.SetShowWelcome | src/main/java/E_Reader/utils/FileManagerConfig.java:326-328 | only that flag's entry changes, and the getter reads the value set |
| FileManagerConfig.FileManagerConfig.SetRememberLastFolder | src/main/java/E_Reader/utils/FileManagerConfig.java:330-332 | only that flag's entry changes, and the getter reads the value set |
| FileManagerConfig.FileManagerConfig.SetWindowSize | src/main/java/E_Reader/utils/FileManagerConfig.java:334-336 | only the window size entry changes, and the getter reads the size set |
| FileManagerConfig.FileManagerConfig.SetGridColumnsPerRow | src/main/java/E_Reader/utils/FileManagerConfig.java:338-340 | only the column count entry changes, and the getter reads the count set |
| FileManagerConfig.FileManagerConfig.SetThumbnailEnabled | src/main/java/E_Reader/utils/FileManagerConfig.java:342-344 | only that flag's entry changes, and the getter reads the value set |
| FileManagerConfig.FileManagerConfig.SetDefaultSortMethod | src/main/java/E_Reader/utils/FileManagerConfig.java:346-348 | only the sort method entry changes, and the getter reads the method set |
| FileManagerData.ResolveAllExtends | src/main/java/E_Reader/filemanager/FileManagerData.java:424-426 | resolving names below a path only extends it |
| FileManagerData.ResolveAllAppend | src/main/java/E_Reader/filemanager/FileManagerData.java:424-426 | resolving two lists of names one after the other is resolving their concatenation |
| FileManagerData.GetFileExtension | src/main/java/E_Reader/filemanager/FileManagerData.java:95-98 | the extension holds no dot, is empty when there is no dot or the only one starts the name, and is otherwise everything after the last dot |
| FileManagerData.SplitName | src/main/java/E_Reader/filemanager/FileManagerData.java:276-281 | base and extension rejoin to the name; a non-empty extension starts with the last dot, which is not the first character |
| FileManagerData.ExtensionOfSplit | src/main/java/E_Reader/filemanager/FileManagerData.java:276-298 | the recorded extension is the lower-cased split extension without its dot |
| FileManagerData.CandidateInjective | src/main/java/E_Reader/filemanager/FileManagerData.java:284 | different counters give different names "base (n)ext" |
| FileManagerData.CandidateKeepsExtension | src/main/java/E_Reader/filemanager/FileManagerData.java:284-298 | a numbered copy has the same recorded extension as the original name |
| FileManagerData.FreeName | src/main/java/E_Reader/filemanager/FileManagerData.java:269-287 | the name found is free; it is the original exactly when that was free, otherwise "base (n)ext" for the first free counter, every smaller counter being taken |
| FileManagerData.PicksFreeNameUnique | src/main/java/E_Reader/filemanager/FileManagerData.java:282-286 | the collision rule names exactly one file: two names it picks for the same directory, original name and taken paths are equal |
| FileManagerData.CreateKeepsNamesUnique | src/main/java/E_Reader/filemanager/FileManagerData.java:162-180 | adding a folder under a name its siblings do not use keeps sibling names unique |
| FileManagerData.RenameKeepsNamesUnique | src/main/java/E_Reader/filemanager/FileManagerData.java:196-209 | renaming to a name no other sibling uses keeps sibling names unique |
| FileManagerData.ChainOfAncestor | src/main/java/E_Reader/filemanager/FileManagerData.java:144-153 | the name chain of an ancestor is a prefix of its descendant's chain |
| FileManagerData.ChainEndsWithName | src/main/java/E_Reader/filemanager/FileManagerData.java:144-153 | a recorded folder's name chain ends with its own name |
| FileManagerData.PathOfAncestor | src/main/java/E_Reader/filemanager/FileManagerData.java:407-429 | an ancestor's directory contains its descendant's directory |
| FileManagerData.DetachedPath | src/main/java/E_Reader/filemanager/FileManagerData.java:415-422 | a folder whose parent has no entry resolves directly below the library |
| FileManagerData.ChildrenAfterRemoval | src/main/java/E_Reader/filemanager/FileManagerData.java:229-233 | removing a folder's entry does not change which folders name it as parent |
| FileManagerData.FileManagerData.constructor | src/main/java/E_Reader/filemanager/FileManagerData.java:22-93 | the tables are the scanned ones, keyed by id, with acyclic parent chains |
| FileManagerData.FileManagerData.GetFolders | src/main/java/E_Reader/filemanager/FileManagerData.java:101-111 | the result is sorted by name and holds exactly the folders whose parent is that id |
| FileManagerData.FileManagerData.GetFiles | src/main/java/E_Reader/filemanager/FileManagerData.java:114-119 | the result is sorted by name, holds exactly the files of that folder, and has the file count's length |
| FileManagerData.FileManagerData.GetFileCount | src/main/java/E_Reader/filemanager/FileManagerData.java:127-131 | the count is the number of files recorded in that folder |
| FileManagerData.FileManagerData.GetFolder | src/main/java/E_Reader/filemanager/FileManagerData.java:122-124 | an entry is returned exactly when the id is recorded, and it is that id's entry |
| FileManagerData.FileManagerData.GetParentFolderId | src/main/java/E_Reader/filemanager/FileManagerData.java:401-404 | a parent is returned exactly for recorded folders, and the folder's chain is its parent's chain plus its own name |
| FileManagerData.FileManagerData.CollectChain | src/main/java/E_Reader/filemanager/FileManagerData.java:144-153 | the loop collects the names from the library down to the folder |
| FileManagerData.FileManagerData.GetFolderPath | src/main/java/E_Reader/filemanager/FileManagerData.java:134-156 | "首頁" for root, "未知路徑" for an unknown id, otherwise "首頁 > " and the chain joined by " > " |
| FileManagerData.FileManagerData.GetPhysicalPath | src/main/java/E_Reader/filemanager/FileManagerData.java:407-429 | the library for "root", otherwise the chain of names resolved below the library |
| FileManagerData.FileManagerData.CreateFolder | src/main/java/E_Reader/filemanager/FileManagerData.java:159-187 | it succeeds exactly when no sibling has the name and the directory is made; then exactly one entry is added; files never change and sibling names stay unique |
| FileManagerData.FileManagerData.RenameFolder | src/main/java/E_Reader/filemanager/FileManagerData.java:190-216 | it succeeds exactly for a known id, a name no other sibling holds, a directory with a parent, and a successful move; then only that folder's name changes |
| FileManagerData.FileManagerData.ImportFile | src/main/java/E_Reader/filemanager/FileManagerData.java:267-308 | succeeds exactly when the disk copies the file; then one new entry in that folder with the copied size, not a favourite, at a free path in the folder's directory, with the source's extension, named by the collision rule `PicksFreeName`: the source name when free, else the first free "base (n)ext"; on a disk failure both tables are unchanged |
| FileManagerData.FileManagerData.RenameFile | src/main/java/E_Reader/filemanager/FileManagerData.java:311-334 | it succeeds exactly for a known id with a parent directory, a free new name and a successful move; then only that file's name and path change |
| FileManagerData.FileManagerData.MoveFile | src/main/java/E_Reader/filemanager/FileManagerData.java:337-378 | it succeeds exactly for a known id with a file name and a successful move; then only the folder id and the path change, and the new path is the target directory resolved with the name the collision rule `PicksFreeName` picks for the old file name: that name when free, else the first free "base (n)ext" |
| FileManagerData.FileManagerData.DeleteFile | src/main/java/E_Reader/filemanager/FileManagerData.java:381-398 | it succeeds exactly for a known id whose deletion works; then only that entry goes |
| FileManagerData.FileManagerData.RemoveFilesOf | src/main/java/E_Reader/filemanager/FileManagerData.java:241-248 | the entries of the files directly inside the folder go; nothing else changes |
| FileManagerData.FileManagerData.DeleteFolder | src/main/java/E_Reader/filemanager/FileManagerData.java:219-255 | as written: it succeeds exactly for a known id whose directory walk succeeds, changing nothing otherwise; the entries of its whole subtree and their files go; the first directory deleted is its own, and every descendant's directory is looked up directly below the library |
| FileManagerData.FileManagerData.DeleteSubFolders | src/main/java/E_Reader/filemanager/FileManagerData.java:236-238 | the loop over the children removes each child's subtree and files |
| FileManagerData.FileManagerData.DeleteSubFolder | src/main/java/E_Reader/filemanager/FileManagerData.java:237 | one recursive call removes one child's subtree and its files |
| FileManagerData.FileManagerData.DeleteFolderResolvedFirst | src/main/java/E_Reader/filemanager/FileManagerData.java:219-255 | corrected: the same success condition and the same entries go, and every directory deleted lies inside the folder's own directory |
| FileManagerData.FileManagerData.DeleteTree | src/main/java/E_Reader/filemanager/FileManagerData.java:219-255 | corrected recursion: the subtree's entries and files go, and every directory deleted lies inside the given one |
| FileManagerData.FileManagerData.DeleteChildTrees | src/main/java/E_Reader/filemanager/FileManagerData.java:236-238 | corrected loop over the children, every directory deleted inside the parent's |
| FileManagerData.FileManagerData.DeleteChildTree | src/main/java/E_Reader/filemanager/FileManagerData.java:237 | corrected step, the child's directory resolved below its parent's |
| FileManagerData.DeleteFolderLeavesItsDirectory | src/main/java/E_Reader/filemanager/FileManagerData.java:219-255 | deleting folder "A" that holds a folder named "X" hands the disk library/X, a directory outside library/A |
| FileManagerController.FileIcon | src/main/java/E_Reader/filemanager/FileManagerController.java:821-837 | the picture icon is returned exactly for the lower-cased extensions jpg, jpeg, png, gif and bmp; the paper clip exactly for extensions no case names |
| FileManagerController.IconMissesTwoImageFormats | src/main/java/E_Reader/filemanager/FileManagerController.java:821-837 | among the image extensions the import accepts, exactly tiff and webp do not get the picture icon |
| FileManagerController.SupportedExactly | src/main/java/E_Reader/filemanager/FileManagerController.java:1895-1901 | a file opens in the reader exactly when its lower-cased extension is pdf, epub, txt or an image extension |
| FileManagerController.SuffixIsExtension | src/main/java/E_Reader/filemanager/FileManagerController.java:1488-1504 | for a name with an extension, the lower-cased name ends with "." + ext exactly when ext is the recorded extension |
| FileManagerController.ValidTypeMatchesExtension | src/main/java/E_Reader/filemanager/FileManagerController.java:1488-1504 | for names with an extension, the pdf, epub and images import filters accept exactly the matching recorded extensions |
| FileManagerController.ImagesMatchExtension | src/main/java/E_Reader/filemanager/FileManagerController.java:1497-1500 | the images filter accepts exactly the names whose recorded extension is an image extension |
| FileManagerController.HiddenPdfPassesFilter | src/main/java/E_Reader/filemanager/FileManagerController.java:1492-1493 | the name ".pdf" passes the pdf filter although its recorded extension is empty |
| FileManagerController.SpecialFolderName | src/main/java/E_Reader/filemanager/FileManagerController.java:1335-1347 | a special folder exists exactly for the types pdf, epub and images (any case), named "PDF文件", "電子書" or "圖片" |
| FileManagerController.SpecialFolderNamesDistinct | src/main/java/E_Reader/filemanager/FileManagerController.java:1335-1347 | two import types share a special folder only if they are the same type ignoring case |
| FileManagerController.EnsureSpecialFolderExists | src/main/java/E_Reader/filemanager/FileManagerController.java:1333-1369 | no folder for an unknown type; an existing root folder with the name is reused without change; otherwise the folder is created under root when possible |
| FileManagerController.FindRootFolder | src/main/java/E_Reader/filemanager/FileManagerController.java:1350-1355 | a folder is found exactly when a root folder has the name, and it is such a folder |
| FileManagerController.SpecialFolderUnique | src/main/java/E_Reader/filemanager/FileManagerController.java:1350-1355 | with unique sibling names at most one root folder has a given name |
| FileManagerController.Entries | src/main/java/E_Reader/filemanager/FileManagerController.java:566-594 | every folder is placed before every file, each in its order |
| FileManagerController.PlaceInGrid | src/main/java/E_Reader/filemanager/FileManagerController.java:566-594 | the k-th entry goes to column k mod 5 and row k div 5 |
| FileManagerController.PlaceInList | src/main/java/E_Reader/filemanager/FileManagerController.java:596-619 | the k-th entry goes to column 0 and row k |
| FileManagerController.GridCellsDistinct | src/main/java/E_Reader/filemanager/FileManagerController.java:566-594 | no two entries share a grid cell, and every column is below 5 |
| FileManagerController.FilterFiles | src/main/java/E_Reader/filemanager/FileManagerController.java:2051-2074 | a null or blank search shows everything; otherwise the stream filters of the folders and of the files, keeping in input order and with repetitions exactly the entries whose lower-cased name contains the lower-cased search text |
| FileManagerController.FilterFilesKeepsOrder | src/main/java/E_Reader/filemanager/FileManagerController.java:2061-2068 | searching two concatenated listings gives the two results concatenated, for the folders and for the files: the stream filter keeps input order and repetitions |
| FileManagerController.FilterFilesSingle | src/main/java/E_Reader/filemanager/FileManagerController.java:2061-2068 | a listing of one folder and one file keeps each exactly when its lower-cased name contains the lower-cased search text |
| FileManagerController.RenamedFileName | src/main/java/E_Reader/filemanager/FileManagerController.java:1783-1803 | a new name exists exactly when the old name has a dot and the input is not blank: the trimmed input followed by the old name's tail from its last dot |
| FileManagerController.RenameKeepsExtension | src/main/java/E_Reader/filemanager/FileManagerController.java:1783-1803 | renaming in the dialog keeps the recorded extension of a name that has one |
| FileManagerController.RenameOfHiddenFileGainsExtension | src/main/java/E_Reader/filemanager/FileManagerController.java:1783-1803 | renaming ".txt" to "x" gives "x.txt", which gains the extension "txt" the old name did not have |
| FileManagerController.CurrentFolderDisplayName | src/main/java/E_Reader/filemanager/FileManagerController.java:1020-1026 | "根目錄" for root, the folder's name for a known id, "未知資料夾" otherwise |
| TextRenderer.KeptParagraphsIff | src/main/java/E_Reader/viewer/TextRenderer.java:233-237 | a paragraph is kept exactly when it is the trimmed form of a non-blank formatted paragraph |
| TextRenderer.KeptParagraphsTrimmed | src/main/java/E_Reader/viewer/TextRenderer.java:233-237 | no kept paragraph is empty and each is trimmed |
| TextRenderer.TrimParagraphs | src/main/java/E_Reader/viewer/TextRenderer.java:233-237 | the inner loop keeps exactly the trimmed non-blank paragraphs, in order |
| TextRenderer.FormatAll | src/main/java/E_Reader/viewer/TextRenderer.java:215-242 | one display page per extracted page, in order, with its page number, its kept paragraphs, and marked empty exactly when it had no paragraphs |
| TextRenderer.FormatEach | src/main/java/E_Reader/viewer/TextRenderer.java:222-241 | the loop over the extracted pages produces exactly that list |
| TextRenderer.NumberedLineIff | src/main/java/E_Reader/viewer/TextRenderer.java:470 | the numbered pattern holds exactly for a digit run, then "、" or "．", then no line terminator to the end |
| TextRenderer.ChineseChapterHeaderExample | src/main/java/E_Reader/viewer/TextRenderer.java:460-463 | "第三章 重逢" is a chapter header |
| TextRenderer.TwoLineChapterIsNoHeader | src/main/java/E_Reader/viewer/TextRenderer.java:460-466 | "第三章\n重逢" is not a chapter header, because ".*" stops at the line break |
| TextRenderer.LeftmostUnique | src/main/java/E_Reader/viewer/TextRenderer.java:621-652 | at most one layout of a text cuts it at the leftmost non-overlapping matches |
| TextRenderer.HighlightedIsLeftmostMatches | src/main/java/E_Reader/viewer/TextRenderer.java:621-652 | the highlighted pieces spell the paragraph, mark exactly the successive leftmost non-overlapping case-insensitive matches of the term, and are the only such layout |
| TextRenderer.HighlightedMarksMatchTerm | src/main/java/E_Reader/viewer/TextRenderer.java:621-652 | every highlighted piece equals the search term up to case |
| TextRenderer.LoopStep | src/main/java/E_Reader/viewer/TextRenderer.java:630-641 | one loop round appends the plain text before the match, if any, then the match, and resumes after it |
| TextRenderer.LoopEnd | src/main/java/E_Reader/viewer/TextRenderer.java:644-650 | after the last match the rest of the paragraph, if any, is one plain piece |
| TextRenderer.AddHighlightedText | src/main/java/E_Reader/viewer/TextRenderer.java:621-652 | the method's pieces are the highlighted layout of the paragraph |
| TextRenderer.HighlightLoop | src/main/java/E_Reader/viewer/TextRenderer.java:627-650 | the loop over the lower-cased strings produces the highlighted layout from index 0 |
| TextRenderer.LinePieces | src/main/java/E_Reader/viewer/TextRenderer.java:433-451 | a line's pieces always spell the line |
| TextRenderer.BlockOf | src/main/java/E_Reader/viewer/TextRenderer.java:354-378 | an empty line is a spacer, a chapter header a chapter block with its text, any other line pieces that spell it |
| TextRenderer.BodyOf | src/main/java/E_Reader/viewer/TextRenderer.java:343-379 | the no-text label exactly for an empty page or one without paragraphs, otherwise one block per paragraph, in order |
| TextRenderer.LayoutFor | src/main/java/E_Reader/viewer/TextRenderer.java:251-265 | two pages exactly for TWO_PAGE in landscape, continuous exactly for CONTINUOUS, otherwise one page |
| TextRenderer.AllViews | src/main/java/E_Reader/viewer/TextRenderer.java:312-328 | one view per display page, in order |
| TextRenderer.ViewsFor | src/main/java/E_Reader/viewer/TextRenderer.java:269-328 | one page shows the current view, two pages the current and the next when there is one, continuous all views |
| TextRenderer.FirstMatchFrom | src/main/java/E_Reader/viewer/TextRenderer.java:603-619 | the result is the lowest page at or after the start that matches the term; none when no such page exists |
| TextRenderer.FirstMatch | src/main/java/E_Reader/viewer/TextRenderer.java:603-619 | the first page that matches the term, with none before it; none when no page matches |
| TextRenderer.ClampFontSize | src/main/java/E_Reader/viewer/TextRenderer.java:662-665 | the font size is the given one limited to [8, 72] |
| TextRenderer.ClampLineSpacing | src/main/java/E_Reader/viewer/TextRenderer.java:674-677 | the spacing is the given one limited to [0.5, 5.0] |
| TextRenderer.TextRenderer.Rendered | src/main/java/E_Reader/viewer/TextRenderer.java:244-267 | the "nothing loaded" message exactly when there are no display pages; otherwise pages in the layout of the mode and orientation |
| TextRenderer.TextRenderer.GetTotalPages | src/main/java/E_Reader/viewer/TextRenderer.java:697-699 | the number of display pages, 0 when there are none |
| TextRenderer.TextRenderer.constructor | src/main/java/E_Reader/viewer/TextRenderer.java:31-77 | nothing loaded, index 0, no search, page-by-page, portrait desktop, 18 pt at spacing 1.8 |
| TextRenderer.TextRenderer.RenderCurrentPage | src/main/java/E_Reader/viewer/TextRenderer.java:244-267 | the pane shows what the state renders to; the state is unchanged |
| TextRenderer.TextRenderer.FormatPages | src/main/java/E_Reader/viewer/TextRenderer.java:215-242 | with pages, the display pages are their formatting; without, nothing changes |
| TextRenderer.TextRenderer.SetPages | src/main/java/E_Reader/viewer/TextRenderer.java:189-198 | a non-empty list is formatted and shown from index 0; otherwise the "nothing loaded" message and the old display pages stay; the search term and every layout setting stay |
| TextRenderer.TextRenderer.ClearPages | src/main/java/E_Reader/viewer/TextRenderer.java:200-213 | no pages, index 0, no search, the "nothing loaded" message and a page count of 0; every layout setting stays |
| TextRenderer.TextRenderer.GoToPage | src/main/java/E_Reader/viewer/TextRenderer.java:497-503 | an index inside the display pages is shown; any other changes nothing; pages, search term and every layout setting stay |
| TextRenderer.TextRenderer.Step | src/main/java/E_Reader/viewer/TextRenderer.java:505-531 | the step is 2 exactly in TWO_PAGE landscape, otherwise 1 |
| TextRenderer.TextRenderer.NextPage | src/main/java/E_Reader/viewer/TextRenderer.java:505-517 | forward by one step when that stays below the page count, otherwise nothing changes; pages, search term and every layout setting stay |
| TextRenderer.TextRenderer.PreviousPage | src/main/java/E_Reader/viewer/TextRenderer.java:519-531 | back by one step when that stays at or above 0, otherwise nothing changes; pages, search term and every layout setting stay |
| TextRenderer.TextRenderer.ScrollToFirstMatch | src/main/java/E_Reader/viewer/TextRenderer.java:603-619 | with a term and a matching page, the first matching page is shown; otherwise nothing changes; pages, search term and every layout setting stay |
| TextRenderer.TextRenderer.SearchText | src/main/java/E_Reader/viewer/TextRenderer.java:590-601 | without pages or term nothing changes; otherwise the trimmed term is kept, the pane redrawn and the first matching page shown; pages and every layout setting stay |
| TextRenderer.TextRenderer.SetFontSize | src/main/java/E_Reader/viewer/TextRenderer.java:662-672 | the size is clamped to [8, 72] and the pane redrawn when pages are loaded; pages, index, search term, mode, orientation, device and spacing stay |
| TextRenderer.TextRenderer.SetLineSpacing | src/main/java/E_Reader/viewer/TextRenderer.java:674-682 | the spacing is clamped to [0.5, 5.0] and the pane redrawn when pages are loaded; pages, index, search term, mode, orientation, device and font size stay |
| TextRenderer.TextRenderer.SetDisplayMode | src/main/java/E_Reader/viewer/TextRenderer.java:713-716 | the mode is set and the pane redrawn in it; pages, index, search term, orientation, device, font size and spacing stay |
| TextRenderer.TextRenderer.UpdateLayoutForSize | src/main/java/E_Reader/viewer/TextRenderer.java:122-138 | for a positive size: tablet below 800 wide, landscape when wider than tall, the font size and line spacing of that device and orientation, and two pages for a landscape tablet; otherwise no setting changes; index, pages and search term stay |
| TextRenderer.TextRenderer.AdjustLayoutSettings | src/main/java/E_Reader/viewer/TextRenderer.java:140-177 | font size and spacing follow the device and orientation table; a landscape tablet switches to two pages |
| TextRenderer.TextRenderer.SetContent | src/main/java/E_Reader/viewer/TextRenderer.java:728-743 | a null or blank text shows the message; any other text becomes one page numbered 0 from its formatted lines, shown from index 0; the search term and every layout setting stay |
| LegacyTextRenderer.FormatPageAgreesWithViewer | src/main/java/E_Reader/TextRenderer.java:215-247 | a legacy display page has the viewer's page number, paragraphs and emptiness; it keeps its source page exactly when that page had paragraphs |
| LegacyTextRenderer.EmptyPageIff | src/main/java/E_Reader/TextRenderer.java:225-243 | a page is empty exactly when it has no source page; an empty page has no paragraphs; every kept paragraph is trimmed and non-empty |
| LegacyTextRenderer.FormatAll | src/main/java/E_Reader/TextRenderer.java:215-247 | one display page per extracted page, in order |
| LegacyTextRenderer.FormatEach | src/main/java/E_Reader/TextRenderer.java:222-246 | the loop over the extracted pages produces exactly that list |
| LegacyTextRenderer.PageHeader | src/main/java/E_Reader/TextRenderer.java:401-416 | a page with a source page has the viewer's "第 n 頁" header |
| LegacyTextRenderer.PageHeaderIff | src/main/java/E_Reader/TextRenderer.java:401-416 | the header equals the viewer's exactly when the page keeps its source page |
| LegacyTextRenderer.EmptyPageHeader | src/main/java/E_Reader/TextRenderer.java:225-231 | a page without paragraphs is headed "頁面 n", unlike the viewer's header for that page |
| LegacyTextRenderer.AllViews | src/main/java/E_Reader/TextRenderer.java:307-321 | one view per display page, in order |
| LegacyTextRenderer.LayoutFor | src/main/java/E_Reader/TextRenderer.java:249-264 | one page exactly for PAGE_BY_PAGE, two exactly for TWO_PAGE in landscape, continuous for CONTINUOUS and for TWO_PAGE in portrait |
| LegacyTextRenderer.LayoutDiffersOnlyInPortraitTwoPage | src/main/java/E_Reader/TextRenderer.java:257-263 | the legacy layout differs from the viewer's exactly for TWO_PAGE in portrait |
| LegacyTextRenderer.TextRenderer.Rendered | src/main/java/E_Reader/TextRenderer.java:249-264 | the "nothing loaded" message exactly when there are no display pages; otherwise pages in the legacy layout |
| LegacyTextRenderer.TextRenderer.GetTotalPages | src/main/java/E_Reader/TextRenderer.java:653-655 | the number of display pages, 0 when there are none |
| LegacyTextRenderer.TextRenderer.HasContent | src/main/java/E_Reader/TextRenderer.java:657-659 | content exactly when the page count is positive |
| LegacyTextRenderer.TextRenderer.constructor | src/main/java/E_Reader/TextRenderer.java:29-74 | nothing loaded, index 0, no search, page-by-page, portrait desktop, 18 pt at spacing 1.8 |
| LegacyTextRenderer.TextRenderer.RenderCurrentPage | src/main/java/E_Reader/TextRenderer.java:249-264 | the pane shows what the state renders to; the state is unchanged |
| LegacyTextRenderer.TextRenderer.FormatPages | src/main/java/E_Reader/TextRenderer.java:215-247 | with pages, the display pages are their formatting; without, nothing changes |
| LegacyTextRenderer.TextRenderer.SetPages | src/main/java/E_Reader/TextRenderer.java:204-213 | a non-empty list is formatted and shown from index 0; otherwise the "nothing loaded" message and the old display pages stay; the search term and every layout setting stay |
| LegacyTextRenderer.TextRenderer.GoToPage | src/main/java/E_Reader/TextRenderer.java:477-484 | an index inside the display pages is shown; any other changes nothing; pages, search term and every layout setting stay |
| LegacyTextRenderer.TextRenderer.Step | src/main/java/E_Reader/TextRenderer.java:486-512 | the step is 2 exactly in TWO_PAGE landscape, otherwise 1 |
| LegacyTextRenderer.TextRenderer.NextPage | src/main/java/E_Reader/TextRenderer.java:486-498 | forward by one step when that stays below the page count, otherwise nothing changes; pages, search term and every layout setting stay |
| LegacyTextRenderer.TextRenderer.PreviousPage | src/main/java/E_Reader/TextRenderer.java:500-512 | back by one step when that stays at or above 0, otherwise nothing changes; pages, search term and every layout setting stay |
| LegacyTextRenderer.TextRenderer.ScrollToFirstMatch | src/main/java/E_Reader/TextRenderer.java:582-598 | with a term and a matching page, the first matching page is shown; otherwise nothing changes; pages, search term and every layout setting stay |
| LegacyTextRenderer.TextRenderer.SearchText | src/main/java/E_Reader/TextRenderer.java:569-580 | without pages or term nothing changes; otherwise the trimmed term is kept, the pane redrawn and the first matching page shown; pages and every layout setting stay |
| LegacyTextRenderer.TextRenderer.SetFontSize | src/main/java/E_Reader/TextRenderer.java:694-704 | the size is clamped to [8, 72] and the pane redrawn when there is content; pages, index, search term, mode, orientation, device and spacing stay |
| LegacyTextRenderer.TextRenderer.SetLineSpacing | src/main/java/E_Reader/TextRenderer.java:684-692 | the spacing is clamped to [0.5, 5.0] and the pane redrawn when there is content; pages, index, search term, mode, orientation, device and font size stay |
| LegacyTextRenderer.TextRenderer.SetDisplayMode | src/main/java/E_Reader/TextRenderer.java:669-674 | the mode is set; the pane is redrawn only when there is content; pages, index, search term, orientation, device, font size and spacing stay |
| LegacyTextRenderer.TextRenderer.UpdateLayoutForSize | src/main/java/E_Reader/TextRenderer.java:126-153 | for a positive size: tablet below 800 wide, landscape when wider than tall, the font size and line spacing of that device and orientation, and two pages for a landscape tablet; otherwise no setting changes; index, pages and search term stay |
| LegacyTextRenderer.TextRenderer.AdjustLayoutSettings | src/main/java/E_Reader/TextRenderer.java:155-192 | font size and spacing follow the device and orientation table; a landscape tablet switches to two pages |
| NavigationBarController.NavigationBarController.IsInitial | src/main/java/E_Reader/ui/NavigationBarController.java:20-22 | the initial state has the bar pinned, visible and its container shown |
| NavigationBarController.NavigationBarController.constructor | src/main/java/E_Reader/ui/NavigationBarController.java:20-86 | the bar starts pinned and visible with no animation running, and the invariant holds: a running auto-hide timer implies unpinned, the two fades never run together, a running show fade implies visible, pinned implies the container is shown |
| NavigationBarController.NavigationBarController.StartAutoHideTimer | src/main/java/E_Reader/ui/NavigationBarController.java:236-241 | the timer is (re)started and nothing else changes |
| NavigationBarController.NavigationBarController.ShowNavigationBarPermanently | src/main/java/E_Reader/ui/NavigationBarController.java:175-191 | pinned, visible and shown; the timer and the hide fade stop and the show fade runs |
| NavigationBarController.NavigationBarController.HideNavigationBar | src/main/java/E_Reader/ui/NavigationBarController.java:196-208 | not visible; the timer and the show fade stop and the hide fade runs; pinning is unchanged |
| NavigationBarController.NavigationBarController.ShowNavigationBarTemporarily | src/main/java/E_Reader/ui/NavigationBarController.java:213-231 | when pinned nothing changes; otherwise the bar becomes visible and shown with the show fade running, and the timer starts exactly when the mouse is outside the top area |
| NavigationBarController.NavigationBarController.ToggleNavigationBar | src/main/java/E_Reader/ui/NavigationBarController.java:160-170 | pinning flips, visibility follows the new pinning and no timer runs; pinning shows the container and fades in, unpinning fades out and leaves the container as it was |
| NavigationBarController.NavigationBarController.HandleMouseMove | src/main/java/E_Reader/ui/NavigationBarController.java:121-140 | the top-area flag follows the mouse (at most 50 px); entering it shows a hidden unpinned bar; leaving it starts the timer of a visible unpinned bar; every other move, including crossings with a pinned bar, a visible bar on entry or a hidden bar on exit, changes only the flag |
| NavigationBarController.NavigationBarController.HandleScroll | src/main/java/E_Reader/ui/NavigationBarController.java:145-155 | an upward scroll within 100 px of the top shows a hidden unpinned bar temporarily: container shown, fading in, no fade-out; anything else changes neither the bar, the container, the timer nor the fades |
| NavigationBarController.NavigationBarController.MouseEnteredControls | src/main/java/E_Reader/ui/NavigationBarController.java:99-104 | the mouse counts as in the top area and the timer stops; bar, container and fades stay |
| NavigationBarController.NavigationBarController.MouseExitedControls | src/main/java/E_Reader/ui/NavigationBarController.java:106-111 | the mouse leaves the top area and the timer starts when unpinned; bar, container and fades stay |
| NavigationBarController.NavigationBarController.AutoHideTimerFinished | src/main/java/E_Reader/ui/NavigationBarController.java:81-85 | the timer stops and the container stays; with the mouse outside the top area the bar hides and fades out, otherwise visibility and fades stay as they were |
| NavigationBarController.NavigationBarController.ShowAnimationFinished | src/main/java/E_Reader/ui/NavigationBarController.java:64-67 | the show fade ends with the container shown; the flags, the timer and the hide fade stay |
| NavigationBarController.NavigationBarController.HideAnimationFinished | src/main/java/E_Reader/ui/NavigationBarController.java:73-78 | the hide fade ends; the container stays shown only when the bar is pinned; the flags, the timer and the show fade stay |
| NavigationBarController.NavigationBarController.SetNavigationBarPinned | src/main/java/E_Reader/ui/NavigationBarController.java:268-277 | pinning shows the bar for good, fading in, without a timer; unpinning outside the top area hides it with a fade-out, and inside the top area changes nothing else |
| NavigationBarController.NavigationBarController.Cleanup | src/main/java/E_Reader/ui/NavigationBarController.java:282-292 | the timer and both fades stop and the bar state is unchanged |
| NavigationBarController.NavigationBarController.Reset | src/main/java/E_Reader/ui/NavigationBarController.java:297-309 | back to the initial state: pinned, visible, shown, mouse outside the top area |
| MainController.JavaDiv | src/main/java/E_Reader/ui/MainController.java:926-928 | Java's long division: truncation toward zero, so a negative dividend gives the negated quotient of its magnitude |
| MainController.JavaRem | src/main/java/E_Reader/ui/MainController.java:926-928 | Java's long remainder: it takes the sign of the dividend |
| MainController.ClockOfDecomposes | src/main/java/E_Reader/ui/MainController.java:926-928 | for a non-negative duration the hours, minutes and seconds are a clock reading (minutes and seconds below 60) whose length is within the same second as the duration |
| MainController.ClockOfUnique | src/main/java/E_Reader/ui/MainController.java:926-928 | that reading is the only clock reading within the same second as the duration |
| MainController.ClockOfSameSecond | src/main/java/E_Reader/ui/MainController.java:926-928 | durations within the same whole second give the same reading |
| MainController.ClockOfNegative | src/main/java/E_Reader/ui/MainController.java:926-928 | a negative duration gives the field-wise negation of the reading for its magnitude |
| MainController.TwoDigits | src/main/java/E_Reader/ui/MainController.java:930 | "%02d" output has at least two characters, all digits for a non-negative number |
| MainController.TwoDigitsInjective | src/main/java/E_Reader/ui/MainController.java:930 | distinct numbers print differently under "%02d" |
| MainController.ReadingTimeTextOfZero | src/main/java/E_Reader/ui/MainController.java:923-931 | no reading time shows "閱讀時間: 00:00:00" |
| MainController.ZeroClockText | src/main/java/E_Reader/ui/MainController.java:930 | the zero reading prints as "閱讀時間: 00:00:00" |
| MainController.ColonFieldsInjective | src/main/java/E_Reader/ui/MainController.java:930 | a colon-separated text of digit fields determines its fields |
| MainController.ClockTextInjective | src/main/java/E_Reader/ui/MainController.java:930 | distinct clock readings print differently |
| MainController.ClockOfCountsSeconds | src/main/java/E_Reader/ui/MainController.java:926-928 | the reading counts exactly the whole seconds of the duration |
| MainController.ReadingTimeTextIffSameSecond | src/main/java/E_Reader/ui/MainController.java:923-931 | two non-negative durations show the same text exactly when they fall in the same whole second |
| MainController.PageLabelNamesCase | src/main/java/E_Reader/ui/MainController.java:585-597 | the label reads "文字: …" exactly in text mode with text pages, and "頁面: 0 / 0" exactly when neither text pages nor images are loaded |
| MainController.PageLabelReadsBack | src/main/java/E_Reader/ui/MainController.java:590-596 | in one mode, the label determines the current page and the page count |
| MainController.ClickActionOf | src/main/java/E_Reader/ui/MainController.java:680-686 | right of 70% turns forward, left of 30% back, anything between toggles the controls |
| MainController.ClickZonesOrdered | src/main/java/E_Reader/ui/MainController.java:680-686 | a click further right never selects a zone further left |
| MainController.ClickZonesExist | src/main/java/E_Reader/ui/MainController.java:680-686 | on a positive width all three zones are reachable |
| MainController.MainController.constructor | src/main/java/E_Reader/ui/MainController.java:72-97 | fresh state manager, text renderer and image viewer; image mode, windowed, controls shown, page label "頁面: 0 / 0" and reading time "閱讀時間: 00:00:00" |
| MainController.MainController.UpdateUI | src/main/java/E_Reader/ui/MainController.java:568-571 | the page label is recomputed from the state; the rest of the window is unchanged |
| MainController.MainController.GoToFirstPage | src/main/java/E_Reader/ui/MainController.java:514-521 | text mode goes to page 0 when there are pages, image mode to image 0 when images are loaded; the other viewer is untouched, the moved one keeps its pages, search, layout, zoom, fit and rotation, the reading-time widgets stay and the label is refreshed |
| MainController.MainController.GoToPreviousPage | src/main/java/E_Reader/ui/MainController.java:523-533 | text mode steps back one page when above 0, image mode when the viewer can go back; the moved viewer keeps its other state, the reading-time widgets stay and the label is refreshed |
| MainController.MainController.GoToNextPage | src/main/java/E_Reader/ui/MainController.java:535-545 | text mode steps forward one page when below the last, image mode when the viewer can go on; the moved viewer keeps its other state, the reading-time widgets stay and the label is refreshed |
| MainController.MainController.GoToLastPage | src/main/java/E_Reader/ui/MainController.java:547-554 | text mode goes to the last page when there are pages, image mode to the last image when loaded; the moved viewer keeps its other state, the reading-time widgets stay and the label is refreshed |
| MainController.MainController.GoToPage | src/main/java/E_Reader/ui/MainController.java:556-565 | without an open file nothing changes; otherwise the active viewer goes to an index inside its range, keeping its other state, the reading-time widgets stay and the label is refreshed |
| MainController.MainController.ToggleFullscreen | src/main/java/E_Reader/ui/MainController.java:753-765 | full screen flips on the state and the stage; the controls show exactly when windowed and not hidden by the user; the state manager's content, indices, clock, auto-scroll, controls, mode and path stay, as do the page label and the reading-time widgets |
| MainController.MainController.ToggleControlsVisibility | src/main/java/E_Reader/ui/MainController.java:768-775 | in full screen neither the controller nor the state manager changes; otherwise the controls' visibility flips and the shown and managed flags follow it; the state manager's content, indices, clock, auto-scroll, mode and path and the page label stay |
| MainController.MainController.ToggleFocusModeAsWritten | src/main/java/E_Reader/ui/MainController.java:778-788 | as written the controls, the reading-time label and the progress bar all keep the controls' old visibility: nothing toggles |
| MainController.MainController.ToggleFocusMode | src/main/java/E_Reader/ui/MainController.java:778-788 | the controls' visibility flips and the reading-time label and the progress bar follow it |
| MainController.MainController.HandleImageClick | src/main/java/E_Reader/ui/MainController.java:674-687 | in text mode nothing changes; in image mode the click zone turns forward or back (controls kept) or toggles the controls (shown and managed flags follow outside full screen, page label kept); the state manager's content, indices, clock, auto-scroll, full-screen flag, mode and path, and the images, zoom, fit, rotation, stage flag and reading-time widgets stay in every case |
| MainController.MainController.UpdateReadingTime | src/main/java/E_Reader/ui/MainController.java:923-931 | the reading-time label shows the total reading time as "閱讀時間: hh:mm:ss" |
| EnhancedTextExtractor.MatchesFormulaIndicatorsIff | src/main/java/E_Reader/core/EnhancedTextExtractor.java:53-55 | the indicator pattern matches exactly a single line holding at least one indicator character |
| EnhancedTextExtractor.TwoLinesNeverMatch | src/main/java/E_Reader/core/EnhancedTextExtractor.java:53-55 | a formula followed by a second line does not match, because "." takes no line terminator |
| EnhancedTextExtractor.DetectsLatex | src/main/java/E_Reader/core/EnhancedTextExtractor.java:184-196 | never when disabled, always when forced; in AUTO exactly when the best text is one line holding an indicator |
| EnhancedTextExtractor.MergedText | src/main/java/E_Reader/core/EnhancedTextExtractor.java:211-220 | the merged text starts with the existing text and a blank line when that is not blank, otherwise with the header; it ends with the trimmed formula and the footer and has exactly their combined length |
| EnhancedTextExtractor.Enhanced | src/main/java/E_Reader/core/EnhancedTextExtractor.java:201-241 | a recognised, non-blank formula replaces the OCR text with the merged text and marks a non-OCR page MIXED; any other result leaves the page as it was; the original text never changes |
| EnhancedTextExtractor.EnhancedShowsMergedText | src/main/java/E_Reader/core/EnhancedTextExtractor.java:205-228 | after a recognised formula the page's best text is the merged text, which still begins with the old best text when that was not blank |
| EnhancedTextExtractor.PageStep | src/main/java/E_Reader/core/EnhancedTextExtractor.java:131-142 | a page is enhanced exactly when the mode selects it for detection; otherwise it is unchanged |
| EnhancedTextExtractor.PageStepChangesOnlyWithFormula | src/main/java/E_Reader/core/EnhancedTextExtractor.java:131-142 | a page changes only when detection is on and the recogniser returned a formula; nothing changes when disabled |
| EnhancedTextExtractor.LatexOrEmpty | src/main/java/E_Reader/core/EnhancedTextExtractor.java:254-255 | a successful result with a code yields that code; anything else the empty string |
| EnhancedTextExtractor.EnhancedTextExtractor.constructor | src/main/java/E_Reader/core/EnhancedTextExtractor.java:50-86 | LaTeX recognition is enabled exactly when the recogniser initialises, and the mode starts as AUTO |
| EnhancedTextExtractor.EnhancedTextExtractor.ReinitializeLatexOcr | src/main/java/E_Reader/core/EnhancedTextExtractor.java:340-344 | the recogniser is initialised again and the new enabled flag is returned; the mode is kept |
| EnhancedTextExtractor.EnhancedTextExtractor.SetLatexDetectionMode | src/main/java/E_Reader/core/EnhancedTextExtractor.java:332-335 | the mode is set and nothing else changes |
| EnhancedTextExtractor.EnhancedTextExtractor.IsLatexOcrAvailable | src/main/java/E_Reader/core/EnhancedTextExtractor.java:318-320 | available exactly when enabled and the recogniser reports itself available |
| EnhancedTextExtractor.EnhancedTextExtractor.ShouldDetectLatex | src/main/java/E_Reader/core/EnhancedTextExtractor.java:184-196 | the page's detection decision is that of its mode and text |
| EnhancedTextExtractor.EnhancedTextExtractor.EnhancePageWithLatex | src/main/java/E_Reader/core/EnhancedTextExtractor.java:201-241 | the page's text fields become the enhanced state for the recogniser's result; its number is kept |
| EnhancedTextExtractor.EnhancedTextExtractor.EnhancePages | src/main/java/E_Reader/core/EnhancedTextExtractor.java:121-149 | the first pages, up to the rendered count, each take one detection step with their result; the rest are unchanged |
| EnhancedTextExtractor.EnhancedTextExtractor.ExtractTextFromPdf | src/main/java/E_Reader/core/EnhancedTextExtractor.java:91-101 | with recognition enabled and not disabled, each page up to the document's page count takes a detection step; otherwise, or when the PDF cannot be read, every page is unchanged |
| EnhancedTextExtractor.EnhancedTextExtractor.ExtractTextFromImages | src/main/java/E_Reader/core/EnhancedTextExtractor.java:106-179 | with recognition enabled and not disabled, each page up to the image count takes a detection step; otherwise every page is unchanged |
| EnhancedTextExtractor.EnhancedTextExtractor.ExtractLatexFromImage | src/main/java/E_Reader/core/EnhancedTextExtractor.java:246-264 | empty when unavailable or without an image; otherwise the recognised code or the empty string |
| EnhancedTextExtractor.EnhancedTextExtractor.ExtractLatexFromImages | src/main/java/E_Reader/core/EnhancedTextExtractor.java:292-313 | empty when unavailable or without images; otherwise one string per recogniser result, the code or the empty string |
| TextExtractor.BestTextOf | src/main/java/E_Reader/core/TextExtractor.java:296-306 | the best text is one of the two texts; NATIVE prefers the original and OCR or MIXED the OCR text, each falling back to the other when it is empty; empty only when both are |
| TextExtractor.ChineseChapterIff | src/main/java/E_Reader/core/TextExtractor.java:30 | the Chinese alternative holds exactly for "第", one or more numerals, then one of 章節回部 |
| TextExtractor.NumberedWordIff | src/main/java/E_Reader/core/TextExtractor.java:30 | the English alternative holds exactly for the word, one or more whitespace characters, then a digit |
| TextExtractor.ChineseChapterExample | src/main/java/E_Reader/core/TextExtractor.java:400-403 | "  第十二章 歸來" is a chapter header once trimmed |
| TextExtractor.EnglishChapterExample | src/main/java/E_Reader/core/TextExtractor.java:400-403 | "Chapter 3" is a chapter header |
| TextExtractor.SpelledOutChapterExample | src/main/java/E_Reader/core/TextExtractor.java:30 | "Chapter three" is not a chapter header |
| TextExtractor.MissingNumeralExample | src/main/java/E_Reader/core/TextExtractor.java:30 | "第章" is not a chapter header |
| TextExtractor.CleanLineContent | src/main/java/E_Reader/core/TextExtractor.java:379-392 | a null line gives the empty string; the result has no vertical bar, its only whitespace character is the space, and every other character comes from the line |
| TextExtractor.CleanLineContentKeepsDoubleSpace | src/main/java/E_Reader/core/TextExtractor.java:386-389 | "a", space, bar, space, "b" cleans to "a  b": the bar is removed after the spaces are collapsed, so the two spaces around it remain |
| TextExtractor.WithSeparator | src/main/java/E_Reader/core/TextExtractor.java:338-348 | a separator is added to a non-empty list whose last entry is not already empty; the empty list stays empty |
| TextExtractor.DropLeadingEmpty | src/main/java/E_Reader/core/TextExtractor.java:363-365 | the leading empty entries are dropped and nothing else: the result is a suffix not starting with an empty entry |
| TextExtractor.WithSeparatorWellSeparated | src/main/java/E_Reader/core/TextExtractor.java:338-348 | adding a separator keeps the list free of leading and adjacent empty entries |
| TextExtractor.AppendTextWellSeparated | src/main/java/E_Reader/core/TextExtractor.java:347-358 | appending a non-empty line, or a header after a separator followed by an empty entry, keeps the list well separated |
| TextExtractor.AddDisplayLineWellSeparated | src/main/java/E_Reader/core/TextExtractor.java:333-360 | each source line keeps the list well separated |
| TextExtractor.DisplayLinesWellSeparated | src/main/java/E_Reader/core/TextExtractor.java:331-360 | the lines built from any text never start with an empty entry and never hold two empty entries in a row |
| TextExtractor.FormattedLinesShape | src/main/java/E_Reader/core/TextExtractor.java:327-371 | the formatted lines neither start nor end with an empty entry and hold no two empty entries in a row; the leading trim loop has nothing left to remove |
| TextExtractor.ChapterHeaderSeparated | src/main/java/E_Reader/core/TextExtractor.java:345-352 | a chapter header is appended after a separator (unless it is first) and followed by an empty entry |
| TextExtractor.BlankLineSeparates | src/main/java/E_Reader/core/TextExtractor.java:337-341 | a blank line adds at most one empty separator |
| TextExtractor.AddDisplayLineCases | src/main/java/E_Reader/core/TextExtractor.java:333-360 | a blank line adds a separator, a header a separator, itself and an empty entry, any other line its cleaned form when that is not empty |
| TextExtractor.FormatTextWithOriginalLineBreaks | src/main/java/E_Reader/core/TextExtractor.java:327-371 | the method's lines are the display lines of the text split at "\n", with leading and trailing empty entries removed |
| TextExtractor.PageText.constructor | src/main/java/E_Reader/core/TextExtractor.java:265-270 | a new page has number 0, empty texts and no source |
| TextExtractor.PageText.SetPageNumber | src/main/java/E_Reader/core/TextExtractor.java:273 | the number is set and nothing else changes |
| TextExtractor.PageText.SetOriginalText | src/main/java/E_Reader/core/TextExtractor.java:276-278 | the original text is set, a null becoming the empty string |
| TextExtractor.PageText.SetOcrText | src/main/java/E_Reader/core/TextExtractor.java:281-283 | the OCR text is set, a null becoming the empty string |
| TextExtractor.PageText.SetTextSource | src/main/java/E_Reader/core/TextExtractor.java:286 | the source is set and nothing else changes |
| TextExtractor.PageText.GetFormattedParagraphs | src/main/java/E_Reader/core/TextExtractor.java:313-319 | the paragraphs are the formatted lines of the best text, none when it is empty |
| TextExtractor.CleanOcrText | src/main/java/E_Reader/core/TextExtractor.java:207-226 | a null or blank text gives the empty string; the result is trimmed and holds no vertical bar, no "0" and no "丨" |
| TextExtractor.CleanExtractedText | src/main/java/E_Reader/core/TextExtractor.java:234-251 | a null or blank text gives the empty string; the result is trimmed, holds no carriage return or tab and no two spaces in a row |
| LegacyTextExtractor.BestTextOf | src/main/java/E_Reader/TextExtractor.java:169-178 | OCR prefers the recognised text and every other source the native text, each falling back to the other when empty; empty only when both are |
| LegacyTextExtractor.Runs | src/main/java/E_Reader/TextExtractor.java:193-210 | a list of trimmed lines ending in a non-empty line has at least one run |
| LegacyTextExtractor.JoinRuns | src/main/java/E_Reader/TextExtractor.java:196-209 | one paragraph per run, each the run's lines joined by single spaces |
| LegacyTextExtractor.AppendRunWellFormed | src/main/java/E_Reader/TextExtractor.java:200-204 | opening a new run with a non-empty line keeps every run and every line in it non-empty, and adds that line to the flattened lines |
| LegacyTextExtractor.ExtendRunWellFormed | src/main/java/E_Reader/TextExtractor.java:201-204 | extending the last run with a non-empty line keeps the runs well formed and adds that line to the flattened lines |
| LegacyTextExtractor.RunsShape | src/main/java/E_Reader/TextExtractor.java:193-210 | the runs are well formed, their lines in order are exactly the non-empty lines, and there is one run per line that starts one |
| LegacyTextExtractor.ParagraphsTrimmed | src/main/java/E_Reader/TextExtractor.java:183-213 | every paragraph is non-empty and trimmed, and there are no more paragraphs than non-blank lines |
| LegacyTextExtractor.RunTextsTrimmed | src/main/java/E_Reader/TextExtractor.java:196-209 | a run of trimmed lines joins to a non-empty trimmed paragraph |
| LegacyTextExtractor.LoopBlank | src/main/java/E_Reader/TextExtractor.java:195-199 | a blank line closes the open paragraph, if any, and the loop state still describes the lines read so far |
| LegacyTextExtractor.LoopLine | src/main/java/E_Reader/TextExtractor.java:200-205 | a non-blank line extends the open paragraph, after one space when it is not empty, and the loop state still holds |
| LegacyTextExtractor.LoopFinish | src/main/java/E_Reader/TextExtractor.java:208-212 | after the last line the closed paragraphs, plus the open one when not empty, are the joined runs of all lines |
| LegacyTextExtractor.PageText.constructor | src/main/java/E_Reader/TextExtractor.java:144-147 | a new page has number 0, empty texts and the given source |
| LegacyTextExtractor.PageText.SetOriginalText | src/main/java/E_Reader/TextExtractor.java:155 | the original text is set and nothing else changes |
| LegacyTextExtractor.PageText.SetOcrText | src/main/java/E_Reader/TextExtractor.java:158 | the OCR text is set and nothing else changes |
| LegacyTextExtractor.PageText.SetTextSource | src/main/java/E_Reader/TextExtractor.java:161 | the source is set and nothing else changes |
| LegacyTextExtractor.PageText.GetFormattedParagraphs | src/main/java/E_Reader/TextExtractor.java:183-213 | the paragraphs are the maximal runs of non-blank trimmed lines of the best text, each joined by single spaces; none when the text is empty |
| FormatPreservingTextProcessor.AnalyzeIndentation | src/main/java/E_Reader/core/FormatPreservingTextProcessor.java:155-190 | indent plus content is the line; a leading run of U+3000 is the indent at one level per character; a leading run of spaces and tabs is the indent and only its tabs count, since adding 0.25 to an int truncates back; a line with a line terminator, or with no such lead, has no indent |
| FormatPreservingTextProcessor.IndentLevel | src/main/java/E_Reader/core/FormatPreservingTextProcessor.java:176-185 | the level of a space-and-tab indent counts its tabs: each space adds 0.25 to an int, which truncates it away |
| FormatPreservingTextProcessor.NumberedLineIsHeader | src/main/java/E_Reader/core/FormatPreservingTextProcessor.java:200-208 | a single-line numbered item such as "1. x" is already a HEADER, since the header test runs first |
| FormatPreservingTextProcessor.NumberedListNeedsLineTerminator | src/main/java/E_Reader/core/FormatPreservingTextProcessor.java:195-221 | NUMBERED_LIST is returned only for content holding a line terminator |
| FormatPreservingTextProcessor.NumberedListWithCarriageReturn | src/main/java/E_Reader/core/FormatPreservingTextProcessor.java:206-207 | "1." followed by a carriage return is a NUMBERED_LIST |
| FormatPreservingTextProcessor.BulletListIff | src/main/java/E_Reader/core/FormatPreservingTextProcessor.java:210-213 | with the six listed bullet symbols, a single line is a BULLET_LIST exactly when it starts with one of them |
| FormatPreservingTextProcessor.BulletRangeAsWritten | src/main/java/E_Reader/core/FormatPreservingTextProcessor.java:31 | as written "- a" is NORMAL and "été" a BULLET_LIST, because the class holds the range U+00B7 to U+2027; with the six listed symbols it is the other way round |
| FormatPreservingTextProcessor.BlankIsEmpty | src/main/java/E_Reader/core/FormatPreservingTextProcessor.java:196-198 | a line is EMPTY exactly when its content is blank |
| FormatPreservingTextProcessor.SpaceLoopStep | src/main/java/E_Reader/core/FormatPreservingTextProcessor.java:242-253 | each match of two or more spaces appends the text before it, if any, and the whole space run, and the segments still spell the content read so far |
| FormatPreservingTextProcessor.SpaceLoopFinish | src/main/java/E_Reader/core/FormatPreservingTextProcessor.java:256-265 | after the last match the rest, if any, closes the segmentation, which spells the whole content |
| FormatPreservingTextProcessor.SplitSpaceRuns | src/main/java/E_Reader/core/FormatPreservingTextProcessor.java:239-267 | the segments spell the content and alternate between text without a double space and maximal runs of two or more spaces |
| FormatPreservingTextProcessor.ExpandTabs | src/main/java/E_Reader/core/FormatPreservingTextProcessor.java:277 | every tab becomes four spaces: no tab is left, the length grows by three per tab, no other character is added, and text without tabs is unchanged |
| FormatPreservingTextProcessor.AlignedSpaceStep | src/main/java/E_Reader/core/FormatPreservingTextProcessor.java:285-291 | a space closes the text buffer and joins the space buffer, keeping the loop state |
| FormatPreservingTextProcessor.AlignedTextStep | src/main/java/E_Reader/core/FormatPreservingTextProcessor.java:292-303 | any other character closes the space buffer as a single or multiple space segment and joins the text buffer |
| FormatPreservingTextProcessor.AlignedLoopFinish | src/main/java/E_Reader/core/FormatPreservingTextProcessor.java:306-316 | the remaining text and space buffers close the segmentation, which spells the whole expanded content |
| FormatPreservingTextProcessor.ProcessAlignedText | src/main/java/E_Reader/core/FormatPreservingTextProcessor.java:273-319 | the segments spell the content with tabs expanded, alternate strictly between text without spaces and space runs, and a run is SINGLE_SPACE exactly when it is one space |
| FormatPreservingTextProcessor.ProcessContentSpaces | src/main/java/E_Reader/core/FormatPreservingTextProcessor.java:226-268 | empty content has no segments; aligned text is segmented with tabs expanded; any other content by its runs of two or more spaces |
| FormatPreservingTextProcessor.ProcessLine | src/main/java/E_Reader/core/FormatPreservingTextProcessor.java:71-87 | a null line gives the empty NORMAL line; otherwise the original text is kept, indent and content split the line, the type is that of the content, and the segments spell it |
| FormatPreservingTextProcessor.ProcessLines | src/main/java/E_Reader/core/FormatPreservingTextProcessor.java:118-130 | one formatted line per input line, in order, each the formatting of its line |
| FormatPreservingTextProcessor.ProcessPageText | src/main/java/E_Reader/core/FormatPreservingTextProcessor.java:135-150 | no lines for a null page or empty text; otherwise one formatted line per "\n"-separated piece, empty ones included, whose original texts joined by "\n" give the page text back |
| FormatPreservingTextProcessor.SplitLines | src/main/java/E_Reader/core/FormatPreservingTextProcessor.java:93 | no piece holds a line feed, and text without a line feed is its own only piece |
| FormatPreservingTextProcessor.ParagraphGroupsShape | src/main/java/E_Reader/core/FormatPreservingTextProcessor.java:95-107 | the groups are non-empty, hold only non-blank lines, each after the first opens with an indented line and holds no other, and together they are the non-blank lines in order |
| FormatPreservingTextProcessor.ParagraphsTrimmed | src/main/java/E_Reader/core/FormatPreservingTextProcessor.java:89-114 | every paragraph is non-empty and trimmed |
| FormatPreservingTextProcessor.ParagraphsKeepText | src/main/java/E_Reader/core/FormatPreservingTextProcessor.java:89-114 | there are paragraphs exactly when there is a non-blank line, and joined by spaces they equal the trimmed non-blank lines joined by spaces |
| FormatPreservingTextProcessor.ParagraphLoopBlank | src/main/java/E_Reader/core/FormatPreservingTextProcessor.java:96 | a blank line is skipped and the loop state holds |
| FormatPreservingTextProcessor.ParagraphLoopFlush | src/main/java/E_Reader/core/FormatPreservingTextProcessor.java:99-106 | an indented line closes the open paragraph and starts the next one |
| FormatPreservingTextProcessor.ParagraphLoopAppend | src/main/java/E_Reader/core/FormatPreservingTextProcessor.java:106 | any other non-blank line, or an indented one with nothing open, joins the open paragraph followed by a space |
| FormatPreservingTextProcessor.ParagraphLoopFinish | src/main/java/E_Reader/core/FormatPreservingTextProcessor.java:109-111 | after the last line the closed paragraphs, plus the open one trimmed, are the paragraphs of all lines |
| FormatPreservingTextProcessor.SplitIntoParagraphs | src/main/java/E_Reader/core/FormatPreservingTextProcessor.java:89-114 | the method returns exactly the paragraphs of the text |
| EpubLoader.DecodeHtmlEntities | src/main/java/E_Reader/core/EpubLoader.java:428-445 | a null text decodes to the empty string |
| EpubLoader.DecodeShrinks | src/main/java/E_Reader/core/EpubLoader.java:428-445 | decoding never lengthens the text |
| EpubLoader.DecodeWithoutAmpersand | src/main/java/E_Reader/core/EpubLoader.java:428-445 | a text without "&" is left as it is |
| EpubLoader.DecodeIsSinglePass | src/main/java/E_Reader/core/EpubLoader.java:431-433 | "&amp;lt;" decodes to "&lt;": "&amp;" is undone after "&lt;", so the result is not decoded again |
| EpubLoader.ReplaceTags | src/main/java/E_Reader/core/EpubLoader.java:388-392 | a tag rewrite only keeps characters of the text or of the replacement |
| EpubLoader.ReplaceTagsNoAngle | src/main/java/E_Reader/core/EpubLoader.java:388-392 | a text without "<" is unchanged by every tag rewrite |
| EpubLoader.CleanHtmlTags | src/main/java/E_Reader/core/EpubLoader.java:384-398 | a null text cleans to the empty string |
| EpubLoader.StripTags | src/main/java/E_Reader/core/EpubLoader.java:392 | removing the tags adds no character |
| EpubLoader.StripTagsNoTag | src/main/java/E_Reader/core/EpubLoader.java:46 | after the tag pattern is applied no tag is left |
| EpubLoader.EscapedTagSurvives | src/main/java/E_Reader/core/EpubLoader.java:384-398 | "&lt;b&gt;" cleans to "<b>": entities are decoded after the tags are removed, so an escaped tag comes back as a tag |
| EpubLoader.CleanWhitespace | src/main/java/E_Reader/core/EpubLoader.java:406-420 | a null text gives the empty string; the result has no line feed, its only whitespace character is the space, no two whitespace characters are adjacent and it neither starts nor ends with whitespace |
| EpubLoader.FirstClose | src/main/java/E_Reader/core/EpubLoader.java:48-49 | the first closing tag of the element at or after the position, none when there is none |
| EpubLoader.ElementAt | src/main/java/E_Reader/core/EpubLoader.java:48-49 | an element starting at a position: its opening tag is there, its content begins after the first ">" and ends at the first matching closing tag |
| EpubLoader.FindElement | src/main/java/E_Reader/core/EpubLoader.java:48-49 | the element found lies inside the text after the start position |
| EpubLoader.FindElementIsLeftmost | src/main/java/E_Reader/core/EpubLoader.java:48-49 | find returns the element at the leftmost position where one starts, none when none does |
| EpubLoader.PreOpensParagraph | src/main/java/E_Reader/core/EpubLoader.java:48 | "<pre>x</p>" counts as a paragraph with content "x", because "<p[^>]*>" also matches "<pre>" |
| EpubLoader.CleanParagraph | src/main/java/E_Reader/core/EpubLoader.java:350-354 | a cleaned paragraph is trimmed and holds no line feed |
| EpubLoader.CleanAll | src/main/java/E_Reader/core/EpubLoader.java:349-356 | one cleaned paragraph per paragraph, in order |
| EpubLoader.KeptParagraphsShape | src/main/java/E_Reader/core/EpubLoader.java:349-356 | every kept paragraph is non-empty, trimmed and a single line |
| EpubLoader.Terminated | src/main/java/E_Reader/core/EpubLoader.java:354 | the terminated text is empty exactly when there is no kept paragraph |
| EpubLoader.ExtractedText | src/main/java/E_Reader/core/EpubLoader.java:344-376 | the extracted text is trimmed |
| EpubLoader.ExtractedParagraphsSingleLine | src/main/java/E_Reader/core/EpubLoader.java:344-376 | every kept paragraph is a non-empty single line, and without paragraphs the text holds no line feed |
| EpubLoader.ExtractAndCleanText | src/main/java/E_Reader/core/EpubLoader.java:344-376 | the method returns the extracted text: the kept paragraphs separated by blank lines, or else the cleaned body, or else the cleaned document |
| EpubLoader.CollectParagraphs | src/main/java/E_Reader/core/EpubLoader.java:348-356 | the paragraph loop builds each kept paragraph followed by a blank line, in document order |
| EpubLoader.ParagraphStep | src/main/java/E_Reader/core/EpubLoader.java:349-356 | one round consumes the next paragraph and appends its cleaned text and a blank line when it is not empty |
| EpubLoader.ExtractChapterTitle | src/main/java/E_Reader/core/EpubLoader.java:320-336 | the cleaned, trimmed content of the first heading; else of the title element; empty when there is neither |
| EpubLoader.ChapterOf | src/main/java/E_Reader/core/EpubLoader.java:299-312 | the chapter has its id, the extracted text as content, and a non-empty title: the extracted one, or "第 id 章" when that is empty |
| EpubLoader.ParseChapter | src/main/java/E_Reader/core/EpubLoader.java:299-312 | the method builds exactly that chapter |
| EpubLoader.UntitledChapterGetsDefault | src/main/java/E_Reader/core/EpubLoader.java:304-305 | a document without heading and title element gets the default title |
| EpubLoader.GetCleanText | src/main/java/E_Reader/core/EpubLoader.java:648-658 | no content gives the empty string; a non-empty title is followed by a blank line and the content; otherwise the content alone |
| EpubLoader.CleanTextFrames | src/main/java/E_Reader/core/EpubLoader.java:652-655 | with a title the clean text starts with the title and a blank line, ends with the content and is exactly as long as the three together |
| EpubLoader.BasePathOf | src/main/java/E_Reader/core/EpubLoader.java:229-233 | the base path is the OPF path up to and including its last "/" when that is not at position 0; otherwise empty |
| EpubLoader.ManifestLookup | src/main/java/E_Reader/core/EpubLoader.java:244-251 | an id is in the manifest map exactly when some item has it, and then maps to the base path plus the href of the last such item |
| EpubLoader.EpubStructure.constructor | src/main/java/E_Reader/core/EpubLoader.java:591-595 | a new structure has no paths, no spine items and an empty manifest |
| EpubLoader.EpubStructure.SetOpfPath | src/main/java/E_Reader/core/EpubLoader.java:598 | the OPF path is set and nothing else changes |
| EpubLoader.EpubStructure.SetBasePath | src/main/java/E_Reader/core/EpubLoader.java:601 | the base path is set and nothing else changes |
| EpubLoader.EpubStructure.AddSpineItem | src/main/java/E_Reader/core/EpubLoader.java:604 | the id is appended to the spine and nothing else changes |
| EpubLoader.EpubStructure.AddManifestItem | src/main/java/E_Reader/core/EpubLoader.java:607-609 | the id maps to the href, replacing any earlier entry; the media type is dropped |
| EpubLoader.ParseEpubStructure | src/main/java/E_Reader/core/EpubLoader.java:194-255 | the three errors in order (no container.xml, no rootfile, no OPF entry), and success exactly when none applies, with the OPF path, its base path, the spine ids and the manifest map |
| EpubLoader.ChapterForSingle | src/main/java/E_Reader/core/EpubLoader.java:268-286 | a spine id without a manifest entry or archive entry adds nothing; a readable entry adds its parsed chapter; an unreadable one the error chapter |
| EpubLoader.ChaptersForAppend | src/main/java/E_Reader/core/EpubLoader.java:268-287 | the chapters of two spine parts are the chapters of the first followed by those of the second |
| EpubLoader.ExtractChapters | src/main/java/E_Reader/core/EpubLoader.java:265-290 | the method returns one chapter per spine id whose manifest entry and file are present, in spine order, an unreadable file giving the error chapter |
| TextLoader.CharsPerPage | src/main/java/E_Reader/core/TextLoader.java:117-128 | with the 800 by 1000 page, 50 margin, 16 pt font and 20 spacing a page holds 87 characters per line times 25 lines, 2175 in all |
| TextLoader.ChunkEnd | src/main/java/E_Reader/core/TextLoader.java:84-96 | a chunk ends at the end of the content when the budget reaches it; otherwise just after the last full stop "。" or line feed at a position after the start up to and including the budget, or at the budget when there is none; so a chunk is at most one character past the budget, exactly when a break sits at the budget |
| TextLoader.RawChunks | src/main/java/E_Reader/core/TextLoader.java:84-104 | every chunk is non-empty and at most one character longer than the page budget |
| TextLoader.RawChunksTile | src/main/java/E_Reader/core/TextLoader.java:84-104 | the chunks concatenated are the content: nothing is lost or repeated |
| TextLoader.ChunkMayExceedBudget | src/main/java/E_Reader/core/TextLoader.java:89-94 | with a budget of 2 the first chunk of "ab", a line feed, "c" is three characters long, since "lastIndexOf" looks one past the budget |
| TextLoader.PagesTrimmed | src/main/java/E_Reader/core/TextLoader.java:98-101 | every page kept is non-empty and trimmed |
| TextLoader.PagesEmptyIffBlank | src/main/java/E_Reader/core/TextLoader.java:98-109 | no page survives exactly when the content is blank |
| TextLoader.SplitPages | src/main/java/E_Reader/core/TextLoader.java:76-112 | at least one page; blank content gives the single "檔案為空或無法讀取" page; otherwise the trimmed non-empty chunks, each non-empty and trimmed |
| TextLoader.SplitIntoPages | src/main/java/E_Reader/core/TextLoader.java:76-112 | the method returns exactly those pages |
| TextLoader.WrapLines | src/main/java/E_Reader/core/TextLoader.java:192-195 | empty text wraps to a single empty line |
| TextLoader.WrapWordsFit | src/main/java/E_Reader/core/TextLoader.java:200-215 | every finished line is non-empty and fits the width unless it is a single word; so does the open line |
| TextLoader.WrapLinesFit | src/main/java/E_Reader/core/TextLoader.java:189-222 | for non-empty text every line is non-empty and fits the width unless it is a single word |
| TextLoader.WrapWordsKeepsWords | src/main/java/E_Reader/core/TextLoader.java:200-219 | joined by spaces, the lines are the words joined by spaces: wrapping keeps every word, in order |
| TextLoader.WrapText | src/main/java/E_Reader/core/TextLoader.java:189-222 | the method returns exactly the wrapped lines |

The specification functions and predicates below have no row of their own. Each is stated by the rows named after it.

- FileManagerController `IsImageExtension`, `IsSupportedByEReader` and `IsValidFileType` (FileManagerController.java:1992-1997, 1895-1901 and 1488-1504): `FileIcon`, `IconMissesTwoImageFormats`, `SupportedExactly`, `ValidTypeMatchesExtension`, `ImagesMatchExtension` and `HiddenPdfPassesFilter`.
- SettingsManager `ShouldEnableNightMode`, `SettingsManager.ShouldEnableNightModeAt` and `SettingsManager.GetCurrentTheme` (SettingsManager.java:175-203): `NightWindowWraps`, `NightWindowEmpty`, `CurrentTheme`, `NightOnShowsBlack` and `EyeCareOnShowsEyeCare`.
- `StateManager.CanSwitchToTextMode` (StateManager.java:185-187): it is `HasLoadedContent`, stated by that row.
- ImageViewer `PageLabel`, `HasImages`, `CanGoNext` and `CanGoPrevious` (ImageViewer.java:151-167 and 255-265): `PageLabelInjective`, `PageLabelOfLoaded`, `GetTotalPages`, `NextPage` and `PrevPage`.
- MainController `ReadingTimeText` and `PageLabel` (MainController.java:923-931 and 585-597): `ReadingTimeTextOfZero`, `ClockTextInjective`, `ReadingTimeTextIffSameSecond`, `PageLabelNamesCase` and `PageLabelReadsBack`.
- FormatPreservingTextProcessor `AnalyzeLineTypeAsWritten` and `AnalyzeLineType` (FormatPreservingTextProcessor.java:195-221): `NumberedLineIsHeader`, `NumberedListNeedsLineTerminator`, `BulletListIff`, `BulletRangeAsWritten` and `BlankIsEmpty`.
- `TextExtractor.IsChapterHeader` (TextExtractor.java:400-403): `ChineseChapterIff`, `NumberedWordIff` and the four chapter examples.
- `TextRenderer.IsChapterHeader` (viewer/TextRenderer.java:453-475): `NumberedLineIff`, `ChineseChapterHeaderExample` and `TwoLineChapterIsNoHeader`.
- `NoteManager.SearchBook` (NoteManager.java:282-307): `SearchBookExactly`.
- `FileManagerData.PicksFreeName` (FileManagerData.java:269-287 and 346-364): `FreeName`, `PicksFreeNameUnique`, `ImportFile` and `MoveFile`.
- EpubLoader `ManifestMap` and `ChaptersFor` (EpubLoader.java:244-251 and 265-290): `ManifestLookup`, `ChapterForSingle`, `ChaptersForAppend` and `ExtractChapters`.
- TextLoader `Pages` and `WrapWords` (TextLoader.java:98-109 and 200-219): `PagesTrimmed`, `PagesEmptyIffBlank`, `SplitPages`, `WrapWordsFit` and `WrapWordsKeepsWords`.
- The FileManagerConfig getters `IsEnabled`, `GetCount`, `GetSize`, `GetLibraryRootPath` and `GetDefaultSortMethod` (FileManagerConfig.java:146-318): `ReadFlag`, `ReadCount`, `ReadSize`, `ReadLibraryRoot` and `ReadSortMethod`, and the setter rows, whose getters read back the value set.
- FileManagerConfig `Signature`, `SettingWith`, `SettingWithSignature`, `SettingOf` and `SettingOfKey` are proof helpers. They give the key lookup a cheap form, and `KeyInjective` and `DefaultKeysAreSettingKeys` state what they establish.

## Left out

- Rendering, styling and layout: fonts, colours, margins, CSS, themes applied to nodes, opacity and animation timing, dialogs, alerts and notifications. None of these has state the model reads.
- Threads, `Platform.runLater`, timelines and timers: concurrency and scheduling are not modelled; each handler runs as one atomic step.
- PDF rendering, Tesseract OCR, the LaTeX recogniser process, ZIP and DOM reading, and `ImageIO`. The recogniser is a parameter result, the EPUB archive a map from entry names to contents or errors, and the parsed container and package documents are given lists.
- EpubLoader `loadEpubContent`, `loadImagesFromEpub`, `isValidEpubFile` and `renderChapterToImage`: file I/O and image rendering.
- TextLoader `readTextFile`, `createPageImage` and `drawText`: file I/O and canvas drawing.
- TextExtractor `extractTextFromPdf`, OCR of images, and `testLatexOCR`: these depend on PDFBox and Tesseract.
- `EnhancedTextExtractor(SettingsManager)` calls a superclass constructor that the shown sources do not define, and `getOcrStatus` likewise. Only the members defined in the shown code are modelled.
- Status and log strings, `System.out` output and exception messages.
- Getters and setters that only read or write one field, and the specification functions and predicates listed at the end of "## Model", have no row of their own: their meaning is stated by the lemma or method rows named there.
- Doubles (zoom level, line spacing, click coordinates, widths) are modelled as exact `real`s; rounding is not modelled.
- Progress ratios and file sizes formatted as KB/MB/GB: floating-point formatting.
- `toLowerCase` and `equalsIgnoreCase` are modelled for ASCII letters only; other scripts have no case mapping in the model.
- FileManagerConfig `getInstance` (a singleton), `configFileExists` and `getConfigFilePath` (filesystem), `printAllConfig` (console output) and `getRawConfig` (it exposes the mutable table) are not modelled.
- FileManagerConfig `setDefaultSortMethod(null)` throws in Java, because `Properties` rejects null values, and the model takes a string. EnhancedTextExtractor `setLatexDetectionMode(null)` throws when it prints the mode's display name, and the model takes a mode.
- TextRenderer `addHighlightedText` with a null search term throws in Java; the model takes a string.
- Java `long` overflow in `updateReadingTime` is not modelled; times are unbounded integers.
- MainController `toggleNavigationBar` only delegates to `NavigationBarController.toggleNavigationBar` and then sets button text and styles. The delegate is modelled; the button text is not.
- MainController `handleImageClick` is installed at one point and then replaced by the double-click handler (MainController.java lines 191 and 212). The model keeps the click-zone rule as `HandleImageClick` and does not model which handler is active.
- The legacy `TextRenderer` `isChapterHeader` and `addHighlightedText` are the same as the viewer's. The legacy module reuses the viewer's definitions, and the lemma `LegacyTextRenderer.FormatPageAgreesWithViewer` ties the two together.
- NUMBERED_LIST is returned only for content that keeps a line terminator such as `"1.\r"`. Every other numbered prefix is classified as HEADER first, which the lemmas in `FormatPreservingTextProcessor` state.
- EnhancedTextExtractor.DetectsLatex: requires a text source in AUTO mode, because `getBestText` on a page whose source is null throws in Java.
- LegacyTextExtractor.PageText.constructor: takes the text source as a parameter, where the Java field starts as null and is set before use.
- EpubLoader.EpubStructure.constructor: starts `opfPath` and `basePath` as the empty string, where the Java fields start as null.
- EpubLoader.EpubStructure.AddManifestItem: drops the media type, which no reader of the structure consults.
- NoteManager, BookmarkManager and SettingsManager persistence (JSON or properties files): the model reads and writes abstract maps.
- EnhancedTextExtractor.EnhancedTextExtractor.EnhancePages: requires the listed pages to be distinct objects. Java makes no such demand; a list holding the same `PageText` twice would have it enhanced twice, which the model does not cover.
- FormatPreservingTextProcessor.ProcessLine: classifies the content with the corrected bullet test `AnalyzeLineType` (the six listed symbols), not the range class of FormatPreservingTextProcessor.java:31 that `AnalyzeLineTypeAsWritten` models. The two differ exactly where `BulletRangeAsWritten` and `BulletListIff` differ: `"- a"` is a bullet line here and NORMAL in Java, `"été"` NORMAL here and a bullet line in Java, and `"été    x"` aligned text here and a bullet line in Java.
- FormatPreservingTextProcessor.ProcessLines: inherits the corrected bullet test of `ProcessLine`.
- FormatPreservingTextProcessor.ProcessPageText: inherits the corrected bullet test of `ProcessLine`.
- FileManagerData.FileManagerData.DeleteFolder: the directory walk of each recursive call for a child is taken to succeed. In Java a failing child walk makes only that child's call return false, leaving the child's subtree recorded; this is not modelled.
- FileManagerData.FileManagerData.ImportFile: an `IOException` from `Files.copy` or `Files.size` propagates out of `importFile`; the model reports it as `ok == false`, and no exception value is modelled.
- SettingsManager and SettingsPanel: `String.valueOf(double)` and `Double.parseDouble` are an abstract `DoubleText` whose set `values` stands for the finite doubles. Only its doubles read back exactly, so the round trips for the zoom level are stated for zoom values in that set; `NaN` and the infinities are not modelled.
- TextExtractor.PageText.BestText: requires a text source, because `getBestText` switches on a null source and throws in Java.
- TextExtractor.PageText.GetFormattedParagraphs: requires a text source, for the same reason.
- TextRenderer.TextRenderer.NextPage: requires formatted pages, because `nextPage` calls `formattedPages.size()` and throws on null in Java.
- LegacyTextRenderer.TextRenderer.NextPage: requires formatted pages, for the same reason.
- StateManager.StateManager.HasLoadedContent: requires a path, because `isEmpty()` on a null path throws in Java; `CanSwitchToTextMode` and `IsFileLoaded` inherit the requirement.
- NoteManager.NoteManager.AddHighlight: takes one clock reading `now` for the new book's creation stamp (when the book is new), the highlight's creation time and the book's modification stamp, where Java calls `LocalDateTime.now()` separately for each (NoteManager.java lines 39, 69 and 123); the time that passes between those calls is not modelled, so the model makes them equal.
- NoteManager.NoteManager.AddNote: takes one clock reading `now` for the new book's creation stamp (when the book is new), the note's creation and modification times and the book's modification stamp, where Java calls `LocalDateTime.now()` separately for each (NoteManager.java lines 39, 98, 99 and 134); the model makes them equal.
- NoteManager.NoteManager.UpdateNote: takes one clock reading `now` for the note's modification time and the book's modification stamp, where Java calls `LocalDateTime.now()` in `setContent` and again for the book (NoteManager.java lines 110 and 218); the model makes them equal.
- StateManager.StateManager.ClearCurrentFile: takes one clock reading `now` for both the banked session and the new start, where Java calls `System.currentTimeMillis` twice; the milliseconds between the two calls are not modelled.
- LegacyTextExtractor.PageText.SetOriginalText: takes a string, where Java also accepts null and stores it as null.
- LegacyTextExtractor.PageText.SetOcrText: takes a string, for the same reason.
- Java `String.length()`, `charAt` and `compareTo` count UTF-16 code units, and the model's strings are sequences of Unicode characters. For text outside the Basic Multilingual Plane this shifts the 100- and 50-character chapter-header limits, the TextLoader page budget and the name order `FileManagerData.NameLe`, which compares characters rather than code units.
- JavaText.ParseInt: accepts ASCII digits only, where `Integer.parseInt` also accepts other Unicode decimal digits.

## Findings

| source | as written | input that shows it | evidently intended | confidence | as-written member | corrected member |
|---|---|---|---|---|---|---|
| src/main/java/E_Reader/core/FormatPreservingTextProcessor.java:31 | The bullet class `[•·-‧○●]` contains `·-‧`, which Java reads as the range U+00B7 to U+2027. An ASCII hyphen is therefore not a bullet, while every letter between U+00B7 and U+2027 is one. | `"- a"` is classified NORMAL, and `"été"` is classified BULLET_LIST | the six listed characters, hyphen included, are the bullets | not executed | FormatPreservingTextProcessor.BulletRangeAsWritten | FormatPreservingTextProcessor.BulletListIff |
| src/main/java/E_Reader/filemanager/FileManagerData.java:219-255 | `deleteFolder` removes the folder's entry before it recurses into the children. Each child's physical path is then resolved with its parent missing, so it lands directly below the library root. | folder A (directory `library/A`) with child B named X: the recursion deletes `library/X`, not `library/A/X` | every descendant directory is resolved before any entry is removed, so it lies inside the deleted folder's directory | not executed | FileManagerData.DeleteFolderLeavesItsDirectory | FileManagerData.FileManagerData.DeleteFolderResolvedFirst |
| src/main/java/E_Reader/ui/MainController.java:777-787 | `toggleFocusMode` computes `focusMode` as the negation of the controls' visibility and then sets the visibility to `!focusMode`, which is the old value. The controls never change. | controls visible: after the call they are still visible, and the focus-mode notice never shows | the controls flip on every call, hiding them on entering focus mode | not executed | MainController.MainController.ToggleFocusModeAsWritten | MainController.MainController.ToggleFocusMode |
