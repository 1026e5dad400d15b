# Excelconverter: a verified model of its state machines

Excelconverter turns PDF documents into spreadsheets or Word-style text.
The repository has two front ends.

- **The browser front end** is a React page. Its shell switches between a home view
  and a workspace view. The workspace holds two panels:
  - the *conversion panel*, which reads the chosen PDF, sends it to a remote
    extraction service and offers the result for download;
  - the *assistant panel*, a chat with a remote advisory service.
- **The desktop extractor** is a Tk window. It walks a PDF page by page and writes one
  sheet per page that holds tables.

The model covers four pieces of code:

- the conversion panel's six state fields and its handlers;
- the shell's navigation, scroll and reset logic;
- the assistant's chat log;
- the desktop extractor's page loop.

The PDF reader, the table extractor, the spreadsheet writer, the remote AI calls and the
browser's file APIs are outside the model. Each enters the model as an outcome chosen by
the caller: a `Reply`, a `ServiceReply`, a `PageScan` or a `Document`.

Files:

- `text.dfy` holds the string functions the code relies on, each with its
  meaning proved:
  - JavaScript `indexOf` and `replace` with a string pattern, which drops the first
    occurrence;
  - Python `str.replace`, which drops every occurrence;
  - JavaScript `split` and `trim`;
  - POSIX `basename`;
  - decimal rendering of naturals.
- `web_converter.dfy` holds the conversion panel as a class, with the pure prompt,
  media-type, payload and download-name functions.
- `assistant.dfy` holds the chat panel as a class, with its alternation invariant.
- `app.dfy` holds the page shell as a class that owns the mounted panel instances.
- `desktop_converter.dfy` holds sheet planning as functions with their lemmas, and the
  window as a class whose page loop is proved against the plan.

Some behaviour of the code that the model keeps:

- **Download name.** The download name drops the first ".pdf" wherever it stands, not a
  trailing extension, so "a.pdf.pdf" becomes "a.pdf_converted.xlsx"
  (`WebConverter.DownloadNameOfPdf`).
- **Error texts.** The conversion panel has exactly two error texts: the engine failure
  and the override failure. The reply is used as the service returns it: it is not
  cleaned of markdown fences, and no error is passed to the assistant.
- **Resetting the panels.** Changing view also remounts both panels: leaving the
  workspace unmounts them, and entering it mounts fresh ones (`App.Shell.NavigateTo`).
  Bumping the converter's key remounts only the converter.
- **`lastError`.** The shell hands the converter the setter of `lastError`
  (App.tsx:89), but the converter neither declares nor calls it, so `lastError` is only
  ever assigned null. `App.Shell.Valid` records this.

## Model

| member | source | states |
|---|---|---|
| Text.IndexOfFrom | components/WebConverter.tsx:109 | the result is an occurrence at or after the start, with none between the start and it; none means no occurrence from the start on |
| Text.IndexOf | components/WebConverter.tsx:109 | none exactly when the pattern does not occur; otherwise the first occurrence |
| Text.RemoveFirst | components/WebConverter.tsx:109 | the text is unchanged when the pattern is absent; otherwise exactly the first occurrence is cut out |
| Text.RemoveAll | converter.py:61 | the result is never longer, and the text is unchanged when the pattern is absent |
| Text.AppendedOccurrenceIsFirst | components/WebConverter.tsx:109 | appending a pattern with no border to text that lacks it makes the appended copy the first occurrence |
| Text.FirstOccurrenceExtends | components/WebConverter.tsx:109 | a first occurrence stays first when text is appended |
| Text.RemoveAppendedSuffix | converter.py:61 | both removals recover the stem from the stem followed by the pattern |
| Text.RemoveAllAfterFirst | converter.py:61 | removing every occurrence keeps an occurrence-free stem and continues after the first occurrence |
| Text.Split | components/WebConverter.tsx:42 | at least one field, no field contains the separator, and joining the fields gives the text back |
| Text.SplitSeparatorFree | components/WebConverter.tsx:42 | separator-free text splits into itself |
| Text.SplitAfterSeparatorFree | components/WebConverter.tsx:42 | a separator-free head followed by the separator splits into that head and the fields of the rest |
| Text.SplitJoin | components/WebConverter.tsx:42 | splitting the join of separator-free fields gives those fields back |
| Text.TrimStart | components/AIAssistant.tsx:19-20 | the result is a suffix, what was dropped is whitespace, and the result is empty or starts with non-whitespace |
| Text.TrimEnd | components/AIAssistant.tsx:19-20 | the result is a prefix, what was dropped is whitespace, and the result is empty or ends with non-whitespace |
| Text.Trim | components/AIAssistant.tsx:19-20 | the result is the stretch of the input between its leading and its trailing whitespace: empty exactly when the input is all whitespace, and otherwise starting and ending with non-whitespace |
| Text.TrimBlank | components/AIAssistant.tsx:19 | trimming gives the empty text exactly for all-whitespace input |
| Text.Basename | converter.py:61 | the result is a slash-free suffix of the path, preceded by a slash unless it is the whole path |
| Text.BasenameOfJoin | converter.py:61 | the base name of a directory, a slash and a slash-free name is that name |
| Text.NatToDecimal | converter.py:88 | a non-empty digit string with no leading zero except for 0 |
| Text.DecimalRoundTrip | converter.py:88 | reading the rendered digits back gives the number |
| Text.NatToDecimalInjective | converter.py:88 | distinct numbers render differently |
| WebConverter.Prompt | components/WebConverter.tsx:47-49 | the Excel instruction exactly for Excel, the text instruction exactly for Word |
| WebConverter.MediaType | components/WebConverter.tsx:77-83 | the spreadsheet media type exactly for Excel, the Word media type exactly for Word |
| WebConverter.Extension | components/WebConverter.tsx:108 | "xlsx" exactly for Excel, "doc" exactly for Word |
| WebConverter.DataUrlPayload | components/WebConverter.tsx:42 | absent exactly when the URL has no comma; otherwise comma-free |
| WebConverter.DataUrlPayloadOfDataUrl | components/WebConverter.tsx:42 | a data URL yields exactly its data part (RFC 2397, section 3) |
| WebConverter.DownloadName | components/WebConverter.tsx:108-109 | without ".pdf" the name is the file name, "_converted." and the extension; otherwise the first ".pdf" is cut out of the file name before that |
| WebConverter.DownloadNameOfPdf | components/WebConverter.tsx:108-109 | only the first ".pdf" is removed and everything after it is kept, then "_converted." and the extension |
| WebConverter.DownloadNameFollowsFormat | components/WebConverter.tsx:108-109 | the download name depends on the format at download time |
| WebConverter.Converter.constructor | components/WebConverter.tsx:14-19 | no file, not loading, no download, no error, empty status, no result |
| WebConverter.Converter.HandleFileChange | components/WebConverter.tsx:21-29 | an empty selection changes nothing; otherwise the first file is selected and the download flag, error, status and result are cleared |
| WebConverter.Converter.ConvertFile | components/WebConverter.tsx:31-101 | with no file nothing changes; otherwise loading, error cleared, no download, ignition status, file and result kept; a reader that throws gives the override failure and stops loading |
| WebConverter.Converter.OnLoadEnd | components/WebConverter.tsx:40-51 | the request is sent exactly when the reader produced a result and the client was created; it carries the data URL's payload and the format's prompt, and the status turns to scanning; otherwise the engine failure is set and loading stops; the file, download flag and result are kept |
| WebConverter.Converter.OnReply | components/WebConverter.tsx:64-94 | a delivered reply stores a blob with the format's media type, turns the download on and sets the ready status; a failed call or a failed assembly sets the engine failure, keeps the previous result and the download off, and leaves the status as the last step set it (the assembling status for Excel once the call returned); loading stops either way |
| WebConverter.Converter.Dismiss | components/WebConverter.tsx:197 | the error is cleared and no other field changes |
| WebConverter.Converter.DownloadFile | components/WebConverter.tsx:103-109 | a file is named exactly when both a result and a file are present, and the name is the download name for the current format |
| WebConverter.DownloadWhenReady | components/WebConverter.tsx:159-169 | while the download view shows, a click always yields a named file |
| Assistant.ReplyText | services/gemini.ts:6-28 | a failed call yields the fixed apology, and an answer yields its own text |
| Assistant.AlternatingAppend | components/AIAssistant.tsx:19-26 | appending a message of the role due next keeps the log alternating |
| Assistant.IdleLogEndsWithAnswer | components/AIAssistant.tsx:19-26 | when not loading, the log has odd length and ends with an assistant message; when loading, it ends with the user's question |
| Assistant.Panel.constructor | components/AIAssistant.tsx:6-10 | the log is exactly the greeting, the input is empty and nothing is pending |
| Assistant.Panel.SetInput | components/AIAssistant.tsx:58 | the input takes the typed text and the log and flag are kept |
| Assistant.Panel.HandleSubmit | components/AIAssistant.tsx:17-23 | blank input or a pending answer changes nothing; otherwise exactly one user message with the trimmed input is appended, the input is cleared and loading is set, keeping the log alternating |
| Assistant.Panel.ReceiveReply | components/AIAssistant.tsx:24-26 | exactly one assistant message is appended and loading stops, keeping the log alternating |
| App.SectionIds | App.tsx:54-92 | "features" exactly on home; "converter-section" and "ai-section" exactly in the workspace |
| App.Shell.constructor | App.tsx:11-15 | home view, Excel format, no pending scroll, key 0, no error |
| App.Shell.Remount | App.tsx:100-107 | the workspace mounts a fresh converter and a fresh assistant in their initial states, and home mounts neither |
| App.Shell.NavigateTo | App.tsx:27-49 | a new view is taken and a given target is recorded for scrolling; entering the workspace gives fresh panels; within the same view, the view and pending target are kept; only a converter-section request in the workspace bumps the key by one, clears the error and remounts the converter; the format never changes and the key never decreases |
| App.Shell.ScrollEffect | App.tsx:17-25 | the pending target is cleared exactly when the current view renders that id |
| App.Shell.SetFormat | App.tsx:12 | the format takes the chosen value and nothing else changes |
| DesktopConverter.NonEmptyTables | converter.py:85 | the kept tables are non-empty, and none are kept exactly when every table is empty |
| DesktopConverter.Frames | converter.py:85 | no more frames than tables, and each frame read back is one of the page's tables |
| DesktopConverter.TableOf | converter.py:85 | a frame's header row comes first, followed by its data rows |
| DesktopConverter.FramesRoundTrip | converter.py:85 | read back as tables, the frames are exactly the non-empty tables in order, with row 0 as the header and the rest as data |
| DesktopConverter.RowsCount | converter.py:85-87 | a page's stacked data rows number the sum of each non-empty table's length minus one |
| DesktopConverter.SheetNameSpec | converter.py:88 | the name is "Page_" followed by decimal digits that read back as the 1-based page number |
| DesktopConverter.SheetNameInjective | converter.py:88 | distinct pages get distinct sheet names |
| DesktopConverter.PageSheetSpec | converter.py:83-89 | a page gives at most one sheet, and gives one exactly when it was scanned and one of its tables holds a row; that sheet is for the page and named after it |
| DesktopConverter.Plan | converter.py:78-89 | no more sheets than pages, each for a page of the document |
| DesktopConverter.PlanStep | converter.py:78-89 | scanning one more page appends that page's sheet, if it has one |
| DesktopConverter.PlanUpToIsPlan | converter.py:78-89 | building the plan page by page by index gives the plan of those pages |
| DesktopConverter.PlanAscending | converter.py:78-88 | sheets come in strictly ascending page order |
| DesktopConverter.FramesExist | converter.py:83-86 | frames exist exactly when some table is non-empty |
| DesktopConverter.PlanSheetsNamed | converter.py:83-89 | every sheet is for a scanned page, is named "Page_" plus that page's 1-based number and holds that page's frames |
| DesktopConverter.PlanCoversPage | converter.py:83-89 | page i has a sheet exactly when it was scanned and one of its tables is non-empty |
| DesktopConverter.PlanNamesDistinct | converter.py:88 | sheet names are pairwise distinct |
| DesktopConverter.FirstRaised | converter.py:78-98 | the pages before it were scanned, and it is a raising page or the page count |
| DesktopConverter.FirstRaisedAt | converter.py:78-98 | the first raising page is the one before which every page was scanned and which itself raised, or the page count |
| DesktopConverter.Percent | converter.py:92 | the value lies between 0 and 100 while the pages done do not exceed the total |
| DesktopConverter.PercentIncreasing | converter.py:92 | the progress value strictly increases with pages done |
| DesktopConverter.PercentComplete | converter.py:92 | the progress is 100 after the last page |
| DesktopConverter.SuggestedSaveName | converter.py:61 | the suggested name holds no slash and is no longer than the path |
| DesktopConverter.SuggestedSaveNameOfPdf | converter.py:61 | the suggested name is the base name with every ".pdf" removed, not only the first |
| DesktopConverter.Window.constructor | converter.py:35-48 | the label reads "No file selected" and the convert button is disabled |
| DesktopConverter.Window.SelectFile | converter.py:51-56 | a cancelled dialog changes nothing; a chosen path is shown and enables conversion; the button is enabled only once a non-empty path has been chosen |
| DesktopConverter.Window.WritePage | converter.py:81-89 | the sheets grow by exactly the page's sheet, if it has one |
| DesktopConverter.Window.Advance | converter.py:91-93 | the bar moves from `done` to `done + 1` pages, and the progress values so far are 1, 2, ..., `done + 1` |
| DesktopConverter.Window.ScanPages | converter.py:73-93 | pages are scanned in order up to the first that raises; the sheets written are the plan of those pages, and progress counts 1, 2, ... pages |
| DesktopConverter.Window.SaveDialogName | converter.py:59-62 | the save dialog offers the chosen file's base name with every ".pdf" removed |
| DesktopConverter.Window.Extract | converter.py:70-100 | an unopenable document writes nothing and fails; otherwise the sheets are the plan of the pages scanned before the first raise, progress counts those pages, and success is reported only when every page was scanned and the save worked |
| DesktopConverter.Window.Convert | converter.py:58-104 | an empty save path changes nothing; otherwise the run's outcome is reported and afterwards the button reads "START EXTRACTION", is enabled, and the bar is back at zero |

## Left out

- The remote extraction and advisory calls are left out. They are network calls into a
  foreign SDK, and their outcome is a parameter (`Reply`, `ServiceReply`). The
  advisory prompt text is therefore not modelled.
- JSON parsing, the SheetJS workbook and `Blob` construction are left out because they
  are foreign libraries. A blob is an opaque token labelled with its media type, and a
  parse or encode failure is the `AssemblyFailed` reply.
- `FileReader`, object URLs and the anchor click that delivers the download are browser
  I/O. `DownloadFile` returns the file name it would deliver. The data URL itself is not
  produced. `DataUrlPayload` states what is taken from it.
- Scrolling (`scrollIntoView`, `window.scrollTo`) is a DOM effect. Only the
  `pendingScroll` state it reads and clears is kept. `App.SectionIds` lists every
  element id the page renders.
- Some desktop behaviour is not modelled:
  - pdfplumber, pandas, openpyxl, the Tk widgets, the dialogs, the message boxes and the
    console output are not part of the model;
  - a document is the tables each page yields, or a failure;
  - a failure to open the document or to create the workbook is `Unopenable`;
  - a failure when the workbook is saved at the end is `saveFails`;
  - when no sheet was written, whether the writer accepts the empty workbook is left to
    that flag.
- DesktopConverter.Frame: pandas aligns the columns of concatenated frames by header
  name. The model keeps each table's header and data rows without aligning columns.
- DesktopConverter.Window.Convert: progress is an integer count of pages done
  (`pagesDone`), not the float percentage. `Percent` gives the value the bar shows, and
  its lemmas state its monotonicity.
- Text.Basename follows POSIX paths only. Windows separators are not modelled.
- The presentation components (hero, feature grid, footer, navigation bar) are not
  modelled. They have no state.
- Text: Dafny strings are sequences of Unicode scalar values, while JavaScript strings are
  UTF-16 code units. `indexOf`, `replace`, `split` and `trim` agree on both for the ASCII
  patterns and the whitespace used here. Text outside the Basic Multilingual Plane is
  indexed differently.
