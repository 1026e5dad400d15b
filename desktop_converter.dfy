/** The desktop extractor: a window with a path label, a convert button and
    a progress bar. Converting walks the document's pages in order and
    writes one sheet "Page_<n>" for each page whose extracted tables are
    not all empty, the first row of each table serving as its header.
    The PDF reader, the table extractor and the spreadsheet writer are
    outside the model: a document arrives as the tables each page yields,
    or a failure to open it or to scan a page, and saving the workbook may
    fail. The file dialogs are parameters. */
module DesktopConverter {
  import opened Wrappers
  import Text

  /** A table row as the extractor returns it: one text per cell. */
  type Row = seq<string>

  /** An extracted table: its rows, the first of them the header. */
  type Table = seq<Row>

  /** What scanning one page gives: its tables, or an exception raised
      while extracting or writing them. */
  datatype PageScan = Scanned(tables: seq<Table>) | Raised

  /** The chosen document: it cannot be opened (or the workbook cannot be
      created at the save path), or it opens to these pages; `saveFails`
      says whether writing the workbook out at the end raises. */
  datatype Document = Unopenable | Opened(pages: seq<PageScan>, saveFails: bool)

  /** One data frame: the header row as column names and the data rows. */
  datatype Frame = Frame(columns: Row, rows: seq<Row>)

  /** A sheet written to the workbook, with the index of its page. */
  datatype Sheet = Sheet(name: string, page: nat, frames: seq<Frame>)

  /** The dialog shown at the end of a run. */
  datatype Report = Succeeded(savedTo: string) | Failed

  const NoFileText := "No file selected"
  const IdleButtonText := "START EXTRACTION"
  const BusyButtonText := "PROCESSING..."

  // ---------------------------------------------------------------------------
  // Planning the sheets of one page
  // ---------------------------------------------------------------------------

  /** The tables of a page that hold at least one row, in order. */
  function NonEmptyTables(tables: seq<Table>): (r: seq<Table>)
    ensures |r| <= |tables|
    ensures forall k :: 0 <= k < |r| ==> r[k] != []
    ensures r == [] <==> forall k :: 0 <= k < |tables| ==> tables[k] == []
  {
    if tables == [] then []
    else if tables[0] == [] then NonEmptyTables(tables[1..])
    else [tables[0]] + NonEmptyTables(tables[1..])
  }

  /** The data frames built for a page: one per non-empty table, its first
      row the column names and the rest the data. */
  function Frames(tables: seq<Table>): (fs: seq<Frame>)
    ensures |fs| <= |tables|
    ensures forall f :: f in fs ==> TableOf(f) in tables
  {
    if tables == [] then []
    else if tables[0] == [] then Frames(tables[1..])
    else
      assert TableOf(Frame(tables[0][0], tables[0][1..])) == tables[0];
      [Frame(tables[0][0], tables[0][1..])] + Frames(tables[1..])
  }

  /** The table a frame was built from: its header row above its data. */
  function TableOf(f: Frame): (t: Table)
    ensures t != [] && t[0] == f.columns && t[1..] == f.rows
  {
    [f.columns] + f.rows
  }

  /** Building the frames loses nothing and invents nothing: read back as
      tables, they are exactly the page's non-empty tables, in order. */
  lemma {:induction false} FramesRoundTrip(tables: seq<Table>)
    ensures |Frames(tables)| == |NonEmptyTables(tables)|
    ensures forall k :: 0 <= k < |Frames(tables)| ==> TableOf(Frames(tables)[k]) == NonEmptyTables(tables)[k]
  {
    if tables != [] {
      FramesRoundTrip(tables[1..]);
      if tables[0] != [] {
        assert TableOf(Frame(tables[0][0], tables[0][1..])) == tables[0];
      }
    }
  }

  /** The data rows of a page's frames, stacked in frame order. */
  function Rows(frames: seq<Frame>): seq<Row> {
    if frames == [] then [] else frames[0].rows + Rows(frames[1..])
  }

  /** The number of data rows of the tables: one less than the rows of
      each non-empty table. */
  function DataRowCount(tables: seq<Table>): nat {
    if tables == [] then 0
    else (if tables[0] == [] then 0 else |tables[0]| - 1) + DataRowCount(tables[1..])
  }

  /** A page's sheet holds every data row of its tables and no header. */
  lemma {:induction false} RowsCount(tables: seq<Table>)
    ensures |Rows(Frames(tables))| == DataRowCount(tables)
  {
    if tables != [] {
      RowsCount(tables[1..]);
      if tables[0] != [] {
        var f := Frame(tables[0][0], tables[0][1..]);
        assert ([f] + Frames(tables[1..]))[1..] == Frames(tables[1..]);
      }
    }
  }

  /** The name of the sheet for page index `i`: "Page_" and the 1-based
      page number in decimal. */
  function SheetName(i: nat): string {
    "Page_" + Text.NatToDecimal(i + 1)
  }

  /** A sheet name is "Page_" followed by the decimal digits of the 1-based
      page number, which can be read back from it. */
  lemma SheetNameSpec(i: nat)
    ensures |SheetName(i)| > 5 && SheetName(i)[..5] == "Page_"
    ensures Text.IsDecimal(SheetName(i)[5..]) && Text.DecimalValue(SheetName(i)[5..]) == i + 1
  {
    Text.DecimalRoundTrip(i + 1);
    assert SheetName(i)[5..] == Text.NatToDecimal(i + 1);
  }

  /** Distinct pages get distinct sheet names. */
  lemma SheetNameInjective(i: nat, j: nat)
    requires SheetName(i) == SheetName(j)
    ensures i == j
  {
    assert SheetName(i)[5..] == Text.NatToDecimal(i + 1);
    assert SheetName(j)[5..] == Text.NatToDecimal(j + 1);
    Text.NatToDecimalInjective(i + 1, j + 1);
  }

  /** The sheet page `i` contributes, if any. */
  function PageSheet(i: nat, scan: PageScan): seq<Sheet> {
    match scan
    case Raised => []
    case Scanned(tables) =>
      if tables != [] && Frames(tables) != [] then [Sheet(SheetName(i), i, Frames(tables))] else []
  }

  /** A page contributes at most one sheet, named after it, and does so
      exactly when it was scanned and one of its tables holds a row. */
  lemma PageSheetSpec(i: nat, scan: PageScan)
    ensures |PageSheet(i, scan)| <= 1
    ensures PageSheet(i, scan) != [] <==> scan.Scanned? && HasRows(scan.tables)
    ensures PageSheet(i, scan) != [] ==> PageSheet(i, scan)[0].page == i && PageSheet(i, scan)[0].name == SheetName(i)
  {
    if scan.Scanned? {
      FramesExist(scan.tables);
    }
  }

  /** The sheets the page loop writes for `pages`, in page order. */
  function Plan(pages: seq<PageScan>): (sheets: seq<Sheet>)
    ensures |sheets| <= |pages|
    ensures forall k :: 0 <= k < |sheets| ==> sheets[k].page < |pages|
    decreases |pages|
  {
    if pages == [] then []
    else Plan(pages[..|pages| - 1]) + PageSheet(|pages| - 1, pages[|pages| - 1])
  }

  /** Scanning one more page appends that page's sheet, if any. */
  lemma PlanStep(pages: seq<PageScan>, i: nat)
    requires i < |pages|
    ensures Plan(pages[..i + 1]) == Plan(pages[..i]) + PageSheet(i, pages[i])
  {
    assert pages[..i + 1][..i] == pages[..i];
  }

  /** The sheets of the first `n` pages, counted by index: the form in
      which the page loop builds the plan. */
  function PlanUpTo(pages: seq<PageScan>, n: nat): seq<Sheet>
    requires n <= |pages|
    decreases n
  {
    if n == 0 then [] else PlanUpTo(pages, n - 1) + PageSheet(n - 1, pages[n - 1])
  }

  lemma {:induction false} PlanUpToIsPlan(pages: seq<PageScan>, n: nat)
    requires n <= |pages|
    ensures PlanUpTo(pages, n) == Plan(pages[..n])
    decreases n
  {
    if n > 0 {
      PlanUpToIsPlan(pages, n - 1);
      assert pages[..n][..n - 1] == pages[..n - 1];
    }
  }

  /** Sheets come in strictly ascending page order, so at most one per page. */
  lemma {:induction false} PlanAscending(pages: seq<PageScan>)
    ensures forall a, b :: 0 <= a < b < |Plan(pages)| ==> Plan(pages)[a].page < Plan(pages)[b].page
    decreases |pages|
  {
    if pages != [] {
      PlanAscending(pages[..|pages| - 1]);
    }
  }

  /** Frames exist exactly when some table is non-empty. */
  lemma {:induction false} FramesExist(tables: seq<Table>)
    ensures Frames(tables) != [] <==> HasRows(tables)
  {
    FramesRoundTrip(tables);
  }

  /** Some table of the page holds a row. */
  ghost predicate HasRows(tables: seq<Table>) {
    exists t :: 0 <= t < |tables| && tables[t] != []
  }

  /** Some sheet of `sheets` belongs to page `i`. */
  ghost predicate HasSheetFor(sheets: seq<Sheet>, i: nat) {
    exists k :: 0 <= k < |sheets| && sheets[k].page == i
  }

  lemma HasSheetForAppend(a: seq<Sheet>, b: seq<Sheet>, i: nat)
    ensures HasSheetFor(a + b, i) <==> HasSheetFor(a, i) || HasSheetFor(b, i)
  {
    if HasSheetFor(a + b, i) {
      var k :| 0 <= k < |a + b| && (a + b)[k].page == i;
      if k >= |a| {
        assert b[k - |a|].page == i;
      }
    }
    if HasSheetFor(a, i) {
      var k :| 0 <= k < |a| && a[k].page == i;
      assert (a + b)[k].page == i;
    }
    if HasSheetFor(b, i) {
      var k :| 0 <= k < |b| && b[k].page == i;
      assert (a + b)[|a| + k].page == i;
    }
  }

  /** Every planned sheet is named after its page and carries the frames of
      that page's tables. */
  lemma {:induction false} PlanSheetsNamed(pages: seq<PageScan>)
    ensures forall k :: 0 <= k < |Plan(pages)| ==>
      var s := Plan(pages)[k];
      pages[s.page].Scanned? && s.name == SheetName(s.page) && s.frames == Frames(pages[s.page].tables)
    decreases |pages|
  {
    if pages != [] {
      var n := |pages| - 1;
      var init := pages[..n];
      PlanSheetsNamed(init);
      forall k | 0 <= k < |Plan(pages)|
        ensures var s := Plan(pages)[k];
          pages[s.page].Scanned? && s.name == SheetName(s.page) && s.frames == Frames(pages[s.page].tables)
      {
        if k < |Plan(init)| {
          assert Plan(pages)[k] == Plan(init)[k];
          assert init[Plan(init)[k].page] == pages[Plan(init)[k].page];
        }
      }
    }
  }

  /** Page `i` has a sheet exactly when it was scanned and one of its tables
      is non-empty. */
  lemma {:induction false} PlanCoversPage(pages: seq<PageScan>, i: nat)
    requires i < |pages|
    ensures HasSheetFor(Plan(pages), i) <==> pages[i].Scanned? && HasRows(pages[i].tables)
    decreases |pages|
  {
    var n := |pages| - 1;
    var init := pages[..n];
    var last := PageSheet(n, pages[n]);
    HasSheetForAppend(Plan(init), last, i);
    if pages[n].Scanned? {
      FramesExist(pages[n].tables);
    }
    if i == n {
      assert !HasSheetFor(Plan(init), n);
      if pages[n].Scanned? && HasRows(pages[n].tables) {
        assert last[0].page == n;
      }
    } else {
      PlanCoversPage(init, i);
      assert init[i] == pages[i];
      assert !HasSheetFor(last, i);
    }
  }

  /** Planned sheets have pairwise distinct names. */
  lemma PlanNamesDistinct(pages: seq<PageScan>)
    ensures forall a, b :: 0 <= a < b < |Plan(pages)| ==> Plan(pages)[a].name != Plan(pages)[b].name
  {
    if pages != [] {
      PlanAscending(pages);
      PlanSheetsNamed(pages);
      forall a, b | 0 <= a < b < |Plan(pages)|
        ensures Plan(pages)[a].name != Plan(pages)[b].name
      {
        if Plan(pages)[a].name == Plan(pages)[b].name {
          SheetNameInjective(Plan(pages)[a].page, Plan(pages)[b].page);
        }
      }
    }
  }

  /** The index of the first page whose scan raised, or the page count. */
  function FirstRaised(pages: seq<PageScan>): (j: nat)
    ensures j <= |pages|
    ensures forall k :: 0 <= k < j ==> pages[k].Scanned?
    ensures j < |pages| ==> pages[j].Raised?
  {
    if pages == [] || pages[0].Raised? then 0 else 1 + FirstRaised(pages[1..])
  }

  /** The first raising page is the one before which every page was
      scanned and which itself raised (or the end of the document). */
  lemma {:induction false} FirstRaisedAt(pages: seq<PageScan>, d: nat)
    requires d <= |pages| && (forall k :: 0 <= k < d ==> pages[k].Scanned?)
    requires d < |pages| ==> pages[d].Raised?
    ensures FirstRaised(pages) == d
    decreases d
  {
    if d > 0 {
      FirstRaisedAt(pages[1..], d - 1);
    }
  }

  // ---------------------------------------------------------------------------
  // Progress
  // ---------------------------------------------------------------------------

  /** The value the progress bar shows after `done` of `total` pages. */
  ghost function Percent(done: nat, total: nat): (p: real)
    requires total > 0
    ensures done <= total ==> 0.0 <= p <= 100.0
  {
    (done as real) / (total as real) * 100.0
  }

  /** Each page moves the bar strictly forward. */
  lemma PercentIncreasing(a: nat, b: nat, total: nat)
    requires a < b && total > 0
    ensures Percent(a, total) < Percent(b, total)
  {
    var t := total as real;
    assert (a as real) / t < (b as real) / t;
  }

  /** After the last page the bar is full. */
  lemma PercentComplete(total: nat)
    requires total > 0
    ensures Percent(total, total) == 100.0
  {
  }

  // ---------------------------------------------------------------------------
  // The window
  // ---------------------------------------------------------------------------

  /** The name offered in the save dialog: the chosen file's base name with
      every ".pdf" in it removed. */
  function SuggestedSaveName(path: string): (n: string)
    ensures '/' !in n && |n| <= |path|
  {
    Text.RemoveAll(Text.Basename(path), Text.PdfPattern)
  }

  /** "/docs/report.pdf" is offered as "report", and "/docs/a.pdf.pdf" as
      "a": every ".pdf" goes, not only the first. */
  lemma {:induction false} SuggestedSaveNameOfPdf(dir: string, stem: string, rest: string)
    requires '/' !in stem && '/' !in rest
    requires Text.Absent(stem, Text.PdfPattern)
    ensures SuggestedSaveName(dir + "/" + stem + Text.PdfPattern + rest) == stem + Text.RemoveAll(rest, Text.PdfPattern)
  {
    var name := stem + Text.PdfPattern + rest;
    assert '/' !in Text.PdfPattern;
    assert '/' !in name;
    assert dir + "/" + stem + Text.PdfPattern + rest == dir + "/" + name;
    Text.BasenameOfJoin(dir, name);
    Text.RemoveAllAfterFirst(stem, Text.PdfPattern, rest);
  }

  class Window {
    var pathLabel: string
    var convertEnabled: bool
    var buttonText: string
    /** The progress bar, counted in pages done; it shows
        `Percent(pagesDone, total)` while a run is under way. */
    var pagesDone: nat

    /** Every value given to the progress bar during the last run, before
        the final reset. */
    ghost var progressLog: seq<nat>

    /** Between runs the convert button reads "START EXTRACTION" over an
        empty bar. */
    ghost predicate Valid()
      reads this
    {
      buttonText == IdleButtonText && pagesDone == 0
    }

    constructor ()
      ensures Valid() && !convertEnabled && pathLabel == NoFileText && progressLog == []
    {
      pathLabel := NoFileText;
      convertEnabled := false;
      buttonText := IdleButtonText;
      pagesDone := 0;
      progressLog := [];
    }

    /** The file button: a chosen path is shown and enables conversion; a
        cancelled dialog (empty path) changes nothing. */
    method SelectFile(chosen: string)
      requires Valid()
      modifies this
      ensures Valid()
      ensures chosen == "" ==> unchanged(this)
      ensures convertEnabled == (old(convertEnabled) || chosen != "")
      ensures chosen != "" ==> pathLabel == chosen && convertEnabled && progressLog == old(progressLog)
    {
      if chosen != "" {
        pathLabel := chosen;
        convertEnabled := true;
      }
    }

    /** The progress bar was given 1, 2, ..., `n` pages, in that order. */
    ghost predicate CountsPages(log: seq<nat>, n: nat) {
      |log| == n && forall k :: 0 <= k < n ==> log[k] == k + 1
    }

    /** The progress bar after page `done`: it moves to `done + 1`. */
    method Advance(done: nat)
      requires pagesDone == done && CountsPages(progressLog, done)
      modifies this`pagesDone, this`progressLog
      ensures pagesDone == done + 1 && CountsPages(progressLog, done + 1)
    {
      pagesDone := done + 1;
      progressLog := progressLog + [done + 1];
    }

    /** One pass of the page loop's body: when page `i` has tables and they
        yield frames, the sheet "Page_<i+1>" holding them is added. */
    method WritePage(i: nat, tables: seq<Table>, sheets: seq<Sheet>) returns (next: seq<Sheet>)
      ensures next == sheets + PageSheet(i, Scanned(tables))
    {
      next := sheets;
      if tables != [] {
        var frames := Frames(tables);
        if frames != [] {
          next := next + [Sheet(SheetName(i), i, frames)];
        }
      }
    }

    /** The page loop of a run: pages are scanned in order until one raises,
        each scanned page writing its sheet, if any, and advancing the bar. */
    method ScanPages(pages: seq<PageScan>) returns (sheets: seq<Sheet>, done: nat)
      requires pagesDone == 0
      modifies this`pagesDone, this`progressLog
      ensures done == FirstRaised(pages)
      ensures sheets == Plan(pages[..done])
      ensures pagesDone == done && CountsPages(progressLog, done)
    {
      sheets := [];
      progressLog := [];
      done := 0;
      while done < |pages| && pages[done].Scanned?
        invariant done <= |pages|
        invariant forall k :: 0 <= k < done ==> pages[k].Scanned?
        invariant sheets == PlanUpTo(pages, done)
        invariant pagesDone == done && CountsPages(progressLog, done)
      {
        sheets := WritePage(done, pages[done].tables, sheets);
        Advance(done);
        done := done + 1;
      }
      FirstRaisedAt(pages, done);
      PlanUpToIsPlan(pages, done);
    }

    /** What a run over `doc` ends with: the sheets written, the report
        shown and the progress values given. An unopenable document writes
        nothing; otherwise the pages before the first raise are planned,
        and success needs every page scanned and the save to work. */
    ghost predicate Outcome(savePath: string, doc: Document, sheets: seq<Sheet>, report: Report, log: seq<nat>) {
      match doc
      case Unopenable => sheets == [] && report == Failed && log == []
      case Opened(pages, saveFails) =>
        var done := FirstRaised(pages);
        && sheets == Plan(pages[..done])
        && CountsPages(log, done)
        && report == (if done == |pages| && !saveFails then Succeeded(savePath) else Failed)
    }

    /** The name the save dialog offers at the start of a conversion: the
        chosen file's base name with every ".pdf" removed. */
    method SaveDialogName() returns (name: string)
      ensures name == SuggestedSaveName(pathLabel)
    {
      name := SuggestedSaveName(pathLabel);
    }

    /** The body of the `try`: open the document and the workbook, scan the
        pages, save; any exception on the way is reported as a failure. */
    method Extract(savePath: string, doc: Document) returns (sheets: seq<Sheet>, report: Report)
      requires pagesDone == 0
      modifies this`pagesDone, this`progressLog
      ensures Outcome(savePath, doc, sheets, report, progressLog)
    {
      match doc {
        case Unopenable =>
          sheets := [];
          progressLog := [];
          report := Failed;
        case Opened(pages, saveFails) =>
          var done;
          sheets, done := ScanPages(pages);
          report := if done == |pages| && !saveFails then Succeeded(savePath) else Failed;
      }
    }

    /** The convert button. `savePath` is what the save dialog, offering
        `SaveDialogName()`, returned; an empty one aborts with nothing changed.
        Otherwise the button shows it is busy while the run goes on, and the
        button and bar are restored whatever the outcome. */
    method Convert(savePath: string, doc: Document) returns (sheets: seq<Sheet>, report: Option<Report>)
      requires Valid() && convertEnabled
      modifies this
      ensures Valid()
      ensures savePath == "" ==> unchanged(this) && sheets == [] && report == None
      ensures savePath != "" ==>
        && pathLabel == old(pathLabel) && convertEnabled
        && report.Some? && Outcome(savePath, doc, sheets, report.value, progressLog)
    {
      sheets := [];
      report := None;
      if savePath == "" {
        return;
      }
      convertEnabled := false;
      buttonText := BusyButtonText;
      var r;
      sheets, r := Extract(savePath, doc);
      report := Some(r);
      convertEnabled := true;
      buttonText := IdleButtonText;
      pagesDone := 0;
    }
  }
}
