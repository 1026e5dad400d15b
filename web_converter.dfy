/** The browser conversion panel: a component with six pieces of state that
    a file picker, a convert button, the file reader's completion callback, a
    dismiss button and a download button move between "nothing selected",
    "converting", "ready to download" and "failed". The remote extraction
    call, the spreadsheet encoder and the browser's file reader are outside
    the model: what they produce reaches the component as a `Reply`. */
module WebConverter {
  import opened Wrappers
  import Text

  /** The output kind the page's format toggle selects. */
  datatype Format = Excel | Word

  /** A file chosen in the file picker; the component only ever reads its name. */
  datatype FileRef = FileRef(name: string, id: nat)

  /** The converted artifact: an opaque token labelled with the media type
      the component gives the blob. */
  datatype Blob = Blob(mediaType: string, token: nat)

  /** What the read callback sends to the extraction service: the payload
      taken from the data URL (`undefined` when it has no comma) and the
      instruction. */
  datatype Request = Request(data: Option<string>, prompt: string)

  /** How the callback ends once the awaited extraction call returns: the
      output is built (an opaque token), the call throws, or building the
      output throws (for Excel, parsing the reply as JSON or encoding the
      workbook). */
  datatype Reply = Delivered(token: nat) | CallFailed | AssemblyFailed

  const IgnitionStatus := "Ignition sequence started..."
  const ScanningStatus := "Scanning document topography..."
  const AssemblingStatus := "Assembling spreadsheet modules..."
  const ReadyStatus := "System calibrated. Output ready."
  const EngineFailure := "Engine failure: Data extraction interrupted."
  const OverrideFailure := "System override failed. Connection lost."

  const ExcelPrompt := "Extract all data from this PDF. Return ONLY a JSON array of objects where each object represents a row. If there are multiple tables, merge them into one list. Do not include markdown formatting or extra text."
  const WordPrompt := "Convert this document to a structured text format suitable for professional use."

  const SpreadsheetMediaType := "application/vnd.openxmlformats-officedocument.spreadsheetml.sheet"
  const WordMediaType := "application/msword"

  // ---------------------------------------------------------------------------
  // Pure parts: prompt, payload, media type, download name
  // ---------------------------------------------------------------------------

  /** The instruction sent with the document: one fixed text per format. */
  function Prompt(format: Format): (p: string)
    ensures p == ExcelPrompt <==> format == Excel
    ensures p == WordPrompt <==> format == Word
  {
    assert |ExcelPrompt| != |WordPrompt|;
    match format
    case Excel => ExcelPrompt
    case Word => WordPrompt
  }

  /** The media type of the blob built for each format. */
  function MediaType(format: Format): (m: string)
    ensures m == SpreadsheetMediaType <==> format == Excel
    ensures m == WordMediaType <==> format == Word
  {
    assert |SpreadsheetMediaType| != |WordMediaType|;
    match format
    case Excel => SpreadsheetMediaType
    case Word => WordMediaType
  }

  /** The extension of the downloaded file. */
  function Extension(format: Format): (e: string)
    ensures e == "xlsx" <==> format == Excel
    ensures e == "doc" <==> format == Word
  {
    assert |"xlsx"| != |"doc"|;
    match format
    case Excel => "xlsx"
    case Word => "doc"
  }

  /** The uploaded payload: field 1 of the data URL split on commas, which
      is `undefined` (here `None`) when the URL holds no comma. */
  function DataUrlPayload(url: string): (r: Option<string>)
    ensures r.None? <==> ',' !in url
    ensures r.Some? ==> ',' !in r.value
  {
    var fields := Text.Split(url, ',');
    if |fields| > 1 then Some(fields[1])
    else
      assert url == Text.Join(fields, ',') == fields[0];
      None
  }

  /** A data URL `data:<mediatype>;base64,<data>` as RFC 2397, section 3,
      defines it yields exactly its `<data>` part: the header and base64 text
      contain no comma. */
  lemma {:induction false} DataUrlPayloadOfDataUrl(header: string, data: string)
    requires ',' !in header && ',' !in data
    ensures DataUrlPayload(header + "," + data) == Some(data)
  {
    var parts := [header, data];
    assert Text.Join(parts, ',') == header + "," + data;
    Text.SplitJoin(parts, ',');
  }

  /** The name offered for the download: the file name with its first
      ".pdf" removed, wherever it stands, then "_converted." and the
      extension of the format current at download time. */
  function DownloadName(fileName: string, format: Format): (n: string)
    ensures Text.Absent(fileName, Text.PdfPattern) ==> n == fileName + "_converted." + Extension(format)
    ensures forall i: nat :: Text.FirstOccurrence(fileName, Text.PdfPattern, i) ==>
      n == fileName[..i] + fileName[i + |Text.PdfPattern|..] + "_converted." + Extension(format)
  {
    Text.RemoveFirst(fileName, Text.PdfPattern) + "_converted." + Extension(format)
  }

  /** The first ".pdf" is dropped wherever it stands and nothing after
      it is touched: "report.pdf" downloads as "report_converted.xlsx", and
      "a.pdf.pdf" as "a.pdf_converted.xlsx". */
  lemma DownloadNameOfPdf(stem: string, rest: string, format: Format)
    requires Text.Absent(stem, Text.PdfPattern)
    ensures DownloadName(stem + Text.PdfPattern + rest, format) == stem + rest + "_converted." + Extension(format)
  {
    var name := stem + Text.PdfPattern + rest;
    Text.AppendedOccurrenceIsFirst(stem, Text.PdfPattern);
    Text.FirstOccurrenceExtends(stem + Text.PdfPattern, rest, Text.PdfPattern, |stem|);
    assert name[..|stem|] == stem;
    assert name[|stem| + |Text.PdfPattern|..] == rest;
  }

  /** The name depends on the format passed at download time: the same file
      downloads under different names as Excel and as Word. */
  lemma DownloadNameFollowsFormat(fileName: string)
    ensures DownloadName(fileName, Excel) != DownloadName(fileName, Word)
  {
    assert |DownloadName(fileName, Excel)| == |DownloadName(fileName, Word)| + 1;
  }

  // ---------------------------------------------------------------------------
  // The component
  // ---------------------------------------------------------------------------

  class Converter {
    var file: Option<FileRef>
    var loading: bool
    var downloadReady: bool
    var error: Option<string>
    var statusMessage: string
    var resultBlob: Option<Blob>

    /** The read callback scheduled by the last conversion that has not
        finished, with the format its closure captured. */
    ghost var pending: Option<Format>
    /** Whether that callback has sent its request and is suspended at the
        awaited extraction call; other handlers may run meanwhile. */
    ghost var awaiting: bool

    /** The spinner shows exactly while a read callback is outstanding; the
        download view only appears once a result and a file are there. */
    ghost predicate Valid()
      reads this
    {
      && (loading <==> pending.Some?)
      && (awaiting ==> pending.Some?)
      && (pending.Some? ==> !downloadReady && file.Some?)
      && (downloadReady ==> resultBlob.Some? && file.Some?)
    }

    /** The state a freshly mounted component starts in. */
    ghost predicate Initial()
      reads this
    {
      file == None && !loading && !downloadReady && error == None &&
      statusMessage == "" && resultBlob == None && pending == None && !awaiting
    }

    constructor ()
      ensures Valid() && Initial()
    {
      file := None;
      loading := false;
      downloadReady := false;
      error := None;
      statusMessage := "";
      resultBlob := None;
      pending := None;
      awaiting := false;
    }

    /** The file picker's change handler: the first chosen file replaces the
        selection and clears the previous outcome; an empty choice does nothing. */
    method HandleFileChange(files: seq<FileRef>)
      requires Valid()
      modifies this
      ensures Valid()
      ensures |files| == 0 ==> unchanged(this)
      ensures |files| > 0 ==>
        && file == Some(files[0])
        && !downloadReady && error == None && statusMessage == "" && resultBlob == None
        && loading == old(loading) && pending == old(pending) && awaiting == old(awaiting)
    {
      if |files| > 0 {
        file := Some(files[0]);
        downloadReady := false;
        error := None;
        statusMessage := "";
        resultBlob := None;
      }
    }

    /** The convert button. With no file it returns at once. Otherwise it
        shows the spinner and the first status, then hands the file to the
        reader; if that throws, the outer handler reports the failure, and
        otherwise the returned format is the one the scheduled read callback
        captured. */
    method ConvertFile(format: Format, readerThrows: bool) returns (scheduled: Option<Format>)
      requires Valid() && !loading
      modifies this
      ensures Valid()
      ensures old(file).None? ==> unchanged(this) && scheduled == None
      ensures old(file).Some? ==>
        && file == old(file) && resultBlob == old(resultBlob)
        && !downloadReady && statusMessage == IgnitionStatus
        && (readerThrows ==> !loading && error == Some(OverrideFailure) && scheduled == None)
        && (!readerThrows ==> loading && error == None && scheduled == Some(format))
        && pending == scheduled && !awaiting
    {
      scheduled := None;
      if file.None? {
        return;
      }
      loading := true;
      error := None;
      downloadReady := false;
      statusMessage := IgnitionStatus;
      if readerThrows {
        error := Some(OverrideFailure);
        loading := false;
      } else {
        scheduled := Some(format);
        pending := scheduled;
      }
    }

    /** The reader's completion callback, for a conversion started with
        `format`, up to the awaited extraction call. `result` is the
        reader's result (null when reading failed) and `clientFails` says
        whether creating the service client throws. Either throw reports
        the engine failure and stops the spinner; otherwise the status turns
        to scanning and the request is sent. */
    method OnLoadEnd(format: Format, result: Option<string>, clientFails: bool) returns (request: Option<Request>)
      requires Valid() && pending == Some(format) && !awaiting
      modifies this
      ensures Valid()
      ensures file == old(file) && downloadReady == old(downloadReady) && resultBlob == old(resultBlob)
      ensures request.Some? <==> result.Some? && !clientFails
      ensures request.Some? ==>
        && request.value == Request(DataUrlPayload(result.value), Prompt(format))
        && statusMessage == ScanningStatus && error == old(error)
        && loading && pending == old(pending) && awaiting
      ensures request.None? ==>
        && error == Some(EngineFailure) && statusMessage == old(statusMessage)
        && !loading && pending == None && !awaiting
    {
      if result.None? || clientFails {
        error := Some(EngineFailure);
        loading := false;
        pending := None;
        return None;
      }
      var data := DataUrlPayload(result.value);
      statusMessage := ScanningStatus;
      request := Some(Request(data, Prompt(format)));
      awaiting := true;
    }

    /** The rest of the callback, once the extraction call returns. On
        success the blob is stored and the download view turns on; on a
        throw the engine failure is shown and the previous result stays.
        Either way the spinner stops. Handlers that ran during the call
        are seen here: a failure keeps whatever status they left. */
    method OnReply(format: Format, reply: Reply)
      requires Valid() && pending == Some(format) && awaiting
      modifies this
      ensures Valid() && pending == None && !awaiting && !loading
      ensures file == old(file)
      ensures reply.Delivered? ==>
        && resultBlob == Some(Blob(MediaType(format), reply.token))
        && downloadReady && statusMessage == ReadyStatus && error == old(error)
      ensures !reply.Delivered? ==>
        && error == Some(EngineFailure) && !downloadReady && resultBlob == old(resultBlob)
      ensures reply == CallFailed ==> statusMessage == old(statusMessage)
      ensures reply == AssemblyFailed ==>
        statusMessage == (if format == Excel then AssemblingStatus else old(statusMessage))
    {
      match reply {
        case Delivered(token) =>
          if format == Excel {
            statusMessage := AssemblingStatus;
          }
          resultBlob := Some(Blob(MediaType(format), token));
          downloadReady := true;
          loading := false;
          statusMessage := ReadyStatus;
        case CallFailed =>
          error := Some(EngineFailure);
          loading := false;
        case AssemblyFailed =>
          if format == Excel {
            statusMessage := AssemblingStatus;
          }
          error := Some(EngineFailure);
          loading := false;
      }
      pending := None;
      awaiting := false;
    }

    /** The dismiss button on the error banner. */
    method Dismiss()
      requires Valid()
      modifies this
      ensures Valid()
      ensures error == None
      ensures file == old(file) && loading == old(loading) && downloadReady == old(downloadReady)
      ensures statusMessage == old(statusMessage) && resultBlob == old(resultBlob)
      ensures pending == old(pending) && awaiting == old(awaiting)
    {
      error := None;
    }

    /** The download button: the name of the file handed to the browser, or
        nothing when there is no result or no file. The extension follows the
        format at the time of the click. */
    method DownloadFile(format: Format) returns (name: Option<string>)
      ensures name.Some? <==> resultBlob.Some? && file.Some?
      ensures name.Some? ==> name.value == DownloadName(file.value.name, format)
    {
      if resultBlob.None? || file.None? {
        return None;
      }
      name := Some(DownloadName(file.value.name, format));
    }
  }

  /** Whenever the download view is showing, a click produces a file. */
  method DownloadWhenReady(c: Converter, format: Format) returns (name: string)
    requires c.Valid() && c.downloadReady
    ensures name == DownloadName(c.file.value.name, format)
  {
    var r := c.DownloadFile(format);
    name := r.value;
  }
}
