/**
 * The state of the `App` component (app.py:72-133) and the effect that keeps
 * its regression in step with the data and the two selected columns
 * (app.py:140-197). Each event handler is a method; the effect, which React
 * runs after a change to `data`, `selectedX` or `selectedY`, is run at the
 * end of every handler that may change them, so the stored regression is
 * always the one the current data and selection determine.
 */
module AppState {
  import opened Wrappers
  import opened Types
  import opened Statistics
  import opened Columns
  import opened Extraction
  import opened Regression

  /** The MIME type of an Excel workbook, the one type accepted by type (app.py:20). */
  const XlsxType := "application/vnd.openxmlformats-officedocument.spreadsheetml.sheet"

  const InvalidFileMessage := "Please upload a valid Excel (.xlsx) or CSV (.csv) file."
  const EmptyFileMessage := "The uploaded file is empty or could not be read."
  const ParseFailedMessage := "Failed to parse the file. Please ensure it is a valid format."

  /** What the upload handlers look at in a `File`: its name and its MIME type. */
  datatype FileInfo = FileInfo(name: string, mimeType: string)

  /** `s.endsWith(suffix)`, case-sensitive. */
  predicate EndsWith(s: string, suffix: string) {
    |suffix| <= |s| && s[|s| - |suffix|..] == suffix
  }

  /** The upload filter (app.py:20, 38): an Excel MIME type, or a name ending in `.csv`. */
  predicate IsAccepted(f: FileInfo) {
    f.mimeType == XlsxType || EndsWith(f.name, ".csv")
  }

  /** A file passes exactly when it has the Excel type or its name is some stem followed by `.csv`. */
  lemma AcceptedIff(f: FileInfo)
    ensures IsAccepted(f) <==> f.mimeType == XlsxType || exists stem :: f.name == stem + ".csv"
  {
    if EndsWith(f.name, ".csv") {
      var stem := f.name[..|f.name| - 4];
      assert f.name == stem + ".csv";
    }
    if exists stem :: f.name == stem + ".csv" {
      var stem :| f.name == stem + ".csv";
      assert f.name[|f.name| - 4..] == ".csv";
    }
  }

  /** The test looks at the type and at the name's ending only, letter case included. */
  lemma AcceptanceCases()
    ensures IsAccepted(FileInfo("table.csv", ""))
    ensures IsAccepted(FileInfo("book", XlsxType))
    ensures !IsAccepted(FileInfo("table.CSV", "text/csv"))
    ensures !IsAccepted(FileInfo("book.xlsx", ""))
    ensures !IsAccepted(FileInfo("csv", "text/csv"))
  {
    assert "table.csv"[5..] == ".csv";
    assert "table.CSV"[5..] != ".csv" by { assert "table.CSV"[5..][1] == 'C'; }
    assert "book.xlsx"[5..] != ".csv" by { assert "book.xlsx"[5..][1] == 'l'; }
  }

  /** What the sheet reader delivers: the rows of the first sheet, or an exception. */
  datatype ParseOutcome = Parsed(rows: seq<DataRow>) | ParseFailed

  /** The guard of the effect (app.py:141): data, two columns chosen, and not the same one. */
  predicate CanRegress(data: seq<DataRow>, x: string, y: string) {
    |data| > 0 && x != "" && y != "" && x != y
  }

  /** The regression the effect stores for the data and the selected columns (app.py:140-197). */
  function RegressionOf(data: seq<DataRow>, x: string, y: string): (r: Option<RegressionResult>)
    ensures !CanRegress(data, x, y) ==> r == None
    ensures r.Some? ==> |Points(data, x, y)| >= 2
  {
    if CanRegress(data, x, y) then FitDefinedIff(Points(data, x, y)); Fit(Points(data, x, y)) else None
  }

  /**
   * A regression is shown exactly when the guard holds and the chosen columns
   * give at least two points whose x values are not all the same.
   */
  lemma RegressionDefinedIff(data: seq<DataRow>, x: string, y: string)
    ensures RegressionOf(data, x, y).Some? <==>
      CanRegress(data, x, y) && |Points(data, x, y)| >= 2 && !AllSame(Points(data, x, y), XOf)
  {
    if CanRegress(data, x, y) {
      FitDefinedIff(Points(data, x, y));
    }
  }

  /** The `chartData` memo (app.py:199-205): the scatter points, empty until both columns are chosen. */
  function ChartData(data: seq<DataRow>, x: string, y: string): (r: seq<Point>)
    ensures |r| <= |data|
    ensures x == "" || y == "" ==> r == []
  {
    if x == "" || y == "" then [] else Points(data, x, y)
  }

  /**
   * The scatter plot shows the points the regression was fitted to; with the
   * same column on both axes it still shows points, and no line.
   */
  lemma ChartMatchesRegression(data: seq<DataRow>, x: string, y: string)
    ensures CanRegress(data, x, y) ==> RegressionOf(data, x, y) == Fit(ChartData(data, x, y))
    ensures x == y && x != "" ==> RegressionOf(data, x, y) == None && ChartData(data, x, y) == Points(data, x, x)
    ensures x == "" || y == "" ==> RegressionOf(data, x, y) == None && ChartData(data, x, y) == []
  {
  }

  /** Each axis chosen on load is one the selectors offer for the loaded rows. */
  lemma AutoSelectionIsOffered(rows: seq<DataRow>)
    requires |rows| > 0
    ensures var s := AutoSelection(LoadNumericHeaders(rows, rows[0].keys));
      && (s.x == "" || s.x in NumericHeaders(rows, HeadersOf(rows)))
      && (s.y == "" || s.y in NumericHeaders(rows, HeadersOf(rows)))
  {
    var s := AutoSelection(LoadNumericHeaders(rows, rows[0].keys));
    if s.x != "" {
      LoadHeadersAreNumeric(rows, rows[0].keys, s.x);
    }
    if s.y != "" {
      LoadHeadersAreNumeric(rows, rows[0].keys, s.y);
    }
  }

  /** The `Object.keys` of the first row, or none without rows. */
  function HeadersOf(data: seq<DataRow>): seq<string> {
    if data == [] then [] else data[0].keys
  }

  class App {
    var data: seq<DataRow>
    var headers: seq<string>
    var fileName: string
    var selectedX: string
    var selectedY: string
    var regressionResult: Option<RegressionResult>
    var isLoading: bool
    var error: string
    /** The file the upload control accepted and the reader is reading (`file` at app.py:82). */
    var pending: Option<FileInfo>

    /**
     * The regression is the one the data and selection determine; each
     * selected column is one the selectors offer; the headers are the first
     * row's keys; there is no file name without data; and a file is only
     * read while no data is loaded and no error is shown, and it is then an
     * accepted one.
     */
    predicate Valid()
      reads this
    {
      && regressionResult == RegressionOf(data, selectedX, selectedY)
      && (selectedX == "" || selectedX in NumericHeaders(data, headers))
      && (selectedY == "" || selectedY in NumericHeaders(data, headers))
      && headers == HeadersOf(data)
      && (data == [] ==> fileName == "")
      && (isLoading ==> data == [])
      && (isLoading <==> pending.Some?)
      && (pending.Some? ==> IsAccepted(pending.value))
      && (isLoading ==> error == "")
    }

    /** The upload control is on screen (app.py:207-216): not loading, no error, no data. */
    predicate ShowsUpload()
      reads this
    {
      data == [] && !isLoading && error == ""
    }

    /** The data view, with the reset button and the two selectors, is on screen (app.py:207-218). */
    predicate ShowsData()
      reads this
    {
      |data| > 0 && !isLoading && error == ""
    }

    /**
     * The error view (app.py:211-212) shows the message and no control, so
     * once an error is set no handler can run again: the upload control and
     * the data view are off screen, and no file is being read.
     */
    lemma ErrorViewHasNoControl()
      requires Valid() && error != ""
      ensures !ShowsUpload() && !ShowsData() && !isLoading
    {
    }

    /** The initial state (app.py:73-80). */
    constructor ()
      ensures Valid()
      ensures data == [] && headers == [] && fileName == "" && selectedX == "" && selectedY == ""
      ensures regressionResult == None && !isLoading && error == "" && pending == None
    {
      data, headers, fileName := [], [], "";
      selectedX, selectedY := "", "";
      regressionResult, isLoading, error := None, false, "";
      pending := None;
    }

    /** The effect (app.py:140-197): recompute the regression from the current data and selection. */
    method RunRegressionEffect()
      modifies this
      ensures regressionResult == RegressionOf(data, selectedX, selectedY)
      ensures data == old(data) && headers == old(headers) && fileName == old(fileName)
      ensures selectedX == old(selectedX) && selectedY == old(selectedY)
      ensures isLoading == old(isLoading) && error == old(error) && pending == old(pending)
    {
      if |data| > 0 && selectedX != "" && selectedY != "" && selectedX != selectedY {
        var points := Points(data, selectedX, selectedY);
        regressionResult := Regress(points);
      } else {
        regressionResult := None;
      }
    }

    /**
     * A file chosen or dropped on the upload control (app.py:17-28, 34-46).
     * The control is on screen only before any data is loaded, while nothing
     * is being read and no error is shown (app.py:208-216). An accepted file
     * starts loading; any other file only sets the error message.
     */
    method FileSelected(file: Option<FileInfo>)
      requires Valid() && ShowsUpload()
      modifies this
      ensures Valid()
      ensures data == old(data) && headers == old(headers) && fileName == old(fileName)
      ensures selectedX == old(selectedX) && selectedY == old(selectedY)
      ensures regressionResult == old(regressionResult)
      ensures file == None ==> isLoading == old(isLoading) && error == old(error) && pending == old(pending)
      ensures file.Some? && IsAccepted(file.value) ==> isLoading && error == "" && pending == file
      ensures file.Some? && !IsAccepted(file.value) ==>
        isLoading == old(isLoading) && error == InvalidFileMessage && pending == old(pending)
    {
      match file
      case None =>
      case Some(f) =>
        if IsAccepted(f) {
          error := "";
          isLoading := true;
          pending := file;
        } else {
          error := InvalidFileMessage;
        }
    }

    /**
     * The reader's completion (app.py:84-119) for the pending file: rows
     * become the data, their first row's keys the headers, the file's name
     * the file name, and the first two columns the loader finds numeric the
     * axes, whatever was selected before; no rows sets an error only; a
     * failed parse sets an error and clears data and headers. Loading ends
     * in every case.
     */
    method FileLoaded(outcome: ParseOutcome)
      requires Valid() && isLoading
      modifies this
      ensures Valid() && !isLoading && pending == None
      ensures outcome.Parsed? && |outcome.rows| > 0 ==>
        && data == outcome.rows && headers == outcome.rows[0].keys
        && fileName == old(pending).value.name && IsAccepted(old(pending).value)
        && Selection(selectedX, selectedY) == AutoSelection(LoadNumericHeaders(outcome.rows, outcome.rows[0].keys))
        && error == ""
      ensures outcome == Parsed([]) ==>
        && data == old(data) && headers == old(headers) && fileName == old(fileName)
        && selectedX == old(selectedX) && selectedY == old(selectedY)
        && error == EmptyFileMessage
      ensures outcome == ParseFailed ==>
        && data == [] && headers == [] && fileName == old(fileName)
        && selectedX == old(selectedX) && selectedY == old(selectedY)
        && error == ParseFailedMessage
      ensures regressionResult == RegressionOf(data, selectedX, selectedY)
    {
      var file := pending.value;
      match outcome {
        case Parsed(rows) =>
          if |rows| > 0 {
            data := rows;
            var firstRowHeaders := rows[0].keys;
            headers := firstRowHeaders;
            var s := AutoSelection(LoadNumericHeaders(rows, firstRowHeaders));
            AutoSelectionIsOffered(rows);
            selectedX, selectedY := s.x, s.y;
            fileName := file.name;
            error := "";
          } else {
            error := EmptyFileMessage;
          }
        case ParseFailed =>
          error := ParseFailedMessage;
          data, headers := [], [];
      }
      isLoading := false;
      pending := None;
      RunRegressionEffect();
    }

    /**
     * "Upload New File" (app.py:124-133), a button of the data view
     * (app.py:219-227): back to the initial state.
     */
    method Reset()
      requires Valid() && ShowsData()
      modifies this
      ensures Valid()
      ensures data == [] && headers == [] && fileName == "" && selectedX == "" && selectedY == ""
      ensures regressionResult == None && !isLoading && error == "" && pending == None
    {
      data, headers, fileName := [], [], "";
      selectedX, selectedY := "", "";
      regressionResult := None;
      error := "";
      isLoading := false;
      pending := None;
      RunRegressionEffect();
    }

    /**
     * The X selector (app.py:237-241): it is on screen with the data
     * (app.py:207-218) and offers "" and the numeric columns.
     */
    method SelectX(h: string)
      requires Valid() && ShowsData()
      requires h == "" || h in NumericHeaders(data, headers)
      modifies this
      ensures Valid()
      ensures selectedX == h && selectedY == old(selectedY)
      ensures data == old(data) && headers == old(headers) && fileName == old(fileName)
      ensures isLoading == old(isLoading) && error == old(error) && pending == old(pending)
      ensures regressionResult == RegressionOf(data, h, selectedY)
    {
      selectedX := h;
      RunRegressionEffect();
    }

    /** The Y selector (app.py:244-248): like the X selector, but it leaves out the column chosen for X. */
    method SelectY(h: string)
      requires Valid() && ShowsData()
      requires h == "" || (h in NumericHeaders(data, headers) && h != selectedX)
      modifies this
      ensures Valid()
      ensures selectedY == h && selectedX == old(selectedX)
      ensures data == old(data) && headers == old(headers) && fileName == old(fileName)
      ensures isLoading == old(isLoading) && error == old(error) && pending == old(pending)
      ensures regressionResult == RegressionOf(data, selectedX, h)
    {
      selectedY := h;
      RunRegressionEffect();
    }
  }
}
