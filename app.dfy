/**
 * The main window (`ExcelSearchApp`): the guard in front of a new search,
 * the results table filled when the search completes, and the table handed
 * to the spreadsheet writer on export. The background thread is reduced to
 * a `running` flag and a log of the searches started.
 */
module App {
  import opened Wrappers
  import opened Lists
  import opened Cells
  import opened Settings
  import opened Dialog
  import opened Search

  /** What a `SearchThread` is constructed with. */
  datatype SearchRequest = SearchRequest(filePath: string, settings: ExcelSettings, phrase: string)

  datatype StartOutcome = NoFileSelected | EmptyPhrase | AlreadyRunning | Started

  datatype DisplayOutcome = NoResults | Shown

  datatype ExportOutcome =
    | NothingToExport
    | Cancelled
    | ColumnMismatch
    | Written(header: seq<string>, rows: seq<seq<Option<Value>>>)

  /** The table's columns: the sheet, the search column, then the additional columns. */
  function DisplayColumns(s: ExcelSettings): (cols: seq<string>)
    ensures |cols| == 2 + |s.additionalColumns|
    ensures cols[0] == SheetColumn && cols[1] == s.searchColumn && cols[2..] == s.additionalColumns
  {
    [SheetColumn] + [s.searchColumn] + s.additionalColumns
  }

  /** Every key of every record, record after record. */
  function AllKeys(records: seq<Record>): (ks: seq<string>)
    ensures forall x :: x in ks <==> exists k :: 0 <= k < |records| && x in Keys(records[k])
  {
    if records == [] then []
    else
      var rest := AllKeys(records[1..]);
      assert forall k :: 0 < k < |records| ==> records[k] == records[1..][k - 1];
      assert forall k :: 0 <= k < |records[1..]| ==> records[1..][k] == records[k + 1];
      Keys(records[0]) + rest
  }

  /**
   * The columns of `pd.DataFrame(records)`: each key of some record, once,
   * in order of first appearance.
   */
  function FrameColumns(records: seq<Record>): (cols: seq<string>)
    ensures NoDuplicates(cols)
    ensures forall x :: x in cols <==> exists k :: 0 <= k < |records| && x in Keys(records[k])
  {
    DistinctMembers(AllKeys(records));
    Distinct(AllKeys(records))
  }

  /** One record read in column order, each column with `dict.get`, absent keys as None. */
  function RowOf(record: Record, columns: seq<string>): (row: seq<Option<Value>>)
    ensures |row| == |columns|
    ensures forall j :: 0 <= j < |columns| ==> row[j] == Get(record, columns[j])
  {
    if columns == [] then [] else [Get(record, columns[0])] + RowOf(record, columns[1..])
  }

  /** The rows of `pd.DataFrame(records)`, one per record, in record order. */
  function FrameRows(records: seq<Record>, columns: seq<string>): (rows: seq<seq<Option<Value>>>)
    ensures |rows| == |records|
    ensures forall k :: 0 <= k < |records| ==> rows[k] == RowOf(records[k], columns)
  {
    if records == [] then [] else [RowOf(records[0], columns)] + FrameRows(records[1..], columns)
  }

  /** A row as `drop_duplicates` compares it: cell by cell, under Python's `==`. */
  function RowKey(row: seq<Option<Value>>): seq<Option<Value>> {
    MapSeq(row, PyKey)
  }

  /**
   * `export_to_excel` up to the write: refuse an empty result list, stop if
   * no destination was chosen, relabel the frame's columns with the display
   * columns (which raises when their numbers differ) and drop every row equal
   * to an earlier one.
   */
  function Export(records: seq<Record>, s: ExcelSettings, destination: string): (e: ExportOutcome)
    ensures e == NothingToExport <==> records == []
    ensures e == Cancelled <==> records != [] && destination == ""
    ensures e == ColumnMismatch <==> records != [] && destination != "" && |FrameColumns(records)| != |DisplayColumns(s)|
    ensures e.Written? ==> e.header == DisplayColumns(s) && 0 < |e.rows| <= |records|
  {
    if records == [] then NothingToExport
    else if destination == "" then Cancelled
    else
      var columns := FrameColumns(records);
      if |columns| != |DisplayColumns(s)| then ColumnMismatch
      else
        var frame := FrameRows(records, columns);
        assert frame[0] in DistinctBy(frame, RowKey) by { DistinctByHead(frame, RowKey); }
        Written(DisplayColumns(s), DistinctBy(frame, RowKey))
  }

  /** The nested loops of `display_search_results` writing `str(row.get(column))` into each cell. */
  method FillTable(data: seq<Record>, columns: seq<string>) returns (grid: array2<string>)
    ensures fresh(grid)
    ensures grid.Length0 == |data| && grid.Length1 == |columns|
    ensures forall r, c :: 0 <= r < |data| && 0 <= c < |columns| ==> grid[r, c] == Show(Get(data[r], columns[c]))
  {
    grid := new string[|data|, |columns|];
    for r := 0 to |data|
      invariant forall i, j :: 0 <= i < r && 0 <= j < |columns| ==> grid[i, j] == Show(Get(data[i], columns[j]))
    {
      FillRow(grid, r, RowTexts(data[r], columns));
    }
  }

  /** What the cells of one table row show: `str(row.get(column))` per column. */
  function RowTexts(record: Record, columns: seq<string>): (texts: seq<string>)
    ensures |texts| == |columns|
    ensures forall j :: 0 <= j < |columns| ==> texts[j] == Show(Get(record, columns[j]))
  {
    MapSeq(columns, (c: string) => Show(Get(record, c)))
  }

  /** The inner loop: one table row written cell by cell, the other rows left as they are. */
  method FillRow(grid: array2<string>, r: nat, texts: seq<string>)
    requires r < grid.Length0 && grid.Length1 == |texts|
    modifies grid
    ensures forall j :: 0 <= j < |texts| ==> grid[r, j] == texts[j]
    ensures forall i, j :: 0 <= i < grid.Length0 && i != r && 0 <= j < grid.Length1 ==> grid[i, j] == old(grid[i, j])
  {
    for c := 0 to |texts|
      invariant forall j :: 0 <= j < c ==> grid[r, j] == texts[j]
      invariant forall i, j :: 0 <= i < grid.Length0 && i != r && 0 <= j < grid.Length1 ==> grid[i, j] == old(grid[i, j])
    {
      grid[r, c] := texts[c];
    }
  }

  class ExcelSearchApp {
    var filePath: string
    var settings: ExcelSettings
    var running: bool
    var started: seq<SearchRequest>
    var results: seq<Record>
    var headers: seq<string>
    var table: array2<string>

    /** A running search is the last one started. */
    ghost predicate Valid()
      reads this
    {
      running ==> started != []
    }

    constructor ()
      ensures Valid()
      ensures filePath == "" && settings == Initial && !running && started == [] && results == []
      ensures headers == [] && table.Length0 == 0 && table.Length1 == 0
    {
      filePath, settings, running, started, results, headers := "", Initial, false, [], [], [];
      table := new string[0, 0];
    }

    /** A file was picked in the open dialog; cancelling it keeps the previous path. */
    method ChooseFile(path: string)
      modifies this`filePath
      ensures filePath == if path != "" then path else old(filePath)
    {
      if path != "" {
        filePath := path;
      }
    }

    /** OK in the settings dialog: emitted settings replace the current ones wholesale. */
    method ConfirmSettings(dialog: SettingsDialog) returns (emitted: Option<ExcelSettings>)
      modifies this`settings
      ensures emitted == None <==> dialog.sheetText == "" || dialog.searchText == ""
      ensures emitted.None? ==> settings == old(settings)
      ensures emitted.Some? ==> emitted.value == settings
      ensures emitted.Some? ==> settings == ExcelSettings(dialog.sheetText, dialog.searchText, CheckedTexts(dialog.checkboxes))
    {
      emitted := dialog.Accept();
      if emitted.Some? {
        settings := emitted.value;
      }
    }

    /**
     * `search_excel`: refuse without a file, then without a phrase, then
     * while a search runs; otherwise clear the table and the results and
     * start exactly one search with the current path, settings and phrase.
     */
    method SearchExcel(phrase: string) returns (outcome: StartOutcome)
      requires Valid()
      modifies this
      ensures Valid()
      ensures old(filePath) == "" ==> outcome == NoFileSelected
      ensures old(filePath) != "" && phrase == "" ==> outcome == EmptyPhrase
      ensures old(filePath) != "" && phrase != "" && old(running) ==> outcome == AlreadyRunning
      ensures old(filePath) != "" && phrase != "" && !old(running) ==> outcome == Started
      ensures filePath == old(filePath) && settings == old(settings)
      ensures outcome != Started ==>
        running == old(running) && started == old(started) && results == old(results)
        && headers == old(headers) && table == old(table)
      ensures outcome == Started ==>
        running && started == old(started) + [SearchRequest(filePath, settings, phrase)]
        && results == [] && headers == [] && fresh(table) && table.Length0 == 0 && table.Length1 == 0
    {
      if filePath == "" {
        return NoFileSelected;
      }
      if phrase == "" {
        return EmptyPhrase;
      }
      if running {
        return AlreadyRunning;
      }
      table := new string[0, 0];
      headers := [];
      results := [];
      started := started + [SearchRequest(filePath, settings, phrase)];
      running := true;
      outcome := Started;
    }

    /**
     * The running search finishes: its result list, computed from the
     * request it was started with (the workbook `files` holds at its path,
     * its settings and its phrase), is delivered to `display_search_results`.
     */
    method CompleteSearch(files: string -> Option<Workbook>, engine: RegexEngine) returns (outcome: DisplayOutcome)
      requires Valid() && running
      modifies this
      ensures Valid() && !running
      ensures started == old(started) && filePath == old(filePath) && settings == old(settings)
      ensures var request := started[|started| - 1];
        results == Run(files(request.filePath), request.settings, request.phrase, engine)
      ensures outcome == NoResults <==> results == []
      ensures results == [] ==> headers == old(headers) && table == old(table)
      ensures results != [] ==>
        headers == DisplayColumns(settings) && fresh(table)
        && table.Length0 == |results| && table.Length1 == |headers|
        && forall r, c :: 0 <= r < |results| && 0 <= c < |headers| ==> table[r, c] == Show(Get(results[r], headers[c]))
    {
      var request := started[|started| - 1];
      var data := Run(files(request.filePath), request.settings, request.phrase, engine);
      running := false;
      outcome := DisplaySearchResults(data);
    }

    /**
     * `display_search_results`: keep the list; report "No Results" for an
     * empty one, otherwise fill a fresh table whose columns are the CURRENT
     * settings' display columns.
     */
    method DisplaySearchResults(data: seq<Record>) returns (outcome: DisplayOutcome)
      modifies this
      ensures results == data
      ensures filePath == old(filePath) && settings == old(settings)
      ensures running == old(running) && started == old(started)
      ensures outcome == NoResults <==> data == []
      ensures data == [] ==> headers == old(headers) && table == old(table)
      ensures data != [] ==>
        headers == DisplayColumns(settings) && fresh(table)
        && table.Length0 == |data| && table.Length1 == |headers|
        && forall r, c :: 0 <= r < |data| && 0 <= c < |headers| ==> table[r, c] == Show(Get(data[r], headers[c]))
    {
      results := data;
      if data == [] {
        return NoResults;
      }
      headers := DisplayColumns(settings);
      table := FillTable(data, headers);
      outcome := Shown;
    }

    /**
     * `export_to_excel` on the window's state: the last delivered results,
     * labelled with the current settings' display columns, to the chosen
     * destination ("" when the save dialog was cancelled). It is refused
     * exactly when there are no results; what is written has the display
     * columns as header and no two rows equal under Python's `==`, each the
     * first of its class, in order of first occurrence.
     */
    method ExportToExcel(destination: string) returns (outcome: ExportOutcome)
      ensures outcome == NothingToExport <==> results == []
      ensures outcome == Cancelled <==> results != [] && destination == ""
      ensures outcome == ColumnMismatch <==>
        results != [] && destination != "" && |FrameColumns(results)| != |DisplayColumns(settings)|
      ensures outcome.Written? ==>
        && outcome.header == DisplayColumns(settings)
        && KeepsFirstPerKey(FrameRows(results, FrameColumns(results)), outcome.rows, RowKey)
    {
      outcome := Export(results, settings, destination);
      if outcome.Written? {
        ExportDropsDuplicates(results, settings, destination);
      }
    }
  }

  /** Settings the search can report on without raising and whose records carry each display column once. */
  ghost predicate PlainColumns(s: ExcelSettings) {
    NoDuplicates([s.searchColumn] + s.additionalColumns) && SheetColumn !in [s.searchColumn] + s.additionalColumns
  }

  /** With plain settings the doubled search column collapses: a result record's keys are the display columns. */
  lemma SelectedKeys(s: ExcelSettings)
    requires PlainColumns(s)
    ensures SheetColumn !in SelectedColumns(s)
    ensures [SheetColumn] + Distinct(SelectedColumns(s)) == DisplayColumns(s)
  {
    var sel := SelectedColumns(s);
    assert sel[1..] == [s.searchColumn] + s.additionalColumns;
    DistinctDoubledHead(sel);
  }

  /** With plain settings every result record has exactly the display columns as keys, in display order. */
  lemma ResultKeysAreDisplayColumns(workbook: Option<Workbook>, s: ExcelSettings, phrase: string, engine: RegexEngine)
    requires PlainColumns(s)
    ensures forall k :: 0 <= k < |Run(workbook, s, phrase, engine)| ==> Keys(Run(workbook, s, phrase, engine)[k]) == DisplayColumns(s)
  {
    if ScanSucceeds(workbook, s, phrase, engine) {
      RunRecords(workbook, s, phrase, engine);
      var data := Run(workbook, s, phrase, engine);
      var matched := MatchedRows(workbook.value[s.sheetName].rows, s.searchColumn, phrase, engine);
      var sel := SelectedColumns(s);
      SelectedKeys(s);
      forall k | 0 <= k < |data|
        ensures Keys(data[k]) == DisplayColumns(s)
      {
        assert data[k] == ResultRecord(matched[k], s.sheetName, sel);
        GetResultRecord(matched[k], s.sheetName, sel);
      }
    } else {
      RunResult(workbook, s, phrase, engine);
    }
  }

  /**
   * A table cell shows the sheet name in the first column and, under every
   * other header, the matched row's value in that column (or None), when
   * the settings have not changed since the search started.
   */
  lemma DisplayedCells(workbook: Option<Workbook>, s: ExcelSettings, phrase: string, engine: RegexEngine, r: nat, c: nat)
    requires ScanSucceeds(workbook, s, phrase, engine)
    requires r < |Run(workbook, s, phrase, engine)| && c < |DisplayColumns(s)|
    ensures c == 0 ==> Show(Get(Run(workbook, s, phrase, engine)[r], DisplayColumns(s)[c])) == Show(Normalise(Text(s.sheetName)))
    ensures c > 0 ==>
      Show(Get(Run(workbook, s, phrase, engine)[r], DisplayColumns(s)[c]))
        == Show(Normalise(CellAt(MatchedRows(workbook.value[s.sheetName].rows, s.searchColumn, phrase, engine)[r], DisplayColumns(s)[c])))
  {
    RunRecords(workbook, s, phrase, engine);
    var matched := MatchedRows(workbook.value[s.sheetName].rows, s.searchColumn, phrase, engine);
    assert Run(workbook, s, phrase, engine)[r] == ResultRecord(matched[r], s.sheetName, SelectedColumns(s));
    DisplayedCell(matched[r], s, c);
  }

  /** One cell of the record built from one matched row, read under a display column. */
  lemma DisplayedCell(row: Row, s: ExcelSettings, c: nat)
    requires SheetColumn !in SelectedColumns(s) && c < |DisplayColumns(s)|
    ensures var cell := Get(ResultRecord(row, s.sheetName, SelectedColumns(s)), DisplayColumns(s)[c]);
      cell == if c == 0 then Normalise(Text(s.sheetName)) else Normalise(CellAt(row, DisplayColumns(s)[c]))
  {
    var sel := SelectedColumns(s);
    var column := DisplayColumns(s)[c];
    if c == 0 {
      GetResultRecord(row, s.sheetName, sel);
    } else {
      assert sel[c] == column;
      GetResultColumn(row, s.sheetName, sel, column);
    }
  }

  /** Records that all have the same keys, without repeats, give a frame with exactly those columns. */
  lemma {:induction false} FrameColumnsOfUniformRecords(records: seq<Record>, columns: seq<string>)
    requires records != [] && NoDuplicates(columns)
    requires forall k :: 0 <= k < |records| ==> Keys(records[k]) == columns
    ensures FrameColumns(records) == columns
    decreases |records|
  {
    var rest := records[1..];
    if rest == [] {
      assert AllKeys(records) == columns + [];
      assert columns + [] == columns;
    } else {
      FrameColumnsOfUniformRecords(rest, columns);
      AllKeysWithin(rest, columns);
      DistinctAbsorbsRepeats(columns, AllKeys(rest));
    }
    DistinctOfDistinct(columns);
  }

  lemma {:induction false} AllKeysWithin(records: seq<Record>, columns: seq<string>)
    requires forall k :: 0 <= k < |records| ==> Keys(records[k]) == columns
    ensures forall x :: x in AllKeys(records) ==> x in columns
    decreases |records|
  {
    if records != [] {
      AllKeysWithin(records[1..], columns);
    }
  }

  /**
   * Records that all carry the same keys once each, as many as there are
   * display columns, are written under the display columns, one row per
   * class of equal records.
   */
  lemma ExportOfUniformRecords(records: seq<Record>, columns: seq<string>, s: ExcelSettings, destination: string)
    requires records != [] && destination != ""
    requires NoDuplicates(columns) && |columns| == |DisplayColumns(s)|
    requires forall k :: 0 <= k < |records| ==> Keys(records[k]) == columns
    ensures Export(records, s, destination) == Written(DisplayColumns(s), DistinctBy(FrameRows(records, columns), RowKey))
  {
    FrameColumnsOfUniformRecords(records, columns);
  }

  /**
   * Two records with the same keys whose values are pairwise equal under
   * Python's `==` are written as one row, the first one's.
   */
  lemma ExportOfEqualPair(first: Record, second: Record, columns: seq<string>, s: ExcelSettings, destination: string)
    requires destination != "" && Keys(first) == columns && Keys(second) == columns
    requires NoDuplicates(columns) && |columns| == |DisplayColumns(s)|
    requires RowKey(RowOf(first, columns)) == RowKey(RowOf(second, columns))
    ensures Export([first, second], s, destination) == Written(DisplayColumns(s), [RowOf(first, columns)])
  {
    var records := [first, second];
    assert forall k :: 0 <= k < |records| ==> Keys(records[k]) == columns;
    ExportOfUniformRecords(records, columns, s, destination);
    FrameRowsOfPair(first, second, columns);
    DistinctByOfEqualPair(RowOf(first, columns), RowOf(second, columns), RowKey);
    assert DistinctBy(FrameRows(records, columns), RowKey) == [RowOf(first, columns)];
  }

  lemma FrameRowsOfPair(first: Record, second: Record, columns: seq<string>)
    ensures FrameRows([first, second], columns) == [RowOf(first, columns), RowOf(second, columns)]
  {
    var rows := FrameRows([first, second], columns);
    assert rows[0] == RowOf(first, columns) && rows[1] == RowOf(second, columns);
  }

  /**
   * The exported rows are the frame's rows with every row equal to an
   * earlier one dropped: no two written rows are equal, every frame row is
   * equal to a written one, each written row is the first frame row of its
   * class, and the classes keep their order of first occurrence.
   */
  lemma ExportDropsDuplicates(records: seq<Record>, s: ExcelSettings, destination: string)
    requires Export(records, s, destination).Written?
    ensures KeepsFirstPerKey(FrameRows(records, FrameColumns(records)), Export(records, s, destination).rows, RowKey)
  {
    var frame := FrameRows(records, FrameColumns(records));
    assert Export(records, s, destination).rows == DistinctBy(frame, RowKey);
    DistinctByProperties(frame, RowKey);
  }

  /**
   * Exporting the results of a search with plain settings, unchanged since:
   * the header is the display columns and each exported value sits under
   * the header of its own key.
   */
  lemma ExportOfSearchResults(workbook: Option<Workbook>, s: ExcelSettings, phrase: string, engine: RegexEngine, destination: string)
    requires PlainColumns(s) && destination != ""
    requires Run(workbook, s, phrase, engine) != []
    ensures var data := Run(workbook, s, phrase, engine);
      Export(data, s, destination) == Written(DisplayColumns(s), DistinctBy(FrameRows(data, DisplayColumns(s)), RowKey))
  {
    var data := Run(workbook, s, phrase, engine);
    ResultKeysAreDisplayColumns(workbook, s, phrase, engine);
    PlainDisplayColumnsDistinct(s);
    ExportOfUniformRecords(data, DisplayColumns(s), s, destination);
  }

  /** Plain settings show each display column once. */
  lemma PlainDisplayColumnsDistinct(s: ExcelSettings)
    requires PlainColumns(s)
    ensures NoDuplicates(DisplayColumns(s))
  {
    var tail := [s.searchColumn] + s.additionalColumns;
    var cols := DisplayColumns(s);
    assert cols == [SheetColumn] + tail;
    forall i, j | 0 <= i < j < |cols|
      ensures cols[i] != cols[j]
    {
      assert cols[j] == tail[j - 1];
      if i > 0 { assert cols[i] == tail[i - 1]; }
    }
  }
}
