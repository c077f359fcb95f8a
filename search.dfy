/**
 * The background search (`SearchThread.run`): read the chosen sheet, keep
 * the rows whose search-column value matches the phrase, project them onto
 * the selected columns, tag each with the sheet name and replace NaN
 * and empty values by None. Any exception on the way ends the search with
 * no rows at all.
 */
module Search {
  import opened Wrappers
  import opened Lists
  import opened Cells
  import opened Settings

  /** One data row of a sheet, keyed by column header. */
  type Row = map<string, Value>

  /**
   * A sheet as a frame: its headers and its rows. A frame row has a value
   * under every header; the model does not require a row's keys to be the
   * headers, and `CellAt` reads a header a row lacks as `Nan`.
   */
  datatype Sheet = Sheet(columns: seq<string>, rows: seq<Row>)

  /** The sheets of the file by name, as the spreadsheet reader returns them. */
  type Workbook = map<string, Sheet>

  /**
   * The regular-expression engine behind `str.contains(phrase, case=False,
   * regex=True)`: whether the phrase compiles, and whether the compiled
   * pattern is found, ignoring case, somewhere in a text.
   */
  datatype RegexEngine = RegexEngine(compiles: string -> bool, search: (string, string) -> bool)

  /** The exceptions the search can raise; each one is swallowed into an empty result. */
  datatype SearchError = WorkbookUnreadable | MissingColumn | BadPattern | SheetColumnTaken

  const SheetColumn := "Sheet"

  /** A row's value in a column; a column the row lacks (which no frame row does) reads as `Nan`. */
  function CellAt(row: Row, column: string): Value {
    if column in row then row[column] else Nan
  }

  /** The stringified search-column value contains a match of the phrase. */
  predicate RowMatches(engine: RegexEngine, phrase: string, column: string, row: Row) {
    engine.search(phrase, Str(CellAt(row, column)))
  }

  /** The boolean-mask filter `df[df[column].astype(str).str.contains(...)]`. */
  function MatchedRows(rows: seq<Row>, column: string, phrase: string, engine: RegexEngine): (m: seq<Row>)
    ensures |m| <= |rows|
    ensures forall k :: 0 <= k < |m| ==> m[k] in rows && RowMatches(engine, phrase, column, m[k])
  {
    if rows == [] then []
    else
      var rest := MatchedRows(rows[1..], column, phrase, engine);
      assert forall k :: 0 <= k < |rest| ==> rest[k] in rows;
      (if RowMatches(engine, phrase, column, rows[0]) then [rows[0]] else []) + rest
  }

  /** The column list the rows are projected onto; the search column is listed twice. */
  function SelectedColumns(s: ExcelSettings): (r: seq<string>)
    ensures |r| == |s.additionalColumns| + 2 && r[0] == s.searchColumn && r[1] == s.searchColumn
    ensures r[2..] == s.additionalColumns
    ensures forall c :: c in r <==> c == s.searchColumn || c in s.additionalColumns
  {
    [s.searchColumn] + ([s.searchColumn] + s.additionalColumns)
  }

  /** One field per key, each holding the row's normalised value. */
  function Project(row: Row, keys: seq<string>): (r: Record)
    ensures Keys(r) == keys
    ensures forall k :: 0 <= k < |r| ==> r[k].value == Normalise(CellAt(row, keys[k]))
  {
    if keys == [] then []
    else [Field(keys[0], Normalise(CellAt(row, keys[0])))] + Project(row, keys[1..])
  }

  /**
   * The record `to_dict('records')` yields for one matched row: the inserted
   * `Sheet` column first, then each selected column once, at its first place.
   */
  function ResultRecord(row: Row, sheetName: string, selected: seq<string>): (r: Record)
    ensures Keys(r) == [SheetColumn] + Distinct(selected)
    ensures r[0].value == Normalise(Text(sheetName))
    ensures forall k :: 1 <= k < |r| ==> r[k].value == Normalise(CellAt(row, r[k].key))
  {
    [Field(SheetColumn, Normalise(Text(sheetName)))] + Project(row, Distinct(selected))
  }

  /** Every selected column is a column of the sheet: selecting them raises no KeyError. */
  predicate Covers(columns: seq<string>, selected: seq<string>) {
    forall c :: c in selected ==> c in columns
  }

  /** The body of the `try` block. */
  function Scan(workbook: Option<Workbook>, s: ExcelSettings, phrase: string, engine: RegexEngine)
    : (r: Result<seq<Record>, SearchError>)
    ensures r == Failure(WorkbookUnreadable) <==> workbook.None?
    ensures r == Failure(BadPattern) ==>
      workbook.Some? && s.sheetName in workbook.value && !engine.compiles(phrase)
    ensures r.Failure? ==> workbook.None? || s.sheetName in workbook.value
    ensures r.Success? && r.value != [] ==>
      && ScanSucceeds(workbook, s, phrase, engine)
      && |r.value| == |MatchedRows(workbook.value[s.sheetName].rows, s.searchColumn, phrase, engine)|
  {
    if workbook.None? then Failure(WorkbookUnreadable)
    else if s.sheetName !in workbook.value then Success([])
    else
      var sheet := workbook.value[s.sheetName];
      if s.searchColumn !in sheet.columns then Failure(MissingColumn)
      else if !engine.compiles(phrase) then Failure(BadPattern)
      else
        var matched := MatchedRows(sheet.rows, s.searchColumn, phrase, engine);
        if matched == [] then Success([])
        else
          var selected := SelectedColumns(s);
          if !Covers(sheet.columns, selected) then Failure(MissingColumn)
          else if SheetColumn in selected then Failure(SheetColumnTaken)
          else Success(seq(|matched|, k requires 0 <= k < |matched| => ResultRecord(matched[k], s.sheetName, selected)))
  }

  /** `run`: what the completion signal carries, the empty list when the scan raised. */
  function Run(workbook: Option<Workbook>, s: ExcelSettings, phrase: string, engine: RegexEngine): (data: seq<Record>)
    ensures data != [] ==> Scan(workbook, s, phrase, engine) == Success(data) && ScanSucceeds(workbook, s, phrase, engine)
  {
    match Scan(workbook, s, phrase, engine)
    case Success(data) => data
    case Failure(_) => []
  }

  /** Every step of the scan goes through without raising. */
  ghost predicate ScanSucceeds(workbook: Option<Workbook>, s: ExcelSettings, phrase: string, engine: RegexEngine) {
    && workbook.Some?
    && s.sheetName in workbook.value
    && s.searchColumn in workbook.value[s.sheetName].columns
    && engine.compiles(phrase)
    && Covers(workbook.value[s.sheetName].columns, SelectedColumns(s))
    && SheetColumn !in SelectedColumns(s)
  }

  /** A row is kept exactly when it is one of the sheet's rows and its search value matches. */
  lemma {:induction false} MatchedRowsMembers(rows: seq<Row>, column: string, phrase: string, engine: RegexEngine)
    ensures forall r :: r in MatchedRows(rows, column, phrase, engine) <==> r in rows && RowMatches(engine, phrase, column, r)
  {
    if rows != [] {
      MatchedRowsMembers(rows[1..], column, phrase, engine);
      assert forall r :: r in rows <==> r == rows[0] || r in rows[1..];
    }
  }

  /** Filtering is a left-to-right scan: the kept rows stay in sheet order. */
  lemma {:induction false} MatchedRowsAppend(a: seq<Row>, b: seq<Row>, column: string, phrase: string, engine: RegexEngine)
    ensures MatchedRows(a + b, column, phrase, engine)
         == MatchedRows(a, column, phrase, engine) + MatchedRows(b, column, phrase, engine)
  {
    if a == [] {
      assert a + b == b;
    } else {
      var head := MatchedRows([a[0]], column, phrase, engine);
      assert (a + b)[0] == a[0] && (a + b)[1..] == a[1..] + b;
      MatchedRowsCons(a + b, column, phrase, engine);
      MatchedRowsCons(a, column, phrase, engine);
      MatchedRowsAppend(a[1..], b, column, phrase, engine);
      AppendAssociative(head, MatchedRows(a[1..], column, phrase, engine), MatchedRows(b, column, phrase, engine));
      calc {
        MatchedRows(a + b, column, phrase, engine);
        head + MatchedRows(a[1..] + b, column, phrase, engine);
        head + (MatchedRows(a[1..], column, phrase, engine) + MatchedRows(b, column, phrase, engine));
        (head + MatchedRows(a[1..], column, phrase, engine)) + MatchedRows(b, column, phrase, engine);
      }
    }
  }

  /** The first row is filtered on its own, then the rest. */
  lemma MatchedRowsCons(rows: seq<Row>, column: string, phrase: string, engine: RegexEngine)
    requires rows != []
    ensures MatchedRows(rows, column, phrase, engine)
         == MatchedRows([rows[0]], column, phrase, engine) + MatchedRows(rows[1..], column, phrase, engine)
  {
    var head := if RowMatches(engine, phrase, column, rows[0]) then [rows[0]] else [];
    assert [rows[0]][1..] == [];
    assert MatchedRows([rows[0]], column, phrase, engine) == head + [];
    assert head + [] == head;
  }

  /** The i-th matched row is read back field by field. */
  lemma GetResultRecord(row: Row, sheetName: string, selected: seq<string>)
    requires SheetColumn !in selected
    ensures Keys(ResultRecord(row, sheetName, selected)) == [SheetColumn] + Distinct(selected)
    ensures Get(ResultRecord(row, sheetName, selected), SheetColumn) == Normalise(Text(sheetName))
    ensures forall c :: c in selected ==> Get(ResultRecord(row, sheetName, selected), c) == Normalise(CellAt(row, c))
  {
    var rec := ResultRecord(row, sheetName, selected);
    assert Keys(rec) == [rec[0].key] + Keys(rec[1..]);
    forall c | c in selected
      ensures Get(rec, c) == Normalise(CellAt(row, c))
    {
      GetResultColumn(row, sheetName, selected, c);
    }
  }

  /** A selected column of a result record holds the row's normalised cell. */
  lemma GetResultColumn(row: Row, sheetName: string, selected: seq<string>, c: string)
    requires SheetColumn !in selected && c in selected
    ensures Get(ResultRecord(row, sheetName, selected), c) == Normalise(CellAt(row, c))
  {
    var ks := Distinct(selected);
    var p := Project(row, ks);
    var rec := ResultRecord(row, sheetName, selected);
    assert rec[1..] == p;
    var i :| 0 <= i < |selected| && selected[i] == c;
    assert c in ks;
    assert Get(rec, c) == Get(p, c);
    GetProject(row, ks, c);
  }

  lemma GetProject(row: Row, keys: seq<string>, c: string)
    requires c in keys
    ensures Get(Project(row, keys), c) == Normalise(CellAt(row, c))
  {
    var p := Project(row, keys);
    var i := IndexOf(keys, c);
    assert keys[i] == c;
    assert Get(p, c) == p[i].value;
  }

  /** On the success path the result is one record per matched row. */
  lemma RunRecords(workbook: Option<Workbook>, s: ExcelSettings, phrase: string, engine: RegexEngine)
    requires ScanSucceeds(workbook, s, phrase, engine)
    ensures var matched := MatchedRows(workbook.value[s.sheetName].rows, s.searchColumn, phrase, engine);
      Run(workbook, s, phrase, engine)
        == seq(|matched|, k requires 0 <= k < |matched| => ResultRecord(matched[k], s.sheetName, SelectedColumns(s)))
  {
  }

  /**
   * The result is non-empty exactly when every step succeeds and some row
   * matches; then it holds one record per matched row, in sheet order,
   * tagged with the sheet name and carrying the search column and each
   * additional column.
   */
  lemma RunResult(workbook: Option<Workbook>, s: ExcelSettings, phrase: string, engine: RegexEngine)
    ensures Run(workbook, s, phrase, engine) != [] <==>
      ScanSucceeds(workbook, s, phrase, engine)
      && MatchedRows(workbook.value[s.sheetName].rows, s.searchColumn, phrase, engine) != []
    ensures ScanSucceeds(workbook, s, phrase, engine) ==>
      var matched := MatchedRows(workbook.value[s.sheetName].rows, s.searchColumn, phrase, engine);
      var data := Run(workbook, s, phrase, engine);
      && |data| == |matched|
      && (forall k :: 0 <= k < |data| ==> Keys(data[k]) == [SheetColumn] + Distinct(SelectedColumns(s)))
      && (forall k :: 0 <= k < |data| ==> Get(data[k], SheetColumn) == Normalise(Text(s.sheetName)))
      && (forall k, c :: 0 <= k < |data| && c in [s.searchColumn] + s.additionalColumns ==>
            Get(data[k], c) == Normalise(CellAt(matched[k], c)))
  {
    if ScanSucceeds(workbook, s, phrase, engine) {
      var matched := MatchedRows(workbook.value[s.sheetName].rows, s.searchColumn, phrase, engine);
      var data := Run(workbook, s, phrase, engine);
      var selected := SelectedColumns(s);
      RunRecords(workbook, s, phrase, engine);
      assert |data| == |matched| && forall k :: 0 <= k < |data| ==> data[k] == ResultRecord(matched[k], s.sheetName, selected);
      forall k | 0 <= k < |data|
        ensures Keys(data[k]) == [SheetColumn] + Distinct(selected)
        ensures Get(data[k], SheetColumn) == Normalise(Text(s.sheetName))
        ensures forall c :: c in selected ==> Get(data[k], c) == Normalise(CellAt(matched[k], c))
      {
        GetResultRecord(matched[k], s.sheetName, selected);
      }
    }
  }

  /** The cases that end in no rows: no workbook, no such sheet, no match, or an exception. */
  lemma RunEmptyCases(workbook: Option<Workbook>, s: ExcelSettings, phrase: string, engine: RegexEngine)
    ensures workbook.None? ==> Run(workbook, s, phrase, engine) == []
    ensures workbook.Some? && s.sheetName !in workbook.value ==> Run(workbook, s, phrase, engine) == []
    ensures Scan(workbook, s, phrase, engine).Failure? ==> Run(workbook, s, phrase, engine) == []
    ensures workbook.Some? && s.sheetName in workbook.value &&
            MatchedRows(workbook.value[s.sheetName].rows, s.searchColumn, phrase, engine) == []
            ==> Run(workbook, s, phrase, engine) == []
  {
  }

  /** No result value is an empty string or NaN: both have become None. */
  lemma ResultHasNoEmptyValues(workbook: Option<Workbook>, s: ExcelSettings, phrase: string, engine: RegexEngine)
    ensures forall k, i :: 0 <= k < |Run(workbook, s, phrase, engine)| && 0 <= i < |Run(workbook, s, phrase, engine)[k]| ==>
      Run(workbook, s, phrase, engine)[k][i].value != Some(Text("")) &&
      Run(workbook, s, phrase, engine)[k][i].value != Some(Nan)
  {
    var data: seq<Record> := Run(workbook, s, phrase, engine);
    if data != [] {
      RunResult(workbook, s, phrase, engine);
      var matched := MatchedRows(workbook.value[s.sheetName].rows, s.searchColumn, phrase, engine);
      assert data == seq(|matched|, k requires 0 <= k < |matched| => ResultRecord(matched[k], s.sheetName, SelectedColumns(s)));
      forall k: int | 0 <= k < |data|
        ensures forall i :: 0 <= i < |data[k]| ==> data[k][i].value != Some(Text("")) && data[k][i].value != Some(Nan)
      {
        RecordHasNoEmptyValues(matched[k], s.sheetName, SelectedColumns(s));
      }
    }
  }

  lemma RecordHasNoEmptyValues(row: Row, sheetName: string, selected: seq<string>)
    ensures forall i :: 0 <= i < |ResultRecord(row, sheetName, selected)| ==>
      ResultRecord(row, sheetName, selected)[i].value != Some(Text("")) &&
      ResultRecord(row, sheetName, selected)[i].value != Some(Nan)
  {
    var rec := ResultRecord(row, sheetName, selected);
    var p := Project(row, Distinct(selected));
    assert rec[1..] == p;
    forall i | 0 <= i < |rec|
      ensures rec[i].value != Some(Text("")) && rec[i].value != Some(Nan)
    {
      if i > 0 {
        assert rec[i] == p[i - 1];
      }
    }
  }
}
