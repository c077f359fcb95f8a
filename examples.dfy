/**
 * Three worked cases: a search that keeps one row of an inventory sheet,
 * an export that collapses a repeated row, and an export that collapses a
 * Qty of 1 and a Qty of True into one row.
 */
module Examples {
  import opened Wrappers
  import opened Lists
  import opened Cells
  import opened Settings
  import opened Search
  import opened App

  function Lower(c: char): char {
    if 'A' <= c <= 'Z' then (c as int + 32) as char else c
  }

  function LowerString(s: string): (r: string)
    ensures |r| == |s| && forall i :: 0 <= i < |s| ==> r[i] == Lower(s[i])
  {
    if s == [] then [] else [Lower(s[0])] + LowerString(s[1..])
  }

  /** Whether `p` occurs in `t` starting at some position. */
  function Occurs(p: string, t: string): bool
    decreases |t|
  {
    if |t| < |p| then false else t[..|p|] == p || Occurs(p, t[1..])
  }

  /**
   * A pattern without metacharacters matches, ignoring case, exactly where
   * it occurs as text; this engine stands for `re` on such patterns.
   */
  const PlainTextEngine := RegexEngine(p => true, (p, t) => Occurs(LowerString(p), LowerString(t)))

  const InventorySettings := ExcelSettings("Inventory", "SKU", ["Qty"])

  const InventoryRows: seq<Row> := [map["SKU" := Text("AB12"), "Qty" := Int(5)], map["SKU" := Text("cd99"), "Qty" := Int(2)]]

  const InventoryBook: Workbook := map["Inventory" := Sheet(["SKU", "Qty"], InventoryRows)]

  const InventoryResult: Record := [Field("Sheet", Some(Text("Inventory"))), Field("SKU", Some(Text("AB12"))), Field("Qty", Some(Int(5)))]

  /**
   * Phrase "ab", with any engine that finds "ab" in "AB12" but not in
   * "cd99", keeps the AB12 row only, tagged with its sheet, carrying SKU
   * and Qty.
   */
  lemma InventorySearch(engine: RegexEngine)
    requires engine.compiles("ab") && engine.search("ab", "AB12") && !engine.search("ab", "cd99")
    ensures Run(Some(InventoryBook), InventorySettings, "ab", engine) == [InventoryResult]
  {
    InventoryScanSucceeds(engine);
    InventoryMatched(engine);
    SingleMatchRun(Some(InventoryBook), InventorySettings, "ab", engine, InventoryRows[0]);
    InventoryColumns();
    InventoryRecord();
  }

  lemma InventoryScanSucceeds(engine: RegexEngine)
    requires engine.compiles("ab")
    ensures ScanSucceeds(Some(InventoryBook), InventorySettings, "ab", engine)
    ensures Some(InventoryBook).value[InventorySettings.sheetName].rows == InventoryRows
  {
    InventoryColumns();
    assert InventoryBook["Inventory"].columns == ["SKU", "Qty"];
  }

  lemma InventoryMatched(engine: RegexEngine)
    requires engine.search("ab", "AB12") && !engine.search("ab", "cd99")
    ensures MatchedRows(InventoryRows, "SKU", "ab", engine) == [InventoryRows[0]]
  {
    assert InventoryRows[1..][1..] == [];
    assert MatchedRows(InventoryRows[1..], "SKU", "ab", engine) == [];
  }

  /** A scan that goes through and keeps one row yields that row's record alone. */
  lemma SingleMatchRun(workbook: Option<Workbook>, s: ExcelSettings, phrase: string, engine: RegexEngine, r: Row)
    requires ScanSucceeds(workbook, s, phrase, engine)
    requires MatchedRows(workbook.value[s.sheetName].rows, s.searchColumn, phrase, engine) == [r]
    ensures Run(workbook, s, phrase, engine) == [ResultRecord(r, s.sheetName, SelectedColumns(s))]
  {
    RunRecords(workbook, s, phrase, engine);
  }

  /** Case-insensitive text search is such an engine. */
  lemma PlainTextEngineOnInventory()
    ensures PlainTextEngine.compiles("ab")
    ensures PlainTextEngine.search("ab", "AB12") && !PlainTextEngine.search("ab", "cd99")
  {
    assert LowerString("ab") == "ab" by { assert "ab"[1..] == "b"; }
    assert LowerString("AB12") == "ab12" by { assert "AB12"[1..] == "B12" && "B12"[1..] == "12" && "12"[1..] == "2"; }
    assert LowerString("cd99") == "cd99" by { assert "cd99"[1..] == "d99" && "d99"[1..] == "99" && "99"[1..] == "9"; }
    assert "ab12"[..2] == "ab";
    assert !Occurs("ab", "cd99") by {
      assert "cd99"[1..] == "d99" && "d99"[1..] == "99" && "99"[1..] == "9";
      assert "cd99"[..2] != "ab" && "d99"[..2] != "ab" && "99"[..2] != "ab";
    }
  }

  /** With case-insensitive text search, phrase "ab" finds the AB12 row. */
  lemma PlainTextInventorySearch()
    ensures Run(Some(InventoryBook), InventorySettings, "ab", PlainTextEngine) == [InventoryResult]
  {
    PlainTextEngineOnInventory();
    InventorySearch(PlainTextEngine);
  }

  lemma InventoryRecord()
    ensures ResultRecord(InventoryRows[0], "Inventory", ["SKU", "SKU", "Qty"]) == InventoryResult
  {
    InventoryColumns();
    InventoryProjection();
  }

  lemma InventoryProjection()
    ensures Project(InventoryRows[0], ["SKU", "Qty"]) == [Field("SKU", Some(Text("AB12"))), Field("Qty", Some(Int(5)))]
  {
    var row := InventoryRows[0];
    assert row["SKU"] == Text("AB12") && row["Qty"] == Int(5);
    assert ["SKU", "Qty"][1..] == ["Qty"] && ["Qty"][1..] == [];
    assert Project(row, ["Qty"]) == [Field("Qty", Some(Int(5)))];
  }

  lemma InventoryColumns()
    ensures SelectedColumns(InventorySettings) == ["SKU", "SKU", "Qty"]
    ensures Distinct(["SKU", "SKU", "Qty"]) == ["SKU", "Qty"]
  {
    var sel := ["SKU", "SKU", "Qty"];
    assert sel[..2] == ["SKU", "SKU"] && sel[..2][..1] == ["SKU"];
    assert ["SKU"][..0] == [];
  }

  /** A search record of sheet A for SKU x whose Qty is `qty`. */
  function QtyRecord(qty: Value): (r: Record)
    ensures Keys(r) == ["Sheet", "SKU", "Qty"]
  {
    var r := [Field("Sheet", Some(Text("A"))), Field("SKU", Some(Text("x"))), Field("Qty", Some(qty))];
    assert r[1..] == [Field("SKU", Some(Text("x"))), Field("Qty", Some(qty))];
    assert r[1..][1..] == [Field("Qty", Some(qty))];
    r
  }

  lemma QtyRow(qty: Value)
    ensures RowOf(QtyRecord(qty), ["Sheet", "SKU", "Qty"]) == [Some(Text("A")), Some(Text("x")), Some(qty)]
  {
    var rec, cols := QtyRecord(qty), ["Sheet", "SKU", "Qty"];
    assert rec[1..] == [Field("SKU", Some(Text("x"))), Field("Qty", Some(qty))];
    assert rec[1..][1..] == [Field("Qty", Some(qty))];
    assert cols[..1] == ["Sheet"] && cols[..2] == ["Sheet", "SKU"];
    IndexOfUnique(cols, "Sheet", 0);
    IndexOfUnique(cols, "SKU", 1);
    IndexOfUnique(cols, "Qty", 2);
  }

  lemma ExportHeader()
    ensures DisplayColumns(InventorySettings) == ["Sheet", "SKU", "Qty"]
    ensures NoDuplicates(["Sheet", "SKU", "Qty"])
  {
  }

  /** Two identical records export as one row under the display columns. */
  lemma ExportCollapsesRepeatedRow()
    ensures Export([QtyRecord(Int(1)), QtyRecord(Int(1))], InventorySettings, "out.xlsx")
         == Written(["Sheet", "SKU", "Qty"], [[Some(Text("A")), Some(Text("x")), Some(Int(1))]])
  {
    ExportHeader();
    QtyRow(Int(1));
    ExportOfEqualPair(QtyRecord(Int(1)), QtyRecord(Int(1)), ["Sheet", "SKU", "Qty"], InventorySettings, "out.xlsx");
  }

  /**
   * Records differing only in a Qty of 1 and of True are equal rows to
   * `drop_duplicates`, since `1 == True`: only the first is written.
   */
  lemma ExportMergesOneAndTrue()
    ensures Export([QtyRecord(Int(1)), QtyRecord(Bool(true))], InventorySettings, "out.xlsx")
         == Written(["Sheet", "SKU", "Qty"], [[Some(Text("A")), Some(Text("x")), Some(Int(1))]])
  {
    var cols := ["Sheet", "SKU", "Qty"];
    ExportHeader();
    QtyRow(Int(1));
    QtyRow(Bool(true));
    OneAndTrueRowKeys();
    ExportOfEqualPair(QtyRecord(Int(1)), QtyRecord(Bool(true)), cols, InventorySettings, "out.xlsx");
  }

  /** The rows of a Qty of 1 and of True have the same key, cell by cell. */
  lemma OneAndTrueRowKeys()
    ensures RowKey([Some(Text("A")), Some(Text("x")), Some(Int(1))])
         == RowKey([Some(Text("A")), Some(Text("x")), Some(Bool(true))])
  {
    var one, yes := RowKey([Some(Text("A")), Some(Text("x")), Some(Int(1))]), RowKey([Some(Text("A")), Some(Text("x")), Some(Bool(true))]);
    assert one[2] == PyKey(Some(Bool(true))) == yes[2];
    assert one[0] == yes[0] && one[1] == yes[1];
  }

  /** `astype(str)` prints 12 as "12" and -5 as "-5", so the phrase "12" finds the cell 12. */
  lemma StrOfNumbers()
    ensures Str(Int(12)) == "12" && Str(Int(-5)) == "-5" && Str(Int(0)) == "0"
  {
    assert NatToDecimal(12) == NatToDecimal(1) + [DigitChar(2)];
  }
}
