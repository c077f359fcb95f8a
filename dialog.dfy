/**
 * The settings dialog ("Search Parameters"): a sheet combo box, a search
 * column combo box and a grid of checkboxes for the additional columns,
 * kept consistent with one another as the user changes the selection.
 * The widgets are modelled by the state they hold: the item list and
 * enabled flag of the search column box, the current texts of both boxes,
 * and the checkbox list with each box's grid cell.
 */
module Dialog {
  import opened Wrappers
  import opened Lists
  import opened Settings

  /** The sheets of the loaded file in workbook order, and each sheet's column headers. */
  datatype Catalog = Catalog(names: seq<string>, columns: map<string, seq<string>>)

  /** A catalog read from a dict: sheet names are unique and each one has its columns. */
  ghost predicate WellFormed(cat: Catalog) {
    NoDuplicates(cat.names) && forall n :: n in cat.names <==> n in cat.columns
  }

  /** pandas makes the headers of one sheet unique. */
  ghost predicate HeadersDistinct(cat: Catalog) {
    forall n :: n in cat.columns ==> NoDuplicates(cat.columns[n])
  }

  const NoColumnsPlaceholder := "No columns available"

  /** The columns of `sheet`, or none when the name is empty or unknown. */
  function SheetColumns(cat: Catalog, sheet: string): seq<string> {
    if sheet != "" && sheet in cat.columns then cat.columns[sheet] else []
  }

  datatype SearchColumnBox = SearchColumnBox(items: seq<string>, enabled: bool)

  /**
   * What the search column box offers for `sheet`: the sheet's columns,
   * enabled exactly when there are some; except that a file with a single
   * sheet and nothing to offer gets one enabled placeholder item.
   */
  function SearchColumnChoices(cat: Catalog, sheet: string): (box: SearchColumnBox)
    ensures box.enabled <==> box.items != []
    ensures SheetColumns(cat, sheet) != [] ==> box.items == SheetColumns(cat, sheet)
  {
    var cols := SheetColumns(cat, sheet);
    if cols != [] then SearchColumnBox(cols, true)
    else if |cat.names| == 1 then SearchColumnBox([NoColumnsPlaceholder], true)
    else SearchColumnBox([], false)
  }

  /** The additional columns offered: the sheet's columns less the first copy of the search column. */
  function AdditionalCandidates(cat: Catalog, sheet: string, searchColumn: string): (cands: seq<string>)
    ensures |cands| == |SheetColumns(cat, sheet)| - if searchColumn in SheetColumns(cat, sheet) then 1 else 0
    ensures forall i :: 0 <= i < |cands| ==> cands[i] in SheetColumns(cat, sheet)
  {
    RemoveFirst(SheetColumns(cat, sheet), searchColumn)
  }

  datatype Checkbox = Checkbox(text: string, checked: bool, row: nat, col: nat)

  function Texts(boxes: seq<Checkbox>): (ts: seq<string>)
    ensures |ts| == |boxes| && forall k :: 0 <= k < |boxes| ==> ts[k] == boxes[k].text
  {
    MapSeq(boxes, (b: Checkbox) => b.text)
  }

  /** The k-th checkbox sits in row k div 3, column k mod 3 of the grid. */
  ghost predicate InGrid(boxes: seq<Checkbox>) {
    forall k :: 0 <= k < |boxes| ==> boxes[k].row == k / 3 && boxes[k].col == k % 3
  }

  /** The texts of the checked boxes, in checkbox order. */
  function CheckedTexts(boxes: seq<Checkbox>): (ts: seq<string>)
    ensures |ts| <= |boxes|
    ensures forall i :: 0 <= i < |ts| ==> ts[i] in Texts(boxes)
    decreases |boxes|
  {
    if boxes == [] then []
    else
      var init, last := boxes[..|boxes| - 1], boxes[|boxes| - 1];
      assert forall k :: 0 <= k < |init| ==> Texts(init)[k] == Texts(boxes)[k];
      assert Texts(boxes)[|boxes| - 1] == last.text;
      CheckedTexts(init) + if last.checked then [last.text] else []
  }

  /** The checkbox loop of `update_additional_columns`, with its row and column counters. */
  method LayOutCheckboxes(columns: seq<string>) returns (boxes: seq<Checkbox>)
    ensures Texts(boxes) == columns
    ensures forall k :: 0 <= k < |boxes| ==> !boxes[k].checked
    ensures forall k :: 0 <= k < |boxes| ==> boxes[k].row == k / 3 && boxes[k].col == k % 3
  {
    boxes := [];
    var row, col := 0, 0;
    for i := 0 to |columns|
      invariant |boxes| == i
      invariant forall k :: 0 <= k < i ==> boxes[k] == Checkbox(columns[k], false, k / 3, k % 3)
      invariant row == i / 3 && col == i % 3
    {
      boxes := boxes + [Checkbox(columns[i], false, row, col)];
      col := col + 1;
      if col == 3 {
        col := 0;
        row := row + 1;
      }
    }
  }

  class SettingsDialog {
    const catalog: Catalog
    var sheetText: string
    var searchItems: seq<string>
    var searchEnabled: bool
    var searchText: string
    var checkboxes: seq<Checkbox>

    /** The sheet box always shows one of the file's sheets, if it has any. */
    ghost predicate SheetChosen()
      reads this
    {
      WellFormed(catalog)
      && (catalog.names == [] ==> sheetText == "")
      && (catalog.names != [] ==> sheetText in catalog.names)
    }

    /** The search column box shows what the chosen sheet offers, its current text one of its items. */
    ghost predicate ChoicesValid()
      reads this
    {
      SheetChosen()
      && SearchColumnBox(searchItems, searchEnabled) == SearchColumnChoices(catalog, sheetText)
      && (searchItems == [] ==> searchText == "")
      && (searchItems != [] ==> searchText in searchItems)
    }

    ghost predicate Valid()
      reads this
    {
      ChoicesValid()
      && Texts(checkboxes) == AdditionalCandidates(catalog, sheetText, searchText)
      && InGrid(checkboxes)
    }

    /**
     * Opening the dialog: the sheet box lists the file's sheets and selects
     * the current settings' sheet when it is one of them; the previous search
     * column and additional columns are not restored.
     */
    constructor (settings: ExcelSettings, catalog: Catalog)
      requires WellFormed(catalog)
      ensures Valid()
      ensures this.catalog == catalog
      ensures sheetText == if settings.sheetName in catalog.names then settings.sheetName
                           else if catalog.names == [] then "" else catalog.names[0]
      ensures searchText == if searchItems == [] then "" else searchItems[0]
      ensures forall k :: 0 <= k < |checkboxes| ==> !checkboxes[k].checked
    {
      this.catalog := catalog;
      sheetText := if settings.sheetName in catalog.names then settings.sheetName
                   else if catalog.names == [] then "" else catalog.names[0];
      searchItems, searchEnabled, searchText := [], true, "";
      checkboxes := [];
      new;
      UpdateSearchColumns(sheetText);
      UpdateAdditionalColumns(searchText);
    }

    /**
     * `update_search_columns`: refill the search column box for the chosen
     * sheet and select its first item. The box's change signal rebuilds the
     * checkboxes each time its current text changes; every rebuild replaces
     * all checkboxes, so the final state is that of one rebuild for the
     * final current text.
     */
    method UpdateSearchColumns(sheetName: string)
      requires SheetChosen() && sheetName == sheetText
      modifies this`searchItems, this`searchEnabled, this`searchText, this`checkboxes
      ensures Valid()
      ensures SearchColumnBox(searchItems, searchEnabled) == SearchColumnChoices(catalog, sheetName)
      ensures searchText == if searchItems == [] then "" else searchItems[0]
      ensures forall k :: 0 <= k < |checkboxes| ==> !checkboxes[k].checked
    {
      searchItems := [];
      if sheetName != "" && sheetName in catalog.columns {
        searchEnabled := true;
        searchItems := searchItems + catalog.columns[sheetName];
      }
      if |searchItems| == 0 {
        searchEnabled := false;
      }
      if !searchEnabled && |catalog.names| == 1 {
        searchEnabled := true;
        searchItems := searchItems + [NoColumnsPlaceholder];
      }
      assert SearchColumnBox(searchItems, searchEnabled) == SearchColumnChoices(catalog, sheetName) by {
        SearchColumnBoxCases(catalog, sheetName);
      }
      searchText := if searchItems == [] then "" else searchItems[0];
      UpdateAdditionalColumns(searchText);
    }

    /** `update_additional_columns`: one fresh, unchecked checkbox per candidate column. */
    method UpdateAdditionalColumns(searchColumn: string)
      requires ChoicesValid() && searchColumn == searchText
      modifies this`checkboxes
      ensures Valid()
      ensures Texts(checkboxes) == AdditionalCandidates(catalog, sheetText, searchColumn)
      ensures forall k :: 0 <= k < |checkboxes| ==> !checkboxes[k].checked
    {
      var columns := AdditionalCandidates(catalog, sheetText, searchColumn);
      checkboxes := LayOutCheckboxes(columns);
    }

    /** The user picks another sheet. */
    method SelectSheet(name: string)
      requires Valid() && name in catalog.names
      modifies this`sheetText, this`searchItems, this`searchEnabled, this`searchText, this`checkboxes
      ensures Valid() && sheetText == name
      ensures name != old(sheetText) ==> searchText == if searchItems == [] then "" else searchItems[0]
      ensures name != old(sheetText) ==> forall k :: 0 <= k < |checkboxes| ==> !checkboxes[k].checked
      ensures name == old(sheetText) ==> unchanged(this)
    {
      if name != sheetText {
        sheetText := name;
        UpdateSearchColumns(name);
      }
    }

    /** The user picks another search column from the offered items. */
    method SelectSearchColumn(column: string)
      requires Valid() && column in searchItems
      modifies this`searchText, this`checkboxes
      ensures Valid() && searchText == column
      ensures column != old(searchText) ==> forall k :: 0 <= k < |checkboxes| ==> !checkboxes[k].checked
      ensures column == old(searchText) ==> unchanged(this)
    {
      if column != searchText {
        searchText := column;
        UpdateAdditionalColumns(column);
      }
    }

    /** The user ticks or clears the k-th checkbox. */
    method SetChecked(k: nat, checked: bool)
      requires Valid() && k < |checkboxes|
      modifies this`checkboxes
      ensures Valid()
      ensures checkboxes == old(checkboxes)[k := old(checkboxes)[k].(checked := checked)]
    {
      ToggleKeepsLayout(checkboxes, k, checked);
      checkboxes := checkboxes[k := checkboxes[k].(checked := checked)];
    }

    /**
     * OK: refuse when no sheet or no search column is chosen; otherwise emit
     * new settings with the chosen sheet, search column and the texts of the
     * checked boxes in checkbox order.
     */
    method Accept() returns (emitted: Option<ExcelSettings>)
      ensures emitted == None <==> sheetText == "" || searchText == ""
      ensures emitted.Some? ==> emitted.value == ExcelSettings(sheetText, searchText, CheckedTexts(checkboxes))
      ensures Valid() && HeadersDistinct(catalog) && emitted.Some? ==>
        && emitted.value.sheetName in catalog.columns
        && NoDuplicates(emitted.value.additionalColumns)
        && forall c :: c in emitted.value.additionalColumns ==>
             c in catalog.columns[emitted.value.sheetName] && c != emitted.value.searchColumn
    {
      var additional := [];
      var i := 0;
      while i < |checkboxes|
        invariant 0 <= i <= |checkboxes|
        invariant additional == CheckedTexts(checkboxes[..i])
      {
        assert checkboxes[..i + 1][..i] == checkboxes[..i];
        if checkboxes[i].checked {
          additional := additional + [checkboxes[i].text];
        }
        i := i + 1;
      }
      assert checkboxes[..|checkboxes|] == checkboxes;
      if sheetText == "" || searchText == "" {
        emitted := None;
      } else {
        emitted := Some(ExcelSettings(sheetText, searchText, additional));
        if Valid() && HeadersDistinct(catalog) {
          AcceptedColumnsAreCandidates(catalog, sheetText, searchText, checkboxes);
        }
      }
    }
  }

  /** Ticking or clearing a box moves no box and renames none. */
  lemma ToggleKeepsLayout(boxes: seq<Checkbox>, k: nat, checked: bool)
    requires k < |boxes|
    ensures Texts(boxes[k := boxes[k].(checked := checked)]) == Texts(boxes)
    ensures InGrid(boxes) ==> InGrid(boxes[k := boxes[k].(checked := checked)])
  {
    var after := boxes[k := boxes[k].(checked := checked)];
    assert forall i :: 0 <= i < |after| ==> after[i].text == boxes[i].text;
  }

  /** A column is among the checked texts exactly when some checked box carries it. */
  lemma {:induction false} CheckedTextsMembers(boxes: seq<Checkbox>)
    ensures forall t :: t in CheckedTexts(boxes) <==> exists k :: 0 <= k < |boxes| && boxes[k].checked && boxes[k].text == t
    decreases |boxes|
  {
    if boxes != [] {
      var init := boxes[..|boxes| - 1];
      CheckedTextsMembers(init);
      assert forall k :: 0 <= k < |init| ==> init[k] == boxes[k];
    }
  }

  /** Boxes with distinct texts give checked texts without repeats. */
  lemma {:induction false} CheckedTextsDistinct(boxes: seq<Checkbox>)
    requires NoDuplicates(Texts(boxes))
    ensures NoDuplicates(CheckedTexts(boxes))
    decreases |boxes|
  {
    if boxes != [] {
      var init, last := boxes[..|boxes| - 1], boxes[|boxes| - 1];
      assert Texts(init) == Texts(boxes)[..|boxes| - 1];
      CheckedTextsDistinct(init);
      if last.checked {
        forall k | 0 <= k < |init|
          ensures init[k].text != last.text
        {
          assert Texts(boxes)[k] == init[k].text && Texts(boxes)[|boxes| - 1] == last.text;
        }
        CheckedTextsMembers(init);
        AppendFresh(CheckedTexts(init), last.text);
      }
    }
  }

  /**
   * The three cases of the search column box: a sheet with columns offers
   * them, enabled; otherwise a single-sheet file gets the placeholder alone,
   * enabled; otherwise the box is empty and disabled.
   */
  lemma SearchColumnBoxCases(cat: Catalog, sheet: string)
    ensures SheetColumns(cat, sheet) != [] ==>
      SearchColumnChoices(cat, sheet) == SearchColumnBox(cat.columns[sheet], true)
    ensures SheetColumns(cat, sheet) == [] && |cat.names| == 1 ==>
      SearchColumnChoices(cat, sheet) == SearchColumnBox([NoColumnsPlaceholder], true)
    ensures SheetColumns(cat, sheet) == [] && |cat.names| != 1 ==>
      SearchColumnChoices(cat, sheet) == SearchColumnBox([], false)
  {
  }

  /** An unknown sheet offers no additional columns; a search column the sheet lacks removes nothing. */
  lemma CandidatesOfMissing(cat: Catalog, sheet: string, searchColumn: string)
    ensures sheet == "" || sheet !in cat.columns ==> AdditionalCandidates(cat, sheet, searchColumn) == []
    ensures sheet != "" && sheet in cat.columns && searchColumn !in cat.columns[sheet] ==>
      AdditionalCandidates(cat, sheet, searchColumn) == cat.columns[sheet]
  {
  }

  /** The additional columns offered for a known sheet are exactly its other columns, in sheet order. */
  lemma CandidatesAreOtherColumns(cat: Catalog, sheet: string, searchColumn: string)
    requires sheet != "" && sheet in cat.columns && NoDuplicates(cat.columns[sheet])
    ensures NoDuplicates(AdditionalCandidates(cat, sheet, searchColumn))
    ensures forall c :: c in AdditionalCandidates(cat, sheet, searchColumn) <==>
                        c in cat.columns[sheet] && c != searchColumn
  {
    RemoveFirstOfDistinct(cat.columns[sheet], searchColumn);
  }

  /** What Accept emits keeps the settings invariant: distinct columns of the sheet, other than the search column. */
  lemma AcceptedColumnsAreCandidates(cat: Catalog, sheet: string, searchColumn: string, boxes: seq<Checkbox>)
    requires sheet != "" && sheet in cat.columns && HeadersDistinct(cat)
    requires Texts(boxes) == AdditionalCandidates(cat, sheet, searchColumn)
    ensures NoDuplicates(CheckedTexts(boxes))
    ensures forall c :: c in CheckedTexts(boxes) ==> c in cat.columns[sheet] && c != searchColumn
  {
    CandidatesAreOtherColumns(cat, sheet, searchColumn);
    CheckedTextsDistinct(boxes);
    CheckedTextsMembers(boxes);
    forall c | c in CheckedTexts(boxes)
      ensures c in cat.columns[sheet] && c != searchColumn
    {
      var k :| 0 <= k < |boxes| && boxes[k].checked && boxes[k].text == c;
      assert Texts(boxes)[k] == c;
    }
  }

  /** No two checkboxes share a grid cell, and every cell lies in one of the three grid columns. */
  lemma GridCellsDistinct(boxes: seq<Checkbox>)
    requires InGrid(boxes)
    ensures forall k :: 0 <= k < |boxes| ==> boxes[k].col < 3 && 3 * boxes[k].row + boxes[k].col == k
    ensures forall j, k :: 0 <= j < k < |boxes| ==> (boxes[j].row, boxes[j].col) != (boxes[k].row, boxes[k].col)
  {
    forall j, k | 0 <= j < k < |boxes|
      ensures (boxes[j].row, boxes[j].col) != (boxes[k].row, boxes[k].col)
    {
      assert 3 * (j / 3) + j % 3 == j && 3 * (k / 3) + k % 3 == k;
    }
  }
}
