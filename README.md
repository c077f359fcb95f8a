# Excel Search: a verified model of its decision logic

Excel Search is a desktop tool for searching one sheet of a spreadsheet. The user:

1. picks a file;
2. picks, in the "Search Parameters" dialog, a sheet, a search column and any additional columns;
3. types a phrase.

A background search keeps the rows whose search-column value matches the phrase, ignoring case. It tags each kept row with its sheet name and shows the rows in a table. The table can be exported, without repeated rows, to a new workbook.

The project models the logic under the widgets, in Dafny:

- `wrappers.dfy` (`Wrappers`): `Option` and `Result`.
- `lists.dfy` (`Lists`): the Python list and dict behaviour the program leans on.
  - `RemoveFirst` is `list.remove` behind the `if ... in ...` guard that comes before it (`excel_search.py:103`). It drops the first copy only. `list.remove` itself raises on an absent value; the guard skips the call then, and the model returns the list unchanged.
  - `Distinct` keeps the first copy of each element, in order of first occurrence. This is what dict keys do with repeated column names, and what `pd.DataFrame(records)` does with the union of the records' keys.
  - `DistinctBy` keeps the first element of each class of a key function. With the key `App.RowKey`, the classes are the rows equal under Python's `==`, and `DistinctBy` is `drop_duplicates`.
- `cells.dfy` (`Cells`): cell values, `str()` of a value, the replacement of NaN and empty strings by None, Python's `==` between cells (`PyKey`: `True == 1` and `False == 0`), and result rows as insertion-ordered dicts read with `dict.get`. The sheet is read with `keep_default_na=False`, so an empty cell arrives as the empty string `Text("")`. `Nan` stands for an error cell such as `#N/A` or `#DIV/0!`, which the reader delivers as `np.nan` whatever that flag says; `str()` prints it as "nan", which can match a phrase, and the replacement at `excel_search.py:178` turns it into None.
- `settings.dfy` (`Settings`): the `ExcelSettings` record.
- `dialog.dfy` (`Dialog`): the settings dialog as a class over the state its widgets hold.
  - The sheet box's current text.
  - The search column box's items, enabled flag and current text.
  - The checkbox list, each box with its text, its checked flag and its grid cell.
  - Its methods model `update_search_columns`, `update_additional_columns` and `accept`, together with the user's picks and ticks.
- `search.dfy` (`Search`): `SearchThread.run` as a function from the workbook (or its absence), the settings, the phrase and a regular-expression engine to the list the completion signal carries. The exceptions the body can raise are an error datatype, and each of them becomes the empty list.
- `app.dfy` (`App`): the main window as a class.
  - It holds the file path, the settings, a `running` flag, a log of the searches started, the last results, the table headers and the table (a two-dimensional array).
  - The search-start guard, the table fill and the export step are its methods.
  - `Export` models `export_to_excel` up to the write.
- `examples.dfy` (`Examples`): three worked cases.
  - A search over an inventory sheet that keeps one row.
  - An export that collapses two identical records into one row.
  - An export that collapses a Qty of 1 and a Qty of True into one row.

## Model

| member | source | states |
|---|---|---|
| Dialog.SearchColumnChoices | excel_search.py:77-89 | the box is enabled exactly when it has items; a sheet with columns offers those columns |
| Dialog.SearchColumnBoxCases | excel_search.py:77-89 | exactly three cases: a sheet with columns offers them, enabled; a one-sheet file whose sheet has none offers the single "No columns available" item, enabled; otherwise the box is empty and disabled |
| Dialog.SettingsDialog.UpdateSearchColumns | excel_search.py:75-89 | the search column box offers what the chosen sheet offers, its first item is current, and the checkboxes are rebuilt for it, all unchecked; the dialog invariant holds afterwards |
| Dialog.AdditionalCandidates | excel_search.py:100-104 | every candidate is a column of the sheet; when the search column is among the sheet's columns, there is exactly one candidate fewer |
| Dialog.CandidatesAreOtherColumns | excel_search.py:100-104 | for a known sheet with distinct headers, the candidates are exactly the sheet's columns other than the search column, with no repeats |
| Dialog.CandidatesOfMissing | excel_search.py:100-104 | an unknown or empty sheet name offers no candidates; a search column the sheet lacks removes nothing |
| Lists.RemoveFirst | excel_search.py:103-104 | the list is unchanged when the value is absent, which the guard ensures; otherwise exactly the first copy is cut out |
| Lists.RemoveFirstOfDistinct | excel_search.py:103-104 | on a list without repeats, removing a value leaves no repeats and keeps exactly the other elements |
| Dialog.SettingsDialog.UpdateAdditionalColumns | excel_search.py:91-121 | one fresh, unchecked checkbox per candidate column, in candidate order, each in its grid cell |
| Dialog.LayOutCheckboxes | excel_search.py:106-118 | the loop with its row and column counters creates one unchecked box per column, in order, the k-th in row k div 3, column k mod 3 |
| Dialog.GridCellsDistinct | excel_search.py:107-118 | grid columns stay in 0..2, boxes fill the grid row by row, and no two boxes share a cell |
| Dialog.SettingsDialog.SetChecked | excel_search.py:127-128 | ticking or clearing one box changes only that box's flag and keeps the dialog invariant |
| Dialog.SettingsDialog.SelectSheet | excel_search.py:68 | picking a different sheet rebuilds the search column box and resets its current text to the first offered item (or "" when it offers none), then rebuilds the checkboxes; picking the current one changes nothing |
| Dialog.SettingsDialog.SelectSearchColumn | excel_search.py:69 | picking a different offered search column rebuilds the checkboxes for it; picking the current one changes nothing |
| Dialog.SettingsDialog.constructor | excel_search.py:25-73 | the sheet box selects the settings' sheet when the file has it and the first sheet otherwise; the search column box then shows its first item, so the previous search column is not restored |
| Dialog.CheckedTexts | excel_search.py:127-129 | the collected texts are no more than the boxes and each is the text of some box |
| Dialog.CheckedTextsMembers | excel_search.py:127-129 | a text is collected exactly when some checked box carries it |
| Dialog.CheckedTextsDistinct | excel_search.py:127-129 | boxes with distinct texts yield collected texts without repeats |
| Dialog.SettingsDialog.Accept | excel_search.py:123-139 | nothing is emitted exactly when the sheet or the search column is empty; otherwise the emitted settings carry them and the checked texts in checkbox order, and those texts are distinct columns of the sheet other than the search column |
| Dialog.AcceptedColumnsAreCandidates | excel_search.py:127-137 | every additional column accepted is a column of the chosen sheet other than the search column, and none is listed twice |
| App.ExcelSearchApp.constructor | excel_search.py:280-283 | a new window has no file path, the default settings, no running search and no results |
| App.ExcelSearchApp.ChooseFile | excel_search.py:355-358 | a chosen file replaces the path; a cancelled dialog keeps the previous one |
| App.ExcelSearchApp.ConfirmSettings | excel_search.py:377-378 | settings are replaced wholesale by what the dialog emits and kept when it emits nothing |
| App.ExcelSearchApp.SearchExcel | excel_search.py:380-401 | refusals in order (no file, empty phrase, search running) change nothing; otherwise the results and the table are cleared and exactly one search is started with the current path, settings and phrase |
| Cells.NatToDecimal | excel_search.py:167 | `str()` of a non-negative integer is a canonical decimal numeral (digits only, no leading zero) whose value, read left to right, is the integer |
| Cells.Str | excel_search.py:167 | `str()` of a cell is empty exactly for the empty string; text prints as itself, a boolean as "True" or "False", an error cell as "nan", and an integer as a minus sign exactly when it is negative followed by the canonical numeral of its magnitude |
| Cells.StrOfIntInjective | excel_search.py:167 | two integers print alike only when they are equal |
| Search.RunRecords | excel_search.py:161-181 | on the path where no step raises, the result is one record per matched row, in order, each the matched row projected onto the selected columns and tagged with the sheet |
| Search.MatchedRows | excel_search.py:167 | the kept rows are no more than the sheet's rows, and each is a sheet row whose stringified search value matches |
| Search.MatchedRowsMembers | excel_search.py:167 | a row is kept exactly when it is a sheet row whose stringified search value matches |
| Search.MatchedRowsAppend | excel_search.py:167 | filtering distributes over concatenation, so kept rows stay in sheet order |
| Search.SelectedColumns | excel_search.py:163-171 | the selection lists the search column twice, at its first two places, followed by exactly the additional columns in order |
| Cells.Normalise | excel_search.py:178 | a cell becomes None exactly when it is an error cell (NaN) or the empty string, and keeps its value otherwise |
| Search.Project | excel_search.py:171-178 | the projected row has exactly the given keys, each holding the row's normalised value |
| Search.ResultRecord | excel_search.py:171-181 | a result row's keys are Sheet then each selected column once; Sheet holds the (normalised) sheet name and every other field the row's normalised value under its key |
| Search.GetResultRecord | excel_search.py:171-181 | read with `get`, a result row gives the sheet under Sheet and the row's normalised cell under each selected column |
| Search.GetResultColumn | excel_search.py:171-178 | a selected column of a result row holds the row's cell with NaN and empty values turned into None |
| Search.Scan | excel_search.py:157-181 | an unreadable file is the only cause of the first error; a missing sheet raises nothing; a bad pattern is raised only on a known sheet; a non-empty success means every step went through, with one record per matched row |
| Search.Run | excel_search.py:157-186 | a non-empty result is the successful scan's list, and every step of the scan went through |
| Search.RunResult | excel_search.py:157-186 | the result is non-empty exactly when every step goes through and some row matches; then it has one row per match, in order, tagged with the sheet, with the search and additional columns read from the matched row |
| Search.RunEmptyCases | excel_search.py:161-186 | no workbook, a missing sheet, no matching row or any raised exception all give the empty list |
| Search.ResultHasNoEmptyValues | excel_search.py:178 | no value of any result row is an empty string or NaN |
| App.ExcelSearchApp.CompleteSearch | excel_search.py:183-186 | the running search ends; its result is computed from the workbook at the path the search was started with, and from that search's settings and phrase, and is handed to the display |
| App.DisplayColumns | excel_search.py:411 | the display columns are Sheet, then the search column, then the additional columns, one more than the settings name |
| App.ExcelSearchApp.DisplaySearchResults | excel_search.py:403-427 | the results are kept; an empty list shows no table; otherwise the headers are the current display columns and cell (r, c) shows str of row r's value under header c |
| Cells.Get | excel_search.py:425 | `get` gives the value under the first field with that key, and None when no field has it |
| Cells.Show | excel_search.py:426 | the cell text is "None" exactly for None or the string "None"; a string shows as itself |
| App.RowTexts | excel_search.py:424-426 | one text per display column, the string form of the record's `get` under that column |
| App.FillTable | excel_search.py:423-427 | the nested loops fill a grid of the results' size whose every cell is the string form of `row.get(column)` |
| App.FillRow | excel_search.py:424-427 | the inner loop writes one table row and leaves every other row alone |
| App.ResultKeysAreDisplayColumns | excel_search.py:411 | with settings whose columns are distinct and not "Sheet", every result row has exactly the display columns as keys, in display order |
| App.DisplayedCells | excel_search.py:411-427 | with unchanged settings, column 0 of every table row shows the sheet name and every other column shows the matched row's normalised value under that header |
| App.DisplayedCell | excel_search.py:423-426 | one cell of a result row read under a display column: the sheet in column 0, the row's value elsewhere |
| App.FrameColumns | excel_search.py:441 | the frame's columns are every key of some record, each once |
| App.FrameRows | excel_search.py:441 | one frame row per record, and each row holds the record's `get` under each frame column |
| App.RowOf | excel_search.py:441 | one cell per column, holding the record's `get` under it |
| Cells.PyKey | excel_search.py:443 | a cell is its own key except a boolean, whose key is the integer Python equates it with |
| Cells.PyKeyIsPythonEquality | excel_search.py:443 | two cells have one key exactly when they are equal, or both are numbers (integers or booleans) of the same integer value |
| App.Export | excel_search.py:432-443 | nothing to export exactly when there are no results; cancelled exactly when there are results but no destination; a relabelling error exactly when the frame has a different number of columns from the display columns; otherwise the written table has the display columns as header and between one row and as many as there were records |
| App.ExcelSearchApp.ExportToExcel | excel_search.py:432-446 | export on the window's last results and current settings: refused exactly when there are none, stopped exactly when no destination is chosen, failing on relabelling exactly when the frame's column count differs from the display columns' (so it writes in every other case); what is written has the display columns as header and keeps exactly the first frame row of each class of rows equal under Python's `==`, in order |
| Lists.DistinctBy | excel_search.py:443 | the kept elements are no more than the input, and each is one of its elements |
| Lists.DistinctByKeys | excel_search.py:443 | the keys of the kept elements are the distinct keys of the input |
| Lists.DistinctByProperties | excel_search.py:443 | no two kept elements share a key, every key occurs among them, each kept element is the first of its key, and keys keep their order of first occurrence |
| App.ExportDropsDuplicates | excel_search.py:441-443 | the written rows keep exactly the first frame row of each class of rows equal under Python's `==`, losing no class and keeping their order of first occurrence |
| App.FrameColumnsOfUniformRecords | excel_search.py:441 | records that share one list of distinct keys give a frame with exactly those columns |
| App.ExportOfUniformRecords | excel_search.py:441-443 | such records, as many keys as display columns, are written under the display columns with rows equal under Python's `==` dropped |
| App.ExportOfEqualPair | excel_search.py:441-443 | two such records whose rows are equal under Python's `==` are written as one row, the first one's |
| App.ExportOfSearchResults | excel_search.py:441-443 | results of a search whose settings are unchanged and distinct export under the display columns, each value under its own key |
| Lists.Distinct | excel_search.py:441 | every element is kept, none is invented, and none appears twice |
| Lists.DistinctKeepsFirstOccurrenceOrder | excel_search.py:441 | two elements appear in the same order as their first occurrences |
| Lists.DistinctAbsorbsRepeats | excel_search.py:441 | appending elements already present leaves the distinct list unchanged |
| Lists.DistinctDoubledHead | excel_search.py:171 | a list whose head is repeated and whose tail has no repeats collapses to the tail |
| Examples.InventorySearch | excel_search.py:157-181 | with an engine that finds "ab" in "AB12" but not in "cd99", the inventory search returns the AB12 row alone, tagged with its sheet |
| Examples.PlainTextEngineOnInventory | excel_search.py:167 | case-insensitive substring search is such an engine |
| Examples.PlainTextInventorySearch | excel_search.py:157-181 | with case-insensitive text search the phrase "ab" keeps the AB12 row |
| Examples.ExportCollapsesRepeatedRow | excel_search.py:432-443 | two identical search records export as one row under Sheet, SKU, Qty |
| Examples.ExportMergesOneAndTrue | excel_search.py:441-443 | records that differ only in a Qty of 1 and a Qty of True export as one row, the first, since `1 == True` |
| Examples.StrOfNumbers | excel_search.py:167 | the integers 12, -5 and 0 print as "12", "-5" and "0" |

The predicates `Search.RowMatches` (the test at `excel_search.py:167`) and `Search.ScanSucceeds`, and the function `Dialog.SheetColumns` (the sheet guards at `excel_search.py:77-78` and `101-102`), are helpers; the rows above that cite those lines state what they mean.

## Left out

- Widgets, layouts, style sheets, the item delegate, menus and message boxes are not modelled. Only the state the widgets hold is.
- The `QThread` and its `search_complete` signal become the `running` flag and `CompleteSearch`. The queued delivery of the signal is not modelled. Neither is the short window between the thread finishing and the slot running.
- The `print` of the error message in `run` (`excel_search.py:185`) is console output and is not modelled; only the empty list that follows it is.
- `SearchThread` keeps a reference to the window's settings object (`excel_search.py:153-154`), and `get_excel_file_path` writes `self.excel_settings.sheet_name` in place (`excel_search.py:363`). A file with exactly one sheet (`excel_search.py:361`), chosen while a search runs, can therefore change the sheet that search reads. The model's `SearchRequest` copies the settings by value when the search starts, so it does not capture this sharing.
- The dialog's signal cascade is simplified. Refilling the search column box fires `update_additional_columns` once per change of its current text, and each call replaces every checkbox. The model therefore performs one rebuild, for the final text. The deferred `deleteLater` of old checkboxes is not modelled.
- Reading and writing workbooks (openpyxl, `pd.read_excel`, `ExcelWriter`) are I/O.
  - The search takes the workbook as a parameter. `None` stands for a file that cannot be opened. `CompleteSearch` takes the files as a function from path to workbook.
  - The export stops at the rows it would write. A failing write is not modelled.
- `get_excel_file_path` is modelled only as `ChooseFile`. Loading the sheet catalog becomes the dialog's `Catalog` parameter, with an error dialog on failure. Setting the sheet name for a one-sheet file, and opening the dialog directly, are not modelled.
- `open_settings`: the guard against a missing file and the modal dialog loop are not modelled. Neither is the dialog's closing after OK.
- The regular-expression engine behind `str.contains(..., case=False, regex=True)` is the `RegexEngine` parameter: whether a phrase compiles, and whether it is found in a text.
- Floating-point numbers, dates, and non-string column headers are not modelled. A cell is text, an integer, a boolean or NaN (an error cell). Python's `==` between cells is therefore modelled for these kinds only.
- A frame row has a value under every header. The model's `Sheet` does not require this of its rows, and `CellAt` reads a header a row lacks as NaN; the results for such rows describe inputs no frame has.
- Column headers of one sheet are assumed distinct (`HeadersDistinct`), because pandas renames repeated headers on reading. Its renaming scheme is not modelled.
- App.FillTable: the table has sorting enabled (`excel_search.py:330`), and with sorting on, `setItem` can move a row that was just written. The model, and `App.ExcelSearchApp.DisplaySearchResults` with it, writes row r of the results into table row r and does not capture that reordering. Resizing and the selection mode of the table are left out too.
- App.ExcelSearchApp.DisplaySearchResults: for the same reason, its promise that cell (r, c) shows row r's value under header c holds only while no sort column is set; the reordering that `setItem` causes with sorting enabled (`excel_search.py:330`) is not modelled.
- Quirks of the code that the model keeps:
  - The dialog always resets the search column to the first offered item (`excel_search.py:77-89`).
  - The "No columns available" placeholder passes the OK check (`excel_search.py:131`) and is emitted as the search column.
  - Display and export use the settings current at the time they run (`excel_search.py:411`, `excel_search.py:442`), not those the search was started with. `DisplayedCells` and `ExportOfSearchResults` therefore assume that the settings have not changed.
