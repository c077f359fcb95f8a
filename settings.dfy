/** The search parameters the main window keeps and the settings dialog replaces. */
module Settings {

  datatype ExcelSettings = ExcelSettings(sheetName: string, searchColumn: string, additionalColumns: seq<string>)

  /** A fresh `ExcelSettings()`: no sheet, no search column, no additional columns. */
  const Initial := ExcelSettings("", "", [])
}
