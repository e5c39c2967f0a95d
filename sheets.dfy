/**
 * The spreadsheet as the engine sees it: cells of a few scalar kinds, a
 * worksheet as a grid with the range its `!ref` declares, and a workbook as
 * sheets addressed by name.
 */
module Sheets {
  import opened Strings

  /** A cell value; `Blank` stands for a missing cell and for `null` / `undefined`. */
  datatype Cell = Blank | Text(s: string) | Number(n: int) | Boolean(b: bool)

  /** The values JavaScript treats as false in `v || ''`. */
  predicate Falsy(c: Cell)
  {
    c.Blank? || c == Text("") || c == Number(0) || c == Boolean(false)
  }

  /** `String(v || '')`: falsy values, 0 and `false` included, become the empty string. */
  function CellString(c: Cell): (r: string)
    ensures r == "" <==> Falsy(c)
  {
    match c
    case Blank => ""
    case Text(s) => s
    case Number(n) => if n == 0 then "" else IntToString(n)
    case Boolean(b) => if b then "true" else ""
  }

  /** Every cell read of the macro engine: `String(v || '').trim()`. */
  function CellText(c: Cell): string
  {
    Trim(CellString(c))
  }

  /**
   * A worksheet: its rows of cells and the end of the range its `!ref`
   * declares (a sheet without a `!ref` has the range A1, so both ends are 0).
   */
  datatype Worksheet = Worksheet(grid: seq<seq<Cell>>, lastRow: nat, lastCol: nat)

  /** The cell at (row, col); anything outside the grid is missing. */
  function CellAt(ws: Worksheet, row: int, col: int): Cell
  {
    if 0 <= row < |ws.grid| && 0 <= col < |ws.grid[row]| then ws.grid[row][col] else Blank
  }

  /** The trimmed text of the cell at (row, col). */
  function TextAt(ws: Worksheet, row: int, col: int): string
  {
    CellText(CellAt(ws, row, col))
  }

  /** A workbook: `workbook.Sheets`, whose keys are `workbook.SheetNames`. */
  type Workbook = map<string, Worksheet>
}
