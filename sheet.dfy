/** Spreadsheet cells as the XLSX reader hands them to the dashboard. The reader itself is not
    modelled: a sheet arrives already parsed, and each cell carries what JavaScript's
    `toString` and `parseFloat` make of it. */
module Sheet {
  import opened Wrappers

  /** One cell value.
      - `Empty`: `null` or `undefined` (a missing cell);
      - `Str(text, parsed)`: a string together with what `parseFloat` reads from it
        (`None` stands for NaN);
      - `Num(value, shown)`: a finite number together with its JavaScript rendering;
      - `Bool(b)`: a boolean cell. */
  datatype Cell = Empty | Str(text: string, parsed: Option<real>) | Num(value: real, shown: string) | Bool(b: bool)

  /** `!cell` holds: `null`, `undefined`, `""`, `0` and `false`. */
  predicate Falsy(c: Cell) {
    match c
    case Empty => true
    case Str(text, _) => text == ""
    case Num(value, _) => value == 0.0
    case Bool(b) => !b
  }

  /** `cell?.toString()`: no text for a missing cell. */
  function ToText(c: Cell): Option<string> {
    match c
    case Empty => None
    case Str(text, _) => Some(text)
    case Num(_, shown) => Some(shown)
    case Bool(b) => Some(if b then "true" else "false")
  }

  /** `String(cell || '')`: the empty string for a falsy cell, its text otherwise. A cell shows
      nothing exactly when it is falsy or its text is empty, and any text it shows is its own. */
  function DisplayText(c: Cell): (s: string)
    ensures s == "" <==> Falsy(c) || ToText(c) == Some("")
    ensures s != "" ==> ToText(c) == Some(s)
  {
    if Falsy(c) then "" else ToText(c).value
  }

  /** `parseFloat(cell)`: `None` for NaN. The empty string reads as NaN whatever its cell
      carries. */
  function ParseFloat(c: Cell): Option<real> {
    match c
    case Empty => None
    case Str(text, parsed) => if text == "" then None else parsed
    case Num(value, _) => Some(value)
    case Bool(_) => None
  }

  /** `row[k]`, which is `undefined` past the end of the row. */
  function CellAt(row: seq<Cell>, k: nat): Cell {
    if k < |row| then row[k] else Empty
  }

  /** A row read with column headers: each present cell under its column's name. */
  type Record = map<string, Cell>

  /** `row[column]`, `undefined` when the column is absent from the row. */
  function Field(row: Record, column: string): Cell {
    if column in row then row[column] else Empty
  }
}
