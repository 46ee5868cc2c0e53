/**
 * The values a data source hands to the engine: one cell of a result row or of
 * a spreadsheet, the floats the spreadsheet variant can produce (including NaN),
 * and the Python exceptions that abort a request.
 */
module Cells {
  import opened Wrappers
  import opened Decimal

  /**
   * One cell. `Null` is SQL NULL / Python `None` in the database variant and
   * pandas' missing value (NaN) in the spreadsheet variant.
   */
  datatype Cell = Null | Num(value: real) | Text(text: string)

  /** A Python float as the spreadsheet variant returns it: a real number or NaN. */
  datatype Float = Real(value: real) | NaN

  /** The exceptions that end a request (the route turns them into an error response). */
  datatype Error =
    | NotFound            // the player lookup returned no row
    | NoData              // the team query returned no rows
    | IndexError          // `.iloc[0]` on an empty selection
    | KeyError(key: string)
    | TypeError           // arithmetic or ordering on mixed text and numbers
    | ValueError          // `float()` on unparseable text

  /** One result row, keyed by column name. */
  type Row = map<string, Cell>

  /** One player's row: the player's name and the other columns. */
  datatype Record = Record(player: string, cells: Row)

  /** Python `dict.get(key)`: a missing key reads as `None`. */
  function Get(row: Row, key: string): Cell {
    if key in row then row[key] else Null
  }

  /**
   * Python `float(x)` for a cell: numbers are kept, text is parsed, and `None`
   * fails (a `TypeError` in Python).
   */
  function Coerce(c: Cell): (r: Option<real>)
    ensures c.Num? ==> r == Some(c.value)
    ensures r.Some? ==> !c.Null? && (c.Text? ==> HasDigit(c.text))
  {
    match c
    case Null => None
    case Num(x) => Some(x)
    case Text(s) => ParseFloat(s)
  }
}
