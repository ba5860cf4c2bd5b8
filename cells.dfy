/**
 * A spreadsheet as pandas hands it to the extractors: a rectangular grid of cells,
 * each blank (NaN), text, or a number together with the text Python's `str()` gives it.
 */
module Cells {
  import opened Wrappers
  import opened Text

  datatype Cell = Blank | Str(text: string) | Number(value: real, shown: string)

  type Row = seq<Cell>

  /** A sheet read with `header=0`: `width` columns, and the data rows below the header line. */
  datatype Frame = Frame(width: nat, rows: seq<Row>)

  /** Every row of a DataFrame has one cell per column. */
  predicate Rectangular(f: Frame) {
    forall i :: 0 <= i < |f.rows| ==> |f.rows[i]| == f.width
  }

  /** Python's `str(cell)`, and `astype(str)`: a blank cell reads "nan". */
  function Shown(c: Cell): string {
    match c
    case Blank => "nan"
    case Str(s) => s
    case Number(_, t) => t
  }

  /** `str(cell).strip() if pd.notna(cell) else ""`: the key of a key/value row. */
  function KeyOf(c: Cell): (k: string)
    ensures c.Blank? ==> k == ""
  {
    if c.Blank? then "" else Trim(Shown(c))
  }

  /** `str(cell).strip().lower()`: how header labels and first-column markers are compared. */
  function Normalized(c: Cell): string {
    Lower(Trim(Shown(c)))
  }

  /**
   * `pd.to_numeric(cell, errors="coerce")`, with None for NaN. Numbers are themselves;
   * text goes through `num`, pandas' string-to-number conversion, given as a parameter.
   */
  function ToNumber(c: Cell, num: string -> Option<real>): (r: Option<real>)
    ensures c.Blank? ==> r.None?
    ensures c.Number? ==> r == Some(c.value)
  {
    match c
    case Blank => None
    case Str(s) => num(s)
    case Number(v, _) => Some(v)
  }
}
