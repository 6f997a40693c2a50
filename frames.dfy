/**
 * The part of a pandas data frame that the scripts' checks look at: a set
 * of column labels and rows of cells, a cell being missing, a number or text.
 */
module Frames {
  import opened Sorting

  /** A pandas cell: missing (NaN/None), a number, or text. */
  datatype Value = Null | Num(x: real) | Text(s: string)

  type Row = map<string, Value>

  /** A data frame: its column labels and its rows. */
  datatype Frame = Frame(columns: set<string>, rows: seq<Row>)

  /** The cell of `row` in column `col`; a row without the key holds NaN. */
  function Get(row: Row, col: string): Value
  {
    if col in row then row[col] else Null
  }

  /** pandas `df.empty`: no rows or no columns. */
  predicate IsEmpty(df: Frame)
  {
    |df.rows| == 0 || df.columns == {}
  }

  /** pandas `s < c` and `s > c` on one cell: false on a missing value. */
  predicate Below(v: Value, c: real)
  {
    v.Num? && v.x < c
  }

  predicate Above(v: Value, c: real)
  {
    v.Num? && v.x > c
  }

  /** `mask.sum()`: the number of rows a test holds on. */
  function CountRows(rows: seq<Row>, p: Row -> bool): (n: nat)
    ensures n <= |rows|
  {
    |Filter(rows, p)|
  }

  /** `mask.any()` is `mask.sum() > 0`. */
  lemma CountPositive(rows: seq<Row>, p: Row -> bool)
    ensures CountRows(rows, p) > 0 <==> exists i :: 0 <= i < |rows| && p(rows[i])
  {
    var f := Filter(rows, p);
    FilterKeeps(rows, p);
    if |f| > 0 {
      FilterMember(rows, p, 0);
    }
  }
}
