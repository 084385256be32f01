/**
 * The tabular data the three stages pass along: an ordered sequence of rows,
 * together with the set of columns the table currently has.
 */
module Frames {
  import opened Wrappers

  /** The columns a row can carry. */
  datatype Column = Time | Value | Diff | GrowthFlag

  /** The name under which each column is looked up. */
  function Name(c: Column): string
  {
    match c
    case Time => "time"
    case Value => "value"
    case Diff => "diff"
    case GrowthFlag => "growth_flag"
  }

  /** The column a name refers to, if any. */
  function ColumnNamed(name: string): (c: Option<Column>)
    ensures c.Some? ==> Name(c.value) == name
    ensures c.None? ==> forall col: Column :: Name(col) != name
  {
    if name == "time" then Some(Time)
    else if name == "value" then Some(Value)
    else if name == "diff" then Some(Diff)
    else if name == "growth_flag" then Some(GrowthFlag)
    else None
  }

  /** Looking a column up by its own name finds that column. */
  lemma NameRoundTrip(c: Column)
    ensures ColumnNamed(Name(c)) == Some(c)
  {
  }

  /** The errors the stages raise. */
  datatype Error =
    | InvalidArgument(got: int)   // a bad number of points
    | MissingColumn(name: string) // a column the stage needs is absent

  /**
   * One row. A field is meaningful only while its column is in the table's
   * column set; `diff` is None where the difference is undefined.
   */
  datatype Row = Row(time: int, value: int, diff: Option<int>, flag: int)

  datatype Frame = Frame(columns: set<Column>, rows: seq<Row>)

  /** Whether `name` names a column the table has. */
  predicate HasColumn(f: Frame, name: string)
  {
    ColumnNamed(name).Some? && ColumnNamed(name).value in f.columns
  }

  /** The cell of column `c` in row `r`. */
  function Cell(r: Row, c: Column): Option<int>
  {
    match c
    case Time => Some(r.time)
    case Value => Some(r.value)
    case Diff => r.diff
    case GrowthFlag => Some(r.flag)
  }

  /** The whole column `c` of a table, top to bottom. */
  function Cells(f: Frame, c: Column): seq<Option<int>>
  {
    seq(|f.rows|, i requires 0 <= i < |f.rows| => Cell(f.rows[i], c))
  }

  /** The `value` column as plain integers. */
  function Values(rows: seq<Row>): seq<int>
  {
    seq(|rows|, i requires 0 <= i < |rows| => rows[i].value)
  }

  /** The `growth_flag` column as plain integers. */
  function Flags(rows: seq<Row>): seq<int>
  {
    seq(|rows|, i requires 0 <= i < |rows| => rows[i].flag)
  }

  /** Every entry is 0 or 1. */
  predicate AllBinary(xs: seq<int>)
  {
    forall i :: 0 <= i < |xs| ==> xs[i] == 0 || xs[i] == 1
  }
}
