/**
 * The growth-flag deriver: over a copy of the table, adds a `diff` column
 * (each cell minus the one above it) and a `growth_flag` column (1 where
 * the difference is strictly positive, 0 elsewhere, the first row included).
 */
module GrowthFlag {
  import opened Wrappers
  import opened Frames

  /** The difference of two cells; undefined if either is. */
  function Sub(a: Option<int>, b: Option<int>): Option<int>
  {
    if a.Some? && b.Some? then Some(a.value - b.value) else None
  }

  /** 1 for a strictly positive difference; 0 for zero, negative or undefined. */
  function IsGrowth(d: Option<int>): int
  {
    if d.Some? && d.value > 0 then 1 else 0
  }

  /** Row `i` of the copy: its diff against the row above on column `c`, and its flag. */
  function DerivedRow(rows: seq<Row>, c: Column, i: int): Row
    requires 0 <= i < |rows|
  {
    var d := if i == 0 then None else Sub(Cell(rows[i], c), Cell(rows[i - 1], c));
    rows[i].(diff := d, flag := IsGrowth(d))
  }

  /**
   * The copy of `f` with `diff` and `growth_flag` computed from column `c`:
   * the same rows in the same order, `time` and `value` untouched.
   */
  function Derive(f: Frame, c: Column): (g: Frame)
    ensures g.columns == f.columns + {Diff, GrowthFlag}
    ensures |g.rows| == |f.rows|
    ensures forall i :: 0 <= i < |f.rows| ==>
      g.rows[i].time == f.rows[i].time && g.rows[i].value == f.rows[i].value
    // the first row has no difference and never counts as growth
    ensures |f.rows| > 0 ==> g.rows[0].diff == None && g.rows[0].flag == 0
    // each later diff is this row's cell minus the previous one, undefined if either is
    ensures forall i :: 0 < i < |f.rows| ==>
      g.rows[i].diff == (if Cell(f.rows[i], c).Some? && Cell(f.rows[i - 1], c).Some?
                         then Some(Cell(f.rows[i], c).value - Cell(f.rows[i - 1], c).value)
                         else None)
    // the flag is 1 exactly where the difference is defined and strictly positive, else 0
    ensures forall i :: 0 <= i < |f.rows| ==>
      && (g.rows[i].flag == 0 || g.rows[i].flag == 1)
      && (g.rows[i].flag == 1 <==> g.rows[i].diff.Some? && g.rows[i].diff.value > 0)
    // on the value column: growth means a strict rise over the previous row; ties give 0
    ensures c == Value ==> forall i :: 0 < i < |f.rows| ==>
      && g.rows[i].diff == Some(f.rows[i].value - f.rows[i - 1].value)
      && (g.rows[i].flag == 1 <==> f.rows[i].value > f.rows[i - 1].value)
  {
    Frame(f.columns + {Diff, GrowthFlag}, seq(|f.rows|, i requires 0 <= i < |f.rows| => DerivedRow(f.rows, c, i)))
  }

  /**
   * Fails when `name` is not a column of `f`; otherwise returns the derived
   * copy, computed from that column.
   */
  function CreateGrowFlag(f: Frame, name: string): (r: Result<Frame, Error>)
    ensures r.Err? <==> !HasColumn(f, name)
    ensures r.Err? ==> r.error == MissingColumn(name)
    ensures r.Ok? ==> r.value == Derive(f, ColumnNamed(name).value)
  {
    match ColumnNamed(name)
    case None => Err(MissingColumn(name))
    case Some(c) => if c in f.columns then Ok(Derive(f, c)) else Err(MissingColumn(name))
  }

  /** Every derived flag is 0 or 1. */
  lemma FlagsAreBinary(f: Frame, c: Column)
    ensures AllBinary(Flags(Derive(f, c).rows))
  {
  }

  /**
   * The derived columns depend on nothing but the source column: two tables
   * that agree on column `c` get the same diffs and flags.
   */
  lemma DerivationDependsOnColumnOnly(f: Frame, g: Frame, c: Column)
    requires Cells(f, c) == Cells(g, c)
    ensures var rf, rg := Derive(f, c).rows, Derive(g, c).rows;
      && |rf| == |rg|
      && Flags(rf) == Flags(rg)
      && forall i :: 0 <= i < |rf| ==> rf[i].diff == rg[i].diff
  {
    var rf, rg := Derive(f, c).rows, Derive(g, c).rows;
    assert |f.rows| == |Cells(f, c)| == |g.rows|;
    forall i | 0 <= i < |f.rows|
      ensures rf[i].diff == rg[i].diff && rf[i].flag == rg[i].flag
    {
      assert Cells(f, c)[i] == Cells(g, c)[i];
      if i > 0 {
        assert Cells(f, c)[i - 1] == Cells(g, c)[i - 1];
      }
    }
    assert Flags(rf) == Flags(rg);
  }

  /**
   * Deriving again from `time` or `value` on an already-flagged table gives
   * back the same table: those columns survive the first derivation unchanged.
   */
  lemma RederiveIsIdentity(f: Frame, name: string)
    requires HasColumn(f, name)
    requires ColumnNamed(name) == Some(Time) || ColumnNamed(name) == Some(Value)
    ensures CreateGrowFlag(f, name).Ok?
    ensures CreateGrowFlag(CreateGrowFlag(f, name).value, name) == CreateGrowFlag(f, name)
  {
    var c := ColumnNamed(name).value;
    var g := Derive(f, c);
    assert Cells(g, c) == Cells(f, c);
    DerivationDependsOnColumnOnly(f, g, c);
    assert Derive(g, c).rows == g.rows;
  }
}
