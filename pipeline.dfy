/**
 * The driver's chain of calls: generate a series, flag it on its value
 * column, reduce it to the growth share. Printing is not modelled.
 */
module Pipeline {
  import opened Wrappers
  import opened Frames
  import opened Generator
  import opened GrowthFlag
  import opened GrowthShare

  /**
   * Generate `nPoints` rows from `draws`, flag them on "value", and return
   * the growth share. The only error that can reach the caller is the
   * generator's rejection of a non-positive count; the share lies in [0, 1]
   * and is the number of strict rises among the draws over their number.
   */
  function GrowthShareOf(nPoints: int, draws: seq<int>): (r: Result<real, Error>)
    requires nPoints > 0 ==> UniformDraws(LOW, HIGH, nPoints, draws)
    ensures r.Err? <==> nPoints <= 0
    ensures r.Err? ==> r.error == InvalidArgument(nPoints)
    ensures r.Ok? ==> r.value == (Ascents(draws) as real) / (nPoints as real)
    ensures r.Ok? ==> 0.0 <= r.value <= 1.0
  {
    match GenSyntData(nPoints, draws)
    case Err(e) => Err(e)
    case Ok(series) =>
      NameRoundTrip(Value);
      match CreateGrowFlag(series, "value")
      case Err(e) => Err(e)
      case Ok(flagged) =>
        ShareIsAscentsOverLength(series);
        FlagsAreBinary(series, Value);
        CalcGrowth(flagged)
  }

  const EXAMPLE_VALUES: seq<int> := [100, 105, 105, 90, 200]
  const EXAMPLE_FLAGGED: seq<Row> :=
    [Row(1, 100, None, 0), Row(2, 105, Some(5), 1), Row(3, 105, Some(0), 0), Row(4, 90, Some(-15), 0), Row(5, 200, Some(110), 1)]

  /** The derived rows of the worked example, row by row. */
  lemma ExampleRows()
    ensures Derive(SeriesOf(EXAMPLE_VALUES), Value).rows == EXAMPLE_FLAGGED
  {
    var s := SeriesOf(EXAMPLE_VALUES);
    assert s.rows == [Row(1, 100, None, 0), Row(2, 105, None, 0), Row(3, 105, None, 0), Row(4, 90, None, 0), Row(5, 200, None, 0)];
    forall i | 0 <= i < 5
      ensures DerivedRow(s.rows, Value, i) == EXAMPLE_FLAGGED[i]
    {
    }
  }

  /** Two of the five example flags are set. */
  lemma ExampleFlagSum()
    ensures Sum(Flags(EXAMPLE_FLAGGED)) == 2
  {
    assert Flags(EXAMPLE_FLAGGED) == [0, 1, 0, 0, 1];
    assert [0, 1][..1] == [0] && [0][..0] == [];
    assert Sum([0, 1]) == 1;
    assert [0, 1, 0][..2] == [0, 1];
    assert Sum([0, 1, 0]) == 1;
    assert [0, 1, 0, 0][..3] == [0, 1, 0];
    assert Sum([0, 1, 0, 0]) == 1;
    assert [0, 1, 0, 0, 1][..4] == [0, 1, 0, 0];
  }

  /**
   * The worked example: values 100, 105, 105, 90, 200 give differences
   * undefined, 5, 0, -15, 110, flags 0, 1, 0, 0, 1, and a share of 2/5.
   * (200 is outside the generator's range, so the series is built with
   * `SeriesOf`, the table shape the generator returns, rather than by it.)
   */
  lemma WorkedExample()
    ensures var g := CreateGrowFlag(SeriesOf(EXAMPLE_VALUES), "value");
      && g.Ok?
      && Flags(g.value.rows) == [0, 1, 0, 0, 1]
      && seq(5, i requires 0 <= i < 5 => g.value.rows[i].diff) == [None, Some(5), Some(0), Some(-15), Some(110)]
      && CalcGrowth(g.value) == Ok(0.4)
  {
    NameRoundTrip(Value);
    ExampleRows();
    ExampleFlagSum();
    var g := Derive(SeriesOf(EXAMPLE_VALUES), Value);
    assert Flags(g.rows) == [0, 1, 0, 0, 1];
    assert seq(5, i requires 0 <= i < 5 => g.rows[i].diff) == [None, Some(5), Some(0), Some(-15), Some(110)];
  }

  /** The error cases: non-positive counts, an absent column, no flag column. */
  lemma ErrorCases(series: Frame)
    requires series.columns == {Time, Value}
    ensures GenSyntData(0, []) == Err(InvalidArgument(0))
    ensures GenSyntData(-5, []) == Err(InvalidArgument(-5))
    ensures CreateGrowFlag(series, "nonexistent") == Err(MissingColumn("nonexistent"))
    ensures CalcGrowth(series) == Err(MissingColumn("growth_flag"))
  {
  }
}
