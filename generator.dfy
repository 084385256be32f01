/**
 * The series generator: `n` rows with times 1..n and one drawn value each.
 * The random source is not modelled; its output arrives as `draws`.
 */
module Generator {
  import opened Wrappers
  import opened Frames

  /** The half-open range of the drawn values. */
  const LOW: int := 50
  const HIGH: int := 150

  /** What a draw of `size` integers from [lo, hi) delivers. */
  predicate UniformDraws(lo: int, hi: int, size: int, draws: seq<int>)
  {
    |draws| == size && forall i :: 0 <= i < |draws| ==> lo <= draws[i] < hi
  }

  /** A plain series: a time column running 1, 2, ... without gaps, and a value column. */
  predicate IsSeries(f: Frame)
  {
    && f.columns == {Time, Value}
    && |f.rows| >= 1
    && forall i :: 0 <= i < |f.rows| ==> f.rows[i].time == i + 1
  }

  /** The plain series over the given values: row i has time i + 1. */
  function SeriesOf(vs: seq<int>): Frame
  {
    Frame({Time, Value}, seq(|vs|, i requires 0 <= i < |vs| => Row(i + 1, vs[i], None, 0)))
  }

  /**
   * Rejects a non-positive number of points; otherwise builds the series
   * from the draws, one row per draw, in draw order.
   */
  function GenSyntData(nPoints: int, draws: seq<int>): (r: Result<Frame, Error>)
    requires nPoints > 0 ==> UniformDraws(LOW, HIGH, nPoints, draws)
    ensures r.Err? <==> nPoints <= 0
    ensures r.Err? ==> r.error == InvalidArgument(nPoints)
    ensures r.Ok? ==> IsSeries(r.value) && |r.value.rows| == nPoints
    ensures r.Ok? ==> Values(r.value.rows) == draws
    ensures r.Ok? ==> forall i :: 0 <= i < |r.value.rows| ==> LOW <= r.value.rows[i].value < HIGH
  {
    if nPoints <= 0 then Err(InvalidArgument(nPoints))
    else Ok(SeriesOf(draws))
  }
}
