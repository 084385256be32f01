/**
 * The growth aggregator: the mean of the `growth_flag` column, which for a
 * column of 0s and 1s is the share of rows flagged as growth.
 */
module GrowthShare {
  import opened Wrappers
  import opened Frames
  import opened GrowthFlag

  /** The sum of a column. */
  function Sum(xs: seq<int>): int
  {
    if xs == [] then 0 else Sum(xs[..|xs| - 1]) + xs[|xs| - 1]
  }

  /** How many entries of a column are 1; never more than the column's length. */
  function Ones(xs: seq<int>): (c: nat)
    ensures c <= |xs|
  {
    if xs == [] then 0 else Ones(xs[..|xs| - 1]) + (if xs[|xs| - 1] == 1 then 1 else 0)
  }

  /** On a column of 0s and 1s, the sum counts the 1s. */
  lemma {:induction false} BinarySumIsOnes(xs: seq<int>)
    requires AllBinary(xs)
    ensures Sum(xs) == Ones(xs)
  {
    if xs != [] {
      var init := xs[..|xs| - 1];
      assert AllBinary(init) by {
        forall i | 0 <= i < |init| ensures init[i] == 0 || init[i] == 1 {
          assert init[i] == xs[i];
        }
      }
      BinarySumIsOnes(init);
    }
  }

  /**
   * Fails when there is no `growth_flag` column; otherwise returns the mean
   * of that column (an exact rational in place of the floating-point mean).
   */
  function CalcGrowth(f: Frame): (r: Result<real, Error>)
    requires GrowthFlag in f.columns ==> |f.rows| > 0
    ensures r.Err? <==> GrowthFlag !in f.columns
    ensures r.Err? ==> r.error == MissingColumn(Name(GrowthFlag))
    // the mean: times the row count it gives back the column's sum
    ensures r.Ok? ==> r.value * (|f.rows| as real) == Sum(Flags(f.rows)) as real
    // for 0/1 flags: the number of flagged rows over the row count, within [0, 1]
    ensures r.Ok? && AllBinary(Flags(f.rows)) ==>
      && r.value == (Ones(Flags(f.rows)) as real) / (|f.rows| as real)
      && 0.0 <= r.value <= 1.0
  {
    if GrowthFlag !in f.columns then Err(MissingColumn(Name(GrowthFlag)))
    else
      var flags := Flags(f.rows);
      var share := (Sum(flags) as real) / (|f.rows| as real);
      assert AllBinary(flags) ==> share == (Ones(flags) as real) / (|f.rows| as real) && 0.0 <= share <= 1.0 by {
        if AllBinary(flags) {
          BinarySumIsOnes(flags);
          ShareBounds(Ones(flags), |f.rows|);
        }
      }
      Ok(share)
  }

  /** A count of at most n rows, over n rows, lies in [0, 1]. */
  lemma ShareBounds(c: nat, n: nat)
    requires 0 < n && c <= n
    ensures 0.0 <= (c as real) / (n as real) <= 1.0
  {
  }

  /** The number of strict rises between consecutive entries. */
  function Ascents(vs: seq<int>): nat
  {
    if |vs| < 2 then 0
    else Ascents(vs[..|vs| - 1]) + (if vs[|vs| - 1] > vs[|vs| - 2] then 1 else 0)
  }

  /**
   * A flag column that marks exactly the strict rises of a value column
   * (never the first entry) has as many 1s as the values have rises, on
   * every prefix.
   */
  lemma {:induction false} OnesCountAscentsUpTo(fs: seq<int>, vs: seq<int>, k: nat)
    requires |fs| == |vs| && k <= |fs|
    requires |fs| > 0 ==> fs[0] != 1
    requires forall i :: 0 < i < |fs| ==> (fs[i] == 1 <==> vs[i] > vs[i - 1])
    ensures Ones(fs[..k]) == Ascents(vs[..k])
  {
    if k == 1 {
      assert fs[..1][..0] == [];
    } else if k > 1 {
      OnesCountAscentsUpTo(fs, vs, k - 1);
      assert fs[..k][..k - 1] == fs[..k - 1];
      assert vs[..k][..k - 1] == vs[..k - 1];
    }
  }

  /** The growth share of a table flagged on `value` is its number of rises over its length. */
  lemma ShareIsAscentsOverLength(f: Frame)
    requires |f.rows| > 0
    ensures CalcGrowth(Derive(f, Value)) == Ok(Ascents(Values(f.rows)) as real / |f.rows| as real)
  {
    var fs, vs := Flags(Derive(f, Value).rows), Values(f.rows);
    OnesCountAscentsUpTo(fs, vs, |fs|);
    assert fs[..|fs|] == fs && vs[..|vs|] == vs;
    FlagsAreBinary(f, Value);
  }
}
