# Growth flag over a synthetic time series

A model of the DA-2-32 time-series utility: a generator builds a series of
rows with times 1..n and integer values in [50, 150); a deriver adds, over a
copy of the table, a `diff` column (each value minus the previous one,
undefined on the first row) and a binary `growth_flag` column (1 exactly where
the value strictly rose); an aggregator returns the mean of the flags, the
share of growth rows.

The table is a `Frame`: the set of its columns and a sequence of `Row`
records (`time`, `value`, `diff: Option<int>`, `flag`). A field of a row is
meaningful only while its column is in the set, so a missing column stays
expressible. The deriver keeps its lookup by column name: a name resolves to
one of the four columns (`ColumnNamed`) and a cell is read by column (`Cell`). An
undefined difference (a NaN in pandas) is `None`, and it propagates
through a difference as a NaN does. The mean is an exact `real`.

Modules: `Wrappers` (Option, Result), `Frames` (the table and its columns),
`Generator`, `GrowthFlag`, `GrowthShare`, and `Pipeline` (the driver's chain
of calls and the worked example).

## Model

| member | source | states |
|---|---|---|
| `Generator.GenSyntData` | DA-2-32.py:20-30 | fails with `InvalidArgument(n)` exactly when n <= 0; otherwise the table has the columns `time` and `value` only, exactly n rows, `time` = i + 1 on row i (1-based, no gaps), the values are the draws in order, and every value lies in [50, 150) |
| `Frames.ColumnNamed` | DA-2-32.py:45 | a column name is resolved to the column whose name it is, or to none when no column has that name |
| `GrowthFlag.CreateGrowFlag` | DA-2-32.py:45-51 | fails with `MissingColumn(name)` exactly when the table has no column of that name; otherwise returns the derived copy computed from that column |
| `GrowthFlag.Derive` | DA-2-32.py:47-50 | the copy has the same number of rows, `time` and `value` unchanged, and the columns `diff` and `growth_flag` added; row 0 has no diff and flag 0; each later diff is this cell minus the previous one, undefined if either is; every flag is 0 or 1 and is 1 exactly when the diff is defined and positive; on `value`, flag 1 iff the value strictly rose (ties and falls give 0) |
| `GrowthFlag.FlagsAreBinary` | DA-2-32.py:49-50 | every flag of a derived table is 0 or 1 |
| `GrowthFlag.DerivationDependsOnColumnOnly` | DA-2-32.py:47-50 | two tables that agree on the source column get identical diffs and flags, whatever their other columns hold |
| `GrowthFlag.RederiveIsIdentity` | DA-2-32.py:47-50 | deriving again from `time` or `value` on an already-flagged table returns the same table |
| `GrowthShare.BinarySumIsOnes` | DA-2-32.py:65 | on a 0/1 column the sum (numerator of the mean) is the number of 1s |
| `GrowthShare.CalcGrowth` | DA-2-32.py:63-65 | fails with `MissingColumn("growth_flag")` exactly when that column is absent, whatever the row count; otherwise the result times the row count is the column's sum; for 0/1 flags it is (rows flagged 1) / (row count) and lies in [0, 1] |
| `GrowthShare.OnesCountAscentsUpTo` | DA-2-32.py:48-50 | for a flag column that marks exactly the strict rises of a value column (never its first entry), on every prefix the number of flag-1 entries equals the number of strict rises |
| `GrowthShare.ShareIsAscentsOverLength` | DA-2-32.py:48-65 | the share of a table flagged on `value` is its number of strict rises over its row count |
| `Pipeline.GrowthShareOf` | DA-2-32.py:69-72 | the driver's chain generate, flag on `value`, aggregate fails only for n <= 0 (with `InvalidArgument`); otherwise the share is the strict rises of the draws over n, within [0, 1] |
| `Pipeline.WorkedExample` | DA-2-32.py:45-65 | values 100, 105, 105, 90, 200 give diffs (none), 5, 0, -15, 110, flags 0, 1, 0, 0, 1 and a share of 0.4 |
| `Pipeline.ErrorCases` | DA-2-32.py:20-65 | n = 0 and n = -5 are rejected as invalid arguments, a nonexistent column and a missing `growth_flag` column (on a table of any length, the empty one included) as missing columns |

## Left out

- The random source: seeding (DA-2-32.py:23-24) and the draw itself (DA-2-32.py:25) are not modelled; the draws are a parameter, and what a uniform draw from [50, 150) delivers (the right count, each value in range) is the generator's precondition for n > 0. Determinism for a fixed seed is therefore not a statement of the model.
- The default arguments of `gen_synt_data` (DA-2-32.py:9: `n_points=10`, `seed=None`): the count is always passed explicitly, and the seed is not modelled.
- The `isinstance(n_points, int)` test (DA-2-32.py:20): the count is typed `int`, so a non-integer argument cannot be formed.
- Re-raising foreign failures as a runtime error (DA-2-32.py:31-32): the only failures there come from the library calls, which are not modelled.
- pandas and numpy internals: frame construction, the float type of the `diff` column and the `astype`/`fillna` calls are modelled by their meaning on integer cells; `fillna(0)` never has anything to fill.
- `GrowthShare.CalcGrowth`: requires a non-empty table when the `growth_flag` column is present; DA-2-32.py:65 returns NaN for such an empty table, which the model does not represent. An empty table without that column still gets the missing-column error. The floating-point mean is an exact rational.
- `main` (DA-2-32.py:67-79): the printing, the percentage formatting and the catch-all error report are console output; only its chain of calls is modelled (`Pipeline.GrowthShareOf`).
- Column types are not checked: like DA-2-32.py:45, the deriver only checks that the column is present, although its docstring (DA-2-32.py:40) describes a column of numeric values.
- A table's columns are limited to the four a `Row` can hold (`time`, `value`, `diff`, `growth_flag`); arbitrary extra columns of a data frame are not representable, so a name outside those four is always a missing column.
