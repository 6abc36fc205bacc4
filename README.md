# Verified model of the OSeMOSYS Global chart data preparation

The repository draws charts of energy-system model results: capacity,
generation, emissions, generation shares and transmission capacity, for one
scenario and as deltas between a base run and comparison runs. Behind the
plotting calls sits a small table-transformation core, written in pandas:

- `utils.py`:
  - parses technology and emission codes (`PWRCOAIDNXX`: TECH is characters
    3–5, COUNTRY characters 6–8);
  - group-sums VALUE by key;
  - builds the inclusive model horizon;
  - converts units in place;
  - computes the outer-joined, rounded base/scenario delta.
- `data.py`, in its data preparation before each chart:
  - splits deltas into a decrease part (the negative ones) and an increase
    part (the positive ones);
  - zero-fills missing years and technologies;
  - derives the "Other" generation share;
  - collapses per-year deltas into horizon totals;
  - orders scenarios by value or by name.

This project models that core in Dafny and proves its properties.

## How tables are modelled

- **Tables.** A table is a sequence of `Tables.Record(key, value)` rows.
  The key is whatever the pandas `groupby` columns are: a (TECH, COUNTRY,
  YEAR) triple, a YEAR, a TECH name, a (YEAR, label) pair.
- **Values.** Values are exact `real`s.
- **Unstacked frames.** A frame unstacked by YEAR is a `Grids.Grid`: columns
  plus one row per year, each row a map from column to value.
- **Dictionaries.** A Python dictionary of frames is a `map`. Loops over its
  keys pick an arbitrary remaining key. Every such loop sorts its result
  afterwards, so the iteration order never shows.
- **Error paths.** A pandas operation that raises becomes `None` of
  `Wrappers.Option`:
  - `.iloc[0]` on an empty selection;
  - a missing dictionary key;
  - `None.fillna` on an empty scenario dictionary.
- **Frames changed in place.** Where the source changes the caller's frame
  (`df['VALUE'] = ...`, `df['COUNTRY'] = ...`), that frame is a
  `Utils.Frame` object whose `rows` the method reassigns.
- **Loops.** The loops of `data.py` are Dafny `while` loops with invariants:
  the year and TECH zero-fill, and the per-key accumulation into `plot_df`.

Modules, in order of dependency:

| module | file | models |
|---|---|---|
| `Wrappers` | wrappers.dfy | `Option` |
| `Tables` | tables.dfy | rows, key sets, lookups, group-sum, sign split |
| `Strings` | strings.dfy | prefix and substring tests, Python clamped slicing, `str.replace('CO2', '')`, string order |
| `Rounding` | rounding.dfy | Python `round(x, d)` (half to even) on exact reals |
| `Ordering` | ordering.dfy | `sort_values` / `sort_index` on a one-column frame |
| `Grids` | grids.dfy | `groupby([YEAR, label]).sum().unstack().fillna(0)`, `df.loc[y, c]`, `sort_index()` on years |
| `Utils` | utils.dfy | all of `utils.py` except the figure helpers |
| `PwrDelta` | pwr_delta.dfy | `format_stacked_bar_pwr_delta` and `format_stacked_bar_pwr_delta_multi_scenario` |
| `GenShares` | gen_shares.dfy | `format_stacked_bar_gen_shares` and `format_stacked_bar_gen_shares_delta` |
| `ScenarioDelta` | scenario_delta.dfy | `format_bar_delta_country`, `format_bar_delta_multi_scenario`, `format_transmission_capacity_multi_scenario` |
| `EmissionLimit` | emission_limit.dfy | `format_line_emission_limit` |

## Model

| member | source | states |
|---|---|---|
| Utils.GetYears | utils.py:3-4 | the horizon has `end - start + 1` years, none when `end < start`, and its i-th entry is `start + i`, so it ascends |
| Utils.GetYearsMembers | utils.py:3-4 | a year is in the horizon exactly when `start <= y <= end` |
| Utils.DivideValues | utils.py:6-14 | same row count; every key is kept, and each new VALUE times the divisor gives back the old VALUE |
| Utils.DivideRoundTrip | utils.py:6-14 | scaling the divided rows by the divisor restores the table |
| Utils.DivideTotal | utils.py:6-14 | the divided total times the divisor is the old total |
| Utils.ConvertPjToTwh | utils.py:6-9 | the caller's frame is changed in place to VALUE / 3.6, and that same frame is returned |
| Utils.ConvertMillionToBillion | utils.py:11-14 | the caller's frame is changed in place to VALUE / 1000, and that same frame is returned |
| Utils.KeepPower | utils.py:18-20 | a row is kept exactly when its TECHNOLOGY starts with "PWR" and contains no "TRN" |
| Strings.Slice | utils.py:22-23 | Python's clamped `s[lo:hi]`: the characters from `min(lo, len)` to `min(hi, len)` |
| Utils.PowerTechFields | utils.py:22-23 | on a code of nine or more characters, TECH is characters 3–5 and COUNTRY is characters 6–8 |
| Utils.Labelled | utils.py:22-23 | one (TECH, COUNTRY, YEAR)-keyed row per input row, with its VALUE |
| Utils.LabelledKeptSum | utils.py:18-26 | the labelled kept rows sum, per key and in total, to the sum over the power rows for that key |
| Utils.FormatTechnologyColSpec | utils.py:16-28 | the output has one row per distinct (TECH, COUNTRY, YEAR) key; a key is present exactly when some kept input row has it; each VALUE is the sum of the kept rows with its key; the grand total of the kept rows is preserved |
| Tables.GroupSum | utils.py:25-26 | one row per distinct key, the same key set, each value the sum of the rows with that key |
| Tables.GroupSumTotal | utils.py:25-26 | the group-sum keeps the grand total |
| Utils.WithCountry | utils.py:31 | every row gets COUNTRY = EMISSION[3:6], with nothing else changed |
| Utils.YearTotalsSpec | utils.py:33-35 | one row per YEAR of the input, each the sum of that year's emissions, and the grand total is preserved |
| Utils.CountryColumns | utils.py:37-38 | the same rows, projected to (COUNTRY, YEAR) and VALUE |
| Utils.CountryColumnsTotal | utils.py:37-38 | the projection keeps the total |
| Utils.FormatAnnualEmissions | utils.py:30-40 | COUNTRY is written into the caller's frame; then either the per-year totals or the projection is returned, as the flag says |
| Utils.Merged | utils.py:44-51 | the outer join has one row per key of either input, and each row holds both group sums, 0 for a side that lacks the key |
| Utils.NonZero | utils.py:54 | a row survives exactly when its DELTA is not 0; distinct keys stay distinct |
| Utils.CalculateResultsDeltaSpec | utils.py:42-56 | output keys are distinct and drawn from the union of the inputs' keys; each row's Base and scenario are the two sides' sums (0 if absent); DELTA is the difference rounded to 2 decimals and is never 0; a union key is in the output exactly when its rounded delta is not 0 |
| Utils.DeltaDropped | utils.py:53-54 | a key is dropped exactly when its unrounded difference is within 0.005 of 0 |
| Utils.Deltas | utils.py:53 | the DELTA column, keyed like the merged frame |
| Rounding.RoundToZeroIff | utils.py:53 | `round(x, d)` is 0 exactly when `-0.5·10^-d <= x <= 0.5·10^-d` |
| Rounding.RoundToError | utils.py:53 | `round(x, d)` differs from x by at most `0.5·10^-d` |
| Rounding.RoundToExact | utils.py:53 | `round(x, d)` leaves unchanged a value that already has d decimals |
| Tables.Negatives | data.py:434 | a row is in the decrease part exactly when it is a row with DELTA < 0 |
| Tables.Positives | data.py:435 | a row is in the increase part exactly when it is a row with DELTA > 0 |
| Tables.SignSplitSumWhere | data.py:434-438 | per key, the decrease sum is at most 0, the increase sum at least 0, and together they make the key's total delta |
| Tables.SignSplitTotal | data.py:434-438 | the two parts' totals add up to the total delta |
| Grids.PivotSpec | data.py:437-438 | the unstacked frame has one row per YEAR and one column per label of the data; each cell is the sum of its rows, 0 where there are none; it is empty exactly when the data is |
| Grids.AtRepresents | data.py:437-438 | every `df.loc[y, c]` lookup in the unstacked frame is the sum of the rows with key (y, c) |
| Grids.SortByYear | data.py:449-450 | `sort_index()` gives non-decreasing years and a permutation of the rows, strictly ascending when the years are distinct |
| Grids.SortKeepsRepresents | data.py:449-450 | sorting keeps every cell and the year set, and the years ascend |
| PwrDelta.FillYearSpec | data.py:440-447 | `df.loc[idx] = 0` on a non-empty frame adds exactly the missing year, with zero cells; an empty frame stays empty and every cell still holds its sum |
| PwrDelta.SplitByYear | data.py:434-450 | each sign part is unstacked with exactly its labels as columns, filled with every horizon year when non-empty, and sorted ascending; it is empty exactly when it has no rows |
| PwrDelta.FillYears | data.py:440-447 | the year loop adds every horizon year to a non-empty part, keeps its cells and leaves its columns alone |
| PwrDelta.YearSplitCells | data.py:434-450 | every (YEAR, TECH) cell of the decrease part is at most 0 and of the increase part at least 0, and the two add up to the cell's total delta |
| PwrDelta.YearPartFilled | data.py:440-450 | a non-empty part has a row for every horizon year, and years without deltas of that sign read 0 |
| PwrDelta.FillTechSpec | data.py:482-489 | `df.loc[idx] = 0` on a non-empty TECH series adds only that TECH, keeps every sum and keeps the total; an empty series stays empty |
| PwrDelta.FillPart | data.py:479-489 | the grouped part gets every TECH of the whole table when non-empty; each value is its TECH's sum, and the total is the part's total |
| PwrDelta.SignSplitFill | data.py:476-489 | both sign parts are grouped and TECH-filled, and each keeps its part's total |
| PwrDelta.SplitByTech | data.py:476-492 | both filled parts, sorted by TECH name |
| PwrDelta.SortedTechPart | data.py:491-492 | `sort_index()` keeps the filled part and orders it by TECH name |
| PwrDelta.TechSplitCells | data.py:476-492 | per TECH, the decrease is at most 0 and the increase at least 0; together they make the TECH's delta; every TECH of the table is in each non-empty part |
| PwrDelta.GrossChangeAbs | data.py:1232-1236 | `-Σ decrease + Σ increase` of a scenario is the sum of the magnitudes of its deltas, so never negative |
| PwrDelta.GrossChangeOrder | data.py:1192-1242 | for a non-empty dictionary: one entry per scenario holding its gross change, sorted descending when `axis_sort` and by name otherwise, with each scenario's two TECH-filled parts; None for an empty dictionary |
| PwrDelta.GrossOrderByKey | data.py:1236-1237 | ordered by name, the scenario names strictly ascend |
| GenShares.WithOther | data.py:103 | "Other" is `100 - Renewable - Fossil`, so each row's three shares sum to 100 |
| GenShares.ForCountry | data.py:96-99 | with a truthy country exactly its rows are kept, each with its multiplicity; otherwise the frame is returned unchanged |
| GenShares.SharesInSum | data.py:103-104 | each year's three summed shares add up to 100 times that year's row count |
| GenShares.ByYear | data.py:104 | one entry per YEAR of the input, each the column sums of that year's rows |
| GenShares.GenSharesSpec | data.py:87-104 | the years of the chart frame are those of the country's rows, and each year's shares sum to 100 times its row count |
| GenShares.SharesAt | data.py:144 | a year's shares are found exactly when the frame has that year |
| GenShares.TimeseriesDelta | data.py:144 | `df_in2 - df_in1` has a row for every year of both frames, each holding the difference of the two years' shares, and one row per year when the base has distinct years |
| GenShares.CommonYearsDistinct | data.py:144 | distinct base years give the delta one row per year |
| GenShares.TimeseriesDeltaSum | data.py:138-144 | a year's three share deltas sum to 100 times the difference of the row counts, so to 0 with one row per year on each side |
| GenShares.Clip | data.py:164-165 | `clip(upper=0)` is at most 0, `clip(lower=0)` at least 0, at least one of them is 0, and they add up to the value |
| GenShares.ClipShares | data.py:164-165 | the two clipped share rows are non-positive and non-negative, at least one of them is 0 in every column, and they add up to the delta |
| GenShares.ClipSharesUnique | data.py:164-165 | those clauses determine the parts: any pair meeting them is `clip(upper=0)` and `clip(lower=0)` of the delta |
| GenShares.ClipTimeseries | data.py:164-165 | every year row of the timeseries delta keeps its year and is split as above: signs, one part 0 per column, sum |
| GenShares.Relabel | data.py:148-149 | the two metric names are shortened to "Renewable" and "Fossil" and every value is kept |
| GenShares.First | data.py:153-155 | `.iloc[0]` on a label's rows is the first such row's value, or None when there is none |
| GenShares.HorizonShares | data.py:147-155 | the horizon shares exist exactly when both metrics are present; Renewable and Fossil are then the first relabelled metric values (`.iloc[0]`), and the three sum to 100 |
| GenShares.HorizonDeltaSum | data.py:157-158 | the horizon delta exists exactly when both sides' shares do, and then its three shares sum to 0 |
| GenShares.GenSharesDelta | data.py:129-186 | the timeseries delta and the horizon delta, both clipped into the two chart parts; each timeseries row keeps its year, its decrease part is non-positive, its increase part non-negative, one of them is 0 in every column, and the parts add back to the delta (the same for the horizon row, data.py:185-186), so both are pinned to `clip`'s value; None where `.iloc[0]` fails |
| ScenarioDelta.YearDelta | data.py:717-720 | `df2 - df1` on the YEAR index has one row per year present on both sides, holding the scenario's VALUE minus the base's |
| ScenarioDelta.HorizonDeltaMatched | data.py:722-723 | with one row per year and the same years on both sides, the horizon delta is the scenario total minus the base total |
| ScenarioDelta.ForCountry | data.py:714-717 | the (YEAR, VALUE) rows of one country, and nothing else |
| ScenarioDelta.Countries | data.py:707 | each country of the base frame once |
| ScenarioDelta.CountryKeptIff | data.py:722-725 | a country is kept exactly when its horizon delta is more than 0.0005 from 0 |
| ScenarioDelta.KeptCountriesMembers | data.py:712-728 | the kept countries are those of the list whose rounded total is not 0 |
| ScenarioDelta.CountryLoop | data.py:712-728 | the loop keeps countries in list order; for each kept one it holds the rounded total, which is non-zero, and its per-year delta; `n` counts them |
| ScenarioDelta.CountriesWithDelta | data.py:701-730 | the kept countries are exactly the base frame's countries with a non-zero rounded total, with their per-year deltas; the subplot row count is `ceil(n / 2)` |
| ScenarioDelta.HorizonDeltaOrder | data.py:1018-1050 | None exactly when a per-scenario baseline is missing (KeyError); otherwise one entry per scenario, each its horizon delta against its baseline, sorted by value when `axis_sort` and by name otherwise |
| ScenarioDelta.BuiltCapacity | data.py:1149-1155 | the first `TRN{key}` row's VALUE, or 0 when there is none |
| ScenarioDelta.MaxCapacity | data.py:1157-1162 | the VALUE of the first non-zero `TRN{key}` row; None exactly when there is none (`.iloc[0]` raises) |
| ScenarioDelta.TransmissionCapacity | data.py:1141-1169 | None exactly when some key has no non-zero maximum; otherwise one maximum per key, sorted descending when `axis_sort` and by name otherwise, with the built capacities reindexed to that order and None for a key the built dictionary lacks |
| ScenarioDelta.Reindex | data.py:1169 | `reindex` puts each key's built capacity at that key's position, and None where it is missing |
| EmissionLimit.StripLabels | data.py:356 | every EMISSION label loses its "CO2", and nothing else changes |
| Strings.StripCo2Unchanged | data.py:356 | a label is left alone exactly when it has no "CO2" |
| Strings.StripCo2Removes | data.py:356 | a label containing "CO2" loses at least those three characters |
| EmissionLimit.SplitColumns | data.py:357-359 | a column goes to the first part exactly when every value is at most 100 and to the second otherwise; no column is lost and distinct columns stay distinct |
| EmissionLimit.Restrict | data.py:357-359 | a column selection keeps every year row and each selected cell |
| EmissionLimit.FormatLineEmissionLimit | data.py:350-359 | the labels are stripped in the caller's frame; the two line-chart frames are the unstacked frame restricted to the two column sets |
| EmissionLimit.LimitSplitSpec | data.py:356-359 | the two column sets are disjoint and together hold every stripped label; a label is in the first exactly when its yearly sum is at most 100 in every year |
| EmissionLimit.LimitFramesCells | data.py:356-359 | every cell of either frame is the sum of the stripped rows with that (YEAR, label) key |
| Ordering.Sort | data.py:1047-1050 | the sort result is ordered by the chosen order (value ascending, value descending, or key) and is a permutation of its input |
| Ordering.SortByKeyAscending | data.py:1049-1050 | `sort_index()` on distinct keys gives strictly ascending keys |
| Ordering.PermutationKeys | data.py:1047-1050 | a permutation keeps the key set and the values stored under each key |
| Strings.StrLtTotal | data.py:1049-1050 | the string order used by `sort_index()` is total on distinct strings |
| Strings.StrLtTransitive | data.py:1049-1050 | that string order is transitive |

## Left out

- Float behaviour. Values are exact reals, so `round(x, 2)`, `round(x, 3)`
  and the division by 3.6 are exact. The representation error of binary
  floats is not modelled.
- Grouped and merged row order. `groupby` sorts its keys, and so does the
  outer merge in `calculate_results_delta` (utils.py:50); `Tables.GroupSum`
  and `Utils.Merged` keep them in first-appearance order instead. Every property above holds for any row
  order. The explicit `sort_values` / `sort_index` calls are modelled.
- Ties in `sort_values`. Pandas' default quicksort is not stable, so equal
  values may come out in any order. `Ordering.Sort` promises sortedness and a
  permutation, not a particular tie order.
- Multi-scenario column order. `reindex(sorted(columns), axis=1)` in the
  multi-scenario capacity chart orders columns for drawing only. Cells are
  looked up by name.
- Unstacked column order. The columns `unstack()` produces are in
  first-appearance order here; pandas sorts them.
- NaN alignment rows. A year present on one side of `df2 - df1` gives NaN.
  `df.sum()` skips it, so the model keeps only the years of both sides; the
  per-country frames also omit those NaN rows.
- ScenarioDelta.YearDelta: repeated years within one frame make
  pandas align every pair of duplicate rows. The model takes the first row of
  each year on each side. `ScenarioDelta.HorizonDeltaMatched` states the
  intended total for frames with one row per year.
- GenShares.TimeseriesDelta: duplicate years cannot occur on this path,
  because the frames are grouped by YEAR first. Duplicate metric labels on the
  horizon side are not modelled beyond the 'Other' row: its computation takes
  the first row with the label through `.iloc[0]`, while the subtraction
  `df_in4 - df_in3` (data.py:157) would align every pair of duplicate rows. The
  model pairs the first row of each label on each side.
- In-place index changes with no effect on values. These are not modelled:
  - `set_index(..., inplace=True)` on the callers' frames;
  - `rename(..., inplace=True)` of the share columns;
  - the `Metric` relabelling and `drop(columns=['Unit'])` on the callers'
    horizon frames.

  The in-place value writes are not modelled either: the 'Other' column added
  to `df_in1` and `df_in2` (data.py:138, 141) and the 'Other' row appended to
  `df_in3` and `df_in4` (data.py:151-155) change the callers' frames. The model
  returns the derived tables instead.
- Rendering. Every matplotlib and cartopy call is left out: bar bottoms, axis
  limits, legends, subplot grids, `savefig`. Only the subplot row count of the
  per-country chart is kept.
- Figure geometry. `make_space_above` and `plot_is_empty` work on figure
  objects and are not part of this model.
- Unused glue. `read.py`, `main.py` and the configuration modules are not
  part of this model. They read fixed CSV files, dispatch on flags and hold
  colour tables.
