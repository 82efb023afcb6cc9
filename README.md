# Long-COVID DALY burden: a verified model of the deterministic core

The repository estimates the disease burden of long-COVID symptoms in
disability-adjusted life years (DALYs). It works in these steps:

1. It averages survey prevalence differences between symptomatic and control
   groups, per symptom and cohort.
2. It forces each symptom's prevalence to be non-increasing over the 6-, 12-
   and 18-month periods.
3. It joins the result with the GHE 2019 disability weights, turns prevalence
   into per-period burden, and weights that burden by severity shares and case
   counts.
4. It fits an exponential decay model, and from posterior draws accumulates a
   burden distribution per symptom.

This project models the deterministic rules under the pandas, PyMC, scipy and
matplotlib calls, and proves properties of them in Dafny.

- **Data frames.** A pandas data frame is a `Frames.Table`: ordered column
  names, a map from column name to a column of cells, and a row count.
  A cell is `Num(x)` over exact reals, `Text(s)` or `Missing` (NaN/None).
- **Frames changed in place.** Where the code assigns columns into the frame
  it was passed, the frame is a `Frames.DataFrame` object. The methods state
  its new contents through `Snapshot()`.
- **Dictionaries.** Python dictionaries keep their insertion order, so they
  are modelled as `Dicts.Dict`: a key sequence plus a map.
- **Inner joins.** `merge` yields the matching row pairs in left-major order
  (`Frames.Merge`).
- **Sorted `groupby`.** It yields the sorted distinct keys under Python's
  code-point string order (`Orders.StrLt`).

Each module follows one source file:

| module | source file |
|---|---|
| `Prepare` | prepare.py |
| `WrangleDaly` | wrangle_daly_adjustment.py |
| `AdjustPrevalence` | adjust_prevalence.py |
| `CalculateBurden` | calculate_burden.py |
| `EstimateDecay` | estimate_decay.py |
| `PlotPrevalenceDecay` | plot_prevalence_decay.py |
| `PlotRawPrevalence` | plot_raw_prevalence.py |
| `Parameters` | utils/parameters.py |

The helper modules are `Wrappers`, `Seqs`, `Orders`, `Dicts`, `Names`,
`Frames` and `Joins`.

## Model

| member | source | states |
|---|---|---|
| Prepare.CleanAndSubset | prepare.py:3-5 | A `KeyError` naming a missing column exactly when one of the five columns is absent. Otherwise the result holds exactly the five columns, in order, and the complete input rows in their original order. |
| Prepare.CleanedIsComplete | prepare.py:5 | No row of the cleaned table has a missing value in the five columns. |
| Prepare.CleanIdempotent | prepare.py:5 | Cleaning an already cleaned table changes nothing. |
| Prepare.FlagMeanDefined | prepare.py:18 | The mean over the rows with a given `symptomatic` flag is a number exactly when such a row has a number in the column; otherwise it is NaN. |
| Prepare.MeanDiff | prepare.py:17-18 | A number exactly when both the symptomatic mean and the control mean exist, and then it is their difference; NaN otherwise. |
| Prepare.MeanDiffShiftInvariant | prepare.py:17-18 | Adding a constant to every value of the column leaves the difference unchanged. |
| Prepare.GroupDiffs | prepare.py:9-13 | One difference per (symptom, cohort_period) group, in group order, each being that group's mean difference. |
| Prepare.DiffTable | prepare.py:12-13 | The reset-index frame: both key columns plus the named difference column, one row per group. |
| Prepare.DifferencesCoverGroups | prepare.py:9-13 | A (symptom, cohort) pair has a row in the difference table exactly when it occurs in the cleaned data. |
| Prepare.DifferencesSorted | prepare.py:9 | The difference rows are in strictly increasing (symptom, cohort) order. |
| Prepare.MergedDifferences | prepare.py:22 | Joining the two difference tables gives one row per group, carrying both the 6-month and the second-period difference of that group. |
| Prepare.ContainsIsSubstring | prepare.py:25 | The substring test is true exactly when the pattern occurs at some position. |
| Prepare.MergePrevalenceData | prepare.py:20-26 | The joined frame plus `months_2nd_period`, with every other column as the join left it. |
| Prepare.MonthsRule | prepare.py:25 | `months_2nd_period` is 18 exactly when `cohort_period` contains "18", and 12 otherwise. |
| Prepare.MergedIsCollapsible | prepare.py:20-33 | The output of the merge meets what the collapse step needs. |
| Prepare.Separated | prepare.py:46-47 | `prevalence_diff_12m` and `prevalence_diff_18m` are the second-period value filtered by months 12 and 18. |
| Prepare.SeparateAndDropColumns | prepare.py:44-50 | The caller's frame gains the two columns. The returned frame is that frame without the four helper columns. |
| Prepare.SecondPeriodSplit | prepare.py:46-47 | A 12-month row carries the value in 12m with 18m missing, and an 18-month row the reverse. Any other row has both missing. |
| Prepare.SeparatedColumns | prepare.py:50 | After the drop, the columns are the input's minus the four helpers, plus 12m and 18m. The other columns are unchanged. |
| Prepare.SymptomMeans | prepare.py:30 | One row per symptom, in sorted order, holding the mean of that symptom's 6-month differences. |
| Prepare.MeansLookup | prepare.py:33 | Merging the means back keeps every row and column in place and adds each row's symptom mean. |
| Prepare.Replaced | prepare.py:36 | Every row's 6-month value becomes its symptom's mean; all other cells stay. |
| Prepare.FirstBySymptom | prepare.py:40 | One row per symptom, with each period value being the first non-missing value among that symptom's rows. |
| Prepare.CollapsePrevalenceData | prepare.py:28-42 | The collapse equals `Collapse` of the merged table. Its shape is `symptom` plus the three period columns, one row per distinct symptom. |
| Prepare.CollapseSorted | prepare.py:40 | The collapsed symptoms are in strictly increasing order. |
| Prepare.CollapseOneRowPerSymptom | prepare.py:40 | A symptom appears in the collapsed table exactly when it appears in the merged table. |
| Prepare.CollapseMean | prepare.py:30-40 | A symptom's collapsed 6-month value is the mean of its per-cohort 6-month differences. |
| Prepare.CollapseFirst | prepare.py:40-47 | A symptom's collapsed 12m and 18m values are the first non-missing 12-month and 18-month second-period values among its rows. |
| Prepare.CleanedTypes | prepare.py:5 | Cleaning typed raw data yields text keys and numeric percentages. |
| Prepare.PrepareRawData | prepare.py:52-61 | Fails exactly when a raw column is missing. Otherwise it gives `symptom` plus the three period columns. |
| Prepare.PreparedSymptoms | prepare.py:52-61 | A symptom is in the prepared table exactly when some complete raw row names it. |
| WrangleDaly.WrangleDalyData | wrangle_daly_adjustment.py:1-20 | The caller's frame ends up with the assignments that succeeded, and the result is the projection or the error. |
| WrangleDaly.Wrangled | wrangle_daly_adjustment.py:12-20 | On success, the columns are exactly `symptom, daly_adjustment, mild, moderate, severe`, with the row count kept. |
| WrangleDaly.WrangledFails | wrangle_daly_adjustment.py:12-18 | Fails exactly when `name_merge_data`, `GHE2019` or one of the three severity flags is missing. |
| WrangleDaly.WrangledError | wrangle_daly_adjustment.py:12-18 | The error is a `KeyError` for the first missing source column, else the `ValueError` with the code's message. |
| WrangleDaly.WrangledCells | wrangle_daly_adjustment.py:12-20 | Row by row, `symptom` is `name_merge_data`, `daly_adjustment` is `GHE2019`, and the flags are as they were. |
| WrangleDaly.AssignedColumns | wrangle_daly_adjustment.py:12-13 | The caller's frame gains exactly the two columns; every other column is unchanged. |
| WrangleDaly.AssignedComplete | wrangle_daly_adjustment.py:14-17 | After the assignments, the required columns are all present exactly when the three flags are. |
| WrangleDaly.FailedAssignmentPersists | wrangle_daly_adjustment.py:12-13 | When `GHE2019` is missing, the call fails, but `symptom` has already been assigned on the caller's frame. |
| AdjustPrevalence.ConservativeAt | adjust_prevalence.py:25-29 | Row by row: 12m becomes min(6m, 12m), then 18m becomes the minimum with the new 12m. All other columns stay. |
| AdjustPrevalence.ConservativeKeeps6m | adjust_prevalence.py:27-28 | The 6-month column is never changed. |
| AdjustPrevalence.ConservativeNonIncreasing | adjust_prevalence.py:27-28 | After the conservative method, no row increases between periods. |
| AdjustPrevalence.ConservativeUnchanged | adjust_prevalence.py:27-28 | A table whose rows are all non-increasing numbers is left unchanged. |
| AdjustPrevalence.ConservativeIdempotent | adjust_prevalence.py:27-28 | Applying the conservative method twice equals applying it once. |
| AdjustPrevalence.ConservativeAdjustment | adjust_prevalence.py:25-29 | Returns the frame it was given, with the three minimum steps applied in place. |
| AdjustPrevalence.AddMeanAllAt | adjust_prevalence.py:34 | `mean_all` is the NaN-skipping mean of the row's three periods; the periods are untouched. |
| AdjustPrevalence.FlattenAt | adjust_prevalence.py:35-36 | Non-decreasing rows get `mean_all` in all three periods; other rows are kept. |
| AdjustPrevalence.PairStepAt | adjust_prevalence.py:39-42 | For each pair, a row whose later value is at least the earlier gets the pair's mean in both. |
| AdjustPrevalence.ResetAt | adjust_prevalence.py:45 | A row whose 18m exceeds its 12m gets `mean_all` in all three periods. |
| AdjustPrevalence.ModerateAt | adjust_prevalence.py:32-53 | Each row's periods after the moderate method are the per-row rule applied to the input row. |
| AdjustPrevalence.ModerateColumns | adjust_prevalence.py:48-52 | The output columns are the input's without the three temporary means. Every other column is unchanged. |
| AdjustPrevalence.ModerateKeepsColumns | adjust_prevalence.py:48-52 | Without clashing temporaries, the output has exactly the input's columns. |
| AdjustPrevalence.ModerateNonIncreasing | adjust_prevalence.py:42-45 | A row with three numbers ends up as three numbers that are non-increasing. |
| AdjustPrevalence.ModerateFlattens | adjust_prevalence.py:34-36 | A non-decreasing row ends up with all three values equal, and their sum equals the original sum. |
| AdjustPrevalence.ModerateKeepsDecreasing | adjust_prevalence.py:35-45 | A strictly decreasing row is left unchanged. |
| AdjustPrevalence.ModerateAdjustment | adjust_prevalence.py:32-53 | Returns the frame it was given, now holding the moderate rule's result. |
| AdjustPrevalence.AdjustedNonIncreasing | adjust_prevalence.py:17-22 | Both named methods leave every numeric row non-increasing; any other method name returns the data unchanged. |
| AdjustPrevalence.AdjustPrevalenceData | adjust_prevalence.py:1-22 | Returns a fresh copy with the chosen method applied. The caller's frame is not in the method's frame of change. |
| CalculateBurden.MergePrevalenceSeverity | calculate_burden.py:3-14 | The prevalence columns are followed by the severity columns without `symptom`. The row count is the sum over symptoms of the product of the two sides' counts. |
| CalculateBurden.MergeMatchesSymptoms | calculate_burden.py:14 | A (prevalence row, severity row) pair is joined exactly when the two symptoms are equal. |
| CalculateBurden.CalculatePeriodBurden | calculate_burden.py:16-34 | Returns the frame it was given, with the three burden columns written in place. |
| CalculateBurden.PeriodBurdenCells | calculate_burden.py:26-32 | Each period's burden is prevalence × DALY weight × 6/12, 7/12 or 21/12. |
| CalculateBurden.PeriodBurdenColumns | calculate_burden.py:28-32 | Exactly the three burden columns are added; every other column is unchanged. |
| CalculateBurden.PeriodBurdenAppends | calculate_burden.py:28-32 | The three burden columns are appended after the existing ones, in period order. |
| CalculateBurden.CalculateSeverityAdjustedBurden | calculate_burden.py:36-55 | The running total equals the sum over periods and dictionary severities of flagged burden × share × cases. |
| CalculateBurden.SeverityAdjustedLinear | calculate_burden.py:53 | The total is linear in `total_cases`, and zero when it is 0. |
| CalculateBurden.FlaggedSumOnlyFlagged | calculate_burden.py:52 | Rows whose flag is not 1 do not affect a flagged sum. |
| CalculateBurden.ZeroProportionIgnored | calculate_burden.py:51-53 | Changing the flags of a severity whose share is 0 does not change the total. |
| CalculateBurden.UnflaggedRowsIgnored | calculate_burden.py:51-53 | Changing burden values on rows no severity flags does not change the total. |
| EstimateDecay.CalculateBetaParams | estimate_decay.py:5-9 | A `ZeroDivisionError` exactly when the variance is 0. |
| EstimateDecay.BetaShapeSum | estimate_decay.py:6-8 | a + b = mean(1-mean)/variance - 1. Both shapes are positive exactly when variance < mean(1-mean). |
| EstimateDecay.BetaRoundTrip | estimate_decay.py:5-9 | For 0<mean<1 and 0<variance<mean(1-mean): a/(a+b) is the mean, and ab/((a+b)²(a+b+1)) is the variance. |
| EstimateDecay.CalculateGammaParams | estimate_decay.py:12-15 | A `ZeroDivisionError` exactly when the mean or the variance is 0. |
| EstimateDecay.GammaRoundTrip | estimate_decay.py:12-15 | alpha·theta is the mean and alpha·theta² is the variance. |
| EstimateDecay.SetupHyperpriors | estimate_decay.py:26-30 | The hyperparameters exist exactly when all three Gamma conversions succeed. |
| EstimateDecay.DefaultHyperpriors | estimate_decay.py:18-30 | The defaults give (1/3, 3), (250, 0.2) and (0.1, 10). |
| EstimateDecay.PrepareData | estimate_decay.py:67-74 | Three parallel arrays, each rows × value-columns long. |
| EstimateDecay.MeltedCell | estimate_decay.py:69-73 | Entry (column j, row i) sits at j·rows + i. It carries the column's month label and the cell coerced and divided by 100, and its code names row i's symptom among the sorted categories. |
| EstimateDecay.PeriodTimes | estimate_decay.py:69-70 | For the three period columns, the times are 6, 12 and 18 in consecutive blocks of `rows`. |
| EstimateDecay.PeriodLabels | estimate_decay.py:70 | The three period labels map to 6, 12 and 18. |
| EstimateDecay.CategoriesSpec | estimate_decay.py:73 | The categories are strictly sorted, and are exactly the distinct symptom names. |
| EstimateDecay.CategoriesCount | estimate_decay.py:73 | There are as many categories as distinct symptoms. |
| EstimateDecay.CodesFitModel | estimate_decay.py:59-73 | Every code is a valid index into per-symptom parameter arrays sized by the distinct symptoms. |
| EstimateDecay.DecayBetween | estimate_decay.py:59 | For a non-negative baseline and rate, `baseline · exp(-rate · t)` is non-negative, never rises with t ≥ 0 and never exceeds the baseline (given an exponential that is positive, non-decreasing and 1 at 0). |
| EstimateDecay.MonthlyDecay | estimate_decay.py:59 | A non-negative curve evaluated at 18, 12 and 6 months gives a non-increasing run between 0 and its baseline. |
| EstimateDecay.PredictionDecays | estimate_decay.py:59 | Of two observations of the same symptom, the later is predicted no higher than the earlier, and both lie between 0 and the symptom's baseline. |
| EstimateDecay.PreparedRow | estimate_decay.py:67-74 | On the prevalence table, row i is melted to positions i, rows + i and 2·rows + i, at 6, 12 and 18 months, all carrying the code of row i's symptom. |
| EstimateDecay.PreparedPrediction | estimate_decay.py:59-74 | On the prepared prevalence table, row i's three predictions are baseline[c]·exp(-rate[c]·6), ·12 and ·18 for its symptom's code c, a non-increasing run bounded by baseline[c]. |
| PlotPrevalenceDecay.DalySymptoms | plot_prevalence_decay.py:119 | The names are distinct and are exactly those of the DALY table. |
| PlotPrevalenceDecay.BurdenDict | plot_prevalence_decay.py:120-121 | The keys are the symptom names then `'total'`, each holding its list. |
| PlotPrevalenceDecay.CalculateTimeAdjustedBurden | plot_prevalence_decay.py:104-162 | Fails exactly on a missing severity share, or on too few draws, trace columns or case counts. Otherwise there is one list per symptom plus `'total'`, and each list is `num_samples` long. |
| PlotPrevalenceDecay.DrawEntries | plot_prevalence_decay.py:136-157 | One draw appends entry (i, j) to each symptom's list and returns the draw's total. |
| PlotPrevalenceDecay.TotalIsSumOfSymptoms | plot_prevalence_decay.py:134-160 | `total[i]` is the sum over symptoms of their i-th entries. |
| PlotPrevalenceDecay.EntryFormula | plot_prevalence_decay.py:137-153 | Entry (i, j) is integral · cases[i]/12 · the sum, over the symptom's rows, of the DALY weight times the share-weighted severity flags. |
| PlotPrevalenceDecay.SymptomWeightsSum | plot_prevalence_decay.py:137-144 | The filtered rows' weights sum to the symptom's grouped sum over the whole table. |
| PlotPrevalenceDecay.EntryLinear | plot_prevalence_decay.py:150-153 | Scaling every case count by k scales every entry by k. |
| PlotPrevalenceDecay.DrawTotalLinear | plot_prevalence_decay.py:150-157 | Scaling every case count by k scales every draw total by k. |
| PlotRawPrevalence.BurdenBySymptom | plot_raw_prevalence.py:145-164 | A `KeyError` exactly when there are rows and a flag column, a burden column or a share is missing. Its key is the first such lookup the loops make. Otherwise one entry per distinct symptom, in first-appearance order, each being that symptom's burden. |
| PlotRawPrevalence.PeriodMissing | plot_raw_prevalence.py:153-158 | The key it reports is one the periods loop looks up and does not find: the severity's flag column or share, or a period-burden column. |
| PlotRawPrevalence.FirstMissing | plot_raw_prevalence.py:152-158 | The same for the severities loop: a severity's flag column or share, or a period-burden column, that is missing. |
| PlotRawPrevalence.PeriodMissingCases | plot_raw_prevalence.py:153-158 | One severity's loop raises nothing exactly when its flag, its share and the three burden columns exist. A missing flag is met first, and a missing share is met first once the columns exist. |
| PlotRawPrevalence.MissingKeyCases | plot_raw_prevalence.py:152-158 | The loops raise nothing exactly when all three flags, burden columns and shares exist. A missing `mild` flag is the key reported. On a table with every column, the first missing share is. |
| PlotRawPrevalence.MergedBurdenBySymptom | plot_raw_prevalence.py:145-164 | On a table with every column, only a missing share fails, with the first missing share as key. |
| PlotRawPrevalence.UnmergedBurdenBySymptom | plot_raw_prevalence.py:148-155 | A table with rows and no `mild` column fails with `KeyError('mild')`, whatever the shares. |
| PlotRawPrevalence.CalculateWeightedBurdenBySymptom | plot_raw_prevalence.py:145-164 | The nested loops compute the by-symptom dictionary. |
| PlotRawPrevalence.SymptomTotal | plot_raw_prevalence.py:150-161 | One symptom's nine-term accumulation, or the `KeyError` of the first missing flag column, burden column or share. |
| PlotRawPrevalence.AddSeverity | plot_raw_prevalence.py:153-161 | One severity adds its three periods' flagged burden × share × cases, or raises the `KeyError` of the first lookup that fails. |
| PlotRawPrevalence.SymptomBurdenFormula | plot_raw_prevalence.py:152-161 | A symptom's value is cases × Σ over severities of share × that symptom's flagged burden over the three periods. |
| PlotRawPrevalence.SymptomBurdenLinear | plot_raw_prevalence.py:158-161 | Linear in `total_cases`, and zero when all three shares are zero. |
| PlotRawPrevalence.BurdensSum | plot_raw_prevalence.py:148-163 | The per-symptom burdens sum to the grouped severity parts. |
| PlotRawPrevalence.AllSymptomsPart | plot_raw_prevalence.py:155 | Summed over all symptoms, the flagged sums equal the whole-table flagged sum. |
| PlotRawPrevalence.ThreeByThree | calculate_burden.py:48-55 | With a shares dictionary holding exactly mild, moderate and severe, in any order, the whole-table total has the same closed form as the per-symptom sum. |
| PlotRawPrevalence.TermsInAnyOrder | calculate_burden.py:51-55 | A period's three severity terms add up to the same amount whatever order the dictionary lists the severities in. |
| PlotRawPrevalence.BySymptomAddsUp | plot_raw_prevalence.py:152-161 | With shares for exactly the three severities, in any dictionary order, the per-symptom values sum to `calculate_severity_adjusted_burden` of the same frame. |
| PlotRawPrevalence.StepPath | plot_raw_prevalence.py:15-27 | Nine points: x = 0,2,8,8,15,15,36,36,48 and y = 0,p6,p6,p12,p12,p18,p18,0,0 from the given row. |
| PlotRawPrevalence.SymptomPath | plot_raw_prevalence.py:15-27 | The list-extending loop builds exactly the step path. |
| PlotRawPrevalence.PrevalencePaths | plot_raw_prevalence.py:13-27 | One path per distinct symptom, in first-appearance order, each built from the symptom's first row. |
| PlotRawPrevalence.PlateausMatchBurdenSpans | plot_raw_prevalence.py:7-23 | Each plateau spans the same months as the period burden uses, at that period's prevalence. The x values never decrease. |
| PlotRawPrevalence.MaxOf | plot_raw_prevalence.py:101 | The result is an element, and no element exceeds it. |
| PlotRawPrevalence.ScenarioValues | plot_raw_prevalence.py:100-101 | The values of one scenario's burden dictionary, or its error. |
| PlotRawPrevalence.MaxBurden | plot_raw_prevalence.py:95-101 | The nested loops compute the specified scan over every adjustment × severity combination. |
| PlotRawPrevalence.SeverityScenariosMax | plot_raw_prevalence.py:99-101 | The inner loop computes the scan along one adjustment's row. |
| PlotRawPrevalence.RowScanSpec | plot_raw_prevalence.py:99-101 | The row scan succeeds exactly when every cell is usable. Its result bounds every value and is either the start or one of the values. |
| PlotRawPrevalence.GridScanSpec | plot_raw_prevalence.py:95-101 | The same facts for the whole grid, starting from 0. |
| PlotRawPrevalence.UsableScenario | plot_raw_prevalence.py:100-101 | A combination can take part in `max` exactly when its table has rows and every flag and burden column, and its scenario has all three shares. |
| PlotRawPrevalence.MaxBurdenFound | plot_raw_prevalence.py:95-101 | The scan succeeds exactly when every adjusted table has rows and every flag and burden column, and every severity scenario has all three shares. |
| PlotRawPrevalence.UnmergedFirstTableFails | plot_raw_prevalence.py:95-101 | If the first adjusted table has rows but no `mild` column, the scan ends with `KeyError('mild')`. |
| PlotRawPrevalence.MergedScenariosFound | plot_raw_prevalence.py:95-101 | With every adjusted table merged (flags and burden columns present, rows non-empty) and every scenario holding the three shares, the scan finds the axis limit. |
| PlotRawPrevalence.MaxBurdenBounds | plot_raw_prevalence.py:95-101 | `max_burden` is at least 0 and at least every per-symptom burden of every combination. |
| PlotRawPrevalence.MaxBurdenAttained | plot_raw_prevalence.py:95-101 | A nonzero `max_burden` is some combination's burden for some symptom. |
| Parameters.MergeAndDescribe | utils/parameters.py:43-53 | The loop yields one row per merged parameter, in merged order. |
| Parameters.DescribedParameters | utils/parameters.py:45-51 | Parameter names are distinct, and are exactly the default and scenario keys. |
| Parameters.DescribedDefaultsFirst | utils/parameters.py:45 | The default keys come first, in their order. |
| Parameters.DescribedValues | utils/parameters.py:45-50 | A scenario value overrides the default. The description comes from the dictionary, else "No description available". |
| Parameters.FormatDistribution | utils/parameters.py:60-81 | Without numeric `mean`/`sd` or `a`/`b`, the result is "Distribution". |
| Parameters.DistributionKinds | utils/parameters.py:63-81 | "Normal(" exactly when `mean` and `sd` are numeric. Otherwise "Beta(" exactly when `a` and `b` are numeric. Otherwise "Distribution". |
| Parameters.FormatValue | utils/parameters.py:83-90 | Numbers go through the formatter, dictionaries stay dictionaries, and anything else goes through the distribution format. |
| Parameters.FormatValueKeepsShape | utils/parameters.py:87-88 | Dictionaries keep their keys and order at every depth; everything else becomes a string. |
| Parameters.FormatValueOfDict | utils/parameters.py:88 | Each value of a formatted dictionary is its formatted original. |
| Parameters.NotAvailableShowsAsDistribution | utils/parameters.py:81-90 | The `'N/A'` fallback formats as "Distribution". |
| Parameters.ComparisonFallback | utils/parameters.py:99-100 | Mainline falls back from default to `'N/A'`; Pessimistic falls back from scenario to default to `'N/A'`. Without an override, the two are equal. |
| Parameters.GenerateComparisonTable | utils/parameters.py:92-106 | One row per description, in the descriptions' order. A parameter has a row exactly when it has a description. |
| Parameters.ShippedDictionaries | utils/parameters.py:4-41 | The three shipped dictionaries are well formed, and every described parameter has a default. |
| Parameters.ShippedNamesDistinct | utils/parameters.py:4-35 | The description keys are distinct and match the defaults' keys in order. |
| Parameters.ShippedInfectionRate | utils/parameters.py:20-41 | The pessimistic infection rate is the plain number (25/330)/52. The mainline is the Normal((19/330)/52, 0.0001) string. |
| Parameters.ShippedAdjustedOddsRatio | utils/parameters.py:20-41 | Without an override, the AOR shows as Beta(72, 28) in the Pessimistic column. |
| Frames.MergeRowCount | calculate_burden.py:14 | An inner join has, for each key, the product of both sides' counts of rows. |
| Joins.MergeLookup | prepare.py:33 | A right side with distinct keys covering the left gives one joined row per left row, in order. |

## Left out

- Building and sampling the PyMC model, `sample_model`, and the posterior draws: the trace is an input (`PlotPrevalenceDecay.Posterior`).
- `scipy.integrate.quad` and `np.exp` are parameters of the model. The decay lemmas assume only that the exponential is positive, non-decreasing and 1 at 0 (`EstimateDecay.ExpLike`). Floating-point rounding is not modelled: all arithmetic is over exact reals.
- The `.3g` formatting in utils/parameters.py is a function parameter `fmt`.
- squigglepy distribution objects are values seen through their attributes (`Parameters.Value.Obj`).
- All matplotlib drawing and styling, `plot_all_symptoms`, `plot_implied_paths`, `plot_burden_distributions` and the percentile bands are not modelled: they are display code.
- The step path of `plot_symptoms_prevalence_across_scenarios` (plot_raw_prevalence.py:50-64) is the same code as the one modelled and is not repeated.
- main.py is not part of this model: it is orchestration and printing.
- The CSV reads in `prepare_raw_data` are not modelled: the frame read is the input of `Prepare.PrepareRawData`.
- `pd.to_numeric` parsing of strings is a function parameter `parse` of `EstimateDecay.PrepareData`.
- `pd.Categorical` codes for NaN symptoms (-1) are not modelled: symptom names are required to be strings.
- Merge column-name suffixes are not modelled. Joins require disjoint non-key columns. The one suffix the code relies on (`_mean` in `collapse_prevalence_data`) is a rename before the join.
- Python's `bool`-is-`int` equality is not modelled: a severity flag counts when it is exactly the number 1.
- The wording of pandas' own `KeyError` messages is not modelled. The error names the missing key. The one message the code writes (wrangle_daly_adjustment.py:18) is kept verbatim.
- `groupby` on an empty frame, and dtype inference on all-NaN columns, are not modelled.
- The `TypeError` that the "18" rule raises on a non-string `cohort_period` is not modelled. The key columns are required to hold strings.
- Prepare.PrepareRawData: requires typed raw columns: symptom and cohort as strings, percentages as numbers or NaN. pandas' errors on other types are not modelled.
- Prepare.CollapsePrevalenceData: requires the merged frame's columns with the types the merge produces. The `KeyError` for a missing one is not modelled.
- AdjustPrevalence.AdjustPrevalenceData: requires the three period columns to exist and hold numbers or NaN for the two named methods. pandas' `KeyError`/`TypeError` otherwise is not modelled.
- CalculateBurden.CalculatePeriodBurden: requires the prevalence and DALY-weight columns to hold numbers or NaN. The `KeyError` for a missing one is not modelled.
- CalculateBurden.CalculateSeverityAdjustedBurden: requires every severity key of the shares dictionary to be a column. The `KeyError` otherwise is not modelled.
- CalculateBurden.MergePrevalenceSeverity: requires the two sides' non-key columns to be disjoint, since suffixing is not modelled.
- PlotRawPrevalence.CalculateWeightedBurdenBySymptom: requires a `symptom` column of strings, and any period-burden column present to hold numbers or NaN. A missing flag column, burden column or share is modelled as the `KeyError` the code raises, in its lookup order.
- PlotPrevalenceDecay.CalculateTimeAdjustedBurden: requires the DALY table's weights and flags to be numbers. It also requires that no symptom be named `'total'`, because the code would then merge that symptom's list with the totals.
- EstimateDecay.CalculateBetaParams: follows the code, which only divides. No validity check on the variance is made, so negative shapes are returned when variance ≥ mean(1-mean).

## Findings

| source | as written | input that shows it | evidently intended | confidence | as-written member | corrected member |
|---|---|---|---|---|---|---|
| main.py:64 | The `'Moderate'` entry of `adjustment_scenarios` is `moderate_prevalence`, the adjusted table before it is merged with the severity flags and given burden columns. The merged `moderate_prevalence_merged` (main.py:31-32) is never used. | Any run with a non-empty prevalence table. `plot_symptom_burden_by_scenarios` (main.py:74) weighs the `'Moderate'` table first, and that table has no `mild` column, so the first lookup at plot_raw_prevalence.py:155 raises `KeyError('mild')`. | `'Moderate': moderate_prevalence_merged`, so that each adjusted table has the flag and burden columns the burden code reads. | high, not executed | PlotRawPrevalence.UnmergedFirstTableFails | PlotRawPrevalence.MergedScenariosFound |
