# Packaging optimizer and KPI tracker, modelled in Dafny

This project models the computational core of two sustainability-analysis
scripts.

**`PackagingSustainabilityOptimizer`** works through these steps:

- It checks that a packaging table has the five required columns.
- It min-max scales the four numeric columns into new `<column>_normalized`
  columns.
- It scores every row with the minimum of a linear objective over the box
  [0, 1]^4.
- It sorts the (material, score) pairs ascending by score.
- Display, export and the two results charts are blocked until that ranking
  exists. The metric-breakdown chart needs only the four normalized columns.

**`SustainabilityKPITracker`** works through these steps:

- It checks that a KPI table has its four required columns.
- It adds a Performance column, `Actual / Target * 100`.
- It adds a Status column: "On Track" exactly when the performance is at
  least 100, otherwise "Needs Improvement".
- It summarizes each KPI, with the mean performance and the number of rows
  that are on track.
- It groups the performances by (Date, KPI) for the trend chart.
- Its summary, charts and export need the Performance column.

A table is a `Frame`: a map from column name to a sequence of cells, plus a
row count. Numbers are Dafny `real`s. Each script's object is a class whose
fields its methods update:

- `Optimizer` holds `data` and `optimizedResults`.
- `Tracker` holds `data`.

The in-place loops are methods with loop invariants, proved against
specification functions:

- the required-column check;
- the loop over the columns to normalize;
- the loop over the rows that scores them.

The arithmetic, the sort and the group-bys are functions with lemmas. The
scripts' errors are modelled as an `Error` datatype:

- `Wrappers.Message` gives each `ValueError`'s text as the scripts word it;
  `Wrappers.MissingColumnMessageNamesColumn` shows a missing-column message
  names its column.
- Pandas' `KeyError` for a missing column is `ColumnKeyError`.

Because the packaging objective does not depend on the row, its minimum over
the box is the same for every material: the sum of the negative weights, or
0 for the default weights. `Packaging.RankedResultsInRowOrder` proves what
this means for the output: the stable sort keeps the rows in input order, so
the ranking goes by table position and not by any material's properties.

Validation follows the code: it stops at the first missing column in the
list order of the required names and reports only that one.

## Model

| member | source | states |
|---|---|---|
| Validation.CheckRequired | Packaging_Sustainability_Optimizer_Script.py:24-29 | passes exactly when every required name is a column; otherwise fails with `MissingColumn` naming the first missing name in list order |
| Wrappers.MissingColumnMessageNamesColumn | Packaging_Sustainability_Optimizer_Script.py:29 | the missing-column message is a fixed prefix followed by the column name, so distinct missing columns give distinct messages |
| Packaging.Optimizer.Load | Packaging_Sustainability_Optimizer_Script.py:16-29 | fails exactly when one of Material, Cost_per_unit, Recyclability, Carbon_Footprint, Durability is missing, naming the first missing one; otherwise a fresh optimizer over the table with no results yet |
| KpiTracker.Tracker.Load | Sustainability_KPI_Tracker_Script.py:27-34 | fails exactly when one of KPI, Target, Actual, Date is missing, naming the first missing one; otherwise a fresh tracker over the table, whatever Performance column it may already hold |
| Normalization.UnitPoint | Packaging_Sustainability_Optimizer_Script.py:36-39 | a value of `[lo, hi]` scales into [0, 1], scaling back recovers it, and it scales to 0 exactly when it is `lo` and to 1 exactly when it is `hi` |
| Normalization.UnitOrder | Packaging_Sustainability_Optimizer_Script.py:36-39 | scaling keeps the order of two values, in both directions |
| Normalization.Unit | Packaging_Sustainability_Optimizer_Script.py:36-39 | `(v - min) / (max - min)` for one cell; `UnitPoint` and `UnitOrder` state its properties |
| Normalization.Scale | Packaging_Sustainability_Optimizer_Script.py:36-39 | the scaled column has one value per cell; `ScaleIndex` gives each as `Unit` of that cell on the column's range |
| Normalization.ScaleProperties | Packaging_Sustainability_Optimizer_Script.py:36-39 | for a column with max > min, every scaled value `(v - min)/(max - min)` is in [0, 1] and rescales to `v`; exactly the minimum rows map to 0 and the maximum rows to 1; order is kept; the scaled column has minimum 0 and maximum 1 |
| Normalization.ScaledRange | Packaging_Sustainability_Optimizer_Script.py:36-39 | the scaled column's minimum is 0 and its maximum is 1 |
| Normalization.NormalizedNameInjective | Packaging_Sustainability_Optimizer_Script.py:36 | distinct columns get distinct `<column>_normalized` names |
| Normalization.ToNormalizeIsPlan | Packaging_Sustainability_Optimizer_Script.py:33 | the four columns to normalize are distinct, and none is the normalized name of another |
| Normalization.NormalizeOne | Packaging_Sustainability_Optimizer_Script.py:35-39 | one pass of the loop body keeps the table well formed and its row count |
| Normalization.NormalizeFirst | Packaging_Sustainability_Optimizer_Script.py:34-39 | the first `k` passes of the loop keep the table well formed and its row count |
| Normalization.KeepsPlanColumn | Packaging_Sustainability_Optimizer_Script.py:34-39 | after any number of passes the columns to normalize are present exactly as before, with their cells unchanged |
| Normalization.NormalizeStep | Packaging_Sustainability_Optimizer_Script.py:34-39 | pass `k` reads the original column, which can still be scaled; it writes its scaled `<column>_normalized` when the column is present and changes nothing otherwise |
| Normalization.Normalized | Packaging_Sustainability_Optimizer_Script.py:31-39 | the normalized table is well formed, keeps the row count and can be normalized again |
| Normalization.AddedByIff | Packaging_Sustainability_Optimizer_Script.py:34-36 | a name is written by the first `k` passes exactly when it is the normalized name of one of the first `k` columns that is present |
| Normalization.NormalizeFirstKeeps | Packaging_Sustainability_Optimizer_Script.py:34-39 | after `k` passes a column is present exactly when it was or a pass wrote it, and a column no pass writes keeps its cells |
| Normalization.NormalizeFirstScaled | Packaging_Sustainability_Optimizer_Script.py:34-39 | from its own pass on, `<column>_normalized` holds the scaled column |
| Normalization.NormalizedKeeps | Packaging_Sustainability_Optimizer_Script.py:34-39 | every column whose name is no normalized name keeps its cells |
| Normalization.NormalizedAdds | Packaging_Sustainability_Optimizer_Script.py:34-39 | each present column to normalize gets its scaled `<column>_normalized` column |
| Normalization.NormalizedSpec | Packaging_Sustainability_Optimizer_Script.py:31-39 | normalization only adds columns: same row count, other columns keep their cells, each present column gets its scaled column, no other name appears, and every column no pass writes keeps its cells |
| Normalization.NormalizedIdempotent | Packaging_Sustainability_Optimizer_Script.py:31-39 | normalizing twice gives the same table as normalizing once |
| Packaging.NormalizedKeepsRequired | Packaging_Sustainability_Optimizer_Script.py:26-39 | each required column survives normalization with its cells unchanged |
| Packaging.NormalizedAddsNumeric | Packaging_Sustainability_Optimizer_Script.py:34-39 | each present column to normalize gets a numeric normalized column |
| Packaging.NormalizedIsScorable | Packaging_Sustainability_Optimizer_Script.py:31-39 | a validated table keeps its required columns and Material column, and gains the four numeric normalized columns the row loop reads |
| Packaging.Optimizer.NormalizeColumns | Packaging_Sustainability_Optimizer_Script.py:31-39 | the loop over the four columns leaves `data` equal to the normalized table and leaves the results as they were |
| Objective.Objective | Packaging_Sustainability_Optimizer_Script.py:53-60 | `objective_function`: `wc*x0 + wr*(1 - x1) + wcf*x2 + wd*(1 - x3)`; its bounds over the box are the lemmas below |
| Objective.BestCorner | Packaging_Sustainability_Optimizer_Script.py:67 | the corner chosen per weight sign lies in the box `[(0, 1)] * 4` |
| Objective.TermBound | Packaging_Sustainability_Optimizer_Script.py:55-60 | a weighted term over [0, 1] is at least `min(0, weight)` |
| Objective.ObjectiveAtLeast | Packaging_Sustainability_Optimizer_Script.py:55-67 | every point of the box scores at least the sum of `min(0, w_i)` |
| Objective.BestCornerValue | Packaging_Sustainability_Optimizer_Script.py:55-67 | the best corner scores exactly the sum of `min(0, w_i)` |
| Objective.BoxMinimum | Packaging_Sustainability_Optimizer_Script.py:67 | the score is a lower bound of the objective over the box that the objective attains there |
| Objective.MinimumIsNegativeWeightSum | Packaging_Sustainability_Optimizer_Script.py:53-67 | any attained lower bound over the box is the sum of `min(0, w_i)`, so the minimum does not depend on the start point `x0` |
| Objective.NonNegativeWeightsMinimum | Packaging_Sustainability_Optimizer_Script.py:41-67 | with non-negative weights (the defaults 0.3, 0.4, 0.2, 0.1 among them) the minimum is 0, attained at (0, 1, 0, 1) |
| Objective.DefaultWeightsMinimum | Packaging_Sustainability_Optimizer_Script.py:41 | with the default weights 0.3, 0.4, 0.2, 0.1 of `optimize` (the same as the command-line defaults) every start point's minimum is 0 |
| Objective.MulMonotone | Packaging_Sustainability_Optimizer_Script.py:55-60 | a non-negative weight keeps the order of what it multiplies |
| Objective.ObjectiveOrientation | Packaging_Sustainability_Optimizer_Script.py:55-60 | under non-negative weights, lower cost and carbon footprint and higher recyclability and durability never raise the objective |
| Packaging.StartPoint | Packaging_Sustainability_Optimizer_Script.py:64-65 | `x0` for a row: its four normalized values in the order cost, recyclability, carbon footprint, durability |
| Packaging.RowResults | Packaging_Sustainability_Optimizer_Script.py:62-68 | one (Material, score) pair per row, whose materials are the Material column in row order |
| Packaging.ScoreRows | Packaging_Sustainability_Optimizer_Script.py:62-68 | the loop over the rows builds exactly the row results |
| Ranking.Insert | Packaging_Sustainability_Optimizer_Script.py:70 | inserting into a sorted list keeps it sorted and adds exactly that pair |
| Ranking.Rank | Packaging_Sustainability_Optimizer_Script.py:70 | the result is sorted ascending by score and a permutation of the input |
| Ranking.WithScoreAppend | Packaging_Sustainability_Optimizer_Script.py:70 | filtering by one score distributes over concatenation |
| Ranking.InsertKeepsTies | Packaging_Sustainability_Optimizer_Script.py:70 | insertion places the new pair ahead of the pairs it ties with |
| Ranking.RankIsStable | Packaging_Sustainability_Optimizer_Script.py:70 | for every score, the pairs with that score keep their input order |
| Ranking.RankOfTies | Packaging_Sustainability_Optimizer_Script.py:70 | when all scores are equal the ranking is the input order |
| Ranking.MaterialsOfInsert | Packaging_Sustainability_Optimizer_Script.py:70 | inserting adds exactly the pair's material to the materials |
| Ranking.RankPermutesMaterials | Packaging_Sustainability_Optimizer_Script.py:70 | the ranked materials are a permutation of the input materials |
| Packaging.RankedMaterialsPermuteColumn | Packaging_Sustainability_Optimizer_Script.py:62-70 | the ranked materials are a permutation of the Material column |
| Packaging.RankedResultsInRowOrder | Packaging_Sustainability_Optimizer_Script.py:62-70 | every row scores the sum of `min(0, w_i)`, so the ranking is the row order |
| Packaging.Optimizer.Optimize | Packaging_Sustainability_Optimizer_Script.py:41-71 | normalizes, then stores and returns results with one pair per row, sorted by score, a permutation of the row results, whose materials permute the input Material column |
| Packaging.Optimizer.DisplayResults | Packaging_Sustainability_Optimizer_Script.py:73-82 | fails with "Run optimize() before displaying results." until `optimize` has run; otherwise shows the stored ranking |
| Packaging.ResultsFrame | Packaging_Sustainability_Optimizer_Script.py:89 | the (Material, Score) table has exactly those two columns, one row per result, in ranking order |
| Packaging.Optimizer.ExportResults | Packaging_Sustainability_Optimizer_Script.py:84-91 | fails with "Run optimize() before exporting results." until `optimize` has run; otherwise the (Material, Score) table |
| Packaging.Optimizer.VisualizeResults | Packaging_Sustainability_Optimizer_Script.py:93-99 | fails with "Run optimize() before visualizing results." until `optimize` has run; otherwise the materials and scores in ranking order |
| Packaging.Optimizer.VisualizeMetricBreakdown | Packaging_Sustainability_Optimizer_Script.py:112-116 | passes exactly when all four normalized columns are present; otherwise fails with the normalized-columns message |
| Packaging.Optimizer.VisualizeResultsInteractive | Packaging_Sustainability_Optimizer_Script.py:132-137 | fails with "Run optimize() before visualizing results." until `optimize` has run; otherwise the (Material, Score) table |
| Packaging.RunScript | Packaging_Sustainability_Optimizer_Script.py:156-179 | the main flow fails exactly when a required column is missing, whatever the other columns hold; otherwise every later step goes through and the displayed ranking is the ranked row results of the normalized table |
| Stats.Min | Packaging_Sustainability_Optimizer_Script.py:37-38 | the minimum is an entry and bounds every entry from below |
| Stats.Max | Packaging_Sustainability_Optimizer_Script.py:37-38 | the maximum is an entry and bounds every entry from above |
| Stats.SumAtLeast | Sustainability_KPI_Tracker_Script.py:52 | a lower bound of every entry, times the length, bounds the sum from below |
| Stats.SumAtMost | Sustainability_KPI_Tracker_Script.py:52 | an upper bound of every entry, times the length, bounds the sum from above |
| Stats.Mean | Sustainability_KPI_Tracker_Script.py:52 | the mean lies between the minimum and the maximum |
| Stats.Select | Sustainability_KPI_Tracker_Script.py:111 | a group has one entry per row with that key, and is non-empty exactly when the key occurs |
| Stats.Count | Sustainability_KPI_Tracker_Script.py:53 | the count is the number of occurrences, at most the length |
| KpiPerformance.Performance | Sustainability_KPI_Tracker_Script.py:39 | for a non-zero target, performance times target is 100 times the actual value |
| KpiPerformance.StatusOf | Sustainability_KPI_Tracker_Script.py:40-42 | "On Track" exactly when the performance is at least 100 (so 100 itself is on track), and "Needs Improvement" otherwise |
| KpiPerformance.OnTrackIffTargetMet | Sustainability_KPI_Tracker_Script.py:39-42 | with a positive target, a row is on track exactly when the actual value reaches the target |
| KpiPerformance.OnTrackIffBelowNegativeTarget | Sustainability_KPI_Tracker_Script.py:39-42 | with a negative target, a row is on track exactly when the actual value is at most the target |
| KpiPerformance.PerformanceColumn | Sustainability_KPI_Tracker_Script.py:39 | one performance per row, that row's `Actual / Target * 100` |
| KpiPerformance.Statuses | Sustainability_KPI_Tracker_Script.py:40-42 | one status per performance, that performance's label |
| KpiPerformance.WithPerformance | Sustainability_KPI_Tracker_Script.py:36-42 | the calculated table has the same rows and the old columns plus Performance and Status; every other column keeps its cells; Performance is numeric and holds each row's percentage; Status holds each row's label |
| KpiPerformance.CalculatedRow | Sustainability_KPI_Tracker_Script.py:39-42 | each row's Performance cell is `Actual / Target * 100`, and its Status cell is "On Track" exactly when that is at least 100 |
| KpiPerformance.WithPerformanceIdempotent | Sustainability_KPI_Tracker_Script.py:36-42 | calculating twice gives the same table as calculating once |
| KpiTracker.Tracker.CalculatePerformance | Sustainability_KPI_Tracker_Script.py:36-42 | `data` becomes the calculated table |
| KpiGroups.GroupSummary | Sustainability_KPI_Tracker_Script.py:51-54 | a KPI's average lies between its rows' smallest and largest performance, and its On Track count is at most its row count |
| KpiGroups.Summarize | Sustainability_KPI_Tracker_Script.py:51-54 | the summary has an entry for exactly the KPIs that occur, each that KPI's group summary |
| KpiGroups.CountAtLeast | Sustainability_KPI_Tracker_Script.py:53 | the number of entries reaching a threshold is at most the length |
| KpiGroups.AllAtLeast | Sustainability_KPI_Tracker_Script.py:53 | that number is the whole length exactly when every entry reaches the threshold |
| KpiGroups.SelectStatuses | Sustainability_KPI_Tracker_Script.py:40-53 | the statuses of a KPI's rows are the labels of that KPI's performances |
| KpiGroups.CountOnTrack | Sustainability_KPI_Tracker_Script.py:40-53 | the "On Track" labels of a group are its performances of at least 100 |
| KpiGroups.SummarizeCalculated | Sustainability_KPI_Tracker_Script.py:39-54 | with freshly calculated statuses, a KPI's count is the number of its performances of at least 100, and its average is their mean |
| KpiGroups.SummaryOfCalculated | Sustainability_KPI_Tracker_Script.py:39-54 | after `calculate_performance`, each KPI has a summary entry; its average is the mean of its rows' percentages; its count is the number of those that reach 100, which equals its row count exactly when every row does |
| KpiGroups.Summary | Sustainability_KPI_Tracker_Script.py:51-54 | the summary of a table has an entry for exactly the KPIs in its KPI column, each the group summary of that KPI's rows |
| KpiTracker.Tracker.DisplaySummary | Sustainability_KPI_Tracker_Script.py:44-54 | fails with "Run calculate_performance() before displaying summary." without a Performance column, and with a `KeyError` on Status without a Status column; otherwise it is the per-KPI summary |
| KpiTracker.Tracker.VisualizePerformance | Sustainability_KPI_Tracker_Script.py:59-64 | passes exactly when the Performance column exists; otherwise fails with "Run calculate_performance() before visualizing performance." |
| KpiTracker.Tracker.VisualizeInteractive | Sustainability_KPI_Tracker_Script.py:77-82 | passes exactly when the Performance column exists; otherwise fails with the same message |
| KpiTracker.Tracker.ExportResults | Sustainability_KPI_Tracker_Script.py:98-105 | fails with "Run calculate_performance() before exporting results." without a Performance column; otherwise the whole table |
| KpiGroups.Trend | Sustainability_KPI_Tracker_Script.py:111 | one trend entry per (Date, KPI) pair that occurs, lying between the smallest and largest performance of its rows |
| KpiGroups.TrendKeysNameKpis | Sustainability_KPI_Tracker_Script.py:111 | a pair is a trend key exactly when some row has that date and KPI, and its KPI is then a summary KPI |
| KpiGroups.SingleDateTrend | Sustainability_KPI_Tracker_Script.py:111 | when a KPI's rows all share one date, its (Date, KPI) group is its KPI group |
| KpiGroups.SingleDateTrendIsAverage | Sustainability_KPI_Tracker_Script.py:111 | such a KPI has one trend point, equal to its summary average |
| KpiGroups.TrendOf | Sustainability_KPI_Tracker_Script.py:111 | the trend of a table has an entry for exactly the (Date, KPI) pairs of its rows |
| KpiTracker.Tracker.AddTrendAnalysis | Sustainability_KPI_Tracker_Script.py:108-111 | without a Performance column the group-by fails with a `KeyError`; otherwise the (Date, KPI) trend of the table |
| KpiTracker.RunTracker | Sustainability_KPI_Tracker_Script.py:124-145 | the main flow fails exactly when a required column is missing; otherwise every step goes through, whatever Performance column the table arrived with; the summary, the trend and the exported table are those of the calculated table |

## Left out

- CSV reading and writing (`read_csv`, `to_csv`) and the parsing of dates are left out. A table arrives already loaded as a `Frame`, and an export returns the table it would write. The output file names are not modelled.
- Plotting with matplotlib, seaborn and plotly, `print` output, the `melt` reshaping for the breakdown chart and `logging` are left out. A chart method models only its guard and, for the two results charts, the data they would plot.
- The `argparse` command line is left out; the weights are a parameter of `RunScript`.
- The internals of scipy's `minimize` are left out. `Objective.BoxMinimum` is the exact minimum over the box, which is what a bounded solver converges to on a linear objective; solver tolerances and the returned point are not modelled.
- Floating point, NaN and infinities are left out: numbers are exact reals.
- Normalization.Normalized: requires every column to normalize to be numeric and not constant. On a constant column the script silently writes NaN, and on a text column pandas raises a `TypeError`; neither is modelled.
- Normalization.NormalizeOne: passes over a column that cannot be scaled. `NormalizeStep` proves that this never happens under the precondition of `Normalized`.
- KpiPerformance.WithPerformance: requires numeric Actual and Target columns with no zero target. A zero target gives infinity or NaN in pandas, and that is not modelled.
- KpiTracker.Tracker.DisplaySummary: requires a Performance column that is present to be numeric, since a text column makes pandas' `mean` fail. `display_summary` prints its table; the model returns it.
- KpiTracker.Tracker.AddTrendAnalysis: requires a Performance column that is present to be numeric, for the same reason. After `calculate_performance` it always is.
- KpiTracker.Tracker.Load: models the validation that follows reading the file. `read_csv` with `parse_dates=['Date']` fails inside pandas when the Date column is absent, so on the real script that error comes from reading and not from validation; reading is not modelled.
- Column order in a table is not modelled. A `Frame` is a map from name to column, so nothing is stated about where new columns land.
- The order of the rows in a pandas group-by result is left out. The summary and the trend are maps keyed by KPI and by (Date, KPI).
- Packaging.Optimizer.Optimize: takes the weights as one `Weights` value, not as four keyword arguments.
