# Wayne Enterprises BI dashboard: aggregation and fetch state, in Dafny

This project models the logic of a small business-intelligence dashboard. The
program has a Python back end that reads five CSV tables (financial, security,
R&D, supply chain, HR) and reduces them to six JSON reports. Its React front end fetches the
reports, derives a few more figures from them and shows them.

The model covers three parts.

- **Report aggregation** (`backend-folder/data_processor.py`). Each table is a
  `seq` of row datatypes (module `Tables`). The report records are datatypes
  (module `Schema`). pandas operations take their list meanings (module
  `Aggregate`):
  - `unique()` is `Distinct`: first-appearance order.
  - `groupby(...)` is `GroupBy`: one record per key, the keys sorted
    ascending by a stable insertion sort (module `Ordering`). Strings
    compare code point by code point, as in Python. Periods compare by year,
    then quarter. Facility and product-line pairs compare lexicographically.
    Months compare as numbers.
  - `value_counts()` is `GroupBy` with the order `MoreFrequent`: a key with
    more rows comes first.
  - Boolean indexing is `Select`, `SelectIn` or `Where`.
  - `sum()` and a JavaScript `reduce` are the folds `Sum` and `SumInt`.
    `mean()` is `Mean`, which is NaN for no rows.
  - The guarded ratio `x / y * 100 if y > 0 else 0` is `GuardedPercent`.

  `ForEach` builds one record per key of a given key list, from that key's
  group. `ForEachKey` uses the `unique()` list, and `GroupBy` the sorted one.
  Loops implement them: `CollectPerKey`, `CollectGroups` and
  `CollectNested`, each proved equal to its function. Each `get_*` report is
  a method built from those loops and is proved equal to a report function.
  The properties are proved about the report functions:
  - one record per key, in the order the code produces;
  - per-key totals that partition the table's total;
  - counts that add up to the number of rows, in non-increasing order for
    `value_counts()`;
  - means within the bounds of their rows;
  - `last()` is the last row of the key.

  The executive summary's scalar KPIs are pure functions (module
  `ExecutiveSummaryReport`).
- **Display figures** (`security.tsx`, `finance.tsx`, `summary.tsx`). These
  are pure functions over the report records:
  - totals, and means with no empty-list guard;
  - clamped bar widths;
  - the palette cycle;
  - the eight summary cards and their trend colours.

  JavaScript numbers that can become NaN or infinite are modelled by
  `Numbers.Number`, which is `Finite(real) | NaN | PosInf | NegInf`, with
  exact real arithmetic.
- **Dashboard page** (`frontend/app/dashboard/page.tsx`). The page is a
  class, `Dashboard.DashboardPage`. Its fields are the eight React state slots.
  Its `FetchData` method takes the six request outcomes as an input, in
  `Promise.all` order. `View` selects the loading screen, the error screen or
  the content.

All numbers are exact (`real` or `int`); rounding is not modelled. Each row
carries its date as a `yyyymmdd` natural. `Tables.MonthOf` computes
`yyyymm` from it; this number is the month period that `.dt.to_period('M')`
groups by.

## Model

| member | source | states |
|---|---|---|
| Ordering.SortByPermutes | backend-folder/data_processor.py:106 | sorting the keys keeps every key exactly as often as before |
| Ordering.SortByMembers | backend-folder/data_processor.py:106 | sorting keeps exactly the same members and adds no duplicate |
| Ordering.SortBySorted | backend-folder/data_processor.py:106 | the sorted list never has a key after one it is below |
| Ordering.SortedDistinctIncreasing | backend-folder/data_processor.py:106 | under a total order, a sorted list without duplicates strictly increases |
| Ordering.NoDuplicatesMultiset | backend-folder/data_processor.py:108 | a list holds no key twice exactly when every multiplicity is at most 1 |
| Ordering.StringOrder | backend-folder/data_processor.py:196 | Python's string comparison is irreflexive, transitive and total |
| Tables.PeriodOrder | backend-folder/data_processor.py:134 | year-then-quarter order is a strict total order |
| Tables.PairOrder | backend-folder/data_processor.py:323 | facility-then-product-line order is a strict total order |
| Tables.MonthOrder | backend-folder/data_processor.py:172 | month order is a strict total order |
| Aggregate.Distinct | backend-folder/data_processor.py:123 | `unique()`: holds each key of the column exactly once and nothing else |
| Aggregate.DistinctInFirstAppearanceOrder | backend-folder/data_processor.py:123 | distinct keys come in the order of their first appearance in the column |
| Aggregate.SortedKeys | backend-folder/data_processor.py:106 | the group keys of a `groupby`: each key of the column exactly once, nothing else |
| Aggregate.SortedKeysIncreasing | backend-folder/data_processor.py:106 | under a strict total order the group keys strictly increase |
| Aggregate.Select | backend-folder/data_processor.py:124 | `df[df[key] == k]`: exactly the rows with key `k`, non-empty when `k` occurs |
| Aggregate.SelectIn | backend-folder/data_processor.py:72 | `isin`: a row is kept exactly when it is in the table and its key is in the list; never more rows than the table |
| Aggregate.SelectInListed | backend-folder/data_processor.py:72 | `isin` with a list that names every key of the column keeps the whole table |
| Aggregate.Where | backend-folder/data_processor.py:64 | boolean filter: a row is kept exactly when it is in the table and satisfies the predicate |
| Aggregate.SumConcat | frontend/components/finance.tsx:25 | the fold over a concatenation is the sum of the two folds |
| Aggregate.SumPermutation | frontend/components/security.tsx:17-23 | a real-valued sum, such as the response-time and safety-score reduces, has the same value for any ordering of the same terms |
| Aggregate.SumIntPermutation | frontend/components/security.tsx:25-27 | an integer sum, such as the deployment reduce, has the same value for any ordering of the same terms |
| Aggregate.Mean | backend-folder/data_processor.py:65 | pandas `mean()`: NaN exactly for no rows, otherwise finite with mean × count = sum |
| Aggregate.GuardedPercent | backend-folder/data_processor.py:55 | result × whole = part × 100 when whole > 0, and exactly 0 otherwise |
| Aggregate.CollectPerKey | backend-folder/data_processor.py:122-131 | the `for … in unique(): append` loop returns `ForEach` over the given keys: one record per key, from that key's group |
| Aggregate.CollectGroups | backend-folder/data_processor.py:134-140 | the loop over a `groupby` result returns `GroupBy`: one record per key, in sorted key order |
| Aggregate.CollectNested | backend-folder/data_processor.py:107-119 | the two-level loop returns, for each outer key, its group grouped again by the inner key in sorted order |
| Aggregate.NestedAt | backend-folder/data_processor.py:108-119 | outer record `i` is built from the `i`-th key's group, grouped by the inner key in sorted order |
| Aggregate.GroupBySorted | backend-folder/data_processor.py:134-140 | a grouping lists each key of the column once, in strictly increasing order, each record from its own key's group |
| Aggregate.ByFrequencyNonIncreasing | backend-folder/data_processor.py:229 | `value_counts()` keys come with group sizes that never increase along the list |
| Aggregate.SelectLast | backend-folder/data_processor.py:196 | `groupby().last()` of a group is the table's last row with that key |
| Aggregate.ForEachLast | backend-folder/data_processor.py:52 | the row `groupby().last()` keeps for a listed key is the table's last row with that key |
| Aggregate.ForEachLastKeys | backend-folder/data_processor.py:52 | the rows `groupby().last()` keeps carry the listed keys, one each, and are rows of the table |
| Aggregate.WhereLast | backend-folder/data_processor.py:81 | the last row a filter keeps is the table's last row that passes it |
| Aggregate.ForEachLabels | backend-folder/data_processor.py:122-131 | records that carry their key list exactly the given keys, in their order |
| Aggregate.ForEachSum | backend-folder/data_processor.py:238-248 | per-key sums over any listing of the column's keys add up to the sum over the whole table |
| Aggregate.ForEachCount | backend-folder/data_processor.py:229-235 | per-key group sizes over any listing of the column's keys add up to the number of rows |
| Aggregate.ForEachReordered | backend-folder/data_processor.py:106-108 | two listings of the same keys give the same records, as a multiset |
| Aggregate.MeanBounds | backend-folder/data_processor.py:188 | the mean of a non-empty group lies between any bounds of its values |
| Numbers.Divide | frontend/components/security.tsx:17-19 | JavaScript `/`: NaN for 0/0, an infinity of the right sign for x/0, otherwise finite with quotient × divisor = dividend |
| Numbers.Scale | frontend/components/security.tsx:134 | `* 100` keeps NaN and the infinities and scales a finite value |
| Numbers.Min | frontend/components/security.tsx:134 | `Math.min(x, c)`: NaN stays NaN, never above `c`, equal to `x` when `x <= c` |
| ExecutiveSummaryReport.ProfitMargin | backend-folder/data_processor.py:52-55 | margin × revenue = profit × 100 over the latest 2024 row of each quarter when revenue > 0, else 0 |
| ExecutiveSummaryReport.RevenueGrowth | backend-folder/data_processor.py:58-60 | growth × Q4-2023 revenue = (Q4-2024 − Q4-2023) × 100 when the base > 0, else 0 |
| ExecutiveSummaryReport.ActiveProjects | backend-folder/data_processor.py:70-71 | at most the number of projects; its value is the `Active` status count by `RdReport.ActiveProjectsMatchStatus` |
| ExecutiveSummaryReport.HighPotentialProjects | backend-folder/data_processor.py:72 | at most the number of projects |
| ExecutiveSummaryReport.TotalEmployeesOfTable | backend-folder/data_processor.py:81 | 0 when no row is from 2024; otherwise the head count of the table's last 2024 row |
| ExecutiveSummaryReport.ExecutiveSummaryOf | backend-folder/data_processor.py:47-94 | project counts within 0 and the project total; margin 0 without revenue; response time and retention NaN exactly when no row is recent |
| ExecutiveSummaryReport.LatestQuartersSorted | backend-folder/data_processor.py:52 | one row per quarter that has 2024 rows, quarters in strictly increasing order, each a 2024 row of the table |
| ExecutiveSummaryReport.LatestQuarterIsLastRow | backend-folder/data_processor.py:52 | each row of `latest_quarter` is the last 2024 row of its quarter |
| ExecutiveSummaryReport.EarlierSecurityRowsIgnored | backend-folder/data_processor.py:64-66 | a security row dated before 2024-06-01 changes neither the incident sum nor the response-time mean |
| ExecutiveSummaryReport.EarlierHrRowsIgnored | backend-folder/data_processor.py:76-78 | an HR row dated before 2024-06-01 changes neither HR mean |
| ExecutiveSummaryReport.HighPotentialIsTwoCounts | backend-folder/data_processor.py:72 | the high-potential count is the `High` count plus the `Very High` count |
| ExecutiveSummaryReport.TotalEmployeesAsWrittenRaises | backend-folder/data_processor.py:81 | a table with one 2023 row makes the head count as written raise |
| ExecutiveSummaryReport.TotalEmployeesAgrees | backend-folder/data_processor.py:81 | the code as written raises exactly for a non-empty table without 2024 rows, and otherwise equals the corrected count |
| FinancialReport.MarginEntry | backend-folder/data_processor.py:124-131 | a division's margin is its profit over its revenue in percent, 0 when that revenue is not positive |
| FinancialReport.MarginOverDivisionRows | backend-folder/data_processor.py:122-131 | margin `i` belongs to the `i`-th distinct division and uses the guarded ratio over only that division's rows |
| FinancialReport.LastPresent | backend-folder/data_processor.py:143 | `last()` skipping missing values: present exactly when some row has a share, and then the share of a row after which none has one |
| FinancialReport.KeepPresent | backend-folder/data_processor.py:144-150 | `pd.notna` filter: a record is kept exactly when its division's latest share is present |
| FinancialReport.KeepPresentConcat | backend-folder/data_processor.py:144-150 | the filter keeps records in their order: filtering a concatenation concatenates the filtered parts |
| FinancialReport.KeepPresentIncreasing | backend-folder/data_processor.py:144-150 | filtering a list in increasing division order leaves it in increasing order |
| FinancialReport.CollectPresentShares | backend-folder/data_processor.py:144-150 | the filtering loop returns `KeepPresent` |
| FinancialReport.GetFinancialOverview | backend-folder/data_processor.py:100-157 | the report built by the loops is `FinancialOverviewOf` the table |
| FinancialReport.RevenueTrendsTotal | backend-folder/data_processor.py:106-119 | all revenue-trend points together add up to the table's revenue |
| FinancialReport.RevenueTrendsSorted | backend-folder/data_processor.py:106-108 | one revenue trend per division of the table, divisions in strictly increasing order |
| FinancialReport.TrendPoints | backend-folder/data_processor.py:106-119 | trend `i` is the `i`-th sorted division; its points list that division's periods in strictly increasing order, each with the division's revenue in that period |
| FinancialReport.OnePerDivision | backend-folder/data_processor.py:122-131 | one margin per distinct division, in first-appearance order |
| FinancialReport.RdInvestmentTrendsPartition | backend-folder/data_processor.py:134-140 | one R&D point per period of the table, periods in strictly increasing order; together they add up to the table's R&D investment |
| FinancialReport.MarketShareSorted | backend-folder/data_processor.py:143-150 | the market share lists its divisions in strictly increasing order |
| FinancialReport.MarketShareListsDivision | backend-folder/data_processor.py:143-150 | a division is listed exactly when one of its rows has a share |
| FinancialReport.MarketShareIsLastPresent | backend-folder/data_processor.py:143-150 | a listed division's share is `LastPresent` of that division's rows: the share of a row after which none of its rows has one |
| FinancialReport.ListedHasShare | backend-folder/data_processor.py:143-150 | a listed division has a row with a share |
| FinancialReport.ShareIsListed | backend-folder/data_processor.py:143-150 | a division with a row with a share is listed |
| SecurityReport.ResponseEntry | backend-folder/data_processor.py:186-192 | a district's response time × its row count = the sum of its response times |
| SecurityReport.GetSecurityMetrics | backend-folder/data_processor.py:163-217 | the report built by the loops is `SecurityMetricsOf` the table |
| SecurityReport.IncidentTrendsTotal | backend-folder/data_processor.py:169-182 | all monthly incident points together add up to the table's incidents |
| SecurityReport.IncidentPoints | backend-folder/data_processor.py:170-182 | trend `i` is the `i`-th distinct district; its points list that district's months in increasing order, each with its incidents in that month |
| SecurityReport.OnePerDistrict | backend-folder/data_processor.py:170-192 | the incident trends and the response times have one record per distinct district, in first-appearance order |
| SecurityReport.LatestPerDistrictSorted | backend-folder/data_processor.py:195-210 | the safety scores and the deployments have one record per district, districts in strictly increasing order |
| SecurityReport.ResponseTimeWithinBounds | backend-folder/data_processor.py:185-192 | a district's mean response time lies within any bounds of the table's response times |
| SecurityReport.LatestIsLastRow | backend-folder/data_processor.py:195-210 | a district's safety score and deployments are those of its last row in the table |
| RdReport.BudgetEntry | backend-folder/data_processor.py:240-248 | a division's allocated and spent are its sums; utilization × allocated = spent × 100 when allocated > 0, else 0 |
| RdReport.BudgetOverDivisionRows | backend-folder/data_processor.py:238-248 | budget record `i` belongs to the `i`-th distinct division, totals only its rows, and has utilization 0 when nothing is allocated |
| RdReport.AdherenceEntry | backend-folder/data_processor.py:261-267 | a division's adherence × its row count = the sum of its adherence values |
| RdReport.GetRdStatus | backend-folder/data_processor.py:223-274 | the report built by the loops is `RdStatusOfTable` the table |
| RdReport.ProjectStatusIsDistribution | backend-folder/data_processor.py:229-235 | each status of the table once; counts at least 1, non-increasing along the list, adding up to the number of projects |
| RdReport.PotentialIsDistribution | backend-folder/data_processor.py:251-257 | each potential of the table once; counts at least 1, non-increasing along the list, adding up to the number of projects |
| RdReport.ActiveProjectsMatchStatus | backend-folder/data_processor.py:229-235 | the summary's active count equals the `Active` status count, and is 0 without one |
| RdReport.BudgetAnalysisPartition | backend-folder/data_processor.py:238-248 | one record per division; allocated and spent totals over the records equal the table's |
| RdReport.AdherenceWithinBounds | backend-folder/data_processor.py:259-267 | one record per division, each within any bounds of the table's adherence values |
| SupplyChainReport.QualityEntry | backend-folder/data_processor.py:303-309 | a product line's quality × its row count = the sum of its quality scores |
| SupplyChainReport.GetSupplyChainPerformance | backend-folder/data_processor.py:280-336 | the report built by the loops is `SupplyChainPerformanceOf` the table |
| SupplyChainReport.ProductionTrendsTotal | backend-folder/data_processor.py:286-299 | one trend per distinct facility; all monthly points add up to the table's production volume |
| SupplyChainReport.ProductionPoints | backend-folder/data_processor.py:287-299 | trend `i` is the `i`-th distinct facility; its points list that facility's months in increasing order, each with its volume in that month |
| SupplyChainReport.DisruptionAnalysisTotal | backend-folder/data_processor.py:312-319 | one record per distinct facility, each its own sum; together they add up to the table's disruptions |
| SupplyChainReport.QualityWithinBounds | backend-folder/data_processor.py:302-309 | one score per distinct product line, within any bounds of the table's scores |
| SupplyChainReport.OneRatingPerPair | backend-folder/data_processor.py:322-329 | one rating per (facility, product line) pair of the table, pairs in strictly increasing order |
| SupplyChainReport.SustainabilityIsLatest | backend-folder/data_processor.py:323-329 | a pair's rating is that of the pair's last row in the table |
| HrReport.RetentionEntry | backend-folder/data_processor.py:349-355 | a department's retention × its row count = the sum of its retention rates |
| HrReport.SatisfactionPointOf | backend-folder/data_processor.py:359-367 | a month's satisfaction × its row count = the sum of that month's scores |
| HrReport.DiversityEntry | backend-folder/data_processor.py:375-381 | a department's diversity × its row count = the sum of its diversity indices |
| HrReport.TrainingEntry | backend-folder/data_processor.py:385-391 | a department's training hours × its row count = the sum of its hours |
| HrReport.GetHrAnalytics | backend-folder/data_processor.py:342-398 | the report built by the loops is `HrAnalyticsOf` the table |
| HrReport.OnePerDepartment | backend-folder/data_processor.py:348-391 | each of the four lists has one record per distinct department, in first-appearance order |
| HrReport.RetentionWithinBounds | backend-folder/data_processor.py:348-355 | a department's retention lies within any bounds of the table's rates |
| HrReport.SatisfactionPoints | backend-folder/data_processor.py:359-371 | trend `i` is the `i`-th distinct department; its points list that department's months in increasing order, each the mean of its scores in that month |
| HrReport.SatisfactionPointWithinBounds | backend-folder/data_processor.py:358-371 | every monthly satisfaction point lies within any bounds of the table's scores |
| SecurityView.TotalIncidents | frontend/components/security.tsx:13-15 | 0 when there are no districts |
| SecurityView.TotalIncidentsIsTableTotal | frontend/components/security.tsx:13-15 | the panel's total is the incident total of the whole security table |
| SecurityView.TotalIncidentsFlattened | frontend/components/security.tsx:13-15 | the nested sum equals the sum of the flattened list of monthly points |
| SecurityView.AvgResponseTime | frontend/components/security.tsx:17-19 | NaN exactly when there is no district; otherwise finite with value × count = sum |
| SecurityView.AvgResponseTimeWithinBounds | frontend/components/security.tsx:17-19 | for districts within bounds, the average is finite and within them |
| SecurityView.AvgSafetyScore | frontend/components/security.tsx:21-23 | NaN exactly when there is no district; otherwise finite with value × count = sum |
| SecurityView.AvgSafetyScoreWithinBounds | frontend/components/security.tsx:21-23 | for scores within bounds, the average is finite and within them |
| SecurityView.TotalDeployments | frontend/components/security.tsx:25-27 | 0 for an empty list |
| SecurityView.SummaryStats | frontend/components/security.tsx:29-58 | four entries in the order Incidents, Response Time, Safety Score, Deployments; their figures are the incident total, `AvgResponseTime`, `AvgSafetyScore` and the deployment total, the two averages NaN exactly for an empty list |
| SecurityView.DeploymentWidth | frontend/components/security.tsx:134 | never above 100 and never +∞; finite when the total is non-zero; for a zero total NaN, 100 or −∞ by the sign of the deployments |
| SecurityView.DeploymentWidths | frontend/components/security.tsx:125-134 | one width per district |
| SecurityView.DeploymentWidthAt | frontend/components/security.tsx:125-134 | width `i` is `DeploymentWidth` of district `i` against the panel total, so it is never +∞ nor above 100 |
| SecurityView.DeploymentWidthIsShare | frontend/components/security.tsx:134 | with non-negative deployments and a positive total, the clamp has no effect: width × total = deployments × 100 |
| SecurityView.UnclippedWidth | frontend/components/security.tsx:134 | a deployment between 0 and a positive total gets exactly its percentage share |
| SecurityView.DeploymentWidthsSumToHundred | frontend/components/security.tsx:134 | with non-negative deployments and a positive total, the widths add up to 100 |
| SecurityView.NoDeploymentsNoWidth | frontend/components/security.tsx:134 | when every district has 0 deployments, every width is NaN |
| FinanceView.RevenueData | frontend/components/finance.tsx:23-26 | one bar per revenue trend, in the trends' order, each with its trend's division and the sum of its points' values (0 for no points) |
| FinanceView.RevenueBarIsDivisionRevenue | frontend/components/finance.tsx:23-26 | each bar's revenue is its division's revenue in the financial table |
| FinanceView.RevenueDataIsTableTotal | frontend/components/finance.tsx:23-26 | the bars together show the table's whole revenue |
| FinanceView.RdTrendData | frontend/components/finance.tsx:28-31 | same length as the R&D trends, and the same period and investment at every position |
| FinanceView.RdTrendDataIsTableTotal | frontend/components/finance.tsx:28-31 | one chart point per period of the table, periods in strictly increasing order; together they add up to the table's R&D investment |
| FinanceView.CellColor | frontend/components/finance.tsx:72-74 | a slice colour is always from the six-colour palette |
| FinanceView.SliceColors | frontend/components/finance.tsx:72-74 | one palette colour per market-share slice |
| FinanceView.SliceColorAt | frontend/components/finance.tsx:72-74 | slice `i` gets `CellColor(i)`; two slices share a colour exactly when their positions agree modulo 6 |
| FinanceView.CellColorsCycle | frontend/components/finance.tsx:72-74 | colours repeat with period 6, and positions that differ modulo 6 get different colours |
| FinanceView.MarginBarWidth | frontend/components/finance.tsx:97 | never above 100; equal to the margin exactly when the margin is at most 100, so negative margins are not raised |
| FinanceView.MarginBarNotClipped | frontend/components/finance.tsx:97 | when no row's profit exceeds its revenue, a division's margin bar is not clipped |
| SummaryView.GrowthChange | frontend/components/summary.tsx:38 | the change text starts with `+` exactly when the growth is positive |
| SummaryView.SummaryCards | frontend/components/summary.tsx:34-91 | eight cards in a fixed title order; revenue shown as millions × 1 000 000 with the growth text; revenue trend and icon positive iff growth > 0; incident card negative iff incidents > 50 and positive otherwise; the Active Projects card shows the high-potential count |
| SummaryView.IconColor | frontend/components/summary.tsx:103-106 | green exactly for positive, red exactly for negative, blue exactly for neutral |
| SummaryView.ChangeColor | frontend/components/summary.tsx:112-115 | green exactly for positive, red exactly for negative, gray exactly for neutral |
| SummaryView.GrowthSign | frontend/components/summary.tsx:36-41 | growth is positive exactly when Q4-2024 revenue exceeds a positive Q4-2023 revenue |
| SummaryView.RevenueCardGreen | frontend/components/summary.tsx:36-41 | the revenue card is green exactly when Q4-2024 revenue exceeds a positive Q4-2023 revenue, and red otherwise |
| SummaryView.HighPotentialCaption | frontend/components/summary.tsx:59 | the Active Projects caption counts the `High` and `Very High` projects of the R&D table |
| Dashboard.FirstRejection | frontend/app/dashboard/page.tsx:43-50 | none exactly when all six requests resolve; otherwise the first rejection in request order |
| Dashboard.InstanceOfBindings | frontend/app/dashboard/page.tsx:17-59 | `instanceof` holds against the built-in constructor exactly for built-in errors, and never against the imported component |
| Dashboard.ErrorMessageAsWritten | frontend/app/dashboard/page.tsx:17-59 | with `Error` bound to the imported component, as line 17 binds it, the message is always the fallback text |
| Dashboard.ErrorMessage | frontend/app/dashboard/page.tsx:59 | with `Error` the built-in constructor: a built-in error's own message, and the fallback for any other thrown value |
| Dashboard.ScreenOf | frontend/app/dashboard/page.tsx:69-75 | loading first, then a non-empty error, then the content |
| Dashboard.DashboardPage.constructor | frontend/app/dashboard/page.tsx:22-29 | all six slots empty, loading on, no error |
| Dashboard.DashboardPage.BeginFetch | frontend/app/dashboard/page.tsx:33-34 | loading on and the error cleared; the slots unchanged |
| Dashboard.DashboardPage.CompleteFetch | frontend/app/dashboard/page.tsx:52-62 | all six slots written on success; on failure only the error is written, with the page's own binding of `Error`; loading off either way |
| Dashboard.DashboardPage.FetchData | frontend/app/dashboard/page.tsx:31-63 | the new state is `AfterFetch` of the old state and the six outcomes, under the page's binding of `Error` |
| Dashboard.DashboardPage.View | frontend/app/dashboard/page.tsx:69-75 | the screen is `ScreenOf` the page's state |
| Dashboard.FetchOutcome | frontend/app/dashboard/page.tsx:31-63 | after every fetch loading is off; the error is empty exactly when all six resolve, and then the content shows |
| Dashboard.SuccessForgetsHistory | frontend/app/dashboard/page.tsx:52-57 | after a successful fetch the state depends only on its six results |
| Dashboard.FailureKeepsData | frontend/app/dashboard/page.tsx:58-62 | a failed fetch writes no slot; as written the error is the fallback text, and with the built-in constructor it is the first rejection's message |
| Dashboard.FailureShowsFallback | frontend/app/dashboard/page.tsx:58-75 | as written, every failed fetch shows the error screen with the fallback text |
| Dashboard.HttpErrorIsShown | frontend/app/dashboard/page.tsx:58-75 | with the built-in constructor, an HTTP error's message reaches the error screen |
| Dashboard.ErrorMessageAsWrittenDropsMessage | frontend/app/dashboard/page.tsx:17-59 | as written, an HTTP 500 is reported with the fallback text; the corrected message keeps its text |

## Left out

- Rounding: `round(x, 1)`, `round(x, 2)`, `toFixed(1)` and `Intl.NumberFormat` depend on IEEE doubles and locale. Numbers are exact, and no formatted string is modelled.
- Ties in `value_counts()`: keys with the same count stay in the order of their first appearance, which is the order the stable sort receives them in. pandas' tie order depends on its version and sort kind; the model proves only that the counts do not increase, and does not claim an order among equal counts.
- `groupby().last()` skips missing values per column. The model does this only for market share, which is the one optional column. The other columns are taken as always present.
- Missing keys: rows whose group key is NaN are dropped by `groupby`. The model has no missing keys.
- Data loading: `load_datasets` (CSV reading) and `pd.to_datetime` are not modelled. Rows carry their date as a `yyyymmdd` number, and `Tables.MonthOf` takes its month.
- The HTTP layers are not part of this model: `backend-folder/main.py` (routes, CORS, `HTTPException`) and `frontend/lib/api.ts` (fetch, the status check, JSON parsing). A request's outcome is an input value. Serialising NaN to JSON is not modelled.
- Concurrency is not modelled:
  - the six requests run at once under `Promise.all`;
  - which rejection reaches `catch` is not modelled, and the model takes the first rejection in request order;
  - a retry can overlap a fetch still in flight;
  - the `useEffect` trigger;
  - the redirect in `frontend/app/page.tsx`.
- Layout: JSX, Recharts and Tailwind classes are left out, along with the tab panels that list the R&D, supply and HR records without computing anything.
- The error screen component (`frontend/components/error.tsx`) is not part of this model. It is taken to be declared with `function`, so it has its own `prototype` object that no thrown value's chain contains. Were it an arrow function, `instanceof` against it would throw a `TypeError` inside the catch block; that case is not modelled.
- ExecutiveSummaryReport.ExecutiveSummaryOf uses the corrected head count `TotalEmployees`, not the raising code as written. The as-written code is kept in `TotalEmployeesAsWritten`.
- SecurityView.DeploymentWidthsSumToHundred is stated for the percentage each bar is drawn at. A NaN width, which the browser drops, counts as 0.
- SecurityView.TotalDeployments is related to the table only through `SecurityReport.LatestIsLastRow`, which fixes each district's deployment count as its last row's; no lemma states the panel total against the table.

## Findings

| source | as written | input that shows it | evidently intended | confidence | as-written member | corrected member |
|---|---|---|---|---|---|---|
| backend-folder/data_processor.py:81 | the guard tests whether the whole financial table is empty, but `iloc[-1]` indexes only its 2024 rows | a financial table with one row, from 2023: the guard passes and `iloc[-1]` on zero rows raises `IndexError` (`TotalEmployeesAsWrittenRaises`) | the head count of the last 2024 row, or 0 when there is no 2024 row | not executed | ExecutiveSummaryReport.TotalEmployeesAsWritten | ExecutiveSummaryReport.TotalEmployees |
| frontend/app/dashboard/page.tsx:17 | line 17 imports the error screen as `Error`, which shadows the global constructor, so `err instanceof Error` at line 59 never holds and the fallback text is always stored | the first request fails with `HTTP error! status: 500`: the page shows "An error occurred while fetching data" (`ErrorMessageAsWrittenDropsMessage`, `FailureShowsFallback`) | show the thrown error's own message, so that the error screen reflects the failure | not executed | Dashboard.ErrorMessageAsWritten | Dashboard.ErrorMessage |
