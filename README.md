# GlyGen analytics reports — table-building core

The GlyGen report scripts read Google Analytics 4 rows and write tables to
Google Sheets. Between the two steps, each script builds its tables inline.
This project models that table-building logic in Dafny and proves what it
does:

- **Month keys.** Every bucket is keyed by the label `MM, YYYY` and sorted
  latest month first (`Months`, `Tables`). Months are keyed by value; the
  label is proved injective, and parsing a label gives back its month.
- **Page paths** (`PagePaths`). The selection-time normaliser, the
  per-key path mapping with its first-seen representative, and the stable
  top-20 ranking.
- **Monthly top-pages tally** (`PageTrend`). Month rows are opened lazily.
  Each row is routed into the `/`, `/glycan-search/` and
  `/protein-search/` group columns or into its own tracked column. A group
  column that is not tracked is a `KeyError`. Total Pageviews counts every
  row. Both scripts' column layouts are covered: total last, and total
  first.
- **Scaffold reports** (`MonthEnds`, `ScaffoldTrend`). Bottom pages and top
  referrals get one row per month-end date. A matching response row
  overwrites its cell. The referral reports then drop rows whose tracked
  values are all zero.
- **Country reports** (`CountryTrend`). Rows of untracked countries are
  ignored. A month row opens with the month's first tracked row. A cell is
  overwritten while Total Engaged Sessions accumulates.
- **Site metrics** (`SiteMetrics`):
  - the all-domains bucketing by user type;
  - the overview's per-row Returning Users;
  - the case-insensitive three-way traffic-source split;
  - the left join on the month, with fixed column orders, latest first.
- **Outlier colours** (`Outliers`). The five-way `color_mapper` over
  `real`, with the column mean and standard deviation as parameters, and
  the per-column colour mapping.
- **Charts** (`Charts`). The y-axis range, the countries chart's series
  columns and colours, and its anchor.
- **Hostname filters** (`Hosts`). `get_subdomain_filter` in its two
  variants.

Where the source's loops update dictionaries in place, the model has a
method with a loop. Each such method is proved equal to a fold written as a
function, and the properties are proved as lemmas about that function.
Python dictionary insertion order is modelled as the sequence of first-seen
keys. `sort_values` on the parsed label is modelled by an insertion sort
that is proved to be a permutation, latest month first. A missing key is a
`Failure`, and a `NaN` from the left join is `None`.

On these points the code behaves as follows, and the model follows it:

- A scaffold cell is overwritten by each matching row, not summed.
- A value equal to mean + std is a mild outlier, not average.
- A zero standard deviation is not treated specially.
- The path normaliser is not idempotent.
- A start date after the end date gives an empty scaffold rather than an
  error.
- A month the join cannot find gets absent (`NaN`) traffic cells, not zeroes.

## Model

| member | source | states |
|---|---|---|
| Months.ParseLabelRoundTrip | update-overview-sheet.py:133-147 | `ParseLabel` inverts `Label`: parsing the `MM, YYYY` label of a month (4-digit year, month 1-12) with `%m, %Y` gives that month back |
| Months.LabelInjective | update-alldomainsdata-sheet.py:140-143 | two months with the same label are the same month, so joining and keying on the label is joining and keying on the month |
| Months.DecimalRoundTrip | update-overview-sheet.py:133 | reading back the decimal digits written for a number gives the number |
| MonthEnds.Next | update-top10referrals-sheet.py:158 | the month after a valid month is valid and one calendar month later |
| MonthEnds.Scaffold | update-top10referrals-sheet.py:156-163 | a month is in the scaffold exactly when its last day lies between the start and end dates; consecutive scaffold months are one month apart |
| MonthEnds.ScaffoldDistinct | update-alldomainsdata-sheet.py:390-395 | no month appears twice in the scaffold |
| MonthEnds.ChainIncreasing | update-alldomainsdata-sheet.py:532-537 | months one calendar month apart are strictly increasing |
| Tables.SortLatestFirst | update-top20pages-sheet.py:209-211 | the sorted rows are latest month first and a permutation of the input rows |
| Tables.StrictlyLatestFirst | update-improvedtop20pages-sheet.py:138-140 | rows sorted latest first, with distinct months, are strictly ordered by month |
| Tables.SortKeepsMonthsDistinct | update-top10countries-sheet.py:163-165 | sorting keeps the months of the rows distinct |
| Tables.Dedup | update-top10referrals-sheet.py:163 | the keys of a dictionary built from a list are distinct |
| Tables.DedupMembers | update-top10referrals-sheet.py:163 | a key is in the dictionary exactly when it is in the list |
| Tables.DedupOfDistinct | update-top10countries-sheet.py:149 | a list without repeats keeps its order as dictionary keys |
| Tables.PermutationOfDistinct | update-top10countries-sheet.py:163-165 | a permutation of a repeat-free list has no repeats |
| Tables.SumZeroes | update-improvedtop20pages-sheet.py:109 | the cells of a freshly opened month sum to 0 |
| Tables.SumAfterOverwrite | update-top10countries-sheet.py:153 | overwriting one tracked cell changes the sum of the cells by the new value minus the old |
| Tables.LastValueAbsent | update-top10referrals-sheet.py:166-174 | with no response row for a month and category, the cell keeps its initial value |
| Tables.MonthTotalUnseen | update-top20pages-sheet.py:200 | a month without rows has total 0 |
| Tables.TallyTableShape | update-improvedtop20pages-sheet.py:128-140 | the table has one row per month of the tally, strictly latest month first, and every month of the tally has its row |
| Tables.TallyTableRowOrigin | update-top20pages-sheet.py:203-211 | every table row is the cells and total of one tallied month |
| Tables.TallyTableRowFor | update-top20pages-sheet.py:203-211 | every tallied month has a row in the table |
| PagePaths.RStripSlash | update-top20pages-sheet.py:124 | `rstrip('/')` leaves a prefix of the path that does not end in `/` |
| PagePaths.RStripSlashRemovesOnlySlashes | update-top20pages-sheet.py:124 | everything `rstrip('/')` removes is a `/` |
| PagePaths.RStripSlashKeeps | update-top20pages-sheet.py:124 | `rstrip('/')` keeps everything up to the last character that is not a `/` |
| PagePaths.RStripSlashIdempotent | update-top20pages-sheet.py:189 | stripping trailing slashes twice is stripping them once |
| PagePaths.CanonicalKeysAreFixed | update-top20pages-sheet.py:123-132 | `/`, `/glycan-search/` and `/protein-search/` normalise to themselves |
| PagePaths.SelectionKeyNotIdempotent | update-top20pages-sheet.py:123-132 | `/home//` normalises to `/home`, which normalises to `/` |
| PagePaths.SelectionKeyIdempotentExceptHome | update-improvedtop20pages-sheet.py:41-50 | `SelectionKey` (the selection normaliser): normalising twice differs from normalising once exactly when the first result is `/home` |
| PagePaths.StartsWithStripped | update-top20pages-sheet.py:193-196 | a path whose stripped form starts with a prefix starts with it too |
| PagePaths.KeysSeen | update-improvedtop20pages-sheet.py:53-57 | the keys of the path mapping, in insertion order, have no repeats |
| PagePaths.KeysSeenMembers | update-improvedtop20pages-sheet.py:53-57 | a key is in the mapping exactly when some raw path normalises to it |
| PagePaths.FirstPathIsFirst | update-top20pages-sheet.py:136-137 | a key's representative is the first raw path that normalises to it |
| PagePaths.RepresentativeHasKey | update-top20pages-sheet.py:136-137 | a key's representative normalises to that key |
| PagePaths.KeyViewsUnseen | update-top20pages-sheet.py:136-139 | a key that no path normalises to has no views |
| PagePaths.Absorb | update-top20pages-sheet.py:136-139 | absorbing a row adds its key to the mapping's keys and no other |
| PagePaths.PathMappingKeys | update-top20pages-sheet.py:121-139 | the mapping's keys are exactly the normalised keys seen |
| PagePaths.PathMappingValues | update-top20pages-sheet.py:134-139 | each key maps to its first raw path and the sum of the views of every path with that key |
| PagePaths.PrefixStep | update-top20pages-sheet.py:136-139 | one more row adds its views to its key, or opens the key with that row's path |
| PagePaths.AbsorbHit | update-improvedtop20pages-sheet.py:53-57 | a new key is recorded with the row's path and views and appended to the insertion order; a known key keeps its path and gains the views |
| PagePaths.BuildPathMapping | update-improvedtop20pages-sheet.py:39-57 | the loop builds exactly the mapping of the rows, with its keys in insertion order |
| PagePaths.ConsolidatePaths | update-improvedtop20pages-sheet.py:39-57 | the loop yields the consolidated entries in the mapping's value order |
| PagePaths.ConsolidatedEntries | update-top20pages-sheet.py:134-139 | the entries are distinct, and each has a distinct key, its first raw path and the summed views |
| PagePaths.RankSorted | update-top20pages-sheet.py:142 | ranking orders the entries by views descending and is a permutation |
| PagePaths.RankedIndex | update-top20pages-sheet.py:142 | every entry has a place in the ranking |
| PagePaths.InsertByViewsSorted | update-top20pages-sheet.py:142 | inserting an entry keeps the order by views and adds exactly that entry |
| PagePaths.InsertByViewsStable | update-top20pages-sheet.py:142 | among entries with equal views, insertion keeps the order of arrival |
| PagePaths.RankIsStable | update-improvedtop20pages-sheet.py:60-61 | entries with equal views keep their first-seen order |
| PagePaths.TopPaths | update-improvedtop20pages-sheet.py:60-61 | the tracked list has min(20, number of keys) paths |
| PagePaths.TopPathsAreTop | update-top20pages-sheet.py:142 | an entry left out of the top 20 has no more views than any entry kept |
| PagePaths.TrackedPathsDistinct | update-top20pages-sheet.py:142 | the tracked paths are distinct raw paths |
| PagePaths.RankTieExample | update-top20pages-sheet.py:142 | three entries, the first two tied above the third, rank in their given order |
| PagePaths.TieKeepsFirstSeen | update-top20pages-sheet.py:142 | two paths tied on views stay in first-seen order |
| PageTrend.RouteOf | update-top20pages-sheet.py:188-198 | a row goes to a column other than the three group columns only when that raw path is tracked, and then to its own column |
| PageTrend.HomeAliasesRouteHome | update-top20pages-sheet.py:189-192 | `/home` and `/home/` go to the `/` column |
| PageTrend.RawRootFallsThrough | update-top20pages-sheet.py:189-198 | raw `/` strips to the empty string and reaches the fallback: its own column if tracked, otherwise nothing |
| PageTrend.GlycanSearchRoutesToGroup | update-improvedtop20pages-sheet.py:117-118 | every `/glycan-search*` path goes to the `/glycan-search/` column |
| PageTrend.MisroutedIsGroupColumn | update-top20pages-sheet.py:188-198 | a `KeyError` can only come from a group column that is not tracked |
| PageTrend.AllRoutedMeans | update-improvedtop20pages-sheet.py:113-122 | every row can be routed exactly when no row is misrouted |
| PageTrend.AllRoutedStep | update-improvedtop20pages-sheet.py:113-122 | the rows up to i+1 can all be routed exactly when those up to i can and row i can |
| PageTrend.FailureSticks | update-top20pages-sheet.py:188-198 | once a `KeyError` is raised, later rows do not change the outcome |
| PageTrend.TallyFails | update-top20pages-sheet.py:188-198 | the tally fails exactly when some row's group column is not tracked |
| PageTrend.TallyError | update-improvedtop20pages-sheet.py:113-122 | the error names the group column of the first misrouted row, and every earlier row was routed |
| PageTrend.TallyKeys | update-top20pages-sheet.py:184-186 | a month has cells and a total exactly when some row falls in it; there is no gap filling |
| PageTrend.TallyMonths | update-improvedtop20pages-sheet.py:108-110 | the months are opened in first-seen order |
| PageTrend.TallyColumns | update-improvedtop20pages-sheet.py:109 | each month row has exactly the tracked paths as columns |
| PageTrend.TallyCells | update-top20pages-sheet.py:188-198 | `Aggregate`, the fold of `Step` (the routing loop): a cell holds the sum of the views routed into it that month |
| PageTrend.TallyTotals | update-improvedtop20pages-sheet.py:124 | a month's total is the sum of all its rows' views, tracked or not |
| PageTrend.RoutedViewsUnseen | update-top20pages-sheet.py:184-186 | nothing is routed into a month without rows |
| PageTrend.RouteRow | update-improvedtop20pages-sheet.py:108-124 | one turn of the loop: opens the month if new, adds the views to the routed column or raises `KeyError` for a missing column, and adds them to the total |
| PageTrend.StepCell | update-improvedtop20pages-sheet.py:108-122 | one row changes a cell by its views exactly when it falls in that month and is routed to that column |
| PageTrend.AggregatePageViews | update-improvedtop20pages-sheet.py:96-124 | the loop computes the tally, or the `KeyError` |
| PageTrend.RoutedIntoNothing | update-top20pages-sheet.py:188-198 | no views are routed into an empty set of columns |
| PageTrend.RoutedIntoExtend | update-top20pages-sheet.py:188-198 | adding a column adds the views routed into it |
| PageTrend.MonthTotalSplit | update-top20pages-sheet.py:200 | a month's total is the views routed into the tracked columns plus the views of untracked pages |
| PageTrend.UntrackedNonNegative | update-top20pages-sheet.py:200 | with non-negative views, the untracked views are non-negative |
| PageTrend.ColumnViewsSum | update-top20pages-sheet.py:188-198 | over distinct columns, the per-column routed views add up to the views routed into all of them |
| PageTrend.CellSum | update-top20pages-sheet.py:188-198 | the sum of a set of tracked cells is the views routed into them |
| PageTrend.PageTableRows | update-top20pages-sheet.py:203-211 | one row per month seen, strictly latest first, and every row's month has a row |
| PageTrend.PageTableCells | update-improvedtop20pages-sheet.py:128-135 | `PageTable`: each row has the tracked cells and the total; the total is first or last as the script places it |
| PageTrend.TotalCoversTrackedCells | update-improvedtop20pages-sheet.py:124-129 | with non-negative views, a row's total is at least the sum of its tracked cells |
| ScaffoldTrend.InitialGridRows | update-top10referrals-sheet.py:161-163 | the scaffold has a row exactly for each scaffold month, each with every tracked key at 0 |
| ScaffoldTrend.InitScaffold | update-alldomainsdata-sheet.py:393-395 | the initialisation loop builds that grid |
| ScaffoldTrend.FillShape | update-top10referrals-sheet.py:173 | filling adds no month and no column |
| ScaffoldTrend.FillCell | update-top10referrals-sheet.py:166-174 | a cell holds the value of the last matching row, or its initial value; matching rows overwrite |
| ScaffoldTrend.FillScaffold | update-alldomainsdata-sheet.py:398-406 | the fill loop computes the fill |
| ScaffoldTrend.BuildScaffoldGrid | update-alldomainsdata-sheet.py:540-548 | initialising then filling builds the scaffold grid |
| ScaffoldTrend.GridRowOrigin | update-alldomainsdata-sheet.py:409-416 | each table row is the row of one scaffold month |
| ScaffoldTrend.GridTableOrder | update-alldomainsdata-sheet.py:409-416 | with distinct months, the table has one row per scaffold month, strictly latest first |
| ScaffoldTrend.GridTableCell | update-alldomainsdata-sheet.py:398-416 | each row has one cell per tracked key, holding the last matching row's value or 0 |
| ScaffoldTrend.ScaffoldTableRows | update-alldomainsdata-sheet.py:384-416 | `ScaffoldTable`: one row per month-end date in range, strictly latest first; each cell is the last matching row's value or 0 |
| ScaffoldTrend.ScaffoldFillsGaps | update-top10referrals-sheet.py:156-163 | every month-end in range has a row, with or without data |
| ScaffoldTrend.DropAllZeroRows | update-top10referrals-sheet.py:187-188 | every kept row has a non-zero tracked cell, and no rows are added |
| ScaffoldTrend.DropAllZeroRowsMembers | update-top10referrals-sheet.py:187-188 | a row is kept exactly when it has a non-zero tracked cell |
| ScaffoldTrend.DropAllZeroRowsAppend | update-alldomainsdata-sheet.py:560-562 | the filter works row by row and keeps relative order |
| ScaffoldTrend.DropAllZeroRowsKeepsOrder | update-top10referrals-sheet.py:182-188 | filtering a strictly latest-first list leaves it strictly latest first |
| ScaffoldTrend.ReferralTableRows | update-top10referrals-sheet.py:156-188 | `ReferralTable`: the referral table is strictly latest first, and holds exactly the scaffold rows with a non-zero tracked cell |
| CountryTrend.TrackedRows | update-top10countries-sheet.py:146 | the filter never lengthens the list; which rows it keeps is stated by CountryTrend.TrackedRowsMembers |
| CountryTrend.TrackedRowsMembers | update-top10countries-sheet.py:146 | a row is kept exactly when its country is tracked |
| CountryTrend.UntrackedIgnored | update-top10countries-sheet.py:146 | rows of untracked countries change nothing, not even the total |
| CountryTrend.CountryKeys | update-top10countries-sheet.py:147-150 | a month has a row and a total exactly when some tracked-country row falls in it |
| CountryTrend.CountryMonths | update-alldomainstop10countries-sheet.py:146-150 | months are opened in the order of their first tracked row |
| CountryTrend.CountryColumns | update-top10countries-sheet.py:149 | each month row has exactly the tracked countries as columns |
| CountryTrend.CountryCells | update-top10countries-sheet.py:152-153 | `CountryAggregate`, the fold of `CountryStep`: a cell is the last tracked row's sessions for that month and country, or 0 |
| CountryTrend.CountryTotals | update-alldomainstop10countries-sheet.py:152-154 | Total Engaged Sessions is the sum of the month's tracked rows |
| CountryTrend.TotalIsCellSum | update-top10countries-sheet.py:152-154 | when each (month, country) pair occurs once, the total is the sum of the cells |
| CountryTrend.RepeatedPairSplitsTotal | update-top10countries-sheet.py:152-154 | India reporting 5 then 7 in a month leaves the cell at 7 and the total at 12 |
| CountryTrend.AggregateCountrySessions | update-alldomainstop10countries-sheet.py:138-154 | the loop computes the tally |
| CountryTrend.CountryTableRows | update-top10countries-sheet.py:156-169 | the columns are Month-Year, Total Engaged Sessions, then the tracked countries; one row per month seen, strictly latest first |
| CountryTrend.CountryTableCells | update-alldomainstop10countries-sheet.py:163-169 | `CountryTable`: each row holds the month's total in column 1, then each country's last value |
| CountryTrend.OverallCountryRows | update-alldomainstop10countries-sheet.py:38-44 | one [country, pageviews] row per response row, in response order |
| SiteMetrics.AddUserTypeRow | update-alldomainsdata-sheet.py:71-86 | after a row, Total Users is New plus Returning Users; active users, events and sessions grow by the row's values |
| SiteMetrics.MetricSumUnseen | update-alldomainsdata-sheet.py:60-69 | a month without rows has zero of every metric |
| SiteMetrics.MainBucketKeys | update-alldomainsdata-sheet.py:60-69 | a month has a bucket exactly when some row falls in it |
| SiteMetrics.MainBucketSums | update-alldomainsdata-sheet.py:71-86 | `MainBuckets`, the fold of `MainStep`: New and Returning Users sum metric 0 over rows of type `new` and `returning`; every row adds to active users, events and sessions; Total is New plus Returning |
| SiteMetrics.OtherUserTypeNotCounted | update-alldomainsdata-sheet.py:72-75 | a row of another user type leaves Total Users unchanged |
| SiteMetrics.MainBucketOrder | update-alldomainsdata-sheet.py:89-100 | the buckets are listed once each, in insertion order |
| SiteMetrics.ProcessMainMetrics | update-alldomainsdata-sheet.py:52-86 | the loop computes the buckets |
| SiteMetrics.OverviewMetrics | update-overview-sheet.py:82-92 | Returning Users is Total minus New Users |
| SiteMetrics.ProcessOverviewMetrics | update-overview-sheet.py:76-98 | one row per response row, in response order |
| SiteMetrics.LowerNormalises | update-alldomainsdata-sheet.py:120 | `Lower` (`str.lower` on ASCII) leaves no upper-case letter, changes no other character, and a second pass changes nothing |
| SiteMetrics.ChannelIgnoresCase | update-alldomainsdata-sheet.py:120-125 | `ChannelOf` (the source split): sources equal up to case get the same channel |
| SiteMetrics.ChannelExamples | update-overview-sheet.py:113-118 | `Google` is Organic Search, `(DIRECT)` is Direct, `google.com` is Referral |
| SiteMetrics.Credit | update-alldomainsdata-sheet.py:120-125 | the row's channel gains exactly its sessions and the other two channels keep theirs, so the three together gain exactly the row's sessions |
| SiteMetrics.ChannelSessionsUnseen | update-overview-sheet.py:109-111 | a month without traffic rows has no sessions in any channel |
| SiteMetrics.TrafficKeys | update-alldomainsdata-sheet.py:116-118 | a month has traffic values exactly when some traffic row falls in it, in first-seen order |
| SiteMetrics.TrafficChannels | update-overview-sheet.py:109-118 | each channel column sums the sessions of its channel's rows |
| SiteMetrics.TrafficSplit | update-alldomainsdata-sheet.py:116-125 | the three channel columns of a month sum to that month's sessions |
| SiteMetrics.ProcessTrafficSources | update-alldomainsdata-sheet.py:108-131 | the loop computes the traffic table |
| SiteMetrics.MergedValuesUnderHeaders | update-overview-sheet.py:139-144 | each value sits under its own header among the ten |
| SiteMetrics.CombineKeepsMainRows | update-overview-sheet.py:131-155 | `CombineDatasets` (`combine_datasets`): the merged table has one row per main row, latest first, each joined with its month's traffic or none |
| SiteMetrics.CombinedRowOrigin | update-alldomainsdata-sheet.py:138-160 | each merged row is one main row joined with its month's traffic, or with none |
| SiteMetrics.JoinedTraffic | update-alldomainsdata-sheet.py:143-151 | the joined traffic values are absent exactly when the month has no traffic rows, and otherwise sum to its sessions |
| SiteMetrics.AllDomainsMetricsRows | update-alldomainsdata-sheet.py:138-160 | each row's Total Users is New plus Returning; traffic values are present exactly when the month has traffic rows, and then sum to its sessions |
| SiteMetrics.OverviewMetricsRows | update-overview-sheet.py:82-153 | each row comes from one response row, with Returning Users = Total - New Users placed before New Users; traffic as in the all-domains table |
| Outliers.ColorOfBands | update-alldomainsdata-sheet.py:180-195 | `ColorOf` (`color_mapper`): for std >= 0, each class is exactly its band: above m+s; (m+s/2, m+s]; [m-s/2, m+s/2]; [m-s, m-s/2); below m-s |
| Outliers.ColorOfBoundaries | update-overview-sheet.py:172-187 | with std > 0, a value at m+s is positive-mild, at m-s negative-mild, and at m±s/2 average |
| Outliers.ColorOfZeroDeviation | update-top10countries-sheet.py:31-46 | with std 0, any value above the mean is a high outlier, any below it a low one |
| Outliers.ColorOfMonotone | update-top10referrals-sheet.py:31-46 | a larger value never gets a lower class |
| Outliers.ColorOfSymmetric | update-top20pages-sheet.py:29-44 | mirroring a value about the mean mirrors its class |
| Outliers.ColorMappingEntries | update-top10referrals-sheet.py:50-54 | `ColorMapping`: the mapping has an entry exactly for each non-Month-Year column, holding that column's classes |
| Charts.Min | update-alldomainsdata-sheet.py:279 | the minimum is at most every value and is one of them |
| Charts.Max | update-alldomainsdata-sheet.py:278 | the maximum is at least every value and is one of them |
| Charts.AxisRange | update-alldomainsdata-sheet.py:278-281 | there is a range exactly when there are values, and its bottom is never negative |
| Charts.AxisRangeCovers | update-alldomainsdata-sheet.py:278-281 | for non-negative values, every value lies within the range |
| Charts.ChartSeriesColumns | update-alldomainstop10countries-sheet.py:294-310 | `ChartSeries` (series idx reads column idx+1, colour idx mod 10) reads exactly column indices 1 to k, never index k+1 |
| Charts.ChartColorsDistinct | update-alldomainstop10countries-sheet.py:309 | two series fewer than ten apart have different colours |
| Charts.AnchorClearsTable | update-alldomainstop10countries-sheet.py:319 | for a table of k+2 columns the anchor index is the last column's index plus 3, two past every charted column index |
| CountryTrend.CountryChartColumns | update-alldomainstop10countries-sheet.py:294-319 | over the countries table with k distinct countries: k+2 columns; the series read Total Engaged Sessions and the first k-1 countries, never the last country; the anchor leaves two empty columns after the table |
| Hosts.PortalAccepts | update-top20pages-sheet.py:57-95 | `PageHostFilter` and `WikiHostFilter`: the portal filters on exactly `glygen.org` and `www.glygen.org` |
| Hosts.ModuleAccepts | update-top20pages-sheet.py:84-93 | any other module filters on exactly `<module>.glygen.org`, and two modules never share a host |
| Hosts.WikiIgnoresModule | update-top10referrals-sheet.py:85-94 | every non-portal module filters on exactly `wiki.glygen.org`, whatever its name |

## Left out

- Google Analytics requests, `run_report` and the offset pagination loop are not modelled. These are network I/O; the response rows are inputs.
- Google Sheets writes are not modelled: clearing, updating values, formatting, sheet lookup, and chart deletion and creation. These are output I/O.
- The bottom-pages header rename to `title\n(path)` is left out. It is presentation only.
- The mean and standard deviation of a column (pandas sample std) are parameters of the classifier. They are floating-point numerics.
- Counts are unbounded integers. The source's `float()`/`int()` conversions of GA strings are not modelled.
- The clock is a parameter. `pd.Timestamp.now()` becomes the scaffold's end date.
- Outliers.ColorMapping: the mapping is over a table given as rows of optional reals. The pandas column extraction is not modelled.
- SiteMetrics.Lower: lower-cases ASCII letters only. Python's `str.lower` also folds non-ASCII letters.
- Outliers.ColorMapping: with a repeated column name pandas fails on the duplicated column; the model keeps the last such column's classes instead. The reports never produce repeated names.
- Charts.AxisRange: with no values the source computes a NaN top and a bottom of 0 (`max(0, NaN)`); the model gives no range, since a NaN axis bound is not modelled.
- Some pandas edge cases are not modelled:
  - a tracked category named like the total column;
  - duplicate columns arising from it;
  - the column set of an empty frame;
  - the instability of pandas' default quicksort on equal dates.

  Month rows have distinct months, so the last one never arises.
- Tables.SortLatestFirst: rows are ordered by Month rather than by parsing the label again. Months.ParseLabelRoundTrip and Months.LabelInjective show that the two agree for 4-digit years.
- The improved top-pages request applies no hostname filter. Nothing is modelled for it because the rows are inputs.
- `json_lib.py`, `update-subdomainsoverview-sheet.py` and `test.py` are not part of this model. They only build constant chart JSON or copy API rows.
- Option parsing, configuration and credential loading, globals and the broad `try`/`except` printing are not modelled.
