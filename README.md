# Bitcoin Dad Ledger: the analytics and gamification core in Dafny

Bitcoin Dad Ledger is a dollar-cost-averaging (DCA) journal for Bitcoin purchases.
This project models the part of it that computes, not the part that draws. That covers:

- the portfolio insights (`insights.js`): average gap between purchases, largest and smallest purchase, price distribution, weekly consistency streaks, purchase frequency and monthly roll-ups;
- the achievement system (`js/achievements.js`): a 14-entry catalog, progress percentages, the "seen" list that gates notifications, and the sound flag;
- the ledger controller (`main.js`, `js/main.js`): CSV import, the toggling column sort, the timeframe filter, the price ratio between currencies, portfolio totals and P&L, and the display locale;
- the bundled purchase history and its metrics (`data.js`);
- the login tiers (`user-system.js`): nobody, a free demo member, or a premium member, and which features each opens;
- the two React front ends (`src/App.jsx`, `webapp/src/App.jsx`): adding purchases, running totals, the inline achievement filter and the progress bars.

Modelling conventions:

- Dates are integer day numbers, with day 0 = 1970-01-01, a Thursday. `Calendar.Weekday` puts Sunday at 0.
- Money and bitcoin amounts are exact `real`s.
- Where the JavaScript reaches IEEE edge values (`x / 0`, a missing map key, `0 / 0`), numbers are the `JsValues.JsNum` datatype: `Num(v)`, `Infinity`, `NegInfinity`, `NaN` or `Undefined`. The edge cases are therefore modelled, not excluded by preconditions.
- The clock, `Math.sqrt`, `parseFloat`, the fetched prices and the stored values are parameters.
- An achievement definition holds what `checkAchievements` reads: the id, the condition and the category. The title, description and icon of each entry sit at the same position of `Achievements.Displays`.
- `Csv.RecordOf` reads a missing column as empty text. The parser builds records only from lines with at least eight columns, so it never reaches that case.

Modules and their shape:

| Module | Form |
|---|---|
| `Intervals`, `Streaks`, `Monthly` | Methods with the source's loops, specified by functions. |
| `Extremes` | Functions, because the source uses reduce, map and filter. |
| `Achievements.AchievementSystem`, `Ledger.BitcoinDadLedger`, `Users.UserSystem`, `ReactApp.TrackerApp`, `WebApp.BitcoinDadApp` | Classes whose methods update their fields. |
| `Csv.ParseCSV` | A method with the source's loop. |
| `Data` | Functions and constants. |

## Model

| member | source | states |
|---|---|---|
| Insights.CalculateInsights | insights.js:13-25 | Each field of the report is the corresponding insight of the same purchase list. The pattern's frequency is the classification of the average gap that the report also carries. |
| Insights.EmptyReport | insights.js:28 | With no purchases every insight takes its documented default: 0 days, placeholder extremes, zero distribution, 'Weekly', no months. |
| Calendar.WeekStartIsSunday | insights.js:107-110 | The week key (date minus weekday) is a Sunday, no later than the date and less than 7 days before it. |
| Calendar.SameWeekKey | insights.js:107-110 | Two dates share a week bucket exactly when the second lies in the 7 days starting at the first one's week start. |
| Calendar.WeekStartMonotone | insights.js:107-110 | Later dates never have an earlier week key. |
| Calendar.CivilFromDays | insights.js:179-181 | The civil date of a day number has a month in 1..12 and a day in 1..31, the ranges of `getMonth() + 1` and `getDate()`. |
| Calendar.CivilRoundTrip | insights.js:179-181 | Converting a day number to its civil date and back gives the day number again, so distinct days have distinct dates. |
| Calendar.SameMonthKey | insights.js:181 | Two days share a month key exactly when their civil year and month are equal. |
| Calendar.MonthKeyOrder | insights.js:203 | One month key is below another exactly when its (year, month) comes first. For four-digit years this is the order `localeCompare` gives the 'YYYY-MM' strings. |
| Calendar.MakeDayCarry | js/main.js:501-512 | Twelve more months give the same day as one more year, as a month index past 11 carries into the year. |
| Intervals.Earliest | insights.js:30 | The earliest date is one of the purchase dates and no later than any of them. |
| Intervals.Latest | insights.js:30 | The latest date is one of the purchase dates and no earlier than any of them. |
| Intervals.SortedDatesSorted | insights.js:30 | The sorted copy holds the same dates as the input, in ascending order. |
| Intervals.SortedDatesFirst | insights.js:30 | Any ascending rearrangement of the dates starts with the earliest date. |
| Intervals.SortedDatesLast | insights.js:30 | Any ascending rearrangement of the dates ends with the latest date. |
| Intervals.GapsAreDifferences | insights.js:33-38 | There is one gap fewer than dates, and gap i is date i+1 minus date i. |
| Intervals.GapsTelescope | insights.js:40 | The gaps sum to the last date minus the first. |
| Intervals.GapsFromDifferences | insights.js:33-38 | Any list of successive differences of the dates is the gap list. |
| Intervals.GapsOfSorted | insights.js:33-38 | The differences pushed by the loop are the gaps of the sorted dates. |
| Intervals.CalculateAverageTimeBetween | insights.js:27-52 | The loop's result is the average and consistency of the sorted dates' gaps. Fewer than two purchases give 0 days and 0 consistency. |
| Intervals.AverageDaysIsSpanOverGaps | insights.js:40-49 | `AverageDays` is the rounded span from the first to the last purchase divided by one less than the count, and is never negative. |
| Intervals.GapsSpan | insights.js:33-40 | For two or more purchases there are n-1 gaps, summing to latest minus earliest. |
| Intervals.DaysOfSpan | insights.js:40-49 | A span split over n-1 gaps rounds to the same average days. |
| Intervals.RoundQuotientNonNegative | insights.js:49 | Rounding a non-negative mean never gives a negative day count. |
| Intervals.TimeBetweenOrderIndependent | insights.js:30 | Two orderings of the same purchases give the same sorted dates and the same result, because the function sorts a copy. |
| Intervals.SameDayConsistencyIsNaN | insights.js:43-46 | When every purchase is on one day the mean gap is 0, so the consistency is NaN (0/0), as the code computes it. |
| Intervals.ZeroGaps | insights.js:40-44 | All-zero gaps have zero sum and zero squared deviation. |
| Intervals.ConsistencyScoreRange | insights.js:40-50 | With a square root that is non-negative on non-negative numbers, `ConsistencyScore` is NaN or a number from 0 to 100. |
| Intervals.SortedScoreRange | insights.js:40-50 | The same for any ascending dates. Their gaps and mean gap are non-negative. |
| Intervals.ScoreRange | insights.js:46-50 | The rounded `Score` of a non-negative deviation over a non-negative mean lies in 0..100. A zero mean gives 0 when the deviation is positive and NaN when it is 0. |
| Intervals.SumSquaredDeviationNonNegative | insights.js:44 | A sum of squared deviations is never negative. |
| Intervals.MeanNonNegative | insights.js:40 | A non-negative total over a positive count has a non-negative mean. |
| Intervals.Classify | insights.js:165-168 | The frequency is Weekly iff the average is at most 8 days, Bi-weekly iff 9-15, Monthly iff 16-35, Irregular iff above 35. |
| Intervals.ClassifyMonotone | insights.js:165-168 | A longer average gap never gives a more frequent class. |
| Intervals.AnalyzeInvestmentPattern | insights.js:160-174 | The pattern is the classification of the average gap plus its consistency. Fewer than two purchases give Weekly with 0 consistency. |
| Intervals.RegularPurchases | insights.js:27-52 | Purchases exactly d > 0 days apart average d days with 100% consistency. |
| Intervals.ConstantGapsMean | insights.js:40 | Gaps all equal to d have mean d, rounding to d. |
| Intervals.ConstantGapsScore | insights.js:44-50 | When the gaps all equal d > 0, the deviation is zero and the rounded `Score` is 100. |
| Intervals.MeanOfConstant | insights.js:40 | n copies of d average to d. |
| Intervals.EqualGaps | insights.js:33-38 | Dates d apart produce n-1 gaps that all equal d. |
| Intervals.ConstantGaps | insights.js:40-44 | Constant gaps sum to count times d and have zero squared deviation from d. |
| Extremes.ExtremeIndex | insights.js:59-65 | The reduce's winner is an index into the list. |
| Extremes.ExtremeIndexBest | insights.js:59-65 | The winner's amount is the largest (or smallest) of all. Every earlier record is strictly worse, so the first record among ties wins. |
| Extremes.FindExtremePurchase | insights.js:54-72 | Empty input gives amount 0, the placeholder date and 0 BTC. Otherwise the result is one of the records, with an amount at least ('max') or at most (other kinds) every amount. |
| Extremes.LargestFirstWins | insights.js:59-61 | The first record with the largest amount is the one reported for 'max'. |
| Extremes.SmallestFirstWins | insights.js:62-63 | The first record with the smallest amount is the one reported for 'min'. |
| Extremes.EffectivePrice | insights.js:79 | The price is the rate when non-zero, else amount/btcReceived. With no BTC a positive amount gives Infinity, and a non-positive one does not pass the filter. |
| Extremes.Prices | insights.js:79 | The filtered prices are at most as many as the records and are each positive or Infinity. |
| Extremes.SortPricesAscending | insights.js:80 | The sorted prices are in ascending order, Infinity last. |
| Extremes.SortPricesPermutation | insights.js:80 | Sorting the prices rearranges them and loses none. |
| Extremes.SplitFiniteInfinite | insights.js:80 | The finite prices and the infinite ones together make up the price list. |
| Extremes.DistributionOfEmpty | insights.js:74-77 | With no purchases, `CalculatePriceDistribution` gives min, max and median 0. |
| Extremes.DistributionBounds | insights.js:74-95 | When a price survives the filter, `CalculatePriceDistribution` gives a min, max and upper median that are prices. The min and max bound every price, and min <= median <= max. |
| Extremes.AscendingBounds | insights.js:82-84 | In an ascending rearrangement the first element bounds every element from below and the last from above. |
| Extremes.LeReflexive | insights.js:80 | Every surviving price is ordered against itself. |
| Extremes.DistributionAllFiltered | insights.js:74-95 | When purchases exist but every price is filtered out, `CalculatePriceDistribution` gives undefined for all three values. |
| Extremes.DistributionOfOne | insights.js:74-95 | When a single price survives, `CalculatePriceDistribution` gives it as the min, the max and the median. |
| Streaks.RunAt | insights.js:124-138 | The run ending at week i is between 1 and i+1 weeks long. |
| Streaks.LongestRun | insights.js:135-141 | The longest run among the first n weeks is between 1 and n. |
| Streaks.BucketByWeek | insights.js:102-118 | The loop's map has exactly the distinct week keys (first-seen order), each bucket holding that week's purchases in sorted order. |
| Streaks.KeysStep | insights.js:112-115 | One more purchase adds its week key only when the key was not seen yet. |
| Streaks.StreakOfWeeks | insights.js:119-152 | The loop's current and longest streaks are `StreakOf` the week list. |
| Streaks.CalculateConsistencyStreak | insights.js:97-158 | No purchases give {0, 0}. Otherwise the result is the streak of the sorted distinct week keys, which are non-empty. |
| Streaks.LongestRunIsMaximum | insights.js:135-141 | The reported longest streak is at least every run and equals one of them. |
| Streaks.RunAtIsMaximalStretch | insights.js:124-138 | A run is a maximal stretch of weeks, each within 1.5 weeks of the previous one. |
| Streaks.StreakBounds | insights.js:118-152 | For `StreakOf`: 1 <= longest <= number of distinct week keys, and 0 <= current <= longest. |
| Streaks.WeekKeysCount | insights.js:118 | `WeekKeys` has no more distinct week keys than there are purchases. |
| Streaks.WeekKeysMembership | insights.js:106-118 | A week is in `WeekKeys` exactly when some purchase falls in it. |
| Streaks.WeekKeysAscending | insights.js:118 | The keys are strictly ascending. |
| Streaks.WeekKeysSundays | insights.js:109 | Every key is a Sunday. |
| Streaks.ContinuesIffNextWeek | insights.js:130-132 | Between two Sundays, "at most 1.5 weeks apart" means exactly "the next week". |
| Streaks.StreakWeeksAreConsecutive | insights.js:128-136 | Successive keys continue a run exactly when they are consecutive weeks. |
| Streaks.CurrentStreakWindow | insights.js:144-152 | `StreakOf` gives as current streak the final run when the last week started at most 1.5 weeks before now, and 0 otherwise. |
| Monthly.AvgPrice | insights.js:200 | The average price times the BTC gives back the amount when BTC > 0; otherwise it is 0. |
| Monthly.AccumulateMonths | insights.js:177-196 | The loop's object has exactly one entry per distinct month, each the totals and count of that month's purchases. |
| Monthly.AccumulateStep | insights.js:193-195 | Adding one purchase to its month entry keeps every entry equal to its month's totals. |
| Monthly.MonthKeysStep | insights.js:183-191 | A purchase adds its month key only when the key was not seen yet. |
| Monthly.AccumulatedStep | insights.js:193-195 | One more purchase changes only its own month's totals. |
| Monthly.AccumulatedOfAbsentMonth | insights.js:183-190 | A month with no purchase has the zero entry. |
| Monthly.GroupByMonth | insights.js:176-204 | The result has one entry per month, in ascending month order. Each entry is `Summary` of its month: that month's totals and average price. |
| Monthly.CalculateMonthlyPattern | insights.js:176-204 | The same, with the months the calendar months of the purchase dates (`Calendar.SameMonthKey`). |
| Monthly.FillAveragePrices | insights.js:199-201 | Every entry gains its average price, and nothing else changes. |
| Monthly.ValuesInOrder | insights.js:203 | The values are listed in key order. |
| Monthly.SortedSummaries | insights.js:203 | Sorting the summaries by month gives the summaries of the ascending month list. |
| Monthly.SortedMonths | insights.js:203 | Sorting entries by month orders their months as the sorted keys. |
| Monthly.MonthsAscendingAndComplete | insights.js:183-203 | The months are strictly ascending, and a month appears exactly when some purchase falls in it. |
| Monthly.SumOverEntries | insights.js:193-195 | Summing the entries equals summing each month's purchases. |
| Monthly.MonthlyConservation | insights.js:193-195 | Over all months, the `Summary` totals of amount, BTC and count equal the totals over the input. |
| Monthly.MonthsNonEmpty | insights.js:183-195 | Every listed month has at least one purchase. |
| Monthly.CountPositive | insights.js:195 | A month containing a purchase has a positive count. |
| Achievements.CatalogShape | js/achievements.js:16-129 | The catalog has 14 entries, each with its display texts, and distinct ids. 'week_consistent' and 'month_consistent' share the condition longestStreak >= 4. |
| Achievements.CatalogIdsInOrder | js/achievements.js:16-129 | The catalog's ids, in order, are the listed 14 ids. |
| Achievements.CatalogIdsDistinct | js/achievements.js:16-129 | No two catalog ids are equal. |
| Achievements.Progress | js/achievements.js:149-177 | Progress never exceeds 100. |
| Achievements.Evaluated | js/achievements.js:135-138 | Evaluating the catalog gives one badge per entry. |
| Achievements.EvaluateAll | js/achievements.js:135-138 | Each badge is `Evaluate` of its definition: that definition, its condition on the data as the unlocked flag, and its progress. |
| Achievements.AnnouncedMembership | js/achievements.js:140-143 | `Announced` holds a badge exactly when the badge is unlocked and its id was not seen, and it keeps catalog order. |
| Achievements.UnlockedByDataOnly | js/achievements.js:136-137 | A badge's unlocked flag is its condition on the data alone, never the seen list. |
| Achievements.ProgressFullIffUnlocked | js/achievements.js:149-177 | In the badges `Evaluate` builds, For every catalog entry, progress is 100 exactly when the entry is unlocked. |
| Achievements.ThresholdProgress | js/achievements.js:153-173 | A formula `Math.min(100, x / t * 100)` with a positive target is 100 exactly when x reaches t. |
| Achievements.FallBackProgress | js/achievements.js:175 | Entries without a formula get 100 when unlocked and 0 otherwise, from the flag just set. |
| Achievements.EvaluatedIds | js/achievements.js:135-138 | Evaluation keeps the ids in catalog order. |
| Achievements.NotReportedBefore | js/achievements.js:140-143 | With distinct ids, an entry is not announced by any entry before it in the pass. |
| Achievements.CheckStep | js/achievements.js:136-143 | One iteration extends the announced list and the seen list by the entry exactly when it is unlocked and unseen. |
| Achievements.CheckTwiceQuiet | js/achievements.js:140-143 | A second check against the grown seen list announces nothing. |
| Achievements.UnlockedAreSeen | js/achievements.js:140-143 | After `checkAchievements` every unlocked id is in the seen list. |
| Achievements.SeenStaysDistinct | js/achievements.js:142 | The seen list gains no duplicate. |
| Achievements.Unevaluated | js/achievements.js:9-10 | Before any `checkAchievements`, every badge is locked with 0 progress. |
| Achievements.UnevaluatedIds | js/achievements.js:9-10 | The initial badges carry the catalog's definitions and ids. |
| Achievements.CheckTwiceSameBadges | js/achievements.js:136-138 | Rechecking the same data leaves the definitions, flags and progress unchanged. |
| Achievements.CheckOutcome | js/achievements.js:140-143 | Every unlocked id ends up seen, and a duplicate-free seen list stays duplicate-free. |
| Achievements.BoolText | js/achievements.js:396 | The stored text is "true" exactly when the flag is set. |
| Achievements.AchievementSystem.constructor | js/achievements.js:9-13 | The catalog starts unevaluated, the sound is on, and the stored seen list and sound preference are loaded. |
| Achievements.AchievementSystem.MarkAchievementAsSeen | js/achievements.js:383-392 | The id is appended to the seen list, so `IsAchievementSeen` then reports it as seen. |
| Achievements.AchievementSystem.CheckAchievements | js/achievements.js:132-147 | The badges are re-evaluated from the data, and the result is the unlocked, unseen ones in catalog order. The seen list grows by exactly their ids. After the call `IsAchievementSeen` holds for every unlocked id, and a duplicate-free seen list stays duplicate-free. |
| Achievements.AchievementSystem.Visit | js/achievements.js:135-144 | One forEach step writes its badge and extends the announced and seen lists as the step lemma says. |
| Achievements.AchievementSystem.Init | js/achievements.js:400-406 | A stored preference sets the flag to (text == "true"). Without one the flag is kept. |
| Achievements.AchievementSystem.ToggleSound | js/achievements.js:408-418 | The flag flips (so two calls restore it), is returned, and its text is stored. |
| Data.CombineNewestFirst | data.js:508 | `Combine` rearranges both records lists, sorted by date, newest first. |
| Data.SwyftxPositive | data.js:10-321 | All 31 Swyftx records have positive amount and BTC. |
| Data.BitarooPositive | data.js:324-505 | All 18 Bitaroo records have positive amount and BTC. |
| Data.CalculateMetrics | data.js:511-526 | The count is the list length. The average cost times the BTC gives back the invested total when BTC is non-zero; with no BTC the average is not a number. |
| Data.MetricsOrderIndependent | data.js:511-520 | Rearranging the purchases does not change the metrics. |
| Data.MetricsOfPositive | data.js:512-514 | For positive purchases, invested, BTC and average cost are positive. |
| Data.SumPositive | data.js:512-513 | A sum of positive terms over a non-empty list is positive. |
| Data.CombinedMetrics | data.js:508-520 | The metrics of the combined lists count all records and add both totals, with a positive average cost. |
| Data.BundledMetrics | data.js:508-520 | `AllTransactions`, the bundled history, has 49 purchases and a positive average cost. |
| Data.CurrencyCode | data.js:532 | The code is the selected currency, or 'AUD' when none is selected. |
| Data.LocaleTable | data.js:532-547 | `LocaleFor` gives en-US iff USD, de-DE iff EUR, en-GB iff GBP, and en-AU for everything else. |
| Csv.Fields | main.js:240 | A line splits into at least one field, as many as its comma-separated parts. |
| Csv.Records | main.js:237-254 | There are no more records than lines. |
| Csv.ParseCSV | main.js:231-256 | The loop returns `CsvRecords`, the records of the lines after the header. Text that trims to at most one line gives none, and there are always fewer records than lines. |
| Csv.RecordsSnoc | main.js:237-254 | One more line adds its record exactly when it is accepted. |
| Csv.RecordsConcat | main.js:237-254 | The records of two blocks of lines are the records of each, concatenated. |
| Csv.RecordsPerAcceptedLine | main.js:239-253 | There is exactly one record per non-blank line with at least 8 fields, in input order. |
| Csv.ExtraColumnsIgnored | main.js:243-253 | `RecordOf` ignores the fields beyond the eighth. |
| Csv.RecordsTrimmed | main.js:240-253 | Every text field of every record is whitespace-trimmed. |
| Csv.LineRoundTrip | main.js:240-243 | Eight comma-free, trimmed fields written as a line are accepted, and `RecordOf` reads them back unchanged. |
| Csv.FieldsOfWritten | main.js:240 | Comma-free trimmed fields joined by commas split back into the same fields. |
| Csv.WrittenNotBlank | main.js:239 | A written line of two or more fields is never skipped as blank. |
| Csv.FileRoundTrip | main.js:231-256 | A header over written rows parses to exactly one record per row, in order: the header is consumed and never becomes a record. |
| Ledger.NextDirection | js/main.js:548-550 | The first sort of a column is descending, and every later one flips the stored direction. |
| Ledger.DirectionsAlternate | js/main.js:548-550 | Two sorts of a column return it to the first direction, and the columns are tracked independently. |
| Ledger.SortedTransactionsSpec | js/main.js:552-577 | `SortedTransactions` rearranges the records. It orders a known column ascending or descending, and keeps the order for an unknown column. |
| Ledger.SortedValuesDetermined | js/main.js:572-576 | Any two orderings allowed by the comparator show the same column values. Only ties may differ. |
| Ledger.TimeframeAll | js/main.js:495-516 | For 'ALL' and every unrecognised timeframe, `CutoffDay` gives none and `FilterByTimeframe` returns the list unchanged. |
| Ledger.TimeframeKnown | js/main.js:495-518 | For 1M/3M/6M/1Y, `CutoffDay` gives a day. `FilterByTimeframe` keeps, in order, the records dated after that day, plus those on it when the clock is at midnight. |
| Ledger.YearCutoffIsTwelveMonths | js/main.js:501-512 | The '1Y' cutoff, `setFullYear(year - 1)`, is the day `setMonth(month - 12)` would give. |
| Ledger.OnOrAfterDays | js/main.js:518 | A date's midnight is on or after the cutoff instant exactly when it is a later day or the cutoff day at midnight. |
| Ledger.PriceRatio | main.js:289-291 | The ratio is 1 when the AUD price is 0 or missing, and otherwise times the AUD price gives the selected price. |
| Ledger.AudRatioIsOne | main.js:289-291 | With AUD selected and a numeric AUD price, the ratio is 1. |
| Ledger.StoredOrDefault | main.js:285 | The stored currency when non-empty, else 'AUD'; never empty. |
| Ledger.PriceLocale | main.js:316-331 | The display locale is the same currency-to-locale table as the formatter's. |
| Ledger.Percent | main.js:391 | The unguarded P&L percent is no number when nothing was invested, and for a positive base it is non-negative exactly when the value reaches the base. |
| Ledger.PercentOfZero | main.js:391 | Dividing by a zero base never gives a number. |
| Ledger.PercentFacts | main.js:391 | For a positive base, the percent is a number whose sign follows value minus base. |
| Ledger.GuardedPnl | main.js:409-410 | A converted investment of 0 gives P&L 0. For a positive converted investment, the P&L is non-negative exactly when the value reaches it. |
| Ledger.GuardAgreesWhenInvested | main.js:391-410 | With ratio 1 the guarded and unguarded P&L agree whenever something was invested. With nothing invested the guard gives 0 where the unguarded formula gives no number. |
| Ledger.PortfolioOf | js/main.js:214-229 | totalBtc and totalInvested are the sums, totalTransactions the length, streak and drawdown 0. The value is BTC times price, and the P&L is the unguarded percent. |
| Ledger.PortfolioOrderIndependent | js/main.js:214-229 | Rearranging the records does not change the portfolio. |
| Ledger.EmptyPortfolio | js/main.js:219 | An empty ledger invests 0 and has a NaN P&L. |
| Ledger.NothingHeldIsNaN | js/main.js:218-219 | Zero holdings over zero investment give NaN. |
| Ledger.WithValue | main.js:427-428 | Writing the value and P&L into a computed portfolio keeps its other fields. Into the initial `{}` it leaves only those two. |
| Ledger.BitcoinDadLedger.constructor | main.js:9-29 | The initial price, directions, timeframe, portfolio, currency, price map, ratio and metrics. |
| Ledger.BitcoinDadLedger.SortTable | main.js:794-826 | The column's direction is toggled. The records are rearranged and ordered by a known column, or left as they are. Nothing else changes. |
| Ledger.BitcoinDadLedger.UpdateMetrics | main.js:357-371 | The stored metrics are those of the current records. Nothing else changes. |
| Ledger.BitcoinDadLedger.CalculatePortfolioData | main.js:386-402 | The stored portfolio is the one computed from the records and current price. |
| Ledger.BitcoinDadLedger.UpdatePortfolioValue | main.js:404-429 | With a truthy price and metrics, the portfolio's value and guarded P&L are written. Otherwise nothing changes. |
| Ledger.BitcoinDadLedger.LoadBTCPrice | main.js:270-299 | Sets the price map. Sets the currency, keeping it or falling back to the stored one or 'AUD'. Sets the ratio and the selected price, then updates the portfolio value. |
| Users.FeatureAccess | user-system.js:338-341 | Nobody signed in opens nothing. Free opens exactly 'View Demo' and 'Basic Education'. Premium opens exactly its four features. |
| Users.TiersDisjoint | user-system.js:7-14 | `Features`: The tiers share no feature. |
| Users.UserSystem.constructor | user-system.js:4-34 | The signed-in user is the stored one, or nobody. |
| Users.UserSystem.GrantDemoAccess | user-system.js:198-205 | The demo user is signed in: free tier, demo, no subscription. `HasFeatureAccess` then holds for the demo view but not for the achievements. |
| Users.UserSystem.ProcessPremiumSignup | user-system.js:213-231 | A name or email that trims to nothing changes nothing. Otherwise the trimmed name and email are signed in as premium, not demo, with subscription 'demo_' + stamp. |
| Users.UserSystem.Logout | user-system.js:255-256 | Nobody is signed in, so `HasFeatureAccess` holds for no feature. |
| ReactApp.MockPrice | src/App.jsx:15-20 | Every demo price is positive. |
| ReactApp.StatsOf | src/App.jsx:75-110 | The totals are sums. The average times the BTC gives back the invested total when BTC > 0, and is 0 otherwise. The streak is the purchase count, and the unlocked list is the filter. |
| ReactApp.UnlockedInCatalogOrder | src/App.jsx:84-101 | `UnlockedAchievements` is a subsequence of the catalog. An entry is in it exactly when `UnlockedBy` holds for it. |
| ReactApp.UnlockImplications | src/App.jsx:86-97 | In `UnlockedAchievements`, 'first_purchase' is present iff there is a purchase, and 'rocket_fuel' brings 'consistent_stacker' and 'family_first'. |
| ReactApp.AddingNeverLocks | src/App.jsx:84-101 | Appending a purchase never locks an unlocked achievement. |
| ReactApp.StatsAfterAdd | src/App.jsx:76-81 | Appending a purchase adds its amount and BTC to the totals and 1 to the streak. |
| ReactApp.GainLossPercent | src/App.jsx:161-163 | The percent is 0 unless something was invested. Then it is non-negative exactly when the holdings are worth at least the investment. |
| ReactApp.TrackerApp.constructor | src/App.jsx:50-60 | The form and the purchase list start empty, in AUD, with zero statistics. |
| ReactApp.TrackerApp.AddPurchase | src/App.jsx:112-130 | An empty or non-positive amount changes nothing. Otherwise one purchase at the currency's demo price is appended, its BTC times the price is the amount, and the field is cleared. |
| ReactApp.TrackerApp.RefreshStats | src/App.jsx:75-110 | The statistics become those of the current purchases. |
| WebApp.BitcoinPrice | webapp/src/App.jsx:93 | Every fallback price is positive. |
| WebApp.AveragePrice | webapp/src/App.jsx:166 | The average times the BTC gives back the total when BTC is non-zero. Otherwise it is no number. |
| WebApp.PrependKeepsIds | webapp/src/App.jsx:149-157 | A new purchase with id length + 1 in front keeps the ids distinct and in range. |
| WebApp.SumAfterPrepend | webapp/src/App.jsx:157-163 | Prepending adds the purchase's amount to the sum. |
| WebApp.ProgressWidth | webapp/src/App.jsx:584 | The width is at most 100, equals 100 exactly when the target is reached, and is non-negative for a non-negative count. |
| WebApp.RocketFuelWidth | webapp/src/App.jsx:584 | The 'Rocket Fuel' bar is at most 100, and full exactly at 52 streak weeks. |
| WebApp.WhaleWidth | webapp/src/App.jsx:596 | The 'Bitcoin Whale' bar is at most 100, and full exactly at 1 BTC. |
| WebApp.NewPurchase | webapp/src/App.jsx:144-155 | The id is the old count + 1, with the form's currency and date and that currency's price. Its BTC times the price is the amount. |
| WebApp.Credited | webapp/src/App.jsx:160-167 | Invested, BTC and count grow by the purchase, and the last date is its date. The average price times the new BTC is the new total. Everything else is kept. |
| WebApp.BitcoinDadApp.constructor | webapp/src/App.jsx:93-106 | The demo user and purchases, with an empty USD form dated today. |
| WebApp.BitcoinDadApp.HandleAddPurchase | webapp/src/App.jsx:136-177 | A missing amount or date changes nothing. Otherwise the new purchase is prepended, the user is credited, and the form is reset to an empty USD amount. Totals minus purchase sums and count minus length are kept, and so are sound ids. |

## Left out

- Rendering, modals, toasts, tables, badge markup, charts, scroll and theme effects, audio, and the static-file server are presentation or I/O, not computation.
- The CoinGecko fetch, the 24-hour change map (main.js:276-281), timers and the random demo price drift (src/App.jsx:64-72) are network, clock or randomness. Fetched prices are parameters of `LoadBTCPrice`, and the demo prices stay at their initial values.
- localStorage and JSON are storage. The stored seen list, sound preference, user and currency are parameters or fields. A stored user whose tier is not 'free' or 'premium' would make `hasFeatureAccess` throw; tiers are a datatype here.
- `parseFloat`, `Number`, `toFixed`, `Intl.NumberFormat` and date formatting are number parsing and formatting. The parser's numeric fields go through a `num` parameter, and amounts typed into the forms are given as numbers. Only the locale choice is modelled.
- The metrics' text round trip (`toFixed` in `calculateMetrics`, then `parseFloat` in `updatePortfolioValue`) is formatting. The model carries the exact values.
- Floating point is out of scope: amounts are exact reals. `Math.sqrt` is a parameter of the consistency score. The lemmas that need it assume only its value at 0, or that it is never negative on non-negative numbers.
- JavaScript `Date` is out of scope. Dates are whole days, the timeframe filter's clock is a `Clock` parameter, and the week key's `toISOString` shift under a non-UTC timezone (insights.js:110) is not modelled. Month keys compare as numbers, which orders them as the `YYYY-MM` strings are ordered.
- `Calendar.DaysFromCivil` and `Calendar.MakeDay`: only the round trip from a day number through its civil date is proved (`Calendar.CivilRoundTrip`). The reverse direction is not proved: that a valid date converts to a day whose civil date it is. So which calendar day a `setMonth` cutoff lands on rests on the conversion formulas as written.
- The hand-off of the insights' longest streak into the portfolio data is not modelled. `initializeInsights` (main.js:842) overwrites `portfolioData.longestStreak` with the longest weekly streak of `calculateConsistencyStreak`. That happens before `initializeAchievements` runs `checkAchievements` (main.js:857-860). So the streak badges see that streak, not the 0 that `calculatePortfolioData` writes and `Ledger.PortfolioOf` states.
- `Streaks.StreakOfWeeks`: it promises the specified streak only for a non-empty week list. The empty case is handled by its caller, as in the source.
- The achievements call inside `updatePortfolioValue` (main.js:430-437) is left out. It is the same `CheckAchievements` on the written portfolio.
- The older `updatePortfolioValue` in js/main.js (js/main.js:231-259), without a price ratio, is left out. It is main.js's guarded one with ratio 1, and `Ledger.GuardAgreesWhenInvested` covers that case.
- The currency selector's setup and change handler (main.js:759-782) are left out. They store the chosen currency and call `LoadBTCPrice` again.
- `Ledger.BitcoinDadLedger.SortTable`: the comparator never returns 0, so the order of equal keys depends on the engine. The contract promises the rearrangement and the order, not a tie order (see `Ledger.SortedValuesDetermined`).
- The initial `unlocked` and `progress` of catalog entries are absent in the source (`undefined`). The model starts them as locked and 0.
- The first, shadowed `toggleSound` (js/achievements.js:394-398) is not modelled: the second definition is the one in effect.
- The webapp's `!purchaseForm.currency` test is always false, because the currency comes from a fixed select. The form's currency is a datatype.
- `WebApp.BitcoinDadApp.HandleAddPurchase` accepts any parsed amount, including non-positive ones, as the source does.
- `Data`: the exact totals of the bundled records (the "$3800" comment on the Swyftx list) are not proved. Only their positivity and count are.
- `Csv.WriteLine` and `Csv.FileRoundTrip` use a writer the application does not have. They are a reference partner for the parser.

## Edge cases the code takes

The model follows the code in these cases, where a reader might expect otherwise:

- The consistency score is NaN, not 0, when every purchase falls on one day (`Intervals.SameDayConsistencyIsNaN`).
- The price filter keeps `Infinity`, from a zero-BTC record with a positive amount (`Extremes.EffectivePrice`).
- When every price is filtered out, min, max and median are `undefined`, not 0 (`Extremes.DistributionAllFiltered`).
- Achievement progress is capped at 100 but not clamped at 0, so a negative total gives negative progress.
