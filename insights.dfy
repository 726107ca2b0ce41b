/** `PortfolioInsights.calculateInsights`: every insight computed from one list of
    purchases. The current instant and `Math.sqrt` are parameters. */
module Insights {
  import opened JsValues
  import opened Sorting
  import opened Txn
  import opened Intervals
  import opened Extremes
  import opened Streaks
  import opened Monthly

  datatype Report = Report(
    avgTimeBetween: TimeBetween,
    largestPurchase: Extreme,
    smallestPurchase: Extreme,
    priceDistribution: Distribution,
    consistencyStreak: Streak,
    investmentPattern: Pattern,
    monthlyPattern: seq<MonthData>)

  method CalculateInsights(txs: seq<Transaction>, now: real, sqrt: real -> real) returns (r: Report)
    ensures r.avgTimeBetween == TimeBetweenOf(SortedDates(txs), sqrt)
    ensures r.largestPurchase == FindExtremePurchase(txs, "max")
    ensures r.smallestPurchase == FindExtremePurchase(txs, "min")
    ensures r.priceDistribution == CalculatePriceDistribution(txs)
    ensures txs == [] ==> r.consistencyStreak == Streak(0, 0)
    ensures txs != [] ==> WeekKeys(txs) != [] && r.consistencyStreak == StreakOf(WeekKeys(txs), now)
    ensures r.investmentPattern.frequency == Classify(r.avgTimeBetween.days)
    ensures r.investmentPattern.consistency == r.avgTimeBetween.consistency
    ensures |r.monthlyPattern| == |Months(txs, TxMonth)|
    ensures forall i :: 0 <= i < |r.monthlyPattern| ==> r.monthlyPattern[i] == Summary(txs, TxMonth, Months(txs, TxMonth)[i])
  {
    var avgTimeBetween := CalculateAverageTimeBetween(txs, sqrt);
    var consistencyStreak := CalculateConsistencyStreak(txs, now);
    var investmentPattern := AnalyzeInvestmentPattern(txs, sqrt);
    var monthlyPattern := CalculateMonthlyPattern(txs);
    r := Report(
      avgTimeBetween,
      FindExtremePurchase(txs, "max"),
      FindExtremePurchase(txs, "min"),
      CalculatePriceDistribution(txs),
      consistencyStreak,
      investmentPattern,
      monthlyPattern);
  }

  /** With no purchases every insight takes its default. */
  lemma EmptyReport(now: real, sqrt: real -> real)
    ensures TimeBetweenOf(SortedDates([]), sqrt) == TimeBetween(0, Num(0.0))
    ensures FindExtremePurchase([], "max") == Extreme(0.0, Placeholder, 0.0)
    ensures FindExtremePurchase([], "min") == Extreme(0.0, Placeholder, 0.0)
    ensures CalculatePriceDistribution([]) == Distribution(Num(0.0), Num(0.0), Num(0.0))
    ensures Classify(0) == Weekly
    ensures Months([], TxMonth) == []
  {
    DistinctKeysCount([], TxMonth);
  }
}
