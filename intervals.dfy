/** The average time between purchases, its consistency score, and the purchase frequency
    classified from it. */
module Intervals {
  import opened JsValues
  import opened Seqs
  import opened Sorting
  import opened Txn
  import opened Calendar

  function TxDate(t: Transaction): int { t.date }

  function SumInts(s: seq<int>): int {
    if s == [] then 0 else SumInts(s[..|s| - 1]) + s[|s| - 1]
  }

  /** The earliest date of a non-empty list, as an independent reference for the first
      date of the sorted copy. */
  function Earliest(txs: seq<Transaction>): (d: int)
    requires txs != []
    ensures forall i :: 0 <= i < |txs| ==> d <= txs[i].date
    ensures exists i :: 0 <= i < |txs| && txs[i].date == d
  {
    if |txs| == 1 then txs[0].date
    else
      var e := Earliest(txs[..|txs| - 1]);
      assert forall i :: 0 <= i < |txs| - 1 ==> txs[..|txs| - 1][i] == txs[i];
      if txs[|txs| - 1].date < e then txs[|txs| - 1].date else e
  }

  /** The latest date of a non-empty list. */
  function Latest(txs: seq<Transaction>): (d: int)
    requires txs != []
    ensures forall i :: 0 <= i < |txs| ==> txs[i].date <= d
    ensures exists i :: 0 <= i < |txs| && txs[i].date == d
  {
    if |txs| == 1 then txs[0].date
    else
      var e := Latest(txs[..|txs| - 1]);
      assert forall i :: 0 <= i < |txs| - 1 ==> txs[..|txs| - 1][i] == txs[i];
      if txs[|txs| - 1].date > e then txs[|txs| - 1].date else e
  }

  /** The dates of `[...transactions].sort((a, b) => new Date(a.date) - new Date(b.date))`. */
  function SortedDates(txs: seq<Transaction>): seq<int> {
    MapSeq(TxDate, SortBy(txs, DateKey))
  }

  /** `ds` holds the dates of `txs`, each as often as it occurs, in ascending order. */
  ghost predicate IsSortedDatesOf(txs: seq<Transaction>, ds: seq<int>) {
    && |ds| == |txs|
    && (forall i, j :: 0 <= i < j < |ds| ==> ds[i] <= ds[j])
    && multiset(ds) == multiset(MapSeq(TxDate, txs))
  }

  lemma SortedDatesSorted(txs: seq<Transaction>)
    ensures IsSortedDatesOf(txs, SortedDates(txs))
  {
    MapMultiset(TxDate, SortBy(txs, DateKey), txs);
  }

  /** The ascending dates start at the earliest date. */
  lemma SortedDatesFirst(txs: seq<Transaction>, ds: seq<int>)
    requires txs != [] && IsSortedDatesOf(txs, ds)
    ensures ds[0] == Earliest(txs)
  {
    var dates := MapSeq(TxDate, txs);
    var n := |ds|;
    assert ds[0] in multiset(dates);
    var a :| 0 <= a < n && dates[a] == ds[0];
    var i :| 0 <= i < n && txs[i].date == Earliest(txs);
    assert dates[i] in multiset(ds);
    var c :| 0 <= c < n && ds[c] == dates[i];
    assert ds[0] <= ds[c];
  }

  /** The ascending dates end at the latest date. */
  lemma SortedDatesLast(txs: seq<Transaction>, ds: seq<int>)
    requires txs != [] && IsSortedDatesOf(txs, ds)
    ensures ds[|ds| - 1] == Latest(txs)
  {
    var dates := MapSeq(TxDate, txs);
    var n := |ds|;
    assert ds[n - 1] in multiset(dates);
    var b :| 0 <= b < n && dates[b] == ds[n - 1];
    var j :| 0 <= j < n && txs[j].date == Latest(txs);
    assert dates[j] in multiset(ds);
    var d :| 0 <= d < n && ds[d] == dates[j];
    assert ds[d] <= ds[n - 1];
  }

  /** The gaps in days between neighbouring dates. */
  function Gaps(ds: seq<int>): seq<int> {
    if |ds| < 2 then [] else Gaps(ds[..|ds| - 1]) + [ds[|ds| - 1] - ds[|ds| - 2]]
  }

  /** The i-th gap is the distance from date i to date i + 1. */
  lemma {:induction false} GapsAreDifferences(ds: seq<int>)
    ensures |Gaps(ds)| == if ds == [] then 0 else |ds| - 1
    ensures forall i :: 0 <= i < |Gaps(ds)| ==> Gaps(ds)[i] == ds[i + 1] - ds[i]
  {
    if |ds| >= 2 {
      var init := ds[..|ds| - 1];
      GapsAreDifferences(init);
      assert forall i :: 0 <= i < |init| ==> init[i] == ds[i];
    }
  }

  /** The gaps add up to the distance from the first date to the last. */
  lemma {:induction false} GapsTelescope(ds: seq<int>)
    requires ds != []
    ensures SumInts(Gaps(ds)) == ds[|ds| - 1] - ds[0]
  {
    if |ds| >= 2 {
      var init := ds[..|ds| - 1];
      GapsTelescope(init);
      var g := Gaps(ds);
      assert g[..|g| - 1] == Gaps(init);
    }
  }

  function SumSquaredDeviation(g: seq<int>, mean: real): real {
    if g == [] then 0.0
    else SumSquaredDeviation(g[..|g| - 1], mean) + (g[|g| - 1] as real - mean) * (g[|g| - 1] as real - mean)
  }

  /** `{ days, consistency }`: the rounded mean gap and the rounded consistency score. */
  datatype TimeBetween = TimeBetween(days: int, consistency: JsNum)

  /** The consistency score `Math.max(0, 100 - (stdDev / mean * 100))`. */
  function Score(stdDev: real, mean: real): JsNum {
    MaxZero(Sub(Num(100.0), Mul(Div(Num(stdDev), Num(mean)), Num(100.0))))
  }

  /** The mean `total / count` of `count` values adding up to `total`. */
  function Mean(total: int, count: int): real
    requires count > 0
  {
    total as real / count as real
  }

  function MeanGap(g: seq<int>): real
    requires g != []
  {
    Mean(SumInts(g), |g|)
  }

  /** `Math.round(avgDays)` for the sorted dates `ds`. */
  function AverageDays(ds: seq<int>): int {
    if |ds| < 2 then 0 else Round(MeanGap(Gaps(ds)))
  }

  /** The rounded consistency score for the sorted dates `ds`, with `Math.sqrt` as `sqrt`. */
  function ConsistencyScore(ds: seq<int>, sqrt: real -> real): JsNum {
    if |ds| < 2 then Num(0.0)
    else
      var g := Gaps(ds);
      var mean := MeanGap(g);
      MathRound(Score(sqrt(SumSquaredDeviation(g, mean) / |g| as real), mean))
  }

  /** The result for the sorted dates `ds`. */
  function TimeBetweenOf(ds: seq<int>, sqrt: real -> real): TimeBetween {
    TimeBetween(AverageDays(ds), ConsistencyScore(ds, sqrt))
  }

  /** A list holding the differences of neighbouring dates is their list of gaps. */
  lemma GapsFromDifferences(ds: seq<int>, diffs: seq<int>)
    requires |ds| >= 1 && |diffs| == |ds| - 1
    requires forall j :: 0 <= j < |diffs| ==> diffs[j] == ds[j + 1] - ds[j]
    ensures diffs == Gaps(ds)
  {
    GapsAreDifferences(ds);
    var g := Gaps(ds);
    assert |g| == |diffs|;
    forall j | 0 <= j < |g|
      ensures g[j] == diffs[j]
    {
      assert g[j] == ds[j + 1] - ds[j];
      assert diffs[j] == ds[j + 1] - ds[j];
    }
  }

  /** The gaps collected from a sorted copy are the gaps of its dates. */
  lemma GapsOfSorted(sorted: seq<Transaction>, timeDiffs: seq<int>)
    requires |sorted| >= 1
    requires |timeDiffs| == |sorted| - 1
    requires forall j :: 0 <= j < |sorted| - 1 ==> timeDiffs[j] == sorted[j + 1].date - sorted[j].date
    ensures timeDiffs == Gaps(MapSeq(TxDate, sorted))
  {
    var ds := MapSeq(TxDate, sorted);
    assert forall j :: 0 <= j < |timeDiffs| ==> timeDiffs[j] == ds[j + 1] - ds[j];
    GapsFromDifferences(ds, timeDiffs);
  }

  /** `calculateAverageTimeBetween`: sorts a copy by date and collects the gaps between
      neighbours in a loop. */
  method CalculateAverageTimeBetween(txs: seq<Transaction>, sqrt: real -> real) returns (r: TimeBetween)
    ensures r == TimeBetweenOf(SortedDates(txs), sqrt)
    ensures |txs| < 2 ==> r == TimeBetween(0, Num(0.0))
  {
    if |txs| < 2 {
      return TimeBetween(0, Num(0.0));
    }
    var sorted := SortBy(txs, DateKey);
    var timeDiffs: seq<int> := [];
    for i := 1 to |sorted|
      invariant |timeDiffs| == i - 1
      invariant forall j :: 0 <= j < i - 1 ==> timeDiffs[j] == sorted[j + 1].date - sorted[j].date
    {
      var prev := sorted[i - 1].date;
      var current := sorted[i].date;
      timeDiffs := timeDiffs + [current - prev];
    }
    GapsOfSorted(sorted, timeDiffs);
    var avgDays := Mean(SumInts(timeDiffs), |timeDiffs|);
    var mean := avgDays;
    var variance := SumSquaredDeviation(timeDiffs, mean) / |timeDiffs| as real;
    var stdDev := sqrt(variance);
    var consistency := Score(stdDev, mean);
    r := TimeBetween(Round(avgDays), MathRound(consistency));
  }

  /** The average gap is the whole span divided evenly: for the ascending dates `ds` of at
      least two purchases it is the rounded (latest - earliest) / (n - 1), never negative. */
  lemma AverageDaysIsSpanOverGaps(txs: seq<Transaction>, ds: seq<int>)
    requires |txs| >= 2 && IsSortedDatesOf(txs, ds)
    ensures AverageDays(ds) == Round(Mean(Latest(txs) - Earliest(txs), |txs| - 1))
    ensures AverageDays(ds) >= 0
  {
    GapsSpan(txs, ds);
    DaysOfSpan(ds, |txs|, Latest(txs) - Earliest(txs));
  }

  lemma GapsSpan(txs: seq<Transaction>, ds: seq<int>)
    requires |txs| >= 2 && IsSortedDatesOf(txs, ds)
    ensures |Gaps(ds)| == |txs| - 1
    ensures SumInts(Gaps(ds)) == Latest(txs) - Earliest(txs) >= 0
  {
    SortedDatesFirst(txs, ds);
    SortedDatesLast(txs, ds);
    GapsTelescope(ds);
    GapsAreDifferences(ds);
    assert ds[0] <= ds[|ds| - 1];
  }

  lemma DaysOfSpan(ds: seq<int>, n: int, span: int)
    requires |ds| == n >= 2 && |Gaps(ds)| == n - 1
    requires SumInts(Gaps(ds)) == span >= 0
    ensures AverageDays(ds) == Round(Mean(span, n - 1))
    ensures AverageDays(ds) >= 0
  {
    RoundQuotientNonNegative(span, n - 1);
  }

  lemma RoundQuotientNonNegative(a: int, b: int)
    requires a >= 0 && b > 0
    ensures Round(Mean(a, b)) >= 0
  {
    var q := Mean(a, b);
    assert q * b as real == a as real;
    if q < 0.0 {
      assert q * b as real < 0.0;
    }
  }

  /** The result does not depend on the order of the input, because a sorted copy is
      used. */
  lemma TimeBetweenOrderIndependent(a: seq<Transaction>, b: seq<Transaction>, sqrt: real -> real)
    requires multiset(a) == multiset(b)
    ensures SortedDates(a) == SortedDates(b)
    ensures TimeBetweenOf(SortedDates(a), sqrt) == TimeBetweenOf(SortedDates(b), sqrt)
  {
    SortedDatesSorted(a);
    SortedDatesSorted(b);
    MapMultiset(TxDate, a, b);
    SortedIntsUnique(SortedDates(a), SortedDates(b));
  }

  /** When every purchase falls on one day the mean gap is 0 and the score is 0 / 0:
      the consistency is NaN, not 0. */
  lemma SameDayConsistencyIsNaN(txs: seq<Transaction>, ds: seq<int>, sqrt: real -> real)
    requires |txs| >= 2 && IsSortedDatesOf(txs, ds)
    requires forall i :: 0 <= i < |txs| ==> txs[i].date == txs[0].date
    requires sqrt(0.0) == 0.0
    ensures TimeBetweenOf(ds, sqrt) == TimeBetween(0, NaN)
  {
    var g := Gaps(ds);
    assert forall i :: 0 <= i < |g| ==> g[i] == 0 by {
      SortedDatesFirst(txs, ds);
      SortedDatesLast(txs, ds);
      assert Earliest(txs) == Latest(txs) == txs[0].date;
      GapsAreDifferences(ds);
      forall i | 0 <= i < |g|
        ensures g[i] == 0
      {
        assert ds[0] <= ds[i] <= ds[i + 1] <= ds[|ds| - 1];
      }
    }
    ZeroGaps(g);
    assert |g| == |ds| - 1 by {
      GapsAreDifferences(ds);
    }
    assert MeanGap(g) == 0.0;
  }

  lemma {:induction false} ZeroGaps(g: seq<int>)
    requires forall i :: 0 <= i < |g| ==> g[i] == 0
    ensures SumInts(g) == 0
    ensures SumSquaredDeviation(g, 0.0) == 0.0
  {
    if g != [] {
      ZeroGaps(g[..|g| - 1]);
    }
  }

  /** With a square root that is never negative on non-negative numbers, the consistency
      score is NaN (every purchase on one day) or a number from 0 to 100. */
  lemma ConsistencyScoreRange(txs: seq<Transaction>, sqrt: real -> real)
    requires forall x :: x >= 0.0 ==> sqrt(x) >= 0.0
    ensures var r := ConsistencyScore(SortedDates(txs), sqrt);
      r.NaN? || (r.Num? && 0.0 <= r.v <= 100.0)
  {
    SortedDatesSorted(txs);
    SortedScoreRange(SortedDates(txs), sqrt);
  }

  lemma SortedScoreRange(ds: seq<int>, sqrt: real -> real)
    requires forall i, j :: 0 <= i < j < |ds| ==> ds[i] <= ds[j]
    requires forall x :: x >= 0.0 ==> sqrt(x) >= 0.0
    ensures var r := ConsistencyScore(ds, sqrt);
      r.NaN? || (r.Num? && 0.0 <= r.v <= 100.0)
  {
    if |ds| >= 2 {
      var g := Gaps(ds);
      GapsAreDifferences(ds);
      GapsTelescope(ds);
      var mean := MeanGap(g);
      MeanNonNegative(SumInts(g), |g|);
      SumSquaredDeviationNonNegative(g, mean);
      var variance := SumSquaredDeviation(g, mean) / |g| as real;
      QuotientNonNegative(SumSquaredDeviation(g, mean), |g| as real);
      ScoreRange(sqrt(variance), mean);
    }
  }

  lemma QuotientNonNegative(a: real, b: real)
    requires a >= 0.0 && b > 0.0
    ensures a / b >= 0.0
  {
    assert a / b * b == a;
  }

  lemma MeanNonNegative(total: int, count: int)
    requires total >= 0 && count > 0
    ensures Mean(total, count) >= 0.0
  {
    QuotientNonNegative(total as real, count as real);
  }

  lemma {:induction false} SumSquaredDeviationNonNegative(g: seq<int>, mean: real)
    ensures SumSquaredDeviation(g, mean) >= 0.0
  {
    if g != [] {
      SumSquaredDeviationNonNegative(g[..|g| - 1], mean);
      var x := g[|g| - 1] as real - mean;
      assert x * x >= 0.0;
    }
  }

  /** The rounded score of a non-negative deviation over a non-negative mean lies in
      0..100, or is NaN when both are 0. */
  lemma ScoreRange(stdDev: real, mean: real)
    requires stdDev >= 0.0 && mean >= 0.0
    ensures var r := MathRound(Score(stdDev, mean));
      r.NaN? || (r.Num? && 0.0 <= r.v <= 100.0)
  {
    if mean > 0.0 {
      var q := stdDev / mean;
      QuotientNonNegative(stdDev, mean);
      assert Score(stdDev, mean) == MaxZero(Num(100.0 - q * 100.0));
      RoundPercent(MaxZero(Num(100.0 - q * 100.0)).v);
    } else if stdDev > 0.0 {
      assert Score(stdDev, mean) == Num(0.0);
    } else {
      assert Score(stdDev, mean) == NaN;
    }
  }

  lemma RoundPercent(x: real)
    requires 0.0 <= x <= 100.0
    ensures 0 <= Round(x) <= 100
  {
  }

  /** The purchase frequency named by `analyzeInvestmentPattern`. */
  datatype Frequency = Weekly | BiWeekly | Monthly | Irregular

  function FrequencyLabel(f: Frequency): string {
    match f
    case Weekly => "Weekly"
    case BiWeekly => "Bi-weekly"
    case Monthly => "Monthly"
    case Irregular => "Irregular"
  }

  /** The classification of the rounded average gap in days. */
  function Classify(avgDays: int): (f: Frequency)
    ensures f == Weekly <==> avgDays <= 8
    ensures f == BiWeekly <==> 8 < avgDays <= 15
    ensures f == Monthly <==> 15 < avgDays <= 35
    ensures f == Irregular <==> 35 < avgDays
  {
    if avgDays <= 8 then Weekly
    else if avgDays <= 15 then BiWeekly
    else if avgDays <= 35 then Monthly
    else Irregular
  }

  function Rank(f: Frequency): int {
    match f
    case Weekly => 0
    case BiWeekly => 1
    case Monthly => 2
    case Irregular => 3
  }

  /** A longer average gap never classifies as a more frequent pattern. */
  lemma ClassifyMonotone(a: int, b: int)
    requires a <= b
    ensures Rank(Classify(a)) <= Rank(Classify(b))
  {
  }

  /** `{ frequency, consistency }`; the text `${consistency}% consistent` is formatting
      and the number it shows is kept instead. */
  datatype Pattern = Pattern(frequency: Frequency, consistency: JsNum)

  /** `analyzeInvestmentPattern(transactions)`. */
  method AnalyzeInvestmentPattern(txs: seq<Transaction>, sqrt: real -> real) returns (p: Pattern)
    ensures p == Pattern(Classify(AverageDays(SortedDates(txs))), ConsistencyScore(SortedDates(txs), sqrt))
    ensures |txs| < 2 ==> p == Pattern(Weekly, Num(0.0))
  {
    var insights := CalculateAverageTimeBetween(txs, sqrt);
    var avgDays := insights.days;
    var consistency := insights.consistency;
    var frequency := Irregular;
    if avgDays <= 8 {
      frequency := Weekly;
    } else if avgDays <= 15 {
      frequency := BiWeekly;
    } else if avgDays <= 35 {
      frequency := Monthly;
    }
    p := Pattern(frequency, consistency);
  }

  /** Purchases exactly `d` days apart, `d > 0`, average `d` days with full consistency. */
  lemma RegularPurchases(ds: seq<int>, d: int, sqrt: real -> real)
    requires |ds| >= 2 && d > 0 && sqrt(0.0) == 0.0
    requires forall i :: 0 <= i < |ds| - 1 ==> ds[i + 1] - ds[i] == d
    ensures TimeBetweenOf(ds, sqrt) == TimeBetween(d, Num(100.0))
  {
    EqualGaps(ds, d);
    ConstantGapsMean(Gaps(ds), d);
    ConstantGapsScore(Gaps(ds), d, sqrt);
  }

  lemma ConstantGapsMean(g: seq<int>, d: int)
    requires g != [] && forall i :: 0 <= i < |g| ==> g[i] == d
    ensures MeanGap(g) == d as real
    ensures Round(MeanGap(g)) == d
  {
    ConstantGaps(g, d);
    MeanOfConstant(|g|, d);
  }

  lemma ConstantGapsScore(g: seq<int>, d: int, sqrt: real -> real)
    requires g != [] && d > 0 && sqrt(0.0) == 0.0
    requires forall i :: 0 <= i < |g| ==> g[i] == d
    ensures MathRound(Score(sqrt(SumSquaredDeviation(g, MeanGap(g)) / |g| as real), MeanGap(g))) == Num(100.0)
  {
    ConstantGapsMean(g, d);
    ConstantGaps(g, d);
    var z := SumSquaredDeviation(g, d as real) / |g| as real;
    assert z == 0.0;
    assert Score(0.0, d as real) == Num(100.0);
  }

  lemma MeanOfConstant(n: int, d: int)
    requires n > 0
    ensures Mean(n * d, n) == d as real
  {
    assert (n * d) as real == n as real * d as real;
  }

  lemma EqualGaps(ds: seq<int>, d: int)
    requires |ds| >= 2
    requires forall i :: 0 <= i < |ds| - 1 ==> ds[i + 1] - ds[i] == d
    ensures |Gaps(ds)| == |ds| - 1
    ensures forall i :: 0 <= i < |Gaps(ds)| ==> Gaps(ds)[i] == d
  {
    GapsAreDifferences(ds);
    var g := Gaps(ds);
    forall i | 0 <= i < |g|
      ensures g[i] == d
    {
      assert g[i] == ds[i + 1] - ds[i];
    }
  }

  lemma {:induction false} ConstantGaps(g: seq<int>, d: int)
    requires forall i :: 0 <= i < |g| ==> g[i] == d
    ensures SumInts(g) == |g| * d
    ensures SumSquaredDeviation(g, d as real) == 0.0
  {
    if g != [] {
      ConstantGaps(g[..|g| - 1], d);
    }
  }
}
