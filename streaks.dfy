/** The consistency streak: purchases are bucketed by the Sunday that starts their week,
    and a streak is a run of week keys each at most one and a half weeks after the
    previous one. */
module Streaks {
  import opened Seqs
  import opened Sorting
  import opened Txn
  import opened Calendar

  /** `{ current, longest }`, in weeks. */
  datatype Streak = Streak(current: int, longest: int)

  /** The week key of a purchase. */
  function TxWeek(t: Transaction): int { WeekStart(t.date) }

  function Max(a: int, b: int): int { if a >= b then a else b }

  /** A distance of `days` days is within the streak window: `days / 7 <= 1.5`. */
  predicate WithinWindow(days: real) {
    days / 7.0 <= 1.5
  }

  /** The week `cur` continues a streak that reached the week `prev`. */
  predicate Continues(prev: int, cur: int) {
    WithinWindow((cur - prev) as real)
  }

  /** The length of the run of continuing weeks that ends at position `i`. */
  function RunAt(w: seq<int>, i: int): (k: nat)
    requires 0 <= i < |w|
    ensures 1 <= k <= i + 1
  {
    if i == 0 then 1
    else if Continues(w[i - 1], w[i]) then RunAt(w, i - 1) + 1
    else 1
  }

  /** The longest run ending among the first `n` positions. */
  function LongestRun(w: seq<int>, n: int): (m: nat)
    requires 0 < n <= |w|
    ensures 1 <= m <= n
  {
    if n == 1 then RunAt(w, 0) else Max(LongestRun(w, n - 1), RunAt(w, n - 1))
  }

  /** The week keys `Array.from(weeklyBuckets.keys()).sort()`: the keys of the purchases in
      date order, each once, in ascending order (for four-digit years the 'YYYY-MM-DD'
      key strings sort as the days they name). */
  function WeekKeys(txs: seq<Transaction>): seq<int> {
    DistinctKeys(SortBy(txs, DateKey), TxWeek)
  }

  /** The result for the ascending week keys `w`, at the instant `now`. */
  function StreakOf(w: seq<int>, now: real): Streak
    requires w != []
  {
    var last := w[|w| - 1];
    Streak(if WithinWindow(now - last as real) then RunAt(w, |w| - 1) else 0, LongestRun(w, |w|))
  }

  /** The week bucketing of `calculateConsistencyStreak`: every purchase of `sorted` is
      pushed into the bucket of its week key; `keys` are the bucket keys in insertion
      order. */
  method BucketByWeek(sorted: seq<Transaction>) returns (weeklyBuckets: map<int, seq<Transaction>>, keys: seq<int>)
    ensures keys == Dedup(MapSeq(TxWeek, sorted))
    ensures forall k :: k in weeklyBuckets <==> k in keys
    ensures forall k :: k in weeklyBuckets ==> weeklyBuckets[k] == Group(sorted, TxWeek, k)
  {
    weeklyBuckets := map[];
    keys := [];
    for i := 0 to |sorted|
      invariant keys == Dedup(MapSeq(TxWeek, sorted[..i]))
      invariant forall k :: k in weeklyBuckets <==> k in keys
      invariant forall k :: k in weeklyBuckets ==> weeklyBuckets[k] == Group(sorted[..i], TxWeek, k)
    {
      var tx := sorted[i];
      var weekKey := WeekStart(tx.date);
      KeysStep(sorted, i);
      ghost var before := weeklyBuckets;
      if weekKey !in weeklyBuckets {
        GroupOfAbsentKey(sorted[..i], TxWeek, weekKey);
        weeklyBuckets := weeklyBuckets[weekKey := []];
        keys := keys + [weekKey];
      }
      var bucket := weeklyBuckets[weekKey];
      assert bucket == Group(sorted[..i], TxWeek, weekKey);
      weeklyBuckets := weeklyBuckets[weekKey := bucket + [tx]];
      forall k | k in weeklyBuckets
        ensures weeklyBuckets[k] == Group(sorted[..i + 1], TxWeek, k)
      {
        GroupSnoc(sorted, TxWeek, k, i);
        if k != weekKey {
          assert weeklyBuckets[k] == before[k];
        }
      }
    }
    assert sorted[..|sorted|] == sorted;
  }

  lemma KeysStep(sorted: seq<Transaction>, i: int)
    requires 0 <= i < |sorted|
    ensures var keys := Dedup(MapSeq(TxWeek, sorted[..i]));
      Dedup(MapSeq(TxWeek, sorted[..i + 1])) == if TxWeek(sorted[i]) in keys then keys else keys + [TxWeek(sorted[i])]
  {
    MapSeqSnoc(TxWeek, sorted, i);
    var ws := MapSeq(TxWeek, sorted[..i + 1]);
    assert ws[..i] == MapSeq(TxWeek, sorted[..i]);
    DedupSnoc(ws, i);
    assert ws[..i + 1] == ws;
  }

  /** The streak loop of `calculateConsistencyStreak` over the sorted week keys, and the
      current streak from the time since the last week key. */
  method StreakOfWeeks(weeks: seq<int>, now: real) returns (r: Streak)
    ensures weeks != [] ==> r == StreakOf(weeks, now)
  {
    var currentStreak := 0;
    var longestStreak := 0;
    var tempStreak := 0;
    for i := 0 to |weeks|
      invariant i == 0 ==> tempStreak == 0 && longestStreak == 0
      invariant 0 < i ==> tempStreak == RunAt(weeks, i - 1) && Max(longestStreak, tempStreak) == LongestRun(weeks, i)
    {
      if i == 0 {
        tempStreak := 1;
      } else {
        var weeksDiff := (weeks[i] - weeks[i - 1]) as real / 7.0;
        if weeksDiff <= 1.5 {
          tempStreak := tempStreak + 1;
        } else {
          longestStreak := Max(longestStreak, tempStreak);
          tempStreak := 1;
        }
      }
    }
    longestStreak := Max(longestStreak, tempStreak);

    var lastWeek := if |weeks| > 0 then weeks[|weeks| - 1] else 0;
    var weeksSinceLastPurchase := (now - lastWeek as real) / 7.0;
    if weeksSinceLastPurchase <= 1.5 {
      currentStreak := tempStreak;
    } else {
      currentStreak := 0;
    }
    r := Streak(currentStreak, longestStreak);
  }

  /** `calculateConsistencyStreak(transactions)`, with the current instant `now` as a
      real day number. */
  method CalculateConsistencyStreak(txs: seq<Transaction>, now: real) returns (r: Streak)
    ensures txs == [] ==> r == Streak(0, 0)
    ensures txs != [] ==> WeekKeys(txs) != [] && r == StreakOf(WeekKeys(txs), now)
  {
    if |txs| == 0 {
      return Streak(0, 0);
    }
    var sorted := SortBy(txs, DateKey);
    var weeklyBuckets, keys := BucketByWeek(sorted);
    assert TxWeek(sorted[0]) in MapSeq(TxWeek, sorted);
    var weeks := SortBy(keys, IntKey);
    assert keys[0] in multiset(weeks);
    r := StreakOfWeeks(weeks, now);
  }

  /** The longest run is the largest of the runs ending at each position. */
  lemma {:induction false} LongestRunIsMaximum(w: seq<int>, n: int)
    requires 0 < n <= |w|
    ensures forall i :: 0 <= i < n ==> RunAt(w, i) <= LongestRun(w, n)
    ensures exists i :: 0 <= i < n && RunAt(w, i) == LongestRun(w, n)
  {
    if n > 1 {
      LongestRunIsMaximum(w, n - 1);
      if LongestRun(w, n - 1) < RunAt(w, n - 1) {
        assert RunAt(w, n - 1) == LongestRun(w, n);
      }
    } else {
      assert RunAt(w, 0) == LongestRun(w, n);
    }
  }

  /** The run ending at `i` is the stretch of weeks, back from `i`, in which every week
      continues the previous one, and it cannot be extended further back. */
  lemma {:induction false} RunAtIsMaximalStretch(w: seq<int>, i: int)
    requires 0 <= i < |w|
    ensures var start := i - RunAt(w, i) + 1;
      && (forall j :: start < j <= i ==> Continues(w[j - 1], w[j]))
      && (start == 0 || !Continues(w[start - 1], w[start]))
  {
    if i > 0 && Continues(w[i - 1], w[i]) {
      RunAtIsMaximalStretch(w, i - 1);
    }
  }

  /** Bounds: the longest streak is at least one week and at most the number of distinct
      week keys (itself at most the number of purchases), and the current streak never
      exceeds the longest. */
  lemma StreakBounds(w: seq<int>, now: real)
    requires w != []
    ensures 1 <= StreakOf(w, now).longest <= |w|
    ensures 0 <= StreakOf(w, now).current <= StreakOf(w, now).longest
  {
    LongestRunIsMaximum(w, |w|);
  }

  /** There are no more week keys than purchases. */
  lemma WeekKeysCount(txs: seq<Transaction>)
    ensures |WeekKeys(txs)| <= |txs|
  {
    DistinctKeysCount(SortBy(txs, DateKey), TxWeek);
  }

  /** A week key occurs exactly when some purchase falls in that week. */
  lemma WeekKeysMembership(txs: seq<Transaction>, k: int)
    ensures k in WeekKeys(txs) <==> exists i :: 0 <= i < |txs| && TxWeek(txs[i]) == k
  {
    var sorted := SortBy(txs, DateKey);
    DistinctKeysMembership(sorted, TxWeek, k);
    if exists j :: 0 <= j < |sorted| && TxWeek(sorted[j]) == k {
      var j :| 0 <= j < |sorted| && TxWeek(sorted[j]) == k;
      assert sorted[j] in multiset(txs);
    }
    if exists i :: 0 <= i < |txs| && TxWeek(txs[i]) == k {
      var i :| 0 <= i < |txs| && TxWeek(txs[i]) == k;
      assert txs[i] in multiset(sorted);
    }
  }

  /** The week keys are strictly ascending. */
  lemma WeekKeysAscending(txs: seq<Transaction>)
    ensures forall i, j :: 0 <= i < j < |WeekKeys(txs)| ==> WeekKeys(txs)[i] < WeekKeys(txs)[j]
  {
    DistinctKeysAscending(SortBy(txs, DateKey), TxWeek);
  }

  /** Every week key is a Sunday. */
  lemma WeekKeysSundays(txs: seq<Transaction>)
    ensures forall i :: 0 <= i < |WeekKeys(txs)| ==> Weekday(WeekKeys(txs)[i]) == 0
  {
    var w := WeekKeys(txs);
    forall i | 0 <= i < |w|
      ensures Weekday(w[i]) == 0
    {
      WeekKeysMembership(txs, w[i]);
      var k :| 0 <= k < |txs| && TxWeek(txs[k]) == w[i];
      WeekStartIsSunday(txs[k].date);
    }
  }

  /** Between two Sunday week keys, the next week continues a streak exactly when it is
      the following week: a gap of two weeks already breaks it. */
  lemma ContinuesIffNextWeek(a: int, b: int)
    requires Weekday(a) == 0 && Weekday(b) == 0 && a < b
    ensures Continues(a, b) <==> b == a + 7
  {
    var p := (a + 4) / 7;
    var q := (b + 4) / 7;
    assert a + 4 == 7 * p;
    assert b + 4 == 7 * q;
    var d := q - p;
    assert b - a == 7 * d;
    assert (b - a) as real / 7.0 == d as real;
  }

  /** So for the keys of a purchase list, a streak is a run of consecutive calendar weeks. */
  lemma StreakWeeksAreConsecutive(txs: seq<Transaction>, j: int)
    requires 0 < j < |WeekKeys(txs)|
    ensures Continues(WeekKeys(txs)[j - 1], WeekKeys(txs)[j]) <==> WeekKeys(txs)[j] == WeekKeys(txs)[j - 1] + 7
  {
    WeekKeysAscending(txs);
    WeekKeysSundays(txs);
    ContinuesIffNextWeek(WeekKeys(txs)[j - 1], WeekKeys(txs)[j]);
  }

  /** A purchase last week or this week keeps the current streak alive; one whose week
      started two weeks or more ago ends it. */
  lemma CurrentStreakWindow(w: seq<int>, now: real)
    requires w != []
    ensures now <= w[|w| - 1] as real + 10.5 ==> StreakOf(w, now).current == RunAt(w, |w| - 1)
    ensures now > w[|w| - 1] as real + 10.5 ==> StreakOf(w, now).current == 0
  {
  }
}
