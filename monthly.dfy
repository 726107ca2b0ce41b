/** The monthly roll-up: the purchases grouped by calendar month, with the amount, the
    bitcoin and the number of purchases of each month and the month's average price. */
module Monthly {
  import opened Seqs
  import opened Sorting
  import opened Txn
  import opened Calendar

  /** `{ month, totalAmount, totalBtc, transactionCount, avgPrice }`; `month` is the
      'YYYY-MM' key as the number year * 12 + (month - 1). */
  datatype MonthData = MonthData(month: int, totalAmount: real, totalBtc: real, transactionCount: int, avgPrice: real)

  function TxMonth(t: Transaction): int { MonthKey(t.date) }

  function MonthOf(d: MonthData): int { d.month }

  function MonthSortKey(d: MonthData): real { d.month as real }

  /** `data.totalBtc > 0 ? data.totalAmount / data.totalBtc : 0`. */
  function AvgPrice(totalAmount: real, totalBtc: real): (r: real)
    ensures totalBtc > 0.0 ==> r * totalBtc == totalAmount
    ensures totalBtc <= 0.0 ==> r == 0.0
  {
    if totalBtc > 0.0 then totalAmount / totalBtc else 0.0
  }

  /** The accumulation step `totalAmount += tx.amount; totalBtc += tx.btcReceived;
      transactionCount += 1`. */
  function AddPurchase(d: MonthData, tx: Transaction): MonthData {
    d.(totalAmount := d.totalAmount + tx.amount, totalBtc := d.totalBtc + tx.btcReceived,
       transactionCount := d.transactionCount + 1)
  }

  /** A month's entry while the purchases `txs` are being accumulated, before the
      average price is filled in. */
  function Accumulated(txs: seq<Transaction>, monthOf: Transaction -> int, m: int): MonthData {
    MonthData(m, SumWhere(txs, monthOf, m, Amount), SumWhere(txs, monthOf, m, Btc), CountWhere(txs, monthOf, m), 0.0)
  }

  /** The average price filled in: `data.avgPrice = ...`. */
  function WithAvgPrice(d: MonthData): MonthData {
    d.(avgPrice := AvgPrice(d.totalAmount, d.totalBtc))
  }

  /** The finished entry of month `m`. */
  function Summary(txs: seq<Transaction>, monthOf: Transaction -> int, m: int): MonthData {
    WithAvgPrice(Accumulated(txs, monthOf, m))
  }

  /** The months that have purchases, ascending. */
  function Months(txs: seq<Transaction>, monthOf: Transaction -> int): seq<int> {
    DistinctKeys(txs, monthOf)
  }

  /** The accumulation loop of `calculateMonthlyPattern`: `monthlyData` gets one entry per
      month, created with zero totals the first time the month is seen; `keys` are its
      keys in insertion order. */
  method AccumulateMonths(txs: seq<Transaction>, monthOf: Transaction -> int) returns (monthlyData: map<int, MonthData>, keys: seq<int>)
    ensures keys == Dedup(MapSeq(monthOf, txs))
    ensures forall k :: k in monthlyData <==> k in keys
    ensures forall k :: k in monthlyData ==> monthlyData[k] == Accumulated(txs, monthOf, k)
  {
    monthlyData := map[];
    keys := [];
    for i := 0 to |txs|
      invariant keys == Dedup(MapSeq(monthOf, txs[..i]))
      invariant forall k :: k in monthlyData <==> k in keys
      invariant forall k :: k in monthlyData ==> monthlyData[k] == Accumulated(txs[..i], monthOf, k)
    {
      var tx := txs[i];
      var monthKey := monthOf(tx);
      MonthKeysStep(txs, monthOf, i);
      ghost var before := monthlyData;
      ghost var acc := Accumulated(txs[..i], monthOf, monthKey);
      ghost var created := monthKey !in monthlyData;
      if monthKey !in monthlyData {
        AccumulatedOfAbsentMonth(txs[..i], monthOf, monthKey);
        monthlyData := monthlyData[monthKey := MonthData(monthKey, 0.0, 0.0, 0, 0.0)];
        keys := keys + [monthKey];
      }
      assert monthlyData[monthKey] == acc;
      var data := monthlyData[monthKey];
      monthlyData := monthlyData[monthKey := AddPurchase(data, tx)];
      assert monthlyData == before[monthKey := AddPurchase(acc, tx)] by {
        if created {
          OverwriteTwice(before, monthKey, MonthData(monthKey, 0.0, 0.0, 0, 0.0), AddPurchase(acc, tx));
        }
      }
      AccumulateStep(before, txs, monthOf, i);
    }
    assert txs[..|txs|] == txs;
  }

  /** One pass of the accumulation loop keeps every entry equal to the accumulation of
      the purchases seen so far. */
  lemma AccumulateStep(before: map<int, MonthData>, txs: seq<Transaction>, monthOf: Transaction -> int, i: int)
    requires 0 <= i < |txs|
    requires forall k :: k in before ==> before[k] == Accumulated(txs[..i], monthOf, k)
    ensures var m := monthOf(txs[i]);
      var after := before[m := AddPurchase(Accumulated(txs[..i], monthOf, m), txs[i])];
      forall k :: k in after ==> after[k] == Accumulated(txs[..i + 1], monthOf, k)
  {
    var m := monthOf(txs[i]);
    var after := before[m := AddPurchase(Accumulated(txs[..i], monthOf, m), txs[i])];
    forall k | k in after
      ensures after[k] == Accumulated(txs[..i + 1], monthOf, k)
    {
      AccumulatedStep(txs, monthOf, i, k);
    }
  }

  lemma OverwriteTwice(m: map<int, MonthData>, k: int, a: MonthData, b: MonthData)
    ensures m[k := a][k := b] == m[k := b]
  {
  }

  lemma MonthKeysStep(txs: seq<Transaction>, monthOf: Transaction -> int, i: int)
    requires 0 <= i < |txs|
    ensures var keys := Dedup(MapSeq(monthOf, txs[..i]));
      Dedup(MapSeq(monthOf, txs[..i + 1])) == if monthOf(txs[i]) in keys then keys else keys + [monthOf(txs[i])]
  {
    MapSeqSnoc(monthOf, txs, i);
    var ms := MapSeq(monthOf, txs[..i + 1]);
    assert ms[..i] == MapSeq(monthOf, txs[..i]);
    DedupSnoc(ms, i);
    assert ms[..i + 1] == ms;
  }

  lemma AccumulatedStep(txs: seq<Transaction>, monthOf: Transaction -> int, i: int, k: int)
    requires 0 <= i < |txs|
    ensures Accumulated(txs[..i + 1], monthOf, k) ==
      if monthOf(txs[i]) == k then AddPurchase(Accumulated(txs[..i], monthOf, k), txs[i]) else Accumulated(txs[..i], monthOf, k)
  {
    assert txs[..i + 1][..i] == txs[..i];
  }

  /** A month none of the purchases falls in accumulates nothing. */
  lemma {:induction false} AccumulatedOfAbsentMonth(txs: seq<Transaction>, monthOf: Transaction -> int, k: int)
    requires k !in Dedup(MapSeq(monthOf, txs))
    ensures Accumulated(txs, monthOf, k) == MonthData(k, 0.0, 0.0, 0, 0.0)
  {
    if txs != [] {
      var init := txs[..|txs| - 1];
      var m := MapSeq(monthOf, txs);
      assert m[|txs| - 1] == monthOf(txs[|txs| - 1]);
      assert MapSeq(monthOf, init) == m[..|txs| - 1];
      assert k !in MapSeq(monthOf, init);
      AccumulatedOfAbsentMonth(init, monthOf, k);
    }
  }

  /** `calculateMonthlyPattern(transactions)`: one entry per month that has purchases,
      in ascending month order, each holding that month's totals, count and average
      price. */
  method GroupByMonth(txs: seq<Transaction>, monthOf: Transaction -> int) returns (r: seq<MonthData>)
    ensures |r| == |Months(txs, monthOf)|
    ensures forall i :: 0 <= i < |r| ==> r[i] == Summary(txs, monthOf, Months(txs, monthOf)[i])
  {
    var monthlyData, keys := AccumulateMonths(txs, monthOf);
    monthlyData := FillAveragePrices(monthlyData, keys);
    var values := ValuesInOrder(monthlyData, keys);
    r := SortBy(values, MonthSortKey);
    SortedSummaries(txs, monthOf, keys, values, r);
  }

  /** `calculateMonthlyPattern(transactions)`, grouping by the calendar month of each
      purchase's date. */
  method CalculateMonthlyPattern(txs: seq<Transaction>) returns (r: seq<MonthData>)
    ensures |r| == |Months(txs, TxMonth)|
    ensures forall i :: 0 <= i < |r| ==> r[i] == Summary(txs, TxMonth, Months(txs, TxMonth)[i])
  {
    r := GroupByMonth(txs, TxMonth);
  }

  /** `Object.values(monthlyData).forEach(data => { data.avgPrice = ... })`. */
  method FillAveragePrices(monthlyData: map<int, MonthData>, keys: seq<int>) returns (filled: map<int, MonthData>)
    requires NoDup(keys)
    requires forall k :: k in monthlyData <==> k in keys
    ensures forall k :: k in filled <==> k in keys
    ensures forall i :: 0 <= i < |keys| ==> keys[i] in filled
    ensures forall k :: k in filled ==> filled[k] == WithAvgPrice(monthlyData[k])
  {
    filled := monthlyData;
    forall i | 0 <= i < |keys|
      ensures keys[i] in monthlyData
    {
      assert keys[i] in keys;
    }
    for j := 0 to |keys|
      invariant forall k :: k in filled <==> k in keys
      invariant forall i :: 0 <= i < |keys| ==> keys[i] in filled
      invariant forall i :: 0 <= i < j ==> filled[keys[i]] == WithAvgPrice(monthlyData[keys[i]])
      invariant forall i :: j <= i < |keys| ==> filled[keys[i]] == monthlyData[keys[i]]
    {
      var data := filled[keys[j]];
      filled := filled[keys[j] := data.(avgPrice := AvgPrice(data.totalAmount, data.totalBtc))];
    }
    forall k | k in filled
      ensures filled[k] == WithAvgPrice(monthlyData[k])
    {
      var i :| 0 <= i < |keys| && keys[i] == k;
    }
  }

  /** `Object.values(monthlyData)`: the entries in the insertion order of their keys. */
  method ValuesInOrder(monthlyData: map<int, MonthData>, keys: seq<int>) returns (values: seq<MonthData>)
    requires forall i :: 0 <= i < |keys| ==> keys[i] in monthlyData
    ensures |values| == |keys|
    ensures forall i :: 0 <= i < |keys| ==> values[i] == monthlyData[keys[i]]
  {
    values := [];
    for j := 0 to |keys|
      invariant |values| == j
      invariant forall i :: 0 <= i < j ==> values[i] == monthlyData[keys[i]]
    {
      values := values + [monthlyData[keys[j]]];
    }
  }

  /** Sorting the entries by month lines them up with the ascending months. */
  lemma SortedSummaries(txs: seq<Transaction>, monthOf: Transaction -> int, keys: seq<int>, values: seq<MonthData>, r: seq<MonthData>)
    requires keys == Dedup(MapSeq(monthOf, txs))
    requires |values| == |keys|
    requires forall i :: 0 <= i < |keys| ==> values[i] == Summary(txs, monthOf, keys[i])
    requires r == SortBy(values, MonthSortKey)
    ensures |r| == |Months(txs, monthOf)|
    ensures forall i :: 0 <= i < |r| ==> r[i] == Summary(txs, monthOf, Months(txs, monthOf)[i])
  {
    var w := Months(txs, monthOf);
    assert MapSeq(MonthOf, values) == keys;
    SortedMonths(values, r, keys, w);
    var ms := MapSeq(MonthOf, r);
    forall i | 0 <= i < |r|
      ensures r[i] == Summary(txs, monthOf, w[i])
    {
      assert r[i] in multiset(values);
      var j :| 0 <= j < |values| && values[j] == r[i];
      assert ms[i] == r[i].month;
    }
  }

  /** The months of the entries sorted by month are the months sorted. */
  lemma SortedMonths(values: seq<MonthData>, r: seq<MonthData>, keys: seq<int>, w: seq<int>)
    requires MapSeq(MonthOf, values) == keys
    requires r == SortBy(values, MonthSortKey)
    requires w == SortBy(keys, IntKey)
    ensures MapSeq(MonthOf, r) == w
  {
    var ms := MapSeq(MonthOf, r);
    MapMultiset(MonthOf, r, values);
    forall i, j | 0 <= i < j < |ms|
      ensures ms[i] <= ms[j]
    {
      assert MonthSortKey(r[i]) <= MonthSortKey(r[j]);
    }
    forall i, j | 0 <= i < j < |w|
      ensures w[i] <= w[j]
    {
      assert IntKey(w[i]) <= IntKey(w[j]);
    }
    SortedIntsUnique(ms, w);
  }

  /** The months are distinct and ascending, and a month is listed exactly when some
      purchase falls in it. */
  lemma MonthsAscendingAndComplete(txs: seq<Transaction>, monthOf: Transaction -> int, m: int)
    ensures forall i, j :: 0 <= i < j < |Months(txs, monthOf)| ==> Months(txs, monthOf)[i] < Months(txs, monthOf)[j]
    ensures m in Months(txs, monthOf) <==> exists k :: 0 <= k < |txs| && monthOf(txs[k]) == m
  {
    DistinctKeysAscending(txs, monthOf);
    DistinctKeysMembership(txs, monthOf, m);
  }

  function EntryAmount(d: MonthData): real { d.totalAmount }

  function EntryBtc(d: MonthData): real { d.totalBtc }

  function EntryCount(d: MonthData): real { d.transactionCount as real }

  /** Summing a per-month quantity over the months gives the sum over the per-key sums. */
  lemma {:induction false} SumOverEntries(txs: seq<Transaction>, monthOf: Transaction -> int, ks: seq<int>, r: seq<MonthData>)
    requires |r| == |ks|
    requires forall i :: 0 <= i < |r| ==> r[i] == Summary(txs, monthOf, ks[i])
    ensures SumOf(r, EntryAmount) == SumOverKeys(ks, txs, monthOf, Amount)
    ensures SumOf(r, EntryBtc) == SumOverKeys(ks, txs, monthOf, Btc)
    ensures SumOf(r, EntryCount) == SumOverKeys(ks, txs, monthOf, One)
  {
    if r != [] {
      var n := |r| - 1;
      SumOverEntries(txs, monthOf, ks[..n], r[..n]);
      CountIsSumOfOnes(txs, monthOf, ks[n]);
    }
  }

  /** Grouping loses nothing: the months' amounts, bitcoin and counts add up to the
      totals over all purchases. */
  lemma MonthlyConservation(txs: seq<Transaction>, monthOf: Transaction -> int, r: seq<MonthData>)
    requires |r| == |Months(txs, monthOf)|
    requires forall i :: 0 <= i < |r| ==> r[i] == Summary(txs, monthOf, Months(txs, monthOf)[i])
    ensures SumOf(r, EntryAmount) == TotalAmount(txs)
    ensures SumOf(r, EntryBtc) == TotalBtc(txs)
    ensures SumOf(r, EntryCount) == |txs| as real
  {
    var w := Months(txs, monthOf);
    SumOverEntries(txs, monthOf, w, r);
    DistinctKeysAscending(txs, monthOf);
    assert NoDup(w);
    forall i | 0 <= i < |txs|
      ensures monthOf(txs[i]) in w
    {
      DistinctKeysMembership(txs, monthOf, monthOf(txs[i]));
    }
    SumOverKeysPartition(w, txs, monthOf, Amount);
    SumOverKeysPartition(w, txs, monthOf, Btc);
    SumOverKeysPartition(w, txs, monthOf, One);
    SumOfOnes(txs);
  }

  /** Every listed month has at least one purchase. */
  lemma MonthsNonEmpty(txs: seq<Transaction>, monthOf: Transaction -> int, i: int)
    requires 0 <= i < |Months(txs, monthOf)|
    ensures Summary(txs, monthOf, Months(txs, monthOf)[i]).transactionCount >= 1
  {
    var m := Months(txs, monthOf)[i];
    DistinctKeysMembership(txs, monthOf, m);
    var k :| 0 <= k < |txs| && monthOf(txs[k]) == m;
    CountPositive(txs, monthOf, m, k);
  }

  lemma {:induction false} CountPositive(txs: seq<Transaction>, monthOf: Transaction -> int, m: int, k: int)
    requires 0 <= k < |txs| && monthOf(txs[k]) == m
    ensures CountWhere(txs, monthOf, m) >= 1
  {
    if k < |txs| - 1 {
      CountPositive(txs[..|txs| - 1], monthOf, m, k);
    }
  }
}
