/** The largest and smallest purchase and the distribution of the prices paid. */
module Extremes {
  import opened JsValues
  import opened Seqs
  import opened Sorting
  import opened Txn

  /** The shown date of an extreme purchase: '--' when there is none, otherwise the
      purchase's day (its `toLocaleDateString` text is not modelled). */
  datatype DateLabel = Placeholder | OnDay(day: int)

  /** `{ amount, date, btc }`. */
  datatype Extreme = Extreme(amount: real, date: DateLabel, btc: real)

  /** The `reduce` step's test: does `t` replace the current `e`? Strictly larger for
      'max', strictly smaller otherwise. */
  predicate Replaces(isMax: bool, t: Transaction, e: Transaction) {
    if isMax then t.amount > e.amount else t.amount < e.amount
  }

  /** The position of the record `txs.reduce(...)` keeps, folding from the left and
      starting with the first record. */
  function ExtremeIndex(txs: seq<Transaction>, isMax: bool): (i: nat)
    requires txs != []
    ensures i < |txs|
  {
    if |txs| == 1 then 0
    else
      var j := ExtremeIndex(txs[..|txs| - 1], isMax);
      if Replaces(isMax, txs[|txs| - 1], txs[j]) then |txs| - 1 else j
  }

  /** The kept record has an amount at least (at most, for 'min') every other amount, and
      every earlier record's amount is strictly smaller (larger): on ties the first
      record wins. */
  lemma {:induction false} ExtremeIndexBest(txs: seq<Transaction>, isMax: bool)
    requires txs != []
    ensures var i := ExtremeIndex(txs, isMax);
      forall k :: 0 <= k < |txs| ==>
        if isMax then txs[k].amount <= txs[i].amount else txs[i].amount <= txs[k].amount
    ensures var i := ExtremeIndex(txs, isMax);
      forall k :: 0 <= k < i ==>
        if isMax then txs[k].amount < txs[i].amount else txs[i].amount < txs[k].amount
  {
    if |txs| > 1 {
      var init := txs[..|txs| - 1];
      ExtremeIndexBest(init, isMax);
      assert forall k :: 0 <= k < |init| ==> init[k] == txs[k];
    }
  }

  /** `findExtremePurchase(transactions, type)`: 'max' selects the largest amount, any
      other `type` the smallest. */
  function FindExtremePurchase(txs: seq<Transaction>, kind: string): (r: Extreme)
    ensures txs == [] ==> r == Extreme(0.0, Placeholder, 0.0)
    ensures txs != [] ==> exists i :: 0 <= i < |txs| && r == Extreme(txs[i].amount, OnDay(txs[i].date), txs[i].btcReceived)
    ensures kind == "max" ==> forall k :: 0 <= k < |txs| ==> txs[k].amount <= r.amount
    ensures kind != "max" ==> forall k :: 0 <= k < |txs| ==> r.amount <= txs[k].amount
  {
    if txs == [] then Extreme(0.0, Placeholder, 0.0)
    else
      var i := ExtremeIndex(txs, kind == "max");
      ExtremeIndexBest(txs, kind == "max");
      Extreme(txs[i].amount, OnDay(txs[i].date), txs[i].btcReceived)
  }

  /** With several largest purchases, the reported one is the first of them. */
  lemma LargestFirstWins(txs: seq<Transaction>, i: int)
    requires 0 <= i < |txs|
    requires forall k :: 0 <= k < |txs| ==> txs[k].amount <= txs[i].amount
    requires forall k :: 0 <= k < i ==> txs[k].amount < txs[i].amount
    ensures FindExtremePurchase(txs, "max") == Extreme(txs[i].amount, OnDay(txs[i].date), txs[i].btcReceived)
  {
    ExtremeIndexBest(txs, true);
    var j := ExtremeIndex(txs, true);
  }

  /** With several smallest purchases, the reported one is the first of them. */
  lemma SmallestFirstWins(txs: seq<Transaction>, i: int)
    requires 0 <= i < |txs|
    requires forall k :: 0 <= k < |txs| ==> txs[i].amount <= txs[k].amount
    requires forall k :: 0 <= k < i ==> txs[i].amount < txs[k].amount
    ensures FindExtremePurchase(txs, "min") == Extreme(txs[i].amount, OnDay(txs[i].date), txs[i].btcReceived)
  {
    ExtremeIndexBest(txs, false);
    var j := ExtremeIndex(txs, false);
  }

  /** `tx.rate || (tx.amount / tx.btcReceived)`: a zero rate falls back to the quotient,
      which is an infinity or NaN when nothing was received. */
  function EffectivePrice(t: Transaction): (p: JsNum)
    ensures t.rate != 0.0 ==> p == Num(t.rate)
    ensures t.rate == 0.0 && t.btcReceived != 0.0 ==> p == Num(t.amount / t.btcReceived)
    ensures t.rate == 0.0 && t.btcReceived == 0.0 && t.amount > 0.0 ==> p == Infinity
    ensures t.rate == 0.0 && t.btcReceived == 0.0 && t.amount <= 0.0 ==> !GreaterThan(p, 0.0)
  {
    if Truthy(Num(t.rate)) then Num(t.rate) else Div(Num(t.amount), Num(t.btcReceived))
  }

  predicate Positive(p: JsNum) {
    GreaterThan(p, 0.0)
  }

  /** The prices that pass `.filter(price => price > 0)`: positive numbers and +Infinity. */
  function Prices(txs: seq<Transaction>): (ps: seq<JsNum>)
    ensures |ps| <= |txs|
    ensures forall i :: 0 <= i < |ps| ==> (ps[i].Num? && ps[i].v > 0.0) || ps[i] == Infinity
  {
    Filter(Positive, MapSeq(EffectivePrice, txs))
  }

  /** The ascending order of `.sort((a, b) => a - b)` on such prices. */
  predicate AscendingPrices(s: seq<JsNum>) {
    forall i, j :: 0 <= i < j < |s| ==> Le(s[i], s[j])
  }

  predicate IsFinite(p: JsNum) { p.Num? }

  predicate IsInfinite(p: JsNum) { p == Infinity }

  function PriceKey(p: JsNum): real {
    if p.Num? then p.v else 0.0
  }

  /** `prices.sort((a, b) => a - b)`. The comparator orders finite prices by value and puts
      +Infinity after them; between two infinities it yields NaN, which the sort reads
      as "equal". So the result is the finite prices, stably sorted, followed by the
      infinities. */
  function SortPrices(ps: seq<JsNum>): seq<JsNum> {
    SortBy(Filter(IsFinite, ps), PriceKey) + Filter(IsInfinite, ps)
  }

  /** The sorted prices are ascending. */
  lemma SortPricesAscending(ps: seq<JsNum>)
    ensures AscendingPrices(SortPrices(ps))
  {
    var fin := Filter(IsFinite, ps);
    var a := SortBy(fin, PriceKey);
    var b := Filter(IsInfinite, ps);
    forall i | 0 <= i < |a|
      ensures a[i].Num?
    {
      assert a[i] in multiset(fin);
    }
    var s := a + b;
    forall i, j | 0 <= i < j < |s|
      ensures Le(s[i], s[j])
    {
      if j < |a| {
        assert PriceKey(a[i]) <= PriceKey(a[j]);
      } else {
        assert s[j] == b[j - |a|];
      }
    }
  }

  /** The sorted prices are a rearrangement of the prices, when every price is a number
      or +Infinity (as after the positivity filter). */
  lemma {:induction false} SortPricesPermutation(ps: seq<JsNum>)
    requires forall i :: 0 <= i < |ps| ==> ps[i].Num? || ps[i] == Infinity
    ensures multiset(SortPrices(ps)) == multiset(ps)
  {
    SplitFiniteInfinite(ps);
  }

  lemma {:induction false} SplitFiniteInfinite(ps: seq<JsNum>)
    requires forall i :: 0 <= i < |ps| ==> ps[i].Num? || ps[i] == Infinity
    ensures multiset(Filter(IsFinite, ps)) + multiset(Filter(IsInfinite, ps)) == multiset(ps)
  {
    if ps != [] {
      var init := ps[..|ps| - 1];
      assert ps == init + [ps[|ps| - 1]];
      SplitFiniteInfinite(init);
    }
  }

  /** `prices[k]`: `undefined` past the end (or, for `prices[-1]`, before the start). */
  function At(s: seq<JsNum>, k: int): JsNum {
    if 0 <= k < |s| then s[k] else Undefined
  }

  /** `{ min, max, median }` (the `range` text is formatting and is not modelled). */
  datatype Distribution = Distribution(min: JsNum, max: JsNum, median: JsNum)

  /** `calculatePriceDistribution(transactions)`. */
  function CalculatePriceDistribution(txs: seq<Transaction>): Distribution {
    if txs == [] then Distribution(Num(0.0), Num(0.0), Num(0.0))
    else
      var sorted := SortPrices(Prices(txs));
      var n := |sorted|;
      Distribution(At(sorted, 0), At(sorted, n - 1), At(sorted, n / 2))
  }

  /** The empty list gives zeros. */
  lemma DistributionOfEmpty()
    ensures CalculatePriceDistribution([]) == Distribution(Num(0.0), Num(0.0), Num(0.0))
  {
  }

  /** When at least one positive price survives, the minimum is a price no larger than any
      price, the maximum one no smaller than any, and the median (the element at position
      floor(n / 2) of the sorted prices, the upper median) lies between them. */
  lemma DistributionBounds(txs: seq<Transaction>)
    requires Prices(txs) != []
    ensures var d := CalculatePriceDistribution(txs);
      && d.min in Prices(txs) && d.max in Prices(txs) && d.median in Prices(txs)
      && (forall p :: p in Prices(txs) ==> Le(d.min, p) && Le(p, d.max))
      && Le(d.min, d.median) && Le(d.median, d.max)
  {
    var ps := Prices(txs);
    SortPricesAscending(ps);
    SortPricesPermutation(ps);
    AscendingBounds(SortPrices(ps), ps);
  }

  /** The first and last of an ascending rearrangement bound every element, and the
      middle one lies between them. */
  lemma AscendingBounds(sorted: seq<JsNum>, ps: seq<JsNum>)
    requires ps != [] && AscendingPrices(sorted) && multiset(sorted) == multiset(ps)
    requires forall i :: 0 <= i < |ps| ==> ps[i].Num? || ps[i] == Infinity
    ensures var n := |sorted|;
      && n == |ps|
      && At(sorted, 0) in ps && At(sorted, n - 1) in ps && At(sorted, n / 2) in ps
      && (forall p :: p in ps ==> Le(At(sorted, 0), p) && Le(p, At(sorted, n - 1)))
      && Le(At(sorted, 0), At(sorted, n / 2)) && Le(At(sorted, n / 2), At(sorted, n - 1))
  {
    var n := |sorted|;
    assert n == |multiset(ps)| == |ps|;
    forall p | p in ps
      ensures Le(sorted[0], p) && Le(p, sorted[n - 1])
    {
      assert p in multiset(sorted);
      var k :| 0 <= k < n && sorted[k] == p;
      LeReflexive(p);
    }
    assert sorted[0] in multiset(ps) && sorted[n - 1] in multiset(ps) && sorted[n / 2] in multiset(ps);
    LeReflexive(sorted[0]);
    LeReflexive(sorted[n - 1]);
  }

  lemma LeReflexive(p: JsNum)
    requires p.Num? || p == Infinity
    ensures Le(p, p)
  {
  }

  /** The case the code does not guard: when every price is filtered out of a non-empty
      list, all three figures are `undefined`. */
  lemma DistributionAllFiltered(txs: seq<Transaction>)
    requires txs != [] && Prices(txs) == []
    ensures CalculatePriceDistribution(txs) == Distribution(Undefined, Undefined, Undefined)
  {
    assert Filter(IsFinite, Prices(txs)) == [];
  }

  /** With one surviving price, all three figures are that price. */
  lemma DistributionOfOne(txs: seq<Transaction>, p: JsNum)
    requires txs != [] && Prices(txs) == [p]
    ensures CalculatePriceDistribution(txs) == Distribution(p, p, p)
  {
    assert Prices(txs)[0] == p;
    SortOne(p);
  }

  lemma SortOne(p: JsNum)
    requires p.Num? || p == Infinity
    ensures SortPrices([p]) == [p]
  {
    SortPricesPermutation([p]);
    var sorted := SortPrices([p]);
    assert |sorted| == |multiset([p])| == 1;
    assert sorted[0] in multiset([p]);
  }
}
