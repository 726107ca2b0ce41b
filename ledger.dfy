/** The `BitcoinDadLedger` application object of `main.js` (and its older copy in
    `js/main.js`): the table sort, the chart's timeframe filter, the price conversion
    between currencies and the portfolio figures. The fetched prices, the stored
    currency and the current date are parameters; rendering is not modelled. */
module Ledger {
  import opened JsValues
  import opened Seqs
  import opened Sorting
  import opened Txn
  import opened Calendar
  import opened Portfolio
  import opened Data

  // ---------------------------------------------------------------------------
  // Table sort

  datatype Direction = Asc | Desc

  /** `this.sortDirection[column] || 'asc'`, flipped: a column not sorted before is
      sorted descending first, and every later call reverses the previous direction. */
  function NextDirection(dirs: map<string, Direction>, column: string): (d: Direction)
    ensures column !in dirs ==> d == Desc
    ensures column in dirs ==> d != dirs[column]
  {
    var current := if column in dirs then dirs[column] else Asc;
    if current == Asc then Desc else Asc
  }

  /** Sorting the same column twice restores the first call's direction, and a column's
      direction is not affected by sorting any other column. */
  lemma DirectionsAlternate(dirs: map<string, Direction>, column: string, other: string)
    requires other != column
    ensures var dirs' := dirs[column := NextDirection(dirs, column)];
      NextDirection(dirs'[column := NextDirection(dirs', column)], column) == NextDirection(dirs, column)
    ensures NextDirection(dirs[column := NextDirection(dirs, column)], other) == NextDirection(dirs, other)
  {
  }

  /** The columns the comparator knows; for any other it returns 0. */
  predicate KnownColumn(column: string) {
    column == "date" || column == "amount" || column == "btc"
  }

  /** The value the comparator compares for a known column: the date (as an instant),
      the fiat amount or the bitcoin received. */
  function ColumnValue(column: string, t: Transaction): real {
    if column == "date" then t.date as real
    else if column == "amount" then t.amount
    else t.btcReceived
  }

  function AscKey(column: string): Transaction -> real {
    (t: Transaction) => ColumnValue(column, t)
  }

  function DescKey(column: string): Transaction -> real {
    (t: Transaction) => -ColumnValue(column, t)
  }

  /** The sort key whose ascending order is the requested direction. */
  function KeyFor(column: string, dir: Direction): Transaction -> real {
    if dir == Asc then AscKey(column) else DescKey(column)
  }

  /** Ascending or descending by the column's value. */
  predicate OrderedBy(s: seq<Transaction>, column: string, dir: Direction) {
    forall i, j :: 0 <= i < j < |s| ==>
      if dir == Asc then ColumnValue(column, s[i]) <= ColumnValue(column, s[j])
      else ColumnValue(column, s[i]) >= ColumnValue(column, s[j])
  }

  /** The order `sort` leaves `window.dcaTransactions` in. For an unknown column every
      comparison is 0 and the stable sort keeps the order. For a known column the
      comparator never answers 0, so the engine's order of equal values is not
      determined; this definition keeps them in their original order, and the
      contracts below promise only what every order the engine may pick shares. */
  function SortedTransactions(s: seq<Transaction>, column: string, dir: Direction): seq<Transaction> {
    if !KnownColumn(column) then s
    else SortBy(s, KeyFor(column, dir))
  }

  /** The sort rearranges the records; for a known column it orders them by the
      column's value in the requested direction, for any other column it changes
      nothing. */
  lemma SortedTransactionsSpec(s: seq<Transaction>, column: string, dir: Direction)
    ensures multiset(SortedTransactions(s, column, dir)) == multiset(s)
    ensures KnownColumn(column) ==> OrderedBy(SortedTransactions(s, column, dir), column, dir)
    ensures !KnownColumn(column) ==> SortedTransactions(s, column, dir) == s
  {
    var r := SortedTransactions(s, column, dir);
    if KnownColumn(column) {
      var key := KeyFor(column, dir);
      assert SortedBy(r, key);
      forall i, j | 0 <= i < j < |r|
        ensures if dir == Asc then ColumnValue(column, r[i]) <= ColumnValue(column, r[j])
          else ColumnValue(column, r[i]) >= ColumnValue(column, r[j])
      {
        assert key(r[i]) <= key(r[j]);
      }
    }
  }

  /** Whatever order the engine gives equal values, the column's values read in the
      same order: two orderings of the same records by a known column show the same
      sequence of values. */
  lemma SortedValuesDetermined(a: seq<Transaction>, b: seq<Transaction>, column: string, dir: Direction)
    requires multiset(a) == multiset(b)
    requires OrderedBy(a, column, dir) && OrderedBy(b, column, dir)
    ensures MapSeq(KeyFor(column, dir), a) == MapSeq(KeyFor(column, dir), b)
  {
    var key := KeyFor(column, dir);
    assert SortedBy(a, key) by {
      forall i, j | 0 <= i < j < |a|
        ensures key(a[i]) <= key(a[j])
      {
        assert if dir == Asc then ColumnValue(column, a[i]) <= ColumnValue(column, a[j])
          else ColumnValue(column, a[i]) >= ColumnValue(column, a[j]);
      }
    }
    assert SortedBy(b, key) by {
      forall i, j | 0 <= i < j < |b|
        ensures key(b[i]) <= key(b[j])
      {
        assert if dir == Asc then ColumnValue(column, b[i]) <= ColumnValue(column, b[j])
          else ColumnValue(column, b[i]) >= ColumnValue(column, b[j]);
      }
    }
    SortedByKeys(a, key);
    SortedByKeys(b, key);
    MapMultiset(key, a, b);
    SortedUnique(MapSeq(key, a), MapSeq(key, b));
  }

  // ---------------------------------------------------------------------------
  // Timeframe filter

  /** The local date and time `new Date()` returns: year, month index 0..11, day of the
      month and milliseconds since midnight. */
  datatype Clock = Clock(year: int, monthIndex: int, date: int, msOfDay: nat)

  const MsPerDay: int := 86400000

  /** The day of `cutoffDate` after `setMonth` or `setFullYear`; the time of day stays
      the current one. `None` for 'ALL' and every unrecognised timeframe. */
  function CutoffDay(timeframe: string, now: Clock): Option<int> {
    match timeframe
    case "1M" => Some(MakeDay(now.year, now.monthIndex - 1, now.date))
    case "3M" => Some(MakeDay(now.year, now.monthIndex - 3, now.date))
    case "6M" => Some(MakeDay(now.year, now.monthIndex - 6, now.date))
    case "1Y" => Some(MakeDay(now.year - 1, now.monthIndex, now.date))
    case _ => None
  }

  /** `setFullYear(year - 1)` lands on the day `setMonth(month - 12)` would. */
  lemma YearCutoffIsTwelveMonths(now: Clock)
    ensures CutoffDay("1Y", now) == Some(MakeDay(now.year, now.monthIndex - 12, now.date))
  {
    MakeDayCarry(now.year - 1, now.monthIndex - 12, now.date);
  }

  /** `new Date(tx.date) >= cutoffDate`: the record's date, at midnight, is not before
      the cutoff instant (the offset between local time and UTC is not modelled). */
  function OnOrAfter(cutoff: int, msOfDay: nat): Transaction -> bool {
    (t: Transaction) => t.date * MsPerDay >= cutoff * MsPerDay + msOfDay
  }

  /** `filterTransactionsByTimeframe(transactions, timeframe)`. */
  function FilterByTimeframe(txs: seq<Transaction>, timeframe: string, now: Clock): seq<Transaction> {
    match CutoffDay(timeframe, now)
    case None => txs
    case Some(cutoff) => Filter(OnOrAfter(cutoff, now.msOfDay), txs)
  }

  /** 'ALL', like every timeframe the switch does not know, returns the list itself. */
  lemma TimeframeAll(txs: seq<Transaction>, timeframe: string, now: Clock)
    requires timeframe !in {"1M", "3M", "6M", "1Y"}
    ensures FilterByTimeframe(txs, timeframe, now) == txs
  {
  }

  /** For a known timeframe the result keeps the input's order and holds exactly the
      records dated on or after the cutoff day; a record dated on the cutoff day itself
      counts only at midnight, since the cutoff keeps the current time of day. */
  lemma TimeframeKnown(txs: seq<Transaction>, timeframe: string, now: Clock, t: Transaction)
    requires timeframe in {"1M", "3M", "6M", "1Y"}
    requires now.msOfDay < MsPerDay
    ensures CutoffDay(timeframe, now).Some?
    ensures SubsequenceOf(FilterByTimeframe(txs, timeframe, now), txs)
    ensures var cutoff := CutoffDay(timeframe, now).value;
      t in FilterByTimeframe(txs, timeframe, now) <==>
        t in txs && (t.date > cutoff || (t.date == cutoff && now.msOfDay == 0))
  {
    var cutoff := CutoffDay(timeframe, now).value;
    var p := OnOrAfter(cutoff, now.msOfDay);
    FilterIsSubsequence(p, txs);
    FilterMembership(p, txs, t);
    OnOrAfterDays(cutoff, now.msOfDay, t.date);
  }

  lemma OnOrAfterDays(cutoff: int, ms: nat, day: int)
    requires ms < MsPerDay
    ensures day * MsPerDay >= cutoff * MsPerDay + ms <==> day > cutoff || (day == cutoff && ms == 0)
  {
    if day > cutoff {
      assert day * MsPerDay >= (cutoff + 1) * MsPerDay;
    } else if day < cutoff {
      assert day * MsPerDay <= (cutoff - 1) * MsPerDay;
    }
  }

  // ---------------------------------------------------------------------------
  // Prices and currencies

  /** `this.prices[key]`: `undefined` for a currency the table does not hold. */
  function Lookup(prices: map<string, JsNum>, key: string): JsNum {
    if key in prices then prices[key] else Undefined
  }

  /** `audPrice ? (this.prices[this.selectedCurrency] / audPrice) : 1`: a zero or
      missing Australian price leaves figures unconverted. */
  function PriceRatio(prices: map<string, JsNum>, selected: string): (r: JsNum)
    ensures !Truthy(Lookup(prices, "AUD")) ==> r == Num(1.0)
    ensures Lookup(prices, "AUD").Num? && Lookup(prices, "AUD").v != 0.0 && Lookup(prices, selected).Num? ==>
      r.Num? && r.v * Lookup(prices, "AUD").v == Lookup(prices, selected).v
  {
    var aud := Lookup(prices, "AUD");
    if Truthy(aud) then Div(Lookup(prices, selected), aud) else Num(1.0)
  }

  /** With Australian dollars selected the ratio is 1 whenever the price is a number. */
  lemma AudRatioIsOne(prices: map<string, JsNum>)
    requires Lookup(prices, "AUD").Num?
    ensures PriceRatio(prices, "AUD") == Num(1.0)
  {
  }

  /** `localStorage.getItem('selectedCurrency') || 'AUD'`: no stored value, or an empty
      one, falls back to Australian dollars. */
  function StoredOrDefault(stored: Option<string>): (code: string)
    ensures code != ""
    ensures stored.Some? && stored.value != "" ==> code == stored.value
  {
    if stored.Some? && stored.value != "" then stored.value else "AUD"
  }

  /** The locale `updatePriceDisplay` formats the price with; it is the same table as
      `formatCurrency`'s. */
  function PriceLocale(selected: string): (locale: string)
    ensures locale == LocaleFor(CurrencyCode(selected))
  {
    var code := if selected != "" then selected else "AUD";
    if code == "USD" then "en-US"
    else if code == "EUR" then "de-DE"
    else if code == "GBP" then "en-GB"
    else "en-AU"
  }

  // ---------------------------------------------------------------------------
  // Portfolio figures

  /** `((currentValue - base) / base) * 100`, with no guard: over a zero base it is
      never a number, and over a positive base it is not negative exactly when the
      value is at least the base. */
  function Percent(currentValue: JsNum, base: JsNum): (pnl: JsNum)
    ensures base == Num(0.0) ==> !pnl.Num?
    ensures base.Num? && base.v > 0.0 && currentValue.Num? ==>
      pnl.Num? && (pnl.v >= 0.0 <==> currentValue.v >= base.v)
  {
    PercentFacts(currentValue, base);
    PercentOfZero(currentValue, base);
    Mul(Div(Sub(currentValue, base), base), Num(100.0))
  }

  lemma PercentOfZero(currentValue: JsNum, base: JsNum)
    ensures base == Num(0.0) ==> !Mul(Div(Sub(currentValue, base), base), Num(100.0)).Num?
  {
    if base == Num(0.0) {
      var q := Div(Sub(currentValue, base), base);
      assert !q.Num?;
    }
  }

  lemma PercentFacts(currentValue: JsNum, base: JsNum)
    ensures base.Num? && base.v > 0.0 && currentValue.Num? ==>
      var pnl := Mul(Div(Sub(currentValue, base), base), Num(100.0));
      pnl.Num? && (pnl.v >= 0.0 <==> currentValue.v >= base.v)
  {
    if base.Num? && base.v > 0.0 && currentValue.Num? {
      PercentSign(currentValue.v, base.v);
    }
  }

  /** The percentage `updatePortfolioValue` shows: the invested Australian dollars are
      converted with the price ratio, and a converted amount of 0 gives 0 instead of
      dividing. */
  function GuardedPnl(currentValue: JsNum, investedAud: real, ratio: JsNum): (pnl: JsNum)
    ensures Mul(Num(investedAud), ratio) == Num(0.0) ==> pnl == Num(0.0)
    ensures ratio.Num? && investedAud * ratio.v > 0.0 && currentValue.Num? ==>
      pnl.Num? && (pnl.v >= 0.0 <==> currentValue.v >= investedAud * ratio.v)
  {
    var investedConverted := Mul(Num(investedAud), ratio);
    if investedConverted != Num(0.0) then Percent(currentValue, investedConverted) else Num(0.0)
  }

  /** Where something was invested and no conversion applies, the guarded and the
      unguarded percentages agree; they differ only where the unguarded one divides by
      zero. */
  lemma GuardAgreesWhenInvested(currentValue: JsNum, invested: real)
    ensures invested != 0.0 ==> GuardedPnl(currentValue, invested, Num(1.0)) == Percent(currentValue, Num(invested))
    ensures invested == 0.0 ==> GuardedPnl(currentValue, invested, Num(1.0)) == Num(0.0) && !Percent(currentValue, Num(invested)).Num?
  {
  }

  /** `calculatePortfolioData()` for the global records and the current price: the
      totals are the sums of the records' bitcoin and amounts, the count is their number,
      and the streak and drawdown start at 0. */
  function PortfolioOf(txs: seq<Transaction>, price: JsNum): (p: PortfolioData)
    ensures p.totalBtc == TotalBtc(txs) && p.totalInvested == TotalAmount(txs)
    ensures p.totalTransactions == |txs|
    ensures p.longestStreak == 0 && p.maxDrawdown == 0.0
    ensures p.currentValue == Mul(Num(TotalBtc(txs)), price)
    ensures p.unrealizedPnl == Percent(p.currentValue, Num(p.totalInvested))
  {
    var totalBtc := SumOf(txs, Btc);
    var totalInvested := SumOf(txs, Amount);
    var currentValue := Mul(Num(totalBtc), price);
    PortfolioData(totalBtc, totalInvested, currentValue,
      Percent(currentValue, Num(totalInvested)), |txs|, 0, 0.0)
  }

  /** The portfolio figures do not depend on the order of the records, so sorting the
      table never changes them. */
  lemma PortfolioOrderIndependent(a: seq<Transaction>, b: seq<Transaction>, price: JsNum)
    requires multiset(a) == multiset(b)
    ensures PortfolioOf(a, price) == PortfolioOf(b, price)
  {
    SumPermutation(a, b, Btc);
    SumPermutation(a, b, Amount);
    assert |a| == |multiset(a)| == |b|;
  }

  /** With no records the percentage is NaN: 0 / 0. */
  lemma EmptyPortfolio(price: JsNum)
    ensures PortfolioOf([], price).totalInvested == 0.0 && PortfolioOf([], price).unrealizedPnl == NaN
  {
    assert TotalBtc([]) == 0.0 && TotalAmount([]) == 0.0;
    NothingHeldIsNaN(price);
  }

  /** Zero bitcoin at any price, against nothing invested, is 0 / 0. */
  lemma NothingHeldIsNaN(price: JsNum)
    ensures Percent(Mul(Num(0.0), price), Num(0.0)) == NaN
  {
    var value := Mul(Num(0.0), price);
    assert value == Num(0.0) || value == NaN;
    var diff := Sub(value, Num(0.0));
    assert diff == Num(0.0) || diff == NaN;
    assert Div(diff, Num(0.0)) == NaN;
    assert Mul(NaN, Num(100.0)) == NaN;
  }

  /** What `this.portfolioData` holds: `{}` at first, only the value and percentage if
      `updatePortfolioValue` wrote them into the empty object, or every figure. */
  datatype PortfolioState =
    | Unset
    | ValueOnly(currentValue: JsNum, unrealizedPnl: JsNum)
    | Full(data: PortfolioData)

  /** The two assignments at the end of `updatePortfolioValue`. */
  function WithValue(p: PortfolioState, currentValue: JsNum, pnl: JsNum): (r: PortfolioState)
    ensures p.Full? ==> r.Full? && r.data.currentValue == currentValue && r.data.unrealizedPnl == pnl
    ensures p.Full? ==> (r.data.totalBtc == p.data.totalBtc && r.data.totalInvested == p.data.totalInvested
      && r.data.totalTransactions == p.data.totalTransactions && r.data.longestStreak == p.data.longestStreak
      && r.data.maxDrawdown == p.data.maxDrawdown)
    ensures !p.Full? ==> r == ValueOnly(currentValue, pnl)
  {
    match p
    case Full(d) => Full(d.(currentValue := currentValue, unrealizedPnl := pnl))
    case _ => ValueOnly(currentValue, pnl)
  }

  class BitcoinDadLedger {
    var currentBTCPrice: JsNum
    var sortDirection: map<string, Direction>
    var currentTimeframe: string
    var portfolioData: PortfolioState
    var selectedCurrency: string
    var prices: map<string, JsNum>
    var priceRatio: JsNum
    var metrics: Option<Metrics>
    /** `window.dcaTransactions`, the records the ledger shows and sorts. */
    var transactions: seq<Transaction>

    /** The constructor's assignments (`init`, which it starts, is the sequence of the
        methods below). */
    constructor(txs: seq<Transaction>)
      ensures currentBTCPrice == Num(0.0) && sortDirection == map[] && currentTimeframe == "ALL"
      ensures portfolioData == Unset && selectedCurrency == "AUD" && prices == map[]
      ensures priceRatio == Num(1.0) && metrics == None && transactions == txs
    {
      currentBTCPrice := Num(0.0);
      sortDirection := map[];
      currentTimeframe := "ALL";
      portfolioData := Unset;
      selectedCurrency := "AUD";
      prices := map[];
      priceRatio := Num(1.0);
      metrics := None;
      transactions := txs;
    }

    /** `sortTable(column)`: flips the column's direction and sorts the records in place
        by it. */
    method SortTable(column: string)
      modifies this
      ensures sortDirection == old(sortDirection)[column := NextDirection(old(sortDirection), column)]
      ensures multiset(transactions) == multiset(old(transactions))
      ensures KnownColumn(column) ==> OrderedBy(transactions, column, sortDirection[column])
      ensures !KnownColumn(column) ==> transactions == old(transactions)
      ensures unchanged(this`currentBTCPrice, this`currentTimeframe, this`portfolioData)
      ensures unchanged(this`selectedCurrency, this`prices, this`priceRatio, this`metrics)
    {
      var newDirection := NextDirection(sortDirection, column);
      sortDirection := sortDirection[column := newDirection];
      SortedTransactionsSpec(transactions, column, newDirection);
      transactions := SortedTransactions(transactions, column, newDirection);
    }

    /** `updateMetrics()`: the metrics of the records, kept for the portfolio value. */
    method UpdateMetrics()
      modifies this
      ensures metrics == Some(CalculateMetrics(transactions))
      ensures unchanged(this`transactions, this`currentBTCPrice, this`sortDirection, this`currentTimeframe)
      ensures unchanged(this`portfolioData, this`selectedCurrency, this`prices, this`priceRatio)
    {
      metrics := Some(CalculateMetrics(transactions));
    }

    /** `calculatePortfolioData()`. */
    method CalculatePortfolioData()
      modifies this
      ensures portfolioData == Full(PortfolioOf(transactions, currentBTCPrice))
      ensures unchanged(this`transactions, this`currentBTCPrice, this`sortDirection, this`currentTimeframe)
      ensures unchanged(this`selectedCurrency, this`prices, this`priceRatio, this`metrics)
    {
      portfolioData := Full(PortfolioOf(transactions, currentBTCPrice));
    }

    /** `updatePortfolioValue()`: with a truthy price and stored metrics, the value of the
        bitcoin held at the current price and the guarded percentage are written into
        `portfolioData`; otherwise nothing happens. */
    method UpdatePortfolioValue()
      modifies this
      ensures Truthy(old(currentBTCPrice)) && old(metrics).Some? ==>
        var m := old(metrics).value;
        var value := Mul(Num(m.totalBTC), old(currentBTCPrice));
        portfolioData == WithValue(old(portfolioData), value, GuardedPnl(value, m.totalInvested, old(priceRatio)))
      ensures !(Truthy(old(currentBTCPrice)) && old(metrics).Some?) ==> portfolioData == old(portfolioData)
      ensures unchanged(this`transactions, this`currentBTCPrice, this`sortDirection, this`currentTimeframe)
      ensures unchanged(this`selectedCurrency, this`prices, this`priceRatio, this`metrics)
    {
      if Truthy(currentBTCPrice) && metrics.Some? {
        var currentValue := Mul(Num(metrics.value.totalBTC), currentBTCPrice);
        var investedAud := metrics.value.totalInvested;
        var unrealizedPnl := GuardedPnl(currentValue, investedAud, priceRatio);
        portfolioData := WithValue(portfolioData, currentValue, unrealizedPnl);
      }
    }

    /** The part of `loadBTCPrice()` after the response arrives: the four fetched prices
        (`Undefined` where the response lacks one) become the price table, an unset
        currency is taken from storage, and the ratio and current price follow the
        selected currency before the portfolio value is refreshed. */
    method LoadBTCPrice(aud: JsNum, usd: JsNum, eur: JsNum, gbp: JsNum, stored: Option<string>)
      modifies this
      ensures prices == map["AUD" := aud, "USD" := usd, "EUR" := eur, "GBP" := gbp]
      ensures selectedCurrency == if old(selectedCurrency) != "" then old(selectedCurrency) else StoredOrDefault(stored)
      ensures priceRatio == PriceRatio(prices, selectedCurrency)
      ensures currentBTCPrice == Lookup(prices, selectedCurrency)
      ensures Truthy(currentBTCPrice) && metrics.Some? ==>
        var value := Mul(Num(metrics.value.totalBTC), currentBTCPrice);
        portfolioData == WithValue(old(portfolioData), value, GuardedPnl(value, metrics.value.totalInvested, priceRatio))
      ensures !(Truthy(currentBTCPrice) && metrics.Some?) ==> portfolioData == old(portfolioData)
      ensures unchanged(this`transactions, this`metrics, this`sortDirection, this`currentTimeframe)
    {
      prices := map["AUD" := aud, "USD" := usd, "EUR" := eur, "GBP" := gbp];
      if selectedCurrency == "" {
        selectedCurrency := StoredOrDefault(stored);
      }
      priceRatio := PriceRatio(prices, selectedCurrency);
      currentBTCPrice := Lookup(prices, selectedCurrency);
      UpdatePortfolioValue();
    }
  }
}
