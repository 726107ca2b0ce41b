/** The bundled purchase history (Swyftx and Bitaroo records), its combination into
    one list newest first, the summary metrics, and the currency-to-locale choice used
    when formatting amounts. Dates are day numbers: day 0 is 1970-01-01, so
    '2025-08-13' is day 20313. */
module Data {
  import opened JsValues
  import opened Seqs
  import opened Sorting
  import opened Txn

  /** The Swyftx records, in the order they are listed. */
  const SwyftxData: seq<Transaction> := [
    Transaction(20313, "13/08/2025", 200.0, 0.0010814, 185834.0, "PROCESSED", "Swyftx", "SWY-001"),
    Transaction(20306, "06/08/2025", 100.0, 0.0005668, 175370.05, "PROCESSED", "Swyftx", "SWY-002"),
    Transaction(20300, "31/07/2025", 200.0, 0.0010737, 184524.26, "PROCESSED", "Swyftx", "SWY-003"),
    Transaction(20299, "30/07/2025", 50.0, 0.0002723, 183005.05, "PROCESSED", "Swyftx", "SWY-004"),
    Transaction(20296, "27/07/2025", 100.0, 0.0005533, 180619.55, "PROCESSED", "Swyftx", "SWY-005"),
    Transaction(20292, "23/07/2025", 50.0, 0.0002045, 185779.326, "PROCESSED", "Swyftx", "SWY-006"),
    Transaction(20289, "20/07/2025", 100.0, 0.0005456, 181764.79, "PROCESSED", "Swyftx", "SWY-007"),
    Transaction(20288, "19/07/2025", 100.0, 0.0005403, 182041.205, "PROCESSED", "Swyftx", "SWY-008"),
    Transaction(20287, "18/07/2025", 100.0, 0.0005619, 177360.14, "PROCESSED", "Swyftx", "SWY-009"),
    Transaction(20286, "17/07/2025", 49.1, 0.0002537, 165066.085, "PROCESSED", "Swyftx", "SWY-010"),
    Transaction(20285, "16/07/2025", 100.0, 0.0005313, 184800.04, "PROCESSED", "Swyftx", "SWY-011"),
    Transaction(20284, "15/07/2025", 50.0, 0.0003026, 162278.846, "PROCESSED", "Swyftx", "SWY-012"),
    Transaction(20282, "13/07/2025", 50.0, 0.0003079, 161368.817, "PROCESSED", "Swyftx", "SWY-013"),
    Transaction(20280, "11/07/2025", 200.0, 0.0011589, 173489.526, "PROCESSED", "Swyftx", "SWY-014"),
    Transaction(20279, "10/07/2025", 200.0, 0.0011449, 173568.955, "PROCESSED", "Swyftx", "SWY-015"),
    Transaction(20279, "10/07/2025", 200.0, 0.0011811, 168287.91, "PROCESSED", "Swyftx", "SWY-017"),
    Transaction(20272, "03/07/2025", 50.0, 0.0003042, 165433.229, "PROCESSED", "Swyftx", "SWY-018"),
    Transaction(20272, "03/07/2025", 50.0, 0.0002959, 167930.626, "PROCESSED", "Swyftx", "SWY-019"),
    Transaction(20267, "28/06/2025", 50.0, 0.0002242, 159939.936, "PROCESSED", "Swyftx", "SWY-020"),
    Transaction(20261, "22/06/2025", 100.0, 0.0005739, 163297.022, "PROCESSED", "Swyftx", "SWY-021"),
    Transaction(20260, "21/06/2025", 100.0, 0.0006104, 162297.685, "PROCESSED", "Swyftx", "SWY-022"),
    Transaction(20256, "17/06/2025", 50.0, 0.0002537, 165066.085, "PROCESSED", "Swyftx", "SWY-023"),
    Transaction(20254, "15/06/2025", 50.0, 0.0003026, 162278.846, "PROCESSED", "Swyftx", "SWY-024"),
    Transaction(20236, "28/05/2025", 50.0, 0.0002242, 159939.936, "PROCESSED", "Swyftx", "SWY-025"),
    Transaction(20223, "15/05/2025", 100.0, 0.0006102, 161358.021, "PROCESSED", "Swyftx", "SWY-026"),
    Transaction(20230, "22/05/2025", 100.0, 0.0005739, 169223.46, "PROCESSED", "Swyftx", "SWY-027"),
    Transaction(20215, "07/05/2025", 100.0, 0.0006466, 149549.073, "PROCESSED", "Swyftx", "SWY-028"),
    Transaction(20204, "26/04/2025", 50.0, 0.0003303, 149235.744, "PROCESSED", "Swyftx", "SWY-029"),
    Transaction(20195, "17/04/2025", 50.0, 0.0003241, 149515.268, "PROCESSED", "Swyftx", "SWY-030"),
    Transaction(20180, "02/04/2025", 50.0, 0.0003623, 162297.685, "PROCESSED", "Swyftx", "SWY-031"),
    Transaction(20178, "31/03/2025", 50.0, 0.0003358, 129985.387, "PROCESSED", "Swyftx", "SWY-032")
  ]
  /** The Bitaroo records, in the order they are listed. */
  const BitarooData: seq<Transaction> := [
    Transaction(20161, "14/03/2025 0:01", 48.05, 0.00035737, 134454.0, "PROCESSED", "Bitaroo", "BIT-001"),
    Transaction(20151, "04/03/2025 22:56", 98.05, 0.00071288, 137540.0, "PROCESSED", "Bitaroo", "BIT-002"),
    Transaction(20149, "02/03/2025 4:48", 98.05, 0.00070195, 139681.0, "PROCESSED", "Bitaroo", "BIT-003"),
    Transaction(20146, "27/02/2025 13:36", 48.05, 0.00035036, 137143.0, "PROCESSED", "Bitaroo", "BIT-004"),
    Transaction(20139, "20/02/2025 6:31", 48.05, 0.00031378, 153130.0, "PROCESSED", "Bitaroo", "BIT-005"),
    Transaction(20133, "14/02/2025 3:38", 48.05, 0.00031168, 154162.0, "PROCESSED", "Bitaroo", "BIT-006"),
    Transaction(20130, "11/02/2025 4:37", 48.05, 0.0003059, 157073.0, "PROCESSED", "Bitaroo", "BIT-007"),
    Transaction(20124, "05/02/2025 23:08", 48.05, 0.00030195, 159131.0, "PROCESSED", "Bitaroo", "BIT-008"),
    Transaction(20120, "01/02/2025 17:12", 48.05, 0.00028668, 167604.0, "PROCESSED", "Bitaroo", "BIT-009"),
    Transaction(20110, "22/01/2025 14:00", 48.05, 0.00028057, 171255.0, "PROCESSED", "Bitaroo", "BIT-010"),
    Transaction(20109, "21/01/2025 13:13", 98.05, 0.00059011, 166154.0, "PROCESSED", "Bitaroo", "BIT-011"),
    Transaction(20104, "16/01/2025 3:09", 48.05, 0.00029708, 161736.0, "PROCESSED", "Bitaroo", "BIT-012"),
    Transaction(20098, "10/01/2025 18:29", 48.05, 0.00030994, 155027.0, "PROCESSED", "Bitaroo", "BIT-013"),
    Transaction(20089, "01/01/2025 3:45", 48.05, 0.00030663, 156703.0, "PROCESSED", "Bitaroo", "BIT-014"),
    Transaction(20083, "26/12/2024 2:44", 48.05, 0.00029837, 161040.0, "PROCESSED", "Bitaroo", "BIT-015"),
    Transaction(20079, "22/12/2024 15:39", 48.05, 0.00030528, 157392.0, "PROCESSED", "Bitaroo", "BIT-016"),
    Transaction(20054, "27/11/2024 23:54", 98.05, 0.00067091, 146143.0, "PROCESSED", "Bitaroo", "BIT-017"),
    Transaction(20050, "23/11/2024 17:29", 98.05, 0.00064041, 153105.0, "PROCESSED", "Bitaroo", "BIT-018")
  ]

  /** The sort key of `(a, b) => new Date(b.date) - new Date(a.date)`: later dates first. */
  function NewestFirstKey(t: Transaction): real { -(t.date as real) }

  /** `[...a, ...b].sort((x, y) => new Date(y.date) - new Date(x.date))`. The comparator
      is consistent and returns 0 on equal dates, and the sort is stable, so records
      with the same date keep their listed order. */
  function Combine(a: seq<Transaction>, b: seq<Transaction>): seq<Transaction> {
    SortBy(a + b, NewestFirstKey)
  }

  /** The combined list holds exactly the records of both lists, newest first. */
  lemma CombineNewestFirst(a: seq<Transaction>, b: seq<Transaction>)
    ensures |Combine(a, b)| == |a| + |b|
    ensures multiset(Combine(a, b)) == multiset(a) + multiset(b)
    ensures forall i, j :: 0 <= i < j < |Combine(a, b)| ==> Combine(a, b)[i].date >= Combine(a, b)[j].date
  {
    var r := Combine(a, b);
    forall i, j | 0 <= i < j < |r|
      ensures r[i].date >= r[j].date
    {
      assert NewestFirstKey(r[i]) <= NewestFirstKey(r[j]);
    }
  }

  /** `allTransactions`. */
  function AllTransactions(): seq<Transaction> {
    Combine(SwyftxData, BitarooData)
  }

  predicate PositivePurchase(t: Transaction) {
    t.amount > 0.0 && t.btcReceived > 0.0
  }

  /** Every bundled record spent a positive amount and received a positive amount of
      bitcoin. */
  lemma SwyftxPositive()
    ensures |SwyftxData| == 31
    ensures forall i :: 0 <= i < |SwyftxData| ==> PositivePurchase(SwyftxData[i])
  {
  }

  lemma BitarooPositive()
    ensures |BitarooData| == 18
    ensures forall i :: 0 <= i < |BitarooData| ==> PositivePurchase(BitarooData[i])
  {
  }

  /** `calculateMetrics(transactions)`, with the numbers before `toFixed` turns them
      into text. The date range it reports is a constant and is not modelled. */
  datatype Metrics = Metrics(totalInvested: real, totalBTC: real, avgCostBasis: JsNum, transactionCount: nat)

  /** The cost basis `totalInvested / totalBTC` is unguarded: with no bitcoin it is not a
      number (NaN or an infinity). */
  function CalculateMetrics(txs: seq<Transaction>): (m: Metrics)
    ensures m.transactionCount == |txs|
    ensures m.totalBTC != 0.0 ==> m.avgCostBasis.Num? && m.avgCostBasis.v * m.totalBTC == m.totalInvested
    ensures m.totalBTC == 0.0 ==> !m.avgCostBasis.Num?
  {
    var totalInvested := TotalAmount(txs);
    var totalBTC := TotalBtc(txs);
    Metrics(totalInvested, totalBTC, Div(Num(totalInvested), Num(totalBTC)), |txs|)
  }

  /** The metrics do not depend on the order of the records. */
  lemma MetricsOrderIndependent(a: seq<Transaction>, b: seq<Transaction>)
    requires multiset(a) == multiset(b)
    ensures CalculateMetrics(a) == CalculateMetrics(b)
  {
    SumPermutation(a, b, Amount);
    SumPermutation(a, b, Btc);
    assert |a| == |multiset(a)| == |b|;
  }

  /** Over purchases that all spent and received something, the totals are positive
      and the cost basis is a positive number. */
  lemma MetricsOfPositive(txs: seq<Transaction>)
    requires txs != []
    requires forall i :: 0 <= i < |txs| ==> PositivePurchase(txs[i])
    ensures CalculateMetrics(txs).totalInvested > 0.0 && CalculateMetrics(txs).totalBTC > 0.0
    ensures CalculateMetrics(txs).avgCostBasis.Num? && CalculateMetrics(txs).avgCostBasis.v > 0.0
  {
    SumPositive(txs, Amount);
    SumPositive(txs, Btc);
  }

  lemma {:induction false} SumPositive(txs: seq<Transaction>, f: Transaction -> real)
    requires txs != []
    requires forall i :: 0 <= i < |txs| ==> f(txs[i]) > 0.0
    ensures SumOf(txs, f) > 0.0
  {
    var init := txs[..|txs| - 1];
    if init != [] {
      SumPositive(init, f);
    }
  }

  /** Combining two lists of positive purchases, at least one of them non-empty, gives
      the totals of both lists added and a cost basis that is a positive number. */
  lemma CombinedMetrics(a: seq<Transaction>, b: seq<Transaction>)
    requires a + b != []
    requires forall i :: 0 <= i < |a| ==> PositivePurchase(a[i])
    requires forall i :: 0 <= i < |b| ==> PositivePurchase(b[i])
    ensures CalculateMetrics(Combine(a, b)).transactionCount == |a| + |b|
    ensures CalculateMetrics(Combine(a, b)).totalInvested == TotalAmount(a) + TotalAmount(b)
    ensures CalculateMetrics(Combine(a, b)).totalBTC == TotalBtc(a) + TotalBtc(b)
    ensures CalculateMetrics(Combine(a, b)).avgCostBasis.Num? && CalculateMetrics(Combine(a, b)).avgCostBasis.v > 0.0
  {
    var all := a + b;
    MetricsOrderIndependent(Combine(a, b), all);
    SumConcat(a, b, Amount);
    SumConcat(a, b, Btc);
    forall i | 0 <= i < |all|
      ensures PositivePurchase(all[i])
    {
      if i >= |a| {
        assert all[i] == b[i - |a|];
      }
    }
    MetricsOfPositive(all);
  }

  /** The bundled list: 49 records, newest first, with a positive cost basis. */
  lemma BundledMetrics()
    ensures CalculateMetrics(AllTransactions()).transactionCount == 49
    ensures CalculateMetrics(AllTransactions()).avgCostBasis.Num? && CalculateMetrics(AllTransactions()).avgCostBasis.v > 0.0
  {
    SwyftxPositive();
    BitarooPositive();
    CombinedMetrics(SwyftxData, BitarooData);
  }

  /** `window.selectedCurrency || 'AUD'`. */
  function CurrencyCode(selected: string): (code: string)
    ensures code != ""
    ensures selected != "" ==> code == selected
  {
    if selected == "" then "AUD" else selected
  }

  /** The locale `formatCurrency` formats with. */
  function LocaleFor(code: string): string {
    match code
    case "USD" => "en-US"
    case "EUR" => "de-DE"
    case "GBP" => "en-GB"
    case _ => "en-AU"
  }

  /** USD, EUR and GBP get their own locales; every other code, AUD included, and an
      unset currency format as Australian. */
  lemma LocaleTable(selected: string)
    ensures LocaleFor(CurrencyCode(selected)) == "en-US" <==> selected == "USD"
    ensures LocaleFor(CurrencyCode(selected)) == "de-DE" <==> selected == "EUR"
    ensures LocaleFor(CurrencyCode(selected)) == "en-GB" <==> selected == "GBP"
    ensures LocaleFor(CurrencyCode(selected)) == "en-AU" <==> selected !in {"USD", "EUR", "GBP"}
  {
  }
}
