/** The web app (webapp/src/App.jsx): the purchase form's submit handler, as an update of
    the purchase list, the user's running totals and the form, and the widths of the
    two achievement progress bars. */
module WebApp {
  import opened JsValues
  import opened Seqs
  import opened Txn

  datatype Currency = USD | EUR | GBP | AUD

  /** The `bitcoinPrice` state: the fallback prices `loadBitcoinPrice` sets. */
  function BitcoinPrice(c: Currency): (p: real)
    ensures p > 0.0
  {
    match c
    case USD => 57000.0
    case EUR => 52000.0
    case GBP => 45000.0
    case AUD => 85500.0
  }

  /** `{ id, amount_fiat, currency, bitcoin_price, bitcoin_amount, purchase_date }`. */
  datatype Purchase = Purchase(
    id: int,
    amountFiat: real,
    currency: Currency,
    bitcoinPrice: real,
    bitcoinAmount: real,
    purchaseDate: string)

  function Fiat(p: Purchase): real { p.amountFiat }

  function Bitcoin(p: Purchase): real { p.bitcoinAmount }

  function PurchaseId(p: Purchase): int { p.id }

  /** The `userData` record. */
  datatype UserData = UserData(
    username: string,
    name: string,
    email: string,
    preferredCurrency: string,
    totalInvested: real,
    totalBitcoin: real,
    averagePrice: JsNum,
    currentStreakWeeks: int,
    maxStreakWeeks: int,
    purchaseCount: int,
    firstPurchaseDate: string,
    lastPurchaseDate: string)

  /** `{ amount, currency, date }`: the amount and date are the fields' texts. */
  datatype PurchaseForm = PurchaseForm(amount: string, currency: Currency, date: string)

  /** `(total_invested) / (total_bitcoin)`, unguarded: a number that gives back the total
      when multiplied by the holdings, unless nothing is held. */
  function AveragePrice(invested: real, bitcoin: real): (r: JsNum)
    ensures bitcoin != 0.0 ==> r.Num? && r.v * bitcoin == invested
    ensures bitcoin == 0.0 ==> !r.Num?
  {
    Div(Num(invested), Num(bitcoin))
  }

  /** Every id is between 1 and the number of purchases, and no two are equal. */
  predicate IdsInRange(ps: seq<Purchase>) {
    NoDup(MapSeq(PurchaseId, ps)) && forall i :: 0 <= i < |ps| ==> 1 <= ps[i].id <= |ps|
  }

  /** Putting a purchase with the next id in front keeps the ids distinct and in range. */
  lemma PrependKeepsIds(ps: seq<Purchase>, p: Purchase)
    requires IdsInRange(ps) && p.id == |ps| + 1
    ensures IdsInRange([p] + ps)
  {
    var ids, ids' := MapSeq(PurchaseId, ps), MapSeq(PurchaseId, [p] + ps);
    forall i, j | 0 <= i < j < |ids'|
      ensures ids'[i] != ids'[j]
    {
      if i > 0 {
        assert ids'[i] == ids[i - 1] && ids'[j] == ids[j - 1];
      }
    }
  }

  /** `total_invested` grows by the amount exactly as the sum over the purchases does, so
      the gap between the two (the demo user's history before the listed purchases) is
      kept. */
  lemma SumAfterPrepend(ps: seq<Purchase>, p: Purchase, f: Purchase -> real)
    ensures SumOf([p] + ps, f) == f(p) + SumOf(ps, f)
  {
    SumConcat([p], ps, f);
    assert [p][..0] == [];
  }

  /** The width of a progress bar: `Math.min(x, 100)` percent, so never past 100, and at
      100 exactly when the target is reached. */
  function ProgressWidth(current: real, target: real): (w: real)
    requires target > 0.0
    ensures w <= 100.0
    ensures w == 100.0 <==> current >= target
    ensures current >= 0.0 ==> w >= 0.0
  {
    var x := current / target * 100.0;
    assert x >= 100.0 <==> current >= target by {
      assert x == 100.0 * (current / target);
    }
    Min100(x)
  }

  /** The 'Rocket Fuel' bar: weeks of the current streak out of 52. */
  function RocketFuelWidth(u: UserData): (w: real)
    ensures w <= 100.0 && (w == 100.0 <==> u.currentStreakWeeks >= 52)
  {
    ProgressWidth(u.currentStreakWeeks as real, 52.0)
  }

  /** The 'Bitcoin Whale' bar: bitcoin held out of 1. */
  function WhaleWidth(u: UserData): (w: real)
    ensures w <= 100.0 && (w == 100.0 <==> u.totalBitcoin >= 1.0)
  {
    ProgressWidth(u.totalBitcoin, 1.0)
  }

  /** The `newPurchase` record: the next id after `count` purchases, the selected
      currency's price, and the bitcoin that the amount buys at that price. */
  function NewPurchase(form: PurchaseForm, amount: real, count: nat): (p: Purchase)
    ensures p.id == count + 1 && p.amountFiat == amount && p.currency == form.currency
    ensures p.bitcoinPrice == BitcoinPrice(form.currency) && p.purchaseDate == form.date
    ensures p.bitcoinAmount * p.bitcoinPrice == amount
  {
    var price := BitcoinPrice(form.currency);
    Purchase(count + 1, amount, form.currency, price, amount / price, form.date)
  }

  /** The `setUserData` update: the totals and the count grow by the purchase, its date
      becomes the last purchase date, and the average price is the new total over the
      new holdings; every other field is kept. */
  function Credited(u: UserData, p: Purchase): (r: UserData)
    ensures r.totalInvested == u.totalInvested + p.amountFiat
    ensures r.totalBitcoin == u.totalBitcoin + p.bitcoinAmount
    ensures r.purchaseCount == u.purchaseCount + 1 && r.lastPurchaseDate == p.purchaseDate
    ensures r.totalBitcoin != 0.0 ==> r.averagePrice.Num? && r.averagePrice.v * r.totalBitcoin == r.totalInvested
    ensures r.username == u.username && r.name == u.name && r.email == u.email
    ensures r.preferredCurrency == u.preferredCurrency && r.firstPurchaseDate == u.firstPurchaseDate
    ensures r.currentStreakWeeks == u.currentStreakWeeks && r.maxStreakWeeks == u.maxStreakWeeks
  {
    var invested := u.totalInvested + p.amountFiat;
    var bitcoin := u.totalBitcoin + p.bitcoinAmount;
    u.(totalInvested := invested, totalBitcoin := bitcoin, purchaseCount := u.purchaseCount + 1,
       lastPurchaseDate := p.purchaseDate, averagePrice := AveragePrice(invested, bitcoin))
  }

  class BitcoinDadApp {
    var purchases: seq<Purchase>
    var userData: UserData
    var purchaseForm: PurchaseForm

    /** The initial state; the demo user and purchases are passed in. */
    constructor(user: UserData, initial: seq<Purchase>, today: string)
      ensures purchases == initial && userData == user
      ensures purchaseForm == PurchaseForm("", USD, today)
    {
      purchases := initial;
      userData := user;
      purchaseForm := PurchaseForm("", USD, today);
    }

    /** `handleAddPurchase`. `value` is `parseFloat` of the amount field, `today` the
        date the reset form shows. A missing amount or date changes nothing. Otherwise
        the new purchase goes in front, the user is credited with it and the form is
        reset; the gaps between the user's totals and the sums over the listed purchases
        are kept, as is the soundness of the ids. */
    method HandleAddPurchase(value: real, today: string)
      modifies this
      ensures old(purchaseForm.amount) == "" || old(purchaseForm.date) == "" ==>
        purchases == old(purchases) && userData == old(userData) && purchaseForm == old(purchaseForm)
      ensures old(purchaseForm.amount) != "" && old(purchaseForm.date) != "" ==>
        var p := NewPurchase(old(purchaseForm), value, |old(purchases)|);
        purchases == [p] + old(purchases) && userData == Credited(old(userData), p)
        && purchaseForm == PurchaseForm("", USD, today)
      ensures userData.totalInvested - SumOf(purchases, Fiat) == old(userData.totalInvested - SumOf(purchases, Fiat))
      ensures userData.totalBitcoin - SumOf(purchases, Bitcoin) == old(userData.totalBitcoin - SumOf(purchases, Bitcoin))
      ensures userData.purchaseCount - |purchases| == old(userData.purchaseCount - |purchases|)
      ensures IdsInRange(old(purchases)) ==> IdsInRange(purchases)
    {
      if purchaseForm.amount == "" || purchaseForm.date == "" {
        return;
      }
      var newPurchase := NewPurchase(purchaseForm, value, |purchases|);
      SumAfterPrepend(purchases, newPurchase, Fiat);
      SumAfterPrepend(purchases, newPurchase, Bitcoin);
      if IdsInRange(purchases) {
        PrependKeepsIds(purchases, newPurchase);
      }
      purchases := [newPurchase] + purchases;
      userData := Credited(userData, newPurchase);
      purchaseForm := PurchaseForm("", USD, today);
    }
  }
}
