/** The React tracker (src/App.jsx): purchases added from the form, the statistics the
    effect derives from them and the six-entry achievement list it filters. The
    current instant is a parameter; the demo prices are the fixed table the component
    starts from (their random drift is not modelled). */
module ReactApp {
  import opened JsValues
  import opened Seqs
  import opened Txn

  datatype Currency = AUD | USD | EUR | GBP

  /** `mockBitcoinPrice[currency]`. */
  function MockPrice(c: Currency): (p: real)
    ensures p > 0.0
  {
    match c
    case USD => 43250.0
    case AUD => 65800.0
    case EUR => 39850.0
    case GBP => 34200.0
  }

  /** `{ id, date, amount, btcAmount, price, currency }`; `id` and `date` are both the
      instant of the purchase, in milliseconds. */
  datatype Purchase = Purchase(id: int, date: int, amount: real, btcAmount: real, price: real, currency: Currency)

  function PurchaseAmount(p: Purchase): real { p.amount }

  function PurchaseBtc(p: Purchase): real { p.btcAmount }

  /** An entry of `achievements` (its icon and colour are presentation). */
  datatype Achievement = Achievement(id: string, name: string, description: string, threshold: int)

  const Achievements: seq<Achievement> := [
    Achievement("first_purchase", "First Stack", "Made your first Bitcoin purchase", 1),
    Achievement("consistent_stacker", "Consistent Stacker", "10 consecutive weeks of DCA", 10),
    Achievement("hodl_master", "HODL Master", "Held for 6+ months without selling", 180),
    Achievement("whale_status", "Bitcoin Whale", "Accumulated 1+ Bitcoin", 1),
    Achievement("family_first", "Family First", "Convinced spouse to support Bitcoin", 1),
    Achievement("rocket_fuel", "Rocket Fuel", "52 weeks of consistent DCA", 52)
  ]

  const HalfYearMs: int := 180 * 24 * 60 * 60 * 1000

  /** The effect's `switch (achievement.id)`: the streak is the purchase count; 'hodl_master'
      asks that the first purchase be more than 180 days old. */
  predicate UnlockedBy(ps: seq<Purchase>, now: int, totalBTC: real, a: Achievement) {
    match a.id
    case "first_purchase" => |ps| >= 1
    case "consistent_stacker" => |ps| >= 10
    case "hodl_master" => |ps| > 0 && now - ps[0].date > HalfYearMs
    case "whale_status" => totalBTC >= 1.0
    case "family_first" => |ps| >= 5
    case "rocket_fuel" => |ps| >= 52
    case _ => false
  }

  function IsUnlocked(ps: seq<Purchase>, now: int): Achievement -> bool {
    (a: Achievement) => UnlockedBy(ps, now, SumOf(ps, PurchaseBtc), a)
  }

  /** `achievements.filter(...)`. */
  function UnlockedAchievements(ps: seq<Purchase>, now: int): seq<Achievement> {
    Filter(IsUnlocked(ps, now), Achievements)
  }

  /** `{ totalInvested, totalBTC, averagePrice, weekStreak, unlockedAchievements }`. */
  datatype UserStats = UserStats(
    totalInvested: real,
    totalBTC: real,
    averagePrice: real,
    weekStreak: nat,
    unlockedAchievements: seq<Achievement>)

  /** The statistics effect: sums of the amounts and of the bitcoin bought, an average
      price that is 0 unless some bitcoin is held, and a streak that is simply the number
      of purchases. */
  function StatsOf(ps: seq<Purchase>, now: int): (s: UserStats)
    ensures s.totalInvested == SumOf(ps, PurchaseAmount) && s.totalBTC == SumOf(ps, PurchaseBtc)
    ensures s.totalBTC > 0.0 ==> s.averagePrice * s.totalBTC == s.totalInvested
    ensures s.totalBTC <= 0.0 ==> s.averagePrice == 0.0
    ensures s.weekStreak == |ps|
    ensures s.unlockedAchievements == UnlockedAchievements(ps, now)
  {
    var totalInvested := SumOf(ps, PurchaseAmount);
    var totalBTC := SumOf(ps, PurchaseBtc);
    var averagePrice := if totalBTC > 0.0 then totalInvested / totalBTC else 0.0;
    UserStats(totalInvested, totalBTC, averagePrice, |ps|, UnlockedAchievements(ps, now))
  }

  /** The unlocked list keeps the catalog's order, and an entry is in it exactly when its
      condition holds. */
  lemma UnlockedInCatalogOrder(ps: seq<Purchase>, now: int, a: Achievement)
    ensures SubsequenceOf(UnlockedAchievements(ps, now), Achievements)
    ensures a in UnlockedAchievements(ps, now) <==> a in Achievements && IsUnlocked(ps, now)(a)
  {
    FilterIsSubsequence(IsUnlocked(ps, now), Achievements);
    FilterMembership(IsUnlocked(ps, now), Achievements, a);
  }

  /** 'first_purchase' is unlocked exactly when there is a purchase, and 'rocket_fuel'
      (52 purchases) brings 'consistent_stacker' (10) and 'family_first' (5) with it. */
  lemma UnlockImplications(ps: seq<Purchase>, now: int)
    ensures Achievements[0] in UnlockedAchievements(ps, now) <==> |ps| >= 1
    ensures Achievements[5] in UnlockedAchievements(ps, now) ==>
      Achievements[1] in UnlockedAchievements(ps, now) && Achievements[4] in UnlockedAchievements(ps, now)
  {
    var p := IsUnlocked(ps, now);
    FilterMembership(p, Achievements, Achievements[0]);
    FilterMembership(p, Achievements, Achievements[1]);
    FilterMembership(p, Achievements, Achievements[4]);
    FilterMembership(p, Achievements, Achievements[5]);
  }

  /** Adding a purchase of some bitcoin never locks an achievement again: the count only
      grows, the holdings do not shrink and the first purchase stays the first. */
  lemma AddingNeverLocks(ps: seq<Purchase>, p: Purchase, now: int, a: Achievement)
    requires p.btcAmount >= 0.0
    requires a in UnlockedAchievements(ps, now)
    ensures a in UnlockedAchievements(ps + [p], now)
  {
    var before, after := IsUnlocked(ps, now), IsUnlocked(ps + [p], now);
    FilterMembership(before, Achievements, a);
    FilterMembership(after, Achievements, a);
    assert (ps + [p])[..|ps|] == ps;
    assert SumOf(ps + [p], PurchaseBtc) == SumOf(ps, PurchaseBtc) + p.btcAmount;
    if ps != [] {
      assert (ps + [p])[0] == ps[0];
    }
  }

  /** Appending a purchase adds its amount and its bitcoin to the totals and one to the
      streak. */
  lemma StatsAfterAdd(ps: seq<Purchase>, p: Purchase, now: int)
    ensures StatsOf(ps + [p], now).totalInvested == StatsOf(ps, now).totalInvested + p.amount
    ensures StatsOf(ps + [p], now).totalBTC == StatsOf(ps, now).totalBTC + p.btcAmount
    ensures StatsOf(ps + [p], now).weekStreak == StatsOf(ps, now).weekStreak + 1
  {
    assert (ps + [p])[..|ps|] == ps;
  }

  /** `portfolioGainLossPercent`: 0 unless something was invested; otherwise not negative
      exactly when the holdings are worth at least what was invested. */
  function GainLossPercent(totalInvested: real, totalBTC: real, price: real): (r: real)
    ensures totalInvested <= 0.0 ==> r == 0.0
    ensures totalInvested > 0.0 ==> (r >= 0.0 <==> totalBTC * price >= totalInvested)
  {
    if totalInvested > 0.0 then
      PercentSign(totalBTC * price, totalInvested);
      (totalBTC * price - totalInvested) / totalInvested * 100.0
    else 0.0
  }

  class TrackerApp {
    var currency: Currency
    /** The amount field's text. */
    var dcaAmount: string
    var purchases: seq<Purchase>
    var userStats: UserStats

    constructor()
      ensures currency == AUD && dcaAmount == "" && purchases == []
      ensures userStats == UserStats(0.0, 0.0, 0.0, 0, [])
    {
      currency := AUD;
      dcaAmount := "";
      purchases := [];
      userStats := UserStats(0.0, 0.0, 0.0, 0, []);
    }

    /** `addPurchase()`. `value` is the number the amount field's text denotes. An empty
        field or a value that is not positive changes nothing; otherwise one purchase at
        the demo price of the selected currency is appended and the field is cleared. */
    method AddPurchase(value: real, now: int)
      modifies this
      ensures dcaAmount == old(dcaAmount) || dcaAmount == ""
      ensures old(dcaAmount) == "" || value <= 0.0 ==> purchases == old(purchases) && dcaAmount == old(dcaAmount)
      ensures old(dcaAmount) != "" && value > 0.0 ==>
        purchases == old(purchases) + [Purchase(now, now, value, value / MockPrice(currency), MockPrice(currency), currency)]
        && dcaAmount == ""
      ensures old(dcaAmount) != "" && value > 0.0 ==>
        purchases[|purchases| - 1].btcAmount * MockPrice(currency) == value && purchases[|purchases| - 1].btcAmount > 0.0
      ensures currency == old(currency) && userStats == old(userStats)
    {
      if dcaAmount == "" || value <= 0.0 {
        return;
      }
      var btcPrice := MockPrice(currency);
      var btcAmount := value / btcPrice;
      purchases := purchases + [Purchase(now, now, value, btcAmount, btcPrice, currency)];
      dcaAmount := "";
    }

    /** The statistics effect, run after `purchases` changes. */
    method RefreshStats(now: int)
      modifies this
      ensures userStats == StatsOf(purchases, now)
      ensures currency == old(currency) && dcaAmount == old(dcaAmount) && purchases == old(purchases)
    {
      userStats := StatsOf(purchases, now);
    }
  }
}
