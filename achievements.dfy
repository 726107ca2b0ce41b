/** The achievement system: a fixed catalog of threshold conditions over the portfolio
    record, a progress formula per achievement, the persisted list of achievements the
    user has already been told about, and the sound preference. */
module Achievements {
  import opened JsValues
  import opened Seqs
  import opened Portfolio

  /** The portfolio figures the conditions read. */
  datatype Metric = TotalTransactions | LongestStreak | TotalBtc | TotalInvested | UnrealizedPnl | MaxDrawdown

  function Value(m: Metric, d: PortfolioData): JsNum {
    match m
    case TotalTransactions => Num(d.totalTransactions as real)
    case LongestStreak => Num(d.longestStreak as real)
    case TotalBtc => Num(d.totalBtc)
    case TotalInvested => Num(d.totalInvested)
    case UnrealizedPnl => d.unrealizedPnl
    case MaxDrawdown => Num(d.maxDrawdown)
  }

  /** `data.<metric> >= threshold` or `data.<metric> > threshold`. */
  datatype Condition = AtLeastOf(metric: Metric, threshold: real) | Above(metric: Metric, threshold: real)

  predicate Holds(c: Condition, d: PortfolioData) {
    match c
    case AtLeastOf(m, t) => AtLeast(Value(m, d), t)
    case Above(m, t) => GreaterThan(Value(m, d), t)
  }

  /** One entry of `defineAchievements()`: what `checkAchievements` reads. Its title,
      description and icon are presentation and sit at the same position of `Displays`. */
  datatype Definition = Definition(id: string, condition: Condition, category: string)

  /** The fourteen achievements, in the order they are checked and shown. */
  const Catalog: seq<Definition> := [
    Definition("first_purchase", AtLeastOf(TotalTransactions, 1.0), "milestone"),
    Definition("week_consistent", AtLeastOf(LongestStreak, 4.0), "consistency"),
    Definition("month_consistent", AtLeastOf(LongestStreak, 4.0), "consistency"),
    Definition("satoshi_million", AtLeastOf(TotalBtc, 0.01), "accumulation"),
    Definition("tenth_bitcoin", AtLeastOf(TotalBtc, 0.1), "milestone"),
    Definition("quarter_bitcoin", AtLeastOf(TotalBtc, 0.25), "milestone"),
    Definition("half_bitcoin", AtLeastOf(TotalBtc, 0.5), "milestone"),
    Definition("whole_bitcoin", AtLeastOf(TotalBtc, 1.0), "milestone"),
    Definition("ten_purchases", AtLeastOf(TotalTransactions, 10.0), "frequency"),
    Definition("fifty_purchases", AtLeastOf(TotalTransactions, 50.0), "frequency"),
    Definition("thousand_invested", AtLeastOf(TotalInvested, 1000.0), "investment"),
    Definition("five_thousand_invested", AtLeastOf(TotalInvested, 5000.0), "investment"),
    Definition("profitable", Above(UnrealizedPnl, 0.0), "performance"),
    Definition("diamond_hands", AtLeastOf(MaxDrawdown, 20.0), "resilience")
  ]

  /** The title, description and icon of an entry of `defineAchievements()`. */
  datatype Display = Display(title: string, description: string, icon: string)

  /** The presentation of the catalog entries, position by position. */
  const Displays: seq<Display> := [
    Display("First Steps", "Made your first Bitcoin purchase", "fa-baby"),
    Display("Consistent Stacker", "Purchased Bitcoin for 4 weeks straight", "fa-calendar-check"),
    Display("Monthly Discipline", "Maintained DCA for a full month", "fa-medal"),
    Display("Satoshi Millionaire", "Accumulated 1,000,000 satoshis", "fa-coins"),
    Display("Tenth Bitcoin", "Reached 0.1 BTC milestone", "fa-trophy"),
    Display("Quarter Bitcoin", "Accumulated 0.25 BTC", "fa-star"),
    Display("Half Bitcoin", "Reached the 0.5 BTC milestone", "fa-shield-halved"),
    Display("Whole Coiner", "Accumulated 1 full Bitcoin!", "fa-crown"),
    Display("Dedicated Stacker", "Made 10 Bitcoin purchases", "fa-layer-group"),
    Display("DCA Master", "Completed 50 DCA purchases", "fa-graduation-cap"),
    Display("Serious Investor", "Invested $1,000 AUD in Bitcoin", "fa-chart-line"),
    Display("Big Stacker", "Invested $5,000 AUD in Bitcoin", "fa-rocket"),
    Display("In The Green", "Portfolio showing positive returns", "fa-arrow-trend-up"),
    Display("Diamond Hands \U{1F48E}\U{1F64C}", "Held through a -20% price drop", "fa-gem")
  ]

  function Id(a: Definition): string { a.id }

  /** The ids of the catalog, in order. */
  const CatalogIds: seq<string> := ["first_purchase", "week_consistent", "month_consistent",
    "satoshi_million", "tenth_bitcoin", "quarter_bitcoin", "half_bitcoin", "whole_bitcoin",
    "ten_purchases", "fifty_purchases", "thousand_invested", "five_thousand_invested",
    "profitable", "diamond_hands"]

  /** The catalog has fourteen entries with distinct ids, and the two consistency
      achievements share the condition "longest streak of at least 4 weeks". */
  lemma CatalogShape()
    ensures |Catalog| == |Displays| == 14
    ensures NoDup(MapSeq(Id, Catalog))
    ensures Catalog[1].id == "week_consistent" && Catalog[2].id == "month_consistent"
    ensures Catalog[1].condition == Catalog[2].condition == AtLeastOf(LongestStreak, 4.0)
  {
    CatalogIdsInOrder();
    CatalogIdsDistinct();
  }

  lemma CatalogIdsInOrder()
    ensures MapSeq(Id, Catalog) == CatalogIds
  {
    var ids := MapSeq(Id, Catalog);
    forall i | 0 <= i < 14
      ensures ids[i] == CatalogIds[i]
    {
    }
  }

  lemma CatalogIdsDistinct()
    ensures NoDup(CatalogIds)
  {
    forall i, j | 0 <= i < j < 14
      ensures CatalogIds[i] != CatalogIds[j]
    {
      assert CatalogIds[i][0] != CatalogIds[j][0] || |CatalogIds[i]| != |CatalogIds[j]|
        || CatalogIds[i][1] != CatalogIds[j][1] || CatalogIds[i][3] != CatalogIds[j][3];
    }
  }

  /** `calculateProgress(achievement, data)`: the percentage towards an achievement, with
      `unlocked` the flag set earlier in the same pass. */
  function Progress(a: Definition, d: PortfolioData, unlocked: bool): (r: real)
    ensures r <= 100.0
  {
    if a.id == "satoshi_million" then Min100(d.totalBtc / 0.01 * 100.0)
    else if a.id == "tenth_bitcoin" then Min100(d.totalBtc / 0.1 * 100.0)
    else if a.id == "quarter_bitcoin" then Min100(d.totalBtc / 0.25 * 100.0)
    else if a.id == "half_bitcoin" then Min100(d.totalBtc / 0.5 * 100.0)
    else if a.id == "whole_bitcoin" then Min100(d.totalBtc / 1.0 * 100.0)
    else if a.id == "ten_purchases" then Min100(d.totalTransactions as real / 10.0 * 100.0)
    else if a.id == "fifty_purchases" then Min100(d.totalTransactions as real / 50.0 * 100.0)
    else if a.id == "thousand_invested" then Min100(d.totalInvested / 1000.0 * 100.0)
    else if a.id == "five_thousand_invested" then Min100(d.totalInvested / 5000.0 * 100.0)
    else if a.id == "week_consistent" || a.id == "month_consistent" then
      Min100(d.longestStreak as real / 4.0 * 100.0)
    else if unlocked then 100.0 else 0.0
  }

  /** A catalog entry with the `unlocked` and `progress` fields `checkAchievements` writes. */
  datatype Badge = Badge(def: Definition, unlocked: bool, progress: real)

  /** One step of `checkAchievements`: the condition decides `unlocked`, then progress is
      computed from the data and that flag. */
  function Evaluate(a: Definition, d: PortfolioData): Badge {
    var u := Holds(a.condition, d);
    Badge(a, u, Progress(a, d, u))
  }

  /** The catalog as `checkAchievements(d)` leaves it. */
  function Evaluated(d: PortfolioData): (bs: seq<Badge>)
    ensures |bs| == |Catalog|
  {
    EvaluateAll(Catalog, d)
  }

  function EvaluateAll(defs: seq<Definition>, d: PortfolioData): (bs: seq<Badge>)
    ensures |bs| == |defs|
    ensures forall i :: 0 <= i < |defs| ==> bs[i] == Evaluate(defs[i], d)
  {
    if defs == [] then [] else EvaluateAll(defs[..|defs| - 1], d) + [Evaluate(defs[|defs| - 1], d)]
  }

  /** The badge is reported: unlocked, and its id not yet in the seen list. */
  function IsNews(seen: seq<string>): Badge -> bool {
    (b: Badge) => b.unlocked && b.def.id !in seen
  }

  /** The achievements `checkAchievements` reports, given the seen list before the call. */
  function Announced(bs: seq<Badge>, seen: seq<string>): seq<Badge> {
    Filter(IsNews(seen), bs)
  }

  function BadgeId(b: Badge): string { b.def.id }

  function Ids(bs: seq<Badge>): seq<string> { MapSeq(BadgeId, bs) }

  /** A badge is reported exactly when it is one of the evaluated badges, unlocked and
      unseen; the report keeps their order. */
  lemma AnnouncedMembership(bs: seq<Badge>, seen: seq<string>, b: Badge)
    ensures b in Announced(bs, seen) <==> b in bs && b.unlocked && b.def.id !in seen
    ensures SubsequenceOf(Announced(bs, seen), bs)
  {
    FilterMembership(IsNews(seen), bs, b);
    FilterIsSubsequence(IsNews(seen), bs);
  }

  /** The unlocked flag of each badge is its condition on the data alone: the seen list
      plays no part in it. */
  lemma UnlockedByDataOnly(d: PortfolioData, i: int)
    requires 0 <= i < |Catalog|
    ensures Evaluated(d)[i].def == Catalog[i]
    ensures Evaluated(d)[i].unlocked <==> Holds(Catalog[i].condition, d)
  {
  }

  /** Progress is 100 exactly when the achievement is unlocked: each threshold formula
      reaches 100 at its condition's threshold, and the others fall back on the flag. */
  lemma ProgressFullIffUnlocked(d: PortfolioData, i: int)
    requires 0 <= i < |Catalog|
    ensures Evaluated(d)[i].progress == 100.0 <==> Evaluated(d)[i].unlocked
  {
    if i == 0 || i >= 12 {
      FallBackGroup(d, i);
    } else if i <= 2 {
      StreakGroup(d, i);
    } else if i <= 7 {
      BitcoinGroup(d, i);
    } else if i <= 9 {
      PurchasesGroup(d, i);
    } else {
      InvestedGroup(d, i);
    }
  }

  /** The entries without a formula: progress is the unlocked flag as 100 or 0. */
  lemma FallBackGroup(d: PortfolioData, i: int)
    requires i == 0 || i == 12 || i == 13
    ensures Evaluated(d)[i].progress == 100.0 <==> Evaluated(d)[i].unlocked
  {
    var a := Catalog[i];
    assert Evaluated(d)[i] == Evaluate(a, d);
    FallBackProgress(a, d);
  }

  /** The two consistency entries: the longest streak against 4 weeks. */
  lemma StreakGroup(d: PortfolioData, i: int)
    requires 1 <= i <= 2
    ensures Evaluated(d)[i].progress == 100.0 <==> Evaluated(d)[i].unlocked
  {
    var a := Catalog[i];
    assert Evaluated(d)[i] == Evaluate(a, d);
    ThresholdProgress(d.longestStreak as real, a.condition.threshold);
  }

  /** The bitcoin milestones: the bitcoin held against each target. */
  lemma BitcoinGroup(d: PortfolioData, i: int)
    requires 3 <= i <= 7
    ensures Evaluated(d)[i].progress == 100.0 <==> Evaluated(d)[i].unlocked
  {
    var a := Catalog[i];
    assert Evaluated(d)[i] == Evaluate(a, d);
    ThresholdProgress(d.totalBtc, a.condition.threshold);
  }

  /** The purchase counts: the number of purchases against 10 and 50. */
  lemma PurchasesGroup(d: PortfolioData, i: int)
    requires 8 <= i <= 9
    ensures Evaluated(d)[i].progress == 100.0 <==> Evaluated(d)[i].unlocked
  {
    var a := Catalog[i];
    assert Evaluated(d)[i] == Evaluate(a, d);
    ThresholdProgress(d.totalTransactions as real, a.condition.threshold);
  }

  /** The invested amounts: the total invested against 1000 and 5000. */
  lemma InvestedGroup(d: PortfolioData, i: int)
    requires 10 <= i <= 11
    ensures Evaluated(d)[i].progress == 100.0 <==> Evaluated(d)[i].unlocked
  {
    var a := Catalog[i];
    assert Evaluated(d)[i] == Evaluate(a, d);
    ThresholdProgress(d.totalInvested, a.condition.threshold);
  }

  /** A capped percentage of a positive target reaches 100 exactly at the target. */
  lemma ThresholdProgress(x: real, t: real)
    requires t > 0.0
    ensures Min100(x / t * 100.0) == 100.0 <==> x >= t
  {
    assert x / t * 100.0 == 100.0 * (x / t);
  }

  lemma FallBackProgress(a: Definition, d: PortfolioData)
    requires a in [Catalog[0], Catalog[12], Catalog[13]]
    ensures Progress(a, d, true) == 100.0 && Progress(a, d, false) == 0.0
  {
  }

  function Defs(bs: seq<Badge>): seq<Definition> {
    MapSeq((b: Badge) => b.def, bs)
  }

  /** Evaluating keeps the definitions, hence their ids, in order. */
  lemma EvaluatedIds(defs: seq<Definition>, d: PortfolioData)
    ensures Ids(EvaluateAll(defs, d)) == MapSeq(Id, defs)
  {
    var e := EvaluateAll(defs, d);
    forall i | 0 <= i < |defs|
      ensures Ids(e)[i] == MapSeq(Id, defs)[i]
    {
    }
  }

  /** While walking distinct definitions, the id at position `i` is not among the ids
      reported for earlier positions. */
  lemma NotReportedBefore(defs: seq<Definition>, d: PortfolioData, seen: seq<string>, i: int)
    requires 0 <= i < |defs| && NoDup(MapSeq(Id, defs))
    ensures defs[i].id !in Ids(Announced(EvaluateAll(defs, d)[..i], seen))
  {
    var e := EvaluateAll(defs, d);
    var r := Announced(e[..i], seen);
    forall k | 0 <= k < |r|
      ensures BadgeId(r[k]) != defs[i].id
    {
      FilterMembership(IsNews(seen), e[..i], r[k]);
      var j :| 0 <= j < i && e[..i][j] == r[k];
      assert MapSeq(Id, defs)[j] != MapSeq(Id, defs)[i];
    }
    MapSeqMembership(BadgeId, r, defs[i].id);
  }

  /** One step of `checkAchievements` at position `i`: the badge is reported exactly when it is
      unlocked and its id is in neither the old seen list nor the ids reported so far. */
  lemma CheckStep(defs: seq<Definition>, d: PortfolioData, seen: seq<string>, i: int)
    requires 0 <= i < |defs| && NoDup(MapSeq(Id, defs))
    ensures var e := EvaluateAll(defs, d);
      var a := defs[i];
      var u := Holds(a.condition, d);
      var b := Badge(a, u, Progress(a, d, u));
      var r := Announced(e[..i], seen);
      && b == e[i]
      && Ids(r + [b]) == Ids(r) + [a.id]
      && Announced(e[..i + 1], seen) == if u && a.id !in seen + Ids(r) then r + [b] else r
  {
    var e := EvaluateAll(defs, d);
    var r := Announced(e[..i], seen);
    NotReportedBefore(defs, d, seen, i);
    FilterSnoc(IsNews(seen), e, i);
    MapConcat(BadgeId, r, [e[i]]);
  }

  /** Once reported, an achievement is never reported again: with the same data, a
      second `checkAchievements` after the first reports nothing. */
  lemma CheckTwiceQuiet(bs: seq<Badge>, seen: seq<string>)
    ensures Announced(bs, seen + Ids(Announced(bs, seen))) == []
  {
    var first := Announced(bs, seen);
    var second := Announced(bs, seen + Ids(first));
    if second != [] {
      var b := second[0];
      AnnouncedMembership(bs, seen + Ids(first), b);
      AnnouncedMembership(bs, seen, b);
      assert false;
    }
  }

  /** After `checkAchievements` every unlocked badge's id is in the seen list. */
  lemma UnlockedAreSeen(bs: seq<Badge>, seen: seq<string>, i: int)
    requires 0 <= i < |bs| && bs[i].unlocked
    ensures bs[i].def.id in seen + Ids(Announced(bs, seen))
  {
    var first := Announced(bs, seen);
    if bs[i].def.id !in seen {
      AnnouncedMembership(bs, seen, bs[i]);
      var k :| 0 <= k < |first| && first[k] == bs[i];
      assert Ids(first)[k] == bs[i].def.id;
    }
  }

  /** The seen list gains no duplicates when the badges' ids are distinct. */
  lemma SeenStaysDistinct(bs: seq<Badge>, seen: seq<string>)
    requires NoDup(seen) && NoDup(Ids(bs))
    ensures NoDup(seen + Ids(Announced(bs, seen)))
  {
    var first := Announced(bs, seen);
    FilterDistinctImages(BadgeId, IsNews(seen), bs);
    var all := seen + Ids(first);
    forall i, j | 0 <= i < j < |all|
      ensures all[i] != all[j]
    {
      if i >= |seen| {
        assert all[i] == Ids(first)[i - |seen|] && all[j] == Ids(first)[j - |seen|];
      } else if j >= |seen| {
        var b := first[j - |seen|];
        assert IsNews(seen)(b);
        assert all[j] == b.def.id;
      }
    }
  }

  /** The definitions as `defineAchievements()` returns them, before any `checkAchievements`. */
  function Unevaluated(defs: seq<Definition>): (bs: seq<Badge>)
    ensures |bs| == |defs|
    ensures forall i :: 0 <= i < |defs| ==> bs[i] == Badge(defs[i], false, 0.0)
  {
    seq(|defs|, i requires 0 <= i < |defs| => Badge(defs[i], false, 0.0))
  }

  lemma UnevaluatedIds(defs: seq<Definition>)
    ensures Ids(Unevaluated(defs)) == MapSeq(Id, defs)
    ensures Defs(Unevaluated(defs)) == defs
  {
    var bs := Unevaluated(defs);
    forall i | 0 <= i < |defs|
      ensures Ids(bs)[i] == MapSeq(Id, defs)[i] && Defs(bs)[i] == defs[i]
    {
    }
  }

  /** `checkAchievements` keeps the definitions, so a second call with the same data sets the
      same flags and progress again. */
  lemma CheckTwiceSameBadges(defs: seq<Definition>, d: PortfolioData)
    ensures Defs(EvaluateAll(defs, d)) == defs
    ensures EvaluateAll(Defs(EvaluateAll(defs, d)), d) == EvaluateAll(defs, d)
  {
    var e := EvaluateAll(defs, d);
    forall i | 0 <= i < |defs|
      ensures Defs(e)[i] == defs[i]
    {
    }
  }

  /** What one `checkAchievements` leaves behind: every unlocked id seen, and no duplicate added. */
  lemma CheckOutcome(bs: seq<Badge>, seen: seq<string>)
    requires NoDup(Ids(bs))
    ensures forall i :: 0 <= i < |bs| && bs[i].unlocked ==> bs[i].def.id in seen + Ids(Announced(bs, seen))
    ensures NoDup(seen) ==> NoDup(seen + Ids(Announced(bs, seen)))
  {
    forall i | 0 <= i < |bs| && bs[i].unlocked
      ensures bs[i].def.id in seen + Ids(Announced(bs, seen))
    {
      UnlockedAreSeen(bs, seen, i);
    }
    if NoDup(seen) {
      SeenStaysDistinct(bs, seen);
    }
  }

  /** `value.toString()` of a boolean. */
  function BoolText(b: bool): (s: string)
    ensures s == "true" <==> b
  {
    if b then "true" else "false"
  }

  /** The achievement system. `seen` is the `achievements_seen` list and `soundPref` the
      `achievement_sound` entry of local storage, both given to the constructor as they
      were stored; the audio context is not modelled. */
  class AchievementSystem {
    var achievements: seq<Badge>
    var soundEnabled: bool
    var seen: seq<string>
    var soundPref: Option<string>

    /** The stored definitions have distinct ids. */
    ghost predicate Valid()
      reads this
    {
      NoDup(Ids(achievements))
    }

    /** `this.achievements = this.defineAchievements()`: the definitions start with no
        unlocked flag (modelled as locked at 0%), and the sound is on until `init` reads
        the stored preference. */
    constructor(storedSeen: seq<string>, storedSound: Option<string>)
      ensures Valid()
      ensures Defs(achievements) == Catalog
      ensures achievements == Unevaluated(Catalog)
      ensures soundEnabled && seen == storedSeen && soundPref == storedSound
    {
      achievements := Unevaluated(Catalog);
      soundEnabled := true;
      seen := storedSeen;
      soundPref := storedSound;
      UnevaluatedIds(Catalog);
      CatalogShape();
    }

    /** `isAchievementSeen(id)`. */
    predicate IsAchievementSeen(id: string)
      reads this
    {
      id in seen
    }

    /** `markAchievementAsSeen(id)`: appends the id to the stored list. */
    method MarkAchievementAsSeen(id: string)
      modifies this
      ensures seen == old(seen) + [id]
      ensures IsAchievementSeen(id)
      ensures achievements == old(achievements) && soundEnabled == old(soundEnabled) && soundPref == old(soundPref)
    {
      seen := seen + [id];
    }

    /** `checkAchievements(portfolioData)`: re-evaluates every stored definition against
        the data, then reports and marks as seen the unlocked ones not seen before. */
    method CheckAchievements(d: PortfolioData) returns (newly: seq<Badge>)
      requires Valid()
      modifies this
      ensures Valid()
      ensures achievements == EvaluateAll(Defs(old(achievements)), d)
      ensures newly == Announced(achievements, old(seen))
      ensures seen == old(seen) + Ids(newly)
      ensures forall i :: 0 <= i < |achievements| && achievements[i].unlocked ==> IsAchievementSeen(achievements[i].def.id)
      ensures NoDup(old(seen)) ==> NoDup(seen)
      ensures soundEnabled == old(soundEnabled) && soundPref == old(soundPref)
    {
      ghost var defs := Defs(achievements);
      ghost var e := EvaluateAll(defs, d);
      assert MapSeq(Id, defs) == Ids(achievements) by {
        forall k | 0 <= k < |defs|
          ensures MapSeq(Id, defs)[k] == Ids(achievements)[k]
        {
        }
      }
      newly := [];
      var i := 0;
      while i < |achievements|
        invariant 0 <= i <= |achievements| == |defs|
        invariant forall k :: i <= k < |defs| ==> achievements[k].def == defs[k]
        invariant forall k :: 0 <= k < i ==> achievements[k] == e[k]
        invariant newly == Announced(e[..i], old(seen)) && seen == old(seen) + Ids(newly)
        invariant soundEnabled == old(soundEnabled) && soundPref == old(soundPref)
      {
        newly := Visit(i, d, defs, old(seen), newly);
        i := i + 1;
      }
      assert achievements == e;
      assert e[..i] == e;
      EvaluatedIds(defs, d);
      CheckOutcome(e, old(seen));
    }

    /** The `forEach` callback of `checkAchievements` for the definition at position `i`:
        sets its flag and progress, and when it is unlocked and unseen pushes it onto the
        report and marks it seen. `defs` are the definitions and `seen0` the seen list as
        `checkAchievements` found them. */
    method Visit(i: int, d: PortfolioData, ghost defs: seq<Definition>, ghost seen0: seq<string>, newly: seq<Badge>)
      returns (newly': seq<Badge>)
      requires 0 <= i < |achievements| == |defs| && NoDup(MapSeq(Id, defs))
      requires achievements[i].def == defs[i]
      requires newly == Announced(EvaluateAll(defs, d)[..i], seen0) && seen == seen0 + Ids(newly)
      modifies this
      ensures achievements == old(achievements)[i := EvaluateAll(defs, d)[i]]
      ensures newly' == Announced(EvaluateAll(defs, d)[..i + 1], seen0) && seen == seen0 + Ids(newly')
      ensures soundEnabled == old(soundEnabled) && soundPref == old(soundPref)
    {
      var a := achievements[i].def;
      var isUnlocked := Holds(a.condition, d);
      var badge := Badge(a, isUnlocked, Progress(a, d, isUnlocked));
      achievements := achievements[i := badge];
      CheckStep(defs, d, seen0, i);
      newly' := newly;
      if isUnlocked && !IsAchievementSeen(a.id) {
        newly' := newly + [badge];
        MarkAchievementAsSeen(a.id);
      }
    }

    /** `init()`: a stored preference replaces the default; "true" means on. */
    method Init()
      modifies this
      ensures soundPref.None? ==> soundEnabled == old(soundEnabled)
      ensures soundPref.Some? ==> (soundEnabled <==> soundPref.value == "true")
      ensures achievements == old(achievements) && seen == old(seen) && soundPref == old(soundPref)
    {
      if soundPref.Some? {
        soundEnabled := soundPref.value == "true";
      }
    }

    /** `toggleSound()` (the second, effective definition): flips the flag, stores it and
        returns it, so two toggles restore the setting and a later `init` reads it back.
        The click sound it schedules when enabling is not modelled. */
    method ToggleSound() returns (enabled: bool)
      modifies this
      ensures soundEnabled == !old(soundEnabled) && enabled == soundEnabled
      ensures soundPref == Some(BoolText(soundEnabled))
      ensures achievements == old(achievements) && seen == old(seen)
    {
      soundEnabled := !soundEnabled;
      soundPref := Some(BoolText(soundEnabled));
      enabled := soundEnabled;
    }
  }
}
