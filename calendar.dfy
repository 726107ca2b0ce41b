/** Calendar dates as whole day numbers: day 0 is 1970-01-01 (a Thursday). A transaction's
    'YYYY-MM-DD' date parses to midnight UTC of its day, so date arithmetic in the ledger
    is arithmetic on these numbers. Instants ("now") are real day numbers whose
    fractional part is the time of day. */
module Calendar {

  /** `getDay()`: 0 for Sunday through 6 for Saturday. */
  function Weekday(day: int): (w: int)
    ensures 0 <= w < 7
  {
    (day + 4) % 7
  }

  /** The Sunday that starts the week of `day`: the day minus its weekday. */
  function WeekStart(day: int): int {
    day - Weekday(day)
  }

  /** A week key is a Sunday no later than the day and less than a week before it. */
  lemma WeekStartIsSunday(day: int)
    ensures Weekday(WeekStart(day)) == 0
    ensures WeekStart(day) <= day < WeekStart(day) + 7
  {
  }

  /** Two days share a week key exactly when they fall in the same Sunday-to-Saturday
      week, so purchases of one week land in one bucket. */
  lemma SameWeekKey(a: int, b: int)
    ensures WeekStart(a) == WeekStart(b) <==> WeekStart(a) <= b < WeekStart(a) + 7
  {
    var s := WeekStart(a);
    WeekStartIsSunday(a);
    WeekStartIsSunday(b);
    if s <= b < s + 7 {
      assert b == s + Weekday(b) by {
        assert (b + 4) % 7 == (s + 4 + (b - s)) % 7;
        assert (s + 4) % 7 == 0;
      }
    }
  }

  /** Week keys never decrease as the date increases. */
  lemma WeekStartMonotone(a: int, b: int)
    requires a <= b
    ensures WeekStart(a) <= WeekStart(b)
  {
    WeekStartIsSunday(a);
    WeekStartIsSunday(b);
    if WeekStart(b) < WeekStart(a) {
      SameWeekKey(b, a);
    }
  }

  /** Proleptic Gregorian (year, month 1..12, day 1..31) of a day number. */
  datatype Civil = Civil(year: int, month: int, day: int)

  function CivilFromDays(z0: int): (c: Civil)
    ensures 1 <= c.month <= 12 && 1 <= c.day <= 31
  {
    var z := z0 + 719468;
    var era := z / 146097;
    CivilOfEra(era, z - era * 146097)
  }

  /** The date of day `doe` (0..146096) of a 400-year era starting on 1 March of year
      400 * era. */
  function CivilOfEra(era: int, doe: int): (c: Civil)
    requires 0 <= doe < 146097
    ensures 1 <= c.month <= 12 && 1 <= c.day <= 31
  {
    DayOfEraParts(doe);
    var yoe := (doe - doe / 1460 + doe / 36524 - doe / 146096) / 365;
    CivilOfYear(era, yoe, doe - (365 * yoe + yoe / 4 - yoe / 100))
  }

  /** The date of day `doy` (0..365) of the March-based year `yoe` of an era. */
  function CivilOfYear(era: int, yoe: int, doy: int): (c: Civil)
    requires 0 <= doy <= 365
    ensures 1 <= c.month <= 12 && 1 <= c.day <= 31
  {
    var mp := (5 * doy + 2) / 153;
    var d := doy - (153 * mp + 2) / 5 + 1;
    var m := if mp < 10 then mp + 3 else mp - 9;
    Civil(yoe + era * 400 + (if m <= 2 then 1 else 0), m, d)
  }

  /** Day number of a proleptic Gregorian date with a month in 1..12. */
  function DaysFromCivil(y0: int, m: int, d: int): int {
    var y := if m <= 2 then y0 - 1 else y0;
    var era := y / 400;
    var yoe := y - era * 400;
    var mp := if m > 2 then m - 3 else m + 9;
    var doy := (153 * mp + 2) / 5 + d - 1;
    var doe := yoe * 365 + yoe / 4 - yoe / 100 + doy;
    era * 146097 + doe - 719468
  }

  /** Converting a day number to its civil date and back gives the day number again, so
      distinct days have distinct dates. */
  lemma CivilRoundTrip(z0: int)
    ensures var c := CivilFromDays(z0); DaysFromCivil(c.year, c.month, c.day) == z0
  {
    var z := z0 + 719468;
    var era := z / 146097;
    EraRoundTrip(era, z - era * 146097);
  }

  /** The round trip within one era, from the era's first day. */
  lemma EraRoundTrip(era: int, doe: int)
    requires 0 <= doe < 146097
    ensures var c := CivilOfEra(era, doe); DaysFromCivil(c.year, c.month, c.day) == era * 146097 + doe - 719468
  {
    DayOfEraParts(doe);
    var yoe := (doe - doe / 1460 + doe / 36524 - doe / 146096) / 365;
    var doy := doe - (365 * yoe + yoe / 4 - yoe / 100);
    assert CivilOfEra(era, doe) == CivilOfYear(era, yoe, doy);
    YearRoundTrip(era, doe, yoe, doy);
  }

  /** The round trip within one March-based year of an era. */
  lemma YearRoundTrip(era: int, doe: int, yoe: int, doy: int)
    requires 0 <= yoe < 400 && 0 <= doy <= 365
    requires doy == doe - (365 * yoe + yoe / 4 - yoe / 100)
    ensures var c := CivilOfYear(era, yoe, doy);
      DaysFromCivil(c.year, c.month, c.day) == era * 146097 + doe - 719468
  {
    MonthOfDay(doy);
    var mp := (5 * doy + 2) / 153;
    DaysFromParts(era, yoe, mp, doy - (153 * mp + 2) / 5 + 1);
  }

  /** The March-based month index of a day of the year lies in 0..11. */
  lemma MonthOfDay(doy: int)
    requires 0 <= doy <= 365
    ensures 0 <= (5 * doy + 2) / 153 < 12
  {
  }

  /** Within a 400-year era, the year `yoe` the conversion computes lies in 0..399 and
      the day of the (March-based) year in 0..365. */
  lemma DayOfEraParts(doe: int)
    requires 0 <= doe < 146097
    ensures var yoe := (doe - doe / 1460 + doe / 36524 - doe / 146096) / 365;
      && 0 <= yoe < 400
      && 0 <= doe - (365 * yoe + yoe / 4 - yoe / 100) <= 365
  {
    if doe == 146096 {
      assert (doe - doe / 1460 + doe / 36524 - doe / 146096) / 365 == 399;
    } else {
      var a := doe / 36524;
      CenturyOfEra(doe, a);
      var r := doe - 36524 * a;
      var b := r / 1461;
      CycleOfCentury(r, b);
      var s := r - 1461 * b;
      var c := if s / 365 < 3 then s / 365 else 3;
      YearOfCycle(s, c);
      YearOfEra(doe, a, b, c, s - 365 * c);
    }
  }

  lemma CenturyOfEra(doe: int, a: int)
    requires 0 <= doe < 146096 && a == doe / 36524
    ensures 0 <= a <= 3 && 0 <= doe - 36524 * a < 36524
  {
  }

  lemma CycleOfCentury(r: int, b: int)
    requires 0 <= r < 36524 && b == r / 1461
    ensures 0 <= b <= 24 && 0 <= r - 1461 * b < 1461
    ensures b == 24 ==> r - 1461 * b < 1460
  {
  }

  lemma YearOfCycle(s: int, c: int)
    requires 0 <= s < 1461 && c == if s / 365 < 3 then s / 365 else 3
    ensures 0 <= c <= 3 && 0 <= s - 365 * c
    ensures c < 3 ==> s - 365 * c < 365
    ensures c == 3 ==> s - 365 * c <= 365
  {
  }

  /** A day of the era written as centuries `a`, four-year cycles `b`, years `c` and days
      `t` (the only 366-day years end a cycle that does not end a century): the
      conversion finds year 100a + 4b + c and day t. */
  lemma YearOfEra(doe: int, a: int, b: int, c: int, t: int)
    requires 0 <= a <= 3 && 0 <= b <= 24 && 0 <= c <= 3 && 0 <= t
    requires c < 3 ==> t < 365
    requires c == 3 ==> t <= 365
    requires b == 24 && c == 3 ==> t < 365
    requires doe == 36524 * a + 1461 * b + 365 * c + t
    ensures var y := 100 * a + 4 * b + c;
      && (doe - doe / 1460 + doe / 36524 - doe / 146096) / 365 == y
      && doe - (365 * y + y / 4 - y / 100) == t
  {
    var e := if 24 * a + b + 365 * c + t >= 1460 then 1 else 0;
    EraQuotients(doe, a, b, c, t, e);
    YearQuotient(100 * a + 4 * b + c, t - e);
    LeapQuotients(a, b, c);
  }

  /** The divisions by the 4-year, 100-year and 400-year lengths of such a day. */
  lemma EraQuotients(doe: int, a: int, b: int, c: int, t: int, e: int)
    requires 0 <= a <= 3 && 0 <= b <= 24 && 0 <= c <= 3 && 0 <= t
    requires c < 3 ==> t < 365
    requires c == 3 ==> t <= 365
    requires b == 24 && c == 3 ==> t < 365
    requires e == if 24 * a + b + 365 * c + t >= 1460 then 1 else 0
    requires doe == 36524 * a + 1461 * b + 365 * c + t
    ensures doe / 36524 == a && doe / 146096 == 0 && doe / 1460 == 25 * a + b + e
      && 0 <= t - e < 365
  {
  }

  lemma YearQuotient(y: int, r: int)
    requires 0 <= r < 365
    ensures (365 * y + r) / 365 == y
  {
  }

  lemma LeapQuotients(a: int, b: int, c: int)
    requires 0 <= b <= 24 && 0 <= c <= 3
    ensures (100 * a + 4 * b + c) / 4 == 25 * a + b && (100 * a + 4 * b + c) / 100 == a
  {
  }

  /** `DaysFromCivil` on a date given by its era, year of era, March-based month index and
      day: the era's days, the year's days and the month's days. */
  lemma DaysFromParts(era: int, yoe: int, mp: int, d: int)
    requires 0 <= yoe < 400 && 0 <= mp < 12
    ensures var m := if mp < 10 then mp + 3 else mp - 9;
      var y := yoe + era * 400 + (if m <= 2 then 1 else 0);
      DaysFromCivil(y, m, d) == era * 146097 + (yoe * 365 + yoe / 4 - yoe / 100 + ((153 * mp + 2) / 5 + d - 1)) - 719468
  {
    var y := yoe + era * 400;
    assert y / 400 == era && y - era * 400 == yoe;
  }

  /** ECMAScript's MakeDay: a month index outside 0..11 carries into the year and a day
      of month past the month's end carries into the next month, as `setMonth` and
      `setFullYear` do. */
  function MakeDay(year: int, monthIndex: int, date: int): int {
    DaysFromCivil(year + monthIndex / 12, monthIndex % 12 + 1, 1) + date - 1
  }

  /** Twelve more months are one more year. */
  lemma MakeDayCarry(year: int, monthIndex: int, date: int)
    ensures MakeDay(year, monthIndex + 12, date) == MakeDay(year + 1, monthIndex, date)
  {
    assert year + (monthIndex + 12) / 12 == year + 1 + monthIndex / 12;
    assert (monthIndex + 12) % 12 == monthIndex % 12;
  }

  /** `'YYYY-MM'` month key of a day, as the number year * 12 + (month - 1); for four-digit
      years its order is the order of the key strings. */
  function MonthKey(day: int): int {
    var c := CivilFromDays(day);
    c.year * 12 + (c.month - 1)
  }

  /** Two days share a month key exactly when they fall in the same calendar year and
      month, so the monthly buckets are the calendar months. */
  lemma SameMonthKey(a: int, b: int)
    ensures MonthKey(a) == MonthKey(b) <==>
      CivilFromDays(a).year == CivilFromDays(b).year && CivilFromDays(a).month == CivilFromDays(b).month
  {
    var ca, cb := CivilFromDays(a), CivilFromDays(b);
    if MonthKey(a) == MonthKey(b) {
      MonthKeyParts(ca.year, ca.month, cb.year, cb.month);
    }
  }

  /** Month keys order months as their (year, month) pairs are ordered, the order of the
      `'YYYY-MM'` strings for four-digit years. */
  lemma MonthKeyOrder(a: int, b: int)
    ensures MonthKey(a) < MonthKey(b) <==>
      CivilFromDays(a).year < CivilFromDays(b).year
      || (CivilFromDays(a).year == CivilFromDays(b).year && CivilFromDays(a).month < CivilFromDays(b).month)
  {
    var ca, cb := CivilFromDays(a), CivilFromDays(b);
    assert MonthKey(b) - MonthKey(a) == (cb.year - ca.year) * 12 + (cb.month - ca.month);
  }

  lemma MonthKeyParts(y1: int, m1: int, y2: int, m2: int)
    requires 1 <= m1 <= 12 && 1 <= m2 <= 12
    requires y1 * 12 + (m1 - 1) == y2 * 12 + (m2 - 1)
    ensures y1 == y2 && m1 == m2
  {
    assert (y1 - y2) * 12 == m2 - m1;
  }
}
