/** The proleptic Gregorian UTC calendar of ECMA-262 section 21.4.1, for instants
    from 1970 onward. A day is counted from 1970-01-01 and a month from 0. */
module Calendar {

  const DAY_MS := 86_400_000
  const HOUR_MS := 3_600_000
  const MINUTE_MS := 60_000

  predicate IsLeap(y: int) {
    y % 4 == 0 && (y % 100 != 0 || y % 400 == 0)
  }

  function YearLength(y: int): (n: int)
    ensures 365 <= n <= 366
  {
    if IsLeap(y) then 366 else 365
  }

  // The number of the first day of year y.
  function DayFromYear(y: int): (d: int)
    ensures 0 <= d
    decreases y
  {
    if y <= 1970 then 0 else DayFromYear(y - 1) + YearLength(y - 1)
  }

  lemma YearStep(y: int)
    requires 1970 <= y
    ensures DayFromYear(y + 1) == DayFromYear(y) + YearLength(y)
  {
  }

  lemma FloorStep4(y: int)
    ensures (y + 1 - 1969) / 4 == (y - 1969) / 4 + if y % 4 == 0 then 1 else 0
  {
    var q, r := y / 4, y % 4;
    assert y - 1968 == 4 * (q - 492) + r;
  }

  lemma FloorStep100(y: int)
    ensures (y + 1 - 1901) / 100 == (y - 1901) / 100 + if y % 100 == 0 then 1 else 0
  {
    var q, r := y / 100, y % 100;
    assert y - 1900 == 100 * (q - 19) + r;
  }

  lemma FloorStep400(y: int)
    ensures (y + 1 - 1601) / 400 == (y - 1601) / 400 + if y % 400 == 0 then 1 else 0
  {
    var q, r := y / 400, y % 400;
    assert y - 1600 == 400 * (q - 4) + r;
  }

  lemma CenturyRule(y: int)
    ensures y % 400 == 0 ==> y % 100 == 0
    ensures y % 100 == 0 ==> y % 4 == 0
  {
  }

  // The closed form of section 21.4.1.3 of ECMA-262.
  function DayFromYearEcma(y: int): int {
    365 * (y - 1970) + (y - 1969) / 4 - (y - 1901) / 100 + (y - 1601) / 400
  }

  lemma EcmaStep(y: int)
    ensures DayFromYearEcma(y + 1) == DayFromYearEcma(y) + YearLength(y)
  {
    FloorStep4(y);
    FloorStep100(y);
    FloorStep400(y);
    CenturyRule(y);
  }

  lemma {:induction false} DayFromYearClosedForm(y: int)
    requires 1970 <= y
    ensures DayFromYear(y) == DayFromYearEcma(y)
    decreases y
  {
    if y > 1970 {
      DayFromYearClosedForm(y - 1);
      EcmaStep(y - 1);
    }
  }

  lemma YearsApart(y: int, z: int)
    requires 1970 <= y <= z
    ensures 365 * (z - y) <= DayFromYear(z) - DayFromYear(y) <= 366 * (z - y)
    decreases z - y
  {
    if y < z {
      YearStep(z - 1);
      YearsApart(y, z - 1);
    }
  }

  // The year of day d, searched upward from y.
  function YearFrom(d: nat, y: int): (r: int)
    requires 1970 <= y && DayFromYear(y) <= d
    ensures y <= r && DayFromYear(r) <= d < DayFromYear(r + 1)
    decreases d - DayFromYear(y)
  {
    YearStep(y);
    if d < DayFromYear(y + 1) then y else YearFrom(d, y + 1)
  }

  function YearOf(d: nat): (r: int)
    ensures 1970 <= r && DayFromYear(r) <= d < DayFromYear(r + 1)
  {
    YearFrom(d, 1970)
  }

  lemma YearUnique(d: nat, y: int)
    requires 1970 <= y && DayFromYear(y) <= d < DayFromYear(y + 1)
    ensures YearOf(d) == y
  {
    var r := YearOf(d);
    if r < y {
      YearsApart(r + 1, y);
    } else if y < r {
      YearsApart(y + 1, r);
    }
  }

  // Days of a year before its month m (m == 12 gives the whole year).
  function DaysBefore(leap: bool, m: int): int
    requires 0 <= m <= 12
  {
    if m == 0 then 0
    else if m == 1 then 31
    else (if leap then 1 else 0)
         + if m == 2 then 59 else if m == 3 then 90 else if m == 4 then 120 else if m == 5 then 151
           else if m == 6 then 181 else if m == 7 then 212 else if m == 8 then 243 else if m == 9 then 273
           else if m == 10 then 304 else if m == 11 then 334 else 365
  }

  function DaysInMonth(y: int, m: int): (n: int)
    requires 0 <= m < 12
    ensures 28 <= n <= 31
    ensures m != 1 ==> 30 <= n
    ensures m == 1 ==> n == if IsLeap(y) then 29 else 28
  {
    DaysBefore(IsLeap(y), m + 1) - DaysBefore(IsLeap(y), m)
  }

  // Day number of the dt-th day of month m of year y, where m may overflow into later years.
  function MakeDay(y: int, m: int, dt: int): int {
    var ym := y + m / 12;
    DayFromYear(ym) + DaysBefore(IsLeap(ym), m % 12) + dt - 1
  }

  function MonthOf(d: nat): (m: int)
    ensures 0 <= m < 12
    ensures var y := YearOf(d);
            DaysBefore(IsLeap(y), m) <= d - DayFromYear(y) < DaysBefore(IsLeap(y), m + 1)
  {
    var y := YearOf(d);
    var n := d - DayFromYear(y);
    var leap := IsLeap(y);
    YearStep(y);
    if n < DaysBefore(leap, 1) then 0
    else if n < DaysBefore(leap, 2) then 1
    else if n < DaysBefore(leap, 3) then 2
    else if n < DaysBefore(leap, 4) then 3
    else if n < DaysBefore(leap, 5) then 4
    else if n < DaysBefore(leap, 6) then 5
    else if n < DaysBefore(leap, 7) then 6
    else if n < DaysBefore(leap, 8) then 7
    else if n < DaysBefore(leap, 9) then 8
    else if n < DaysBefore(leap, 10) then 9
    else if n < DaysBefore(leap, 11) then 10
    else 11
  }

  function DateOf(d: nat): (dt: int)
    ensures 1 <= dt <= DaysInMonth(YearOf(d), MonthOf(d))
  {
    d - DayFromYear(YearOf(d)) - DaysBefore(IsLeap(YearOf(d)), MonthOf(d)) + 1
  }

  function WeekdayOf(d: nat): (w: int)
    ensures 0 <= w < 7
  {
    (d + 4) % 7
  }

  lemma DaysBeforeMonotone(leap: bool, m: int, n: int)
    requires 0 <= m <= n <= 12
    ensures DaysBefore(leap, m) <= DaysBefore(leap, n)
  {
  }

  /** Civil dates and day numbers correspond one to one, in both directions. */
  lemma CivilRoundTrip(y: int, m: int, dt: int)
    requires 1970 <= y && 0 <= m < 12 && 1 <= dt <= DaysInMonth(y, m)
    ensures var d := MakeDay(y, m, dt);
            0 <= d && YearOf(d) == y && MonthOf(d) == m && DateOf(d) == dt
  {
    var d := MakeDay(y, m, dt);
    YearsApart(1970, y);
    YearStep(y);
    DaysBeforeMonotone(IsLeap(y), m + 1, 12);
    YearUnique(d, y);
    var r := MonthOf(d);
    if r < m {
      DaysBeforeMonotone(IsLeap(y), r + 1, m);
    } else if m < r {
      DaysBeforeMonotone(IsLeap(y), m + 1, r);
    }
  }

  lemma DayRoundTrip(d: nat)
    ensures MakeDay(YearOf(d), MonthOf(d), DateOf(d)) == d
  {
  }

  /** Day numbers are ordered as their dates are: by year, then month, then day of month. */
  lemma CivilOrder(d: nat, e: nat)
    requires d <= e
    ensures YearOf(d) <= YearOf(e)
    ensures YearOf(d) == YearOf(e) ==> MonthOf(d) <= MonthOf(e)
    ensures YearOf(d) == YearOf(e) && MonthOf(d) == MonthOf(e) ==> DateOf(e) - DateOf(d) == e - d
  {
    var y, z := YearOf(d), YearOf(e);
    if z < y {
      YearsApart(z + 1, y);
    } else if y == z && MonthOf(e) < MonthOf(d) {
      DaysBeforeMonotone(IsLeap(y), MonthOf(e) + 1, MonthOf(d));
    }
  }

  // First day of the month after the one holding d.
  function NextMonth(d: nat): int {
    MakeDay(YearOf(d), MonthOf(d) + 1, 1)
  }

  lemma NextMonthInYear(d: nat)
    requires MonthOf(d) < 11
    ensures d < NextMonth(d) <= d + 31 && DateOf(NextMonth(d)) == 1
    ensures YearOf(NextMonth(d)) == YearOf(d) && MonthOf(NextMonth(d)) == MonthOf(d) + 1
  {
    var y, m := YearOf(d), MonthOf(d);
    CivilRoundTrip(y, m + 1, 1);
    assert NextMonth(d) == d - DateOf(d) + DaysInMonth(y, m) + 1;
  }

  lemma NextMonthAfterDecember(d: nat)
    requires MonthOf(d) == 11
    ensures d < NextMonth(d) <= d + 31 && DateOf(NextMonth(d)) == 1
    ensures YearOf(NextMonth(d)) == YearOf(d) + 1 && MonthOf(NextMonth(d)) == 0
  {
    var y := YearOf(d);
    YearStep(y);
    CivilRoundTrip(y + 1, 0, 1);
    assert 12 / 12 == 1 && 12 % 12 == 0;
    assert NextMonth(d) == MakeDay(y + 1, 0, 1);
  }

  lemma NextMonthStart(d: nat)
    ensures d < NextMonth(d) <= d + 31 && DateOf(NextMonth(d)) == 1
    ensures MonthOf(d) < 11 ==> YearOf(NextMonth(d)) == YearOf(d) && MonthOf(NextMonth(d)) == MonthOf(d) + 1
    ensures MonthOf(d) == 11 ==> YearOf(NextMonth(d)) == YearOf(d) + 1 && MonthOf(NextMonth(d)) == 0
  {
    if MonthOf(d) < 11 {
      NextMonthInYear(d);
    } else {
      NextMonthAfterDecember(d);
    }
  }

  lemma SameMonth(d: nat, e: nat)
    requires d <= e < NextMonth(d)
    ensures YearOf(e) == YearOf(d) && MonthOf(e) == MonthOf(d) && DateOf(e) == DateOf(d) + (e - d)
  {
    var y, m, dt := YearOf(d), MonthOf(d), DateOf(d) + (e - d);
    if m == 11 {
      assert (m + 1) / 12 == 1 && (m + 1) % 12 == 0;
      YearStep(y);
    }
    assert dt <= DaysInMonth(y, m);
    CivilRoundTrip(y, m, dt);
    assert MakeDay(y, m, dt) == e;
  }

  // ---- the Gregorian calendar without tables ----

  /** How long month m of year y is. */
  function MonthLength(y: int, m: int): int {
    if m == 1 then if y % 4 == 0 && (y % 100 != 0 || y % 400 == 0) then 29 else 28
    else if m == 3 || m == 5 || m == 8 || m == 10 then 30
    else 31
  }

  /** Days since 1970-01-01 in closed form: years that begin in March, in which month k begins on
      day (153 * k + 2) / 5. */
  function CivilDay(y: int, m: int, dt: int): int {
    var z := if m >= 2 then y else y - 1;
    365 * z + z / 4 - z / 100 + z / 400 + (153 * ((m + 10) % 12) + 2) / 5 + dt - 719469
  }

  /** The day of the week in closed form, 0 for Sunday. */
  function GregorianWeekday(y: int, m: int, dt: int): int {
    var z := if m >= 2 then y else y - 1;
    (z + z / 4 - z / 100 + z / 400 + (153 * ((m + 10) % 12) + 2) / 5 + dt + 2) % 7
  }

  lemma MonthsAreGregorian(y: int, m: int)
    requires 0 <= m < 12
    ensures DaysInMonth(y, m) == MonthLength(y, m)
    ensures m >= 2 ==> DaysBefore(IsLeap(y), m) == 59 + (153 * (m - 2) + 2) / 5 + if IsLeap(y) then 1 else 0
  {
  }

  lemma MarchYears(y: int)
    ensures DayFromYearEcma(y) == 365 * (y - 1) + (y - 1) / 4 - (y - 1) / 100 + (y - 1) / 400 - 719162
  {
    assert (y - 1969) / 4 == (y - 1) / 4 - 492;
    assert (y - 1901) / 100 == (y - 1) / 100 - 19;
    assert (y - 1601) / 400 == (y - 1) / 400 - 4;
  }

  /** Every day has the number, the month length and the weekday of the Gregorian calendar. */
  lemma DaysAreGregorian(y: int, m: int, dt: int)
    requires 1970 <= y && 0 <= m < 12 && 1 <= dt <= MonthLength(y, m)
    ensures var d := MakeDay(y, m, dt);
            && d == CivilDay(y, m, dt) && 0 <= d && YearOf(d) == y && MonthOf(d) == m && DateOf(d) == dt
            && WeekdayOf(d) == GregorianWeekday(y, m, dt)
  {
    MonthsAreGregorian(y, m);
    CivilRoundTrip(y, m, dt);
    if m < 2 {
      EarlyMonth(y, m, dt);
    } else {
      LateMonth(y, m, dt);
    }
    hide *;
    WeekdayOfDays(y, m, dt);
    WeekdayOfDay(MakeDay(y, m, dt));
  }

  lemma WeekdayOfDay(d: nat)
    ensures WeekdayOf(d) == (d + 4) % 7
  {
  }

  lemma EarlyMonth(y: int, m: int, dt: int)
    requires 1970 <= y && 0 <= m < 2
    ensures MakeDay(y, m, dt) == CivilDay(y, m, dt)
  {
    DayFromYearClosedForm(y);
    MarchYears(y);
    hide DayFromYear, IsLeap, DayFromYearEcma;
    assert m / 12 == 0 && m % 12 == m;
  }

  lemma LateMonth(y: int, m: int, dt: int)
    requires 1970 <= y && 2 <= m < 12
    ensures MakeDay(y, m, dt) == CivilDay(y, m, dt)
  {
    MonthsAreGregorian(y, m);
    DayFromYearClosedForm(y);
    EcmaStep(y);
    MarchYears(y + 1);
    hide DayFromYear, IsLeap, DayFromYearEcma, DaysBefore;
    assert m / 12 == 0 && m % 12 == m && (m + 10) % 12 == m - 2;
  }

  lemma WeekdayOfDays(y: int, m: int, dt: int)
    ensures (CivilDay(y, m, dt) + 4) % 7 == GregorianWeekday(y, m, dt)
  {
    var z := if m >= 2 then y else y - 1;
    var w := z + z / 4 - z / 100 + z / 400 + (153 * ((m + 10) % 12) + 2) / 5 + dt + 2;
    assert CivilDay(y, m, dt) + 4 == 7 * (52 * z - 102781) + w;
    ModSeven(52 * z - 102781, w);
  }

  lemma ModSeven(k: int, w: int)
    ensures (7 * k + w) % 7 == w % 7
  {
  }

  // ---- instants, in milliseconds since 1970-01-01T00:00Z ----

  function DayOf(t: nat): nat { t / DAY_MS }

  function HourOf(t: nat): (h: int)
    ensures 0 <= h < 24
  {
    t % DAY_MS / HOUR_MS
  }

  function MinuteOf(t: nat): (m: int)
    ensures 0 <= m < 60
  {
    t % HOUR_MS / MINUTE_MS
  }

  function MakeTime(d: nat, h: int, m: int): (t: nat)
    requires 0 <= h < 24 && 0 <= m < 60
  {
    d * DAY_MS + h * HOUR_MS + m * MINUTE_MS
  }

  lemma Midnight(d: nat)
    ensures DayOf(d * DAY_MS) == d && d * DAY_MS % MINUTE_MS == 0
  {
    assert d * DAY_MS == (1440 * d) * MINUTE_MS;
  }

  lemma TimeRoundTrip(d: nat, h: int, m: int)
    requires 0 <= h < 24 && 0 <= m < 60
    ensures var t := MakeTime(d, h, m);
            DayOf(t) == d && HourOf(t) == h && MinuteOf(t) == m && t % MINUTE_MS == 0
  {
    var t := MakeTime(d, h, m);
    assert t / DAY_MS == d && t % DAY_MS == h * HOUR_MS + m * MINUTE_MS;
    assert t == (24 * d + h) * HOUR_MS + m * MINUTE_MS;
    assert t % HOUR_MS == m * MINUTE_MS;
    assert t == (1440 * d + 60 * h + m) * MINUTE_MS;
  }

  /** An instant is its day, hour and minute, and what is left of the minute. */
  lemma InstantRoundTrip(t: nat)
    ensures MakeTime(DayOf(t), HourOf(t), MinuteOf(t)) + t % MINUTE_MS == t
  {
    var q, r := t / HOUR_MS, t % HOUR_MS;
    var a, b := q / 24, q % 24;
    assert t == a * DAY_MS + (b * HOUR_MS + r);
    assert DayOf(t) == a && t % DAY_MS == b * HOUR_MS + r;
    assert HourOf(t) == b;
    assert t == (60 * q) * MINUTE_MS + r;
    assert t % MINUTE_MS == r % MINUTE_MS;
  }
}
