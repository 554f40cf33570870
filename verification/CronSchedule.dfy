/** What a parsed cron schedule means: the minutes at which it fires, and how far
    ahead of any day the next firing day can lie. */
module CronSchedule {
  import opened Calendar

  /** `any` is the bare star; otherwise `values` lists the matching numbers. */
  datatype Field = Field(any: bool, values: seq<int>)

  datatype Schedule = Schedule(minute: Field, hour: Field, dayOfMonth: Field, month: Field, dayOfWeek: Field)

  predicate Ascending(s: seq<int>) {
    forall i, j :: 0 <= i < j < |s| ==> s[i] < s[j]
  }

  // A field as the parser leaves it: the star, or distinct ascending numbers in range, at least one.
  predicate ValidField(f: Field, min: int, max: int) {
    !f.any ==> |f.values| > 0 && Ascending(f.values) && forall v :: v in f.values ==> min <= v <= max
  }

  predicate ValidSchedule(s: Schedule) {
    && ValidField(s.minute, 0, 59)
    && ValidField(s.hour, 0, 23)
    && ValidField(s.dayOfMonth, 1, 31)
    && ValidField(s.month, 1, 12)
    && ValidField(s.dayOfWeek, 0, 6)
  }

  predicate Matches(f: Field, v: int) {
    f.any || v in f.values
  }

  /** The day rule of POSIX crontab: when both day fields are restricted, either one suffices. */
  predicate DayRule(s: Schedule, date: int, weekday: int) {
    if !s.dayOfMonth.any && !s.dayOfWeek.any
    then date in s.dayOfMonth.values || weekday in s.dayOfWeek.values
    else Matches(s.dayOfMonth, date) && Matches(s.dayOfWeek, weekday)
  }

  predicate DayFires(s: Schedule, d: nat) {
    Matches(s.month, MonthOf(d) + 1) && DayRule(s, DateOf(d), WeekdayOf(d))
  }

  predicate Fires(s: Schedule, t: nat) {
    && t % MINUTE_MS == 0
    && DayFires(s, DayOf(t))
    && Matches(s.hour, HourOf(t))
    && Matches(s.minute, MinuteOf(t))
  }

  ghost predicate NeverFires(s: Schedule) {
    forall t: nat :: !Fires(s, t)
  }

  /** t is the first firing minute strictly after `from`. */
  ghost predicate IsNextAfter(s: Schedule, from: nat, t: nat) {
    from < t && Fires(s, t) && forall u: nat :: from < u < t ==> !Fires(s, u)
  }

  predicate OnlyFebruary(s: Schedule) {
    forall v :: 1 <= v <= 12 && Matches(s.month, v) ==> v == 2
  }

  /** A clock that advances once per month outside February and once per day inside
      it: at most 40 ticks a year. It bounds a search that skips unwanted months. */
  function FebruaryTicks(y: int, m: int, dt: int): int {
    40 * y + if m == 0 then 0 else if m == 1 then dt else 28 + m
  }

  function FebruaryClock(d: nat): int {
    FebruaryTicks(YearOf(d), MonthOf(d), DateOf(d))
  }

  lemma FebruaryClockMonotone(d: nat, e: nat)
    requires d <= e
    ensures FebruaryClock(d) <= FebruaryClock(e)
  {
    CivilOrder(d, e);
  }

  lemma FebruaryClockJump(d: nat)
    requires MonthOf(d) != 1
    ensures 0 <= NextMonth(d) && FebruaryClock(d) < FebruaryClock(NextMonth(d))
  {
    NextMonthStart(d);
  }

  lemma FebruaryClockDay(d: nat)
    requires MonthOf(d) == 1
    ensures FebruaryClock(d) < FebruaryClock(d + 1)
  {
    NextMonthStart(d);
    if d + 1 < NextMonth(d) {
      SameMonth(d, d + 1);
    }
  }

  lemma NextLeapYear(y: int) returns (z: int)
    ensures y < z <= y + 8 && IsLeap(z)
  {
    var k := (y / 4 + 1) * 4;
    z := if IsLeap(k) then k else k + 4;
    if !IsLeap(k) {
      assert k % 100 == 0;
      assert (k + 4) % 100 == 4;
    }
  }

  const HORIZON := 1464

  /** A target day that a search starting on day `start` cannot miss. */
  predicate Reachable(s: Schedule, start: nat, d: nat) {
    && start < d
    && DayFires(s, d)
    && (d <= start + HORIZON
        || (OnlyFebruary(s) && FebruaryClock(d) <= FebruaryClock(start) + 349))
  }

  lemma DateNextYear(start: nat, m: int, dt: int) returns (d: nat)
    requires 0 <= m < 12 && 1 <= dt <= DaysInMonth(YearOf(start) + 1, m)
    ensures start < d <= start + 731
    ensures YearOf(d) == YearOf(start) + 1 && MonthOf(d) == m && DateOf(d) == dt
    ensures d == MakeDay(YearOf(start) + 1, m, dt)
  {
    var y := YearOf(start);
    CivilRoundTrip(y + 1, m, dt);
    d := MakeDay(y + 1, m, dt);
    YearsApart(y, y + 2);
  }

  lemma LeapDayNearby(start: nat, y: int) returns (d: nat)
    requires YearOf(start) < y <= YearOf(start) + 3 && IsLeap(y)
    ensures start < d <= start + HORIZON && MonthOf(d) == 1 && DateOf(d) == 29
  {
    CivilRoundTrip(y, 1, 29);
    d := MakeDay(y, 1, 29);
    YearsApart(YearOf(start), y + 1);
    YearsApart(YearOf(start) + 1, y);
  }

  lemma WeekdayInMonth(start: nat, m: int, w: int) returns (d: nat)
    requires 0 <= m < 12 && 0 <= w < 7
    ensures start < d <= start + 731 && MonthOf(d) == m && WeekdayOf(d) == w
  {
    var first := DateNextYear(start, m, 1);
    var k := (w - WeekdayOf(first)) % 7;
    d := DateNextYear(start, m, 1 + k);
    assert d == first + k;
    WeekdayAfter(first, w);
  }

  lemma WeekdayAfter(d: nat, w: int)
    requires 0 <= w < 7
    ensures WeekdayOf(d + (w - WeekdayOf(d)) % 7) == w
  {
  }

  lemma LeapDayTarget(s: Schedule, start: nat) returns (d: nat)
    requires ValidSchedule(s)
    requires Matches(s.month, 2) && !s.dayOfMonth.any && 29 in s.dayOfMonth.values
    requires forall w :: 0 <= w < 7 ==> DayRule(s, 29, w)
    ensures Reachable(s, start, d)
  {
    if !OnlyFebruary(s) {
      var v :| 1 <= v <= 12 && Matches(s.month, v) && v != 2;
      d := DateNextYear(start, v - 1, 29);
    } else {
      var y := YearOf(start);
      var z := NextLeapYear(y);
      if z <= y + 3 {
        d := LeapDayNearby(start, z);
      } else {
        CivilRoundTrip(z, 1, 29);
        d := MakeDay(z, 1, 29);
        YearsApart(y + 1, z);
        assert FebruaryClock(d) <= FebruaryClock(start) + 349;
      }
    }
  }

  /** If the schedule fires on any day at all, then after every day it fires again soon. */
  lemma FiresAgain(s: Schedule, fired: nat, start: nat) returns (d: nat)
    requires ValidSchedule(s) && DayFires(s, fired)
    ensures Reachable(s, start, d)
  {
    var m, dt, w := MonthOf(fired), DateOf(fired), WeekdayOf(fired);
    if !s.dayOfWeek.any && w in s.dayOfWeek.values {
      d := WeekdayInMonth(start, m, w);
    } else if s.dayOfMonth.any {
      d := DateNextYear(start, m, 1);
    } else if dt <= DaysInMonth(YearOf(start) + 1, m) {
      d := DateNextYear(start, m, dt);
    } else {
      assert m == 1 && dt == 29;
      d := LeapDayTarget(s, start);
    }
  }
}
