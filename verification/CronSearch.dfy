/** nextOccurrence of packages/automation/src/cron.ts: a scan over days that jumps
    over unwanted months, with a cap on its number of iterations. */
module CronSearch {
  import opened Calendar
  import opened CronSchedule
  import opened Wrappers

  const CRON_SCAN_HORIZON_DAYS := 366 * 4 + 1

  // The hours or minutes tried for a field: the whole tail of the range for a star.
  function Candidates(f: Field, low: int, high: int): (r: seq<int>)
    requires low <= high + 1
    ensures f.any ==> |r| == high + 1 - low && forall i :: 0 <= i < |r| ==> r[i] == low + i
    ensures !f.any ==> r == f.values
  {
    if f.any then seq(high + 1 - low, i => low + i) else f.values
  }

  // A matching value below candidate number i is an earlier candidate or lies below the range.
  lemma EarlierCandidate(f: Field, min: int, low: int, high: int, i: nat, v: int)
    requires ValidField(f, min, high) && low <= high + 1
    requires i <= |Candidates(f, low, high)| && Matches(f, v) && v <= high
    requires i < |Candidates(f, low, high)| ==> v < Candidates(f, low, high)[i]
    ensures (f.any && v < low) || exists k :: 0 <= k < i && Candidates(f, low, high)[k] == v
  {
    var c := Candidates(f, low, high);
    if f.any {
      if low <= v {
        assert c[v - low] == v;
      }
    } else {
      var k :| 0 <= k < |c| && c[k] == v;
    }
  }

  // Nothing fires on the cursor's day at hour h from the cursor onward.
  ghost predicate DeadHour(s: Schedule, cursor: nat, h: int) {
    h < HourOf(cursor)
    || (h == HourOf(cursor) && forall m :: 0 <= m < 60 && Matches(s.minute, m) ==> m < MinuteOf(cursor))
  }

  // The scan has passed over every minute between `from` and the cursor.
  ghost predicate Scanned(s: Schedule, from: nat, cursor: nat) {
    && from < cursor && cursor % MINUTE_MS == 0
    && forall u: nat :: from < u < cursor ==> !Fires(s, u)
  }

  lemma LaterTime(a: nat, b: nat)
    requires a % MINUTE_MS == 0 && b % MINUTE_MS == 0 && DayOf(a) == DayOf(b)
    ensures a < b <==> HourOf(a) < HourOf(b) || (HourOf(a) == HourOf(b) && MinuteOf(a) < MinuteOf(b))
  {
    InstantRoundTrip(a);
    InstantRoundTrip(b);
  }

  // The first candidate of the cursor's day is its first firing minute from the cursor on.
  lemma FirstOfDay(s: Schedule, from: nat, cursor: nat, h: int, m: int)
    requires ValidSchedule(s)
    requires Scanned(s, from, cursor)
    requires DayFires(s, DayOf(cursor)) && 0 <= h < 24 && Matches(s.hour, h) && 0 <= m < 60 && Matches(s.minute, m)
    requires HourOf(cursor) <= h && (h == HourOf(cursor) ==> MinuteOf(cursor) <= m)
    requires forall k :: 0 <= k < h && Matches(s.hour, k) ==> DeadHour(s, cursor, k)
    requires forall k :: 0 <= k < m && Matches(s.minute, k) ==> h == HourOf(cursor) && k < MinuteOf(cursor)
    ensures IsNextAfter(s, from, MakeTime(DayOf(cursor), h, m))
  {
    var t := MakeTime(DayOf(cursor), h, m);
    TimeRoundTrip(DayOf(cursor), h, m);
    LaterTime(t, cursor);
    forall u: nat | from < u < t
      ensures !Fires(s, u)
    {
      if cursor <= u && Fires(s, u) {
        assert DayOf(u) == DayOf(cursor);
        LaterTime(u, t);
        LaterTime(u, cursor);
      }
    }
  }

  // A day whose every candidate hour is dead fires no more after the cursor.
  lemma DayExhausted(s: Schedule, from: nat, cursor: nat)
    requires Scanned(s, from, cursor)
    requires !DayFires(s, DayOf(cursor)) || forall k :: 0 <= k < 24 && Matches(s.hour, k) ==> DeadHour(s, cursor, k)
    ensures Scanned(s, from, (DayOf(cursor) + 1) * DAY_MS)
  {
    Midnight(DayOf(cursor) + 1);
    forall u: nat | from < u < (DayOf(cursor) + 1) * DAY_MS
      ensures !Fires(s, u)
    {
      if cursor <= u && Fires(s, u) {
        assert DayOf(u) == DayOf(cursor);
        LaterTime(u, cursor);
      }
    }
  }

  // No minute fires before the first of the next month when the month does not match.
  lemma MonthExhausted(s: Schedule, from: nat, cursor: nat)
    requires Scanned(s, from, cursor)
    requires !Matches(s.month, MonthOf(DayOf(cursor)) + 1)
    ensures 0 <= NextMonth(DayOf(cursor)) && Scanned(s, from, NextMonth(DayOf(cursor)) * DAY_MS)
  {
    NextMonthStart(DayOf(cursor));
    Midnight(NextMonth(DayOf(cursor)));
    forall u: nat | from < u < NextMonth(DayOf(cursor)) * DAY_MS
      ensures !Fires(s, u)
    {
      if cursor <= u {
        assert DayOf(cursor) <= DayOf(u) < NextMonth(DayOf(cursor));
        SameMonth(DayOf(cursor), DayOf(u));
      }
    }
  }

  /** How far iteration `count` has carried the cursor beyond day `start`. */
  ghost predicate Progress(s: Schedule, start: nat, cursor: nat, count: nat) {
    && start + count <= DayOf(cursor)
    && (OnlyFebruary(s) ==> FebruaryClock(start) + count <= FebruaryClock(DayOf(cursor)))
  }

  // A firing of the schedule, at t, forces one into the range of a scan that used up its iterations.
  lemma FiringWithinHorizon(s: Schedule, from: nat, start: nat, cursor: nat, t: nat) returns (u: nat)
    requires ValidSchedule(s) && Fires(s, t)
    requires from < (start + 1) * DAY_MS
    requires Progress(s, start, cursor, CRON_SCAN_HORIZON_DAYS)
    ensures from < u < cursor && Fires(s, u)
  {
    var d := FiresAgain(s, DayOf(t), start);
    u := MakeTime(d, HourOf(t), MinuteOf(t));
    TimeRoundTrip(d, HourOf(t), MinuteOf(t));
    if DayOf(cursor) <= d {
      FebruaryClockMonotone(DayOf(cursor), d);
    }
    assert start < d < DayOf(cursor);
  }

  lemma HorizonSuffices(s: Schedule, from: nat, start: nat, cursor: nat)
    requires ValidSchedule(s)
    requires from < (start + 1) * DAY_MS
    requires Progress(s, start, cursor, CRON_SCAN_HORIZON_DAYS)
    requires Scanned(s, from, cursor)
    ensures NeverFires(s)
  {
    forall t: nat
      ensures !Fires(s, t)
    {
      if Fires(s, t) {
        var u := FiringWithinHorizon(s, from, start, cursor, t);
      }
    }
  }

  // The day a scan moves to from day d.
  function NextScanned(s: Schedule, d: nat): int {
    if Matches(s.month, MonthOf(d) + 1) then d + 1 else NextMonth(d)
  }

  lemma ScanAdvances(s: Schedule, d: nat)
    ensures d < NextScanned(s, d)
    ensures OnlyFebruary(s) ==> FebruaryClock(d) < FebruaryClock(NextScanned(s, d))
  {
    NextMonthStart(d);
    if OnlyFebruary(s) {
      if MonthOf(d) != 1 {
        assert !Matches(s.month, MonthOf(d) + 1);
        FebruaryClockJump(d);
      } else {
        FebruaryClockDay(d);
        FebruaryClockMonotone(d + 1, NextScanned(s, d));
      }
    }
  }

  lemma Advance(s: Schedule, start: nat, cursor: nat, count: nat)
    requires Progress(s, start, cursor, count)
    ensures var next := NextScanned(s, DayOf(cursor));
            0 <= next
            && Progress(s, start, next * DAY_MS, count + 1)
            && next * DAY_MS % MINUTE_MS == 0 && cursor < next * DAY_MS
  {
    ScanAdvances(s, DayOf(cursor));
    var next := NextScanned(s, DayOf(cursor));
    Midnight(next);
    assert cursor < (DayOf(cursor) + 1) * DAY_MS;
  }

  function NextMinute(from: nat): nat {
    from / MINUTE_MS * MINUTE_MS + MINUTE_MS
  }

  lemma ScanStart(s: Schedule, from: nat)
    ensures var cursor := NextMinute(from);
            && Scanned(s, from, cursor)
            && Progress(s, DayOf(cursor), cursor, 0)
            && from < (DayOf(cursor) + 1) * DAY_MS
  {
    var cursor := NextMinute(from);
    forall u: nat | from < u < cursor
      ensures u % MINUTE_MS != 0
    {
      assert from / MINUTE_MS * MINUTE_MS <= from < u < from / MINUTE_MS * MINUTE_MS + MINUTE_MS;
    }
  }

  /** The first firing minute strictly after `from`; None exactly when no minute ever
      fires, so the cap of 1465 iterations never hides a firing. */
  method NextOccurrence(s: Schedule, from: nat) returns (r: Option<nat>)
    requires ValidSchedule(s)
    ensures r.Some? ==> IsNextAfter(s, from, r.value)
    ensures r.None? <==> NeverFires(s)
  {
    var cursor := NextMinute(from);
    ghost var start := DayOf(cursor);
    ScanStart(s, from);
    var day := 0;
    while day < CRON_SCAN_HORIZON_DAYS
      invariant 0 <= day <= CRON_SCAN_HORIZON_DAYS
      invariant Scanned(s, from, cursor)
      invariant Progress(s, start, cursor, day)
    {
      r, cursor := ScanStep(s, from, start, cursor, day);
      if r.Some? {
        return;
      }
      day := day + 1;
    }
    HorizonSuffices(s, from, start, cursor);
    r := None;
  }

  /** One iteration of the scan: a hit, or the cursor moved to a later midnight. */
  method ScanStep(s: Schedule, ghost from: nat, ghost start: nat, cursor: nat, ghost day: nat)
      returns (r: Option<nat>, next: nat)
    requires ValidSchedule(s)
    requires Scanned(s, from, cursor) && Progress(s, start, cursor, day)
    ensures r.Some? ==> IsNextAfter(s, from, r.value)
    ensures r.None? ==> Scanned(s, from, next) && Progress(s, start, next, day + 1)
  {
    var d := DayOf(cursor);
    r, next := None, cursor;
    Advance(s, start, cursor, day);
    if !Matches(s.month, MonthOf(d) + 1) {
      MonthExhausted(s, from, cursor);
      next := NextMonth(d) * DAY_MS;
      return;
    }
    // DateOf(d) never exceeds DaysInMonth, so the guard of cron.ts line 137 is not taken.
    if DayRule(s, DateOf(d), WeekdayOf(d)) {
      r := FirstInDay(s, from, cursor);
    }
    if r.None? {
      DayExhausted(s, from, cursor);
      next := (d + 1) * DAY_MS;
    }
  }

  /** The hour and minute loops over one matching day. */
  method FirstInDay(s: Schedule, ghost from: nat, cursor: nat) returns (r: Option<nat>)
    requires ValidSchedule(s)
    requires Scanned(s, from, cursor)
    requires DayFires(s, DayOf(cursor))
    ensures r.Some? ==> IsNextAfter(s, from, r.value)
    ensures r.None? ==> forall k :: 0 <= k < 24 && Matches(s.hour, k) ==> DeadHour(s, cursor, k)
  {
    var ch, cm := HourOf(cursor), MinuteOf(cursor);
    var hours := Candidates(s.hour, ch, 23);
    var i := 0;
    while i < |hours|
      invariant 0 <= i <= |hours|
      invariant forall k :: 0 <= k < i ==> DeadHour(s, cursor, hours[k])
    {
      var h := hours[i];
      assert s.hour.any || h in s.hour.values;
      if ch <= h {
        var minutes := Candidates(s.minute, if h == ch then cm else 0, 59);
        var j := 0;
        while j < |minutes|
          invariant 0 <= j <= |minutes|
          invariant 0 < j ==> h == ch
          invariant forall k :: 0 <= k < j ==> minutes[k] < cm
        {
          var m := minutes[j];
          assert s.minute.any || m in s.minute.values;
          if !(h == ch && m < cm) {
            // The candidate is never before the cursor, so line 154's test always passes.
            forall k | 0 <= k < h && Matches(s.hour, k)
              ensures DeadHour(s, cursor, k)
            {
              EarlierCandidate(s.hour, 0, ch, 23, i, k);
            }
            forall k | 0 <= k < m && Matches(s.minute, k)
              ensures h == ch && k < cm
            {
              EarlierCandidate(s.minute, 0, if h == ch then cm else 0, 59, j, k);
            }
            FirstOfDay(s, from, cursor, h, m);
            return Some(MakeTime(DayOf(cursor), h, m));
          }
          j := j + 1;
        }
        forall k | 0 <= k < 60 && Matches(s.minute, k)
          ensures h == ch && k < cm
        {
          EarlierCandidate(s.minute, 0, if h == ch then cm else 0, 59, j, k);
        }
        assert |minutes| > 0;
        assert h == ch && minutes[0] < cm;
      }
      i := i + 1;
    }
    forall k | 0 <= k < 24 && Matches(s.hour, k)
      ensures DeadHour(s, cursor, k)
    {
      EarlierCandidate(s.hour, 0, ch, 23, i, k);
    }
    r := None;
  }
}
