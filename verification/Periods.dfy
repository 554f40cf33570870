/** Closed report periods (packages/reporting/src/periods.ts) and due detection
    (packages/reporting/src/preferences.ts). */
module Periods {
  import opened Calendar

  datatype Kind = Daily | Weekly | Monthly | Quarterly

  /** start is inclusive, end exclusive; both are UTC midnights. */
  datatype Period = Period(start: int, end: int)

  // Previous quarters are inside the calendar from April 1970 on.
  const FIRST_INSTANT := 90 * DAY_MS

  // First day of the month holding d, moved by `offset` months.
  function MonthStart(d: nat, offset: int): int {
    MakeDay(YearOf(d), MonthOf(d) + offset, 1)
  }

  function QuarterStart(d: nat, offset: int): int {
    MakeDay(YearOf(d), MonthOf(d) / 3 * 3 + 3 * offset, 1)
  }

  // Monday of the week holding d.
  function WeekStart(d: nat): int {
    d - (WeekdayOf(d) + 6) % 7
  }

  /** The days [start, end) that a report due on day d covers. */
  function ClosedDays(kind: Kind, d: nat): (int, int) {
    match kind
    case Daily => (d - 1, d)
    case Weekly => (WeekStart(d) - 7, WeekStart(d))
    case Monthly => (MonthStart(d, -1), MonthStart(d, 0))
    case Quarterly => (QuarterStart(d, -1), QuarterStart(d, 0))
  }

  function ClosedPeriodFor(kind: Kind, now: nat): Period {
    var days := ClosedDays(kind, DayOf(now));
    Period(days.0 * DAY_MS, days.1 * DAY_MS)
  }

  // The first day after d on which the closed period changes.
  function NextBoundary(kind: Kind, d: nat): int {
    match kind
    case Daily => d + 1
    case Weekly => WeekStart(d) + 7
    case Monthly => MonthStart(d, 1)
    case Quarterly => QuarterStart(d, 1)
  }

  // What it means for the period closed on day d to be one tile of a tiling of the days.
  ghost predicate IsTile(kind: Kind, d: nat) {
    var p, next := ClosedDays(kind, d), NextBoundary(kind, d);
    && 0 <= p.0 < p.1 <= d < next
    && ClosedDays(kind, next) == (p.1, next)
    && forall e: nat :: p.1 <= e < next ==> ClosedDays(kind, e) == p && NextBoundary(kind, e) == next
  }

  lemma WeekStartFormula(d: nat)
    ensures WeekStart(d) == (d + 3) / 7 * 7 - 3
  {
    var q, r := (d + 3) / 7, (d + 3) % 7;
    assert d + 4 == 7 * q + (r + 1);
    if r < 6 {
      assert WeekdayOf(d) == r + 1;
    } else {
      assert d + 4 == 7 * (q + 1) && WeekdayOf(d) == 0;
    }
  }

  lemma WeeklyTile(d: nat)
    requires 90 <= d
    ensures IsTile(Weekly, d)
  {
    hide WeekStart;
    WeekStartFormula(d);
    WeekStartFormula(WeekStart(d) + 7);
    forall e: nat | WeekStart(d) <= e < WeekStart(d) + 7
      ensures WeekStart(e) == WeekStart(d)
    {
      WeekStartFormula(e);
    }
  }

  // ---- months counted from year 0, so that offsets are plain additions ----

  const FIRST_MONTH := 12 * 1970

  function MonthIndex(d: nat): (k: nat)
    ensures FIRST_MONTH <= k
  {
    12 * YearOf(d) + MonthOf(d)
  }

  function StartOf(k: nat): int {
    MakeDay(k / 12, k % 12, 1)
  }

  lemma MakeDayIndex(y: nat, m: int)
    requires 0 <= 12 * y + m
    ensures MakeDay(y, m, 1) == StartOf(12 * y + m)
  {
    assert (12 * y + m) / 12 == y + m / 12 && (12 * y + m) % 12 == m % 12;
    var k := 12 * y + m;
    assert k / 12 + k % 12 / 12 == k / 12;
  }

  lemma StartStep(k: nat)
    requires FIRST_MONTH <= k
    ensures 0 <= StartOf(k) < StartOf(k + 1) == NextMonth(StartOf(k)) && MonthIndex(StartOf(k)) == k
  {
    hide MakeDay, YearOf, MonthOf;
    CivilRoundTrip(k / 12, k % 12, 1);
    NextMonthStart(StartOf(k));
    MakeDayIndex(k / 12, k % 12 + 1);
  }

  lemma StartMonotone(j: nat, k: nat)
    requires FIRST_MONTH <= j <= k
    ensures 0 <= StartOf(j) <= StartOf(k) && (j < k ==> StartOf(j) < StartOf(k))
    decreases k - j
  {
    hide StartOf, MonthIndex;
    StartStep(j);
    if j < k {
      StartMonotone(j + 1, k);
    }
  }

  lemma MonthStartBefore(d: nat)
    ensures MakeDay(YearOf(d), MonthOf(d), 1) <= d < MakeDay(YearOf(d), MonthOf(d) + 1, 1)
  {
    FirstOfMonth(YearOf(d), MonthOf(d));
    hide MakeDay, IsLeap, DaysBefore;
    NextMonthStart(d);
  }

  lemma FirstOfMonth(y: int, m: int)
    requires 0 <= m < 12
    ensures MakeDay(y, m, 1) == DayFromYear(y) + DaysBefore(IsLeap(y), m)
  {
    hide DayFromYear, DaysBefore, IsLeap;
    assert m / 12 == 0 && m % 12 == m;
  }

  lemma OwnMonth(d: nat)
    ensures StartOf(MonthIndex(d)) <= d < StartOf(MonthIndex(d) + 1)
  {
    hide StartOf, MakeDay, YearOf, MonthOf;
    MakeDayIndex(YearOf(d), MonthOf(d));
    MakeDayIndex(YearOf(d), MonthOf(d) + 1);
    MonthStartBefore(d);
  }

  /** A day lies between two month starts exactly when its month index does. */
  lemma Bracket(d: nat, j: nat, k: nat)
    requires FIRST_MONTH <= j <= k
    ensures j <= MonthIndex(d) < k <==> StartOf(j) <= d < StartOf(k)
  {
    hide StartOf, MonthIndex;
    var i := MonthIndex(d);
    OwnMonth(d);
    if i < j {
      StartMonotone(i + 1, j);
    } else if i < k {
      StartMonotone(j, i);
      StartMonotone(i + 1, k);
    } else {
      StartMonotone(k, i);
    }
  }

  lemma QuarterFirst(y: nat, m: nat)
    requires m < 12
    ensures var k := 12 * y + m; 12 * y + m / 3 * 3 == k - k % 3
  {
    var t, r := m / 3, m % 3;
    ModThree(12 * y + m, 4 * y + t, r);
  }

  lemma ModThree(k: int, q: int, r: int)
    requires k == 3 * q + r && 0 <= r < 3
    ensures k % 3 == r
  {
  }

  lemma MonthDays(d: nat)
    ensures var k := MonthIndex(d);
            ClosedDays(Monthly, d) == (StartOf(k - 1), StartOf(k)) && NextBoundary(Monthly, d) == StartOf(k + 1)
  {
    hide StartOf, MakeDay, YearOf, MonthOf;
    MakeDayIndex(YearOf(d), MonthOf(d));
    MakeDayIndex(YearOf(d), MonthOf(d) - 1);
    MakeDayIndex(YearOf(d), MonthOf(d) + 1);
  }

  lemma QuarterDays(d: nat)
    ensures var k := MonthIndex(d) - MonthIndex(d) % 3;
            ClosedDays(Quarterly, d) == (StartOf(k - 3), StartOf(k)) && NextBoundary(Quarterly, d) == StartOf(k + 3)
  {
    hide StartOf, MakeDay, YearOf, MonthOf;
    var m := MonthOf(d) / 3 * 3;
    QuarterFirst(YearOf(d), MonthOf(d));
    MakeDayIndex(YearOf(d), m);
    MakeDayIndex(YearOf(d), m - 3);
    MakeDayIndex(YearOf(d), m + 3);
  }

  lemma PastFirstQuarter(d: nat)
    requires 90 <= d
    ensures FIRST_MONTH + 3 <= MonthIndex(d)
  {
    assert StartOf(FIRST_MONTH + 3) == 90;
    StartMonotone(FIRST_MONTH, FIRST_MONTH + 3);
    if MonthIndex(d) < FIRST_MONTH + 3 {
      Bracket(d, FIRST_MONTH, FIRST_MONTH + 3);
    }
  }

  // A span of n months that starts at index k forms a tile for the days in the next n months.
  lemma MonthSpan(d: nat, k: nat, n: nat)
    requires FIRST_MONTH + n <= k <= MonthIndex(d) < k + n
    ensures 0 <= StartOf(k - n) < StartOf(k) <= d < StartOf(k + n)
    ensures forall e: nat :: StartOf(k) <= e < StartOf(k + n) ==> k <= MonthIndex(e) < k + n
    ensures MonthIndex(StartOf(k + n)) == k + n
  {
    hide StartOf, MonthIndex;
    StartMonotone(k - n, k);
    StartMonotone(k, k + n);
    StartStep(k + n);
    Bracket(d, k, k + n);
    forall e: nat | StartOf(k) <= e < StartOf(k + n)
      ensures k <= MonthIndex(e) < k + n
    {
      Bracket(e, k, k + n);
    }
  }

  lemma MonthlyTile(d: nat)
    requires 90 <= d
    ensures IsTile(Monthly, d)
  {
    hide StartOf, MonthIndex, ClosedDays, NextBoundary;
    var k := MonthIndex(d);
    PastFirstQuarter(d);
    MonthSpan(d, k, 1);
    MonthDays(d);
    MonthDays(StartOf(k + 1));
    forall e: nat | StartOf(k) <= e < StartOf(k + 1)
      ensures ClosedDays(Monthly, e) == ClosedDays(Monthly, d) && NextBoundary(Monthly, e) == NextBoundary(Monthly, d)
    {
      MonthDays(e);
    }
  }

  lemma QuarterlyTile(d: nat)
    requires 90 <= d
    ensures IsTile(Quarterly, d)
  {
    hide StartOf, MonthIndex, ClosedDays, NextBoundary;
    var k := MonthIndex(d) - MonthIndex(d) % 3;
    PastFirstQuarter(d);
    MonthSpan(d, k, 3);
    QuarterDays(d);
    QuarterDays(StartOf(k + 3));
    forall e: nat | StartOf(k) <= e < StartOf(k + 3)
      ensures ClosedDays(Quarterly, e) == ClosedDays(Quarterly, d)
              && NextBoundary(Quarterly, e) == NextBoundary(Quarterly, d)
    {
      QuarterDays(e);
      assert MonthIndex(e) - MonthIndex(e) % 3 == k;
    }
  }

  /** For every kind the closed periods tile the days: the period closed on d ends by d, stays
      the same until the next boundary, and the period closed at that boundary starts where it ends. */
  lemma Tiles(kind: Kind, d: nat)
    requires 90 <= d
    ensures IsTile(kind, d)
  {
    match kind
    case Daily =>
    case Weekly => WeeklyTile(d);
    case Monthly => MonthlyTile(d);
    case Quarterly => QuarterlyTile(d);
  }

  /** The instants with the same closed period are exactly those from its end to the next boundary. */
  lemma SamePeriodInterval(kind: Kind, t: nat, u: nat)
    requires FIRST_INSTANT <= t && FIRST_INSTANT <= u
    ensures ClosedPeriodFor(kind, t).end <= t
    ensures ClosedPeriodFor(kind, u) == ClosedPeriodFor(kind, t)
            <==> ClosedPeriodFor(kind, t).end <= u < NextBoundary(kind, DayOf(t)) * DAY_MS
  {
    hide ClosedDays, NextBoundary;
    var d, e := DayOf(t), DayOf(u);
    Tiles(kind, d);
    Tiles(kind, e);
    var p, next := ClosedDays(kind, d), NextBoundary(kind, d);
    assert p.1 * DAY_MS <= u < next * DAY_MS <==> p.1 <= e < next;
    if next <= e {
      LaterDayLaterEnd(kind, next, e);
    }
  }

  lemma LaterDayLaterEnd(kind: Kind, d: nat, e: nat)
    requires 90 <= d <= e
    ensures ClosedDays(kind, d).1 <= ClosedDays(kind, e).1
    ensures ClosedDays(kind, d) == ClosedDays(kind, e) || ClosedDays(kind, d).1 <= ClosedDays(kind, e).0
    decreases e - d
  {
    hide ClosedDays, NextBoundary;
    Tiles(kind, d);
    var next := NextBoundary(kind, d);
    if next <= e {
      LaterDayLaterEnd(kind, next, e);
      Tiles(kind, e);
    }
  }

  // ---- where the periods begin ----

  /** The first day of month m of year y. */
  predicate IsFirstOf(d: int, y: int, m: int) {
    0 <= d && YearOf(d) == y && MonthOf(d) == m && DateOf(d) == 1
  }

  lemma StartIsFirst(y: nat, m: nat)
    requires 1970 <= y && m < 12
    ensures IsFirstOf(StartOf(12 * y + m), y, m)
  {
    assert (12 * y + m) / 12 == y && (12 * y + m) % 12 == m;
    CivilRoundTrip(y, m, 1);
  }

  lemma WeeksBeginOnMonday(d: nat)
    requires 90 <= d
    ensures var p := ClosedDays(Weekly, d);
            0 <= p.0 && p.1 == p.0 + 7 && WeekdayOf(p.0) == WeekdayOf(p.1) == 1 && p.1 <= d < p.1 + 7
  {
    WeekStartFormula(d);
    var q := (d + 3) / 7;
    assert WeekStart(d) + 4 == 7 * q + 1 && WeekStart(d) - 7 + 4 == 7 * (q - 1) + 1;
  }

  /** Which days they are: a day is yesterday, a week runs from Monday, a month is the calendar month
      before d's, and a quarter the three months before January, April, July or October. */
  lemma PeriodsAreCivil(d: nat)
    requires 90 <= d
    ensures ClosedDays(Daily, d) == (d - 1, d)
    ensures var w := ClosedDays(Weekly, d);
            0 <= w.0 && w.1 == w.0 + 7 && WeekdayOf(w.0) == WeekdayOf(w.1) == 1 && w.1 <= d < w.1 + 7
    ensures var p, y, m := ClosedDays(Monthly, d), YearOf(d), MonthOf(d);
            IsFirstOf(p.1, y, m) && (if m == 0 then IsFirstOf(p.0, y - 1, 11) else IsFirstOf(p.0, y, m - 1))
    ensures var p, y, m := ClosedDays(Quarterly, d), YearOf(d), MonthOf(d);
            var first := if m < 3 then 0 else if m < 6 then 3 else if m < 9 then 6 else 9;
            IsFirstOf(p.1, y, first) && (if first == 0 then IsFirstOf(p.0, y - 1, 9) else IsFirstOf(p.0, y, first - 3))
  {
    WeeksBeginOnMonday(d);
    MonthsBefore(d);
    QuartersBefore(d);
    hide ClosedDays, IsFirstOf, WeekdayOf, YearOf, MonthOf;
    Yesterday(d);
  }

  lemma Yesterday(d: nat)
    ensures ClosedDays(Daily, d) == (d - 1, d)
  {
  }

  lemma IndexOfDay(d: nat)
    requires 90 <= d
    ensures 1970 <= YearOf(d) && 0 <= MonthOf(d) < 12 && MonthIndex(d) == 12 * YearOf(d) + MonthOf(d)
    ensures YearOf(d) == 1970 ==> 3 <= MonthOf(d)
  {
    PastFirstQuarter(d);
    hide YearOf, MonthOf;
  }

  lemma MonthsBefore(d: nat)
    requires 90 <= d
    ensures var p, y, m := ClosedDays(Monthly, d), YearOf(d), MonthOf(d);
            IsFirstOf(p.1, y, m) && (if m == 0 then IsFirstOf(p.0, y - 1, 11) else IsFirstOf(p.0, y, m - 1))
  {
    hide *;
    var y, m := YearOf(d), MonthOf(d);
    MonthDays(d);
    IndexOfDay(d);
    StartIsFirst(y, m);
    if m == 0 {
      StartIsFirst(y - 1, 11);
    } else {
      StartIsFirst(y, m - 1);
    }
  }

  lemma QuartersBefore(d: nat)
    requires 90 <= d
    ensures var p, y, m := ClosedDays(Quarterly, d), YearOf(d), MonthOf(d);
            var first := if m < 3 then 0 else if m < 6 then 3 else if m < 9 then 6 else 9;
            IsFirstOf(p.1, y, first) && (if first == 0 then IsFirstOf(p.0, y - 1, 9) else IsFirstOf(p.0, y, first - 3))
  {
    hide *;
    var y, m := YearOf(d), MonthOf(d);
    var k, first := MonthIndex(d), if m < 3 then 0 else if m < 6 then 3 else if m < 9 then 6 else 9;
    QuarterDays(d);
    IndexOfDay(d);
    ModThree(k, 4 * y + first / 3, m - first);
    StartIsFirst(y, first);
    if first == 0 {
      StartIsFirst(y - 1, 9);
    } else {
      StartIsFirst(y, first - 3);
    }
  }

  // ---- due detection ----

  datatype ReportKey = ReportKey(kind: Kind, start: int)

  function KeyFor(kind: Kind, now: nat): ReportKey {
    ReportKey(kind, ClosedPeriodFor(kind, now).start)
  }

  const ALL_KINDS: seq<Kind> := [Daily, Weekly, Monthly, Quarterly]

  /** dueKinds: the enabled kinds of which no report starts where the current closed period does. */
  method DueKinds(enabled: set<Kind>, existing: seq<ReportKey>, now: nat) returns (due: seq<Kind>)
    ensures forall k :: k in due <==>
              k in enabled && forall r :: r in existing && r.kind == k ==> r.start != ClosedPeriodFor(k, now).start
    ensures forall i, j :: 0 <= i < j < |due| ==> due[i] != due[j]
  {
    due := [];
    var i := 0;
    while i < |ALL_KINDS|
      invariant 0 <= i <= |ALL_KINDS|
      invariant forall k :: k in due <==> k in ALL_KINDS[..i] && k in enabled && KeyFor(k, now) !in existing
      invariant forall a, b :: 0 <= a < b < |due| ==> due[a] != due[b]
    {
      var kind := ALL_KINDS[i];
      if kind in enabled && KeyFor(kind, now) !in existing {
        due := due + [kind];
      }
      i := i + 1;
    }
    assert ALL_KINDS[..i] == ALL_KINDS;
    forall k: Kind
      ensures k in ALL_KINDS
    {
      match k
      case Daily => assert ALL_KINDS[0] == k;
      case Weekly => assert ALL_KINDS[1] == k;
      case Monthly => assert ALL_KINDS[2] == k;
      case Quarterly => assert ALL_KINDS[3] == k;
    }
    forall k: Kind
      ensures KeyFor(k, now) in existing <==>
                exists r :: r in existing && r.kind == k && r.start == ClosedPeriodFor(k, now).start
    {
      hide ClosedPeriodFor;
      if r :| r in existing && r.kind == k && r.start == ClosedPeriodFor(k, now).start {
        assert r == KeyFor(k, now);
      }
    }
  }

  function Report(reports: seq<Period>, p: Period): seq<Period> {
    if exists r :: r in reports && r.start == p.start then reports else reports + [p]
  }

  /** The reports of one kind after a tick that generates it when due. */
  function Tick(kind: Kind, reports: seq<Period>, now: nat): seq<Period> {
    Report(reports, ClosedPeriodFor(kind, now))
  }

  function Ticks(kind: Kind, times: seq<nat>): seq<Period> {
    if times == [] then [] else Tick(kind, Ticks(kind, times[..|times| - 1]), times[|times| - 1])
  }

  // Each tick comes before a second period boundary has passed since the one before it.
  ghost predicate HitsEveryPeriod(kind: Kind, times: seq<nat>) {
    && (forall i :: 0 <= i < |times| ==> FIRST_INSTANT <= times[i])
    && forall i :: 0 <= i < |times| - 1 ==>
         times[i] <= times[i + 1] < NextBoundary(kind, NextBoundary(kind, DayOf(times[i]))) * DAY_MS
  }

  ghost predicate Contiguous(reports: seq<Period>) {
    && (forall i :: 0 <= i < |reports| ==> reports[i].start < reports[i].end)
    && forall i :: 0 <= i < |reports| - 1 ==> reports[i + 1].start == reports[i].end
  }

  lemma {:induction false} ContiguousBefore(reports: seq<Period>, i: nat)
    requires Contiguous(reports) && i < |reports|
    ensures reports[i].end <= reports[|reports| - 1].end
    ensures i < |reports| - 1 ==> reports[i].end <= reports[|reports| - 1].start
    decreases |reports| - i
  {
    if i < |reports| - 1 {
      ContiguousBefore(reports, i + 1);
    }
  }

  // The next tick either finds its period reported last, or reports the one right after it.
  lemma NextTick(kind: Kind, t: nat, u: nat)
    requires FIRST_INSTANT <= t <= u && u < NextBoundary(kind, NextBoundary(kind, DayOf(t))) * DAY_MS
    ensures ClosedPeriodFor(kind, u) == ClosedPeriodFor(kind, t)
            || ClosedPeriodFor(kind, u).start == ClosedPeriodFor(kind, t).end
    ensures ClosedPeriodFor(kind, u).start < ClosedPeriodFor(kind, u).end
  {
    hide ClosedDays, NextBoundary;
    var d, e := DayOf(t), DayOf(u);
    Tiles(kind, d);
    Tiles(kind, NextBoundary(kind, d));
    Tiles(kind, e);
  }

  lemma FirstReport(kind: Kind, t: nat)
    requires FIRST_INSTANT <= t
    ensures ClosedPeriodFor(kind, t).start < ClosedPeriodFor(kind, t).end
  {
    hide ClosedDays, NextBoundary;
    Tiles(kind, DayOf(t));
  }

  lemma AlreadyLast(before: seq<Period>, p: Period, r: Period)
    requires |before| > 0 && Contiguous(before) && r in before && r.start == p.start
    requires p == before[|before| - 1] || p.start == before[|before| - 1].end
    ensures p == before[|before| - 1]
  {
    var i :| 0 <= i < |before| && before[i] == r;
    ContiguousBefore(before, i);
  }

  lemma ReportExtends(before: seq<Period>, p: Period)
    requires |before| > 0 && Contiguous(before) && p.start < p.end
    requires p == before[|before| - 1] || p.start == before[|before| - 1].end
    ensures var after := Report(before, p);
            |after| > 0 && Contiguous(after) && after[0] == before[0] && after[|after| - 1] == p
  {
    var last := before[|before| - 1];
    assert last in before;
    if r :| r in before && r.start == p.start {
      AlreadyLast(before, p, r);
    } else {
      assert Report(before, p) == before + [p];
    }
  }

  lemma TickExtends(kind: Kind, before: seq<Period>, t: nat, u: nat)
    requires |before| > 0 && Contiguous(before) && before[|before| - 1] == ClosedPeriodFor(kind, t)
    requires FIRST_INSTANT <= t <= u && u < NextBoundary(kind, NextBoundary(kind, DayOf(t))) * DAY_MS
    ensures var after := Tick(kind, before, u);
            |after| > 0 && Contiguous(after) && after[0] == before[0]
            && after[|after| - 1] == ClosedPeriodFor(kind, u)
  {
    hide ClosedPeriodFor, NextBoundary, DayOf;
    NextTick(kind, t, u);
    ReportExtends(before, ClosedPeriodFor(kind, u));
  }

  /** Ticks that hit every period, however often, report each period exactly once, with no
      gap and no overlap from the first tick's closed period to the last tick's. */
  lemma {:induction false} EveryPeriodOnce(kind: Kind, times: seq<nat>)
    requires |times| > 0 && HitsEveryPeriod(kind, times)
    ensures var reports := Ticks(kind, times);
            && |reports| > 0 && Contiguous(reports)
            && reports[0] == ClosedPeriodFor(kind, times[0])
            && reports[|reports| - 1] == ClosedPeriodFor(kind, times[|times| - 1])
  {
    hide ClosedPeriodFor, NextBoundary, DayOf;
    var n := |times| - 1;
    if n == 0 {
      FirstReport(kind, times[0]);
      assert Ticks(kind, times[..0]) == [];
    } else {
      EveryPeriodOnce(kind, times[..n]);
      assert times[n - 1 + 1] == times[n];
      TickExtends(kind, Ticks(kind, times[..n]), times[n - 1], times[n]);
    }
  }
}
