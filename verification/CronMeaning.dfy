/** What a cron expression means in the merchant's terms: the Gregorian date, the weekday and the clock
    time at which it fires, and which expressions never fire. */
module CronMeaning {
  import opened Wrappers
  import opened Text
  import opened Calendar
  import opened CronSchedule
  import opened CronParser
  import opened CronGrammar

  predicate IsDate(y: int, m: int, dt: int) {
    1970 <= y && 0 <= m < 12 && 1 <= dt <= MonthLength(y, m)
  }

  // Milliseconds since 1970 of a civil date and a time of day.
  function InstantOf(y: int, m: int, dt: int, h: int, min: int): int {
    ((CivilDay(y, m, dt) * 24 + h) * 60 + min) * 60_000
  }

  lemma InstantIsTime(y: int, m: int, dt: int, h: int, min: int)
    requires IsDate(y, m, dt) && 0 <= h < 24 && 0 <= min < 60
    ensures 0 <= MakeDay(y, m, dt) && InstantOf(y, m, dt, h, min) == MakeTime(MakeDay(y, m, dt), h, min)
  {
    DaysAreGregorian(y, m, dt);
    hide MakeDay, CivilDay;
  }

  /** A schedule fires at exactly the whole minutes whose Gregorian month, date or weekday, hour and minute
      it names: both day fields restricted, either will do; otherwise both have to match. */
  lemma FiresIff(s: Schedule, y: int, m: int, dt: int, h: int, min: int)
    requires IsDate(y, m, dt) && 0 <= h < 24 && 0 <= min < 60
    ensures var t := InstantOf(y, m, dt, h, min);
            && 0 <= t
            && (Fires(s, t) <==>
                  && (s.month.any || m + 1 in s.month.values)
                  && (s.hour.any || h in s.hour.values) && (s.minute.any || min in s.minute.values)
                  && (if s.dayOfMonth.any then s.dayOfWeek.any || GregorianWeekday(y, m, dt) in s.dayOfWeek.values
                      else if s.dayOfWeek.any then dt in s.dayOfMonth.values
                      else dt in s.dayOfMonth.values || GregorianWeekday(y, m, dt) in s.dayOfWeek.values))
  {
    InstantIsTime(y, m, dt, h, min);
    DaysAreGregorian(y, m, dt);
    TimeRoundTrip(MakeDay(y, m, dt), h, min);
    hide MakeDay, CivilDay, GregorianWeekday, MakeTime, HourOf, MinuteOf, DayOf, YearOf, MonthOf, DateOf, WeekdayOf;
  }

  /** Every firing instant is one of those. */
  lemma FiringIsCivil(s: Schedule, t: nat)
    requires Fires(s, t)
    ensures var d := DayOf(t);
            && IsDate(YearOf(d), MonthOf(d), DateOf(d))
            && t == InstantOf(YearOf(d), MonthOf(d), DateOf(d), HourOf(t), MinuteOf(t))
  {
    var d := DayOf(t);
    MonthsAreGregorian(YearOf(d), MonthOf(d));
    DayRoundTrip(d);
    InstantRoundTrip(t);
    InstantIsTime(YearOf(d), MonthOf(d), DateOf(d), HourOf(t), MinuteOf(t));
    hide MakeDay, CivilDay, MakeTime, HourOf, MinuteOf, DayOf, YearOf, MonthOf, DateOf, WeekdayOf;
  }

  // ---- schedules that never fire ----

  /** The most days month v, counted from 1, ever has. */
  function LongestMonth(v: int): int {
    if v == 2 then 29 else if v == 4 || v == 6 || v == 9 || v == 11 then 30 else 31
  }

  predicate Impossible(s: Schedule) {
    && !s.dayOfMonth.any && s.dayOfWeek.any
    && forall v, dt :: 1 <= v <= 12 && (s.month.any || v in s.month.values) && dt in s.dayOfMonth.values ==>
                         LongestMonth(v) < dt
  }

  lemma SomeValue(f: Field, min: int, max: int) returns (v: int)
    requires ValidField(f, min, max) && min <= max
    ensures min <= v <= max && Matches(f, v)
  {
    v := if f.any then min else f.values[0];
    assert f.any || v in f.values;
  }

  // One of the first seven days of any month falls on the weekday.
  lemma WeekdayInFirstWeek(y: int, m: int, w: int) returns (dt: int)
    requires 0 <= w < 7
    ensures 1 <= dt <= 7 && GregorianWeekday(y, m, dt) == w
  {
    var first := GregorianWeekday(y, m, 1);
    assert 0 <= first < 7;
    hide GregorianWeekday;
    dt := 1 + (w - first) % 7;
    WeekdayLater(y, m, dt - 1);
    BackToDay(first, w);
  }

  lemma BackToDay(first: int, w: int)
    requires 0 <= first < 7 && 0 <= w < 7
    ensures (first + (w - first) % 7) % 7 == w
  {
  }

  lemma WeekdayLater(y: int, m: int, k: nat)
    ensures GregorianWeekday(y, m, 1 + k) == (GregorianWeekday(y, m, 1) + k) % 7
  {
    var z := if m >= 2 then y else y - 1;
    var a := z + z / 4 - z / 100 + z / 400 + (153 * ((m + 10) % 12) + 2) / 5 + 3;
    assert a == 7 * (a / 7) + a % 7;
    ModSeven(a / 7, a % 7 + k);
  }

  // A date of the leap year 2000 that the day fields accept.
  lemma PossibleDate(s: Schedule, v: int) returns (dt: int)
    requires ValidSchedule(s) && 1 <= v <= 12
    requires !s.dayOfMonth.any && s.dayOfWeek.any ==> exists x :: x in s.dayOfMonth.values && x <= LongestMonth(v)
    ensures IsDate(2000, v - 1, dt) && DayRule(s, dt, GregorianWeekday(2000, v - 1, dt))
  {
    hide GregorianWeekday;
    if s.dayOfWeek.any {
      if s.dayOfMonth.any {
        dt := 1;
      } else {
        dt :| dt in s.dayOfMonth.values && dt <= LongestMonth(v);
      }
    } else {
      var w := SomeValue(s.dayOfWeek, 0, 6);
      dt := WeekdayInFirstWeek(2000, v - 1, w);
    }
  }

  /** A valid schedule never fires if and only if it is restricted by date alone and every date it names is
      beyond the end of every month it names: `0 0 31 4,6 *` never, `0 0 31 5 *` and `0 0 29 2 *` some day. */
  lemma NeverFiresIff(s: Schedule)
    requires ValidSchedule(s)
    ensures NeverFires(s) <==> Impossible(s)
  {
    forall t: nat
      ensures Impossible(s) ==> !Fires(s, t)
    {
      if Fires(s, t) {
        FiringIsPossible(s, t);
      }
    }
    if !Impossible(s) {
      var t := FiringOf(s);
    }
  }

  lemma FiringIsPossible(s: Schedule, t: nat)
    requires Fires(s, t)
    ensures !Impossible(s)
  {
    FiringIsCivil(s, t);
    var d := DayOf(t);
    var v, dt := MonthOf(d) + 1, DateOf(d);
    assert Matches(s.month, v) && (s.dayOfMonth.any || !s.dayOfWeek.any || dt in s.dayOfMonth.values);
    assert dt <= LongestMonth(v);
  }

  lemma FiringOf(s: Schedule) returns (t: nat)
    requires ValidSchedule(s) && !Impossible(s)
    ensures Fires(s, t)
  {
    var v, dt: int;
    if !s.dayOfMonth.any && s.dayOfWeek.any {
      var x;
      v, x :| 1 <= v <= 12 && (s.month.any || v in s.month.values) && x in s.dayOfMonth.values && x <= LongestMonth(v);
      dt := PossibleDate(s, v);
    } else {
      v := SomeValue(s.month, 1, 12);
      dt := PossibleDate(s, v);
    }
    var h := SomeValue(s.hour, 0, 23);
    var min := SomeValue(s.minute, 0, 59);
    hide Fires, CivilDay, GregorianWeekday;
    FiresIff(s, 2000, v - 1, dt, h, min);
    t := InstantOf(2000, v - 1, dt, h, min);
  }

  // ---- from the text on ----

  // ---- fields in numbers ----

  // Where an item starts, where it stops and how far apart its numbers are.
  function First(item: Item, spec: FieldSpec): int
    requires WellFormed(item, spec)
  {
    match item.range
    case Star => spec.min
    case Span(lo, _) => NumeralValue(lo)
    case Single(n) => NumeralValue(n)
  }

  function Last(item: Item, spec: FieldSpec): int
    requires WellFormed(item, spec)
  {
    match item.range
    case Star => spec.max
    case Span(_, hi) => NumeralValue(hi)
    case Single(n) => NumeralValue(n)
  }

  function Stride(item: Item, spec: FieldSpec): nat
    requires WellFormed(item, spec)
  {
    if item.step.Some? then NumeralValue(item.step.value) else 1
  }

  // The k-th number of the item is v; days of the week go round, so that 7 is Sunday again.
  predicate Hits(item: Item, spec: FieldSpec, k: nat, v: int)
    requires WellFormed(item, spec)
  {
    var u := First(item, spec) + k * Stride(item, spec);
    u <= Last(item, spec) && v == if spec.sunday then u % 7 else u
  }

  // Seven days on is the same day of the week.
  lemma WeekdayOnce(spec: FieldSpec, u: int)
    requires ValidSpec(spec) && spec.min <= u <= spec.max
    ensures Normalize(spec, u) == if spec.sunday then u % 7 else u
  {
  }

  lemma StepsTaken(lo: int, step: nat, u: int) returns (k: nat)
    requires step >= 1 && lo <= u && (u - lo) % step == 0
    ensures u == lo + k * step
  {
    k := (u - lo) / step;
  }

  lemma HitsIff(item: Item, spec: FieldSpec, v: int)
    requires ValidSpec(spec) && WellFormed(item, spec)
    ensures (exists u :: Meaning(item, spec).Contains(u) && v == Normalize(spec, u)) <==>
            exists k: nat :: Hits(item, spec, k, v)
  {
    var m := Meaning(item, spec);
    assert m == Progression(First(item, spec), Last(item, spec), Stride(item, spec));
    assert spec.min <= m.lo && m.hi <= spec.max && m.step >= 1;
    hide Meaning, First, Last, Stride, WellFormed, ValidSpec, Normalize;
    if u :| m.Contains(u) && v == Normalize(spec, u) {
      var k := StepsTaken(m.lo, m.step, u);
      WeekdayOnce(spec, u);
      assert Hits(item, spec, k, v);
    }
    if k: nat :| Hits(item, spec, k, v) {
      var u := m.lo + k * m.step;
      MultipleMod(k, m.step);
      assert (u - m.lo) % m.step == 0 && m.lo <= u;
      WeekdayOnce(spec, u);
      assert m.Contains(u);
    }
  }

  /** A field of items names exactly the numbers that its items run through: the star from the lowest to
      the highest, a range from its start to its end, a single number itself, each by its step. */
  lemma FieldNames(items: seq<Item>, spec: FieldSpec, v: int)
    requires ValidSpec(spec) && |items| >= 1 && AllWellFormed(items, spec) && PrintField(items) != "*"
    ensures FieldOf(PrintField(items), spec).Some? && !FieldOf(PrintField(items), spec).value.any
    ensures v in FieldOf(PrintField(items), spec).value.values <==>
            exists i, k: nat :: 0 <= i < |items| && Hits(items[i], spec, k, v)
  {
    PrintedFieldParses(items, spec);
    hide FieldOf, Meaning, Hits, WellFormed, PrintField;
    if i, u :| 0 <= i < |items| && Meaning(items[i], spec).Contains(u) && v == Normalize(spec, u) {
      HitsIff(items[i], spec, v);
      var k: nat :| Hits(items[i], spec, k, v);
    }
    if i, k: nat :| 0 <= i < |items| && Hits(items[i], spec, k, v) {
      HitsIff(items[i], spec, v);
      var u :| Meaning(items[i], spec).Contains(u) && v == Normalize(spec, u);
      assert SomeItemContains(items, spec, v);
    }
  }

  /** A field that is one number is accepted within the field's limits, and means that number. */
  lemma SingleNumber(n: string, spec: FieldSpec)
    requires ValidSpec(spec) && IsNumeral(n)
    ensures FieldOf(n, spec).Some? <==> spec.min <= NumeralValue(n) <= spec.max
    ensures FieldOf(n, spec).Some? ==>
              var f := FieldOf(n, spec).value;
              !f.any && forall v :: v in f.values <==> v == Normalize(spec, NumeralValue(n))
  {
    var item := Item(Single(n), None);
    assert PrintEach([item]) == [n] && PrintField([item]) == n;
    NumeralHasNo(n, '*');
    if spec.min <= NumeralValue(n) <= spec.max {
      PrintedFieldParses([item], spec);
      var meaning := Meaning([item][0], spec);
      assert meaning.lo == meaning.hi == NumeralValue(n) && (meaning.lo - meaning.lo) % meaning.step == 0;
      assert meaning.Contains(NumeralValue(n));
    } else {
      OutOfLimits(n, spec);
    }
  }

  lemma OutOfLimits(n: string, spec: FieldSpec)
    requires IsNumeral(n) && !(spec.min <= NumeralValue(n) <= spec.max)
    ensures FieldOf(n, spec).None?
  {
    NumeralHasNo(n, ',');
    NumeralHasNo(n, '/');
    NumeralHasNo(n, '-');
    NumeralHasNo(n, '*');
    SplitPlain(n, ',');
    SplitPlain(n, '/');
    assert ParsePart(n, spec).None?;
    assert n in [n];
    hide ParsePart;
  }

  /** The five fields accept exactly minutes to 59, hours to 23, dates from 1 to 31, months from 1 to 12
      and weekdays to 7. */
  lemma NumbersAccepted(n: nat)
    ensures FieldOf(Digits(n), MINUTE).Some? <==> n <= 59
    ensures FieldOf(Digits(n), HOUR).Some? <==> n <= 23
    ensures FieldOf(Digits(n), DAY_OF_MONTH).Some? <==> 1 <= n <= 31
    ensures FieldOf(Digits(n), MONTH).Some? <==> 1 <= n <= 12
    ensures FieldOf(Digits(n), DAY_OF_WEEK).Some? <==> n <= 7
  {
    hide FieldOf, Digits;
    NumberField(n, MINUTE);
    NumberField(n, HOUR);
    NumberField(n, DAY_OF_MONTH);
    NumberField(n, MONTH);
    NumberField(n, DAY_OF_WEEK);
  }

  predicate IsWord(w: string) {
    w != "" && forall c :: c in w ==> !IsSpace(c)
  }

  lemma {:induction false} WordEnds(w: string, rest: string)
    requires (forall c :: c in w ==> !IsSpace(c)) && (rest == "" || IsSpace(rest[0]))
    ensures WordEnd(w + rest) == |w|
  {
    hide IsSpace;
    var s := w + rest;
    if w != "" {
      assert s[0] == w[0] && s[1..] == w[1..] + rest;
      WordEnds(w[1..], rest);
    }
  }

  lemma FirstWord(w: string, rest: string)
    requires IsWord(w)
    ensures Words(w) == [w] && Words(w + " " + rest) == [w] + Words(rest)
  {
    var s := w + (" " + rest);
    WordEnds(w, "");
    WordEnds(w, " " + rest);
    assert w + "" == w && w[|w|..] == "" && w[..|w|] == w;
    assert s == w + " " + rest && s[..|w|] == w && s[|w|..] == " " + rest;
    assert (" " + rest)[1..] == rest;
    assert s[0] == w[0];
  }

  lemma FiveWords(a: string, b: string, c: string, d: string, e: string)
    requires IsWord(a) && IsWord(b) && IsWord(c) && IsWord(d) && IsWord(e)
    ensures Words(a + " " + (b + " " + (c + " " + (d + " " + e)))) == [a, b, c, d, e]
  {
    hide Words, IsWord;
    var tail2, tail3 := d + " " + e, c + " " + (d + " " + e);
    FirstWord(e, "");
    FirstWord(d, e);
    FirstWord(c, tail2);
    assert Words(tail3) == [c, d, e];
    FirstWord(b, tail3);
    FirstWord(a, b + " " + tail3);
  }

  /** Five words are the minute, hour, date, month and weekday fields, in this order. */
  lemma FieldsInOrder(a: string, b: string, c: string, d: string, e: string)
    requires IsWord(a) && IsWord(b) && IsWord(c) && IsWord(d) && IsWord(e)
    ensures var s := ScheduleOf(a + " " + (b + " " + (c + " " + (d + " " + e))));
            && (s.Some? <==> FieldOf(a, MINUTE).Some? && FieldOf(b, HOUR).Some? && FieldOf(c, DAY_OF_MONTH).Some?
                             && FieldOf(d, MONTH).Some? && FieldOf(e, DAY_OF_WEEK).Some?)
            && (s.Some? ==> s.value == Schedule(FieldOf(a, MINUTE).value, FieldOf(b, HOUR).value,
                                                FieldOf(c, DAY_OF_MONTH).value, FieldOf(d, MONTH).value,
                                                FieldOf(e, DAY_OF_WEEK).value))
  {
    FiveWords(a, b, c, d, e);
    hide FieldOf, Words, IsWord;
  }

  // The schedule names one minute and one hour and restricts nothing else.
  ghost predicate EveryDay(s: Schedule, h: int, min: int) {
    && !s.minute.any && (forall v :: v in s.minute.values <==> v == min)
    && !s.hour.any && (forall v :: v in s.hour.values <==> v == h)
    && s.dayOfMonth.any && s.month.any && s.dayOfWeek.any
  }

  lemma NumberField(n: nat, spec: FieldSpec)
    requires ValidSpec(spec)
    ensures IsWord(Digits(n)) && (FieldOf(Digits(n), spec).Some? <==> spec.min <= n <= spec.max)
    ensures FieldOf(Digits(n), spec).Some? ==>
              var f := FieldOf(Digits(n), spec).value; !f.any && forall v :: v in f.values <==> v == Normalize(spec, n)
  {
    DigitsRoundTrip(n);
    SingleNumber(Digits(n), spec);
    NumeralIsWord(Digits(n));
  }

  // The field names one number, and is accepted when that is within the limits.
  ghost predicate Names(raw: string, spec: FieldSpec, v: int, accepted: bool) {
    && IsWord(raw) && (FieldOf(raw, spec).Some? <==> accepted)
    && (accepted ==> var f := FieldOf(raw, spec).value; !f.any && forall u :: u in f.values <==> u == v)
  }

  lemma EveryDayParses(h: nat, min: nat, star: string, stars: string)
    requires IsWord(star) && stars == star + " " + (star + " " + star)
    requires FieldOf(star, DAY_OF_MONTH) == FieldOf(star, MONTH) == FieldOf(star, DAY_OF_WEEK) == Some(Field(true, []))
    ensures var s := ScheduleOf(Digits(min) + " " + (Digits(h) + " " + stars));
            (s.Some? <==> h < 24 && min < 60) && (s.Some? ==> EveryDay(s.value, h, min))
  {
    NumberField(min, MINUTE);
    NumberField(h, HOUR);
    NotASunday(min, h);
    EveryDayFields(Digits(min), Digits(h), h, min, star, stars);
    hide *;
  }

  lemma EveryDayFields(a: string, b: string, h: nat, min: nat, star: string, stars: string)
    requires Names(a, MINUTE, min, min < 60) && Names(b, HOUR, h, h < 24)
    requires IsWord(star) && stars == star + " " + (star + " " + star)
    requires FieldOf(star, DAY_OF_MONTH) == FieldOf(star, MONTH) == FieldOf(star, DAY_OF_WEEK) == Some(Field(true, []))
    ensures var s := ScheduleOf(a + " " + (b + " " + stars));
            (s.Some? <==> h < 24 && min < 60) && (s.Some? ==> EveryDay(s.value, h, min))
  {
    hide FieldOf, IsWord, ScheduleOf;
    FieldsInOrder(a, b, star, star, star);
  }

  lemma NotASunday(min: nat, h: nat)
    ensures Normalize(MINUTE, min) == min && Normalize(HOUR, h) == h
  {
  }

  lemma Stars()
    ensures IsWord("*") && "*" + " " + ("*" + " " + "*") == "* * *"
  {
  }

  /** `m h * * *` is accepted for every time of day and no other, and fires at h:m on every date. */
  lemma EveryDayAt(h: nat, min: nat)
    ensures var s := ScheduleOf(Digits(min) + " " + (Digits(h) + " " + "* * *"));
            && (s.Some? <==> h < 24 && min < 60)
            && (s.Some? ==> forall y, m, dt, k, l :: IsDate(y, m, dt) && 0 <= k < 24 && 0 <= l < 60 ==>
                  0 <= InstantOf(y, m, dt, k, l) && (Fires(s.value, InstantOf(y, m, dt, k, l)) <==> k == h && l == min))
  {
    Stars();
    StarFields();
    EveryDayParses(h, min, "*", "* * *");
    hide ScheduleOf, Digits;
    var s := ScheduleOf(Digits(min) + " " + (Digits(h) + " " + "* * *"));
    if s.Some? {
      hide InstantOf, Fires;
      forall y, m, dt, k, l | IsDate(y, m, dt) && 0 <= k < 24 && 0 <= l < 60
        ensures 0 <= InstantOf(y, m, dt, k, l)
        ensures Fires(s.value, InstantOf(y, m, dt, k, l)) <==> k == h && l == min
      {
        FiresIff(s.value, y, m, dt, k, l);
      }
    }
  }

  lemma StarFields()
    ensures FieldOf("*", DAY_OF_MONTH) == FieldOf("*", MONTH) == FieldOf("*", DAY_OF_WEEK) == Some(Field(true, []))
  {
  }

  lemma NumeralIsWord(n: string)
    requires IsNumeral(n)
    ensures IsWord(n)
  {
  }
}
