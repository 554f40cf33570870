/** The field grammar of cron.ts as syntax trees: what is accepted is exactly what the
    trees print, and each tree's meaning is the parsed value. */
module CronGrammar {
  import opened Wrappers
  import opened Text
  import opened CronSchedule
  import opened CronParser

  datatype Range = Star | Span(lo: string, hi: string) | Single(number: string)
  datatype Item = Item(range: Range, step: Option<string>)

  function PrintRange(r: Range): string {
    match r
    case Star => "*"
    case Span(lo, hi) => lo + "-" + hi
    case Single(n) => n
  }

  function Print(item: Item): string {
    match item.step
    case None => PrintRange(item.range)
    case Some(s) => PrintRange(item.range) + "/" + s
  }

  predicate RangeInBounds(r: Range, spec: FieldSpec) {
    match r
    case Star => true
    case Span(lo, hi) =>
      IsNumeral(lo) && IsNumeral(hi) && spec.min <= NumeralValue(lo) <= NumeralValue(hi) <= spec.max
    case Single(n) => IsNumeral(n) && spec.min <= NumeralValue(n) <= spec.max
  }

  predicate WellFormed(item: Item, spec: FieldSpec) {
    RangeInBounds(item.range, spec)
    && (item.step.Some? ==> IsNumeral(item.step.value) && NumeralValue(item.step.value) >= 1)
  }

  /** A step after a single number has no effect: `5/10` means 5 alone. */
  function Meaning(item: Item, spec: FieldSpec): Progression
    requires WellFormed(item, spec)
  {
    var step := if item.step.Some? then NumeralValue(item.step.value) else 1;
    match item.range
    case Star => Progression(spec.min, spec.max, step)
    case Span(lo, hi) => Progression(NumeralValue(lo), NumeralValue(hi), step)
    case Single(n) => Progression(NumeralValue(n), NumeralValue(n), step)
  }

  lemma NumeralHasNo(s: string, c: char)
    requires IsNumeral(s) && !IsDigit(c)
    ensures c !in s
  {
  }

  lemma RangeParses(r: Range, spec: FieldSpec)
    requires RangeInBounds(r, spec)
    ensures '/' !in PrintRange(r) && ',' !in PrintRange(r) && PrintRange(r) != ""
    ensures ParseRange(PrintRange(r), spec)
            == var m := Meaning(Item(r, None), spec); Some((m.lo, m.hi))
  {
    match r
    case Star =>
    case Span(lo, hi) =>
      var s := PrintRange(r);
      assert s[|lo|] == '-';
      NumeralHasNo(lo, '-');
      NumeralHasNo(hi, '-');
      assert s == lo + ['-'] + hi;
      SplitFirst(lo, '-', hi);
      SplitPlain(hi, '-');
      assert IsDigit(lo[0]) && s[0] == lo[0];
    case Single(n) =>
      NumeralHasNo(n, '-');
      assert IsDigit(n[0]);
  }

  lemma ItemParses(item: Item, spec: FieldSpec)
    requires WellFormed(item, spec)
    ensures ParsePart(Print(item), spec) == Some(Meaning(item, spec))
    ensures ',' !in Print(item) && InFieldAlphabet(Print(item))
  {
    var range := PrintRange(item.range);
    RangeParses(item.range, spec);
    match item.step
    case None =>
      SplitPlain(range, '/');
    case Some(s) =>
      NumeralHasNo(s, '/');
      assert Print(item) == range + ['/'] + s;
      SplitFirst(range, '/', s);
      SplitPlain(s, '/');
  }

  lemma RangeTree(range: string, spec: FieldSpec) returns (r: Range)
    requires '/' !in range && ParseRange(range, spec).Some?
    requires var v := ParseRange(range, spec).value; spec.min <= v.0 && v.1 <= spec.max
    ensures RangeInBounds(r, spec) && PrintRange(r) == range
  {
    JoinSplit(range, '-');
    if range == "*" {
      r := Star;
    } else if '-' in range {
      var q := Split(range, '-');
      assert Join(q, '-') == q[0] + ['-'] + Join(q[1..], '-');
      r := Span(q[0], q[1]);
    } else {
      r := Single(range);
    }
  }

  lemma PartTree(part: string, spec: FieldSpec) returns (item: Item)
    requires ParsePart(part, spec).Some?
    ensures WellFormed(item, spec) && Print(item) == part
  {
    var p := Split(part, '/');
    JoinSplit(part, '/');
    assert p[0] in p;
    var r := RangeTree(p[0], spec);
    if |p| == 1 {
      item := Item(r, None);
    } else {
      assert Join(p, '/') == p[0] + ['/'] + Join(p[1..], '/');
      item := Item(r, Some(p[1]));
    }
  }

  // The printed items of a field, in order.
  function PrintEach(items: seq<Item>): (r: seq<string>)
    ensures |r| == |items| && forall i :: 0 <= i < |items| ==> r[i] == Print(items[i])
  {
    seq(|items|, i requires 0 <= i < |items| => Print(items[i]))
  }

  function PrintField(items: seq<Item>): string
    requires |items| >= 1
  {
    Join(PrintEach(items), ',')
  }

  predicate AllWellFormed(items: seq<Item>, spec: FieldSpec) {
    forall i :: 0 <= i < |items| ==> WellFormed(items[i], spec)
  }

  ghost predicate SomeItemContains(items: seq<Item>, spec: FieldSpec, v: int)
    requires AllWellFormed(items, spec)
  {
    exists i, u :: 0 <= i < |items| && Meaning(items[i], spec).Contains(u) && v == Normalize(spec, u)
  }

  lemma PrintedItems(items: seq<Item>, spec: FieldSpec)
    requires |items| >= 1 && AllWellFormed(items, spec)
    ensures forall i :: 0 <= i < |items| ==> ParsePart(PrintEach(items)[i], spec) == Some(Meaning(items[i], spec))
    ensures InFieldAlphabet(PrintField(items)) && Split(PrintField(items), ',') == PrintEach(items)
  {
    var parts, raw := PrintEach(items), PrintField(items);
    forall i | 0 <= i < |items|
      ensures ParsePart(parts[i], spec) == Some(Meaning(items[i], spec)) && ',' !in parts[i]
          && InFieldAlphabet(parts[i])
    {
      ItemParses(items[i], spec);
    }
    SplitJoin(parts, ',');
    forall c | c in raw
      ensures IsDigit(c) || c in "*,/-"
    {
      JoinChars(parts, ',', c);
    }
    if |parts| > 1 {
      assert raw[|parts[0]|] == ',';
    }
  }

  /** Every printed field parses, and its values are exactly the numbers its items mean. */
  lemma PrintedFieldParses(items: seq<Item>, spec: FieldSpec)
    requires ValidSpec(spec) && |items| >= 1 && AllWellFormed(items, spec) && PrintField(items) != "*"
    ensures FieldOf(PrintField(items), spec).Some?
    ensures !FieldOf(PrintField(items), spec).value.any
    ensures forall v :: v in FieldOf(PrintField(items), spec).value.values <==> SomeItemContains(items, spec, v)
  {
    hide DenotesAll, Sorted, ParsePart, SomeItemContains;
    PrintedItems(items, spec);
    var ps := ParseParts(PrintEach(items), spec).value;
    assert FieldOf(PrintField(items), spec)
        == Some(Field(false, Sorted(DenotesAll(spec, ps), spec.min, HighestValue(spec))));
    forall v
      ensures v in Sorted(DenotesAll(spec, ps), spec.min, HighestValue(spec)) <==> SomeItemContains(items, spec, v)
    {
      FieldValues(items, spec, ps, v);
    }
  }

  lemma FieldValues(items: seq<Item>, spec: FieldSpec, ps: seq<Progression>, v: int)
    requires ValidSpec(spec) && AllWellFormed(items, spec) && |ps| == |items|
    requires forall i :: 0 <= i < |items| ==> ps[i] == Meaning(items[i], spec)
    ensures v in Sorted(DenotesAll(spec, ps), spec.min, HighestValue(spec)) <==> SomeItemContains(items, spec, v)
  {
    DenotesAllMember(spec, ps, v);
    if i, u :| 0 <= i < |items| && Meaning(items[i], spec).Contains(u) && v == Normalize(spec, u) {
      assert v in Denotes(spec, ps[i]);
      assert spec.min <= v <= HighestValue(spec);
    }
    if i :| 0 <= i < |ps| && v in Denotes(spec, ps[i]) {
      var u :| ps[i].Contains(u) && v == Normalize(spec, u);
      assert Meaning(items[i], spec).Contains(u);
    }
  }

  lemma {:induction false} PartTrees(parts: seq<string>, spec: FieldSpec) returns (items: seq<Item>)
    requires forall p :: p in parts ==> ParsePart(p, spec).Some?
    ensures |items| == |parts| && AllWellFormed(items, spec)
    ensures forall i :: 0 <= i < |parts| ==> Print(items[i]) == parts[i]
  {
    if parts == [] {
      items := [];
    } else {
      var item := PartTree(parts[0], spec);
      var rest := PartTrees(parts[1..], spec);
      items := [item] + rest;
    }
  }

  lemma FieldTree(raw: string, spec: FieldSpec) returns (items: seq<Item>)
    requires raw != "*" && FieldOf(raw, spec).Some?
    ensures |items| >= 1 && AllWellFormed(items, spec) && PrintField(items) == raw
  {
    hide ParsePart, Split, Join, DenotesAll, Sorted;
    var parts := Split(raw, ',');
    JoinSplit(raw, ',');
    items := PartTrees(parts, spec);
    assert PrintEach(items) == parts;
  }

  /** A field other than the bare star is accepted if and only if some items print it. */
  lemma FieldGrammar(raw: string, spec: FieldSpec)
    requires ValidSpec(spec) && raw != "*"
    ensures FieldOf(raw, spec).Some?
            <==> exists items :: |items| >= 1 && AllWellFormed(items, spec) && PrintField(items) == raw
  {
    if FieldOf(raw, spec).Some? {
      var items := FieldTree(raw, spec);
    } else if items :| |items| >= 1 && AllWellFormed(items, spec) && PrintField(items) == raw {
      PrintedFieldParses(items, spec);
    }
  }

  /** `5/10` means 5 alone: a step after a single number selects nothing more. In the weekday field 7 is 0. */
  lemma StepAfterSingleNumber(n: string, step: string, spec: FieldSpec)
    requires ValidSpec(spec) && IsNumeral(n) && spec.min <= NumeralValue(n) <= spec.max
    requires IsNumeral(step) && NumeralValue(step) >= 1
    ensures FieldOf(n + "/" + step, spec).Some?
    ensures forall v :: v in FieldOf(n + "/" + step, spec).value.values <==> v == Normalize(spec, NumeralValue(n))
  {
    var item := Item(Single(n), Some(step));
    var raw := n + "/" + step;
    assert PrintEach([item]) == [raw] && PrintField([item]) == raw;
    assert raw[|n|] == '/';
    PrintedFieldParses([item], spec);
    var m := Meaning(item, spec);
    assert (m.lo - m.lo) % m.step == 0;
    assert m.Contains(m.lo);
    forall v
      ensures v in FieldOf(raw, spec).value.values <==> v == Normalize(spec, NumeralValue(n))
    {
      if v == Normalize(spec, NumeralValue(n)) {
        assert Meaning([item][0], spec).Contains(NumeralValue(n));
      }
    }
  }

  lemma StarStepOneValues(spec: FieldSpec, v: int)
    requires ValidSpec(spec) && spec.min <= v <= spec.max && v == Normalize(spec, v)
    ensures FieldOf("*/1", spec).Some? && !FieldOf("*/1", spec).value.any && v in FieldOf("*/1", spec).value.values
  {
    var item := Item(Star, Some("1"));
    assert NumeralValue("1") == 1 by {
      assert "1"[..0] == "";
    }
    assert Print(item) == "*/1";
    assert PrintEach([item]) == ["*/1"] && PrintField([item]) == "*/1";
    PrintedFieldParses([item], spec);
    assert Meaning([item][0], spec).Contains(v);
  }

  /** A star with step 1 covers its whole range and yet counts as restricted, so under the
      crontab day rule it makes the other restricted day field irrelevant. */
  lemma StarStepOneOverridesWeekday(s: Schedule, date: int, weekday: int)
    requires Some(s.dayOfMonth) == FieldOf("*/1", DAY_OF_MONTH) && !s.dayOfWeek.any && 1 <= date <= 31
    ensures !s.dayOfMonth.any && DayRule(s, date, weekday)
    ensures DayRule(s.(dayOfMonth := Field(true, [])), date, weekday) <==> weekday in s.dayOfWeek.values
  {
    StarStepOneValues(DAY_OF_MONTH, date);
  }

  /** The same the other way round. */
  lemma StarStepOneOverridesDate(s: Schedule, date: int, weekday: int)
    requires Some(s.dayOfWeek) == FieldOf("*/1", DAY_OF_WEEK) && !s.dayOfMonth.any && 0 <= weekday <= 6
    ensures !s.dayOfWeek.any && DayRule(s, date, weekday)
    ensures DayRule(s.(dayOfWeek := Field(true, [])), date, weekday) <==> date in s.dayOfMonth.values
  {
    StarStepOneValues(DAY_OF_WEEK, weekday);
  }
}
