/** parseField and parseCron of packages/automation/src/cron.ts, with the grammar of
    the fields they accept. */
module CronParser {
  import opened Wrappers
  import opened Text
  import opened CronSchedule
  import opened Calendar
  import CronSearch

  /** The bounds of a field; `sunday` normalizes 7 to 0. */
  datatype FieldSpec = FieldSpec(min: nat, max: nat, sunday: bool)

  const MINUTE := FieldSpec(0, 59, false)
  const HOUR := FieldSpec(0, 23, false)
  const DAY_OF_MONTH := FieldSpec(1, 31, false)
  const MONTH := FieldSpec(1, 12, false)
  const DAY_OF_WEEK := FieldSpec(0, 7, true)

  predicate ValidSpec(spec: FieldSpec) {
    spec.min <= spec.max && (spec.sunday ==> spec.min == 0 && spec.max == 7)
  }

  function HighestValue(spec: FieldSpec): nat {
    if spec.sunday then 6 else spec.max
  }

  function Normalize(spec: FieldSpec, v: int): int {
    if spec.sunday && v == 7 then 0 else v
  }

  /** The numbers lo, lo + step, ... up to hi. */
  datatype Progression = Progression(lo: nat, hi: nat, step: nat) {
    predicate Contains(v: int) {
      lo <= v <= hi && step > 0 && (v - lo) % step == 0
    }
  }

  function Denotes(spec: FieldSpec, p: Progression): set<int> {
    set v: int | p.lo <= v <= p.hi && p.Contains(v) :: Normalize(spec, v)
  }

  function DenotesAll(spec: FieldSpec, ps: seq<Progression>): set<int> {
    if ps == [] then {} else DenotesAll(spec, ps[..|ps| - 1]) + Denotes(spec, ps[|ps| - 1])
  }

  predicate InFieldAlphabet(s: string) {
    |s| > 0 && forall c :: c in s ==> IsDigit(c) || c in "*,/-"
  }

  // Lines 55-63: the step, absent or a numeral of at least 1.
  function ParseStep(p: seq<string>): Option<nat>
    requires |p| >= 1
  {
    if |p| > 2 then None
    else if |p| == 1 then Some(1)
    else if IsNumeral(p[1]) && NumeralValue(p[1]) >= 1 then Some(NumeralValue(p[1]))
    else None
  }

  // Lines 66-79: the star, a range or a single number.
  function ParseRange(range: string, spec: FieldSpec): Option<(nat, nat)> {
    if range == "*" then Some((spec.min, spec.max))
    else if '-' in range then
      var q := Split(range, '-');
      if |q| != 2 || !IsNumeral(q[0]) || !IsNumeral(q[1]) then None
      else if NumeralValue(q[0]) > NumeralValue(q[1]) then None
      else Some((NumeralValue(q[0]), NumeralValue(q[1])))
    else if !IsNumeral(range) then None
    else Some((NumeralValue(range), if '/' in range then spec.max else NumeralValue(range)))
  }

  function ParsePart(part: string, spec: FieldSpec): Option<Progression> {
    if part == "" then None
    else
      var p := Split(part, '/');
      var step := ParseStep(p);
      var range := ParseRange(p[0], spec);
      if step.None? || range.None? || range.value.0 < spec.min || range.value.1 > spec.max then None
      else Some(Progression(range.value.0, range.value.1, step.value))
  }

  function ParseParts(parts: seq<string>, spec: FieldSpec): (r: Option<seq<Progression>>)
    ensures r.Some? <==> forall p :: p in parts ==> ParsePart(p, spec).Some?
    ensures r.Some? ==> |r.value| == |parts|
                        && forall i :: 0 <= i < |parts| ==> ParsePart(parts[i], spec) == Some(r.value[i])
  {
    if parts == [] then Some([])
    else
      var last := |parts| - 1;
      var init := ParseParts(parts[..last], spec);
      var p := ParsePart(parts[last], spec);
      assert forall q :: q in parts ==> q in parts[..last] || q == parts[last];
      if init.Some? && p.Some? then Some(init.value + [p.value]) else None
  }

  /** The set in ascending order. */
  function Sorted(s: set<int>, lo: int, hi: int): (r: seq<int>)
    ensures Ascending(r)
    ensures forall i :: 0 <= i < |r| ==> lo <= r[i] <= hi && r[i] in s
    ensures forall v :: lo <= v <= hi && v in s ==> v in r
    decreases hi - lo + 1
  {
    if hi < lo then []
    else
      var init := Sorted(s, lo, hi - 1);
      if hi in s then
        assert (init + [hi])[|init|] == hi;
        init + [hi]
      else init
  }

  function FieldOf(raw: string, spec: FieldSpec): Option<Field> {
    if raw == "*" then Some(Field(true, []))
    else if !InFieldAlphabet(raw) then None
    else
      var ps := ParseParts(Split(raw, ','), spec);
      if ps.None? then None
      else Some(Field(false, Sorted(DenotesAll(spec, ps.value), spec.min, HighestValue(spec))))
  }

  lemma {:induction false} DenotesAllMember(spec: FieldSpec, ps: seq<Progression>, v: int)
    ensures v in DenotesAll(spec, ps) <==> exists i :: 0 <= i < |ps| && v in Denotes(spec, ps[i])
  {
    if ps != [] {
      var n := |ps| - 1;
      DenotesAllMember(spec, ps[..n], v);
      if v in DenotesAll(spec, ps[..n]) {
        var i :| 0 <= i < n && v in Denotes(spec, ps[..n][i]);
        assert v in Denotes(spec, ps[i]);
      }
      if i :| 0 <= i < |ps| && v in Denotes(spec, ps[i]) {
        if i < n {
          assert v in Denotes(spec, ps[..n][i]);
        }
      }
    }
  }

  lemma AcceptedFieldValid(raw: string, spec: FieldSpec)
    requires ValidSpec(spec) && FieldOf(raw, spec).Some?
    ensures ValidField(FieldOf(raw, spec).value, spec.min, HighestValue(spec))
  {
    if raw != "*" {
      var parts := Split(raw, ',');
      var ps := ParseParts(parts, spec).value;
      var p := ps[0];
      assert ParsePart(parts[0], spec) == Some(p);
      assert (p.lo - p.lo) % p.step == 0;
      assert p.Contains(p.lo);
      assert Normalize(spec, p.lo) in Denotes(spec, p);
      DenotesAllMember(spec, ps, Normalize(spec, p.lo));
    }
  }

  /** parseField; the loops of lines 52-83 are ParseItems and AddProgression. */
  method ParseField(raw: string, spec: FieldSpec) returns (r: Option<Field>)
    requires ValidSpec(spec)
    ensures r == FieldOf(raw, spec)
    ensures r.Some? ==> ValidField(r.value, spec.min, HighestValue(spec))
  {
    if raw == "*" {
      return Some(Field(true, []));
    }
    if !InFieldAlphabet(raw) {
      return None;
    }
    var values := ParseItems(Split(raw, ','), spec);
    if values.None? {
      return None;
    }
    AcceptedFieldValid(raw, spec);
    r := Some(Field(false, Sorted(values.value, spec.min, HighestValue(spec))));
  }

  lemma StepPositive(part: string, spec: FieldSpec)
    requires ParsePart(part, spec).Some?
    ensures ParsePart(part, spec).value.step >= 1
  {
  }

  method ParseItems(parts: seq<string>, spec: FieldSpec) returns (r: Option<set<int>>)
    ensures r.Some? <==> ParseParts(parts, spec).Some?
    ensures r.Some? ==> r.value == DenotesAll(spec, ParseParts(parts, spec).value)
  {
    hide ParsePart, Denotes;
    var values: set<int> := {};
    var i := 0;
    while i < |parts|
      invariant 0 <= i <= |parts|
      invariant ParseParts(parts[..i], spec).Some?
      invariant values == DenotesAll(spec, ParseParts(parts[..i], spec).value)
    {
      var p := ParsePart(parts[i], spec);
      if p.None? {
        assert parts[i] in parts;
        return None;
      }
      StepPositive(parts[i], spec);
      var more := AddProgression(spec, p.value);
      values := values + more;
      ParsePartsNext(parts[..i], parts[i], spec);
      assert parts[..i + 1] == parts[..i] + [parts[i]];
      i := i + 1;
    }
    assert parts[..i] == parts;
    r := Some(values);
  }

  lemma ParsePartsNext(init: seq<string>, part: string, spec: FieldSpec)
    requires ParseParts(init, spec).Some? && ParsePart(part, spec).Some?
    ensures ParseParts(init + [part], spec) == Some(ParseParts(init, spec).value + [ParsePart(part, spec).value])
    ensures DenotesAll(spec, ParseParts(init + [part], spec).value)
            == DenotesAll(spec, ParseParts(init, spec).value) + Denotes(spec, ParsePart(part, spec).value)
  {
    var parts := init + [part];
    assert parts[..|parts| - 1] == init;
    var ps := ParseParts(parts, spec).value;
    assert ps[..|ps| - 1] == ParseParts(init, spec).value;
  }

  method AddProgression(spec: FieldSpec, p: Progression) returns (values: set<int>)
    requires p.step >= 1
    ensures values == Denotes(spec, p)
  {
    values := {};
    var v := p.lo;
    ghost var k := 0;
    while v <= p.hi
      invariant v == p.lo + k * p.step && k >= 0
      invariant values == set u: int | p.lo <= u <= p.hi && p.Contains(u) && u < v :: Normalize(spec, u)
      decreases p.hi + p.step - v
    {
      assert (v - p.lo) % p.step == 0 by {
        MultipleMod(k, p.step);
      }
      forall u: int | v < u < v + p.step
        ensures !p.Contains(u)
      {
        BetweenMultiples(k, p.step, u - p.lo);
      }
      values := values + {Normalize(spec, v)};
      v := v + p.step;
      k := k + 1;
    }
  }

  lemma MultipleMod(k: nat, step: nat)
    requires step >= 1
    ensures k * step % step == 0
  {
    if k > 0 {
      MultipleMod(k - 1, step);
      assert k * step == (k - 1) * step + step;
      ModShift((k - 1) * step, step);
    }
  }

  lemma ModShift(a: nat, n: nat)
    requires n >= 1
    ensures (a + n) % n == a % n
  {
    var q, r := a / n, a % n;
    assert a + n == (q + 1) * n + r;
    ModUnique(a + n, n, q + 1, r);
  }

  lemma MulMonotone(x: nat, y: nat, n: nat)
    requires x <= y
    ensures x * n <= y * n
  {
    assert (y - x) * n >= 0;
  }

  lemma ModUnique(a: nat, n: nat, q: nat, r: nat)
    requires n >= 1 && a == q * n + r && r < n
    ensures a % n == r
  {
    var p, s := a / n, a % n;
    assert a == p * n + s;
    assert (p + 1) * n == p * n + n && (q + 1) * n == q * n + n;
    if p < q {
      MulMonotone(p + 1, q, n);
    } else if q < p {
      MulMonotone(q + 1, p, n);
    }
  }

  lemma BetweenMultiples(k: nat, step: nat, x: nat)
    requires step >= 1 && k * step < x < (k + 1) * step
    ensures x % step != 0
  {
    ModUnique(x, step, k, x - k * step);
  }

  // ---- parseCron ----

  /** The class \s of ECMAScript regular expressions. */
  predicate IsSpace(c: char) {
    || '\t' <= c <= '\r' || c == ' ' || c == '\U{A0}' || c == '\U{1680}' || '\U{2000}' <= c <= '\U{200A}'
    || c == '\U{2028}' || c == '\U{2029}' || c == '\U{202F}' || c == '\U{205F}' || c == '\U{3000}' || c == '\U{FEFF}'
  }

  function WordEnd(s: string): (n: nat)
    ensures n <= |s|
    ensures s != [] && !IsSpace(s[0]) ==> 0 < n
  {
    if s == [] || IsSpace(s[0]) then 0 else 1 + WordEnd(s[1..])
  }

  // The pieces of a trimmed string between its runs of white space.
  function Words(s: string): seq<string>
    decreases |s|
  {
    if s == [] then []
    else if IsSpace(s[0]) then Words(s[1..])
    else [s[..WordEnd(s)]] + Words(s[WordEnd(s)..])
  }

  function ScheduleOf(expression: string): (r: Option<Schedule>)
    ensures r.Some? ==> ValidSchedule(r.value)
  {
    var w := Words(expression);
    if |w| != 5 then None
    else
      var minute, hour := FieldOf(w[0], MINUTE), FieldOf(w[1], HOUR);
      var dom, month, dow := FieldOf(w[2], DAY_OF_MONTH), FieldOf(w[3], MONTH), FieldOf(w[4], DAY_OF_WEEK);
      if minute.None? || hour.None? || dom.None? || month.None? || dow.None? then None
      else
        AcceptedFieldValid(w[0], MINUTE);
        AcceptedFieldValid(w[1], HOUR);
        AcceptedFieldValid(w[2], DAY_OF_MONTH);
        AcceptedFieldValid(w[3], MONTH);
        AcceptedFieldValid(w[4], DAY_OF_WEEK);
        Some(Schedule(minute.value, hour.value, dom.value, month.value, dow.value))
  }

  method ParseCron(expression: string) returns (r: Option<Schedule>)
    ensures r == ScheduleOf(expression)
    ensures r.Some? ==> ValidSchedule(r.value)
  {
    var w := Words(expression);
    if |w| != 5 {
      return None;
    }
    var minute := ParseField(w[0], MINUTE);
    var hour := ParseField(w[1], HOUR);
    var dom := ParseField(w[2], DAY_OF_MONTH);
    var month := ParseField(w[3], MONTH);
    var dow := ParseField(w[4], DAY_OF_WEEK);
    if minute.None? || hour.None? || dom.None? || month.None? || dow.None? {
      return None;
    }
    r := Some(Schedule(minute.value, hour.value, dom.value, month.value, dow.value));
  }
}
