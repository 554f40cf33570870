/** The versioned cache addressing of packages/cache/src/store-cache.ts: composed keys never collide,
    and a hit was written after the last invalidation its reader knew of. */
module StoreCache {
  import opened Wrappers
  import opened MemoryCache
  import opened Text

  datatype Domain = ANALYTICS | CATALOG | STORE

  function Name(d: Domain): string {
    match d
    case ANALYTICS => "analytics"
    case CATALOG => "catalog"
    case STORE => "store"
  }

  function VersionKey(store: string, d: Domain): string {
    "v:" + store + ":" + Name(d)
  }

  function CellKey(store: string, d: Domain, version: nat, key: string): string {
    "c:" + Then(store, Then(Name(d), Then(Digits(version), key)))
  }

  function Then(a: string, rest: string): string {
    a + ":" + rest
  }

  // ---- keys ----

  predicate Plain(s: string) {
    ':' !in s
  }

  lemma FirstColon(a: string, x: string)
    requires Plain(a)
    ensures Then(a, x)[|a|] == ':' && forall i :: 0 <= i < |a| ==> Then(a, x)[i] != ':'
  {
    assert forall i :: 0 <= i < |a| ==> a[i] in a && Then(a, x)[i] == a[i];
  }

  // Text free of colons up to the first colon is determined.
  lemma HeadUnique(a: string, b: string, x: string, y: string)
    requires Plain(a) && Plain(b) && Then(a, x) == Then(b, y)
    ensures a == b && x == y
  {
    var s, t := Then(a, x), Then(b, y);
    FirstColon(a, x);
    FirstColon(b, y);
    assert |a| == |b|;
    assert a == s[..|a|] && b == t[..|a|];
    assert x == s[|a| + 1..] && y == t[|a| + 1..];
  }

  lemma {:induction false} DigitsPlain(n: nat)
    ensures Digits(n) != [] && forall c :: c in Digits(n) ==> '0' <= c <= '9'
    decreases n
  {
    if n >= 10 {
      DigitsPlain(n / 10);
    }
  }

  lemma {:induction false} DigitsUnique(m: nat, n: nat)
    requires Digits(m) == Digits(n)
    ensures m == n
    decreases m
  {
    DigitsPlain(m / 10);
    DigitsPlain(n / 10);
    var s, t := Digits(m), Digits(n);
    assert (m < 10 <==> |s| == 1) && (n < 10 <==> |t| == 1);
    if m < 10 {
      assert s[0] == t[0];
    } else {
      assert s[..|s| - 1] == Digits(m / 10) && t[..|t| - 1] == Digits(n / 10);
      assert s[|s| - 1] == t[|t| - 1];
      DigitsUnique(m / 10, n / 10);
    }
  }

  lemma NamesPlain(d: Domain, e: Domain)
    ensures Plain(Name(d)) && (Name(d) == Name(e) ==> d == e)
  {
    assert Name(ANALYTICS)[0] == 'a' && Name(CATALOG)[0] == 'c' && Name(STORE)[0] == 's';
  }

  /** Every store has a version of its own for each domain. */
  lemma VersionKeyInjective(store: string, d: Domain, store': string, d': Domain)
    requires Plain(store) && Plain(store')
    ensures VersionKey(store, d) == VersionKey(store', d') <==> store == store' && d == d'
  {
    assert VersionKey(store, d)[2..] == Then(store, Name(d)) && VersionKey(store', d')[2..] == Then(store', Name(d'));
    NamesPlain(d, d');
    if VersionKey(store, d) == VersionKey(store', d') {
      HeadUnique(store, store', Name(d), Name(d'));
    }
  }

  /** Different stores, domains, versions or keys never share a cell, store ids being free of colons
      (they are UUIDs); what the caller puts into the key makes no difference. */
  lemma CellKeyInjective(store: string, d: Domain, version: nat, key: string, store': string, d': Domain,
          version': nat, key': string)
    requires Plain(store) && Plain(store')
    requires CellKey(store, d, version, key) == CellKey(store', d', version', key')
    ensures store == store' && d == d' && version == version' && key == key'
  {
    var tail, tail' := Then(Digits(version), key), Then(Digits(version'), key');
    var rest, rest' := Then(Name(d), tail), Then(Name(d'), tail');
    assert CellKey(store, d, version, key)[2..] == Then(store, rest)
        && CellKey(store', d', version', key')[2..] == Then(store', rest');
    NamesPlain(d, d');
    NamesPlain(d', d);
    DigitsPlain(version);
    DigitsPlain(version');
    hide Digits, Then, Name;
    HeadUnique(store, store', rest, rest');
    HeadUnique(Name(d), Name(d'), tail, tail');
    HeadUnique(Digits(version), Digits(version'), key, key');
    DigitsUnique(version, version');
  }

  /** Without that, two stores could share a cell. */
  lemma ColonsWouldCollide()
    ensures CellKey("a", STORE, 0, "store:0:k") == CellKey("a:store:0", STORE, 0, "k")
  {
    assert Digits(0) == "0";
  }

  lemma VersionKeyApart(store: string, d: Domain, store': string, d': Domain, version: nat, key: string)
    ensures VersionKey(store, d) != CellKey(store', d', version, key)
  {
    assert VersionKey(store, d)[0] == 'v' && CellKey(store', d', version, key)[0] == 'c';
  }

  // ---- interleavings ----

  /** A value in a cell, with how it got there: whose it is, the version its writer read and when, and
      when it was computed. */
  datatype Cell = Cell(store: string, domain: Domain, version: nat, key: string, readAt: nat, computedAt: nat)

  datatype Reader = Reader(store: string, domain: Domain, key: string, version: nat, readAt: nat)

  datatype Writer = Writer(store: string, domain: Domain, key: string, version: nat, readAt: nat, computedAt: nat)

  datatype Hit = Hit(reader: Reader, cell: Cell)

  /** What a remember has computed after a miss and not filed yet. */
  datatype Computed = Computed(store: string, domain: Domain, key: string, at: nat)

  /** bumps holds the times of each domain's invalidations, so its length is the version; time counts steps. */
  datatype State = State(
    bumps: map<(string, Domain), seq<nat>>, cells: map<string, Cell>,
    readers: set<Reader>, writers: set<Writer>, missed: set<Reader>, computed: set<Computed>, hits: seq<Hit>, time: nat)

  const NOTHING := State(map[], map[], {}, {}, {}, {}, [], 0)

  datatype Step =
    | Bump(store: string, domain: Domain)
    | StartGet(store: string, domain: Domain, key: string)
    | FinishGet(reader: Reader)
    | Compute(reader: Reader)     // remember, after a miss
    | FileComputed(value: Computed)  // ... and its set
    | StartSet(store: string, domain: Domain, key: string, computedAt: nat)
    | FinishSet(writer: Writer)
    | Expire(cell: string)

  function BumpsOf(s: State, store: string, d: Domain): seq<nat> {
    if (store, d) in s.bumps then s.bumps[(store, d)] else []
  }

  function Take(s: State, step: Step): State {
    var t := s.(time := s.time + 1);
    match step
    case Bump(store, d) => t.(bumps := s.bumps[(store, d) := BumpsOf(s, store, d) + [s.time]])
    case StartGet(store, d, key) =>
      t.(readers := s.readers + {Reader(store, d, key, |BumpsOf(s, store, d)|, s.time)})
    case FinishGet(r) =>
      if r !in s.readers then t
      else
        var k := CellKey(r.store, r.domain, r.version, r.key);
        t.(readers := s.readers - {r}, hits := if k in s.cells then s.hits + [Hit(r, s.cells[k])] else s.hits,
           missed := if k in s.cells then s.missed else s.missed + {r})
    case Compute(r) =>
      if r !in s.missed then t
      else t.(missed := s.missed - {r}, computed := s.computed + {Computed(r.store, r.domain, r.key, s.time)})
    case FileComputed(v) =>
      if v !in s.computed then t
      else
        t.(computed := s.computed - {v},
           writers := s.writers + {Writer(v.store, v.domain, v.key, |BumpsOf(s, v.store, v.domain)|, s.time, v.at)})
    case StartSet(store, d, key, computedAt) =>
      t.(writers := s.writers + {Writer(store, d, key, |BumpsOf(s, store, d)|, s.time, computedAt)})
    case FinishSet(w) =>
      if w !in s.writers then t
      else
        t.(writers := s.writers - {w},
           cells := s.cells[CellKey(w.store, w.domain, w.version, w.key) :=
                              Cell(w.store, w.domain, w.version, w.key, w.readAt, w.computedAt)])
    case Expire(k) => t.(cells := s.cells - {k})
  }

  function TakeAll(steps: seq<Step>): State {
    if steps == [] then NOTHING else Take(TakeAll(steps[..|steps| - 1]), steps[|steps| - 1])
  }

  predicate PlainStep(step: Step) {
    match step
    case StartGet(store, _, _) => Plain(store)
    case StartSet(store, _, _, _) => Plain(store)
    case FileComputed(v) => Plain(v.store)
    case _ => true
  }

  // The version read at readAt counts exactly the bumps before it.
  ghost predicate ReadVersion(bumps: seq<nat>, version: nat, readAt: nat) {
    && version <= |bumps|
    && (forall i :: 0 <= i < version ==> bumps[i] < readAt)
    && forall i :: version <= i < |bumps| ==> readAt <= bumps[i]
  }

  ghost predicate Fresh(s: State, h: Hit) {
    && h.cell.store == h.reader.store && h.cell.domain == h.reader.domain && h.cell.key == h.reader.key
    && forall i :: 0 <= i < |BumpsOf(s, h.reader.store, h.reader.domain)| ==>
         var bump := BumpsOf(s, h.reader.store, h.reader.domain)[i];
         bump < h.reader.readAt ==> bump < h.cell.readAt
  }

  ghost predicate Inv(s: State) {
    && (forall store, d, i :: 0 <= i < |BumpsOf(s, store, d)| ==> BumpsOf(s, store, d)[i] < s.time)
    && (forall r :: r in s.readers ==>
          && Plain(r.store) && r.readAt < s.time
          && ReadVersion(BumpsOf(s, r.store, r.domain), r.version, r.readAt))
    && (forall w :: w in s.writers ==>
          && Plain(w.store) && w.readAt < s.time
          && ReadVersion(BumpsOf(s, w.store, w.domain), w.version, w.readAt))
    && (forall k :: k in s.cells ==> CellOk(s, k, s.cells[k]))
    && forall i :: 0 <= i < |s.hits| ==> s.hits[i].reader.readAt < s.time && Fresh(s, s.hits[i])
  }

  ghost predicate CellOk(s: State, k: string, c: Cell) {
    && Plain(c.store) && k == CellKey(c.store, c.domain, c.version, c.key) && c.readAt < s.time
    && ReadVersion(BumpsOf(s, c.store, c.domain), c.version, c.readAt)
  }

  lemma TakeKeeps(s: State, step: Step)
    requires Inv(s) && PlainStep(step)
    ensures Inv(Take(s, step))
  {
    hide CellKey, Inv;
    match step
    case Bump(store, d) => BumpKeeps(s, store, d);
    case StartGet(store, d, key) => StartGetKeeps(s, store, d, key);
    case FinishGet(r) => FinishGetKeeps(s, r);
    case StartSet(store, d, key, computedAt) => StartSetKeeps(s, store, d, key, computedAt);
    case Compute(r) => ComputeKeeps(s, r);
    case FileComputed(v) => FileKeeps(s, v);
    case FinishSet(w) => FinishSetKeeps(s, w);
    case Expire(k) => ExpireKeeps(s, k);
  }

  lemma StartGetKeeps(s: State, store: string, d: Domain, key: string)
    requires Inv(s) && Plain(store)
    ensures Inv(Take(s, StartGet(store, d, key)))
  {
    hide CellKey;
    assert forall x, e :: BumpsOf(Take(s, StartGet(store, d, key)), x, e) == BumpsOf(s, x, e);
  }

  lemma StartSetKeeps(s: State, store: string, d: Domain, key: string, computedAt: nat)
    requires Inv(s) && Plain(store)
    ensures Inv(Take(s, StartSet(store, d, key, computedAt)))
  {
    hide CellKey;
    assert forall x, e :: BumpsOf(Take(s, StartSet(store, d, key, computedAt)), x, e) == BumpsOf(s, x, e);
  }

  lemma ComputeKeeps(s: State, r: Reader)
    requires Inv(s)
    ensures Inv(Take(s, Compute(r)))
  {
    hide CellKey, ReadVersion, Plain;
    assert forall x, e :: BumpsOf(Take(s, Compute(r)), x, e) == BumpsOf(s, x, e);
  }

  lemma FileKeeps(s: State, v: Computed)
    requires Inv(s) && Plain(v.store)
    ensures Inv(Take(s, FileComputed(v)))
  {
    hide CellKey;
    assert forall x, e :: BumpsOf(Take(s, FileComputed(v)), x, e) == BumpsOf(s, x, e);
  }

  lemma ExpireKeeps(s: State, k: string)
    requires Inv(s)
    ensures Inv(Take(s, Expire(k)))
  {
    hide CellKey;
    assert forall x, e :: BumpsOf(Take(s, Expire(k)), x, e) == BumpsOf(s, x, e);
  }

  // Reads made before now have counted none of the bumps still to come.
  lemma ReadBefore(bumps: seq<nat>, version: nat, readAt: nat, now: nat)
    requires ReadVersion(bumps, version, readAt) && readAt < now
    ensures ReadVersion(bumps + [now], version, readAt)
  {
  }

  lemma BumpKeeps(s: State, store: string, d: Domain)
    requires Inv(s)
    ensures Inv(Take(s, Bump(store, d)))
  {
    hide CellKey, ReadVersion;
    var t := Take(s, Bump(store, d));
    forall x, e
      ensures BumpsOf(t, x, e) == BumpsOf(s, x, e) + if x == store && e == d then [s.time] else []
    {
    }
    forall r | r in t.readers
      ensures ReadVersion(BumpsOf(t, r.store, r.domain), r.version, r.readAt)
    {
      ReadBefore(BumpsOf(s, r.store, r.domain), r.version, r.readAt, s.time);
    }
    forall w | w in t.writers
      ensures ReadVersion(BumpsOf(t, w.store, w.domain), w.version, w.readAt)
    {
      ReadBefore(BumpsOf(s, w.store, w.domain), w.version, w.readAt, s.time);
    }
    forall k | k in t.cells
      ensures CellOk(t, k, t.cells[k])
    {
      var c := s.cells[k];
      assert CellOk(s, k, c);
      ReadBefore(BumpsOf(s, c.store, c.domain), c.version, c.readAt, s.time);
    }
    forall i | 0 <= i < |t.hits|
      ensures Fresh(t, t.hits[i])
    {
      assert Fresh(s, s.hits[i]) && s.hits[i].reader.readAt < s.time;
    }
  }

  lemma SameVersionSameBumps(bumps: seq<nat>, version: nat, x: nat, y: nat)
    requires ReadVersion(bumps, version, x) && ReadVersion(bumps, version, y)
    ensures forall i :: 0 <= i < |bumps| && bumps[i] < x ==> bumps[i] < y
  {
  }

  lemma FinishGetKeeps(s: State, r: Reader)
    requires Inv(s)
    ensures Inv(Take(s, FinishGet(r)))
  {
    hide CellKey, ReadVersion;
    var t := Take(s, FinishGet(r));
    assert forall store, d :: BumpsOf(t, store, d) == BumpsOf(s, store, d);
    var k := CellKey(r.store, r.domain, r.version, r.key);
    if r in s.readers && k in s.cells {
      var c := s.cells[k];
      assert CellOk(s, k, c);
      CellKeyInjective(r.store, r.domain, r.version, r.key, c.store, c.domain, c.version, c.key);
      SameVersionSameBumps(BumpsOf(s, r.store, r.domain), r.version, r.readAt, c.readAt);
      assert Fresh(s, Hit(r, c));
    }
  }

  lemma FinishSetKeeps(s: State, w: Writer)
    requires Inv(s)
    ensures Inv(Take(s, FinishSet(w)))
  {
    hide CellKey;
    assert forall store, d :: BumpsOf(Take(s, FinishSet(w)), store, d) == BumpsOf(s, store, d);
  }

  lemma {:induction false} ReachableInv(steps: seq<Step>)
    requires forall i :: 0 <= i < |steps| ==> PlainStep(steps[i])
    ensures Inv(TakeAll(steps))
  {
    if steps != [] {
      ReachableInv(steps[..|steps| - 1]);
      TakeKeeps(TakeAll(steps[..|steps| - 1]), steps[|steps| - 1]);
    }
  }

  /** In every interleaving of gets, sets and invalidations, a hit is the reader's own store, domain and
      key, and its writer read the version no earlier than the last invalidation before the reader did. */
  lemma HitsAreFresh(steps: seq<Step>, i: nat, b: nat)
    requires (forall j :: 0 <= j < |steps| ==> PlainStep(steps[j])) && i < |TakeAll(steps).hits|
    ensures var s, h := TakeAll(steps), TakeAll(steps).hits[i];
            && h.cell.store == h.reader.store && h.cell.domain == h.reader.domain && h.cell.key == h.reader.key
            && (b < |BumpsOf(s, h.reader.store, h.reader.domain)|
                  && BumpsOf(s, h.reader.store, h.reader.domain)[b] < h.reader.readAt
                ==> BumpsOf(s, h.reader.store, h.reader.domain)[b] < h.cell.readAt)
  {
    ReachableInv(steps);
    assert Fresh(TakeAll(steps), TakeAll(steps).hits[i]);
  }

  /** The value itself is only as fresh as the last invalidation before its computation: it reflects
      everything the reader could expect exactly when no invalidation fell between computing it and
      reading the version to store it under, among those the reader already knew of. */
  lemma ValueIsFresh(steps: seq<Step>, i: nat)
    requires (forall j :: 0 <= j < |steps| ==> PlainStep(steps[j])) && i < |TakeAll(steps).hits|
    ensures var s, h := TakeAll(steps), TakeAll(steps).hits[i];
            var bumps := BumpsOf(s, h.reader.store, h.reader.domain);
            (forall b :: 0 <= b < |bumps| && bumps[b] < h.reader.readAt ==> bumps[b] < h.cell.computedAt)
            <==> forall b :: 0 <= b < |bumps| && bumps[b] < h.reader.readAt ==>
                !(h.cell.computedAt <= bumps[b] < h.cell.readAt)
  {
    ReachableInv(steps);
    assert Fresh(TakeAll(steps), TakeAll(steps).hits[i]);
  }

  lemma NextStep(steps: seq<Step>, step: Step)
    ensures TakeAll(steps + [step]) == Take(TakeAll(steps), step)
  {
    assert (steps + [step])[..|steps|] == steps;
  }

  // A remember misses and computes; the domain is bumped.
  function Outdated(store: string): seq<Step> {
    var r := Reader(store, STORE, "k", 0, 0);
    [StartGet(store, STORE, "k")] + [FinishGet(r)] + [Compute(r)] + [Bump(store, STORE)]
  }

  // It files its value, and a later get reads it.
  function StaleRun(store: string): seq<Step> {
    Outdated(store) + [FileComputed(Computed(store, STORE, "k", 2))] + [FinishSet(Writer(store, STORE, "k", 1, 4, 2))]
    + [StartGet(store, STORE, "k")] + [FinishGet(Reader(store, STORE, "k", 1, 6))]
  }

  lemma AfterBump(store: string)
    ensures TakeAll(Outdated(store)) ==
            NOTHING.(bumps := map[(store, STORE) := [3]], computed := {Computed(store, STORE, "k", 2)}, time := 4)
  {
    hide CellKey;
    var r := Reader(store, STORE, "k", 0, 0);
    var get, miss := StartGet(store, STORE, "k"), FinishGet(r);
    NextStep([], get);
    NextStep([get], miss);
    NextStep([get] + [miss], Compute(r));
    NextStep([get] + [miss] + [Compute(r)], Bump(store, STORE));
    assert [] + [get] == [get];
    hide TakeAll;
    assert TakeAll([]) == NOTHING by {
      NothingYet();
    }
    assert TakeAll([get]) == NOTHING.(readers := {r}, time := 1);
    assert TakeAll([get] + [miss]) == NOTHING.(missed := {r}, time := 2);
    assert TakeAll([get] + [miss] + [Compute(r)])
        == NOTHING.(computed := {Computed(store, STORE, "k", 2)}, time := 3);
    assert BumpsOf(NOTHING, store, STORE) + [3] == [3];
  }

  lemma NothingYet()
    ensures TakeAll([]) == NOTHING
  {
  }

  /** remember keeps a value computed before an invalidation and serves it after: the value is computed
      on a miss, the domain is bumped, and the set files it under the new version. */
  lemma RememberCanServeStale(store: string)
    requires Plain(store)
    ensures var s := TakeAll(StaleRun(store));
            && s.hits == [Hit(Reader(store, STORE, "k", 1, 6), Cell(store, STORE, 1, "k", 4, 2))]
            && BumpsOf(s, store, STORE) == [3]
  {
    hide CellKey, TakeAll;
    AfterBump(store);
    var v, w := Computed(store, STORE, "k", 2), Writer(store, STORE, "k", 1, 4, 2);
    var get, r := StartGet(store, STORE, "k"), Reader(store, STORE, "k", 1, 6);
    var steps := Outdated(store);
    NextStep(steps, FileComputed(v));
    NextStep(steps + [FileComputed(v)], FinishSet(w));
    NextStep(steps + [FileComputed(v)] + [FinishSet(w)], get);
    NextStep(steps + [FileComputed(v)] + [FinishSet(w)] + [get], FinishGet(r));
  }

  // ---- the calls through the port ----

  function VersionOf(entries: map<string, Entry>, store: string, d: Domain, now: int): nat {
    var e := Live(entries, VersionKey(store, d), now);
    if e.Some? && e.value.value.number.Some? && e.value.value.number.value >= 0 then e.value.value.number.value else 0
  }

  function Cached(entries: map<string, Entry>, store: string, d: Domain, key: string, now: int): Option<Value> {
    var e := Live(entries, CellKey(store, d, VersionOf(entries, store, d, now), key), now);
    if e.Some? then Some(e.value.value) else None
  }

  class Client {
    const cache: Cache
    const store: string

    constructor (cache: Cache, store: string)
      ensures this.cache == cache && this.store == store
    {
      this.cache, this.store := cache, store;
    }

    method Version(d: Domain, now: int) returns (version: nat)
      modifies cache
      ensures version == VersionOf(old(cache.entries), store, d, now)
      ensures SameFrom(cache.entries, old(cache.entries), now)
    {
      var v := cache.Get(VersionKey(store, d), now);
      version := if v.Some? && v.value.number.Some? && v.value.number.value >= 0 then v.value.number.value else 0;
    }

    method Get(d: Domain, key: string, now: int) returns (v: Option<Value>)
      modifies cache
      ensures v == Cached(old(cache.entries), store, d, key, now)
      ensures SameFrom(cache.entries, old(cache.entries), now)
    {
      hide CellKey, VersionKey;
      var version := Version(d, now);
      ghost var between := cache.entries;
      v := cache.Get(CellKey(store, d, version, key), now);
      assert Live(between, CellKey(store, d, version, key), now)
          == Live(old(cache.entries), CellKey(store, d, version, key), now);
    }

    method Set(d: Domain, key: string, value: Value, ttlMs: int, now: int)
      modifies cache
      ensures SameFrom(cache.entries,
                       var cell := CellKey(store, d, VersionOf(old(cache.entries), store, d, now), key);
                       old(cache.entries)[cell := Entry(value, Some(now + ttlMs))],
                       now)
    {
      hide CellKey, VersionKey;
      var version := Version(d, now);
      ghost var between := cache.entries;
      cache.Set(CellKey(store, d, version, key), value, Some(ttlMs), now);
      forall k, t: int | now <= t
        ensures Live(cache.entries, k, t)
                == Live(old(cache.entries)[CellKey(store, d, version, key) := Entry(value, Some(now + ttlMs))], k, t)
      {
        assert Live(between, k, t) == Live(old(cache.entries), k, t);
      }
    }

    method Bump(d: Domain, now: int) returns (version: Option<int>)
      modifies cache
      ensures version == Next(old(cache.entries), VersionKey(store, d), now)
      ensures SameFrom(cache.entries, Incremented(old(cache.entries), VersionKey(store, d), now), now)
    {
      version := cache.Incr(VersionKey(store, d), now);
    }
  }

  /** A domain starts at version 0, and every invalidation that is not refused moves it on by one. */
  lemma BumpIsNext(entries: map<string, Entry>, store: string, d: Domain, now: int)
    ensures VersionKey(store, d) !in entries ==> VersionOf(entries, store, d, now) == 0
    ensures var e := Live(entries, VersionKey(store, d), now);
            (e.None? || (e.value.value.number.Some? && e.value.value.number.value >= 0)) ==>
              VersionOf(Incremented(entries, VersionKey(store, d), now), store, d, now)
              == VersionOf(entries, store, d, now) + 1
  {
  }

  /** What was set is what is got, until it expires; the version counter is not among the cells. */
  lemma SetThenGet(entries: map<string, Entry>, store: string, d: Domain, key: string, value: Value, ttlMs: int,
          now: int, t: int)
    requires now <= t && VersionOf(entries, store, d, t) == VersionOf(entries, store, d, now)
    ensures var cell := CellKey(store, d, VersionOf(entries, store, d, now), key);
            Cached(entries[cell := Entry(value, Some(now + ttlMs))], store, d, key, t) ==
                if t < now + ttlMs then Some(value) else None
  {
    VersionKeyApart(store, d, store, d, VersionOf(entries, store, d, now), key);
    hide CellKey, VersionKey;
  }
}
