/** The fixed-window limiter of apps/api/src/middleware/rate-limit.middleware.ts over the cache, with
    any other requests between a request's incr and its expire. */
module RateLimiter {
  import opened Wrappers
  import opened MemoryCache
  import opened Text

  datatype Rule = Rule(max: int, windowMs: int)

  /** One incr on a bucket: when, and the count it got. */
  datatype Hit = Hit(time: int, count: int)

  /** owing holds the buckets whose first request has not reached its expire yet. */
  datatype State = State(entries: map<string, Entry>, owing: set<string>, hits: map<string, seq<Hit>>, clock: int)

  datatype Step =
    | Request(key: string, now: int)
    | Arm(key: string, now: int, stamp: int)

  predicate Admitted(rule: Rule, h: Hit) {
    h.count <= rule.max
  }

  function HitsOf(s: State, key: string): seq<Hit> {
    if key in s.hits then s.hits[key] else []
  }

  function Take(s: State, rule: Rule, step: Step): State {
    if step.now < s.clock then s
    else
      match step
      case Request(key, now) =>
        var n := Next(s.entries, key, now);
        if n.None? then s.(clock := now)
        else
          State(Incremented(s.entries, key, now), if n.value == 1 then s.owing + {key} else s.owing,
                s.hits[key := HitsOf(s, key) + [Hit(now, n.value)]], now)
      case Arm(key, now, stamp) =>
        if key !in s.owing || stamp < now then s
        else State(Armed(s.entries, key, rule.windowMs, now, stamp), s.owing - {key}, s.hits, stamp)
  }

  function TakeAll(rule: Rule, steps: seq<Step>, start: int): State {
    if steps == [] then State(map[], {}, map[], start)
        else Take(TakeAll(rule, steps[..|steps| - 1], start), rule, steps[|steps| - 1])
  }

  lemma ArmedAlike(a: map<string, Entry>, b: map<string, Entry>, key: string, ttlMs: int, now: int, stamp: int)
    requires SameFrom(a, b, now)
    ensures SameFrom(Armed(a, key, ttlMs, now, stamp), Armed(b, key, ttlMs, now, stamp), now)
  {
    assert Live(a, key, now) == Live(b, key, now);
    forall k, t: int | now <= t
      ensures Live(Armed(a, key, ttlMs, now, stamp), k, t) == Live(Armed(b, key, ttlMs, now, stamp), k, t)
    {
      assert Live(a, k, t) == Live(b, k, t);
    }
  }

  /** One request through the middleware, uninterrupted: admitted unless the count exceeds max, and let
      through when the cache refuses to count. */
  method Admit(cache: Cache, rule: Rule, key: string, now: int, stamp: int) returns (admitted: bool)
    requires now <= stamp
    modifies cache
    ensures var n := Next(old(cache.entries), key, now);
            var counted := Incremented(old(cache.entries), key, now);
            && (admitted <==> n.None? || n.value <= rule.max)
            && SameFrom(cache.entries, if n == Some(1) then Armed(counted, key, rule.windowMs, now, stamp)
                else counted, now)
  {
    ghost var counted := Incremented(cache.entries, key, now);
    var n := cache.Incr(key, now);
    if n == Some(1) {
      ArmedAlike(cache.entries, counted, key, rule.windowMs, now, stamp);
      cache.Expire(key, rule.windowMs, now, stamp);
    }
    admitted := n.None? || n.value <= rule.max;
  }

  // ---- the invariant ----

  /** Counts run 1, 2, 3, ... and start over only when a whole window has passed since the last start. */
  ghost predicate Windowed(h: seq<Hit>, windowMs: int) {
    && (h != [] ==> h[0].count == 1)
    && (forall i :: 1 <= i < |h| ==>
          h[i - 1].time <= h[i].time && (h[i].count == 1 || h[i].count == h[i - 1].count + 1))
    && (forall i :: 0 <= i < |h| ==> h[i].count >= 1)
    && forall i, j :: 0 <= i < j < |h| && h[i].count == 1 && h[j].count == 1 ==> h[i].time + windowMs <= h[j].time
  }

  // The bucket holds the last count; unarmed it lives on, armed it lives a window from every start.
  ghost predicate BucketOk(s: State, key: string, windowMs: int) {
    var h := HitsOf(s, key);
    && (h == [] <==> key !in s.entries)
    && (h != [] ==>
          && h[|h| - 1].time <= s.clock
          && s.entries[key].value.number == Some(h[|h| - 1].count)
          && (key in s.owing <==> s.entries[key].expiresAt.None?)
          && (s.entries[key].expiresAt.Some? ==>
                forall i :: 0 <= i < |h| && h[i].count == 1 ==> h[i].time + windowMs <= s.entries[key].expiresAt.value))
    && (h == [] ==> key !in s.owing)
  }

  ghost predicate Inv(s: State, rule: Rule) {
    forall key :: Windowed(HitsOf(s, key), rule.windowMs) && BucketOk(s, key, rule.windowMs)
  }

  lemma TakeKeeps(s: State, rule: Rule, step: Step)
    requires Inv(s, rule) && rule.windowMs >= 0
    ensures Inv(Take(s, rule, step), rule)
  {
    hide Number, Windowed, BucketOk;
    var t := Take(s, rule, step);
    forall key
      ensures Windowed(HitsOf(t, key), rule.windowMs) && BucketOk(t, key, rule.windowMs)
    {
      if key != step.key || step.now < s.clock {
        OtherBucket(s, rule, step, key);
      } else if step.Request? {
        RequestKeeps(s, rule, key, step.now);
      } else {
        ArmKeeps(s, rule, key, step.now, step.stamp);
      }
    }
  }

  lemma OtherBucket(s: State, rule: Rule, step: Step, key: string)
    requires Windowed(HitsOf(s, key), rule.windowMs) && BucketOk(s, key, rule.windowMs)
    requires key != step.key || step.now < s.clock
    ensures HitsOf(Take(s, rule, step), key) == HitsOf(s, key) && BucketOk(Take(s, rule, step), key, rule.windowMs)
  {
    hide Number, Windowed;
  }

  lemma RequestKeeps(s: State, rule: Rule, key: string, now: int)
    requires Windowed(HitsOf(s, key), rule.windowMs) && BucketOk(s, key, rule.windowMs) && now >= s.clock
        && rule.windowMs >= 0
    ensures var t := Take(s, rule, Request(key, now));
            Windowed(HitsOf(t, key), rule.windowMs) && BucketOk(t, key, rule.windowMs)
  {
    hide Digits;
    var h, n := HitsOf(s, key), Next(s.entries, key, now);
    assert n.Some?;
    var t := Take(s, rule, Request(key, now));
    assert HitsOf(t, key) == h + [Hit(now, n.value)];
    assert h != [] && n.value != 1 ==> n.value == h[|h| - 1].count + 1;
  }

  lemma ArmKeeps(s: State, rule: Rule, key: string, now: int, stamp: int)
    requires Windowed(HitsOf(s, key), rule.windowMs) && BucketOk(s, key, rule.windowMs) && now >= s.clock
        && rule.windowMs >= 0
    ensures var t := Take(s, rule, Arm(key, now, stamp));
            HitsOf(t, key) == HitsOf(s, key) && BucketOk(t, key, rule.windowMs)
  {
    hide Digits;
    var h := HitsOf(s, key);
    if h != [] {
      LastIsLatest(h, rule.windowMs);
    }
  }

  lemma {:induction false} LastIsLatest(h: seq<Hit>, windowMs: int)
    requires h != [] && Windowed(h, windowMs)
    ensures forall i :: 0 <= i < |h| ==> h[i].time <= h[|h| - 1].time
  {
    if |h| > 1 {
      WindowedPrefix(h, windowMs);
      LastIsLatest(h[..|h| - 1], windowMs);
    }
  }

  lemma {:induction false} ReachableInv(rule: Rule, steps: seq<Step>, start: int)
    requires rule.windowMs >= 0
    ensures Inv(TakeAll(rule, steps, start), rule)
  {
    if steps != [] {
      ReachableInv(rule, steps[..|steps| - 1], start);
      TakeKeeps(TakeAll(rule, steps[..|steps| - 1], start), rule, steps[|steps| - 1]);
    }
  }

  // ---- how many get through ----

  /** Requests admitted in the half-open interval of one window from a. */
  function AdmittedIn(h: seq<Hit>, rule: Rule, a: int): nat {
    if h == [] then 0
    else
      var n := |h| - 1;
      AdmittedIn(h[..n], rule, a) + if Admitted(rule, h[n]) && a <= h[n].time < a + rule.windowMs then 1 else 0
  }

  function AdmittedAll(h: seq<Hit>, rule: Rule): nat {
    if h == [] then 0 else AdmittedAll(h[..|h| - 1], rule) + if Admitted(rule, h[|h| - 1]) then 1 else 0
  }

  ghost predicate StartInside(h: seq<Hit>, rule: Rule, a: int) {
    exists i :: 0 <= i < |h| && h[i].count == 1 && a <= h[i].time < a + rule.windowMs
  }

  function Min(a: int, b: int): int {
    if a < b then a else b
  }

  lemma WindowedPrefix(h: seq<Hit>, windowMs: int)
    requires h != [] && Windowed(h, windowMs)
    ensures Windowed(h[..|h| - 1], windowMs)
  {
  }

  // While the scan is still inside the interval: without a start inside, the bucket's first request is
  // outside; with one, the requests before it belong to a bucket that started before the interval.
  lemma {:induction false} AdmittedSoFar(h: seq<Hit>, rule: Rule, a: int)
    requires Windowed(h, rule.windowMs) && rule.max >= 1
    ensures AdmittedIn(h, rule, a) <= 2 * rule.max - 1
    ensures h != [] && h[|h| - 1].time < a ==> AdmittedIn(h, rule, a) == 0 && !StartInside(h, rule, a)
    ensures h != [] && h[|h| - 1].time < a + rule.windowMs ==>
              AdmittedIn(h, rule, a) <= (if StartInside(h, rule, a) then rule.max else 0) - 1
                  + Min(h[|h| - 1].count, rule.max)
  {
    if h != [] {
      var n := |h| - 1;
      var last := h[n];
      WindowedPrefix(h, rule.windowMs);
      AdmittedSoFar(h[..n], rule, a);
      if last.time < a + rule.windowMs {
        if n > 0 {
          assert h[n - 1].time <= last.time;
        }
        StartsInside(h, rule, a);
      }
    }
  }

  // At most one bucket starts inside the interval, and adding a hit adds a start only if it is one.
  lemma StartsInside(h: seq<Hit>, rule: Rule, a: int)
    requires h != [] && Windowed(h, rule.windowMs)
    ensures var n := |h| - 1; var inside := a <= h[n].time < a + rule.windowMs;
            && (StartInside(h, rule, a) <==> StartInside(h[..n], rule, a) || (h[n].count == 1 && inside))
            && !(StartInside(h[..n], rule, a) && h[n].count == 1 && inside)
  {
    var n := |h| - 1;
    if StartInside(h[..n], rule, a) {
      var i :| 0 <= i < n && h[..n][i].count == 1 && a <= h[..n][i].time < a + rule.windowMs;
      assert h[i].count == 1 && a <= h[i].time < a + rule.windowMs;
    }
    if StartInside(h, rule, a) && !(h[n].count == 1 && a <= h[n].time < a + rule.windowMs) {
      var i :| 0 <= i < |h| && h[i].count == 1 && a <= h[i].time < a + rule.windowMs;
      assert h[..n][i] == h[i];
    }
  }

  /** Over any request sequence with a monotone clock, whatever falls between a request's incr and its
      expire, no half-open interval of one window admits more than 2 * max - 1 requests of a bucket key. */
  lemma AtMostTwiceMax(rule: Rule, steps: seq<Step>, start: int, key: string, a: int)
    requires rule.windowMs >= 0 && rule.max >= 1
    ensures AdmittedIn(HitsOf(TakeAll(rule, steps, start), key), rule, a) <= 2 * rule.max - 1
  {
    ReachableInv(rule, steps, start);
    AdmittedSoFar(HitsOf(TakeAll(rule, steps, start), key), rule, a);
  }

  // The hits from i up to j belong to the bucket that started with hit i.
  ghost predicate OneLifetime(h: seq<Hit>, i: nat, j: nat) {
    i < j <= |h| && h[i].count == 1 && forall k :: i < k < j ==> h[k].count != 1
  }

  /** A bucket lifetime admits exactly its first max requests. */
  lemma {:induction false} AtMostMaxPerLifetime(h: seq<Hit>, rule: Rule, i: nat, j: nat)
    requires Windowed(h, rule.windowMs) && OneLifetime(h, i, j) && rule.max >= 0
    ensures h[j - 1].count == j - i
    ensures AdmittedAll(h[i..j], rule) == Min(j - i, rule.max)
    decreases j
  {
    var run := h[i..j];
    assert run[..|run| - 1] == h[i..j - 1];
    if j == i + 1 {
      assert h[i..i] == [];
    } else {
      AtMostMaxPerLifetime(h, rule, i, j - 1);
      assert h[j - 1].count == h[j - 2].count + 1;
    }
  }

  lemma NextStep(rule: Rule, steps: seq<Step>, step: Step, start: int)
    ensures TakeAll(rule, steps + [step], start) == Take(TakeAll(rule, steps, start), rule, step)
  {
    assert (steps + [step])[..|steps|] == steps;
  }

  // The bucket has the given count and lives until the given time.
  predicate Holding(s: State, key: string, count: int, expiry: int) {
    key in s.entries && s.entries[key] == Entry(Number(count), Some(expiry))
  }

  // A bucket that is not live starts, and is armed at once.
  lemma Starts(rule: Rule, steps: seq<Step>, key: string, t: int) returns (more: seq<Step>)
    requires var s := TakeAll(rule, steps, 0); s.clock <= t && Live(s.entries, key, t).None?
    ensures var s, u := TakeAll(rule, steps, 0), TakeAll(rule, more, 0);
            && Holding(u, key, 1, t + rule.windowMs) && u.clock == t && HitsOf(u, key) == HitsOf(s, key) + [Hit(t, 1)]
  {
    hide TakeAll, Number;
    var request := steps + [Request(key, t)];
    more := request + [Arm(key, t, t)];
    NextStep(rule, steps, Request(key, t), 0);
    NextStep(rule, request, Arm(key, t, t), 0);
  }

  // While it lives, n requests at one instant inside the interval are all admitted, up to max.
  lemma {:induction false} Burst(rule: Rule, steps: seq<Step>, key: string, t: int, count: int, expiry: int,
          n: nat, a: int)
    returns (more: seq<Step>)
    requires var s := TakeAll(rule, steps, 0); s.clock <= t < expiry && Holding(s, key, count, expiry)
    requires 1 <= count && count + n <= rule.max && a <= t < a + rule.windowMs
    ensures var s, u := TakeAll(rule, steps, 0), TakeAll(rule, more, 0);
            && Holding(u, key, count + n, expiry) && u.clock <= t
            && AdmittedIn(HitsOf(u, key), rule, a) == AdmittedIn(HitsOf(s, key), rule, a) + n
  {
    hide TakeAll, Digits;
    if n == 0 {
      more := steps;
    } else {
      var before := Burst(rule, steps, key, t, count, expiry, n - 1, a);
      var u := TakeAll(rule, before, 0);
      more := before + [Request(key, t)];
      NextStep(rule, before, Request(key, t), 0);
      var h, hit := HitsOf(u, key), Hit(t, count + n);
      assert (h + [hit])[..|h|] == h;
      assert HitsOf(TakeAll(rule, more, 0), key) == h + [hit];
    }
  }

  /** 2 * max - 1 is reached by every rule with a window of two milliseconds or more: one request starts
      a bucket, max - 1 come in its last millisecond, and max as soon as it has expired. */
  lemma BoundIsReached(rule: Rule, key: string) returns (steps: seq<Step>)
    requires rule.max >= 1 && rule.windowMs >= 2
    ensures AdmittedIn(HitsOf(TakeAll(rule, steps, 0), key), rule, 1) == 2 * rule.max - 1
  {
    var w := rule.windowMs;
    assert TakeAll(rule, [], 0) == State(map[], {}, map[], 0);
    var first := Starts(rule, [], key, 0);
    var h := HitsOf(TakeAll(rule, first, 0), key);
    assert h == [Hit(0, 1)] && h[..0] == [] && AdmittedIn(h, rule, 1) == 0;
    hide TakeAll, Number;
    var full := Burst(rule, first, key, w - 1, 1, w, rule.max - 1, 1);
    var again := Starts(rule, full, key, w);
    var before := HitsOf(TakeAll(rule, full, 0), key);
    assert (before + [Hit(w, 1)])[..|before|] == before;
    steps := Burst(rule, again, key, w, 1, 2 * w, rule.max - 1, 1);
  }
}
