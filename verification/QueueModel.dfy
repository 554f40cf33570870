/** The in-process job queue of packages/queue/src/memory.driver.ts as a state machine: each
    transition is one run-to-completion piece of the event loop. */
module QueueModel {
  import opened Wrappers
  import opened Ids

  datatype Job = Job(id: string, name: string, queue: string, attempt: nat, maxAttempts: int, runAt: int)

  datatype Reason = NoHandler | InvalidPayload | Exhausted

  datatype EventKind = QueuedEvent | ActiveEvent | CompletedEvent | RetryEvent | DeadEvent(reason: Reason)

  datatype Event = Event(kind: EventKind, id: string, attempt: nat, maxAttempts: int)

  /** pending is in insertion order; running holds the attempts whose handler has not settled;
      settling counts, per queue, the attempts that settled but still hold their slot. */
  datatype State = State(
    pending: seq<Job>, running: map<string, Job>, settling: multiset<string>,
    inFlight: set<string>, activeByQueue: map<string, nat>,
    handlers: set<(string, string)>, started: bool, closed: bool, cleared: bool, events: seq<Event>)

  datatype Step =
    | Enqueue(job: Job, valid: bool)
    | Register(queue: string, name: string)
    | StartConsuming
    | DispatchDue(now: int, payloadOk: Job -> bool)
    | Settle(id: string, result: Settled, now: int, delay: int)
    | ReleaseSlot(queue: string)
    | Close
    | Clear

  datatype Settled = Succeeded | Threw | ThrewInvalidPayload

  const EMPTY := State([], map[], multiset{}, {}, map[], {}, false, false, false, [])

  function Active(s: State, q: string): nat {
    Count(s.activeByQueue, q)
  }

  function Emit(s: State, kind: EventKind, j: Job, attempt: nat): State {
    s.(events := s.events + [Event(kind, j.id, attempt, j.maxAttempts)])
  }

  /** enqueue: refused when closed or invalid, a no-op for an id in flight. */
  function DoEnqueue(s: State, job: Job, valid: bool): State {
    if s.closed || job.id in s.inFlight || !valid then s
    else
      var j := job.(attempt := 1);
      Emit(s.(inFlight := s.inFlight + {j.id}, pending := s.pending + [j]), QueuedEvent, j, 0)
  }

  // ---- dispatching ----

  function Due(pending: seq<Job>, now: int): (r: seq<Job>)
    ensures forall j :: j in r <==> j in pending && j.runAt <= now
  {
    if pending == [] then []
    else
      var n := |pending| - 1;
      assert pending == pending[..n] + [pending[n]];
      Due(pending[..n], now) + if pending[n].runAt <= now then [pending[n]] else []
  }

  predicate ByRunAt(s: seq<Job>) {
    forall i, j :: 0 <= i < j < |s| ==> s[i].runAt <= s[j].runAt
  }

  function InsertByRunAt(x: Job, s: seq<Job>): (r: seq<Job>)
    ensures multiset(r) == multiset(s) + multiset{x}
    decreases |s|
  {
    if s == [] then [x]
    else
      var n := |s| - 1;
      assert s == s[..n] + [s[n]];
      if s[n].runAt <= x.runAt then s + [x] else InsertByRunAt(x, s[..n]) + [s[n]]
  }

  lemma {:induction false} InsertSorted(x: Job, s: seq<Job>)
    requires ByRunAt(s)
    ensures ByRunAt(InsertByRunAt(x, s))
    decreases |s|
  {
    hide InsertByRunAt, ByRunAt;
    if s == [] || s[|s| - 1].runAt <= x.runAt {
      InsertedLast(x, s);
      if s != [] {
        InitBounded(s);
      }
      AppendOrdered(s, x);
    } else {
      var n := |s| - 1;
      InsertedBefore(x, s);
      InsertSorted(x, s[..n]);
      InitBounded(s);
      InsertBounded(x, s[..n], s[n].runAt);
      AppendOrdered(InsertByRunAt(x, s[..n]), s[n]);
    }
  }

  lemma InitBounded(s: seq<Job>)
    requires ByRunAt(s) && s != []
    ensures forall y :: y in s ==> y.runAt <= s[|s| - 1].runAt
  {
  }

  lemma AppendOrdered(s: seq<Job>, x: Job)
    requires ByRunAt(s) && (s == [] || forall i :: 0 <= i < |s| ==> s[i].runAt <= x.runAt)
    ensures ByRunAt(s + [x])
  {
  }

  lemma InsertBounded(x: Job, s: seq<Job>, bound: int)
    requires x.runAt <= bound && forall y :: y in s ==> y.runAt <= bound
    ensures forall i :: 0 <= i < |InsertByRunAt(x, s)| ==> InsertByRunAt(x, s)[i].runAt <= bound
  {
    hide InsertByRunAt;
    var r := InsertByRunAt(x, s);
    forall i | 0 <= i < |r|
      ensures r[i].runAt <= bound
    {
      assert r[i] in multiset(r);
      assert r[i] in s || r[i] == x;
    }
  }

  /** The stable sort of the due jobs by their run time. */
  function SortByRunAt(s: seq<Job>): (r: seq<Job>)
    ensures multiset(r) == multiset(s) && ByRunAt(r)
  {
    if s == [] then []
    else
      assert s == s[..|s| - 1] + [s[|s| - 1]];
      InsertSorted(s[|s| - 1], SortByRunAt(s[..|s| - 1]));
      InsertByRunAt(s[|s| - 1], SortByRunAt(s[..|s| - 1]))
  }

  function AtTime(s: seq<Job>, t: int): seq<Job> {
    if s == [] then [] else AtTime(s[..|s| - 1], t) + if s[|s| - 1].runAt == t then [s[|s| - 1]] else []
  }

  lemma AtTimeNext(s: seq<Job>, x: Job, t: int)
    ensures AtTime(s + [x], t) == AtTime(s, t) + if x.runAt == t then [x] else []
  {
    assert (s + [x])[..|s|] == s;
  }

  lemma InsertedBefore(x: Job, s: seq<Job>)
    requires ByRunAt(s) && s != [] && s[|s| - 1].runAt > x.runAt
    ensures ByRunAt(s[..|s| - 1])
    ensures InsertByRunAt(x, s) == InsertByRunAt(x, s[..|s| - 1]) + [s[|s| - 1]]
  {
  }

  lemma {:induction false} InsertStable(x: Job, s: seq<Job>, t: int)
    requires ByRunAt(s)
    ensures AtTime(InsertByRunAt(x, s), t) == AtTime(s + [x], t)
    decreases |s|
  {
    hide InsertByRunAt, AtTime, ByRunAt;
    if s == [] || s[|s| - 1].runAt <= x.runAt {
      InsertedLast(x, s);
    } else {
      var n := |s| - 1;
      InsertedBefore(x, s);
      assert s == s[..n] + [s[n]];
      InsertStable(x, s[..n], t);
      AtTimeNext(InsertByRunAt(x, s[..n]), s[n], t);
      AtTimeNext(s[..n], x, t);
      AtTimeNext(s[..n], s[n], t);
      AtTimeNext(s, x, t);
    }
  }

  lemma InsertedLast(x: Job, s: seq<Job>)
    requires ByRunAt(s) && (s == [] || s[|s| - 1].runAt <= x.runAt)
    ensures InsertByRunAt(x, s) == s + [x]
  {
  }

  /** Jobs due at the same time are dispatched in the order they were enqueued. */
  lemma {:induction false} SortStable(s: seq<Job>, t: int)
    ensures AtTime(SortByRunAt(s), t) == AtTime(s, t)
  {
    if s != [] {
      var n := |s| - 1;
      SortStable(s[..n], t);
      InsertStable(s[n], SortByRunAt(s[..n]), t);
      AtTimeNext(SortByRunAt(s[..n]), s[n], t);
    }
  }

  function Without(pending: seq<Job>, id: string): (r: seq<Job>)
    ensures forall j :: j in r <==> j in pending && j.id != id
    ensures |r| <= |pending|
  {
    if pending == [] then []
    else
      var n := |pending| - 1;
      assert pending == pending[..n] + [pending[n]];
      Without(pending[..n], id) + if pending[n].id != id then [pending[n]] else []
  }

  // Line 271 and 235: the id leaves the in-flight set and the slot is about to be released.
  function Finish(s: State, kind: EventKind, j: Job): State {
    Emit(s.(inFlight := s.inFlight - {j.id}, settling := s.settling + multiset{j.queue}), kind, j, j.attempt)
  }

  /** The synchronous part of execute for a job that got a slot. */
  function Execute(s: State, j: Job, payloadOk: bool): State {
    if (j.queue, j.name) !in s.handlers then Finish(s, DeadEvent(NoHandler), j)
    else
      var active := Emit(s, ActiveEvent, j, j.attempt);
      if !payloadOk then Finish(active, DeadEvent(InvalidPayload), j)
      else active.(running := active.running[j.id := j])
  }

  /** One round of the dispatch loop. */
  function Dispatch(s: State, j: Job, concurrency: nat, payloadOk: bool): State {
    if Active(s, j.queue) >= concurrency then s
    else if j !in s.pending then s
    else
      Execute(s.(pending := Without(s.pending, j.id),
                 activeByQueue := s.activeByQueue[j.queue := Active(s, j.queue) + 1]), j, payloadOk)
  }

  function DispatchAll(s: State, due: seq<Job>, concurrency: nat, payloadOk: Job -> bool): State {
    if due == [] then s
    else
      var n := |due| - 1;
      Dispatch(DispatchAll(s, due[..n], concurrency, payloadOk), due[n], concurrency, payloadOk(due[n]))
  }

  function DoDispatchDue(s: State, now: int, concurrency: nat, payloadOk: Job -> bool): State {
    if !s.started || s.closed then s
    else DispatchAll(s, SortByRunAt(Due(s.pending, now)), concurrency, payloadOk)
  }

  // ---- settling ----

  function DoSettle(s: State, id: string, result: Settled, now: int, delay: int): State {
    if id !in s.running then s
    else
      var j := s.running[id];
      var done := s.(running := s.running - {id});
      match result
      case Succeeded => Finish(done, CompletedEvent, j)
      case ThrewInvalidPayload => Finish(done, DeadEvent(InvalidPayload), j)
      case Threw =>
        if j.attempt >= j.maxAttempts then Finish(done, DeadEvent(Exhausted), j)
        else Again(done, j, now + delay)
  }

  // Lines 252-266: the next attempt of j, due at runAt.
  function Again(s: State, j: Job, runAt: int): State {
    var retried := Emit(s.(settling := s.settling + multiset{j.queue}), RetryEvent, j, j.attempt);
    retried.(pending := retried.pending + [j.(attempt := j.attempt + 1, runAt := runAt)])
  }

  // The `finally` callback of line 203.
  function DoRelease(s: State, q: string): State {
    if q !in s.settling then s
    else
      s.(settling := s.settling - multiset{q},
         activeByQueue := s.activeByQueue[q := if Active(s, q) >= 1 then Active(s, q) - 1 else 0])
  }

  function Apply(s: State, step: Step, concurrency: nat): State {
    match step
    case Enqueue(job, valid) => DoEnqueue(s, job, valid)
    case Register(queue, name) => s.(handlers := s.handlers + {(queue, name)})
    case StartConsuming => if s.closed then s else s.(started := true)
    case DispatchDue(now, payloadOk) => DoDispatchDue(s, now, concurrency, payloadOk)
    case Settle(id, result, now, delay) => DoSettle(s, id, result, now, delay)
    case ReleaseSlot(q) => DoRelease(s, q)
    case Close => s.(closed := true, started := false)
    case Clear => if s.closed then s.(pending := [], inFlight := {}, cleared := true) else s
  }

  function Run(s: State, steps: seq<Step>, concurrency: nat): State {
    if steps == [] then s
    else
      var n := |steps| - 1;
      Apply(Run(s, steps[..n], concurrency), steps[n], concurrency)
  }

  // ---- lives of a job id ----

  /** Where the events of one id have led: the language
      (queued ((active retry)* active (completed | dead) | dead))* with attempts counted from 1. */
  datatype Life = Idle | Waiting(next: nat, max: int) | Busy(attempt: nat, max: int) | Broken

  function LifeAfter(l: Life, e: Event): Life {
    match l
    case Idle => if e.kind == QueuedEvent && e.attempt == 0 then Waiting(1, e.maxAttempts) else Broken
    case Waiting(k, max) =>
      if e.attempt != k || e.maxAttempts != max then Broken
      else if e.kind == ActiveEvent then Busy(k, max)
      else if e.kind == DeadEvent(NoHandler) && k == 1 then Idle
      else Broken
    case Busy(k, max) =>
      if e.attempt != k || e.maxAttempts != max then Broken
      else if e.kind == CompletedEvent || e.kind == DeadEvent(InvalidPayload) then Idle
      else if e.kind == DeadEvent(Exhausted) && k >= max then Idle
      else if e.kind == RetryEvent && k < max then Waiting(k + 1, max)
      else Broken
    case Broken => Broken
  }

  function LifeOf(events: seq<Event>, id: string): Life {
    if events == [] then Idle
    else
      var n := |events| - 1;
      var before := LifeOf(events[..n], id);
      if events[n].id == id then LifeAfter(before, events[n]) else before
  }

  lemma LifeNext(events: seq<Event>, e: Event, id: string)
    ensures LifeOf(events + [e], id) == if e.id == id then LifeAfter(LifeOf(events, id), e) else LifeOf(events, id)
  {
    assert (events + [e])[..|events|] == events;
  }

  // ---- the invariant ----

  function JobIds(s: seq<Job>): (r: seq<string>)
    ensures |r| == |s| && forall i :: 0 <= i < |s| ==> r[i] == s[i].id
  {
    seq(|s|, i requires 0 <= i < |s| => s[i].id)
  }

  function RunningIn(running: map<string, Job>, q: string): set<string> {
    set id | id in running && running[id].queue == q
  }

  function Count(active: map<string, nat>, q: string): nat {
    if q in active then active[q] else 0
  }

  /** Each queue's counter is the number of its attempts holding a slot, and within bounds. */
  ghost predicate Slots(running: map<string, Job>, settling: multiset<string>, active: map<string, nat>, c: nat) {
    forall q :: Count(active, q) == |RunningIn(running, q)| + settling[q] && Count(active, q) <= c
  }

  /** inFlight is exactly the ids pending or running, each once. */
  ghost predicate InFlightExact(s: State) {
    && Distinct(JobIds(s.pending))
    && (forall j :: j in s.pending ==> j.id !in s.running)
    && (forall id :: id in s.running ==> s.running[id].id == id)
    && (forall j :: j in s.pending ==> j.id in s.inFlight)
    && (forall id :: id in s.running ==> id in s.inFlight)
    && forall id :: id in s.inFlight ==> id in s.running || exists j :: j in s.pending && j.id == id
  }

  // A job beyond its first attempt has a handler: handlers are never unregistered.
  predicate PendingLife(s: State, j: Job) {
    && LifeOf(s.events, j.id) == Waiting(j.attempt, j.maxAttempts)
    && j.attempt >= 1 && (j.attempt > 1 ==> (j.queue, j.name) in s.handlers)
  }

  predicate RunningLife(s: State, id: string, j: Job) {
    LifeOf(s.events, id) == Busy(j.attempt, j.maxAttempts) && j.attempt >= 1 && (j.queue, j.name) in s.handlers
  }

  ghost predicate Lives(s: State) {
    && (forall j :: j in s.pending ==> PendingLife(s, j))
    && (forall id :: id in s.running ==> RunningLife(s, id, s.running[id]))
    && forall id :: id !in s.inFlight ==> LifeOf(s.events, id) == Idle
  }

  ghost predicate Inv(s: State, concurrency: nat) {
    Slots(s.running, s.settling, s.activeByQueue, concurrency) && (!s.cleared ==> InFlightExact(s) && Lives(s))
        && (s.cleared ==> s.closed)
  }

  // ---- each transition keeps it ----

  lemma PendingUnique(s: seq<Job>, a: Job, b: Job)
    requires Distinct(JobIds(s)) && a in s && b in s && a.id == b.id
    ensures a == b
  {
    var i :| 0 <= i < |s| && s[i] == a;
    var j :| 0 <= j < |s| && s[j] == b;
    assert JobIds(s)[i] == JobIds(s)[j];
  }

  lemma {:induction false} WithoutDistinct(s: seq<Job>, id: string)
    requires Distinct(JobIds(s))
    ensures Distinct(JobIds(Without(s, id)))
  {
    if s != [] {
      var n := |s| - 1;
      var w := Without(s[..n], id);
      assert JobIds(s)[..n] == JobIds(s[..n]);
      WithoutDistinct(s[..n], id);
      forall j | j in w
        ensures j.id != s[n].id
      {
        var k :| 0 <= k < n && s[..n][k] == j;
        assert JobIds(s)[k] != JobIds(s)[n];
      }
      AppendDistinct(w, s[n]);
      assert Without(s, id) == if s[n].id != id then w + [s[n]] else w;
    }
  }

  lemma AppendDistinct(s: seq<Job>, j: Job)
    requires Distinct(JobIds(s)) && forall k :: k in s ==> k.id != j.id
    ensures Distinct(JobIds(s + [j]))
  {
    assert JobIds(s + [j]) == JobIds(s) + [j.id];
    forall i | 0 <= i < |s|
      ensures JobIds(s)[i] != j.id
    {
      assert s[i] in s;
    }
  }

  lemma EnqueueKeeps(s: State, job: Job, valid: bool, c: nat)
    requires Inv(s, c)
    ensures Inv(DoEnqueue(s, job, valid), c)
  {
    if !(s.closed || job.id in s.inFlight || !valid) {
      EnqueuedKeeps(s, DoEnqueue(s, job, valid), job.(attempt := 1));
    }
  }

  lemma EnqueuedKeeps(s: State, t: State, j: Job)
    requires InFlightExact(s) && Lives(s) && j.id !in s.inFlight && j.attempt == 1
    requires t == Emit(s.(inFlight := s.inFlight + {j.id}, pending := s.pending + [j]), QueuedEvent, j, 0)
    ensures InFlightExact(t) && Lives(t)
  {
    hide LifeOf, Distinct;
    assert j in t.pending && forall k :: k in t.pending <==> k in s.pending || k == j;
    forall id
      ensures LifeOf(t.events, id) == if id == j.id then Waiting(1, j.maxAttempts) else LifeOf(s.events, id)
    {
      LifeNext(s.events, Event(QueuedEvent, j.id, 0, j.maxAttempts), id);
    }
    AppendDistinct(s.pending, j);
    assert forall k :: k in s.pending ==> PendingLife(s, k);
    assert forall k :: k in s.running ==> RunningLife(s, k, s.running[k]);
  }

  lemma RunningInAdd(running: map<string, Job>, j: Job, q: string)
    requires j.id !in running
    ensures |RunningIn(running[j.id := j], q)| == |RunningIn(running, q)| + if q == j.queue then 1 else 0
  {
    var before, after := RunningIn(running, q), RunningIn(running[j.id := j], q);
    assert j.id !in before;
    if q == j.queue {
      assert after == before + {j.id};
    } else {
      assert after == before;
    }
  }

  lemma StartSlot(running: map<string, Job>, settling: multiset<string>, active: map<string, nat>, c: nat, j: Job)
    requires Slots(running, settling, active, c) && j.id !in running && Count(active, j.queue) < c
    ensures Slots(running[j.id := j], settling, active[j.queue := Count(active, j.queue) + 1], c)
  {
    hide RunningIn;
    var after := active[j.queue := Count(active, j.queue) + 1];
    forall q
      ensures Count(after, q) == |RunningIn(running[j.id := j], q)| + settling[q] && Count(after, q) <= c
    {
      RunningInAdd(running, j, q);
      assert Count(active, q) == |RunningIn(running, q)| + settling[q] && Count(active, q) <= c;
      assert Count(after, q) == Count(active, q) + if q == j.queue then 1 else 0;
    }
  }

  lemma StartSettling(running: map<string, Job>, settling: multiset<string>, active: map<string, nat>, c: nat,
          q: string)
    requires Slots(running, settling, active, c) && Count(active, q) < c
    ensures Slots(running, settling + multiset{q}, active[q := Count(active, q) + 1], c)
  {
    hide RunningIn;
    var more, after := settling + multiset{q}, active[q := Count(active, q) + 1];
    forall p
      ensures Count(after, p) == |RunningIn(running, p)| + more[p] && Count(after, p) <= c
    {
      assert Count(active, p) == |RunningIn(running, p)| + settling[p] && Count(active, p) <= c;
      assert more[p] == settling[p] + if p == q then 1 else 0;
      assert Count(after, p) == Count(active, p) + if p == q then 1 else 0;
    }
  }

  lemma StopRunning(running: map<string, Job>, settling: multiset<string>, active: map<string, nat>, c: nat, id: string)
    requires Slots(running, settling, active, c) && id in running
    ensures Slots(running - {id}, settling + multiset{running[id].queue}, active, c)
  {
    var p := running[id].queue;
    var more := settling + multiset{p};
    forall q
      ensures Count(active, q) == |RunningIn(running - {id}, q)| + more[q]
    {
      RunningInRemove(running, id, q);
      assert Count(active, q) == |RunningIn(running, q)| + settling[q];
      assert more[q] == settling[q] + if q == p then 1 else 0;
    }
    hide RunningIn;
  }

  lemma RunningInRemove(running: map<string, Job>, id: string, q: string)
    requires id in running
    ensures |RunningIn(running - {id}, q)| == |RunningIn(running, q)| - if q == running[id].queue then 1 else 0
  {
    if q == running[id].queue {
      assert RunningIn(running - {id}, q) == RunningIn(running, q) - {id};
    } else {
      assert RunningIn(running - {id}, q) == RunningIn(running, q);
    }
  }

  // The two ways a dispatched job leaves the pending set.
  ghost predicate Started(s: State, t: State, j: Job) {
    && t.running == s.running[j.id := j] && t.settling == s.settling && t.inFlight == s.inFlight
    && (j.queue, j.name) in s.handlers
    && t.events == s.events + [Event(ActiveEvent, j.id, j.attempt, j.maxAttempts)]
  }

  ghost predicate DiedAtOnce(s: State, t: State, j: Job) {
    && t.running == s.running && t.settling == s.settling + multiset{j.queue} && t.inFlight == s.inFlight - {j.id}
    && if (j.queue, j.name) !in s.handlers
       then t.events == s.events + [Event(DeadEvent(NoHandler), j.id, j.attempt, j.maxAttempts)]
       else t.events == s.events + [Event(ActiveEvent, j.id, j.attempt, j.maxAttempts)]
                                 + [Event(DeadEvent(InvalidPayload), j.id, j.attempt, j.maxAttempts)]
  }

  ghost predicate TookSlot(s: State, t: State, j: Job) {
    && t.pending == Without(s.pending, j.id) && t.handlers == s.handlers
    && t.activeByQueue == s.activeByQueue[j.queue := Active(s, j.queue) + 1]
    && t.closed == s.closed && t.cleared == s.cleared
  }

  lemma DispatchShape(s: State, j: Job, c: nat, ok: bool)
    requires Active(s, j.queue) < c && j in s.pending
    ensures var t := Dispatch(s, j, c, ok);
            TookSlot(s, t, j) && (Started(s, t, j) || DiedAtOnce(s, t, j))
  {
    var slot := s.(pending := Without(s.pending, j.id),
        activeByQueue := s.activeByQueue[j.queue := Active(s, j.queue) + 1]);
    hide Without, Active;
    ExecuteShape(slot, j, ok);
  }

  lemma ExecuteShape(s: State, j: Job, ok: bool)
    ensures var t := Execute(s, j, ok);
            && t.pending == s.pending && t.handlers == s.handlers && t.activeByQueue == s.activeByQueue
            && t.closed == s.closed && t.cleared == s.cleared && t.started == s.started
            && (Started(s, t, j) || DiedAtOnce(s, t, j))
  {
    if (j.queue, j.name) !in s.handlers || !ok {
      assert DiedAtOnce(s, Execute(s, j, ok), j);
    }
  }

  lemma StartedLives(s: State, t: State, j: Job, x: string)
    requires LifeOf(s.events, j.id) == Waiting(j.attempt, j.maxAttempts)
    requires Started(s, t, j)
    ensures LifeOf(t.events, x) == if x == j.id then Busy(j.attempt, j.maxAttempts) else LifeOf(s.events, x)
  {
    LifeNext(s.events, Event(ActiveEvent, j.id, j.attempt, j.maxAttempts), x);
  }

  lemma DiedLives(s: State, t: State, j: Job, x: string)
    requires LifeOf(s.events, j.id) == Waiting(j.attempt, j.maxAttempts)
    requires (j.queue, j.name) !in s.handlers ==> j.attempt == 1
    requires DiedAtOnce(s, t, j)
    ensures LifeOf(t.events, x) == if x == j.id then Idle else LifeOf(s.events, x)
  {
    if (j.queue, j.name) !in s.handlers {
      LifeNext(s.events, Event(DeadEvent(NoHandler), j.id, j.attempt, j.maxAttempts), x);
    } else {
      var e := Event(ActiveEvent, j.id, j.attempt, j.maxAttempts);
      LifeNext(s.events, e, x);
      LifeNext(s.events + [e], Event(DeadEvent(InvalidPayload), j.id, j.attempt, j.maxAttempts), x);
    }
  }

  lemma DispatchKeeps(s: State, j: Job, c: nat, ok: bool)
    requires Inv(s, c) && !s.closed
    ensures Inv(Dispatch(s, j, c, ok), c)
    ensures Dispatch(s, j, c, ok).closed == s.closed && Dispatch(s, j, c, ok).cleared == s.cleared
  {
    if Active(s, j.queue) < c && j in s.pending {
      var t := Dispatch(s, j, c, ok);
      DispatchShape(s, j, c, ok);
      DispatchSlots(s, t, j, c);
      hide Dispatch, Started, DiedAtOnce, Slots, InFlightExact, Lives;
      if Started(s, t, j) {
        StartedKeeps(s, t, j, c);
      } else {
        DiedKeeps(s, t, j, c);
      }
    }
  }

  lemma DispatchSlots(s: State, t: State, j: Job, c: nat)
    requires Slots(s.running, s.settling, s.activeByQueue, c) && j.id !in s.running && Active(s, j.queue) < c
    requires TookSlot(s, t, j) && (Started(s, t, j) || DiedAtOnce(s, t, j))
    ensures Slots(t.running, t.settling, t.activeByQueue, c)
  {
    hide Slots;
    if Started(s, t, j) {
      StartSlot(s.running, s.settling, s.activeByQueue, c, j);
    } else {
      StartSettling(s.running, s.settling, s.activeByQueue, c, j.queue);
    }
  }

  lemma StartedKeeps(s: State, t: State, j: Job, c: nat)
    requires Inv(s, c) && !s.closed && j in s.pending && TookSlot(s, t, j) && Started(s, t, j) && Active(s, j.queue) < c
    ensures InFlightExact(t) && Lives(t)
  {
    hide LifeOf, Slots;
    LeftPending(s, t, j);
    forall x
      ensures LifeOf(t.events, x) == if x == j.id then Busy(j.attempt, j.maxAttempts) else LifeOf(s.events, x)
    {
      assert PendingLife(s, j);
      StartedLives(s, t, j, x);
    }
    assert PendingLife(s, j);
    OthersKeepLives(s, t, j.id);
    assert RunningLife(t, j.id, j);
  }

  lemma DiedKeeps(s: State, t: State, j: Job, c: nat)
    requires Inv(s, c) && !s.closed && j in s.pending && TookSlot(s, t, j) && DiedAtOnce(s, t, j)
        && Active(s, j.queue) < c
    ensures InFlightExact(t) && Lives(t)
  {
    hide LifeOf, Slots;
    LeftPending(s, t, j);
    forall x
      ensures LifeOf(t.events, x) == if x == j.id then Idle else LifeOf(s.events, x)
    {
      assert PendingLife(s, j);
      DiedLives(s, t, j, x);
    }
    OthersKeepLives(s, t, j.id);
  }

  // The pending part of the invariant once j has left the pending set.
  lemma LeftPending(s: State, t: State, j: Job)
    requires InFlightExact(s) && j in s.pending && TookSlot(s, t, j)
    requires (t.running == s.running && t.inFlight == s.inFlight - {j.id})
             || (t.running == s.running[j.id := j] && t.inFlight == s.inFlight)
    ensures InFlightExact(t)
  {
    WithoutDistinct(s.pending, j.id);
    UniqueInPending(s.pending, j);
    forall id | id in t.inFlight && id !in t.running
      ensures exists k :: k in t.pending && k.id == id
    {
      var k :| k in s.pending && k.id == id;
      assert k in t.pending;
    }
  }

  // Jobs other than `id` that stay pending or running keep their histories.
  lemma OthersKeepLives(s: State, t: State, id: string)
    requires Lives(s) && t.handlers == s.handlers
    requires forall x :: x != id ==> LifeOf(t.events, x) == LifeOf(s.events, x)
    ensures forall k :: k in s.pending && k.id != id ==> PendingLife(t, k)
    ensures forall x :: x in s.running && x != id ==> RunningLife(t, x, s.running[x])
  {
    hide LifeOf;
    forall k | k in s.pending && k.id != id
      ensures PendingLife(t, k)
    {
      assert PendingLife(s, k);
    }
    forall x | x in s.running && x != id
      ensures RunningLife(t, x, s.running[x])
    {
      assert RunningLife(s, x, s.running[x]);
    }
  }

  lemma UniqueInPending(pending: seq<Job>, j: Job)
    requires Distinct(JobIds(pending)) && j in pending
    ensures forall k :: k in pending && k.id == j.id ==> k == j
  {
    forall k | k in pending && k.id == j.id
      ensures k == j
    {
      PendingUnique(pending, k, j);
    }
  }

  lemma {:induction false} DispatchAllKeeps(s: State, due: seq<Job>, c: nat, ok: Job -> bool)
    requires Inv(s, c) && !s.closed
    ensures Inv(DispatchAll(s, due, c, ok), c)
    ensures DispatchAll(s, due, c, ok).closed == s.closed
  {
    if due != [] {
      var n := |due| - 1;
      DispatchAllKeeps(s, due[..n], c, ok);
      DispatchKeeps(DispatchAll(s, due[..n], c, ok), due[n], c, ok(due[n]));
    }
  }

  // A settled attempt either ends its job or puts it back with one more attempt.
  ghost predicate Ended(s: State, t: State, j: Job) {
    t.pending == s.pending && t.inFlight == s.inFlight - {j.id}
    && exists kind :: LifeAfter(Busy(j.attempt, j.maxAttempts), Event(kind, j.id, j.attempt, j.maxAttempts)) == Idle
                      && t.events == s.events + [Event(kind, j.id, j.attempt, j.maxAttempts)]
  }

  ghost predicate Retried(s: State, t: State, j: Job) {
    && t.inFlight == s.inFlight && |t.pending| == |s.pending| + 1 && t.pending[..|s.pending|] == s.pending
    && t.pending[|s.pending|] == j.(attempt := j.attempt + 1, runAt := t.pending[|s.pending|].runAt)
    && j.attempt < j.maxAttempts
    && t.events == s.events + [Event(RetryEvent, j.id, j.attempt, j.maxAttempts)]
  }

  lemma SettleShape(s: State, id: string, result: Settled, now: int, delay: int)
    requires id in s.running && s.running[id].id == id
    ensures var t, j := DoSettle(s, id, result, now, delay), s.running[id];
            && t.running == s.running - {id} && t.settling == s.settling + multiset{j.queue}
            && t.activeByQueue == s.activeByQueue && t.handlers == s.handlers
            && t.closed == s.closed && t.cleared == s.cleared
            && (Ended(s, t, j) || Retried(s, t, j))
  {
    var t, j := DoSettle(s, id, result, now, delay), s.running[id];
    if result == Threw && j.attempt < j.maxAttempts {
      assert Retried(s, t, j);
    } else {
      hide Retried;
      var kind := if result == Succeeded then CompletedEvent
                  else if result == ThrewInvalidPayload then DeadEvent(InvalidPayload) else DeadEvent(Exhausted);
      assert LifeAfter(Busy(j.attempt, j.maxAttempts), Event(kind, j.id, j.attempt, j.maxAttempts)) == Idle;
      assert t.events == s.events + [Event(kind, j.id, j.attempt, j.maxAttempts)];
    }
  }

  lemma EndedKeeps(s: State, t: State, j: Job)
    requires InFlightExact(s) && Lives(s) && j.id in s.running && j == s.running[j.id] && Ended(s, t, j)
    requires t.running == s.running - {j.id} && t.handlers == s.handlers
    ensures InFlightExact(t) && Lives(t)
  {
    hide LifeOf, LifeAfter;
    assert RunningLife(s, j.id, j);
    var kind :| LifeAfter(Busy(j.attempt, j.maxAttempts), Event(kind, j.id, j.attempt, j.maxAttempts)) == Idle
                && t.events == s.events + [Event(kind, j.id, j.attempt, j.maxAttempts)];
    forall x
      ensures LifeOf(t.events, x) == if x == j.id then Idle else LifeOf(s.events, x)
    {
      LifeNext(s.events, Event(kind, j.id, j.attempt, j.maxAttempts), x);
    }
    OthersKeepLives(s, t, j.id);
  }

  lemma RetriedKeeps(s: State, t: State, j: Job)
    requires InFlightExact(s) && Lives(s) && j.id in s.running && j == s.running[j.id] && Retried(s, t, j)
    requires t.running == s.running - {j.id} && t.handlers == s.handlers
    ensures InFlightExact(t) && Lives(t)
  {
    hide LifeOf, InFlightExact;
    assert RunningLife(s, j.id, j);
    var again := t.pending[|s.pending|];
    assert t.pending == s.pending + [again];
    forall x
      ensures LifeOf(t.events, x) == if x == j.id then Waiting(j.attempt + 1, j.maxAttempts) else LifeOf(s.events, x)
    {
      LifeNext(s.events, Event(RetryEvent, j.id, j.attempt, j.maxAttempts), x);
    }
    OthersKeepLives(s, t, j.id);
    RetriedInFlight(s, t, j, again);
  }

  lemma RetriedInFlight(s: State, t: State, j: Job, again: Job)
    requires InFlightExact(s) && j.id in s.running && again.id == j.id && t.inFlight == s.inFlight
    requires t.running == s.running - {j.id} && t.pending == s.pending + [again]
    ensures InFlightExact(t)
  {
    AppendDistinct(s.pending, again);
    forall id | id in t.inFlight && id !in t.running
      ensures exists k :: k in t.pending && k.id == id
    {
      if id == j.id {
        assert again in t.pending;
      } else {
        var k :| k in s.pending && k.id == id;
        assert k in t.pending;
      }
    }
  }

  lemma SettleKeeps(s: State, id: string, result: Settled, now: int, delay: int, c: nat)
    requires Inv(s, c)
    ensures Inv(DoSettle(s, id, result, now, delay), c)
  {
    if id in s.running {
      StopRunning(s.running, s.settling, s.activeByQueue, c, id);
      if !s.cleared {
        var t, j := DoSettle(s, id, result, now, delay), s.running[id];
        SettleShape(s, id, result, now, delay);
        hide DoSettle;
        if Ended(s, t, j) {
          EndedKeeps(s, t, j);
        } else {
          RetriedKeeps(s, t, j);
        }
      }
    }
  }

  lemma ReleaseKeeps(s: State, q: string, c: nat)
    requires Inv(s, c)
    ensures Inv(DoRelease(s, q), c)
  {
    hide RunningIn, InFlightExact, Lives;
    var t := DoRelease(s, q);
    if q in s.settling {
      forall x
        ensures Count(t.activeByQueue, x) == |RunningIn(s.running, x)| + t.settling[x] && Count(t.activeByQueue, x) <= c
      {
        assert Count(s.activeByQueue, x) == |RunningIn(s.running, x)| + s.settling[x];
      }
      SameJobs(s, t);
    }
  }

  // The rest of the invariant does not look at the slots.
  lemma SameJobs(s: State, t: State)
    requires t == s.(settling := t.settling, activeByQueue := t.activeByQueue)
    ensures (InFlightExact(s) <==> InFlightExact(t)) && (Lives(s) <==> Lives(t))
  {
    hide LifeOf, Distinct;
    assert forall j :: PendingLife(s, j) <==> PendingLife(t, j);
    assert forall id, j :: RunningLife(s, id, j) <==> RunningLife(t, id, j);
  }

  lemma StepKeeps(s: State, step: Step, c: nat)
    requires Inv(s, c)
    ensures Inv(Apply(s, step, c), c)
  {
    var t := Apply(s, step, c);
    match step
    case Enqueue(job, valid) => EnqueueKeeps(s, job, valid, c);
    case DispatchDue(now, ok) =>
      if s.started && !s.closed {
        DispatchAllKeeps(s, SortByRunAt(Due(s.pending, now)), c, ok);
      }
    case Settle(id, result, now, delay) => SettleKeeps(s, id, result, now, delay, c);
    case ReleaseSlot(q) => ReleaseKeeps(s, q, c);
    case _ =>
  }

  /** In every reachable state: no queue exceeds its concurrency; until the queue is closed and
      cleared, the ids in flight are exactly those pending or running, and the events of every
      id so far form a legal history whose open part is the state of its job. */
  lemma {:induction false} ReachableInv(steps: seq<Step>, c: nat)
    ensures Inv(Run(EMPTY, steps, c), c)
  {
    if steps == [] {
      assert forall q :: RunningIn(EMPTY.running, q) == {};
    } else {
      ReachableInv(steps[..|steps| - 1], c);
      StepKeeps(Run(EMPTY, steps[..|steps| - 1], c), steps[|steps| - 1], c);
    }
  }

  lemma HistoriesAreLegal(steps: seq<Step>, c: nat, id: string)
    requires !Run(EMPTY, steps, c).cleared
    ensures LifeOf(Run(EMPTY, steps, c).events, id) != Broken
  {
    ReachableInv(steps, c);
    var s := Run(EMPTY, steps, c);
    if id in s.inFlight && id !in s.running {
      var j :| j in s.pending && j.id == id;
    }
  }
}
