/** Why each event of the queue happens and when: a completion comes from a handler that returned, a death
    from its cause, and no job starts before the time it was put off to
    (packages/queue/src/memory.driver.ts). */
module QueueCauses {
  import opened Wrappers
  import opened QueueModel

  ghost predicate DueJob(s: State, now: int, id: string, handled: bool) {
    exists j :: j in s.pending && j.id == id && j.runAt <= now && ((j.queue, j.name) in s.handlers <==> handled)
  }

  ghost predicate RefusedPayload(s: State, now: int, id: string, payloadOk: Job -> bool) {
    exists j :: j in s.pending && j.id == id && j.runAt <= now && (j.queue, j.name) in s.handlers && !payloadOk(j)
  }

  /** What the step did, seen from the state before it, that made the event happen. */
  ghost predicate Caused(s: State, step: Step, e: Event) {
    match e.kind
    case QueuedEvent => step.Enqueue? && step.job.id == e.id && step.valid && !s.closed && e.id !in s.inFlight
    case ActiveEvent => step.DispatchDue? && s.started && !s.closed && DueJob(s, step.now, e.id, true)
    case CompletedEvent => step.Settle? && step.id == e.id && e.id in s.running && step.result == Succeeded
    case RetryEvent =>
      step.Settle? && step.id == e.id && e.id in s.running && step.result == Threw
      && s.running[e.id].attempt < s.running[e.id].maxAttempts
    case DeadEvent(NoHandler) => step.DispatchDue? && s.started && !s.closed && DueJob(s, step.now, e.id, false)
    case DeadEvent(InvalidPayload) =>
      || (step.Settle? && step.id == e.id && e.id in s.running && step.result == ThrewInvalidPayload)
      || (step.DispatchDue? && s.started && !s.closed && RefusedPayload(s, step.now, e.id, step.payloadOk))
    case DeadEvent(Exhausted) =>
      step.Settle? && step.id == e.id && e.id in s.running && step.result == Threw
      && s.running[e.id].attempt >= s.running[e.id].maxAttempts
  }

  // Running jobs sit under their own id, pending ones do not run, and until closing both are in flight.
  ghost predicate Keyed(s: State) {
    && (forall id :: id in s.running ==> s.running[id].id == id)
    && (forall j :: j in s.pending ==> j.id !in s.running)
    && (!s.closed ==> forall j :: j in s.pending ==> j.id in s.inFlight)
    && (!s.closed ==> forall id :: id in s.running ==> id in s.inFlight)
  }

  ghost predicate AllCaused(s: State, step: Step, t: State) {
    s.events <= t.events && forall i :: |s.events| <= i < |t.events| ==> Caused(s, step, t.events[i])
  }

  // ---- one dispatch ----

  // Between the start of a dispatch round and one of its jobs.
  ghost predicate Midway(s: State, t: State) {
    t.handlers == s.handlers && t.closed == s.closed && forall j :: j in t.pending ==> j in s.pending
  }

  lemma DispatchCauses(s: State, t: State, step: Step, j: Job, c: nat)
    requires step.DispatchDue? && s.started && !s.closed && Midway(s, t) && AllCaused(s, step, t) && Keyed(t)
    requires j in s.pending && j.runAt <= step.now
    ensures var u := Dispatch(t, j, c, step.payloadOk(j)); Midway(s, u) && AllCaused(s, step, u) && Keyed(u)
  {
    var u := Dispatch(t, j, c, step.payloadOk(j));
    hide Caused, Active;
    if u != t {
      assert DispatchedEvents(s, step, j, u.events[|t.events|..]) && t.events <= u.events by {
        DispatchAdds(s, t, step, j, c);
      }
      CausedByDispatch(s, step, j, u.events[|t.events|..]);
      forall i | |s.events| <= i < |u.events|
        ensures Caused(s, step, u.events[i])
      {
        assert i >= |t.events| ==> u.events[i] == u.events[|t.events|..][i - |t.events|];
        assert i < |t.events| ==> u.events[i] == t.events[i];
      }
    }
  }

  // What dispatching j can emit.
  ghost predicate DispatchedEvents(s: State, step: Step, j: Job, events: seq<Event>)
    requires step.DispatchDue?
  {
    if (j.queue, j.name) !in s.handlers then events == [Event(DeadEvent(NoHandler), j.id, j.attempt, j.maxAttempts)]
    else if step.payloadOk(j) then events == [Event(ActiveEvent, j.id, j.attempt, j.maxAttempts)]
    else events == [Event(ActiveEvent, j.id, j.attempt, j.maxAttempts),
                    Event(DeadEvent(InvalidPayload), j.id, j.attempt, j.maxAttempts)]
  }

  lemma DispatchAdds(s: State, t: State, step: Step, j: Job, c: nat)
    requires step.DispatchDue? && t.handlers == s.handlers
    requires Dispatch(t, j, c, step.payloadOk(j)) != t
    ensures var u := Dispatch(t, j, c, step.payloadOk(j));
            t.events <= u.events && DispatchedEvents(s, step, j, u.events[|t.events|..])
  {
    hide Active, Without;
  }

  lemma CausedByDispatch(s: State, step: Step, j: Job, events: seq<Event>)
    requires step.DispatchDue? && s.started && !s.closed && j in s.pending && j.runAt <= step.now
    requires DispatchedEvents(s, step, j, events)
    ensures forall i :: 0 <= i < |events| ==> Caused(s, step, events[i])
  {
    assert DueJob(s, step.now, j.id, (j.queue, j.name) in s.handlers);
    assert (j.queue, j.name) in s.handlers && !step.payloadOk(j) ==> RefusedPayload(s, step.now, j.id, step.payloadOk);
  }

  lemma {:induction false} DispatchAllCauses(s: State, step: Step, due: seq<Job>, c: nat)
    requires step.DispatchDue? && s.started && !s.closed && Keyed(s)
    requires forall j :: j in due ==> j in s.pending && j.runAt <= step.now
    ensures var t := DispatchAll(s, due, c, step.payloadOk); Midway(s, t) && AllCaused(s, step, t) && Keyed(t)
  {
    if due != [] {
      var n := |due| - 1;
      assert due == due[..n] + [due[n]];
      hide Keyed, AllCaused, Midway, Dispatch;
      DispatchAllCauses(s, step, due[..n], c);
      DispatchCauses(s, DispatchAll(s, due[..n], c, step.payloadOk), step, due[n], c);
    }
  }

  // ---- every step ----

  // Which event a settled attempt emits is decided by how its handler ended.
  function SettledAs(j: Job, result: Settled): EventKind {
    match result
    case Succeeded => CompletedEvent
    case ThrewInvalidPayload => DeadEvent(InvalidPayload)
    case Threw => if j.attempt < j.maxAttempts then RetryEvent else DeadEvent(Exhausted)
  }

  lemma SettleEmits(s: State, id: string, result: Settled, now: int, delay: int)
    requires id in s.running
    ensures var j := s.running[id];
            DoSettle(s, id, result, now, delay).events
            == s.events + [Event(SettledAs(j, result), j.id, j.attempt, j.maxAttempts)]
  {
  }

  lemma SettleCauses(s: State, step: Step)
    requires Keyed(s) && step.Settle?
    ensures var t := DoSettle(s, step.id, step.result, step.now, step.delay);
            && AllCaused(s, step, t)
            && |t.events| == |s.events| + if step.id in s.running then 1 else 0
  {
    if step.id in s.running {
      var j := s.running[step.id];
      assert j.id == step.id;
      SettleEmits(s, step.id, step.result, step.now, step.delay);
      hide Keyed, DoSettle;
      assert Caused(s, step, Event(SettledAs(j, step.result), j.id, j.attempt, j.maxAttempts));
      hide Caused, SettledAs;
    }
  }

  lemma SettleKeyed(s: State, step: Step)
    requires Keyed(s) && step.Settle?
    ensures Keyed(DoSettle(s, step.id, step.result, step.now, step.delay))
  {
    if step.id in s.running {
      var j, t := s.running[step.id], DoSettle(s, step.id, step.result, step.now, step.delay);
      SettleShape(s, step.id, step.result, step.now, step.delay);
      hide DoSettle;
      if Ended(s, t, j) {
        assert t.pending == s.pending && t.inFlight == s.inFlight - {j.id};
      } else {
        forall x | x in t.pending
          ensures x.id !in t.running && (!t.closed ==> x.id in t.inFlight)
        {
          assert x in s.pending || x == t.pending[|s.pending|];
        }
      }
    }
  }

  lemma EnqueueCauses(s: State, job: Job, valid: bool)
    requires Keyed(s)
    ensures var t := DoEnqueue(s, job, valid); AllCaused(s, Enqueue(job, valid), t) && Keyed(t)
  {
  }

  lemma DueCauses(s: State, step: Step, c: nat)
    requires Keyed(s) && step.DispatchDue?
    ensures var t := DoDispatchDue(s, step.now, c, step.payloadOk); AllCaused(s, step, t) && Keyed(t)
  {
    if s.started && !s.closed {
      var due := SortByRunAt(Due(s.pending, step.now));
      forall j | j in due
        ensures j in s.pending && j.runAt <= step.now
      {
        assert j in multiset(due);
      }
      DispatchAllCauses(s, step, due, c);
      hide Keyed, AllCaused, Midway, DispatchAll;
    }
  }

  lemma StepCauses(s: State, step: Step, c: nat)
    requires Keyed(s)
    ensures AllCaused(s, step, Apply(s, step, c)) && Keyed(Apply(s, step, c))
  {
    hide DoSettle, DoEnqueue, DoDispatchDue, Active, Caused;
    match step
    case Settle(_, _, _, _) =>
      SettleCauses(s, step);
      SettleKeyed(s, step);
    case DispatchDue(_, _) => DueCauses(s, step, c);
    case Enqueue(job, valid) => EnqueueCauses(s, job, valid);
    case _ =>
  }

  /** Step k of the run made the event happen. */
  ghost predicate CausedAt(steps: seq<Step>, c: nat, k: nat, e: Event)
    requires k < |steps|
  {
    Caused(Run(EMPTY, steps[..k], c), steps[k], e)
  }

  ghost predicate HasCause(steps: seq<Step>, c: nat, e: Event) {
    exists k: nat :: k < |steps| && CausedAt(steps, c, k, e)
  }

  /** In every run each event has its cause: a job is completed only if its handler returned, retried or
      exhausted only if it threw with or without attempts left, dead for want of a handler only if none
      is registered, and started only when due. */
  lemma {:induction false} EventsAreCaused(steps: seq<Step>, c: nat)
    ensures Keyed(Run(EMPTY, steps, c))
    ensures forall e :: e in Run(EMPTY, steps, c).events ==> HasCause(steps, c, e)
  {
    if steps != [] {
      var n := |steps| - 1;
      EventsAreCaused(steps[..n], c);
      var s, t := Run(EMPTY, steps[..n], c), Run(EMPTY, steps, c);
      StepCauses(s, steps[n], c);
      hide Caused, Apply, Keyed, Run;
      forall e | e in t.events
        ensures HasCause(steps, c, e)
      {
        var i :| 0 <= i < |t.events| && t.events[i] == e;
        if i < |s.events| {
          assert s.events[i] == e;
          StillCaused(steps, c, e);
        } else {
          assert CausedAt(steps, c, n, e);
        }
      }
    }
  }

  lemma StillCaused(steps: seq<Step>, c: nat, e: Event)
    requires steps != [] && HasCause(steps[..|steps| - 1], c, e)
    ensures HasCause(steps, c, e)
  {
    hide Caused, Run;
    var first := steps[..|steps| - 1];
    var k: nat :| k < |first| && CausedAt(first, c, k, e);
    assert first[..k] == steps[..k];
    assert CausedAt(steps, c, k, e);
  }

  // ---- no job starts early ----

  /** The time a job was put off to: by the enqueue that was accepted last, or by the retry after it. */
  function DueAt(steps: seq<Step>, c: nat, id: string): Option<int> {
    if steps == [] then None
    else
      var n := |steps| - 1;
      var s, step := Run(EMPTY, steps[..n], c), steps[n];
      if step.Enqueue? && step.job.id == id && step.valid && !s.closed && id !in s.inFlight then Some(step.job.runAt)
      else if step.Settle? && step.id == id && id in s.running && step.result == Threw
              && s.running[id].attempt < s.running[id].maxAttempts then Some(step.now + step.delay)
      else DueAt(steps[..n], c, id)
  }

  // Every pending job carries that time.
  ghost predicate Timed(s: State, steps: seq<Step>, c: nat) {
    forall j :: j in s.pending ==> DueAt(steps, c, j.id) == Some(j.runAt)
  }

  lemma {:induction false} PendingIsTimed(steps: seq<Step>, c: nat)
    ensures Timed(Run(EMPTY, steps, c), steps, c)
  {
    if steps != [] {
      var n := |steps| - 1;
      var s, t := Run(EMPTY, steps[..n], c), Run(EMPTY, steps, c);
      PendingIsTimed(steps[..n], c);
      EventsAreCaused(steps[..n], c);
      PendingAfter(s, steps[n], c);
      hide Apply, Caused, Run;
      forall j | j in t.pending
        ensures DueAt(steps, c, j.id) == Some(j.runAt)
      {
      }
    }
  }

  // Where a pending job comes from: it was pending, it was just accepted, or it is put off for a retry.
  lemma PendingAfter(s: State, step: Step, c: nat)
    requires Keyed(s)
    ensures forall j :: j in Apply(s, step, c).pending ==>
              if step.Enqueue? && step.job.id == j.id && step.valid && !s.closed && j.id !in s.inFlight
              then j.runAt == step.job.runAt
              else if step.Settle? && step.id == j.id && j.id in s.running && step.result == Threw
                      && s.running[j.id].attempt < s.running[j.id].maxAttempts then j.runAt == step.now + step.delay
              else j in s.pending
  {
    if step.DispatchDue? {
      if s.started && !s.closed {
        PendingShrinks(s, SortByRunAt(Due(s.pending, step.now)), c, step.payloadOk);
      }
    }
    hide DispatchAll, SortByRunAt, Due;
  }

  lemma {:induction false} PendingShrinks(s: State, due: seq<Job>, c: nat, payloadOk: Job -> bool)
    ensures forall j :: j in DispatchAll(s, due, c, payloadOk).pending ==> j in s.pending
  {
    if due != [] {
      PendingShrinks(s, due[..|due| - 1], c, payloadOk);
      hide Active;
    }
  }

  /** No attempt starts before its time: when a dispatch at `now` starts a job, the time its enqueue or
      its last retry put it off to has come. */
  lemma NeverEarly(steps: seq<Step>, c: nat, i: nat)
    requires steps != [] && i < |Run(EMPTY, steps, c).events|
    requires |Run(EMPTY, steps[..|steps| - 1], c).events| <= i && Run(EMPTY, steps, c).events[i].kind == ActiveEvent
    ensures var n, e := |steps| - 1, Run(EMPTY, steps, c).events[i];
            && steps[n].DispatchDue?
            && DueAt(steps[..n], c, e.id).Some? && DueAt(steps[..n], c, e.id).value <= steps[n].now
  {
    var n := |steps| - 1;
    EventsAreCaused(steps[..n], c);
    StepCauses(Run(EMPTY, steps[..n], c), steps[n], c);
    PendingIsTimed(steps[..n], c);
    hide Apply, DueAt, Keyed;
  }
}
