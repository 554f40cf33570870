/** Whole runs of the protocol: from a trigger through every delay to the end, and what a resume, a pause
    and a refused definition do (packages/automation/src/workflow.executor.ts). */
module RunLife {
  import opened Wrappers
  import opened Ids
  import opened Definition
  import opened Validation
  import opened Walk
  import opened Executor
  import opened RunProtocol

  lemma {:induction false} ExecuteConcat(p: Plan, trigger: Node, s: Runs, a: seq<Step>, b: seq<Step>)
    ensures Execute(p, trigger, s, a + b) == Execute(p, trigger, Execute(p, trigger, s, a), b)
    decreases |a|
  {
    hide Apply;
    if a == [] {
      assert a + b == b;
    } else {
      assert (a + b)[1..] == a[1..] + b;
      ExecuteConcat(p, trigger, Apply(p, trigger, s, a[0]), a[1..], b);
    }
  }

  lemma ExecuteOne(p: Plan, trigger: Node, s: Runs, step: Step)
    ensures Execute(p, trigger, s, [step]) == Apply(p, trigger, s, step)
  {
    assert [step][1..] == [];
  }

  // The steps of an undisturbed walker are steps of the protocol.
  lemma {:induction false} AloneIsExecute(p: Plan, trigger: Node, s: Runs, event: string, outcomes: Node -> bool,
          now: int, n: nat) returns (steps: seq<Step>)
    requires event in s
    ensures Execute(p, trigger, s, steps) == s[event := Alone(p, trigger, s[event], outcomes, now, n)]
    decreases n
  {
    hide Move;
    var r := s[event];
    if n == 0 || r.walkers == [] {
      steps := [];
    } else {
      var ok := r.walkers[0].Claimed? && outcomes(r.walkers[0].node);
      var first := Advance(event, 0, now, ok);
      var t := s[event := Move(p, trigger, r, 0, now, ok)];
      assert Apply(p, trigger, s, first) == t;
      var rest := AloneIsExecute(p, trigger, t, event, outcomes, now, n - 1);
      steps := [first] + rest;
      assert steps[1..] == rest;
    }
  }

  /** A waiting run goes on exactly from its delay's successors, and exactly once its time has come; one
      that names no delay is claimed and not walked. */
  lemma ResumeIff(p: Plan, r: Run, now: int)
    requires Inv(r) && r.status == RunWaiting
    ensures Resume(p, r, now, true) ==
            if now < r.resumeAt.value then r
            else Run(RunRunning, None, r.resumeFrom, r.steps, r.performed,
                     [Walking(Outgoing(p.w.edges, r.resumeFrom.value))])
    ensures Resume(p, r.(resumeFrom := None), now, true).walkers == r.walkers
    ensures Resume(p, r.(resumeFrom := None), now, true).status
         == if now < r.resumeAt.value then RunWaiting else RunRunning
  {
    assert r.walkers + [Walking(Outgoing(p.w.edges, r.resumeFrom.value))]
        == [Walking(Outgoing(p.w.edges, r.resumeFrom.value))];
  }

  /** Pausing or archiving the workflow cancels exactly the runs that wait, and they stay cancelled. */
  lemma PauseCancels(p: Plan, trigger: Node, s: Runs, event: string, after: seq<Step>)
    requires AllInv(s) && event in s
    ensures var t := Apply(p, trigger, s, PauseOrArchive);
            && event in t
            && t[event] == if s[event].status == RunWaiting then s[event].(status := RunCancelled) else s[event]
    ensures s[event].status == RunWaiting ==>
              var t := Execute(p, trigger, Apply(p, trigger, s, PauseOrArchive), after);
              event in t && t[event].status == RunCancelled && t[event].performed == s[event].performed
  {
    var t := Apply(p, trigger, s, PauseOrArchive);
    if s[event].status == RunWaiting {
      assert Inv(s[event]);
      AbandonedForever(p, trigger, t, after, event);
    }
  }

  /** A run whose definition fails its backstop validation fails without performing anything. */
  lemma RefusedFails(p: Plan, trigger: Node, s: Runs, event: string, now: int, ok: bool, after: seq<Step>)
    requires event !in s
    ensures var t := Execute(p, trigger, s, [StartRun(event, false), Advance(event, 0, now, ok)] + after);
            event in t && t[event].status == RunFailed && t[event].performed == [] && t[event].walkers == []
  {
    var first, second := StartRun(event, false), Advance(event, 0, now, ok);
    var s1 := Apply(p, trigger, s, first);
    var s2 := Apply(p, trigger, s1, second);
    ExecuteConcat(p, trigger, s, [first], [second]);
    ExecuteOne(p, trigger, s, first);
    ExecuteOne(p, trigger, s1, second);
    assert [first] + [second] == [first, second];
    ExecuteConcat(p, trigger, s, [first, second], after);
    AbandonedForever(p, trigger, s2, after, event);
  }

  // The row a whole run from this queue leaves, and no other run touched.
  ghost predicate Ended(p: Plan, queue: seq<Edge>, s: Runs, event: string, visits: seq<string>, t: Runs)
    requires ValidPlan(p) && FromPlan(p, queue) && event in s
  {
    var e := RunToEnd(p, queue, LedgerOf(s[event], visits));
    && event in t && t == s[event := t[event]]
    && t[event].walkers == [] && t[event].status == StatusAfter(e.0)
    && t[event].steps == e.1.steps && t[event].performed == e.1.performed
  }

  lemma {:induction false} RunsToEnd(p: Plan, trigger: Node, s: Runs, event: string, queue: seq<Edge>,
          visits: seq<string>, now: int) returns (steps: seq<Step>)
    requires ValidPlan(p) && FromPlan(p, queue) && event in s
    requires s[event].walkers == [Walking(queue)] && s[event].status == RunRunning
    ensures Ended(p, queue, s, event, visits, Execute(p, trigger, s, steps))
    decreases Potential(p, queue)
  {
    hide ValidPlan, FromPlan, Potential, Alone, Apply, Execute, WalkFrom, RunToEnd;
    var w := WalkFrom(p, queue, LedgerOf(s[event], visits));
    var k := LoneWalkerWalks(p, trigger, s[event], queue, visits, now);
    var walk := AloneIsExecute(p, trigger, s, event, p.succeeds, now, k);
    var t := Execute(p, trigger, s, walk);
    WholeIsWalk(p, queue, LedgerOf(s[event], visits));
    if w.0.Suspended? {
      SuspendsBelow(p, queue, LedgerOf(s[event], visits));
      var at, next := t[event].resumeAt.value, Outgoing(p.w.edges, w.0.delay);
      var resume := ResumeRun(event, at, true);
      var u := Apply(p, trigger, t, resume);
      ResumesAt(p, trigger, t, event, w.0.delay);
      assert LedgerOf(u[event], w.1.visits) == w.1;
      var rest := RunsToEnd(p, trigger, u, event, next, w.1.visits, at);
      ExecuteOne(p, trigger, t, resume);
      ExecuteConcat(p, trigger, t, [resume], rest);
      ExecuteConcat(p, trigger, s, walk, [resume] + rest);
      steps := walk + ([resume] + rest);
    } else {
      steps := walk;
    }
  }

  lemma ResumesAt(p: Plan, trigger: Node, t: Runs, event: string, delay: string)
    requires event in t && t[event].walkers == [] && t[event].status == RunWaiting
    requires t[event].resumeFrom == Some(delay) && t[event].resumeAt.Some?
    ensures var u := Apply(p, trigger, t, ResumeRun(event, t[event].resumeAt.value, true));
            && event in u && u == t[event := u[event]]
            && u[event] == Run(RunRunning, None, Some(delay), t[event].steps, t[event].performed,
                               [Walking(Outgoing(p.w.edges, delay))])
  {
  }

  lemma WholeIsWalk(p: Plan, queue: seq<Edge>, l: Ledger)
    requires ValidPlan(p) && FromPlan(p, queue)
    ensures var w := WalkFrom(p, queue, l);
            !w.0.Suspended? ==> RunToEnd(p, queue, l) == w
    ensures var w := WalkFrom(p, queue, l);
            w.0.Suspended? ==> FromPlan(p, Outgoing(p.w.edges, w.0.delay))
                               && RunToEnd(p, queue, l) == RunToEnd(p, Outgoing(p.w.edges, w.0.delay), w.1)
  {
    if WalkFrom(p, queue, l).0.Suspended? {
      SuspendsBelow(p, queue, l);
    }
  }

  /** A new trigger event, walked by one worker at a time and resumed at the time each delay asks for,
      leaves the row that the whole walk from the trigger predicts. */
  lemma WholeRun(p: Plan, trigger: Node, s: Runs, event: string, now: int) returns (steps: seq<Step>)
    requires ValidPlan(p) && IsRoot(p.w, trigger) && event !in s
    ensures FromPlan(p, Outgoing(p.w.edges, trigger.id))
    ensures var t := Execute(p, trigger, s, steps);
            var e := RunToEnd(p, Outgoing(p.w.edges, trigger.id), Ledger(map[trigger.id := StepCompleted], [], []));
            && event in t && t == s[event := t[event]] && t[event].walkers == []
            && t[event].status == StatusAfter(e.0) && t[event].status in {RunCompleted, RunFailed}
            && t[event].steps == e.1.steps && t[event].performed == e.1.performed
  {
    StartFromPlan(p, trigger);
    hide ValidPlan, FromPlan, Apply, Execute, RunToEnd, IsRoot, Outgoing, StatusAfter;
    var first, second := StartRun(event, true), Advance(event, 0, now, false);
    var s2 := StartsWalking(p, trigger, s, event, now);
    var queue := Outgoing(p.w.edges, trigger.id);
    var rest := RunsToEnd(p, trigger, s2, event, queue, [], now);
    EndsFinished(p, queue, LedgerOf(s2[event], []));
    ExecuteConcat(p, trigger, s, [first, second], rest);
    steps := [first, second] + rest;
  }

  lemma EndsFinished(p: Plan, queue: seq<Edge>, l: Ledger)
    requires ValidPlan(p) && FromPlan(p, queue)
    ensures StatusAfter(RunToEnd(p, queue, l).0) in {RunCompleted, RunFailed}
  {
    NeverLeftWaiting(p, queue, l);
    hide RunToEnd, ValidPlan;
  }

  lemma StartsWalking(p: Plan, trigger: Node, s: Runs, event: string, now: int) returns (t: Runs)
    requires event !in s
    ensures t == Execute(p, trigger, s, [StartRun(event, true), Advance(event, 0, now, false)])
    ensures t == s[event := Run(RunRunning, None, None, map[trigger.id := StepCompleted], [],
                                [Walking(Outgoing(p.w.edges, trigger.id))])]
  {
    hide Outgoing;
    var first, second := StartRun(event, true), Advance(event, 0, now, false);
    var s1 := Apply(p, trigger, s, first);
    var r := s1[event];
    assert r == Run(RunRunning, None, None, map[], [], [Triggering]);
    t := Apply(p, trigger, s1, second);
    assert [Triggering][0 := Walking(Outgoing(p.w.edges, trigger.id))] == [Walking(Outgoing(p.w.edges, trigger.id))];
    ExecuteConcat(p, trigger, s, [first], [second]);
    ExecuteOne(p, trigger, s, first);
    ExecuteOne(p, trigger, s1, second);
    assert [first] + [second] == [first, second];
  }
}
