/** Every interleaving of triggers, duplicate triggers, resumes, pauses and worker crashes over
    the runs of one workflow: each step is one database transaction or provider call of
    workflow.executor.ts, or the bulk update of workflow.service.ts. */
module RunProtocol {
  import opened Wrappers
  import opened Ids
  import opened Definition
  import opened Validation
  import opened Walk
  import opened Executor
  import opened Topology
  import Templates

  /** Where a worker that walks a run stands. */
  datatype Walker =
    | Triggering                                   // run row inserted, trigger step not recorded
    | Refusing                                     // backstop validation failed, run not yet failed
    | Walking(queue: seq<Edge>)                    // at the head of the walk loop
    | Claimed(node: Node, rest: seq<Edge>)         // step claimed, action not yet performed
    | Performed(node: Node, rest: seq<Edge>, ok: bool)
    | Suspending(delay: string, until: int)        // delay step recorded, run row not yet waiting

  /** A run row with its steps, the actions performed for it, and the workers walking it. */
  datatype Run = Run(
    status: RunStatus, resumeAt: Option<int>, resumeFrom: Option<string>,
    steps: map<string, StepStatus>, performed: seq<string>, walkers: seq<Walker>)

  // Runs are keyed by trigger event id: the unique index on (workflow, trigger event).
  type Runs = map<string, Run>

  datatype Step =
    | StartRun(event: string, valid: bool)
    | ResumeRun(event: string, now: int, valid: bool)
    | PauseOrArchive
    | Crash(event: string, walker: nat)
    | Advance(event: string, walker: nat, now: int, ok: bool)

  function Without(s: seq<Walker>, i: nat): seq<Walker>
    requires i < |s|
  {
    s[..i] + s[i + 1..]
  }

  function Minutes(n: Node): int {
    if n.config.DelayFor? then n.config.minutes else 0
  }

  // claimStep: a new row is RUNNING, an existing one keeps its status.
  function Claim(steps: map<string, StepStatus>, id: string): map<string, StepStatus> {
    if id in steps then steps else steps[id := StepRunning]
  }

  // failStepAndRun updates the step row if there is one.
  function FailStep(steps: map<string, StepStatus>, id: string): map<string, StepStatus> {
    if id in steps then steps[id := StepFailed] else steps
  }

  /** One atomic action of walker i of a run. */
  function Move(p: Plan, trigger: Node, r: Run, i: nat, now: int, ok: bool): Run
    requires i < |r.walkers|
  {
    var keep := (w: Walker) => r.walkers[i := w];
    match r.walkers[i]
    case Triggering =>
      r.(steps := r.steps[trigger.id := StepCompleted], walkers := keep(Walking(Outgoing(p.w.edges, trigger.id))))
    case Refusing =>
      r.(status := RunFailed, walkers := Without(r.walkers, i))
    case Walking(queue) =>
      if queue == [] then
        r.(status := if r.status == RunRunning then RunCompleted else r.status, walkers := Without(r.walkers, i))
      else
        var found := Find(p.w.nodes, queue[0].to);
        if found.None? || found.value.kind == Trigger then r.(walkers := keep(Walking(queue[1..])))
        else
          var n := found.value;
          if n.kind == Condition then
            r.(steps := r.steps[n.id := StepCompleted], walkers := keep(Walking(queue[1..] + Next(p, n))))
          else if n.kind == Delay then
            r.(steps := r.steps[n.id := StepCompleted], walkers := keep(Suspending(n.id, now + Minutes(n) * 60_000)))
          else if n.id in r.steps && r.steps[n.id] == StepCompleted then
            r.(walkers := keep(Walking(queue[1..] + Next(p, n))))
          else
            r.(steps := Claim(r.steps, n.id), walkers := keep(Claimed(n, queue[1..])))
    case Claimed(n, rest) =>
      r.(performed := r.performed + [n.id], walkers := keep(Performed(n, rest, ok)))
    case Performed(n, rest, true) =>
      r.(steps := r.steps[n.id := StepCompleted], walkers := keep(Walking(rest + Next(p, n))))
    case Performed(n, rest, false) =>
      r.(steps := FailStep(r.steps, n.id), status := RunFailed, walkers := Without(r.walkers, i))
    case Suspending(delay, until) =>
      r.(status := RunWaiting, resumeAt := Some(until), resumeFrom := Some(delay), walkers := Without(r.walkers, i))
  }

  // The compare-and-set of resumeRun.
  predicate Resumable(r: Run, now: int) {
    r.status == RunWaiting && r.resumeAt.Some? && r.resumeAt.value <= now
  }

  function Resume(p: Plan, r: Run, now: int, valid: bool): Run {
    if !Resumable(r, now) then r
    else
      var claimed := r.(status := RunRunning, resumeAt := None);
      if r.resumeFrom.None? then claimed
      else if !valid then claimed.(walkers := r.walkers + [Refusing])
      else claimed.(walkers := r.walkers + [Walking(Outgoing(p.w.edges, r.resumeFrom.value))])
  }

  function CancelWaiting(r: Run): Run {
    if r.status == RunWaiting then r.(status := RunCancelled) else r
  }

  function Apply(p: Plan, trigger: Node, s: Runs, step: Step): Runs {
    match step
    case StartRun(event, valid) =>
      if event in s then s
      else s[event := Run(RunRunning, None, None, map[], [], [if valid then Triggering else Refusing])]
    case ResumeRun(event, now, valid) =>
      if event in s then s[event := Resume(p, s[event], now, valid)] else s
    case PauseOrArchive => map event | event in s :: CancelWaiting(s[event])
    case Crash(event, i) =>
      if event in s && i < |s[event].walkers| then s[event := s[event].(walkers := Without(s[event].walkers, i))] else s
    case Advance(event, i, now, ok) =>
      if event in s && i < |s[event].walkers| then s[event := Move(p, trigger, s[event], i, now, ok)] else s
  }

  function Execute(p: Plan, trigger: Node, s: Runs, steps: seq<Step>): Runs
    decreases |steps|
  {
    if steps == [] then s else Execute(p, trigger, Apply(p, trigger, s, steps[0]), steps[1..])
  }

  // ---- the invariant ----

  predicate CompletedStep(r: Run, id: string) {
    id in r.steps && r.steps[id] == StepCompleted
  }

  // Every performed action has completed, except possibly that of node `but`.
  ghost predicate PerformedCompleted(r: Run, but: Option<string>) {
    forall id :: id in r.performed && Some(id) != but ==> CompletedStep(r, id)
  }

  /** At most one live walker, only on a RUNNING run; no action performed twice. */
  ghost predicate Inv(r: Run) {
    && |r.walkers| <= 1
    && (r.walkers != [] ==> r.status == RunRunning)
    && (r.status == RunWaiting ==> r.resumeAt.Some? && r.resumeFrom.Some? && PerformedCompleted(r, None))
    && Distinct(r.performed)
    && (r.walkers != [] ==>
          match r.walkers[0]
          case Claimed(n, _) => PerformedCompleted(r, None) && !CompletedStep(r, n.id)
          case Performed(n, _, _) => PerformedCompleted(r, Some(n.id)) && n.id in r.performed
          case _ => PerformedCompleted(r, None))
  }

  ghost predicate AllInv(s: Runs) {
    forall event :: event in s ==> Inv(s[event])
  }

  lemma MoveKeepsInv(p: Plan, trigger: Node, r: Run, now: int, ok: bool)
    requires Inv(r) && |r.walkers| == 1
    ensures Inv(Move(p, trigger, r, 0, now, ok))
  {
    if r.walkers[0].Claimed? {
      ClaimedKeepsInv(p, trigger, r, now, ok);
    } else {
      hide Next;
    }
  }

  lemma ClaimedKeepsInv(p: Plan, trigger: Node, r: Run, now: int, ok: bool)
    requires Inv(r) && |r.walkers| == 1 && r.walkers[0].Claimed?
    ensures Inv(Move(p, trigger, r, 0, now, ok))
  {
    var q, n := Move(p, trigger, r, 0, now, ok), r.walkers[0].node;
    assert n.id !in r.performed;
    PrefixDistinct(r.performed, n.id);
    assert q.performed[|r.performed|] == n.id;
  }

  lemma StepKeepsInv(p: Plan, trigger: Node, s: Runs, step: Step)
    requires AllInv(s)
    ensures AllInv(Apply(p, trigger, s, step))
  {
    hide Move;
    if step.Advance? && step.event in s && step.walker < |s[step.event].walkers| {
      MoveKeepsInv(p, trigger, s[step.event], step.now, step.ok);
    }
  }

  /** In every reachable state each run has at most one live walker, walkers exist only on RUNNING
      runs, and no action has been performed twice. */
  lemma {:induction false} ReachableInv(p: Plan, trigger: Node, s: Runs, steps: seq<Step>)
    requires AllInv(s)
    ensures AllInv(Execute(p, trigger, s, steps))
    decreases |steps|
  {
    if steps != [] {
      StepKeepsInv(p, trigger, s, steps[0]);
      ReachableInv(p, trigger, Apply(p, trigger, s, steps[0]), steps[1..]);
    }
  }

  lemma SafetyFromStart(p: Plan, trigger: Node, steps: seq<Step>, event: string)
    requires event in Execute(p, trigger, map[], steps)
    ensures var r := Execute(p, trigger, map[], steps)[event];
            |r.walkers| <= 1 && Distinct(r.performed) && (r.walkers != [] ==> r.status == RunRunning)
  {
    ReachableInv(p, trigger, map[], steps);
  }

  predicate Terminal(r: Run) {
    r.status == RunCompleted || r.status == RunFailed || r.status == RunCancelled
  }

  // No worker walks the run and none can come to: it is terminal, or its worker crashed.
  predicate Abandoned(r: Run) {
    r.walkers == [] && r.status != RunWaiting
  }

  lemma {:induction false} AbandonedForever(p: Plan, trigger: Node, s: Runs, steps: seq<Step>, event: string)
    requires event in s && Abandoned(s[event])
    ensures event in Execute(p, trigger, s, steps) && Execute(p, trigger, s, steps)[event] == s[event]
    decreases |steps|
  {
    if steps != [] {
      AbandonedForever(p, trigger, Apply(p, trigger, s, steps[0]), steps[1..], event);
    }
  }

  /** COMPLETED, FAILED and CANCELLED are absorbing although two writes are unguarded: from any
      reachable state the whole run, its steps and its actions never change again. */
  lemma TerminalAbsorbing(p: Plan, trigger: Node, before: seq<Step>, after: seq<Step>, event: string)
    requires var s := Execute(p, trigger, map[], before); event in s && Terminal(s[event])
    ensures var s := Execute(p, trigger, map[], before);
            var t := Execute(p, trigger, s, after);
            event in t && t[event] == s[event]
  {
    ReachableInv(p, trigger, map[], before);
    AbandonedForever(p, trigger, Execute(p, trigger, map[], before), after, event);
  }

  /** A RUNNING run whose worker crashed is stuck: neither another trigger nor a resume nor a
      pause touches it again, contrary to the crash-resume the executor's comments describe. */
  lemma CrashedRunIsStuck(p: Plan, trigger: Node, s: Runs, event: string, after: seq<Step>)
    requires AllInv(s) && event in s && |s[event].walkers| == 1
    ensures var crashed := Apply(p, trigger, s, Crash(event, 0));
            var t := Execute(p, trigger, crashed, after);
            event in t && t[event].status == RunRunning && t[event] == s[event].(walkers := [])
  {
    var crashed := Apply(p, trigger, s, Crash(event, 0));
    assert Without(s[event].walkers, 0) == [];
    AbandonedForever(p, trigger, crashed, after, event);
  }

  /** Two resumes in a row start one walk: the second finds the run no longer waiting. */
  lemma SecondResumeIsNoOp(p: Plan, r: Run, now: int, later: int, valid: bool, again: bool)
    requires Inv(r)
    ensures var once := Resume(p, r, now, valid);
            Resumable(r, now) ==> |once.walkers| == 1 && Resume(p, once, later, again) == once
  {
  }

  // ---- an undisturbed walker computes the walk of module Walk ----

  function Alone(p: Plan, trigger: Node, r: Run, outcomes: Node -> bool, now: int, n: nat): Run
    decreases n
  {
    if n == 0 || r.walkers == [] then r
    else
      var ok := r.walkers[0].Claimed? && outcomes(r.walkers[0].node);
      Alone(p, trigger, Move(p, trigger, r, 0, now, ok), outcomes, now, n - 1)
  }

  lemma {:induction false} AloneTwice(p: Plan, trigger: Node, r: Run, outcomes: Node -> bool, now: int, m: nat, n: nat)
    ensures Alone(p, trigger, Alone(p, trigger, r, outcomes, now, m), outcomes, now, n)
         == Alone(p, trigger, r, outcomes, now, m + n)
    decreases m
  {
    hide Move;
    if m > 0 && r.walkers != [] {
      var ok := r.walkers[0].Claimed? && outcomes(r.walkers[0].node);
      AloneTwice(p, trigger, Move(p, trigger, r, 0, now, ok), outcomes, now, m - 1, n);
    }
  }

  ghost function LedgerOf(r: Run, visits: seq<string>): Ledger {
    Ledger(r.steps, r.performed, visits)
  }

  // The run row says to resume when the minutes of this delay have passed.
  predicate DueAfter(p: Plan, delay: string, now: int, resumeAt: Option<int>) {
    var n := Find(p.w.nodes, delay);
    && n.Some? && n.value.config.DelayFor? && resumeAt == Some(now + n.value.config.minutes * 60_000)
  }

  // What the walk of module Walk predicts of the run row once a lone walker has finished.
  ghost predicate Predicted(p: Plan, queue: seq<Edge>, before: Run, visits: seq<string>, now: int, after: Run)
    requires ValidPlan(p) && FromPlan(p, queue)
  {
    var w := WalkFrom(p, queue, LedgerOf(before, visits));
    && after.walkers == [] && after.status == StatusAfter(w.0)
    && after.steps == w.1.steps && after.performed == w.1.performed
    && (w.0.Suspended? ==> after.resumeFrom == Some(w.0.delay) && DueAfter(p, w.0.delay, now, after.resumeAt))
  }

  // The row after the walker at the head of `queue` has dealt with node n, in k atomic steps.
  ghost predicate Dealt(p: Plan, n: Node, r: Run, queue: seq<Edge>, visits: seq<string>, now: int, q: Run)
    requires queue != []
  {
    var l := Walk.Visit(p, n, LedgerOf(r, visits));
    && q.steps == l.steps && q.performed == l.performed
    && (if n.kind == Delay
        then q.walkers == [] && q.status == RunWaiting && q.resumeFrom == Some(n.id)
             && DueAfter(p, n.id, now, q.resumeAt)
        else if Fails(p, n, LedgerOf(r, visits)) then q.walkers == [] && q.status == RunFailed
        else q.walkers == [Walking(queue[1..] + Next(p, n))] && q.status == RunRunning)
  }

  ghost predicate AtHead(p: Plan, n: Node, r: Run, queue: seq<Edge>) {
    queue != [] && Find(p.w.nodes, queue[0].to) == Some(n) && n.kind != Trigger
    && r.walkers == [Walking(queue)] && r.status == RunRunning && (n.kind == Delay ==> n.config.DelayFor?)
    && Find(p.w.nodes, n.id) == Some(n)
  }

  lemma OneDelay(p: Plan, trigger: Node, n: Node, r: Run, queue: seq<Edge>, visits: seq<string>, now: int)
    requires AtHead(p, n, r, queue) && n.kind == Delay
    ensures Dealt(p, n, r, queue, visits, now, Alone(p, trigger, r, p.succeeds, now, 2))
  {
    var r1 := Move(p, trigger, r, 0, now, false);
    var r2 := Move(p, trigger, r1, 0, now, false);
    assert Alone(p, trigger, r1, p.succeeds, now, 1) == r2;
  }

  lemma OnePass(p: Plan, trigger: Node, n: Node, r: Run, queue: seq<Edge>, visits: seq<string>, now: int)
    requires AtHead(p, n, r, queue) && (n.kind == Condition || (IsAction(n) && CompletedStep(r, n.id)))
    ensures Dealt(p, n, r, queue, visits, now, Alone(p, trigger, r, p.succeeds, now, 1))
  {
    var r1 := Move(p, trigger, r, 0, now, false);
    assert Alone(p, trigger, r1, p.succeeds, now, 0) == r1;
  }

  lemma OneAction(p: Plan, trigger: Node, n: Node, r: Run, queue: seq<Edge>, visits: seq<string>, now: int)
    requires AtHead(p, n, r, queue) && IsAction(n) && !CompletedStep(r, n.id)
    ensures Dealt(p, n, r, queue, visits, now, Alone(p, trigger, r, p.succeeds, now, 3))
  {
    var r1 := Move(p, trigger, r, 0, now, false);
    var r2 := Move(p, trigger, r1, 0, now, p.succeeds(n));
    var r3 := Move(p, trigger, r2, 0, now, false);
    assert r1.walkers == [Claimed(n, queue[1..])];
    assert r2.walkers == [Performed(n, queue[1..], p.succeeds(n))];
    assert Alone(p, trigger, r3, p.succeeds, now, 0) == r3;
    assert Alone(p, trigger, r2, p.succeeds, now, 1) == r3;
    assert Alone(p, trigger, r1, p.succeeds, now, 2) == r3;
  }

  lemma OneNode(p: Plan, trigger: Node, n: Node, r: Run, queue: seq<Edge>, visits: seq<string>, now: int)
    returns (k: nat)
    requires AtHead(p, n, r, queue)
    ensures Dealt(p, n, r, queue, visits, now, Alone(p, trigger, r, p.succeeds, now, k))
  {
    hide Dealt, Move, Alone;
    if n.kind == Delay {
      k := 2;
      OneDelay(p, trigger, n, r, queue, visits, now);
    } else if n.kind == Condition || CompletedStep(r, n.id) {
      k := 1;
      OnePass(p, trigger, n, r, queue, visits, now);
    } else {
      k := 3;
      OneAction(p, trigger, n, r, queue, visits, now);
    }
  }

  lemma EmptyQueueCompletes(p: Plan, trigger: Node, r: Run, visits: seq<string>, now: int)
    requires ValidPlan(p) && r.walkers == [Walking([])] && r.status == RunRunning
    ensures FromPlan(p, []) && Predicted(p, [], r, visits, now, Alone(p, trigger, r, p.succeeds, now, 1))
  {
    var r1 := Move(p, trigger, r, 0, now, false);
    assert Alone(p, trigger, r1, p.succeeds, now, 0) == r1;
  }

  // What is predicted from the row after a visit is what was predicted before it.
  lemma PredictionContinues(p: Plan, n: Node, r: Run, queue: seq<Edge>, visits: seq<string>, now: int, q: Run,
          after: Run)
    requires ValidPlan(p) && FromPlan(p, queue) && queue != [] && queue[0] in queue && n == Target(p, queue[0])
    requires Dealt(p, n, r, queue, visits, now, q)
    ensures n.kind == Delay || Fails(p, n, LedgerOf(r, visits)) ==> Predicted(p, queue, r, visits, now, q)
    ensures !(n.kind == Delay || Fails(p, n, LedgerOf(r, visits))) ==>
              var next := queue[1..] + Next(p, n);
              FromPlan(p, next) && Potential(p, next) < Potential(p, queue)
              && (Predicted(p, next, q, visits + [n.id], now, after) ==> Predicted(p, queue, r, visits, now, after))
  {
    hide ValidPlan, Height;
    StepDown(p, queue[0]);
    PotentialConcat(p, queue[1..], Next(p, n));
    assert LedgerOf(q, visits + [n.id]) == Walk.Visit(p, n, LedgerOf(r, visits));
  }

  lemma TargetAtHead(p: Plan, r: Run, queue: seq<Edge>)
    requires ValidPlan(p) && FromPlan(p, queue) && queue != []
    requires r.walkers == [Walking(queue)] && r.status == RunRunning
    ensures queue[0] in queue && queue[0] in p.w.edges && AtHead(p, Target(p, queue[0]), r, queue)
  {
    assert queue[0] in queue;
    var n := Target(p, queue[0]);
    DelayHasMinutes(p, n);
    assert Find(p.w.nodes, queue[0].to) == Some(n);
    hide ValidPlan, Find, Target;
  }

  lemma DelayHasMinutes(p: Plan, n: Node)
    requires ValidPlan(p) && n in p.w.nodes
    ensures n.kind == Delay ==> n.config.DelayFor? && n.config.minutes >= 1
  {
    assert ConfigParses(n);
    Templates.KindsFit(n);
  }

  /** Left alone, a walker's atomic steps leave the run row, steps and actions that the
      big-step walk predicts. */
  lemma {:induction false} LoneWalkerWalks(p: Plan, trigger: Node, r: Run, queue: seq<Edge>, visits: seq<string>,
          now: int)
    returns (k: nat)
    requires ValidPlan(p) && FromPlan(p, queue)
    requires r.walkers == [Walking(queue)] && r.status == RunRunning
    ensures Predicted(p, queue, r, visits, now, Alone(p, trigger, r, p.succeeds, now, k))
    decreases Potential(p, queue)
  {
    hide ValidPlan, Predicted, Potential, Alone, Target, Next, FromPlan;
    if queue == [] {
      k := 1;
      EmptyQueueCompletes(p, trigger, r, visits, now);
    } else {
      TargetAtHead(p, r, queue);
      var n := Target(p, queue[0]);
      var m := OneNode(p, trigger, n, r, queue, visits, now);
      var q := Alone(p, trigger, r, p.succeeds, now, m);
      if n.kind == Delay || Fails(p, n, LedgerOf(r, visits)) {
        PredictionContinues(p, n, r, queue, visits, now, q, q);
        k := m;
      } else {
        PredictionContinues(p, n, r, queue, visits, now, q, q);
        var j := LoneWalkerWalks(p, trigger, q, queue[1..] + Next(p, n), visits + [n.id], now);
        AloneTwice(p, trigger, r, p.succeeds, now, m, j);
        k := m + j;
        PredictionContinues(p, n, r, queue, visits, now, q, Alone(p, trigger, r, p.succeeds, now, k));
      }
    }
  }
}
