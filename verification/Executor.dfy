/** WorkflowExecutor as an object that updates a run row and its step ledger, and the bounds
    and conservation laws of its walks. */
module Executor {
  import opened Wrappers
  import opened Ids
  import opened Topology
  import opened Definition
  import opened Validation
  import opened Walk

  const MAX_WALK_ITERATIONS := 500

  datatype RunStatus = RunRunning | RunWaiting | RunCompleted | RunFailed | RunCancelled

  function StatusAfter(o: Outcome): RunStatus {
    match o
    case Completed => RunCompleted
    case Failed(_) => RunFailed
    case Suspended(_) => RunWaiting
  }

  ghost predicate TriggerOf(p: Plan, t: Node) {
    IsRoot(p.w, t)
  }

  lemma StartFromPlan(p: Plan, t: Node)
    ensures FromPlan(p, Outgoing(p.w.edges, t.id))
  {
  }

  // ---- the bound on a walk ----

  lemma {:induction false} DistinctHeights(p: Plan, queue: seq<Edge>, m: nat)
    requires ValidPlan(p) && FromPlan(p, queue)
    requires forall i, j :: 0 <= i < j < |queue| ==> Height(p, queue[i]) != Height(p, queue[j])
    requires forall e :: e in queue ==> Height(p, e) <= m
    ensures Potential(p, queue) <= m * (m + 1) / 2
    decreases m
  {
    hide ValidPlan, Height;
    if queue == [] {
      return;
    }
    assert queue[0] in queue;
    if i :| 0 <= i < |queue| && Height(p, queue[i]) == m {
      RemoveHighest(p, queue, i, m);
      DistinctHeights(p, queue[..i] + queue[i + 1..], m - 1);
      TriangleStep(m);
    } else {
      forall e | e in queue
        ensures Height(p, e) <= m - 1
      {
        var i :| 0 <= i < |queue| && queue[i] == e;
      }
      DistinctHeights(p, queue, m - 1);
      TriangleStep(m);
    }
  }

  lemma TriangleStep(m: nat)
    requires m >= 1
    ensures m * (m + 1) / 2 == (m - 1) * m / 2 + m
  {
    assert m * (m + 1) == (m - 1) * m + 2 * m;
  }

  lemma RemoveHighest(p: Plan, queue: seq<Edge>, i: nat, m: nat)
    requires ValidPlan(p) && FromPlan(p, queue) && i < |queue|
    requires forall i, j :: 0 <= i < j < |queue| ==> Height(p, queue[i]) != Height(p, queue[j])
    requires (forall e :: e in queue ==> Height(p, e) <= m) && Height(p, queue[i]) == m
    ensures var rest := queue[..i] + queue[i + 1..];
            && FromPlan(p, rest) && Potential(p, queue) == Potential(p, rest) + m
            && (forall i, j :: 0 <= i < j < |rest| ==> Height(p, rest[i]) != Height(p, rest[j]))
            && forall e :: e in rest ==> Height(p, e) <= m - 1
  {
    hide ValidPlan, Height;
    var a, b := queue[..i], queue[i + 1..];
    var rest := a + b;
    assert queue == a + ([queue[i]] + b);
    assert queue[i] in queue;
    assert ([queue[i]] + b)[1..] == b;
    PotentialConcat(p, a, [queue[i]] + b);
    PotentialConcat(p, a, b);
    forall k | 0 <= k < |rest|
      ensures rest[k] == queue[if k < i then k else k + 1] && Height(p, rest[k]) <= m - 1
    {
      assert queue[if k < i then k else k + 1] in queue;
    }
  }

  lemma TriggerEdgesDistinct(p: Plan, t: Node)
    requires ValidPlan(p) && TriggerOf(p, t)
    ensures var start := Outgoing(p.w.edges, t.id);
            FromPlan(p, start)
            && forall i, j :: 0 <= i < j < |start| ==> Height(p, start[i]) != Height(p, start[j])
  {
    var start := Outgoing(p.w.edges, t.id);
    PlanEdgesDistinct(p, t.id);
    hide ValidPlan, Height;
    forall i, j | 0 <= i < j < |start|
      ensures Height(p, start[i]) != Height(p, start[j])
    {
      assert start[i] in start && start[j] in start;
      Unlabelled(p, t, start[i]);
      Unlabelled(p, t, start[j]);
      assert start[i].to != start[j].to;
      HeightsApart(p, start[i], start[j]);
    }
  }

  lemma PlanEdgesDistinct(p: Plan, id: string)
    requires ValidPlan(p)
    ensures Distinct(Outgoing(p.w.edges, id))
  {
  }

  lemma HeightsApart(p: Plan, d: Edge, e: Edge)
    requires ValidPlan(p) && d in p.w.edges && e in p.w.edges && d.to != e.to
    ensures Height(p, d) != Height(p, e)
  {
    hide ValidPlan;
    EdgeRises(p, d);
    EdgeRises(p, e);
  }

  lemma Unlabelled(p: Plan, t: Node, e: Edge)
    requires ValidPlan(p) && TriggerOf(p, t) && e in p.w.edges && e.from == t.id
    ensures e.branch.None?
  {
    assert EdgeWellLabelled(p.w, e);
    if HasKind(p.w, t.id, Condition) {
      var n :| n in p.w.nodes && n.id == t.id && n.kind == Condition;
      SameIdSameNode(p.w, n, t);
    }
  }

  lemma SameIdSameNode(w: Workflow, n: Node, m: Node)
    requires Distinct(IdsOf(w)) && n in w.nodes && m in w.nodes && n.id == m.id
    ensures n == m
  {
    var i :| 0 <= i < |w.nodes| && w.nodes[i] == n;
    var j :| 0 <= j < |w.nodes| && w.nodes[j] == m;
    assert IdsOf(w)[i] == IdsOf(w)[j];
  }

  /** A walk from the trigger of a definition of n nodes has potential at most n(n-1)/2, which is
      276 at the limit of 24 nodes: the iteration cap of 500 is never reached. */
  lemma StartBound(p: Plan, t: Node)
    requires ValidPlan(p) && TriggerOf(p, t)
    ensures var start := Outgoing(p.w.edges, t.id);
            FromPlan(p, start) && Potential(p, start) <= |p.w.nodes| * (|p.w.nodes| - 1) / 2 <= 276
  {
    hide ValidPlan, TriggerOf, Height, Potential, Outgoing;
    var start, n := Outgoing(p.w.edges, t.id), |p.w.nodes|;
    TriggerEdgesDistinct(p, t);
    PlanSize(p);
    DistinctHeights(p, start, n - 1);
    Triangle(n);
    assert (n - 1) * (n - 1 + 1) == n * (n - 1);
  }

  lemma PlanSize(p: Plan)
    requires ValidPlan(p)
    ensures |p.order| == |p.w.nodes| && 1 <= |p.w.nodes| <= MAX_NODES
  {
  }

  lemma Triangle(n: nat)
    requires 1 <= n <= MAX_NODES
    ensures n * (n - 1) / 2 <= 276
  {
    assert n * (n - 1) <= 24 * (n - 1) <= 24 * 23;
  }

  // A walk along a single edge, as every resumed walk is, is shorter still.
  lemma ResumeBound(p: Plan, queue: seq<Edge>)
    requires ValidPlan(p) && FromPlan(p, queue) && |queue| == 1
    ensures Potential(p, queue) < |p.w.nodes| <= MAX_NODES
  {
    assert queue[0] in queue && Potential(p, queue[1..]) == 0;
  }

  /** The potential of the starting queue bounds the visits of one walk. */
  lemma VisitsBounded(p: Plan, queue: seq<Edge>, l: Ledger)
    requires ValidPlan(p) && FromPlan(p, queue)
    ensures |WalkFrom(p, queue, l).1.visits| <= |l.visits| + Potential(p, queue)
    decreases Potential(p, queue)
  {
    hide ValidPlan, Height, Next, Target;
    if queue != [] {
      assert queue[0] in queue;
      var n := Target(p, queue[0]);
      StepDown(p, queue[0]);
      if n.kind != Delay && !Fails(p, n, l) {
        PotentialConcat(p, queue[1..], Next(p, n));
        VisitsBounded(p, queue[1..] + Next(p, n), Visit(p, n, l));
      }
    }
  }

  /** The run row, its steps and the calls made on its behalf. */
  class WorkflowRun {
    var status: RunStatus
    var resumeFrom: Option<string>
    var ledger: Ledger

    constructor ()
      ensures status == RunRunning && resumeFrom == None && ledger == Ledger(map[], [], [])
    {
      status, resumeFrom, ledger := RunRunning, None, Ledger(map[], [], []);
    }

    /** walkFrom: drains the queue, with a counter that never reaches its cap. */
    method Drain(p: Plan, start: seq<Edge>)
      requires ValidPlan(p) && FromPlan(p, start) && Potential(p, start) <= MAX_WALK_ITERATIONS
      modifies this
      ensures ledger == WalkFrom(p, start, old(ledger)).1
      ensures status == StatusAfter(WalkFrom(p, start, old(ledger)).0)
      ensures var o := WalkFrom(p, start, old(ledger)).0;
              (status == RunWaiting <==> o.Suspended?) && (status == RunFailed <==> o.Failed?)
              && (status == RunCompleted <==> o == Completed)
      ensures resumeFrom == if WalkFrom(p, start, old(ledger)).0.Suspended?
                            then Some(WalkFrom(p, start, old(ledger)).0.delay) else old(resumeFrom)
    {
      hide ValidPlan, Height, Next, Target, Visit;
      var queue := start;
      var iterations := 0;
      while queue != []
        invariant FromPlan(p, queue) && iterations + Potential(p, queue) <= MAX_WALK_ITERATIONS
        invariant WalkFrom(p, queue, ledger) == WalkFrom(p, start, old(ledger))
        invariant resumeFrom == old(resumeFrom)
        decreases Potential(p, queue)
      {
        iterations := iterations + 1;
        assert iterations <= MAX_WALK_ITERATIONS;
        HeadStep(p, queue);
        var n := Target(p, queue[0]);
        var failed := Fails(p, n, ledger);
        ledger := Visit(p, n, ledger);
        if n.kind == Delay {
          status, resumeFrom := RunWaiting, Some(n.id);
          return;
        }
        if failed {
          status := RunFailed;
          return;
        }
        queue := queue[1..] + Next(p, n);
      }
      status := RunCompleted;
    }

    /** startRun after its insert: record the trigger step, then walk from the trigger. */
    method Start(p: Plan, trigger: Node)
      requires ValidPlan(p) && TriggerOf(p, trigger)
      modifies this
      ensures FromPlan(p, Outgoing(p.w.edges, trigger.id))
      ensures var entry := old(ledger).(steps := old(ledger).steps[trigger.id := StepCompleted]);
              var r := WalkFrom(p, Outgoing(p.w.edges, trigger.id), entry);
              ledger == r.1 && status == StatusAfter(r.0) && (r.0.Suspended? ==> resumeFrom == Some(r.0.delay))
    {
      ledger := ledger.(steps := ledger.steps[trigger.id := StepCompleted]);
      StartBound(p, trigger);
      Drain(p, Outgoing(p.w.edges, trigger.id));
    }

    /** A started run driven to its end: while it waits, resumeRun walks on from its delay. */
    method RunAll(p: Plan, trigger: Node)
      requires ValidPlan(p) && TriggerOf(p, trigger)
      modifies this
      ensures FromPlan(p, Outgoing(p.w.edges, trigger.id))
      ensures var entry := old(ledger).(steps := old(ledger).steps[trigger.id := StepCompleted]);
              var r := RunToEnd(p, Outgoing(p.w.edges, trigger.id), entry);
              ledger == r.1 && status == StatusAfter(r.0) && status in {RunCompleted, RunFailed}
    {
      hide ValidPlan, TriggerOf, Potential, Outgoing;
      ghost var queue := Outgoing(p.w.edges, trigger.id);
      ghost var before := ledger.(steps := ledger.steps[trigger.id := StepCompleted]);
      ghost var goal := RunToEnd(p, queue, before);
      NeverLeftWaiting(p, queue, before);
      Start(p, trigger);
      while status == RunWaiting
        invariant FromPlan(p, queue) && RunToEnd(p, queue, before) == goal
        invariant ledger == WalkFrom(p, queue, before).1
        invariant status == StatusAfter(WalkFrom(p, queue, before).0)
        invariant status == RunWaiting ==> resumeFrom == Some(WalkFrom(p, queue, before).0.delay)
        decreases Potential(p, queue)
      {
        SuspendsBelow(p, queue, before);
        var next := Outgoing(p.w.edges, resumeFrom.value);
        ResumeBound(p, next);
        queue, before := next, ledger;
        status := RunRunning;
        Drain(p, next);
      }
    }
  }

  lemma NeverLeftWaiting(p: Plan, queue: seq<Edge>, l: Ledger)
    requires ValidPlan(p) && FromPlan(p, queue)
    ensures !RunToEnd(p, queue, l).0.Suspended?
    decreases Potential(p, queue)
  {
    var r := WalkFrom(p, queue, l);
    if r.0.Suspended? {
      SuspendsBelow(p, queue, l);
      NeverLeftWaiting(p, Outgoing(p.w.edges, r.0.delay), r.1);
    }
  }

  // ---- what a delay discards ----

  ghost predicate AllSucceed(p: Plan) {
    forall n :: n in p.w.nodes ==> p.succeeds(n)
  }

  /** The walk that ignores delays: breadth first over the whole queue. */
  ghost function Undelayed(p: Plan, queue: seq<Edge>, l: Ledger): (Outcome, Ledger)
    requires ValidPlan(p) && FromPlan(p, queue)
    decreases Potential(p, queue)
  {
    if queue == [] then (Completed, l)
    else
      assert queue[0] in queue;
      var n := Target(p, queue[0]);
      if Fails(p, n, l) then (Failed(n.id), Visit(p, n, l))
      else
        StepDown(p, queue[0]);
        PotentialConcat(p, queue[1..], Next(p, n));
        Undelayed(p, queue[1..] + Next(p, n), Visit(p, n, l))
  }

  /** Whether every delay is dequeued with nothing left behind it in the queue. */
  ghost predicate NothingDiscarded(p: Plan, queue: seq<Edge>)
    requires ValidPlan(p) && FromPlan(p, queue)
    decreases Potential(p, queue)
  {
    if queue == [] then true
    else
      assert queue[0] in queue;
      var n := Target(p, queue[0]);
      StepDown(p, queue[0]);
      PotentialConcat(p, queue[1..], Next(p, n));
      (n.kind == Delay ==> queue[1..] == []) && NothingDiscarded(p, queue[1..] + Next(p, n))
  }

  // The next node to visit is an action that fails.
  ghost predicate HeadFails(p: Plan, queue: seq<Edge>, l: Ledger)
    requires ValidPlan(p) && FromPlan(p, queue) && queue != []
  {
    assert queue[0] in queue;
    Fails(p, Target(p, queue[0]), l)
  }

  lemma RunStep(p: Plan, queue: seq<Edge>, l: Ledger)
    requires ValidPlan(p) && FromPlan(p, queue) && queue != [] && !HeadFails(p, queue, l)
    ensures queue[0] in queue
    ensures var n := Target(p, queue[0]);
            var next := if n.kind == Delay then Next(p, n) else queue[1..] + Next(p, n);
            FromPlan(p, next) && Potential(p, next) < Potential(p, queue)
            && RunToEnd(p, queue, l) == RunToEnd(p, next, Visit(p, n, l))
  {
    hide ValidPlan, Height, Target, Visit, Fails;
    HeadStep(p, queue);
    var n := Target(p, queue[0]);
    var next := if n.kind == Delay then Next(p, n) else queue[1..] + Next(p, n);
    if n.kind != Delay {
      assert WalkFrom(p, queue, l) == WalkFrom(p, next, Visit(p, n, l));
    }
  }

  lemma FailureEnds(p: Plan, queue: seq<Edge>, l: Ledger)
    requires ValidPlan(p) && FromPlan(p, queue) && queue != [] && HeadFails(p, queue, l)
    ensures var n := Target(p, queue[0]);
            RunToEnd(p, queue, l) == (Failed(n.id), Visit(p, n, l)) == Undelayed(p, queue, l)
  {
  }

  // Visits of the undelayed walk from a queue; each edge of the queue adds at least one.
  ghost function TotalVisits(p: Plan, queue: seq<Edge>): (k: nat)
    requires ValidPlan(p) && FromPlan(p, queue)
    ensures |queue| <= k
    decreases Potential(p, queue)
  {
    if queue == [] then 0
    else
      assert queue[0] in queue;
      var n := Target(p, queue[0]);
      StepDown(p, queue[0]);
      PotentialConcat(p, queue[1..], Next(p, n));
      1 + TotalVisits(p, queue[1..] + Next(p, n))
  }

  lemma EmptyRun(p: Plan, l: Ledger)
    requires ValidPlan(p)
    ensures RunToEnd(p, [], l) == (Completed, l)
  {
  }

  lemma AllPass(p: Plan, n: Node, l: Ledger)
    requires AllSucceed(p) && n in p.w.nodes
    ensures !Fails(p, n, l) && |Visit(p, n, l).visits| == |l.visits| + 1
  {
  }

  lemma {:induction false} UndelayedVisits(p: Plan, queue: seq<Edge>, l: Ledger)
    requires ValidPlan(p) && FromPlan(p, queue) && AllSucceed(p)
    ensures |Undelayed(p, queue, l).1.visits| == |l.visits| + TotalVisits(p, queue)
    decreases Potential(p, queue)
  {
    hide ValidPlan, Height, Next, Target, AllSucceed, Visit, Fails;
    if queue != [] {
      HeadStep(p, queue);
      var n := Target(p, queue[0]);
      AllPass(p, n, l);
      UndelayedVisits(p, queue[1..] + Next(p, n), Visit(p, n, l));
    }
  }

  lemma {:induction false} MoreEdgesMoreVisits(p: Plan, a: seq<Edge>, b: seq<Edge>)
    requires ValidPlan(p) && FromPlan(p, a) && FromPlan(p, b)
    ensures TotalVisits(p, a + b) == TotalVisits(p, a) + TotalVisits(p, b)
    decreases Potential(p, a) + Potential(p, b)
  {
    hide ValidPlan, Height, Next, Target;
    PotentialConcat(p, a, b);
    if a == [] {
      assert a + b == b;
    } else {
      assert a[0] in a && (a + b)[0] == a[0];
      assert FromPlan(p, a[1..]);
      var n := Target(p, a[0]);
      var next := Next(p, n);
      StepDown(p, a[0]);
      PotentialConcat(p, a[1..], next);
      PotentialConcat(p, b, next);
      assert (a + b)[1..] + next == a[1..] + (b + next);
      assert a[1..] + (b + next) == (a[1..] + b) + next;
      MoreEdgesMoreVisits(p, a[1..], b + next);
      MoreEdgesMoreVisits(p, a[1..], next);
      MoreEdgesMoreVisits(p, b, next);
    }
  }

  /** When no action fails, a run visits what the undelayed walk visits minus exactly the
      chains behind the edges its delays discard; it agrees with that walk if and only if
      nothing is discarded. */
  lemma {:induction false} DiscardedSiblings(p: Plan, queue: seq<Edge>, l: Ledger)
    requires ValidPlan(p) && FromPlan(p, queue) && AllSucceed(p)
    ensures RunToEnd(p, queue, l).0 == Completed
    ensures |RunToEnd(p, queue, l).1.visits| <= |l.visits| + TotalVisits(p, queue)
    ensures NothingDiscarded(p, queue) ==> RunToEnd(p, queue, l) == Undelayed(p, queue, l)
    ensures !NothingDiscarded(p, queue) ==> |RunToEnd(p, queue, l).1.visits| < |l.visits| + TotalVisits(p, queue)
    decreases Potential(p, queue)
  {
    hide ValidPlan, Height, Next, Target, WalkFrom, AllSucceed, Visit;
    if queue == [] {
      assert RunToEnd(p, queue, l) == (Completed, l) by {
        EmptyRun(p, l);
      }
    } else {
      HeadStep(p, queue);
      AllPass(p, Target(p, queue[0]), l);
      RunStep(p, queue, l);
      var n := Target(p, queue[0]);
      var next, rest := Next(p, n), queue[1..];
      if n.kind == Delay {
        DiscardedSiblings(p, next, Visit(p, n, l));
        MoreEdgesMoreVisits(p, rest, next);
        if rest == [] {
          assert rest + next == next;
        }
      } else {
        DiscardedSiblings(p, rest + next, Visit(p, n, l));
      }
    }
  }

  // ---- when actions may fail ----

  /** The edges a delay leaves behind lead, one by one, where its own chain goes, up to an action that fails. */
  ghost predicate Shadowed(p: Plan, rest: seq<Edge>, chain: seq<Edge>, l: Ledger)
    requires ValidPlan(p) && FromPlan(p, rest) && FromPlan(p, chain)
    decreases |rest|
  {
    rest != [] && chain != [] && rest[0].to == chain[0].to &&
    (HeadFails(p, chain, l) ||
      (HeadStep(p, chain);
       var n := Target(p, chain[0]);
       assert FromPlan(p, rest[1..]);
       Shadowed(p, rest[1..], Next(p, n), Visit(p, n, l))))
  }

  /** Up to the first action that fails, no delay discards an edge, or only edges that shadow its chain. */
  ghost predicate KeptUntilFailure(p: Plan, queue: seq<Edge>, l: Ledger)
    requires ValidPlan(p) && FromPlan(p, queue)
    decreases Potential(p, queue)
  {
    queue == [] || HeadFails(p, queue, l) ||
    (HeadStep(p, queue);
     var n := Target(p, queue[0]);
     if n.kind == Delay && queue[1..] != [] then Shadowed(p, queue[1..], Next(p, n), Visit(p, n, l))
     else KeptUntilFailure(p, queue[1..] + Next(p, n), Visit(p, n, l)))
  }

  lemma UndelayedStep(p: Plan, queue: seq<Edge>, l: Ledger)
    requires ValidPlan(p) && FromPlan(p, queue) && queue != [] && !HeadFails(p, queue, l)
    ensures queue[0] in p.w.edges
    ensures var n := Target(p, queue[0]);
            && FromPlan(p, queue[1..] + Next(p, n)) && Potential(p, queue[1..] + Next(p, n)) < Potential(p, queue)
            && Undelayed(p, queue, l) == Undelayed(p, queue[1..] + Next(p, n), Visit(p, n, l))
  {
    hide ValidPlan, Height, Target, Visit, Fails, Next;
    HeadStep(p, queue);
  }

  lemma VisitAppends(p: Plan, e: Edge, l: Ledger)
    requires ValidPlan(p) && e in p.w.edges
    ensures Visit(p, Target(p, e), l).visits == l.visits + [e.to]
  {
  }

  // Both walks visit the target of the first edge next, and never take a visit back.
  lemma {:induction false} RunVisits(p: Plan, queue: seq<Edge>, l: Ledger)
    requires ValidPlan(p) && FromPlan(p, queue)
    ensures l.visits <= RunToEnd(p, queue, l).1.visits
    ensures queue == [] ==> RunToEnd(p, queue, l).1 == l
    ensures queue != [] ==> l.visits + [queue[0].to] <= RunToEnd(p, queue, l).1.visits
    decreases Potential(p, queue)
  {
    hide ValidPlan, Height, RunToEnd, Next, Visit, Target, HeadFails, Potential;
    if queue == [] {
      EmptyRun(p, l);
      return;
    }
    assert queue[0] in queue;
    VisitAppends(p, queue[0], l);
    if HeadFails(p, queue, l) {
      FailureEnds(p, queue, l);
    } else {
      RunStep(p, queue, l);
      var n := Target(p, queue[0]);
      RunVisits(p, if n.kind == Delay then Next(p, n) else queue[1..] + Next(p, n), Visit(p, n, l));
    }
  }

  lemma {:induction false} UndelayedVisitsFirst(p: Plan, queue: seq<Edge>, l: Ledger)
    requires ValidPlan(p) && FromPlan(p, queue)
    ensures l.visits <= Undelayed(p, queue, l).1.visits
    ensures queue != [] ==> l.visits + [queue[0].to] <= Undelayed(p, queue, l).1.visits
    decreases Potential(p, queue)
  {
    hide ValidPlan, Height, Undelayed, Next, Visit, Target, HeadFails, Potential;
    if queue == [] {
      BothEmpty(p, l);
      return;
    }
    assert queue[0] in queue;
    VisitAppends(p, queue[0], l);
    if HeadFails(p, queue, l) {
      FailureEnds(p, queue, l);
    } else {
      UndelayedStep(p, queue, l);
      var n := Target(p, queue[0]);
      UndelayedVisitsFirst(p, queue[1..] + Next(p, n), Visit(p, n, l));
    }
  }

  // The chain has not fallen behind the node the delay led to, and is ahead of it once nothing is left.
  ghost predicate Ahead(p: Plan, rest: seq<Edge>, late: seq<Edge>, chain: seq<Edge>)
    requires ValidPlan(p) && FromPlan(p, rest) && FromPlan(p, late) && FromPlan(p, chain)
  {
    && late != [] && |chain| <= 1
    && (chain != [] ==>
          var c, d := chain[0], late[0];
          assert c in chain && d in late;
          Height(p, c) <= Height(p, d) && (rest == [] ==> Height(p, c) < Height(p, d)))
  }

  /** After a delay left `rest` behind, the run follows the delay's chain, and the undelayed walk takes
      `rest` first and the chain's first edge after it: they agree exactly when `rest` shadows the chain. */
  lemma {:induction false} ShadowedIff(p: Plan, rest: seq<Edge>, late: seq<Edge>, chain: seq<Edge>, l: Ledger)
    requires ValidPlan(p) && FromPlan(p, rest) && FromPlan(p, late) && FromPlan(p, chain) && Ahead(p, rest, late, chain)
    ensures RunToEnd(p, chain, l) == Undelayed(p, rest + late, l) <==> Shadowed(p, rest, chain, l)
    decreases |rest|
  {
    hide ValidPlan, RunToEnd, Undelayed, Target, Next, Visit, Fails, Height;
    var queue := rest + late;
    assert queue[0] in queue && queue[0] == if rest == [] then late[0] else rest[0];
    RunVisits(p, chain, l);
    UndelayedVisitsFirst(p, queue, l);
    if chain == [] {
      assert |Undelayed(p, queue, l).1.visits| > |l.visits|;
    } else if chain[0].to != queue[0].to {
      assert RunToEnd(p, chain, l).1.visits[|l.visits|] != Undelayed(p, queue, l).1.visits[|l.visits|];
    } else {
      assert chain[0] in chain && late[0] in late;
      SameHeight(p, chain[0], queue[0]);
      SameTarget(p, chain[0], queue[0]);
      assert rest != [];
      if HeadFails(p, chain, l) {
        FailureEnds(p, chain, l);
        FailureEnds(p, queue, l);
      } else {
        var n := Target(p, chain[0]);
        HeadStep(p, chain);
        NextIsSingle(p, n);
        RunStep(p, chain, l);
        UndelayedStep(p, queue, l);
        assert chain[1..] + Next(p, n) == Next(p, n);
        assert queue[1..] + Next(p, n) == rest[1..] + (late + Next(p, n));
        assert FromPlan(p, rest[1..]) && FromPlan(p, late + Next(p, n));
        NextHeight(p, chain[0]);
        assert (late + Next(p, n))[0] == late[0];
        ShadowedIff(p, rest[1..], late + Next(p, n), Next(p, n), Visit(p, n, l));
      }
    }
  }

  lemma SameHeight(p: Plan, d: Edge, e: Edge)
    requires ValidPlan(p) && d in p.w.edges && e in p.w.edges && d.to == e.to
    ensures Height(p, d) == Height(p, e)
  {
  }

  lemma SameTarget(p: Plan, d: Edge, e: Edge)
    requires ValidPlan(p) && d in p.w.edges && e in p.w.edges && d.to == e.to
    ensures Target(p, d) == Target(p, e)
  {
  }

  lemma NextHeight(p: Plan, e: Edge)
    requires ValidPlan(p) && e in p.w.edges
    ensures var next := Next(p, Target(p, e));
            FromPlan(p, next) && forall d :: d in next ==> Height(p, d) < Height(p, e)
  {
    hide ValidPlan, Next, Target;
    var n := Target(p, e);
    NextIsSingle(p, n);
    forall d | d in Next(p, n)
      ensures Height(p, d) < Height(p, e)
    {
      EdgeRises(p, e);
      EdgeRises(p, d);
    }
  }

  /** The run agrees with the undelayed walk if and only if, up to the first action that fails, no delay
      leaves siblings behind; unless those lead where the delay itself does, up to that action. */
  lemma {:induction false} SiblingsSurviveIff(p: Plan, queue: seq<Edge>, l: Ledger)
    requires ValidPlan(p) && FromPlan(p, queue)
    ensures RunToEnd(p, queue, l) == Undelayed(p, queue, l) <==> KeptUntilFailure(p, queue, l)
    decreases Potential(p, queue)
  {
    hide ValidPlan, RunToEnd, Undelayed, Target, Next, Visit, Fails, Height;
    if queue == [] {
      BothEmpty(p, l);
    } else if HeadFails(p, queue, l) {
      FailureEnds(p, queue, l);
    } else {
      HeadStep(p, queue);
      RunStep(p, queue, l);
      UndelayedStep(p, queue, l);
      var n := Target(p, queue[0]);
      var next, rest := Next(p, n), queue[1..];
      if n.kind == Delay && rest != [] {
        NextIsSingle(p, n);
        assert n in p.w.nodes && !IsAction(n) && |next| == 1;
        ShadowedIff(p, rest, next, next, Visit(p, n, l));
      } else {
        assert n.kind == Delay ==> rest + next == next;
        SiblingsSurviveIff(p, rest + next, Visit(p, n, l));
      }
    }
  }

  lemma BothEmpty(p: Plan, l: Ledger)
    requires ValidPlan(p)
    ensures RunToEnd(p, [], l) == Undelayed(p, [], l) == (Completed, l)
  {
  }

  /** Without failing actions that leaves only the runs in which nothing is discarded. */
  lemma {:induction false} NeverFailing(p: Plan, queue: seq<Edge>, l: Ledger)
    requires ValidPlan(p) && FromPlan(p, queue) && AllSucceed(p)
    ensures KeptUntilFailure(p, queue, l) <==> NothingDiscarded(p, queue)
  {
    SiblingsSurviveIff(p, queue, l);
    DiscardedSiblings(p, queue, l);
    UndelayedVisits(p, queue, l);
    hide ValidPlan, RunToEnd, Undelayed, NothingDiscarded, KeptUntilFailure, AllSucceed, TotalVisits;
  }
}
