/** The walk of packages/automation/src/workflow.executor.ts over a validated definition:
    a queue of edges, gating at conditions, suspension at delays, checkpointed actions. */
module Walk {
  import opened Wrappers
  import opened Ids
  import opened Topology
  import opened Definition
  import opened Validation

  datatype StepStatus = StepRunning | StepCompleted | StepFailed

  /** The step rows of a run, the provider calls made for it, and the nodes visited, in order. */
  datatype Ledger = Ledger(steps: map<string, StepStatus>, performed: seq<string>, visits: seq<string>)

  datatype Outcome = Completed | Failed(node: string) | Suspended(delay: string)

  /** What a walk depends on: the definition, a topological order of it, how its conditions
      evaluate on the run's subject, and which actions succeed. */
  datatype Plan = Plan(w: Workflow, ghost order: seq<string>, decide: Node -> bool, succeeds: Node -> bool)

  ghost predicate ValidPlan(p: Plan) {
    ValidWorkflow(p.w) && IsTopological(GraphOf(p.w), p.order)
  }

  function Find(nodes: seq<Node>, id: string): (r: Option<Node>)
    ensures r.Some? ==> r.value in nodes && r.value.id == id
    ensures r.None? ==> forall n :: n in nodes ==> n.id != id
  {
    if nodes == [] then None
    else if nodes[0].id == id then Some(nodes[0])
    else
      assert nodes == [nodes[0]] + nodes[1..];
      Find(nodes[1..], id)
  }

  function WithBranch(edges: seq<Edge>, b: Branch): (r: seq<Edge>)
    ensures forall e :: e in r <==> e in edges && e.branch == Some(b)
    ensures Distinct(edges) ==> Distinct(r)
  {
    if edges == [] then []
    else
      var n := |edges| - 1;
      assert edges == edges[..n] + [edges[n]];
      assert Distinct(edges) ==> Distinct(edges[..n]) && edges[n] !in edges[..n];
      WithBranch(edges[..n], b) + if edges[n].branch == Some(b) then [edges[n]] else []
  }

  // The edges pushed after visiting n.
  function Next(p: Plan, n: Node): seq<Edge> {
    match n.kind
    case Trigger => []
    case Condition => WithBranch(Outgoing(p.w.edges, n.id), if p.decide(n) then Yes else No)
    case _ => Outgoing(p.w.edges, n.id)
  }

  predicate IsAction(n: Node) {
    n.kind != Trigger && n.kind != Condition && n.kind != Delay
  }

  /** The ledger after visiting n: conditions and delays complete at once; an action is
      claimed and performed unless its step is already completed. */
  function Visit(p: Plan, n: Node, l: Ledger): Ledger {
    var visits := l.visits + [n.id];
    if !IsAction(n) then Ledger(l.steps[n.id := StepCompleted], l.performed, visits)
    else if n.id in l.steps && l.steps[n.id] == StepCompleted then l.(visits := visits)
    else Ledger(l.steps[n.id := if p.succeeds(n) then StepCompleted else StepFailed], l.performed + [n.id], visits)
  }

  predicate Fails(p: Plan, n: Node, l: Ledger) {
    IsAction(n) && !(n.id in l.steps && l.steps[n.id] == StepCompleted) && !p.succeeds(n)
  }

  // ---- ranks and the potential of a queue ----

  ghost function Rank(p: Plan, id: string): (r: nat)
    requires ValidPlan(p) && id in p.order
    ensures r < |p.order| && p.order[r] == id
  {
    var i :| 0 <= i < |p.order| && p.order[i] == id;
    i
  }

  lemma EdgeRises(p: Plan, e: Edge)
    requires ValidPlan(p) && e in p.w.edges
    ensures e.from in p.order && e.to in p.order && Rank(p, e.from) < Rank(p, e.to)
  {
    ArcOfEdge(p.w, e.from, e.to);
    var a := Arc(e.from, e.to);
    assert Before(p.order, a.from, a.to);
  }

  ghost function Height(p: Plan, e: Edge): (h: nat)
    requires ValidPlan(p) && e in p.w.edges
    ensures 1 <= h < |p.order|
  {
    EdgeRises(p, e);
    |p.order| - Rank(p, e.to)
  }

  ghost predicate FromPlan(p: Plan, queue: seq<Edge>) {
    forall e :: e in queue ==> e in p.w.edges
  }

  ghost function Potential(p: Plan, queue: seq<Edge>): (h: nat)
    requires ValidPlan(p) && FromPlan(p, queue)
    ensures |queue| <= h
  {
    if queue == [] then 0 else
      assert queue[0] in queue;
      Height(p, queue[0]) + Potential(p, queue[1..])
  }

  lemma {:induction false} PotentialConcat(p: Plan, a: seq<Edge>, b: seq<Edge>)
    requires ValidPlan(p) && FromPlan(p, a) && FromPlan(p, b)
    ensures Potential(p, a + b) == Potential(p, a) + Potential(p, b)
  {
    hide ValidPlan, Height;
    if a == [] {
      assert a + b == b;
    } else {
      assert a[0] in a;
      assert FromPlan(p, a[1..]) && FromPlan(p, a + b);
      PotentialConcat(p, a[1..], b);
      assert (a + b)[1..] == a[1..] + b;
    }
  }

  // The node an edge of a valid definition leads to.
  function Target(p: Plan, e: Edge): (n: Node)
    requires ValidPlan(p) && e in p.w.edges
    ensures n in p.w.nodes && n.id == e.to && n.kind != Trigger
  {
    IdOfNode(p.w, e.to);
    var n := Find(p.w.nodes, e.to).value;
    NotTheTrigger(p.w, e, n);
    n
  }

  lemma NotTheTrigger(w: Workflow, e: Edge, n: Node)
    requires ValidWorkflow(w) && e in w.edges && n in w.nodes && n.id == e.to
    ensures n.kind != Trigger
  {
    var t :| IsRoot(w, t);
  }

  lemma PlanFanOut(p: Plan, n: Node)
    requires ValidPlan(p) && n in p.w.nodes
    ensures Distinct(Outgoing(p.w.edges, n.id)) && FanOutCounted(p.w, n)
    ensures n.kind == Condition ==> forall e :: e in Outgoing(p.w.edges, n.id) ==> e.branch.Some?
  {
    CountedFanOut(p.w, n);
    if n.kind == Condition {
      ConditionLabelled(p.w, n);
    }
  }

  lemma OneOfTwo(out: seq<Edge>, b: Branch)
    requires Distinct(out) && (forall e :: e in out ==> e.branch.Some?) && |out| == 2 && out[0].branch != out[1].branch
    ensures |WithBranch(out, b)| == 1
  {
    TwoElements(out);
    var y, z :| YesAndNo(out, y, z);
    var taken := if b == Yes then y else z;
    var r := WithBranch(out, b);
    assert taken in r && forall e :: e in r ==> e == taken;
    ExactlyOne(r);
  }

  /** A visited node continues along at most one edge; conditions and delays along exactly one. */
  lemma NextIsSingle(p: Plan, n: Node)
    requires ValidPlan(p) && n in p.w.nodes && n.kind != Trigger
    ensures |Next(p, n)| <= 1 && (!IsAction(n) ==> |Next(p, n)| == 1)
    ensures forall e :: e in Next(p, n) ==> e in p.w.edges && e.from == n.id
  {
    hide ValidPlan;
    PlanFanOut(p, n);
    if n.kind == Condition {
      OneOfTwo(Outgoing(p.w.edges, n.id), if p.decide(n) then Yes else No);
    }
  }

  // Visiting the target of e replaces e's height by less.
  lemma StepDown(p: Plan, e: Edge)
    requires ValidPlan(p) && e in p.w.edges
    ensures var next := Next(p, Target(p, e));
            |next| <= 1 && FromPlan(p, next) && Potential(p, next) < Height(p, e)
  {
    hide ValidPlan, Next, Target;
    var n := Target(p, e);
    var next := Next(p, n);
    NextIsSingle(p, n);
    if next != [] {
      assert next[0] in next && next == [next[0]];
      EdgeRises(p, e);
      EdgeRises(p, next[0]);
      assert Potential(p, next[1..]) == 0;
    }
  }

  // Dequeuing an edge and pushing what its target leads to lowers the potential of the queue.
  lemma HeadStep(p: Plan, queue: seq<Edge>)
    requires ValidPlan(p) && FromPlan(p, queue) && queue != []
    ensures queue[0] in p.w.edges
    ensures var next := Next(p, Target(p, queue[0]));
            && |next| <= 1 && FromPlan(p, queue[1..]) && FromPlan(p, next) && FromPlan(p, queue[1..] + next)
            && Potential(p, queue[1..] + next) < Potential(p, queue) && Potential(p, next) < Potential(p, queue)
  {
    hide ValidPlan, Height, Next, Target;
    assert queue[0] in queue;
    StepDown(p, queue[0]);
    PotentialConcat(p, queue[1..], Next(p, Target(p, queue[0])));
  }

  // ---- one walk, and a whole run ----

  /** walkFrom without its iteration cap. */
  ghost function WalkFrom(p: Plan, queue: seq<Edge>, l: Ledger): (r: (Outcome, Ledger))
    requires ValidPlan(p) && FromPlan(p, queue)
    decreases Potential(p, queue)
  {
    if queue == [] then (Completed, l)
    else
      assert queue[0] in queue;
      var n := Target(p, queue[0]);
      if n.kind == Delay then (Suspended(n.id), Visit(p, n, l))
      else if Fails(p, n, l) then (Failed(n.id), Visit(p, n, l))
      else
        StepDown(p, queue[0]);
        PotentialConcat(p, queue[1..], Next(p, n));
        WalkFrom(p, queue[1..] + Next(p, n), Visit(p, n, l))
  }

  // The delay at which a walk suspends continues strictly below the walk's queue.
  lemma SuspendsBelow(p: Plan, queue: seq<Edge>, l: Ledger)
    requires ValidPlan(p) && FromPlan(p, queue) && WalkFrom(p, queue, l).0.Suspended?
    ensures var rest := Outgoing(p.w.edges, WalkFrom(p, queue, l).0.delay);
            |rest| == 1 && FromPlan(p, rest) && Potential(p, rest) < Potential(p, queue)
    decreases Potential(p, queue)
  {
    assert queue[0] in queue;
    var n := Target(p, queue[0]);
    StepDown(p, queue[0]);
    if n.kind == Delay {
      NextIsSingle(p, n);
    } else {
      PotentialConcat(p, queue[1..], Next(p, n));
      SuspendsBelow(p, queue[1..] + Next(p, n), Visit(p, n, l));
    }
  }

  /** A run to its end: each suspension is continued by resumeRun from the delay's successors. */
  ghost function RunToEnd(p: Plan, queue: seq<Edge>, l: Ledger): (Outcome, Ledger)
    requires ValidPlan(p) && FromPlan(p, queue)
    decreases Potential(p, queue)
  {
    var r := WalkFrom(p, queue, l);
    if r.0.Suspended? then
      SuspendsBelow(p, queue, l);
      RunToEnd(p, Outgoing(p.w.edges, r.0.delay), r.1)
    else r
  }

  /** The simple interpreter: follow one edge after another, passing through delays. */
  ghost function Interpret(p: Plan, e: Edge, l: Ledger): (Outcome, Ledger)
    requires ValidPlan(p) && e in p.w.edges
    decreases Height(p, e)
  {
    var n := Target(p, e);
    if Fails(p, n, l) then (Failed(n.id), Visit(p, n, l))
    else
      StepDown(p, e);
      var next := Next(p, n);
      if next == [] then (Completed, Visit(p, n, l))
      else
        assert next[0] in next;
        assert next == [next[0]] && Potential(p, next[1..]) == 0;
        Interpret(p, next[0], Visit(p, n, l))
  }

  /** A run that starts along one edge, cut by delays and resumed any number of times, visits the
      same nodes in the same order, performs the same actions and ends in the same status as the
      interpreter that treats delays as no-ops. */
  lemma {:induction false} DelaysAreTransparent(p: Plan, e: Edge, l: Ledger)
    requires ValidPlan(p) && e in p.w.edges
    ensures FromPlan(p, [e]) && RunToEnd(p, [e], l) == Interpret(p, e, l)
    decreases Height(p, e)
  {
    hide ValidPlan, Height, Target, Visit;
    var n := Target(p, e);
    var after := Visit(p, n, l);
    StepDown(p, e);
    NextIsSingle(p, n);
    var next := Next(p, n);
    assert [e][1..] + next == next;
    if !Fails(p, n, l) {
      if next == [] {
        assert WalkFrom(p, [e], l) == WalkFrom(p, [], after);
      } else {
        assert next[0] in next && next == [next[0]];
        assert Potential(p, next[1..]) == 0;
        DelaysAreTransparent(p, next[0], after);
        if n.kind != Delay {
          assert WalkFrom(p, [e], l) == WalkFrom(p, next, after);
        }
      }
    }
  }
}
