/** A valid definition whose trigger fans out into a delay and a sibling: the delay's
    suspension discards the sibling, which the run then never visits. */
module ExecutorExample {
  import opened Wrappers
  import opened Ids
  import opened Topology
  import opened Definition
  import opened Validation
  import opened Walk
  import opened Executor

  const T := Node("t", Trigger, TriggerWith(Manual))
  const D := Node("d", Delay, DelayFor(1))
  const A := Node("a", TagCustomer, Tag("x"))
  const B := Node("b", TagCustomer, Tag("y"))
  const TD := Edge("t", "d", None)
  const TB := Edge("t", "b", None)
  const DA := Edge("d", "a", None)
  const FORK := Workflow([T, D, A, B], [TD, TB, DA])

  lemma IdsDiffer()
    ensures T.id[0] == 't' && D.id[0] == 'd' && A.id[0] == 'a' && B.id[0] == 'b'
    ensures T.id != D.id && T.id != A.id && T.id != B.id && D.id != A.id && D.id != B.id && A.id != B.id
  {
  }

  lemma ForkGraph()
    ensures IdsOf(FORK) == ["t", "d", "a", "b"]
    ensures GraphOf(FORK).arcs == [Arc("t", "d"), Arc("t", "b"), Arc("d", "a")]
    ensures Distinct(IdsOf(FORK)) && Distinct(FORK.edges)
  {
    IdsDiffer();
  }

  lemma ForkOrder()
    ensures IsTopological(GraphOf(FORK), ["t", "d", "a", "b"])
  {
    ForkGraph();
    IdsDiffer();
    var order := ["t", "d", "a", "b"];
    assert order[0] == "t" && order[1] == "d" && order[2] == "a" && order[3] == "b";
    assert Before(order, "t", "d") && Before(order, "t", "b") && Before(order, "d", "a");
  }

  lemma ForkReachable()
    ensures forall n :: n in FORK.nodes ==> Reachable(GraphOf(FORK), "t", n.id)
  {
    var g := GraphOf(FORK);
    ForkGraph();
    assert g.arcs[0] == Arc("t", "d") && g.arcs[1] == Arc("t", "b") && g.arcs[2] == Arc("d", "a");
    assert IsPath(g, ["t"]);
    assert Reachable(g, "t", "t");
    ReachableStep(g, "t", "t", "d");
    ReachableStep(g, "t", "t", "b");
    ReachableStep(g, "t", "d", "a");
  }

  lemma ForkMembers()
    ensures forall n :: n in FORK.nodes <==> n == T || n == D || n == A || n == B
    ensures forall e :: e in FORK.edges <==> e == TD || e == TB || e == DA
  {
    assert FORK.nodes[0] == T && FORK.nodes[1] == D && FORK.nodes[2] == A && FORK.nodes[3] == B;
    assert FORK.edges[0] == TD && FORK.edges[1] == TB && FORK.edges[2] == DA;
  }

  lemma ForkLabels()
    ensures forall e :: e in FORK.edges ==> EdgeWellLabelled(FORK, e)
  {
    hide HasKind, IdsOf, GraphOf, EdgeWellLabelled;
    ForkGraph();
    ForkMembers();
    var ids := IdsOf(FORK);
    assert ids[0] == "t" && ids[1] == "d" && ids[2] == "a" && ids[3] == "b";
    forall e | e in FORK.edges
      ensures EdgeWellLabelled(FORK, e)
    {
      NoCondition(e.from);
      LabelRule(e);
    }
  }

  lemma NoCondition(id: string)
    ensures !HasKind(FORK, id, Condition)
  {
    ForkMembers();
  }

  lemma LabelRule(e: Edge)
    requires !HasKind(FORK, e.from, Condition) && e.branch.None? && e.from in IdsOf(FORK) && e.to in IdsOf(FORK)
    ensures EdgeWellLabelled(FORK, e)
  {
  }

  lemma NoEdgesFanOut(n: Node)
    requires n == A || n == B
    ensures FanOutOk(FORK, n)
  {
    IdsDiffer();
    ForkMembers();
    assert forall e :: e in FORK.edges ==> e.from != n.id;
  }

  lemma OneEdgeFanOut(w: Workflow, n: Node, e: Edge)
    requires n.kind == Delay && e in w.edges && e.from == n.id
    requires forall f :: f in w.edges && f.from == n.id ==> f == e
    ensures FanOutOk(w, n)
  {
  }

  lemma DelayFanOut()
    ensures FanOutOk(FORK, D)
  {
    hide FanOutOk;
    IdsDiffer();
    ForkMembers();
    assert TD.from == T.id && TB.from == T.id && DA.from == D.id;
    OneEdgeFanOut(FORK, D, DA);
  }

  lemma ForkFanOut()
    ensures FanOutOk(FORK, T) && FanOutOk(FORK, D) && FanOutOk(FORK, A) && FanOutOk(FORK, B)
  {
    DelayFanOut();
    NoEdgesFanOut(A);
    NoEdgesFanOut(B);
    hide FanOutOk;
    TriggerFanOut();
  }

  lemma TriggerFanOut()
    ensures FanOutOk(FORK, T)
  {
  }

  lemma ForkConfigs()
    ensures forall n :: n in FORK.nodes ==> ConfigParses(n) && ConfigMeaningful(n) && ValidId(n.id)
    ensures ShapeParses(FORK)
  {
    ForkMembers();
  }

  lemma ForkRoot()
    ensures IsRoot(FORK, T)
  {
    IdsDiffer();
    ForkMembers();
    ForkReachable();
    assert OnlyTrigger(FORK, T);
  }

  lemma ForkValid()
    ensures ValidWorkflow(FORK) && IsRoot(FORK, T)
  {
    hide FanOutOk, ConfigParses, ConfigMeaningful, ShapeParses, IsRoot, EdgeWellLabelled, GraphOf, IdsOf, HasCycle,
        IsTopological;
    ForkGraph();
    ForkOrder();
    OrderExcludesCycle(GraphOf(FORK), ["t", "d", "a", "b"]);
    ForkLabels();
    ForkFanOut();
    ForkConfigs();
    ForkMembers();
    ForkRoot();
  }

  lemma ForkStart()
    ensures Outgoing(FORK.edges, T.id) == [TD, TB]
  {
    IdsDiffer();
    OutgoingNext([], TD, T.id);
    OutgoingNext([TD], TB, T.id);
    OutgoingNext([TD, TB], DA, T.id);
    hide Outgoing;
    assert [] + [TD] == [TD] && [TD] + [TB] == [TD, TB] && [TD, TB] + [DA] == FORK.edges;
    NoEdges(T.id);
  }

  lemma NoEdges(id: string)
    ensures Outgoing([], id) == []
  {
  }

  lemma OutgoingNext(edges: seq<Edge>, e: Edge, id: string)
    ensures Outgoing(edges + [e], id) == Outgoing(edges, id) + if e.from == id then [e] else []
  {
    assert (edges + [e])[..|edges|] == edges;
  }

  lemma DelayFirst(p: Plan, start: seq<Edge>)
    requires p.w == FORK && ValidPlan(p) && start == [TD, TB] && FromPlan(p, start)
    ensures !NothingDiscarded(p, start)
  {
    hide ValidPlan, Height, GraphOf, IsPath;
    assert start[0] in start && start[0] == TD && start[1..] == [TB];
    var n := Target(p, TD);
    assert n == D by {
      ForkMembers();
      IdsDiffer();
    }
  }

  /** The sibling edge is still queued when the delay suspends, so the run differs from the
      undelayed walk although every action succeeds. */
  lemma SiblingLost(l: Ledger) returns (p: Plan)
    ensures p.w == FORK && ValidPlan(p) && AllSucceed(p) && IsRoot(FORK, T)
    ensures var start := Outgoing(FORK.edges, T.id);
            FromPlan(p, start) && RunToEnd(p, start, l) != Undelayed(p, start, l)
  {
    hide ValidWorkflow, IsTopological, NothingDiscarded, KeptUntilFailure, RunToEnd, Undelayed, Outgoing, IsRoot;
    p := Plan(FORK, ["t", "d", "a", "b"], n => true, n => true);
    ForkOrder();
    ForkValid();
    ForkStart();
    StartFromPlan(p, T);
    DelayFirst(p, [TD, TB]);
    SiblingsSurviveIff(p, [TD, TB], l);
    NeverFailing(p, [TD, TB], l);
  }
}
