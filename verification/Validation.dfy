/** validateWorkflowDefinition of packages/automation/src/dag.ts, against a declarative
    account of which definitions are valid. */
module Validation {
  import opened Wrappers
  import opened Ids
  import opened Topology
  import opened Definition
  import Dag
  import CronParser

  const MAX_ISSUES := 40

  datatype Issue =
    | BadShape
    | DuplicateId(id: string)
    | BadConfig(id: string)
    | TriggerCount(n: nat)
    | UnknownEnd(id: string)
    | SelfLoop(id: string)
    | BranchLabel(id: string)
    | TriggerIncoming(id: string)
    | DuplicateEdge(edge: Edge)
    | FanOut(id: string)
    | Cycle
    | Unreachable
    | BadContent(id: string)

  // `add`: issues beyond the fortieth are dropped.
  function Add(issues: seq<Issue>, issue: Issue): (r: seq<Issue>)
    ensures r != []
    ensures |issues| <= MAX_ISSUES ==> |r| <= MAX_ISSUES
  {
    if |issues| < MAX_ISSUES then issues + [issue] else issues
  }

  // ---- what a valid definition is ----

  predicate HasKind(w: Workflow, id: string, kind: Kind) {
    exists n :: n in w.nodes && n.id == id && n.kind == kind
  }

  predicate EdgeWellLabelled(w: Workflow, e: Edge) {
    && e.from in IdsOf(w) && e.to in IdsOf(w)
    && (e.branch.Some? <==> HasKind(w, e.from, Condition))
  }

  /** A condition has one YES and one NO edge; any other node but the trigger at most one
      edge, and a delay exactly one. */
  ghost predicate FanOutOk(w: Workflow, n: Node) {
    match n.kind
    case Trigger => true
    case Condition =>
      exists y, z :: y in w.edges && z in w.edges && y.from == z.from == n.id
                     && y.branch == Some(Yes) && z.branch == Some(No)
                     && forall e :: e in w.edges && e.from == n.id ==> e == y || e == z
    case Delay =>
      exists e :: e in w.edges && e.from == n.id && forall f :: f in w.edges && f.from == n.id ==> f == e
    case _ => forall e, f :: e in w.edges && f in w.edges && e.from == f.from == n.id ==> e == f
  }

  // t is the only trigger, nothing leads into it, and it leads to every node.
  ghost predicate IsRoot(w: Workflow, t: Node) {
    && OnlyTrigger(w, t)
    && (forall e :: e in w.edges ==> e.to != t.id)
    && forall n :: n in w.nodes ==> Reachable(GraphOf(w), t.id, n.id)
  }

  ghost predicate ValidWorkflow(w: Workflow) {
    && ShapeParses(w)
    && Distinct(IdsOf(w))
    && (forall n :: n in w.nodes ==> ConfigParses(n) && ConfigMeaningful(n) && FanOutOk(w, n))
    && (forall e :: e in w.edges ==> EdgeWellLabelled(w, e))
    && Distinct(w.edges)
    && !HasCycle(GraphOf(w))
    && exists t :: IsRoot(w, t)
  }

  // ---- the stages of the check ----

  method CheckIds(w: Workflow) returns (issues: seq<Issue>)
    ensures |issues| <= MAX_ISSUES && (issues == [] <==> Distinct(IdsOf(w)))
  {
    issues := [];
    var seen: set<string> := {};
    for i := 0 to |w.nodes|
      invariant |issues| <= MAX_ISSUES && (issues == [] <==> Distinct(IdsOf(w)[..i]))
      invariant forall v :: v in seen <==> v in IdsOf(w)[..i]
    {
      var id := w.nodes[i].id;
      assert IdsOf(w)[..i + 1] == IdsOf(w)[..i] + [id];
      if id in seen {
        issues := Add(issues, DuplicateId(id));
        var j :| 0 <= j < i && IdsOf(w)[..i][j] == id;
        assert IdsOf(w)[..i + 1][j] == IdsOf(w)[..i + 1][i];
      } else {
        PrefixDistinct(IdsOf(w)[..i], id);
      }
      seen := seen + {id};
    }
    assert IdsOf(w)[..|w.nodes|] == IdsOf(w);
  }

  lemma PrefixDistinct<T>(s: seq<T>, x: T)
    requires x !in s
    ensures Distinct(s + [x]) <==> Distinct(s)
  {
    if Distinct(s + [x]) {
      forall i, j | 0 <= i < j < |s|
        ensures s[i] != s[j]
      {
        assert (s + [x])[i] != (s + [x])[j];
      }
    }
  }

  method CheckNodes(w: Workflow, ok: Node -> bool, issue: Node -> Issue) returns (issues: seq<Issue>)
    ensures |issues| <= MAX_ISSUES && (issues == [] <==> forall n :: n in w.nodes ==> ok(n))
  {
    issues := [];
    for i := 0 to |w.nodes|
      invariant |issues| <= MAX_ISSUES
      invariant issues == [] <==> forall k :: 0 <= k < i ==> ok(w.nodes[k])
    {
      if !ok(w.nodes[i]) {
        issues := Add(issues, issue(w.nodes[i]));
      }
    }
  }

  lemma DistinctNodes(w: Workflow)
    requires Distinct(IdsOf(w))
    ensures Distinct(w.nodes)
  {
    forall i, j | 0 <= i < j < |w.nodes|
      ensures w.nodes[i] != w.nodes[j]
    {
      assert IdsOf(w)[i] != IdsOf(w)[j];
    }
  }

  ghost predicate OnlyTrigger(w: Workflow, t: Node) {
    t in w.nodes && forall n :: n in w.nodes ==> (n.kind == Trigger <==> n == t)
  }

  method Triggers(w: Workflow) returns (triggers: seq<Node>)
    requires Distinct(IdsOf(w))
    ensures |triggers| == 1 ==> OnlyTrigger(w, triggers[0])
    ensures (exists t :: OnlyTrigger(w, t)) ==> |triggers| == 1
  {
    DistinctNodes(w);
    triggers := [];
    for i := 0 to |w.nodes|
      invariant Distinct(triggers)
      invariant forall n :: n in triggers <==> n in w.nodes[..i] && n.kind == Trigger
    {
      var n := w.nodes[i];
      assert n !in w.nodes[..i];
      if n.kind == Trigger {
        triggers := triggers + [n];
      }
      assert w.nodes[..i + 1] == w.nodes[..i] + [n];
    }
    assert w.nodes[..|w.nodes|] == w.nodes;
    OneTrigger(w, triggers);
  }

  lemma OneTrigger(w: Workflow, triggers: seq<Node>)
    requires Distinct(triggers) && forall n :: n in triggers <==> n in w.nodes && n.kind == Trigger
    ensures |triggers| == 1 ==> OnlyTrigger(w, triggers[0])
    ensures (exists t :: OnlyTrigger(w, t)) ==> |triggers| == 1
  {
    if |triggers| == 1 {
      assert triggers[0] in triggers;
    }
    if t :| OnlyTrigger(w, t) {
      assert t in triggers;
      assert |triggers| > 1 ==> triggers[0] in triggers && triggers[1] in triggers && triggers[0] != triggers[1];
    }
  }

  predicate EdgeFirstStage(w: Workflow, e: Edge) {
    EdgeWellLabelled(w, e) && e.from != e.to
  }

  method CheckEdges(w: Workflow) returns (issues: seq<Issue>)
    ensures |issues| <= MAX_ISSUES && (issues == [] <==> forall e :: e in w.edges ==> EdgeFirstStage(w, e))
  {
    issues := [];
    for i := 0 to |w.edges|
      invariant |issues| <= MAX_ISSUES
      invariant issues == [] <==> forall k :: 0 <= k < i ==> EdgeFirstStage(w, w.edges[k])
    {
      var e := w.edges[i];
      if e.from !in IdsOf(w) {
        issues := Add(issues, UnknownEnd(e.from));
      }
      if e.to !in IdsOf(w) {
        issues := Add(issues, UnknownEnd(e.to));
      }
      if e.from == e.to {
        issues := Add(issues, SelfLoop(e.from));
      }
      if e.from in IdsOf(w) && e.branch.Some? != HasKind(w, e.from, Condition) {
        issues := Add(issues, BranchLabel(e.from));
      }
    }
  }

  method CheckEdgeKeys(w: Workflow, trigger: string) returns (issues: seq<Issue>)
    ensures |issues| <= MAX_ISSUES
    ensures issues == [] <==> Distinct(w.edges) && forall e :: e in w.edges ==> e.to != trigger
  {
    issues := [];
    for i := 0 to |w.edges|
      invariant |issues| <= MAX_ISSUES
      invariant issues == [] <==> Distinct(w.edges[..i]) && forall e :: e in w.edges[..i] ==> e.to != trigger
    {
      var e := w.edges[i];
      assert w.edges[..i + 1] == w.edges[..i] + [e];
      if e.to == trigger {
        issues := Add(issues, TriggerIncoming(trigger));
        assert e in w.edges[..i + 1];
      }
      if e in w.edges[..i] {
        issues := Add(issues, DuplicateEdge(e));
        var j :| 0 <= j < i && w.edges[j] == e;
        assert w.edges[..i + 1][j] == w.edges[..i + 1][i];
      } else {
        PrefixDistinct(w.edges[..i], e);
      }
    }
    assert w.edges[..|w.edges|] == w.edges;
  }

  /** successorsOf without a branch: the edges leaving a node, in definition order. */
  function Outgoing(edges: seq<Edge>, id: string): (r: seq<Edge>)
    ensures forall e :: e in r <==> e in edges && e.from == id
    ensures Distinct(edges) ==> Distinct(r)
  {
    if edges == [] then []
    else
      var n := |edges| - 1;
      assert edges == edges[..n] + [edges[n]];
      assert Distinct(edges) ==> Distinct(edges[..n]) && edges[n] !in edges[..n];
      Outgoing(edges[..n], id) + if edges[n].from == id then [edges[n]] else []
  }

  predicate FanOutCounted(w: Workflow, n: Node) {
    var out := Outgoing(w.edges, n.id);
    match n.kind
    case Trigger => true
    case Condition => |out| == 2 && out[0].branch != out[1].branch
    case Delay => |out| == 1
    case _ => |out| <= 1
  }

  // y and z are all of out, one for each branch.
  ghost predicate YesAndNo(out: seq<Edge>, y: Edge, z: Edge) {
    y in out && z in out && y.branch == Some(Yes) && z.branch == Some(No) && forall e :: e in out ==> e == y || e == z
  }

  lemma TwoElements(out: seq<Edge>)
    requires Distinct(out) && forall e :: e in out ==> e.branch.Some?
    ensures |out| == 2 && out[0].branch != out[1].branch
            <==> exists y, z :: YesAndNo(out, y, z)
  {
    if |out| == 2 && out[0].branch != out[1].branch {
      assert out[0] in out && out[1] in out;
      var b, c := out[0].branch.value, out[1].branch.value;
      assert (b == Yes || b == No) && (c == Yes || c == No);
      var first := out[0].branch == Some(Yes);
      var y, z := if first then out[0] else out[1], if first then out[1] else out[0];
      assert YesAndNo(out, y, z);
    }
    if y, z :| YesAndNo(out, y, z) {
      DistinctSize(out, {y, z});
      assert |out| >= 2;
      assert out[0] in out && out[1] in out;
    }
  }

  lemma AtMostOne(out: seq<Edge>)
    requires Distinct(out)
    ensures |out| <= 1 <==> forall e, f :: e in out && f in out ==> e == f
  {
    if |out| > 1 {
      assert out[0] in out && out[1] in out && out[0] != out[1];
    }
  }

  lemma ExactlyOne(out: seq<Edge>)
    requires Distinct(out)
    ensures |out| == 1 <==> exists e :: e in out && forall f :: f in out ==> f == e
  {
    if |out| > 1 {
      assert out[0] in out && out[1] in out && out[0] != out[1];
    }
    if |out| == 1 {
      assert out[0] in out;
    }
  }

  lemma ConditionLabelled(w: Workflow, n: Node)
    requires n in w.nodes && n.kind == Condition
    requires forall e :: e in w.edges ==> EdgeWellLabelled(w, e)
    ensures forall e :: e in Outgoing(w.edges, n.id) ==> e.branch.Some?
  {
    assert HasKind(w, n.id, Condition);
  }

  lemma CountedCondition(w: Workflow, n: Node)
    requires n.kind == Condition && Distinct(w.edges)
    requires forall e :: e in Outgoing(w.edges, n.id) ==> e.branch.Some?
    ensures FanOutCounted(w, n) <==> FanOutOk(w, n)
  {
    var out := Outgoing(w.edges, n.id);
    TwoElements(out);
    hide Outgoing, YesAndNo;
    if y, z :| YesAndNo(out, y, z) {
      LabelledPair(w, n, y, z);
    }
    if FanOutOk(w, n) {
      var y, z :| y in w.edges && z in w.edges && y.from == z.from == n.id
                     && y.branch == Some(Yes) && z.branch == Some(No)
                     && forall e :: e in w.edges && e.from == n.id ==> e == y || e == z;
      PairLabelled(w, n, y, z);
    }
  }

  lemma LabelledPair(w: Workflow, n: Node, y: Edge, z: Edge)
    requires n.kind == Condition && YesAndNo(Outgoing(w.edges, n.id), y, z)
    ensures FanOutOk(w, n)
  {
    assert y in w.edges && z in w.edges;
    assert forall e :: e in w.edges && e.from == n.id ==> e in Outgoing(w.edges, n.id);
  }

  lemma PairLabelled(w: Workflow, n: Node, y: Edge, z: Edge)
    requires y in w.edges && z in w.edges && y.from == z.from == n.id && y.branch == Some(Yes) && z.branch == Some(No)
    requires forall e :: e in w.edges && e.from == n.id ==> e == y || e == z
    ensures YesAndNo(Outgoing(w.edges, n.id), y, z)
  {
  }

  lemma CountedFanOut(w: Workflow, n: Node)
    requires n in w.nodes && Distinct(w.edges)
    requires forall e :: e in w.edges ==> EdgeWellLabelled(w, e)
    ensures FanOutCounted(w, n) <==> FanOutOk(w, n)
  {
    if n.kind == Condition {
      ConditionLabelled(w, n);
      CountedCondition(w, n);
    } else {
      CountedSingle(w, n);
    }
  }

  lemma CountedSingle(w: Workflow, n: Node)
    requires n.kind != Condition && Distinct(w.edges)
    ensures FanOutCounted(w, n) <==> FanOutOk(w, n)
  {
    if n.kind == Delay {
      ExactlyOne(Outgoing(w.edges, n.id));
      hide Outgoing, Distinct;
    } else if n.kind != Trigger {
      AtMostOne(Outgoing(w.edges, n.id));
      hide Outgoing, Distinct;
    }
  }

  /** The depth-first search of lines 147-157: everything reachable from the trigger. */
  method ReachFrom(w: Workflow, root: string) returns (visited: set<string>)
    requires root in IdsOf(w) && forall e :: e in w.edges ==> e.from in IdsOf(w) && e.to in IdsOf(w)
    ensures forall v :: v in visited <==> Reachable(GraphOf(w), root, v)
    ensures forall v :: v in visited ==> v in IdsOf(w)
  {
    visited := {root};
    var frontier := [root];
    ghost var all := set v | v in IdsOf(w);
    assert Reachable(GraphOf(w), root, root) by {
      assert IsPath(GraphOf(w), [root]);
    }
    while frontier != []
      invariant root in visited && visited <= all
      invariant forall v :: v in frontier ==> v in visited
      invariant forall v :: v in visited ==> Reachable(GraphOf(w), root, v)
      invariant forall e :: e in w.edges && e.from in visited && e.from !in frontier ==> e.to in visited
      decreases |all| - |visited|, |frontier|
    {
      Dag.SubsetSize(visited, all);
      visited, frontier := ReachStep(w, root, visited, frontier, all);
      Dag.SubsetSize(visited, all);
    }
    forall v | Reachable(GraphOf(w), root, v)
      ensures v in visited
    {
      var p :| IsPath(GraphOf(w), p) && p[0] == root && p[|p| - 1] == v;
      forall a | a in GraphOf(w).arcs && a.from in visited
        ensures a.to in visited
      {
        ArcOfEdge(w, a.from, a.to);
      }
      ClosedContainsPath(GraphOf(w), visited, p);
    }
  }

  // Pop one id and push its successors not seen yet.
  method ReachStep(w: Workflow, ghost root: string, visited: set<string>, frontier: seq<string>, ghost all: set<string>)
      returns (seen: set<string>, stack: seq<string>)
    requires frontier != [] && visited <= all && forall v :: v in frontier ==> v in visited
    requires forall e :: e in w.edges ==> e.to in all
    requires forall v :: v in visited ==> Reachable(GraphOf(w), root, v)
    requires forall e :: e in w.edges && e.from in visited && e.from !in frontier ==> e.to in visited
    ensures visited <= seen <= all && forall v :: v in stack ==> v in seen
    ensures forall v :: v in seen ==> Reachable(GraphOf(w), root, v)
    ensures forall e :: e in w.edges && e.from in seen && e.from !in stack ==> e.to in seen
    ensures |seen| > |visited| || (seen == visited && |stack| < |frontier|)
  {
    var top := |frontier| - 1;
    var current := frontier[top];
    seen, stack := visited, frontier[..top];
    assert frontier == frontier[..top] + [current];
    for i := 0 to |w.edges|
      invariant visited <= seen <= all && forall v :: v in stack ==> v in seen
      invariant forall v :: v in seen ==> Reachable(GraphOf(w), root, v)
      invariant forall e :: e in w.edges && e.from in seen && e.from !in stack && e.from != current ==> e.to in seen
      invariant forall k :: 0 <= k < i && w.edges[k].from == current ==> w.edges[k].to in seen
      invariant |seen| > |visited| || (seen == visited && stack == frontier[..top])
    {
      var e := w.edges[i];
      if e.from == current && e.to !in seen {
        ArcOfEdge(w, current, e.to);
        ReachableStep(GraphOf(w), root, current, e.to);
        Dag.SubsetSize(visited, seen);
        seen := seen + {e.to};
        stack := stack + [e.to];
      }
    }
  }

  lemma EverythingVisited(w: Workflow, visited: set<string>)
    requires Distinct(IdsOf(w)) && forall v :: v in visited ==> v in IdsOf(w)
    ensures |visited| == |w.nodes| <==> forall n :: n in w.nodes ==> n.id in visited
  {
    var all := set v | v in IdsOf(w);
    SetOfDistinct(IdsOf(w), all);
    Dag.SubsetSize(visited, all);
    if |visited| == |w.nodes| {
      if v :| v in all && v !in visited {
        Dag.SubsetSize(visited, all - {v});
        assert false;
      }
      forall n | n in w.nodes
        ensures n.id in visited
      {
        IdOfNode(w, n.id);
      }
    }
    if forall n :: n in w.nodes ==> n.id in visited {
      forall v | v in all
        ensures v in visited
      {
        IdOfNode(w, v);
      }
      assert visited == all;
    }
  }

  lemma ProperGraph(w: Workflow)
    requires Distinct(IdsOf(w)) && forall e :: e in w.edges ==> e.from in IdsOf(w) && e.to in IdsOf(w)
    ensures Proper(GraphOf(w))
  {
    forall a | a in GraphOf(w).arcs
      ensures a.from in IdsOf(w) && a.to in IdsOf(w)
    {
      ArcOfEdge(w, a.from, a.to);
    }
  }

  lemma SelfLoopIsCycle(w: Workflow, e: Edge)
    requires e in w.edges && e.from == e.to
    ensures HasCycle(GraphOf(w))
  {
    ArcOfEdge(w, e.from, e.to);
    var p := [e.from, e.from];
    assert IsPath(GraphOf(w), p);
  }

  lemma ValidNeeds(w: Workflow)
    requires ValidWorkflow(w)
    ensures ShapeParses(w) && Distinct(IdsOf(w)) && (forall n :: n in w.nodes ==> ConfigParses(n))
    ensures (exists t :: OnlyTrigger(w, t)) && forall e :: e in w.edges ==> EdgeFirstStage(w, e)
  {
    hide FanOutOk, ConfigParses, ConfigMeaningful, EdgeWellLabelled;
    var t :| IsRoot(w, t);
    forall e | e in w.edges
      ensures EdgeFirstStage(w, e)
    {
      if e.from == e.to {
        SelfLoopIsCycle(w, e);
        assert false;
      }
    }
  }

  // With its one trigger found, validity is what the stages check.
  lemma ValidByStages(w: Workflow, t: Node)
    requires ShapeParses(w) && Distinct(IdsOf(w)) && (forall n :: n in w.nodes ==> ConfigParses(n)) && OnlyTrigger(w, t)
    requires forall e :: e in w.edges ==> EdgeFirstStage(w, e)
    ensures ValidWorkflow(w) <==>
            && Distinct(w.edges) && (forall n :: n in w.nodes ==> FanOutOk(w, n)) && !HasCycle(GraphOf(w))
                && IsRoot(w, t)
            && forall n :: n in w.nodes ==> ConfigMeaningful(n)
  {
    hide FanOutOk, ConfigParses, ConfigMeaningful, EdgeWellLabelled, HasCycle, ShapeParses;
    if ValidWorkflow(w) {
      var r :| IsRoot(w, r);
      assert r == t;
    }
  }

  /** The definition is accepted, with no issue, if and only if it is valid. */
  method ValidateWorkflowDefinition(w: Workflow) returns (issues: seq<Issue>)
    ensures issues == [] <==> ValidWorkflow(w)
    ensures |issues| <= MAX_ISSUES
  {
    hide ValidWorkflow, ShapeParses, FanOutOk, ConfigParses, ConfigMeaningful, EdgeFirstStage, HasCycle, IsRoot,
        OnlyTrigger;
    if ValidWorkflow(w) {
      ValidNeeds(w);
    }
    if !ShapeParses(w) {
      return [BadShape];
    }
    issues := CheckIds(w);
    if issues != [] { return; }
    issues := CheckNodes(w, ConfigParses, (n: Node) => BadConfig(n.id));
    if issues != [] { return; }
    var triggers := Triggers(w);
    if |triggers| != 1 {
      return [TriggerCount(|triggers|)];
    }
    var trigger := triggers[0];
    issues := CheckEdges(w);
    if issues != [] { return; }
    ValidByStages(w, trigger);
    issues := CheckStructure(w, trigger);
    if issues != [] { return; }
    issues := CheckNodes(w, ConfigMeaningful, (n: Node) => BadContent(n.id));
  }

  lemma EdgeEnds(w: Workflow)
    requires forall e :: e in w.edges ==> EdgeFirstStage(w, e)
    ensures forall e :: e in w.edges ==> EdgeWellLabelled(w, e) && e.from in IdsOf(w) && e.to in IdsOf(w)
  {
  }

  method CheckStructure(w: Workflow, trigger: Node) returns (issues: seq<Issue>)
    requires ShapeParses(w) && Distinct(IdsOf(w)) && OnlyTrigger(w, trigger)
    requires forall e :: e in w.edges ==> EdgeFirstStage(w, e)
    ensures |issues| <= MAX_ISSUES
    ensures issues == [] <==> Distinct(w.edges) && (forall n :: n in w.nodes ==> FanOutOk(w, n))
                              && !HasCycle(GraphOf(w)) && IsRoot(w, trigger)
  {
    hide FanOutCounted, FanOutOk, EdgeWellLabelled, HasCycle, Reachable, ShapeParses;
    EdgeEnds(w);
    issues := CheckEdgeKeys(w, trigger.id);
    var fanOut := CheckNodes(w, (n: Node) => FanOutCounted(w, n), (n: Node) => FanOut(n.id));
    if issues != [] || fanOut != [] {
      if issues == [] {
        var n :| n in w.nodes && !FanOutCounted(w, n);
        CountedFanOut(w, n);
      }
      return (issues + fanOut)[..if |issues + fanOut| <= MAX_ISSUES then |issues + fanOut| else MAX_ISSUES];
    }
    forall n | n in w.nodes
      ensures FanOutOk(w, n)
    {
      CountedFanOut(w, n);
    }
    ProperGraph(w);
    var order := Dag.TopologicalOrder(GraphOf(w));
    if order.None? {
      return [Cycle];
    }
    OrderExcludesCycle(GraphOf(w), order.value);
    IdOfNode(w, trigger.id);
    var visited := ReachFrom(w, trigger.id);
    EverythingVisited(w, visited);
    if |visited| != |w.nodes| {
      return [Unreachable];
    }
  }
}
