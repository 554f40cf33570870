/** What a walk does, said of the definition itself: which branch it takes, what it visits, what it
    performs and how it ends (packages/automation/src/workflow.executor.ts). */
module WalkMeaning {
  import opened Wrappers
  import opened Ids
  import opened Definition
  import opened Validation
  import opened Walk

  /** The walk goes on along e from the node with this id: along every edge of an action or a delay, and
      along the YES edge of a condition that holds and the NO edge of one that does not. */
  predicate Follows(p: Plan, id: string, e: Edge) {
    var n := Find(p.w.nodes, id);
    && n.Some? && e in p.w.edges && e.from == id
    && (n.value.kind == Condition ==> (e.branch == Some(Yes) <==> p.decide(n.value)))
  }

  predicate HasKindAt(p: Plan, id: string, kind: Kind) {
    var n := Find(p.w.nodes, id);
    n.Some? && n.value.kind == kind
  }

  predicate ActionAt(p: Plan, id: string) {
    var n := Find(p.w.nodes, id);
    n.Some? && IsAction(n.value)
  }

  predicate Done(l: Ledger, id: string) {
    id in l.steps && l.steps[id] == StepCompleted
  }

  /** Next is that relation, and for a condition exactly one edge satisfies it. */
  lemma NextIff(p: Plan, e: Edge)
    requires ValidPlan(p) && e in p.w.edges
    ensures var n := Target(p, e);
            && Find(p.w.nodes, n.id) == Some(n)
            && (forall d :: d in Next(p, n) <==> Follows(p, n.id, d))
            && |Next(p, n)| <= 1 && (!IsAction(n) ==> |Next(p, n)| == 1)
  {
    var n := Target(p, e);
    NextIsSingle(p, n);
    forall d | d in p.w.edges && d.from == n.id && n.kind == Condition
      ensures d.branch.Some?
    {
      PlanFanOut(p, n);
    }
    hide ValidPlan;
  }

  function NewVisits(l: Ledger, r: Ledger): seq<string>
    requires |l.visits| <= |r.visits|
  {
    r.visits[|l.visits|..]
  }

  // The k-th visit is led to by an edge of the queue, or by one followed from an earlier visit.
  ghost predicate LedTo(p: Plan, queue: seq<Edge>, v: seq<string>, k: nat)
    requires k < |v|
  {
    (exists e :: e in queue && e.to == v[k])
    || exists j, e :: 0 <= j < k && !HasKindAt(p, v[j], Delay) && Follows(p, v[j], e) && e.to == v[k]
  }

  // Nothing the queue or a visited node leads to is left out.
  ghost predicate Closed(p: Plan, queue: seq<Edge>, v: seq<string>) {
    && (forall e :: e in queue ==> e.to in v)
    && forall id, e :: id in v && Follows(p, id, e) ==> e.to in v
  }

  /** The nodes visited by one walk: only those its edges lead to, branch by branch; all of them when it
      completes; and it ends at the first delay or at the first action that fails, if it meets one. */
  ghost predicate Visited(p: Plan, queue: seq<Edge>, l: Ledger, o: Outcome, r: Ledger) {
    && l.visits <= r.visits
    && var v := NewVisits(l, r);
      && (forall k :: 0 <= k < |v| ==> LedTo(p, queue, v, k))
      && (o == Completed ==> Closed(p, queue, v))
      && (o != Completed ==> v != [])
      && (forall k :: 0 <= k < |v| && HasKindAt(p, v[k], Delay) ==> k == |v| - 1 && o == Suspended(v[k]))
      && (o.Suspended? ==> o.delay == v[|v| - 1] && HasKindAt(p, o.delay, Delay))
      && (o.Failed? ==> o.node == v[|v| - 1] && ActionAt(p, o.node) && !p.succeeds(Find(p.w.nodes, o.node).value))
  }

  // What a walk leaves of one node: completed if visited, unless it failed; its step untouched otherwise;
  // performed once if it is an action that was visited and had not been completed before.
  ghost predicate PerformsNode(p: Plan, l: Ledger, o: Outcome, r: Ledger, id: string)
    requires l.visits <= r.visits && l.performed <= r.performed
  {
    var v := NewVisits(l, r);
    && (id in v ==> id in r.steps && r.steps[id] == if o == Failed(id) then StepFailed else StepCompleted)
    && (id !in v ==> (id in r.steps <==> id in l.steps) && (id in l.steps ==> r.steps[id] == l.steps[id]))
    && multiset(r.performed[|l.performed|..])[id] == if id in v && ActionAt(p, id) && !Done(l, id) then 1 else 0
  }

  /** What it leaves: every visited node completed but the one that failed, no other step touched, and
      each visited action performed once unless it was completed before. */
  ghost predicate Performs(p: Plan, l: Ledger, o: Outcome, r: Ledger) {
    && l.visits <= r.visits && l.performed <= r.performed
    && (forall id :: PerformsNode(p, l, o, r, id))
    && (o.Failed? ==> !Done(l, o.node))
  }

  lemma {:induction false} WalkVisits(p: Plan, queue: seq<Edge>, l: Ledger)
    requires ValidPlan(p) && FromPlan(p, queue)
    ensures var r := WalkFrom(p, queue, l); Visited(p, queue, l, r.0, r.1)
    decreases Potential(p, queue)
  {
    hide ValidPlan, Height, Next, Target, Visited, Visit, Fails;
    if queue == [] {
      NothingVisited(p, l);
    } else {
      HeadStep(p, queue);
      var n := Target(p, queue[0]);
      NextIff(p, queue[0]);
      if n.kind == Delay || Fails(p, n, l) {
        EndsHere(p, queue, n, l);
      } else {
        WalkVisits(p, queue[1..] + Next(p, n), Visit(p, n, l));
        var r := WalkFrom(p, queue, l);
        VisitedNext(p, queue, n, l, r.0, r.1);
      }
    }
  }

  lemma NothingVisited(p: Plan, l: Ledger)
    ensures Visited(p, [], l, Completed, l)
  {
  }

  lemma EndsHere(p: Plan, queue: seq<Edge>, n: Node, l: Ledger)
    requires queue != [] && queue[0].to == n.id && Find(p.w.nodes, n.id) == Some(n)
    requires n.kind == Delay || Fails(p, n, l)
    ensures Visited(p, queue, l, if n.kind == Delay then Suspended(n.id) else Failed(n.id), Visit(p, n, l))
  {
    assert NewVisits(l, Visit(p, n, l)) == [n.id];
    assert queue[0] in queue;
    assert LedTo(p, queue, [n.id], 0);
  }

  // A first visit in front of the visits it leads to.
  lemma VisitedNext(p: Plan, queue: seq<Edge>, n: Node, l: Ledger, o: Outcome, r: Ledger)
    requires queue != [] && queue[0].to == n.id && n.kind != Delay && Find(p.w.nodes, n.id) == Some(n)
    requires forall d :: d in Next(p, n) <==> Follows(p, n.id, d)
    requires Visited(p, queue[1..] + Next(p, n), Visit(p, n, l), o, r)
    ensures Visited(p, queue, l, o, r)
  {
    hide Next, Follows, LedTo, Closed, ActionAt;
    var mid, next := Visit(p, n, l), queue[1..] + Next(p, n);
    assert mid.visits == l.visits + [n.id];
    var w, v := NewVisits(mid, r), NewVisits(l, r);
    assert v == [n.id] + w;
    forall k | 0 <= k < |v|
      ensures LedTo(p, queue, v, k)
    {
      LedToNext(p, queue, n, w, k);
    }
    if o == Completed {
      ClosedNext(p, queue, n, w);
    }
    assert !HasKindAt(p, n.id, Delay);
    hide HasKindAt;
    forall k | 0 <= k < |v| && HasKindAt(p, v[k], Delay)
      ensures k == |v| - 1 && o == Suspended(v[k])
    {
      assert v[k] == w[k - 1];
    }
  }

  lemma LedToNext(p: Plan, queue: seq<Edge>, n: Node, w: seq<string>, k: nat)
    requires queue != [] && queue[0].to == n.id && n.kind != Delay && Find(p.w.nodes, n.id) == Some(n)
    requires forall d :: d in Next(p, n) <==> Follows(p, n.id, d)
    requires k <= |w| && (k > 0 ==> LedTo(p, queue[1..] + Next(p, n), w, k - 1))
    ensures LedTo(p, queue, [n.id] + w, k)
  {
    var v, next := [n.id] + w, queue[1..] + Next(p, n);
    assert !HasKindAt(p, n.id, Delay) && v[0] == n.id;
    hide Next, Follows, HasKindAt;
    if k == 0 {
      assert queue[0] in queue;
    } else if e :| e in next && e.to == w[k - 1] {
      assert v[k] == w[k - 1];
      assert e in queue || Follows(p, v[0], e);
    } else {
      var j, e :| 0 <= j < k - 1 && !HasKindAt(p, w[j], Delay) && Follows(p, w[j], e) && e.to == w[k - 1];
      assert v[j + 1] == w[j] && v[k] == w[k - 1];
    }
  }

  lemma ClosedNext(p: Plan, queue: seq<Edge>, n: Node, w: seq<string>)
    requires queue != [] && queue[0].to == n.id
    requires forall d :: d in Next(p, n) <==> Follows(p, n.id, d)
    requires Closed(p, queue[1..] + Next(p, n), w)
    ensures Closed(p, queue, [n.id] + w)
  {
    hide Next, Follows;
    var v, next := [n.id] + w, queue[1..] + Next(p, n);
    assert queue == [queue[0]] + queue[1..];
    forall id, e | id in v && Follows(p, id, e)
      ensures e.to in v
    {
      if id == n.id {
        assert e in next;
      }
    }
    forall e | e in queue
      ensures e.to in v
    {
      if e != queue[0] {
        assert e in next;
      }
    }
  }

  lemma {:induction false} WalkPerforms(p: Plan, queue: seq<Edge>, l: Ledger)
    requires ValidPlan(p) && FromPlan(p, queue)
    ensures var r := WalkFrom(p, queue, l); Performs(p, l, r.0, r.1)
    decreases Potential(p, queue)
  {
    hide ValidPlan, Height, Next, Target, Performs, Visit, Fails;
    if queue == [] {
      NothingPerformed(p, l);
    } else {
      HeadStep(p, queue);
      var n := Target(p, queue[0]);
      NextIff(p, queue[0]);
      if n.kind == Delay || Fails(p, n, l) {
        PerformsOne(p, n, l);
      } else {
        WalkPerforms(p, queue[1..] + Next(p, n), Visit(p, n, l));
        var r := WalkFrom(p, queue, l);
        PerformsNext(p, n, l, r.0, r.1);
      }
    }
  }

  lemma NothingPerformed(p: Plan, l: Ledger)
    ensures Performs(p, l, Completed, l)
  {
  }

  lemma PerformsOne(p: Plan, n: Node, l: Ledger)
    requires Find(p.w.nodes, n.id) == Some(n) && n.kind != Trigger && (n.kind == Delay || Fails(p, n, l))
    ensures Performs(p, l, if n.kind == Delay then Suspended(n.id) else Failed(n.id), Visit(p, n, l))
  {
    var r := Visit(p, n, l);
    var made := if n.kind == Delay then [] else [n.id];
    assert NewVisits(l, r) == [n.id];
    assert r.performed == l.performed + made && r.performed[|l.performed|..] == made;
    assert ActionAt(p, n.id) <==> n.kind != Delay;
    hide ActionAt;
    var o := if n.kind == Delay then Suspended(n.id) else Failed(n.id);
    forall id
      ensures PerformsNode(p, l, o, r, id)
    {
    }
  }

  lemma PerformsNext(p: Plan, n: Node, l: Ledger, o: Outcome, r: Ledger)
    requires Find(p.w.nodes, n.id) == Some(n) && n.kind != Trigger && n.kind != Delay && !Fails(p, n, l)
    requires Performs(p, Visit(p, n, l), o, r)
    ensures Performs(p, l, o, r)
  {
    var mid := Visit(p, n, l);
    var made := if ActionAt(p, n.id) && !Done(l, n.id) then [n.id] else [];
    assert mid.visits == l.visits + [n.id] && mid.performed == l.performed + made;
    assert mid.steps == l.steps[n.id := StepCompleted] || (mid.steps == l.steps && Done(l, n.id));
    assert r.performed[|l.performed|..] == made + r.performed[|mid.performed|..];
    assert NewVisits(l, r) == [n.id] + NewVisits(mid, r);
    forall id
      ensures PerformsNode(p, l, o, r, id)
    {
      assert PerformsNode(p, mid, o, r, id);
      hide *;
      PerformsNodeNext(p, n.id, l, mid, o, r, made, id);
    }
  }

  lemma PerformsNodeNext(p: Plan, first: string, l: Ledger, mid: Ledger, o: Outcome, r: Ledger, made: seq<string>,
          id: string)
    requires l.visits <= mid.visits <= r.visits && l.performed <= mid.performed <= r.performed
    requires NewVisits(l, r) == [first] + NewVisits(mid, r)
    requires r.performed[|l.performed|..] == made + r.performed[|mid.performed|..]
    requires made == if ActionAt(p, first) && !Done(l, first) then [first] else []
    requires mid.steps == l.steps[first := StepCompleted] || (mid.steps == l.steps && Done(l, first))
    requires PerformsNode(p, mid, o, r, id) && (o == Failed(id) ==> !Done(mid, id))
    ensures PerformsNode(p, l, o, r, id)
  {
    hide ActionAt;
    assert id in NewVisits(l, r) <==> id == first || id in NewVisits(mid, r);
    CountConcat(made, r.performed[|mid.performed|..], id);
    hide NewVisits;
    if id == first {
      assert multiset(made)[id] == |made|;
      assert Done(mid, id);
    } else {
      assert multiset(made)[id] == 0;
      assert id in mid.steps <==> id in l.steps;
      assert id in l.steps ==> mid.steps[id] == l.steps[id];
    }
  }

  lemma CountConcat(a: seq<string>, b: seq<string>, id: string)
    ensures multiset(a + b)[id] == multiset(a)[id] + multiset(b)[id]
  {
  }

  // ---- a run along one edge, delays included ----

  ghost predicate GoesTo(p: Plan, from: string, to: string) {
    exists d :: Follows(p, from, d) && d.to == to
  }

  ghost predicate IsEnd(p: Plan, id: string) {
    forall d :: !Follows(p, id, d)
  }

  // Each visit is followed from the one before it, and the run ends where nothing is followed or an action fails.
  ghost predicate Chained(p: Plan, e: Edge, l: Ledger, o: Outcome, r: Ledger) {
    && l.visits <= r.visits
    && var v := NewVisits(l, r);
      && v != [] && v[0] == e.to
      && (forall k :: 0 < k < |v| ==> GoesTo(p, v[k - 1], v[k]))
      && (o == Completed ==> IsEnd(p, v[|v| - 1]))
      && (o.Failed? ==> o.node == v[|v| - 1] && ActionAt(p, o.node) && !p.succeeds(Find(p.w.nodes, o.node).value))
      && !o.Suspended?
  }

  lemma {:induction false} InterpretFollows(p: Plan, e: Edge, l: Ledger)
    requires ValidPlan(p) && e in p.w.edges
    ensures var r := Interpret(p, e, l); Chained(p, e, l, r.0, r.1)
    decreases Height(p, e)
  {
    hide ValidPlan, Height, Next, Target, Follows, Visit, Chained, Fails;
    var n := Target(p, e);
    NextIff(p, e);
    StepDown(p, e);
    var next := Next(p, n);
    if Fails(p, n, l) || next == [] {
      ChainEnds(p, e, n, l);
    } else {
      assert next[0] in next && next == [next[0]] && Potential(p, next[1..]) == 0;
      InterpretFollows(p, next[0], Visit(p, n, l));
      var r := Interpret(p, e, l);
      ChainNext(p, e, n, next[0], l, r.0, r.1);
    }
  }

  lemma ChainEnds(p: Plan, e: Edge, n: Node, l: Ledger)
    requires e.to == n.id && Find(p.w.nodes, n.id) == Some(n)
    requires Fails(p, n, l) || IsEnd(p, n.id)
    ensures Chained(p, e, l, if Fails(p, n, l) then Failed(n.id) else Completed, Visit(p, n, l))
  {
    hide Follows;
    assert NewVisits(l, Visit(p, n, l)) == [n.id];
  }

  lemma ChainNext(p: Plan, e: Edge, n: Node, d: Edge, l: Ledger, o: Outcome, r: Ledger)
    requires e.to == n.id && Follows(p, n.id, d) && Chained(p, d, Visit(p, n, l), o, r)
    ensures Chained(p, e, l, o, r)
  {
    var mid := Visit(p, n, l);
    assert mid.visits == l.visits + [n.id];
    hide Follows, ActionAt, Visit, IsEnd, Find;
    var w, v := NewVisits(mid, r), NewVisits(l, r);
    assert v == [n.id] + w;
    assert GoesTo(p, n.id, d.to);
    hide GoesTo;
    forall k | 0 < k < |v|
      ensures GoesTo(p, v[k - 1], v[k])
    {
      assert v[k] == w[k - 1] && v[k - 1] == if k == 1 then n.id else w[k - 2];
    }
  }

  /** A whole run that starts along one edge goes from node to node by the edges the definition and its
      conditions say, whatever delays cut it, and ends COMPLETED only where nothing is left to follow. */
  lemma RunFollows(p: Plan, e: Edge, l: Ledger)
    requires ValidPlan(p) && e in p.w.edges
    ensures FromPlan(p, [e])
    ensures var r := RunToEnd(p, [e], l); Chained(p, e, l, r.0, r.1)
  {
    DelaysAreTransparent(p, e, l);
    InterpretFollows(p, e, l);
    hide Chained, ValidPlan;
  }
}
