/** packages/automation/src/dag.ts: topologicalOrder and validateWorkflowDefinition. */
module Dag {
  import opened Wrappers
  import opened Ids
  import opened Topology
  import opened Definition

  // Arcs into v whose source is not yet placed.
  function Pending(arcs: seq<Arc>, v: string, placed: set<string>): nat {
    if arcs == [] then 0
    else
      var a := arcs[|arcs| - 1];
      Pending(arcs[..|arcs| - 1], v, placed) + if a.to == v && a.from !in placed then 1 else 0
  }

  lemma {:induction false} PendingZero(arcs: seq<Arc>, v: string, placed: set<string>)
    ensures Pending(arcs, v, placed) == 0 <==> forall a :: a in arcs && a.to == v ==> a.from in placed
  {
    if arcs != [] {
      var n := |arcs| - 1;
      assert arcs == arcs[..n] + [arcs[n]];
      PendingZero(arcs[..n], v, placed);
    }
  }

  lemma {:induction false} PendingSplit(arcs: seq<Arc>, j: nat, v: string, placed: set<string>)
    requires j <= |arcs|
    ensures Pending(arcs, v, placed) == Pending(arcs[..j], v, placed) + Pending(arcs[j..], v, placed)
    decreases |arcs|
  {
    var n := |arcs| - 1;
    if j == |arcs| {
      assert arcs[..j] == arcs;
    } else {
      PendingSplit(arcs[..n], j, v, placed);
      assert arcs[..n][..j] == arcs[..j] && arcs[..n][j..] == arcs[j..][..|arcs| - j - 1];
    }
  }

  lemma {:induction false} PendingFirst(arcs: seq<Arc>, v: string, placed: set<string>)
    requires arcs != []
    ensures Pending(arcs, v, placed)
            == Pending(arcs[1..], v, placed) + if arcs[0].to == v && arcs[0].from !in placed then 1 else 0
  {
    PendingSplit(arcs, 1, v, placed);
    assert arcs[..1][..0] == [];
  }

  // Arcs still counted for v after the first j arcs of the expansion of `id`.
  function Remaining(arcs: seq<Arc>, j: nat, v: string, placed: set<string>, id: string): nat
    requires j <= |arcs|
  {
    Pending(arcs[..j], v, placed + {id}) + Pending(arcs[j..], v, placed)
  }

  lemma RemainingStep(arcs: seq<Arc>, j: nat, v: string, placed: set<string>, id: string)
    requires j < |arcs| && id !in placed
    ensures Remaining(arcs, j, v, placed, id)
            == Remaining(arcs, j + 1, v, placed, id) + if arcs[j].from == id && arcs[j].to == v then 1 else 0
  {
    PendingFirst(arcs[j..], v, placed);
    assert arcs[j..][1..] == arcs[j + 1..];
    assert arcs[..j + 1][..j] == arcs[..j];
  }

  function Placed(order: seq<string>): set<string> {
    set v | v in order
  }

  function InitialIndegree(g: Graph): map<string, nat> {
    map v | v in g.ids :: Pending(g.arcs, v, {})
  }

  // The queue holds exactly the unplaced nodes without pending arcs, sorted, once each.
  ghost predicate QueueOf(g: Graph, queue: seq<string>, placed: set<string>, indegree: map<string, nat>) {
    && Distinct(queue) && IsSorted(queue)
    && forall v :: v in queue <==> v in g.ids && v !in placed && v in indegree && indegree[v] == 0
  }

  lemma HeadAvailable(g: Graph, order: seq<string>, queue: seq<string>, indegree: map<string, nat>)
    requires QueueOf(g, queue, Placed(order), indegree) && Greedy(g, order) && queue != []
    requires forall v :: v in g.ids ==> v in indegree && indegree[v] == Pending(g.arcs, v, Placed(order))
    ensures Greedy(g, order + [queue[0]])
  {
    var next := order + [queue[0]];
    assert forall v :: Available(g, order, v) <==> v in queue by {
      forall v
        ensures Available(g, order, v) <==> v in queue
      {
        PendingZero(g.arcs, v, Placed(order));
      }
    }
    assert queue[0] in queue;
    forall k | 0 <= k < |next|
      ensures Available(g, next[..k], next[k]) && forall v :: Available(g, next[..k], v) ==> Le(next[k], v)
    {
      if k < |order| {
        assert next[..k] == order[..k];
      } else {
        assert next[..k] == order;
        forall v | Available(g, order, v)
          ensures Le(queue[0], v)
        {
          var i :| 0 <= i < |queue| && queue[i] == v;
          LeTotal(v, v);
        }
      }
    }
  }

  /** Kahn's algorithm with a sorted queue: null exactly when the graph has a cycle, and
      otherwise the lexicographically least of all topological orders. */
  method TopologicalOrder(g: Graph) returns (r: Option<seq<string>>)
    requires Proper(g)
    ensures r.None? <==> HasCycle(g)
    ensures r.Some? ==> LeastOrder(g, r.value)
  {
    var indegree := InitialIndegree(g);
    var sources := Filter(g.ids, indegree);
    var queue := Sort(sources);
    SortKeeps(sources);
    var order: seq<string> := [];
    assert Placed(order) == {};
    while queue != []
      invariant Greedy(g, order) && |order| <= |g.ids|
      invariant forall v :: v in g.ids ==> v in indegree && indegree[v] == Pending(g.arcs, v, Placed(order))
      invariant QueueOf(g, queue, Placed(order), indegree)
      decreases |g.ids| - |order|
    {
      var id := queue[0];
      HeadAvailable(g, order, queue, indegree);
      GreedySize(g, order + [id]);
      PlacedClosed(g, order);
      indegree, queue := Expand(g, Placed(order), id, queue, indegree);
      assert Placed(order + [id]) == Placed(order) + {id};
      order := order + [id];
    }
    if |order| == |g.ids| {
      GreedyIsLeast(g, order);
      OrderExcludesCycle(g, order);
      return Some(order);
    }
    IncompleteMeansCycle(g, order, indegree);
    r := None;
  }

  lemma GreedySize(g: Graph, order: seq<string>)
    requires Proper(g) && Greedy(g, order)
    ensures |order| <= |g.ids|
  {
    GreedyDistinct(g, order);
    var all := set v | v in g.ids;
    SetOfDistinct(g.ids, all);
    forall v | v in order
      ensures v in all
    {
      var k :| 0 <= k < |order| && order[k] == v;
      assert Available(g, order[..k], order[k]);
    }
    DistinctSize(order, all);
  }

  lemma IncompleteMeansCycle(g: Graph, order: seq<string>, indegree: map<string, nat>)
    requires Proper(g) && Greedy(g, order) && |order| < |g.ids|
    requires forall v :: v in g.ids ==> v in indegree && indegree[v] == Pending(g.arcs, v, Placed(order))
    requires QueueOf(g, [], Placed(order), indegree)
    ensures HasCycle(g)
  {
    hide HasCycle, Pending, Greedy;
    var rest := set v | v in g.ids && v !in order;
    forall v | v in rest
      ensures exists u :: u in rest && Arc(u, v) in g.arcs
    {
      assert v !in [];
      var u := UnplacedPredecessor(g, order, v);
      assert u in rest;
    }
    RestNotEmpty(g.ids, order, rest);
    var v :| v in rest;
    NoSourceMeansCycle(g, rest, v);
  }

  lemma UnplacedPredecessor(g: Graph, order: seq<string>, v: string) returns (u: string)
    requires Proper(g) && Pending(g.arcs, v, Placed(order)) != 0
    ensures u in g.ids && u !in order && Arc(u, v) in g.arcs
  {
    PendingZero(g.arcs, v, Placed(order));
    var a :| a in g.arcs && a.to == v && a.from !in Placed(order);
    u := a.from;
  }

  lemma RestNotEmpty(ids: seq<string>, order: seq<string>, rest: set<string>)
    requires Distinct(ids) && |order| < |ids| && rest == set v | v in ids && v !in order
    ensures rest != {}
  {
    var all := set v | v in ids;
    SetOfDistinct(ids, all);
    SetBound(order);
    if rest == {} {
      forall v | v in all
        ensures v in Placed(order)
      {
        assert v !in rest;
      }
      SubsetSize(all, Placed(order));
    }
  }

  lemma {:induction false} SetBound(s: seq<string>)
    ensures |Placed(s)| <= |s|
  {
    if s != [] {
      var n := |s| - 1;
      SetBound(s[..n]);
      assert s == s[..n] + [s[n]];
      assert Placed(s) == Placed(s[..n]) + {s[n]};
    }
  }

  lemma SubsetSize(a: set<string>, b: set<string>)
    requires a <= b
    ensures |a| <= |b|
  {
    assert b == a + (b - a);
  }

  // The nodes of indegree 0, in definition order.
  method Filter(ids: seq<string>, indegree: map<string, nat>) returns (r: seq<string>)
    requires Distinct(ids)
    ensures Distinct(r)
    ensures forall v :: v in r <==> v in ids && v in indegree && indegree[v] == 0
  {
    r := [];
    for i := 0 to |ids|
      invariant Distinct(r)
      invariant forall v :: v in r <==> v in ids[..i] && v in indegree && indegree[v] == 0
    {
      if ids[i] in indegree && indegree[ids[i]] == 0 {
        assert ids[i] !in ids[..i];
        r := r + [ids[i]];
      }
      assert ids[..i + 1] == ids[..i] + [ids[i]];
    }
    assert ids[..|ids|] == ids;
  }

  ghost predicate ClosedUnderPredecessors(g: Graph, placed: set<string>) {
    forall a :: a in g.arcs && a.to in placed ==> a.from in placed
  }

  lemma PlacedClosed(g: Graph, order: seq<string>)
    requires Greedy(g, order)
    ensures ClosedUnderPredecessors(g, Placed(order))
  {
    forall a | a in g.arcs && a.to in Placed(order)
      ensures a.from in Placed(order)
    {
      GreedyForward(g, order, a);
    }
  }

  ghost predicate Counted(g: Graph, counts: map<string, nat>, j: nat, placed: set<string>, id: string)
    requires j <= |g.arcs|
  {
    forall v :: v in g.ids ==> v in counts && counts[v] == Remaining(g.arcs, j, v, placed, id)
  }

  // One arc of the loop: it lowers the count of its target when it leaves the placed node.
  lemma CountedStep(g: Graph, counts: map<string, nat>, j: nat, placed: set<string>, id: string)
    requires Proper(g) && j < |g.arcs| && id !in placed && Counted(g, counts, j, placed, id)
    ensures var a := g.arcs[j];
            if a.from == id then a.to in counts && counts[a.to] >= 1
                                 && Counted(g, counts[a.to := counts[a.to] - 1], j + 1, placed, id)
            else Counted(g, counts, j + 1, placed, id)
  {
    var a := g.arcs[j];
    forall v
      ensures Remaining(g.arcs, j, v, placed, id)
              == Remaining(g.arcs, j + 1, v, placed, id) + if a.from == id && a.to == v then 1 else 0
    {
      RemainingStep(g.arcs, j, v, placed, id);
    }
    assert a in g.arcs && a.to in g.ids;
  }

  lemma QueueStep(g: Graph, queue: seq<string>, placed: set<string>, counts: map<string, nat>, v: string)
    requires QueueOf(g, queue, placed, counts)
    requires v in g.ids && v !in placed && v in counts && counts[v] >= 1
    ensures QueueOf(g, if counts[v] == 1 then Sort(queue + [v]) else queue, placed, counts[v := counts[v] - 1])
  {
    hide Sort;
    assert v !in queue;
    if counts[v] == 1 {
      AppendOnce(queue, v);
      SortKeeps(queue + [v]);
    }
  }

  lemma AppendOnce(queue: seq<string>, v: string)
    requires Distinct(queue) && v !in queue
    ensures Distinct(queue + [v]) && forall x :: x in queue + [v] <==> x in queue || x == v
  {
  }

  /** The loop over the outgoing edges of `id`: counts drop, and a node whose count
      reaches zero joins the sorted queue. */
  method Expand(g: Graph, ghost placed: set<string>, id: string, queue: seq<string>, indegree: map<string, nat>)
      returns (counts: map<string, nat>, next: seq<string>)
    requires Proper(g) && QueueOf(g, queue, placed, indegree) && queue != [] && queue[0] == id
    requires ClosedUnderPredecessors(g, placed)
    requires forall v :: v in g.ids ==> v in indegree && indegree[v] == Pending(g.arcs, v, placed)
    ensures forall v :: v in g.ids ==> v in counts && counts[v] == Pending(g.arcs, v, placed + {id})
    ensures QueueOf(g, next, placed + {id}, counts)
  {
    hide QueueOf, Counted, Pending, Remaining, Sort, ClosedUnderPredecessors;
    counts, next := indegree, queue[1..];
    QueueTail(g, queue, placed, indegree);
    CountedStart(g, indegree, placed, id);
    for j := 0 to |g.arcs|
      invariant Counted(g, counts, j, placed, id)
      invariant QueueOf(g, next, placed + {id}, counts)
    {
      var a := g.arcs[j];
      CountedStep(g, counts, j, placed, id);
      if a.from == id {
        TargetUnplaced(g, placed, id, a);
        QueueStep(g, next, placed + {id}, counts, a.to);
        counts := counts[a.to := counts[a.to] - 1];
        if counts[a.to] == 0 {
          next := Sort(next + [a.to]);
        }
      }
    }
    CountedEnd(g, counts, placed, id);
  }

  // The head leaves the queue for the placed nodes.
  lemma QueueTail(g: Graph, queue: seq<string>, placed: set<string>, indegree: map<string, nat>)
    requires QueueOf(g, queue, placed, indegree) && queue != []
    requires forall v :: v in g.ids ==> v in indegree && indegree[v] == Pending(g.arcs, v, placed)
    ensures QueueOf(g, queue[1..], placed + {queue[0]}, indegree)
    ensures queue[0] !in placed && Pending(g.arcs, queue[0], placed) == 0
  {
    hide Pending, Le;
    assert queue[0] in queue;
    assert queue == [queue[0]] + queue[1..];
    forall v
      ensures v in queue[1..] <==> v in queue && v != queue[0]
    {
      if v in queue[1..] {
        var i :| 0 <= i < |queue| - 1 && queue[1..][i] == v;
        assert queue[i + 1] == v;
      }
    }
  }

  lemma TargetUnplaced(g: Graph, placed: set<string>, id: string, a: Arc)
    requires Proper(g) && ClosedUnderPredecessors(g, placed) && id !in placed && Pending(g.arcs, id, placed) == 0
    requires a in g.arcs && a.from == id
    ensures a.to in g.ids && a.to !in placed + {id}
  {
    PendingZero(g.arcs, id, placed);
  }

  lemma CountedStart(g: Graph, indegree: map<string, nat>, placed: set<string>, id: string)
    requires forall v :: v in g.ids ==> v in indegree && indegree[v] == Pending(g.arcs, v, placed)
    ensures Counted(g, indegree, 0, placed, id)
  {
    assert g.arcs[0..] == g.arcs && g.arcs[..0] == [];
  }

  lemma CountedEnd(g: Graph, counts: map<string, nat>, placed: set<string>, id: string)
    requires Counted(g, counts, |g.arcs|, placed, id)
    ensures forall v :: v in g.ids ==> v in counts && counts[v] == Pending(g.arcs, v, placed + {id})
  {
    assert g.arcs[..|g.arcs|] == g.arcs && g.arcs[|g.arcs|..] == [];
  }
}
