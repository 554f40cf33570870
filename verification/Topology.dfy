/** Directed graphs over node ids: cycles, topological orders, and the greedy argument
    that taking the least available node gives the least order. */
module Topology {
  import opened Ids

  datatype Arc = Arc(from: string, to: string)

  datatype Graph = Graph(ids: seq<string>, arcs: seq<Arc>)

  /** Distinct ids, and arcs only between them. */
  predicate Proper(g: Graph) {
    && Distinct(g.ids)
    && forall a :: a in g.arcs ==> a.from in g.ids && a.to in g.ids
  }

  ghost predicate IsPath(g: Graph, p: seq<string>) {
    |p| >= 1 && forall i :: 0 <= i < |p| - 1 ==> Arc(p[i], p[i + 1]) in g.arcs
  }

  ghost predicate HasCycle(g: Graph) {
    exists p :: |p| >= 2 && IsPath(g, p) && p[0] == p[|p| - 1]
  }

  ghost predicate Before(order: seq<string>, u: string, v: string) {
    exists i, j :: 0 <= i < j < |order| && order[i] == u && order[j] == v
  }

  /** A permutation of the nodes in which every arc points forward. */
  ghost predicate IsTopological(g: Graph, order: seq<string>) {
    && Distinct(order) && |order| == |g.ids|
    && (forall v :: v in order ==> v in g.ids)
    && forall a :: a in g.arcs ==> Before(order, a.from, a.to)
  }

  /** a comes no later than b when sequences of ids are compared element by element. */
  ghost predicate SeqLe(a: seq<string>, b: seq<string>) {
    a == b
    || exists k :: 0 <= k < |a| && k < |b| && a[..k] == b[..k] && a[k] != b[k] && Le(a[k], b[k])
  }

  ghost predicate LeastOrder(g: Graph, order: seq<string>) {
    IsTopological(g, order) && forall other :: IsTopological(g, other) ==> SeqLe(order, other)
  }

  // v may come next after the prefix: it is not in it and all its predecessors are.
  ghost predicate Available(g: Graph, prefix: seq<string>, v: string) {
    && v in g.ids && v !in prefix
    && forall a :: a in g.arcs && a.to == v ==> a.from in prefix
  }

  ghost predicate Greedy(g: Graph, order: seq<string>) {
    forall k :: 0 <= k < |order| ==>
      Available(g, order[..k], order[k])
      && forall v :: Available(g, order[..k], v) ==> Le(order[k], v)
  }

  lemma GreedyDistinct(g: Graph, order: seq<string>)
    requires Greedy(g, order)
    ensures Distinct(order)
  {
    forall i, j | 0 <= i < j < |order|
      ensures order[i] != order[j]
    {
      assert order[i] in order[..j];
      assert Available(g, order[..j], order[j]);
    }
  }

  lemma GreedyForward(g: Graph, order: seq<string>, a: Arc)
    requires Greedy(g, order) && a in g.arcs && a.to in order
    ensures Before(order, a.from, a.to)
  {
    var j :| 0 <= j < |order| && order[j] == a.to;
    assert Available(g, order[..j], order[j]);
    var i :| 0 <= i < j && order[..j][i] == a.from;
    assert order[i] == a.from;
  }

  lemma TopologicalAvailable(g: Graph, order: seq<string>, k: nat)
    requires IsTopological(g, order) && k < |order|
    ensures Available(g, order[..k], order[k])
  {
    assert order[k] in order;
    forall a | a in g.arcs && a.to == order[k]
      ensures a.from in order[..k]
    {
      var i, j :| 0 <= i < j < |order| && order[i] == a.from && order[j] == a.to;
      assert j == k;
      assert order[..k][i] == a.from;
    }
  }

  lemma {:induction false} FirstDifference(a: seq<string>, b: seq<string>) returns (k: nat)
    requires |a| == |b| && a != b
    ensures k < |a| && a[..k] == b[..k] && a[k] != b[k]
  {
    if a[0] != b[0] {
      k := 0;
    } else {
      assert a == [a[0]] + a[1..] && b == [b[0]] + b[1..];
      var m := FirstDifference(a[1..], b[1..]);
      k := m + 1;
      assert a[..k] == [a[0]] + a[1..][..m] && b[..k] == [b[0]] + b[1..][..m];
    }
  }

  /** A greedy order of all nodes is the least topological order. */
  lemma GreedyIsLeast(g: Graph, order: seq<string>)
    requires Proper(g) && Greedy(g, order) && |order| == |g.ids|
    ensures LeastOrder(g, order)
  {
    GreedyDistinct(g, order);
    forall k | 0 <= k < |order|
      ensures order[k] in g.ids
    {
      assert Available(g, order[..k], order[k]);
    }
    FullOrder(g, order);
    forall a | a in g.arcs
      ensures Before(order, a.from, a.to)
    {
      GreedyForward(g, order, a);
    }
    forall other | IsTopological(g, other)
      ensures SeqLe(order, other)
    {
      if order != other {
        var k := FirstDifference(order, other);
        TopologicalAvailable(g, other, k);
        assert Available(g, order[..k], other[k]);
      }
    }
  }

  lemma FullOrder(g: Graph, order: seq<string>)
    requires Proper(g) && Distinct(order) && |order| == |g.ids| && forall v :: v in order ==> v in g.ids
    ensures forall v :: v in g.ids ==> v in order
  {
    var all := set v | v in g.ids;
    DistinctSize(order, all);
    SetOfDistinct(g.ids, all);
  }

  lemma {:induction false} SetOfDistinct(s: seq<string>, all: set<string>)
    requires Distinct(s) && all == set v | v in s
    ensures |all| == |s|
  {
    if s != [] {
      var n := |s| - 1;
      assert s == s[..n] + [s[n]];
      var rest := set v | v in s[..n];
      SetOfDistinct(s[..n], rest);
      assert all == rest + {s[n]};
      assert s[n] !in s[..n];
    }
  }

  lemma {:induction false} PathRises(g: Graph, order: seq<string>, p: seq<string>)
    requires IsTopological(g, order) && IsPath(g, p) && |p| >= 2
    ensures Before(order, p[0], p[|p| - 1])
  {
    var n := |p| - 1;
    assert Arc(p[n - 1], p[n - 1 + 1]) in g.arcs;
    var last := Arc(p[n - 1], p[n]);
    assert Before(order, last.from, last.to);
    if n > 1 {
      PathPrefix(g, p, n);
      PathRises(g, order, p[..n]);
      var i, j :| 0 <= i < j < |order| && order[i] == p[0] && order[j] == p[n - 1];
      var k, l :| 0 <= k < l < |order| && order[k] == last.from && order[l] == last.to;
      assert j == k;
    }
  }

  /** A graph with a topological order has no cycle. */
  lemma OrderExcludesCycle(g: Graph, order: seq<string>)
    requires IsTopological(g, order)
    ensures !HasCycle(g)
  {
    forall p | |p| >= 2 && IsPath(g, p)
      ensures p[0] != p[|p| - 1]
    {
      PathRises(g, order, p);
    }
  }

  lemma PathPrepend(g: Graph, u: string, p: seq<string>)
    requires IsPath(g, p) && Arc(u, p[0]) in g.arcs
    ensures IsPath(g, [u] + p)
  {
    var q := [u] + p;
    forall i | 0 <= i < |q| - 1
      ensures Arc(q[i], q[i + 1]) in g.arcs
    {
      if i > 0 {
        assert Arc(p[i - 1], p[i - 1 + 1]) in g.arcs;
      }
    }
  }

  lemma PathPrefix(g: Graph, p: seq<string>, n: nat)
    requires IsPath(g, p) && 1 <= n <= |p|
    ensures IsPath(g, p[..n])
  {
    forall i | 0 <= i < n - 1
      ensures Arc(p[..n][i], p[..n][i + 1]) in g.arcs
    {
      assert Arc(p[i], p[i + 1]) in g.arcs;
    }
  }

  // Walking backward from p[0] inside `rest` must meet the path again.
  lemma WalkBack(g: Graph, rest: set<string>, p: seq<string>)
    requires IsPath(g, p) && Distinct(p) && forall v :: v in p ==> v in rest
    requires forall v :: v in rest ==> exists u :: u in rest && Arc(u, v) in g.arcs
    ensures HasCycle(g)
    decreases |rest| - |p|
  {
    hide HasCycle;
    assert p[0] in p;
    var u :| u in rest && Arc(u, p[0]) in g.arcs;
    if u in p {
      ClosesCycle(g, p, u);
    } else {
      PathPrepend(g, u, p);
      PrependDistinct(u, p);
      DistinctSize([u] + p, rest);
      WalkBack(g, rest, [u] + p);
    }
  }

  lemma ClosesCycle(g: Graph, p: seq<string>, u: string)
    requires IsPath(g, p) && u in p && Arc(u, p[0]) in g.arcs
    ensures HasCycle(g)
  {
    hide IsPath;
    var q := [u] + p;
    PathPrepend(g, u, p);
    var k :| 0 <= k < |p| && p[k] == u;
    PathPrefix(g, q, k + 2);
    assert q[..k + 2][0] == q[..k + 2][k + 1];
  }

  lemma PrependDistinct(u: string, p: seq<string>)
    requires Distinct(p) && u !in p
    ensures Distinct([u] + p)
  {
  }

  /** Nodes that each have a predecessor among themselves lie on a cycle. */
  lemma NoSourceMeansCycle(g: Graph, rest: set<string>, v: string)
    requires v in rest
    requires forall v :: v in rest ==> exists u :: u in rest && Arc(u, v) in g.arcs
    ensures HasCycle(g)
  {
    WalkBack(g, rest, [v]);
  }

  // ---- reachability ----

  ghost predicate Reachable(g: Graph, root: string, v: string) {
    exists p :: IsPath(g, p) && p[0] == root && p[|p| - 1] == v
  }

  lemma ReachableStep(g: Graph, root: string, u: string, v: string)
    requires Reachable(g, root, u) && Arc(u, v) in g.arcs
    ensures Reachable(g, root, v)
  {
    var p :| IsPath(g, p) && p[0] == root && p[|p| - 1] == u;
    var q := p + [v];
    assert IsPath(g, q) by {
      forall i | 0 <= i < |q| - 1
        ensures Arc(q[i], q[i + 1]) in g.arcs
      {
        if i < |p| - 1 {
          assert Arc(p[i], p[i + 1]) in g.arcs;
        }
      }
    }
    assert q[|q| - 1] == v;
  }

  lemma {:induction false} ClosedContainsPath(g: Graph, closed: set<string>, p: seq<string>)
    requires IsPath(g, p) && p[0] in closed
    requires forall a :: a in g.arcs && a.from in closed ==> a.to in closed
    ensures p[|p| - 1] in closed
    decreases |p|
  {
    if |p| > 1 {
      assert Arc(p[0], p[0 + 1]) in g.arcs;
      assert IsPath(g, p[1..]) by {
        forall i | 0 <= i < |p| - 2
          ensures Arc(p[1..][i], p[1..][i + 1]) in g.arcs
        {
          assert Arc(p[i + 1], p[i + 1 + 1]) in g.arcs;
        }
      }
      ClosedContainsPath(g, closed, p[1..]);
    }
  }
}
