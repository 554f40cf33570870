/** The send chain while its executions do not overlap: retries, crashes and duplicate links, one execution
    at a time. CampaignRefinement shows these to be runs of CampaignProcesses, and CampaignOverlap and
    CampaignProgress say what is left of these results when executions run side by side. */
module CampaignChain {
  import opened Campaign

  function Occurs(events: seq<Event>, e: Event): nat {
    if events == [] then 0 else Occurs(events[..|events| - 1], e) + if events[|events| - 1] == e then 1 else 0
  }

  /** The message events are exactly the outcomes of the rows, each once. */
  ghost predicate Truthful(l: Ledger) {
    forall i :: 0 <= i < |l.rows| ==>
      && Occurs(l.events, SentEvent(i)) == (if l.rows[i] == SENT then 1 else 0)
      && Occurs(l.events, FailedEvent(i)) == (if l.rows[i] == FAILED then 1 else 0)
  }

  ghost predicate Settled(rows: seq<Status>, from: nat) {
    from <= |rows| && forall i :: 0 <= i < from ==> rows[i] != PENDING
  }

  /** Everything at or below an outstanding cursor is settled; a completed campaign has no pending
      recipient; the ledger is truthful; and each message handed to the provider is accounted for by
      a settled recipient or by a crash. */
  ghost predicate Inv(s: State, n: nat) {
    && |s.ledger.rows| == n
    && (forall from :: from in s.links ==> Settled(s.ledger.rows, from))
    && (s.campaign == CAMPAIGN_SENT ==> Settled(s.ledger.rows, n))
    && Truthful(s.ledger)
    && |s.ledger.calls| + Count(s.ledger.rows, PENDING) <= n + s.crashes
  }

  lemma {:induction false} CountUpdate(rows: seq<Status>, i: nat, v: Status, s: Status)
    requires i < |rows|
    ensures Count(rows[i := v], s) == Count(rows, s) - (if rows[i] == s then 1 else 0) + if v == s then 1 else 0
    decreases |rows|
  {
    var n := |rows| - 1;
    if i == n {
      assert rows[i := v][..n] == rows[..n];
    } else {
      assert rows[i := v][..n] == rows[..n][i := v];
      CountUpdate(rows[..n], i, v, s);
    }
  }

  lemma {:induction false} CountZero(rows: seq<Status>, s: Status)
    ensures Count(rows, s) == 0 <==> s !in rows
  {
    if rows != [] {
      var n := |rows| - 1;
      assert rows == rows[..n] + [rows[n]];
      CountZero(rows[..n], s);
    }
  }

  lemma OccursNext(events: seq<Event>, e: Event, x: Event)
    ensures Occurs(events + [e], x) == Occurs(events, x) + if e == x then 1 else 0
  {
    assert (events + [e])[..|events|] == events;
  }

  lemma NoteKeeps(l: Ledger, id: nat, outcome: Status)
    requires id < |l.rows| && l.rows[id] == PENDING && outcome != PENDING && Truthful(l)
    ensures Truthful(Note(l, id, outcome))
    ensures Count(Note(l, id, outcome).rows, PENDING) == Count(l.rows, PENDING) - 1
  {
    CountUpdate(l.rows, id, outcome, PENDING);
    var r := Note(l, id, outcome);
    hide Occurs, Count;
    forall i | 0 <= i < |r.rows|
      ensures Occurs(r.events, SentEvent(i)) == (if r.rows[i] == SENT then 1 else 0)
      ensures Occurs(r.events, FailedEvent(i)) == (if r.rows[i] == FAILED then 1 else 0)
    {
      NoteOccurs(l, id, outcome, SentEvent(i));
      NoteOccurs(l, id, outcome, FailedEvent(i));
    }
  }

  lemma NoteOccurs(l: Ledger, id: nat, outcome: Status, x: Event)
    requires id < |l.rows|
    ensures Occurs(Note(l, id, outcome).events, x) == Occurs(l.events, x)
              + if (outcome == SENT && x == SentEvent(id)) || (outcome == FAILED && x == FailedEvent(id)) then 1 else 0
  {
    OccursNext(l.events, SentEvent(id), x);
    OccursNext(l.events, FailedEvent(id), x);
  }

  lemma HandKeeps(l: Ledger, id: nat, s: Situation)
    ensures Truthful(Hand(l, id, s)) <==> Truthful(l)
    ensures Hand(l, id, s).rows == l.rows
  {
  }

  ghost predicate AllPending(rows: seq<Status>, ids: seq<nat>) {
    Increasing(ids) && Within(ids, |rows|) && forall i :: 0 <= i < |ids| ==> rows[ids[i]] == PENDING
  }

  // The provider is handed at most one message per recipient, in order, and only when the checks pass.
  lemma {:induction false} DeliverAllCalls(l: Ledger, ids: seq<nat>, world: nat -> Situation)
    requires Within(ids, |l.rows|)
    ensures var r := DeliverAll(l, ids, world);
            && |r.calls| <= |l.calls| + |ids| && l.calls <= r.calls
            && forall k :: |l.calls| <= k < |r.calls| ==> ReachesProvider(world(r.calls[k])) && r.calls[k] in ids
  {
    if ids != [] {
      hide ReachesProvider;
      var n := |ids| - 1;
      assert ids == ids[..n] + [ids[n]];
      DeliverAllCalls(l, ids[..n], world);
    }
  }

  lemma {:induction false} DeliverAllRows(l: Ledger, ids: seq<nat>, world: nat -> Situation)
    requires AllPending(l.rows, ids) && Truthful(l)
    ensures var r := DeliverAll(l, ids, world);
            && Truthful(r) && Count(r.rows, PENDING) == Count(l.rows, PENDING) - |ids|
            && forall i :: 0 <= i < |r.rows| ==> r.rows[i] == if i in ids then Fate(world(i)) else l.rows[i]
  {
    if ids != [] {
      hide Truthful, Count, DeliverOne, Fate;
      var n := |ids| - 1;
      assert ids == ids[..n] + [ids[n]];
      assert AllPending(l.rows, ids[..n]);
      DeliverAllRows(l, ids[..n], world);
      assert ids[n] !in ids[..n];
      DeliverOneKeeps(DeliverAll(l, ids[..n], world), ids[n], world(ids[n]));
    }
  }

  /** Delivering distinct pending recipients settles exactly those, keeps the ledger truthful and
      hands at most one message each to the provider, none of them to a suppressed destination. */
  lemma DeliverAllKeeps(l: Ledger, ids: seq<nat>, world: nat -> Situation)
    requires AllPending(l.rows, ids) && Truthful(l)
    ensures var r := DeliverAll(l, ids, world);
            && Truthful(r) && Count(r.rows, PENDING) == Count(l.rows, PENDING) - |ids|
            && (forall i :: 0 <= i < |r.rows| ==> r.rows[i] == if i in ids then Fate(world(i)) else l.rows[i])
            && |r.calls| <= |l.calls| + |ids| && l.calls <= r.calls
            && forall k :: |l.calls| <= k < |r.calls| ==> ReachesProvider(world(r.calls[k])) && r.calls[k] in ids
  {
    hide DeliverAll, Truthful, Count, Fate, ReachesProvider;
    DeliverAllRows(l, ids, world);
    DeliverAllCalls(l, ids, world);
  }

  lemma DeliverOneKeeps(l: Ledger, id: nat, s: Situation)
    requires id < |l.rows| && l.rows[id] == PENDING && Truthful(l)
    ensures var r := DeliverOne(l, id, s);
            && Truthful(r) && Count(r.rows, PENDING) == Count(l.rows, PENDING) - 1
            && r.rows == l.rows[id := Fate(s)]
            && r.calls == if ReachesProvider(s) then l.calls + [id] else l.calls
  {
    hide Truthful, Count;
    HandKeeps(l, id, s);
    NoteKeeps(Hand(l, id, s), id, Fate(s));
  }

  // A batch takes every pending recipient between the cursor and its own last one.
  lemma BatchCovers(rows: seq<Status>, from: nat, size: nat, i: nat)
    requires from <= i < |rows| && rows[i] == PENDING
    ensures size >= 1 ==> Batch(rows, from, size) != []
    ensures var b := Batch(rows, from, size); b != [] && i <= b[|b| - 1] ==> i in b
  {
    var p, b := PendingFrom(rows, from), Batch(rows, from, size);
    assert i in p;
    var k :| 0 <= k < |p| && p[k] == i;
    if b != [] && i <= b[|b| - 1] {
      assert k < |b| && b[k] == i;
    }
  }

  lemma PrefixPending(rows: seq<Status>, ids: seq<nat>, k: nat)
    requires AllPending(rows, ids) && k <= |ids|
    ensures AllPending(rows, ids[..k])
  {
  }

  lemma SettledAfter(rows: seq<Status>, from: nat, size: nat, r: seq<Status>)
    requires Settled(rows, from) && Batch(rows, from, size) != [] && |r| == |rows|
    requires forall i :: 0 <= i < |r| && rows[i] != PENDING ==> r[i] != PENDING
    requires forall i :: 0 <= i < |r| && i in Batch(rows, from, size) ==> r[i] != PENDING
    ensures var b := Batch(rows, from, size); Settled(r, b[|b| - 1] + 1)
  {
    var b := Batch(rows, from, size);
    forall i | 0 <= i <= b[|b| - 1]
      ensures r[i] != PENDING
    {
      if rows[i] == PENDING {
        BatchCovers(rows, from, size, i);
      }
    }
  }

  // The ledger after some of the batch, and what it lets the rest of the invariant conclude.
  ghost predicate Delivered(s: State, l: Ledger, n: nat, crashes: nat) {
    && |l.rows| == n == |s.ledger.rows| && Truthful(l)
    && (forall i :: 0 <= i < n && s.ledger.rows[i] != PENDING ==> l.rows[i] == s.ledger.rows[i])
    && |l.calls| + Count(l.rows, PENDING) <= n + crashes
  }

  lemma DeliveredBatch(s: State, n: nat, ids: seq<nat>, world: nat -> Situation)
    requires Inv(s, n) && AllPending(s.ledger.rows, ids)
    ensures Delivered(s, DeliverAll(s.ledger, ids, world), n, s.crashes)
    ensures forall i :: 0 <= i < n && i in ids ==> DeliverAll(s.ledger, ids, world).rows[i] != PENDING
  {
    DeliverAllKeeps(s.ledger, ids, world);
  }

  lemma WorkKeeps(s: State, n: nat, from: nat, world: nat -> Situation, denied: bool, size: nat)
    requires Inv(s, n) && from in s.links && size >= 1
    ensures Inv(Work(s, from, world, denied, size), n)
    ensures forall i :: 0 <= i < n && s.ledger.rows[i] != PENDING ==>
        Work(s, from, world, denied, size).ledger.rows[i] == s.ledger.rows[i]
  {
    var rows, batch := s.ledger.rows, Batch(s.ledger.rows, from, size);
    assert Settled(rows, from);
    if s.campaign == SENDING && !denied {
      if batch == [] {
        forall i | 0 <= i < n
          ensures rows[i] != PENDING
        {
          if i >= from && rows[i] == PENDING {
            BatchCovers(rows, from, size, i);
            assert false;
          }
        }
      } else {
        DeliveredBatch(s, n, batch, world);
        var l := DeliverAll(s.ledger, batch, world);
        hide DeliverAll, Batch, Truthful, Count;
        SettledAfter(rows, from, size, l.rows);
      }
    }
  }

  lemma ExecuteKeeps(s: State, n: nat, from: nat, world: nat -> Situation, denied: bool, size: nat, cut: Cut)
    requires Inv(s, n) && from in s.links && size >= 1
    ensures Inv(Execute(s, from, world, denied, size, cut), n)
    ensures forall i :: 0 <= i < n && s.ledger.rows[i] != PENDING ==>
              Execute(s, from, world, denied, size, cut).ledger.rows[i] == s.ledger.rows[i]
  {
    match cut
    case Whole => WorkKeeps(s, n, from, world, denied, size); hide Work, Truthful, Count;
    case BeforeAck => WorkKeeps(s, n, from, world, denied, size); hide Work, Truthful, Count;
    case AfterRecount =>
      DeliveredBatch(s, n, Batch(s.ledger.rows, from, size), world);
      hide DeliverAll, Batch, Truthful, Count;
    case InDeliveries(recorded, handed) =>
      CutKeeps(s, n, Batch(s.ledger.rows, from, size), world, recorded, handed);
      hide CutInDeliveries, Batch, Truthful, Count;
  }

  lemma CutKeeps(s: State, n: nat, batch: seq<nat>, world: nat -> Situation, recorded: nat, handed: bool)
    requires Inv(s, n) && AllPending(s.ledger.rows, batch)
    ensures var t := CutInDeliveries(s, batch, world, recorded, handed);
            Inv(t, n) && forall i :: 0 <= i < n && s.ledger.rows[i] != PENDING ==> t.ledger.rows[i] == s.ledger.rows[i]
  {
    var k := if recorded <= |batch| then recorded else |batch|;
    PrefixPending(s.ledger.rows, batch, k);
    DeliveredBatch(s, n, batch[..k], world);
    hide DeliverAll, Count, Occurs;
  }

  lemma {:induction false} ReachableInv(n: nat, steps: seq<Step>, size: nat)
    requires size >= 1
    ensures Inv(RunAll(n, steps, size), n)
  {
    if steps == [] {
      StartPending(n);
    } else {
      var m := |steps| - 1;
      ReachableInv(n, steps[..m], size);
      var s := RunAll(n, steps[..m], size);
      if steps[m].Run? && steps[m].from in s.links {
        ExecuteKeeps(s, n, steps[m].from, steps[m].world, steps[m].denied, size, steps[m].cut);
      }
    }
  }

  lemma {:induction false} StartPending(n: nat)
    ensures Count(Start(n).ledger.rows, PENDING) == n
  {
    if n > 0 {
      assert Start(n).ledger.rows[..n - 1] == Start(n - 1).ledger.rows;
      StartPending(n - 1);
    }
  }

  /** However often executions that do not overlap are retried, cut or duplicated: nobody is recorded as
      sent twice, and the provider is handed at most one message per recipient plus one per crash. */
  lemma SendsAreBounded(n: nat, steps: seq<Step>, size: nat, id: nat)
    requires size >= 1
    ensures var s := RunAll(n, steps, size);
            |s.ledger.calls| <= n + s.crashes && (id < n ==> Occurs(s.ledger.events, SentEvent(id)) <= 1)
  {
    ReachableInv(n, steps, size);
  }

  ghost predicate Healthy(steps: seq<Step>) {
    forall i :: 0 <= i < |steps| ==> steps[i].Run? && !steps[i].denied
  }

  /** Without overlap, a chain that is never denied nor dead-lettered ends only by completing the campaign,
      and then every recipient is settled and has exactly the event its row claims. */
  lemma {:induction false} UndeniedChainCompletes(n: nat, steps: seq<Step>, size: nat)
    requires size >= 1 && Healthy(steps)
    ensures var s := RunAll(n, steps, size);
            && s.campaign != CAMPAIGN_FAILED && (s.campaign == SENDING ==> s.links != {})
            && (s.links == {} ==> s.campaign == CAMPAIGN_SENT && PENDING !in s.ledger.rows && Truthful(s.ledger))
  {
    ReachableInv(n, steps, size);
    if steps != [] {
      var m := |steps| - 1;
      UndeniedChainCompletes(n, steps[..m], size);
      ReachableInv(n, steps[..m], size);
      assert steps[m].Run? && !steps[m].denied;
      var s := RunAll(n, steps[..m], size);
      if steps[m].from in s.links {
        StaysAlive(s, n, steps[m], size);
      }
    }
  }

  lemma StaysAlive(s: State, n: nat, step: Step, size: nat)
    requires Inv(s, n) && size >= 1 && step.Run? && !step.denied && step.from in s.links
        && s.campaign != CAMPAIGN_FAILED
    ensures var t := Apply(s, step, size); t.campaign != CAMPAIGN_FAILED && (t.campaign == SENDING ==> t.links != {})
  {
    var batch, w := Batch(s.ledger.rows, step.from, size), Work(s, step.from, step.world, false, size);
    if w.campaign == SENDING {
      assert batch != [] && batch[0] >= step.from;
      assert batch[|batch| - 1] + 1 in w.links - {step.from} by {
        assert batch[0] <= batch[|batch| - 1];
      }
    }
    hide Batch, Work, DeliverAll;
  }

  /** The chain cannot run for ever: every execution that is not cut uses up one of at most 2n + 1. */
  function Fuel(s: State): nat {
    2 * Count(s.ledger.rows, PENDING) + |s.links|
  }

  lemma ExecutionUsesFuel(s: State, n: nat, from: nat, world: nat -> Situation, denied: bool, size: nat, cut: Cut)
    requires Inv(s, n) && from in s.links && size >= 1
    ensures Fuel(Execute(s, from, world, denied, size, cut)) <= Fuel(s) - if cut == Whole then 1 else 0
  {
    var batch := Batch(s.ledger.rows, from, size);
    match cut
    case InDeliveries(recorded, handed) =>
      CutFuel(s, batch, world, recorded, handed);
      hide CutInDeliveries, Batch, Truthful, Count;
    case AfterRecount =>
      DeliveryFuel(s.ledger, batch, world);
      hide DeliverAll, Batch, Truthful, Count;
    case Whole =>
      WorkFuel(s, n, from, world, denied, size);
      hide Work, Truthful, Count;
    case BeforeAck =>
      WorkFuel(s, n, from, world, denied, size);
      hide Work, Truthful, Count;
  }

  lemma DeliveryFuel(l: Ledger, ids: seq<nat>, world: nat -> Situation)
    requires AllPending(l.rows, ids) && Truthful(l)
    ensures Count(DeliverAll(l, ids, world).rows, PENDING) <= Count(l.rows, PENDING)
  {
    DeliverAllKeeps(l, ids, world);
  }

  lemma CutFuel(s: State, batch: seq<nat>, world: nat -> Situation, recorded: nat, handed: bool)
    requires AllPending(s.ledger.rows, batch) && Truthful(s.ledger)
    ensures var t := CutInDeliveries(s, batch, world, recorded, handed);
            t.links == s.links && Count(t.ledger.rows, PENDING) <= Count(s.ledger.rows, PENDING)
  {
    var k := if recorded <= |batch| then recorded else |batch|;
    PrefixPending(s.ledger.rows, batch, k);
    DeliveryFuel(s.ledger, batch[..k], world);
  }

  lemma WorkFuel(s: State, n: nat, from: nat, world: nat -> Situation, denied: bool, size: nat)
    requires Inv(s, n) && from in s.links
    ensures var w := Work(s, from, world, denied, size); from in w.links && Fuel(w) <= Fuel(s)
  {
    DeliverAllKeeps(s.ledger, Batch(s.ledger.rows, from, size), world);
    hide DeliverAll, Batch, Truthful, Count;
  }

  function WholeExecutions(n: nat, steps: seq<Step>, size: nat): nat {
    if steps == [] then 0
    else
      var m := |steps| - 1;
      WholeExecutions(n, steps[..m], size)
      + if steps[m].Run? && steps[m].cut == Whole && steps[m].from in RunAll(n, steps[..m], size).links then 1 else 0
  }

  lemma {:induction false} ChainTerminates(n: nat, steps: seq<Step>, size: nat)
    requires size >= 1
    ensures WholeExecutions(n, steps, size) + Fuel(RunAll(n, steps, size)) <= 2 * n + 1
  {
    if steps == [] {
      StartPending(n);
    } else {
      var m := |steps| - 1;
      ChainTerminates(n, steps[..m], size);
      ReachableInv(n, steps[..m], size);
      var s := RunAll(n, steps[..m], size);
      if steps[m].from in s.links {
        if steps[m].Run? {
          ExecutionUsesFuel(s, n, steps[m].from, steps[m].world, steps[m].denied, size, steps[m].cut);
        } else {
          assert |s.links - {steps[m].from}| == |s.links| - 1;
        }
      }
    }
  }
}
