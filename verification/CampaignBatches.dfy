/** How many batches a chain takes, what one batch may send, and when the campaign's counters agree
    with its ledger. */
module CampaignBatches {
  import opened Campaign
  import opened CampaignChain

  // The first m recipients are settled and the rest are not.
  ghost predicate SettledUpTo(rows: seq<Status>, m: nat) {
    forall i :: 0 <= i < |rows| ==> (rows[i] != PENDING <==> i < m)
  }

  // With everything from `from` on pending, the scan lists it in order.
  lemma {:induction false} PendingSuffix(rows: seq<Status>, from: nat)
    requires from <= |rows| && SettledUpTo(rows, from)
    ensures |PendingFrom(rows, from)| == |rows| - from
    ensures forall j :: 0 <= j < |rows| - from ==> PendingFrom(rows, from)[j] == from + j
  {
    SuffixFrom(rows, from, from);
  }

  lemma {:induction false} SuffixFrom(rows: seq<Status>, m: nat, from: nat)
    requires m <= from <= |rows| && SettledUpTo(rows, m)
    ensures |PendingFrom(rows, from)| == |rows| - from
    ensures forall j :: 0 <= j < |rows| - from ==> PendingFrom(rows, from)[j] == from + j
    decreases |rows| - from
  {
    if from < |rows| {
      SuffixFrom(rows, m, from + 1);
      var rest := PendingFrom(rows, from + 1);
      assert PendingFrom(rows, from) == [from] + rest;
      hide PendingFrom, SettledUpTo;
      forall j | 1 <= j < |rows| - from
        ensures ([from] + rest)[j] == from + j
      {
        assert rest[j - 1] == from + 1 + (j - 1);
      }
    }
  }

  /** k executions of a chain that is never denied nor cut; what each batch meets is arbitrary. */
  function Clean(n: nat, size: nat, worlds: nat -> (nat -> Situation), k: nat): State {
    if k == 0 then Start(n)
    else Apply(Clean(n, size, worlds, k - 1), Run((k - 1) * size, worlds(k - 1), false, Whole), size)
  }

  // Where a clean chain stands once its cursor has reached m.
  ghost predicate CleanAt(s: State, n: nat, m: nat) {
    && Inv(s, n)
    && (m < n ==> s.campaign == SENDING && s.links == {m} && SettledUpTo(s.ledger.rows, m))
    && (m >= n ==> s.campaign == CAMPAIGN_SENT && s.links == {})
  }

  lemma CleanStep(s: State, n: nat, from: nat, world: nat -> Situation, size: nat)
    requires CleanAt(s, n, from) && size >= 1 && from < n
    ensures CleanAt(Execute(s, from, world, false, size, Whole), n, from + size)
  {
    ExecuteKeeps(s, n, from, world, false, size, Whole);
    var batch := Batch(s.ledger.rows, from, size);
    var end := CleanDelivery(s, n, from, world, size);
    WholeBatch(s, from, world, size);
    hide DeliverAll, Batch, Inv, Execute;
    var rows := DeliverAll(s.ledger, batch, world).rows;
    assert |rows| == n;
    if end < n {
      assert rows[end] == PENDING;
    }
  }

  lemma WholeBatch(s: State, from: nat, world: nat -> Situation, size: nat)
    requires s.campaign == SENDING && Batch(s.ledger.rows, from, size) != []
    ensures var batch := Batch(s.ledger.rows, from, size);
            var t, l := Execute(s, from, world, false, size, Whole), DeliverAll(s.ledger, batch, world);
            && t.ledger == l
            && (PENDING in l.rows ==> t.campaign == SENDING && t.links == (s.links + {batch[|batch| - 1] + 1}) - {from})
            && (PENDING !in l.rows ==> t.campaign == CAMPAIGN_SENT && t.links == s.links - {from})
  {
    hide DeliverAll, Batch;
  }

  lemma FullBatch(rows: seq<Status>, from: nat, size: nat) returns (end: nat)
    requires size >= 1 && from < |rows| && SettledUpTo(rows, from)
    ensures from < end == if from + size < |rows| then from + size else |rows|
    ensures var batch := Batch(rows, from, size);
            && batch != [] && batch[|batch| - 1] + 1 == end
            && forall i :: from <= i < end ==> i in batch
    ensures forall i :: i in Batch(rows, from, size) ==> i < end
  {
    var batch := Batch(rows, from, size);
    PendingSuffix(rows, from);
    end := if from + size < |rows| then from + size else |rows|;
    assert |batch| == end - from && forall j :: 0 <= j < |batch| ==> batch[j] == from + j;
    forall i | from <= i < end
      ensures i in batch
    {
      assert batch[i - from] == i;
    }
  }

  lemma FateIsFinal()
    ensures forall s :: Fate(s) != PENDING
  {
  }

  lemma CleanDelivery(s: State, n: nat, from: nat, world: nat -> Situation, size: nat) returns (end: nat)
    requires Inv(s, n) && size >= 1 && from < n && SettledUpTo(s.ledger.rows, from)
    ensures end == if from + size < n then from + size else n
    ensures var batch := Batch(s.ledger.rows, from, size);
            && batch != [] && batch[|batch| - 1] + 1 == end
            && SettledUpTo(DeliverAll(s.ledger, batch, world).rows, end)
  {
    hide DeliverAll, Batch, Truthful, Count, PendingFrom, Settled, Fate;
    var batch := Batch(s.ledger.rows, from, size);
    end := FullBatch(s.ledger.rows, from, size);
    DeliverAllKeeps(s.ledger, batch, world);
    FateIsFinal();
    var l := DeliverAll(s.ledger, batch, world);
    forall i | 0 <= i < n
      ensures l.rows[i] != PENDING <==> i < end
    {
    }
  }

  /** Crash-free, a campaign of n recipients completes after exactly the smallest k with k * size >= n
      batches; before that, the k batches so far have settled exactly the first k * size. */
  lemma {:induction false} BatchesNeeded(n: nat, size: nat, worlds: nat -> (nat -> Situation), k: nat)
    requires n >= 1 && size >= 1
    ensures CleanAt(Clean(n, size, worlds, k), n, k * size)
  {
    hide CleanAt, Apply, Start, Clean;
    if k == 0 {
      CleanBase(n, size, worlds);
      CleanStart(n);
    } else {
      CleanNext(n, size, worlds, k);
      BatchesNeeded(n, size, worlds, k - 1);
      NextBatch(Clean(n, size, worlds, k - 1), n, (k - 1) * size, worlds(k - 1), size);
      NextMultiple(k, size);
    }
  }

  lemma NextMultiple(k: nat, size: nat)
    requires k >= 1
    ensures k * size == (k - 1) * size + size
  {
  }

  lemma CleanBase(n: nat, size: nat, worlds: nat -> (nat -> Situation))
    ensures Clean(n, size, worlds, 0) == Start(n)
  {
  }

  lemma CleanNext(n: nat, size: nat, worlds: nat -> (nat -> Situation), k: nat)
    requires k >= 1
    ensures Clean(n, size, worlds, k)
        == Apply(Clean(n, size, worlds, k - 1), Run((k - 1) * size, worlds(k - 1), false, Whole), size)
  {
  }

  lemma CleanStart(n: nat)
    requires n >= 1
    ensures CleanAt(Start(n), n, 0)
  {
    StartPending(n);
  }

  lemma NextBatch(s: State, n: nat, from: nat, world: nat -> Situation, size: nat)
    requires CleanAt(s, n, from) && size >= 1
    ensures CleanAt(Apply(s, Run(from, world, false, Whole), size), n, from + size)
  {
    if from < n {
      CleanStep(s, n, from, world, size);
      hide Execute;
    }
  }

  // ---- one execution ----

  function SentCount(events: seq<Event>): nat {
    if events == [] then 0 else SentCount(events[..|events| - 1]) + if events[|events| - 1].SentEvent? then 1 else 0
  }

  lemma {:induction false} DeliverAllSends(l: Ledger, ids: seq<nat>, world: nat -> Situation)
    requires Within(ids, |l.rows|)
    ensures SentCount(l.events) <= SentCount(DeliverAll(l, ids, world).events) <= SentCount(l.events) + |ids|
  {
    if ids != [] {
      var n := |ids| - 1;
      DeliverAllSends(l, ids[..n], world);
      var before, after := DeliverAll(l, ids[..n], world), DeliverAll(l, ids, world);
      assert after.events == before.events || after.events[..|before.events|] == before.events;
    }
  }

  /** One execution, cut anywhere, adds at most `size` sends to the metered ledger and hands the
      provider at most `size` messages, none of them to a destination suppressed at that moment. */
  lemma ExecutionIsWithinItsBatch(s: State, n: nat, from: nat, world: nat -> Situation, denied: bool, size: nat,
          cut: Cut)
    requires Inv(s, n) && from in s.links
    ensures Bounded(s.ledger, Execute(s, from, world, denied, size, cut).ledger, world, size)
  {
    var batch := Batch(s.ledger.rows, from, size);
    match cut
    case InDeliveries(recorded, handed) =>
      CutEffect(s, batch, world, recorded, handed);
      hide CutInDeliveries, Batch, SentCount, Inv;
    case AfterRecount => DeliveryEffect(s.ledger, batch, world); hide DeliverAll, Batch, SentCount, Inv;
    case Whole => WorkEffect(s, n, from, world, denied, size); hide Work, SentCount, Inv;
    case BeforeAck => WorkEffect(s, n, from, world, denied, size); hide Work, SentCount, Inv;
  }

  // What the deliveries of a batch of at most `most` recipients add to the ledger.
  ghost predicate Bounded(l: Ledger, r: Ledger, world: nat -> Situation, most: nat) {
    && SentCount(l.events) <= SentCount(r.events) <= SentCount(l.events) + most
    && |l.calls| <= |r.calls| <= |l.calls| + most
    && forall k :: |l.calls| <= k < |r.calls| ==> !world(r.calls[k]).suppressed
  }

  lemma DeliveryEffect(l: Ledger, ids: seq<nat>, world: nat -> Situation)
    requires AllPending(l.rows, ids) && Truthful(l)
    ensures Bounded(l, DeliverAll(l, ids, world), world, |ids|)
  {
    DeliverAllSends(l, ids, world);
    DeliverAllKeeps(l, ids, world);
  }

  lemma CutEffect(s: State, batch: seq<nat>, world: nat -> Situation, recorded: nat, handed: bool)
    requires AllPending(s.ledger.rows, batch) && Truthful(s.ledger)
    ensures Bounded(s.ledger, CutInDeliveries(s, batch, world, recorded, handed).ledger, world, |batch|)
  {
    var k := if recorded <= |batch| then recorded else |batch|;
    PrefixPending(s.ledger.rows, batch, k);
    DeliveryEffect(s.ledger, batch[..k], world);
  }

  lemma WorkEffect(s: State, n: nat, from: nat, world: nat -> Situation, denied: bool, size: nat)
    requires Inv(s, n) && from in s.links
    ensures Bounded(s.ledger, Work(s, from, world, denied, size).ledger, world, size)
  {
    DeliveryEffect(s.ledger, Batch(s.ledger.rows, from, size), world);
    hide DeliverAll, Batch, SentCount, Inv;
  }

  // ---- the counters ----

  predicate CountersAgree(s: State) {
    s.counters == Recount(s.ledger.rows)
  }

  function Total(c: Counters): nat {
    c.sent + c.failed + c.skipped
  }

  lemma {:induction false} RecountTotal(rows: seq<Status>)
    ensures Total(Recount(rows)) + Count(rows, PENDING) == |rows|
  {
    if rows != [] {
      RecountTotal(rows[..|rows| - 1]);
    }
  }

  /** The step is an execution that records at least one delivery. */
  predicate Records(s: State, step: Step, size: nat) {
    && step.Run? && step.from in s.links && s.campaign == SENDING && !step.denied
    && Batch(s.ledger.rows, step.from, size) != [] && !(step.cut.InDeliveries? && step.cut.recorded == 0)
  }

  /** The last execution that recorded a delivery, if any, was not cut before its recount. */
  predicate LastRecounted(n: nat, steps: seq<Step>, size: nat) {
    steps == [] ||
    var m := |steps| - 1;
    if Records(RunAll(n, steps[..m], size), steps[m], size) then !steps[m].cut.InDeliveries?
    else LastRecounted(n, steps[..m], size)
  }

  // Without a record nothing is counted anew; with one, the recount sees everything or is still to come.
  lemma StepCounts(s: State, n: nat, step: Step, size: nat)
    requires Inv(s, n)
    ensures var t := Apply(s, step, size);
            if !Records(s, step, size) then t.counters == s.counters && t.ledger.rows == s.ledger.rows
            else if !step.cut.InDeliveries? then CountersAgree(t)
            else t.counters == s.counters && Count(t.ledger.rows, PENDING) < Count(s.ledger.rows, PENDING)
  {
    if step.Run? && step.from in s.links {
      var batch := Batch(s.ledger.rows, step.from, size);
      assert AllPending(s.ledger.rows, batch) && Truthful(s.ledger);
      hide DeliverAll, CutInDeliveries, Batch, Count, Inv, Truthful, AllPending, Work;
      match step.cut
      case InDeliveries(recorded, handed) => CutCounts(s, batch, step.world, recorded, handed);
      case AfterRecount =>
      case Whole => WorkCounts(s, step.from, step.world, step.denied, size);
      case BeforeAck => WorkCounts(s, step.from, step.world, step.denied, size);
    }
  }

  lemma WorkCounts(s: State, from: nat, world: nat -> Situation, denied: bool, size: nat)
    ensures var t := Work(s, from, world, denied, size);
            if s.campaign == SENDING && !denied && Batch(s.ledger.rows, from, size) != [] then CountersAgree(t)
            else t.counters == s.counters && t.ledger.rows == s.ledger.rows
  {
  }

  lemma CutCounts(s: State, batch: seq<nat>, world: nat -> Situation, recorded: nat, handed: bool)
    requires AllPending(s.ledger.rows, batch) && Truthful(s.ledger)
    ensures var t := CutInDeliveries(s, batch, world, recorded, handed);
            && t.counters == s.counters && (recorded == 0 ==> t.ledger.rows == s.ledger.rows)
            && (recorded > 0 && batch != [] ==> Count(t.ledger.rows, PENDING) < Count(s.ledger.rows, PENDING))
  {
    var k := if recorded <= |batch| then recorded else |batch|;
    PrefixPending(s.ledger.rows, batch, k);
    DeliverAllKeeps(s.ledger, batch[..k], world);
    hide Count, Truthful;
  }

  /** In every run of executions that do not overlap, the counters are those of the rows if and only if
      the last execution that recorded a delivery reached its recount. */
  lemma {:induction false} CountersAgreeIff(n: nat, steps: seq<Step>, size: nat)
    requires size >= 1
    ensures var s := RunAll(n, steps, size);
            && (CountersAgree(s) <==> LastRecounted(n, steps, size))
            && Total(s.counters) + Count(s.ledger.rows, PENDING) <= n
  {
    RecountTotal(RunAll(n, steps, size).ledger.rows);
    ReachableInv(n, steps, size);
    if steps == [] {
      StartPending(n);
      NothingCounted(n);
    } else {
      var m := |steps| - 1;
      CountersAgreeIff(n, steps[..m], size);
      ReachableInv(n, steps[..m], size);
      RecountTotal(RunAll(n, steps[..m], size).ledger.rows);
      StepCounts(RunAll(n, steps[..m], size), n, steps[m], size);
      hide Apply, Recount, Count, Truthful, Records;
    }
  }

  lemma NothingCounted(n: nat)
    ensures Recount(Start(n).ledger.rows) == Counters(0, 0, 0)
  {
    CountZero(Start(n).ledger.rows, SENT);
    CountZero(Start(n).ledger.rows, FAILED);
    CountZero(Start(n).ledger.rows, SKIPPED);
  }

  const GOOD := Situation(true, true, false, true, true)

  /** A crash between the last delivery and the recount is never repaired: the retry finds nothing to
      send, completes the campaign, and the counters still say nobody was reached. */
  lemma CountersCanStayBehind()
    ensures var crashed, retry := Run(0, id => GOOD, false, InDeliveries(1, false)), Run(0, id => GOOD, false, Whole);
            var s := RunAll(1, [crashed, retry], 50);
            s.campaign == CAMPAIGN_SENT && s.ledger.rows == [SENT] && s.counters == Counters(0, 0, 0)
  {
    var world := (id: nat) => GOOD;
    var first, retry := Run(0, world, false, InDeliveries(1, false)), Run(0, world, false, Whole);
    assert [first, retry][..1] == [first] && [first][..0] == [];
    var s0 := RunAll(1, [], 50);
    assert s0 == Start(1) && s0.ledger.rows == [PENDING];
    assert PendingFrom([PENDING], 0) == [0];
    assert [0][..1] == [0] && [0][..0] == [];
    var s1 := Apply(s0, first, 50);
    assert DeliverAll(s0.ledger, [0], world) == DeliverOne(s0.ledger, 0, GOOD);
    assert s1.ledger.rows == [SENT] && s1.links == {0};
    assert RunAll(1, [first], 50) == s1;
    assert PendingFrom([SENT], 0) == [];
    assert RunAll(1, [first, retry], 50) == Apply(s1, retry, 50);
  }
}
