/** Which recipients are recorded as sent, skipped or failed, said of what each delivery met: over a batch,
    over every run of the chain, and over executions that overlap
    (packages/automation/src/campaign.sender.ts). */
module CampaignOutcomes {
  import opened Campaign
  import opened CampaignChain
  import opened CampaignBatches

  /** The provider took the message. */
  predicate TakenByProvider(s: Situation) {
    s.providerUp && s.wellFormed && !s.suppressed && s.renders && s.accepts
  }

  /** There was a provider, and the destination was malformed or suppressed. */
  predicate PassedOver(s: Situation) {
    s.providerUp && (!s.wellFormed || s.suppressed)
  }

  /** The row says what its delivery met: sent if the provider took the message, skipped if the destination
      was passed over, failed otherwise. */
  predicate Reports(status: Status, s: Situation) {
    && (status == SENT <==> TakenByProvider(s))
    && (status == SKIPPED <==> PassedOver(s))
    && (status == FAILED <==> !TakenByProvider(s) && !PassedOver(s))
  }

  lemma FateReports(s: Situation)
    ensures Reports(Fate(s), s) && Fate(s) != PENDING
    ensures ReachesProvider(s) <==> s.providerUp && s.wellFormed && !s.suppressed && s.renders
  {
  }

  // ---- a batch ----

  // What the delivery of a batch adds for one recipient.
  ghost predicate Delivers(l: Ledger, ids: seq<nat>, world: nat -> Situation, r: Ledger, i: nat)
    requires i < |l.rows| == |r.rows|
  {
    var s := world(i);
    && (if i in ids then Reports(r.rows[i], s) else r.rows[i] == l.rows[i])
    && multiset(r.events)[SentEvent(i)]
       == multiset(l.events)[SentEvent(i)] + (if i in ids && TakenByProvider(s) then 1 else 0)
    && multiset(r.events)[FailedEvent(i)] == multiset(l.events)[FailedEvent(i)]
       + (if i in ids && !TakenByProvider(s) && !PassedOver(s) then 1 else 0)
    && multiset(r.calls)[i] == multiset(l.calls)[i]
       + (if i in ids && s.providerUp && s.wellFormed && !s.suppressed && s.renders then 1 else 0)
  }

  /** Every recipient of a batch gets the row and the event of what its own delivery met, and a message is
      handed to the provider exactly where one could be rendered for a good destination. */
  lemma {:induction false} BatchReports(l: Ledger, ids: seq<nat>, world: nat -> Situation, i: nat)
    requires Increasing(ids) && Within(ids, |l.rows|) && i < |l.rows|
    ensures Delivers(l, ids, world, DeliverAll(l, ids, world), i)
  {
    if ids != [] {
      var n := |ids| - 1;
      assert ids == ids[..n] + [ids[n]] && ids[n] !in ids[..n];
      BatchReports(l, ids[..n], world, i);
      FateReports(world(ids[n]));
      var before := DeliverAll(l, ids[..n], world);
      OneDelivers(before, ids[n], world(ids[n]), i);
      hide DeliverOne, Fate, TakenByProvider, PassedOver;
    }
  }

  lemma OneDelivers(l: Ledger, id: nat, s: Situation, i: nat)
    requires id < |l.rows| && i < |l.rows|
    ensures var r := DeliverOne(l, id, s);
            && |r.rows| == |l.rows|
            && (if i == id then Reports(r.rows[i], s) else r.rows[i] == l.rows[i])
            && multiset(r.events)[SentEvent(i)] == multiset(l.events)[SentEvent(i)]
               + (if i == id && TakenByProvider(s) then 1 else 0)
            && multiset(r.events)[FailedEvent(i)] == multiset(l.events)[FailedEvent(i)]
               + (if i == id && !TakenByProvider(s) && !PassedOver(s) then 1 else 0)
            && multiset(r.calls)[i] == multiset(l.calls)[i]
               + (if i == id && s.providerUp && s.wellFormed && !s.suppressed && s.renders then 1 else 0)
  {
    FateReports(s);
    assert multiset([SentEvent(id)])[SentEvent(i)] == if i == id then 1 else 0;
    assert multiset([FailedEvent(id)])[FailedEvent(i)] == if i == id then 1 else 0;
  }

  // ---- a run ----

  /** The recipients whose deliveries the step records: its batch, or the part before its cut. */
  function RecordedBy(s: State, step: Step, size: nat): seq<nat> {
    if !step.Run? || step.from !in s.links || s.campaign != SENDING || step.denied then []
    else
      var batch := Batch(s.ledger.rows, step.from, size);
      if step.cut.InDeliveries? && step.cut.recorded < |batch| then batch[..step.cut.recorded] else batch
  }

  lemma StepReports(s: State, n: nat, step: Step, size: nat, i: nat)
    requires Inv(s, n) && i < n && size >= 1
    ensures var t := Apply(s, step, size);
            && |t.ledger.rows| == n
            && (if i in RecordedBy(s, step, size)
                then s.ledger.rows[i] == PENDING && Reports(t.ledger.rows[i], step.world(i))
                else t.ledger.rows[i] == s.ledger.rows[i])
  {
    var ids := RecordedBy(s, step, size);
    if step.Run? && step.from in s.links {
      RecordedPending(s, step, size);
      BatchReports(s.ledger, ids, step.world, i);
      assert Apply(s, step, size).ledger.rows == DeliverAll(s.ledger, ids, step.world).rows by {
        StepRows(s, step, size);
      }
      hide DeliverAll, RecordedBy, Apply;
    }
  }

  lemma RecordedPending(s: State, step: Step, size: nat)
    ensures var ids := RecordedBy(s, step, size);
            Increasing(ids) && Within(ids, |s.ledger.rows|) && forall i :: i in ids ==> s.ledger.rows[i] == PENDING
  {
  }

  lemma StepRows(s: State, step: Step, size: nat)
    requires step.Run? && step.from in s.links
    ensures Within(RecordedBy(s, step, size), |s.ledger.rows|)
    ensures Apply(s, step, size).ledger.rows == DeliverAll(s.ledger, RecordedBy(s, step, size), step.world).rows
  {
    RecordedPending(s, step, size);
    var batch := Batch(s.ledger.rows, step.from, size);
    assert batch[..|batch|] == batch;
    hide Batch, Recount, DeliverAll, CutInDeliveries, Work;
    match step.cut
    case InDeliveries(recorded, handed) => CutRows(s, batch, step.world, recorded, handed);
    case AfterRecount =>
    case Whole => WorkRows(s, step.from, step.world, step.denied, size);
    case BeforeAck => WorkRows(s, step.from, step.world, step.denied, size);
  }

  lemma CutRows(s: State, batch: seq<nat>, world: nat -> Situation, recorded: nat, handed: bool)
    requires Within(batch, |s.ledger.rows|)
    ensures var k := if recorded <= |batch| then recorded else |batch|;
            CutInDeliveries(s, batch, world, recorded, handed).ledger.rows
            == DeliverAll(s.ledger, batch[..k], world).rows
  {
  }

  lemma WorkRows(s: State, from: nat, world: nat -> Situation, denied: bool, size: nat)
    ensures var batch := Batch(s.ledger.rows, from, size);
            Work(s, from, world, denied, size).ledger.rows
            == if s.campaign == SENDING && !denied then DeliverAll(s.ledger, batch, world).rows else s.ledger.rows
  {
  }

  /** Step j of the run records recipient i. */
  predicate RecordedAt(n: nat, steps: seq<Step>, size: nat, j: nat, i: nat)
    requires j < |steps|
  {
    i in RecordedBy(RunAll(n, steps[..j], size), steps[j], size)
  }

  ghost predicate NeverRecorded(n: nat, steps: seq<Step>, size: nat, i: nat) {
    forall j :: 0 <= j < |steps| ==> !RecordedAt(n, steps, size, j, i)
  }

  // What the run so far makes of the row of recipient i.
  ghost predicate RowOk(n: nat, steps: seq<Step>, size: nat, i: nat, status: Status) {
    && (forall j :: 0 <= j < |steps| && RecordedAt(n, steps, size, j, i) ==>
          steps[j].Run? && Reports(status, steps[j].world(i)))
    && (status == PENDING <==> NeverRecorded(n, steps, size, i))
  }

  lemma {:induction false} RunRows(n: nat, steps: seq<Step>, size: nat, i: nat)
    requires size >= 1 && i < n
    ensures |RunAll(n, steps, size).ledger.rows| == n && RowOk(n, steps, size, i, RunAll(n, steps, size).ledger.rows[i])
  {
    if steps != [] {
      var m := |steps| - 1;
      var s := RunAll(n, steps[..m], size);
      RunRows(n, steps[..m], size, i);
      ReachableInv(n, steps[..m], size);
      StepReports(s, n, steps[m], size, i);
      hide RowOk, Inv, Apply, RecordedBy, Reports;
      RowNext(n, steps, size, i, s.ledger.rows[i], RunAll(n, steps, size).ledger.rows[i]);
    }
  }

  lemma RowNext(n: nat, steps: seq<Step>, size: nat, i: nat, a: Status, b: Status)
    requires steps != [] && RowOk(n, steps[..|steps| - 1], size, i, a)
    requires var m := |steps| - 1;
             if RecordedAt(n, steps, size, m, i) then a == PENDING && steps[m].Run? && Reports(b, steps[m].world(i))
             else b == a
    ensures RowOk(n, steps, size, i, b)
  {
    hide RecordedAt, RunAll, TakenByProvider, PassedOver;
    var m := |steps| - 1;
    var first := steps[..m];
    RecordedBefore(n, steps, size, i);
    if RecordedAt(n, steps, size, m, i) {
      assert NeverRecorded(n, first, size, i) && b != PENDING;
      forall j | 0 <= j < |steps| && RecordedAt(n, steps, size, j, i)
        ensures steps[j].Run? && Reports(b, steps[j].world(i))
      {
        assert j == m;
      }
    } else {
      forall j | 0 <= j < |steps| && RecordedAt(n, steps, size, j, i)
        ensures steps[j].Run? && Reports(b, steps[j].world(i))
      {
        assert RecordedAt(n, first, size, j, i) && first[j] == steps[j];
      }
    }
  }

  lemma RecordedBefore(n: nat, steps: seq<Step>, size: nat, i: nat)
    requires steps != []
    ensures var m := |steps| - 1;
            && (forall j :: 0 <= j < m ==> RecordedAt(n, steps, size, j, i) == RecordedAt(n, steps[..m], size, j, i))
            && (NeverRecorded(n, steps, size, i) <==>
                NeverRecorded(n, steps[..m], size, i) && !RecordedAt(n, steps, size, m, i))
  {
    var m := |steps| - 1;
    hide RunAll, RecordedBy;
    forall j | 0 <= j < m
      ensures RecordedAt(n, steps, size, j, i) == RecordedAt(n, steps[..m], size, j, i)
    {
      assert steps[..m][..j] == steps[..j];
    }
  }

  /** In every run each row is pending until the one step that records it, and then says what that step's
      delivery met; sent events are those rows, no more and no fewer. */
  lemma RunReports(n: nat, steps: seq<Step>, size: nat, i: nat)
    requires size >= 1 && i < n
    ensures var l := RunAll(n, steps, size).ledger;
            && |l.rows| == n
            && (forall j :: 0 <= j < |steps| && RecordedAt(n, steps, size, j, i) ==>
                  steps[j].Run? && Reports(l.rows[i], steps[j].world(i)))
            && (l.rows[i] == PENDING <==> forall j :: 0 <= j < |steps| ==> !RecordedAt(n, steps, size, j, i))
            && Occurs(l.events, SentEvent(i)) == (if l.rows[i] == SENT then 1 else 0)
            && Occurs(l.events, FailedEvent(i)) == (if l.rows[i] == FAILED then 1 else 0)
  {
    ReachableInv(n, steps, size);
    RunRows(n, steps, size, i);
    hide RunAll, RecordedAt, Occurs, TakenByProvider, PassedOver;
  }

  // ---- denied campaigns ----

  /** An execution that the quota denied got as far as failing the campaign. */
  predicate DeniesAt(n: nat, steps: seq<Step>, size: nat, j: nat)
    requires j < |steps|
  {
    var s := RunAll(n, steps[..j], size);
    && steps[j].Run? && steps[j].denied && steps[j].from in s.links && s.campaign == SENDING
    && (steps[j].cut == Whole || steps[j].cut == BeforeAck)
  }

  /** A campaign is failed if and only if one of its executions was denied while it was sending. */
  lemma {:induction false} FailedIffDenied(n: nat, steps: seq<Step>, size: nat)
    ensures RunAll(n, steps, size).campaign == CAMPAIGN_FAILED <==>
            exists j :: 0 <= j < |steps| && DeniesAt(n, steps, size, j)
  {
    if steps != [] {
      var m := |steps| - 1;
      FailedIffDenied(n, steps[..m], size);
      forall j | 0 <= j < m
        ensures DeniesAt(n, steps, size, j) == DeniesAt(n, steps[..m], size, j)
      {
        assert steps[..m][..j] == steps[..j];
      }
      FailsIff(RunAll(n, steps[..m], size), steps[m], size);
      assert DeniesAt(n, steps, size, m) ==> RunAll(n, steps[..m], size).campaign == SENDING;
      hide Apply;
      if j :| 0 <= j < m && DeniesAt(n, steps[..m], size, j) {
        assert DeniesAt(n, steps, size, j);
      }
    }
  }

  lemma FailsIff(s: State, step: Step, size: nat)
    ensures Apply(s, step, size).campaign == CAMPAIGN_FAILED <==>
            || s.campaign == CAMPAIGN_FAILED
            || (step.Run? && step.denied && step.from in s.links && s.campaign == SENDING
                && (step.cut == Whole || step.cut == BeforeAck))
  {
    hide Batch, DeliverAll, Recount;
  }

  // ---- the counters and the events ----

  function FailedCount(events: seq<Event>): nat {
    if events == [] then 0 else FailedCount(events[..|events| - 1]) + if events[|events| - 1].FailedEvent? then 1 else 0
  }

  // The events are as many as the rows say.
  ghost predicate Matched(l: Ledger) {
    SentCount(l.events) == Count(l.rows, SENT) && FailedCount(l.events) == Count(l.rows, FAILED)
  }

  lemma {:induction false} DeliveriesMatch(l: Ledger, ids: seq<nat>, world: nat -> Situation)
    requires Increasing(ids) && Within(ids, |l.rows|) && Matched(l)
    requires forall k :: 0 <= k < |ids| ==> l.rows[ids[k]] == PENDING
    ensures Matched(DeliverAll(l, ids, world))
    ensures forall i :: 0 <= i < |l.rows| && i !in ids ==> DeliverAll(l, ids, world).rows[i] == l.rows[i]
  {
    if ids != [] {
      var n := |ids| - 1;
      assert ids == ids[..n] + [ids[n]] && ids[n] !in ids[..n];
      DeliveriesMatch(l, ids[..n], world);
      NoteMatches(Hand(DeliverAll(l, ids[..n], world), ids[n], world(ids[n])), ids[n], Fate(world(ids[n])));
      FateReports(world(ids[n]));
      hide SentCount, FailedCount, Count, Fate;
    }
  }

  lemma NoteMatches(l: Ledger, id: nat, outcome: Status)
    requires id < |l.rows| && l.rows[id] == PENDING && outcome != PENDING && Matched(l)
    ensures Matched(Note(l, id, outcome))
  {
    CountUpdate(l.rows, id, outcome, SENT);
    CountUpdate(l.rows, id, outcome, FAILED);
    var r := Note(l, id, outcome);
    if r.events != l.events {
      assert r.events[..|l.events|] == l.events;
    }
  }

  /** In every run the rows sent and failed are as many as the sent and failed events; so wherever the
      counters are those of the rows, they are those of the events. */
  lemma {:induction false} CountsAreEvents(n: nat, steps: seq<Step>, size: nat)
    requires size >= 1
    ensures var s := RunAll(n, steps, size);
            && Matched(s.ledger)
            && (CountersAgree(s) ==> s.counters.sent == SentCount(s.ledger.events)
                                     && s.counters.failed == FailedCount(s.ledger.events)
                                     && s.counters.sent + s.counters.failed + s.counters.skipped
                                        + Count(s.ledger.rows, PENDING) == n)
  {
    ReachableInv(n, steps, size);
    RecountTotal(RunAll(n, steps, size).ledger.rows);
    if steps == [] {
      NothingCounted(n);
    } else {
      var m := |steps| - 1;
      CountsAreEvents(n, steps[..m], size);
      ReachableInv(n, steps[..m], size);
      StepMatches(RunAll(n, steps[..m], size), steps[m], size);
      hide Apply, Matched;
    }
  }

  lemma StepMatches(s: State, step: Step, size: nat)
    requires Matched(s.ledger)
    ensures Matched(Apply(s, step, size).ledger)
  {
    if step.Run? && step.from in s.links {
      RecordedPending(s, step, size);
      RecordedPending(s, Run(step.from, step.world, false, Whole), size);
      var batch := Batch(s.ledger.rows, step.from, size);
      DeliveriesMatch(s.ledger, batch, step.world);
      hide Batch, Recount, DeliverAll, CutInDeliveries, SentCount, FailedCount, Count, Matched;
      match step.cut
      case InDeliveries(recorded, handed) => CutMatches(s, batch, step.world, recorded, handed);
      case _ =>
    }
  }

  lemma CutMatches(s: State, batch: seq<nat>, world: nat -> Situation, recorded: nat, handed: bool)
    requires Increasing(batch) && Within(batch, |s.ledger.rows|) && Matched(s.ledger)
    requires forall k :: 0 <= k < |batch| ==> s.ledger.rows[batch[k]] == PENDING
    ensures Matched(CutInDeliveries(s, batch, world, recorded, handed).ledger)
  {
    DeliveriesMatch(s.ledger, batch[..if recorded <= |batch| then recorded else |batch|], world);
  }
}
