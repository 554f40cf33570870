/** CampaignSender and its job handler as an object over the campaign's rows; an execution that is
    not cut is proved to be Campaign.Execute. */
module CampaignSender {
  import opened Campaign

  datatype BatchOutcome = BatchOutcome(processed: nat, sent: nat, failed: nat, skipped: nat, exhausted: bool,
          fatal: bool, last: nat)

  lemma FateIsFinal(s: Situation)
    ensures Fate(s) != PENDING
  {
  }

  // How many of the batch end as s.
  function Tally(batch: seq<nat>, world: nat -> Situation, s: Status): nat {
    if batch == [] then 0
    else Tally(batch[..|batch| - 1], world, s) + if Fate(world(batch[|batch| - 1])) == s then 1 else 0
  }

  class Sender {
    const batchSize: nat
    var rows: seq<Status>
    var events: seq<Event>
    var calls: seq<nat>
    var counters: Counters
    var campaign: CampaignStatus
    var links: set<nat>
    var crashes: nat

    constructor (n: nat, batchSize: nat)
      ensures View() == Start(n) && this.batchSize == batchSize
    {
      this.batchSize := batchSize;
      rows, events, calls := seq(n, i => PENDING), [], [];
      counters, campaign, links, crashes := Counters(0, 0, 0), SENDING, {0}, 0;
    }

    function Book(): Ledger
      reads this
    {
      Ledger(rows, events, calls)
    }

    function View(): State
      reads this
    {
      State(Book(), counters, campaign, links, crashes)
    }

    /** deliverOne: provider, address and suppression checks, the send, and the record of its outcome. */
    method DeliverOne(id: nat, s: Situation) returns (outcome: Status)
      requires id < |rows|
      modifies this`rows, this`events, this`calls
      ensures Book() == Campaign.DeliverOne(old(Book()), id, s) && outcome == Fate(s)
      ensures outcome == SENT <==> s.providerUp && s.wellFormed && !s.suppressed && s.renders && s.accepts
      ensures outcome == SKIPPED <==> s.providerUp && (!s.wellFormed || s.suppressed)
      ensures rows == old(rows)[id := outcome] && outcome != PENDING
      ensures events == old(events) + (if outcome == SENT then [SentEvent(id)]
                                       else if outcome == FAILED then [FailedEvent(id)] else [])
      ensures calls == old(calls) + if s.providerUp && s.wellFormed && !s.suppressed && s.renders then [id] else []
    {
      if !s.providerUp {
        RecordFailure(id);
        return FAILED;
      }
      if !s.wellFormed || s.suppressed {
        rows := rows[id := SKIPPED];
        return SKIPPED;
      }
      if !s.renders {
        RecordFailure(id);
        return FAILED;
      }
      calls := calls + [id];
      if !s.accepts {
        RecordFailure(id);
        return FAILED;
      }
      rows, events := rows[id := SENT], events + [SentEvent(id)];
      return SENT;
    }

    method RecordFailure(id: nat)
      requires id < |rows|
      modifies this`rows, this`events
      ensures rows == old(rows)[id := FAILED] && events == old(events) + [FailedEvent(id)]
    {
      rows, events := rows[id := FAILED], events + [FailedEvent(id)];
    }

    /** sendBatch: at most batchSize pending recipients above the cursor, then the recount. */
    method SendBatch(from: nat, world: nat -> Situation, denied: bool) returns (r: BatchOutcome)
      modifies this`rows, this`events, this`calls, this`counters
      ensures r.fatal <==> old(campaign) == SENDING && denied
      ensures r.processed == r.sent + r.failed + r.skipped
      ensures r.processed == if old(campaign) != SENDING || denied then 0 else |Batch(old(rows), from, batchSize)|
      ensures r.processed > 0 ==> r.sent == Tally(Batch(old(rows), from, batchSize), world, SENT)
      ensures r.processed > 0 ==> r.failed == Tally(Batch(old(rows), from, batchSize), world, FAILED)
      ensures r.processed == 0 ==> View() == old(View()) && r.exhausted && r.last == from
      ensures r.processed > 0 ==>
                var batch := Batch(old(rows), from, batchSize);
                && Book() == DeliverAll(old(Book()), batch, world) && counters == Recount(rows)
                && (r.exhausted <==> PENDING !in rows) && r.last == batch[|batch| - 1] + 1
    {
      if campaign != SENDING {
        return BatchOutcome(0, 0, 0, 0, true, false, from);
      }
      if denied {
        return BatchOutcome(0, 0, 0, 0, true, true, from);
      }
      var batch := Batch(rows, from, batchSize);
      if |batch| == 0 {
        return BatchOutcome(0, 0, 0, 0, true, false, from);
      }
      hide Batch, DeliverAll, Recount;
      var sent, failed, skipped := DeliverBatch(batch, world);
      counters := Recount(rows);
      return BatchOutcome(|batch|, sent, failed, skipped, PENDING !in rows, false, batch[|batch| - 1] + 1);
    }

    method DeliverBatch(batch: seq<nat>, world: nat -> Situation) returns (sent: nat, failed: nat, skipped: nat)
      requires Within(batch, |rows|)
      modifies this`rows, this`events, this`calls
      ensures Book() == DeliverAll(old(Book()), batch, world)
      ensures sent == Tally(batch, world, SENT) && failed == Tally(batch, world, FAILED)
          && skipped == Tally(batch, world, SKIPPED)
      ensures sent + failed + skipped == |batch|
    {
      hide Campaign.DeliverOne, Fate;
      sent, failed, skipped := 0, 0, 0;
      assert batch[..0] == [];
      for i := 0 to |batch|
        invariant |rows| == |old(rows)|
        invariant Book() == DeliverAll(old(Book()), batch[..i], world)
        invariant sent == Tally(batch[..i], world, SENT) && failed == Tally(batch[..i], world, FAILED)
        invariant skipped == Tally(batch[..i], world, SKIPPED) && sent + failed + skipped == i
      {
        assert batch[..i + 1][..i] == batch[..i];
        var outcome := DeliverOne(batch[i], world(batch[i]));
        FateIsFinal(world(batch[i]));
        if outcome == SENT {
          sent := sent + 1;
        }
        if outcome == FAILED {
          failed := failed + 1;
        }
        if outcome == SKIPPED {
          skipped := skipped + 1;
        }
      }
      assert batch[..|batch|] == batch;
    }

    /** The send-batch handler: fail the campaign, complete it, or enqueue the next link. */
    method HandleSendBatch(from: nat, world: nat -> Situation, denied: bool)
      requires from in links
      modifies this
      ensures View() == Execute(old(View()), from, world, denied, batchSize, Whole)
    {
      hide Batch, DeliverAll, Recount;
      var outcome := SendBatch(from, world, denied);
      if outcome.fatal {
        campaign := CAMPAIGN_FAILED;
      } else if outcome.exhausted {
        if campaign == SENDING {
          campaign := CAMPAIGN_SENT;
        }
      } else {
        links := links + {outcome.last};
      }
      links := links - {from};
    }
  }
}
