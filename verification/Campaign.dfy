/** The keyset chain of send batches: packages/automation/src/campaign.sender.ts run by the
    send-batch handler of apps/worker/src/handlers/automation.handlers.ts. A recipient is known by
    its rank in id order, and a cursor by the number of recipients at or below it. */
module Campaign {

  datatype Status = PENDING | SENT | FAILED | SKIPPED

  datatype CampaignStatus = SENDING | CAMPAIGN_SENT | CAMPAIGN_FAILED

  /** What a delivery meets at the moment it is tried. */
  datatype Situation = Situation(providerUp: bool, wellFormed: bool, suppressed: bool, renders: bool, accepts: bool)

  datatype Event = SentEvent(id: nat) | FailedEvent(id: nat)

  /** Recipient rows, message events, and every message handed to the provider. */
  datatype Ledger = Ledger(rows: seq<Status>, events: seq<Event>, calls: seq<nat>)

  datatype Counters = Counters(sent: nat, failed: nat, skipped: nat)

  /** links are the send jobs not yet acknowledged, by cursor (their job id). */
  datatype State = State(ledger: Ledger, counters: Counters, campaign: CampaignStatus, links: set<nat>, crashes: nat)

  // ---- one delivery ----

  function Fate(s: Situation): Status {
    if !s.providerUp then FAILED
    else if !s.wellFormed || s.suppressed then SKIPPED
    else if s.renders && s.accepts then SENT
    else FAILED
  }

  predicate ReachesProvider(s: Situation) {
    s.providerUp && s.wellFormed && !s.suppressed && s.renders
  }

  function Hand(l: Ledger, id: nat, s: Situation): Ledger {
    if ReachesProvider(s) then l.(calls := l.calls + [id]) else l
  }

  // One transaction: the recipient row and its message event; a skip writes no event.
  function Note(l: Ledger, id: nat, outcome: Status): Ledger
    requires id < |l.rows|
  {
    l.(rows := l.rows[id := outcome],
       events := if outcome == SENT then l.events + [SentEvent(id)]
                 else if outcome == FAILED then l.events + [FailedEvent(id)] else l.events)
  }

  function DeliverOne(l: Ledger, id: nat, s: Situation): Ledger
    requires id < |l.rows|
  {
    Note(Hand(l, id, s), id, Fate(s))
  }

  predicate Within(ids: seq<nat>, n: nat) {
    forall i :: 0 <= i < |ids| ==> ids[i] < n
  }

  function DeliverAll(l: Ledger, ids: seq<nat>, world: nat -> Situation): (r: Ledger)
    requires Within(ids, |l.rows|)
    ensures |r.rows| == |l.rows|
  {
    if ids == [] then l
    else
      var n := |ids| - 1;
      DeliverOne(DeliverAll(l, ids[..n], world), ids[n], world(ids[n]))
  }

  // ---- a batch ----

  predicate Increasing(ids: seq<nat>) {
    forall i, j :: 0 <= i < j < |ids| ==> ids[i] < ids[j]
  }

  /** The pending recipients above the cursor, in id order. */
  function PendingFrom(rows: seq<Status>, from: nat): (r: seq<nat>)
    ensures forall i :: i in r <==> from <= i < |rows| && rows[i] == PENDING
    ensures Increasing(r)
    decreases |rows| - from
  {
    if from >= |rows| then []
    else if rows[from] == PENDING then
      var rest := PendingFrom(rows, from + 1);
      assert forall i :: 0 <= i < |rest| ==> rest[i] in rest;
      [from] + rest
    else PendingFrom(rows, from + 1)
  }

  function Batch(rows: seq<Status>, from: nat, size: nat): (r: seq<nat>)
    ensures |r| <= size && Increasing(r) && Within(r, |rows|)
    ensures forall i :: 0 <= i < |r| ==> from <= r[i] && rows[r[i]] == PENDING
  {
    var p := PendingFrom(rows, from);
    assert forall i :: 0 <= i < |p| ==> p[i] in p;
    if |p| <= size then p else p[..size]
  }

  function Count(rows: seq<Status>, s: Status): nat {
    if rows == [] then 0 else Count(rows[..|rows| - 1], s) + if rows[|rows| - 1] == s then 1 else 0
  }

  function Recount(rows: seq<Status>): Counters {
    Counters(Count(rows, SENT), Count(rows, FAILED), Count(rows, SKIPPED))
  }

  /** What an execution that is not cut short does, before its job is acknowledged. */
  function Work(s: State, from: nat, world: nat -> Situation, denied: bool, size: nat): State {
    if s.campaign != SENDING then s
    else if denied then s.(campaign := CAMPAIGN_FAILED)
    else
      var batch := Batch(s.ledger.rows, from, size);
      if batch == [] then s.(campaign := CAMPAIGN_SENT)
      else
        var l := DeliverAll(s.ledger, batch, world);
        var recounted := s.(ledger := l, counters := Recount(l.rows));
        if PENDING !in l.rows then recounted.(campaign := CAMPAIGN_SENT)
        else recounted.(links := s.links + {batch[|batch| - 1] + 1})
  }

  /** Where an execution stops: after `recorded` deliveries, with the next message possibly handed to
      the provider; after the recount; or after its last write, before it is acknowledged. */
  datatype Cut = Whole | InDeliveries(recorded: nat, handed: bool) | AfterRecount | BeforeAck

  function CutInDeliveries(s: State, batch: seq<nat>, world: nat -> Situation, recorded: nat, handed: bool): State
    requires Within(batch, |s.ledger.rows|)
  {
    var k := if recorded <= |batch| then recorded else |batch|;
    var l := DeliverAll(s.ledger, batch[..k], world);
    s.(ledger := if handed && k < |batch| then Hand(l, batch[k], world(batch[k])) else l, crashes := s.crashes + 1)
  }

  /** One execution of the job for cursor `from`; a cut leaves the job to be retried. */
  function Execute(s: State, from: nat, world: nat -> Situation, denied: bool, size: nat, cut: Cut): State {
    var batch := Batch(s.ledger.rows, from, size);
    var delivers := s.campaign == SENDING && !denied && batch != [];
    match cut
    case Whole => var w := Work(s, from, world, denied, size); w.(links := w.links - {from})
    case BeforeAck => var w := Work(s, from, world, denied, size); w.(crashes := s.crashes + 1)
    case AfterRecount =>
      if !delivers then s.(crashes := s.crashes + 1)
      else
        var l := DeliverAll(s.ledger, batch, world);
        s.(ledger := l, counters := Recount(l.rows), crashes := s.crashes + 1)
    case InDeliveries(recorded, handed) =>
      if !delivers then s.(crashes := s.crashes + 1) else CutInDeliveries(s, batch, world, recorded, handed)
  }

  datatype Step =
    | Run(from: nat, world: nat -> Situation, denied: bool, cut: Cut)
    | DeadLetter(from: nat)

  function Apply(s: State, step: Step, size: nat): State {
    if step.from !in s.links then s
    else
      match step
      case Run(from, world, denied, cut) => Execute(s, from, world, denied, size, cut)
      case DeadLetter(from) => s.(links := s.links - {from})
  }

  function Start(n: nat): State {
    State(Ledger(seq(n, i => PENDING), [], []), Counters(0, 0, 0), SENDING, {0}, 0)
  }

  function RunAll(n: nat, steps: seq<Step>, size: nat): State {
    if steps == [] then Start(n) else Apply(RunAll(n, steps[..|steps| - 1], size), steps[|steps| - 1], size)
  }
}
