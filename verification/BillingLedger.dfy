/** Over every sequence of billing calls and ticks the ledger replays to the row. */
module BillingLedger {
  import opened Wrappers
  import opened Plans
  import opened Billing

  /** The events that record a change of status, oldest first. */
  function StatusEvents(ledger: seq<Entry>): seq<Entry> {
    if ledger == [] then []
    else
      var n := |ledger| - 1;
      if ledger[n].to.Some? then StatusEvents(ledger[..n]) + [ledger[n]] else StatusEvents(ledger[..n])
  }

  /** Each event starts from the status the one before it led to; the first starts from no row. */
  predicate Chain(s: seq<Entry>) {
    (s != [] ==> s[0].from == None) && forall i :: 1 <= i < |s| ==> s[i].from == s[i - 1].to
  }

  /** The moves of the subscription state machine and the event that records each. */
  predicate LegalMove(e: Entry) {
    match e.kind
    case TrialStarted => e.from == None && e.to == Some(TRIALING)
    case TrialExtended => (e.from == Some(TRIALING) || e.from == Some(TRIAL_EXPIRED)) && e.to == Some(TRIALING)
    case ChargeCreated => e.from != Some(ACTIVE) && e.to == Some(CHARGE_PENDING)
    case ChargeAccepted => e.from == Some(CHARGE_PENDING) && e.to == Some(ACTIVE)
    case ChargeDeclined => e.from == Some(CHARGE_PENDING) && (e.to == Some(TRIALING) || e.to == Some(TRIAL_EXPIRED))
    case ChargeCancelled => (e.from == Some(ACTIVE) || e.from == Some(CHARGE_PENDING)) && e.to == Some(CANCELLED)
    case ChargeReconciled => e.from == Some(ACTIVE) && e.to == Some(CANCELLED)
    case TrialEnded => e.from == Some(TRIALING) && e.to == Some(TRIAL_EXPIRED)
    case SubscriptionSuspended => e.from == Some(TRIAL_EXPIRED) && e.to == Some(SUSPENDED)
    case NudgeSent => e.from == None && e.to == None
  }

  ghost predicate LedgerOk(a: Account) {
    var s := StatusEvents(a.ledger);
    && Chain(s) && (forall e :: e in a.ledger ==> LegalMove(e))
    && (a.sub.None? <==> s == [])
    && (a.sub.Some? ==> s[|s| - 1].to == Some(a.sub.value.status))
  }

  // A pending row was put there by the creation of its charge; an active one by that charge's acceptance.
  predicate ChargeTrail(row: Sub, s: seq<Entry>) {
    && (row.status == CHARGE_PENDING ==>
          s != [] && s[|s| - 1].kind == ChargeCreated && s[|s| - 1].chargeId == row.chargeId)
    && (row.status == ACTIVE ==>
          && |s| >= 2 && s[|s| - 1].kind == ChargeAccepted && s[|s| - 1].chargeId == row.chargeId
          && s[|s| - 2].kind == ChargeCreated && s[|s| - 2].chargeId == row.chargeId)
  }

  function Accepts(ledger: seq<Entry>): set<Entry> {
    set e | e in ledger && e.kind == ChargeAccepted
  }

  predicate RowOk(row: Sub) {
    && row.status != PAST_DUE && row.status != EXPIRED
    && row.trialEndsAt.Some? && row.periodStart.Some? == row.periodEnd.Some?
    && (row.status in {CHARGE_PENDING, ACTIVE, CANCELLED} ==> row.chargeId.Some? && row.interval.Some?)
    && (row.status == CHARGE_PENDING ==> row.graceEndsAt == Some(row.trialEndsAt.value + TRIAL_GRACE_DAYS * DAY_MS))
    && (row.status == TRIAL_EXPIRED ==> row.graceEndsAt.Some?)
    && (row.status == ACTIVE ==> row.periodEnd.Some? && row.periodStart.value < row.periodEnd.value)
  }

  ghost predicate Inv(a: Account) {
    && LedgerOk(a)
    && (a.sub.Some? ==>
          && RowOk(a.sub.value) && ChargeTrail(a.sub.value, StatusEvents(a.ledger))
          && (a.sub.value.periodEnd.Some? ==> Accepts(a.ledger) != {}))
    && OneNudgePerDay(a.ledger)
  }

  ghost predicate OneNudgePerDay(ledger: seq<Entry>) {
    forall i, j :: 0 <= i < j < |ledger| && ledger[i].kind == ledger[j].kind == NudgeSent ==>
        ledger[i].days != ledger[j].days
  }

  lemma Appended(ledger: seq<Entry>, e: Entry)
    ensures StatusEvents(ledger + [e]) == if e.to.Some? then StatusEvents(ledger) + [e] else StatusEvents(ledger)
    ensures e.kind != ChargeAccepted ==> Accepts(ledger + [e]) == Accepts(ledger)
    ensures e.kind == ChargeAccepted ==> e in Accepts(ledger + [e])
  {
    assert (ledger + [e])[..|ledger|] == ledger;
    if e.kind != ChargeAccepted {
      forall x | x in Accepts(ledger)
        ensures x in Accepts(ledger + [e])
      {
      }
    } else {
      assert (ledger + [e])[|ledger|] == e;
    }
  }

  /** A write that records a legal move from the current status keeps the invariant. */
  lemma RecordKeeps(a: Account, row: Sub, e: Entry)
    requires Inv(a) && e.kind != NudgeSent && LegalMove(e) && e.from == StatusOf(a) && e.to == Some(row.status)
    requires RowOk(row) && ChargeTrail(row, StatusEvents(a.ledger) + [e])
    requires row.periodEnd.Some? ==> e.kind == ChargeAccepted || (a.sub.Some? && a.sub.value.periodEnd.Some?)
    ensures Inv(Record(a, row, e))
  {
    hide RowOk, ChargeTrail, LegalMove;
    Appended(a.ledger, e);
    var s, t := StatusEvents(a.ledger), Record(a, row, e);
    assert StatusEvents(t.ledger) == s + [e];
    assert Chain(s + [e]);
    assert forall x :: x in t.ledger ==> x in a.ledger || x == e;
    assert OneNudgePerDay(t.ledger);
  }

  lemma OpKeeps(a: Account, op: Op)
    requires Inv(a)
    ensures Inv(Apply(a, op))
  {
    match op
    case StartTrial(plan, now) => StartTrialKeeps(a, plan, now);
    case ExtendTrial(days, now) => ExtendKeeps(a, days, now);
    case Subscribe(plan, interval, up, chargeId, now) => SubscribeKeeps(a, plan, interval, up, chargeId, now);
    case Resolve(provider, now) => ResolveKeeps(a, provider, now);
    case SettleStale(now) => SettleStaleKeeps(a, now);
    case Cancel(up, now) => CancelKeeps(a, up, now);
    case RunTrialTick(store, mailer, now) => TrialTickKeeps(a, store, mailer, now);
    case RunReconcileTick(active, provider, now) => ReconcileKeeps(a, active, provider, now);
  }

  lemma StartTrialKeeps(a: Account, plan: Option<Plan>, now: int)
    requires Inv(a)
    ensures Inv(DoStartTrial(a, plan, now))
  {
    if a.sub.None? && plan.Some? {
      var t := DoStartTrial(a, plan, now);
      RecordKeeps(a, t.sub.value, t.ledger[|a.ledger|]);
    }
  }

  lemma ExtendKeeps(a: Account, days: int, now: int)
    requires Inv(a)
    ensures Inv(DoExtendTrial(a, days, now))
  {
    if MayExtend(a, days) {
      var t := DoExtendTrial(a, days, now);
      RecordKeeps(a, t.sub.value, t.ledger[|a.ledger|]);
    }
  }

  lemma SubscribeKeeps(a: Account, plan: Option<Plan>, interval: Interval, up: bool, chargeId: string, now: int)
    requires Inv(a)
    ensures Inv(DoSubscribe(a, plan, interval, up, chargeId, now))
  {
    if MaySubscribe(a, plan, up) {
      var t := DoSubscribe(a, plan, interval, up, chargeId, now);
      RecordKeeps(a, t.sub.value, t.ledger[|a.ledger|]);
    }
  }

  lemma ActivateKeeps(a: Account, now: int)
    requires Inv(a) && Pending(a)
    ensures Inv(Activate(a, now))
  {
    var t := Activate(a, now);
    RecordKeeps(a, t.sub.value, t.ledger[|a.ledger|]);
  }

  lemma FallBackKeeps(a: Account, chargeId: Option<string>, now: int)
    requires Inv(a) && Pending(a)
    ensures Inv(FallBack(a, chargeId, now))
  {
    var t := FallBack(a, chargeId, now);
    RecordKeeps(a, t.sub.value, t.ledger[|a.ledger|]);
  }

  lemma ResolveKeeps(a: Account, provider: Option<seq<LiveCharge>>, now: int)
    requires Inv(a)
    ensures Inv(DoResolve(a, provider, now))
  {
    hide Inv;
    if Pending(a) {
      ActivateKeeps(a, now);
      FallBackKeeps(a, a.sub.value.chargeId, now);
    }
  }

  lemma SettleStaleKeeps(a: Account, now: int)
    requires Inv(a)
    ensures Inv(DoSettleStale(a, now))
  {
    hide Inv;
    if Pending(a) {
      FallBackKeeps(a, None, now);
    }
  }

  lemma CancelKeeps(a: Account, up: bool, now: int)
    requires Inv(a)
    ensures Inv(DoCancel(a, up, now))
  {
    if MayCancel(a, up) {
      var t := DoCancel(a, up, now);
      RecordKeeps(a, t.sub.value, t.ledger[|a.ledger|]);
    }
  }

  lemma TrialTickKeeps(a: Account, store: Store, mailer: bool, now: int)
    requires Inv(a)
    ensures Inv(TrialTick(a, store, mailer, now))
  {
    hide Inv, ExpireOrNudge, SuspendOverdue;
    ExpireOrNudgeKeeps(a, store, mailer, now);
    SuspendKeeps(ExpireOrNudge(a, store, mailer, now), now);
  }

  lemma ExpireOrNudgeKeeps(a: Account, store: Store, mailer: bool, now: int)
    requires Inv(a)
    ensures Inv(ExpireOrNudge(a, store, mailer, now))
  {
    if a.sub.Some? {
      var t := ExpireOrNudge(a, store, mailer, now);
      if TrialOver(a.sub.value, now) {
        RecordKeeps(a, t.sub.value, t.ledger[|a.ledger|]);
      } else if t != a {
        NudgeKeeps(a, NudgeDue(a.sub.value, store, now).value);
      }
    }
  }

  lemma NudgeKeeps(a: Account, day: int)
    requires Inv(a) && !Nudged(a.ledger, day)
    ensures Inv(a.(ledger := a.ledger + [Entry(NudgeSent, None, None, None, day)]))
  {
    hide RowOk, ChargeTrail, StatusEvents, Accepts, Nudged;
    var e := Entry(NudgeSent, None, None, None, day);
    Appended(a.ledger, e);
    assert forall x :: x in a.ledger + [e] <==> x in a.ledger || x == e;
    NewNudge(a.ledger, e);
  }

  lemma NewNudge(ledger: seq<Entry>, e: Entry)
    requires OneNudgePerDay(ledger) && !Nudged(ledger, e.days)
    ensures OneNudgePerDay(ledger + [e])
  {
    forall i | 0 <= i < |ledger| && ledger[i].kind == NudgeSent
      ensures ledger[i].days != e.days
    {
      assert ledger[i] in ledger;
    }
  }

  lemma SuspendKeeps(a: Account, now: int)
    requires Inv(a)
    ensures Inv(SuspendOverdue(a, now))
  {
    if a.sub.Some? && GraceOver(a.sub.value, now) {
      var t := SuspendOverdue(a, now);
      RecordKeeps(a, t.sub.value, t.ledger[|a.ledger|]);
    }
  }

  lemma ReconcileKeeps(a: Account, active: bool, provider: Option<seq<LiveCharge>>, now: int)
    requires Inv(a)
    ensures Inv(ReconcileTick(a, active, provider, now))
  {
    hide Inv, DoResolve, DoSettleStale;
    if a.sub.Some? && provider.Some? {
      ResolveKeeps(a, provider, now);
      SettleStaleKeeps(DoResolve(a, provider, now), now);
      if ReconcileTick(a, active, provider, now) != a && a.sub.value.status != CHARGE_PENDING {
        DriftKeeps(a, now);
      }
    }
  }

  lemma DriftKeeps(a: Account, now: int)
    requires Inv(a) && a.sub.Some? && (a.sub.value.status == ACTIVE || a.sub.value.status == PAST_DUE)
    ensures Inv(CancelDrift(a, now))
  {
    var t := CancelDrift(a, now);
    RecordKeeps(a, t.sub.value, t.ledger[|a.ledger|]);
  }

  lemma {:induction false} ReachableInv(ops: seq<Op>)
    ensures Inv(Run(ops))
  {
    if ops != [] {
      ReachableInv(ops[..|ops| - 1]);
      OpKeeps(Run(ops[..|ops| - 1]), ops[|ops| - 1]);
    }
  }

  /** The ledger replays to the row: its status events form an unbroken chain of legal moves that
      ends at the current status, and there is a row exactly when there is an event. */
  lemma LedgerReplaysToRow(ops: seq<Op>)
    ensures var a, s := Run(ops), StatusEvents(Run(ops).ledger);
            && Chain(s) && (forall e :: e in s ==> LegalMove(e))
            && StatusOf(a) == if s == [] then None else s[|s| - 1].to
  {
    hide LegalMove, RowOk, ChargeTrail, Run;
    ReachableInv(ops);
    EventsInLedger(Run(ops).ledger);
  }

  lemma {:induction false} EventsInLedger(ledger: seq<Entry>)
    ensures forall e :: e in StatusEvents(ledger) ==> e in ledger
  {
    if ledger != [] {
      var n := |ledger| - 1;
      assert ledger == ledger[..n] + [ledger[n]];
      EventsInLedger(ledger[..n]);
    }
  }

  /** ACTIVE only through the provider: the last status event is the acceptance of the stored charge,
      and the one before it is that charge's creation. PAST_DUE and EXPIRED are never entered. */
  lemma ActiveMeansAccepted(ops: seq<Op>)
    requires StatusOf(Run(ops)) == Some(ACTIVE)
    ensures var row, s := Run(ops).sub.value, StatusEvents(Run(ops).ledger);
            && row.chargeId.Some? && |s| >= 2
            && s[|s| - 1].kind == ChargeAccepted && s[|s| - 1].chargeId == row.chargeId
            && s[|s| - 2].kind == ChargeCreated && s[|s| - 2].chargeId == row.chargeId
  {
    ReachableInv(ops);
  }

  lemma NeverPastDue(ops: seq<Op>)
    ensures StatusOf(Run(ops)) != Some(PAST_DUE) && StatusOf(Run(ops)) != Some(EXPIRED)
  {
    ReachableInv(ops);
  }

  function PeriodOf(a: Account): (Option<int>, Option<int>) {
    if a.sub.None? then (None, None) else (a.sub.value.periodStart, a.sub.value.periodEnd)
  }

  predicate NoAcceptance(entries: seq<Entry>) {
    forall i :: 0 <= i < |entries| ==> entries[i].kind != ChargeAccepted
  }

  /** The step from a to b accepts the pending charge. */
  predicate AcceptsCharge(a: Account, b: Account) {
    && Pending(a) && StatusOf(b) == Some(ACTIVE) && |b.ledger| == |a.ledger| + 1 && a.ledger <= b.ledger
    && b.ledger[|a.ledger|].kind == ChargeAccepted
  }

  // Every call either accepts a charge or leaves the paid period alone.
  lemma PeriodMoves(a: Account, op: Op)
    ensures var b := Apply(a, op);
            && a.ledger <= b.ledger
            && (AcceptsCharge(a, b) || (PeriodOf(b) == PeriodOf(a) && NoAcceptance(b.ledger[|a.ledger|..])))
  {
  }

  /** The k-th call accepted a charge, set the period the row has now, and none was accepted after it. */
  ghost predicate SetsPeriod(ops: seq<Op>, k: nat)
    requires k < |ops|
  {
    var before, after, last := Run(ops[..k]), Run(ops[..k + 1]), Run(ops);
    && AcceptsCharge(before, after) && PeriodOf(after) == PeriodOf(last)
    && after.ledger <= last.ledger && NoAcceptance(last.ledger[|after.ledger|..])
  }

  lemma {:induction false} PeriodWasAccepted(ops: seq<Op>)
    requires Run(ops).sub.Some? && Run(ops).sub.value.periodEnd.Some?
    ensures exists k: nat :: k < |ops| && SetsPeriod(ops, k)
  {
    var n := |ops| - 1;
    var a, b := Run(ops[..n]), Run(ops);
    PeriodMoves(a, ops[n]);
    hide Apply;
    if AcceptsCharge(a, b) {
      assert ops[..n + 1] == ops;
      assert SetsPeriod(ops, n);
    } else {
      PeriodWasAccepted(ops[..n]);
      var k: nat :| k < n && SetsPeriod(ops[..n], k);
      assert ops[..n][..k] == ops[..k] && ops[..n][..k + 1] == ops[..k + 1];
      var after := Run(ops[..k + 1]);
      assert b.ledger[|after.ledger|..] == a.ledger[|after.ledger|..] + b.ledger[|a.ledger|..];
      assert SetsPeriod(ops, k);
    }
  }

  /** Paid access needs a payment: except while ACTIVE, access ends at the latest two days after the
      trial or at the end of a paid period, and that period is the one the last acceptance set. */
  lemma AccessIsBounded(ops: seq<Op>, t: int)
    requires var a := Run(ops); a.sub.Some? && AccessAllowed(a.sub.value, t) && a.sub.value.status != ACTIVE
    ensures var a := Run(ops);
            || (a.sub.value.trialEndsAt.Some? && t < a.sub.value.trialEndsAt.value + TRIAL_GRACE_DAYS * DAY_MS)
            || (a.sub.value.periodEnd.Some? && t < a.sub.value.periodEnd.value
                && exists k: nat :: k < |ops| && SetsPeriod(ops, k))
  {
    ReachableInv(ops);
    if Run(ops).sub.value.periodEnd.Some? {
      PeriodWasAccepted(ops);
    }
    hide Run, SetsPeriod, LedgerOk, ChargeTrail;
  }

  /** At most one nudge per day number in the whole life of a store. */
  lemma NudgesAreUnique(ops: seq<Op>, i: nat, j: nat)
    requires i < j < |Run(ops).ledger|
    requires Run(ops).ledger[i].kind == NudgeSent && Run(ops).ledger[j].kind == NudgeSent
    ensures Run(ops).ledger[i].days != Run(ops).ledger[j].days
  {
    ReachableInv(ops);
  }
}
