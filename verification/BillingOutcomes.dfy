/** What the calls of the billing service do for the merchant: what a provider's answer decides, how long a
    store keeps access after each call, and when a nudge goes out. */
module BillingOutcomes {
  import opened Wrappers
  import opened Plans
  import opened Billing
  import opened BillingLedger

  // ---- the provider's answer ----

  /** A pending row becomes ACTIVE exactly when the first live charge with its id is listed ACTIVE or
      ACCEPTED, goes back to the trial or its end exactly when the charge is missing, declined, cancelled or
      expired, and stays exactly when it is pending or frozen. */
  lemma ResolveIff(a: Account, live: seq<LiveCharge>, now: int)
    requires Pending(a)
    ensures var b, id := DoResolve(a, Some(live), now), a.sub.value.chargeId;
            && (StatusOf(b) == Some(ACTIVE) <==> ListedAs(live, id, {LiveActive, LiveAccepted}))
            && (StatusOf(b) == Some(if After(a.sub.value.trialEndsAt, now) then TRIALING else TRIAL_EXPIRED) <==>
                Unlisted(live, id) || ListedAs(live, id, {LiveDeclined, LiveCancelled, LiveExpired}))
            && (b == a <==> ListedAs(live, id, {LivePending, LiveFrozen}))
            && (StatusOf(b) == Some(ACTIVE) ==> b.sub.value.periodStart == Some(now) && b.sub.value.cancelledAt == None)
  {
    VerdictIff(live, a.sub.value.chargeId);
    hide ListedAs, Unlisted, FindLive;
  }

  /** The call asks about the pending charge, and the provider lists it ACTIVE or ACCEPTED. */
  predicate Answered(a: Account, op: Op) {
    && Pending(a)
    && var live :=
         if op.Resolve? then op.provider else if op.RunReconcileTick? && op.storeActive then op.provider else None;
      live.Some? && ListedAs(live.value, a.sub.value.chargeId, {LiveActive, LiveAccepted})
  }

  lemma AcceptsOnlyAnswered(a: Account, op: Op, i: nat)
    requires |a.ledger| <= i < |Apply(a, op).ledger| && Apply(a, op).ledger[i].kind == ChargeAccepted
    ensures Answered(a, op) && i == |a.ledger| && a.ledger <= Apply(a, op).ledger
  {
    if Pending(a) {
      if op.Resolve? && op.provider.Some? {
        VerdictIff(op.provider.value, a.sub.value.chargeId);
      }
      if op.RunReconcileTick? && op.provider.Some? {
        VerdictIff(op.provider.value, a.sub.value.chargeId);
      }
    }
    hide ListedAs, Unlisted, FindLive;
  }

  lemma LedgerGrows(a: Account, op: Op)
    ensures a.ledger <= Apply(a, op).ledger
  {
  }

  /** The k-th call wrote ledger entry i on such an answer. */
  ghost predicate AnsweredAt(ops: seq<Op>, k: nat, i: nat)
    requires k < |ops|
  {
    |Run(ops[..k]).ledger| == i && Answered(Run(ops[..k]), ops[k])
  }

  /** Every acceptance in the ledger of any run was written by a call whose provider listed the store's
      charge as ACTIVE or ACCEPTED. */
  lemma {:induction false} AcceptancesAreAnswered(ops: seq<Op>, i: nat)
    requires i < |Run(ops).ledger| && Run(ops).ledger[i].kind == ChargeAccepted
    ensures exists k: nat :: k < |ops| && AnsweredAt(ops, k, i)
  {
    var n := |ops| - 1;
    var a, b := Run(ops[..n]), Run(ops);
    LedgerGrows(a, ops[n]);
    if i < |a.ledger| {
      assert a.ledger[i] == b.ledger[i];
      AcceptancesAreAnswered(ops[..n], i);
      var k: nat :| k < n && AnsweredAt(ops[..n], k, i);
      assert ops[..n][..k] == ops[..k];
      hide Answered, Run;
      assert AnsweredAt(ops, k, i);
    } else {
      AcceptsOnlyAnswered(a, ops[n], i);
      hide Answered, Apply;
      assert AnsweredAt(ops, n, i);
    }
  }

  // ---- access after each call ----

  /** Which calls are refused: every other one writes the row and its event. */
  lemma WritesIff(a: Account, plan: Option<Plan>, days: int, interval: Interval, up: bool, chargeId: string, now: int)
    ensures DoStartTrial(a, plan, now) != a <==> a.sub.None? && plan.Some?
    ensures DoExtendTrial(a, days, now) != a <==>
            1 <= days <= 90 && StatusOf(a) in {Some(TRIALING), Some(TRIAL_EXPIRED)}
    ensures DoSubscribe(a, plan, interval, up, chargeId, now) != a <==> up && plan.Some? && StatusOf(a) != Some(ACTIVE)
    ensures DoCancel(a, up, now) != a <==>
            && up && a.sub.Some? && a.sub.value.chargeId.Some?
            && a.sub.value.status in {ACTIVE, CHARGE_PENDING, PAST_DUE}
  {
    assert forall row, e :: Record(a, row, e).ledger != a.ledger;
  }

  // The entry fits the call that wrote it, and carries its days and its charge.
  predicate Fits(a: Account, op: Op, e: Entry) {
    match op
    case StartTrial(plan, _) => e.kind == TrialStarted && plan.Some? && e.days == plan.value.trialDays
    case ExtendTrial(days, _) => e.kind == TrialExtended && e.days == days
    case Subscribe(_, _, _, chargeId, _) => e.kind == ChargeCreated && e.chargeId == Some(chargeId)
    case Resolve(_, _) =>
      e.kind in {ChargeAccepted, ChargeDeclined} && a.sub.Some? && e.chargeId == a.sub.value.chargeId
    case SettleStale(_) => e.kind == ChargeDeclined && e.chargeId.None?
    case Cancel(_, _) => e.kind == ChargeCancelled && a.sub.Some? && e.chargeId == a.sub.value.chargeId
    case RunTrialTick(_, _, _) => e.kind in {TrialEnded, NudgeSent, SubscriptionSuspended}
    case RunReconcileTick(_, _, _) => e.kind in {ChargeAccepted, ChargeDeclined, ChargeReconciled}
  }

  // Call k wrote ledger entry i.
  ghost predicate WrittenBy(ops: seq<Op>, k: nat, i: nat)
    requires k < |ops|
  {
    var before, after := Run(ops[..k]), Run(ops[..k + 1]);
    && after == Apply(before, ops[k]) && |before.ledger| <= i < |after.ledger|
    && Fits(before, ops[k], after.ledger[i])
  }

  lemma CallFits(a: Account, op: Op, i: nat)
    requires |a.ledger| <= i < |Apply(a, op).ledger|
    ensures Fits(a, op, Apply(a, op).ledger[i])
  {
    hide FindLive, Nudged, CeilDays;
  }

  /** Over any run every ledger entry fits the call that wrote it, and carries its days and its charge. */
  lemma {:induction false} EntriesFit(ops: seq<Op>, i: nat)
    requires i < |Run(ops).ledger|
    ensures exists k: nat :: k < |ops| && WrittenBy(ops, k, i) && Run(ops).ledger[i] == Run(ops[..k + 1]).ledger[i]
  {
    var n := |ops| - 1;
    var before := Run(ops[..n]);
    LedgerGrows(before, ops[n]);
    if i < |before.ledger| {
      EntriesFit(ops[..n], i);
      var k: nat :| k < n && WrittenBy(ops[..n], k, i) && before.ledger[i] == Run(ops[..n][..k + 1]).ledger[i];
      assert ops[..n][..k] == ops[..k] && ops[..n][..k + 1] == ops[..k + 1];
      assert WrittenBy(ops, k, i);
    } else {
      CallFits(before, ops[n], i);
      assert ops[..n + 1] == ops;
      assert WrittenBy(ops, n, i);
    }
  }

  /** A new trial gives access for exactly its days. */
  lemma TrialGivesAccess(a: Account, plan: Plan, now: int, t: int)
    requires a.sub.None?
    ensures var b := DoStartTrial(a, Some(plan), now);
            b.sub.Some? && (AccessAllowed(b.sub.value, t) <==> t < now + plan.trialDays * DAY_MS)
  {
  }

  /** Extending a running trial by d days moves its end by d days; an expired one runs d days from now. */
  lemma ExtensionGivesDays(a: Account, days: int, now: int, t: int)
    requires MayExtend(a, days) && now <= t
    ensures var b := DoExtendTrial(a, days, now);
            && b.sub.Some?
            && (AccessAllowed(a.sub.value, now) ==>
                  (AccessAllowed(b.sub.value, t + days * DAY_MS) <==> AccessAllowed(a.sub.value, t)))
            && (!AccessAllowed(a.sub.value, now) ==> (AccessAllowed(b.sub.value, t) <==> t < now + days * DAY_MS))
  {
  }

  /** While the charge is undecided the store has access until two days after its trial, or the trial its
      plan would give, and as long as it has paid; and the row holds what was asked for. */
  lemma SubscribingKeepsAccess(a: Account, plan: Plan, interval: Interval, chargeId: string, now: int, t: int)
    requires Inv(a) && StatusOf(a) != Some(ACTIVE)
    ensures var b := DoSubscribe(a, Some(plan), interval, true, chargeId, now);
            var trialEnd := if a.sub.Some? then a.sub.value.trialEndsAt.value else now + plan.trialDays * DAY_MS;
            && b.sub.Some? && b.sub.value.plan == plan && b.sub.value.interval == Some(interval)
            && b.sub.value.chargeId == Some(chargeId)
            && (AccessAllowed(b.sub.value, t) <==>
                  t < trialEnd + 2 * DAY_MS || (a.sub.Some? && After(a.sub.value.periodEnd, t)))
  {
    hide LedgerOk, ChargeTrail, OneNudgePerDay;
  }

  /** After a cancellation the store keeps exactly the time it has paid for. */
  lemma CancellingKeepsPaidTime(a: Account, now: int, t: int)
    requires MayCancel(a, true)
    ensures var b := DoCancel(a, true, now);
            b.sub.Some? && (AccessAllowed(b.sub.value, t) <==>
                            a.sub.value.periodEnd.Some? && t < a.sub.value.periodEnd.value)
  {
  }

  // ---- the daily ticks ----

  /** The trial tick ends exactly the trials of active stores whose end has come, giving them two days of
      grace, suspends exactly those whose grace is over, and leaves every other row alone. */
  lemma TickRowIff(a: Account, store: Store, mailer: bool, now: int)
    requires a.sub.Some?
    ensures var b, sub := TrialTick(a, store, mailer, now), a.sub.value;
            var over := sub.status == TRIALING && sub.trialEndsAt.Some? && sub.trialEndsAt.value <= now;
            var overdue := sub.status in {TRIAL_EXPIRED, PAST_DUE}
                           && sub.graceEndsAt.Some? && sub.graceEndsAt.value < now;
            && (b.sub != a.sub <==> store.active && (over || overdue))
            && (store.active && over ==> StatusOf(b) == Some(TRIAL_EXPIRED)
                                         && b.sub.value.graceEndsAt == Some(now + 2 * DAY_MS))
            && (store.active && overdue ==> StatusOf(b) == Some(SUSPENDED))
  {
  }

  /** The reconcile tick decides a pending charge from its second day on as the provider lists it, gives up
      on an undecided one after seven days, and cancels exactly the paid subscriptions whose charge is gone. */
  lemma ReconcileIff(a: Account, live: seq<LiveCharge>, now: int)
    requires a.sub.Some?
    ensures var b, sub := ReconcileTick(a, true, Some(live), now), a.sub.value;
            var age := now - sub.updatedAt;
            if sub.status == CHARGE_PENDING then
              && (b == a <==> age < DAY_MS
                              || (age <= 7 * DAY_MS && ListedAs(live, sub.chargeId, {LivePending, LiveFrozen})))
              && (StatusOf(b) == Some(ACTIVE) <==>
                    age >= DAY_MS && ListedAs(live, sub.chargeId, {LiveActive, LiveAccepted}))
              && StatusOf(b) in {Some(CHARGE_PENDING), Some(ACTIVE), Some(TRIALING), Some(TRIAL_EXPIRED)}
            else
              && (b != a <==> sub.status in {ACTIVE, PAST_DUE} && sub.chargeId.Some? && Unlisted(live, sub.chargeId))
              && (b != a ==> StatusOf(b) == Some(CANCELLED))
  {
    VerdictIff(live, a.sub.value.chargeId);
    FindLiveIff(live, a.sub.value.chargeId, LivePending);
    hide ListedAs, Unlisted, FindLive;
  }


  /** The tick of an active store sends the nudge of day d exactly when the trial runs and day d of it has
      come, the store is old enough, that nudge has not been recorded, and there is a mailer and an address. */
  lemma NudgeSentIff(a: Account, store: Store, mailer: bool, now: int, d: int)
    requires Inv(a) && StatusOf(a) == Some(TRIALING)
    ensures var b, sub := TrialTick(a, store, mailer, now), a.sub.value;
            var startsAt := sub.trialEndsAt.value - sub.plan.trialDays * DAY_MS;
            b.ledger == a.ledger + [Entry(NudgeSent, None, None, None, d)] <==>
            && store.active && mailer && store.hasEmail && 1 <= d <= sub.plan.trialDays && !Nudged(a.ledger, d)
            && startsAt + (d - 1) * DAY_MS <= now < startsAt + d * DAY_MS
            && now - store.installedAt >= if d == 1 then DAY_MS / 2 else (d - 1) * DAY_MS
  {
    hide LedgerOk, ChargeTrail, OneNudgePerDay, Nudged;
    var sub, b := a.sub.value, TrialTick(a, store, mailer, now);
    DayIsUnique(sub.trialEndsAt.value - now, sub.plan.trialDays, d);
    var e := Entry(NudgeSent, None, None, None, d);
    if b.ledger == a.ledger + [e] {
      assert b.ledger[|a.ledger|] == e;
    }
    assert NudgeDue(sub, store, now) == Some(d) <==>
        && After(sub.trialEndsAt, now) && d == sub.plan.trialDays - CeilDays(sub.trialEndsAt.value - now) + 1
        && 1 <= d <= sub.plan.trialDays && now - store.installedAt >= if d == 1 then DAY_MS / 2 else (d - 1) * DAY_MS;
  }

  lemma DayIsUnique(left: int, days: int, d: int)
    ensures d == days - CeilDays(left) + 1 <==> (days - d) * DAY_MS < left <= (days - d + 1) * DAY_MS
  {
    var c := CeilDays(left);
    assert (c - 1) * DAY_MS < left <= c * DAY_MS;
  }
}
