/** Trial time across the charge decision: what an acceptance keeps, what a refusal restores. */
module BillingTrial {
  import opened Wrappers
  import opened Plans
  import opened Billing
  import opened BillingLedger

  /** Activation ends the first period one cycle after the trial end T, rounded up by less than a
      day, exactly when T is at most 90 days ahead; beyond that the cap cuts the trial short. */
  lemma ActivationConservesTrial(a: Account, now: int)
    requires Pending(a) && a.sub.value.trialEndsAt.Some?
    ensures var T, cycle, end := a.sub.value.trialEndsAt.value,
        (if a.sub.value.interval == Some(YEARLY) then 365 else 30) * DAY_MS, Activate(a, now).sub.value.periodEnd.value;
            && (T <= now ==> end == now + cycle)
            && (T > now ==> (T + cycle <= end < T + cycle + DAY_MS <==> T - now <= MAX_PRESERVED_TRIAL_DAYS * DAY_MS))
  {
    var d := CeilDays(a.sub.value.trialEndsAt.value - now);
    assert (d - 1) * DAY_MS == d * DAY_MS - DAY_MS;
  }

  function Subscribed(a: Account, plan: Plan, interval: Interval, chargeId: string, t1: int): Account {
    DoSubscribe(a, Some(plan), interval, true, chargeId, t1)
  }

  function Decided(a: Account, plan: Plan, interval: Interval, chargeId: string, t1: int, live: seq<LiveCharge>,
          t2: int): Account {
    DoResolve(Subscribed(a, plan, interval, chargeId, t1), Some(live), t2)
  }

  /** From a trial through subscribe and acceptance: no trial time is lost and less than a day is
      gained, whenever the charge was created, if the trial has at most 90 days left when accepted. */
  lemma TrialTimeIsConserved(a: Account, plan: Plan, interval: Interval, chargeId: string, t1: int,
          live: seq<LiveCharge>, t2: int)
    requires Inv(a) && StatusOf(a) == Some(TRIALING) && ListedAs(live, Some(chargeId), {LiveActive, LiveAccepted})
    ensures var T, b := a.sub.value.trialEndsAt.value, Decided(a, plan, interval, chargeId, t1, live, t2);
            && StatusOf(b) == Some(ACTIVE) && b.sub.value.periodStart == Some(t2) && b.sub.value.trialEndsAt == Some(T)
            && (t2 < T ==>
                  var first := T + (if interval == YEARLY then 365 else 30) * DAY_MS;
                  first <= b.sub.value.periodEnd.value < first + DAY_MS <==>
                      T - t2 <= MAX_PRESERVED_TRIAL_DAYS * DAY_MS)
  {
    VerdictIff(live, Some(chargeId));
    ActivationConservesTrial(Subscribed(a, plan, interval, chargeId, t1), t2);
  }

  /** An extension can push the end beyond the cap: 3 days and 90 more, accepted at once, keep 90. */
  lemma LongTrialIsCut(plan: Plan, now: int)
    requires plan.trialDays == 3
    ensures var a := Run([StartTrial(Some(plan), now), ExtendTrial(90, now)]);
            && a.sub.Some? && a.sub.value.trialEndsAt == Some(now + 93 * DAY_MS)
            && Decided(a, plan, MONTHLY, "1", now, [LiveCharge("1", LiveActive)], now).sub.value.periodEnd
                == Some(now + 120 * DAY_MS)
  {
    var start, extend := StartTrial(Some(plan), now), ExtendTrial(90, now);
    assert [start, extend][..1] == [start] && [start][..0] == [];
    assert Run([start]) == DoStartTrial(NEW_ACCOUNT, Some(plan), now);
    var a := DoExtendTrial(Run([start]), 90, now);
    assert Run([start, extend]) == a;
    assert a.sub.value.trialEndsAt == Some(now + 93 * DAY_MS);
    assert CeilDays(93 * DAY_MS) == 93;
  }

  /** A refused charge leaves the trial end and the paid period alone, and gives back the status the
      store had exactly when that was a running trial or an expired one. */
  lemma DeclineRestores(a: Account, plan: Plan, interval: Interval, chargeId: string, t1: int, live: seq<LiveCharge>,
          t2: int)
    requires Inv(a) && a.sub.Some? && a.sub.value.status != ACTIVE
        && (Unlisted(live, Some(chargeId))
            || ListedAs(live, Some(chargeId), {LiveDeclined, LiveCancelled, LiveExpired}))
    ensures var before, after := a.sub.value, Decided(a, plan, interval, chargeId, t1, live, t2).sub.value;
            && after.trialEndsAt == before.trialEndsAt && after.periodStart == before.periodStart
            && after.periodEnd == before.periodEnd && after.cancelledAt == before.cancelledAt
            && (after.status == before.status <==>
                  if t2 < before.trialEndsAt.value then before.status == TRIALING else before.status == TRIAL_EXPIRED)
  {
    VerdictIff(live, Some(chargeId));
  }

  /** What the refusal costs: at any later time t the store has lost access it would have kept exactly
      when it had cancelled with time paid beyond its trial, or had been deciding on another charge. */
  lemma DeclineLosesAccess(a: Account, plan: Plan, interval: Interval, chargeId: string, t1: int,
          live: seq<LiveCharge>, t2: int, t: int)
    requires Inv(a) && a.sub.Some? && a.sub.value.status != ACTIVE
        && (Unlisted(live, Some(chargeId))
            || ListedAs(live, Some(chargeId), {LiveDeclined, LiveCancelled, LiveExpired}))
    requires t2 <= t
    ensures var before, after := a.sub.value, Decided(a, plan, interval, chargeId, t1, live, t2).sub.value;
            var T := before.trialEndsAt.value;
            AccessAllowed(before, t) && !AccessAllowed(after, t) <==>
            T <= t && ((before.status == CANCELLED && After(before.periodEnd, t))
                       || (before.status == CHARGE_PENDING
                           && (t < T + TRIAL_GRACE_DAYS * DAY_MS || After(before.periodEnd, t))))
  {
    VerdictIff(live, Some(chargeId));
    hide ListedAs, Unlisted, FindLive;
  }

  /** Activation grants no more trial days than were put on the charge exactly when the store was on
      trial or deciding at the time it subscribed, or the trial is over when it accepts: from any other
      status, and for a store without a row, the charge is created with none. */
  lemma GrantWithinCharge(a: Account, plan: Plan, interval: Interval, chargeId: string, t1: int, t2: int)
    requires Inv(a) && StatusOf(a) != Some(ACTIVE) && t1 <= t2
    ensures var b := Subscribed(a, plan, interval, chargeId, t1);
            var onCharge := b.ledger[|a.ledger|].days;
            RemainingTrialDays(b.sub, t2) <= onCharge <==>
            StatusOf(a) == Some(TRIALING) || StatusOf(a) == Some(CHARGE_PENDING) || b.sub.value.trialEndsAt.value <= t2
  {
    var T := Subscribed(a, plan, interval, chargeId, t1).sub.value.trialEndsAt.value;
    CeilMonotone(T - t2, T - t1);
  }

  lemma CeilMonotone(x: int, y: int)
    requires x <= y
    ensures CeilDays(x) <= CeilDays(y)
  {
    assert (CeilDays(x) - 1) * DAY_MS < CeilDays(y) * DAY_MS;
  }

  /** startTrial is idempotent whatever the second call asks for. */
  lemma StartTrialOnce(a: Account, plan: Option<Plan>, now: int, plan': Option<Plan>, now': int)
    requires plan.Some?
    ensures DoStartTrial(DoStartTrial(a, plan, now), plan', now') == DoStartTrial(a, plan, now)
  {
  }
}
