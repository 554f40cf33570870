/** The two daily ticks for one store: packages/billing/src/trial-lifecycle.service.ts and
    packages/billing/src/reconcile.service.ts. */
module BillingTicks {
  import opened Wrappers
  import opened Plans
  import opened Billing
  import opened BillingLedger

  /** The trial tick only catches the status up with the clock: it never changes what the store may
      do, now or later. */
  lemma TrialTickKeepsAccess(a: Account, store: Store, mailer: bool, now: int, t: int)
    requires a.sub.Some? && now <= t
    ensures TrialTick(a, store, mailer, now).sub.Some?
    ensures AccessAllowed(TrialTick(a, store, mailer, now).sub.value, t) == AccessAllowed(a.sub.value, t)
  {
  }

  lemma TrialTickIdempotent(a: Account, store: Store, mailer: bool, now: int)
    ensures var once := TrialTick(a, store, mailer, now); TrialTick(once, store, mailer, now) == once
  {
    var first := ExpireOrNudge(a, store, mailer, now);
    if first != a && a.sub == first.sub {
      assert first.ledger[|a.ledger|] in first.ledger;
    }
  }

  /** A tick that a failing mail ends early does for a store it served nothing or all of that store's tick,
      and a later tick at the same instant makes up for the rest. */
  lemma RetryCatchesUp(a: Account, store: Store, mailer: bool, now: int)
    requires store.active
    ensures var cut := ExpireOrNudge(a, store, mailer, now);
            && (cut == a || cut == TrialTick(a, store, mailer, now))
            && TrialTick(cut, store, mailer, now) == TrialTick(a, store, mailer, now)
  {
    var cut := ExpireOrNudge(a, store, mailer, now);
    if cut != a && a.sub == cut.sub {
      assert cut.ledger[|a.ledger|] in cut.ledger;
    }
  }

  /** After the tick of an active store no trial is over and no grace has run out, if no mail ended it early. */
  lemma TrialTickCatchesUp(a: Account, store: Store, mailer: bool, now: int)
    requires store.active && a.sub.Some?
    ensures var sub := TrialTick(a, store, mailer, now).sub.value;
            && (sub.status == TRIALING && sub.trialEndsAt.Some? ==> now < sub.trialEndsAt.value)
            && (sub.status in {TRIAL_EXPIRED, PAST_DUE} && sub.graceEndsAt.Some? ==> now <= sub.graceEndsAt.value)
  {
  }

  /** A trial that a tick expired is suspended by a later tick exactly when more than the two grace
      days have passed between them. */
  lemma SuspensionAfterGrace(a: Account, store: Store, mailer: bool, n1: int, n2: int)
    requires store.active && a.sub.Some? && TrialOver(a.sub.value, n1)
    ensures var b := TrialTick(TrialTick(a, store, mailer, n1), store, mailer, n2);
            StatusOf(b) == Some(if n2 > n1 + TRIAL_GRACE_DAYS * DAY_MS then SUSPENDED else TRIAL_EXPIRED)
  {
  }

  /** The nudge of day d goes out when d - 1 whole days of the trial are used up. */
  lemma NudgeCountsDown(a: Account, store: Store, mailer: bool, now: int)
    requires a.sub.Some? && TrialTick(a, store, mailer, now).sub == a.sub
    requires TrialTick(a, store, mailer, now) != a
    ensures var e, sub := TrialTick(a, store, mailer, now).ledger[|a.ledger|], a.sub.value;
            var startsAt := sub.trialEndsAt.value - sub.plan.trialDays * DAY_MS;
            && TrialTick(a, store, mailer, now).ledger == a.ledger + [e]
            && e.kind == NudgeSent && 1 <= e.days <= sub.plan.trialDays && !Nudged(a.ledger, e.days)
            && startsAt + (e.days - 1) * DAY_MS <= now < startsAt + e.days * DAY_MS
            && now >= store.installedAt + if e.days == 1 then DAY_MS / 2 else (e.days - 1) * DAY_MS
  {
  }

  /** Only the merchant, a missing charge or a cancellation ends a paid subscription: the trial tick
      never touches it, however long ago its period ended. */
  lemma ActiveOutlivesItsPeriod(a: Account, store: Store, mailer: bool, now: int)
    requires StatusOf(a) == Some(ACTIVE)
    ensures TrialTick(a, store, mailer, now) == a && AccessAllowed(a.sub.value, now)
  {
  }

  /** No call and no tick moves the paid period of an active subscription: it can only be cancelled. */
  lemma PaidPeriodNeverMoves(a: Account, op: Op)
    requires StatusOf(a) == Some(ACTIVE)
    ensures var b := Apply(a, op);
            && b.sub.Some? && b.sub.value.periodStart == a.sub.value.periodStart
                && b.sub.value.periodEnd == a.sub.value.periodEnd
            && (b.sub.value.status == ACTIVE || b.sub.value.status == CANCELLED)
            && (b.sub.value.status == ACTIVE ==> b == a)
  {
  }

  /** After a reconcile tick that reached the provider: a decision still open is at most seven days
      old, or the store's row was written less than a day ago, or the provider itself is undecided;
      and a subscription still active has its charge among the live ones. */
  lemma ReconcileConverges(a: Account, live: seq<LiveCharge>, now: int)
    requires Inv(a) && a.sub.Some?
    ensures var b := ReconcileTick(a, true, Some(live), now);
            && (Pending(b) ==>
                  && b == a && now - a.sub.value.updatedAt <= PENDING_DECISION_LIMIT_DAYS * DAY_MS
                  && (now - a.sub.value.updatedAt < DAY_MS
                      || ListedAs(live, a.sub.value.chargeId, {LivePending, LiveFrozen})))
            && (StatusOf(b) == Some(ACTIVE) ==> exists c :: c in live && Some(c.chargeId) == b.sub.value.chargeId)
            && (StatusOf(a) == Some(ACTIVE) ==>
                  (StatusOf(b) == Some(CANCELLED) <==> forall c :: c in live ==>
                      Some(c.chargeId) != a.sub.value.chargeId))
  {
    hide LegalMove, ChargeTrail, StatusEvents, OneNudgePerDay, LedgerOk;
    VerdictIff(live, a.sub.value.chargeId);
    hide ListedAs, Unlisted;
    var found := FindLive(live, a.sub.value.chargeId);
    if found.Some? {
      assert LiveCharge(a.sub.value.chargeId.value, found.value) in live;
    }
  }

  lemma ReconcileIdempotent(a: Account, active: bool, provider: Option<seq<LiveCharge>>, now: int)
    ensures var once := ReconcileTick(a, active, provider, now); ReconcileTick(once, active, provider, now) == once
  {
  }

  /** A live charge of any status keeps the subscription: drift is a missing id, not a bad status. */
  lemma CancelledChargeStillCounts(a: Account, chargeId: string, s: LiveStatus, now: int)
    requires StatusOf(a) == Some(ACTIVE) && a.sub.value.chargeId == Some(chargeId)
    ensures ReconcileTick(a, true, Some([LiveCharge(chargeId, s)]), now) == a
  {
  }
}
