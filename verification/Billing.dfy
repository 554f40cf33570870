/** What each call of packages/billing/src/billing.service.ts, and each store's share of the two
    daily ticks, does to a store's subscription row and its append-only ledger. */
module Billing {
  import opened Wrappers
  import opened Plans

  const MAX_PRESERVED_TRIAL_DAYS := 90
  const PENDING_DECISION_LIMIT_DAYS := 7

  datatype Kind =
    | TrialStarted | TrialExtended | TrialEnded | NudgeSent
    | ChargeCreated | ChargeAccepted | ChargeDeclined | ChargeCancelled | ChargeReconciled
    | SubscriptionSuspended

  /** A billing_events row. `days` is the day count its metadata carries: the days added by an
      extension, the trial days put on a charge, the number of a nudge. */
  datatype Entry = Entry(kind: Kind, from: Option<Status>, to: Option<Status>, chargeId: Option<string>, days: int)

  datatype Account = Account(sub: Option<Sub>, ledger: seq<Entry>)

  datatype LiveStatus =
    | LivePending | LiveActive | LiveDeclined | LiveCancelled | LiveExpired | LiveAccepted | LiveFrozen

  datatype LiveCharge = LiveCharge(chargeId: string, status: LiveStatus)

  /** What a store's row in `stores` contributes to the trial tick. */
  datatype Store = Store(active: bool, installedAt: int, hasEmail: bool)

  const NEW_ACCOUNT := Account(None, [])

  function StatusOf(a: Account): Option<Status> {
    if a.sub.None? then None else Some(a.sub.value.status)
  }

  // Every write updates the row and appends its event in one transaction.
  function Record(a: Account, row: Sub, e: Entry): Account {
    Account(Some(row), a.ledger + [e])
  }

  function Max(a: int, b: int): int {
    if a < b then b else a
  }

  function Min(a: int, b: int): int {
    if a < b then a else b
  }

  function CeilDays(ms: int): (d: int)
    ensures (d - 1) * DAY_MS < ms <= d * DAY_MS
  {
    -(-ms / DAY_MS)
  }

  function RemainingTrialDays(sub: Option<Sub>, now: int): (d: int)
    ensures 0 <= d <= MAX_PRESERVED_TRIAL_DAYS
    ensures d > 0 <==> sub.Some? && sub.value.status in {TRIALING, CHARGE_PENDING} && After(sub.value.trialEndsAt, now)
    ensures d > 0 ==> (d - 1) * DAY_MS < sub.value.trialEndsAt.value - now
    ensures 0 < d < MAX_PRESERVED_TRIAL_DAYS ==> sub.value.trialEndsAt.value - now <= d * DAY_MS
  {
    if sub.None? then 0
    else if sub.value.status != TRIALING && sub.value.status != CHARGE_PENDING then 0
    else if sub.value.trialEndsAt.None? then 0
    else Min(MAX_PRESERVED_TRIAL_DAYS, Max(0, CeilDays(sub.value.trialEndsAt.value - now)))
  }

  // ---- trials ----

  /** startTrial, when the catalogue lookup gave `plan`. */
  function DoStartTrial(a: Account, plan: Option<Plan>, now: int): Account {
    if a.sub.Some? || plan.None? then a
    else
      var T := now + plan.value.trialDays * DAY_MS;
      Record(a, Sub(plan.value, TRIALING, None, None, Some(T), None, None, None, None, now),
             Entry(TrialStarted, None, Some(TRIALING), None, plan.value.trialDays))
  }

  predicate MayExtend(a: Account, days: int) {
    1 <= days <= 90 && a.sub.Some? && (a.sub.value.status == TRIALING || a.sub.value.status == TRIAL_EXPIRED)
  }

  function DoExtendTrial(a: Account, days: int, now: int): Account {
    if !MayExtend(a, days) then a
    else
      var sub := a.sub.value;
      var base := if sub.status == TRIALING && After(sub.trialEndsAt, now) then sub.trialEndsAt.value else now;
      Record(a, sub.(status := TRIALING, trialEndsAt := Some(base + days * DAY_MS), updatedAt := now),
             Entry(TrialExtended, Some(sub.status), Some(TRIALING), None, days))
  }

  // ---- charges ----

  predicate MaySubscribe(a: Account, plan: Option<Plan>, providerUp: bool) {
    providerUp && StatusOf(a) != Some(ACTIVE) && plan.Some?
  }

  /** subscribe, when the provider answered with `chargeId`. */
  function DoSubscribe(a: Account, plan: Option<Plan>, interval: Interval, providerUp: bool, chargeId: string,
          now: int): Account {
    if !MaySubscribe(a, plan, providerUp) then a
    else
      var e := Entry(ChargeCreated, StatusOf(a), Some(CHARGE_PENDING), Some(chargeId), RemainingTrialDays(a.sub, now));
      var T := if a.sub.Some? && a.sub.value.trialEndsAt.Some? then a.sub.value.trialEndsAt.value
               else now + plan.value.trialDays * DAY_MS;
      var grace := Some(T + TRIAL_GRACE_DAYS * DAY_MS);
      if a.sub.None? then
        Record(a, Sub(plan.value, CHARGE_PENDING, Some(chargeId), Some(interval), Some(T), None, None, grace, None,
            now), e)
      else
        Record(a, a.sub.value.(plan := plan.value, status := CHARGE_PENDING, chargeId := Some(chargeId),
                               interval := Some(interval), graceEndsAt := grace, updatedAt := now), e)
  }

  predicate Pending(a: Account) {
    StatusOf(a) == Some(CHARGE_PENDING)
  }

  function FindLive(live: seq<LiveCharge>, chargeId: Option<string>): (r: Option<LiveStatus>)
    ensures r.Some? ==> chargeId.Some? && LiveCharge(chargeId.value, r.value) in live
    ensures r.None? ==> forall c :: c in live ==> chargeId != Some(c.chargeId)
  {
    if chargeId.None? || live == [] then None
    else if live[0].chargeId == chargeId.value then Some(live[0].status)
    else FindLive(live[1..], chargeId)
  }

  datatype Verdict = Accepted | Refused | Undecided

  function VerdictOf(found: Option<LiveStatus>): Verdict {
    match found
    case None => Refused
    case Some(s) =>
      if s == LiveActive || s == LiveAccepted then Accepted
      else if s == LiveDeclined || s == LiveCancelled || s == LiveExpired then Refused
      else Undecided
  }

  /** The i-th live charge is the first with the stored id. */
  predicate IsListed(live: seq<LiveCharge>, chargeId: Option<string>, i: nat) {
    && i < |live| && chargeId == Some(live[i].chargeId)
    && forall k :: 0 <= k < i ==> live[k].chargeId != live[i].chargeId
  }

  predicate ListedAs(live: seq<LiveCharge>, chargeId: Option<string>, statuses: set<LiveStatus>) {
    exists i: nat :: i < |live| && IsListed(live, chargeId, i) && live[i].status in statuses
  }

  predicate Unlisted(live: seq<LiveCharge>, chargeId: Option<string>) {
    forall i :: 0 <= i < |live| ==> chargeId != Some(live[i].chargeId)
  }

  lemma {:induction false} FindLiveIff(live: seq<LiveCharge>, chargeId: Option<string>, s: LiveStatus)
    ensures FindLive(live, chargeId) == Some(s) <==> ListedAs(live, chargeId, {s})
    ensures FindLive(live, chargeId).None? <==> Unlisted(live, chargeId)
  {
    if chargeId.Some? && live != [] {
      if live[0].chargeId == chargeId.value {
        assert IsListed(live, chargeId, 0);
      } else {
        FindLiveIff(live[1..], chargeId, s);
        if i: nat :| i < |live[1..]| && IsListed(live[1..], chargeId, i) && live[1..][i].status in {s} {
          assert IsListed(live, chargeId, i + 1);
        }
        if i: nat :| i < |live| && IsListed(live, chargeId, i) && live[i].status in {s} {
          assert i > 0 && IsListed(live[1..], chargeId, i - 1);
        }
        assert Unlisted(live[1..], chargeId) ==> Unlisted(live, chargeId);
      }
    }
  }

  /** The verdict is read off the first live charge with the stored id: ACTIVE and ACCEPTED accept;
      DECLINED, CANCELLED, EXPIRED and a charge that is not listed refuse; PENDING and FROZEN leave it open. */
  lemma VerdictIff(live: seq<LiveCharge>, chargeId: Option<string>)
    ensures var v := VerdictOf(FindLive(live, chargeId));
            && (v == Accepted <==> ListedAs(live, chargeId, {LiveActive, LiveAccepted}))
            && (v == Refused <==> Unlisted(live, chargeId)
                                  || ListedAs(live, chargeId, {LiveDeclined, LiveCancelled, LiveExpired}))
            && (v == Undecided <==> ListedAs(live, chargeId, {LivePending, LiveFrozen}))
  {
    forall s: LiveStatus
      ensures FindLive(live, chargeId) == Some(s) <==> ListedAs(live, chargeId, {s})
      ensures FindLive(live, chargeId).None? <==> Unlisted(live, chargeId)
    {
      FindLiveIff(live, chargeId, s);
    }
    ListedOnce(live, chargeId, {LiveActive, LiveAccepted});
    ListedOnce(live, chargeId, {LiveDeclined, LiveCancelled, LiveExpired});
    ListedOnce(live, chargeId, {LivePending, LiveFrozen});
    hide FindLive, Unlisted, ListedAs;
  }

  lemma ListedOnce(live: seq<LiveCharge>, chargeId: Option<string>, statuses: set<LiveStatus>)
    ensures ListedAs(live, chargeId, statuses) <==> exists s :: s in statuses && ListedAs(live, chargeId, {s})
  {
    if i: nat :| i < |live| && IsListed(live, chargeId, i) && live[i].status in statuses {
      assert ListedAs(live, chargeId, {live[i].status});
    }
  }

  function CycleDays(i: Option<Interval>): int {
    if i == Some(YEARLY) then 365 else 30
  }

  function Activate(a: Account, now: int): Account
    requires Pending(a)
  {
    var sub := a.sub.value;
    var end := now + (RemainingTrialDays(a.sub, now) + CycleDays(sub.interval)) * DAY_MS;
    Record(a, sub.(status := ACTIVE, periodStart := Some(now), periodEnd := Some(end), cancelledAt := None,
        updatedAt := now),
           Entry(ChargeAccepted, Some(CHARGE_PENDING), Some(ACTIVE), sub.chargeId, RemainingTrialDays(a.sub, now)))
  }

  // Lines 443-444 and 473-474: the trial if it is still running.
  function Fallback(sub: Sub, now: int): Status {
    if After(sub.trialEndsAt, now) then TRIALING else TRIAL_EXPIRED
  }

  function FallBack(a: Account, chargeId: Option<string>, now: int): Account
    requires Pending(a)
  {
    var sub := a.sub.value;
    Record(a, sub.(status := Fallback(sub, now), updatedAt := now),
           Entry(ChargeDeclined, Some(CHARGE_PENDING), Some(Fallback(sub, now)), chargeId, 0))
  }

  /** resolveChargeOutcome against the live charges, None when there is no provider. */
  function DoResolve(a: Account, provider: Option<seq<LiveCharge>>, now: int): Account {
    if !Pending(a) || provider.None? then a
    else
      match VerdictOf(FindLive(provider.value, a.sub.value.chargeId))
      case Accepted => Activate(a, now)
      case Refused => FallBack(a, a.sub.value.chargeId, now)
      case Undecided => a
  }

  /** settleStalePending: declined without asking the provider; its event carries no charge id. */
  function DoSettleStale(a: Account, now: int): Account {
    if !Pending(a) then a else FallBack(a, None, now)
  }

  predicate MayCancel(a: Account, providerUp: bool) {
    && a.sub.Some? && a.sub.value.chargeId.Some? && providerUp
    && (a.sub.value.status == ACTIVE || a.sub.value.status == CHARGE_PENDING || a.sub.value.status == PAST_DUE)
  }

  function DoCancel(a: Account, providerUp: bool, now: int): Account {
    if !MayCancel(a, providerUp) then a
    else
      var sub := a.sub.value;
      Record(a, sub.(status := CANCELLED, cancelledAt := Some(now), updatedAt := now),
             Entry(ChargeCancelled, Some(sub.status), Some(CANCELLED), sub.chargeId, 0))
  }

  // ---- the daily ticks, for one store ----

  function TrialOver(sub: Sub, now: int): bool {
    sub.status == TRIALING && sub.trialEndsAt.Some? && sub.trialEndsAt.value <= now
  }

  /** The number of the nudge due at `now`, if its time of day has come. */
  function NudgeDue(sub: Sub, store: Store, now: int): Option<int> {
    if sub.status != TRIALING || !After(sub.trialEndsAt, now) then None
    else
      var day := sub.plan.trialDays - CeilDays(sub.trialEndsAt.value - now) + 1;
      var elapsed := now - store.installedAt;
      if day < 1 || day > sub.plan.trialDays then None
      else if day > 1 && elapsed < (day - 1) * DAY_MS then None
      else if day == 1 && elapsed < DAY_MS / 2 then None
      else Some(day)
  }

  predicate Nudged(ledger: seq<Entry>, day: int) {
    exists e :: e in ledger && e.kind == NudgeSent && e.days == day
  }

  /** The number of the nudge a tick sends. */
  function NudgeToSend(a: Account, store: Store, mailer: bool, now: int): Option<int> {
    if !store.active || a.sub.None? || TrialOver(a.sub.value, now) then None
    else
      var day := NudgeDue(a.sub.value, store, now);
      if day.Some? && !Nudged(a.ledger, day.value) && mailer && store.hasEmail then day else None
  }

  /** The first loop of the trial tick for one store. */
  function ExpireOrNudge(a: Account, store: Store, mailer: bool, now: int): Account {
    if a.sub.None? then a
    else if TrialOver(a.sub.value, now) then
      Record(a, a.sub.value.(status := TRIAL_EXPIRED, graceEndsAt := Some(now + TRIAL_GRACE_DAYS * DAY_MS),
          updatedAt := now),
             Entry(TrialEnded, Some(TRIALING), Some(TRIAL_EXPIRED), None, 0))
    else
      var day := NudgeDue(a.sub.value, store, now);
      if day.Some? && !Nudged(a.ledger, day.value) && mailer && store.hasEmail
      then a.(ledger := a.ledger + [Entry(NudgeSent, None, None, None, day.value)])
      else a
  }

  predicate GraceOver(sub: Sub, now: int) {
    (sub.status == TRIAL_EXPIRED || sub.status == PAST_DUE) && sub.graceEndsAt.Some? && sub.graceEndsAt.value < now
  }

  /** The second loop of the trial tick for one store. */
  function SuspendOverdue(a: Account, now: int): Account {
    if a.sub.None? || !GraceOver(a.sub.value, now) then a
    else
      Record(a, a.sub.value.(status := SUSPENDED, updatedAt := now),
             Entry(SubscriptionSuspended, Some(a.sub.value.status), Some(SUSPENDED), None, 0))
  }

  function TrialTick(a: Account, store: Store, mailer: bool, now: int): Account {
    if !store.active then a else SuspendOverdue(ExpireOrNudge(a, store, mailer, now), now)
  }

  function ReconcilePending(a: Account, live: seq<LiveCharge>, now: int): Account
    requires Pending(a)
  {
    var age := now - a.sub.value.updatedAt;
    if age < DAY_MS then a
    else
      var asked := DoResolve(a, Some(live), now);
      if Pending(asked) && age > PENDING_DECISION_LIMIT_DAYS * DAY_MS then DoSettleStale(asked, now) else asked
  }

  function CancelDrift(a: Account, now: int): Account
    requires a.sub.Some?
  {
    Record(a, a.sub.value.(status := CANCELLED, cancelledAt := Some(now), updatedAt := now),
           Entry(ChargeReconciled, Some(a.sub.value.status), Some(CANCELLED), None, 0))
  }

  /** The reconcile tick for one store. */
  function ReconcileTick(a: Account, storeActive: bool, provider: Option<seq<LiveCharge>>, now: int): Account {
    if a.sub.None? || !storeActive || provider.None? then a
    else if a.sub.value.status == CHARGE_PENDING then ReconcilePending(a, provider.value, now)
    else if a.sub.value.status != ACTIVE && a.sub.value.status != PAST_DUE then a
    else if a.sub.value.chargeId.None? || FindLive(provider.value, a.sub.value.chargeId).Some? then a
    else CancelDrift(a, now)
  }

  // ---- runs ----

  datatype Op =
    | StartTrial(plan: Option<Plan>, now: int)
    | ExtendTrial(days: int, now: int)
    | Subscribe(plan: Option<Plan>, interval: Interval, providerUp: bool, chargeId: string, now: int)
    | Resolve(provider: Option<seq<LiveCharge>>, now: int)
    | SettleStale(now: int)
    | Cancel(providerUp: bool, now: int)
    | RunTrialTick(store: Store, mailer: bool, now: int)
    | RunReconcileTick(storeActive: bool, provider: Option<seq<LiveCharge>>, now: int)

  function Apply(a: Account, op: Op): Account {
    match op
    case StartTrial(plan, now) => DoStartTrial(a, plan, now)
    case ExtendTrial(days, now) => DoExtendTrial(a, days, now)
    case Subscribe(plan, interval, up, chargeId, now) => DoSubscribe(a, plan, interval, up, chargeId, now)
    case Resolve(provider, now) => DoResolve(a, provider, now)
    case SettleStale(now) => DoSettleStale(a, now)
    case Cancel(up, now) => DoCancel(a, up, now)
    case RunTrialTick(store, mailer, now) => TrialTick(a, store, mailer, now)
    case RunReconcileTick(active, provider, now) => ReconcileTick(a, active, provider, now)
  }

  function Run(ops: seq<Op>): Account {
    if ops == [] then NEW_ACCOUNT else Apply(Run(ops[..|ops| - 1]), ops[|ops| - 1])
  }
}
