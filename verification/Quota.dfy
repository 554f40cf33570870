/** The quota gate of packages/billing/src/billing.service.ts and the senders that pass through it:
    campaign batches, which ask for a whole batch, and workflow sends, which ask for one unit. */
module Quota {
  import opened Wrappers
  import opened Plans

  datatype Window = Window(from: int, to: int)

  /** The send ledgers of one meter: recovery emails by execution, campaign SENT events and completed
      workflow send steps, each with the instant it counts at. */
  datatype Usage = Usage(recovery: seq<(int, nat)>, campaign: seq<int>, workflow: seq<int>)

  function UsageWindowFor(sub: Option<Sub>, installedAt: int, now: int): Window {
    if sub.Some? && sub.value.periodStart.Some? then
      Window(sub.value.periodStart.value, if sub.value.periodEnd.Some? then sub.value.periodEnd.value else now)
    else if sub.Some? && sub.value.status == TRIALING && sub.value.trialEndsAt.Some? then
      Window(installedAt, sub.value.trialEndsAt.value)
    else Window(installedAt, now)
  }

  predicate In(w: Window, t: int) {
    w.from <= t < w.to
  }

  function CountTimes(times: seq<int>, w: Window): nat {
    if times == [] then 0
    else CountTimes(times[..|times| - 1], w) + if In(w, times[|times| - 1]) then 1 else 0
  }

  function CountRecovery(runs: seq<(int, nat)>, w: Window): nat {
    if runs == [] then 0
    else CountRecovery(runs[..|runs| - 1], w) + if In(w, runs[|runs| - 1].0) then runs[|runs| - 1].1 else 0
  }

  function CountUsage(u: Usage, w: Window): nat {
    CountRecovery(u.recovery, w) + CountTimes(u.campaign, w) + CountTimes(u.workflow, w)
  }

  datatype Verdict = Allowed | SubscriptionInactive | QuotaExceeded

  /** The store as the gate sees it; `override` is a live support grant. */
  datatype Store = Store(sub: Option<Sub>, override: bool, installedAt: int, meter: Meter)

  function CheckEntitlement(s: Store, u: Usage, units: nat, now: int): Verdict {
    if (s.sub.None? || !AccessAllowed(s.sub.value, now)) && !s.override then SubscriptionInactive
    else if s.sub.None? then SubscriptionInactive
    else if CountUsage(u, UsageWindowFor(s.sub, s.installedAt, now)) + units > Limit(s) then QuotaExceeded
    else Allowed
  }

  function Limit(s: Store): nat {
    if s.sub.None? then 0 else QuotaForMeter(s.sub.value.plan.quotas, s.meter)
  }

  datatype Step =
    | CampaignBatch(now: int, sentAt: seq<int>)
    | WorkflowSend(now: int, completedAt: int)

  /** One check and the sends it lets through; a batch records at most batchSize sends. */
  function Apply(s: Store, u: Usage, step: Step, batchSize: nat): Usage {
    match step
    case CampaignBatch(now, sentAt) =>
      if CheckEntitlement(s, u, batchSize, now) == Allowed && |sentAt| <= batchSize
      then u.(campaign := u.campaign + sentAt) else u
    case WorkflowSend(now, completedAt) =>
      if CheckEntitlement(s, u, 1, now) == Allowed then u.(workflow := u.workflow + [completedAt]) else u
  }

  function Run(s: Store, u: Usage, steps: seq<Step>, batchSize: nat): Usage {
    if steps == [] then u else Apply(s, Run(s, u, steps[..|steps| - 1], batchSize), steps[|steps| - 1], batchSize)
  }

  // The window no longer depends on the instant it is asked for.
  predicate FixedWindow(s: Store) {
    && s.sub.Some?
    && if s.sub.value.periodStart.Some? then s.sub.value.periodEnd.Some?
       else s.sub.value.status == TRIALING && s.sub.value.trialEndsAt.Some?
  }

  lemma {:induction false} CountAppended(a: seq<int>, b: seq<int>, w: Window)
    ensures CountTimes(a, w) <= CountTimes(a + b, w) <= CountTimes(a, w) + |b|
    ensures (forall i :: 0 <= i < |b| ==> !In(w, b[i])) ==> CountTimes(a + b, w) == CountTimes(a, w)
  {
    if b == [] {
      assert a + b == a;
    } else {
      var n := |b| - 1;
      assert (a + b)[..|a| + n] == a + b[..n];
      CountAppended(a, b[..n], w);
    }
  }

  lemma StepWithinQuota(s: Store, u: Usage, step: Step, batchSize: nat, w: Window)
    requires FixedWindow(s) && CountUsage(u, w) <= Limit(s)
    requires forall now :: UsageWindowFor(s.sub, s.installedAt, now) == w
    ensures CountUsage(u, w) <= CountUsage(Apply(s, u, step, batchSize), w) <= Limit(s)
  {
    match step
    case CampaignBatch(now, sentAt) =>
      assert UsageWindowFor(s.sub, s.installedAt, now) == w;
      CountAppended(u.campaign, sentAt, w);
    case WorkflowSend(now, completedAt) =>
      assert UsageWindowFor(s.sub, s.installedAt, now) == w;
      CountAppended(u.workflow, [completedAt], w);
  }

  /** For a fixed plan and window, started within the quota, no sequence of campaign batches and
      workflow sends, each check and its sends uninterrupted, takes the metered usage over the limit. */
  lemma {:induction false} QuotaHolds(s: Store, u: Usage, steps: seq<Step>, batchSize: nat, now: int)
    requires FixedWindow(s) && CountUsage(u, UsageWindowFor(s.sub, s.installedAt, now)) <= Limit(s)
    ensures CountUsage(Run(s, u, steps, batchSize), UsageWindowFor(s.sub, s.installedAt, now)) <= Limit(s)
  {
    if steps != [] {
      QuotaHolds(s, u, steps[..|steps| - 1], batchSize, now);
      StepWithinQuota(s, Run(s, u, steps[..|steps| - 1], batchSize), steps[|steps| - 1], batchSize,
                      UsageWindowFor(s.sub, s.installedAt, now));
    }
  }

  /** A batch that would fit is refused exactly when a full one would not: the gate asks for batchSize
      units however few recipients are left. A plan limit below batchSize refuses every campaign. */
  lemma SmallBatchRefused(s: Store, u: Usage, pending: nat, batchSize: nat, now: int)
    requires s.sub.Some? && (AccessAllowed(s.sub.value, now) || s.override) && pending <= batchSize
    requires CountUsage(u, UsageWindowFor(s.sub, s.installedAt, now)) + pending <= Limit(s)
    ensures CheckEntitlement(s, u, batchSize, now) != Allowed <==>
            CountUsage(u, UsageWindowFor(s.sub, s.installedAt, now)) > Limit(s) - batchSize
    ensures Limit(s) < batchSize ==> CheckEntitlement(s, u, batchSize, now) == QuotaExceeded
  {
  }

  predicate AllAfter(steps: seq<Step>, t: int) {
    forall i :: 0 <= i < |steps| ==>
      match steps[i]
      case CampaignBatch(now, sentAt) => forall k :: 0 <= k < |sentAt| ==> t <= sentAt[k]
      case WorkflowSend(now, completedAt) => t <= completedAt
  }

  /** Sends at or after the end of the window are never counted, and nothing moves a paid period on:
      an active store let through once after its period is let through for ever. */
  lemma {:induction false} UnmeteredAfterPeriod(s: Store, u: Usage, steps: seq<Step>, batchSize: nat, units: nat,
          now: int, later: int)
    requires s.sub.Some? && s.sub.value.status == ACTIVE && s.sub.value.periodStart.Some? && s.sub.value.periodEnd.Some?
    requires AllAfter(steps, s.sub.value.periodEnd.value)
    ensures CheckEntitlement(s, Run(s, u, steps, batchSize), units, later) == CheckEntitlement(s, u, units, now)
  {
    if steps != [] {
      var n := |steps| - 1;
      var before, step := Run(s, u, steps[..n], batchSize), steps[n];
      var w := UsageWindowFor(s.sub, s.installedAt, now);
      assert AllAfter(steps[..n], s.sub.value.periodEnd.value);
      UnmeteredAfterPeriod(s, u, steps[..n], batchSize, units, now, later);
      match step
      case CampaignBatch(_, sentAt) =>
        CountAppended(before.campaign, sentAt, w);
      case WorkflowSend(_, completedAt) =>
        CountAppended(before.workflow, [completedAt], w);
    }
  }

  // ---- what an answer means ----

  // The ends that keep a store of this status going.
  function Ends(sub: Sub): set<int> {
    (if sub.status in {TRIALING, CHARGE_PENDING} && sub.trialEndsAt.Some? then {sub.trialEndsAt.value} else {})
    + (if sub.status in {PAST_DUE, CHARGE_PENDING} && sub.graceEndsAt.Some? then {sub.graceEndsAt.value} else {})
    + (if sub.status in {CANCELLED, CHARGE_PENDING} && sub.periodEnd.Some? then {sub.periodEnd.value} else {})
  }

  // An active store may act; any other one before one of its ends, or on a support override.
  ghost predicate MayAct(s: Store, now: int) {
    s.sub.Some? && (s.override || s.sub.value.status == ACTIVE || exists end :: end in Ends(s.sub.value) && now < end)
  }

  // From the paid period's start, or else the installation, up to the period's or the trial's end, or else the present.
  predicate Counted(s: Store, now: int, t: int)
    requires s.sub.Some?
  {
    var sub := s.sub.value;
    if sub.periodStart.Some? then
      sub.periodStart.value <= t && if sub.periodEnd.Some? then t < sub.periodEnd.value else t < now
    else
      && s.installedAt <= t
      && if sub.status == TRIALING && sub.trialEndsAt.Some? then t < sub.trialEndsAt.value else t < now
  }

  // The sends of a ledger that count, one by one.
  function CountedSends(s: Store, times: seq<int>, now: int): set<nat>
    requires s.sub.Some?
  {
    set i: nat | i < |times| && Counted(s, now, times[i])
  }

  // The emails of the recovery ledger that count: email k of execution i.
  function CountedEmails(s: Store, runs: seq<(int, nat)>, now: int): set<(nat, nat)>
    requires s.sub.Some?
  {
    set i: nat, k: nat | i < |runs| && k < runs[i].1 && Counted(s, now, runs[i].0) :: (i, k)
  }

  ghost predicate HasRoom(s: Store, u: Usage, units: nat, now: int)
    requires s.sub.Some?
  {
    var emails := |CountedEmails(s, u.recovery, now)|;
    var used := emails + |CountedSends(s, u.campaign, now)| + |CountedSends(s, u.workflow, now)|;
    var quotas := s.sub.value.plan.quotas;
    && (s.meter == EMAILS_SENT ==> used + units <= quotas.emails)
    && (s.meter == SMS_SENT ==> used + units <= quotas.sms)
    && (s.meter == AI_CALLS ==> used + units <= quotas.aiCalls)
    && (s.meter == AUTOMATION_RUNS ==> used + units <= quotas.automationRuns)
  }

  lemma {:induction false} TimesAreSends(s: Store, times: seq<int>, now: int)
    requires s.sub.Some?
    ensures CountTimes(times, UsageWindowFor(s.sub, s.installedAt, now)) == |CountedSends(s, times, now)|
  {
    if times != [] {
      var n := |times| - 1;
      TimesAreSends(s, times[..n], now);
      var before := CountedSends(s, times[..n], now);
      assert CountedSends(s, times, now) == before + if Counted(s, now, times[n]) then {n} else {};
    }
  }

  function Row(i: nat, size: nat): set<(nat, nat)> {
    set k: nat | k < size :: (i, k)
  }

  lemma {:induction false} RowSize(i: nat, size: nat)
    ensures |Row(i, size)| == size
  {
    if size > 0 {
      RowSize(i, size - 1);
      assert Row(i, size) == Row(i, size - 1) + {(i, size - 1)};
    }
  }

  lemma WindowIsCounted(s: Store, now: int, t: int)
    requires s.sub.Some?
    ensures In(UsageWindowFor(s.sub, s.installedAt, now), t) <==> Counted(s, now, t)
  {
  }

  lemma EmailsGrow(s: Store, runs: seq<(int, nat)>, now: int)
    requires s.sub.Some? && runs != []
    ensures var n := |runs| - 1;
            var before := CountedEmails(s, runs[..n], now);
            var row := if Counted(s, now, runs[n].0) then Row(n, runs[n].1) else {};
            CountedEmails(s, runs, now) == before + row && before !! row
  {
    var n := |runs| - 1;
    var before := CountedEmails(s, runs[..n], now);
    var row := if Counted(s, now, runs[n].0) then Row(n, runs[n].1) else {};
    hide Counted;
    forall e
      ensures e in CountedEmails(s, runs, now) <==> e in before + row
    {
    }
  }

  lemma {:induction false} RecoveryIsEmails(s: Store, runs: seq<(int, nat)>, now: int)
    requires s.sub.Some?
    ensures CountRecovery(runs, UsageWindowFor(s.sub, s.installedAt, now)) == |CountedEmails(s, runs, now)|
  {
    if runs != [] {
      var n := |runs| - 1;
      RecoveryIsEmails(s, runs[..n], now);
      EmailsGrow(s, runs, now);
      RowSize(n, runs[n].1);
      WindowIsCounted(s, now, runs[n].0);
      hide CountedEmails, Row, Counted, In, UsageWindowFor;
    }
  }

  lemma AccessIff(s: Store, now: int)
    requires s.sub.Some?
    ensures AccessAllowed(s.sub.value, now) || s.override <==> MayAct(s, now)
  {
    var sub := s.sub.value;
    if sub.trialEndsAt.Some? && sub.status in {TRIALING, CHARGE_PENDING} {
      assert sub.trialEndsAt.value in Ends(sub);
    }
    if sub.graceEndsAt.Some? && sub.status in {PAST_DUE, CHARGE_PENDING} {
      assert sub.graceEndsAt.value in Ends(sub);
    }
    if sub.periodEnd.Some? && sub.status in {CANCELLED, CHARGE_PENDING} {
      assert sub.periodEnd.value in Ends(sub);
    }
  }

  /** A request is let through if and only if the store may act at that instant and the sends counted so
      far leave room for all of it under the meter's own quota; a store that may not act is told so,
      whatever it has used, and only a store that may act is told that its quota is used up. */
  lemma EntitlementIff(s: Store, u: Usage, units: nat, now: int)
    ensures CheckEntitlement(s, u, units, now) == SubscriptionInactive <==> !MayAct(s, now)
    ensures CheckEntitlement(s, u, units, now) == Allowed <==> MayAct(s, now) && HasRoom(s, u, units, now)
  {
    if s.sub.Some? {
      AccessIff(s, now);
      TimesAreSends(s, u.campaign, now);
      TimesAreSends(s, u.workflow, now);
      RecoveryIsEmails(s, u.recovery, now);
      hide MayAct, CountedSends, CountedEmails, AccessAllowed, CountTimes, CountRecovery;
    }
  }

  // Step i let the sends through: the store could act, and all the step asked for fitted.
  ghost predicate LetThrough(s: Store, u: Usage, steps: seq<Step>, batchSize: nat, i: nat)
    requires i < |steps|
  {
    var before := Run(s, u, steps[..i], batchSize);
    && MayAct(s, steps[i].now)
    && HasRoom(s, before, if steps[i].CampaignBatch? then batchSize else 1, steps[i].now)
  }

  // The campaign send at t is one of step i's, and likewise for a workflow send.
  ghost predicate SentBy(s: Store, u: Usage, steps: seq<Step>, batchSize: nat, t: int, i: nat) {
    && i < |steps| && LetThrough(s, u, steps, batchSize, i)
    && steps[i].CampaignBatch? && t in steps[i].sentAt && |steps[i].sentAt| <= batchSize
  }

  ghost predicate CompletedBy(s: Store, u: Usage, steps: seq<Step>, batchSize: nat, t: int, i: nat) {
    i < |steps| && LetThrough(s, u, steps, batchSize, i) && steps[i] == WorkflowSend(steps[i].now, t)
  }

  ghost predicate SomeoneSent(s: Store, u: Usage, steps: seq<Step>, batchSize: nat, t: int) {
    exists i: nat :: SentBy(s, u, steps, batchSize, t, i)
  }

  ghost predicate SomeoneCompleted(s: Store, u: Usage, steps: seq<Step>, batchSize: nat, t: int) {
    exists i: nat :: CompletedBy(s, u, steps, batchSize, t, i)
  }

  // Everything recorded since u was let through by the step that sent it.
  ghost predicate Entitled(s: Store, u: Usage, steps: seq<Step>, batchSize: nat) {
    var after := Run(s, u, steps, batchSize);
    && after.recovery == u.recovery && u.campaign <= after.campaign && u.workflow <= after.workflow
    && (forall j :: |u.campaign| <= j < |after.campaign| ==>
          SomeoneSent(s, u, steps, batchSize, after.campaign[j]))
    && (forall j :: |u.workflow| <= j < |after.workflow| ==>
          SomeoneCompleted(s, u, steps, batchSize, after.workflow[j]))
  }

  lemma EarlierStep(s: Store, u: Usage, steps: seq<Step>, batchSize: nat, i: nat)
    requires i < |steps| - 1
    ensures LetThrough(s, u, steps[..|steps| - 1], batchSize, i) ==> LetThrough(s, u, steps, batchSize, i)
  {
    assert steps[..|steps| - 1][..i] == steps[..i];
  }

  lemma LastStepIsEntitled(s: Store, u: Usage, steps: seq<Step>, batchSize: nat)
    requires steps != []
    ensures var n, before := |steps| - 1, Run(s, u, steps[..|steps| - 1], batchSize);
            Run(s, u, steps, batchSize)
            == (if !LetThrough(s, u, steps, batchSize, n) then before
                else match steps[n]
                     case CampaignBatch(_, sentAt) =>
                       if |sentAt| <= batchSize then before.(campaign := before.campaign + sentAt) else before
                     case WorkflowSend(_, t) => before.(workflow := before.workflow + [t]))
  {
    var n := |steps| - 1;
    EntitlementIff(s, Run(s, u, steps[..n], batchSize), if steps[n].CampaignBatch? then batchSize else 1, steps[n].now);
    hide MayAct, HasRoom, CheckEntitlement;
  }

  lemma {:induction false} CampaignSendsAreEntitled(s: Store, u: Usage, steps: seq<Step>, batchSize: nat, j: nat)
    requires |u.campaign| <= j < |Run(s, u, steps, batchSize).campaign|
    ensures SomeoneSent(s, u, steps, batchSize, Run(s, u, steps, batchSize).campaign[j])
  {
    if steps != [] {
      var n := |steps| - 1;
      var before, after := Run(s, u, steps[..n], batchSize), Run(s, u, steps, batchSize);
      LastStepIsEntitled(s, u, steps, batchSize);
      hide LetThrough, Run;
      if j < |before.campaign| {
        CampaignSendsAreEntitled(s, u, steps[..n], batchSize, j);
        var i: nat :| SentBy(s, u, steps[..n], batchSize, before.campaign[j], i);
        EarlierStep(s, u, steps, batchSize, i);
        assert SentBy(s, u, steps, batchSize, after.campaign[j], i);
      } else {
        assert SentBy(s, u, steps, batchSize, after.campaign[j], n);
      }
    }
  }

  lemma {:induction false} WorkflowSendsAreEntitled(s: Store, u: Usage, steps: seq<Step>, batchSize: nat, j: nat)
    requires |u.workflow| <= j < |Run(s, u, steps, batchSize).workflow|
    ensures SomeoneCompleted(s, u, steps, batchSize, Run(s, u, steps, batchSize).workflow[j])
  {
    if steps != [] {
      var n := |steps| - 1;
      var before, after := Run(s, u, steps[..n], batchSize), Run(s, u, steps, batchSize);
      LastStepIsEntitled(s, u, steps, batchSize);
      hide LetThrough, Run;
      if j < |before.workflow| {
        WorkflowSendsAreEntitled(s, u, steps[..n], batchSize, j);
        var i: nat :| CompletedBy(s, u, steps[..n], batchSize, before.workflow[j], i);
        EarlierStep(s, u, steps, batchSize, i);
        assert CompletedBy(s, u, steps, batchSize, after.workflow[j], i);
      } else {
        assert CompletedBy(s, u, steps, batchSize, after.workflow[j], n);
      }
    }
  }

  lemma {:induction false} LedgersGrow(s: Store, u: Usage, steps: seq<Step>, batchSize: nat)
    ensures var after := Run(s, u, steps, batchSize);
            after.recovery == u.recovery && u.campaign <= after.campaign && u.workflow <= after.workflow
  {
    if steps != [] {
      LedgersGrow(s, u, steps[..|steps| - 1], batchSize);
      hide CheckEntitlement;
    }
  }

  /** Over any run every send recorded went out in a step at whose instant the store could act and had
      room for all the step asked for. */
  lemma SendsAreEntitled(s: Store, u: Usage, steps: seq<Step>, batchSize: nat)
    ensures Entitled(s, u, steps, batchSize)
  {
    LedgersGrow(s, u, steps, batchSize);
    var after := Run(s, u, steps, batchSize);
    hide SomeoneSent, SomeoneCompleted;
    forall j | |u.campaign| <= j < |after.campaign|
      ensures SomeoneSent(s, u, steps, batchSize, after.campaign[j])
    {
      CampaignSendsAreEntitled(s, u, steps, batchSize, j);
    }
    forall j | |u.workflow| <= j < |after.workflow|
      ensures SomeoneCompleted(s, u, steps, batchSize, after.workflow[j])
    {
      WorkflowSendsAreEntitled(s, u, steps, batchSize, j);
    }
  }

  /** While a store may not act, nothing goes out and nothing is metered. */
  lemma InactiveSendsNothing(s: Store, u: Usage, steps: seq<Step>, batchSize: nat)
    requires forall i :: 0 <= i < |steps| ==> !MayAct(s, steps[i].now)
    ensures Run(s, u, steps, batchSize) == u
  {
    LedgersGrow(s, u, steps, batchSize);
    var after := Run(s, u, steps, batchSize);
    hide MayAct, HasRoom, Run;
    if |after.campaign| > |u.campaign| {
      CampaignSendsAreEntitled(s, u, steps, batchSize, |u.campaign|);
    }
    if |after.workflow| > |u.workflow| {
      WorkflowSendsAreEntitled(s, u, steps, batchSize, |u.workflow|);
    }
  }
}
