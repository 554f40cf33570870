/** The subscription row, the plan it points at, and the access decision of
    packages/billing/src/plans.ts. Instants are milliseconds since 1970. */
module Plans {
  import Calendar
  import opened Wrappers

  const DAY_MS := Calendar.DAY_MS
  const TRIAL_GRACE_DAYS := 2

  datatype Status = TRIALING | CHARGE_PENDING | ACTIVE | PAST_DUE | CANCELLED | TRIAL_EXPIRED | EXPIRED | SUSPENDED

  datatype Interval = MONTHLY | YEARLY

  datatype Meter = AI_CALLS | EMAILS_SENT | SMS_SENT | AUTOMATION_RUNS

  datatype Quotas = Quotas(aiCalls: nat, emails: nat, sms: nat, automationRuns: nat)

  datatype Plan = Plan(code: string, trialDays: int, quotas: Quotas)

  datatype Sub = Sub(
    plan: Plan, status: Status, chargeId: Option<string>, interval: Option<Interval>,
    trialEndsAt: Option<int>, periodStart: Option<int>, periodEnd: Option<int>,
    graceEndsAt: Option<int>, cancelledAt: Option<int>, updatedAt: int)

  function QuotaForMeter(quotas: Quotas, meter: Meter): nat {
    match meter
    case AI_CALLS => quotas.aiCalls
    case EMAILS_SENT => quotas.emails
    case SMS_SENT => quotas.sms
    case AUTOMATION_RUNS => quotas.automationRuns
  }

  predicate After(d: Option<int>, now: int) {
    d.Some? && d.value > now
  }

  /** evaluateAccess: may the store run revenue actions at `now`? */
  predicate AccessAllowed(sub: Sub, now: int) {
    match sub.status
    case TRIALING => After(sub.trialEndsAt, now)
    case CHARGE_PENDING => After(sub.trialEndsAt, now) || After(sub.graceEndsAt, now) || After(sub.periodEnd, now)
    case ACTIVE => true
    case PAST_DUE => After(sub.graceEndsAt, now)
    case CANCELLED => After(sub.periodEnd, now)
    case TRIAL_EXPIRED => false
    case EXPIRED => false
    case SUSPENDED => false
  }
}
