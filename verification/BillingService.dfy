/** BillingService, TrialLifecycleService and ReconcileService over the whole store table. */
module BillingService {
  import opened Wrappers
  import opened Ids
  import opened Plans
  import opened Billing

  datatype Outcome = ACTIVATED | DECLINED | PENDING | NO_PENDING | PROVIDER_UNAVAILABLE

  function AccountOf(accounts: map<string, Account>, id: string): Account {
    if id in accounts then accounts[id] else NEW_ACCOUNT
  }

  /** The stores whose account satisfies p, in table order. */
  function Select(order: seq<string>, p: string -> bool): (r: seq<string>)
    ensures forall id :: id in r <==> id in order && p(id)
    ensures Distinct(order) ==> Distinct(r)
  {
    if order == [] then []
    else
      var n := |order| - 1;
      var before := Select(order[..n], p);
      assert order == order[..n] + [order[n]];
      assert forall id :: id in order <==> id in order[..n] || id == order[n];
      if p(order[n]) then before + [order[n]] else before
  }

  /** How many ids come before the first bad one. */
  function Before(ids: seq<string>, bad: set<string>): (k: nat)
    ensures k <= |ids| && (forall i :: 0 <= i < k ==> ids[i] !in bad) && (k < |ids| ==> ids[k] in bad)
  {
    if ids == [] then 0
    else
      var n := |ids| - 1;
      var k := Before(ids[..n], bad);
      if k < n || ids[n] in bad then k else |ids|
  }

  function Served(ids: seq<string>, bad: set<string>): seq<string> {
    ids[..Before(ids, bad)]
  }

  lemma ServedAppend(ids: seq<string>, id: string, bad: set<string>)
    ensures Before(ids, bad) == |ids| ==> Served(ids, bad) == ids
    ensures var stop := Before(ids, bad) < |ids| || id in bad;
            && Served(ids + [id], bad) == (if stop then Served(ids, bad) else ids + [id])
            && (Before(ids + [id], bad) < |ids + [id]| <==> stop)
  {
    var all := ids + [id];
    assert all[..|ids|] == ids;
    var k := Before(ids, bad);
    assert all[..k] == ids[..k];
    assert all[..|ids| + 1] == all;
  }

  // A loop over a selection stops at the same store as one over the table would.
  lemma {:induction false} SelectServed(order: seq<string>, p: string -> bool, bad: set<string>)
    requires forall id :: id in order && id in bad ==> p(id)
    ensures Served(Select(order, p), bad) == Select(Served(order, bad), p)
    ensures Before(order, bad) < |order| <==> Before(Select(order, p), bad) < |Select(order, p)|
  {
    if order != [] {
      var n := |order| - 1;
      var first, last := order[..n], order[n];
      var before := Select(first, p);
      assert order == first + [last];
      SelectAppend(first, last, p);
      hide Before, Select, Served;
      SelectServed(first, p, bad);
      ServedAppend(first, last, bad);
      ServedAppend(before, last, bad);
    }
  }

  lemma SelectAppend(ids: seq<string>, id: string, p: string -> bool)
    ensures Select(ids + [id], p) == if p(id) then Select(ids, p) + [id] else Select(ids, p)
  {
    assert (ids + [id])[..|ids|] == ids;
  }

  /** Sending this store's nudge fails, so the tick does. */
  predicate HasCharge(a: Account) {
    a.sub.Some? && a.sub.value.chargeId.Some?
  }

  predicate MailFails(a: Account, store: Store, mailer: bool, failing: bool, now: int) {
    failing && NudgeToSend(a, store, mailer, now).Some?
  }

  function MailFailures(accounts: map<string, Account>, stores: map<string, Store>, mailer: bool, failing: set<string>,
          now: int): set<string>
    requires accounts.Keys <= stores.Keys
  {
    set id | id in accounts && MailFails(accounts[id], stores[id], mailer, id in failing, now)
  }

  lemma OnlyTrialing(a: Account, store: Store, mailer: bool, now: int)
    requires StatusOf(a) != Some(TRIALING)
    ensures ExpireOrNudge(a, store, mailer, now) == a
    ensures a.sub.Some? ==> !TrialOver(a.sub.value, now)
  {
  }

  lemma OnlyTrialingFails(a: Account, store: Store, mailer: bool, now: int)
    requires NudgeToSend(a, store, mailer, now).Some?
    ensures store.active && StatusOf(a) == Some(TRIALING)
  {
  }

  lemma OnlyOverdue(a: Account, now: int)
    requires a.sub.None? || !GraceOver(a.sub.value, now)
    ensures SuspendOverdue(a, now) == a
  {
  }

  predicate Paid(a: Account) {
    StatusOf(a) == Some(ACTIVE) || StatusOf(a) == Some(PAST_DUE)
  }

  predicate Candidate(a: Account) {
    Pending(a) || Paid(a)
  }

  /** What a reconcile gets for a store: no provider, an error finding it, an error asking it, or the
      charges that are live. */
  datatype Answer = NoProvider | LookupFails | FetchFails | Live(charges: seq<LiveCharge>)

  function ChargesOf(answer: Answer): Option<seq<LiveCharge>> {
    if answer.Live? then Some(answer.charges) else None
  }

  /** The provider is asked about a decision open for a day, and about every stored charge. */
  predicate Asks(a: Account, now: int)
    requires Candidate(a)
  {
    if Pending(a) then now - a.sub.value.updatedAt >= DAY_MS else a.sub.value.chargeId.Some?
  }

  predicate ReconcileFails(a: Account, active: bool, answer: Answer, now: int) {
    active && Candidate(a) && (answer.LookupFails? || (answer.FetchFails? && Asks(a, now)))
  }

  function ReconcileFailures(accounts: map<string, Account>, stores: map<string, Store>, answers: map<string, Answer>,
          now: int): set<string>
    requires accounts.Keys <= stores.Keys && accounts.Keys <= answers.Keys
  {
    set id | id in accounts && ReconcileFails(accounts[id], stores[id].active, answers[id], now)
  }

  lemma NoProviderNoChange(a: Account, active: bool, now: int)
    ensures Billing.ReconcileTick(a, active, None, now) == a
  {
  }

  lemma StillPaid(a: Account)
    ensures Paid(a) ==> StatusOf(a) != Some(CANCELLED)
  {
  }

  lemma OnlyCandidates(a: Account, active: bool, provider: Option<seq<LiveCharge>>, now: int)
    requires !active || !Candidate(a)
    ensures Billing.ReconcileTick(a, active, provider, now) == a
  {
  }

  lemma ServedIff(order: seq<string>, p: string -> bool, bad: set<string>)
    requires forall id :: id in order && id in bad ==> p(id)
    ensures forall id :: id in Select(order, p)[..Before(Select(order, p), bad)] <==>
                         id in order[..Before(order, bad)] && p(id)
    ensures Before(order, bad) < |order| <==> Before(Select(order, p), bad) < |Select(order, p)|
  {
    SelectServed(order, p, bad);
  }

  // The pass over the trialing stores, seen as a pass over the table.
  lemma PassOverTable(order: seq<string>, p: string -> bool, before: map<string, Account>, after: map<string, Account>,
          stores: map<string, Store>, mailer: bool, bad: set<string>, now: int)
    requires (forall id :: id in order <==> id in before) && before.Keys <= stores.Keys
    requires forall id :: id in before ==> (p(id) <==> stores[id].active && StatusOf(before[id]) == Some(TRIALING))
    requires forall id :: id in bad ==> id in before && p(id)
    requires after.Keys == before.Keys && var some := Select(order, p); forall id :: id in after ==>
        after[id] == if id in some[..Before(some, bad)] then ExpireOrNudge(before[id], stores[id], mailer, now)
                     else before[id]
    ensures Before(Select(order, p), bad) < |Select(order, p)| <==> Before(order, bad) < |order|
    ensures after == map id | id in before ::
              if id in order[..Before(order, bad)] && stores[id].active
              then ExpireOrNudge(before[id], stores[id], mailer, now) else before[id]
  {
    hide ExpireOrNudge, Before, Select;
    ServedIff(order, p, bad);
    forall id | id in before && !p(id) && stores[id].active
      ensures ExpireOrNudge(before[id], stores[id], mailer, now) == before[id]
    {
      OnlyTrialing(before[id], stores[id], mailer, now);
    }
  }

  lemma CandidatesOverTable(order: seq<string>, p: string -> bool, before: map<string, Account>,
          after: map<string, Account>, stores: map<string, Store>, answers: map<string, Answer>,
          bad: set<string>, now: int)
    requires (forall id :: id in order <==> id in before) && before.Keys <= stores.Keys && before.Keys <= answers.Keys
    requires forall id :: id in before ==> (p(id) <==> stores[id].active && Candidate(before[id]))
    requires forall id :: id in bad ==> id in before && p(id)
    requires after.Keys == before.Keys && var some := Select(order, p); forall id :: id in after ==>
        after[id] == if id in some[..Before(some, bad)]
                     then Billing.ReconcileTick(before[id], true, ChargesOf(answers[id]), now) else before[id]
    ensures Before(Select(order, p), bad) < |Select(order, p)| <==> Before(order, bad) < |order|
    ensures after == map id | id in before ::
              if id in order[..Before(order, bad)]
              then Billing.ReconcileTick(before[id], stores[id].active, ChargesOf(answers[id]), now) else before[id]
    ensures forall id :: id in before && Paid(before[id]) && StatusOf(after[id]) == Some(CANCELLED) ==> p(id)
  {
    hide Billing.ReconcileTick, Before, Select, Candidate, Paid;
    ServedIff(order, p, bad);
    forall id | id in before
      ensures !p(id) ==> Billing.ReconcileTick(before[id], stores[id].active, ChargesOf(answers[id]), now) == before[id]
      ensures Paid(before[id]) && StatusOf(after[id]) == Some(CANCELLED) ==> p(id)
    {
      if !p(id) {
        OnlyCandidates(before[id], stores[id].active, ChargesOf(answers[id]), now);
        StillPaid(before[id]);
      }
    }
  }

  // Both passes together, when the first was not cut short.
  lemma BothPasses(before: map<string, Account>, middle: map<string, Account>, after: map<string, Account>,
          stores: map<string, Store>, mailer: bool, now: int)
    requires before.Keys <= stores.Keys && middle.Keys == before.Keys == after.Keys
    requires forall id :: id in before ==>
        middle[id] == if stores[id].active then ExpireOrNudge(before[id], stores[id], mailer, now) else before[id]
    requires forall id :: id in before ==>
        after[id] == if stores[id].active then SuspendOverdue(middle[id], now) else middle[id]
    ensures after == map id | id in before :: TrialTick(before[id], stores[id], mailer, now)
    ensures forall id :: id in before ==>
        (stores[id].active && middle[id].sub.Some? && GraceOver(middle[id].sub.value, now)
         <==> StatusOf(after[id]) == Some(SUSPENDED) && StatusOf(before[id]) != Some(SUSPENDED))
  {
    forall id | id in before
      ensures after[id] == TrialTick(before[id], stores[id], mailer, now)
      ensures stores[id].active && middle[id].sub.Some? && GraceOver(middle[id].sub.value, now)
              <==> StatusOf(after[id]) == Some(SUSPENDED) && StatusOf(before[id]) != Some(SUSPENDED)
    {
    }
  }

  lemma AnyBad(order: seq<string>, bad: set<string>)
    requires forall id :: id in bad ==> id in order
    ensures Before(order, bad) < |order| <==> bad != {}
    ensures bad == {} ==> order[..Before(order, bad)] == order
  {
    if id :| id in bad {
      var i :| 0 <= i < |order| && order[i] == id;
    }
  }

  class Service {
    var accounts: map<string, Account>

    constructor ()
      ensures accounts == map[]
    {
      accounts := map[];
    }

    // One transaction: the row and the event that explains it.
    method Write(id: string, row: Sub, e: Entry)
      modifies this
      ensures accounts == old(accounts)[id := Record(AccountOf(old(accounts), id), row, e)]
    {
      var ledger := if id in accounts then accounts[id].ledger else [];
      accounts := accounts[id := Account(Some(row), ledger + [e])];
    }

    method StartTrial(id: string, plan: Option<Plan>, now: int) returns (ok: bool, created: bool)
      modifies this
      ensures AccountOf(accounts, id) == DoStartTrial(AccountOf(old(accounts), id), plan, now)
      ensures accounts - {id} == old(accounts) - {id}
      ensures ok <==> AccountOf(accounts, id).sub.Some?
      ensures created <==> AccountOf(accounts, id) != AccountOf(old(accounts), id)
    {
      if id in accounts && accounts[id].sub.Some? {
        return true, false;
      }
      if plan.None? {
        return false, false;
      }
      var endsAt := now + plan.value.trialDays * DAY_MS;
      Write(id, Sub(plan.value, TRIALING, None, None, Some(endsAt), None, None, None, None, now),
            Entry(TrialStarted, None, Some(TRIALING), None, plan.value.trialDays));
      return true, true;
    }

    method ExtendTrial(id: string, days: int, now: int) returns (ok: bool)
      modifies this
      ensures AccountOf(accounts, id) == DoExtendTrial(AccountOf(old(accounts), id), days, now)
      ensures accounts - {id} == old(accounts) - {id}
      ensures ok <==> 1 <= days <= 90 && StatusOf(AccountOf(old(accounts), id)) in {Some(TRIALING), Some(TRIAL_EXPIRED)}
    {
      if days < 1 || days > 90 || id !in accounts || accounts[id].sub.None? {
        return false;
      }
      var sub := accounts[id].sub.value;
      var endsAt: int;
      if sub.status == TRIALING {
        var base := if sub.trialEndsAt.Some? && sub.trialEndsAt.value > now then sub.trialEndsAt.value else now;
        endsAt := base + days * DAY_MS;
      } else if sub.status == TRIAL_EXPIRED {
        endsAt := now + days * DAY_MS;
      } else {
        return false;
      }
      Write(id, sub.(status := TRIALING, trialEndsAt := Some(endsAt), updatedAt := now),
            Entry(TrialExtended, Some(sub.status), Some(TRIALING), None, days));
      return true;
    }

    /** subscribe; `chargeId` is the provider's answer, used only when it was asked. */
    method Subscribe(id: string, plan: Option<Plan>, interval: Interval, providerUp: bool, chargeId: string, now: int)
      returns (ok: bool)
      modifies this
      ensures AccountOf(accounts, id)
          == DoSubscribe(AccountOf(old(accounts), id), plan, interval, providerUp, chargeId, now)
      ensures accounts - {id} == old(accounts) - {id}
      ensures ok <==> providerUp && plan.Some? && StatusOf(AccountOf(old(accounts), id)) != Some(ACTIVE)
    {
      if !providerUp {
        return false;
      }
      var row := if id in accounts then accounts[id].sub else None;
      if (row.Some? && row.value.status == ACTIVE) || plan.None? {
        return false;
      }
      var preserved := RemainingTrialDays(row, now);
      var trialEndsAt := if row.Some? && row.value.trialEndsAt.Some? then row.value.trialEndsAt.value
                         else now + plan.value.trialDays * DAY_MS;
      var grace := Some(trialEndsAt + TRIAL_GRACE_DAYS * DAY_MS);
      var from := if row.Some? then Some(row.value.status) else None;
      var e := Entry(ChargeCreated, from, Some(CHARGE_PENDING), Some(chargeId), preserved);
      if row.None? {
        Write(id, Sub(plan.value, CHARGE_PENDING, Some(chargeId), Some(interval), Some(trialEndsAt), None, None,
            grace, None, now), e);
      } else {
        Write(id, row.value.(plan := plan.value, status := CHARGE_PENDING, chargeId := Some(chargeId),
                             interval := Some(interval), graceEndsAt := grace, updatedAt := now), e);
      }
      return true;
    }

    method ResolveChargeOutcome(id: string, provider: Option<seq<LiveCharge>>, now: int) returns (outcome: Outcome)
      modifies this
      ensures accounts == if id in old(accounts)
          then old(accounts)[id := DoResolve(old(accounts)[id], provider, now)] else old(accounts)
      ensures outcome == NO_PENDING <==> !Pending(AccountOf(old(accounts), id))
      ensures outcome == PROVIDER_UNAVAILABLE <==> Pending(AccountOf(old(accounts), id)) && provider.None?
      ensures Pending(AccountOf(old(accounts), id)) && provider.Some? ==>
                var charge := AccountOf(old(accounts), id).sub.value.chargeId;
                && (outcome == ACTIVATED <==> ListedAs(provider.value, charge, {LiveActive, LiveAccepted}))
                && (outcome == PENDING <==> ListedAs(provider.value, charge, {LivePending, LiveFrozen}))
                && (outcome == DECLINED <==> Unlisted(provider.value, charge)
                                             || ListedAs(provider.value, charge,
                                                         {LiveDeclined, LiveCancelled, LiveExpired}))
      ensures outcome == ACTIVATED ==> StatusOf(AccountOf(accounts, id)) == Some(ACTIVE)
      ensures outcome == DECLINED ==> StatusOf(AccountOf(accounts, id)) in {Some(TRIALING), Some(TRIAL_EXPIRED)}
      ensures outcome in {NO_PENDING, PENDING, PROVIDER_UNAVAILABLE} ==> accounts == old(accounts)
    {
      if id !in accounts || accounts[id].sub.None? || accounts[id].sub.value.status != CHARGE_PENDING {
        return NO_PENDING;
      }
      if provider.None? {
        return PROVIDER_UNAVAILABLE;
      }
      var sub := accounts[id].sub.value;
      VerdictIff(provider.value, sub.chargeId);
      var found := FindLive(provider.value, sub.chargeId);
      if found.Some? && (found.value == LiveActive || found.value == LiveAccepted) {
        var preserved := RemainingTrialDays(Some(sub), now);
        var end := now + (preserved + CycleDays(sub.interval)) * DAY_MS;
        Write(id, sub.(status := ACTIVE, periodStart := Some(now), periodEnd := Some(end), cancelledAt := None,
            updatedAt := now),
              Entry(ChargeAccepted, Some(CHARGE_PENDING), Some(ACTIVE), sub.chargeId, preserved));
        return ACTIVATED;
      }
      if found.None? || found.value == LiveDeclined || found.value == LiveCancelled || found.value == LiveExpired {
        Settle(id, sub.chargeId, now);
        return DECLINED;
      }
      return PENDING;
    }

    // The safest state before the charge: the trial if it is still running.
    method Settle(id: string, chargeId: Option<string>, now: int)
      requires id in accounts && Pending(accounts[id])
      modifies this
      ensures accounts == old(accounts)[id := FallBack(old(accounts)[id], chargeId, now)]
    {
      var sub := accounts[id].sub.value;
      var fallback := if sub.trialEndsAt.Some? && sub.trialEndsAt.value > now then TRIALING else TRIAL_EXPIRED;
      Write(id, sub.(status := fallback, updatedAt := now),
            Entry(ChargeDeclined, Some(CHARGE_PENDING), Some(fallback), chargeId, 0));
    }

    method SettleStalePending(id: string, now: int) returns (declined: bool)
      modifies this
      ensures accounts == if id in old(accounts) then old(accounts)[id := DoSettleStale(old(accounts)[id], now)]
          else old(accounts)
      ensures declined <==> Pending(AccountOf(old(accounts), id))
    {
      if id !in accounts || accounts[id].sub.None? || accounts[id].sub.value.status != CHARGE_PENDING {
        return false;
      }
      Settle(id, None, now);
      return true;
    }

    method Cancel(id: string, providerUp: bool, now: int) returns (ok: bool)
      modifies this
      ensures AccountOf(accounts, id) == DoCancel(AccountOf(old(accounts), id), providerUp, now)
      ensures accounts - {id} == old(accounts) - {id}
      ensures ok <==> providerUp && HasCharge(AccountOf(old(accounts), id))
                      && StatusOf(AccountOf(old(accounts), id)) in {Some(ACTIVE), Some(CHARGE_PENDING), Some(PAST_DUE)}
    {
      if id !in accounts || accounts[id].sub.None? || accounts[id].sub.value.chargeId.None? {
        return false;
      }
      var sub := accounts[id].sub.value;
      if (sub.status != ACTIVE && sub.status != CHARGE_PENDING && sub.status != PAST_DUE) || !providerUp {
        return false;
      }
      Write(id, sub.(status := CANCELLED, cancelledAt := Some(now), updatedAt := now),
            Entry(ChargeCancelled, Some(sub.status), Some(CANCELLED), sub.chargeId, 0));
      return true;
    }

    /** The trial tick over the table, in the order the database returns the rows, where `failing` are the
        stores whose mail would not go out. Although it runs as two passes over two separate selections,
        each store gets exactly its own TrialTick; unless a mail fails, which ends the tick: the stores
        before that one are served, the others are not, and nobody is suspended. */
    method TrialLifecycleTick(order: seq<string>, stores: map<string, Store>, mailer: bool, failing: set<string>,
            now: int)
      returns (thrown: bool, expired: seq<string>, suspended: seq<string>)
      requires Distinct(order) && (forall id :: id in order <==> id in accounts) && accounts.Keys <= stores.Keys
      modifies this
      ensures thrown <==> MailFailures(old(accounts), stores, mailer, failing, now) != {}
      ensures var k := Before(order, MailFailures(old(accounts), stores, mailer, failing, now));
              accounts == map id | id in old(accounts) ::
                if !thrown then TrialTick(old(accounts)[id], stores[id], mailer, now)
                else if id in order[..k] && stores[id].active
                then ExpireOrNudge(old(accounts)[id], stores[id], mailer, now) else old(accounts)[id]
      ensures !thrown ==> forall id :: id in expired <==>
                id in old(accounts) && stores[id].active && old(accounts)[id].sub.Some?
                && TrialOver(old(accounts)[id].sub.value, now)
      ensures !thrown ==> forall id :: id in suspended <==>
                id in accounts && StatusOf(accounts[id]) == Some(SUSPENDED)
                && StatusOf(old(accounts)[id]) != Some(SUSPENDED)
    {
      ghost var before, bad := accounts, MailFailures(accounts, stores, mailer, failing, now);
      AnyBad(order, bad);
      hide *;
      thrown, expired := NudgePass(order, stores, mailer, failing, now);
      ghost var middle := accounts;
      suspended := [];
      if !thrown {
        suspended := SuspendPass(order, stores, now);
        BothPasses(before, middle, accounts, stores, mailer, now);
      }
    }

    method NudgePass(order: seq<string>, stores: map<string, Store>, mailer: bool, failing: set<string>, now: int)
      returns (thrown: bool, expired: seq<string>)
      requires Distinct(order) && (forall id :: id in order <==> id in accounts) && accounts.Keys <= stores.Keys
      modifies this
      ensures var k := Before(order, MailFailures(old(accounts), stores, mailer, failing, now));
              thrown == (k < |order|) && accounts == map id | id in old(accounts) ::
                if id in order[..k] && stores[id].active
                then ExpireOrNudge(old(accounts)[id], stores[id], mailer, now) else old(accounts)[id]
      ensures !thrown ==> forall id :: id in expired <==>
                id in old(accounts) && stores[id].active && old(accounts)[id].sub.Some?
                && TrialOver(old(accounts)[id].sub.value, now)
    {
      hide ExpireOrNudge, TrialOver, NudgeToSend;
      ghost var before, bad := accounts, MailFailures(accounts, stores, mailer, failing, now);
      var table := accounts;
      var p := (id: string) => id in table && id in stores && stores[id].active
                               && table[id].sub.Some? && table[id].sub.value.status == TRIALING;
      var trialing := Select(order, p);
      forall id | id in bad
        ensures p(id)
      {
        OnlyTrialingFails(before[id], stores[id], mailer, now);
      }
      thrown, expired := NudgeEach(trialing, stores, mailer, failing, now);
      PassOverTable(order, p, before, accounts, stores, mailer, bad, now);
      hide Before, Select;
      forall id | id in before && id !in trialing && stores[id].active
        ensures before[id].sub.Some? ==> !TrialOver(before[id].sub.value, now)
      {
        OnlyTrialing(before[id], stores[id], mailer, now);
      }
    }

    method NudgeEach(trialing: seq<string>, stores: map<string, Store>, mailer: bool, failing: set<string>, now: int)
      returns (thrown: bool, expired: seq<string>)
      requires Distinct(trialing) && accounts.Keys <= stores.Keys
      requires forall id :: id in trialing ==>
                 id in accounts && stores[id].active && StatusOf(accounts[id]) == Some(TRIALING)
      modifies this
      ensures accounts.Keys == old(accounts).Keys
      ensures var k := Before(trialing, MailFailures(old(accounts), stores, mailer, failing, now));
              thrown == (k < |trialing|) && forall id :: id in accounts ==>
                accounts[id] == if id in trialing[..k] then ExpireOrNudge(old(accounts)[id], stores[id], mailer, now)
                                else old(accounts)[id]
      ensures !thrown ==> forall id :: id in expired <==>
                id in trialing && old(accounts)[id].sub.Some? && TrialOver(old(accounts)[id].sub.value, now)
    {
      hide ExpireOrNudge, TrialOver, NudgeToSend;
      ghost var before, bad := accounts, MailFailures(accounts, stores, mailer, failing, now);
      thrown, expired := false, [];
      for i := 0 to |trialing|
        invariant accounts.Keys == before.Keys && !thrown
        invariant forall j :: 0 <= j < i ==> trialing[j] !in bad
        invariant forall id :: id in before && id !in trialing[..i] ==> accounts[id] == before[id]
        invariant forall id :: id in trialing[..i] ==>
            accounts[id] == ExpireOrNudge(before[id], stores[id], mailer, now)
        invariant forall id :: id in expired <==> id in trialing[..i] && TrialOver(before[id].sub.value, now)
      {
        var id := trialing[i];
        assert id in trialing && id !in trialing[..i];
        var failed, flipped := NudgeOne(id, stores[id], mailer, id in failing, now);
        if failed {
          assert Before(trialing, bad) == i;
          return true, expired;
        }
        if flipped {
          expired := expired + [id];
        }
        assert trialing[..i + 1] == trialing[..i] + [id];
      }
      assert trialing[..|trialing|] == trialing;
    }

    // The body of the first loop; the event is recorded after the mail has gone out.
    method NudgeOne(id: string, store: Store, mailer: bool, mailFails: bool, now: int)
      returns (thrown: bool, flipped: bool)
      requires id in accounts && store.active && StatusOf(accounts[id]) == Some(TRIALING)
      modifies this
      ensures thrown == MailFails(old(accounts)[id], store, mailer, mailFails, now)
      ensures accounts == if thrown then old(accounts)
          else old(accounts)[id := ExpireOrNudge(old(accounts)[id], store, mailer, now)]
      ensures flipped <==> TrialOver(old(accounts)[id].sub.value, now)
    {
      var sub := accounts[id].sub.value;
      if sub.trialEndsAt.None? {
        assert accounts == accounts[id := accounts[id]];
        return false, false;
      }
      var msLeft := sub.trialEndsAt.value - now;
      if msLeft <= 0 {
        Write(id, sub.(status := TRIAL_EXPIRED, graceEndsAt := Some(now + TRIAL_GRACE_DAYS * DAY_MS), updatedAt := now),
              Entry(TrialEnded, Some(TRIALING), Some(TRIAL_EXPIRED), None, 0));
        return false, true;
      }
      var day := sub.plan.trialDays - CeilDays(msLeft) + 1;
      var elapsed := now - store.installedAt;
      assert accounts == accounts[id := accounts[id]];
      if day < 1 || day > sub.plan.trialDays {
        return false, false;
      }
      if (day > 1 && elapsed < (day - 1) * DAY_MS) || (day == 1 && elapsed < DAY_MS / 2) {
        return false, false;
      }
      if Nudged(accounts[id].ledger, day) || !mailer || !store.hasEmail {
        return false, false;
      }
      if mailFails {
        return true, false;
      }
      var nudge := Entry(NudgeSent, None, None, None, day);
      accounts := accounts[id := accounts[id].(ledger := accounts[id].ledger + [nudge])];
      return false, false;
    }

    // The body of the second loop.
    method SuspendOne(id: string, now: int)
      requires id in accounts && accounts[id].sub.Some? && GraceOver(accounts[id].sub.value, now)
      modifies this
      ensures accounts == old(accounts)[id := SuspendOverdue(old(accounts)[id], now)]
    {
      var sub := accounts[id].sub.value;
      Write(id, sub.(status := SUSPENDED, updatedAt := now),
            Entry(SubscriptionSuspended, Some(sub.status), Some(SUSPENDED), None, 0));
    }

    method SuspendPass(order: seq<string>, stores: map<string, Store>, now: int) returns (suspended: seq<string>)
      requires Distinct(order) && (forall id :: id in order <==> id in accounts) && accounts.Keys <= stores.Keys
      modifies this
      ensures accounts == map id | id in old(accounts) ::
                if stores[id].active then SuspendOverdue(old(accounts)[id], now) else old(accounts)[id]
      ensures forall id :: id in suspended <==>
                id in accounts && stores[id].active && old(accounts)[id].sub.Some?
                    && GraceOver(old(accounts)[id].sub.value, now)
    {
      hide SuspendOverdue, GraceOver;
      ghost var before := accounts;
      var table := accounts;
      var eligible := Select(order, id => id in table && id in stores && stores[id].active
                                          && table[id].sub.Some? && GraceOver(table[id].sub.value, now));
      for i := 0 to |eligible|
        invariant accounts.Keys == before.Keys
        invariant forall id :: id in before && id !in eligible[..i] ==> accounts[id] == before[id]
        invariant forall id :: id in eligible[..i] ==> accounts[id] == SuspendOverdue(before[id], now)
      {
        var id := eligible[i];
        assert id in eligible && id !in eligible[..i];
        SuspendOne(id, now);
        assert eligible[..i + 1] == eligible[..i] + [id];
      }
      assert eligible[..|eligible|] == eligible;
      forall id | id in before && id !in eligible && stores[id].active
        ensures SuspendOverdue(before[id], now) == before[id]
      {
        OnlyOverdue(before[id], now);
      }
      suspended := eligible;
    }

    /** The reconcile tick over the table: each store gets exactly its own ReconcileTick; unless a provider
        cannot be found or asked, which ends the tick at that store and leaves it and the later ones alone. */
    method ReconcileTick(order: seq<string>, stores: map<string, Store>, answers: map<string, Answer>, now: int)
      returns (thrown: bool, drift: seq<string>, skipped: nat)
      requires Distinct(order) && (forall id :: id in order <==> id in accounts)
      requires accounts.Keys <= stores.Keys && accounts.Keys <= answers.Keys
      modifies this
      ensures thrown <==> ReconcileFailures(old(accounts), stores, answers, now) != {}
      ensures var k := Before(order, ReconcileFailures(old(accounts), stores, answers, now));
              accounts == map id | id in old(accounts) ::
                if id in order[..k]
                then Billing.ReconcileTick(old(accounts)[id], stores[id].active, ChargesOf(answers[id]), now)
                else old(accounts)[id]
      ensures !thrown ==> forall id :: id in drift <==>
                id in accounts && Paid(old(accounts)[id]) && StatusOf(accounts[id]) == Some(CANCELLED)
    {
      hide Billing.ReconcileTick;
      ghost var before, bad := accounts, ReconcileFailures(accounts, stores, answers, now);
      var table := accounts;
      var p := (id: string) => id in table && id in stores && stores[id].active && Candidate(table[id]);
      var candidates := Select(order, p);
      AnyBad(order, bad);
      thrown, drift, skipped := ReconcileEach(candidates, stores, answers, now);
      CandidatesOverTable(order, p, before, accounts, stores, answers, bad, now);
      hide Before, Select, Candidate, Paid, Asks;
    }

    method ReconcileEach(candidates: seq<string>, stores: map<string, Store>, answers: map<string, Answer>, now: int)
      returns (thrown: bool, drift: seq<string>, skipped: nat)
      requires Distinct(candidates) && accounts.Keys <= stores.Keys && accounts.Keys <= answers.Keys
      requires forall id :: id in candidates ==> id in accounts && stores[id].active && Candidate(accounts[id])
      modifies this
      ensures accounts.Keys == old(accounts).Keys
      ensures var k := Before(candidates, ReconcileFailures(old(accounts), stores, answers, now));
              thrown == (k < |candidates|) && forall id :: id in accounts ==>
                accounts[id] == if id in candidates[..k]
                    then Billing.ReconcileTick(old(accounts)[id], true, ChargesOf(answers[id]), now)
                    else old(accounts)[id]
      ensures !thrown ==> forall id :: id in drift <==>
                id in candidates && Paid(old(accounts)[id]) && StatusOf(accounts[id]) == Some(CANCELLED)
    {
      hide Billing.ReconcileTick, Candidate, Paid, Asks;
      ghost var before, bad := accounts, ReconcileFailures(accounts, stores, answers, now);
      thrown, drift, skipped := false, [], 0;
      for i := 0 to |candidates|
        invariant accounts.Keys == before.Keys && !thrown
        invariant forall j :: 0 <= j < i ==> candidates[j] !in bad
        invariant forall id :: id in before && id !in candidates[..i] ==> accounts[id] == before[id]
        invariant forall id :: id in candidates[..i] ==>
            accounts[id] == Billing.ReconcileTick(before[id], true, ChargesOf(answers[id]), now)
        invariant forall id :: id in drift <==>
                    id in candidates[..i] && Paid(before[id]) && StatusOf(accounts[id]) == Some(CANCELLED)
      {
        var id := candidates[i];
        assert id in candidates && id !in candidates[..i];
        var failed, drifted := ReconcileOne(id, answers[id], now);
        if failed {
          assert Before(candidates, bad) == i;
          return true, drift, skipped;
        }
        if answers[id].NoProvider? {
          skipped := skipped + 1;
        }
        if drifted {
          drift := drift + [id];
        }
        assert candidates[..i + 1] == candidates[..i] + [id];
      }
      assert candidates[..|candidates|] == candidates;
    }

    // The body of the reconcile loop.
    method ReconcileOne(id: string, answer: Answer, now: int) returns (thrown: bool, drifted: bool)
      requires id in accounts && Candidate(accounts[id])
      modifies this
      ensures thrown == ReconcileFails(old(accounts)[id], true, answer, now)
      ensures accounts == if thrown then old(accounts)
          else old(accounts)[id := Billing.ReconcileTick(old(accounts)[id], true, ChargesOf(answer), now)]
      ensures !thrown ==> (drifted <==> Paid(old(accounts)[id]) && StatusOf(accounts[id]) == Some(CANCELLED))
    {
      var sub := accounts[id].sub.value;
      assert accounts == accounts[id := accounts[id]];
      if answer.LookupFails? {
        return true, false;
      }
      if answer.NoProvider? {
        NoProviderNoChange(accounts[id], true, now);
        StillPaid(accounts[id]);
        return false, false;
      }
      if sub.status == CHARGE_PENDING {
        var age := now - sub.updatedAt;
        if age >= DAY_MS {
          if answer.FetchFails? {
            return true, false;
          }
          var outcome := ResolveChargeOutcome(id, Some(answer.charges), now);
          if outcome == PENDING && age > PENDING_DECISION_LIMIT_DAYS * DAY_MS {
            var declined := SettleStalePending(id, now);
          }
        }
        return false, false;
      }
      if sub.chargeId.None? {
        return false, false;
      }
      if answer.FetchFails? {
        return true, false;
      }
      if FindLive(answer.charges, sub.chargeId).Some? {
        return false, false;
      }
      Write(id, sub.(status := CANCELLED, cancelledAt := Some(now), updatedAt := now),
            Entry(ChargeReconciled, Some(sub.status), Some(CANCELLED), None, 0));
      return false, true;
    }
  }
}
