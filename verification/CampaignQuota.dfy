/** A campaign's executions behind the quota gate: each is denied by the usage its own Sent events, and
    those of other senders, have run up so far (packages/automation/src/campaign.sender.ts). */
module CampaignQuota {
  import opened Plans
  import opened Campaign
  import Quota
  import Chain = CampaignChain
  import Batches = CampaignBatches

  datatype Metered = Metered(chain: State, usage: Quota.Usage)

  datatype Act =
    | Execution(from: nat, world: nat -> Situation, cut: Cut, now: int, sentAt: nat -> int)
    | WorkflowSend(now: int, completedAt: int)
    | GiveUp(from: nat)

  /** One execution: the gate is asked for a full batch, and each Sent event it adds is metered at its instant. */
  function DoExecution(m: Metered, act: Act, store: Quota.Store, size: nat): Metered
    requires act.Execution?
  {
    var denied := Quota.CheckEntitlement(store, m.usage, size, act.now) != Quota.Allowed;
    var t := Execute(m.chain, act.from, act.world, denied, size, act.cut);
    var added := Batches.SentCount(t.ledger.events) - Batches.SentCount(m.chain.ledger.events);
    Metered(t, m.usage.(campaign := m.usage.campaign + if added >= 0 then seq(added, act.sentAt) else []))
  }

  function Take(m: Metered, act: Act, store: Quota.Store, size: nat): Metered {
    match act
    case Execution(from, _, _, _, _) => if from !in m.chain.links then m else DoExecution(m, act, store, size)
    case WorkflowSend(now, completedAt) =>
      m.(usage := Quota.Apply(store, m.usage, Quota.WorkflowSend(now, completedAt), size))
    case GiveUp(from) => m.(chain := m.chain.(links := m.chain.links - {from}))
  }

  function Run(n: nat, usage: Quota.Usage, acts: seq<Act>, store: Quota.Store, size: nat): Metered {
    if acts == [] then Metered(Start(n), usage)
    else Take(Run(n, usage, acts[..|acts| - 1], store, size), acts[|acts| - 1], store, size)
  }

  lemma DeniedAddsNothing(s: State, from: nat, world: nat -> Situation, size: nat, cut: Cut)
    ensures Execute(s, from, world, true, size, cut).ledger == s.ledger
  {
  }

  // An execution is a batch as the quota model has it: let through or not, and no larger than it asked for.
  lemma ExecutionIsBatch(m: Metered, n: nat, act: Act, store: Quota.Store, size: nat) returns (sentAt: seq<int>)
    requires Chain.Inv(m.chain, n) && act.Execution? && act.from in m.chain.links
    ensures var t := DoExecution(m, act, store, size);
            && t.usage == Quota.Apply(store, m.usage, Quota.CampaignBatch(act.now, sentAt), size)
            && |t.usage.campaign| == |m.usage.campaign|
                + Batches.SentCount(t.chain.ledger.events) - Batches.SentCount(m.chain.ledger.events)
  {
    var denied := Quota.CheckEntitlement(store, m.usage, size, act.now) != Quota.Allowed;
    Batches.ExecutionIsWithinItsBatch(m.chain, n, act.from, act.world, denied, size, act.cut);
    if denied {
      DeniedAddsNothing(m.chain, act.from, act.world, size, act.cut);
    }
    hide Execute, Chain.Inv, Batches.SentCount, Quota.CheckEntitlement;
    var t := DoExecution(m, act, store, size);
    sentAt := t.usage.campaign[|m.usage.campaign|..];
    assert m.usage.campaign + [] == m.usage.campaign;
  }

  /** With the quota asked before every execution, crashed and retried ones included, and workflow sends
      in between, the metered usage of a store never passes its limit, and the meter has counted exactly
      the campaign's Sent events. */
  lemma {:induction false} CampaignStaysWithinQuota(n: nat, usage: Quota.Usage, acts: seq<Act>, store: Quota.Store,
          size: nat, now: int)
    requires size >= 1 && Quota.FixedWindow(store)
    requires Quota.CountUsage(usage, Quota.UsageWindowFor(store.sub, store.installedAt, now)) <= Quota.Limit(store)
    ensures var m := Run(n, usage, acts, store, size);
            && Chain.Inv(m.chain, n)
            && Quota.CountUsage(m.usage, Quota.UsageWindowFor(store.sub, store.installedAt, now)) <= Quota.Limit(store)
            && |m.usage.campaign| == |usage.campaign| + Batches.SentCount(m.chain.ledger.events)
  {
    if acts == [] {
      Chain.ReachableInv(n, [], size);
    } else {
      var k := |acts| - 1;
      CampaignStaysWithinQuota(n, usage, acts[..k], store, size, now);
      var m, act := Run(n, usage, acts[..k], store, size), acts[k];
      var w := Quota.UsageWindowFor(store.sub, store.installedAt, now);
      hide Chain.Inv, Execute, Quota.CountUsage, Quota.Apply, Batches.SentCount;
      match act
      case Execution(from, world, cut, at, _) =>
        if from in m.chain.links {
          var sentAt := ExecutionIsBatch(m, n, act, store, size);
          Quota.StepWithinQuota(store, m.usage, Quota.CampaignBatch(at, sentAt), size, w);
          ExecutionKeeps(m, n, act, store, size);
        }
      case WorkflowSend(at, completedAt) =>
        Quota.StepWithinQuota(store, m.usage, Quota.WorkflowSend(at, completedAt), size, w);
        WorkflowLeavesCampaign(store, m.usage, at, completedAt, size);
      case GiveUp(from) => GivingUpKeeps(m.chain, n, from);
    }
  }

  lemma ExecutionKeeps(m: Metered, n: nat, act: Act, store: Quota.Store, size: nat)
    requires Chain.Inv(m.chain, n) && act.Execution? && act.from in m.chain.links && size >= 1
    ensures Chain.Inv(DoExecution(m, act, store, size).chain, n)
  {
    var denied := Quota.CheckEntitlement(store, m.usage, size, act.now) != Quota.Allowed;
    Chain.ExecuteKeeps(m.chain, n, act.from, act.world, denied, size, act.cut);
    hide Execute, Chain.Inv;
  }

  lemma GivingUpKeeps(s: State, n: nat, from: nat)
    requires Chain.Inv(s, n)
    ensures Chain.Inv(s.(links := s.links - {from}), n)
  {
  }

  lemma WorkflowLeavesCampaign(store: Quota.Store, u: Quota.Usage, now: int, completedAt: int, size: nat)
    ensures Quota.Apply(store, u, Quota.WorkflowSend(now, completedAt), size).campaign == u.campaign
  {
  }

  /** While the store may not act, its campaign sends nothing, however often its executions are run,
      cut off or given up, and nothing is metered. */
  lemma {:induction false} InactiveCampaignSendsNothing(n: nat, usage: Quota.Usage, acts: seq<Act>, store: Quota.Store,
          size: nat)
    requires forall i :: 0 <= i < |acts| && !acts[i].GiveUp? ==> !Quota.MayAct(store, acts[i].now)
    ensures var m := Run(n, usage, acts, store, size);
            m.chain.ledger == Start(n).ledger && m.usage == usage
  {
    if acts != [] {
      var k := |acts| - 1;
      InactiveCampaignSendsNothing(n, usage, acts[..k], store, size);
      var m, act := Run(n, usage, acts[..k], store, size), acts[k];
      if !act.GiveUp? {
        Quota.EntitlementIff(store, m.usage, if act.Execution? then size else 1, act.now);
        if act.Execution? {
          DeniedAddsNothing(m.chain, act.from, act.world, size, act.cut);
          assert m.usage.campaign + [] == m.usage.campaign;
        }
      }
      hide Execute, Batches.SentCount, Quota.CheckEntitlement, Quota.MayAct, Quota.HasRoom;
    }
  }
}
