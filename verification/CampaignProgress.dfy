/** What the chain reaches when its executions may overlap: where a campaign ends, and when its
    counters are those of its rows. */
module CampaignProgress {
  import opened Campaign
  import opened CampaignProcesses
  import Chain = CampaignChain
  import Batches = CampaignBatches
  import Overlap = CampaignOverlap

  // ---- completion ----

  // What an execution may rely on, by where it is.
  ghost predicate ExecOk(rows: seq<Status>, campaign: CampaignStatus, e: Exec) {
    Chain.Settled(rows, e.from) &&
    match e.phase
    case Delivering(batch, i, _) =>
      && 0 <= i < |batch| && Within(batch, |rows|) && e.from <= batch[|batch| - 1]
      && forall id :: 0 <= id <= batch[|batch| - 1] && rows[id] == PENDING ==> id in batch[i..]
    case Counting(batch) => BatchDone(rows, e.from, batch)
    case Asking(batch) => BatchDone(rows, e.from, batch)
    case Deciding(More(cursor)) => e.from < cursor && Chain.Settled(rows, cursor)
    case Deciding(Exhausted) => campaign != SENDING || Chain.Settled(rows, |rows|)
    case _ => true
  }

  ghost predicate BatchDone(rows: seq<Status>, from: nat, batch: seq<nat>) {
    batch != [] && from <= batch[|batch| - 1] && Chain.Settled(rows, batch[|batch| - 1] + 1)
  }

  ghost predicate Progress(w: World) {
    && (forall from :: from in w.links ==> Chain.Settled(w.ledger.rows, from))
    && (forall k :: k in w.execs ==> ExecOk(w.ledger.rows, w.campaign, w.execs[k]))
    && (w.campaign == CAMPAIGN_SENT ==> Chain.Settled(w.ledger.rows, |w.ledger.rows|))
  }

  // Rows only leave PENDING, and a campaign only leaves SENDING.
  ghost predicate Onward(w: World, t: World) {
    && |t.ledger.rows| == |w.ledger.rows|
    && (forall id :: 0 <= id < |w.ledger.rows| && w.ledger.rows[id] != PENDING ==> t.ledger.rows[id] != PENDING)
    && (w.campaign != SENDING ==> t.campaign != SENDING)
  }

  lemma SettledOnward(rows: seq<Status>, after: seq<Status>, from: nat)
    requires Chain.Settled(rows, from) && |after| == |rows|
    requires forall id :: 0 <= id < |rows| && rows[id] != PENDING ==> after[id] != PENDING
    ensures Chain.Settled(after, from)
  {
  }

  lemma OkOnward(w: World, t: World, e: Exec)
    requires Onward(w, t) && ExecOk(w.ledger.rows, w.campaign, e)
    ensures ExecOk(t.ledger.rows, t.campaign, e)
  {
    var rows, after := w.ledger.rows, t.ledger.rows;
    SettledOnward(rows, after, e.from);
    match e.phase
    case Counting(batch) => SettledOnward(rows, after, batch[|batch| - 1] + 1);
    case Asking(batch) => SettledOnward(rows, after, batch[|batch| - 1] + 1);
    case Deciding(More(cursor)) => SettledOnward(rows, after, cursor);
    case Deciding(Exhausted) =>
      if w.campaign == SENDING {
        SettledOnward(rows, after, |rows|);
      }
    case _ =>
  }

  // One execution moves on and nothing else changes but the rows and the campaign, onward.
  lemma MovedOn(w: World, t: World, k: nat)
    requires Progress(w) && Onward(w, t) && t.links <= w.links
    requires forall x :: x in t.execs && x != k ==> x in w.execs && t.execs[x] == w.execs[x]
    requires k in t.execs ==> ExecOk(t.ledger.rows, t.campaign, t.execs[k])
    requires t.campaign == CAMPAIGN_SENT && w.campaign != CAMPAIGN_SENT ==>
        Chain.Settled(t.ledger.rows, |t.ledger.rows|)
    ensures Progress(t)
  {
    hide ExecOk;
    forall from | from in t.links
      ensures Chain.Settled(t.ledger.rows, from)
    {
      SettledOnward(w.ledger.rows, t.ledger.rows, from);
    }
    forall x | x in t.execs && x != k
      ensures ExecOk(t.ledger.rows, t.campaign, t.execs[x])
    {
      OkOnward(w, t, w.execs[x]);
    }
  }

  // The phase an execution enters by selecting is one it may rely on.
  lemma SelectedOk(rows: seq<Status>, campaign: CampaignStatus, from: nat, size: nat)
    requires Chain.Settled(rows, from) && size >= 1
    ensures var batch := Batch(rows, from, size);
            ExecOk(rows, campaign,
                   Exec(from, if batch == [] then Deciding(Exhausted) else Delivering(batch, 0, Nothing)))
  {
    var batch := Batch(rows, from, size);
    forall id | from <= id < |rows| && rows[id] == PENDING
      ensures batch != [] && (id <= batch[|batch| - 1] ==> id in batch)
    {
      Chain.BatchCovers(rows, from, size, id);
    }
    assert batch != [] ==> batch[0] <= batch[|batch| - 1];
    assert batch[0..] == batch;
  }

  lemma SelectProgress(w: World, k: nat, size: nat)
    requires Progress(w) && size >= 1
    ensures Progress(DoSelect(w, k, size))
  {
    if k in w.execs && w.execs[k].phase == Selecting {
      assert ExecOk(w.ledger.rows, w.campaign, w.execs[k]);
      SelectedOk(w.ledger.rows, w.campaign, w.execs[k].from, size);
      hide Progress, ExecOk, Batch;
      MovedOn(w, DoSelect(w, k, size), k);
    }
  }

  lemma RecordedOk(rows: seq<Status>, campaign: CampaignStatus, from: nat, batch: seq<nat>, i: nat, a: Attempted,
          fate: Status)
    requires ExecOk(rows, campaign, Exec(from, Delivering(batch, i, a))) && i < |batch| && fate != PENDING
    ensures batch[i] < |rows|
    ensures var next := if i + 1 == |batch| then Counting(batch) else Delivering(batch, i + 1, Nothing);
            ExecOk(rows[batch[i] := fate], campaign, Exec(from, next))
  {
    assert batch[i..] == [batch[i]] + batch[i + 1..];
    assert i + 1 == |batch| ==> batch[i + 1..] == [];
    SettledOnward(rows, rows[batch[i] := fate], from);
  }

  lemma RecordProgress(w: World, k: nat)
    requires Progress(w) && Overlap.WellShaped(w)
    ensures Progress(DoRecord(w, k)) && Onward(w, DoRecord(w, k))
  {
    if AtHand(w, k, true) {
      var e := w.execs[k];
      assert ExecOk(w.ledger.rows, w.campaign, e);
      RecordedOk(w.ledger.rows, w.campaign, e.from, e.phase.batch, e.phase.i, e.phase.attempted,
                 e.phase.attempted.fate);
      hide Progress, ExecOk;
      MovedOn(w, DoRecord(w, k), k);
    }
  }

  lemma AdvanceProgress(w: World, k: nat)
    requires Progress(w)
    ensures Progress(DoAdvance(w, k)) && Onward(w, DoAdvance(w, k))
  {
    if k in w.execs {
      var t, e := DoAdvance(w, k), w.execs[k];
      assert ExecOk(w.ledger.rows, w.campaign, e);
      if e.phase.Deciding? && e.phase.outcome.More? {
        MovedOn(w, t.(links := w.links), k);
      } else {
        MovedOn(w, t, k);
      }
    }
  }

  lemma BeginProgress(w: World, k: nat, from: nat)
    requires Progress(w)
    ensures Progress(DoBegin(w, k, from)) && Progress(w.(links := w.links - {from}))
  {
    assert from in w.links ==> Chain.Settled(w.ledger.rows, from);
    assert k in w.execs ==> ExecOk(w.ledger.rows, w.campaign, w.execs[k]);
    hide Progress, Chain.Settled;
    MovedOn(w, DoBegin(w, k, from), k);
    MovedOn(w, w.(links := w.links - {from}), k);
  }

  lemma CheckProgress(w: World, k: nat, denied: bool)
    requires Progress(w)
    ensures Progress(DoCheck(w, k, denied))
  {
    assert k in w.execs ==> ExecOk(w.ledger.rows, w.campaign, w.execs[k]);
    hide Progress, Chain.Settled;
    MovedOn(w, DoCheck(w, k, denied), k);
  }

  lemma AttemptProgress(w: World, k: nat, s: Situation)
    requires Progress(w)
    ensures Progress(DoAttempt(w, k, s)) && Onward(w, DoAttempt(w, k, s))
  {
    assert k in w.execs ==> ExecOk(w.ledger.rows, w.campaign, w.execs[k]);
    hide Progress, Chain.Settled;
    MovedOn(w, DoAttempt(w, k, s), k);
  }

  lemma TakeProgress(w: World, move: Move, size: nat)
    requires Progress(w) && Overlap.WellShaped(w) && size >= 1
    ensures Progress(Take(w, move, size)) && Onward(w, Take(w, move, size))
  {
    hide Progress, ExecOk, DoRecord, DoAdvance, DoAttempt;
    match move
    case Select(k) => SelectProgress(w, k, size);
    case Record(k) => RecordProgress(w, k);
    case Advance(k) => AdvanceProgress(w, k);
    case Attempt(k, s) => AttemptProgress(w, k, s);
    case Begin(k, from) => BeginProgress(w, k, from);
    case Check(k, denied) => CheckProgress(w, k, denied);
    case Crash(k) => MovedOn(w, DoCrash(w, k), k);
    case Bury(from) => BeginProgress(w, 0, from);
  }

  lemma {:induction false} ReachableProgress(n: nat, moves: seq<Move>, size: nat)
    requires size >= 1
    ensures Progress(Interleave(n, moves, size)) && |Interleave(n, moves, size).ledger.rows| == n
  {
    if moves == [] {
      assert Chain.Settled(Start(n).ledger.rows, 0);
    } else {
      var m := |moves| - 1;
      ReachableProgress(n, moves[..m], size);
      Overlap.ReachableInv(n, moves[..m], size);
      TakeProgress(Interleave(n, moves[..m], size), moves[m], size);
      hide Take, Progress, Overlap.Tally;
    }
  }

  /** No job was denied by the quota gate, and none was given up. */
  ghost predicate Healthy(moves: seq<Move>) {
    forall i :: 0 <= i < |moves| ==> !moves[i].Bury? && !(moves[i].Check? && moves[i].denied)
  }

  // The furthest link stays until the campaign is over.
  ghost predicate Alive(w: World) {
    && w.campaign != CAMPAIGN_FAILED && (w.campaign == SENDING ==> w.frontier in w.links)
    && forall k :: k in w.execs ==> Spared(w, w.execs[k])
  }

  ghost predicate Spared(w: World, e: Exec) {
    && e.phase != Deciding(Fatal)
    && (e.phase == Acknowledging && w.campaign == SENDING ==> e.from < w.frontier)
  }

  lemma AdvanceAlive(w: World, k: nat)
    requires Progress(w) && Alive(w)
    ensures Alive(DoAdvance(w, k))
  {
    if k in w.execs {
      var t := DoAdvance(w, k);
      assert ExecOk(w.ledger.rows, w.campaign, w.execs[k]) && Spared(w, w.execs[k]);
      hide Progress, Recount;
      forall x | x in t.execs
        ensures Spared(t, t.execs[x])
      {
        assert x in w.execs && Spared(w, w.execs[x]);
      }
    }
  }

  lemma TakeAlive(w: World, move: Move, size: nat)
    requires Progress(w) && Alive(w) && Healthy([move])
    ensures Alive(Take(w, move, size))
  {
    assert [move][0] == move;
    hide Progress, Batch, DoAdvance;
    if move.Advance? {
      AdvanceAlive(w, move.k);
      hide Alive;
    } else {
      var t := Take(w, move, size);
      forall x | x in t.execs
        ensures Spared(t, t.execs[x])
      {
        assert x in w.execs ==> Spared(w, w.execs[x]);
      }
    }
  }

  lemma {:induction false} ReachableAlive(n: nat, moves: seq<Move>, size: nat)
    requires size >= 1 && Healthy(moves)
    ensures Alive(Interleave(n, moves, size))
  {
    if moves != [] {
      var m := |moves| - 1;
      ReachableAlive(n, moves[..m], size);
      ReachableProgress(n, moves[..m], size);
      assert Healthy([moves[m]]);
      TakeAlive(Interleave(n, moves[..m], size), moves[m], size);
      hide Take, Progress, Alive;
    }
  }

  /** However its executions overlap, crash and repeat: a campaign marked sent has no pending recipient,
      and one that was neither denied nor given up always has a job left until it is marked sent. */
  lemma OverlappingChainCompletes(n: nat, moves: seq<Move>, size: nat)
    requires size >= 1
    ensures var w := Interleave(n, moves, size);
            && (w.campaign == CAMPAIGN_SENT ==> PENDING !in w.ledger.rows)
            && (Healthy(moves) ==> w.campaign != CAMPAIGN_FAILED && (w.links == {} ==> w.campaign == CAMPAIGN_SENT))
  {
    ReachableProgress(n, moves, size);
    if Healthy(moves) {
      ReachableAlive(n, moves, size);
    }
  }

  // ---- the counters ----

  // Counters are never ahead of the rows, and behind them while a record has not been recounted.
  ghost predicate Behind(w: World) {
    && (!w.dirty ==> w.counters == Recount(w.ledger.rows))
    && (w.dirty && w.overlaps == [] ==> Batches.Total(w.counters) + Count(w.ledger.rows, PENDING) < |w.ledger.rows|)
  }

  lemma RecordBehind(w: World, n: nat, k: nat)
    requires Overlap.Inv(w, n) && Behind(w)
    ensures Behind(DoRecord(w, k))
  {
    if AtHand(w, k, true) && Current(w, k) < n {
      var t, c, fate := DoRecord(w, k), Current(w, k), w.execs[k].phase.attempted.fate;
      assert t.ledger.rows == w.ledger.rows[c := fate];
      Batches.RecountTotal(w.ledger.rows);
      Chain.CountUpdate(w.ledger.rows, c, fate, PENDING);
      hide Recount, Count;
      if w.overlaps == [] {
        Overlap.HeldIsPending(w, n, k);
      }
    }
  }

  lemma TakeBehind(w: World, n: nat, move: Move, size: nat)
    requires Overlap.Inv(w, n) && Behind(w)
    ensures Behind(Take(w, move, size))
  {
    hide Recount, Count, DoRecord, Overlap.Inv;
    if move.Record? {
      RecordBehind(w, n, move.k);
    } else {
      assert Take(w, move, size).ledger.rows == w.ledger.rows;
    }
  }

  lemma {:induction false} ReachableBehind(n: nat, moves: seq<Move>, size: nat)
    ensures Behind(Interleave(n, moves, size))
  {
    if moves == [] {
      Batches.NothingCounted(n);
    } else {
      var m := |moves| - 1;
      ReachableBehind(n, moves[..m], size);
      Overlap.ReachableInv(n, moves[..m], size);
      TakeBehind(Interleave(n, moves[..m], size), n, moves[m], size);
      hide Take, Behind, Overlap.Inv;
    }
  }

  /** The counters of a campaign are those of its rows whenever a recount has followed the last recorded
      delivery; and in a run without overlapping selections only then. */
  lemma CountersAgreeIff(n: nat, moves: seq<Move>, size: nat)
    ensures var w := Interleave(n, moves, size);
            && (!w.dirty ==> w.counters == Recount(w.ledger.rows))
            && (w.overlaps == [] ==> (w.counters == Recount(w.ledger.rows) <==> !w.dirty))
  {
    ReachableBehind(n, moves, size);
    Batches.RecountTotal(Interleave(n, moves, size).ledger.rows);
  }
}
