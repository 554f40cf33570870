/** Executions that never overlap: the indivisible executions of Campaign are runs of CampaignProcesses
    in which one process at a time moves, so what CampaignChain proves of them is about those runs. */
module CampaignRefinement {
  import opened Campaign
  import opened CampaignProcesses
  import Overlap = CampaignOverlap

  function View(w: World): State {
    State(w.ledger, w.counters, w.campaign, w.links, w.crashes)
  }

  // t shows the state s, and nothing is running.
  ghost predicate Shows(t: World, s: State) {
    View(t) == s && t.execs == map[] && t.overlaps == []
  }

  // Only process 1 is there.
  ghost predicate Alone(t: World, e: Exec) {
    t.execs == map[1 := e] && t.overlaps == []
  }

  lemma Snoc(w: World, moves: seq<Move>, move: Move, size: nat)
    ensures From(w, moves + [move], size) == Take(From(w, moves, size), move, size)
  {
    assert (moves + [move])[..|moves|] == moves;
  }

  // The first j recipients of the batch are delivered.
  lemma {:induction false} DeliverPrefix(w: World, from: nat, batch: seq<nat>, j: nat, world: nat -> Situation,
          size: nat)
    returns (moves: seq<Move>)
    requires Alone(w, Exec(from, Delivering(batch, 0, Nothing))) && j <= |batch| && batch != []
    requires Within(batch, |w.ledger.rows|)
    ensures var t := From(w, moves, size);
            && Alone(t, Exec(from, if j < |batch| then Delivering(batch, j, Nothing) else Counting(batch)))
            && View(t) == View(w).(ledger := DeliverAll(w.ledger, batch[..j], world))
  {
    if j == 0 {
      moves := [];
    } else {
      var before := DeliverPrefix(w, from, batch, j - 1, world, size);
      var t, s := From(w, before, size), world(batch[j - 1]);
      moves := before + [Attempt(1, s)] + [Record(1)];
      Snoc(w, before, Attempt(1, s), size);
      Snoc(w, before + [Attempt(1, s)], Record(1), size);
      assert batch[..j][..j - 1] == batch[..j - 1];
      assert |t.ledger.rows| == |w.ledger.rows|;
      hide DeliverAll, From;
      DeliverNext(t, from, batch, j - 1, s);
    }
  }

  lemma DeliverNext(t: World, from: nat, batch: seq<nat>, i: nat, s: Situation)
    requires Alone(t, Exec(from, Delivering(batch, i, Nothing))) && i < |batch| && batch[i] < |t.ledger.rows|
    ensures var u := DoRecord(DoAttempt(t, 1, s), 1);
            && Alone(u, Exec(from, if i + 1 < |batch| then Delivering(batch, i + 1, Nothing) else Counting(batch)))
            && View(u) == View(t).(ledger := DeliverOne(t.ledger, batch[i], s))
  {
  }

  // Up to the selection: the execution holds its batch, or is about to end without delivering.
  lemma Opening(w: World, from: nat, denied: bool, size: nat) returns (moves: seq<Move>)
    requires w.execs == map[] && w.overlaps == [] && from in w.links
    ensures var batch := Batch(w.ledger.rows, from, size);
            var phase := if w.campaign != SENDING then Deciding(Exhausted) else if denied then Deciding(Fatal)
                         else if batch == [] then Deciding(Exhausted) else Delivering(batch, 0, Nothing);
            From(w, moves, size) == w.(execs := map[1 := Exec(from, phase)])
  {
    var batch := Batch(w.ledger.rows, from, size);
    hide Batch;
    var w1 := DoBegin(w, 1, from);
    Overlap.FromOne(w, Begin(1, from), size);
    if w.campaign != SENDING {
      moves := [Begin(1, from)];
    } else {
      var w2 := DoCheck(w1, 1, denied);
      moves := [Begin(1, from)] + [Check(1, denied)];
      Snoc(w, [Begin(1, from)], Check(1, denied), size);
      assert w2 == w.(execs := map[1 := Exec(from, if denied then Deciding(Fatal) else Selecting)]);
      if !denied {
        moves := moves + [Select(1)];
        Snoc(w, [Begin(1, from)] + [Check(1, denied)], Select(1), size);
        NobodyHeld(w2, batch);
      }
    }
  }

  lemma NobodyHeld(w: World, batch: seq<nat>)
    requires 1 in w.execs && Alone(w, w.execs[1]) && w.execs[1].phase == Selecting
    ensures HeldAmong(w.execs, batch) == []
  {
    Overlap.HeldAmongNone(w.execs, batch);
  }

  // ---- the end of an execution, from each place it can be cut ----

  lemma CrashShows(t: World, e: Exec, size: nat)
    requires Alone(t, e)
    ensures Shows(From(t, [Crash(1)], size), View(t).(crashes := t.crashes + 1))
  {
    Overlap.FromOne(t, Crash(1), size);
  }

  // The handler's write, and then its acknowledgement or a crash.
  lemma WriteShows(t: World, from: nat, outcome: Outcome, size: nat)
    requires Alone(t, Exec(from, Deciding(outcome))) && t.campaign == SENDING
    ensures var s := Written(View(t), outcome);
            && Shows(From(t, [Advance(1), Advance(1)], size), s.(links := s.links - {from}))
            && Shows(From(t, [Advance(1), Crash(1)], size), s.(crashes := s.crashes + 1))
  {
    Overlap.FromTwo(t, Advance(1), Advance(1), size);
    Overlap.FromTwo(t, Advance(1), Crash(1), size);
    hide From;
    assert DoAdvance(t, 1).execs == map[1 := Exec(from, Acknowledging)];
  }

  function Written(s: State, outcome: Outcome): State {
    match outcome
    case Fatal => s.(campaign := CAMPAIGN_FAILED)
    case Exhausted => s.(campaign := if s.campaign == SENDING then CAMPAIGN_SENT else s.campaign)
    case More(cursor) => s.(links := s.links + {cursor})
  }

  lemma IdleShows(t: World, from: nat, size: nat)
    requires Alone(t, Exec(from, Deciding(Exhausted))) && t.campaign != SENDING
    ensures Shows(From(t, [Advance(1), Advance(1)], size), View(t).(links := t.links - {from}))
    ensures Shows(From(t, [Advance(1), Crash(1)], size), View(t).(crashes := t.crashes + 1))
  {
    Overlap.FromTwo(t, Advance(1), Advance(1), size);
    Overlap.FromTwo(t, Advance(1), Crash(1), size);
    hide From;
    assert DoAdvance(t, 1).execs == map[1 := Exec(from, Acknowledging)];
  }

  lemma RecountShows(t: World, from: nat, batch: seq<nat>, size: nat)
    requires Alone(t, Exec(from, Counting(batch))) && batch != []
    ensures var s := View(t).(counters := Recount(t.ledger.rows));
            && Shows(From(t, [Advance(1), Crash(1)], size), s.(crashes := s.crashes + 1))
            && var u := From(t, [Advance(1), Advance(1)], size);
              Alone(u, Exec(from, Deciding(
              if PENDING in t.ledger.rows then More(batch[|batch| - 1] + 1) else Exhausted)))
              && View(u) == s
  {
    Overlap.FromTwo(t, Advance(1), Advance(1), size);
    Overlap.FromTwo(t, Advance(1), Crash(1), size);
    hide From, Recount;
    assert DoAdvance(t, 1).execs == map[1 := Exec(from, Asking(batch))];
  }

  lemma HandedShows(t: World, from: nat, batch: seq<nat>, i: nat, s: Situation, size: nat)
    requires Alone(t, Exec(from, Delivering(batch, i, Nothing))) && i < |batch|
    ensures Shows(From(t, [Attempt(1, s), Crash(1)], size),
                  View(t).(ledger := Hand(t.ledger, batch[i], s), crashes := t.crashes + 1))
  {
    Overlap.FromTwo(t, Attempt(1, s), Crash(1), size);
    hide From, Hand;
    assert DoAttempt(t, 1, s).execs.Keys == {1};
  }

  // ---- the whole execution ----

  lemma EndDelivering(t: World, from: nat, batch: seq<nat>, world: nat -> Situation, size: nat, cut: Cut)
    returns (moves: seq<Move>)
    requires Alone(t, Exec(from, Delivering(batch, 0, Nothing))) && from in t.links && t.campaign == SENDING
    requires batch == Batch(t.ledger.rows, from, size) && batch != []
    ensures Shows(From(t, moves, size), Execute(View(t), from, world, false, size, cut))
  {
    hide From, DeliverAll, Batch, Recount;
    if cut.InDeliveries? {
      var k := if cut.recorded <= |batch| then cut.recorded else |batch|;
      var prefix := DeliverPrefix(t, from, batch, k, world, size);
      var u := From(t, prefix, size);
      if cut.handed && k < |batch| {
        HandedShows(u, from, batch, k, world(batch[k]), size);
        moves := prefix + [Attempt(1, world(batch[k])), Crash(1)];
        Overlap.FromConcat(t, prefix, [Attempt(1, world(batch[k])), Crash(1)], size);
      } else {
        CrashShows(u, u.execs[1], size);
        moves := prefix + [Crash(1)];
        Overlap.FromConcat(t, prefix, [Crash(1)], size);
      }
    } else {
      var prefix := DeliverPrefix(t, from, batch, |batch|, world, size);
      assert batch[..|batch|] == batch;
      var u := From(t, prefix, size);
      RecountShows(u, from, batch, size);
      if cut == AfterRecount {
        moves := prefix + [Advance(1), Crash(1)];
        Overlap.FromConcat(t, prefix, [Advance(1), Crash(1)], size);
      } else {
        var v, last := From(u, [Advance(1), Advance(1)], size),
            [Advance(1), if cut == Whole then Advance(1) else Crash(1)];
        WriteShows(v, from, v.execs[1].phase.outcome, size);
        moves := prefix + ([Advance(1), Advance(1)] + last);
        Overlap.FromConcat(u, [Advance(1), Advance(1)], last, size);
        Overlap.FromConcat(t, prefix, [Advance(1), Advance(1)] + last, size);
      }
    }
  }

  /** A process left alone does exactly the indivisible execution, wherever it is cut. */
  lemma LoneExecution(w: World, from: nat, world: nat -> Situation, denied: bool, size: nat, cut: Cut)
    returns (moves: seq<Move>)
    requires w.execs == map[] && w.overlaps == [] && from in w.links
    ensures Shows(From(w, moves, size), Execute(View(w), from, world, denied, size, cut))
  {
    hide From, DeliverAll, Batch, Recount;
    var opening := Opening(w, from, denied, size);
    var t, batch := From(w, opening, size), Batch(w.ledger.rows, from, size);
    var tail;
    if w.campaign == SENDING && !denied && batch != [] {
      tail := EndDelivering(t, from, batch, world, size, cut);
    } else if cut.InDeliveries? || cut.AfterRecount? {
      tail := [Crash(1)];
      CrashShows(t, t.execs[1], size);
    } else {
      tail := [Advance(1), if cut == Whole then Advance(1) else Crash(1)];
      if w.campaign == SENDING {
        WriteShows(t, from, t.execs[1].phase.outcome, size);
      } else {
        IdleShows(t, from, size);
      }
    }
    moves := opening + tail;
    Overlap.FromConcat(w, opening, tail, size);
  }

  /** Every run of indivisible executions is a run of processes that never overlap. */
  lemma {:induction false} RunsRefine(n: nat, steps: seq<Step>, size: nat) returns (moves: seq<Move>)
    ensures Shows(Interleave(n, moves, size), RunAll(n, steps, size))
  {
    hide Execute, Take;
    if steps == [] {
      moves := [];
    } else {
      var m := |steps| - 1;
      var before := RunsRefine(n, steps[..m], size);
      var w := Interleave(n, before, size);
      if steps[m].from !in w.links {
        moves := before;
      } else {
        var last;
        match steps[m] {
          case Run(from, world, denied, cut) => last := LoneExecution(w, from, world, denied, size, cut);
          case DeadLetter(from) => last := BuryOne(w, from, size);
        }
        moves := before + last;
        Overlap.FromConcat(Open(Start(n)), before, last, size);
      }
    }
  }

  lemma BuryOne(w: World, from: nat, size: nat) returns (moves: seq<Move>)
    ensures From(w, moves, size) == w.(links := w.links - {from})
  {
    moves := [Bury(from)];
    Overlap.FromOne(w, Bury(from), size);
  }
}
