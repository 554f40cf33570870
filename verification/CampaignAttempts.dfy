/** Where events come from when executions overlap: each one goes back to an attempt at that recipient
    that met what the event says. */
module CampaignAttempts {
  import opened Campaign
  import opened CampaignProcesses
  import Outcomes = CampaignOutcomes

  /** Move m attempts a delivery to this recipient and meets what the status reports. */
  ghost predicate Met(n: nat, moves: seq<Move>, size: nat, m: nat, id: nat, status: Status)
    requires m < |moves|
  {
    var w := Interleave(n, moves[..m], size);
    && moves[m].Attempt? && AtHand(w, moves[m].k, false) && Current(w, moves[m].k) == id
    && Outcomes.Reports(status, moves[m].s)
  }

  ghost predicate Witnessed(n: nat, moves: seq<Move>, size: nat, id: nat, status: Status) {
    exists m: nat :: m < |moves| && Met(n, moves, size, m, id, status)
  }

  lemma StillWitnessed(n: nat, moves: seq<Move>, size: nat, id: nat, status: Status)
    requires moves != [] && Witnessed(n, moves[..|moves| - 1], size, id, status)
    ensures Witnessed(n, moves, size, id, status)
  {
    var before := moves[..|moves| - 1];
    var m: nat :| m < |before| && Met(n, before, size, m, id, status);
    assert before[..m] == moves[..m];
    assert Met(n, moves, size, m, id, status);
  }

  // Every event, every skipped row and every decided delivery has its attempt.
  ghost predicate Accounted(n: nat, moves: seq<Move>, size: nat, w: World) {
    && (forall id :: SentEvent(id) in w.ledger.events ==> Witnessed(n, moves, size, id, SENT))
    && (forall id :: FailedEvent(id) in w.ledger.events ==> Witnessed(n, moves, size, id, FAILED))
    && (forall id :: 0 <= id < |w.ledger.rows| && w.ledger.rows[id] == SKIPPED ==>
          Witnessed(n, moves, size, id, SKIPPED))
    && forall k :: AtHand(w, k, true) ==> Witnessed(n, moves, size, Current(w, k), w.execs[k].phase.attempted.fate)
  }

  lemma StillAccounted(n: nat, moves: seq<Move>, size: nat, w: World)
    requires moves != [] && Accounted(n, moves[..|moves| - 1], size, w)
    ensures Accounted(n, moves, size, w)
  {
    forall id, status | Witnessed(n, moves[..|moves| - 1], size, id, status)
      ensures Witnessed(n, moves, size, id, status)
    {
      StillWitnessed(n, moves, size, id, status);
    }
    hide Witnessed, AtHand;
  }

  lemma AttemptAccounted(n: nat, moves: seq<Move>, size: nat, w: World, k: nat, s: Situation)
    requires moves != [] && moves[|moves| - 1] == Attempt(k, s) && w == Interleave(n, moves[..|moves| - 1], size)
    requires Accounted(n, moves, size, w)
    ensures Accounted(n, moves, size, DoAttempt(w, k, s))
  {
    if AtHand(w, k, false) {
      var t, m := DoAttempt(w, k, s), |moves| - 1;
      Outcomes.FateReports(s);
      assert Met(n, moves, size, m, Current(w, k), Fate(s));
      hide Met, Fate, Interleave;
      assert Witnessed(n, moves, size, Current(w, k), Fate(s));
      hide Witnessed;
      forall x | AtHand(t, x, true)
        ensures Witnessed(n, moves, size, Current(t, x), t.execs[x].phase.attempted.fate)
      {
        assert x != k ==> AtHand(w, x, true);
      }
    }
  }

  lemma RecordAccounted(n: nat, moves: seq<Move>, size: nat, w: World, k: nat)
    requires Accounted(n, moves, size, w)
    ensures Accounted(n, moves, size, DoRecord(w, k))
  {
    hide Witnessed;
    if AtHand(w, k, true) && Current(w, k) < |w.ledger.rows| {
      var t := DoRecord(w, k);
      forall x | AtHand(t, x, true)
        ensures Witnessed(n, moves, size, Current(t, x), t.execs[x].phase.attempted.fate)
      {
        assert x != k && AtHand(w, x, true);
      }
    }
  }

  lemma OtherAccounted(n: nat, moves: seq<Move>, size: nat, w: World, move: Move)
    requires Accounted(n, moves, size, w) && !move.Attempt? && !move.Record?
    ensures Accounted(n, moves, size, Take(w, move, size))
  {
    hide Witnessed, Recount, Batch, HeldAmong;
    var t := Take(w, move, size);
    assert t.ledger == w.ledger;
    forall x | AtHand(t, x, true)
      ensures Witnessed(n, moves, size, Current(t, x), t.execs[x].phase.attempted.fate)
    {
      assert AtHand(w, x, true) && t.execs[x] == w.execs[x];
    }
  }

  /** In every interleaving a sent event goes back to an attempt the provider took, a failed event to one
      that failed, and a skipped row to one whose destination was malformed or suppressed. */
  lemma {:induction false} EventsAreMet(n: nat, moves: seq<Move>, size: nat)
    ensures Accounted(n, moves, size, Interleave(n, moves, size))
  {
    if moves != [] {
      var m := |moves| - 1;
      var w := Interleave(n, moves[..m], size);
      EventsAreMet(n, moves[..m], size);
      StillAccounted(n, moves, size, w);
      hide Accounted, DoAttempt, DoRecord;
      match moves[m]
      case Attempt(k, s) => AttemptAccounted(n, moves, size, w, k, s);
      case Record(k) => RecordAccounted(n, moves, size, w, k);
      case _ => OtherAccounted(n, moves, size, w, moves[m]);
    }
  }
}
