/** What overlapping executions of a campaign's send jobs can and cannot do: every run of
    CampaignProcesses, and the exact condition under which nobody is sent a message twice. */
module CampaignOverlap {
  import opened Campaign
  import opened CampaignProcesses

  ghost predicate WellShaped(w: World) {
    forall k :: k in w.execs && w.execs[k].phase.Delivering? ==>
      && Increasing(w.execs[k].phase.batch) && Within(w.execs[k].phase.batch, |w.ledger.rows|)
      && w.execs[k].phase.i < |w.execs[k].phase.batch|
      && (w.execs[k].phase.attempted.Decided? ==> w.execs[k].phase.attempted.fate != PENDING)
  }

  function Free(w: World, id: nat): nat
    requires id < |w.ledger.rows|
  {
    if w.ledger.rows[id] == PENDING && HoldersOf(w.execs, id) == {} then 1 else 0
  }

  /** Records and holders of a recipient are at most one, plus one for every overlapping selection of it. */
  ghost predicate SharedOut(w: World, id: nat)
    requires id < |w.ledger.rows|
  {
    multiset(w.recorded)[id] + |HoldersOf(w.execs, id)| + Free(w, id) <= 1 + multiset(w.overlaps)[id]
  }

  /** Every provider call is accounted for by a record, by an execution about to record it, or by a crash. */
  ghost predicate CallsCovered(w: World, id: nat) {
    multiset(w.ledger.calls)[id] <= multiset(w.recorded)[id] + |CallersOf(w.execs, id)| + multiset(w.lostCalls)[id]
  }

  /** The row is pending until the first record, and after exactly one the events say what the row says. */
  ghost predicate RowTruthful(l: Ledger, id: nat)
    requires id < |l.rows|
  {
    && multiset(l.events)[SentEvent(id)] == (if l.rows[id] == SENT then 1 else 0)
    && multiset(l.events)[FailedEvent(id)] == (if l.rows[id] == FAILED then 1 else 0)
  }

  ghost predicate RecordsShown(w: World, id: nat)
    requires id < |w.ledger.rows|
  {
    && (w.ledger.rows[id] == PENDING <==> multiset(w.recorded)[id] == 0)
    && (multiset(w.recorded)[id] <= 1 ==> RowTruthful(w.ledger, id))
  }

  ghost predicate Tally(w: World, id: nat)
    requires id < |w.ledger.rows|
  {
    SharedOut(w, id) && CallsCovered(w, id) && RecordsShown(w, id)
  }

  ghost predicate Inv(w: World, n: nat) {
    && |w.ledger.rows| == n && WellShaped(w) && |w.lostCalls| <= w.crashes
    && (forall id :: 0 <= id < n ==> Tally(w, id))
    && Within(w.ledger.calls, n) && Within(w.overlaps, n) && Within(w.lostCalls, n)
  }

  // ---- moves that leave the deliveries alone ----

  // k moves between phases in which it holds nothing.
  lemma MoveKeeps(w: World, t: World, n: nat, k: nat, e: Exec)
    requires Inv(w, n) && t.execs == w.execs[k := e] && !e.phase.Delivering?
    requires k in w.execs ==> !w.execs[k].phase.Delivering?
    requires t.ledger == w.ledger && t.recorded == w.recorded && t.overlaps == w.overlaps
    requires t.lostCalls == w.lostCalls && t.crashes == w.crashes
    ensures Inv(t, n)
  {
    forall id | 0 <= id < n
      ensures Tally(t, id)
    {
      assert Tally(w, id);
      HoldersPut(w.execs, k, e, id);
      CallersPut(w.execs, k, e, id);
      hide HoldersOf, CallersOf;
    }
    assert WellShaped(t);
  }

  lemma DropKeeps(w: World, n: nat, k: nat)
    requires Inv(w, n)
    ensures Inv(DoCrash(w, k), n)
  {
    var t := DoCrash(w, k);
    if k in w.execs {
      hide Tally;
      forall id | 0 <= id < n
        ensures Tally(t, id)
      {
        DroppedTally(w, k, id);
      }
      assert WellShaped(t);
    }
  }

  lemma DroppedTally(w: World, k: nat, id: nat)
    requires id < |w.ledger.rows| && Tally(w, id) && k in w.execs
    ensures Tally(DoCrash(w, k), id)
  {
    var t := DoCrash(w, k);
    HoldersDrop(w.execs, k, id);
    CallersDrop(w.execs, k, id);
    hide HoldersOf, CallersOf, RecordsShown, Rest;
    assert multiset(t.lostCalls)[id] >= multiset(w.lostCalls)[id] + if Calling(w.execs[k], id) then 1 else 0;
  }

  lemma AckKeeps(w: World, t: World, n: nat, k: nat)
    requires Inv(w, n) && k in w.execs && !w.execs[k].phase.Delivering? && t.execs == w.execs - {k}
    requires t.ledger == w.ledger && t.recorded == w.recorded && t.overlaps == w.overlaps
    requires t.lostCalls == w.lostCalls && t.crashes == w.crashes
    ensures Inv(t, n)
  {
    forall id | 0 <= id < n
      ensures Tally(t, id)
    {
      assert Tally(w, id);
      HoldersDrop(w.execs, k, id);
      CallersDrop(w.execs, k, id);
      hide HoldersOf, CallersOf;
    }
    assert WellShaped(t);
  }

  // ---- selecting, calling, recording ----

  lemma WithinConcat(a: seq<nat>, b: seq<nat>, n: nat)
    requires Within(a, n) && forall id :: id in b ==> id < n
    ensures Within(a + b, n)
  {
    forall i | 0 <= i < |a + b|
      ensures (a + b)[i] < n
    {
      if i >= |a| {
        assert b[i - |a|] in b;
      }
    }
  }

  lemma SelectKeeps(w: World, n: nat, k: nat, size: nat)
    requires Inv(w, n)
    ensures Inv(DoSelect(w, k, size), n)
  {
    if k in w.execs && w.execs[k].phase == Selecting {
      var batch := Batch(w.ledger.rows, w.execs[k].from, size);
      var t := DoSelect(w, k, size);
      hide Batch;
      WithinConcat(w.overlaps, HeldAmong(w.execs, batch), n);
      if batch == [] {
        MoveKeeps(w, t, n, k, t.execs[k]);
      } else {
        forall id | 0 <= id < n
          ensures Tally(t, id)
        {
          SelectedTally(w, t, k, batch, id);
        }
        assert WellShaped(t);
      }
    }
  }

  lemma SelectedTally(w: World, t: World, k: nat, batch: seq<nat>, id: nat)
    requires id < |w.ledger.rows| && Tally(w, id) && k in w.execs && w.execs[k].phase == Selecting
    requires Increasing(batch) && Within(batch, |w.ledger.rows|)
      && forall i :: 0 <= i < |batch| ==> w.ledger.rows[batch[i]] == PENDING
    requires t == Put(w, k, w.execs[k].(phase := Delivering(batch, 0, Nothing)))
                  .(overlaps := w.overlaps + HeldAmong(w.execs, batch))
    ensures Tally(t, id)
  {
    CallersPut(w.execs, k, t.execs[k], id);
    hide CallersOf, HoldersOf, HeldAmong, SharedOut, Increasing, Rest;
    assert id in batch ==> w.ledger.rows[id] == PENDING;
    SelectedShared(w, t, k, batch, id);
  }

  lemma SelectedShared(w: World, t: World, k: nat, batch: seq<nat>, id: nat)
    requires id < |w.ledger.rows| && SharedOut(w, id) && k in w.execs && w.execs[k].phase == Selecting
    requires w.ledger.rows[id] != PENDING ==> id !in batch
    requires Increasing(batch) && t.ledger.rows == w.ledger.rows && t.recorded == w.recorded
    requires t.execs == w.execs[k := w.execs[k].(phase := Delivering(batch, 0, Nothing))]
    requires t.overlaps == w.overlaps + HeldAmong(w.execs, batch)
    ensures SharedOut(t, id)
  {
    HeldAmongCounts(w.execs, batch, id);
    hide HeldAmong, Increasing;
    assert multiset(t.overlaps)[id] == multiset(w.overlaps)[id] + multiset(HeldAmong(w.execs, batch))[id];
    HeldIff(w.execs, id);
    hide Held;
    HoldersPut(w.execs, k, t.execs[k], id);
    hide HoldersOf;
    assert batch[0..] == batch;
  }

  lemma AttemptKeeps(w: World, n: nat, k: nat, s: Situation)
    requires Inv(w, n)
    ensures Inv(DoAttempt(w, k, s), n)
  {
    if AtHand(w, k, false) {
      var t := DoAttempt(w, k, s);
      assert Rest(t.execs[k]) == Rest(w.execs[k]);
      forall id | 0 <= id < n
        ensures Tally(t, id)
      {
        AttemptedTally(w, t, k, s, id);
      }
      assert WellShaped(t);
      assert Current(w, k) < n;
    }
  }

  lemma AttemptedTally(w: World, t: World, k: nat, s: Situation, id: nat)
    requires id < |w.ledger.rows| && Tally(w, id) && AtHand(w, k, false) && t == DoAttempt(w, k, s)
    ensures Tally(t, id)
  {
    HoldersPut(w.execs, k, t.execs[k], id);
    CallersPut(w.execs, k, t.execs[k], id);
    assert Rest(t.execs[k]) == Rest(w.execs[k]);
    hide HoldersOf, CallersOf, Fate;
    assert multiset(t.ledger.calls)[id] == multiset(w.ledger.calls)[id]
        + if ReachesProvider(s) && id == Current(w, k) then 1 else 0;
  }

  lemma RestShrinks(e: Exec, next: Phase, id: nat)
    requires e.phase.Delivering? && Increasing(e.phase.batch) && e.phase.i < |e.phase.batch|
    requires next == if e.phase.i + 1 == |e.phase.batch| then Counting(e.phase.batch)
                     else Delivering(e.phase.batch, e.phase.i + 1, Nothing)
    ensures id in Rest(e) <==> id in Rest(e.(phase := next)) || id == e.phase.batch[e.phase.i]
    ensures e.phase.batch[e.phase.i] !in Rest(e.(phase := next))
  {
    var p := e.phase;
    assert p.batch[p.i..] == [p.batch[p.i]] + p.batch[p.i + 1..];
    assert p.i + 1 == |p.batch| ==> p.batch[p.i + 1..] == [];
  }

  lemma RecordKeeps(w: World, n: nat, k: nat)
    requires Inv(w, n)
    ensures Inv(DoRecord(w, k), n)
  {
    if AtHand(w, k, true) && Current(w, k) < n {
      var t := DoRecord(w, k);
      forall id | 0 <= id < n
        ensures Tally(t, id)
      {
        RecordedTally(w, t, k, id);
      }
      assert WellShaped(t);
    }
  }

  lemma RecordedTally(w: World, t: World, k: nat, id: nat)
    requires id < |w.ledger.rows| && Tally(w, id) && WellShaped(w) && AtHand(w, k, true)
      && Current(w, k) < |w.ledger.rows|
    requires t == DoRecord(w, k)
    ensures Tally(t, id)
  {
    var p := w.execs[k].phase;
    assert multiset(t.recorded)[id] == multiset(w.recorded)[id] + if id == Current(w, k) then 1 else 0;
    RecordedShared(w, t, k, id);
    RecordedCalls(w, t, k, id);
    RecordedRow(w.ledger, w.recorded, Current(w, k), p.attempted.fate, id);
    hide SharedOut, CallsCovered, RowTruthful, Note;
  }

  lemma RecordedShared(w: World, t: World, k: nat, id: nat)
    requires id < |w.ledger.rows| && SharedOut(w, id) && WellShaped(w) && AtHand(w, k, true)
    requires Current(w, k) < |w.ledger.rows| && t == DoRecord(w, k)
    ensures SharedOut(t, id)
  {
    var c, p := Current(w, k), w.execs[k].phase;
    RestShrinks(w.execs[k], t.execs[k].phase, id);
    HoldersPut(w.execs, k, t.execs[k], id);
    assert multiset(t.recorded)[id] == multiset(w.recorded)[id] + if id == c then 1 else 0;
    hide Rest, WellShaped, Increasing;
    assert id == c ==> k in HoldersOf(w.execs, id);
    hide HoldersOf;
  }

  lemma RecordedCalls(w: World, t: World, k: nat, id: nat)
    requires CallsCovered(w, id) && AtHand(w, k, true) && Current(w, k) < |w.ledger.rows| && t == DoRecord(w, k)
    ensures CallsCovered(t, id)
  {
    CallersPut(w.execs, k, t.execs[k], id);
    hide CallersOf;
    assert multiset(t.recorded)[id] == multiset(w.recorded)[id] + if id == Current(w, k) then 1 else 0;
  }

  lemma RecordedRow(l: Ledger, recorded: seq<nat>, c: nat, fate: Status, id: nat)
    requires id < |l.rows| && c < |l.rows| && fate != PENDING
    requires (l.rows[id] == PENDING <==> multiset(recorded)[id] == 0)
      && (multiset(recorded)[id] <= 1 ==> RowTruthful(l, id))
    ensures var r := Note(l, c, fate);
            && (r.rows[id] == PENDING <==> multiset(recorded + [c])[id] == 0)
            && (multiset(recorded + [c])[id] <= 1 ==> RowTruthful(r, id))
  {
    var r := Note(l, c, fate);
    assert multiset(recorded + [c])[id] == multiset(recorded)[id] + if id == c then 1 else 0;
    assert multiset(r.events)[SentEvent(id)] == multiset(l.events)[SentEvent(id)]
        + if id == c && fate == SENT then 1 else 0;
    assert multiset(r.events)[FailedEvent(id)] == multiset(l.events)[FailedEvent(id)]
        + if id == c && fate == FAILED then 1 else 0;
  }

  // ---- every run ----

  lemma AdvanceKeeps(w: World, n: nat, k: nat)
    requires Inv(w, n)
    ensures Inv(DoAdvance(w, k), n)
  {
    var t := DoAdvance(w, k);
    if k in w.execs && !w.execs[k].phase.Delivering? && t != w {
      hide Inv, Recount;
      if w.execs[k].phase == Acknowledging {
        AckKeeps(w, t, n, k);
      } else {
        MoveKeeps(w, t, n, k, t.execs[k]);
      }
    }
  }

  lemma TakeKeeps(w: World, n: nat, move: Move, size: nat)
    requires Inv(w, n)
    ensures Inv(Take(w, move, size), n)
  {
    hide Inv, DoAdvance, DoSelect, DoAttempt, DoRecord, DoCrash;
    match move
    case Begin(k, from) =>
      if Take(w, move, size) != w {
        MoveKeeps(w, Take(w, move, size), n, k, Take(w, move, size).execs[k]);
      }
    case Check(k, denied) =>
      if Take(w, move, size) != w {
        MoveKeeps(w, Take(w, move, size), n, k, Take(w, move, size).execs[k]);
      }
    case Select(k) => SelectKeeps(w, n, k, size);
    case Attempt(k, s) => AttemptKeeps(w, n, k, s);
    case Record(k) => RecordKeeps(w, n, k);
    case Advance(k) => AdvanceKeeps(w, n, k);
    case Crash(k) => DropKeeps(w, n, k);
    case Bury(from) => LinksKeep(w, n, from);
  }

  lemma LinksKeep(w: World, n: nat, from: nat)
    requires Inv(w, n)
    ensures Inv(w.(links := w.links - {from}), n)
  {
    hide Rest, Calling, RowTruthful;
    var t := w.(links := w.links - {from});
    forall id | 0 <= id < n
      ensures Tally(t, id)
    {
      assert Tally(w, id);
    }
  }

  lemma StartInv(n: nat)
    ensures Inv(Open(Start(n)), n)
  {
    var w := Open(Start(n));
    forall id | 0 <= id < n
      ensures Tally(w, id)
    {
      assert HoldersOf(w.execs, id) == {} && CallersOf(w.execs, id) == {};
    }
  }

  lemma {:induction false} FromKeeps(w: World, n: nat, moves: seq<Move>, size: nat)
    requires Inv(w, n)
    ensures Inv(From(w, moves, size), n)
  {
    hide Inv, Take;
    if moves != [] {
      FromKeeps(w, n, moves[..|moves| - 1], size);
      TakeKeeps(From(w, moves[..|moves| - 1], size), n, moves[|moves| - 1], size);
    }
  }

  lemma ReachableInv(n: nat, moves: seq<Move>, size: nat)
    ensures Inv(Interleave(n, moves, size), n)
  {
    hide Inv, From;
    StartInv(n);
    FromKeeps(Open(Start(n)), n, moves, size);
  }

  /** Per recipient, in every run of overlapping, retried and crashing executions: the deliveries recorded
      are at most one more than the overlapping selections of it, and the provider calls at most one more
      than those and the calls whose record a crash lost. A recipient no selection overlapped is recorded
      once at most, and then its events say what its row says. */
  lemma RecipientBound(n: nat, moves: seq<Move>, size: nat, id: nat)
    requires id < n
    ensures var w := Interleave(n, moves, size);
            && multiset(w.recorded)[id] <= 1 + multiset(w.overlaps)[id]
            && multiset(w.ledger.calls)[id] <= 1 + multiset(w.overlaps)[id] + multiset(w.lostCalls)[id]
            && |w.ledger.rows| == n && (id !in w.overlaps ==> RowTruthful(w.ledger, id))
  {
    ReachableInv(n, moves, size);
    var w := Interleave(n, moves, size);
    assert Tally(w, id);
    CallersHold(w.execs, id);
  }

  function SumOver(m: multiset<nat>, n: nat): nat {
    if n == 0 then 0 else SumOver(m, n - 1) + m[n - 1]
  }

  lemma {:induction false} SumAdd(m: multiset<nat>, x: nat, n: nat)
    ensures SumOver(m + multiset{x}, n) == SumOver(m, n) + if x < n then 1 else 0
  {
    if n > 0 {
      SumAdd(m, x, n - 1);
    }
  }

  lemma {:induction false} SumIsLength(s: seq<nat>, n: nat)
    requires Within(s, n)
    ensures SumOver(multiset(s), n) == |s|
  {
    if s == [] {
      SumZero(n);
    } else {
      var m := |s| - 1;
      assert s == s[..m] + [s[m]];
      SumIsLength(s[..m], n);
      SumAdd(multiset(s[..m]), s[m], n);
    }
  }

  lemma {:induction false} SumZero(n: nat)
    ensures SumOver(multiset{}, n) == 0
  {
    if n > 0 {
      SumZero(n - 1);
    }
  }

  lemma {:induction false} SumBound(a: multiset<nat>, b: multiset<nat>, c: multiset<nat>, n: nat)
    requires forall id :: 0 <= id < n ==> a[id] <= 1 + b[id] + c[id]
    ensures SumOver(a, n) <= n + SumOver(b, n) + SumOver(c, n)
  {
    if n > 0 {
      SumBound(a, b, c, n - 1);
    }
  }

  /** Over the whole campaign the provider is called at most once per recipient, plus once per crash, plus
      once per row that a selection took while another execution held it. */
  lemma CallsAreBounded(n: nat, moves: seq<Move>, size: nat)
    ensures var w := Interleave(n, moves, size); |w.ledger.calls| <= n + w.crashes + |w.overlaps|
  {
    ReachableInv(n, moves, size);
    CallsOf(Interleave(n, moves, size), n);
  }

  lemma CallsOf(w: World, n: nat)
    requires Inv(w, n)
    ensures |w.ledger.calls| <= n + w.crashes + |w.overlaps|
  {
    forall id | 0 <= id < n
      ensures multiset(w.ledger.calls)[id] <= 1 + multiset(w.overlaps)[id] + multiset(w.lostCalls)[id]
    {
      assert Tally(w, id);
      CallersHold(w.execs, id);
    }
    SumBound(multiset(w.ledger.calls), multiset(w.overlaps), multiset(w.lostCalls), n);
    SumIsLength(w.ledger.calls, n);
    SumIsLength(w.overlaps, n);
    SumIsLength(w.lostCalls, n);
  }

  // Until the first overlap, what an execution is about to record is still pending.
  lemma HeldIsPending(w: World, n: nat, k: nat)
    requires Inv(w, n) && w.overlaps == [] && AtHand(w, k, true) && Current(w, k) < n
    ensures w.ledger.rows[Current(w, k)] == PENDING
  {
    var p := w.execs[k].phase;
    assert p.batch[p.i..][0] == Current(w, k);
    assert k in HoldersOf(w.execs, Current(w, k));
    assert Tally(w, Current(w, k));
  }

  // ---- the exact condition ----

  predicate NoSelection(moves: seq<Move>) {
    forall i :: 0 <= i < |moves| ==> !moves[i].Select?
  }

  /** Each recipient recorded once at most, with the events its row claims, and no more provider calls
      than recipients and crashes. */
  ghost predicate AtMostOnce(w: World, n: nat) {
    && |w.ledger.rows| == n && |w.ledger.calls| <= n + w.crashes
    && forall id :: 0 <= id < n ==> multiset(w.recorded)[id] <= 1 && RowTruthful(w.ledger, id)
  }

  lemma {:induction false} FromConcat(w: World, a: seq<Move>, b: seq<Move>, size: nat)
    ensures From(w, a + b, size) == From(From(w, a, size), b, size)
  {
    hide Take;
    if b == [] {
      assert a + b == a;
    } else {
      var n := |b| - 1;
      assert (a + b)[..|a| + n] == a + b[..n];
      FromConcat(w, a, b[..n], size);
    }
  }

  lemma FromOne(w: World, move: Move, size: nat)
    ensures From(w, [move], size) == Take(w, move, size)
  {
    assert [move][..0] == [];
  }

  lemma FromTwo(w: World, a: Move, b: Move, size: nat)
    ensures From(w, [a, b], size) == Take(Take(w, a, size), b, size)
  {
    hide Take;
    FromOne(w, a, size);
    assert [a, b][..1] == [a];
  }

  lemma {:induction false} NoSelectionNoOverlap(w: World, moves: seq<Move>, size: nat)
    requires NoSelection(moves)
    ensures From(w, moves, size).overlaps == w.overlaps
  {
    if moves != [] {
      NoSelectionNoOverlap(w, moves[..|moves| - 1], size);
      assert !moves[|moves| - 1].Select?;
    }
  }

  const ACCEPTED := Situation(true, true, false, true, true)

  // An execution can always record the recipient at hand, whatever else is going on.
  lemma RecordOne(w: World, n: nat, k: nat, size: nat) returns (moves: seq<Move>)
    requires Inv(w, n) && k in w.execs && w.execs[k].phase.Delivering?
    ensures NoSelection(moves)
    ensures var t, p := From(w, moves, size), w.execs[k].phase;
            && Inv(t, n) && p.i < |p.batch| && t.recorded == w.recorded + [p.batch[p.i]] && k in t.execs
            && (forall x :: x != k ==> (x in t.execs <==> x in w.execs))
            && (forall x :: x != k && x in w.execs ==> t.execs[x] == w.execs[x])
            && (p.i + 1 < |p.batch| ==> t.execs[k].phase == Delivering(p.batch, p.i + 1, Nothing))
  {
    assert Current(w, k) < n;
    hide Inv, Hand, Note, From;
    if w.execs[k].phase.attempted == Nothing {
      moves := [Attempt(k, ACCEPTED), Record(k)];
      FromTwo(w, moves[0], moves[1], size);
    } else {
      moves := [Record(k)];
      FromOne(w, moves[0], size);
    }
    FromKeeps(w, n, moves, size);
  }

  // ... and so go on until it has recorded id.
  lemma {:induction false} RecordUpTo(w: World, n: nat, k: nat, id: nat, size: nat) returns (moves: seq<Move>)
    requires Inv(w, n) && k in w.execs && id in Rest(w.execs[k])
    ensures NoSelection(moves)
    ensures var t := From(w, moves, size);
            && Inv(t, n) && multiset(t.recorded)[id] >= multiset(w.recorded)[id] + 1
            && forall x :: x != k && x in w.execs ==> x in t.execs && t.execs[x] == w.execs[x]
    decreases |Rest(w.execs[k])|
  {
    hide Inv;
    var p := w.execs[k].phase;
    var first := RecordOne(w, n, k, size);
    var t := From(w, first, size);
    assert multiset(t.recorded) == multiset(w.recorded) + multiset{p.batch[p.i]};
    if p.batch[p.i] == id {
      moves := first;
    } else {
      assert p.batch[p.i..] == [p.batch[p.i]] + p.batch[p.i + 1..];
      assert p.i + 1 < |p.batch|;
      var rest := RecordUpTo(t, n, k, id, size);
      FromConcat(w, first, rest, size);
      moves := first + rest;
    }
  }

  /** The exact condition, at each selection of a run without overlap so far: whatever the executions do
      before the next selection, everyone is sent to once at most, if and only if no other execution still
      holds an unrecorded row of the selected batch. */
  lemma SafeSelectionIff(n: nat, before: seq<Move>, k: nat, size: nat)
    requires var w := Interleave(n, before, size); w.overlaps == [] && k in w.execs && w.execs[k].phase == Selecting
    ensures var w := Interleave(n, before, size);
            (forall more :: NoSelection(more) ==> AtMostOnce(From(DoSelect(w, k, size), more, size), n))
            <==> forall id :: id in Batch(w.ledger.rows, w.execs[k].from, size) ==> !Held(w.execs, id)
  {
    ReachableInv(n, before, size);
    var w := Interleave(n, before, size);
    var t, batch := DoSelect(w, k, size), Batch(w.ledger.rows, w.execs[k].from, size);
    SelectKeeps(w, n, k, size);
    if id :| id in batch && Held(w.execs, id) {
      assert id < n;
      var more := TwiceRecorded(w, n, k, id, size);
      assert multiset(From(t, more, size).recorded)[id] >= 2;
    } else {
      HeldAmongNone(w.execs, batch);
      forall more | NoSelection(more)
        ensures AtMostOnce(From(t, more, size), n)
      {
        NoSelectionNoOverlap(t, more, size);
        FromKeeps(t, n, more, size);
        OnceWithoutOverlap(From(t, more, size), n);
      }
    }
  }

  lemma {:induction false} HeldAmongNone(execs: map<nat, Exec>, ids: seq<nat>)
    requires forall id :: id in ids ==> !Held(execs, id)
    ensures HeldAmong(execs, ids) == []
  {
    if ids != [] {
      HeldAmongNone(execs, ids[..|ids| - 1]);
    }
  }

  lemma OnceWithoutOverlap(w: World, n: nat)
    requires Inv(w, n) && w.overlaps == []
    ensures AtMostOnce(w, n)
  {
    CallsOf(w, n);
    forall id | 0 <= id < n
      ensures multiset(w.recorded)[id] <= 1 && RowTruthful(w.ledger, id)
    {
      assert Tally(w, id);
    }
  }

  // The two executions that hold id record it one after the other.
  lemma TwiceRecorded(w: World, n: nat, k: nat, id: nat, size: nat) returns (more: seq<Move>)
    requires Inv(w, n) && k in w.execs && w.execs[k].phase == Selecting
    requires id in Batch(w.ledger.rows, w.execs[k].from, size) && Held(w.execs, id)
    ensures NoSelection(more) && multiset(From(DoSelect(w, k, size), more, size).recorded)[id] >= 2
  {
    var batch, t := Batch(w.ledger.rows, w.execs[k].from, size), DoSelect(w, k, size);
    SelectKeeps(w, n, k, size);
    var other :| other in w.execs && id in Rest(w.execs[other]);
    hide Inv, Batch, Held;
    assert other != k && t.execs[other] == w.execs[other] && t.execs[k].phase == Delivering(batch, 0, Nothing);
    assert Rest(t.execs[k]) == batch;
    hide DoSelect, Rest;
    more := BothRecord(t, n, k, other, id, size);
  }

  lemma BothRecord(t: World, n: nat, k: nat, other: nat, id: nat, size: nat) returns (more: seq<Move>)
    requires Inv(t, n) && k != other && k in t.execs && other in t.execs
    requires id in Rest(t.execs[k]) && id in Rest(t.execs[other])
    ensures NoSelection(more) && multiset(From(t, more, size).recorded)[id] >= 2
  {
    hide Inv, Rest, From;
    var first := RecordUpTo(t, n, k, id, size);
    var second := RecordUpTo(From(t, first, size), n, other, id, size);
    FromConcat(t, first, second, size);
    more := first + second;
  }

  const BOTH_START := [Begin(1, 0), Begin(2, 0), Check(1, false), Check(2, false)]

  const BOTH_SELECT := [Select(1), Select(2)]

  const BOTH_SEND := [Attempt(1, ACCEPTED), Attempt(2, ACCEPTED), Record(1), Record(2)]

  // Two executions of the first job of a campaign with one recipient, in the given phase.
  function Both(phase: Phase): World {
    Open(Start(1)).(execs := map[1 := Exec(0, phase), 2 := Exec(0, phase)])
  }

  lemma FourMoves(w: World, m: seq<Move>, size: nat)
    requires |m| == 4
    ensures From(w, m, size) == Take(Take(Take(Take(w, m[0], size), m[1], size), m[2], size), m[3], size)
  {
    hide Take;
    FromTwo(w, m[0], m[1], size);
    FromTwo(From(w, [m[0], m[1]], size), m[2], m[3], size);
    FromConcat(w, [m[0], m[1]], [m[2], m[3]], size);
    assert m == [m[0], m[1]] + [m[2], m[3]];
  }

  lemma BothStart()
    ensures From(Open(Start(1)), BOTH_START, 1) == Both(Selecting)
  {
    var w := Open(Start(1));
    FourMoves(w, BOTH_START, 1);
    hide From, Start;
    var w2 := DoBegin(DoBegin(w, 1, 0), 2, 0);
    assert w2.execs == map[1 := Exec(0, Checking), 2 := Exec(0, Checking)];
    assert DoCheck(DoCheck(w2, 1, false), 2, false) == Both(Selecting);
  }

  lemma SelectFirst(one: World)
    requires one == DoSelect(Both(Selecting), 1, 1)
    ensures one == Both(Selecting).(execs := Both(Selecting).execs[1 := Exec(0, Delivering([0], 0, Nothing))])
  {
    BatchOfOne();
    hide Batch, HeldAmong;
    HeldAmongNone(Both(Selecting).execs, [0]);
  }

  lemma SelectSecond(one: World, two: World)
    requires one == Both(Selecting).(execs := Both(Selecting).execs[1 := Exec(0, Delivering([0], 0, Nothing))])
    requires two == DoSelect(one, 2, 1)
    ensures two.execs == map[1 := Exec(0, Delivering([0], 0, Nothing)), 2 := Exec(0, Delivering([0], 0, Nothing))]
    ensures two == one.(execs := two.execs, overlaps := [0])
  {
    BatchOfOne();
    hide Batch, HeldAmong, Start;
    var holding := Exec(0, Delivering([0], 0, Nothing));
    assert one.execs == map[1 := holding, 2 := Exec(0, Selecting)];
    HeldAmongOne(one.execs, 1, 0);
    hide Rest;
    assert two.execs == one.execs[2 := holding];
  }

  lemma BatchOfOne()
    ensures Start(1).ledger.rows == [PENDING] && Batch([PENDING], 0, 1) == [0]
  {
    assert PendingFrom([PENDING], 1) == [];
  }

  lemma HeldAmongOne(execs: map<nat, Exec>, k: nat, id: nat)
    requires k in execs && id in Rest(execs[k])
    ensures HeldAmong(execs, [id]) == [id]
  {
    assert [id][..0] == [];
  }

  lemma BothSelect()
    ensures From(Both(Selecting), BOTH_SELECT, 1) == Both(Delivering([0], 0, Nothing)).(overlaps := [0])
  {
    var w := Both(Selecting);
    FromTwo(w, Select(1), Select(2), 1);
    assert BOTH_SELECT == [Select(1), Select(2)];
    hide From, DoSelect, Start;
    SelectFirst(DoSelect(w, 1, 1));
    SelectSecond(DoSelect(w, 1, 1), DoSelect(DoSelect(w, 1, 1), 2, 1));
  }

  lemma AttemptBoth(w: World)
    requires w == Both(Delivering([0], 0, Nothing)).(overlaps := [0])
    ensures DoAttempt(DoAttempt(w, 1, ACCEPTED), 2, ACCEPTED)
         == Both(Delivering([0], 0, Decided(SENT, true))).(overlaps := [0], ledger := Ledger([PENDING], [], [0, 0]))
  {
    var one := DoAttempt(w, 1, ACCEPTED);
    assert one.execs[2] == w.execs[2] && one.ledger == Ledger([PENDING], [], [0]);
    var two := DoAttempt(one, 2, ACCEPTED);
    assert two.ledger == Ledger([PENDING], [], [0, 0]);
    var sent := Exec(0, Delivering([0], 0, Decided(SENT, true)));
    assert two.execs == map[1 := sent, 2 := sent];
  }

  lemma RecordBoth(w: World)
    requires w == Both(Delivering([0], 0, Decided(SENT, true)))
             .(overlaps := [0], ledger := Ledger([PENDING], [], [0, 0]))
    ensures DoRecord(DoRecord(w, 1), 2).ledger == Ledger([SENT], [SentEvent(0), SentEvent(0)], [0, 0])
    ensures DoRecord(DoRecord(w, 1), 2).crashes == 0
  {
    var one := DoRecord(w, 1);
    assert one.execs[2] == w.execs[2] && one.ledger == Ledger([SENT], [SentEvent(0)], [0, 0]);
  }

  lemma BothSend(w: World)
    requires w == Both(Delivering([0], 0, Nothing)).(overlaps := [0])
    ensures var t := From(w, BOTH_SEND, 1);
            t.ledger == Ledger([SENT], [SentEvent(0), SentEvent(0)], [0, 0]) && t.crashes == 0
  {
    FourMoves(w, BOTH_SEND, 1);
    AttemptBoth(w);
    RecordBoth(DoAttempt(DoAttempt(w, 1, ACCEPTED), 2, ACCEPTED));
    hide From, DoAttempt, DoRecord, Both;
  }

  /** What that costs: two executions of the same job, as after a timeout, send the only recipient two
      messages and count them twice, without any crash. */
  lemma DoubleSend()
    ensures var w := Interleave(1, BOTH_START + BOTH_SELECT + BOTH_SEND, 1);
            && w.crashes == 0 && w.ledger.calls == [0, 0] && w.ledger.events == [SentEvent(0), SentEvent(0)]
  {
    BothStart();
    BothSelect();
    BothSend(Both(Delivering([0], 0, Nothing)).(overlaps := [0]));
    hide From;
    FromConcat(Open(Start(1)), BOTH_START, BOTH_SELECT, 1);
    FromConcat(Open(Start(1)), BOTH_START + BOTH_SELECT, BOTH_SEND, 1);
    hide Both, Open, Start;
  }
}
