/** The send jobs of a campaign as processes that may run side by side: a retry starts while the attempt
    that timed out is still running, and a duplicate link runs beside its chain. Each move is one read,
    one provider call or one transaction of packages/automation/src/campaign.sender.ts, or one write of
    its handler. */
module CampaignProcesses {
  import opened Campaign

  datatype Outcome = Fatal | Exhausted | More(cursor: nat)

  /** A delivery between its checks and its record: what will be recorded, and whether the provider was called. */
  datatype Attempted = Nothing | Decided(fate: Status, called: bool)

  datatype Phase =
    | Checking                                                  // the campaign was read as SENDING
    | Selecting                                                 // the quota gate let it through
    | Delivering(batch: seq<nat>, i: nat, attempted: Attempted) // the first i of the batch are recorded
    | Counting(batch: seq<nat>)                                 // all recorded, before the recount
    | Asking(batch: seq<nat>)                                   // recounted, before asking for pending rows
    | Deciding(outcome: Outcome)                                // before the handler's write
    | Acknowledging

  datatype Exec = Exec(from: nat, phase: Phase)

  /** links are the jobs not yet acknowledged and frontier the furthest cursor enqueued so far; recorded,
      overlaps and lostCalls list, by recipient, every recorded delivery, every selection of a row that
      another execution still held, and every provider call whose record was lost. dirty: a delivery was
      recorded since the last recount. */
  datatype World = World(
    ledger: Ledger, counters: Counters, campaign: CampaignStatus, links: set<nat>, frontier: nat, execs: map<nat, Exec>,
    recorded: seq<nat>, overlaps: seq<nat>, lostCalls: seq<nat>, crashes: nat, dirty: bool)

  datatype Move =
    | Begin(k: nat, from: nat)
    | Check(k: nat, denied: bool)
    | Select(k: nat)
    | Attempt(k: nat, s: Situation)
    | Record(k: nat)
    | Advance(k: nat)
    | Crash(k: nat)
    | Bury(from: nat)

  /** The recipients an execution has selected and not yet recorded. */
  function Rest(e: Exec): seq<nat> {
    if e.phase.Delivering? && e.phase.i <= |e.phase.batch| then e.phase.batch[e.phase.i..] else []
  }

  predicate Held(execs: map<nat, Exec>, id: nat) {
    exists k :: k in execs && id in Rest(execs[k])
  }

  function HeldAmong(execs: map<nat, Exec>, ids: seq<nat>): (r: seq<nat>)
    ensures forall id :: id in r ==> id in ids && Held(execs, id)
  {
    if ids == [] then []
    else
      var n := |ids| - 1;
      HeldAmong(execs, ids[..n]) + if Held(execs, ids[n]) then [ids[n]] else []
  }

  function Put(w: World, k: nat, e: Exec): World {
    w.(execs := w.execs[k := e])
  }

  function DoBegin(w: World, k: nat, from: nat): World {
    if k in w.execs || from !in w.links then w
    else Put(w, k, Exec(from, if w.campaign == SENDING then Checking else Deciding(Exhausted)))
  }

  function DoCheck(w: World, k: nat, denied: bool): World {
    if k !in w.execs || w.execs[k].phase != Checking then w
    else Put(w, k, w.execs[k].(phase := if denied then Deciding(Fatal) else Selecting))
  }

  function DoSelect(w: World, k: nat, size: nat): World {
    if k !in w.execs || w.execs[k].phase != Selecting then w
    else
      var batch := Batch(w.ledger.rows, w.execs[k].from, size);
      if batch == [] then Put(w, k, w.execs[k].(phase := Deciding(Exhausted)))
      else Put(w, k, w.execs[k].(phase := Delivering(batch, 0, Nothing)))
      .(overlaps := w.overlaps + HeldAmong(w.execs, batch))
  }

  // The execution k has a recipient at hand, in the given state of its delivery.
  predicate AtHand(w: World, k: nat, attempted: bool) {
    && k in w.execs && w.execs[k].phase.Delivering?
    && w.execs[k].phase.i < |w.execs[k].phase.batch|
    && w.execs[k].phase.attempted.Decided? == attempted
  }

  function Current(w: World, k: nat): nat
    requires k in w.execs && w.execs[k].phase.Delivering? && w.execs[k].phase.i < |w.execs[k].phase.batch|
  {
    w.execs[k].phase.batch[w.execs[k].phase.i]
  }

  function DoAttempt(w: World, k: nat, s: Situation): World {
    if !AtHand(w, k, false) then w
    else
      Put(w, k, w.execs[k].(phase := w.execs[k].phase.(attempted := Decided(Fate(s), ReachesProvider(s)))))
      .(ledger := Hand(w.ledger, Current(w, k), s))
  }

  function DoRecord(w: World, k: nat): World {
    if !AtHand(w, k, true) || Current(w, k) >= |w.ledger.rows| then w
    else
      var p := w.execs[k].phase;
      var next := if p.i + 1 == |p.batch| then Counting(p.batch) else Delivering(p.batch, p.i + 1, Nothing);
      Put(w, k, w.execs[k].(phase := next))
      .(ledger := Note(w.ledger, Current(w, k), p.attempted.fate),
        recorded := w.recorded + [Current(w, k)], dirty := true)
  }

  function DoAdvance(w: World, k: nat): World {
    if k !in w.execs then w
    else
      var e := w.execs[k];
      match e.phase
      case Counting(batch) =>
        Put(w, k, e.(phase := Asking(batch))).(counters := Recount(w.ledger.rows), dirty := false)
      case Asking(batch) =>
        var outcome := if PENDING in w.ledger.rows && batch != [] then More(batch[|batch| - 1] + 1) else Exhausted;
        Put(w, k, e.(phase := Deciding(outcome)))
      case Deciding(Fatal) => Put(w, k, e.(phase := Acknowledging)).(campaign := CAMPAIGN_FAILED)
      case Deciding(Exhausted) =>
        Put(w, k, e.(phase := Acknowledging)).(campaign := if w.campaign == SENDING then CAMPAIGN_SENT else w.campaign)
      case Deciding(More(cursor)) =>
        Put(w, k, e.(phase := Acknowledging))
        .(links := w.links + {cursor}, frontier := if w.frontier < cursor then cursor else w.frontier)
      case Acknowledging => w.(links := w.links - {e.from}, execs := w.execs - {k})
      case _ => w
  }

  /** The process dies, throws, or has its result ignored: its job stays to be retried. */
  function DoCrash(w: World, k: nat): World {
    if k !in w.execs then w
    else
      var lost := if AtHand(w, k, true) && w.execs[k].phase.attempted.called then [Current(w, k)] else [];
      w.(execs := w.execs - {k}, lostCalls := w.lostCalls + lost, crashes := w.crashes + 1)
  }

  function Take(w: World, move: Move, size: nat): World {
    match move
    case Begin(k, from) => DoBegin(w, k, from)
    case Check(k, denied) => DoCheck(w, k, denied)
    case Select(k) => DoSelect(w, k, size)
    case Attempt(k, s) => DoAttempt(w, k, s)
    case Record(k) => DoRecord(w, k)
    case Advance(k) => DoAdvance(w, k)
    case Crash(k) => DoCrash(w, k)
    case Bury(from) => w.(links := w.links - {from})
  }

  function From(w: World, moves: seq<Move>, size: nat): World {
    if moves == [] then w else Take(From(w, moves[..|moves| - 1], size), moves[|moves| - 1], size)
  }

  function Open(s: State): World {
    World(s.ledger, s.counters, s.campaign, s.links, 0, map[], [], [], [], s.crashes, false)
  }

  function Interleave(n: nat, moves: seq<Move>, size: nat): World {
    From(Open(Start(n)), moves, size)
  }

  // ---- counting holders ----

  function HoldersOf(execs: map<nat, Exec>, id: nat): set<nat> {
    set k | k in execs && id in Rest(execs[k])
  }

  predicate Calling(e: Exec, id: nat) {
    && e.phase.Delivering? && e.phase.i < |e.phase.batch| && e.phase.batch[e.phase.i] == id
    && e.phase.attempted.Decided? && e.phase.attempted.called
  }

  function CallersOf(execs: map<nat, Exec>, id: nat): set<nat> {
    set k | k in execs && Calling(execs[k], id)
  }

  lemma HoldersPut(execs: map<nat, Exec>, k: nat, e: Exec, id: nat)
    ensures |HoldersOf(execs[k := e], id)| ==
            |HoldersOf(execs, id)| - (if k in execs && id in Rest(execs[k]) then 1 else 0)
            + if id in Rest(e) then 1 else 0
  {
    hide Rest;
    var before, after := HoldersOf(execs, id), HoldersOf(execs[k := e], id);
    assert after == (before - {k}) + if id in Rest(e) then {k} else {};
  }

  lemma HoldersDrop(execs: map<nat, Exec>, k: nat, id: nat)
    requires k in execs
    ensures |HoldersOf(execs - {k}, id)| == |HoldersOf(execs, id)| - if id in Rest(execs[k]) then 1 else 0
  {
    assert HoldersOf(execs - {k}, id) == HoldersOf(execs, id) - {k};
  }

  lemma CallersPut(execs: map<nat, Exec>, k: nat, e: Exec, id: nat)
    ensures |CallersOf(execs[k := e], id)| ==
            |CallersOf(execs, id)| - (if k in execs && Calling(execs[k], id) then 1 else 0)
            + if Calling(e, id) then 1 else 0
  {
    hide Calling;
    var before, after := CallersOf(execs, id), CallersOf(execs[k := e], id);
    assert after == (before - {k}) + if Calling(e, id) then {k} else {};
  }

  lemma CallersDrop(execs: map<nat, Exec>, k: nat, id: nat)
    requires k in execs
    ensures |CallersOf(execs - {k}, id)| == |CallersOf(execs, id)| - if Calling(execs[k], id) then 1 else 0
  {
    assert CallersOf(execs - {k}, id) == CallersOf(execs, id) - {k};
  }

  lemma CallersHold(execs: map<nat, Exec>, id: nat)
    ensures |CallersOf(execs, id)| <= |HoldersOf(execs, id)|
  {
    forall k | k in CallersOf(execs, id)
      ensures k in HoldersOf(execs, id)
    {
      var p := execs[k].phase;
      assert p.batch[p.i..][0] == id;
    }
    SubsetSize(CallersOf(execs, id), HoldersOf(execs, id));
  }

  lemma SubsetSize(a: set<nat>, b: set<nat>)
    requires a <= b
    ensures |a| <= |b|
  {
    assert b == a + (b - a);
  }

  lemma HeldIff(execs: map<nat, Exec>, id: nat)
    ensures Held(execs, id) <==> |HoldersOf(execs, id)| > 0
  {
    if Held(execs, id) {
      var k :| k in execs && id in Rest(execs[k]);
      assert k in HoldersOf(execs, id);
    }
    if |HoldersOf(execs, id)| > 0 {
      var k :| k in HoldersOf(execs, id);
    }
  }

  lemma {:induction false} HeldAmongCounts(execs: map<nat, Exec>, ids: seq<nat>, id: nat)
    requires Increasing(ids)
    ensures multiset(HeldAmong(execs, ids))[id] == if id in ids && Held(execs, id) then 1 else 0
  {
    if ids != [] {
      var n := |ids| - 1;
      assert ids == ids[..n] + [ids[n]];
      HeldAmongCounts(execs, ids[..n], id);
      assert ids[n] !in ids[..n];
    }
  }
}
