/** The trial nudges as mails: a mail goes out before its event is recorded, so a process that dies in
    between leaves a mail that the ledger does not know of
    (packages/billing/src/trial-lifecycle.service.ts). */
module BillingMails {
  import opened Wrappers
  import opened Plans
  import opened Billing
  import Ledger = BillingLedger

  /** mails lists the day numbers of the nudges sent, lost those whose event was never recorded. */
  datatype Outbox = Outbox(account: Account, mails: seq<int>, lost: seq<int>)

  datatype Step =
    | Call(op: Op)
    | CutTick(store: Store, mailer: bool, now: int)  // dies after the mail, before the event

  function Days(day: Option<int>): seq<int> {
    if day.Some? then [day.value] else []
  }

  function Take(o: Outbox, step: Step): Outbox {
    match step
    case Call(op) =>
      var sent := if op.RunTrialTick? then Days(NudgeToSend(o.account, op.store, op.mailer, op.now)) else [];
      Outbox(Apply(o.account, op), o.mails + sent, o.lost)
    case CutTick(store, mailer, now) =>
      var sent := Days(NudgeToSend(o.account, store, mailer, now));
      Outbox(o.account, o.mails + sent, o.lost + sent)
  }

  function Run(steps: seq<Step>): Outbox {
    if steps == [] then Outbox(NEW_ACCOUNT, [], []) else Take(Run(steps[..|steps| - 1]), steps[|steps| - 1])
  }

  function Recorded(ledger: seq<Entry>, day: int): nat {
    if ledger == [] then 0
    else
      var e := ledger[|ledger| - 1];
      Recorded(ledger[..|ledger| - 1], day) + if e.kind == NudgeSent && e.days == day then 1 else 0
  }

  lemma RecordedNext(ledger: seq<Entry>, e: Entry, day: int)
    ensures Recorded(ledger + [e], day) == Recorded(ledger, day) + if e.kind == NudgeSent && e.days == day then 1 else 0
  {
    assert (ledger + [e])[..|ledger|] == ledger;
  }

  // A call records a nudge exactly when its tick sends one.
  lemma CallRecords(a: Account, op: Op, day: int)
    ensures var sent := if op.RunTrialTick? then NudgeToSend(a, op.store, op.mailer, op.now) else None;
            Recorded(Apply(a, op).ledger, day) == Recorded(a.ledger, day) + if sent == Some(day) then 1 else 0
  {
    var b := Apply(a, op);
    hide Recorded;
    if |b.ledger| == |a.ledger| + 1 {
      assert b.ledger == a.ledger + [b.ledger[|a.ledger|]];
      RecordedNext(a.ledger, b.ledger[|a.ledger|], day);
    }
  }

  lemma {:induction false} AtMostOneRecorded(ledger: seq<Entry>, day: int)
    requires Ledger.OneNudgePerDay(ledger)
    ensures Recorded(ledger, day) <= if Nudged(ledger, day) then 1 else 0
  {
    if ledger != [] {
      var n := |ledger| - 1;
      assert ledger == ledger[..n] + [ledger[n]];
      AtMostOneRecorded(ledger[..n], day);
      if ledger[n].kind == NudgeSent && ledger[n].days == day {
        assert ledger[n] in ledger;
        assert forall i :: 0 <= i < n && ledger[..n][i].kind == NudgeSent ==> ledger[i].days != day;
      }
    }
  }

  lemma {:induction false} AccountIsRun(steps: seq<Step>) returns (ops: seq<Op>)
    ensures Run(steps).account == Billing.Run(ops)
  {
    hide Apply;
    if steps == [] {
      ops := [];
    } else {
      var before := AccountIsRun(steps[..|steps| - 1]);
      match steps[|steps| - 1]
      case Call(op) =>
        ops := before + [op];
        assert ops[..|before|] == before;
      case CutTick(_, _, _) => ops := before;
    }
  }

  lemma {:induction false} MailsAreAccounted(steps: seq<Step>, day: int)
    ensures var o := Run(steps);
            multiset(o.mails)[day] == Recorded(o.account.ledger, day) + multiset(o.lost)[day]
  {
    if steps != [] {
      var n := |steps| - 1;
      MailsAreAccounted(steps[..n], day);
      if steps[n].Call? {
        CallRecords(Run(steps[..n]).account, steps[n].op, day);
      }
      hide Apply, NudgeToSend, Recorded;
    }
  }

  /** In every run, crashes included: the mails for a day number are its recorded nudges and those whose
      recording was cut, and at most one is recorded. A day goes out twice only through such a crash. */
  lemma MailsAreBounded(steps: seq<Step>, day: int)
    ensures var o := Run(steps);
            && multiset(o.mails)[day] == Recorded(o.account.ledger, day) + multiset(o.lost)[day]
            && multiset(o.mails)[day] <= 1 + multiset(o.lost)[day]
  {
    MailsAreAccounted(steps, day);
    var ops := AccountIsRun(steps);
    Ledger.ReachableInv(ops);
    AtMostOneRecorded(Run(steps).account.ledger, day);
  }

  /** A crash after the mail sends it again: the next tick at that instant knows nothing of it. */
  lemma CrashMailsAgain(o: Outbox, store: Store, mailer: bool, now: int, day: int)
    requires NudgeToSend(o.account, store, mailer, now) == Some(day)
    ensures var cut := Take(o, CutTick(store, mailer, now));
            && cut.account == o.account
            && Take(cut, Call(RunTrialTick(store, mailer, now))).mails == o.mails + [day, day]
            && Recorded(Take(cut, Call(RunTrialTick(store, mailer, now))).account.ledger, day)
               == Recorded(o.account.ledger, day) + 1
  {
    CallRecords(o.account, RunTrialTick(store, mailer, now), day);
    assert o.mails + [day] + [day] == o.mails + [day, day];
    hide Apply, NudgeToSend, Recorded;
  }
}
