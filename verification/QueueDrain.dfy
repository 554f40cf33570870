/** Without new jobs the queue drains: a measure on the remaining attempts. */
module QueueDrain {
  import opened Ids
  import opened QueueModel

  // Attempts a job can still make, counting the one at hand.
  function Left(j: Job): nat {
    if j.maxAttempts > j.attempt then j.maxAttempts - j.attempt + 1 else 1
  }

  function PendingWork(s: seq<Job>): nat {
    if s == [] then 0 else PendingWork(s[..|s| - 1]) + 3 * Left(s[|s| - 1])
  }

  ghost function RunningWork(m: map<string, Job>): nat {
    if m == map[] then 0
    else
      var k :| k in m;
      RunningWork(m - {k}) + 3 * Left(m[k]) - 1
  }

  lemma {:induction false} RunningWorkRemove(m: map<string, Job>, k: string)
    requires k in m
    ensures RunningWork(m) == RunningWork(m - {k}) + 3 * Left(m[k]) - 1
    decreases |m|
  {
    var p :| p in m && RunningWork(m) == RunningWork(m - {p}) + 3 * Left(m[p]) - 1;
    if p != k {
      RunningWorkRemove(m - {p}, k);
      RunningWorkRemove(m - {k}, p);
      assert m - {p} - {k} == m - {k} - {p};
    }
  }

  lemma RunningWorkAdd(m: map<string, Job>, j: Job)
    requires j.id !in m
    ensures RunningWork(m[j.id := j]) == RunningWork(m) + 3 * Left(j) - 1
  {
    RunningWorkRemove(m[j.id := j], j.id);
    assert m[j.id := j] - {j.id} == m;
  }

  lemma {:induction false} PendingWorkRemove(s: seq<Job>, j: Job)
    requires Distinct(JobIds(s)) && j in s
    ensures PendingWork(s) == PendingWork(Without(s, j.id)) + 3 * Left(j)
  {
    hide Left, Distinct, Without, JobIds;
    var n := |s| - 1;
    WithoutLast(s, j.id);
    LastAside(s);
    if s[n].id == j.id {
      PendingUnique(s, s[n], j);
      AbsentKept(s[..n], j.id);
    } else {
      InFront(s, j);
      PendingWorkRemove(s[..n], j);
      PendingWorkSnoc(Without(s[..n], j.id), s[n]);
    }
  }

  lemma InFront(s: seq<Job>, j: Job)
    requires j in s && s[|s| - 1] != j
    ensures j in s[..|s| - 1]
  {
    assert s == s[..|s| - 1] + [s[|s| - 1]];
  }

  lemma PendingWorkSnoc(s: seq<Job>, j: Job)
    ensures PendingWork(s + [j]) == PendingWork(s) + 3 * Left(j)
  {
    assert (s + [j])[..|s|] == s;
  }

  lemma WithoutLast(s: seq<Job>, id: string)
    requires s != []
    ensures var n := |s| - 1;
            Without(s, id) == if s[n].id == id then Without(s[..n], id) else Without(s[..n], id) + [s[n]]
  {
    var n := |s| - 1;
    assert Without(s[..n], id) + [] == Without(s[..n], id);
  }

  lemma LastAside(s: seq<Job>)
    requires s != [] && Distinct(JobIds(s))
    ensures var n := |s| - 1; Distinct(JobIds(s[..n])) && s[n].id !in JobIds(s[..n])
  {
    var n := |s| - 1;
    assert JobIds(s)[..n] == JobIds(s[..n]);
    forall i | 0 <= i < n
      ensures JobIds(s[..n])[i] != s[n].id
    {
      assert JobIds(s)[i] != JobIds(s)[n];
    }
  }

  lemma {:induction false} AbsentKept(s: seq<Job>, id: string)
    requires id !in JobIds(s)
    ensures Without(s, id) == s
  {
    if s != [] {
      var n := |s| - 1;
      assert s == s[..n] + [s[n]];
      assert JobIds(s)[n] == s[n].id;
      assert JobIds(s)[..n] == JobIds(s[..n]);
      AbsentKept(s[..n], id);
    }
  }

  /** Remaining work: 0 exactly when nothing is pending, running or settling. */
  ghost function Work(s: State): nat {
    PendingWork(s.pending) + RunningWork(s.running) + |s.settling|
  }

  lemma NoWorkMeansIdle(s: State)
    ensures Work(s) == 0 <==> s.pending == [] && s.running == map[] && s.settling == multiset{}
  {
    if s.running != map[] {
      var k :| k in s.running;
      RunningWorkRemove(s.running, k);
    }
  }

  lemma DispatchWork(s: State, j: Job, c: nat, ok: bool)
    requires Inv(s, c) && !s.closed
    ensures Dispatch(s, j, c, ok) == s || Work(Dispatch(s, j, c, ok)) < Work(s)
  {
    if Active(s, j.queue) < c && j in s.pending {
      var t := Dispatch(s, j, c, ok);
      DispatchShape(s, j, c, ok);
      PendingWorkRemove(s.pending, j);
      if Started(s, t, j) {
        RunningWorkAdd(s.running, j);
      }
    }
  }

  lemma {:induction false} DispatchAllWork(s: State, due: seq<Job>, c: nat, ok: Job -> bool)
    requires Inv(s, c) && !s.closed
    ensures DispatchAll(s, due, c, ok) == s || Work(DispatchAll(s, due, c, ok)) < Work(s)
  {
    if due != [] {
      var n := |due| - 1;
      DispatchAllKeeps(s, due[..n], c, ok);
      DispatchAllWork(s, due[..n], c, ok);
      DispatchWork(DispatchAll(s, due[..n], c, ok), due[n], c, ok(due[n]));
    }
  }

  lemma SettleWork(s: State, id: string, result: Settled, now: int, delay: int)
    requires InFlightExact(s) && id in s.running
    ensures Work(DoSettle(s, id, result, now, delay)) < Work(s)
  {
    var t, j := DoSettle(s, id, result, now, delay), s.running[id];
    SettleShape(s, id, result, now, delay);
    RunningWorkRemove(s.running, id);
    if Retried(s, t, j) {
      var again := t.pending[|s.pending|];
      assert Left(again) == Left(j) - 1;
    }
  }

  lemma SettleStep(s: State, id: string, result: Settled, now: int, delay: int, c: nat)
    requires Inv(s, c) && !s.cleared && id in s.running
    ensures Work(DoSettle(s, id, result, now, delay)) < Work(s)
        && DoSettle(s, id, result, now, delay).cleared == s.cleared
  {
    SettleWork(s, id, result, now, delay);
  }

  lemma ReleaseWork(s: State, q: string)
    ensures q !in s.settling ==> DoRelease(s, q) == s
    ensures q in s.settling ==> Work(DoRelease(s, q)) < Work(s)
    ensures DoRelease(s, q).cleared == s.cleared
  {
    if q in s.settling {
      assert |s.settling - multiset{q}| == |s.settling| - 1;
    }
  }

  predicate Productive(step: Step) {
    step.DispatchDue? || step.Settle? || step.ReleaseSlot?
  }

  /** Every dispatch, settlement or release that has an effect uses up some of the work. */
  lemma StepUsesWork(s: State, step: Step, c: nat)
    requires Inv(s, c) && !s.cleared && Productive(step)
    ensures Apply(s, step, c) == s || Work(Apply(s, step, c)) < Work(s)
    ensures Apply(s, step, c).cleared == s.cleared
  {
    hide Work, Inv, Due, SortByRunAt, DispatchAll;
    match step
    case DispatchDue(now, ok) =>
      if s.started && !s.closed {
        var due := SortByRunAt(Due(s.pending, now));
        DispatchAllWork(s, due, c, ok);
        DispatchAllKeeps(s, due, c, ok);
        ClearedKept(s, due, c, ok);
      }
    case Settle(id, result, now, delay) =>
      if id in s.running {
        SettleStep(s, id, result, now, delay, c);
      }
    case ReleaseSlot(q) => ReleaseWork(s, q);
  }

  lemma {:induction false} ClearedKept(s: State, due: seq<Job>, c: nat, ok: Job -> bool)
    ensures DispatchAll(s, due, c, ok).cleared == s.cleared
  {
    if due != [] {
      ClearedKept(s, due[..|due| - 1], c, ok);
    }
  }

  // Each step of the run changes the state it is taken in.
  ghost predicate Effective(s: State, steps: seq<Step>, c: nat) {
    forall i :: 0 <= i < |steps| ==> Productive(steps[i]) && Run(s, steps[..i + 1], c) != Run(s, steps[..i], c)
  }

  /** A run of effective steps without new jobs is no longer than the work it started with. */
  lemma {:induction false} DrainBound(s: State, steps: seq<Step>, c: nat)
    requires Inv(s, c) && !s.cleared && Effective(s, steps, c)
    ensures |steps| + Work(Run(s, steps, c)) <= Work(s)
    ensures Inv(Run(s, steps, c), c) && !Run(s, steps, c).cleared
  {
    if steps != [] {
      var n := |steps| - 1;
      assert steps[..n + 1] == steps;
      forall i | 0 <= i < n
        ensures Productive(steps[..n][i]) && Run(s, steps[..n][..i + 1], c) != Run(s, steps[..n][..i], c)
      {
        assert steps[..n][..i + 1] == steps[..i + 1] && steps[..n][..i] == steps[..i];
      }
      DrainBound(s, steps[..n], c);
      StepUsesWork(Run(s, steps[..n], c), steps[n], c);
      StepKeeps(Run(s, steps[..n], c), steps[n], c);
    }
  }

  lemma ReleaseHasEffect(s: State, q: string)
    requires q in s.settling
    ensures DoRelease(s, q) != s
  {
    assert (s.settling - multiset{q})[q] == s.settling[q] - 1;
  }

  lemma SettleHasEffect(s: State, id: string)
    requires id in s.running
    ensures DoSettle(s, id, Succeeded, 0, 0) != s
  {
    assert id !in (s.running - {id});
  }

  /** A consuming queue with work left is never stuck: some step has an effect, if only after
      enough time has passed. */
  lemma NeverStuck(s: State, c: nat, ok: Job -> bool) returns (step: Step)
    requires Inv(s, c) && s.started && !s.closed && c >= 1 && Work(s) > 0
    ensures Productive(step) && Apply(s, step, c) != s
  {
    hide Inv, Work, DoSettle, DoRelease, DispatchAll;
    NoWorkMeansIdle(s);
    if s.settling != multiset{} {
      var q :| q in s.settling;
      step := ReleaseSlot(q);
      ReleaseHasEffect(s, q);
    } else if s.running != map[] {
      var id :| id in s.running;
      step := Settle(id, Succeeded, 0, 0);
      SettleHasEffect(s, id);
    } else {
      var now := s.pending[0].runAt;
      step := DispatchDue(now, ok);
      assert s.pending[0] in Due(s.pending, now);
      FirstDispatched(s, now, c, ok);
    }
  }

  // With every slot free, a dispatch with a due job takes at least one job out.
  lemma FirstDispatched(s: State, now: int, c: nat, ok: Job -> bool)
    requires Inv(s, c) && !s.closed && c >= 1 && s.running == map[] && s.settling == multiset{}
    requires Due(s.pending, now) != []
    ensures DispatchAll(s, SortByRunAt(Due(s.pending, now)), c, ok) != s
  {
    var due := SortByRunAt(Due(s.pending, now));
    var j := due[0] by {
      assert |multiset(due)| == |multiset(Due(s.pending, now))|;
    }
    assert j in multiset(due);
    assert j in s.pending;
    assert RunningIn(s.running, j.queue) == {};
    assert Active(s, j.queue) == 0;
    StaysOut(s, due, c, ok, 1);
  }

  // Once dispatched, the first job is no longer in the same place: the work has shrunk for good.
  lemma {:induction false} StaysOut(s: State, due: seq<Job>, c: nat, ok: Job -> bool, n: nat)
    requires Inv(s, c) && !s.closed && 1 <= n <= |due|
    requires Active(s, due[0].queue) < c && due[0] in s.pending
    ensures Work(DispatchAll(s, due, c, ok)) < Work(s)
    decreases |due|
  {
    if |due| == 1 {
      assert due[..0] == [];
      DispatchWork(s, due[0], c, ok(due[0]));
      DispatchShape(s, due[0], c, ok(due[0]));
      assert due[0] !in Dispatch(s, due[0], c, ok(due[0])).pending;
    } else {
      var m := |due| - 1;
      StaysOut(s, due[..m], c, ok, 1);
      DispatchAllKeeps(s, due[..m], c, ok);
      DispatchWork(DispatchAll(s, due[..m], c, ok), due[m], c, ok(due[m]));
    }
  }
}
