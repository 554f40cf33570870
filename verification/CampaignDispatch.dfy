/** From draft to the first send job: the guarded transitions and the audience snapshot of
    packages/automation/src/campaign.service.ts. */
module CampaignDispatch {
  import opened Ids

  // ---- the audience snapshot ----

  datatype Customer = Customer(id: string, destination: string)

  datatype Recipient = Recipient(customer: string, destination: string, variant: char)

  const CHUNK := 500

  predicate Taken(rows: seq<Recipient>, destination: string) {
    exists i :: 0 <= i < |rows| && rows[i].destination == destination
  }

  // One inserted row; a conflict on (campaign, destination) does nothing.
  function Insert(rows: seq<Recipient>, c: Customer, bucket: Customer -> char): seq<Recipient> {
    if Taken(rows, c.destination) then rows else rows + [Recipient(c.id, c.destination, bucket(c))]
  }

  function InsertAll(rows: seq<Recipient>, customers: seq<Customer>, bucket: Customer -> char): seq<Recipient> {
    if customers == [] then rows
    else Insert(InsertAll(rows, customers[..|customers| - 1], bucket), customers[|customers| - 1], bucket)
  }

  lemma {:induction false} InsertConcat(rows: seq<Recipient>, a: seq<Customer>, b: seq<Customer>,
          bucket: Customer -> char)
    ensures InsertAll(rows, a + b, bucket) == InsertAll(InsertAll(rows, a, bucket), b, bucket)
  {
    if b == [] {
      assert a + b == a;
    } else {
      var n := |b| - 1;
      assert (a + b)[..|a| + n] == a + b[..n];
      InsertConcat(rows, a, b[..n], bucket);
    }
  }

  lemma {:induction false} InsertGrows(rows: seq<Recipient>, customers: seq<Customer>, bucket: Customer -> char)
    ensures rows <= InsertAll(rows, customers, bucket)
  {
    if customers != [] {
      InsertGrows(rows, customers[..|customers| - 1], bucket);
    }
  }

  ghost predicate OnePerDestination(rows: seq<Recipient>) {
    forall i, j :: 0 <= i < j < |rows| ==> rows[i].destination != rows[j].destination
  }

  // Row i comes from customer k, the first one with its destination.
  ghost predicate FirstOf(r: Recipient, customers: seq<Customer>, k: nat, bucket: Customer -> char) {
    && k < |customers| && r == Recipient(customers[k].id, customers[k].destination, bucket(customers[k]))
    && forall l :: 0 <= l < k ==> customers[l].destination != r.destination
  }

  ghost predicate HasFirst(r: Recipient, customers: seq<Customer>, bucket: Customer -> char) {
    exists k: nat :: FirstOf(r, customers, k, bucket)
  }

  ghost predicate FirstWins(rows: seq<Recipient>, customers: seq<Customer>, bucket: Customer -> char) {
    forall i :: 0 <= i < |rows| ==> HasFirst(rows[i], customers, bucket)
  }

  ghost predicate AllReached(rows: seq<Recipient>, customers: seq<Customer>) {
    forall k :: 0 <= k < |customers| ==> Taken(rows, customers[k].destination)
  }

  /** The snapshot reaches every destination of the audience exactly once, through the first customer
      that has it. */
  lemma {:induction false} SnapshotIsExact(customers: seq<Customer>, bucket: Customer -> char)
    ensures var rows := InsertAll([], customers, bucket);
            OnePerDestination(rows) && FirstWins(rows, customers, bucket) && AllReached(rows, customers)
  {
    if customers != [] {
      hide OnePerDestination, FirstWins, AllReached, Insert;
      var n := |customers| - 1;
      SnapshotIsExact(customers[..n], bucket);
      assert customers == customers[..n] + [customers[n]];
      InsertIsExact(InsertAll([], customers[..n], bucket), customers[..n], customers[n], bucket);
    }
  }

  lemma InsertIsExact(rows: seq<Recipient>, customers: seq<Customer>, c: Customer, bucket: Customer -> char)
    requires OnePerDestination(rows) && FirstWins(rows, customers, bucket) && AllReached(rows, customers)
    ensures var after := Insert(rows, c, bucket);
            OnePerDestination(after) && FirstWins(after, customers + [c], bucket) && AllReached(after, customers + [c])
  {
    var after, all := Insert(rows, c, bucket), customers + [c];
    forall i | 0 <= i < |after|
      ensures HasFirst(after[i], all, bucket)
    {
      if i < |rows| {
        assert HasFirst(rows[i], customers, bucket);
        var k: nat :| FirstOf(rows[i], customers, k, bucket);
        assert FirstOf(after[i], all, k, bucket);
      } else {
        assert FirstOf(after[i], all, |customers|, bucket);
      }
    }
    assert FirstWins(after, all, bucket);
    hide FirstOf, FirstWins;
    assert rows <= after;
    forall k | 0 <= k < |all|
      ensures Taken(after, all[k].destination)
    {
      if k < |customers| {
        var i :| 0 <= i < |rows| && rows[i].destination == customers[k].destination;
        assert after[i] == rows[i];
      } else if !Taken(rows, c.destination) {
        assert after[|rows|].destination == c.destination;
      } else {
        var i :| 0 <= i < |rows| && rows[i].destination == c.destination;
        assert after[i] == rows[i];
      }
    }
  }

  /** materializeAudience: inserted in chunks, counted by what each insert returned. */
  method MaterializeAudience(customers: seq<Customer>, bucket: Customer -> char)
    returns (rows: seq<Recipient>, total: nat)
    ensures rows == InsertAll([], customers, bucket) && total == |rows|
  {
    rows, total := [], 0;
    var i := 0;
    assert customers[..0] == [];
    while i < |customers|
      invariant 0 <= i <= |customers| && total == |rows|
      invariant rows == InsertAll([], customers[..i], bucket)
    {
      var end := if i + CHUNK < |customers| then i + CHUNK else |customers|;
      var chunk := customers[i..end];
      InsertConcat([], customers[..i], chunk, bucket);
      InsertGrows(rows, chunk, bucket);
      assert customers[..i] + chunk == customers[..end];
      var after := InsertAll(rows, chunk, bucket);
      total := total + (|after| - |rows|);
      rows, i := after, end;
    }
    assert customers[..|customers|] == customers;
  }

  // ---- the transitions ----

  datatype Status = DRAFT | SCHEDULED | SENDING | SENT | FAILED | CANCELLED

  /** How far a dispatch job that won the claim has come. */
  datatype Phase = Claimed | Snapshotted(recipients: nat)

  /** jobs are the dispatch jobs at work; chains the send chains at work; the counters say how often,
      over the whole life, a claim was won, an audience snapshot, a chain launched, and a job or chain lost. */
  datatype Campaign = Campaign(
    status: Status, jobs: map<nat, Phase>, chains: nat, claims: nat, snapshots: nat, launches: nat, lost: nat)

  datatype Step =
    | Schedule
    | Cancel
    | Claim(job: nat)                   // dispatch: SCHEDULED to SENDING, compare-and-set
    | Snapshot(job: nat, count: nat)    // its audience
    | Launch(job: nat)                  // its last part: fail without recipients, otherwise enqueue the chain
    | Crash(job: nat)                   // it dies; its retry has to win the claim like any other job
    | ChainSent                         // the chain completes: SENDING to SENT
    | ChainFailed                       // the chain fails the campaign, unguarded
    | ChainLost                         // the chain's job is dead-lettered

  const DRAFTED := Campaign(DRAFT, map[], 0, 0, 0, 0, 0)

  function Take(c: Campaign, step: Step): Campaign {
    match step
    case Schedule => if c.status == DRAFT then c.(status := SCHEDULED) else c
    case Cancel => if c.status == DRAFT || c.status == SCHEDULED then c.(status := CANCELLED) else c
    case Claim(job) =>
      if c.status != SCHEDULED || job in c.jobs then c
      else c.(status := SENDING, jobs := c.jobs[job := Claimed], claims := c.claims + 1)
    case Snapshot(job, count) =>
      if job !in c.jobs || c.jobs[job] != Claimed then c
      else c.(jobs := c.jobs[job := Snapshotted(count)], snapshots := c.snapshots + 1)
    case Launch(job) =>
      if job !in c.jobs || c.jobs[job] == Claimed then c
      else if c.jobs[job].recipients == 0 then c.(status := FAILED, jobs := c.jobs - {job})
      else c.(jobs := c.jobs - {job}, chains := c.chains + 1, launches := c.launches + 1)
    case Crash(job) => if job !in c.jobs then c else c.(jobs := c.jobs - {job}, lost := c.lost + 1)
    case ChainSent =>
      if c.chains == 0 then c
      else c.(chains := c.chains - 1, status := if c.status == SENDING then SENT else c.status)
    case ChainFailed => if c.chains == 0 then c else c.(chains := c.chains - 1, status := FAILED)
    case ChainLost => if c.chains == 0 then c else c.(chains := c.chains - 1, lost := c.lost + 1)
  }

  function From(c: Campaign, steps: seq<Step>): Campaign {
    if steps == [] then c else Take(From(c, steps[..|steps| - 1]), steps[|steps| - 1])
  }

  function Run(steps: seq<Step>): Campaign {
    From(DRAFTED, steps)
  }

  predicate Early(s: Status) {
    s == DRAFT || s == SCHEDULED || s == CANCELLED
  }

  /** What is at work or was lost adds up to the claims won, less a finished campaign's. */
  ghost predicate Inv(c: Campaign) {
    && c.claims == (if Early(c.status) then 0 else 1)
    && |c.jobs| + c.chains + c.lost == (if c.status == SENDING then 1 else 0)
    && c.launches <= c.snapshots <= c.claims
    && (forall k :: k in c.jobs ==> c.launches == 0 && c.snapshots == if c.jobs[k] == Claimed then 0 else 1)
    && (c.chains > 0 ==> c.launches == 1)
  }

  lemma TakeKeeps(c: Campaign, step: Step)
    requires Inv(c)
    ensures Inv(Take(c, step))
  {
    match step
    case Launch(job) => JobEnds(c, step, job);
    case Crash(job) => JobEnds(c, step, job);
    case Claim(job) =>
      if c.status == SCHEDULED {
        NoJobs(c.jobs);
      }
    case Snapshot(job, count) => OnlyJob(c, job);
    case _ =>
  }

  lemma JobEnds(c: Campaign, step: Step, job: nat)
    requires Inv(c) && (step == Launch(job) || step == Crash(job))
    ensures Inv(Take(c, step))
  {
    RemoveJob(c.jobs, job);
  }

  lemma RemoveJob(jobs: map<nat, Phase>, job: nat)
    ensures job in jobs ==> |jobs - {job}| == |jobs| - 1
  {
    if job in jobs {
      assert (jobs - {job}).Keys == jobs.Keys - {job};
      assert |jobs| == |jobs.Keys| && |jobs - {job}| == |(jobs - {job}).Keys|;
    }
  }

  lemma NoJobs(jobs: map<nat, Phase>)
    requires |jobs| == 0
    ensures jobs == map[]
  {
  }

  lemma OnlyJob(c: Campaign, job: nat)
    requires Inv(c)
    ensures forall k :: job in c.jobs && k in c.jobs ==> k == job
  {
    if k :| job in c.jobs && k in c.jobs && k != job {
      RemoveJob(c.jobs, job);
      RemoveJob(c.jobs - {job}, k);
      assert false;
    }
  }

  lemma {:induction false} ReachableInv(steps: seq<Step>)
    ensures Inv(Run(steps))
  {
    if steps != [] {
      ReachableInv(steps[..|steps| - 1]);
      TakeKeeps(Run(steps[..|steps| - 1]), steps[|steps| - 1]);
    }
  }

  /** Whatever the interleaving of schedules, cancellations, dispatch jobs and crashes: one claim is won
      at most, so at most one audience is snapshot and one chain launched, and none for a campaign
      that was cancelled or not yet dispatched. */
  lemma OneChain(steps: seq<Step>)
    ensures var c := Run(steps);
            && c.claims <= 1 && c.snapshots <= 1 && c.launches <= 1 && |c.jobs| + c.chains <= 1
            && (Early(c.status) ==> c.claims == c.snapshots == c.launches == 0)
  {
    ReachableInv(steps);
  }

  /** Cancellation and sending exclude each other: no step leaves CANCELLED, and none enters it from SENDING on. */
  lemma CancelExcludesSending(steps: seq<Step>, step: Step)
    ensures Run(steps).status == CANCELLED ==> Take(Run(steps), step) == Run(steps)
    ensures Run(steps).status in {SENDING, SENT, FAILED} ==> Take(Run(steps), step).status in {SENDING, SENT, FAILED}
  {
    ReachableInv(steps);
    if Run(steps).status == CANCELLED {
      NoJobs(Run(steps).jobs);
    }
  }

  // ---- campaigns left behind ----

  // No continuation takes the campaign out of SENDING.
  ghost predicate Stranded(c: Campaign) {
    forall more :: From(c, more).status == SENDING
  }

  lemma {:induction false} LostDispatcherStrands(c: Campaign, more: seq<Step>)
    requires c.status == SENDING && c.jobs == map[] && c.chains == 0
    ensures From(c, more) == c
  {
    if more != [] {
      LostDispatcherStrands(c, more[..|more| - 1]);
    }
  }

  lemma FromNext(c: Campaign, steps: seq<Step>, step: Step)
    ensures From(c, steps + [step]) == Take(From(c, steps), step)
  {
    assert (steps + [step])[..|steps|] == steps;
  }

  // One step at a time towards the end of a campaign with a chain, or with a job that can still launch one.
  lemma ChainOut(c: Campaign)
    requires c.status == SENDING && c.chains > 0
    ensures From(c, [ChainSent]).status == SENT
  {
    FromNext(c, [], ChainSent);
    assert [] + [ChainSent] == [ChainSent];
  }

  lemma LaunchOut(c: Campaign, job: nat) returns (more: seq<Step>)
    requires c.status == SENDING && job in c.jobs && c.jobs[job] != Claimed
    ensures From(c, more).status != SENDING
  {
    FromNext(c, [], Launch(job));
    assert [] + [Launch(job)] == [Launch(job)];
    if c.jobs[job].recipients == 0 {
      more := [Launch(job)];
    } else {
      FromNext(c, [Launch(job)], ChainSent);
      more := [Launch(job)] + [ChainSent];
    }
  }

  lemma {:induction false} FromConcat(c: Campaign, a: seq<Step>, b: seq<Step>)
    ensures From(c, a + b) == From(From(c, a), b)
  {
    if b == [] {
      assert a + b == a;
    } else {
      var n := |b| - 1;
      assert (a + b)[..|a| + n] == a + b[..n];
      FromConcat(c, a, b[..n]);
    }
  }

  lemma WayOut(c: Campaign) returns (more: seq<Step>)
    requires c.status == SENDING && (c.jobs != map[] || c.chains > 0)
    ensures From(c, more).status != SENDING
  {
    if c.chains > 0 {
      ChainOut(c);
      more := [ChainSent];
    } else {
      var job :| job in c.jobs;
      if c.jobs[job] == Claimed {
        var taken := Take(c, Snapshot(job, 1));
        FromNext(c, [], Snapshot(job, 1));
        assert [] + [Snapshot(job, 1)] == [Snapshot(job, 1)];
        var rest := LaunchOut(taken, job);
        FromConcat(c, [Snapshot(job, 1)], rest);
        more := [Snapshot(job, 1)] + rest;
      } else {
        more := LaunchOut(c, job);
      }
    }
  }

  /** A reachable campaign is stranded, SENDING under every continuation, if and only if it is SENDING
      with no dispatch job and no chain at work: the due scan and every guard look at other statuses. */
  lemma StrandedIff(steps: seq<Step>)
    ensures Stranded(Run(steps)) <==> Run(steps).status == SENDING && Run(steps).jobs == map[] && Run(steps).chains == 0
  {
    var c := Run(steps);
    if c.status == SENDING {
      if c.jobs == map[] && c.chains == 0 {
        forall more
          ensures From(c, more).status == SENDING
        {
          LostDispatcherStrands(c, more);
        }
      } else {
        var more := WayOut(c);
        assert From(c, more).status != SENDING;
      }
    } else {
      assert From(c, []).status != SENDING;
    }
  }

  // Step i of the run kills the dispatch job or the chain that was at work.
  predicate Loses(steps: seq<Step>, i: nat)
    requires i < |steps|
  {
    match steps[i]
    case Crash(job) => job in Run(steps[..i]).jobs
    case ChainLost => Run(steps[..i]).chains > 0
    case _ => false
  }

  lemma {:induction false} LostCounts(steps: seq<Step>)
    ensures Run(steps).lost > 0 <==> exists i :: 0 <= i < |steps| && Loses(steps, i)
  {
    if steps != [] {
      var n := |steps| - 1;
      LostCounts(steps[..n]);
      forall i | 0 <= i < n
        ensures Loses(steps, i) == Loses(steps[..n], i)
      {
        assert steps[..n][..i] == steps[..i];
      }
      if Run(steps[..n]).lost > 0 {
        var i :| 0 <= i < n && Loses(steps[..n], i);
        assert Loses(steps, i);
      }
      assert Loses(steps, n) <==> Run(steps).lost > Run(steps[..n]).lost;
    }
  }

  /** The runs that lead there: a SENDING campaign is stranded if and only if some step killed its
      dispatch job or its chain. Without such a step exactly one of the two is at work. */
  lemma StrandedByLoss(steps: seq<Step>)
    requires Run(steps).status == SENDING
    ensures Stranded(Run(steps)) <==> exists i :: 0 <= i < |steps| && Loses(steps, i)
    ensures !Stranded(Run(steps)) ==> |Run(steps).jobs| + Run(steps).chains == 1
  {
    ReachableInv(steps);
    StrandedIff(steps);
    LostCounts(steps);
    if Run(steps).lost > 0 {
      NoJobs(Run(steps).jobs);
    }
  }

  // ---- how a campaign ends ----

  // The step brings the campaign to its end in this status.
  predicate Ends(before: Campaign, step: Step, status: Status) {
    match step
    case ChainSent => status == SENT && before.chains > 0
    case ChainFailed => status == FAILED && before.chains > 0
    case Launch(job) => status == FAILED && job in before.jobs && before.jobs[job] == Snapshotted(0)
    case Cancel => status == CANCELLED && (before.status == DRAFT || before.status == SCHEDULED)
    case _ => false
  }

  predicate EndsAt(steps: seq<Step>, i: nat, status: Status)
    requires i < |steps|
  {
    Ends(Run(steps[..i]), steps[i], status)
  }

  ghost predicate Ended(steps: seq<Step>, status: Status) {
    exists i :: 0 <= i < |steps| && EndsAt(steps, i, status)
  }

  lemma EndedBefore(steps: seq<Step>, status: Status)
    requires steps != []
    ensures Ended(steps, status) <==> Ended(steps[..|steps| - 1], status) || EndsAt(steps, |steps| - 1, status)
  {
    var n := |steps| - 1;
    forall i | 0 <= i < n
      ensures EndsAt(steps, i, status) == EndsAt(steps[..n], i, status)
    {
      assert steps[..n][..i] == steps[..i];
    }
    if i :| 0 <= i < n && EndsAt(steps[..n], i, status) {
      assert EndsAt(steps, i, status);
    }
  }

  lemma TakeEnds(c: Campaign, step: Step, status: Status)
    requires Inv(c) && status in {SENT, FAILED, CANCELLED}
    ensures Take(c, step).status == status <==> c.status == status || Ends(c, step, status)
  {
    if c.status != SENDING {
      NoJobs(c.jobs);
    }
  }

  /** A campaign is SENT if and only if a chain launched for it completed, FAILED if and only if a chain
      failed it or its audience was empty, and CANCELLED if and only if it was cancelled before a
      dispatch job claimed it; and none of the three ends is ever revised. */
  lemma {:induction false} EndsIff(steps: seq<Step>, status: Status)
    requires status in {SENT, FAILED, CANCELLED}
    ensures Run(steps).status == status <==> Ended(steps, status)
  {
    if steps != [] {
      var n := |steps| - 1;
      EndsIff(steps[..n], status);
      EndedBefore(steps, status);
      ReachableInv(steps[..n]);
      TakeEnds(Run(steps[..n]), steps[n], status);
      hide Inv, Ends, Ended, Take;
    }
  }

  // Step i of the run is a dispatch job that found the campaign scheduled.
  predicate ClaimsAt(steps: seq<Step>, i: nat)
    requires i < |steps|
  {
    steps[i].Claim? && Run(steps[..i]).status == SCHEDULED
  }

  /** A campaign was claimed, and so left the scheduled ones for good, if and only if a dispatch job found
      it scheduled: never straight from a draft, and not after a cancellation. */
  lemma {:induction false} ClaimedIff(steps: seq<Step>)
    ensures !Early(Run(steps).status) <==> exists i :: 0 <= i < |steps| && ClaimsAt(steps, i)
  {
    ReachableInv(steps);
    if steps != [] {
      var n := |steps| - 1;
      ClaimedIff(steps[..n]);
      ReachableInv(steps[..n]);
      forall i | 0 <= i < n
        ensures ClaimsAt(steps, i) == ClaimsAt(steps[..n], i)
      {
        assert steps[..n][..i] == steps[..i];
      }
      if i :| 0 <= i < n && ClaimsAt(steps[..n], i) {
        assert ClaimsAt(steps, i);
      }
      if steps[n].Claim? && Run(steps[..n]).status == SCHEDULED {
        NoJobs(Run(steps[..n]).jobs);
        assert ClaimsAt(steps, n);
      }
    }
  }
}
