/** MemoryJobQueue as an object; every method is tied to the transition of QueueModel it performs. */
module MemoryQueue {
  import opened QueueModel

  class MemoryJobQueue {
    const concurrency: nat
    var pending: seq<Job>
    var running: map<string, Job>
    var settling: multiset<string>
    var inFlightIds: set<string>
    var activeByQueue: map<string, nat>
    var handlers: set<(string, string)>
    var started: bool
    var closed: bool
    var cleared: bool
    var events: seq<Event>

    constructor (concurrency: nat)
      ensures View() == EMPTY && this.concurrency == concurrency
      ensures Inv(View(), concurrency)
    {
      this.concurrency := concurrency;
      pending, running, settling, inFlightIds := [], map[], multiset{}, {};
      activeByQueue, handlers, started, closed, cleared, events := map[], {}, false, false, false, [];
      new;
      ReachableInv([], concurrency);
    }

    function View(): State
      reads this
    {
      State(pending, running, settling, inFlightIds, activeByQueue, handlers, started, closed, cleared, events)
    }

    /** enqueue; false for the error of a closed queue or an invalid payload. */
    method Enqueue(job: Job, valid: bool) returns (accepted: bool)
      requires Inv(View(), concurrency)
      modifies this
      ensures View() == DoEnqueue(old(View()), job, valid) && Inv(View(), concurrency)
      ensures accepted <==> !old(closed) && (job.id in old(inFlightIds) || valid)
    {
      hide Inv;
      EnqueueKeeps(View(), job, valid, concurrency);
      if closed {
        return false;
      }
      if job.id in inFlightIds {
        return true;
      }
      if !valid {
        return false;
      }
      var j := job.(attempt := 1);
      inFlightIds := inFlightIds + {j.id};
      pending := pending + [j];
      Emit(QueuedEvent, j, 0);
      accepted := true;
    }

    method Emit(kind: EventKind, j: Job, attempt: nat)
      modifies this`events
      ensures events == old(events) + [Event(kind, j.id, attempt, j.maxAttempts)]
    {
      events := events + [Event(kind, j.id, attempt, j.maxAttempts)];
    }

    method Register(queue: string, name: string)
      requires Inv(View(), concurrency)
      modifies this
      ensures View() == old(View()).(handlers := old(handlers) + {(queue, name)}) && Inv(View(), concurrency)
    {
      StepKeeps(View(), QueueModel.Register(queue, name), concurrency);
      handlers := handlers + {(queue, name)};
    }

    /** dispatchDue: the due jobs in run-time order, each into a free slot of its queue. */
    method DispatchDue(now: int, payloadOk: Job -> bool)
      requires Inv(View(), concurrency) && started && !closed
      modifies this
      ensures View() == DoDispatchDue(old(View()), now, concurrency, payloadOk) && Inv(View(), concurrency)
    {
      hide Inv, Dispatch, Due, SortByRunAt;
      var due := SortByRunAt(Due(pending, now));
      DispatchAllKeeps(View(), due, concurrency, payloadOk);
      assert due[..0] == [];
      for i := 0 to |due|
        invariant View() == DispatchAll(old(View()), due[..i], concurrency, payloadOk)
      {
        assert due[..i + 1][..i] == due[..i];
        DispatchJob(due[i], payloadOk(due[i]));
      }
      assert due[..|due|] == due;
    }

    method DispatchJob(job: Job, payloadOk: bool)
      modifies this`pending, this`activeByQueue, this`running, this`settling, this`inFlightIds, this`events
      ensures View() == Dispatch(old(View()), job, concurrency, payloadOk)
    {
      hide Execute, Without;
      var active := if job.queue in activeByQueue then activeByQueue[job.queue] else 0;
      if active < concurrency && job in pending {
        TakeSlot(job, active);
        StartExecution(job, payloadOk);
      }
    }

    method TakeSlot(job: Job, active: nat)
      modifies this`pending, this`activeByQueue
      ensures View() == old(View()).(pending := Without(old(pending), job.id),
                                     activeByQueue := old(activeByQueue)[job.queue := active + 1])
    {
      pending := Without(pending, job.id);
      activeByQueue := activeByQueue[job.queue := active + 1];
    }

    /** execute up to its first suspension. */
    method StartExecution(job: Job, payloadOk: bool)
      modifies this`running, this`settling, this`inFlightIds, this`events
      ensures View() == Execute(old(View()), job, payloadOk)
    {
      if (job.queue, job.name) !in handlers {
        Retire(DeadEvent(NoHandler), job);
        return;
      }
      Emit(ActiveEvent, job, job.attempt);
      if payloadOk {
        running := running[job.id := job];
      } else {
        Retire(DeadEvent(InvalidPayload), job);
      }
    }

    // The end of a job: out of flight, its last event, its slot about to be released.
    method Retire(kind: EventKind, job: Job)
      modifies this`settling, this`inFlightIds, this`events
      ensures View() == Finish(old(View()), kind, job)
    {
      inFlightIds := inFlightIds - {job.id};
      settling := settling + multiset{job.queue};
      Emit(kind, job, job.attempt);
    }

    /** execute after its handler settled: completion, death, or another attempt after a delay. */
    method SettleAttempt(id: string, result: Settled, now: int, delay: int)
      requires Inv(View(), concurrency) && id in running
      modifies this`pending, this`running, this`settling, this`inFlightIds, this`events
      ensures View() == DoSettle(old(View()), id, result, now, delay) && Inv(View(), concurrency)
    {
      hide Inv, Finish, Again;
      SettleKeeps(View(), id, result, now, delay, concurrency);
      var job := running[id];
      running := running - {id};
      if result == Succeeded {
        Retire(CompletedEvent, job);
      } else if result == ThrewInvalidPayload {
        Retire(DeadEvent(InvalidPayload), job);
      } else if job.attempt >= job.maxAttempts {
        Retire(DeadEvent(Exhausted), job);
      } else {
        Requeue(job, now + delay);
      }
    }

    // Another attempt: the same job, one attempt later, pending from `runAt` on.
    method Requeue(job: Job, runAt: int)
      modifies this`pending, this`settling, this`events
      ensures View() == Again(old(View()), job, runAt)
    {
      settling := settling + multiset{job.queue};
      Emit(RetryEvent, job, job.attempt);
      pending := pending + [job.(attempt := job.attempt + 1, runAt := runAt)];
    }

    /** The `finally` callback that gives the slot back. */
    method Release(q: string)
      requires Inv(View(), concurrency) && q in settling
      modifies this`settling, this`activeByQueue
      ensures View() == DoRelease(old(View()), q) && Inv(View(), concurrency)
    {
      hide Inv;
      ReleaseKeeps(View(), q, concurrency);
      var active := if q in activeByQueue then activeByQueue[q] else 0;
      ghost var before := View();
      assert active == Active(before, q) && q in before.settling;
      hide Active;
      settling := settling - multiset{q};
      activeByQueue := activeByQueue[q := if active >= 1 then active - 1 else 0];
    }

    /** The first part of close, before in-flight attempts drain, and its last part. */
    method Close()
      requires Inv(View(), concurrency)
      modifies this
      ensures View() == old(View()).(closed := true, started := false) && Inv(View(), concurrency)
    {
      StepKeeps(View(), QueueModel.Close, concurrency);
      closed, started := true, false;
    }

    method ClearAfterDrain()
      requires Inv(View(), concurrency) && closed
      modifies this
      ensures View() == old(View()).(pending := [], inFlight := {}, cleared := true) && Inv(View(), concurrency)
    {
      StepKeeps(View(), QueueModel.Clear, concurrency);
      pending, inFlightIds, cleared := [], {}, true;
    }
  }
}
