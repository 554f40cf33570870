/** The Postgres mirror of packages/queue/src/persistence.ts: a row per job id, written by
    recordQueued before each enqueue and by applyEvent for each lifecycle event. */
module QueueMirror {
  import opened Wrappers
  import opened QueueModel

  datatype Status = QUEUED | RUNNING | COMPLETED | DEAD_LETTERED

  /** The background_jobs row with its job_retries and failed_jobs counts. */
  datatype Row = Row(status: Status, attempts: nat, retries: nat, deadLetters: nat)

  /** What reaches the mirror: a producer's recordQueued, before its enqueue, or an event of the queue.
      An enqueue that is refused, or never comes because the producer dies, leaves its Recorded alone. */
  datatype Act = Recorded(id: string) | Emitted(event: Event)

  function EventsOf(log: seq<Act>): seq<Event> {
    if log == [] then []
    else
      var n := |log| - 1;
      EventsOf(log[..n]) + if log[n].Emitted? then [log[n].event] else []
  }

  // The updates of applyEvent touch only an existing row, and it leaves queued events to the producer.
  function MirrorAfter(row: Option<Row>, e: Event): Option<Row> {
    if row.None? then None
    else
      match e.kind
      case QueuedEvent => row
      case ActiveEvent => Some(row.value.(status := RUNNING, attempts := e.attempt))
      case CompletedEvent => Some(row.value.(status := COMPLETED, attempts := e.attempt))
      case RetryEvent => Some(row.value.(attempts := e.attempt, retries := row.value.retries + 1))
      case DeadEvent(_) =>
        Some(row.value.(status := DEAD_LETTERED, attempts := e.attempt, deadLetters := row.value.deadLetters + 1))
  }

  // recordQueued keeps an existing row.
  function Mirror(log: seq<Act>, id: string): Option<Row> {
    if log == [] then None
    else
      var n := |log| - 1;
      var before := Mirror(log[..n], id);
      match log[n]
      case Recorded(recorded) => if recorded == id && before.None? then Some(Row(QUEUED, 0, 0, 0)) else before
      case Emitted(e) => if e.id == id then MirrorAfter(before, e) else before
  }

  /** The id is enqueued through enqueuePersistent: recorded before it is first accepted. */
  ghost predicate RecordedFirst(log: seq<Act>, id: string) {
    forall i :: 0 <= i < |log| && log[i].Emitted? && log[i].event.id == id ==> Recorded(id) in log[..i]
  }

  function Occurs(events: seq<Event>, id: string, kind: EventKind): nat {
    if events == [] then 0
    else Occurs(events[..|events| - 1], id, kind)
         + if events[|events| - 1].id == id && events[|events| - 1].kind == kind then 1 else 0
  }

  function Deaths(events: seq<Event>, id: string): nat {
    Occurs(events, id, DeadEvent(NoHandler)) + Occurs(events, id, DeadEvent(InvalidPayload))
    + Occurs(events, id, DeadEvent(Exhausted))
  }

  // The status the row should show for where the job stands; `finished` is its last outcome.
  predicate Shows(row: Row, life: Life) {
    match life
    case Idle => row.status == COMPLETED || row.status == DEAD_LETTERED
    case Waiting(k, _) => row.status == (if k == 1 then QUEUED else RUNNING) && (k > 1 ==> row.attempts == k - 1)
    case Busy(k, _) => row.status == RUNNING && row.attempts == k
    case Broken => true
  }

  // The id was used before and its new job has not been dispatched yet.
  predicate ReusedAndUndispatched(events: seq<Event>, id: string) {
    LifeOf(events, id).Waiting? && LifeOf(events, id).next == 1 && Occurs(events, id, QueuedEvent) >= 2
  }

  // Recorded, and no enqueue of the id was ever accepted.
  predicate Orphaned(events: seq<Event>, id: string) {
    Occurs(events, id, QueuedEvent) == 0
  }

  ghost predicate InStep(events: seq<Event>, row: Option<Row>, id: string) {
    var life := LifeOf(events, id);
    && (life.Waiting? ==> life.next >= 1) && (life.Busy? ==> life.attempt >= 1)
    && (Orphaned(events, id) ==>
          && life == Idle && Occurs(events, id, RetryEvent) == Deaths(events, id) == 0
          && (row.Some? ==> row.value == Row(QUEUED, 0, 0, 0)))
    && (row.None? ==> Orphaned(events, id))
    && (row.Some? ==>
          && row.value.retries == Occurs(events, id, RetryEvent) && row.value.deadLetters == Deaths(events, id)
          && (Shows(row.value, life) <==> !ReusedAndUndispatched(events, id) && !Orphaned(events, id))
          && (ReusedAndUndispatched(events, id) ==> Shows(row.value, Idle)))
  }

  lemma OccursNext(events: seq<Event>, e: Event, id: string, kind: EventKind)
    ensures Occurs(events + [e], id, kind) == Occurs(events, id, kind) + if e.id == id && e.kind == kind then 1 else 0
  {
    assert (events + [e])[..|events|] == events;
  }

  lemma EventInStep(events: seq<Event>, row: Option<Row>, e: Event, id: string)
    requires LifeOf(events + [e], id) != Broken && InStep(events, row, id) && (e.id == id ==> row.Some?)
    ensures LifeOf(events, id) != Broken
    ensures InStep(events + [e], if e.id == id then MirrorAfter(row, e) else row, id)
  {
    LifeNext(events, e, id);
    OccursNext(events, e, id, QueuedEvent);
    OccursNext(events, e, id, RetryEvent);
    OccursNext(events, e, id, DeadEvent(NoHandler));
    OccursNext(events, e, id, DeadEvent(InvalidPayload));
    OccursNext(events, e, id, DeadEvent(Exhausted));
    hide LifeOf, Occurs;
  }

  lemma {:induction false} MirrorInStep(log: seq<Act>, id: string)
    requires LifeOf(EventsOf(log), id) != Broken && RecordedFirst(log, id)
    ensures InStep(EventsOf(log), Mirror(log, id), id) && (Mirror(log, id).None? <==> Recorded(id) !in log)
  {
    if log != [] {
      var n := |log| - 1;
      assert log == log[..n] + [log[n]];
      RecordedFirstBefore(log, id);
      var before := EventsOf(log[..n]);
      if log[n].Emitted? {
        LifeNext(before, log[n].event, id);
      } else {
        assert EventsOf(log) == before;
      }
      hide LifeOf, InStep, RecordedFirst;
      MirrorInStep(log[..n], id);
      if log[n].Emitted? {
        EventInStep(before, Mirror(log[..n], id), log[n].event, id);
      } else {
        RecordInStep(before, Mirror(log[..n], id), id);
      }
    }
  }

  lemma RecordInStep(events: seq<Event>, row: Option<Row>, id: string)
    requires InStep(events, row, id)
    ensures row.Some? || InStep(events, Some(Row(QUEUED, 0, 0, 0)), id)
  {
  }

  lemma RecordedFirstBefore(log: seq<Act>, id: string)
    requires log != [] && RecordedFirst(log, id)
    ensures RecordedFirst(log[..|log| - 1], id)
    ensures var last := log[|log| - 1]; last.Emitted? && last.event.id == id ==> Recorded(id) in log[..|log| - 1]
  {
    var n := |log| - 1;
    forall i | 0 <= i < n && log[..n][i].Emitted? && log[..n][i].event.id == id
      ensures Recorded(id) in log[..n][..i]
    {
      assert log[..n][..i] == log[..i];
    }
  }

  /** Applying everything in order keeps the mirror in step: a row once the id is recorded, one retry row
      per retry, one dead letter per death, and a status that agrees with the job except, exactly, while
      no enqueue was accepted, when the row says QUEUED although there is no job, and while a reused id
      waits for its first dispatch, when it still shows how the previous job ended. */
  lemma MirrorAgrees(log: seq<Act>, id: string)
    requires LifeOf(EventsOf(log), id) != Broken && RecordedFirst(log, id)
    ensures LifeOf(EventsOf(log), id).Waiting? ==> LifeOf(EventsOf(log), id).next >= 1
    ensures LifeOf(EventsOf(log), id).Busy? ==> LifeOf(EventsOf(log), id).attempt >= 1
    ensures Mirror(log, id).None? <==> Recorded(id) !in log
    ensures Orphaned(EventsOf(log), id) ==>
              && LifeOf(EventsOf(log), id) == Idle
              && Occurs(EventsOf(log), id, RetryEvent) == Deaths(EventsOf(log), id) == 0
              && (Mirror(log, id).Some? ==> Mirror(log, id).value == Row(QUEUED, 0, 0, 0))
    ensures Mirror(log, id).None? ==> Orphaned(EventsOf(log), id)
    ensures Mirror(log, id).Some? ==>
              var row, events := Mirror(log, id).value, EventsOf(log);
              && row.retries == Occurs(events, id, RetryEvent) && row.deadLetters == Deaths(events, id)
              && (Shows(row, LifeOf(events, id)) <==> !ReusedAndUndispatched(events, id) && !Orphaned(events, id))
              && (ReusedAndUndispatched(events, id) ==> Shows(row, Idle))
  {
    MirrorInStep(log, id);
  }
}
