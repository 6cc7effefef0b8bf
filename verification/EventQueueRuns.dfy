// Every run of the event queue: enqueueing, overflow, sending and acknowledging in any order.
module EventQueueRuns {
  import opened Wrappers
  import opened EventQueues

  datatype Step = Queueing(kind: Kind) | Summarising(connection: string) | Sending(recovery: nat) | Replying(acceptedCount: int)

  // `acknowledged` holds the ids of the queued events whose acceptance has been processed.
  datatype System = System(queue: Queue, acknowledged: set<nat>)

  const INITIAL := System(EMPTY, {})

  function Ids(events: seq<Event>): set<nat> {
    set e | e in events :: e.id
  }

  function Next(s: System, step: Step): System {
    match step
    case Queueing(kind) => s.(queue := Enqueue(s.queue, kind))
    case Summarising(c) => s.(queue := EnqueueSummary(s.queue, c))
    case Sending(r) => s.(queue := BeginFlush(s.queue, r))
    case Replying(n) => System(EndFlush(s.queue, n), s.acknowledged + Ids(AcceptedNow(s.queue, n)))
  }

  function Run(s: System, steps: seq<Step>): System {
    if steps == [] then s else Next(Run(s, steps[..|steps| - 1]), steps[|steps| - 1])
  }

  // In the order of enqueueing, and each identity once.
  ghost predicate InOrder(events: seq<Event>) {
    forall i, j :: 0 <= i < j < |events| ==> events[i].id < events[j].id
  }

  ghost predicate Below(events: seq<Event>, bound: nat) {
    forall e :: e in events ==> e.id < bound
  }

  // Two events of the two sequences with one identity are one event.
  ghost predicate Agree(a: seq<Event>, b: seq<Event>) {
    forall e, f :: e in a && f in b && e.id == f.id ==> e == f
  }

  ghost predicate Inv(s: System) {
    var q := s.queue;
    && |q.pending| <= MAX_PENDING_EVENTS
    && InOrder(q.pending) && Below(q.pending, q.nextId)
    && (forall e :: e in q.pending ==> e.id !in s.acknowledged)
    && (forall id :: id in s.acknowledged ==> id < q.nextId)
    && (q.inFlight.Some? ==>
          InOrder(q.inFlight.value.events) && Below(q.inFlight.value.events, q.nextId) &&
          Agree(q.pending, q.inFlight.value.events))
  }

  lemma NewestIn(events: seq<Event>)
    requires InOrder(events)
    ensures InOrder(Newest(events)) && |Newest(events)| <= MAX_PENDING_EVENTS
    ensures forall e :: e in Newest(events) ==> e in events
  {
  }

  lemma AppendInOrder(events: seq<Event>, e: Event)
    requires InOrder(events) && Below(events, e.id)
    ensures InOrder(events + [e])
    ensures forall f :: f in events + [e] <==> f in events || f == e
  {
  }

  lemma EnqueueKeepsInv(s: System, kind: Kind)
    requires Inv(s)
    ensures Inv(s.(queue := Enqueue(s.queue, kind)))
  {
    hide InOrder, Newest;
    var q := s.queue;
    var e := Event(q.nextId, kind);
    AppendInOrder(q.pending, e);
    NewestIn(q.pending + [e]);
    var after := Enqueue(q, kind);
    assert forall f :: f in after.pending ==> f in q.pending || f == e;
  }

  lemma {:induction false} WithoutSummariesInOrder(events: seq<Event>, connection: string)
    requires InOrder(events)
    ensures InOrder(WithoutSummaries(events, connection))
  {
    if events != [] {
      var front := events[..|events| - 1];
      WithoutSummariesInOrder(front, connection);
      LastIsNewest(events);
    }
  }

  lemma {:induction false} WithoutInOrder(events: seq<Event>, gone: seq<Event>)
    requires InOrder(events)
    ensures InOrder(Without(events, gone))
  {
    if events != [] {
      var front := events[..|events| - 1];
      WithoutInOrder(front, gone);
      LastIsNewest(events);
    }
  }

  lemma LastIsNewest(events: seq<Event>)
    requires InOrder(events) && events != []
    ensures Below(events[..|events| - 1], events[|events| - 1].id)
  {
  }

  lemma NextKeepsInv(s: System, step: Step)
    requires Inv(s)
    ensures Inv(Next(s, step))
  {
    match step
    case Queueing(kind) => EnqueueKeepsInv(s, kind);
    case Summarising(c) => SummaryKeepsInv(s, c);
    case Sending(r) => SendKeepsInv(s, r);
    case Replying(n) => ReplyKeepsInv(s, n);
  }

  lemma SummaryKeepsInv(s: System, c: string)
    requires Inv(s)
    ensures Inv(s.(queue := EnqueueSummary(s.queue, c)))
  {
    hide InOrder, Newest;
    WithoutSummariesInOrder(s.queue.pending, c);
    var s' := s.(queue := s.queue.(pending := WithoutSummaries(s.queue.pending, c)));
    assert Inv(s');
    EnqueueKeepsInv(s', QualitySummary(c));
  }

  lemma SendKeepsInv(s: System, r: nat)
    requires Inv(s)
    ensures Inv(s.(queue := BeginFlush(s.queue, r)))
  {
    SameIdSameEvent(s.queue.pending);
  }

  lemma SameIdSameEvent(events: seq<Event>)
    requires InOrder(events)
    ensures Agree(events, events)
  {
    forall e, f | e in events && f in events && e.id == f.id
      ensures e == f
    {
      var i :| 0 <= i < |events| && events[i] == e;
      var j :| 0 <= j < |events| && events[j] == f;
    }
  }

  lemma ReplyKeepsInv(s: System, n: int)
    requires Inv(s)
    ensures Inv(Next(s, Replying(n)))
  {
    hide InOrder;
    var q := s.queue;
    if q.inFlight.Some? && n >= 0 {
      WithoutInOrder(q.pending, Accepted(q.inFlight.value, n));
    }
  }

  lemma {:induction false} Reached(steps: seq<Step>)
    ensures Inv(Run(INITIAL, steps))
  {
    if steps != [] {
      Reached(steps[..|steps| - 1]);
      NextKeepsInv(Run(INITIAL, steps[..|steps| - 1]), steps[|steps| - 1]);
    }
  }

  // Over every run the queue holds at most 100 events, in the order of enqueueing, each once.
  lemma QueueIsBoundedAndOrdered(steps: seq<Step>)
    ensures |Run(INITIAL, steps).queue.pending| <= MAX_PENDING_EVENTS
    ensures InOrder(Run(INITIAL, steps).queue.pending)
  {
    Reached(steps);
  }

  // An event whose acceptance has been processed is in no later batch.
  lemma AcknowledgedIsNeverSentAgain(steps: seq<Step>, recovery: nat)
    ensures var s := Run(INITIAL, steps);
            s.queue.inFlight.None? && NextBatch(s.queue, recovery).Some? ==>
              forall e :: e in NextBatch(s.queue, recovery).value.events ==> e.id !in s.acknowledged
  {
    Reached(steps);
  }

  // Why an event leaves: it was in the accepted prefix, a newer summary of its connection
  // arrived, or a full queue pushed out its oldest event.
  predicate LeavesFor(q: Queue, step: Step, e: Event) {
    match step
    case Queueing(_) => |q.pending| == MAX_PENDING_EVENTS && e == q.pending[0]
    case Summarising(c) => e.kind == QualitySummary(c)
    case Sending(_) => false
    case Replying(n) => e in AcceptedNow(q, n)
  }

  // What an event can become part of the queue for.
  predicate EntersBy(q: Queue, step: Step, e: Event) {
    match step
    case Queueing(kind) => e == Event(q.nextId, kind)
    case Summarising(c) => e == Event(q.nextId, QualitySummary(c)) && |WithoutSummaries(q.pending, c)| < MAX_PENDING_EVENTS - 1
    case _ => false
  }

  // Exactly the events with a reason to leave do leave, and only the new event enters.
  lemma QueueChangesOnlyFor(s: System, step: Step, e: Event)
    requires Inv(s)
    ensures e in Next(s, step).queue.pending <==>
            (e in s.queue.pending && !LeavesFor(s.queue, step, e)) || EntersBy(s.queue, step, e)
  {
    var q := s.queue;
    match step
    case Queueing(kind) =>
      var grown := q.pending + [Event(q.nextId, kind)];
      if |q.pending| == MAX_PENDING_EVENTS {
        assert grown == [q.pending[0]] + (q.pending[1..] + [Event(q.nextId, kind)]);
        assert Newest(grown) == q.pending[1..] + [Event(q.nextId, kind)];
        assert q.pending == [q.pending[0]] + q.pending[1..];
      }
    case Summarising(c) =>
    case Sending(r) =>
    case Replying(n) =>
  }
}
