// The instance agent's bounded queue of events for the control plane. A batch is sent while
// new events keep arriving and overflowing, and the reply accepts a prefix of what was sent.
module EventQueues {
  import opened Wrappers

  const MAX_PENDING_EVENTS := 100

  datatype Kind =
    | ResetCompleted(recycleId: Option<string>, completedAt: Option<int>)
    | QualitySummary(connection: string)
    | Other(name: string)

  // `id` is the identity of the event object: ids are handed out in the order of enqueueing.
  datatype Event = Event(id: nat, kind: Kind)

  // Recovery evidence travels in front of the queued events of a batch.
  datatype Batch = Batch(recovery: nat, events: seq<Event>)

  datatype Queue = Queue(pending: seq<Event>, nextId: nat, inFlight: Option<Batch>)

  const EMPTY := Queue([], 0, None)

  // ---- the operations on values ----

  function Newest(events: seq<Event>): seq<Event> {
    if |events| > MAX_PENDING_EVENTS then events[|events| - MAX_PENDING_EVENTS..] else events
  }

  function Enqueue(q: Queue, kind: Kind): Queue {
    q.(pending := Newest(q.pending + [Event(q.nextId, kind)]), nextId := q.nextId + 1)
  }

  function WithoutSummaries(events: seq<Event>, connection: string): (r: seq<Event>)
    ensures forall e :: e in r <==> e in events && e.kind != QualitySummary(connection)
    ensures |r| <= |events|
  {
    if events == [] then []
    else
      var front, last := events[..|events| - 1], events[|events| - 1];
      WithoutSummaries(front, connection) + if last.kind == QualitySummary(connection) then [] else [last]
  }

  // A quality summary replaces the queued ones of its connection, and is dropped rather than
  // crowd out other events.
  function EnqueueSummary(q: Queue, connection: string): Queue {
    var kept := WithoutSummaries(q.pending, connection);
    if |kept| >= MAX_PENDING_EVENTS - 1 then q.(pending := kept)
    else Enqueue(q.(pending := kept), QualitySummary(connection))
  }

  // What a flush submits, or None when there is nothing to send.
  function NextBatch(q: Queue, recovery: nat): Option<Batch> {
    var room := Max(0, MAX_PENDING_EVENTS - recovery);
    var batch := Batch(Min(recovery, MAX_PENDING_EVENTS), q.pending[..Min(room, |q.pending|)]);
    if batch.recovery == 0 && batch.events == [] then None else Some(batch)
  }

  function BeginFlush(q: Queue, recovery: nat): Queue {
    if q.inFlight.Some? then q else q.(inFlight := NextBatch(q, recovery))
  }

  // The queued events among the first `count` of a batch.
  function Accepted(b: Batch, count: nat): (r: seq<Event>)
    ensures r <= b.events
  {
    var n := Min(b.recovery + |b.events|, count);
    b.events[..Max(0, n - b.recovery)]
  }

  function AcceptedNow(q: Queue, count: int): seq<Event> {
    if q.inFlight.None? || count < 0 then [] else Accepted(q.inFlight.value, count)
  }

  function Without(events: seq<Event>, gone: seq<Event>): (r: seq<Event>)
    ensures forall e :: e in r <==> e in events && e !in gone
    ensures |r| <= |events|
  {
    if events == [] then []
    else
      var front, last := events[..|events| - 1], events[|events| - 1];
      Without(front, gone) + if last in gone then [] else [last]
  }

  // A negative count is an invalid reply and acknowledges nothing.
  function EndFlush(q: Queue, acceptedCount: int): Queue {
    if q.inFlight.None? then q
    else if acceptedCount < 0 then q.(inFlight := None)
    else q.(pending := Without(q.pending, Accepted(q.inFlight.value, acceptedCount)), inFlight := None)
  }

  // ---- the object ----

  class EventQueue {
    var pending: seq<Event>
    var nextId: nat
    var inFlight: Option<Batch>

    constructor ()
      ensures Contents() == EMPTY
    {
      pending, nextId, inFlight := [], 0, None;
    }

    function Contents(): Queue
      reads this
    {
      Queue(pending, nextId, inFlight)
    }

    method QueueEvent(kind: Kind)
      modifies this`pending, this`nextId
      ensures Contents() == Enqueue(old(Contents()), kind)
    {
      pending := pending + [Event(nextId, kind)];
      nextId := nextId + 1;
      if |pending| > MAX_PENDING_EVENTS {
        pending := pending[|pending| - MAX_PENDING_EVENTS..];
      }
    }

    method QueueSummary(connection: string)
      modifies this`pending, this`nextId
      ensures Contents() == EnqueueSummary(old(Contents()), connection)
    {
      var kept: seq<Event> := [];
      for i := 0 to |pending|
        invariant kept == WithoutSummaries(pending[..i], connection)
      {
        assert pending[..i + 1][..i] == pending[..i];
        if pending[i].kind != QualitySummary(connection) {
          kept := kept + [pending[i]];
        }
      }
      assert pending[..|pending|] == pending;
      pending := kept;
      if |pending| >= MAX_PENDING_EVENTS - 1 {
        return;
      }
      QueueEvent(QualitySummary(connection));
    }

    method StartFlush(recovery: nat) returns (batch: Option<Batch>)
      modifies this`inFlight
      ensures Contents() == BeginFlush(old(Contents()), recovery)
      ensures batch == if old(inFlight).Some? then None else NextBatch(old(Contents()), recovery)
    {
      if inFlight.Some? {
        return None;
      }
      batch := NextBatch(Contents(), recovery);
      inFlight := batch;
    }

    // Overflow may have moved events while the batch was in flight, so acknowledged events are
    // found by identity, not by position.
    method FinishFlush(acceptedCount: int) returns (accepted: seq<Event>)
      requires inFlight.Some?
      modifies this`pending, this`inFlight
      ensures Contents() == EndFlush(old(Contents()), acceptedCount)
      ensures accepted == if acceptedCount < 0 then [] else Accepted(old(inFlight).value, acceptedCount)
    {
      accepted := [];
      if acceptedCount >= 0 {
        accepted := Accepted(inFlight.value, acceptedCount);
        var kept: seq<Event> := [];
        for i := 0 to |pending|
          invariant kept == Without(pending[..i], accepted)
        {
          assert pending[..i + 1][..i] == pending[..i];
          if pending[i] !in accepted {
            kept := kept + [pending[i]];
          }
        }
        assert pending[..|pending|] == pending;
        pending := kept;
      }
      inFlight := None;
    }
  }
}
