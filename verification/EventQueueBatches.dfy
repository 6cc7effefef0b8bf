// What a batch carries and what a reply takes out of the queue: recovery evidence comes first, in the
// batch and in the count of what was accepted.
module EventQueueBatches {
  import opened Wrappers
  import opened EventQueues

  // A flush sends nothing exactly when there is nothing. Else it carries the recovery evidence, and
  // behind it as many of the oldest events as fit into a hundred.
  lemma BatchIs(q: Queue, recovery: nat)
    requires q.inFlight.None?
    ensures BeginFlush(q, recovery) == q.(inFlight := BeginFlush(q, recovery).inFlight)
    ensures var b := BeginFlush(q, recovery).inFlight;
            && (b.None? <==> recovery == 0 && q.pending == [])
            && (b.Some? ==>
                  && b.value.events <= q.pending
                  && (if recovery <= 100 then b.value.recovery == recovery else b.value.recovery == 100)
                  && b.value.recovery + |b.value.events| <= 100
                  && (b.value.events == q.pending || b.value.recovery + |b.value.events| == 100))
  {
  }

  // While a batch is under way nothing else is sent.
  lemma OneBatchAtATime(q: Queue, recovery: nat)
    requires q.inFlight.Some?
    ensures BeginFlush(q, recovery) == q
  {
  }

  // A reply that accepts the first n of a batch of recovery evidence and events takes out of the queue
  // exactly those of its events that stand before position n, the evidence counted; none for a negative
  // n. The batch is over, and the queue keeps its order.
  lemma ReplyTakes(q: Queue, n: int)
    requires q.inFlight.Some?
    ensures EndFlush(q, n).inFlight.None? && EndFlush(q, n).nextId == q.nextId
    ensures forall e :: e in EndFlush(q, n).pending <==>
              e in q.pending && !exists i :: 0 <= i < |q.inFlight.value.events| && q.inFlight.value.events[i] == e
                                             && q.inFlight.value.recovery + i < n
    ensures forall i :: 0 <= i < |q.inFlight.value.events| && q.inFlight.value.recovery + i < n ==>
              q.inFlight.value.events[i] in AcceptedNow(q, n)
    ensures |AcceptedNow(q, n)| == Max(0, Min(|q.inFlight.value.events|, n - q.inFlight.value.recovery))
  {
    var b := q.inFlight.value;
    if n >= 0 {
      var a := Accepted(b, n);
      forall e
        ensures e in a <==> exists i :: 0 <= i < |b.events| && b.events[i] == e && b.recovery + i < n
      {
        if i :| 0 <= i < |b.events| && b.events[i] == e && b.recovery + i < n {
          assert a[i] == e;
        }
      }
    }
  }

  // A new event stands last; only a full queue loses its oldest for it.
  lemma EnqueueIs(q: Queue, kind: Kind)
    requires |q.pending| <= 100
    ensures Enqueue(q, kind) ==
            q.(pending := (if |q.pending| < 100 then q.pending else q.pending[1..]) + [Event(q.nextId, kind)], nextId := q.nextId + 1)
  {
    var grown := q.pending + [Event(q.nextId, kind)];
    if |q.pending| == 100 {
      assert grown[1..] == q.pending[1..] + [Event(q.nextId, kind)];
    }
  }

  // A summary stands last, too, in place of the earlier ones of its connection, unless it would be the
  // hundredth.
  lemma SummaryIs(q: Queue, connection: string)
    requires |q.pending| <= 100
    ensures var kept := WithoutSummaries(q.pending, connection);
            EnqueueSummary(q, connection) ==
            if |kept| < 99 then q.(pending := kept + [Event(q.nextId, QualitySummary(connection))], nextId := q.nextId + 1)
            else q.(pending := kept)
  {
    var kept := WithoutSummaries(q.pending, connection);
    if |kept| < 99 {
      EnqueueIs(q.(pending := kept), QualitySummary(connection));
    }
  }
}
