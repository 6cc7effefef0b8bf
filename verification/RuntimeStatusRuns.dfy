// Every run of the wrapped publisher: updates, answers of the gate, timers and tag writes in any order.
module RuntimeStatusRuns {
  import opened Wrappers
  import opened RuntimeStatus

  datatype Step = Publishes(u: Update, gate: Gate) | TimerFires(gate: Gate) | Writes

  // One request to the base publisher: what was asked, whether the gate was blocked when the
  // wrapper asked it, and the sequence number that was current after it.
  datatype Request = Request(update: Update, blocked: bool, sequence: nat)

  // `calls` counts the updates, `lastRegression` is the number of the last transition to another
  // status than Ready, `pendingFrom` that of the update the timer would publish.
  datatype World = World(wrapper: Wrapper, requests: seq<Request>, calls: nat, lastRegression: int, pendingFrom: int)

  const INITIAL := World(NEW_WRAPPER, [], 0, -1, -1)

  // The one base request a published update leads to.
  function Passed(w: Wrapper, u: Update, g: Gate): Update {
    if PassesBy(w, u) then u
    else if u.status == READY && g.blocked then Update(RESETTING, w.blockShown && u.heartbeatOnly)
    else if u.status == READY && w.blockShown then u.(heartbeatOnly := false)
    else u
  }

  function Noted(w: World, before: Wrapper, u: Update, g: Gate): World {
    var after := Publish(before, u, g);
    w.(wrapper := after, requests := w.requests + [Request(Passed(before, u, g), g.blocked, after.base.sequence)])
  }

  function Next(w: World, step: Step): World {
    match step
    case Publishes(u, g) =>
      Noted(w, w.wrapper, u, g).(
        calls := w.calls + 1,
        lastRegression := if !u.heartbeatOnly && u.status != READY then w.calls else w.lastRegression,
        pendingFrom := if !PassesBy(w.wrapper, u) && u.status == READY && g.blocked && g.notBefore.Some? then w.calls else w.pendingFrom)
    case TimerFires(g) =>
      if !w.wrapper.timer then w
      else if w.wrapper.pending.None? then w.(wrapper := Release(w.wrapper, g))
      else Noted(w, w.wrapper.(timer := false, pending := None), w.wrapper.pending.value, g)
    case Writes => w.(wrapper := w.wrapper.(base := Dequeue(w.wrapper.base)))
  }

  function Run(w: World, steps: seq<Step>): World {
    if steps == [] then w else Next(Run(w, steps[..|steps| - 1]), steps[|steps| - 1])
  }

  // ---- the queue ----

  // A task is the request of its number, and carries the sequence number current after it.
  ghost predicate IsRequest(t: Task, requests: seq<Request>) {
    t.id < |requests| && requests[t.id].update == t.update && requests[t.id].sequence == t.sequence
  }

  ghost predicate FromRequests(ts: seq<Task>, requests: seq<Request>) {
    forall i :: 0 <= i < |ts| ==> IsRequest(ts[i], requests)
  }

  ghost predicate Ordered(ts: seq<Task>) {
    forall i, j :: 0 <= i < j < |ts| ==> ts[i].id < ts[j].id
  }

  // Sequence numbers never fall, and rise with every transition.
  ghost predicate Rising(requests: seq<Request>) {
    forall i, j :: 0 <= i < j < |requests| ==>
      requests[i].sequence <= requests[j].sequence && (!requests[j].update.heartbeatOnly ==> requests[i].sequence < requests[j].sequence)
  }

  // Request i is the transition that was asked for last.
  ghost predicate LastTransition(requests: seq<Request>, i: nat) {
    && i < |requests| && !requests[i].update.heartbeatOnly
    && forall j :: i < j < |requests| ==> requests[j].update.heartbeatOnly
  }

  ghost predicate Has(ts: seq<Task>, id: nat) {
    exists k :: 0 <= k < |ts| && ts[k].id == id
  }

  // The sequence numbers of the requests, up to the current one.
  ghost predicate Counted(b: Base, requests: seq<Request>) {
    && b.nextId == |requests| && Rising(requests)
    && (forall i :: 0 <= i < |requests| ==> requests[i].sequence <= b.sequence)
    && (requests != [] ==> requests[|requests| - 1].sequence == b.sequence)
  }

  // The transition asked for last is the desired status, and is in the list.
  ghost predicate LastKept(b: Base, ts: seq<Task>, requests: seq<Request>) {
    forall i: nat :: LastTransition(requests, i) ==>
      requests[i].sequence == b.sequence && b.desired == Some(requests[i].update.status) && Has(ts, i)
  }

  // A request for Ready in the list was made while the gate was open.
  ghost predicate ReadyOpen(ts: seq<Task>, requests: seq<Request>) {
    forall i :: 0 <= i < |ts| && ts[i].update.status == READY && ts[i].id < |requests| ==> !requests[ts[i].id].blocked
  }

  ghost predicate Kept(b: Base, ts: seq<Task>, requests: seq<Request>) {
    FromRequests(ts, requests) && Ordered(ts) && LastKept(b, ts, requests) && ReadyOpen(ts, requests)
  }

  ghost predicate BaseInv(b: Base, requests: seq<Request>) {
    Counted(b, requests) && Kept(b, b.attempted + b.queue, requests)
  }

  lemma CountedGrows(b: Base, requests: seq<Request>, u: Update, r: Request)
    requires Counted(b, requests) && r.update == u && r.sequence == BasePublish(b, u).sequence
    ensures Counted(BasePublish(b, u), requests + [r])
  {
  }

  lemma ListGrows(ts: seq<Task>, requests: seq<Request>, r: Request)
    requires FromRequests(ts, requests) && ReadyOpen(ts, requests)
    ensures FromRequests(ts, requests + [r]) && ReadyOpen(ts, requests + [r])
  {
    forall i | 0 <= i < |ts|
      ensures IsRequest(ts[i], requests + [r])
              && (ts[i].update.status == READY ==> !(requests + [r])[ts[i].id].blocked)
    {
      assert IsRequest(ts[i], requests);
    }
  }

  lemma AppendedIsKept(ts: seq<Task>, requests: seq<Request>, t: Task)
    requires FromRequests(ts, requests) && Ordered(ts) && ReadyOpen(ts, requests)
    requires IsRequest(t, requests) && t.id == |requests| - 1 && FromRequests(ts, requests[..t.id])
    requires t.update.status == READY ==> !requests[t.id].blocked
    ensures FromRequests(ts + [t], requests) && Ordered(ts + [t]) && ReadyOpen(ts + [t], requests)
  {
    assert forall i :: 0 <= i < |ts| ==> IsRequest(ts[i], requests[..t.id]);
  }

  lemma LastGrows(b: Base, ts: seq<Task>, requests: seq<Request>, b': Base, ts': seq<Task>, r: Request)
    requires LastKept(b, ts, requests)
    requires ts <= ts'
    requires r.update.heartbeatOnly ==> b'.sequence == b.sequence && b'.desired == b.desired
    requires !r.update.heartbeatOnly ==>
      r.sequence == b'.sequence && b'.desired == Some(r.update.status) && Has(ts', |requests|)
    ensures LastKept(b', ts', requests + [r])
  {
    forall i: nat | LastTransition(requests + [r], i)
      ensures (requests + [r])[i].sequence == b'.sequence
              && b'.desired == Some((requests + [r])[i].update.status) && Has(ts', i)
    {
      LastBefore(requests, r, i);
      if i < |requests| {
        var k :| 0 <= k < |ts| && ts[k].id == i;
        assert ts'[k] == ts[k];
      }
    }
  }

  lemma LastBefore(requests: seq<Request>, r: Request, i: nat)
    requires LastTransition(requests + [r], i)
    ensures if r.update.heartbeatOnly then i < |requests| && LastTransition(requests, i) else i == |requests|
  {
    var more := requests + [r];
    assert more[|requests|] == r;
    assert forall j :: 0 <= j < |requests| ==> more[j] == requests[j];
  }

  lemma RequestKeeps(b: Base, requests: seq<Request>, u: Update, blocked: bool)
    requires BaseInv(b, requests)
    requires u.status == READY && blocked ==> StaleHeartbeat(b.desired, u)
    ensures BaseInv(BasePublish(b, u), requests + [Request(u, blocked, BasePublish(b, u).sequence)])
  {
    var after := BasePublish(b, u);
    var r := Request(u, blocked, after.sequence);
    var ts := b.attempted + b.queue;
    var t := Task(u, after.sequence, b.nextId);
    CountedGrows(b, requests, u, r);
    ListGrows(ts, requests, r);
    hide Counted, FromRequests, Ordered, LastKept, ReadyOpen;
    if StaleHeartbeat(after.desired, u) {
      LastGrows(b, ts, requests, after, ts, r);
    } else {
      assert after.attempted + after.queue == ts + [t];
      assert Has(ts + [t], t.id) by { assert (ts + [t])[|ts|] == t; }
      assert t.id == |requests| by { CountedIds(b, requests); }
      assert (requests + [r])[..t.id] == requests;
      AppendedIsKept(ts, requests + [r], t);
      LastGrows(b, ts, requests, after, ts + [t], r);
    }
  }

  lemma CountedIds(b: Base, requests: seq<Request>)
    requires Counted(b, requests)
    ensures b.nextId == |requests|
  {
  }

  // Taking one task out of the list keeps the order of the others.
  lemma RemovalKeepsOrder(ts: seq<Task>, requests: seq<Request>, n: nat)
    requires n < |ts| && FromRequests(ts, requests) && Ordered(ts) && ReadyOpen(ts, requests)
    ensures var left := ts[..n] + ts[n + 1..];
            FromRequests(left, requests) && Ordered(left) && ReadyOpen(left, requests)
  {
    var left := ts[..n] + ts[n + 1..];
    assert forall i :: 0 <= i < |left| ==> left[i] == ts[if i < n then i else i + 1];
  }

  lemma RemovalKeepsOthers(ts: seq<Task>, n: nat, k: nat)
    requires n < |ts| && k < |ts| && k != n
    ensures Has(ts[..n] + ts[n + 1..], ts[k].id)
  {
    assert (ts[..n] + ts[n + 1..])[if k < n then k else k - 1] == ts[k];
  }

  lemma WriteKeeps(b: Base, requests: seq<Request>)
    requires BaseInv(b, requests)
    ensures BaseInv(Dequeue(b), requests)
  {
    if b.queue != [] {
      var t := b.queue[0];
      var ts := b.attempted + b.queue;
      var after := Dequeue(b);
      var left := after.attempted + after.queue;
      if Current(b, t) {
        assert left == ts;
      } else {
        var n := |b.attempted|;
        assert ts[n] == t;
        assert left == ts[..n] + ts[n + 1..];
        RemovalKeepsOrder(ts, requests, n);
        LastSurvives(b, requests, n);
      }
    }
  }

  lemma LastSurvives(b: Base, requests: seq<Request>, n: nat)
    requires BaseInv(b, requests)
    requires n < |b.attempted + b.queue| && !Current(b, (b.attempted + b.queue)[n])
    ensures var ts := b.attempted + b.queue; LastKept(b, ts[..n] + ts[n + 1..], requests)
  {
    var ts := b.attempted + b.queue;
    forall i: nat | LastTransition(requests, i)
      ensures requests[i].sequence == b.sequence && b.desired == Some(requests[i].update.status)
              && Has(ts[..n] + ts[n + 1..], i)
    {
      assert Has(ts, i);
      var k :| 0 <= k < |ts| && ts[k].id == i;
      LastIsCurrent(b, requests, i, k);
      RemovalKeepsOthers(ts, n, k);
    }
  }

  lemma LastIsCurrent(b: Base, requests: seq<Request>, i: nat, k: nat)
    requires BaseInv(b, requests) && LastTransition(requests, i)
    requires k < |b.attempted + b.queue| && (b.attempted + b.queue)[k].id == i
    ensures Current(b, (b.attempted + b.queue)[k])
  {
    assert IsRequest((b.attempted + b.queue)[k], requests);
  }

  // ---- the wrapper ----

  ghost predicate Inv(w: World) {
    var x := w.wrapper;
    && BaseInv(x.base, w.requests)
    && (x.observed.Some? && x.observed.value != [] && x.observed.value != READY ==> x.base.desired == x.observed)
    && (x.pending.Some? ==> w.lastRegression < w.pendingFrom < w.calls && x.pending.value == Update(READY, false))
    && w.lastRegression < w.calls
  }

  lemma NotedKeeps(w: World, before: Wrapper, u: Update, g: Gate)
    requires BaseInv(before.base, w.requests)
    requires before.observed.Some? && before.observed.value != [] && before.observed.value != READY ==> before.base.desired == before.observed
    ensures var w' := Noted(w, before, u, g);
            var x := w'.wrapper;
            BaseInv(x.base, w'.requests)
            && (x.observed.Some? && x.observed.value != [] && x.observed.value != READY ==> x.base.desired == x.observed)
  {
    hide BaseInv;
    var p := Passed(before, u, g);
    assert Publish(before, u, g).base == BasePublish(before.base, p);
    RequestKeeps(before.base, w.requests, p, g.blocked);
  }

  lemma NextKeeps(w: World, step: Step)
    requires Inv(w)
    ensures Inv(Next(w, step))
  {
    hide BaseInv, BasePublish;
    match step
    case Publishes(u, g) => NotedKeeps(w, w.wrapper, u, g);
    case TimerFires(g) =>
      if w.wrapper.timer && w.wrapper.pending.Some? {
        NotedKeeps(w, w.wrapper.(timer := false, pending := None), w.wrapper.pending.value, g);
      }
    case Writes => WriteKeeps(w.wrapper.base, w.requests);
  }

  lemma {:induction false} Reached(steps: seq<Step>)
    ensures Inv(Run(INITIAL, steps))
  {
    hide Next;
    if steps != [] {
      Reached(steps[..|steps| - 1]);
      NextKeeps(Run(INITIAL, steps[..|steps| - 1]), steps[|steps| - 1]);
    }
  }

  // ---- the promises ----

  // A Ready is written, as a transition or a heartbeat, only for a request made while the gate was
  // open, and only while no transition has been requested since.
  lemma ReadyIsOpenAndLatest(steps: seq<Step>)
    requires var b := Run(INITIAL, steps).wrapper.base;
             b.queue != [] && b.queue[0].update.status == READY && Dequeue(b).attempted != b.attempted
    ensures var w := Run(INITIAL, steps);
            var t := w.wrapper.base.queue[0];
            && t.id < |w.requests| && !w.requests[t.id].blocked && w.requests[t.id].update == t.update
            && forall j :: t.id < j < |w.requests| ==> w.requests[j].update.heartbeatOnly
  {
    hide Run;
    Reached(steps);
    var w := Run(INITIAL, steps);
    var b := w.wrapper.base;
    var t := b.queue[0];
    assert (b.attempted + b.queue)[|b.attempted|] == t;
    assert IsRequest(t, w.requests);
  }

  // Transitions are attempted in strictly rising order of their sequence numbers.
  lemma AttemptsRise(steps: seq<Step>, i: nat, j: nat)
    requires var a := Run(INITIAL, steps).wrapper.base.attempted;
             i < j < |a| && !a[j].update.heartbeatOnly
    ensures var a := Run(INITIAL, steps).wrapper.base.attempted;
            a[i].sequence < a[j].sequence
  {
    hide Run;
    Reached(steps);
    var w := Run(INITIAL, steps);
    var b := w.wrapper.base;
    var ts := b.attempted + b.queue;
    assert ts[i] == b.attempted[i] && ts[j] == b.attempted[j];
    assert IsRequest(ts[i], w.requests) && IsRequest(ts[j], w.requests);
  }

  // Once the queue is empty, the transition requested last has been attempted, and nothing but
  // heartbeats after it.
  lemma DrainedEndsWithLast(steps: seq<Step>, i: nat)
    requires var w := Run(INITIAL, steps); w.wrapper.base.queue == [] && LastTransition(w.requests, i)
    ensures var w := Run(INITIAL, steps);
            var a := w.wrapper.base.attempted;
            && w.wrapper.base.desired == Some(w.requests[i].update.status)
            && exists k :: 0 <= k < |a| && a[k].id == i && a[k].update == w.requests[i].update
                           && forall j :: k < j < |a| ==> a[j].update.heartbeatOnly
  {
    hide Run, Counted, ReadyOpen;
    Reached(steps);
    var w := Run(INITIAL, steps);
    var a := w.wrapper.base.attempted;
    assert a + [] == a;
    var k :| 0 <= k < |a| && a[k].id == i;
    assert IsRequest(a[k], w.requests);
    forall j | k < j < |a|
      ensures a[j].update.heartbeatOnly
    {
      assert IsRequest(a[j], w.requests);
    }
  }

  // The timer publishes only a Ready that was asked for after the last regression.
  lemma ReleaseIsNewer(steps: seq<Step>)
    ensures var w := Run(INITIAL, steps);
            w.wrapper.timer && w.wrapper.pending.Some? ==>
              w.wrapper.pending.value.status == READY && w.lastRegression < w.pendingFrom < w.calls
  {
    hide Run, BaseInv;
    Reached(steps);
  }

  // A firing timer asks the base publisher for one transition: to Ready, asked for after the last
  // regression, when the gate has opened, and to resetting when it is still blocked.
  lemma TimerReleases(steps: seq<Step>, g: Gate)
    requires var w := Run(INITIAL, steps); w.wrapper.timer && w.wrapper.pending.Some?
    ensures var w, after := Run(INITIAL, steps), Next(Run(INITIAL, steps), TimerFires(g));
            && |after.requests| == |w.requests| + 1 && w.requests <= after.requests
            && after.requests[|w.requests|].update == Update(if g.blocked then RESETTING else READY, false)
            && (!g.blocked ==> w.lastRegression < w.pendingFrom < w.calls && after.wrapper.base.desired == Some(READY))
  {
    hide Run, BaseInv;
    Reached(steps);
  }
}
