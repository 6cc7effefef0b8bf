// What the recycle protocol promises over every run.
module RecycleSafety {
  import opened Wrappers
  import opened RuntimeSnapshot
  import opened RuntimeGate
  import GateRuns = RuntimeGateRuns
  import opened EventQueues
  import opened RecycleAgent
  import opened RecycleGateFacts
  import opened RecycleRuns
  import Texts

  // The recycle token of the marker, if it has one, is in the fence of the file and of what survives
  // a power failure.
  ghost predicate TokenDone(st: Store, m: Marker) {
    MarkerToken(m).Some? ==> Done(st, MarkerToken(m).value)
  }

  // Whatever was reported for the recycle of `m` was reported with the time on `m`.
  ghost predicate TimeAgrees(m: Marker, h: History) {
    forall e :: e in h.emissions && e.marker.recycleId == m.recycleId ==> e.marker.completedAt == m.completedAt
  }

  // A completion may be reported from `m` by process `pid`.
  ghost predicate Reportable(m: Marker, pid: int, h: History) {
    ProvesReplacement(m, pid) && m.recycleId in h.used && TimeAgrees(m, h)
  }

  ghost predicate Emitted(h: History, recycleId: string) {
    exists e :: e in h.emissions && e.marker.recycleId == recycleId
  }

  ghost predicate EmittedAt(h: History, recycleId: string, time: Option<int>) {
    exists e :: e in h.emissions && e.marker.recycleId == recycleId && e.marker.completedAt == time
  }

  // Queued completions of a recycle have been recorded, with the time they carry.
  ghost predicate Recorded(events: seq<Event>, h: History) {
    forall e :: e in events && e.kind.ResetCompleted? && e.kind.recycleId.Some? ==>
      EmittedAt(h, e.kind.recycleId.value, e.kind.completedAt)
  }

  ghost predicate Proven(e: Emission) {
    && ProvesReplacement(e.marker, e.pid)
    && e.marker.completedAt.Some?
    && (MarkerToken(e.marker).Some? ==> MarkerToken(e.marker).value in e.fence)
  }

  ghost predicate HistoryInv(h: History) {
    && (forall e :: e in h.emissions ==> Proven(e) && e.marker.recycleId in h.used && TimeAgrees(e.marker, h))
    && (forall id :: id in h.accepted ==> Emitted(h, id))
  }

  ghost predicate MarkerInv(w: World) {
    w.marker.Some? ==> w.marker.value.recycleId in w.hist.used && TimeAgrees(w.marker.value, w.hist)
  }

  ghost predicate PendingInv(r: Runtime, h: History) {
    var a := r.agent;
    a.pending.Some? ==>
      && Reportable(a.pending.value, a.pid, h)
      && (Blocked(r.store, r.gate) || TokenDone(r.store, a.pending.value))
      && (r.marker.Some? && r.marker.value.recycleId == a.pending.value.recycleId && a.pending.value.completedAt.Some? ==>
            r.marker.value.completedAt == a.pending.value.completedAt)
  }

  ghost predicate AwaitingInv(r: Runtime, h: History) {
    var a := r.agent;
    a.awaiting.Some? ==>
      && a.pending.None?
      && Reportable(a.awaiting.value, a.pid, h) && a.awaiting.value.completedAt.Some?
      && TokenDone(r.store, a.awaiting.value) && EmittedAt(h, a.awaiting.value.recycleId, a.awaiting.value.completedAt)
  }

  ghost predicate QueueInv(a: Agent, h: History) {
    && Recorded(a.queue.pending, h)
    && (a.queue.inFlight.Some? ==> Recorded(a.queue.inFlight.value.events, h))
    && (a.toClear.Some? ==> a.toClear.value.recycleId in h.accepted)
  }

  ghost predicate RuntimeInv(r: Runtime, h: History) {
    PendingInv(r, h) && AwaitingInv(r, h) && QueueInv(r.agent, h)
  }

  ghost predicate Inv(w: World) {
    HistoryInv(w.hist) && MarkerInv(w) && (w.live.Some? ==> RuntimeInv(RuntimeOf(w), w.hist))
  }

  // ---- pieces of the agent ----

  // Calls of the gate keep the promises as long as they forget nothing and lift no block.
  lemma GateKeepsRuntime(r: Runtime, st: Store, p: Process, h: History)
    requires RuntimeInv(r, h) && Keeps(r.store, r.gate, st, p)
    ensures RuntimeInv(r.(store := st, gate := p), h)
  {
    hide Blocked, Done, Reportable, QueueInv, MarkerToken;
  }

  // Queueing something else than a completion of a recycle.
  lemma QueueKeepsRuntime(r: Runtime, kind: Kind, h: History)
    requires RuntimeInv(r, h)
    requires kind.ResetCompleted? && kind.recycleId.Some? ==> EmittedAt(h, kind.recycleId.value, kind.completedAt)
    ensures RuntimeInv(r.(agent := Queued(r.agent, kind)), h)
  {
    hide Blocked, Done, Reportable, MarkerToken, EmittedAt;
    var before := r.agent.queue;
    var grown := before.pending + [Event(before.nextId, kind)];
    assert forall e :: e in Newest(grown) ==> e in grown;
  }

  lemma LaunchEstablishes(st: Store, gate: Process, w: World, s: AgentStart)
    requires HistoryInv(w.hist) && MarkerInv(w)
    ensures var (_, r) := Launch(st, gate, w.marker, s);
            r.Some? ==> RuntimeInv(r.value, w.hist) && r.value.marker == w.marker
  {
    hide IsRecoveryRequired, MarkTeardown, Done, TimeAgrees, Texts.NormalizeRecycleToken, Emitted, EmittedAt, Newest;
    StartQueue(w.hist);
    if s.markerReadable && w.marker.Some? {
      AskKeeps(st, gate, s.askReadable);
      var (gate1, required) := IsRecoveryRequired(st, gate, s.askReadable);
      var m := w.marker.value;
      var occurred := Stamp(if m.startedAt.Some? then m.startedAt.value else m.requestedAt);
      MarkTeardownKeeps(st, gate1, s.now, s.teardownReadable, s.teardownWrite,
        TeardownOptions(Some(occurred), Some(Plain("recovered_recycle_marker")), None, None));
    }
  }

  lemma StartQueue(h: History)
    ensures var q := Enqueue(Enqueue(EMPTY, Other("agent_started")), Other("runtime_identity"));
            Recorded(q.pending, h) && q.inFlight.None?
  {
  }

  // After the recovery of the first Ready, everything still holds; and if it was completed, or was
  // not needed, the pending marker may be reported once the gate is not blocked.
  lemma CompleteFirstKeeps(r: Runtime, e: StatusEnv, h: History)
    requires RuntimeInv(r, h) && r.agent.pending.Some?
    requires r.marker.Some? ==> r.marker.value.recycleId in h.used && TimeAgrees(r.marker.value, h)
    ensures var (r', _) := CompleteFirst(r, e);
            RuntimeInv(r', h) && r'.marker == r.marker && r'.agent.pending.Some?
  {
    hide Prepare, CompleteRecovery, IsRecoveryRequired, Done, TimeAgrees, Emitted, EmittedAt, Texts.NormalizeRecycleToken, Recorded, Latched;
    AskKeeps(r.store, r.gate, e.ask1);
    var (gate1, required) := IsRecoveryRequired(r.store, r.gate, e.ask1);
    GateKeepsRuntime(r, r.store, gate1, h);
    if required && e.markerReadable && r.marker.Some? && ProvesReplacement(r.marker.value, r.agent.pid)
       && SameRecycle(r.marker.value, r.agent.pending.value) {
      var (st2, gate2, margin) := Prepare(r.store, gate1, e.prepare);
      PrepareKeeps(r.store, gate1, e.prepare);
      var r2 := r.(store := st2, gate := gate2, agent := r.agent.(pending := r.marker));
      assert RuntimeInv(r2, h);
      if !(margin.Threw? || margin.value.None? || e.nowSeconds <= margin.value.value) {
        CompleteResult(st2, gate2, e.complete, r.marker.value.token);
        assert GateRuns.RecycleToken(r.marker.value.token) == MarkerToken(r.marker.value);
      }
    }
  }

  // ---- reporting a completion ----

  function Noted(h: History, m: Marker, pid: int, st: Store): History {
    h.(emissions := h.emissions + [Emission(m, pid, Fence(st.synced))])
  }

  lemma NotedAgrees(h: History, m: Marker, pid: int, st: Store, other: Marker)
    requires TimeAgrees(other, h)
    requires other.recycleId == m.recycleId ==> other.completedAt == m.completedAt
    ensures TimeAgrees(other, Noted(h, m, pid, st))
  {
  }

  lemma NotedEmits(h: History, m: Marker, pid: int, st: Store)
    ensures EmittedAt(Noted(h, m, pid, st), m.recycleId, m.completedAt)
    ensures forall id :: Emitted(h, id) ==> Emitted(Noted(h, m, pid, st), id)
    ensures forall id, time :: EmittedAt(h, id, time) ==> EmittedAt(Noted(h, m, pid, st), id, time)
  {
    var h' := Noted(h, m, pid, st);
    assert h'.emissions[|h.emissions|] == Emission(m, pid, Fence(st.synced));
    forall id | Emitted(h, id)
      ensures Emitted(h', id)
    {
      var e :| e in h.emissions && e.marker.recycleId == id;
      assert e in h'.emissions;
    }
    forall id, time | EmittedAt(h, id, time)
      ensures EmittedAt(h', id, time)
    {
      var e :| e in h.emissions && e.marker.recycleId == id && e.marker.completedAt == time;
      assert e in h'.emissions;
    }
  }

  lemma NotedKeepsHistory(h: History, m: Marker, pid: int, st: Store)
    requires HistoryInv(h) && Reportable(m, pid, h) && m.completedAt.Some? && TokenDone(st, m)
    ensures HistoryInv(Noted(h, m, pid, st))
  {
    hide Texts.NormalizeRecycleToken, Emitted, EmittedAt;
    var h' := Noted(h, m, pid, st);
    NotedEmits(h, m, pid, st);
    forall e | e in h'.emissions
      ensures Proven(e) && e.marker.recycleId in h'.used && TimeAgrees(e.marker, h')
    {
      if e in h.emissions {
        assert e.marker.recycleId == m.recycleId ==> e.marker.completedAt == m.completedAt;
        NotedAgrees(h, m, pid, st, e.marker);
      } else {
        assert e == Emission(m, pid, Fence(st.synced));
        NotedAgrees(h, m, pid, st, m);
      }
    }
  }

  // Nothing has been reported for a recycle whose marker has no completion time.
  lemma UnstampedIsUnreported(h: History, m: Marker, stamped: Marker)
    requires HistoryInv(h) && TimeAgrees(m, h) && m.completedAt.None?
    requires stamped.recycleId == m.recycleId
    ensures TimeAgrees(stamped, h)
  {
    hide MarkerToken;
  }

  ghost predicate FileInv(file: Option<Marker>, h: History) {
    file.Some? ==> file.value.recycleId in h.used && TimeAgrees(file.value, h)
  }

  lemma StampKeeps(r: Runtime, e: StatusEnv, h: History)
    requires HistoryInv(h) && FileInv(r.marker, h) && RuntimeInv(r, h)
    requires r.agent.pending.Some? && r.agent.pending.value.completedAt.None?
    requires TokenDone(r.store, r.agent.pending.value)
    ensures var (r', reported) := Report(r, e);
            var h' := if reported then Noted(h, r'.agent.awaiting.value, r.agent.pid, r.store) else h;
            && (reported ==> r'.agent.awaiting.Some?)
            && HistoryInv(h') && FileInv(r'.marker, h') && RuntimeInv(r', h')
  {
    hide Blocked, Done, TimeAgrees, MarkerToken, Emitted, EmittedAt;
    var m := r.agent.pending.value;
    var stamped := m.(schemaVersion := 2, completedAt := Some(e.nowMs));
    UnstampedIsUnreported(h, m, stamped);
    StampKeepsToken(r.store, m, stamped);
    var (file, ok) := WriteMarker(r.marker, stamped, e.stamp);
    if ok {
      var h' := Noted(h, stamped, r.agent.pid, r.store);
      NotedKeepsHistory(h, stamped, r.agent.pid, r.store);
      NotedAgrees(h, stamped, r.agent.pid, r.store, stamped);
      NotedEmits(h, stamped, r.agent.pid, r.store);
      var a' := r.agent.(resetInProgress := false, pending := None, awaiting := Some(stamped));
      var quiet := r.(marker := file, agent := a');
      assert RuntimeInv(quiet, h');
      QueueKeepsRuntime(quiet, CompletionEvent(Some(stamped)), h');
    }
  }

  lemma StampKeepsToken(st: Store, m: Marker, stamped: Marker)
    requires stamped.token == m.token && TokenDone(st, m)
    ensures TokenDone(st, stamped)
  {
  }

  lemma ReplayKeeps(r: Runtime, e: StatusEnv, h: History)
    requires HistoryInv(h) && FileInv(r.marker, h) && RuntimeInv(r, h)
    requires r.agent.pending.Some? && r.agent.pending.value.completedAt.Some?
    requires TokenDone(r.store, r.agent.pending.value)
    ensures var (r', reported) := Report(r, e);
            var h' := Noted(h, r.agent.pending.value, r.agent.pid, r.store);
            && reported && r'.agent.awaiting == r.agent.pending
            && HistoryInv(h') && FileInv(r'.marker, h') && RuntimeInv(r', h')
  {
    hide Blocked, Done, TimeAgrees, MarkerToken, Emitted, EmittedAt;
    var m := r.agent.pending.value;
    var h' := Noted(h, m, r.agent.pid, r.store);
    NotedKeepsHistory(h, m, r.agent.pid, r.store);
    NotedAgrees(h, m, r.agent.pid, r.store, m);
    NotedEmits(h, m, r.agent.pid, r.store);
    if r.marker.Some? {
      NotedAgrees(h, m, r.agent.pid, r.store, r.marker.value);
    }
    var quiet := r.(agent := r.agent.(resetInProgress := false, pending := None, awaiting := Some(m)));
    assert RuntimeInv(quiet, h');
    QueueKeepsRuntime(quiet, CompletionEvent(Some(m)), h');
  }

  // A reset of no recycle.
  lemma AnonymousKeeps(r: Runtime, e: StatusEnv, h: History)
    requires RuntimeInv(r, h) && r.agent.pending.None?
    ensures var (r', reported) := Report(r, e);
            reported && RuntimeInv(r', h) && r'.marker == r.marker
  {
    hide Blocked, Done, TimeAgrees, MarkerToken, Emitted, EmittedAt, Recorded;
    var quiet := r.(agent := r.agent.(resetInProgress := false, pending := None, awaiting := r.agent.awaiting));
    assert RuntimeInv(quiet, h);
    QueueKeepsRuntime(quiet, CompletionEvent(None), h);
  }

  // What a status update or a retry leaves behind, with its completion noted.
  ghost predicate After(r': Runtime, reported: bool, h: History) {
    var h' := if reported && r'.agent.awaiting.Some?
              then Noted(h, r'.agent.awaiting.value, r'.agent.pid, r'.store) else h;
    HistoryInv(h') && FileInv(r'.marker, h') && RuntimeInv(r', h')
  }

  lemma ReportKeeps(r: Runtime, e: StatusEnv, h: History)
    requires HistoryInv(h) && FileInv(r.marker, h) && RuntimeInv(r, h)
    requires r.agent.pending.Some? ==> TokenDone(r.store, r.agent.pending.value)
    ensures var (r', reported) := Report(r, e);
            After(r', reported && r.agent.pending.Some?, h)
            && r'.agent.pid == r.agent.pid && r'.store == r.store
  {
    hide RuntimeInv, HistoryInv, FileInv, TokenDone, Enqueue;
    if r.agent.pending.None? {
      AnonymousKeeps(r, e, h);
    } else if r.agent.pending.value.completedAt.None? {
      StampKeeps(r, e, h);
    } else {
      ReplayKeeps(r, e, h);
    }
  }

  // ---- the rest of a status update ----

  lemma CancelKeeps(r: Runtime, e: StatusEnv, h: History)
    requires RuntimeInv(r, h) && FileInv(r.marker, h)
    ensures RuntimeInv(Cancel(r, e), h) && FileInv(Cancel(r, e).marker, h)
  {
    hide Blocked, Done, TimeAgrees, MarkerToken, Emitted, EmittedAt, Recorded;
    var quiet := r.(marker := Cancel(r, e).marker, agent := r.agent.(resetInProgress := false, pending := None));
    assert RuntimeInv(quiet, h);
    QueueKeepsRuntime(quiet, Other("reset_cancelled"), h);
  }

  lemma AnnouncedKeeps(r: Runtime, reported: bool, kind: Kind, h: History)
    requires After(r, reported, h) && kind.Other?
    ensures After(r.(agent := Queued(r.agent, kind)), reported, h)
  {
    hide RuntimeInv, HistoryInv, FileInv, Enqueue;
    var h' := if reported && r.agent.awaiting.Some? then Noted(h, r.agent.awaiting.value, r.agent.pid, r.store) else h;
    QueueKeepsRuntime(r, kind, h');
  }

  lemma TransitionKeeps(r: Runtime, u: Update, e: StatusEnv, h: History)
    requires HistoryInv(h) && FileInv(r.marker, h) && RuntimeInv(r, h)
    requires u.status == Some("ready") && r.agent.pending.Some? ==> TokenDone(r.store, r.agent.pending.value)
    ensures var (r', reported) := Transition(r, u, e);
            After(r', reported && r.agent.pending.Some?, h)
  {
    hide RuntimeInv, HistoryInv, FileInv, TokenDone, Report, Cancel, Enqueue;
    var a := r.agent;
    var open := a.resetInProgress || a.pending.Some?;
    if u.status == Some("resetting") && !a.resetInProgress {
      ResetStartedKeeps(r, h);
      AnnouncedKeeps(r.(agent := Queued(a.(resetInProgress := true), Other("reset_started"))), false, StatusEvent(u.status), h);
    } else if open && u.status == Some("ready") {
      ReportKeeps(r, e, h);
      var (r', reported) := Report(r, e);
      if reported {
        AnnouncedKeeps(r', a.pending.Some?, StatusEvent(u.status), h);
      }
    } else if open && CancelsReset(u.status) {
      CancelKeeps(r, e, h);
      AnnouncedKeeps(Cancel(r, e), false, StatusEvent(u.status), h);
    } else {
      AnnouncedKeeps(r, false, StatusEvent(u.status), h);
    }
  }

  lemma ResetStartedKeeps(r: Runtime, h: History)
    requires RuntimeInv(r, h)
    ensures RuntimeInv(r.(agent := Queued(r.agent.(resetInProgress := true), Other("reset_started"))), h)
  {
    hide Blocked, Done, TimeAgrees, MarkerToken, Emitted, EmittedAt, Recorded, Enqueue;
    var quiet := r.(agent := r.agent.(resetInProgress := true));
    assert RuntimeInv(quiet, h);
    QueueKeepsRuntime(quiet, Other("reset_started"), h);
  }

  lemma StatusRecordedKeeps(r: Runtime, u: Update, e: StatusEnv, h: History)
    requires RuntimeInv(r, h)
    ensures RuntimeInv(AfterContext(r.(agent := r.agent.(status := u.status, reason := u.reason)), e), h)
  {
    hide Blocked, Done, Reportable, MarkerToken, Recorded, IsRecoveryRequired;
    var r0 := r.(agent := r.agent.(status := u.status, reason := u.reason));
    assert RuntimeInv(r0, h);
    if e.context.Some? {
      AskKeeps(r.store, r.gate, e.context.value);
      GateKeepsRuntime(r0, r.store, IsRecoveryRequired(r.store, r.gate, e.context.value).0, h);
    }
  }

  lemma PassesKeeps(r: Runtime, u: Update, e: StatusEnv, changed: bool, completed: bool, h: History)
    requires RuntimeInv(r, h)
    ensures var (r', passes) := Passes(r, u, e, changed, completed);
            && RuntimeInv(r', h) && r'.marker == r.marker && r'.agent == r.agent
            && (passes && u.status == Some("ready") && r.agent.pending.Some? ==> !Blocked(r'.store, r'.gate))
  {
    hide RuntimeInv, IsRecoveryRequired, Blocked;
    AskKeeps(r.store, r.gate, e.ask2);
    GateKeepsRuntime(r, r.store, IsRecoveryRequired(r.store, r.gate, e.ask2).0, h);
    var r2 := if u.status == Some("ready") && r.agent.pending.Some?
              then r.(gate := IsRecoveryRequired(r.store, r.gate, e.ask2).0) else r;
    AskKeeps(r2.store, r2.gate, e.ask3);
    GateKeepsRuntime(r2, r2.store, IsRecoveryRequired(r2.store, r2.gate, e.ask3).0, h);
  }

  lemma SettleKeeps(r: Runtime, u: Update, e: StatusEnv, changed: bool, completed: bool, h: History)
    requires HistoryInv(h) && FileInv(r.marker, h) && RuntimeInv(r, h)
    ensures var (r', reported) := Settle(r, u, e, changed, completed);
            After(r', reported && r.agent.pending.Some?, h)
  {
    hide RuntimeInv, HistoryInv, FileInv, TokenDone, Transition, Passes, Blocked;
    PassesKeeps(r, u, e, changed, completed, h);
    var (r2, passes) := Passes(r, u, e, changed, completed);
    if passes {
      if u.status == Some("ready") && r.agent.pending.Some? {
        UnblockedIsDone(r2, h);
      }
      TransitionKeeps(r2, u, e, h);
    }
  }

  lemma RecordStatusKeeps(r: Runtime, u: Update, e: StatusEnv, h: History)
    requires HistoryInv(h) && FileInv(r.marker, h) && RuntimeInv(r, h)
    ensures var (r', reported) := RecordStatus(r, u, e);
            After(r', reported && r.agent.pending.Some?, h)
  {
    hide RuntimeInv, HistoryInv, Settle, CompleteFirst, TimeAgrees;
    var changed := r.agent.status != u.status || r.agent.reason != u.reason;
    var r0 := AfterContext(r.(agent := r.agent.(status := u.status, reason := u.reason)), e);
    StatusRecordedKeeps(r, u, e, h);
    if u.status == Some("ready") && r0.agent.pending.Some? {
      CompleteFirstKeeps(r0, e, h);
      var (r1, verdict) := CompleteFirst(r0, e);
      if verdict.Go? {
        SettleKeeps(r1, u, e, changed, verdict.completed, h);
      }
    } else {
      SettleKeeps(r0, u, e, changed, false, h);
    }
  }

  lemma UnblockedIsDone(r: Runtime, h: History)
    requires RuntimeInv(r, h) && !Blocked(r.store, r.gate)
    ensures r.agent.pending.Some? ==> TokenDone(r.store, r.agent.pending.value)
  {
    hide Blocked, TokenDone, Reportable, AwaitingInv, QueueInv;
  }

  lemma EnsureReportedKeeps(r: Runtime, h: History)
    requires HistoryInv(h) && FileInv(r.marker, h) && RuntimeInv(r, h)
    ensures var (a', reported) := EnsureReported(r.agent);
            After(r.(agent := a'), reported, h) && (reported ==> a'.awaiting.Some?)
  {
    hide Blocked, Done, TimeAgrees, MarkerToken, Emitted, EmittedAt, Recorded;
    var (a', reported) := EnsureReported(r.agent);
    if reported {
      var m := r.agent.awaiting.value;
      var h' := Noted(h, m, r.agent.pid, r.store);
      NotedKeepsHistory(h, m, r.agent.pid, r.store);
      NotedAgrees(h, m, r.agent.pid, r.store, m);
      NotedEmits(h, m, r.agent.pid, r.store);
      RecordedGrows(r.agent.queue, h, h');
      if r.marker.Some? {
        assert TimeAgrees(m, h) && TimeAgrees(r.marker.value, h);
        AwaitedAgreesWithFile(r, h);
        NotedAgrees(h, m, r.agent.pid, r.store, r.marker.value);
      }
      assert RuntimeInv(r, h');
      QueueKeepsRuntime(r, CompletionEvent(Some(m)), h');
    }
  }

  lemma RecordedGrows(q: Queue, h: History, h': History)
    requires forall id, time :: EmittedAt(h, id, time) ==> EmittedAt(h', id, time)
    ensures Recorded(q.pending, h) ==> Recorded(q.pending, h')
    ensures q.inFlight.Some? && Recorded(q.inFlight.value.events, h) ==> Recorded(q.inFlight.value.events, h')
  {
    hide Emitted, EmittedAt;
  }

  // The awaited marker was reported before, so the file cannot carry another time for it.
  lemma AwaitedAgreesWithFile(r: Runtime, h: History)
    requires r.agent.awaiting.Some? && r.marker.Some?
    requires TimeAgrees(r.agent.awaiting.value, h) && TimeAgrees(r.marker.value, h)
    requires EmittedAt(h, r.agent.awaiting.value.recycleId, r.agent.awaiting.value.completedAt)
    ensures r.marker.value.recycleId == r.agent.awaiting.value.recycleId ==>
              r.marker.value.completedAt == r.agent.awaiting.value.completedAt
  {
  }

  // ---- acknowledgement ----

  function Acknowledged(h: History, events: seq<Event>): History {
    h.(accepted := h.accepted + AcceptedIds(events))
  }

  lemma AcknowledgedKeeps(r: Runtime, h: History, events: seq<Event>)
    requires HistoryInv(h) && FileInv(r.marker, h) && RuntimeInv(r, h) && Recorded(events, h)
    ensures var h' := Acknowledged(h, events);
            HistoryInv(h') && FileInv(r.marker, h') && RuntimeInv(r, h')
  {
    hide Blocked, Done, MarkerToken, Proven;
    var h' := Acknowledged(h, events);
    SameEmissions(h, h');
    forall m: Marker | TimeAgrees(m, h)
      ensures TimeAgrees(m, h')
    {
    }
  }

  lemma SameEmissions(h: History, h': History)
    requires h'.emissions == h.emissions
    ensures forall id :: Emitted(h, id) ==> Emitted(h', id)
    ensures forall id, time :: EmittedAt(h, id, time) ==> EmittedAt(h', id, time)
  {
  }

  lemma AcceptedIsRecorded(q: Queue, n: int, h: History)
    requires q.inFlight.Some? ==> Recorded(q.inFlight.value.events, h)
    ensures Recorded(AcceptedNow(q, n), h)
  {
    hide Emitted, EmittedAt;
  }

  lemma ReportsIsAccepted(events: seq<Event>, recycleId: string)
    requires Reports(events, recycleId)
    ensures recycleId in AcceptedIds(events)
  {
    var i :| 0 <= i < |events| && events[i].kind.ResetCompleted? && events[i].kind.recycleId == Some(recycleId);
    assert events[i] in events;
  }

  lemma TryClearKeeps(r: Runtime, c: ClearEnv, h: History)
    requires RuntimeInv(r, h) && FileInv(r.marker, h)
    ensures RuntimeInv(TryClear(r, c), h) && FileInv(TryClear(r, c).marker, h)
  {
    hide Blocked, Done, TimeAgrees, MarkerToken, Emitted, EmittedAt, Recorded;
  }

  lemma QueueShrinks(r: Runtime, q: Queue, h: History)
    requires RuntimeInv(r, h)
    requires forall e :: e in q.pending ==> e in r.agent.queue.pending
    requires q.inFlight.Some? ==> forall e :: e in q.inFlight.value.events ==> e in r.agent.queue.pending + InFlight(r.agent.queue)
    ensures RuntimeInv(r.(agent := r.agent.(queue := q)), h)
  {
    hide Blocked, Done, TimeAgrees, MarkerToken, Emitted, EmittedAt;
  }

  function InFlight(q: Queue): seq<Event> {
    if q.inFlight.Some? then q.inFlight.value.events else []
  }

  lemma RepliedKeeps(r: Runtime, n: int, desired: Option<string>, c: ClearEnv, h: History)
    requires HistoryInv(h) && FileInv(r.marker, h) && RuntimeInv(r, h)
    ensures var (r', reported) := Replied(r, n, desired, c);
            After(r', reported, Acknowledged(h, AcceptedNow(r.agent.queue, n))) && (reported ==> r'.agent.awaiting.Some?)
  {
    hide Blocked, Done, TimeAgrees, MarkerToken, Emitted, EmittedAt, Recorded, HistoryInv, Reports, EnsureReported, TryClear, FileInv, Reportable,
      Texts.NormalizeRecycleToken;
    var accepted := AcceptedNow(r.agent.queue, n);
    var h' := Acknowledged(h, accepted);
    AcceptedIsRecorded(r.agent.queue, n, h);
    AcknowledgedKeeps(r, h, accepted);
    var a := r.agent.(queue := EndFlush(r.agent.queue, n));
    QueueShrinks(r, EndFlush(r.agent.queue, n), h');
    if n >= 0 && a.awaiting.Some? && Reports(accepted, a.awaiting.value.recycleId) {
      ReportsIsAccepted(accepted, a.awaiting.value.recycleId);
      EnsureReportedKeeps(r.(agent := a), h');
      var moved := r.(agent := a.(toClear := a.awaiting, awaiting := None));
      assert RuntimeInv(moved, h');
      TryClearKeeps(moved, c, h');
    }
  }

  // ---- every step ----

  lemma SummaryKeeps(r: Runtime, connection: string, h: History)
    requires RuntimeInv(r, h)
    ensures RuntimeInv(r.(agent := r.agent.(queue := EnqueueSummary(r.agent.queue, connection))), h)
  {
    hide Blocked, Done, TimeAgrees, MarkerToken, Emitted, EmittedAt, Enqueue, PendingInv, AwaitingInv;
    var kept := r.agent.queue.(pending := WithoutSummaries(r.agent.queue.pending, connection));
    QueueShrinks(r, kept, h);
    QueueKeepsRuntime(r.(agent := r.agent.(queue := kept)), QualitySummary(connection), h);
  }

  lemma SendKeeps(r: Runtime, recovery: nat, h: History)
    requires RuntimeInv(r, h)
    ensures RuntimeInv(r.(agent := r.agent.(queue := BeginFlush(r.agent.queue, recovery))), h)
  {
    hide RuntimeInv;
    QueueShrinks(r, BeginFlush(r.agent.queue, recovery), h);
  }

  lemma ActKeepsInv(w: World, step: Step)
    requires w.live.Some? && Inv(w)
    ensures Inv(Act(w, step))
  {
    hide RuntimeInv, HistoryInv, TimeAgrees, RecordStatus, EnsureReported, Replied, TryClear, Enqueue, EnqueueSummary, BeginFlush,
      GateRuns.Call, AcceptedNow, AcceptedIds;
    var r := RuntimeOf(w);
    var a := r.agent;
    match step
    case GateCall(call) =>
      if OtherGateCall(call) {
        var s := GateRuns.System(w.store, Some(r.gate), GateRuns.History(-1, {}));
        CallKeeps(s, r.gate, call);
        var s' := GateRuns.Call(s, r.gate, call);
        GateKeepsRuntime(r, s'.store, s'.proc.value, w.hist);
      }
    case StatusChange(u, e) => RecordStatusKeeps(r, u, e, w.hist);
    case ReportAgain => EnsureReportedKeeps(r, w.hist);
    case Queueing(kind) =>
      if OtherEvent(kind) {
        QueueKeepsRuntime(r, kind, w.hist);
      }
    case Summarising(c) => SummaryKeeps(r, c, w.hist);
    case Sending(n) => SendKeeps(r, n, w.hist);
    case SendFailed => QueueShrinks(r, a.queue.(inFlight := None), w.hist);
    case Reply(n, desired, c) => RepliedKeeps(r, n, desired, c, w.hist);
    case ClearAgain(c) => TryClearKeeps(r, c, w.hist);
    case _ =>
  }

  // A script's marker: a fresh recycle, or another try of one nothing was reported for.
  lemma ScriptKeepsInv(w: World, m: Marker)
    requires Inv(w) && ScriptMay(w, m)
    ensures Inv(Next(w, ScriptMarks(m)))
  {
    hide Blocked, TokenDone, QueueInv, MarkerToken;
    var h' := w.hist.(used := w.hist.used + {m.recycleId});
    SameEmissions(w.hist, h');
    SameQueueInv(w, h');
    forall x: Marker | TimeAgrees(x, w.hist)
      ensures TimeAgrees(x, h')
    {
    }
    if m.recycleId !in w.hist.used {
      assert TimeAgrees(m, h');
    } else {
      UnstampedIsUnreported(w.hist, w.marker.value, m);
    }
  }

  lemma WithdrawalKeepsInv(w: World)
    requires Inv(w)
    ensures Inv(w.(marker := None))
  {
    hide HistoryInv, AwaitingInv, QueueInv, Reportable, Blocked, TokenDone;
    assert w.live.Some? ==> RuntimeOf(w.(marker := None)) == RuntimeOf(w).(marker := None);
    hide RuntimeOf;
    if w.live.Some? {
      WithoutMarker(RuntimeOf(w), w.hist);
    }
  }

  lemma WithoutMarker(r: Runtime, h: History)
    requires RuntimeInv(r, h)
    ensures RuntimeInv(r.(marker := None), h)
  {
    hide Reportable, Blocked, TokenDone, QueueInv, EmittedAt;
  }

  lemma SameQueueInv(w: World, h': History)
    requires h'.emissions == w.hist.emissions && h'.accepted == w.hist.accepted
    ensures w.live.Some? && QueueInv(w.live.value.agent, w.hist) ==> QueueInv(w.live.value.agent, h')
  {
    SameEmissions(w.hist, h');
    hide Emitted, EmittedAt;
  }

  lemma NextKeepsInv(w: World, step: Step)
    requires Inv(w)
    ensures Inv(Next(w, step))
  {
    hide RuntimeInv, HistoryInv, TimeAgrees, Act, Start, Launch, ScriptMay;
    match step
    case Starting(g, s) =>
      if w.live.None? {
        var (st, reply) := Start(w.store, g);
        if reply.Returned? {
          LaunchEstablishes(st, reply.value, w, s);
        }
      }
    case Crash =>
    case ScriptMarks(m) =>
      if ScriptMay(w, m) {
        ScriptKeepsInv(w, m);
      }
    case ScriptWithdraws(recycleId) => WithdrawalKeepsInv(w);
    case _ =>
      if w.live.Some? {
        ActKeepsInv(w, step);
      }
  }

  lemma {:induction false} Reached(steps: seq<Step>)
    ensures Inv(Run(INITIAL, steps))
  {
    hide Next, RuntimeInv;
    if steps != [] {
      Reached(steps[..|steps| - 1]);
      NextKeepsInv(Run(INITIAL, steps[..|steps| - 1]), steps[|steps| - 1]);
    }
  }

  // ---- the promises ----

  // The event is queued, or in the batch that is being sent.
  ghost predicate Queues(w: World, e: Event) {
    w.live.Some? && e in w.live.value.agent.queue.pending + InFlight(w.live.value.agent.queue)
  }

  lemma QueuedIsRecorded(w: World, e: Event)
    requires Inv(w) && Queues(w, e) && e.kind.ResetCompleted? && e.kind.recycleId.Some?
    ensures EmittedAt(w.hist, e.kind.recycleId.value, e.kind.completedAt)
  {
    hide HistoryInv, MarkerInv, PendingInv, AwaitingInv, EmittedAt;
  }

  // Over every run, a completion of a recycle in the queue or in flight carries a time, and was
  // reported from a replacement_started marker of that recycle and time, written by another
  // process than the one reporting, when the token of the marker was durably fenced.
  lemma CompletionsAreProven(steps: seq<Step>, e: Event)
    requires Queues(Run(INITIAL, steps), e) && e.kind.ResetCompleted? && e.kind.recycleId.Some?
    ensures e.kind.completedAt.Some?
    ensures exists x :: x in Run(INITIAL, steps).hist.emissions && x.marker.recycleId == e.kind.recycleId.value
                        && x.marker.completedAt == e.kind.completedAt && ProvesReplacement(x.marker, x.pid)
                        && (MarkerToken(x.marker).Some? ==> MarkerToken(x.marker).value in x.fence)
  {
    hide Run, MarkerToken, Queues, MarkerInv, RuntimeInv, TimeAgrees, ProvesReplacement;
    Reached(steps);
    var w := Run(INITIAL, steps);
    QueuedIsRecorded(w, e);
    var x :| x in w.hist.emissions && x.marker.recycleId == e.kind.recycleId.value && x.marker.completedAt == e.kind.completedAt;
    assert Proven(x);
  }

  // Every report of a recycle, at any two moments of a run and by any processes, carries the same
  // completion time.
  lemma OneCompletionTime(steps: seq<Step>, more: seq<Step>, e: Event, f: Event)
    requires Queues(Run(INITIAL, steps), e) && e.kind.ResetCompleted? && e.kind.recycleId.Some?
    requires Queues(Run(INITIAL, steps + more), f) && f.kind.ResetCompleted? && f.kind.recycleId == e.kind.recycleId
    ensures e.kind.completedAt == f.kind.completedAt
  {
    hide Run, Queues, MarkerInv, RuntimeInv, Proven;
    Reached(steps);
    Reached(steps + more);
    QueuedIsRecorded(Run(INITIAL, steps), e);
    QueuedIsRecorded(Run(INITIAL, steps + more), f);
    EmissionsStay(steps, more);
    var h := Run(INITIAL, steps + more).hist;
    var x :| x in h.emissions && x.marker.recycleId == e.kind.recycleId.value && x.marker.completedAt == e.kind.completedAt;
    var y :| y in h.emissions && y.marker.recycleId == f.kind.recycleId.value && y.marker.completedAt == f.kind.completedAt;
    assert TimeAgrees(x.marker, h);
  }

  lemma {:induction false} EmissionsStay(steps: seq<Step>, more: seq<Step>)
    ensures forall x :: x in Run(INITIAL, steps).hist.emissions ==> x in Run(INITIAL, steps + more).hist.emissions
  {
    hide Next;
    if more == [] {
      assert steps + more == steps;
    } else {
      EmissionsStay(steps, more[..|more| - 1]);
      assert (steps + more)[..|steps + more| - 1] == steps + more[..|more| - 1];
      EmissionsGrow(Run(INITIAL, steps + more[..|more| - 1]), more[|more| - 1]);
    }
  }

  lemma EmissionsGrow(w: World, step: Step)
    ensures w.hist.emissions <= Next(w, step).hist.emissions
  {
    hide Start, Launch, RecordStatus, EnsureReported, Replied, TryClear, Enqueue, EnqueueSummary, BeginFlush, GateRuns.Call, ScriptMay,
      AcceptedNow, AcceptedIds, Fence;
  }
}
