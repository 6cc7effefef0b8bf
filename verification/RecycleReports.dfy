// What the agent reports: the events a change of status leaves in the queue, and that the completion
// of a recycle names the recycle and the time on its marker.
module RecycleReports {
  import opened Wrappers
  import opened RuntimeSnapshot
  import opened RuntimeGate
  import GateRuns = RuntimeGateRuns
  import opened EventQueues
  import opened RecycleAgent
  import opened RecycleGateFacts
  import opened RecycleRuns
  import opened RecycleSafety
  import opened RecycleLosses

  // The queue after two more events: they are its last, and it keeps the newest of the earlier ones.
  ghost predicate TwoMore(before: Queue, after: Queue, first: Kind, second: Kind) {
    && after.pending == before.pending[Max(0, |before.pending| - 98)..] + [Event(before.nextId, first), Event(before.nextId + 1, second)]
    && after.nextId == before.nextId + 2 && after.inFlight == before.inFlight
  }

  ghost predicate OneMore(before: Queue, after: Queue, kind: Kind) {
    && after.pending == before.pending[Max(0, |before.pending| - 99)..] + [Event(before.nextId, kind)]
    && after.nextId == before.nextId + 1 && after.inFlight == before.inFlight
  }

  lemma EnqueuedTwice(q: Queue, first: Kind, second: Kind)
    ensures OneMore(q, Enqueue(q, first), first)
    ensures TwoMore(q, Enqueue(Enqueue(q, first), second), first, second)
  {
    var all := q.pending + [Event(q.nextId, first)];
    var once := Newest(all);
    assert once == q.pending[Max(0, |q.pending| - 99)..] + [Event(q.nextId, first)];
    var twice := Newest(once + [Event(q.nextId + 1, second)]);
    assert twice == q.pending[Max(0, |q.pending| - 98)..] + [Event(q.nextId, first), Event(q.nextId + 1, second)];
  }

  // ---- one change of status ----

  // A Ready that reports a pending recycle leaves, as the last two events, the completion of that very
  // recycle, with the time its marker carries on file if it had none before, and the status.
  lemma ReportNamesRecycle(r: Runtime, u: Update, e: StatusEnv)
    requires r.agent.pending.Some? && RecordStatus(r, u, e).1
    ensures var r' := RecordStatus(r, u, e).0;
            var m := r'.agent.awaiting;
            && m.Some? && m.value.recycleId == r.agent.pending.value.recycleId && m.value.completedAt.Some?
            && TwoMore(r.agent.queue, r'.agent.queue, ResetCompleted(Some(r.agent.pending.value.recycleId), m.value.completedAt),
                       Other("runtime_ready"))
            && (r.agent.pending.value.completedAt.None? ==> r'.marker == m)
            && r'.agent.pending.None? && !r'.agent.resetInProgress
  {
    hide IsRecoveryRequired, Prepare, CompleteRecovery, Enqueue, MarkerToken, ValidMarker, StatusEvent;
    var r0 := AfterContext(r.(agent := r.agent.(status := u.status, reason := u.reason)), e);
    var changed := r.agent.status != u.status || r.agent.reason != u.reason;
    if u.status == Some("ready") {
      var (r1, verdict) := CompleteFirst(r0, e);
      SettledReport(r1, u, e, changed, verdict.completed);
    } else {
      OnlyReadyReports(r0, u, e, changed);
    }
  }

  lemma OnlyReadyReports(r: Runtime, u: Update, e: StatusEnv, changed: bool)
    requires u.status != Some("ready")
    ensures !Settle(r, u, e, changed, false).1
  {
    hide IsRecoveryRequired, Enqueue;
  }

  lemma SettledReport(r: Runtime, u: Update, e: StatusEnv, changed: bool, completed: bool)
    requires u.status == Some("ready") && r.agent.pending.Some? && Settle(r, u, e, changed, completed).1
    ensures var r' := Settle(r, u, e, changed, completed).0;
            var prior, m := r.agent.pending.value, r'.agent.awaiting;
            && m == Some(if prior.completedAt.Some? then prior else prior.(schemaVersion := 2, completedAt := Some(e.nowMs)))
            && TwoMore(r.agent.queue, r'.agent.queue, ResetCompleted(Some(prior.recycleId), m.value.completedAt), Other("runtime_ready"))
            && r'.marker == (if prior.completedAt.Some? then r.marker else m)
            && r'.agent.pending.None? && !r'.agent.resetInProgress
  {
    hide IsRecoveryRequired, Enqueue, ValidMarker;
    var prior := r.agent.pending.value;
    var m := if prior.completedAt.Some? then prior else prior.(schemaVersion := 2, completedAt := Some(e.nowMs));
    EnqueuedTwice(r.agent.queue, ResetCompleted(Some(prior.recycleId), m.completedAt), Other("runtime_ready"));
  }

  // A reset of which no marker is known is completed without the name of a recycle.
  lemma ReportWithoutMarker(r: Runtime, u: Update, e: StatusEnv)
    requires r.agent.pending.None?
    ensures RecordStatus(r, u, e).1 <==>
            && u.status == Some("ready") && r.agent.resetInProgress && !u.heartbeatOnly
            && (r.agent.status != u.status || r.agent.reason != u.reason)
            && !IsRecoveryRequired(r.store, AfterContext(r, e).gate, e.ask3).1
    ensures RecordStatus(r, u, e).1 ==>
              && TwoMore(r.agent.queue, RecordStatus(r, u, e).0.agent.queue, ResetCompleted(None, None), Other("runtime_ready"))
              && RecordStatus(r, u, e).0.agent.awaiting == r.agent.awaiting && RecordStatus(r, u, e).0.marker == r.marker
  {
    hide IsRecoveryRequired, Enqueue;
    EnqueuedTwice(r.agent.queue, ResetCompleted(None, None), Other("runtime_ready"));
  }

  // While nothing is in the way of the gate, Ready reports the pending recycle exactly when its marker
  // has its time already, or the time can be stamped now; a heartbeat will do.
  lemma ReportsExactlyWhen(r: Runtime, u: Update, e: StatusEnv)
    requires r.agent.pending.Some? && u.status == Some("ready") && Free(r, e)
    ensures RecordStatus(r, u, e).1 <==>
            r.agent.pending.value.completedAt.Some? || (e.stamp.Landed? && ValidMarker(Stamped(r.agent.pending.value, e.nowMs)))
  {
    hide IsRecoveryRequired, Prepare, CompleteRecovery, Enqueue, MarkerToken, ValidMarker, Latched, GateRuns.Content;
    AskedWhenFree(r, e.context.GetOr(true));
    var r0 := AfterContext(r.(agent := r.agent.(status := u.status, reason := u.reason)), e);
    AskedWhenFree(r0, e.ask1);
    AskedWhenFree(r0, e.ask2);
    AskedWhenFree(r0, e.ask3);
  }

  lemma PrepareReplyIs(st: Store, p: Process, q: Process, env: Env)
    requires p.skew == q.skew
    ensures Prepare(st, p, env).0 == Prepare(st, q, env).0 && Prepare(st, p, env).2 == Prepare(st, q, env).2
  {
    hide Inspect, Normalized;
  }

  lemma AskKeepsSkew(st: Store, p: Process, readable: bool)
    ensures IsRecoveryRequired(st, p, readable).0.skew == p.skew
  {
    hide Inspect;
  }

  // While the recovery is required, Ready reports the pending recycle only in a process that its marker
  // on file proves, after the margin, with the latch lifted and the token of the marker fenced.
  lemma ReportsAfterRecovery(r: Runtime, u: Update, e: StatusEnv)
    requires r.agent.pending.Some? && RecordStatus(r, u, e).1 && Blocked(r.store, r.gate)
    ensures var r' := RecordStatus(r, u, e).0;
            && r.marker.Some? && r.marker.value.phase.ReplacementStarted? && r.marker.value.sourcePid != r.agent.pid
            && r.marker.value.recycleId == r.agent.pending.value.recycleId
            && MarkerToken(r.marker.value) == MarkerToken(r.agent.pending.value)
            && (MarkerToken(r.marker.value).Some? ==> Done(r'.store, MarkerToken(r.marker.value).value))
            && (exists margin :: Prepare(r.store, r.gate, e.prepare).2 == Returned(Some(margin)) && margin < e.nowSeconds)
  {
    hide Prepare, CompleteRecovery, Enqueue, MarkerToken, ValidMarker, StatusEvent, IsRecoveryRequired, Done, Latched, Keeps, Settle;
    var r0 := AfterContext(r.(agent := r.agent.(status := u.status, reason := u.reason)), e);
    var changed := r.agent.status != u.status || r.agent.reason != u.reason;
    if u.status != Some("ready") {
      OnlyReadyReports(r0, u, e, changed);
    } else {
      BlockedIsAsked(r, e);
      RecoveredFirst(r0, e);
      var (r1, verdict) := CompleteFirst(r0, e);
      SettleKeepsStore(r1, u, e, changed, verdict.completed);
      if e.context.Some? {
        AskKeepsSkew(r.store, r.gate, e.context.value);
      }
      PrepareReplyIs(r.store, r.gate, r0.gate, e.prepare);
    }
  }

  lemma BlockedIsAsked(r: Runtime, e: StatusEnv)
    requires Blocked(r.store, r.gate)
    ensures Blocked(r.store, AfterContext(r, e).gate)
  {
    hide IsRecoveryRequired, Latched;
    if e.context.Some? {
      AskKeeps(r.store, r.gate, e.context.value);
    }
  }

  lemma SettleKeepsStore(r: Runtime, u: Update, e: StatusEnv, changed: bool, completed: bool)
    ensures Settle(r, u, e, changed, completed).0.store == r.store
  {
    hide IsRecoveryRequired, Enqueue, ValidMarker;
  }

  lemma RecoveredFirst(r: Runtime, e: StatusEnv)
    requires r.agent.pending.Some? && Blocked(r.store, r.gate)
    ensures var (r1, verdict) := CompleteFirst(r, e);
            verdict.Go? ==>
              && r.marker.Some? && r.marker.value.phase.ReplacementStarted? && r.marker.value.sourcePid != r.agent.pid
              && r.marker.value.recycleId == r.agent.pending.value.recycleId
              && MarkerToken(r.marker.value) == MarkerToken(r.agent.pending.value)
              && (MarkerToken(r.marker.value).Some? ==> Done(r1.store, MarkerToken(r.marker.value).value))
              && (exists margin :: Prepare(r.store, r.gate, e.prepare).2 == Returned(Some(margin)) && margin < e.nowSeconds)
  {
    hide Prepare, CompleteRecovery, IsRecoveryRequired, Done, Latched, Texts.NormalizeRecycleToken;
    AskKeeps(r.store, r.gate, e.ask1);
    AskKeepsSkew(r.store, r.gate, e.ask1);
    var gate1 := IsRecoveryRequired(r.store, r.gate, e.ask1).0;
    PrepareReplyIs(r.store, r.gate, gate1, e.prepare);
    PrepareKeeps(r.store, gate1, e.prepare);
    var (st2, gate2, margin) := Prepare(r.store, gate1, e.prepare);
    if r.marker.Some? && margin.Returned? && margin.value.Some? {
      CompleteResult(st2, gate2, e.complete, r.marker.value.token);
    }
  }

  // ---- the other changes of status ----

  // The names under which a status is announced.
  lemma StatusIsAnnounced(r: Runtime, u: Update, e: StatusEnv)
    requires u.status != Some("ready") && !u.heartbeatOnly && (r.agent.status != u.status || r.agent.reason != u.reason)
    ensures var before, after := r.agent.queue, RecordStatus(r, u, e).0.agent.queue;
            var open := r.agent.resetInProgress || r.agent.pending.Some?;
            if u.status == Some("resetting") then
              if r.agent.resetInProgress then OneMore(before, after, Other("resetting"))
              else TwoMore(before, after, Other("reset_started"), Other("resetting"))
            else if u.status == Some("stopping") then
              if open then TwoMore(before, after, Other("reset_cancelled"), Other("stopping")) else OneMore(before, after, Other("stopping"))
            else if u.status == Some("idle_shutdown_pending") then
              if open then TwoMore(before, after, Other("reset_cancelled"), Other("idle_shutdown_pending"))
              else OneMore(before, after, Other("idle_shutdown_pending"))
            else OneMore(before, after, Other("runtime_status_changed"))
    ensures var a := RecordStatus(r, u, e).0.agent;
            && (u.status == Some("resetting") ==> a.resetInProgress && a.pending == r.agent.pending)
            && (u.status == Some("stopping") || u.status == Some("idle_shutdown_pending") ==>
                  !a.resetInProgress && a.pending.None?)
  {
    hide IsRecoveryRequired, Enqueue, ClearMarker;
    var q := r.agent.queue;
    EnqueuedTwice(q, Other("reset_started"), Other("resetting"));
    EnqueuedTwice(q, Other("reset_cancelled"), Other("stopping"));
    EnqueuedTwice(q, Other("reset_cancelled"), Other("idle_shutdown_pending"));
    EnqueuedTwice(q, Other("resetting"), Other("resetting"));
    EnqueuedTwice(q, Other("stopping"), Other("stopping"));
    EnqueuedTwice(q, Other("idle_shutdown_pending"), Other("idle_shutdown_pending"));
    EnqueuedTwice(q, Other("runtime_status_changed"), Other("runtime_status_changed"));
  }

  // A status that is repeated, or only a heartbeat, changes nothing on the queue.
  lemma RepeatIsSilent(r: Runtime, u: Update, e: StatusEnv)
    requires u.status != Some("ready") && (u.heartbeatOnly || (r.agent.status == u.status && r.agent.reason == u.reason))
    ensures RecordStatus(r, u, e).0.agent == r.agent.(status := u.status, reason := u.reason)
    ensures RecordStatus(r, u, e).0.marker == r.marker
  {
    hide IsRecoveryRequired;
  }

  // ---- reporting again ----

  // Over every run: while a marker awaits its acknowledgement, reporting again leaves an event in the
  // queue that names its recycle and its time, as the last one unless one was queued already.
  lemma EnsuredIsQueued(steps: seq<Step>)
    requires Run(INITIAL, steps).live.Some? && Run(INITIAL, steps).live.value.agent.awaiting.Some?
    ensures var m := Run(INITIAL, steps).live.value.agent.awaiting.value;
            var before, after := Run(INITIAL, steps).live.value.agent.queue, Next(Run(INITIAL, steps), ReportAgain).live.value.agent.queue;
            && m.completedAt.Some?
            && (exists e :: e in after.pending && e.kind == ResetCompleted(Some(m.recycleId), m.completedAt))
            && (after == before || OneMore(before, after, ResetCompleted(Some(m.recycleId), m.completedAt)))
  {
    hide Run, Enqueue, HistoryInv, Proven, MarkerInv, PendingInv, Fence;
    Reached(steps);
    var w := Run(INITIAL, steps);
    var a := w.live.value.agent;
    var m := a.awaiting.value;
    EnqueuedTwice(a.queue, ResetCompleted(Some(m.recycleId), m.completedAt), ResetCompleted(Some(m.recycleId), m.completedAt));
    if Reports(a.queue.pending, m.recycleId) {
      var i :| 0 <= i < |a.queue.pending| && a.queue.pending[i].kind.ResetCompleted? && a.queue.pending[i].kind.recycleId == Some(m.recycleId);
      var e := a.queue.pending[i];
      assert EmittedAt(w.hist, m.recycleId, e.kind.completedAt);
    } else {
      var q := Enqueue(a.queue, ResetCompleted(Some(m.recycleId), m.completedAt));
      assert q.pending[|q.pending| - 1].kind == ResetCompleted(Some(m.recycleId), m.completedAt);
    }
  }
}
