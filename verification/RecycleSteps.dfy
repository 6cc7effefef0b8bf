// The parts of a change of status: what the first Ready of a replacement does at the gate, what a
// report and a cancellation leave on the marker file, and which statuses get past the gate.
module RecycleSteps {
  import opened Wrappers
  import opened RuntimeSnapshot
  import opened RuntimeGate
  import opened GateRuns = RuntimeGateRuns
  import Verdicts = RuntimeGateVerdicts
  import opened EventQueues
  import opened RecycleAgent

  // ---- asking the gate ----

  // The gate can be seen to require no recovery.
  predicate SeenOpen(st: Store, gate: Process, readable: bool) {
    gate.failure.None? && readable && Content(st.visible).Some? && !Content(st.visible).value.recoveryRequired
  }

  // Asking on a file that cannot be read blocks the process, and changes nothing else.
  function Asked(st: Store, gate: Process, readable: bool): Process {
    if gate.failure.None? && !(readable && Content(st.visible).Some?) then gate.(failure := Some(StateUnusable)) else gate
  }

  lemma AskIs(st: Store, gate: Process, readable: bool)
    ensures IsRecoveryRequired(st, gate, readable) == (Asked(st, gate, readable), !SeenOpen(st, gate, readable))
  {
    hide Content, Inspect;
    Verdicts.InspectIs(st, readable);
  }

  // ---- the first Ready of a replacement ----

  // The marker on file proves that this process replaces the one that was recycled, and it is the
  // marker of the recycle that the agent has pending.
  predicate Proves(r: Runtime, e: StatusEnv)
    requires r.agent.pending.Some?
  {
    && e.markerReadable && r.marker.Some?
    && r.marker.value.phase.ReplacementStarted? && r.marker.value.startedAt.Some? && r.marker.value.sourcePid != r.agent.pid
    && r.marker.value.recycleId == r.agent.pending.value.recycleId
    && MarkerToken(r.marker.value) == MarkerToken(r.agent.pending.value)
  }

  // Under an open gate nothing is to be completed. Otherwise the marker must prove the process; then it
  // becomes the pending one, the margin is prepared, and once that has passed the recovery is completed
  // with the token of the marker. Whatever of this fails stops the status.
  lemma FirstReadyExactly(r: Runtime, e: StatusEnv)
    requires r.agent.pending.Some?
    ensures var (r', verdict) := CompleteFirst(r, e);
            var gate1 := Asked(r.store, r.gate, e.ask1);
            if SeenOpen(r.store, r.gate, e.ask1) then verdict == Go(false) && r' == r
            else if !Proves(r, e) then verdict == Stop && r' == r.(gate := gate1)
            else
              var (st2, gate2, margin) := Prepare(r.store, gate1, e.prepare);
              && r'.marker == r.marker && r'.agent == r.agent.(pending := r.marker)
              && if margin.Returned? && margin.value.Some? && margin.value.value < e.nowSeconds then
                   var (st3, gate3, done) := CompleteRecovery(st2, gate2, e.complete, r.marker.value.token);
                   r'.store == st3 && r'.gate == gate3 && (verdict == if done == Returned(true) then Go(true) else Stop)
                 else r'.store == st2 && r'.gate == gate2 && verdict == Stop
  {
    hide Prepare, CompleteRecovery, IsRecoveryRequired, Content, MarkerToken;
    AskIs(r.store, r.gate, e.ask1);
    var margin := Prepare(r.store, Asked(r.store, r.gate, e.ask1), e.prepare).2;
    assert margin.Threw? || margin == Returned(margin.value);
  }

  // ---- the marker file ----

  // A report stamps the marker of the recycle on file unless it had a time. A stamp that is reported as
  // failed leaves the agent as it was, and the file with the stamp or without.
  lemma ReportStamps(r: Runtime, e: StatusEnv)
    ensures var (r', reported) := Report(r, e);
            if r.agent.pending.None? || r.agent.pending.value.completedAt.Some? then reported && r'.marker == r.marker
            else
              var m := r.agent.pending.value.(schemaVersion := 2, completedAt := Some(e.nowMs));
              && r'.marker == (if ValidMarker(m) && !e.stamp.Lost? then Some(m) else r.marker)
              && (reported <==> ValidMarker(m) && e.stamp.Landed?)
              && (!reported ==> r'.agent == r.agent)
    ensures Report(r, e).0.store == r.store && Report(r, e).0.gate == r.gate
  {
    hide ValidMarker, Enqueue;
  }

  // A cancelled reset removes the marker of its own recycle, and no other; without a reset under way the
  // file is left alone.
  lemma CancelRemoves(r: Runtime, u: Update, e: StatusEnv)
    requires u.status == Some("stopping") || u.status == Some("idle_shutdown_pending")
    requires !u.heartbeatOnly && (r.agent.status != u.status || r.agent.reason != u.reason)
    ensures RecordStatus(r, u, e).0.marker ==
            if r.agent.pending.Some? && e.clearReadable && r.marker.Some?
               && r.marker.value.recycleId == r.agent.pending.value.recycleId && !e.clear.Lost?
            then None else r.marker
  {
    hide IsRecoveryRequired, Enqueue;
  }

  // ---- getting past the gate ----

  // Ready must be seen to be open while a reset is under way, and a repeated status or a heartbeat counts
  // only when it finishes a recovery. Asking may block the process.
  lemma PassesExactlyWhen(r: Runtime, u: Update, e: StatusEnv, changed: bool, completed: bool)
    ensures var (r', passes) := Passes(r, u, e, changed, completed);
            var ready := u.status == Some("ready");
            var asks := ready && r.agent.pending.Some?;
            var gate2 := if asks then Asked(r.store, r.gate, e.ask2) else r.gate;
            var counts := (changed && !u.heartbeatOnly) || completed || (asks && SeenOpen(r.store, r.gate, e.ask2));
            var asksAgain := counts && ready && (r.agent.resetInProgress || r.agent.pending.Some?);
            && r' == r.(gate := if asksAgain then Asked(r.store, gate2, e.ask3) else gate2)
            && (passes <==> counts && (asksAgain ==> SeenOpen(r.store, gate2, e.ask3)))
  {
    hide IsRecoveryRequired, Content;
    AskIs(r.store, r.gate, e.ask2);
    AskIs(r.store, if u.status == Some("ready") && r.agent.pending.Some? then Asked(r.store, r.gate, e.ask2) else r.gate, e.ask3);
  }

  // Any other status leaves the state file alone, and asks the gate at most once, for the recovery context.
  lemma OthersAskOnce(r: Runtime, u: Update, e: StatusEnv)
    requires u.status != Some("ready")
    ensures RecordStatus(r, u, e).0.store == r.store
    ensures RecordStatus(r, u, e).0.gate == if e.context.Some? then Asked(r.store, r.gate, e.context.value) else r.gate
  {
    hide IsRecoveryRequired, Content, Enqueue, ClearMarker;
    AskIs(r.store, r.gate, e.context.GetOr(true));
  }
}
