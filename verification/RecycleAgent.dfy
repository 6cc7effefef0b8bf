// The recycle protocol of the instance agent. A recycle leaves a marker file; the process
// that replaced the recycled one proves it, completes the commercial recovery at the gate,
// stamps one completion time on the marker, reports reset_completed until the control plane
// accepts it, and only then removes the marker.
module RecycleAgent {
  import opened Wrappers
  import opened RuntimeSnapshot
  import opened RuntimeGate
  import opened EventQueues
  import Texts

  datatype Phase = Intent | ReplacementStarted

  // Times are milliseconds since 1970. The reason and session identifiers a marker carries
  // along are not represented.
  datatype Marker = Marker(
    schemaVersion: int,
    phase: Phase,
    requestedAt: int,
    recycleId: string,
    sourcePid: int,
    startedAt: Option<int>,
    completedAt: Option<int>,
    token: Option<string>)

  // ---- the marker file ----

  // normalizeInstanceAgentRecycleMarkerSnapshot accepts exactly these.
  predicate ValidMarker(m: Marker) {
    && (m.schemaVersion == 1 || m.schemaVersion == 2)
    && m.recycleId != [] && m.sourcePid > 0
    && (m.phase.Intent? ==> m.startedAt.None? && m.completedAt.None?)
    && (m.phase.ReplacementStarted? ==>
          m.startedAt.Some? && m.startedAt.value >= m.requestedAt
          && (m.completedAt.Some? ==> m.completedAt.value >= m.startedAt.value))
  }

  // isInstanceAgentRecycleReplacementProof
  predicate ProvesReplacement(m: Marker, pid: int) {
    m.phase.ReplacementStarted? && m.startedAt.Some? && m.sourcePid != pid
  }

  function MarkerToken(m: Marker): Option<string> {
    if m.token.Some? then Texts.NormalizeRecycleToken(m.token.value) else None
  }

  // writeInstanceAgentRecycleMarkerSnapshot: false stands for an exception.
  function WriteMarker(file: Option<Marker>, m: Marker, outcome: WriteOutcome): (r: (Option<Marker>, bool)) {
    var m2 := m.(schemaVersion := 2);
    if !ValidMarker(m2) || outcome.Lost? then (file, false)
    else (Some(m2), outcome.Landed?)
  }

  // clearInstanceAgentRecycleMarkerSnapshot with an expected recycle.
  function ClearMarker(file: Option<Marker>, readable: bool, recycleId: string, outcome: WriteOutcome)
    : (r: (Option<Marker>, bool))
  {
    if !readable then (file, false)
    else if file.None? then (file, true)
    else if file.value.recycleId != recycleId then (file, false)
    else if outcome.Lost? then (file, false)
    else (None, outcome.Landed?)
  }

  // ---- the agent ----

  // `pending` is pendingRecycleCompletion, `awaiting` is completedRecycleMarkerAwaitingEventAck,
  // `toClear` is acknowledgedRecycleMarkerToClear.
  datatype Agent = Agent(
    pid: int,
    pending: Option<Marker>,
    awaiting: Option<Marker>,
    toClear: Option<Marker>,
    resetInProgress: bool,
    status: Option<string>,
    reason: Option<string>,
    queue: Queue)

  datatype Runtime = Runtime(store: Store, gate: Process, marker: Option<Marker>, agent: Agent)

  datatype AgentStart = AgentStart(pid: int, markerReadable: bool, askReadable: bool, now: nat,
                                   teardownReadable: bool, teardownWrite: WriteOutcome)

  // What the agent does with the gate just created, or None when it throws.
  function Launch(st: Store, gate: Process, marker: Option<Marker>, s: AgentStart): (r: (Store, Option<Runtime>)) {
    var proof := marker.Some? && ProvesReplacement(marker.value, s.pid);
    var agent := Agent(s.pid, if proof then marker else None, None, None, false, None, None,
                       Enqueue(Enqueue(EMPTY, Other("agent_started")), Other("runtime_identity")));
    if !s.markerReadable then (st, None)
    else if proof && marker.value.schemaVersion == 1 && MarkerToken(marker.value).None? then (st, None)
    else if marker.None? then (st, Some(Runtime(st, gate, marker, agent)))
    else
      var (gate1, required) := IsRecoveryRequired(st, gate, s.askReadable);
      if required then (st, Some(Runtime(st, gate1, marker, agent)))
      else
        var m := marker.value;
        var occurred := Stamp(if m.startedAt.Some? then m.startedAt.value else m.requestedAt);
        var (st2, gate2, ok) := MarkTeardown(st, gate1, s.now, s.teardownReadable, s.teardownWrite,
          TeardownOptions(Some(occurred), Some(Plain("recovered_recycle_marker")), None, None));
        (st2, if ok == Returned(true) then Some(Runtime(st2, gate2, marker, agent)) else None)
  }

  // ---- recordRuntimeStatus ----

  datatype Update = Update(status: Option<string>, reason: Option<string>, heartbeatOnly: bool)

  datatype StatusEnv = StatusEnv(
    context: Option<bool>,      // whether publishing the recovery context asked the gate, and could read
    ask1: bool, ask2: bool, ask3: bool,
    markerReadable: bool,
    prepare: Env,
    nowSeconds: int,
    complete: Env,
    nowMs: int,
    stamp: WriteOutcome,
    clearReadable: bool,
    clear: WriteOutcome)

  datatype Verdict = Stop | Go(completed: bool)

  predicate SameRecycle(m: Marker, pending: Marker) {
    m.recycleId == pending.recycleId && MarkerToken(m) == MarkerToken(pending)
  }

  // The first Ready of a replacement: prove it by the marker on disk, fix the ready margin, wait
  // it out, and complete the recovery with the token of the marker.
  function CompleteFirst(r: Runtime, e: StatusEnv): (result: (Runtime, Verdict))
    requires r.agent.pending.Some?
  {
    var (gate1, required) := IsRecoveryRequired(r.store, r.gate, e.ask1);
    var r1 := r.(gate := gate1);
    if !required then (r1, Go(false))
    else if !e.markerReadable || r.marker.None? || !ProvesReplacement(r.marker.value, r.agent.pid)
            || !SameRecycle(r.marker.value, r.agent.pending.value)
    then (r1, Stop)
    else
      var (st2, gate2, margin) := Prepare(r.store, gate1, e.prepare);
      var r2 := r.(store := st2, gate := gate2, agent := r.agent.(pending := r.marker));
      if margin.Threw? || margin.value.None? || e.nowSeconds <= margin.value.value then (r2, Stop)
      else
        var (st3, gate3, done) := CompleteRecovery(st2, gate2, e.complete, r.marker.value.token);
        (r2.(store := st3, gate := gate3), if done == Returned(true) then Go(true) else Stop)
  }

  function Queued(a: Agent, kind: Kind): Agent {
    a.(queue := Enqueue(a.queue, kind))
  }

  function CompletionEvent(m: Option<Marker>): Kind {
    if m.Some? then ResetCompleted(Some(m.value.recycleId), m.value.completedAt) else ResetCompleted(None, None)
  }

  // Stamp the completion time unless the marker has one, then report. The second component is
  // false when the stamp could not be written and nothing was reported.
  function Report(r: Runtime, e: StatusEnv): (result: (Runtime, bool)) {
    var a := r.agent;
    var stamped := if a.pending.Some? then Some(a.pending.value.(schemaVersion := 2, completedAt := Some(e.nowMs))) else None;
    if a.pending.Some? && a.pending.value.completedAt.None? then
      var (file, ok) := WriteMarker(r.marker, stamped.value, e.stamp);
      if !ok then (r.(marker := file), false)
      else
        (r.(marker := file,
            agent := Queued(a.(resetInProgress := false, pending := None, awaiting := stamped), CompletionEvent(stamped))), true)
    else
      var awaiting := if a.pending.Some? then a.pending else a.awaiting;
      (r.(agent := Queued(a.(resetInProgress := false, pending := None, awaiting := awaiting), CompletionEvent(a.pending))), true)
  }

  function Cancel(r: Runtime, e: StatusEnv): Runtime {
    var a := r.agent;
    var file := if a.pending.Some?
                then ClearMarker(r.marker, e.clearReadable, a.pending.value.recycleId, e.clear).0 else r.marker;
    r.(marker := file, agent := Queued(a.(resetInProgress := false, pending := None), Other("reset_cancelled")))
  }

  function StatusEvent(status: Option<string>): Kind {
    Other(if status == Some("ready") then "runtime_ready"
          else if status.Some? && status.value in {"resetting", "idle_shutdown_pending", "stopping"} then status.value
          else "runtime_status_changed")
  }

  predicate CancelsReset(status: Option<string>) {
    status == Some("stopping") || status == Some("idle_shutdown_pending")
  }

  // The three ways a status transition can touch a reset; the last component says whether a
  // completion was reported.
  function Transition(r: Runtime, u: Update, e: StatusEnv): (result: (Runtime, bool)) {
    var a := r.agent;
    var open := a.resetInProgress || a.pending.Some?;
    var announced := (x: Runtime) => x.(agent := Queued(x.agent, StatusEvent(u.status)));
    if u.status == Some("resetting") && !a.resetInProgress then
      (announced(r.(agent := Queued(a.(resetInProgress := true), Other("reset_started")))), false)
    else if open && u.status == Some("ready") then
      var (r', reported) := Report(r, e);
      if reported then (announced(r'), true) else (r', false)
    else if open && CancelsReset(u.status) then (announced(Cancel(r, e)), false)
    else (announced(r), false)
  }

  // Where publishing the recovery context may have asked the gate.
  function AfterContext(r: Runtime, e: StatusEnv): Runtime {
    if e.context.Some? then r.(gate := IsRecoveryRequired(r.store, r.gate, e.context.value).0) else r
  }

  // Whether a status is acted on after the first Ready: a repeated one only to finish a completed
  // recovery, and Ready not while the recovery is still required.
  function Passes(r: Runtime, u: Update, e: StatusEnv, changed: bool, completed: bool): (result: (Runtime, bool)) {
    var ready := u.status == Some("ready");
    var asks := ready && r.agent.pending.Some?;
    var answer := IsRecoveryRequired(r.store, r.gate, e.ask2);
    var r2 := if asks then r.(gate := answer.0) else r;
    var retry := asks && !answer.1;
    if (u.heartbeatOnly || !changed) && !completed && !retry then (r2, false)
    else if ready && (r2.agent.resetInProgress || r2.agent.pending.Some?) then
      var (gate3, required) := IsRecoveryRequired(r2.store, r2.gate, e.ask3);
      (r2.(gate := gate3), !required)
    else (r2, true)
  }

  function Settle(r: Runtime, u: Update, e: StatusEnv, changed: bool, completed: bool): (result: (Runtime, bool)) {
    var (r', passes) := Passes(r, u, e, changed, completed);
    if passes then Transition(r', u, e) else (r', false)
  }

  function RecordStatus(r: Runtime, u: Update, e: StatusEnv): (result: (Runtime, bool)) {
    var changed := r.agent.status != u.status || r.agent.reason != u.reason;
    var r0 := AfterContext(r.(agent := r.agent.(status := u.status, reason := u.reason)), e);
    if u.status == Some("ready") && r0.agent.pending.Some? then
      var (r1, verdict) := CompleteFirst(r0, e);
      if verdict.Stop? then (r1, false) else Settle(r1, u, e, changed, verdict.completed)
    else Settle(r0, u, e, changed, false)
  }

  // ---- acknowledgement ----

  predicate Reports(events: seq<Event>, recycleId: string) {
    exists i :: 0 <= i < |events| && events[i].kind.ResetCompleted? && events[i].kind.recycleId == Some(recycleId)
  }

  // ensureCompletedRecycleMarkerEventQueued; true when it queued the completion again.
  function EnsureReported(a: Agent): (r: (Agent, bool)) {
    if a.awaiting.None? || Reports(a.queue.pending, a.awaiting.value.recycleId) then (a, false)
    else (Queued(a, CompletionEvent(a.awaiting)), true)
  }

  datatype ClearEnv = ClearEnv(readable: bool, outcome: WriteOutcome)

  // tryClearAcknowledgedRecycleMarker
  function TryClear(r: Runtime, c: ClearEnv): Runtime {
    if r.agent.toClear.None? then r
    else
      var (file, ok) := ClearMarker(r.marker, c.readable, r.agent.toClear.value.recycleId, c.outcome);
      r.(marker := file, agent := if ok then r.agent.(toClear := None) else r.agent)
  }

  // The reply to a batch. `desiredToken` is the recycle token the desired state then asks for.
  // While it still asks for the completed recycle, the completion is kept and reported again.
  function Replied(r: Runtime, acceptedCount: int, desiredToken: Option<string>, c: ClearEnv): (result: (Runtime, bool)) {
    var accepted := AcceptedNow(r.agent.queue, acceptedCount);
    var a := r.agent.(queue := EndFlush(r.agent.queue, acceptedCount));
    var completed := acceptedCount >= 0 && a.awaiting.Some? && Reports(accepted, a.awaiting.value.recycleId);
    var asked := if desiredToken.Some? then Texts.NormalizeRecycleToken(desiredToken.value) else None;
    if !completed then (r.(agent := a), false)
    else if MarkerToken(a.awaiting.value).Some? && asked == MarkerToken(a.awaiting.value) then
      var (a', again) := EnsureReported(a);
      (r.(agent := a'), again)
    else (TryClear(r.(agent := a.(toClear := a.awaiting, awaiting := None)), c), false)
  }
}
