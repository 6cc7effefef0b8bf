// How the marker of a recycle is lost, by deletion or by another marker taking its place: exactly
// when, over every run, and a run in which a recycle that nobody completed or cancelled loses its.
module RecycleLosses {
  import opened Wrappers
  import opened RuntimeSnapshot
  import opened RuntimeGate
  import GateRuns = RuntimeGateRuns
  import opened EventQueues
  import opened RecycleAgent
  import opened RecycleGateFacts
  import opened RecycleRuns
  import opened RecycleSafety
  import opened RecycleTimes
  import Texts

  ghost predicate Loses(w: World, step: Step)
    requires w.marker.Some?
  {
    Next(w, step).marker.None? || Next(w, step).marker.value.recycleId != w.marker.value.recycleId
  }

  // ---- the causes, as guards on the state before the step ----

  // The gate is asked without hindrance, and answers that no recovery is required.
  predicate Free(r: Runtime, e: StatusEnv) {
    && r.gate.failure.None? && GateRuns.Content(r.store.visible).Some? && !Latched(r.store)
    && e.context != Some(false) && e.ask1 && e.ask2 && e.ask3
  }

  function Stamped(m: Marker, nowMs: int): Marker {
    m.(schemaVersion := 2, completedAt := Some(nowMs))
  }

  // A Ready stamps the pending marker over the marker of another recycle.
  predicate StampsOver(r: Runtime, u: Update, e: StatusEnv) {
    && u.status == Some("ready") && r.marker.Some?
    && r.agent.pending.Some? && r.agent.pending.value.completedAt.None?
    && r.agent.pending.value.recycleId != r.marker.value.recycleId
    && Free(r, e) && !e.stamp.Lost? && ValidMarker(Stamped(r.agent.pending.value, e.nowMs))
  }

  // A change of status cancels the reset of the recycle on file.
  predicate CancelsMarker(r: Runtime, u: Update, e: StatusEnv) {
    && CancelsReset(u.status) && r.marker.Some?
    && r.agent.pending.Some? && r.agent.pending.value.recycleId == r.marker.value.recycleId
    && !u.heartbeatOnly && (r.agent.status != u.status || r.agent.reason != u.reason)
    && e.clearReadable && !e.clear.Lost?
  }

  // A reply accepts the report of the recycle on file, and the desired state has moved on.
  predicate AcceptsMarker(r: Runtime, n: int, desired: Option<string>, c: ClearEnv) {
    && n >= 0 && r.marker.Some? && r.agent.awaiting.Some?
    && r.agent.awaiting.value.recycleId == r.marker.value.recycleId
    && Reports(AcceptedNow(r.agent.queue, n), r.agent.awaiting.value.recycleId)
    && !(MarkerToken(r.agent.awaiting.value).Some? && GateRuns.RecycleToken(desired) == MarkerToken(r.agent.awaiting.value))
    && c.readable && !c.outcome.Lost?
  }

  // The marker of an accepted report is cleared at a later attempt.
  predicate ClearsMarker(r: Runtime, c: ClearEnv) {
    && r.marker.Some? && r.agent.toClear.Some? && r.agent.toClear.value.recycleId == r.marker.value.recycleId
    && c.readable && !c.outcome.Lost?
  }

  predicate Causes(w: World, step: Step)
    requires w.marker.Some?
  {
    match step
    case ScriptMarks(m) => ScriptMay(w, m) && m.recycleId != w.marker.value.recycleId
    case ScriptWithdraws(recycleId) => recycleId == w.marker.value.recycleId
    case StatusChange(u, e) => w.live.Some? && (CancelsMarker(RuntimeOf(w), u, e) || StampsOver(RuntimeOf(w), u, e))
    case Reply(n, desired, c) => w.live.Some? && AcceptsMarker(RuntimeOf(w), n, desired, c)
    case ClearAgain(c) => w.live.Some? && ClearsMarker(RuntimeOf(w), c)
    case _ => false
  }

  // ---- a status update and the marker file ----

  // Whoever asks the gate while something is in the way is told that a recovery is required.
  lemma AskedWhenFree(r: Runtime, readable: bool)
    ensures var (gate, required) := IsRecoveryRequired(r.store, r.gate, readable);
            && (!required <==> r.gate.failure.None? && readable && GateRuns.Content(r.store.visible).Some? && !Latched(r.store))
            && (!required ==> gate == r.gate)
            && (gate.failure.None? ==> r.gate.failure.None? && (required ==> Latched(r.store)))
  {
    hide Acceptable, Normalize;
  }

  // Ready leaves the marker file to the recycle it belongs to, unless it stamps another one over it.
  lemma ReadyAndFile(r: Runtime, u: Update, e: StatusEnv)
    requires u.status == Some("ready") && r.marker.Some?
    ensures var file := RecordStatus(r, u, e).0.marker;
            if StampsOver(r, u, e) then file == Some(Stamped(r.agent.pending.value, e.nowMs))
            else file.Some? && file.value.recycleId == r.marker.value.recycleId
  {
    hide IsRecoveryRequired, Prepare, CompleteRecovery, Enqueue, MarkerToken, ValidMarker, Transition, Latched, GateRuns.Content;
    var r0 := AfterContext(r.(agent := r.agent.(status := u.status, reason := u.reason)), e);
    if e.context.Some? {
      AskedWhenFree(r, e.context.value);
    }
    if r0.agent.pending.None? {
      ReadyWithoutPending(r0, u, e, r.agent.status != u.status || r.agent.reason != u.reason);
    } else {
      AskedWhenFree(r0, e.ask1);
      var (r1, verdict) := CompleteFirst(r0, e);
      if verdict.Go? {
        SettleAndFile(r1, u, e, r.agent.status != u.status || r.agent.reason != u.reason, verdict.completed);
        FirstReadyFacts(r0, e);
      }
    }
  }

  lemma ReadyWithoutPending(r: Runtime, u: Update, e: StatusEnv, changed: bool)
    requires u.status == Some("ready") && r.agent.pending.None?
    ensures Settle(r, u, e, changed, false).0.marker == r.marker
  {
    hide IsRecoveryRequired, Enqueue;
  }

  // Recovering completes nothing for another recycle than the one on file.
  lemma FirstReadyFacts(r: Runtime, e: StatusEnv)
    requires r.agent.pending.Some? && r.marker.Some?
    ensures var (r1, verdict) := CompleteFirst(r, e);
            && r1.marker == r.marker && r1.agent.pending.Some?
            && (r1.agent.pending.value.recycleId == r.agent.pending.value.recycleId)
            && (r.agent.pending.value.recycleId != r.marker.value.recycleId && verdict.Go? ==>
                  !IsRecoveryRequired(r.store, r.gate, e.ask1).1 && r1.store == r.store
                  && r1.gate == IsRecoveryRequired(r.store, r.gate, e.ask1).0 && r1.agent == r.agent && !verdict.completed)
  {
    hide IsRecoveryRequired, Prepare, CompleteRecovery, MarkerToken;
  }

  lemma SettleAndFile(r: Runtime, u: Update, e: StatusEnv, changed: bool, completed: bool)
    requires u.status == Some("ready") && r.agent.pending.Some? && r.marker.Some?
    ensures var file := Settle(r, u, e, changed, completed).0.marker;
            var other := r.agent.pending.value.recycleId != r.marker.value.recycleId;
            && (!other ==> file.Some? && file.value.recycleId == r.marker.value.recycleId)
            && (other && !completed ==>
                  if && r.gate.failure.None? && GateRuns.Content(r.store.visible).Some? && !Latched(r.store) && e.ask2 && e.ask3
                     && r.agent.pending.value.completedAt.None? && !e.stamp.Lost?
                     && ValidMarker(Stamped(r.agent.pending.value, e.nowMs))
                  then file == Some(Stamped(r.agent.pending.value, e.nowMs)) else file == r.marker)
  {
    hide IsRecoveryRequired, Enqueue, ValidMarker, Latched, GateRuns.Content;
    AskedWhenFree(r, e.ask2);
    var r2 := r.(gate := IsRecoveryRequired(r.store, r.gate, e.ask2).0);
    AskedWhenFree(r2, e.ask3);
  }

  // Another status deletes the marker exactly when it cancels its reset.
  lemma OtherStatusAndFile(r: Runtime, u: Update, e: StatusEnv)
    requires u.status != Some("ready") && r.marker.Some?
    ensures RecordStatus(r, u, e).0.marker == if CancelsMarker(r, u, e) then None else r.marker
  {
    hide IsRecoveryRequired, Enqueue;
  }

  // ---- a reply and the marker file ----

  lemma ReplyAndFile(r: Runtime, n: int, desired: Option<string>, c: ClearEnv)
    requires r.marker.Some?
    ensures Replied(r, n, desired, c).0.marker == if AcceptsMarker(r, n, desired, c) then None else r.marker
  {
    hide AcceptedNow, EndFlush, Reports, EnsureReported, Texts.NormalizeRecycleToken;
  }

  // ---- exactly when, and over every run ----

  // A step loses the marker on file exactly in the listed cases.
  lemma LostExactlyWhen(w: World, step: Step)
    requires w.marker.Some?
    ensures Loses(w, step) <==> Causes(w, step)
  {
    hide Start, Launch, GateRuns.Call, RecordStatus, Replied, EndFlush, EnsureReported, Enqueue, EnqueueSummary, BeginFlush, AcceptedNow,
      AcceptedIds, StampsOver, CancelsMarker, AcceptsMarker;
    LaunchLeavesFile(w, step);
    if w.live.Some? {
      var r := RuntimeOf(w);
      match step
      case StatusChange(u, e) =>
        StatusGuards(r, u, e);
        if u.status == Some("ready") {
          ReadyAndFile(r, u, e);
        } else {
          OtherStatusAndFile(r, u, e);
        }
      case Reply(n, desired, c) => ReplyAndFile(r, n, desired, c);
      case _ =>
    }
  }

  lemma LaunchLeavesFile(w: World, step: Step)
    ensures step.Starting? ==> Next(w, step).marker == w.marker
  {
    hide Start, IsRecoveryRequired, MarkTeardown, Enqueue, MarkerToken;
  }

  lemma StatusGuards(r: Runtime, u: Update, e: StatusEnv)
    ensures StampsOver(r, u, e) ==> u.status == Some("ready") && r.agent.pending.Some? && r.marker.Some?
                                    && r.agent.pending.value.recycleId != r.marker.value.recycleId
    ensures CancelsMarker(r, u, e) ==> u.status != Some("ready")
  {
  }

  // Over every run, the marker of a recycle is lost only to the acceptance of a report of that very
  // recycle, to the cancellation of that very reset, to the failed launch of that very recycle, to a
  // script that starts a new recycle, or to the stamp of another recycle that is pending.
  lemma LostOnlyFor(steps: seq<Step>, step: Step)
    requires Run(INITIAL, steps).marker.Some? && Loses(Run(INITIAL, steps), step)
    ensures var w := Run(INITIAL, steps);
            var id := w.marker.value.recycleId;
            match step
            case ScriptMarks(m) => m.recycleId !in w.hist.used
            case ScriptWithdraws(recycleId) => recycleId == id && Next(w, step).marker.None?
            case StatusChange(u, e) =>
              && w.live.Some? && w.live.value.agent.pending.Some?
              && var pending := w.live.value.agent.pending.value;
                 if CancelsReset(u.status) then pending.recycleId == id && Next(w, step).marker.None?
                 else pending.recycleId != id && Next(w, step).marker == Some(Stamped(pending, e.nowMs))
            case _ => id in Next(w, step).hist.accepted && Emitted(Next(w, step).hist, id) && Next(w, step).marker.None?
  {
    hide Run, TimeAgrees, Proven, RecordStatus, Replied, Free, AcceptedNow, AcceptedIds, PendingInv, AwaitingInv, RecycleSafety.Recorded,
      Texts.NormalizeRecycleToken, Reports;
    var w := Run(INITIAL, steps);
    Reached(steps);
    NextKeepsInv(w, step);
    LostExactlyWhen(w, step);
    match step
    case StatusChange(u, e) =>
      if u.status == Some("ready") {
        ReadyAndFile(RuntimeOf(w), u, e);
      } else {
        OtherStatusAndFile(RuntimeOf(w), u, e);
      }
    case Reply(n, desired, c) =>
      ReplyAndFile(RuntimeOf(w), n, desired, c);
      ReportsIsAccepted(AcceptedNow(w.live.value.agent.queue, n), w.marker.value.recycleId);
    case _ =>
  }

  // Over every run: whatever a Ready brings, it leaves the marker on file to its recycle, exactly
  // when no marker is pending, or the pending one is of the same recycle or has its time already,
  // or the gate is blocked.
  lemma ReadyKeepsExactlyWhen(steps: seq<Step>)
    requires Run(INITIAL, steps).marker.Some? && Run(INITIAL, steps).live.Some?
    ensures var w := Run(INITIAL, steps);
            var pending := w.live.value.agent.pending;
            (forall u: Update, e: StatusEnv :: u.status == Some("ready") ==> !Loses(w, StatusChange(u, e)))
            <==> pending.None? || pending.value.completedAt.Some? || pending.value.recycleId == w.marker.value.recycleId
                 || Blocked(w.store, w.live.value.gate) || GateRuns.Content(w.store.visible).None?
  {
    hide Run, Loses, Next, HistoryInv, MarkerInv, AwaitingInv, QueueInv, QueueIn, TimesOf, TimesOnFile, TimeAgrees, GateRuns.Content, Free;
    var w := Run(INITIAL, steps);
    Reached(steps);
    RunIn(steps);
    var r := RuntimeOf(w);
    if PendingOf(w).Some? && PendingOf(w).value.completedAt.None? && PendingOf(w).value.recycleId != w.marker.value.recycleId
       && !Blocked(w.store, w.live.value.gate) && GateRuns.Content(w.store.visible).Some? {
      var u := Update(Some("ready"), None, false);
      var e := Unhindered(PendingOf(w).value.startedAt.value);
      assert Free(r, e) by { FreeWhenUnblocked(r, e); }
      LostExactlyWhen(w, StatusChange(u, e));
      assert u.status == Some("ready") && Loses(w, StatusChange(u, e));
    } else {
      forall u: Update, e: StatusEnv | u.status == Some("ready")
        ensures !Loses(w, StatusChange(u, e))
      {
        LostExactlyWhen(w, StatusChange(u, e));
        FreeIsUnblocked(r, e);
      }
    }
  }

  function PendingOf(w: World): Option<Marker>
    requires w.live.Some?
  {
    w.live.value.agent.pending
  }

  const QUIET := Desired(None, false, None)

  function Calm(now: nat): Env {
    Env(now, true, true, true, Landed, None, QUIET)
  }

  function Unhindered(nowMs: int): StatusEnv {
    StatusEnv(None, true, true, true, true, Calm(1), 2, Calm(2), nowMs, Landed, true, Landed)
  }

  lemma FreeWhenUnblocked(r: Runtime, e: StatusEnv)
    requires !Blocked(r.store, r.gate) && GateRuns.Content(r.store.visible).Some?
    requires e.context != Some(false) && e.ask1 && e.ask2 && e.ask3
    ensures Free(r, e)
  {
  }

  lemma FreeIsUnblocked(r: Runtime, e: StatusEnv)
    ensures Free(r, e) ==> !Blocked(r.store, r.gate) && GateRuns.Content(r.store.visible).Some?
  {
  }

  // ---- a run that loses a marker ----

  function StartedMarker(id: string): Marker {
    Marker(2, ReplacementStarted, 0, id, 1, Some(0), None, None)
  }

  function NewIntent(id: string): Marker {
    Marker(2, Intent, 0, id, 1, None, None, None)
  }

  const LAUNCH := Starting(StartEnv(0, None, 0, true, Landed, true, true, Lost, true, true, Lost, None, QUIET),
                           AgentStart(2, true, true, 0, true, Landed))

  function ReadyAt(nowMs: int, stamp: WriteOutcome): Step {
    StatusChange(Update(Some("ready"), None, false), Unhindered(nowMs).(stamp := stamp))
  }

  // The file latched at cutoff 0, without a margin.
  ghost predicate JustTorn(d: Option<Document>) {
    var c := GateRuns.Content(d);
    c.Some? && Canonical(c.value) && c.value.cutoff == Some(0) && c.value.recoveryRequired && c.value.readyNotBefore.None?
  }

  const FRESH_GATE := Process(0, None, None, None, None, false)

  lemma FirstStart()
    ensures var (st, reply) := Start(Store(None, None), LAUNCH.gateStart);
            && reply == Returned(FRESH_GATE) && GateRuns.Content(st.visible) == Some(Baseline(0)) && Canonical(Baseline(0))
  {
    hide Parse, Canonical, ToDocument, Normalized, Texts.NormalizeRecycleToken;
    GateRuns.BaselineCanonical(0);
    GateRuns.WriteCanonical(Store(None, None), Baseline(0), Landed);
  }

  lemma TornAtLaunch(st: Store, m: Marker)
    requires GateRuns.Content(st.visible) == Some(Baseline(0)) && Canonical(Baseline(0))
    requires m.startedAt == Some(0) && m.schemaVersion == 2 && ProvesReplacement(m, 2)
    ensures var (st', r) := Launch(st, FRESH_GATE, Some(m), LAUNCH.agentStart);
            && r.Some? && r.value.store == st' && JustTorn(st'.visible) && r.value.gate == FRESH_GATE
            && r.value.marker == Some(m) && r.value.agent.pending == Some(m)
  {
    hide Parse, Canonical, ToDocument, Normalized, Enqueue, MarkerToken, TornDown;
    var opts := TeardownOptions(Some(Stamp(0)), Some(Plain("recovered_recycle_marker")), None, None);
    GateRuns.TornDownCanonical(Baseline(0), 0, opts);
    GateRuns.WriteCanonical(st, TornDown(Baseline(0), 0, opts), Landed);
    TornFields(opts);
  }

  lemma TornFields(opts: TeardownOptions)
    requires opts.occurredAt == Some(Stamp(0))
    ensures HasUtc(TeardownCutoff(Baseline(0), 0, opts)) && TeardownCutoff(Baseline(0), 0, opts) == 0
    ensures var s := TornDown(Baseline(0), 0, opts);
            s.cutoff == Some(0) && s.recoveryRequired && s.readyNotBefore.None?
  {
  }

  // The first Ready completes the recovery, and then fails to stamp.
  lemma RecoversUnstamped(r: Runtime, nowMs: int)
    requires JustTorn(r.store.visible) && r.gate == FRESH_GATE && r.agent.pid == 2
    requires r.marker.Some? && r.agent.pending == r.marker && r.marker.value.completedAt.None? && r.marker.value.token.None?
    requires ProvesReplacement(r.marker.value, 2)
    ensures var r' := RecordStatus(r, Update(Some("ready"), None, false), Unhindered(nowMs).(stamp := Lost)).0;
            && r'.marker == r.marker && r'.agent.pending == r.marker
            && r'.gate.failure.None? && GateRuns.Content(r'.store.visible).Some? && !Latched(r'.store)
  {
    hide Parse, Canonical, ToDocument, Normalized, Enqueue, Texts.NormalizeRecycleToken, Prepare, CompleteRecovery, GateRuns.Content, Latched,
      IsRecoveryRequired;
    var e := Unhindered(nowMs).(stamp := Lost);
    var r0 := r.(agent := r.agent.(status := Some("ready"), reason := None));
    TornIsRequired(r0);
    AskedWhenFree(r0, true);
    PreparesAndCompletes(r.store);
    var (st2, gate2, _) := Prepare(r.store, FRESH_GATE, Calm(1));
    var (st3, gate3, _) := CompleteRecovery(st2, gate2, Calm(2), None);
    var r3 := r0.(store := st3, gate := gate3);
    AskedWhenFree(r3, true);
  }

  lemma TornIsRequired(r: Runtime)
    requires JustTorn(r.store.visible)
    ensures Latched(r.store) && IsRecoveryRequired(r.store, r.gate, true).1
    ensures IsRecoveryRequired(r.store, r.gate, true).0 == r.gate
  {
    hide Canonical, Acceptable, Normalize;
  }

  lemma PreparesAndCompletes(st: Store)
    requires JustTorn(st.visible)
    ensures var (st2, gate2, margin) := Prepare(st, FRESH_GATE, Calm(1));
            var (st3, gate3, done) := CompleteRecovery(st2, gate2, Calm(2), None);
            && margin == Returned(Some(1)) && done == Returned(true)
            && gate3.failure.None? && GateRuns.Content(st3.visible).Some? && !Latched(st3)
  {
    hide Parse, Canonical, CanonicalFields, ToDocument, Normalized, LastTokens, Dedupe;
    var s := GateRuns.Content(st.visible).value;
    GateRuns.PreparedCanonical(s, 1, 0);
    GateRuns.WriteCanonical(st, Prepared(s, 1, 0), Landed);
    var st2 := Prepare(st, FRESH_GATE, Calm(1)).0;
    GateRuns.RecoveredCanonical(Prepared(s, 1, 0), None, 2);
    GateRuns.RecoveredTokens(Prepared(s, 1, 0), None, 2);
    GateRuns.WriteEffect(st2, Recovered(Prepared(s, 1, 0), None, 2), Landed);
  }

  // A recycle that was just begun loses its marker, though nobody accepted or cancelled anything: a
  // replacement whose stamp failed is Ready again after a script has marked the next recycle.
  lemma NewRecycleIsLost(first: string, next: string)
    requires first != [] && next != [] && first != next
    ensures var steps := [ScriptMarks(StartedMarker(first)), LAUNCH, ReadyAt(0, Lost), ScriptMarks(NewIntent(next))];
            && Run(INITIAL, steps).marker == Some(NewIntent(next))
            && Run(INITIAL, steps + [ReadyAt(0, Landed)]).marker == Some(Stamped(StartedMarker(first), 0))
            && Run(INITIAL, steps + [ReadyAt(0, Landed)]).hist.accepted == {}
  {
    hide Next;
    var steps := [ScriptMarks(StartedMarker(first)), LAUNCH, ReadyAt(0, Lost), ScriptMarks(NewIntent(next))];
    RunOfFour(steps);
    LostStep(first, next);
    var all := steps + [ReadyAt(0, Landed)];
    assert all[..4] == steps;
  }

  lemma RunOfFour(steps: seq<Step>)
    requires |steps| == 4
    ensures Run(INITIAL, steps) == Next(Next(Next(Next(INITIAL, steps[0]), steps[1]), steps[2]), steps[3])
  {
    hide Next;
    forall i | 0 <= i < 4
      ensures Run(INITIAL, steps[..i + 1]) == Next(Run(INITIAL, steps[..i]), steps[i])
    {
      assert steps[..i + 1][..i] == steps[..i];
    }
    assert steps[..4] == steps;
  }

  // The first process is up, with the marker of the first recycle pending.
  lemma LaunchedOn(m: Marker)
    requires m == StartedMarker(m.recycleId) && m.recycleId != []
    ensures var w := Next(Next(INITIAL, ScriptMarks(m)), LAUNCH);
            && w.live.Some? && w.marker == Some(m) && w.hist == History([], {}, {m.recycleId})
            && JustTorn(w.store.visible) && w.live.value.gate == FRESH_GATE
            && w.live.value.agent.pending == Some(m) && w.live.value.agent.pid == 2
  {
    hide Start, Launch, Latched, GateRuns.Content, JustTorn, Enqueue, Fence, MarkerToken;
    var w1 := Next(INITIAL, ScriptMarks(m));
    assert w1.marker == Some(m) && w1.live.None? && w1.store == Store(None, None) && w1.hist == History([], {}, {m.recycleId});
    FirstStart();
    TornAtLaunch(Start(Store(None, None), LAUNCH.gateStart).0, m);
    LaunchPid(Start(Store(None, None), LAUNCH.gateStart).0, m);
  }

  // Ready without its stamp leaves the marker pending, and nothing noted.
  lemma StampFails(w: World, nowMs: int)
    requires w.live.Some? && w.marker.Some? && JustTorn(w.store.visible) && w.live.value.gate == FRESH_GATE
    requires w.live.value.agent.pid == 2 && w.live.value.agent.pending == w.marker
    requires w.marker.value.completedAt.None? && w.marker.value.token.None? && ProvesReplacement(w.marker.value, 2)
    requires w.hist.emissions == [] && w.hist.accepted == {}
    ensures var w' := Next(w, ReadyAt(nowMs, Lost));
            && w'.live.Some? && w'.marker == w.marker && w'.live.value.agent.pending == w.marker
            && w'.hist.used == w.hist.used && w'.hist.accepted == {}
            && !Blocked(w'.store, w'.live.value.gate) && GateRuns.Content(w'.store.visible).Some?
  {
    hide RecordStatus, Latched, GateRuns.Content, JustTorn, Fence;
    RecoversUnstamped(RuntimeOf(w), nowMs);
  }

  lemma LostStep(first: string, next: string)
    requires first != [] && next != [] && first != next
    ensures var w := Next(Next(Next(Next(INITIAL, ScriptMarks(StartedMarker(first))), LAUNCH), ReadyAt(0, Lost)),
                          ScriptMarks(NewIntent(next)));
            && w.marker == Some(NewIntent(next)) && w.hist.accepted == {}
            && Next(w, ReadyAt(0, Landed)).marker == Some(Stamped(StartedMarker(first), 0))
            && Next(w, ReadyAt(0, Landed)).hist.accepted == {}
  {
    hide Start, Launch, RecordStatus, Latched, GateRuns.Content, JustTorn, Enqueue, Fence, MarkerToken;
    var w2 := Next(Next(INITIAL, ScriptMarks(StartedMarker(first))), LAUNCH);
    LaunchedOn(StartedMarker(first));
    var w3 := Next(w2, ReadyAt(0, Lost));
    StampFails(w2, 0);
    MarkedThenLost(w3, StartedMarker(first), next);
  }

  lemma MarkedThenLost(w: World, m: Marker, next: string)
    requires w.live.Some? && w.live.value.agent.pending == Some(m) && m == StartedMarker(m.recycleId) && m.recycleId != []
    requires next != [] && next != m.recycleId && w.hist.used == {m.recycleId} && w.hist.accepted == {}
    requires !Blocked(w.store, w.live.value.gate) && GateRuns.Content(w.store.visible).Some?
    ensures var w' := Next(w, ScriptMarks(NewIntent(next)));
            && w'.marker == Some(NewIntent(next)) && w'.hist.accepted == {}
            && Next(w', ReadyAt(0, Landed)).marker == Some(Stamped(m, 0)) && Next(w', ReadyAt(0, Landed)).hist.accepted == {}
  {
    hide RecordStatus, GateRuns.Content, Fence, Blocked, Free;
    var w' := Next(w, ScriptMarks(NewIntent(next)));
    FreeWhenUnblocked(RuntimeOf(w'), Unhindered(0));
    ReadyAndFile(RuntimeOf(w'), Update(Some("ready"), None, false), Unhindered(0));
  }

  lemma LaunchPid(st: Store, m: Marker)
    ensures var (_, r) := Launch(st, FRESH_GATE, Some(m), LAUNCH.agentStart); r.Some? ==> r.value.agent.pid == 2
  {
    hide IsRecoveryRequired, MarkTeardown, Enqueue, MarkerToken;
  }
}
