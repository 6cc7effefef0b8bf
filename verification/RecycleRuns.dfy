// Every run of the recycle protocol: status updates, failed writes, crashes and restarts,
// other gate calls, and the scripts that write markers and withdraw them.
module RecycleRuns {
  import opened Wrappers
  import opened RuntimeSnapshot
  import opened RuntimeGate
  import GateRuns = RuntimeGateRuns
  import opened RecycleGateFacts
  import opened EventQueues
  import opened RecycleAgent

  // One reported completion: the marker it was reported from, the process that reported it,
  // and the completed tokens certain to survive at that moment.
  datatype Emission = Emission(marker: Marker, pid: int, fence: seq<string>)

  // `used` holds every recycle id a marker ever had, `accepted` those whose completion the
  // control plane accepted.
  datatype History = History(emissions: seq<Emission>, accepted: set<string>, used: set<string>)

  datatype World = World(store: Store, marker: Option<Marker>, live: Option<Live>, hist: History)
  datatype Live = Live(gate: Process, agent: Agent)

  const INITIAL := World(Store(None, None), None, None, History([], {}, {}))

  datatype Step =
    | Starting(gateStart: StartEnv, agentStart: AgentStart)
    | Crash
    | ScriptMarks(m: Marker)
    | ScriptWithdraws(recycleId: string)   // the launch of that recycle failed
    | GateCall(call: GateRuns.Step)
    | StatusChange(u: Update, e: StatusEnv)
    | ReportAgain
    | Queueing(kind: Kind)
    | Summarising(connection: string)
    | Sending(recovery: nat)
    | SendFailed
    | Reply(acceptedCount: int, desiredToken: Option<string>, clear: ClearEnv)
    | ClearAgain(clear: ClearEnv)

  // The scripts write intents and replacement proofs, never a completion time: a new recycle
  // gets a new id, and only a marker without a completion time is rewritten.
  predicate ScriptMay(w: World, m: Marker) {
    && ValidMarker(m) && m.completedAt.None?
    && (m.recycleId !in w.hist.used ||
        (w.marker.Some? && w.marker.value.recycleId == m.recycleId && w.marker.value.completedAt.None?))
  }

  // Everything but starting, crashing and completing a recovery, which is the agent's alone.
  predicate OtherGateCall(call: GateRuns.Step) {
    !call.Starting? && !call.Crash? && !call.PowerLoss? && !call.Completing?
  }

  // Events other code queues are never completions.
  predicate OtherEvent(kind: Kind) {
    kind.Other?
  }

  function RuntimeOf(w: World): Runtime
    requires w.live.Some?
  {
    Runtime(w.store, w.live.value.gate, w.marker, w.live.value.agent)
  }

  function WithRuntime(w: World, r: Runtime): World {
    w.(store := r.store, marker := r.marker, live := Some(Live(r.gate, r.agent)))
  }

  // Record a completion reported from what is now the awaited marker.
  function NoteEmission(w: World, reported: bool): World
    requires w.live.Some?
  {
    var a := w.live.value.agent;
    if reported && a.awaiting.Some?
    then w.(hist := w.hist.(emissions := w.hist.emissions + [Emission(a.awaiting.value, a.pid, Fence(w.store.synced))]))
    else w
  }

  function AcceptedIds(events: seq<Event>): set<string> {
    set e | e in events && e.kind.ResetCompleted? && e.kind.recycleId.Some? :: e.kind.recycleId.value
  }

  function Next(w: World, step: Step): World {
    match step
    case Starting(g, s) => if w.live.Some? then w else StartUp(w, g, s)
    case Crash => w.(live := None)
    case ScriptMarks(m) =>
      if ScriptMay(w, m) then w.(marker := Some(m), hist := w.hist.(used := w.hist.used + {m.recycleId})) else w
    case ScriptWithdraws(recycleId) =>
      if w.marker.Some? && w.marker.value.recycleId == recycleId then w.(marker := None) else w
    case _ => if w.live.None? then w else Act(w, step)
  }

  function StartUp(w: World, g: StartEnv, s: AgentStart): World {
    match Start(w.store, g)
    case (st, Threw) => w.(store := st)
    case (st, Returned(p)) =>
      match Launch(st, p, w.marker, s)
      case (st', None) => w.(store := st')
      case (_, Some(r)) => WithRuntime(w, r)
  }

  function Act(w: World, step: Step): World
    requires w.live.Some?
  {
    var r := RuntimeOf(w);
    var a := r.agent;
    match step
    case GateCall(call) =>
      if !OtherGateCall(call) then w
      else
        var s := GateRuns.Call(GateRuns.System(w.store, Some(r.gate), GateRuns.History(-1, {})), r.gate, call);
        if s.proc.None? then w else w.(store := s.store, live := Some(Live(s.proc.value, a)))
    case StatusChange(u, e) =>
      // a reset without a marker reports a completion of no recycle
      var (r', reported) := RecordStatus(r, u, e);
      NoteEmission(WithRuntime(w, r'), reported && a.pending.Some?)
    case ReportAgain =>
      var (a', reported) := EnsureReported(a);
      NoteEmission(WithRuntime(w, r.(agent := a')), reported)
    case Queueing(kind) => if OtherEvent(kind) then WithRuntime(w, r.(agent := Queued(a, kind))) else w
    case Summarising(c) => WithRuntime(w, r.(agent := a.(queue := EnqueueSummary(a.queue, c))))
    case Sending(n) => WithRuntime(w, r.(agent := a.(queue := BeginFlush(a.queue, n))))
    case SendFailed => WithRuntime(w, r.(agent := a.(queue := a.queue.(inFlight := None))))
    case Reply(n, desired, c) =>
      var (r', reported) := Replied(r, n, desired, c);
      var w' := WithRuntime(w, r');
      NoteEmission(w'.(hist := w'.hist.(accepted := w'.hist.accepted + AcceptedIds(AcceptedNow(a.queue, n)))), reported)
    case ClearAgain(c) => WithRuntime(w, TryClear(r, c))
    case _ => w
  }

  function Run(w: World, steps: seq<Step>): World {
    if steps == [] then w else Next(Run(w, steps[..|steps| - 1]), steps[|steps| - 1])
  }
}
