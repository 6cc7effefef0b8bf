// Where the completion time of a report comes from: the marker file carried it, for that recycle,
// at some moment of the run.
module RecycleTimes {
  import opened Wrappers
  import opened RuntimeGate
  import GateRuns = RuntimeGateRuns
  import opened EventQueues
  import opened RecycleAgent
  import opened RecycleRuns
  import opened RecycleSafety
  import Texts

  // The recycle and the completion time of a marker that has one.
  function TimesOf(m: Option<Marker>): set<(string, int)> {
    if m.Some? && m.value.completedAt.Some? then {(m.value.recycleId, m.value.completedAt.value)} else {}
  }

  // The times the marker file carried at the moments of a run.
  function TimesOnFile(steps: seq<Step>): set<(string, int)> {
    (if steps == [] then {} else TimesOnFile(steps[..|steps| - 1])) + TimesOf(Run(INITIAL, steps).marker)
  }

  predicate KindIn(kind: Kind, times: set<(string, int)>) {
    kind.ResetCompleted? && kind.recycleId.Some? ==>
      kind.completedAt.Some? && (kind.recycleId.value, kind.completedAt.value) in times
  }

  predicate EventsIn(events: seq<Event>, times: set<(string, int)>) {
    forall e :: e in events ==> KindIn(e.kind, times)
  }

  ghost predicate QueueIn(q: Queue, times: set<(string, int)>) {
    EventsIn(q.pending, times) && EventsIn(InFlight(q), times)
  }

  ghost predicate MarkerIn(m: Option<Marker>, times: set<(string, int)>) {
    TimesOf(m) <= times && (m.Some? ==> ValidMarker(m.value))
  }

  // Every time the agent holds was on file, and the markers it holds are well formed.
  ghost predicate TimesIn(r: Runtime, times: set<(string, int)>) {
    && MarkerIn(r.marker, times) && MarkerIn(r.agent.pending, times)
    && MarkerIn(r.agent.awaiting, times) && (r.agent.awaiting.Some? ==> r.agent.awaiting.value.completedAt.Some?)
    && QueueIn(r.agent.queue, times)
  }

  // The step from one marker file to another adds what the new one carries.
  function Grown(times: set<(string, int)>, r: Runtime): set<(string, int)> {
    times + TimesOf(r.marker)
  }

  // ---- the queue ----

  lemma QueueingIn(q: Queue, kind: Kind, times: set<(string, int)>)
    requires QueueIn(q, times) && KindIn(kind, times)
    ensures QueueIn(Enqueue(q, kind), times)
  {
    hide KindIn;
    assert forall e :: e in Newest(q.pending + [Event(q.nextId, kind)]) ==> e in q.pending || e == Event(q.nextId, kind);
  }

  lemma QueueStays(q: Queue, less: set<(string, int)>, more: set<(string, int)>)
    requires QueueIn(q, less) && less <= more
    ensures QueueIn(q, more)
  {
    forall e | e in q.pending + InFlight(q)
      ensures KindIn(e.kind, more)
    {
      assert KindIn(e.kind, less);
    }
  }

  lemma TimesStay(r: Runtime, less: set<(string, int)>, more: set<(string, int)>)
    requires TimesIn(r, less) && less <= more
    ensures TimesIn(r, more)
  {
    hide QueueIn, ValidMarker, TimesOf;
    QueueStays(r.agent.queue, less, more);
  }

  lemma AgentQueues(r: Runtime, kind: Kind, times: set<(string, int)>)
    requires TimesIn(r, times) && KindIn(kind, times)
    ensures TimesIn(r.(agent := Queued(r.agent, kind)), times)
  {
    hide QueueIn, KindIn, Enqueue, ValidMarker, TimesOf;
    QueueingIn(r.agent.queue, kind, times);
  }

  // ---- a status update ----

  lemma ReportIn(r: Runtime, e: StatusEnv, times: set<(string, int)>)
    requires TimesIn(r, times)
    ensures TimesIn(Report(r, e).0, Grown(times, Report(r, e).0))
  {
    hide QueueIn, Enqueue;
    var (r', reported) := Report(r, e);
    var grown := Grown(times, r');
    TimesStay(r, times, grown);
    var kind := CompletionEvent(if r.agent.pending.Some? then r'.agent.awaiting else None);
    if reported {
      var awaiting := if r.agent.pending.Some? then r'.agent.awaiting else r.agent.awaiting;
      var quiet := r.(marker := r'.marker, agent := r.agent.(resetInProgress := false, pending := None, awaiting := awaiting));
      assert TimesIn(quiet, grown);
      AgentQueues(quiet, kind, grown);
    }
  }

  lemma CancelIn(r: Runtime, e: StatusEnv, times: set<(string, int)>)
    requires TimesIn(r, times)
    ensures TimesIn(Cancel(r, e), times)
  {
    hide QueueIn, Enqueue;
    var quiet := r.(marker := Cancel(r, e).marker, agent := r.agent.(resetInProgress := false, pending := None));
    assert TimesIn(quiet, times);
    AgentQueues(quiet, Other("reset_cancelled"), times);
  }

  lemma TransitionIn(r: Runtime, u: Update, e: StatusEnv, times: set<(string, int)>)
    requires TimesIn(r, times)
    ensures TimesIn(Transition(r, u, e).0, Grown(times, Transition(r, u, e).0))
  {
    hide QueueIn, Enqueue, Report, Cancel, ValidMarker, MarkerIn;
    var a := r.agent;
    var open := a.resetInProgress || a.pending.Some?;
    var grown := Grown(times, Transition(r, u, e).0);
    TimesStay(r, times, grown);
    if u.status == Some("resetting") && !a.resetInProgress {
      var quiet := r.(agent := a.(resetInProgress := true));
      AgentQueues(quiet, Other("reset_started"), grown);
      AgentQueues(r.(agent := Queued(a.(resetInProgress := true), Other("reset_started"))), StatusEvent(u.status), grown);
    } else if open && u.status == Some("ready") {
      ReportIn(r, e, times);
      AgentQueues(Report(r, e).0, StatusEvent(u.status), grown);
    } else if open && CancelsReset(u.status) {
      CancelIn(r, e, times);
      TimesStay(Cancel(r, e), times, grown);
      AgentQueues(Cancel(r, e), StatusEvent(u.status), grown);
    } else {
      AgentQueues(r, StatusEvent(u.status), grown);
    }
  }

  // Only the gate changes.
  lemma GateChanges(r: Runtime, st: Store, p: Process, times: set<(string, int)>)
    requires TimesIn(r, times)
    ensures TimesIn(r.(store := st, gate := p), times)
  {
  }

  lemma CompleteFirstIn(r: Runtime, e: StatusEnv, times: set<(string, int)>)
    requires TimesIn(r, times) && r.agent.pending.Some?
    ensures TimesIn(CompleteFirst(r, e).0, times)
  {
    hide QueueIn, IsRecoveryRequired, Prepare, CompleteRecovery, ValidMarker, TimesOf, MarkerToken, ProvesReplacement;
  }

  lemma SettleIn(r: Runtime, u: Update, e: StatusEnv, changed: bool, completed: bool, times: set<(string, int)>)
    requires TimesIn(r, times)
    ensures TimesIn(Settle(r, u, e, changed, completed).0, Grown(times, Settle(r, u, e, changed, completed).0))
  {
    hide TimesIn, Transition, IsRecoveryRequired, TimesOf;
    var asked := IsRecoveryRequired(r.store, r.gate, e.ask2);
    GateChanges(r, r.store, asked.0, times);
    var r2 := if u.status == Some("ready") && r.agent.pending.Some? then r.(gate := asked.0) else r;
    var gate3 := IsRecoveryRequired(r2.store, r2.gate, e.ask3).0;
    GateChanges(r2, r2.store, gate3, times);
    TransitionIn(r2, u, e, times);
    TransitionIn(r2.(gate := gate3), u, e, times);
    TimesStay(r2, times, times + TimesOf(r2.marker));
    TimesStay(r2.(gate := gate3), times, times + TimesOf(r2.marker));
  }

  lemma StatusNotedIn(r: Runtime, u: Update, e: StatusEnv, times: set<(string, int)>)
    requires TimesIn(r, times)
    ensures TimesIn(AfterContext(r.(agent := r.agent.(status := u.status, reason := u.reason)), e), times)
  {
    hide QueueIn, ValidMarker, TimesOf, IsRecoveryRequired;
  }

  lemma RecordStatusIn(r: Runtime, u: Update, e: StatusEnv, times: set<(string, int)>)
    requires TimesIn(r, times)
    ensures TimesIn(RecordStatus(r, u, e).0, Grown(times, RecordStatus(r, u, e).0))
  {
    hide TimesIn, Settle, CompleteFirst, TimesOf;
    var changed := r.agent.status != u.status || r.agent.reason != u.reason;
    var r0 := AfterContext(r.(agent := r.agent.(status := u.status, reason := u.reason)), e);
    StatusNotedIn(r, u, e, times);
    if u.status == Some("ready") && r0.agent.pending.Some? {
      CompleteFirstIn(r0, e, times);
      var (r1, verdict) := CompleteFirst(r0, e);
      TimesStay(r1, times, times + TimesOf(r1.marker));
      if verdict.Go? {
        SettleIn(r1, u, e, changed, verdict.completed, times);
      }
    } else {
      SettleIn(r0, u, e, changed, false, times);
    }
  }

  // ---- the other steps ----

  lemma EnsureReportedIn(r: Runtime, times: set<(string, int)>)
    requires TimesIn(r, times)
    ensures TimesIn(r.(agent := EnsureReported(r.agent).0), times)
  {
    hide QueueIn, Enqueue, ValidMarker, Reports;
    if EnsureReported(r.agent).1 {
      AgentQueues(r, CompletionEvent(r.agent.awaiting), times);
    }
  }

  lemma TryClearIn(r: Runtime, c: ClearEnv, times: set<(string, int)>)
    requires TimesIn(r, times)
    ensures TimesIn(TryClear(r, c), times)
  {
    hide QueueIn, ValidMarker;
  }

  // The queue or the batch in flight loses events.
  lemma QueueShrinksIn(r: Runtime, q: Queue, times: set<(string, int)>)
    requires TimesIn(r, times)
    requires forall e :: e in q.pending + InFlight(q) ==> e in r.agent.queue.pending + InFlight(r.agent.queue)
    ensures TimesIn(r.(agent := r.agent.(queue := q)), times)
  {
    hide KindIn, ValidMarker, TimesOf;
    var now := q.pending + InFlight(q);
    assert forall e :: e in q.pending || e in InFlight(q) ==> e in now;
  }

  lemma RepliedIn(r: Runtime, n: int, desired: Option<string>, c: ClearEnv, times: set<(string, int)>)
    requires TimesIn(r, times)
    ensures TimesIn(Replied(r, n, desired, c).0, times)
  {
    hide QueueIn, ValidMarker, TimesOf, Reports, EnsureReported, TryClear, AcceptedNow, Texts.NormalizeRecycleToken, MarkerToken;
    var q := EndFlush(r.agent.queue, n);
    EndFlushLoses(r.agent.queue, n);
    QueueShrinksIn(r, q, times);
    var r1 := r.(agent := r.agent.(queue := q));
    EnsureReportedIn(r1, times);
    var moved := r1.(agent := r1.agent.(toClear := r1.agent.awaiting, awaiting := None));
    if r1.agent.awaiting.Some? {
      NothingAwaited(r1, times);
      TryClearIn(moved, c, times);
    }
  }

  lemma NothingAwaited(r: Runtime, times: set<(string, int)>)
    requires TimesIn(r, times)
    ensures TimesIn(r.(agent := r.agent.(toClear := r.agent.awaiting, awaiting := None)), times)
  {
    hide QueueIn, ValidMarker;
  }

  lemma EndFlushLoses(q: Queue, n: int)
    ensures forall e :: e in EndFlush(q, n).pending + InFlight(EndFlush(q, n)) ==> e in q.pending + InFlight(q)
  {
  }

  lemma BeginFlushLoses(q: Queue, n: nat)
    ensures forall e :: e in BeginFlush(q, n).pending + InFlight(BeginFlush(q, n)) ==> e in q.pending + InFlight(q)
  {
  }

  lemma SummaryIn(r: Runtime, connection: string, times: set<(string, int)>)
    requires TimesIn(r, times)
    ensures TimesIn(r.(agent := r.agent.(queue := EnqueueSummary(r.agent.queue, connection))), times)
  {
    hide QueueIn, Enqueue, ValidMarker, TimesOf;
    var kept := r.agent.queue.(pending := WithoutSummaries(r.agent.queue.pending, connection));
    QueueShrinksIn(r, kept, times);
    AgentQueues(r.(agent := r.agent.(queue := kept)), QualitySummary(connection), times);
  }

  lemma LaunchIn(st: Store, gate: Process, marker: Option<Marker>, s: AgentStart, times: set<(string, int)>)
    requires MarkerIn(marker, times)
    ensures var (_, r) := Launch(st, gate, marker, s);
            r.Some? ==> TimesIn(r.value, times) && r.value.marker == marker
  {
    hide IsRecoveryRequired, MarkTeardown, ValidMarker, Enqueue, MarkerToken, QueueIn;
    NewQueueIn(times);
  }

  lemma NewQueueIn(times: set<(string, int)>)
    ensures QueueIn(Enqueue(Enqueue(EMPTY, Other("agent_started")), Other("runtime_identity")), times)
  {
    QueueingIn(EMPTY, Other("agent_started"), times);
    QueueingIn(Enqueue(EMPTY, Other("agent_started")), Other("runtime_identity"), times);
  }

  // ---- every run ----

  ghost predicate WorldIn(w: World, times: set<(string, int)>) {
    MarkerIn(w.marker, times) && (w.live.Some? ==> TimesIn(RuntimeOf(w), times))
  }

  lemma ActIn(w: World, step: Step, times: set<(string, int)>)
    requires w.live.Some? && WorldIn(w, times)
    ensures WorldIn(Act(w, step), times + TimesOf(Act(w, step).marker))
  {
    hide TimesIn, RecordStatus, EnsureReported, Replied, TryClear, Enqueue, EnqueueSummary, BeginFlush, GateRuns.Call, AcceptedNow,
      AcceptedIds, TimesOf;
    var r := RuntimeOf(w);
    var grown := times + TimesOf(Act(w, step).marker);
    TimesStay(r, times, grown);
    match step {
    case GateCall(call) =>
      var s' := GateRuns.Call(GateRuns.System(w.store, Some(r.gate), GateRuns.History(-1, {})), r.gate, call);
      if s'.proc.Some? {
        GateChanges(r, s'.store, s'.proc.value, grown);
      }
    case StatusChange(u, e) => RecordStatusIn(r, u, e, times);
    case ReportAgain => EnsureReportedIn(r, grown);
    case Queueing(kind) =>
      if OtherEvent(kind) {
        AgentQueues(r, kind, grown);
      }
    case Summarising(c) => SummaryIn(r, c, grown);
    case Sending(n) =>
      BeginFlushLoses(r.agent.queue, n);
      QueueShrinksIn(r, BeginFlush(r.agent.queue, n), grown);
    case SendFailed => QueueShrinksIn(r, r.agent.queue.(inFlight := None), grown);
    case Reply(n, desired, c) =>
      RepliedIn(r, n, desired, c, times);
      TimesStay(Replied(r, n, desired, c).0, times, grown);
    case ClearAgain(c) =>
      TryClearIn(r, c, times);
      TimesStay(TryClear(r, c), times, grown);
    case _ =>
    }
    MarkerOfRuntime(Act(w, step), grown);
  }

  lemma MarkerOfRuntime(w: World, times: set<(string, int)>)
    requires w.live.Some? && TimesIn(RuntimeOf(w), times)
    ensures WorldIn(w, times)
  {
  }

  lemma StepIn(w: World, step: Step, times: set<(string, int)>)
    requires WorldIn(w, times)
    ensures WorldIn(Next(w, step), times + TimesOf(Next(w, step).marker))
  {
    hide TimesIn, Act, Start, Launch, TimesOf;
    var grown := times + TimesOf(Next(w, step).marker);
    if w.live.Some? {
      TimesStay(RuntimeOf(w), times, grown);
    }
    match step
    case Starting(g, s) =>
      var (st, reply) := Start(w.store, g);
      if w.live.None? && reply.Returned? {
        LaunchIn(st, reply.value, w.marker, s, grown);
      }
    case Crash =>
    case ScriptMarks(m) =>
      if ScriptMay(w, m) && w.live.Some? {
        MarkerReplaced(RuntimeOf(w), m, grown);
      }
    case ScriptWithdraws(recycleId) =>
      if w.live.Some? {
        MarkerWithdrawn(RuntimeOf(w), grown);
      }
    case _ =>
      if w.live.Some? {
        ActIn(w, step, times);
      }
  }

  lemma MarkerReplaced(r: Runtime, m: Marker, times: set<(string, int)>)
    requires TimesIn(r, times) && MarkerIn(Some(m), times)
    ensures TimesIn(r.(marker := Some(m)), times)
  {
  }

  lemma MarkerWithdrawn(r: Runtime, times: set<(string, int)>)
    requires TimesIn(r, times)
    ensures TimesIn(r.(marker := None), times)
  {
  }

  lemma {:induction false} RunIn(steps: seq<Step>)
    ensures WorldIn(Run(INITIAL, steps), TimesOnFile(steps))
  {
    hide Next, TimesIn, TimesOf, MarkerIn;
    if steps == [] {
      NothingYet();
      assert TimesOnFile(steps) == {};
    } else {
      RunIn(steps[..|steps| - 1]);
      StepIn(Run(INITIAL, steps[..|steps| - 1]), steps[|steps| - 1], TimesOnFile(steps[..|steps| - 1]));
    }
  }

  lemma NothingYet()
    ensures MarkerIn(None, {}) && TimesOf(None) == {}
  {
  }

  lemma {:induction false} OnFileAtSomeStep(steps: seq<Step>, recycleId: string, time: int)
    requires (recycleId, time) in TimesOnFile(steps)
    ensures exists n: nat :: n <= |steps| && Run(INITIAL, steps[..n]).marker.Some?
                             && Run(INITIAL, steps[..n]).marker.value.recycleId == recycleId
                             && Run(INITIAL, steps[..n]).marker.value.completedAt == Some(time)
  {
    hide Run;
    if (recycleId, time) in TimesOf(Run(INITIAL, steps).marker) {
      assert steps[..|steps|] == steps;
      var n := |steps|;
      assert n <= |steps| && Run(INITIAL, steps[..n]).marker.Some?;
    } else {
      var front := steps[..|steps| - 1];
      OnFileAtSomeStep(front, recycleId, time);
      var n: nat :| n <= |front| && Run(INITIAL, front[..n]).marker.Some?
                    && Run(INITIAL, front[..n]).marker.value.recycleId == recycleId
                    && Run(INITIAL, front[..n]).marker.value.completedAt == Some(time);
      assert front[..n] == steps[..n];
    }
  }

  // The time of every queued or submitted completion of a recycle was on file, for that recycle, at
  // some earlier moment of the run.
  lemma ReportedTimeWasOnFile(steps: seq<Step>, e: Event)
    requires Queues(Run(INITIAL, steps), e) && e.kind.ResetCompleted? && e.kind.recycleId.Some?
    ensures e.kind.completedAt.Some?
    ensures exists n: nat :: n <= |steps| && Run(INITIAL, steps[..n]).marker.Some?
                             && Run(INITIAL, steps[..n]).marker.value.recycleId == e.kind.recycleId.value
                             && Run(INITIAL, steps[..n]).marker.value.completedAt == e.kind.completedAt
  {
    hide Run, MarkerIn;
    RunIn(steps);
    var q := Run(INITIAL, steps).live.value.agent.queue;
    assert e in q.pending || e in InFlight(q);
    assert KindIn(e.kind, TimesOnFile(steps));
    OnFileAtSomeStep(steps, e.kind.recycleId.value, e.kind.completedAt.value);
  }
}
