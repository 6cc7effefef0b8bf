// What the agent does at its start, with a reply, and with a marker it still has to clear.
module RecycleReplies {
  import opened Wrappers
  import opened RuntimeSnapshot
  import opened RuntimeGate
  import GateRuns = RuntimeGateRuns
  import opened RuntimeGateSafety
  import opened EventQueues
  import opened RecycleAgent
  import opened RecycleGateFacts
  import Texts

  // ---- the marker file ----

  // A marker is written exactly when it is well formed in the current schema and the write is complete;
  // one that is reported as failed may have landed.
  lemma WriteExactlyWhen(file: Option<Marker>, m: Marker, outcome: WriteOutcome)
    ensures var (file', ok) := WriteMarker(file, m, outcome);
            && (ok <==> ValidMarker(m.(schemaVersion := 2)) && outcome.Landed?)
            && file' == (if ValidMarker(m.(schemaVersion := 2)) && !outcome.Lost? then Some(m.(schemaVersion := 2)) else file)
  {
    hide ValidMarker;
  }

  // Well formed: a recycle id, a process, and times in order, without a start an intent and with one a
  // replacement.
  lemma WellFormedExactlyWhen(m: Marker)
    ensures ValidMarker(m) <==>
            && (m.schemaVersion == 1 || m.schemaVersion == 2) && m.recycleId != "" && m.sourcePid >= 1
            && match m.phase
               case Intent => m.startedAt == None && m.completedAt == None
               case ReplacementStarted =>
                 m.startedAt.Some? && m.requestedAt <= m.startedAt.value && (m.completedAt.Some? ==> m.startedAt.value <= m.completedAt.value)
  {
  }

  // The marker of a recycle is cleared exactly when the file can be read and names that recycle, or is
  // gone already, and the removal is complete.
  lemma ClearExactlyWhen(file: Option<Marker>, readable: bool, recycleId: string, outcome: WriteOutcome)
    ensures var (file', ok) := ClearMarker(file, readable, recycleId, outcome);
            && (ok <==> readable && (file.None? || (file.value.recycleId == recycleId && outcome.Landed?)))
            && file' == (if readable && file.Some? && file.value.recycleId == recycleId && !outcome.Lost? then None else file)
  {
  }

  // ---- starts ----

  // The agent starts exactly when it can read the marker file and the marker, if there is one, is no old
  // proof without a token, and is fenced at the gate: a recovery is required already, or a teardown for
  // the time of the marker succeeds. It awaits the completion of a marker that proves its own process,
  // and announces itself.
  lemma LaunchExactlyWhen(st: Store, gate: Process, marker: Option<Marker>, s: AgentStart)
    ensures var (st', r) := Launch(st, gate, marker, s);
            var proves := marker.Some? && marker.value.phase.ReplacementStarted? && marker.value.startedAt.Some?
                          && marker.value.sourcePid != s.pid;
            && (r.Some? ==> s.markerReadable && (proves ==> marker.value.schemaVersion != 1 || MarkerToken(marker.value).Some?))
            && (s.markerReadable && marker.None? ==> r.Some? && st' == st && r.value.gate == gate)
            && (r.None? && s.markerReadable && (proves ==> marker.value.schemaVersion != 1 || MarkerToken(marker.value).Some?) ==>
                  marker.Some? && !IsRecoveryRequired(st, gate, s.askReadable).1
                  && MarkTeardown(st, IsRecoveryRequired(st, gate, s.askReadable).0, s.now, s.teardownReadable, s.teardownWrite,
                                  AtMarker(marker.value)).2 != Returned(true))
            && (r.Some? ==>
                  && r.value.store == st' && r.value.marker == marker
                  && r.value.agent == Agent(s.pid, if proves then marker else None, None, None, false, None, None,
                                            Queue([Event(0, Other("agent_started")), Event(1, Other("runtime_identity"))], 2, None)))
            && (r.Some? && marker.Some? ==> Blocked(r.value.store, r.value.gate))
  {
    hide IsRecoveryRequired, MarkTeardown, MarkerToken, Latched;
    AskKeeps(st, gate, s.askReadable);
    TwoEvents();
    if marker.Some? {
      MarkTeardownKeeps(st, IsRecoveryRequired(st, gate, s.askReadable).0, s.now, s.teardownReadable, s.teardownWrite,
        AtMarker(marker.value));
    }
  }

  // The teardown a marker stands for, at its start or else its request.
  function AtMarker(m: Marker): TeardownOptions {
    TeardownOptions(Some(Stamp(if m.startedAt.Some? then m.startedAt.value else m.requestedAt)), Some(Plain("recovered_recycle_marker")),
                    None, None)
  }

  lemma TwoEvents()
    ensures Enqueue(Enqueue(EMPTY, Other("agent_started")), Other("runtime_identity")) ==
            Queue([Event(0, Other("agent_started")), Event(1, Other("runtime_identity"))], 2, None)
  {
    assert [] + [Event(0, Other("agent_started"))] == [Event(0, Other("agent_started"))];
  }

  // A launch on a file without a required recovery fences the marker: tickets of before its time stay out.
  lemma LaunchFences(st: Store, gate: Process, m: Marker, s: AgentStart)
    requires Launch(st, gate, Some(m), s).1.Some? && !IsRecoveryRequired(st, gate, s.askReadable).1
    ensures var c := GateRuns.Content(Launch(st, gate, Some(m), s).0.visible);
            var ms := if m.startedAt.Some? then m.startedAt.value else m.requestedAt;
            && c.Some? && c.value.recoveryRequired && Launch(st, gate, Some(m), s).0.synced == Launch(st, gate, Some(m), s).0.visible
            && (-8640000000000000 <= ms <= 8640000000000000 ==> GateRuns.Cutoff(c) >= ms / 1000)
  {
    hide IsRecoveryRequired, MarkTeardown, MarkerToken, GateRuns.Content, Enqueue;
    TeardownFences(st, IsRecoveryRequired(st, gate, s.askReadable).0, s.now, s.teardownReadable, s.teardownWrite, AtMarker(m));
  }

  // ---- replies ----

  // A reply accepted a report of the recycle that is awaited.
  predicate AcceptsReport(r: Runtime, n: int) {
    && n >= 0 && r.agent.awaiting.Some?
    && exists i :: 0 <= i < |AcceptedNow(r.agent.queue, n)|
                   && AcceptedNow(r.agent.queue, n)[i].kind.ResetCompleted?
                   && AcceptedNow(r.agent.queue, n)[i].kind.recycleId == Some(r.agent.awaiting.value.recycleId)
  }

  // The desired state still asks for the recycle of the marker.
  predicate StillAsked(m: Marker, desired: Option<string>) {
    m.token.Some? && desired.Some? && Texts.NormalizeRecycleToken(m.token.value).Some?
    && Texts.NormalizeRecycleToken(desired.value) == Texts.NormalizeRecycleToken(m.token.value)
  }

  // A reply takes what it accepted out of the queue. If it accepted the awaited report, the marker is done
  // with, and is cleared now or at a later attempt, unless the desired state still asks for its recycle:
  // then it is awaited on, and reported again if no report is left in the queue.
  lemma ReplyExactly(r: Runtime, n: int, desired: Option<string>, c: ClearEnv)
    ensures var (r', again) := Replied(r, n, desired, c);
            var q := EndFlush(r.agent.queue, n);
            && r'.store == r.store && r'.gate == r.gate
            && (!AcceptsReport(r, n) ==> !again && r' == r.(agent := r.agent.(queue := q)))
            && (AcceptsReport(r, n) ==>
                  var m := r.agent.awaiting.value;
                  if StillAsked(m, desired) then
                    && r'.marker == r.marker
                    && (again <==> forall i :: 0 <= i < |q.pending| && q.pending[i].kind.ResetCompleted? ==>
                                     q.pending[i].kind.recycleId != Some(m.recycleId))
                    && r'.agent == r.agent.(queue := if again then Enqueue(q, ResetCompleted(Some(m.recycleId), m.completedAt)) else q)
                  else
                    var cleared := c.readable && (r.marker.None? || (r.marker.value.recycleId == m.recycleId && c.outcome.Landed?));
                    && !again && r'.agent == r.agent.(queue := q, awaiting := None, toClear := if cleared then None else Some(m))
                    && r'.marker == (if c.readable && r.marker.Some? && r.marker.value.recycleId == m.recycleId && !c.outcome.Lost?
                                     then None else r.marker))
  {
    hide AcceptedNow, EndFlush, Enqueue, Texts.NormalizeRecycleToken;
  }

  // A marker that is still to be cleared is tried again, and given up exactly when that succeeds.
  lemma ClearAgainExactly(r: Runtime, c: ClearEnv)
    ensures r.agent.toClear.None? ==> TryClear(r, c) == r
    ensures r.agent.toClear.Some? ==>
              var m := r.agent.toClear.value;
              var cleared := c.readable && (r.marker.None? || (r.marker.value.recycleId == m.recycleId && c.outcome.Landed?));
              && TryClear(r, c).agent == (if cleared then r.agent.(toClear := None) else r.agent)
              && TryClear(r, c).marker == (if c.readable && r.marker.Some? && r.marker.value.recycleId == m.recycleId && !c.outcome.Lost?
                                           then None else r.marker)
  {
  }
}
