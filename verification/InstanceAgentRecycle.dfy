// The recycle part of the instance agent as the object that holds it: the closure's variables,
// the marker file, the gate and the event queue. Each method is tied to the step of the same
// name in RecycleAgent, over which the promises are proved.
module InstanceAgentRecycles {
  import opened Wrappers
  import opened RecycleAgent
  import opened EventQueues
  import opened ConnectTicketRuntimeGates
  import RuntimeGate
  import Texts

  class MarkerFile {
    var content: Option<Marker>

    constructor (content: Option<Marker>)
      ensures this.content == content
    {
      this.content := content;
    }

    method Write(m: Marker, outcome: RuntimeGate.WriteOutcome) returns (ok: bool)
      modifies this
      ensures (content, ok) == WriteMarker(old(content), m, outcome)
    {
      var normalized := m.(schemaVersion := 2);
      if !ValidMarker(normalized) || outcome.Lost? {
        return false;
      }
      content := Some(normalized);
      return outcome.Landed?;
    }

    // Compare, then unlink.
    method Clear(readable: bool, recycleId: string, outcome: RuntimeGate.WriteOutcome) returns (ok: bool)
      modifies this
      ensures (content, ok) == ClearMarker(old(content), readable, recycleId, outcome)
    {
      if !readable {
        return false;
      }
      if content.None? {
        return true;
      }
      if content.value.recycleId != recycleId || outcome.Lost? {
        return false;
      }
      content := None;
      return outcome.Landed?;
    }
  }

  class InstanceAgentRecycle {
    const pid: int
    const gate: ConnectTicketRuntimeGate
    const markers: MarkerFile
    const events: EventQueue
    var pending: Option<Marker>
    var awaiting: Option<Marker>
    var toClear: Option<Marker>
    var resetInProgress: bool
    var status: Option<string>
    var reason: Option<string>

    constructor (pid: int, gate: ConnectTicketRuntimeGate, markers: MarkerFile, events: EventQueue)
      ensures this.gate == gate && this.markers == markers && this.events == events
      ensures Contents() ==
              Runtime(gate.file.Contents(), gate.Variables(), markers.content,
                      Agent(pid, if markers.content.Some? && ProvesReplacement(markers.content.value, pid) then markers.content else None,
                            None, None, false, None, None, events.Contents()))
    {
      this.pid, this.gate, this.markers, this.events := pid, gate, markers, events;
      pending := if markers.content.Some? && ProvesReplacement(markers.content.value, pid) then markers.content else None;
      awaiting, toClear, resetInProgress, status, reason := None, None, false, None, None;
    }

    function Contents(): Runtime
      reads this, gate, gate.file, markers, events
    {
      Runtime(gate.file.Contents(), gate.Variables(), markers.content,
              Agent(pid, pending, awaiting, toClear, resetInProgress, status, reason, events.Contents()))
    }

    // The recovery of the first Ready; false means the update stops here.
    method CompleteRecoveryFirst(e: StatusEnv) returns (verdict: Verdict)
      requires pending.Some?
      modifies this`pending, gate, gate.file
      ensures (Contents(), verdict) == CompleteFirst(old(Contents()), e)
    {
      hide RuntimeGate.IsRecoveryRequired, RuntimeGate.Prepare, RuntimeGate.CompleteRecovery, Texts.NormalizeRecycleToken;
      var required := gate.IsCommercialRecoveryRequired(e.ask1);
      if !required {
        return Go(false);
      }
      if !e.markerReadable || markers.content.None? {
        return Stop;
      }
      var current := markers.content.value;
      if !ProvesReplacement(current, pid) || !SameRecycle(current, pending.value) {
        return Stop;
      }
      pending := Some(current);
      var margin := gate.PrepareCommercialRecoveryAfterReset(e.prepare);
      if margin.Threw? || margin.value.None? || e.nowSeconds <= margin.value.value {
        return Stop;
      }
      var done := gate.CompleteCommercialRecoveryAfterReset(e.complete, current.token);
      return if done == Returned(true) then Go(true) else Stop;
    }

    method ReportCompletion(e: StatusEnv) returns (reported: bool)
      modifies this`pending, this`awaiting, this`resetInProgress, markers, events`pending, events`nextId
      ensures (Contents(), reported) == Report(old(Contents()), e)
    {
      hide Enqueue, WriteMarker;
      var marker := pending;
      if marker.Some? && marker.value.completedAt.None? {
        marker := Some(marker.value.(schemaVersion := 2, completedAt := Some(e.nowMs)));
        var ok := markers.Write(marker.value, e.stamp);
        if !ok {
          return false;
        }
      }
      resetInProgress, pending := false, None;
      if marker.Some? {
        awaiting := marker;
      }
      events.QueueEvent(CompletionEvent(marker));
      return true;
    }

    method CancelReset(e: StatusEnv)
      modifies this`pending, this`resetInProgress, markers, events`pending, events`nextId
      ensures Contents() == Cancel(old(Contents()), e)
    {
      hide Enqueue, ClearMarker;
      resetInProgress := false;
      if pending.Some? {
        var _ := markers.Clear(e.clearReadable, pending.value.recycleId, e.clear);
      }
      pending := None;
      events.QueueEvent(Other("reset_cancelled"));
    }

    method ApplyTransition(u: Update, e: StatusEnv) returns (reported: bool)
      modifies this`pending, this`awaiting, this`resetInProgress, markers, events`pending, events`nextId
      ensures (Contents(), reported) == Transition(old(Contents()), u, e)
    {
      hide Enqueue, Report, Cancel;
      reported := false;
      var open := resetInProgress || pending.Some?;
      if u.status == Some("resetting") && !resetInProgress {
        resetInProgress := true;
        events.QueueEvent(Other("reset_started"));
      } else if open && u.status == Some("ready") {
        reported := ReportCompletion(e);
        if !reported {
          return;
        }
      } else if open && CancelsReset(u.status) {
        CancelReset(e);
      }
      events.QueueEvent(StatusEvent(u.status));
    }

    method PassesStatus(u: Update, e: StatusEnv, changed: bool, completed: bool) returns (passes: bool)
      modifies gate
      ensures (Contents(), passes) == Passes(old(Contents()), u, e, changed, completed)
    {
      hide RuntimeGate.IsRecoveryRequired;
      var ready := u.status == Some("ready");
      var retry := false;
      if ready && pending.Some? {
        var required := gate.IsCommercialRecoveryRequired(e.ask2);
        retry := !required;
      }
      if (u.heartbeatOnly || !changed) && !completed && !retry {
        return false;
      }
      if ready && (resetInProgress || pending.Some?) {
        var required := gate.IsCommercialRecoveryRequired(e.ask3);
        return !required;
      }
      return true;
    }

    method SettleStatus(u: Update, e: StatusEnv, changed: bool, completed: bool) returns (reported: bool)
      modifies this`pending, this`awaiting, this`resetInProgress, gate, gate.file, markers, events`pending, events`nextId
      ensures (Contents(), reported) == Settle(old(Contents()), u, e, changed, completed)
    {
      hide Passes, Transition;
      var passes := PassesStatus(u, e, changed, completed);
      if !passes {
        return false;
      }
      reported := ApplyTransition(u, e);
    }

    // The status and reason last reported, and the recovery context that is published with them.
    method NoteStatus(u: Update, e: StatusEnv)
      modifies this`status, this`reason, gate
      ensures Contents() ==
              AfterContext(old(Contents()).(agent := old(Contents()).agent.(status := u.status, reason := u.reason)), e)
    {
      hide RuntimeGate.IsRecoveryRequired;
      status, reason := u.status, u.reason;
      if e.context.Some? {
        var _ := gate.IsCommercialRecoveryRequired(e.context.value);
      }
    }

    method RecordRuntimeStatus(u: Update, e: StatusEnv) returns (reported: bool)
      modifies this, gate, gate.file, markers, events`pending, events`nextId
      ensures (Contents(), reported) == RecordStatus(old(Contents()), u, e)
    {
      hide AfterContext, CompleteFirst, Settle;
      var changed := status != u.status || reason != u.reason;
      NoteStatus(u, e);
      var completed := false;
      if u.status == Some("ready") && pending.Some? {
        var verdict := CompleteRecoveryFirst(e);
        if verdict.Stop? {
          return false;
        }
        completed := verdict.completed;
      }
      reported := SettleStatus(u, e, changed, completed);
    }

    method EnsureCompletedRecycleMarkerEventQueued() returns (reported: bool)
      modifies events`pending, events`nextId
      ensures Contents() == old(Contents()).(agent := EnsureReported(old(Contents()).agent).0)
      ensures reported == EnsureReported(old(Contents()).agent).1
    {
      hide Enqueue, Reports;
      if awaiting.None? {
        return false;
      }
      if Reports(events.pending, awaiting.value.recycleId) {
        return false;
      }
      events.QueueEvent(CompletionEvent(awaiting));
      return true;
    }

    method TryClearAcknowledgedRecycleMarker(c: ClearEnv)
      modifies this`toClear, markers
      ensures Contents() == TryClear(old(Contents()), c)
    {
      hide ClearMarker;
      if toClear.None? {
        return;
      }
      var ok := markers.Clear(c.readable, toClear.value.recycleId, c.outcome);
      if ok {
        toClear := None;
      }
    }

    // The tail of flushEvents, once the reply has arrived.
    method AcceptReply(acceptedCount: int, desiredToken: Option<string>, c: ClearEnv) returns (reported: bool)
      requires events.inFlight.Some?
      modifies this`awaiting, this`toClear, markers, events
      ensures (Contents(), reported) == Replied(old(Contents()), acceptedCount, desiredToken, c)
    {
      hide EndFlush, Accepted, Reports, EnsureReported, TryClear, Texts.NormalizeRecycleToken;
      var accepted := events.FinishFlush(acceptedCount);
      var marker := awaiting;
      if acceptedCount < 0 || marker.None? || !Reports(accepted, marker.value.recycleId) {
        return false;
      }
      var asked := if desiredToken.Some? then Texts.NormalizeRecycleToken(desiredToken.value) else None;
      if MarkerToken(marker.value).Some? && asked == MarkerToken(marker.value) {
        reported := EnsureCompletedRecycleMarkerEventQueued();
        return;
      }
      toClear, awaiting := marker, None;
      TryClearAcknowledgedRecycleMarker(c);
      return false;
    }
  }
}
