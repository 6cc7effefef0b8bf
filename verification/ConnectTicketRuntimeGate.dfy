// The gate as the object the runtime holds: a state file on disk and the variables of one
// process, updated by its methods. Each method is tied to the step of the same name in
// RuntimeGate, over which the safety results are proved.
module ConnectTicketRuntimeGates {
  import opened Wrappers
  import opened RuntimeSnapshot
  import RuntimeGate
  import Texts

  class StateFile {
    var visible: Option<Document>
    var synced: Option<Document>

    constructor ()
      ensures Contents() == RuntimeGate.Store(None, None)
    {
      visible, synced := None, None;
    }

    function Contents(): RuntimeGate.Store
      reads this
    {
      RuntimeGate.Store(visible, synced)
    }

    // inspectRuntimeStateSnapshot
    method Inspect(readable: bool) returns (r: RuntimeGate.ReadResult)
      ensures r == RuntimeGate.Inspect(Contents(), readable)
    {
      if !readable {
        return RuntimeGate.Unusable;
      }
      if visible.None? {
        return RuntimeGate.Missing;
      }
      var snapshot := Parse(visible.value);
      r := if snapshot.None? then RuntimeGate.Unusable else RuntimeGate.Found(snapshot.value);
    }

    // writeRuntimeStateSnapshot: rename the new file into place, then sync the directory.
    method Write(s: Snapshot, outcome: RuntimeGate.WriteOutcome) returns (ok: bool)
      modifies this
      ensures (Contents(), ok) == RuntimeGate.Write(old(Contents()), s, outcome)
    {
      if outcome == RuntimeGate.Lost {
        return false;
      }
      visible := Some(ToDocument(s));
      if outcome == RuntimeGate.LandedUnsynced {
        return false;
      }
      synced := visible;
      return true;
    }
  }

  class ConnectTicketRuntimeGate {
    const file: StateFile
    const skew: nat
    const hostBootMs: Option<int>
    var failure: Option<RuntimeGate.Reason>
    var journalBlock: Option<string>
    var owner: Option<string>
    var admittedHere: bool

    constructor (file: StateFile, skew: nat, hostBootMs: Option<int>, owner: Option<string>)
      ensures this.file == file
      ensures Variables() == RuntimeGate.Process(skew, hostBootMs, None, None, owner, false)
    {
      this.file, this.skew, this.hostBootMs, this.owner := file, skew, hostBootMs, owner;
      failure, journalBlock, admittedHere := None, None, false;
    }

    function Variables(): RuntimeGate.Process
      reads this
    {
      RuntimeGate.Process(skew, hostBootMs, failure, journalBlock, owner, admittedHere)
    }

    // The file is read, or created with cutoff 0. Null stands for an exception.
    static method Open(file: StateFile, e: RuntimeGate.StartEnv) returns (gate: ConnectTicketRuntimeGate?)
      modifies file
      ensures gate != null ==> fresh(gate) && gate.file == file
      ensures (file.Contents(), if gate == null then Threw else Returned(gate.Variables())) ==
              RuntimeGate.OpenState(old(file.Contents()), e)
    {
      hide Parse, ToDocument, RuntimeGate.Normalized, RuntimeGate.Inspect, RuntimeGate.Write, RuntimeGate.Baseline;
      var initial := file.Inspect(e.initialReadable);
      if initial.Unusable? {
        return null;
      }
      if initial.Found? {
        gate := new ConnectTicketRuntimeGate(file, e.skew, e.hostBootMs, initial.s.viewerRequest);
        return;
      }
      if !HasUtc(e.now) {
        return null;
      }
      var ok := file.Write(RuntimeGate.Normalized(RuntimeGate.Baseline(e.now)), e.baselineWrite);
      if !ok {
        return null;
      }
      gate := new ConnectTicketRuntimeGate(file, e.skew, e.hostBootMs, None);
    }

    // False stands for an exception.
    method RecoverCommand(e: RuntimeGate.StartEnv) returns (ok: bool)
      modifies this`failure, file
      ensures (file.Contents(), if ok then Returned(Variables()) else Threw) ==
              RuntimeGate.RecoverCommand(old(file.Contents()), old(Variables()), e)
    {
      hide RuntimeGate.MarkTeardown, RuntimeGate.CommandStatus;
      if RuntimeGate.CommandStatus(file.Contents(), e.commandReadable, e.command) == RuntimeGate.Unavailable {
        return false;
      }
      if !RuntimeGate.CommandNeedsTeardown(file.Contents(), e) {
        return true;
      }
      var c := e.command.value;
      var reply := MarkTeardownStarted(e.now, e.commandTeardownReadable, e.commandWrite,
        RuntimeGate.TeardownOptions(Some(c.requestedAt), Some(Plain("recovered_active_teardown_command")),
                                    Some(Plain(c.commandType)), Some(Plain(c.commandId))));
      return reply == Returned(true);
    }

    method RecoverDesired(e: RuntimeGate.StartEnv) returns (ok: bool)
      modifies this`failure, file
      ensures (file.Contents(), if ok then Returned(Variables()) else Threw) ==
              RuntimeGate.RecoverDesired(old(file.Contents()), old(Variables()), e)
    {
      hide RuntimeGate.MarkTeardown, RuntimeGate.TokenCompletion;
      if RuntimeGate.TokenCompletion(file.Contents(), e.desiredReadable, e.desired.recycleToken) == RuntimeGate.Unavailable {
        return false;
      }
      if !RuntimeGate.DesiredNeedsTeardown(file.Contents(), e) {
        return true;
      }
      var reason := if e.desired.recycleToken.Some?
                    then "recovered_desired_state_recycle_request" else "recovered_desired_state_shutdown_request";
      var reply := MarkTeardownStarted(e.now, e.desiredTeardownReadable, e.desiredWrite,
        RuntimeGate.TeardownOptions(e.desired.updatedAt, Some(Plain(reason)), None, None));
      return reply == Returned(true);
    }

    // createConnectTicketRuntimeGate; null stands for an exception thrown during creation.
    static method Create(file: StateFile, e: RuntimeGate.StartEnv) returns (gate: ConnectTicketRuntimeGate?)
      modifies file
      ensures gate != null ==> fresh(gate) && gate.file == file
      ensures (file.Contents(), if gate == null then Threw else Returned(gate.Variables())) ==
              RuntimeGate.Start(old(file.Contents()), e)
    {
      hide RuntimeGate.OpenState, RuntimeGate.RecoverCommand, RuntimeGate.RecoverDesired;
      gate := Open(file, e);
      if gate == null {
        return;
      }
      var commandOk := gate.RecoverCommand(e);
      if !commandOk {
        return null;
      }
      var desiredOk := gate.RecoverDesired(e);
      if !desiredOk {
        return null;
      }
    }

    method MarkTeardownStarted(now: nat, readable: bool, write: RuntimeGate.WriteOutcome, opts: RuntimeGate.TeardownOptions)
      returns (reply: Reply<bool>)
      modifies this`failure, file
      ensures (file.Contents(), Variables(), reply) ==
              RuntimeGate.MarkTeardown(old(file.Contents()), old(Variables()), now, readable, write, opts)
    {
      hide Parse, ToDocument, RuntimeGate.Normalized, RuntimeGate.Inspect, RuntimeGate.Write, Texts.NormalizeGuid,
        Texts.NormalizeRecycleToken, RuntimeGate.SameSession, RuntimeGate.AdmittedBeforeBoot;
      var state := file.Inspect(readable);
      if !state.Found? {
        failure := Some(RuntimeGate.StateUnusable);
        return Returned(false);
      }
      var cutoff := RuntimeGate.TeardownCutoff(state.s, now, opts);
      if !HasUtc(cutoff) || !HasUtc(now) {
        return Threw;
      }
      var ok := file.Write(RuntimeGate.Normalized(RuntimeGate.TornDown(state.s, now, opts)), write);
      if !ok {
        failure := Some(RuntimeGate.CutoffNotPersisted);
        return Returned(false);
      }
      failure := None;
      return Returned(true);
    }

    method RejectReasonForTicket(env: RuntimeGate.Env, ticket: RuntimeGate.Ticket)
      returns (reason: Option<RuntimeGate.Reason>)
      modifies this`failure, this`owner
      ensures (Variables(), reason) == RuntimeGate.Reject(file.Contents(), old(Variables()), env, ticket)
    {
      hide Parse, ToDocument, RuntimeGate.Normalized, RuntimeGate.Inspect, RuntimeGate.Write, Texts.NormalizeGuid,
        Texts.NormalizeRecycleToken, RuntimeGate.SameSession, RuntimeGate.AdmittedBeforeBoot;
      reason := RuntimeGate.ControlRefusal(file.Contents(), env);
      if reason.Some? {
        return;
      }
      if failure.Some? {
        return failure;
      }
      var state := file.Inspect(env.readable);
      if !state.Found? {
        failure := Some(RuntimeGate.StateUnusable);
        return failure;
      }
      reason := RuntimeGate.SnapshotRefusal(state.s, Variables(), ticket);
      if reason.None? && owner.None? {
        owner := RuntimeGate.SessionText(ticket.session);
      }
    }

    method RecordManagedViewerAdmission(env: RuntimeGate.Env, rawSession: string, rawActive: Option<string>)
      returns (reply: Reply<Option<RuntimeGate.Reason>>)
      modifies this, file
      ensures (file.Contents(), Variables(), reply) ==
              RuntimeGate.Record(old(file.Contents()), old(Variables()), env, rawSession, rawActive)
    {
      hide Parse, ToDocument, RuntimeGate.Normalized, RuntimeGate.Inspect, RuntimeGate.Write, Texts.NormalizeGuid,
        Texts.NormalizeRecycleToken, RuntimeGate.SameSession, RuntimeGate.AdmittedBeforeBoot;
      if failure.Some? {
        return Returned(failure);
      }
      var session := Texts.NormalizeGuid(rawSession);
      var active := if rawActive.Some? then Texts.NormalizeGuid(rawActive.value) else None;
      if session.None? || (rawActive.Some? && active.None?) {
        return Returned(Some(RuntimeGate.IdentityInvalid));
      }
      var state := file.Inspect(env.readable);
      if !state.Found? {
        failure := Some(RuntimeGate.EvidenceUnusable);
        return Returned(failure);
      }
      var existing, existingActive := state.s.viewerRequest, state.s.viewerSession;
      if existing.Some? && !RuntimeGate.SameSession(existing.value, session.value) {
        return Returned(Some(RuntimeGate.EvidenceOtherSession));
      }
      if existingActive.Some? && active.Some? && !RuntimeGate.SameSession(existingActive.value, active.value) {
        return Returned(Some(RuntimeGate.EvidenceOtherActiveSession));
      }
      if existing.Some? && (active.None? || existingActive.Some?) {
        admittedHere := true;
        return Returned(None);
      }
      if !HasUtc(env.now) {
        return Threw;
      }
      var next := RuntimeGate.Recorded(state.s, session.value, active, env.now);
      var ok := file.Write(RuntimeGate.Normalized(next), env.write);
      if !ok {
        failure := Some(RuntimeGate.EvidenceNotPersisted);
        return Returned(failure);
      }
      failure, owner, admittedHere := None, session, true;
      return Returned(None);
    }

    // The gate calls at the end of validateToken.
    method AdmitTicket(rejectEnv: RuntimeGate.Env, recordEnv: RuntimeGate.Env, c: RuntimeGate.Claims) returns (admitted: bool)
      modifies this, file
      ensures (file.Contents(), Variables(), admitted) ==
              RuntimeGate.Admit(old(file.Contents()), old(Variables()), rejectEnv, recordEnv, c)
    {
      var session, active := RuntimeGate.GuidClaim(c.session), RuntimeGate.GuidClaim(c.active);
      if (c.session.Some? && session.None?) || (c.active.Some? && active.None?) {
        return false;
      }
      if session.Some? && journalBlock.Some? {
        return false;
      }
      var reason := RejectReasonForTicket(rejectEnv, RuntimeGate.Ticket(if c.iat.Some? then c.iat else c.nbf, session));
      if reason.Some? {
        return false;
      }
      if session.None? {
        return true;
      }
      var reply := RecordManagedViewerAdmission(recordEnv, session.value, active);
      return reply == Returned(None);
    }

    method ReconcileAssignmentAfterHostBoot(env: RuntimeGate.Env, rawAssigned: Option<string>) returns (reply: Reply<bool>)
      modifies this`owner, file
      ensures (file.Contents(), Variables(), reply) ==
              RuntimeGate.Reconcile(old(file.Contents()), old(Variables()), env, rawAssigned)
    {
      hide Parse, ToDocument, RuntimeGate.Normalized, RuntimeGate.Inspect, RuntimeGate.Write, Texts.NormalizeGuid,
        Texts.NormalizeRecycleToken, RuntimeGate.SameSession, RuntimeGate.AdmittedBeforeBoot;
      if admittedHere || owner.None? {
        return Returned(true);
      }
      var target := if rawAssigned.Some? then Texts.NormalizeGuid(rawAssigned.value) else None;
      if rawAssigned.Some? && target.None? {
        return Returned(false);
      }
      if target.Some? && RuntimeGate.SameSession(target.value, owner.value) {
        return Returned(true);
      }
      var state := file.Inspect(env.readable);
      if !state.Found? {
        return Returned(false);
      }
      if !RuntimeGate.AdmittedBeforeBoot(state.s, Variables()) || state.s.recoveryRequired || journalBlock.Some? {
        return Returned(false);
      }
      var cutoff := Max(state.s.cutoff.GetOr(0), env.now + skew);
      if !HasUtc(cutoff) || !HasUtc(env.now) {
        return Threw;
      }
      var ok := file.Write(RuntimeGate.Normalized(RuntimeGate.Released(state.s, env.now, skew)), env.write);
      if !ok {
        return Returned(false);
      }
      owner := None;
      return Returned(true);
    }

    method IsCommercialRecoveryRequired(readable: bool) returns (required: bool)
      modifies this`failure
      ensures (Variables(), required) == RuntimeGate.IsRecoveryRequired(file.Contents(), old(Variables()), readable)
    {
      hide Parse, ToDocument, RuntimeGate.Normalized, RuntimeGate.Inspect, RuntimeGate.Write, Texts.NormalizeGuid,
        Texts.NormalizeRecycleToken, RuntimeGate.SameSession, RuntimeGate.AdmittedBeforeBoot;
      if failure.Some? {
        return true;
      }
      var state := file.Inspect(readable);
      if !state.Found? {
        failure := Some(RuntimeGate.StateUnusable);
        return true;
      }
      return state.s.recoveryRequired;
    }

    method PrepareCommercialRecoveryAfterReset(env: RuntimeGate.Env) returns (reply: Reply<Option<int>>)
      modifies this`failure, file
      ensures (file.Contents(), Variables(), reply) ==
              RuntimeGate.Prepare(old(file.Contents()), old(Variables()), env)
    {
      hide Parse, ToDocument, RuntimeGate.Normalized, RuntimeGate.Inspect, RuntimeGate.Write, Texts.NormalizeGuid,
        Texts.NormalizeRecycleToken, RuntimeGate.SameSession, RuntimeGate.AdmittedBeforeBoot;
      var state := file.Inspect(env.readable);
      if !state.Found? || !state.s.recoveryRequired {
        failure := Some(RuntimeGate.RecoveryNotPrepared);
        return Returned(None);
      }
      if state.s.readyNotBefore.Some? {
        failure := None;
        return Returned(state.s.readyNotBefore);
      }
      var cutoff := Max(state.s.cutoff.GetOr(0), env.now + skew);
      if !HasUtc(cutoff) || !HasUtc(env.now) {
        return Threw;
      }
      var ok := file.Write(RuntimeGate.Normalized(RuntimeGate.Prepared(state.s, env.now, skew)), env.write);
      if !ok {
        failure := Some(RuntimeGate.ReadyCutoffNotPersisted);
        return Returned(None);
      }
      failure := None;
      return Returned(Some(cutoff + skew));
    }

    method CompleteCommercialRecoveryAfterReset(env: RuntimeGate.Env, rawToken: Option<string>) returns (reply: Reply<bool>)
      modifies this`failure, this`owner, file
      ensures (file.Contents(), Variables(), reply) ==
              RuntimeGate.CompleteRecovery(old(file.Contents()), old(Variables()), env, rawToken)
    {
      hide Parse, ToDocument, RuntimeGate.Normalized, RuntimeGate.Inspect, RuntimeGate.Write, Texts.NormalizeGuid,
        Texts.NormalizeRecycleToken, RuntimeGate.SameSession, RuntimeGate.AdmittedBeforeBoot;
      var state := file.Inspect(env.readable);
      if !state.Found? {
        failure := Some(RuntimeGate.RecoveryNotCompleted);
        return Returned(false);
      }
      var token := if rawToken.Some? then Texts.NormalizeRecycleToken(rawToken.value) else None;
      if !state.s.recoveryRequired {
        if token.Some? && token.value !in state.s.completedTokens {
          failure := Some(RuntimeGate.FenceMissing);
          return Returned(false);
        }
        failure := None;
        return Returned(true);
      }
      if state.s.readyNotBefore.None? || env.now <= state.s.readyNotBefore.value {
        return Returned(false);
      }
      if !HasUtc(env.now) {
        return Threw;
      }
      var ok := file.Write(RuntimeGate.Normalized(RuntimeGate.Recovered(state.s, token, env.now)), env.write);
      if !ok {
        failure := Some(RuntimeGate.CompletionNotPersisted);
        return Returned(false);
      }
      owner, failure := None, None;
      return Returned(true);
    }

    method SetReconnectGraceEvidenceJournalBlock(reason: Option<string>)
      modifies this`journalBlock
      ensures Variables() == RuntimeGate.SetJournalBlock(old(Variables()), reason)
    {
      journalBlock := RuntimeGate.SessionText(reason);
    }
  }
}
