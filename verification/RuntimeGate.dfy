// The connect-ticket runtime gate as a state machine over one state file and one
// process. Each function is one method of the gate: it takes the file, the variables
// of the running process and what the environment does during the call, and gives the
// file and the variables afterwards together with what the caller is told.
module RuntimeGate {
  import opened Wrappers
  import opened RuntimeSnapshot
  import Texts

  // A write may fail and leave the old file; or rename the new file into place and then
  // fail to sync the directory; or succeed.
  datatype WriteOutcome = Lost | LandedUnsynced | Landed

  // `visible` is what a reader of the path finds. `synced` is what is certain to survive
  // a loss of power.
  datatype Store = Store(visible: Option<Document>, synced: Option<Document>)

  datatype ReadResult = Missing | Found(s: Snapshot) | Unusable

  datatype Reason =
    | StateUnusable | CutoffNotPersisted | EvidenceUnusable | EvidenceNotPersisted
    | RecoveryNotPrepared | ReadyCutoffNotPersisted | RecoveryNotCompleted | FenceMissing | CompletionNotPersisted
    | FenceUnusable | TeardownInProgress | OtherSession | RecoveryIncomplete | NoIssueTime | IssuedBeforeTeardown
    | IdentityInvalid | EvidenceOtherSession | EvidenceOtherActiveSession | JournalBlocked

  // The variables of one process. `failure` is runtimeStatePersistenceFailureReason,
  // `owner` is managedSessionRequestId.
  datatype Process = Process(
    skew: nat,
    hostBootMs: Option<int>,
    failure: Option<Reason>,
    journalBlock: Option<string>,
    owner: Option<string>,
    admittedHere: bool)

  datatype Command = Command(commandType: string, commandId: string, requestedAt: Text, expired: bool)
  datatype Desired = Desired(recycleToken: Option<string>, shutdown: bool, updatedAt: Option<Text>)

  // What the environment does during one call: the clock, whether each read of the state
  // file succeeds, the outcome of the write, and the contents of the two control files.
  datatype Env = Env(
    now: nat,
    readable: bool,
    commandReadable: bool,
    desiredReadable: bool,
    write: WriteOutcome,
    command: Option<Command>,
    desired: Desired)

  datatype Ticket = Ticket(issuedAt: Option<int>, session: Option<string>)
  datatype TeardownOptions = TeardownOptions(
    occurredAt: Option<Text>, reason: Option<Text>, commandType: Option<Text>, commandId: Option<Text>)

  // ---- the state file ----

  function Inspect(st: Store, readable: bool): ReadResult {
    if !readable then Unusable
    else
      match st.visible
      case None => Missing
      case Some(d) => (match Parse(d) case None => Unusable case Some(s) => Found(s))
  }

  function Write(st: Store, s: Snapshot, outcome: WriteOutcome): (r: (Store, bool)) {
    match outcome
    case Lost => (st, false)
    case LandedUnsynced => (st.(visible := Some(ToDocument(s))), false)
    case Landed => (Store(Some(ToDocument(s)), Some(ToDocument(s))), true)
  }

  // normalizeRuntimeStateSnapshot of a snapshot held in memory.
  function Normalized(s: Snapshot): Snapshot {
    match Normalize(ToDocument(s))
    case None => s
    case Some(n) => n
  }

  // ---- helpers ----

  function TrimmedText(t: Option<Text>): Option<Text> {
    if t.Some? then NormalizeText(t.value) else None
  }

  function OrElse(a: Option<Text>, b: Option<Text>): Option<Text> {
    if a.Some? then a else b
  }

  function SessionText(s: Option<string>): Option<string> {
    if s.Some? && Texts.Trim(s.value) != [] then Some(Texts.Trim(s.value)) else None
  }

  predicate IsTeardownCommand(c: Option<Command>) {
    c.Some? && Texts.Lower(Texts.Trim(c.value.commandType)) in {"recycletowarm", "shutdown"}
  }

  predicate IsRecycleCommand(c: Option<Command>) {
    c.Some? && Texts.Lower(Texts.Trim(c.value.commandType)) == "recycletowarm"
  }

  datatype TokenStatus = Completed | Open | Unavailable

  function TokenCompletion(st: Store, readable: bool, token: Option<string>): TokenStatus {
    match (if token.Some? then Texts.NormalizeRecycleToken(token.value) else None)
    case None => Open
    case Some(t) =>
      match Inspect(st, readable)
      case Found(s) => if t in s.completedTokens then Completed else Open
      case _ => Unavailable
  }

  function CommandStatus(st: Store, readable: bool, c: Option<Command>): TokenStatus {
    if IsRecycleCommand(c) then TokenCompletion(st, readable, Some(c.value.commandId)) else Open
  }

  // ---- markTeardownStarted ----

  function TeardownCutoff(s: Snapshot, now: nat, opts: TeardownOptions): int {
    var occurred := TrimmedText(opts.occurredAt);
    var requested := if occurred.Some? then UtcSeconds(occurred.value) else None;
    Max(s.cutoff.GetOr(0), requested.GetOr(now))
  }

  function TornDown(s: Snapshot, now: nat, opts: TeardownOptions): Snapshot
    requires HasUtc(TeardownCutoff(s, now, opts)) && HasUtc(now)
  {
    var cutoff := TeardownCutoff(s, now, opts);
    s.(cutoff := Some(cutoff),
       cutoffUtc := Some(ToUtc(cutoff)),
       reason := OrElse(TrimmedText(opts.reason), s.reason),
       commandType := OrElse(TrimmedText(opts.commandType), s.commandType),
       commandId := OrElse(TrimmedText(opts.commandId), s.commandId),
       recoveryRequired := true,
       readyNotBefore := None,
       updatedAt := Some(ToUtc(now)))
  }

  function MarkTeardown(st: Store, p: Process, now: nat, readable: bool, write: WriteOutcome, opts: TeardownOptions)
    : (r: (Store, Process, Reply<bool>))
  {
    match Inspect(st, readable)
    case Found(s) =>
      if !HasUtc(TeardownCutoff(s, now, opts)) || !HasUtc(now) then (st, p, Threw)
      else
        var (st', ok) := Write(st, Normalized(TornDown(s, now, opts)), write);
        (st', p.(failure := if ok then None else Some(CutoffNotPersisted)), Returned(ok))
    case _ => (st, p.(failure := Some(StateUnusable)), Returned(false))
  }

  // ---- createConnectTicketRuntimeGate ----

  datatype StartEnv = StartEnv(
    skew: nat, hostBootMs: Option<int>, now: nat,
    initialReadable: bool, baselineWrite: WriteOutcome,
    commandReadable: bool, commandTeardownReadable: bool, commandWrite: WriteOutcome,
    desiredReadable: bool, desiredTeardownReadable: bool, desiredWrite: WriteOutcome,
    command: Option<Command>, desired: Desired)

  function Baseline(now: nat): Snapshot
    requires HasUtc(now)
  {
    Snapshot(Some(0), Some(ToUtc(0)), Some(Plain("runtime_state_initialized")), None, None, Some(ToUtc(now)),
             false, None, None, None, None, [])
  }

  // The file is read, or created with cutoff 0.
  function OpenState(st: Store, e: StartEnv): (r: (Store, Reply<Process>)) {
    match Inspect(st, e.initialReadable)
    case Unusable => (st, Threw)
    case Found(s) => (st, Returned(Process(e.skew, e.hostBootMs, None, None, s.viewerRequest, false)))
    case Missing =>
      if !HasUtc(e.now) then (st, Threw)
      else
        var (st', ok) := Write(st, Normalized(Baseline(e.now)), e.baselineWrite);
        (st', if ok then Returned(Process(e.skew, e.hostBootMs, None, None, None, false)) else Threw)
  }

  predicate CommandNeedsTeardown(st: Store, e: StartEnv) {
    IsTeardownCommand(e.command) && !e.command.value.expired &&
    CommandStatus(st, e.commandReadable, e.command) != Completed
  }

  predicate DesiredNeedsTeardown(st: Store, e: StartEnv) {
    || (e.desired.recycleToken.Some? && TokenCompletion(st, e.desiredReadable, e.desired.recycleToken) != Completed)
    || e.desired.shutdown
  }

  // A teardown command left in the command journal is fenced again, unless it expired or completed.
  function RecoverCommand(st: Store, p: Process, e: StartEnv): (r: (Store, Reply<Process>)) {
    if CommandStatus(st, e.commandReadable, e.command) == Unavailable then (st, Threw)
    else if CommandNeedsTeardown(st, e) then
      var c := e.command.value;
      var (st', p', ok) := MarkTeardown(st, p, e.now, e.commandTeardownReadable, e.commandWrite,
        TeardownOptions(Some(c.requestedAt), Some(Plain("recovered_active_teardown_command")),
                        Some(Plain(c.commandType)), Some(Plain(c.commandId))));
      (st', if ok == Returned(true) then Returned(p') else Threw)
    else (st, Returned(p))
  }

  // The same for a teardown the desired state still asks for.
  function RecoverDesired(st: Store, p: Process, e: StartEnv): (r: (Store, Reply<Process>)) {
    if TokenCompletion(st, e.desiredReadable, e.desired.recycleToken) == Unavailable then (st, Threw)
    else if DesiredNeedsTeardown(st, e) then
      var reason := if e.desired.recycleToken.Some?
                    then "recovered_desired_state_recycle_request" else "recovered_desired_state_shutdown_request";
      var (st', p', ok) := MarkTeardown(st, p, e.now, e.desiredTeardownReadable, e.desiredWrite,
        TeardownOptions(e.desired.updatedAt, Some(Plain(reason)), None, None));
      (st', if ok == Returned(true) then Returned(p') else Threw)
    else (st, Returned(p))
  }

  function Start(st: Store, e: StartEnv): (r: (Store, Reply<Process>)) {
    match OpenState(st, e)
    case (st1, Threw) => (st1, Threw)
    case (st1, Returned(p1)) =>
      match RecoverCommand(st1, p1, e)
      case (st2, Threw) => (st2, Threw)
      case (st2, Returned(p2)) => RecoverDesired(st2, p2, e)
  }

  // ---- rejectReasonForTicket ----

  // A teardown that one of the control files still asks for refuses every ticket.
  function ControlRefusal(st: Store, env: Env): Option<Reason> {
    var active := CommandStatus(st, env.commandReadable, env.command);
    var desired := TokenCompletion(st, env.desiredReadable, env.desired.recycleToken);
    if active == Unavailable then Some(FenceUnusable)
    else if IsTeardownCommand(env.command) && active != Completed then Some(TeardownInProgress)
    else if desired == Unavailable then Some(FenceUnusable)
    else if (env.desired.recycleToken.Some? && desired != Completed) || env.desired.shutdown
    then Some(TeardownInProgress)
    else None
  }

  predicate SameSession(a: string, b: string) {
    Texts.Lower(a) == Texts.Lower(b)
  }

  // The verdict of the durable snapshot on a ticket.
  function SnapshotRefusal(s: Snapshot, p: Process, t: Ticket): Option<Reason> {
    var session := SessionText(t.session);
    if session.Some? && p.owner.Some? && !SameSession(session.value, p.owner.value) then Some(OtherSession)
    else if s.recoveryRequired then Some(RecoveryIncomplete)
    else if s.cutoff.Some? && t.issuedAt.None? then Some(NoIssueTime)
    else if s.cutoff.Some? && t.issuedAt.value <= s.cutoff.value then Some(IssuedBeforeTeardown)
    else None
  }

  function Reject(st: Store, p: Process, env: Env, t: Ticket): (r: (Process, Option<Reason>)) {
    var control := ControlRefusal(st, env);
    if control.Some? then (p, control)
    else if p.failure.Some? then (p, p.failure)
    else
      match Inspect(st, env.readable)
      case Found(s) =>
        var refusal := SnapshotRefusal(s, p, t);
        if refusal.Some? then (p, refusal)
        else if p.owner.None? then (p.(owner := SessionText(t.session)), None)
        else (p, None)
      case _ => (p.(failure := Some(StateUnusable)), Some(StateUnusable))
  }

  // ---- recordManagedViewerAdmission ----

  function Recorded(s: Snapshot, session: string, active: Option<string>, now: nat): Snapshot
    requires HasUtc(now)
  {
    s.(viewerRequest := Some(session),
       viewerSession := if s.viewerSession.Some? then s.viewerSession else active,
       firstAdmitted := OrElse(s.firstAdmitted, Some(ToUtc(now))),
       updatedAt := Some(ToUtc(now)))
  }

  function Record(st: Store, p: Process, env: Env, rawSession: string, rawActive: Option<string>)
    : (r: (Store, Process, Reply<Option<Reason>>))
  {
    var session := Texts.NormalizeGuid(rawSession);
    var active := if rawActive.Some? then Texts.NormalizeGuid(rawActive.value) else None;
    if p.failure.Some? then (st, p, Returned(p.failure))
    else if session.None? || (rawActive.Some? && active.None?) then (st, p, Returned(Some(IdentityInvalid)))
    else
      match Inspect(st, env.readable)
      case Found(s) =>
        if s.viewerRequest.Some? && !SameSession(s.viewerRequest.value, session.value)
        then (st, p, Returned(Some(EvidenceOtherSession)))
        else if s.viewerSession.Some? && active.Some? && !SameSession(s.viewerSession.value, active.value)
        then (st, p, Returned(Some(EvidenceOtherActiveSession)))
        else if s.viewerRequest.Some? &&
                (active.None? || (s.viewerSession.Some? && SameSession(s.viewerSession.value, active.value)))
        then (st, p.(admittedHere := true), Returned(None))
        else if !HasUtc(env.now) then (st, p, Threw)
        else
          var (st', ok) := Write(st, Normalized(Recorded(s, session.value, active, env.now)), env.write);
          if ok then (st', p.(failure := None, owner := session, admittedHere := true), Returned(None))
          else (st', p.(failure := Some(EvidenceNotPersisted)), Returned(Some(EvidenceNotPersisted)))
      case _ => (st, p.(failure := Some(EvidenceUnusable)), Returned(Some(EvidenceUnusable)))
  }

  // ---- the gate calls at the end of validateToken ----

  datatype Claims = Claims(iat: Option<int>, nbf: Option<int>, session: Option<string>, active: Option<string>)

  // parseGuidClaim trims but keeps the letter case.
  function GuidClaim(s: Option<string>): Option<string> {
    if s.Some? && Texts.IsGuid(Texts.Trim(s.value)) then Some(Texts.Trim(s.value)) else None
  }

  // True means admitted. The reads and writes of the two gate calls may go differently.
  // An exception is caught by the caller and refuses the ticket.
  function Admit(st: Store, p: Process, rejectEnv: Env, recordEnv: Env, c: Claims): (r: (Store, Process, bool)) {
    var session, active := GuidClaim(c.session), GuidClaim(c.active);
    if (c.session.Some? && session.None?) || (c.active.Some? && active.None?) then (st, p, false)
    else if session.Some? && p.journalBlock.Some? then (st, p, false)
    else
      var (p1, refusal) := Reject(st, p, rejectEnv, Ticket(if c.iat.Some? then c.iat else c.nbf, session));
      if refusal.Some? then (st, p1, false)
      else if session.None? then (st, p1, true)
      else
        var (st2, p2, reply) := Record(st, p1, recordEnv, session.value, active);
        (st2, p2, reply == Returned(None))
  }

  // ---- reconcileAssignmentAfterHostBoot ----

  // The previous admission is provably from before the last boot of the host.
  predicate AdmittedBeforeBoot(s: Snapshot, p: Process) {
    && s.firstAdmitted.Some? && DateParse(s.firstAdmitted.value).Some?
    && p.hostBootMs.Some?
    && DateParse(s.firstAdmitted.value).value + 1000 * p.skew < p.hostBootMs.value
  }

  function Released(s: Snapshot, now: nat, skew: nat): Snapshot
    requires HasUtc(Max(s.cutoff.GetOr(0), now + skew)) && HasUtc(now)
  {
    var cutoff := Max(s.cutoff.GetOr(0), now + skew);
    s.(viewerRequest := None, viewerSession := None, firstAdmitted := None,
       cutoff := Some(cutoff), cutoffUtc := Some(ToUtc(cutoff)),
       reason := Some(Plain("prior_assignment_released_after_host_boot")),
       updatedAt := Some(ToUtc(now)))
  }

  function Reconcile(st: Store, p: Process, env: Env, rawAssigned: Option<string>): (r: (Store, Process, Reply<bool>)) {
    var target := if rawAssigned.Some? then Texts.NormalizeGuid(rawAssigned.value) else None;
    if p.admittedHere || p.owner.None? then (st, p, Returned(true))
    else if rawAssigned.Some? && target.None? then (st, p, Returned(false))
    else if target.Some? && SameSession(target.value, p.owner.value) then (st, p, Returned(true))
    else
      match Inspect(st, env.readable)
      case Found(s) =>
        if !AdmittedBeforeBoot(s, p) || s.recoveryRequired || p.journalBlock.Some? then (st, p, Returned(false))
        else if !HasUtc(Max(s.cutoff.GetOr(0), env.now + p.skew)) || !HasUtc(env.now) then (st, p, Threw)
        else
          var (st', ok) := Write(st, Normalized(Released(s, env.now, p.skew)), env.write);
          (st', if ok then p.(owner := None) else p, Returned(ok))
      case _ => (st, p, Returned(false))
  }

  // ---- commercial recovery ----

  function IsRecoveryRequired(st: Store, p: Process, readable: bool): (r: (Process, bool)) {
    if p.failure.Some? then (p, true)
    else
      match Inspect(st, readable)
      case Found(s) => (p, s.recoveryRequired)
      case _ => (p.(failure := Some(StateUnusable)), true)
  }

  function Prepared(s: Snapshot, now: nat, skew: nat): Snapshot
    requires HasUtc(Max(s.cutoff.GetOr(0), now + skew)) && HasUtc(now)
  {
    var cutoff := Max(s.cutoff.GetOr(0), now + skew);
    s.(cutoff := Some(cutoff), cutoffUtc := Some(ToUtc(cutoff)),
       recoveryRequired := true,
       readyNotBefore := Some(cutoff + skew),
       reason := Some(Plain("commercial_recovery_ready_margin")),
       updatedAt := Some(ToUtc(now)))
  }

  // The reply is the instant the runtime may become ready, or None for a failure.
  function Prepare(st: Store, p: Process, env: Env): (r: (Store, Process, Reply<Option<int>>)) {
    match Inspect(st, env.readable)
    case Found(s) =>
      if !s.recoveryRequired then (st, p.(failure := Some(RecoveryNotPrepared)), Returned(None))
      else if s.readyNotBefore.Some? then (st, p.(failure := None), Returned(s.readyNotBefore))
      else if !HasUtc(Max(s.cutoff.GetOr(0), env.now + p.skew)) || !HasUtc(env.now) then (st, p, Threw)
      else
        var prepared := Prepared(s, env.now, p.skew);
        var (st', ok) := Write(st, Normalized(prepared), env.write);
        if ok then (st', p.(failure := None), Returned(prepared.readyNotBefore))
        else (st', p.(failure := Some(ReadyCutoffNotPersisted)), Returned(None))
    case _ => (st, p.(failure := Some(RecoveryNotPrepared)), Returned(None))
  }

  function Recovered(s: Snapshot, token: Option<string>, now: nat): Snapshot
    requires HasUtc(now)
  {
    s.(recoveryRequired := false, readyNotBefore := None,
       viewerRequest := None, viewerSession := None, firstAdmitted := None,
       completedTokens := if token.Some? then s.completedTokens + [token.value] else s.completedTokens,
       updatedAt := Some(ToUtc(now)))
  }

  function CompleteRecovery(st: Store, p: Process, env: Env, rawToken: Option<string>): (r: (Store, Process, Reply<bool>)) {
    var token := if rawToken.Some? then Texts.NormalizeRecycleToken(rawToken.value) else None;
    match Inspect(st, env.readable)
    case Found(s) =>
      if !s.recoveryRequired then
        if token.Some? && token.value !in s.completedTokens then (st, p.(failure := Some(FenceMissing)), Returned(false))
        else (st, p.(failure := None), Returned(true))
      else if s.readyNotBefore.None? || env.now <= s.readyNotBefore.value then (st, p, Returned(false))
      else if !HasUtc(env.now) then (st, p, Threw)
      else
        var (st', ok) := Write(st, Normalized(Recovered(s, token, env.now)), env.write);
        if ok then (st', p.(failure := None, owner := None), Returned(true))
        else (st', p.(failure := Some(CompletionNotPersisted)), Returned(false))
    case _ => (st, p.(failure := Some(RecoveryNotCompleted)), Returned(false))
  }

  // ---- setReconnectGraceEvidenceJournalBlock ----

  function SetJournalBlock(p: Process, reason: Option<string>): Process {
    p.(journalBlock := SessionText(reason))
  }
}
