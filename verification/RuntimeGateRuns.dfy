// Every run of the gate: calls, crashes, restarts and power failures in any order.
module RuntimeGateRuns {
  import opened Wrappers
  import opened RuntimeSnapshot
  import opened RuntimeGate
  import Texts

  datatype Step =
    | Starting(start: StartEnv)
    | Crash
    | Flush        // the directory reaches the disk on its own
    | PowerLoss    // what was not synced is undone, and no process is left
    | Teardown(env: Env, opts: TeardownOptions)
    | Checking(env: Env, ticket: Ticket)
    | Recording(env: Env, session: string, active: Option<string>)
    | Admitting(env: Env, recordEnv: Env, claims: Claims)
    | Reconciling(env: Env, target: Option<string>)
    | Asking(readable: bool)
    | Preparing(env: Env)
    | Completing(env: Env, token: Option<string>)
    | Blocking(reason: Option<string>)

  // `torn` is the latest second for which a teardown that reported success was asked, or the cutoff
  // it found or left on file if that is later (-1 before any).
  // `admitted` holds the sessions admitted since ownership was last released on file.
  datatype History = History(torn: int, admitted: set<string>)

  datatype System = System(store: Store, proc: Option<Process>, hist: History)

  const INITIAL := System(Store(None, None), None, History(-1, {}))

  function Content(d: Option<Document>): Option<Snapshot> {
    if d.Some? then Parse(d.value) else None
  }

  function Cutoff(s: Option<Snapshot>): int {
    if s.Some? && s.value.cutoff.Some? then s.value.cutoff.value else -1
  }

  // ---- one step ----

  // The second for which a teardown is asked: of the time given, or now when there is none to read.
  function AskedSecond(now: nat, occurredAt: Option<Text>): int {
    if occurredAt.Some? && UtcSeconds(occurredAt.value).Some? then UtcSeconds(occurredAt.value).value else now
  }

  function NoteTeardown(h: History, st: Store, asked: int, ok: bool): History {
    if ok then h.(torn := Max(h.torn, Max(asked, Cutoff(Content(st.visible))))) else h
  }

  function NoteAdmission(h: History, c: Claims, admitted: bool): History {
    if admitted && GuidClaim(c.session).Some?
    then h.(admitted := h.admitted + {Texts.Lower(GuidClaim(c.session).value)})
    else h
  }

  function NoteRelease(h: History, before: Store, after: Store): History {
    if after.visible != before.visible then h.(admitted := {}) else h
  }

  // A start that had to recover a teardown, and did not throw, saw that teardown succeed.
  function StartTearsDown(st: Store, e: StartEnv): bool {
    var (st1, r1) := OpenState(st, e);
    r1.Returned? &&
    var (st2, r2) := RecoverCommand(st1, r1.value, e);
    r2.Returned? && RecoverDesired(st2, r2.value, e).1.Returned? &&
    (CommandNeedsTeardown(st1, e) || DesiredNeedsTeardown(st2, e))
  }

  // The latest second for which the teardowns of a start were asked.
  function StartAsked(st: Store, e: StartEnv): int {
    var (st1, r1) := OpenState(st, e);
    if r1.Threw? then -1
    else
      var st2 := RecoverCommand(st1, r1.value, e).0;
      Max(if CommandNeedsTeardown(st1, e) then AskedSecond(e.now, Some(e.command.value.requestedAt)) else -1,
          if DesiredNeedsTeardown(st2, e) then AskedSecond(e.now, e.desired.updatedAt) else -1)
  }

  function Next(s: System, step: Step): System {
    match step
    case Starting(e) =>
      if s.proc.Some? then s
      else
        var (st, reply) := Start(s.store, e);
        System(st, if reply.Returned? then Some(reply.value) else None,
               NoteTeardown(s.hist, st, StartAsked(s.store, e), StartTearsDown(s.store, e)))
    case Crash => s.(proc := None)
    case Flush => s.(store := Store(s.store.visible, s.store.visible))
    case PowerLoss => s.(proc := None, store := Store(s.store.synced, s.store.synced))
    case _ => if s.proc.None? then s else Call(s, s.proc.value, step)
  }

  function Call(s: System, p: Process, step: Step): System {
    match step
    case Teardown(env, opts) =>
      var (st, p', ok) := MarkTeardown(s.store, p, env.now, env.readable, env.write, opts);
      System(st, Some(p'), NoteTeardown(s.hist, st, AskedSecond(env.now, opts.occurredAt), ok == Returned(true)))
    case Checking(env, t) =>
      s.(proc := Some(Reject(s.store, p, env, t).0))
    case Recording(env, session, active) =>
      var (st, p', _) := Record(s.store, p, env, session, active);
      System(st, Some(p'), s.hist)
    case Admitting(env, recordEnv, claims) =>
      var (st, p', ok) := Admit(s.store, p, env, recordEnv, claims);
      System(st, Some(p'), NoteAdmission(s.hist, claims, ok))
    case Reconciling(env, target) =>
      var (st, p', _) := Reconcile(s.store, p, env, target);
      System(st, Some(p'), NoteRelease(s.hist, s.store, st))
    case Asking(readable) =>
      s.(proc := Some(IsRecoveryRequired(s.store, p, readable).0))
    case Preparing(env) =>
      var (st, p', _) := Prepare(s.store, p, env);
      System(st, Some(p'), s.hist)
    case Completing(env, token) =>
      var (st, p', _) := CompleteRecovery(s.store, p, env, token);
      System(st, Some(p'), NoteRelease(s.hist, s.store, st))
    case Blocking(reason) => s.(proc := Some(SetJournalBlock(p, reason)))
    case _ => s
  }

  function Run(s: System, steps: seq<Step>): System {
    if steps == [] then s else Next(Run(s, steps[..|steps| - 1]), steps[|steps| - 1])
  }

  // ---- what a write does ----

  ghost predicate Trusted(d: Option<Document>) {
    d.Some? ==> Parse(d.value).Some?
  }

  ghost predicate StoreInv(st: Store) {
    Trusted(st.visible) && Trusted(st.synced) && (st.synced.Some? ==> st.visible.Some?)
  }

  // The file was left alone, or now holds `s`; a success also synced it.
  ghost predicate Effect(st: Store, st': Store, s: Snapshot, ok: bool) {
    || (st' == st && !ok)
    || (&& st'.visible.Some? && Content(st'.visible) == Some(s) && Canonical(s)
        && st'.synced == if ok then st'.visible else st.synced)
  }

  lemma FoundIsCanonical(st: Store, readable: bool)
    requires Inspect(st, readable).Found?
    ensures Canonical(Inspect(st, readable).s)
    ensures readable && Content(st.visible) == Some(Inspect(st, readable).s)
  {
    hide Canonical, Acceptable, Normalize;
    ReaderIsStrict(st.visible.value);
  }

  function Fenced(s: Snapshot): Snapshot {
    s.(completedTokens := LastTokens(Dedupe(s.completedTokens)))
  }

  lemma WrittenReadsBack(s: Snapshot)
    requires CanonicalFields(s)
    requires forall t :: t in s.completedTokens ==> Texts.NormalizeRecycleToken(t) == Some(t)
    ensures Normalized(s) == Fenced(s)
    ensures Canonical(Fenced(s))
    ensures Parse(ToDocument(Fenced(s))) == Some(Fenced(s))
  {
    hide Parse, Canonical, CanonicalFields, ToDocument, Normalize;
    NormalizeBeforeWrite(s);
    RoundTrip(Fenced(s));
  }

  lemma WriteEffect(st: Store, s: Snapshot, outcome: WriteOutcome)
    requires CanonicalFields(s)
    requires forall t :: t in s.completedTokens ==> Texts.NormalizeRecycleToken(t) == Some(t)
    ensures var (st', ok) := Write(st, Normalized(s), outcome);
            Effect(st, st', Fenced(s), ok) && (outcome == Landed <==> ok) && (outcome == Lost ==> st' == st)
            && (outcome != Lost ==> Content(st'.visible) == Some(Fenced(s)))
  {
    hide Parse, Canonical, CanonicalFields, ToDocument, Normalize, Fenced, Normalized;
    WrittenReadsBack(s);
  }

  // The same when the fence is not touched.
  lemma WriteCanonical(st: Store, s: Snapshot, outcome: WriteOutcome)
    requires Canonical(s)
    ensures var (st', ok) := Write(st, Normalized(s), outcome);
            Effect(st, st', s, ok) && (outcome == Landed <==> ok) && (outcome == Lost ==> st' == st)
            && (outcome != Lost ==> Content(st'.visible) == Some(s))
  {
    hide Parse, CanonicalFields, ToDocument, Normalize, Normalized;
    assert Dedupe(s.completedTokens) == s.completedTokens;
    assert Fenced(s) == s;
    WriteEffect(st, s, outcome);
  }

  // ---- the effect of every writing call ----

  lemma TrimmedTextNormal(t: Option<Text>)
    ensures NormalText(TrimmedText(t))
  {
    if t.Some? && NormalizeText(t.value).Some? {
      NormalTextFixed(t.value);
    }
  }

  lemma TornDownCanonical(s: Snapshot, now: nat, opts: TeardownOptions)
    requires Canonical(s) && HasUtc(TeardownCutoff(s, now, opts)) && HasUtc(now)
    ensures Canonical(TornDown(s, now, opts))
  {
    hide NormalizeText, Texts.NormalizeGuid, NormalFence;
    TrimmedTextNormal(opts.reason);
    TrimmedTextNormal(opts.commandType);
    TrimmedTextNormal(opts.commandId);
  }

  lemma MarkTeardownEffect(st: Store, p: Process, now: nat, readable: bool, write: WriteOutcome, opts: TeardownOptions)
    ensures var (st', _, reply) := MarkTeardown(st, p, now, readable, write, opts);
            var found := Inspect(st, readable);
            if found.Found? && HasUtc(TeardownCutoff(found.s, now, opts)) && HasUtc(now)
            then Effect(st, st', TornDown(found.s, now, opts), reply == Returned(true))
            else st' == st && reply != Returned(true)
  {
    hide Parse, Canonical, ToDocument, Normalized, TornDown, Effect;
    var found := Inspect(st, readable);
    if found.Found? && HasUtc(TeardownCutoff(found.s, now, opts)) && HasUtc(now) {
      FoundIsCanonical(st, readable);
      TornDownCanonical(found.s, now, opts);
      WriteCanonical(st, TornDown(found.s, now, opts), write);
    }
  }

  lemma RecordedCanonical(s: Snapshot, session: string, active: Option<string>, now: nat)
    requires Canonical(s) && HasUtc(now)
    requires NormalGuid(Some(session)) && NormalGuid(active)
    ensures Canonical(Recorded(s, session, active, now))
  {
    hide NormalizeText, Texts.NormalizeGuid, NormalFence;
  }

  lemma RecordEffect(st: Store, p: Process, env: Env, rawSession: string, rawActive: Option<string>)
    ensures var (st', p', reply) := Record(st, p, env, rawSession, rawActive);
            var session := Texts.NormalizeGuid(rawSession);
            var active := if rawActive.Some? then Texts.NormalizeGuid(rawActive.value) else None;
            var found := Inspect(st, env.readable);
            // admitted on the evidence already there
            || (&& st' == st && reply == Returned(None) && found.Found? && session.Some?
                && found.s.viewerRequest.Some? && SameSession(found.s.viewerRequest.value, session.value))
            // admitted, or refused, after trying to write the evidence
            || (&& found.Found? && session.Some? && HasUtc(env.now)
                && (found.s.viewerRequest.Some? ==> SameSession(found.s.viewerRequest.value, session.value))
                && Effect(st, st', Recorded(found.s, session.value, active, env.now), reply == Returned(None)))
            // refused
            || (st' == st && reply != Returned(None))
    ensures Record(st, p, env, rawSession, rawActive).1.skew == p.skew
  {
    hide Parse, Canonical, ToDocument, Normalized, Recorded, Effect, Texts.NormalizeGuid, SameSession;
    var session := Texts.NormalizeGuid(rawSession);
    var active := if rawActive.Some? then Texts.NormalizeGuid(rawActive.value) else None;
    var found := Inspect(st, env.readable);
    if found.Found? && session.Some? && HasUtc(env.now) {
      FoundIsCanonical(st, env.readable);
      Texts.NormalizeGuidTwice(rawSession);
      if active.Some? {
        Texts.NormalizeGuidTwice(rawActive.value);
      }
      RecordedCanonical(found.s, session.value, active, env.now);
      WriteCanonical(st, Recorded(found.s, session.value, active, env.now), env.write);
    }
  }

  lemma ReleasedCanonical(s: Snapshot, now: nat, skew: nat)
    requires Canonical(s) && HasUtc(Max(s.cutoff.GetOr(0), now + skew)) && HasUtc(now) && !s.recoveryRequired
    ensures Canonical(Released(s, now, skew))
  {
    hide Texts.NormalizeGuid, NormalFence;
    assert Texts.Trimmed("prior_assignment_released_after_host_boot");
  }

  lemma ReconcileEffect(st: Store, p: Process, env: Env, target: Option<string>)
    ensures var (st', p', reply) := Reconcile(st, p, env, target);
            var found := Inspect(st, env.readable);
            || st' == st
            || (&& found.Found? && !found.s.recoveryRequired
                && HasUtc(Max(found.s.cutoff.GetOr(0), env.now + p.skew)) && HasUtc(env.now)
                && Effect(st, st', Released(found.s, env.now, p.skew), reply == Returned(true)))
    ensures Reconcile(st, p, env, target).1.skew == p.skew
  {
    hide Parse, Canonical, ToDocument, Normalized, Released, Effect, Texts.NormalizeGuid, SameSession;
    var found := Inspect(st, env.readable);
    if found.Found? && HasUtc(Max(found.s.cutoff.GetOr(0), env.now + p.skew)) && HasUtc(env.now) && !found.s.recoveryRequired {
      FoundIsCanonical(st, env.readable);
      ReleasedCanonical(found.s, env.now, p.skew);
      WriteCanonical(st, Released(found.s, env.now, p.skew), env.write);
    }
  }

  lemma PreparedCanonical(s: Snapshot, now: nat, skew: nat)
    requires Canonical(s) && HasUtc(Max(s.cutoff.GetOr(0), now + skew)) && HasUtc(now)
    ensures Canonical(Prepared(s, now, skew))
  {
    hide Texts.NormalizeGuid, NormalFence;
    assert Texts.Trimmed("commercial_recovery_ready_margin");
  }

  lemma PrepareEffect(st: Store, p: Process, env: Env)
    ensures var (st', p', reply) := Prepare(st, p, env);
            var found := Inspect(st, env.readable);
            if found.Found? && found.s.recoveryRequired && found.s.readyNotBefore.None?
               && HasUtc(Max(found.s.cutoff.GetOr(0), env.now + p.skew)) && HasUtc(env.now)
            then
              && Effect(st, st', Prepared(found.s, env.now, p.skew), reply != Returned(None))
              && (reply == Returned(None) || reply == Returned(Prepared(found.s, env.now, p.skew).readyNotBefore))
            else st' == st
    ensures Prepare(st, p, env).1.skew == p.skew
  {
    hide Parse, Canonical, ToDocument, Normalized, Effect;
    var found := Inspect(st, env.readable);
    if found.Found? && found.s.recoveryRequired && found.s.readyNotBefore.None?
       && HasUtc(Max(found.s.cutoff.GetOr(0), env.now + p.skew)) && HasUtc(env.now) {
      FoundIsCanonical(st, env.readable);
      PreparedCanonical(found.s, env.now, p.skew);
      WriteCanonical(st, Prepared(found.s, env.now, p.skew), env.write);
    }
  }

  lemma RecoveredCanonical(s: Snapshot, token: Option<string>, now: nat)
    requires Canonical(s) && HasUtc(now)
    ensures CanonicalFields(Recovered(s, token, now))
  {
    hide NormalizeText, Texts.NormalizeGuid, NormalFence;
  }

  function RecycleToken(raw: Option<string>): Option<string> {
    if raw.Some? then Texts.NormalizeRecycleToken(raw.value) else None
  }

  // The recovery was still open and its margin has passed.
  predicate MayRecover(found: ReadResult, now: nat) {
    found.Found? && found.s.recoveryRequired && found.s.readyNotBefore.Some? && now > found.s.readyNotBefore.value
  }

  lemma CompleteRecoveryEffect(st: Store, p: Process, env: Env, rawToken: Option<string>)
    ensures var (st', p', reply) := CompleteRecovery(st, p, env, rawToken);
            var found := Inspect(st, env.readable);
            var token := RecycleToken(rawToken);
            if MayRecover(found, env.now) && HasUtc(env.now)
            then Effect(st, st', Fenced(Recovered(found.s, token, env.now)), reply == Returned(true))
            else
              && st' == st
              && (reply == Returned(true) ==>
                    found.Found? && !found.s.recoveryRequired && (token.Some? ==> token.value in found.s.completedTokens))
    ensures CompleteRecovery(st, p, env, rawToken).1.skew == p.skew
  {
    hide Parse, Canonical, CanonicalFields, ToDocument, Normalized, Recovered, Effect, Fenced, Texts.NormalizeRecycleToken;
    var found := Inspect(st, env.readable);
    var token := RecycleToken(rawToken);
    if MayRecover(found, env.now) && HasUtc(env.now) {
      FoundIsCanonical(st, env.readable);
      RecoveredCanonical(found.s, token, env.now);
      RecoveredTokens(found.s, rawToken, env.now);
      WriteEffect(st, Recovered(found.s, token, env.now), env.write);
    }
  }

  lemma RecoveredTokens(s: Snapshot, rawToken: Option<string>, now: nat)
    requires Canonical(s) && HasUtc(now)
    ensures var r := Recovered(s, RecycleToken(rawToken), now);
            forall t :: t in r.completedTokens ==> Texts.NormalizeRecycleToken(t) == Some(t)
  {
    hide CanonicalFields, Texts.NormalizeRecycleToken;
    if RecycleToken(rawToken).Some? {
      Texts.NormalizeRecycleTokenTwice(rawToken.value);
    }
  }

  lemma BaselineCanonical(now: nat)
    requires HasUtc(now)
    ensures Canonical(Baseline(now))
  {
    assert Texts.Trimmed("runtime_state_initialized");
  }

  lemma OpenStateEffect(st: Store, e: StartEnv)
    ensures var (st', reply) := OpenState(st, e);
            if Inspect(st, e.initialReadable).Missing? && HasUtc(e.now)
            then Effect(st, st', Baseline(e.now), reply.Returned?)
            else st' == st && (reply.Returned? ==> Inspect(st, e.initialReadable).Found?)
    ensures OpenState(st, e).1.Returned? ==> OpenState(st, e).1.value.skew == e.skew
  {
    hide Parse, Canonical, ToDocument, Normalized, Effect;
    if HasUtc(e.now) {
      BaselineCanonical(e.now);
      WriteCanonical(st, Baseline(e.now), e.baselineWrite);
    }
  }
}
