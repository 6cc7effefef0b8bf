// What the gate's calls mean for the recycle protocol: calls other than a completion take no token
// out of the fence, and a runtime blocked for recovery stays blocked until the agent completes it.
module RecycleGateFacts {
  import opened Wrappers
  import opened RuntimeSnapshot
  import opened RuntimeGate
  import opened RuntimeGateRuns
  import opened RuntimeGateSafety
  import Texts

  function Fence(d: Option<Document>): seq<string> {
    var c := Content(d);
    if c.Some? then c.value.completedTokens else []
  }

  // Fenced in the file, and in what survives a power failure.
  ghost predicate Done(st: Store, token: string) {
    token in Fence(st.visible) && token in Fence(st.synced)
  }

  predicate Latched(st: Store) {
    Content(st.visible).Some? && Content(st.visible).value.recoveryRequired
  }

  predicate Blocked(st: Store, p: Process) {
    p.failure.Some? || Latched(st)
  }

  // No fenced token is forgotten, and a block is not lifted.
  ghost predicate Keeps(st: Store, p: Process, st': Store, p': Process) {
    && (forall t :: Done(st, t) ==> Done(st', t))
    && (Blocked(st, p) ==> Blocked(st', p'))
  }

  lemma EffectKeepsDone(st: Store, st': Store, s: Snapshot, s': Snapshot, ok: bool)
    requires Content(st.visible) == Some(s) && Effect(st, st', s', ok)
    requires s'.completedTokens == s.completedTokens
    ensures forall t :: Done(st, t) ==> Done(st', t)
    ensures s'.recoveryRequired == s.recoveryRequired ==> Latched(st') == Latched(st)
    ensures s'.recoveryRequired && (Latched(st) || st' != st || ok) ==> Latched(st')
  {
    hide Parse, Canonical;
  }

  lemma AskKeeps(st: Store, p: Process, readable: bool)
    ensures Keeps(st, p, st, IsRecoveryRequired(st, p, readable).0)
    ensures IsRecoveryRequired(st, p, readable).1 == Blocked(st, IsRecoveryRequired(st, p, readable).0)
  {
    hide Acceptable, Normalize;
  }

  lemma MarkTeardownKeeps(st: Store, p: Process, now: nat, readable: bool, write: WriteOutcome, opts: TeardownOptions)
    ensures var (st', p', reply) := MarkTeardown(st, p, now, readable, write, opts);
            Keeps(st, p, st', p') && (reply == Returned(true) ==> Blocked(st', p'))
  {
    hide Parse, Canonical, ToDocument, Normalized, Fence, Latched;
    var (st', _, reply) := MarkTeardown(st, p, now, readable, write, opts);
    MarkTeardownEffect(st, p, now, readable, write, opts);
    var found := Inspect(st, readable);
    if found.Found? && HasUtc(TeardownCutoff(found.s, now, opts)) && HasUtc(now) {
      FoundIsCanonical(st, readable);
      EffectKeepsDone(st, st', found.s, TornDown(found.s, now, opts), reply == Returned(true));
    }
  }

  lemma RejectKeeps(st: Store, p: Process, env: Env, t: Ticket)
    ensures Keeps(st, p, st, Reject(st, p, env, t).0)
  {
    hide Inspect, Fence, Latched, ControlRefusal, SnapshotRefusal, SessionText;
  }

  lemma RecordKeeps(st: Store, p: Process, env: Env, session: string, active: Option<string>)
    ensures var (st', p', _) := Record(st, p, env, session, active); Keeps(st, p, st', p')
  {
    hide Parse, Canonical, ToDocument, Normalized, Texts.NormalizeGuid, SameSession, Fence, Latched;
    RecordEffect(st, p, env, session, active);
    var (st', p', reply) := Record(st, p, env, session, active);
    var found := Inspect(st, env.readable);
    var g := Texts.NormalizeGuid(session);
    var a := if active.Some? then Texts.NormalizeGuid(active.value) else None;
    if found.Found? && g.Some? && HasUtc(env.now) {
      FoundIsCanonical(st, env.readable);
      if Effect(st, st', Recorded(found.s, g.value, a, env.now), reply == Returned(None)) {
        EffectKeepsDone(st, st', found.s, Recorded(found.s, g.value, a, env.now), reply == Returned(None));
      }
    }
  }

  lemma AdmitKeeps(st: Store, p: Process, rejectEnv: Env, recordEnv: Env, c: Claims)
    ensures var (st', p', _) := Admit(st, p, rejectEnv, recordEnv, c); Keeps(st, p, st', p')
  {
    hide Reject, Record, Fence, Latched, GuidClaim;
    var session, active := GuidClaim(c.session), GuidClaim(c.active);
    var t := Ticket(if c.iat.Some? then c.iat else c.nbf, session);
    RejectKeeps(st, p, rejectEnv, t);
    if session.Some? {
      RecordKeeps(st, Reject(st, p, rejectEnv, t).0, recordEnv, session.value, active);
    }
  }

  lemma ReconcileKeeps(st: Store, p: Process, env: Env, target: Option<string>)
    ensures var (st', p', _) := Reconcile(st, p, env, target); Keeps(st, p, st', p')
  {
    hide Parse, Canonical, ToDocument, Normalized, Texts.NormalizeGuid, SameSession, Fence, Latched, AdmittedBeforeBoot;
    ReconcileEffect(st, p, env, target);
    var (st', p', reply) := Reconcile(st, p, env, target);
    var found := Inspect(st, env.readable);
    if st' != st {
      FoundIsCanonical(st, env.readable);
      EffectKeepsDone(st, st', found.s, Released(found.s, env.now, p.skew), reply == Returned(true));
    }
  }

  // A margin is only ever given out under the latch.
  lemma PrepareKeeps(st: Store, p: Process, env: Env)
    ensures var (st', p', reply) := Prepare(st, p, env);
            Keeps(st, p, st', p') && (reply.Returned? && reply.value.Some? ==> Latched(st'))
  {
    hide Parse, Canonical, ToDocument, Normalized, Fence;
    PrepareEffect(st, p, env);
    var (st', p', reply) := Prepare(st, p, env);
    var found := Inspect(st, env.readable);
    if found.Found? {
      FoundIsCanonical(st, env.readable);
      if found.s.recoveryRequired && found.s.readyNotBefore.None?
         && HasUtc(Max(found.s.cutoff.GetOr(0), env.now + p.skew)) && HasUtc(env.now) {
        EffectKeepsDone(st, st', found.s, Prepared(found.s, env.now, p.skew), reply != Returned(None));
      }
    }
  }

  // Under the latch, success means the token is fenced, and synced; anything else leaves the block.
  lemma CompleteResult(st: Store, p: Process, env: Env, rawToken: Option<string>)
    requires Latched(st)
    ensures var (st', p', reply) := CompleteRecovery(st, p, env, rawToken);
            if reply == Returned(true) then RecycleToken(rawToken).Some? ==> Done(st', RecycleToken(rawToken).value)
            else Blocked(st', p')
  {
    hide Parse, Canonical, CanonicalFields, ToDocument, Normalized, Fenced, Texts.NormalizeRecycleToken, Recovered;
    CompleteRecoveryEffect(st, p, env, rawToken);
    var (st', p', reply) := CompleteRecovery(st, p, env, rawToken);
    var found := Inspect(st, env.readable);
    if found.Found? {
      FoundIsCanonical(st, env.readable);
      if MayRecover(found, env.now) && HasUtc(env.now) && reply == Returned(true) {
        CompletedIsFenced(found.s, rawToken, env.now);
      }
    }
  }

  lemma CompletedIsFenced(s: Snapshot, rawToken: Option<string>, now: nat)
    requires Canonical(s) && HasUtc(now)
    ensures RecycleToken(rawToken).Some? ==>
              RecycleToken(rawToken).value in Fenced(Recovered(s, RecycleToken(rawToken), now)).completedTokens
  {
    hide CanonicalFields, Texts.NormalizeRecycleToken, LastTokens, Dedupe;
    if RecycleToken(rawToken).Some? {
      Texts.NormalizeRecycleTokenTwice(rawToken.value);
      CompleteKeepsNormal(s.completedTokens, RecycleToken(rawToken).value);
    }
  }

  // Every call of the gate other than completing a recovery.
  lemma CallKeeps(s: System, p: Process, step: Step)
    requires s.proc == Some(p) && !step.Completing? && !step.Starting? && !step.Crash? && !step.PowerLoss?
    ensures var s' := Call(s, p, step); s'.proc.Some? && Keeps(s.store, p, s'.store, s'.proc.value)
  {
    hide Keeps, Content, MarkTeardown, Reject, Record, Admit, Reconcile, Prepare, IsRecoveryRequired, GuidClaim, Cutoff;
    match step
    case Teardown(env, opts) => MarkTeardownKeeps(s.store, p, env.now, env.readable, env.write, opts);
    case Checking(env, t) => RejectKeeps(s.store, p, env, t);
    case Recording(env, session, active) => RecordKeeps(s.store, p, env, session, active);
    case Admitting(env, recordEnv, c) => AdmitKeeps(s.store, p, env, recordEnv, c);
    case Reconciling(env, target) => ReconcileKeeps(s.store, p, env, target);
    case Asking(readable) => AskKeeps(s.store, p, readable);
    case Preparing(env) => PrepareKeeps(s.store, p, env);
    case Blocking(reason) => Unchanged(s.store, p, SetJournalBlock(p, reason));
    case Flush => Unchanged(s.store, p, p);
  }

  lemma Unchanged(st: Store, p: Process, p': Process)
    requires p'.failure == p.failure
    ensures Keeps(st, p, st, p')
  {
  }
}
