// The two clock margins around a commercial recovery. The issuer's clock stays within
// `skew` seconds of the local one, so a ticket issued at local time t carries an issue
// time between t - skew and t + skew.
module RuntimeGateMargins {
  import opened Wrappers
  import opened RuntimeSnapshot
  import opened RuntimeGate
  import opened RuntimeGateRuns
  import opened RuntimeGateSafety
  import Ownership = RuntimeGateOwnership
  import Texts

  // ---- the margin in the file ----

  ghost predicate Margin(d: Option<Document>, skew: nat) {
    var c := Content(d);
    c.Some? && c.value.readyNotBefore.Some? ==> c.value.readyNotBefore.value == Cutoff(c) + skew
  }

  ghost predicate MarginInv(s: System, skew: nat) {
    && Margin(s.store.visible, skew) && Margin(s.store.synced, skew)
    && (s.proc.Some? ==> s.proc.value.skew == skew)
  }

  predicate FixedSkew(step: Step, skew: nat) {
    step.Starting? ==> step.start.skew == skew
  }

  ghost predicate AllFixedSkew(steps: seq<Step>, skew: nat) {
    forall i :: 0 <= i < |steps| ==> FixedSkew(steps[i], skew)
  }

  ghost predicate KeepsMargin(st: Store, st': Store, skew: nat) {
    Margin(st.visible, skew) && Margin(st.synced, skew) ==> Margin(st'.visible, skew) && Margin(st'.synced, skew)
  }

  ghost predicate RightMargin(s: Snapshot, skew: nat) {
    s.readyNotBefore.Some? ==> s.readyNotBefore.value == s.cutoff.GetOr(-1) + skew
  }

  lemma EffectKeepsMargin(st: Store, st': Store, s': Snapshot, ok: bool, skew: nat)
    requires Effect(st, st', s', ok)
    requires RightMargin(s', skew)
    ensures KeepsMargin(st, st', skew)
  {
    hide Parse, Canonical;
  }

  // A teardown drops the margin, so it can never be left over from an older cutoff.
  lemma MarkTeardownKeepsMargin(st: Store, p: Process, now: nat, readable: bool, write: WriteOutcome,
                                opts: TeardownOptions, skew: nat)
    ensures KeepsMargin(st, MarkTeardown(st, p, now, readable, write, opts).0, skew)
    ensures MarkTeardown(st, p, now, readable, write, opts).1.skew == p.skew
  {
    hide Parse, Canonical, ToDocument, Normalized;
    var (st', _, reply) := MarkTeardown(st, p, now, readable, write, opts);
    MarkTeardownEffect(st, p, now, readable, write, opts);
    var found := Inspect(st, readable);
    if st' != st {
      EffectKeepsMargin(st, st', TornDown(found.s, now, opts), reply == Returned(true), skew);
    }
  }

  lemma PrepareKeepsMargin(st: Store, p: Process, env: Env)
    ensures KeepsMargin(st, Prepare(st, p, env).0, p.skew)
  {
    hide Parse, Canonical, ToDocument, Normalized;
    PrepareEffect(st, p, env);
    var (st', _, reply) := Prepare(st, p, env);
    if st' != st {
      var found := Inspect(st, env.readable);
      EffectKeepsMargin(st, st', Prepared(found.s, env.now, p.skew), reply != Returned(None), p.skew);
    }
  }

  lemma ReleaseKeepsMargin(st: Store, p: Process, env: Env, token: Option<string>, skew: nat)
    ensures KeepsMargin(st, Reconcile(st, p, env, token).0, skew)
    ensures KeepsMargin(st, CompleteRecovery(st, p, env, token).0, skew)
  {
    hide Parse, CanonicalFields, NormalFence, ToDocument, Normalized, Texts.NormalizeGuid, Texts.NormalizeRecycleToken,
      LastTokens, Dedupe;
    ReconcileEffect(st, p, env, token);
    CompleteRecoveryEffect(st, p, env, token);
    var (st', _, reply) := Reconcile(st, p, env, token);
    var (st'', _, reply') := CompleteRecovery(st, p, env, token);
    var found := Inspect(st, env.readable);
    if st' != st {
      FoundIsCanonical(st, env.readable);
      NoMarginOutsideRecovery(found.s);
      EffectKeepsMargin(st, st', Released(found.s, env.now, p.skew), reply == Returned(true), skew);
    }
    if st'' != st {
      EffectKeepsMargin(st, st'', Fenced(Recovered(found.s, RecycleToken(token), env.now)), reply' == Returned(true), skew);
    }
  }

  lemma NoMarginOutsideRecovery(s: Snapshot)
    requires Canonical(s) && !s.recoveryRequired
    ensures s.readyNotBefore.None?
  {
    hide NormalFence, NormalText, NormalGuid, DateParse, UtcSeconds;
  }

  lemma RecordKeepsMargin(st: Store, p: Process, env: Env, session: string, active: Option<string>, skew: nat)
    requires Margin(st.visible, skew)
    ensures KeepsMargin(st, Record(st, p, env, session, active).0, skew)
    ensures Record(st, p, env, session, active).1.skew == p.skew
  {
    hide Parse, Canonical, ToDocument, Normalized, Texts.NormalizeGuid;
    RecordEffect(st, p, env, session, active);
    var (st', _, reply) := Record(st, p, env, session, active);
    if st' != st {
      var found := Inspect(st, env.readable);
      FoundIsCanonical(st, env.readable);
      CanonicalHasCutoff(found.s);
      var a := if active.Some? then Texts.NormalizeGuid(active.value) else None;
      EffectKeepsMargin(st, st', Recorded(found.s, Texts.NormalizeGuid(session).value, a, env.now), reply == Returned(None), skew);
    }
  }

  lemma StartKeepsMargin(st: Store, e: StartEnv)
    ensures KeepsMargin(st, Start(st, e).0, e.skew)
    ensures Start(st, e).1.Returned? ==> Start(st, e).1.value.skew == e.skew
  {
    hide KeepsMargin, OpenState, RecoverCommand, RecoverDesired;
    var (st1, r1) := OpenState(st, e);
    OpenStateKeepsMargin(st, e);
    if r1.Returned? {
      var (st2, r2) := RecoverCommand(st1, r1.value, e);
      RecoveriesKeepMargin(st1, r1.value, e);
      KeepsMarginTwice(st, st1, st2, e.skew);
      if r2.Returned? {
        RecoveriesKeepMargin(st2, r2.value, e);
        KeepsMarginTwice(st, st2, RecoverDesired(st2, r2.value, e).0, e.skew);
      }
    }
  }

  lemma KeepsMarginTwice(a: Store, b: Store, c: Store, skew: nat)
    requires KeepsMargin(a, b, skew) && KeepsMargin(b, c, skew)
    ensures KeepsMargin(a, c, skew)
  {
  }

  lemma RecoveriesKeepMargin(st: Store, p: Process, e: StartEnv)
    ensures KeepsMargin(st, RecoverCommand(st, p, e).0, e.skew) && KeepsMargin(st, RecoverDesired(st, p, e).0, e.skew)
    ensures RecoverCommand(st, p, e).1.Returned? ==> RecoverCommand(st, p, e).1.value.skew == p.skew
    ensures RecoverDesired(st, p, e).1.Returned? ==> RecoverDesired(st, p, e).1.value.skew == p.skew
  {
    hide Margin, MarkTeardown, TokenCompletion, CommandStatus;
    if CommandNeedsTeardown(st, e) {
      var c := e.command.value;
      MarkTeardownKeepsMargin(st, p, e.now, e.commandTeardownReadable, e.commandWrite,
        TeardownOptions(Some(c.requestedAt), Some(Plain("recovered_active_teardown_command")),
                        Some(Plain(c.commandType)), Some(Plain(c.commandId))), e.skew);
    }
    if DesiredNeedsTeardown(st, e) {
      var reason := if e.desired.recycleToken.Some?
                    then "recovered_desired_state_recycle_request" else "recovered_desired_state_shutdown_request";
      MarkTeardownKeepsMargin(st, p, e.now, e.desiredTeardownReadable, e.desiredWrite,
        TeardownOptions(e.desired.updatedAt, Some(Plain(reason)), None, None), e.skew);
    }
  }

  lemma OpenStateKeepsMargin(st: Store, e: StartEnv)
    ensures KeepsMargin(st, OpenState(st, e).0, e.skew)
    ensures OpenState(st, e).1.Returned? ==> OpenState(st, e).1.value.skew == e.skew
  {
    hide Parse, Canonical, ToDocument, Normalized;
    OpenStateEffect(st, e);
    var (st', reply) := OpenState(st, e);
    if st' != st {
      EffectKeepsMargin(st, st', Baseline(e.now), reply.Returned?, e.skew);
    }
  }

  lemma CallKeepsMargin(s: System, p: Process, step: Step, skew: nat)
    requires MarginInv(s, skew) && s.proc == Some(p)
    ensures MarginInv(Call(s, p, step), skew)
  {
    hide Content, Cutoff, Margin, MarkTeardown, Record, Reconcile, Prepare, CompleteRecovery, Inspect, GuidClaim, ControlRefusal,
      SnapshotRefusal, SessionText;
    match step
    case Teardown(env, opts) => MarkTeardownKeepsMargin(s.store, p, env.now, env.readable, env.write, opts, skew);
    case Recording(env, session, active) => RecordKeepsMargin(s.store, p, env, session, active, skew);
    case Admitting(env, recordEnv, c) =>
      var session := GuidClaim(c.session);
      if session.Some? {
        var p1 := Reject(s.store, p, env, Ticket(if c.iat.Some? then c.iat else c.nbf, session)).0;
        RecordKeepsMargin(s.store, p1, recordEnv, session.value, GuidClaim(c.active), skew);
      }
    case Reconciling(env, target) =>
      ReleaseKeepsMargin(s.store, p, env, target, skew);
      ReconcileEffect(s.store, p, env, target);
    case Completing(env, token) =>
      ReleaseKeepsMargin(s.store, p, env, token, skew);
      CompleteRecoveryEffect(s.store, p, env, token);
    case Preparing(env) =>
      PrepareKeepsMargin(s.store, p, env);
      PrepareEffect(s.store, p, env);
    case _ =>
  }

  lemma {:induction false} RunKeepsMargin(s: System, steps: seq<Step>, skew: nat)
    requires MarginInv(s, skew) && AllFixedSkew(steps, skew)
    ensures MarginInv(Run(s, steps), skew)
  {
    hide Content, Cutoff, Margin, Start, Call, StartTearsDown;
    if steps != [] {
      var front, last := steps[..|steps| - 1], steps[|steps| - 1];
      RunKeepsMargin(s, front, skew);
      var before := Run(s, front);
      if last.Starting? {
        StartKeepsMargin(before.store, last.start);
      } else if before.proc.Some? {
        CallKeepsMargin(before, before.proc.value, last, skew);
      }
    }
  }

  // ---- cleanup-era tickets stay out ----

  // What a successful preparation guarantees about the cutoff, exactly: it covers every
  // ticket issued up to this call unless an earlier preparation had already fixed a lower one.
  lemma PrepareFencesUpToNow(st: Store, p: Process, env: Env)
    requires Prepare(st, p, env).2.Returned? && Prepare(st, p, env).2.value.Some?
    ensures Inspect(st, env.readable).Found?
    ensures var s := Inspect(st, env.readable).s;
            Cutoff(Content(Prepare(st, p, env).0.visible)) >= env.now + p.skew
            <==> s.readyNotBefore.None? || Cutoff(Some(s)) >= env.now + p.skew
  {
    hide Parse, Canonical, ToDocument, Normalized;
    PrepareEffect(st, p, env);
    var found := Inspect(st, env.readable);
    if found.Found? {
      FoundIsCanonical(st, env.readable);
      CanonicalHasCutoff(found.s);
    }
  }

  // The file after a first start, a teardown at 2 and a preparation at 3.
  lemma PreparedAtThree(s: System)
    requires s.proc.Some? && s.proc.value.skew == 0 && Ownership.OpenFile(s.store.visible, None, 1)
    ensures var t := Next(Next(s, Teardown(Ownership.Calm(2, Landed), Ownership.NO_OPTIONS)), Preparing(Ownership.Calm(3, Landed)));
            var c := Content(t.store.visible);
            && t.proc.Some? && t.proc.value.skew == 0
            && c.Some? && c.value.recoveryRequired && c.value.cutoff == Some(3) && c.value.readyNotBefore == Some(3)
  {
    hide Parse, Canonical, ToDocument, Normalized, Cutoff;
    var c0 := Content(s.store.visible).value;
    TornDownCanonical(c0, 2, Ownership.NO_OPTIONS);
    Ownership.TornDownFields(c0);
    WriteCanonical(s.store, TornDown(c0, 2, Ownership.NO_OPTIONS), Landed);
    var t1 := Next(s, Teardown(Ownership.Calm(2, Landed), Ownership.NO_OPTIONS));
    PreparedCanonical(TornDown(c0, 2, Ownership.NO_OPTIONS), 3, 0);
    WriteCanonical(t1.store, Prepared(TornDown(c0, 2, Ownership.NO_OPTIONS), 3, 0), Landed);
  }

  // A run after which every later preparation answers with the old margin, and leaves the cutoff below
  // the tickets issued up to it.
  lemma SecondPreparationIsLower(now: nat, write: WriteOutcome)
    requires now > 3
    ensures var steps := [Ownership.CalmStart(Landed), Teardown(Ownership.Calm(2, Landed), Ownership.NO_OPTIONS),
                          Preparing(Ownership.Calm(3, Landed))];
            var s := Run(INITIAL, steps);
            && s.proc.Some?
            && Prepare(s.store, s.proc.value, Ownership.Calm(now, write)).2 == Returned(Some(3))
            && Cutoff(Content(Prepare(s.store, s.proc.value, Ownership.Calm(now, write)).0.visible)) < now + s.proc.value.skew
  {
    hide Next, Ownership.OpenFile;
    var steps := [Ownership.CalmStart(Landed), Teardown(Ownership.Calm(2, Landed), Ownership.NO_OPTIONS),
                  Preparing(Ownership.Calm(3, Landed))];
    var s1 := Next(INITIAL, steps[0]);
    Ownership.FreshStart(INITIAL.store);
    PreparedAtThree(s1);
    Ownership.RunPrefixes(INITIAL, steps);
    assert Run(INITIAL, steps[..0 + 1]) == s1;
    assert Run(INITIAL, steps[..1 + 1]) == Next(s1, steps[1]);
    assert Run(INITIAL, steps[..2 + 1]) == Next(Next(s1, steps[1]), steps[2]);
    PreparesAgain(Run(INITIAL, steps), now, write);
  }

  lemma PreparesAgain(s: System, now: nat, write: WriteOutcome)
    requires now > 3 && s.proc.Some?
    requires var c := Content(s.store.visible);
             c.Some? && c.value.recoveryRequired && c.value.cutoff == Some(3) && c.value.readyNotBefore == Some(3)
    ensures Prepare(s.store, s.proc.value, Ownership.Calm(now, write)).2 == Returned(Some(3))
    ensures Prepare(s.store, s.proc.value, Ownership.Calm(now, write)).0 == s.store && Cutoff(Content(s.store.visible)) == 3
  {
    hide Acceptable, Normalize;
  }

  // Every ticket issued up to the preparation that fixed the margin is refused for ever.
  lemma IssuedUpToPrepareNeverPasses(steps: seq<Step>, env: Env, more: seq<Step>, later: Env, t: Ticket)
    requires Run(INITIAL, steps).proc.Some?
    requires var s := Run(INITIAL, steps);
             && Inspect(s.store, env.readable).Found? && Inspect(s.store, env.readable).s.readyNotBefore.None?
             && Prepare(s.store, s.proc.value, env).2.Returned?
             && Prepare(s.store, s.proc.value, env).2.value.Some?
    requires t.issuedAt.Some? && t.issuedAt.value <= env.now + Run(INITIAL, steps).proc.value.skew
    requires Run(Next(Run(INITIAL, steps), Preparing(env)), more).proc.Some?
    ensures var end := Run(Next(Run(INITIAL, steps), Preparing(env)), more);
            Reject(end.store, end.proc.value, later, t).1.Some?
  {
    hide Parse, Cutoff, Reject, Start, Call, StartTearsDown, Inspect, Prepare;
    var s := Run(INITIAL, steps);
    var p := s.proc.value;
    var prepared := Next(s, Preparing(env));
    Reached(steps);
    PrepareFencesUpToNow(s.store, p, env);
    PreparedStore(s, p, env);
    RunKeepsCutoff(s, [Preparing(env)], Cutoff(Content(s.store.synced)));
    assert Run(s, [Preparing(env)]) == prepared by {
      assert [Preparing(env)][..0] == [];
    }
    RunKeepsCutoff(prepared, more, env.now + p.skew);
    var end := Run(prepared, more);
    if Reject(end.store, end.proc.value, later, t).1.None? {
      PassedTicketIsNewer(end.store, end.proc.value, later, t);
    }
  }

  lemma PreparedStore(s: System, p: Process, env: Env)
    requires s.proc == Some(p)
    requires Prepare(s.store, p, env).2.Returned? && Prepare(s.store, p, env).2.value.Some?
    requires Inspect(s.store, env.readable).Found? && Inspect(s.store, env.readable).s.readyNotBefore.None?
    ensures Next(s, Preparing(env)).store == Prepare(s.store, p, env).0
    ensures Next(s, Preparing(env)).store.synced == Next(s, Preparing(env)).store.visible
  {
    hide Parse, Canonical, ToDocument, Normalized, Inspect;
    PrepareEffect(s.store, p, env);
  }

  // ---- new tickets get in ----

  // Once a recovery has been completed, a ticket issued from then on is newer than the cutoff,
  // and stays so for as long as the cutoff does not move.
  lemma IssuedAfterRecoveryPasses(steps: seq<Step>, skew: nat, env: Env, token: Option<string>, more: seq<Step>, t: Ticket)
    requires AllFixedSkew(steps, skew)
    requires Run(INITIAL, steps).proc.Some?
    requires var s := Run(INITIAL, steps);
             && Inspect(s.store, env.readable).Found? && Inspect(s.store, env.readable).s.recoveryRequired
             && CompleteRecovery(s.store, s.proc.value, env, token).2 == Returned(true)
    requires t.issuedAt.Some? && t.issuedAt.value >= env.now - skew
    ensures var done := Next(Run(INITIAL, steps), Completing(env, token));
            var end := Run(done, more);
            && t.issuedAt.value > Cutoff(Content(done.store.visible))
            && (end.proc.Some? && Content(end.store.visible).Some?
                && Cutoff(Content(end.store.visible)) == Cutoff(Content(done.store.visible)) ==>
                  var refusal := SnapshotRefusal(Content(end.store.visible).value, end.proc.value, t);
                  refusal != Some(NoIssueTime) && refusal != Some(IssuedBeforeTeardown))
  {
    hide Parse, Start, Call, StartTearsDown, Inspect, CompleteRecovery;
    var s := Run(INITIAL, steps);
    RunKeepsMargin(INITIAL, steps, skew);
    CompletedCutoff(s, s.proc.value, env, token, skew);
  }

  lemma CompletedCutoff(s: System, p: Process, env: Env, token: Option<string>, skew: nat)
    requires s.proc == Some(p) && MarginInv(s, skew)
    requires Inspect(s.store, env.readable).Found? && Inspect(s.store, env.readable).s.recoveryRequired
    requires CompleteRecovery(s.store, p, env, token).2 == Returned(true)
    ensures Cutoff(Content(Next(s, Completing(env, token)).store.visible)) + skew < env.now
  {
    hide Parse, Canonical, CanonicalFields, NormalFence, ToDocument, Normalized, LastTokens, Dedupe, Texts.NormalizeRecycleToken;
    FoundIsCanonical(s.store, env.readable);
    CompleteRecoveryEffect(s.store, p, env, token);
    CanonicalHasCutoff(Inspect(s.store, env.readable).s);
  }
}
