// Over every run of the gate the durable cutoff only rises, and torn-down tickets stay out.
module RuntimeGateSafety {
  import opened Wrappers
  import opened RuntimeSnapshot
  import opened RuntimeGate
  import opened RuntimeGateRuns
  import Texts

  // ---- the cutoff never falls ----

  ghost predicate Floor(st: Store, floor: int) {
    StoreInv(st) && floor <= Cutoff(Content(st.synced)) <= Cutoff(Content(st.visible))
  }

  ghost predicate Grows(st: Store, st': Store) {
    && StoreInv(st')
    && Cutoff(Content(st.visible)) <= Cutoff(Content(st'.visible))
    && (st'.synced == st.synced || st'.synced == st'.visible)
  }

  lemma EffectGrows(st: Store, st': Store, s': Snapshot, ok: bool)
    requires StoreInv(st) && Effect(st, st', s', ok)
    requires Cutoff(Content(st.visible)) <= s'.cutoff.GetOr(-1)
    ensures Grows(st, st')
  {
    hide Parse, Canonical;
  }

  lemma MarkTeardownGrows(st: Store, p: Process, now: nat, readable: bool, write: WriteOutcome, opts: TeardownOptions)
    requires StoreInv(st)
    ensures var (st', _, reply) := MarkTeardown(st, p, now, readable, write, opts);
            && Grows(st, st')
            && (reply == Returned(true) ==>
                  st'.synced == st'.visible && AskedSecond(now, opts.occurredAt) <= Cutoff(Content(st'.visible)))
  {
    hide Parse, Canonical, ToDocument, Normalized;
    var (st', _, reply) := MarkTeardown(st, p, now, readable, write, opts);
    MarkTeardownEffect(st, p, now, readable, write, opts);
    var found := Inspect(st, readable);
    if found.Found? && HasUtc(TeardownCutoff(found.s, now, opts)) && HasUtc(now) {
      FoundIsCanonical(st, readable);
      EffectGrows(st, st', TornDown(found.s, now, opts), reply == Returned(true));
    }
  }

  lemma AdmitUnfolds(st: Store, p: Process, rejectEnv: Env, recordEnv: Env, c: Claims)
    ensures var (st', p', ok) := Admit(st, p, rejectEnv, recordEnv, c);
            var session, active := GuidClaim(c.session), GuidClaim(c.active);
            var p1 := Reject(st, p, rejectEnv, Ticket(if c.iat.Some? then c.iat else c.nbf, session)).0;
            || (st' == st && (ok ==> session.None?))
            || (session.Some? && st' == Record(st, p1, recordEnv, session.value, active).0
                && (ok <==> Record(st, p1, recordEnv, session.value, active).2 == Returned(None)))
  {
    hide Record, Reject;
  }

  lemma RecordGrows(st: Store, p: Process, env: Env, session: string, active: Option<string>)
    requires StoreInv(st)
    ensures Grows(st, Record(st, p, env, session, active).0)
  {
    hide Parse, Canonical, ToDocument, Normalized, Texts.NormalizeGuid;
    var (st', _, reply) := Record(st, p, env, session, active);
    RecordEffect(st, p, env, session, active);
    var found := Inspect(st, env.readable);
    if st' != st {
      FoundIsCanonical(st, env.readable);
      var g := Texts.NormalizeGuid(session);
      var a := if active.Some? then Texts.NormalizeGuid(active.value) else None;
      EffectGrows(st, st', Recorded(found.s, g.value, a, env.now), reply == Returned(None));
    }
  }

  lemma ReleaseGrows(st: Store, p: Process, env: Env, token: Option<string>)
    requires StoreInv(st)
    ensures Grows(st, Reconcile(st, p, env, token).0)
    ensures Grows(st, CompleteRecovery(st, p, env, token).0)
  {
    hide Parse, Canonical, ToDocument, Normalized, Texts.NormalizeGuid, Texts.NormalizeRecycleToken, LastTokens, Dedupe;
    ReconcileEffect(st, p, env, token);
    CompleteRecoveryEffect(st, p, env, token);
    var (st', _, reply) := Reconcile(st, p, env, token);
    var (st'', _, reply') := CompleteRecovery(st, p, env, token);
    var found := Inspect(st, env.readable);
    if found.Found? {
      FoundIsCanonical(st, env.readable);
    }
    if st' != st {
      EffectGrows(st, st', Released(found.s, env.now, p.skew), reply == Returned(true));
    }
    if st'' != st {
      EffectGrows(st, st'', Fenced(Recovered(found.s, RecycleToken(token), env.now)), reply' == Returned(true));
    }
  }

  lemma PrepareGrows(st: Store, p: Process, env: Env)
    requires StoreInv(st)
    ensures Grows(st, Prepare(st, p, env).0)
  {
    hide Parse, Canonical, ToDocument, Normalized;
    PrepareEffect(st, p, env);
    var (st', _, reply) := Prepare(st, p, env);
    var found := Inspect(st, env.readable);
    if st' != st {
      FoundIsCanonical(st, env.readable);
      EffectGrows(st, st', Prepared(found.s, env.now, p.skew), reply != Returned(None));
    }
  }

  lemma RecoverCommandGrows(st: Store, p: Process, e: StartEnv)
    requires StoreInv(st)
    ensures var (st', reply) := RecoverCommand(st, p, e);
            && Grows(st, st')
            && (reply.Returned? && CommandNeedsTeardown(st, e) ==>
                  st'.synced == st'.visible
                  && AskedSecond(e.now, Some(e.command.value.requestedAt)) <= Cutoff(Content(st'.visible)))
            && (!CommandNeedsTeardown(st, e) ==> st' == st)
  {
    hide Inspect, MarkTeardown, Content, StoreInv, AskedSecond;
    if CommandNeedsTeardown(st, e) {
      var c := e.command.value;
      MarkTeardownGrows(st, p, e.now, e.commandTeardownReadable, e.commandWrite,
        TeardownOptions(Some(c.requestedAt), Some(Plain("recovered_active_teardown_command")),
                        Some(Plain(c.commandType)), Some(Plain(c.commandId))));
    }
  }

  lemma RecoverDesiredGrows(st: Store, p: Process, e: StartEnv)
    requires StoreInv(st)
    ensures var (st', reply) := RecoverDesired(st, p, e);
            && Grows(st, st')
            && (reply.Returned? && DesiredNeedsTeardown(st, e) ==>
                  st'.synced == st'.visible && AskedSecond(e.now, e.desired.updatedAt) <= Cutoff(Content(st'.visible)))
            && (!DesiredNeedsTeardown(st, e) ==> st' == st)
  {
    hide Inspect, MarkTeardown, Content, StoreInv, AskedSecond;
    if DesiredNeedsTeardown(st, e) {
      var reason := if e.desired.recycleToken.Some?
                    then "recovered_desired_state_recycle_request" else "recovered_desired_state_shutdown_request";
      MarkTeardownGrows(st, p, e.now, e.desiredTeardownReadable, e.desiredWrite,
        TeardownOptions(e.desired.updatedAt, Some(Plain(reason)), None, None));
    }
  }

  lemma OpenStateGrows(st: Store, e: StartEnv)
    requires StoreInv(st)
    ensures Grows(st, OpenState(st, e).0)
  {
    hide Parse, Canonical, ToDocument, Normalized;
    OpenStateEffect(st, e);
    var (st', reply) := OpenState(st, e);
    if st' != st {
      EffectGrows(st, st', Baseline(e.now), reply.Returned?);
    }
  }

  lemma GrowsKeepsFloor(st: Store, st': Store, floor: int)
    requires Floor(st, floor) && Grows(st, st')
    ensures Floor(st', floor)
  {
    hide Parse, Cutoff;
  }

  lemma GrowsRaises(st: Store, st': Store)
    requires Grows(st, st') && StoreInv(st)
    ensures Cutoff(Content(st.visible)) <= Cutoff(Content(st'.visible)) && -1 <= Cutoff(Content(st'.visible))
  {
    hide Parse, Canonical;
    if Content(st'.visible).Some? {
      ReaderIsStrict(st'.visible.value);
      CanonicalHasCutoff(Content(st'.visible).value);
    }
  }

  lemma StartKeepsFloor(st: Store, e: StartEnv, floor: int)
    requires Floor(st, floor)
    ensures Floor(Start(st, e).0, floor)
    ensures StartTearsDown(st, e) ==> Start(st, e).0.synced == Start(st, e).0.visible
                                      && StartAsked(st, e) <= Cutoff(Content(Start(st, e).0.visible))
  {
    hide Parse, Cutoff, Grows, OpenState, RecoverCommand, RecoverDesired, CommandNeedsTeardown, DesiredNeedsTeardown, AskedSecond;
    var (st1, r1) := OpenState(st, e);
    OpenStateGrows(st, e);
    GrowsKeepsFloor(st, st1, floor);
    if r1.Returned? {
      var (st2, r2) := RecoverCommand(st1, r1.value, e);
      RecoverCommandGrows(st1, r1.value, e);
      GrowsKeepsFloor(st1, st2, floor);
      if r2.Returned? {
        RecoverDesiredGrows(st2, r2.value, e);
        GrowsKeepsFloor(st2, RecoverDesired(st2, r2.value, e).0, floor);
        GrowsRaises(st2, RecoverDesired(st2, r2.value, e).0);
      }
    }
  }

  lemma CallGrows(s: System, p: Process, step: Step)
    requires StoreInv(s.store)
    ensures Grows(s.store, Call(s, p, step).store)
    ensures Call(s, p, step).hist.torn == s.hist.torn ||
            (Call(s, p, step).store.synced == Call(s, p, step).store.visible &&
             step.Teardown? && AskedSecond(step.env.now, step.opts.occurredAt) <= Cutoff(Content(Call(s, p, step).store.visible)) &&
             Call(s, p, step).hist.torn <= Max(s.hist.torn, Cutoff(Content(Call(s, p, step).store.visible))))
  {
    hide StoreInv, Content, Cutoff, MarkTeardown, Reject, Record, Admit, Reconcile, Prepare, CompleteRecovery, GuidClaim;
    GrowsReflexive(s.store);
    match step
    case Teardown(env, opts) => MarkTeardownGrows(s.store, p, env.now, env.readable, env.write, opts);
    case Recording(env, session, active) => RecordGrows(s.store, p, env, session, active);
    case Admitting(env, recordEnv, c) =>
      AdmitUnfolds(s.store, p, env, recordEnv, c);
      var session := GuidClaim(c.session);
      if session.Some? {
        var p1 := Reject(s.store, p, env, Ticket(if c.iat.Some? then c.iat else c.nbf, session)).0;
        RecordGrows(s.store, p1, recordEnv, session.value, GuidClaim(c.active));
      }
    case Reconciling(env, target) => ReleaseGrows(s.store, p, env, target);
    case Completing(env, token) => ReleaseGrows(s.store, p, env, token);
    case Preparing(env) => PrepareGrows(s.store, p, env);
    case _ =>
  }

  lemma GrowsReflexive(st: Store)
    requires StoreInv(st)
    ensures Grows(st, st)
  {
  }

  ghost predicate CutoffInv(s: System) {
    StoreInv(s.store) && s.hist.torn <= Cutoff(Content(s.store.synced)) <= Cutoff(Content(s.store.visible))
  }

  // Any floor under the durable cutoff stays under it, and the torn-down cutoffs are such a floor.
  lemma NextKeepsCutoff(s: System, step: Step, floor: int)
    requires CutoffInv(s) && Floor(s.store, floor)
    ensures CutoffInv(Next(s, step)) && Floor(Next(s, step).store, floor)
  {
    hide Parse, Cutoff, Start, Call, Grows, StartTearsDown;
    var t := Next(s, step);
    match step
    case Starting(e) =>
      if s.proc.None? {
        StartKeepsFloor(s.store, e, floor);
        StartKeepsFloor(s.store, e, s.hist.torn);
      }
    case Crash =>
    case Flush =>
    case PowerLoss =>
    case _ =>
      if s.proc.Some? {
        CallGrows(s, s.proc.value, step);
        GrowsKeepsFloor(s.store, t.store, floor);
        GrowsKeepsFloor(s.store, t.store, s.hist.torn);
      }
  }

  lemma {:induction false} RunKeepsCutoff(s: System, steps: seq<Step>, floor: int)
    requires CutoffInv(s) && Floor(s.store, floor)
    ensures CutoffInv(Run(s, steps)) && Floor(Run(s, steps).store, floor)
  {
    hide CutoffInv, Floor, Next;
    if steps != [] {
      RunKeepsCutoff(s, steps[..|steps| - 1], floor);
      NextKeepsCutoff(Run(s, steps[..|steps| - 1]), steps[|steps| - 1], floor);
    }
  }

  lemma {:induction false} Reached(steps: seq<Step>)
    ensures CutoffInv(Run(INITIAL, steps))
  {
    RunKeepsCutoff(INITIAL, steps, -1);
  }

  // Over every run, the cutoff that is certain to survive never decreases.
  lemma DurableCutoffNeverDecreases(steps: seq<Step>, more: seq<Step>)
    ensures Cutoff(Content(Run(INITIAL, steps).store.synced)) <=
            Cutoff(Content(Run(Run(INITIAL, steps), more).store.synced))
  {
    hide Parse, Cutoff, Next;
    Reached(steps);
    RunKeepsCutoff(Run(INITIAL, steps), more, Cutoff(Content(Run(INITIAL, steps).store.synced)));
  }

  // A ticket the gate does not refuse was issued after the cutoff in the file.
  lemma PassedTicketIsNewer(st: Store, p: Process, env: Env, t: Ticket)
    requires Reject(st, p, env, t).1.None?
    ensures t.issuedAt.Some? && t.issuedAt.value > Cutoff(Content(st.visible))
    ensures Content(st.visible).Some? && !Content(st.visible).value.recoveryRequired
  {
    hide Canonical, Acceptable, Normalize, ControlRefusal, SessionText, SameSession;
    FoundIsCanonical(st, env.readable);
    CanonicalHasCutoff(Content(st.visible).value);
  }

  lemma CanonicalHasCutoff(s: Snapshot)
    requires Canonical(s)
    ensures s.cutoff.Some? && s.cutoff.value >= 0
  {
    hide NormalFence, NormalText, NormalGuid, DateParse, UtcSeconds;
  }

  // Whatever happened before - failed writes, crashes, restarts, power failures - no ticket
  // passes without an issue time, or with one at or before the second for which a teardown that
  // ever reported success was asked, or the cutoff it left on file.
  lemma TornDownTicketsNeverPass(steps: seq<Step>, env: Env, t: Ticket)
    requires Run(INITIAL, steps).proc.Some?
    requires Reject(Run(INITIAL, steps).store, Run(INITIAL, steps).proc.value, env, t).1.None?
    ensures t.issuedAt.Some? && t.issuedAt.value > Run(INITIAL, steps).hist.torn
  {
    hide Reject, Cutoff, Content, Next;
    Reached(steps);
    PassedTicketIsNewer(Run(INITIAL, steps).store, Run(INITIAL, steps).proc.value, env, t);
  }

  // What a teardown that reports success leaves on file, synced: the latch, without a margin, and as
  // cutoff the later of the old one and the second it was asked for.
  lemma TeardownFences(st: Store, p: Process, now: nat, readable: bool, write: WriteOutcome, opts: TeardownOptions)
    requires MarkTeardown(st, p, now, readable, write, opts).2 == Returned(true)
    ensures readable && Content(st.visible).Some? && Content(st.visible).value.cutoff.Some?
    ensures var (st', p', _) := MarkTeardown(st, p, now, readable, write, opts);
            var s' := Content(st'.visible);
            && st'.synced == st'.visible && s'.Some? && p'.failure.None?
            && s'.value.cutoff == Some(Max(Content(st.visible).value.cutoff.value, AskedSecond(now, opts.occurredAt)))
            && s'.value.recoveryRequired && s'.value.readyNotBefore.None?
            && s'.value.viewerRequest == Content(st.visible).value.viewerRequest
            && s'.value.completedTokens == Content(st.visible).value.completedTokens
  {
    hide Parse, Canonical, ToDocument, Normalized;
    MarkTeardownEffect(st, p, now, readable, write, opts);
    FoundIsCanonical(st, readable);
    CanonicalHasCutoff(Content(st.visible).value);
  }

  // Such a teardown enters the history with the second it was asked for, and with its cutoff.
  lemma TeardownIsRemembered(s: System, env: Env, opts: TeardownOptions)
    requires s.proc.Some?
    requires MarkTeardown(s.store, s.proc.value, env.now, env.readable, env.write, opts).2 == Returned(true)
    ensures Next(s, Teardown(env, opts)).hist.torn >= AskedSecond(env.now, opts.occurredAt)
    ensures Next(s, Teardown(env, opts)).hist.torn >= Cutoff(Content(s.store.visible))
  {
    hide Parse, Canonical, ToDocument, Normalized, Content, AskedSecond;
    TeardownFences(s.store, s.proc.value, env.now, env.readable, env.write, opts);
  }
}
