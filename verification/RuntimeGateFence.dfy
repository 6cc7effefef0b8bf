// The fence of completed recycle tokens over every run of the gate: calls, failed writes, crashes,
// restarts and power failures in any order.
module RuntimeGateFence {
  import opened Wrappers
  import opened RuntimeSnapshot
  import opened RuntimeGate
  import opened RuntimeGateRuns
  import opened RuntimeGateSafety
  import opened RecycleGateFacts
  import Texts

  // A run and the tokens whose completion reached the file, in order: `reached` for the visible
  // file, `durable` for what a power failure goes back to.
  datatype Followed = Followed(sys: System, reached: seq<string>, durable: seq<string>)

  const BEGIN := Followed(INITIAL, [], [])

  // The step completes a recovery with a token, and the completion reaches the file: the latch was
  // there before and is gone after.
  predicate Reaches(f: Followed, step: Step) {
    && step.Completing? && f.sys.proc.Some? && RecycleToken(step.token).Some?
    && Latched(f.sys.store) && !Latched(Next(f.sys, step).store)
  }

  function Follow(f: Followed, step: Step): Followed {
    var sys := Next(f.sys, step);
    var reached := if step.PowerLoss? then f.durable
                   else if Reaches(f, step) then f.reached + [RecycleToken(step.token).value]
                   else f.reached;
    Followed(sys, reached,
             if sys.store.synced == sys.store.visible || sys.store.synced != f.sys.store.synced then reached else f.durable)
  }

  function FollowAll(f: Followed, steps: seq<Step>): Followed {
    if steps == [] then f else Follow(FollowAll(f, steps[..|steps| - 1]), steps[|steps| - 1])
  }

  // ---- calls that do not complete a recovery ----

  ghost predicate KeepsFence(st: Store, st': Store) {
    && Fence(st'.visible) == Fence(st.visible)
    && (st'.synced == st.synced || Fence(st'.synced) == Fence(st'.visible))
  }

  lemma EffectKeepsFence(st: Store, st': Store, s: Snapshot, s': Snapshot, ok: bool)
    requires Content(st.visible) == Some(s) && Effect(st, st', s', ok)
    requires s'.completedTokens == s.completedTokens
    ensures KeepsFence(st, st')
  {
    hide Parse, Canonical;
  }

  lemma MarkTeardownKeepsFence(st: Store, p: Process, now: nat, readable: bool, write: WriteOutcome, opts: TeardownOptions)
    ensures KeepsFence(st, MarkTeardown(st, p, now, readable, write, opts).0)
  {
    hide Parse, Canonical, ToDocument, Normalized, Fence;
    var (st', _, reply) := MarkTeardown(st, p, now, readable, write, opts);
    MarkTeardownEffect(st, p, now, readable, write, opts);
    if st' != st {
      FoundIsCanonical(st, readable);
      var s := Inspect(st, readable).s;
      EffectKeepsFence(st, st', s, TornDown(s, now, opts), reply == Returned(true));
    }
  }

  lemma RecordKeepsFence(st: Store, p: Process, env: Env, session: string, active: Option<string>)
    ensures KeepsFence(st, Record(st, p, env, session, active).0)
  {
    hide Parse, Canonical, ToDocument, Normalized, Texts.NormalizeGuid, Fence;
    var (st', _, reply) := Record(st, p, env, session, active);
    RecordEffect(st, p, env, session, active);
    if st' != st {
      FoundIsCanonical(st, env.readable);
      var s := Inspect(st, env.readable).s;
      var a := if active.Some? then Texts.NormalizeGuid(active.value) else None;
      EffectKeepsFence(st, st', s, Recorded(s, Texts.NormalizeGuid(session).value, a, env.now), reply == Returned(None));
    }
  }

  lemma ReconcileKeepsFence(st: Store, p: Process, env: Env, target: Option<string>)
    ensures KeepsFence(st, Reconcile(st, p, env, target).0)
  {
    hide Parse, Canonical, ToDocument, Normalized, Texts.NormalizeGuid, Fence;
    var (st', _, reply) := Reconcile(st, p, env, target);
    ReconcileEffect(st, p, env, target);
    if st' != st {
      FoundIsCanonical(st, env.readable);
      var s := Inspect(st, env.readable).s;
      EffectKeepsFence(st, st', s, Released(s, env.now, p.skew), reply == Returned(true));
    }
  }

  lemma PrepareKeepsFence(st: Store, p: Process, env: Env)
    ensures KeepsFence(st, Prepare(st, p, env).0)
  {
    hide Parse, Canonical, ToDocument, Normalized, Fence;
    var (st', _, reply) := Prepare(st, p, env);
    PrepareEffect(st, p, env);
    if st' != st {
      FoundIsCanonical(st, env.readable);
      var s := Inspect(st, env.readable).s;
      EffectKeepsFence(st, st', s, Prepared(s, env.now, p.skew), reply != Returned(None));
    }
  }

  lemma OpenStateKeepsFence(st: Store, e: StartEnv)
    ensures KeepsFence(st, OpenState(st, e).0)
  {
    hide Parse, Canonical, ToDocument, Normalized;
    OpenStateEffect(st, e);
  }

  lemma RecoveriesKeepFence(st: Store, p: Process, e: StartEnv)
    ensures KeepsFence(st, RecoverCommand(st, p, e).0)
    ensures KeepsFence(st, RecoverDesired(st, p, e).0)
  {
    hide KeepsFence, MarkTeardown, TokenCompletion, CommandStatus;
    KeepsFenceSelf(st);
    if CommandNeedsTeardown(st, e) {
      var c := e.command.value;
      MarkTeardownKeepsFence(st, p, e.now, e.commandTeardownReadable, e.commandWrite,
        TeardownOptions(Some(c.requestedAt), Some(Plain("recovered_active_teardown_command")),
                        Some(Plain(c.commandType)), Some(Plain(c.commandId))));
    }
    if DesiredNeedsTeardown(st, e) {
      var reason := if e.desired.recycleToken.Some?
                    then "recovered_desired_state_recycle_request" else "recovered_desired_state_shutdown_request";
      MarkTeardownKeepsFence(st, p, e.now, e.desiredTeardownReadable, e.desiredWrite,
        TeardownOptions(e.desired.updatedAt, Some(Plain(reason)), None, None));
    }
  }

  lemma KeepsFenceSelf(st: Store)
    ensures KeepsFence(st, st)
  {
  }

  lemma KeepsFenceTwice(a: Store, b: Store, c: Store)
    requires KeepsFence(a, b) && KeepsFence(b, c)
    ensures KeepsFence(a, c)
  {
  }

  lemma StartKeepsFence(st: Store, e: StartEnv)
    ensures KeepsFence(st, Start(st, e).0)
  {
    hide KeepsFence, OpenState, RecoverCommand, RecoverDesired;
    var (st1, r1) := OpenState(st, e);
    OpenStateKeepsFence(st, e);
    if r1.Returned? {
      var (st2, r2) := RecoverCommand(st1, r1.value, e);
      RecoveriesKeepFence(st1, r1.value, e);
      KeepsFenceTwice(st, st1, st2);
      if r2.Returned? {
        RecoveriesKeepFence(st2, r2.value, e);
        KeepsFenceTwice(st, st2, RecoverDesired(st2, r2.value, e).0);
      }
    }
  }

  lemma CallKeepsFence(s: System, p: Process, step: Step)
    requires s.proc == Some(p) && !step.Completing? && !step.Starting? && !step.Crash? && !step.PowerLoss? && !step.Flush?
    ensures KeepsFence(s.store, Call(s, p, step).store)
  {
    hide KeepsFence, MarkTeardown, Reject, Record, Admit, Reconcile, Prepare, IsRecoveryRequired, GuidClaim, Cutoff, Content;
    KeepsFenceSelf(s.store);
    match step
    case Teardown(env, opts) => MarkTeardownKeepsFence(s.store, p, env.now, env.readable, env.write, opts);
    case Recording(env, session, active) => RecordKeepsFence(s.store, p, env, session, active);
    case Admitting(env, recordEnv, c) =>
      AdmitUnfolds(s.store, p, env, recordEnv, c);
      var session := GuidClaim(c.session);
      if session.Some? {
        var p1 := Reject(s.store, p, env, Ticket(if c.iat.Some? then c.iat else c.nbf, session)).0;
        RecordKeepsFence(s.store, p1, recordEnv, session.value, GuidClaim(c.active));
      }
    case Reconciling(env, target) => ReconcileKeepsFence(s.store, p, env, target);
    case Preparing(env) => PrepareKeepsFence(s.store, p, env);
    case _ =>
  }

  // ---- completing a recovery ----

  // A completion that reaches the file lifts the latch and puts its token, if it has one, into the
  // fence; one that does not reach it changes nothing. Success means it is synced.
  lemma CompletionEffect(st: Store, p: Process, env: Env, rawToken: Option<string>)
    ensures var (st', _, reply) := CompleteRecovery(st, p, env, rawToken);
            var token := RecycleToken(rawToken);
            && (st' != st ==> Latched(st))
            && (if Latched(st) && !Latched(st')
                then Fence(st'.visible) == if token.Some? then Complete(Fence(st.visible), token.value) else Fence(st.visible)
                else st' == st)
            && (st'.synced == st.synced || st'.synced == st'.visible)
            && (Latched(st) && reply == Returned(true) ==> !Latched(st') && st'.synced == st'.visible)
  {
    hide Parse, Canonical, CanonicalFields, ToDocument, Normalized, Texts.NormalizeRecycleToken, LastTokens, Dedupe;
    var found := Inspect(st, env.readable);
    CompleteRecoveryEffect(st, p, env, rawToken);
    if found.Found? {
      FoundIsCanonical(st, env.readable);
      RefencedSame(found.s);
    }
  }

  lemma RefencedSame(s: Snapshot)
    requires Canonical(s)
    ensures LastTokens(Dedupe(s.completedTokens)) == s.completedTokens
  {
    hide CanonicalFields;
  }

  // ---- over every run ----

  ghost predicate Usable(tokens: seq<string>) {
    forall t :: t in tokens ==> Texts.NormalizeRecycleToken(t) == Some(t)
  }

  ghost predicate FenceInv(f: Followed) {
    && Fence(f.sys.store.visible) == CompleteAll([], f.reached) && Usable(f.reached)
    && Fence(f.sys.store.synced) == CompleteAll([], f.durable) && f.durable <= f.reached
  }

  lemma ReachedIsUsable(reached: seq<string>, token: Option<string>)
    requires Usable(reached) && RecycleToken(token).Some?
    ensures Usable(reached + [RecycleToken(token).value])
  {
    Texts.NormalizeRecycleTokenTwice(token.value);
  }

  // What a step does to the store: it leaves the fence alone, goes back to what was synced, or
  // completes a recovery with a token.
  lemma StepOutcome(f: Followed, step: Step)
    ensures var st, st' := f.sys.store, Next(f.sys, step).store;
            && (step.PowerLoss? ==> st'.visible == st.synced == st'.synced)
            && (Reaches(f, step) ==> Fence(st'.visible) == Complete(Fence(st.visible), RecycleToken(step.token).value)
                                     && (st'.synced == st.synced || st'.synced == st'.visible))
            && (!step.PowerLoss? && !Reaches(f, step) ==> KeepsFence(st, st'))
  {
    hide KeepsFence, Latched, Fence, Start, CompleteRecovery, Call, RecycleToken, Complete, StartTearsDown, NoteTeardown, NoteRelease;
    KeepsFenceSelf(f.sys.store);
    match step
    case Starting(e) => StartKeepsFence(f.sys.store, e);
    case Crash =>
    case Flush => FlushKeepsFence(f.sys.store);
    case PowerLoss =>
    case Completing(env, token) =>
      if f.sys.proc.Some? {
        CompletingStep(f, env, token);
        CompletingKeepsFence(f, env, token);
      }
    case _ =>
      if f.sys.proc.Some? {
        CallKeepsFence(f.sys, f.sys.proc.value, step);
      }
  }

  lemma FlushKeepsFence(st: Store)
    ensures KeepsFence(st, Store(st.visible, st.visible))
  {
  }

  lemma CompletingKeepsFence(f: Followed, env: Env, token: Option<string>)
    requires f.sys.proc.Some?
    ensures var st, st' := f.sys.store, Next(f.sys, Completing(env, token)).store;
            if Reaches(f, Completing(env, token))
            then Fence(st'.visible) == Complete(Fence(st.visible), RecycleToken(token).value)
                 && (st'.synced == st.synced || st'.synced == st'.visible)
            else KeepsFence(st, st')
  {
    hide Latched, Fence, CompleteRecovery, RecycleToken, Complete, Next;
    CompletingStep(f, env, token);
    CompletionEffect(f.sys.store, f.sys.proc.value, env, token);
  }

  lemma FollowKeeps(f: Followed, step: Step)
    requires FenceInv(f)
    ensures FenceInv(Follow(f, step))
  {
    hide Fence, Usable, Next, Reaches, RecycleToken, Complete;
    StepOutcome(f, step);
    if step.PowerLoss? {
      UsablePrefix(f.durable, f.reached);
    } else if Reaches(f, step) {
      ReachesToken(f, step);
      ReachedIsUsable(f.reached, step.token);
      var t := RecycleToken(step.token).value;
      assert (f.reached + [t])[..|f.reached|] == f.reached;
    }
  }

  lemma ReachesToken(f: Followed, step: Step)
    requires Reaches(f, step)
    ensures step.Completing? && RecycleToken(step.token).Some?
  {
  }

  lemma UsablePrefix(a: seq<string>, b: seq<string>)
    requires a <= b && Usable(b)
    ensures Usable(a)
  {
    forall t | t in a
      ensures t in b
    {
      var i :| 0 <= i < |a| && a[i] == t;
      assert b[i] == t;
    }
  }

  lemma CompletingStep(f: Followed, env: Env, token: Option<string>)
    requires f.sys.proc.Some?
    ensures Next(f.sys, Completing(env, token)).store == CompleteRecovery(f.sys.store, f.sys.proc.value, env, token).0
  {
    hide CompleteRecovery;
  }

  lemma {:induction false} FollowAllKeeps(f: Followed, steps: seq<Step>)
    requires FenceInv(f)
    ensures FenceInv(FollowAll(f, steps)) && FollowAll(f, steps).sys == Run(f.sys, steps)
  {
    hide FenceInv, Next, Reaches;
    if steps != [] {
      FollowAllKeeps(f, steps[..|steps| - 1]);
      FollowKeeps(FollowAll(f, steps[..|steps| - 1]), steps[|steps| - 1]);
    }
  }

  lemma BeginsWell()
    ensures FenceInv(BEGIN)
  {
  }

  // After any run the fence is the last 128 of the tokens whose completion reached the file, each
  // counted when it was not fenced already: in order of arrival and without duplicates.
  lemma FenceOverRuns(steps: seq<Step>)
    ensures var f := FollowAll(BEGIN, steps);
            && f.sys == Run(INITIAL, steps)
            && Fence(Run(INITIAL, steps).store.visible) == LastTokens(Arrivals([], f.reached))
            && NoDuplicates(Fence(Run(INITIAL, steps).store.visible))
  {
    hide Fence, LastTokens, Next, Reaches, Latched, Texts.NormalizeRecycleToken;
    BeginsWell();
    FollowAllKeeps(BEGIN, steps);
    var f := FollowAll(BEGIN, steps);
    FenceIsAQueue([], f.reached);
    assert [] + Arrivals([], f.reached) == Arrivals([], f.reached);
  }

  // ---- how long a token stays ----

  lemma {:induction false} CompleteAllTwice(fence: seq<string>, a: seq<string>, b: seq<string>)
    ensures CompleteAll(fence, a + b) == CompleteAll(CompleteAll(fence, a), b)
  {
    hide Complete;
    if b == [] {
      assert a + b == a;
    } else {
      CompleteAllTwice(fence, a, b[..|b| - 1]);
      assert (a + b)[..|a + b| - 1] == a + b[..|b| - 1];
    }
  }

  predicate NoPowerLoss(steps: seq<Step>) {
    forall i :: 0 <= i < |steps| ==> !steps[i].PowerLoss?
  }

  // Without power failures the file forgets no completion; with them, none that was synced.
  lemma {:induction false} ReachedGrows(f: Followed, steps: seq<Step>, kept: seq<string>)
    requires FenceInv(f) && kept <= f.reached
    requires NoPowerLoss(steps) || kept <= f.durable
    ensures kept <= FollowAll(f, steps).reached
    ensures kept <= f.durable ==> kept <= FollowAll(f, steps).durable
  {
    hide FenceInv, Next, Reaches;
    if steps != [] {
      ReachedGrows(f, steps[..|steps| - 1], kept);
    }
  }

  // A token completed for the first time stays in the fence, across crashes and restarts, until
  // exactly the 128th token that reaches the file after it; a power failure takes it back only if
  // its completion was not synced.
  lemma TokenSurvivesRun(steps: seq<Step>, env: Env, token: Option<string>, more: seq<Step>)
    requires Reaches(FollowAll(BEGIN, steps), Completing(env, token))
    requires RecycleToken(token).value !in Fence(Run(INITIAL, steps).store.visible)
    requires var mid := Follow(FollowAll(BEGIN, steps), Completing(env, token));
             NoPowerLoss(more) || mid.durable == mid.reached
    ensures var mid := Follow(FollowAll(BEGIN, steps), Completing(env, token));
            var end := FollowAll(mid, more);
            && mid.reached <= end.reached
            && var newer := Arrivals(Fence(mid.sys.store.visible), end.reached[|mid.reached|..]);
               |newer| <= MAX_COMPLETED_RECYCLE_TOKENS ==>
                 (RecycleToken(token).value in Fence(end.sys.store.visible) <==> |newer| < MAX_COMPLETED_RECYCLE_TOKENS)
  {
    hide Fence, Latched, Next, Run, Complete, Arrivals, RecycleToken;
    var before := FollowAll(BEGIN, steps);
    var mid := Follow(before, Completing(env, token));
    var end := FollowAll(mid, more);
    var t := RecycleToken(token).value;
    BeginsWell();
    FollowAllKeeps(BEGIN, steps);
    FollowKeeps(before, Completing(env, token));
    FollowAllKeeps(mid, more);
    ReachedGrows(mid, more, mid.reached);
    var later := end.reached[|mid.reached|..];
    var fence := CompleteAll([], before.reached);
    assert mid.reached == before.reached + [t];
    assert mid.reached[..|before.reached|] == before.reached;
    assert end.reached == mid.reached + later;
    CompleteAllTwice([], mid.reached, later);
    FenceIsAQueue([], before.reached);
    TokensUsable(mid.reached, later, t);
    if |Arrivals(Complete(fence, t), later)| <= MAX_COMPLETED_RECYCLE_TOKENS {
      CompletedTokenSurvives(fence, t, later);
    }
  }

  lemma TokensUsable(reached: seq<string>, later: seq<string>, t: string)
    requires Usable(reached + later) && t in reached
    ensures Texts.NormalizeRecycleToken(t) == Some(t) && Usable(later)
  {
    assert t in reached + later;
    assert forall u :: u in later ==> u in reached + later;
  }

  // A completion under the latch that reports success has reached the file and is synced, so no
  // power failure takes it back.
  lemma ReportedIsDurable(f: Followed, env: Env, token: Option<string>)
    requires f.sys.proc.Some? && Latched(f.sys.store) && RecycleToken(token).Some?
    requires CompleteRecovery(f.sys.store, f.sys.proc.value, env, token).2 == Returned(true)
    ensures Reaches(f, Completing(env, token))
    ensures var mid := Follow(f, Completing(env, token));
            mid.durable == mid.reached == f.reached + [RecycleToken(token).value]
  {
    hide Fence, Latched, Next, CompleteRecovery, RecycleToken;
    CompletingStep(f, env, token);
    CompletionEffect(f.sys.store, f.sys.proc.value, env, token);
  }
}
