// One session owns the runtime between two releases of ownership.
module RuntimeGateOwnership {
  import opened Wrappers
  import opened RuntimeSnapshot
  import opened RuntimeGate
  import opened RuntimeGateRuns
  import Texts

  // The session the file says was admitted, in lower case.
  function Evidence(st: Store): Option<string> {
    var c := Content(st.visible);
    if c.Some? && c.value.viewerRequest.Some? then Some(Texts.Lower(c.value.viewerRequest.value)) else None
  }

  ghost predicate OwnerInv(s: System) {
    forall a :: a in s.hist.admitted ==> Evidence(s.store) == Some(a)
  }

  // A power failure that does not undo the evidence of an admission.
  predicate Intact(s: System, step: Step) {
    step.PowerLoss? ==> s.hist.admitted == {} || Evidence(Store(s.store.synced, s.store.synced)) == Evidence(s.store)
  }

  ghost predicate AllIntact(s: System, steps: seq<Step>) {
    forall i :: 0 <= i < |steps| ==> Intact(Run(s, steps[..i]), steps[i])
  }

  // ---- evidence survives every call that does not release it ----

  ghost predicate KeepsEvidence(st: Store, st': Store) {
    Evidence(st).Some? ==> Evidence(st') == Evidence(st)
  }

  lemma EffectKeepsEvidence(st: Store, st': Store, s: Snapshot, s': Snapshot, ok: bool)
    requires Content(st.visible) == Some(s) && Effect(st, st', s', ok)
    requires s.viewerRequest.Some? ==>
               s'.viewerRequest.Some? && SameSession(s'.viewerRequest.value, s.viewerRequest.value)
    ensures KeepsEvidence(st, st')
  {
    hide Parse, Canonical, Texts.Lower;
  }

  lemma MarkTeardownKeepsEvidence(st: Store, p: Process, now: nat, readable: bool, write: WriteOutcome, opts: TeardownOptions)
    ensures KeepsEvidence(st, MarkTeardown(st, p, now, readable, write, opts).0)
  {
    hide Parse, Canonical, ToDocument, Normalized, Texts.Lower;
    var (st', _, reply) := MarkTeardown(st, p, now, readable, write, opts);
    MarkTeardownEffect(st, p, now, readable, write, opts);
    var found := Inspect(st, readable);
    if st' != st {
      FoundIsCanonical(st, readable);
      EffectKeepsEvidence(st, st', found.s, TornDown(found.s, now, opts), reply == Returned(true));
    }
  }

  lemma PrepareKeepsEvidence(st: Store, p: Process, env: Env)
    ensures KeepsEvidence(st, Prepare(st, p, env).0)
  {
    hide Parse, Canonical, ToDocument, Normalized, Texts.Lower;
    PrepareEffect(st, p, env);
    var (st', _, reply) := Prepare(st, p, env);
    var found := Inspect(st, env.readable);
    if st' != st {
      FoundIsCanonical(st, env.readable);
      EffectKeepsEvidence(st, st', found.s, Prepared(found.s, env.now, p.skew), reply != Returned(None));
    }
  }

  // Recording never changes the session in the file, and an admission leaves it there.
  lemma RecordKeepsEvidence(st: Store, p: Process, env: Env, session: string, active: Option<string>)
    ensures var (st', _, reply) := Record(st, p, env, session, active);
            KeepsEvidence(st, st') &&
            (reply == Returned(None) ==>
               Texts.NormalizeGuid(session).Some? &&
               Evidence(st') == Some(Texts.Lower(Texts.NormalizeGuid(session).value)))
  {
    hide Parse, Canonical, ToDocument, Normalized, Texts.NormalizeGuid, Texts.Lower;
    RecordEffect(st, p, env, session, active);
    var (st', _, reply) := Record(st, p, env, session, active);
    var found := Inspect(st, env.readable);
    if found.Found? {
      FoundIsCanonical(st, env.readable);
      var g := Texts.NormalizeGuid(session);
      var a := if active.Some? then Texts.NormalizeGuid(active.value) else None;
      if g.Some? && HasUtc(env.now) && Effect(st, st', Recorded(found.s, g.value, a, env.now), reply == Returned(None)) &&
         (found.s.viewerRequest.Some? ==> SameSession(found.s.viewerRequest.value, g.value)) {
        EffectKeepsEvidence(st, st', found.s, Recorded(found.s, g.value, a, env.now), reply == Returned(None));
      }
    }
  }

  lemma LowerOfGuidClaim(raw: Option<string>)
    requires GuidClaim(raw).Some?
    ensures var g := GuidClaim(raw).value;
            Texts.NormalizeGuid(g) == Some(Texts.Lower(g)) && Texts.Lower(Texts.Lower(g)) == Texts.Lower(g)
  {
    Texts.TrimTwice(raw.value);
    Texts.LowerTwice(GuidClaim(raw).value);
  }

  lemma AdmitKeepsEvidence(st: Store, p: Process, rejectEnv: Env, recordEnv: Env, c: Claims)
    ensures var (st', _, ok) := Admit(st, p, rejectEnv, recordEnv, c);
            KeepsEvidence(st, st') &&
            (ok && GuidClaim(c.session).Some? ==> Evidence(st') == Some(Texts.Lower(GuidClaim(c.session).value)))
  {
    hide Evidence, Record, Reject, Texts.Lower, Texts.NormalizeGuid, GuidClaim;
    var session, active := GuidClaim(c.session), GuidClaim(c.active);
    if session.Some? {
      LowerOfGuidClaim(c.session);
      var p1 := Reject(st, p, rejectEnv, Ticket(if c.iat.Some? then c.iat else c.nbf, session)).0;
      RecordKeepsEvidence(st, p1, recordEnv, session.value, active);
    }
  }

  lemma StartKeepsEvidence(st: Store, e: StartEnv)
    ensures KeepsEvidence(st, Start(st, e).0)
  {
    hide Evidence, OpenState, MarkTeardown, TokenCompletion, CommandStatus;
    var (st1, r1) := OpenState(st, e);
    OpenStateKeepsEvidence(st, e);
    if r1.Returned? {
      var (st2, r2) := RecoverCommand(st1, r1.value, e);
      if CommandNeedsTeardown(st1, e) {
        var c := e.command.value;
        MarkTeardownKeepsEvidence(st1, r1.value, e.now, e.commandTeardownReadable, e.commandWrite,
          TeardownOptions(Some(c.requestedAt), Some(Plain("recovered_active_teardown_command")),
                          Some(Plain(c.commandType)), Some(Plain(c.commandId))));
      }
      if r2.Returned? && DesiredNeedsTeardown(st2, e) {
        var reason := if e.desired.recycleToken.Some?
                      then "recovered_desired_state_recycle_request" else "recovered_desired_state_shutdown_request";
        MarkTeardownKeepsEvidence(st2, r2.value, e.now, e.desiredTeardownReadable, e.desiredWrite,
          TeardownOptions(e.desired.updatedAt, Some(Plain(reason)), None, None));
      }
    }
  }

  lemma OpenStateKeepsEvidence(st: Store, e: StartEnv)
    ensures KeepsEvidence(st, OpenState(st, e).0)
  {
    hide Parse, Normalized, ToDocument, Texts.Lower;
  }

  // ---- over every run ----

  lemma NextKeepsOwner(s: System, step: Step)
    requires OwnerInv(s) && Intact(s, step)
    ensures OwnerInv(Next(s, step))
  {
    hide Evidence, Content, Cutoff, Start, StartTearsDown, MarkTeardown, Reject, Record, Admit, Reconcile, Prepare, CompleteRecovery,
      GuidClaim, Texts.Lower;
    match step
    case Starting(e) => StartKeepsEvidence(s.store, e);
    case Crash =>
    case Flush => SameVisible(s.store, Store(s.store.visible, s.store.visible));
    case PowerLoss =>
    case _ =>
      if s.proc.Some? {
        CallKeepsOwner(s, s.proc.value, step);
      }
  }

  // Of all steps only a power failure can break ownership, and it does exactly when it undoes the
  // evidence of an admission.
  lemma BrokenExactlyWhen(s: System, step: Step)
    requires OwnerInv(s)
    ensures OwnerInv(Next(s, step)) <==> Intact(s, step)
  {
    hide Evidence, Call, Start, StartTearsDown;
    if Intact(s, step) {
      NextKeepsOwner(s, step);
    } else {
      var a :| a in s.hist.admitted;
      assert a in Next(s, step).hist.admitted;
    }
  }

  lemma SameVisible(st: Store, st': Store)
    requires st.visible == st'.visible
    ensures Evidence(st) == Evidence(st')
  {
    hide Content, Texts.Lower;
  }

  lemma CallKeepsOwner(s: System, p: Process, step: Step)
    requires OwnerInv(s)
    ensures OwnerInv(Call(s, p, step))
  {
    hide Evidence, Content, Cutoff, MarkTeardown, Reject, Record, Admit, Reconcile, Prepare, CompleteRecovery, GuidClaim, Texts.Lower;
    match step
    case Teardown(env, opts) => MarkTeardownKeepsEvidence(s.store, p, env.now, env.readable, env.write, opts);
    case Recording(env, session, active) => RecordKeepsEvidence(s.store, p, env, session, active);
    case Admitting(env, recordEnv, c) => AdmitKeepsEvidence(s.store, p, env, recordEnv, c);
    case Preparing(env) => PrepareKeepsEvidence(s.store, p, env);
    case Reconciling(env, target) => SameVisibleIfUnreleased(s, Reconcile(s.store, p, env, target).0);
    case Completing(env, token) => SameVisibleIfUnreleased(s, CompleteRecovery(s.store, p, env, token).0);
    case _ =>
  }

  lemma SameVisibleIfUnreleased(s: System, st': Store)
    ensures NoteRelease(s.hist, s.store, st') == s.hist ==> s.hist.admitted == {} || st'.visible == s.store.visible
    ensures st'.visible == s.store.visible ==> Evidence(st') == Evidence(s.store)
  {
    hide Content, Texts.Lower;
  }

  lemma {:induction false} RunKeepsOwner(s: System, steps: seq<Step>)
    requires OwnerInv(s) && AllIntact(s, steps)
    ensures OwnerInv(Run(s, steps))
  {
    hide OwnerInv, Next, Intact;
    if steps != [] {
      var front := steps[..|steps| - 1];
      forall i | 0 <= i < |front|
        ensures Intact(Run(s, front[..i]), front[i])
      {
        assert front[..i] == steps[..i];
      }
      RunKeepsOwner(s, front);
      NextKeepsOwner(Run(s, front), steps[|steps| - 1]);
    }
  }

  // Between two releases that reached the file, whether or not they were reported, all managed tickets admitted by the two gate
  // calls name one session, across crashes, restarts and every outcome of every write.
  lemma OneOwner(steps: seq<Step>, a: string, b: string)
    requires AllIntact(INITIAL, steps)
    requires a in Run(INITIAL, steps).hist.admitted && b in Run(INITIAL, steps).hist.admitted
    ensures a == b
  {
    hide Next, Evidence, Intact;
    RunKeepsOwner(INITIAL, steps);
  }

  // The session a step admits.
  function NewlyAdmitted(s: System, step: Step): set<string> {
    if step.Admitting? && s.proc.Some? && GuidClaim(step.claims.session).Some?
       && Admit(s.store, s.proc.value, step.env, step.recordEnv, step.claims).2
    then {Texts.Lower(GuidClaim(step.claims.session).value)} else {}
  }

  // ---- what the theorem does not survive ----

  const QUIET := Desired(None, false, None)

  const NO_OPTIONS := TeardownOptions(None, None, None, None)

  function Calm(now: nat, write: WriteOutcome): Env {
    Env(now, true, true, true, write, None, QUIET)
  }

  function CalmStart(write: WriteOutcome): Step {
    Starting(StartEnv(0, None, 0, true, write, true, true, Lost, true, true, Lost, None, QUIET))
  }

  function Arrival(session: string, at: nat, write: WriteOutcome): Step {
    Admitting(Calm(at, write), Calm(at, write), Claims(Some(at), None, Some(session), None))
  }

  predicate IsLowerGuid(g: string) {
    Texts.NormalizeGuid(g) == Some(g) && Texts.Trim(g) == g && Texts.IsGuid(g)
  }

  // A file that refuses no ticket issued at `at`, with the session `owner` in it.
  ghost predicate OpenFile(d: Option<Document>, owner: Option<string>, at: nat) {
    var c := Content(d);
    c.Some? && Canonical(c.value) && c.value.cutoff.Some? && c.value.cutoff.value < at && HasUtc(at) && !c.value.recoveryRequired &&
    c.value.viewerRequest == owner && c.value.viewerSession.None?
  }

  lemma FreshStart(st: Store)
    requires st.visible.None?
    ensures var t := Next(System(st, None, History(-1, {})), CalmStart(Landed));
            && OpenFile(t.store.visible, None, 1) && t.store.synced == t.store.visible
            && t.proc == Some(Process(0, None, None, None, None, false)) && t.hist == History(-1, {})
  {
    hide Parse, Canonical, ToDocument, Normalized, Texts.NormalizeRecycleToken;
    BaselineCanonical(0);
    WriteCanonical(st, Baseline(0), Landed);
  }

  lemma Restart(s: System, owner: Option<string>, at: nat)
    requires s.proc.None? && OpenFile(s.store.visible, owner, at)
    ensures Next(s, CalmStart(Landed)) ==
            System(s.store, Some(Process(0, None, None, None, owner, false)), s.hist)
  {
    hide Canonical, Acceptable, Normalize, Texts.NormalizeRecycleToken;
  }

  // An arrival at an open file is admitted exactly when its evidence is already there or is
  // written in full; a write that lands without being synced leaves the evidence behind.
  lemma ArrivalOutcome(s: System, session: string, at: nat, write: WriteOutcome)
    requires IsLowerGuid(session) && s.proc.Some?
    requires s.proc.value.failure.None? && s.proc.value.journalBlock.None?
    requires OpenFile(s.store.visible, s.proc.value.owner, at)
    requires s.proc.value.owner.None? || s.proc.value.owner == Some(session)
    ensures var t := Next(s, Arrival(session, at, write));
            && (s.proc.value.owner.Some? || write == Landed ==>
                  t.hist == s.hist.(admitted := s.hist.admitted + {session}) && NewlyAdmitted(s, Arrival(session, at, write)) == {session})
            && (s.proc.value.owner.None? && write != Landed ==> t.hist == s.hist)
            && (s.proc.value.owner.None? && write != Lost ==> OpenFile(t.store.visible, Some(session), at))
            && (s.proc.value.owner.Some? ==> t.store == s.store)
            && (write == LandedUnsynced ==> t.store.synced == s.store.synced)
            && t.proc.Some? && t.proc.value.skew == s.proc.value.skew
  {
    hide Parse, Canonical, ToDocument, Normalized, Texts.NormalizeRecycleToken, Texts.Trim, Texts.IsGuid, Texts.NormalizeGuid,
      Cutoff;
    var p := s.proc.value;
    var snap := Content(s.store.visible).value;
    LowerGuidTexts(session);
    if p.owner.None? {
      RecordedStaysOpen(snap, session, at);
      WriteCanonical(s.store, Recorded(snap, session, None, at), write);
    }
  }

  lemma LowerGuidTexts(g: string)
    requires IsLowerGuid(g)
    ensures Texts.Trim(g) != [] && Texts.Lower(g) == g
  {
  }

  lemma RecordedStaysOpen(s: Snapshot, session: string, at: nat)
    requires Canonical(s) && IsLowerGuid(session) && s.viewerSession.None? && HasUtc(at)
    ensures Canonical(Recorded(s, session, None, at))
  {
    hide CanonicalFields, NormalFence;
    RecordedCanonical(s, session, None, at);
  }

  // A power failure that undoes an unsynced admission record breaks ownership: for every two
  // sessions there is a run without any release in which both are admitted.
  lemma PowerLossAdmitsTwo(a: string, b: string)
    requires IsLowerGuid(a) && IsLowerGuid(b) && a != b
    ensures var steps := [CalmStart(Landed), Arrival(a, 1, LandedUnsynced), Crash, CalmStart(Landed), Arrival(a, 1, Landed),
                          PowerLoss, CalmStart(Landed), Arrival(b, 1, Landed)];
            Run(INITIAL, steps).hist.admitted == {a, b}
  {
    hide Next, OpenFile, IsLowerGuid;
    var s1 := Next(INITIAL, CalmStart(Landed));
    FreshStart(INITIAL.store);
    var s2 := Next(s1, Arrival(a, 1, LandedUnsynced));
    ArrivalOutcome(s1, a, 1, LandedUnsynced);
    var s3 := Next(s2, Crash);
    Stopped(s2);
    var s4 := Next(s3, CalmStart(Landed));
    Restart(s3, Some(a), 1);
    var s5 := Next(s4, Arrival(a, 1, Landed));
    ArrivalOutcome(s4, a, 1, Landed);
    var s6 := Next(s5, PowerLoss);
    Stopped(s5);
    var s7 := Next(s6, CalmStart(Landed));
    Restart(s6, None, 1);
    var s8 := Next(s7, Arrival(b, 1, Landed));
    ArrivalOutcome(s7, b, 1, Landed);
    RunOfEight(INITIAL, [CalmStart(Landed), Arrival(a, 1, LandedUnsynced), Crash, CalmStart(Landed), Arrival(a, 1, Landed),
                         PowerLoss, CalmStart(Landed), Arrival(b, 1, Landed)]);
  }

  lemma Stopped(s: System)
    ensures Next(s, Crash) == s.(proc := None)
    ensures Next(s, PowerLoss) == s.(proc := None, store := Store(s.store.synced, s.store.synced))
  {
  }

  lemma RunOfEight(s: System, steps: seq<Step>)
    requires |steps| == 8
    ensures Run(s, steps) ==
            Next(Next(Next(Next(Next(Next(Next(Next(s, steps[0]), steps[1]), steps[2]), steps[3]), steps[4]), steps[5]), steps[6]), steps[7])
  {
    hide Next;
    forall i | 0 <= i < 8
      ensures Run(s, steps[..i + 1]) == Next(Run(s, steps[..i]), steps[i])
    {
      assert steps[..i + 1][..i] == steps[..i];
    }
    assert steps[..8] == steps;
  }

  lemma TornDownFields(s: Snapshot)
    requires s.cutoff.Some? && s.cutoff.value < 1
    ensures TeardownCutoff(s, 2, NO_OPTIONS) == 2
  {
  }

  lemma RunPrefixes(s: System, steps: seq<Step>)
    ensures Run(s, steps[..0]) == s && Run(s, steps[..|steps|]) == Run(s, steps)
    ensures forall i :: 0 <= i < |steps| ==> Run(s, steps[..i + 1]) == Next(Run(s, steps[..i]), steps[i])
  {
    hide Next;
    forall i | 0 <= i < |steps|
      ensures Run(s, steps[..i + 1]) == Next(Run(s, steps[..i]), steps[i])
    {
      assert steps[..i + 1][..i] == steps[..i];
    }
    assert steps[..|steps|] == steps;
  }
}
