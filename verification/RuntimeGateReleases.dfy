// Releases of ownership that are reported to the caller, and the owner between two of them.
module RuntimeGateReleases {
  import opened Wrappers
  import opened RuntimeSnapshot
  import opened RuntimeGate
  import opened RuntimeGateRuns
  import opened RuntimeGateOwnership
  import opened RuntimeGateSafety
  import Texts

  // ---- the guard of a release ----

  // The branch of a reconciliation that writes the release.
  predicate ReconcileGuard(st: Store, p: Process, env: Env, rawAssigned: Option<string>) {
    var target := if rawAssigned.Some? then Texts.NormalizeGuid(rawAssigned.value) else None;
    var found := Inspect(st, env.readable);
    && !p.admittedHere && p.owner.Some? && p.journalBlock.None?
    && (rawAssigned.Some? ==> target.Some? && !SameSession(target.value, p.owner.value))
    && found.Found? && !found.s.recoveryRequired
    // the admission on file is from before the boot of the host, by more than the skew
    && p.hostBootMs.Some? && found.s.firstAdmitted.Some? && DateParse(found.s.firstAdmitted.value).Some?
    && DateParse(found.s.firstAdmitted.value).value + 1000 * p.skew < p.hostBootMs.value
    && HasUtc(Max(found.s.cutoff.GetOr(0), env.now + p.skew)) && HasUtc(env.now)
  }

  // The step gets as far as writing the release of ownership.
  predicate ReleaseGuard(s: System, step: Step) {
    s.proc.Some? &&
    match step
    case Completing(env, token) => MayRecover(Inspect(s.store, env.readable), env.now) && HasUtc(env.now)
    case Reconciling(env, target) => ReconcileGuard(s.store, s.proc.value, env, target)
    case _ => false
  }

  // The release reaches the file; it is durable if it is also synced.
  predicate Releases(s: System, step: Step) {
    ReleaseGuard(s, step) && step.env.write != Lost
  }

  predicate ReleasesDurably(s: System, step: Step) {
    ReleaseGuard(s, step) && step.env.write == Landed
  }

  // What the caller of a release is told.
  function ReleaseReply(s: System, step: Step): Reply<bool>
    requires s.proc.Some? && (step.Completing? || step.Reconciling?)
  {
    if step.Completing? then CompleteRecovery(s.store, s.proc.value, step.env, step.token).2
    else Reconcile(s.store, s.proc.value, step.env, step.target).2
  }

  predicate ReportedRelease(s: System, step: Step) {
    ReleaseGuard(s, step) && ReleaseReply(s, step) == Returned(true)
  }

  lemma FencedKeepsOwner(s: Snapshot)
    ensures Fenced(s).viewerRequest == s.viewerRequest && Fenced(s).recoveryRequired == s.recoveryRequired
  {
    hide LastTokens, Dedupe;
  }

  // What a call with this guard leaves in the file and tells its caller.
  ghost predicate ReleaseOutcome(s: System, step: Step, st: Store, reply: Reply<bool>) {
    && (st.visible != s.store.visible <==> Releases(s, step))
    && (Releases(s, step) ==> Evidence(st) == None)
    && (ReleaseGuard(s, step) ==> (reply == Returned(true) <==> ReleasesDurably(s, step)))
    && (Releases(s, step) ==> st.synced == if ReleasesDurably(s, step) then st.visible else s.store.synced)
    && (!Releases(s, step) ==> st == s.store)
  }

  lemma CompletionReleases(s: System, step: Step)
    requires step.Completing? && s.proc.Some?
    ensures var (st, _, reply) := CompleteRecovery(s.store, s.proc.value, step.env, step.token);
            ReleaseOutcome(s, step, st, reply)
  {
    hide Parse, Canonical, CanonicalFields, ToDocument, Normalized, Fenced, Texts.NormalizeRecycleToken, Texts.Lower;
    if ReleaseGuard(s, step) {
      var found := Inspect(s.store, step.env.readable).s;
      var recovered := Recovered(found, RecycleToken(step.token), step.env.now);
      FoundIsCanonical(s.store, step.env.readable);
      RecoveredCanonical(found, RecycleToken(step.token), step.env.now);
      RecoveredTokens(found, step.token, step.env.now);
      WriteEffect(s.store, recovered, step.env.write);
      FencedKeepsOwner(recovered);
    }
  }

  lemma ReconciliationReleases(s: System, step: Step)
    requires step.Reconciling? && s.proc.Some?
    ensures var (st, _, reply) := Reconcile(s.store, s.proc.value, step.env, step.target);
            ReleaseOutcome(s, step, st, reply)
  {
    hide Parse, Canonical, CanonicalFields, ToDocument, Normalized, Texts.NormalizeGuid, Texts.Lower, SameSession;
    if ReleaseGuard(s, step) {
      var found := Inspect(s.store, step.env.readable).s;
      FoundIsCanonical(s.store, step.env.readable);
      ReleasedCanonical(found, step.env.now, s.proc.value.skew);
      WriteCanonical(s.store, Released(found, step.env.now, s.proc.value.skew), step.env.write);
    }
  }

  // The guard and the outcome of the write decide everything: the file changes exactly at a release
  // that lands, which leaves nobody in it, and the caller is told of exactly those that are synced.
  lemma ReleaseEffect(s: System, step: Step)
    requires s.proc.Some? && (step.Completing? || step.Reconciling?)
    ensures Next(s, step).store.visible != s.store.visible <==> Releases(s, step)
    ensures Releases(s, step) ==> Evidence(Next(s, step).store) == None
    ensures ReportedRelease(s, step) <==> ReleasesDurably(s, step)
    ensures Releases(s, step) ==>
              Next(s, step).store.synced == if ReleasesDurably(s, step) then Next(s, step).store.visible else s.store.synced
    ensures !Releases(s, step) ==> Next(s, step).store == s.store
  {
    hide Evidence, CompleteRecovery, Reconcile, ReleaseGuard;
    if step.Completing? {
      CompletionReleases(s, step);
    } else {
      ReconciliationReleases(s, step);
    }
  }

  // A release after a boot keeps every earlier ticket out, by the skew of the clocks.
  lemma ReconciliationFences(s: System, step: Step)
    requires step.Reconciling? && Releases(s, step)
    ensures Content(s.store.visible).Some? && Content(s.store.visible).value.cutoff.Some?
    ensures var c, c' := Content(s.store.visible).value, Content(Next(s, step).store.visible);
            && c'.Some? && c'.value.cutoff == Some(Max(c.cutoff.value, step.env.now + s.proc.value.skew))
            && !c'.value.recoveryRequired && c'.value.completedTokens == c.completedTokens
            && c'.value.viewerRequest.None? && c'.value.viewerSession.None? && c'.value.firstAdmitted.None?
  {
    hide Parse, Canonical, ToDocument, Normalized, Texts.NormalizeGuid, Texts.Lower, SameSession;
    var found := Inspect(s.store, step.env.readable).s;
    FoundIsCanonical(s.store, step.env.readable);
    CanonicalHasCutoff(found);
    ReleasedCanonical(found, step.env.now, s.proc.value.skew);
    WriteCanonical(s.store, Released(found, step.env.now, s.proc.value.skew), step.env.write);
  }

  // The caller may go on when nothing is to be released, or the release was durable.
  lemma ReconciliationReply(s: System, step: Step)
    requires step.Reconciling? && s.proc.Some?
    ensures var p := s.proc.value;
            ReleaseReply(s, step) == Returned(true) <==>
            || p.admittedHere || p.owner.None?
            || (step.target.Some? && Texts.NormalizeGuid(step.target.value).Some?
                && SameSession(Texts.NormalizeGuid(step.target.value).value, p.owner.value))
            || ReleasesDurably(s, step)
    ensures Next(s, step).proc.Some? &&
            Next(s, step).proc.value == if ReleasesDurably(s, step) then s.proc.value.(owner := None) else s.proc.value
  {
    hide Parse, Normalized, ToDocument, Texts.NormalizeGuid, SameSession;
  }

  // ---- the sessions admitted since the last durable release ----

  function SinceNext(s: System, step: Step, since: set<string>): set<string> {
    if ReleasesDurably(s, step) then {} else since + NewlyAdmitted(s, step)
  }

  function SinceDurable(s: System, steps: seq<Step>): set<string> {
    if steps == [] then {}
    else SinceNext(Run(s, steps[..|steps| - 1]), steps[|steps| - 1], SinceDurable(s, steps[..|steps| - 1]))
  }

  // The file names every one of these sessions.
  ghost predicate Named(st: Store, since: set<string>) {
    forall a :: a in since ==> Evidence(st) == Some(a)
  }

  // No power failure changes the session on file, and no release lands without being synced.
  predicate KeepsNamed(s: System, step: Step) {
    && (step.PowerLoss? ==> Evidence(Store(s.store.synced, s.store.synced)) == Evidence(s.store))
    && !(ReleaseGuard(s, step) && step.env.write == LandedUnsynced)
  }

  // The history of the run does not influence it.
  lemma HistoryIsApart(s: System, h: History, step: Step)
    ensures Next(s.(hist := h), step).store == Next(s, step).store
    ensures NewlyAdmitted(s.(hist := h), step) == NewlyAdmitted(s, step)
    ensures Releases(s.(hist := h), step) == Releases(s, step)
  {
    hide Start, StartTearsDown, MarkTeardown, Reject, Record, Admit, Reconcile, Prepare, CompleteRecovery, IsRecoveryRequired, GuidClaim,
      Texts.Lower, Cutoff, Content, ReconcileGuard;
  }

  lemma AdmittedAfter(s: System, step: Step)
    ensures Next(s, step).hist.admitted ==
            if Releases(s, step) then {} else s.hist.admitted + NewlyAdmitted(s, step)
  {
    hide Start, StartTearsDown, MarkTeardown, Reject, Record, Admit, Reconcile, Prepare, CompleteRecovery, IsRecoveryRequired, GuidClaim,
      Texts.Lower, Cutoff, Content, ReleaseGuard, Evidence;
    if s.proc.Some? && (step.Completing? || step.Reconciling?) {
      ReleaseEffect(s, step);
    } else {
      OthersDoNotRelease(s, step);
    }
  }

  lemma OthersDoNotRelease(s: System, step: Step)
    requires s.proc.None? || !(step.Completing? || step.Reconciling?)
    ensures !ReleaseGuard(s, step)
  {
  }

  // While any session was admitted since the last durable release, a step keeps the file naming
  // them all exactly when it is no power failure that changes the name and no unsynced release.
  lemma NamedExactlyWhen(s: System, step: Step, since: set<string>)
    requires Named(s.store, since)
    ensures Named(Next(s, step).store, SinceNext(s, step, since)) <==> since == {} || KeepsNamed(s, step)
  {
    hide Next, ReleaseGuard, Evidence, NewlyAdmitted;
    if Releases(s, step) {
      ReleaseNames(s, step, since);
    } else {
      StepNames(s, step, since);
    }
  }

  lemma ReleaseNames(s: System, step: Step, since: set<string>)
    requires Named(s.store, since) && Releases(s, step)
    ensures Named(Next(s, step).store, SinceNext(s, step, since)) <==> since == {} || KeepsNamed(s, step)
  {
    hide Next, Evidence, ReconcileGuard, MayRecover;
    ReleaseEffect(s, step);
  }

  lemma StepNames(s: System, step: Step, since: set<string>)
    requires Named(s.store, since) && !Releases(s, step)
    ensures Named(Next(s, step).store, SinceNext(s, step, since)) <==> since == {} || KeepsNamed(s, step)
  {
    hide Next, Evidence, ReleaseGuard, NewlyAdmitted;
    var t := s.(hist := s.hist.(admitted := since));
    HistoryIsApart(s, t.hist, step);
    AdmittedAfter(t, step);
    BrokenExactlyWhen(t, step);
  }

  // ---- over every run ----

  // Every step with somebody admitted since the last durable release keeps the name.
  ghost predicate AllKept(s: System, steps: seq<Step>) {
    forall i :: 0 <= i < |steps| ==> SinceDurable(s, steps[..i]) == {} || KeepsNamed(Run(s, steps[..i]), steps[i])
  }

  lemma {:induction false} KeptIsNamed(s: System, steps: seq<Step>)
    requires AllKept(s, steps)
    ensures Named(Run(s, steps).store, SinceDurable(s, steps))
  {
    hide Next, Named, KeepsNamed, SinceNext;
    if steps == [] {
      NobodyIsNamed(s.store);
    } else {
      var front := steps[..|steps| - 1];
      KeptBefore(s, steps, |steps| - 1);
      KeptIsNamed(s, front);
      NamedExactlyWhen(Run(s, front), steps[|steps| - 1], SinceDurable(s, front));
    }
  }

  lemma NobodyIsNamed(st: Store)
    ensures Named(st, {})
  {
  }

  lemma KeptBefore(s: System, steps: seq<Step>, n: nat)
    requires AllKept(s, steps) && n <= |steps|
    ensures AllKept(s, steps[..n])
  {
    hide Run, SinceDurable, KeepsNamed;
    forall i | 0 <= i < n
      ensures SinceDurable(s, steps[..n][..i]) == {} || KeepsNamed(Run(s, steps[..n][..i]), steps[..n][i])
    {
      assert steps[..n][..i] == steps[..i];
    }
  }

  // Throughout a run the file names every session admitted since the last durable release, exactly
  // when no step meets such a session with a power failure that changes the name or with a release
  // that lands without being synced.
  lemma NamedThroughoutExactlyWhen(s: System, steps: seq<Step>)
    ensures (forall n :: 0 <= n <= |steps| ==> Named(Run(s, steps[..n]).store, SinceDurable(s, steps[..n]))) <==> AllKept(s, steps)
  {
    hide Next, Run, Named, KeepsNamed, SinceNext, SinceDurable;
    if AllKept(s, steps) {
      forall n | 0 <= n <= |steps|
        ensures Named(Run(s, steps[..n]).store, SinceDurable(s, steps[..n]))
      {
        KeptBefore(s, steps, n);
        KeptIsNamed(s, steps[..n]);
      }
    } else {
      var i :| 0 <= i < |steps| && !(SinceDurable(s, steps[..i]) == {} || KeepsNamed(Run(s, steps[..i]), steps[i]));
      SinceAfter(s, steps, i);
      if Named(Run(s, steps[..i]).store, SinceDurable(s, steps[..i])) {
        NamedExactlyWhen(Run(s, steps[..i]), steps[i], SinceDurable(s, steps[..i]));
      }
    }
  }

  lemma SinceAfter(s: System, steps: seq<Step>, i: nat)
    requires i < |steps|
    ensures SinceDurable(s, steps[..i + 1]) == SinceNext(Run(s, steps[..i]), steps[i], SinceDurable(s, steps[..i]))
    ensures Run(s, steps[..i + 1]) == Next(Run(s, steps[..i]), steps[i])
  {
    hide Next, SinceNext;
    assert steps[..i + 1][..i] == steps[..i];
  }

  // Between two durable releases, all managed tickets admitted by the two gate calls name one
  // session, across crashes and restarts.
  lemma OneOwnerBetweenDurable(steps: seq<Step>, a: string, b: string)
    requires AllKept(INITIAL, steps)
    requires a in SinceDurable(INITIAL, steps) && b in SinceDurable(INITIAL, steps)
    ensures a == b
  {
    hide AllKept, SinceDurable, Run, Evidence;
    KeptIsNamed(INITIAL, steps);
  }

  // ---- a release that is not reported ----

  // What a teardown, a preparation and an unsynced completion leave of an open file: another one,
  // with nobody in it.
  lemma UnreportedReleaseOpens(s: System, owner: Option<string>)
    requires s.proc.Some? && s.proc.value.skew == 0 && OpenFile(s.store.visible, owner, 1)
    ensures var t1 := Next(s, Teardown(Calm(2, Landed), NO_OPTIONS));
            var t2 := Next(t1, Preparing(Calm(3, Landed)));
            var t3 := Next(t2, Completing(Calm(4, LandedUnsynced), None));
            && t1.proc.Some? && t2.proc.Some? && OpenFile(t3.store.visible, None, 5)
            && CompleteRecovery(t2.store, t2.proc.value, Calm(4, LandedUnsynced), None).2 == Returned(false)
            && Content(t2.store.visible).Some? && Content(t2.store.visible).value.recoveryRequired
            && t3.store.synced == t2.store.visible
  {
    hide Parse, Canonical, CanonicalFields, ToDocument, Normalized, Cutoff, LastTokens, Dedupe;
    var c0 := Content(s.store.visible).value;
    TornDownCanonical(c0, 2, NO_OPTIONS);
    TornDownFields(c0);
    WriteCanonical(s.store, TornDown(c0, 2, NO_OPTIONS), Landed);
    var t1 := Next(s, Teardown(Calm(2, Landed), NO_OPTIONS));
    var c1 := TornDown(c0, 2, NO_OPTIONS);
    PreparedCanonical(c1, 3, 0);
    WriteCanonical(t1.store, Prepared(c1, 3, 0), Landed);
    var t2 := Next(t1, Preparing(Calm(3, Landed)));
    var c2 := Prepared(c1, 3, 0);
    RecoveredCanonical(c2, None, 4);
    RecoveredTokens(c2, None, 4);
    WriteEffect(t2.store, Recovered(c2, None, 4), LandedUnsynced);
    FencedKeepsOwner(Recovered(c2, None, 4));
  }

  ghost function UnreportedSteps(a: string, b: string): (steps: seq<Step>)
    ensures |steps| == 8
  {
    [CalmStart(Landed), Arrival(a, 1, Landed), Teardown(Calm(2, Landed), NO_OPTIONS), Preparing(Calm(3, Landed)),
     Completing(Calm(4, LandedUnsynced), None), Crash, CalmStart(Landed), Arrival(b, 5, Landed)]
  }

  // The states of that run: after the first arrival has been admitted, ...
  lemma UntilUnreported(s: System, a: string)
    requires IsLowerGuid(a) && s.proc == Some(Process(0, None, None, None, None, false)) && OpenFile(s.store.visible, None, 1)
    ensures var s4 := Next(Next(Next(s, Arrival(a, 1, Landed)), Teardown(Calm(2, Landed), NO_OPTIONS)), Preparing(Calm(3, Landed)));
            var completing := Completing(Calm(4, LandedUnsynced), None);
            && NewlyAdmitted(s, Arrival(a, 1, Landed)) == {a} && OpenFile(Next(s4, completing).store.visible, None, 5)
  {
    hide Next, OpenFile, IsLowerGuid, NewlyAdmitted;
    ArrivalOutcome(s, a, 1, Landed);
    var s2 := Next(s, Arrival(a, 1, Landed));
    UnreportedReleaseOpens(s2, Some(a));
  }

  // ... and after the next process has started on the file the release left behind.
  lemma AfterUnreported(s: System, b: string)
    requires IsLowerGuid(b) && OpenFile(s.store.visible, None, 5)
    ensures NewlyAdmitted(Next(Next(s, Crash), CalmStart(Landed)), Arrival(b, 5, Landed)) == {b}
  {
    hide Next, OpenFile, IsLowerGuid, NewlyAdmitted;
    Stopped(s);
    Restart(Next(s, Crash), None, 5);
    ArrivalOutcome(Next(Next(s, Crash), CalmStart(Landed)), b, 5, Landed);
  }

  // Without any release that is synced, or reported, two sessions are admitted: the first completion
  // lands without being synced, and the next process finds nobody in the file.
  lemma UnreportedReleaseAdmitsTwo(a: string, b: string)
    requires IsLowerGuid(a) && IsLowerGuid(b) && a != b
    ensures SinceDurable(INITIAL, UnreportedSteps(a, b)) == {a, b} && AllIntact(INITIAL, UnreportedSteps(a, b))
    ensures var steps := UnreportedSteps(a, b);
            forall i :: 0 <= i < |steps| ==>
              !ReleasesDurably(Run(INITIAL, steps[..i]), steps[i]) && !ReportedRelease(Run(INITIAL, steps[..i]), steps[i])
  {
    hide Next, IsLowerGuid, NewlyAdmitted, SinceDurable, ReleasesDurably, ReportedRelease, Run, AllIntact, OpenFile;
    var steps := UnreportedSteps(a, b);
    FreshStart(INITIAL.store);
    StatesOfEight(INITIAL, steps);
    UntilUnreported(Next(INITIAL, CalmStart(Landed)), a);
    AfterUnreported(Run(INITIAL, steps[..5]), b);
    NoPowerFailure(steps);
    forall i | 0 <= i < 8
      ensures !ReleasesDurably(Run(INITIAL, steps[..i]), steps[i]) && !ReportedRelease(Run(INITIAL, steps[..i]), steps[i])
      ensures i != 1 && i != 7 ==> NewlyAdmitted(Run(INITIAL, steps[..i]), steps[i]) == {}
    {
      NoneDurable(Run(INITIAL, steps[..i]), steps[i]);
    }
    SinceOfEight(steps, a, b);
  }

  lemma NoneDurable(s: System, step: Step)
    ensures !step.Reconciling? && (step.Completing? ==> step.env.write != Landed) ==>
              !ReleasesDurably(s, step) && !ReportedRelease(s, step)
    ensures !step.Admitting? ==> NewlyAdmitted(s, step) == {}
  {
    hide ReleaseReply, Next, Evidence;
    if s.proc.Some? && (step.Completing? || step.Reconciling?) {
      ReleaseEffect(s, step);
    }
  }

  lemma StatesOfEight(s: System, steps: seq<Step>)
    requires |steps| == 8
    ensures var s1 := Next(s, steps[0]);
            var s4 := Next(Next(Next(s1, steps[1]), steps[2]), steps[3]);
            var s7 := Next(Next(Next(s4, steps[4]), steps[5]), steps[6]);
            && Run(s, steps[..1]) == s1 && Run(s, steps[..4]) == s4 && Run(s, steps[..5]) == Next(s4, steps[4])
            && Run(s, steps[..7]) == s7
  {
    hide Next, Run;
    RunPrefixes(s, steps);
    assert Run(s, steps[..0 + 1]) == Next(Run(s, steps[..0]), steps[0]);
    assert Run(s, steps[..1 + 1]) == Next(Run(s, steps[..1]), steps[1]);
    assert Run(s, steps[..2 + 1]) == Next(Run(s, steps[..2]), steps[2]);
    assert Run(s, steps[..3 + 1]) == Next(Run(s, steps[..3]), steps[3]);
    assert Run(s, steps[..4 + 1]) == Next(Run(s, steps[..4]), steps[4]);
    assert Run(s, steps[..5 + 1]) == Next(Run(s, steps[..5]), steps[5]);
    assert Run(s, steps[..6 + 1]) == Next(Run(s, steps[..6]), steps[6]);
  }

  lemma NoPowerFailure(steps: seq<Step>)
    requires forall i :: 0 <= i < |steps| ==> !steps[i].PowerLoss?
    ensures AllIntact(INITIAL, steps)
  {
  }

  lemma SinceOfEight(steps: seq<Step>, a: string, b: string)
    requires |steps| == 8
    requires forall i :: 0 <= i < 8 ==> !ReleasesDurably(Run(INITIAL, steps[..i]), steps[i])
    requires forall i :: 0 <= i < 8 && i != 1 && i != 7 ==> NewlyAdmitted(Run(INITIAL, steps[..i]), steps[i]) == {}
    requires NewlyAdmitted(Run(INITIAL, steps[..1]), steps[1]) == {a} && NewlyAdmitted(Run(INITIAL, steps[..7]), steps[7]) == {b}
    ensures SinceDurable(INITIAL, steps) == {a, b}
  {
    hide Run, ReleasesDurably, NewlyAdmitted;
    forall i | 0 <= i < 8
      ensures SinceDurable(INITIAL, steps[..i + 1]) ==
              SinceDurable(INITIAL, steps[..i]) + NewlyAdmitted(Run(INITIAL, steps[..i]), steps[i])
    {
      assert steps[..i + 1][..i] == steps[..i];
    }
    assert SinceDurable(INITIAL, steps[..0 + 1]) == {} && SinceDurable(INITIAL, steps[..1 + 1]) == {a};
    assert SinceDurable(INITIAL, steps[..2 + 1]) == {a} && SinceDurable(INITIAL, steps[..3 + 1]) == {a};
    assert SinceDurable(INITIAL, steps[..4 + 1]) == {a} && SinceDurable(INITIAL, steps[..5 + 1]) == {a};
    assert SinceDurable(INITIAL, steps[..6 + 1]) == {a} && SinceDurable(INITIAL, steps[..7 + 1]) == {a, b};
    assert steps[..8] == steps;
  }
}
