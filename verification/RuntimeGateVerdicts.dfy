// What the gate answers, decided from the file, the process, the clock and the control files alone:
// which ticket passes, which admission is granted, which teardown succeeds, and what a start fences.
module RuntimeGateVerdicts {
  import opened Wrappers
  import opened RuntimeSnapshot
  import opened RuntimeGate
  import opened RuntimeGateRuns
  import opened RuntimeGateSafety
  import Facts = RecycleGateFacts
  import Texts

  // The token is in the fence of a file that can be read.
  predicate InFence(st: Store, readable: bool, raw: string) {
    var token := Texts.NormalizeRecycleToken(raw);
    readable && Content(st.visible).Some? && token.Some? && token.value in Content(st.visible).value.completedTokens
  }

  // The command asks for a teardown that is not known to be over. Only a recycle can be over.
  predicate AsksForTeardown(st: Store, readable: bool, c: Command) {
    var kind := Texts.Lower(Texts.Trim(c.commandType));
    kind == "shutdown" || (kind == "recycletowarm" && !InFence(st, readable, c.commandId))
  }

  // A recycle token of the desired state that is not known to be completed.
  predicate AsksForRecycle(st: Store, readable: bool, token: Option<string>) {
    token.Some? && !InFence(st, readable, token.value)
  }

  lemma InspectIs(st: Store, readable: bool)
    ensures Inspect(st, readable).Found? <==> readable && Content(st.visible).Some?
    ensures Inspect(st, readable).Found? ==> Content(st.visible) == Some(Inspect(st, readable).s)
    ensures Inspect(st, readable).Missing? <==> readable && st.visible.None?
  {
    hide Parse;
  }

  lemma CompletionIs(st: Store, readable: bool, token: Option<string>)
    ensures TokenCompletion(st, readable, token).Completed? <==> token.Some? && InFence(st, readable, token.value)
    ensures TokenCompletion(st, readable, token).Unavailable? <==>
            token.Some? && Texts.NormalizeRecycleToken(token.value).Some? && !(readable && Content(st.visible).Some?)
  {
    hide Parse, Texts.NormalizeRecycleToken;
    InspectIs(st, readable);
  }

  // ---- tickets ----

  // A control file refuses exactly while it asks for a teardown.
  lemma ControlRefusesExactlyWhen(st: Store, env: Env)
    ensures ControlRefusal(st, env).None? <==>
            && (env.command.Some? ==> !AsksForTeardown(st, env.commandReadable, env.command.value))
            && !AsksForRecycle(st, env.desiredReadable, env.desired.recycleToken)
            && !env.desired.shutdown
  {
    hide Content, Inspect, Texts.NormalizeRecycleToken, Texts.Lower, Texts.Trim, InFence, TokenCompletion;
    CompletionIs(st, env.desiredReadable, env.desired.recycleToken);
    if env.command.Some? {
      CompletionIs(st, env.commandReadable, Some(env.command.value.commandId));
      assert "shutdown"[0] != "recycletowarm"[0];
    }
  }

  // A ticket names no session, or the one that owns the process, letter case and outer spaces aside.
  predicate NamesOwner(t: Ticket, owner: Option<string>) {
    t.session.Some? && Texts.Trim(t.session.value) != [] && owner.Some? ==>
      Texts.Lower(Texts.Trim(t.session.value)) == Texts.Lower(owner.value)
  }

  // Nothing asks for a teardown, no failure blocks the process, the file can be read, no recovery is
  // required, the ticket is for the owner, and it was issued after the cutoff.
  predicate MayPass(st: Store, p: Process, env: Env, t: Ticket) {
    && (env.command.Some? ==> !AsksForTeardown(st, env.commandReadable, env.command.value))
    && !AsksForRecycle(st, env.desiredReadable, env.desired.recycleToken)
    && !env.desired.shutdown
    && p.failure.None? && env.readable && Content(st.visible).Some?
    && !Content(st.visible).value.recoveryRequired
    && NamesOwner(t, p.owner)
    && t.issuedAt.Some? && t.issuedAt.value > Cutoff(Content(st.visible))
  }

  // These are exactly the tickets that pass.
  lemma TicketPassesExactlyWhen(st: Store, p: Process, env: Env, t: Ticket)
    ensures Reject(st, p, env, t).1.None? <==> MayPass(st, p, env, t)
    // It gives the process its owner, and a ticket that does not pass changes no owner.
    ensures Reject(st, p, env, t).0.owner ==
            if Reject(st, p, env, t).1.None? && p.owner.None? && t.session.Some? && Texts.Trim(t.session.value) != []
            then Some(Texts.Trim(t.session.value)) else p.owner
    // A file that cannot be read blocks the process from then on.
    ensures Reject(st, p, env, t).0.failure.None? ==> Reject(st, p, env, t).1.None? || p.failure.None?
    ensures ControlRefusal(st, env).None? && !(env.readable && Content(st.visible).Some?) ==> Reject(st, p, env, t).0.failure.Some?
  {
    hide ControlRefusal, AsksForTeardown, AsksForRecycle, Content, Inspect, Canonical, Texts.Lower, Texts.Trim;
    ControlRefusesExactlyWhen(st, env);
    InspectIs(st, env.readable);
    if Inspect(st, env.readable).Found? {
      FoundIsCanonical(st, env.readable);
      CanonicalHasCutoff(Inspect(st, env.readable).s);
    }
  }

  // ---- admissions ----

  // The sessions are the same, letter case aside; nothing is compared with an absent one.
  predicate NoOther(a: Option<string>, b: Option<string>) {
    a.Some? && b.Some? ==> Texts.Lower(a.value) == Texts.Lower(b.value)
  }

  // The ids are well formed, the file names no other session or active session, and either names these
  // already or can be made to.
  predicate MayBeAdmitted(st: Store, failure: Option<Reason>, env: Env, rawSession: string, rawActive: Option<string>) {
    var session := Texts.NormalizeGuid(rawSession);
    var active := if rawActive.Some? then Texts.NormalizeGuid(rawActive.value) else None;
    && failure.None? && session.Some? && (rawActive.Some? ==> active.Some?)
    && env.readable && Content(st.visible).Some?
    && var s := Content(st.visible).value;
       && NoOther(s.viewerRequest, session) && NoOther(s.viewerSession, active)
       && ((s.viewerRequest.Some? && (active.Some? ==> s.viewerSession.Some?)) || (HasUtc(env.now) && env.write.Landed?))
  }

  // These are exactly the viewers whose admission is granted.
  lemma AdmissionExactlyWhen(st: Store, p: Process, env: Env, rawSession: string, rawActive: Option<string>)
    ensures Record(st, p, env, rawSession, rawActive).2 == Returned(None) <==>
            MayBeAdmitted(st, p.failure, env, rawSession, rawActive)
    // It makes the process the host of that session.
    ensures Record(st, p, env, rawSession, rawActive).2 == Returned(None) ==>
              Record(st, p, env, rawSession, rawActive).1.admittedHere && Record(st, p, env, rawSession, rawActive).1.failure.None?
  {
    hide Content, Inspect, Normalized, ToDocument, Texts.Lower, Texts.NormalizeGuid;
    InspectIs(st, env.readable);
  }

  // A claim that holds a GUID, outer white space aside.
  predicate IsGuidClaim(claim: Option<string>) {
    claim.Some? && Texts.IsGuid(Texts.Trim(claim.value))
  }

  // The two gate calls admit a ticket exactly when its session and active session are GUIDs where they are
  // given, the journal blocks no managed session, the ticket passes, by its time of issue or else the time
  // from which it is valid, and the admission of a managed session is granted.
  lemma AdmitsExactlyWhen(st: Store, p: Process, rejectEnv: Env, recordEnv: Env, c: Claims)
    ensures var issued := if c.iat.Some? then c.iat else c.nbf;
            var session := if IsGuidClaim(c.session) then Some(Texts.Trim(c.session.value)) else None;
            var active := if IsGuidClaim(c.active) then Some(Texts.Trim(c.active.value)) else None;
            Admit(st, p, rejectEnv, recordEnv, c).2 <==>
            && (c.session.Some? ==> session.Some?) && (c.active.Some? ==> active.Some?)
            && (session.Some? ==> p.journalBlock.None?)
            && MayPass(st, p, rejectEnv, Ticket(issued, session))
            && (session.Some? ==> MayBeAdmitted(st, None, recordEnv, session.value, active))
    ensures c.session.None? ==> Admit(st, p, rejectEnv, recordEnv, c).0 == st
  {
    hide Reject, Record, MayPass, MayBeAdmitted, Texts.IsGuid, Texts.Trim;
    var issued := if c.iat.Some? then c.iat else c.nbf;
    var session, active := GuidClaim(c.session), GuidClaim(c.active);
    TicketPassesExactlyWhen(st, p, rejectEnv, Ticket(issued, session));
    PassingKeepsFailure(st, p, rejectEnv, Ticket(issued, session));
    if session.Some? {
      AdmissionExactlyWhen(st, Reject(st, p, rejectEnv, Ticket(issued, session)).0, recordEnv, session.value, active);
    }
  }

  lemma PassingKeepsFailure(st: Store, p: Process, env: Env, t: Ticket)
    ensures Reject(st, p, env, t).1.None? ==> Reject(st, p, env, t).0.failure.None?
  {
    hide Inspect, ControlRefusal, SnapshotRefusal, SessionText;
  }

  // ---- the commercial recovery ----

  // The gate says that a recovery is required unless it can read a file that says otherwise and no failure
  // blocks it.
  lemma RequiredExactlyWhen(st: Store, p: Process, readable: bool)
    ensures var (p', required) := IsRecoveryRequired(st, p, readable);
            && (!required <==> p.failure.None? && readable && Content(st.visible).Some? && !Content(st.visible).value.recoveryRequired)
            && p' == p.(failure := p'.failure)
            && (p'.failure.Some? <==> p.failure.Some? || !(readable && Content(st.visible).Some?))
  {
    hide Content, Inspect;
    InspectIs(st, readable);
  }

  // Preparing answers with the margin on file, if there is one; else it moves the cutoff to the skew from
  // now, unless it is later already, and answers with the margin one more skew after it, once that is
  // synced. Without a required recovery, or a readable file, it fails.
  lemma PrepareExactly(st: Store, p: Process, env: Env)
    ensures var (st', p', reply) := Prepare(st, p, env);
            var c := Content(st.visible);
            if !env.readable || c.None? || !c.value.recoveryRequired then
              st' == st && reply == Returned(None) && p'.failure.Some?
            else if c.value.readyNotBefore.Some? then
              st' == st && reply == Returned(c.value.readyNotBefore) && p'.failure.None?
            else
              var cutoff := Max(Cutoff(c), env.now + p.skew);
              if !(HasUtc(cutoff) && HasUtc(env.now)) then st' == st && reply == Threw
              else if env.write.Landed? then
                && reply == Returned(Some(cutoff + p.skew)) && p'.failure.None? && st'.synced == st'.visible && Content(st'.visible).Some?
                && var s' := Content(st'.visible).value;
                   && s'.cutoff == Some(cutoff) && s'.readyNotBefore == Some(cutoff + p.skew) && s'.recoveryRequired
                   && s'.viewerRequest == c.value.viewerRequest && s'.completedTokens == c.value.completedTokens
              else reply == Returned(None) && p'.failure.Some? && st'.synced == st.synced
  {
    hide Parse, Canonical, ToDocument, Normalized;
    InspectIs(st, env.readable);
    PrepareEffect(st, p, env);
    if Inspect(st, env.readable).Found? {
      FoundIsCanonical(st, env.readable);
      CanonicalHasCutoff(Inspect(st, env.readable).s);
    }
  }

  // A recovery is completed exactly on a readable file: past its margin and with a complete write, if it is
  // still required, and else if the token is fenced already. It then is not required, nobody owns the
  // runtime, and the token is in the fence.
  lemma CompletesExactlyWhen(st: Store, p: Process, env: Env, rawToken: Option<string>)
    ensures var (st', p', reply) := CompleteRecovery(st, p, env, rawToken);
            var c := Content(st.visible);
            var token := if rawToken.Some? then Texts.NormalizeRecycleToken(rawToken.value) else None;
            && (reply == Returned(true) <==>
                  && env.readable && c.Some?
                  && if c.value.recoveryRequired
                     then c.value.readyNotBefore.Some? && env.now > c.value.readyNotBefore.value && HasUtc(env.now) && env.write.Landed?
                     else token.Some? ==> token.value in c.value.completedTokens)
            && (reply == Returned(true) && c.value.recoveryRequired ==>
                  && st'.synced == st'.visible && Content(st'.visible).Some? && p'.owner.None? && p'.failure.None?
                  && var s' := Content(st'.visible).value;
                     && !s'.recoveryRequired && s'.readyNotBefore.None? && s'.viewerRequest.None? && s'.viewerSession.None?
                     && s'.firstAdmitted.None? && s'.cutoff == c.value.cutoff
                     && (token.Some? ==> token.value in s'.completedTokens))
            && (!(env.readable && c.Some? && c.value.recoveryRequired) ==> st' == st)
  {
    hide Parse, Canonical, CanonicalFields, ToDocument, Normalized, Fenced, Texts.NormalizeRecycleToken;
    InspectIs(st, env.readable);
    CompleteRecoveryEffect(st, p, env, rawToken);
    var found := Inspect(st, env.readable);
    if MayRecover(found, env.now) && HasUtc(env.now) {
      FoundIsCanonical(st, env.readable);
      RecoveredCanonical(found.s, RecycleToken(rawToken), env.now);
      RecoveredTokens(found.s, rawToken, env.now);
      WriteEffect(st, Recovered(found.s, RecycleToken(rawToken), env.now), env.write);
      FencedFields(Recovered(found.s, RecycleToken(rawToken), env.now));
      Facts.CompletedIsFenced(found.s, rawToken, env.now);
    }
  }

  lemma FencedFields(s: Snapshot)
    ensures Fenced(s) == s.(completedTokens := Fenced(s).completedTokens)
  {
    hide LastTokens, Dedupe;
  }

  // ---- teardowns ----

  // A teardown succeeds exactly when the file can be read and the write lands, synced; it fails for
  // good until a later write succeeds.
  lemma TeardownSucceedsExactlyWhen(st: Store, p: Process, now: nat, readable: bool, write: WriteOutcome, opts: TeardownOptions)
    ensures var (_, p', reply) := MarkTeardown(st, p, now, readable, write, opts);
            && (reply == Returned(true) <==>
                  && readable && Content(st.visible).Some? && write.Landed? && HasUtc(now)
                  && HasUtc(Max(Cutoff(Content(st.visible)), AskedSecond(now, opts.occurredAt))))
            && (reply == Returned(false) ==> p'.failure.Some?)
  {
    hide Content, Inspect, Normalized, ToDocument, Canonical, TornDown;
    InspectIs(st, readable);
    if Inspect(st, readable).Found? {
      FoundIsCanonical(st, readable);
      CanonicalHasCutoff(Inspect(st, readable).s);
    }
  }

  // A text that is given and not blank, trimmed; else what was there before.
  function Renewed(given: Option<Text>, before: Option<Text>): Option<Text> {
    match given
    case Some(Stamp(ms)) => given
    case Some(Plain(chars)) => if Texts.Trim(chars) == "" then before else Some(Plain(Texts.Trim(chars)))
    case None => before
  }

  // The notes a teardown leaves beside its cutoff: who asked, if it is said, and when it was.
  lemma TeardownNotes(st: Store, p: Process, now: nat, readable: bool, write: WriteOutcome, opts: TeardownOptions)
    requires MarkTeardown(st, p, now, readable, write, opts).2 == Returned(true)
    ensures Content(st.visible).Some? && Content(MarkTeardown(st, p, now, readable, write, opts).0.visible).Some?
    ensures var s, s' := Content(st.visible).value, Content(MarkTeardown(st, p, now, readable, write, opts).0.visible).value;
            && s'.reason == Renewed(opts.reason, s.reason) && s'.commandType == Renewed(opts.commandType, s.commandType)
            && s'.commandId == Renewed(opts.commandId, s.commandId) && s'.updatedAt == Some(Stamp(1000 * now))
            && s'.cutoffUtc.Some? && UtcSeconds(s'.cutoffUtc.value) == s'.cutoff
            && s'.viewerSession == s.viewerSession && s'.firstAdmitted == s.firstAdmitted
  {
    hide Parse, Canonical, ToDocument, Normalized, Texts.Trim;
    MarkTeardownEffect(st, p, now, readable, write, opts);
    FoundIsCanonical(st, readable);
  }

  // What an admission that is written leaves: the session, the first active session that was named, the
  // instant of the first admission, and the rest as it was.
  lemma AdmissionNotes(st: Store, p: Process, env: Env, rawSession: string, rawActive: Option<string>)
    requires Record(st, p, env, rawSession, rawActive).2 == Returned(None) && Record(st, p, env, rawSession, rawActive).0 != st
    ensures Content(st.visible).Some? && Content(Record(st, p, env, rawSession, rawActive).0.visible).Some?
    ensures var s, s' := Content(st.visible).value, Content(Record(st, p, env, rawSession, rawActive).0.visible).value;
            && s'.viewerRequest == Texts.NormalizeGuid(rawSession)
            && s'.viewerSession == (if s.viewerSession.Some? then s.viewerSession
                                    else if rawActive.Some? then Texts.NormalizeGuid(rawActive.value) else None)
            && s'.firstAdmitted == (if s.firstAdmitted.Some? then s.firstAdmitted else Some(Stamp(1000 * env.now)))
            && s'.updatedAt == Some(Stamp(1000 * env.now))
            && s'.cutoff == s.cutoff && s'.recoveryRequired == s.recoveryRequired && s'.completedTokens == s.completedTokens
            && Record(st, p, env, rawSession, rawActive).0.synced == Record(st, p, env, rawSession, rawActive).0.visible
            && Record(st, p, env, rawSession, rawActive).1.owner == Texts.NormalizeGuid(rawSession)
  {
    hide Parse, Canonical, ToDocument, Normalized, Texts.NormalizeGuid, SameSession;
    RecordEffect(st, p, env, rawSession, rawActive);
    InspectIs(st, env.readable);
  }

  // ---- starts ----

  // A file that is latched, synced, with a cutoff of at least `asked`.
  ghost predicate FencedAt(st: Store, asked: int) {
    var c := Content(st.visible);
    st.synced == st.visible && c.Some? && c.value.recoveryRequired && asked <= Cutoff(c)
  }

  lemma TeardownIsFenced(st: Store, p: Process, now: nat, readable: bool, write: WriteOutcome, opts: TeardownOptions)
    requires MarkTeardown(st, p, now, readable, write, opts).2 == Returned(true)
    ensures FencedAt(MarkTeardown(st, p, now, readable, write, opts).0, AskedSecond(now, opts.occurredAt))
    ensures Cutoff(Content(st.visible)) <= Cutoff(Content(MarkTeardown(st, p, now, readable, write, opts).0.visible))
    ensures Content(st.visible).Some? && Content(MarkTeardown(st, p, now, readable, write, opts).0.visible).value.completedTokens
                                         == Content(st.visible).value.completedTokens
  {
    hide Content, MarkTeardown, AskedSecond;
    TeardownFences(st, p, now, readable, write, opts);
  }

  // What the first recovery of a start does: a command that asks for a teardown, and has not expired,
  // is fenced again; any other leaves the file.
  lemma CommandIsFenced(st: Store, p: Process, e: StartEnv)
    requires RecoverCommand(st, p, e).1.Returned?
    ensures if e.command.Some? && !e.command.value.expired && AsksForTeardown(st, e.commandReadable, e.command.value)
            then FencedAt(RecoverCommand(st, p, e).0, AskedSecond(e.now, Some(e.command.value.requestedAt)))
                 && Content(st.visible).Some?
                 && Content(RecoverCommand(st, p, e).0.visible).value.completedTokens == Content(st.visible).value.completedTokens
            else RecoverCommand(st, p, e) == (st, Returned(p))
  {
    hide Content, Inspect, Texts.NormalizeRecycleToken, Texts.Lower, Texts.Trim, InFence, TokenCompletion, MarkTeardown, AskedSecond,
      FencedAt;
    if e.command.Some? {
      var c := e.command.value;
      CompletionIs(st, e.commandReadable, Some(c.commandId));
      assert "shutdown"[0] != "recycletowarm"[0];
      if CommandNeedsTeardown(st, e) {
        TeardownIsFenced(st, p, e.now, e.commandTeardownReadable, e.commandWrite,
          TeardownOptions(Some(c.requestedAt), Some(Plain("recovered_active_teardown_command")),
                          Some(Plain(c.commandType)), Some(Plain(c.commandId))));
      }
    }
  }

  // A recovery throws exactly when it cannot tell whether a recycle is over, or cannot fence its teardown.
  lemma CommandRecoversExactlyWhen(st: Store, p: Process, e: StartEnv)
    ensures RecoverCommand(st, p, e).1.Returned? <==>
            e.command.Some? ==>
              var c := e.command.value;
              && (Texts.Lower(Texts.Trim(c.commandType)) == "recycletowarm" && Texts.NormalizeRecycleToken(c.commandId).Some? ==>
                    e.commandReadable && Content(st.visible).Some?)
              && (!c.expired && AsksForTeardown(st, e.commandReadable, c) ==>
                    CanFence(st, e.now, e.commandTeardownReadable, e.commandWrite, Some(c.requestedAt)))
  {
    hide Content, Inspect, Texts.NormalizeRecycleToken, Texts.Lower, Texts.Trim, InFence, TokenCompletion, MarkTeardown, CanFence;
    if e.command.Some? {
      var c := e.command.value;
      CompletionIs(st, e.commandReadable, Some(c.commandId));
      assert "shutdown"[0] != "recycletowarm"[0];
      TeardownSucceedsExactlyWhen(st, p, e.now, e.commandTeardownReadable, e.commandWrite,
        TeardownOptions(Some(c.requestedAt), Some(Plain("recovered_active_teardown_command")),
                        Some(Plain(c.commandType)), Some(Plain(c.commandId))));
      CanFenceIs(st, e.now, e.commandTeardownReadable, e.commandWrite, Some(c.requestedAt));
    }
  }

  lemma DesiredRecoversExactlyWhen(st: Store, p: Process, e: StartEnv)
    ensures RecoverDesired(st, p, e).1.Returned? <==>
            && (e.desired.recycleToken.Some? && Texts.NormalizeRecycleToken(e.desired.recycleToken.value).Some? ==>
                  e.desiredReadable && Content(st.visible).Some?)
            && (AsksForRecycle(st, e.desiredReadable, e.desired.recycleToken) || e.desired.shutdown ==>
                  CanFence(st, e.now, e.desiredTeardownReadable, e.desiredWrite, e.desired.updatedAt))
  {
    hide Content, Inspect, Texts.NormalizeRecycleToken, InFence, TokenCompletion, MarkTeardown, CanFence;
    CompletionIs(st, e.desiredReadable, e.desired.recycleToken);
    var reason := if e.desired.recycleToken.Some?
                  then "recovered_desired_state_recycle_request" else "recovered_desired_state_shutdown_request";
    TeardownSucceedsExactlyWhen(st, p, e.now, e.desiredTeardownReadable, e.desiredWrite,
      TeardownOptions(e.desired.updatedAt, Some(Plain(reason)), None, None));
    CanFenceIs(st, e.now, e.desiredTeardownReadable, e.desiredWrite, e.desired.updatedAt);
  }

  // A teardown for that time would succeed.
  predicate CanFence(st: Store, now: nat, readable: bool, write: WriteOutcome, occurredAt: Option<Text>) {
    && readable && Content(st.visible).Some? && write.Landed? && HasUtc(now)
    && HasUtc(Max(Cutoff(Content(st.visible)), AskedSecond(now, occurredAt)))
  }

  lemma CanFenceIs(st: Store, now: nat, readable: bool, write: WriteOutcome, occurredAt: Option<Text>)
    ensures CanFence(st, now, readable, write, occurredAt) <==>
            && readable && Content(st.visible).Some? && write.Landed? && HasUtc(now)
            && HasUtc(Max(Cutoff(Content(st.visible)), AskedSecond(now, occurredAt)))
  {
  }

  // A missing file is created with cutoff 0, and nobody in it, exactly when that is synced; one that is
  // there must be readable.
  lemma OpensExactlyWhen(st: Store, e: StartEnv)
    ensures var (st', r) := OpenState(st, e);
            && (r.Returned? <==> e.initialReadable
                                 && (Content(st.visible).Some? || (st.visible.None? && HasUtc(e.now) && e.baselineWrite.Landed?)))
            && (st.visible.Some? ==> st' == st)
            && (st.visible.None? && r.Returned? ==>
                  && st'.synced == st'.visible && Content(st'.visible).Some?
                  && var s := Content(st'.visible).value;
                     s.cutoff == Some(0) && !s.recoveryRequired && s.viewerRequest.None? && s.completedTokens == [])
  {
    hide Parse, Canonical, ToDocument, Normalized;
    OpenStateEffect(st, e);
    InspectIs(st, e.initialReadable);
    if HasUtc(e.now) {
      BaselineCanonical(e.now);
      WriteCanonical(st, Baseline(e.now), e.baselineWrite);
    }
  }

  // What the second one does: a teardown that the desired state asks for is fenced again.
  lemma DesiredIsFenced(st: Store, p: Process, e: StartEnv)
    requires RecoverDesired(st, p, e).1.Returned?
    ensures if AsksForRecycle(st, e.desiredReadable, e.desired.recycleToken) || e.desired.shutdown
            then FencedAt(RecoverDesired(st, p, e).0, AskedSecond(e.now, e.desired.updatedAt))
                 && Cutoff(Content(st.visible)) <= Cutoff(Content(RecoverDesired(st, p, e).0.visible))
            else RecoverDesired(st, p, e) == (st, Returned(p))
  {
    hide Content, Inspect, Texts.NormalizeRecycleToken, InFence, TokenCompletion, MarkTeardown, AskedSecond, FencedAt;
    CompletionIs(st, e.desiredReadable, e.desired.recycleToken);
    if DesiredNeedsTeardown(st, e) {
      var reason := if e.desired.recycleToken.Some?
                    then "recovered_desired_state_recycle_request" else "recovered_desired_state_shutdown_request";
      TeardownIsFenced(st, p, e.now, e.desiredTeardownReadable, e.desiredWrite,
        TeardownOptions(e.desired.updatedAt, Some(Plain(reason)), None, None));
    }
  }

  // A start that does not throw leaves a readable file. What a control file asks for is fenced in it,
  // synced; a start on a file for which nothing is asked changes nothing.
  lemma StartFences(st: Store, e: StartEnv)
    requires Start(st, e).1.Returned? && Content(st.visible).Some?
    ensures var c := Content(Start(st, e).0.visible);
            var byCommand := e.command.Some? && !e.command.value.expired && AsksForTeardown(st, e.commandReadable, e.command.value);
            var byDesired := AsksForRecycle(st, e.desiredReadable, e.desired.recycleToken) || e.desired.shutdown;
            && (byCommand ==> FencedAt(Start(st, e).0, AskedSecond(e.now, Some(e.command.value.requestedAt))))
            && (byDesired ==> FencedAt(Start(st, e).0, AskedSecond(e.now, e.desired.updatedAt)))
            && (!byCommand && !byDesired ==> Start(st, e).0 == st)
    ensures var p := Start(st, e).1.value;
            p.owner == Content(st.visible).value.viewerRequest && !p.admittedHere && p.failure.None? && p.journalBlock.None?
            && p.skew == e.skew && p.hostBootMs == e.hostBootMs
  {
    hide Content, Texts.NormalizeRecycleToken, Texts.Lower, Texts.Trim, MarkTeardown, AskedSecond, CommandNeedsTeardown,
      DesiredNeedsTeardown, Parse, RecoverCommand, RecoverDesired;
    InspectIs(st, e.initialReadable);
    var p := OpenState(st, e).1.value;
    CommandIsFenced(st, p, e);
    RecoverCommandKeepsProcess(st, p, e);
    var (st2, r2) := RecoverCommand(st, p, e);
    DesiredIsFenced(st2, r2.value, e);
    RecoverDesiredKeepsProcess(st2, r2.value, e);
  }

  lemma RecoverCommandKeepsProcess(st: Store, p: Process, e: StartEnv)
    requires RecoverCommand(st, p, e).1.Returned?
    ensures RecoverCommand(st, p, e).1.value == p.(failure := RecoverCommand(st, p, e).1.value.failure)
    ensures p.failure.None? ==> RecoverCommand(st, p, e).1.value.failure.None?
  {
    hide Inspect, Normalized, TornDown, CommandStatus, CommandNeedsTeardown;
  }

  lemma RecoverDesiredKeepsProcess(st: Store, p: Process, e: StartEnv)
    requires RecoverDesired(st, p, e).1.Returned?
    ensures RecoverDesired(st, p, e).1.value == p.(failure := RecoverDesired(st, p, e).1.value.failure)
    ensures p.failure.None? ==> RecoverDesired(st, p, e).1.value.failure.None?
  {
    hide Inspect, Normalized, TornDown, TokenCompletion, DesiredNeedsTeardown;
  }
}
