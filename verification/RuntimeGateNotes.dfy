// What the writing calls leave behind: the reason with which a failed call blocks the process, and
// the stamps on the file.
module RuntimeGateNotes {
  import opened Wrappers
  import opened RuntimeSnapshot
  import opened RuntimeGate
  import opened RuntimeGateRuns
  import opened RuntimeGateVerdicts
  import Safety = RuntimeGateSafety
  import Texts

  // The file after a call that wrote: untouched when the write was lost, and else with s, synced
  // exactly when the write was complete.
  ghost predicate Holds(st: Store, st': Store, s: Snapshot, write: WriteOutcome) {
    if write.Lost? then st' == st
    else Content(st'.visible) == Some(s) && st'.synced == if write.Landed? then st'.visible else st.synced
  }

  lemma WritesOut(st: Store, s: Snapshot, write: WriteOutcome)
    requires Canonical(s)
    ensures Holds(st, Write(st, Normalized(s), write).0, s, write)
    ensures Write(st, Normalized(s), write).1 <==> write.Landed?
  {
    hide Parse, Canonical, ToDocument, Normalized;
    WriteCanonical(st, s, write);
  }

  // ---- admissions ----

  // An admission answers with its reason, first of all that of an earlier failure. Evidence that cannot
  // be read, or could not be written, also blocks the process.
  lemma AdmissionReason(st: Store, p: Process, env: Env, rawSession: string, rawActive: Option<string>)
    ensures var (st', p', reply) := Record(st, p, env, rawSession, rawActive);
            var session := Texts.NormalizeGuid(rawSession);
            var active := if rawActive.Some? then Texts.NormalizeGuid(rawActive.value) else None;
            if p.failure.Some? then
              st' == st && p' == p && reply == Returned(p.failure)
            else if session.None? || (rawActive.Some? && active.None?) then
              st' == st && p' == p && reply == Returned(Some(IdentityInvalid))
            else if !env.readable || Content(st.visible).None? then
              st' == st && p' == p.(failure := Some(EvidenceUnusable)) && reply == Returned(Some(EvidenceUnusable))
            else
              var s := Content(st.visible).value;
              if !NoOther(s.viewerRequest, session) then
                st' == st && p' == p && reply == Returned(Some(EvidenceOtherSession))
              else if !NoOther(s.viewerSession, active) then
                st' == st && p' == p && reply == Returned(Some(EvidenceOtherActiveSession))
              else if s.viewerRequest.Some? && (active.Some? ==> s.viewerSession.Some?) then
                st' == st && p' == p.(admittedHere := true) && reply == Returned(None)
              else if !HasUtc(env.now) then
                st' == st && p' == p && reply == Threw
              else if env.write.Landed? then
                p' == p.(owner := session, admittedHere := true) && reply == Returned(None)
              else
                p' == p.(failure := Some(EvidenceNotPersisted)) && reply == Returned(Some(EvidenceNotPersisted))
  {
    hide Content, Inspect, Normalized, ToDocument, Texts.Lower, Texts.NormalizeGuid;
    InspectIs(st, env.readable);
  }

  // ---- the release after a host boot ----

  // A release takes the session off the file and stamps the fence it leaves.
  lemma ReleaseIsStamped(st: Store, p: Process, env: Env, rawAssigned: Option<string>)
    requires env.readable && Content(st.visible).Some?
    ensures var (st', p', reply) := Reconcile(st, p, env, rawAssigned);
            var c := Content(st.visible).value;
            var cutoff := Max(Cutoff(Some(c)), env.now + p.skew);
            st' == st ||
            (HasUtc(cutoff) && HasUtc(env.now) &&
             Holds(st, st', c.(viewerRequest := None, viewerSession := None, firstAdmitted := None,
                               cutoff := Some(cutoff), cutoffUtc := Some(ToUtc(cutoff)),
                               reason := Some(Plain("prior_assignment_released_after_host_boot")),
                               updatedAt := Some(ToUtc(env.now))), env.write))
  {
    hide Parse, Canonical, ToDocument, Normalized, Holds, SameSession, Texts.NormalizeGuid;
    InspectIs(st, env.readable);
    FoundIsCanonical(st, env.readable);
    var c := Content(st.visible).value;
    HasCutoff(c);
    if HasUtc(Max(c.cutoff.GetOr(0), env.now + p.skew)) && HasUtc(env.now) && !c.recoveryRequired {
      ReleasedCanonical(c, env.now, p.skew);
      WritesOut(st, Released(c, env.now, p.skew), env.write);
    }
  }

  lemma HasCutoff(s: Snapshot)
    requires Canonical(s)
    ensures s.cutoff.Some? && Cutoff(Some(s)) == s.cutoff.value && s.cutoff.GetOr(0) == s.cutoff.value
  {
    Safety.CanonicalHasCutoff(s);
  }

  // ---- the commercial recovery ----

  // A preparation that writes a margin stamps the file; one that fails blocks the process with its reason.
  lemma PreparationIsStamped(st: Store, p: Process, env: Env)
    ensures var (st', p', reply) := Prepare(st, p, env);
            var c := Content(st.visible);
            if !env.readable || c.None? || !c.value.recoveryRequired then
              st' == st && p' == p.(failure := Some(RecoveryNotPrepared))
            else if c.value.readyNotBefore.Some? then
              st' == st && p' == p.(failure := None)
            else
              var cutoff := Max(Cutoff(c), env.now + p.skew);
              if !(HasUtc(cutoff) && HasUtc(env.now)) then st' == st && p' == p
              else
                && p' == p.(failure := if env.write.Landed? then None else Some(ReadyCutoffNotPersisted))
                && Holds(st, st', c.value.(cutoff := Some(cutoff), cutoffUtc := Some(ToUtc(cutoff)),
                                           recoveryRequired := true, readyNotBefore := Some(cutoff + p.skew),
                                           reason := Some(Plain("commercial_recovery_ready_margin")),
                                           updatedAt := Some(ToUtc(env.now))), env.write)
  {
    hide Parse, Canonical, ToDocument, Normalized, Holds;
    InspectIs(st, env.readable);
    if env.readable && Content(st.visible).Some? {
      FoundIsCanonical(st, env.readable);
      var c := Content(st.visible).value;
      HasCutoff(c);
      if HasUtc(Max(c.cutoff.GetOr(0), env.now + p.skew)) && HasUtc(env.now) {
        PreparedCanonical(c, env.now, p.skew);
        WritesOut(st, Prepared(c, env.now, p.skew), env.write);
      }
    }
  }

  // The block that a completion leaves on the process; while the margin runs it leaves it as it was.
  lemma CompletionBlocks(st: Store, p: Process, env: Env, rawToken: Option<string>)
    ensures var (st', p', reply) := CompleteRecovery(st, p, env, rawToken);
            var c := Content(st.visible);
            var token := if rawToken.Some? then Texts.NormalizeRecycleToken(rawToken.value) else None;
            if !env.readable || c.None? then p' == p.(failure := Some(RecoveryNotCompleted))
            else if !c.value.recoveryRequired then
              p' == p.(failure := if token.Some? && token.value !in c.value.completedTokens then Some(FenceMissing) else None)
            else if c.value.readyNotBefore.None? || env.now <= c.value.readyNotBefore.value || !HasUtc(env.now) then
              p' == p && st' == st
            else if env.write.Landed? then p' == p.(failure := None, owner := None)
            else p' == p.(failure := Some(CompletionNotPersisted))
  {
    hide Content, Inspect, Normalized, ToDocument, Recovered, Texts.NormalizeRecycleToken;
    InspectIs(st, env.readable);
  }

  // A completion stamps the file.
  lemma CompletionIsStamped(st: Store, p: Process, env: Env, rawToken: Option<string>)
    ensures var st' := CompleteRecovery(st, p, env, rawToken).0;
            Content(st'.visible).Some? && Content(st'.visible) != Content(st.visible) ==>
              && HasUtc(env.now) && Content(st.visible).Some?
              && Content(st'.visible).value.updatedAt == Some(ToUtc(env.now))
              && Content(st'.visible).value.reason == Content(st.visible).value.reason
  {
    hide Parse, Canonical, CanonicalFields, ToDocument, Normalized, Normalize, Texts.NormalizeRecycleToken;
    CompleteRecoveryEffect(st, p, env, rawToken);
    InspectIs(st, env.readable);
  }

  // ---- the block of the evidence journal ----

  // A reason that is not blank blocks every managed session; without one they are not blocked.
  lemma JournalBlocks(st: Store, p: Process, reason: Option<string>, rejectEnv: Env, recordEnv: Env, c: Claims)
    ensures var blocked := SetJournalBlock(p, reason);
            && (blocked.journalBlock.Some? <==> reason.Some? && Texts.Trim(reason.value) != "")
            && blocked == p.(journalBlock := blocked.journalBlock)
            && (blocked.journalBlock.Some? && c.session.Some? ==> !Admit(st, blocked, rejectEnv, recordEnv, c).2)
  {
    hide Reject, Record, Texts.IsGuid, Texts.Trim;
  }
}
