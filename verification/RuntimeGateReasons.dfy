// Why a ticket is refused: for every refusal the exact condition, on the file, the process and the
// control files. And what a process knows when it has opened.
module RuntimeGateReasons {
  import opened Wrappers
  import opened RuntimeSnapshot
  import opened RuntimeGate
  import opened RuntimeGateRuns
  import opened RuntimeGateVerdicts
  import Safety = RuntimeGateSafety
  import Texts

  // A token that cannot be looked up: it is one, and the file with the fence cannot be read.
  predicate NotKnown(st: Store, readable: bool, raw: string) {
    Texts.NormalizeRecycleToken(raw).Some? && !(readable && Content(st.visible).Some?)
  }

  predicate RecyclesUnknown(st: Store, env: Env) {
    env.command.Some? && Texts.Lower(Texts.Trim(env.command.value.commandType)) == "recycletowarm"
    && NotKnown(st, env.commandReadable, env.command.value.commandId)
  }

  predicate WantsUnknown(st: Store, env: Env) {
    env.desired.recycleToken.Some? && NotKnown(st, env.desiredReadable, env.desired.recycleToken.value)
  }

  predicate CommandAsks(st: Store, env: Env) {
    env.command.Some? && AsksForTeardown(st, env.commandReadable, env.command.value)
  }

  predicate DesiredAsks(st: Store, env: Env) {
    AsksForRecycle(st, env.desiredReadable, env.desired.recycleToken) || env.desired.shutdown
  }

  lemma CommandAsksIs(st: Store, env: Env)
    ensures CommandStatus(st, env.commandReadable, env.command).Unavailable? <==> RecyclesUnknown(st, env)
    ensures (IsTeardownCommand(env.command) && !CommandStatus(st, env.commandReadable, env.command).Completed?)
            <==> CommandAsks(st, env)
    ensures RecyclesUnknown(st, env) ==> CommandAsks(st, env)
  {
    hide Content, Inspect, Texts.NormalizeRecycleToken, Texts.Lower, Texts.Trim, InFence, TokenCompletion;
    if env.command.Some? {
      CompletionIs(st, env.commandReadable, Some(env.command.value.commandId));
      UnknownIsOut(st, env.commandReadable, env.command.value.commandId);
      assert "shutdown"[0] != "recycletowarm"[0];
    }
  }

  lemma UnknownIsOut(st: Store, readable: bool, raw: string)
    ensures NotKnown(st, readable, raw) ==> !InFence(st, readable, raw)
  {
  }

  // What a control file asks for, it refuses; the command is looked at first. The reason is the fence
  // only for a token that cannot be looked up.
  lemma ControlReason(st: Store, env: Env)
    ensures ControlRefusal(st, env) == Some(FenceUnusable) <==>
            RecyclesUnknown(st, env) || (!CommandAsks(st, env) && WantsUnknown(st, env))
    ensures ControlRefusal(st, env) == Some(TeardownInProgress) <==>
            (CommandAsks(st, env) && !RecyclesUnknown(st, env))
            || (!CommandAsks(st, env) && DesiredAsks(st, env) && !WantsUnknown(st, env))
    ensures ControlRefusal(st, env).None? <==> !CommandAsks(st, env) && !DesiredAsks(st, env)
  {
    hide Content, Inspect, InFence, TokenCompletion, CommandStatus, IsTeardownCommand, RecyclesUnknown, CommandAsks, Texts.NormalizeRecycleToken;
    CommandAsksIs(st, env);
    CompletionIs(st, env.desiredReadable, env.desired.recycleToken);
    if env.desired.recycleToken.Some? {
      UnknownIsOut(st, env.desiredReadable, env.desired.recycleToken.value);
    }
  }

  // Without such a control file and without an earlier failure the file decides, and the refusals
  // have this order.
  lemma TicketReason(st: Store, p: Process, env: Env, t: Ticket)
    requires ControlRefusal(st, env).None?
    ensures var reason := Reject(st, p, env, t).1;
            if p.failure.Some? then reason == p.failure
            else if !env.readable || Content(st.visible).None? then reason == Some(StateUnusable)
            else
              var s := Content(st.visible).value;
              && (reason == Some(OtherSession) <==> !NamesOwner(t, p.owner))
              && (reason == Some(RecoveryIncomplete) <==> NamesOwner(t, p.owner) && s.recoveryRequired)
              && (reason == Some(NoIssueTime) <==> NamesOwner(t, p.owner) && !s.recoveryRequired && t.issuedAt.None?)
              && (reason == Some(IssuedBeforeTeardown) <==>
                    NamesOwner(t, p.owner) && !s.recoveryRequired && t.issuedAt.Some? && t.issuedAt.value <= Cutoff(Some(s)))
  {
    hide ControlRefusal, Content, Inspect, Canonical, Texts.Lower, Texts.Trim;
    InspectIs(st, env.readable);
    if Inspect(st, env.readable).Found? {
      FoundIsCanonical(st, env.readable);
      Safety.CanonicalHasCutoff(Inspect(st, env.readable).s);
    }
  }

  // A process opens without a failure and without an admission of its own; its owner is the session
  // that the file names. A new file holds the first baseline.
  lemma OpenedProcess(st: Store, e: StartEnv)
    requires OpenState(st, e).1.Returned?
    ensures var (st', r) := OpenState(st, e);
            && Content(st'.visible).Some?
            && r.value == Process(e.skew, e.hostBootMs, None, None, Content(st'.visible).value.viewerRequest, false)
            && (st.visible.None? ==>
                  Content(st'.visible) == Some(Snapshot(Some(0), Some(ToUtc(0)), Some(Plain("runtime_state_initialized")),
                    None, None, Some(ToUtc(e.now)), false, None, None, None, None, [])))
  {
    hide Parse, Canonical, ToDocument, Normalized;
    InspectIs(st, e.initialReadable);
    if HasUtc(e.now) {
      BaselineCanonical(e.now);
      WriteCanonical(st, Baseline(e.now), e.baselineWrite);
    }
  }
}
