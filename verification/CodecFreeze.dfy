// What a subscription attempt or an offer or answer means for the codec of a governed viewer: it is
// fixed for good, except that of a viewer that had failed, and had never reported its codecs.
module CodecFreeze {
  import opened Wrappers
  import opened CodecPolicies
  import opened Connections
  import opened ConnectionLaws
  import opened ConnectionRuns
  import opened CodecNegotiation

  // Some report of the browser's codecs would still change the selected one.
  ghost predicate CodecOpen(net: Net, x: nat)
    requires x in net.viewers
  {
    exists supported, e :: Changes(net, x, supported, e)
  }

  predicate Changes(net: Net, x: nat, supported: Supported, e: Env)
    requires x in net.viewers
  {
    x in Capabilities(net, x, supported, e).viewers
    && Capabilities(net, x, supported, e).viewers[x].selected != net.viewers[x].selected
  }

  // The policy allows another codec than the selected one, and among those that are tried.
  predicate MayFallBack(v: Viewer) {
    && v.policy.Some? && v.selected.Some? && v.shadowOf.None?
    && exists c :: c in [v.policy.value.defaultCodec, VP9, H264] && c in v.policy.value.allowed && c != v.selected.value
  }

  lemma {:induction false} FirstOfOne(wanted: seq<VideoCodec>, allowed: seq<VideoCodec>, c: VideoCodec)
    requires c in wanted && c in allowed
    ensures FirstOf(wanted, allowed, [c]) == Some(c)
  {
    if wanted[0] != c {
      FirstOfOne(wanted[1..], allowed, c);
    }
  }

  lemma OpenExactlyWhen(net: Net, x: nat)
    requires Inv(net) && x in net.viewers
    ensures CodecOpen(net, x) <==> !net.viewers[x].finalized && MayFallBack(net.viewers[x])
  {
    hide Inv, Fail, Restricts;
    InvGoverned(net, x);
    var v := net.viewers[x];
    FailOnly(Put(net, x, v.(finalized := true)), x);
    if !v.finalized && MayFallBack(v) {
      var c :| c in [v.policy.value.defaultCodec, VP9, H264] && c in v.policy.value.allowed && c != v.selected.value;
      FirstOfOne([v.policy.value.defaultCodec, VP9, H264], v.policy.value.allowed, c);
      assert Changes(net, x, Codecs([c]), Env(true, false));
    }
    if CodecOpen(net, x) {
      var supported, e :| Changes(net, x, supported, e);
      CapabilitiesSelects(net, x, supported, e);
    }
  }

  lemma CapabilitiesSelects(net: Net, x: nat, supported: Supported, e: Env)
    requires x in net.viewers && Governed(net.viewers[x], x in net.sub) && Changes(net, x, supported, e)
    ensures !net.viewers[x].finalized && MayFallBack(net.viewers[x])
  {
    hide Restricts, Fail;
    var v := net.viewers[x];
    FailKeepsCodec(Put(net, x, v.(finalized := true)), x);
  }

  lemma FailKeepsCodec(net: Net, x: nat)
    requires x in net.viewers
    ensures x in Fail(net, x).viewers && Fail(net, x).viewers[x].selected == net.viewers[x].selected
  {
  }

  // After a subscription attempt the codec can still change exactly if the viewer had failed before
  // it and its codec could change then.
  lemma AttemptFixesCodec(net: Net, x: nat, target: Option<nat>, wellFormed: bool)
    requires Inv(net) && x in net.viewers && (target.Some? ==> target.value in net.subscribers)
    ensures var after := Subscribe(net, x, target, wellFormed);
            && x in after.viewers && after.viewers[x].selected == net.viewers[x].selected
            && (CodecOpen(after, x) <==> net.viewers[x].failed && CodecOpen(net, x))
  {
    hide CodecOpen, Inv, Subscribe, MayFallBack;
    SubscribeKeeps(net, x, target, wellFormed);
    AttemptSettles(net, x, target, wellFormed);
    AttemptKeepsCodec(net, x, target, wellFormed);
    OpenExactlyWhen(net, x);
    OpenExactlyWhen(Subscribe(net, x, target, wellFormed), x);
  }

  lemma AttemptKeepsCodec(net: Net, x: nat, target: Option<nat>, wellFormed: bool)
    requires x in net.viewers
    ensures var after := Subscribe(net, x, target, wellFormed);
            && x in after.viewers && after.viewers[x].selected == net.viewers[x].selected
            && (net.viewers[x].failed ==> after == net)
  {
    hide Unsubscribe, Fail, Enter, Blocked, ShadowSource;
    var n1 := Put(net, x, net.viewers[x].(finalized := true));
    UnsubscribeOnly(n1, x);
    FailOnly(n1, x);
    if target.Some? {
      EnterOnly(n1, x, target.value);
    }
  }

  // The same of an offer or answer that the filter sees.
  lemma ExchangeFixesCodec(net: Net, x: nat, d: Description, fromStreamer: bool, e: Env)
    requires Inv(net) && x in net.viewers && net.viewers[x].policy.Some?
    ensures var after := Filter(net, x, d, fromStreamer, e).0;
            && x in after.viewers && after.viewers[x].selected == net.viewers[x].selected
            && (CodecOpen(after, x) <==> net.viewers[x].failed && CodecOpen(net, x))
  {
    hide CodecOpen, Inv, Filter, ShadowStray;
    FilterKeeps(net, x, d, fromStreamer, e);
    ExchangeSettles(net, x, d, fromStreamer, e);
    ExchangeKeepsCodec(net, x, d, fromStreamer, e);
    OpenExactlyWhen(net, x);
    OpenExactlyWhen(Filter(net, x, d, fromStreamer, e).0, x);
  }

  lemma ExchangeKeepsCodec(net: Net, x: nat, d: Description, fromStreamer: bool, e: Env)
    requires Inv(net) && x in net.viewers && net.viewers[x].policy.Some?
    ensures var v, after := net.viewers[x], Filter(net, x, d, fromStreamer, e).0;
            && x in after.viewers && after.viewers[x].selected == v.selected
            && (v.failed ==> after == net)
            && (ShadowStray(net, x) ==> v.shadowOf.Some? && (!v.failed ==> after.viewers[x].shadowOf == v.shadowOf))
  {
    hide Inv, ShadowSource, Unsubscribe, Negotiate, Restricts;
    var v := net.viewers[x];
    InvGoverned(net, x);
    UnsubscribeKeepsCodec(net, x);
    NegotiateEffect(Put(net, x, v.(finalized := true)), x, d, fromStreamer, e);
  }

  lemma UnsubscribeKeepsCodec(net: Net, x: nat)
    requires x in net.viewers
    ensures var after := Unsubscribe(net, x);
            x in after.viewers && after.viewers[x] == Forget(net.viewers[x])
  {
  }

  // Nothing a viewer that has not failed does after an attempt or an exchange changes its codec.
  lemma FixedForGood(net: Net, x: nat, target: Option<nat>, wellFormed: bool, steps: seq<Step>, last: Net)
    requires Inv(net) && x in net.viewers && (target.Some? ==> target.value in net.subscribers)
    requires !net.viewers[x].failed && Run(Subscribe(net, x, target, wellFormed), steps, last) && x in last.viewers
    ensures last.viewers[x].selected == net.viewers[x].selected
  {
    hide Inv, Run, Subscribe;
    SubscribeKeeps(net, x, target, wellFormed);
    AttemptSettles(net, x, target, wellFormed);
    AttemptKeepsCodec(net, x, target, wellFormed);
    SettledForGood(Subscribe(net, x, target, wellFormed), steps, last, x);
  }

  // The same after an exchange. It does not settle a shadow that has lost its source, but the codec
  // of a shadow never changes.
  lemma FixedByExchange(net: Net, x: nat, d: Description, fromStreamer: bool, e: Env, steps: seq<Step>, last: Net)
    requires Inv(net) && x in net.viewers && net.viewers[x].policy.Some?
    requires !net.viewers[x].failed && Run(Filter(net, x, d, fromStreamer, e).0, steps, last) && x in last.viewers
    ensures last.viewers[x].selected == net.viewers[x].selected
  {
    hide Inv, Run, Filter, ShadowStray;
    FilterKeeps(net, x, d, fromStreamer, e);
    ExchangeSettles(net, x, d, fromStreamer, e);
    ExchangeKeepsCodec(net, x, d, fromStreamer, e);
    SettledForGood(Filter(net, x, d, fromStreamer, e).0, steps, last, x);
  }

  // ---- a run in which the codec changes after an attempt, or an exchange ----

  const POLICY := Policy("p", [VP9, H264], VP9)
  const ALLOWED := Ticket(Some(POLICY), Some("r"), None)

  const LATE := Viewer(Some(POLICY), Some("r"), true, None, Some(VP9), false, true, false, 0, None, None, false)

  lemma OpenedLate()
    ensures var n1 := StreamerConnected(EMPTY_NET, 0);
            var n2 := PlayerConnected(n1, Some(ALLOWED), None, true, Env(true, false));
            && n2.viewers == map[1 := LATE.(failed := false)] && n2.listed == [0]
            && Timeout(n2, 1).viewers == map[1 := LATE] && Timeout(n2, 1).listed == [0]
  {
    hide ShadowSource;
    var n1 := StreamerConnected(EMPTY_NET, 0);
    var n2 := PlayerConnected(n1, Some(ALLOWED), None, true, Env(true, false));
    assert n1.next == 1 && n1.listed == [0];
    assert n2.viewers == map[1 := LATE.(failed := false)];
    assert n2.sub == map[];
  }

  // An offer of viewer 1 that reaches the filter, and is ignored there.
  ghost predicate Ignored(net: Net, d: Description, e: Env)
    requires 1 in net.viewers
  {
    && Filter(net, 1, d, false, e).0 == net
    && FromPlayer(net, 1, Media(d), Some(0), e) == net
  }

  lemma LateChanges(net: Net)
    requires net.viewers == map[1 := LATE]
    ensures Subscribe(net, 1, Some(0), true) == net
    ensures forall d: Description, e :: d.isOffer ==> Ignored(net, d, e)
    ensures Capabilities(net, 1, Codecs([H264]), Env(true, false)).viewers[1].selected == Some(H264)
  {
    hide ShadowSource, Blocked, Fail, Enter, Unsubscribe, Negotiate, Bootstrap;
    FirstOfOne([VP9, VP9, H264], [VP9, H264], H264);
  }

  // A viewer whose deadline has passed tries to subscribe, or offers a description, is ignored, and
  // then reports its codecs.
  lemma FailedViewerChangesCodec()
    ensures var steps := [StreamerOpens(0), PlayerOpens(Some(ALLOWED), None, true, Env(true, false)), DeadlinePasses(1)];
            exists net :: Run(EMPTY_NET, steps, net)
              && 1 in net.viewers && Legal(net, Subscribes(1, Some(0), true))
              && net.viewers[1].selected == Some(VP9)
              && Subscribe(net, 1, Some(0), true) == net
              && (forall d: Description, e :: d.isOffer ==> Ignored(net, d, e))
              && Capabilities(net, 1, Codecs([H264]), Env(true, false)).viewers[1].selected == Some(H264)
  {
    hide StreamerConnected, PlayerConnected, Timeout, Subscribe, Capabilities, Run, Ignored;
    var n1 := StreamerConnected(EMPTY_NET, 0);
    var n2 := PlayerConnected(n1, Some(ALLOWED), None, true, Env(true, false));
    OpenedLate();
    LateChanges(Timeout(n2, 1));
    var steps := [StreamerOpens(0), PlayerOpens(Some(ALLOWED), None, true, Env(true, false)), DeadlinePasses(1)];
    RunOfThree(steps, n1, n2, Timeout(n2, 1));
  }

  lemma RunOfThree(steps: seq<Step>, n1: Net, n2: Net, n3: Net)
    requires |steps| == 3
    requires Legal(EMPTY_NET, steps[0]) && Next(EMPTY_NET, steps[0]) == n1
    requires Legal(n1, steps[1]) && Next(n1, steps[1]) == n2
    requires Legal(n2, steps[2]) && Next(n2, steps[2]) == n3
    ensures Run(EMPTY_NET, steps, n3)
  {
    hide Next, Legal;
    var rest := steps[1..];
    assert rest[0] == steps[1] && rest[1..][0] == steps[2];
    assert Run(n3, rest[1..][1..], n3);
    assert Run(n2, rest[1..], n3);
    assert Run(n1, rest, n3);
  }
}
