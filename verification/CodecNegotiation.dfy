// When a governed viewer's codec is settled for good, and what completes its negotiation.
module CodecNegotiation {
  import opened Wrappers
  import opened CodecPolicies
  import opened CodecAnswers
  import opened Connections
  import opened ConnectionLaws
  import opened ConnectionRuns

  // What one step may do to a viewer: its policy stays, and so does its codec once it is finalized,
  // and that of a shadow at any time.
  ghost predicate Settled(v: Viewer, w: Viewer) {
    && w.policy == v.policy && w.shadowOf == v.shadowOf && (v.finalized ==> w.finalized)
    && (v.finalized || v.shadowOf.Some? ==> w.selected == v.selected)
  }

  ghost predicate Later(v: Viewer, w: Viewer) {
    Settled(v, w) && (w.negotiated ==> v.negotiated)
  }

  // Nothing but x's own state changes among the viewers.
  ghost predicate Only(a: Net, b: Net, x: nat) {
    && b.viewers.Keys == a.viewers.Keys && b.next == a.next
    && forall y :: y in a.viewers && y != x ==> b.viewers[y] == a.viewers[y]
  }

  ghost predicate AllLater(a: Net, b: Net) {
    forall y :: y in a.viewers && y in b.viewers ==> Later(a.viewers[y], b.viewers[y])
  }

  lemma {:induction false} OrphansLater(net: Net, i: nat)
    ensures AllLater(net, CloseOrphans(net, i)) && CloseOrphans(net, i).viewers.Keys == net.viewers.Keys
    decreases net.next - i
  {
    hide ShadowSource;
    if i < net.next {
      if i in net.viewers && net.viewers[i].shadowOf.Some? && ShadowSource(net, i).None? {
        OrphansLater(Unsubscribe(net, i), i + 1);
      } else {
        OrphansLater(net, i + 1);
      }
    }
  }

  lemma EmitLater(net: Net, s: nat)
    requires Inv(net)
    ensures AllLater(net, Emit(net, s))
  {
    hide Inv, Emit, Edges, FewerEdges;
    EmitKeeps(net, s);
  }

  lemma UnsubscribeOnly(net: Net, x: nat)
    ensures Only(net, Unsubscribe(net, x), x)
    ensures x in net.viewers ==> Unsubscribe(net, x).viewers[x] == Forget(net.viewers[x])
  {
    hide Without, Forget;
  }

  lemma PutOnly(net: Net, x: nat, v: Viewer)
    requires x in net.viewers
    ensures Only(net, Put(net, x, v), x) && x in Put(net, x, v).viewers && Put(net, x, v).viewers[x] == v
  {
  }

  lemma OnlyTwice(a: Net, b: Net, c: Net, x: nat)
    requires Only(a, b, x) && Only(b, c, x)
    ensures Only(a, c, x) && (x in b.viewers ==> x in c.viewers)
  {
  }

  lemma FailOnly(net: Net, x: nat)
    requires x in net.viewers
    ensures Only(net, Fail(net, x), x) && x in Fail(net, x).viewers
    ensures Fail(net, x).viewers[x] == Forget(net.viewers[x].(failed := true))
  {
    hide Unsubscribe, Forget;
    UnsubscribeOnly(Put(net, x, net.viewers[x].(failed := true)), x);
  }

  lemma EnterOnly(net: Net, x: nat, s: nat)
    requires x in net.viewers
    ensures Only(net, Enter(net, x, s), x)
    ensures Later(net.viewers[x], Enter(net, x, s).viewers[x]) && Enter(net, x, s).viewers[x].finalized == net.viewers[x].finalized
  {
    hide Unsubscribe, SubscribersOf;
    UnsubscribeOnly(net, x);
  }

  // The outcomes of a subscription attempt.
  lemma SubscribeOutcomes(net: Net, x: nat, target: Option<nat>, wellFormed: bool)
    requires x in net.viewers
    ensures var v, after := net.viewers[x], Subscribe(net, x, target, wellFormed);
            var n1 := Put(net, x, v.(finalized := true));
            if v.failed then after == net
            else after == n1 || after == Unsubscribe(n1, x) || after == Fail(n1, x)
                 || (target.Some? && after == Enter(n1, x, target.value))
  {
    hide ShadowSource, Blocked, Enter, Fail, Unsubscribe;
  }

  lemma SubscribeLater(net: Net, x: nat, target: Option<nat>, wellFormed: bool)
    requires x in net.viewers
    ensures Only(net, Subscribe(net, x, target, wellFormed), x)
    ensures Later(net.viewers[x], Subscribe(net, x, target, wellFormed).viewers[x])
    ensures Subscribe(net, x, target, wellFormed).viewers[x].finalized <==> net.viewers[x].finalized || !net.viewers[x].failed
  {
    hide Subscribe, Enter, Fail, Unsubscribe;
    SubscribeOutcomes(net, x, target, wellFormed);
    var n1 := Put(net, x, net.viewers[x].(finalized := true));
    UnsubscribeOnly(n1, x);
    FailOnly(n1, x);
    if target.Some? {
      EnterOnly(n1, x, target.value);
    }
  }

  // The answer that completes the negotiation of v.
  ghost predicate Completes(v: Viewer, d: Description, fromStreamer: bool) {
    && !d.isOffer && v.policy.Some? && v.selected.Some?
    && v.offer.Some? && v.offerFromStreamer.Some? && v.offerFromStreamer.value != fromStreamer
    && Restricts(v.offer.value, v.selected.value)
    && Restrict(d.sdp, v.selected.value).Passed?
    && Accepts(v.offer, d.sdp)
  }

  lemma AcceptedHasOffer(offer: Option<string>, answer: string)
    requires Accepts(offer, answer)
    ensures offer.Some?
  {
  }

  // A completed negotiation: nothing is on offer any more.
  function Agreed(v: Viewer): Viewer {
    v.(offer := None, offerFromStreamer := None, negotiated := true)
  }

  // The outcomes of an offer or answer that gets as far as the description.
  lemma NegotiateOutcomes(net: Net, x: nat, d: Description, fromStreamer: bool, e: Env)
    requires x in net.viewers
    ensures var v, after := net.viewers[x], Negotiate(net, x, d, fromStreamer, e).0;
            || after == Fail(net, x)
            || (v.selected.Some? && Restrict(d.sdp, v.selected.value).Passed?
                && after == Put(net, x, v.(offer := Some(Restrict(d.sdp, v.selected.value).value),
                                           offerFromStreamer := Some(fromStreamer), negotiated := false)))
            || (!d.isOffer && v.selected.Some? && Restrict(d.sdp, v.selected.value).Passed?
                && v.offerFromStreamer != Some(fromStreamer) && Accepts(v.offer, d.sdp)
                && (after == Put(net, x, Agreed(v)) || after == Unsubscribe(Put(net, x, Agreed(v)), x)))
  {
    hide Fail, Unsubscribe, Restrict, Accepts;
  }

  lemma NegotiateEffect(net: Net, x: nat, d: Description, fromStreamer: bool, e: Env)
    requires x in net.viewers && Governed(net.viewers[x], x in net.sub) && net.viewers[x].policy.Some?
    ensures Only(net, Negotiate(net, x, d, fromStreamer, e).0, x)
    ensures Settled(net.viewers[x], Negotiate(net, x, d, fromStreamer, e).0.viewers[x])
    ensures Negotiate(net, x, d, fromStreamer, e).0.viewers[x].finalized == net.viewers[x].finalized
    ensures !net.viewers[x].negotiated && Negotiate(net, x, d, fromStreamer, e).0.viewers[x].negotiated ==>
              Completes(net.viewers[x], d, fromStreamer)
  {
    hide Fail, Unsubscribe, Restrict, Accepts, Restricts, Negotiate, Completes, Governed, Only, Put;
    var v := net.viewers[x];
    NegotiateOutcomes(net, x, d, fromStreamer, e);
    FailOnly(net, x);
    if v.selected.Some? && Restrict(d.sdp, v.selected.value).Passed? {
      PutOnly(net, x, v.(offer := Some(Restrict(d.sdp, v.selected.value).value), offerFromStreamer := Some(fromStreamer), negotiated := false));
    }
    PutOnly(net, x, Agreed(v));
    UnsubscribeOnly(Put(net, x, Agreed(v)), x);
    OnlyTwice(net, Put(net, x, Agreed(v)), Unsubscribe(Put(net, x, Agreed(v)), x), x);
    if !v.negotiated && Negotiate(net, x, d, fromStreamer, e).0.viewers[x].negotiated {
      AnswerCompletes(v, x in net.sub, d, fromStreamer);
    }
  }

  lemma AnswerCompletes(v: Viewer, subscribed: bool, d: Description, fromStreamer: bool)
    requires Governed(v, subscribed) && v.policy.Some? && v.selected.Some? && !d.isOffer
    requires Restrict(d.sdp, v.selected.value).Passed? && v.offerFromStreamer != Some(fromStreamer) && Accepts(v.offer, d.sdp)
    ensures Completes(v, d, fromStreamer)
  {
    hide Restrict, Accepts, Restricts;
    AcceptedHasOffer(v.offer, d.sdp);
    assert v.offerFromStreamer == Some(v.offerFromStreamer.value);
  }

  // What an offer or answer that reaches the filter does to the viewer it concerns.
  lemma FilterEffect(net: Net, x: nat, d: Description, fromStreamer: bool, e: Env)
    requires Inv(net) && x in net.viewers
    ensures Only(net, Filter(net, x, d, fromStreamer, e).0, x)
    ensures Settled(net.viewers[x], Filter(net, x, d, fromStreamer, e).0.viewers[x])
    ensures !net.viewers[x].negotiated && Filter(net, x, d, fromStreamer, e).0.viewers[x].negotiated ==>
              Completes(net.viewers[x], d, fromStreamer)
  {
    hide Inv, Filter, Unsubscribe, Negotiate, Completes, Put, Only;
    FilterOutcomes(net, x, d, fromStreamer, e);
    OnlyNothing(net, x);
    UnsubscribeOnly(net, x);
    if net.viewers[x].policy.Some? {
      FinalizedNegotiates(net, x, d, fromStreamer, e);
    }
  }

  lemma FinalizedNegotiates(net: Net, x: nat, d: Description, fromStreamer: bool, e: Env)
    requires Inv(net) && x in net.viewers && net.viewers[x].policy.Some?
    ensures var v := net.viewers[x];
            var after := Negotiate(Put(net, x, v.(finalized := true)), x, d, fromStreamer, e).0;
            && Only(net, after, x) && x in after.viewers && Settled(v, after.viewers[x])
            && (!v.negotiated && after.viewers[x].negotiated ==> Completes(v, d, fromStreamer))
  {
    hide Inv, Negotiate, Completes, Put, Only, Governed;
    var v := net.viewers[x];
    var n1 := Put(net, x, v.(finalized := true));
    InvGoverned(net, x);
    PutOnly(net, x, v.(finalized := true));
    FinalizedIsGoverned(net, x);
    NegotiateEffect(n1, x, d, fromStreamer, e);
    OnlyTwice(net, n1, Negotiate(n1, x, d, fromStreamer, e).0, x);
    FinalizedCompletes(v, d, fromStreamer);
  }

  lemma FinalizedIsGoverned(net: Net, x: nat)
    requires x in net.viewers && Governed(net.viewers[x], x in net.sub)
    ensures var v := net.viewers[x].(finalized := true);
            Governed(v, x in Put(net, x, v).sub)
  {
    hide Restricts;
  }

  lemma OnlyNothing(net: Net, x: nat)
    ensures Only(net, net, x)
  {
  }

  lemma FilterOutcomes(net: Net, x: nat, d: Description, fromStreamer: bool, e: Env)
    requires x in net.viewers
    ensures var after := Filter(net, x, d, fromStreamer, e).0;
            || after == net || after == Unsubscribe(net, x)
            || (net.viewers[x].policy.Some?
                && after == Negotiate(Put(net, x, net.viewers[x].(finalized := true)), x, d, fromStreamer, e).0)
  {
    hide Unsubscribe, Negotiate, ShadowSource;
  }

  lemma FinalizedCompletes(v: Viewer, d: Description, fromStreamer: bool)
    ensures Completes(v.(finalized := true), d, fromStreamer) == Completes(v, d, fromStreamer)
  {
    hide Restrict, Accepts, Restricts;
  }

  // An offer or answer settles the codec unless the viewer has failed, or is a shadow without a
  // source of its codec.
  ghost predicate ShadowStray(net: Net, x: nat)
    requires x in net.viewers
  {
    net.viewers[x].shadowOf.Some?
    && (ShadowSource(net, x).None? || net.viewers[ShadowSource(net, x).value].selected != net.viewers[x].selected)
  }

  lemma ExchangeSettles(net: Net, x: nat, d: Description, fromStreamer: bool, e: Env)
    requires Inv(net) && x in net.viewers && net.viewers[x].policy.Some?
    ensures x in Filter(net, x, d, fromStreamer, e).0.viewers
    ensures Filter(net, x, d, fromStreamer, e).0.viewers[x].finalized
            <==> net.viewers[x].finalized || (!net.viewers[x].failed && !ShadowStray(net, x))
  {
    hide Inv, ShadowSource, Unsubscribe, Negotiate, Restricts;
    InvGoverned(net, x);
    UnsubscribeOnly(net, x);
    NegotiateEffect(Put(net, x, net.viewers[x].(finalized := true)), x, d, fromStreamer, e);
  }

  // A subscription attempt settles the codec unless the viewer has failed.
  lemma AttemptSettles(net: Net, x: nat, target: Option<nat>, wellFormed: bool)
    requires x in net.viewers
    ensures x in Subscribe(net, x, target, wellFormed).viewers
    ensures Subscribe(net, x, target, wellFormed).viewers[x].finalized <==> net.viewers[x].finalized || !net.viewers[x].failed
  {
    hide Subscribe;
    SubscribeLater(net, x, target, wellFormed);
  }

  lemma BootstrapLater(net: Net, x: nat)
    requires x in net.viewers
    ensures Only(net, Bootstrap(net, x), x) && Later(net.viewers[x], Bootstrap(net, x).viewers[x])
  {
    hide Unsubscribe, Subscribe;
    UnsubscribeOnly(net, x);
    if net.listed != [] {
      SubscribeLater(net, x, Some(net.listed[0]), true);
      UnsubscribeOnly(Subscribe(net, x, Some(net.listed[0]), true), x);
    }
  }

  lemma FromPlayerEffect(net: Net, x: nat, m: Message, generation: Option<nat>, e: Env)
    requires Inv(net) && x in net.viewers
    ensures Only(net, FromPlayer(net, x, m, generation, e), x)
    ensures Settled(net.viewers[x], FromPlayer(net, x, m, generation, e).viewers[x])
    ensures !net.viewers[x].negotiated && FromPlayer(net, x, m, generation, e).viewers[x].negotiated ==>
              m.Media? && Completes(net.viewers[x], m.description, false)
  {
    hide Inv, Filter, Bootstrap, Completes;
    if m.Media? {
      FilterEffect(net, x, m.description, false, e);
    }
    var n1 := if m.Media? then Filter(net, x, m.description, false, e).0 else net;
    BootstrapLater(n1, x);
  }

  lemma CapabilitiesEffect(net: Net, x: nat, supported: Supported, e: Env)
    requires x in net.viewers
    ensures Only(net, Capabilities(net, x, supported, e), x)
    ensures Later(net.viewers[x], Capabilities(net, x, supported, e).viewers[x])
  {
    hide FirstOf, Fail;
    FailOnly(Put(net, x, net.viewers[x].(finalized := true)), x);
  }

  lemma PlayerClosedEffect(net: Net, x: nat)
    requires x in net.viewers
    ensures AllLater(net, PlayerClosed(net, x))
  {
    hide CloseOrphans;
    var n1 := Unsubscribe(net, x);
    OrphansLater(n1.(viewers := n1.viewers - {x}), 0);
  }

  // The offer or answer a step delivers about viewer x, and whether it comes from the streamer.
  ghost predicate Delivers(step: Step, x: nat, d: Description, fromStreamer: bool) {
    (step.Sends? && step.x == x && step.message == Media(d) && !fromStreamer)
    || (step.StreamerSends? && step.x == x && step.description == d && fromStreamer)
  }

  lemma StepEffect(net: Net, step: Step, x: nat)
    requires Inv(net) && Legal(net, step) && x in net.viewers && x in Next(net, step).viewers
    ensures Settled(net.viewers[x], Next(net, step).viewers[x])
    ensures !net.viewers[x].negotiated && Next(net, step).viewers[x].negotiated ==>
              exists d, fromStreamer :: Delivers(step, x, d, fromStreamer) && Completes(net.viewers[x], d, fromStreamer)
  {
    hide Inv, Subscribe, FromPlayer, Filter, Capabilities, Fail, PlayerClosed, Completes, Governed, Unsubscribe, SubscribersOf;
    if step.Subscribes? || step.Unsubscribes? || step.Sends? || step.StreamerSends? || step.ReportsCodecs? || step.DeadlinePasses? {
      match step
      case Subscribes(y, target, wellFormed) => SubscribeLater(net, y, target, wellFormed);
      case Unsubscribes(y) => UnsubscribeOnly(net, y);
      case Sends(y, m, generation, e) =>
        FromPlayerEffect(net, y, m, generation, e);
        if m.Media? {
          assert Delivers(step, y, m.description, false);
        }
      case StreamerSends(s, y, generation, d, e) =>
        if y in net.viewers {
          FilterEffect(net, y, d, true, e);
        }
        assert Delivers(step, y, d, true);
      case ReportsCodecs(y, supported, e) => CapabilitiesEffect(net, y, supported, e);
      case DeadlinePasses(y) => FailOnly(net, y);
    } else {
      hide Next;
      OtherStepLater(net, step);
    }
  }

  // Connections opening and closing, and what SFUs do, only take negotiations away.
  lemma OtherStepLater(net: Net, step: Step)
    requires Inv(net) && Legal(net, step)
    requires !(step.Subscribes? || step.Unsubscribes? || step.Sends? || step.StreamerSends? || step.ReportsCodecs? || step.DeadlinePasses?)
    ensures AllLater(net, Next(net, step))
  {
    hide Inv, Edges, Unsubscribe, Emit, PlayerClosed, Admit, Without, Join, Leave, SfuDisconnect, NewViewer, Governed;
    InvAgrees(net);
    match step
    case PlayerCloses(y) => PlayerClosedEffect(net, y);
    case StreamerCloses(s) => EmitLater(net, s);
    case SfuSubscribes(y, target, wellFormed) => SfuEffect(net, y, target, wellFormed);
    case SfuUnsubscribes(y) => UnsubscribeOnly(net, y);
    case SfuCloses(y) => SfuGone(net, y);
    case SfuStopsStreaming(y) =>
      BookkeepingKeeps(net, net.listed, net.streaming - {y});
      EmitLater(net.(listed := net.listed, streaming := net.streaming - {y}), y);
    case _ =>
  }

  lemma SfuGone(net: Net, x: nat)
    requires Inv(net) && x in net.sfus
    ensures AllLater(net, SfuClosed(net, x)) && AllLater(net, SfuDisconnect(net, x))
  {
    hide Inv, Edges, FewerEdges, SfuDisconnect;
    SfuDisconnectKeeps(net, x);
  }

  lemma SfuEffect(net: Net, x: nat, target: Option<nat>, wellFormed: bool)
    requires Inv(net) && x in net.sfus
    ensures AllLater(net, SfuSubscribe(net, x, target, wellFormed))
  {
    hide Inv, SfuDisconnect, Without;
    SfuGone(net, x);
  }

  // ---- over runs ----

  // Once settled the codec never changes again while the viewer is connected; that of a shadow
  // never changes at all.
  lemma {:induction false} SettledForGood(net: Net, steps: seq<Step>, last: Net, x: nat)
    requires Inv(net) && Run(net, steps, last) && x in net.viewers && x in last.viewers
    requires net.viewers[x].finalized || net.viewers[x].shadowOf.Some?
    ensures last.viewers[x].selected == net.viewers[x].selected && (net.viewers[x].finalized ==> last.viewers[x].finalized)
    decreases |steps|
  {
    hide Inv, Next, Legal;
    if steps != [] {
      var n1 := Next(net, steps[0]);
      NextKeeps(net, steps[0]);
      if x in n1.viewers {
        StepEffect(net, steps[0], x);
        SettledForGood(n1, steps[1..], last, x);
      } else {
        InvAgrees(net);
        NumbersGrow(net, steps[0]);
        GoneForGood(n1, steps[1..], last, x);
      }
    }
  }

  lemma NumbersGrow(net: Net, step: Step)
    requires Inv(net) && Legal(net, step)
    ensures net.next <= Next(net, step).next
    ensures forall x :: x in Next(net, step).viewers ==> x in net.viewers || x == net.next
  {
    hide Inv, Unsubscribe, Emit, Subscribe, FromPlayer, Filter, Capabilities, Fail, PlayerClosed, Admit, Join, Leave, Without, SfuDisconnect;
    match step
    case Subscribes(y, target, wellFormed) => SubscribeLater(net, y, target, wellFormed);
    case Unsubscribes(y) => UnsubscribeOnly(net, y);
    case Sends(y, m, generation, e) => FromPlayerEffect(net, y, m, generation, e);
    case StreamerSends(_, y, _, d, e) =>
      if y in net.viewers {
        FilterEffect(net, y, d, true, e);
      }
    case ReportsCodecs(y, supported, e) => CapabilitiesEffect(net, y, supported, e);
    case DeadlinePasses(y) => FailOnly(net, y);
    case PlayerCloses(y) => PlayerClosedCount(net, y);
    case StreamerCloses(s) => EmitKeeps(net, s);
    case SfuSubscribes(y, target, wellFormed) => SfuCount(net, y, target, wellFormed);
    case SfuUnsubscribes(y) => UnsubscribeOnly(net, y);
    case SfuCloses(y) => SfuDisconnectKeeps(net, y);
    case SfuStopsStreaming(y) =>
      BookkeepingKeeps(net, net.listed, net.streaming - {y});
      EmitKeeps(net.(listed := net.listed, streaming := net.streaming - {y}), y);
    case _ =>
  }

  lemma SfuCount(net: Net, x: nat, target: Option<nat>, wellFormed: bool)
    requires Inv(net) && x in net.sfus
    ensures SfuSubscribe(net, x, target, wellFormed).viewers.Keys == net.viewers.Keys
    ensures SfuSubscribe(net, x, target, wellFormed).next == net.next
  {
    hide Inv, SfuDisconnect, Without;
    SfuDisconnectKeeps(net, x);
  }

  lemma PlayerClosedCount(net: Net, x: nat)
    ensures PlayerClosed(net, x).viewers.Keys <= net.viewers.Keys && PlayerClosed(net, x).next == net.next
  {
    hide Unsubscribe, CloseOrphans;
    UnsubscribeOnly(net, x);
    var n1 := Unsubscribe(net, x);
    OrphansLater(n1.(viewers := n1.viewers - {x}), 0);
    OrphansCount(n1.(viewers := n1.viewers - {x}), 0);
  }

  lemma {:induction false} OrphansCount(net: Net, i: nat)
    ensures CloseOrphans(net, i).next == net.next
    decreases net.next - i
  {
    hide ShadowSource;
    if i < net.next {
      if i in net.viewers && net.viewers[i].shadowOf.Some? && ShadowSource(net, i).None? {
        OrphansCount(Unsubscribe(net, i), i + 1);
      } else {
        OrphansCount(net, i + 1);
      }
    }
  }

  lemma {:induction false} GoneForGood(net: Net, steps: seq<Step>, last: Net, x: nat)
    requires Inv(net) && Run(net, steps, last) && x < net.next && x !in net.viewers
    ensures x !in last.viewers
    decreases |steps|
  {
    hide Inv, Next, Legal;
    if steps != [] {
      NextKeeps(net, steps[0]);
      NumbersGrow(net, steps[0]);
      GoneForGood(Next(net, steps[0]), steps[1..], last, x);
    }
  }
}
