// Over every run an offer and a finished negotiation belong to a subscription: a viewer that is on
// no stream has neither, an offer is recorded with the side that made it, and no shadow stands for
// a session of its own.
module ConnectionOffers {
  import opened Wrappers
  import opened CodecPolicies
  import opened CodecAnswers
  import opened Connections
  import opened ConnectionLaws
  import opened ConnectionRuns
  import opened Negotiation = CodecNegotiation

  // An offer is recorded with its side, and a shadow stands for no session of its own.
  predicate Coherent(v: Viewer) {
    (v.offer.Some? <==> v.offerFromStreamer.Some?) && (v.shadowOf.Some? ==> v.requestId.None?)
  }

  predicate Idle(v: Viewer) {
    v.offer.None? && v.offerFromStreamer.None? && !v.negotiated
  }

  // x may still hold an offer that it made before it is put on a stream.
  ghost predicate LiveBut(net: Net, x: nat) {
    forall y :: y in net.viewers ==>
      Coherent(net.viewers[y]) && (y in net.sub || y == x || Idle(net.viewers[y]))
  }

  ghost predicate Live(net: Net) {
    forall y :: y in net.viewers ==> Coherent(net.viewers[y]) && (y in net.sub || Idle(net.viewers[y]))
  }

  lemma LeavingIsLive(net: Net, x: nat)
    ensures LiveBut(net, x) ==> Live(Unsubscribe(net, x))
    ensures Live(net) ==> Live(Unsubscribe(net, x)) && LiveBut(net, x)
  {
    hide Without, SubscribersOf;
  }

  lemma PutIsLive(net: Net, x: nat, v: Viewer)
    requires LiveBut(net, x) && x in net.viewers && Coherent(v)
    ensures LiveBut(Put(net, x, v), x)
    ensures (x in net.sub || Idle(v)) ==> Live(Put(net, x, v))
  {
  }

  lemma FailIsLive(net: Net, x: nat)
    requires LiveBut(net, x) && x in net.viewers
    ensures Live(Fail(net, x))
  {
    hide Unsubscribe;
    var v := net.viewers[x].(failed := true);
    PutIsLive(net, x, v);
    LeavingIsLive(Put(net, x, v), x);
  }

  lemma EnterIsLive(net: Net, x: nat, s: nat)
    requires LiveBut(net, x) && x in net.viewers
    ensures LiveBut(Enter(net, x, s), x)
  {
    hide Unsubscribe, SubscribersOf;
    LeavingIsLive(net, x);
    UnsubscribeOnly(net, x);
    var n2 := if x in net.sub then Unsubscribe(net, x) else net;
    PutIsLive(n2, x, Rejoin(n2.viewers[x]));
  }

  lemma SubscribeIsLive(net: Net, x: nat, target: Option<nat>, wellFormed: bool)
    requires LiveBut(net, x) && x in net.viewers
    ensures LiveBut(Subscribe(net, x, target, wellFormed), x)
    ensures Live(net) ==> Live(Subscribe(net, x, target, wellFormed))
  {
    hide Subscribe, Enter, Fail, Unsubscribe;
    SubscribeOutcomes(net, x, target, wellFormed);
    var n1 := Put(net, x, net.viewers[x].(finalized := true));
    PutIsLive(net, x, net.viewers[x].(finalized := true));
    LeavingIsLive(n1, x);
    FailIsLive(n1, x);
    if target.Some? {
      EnterIsLive(n1, x, target.value);
      if Live(net) {
        EnterKeepsLive(n1, x, target.value);
      }
    }
  }

  // Joining makes x a subscriber, and being turned away leaves it as it was or forgets its offer.
  lemma EnterKeepsLive(net: Net, x: nat, s: nat)
    requires Live(net) && x in net.viewers
    ensures Live(Enter(net, x, s))
  {
    hide Unsubscribe, SubscribersOf;
    LeavingIsLive(net, x);
    UnsubscribeOnly(net, x);
    var n2 := if x in net.sub then Unsubscribe(net, x) else net;
    PutIsLive(n2, x, Rejoin(n2.viewers[x]));
    if x in Enter(net, x, s).sub && Enter(net, x, s) != n2 {
      EnterIsLive(net, x, s);
    }
  }

  // An answer counts only from a viewer on a stream.
  lemma NegotiateIsLive(net: Net, x: nat, d: Description, fromStreamer: bool, e: Env)
    requires Live(net) && x in net.viewers && (d.isOffer || x in net.sub)
    ensures LiveBut(Negotiate(net, x, d, fromStreamer, e).0, x)
    ensures x in net.sub || !Negotiate(net, x, d, fromStreamer, e).1 ==> Live(Negotiate(net, x, d, fromStreamer, e).0)
  {
    hide Unsubscribe, Fail, Restrict, Accepts;
    LeavingIsLive(net, x);
    FailIsLive(net, x);
    var v := net.viewers[x];
    var n1 := Put(net, x, Agreed(v));
    PutIsLive(net, x, Agreed(v));
    LeavingIsLive(n1, x);
    if v.selected.Some? && Restrict(d.sdp, v.selected.value).Passed? {
      PutIsLive(net, x, v.(offer := Some(Restrict(d.sdp, v.selected.value).value), offerFromStreamer := Some(fromStreamer), negotiated := false));
    }
  }

  lemma FilterIsLive(net: Net, x: nat, d: Description, fromStreamer: bool, e: Env)
    requires Live(net) && x in net.viewers && (d.isOffer || x in net.sub || net.viewers[x].policy.None?)
    ensures LiveBut(Filter(net, x, d, fromStreamer, e).0, x)
    ensures x in net.sub || !Filter(net, x, d, fromStreamer, e).1 ==> Live(Filter(net, x, d, fromStreamer, e).0)
  {
    hide Unsubscribe, Negotiate, ShadowSource, Live, LiveBut, Put;
    LeavingIsLive(net, x);
    LeavingIsLive(Unsubscribe(net, x), x);
    if net.viewers[x].policy.Some? {
      var n1 := Put(net, x, net.viewers[x].(finalized := true));
      FinalizedIsLive(net, x);
      NegotiateIsLive(n1, x, d, fromStreamer, e);
    }
  }

  lemma FinalizedIsLive(net: Net, x: nat)
    requires Live(net) && x in net.viewers
    ensures var n1 := Put(net, x, net.viewers[x].(finalized := true)); Live(n1) && x in n1.viewers && n1.sub == net.sub
  {
  }

  lemma BootstrapIsLive(net: Net, x: nat)
    requires LiveBut(net, x) && x in net.viewers
    ensures Live(Bootstrap(net, x))
  {
    hide Unsubscribe, Subscribe;
    LeavingIsLive(net, x);
    if net.listed != [] {
      var n2 := Subscribe(net, x, Some(net.listed[0]), true);
      SubscribeIsLive(net, x, Some(net.listed[0]), true);
      LeavingIsLive(n2, x);
    }
  }

  lemma FromPlayerIsLive(net: Net, x: nat, m: Message, generation: Option<nat>, e: Env)
    requires Live(net) && x in net.viewers
    ensures Live(FromPlayer(net, x, m, generation, e))
  {
    hide Filter, Bootstrap, Live, LiveBut;
    LeavingIsLive(net, x);
    var v := net.viewers[x];
    if m.Media? {
      if m.description.isOffer || x in net.sub || v.policy.None? {
        FilterIsLive(net, x, m.description, false, e);
        AfterMedia(Filter(net, x, m.description, false, e).0, x);
      }
    } else {
      AfterMedia(net, x);
    }
  }

  lemma AfterMedia(n1: Net, x: nat)
    requires LiveBut(n1, x)
    ensures x in n1.sub || x !in n1.viewers ==> Live(n1)
    ensures x in n1.viewers ==> Live(Bootstrap(n1, x))
  {
    hide Bootstrap;
    if x in n1.viewers {
      BootstrapIsLive(n1, x);
    }
  }

  lemma CapabilitiesAreLive(net: Net, x: nat, supported: Supported, e: Env)
    requires Live(net) && x in net.viewers
    ensures Live(Capabilities(net, x, supported, e))
  {
    hide FirstOf, Fail;
    FailIsLive(Put(net, x, net.viewers[x].(finalized := true)), x);
  }

  lemma {:induction false} OrphansAreLive(net: Net, i: nat)
    requires Live(net)
    ensures Live(CloseOrphans(net, i))
    decreases net.next - i
  {
    hide ShadowSource, Live, Without;
    LeavingIsLive(net, i);
    if i < net.next {
      if i in net.viewers && net.viewers[i].shadowOf.Some? && ShadowSource(net, i).None? {
        OrphansAreLive(Unsubscribe(net, i), i + 1);
      } else {
        OrphansAreLive(net, i + 1);
      }
    }
  }

  lemma PlayerClosedIsLive(net: Net, x: nat)
    requires Live(net)
    ensures Live(PlayerClosed(net, x))
  {
    hide CloseOrphans, Unsubscribe;
    LeavingIsLive(net, x);
    var n1 := Unsubscribe(net, x);
    OrphansAreLive(n1.(viewers := n1.viewers - {x}), 0);
  }

  // Whoever is taken off by a disconnect forgets its negotiation, and nobody else is touched.
  lemma EmitIsLive(net: Net, s: nat)
    requires Numbered(net) && Agrees(net) && Live(net)
    ensures Live(Emit(net, s))
  {
    hide Emit, FedBy, Edges;
    DisconnectCascade(net, s);
  }

  lemma SfuLeaveIsLive(net: Net, x: nat)
    requires Inv(net) && Live(net) && x in net.sfus
    ensures Live(SfuDisconnect(net, x)) && Live(Leave(net, x)) && Leave(net, x).viewers == net.viewers
    ensures x !in net.viewers
  {
    hide Inv, Emit, Live;
    InvAgrees(net);
    IsNoViewer(net, x);
    LeavingIsLive(net, x);
    assert Leave(net, x) == Unsubscribe(net, x);
    UnsubscribeKeeps(net, x);
    InvAgrees(Leave(net, x));
    EmitIsLive(Leave(net, x), x);
  }

  lemma IsNoViewer(net: Net, x: nat)
    requires Numbered(net) && x in net.sfus
    ensures x !in net.viewers && Leave(net, x).viewers == net.viewers
  {
  }

  lemma SfuSubscribeIsLive(net: Net, x: nat, target: Option<nat>, wellFormed: bool)
    requires Inv(net) && Live(net) && x in net.sfus
    ensures Live(SfuSubscribe(net, x, target, wellFormed))
  {
    hide Inv, SfuDisconnect, Leave, Without;
    SfuLeaveIsLive(net, x);
  }

  lemma OpensIsLive(net: Net, ticket: Option<Ticket>, queryId: Option<string>, ready: bool, e: Env)
    requires Live(net)
    ensures Live(PlayerConnected(net, ticket, queryId, ready, e))
  {
    hide Admit;
  }

  lemma NextIsLive(net: Net, step: Step)
    requires Inv(net) && Legal(net, step) && Live(net)
    ensures Live(Next(net, step))
  {
    hide Inv, Live, Unsubscribe, Emit, Subscribe, FromPlayer, Filter, Capabilities, Fail, PlayerClosed, PlayerConnected, Leave, SfuDisconnect, SfuSubscribe;
    InvAgrees(net);
    match step
    case PlayerOpens(ticket, queryId, ready, e) => OpensIsLive(net, ticket, queryId, ready, e);
    case Subscribes(x, target, wellFormed) =>
      LeavingIsLive(net, x);
      SubscribeIsLive(net, x, target, wellFormed);
    case Unsubscribes(x) => LeavingIsLive(net, x);
    case Sends(x, m, generation, e) => FromPlayerIsLive(net, x, m, generation, e);
    case StreamerSends(s, x, generation, d, e) => FromStreamerIsLive(net, s, x, generation, d, e);
    case ReportsCodecs(x, supported, e) => CapabilitiesAreLive(net, x, supported, e);
    case DeadlinePasses(x) =>
      LeavingIsLive(net, x);
      FailIsLive(net, x);
    case PlayerCloses(x) => PlayerClosedIsLive(net, x);
    case StreamerCloses(s) =>
      EmitIsLive(net, s);
      SameIsLive(Emit(net, s), Next(net, step));
    case SfuSubscribes(x, target, wellFormed) => SfuSubscribeIsLive(net, x, target, wellFormed);
    case SfuUnsubscribes(x) => LeavingIsLive(net, x);
    case SfuCloses(x) =>
      SfuLeaveIsLive(net, x);
      SameIsLive(SfuDisconnect(net, x), Next(net, step));
    case SfuStopsStreaming(x) =>
      var n1 := net.(streaming := net.streaming - {x});
      BookkeepingKeeps(net, net.listed, net.streaming - {x});
      InvAgrees(n1);
      SameIsLive(net, n1);
      EmitIsLive(n1, x);
    case _ => SameIsLive(net, Next(net, step));
  }

  lemma SameIsLive(a: Net, b: Net)
    requires Live(a) && b.viewers == a.viewers && b.sub == a.sub
    ensures Live(b)
  {
  }

  lemma FromStreamerIsLive(net: Net, s: nat, x: nat, generation: Option<nat>, d: Description, e: Env)
    requires Inv(net) && Live(net)
    ensures Live(FromStreamer(net, s, x, generation, d, e))
  {
    hide Inv, Filter, Live, LiveBut;
    InvAgrees(net);
    if x in SubscribersOf(net, s) && x in net.viewers {
      assert x in net.sub;
      FilterIsLive(net, x, d, true, e);
    }
  }

  lemma {:induction false} RunIsLive(net: Net, steps: seq<Step>, last: Net)
    requires Inv(net) && Live(net) && Run(net, steps, last)
    ensures Live(last)
    decreases |steps|
  {
    hide Inv, Next, Legal, Live;
    if steps != [] {
      NextKeeps(net, steps[0]);
      NextIsLive(net, steps[0]);
      RunIsLive(Next(net, steps[0]), steps[1..], last);
    }
  }

  // Over every run: a viewer with an offer on record, or with a finished negotiation, is on a
  // stream; and an offer is on record exactly when the side that made it is.
  lemma OffersAreLive(steps: seq<Step>, net: Net, x: nat)
    requires Run(EMPTY_NET, steps, net) && x in net.viewers
    ensures net.viewers[x].offer.Some? || net.viewers[x].negotiated ==> x in net.sub
    ensures net.viewers[x].offer.Some? <==> net.viewers[x].offerFromStreamer.Some?
  {
    hide Inv;
    EmptyIsFine();
    RunIsLive(EMPTY_NET, steps, net);
  }

  lemma EmptyIsFine()
    ensures Inv(EMPTY_NET) && Live(EMPTY_NET)
  {
  }
}
