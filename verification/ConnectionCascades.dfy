// What ends when a streamer or an SFU closes or stops: who loses the subscription in that step, and
// that over every run nobody is subscribed to what has closed.
module ConnectionCascades {
  import opened Wrappers
  import opened CodecPolicies
  import opened CodecAnswers
  import opened Connections
  import opened ConnectionLaws
  import opened ConnectionRuns
  import Negotiation = CodecNegotiation

  // The streamer or SFU that a step takes away, and whether it leaves its own streamer, too.
  function Closing(step: Step): Option<(nat, bool)> {
    match step
    case StreamerCloses(s) => Some((s, false))
    case SfuCloses(x) => Some((x, true))
    case SfuStopsStreaming(x) => Some((x, false))
    case SfuSubscribes(x, _, wellFormed) => if wellFormed then None else Some((x, true))
    case _ => None
  }

  // ---- a chain of subscriptions up to s does not need the subscription of s itself ----

  lemma {:induction false} FedWithout(sub: map<nat, nat>, x: nat, s: nat, hops: nat)
    requires Fed(sub, x, s, hops) && x != s
    ensures FedBy(sub - {s}, x, s)
    decreases hops
  {
    if sub[x] == s {
      assert Fed(sub - {s}, x, s, 0);
    } else {
      FedWithout(sub, sub[x], s, hops - 1);
      var more: nat :| Fed(sub - {s}, sub[x], s, more);
      assert Fed(sub - {s}, x, s, more + 1);
    }
  }

  lemma SameFed(sub: map<nat, nat>, x: nat, s: nat)
    requires x != s
    ensures FedBy(sub - {s}, x, s) <==> FedBy(sub, x, s)
  {
    if FedBy(sub, x, s) {
      var hops: nat :| Fed(sub, x, s, hops);
      FedWithout(sub, x, s, hops);
    }
    if FedBy(sub - {s}, x, s) {
      var hops: nat :| Fed(sub - {s}, x, s, hops);
      FedIn(sub - {s}, sub, x, s, hops);
      assert Fed(sub, x, s, hops);
    }
  }

  // ---- the step ----

  // The disconnect of an SFU: it leaves, and so does everybody it feeds.
  lemma SfuLeaves(net: Net, s: nat)
    requires Numbered(net) && Agrees(net) && s in net.sfus
    ensures forall x :: x in SfuDisconnect(net, s).sub <==> x in net.sub && x != s && !FedBy(net.sub, x, s)
    ensures forall x :: x in SfuDisconnect(net, s).sub ==>
              SfuDisconnect(net, s).sub[x] == net.sub[x] && SfuDisconnect(net, s).sub[x] != s
    ensures SfuDisconnect(net, s).viewers.Keys == net.viewers.Keys
    ensures forall x :: x in net.viewers ==>
              (SfuDisconnect(net, s).viewers[x] == if FedBy(net.sub, x, s) then Forget(net.viewers[x]) else net.viewers[x])
    ensures SfuDisconnect(net, s).listed == net.listed
  {
    hide Emit, Agrees, FedBy, Forget, Leave, Numbered;
    NotAViewer(net, s);
    var n1 := Unsubscribe(net, s);
    assert n1 == Leave(net, s);
    UnsubscribeShrinks(net, s);
    NumberedStill(net, n1);
    DisconnectCascade(n1, s);
    ViewersStay(net, s);
    forall x | x != s
      ensures FedBy(n1.sub, x, s) <==> FedBy(net.sub, x, s)
    {
      SameFed(net.sub, x, s);
    }
    assert FewerEdges(n1, Emit(n1, s)) && FewerEdges(net, n1);
  }

  lemma NotAViewer(net: Net, s: nat)
    requires Numbered(net) && s in net.sfus
    ensures s !in net.viewers
  {
  }

  lemma ViewersStay(net: Net, s: nat)
    ensures Leave(net, s).viewers == net.viewers && Leave(net, s).listed == net.listed
  {
  }

  // Afterwards x is subscribed exactly if it was, is not an SFU that leaves, and was not fed by the
  // one that closed or stopped; those who are keep their streamer, which is not that one.
  lemma ClosingEnds(net: Net, step: Step)
    requires Inv(net) && Legal(net, step) && Closing(step).Some?
    ensures var (s, leaves) := Closing(step).value;
            var after := Next(net, step);
            && (forall x :: x in after.sub <==> x in net.sub && !(leaves && x == s) && !FedBy(net.sub, x, s))
            && (forall x :: x in after.sub ==> after.sub[x] == net.sub[x] && after.sub[x] != s)
            && after.viewers.Keys == net.viewers.Keys
            && (forall x :: x in net.viewers ==>
                  after.viewers[x] == if FedBy(net.sub, x, s) then Forget(net.viewers[x]) else net.viewers[x])
            && (step.StreamerCloses? || step.SfuCloses? ==> forall t :: t in after.listed <==> t in net.listed && t != s)
            && (step.SfuCloses? ==> s !in after.sfus)
            && (step.SfuStopsStreaming? ==> s !in after.streaming)
  {
    hide Inv, Emit, FedBy, Forget, SfuDisconnect;
    InvAgrees(net);
    match step
    case StreamerCloses(s) => EmitEnds(net, s);
    case SfuCloses(x) => SfuLeaves(net, x);
    case SfuSubscribes(x, _, _) => SfuLeaves(net, x);
    case SfuStopsStreaming(x) =>
      var n1 := net.(streaming := net.streaming - {x});
      SameEnds(net, n1);
      EmitEnds(n1, x);
  }

  lemma SameEnds(a: Net, b: Net)
    requires Numbered(a) && Agrees(a) && b == a.(streaming := b.streaming)
    ensures Numbered(b) && Agrees(b)
  {
    hide Edges;
  }

  lemma EmitEnds(net: Net, s: nat)
    requires Numbered(net) && Agrees(net)
    ensures var after := Emit(net, s);
            && (forall x :: x in after.sub <==> x in net.sub && !FedBy(net.sub, x, s))
            && (forall x :: x in after.sub ==> after.sub[x] == net.sub[x] && after.sub[x] != s)
            && after.viewers.Keys == net.viewers.Keys
            && (forall x :: x in net.viewers ==>
                  after.viewers[x] == if FedBy(net.sub, x, s) then Forget(net.viewers[x]) else net.viewers[x])
            && after.listed == net.listed && after.streaming <= net.streaming
  {
    hide Emit, FedBy, Forget, Edges;
    DisconnectCascade(net, s);
    assert FewerEdges(net, Emit(net, s));
  }

  // ---- over every run ----

  // s has closed: it is not listed, and nobody is subscribed to it.
  ghost predicate Closed(net: Net, s: nat) {
    s < net.next && s !in net.listed && forall x :: x in net.sub ==> net.sub[x] != s
  }

  // A step subscribes only to what is listed, and lists only what is new.
  ghost predicate OnlyListed(net: Net, after: Net) {
    && net.next <= after.next
    && (forall x :: x in after.sub ==> (x in net.sub && after.sub[x] == net.sub[x]) || after.sub[x] in net.listed)
    && (forall t :: t in after.listed ==> t in net.listed || t == net.next)
  }

  lemma OnlyListedTwice(a: Net, b: Net, c: Net)
    requires OnlyListed(a, b) && OnlyListed(b, c) && b.listed == a.listed && b.next == a.next
    ensures OnlyListed(a, c)
  {
  }

  lemma ShrunkIsOnlyListed(a: Net, b: Net)
    requires Shrunk(a, b)
    ensures OnlyListed(a, b) && b.listed == a.listed && b.next == a.next
  {
  }

  lemma UnsubscribeOnlyListed(net: Net, x: nat)
    requires Inv(net)
    ensures OnlyListed(net, Unsubscribe(net, x)) && Unsubscribe(net, x).listed == net.listed && Unsubscribe(net, x).next == net.next
  {
    hide Inv, Unsubscribe;
    UnsubscribeKeeps(net, x);
    ShrunkIsOnlyListed(net, Unsubscribe(net, x));
  }

  lemma FailOnlyListed(net: Net, x: nat)
    requires x in net.viewers
    ensures OnlyListed(net, Fail(net, x)) && Fail(net, x).listed == net.listed && Fail(net, x).next == net.next
  {
    hide Without;
  }

  lemma SubscribeOnlyListed(net: Net, x: nat, target: Option<nat>, wellFormed: bool)
    requires x in net.viewers && (target.Some? ==> target.value in net.listed)
    ensures OnlyListed(net, Subscribe(net, x, target, wellFormed))
    ensures Subscribe(net, x, target, wellFormed).listed == net.listed && Subscribe(net, x, target, wellFormed).next == net.next
  {
    hide Without, ShadowSource, Blocked, SubscribersOf, Forget, Rejoin;
  }

  lemma FilterOnlyListed(net: Net, x: nat, d: Description, fromStreamer: bool, e: Env)
    requires x in net.viewers
    ensures OnlyListed(net, Filter(net, x, d, fromStreamer, e).0)
    ensures Filter(net, x, d, fromStreamer, e).0.listed == net.listed && Filter(net, x, d, fromStreamer, e).0.next == net.next
  {
    hide Filter, Negotiate, OnlyListed, Unsubscribe;
    Negotiation.FilterOutcomes(net, x, d, fromStreamer, e);
    NothingIsOnlyListed(net);
    LeaveOnlyListed(net, x);
    var n1 := Put(net, x, net.viewers[x].(finalized := true));
    OnlyListedSame(net, n1);
    NegotiateOnlyListed(n1, x, d, fromStreamer, e);
    OnlyListedTwice(net, n1, Negotiate(n1, x, d, fromStreamer, e).0);
  }

  lemma NegotiateOnlyListed(net: Net, x: nat, d: Description, fromStreamer: bool, e: Env)
    requires x in net.viewers
    ensures OnlyListed(net, Negotiate(net, x, d, fromStreamer, e).0)
    ensures Negotiate(net, x, d, fromStreamer, e).0.listed == net.listed && Negotiate(net, x, d, fromStreamer, e).0.next == net.next
  {
    hide Negotiate, OnlyListed, Unsubscribe, Fail, Restrict, Accepts;
    Negotiation.NegotiateOutcomes(net, x, d, fromStreamer, e);
    FailOnlyListed(net, x);
    var after := Negotiate(net, x, d, fromStreamer, e).0;
    var n1 := Put(net, x, Negotiation.Agreed(net.viewers[x]));
    OnlyListedSame(net, n1);
    LeaveOnlyListed(n1, x);
    OnlyListedTwice(net, n1, Unsubscribe(n1, x));
    if after.sub == net.sub {
      OnlyListedSame(net, after);
    }
  }

  lemma FromPlayerOnlyListed(net: Net, x: nat, m: Message, generation: Option<nat>, e: Env)
    requires Inv(net) && x in net.viewers
    ensures OnlyListed(net, FromPlayer(net, x, m, generation, e))
  {
    hide Inv, Filter, Subscribe, OnlyListed;
    NothingIsOnlyListed(net);
    var n1 := net;
    if m.Media? {
      FilterKeeps(net, x, m.description, false, e);
      FilterOnlyListed(net, x, m.description, false, e);
      n1 := Filter(net, x, m.description, false, e).0;
    }
    if x in n1.viewers {
      BootstrapOnlyListed(n1, x);
      OnlyListedTwice(net, n1, Bootstrap(n1, x));
    }
  }

  lemma NothingIsOnlyListed(net: Net)
    ensures OnlyListed(net, net)
  {
  }

  lemma BootstrapOnlyListed(net: Net, x: nat)
    requires Inv(net) && x in net.viewers
    ensures OnlyListed(net, Bootstrap(net, x))
  {
    hide Inv, Subscribe, OnlyListed, Unsubscribe;
    UnsubscribeOnlyListed(net, x);
    if net.listed != [] {
      var n2 := Subscribe(net, x, Some(net.listed[0]), true);
      SubscribeOnlyListed(net, x, Some(net.listed[0]), true);
      InvAgrees(net);
      SubscribeKeeps(net, x, Some(net.listed[0]), true);
      UnsubscribeOnlyListed(n2, x);
      OnlyListedTwice(net, n2, Unsubscribe(n2, x));
    }
  }

  lemma {:induction false} OrphansOnlyListed(net: Net, i: nat)
    ensures OnlyListed(net, CloseOrphans(net, i)) && CloseOrphans(net, i).listed == net.listed && CloseOrphans(net, i).next == net.next
    decreases net.next - i
  {
    hide ShadowSource, Without, OnlyListed;
    NothingIsOnlyListed(net);
    if i < net.next {
      if i in net.viewers && net.viewers[i].shadowOf.Some? && ShadowSource(net, i).None? {
        LeaveOnlyListed(net, i);
        OrphansOnlyListed(Unsubscribe(net, i), i + 1);
        OnlyListedTwice(net, Unsubscribe(net, i), CloseOrphans(net, i));
      } else {
        OrphansOnlyListed(net, i + 1);
      }
    }
  }

  lemma LeaveOnlyListed(net: Net, x: nat)
    ensures OnlyListed(net, Unsubscribe(net, x)) && Unsubscribe(net, x).listed == net.listed && Unsubscribe(net, x).next == net.next
    ensures OnlyListed(net, Leave(net, x)) && Leave(net, x).listed == net.listed && Leave(net, x).next == net.next
  {
    hide Without, Forget, SubscribersOf;
  }

  lemma PlayerClosedOnlyListed(net: Net, x: nat)
    ensures OnlyListed(net, PlayerClosed(net, x))
  {
    hide CloseOrphans, Unsubscribe, OnlyListed;
    var n1 := Unsubscribe(net, x);
    LeaveOnlyListed(net, x);
    var n2 := n1.(viewers := n1.viewers - {x});
    OnlyListedSame(n1, n2);
    OrphansOnlyListed(n2, 0);
    OnlyListedTwice(net, n1, n2);
    OnlyListedTwice(net, n2, CloseOrphans(n2, 0));
  }

  lemma OnlyListedSame(a: Net, b: Net)
    requires b.sub == a.sub && b.listed == a.listed && b.next == a.next
    ensures OnlyListed(a, b)
  {
  }

  lemma NextOnlyListed(net: Net, step: Step)
    requires Inv(net) && Legal(net, step)
    ensures OnlyListed(net, Next(net, step))
  {
    hide Inv, Emit, Subscribe, FromPlayer, Filter, Capabilities, Fail, PlayerClosed, Unsubscribe, Admit, Leave, FedBy, Forget;
    if Closing(step).Some? {
      ClosingEnds(net, step);
      ClosingKeepsNext(net, step);
    } else {
      NothingIsOnlyListed(net);
      match step
      case Subscribes(x, target, wellFormed) => SubscribeOnlyListed(net, x, target, wellFormed);
      case Unsubscribes(x) => LeaveOnlyListed(net, x);
      case Sends(x, m, generation, e) => FromPlayerOnlyListed(net, x, m, generation, e);
      case StreamerSends(_, x, _, d, e) =>
        if x in net.viewers {
          FilterOnlyListed(net, x, d, true, e);
        }
      case ReportsCodecs(x, supported, e) => CapabilitiesOnlyListed(net, x, supported, e);
      case DeadlinePasses(x) => FailOnlyListed(net, x);
      case PlayerCloses(x) => PlayerClosedOnlyListed(net, x);
      case SfuSubscribes(x, target, _) => LeaveOnlyListed(net, x);
      case SfuUnsubscribes(x) => LeaveOnlyListed(net, x);
      case _ =>
    }
  }

  lemma CapabilitiesOnlyListed(net: Net, x: nat, supported: Supported, e: Env)
    requires x in net.viewers
    ensures OnlyListed(net, Capabilities(net, x, supported, e))
  {
    hide FirstOf, Fail, OnlyListed;
    NothingIsOnlyListed(net);
    var n1 := Put(net, x, net.viewers[x].(finalized := true));
    OnlyListedSame(net, n1);
    FailOnlyListed(n1, x);
    OnlyListedTwice(net, n1, Fail(n1, x));
    if Capabilities(net, x, supported, e) != Fail(n1, x) {
      OnlyListedSame(net, Capabilities(net, x, supported, e));
    }
  }

  lemma ClosingKeepsNext(net: Net, step: Step)
    requires Inv(net) && Legal(net, step) && Closing(step).Some?
    ensures Next(net, step).next == net.next
    ensures forall t :: t in Next(net, step).listed ==> t in net.listed
  {
    hide Inv, Emit, Leave, Edges;
    match step
    case StreamerCloses(s) => EmitKeeps(net, s);
    case SfuStopsStreaming(x) =>
      BookkeepingKeeps(net, net.listed, net.streaming - {x});
      EmitKeeps(net.(listed := net.listed, streaming := net.streaming - {x}), x);
    case SfuCloses(x) => SfuDisconnectKeeps(net, x);
    case SfuSubscribes(x, _, _) => SfuDisconnectKeeps(net, x);
  }

  lemma {:induction false} ClosedForGood(net: Net, steps: seq<Step>, last: Net, s: nat)
    requires Inv(net) && Closed(net, s) && Run(net, steps, last)
    ensures Closed(last, s)
    decreases |steps|
  {
    hide Inv, Next, Legal;
    if steps != [] {
      NextKeeps(net, steps[0]);
      NextOnlyListed(net, steps[0]);
      ClosedForGood(Next(net, steps[0]), steps[1..], last, s);
    }
  }

  // Over every run: once a streamer, or an SFU, has closed, nobody is subscribed to it.
  lemma NobodyOnClosed(steps: seq<Step>, net: Net, close: Step, more: seq<Step>, last: Net)
    requires Run(EMPTY_NET, steps, net) && (close.StreamerCloses? || close.SfuCloses?) && Legal(net, close)
    requires Run(Next(net, close), more, last)
    ensures forall x :: x in last.sub ==> last.sub[x] != Closing(close).value.0
    ensures Closing(close).value.0 !in last.listed
  {
    hide Inv, Next, Run, FedBy, Forget;
    EmptyKeeps();
    RunKeeps(EMPTY_NET, steps, net);
    NextKeeps(net, close);
    ClosingEnds(net, close);
    ClosingKeepsNext(net, close);
    IsNumbered(net, close);
    ClosedForGood(Next(net, close), more, last, Closing(close).value.0);
  }

  lemma EmptyKeeps()
    ensures Inv(EMPTY_NET)
  {
  }

  lemma IsNumbered(net: Net, close: Step)
    requires Inv(net) && (close.StreamerCloses? || close.SfuCloses?) && Legal(net, close)
    ensures Closing(close).value.0 < net.next
  {
    hide Agrees, AllGoverned, Exclusive, WithinLimits;
  }
}
