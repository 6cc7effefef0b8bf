// Connections opening and closing, and SFUs moving between streamers: what each of these steps does
// to the registries and to everybody's subscription.
module ConnectionDoors {
  import opened Wrappers
  import opened Connections
  import opened ConnectionLaws
  import opened ConnectionRuns
  import opened ConnectionAnswers
  import Offers = ConnectionOffers
  import Negotiation = CodecNegotiation

  // ---- shadows ----

  // A shadow for which no viewer is left to watch, x aside.
  ghost predicate OrphanWithout(net: Net, y: nat, x: Option<nat>) {
    y in net.viewers && net.viewers[y].shadowOf.Some? && forall z: nat :: Watches(net, y, z) ==> x == Some(z)
  }

  ghost predicate AllCoherent(net: Net) {
    forall y :: y in net.viewers ==> Offers.Coherent(net.viewers[y])
  }

  // Nobody watches a shadow, so taking one off its stream makes no other an orphan.
  lemma ShadowIsNotWatched(net: Net, i: nat, y: nat, z: nat)
    requires AllCoherent(net) && i in net.viewers && net.viewers[i].shadowOf.Some?
    requires y in net.viewers && net.viewers[y].shadowOf.Some?
    ensures y in Unsubscribe(net, i).viewers
    ensures Watches(Unsubscribe(net, i), y, z) <==> Watches(net, y, z)
  {
    hide Without;
    Negotiation.UnsubscribeOnly(net, i);
  }

  lemma SameOrphans(net: Net, i: nat, y: nat)
    requires AllCoherent(net) && i in net.viewers && net.viewers[i].shadowOf.Some?
    ensures AllCoherent(Unsubscribe(net, i))
    ensures OrphanWithout(Unsubscribe(net, i), y, None) <==> OrphanWithout(net, y, None)
  {
    hide Unsubscribe, Watches;
    Negotiation.UnsubscribeOnly(net, i);
    if y in net.viewers && net.viewers[y].shadowOf.Some? {
      forall z: nat
        ensures Watches(Unsubscribe(net, i), y, z) <==> Watches(net, y, z)
      {
        ShadowIsNotWatched(net, i, y, z);
      }
    }
  }

  lemma OrphanIs(net: Net, i: nat)
    requires Numbered(net)
    ensures OrphanWithout(net, i, None) <==>
            i in net.viewers && net.viewers[i].shadowOf.Some? && ShadowSource(net, i).None?
  {
    hide Numbered, Watches, ShadowSource;
    if i in net.viewers {
      ShadowSourceIs(net, i);
    }
  }

  // Closing the orphans takes exactly these off their streams.
  lemma {:induction false} OrphansExactly(net: Net, i: nat)
    requires Numbered(net) && Agrees(net) && AllCoherent(net)
    ensures var after := CloseOrphans(net, i);
            && (forall y :: y in after.sub <==> y in net.sub && !(i <= y < net.next && OrphanWithout(net, y, None)))
            && (forall y :: y in after.sub ==> after.sub[y] == net.sub[y])
            && after.viewers.Keys == net.viewers.Keys
            && (forall y :: y in net.viewers ==>
                  after.viewers[y] == if i <= y < net.next && OrphanWithout(net, y, None) then Forget(net.viewers[y]) else net.viewers[y])
    decreases net.next - i
  {
    hide ShadowSource, OrphanWithout, AllCoherent, Unsubscribe, Forget, Agrees, Numbered;
    if i < net.next {
      OrphanIs(net, i);
      var next := net;
      if i in net.viewers && net.viewers[i].shadowOf.Some? && ShadowSource(net, i).None? {
        next := Unsubscribe(net, i);
        LeavesOneOff(net, i);
        forall y
          ensures OrphanWithout(next, y, None) <==> OrphanWithout(net, y, None)
        {
          SameOrphans(net, i, y);
        }
        SameOrphans(net, i, i);
      }
      OrphansExactly(next, i + 1);
    }
  }

  lemma LeavesOneOff(net: Net, i: nat)
    requires Numbered(net) && Agrees(net)
    ensures var n1 := Unsubscribe(net, i);
            && Numbered(n1) && Agrees(n1) && n1.next == net.next && n1.sub == net.sub - {i}
            && n1.viewers.Keys == net.viewers.Keys
            && (forall y :: y in net.viewers ==> n1.viewers[y] == if y == i then Forget(net.viewers[y]) else net.viewers[y])
  {
    hide Edges, Without, Forget;
    UnsubscribeShrinks(net, i);
    NumberedStill(net, Unsubscribe(net, i));
    Negotiation.UnsubscribeOnly(net, i);
  }

  // ---- a player closes ----

  lemma SameWithout(net: Net, x: nat, y: nat)
    requires x in net.viewers && y != x && Numbered(net) && Agrees(net)
    ensures var n1 := Unsubscribe(net, x);
            OrphanWithout(n1.(viewers := n1.viewers - {x}), y, None) <==> OrphanWithout(net, y, Some(x))
  {
    hide Unsubscribe, Numbered, Agrees, Forget;
    var n1 := Unsubscribe(net, x);
    var n2 := n1.(viewers := n1.viewers - {x});
    LeavesOneOff(net, x);
    if y in net.viewers {
      forall z: nat
        ensures Watches(n2, y, z) <==> Watches(net, y, z) && z != x
      {
      }
    }
  }

  // It is gone; the shadows that had only it to watch lose their streams, and nobody else does.
  lemma PlayerClosesExactly(steps: seq<Step>, net: Net, x: nat)
    requires Run(EMPTY_NET, steps, net) && x in net.viewers
    ensures var after := Next(net, PlayerCloses(x));
            && after.viewers.Keys == net.viewers.Keys - {x} && x !in after.sub
            && (forall y :: y != x ==> (y in after.sub <==> y in net.sub && !OrphanWithout(net, y, Some(x))))
            && (forall y :: y in after.sub ==> after.sub[y] == net.sub[y])
            && (forall y :: y in after.viewers ==>
                  after.viewers[y] == if OrphanWithout(net, y, Some(x)) then Forget(net.viewers[y]) else net.viewers[y])
  {
    hide Inv, Unsubscribe, OrphanWithout, Forget, CloseOrphans, AllCoherent, Agrees, Numbered, Run;
    ReachedIsCoherent(steps, net);
    LeavesOneOff(net, x);
    var n1 := Unsubscribe(net, x);
    var n2 := n1.(viewers := n1.viewers - {x});
    StillNumbered(n1, n2, x);
    StillCoherent(net, n2, x);
    OrphansExactly(n2, 0);
    forall y | y != x
      ensures OrphanWithout(n2, y, None) <==> OrphanWithout(net, y, Some(x))
    {
      SameWithout(net, x, y);
    }
    OrphansAreNumbered(n2);
  }

  lemma ReachedIsCoherent(steps: seq<Step>, net: Net)
    requires Run(EMPTY_NET, steps, net)
    ensures Inv(net) && Numbered(net) && Agrees(net) && AllCoherent(net)
  {
    hide Inv;
    Offers.EmptyIsFine();
    RunKeeps(EMPTY_NET, steps, net);
    InvAgrees(net);
    Offers.RunIsLive(EMPTY_NET, steps, net);
  }

  lemma StillNumbered(n1: Net, n2: Net, x: nat)
    requires Numbered(n1) && Agrees(n1) && x !in n1.sub && n2 == n1.(viewers := n1.viewers - {x})
    ensures Numbered(n2) && Agrees(n2)
  {
    hide Edges;
  }

  lemma StillCoherent(net: Net, n2: Net, x: nat)
    requires AllCoherent(net) && n2.viewers.Keys <= net.viewers.Keys
    requires forall y :: y in n2.viewers && y != x ==> n2.viewers[y] == net.viewers[y]
    requires x !in n2.viewers
    ensures AllCoherent(n2)
  {
  }

  lemma OrphansAreNumbered(net: Net)
    requires Numbered(net)
    ensures forall y: nat :: OrphanWithout(net, y, None) ==> y < net.next
  {
  }

  // ---- streamers and SFUs ----

  // A streamer, and an SFU with it, is listed last, with its limit and without subscribers.
  lemma StreamerOpensIs(net: Net, step: Step)
    requires Numbered(net) && (step.StreamerOpens? || step.SfuOpens?)
    ensures var after := Next(net, step);
            && after.listed == net.listed + [net.next] && SubscribersOf(after, net.next) == []
            && after.max == net.max[net.next := if step.StreamerOpens? then step.limit else 0]
            && after.sfus == (if step.SfuOpens? then net.sfus + {net.next} else net.sfus)
            && after.next == net.next + 1
            && after.viewers == net.viewers && after.sub == net.sub && after.streaming == net.streaming
            && (forall s :: s != net.next ==> SubscribersOf(after, s) == SubscribersOf(net, s))
  {
  }

  // An SFU that names a listed streamer leaves the old one and is put on that; any other name
  // changes nothing. Nobody else moves.
  lemma SfuSubscribesExactly(net: Net, x: nat, target: Option<nat>)
    requires Inv(net) && Legal(net, SfuSubscribes(x, target, true))
    ensures var after := Next(net, SfuSubscribes(x, target, true));
            && after.sub == (if target.Some? then net.sub[x := target.value] else net.sub)
            && (target.Some? ==> x in SubscribersOf(after, target.value))
            && (forall s, y :: y != x ==> (y in SubscribersOf(after, s) <==> y in SubscribersOf(net, s)))
            && after.viewers == net.viewers && after.listed == net.listed && after.sfus == net.sfus
  {
    hide Inv, Leave, Numbered;
    InvAgrees(net);
    LeaveExactly(net, x);
  }

  lemma LeaveExactly(net: Net, x: nat)
    requires Agrees(net)
    ensures Leave(net, x).sub == net.sub - {x}
    ensures forall s, y :: y in SubscribersOf(Leave(net, x), s) <==> y in SubscribersOf(net, s) && y != x
    ensures Leave(net, x) == net.(sub := Leave(net, x).sub, subscribers := Leave(net, x).subscribers)
  {
    hide Distinct;
  }
}
