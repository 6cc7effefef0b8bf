// What each handler of a viewer does, decided from the net alone: when a subscription succeeds, which
// offers and answers are passed on, which codec a report selects, and which viewers are let in.
module ConnectionAnswers {
  import opened Wrappers
  import opened CodecPolicies
  import opened CodecAnswers
  import opened Connections
  import opened ConnectionLaws
  import opened ConnectionRuns
  import Negotiation = CodecNegotiation

  // ---- shadows ----

  // x, a shadow, may watch y: the validated viewer of the session it shadows, governed by the same
  // policy or like it by none, with a finished negotiation and a subscription.
  predicate Watches(net: Net, x: nat, y: nat)
    requires x in net.viewers
  {
    && y in net.viewers && y != x && y in net.sub
    && net.viewers[y].validated && net.viewers[y].negotiated
    && net.viewers[y].requestId == net.viewers[x].shadowOf
    && (if net.viewers[x].policy.None? then net.viewers[y].policy.None?
        else net.viewers[y].policy.Some? && net.viewers[y].policy.value.hash == net.viewers[x].policy.value.hash)
  }

  // The viewer a shadow watches is the one that connected first.
  ghost predicate WatchesFirst(net: Net, x: nat, y: nat)
    requires x in net.viewers
  {
    Watches(net, x, y) && forall z: nat :: z < y ==> !Watches(net, x, z)
  }

  lemma {:induction false} SourceFromIs(net: Net, x: nat, i: nat)
    requires x in net.viewers
    ensures SourceFrom(net, x, i).Some? ==> forall z: nat :: i <= z < SourceFrom(net, x, i).value ==> !IsSource(net, x, z)
    decreases net.next - i
  {
    if i < net.next && !IsSource(net, x, i) {
      SourceFromIs(net, x, i + 1);
    }
  }

  lemma ShadowSourceIs(net: Net, x: nat)
    requires Numbered(net) && x in net.viewers
    ensures forall y: nat :: ShadowSource(net, x) == Some(y) <==> WatchesFirst(net, x, y)
    ensures ShadowSource(net, x).None? <==> forall y: nat :: !Watches(net, x, y)
  {
    SourceFromIs(net, x, 0);
    forall y: nat
      ensures IsSource(net, x, y) <==> Watches(net, x, y)
    {
    }
    hide IsSource, Watches;
    forall y: nat | ShadowSource(net, x).None?
      ensures !Watches(net, x, y)
    {
      InNext(net, x, y);
    }
    forall y: nat | WatchesFirst(net, x, y)
      ensures ShadowSource(net, x) == Some(y)
    {
      InNext(net, x, y);
    }
  }

  lemma InNext(net: Net, x: nat, y: nat)
    requires Numbered(net) && x in net.viewers
    ensures IsSource(net, x, y) ==> y < net.next
  {
  }

  // ---- subscriptions ----

  // What a shadow asks for is not the stream of the viewer it watches.
  ghost predicate Strays(net: Net, x: nat, target: Option<nat>)
    requires x in net.viewers
  {
    net.viewers[x].shadowOf.Some?
    && !((exists y: nat :: WatchesFirst(net, x, y) && target == Some(net.sub[y]))
         || (target.None? && forall y: nat :: !Watches(net, x, y)))
  }

  // Another viewer is on s, and one of the two has selected H264.
  ghost predicate MeetsH264(net: Net, x: nat, s: nat)
    requires x in net.viewers
  {
    exists y: nat :: y in net.viewers && y != x && y in net.sub && net.sub[y] == s
                     && (net.viewers[x].selected == Some(H264) || net.viewers[y].selected == Some(H264))
  }

  // Those who are on s, x aside.
  function Others(net: Net, x: nat, s: nat): set<nat> {
    set y | y in net.sub && net.sub[y] == s && y != x
  }

  // s has no limit, or room below it for one more.
  predicate HasRoom(net: Net, x: nat, s: nat) {
    s !in net.max || net.max[s] == 0 || |Others(net, x, s)| < net.max[s]
  }

  lemma {:induction false} CountDistinct(s: seq<nat>, members: set<nat>)
    requires Distinct(s) && forall y :: y in members <==> y in s
    ensures |members| == |s|
  {
    if s == [] {
      assert members == {};
    } else {
      var n := |s| - 1;
      assert s[n] !in s[..n];
      forall y
        ensures y in members - {s[n]} <==> y in s[..n]
      {
      }
      CountDistinct(s[..n], members - {s[n]});
      assert members == (members - {s[n]}) + {s[n]};
    }
  }

  // A viewer after it entered a streamer: whoever left a stream, or joins one for a second time while
  // governed, has no negotiation any more.
  function Entered(v: Viewer, left: bool, joined: bool): Viewer {
    var again := joined && v.policy.Some? && v.hasSubscribed;
    var w := v.(hasSubscribed := v.hasSubscribed || (joined && v.policy.Some?),
                generation := if again then v.generation + 1 else v.generation);
    if left || again then w.(offer := None, offerFromStreamer := None, negotiated := false) else w
  }

  // Entering a streamer leaves the old one; it succeeds exactly while there is room. The viewer is then
  // subscribed to it, and a governed one that had been on a stream before starts a new generation.
  lemma EnterExactlyWhen(net: Net, x: nat, s: nat)
    requires Inv(net) && x in net.viewers && s in net.subscribers
    ensures var after := Enter(net, x, s);
            && (x in after.sub <==> HasRoom(net, x, s))
            && (x in after.sub ==> after.sub[x] == s && x in after.subscribers[s])
            && (forall y :: y != x ==> (y in after.sub <==> y in net.sub) && (y in net.sub ==> after.sub[y] == net.sub[y]))
            && x in after.viewers
            && after == net.(sub := after.sub, subscribers := after.subscribers, viewers := net.viewers[x := after.viewers[x]])
            && after.viewers[x] == Entered(net.viewers[x], x in net.sub, x in after.sub)
  {
    hide Inv, Agrees, Without;
    InvAgrees(net);
    var n2 := if x in net.sub then Unsubscribe(net, x) else net;
    if x in net.sub {
      UnsubscribeShrinks(net, x);
    }
    CountOthers(net, n2, x, s);
    MaxIsKept(net, x);
    EnteredIs(net, x, s);
  }

  lemma EnteredIs(net: Net, x: nat, s: nat)
    requires Numbered(net) && x in net.viewers
    ensures var after := Enter(net, x, s);
            && x in after.viewers
            && after == net.(sub := after.sub, subscribers := after.subscribers, viewers := net.viewers[x := after.viewers[x]])
            && after.viewers[x] == Entered(net.viewers[x], x in net.sub, x in after.sub)
  {
    hide Without;
  }

  lemma MaxIsKept(net: Net, x: nat)
    requires x in net.viewers
    ensures Unsubscribe(net, x).max == net.max && Unsubscribe(net, x).viewers == net.viewers[x := Forget(net.viewers[x])]
  {
  }

  lemma CountOthers(net: Net, n2: Net, x: nat, s: nat)
    requires Agrees(net) && Agrees(n2) && n2.sub == net.sub - {x} && s in n2.subscribers
    ensures |SubscribersOf(n2, s)| == |Others(net, x, s)|
  {
    assert Distinct(n2.subscribers[s]);
    hide Distinct;
    forall y
      ensures y in Others(net, x, s) <==> y in n2.subscribers[s]
    {
      assert y in n2.sub <==> y in net.sub && y != x;
    }
    CountDistinct(n2.subscribers[s], Others(net, x, s));
  }

  // A subscription attempt of a viewer that has not failed: what decides whether it ends up on the
  // stream it asks for, keeps what it had, loses it, or fails.
  lemma SubscribeExactlyWhen(net: Net, x: nat, target: Option<nat>, wellFormed: bool)
    requires Inv(net) && x in net.viewers && (target.Some? ==> target.value in net.subscribers) && !net.viewers[x].failed
    ensures var v := net.viewers[x];
            var after := Subscribe(net, x, target, wellFormed);
            && x in after.viewers && after.viewers[x].finalized
            && (if !wellFormed || Strays(net, x, target) then x !in after.sub && !after.viewers[x].failed
                else if target.None? || (v.policy.Some? && target.value in net.sfus) then after.sub == net.sub && !after.viewers[x].failed
                else if v.policy.Some? && MeetsH264(net, x, target.value) then x !in after.sub && after.viewers[x].failed
                else
                  && !after.viewers[x].failed
                  && (x in after.sub <==> HasRoom(net, x, target.value))
                  && (x in after.sub ==> after.sub[x] == target.value))
  {
    hide Inv, Enter, Unsubscribe, Fail, Subscribe, Strays, MeetsH264, HasRoom, Agrees;
    var n1 := Put(net, x, net.viewers[x].(finalized := true));
    FinalizedKeeps(net, x);
    SubscribeIs(net, x, target, wellFormed);
    LeavesIt(n1, x);
    FailIs(n1, x);
    if target.Some? {
      EnterExactlyWhen(n1, x, target.value);
      EnterKeepsFailed(n1, x, target.value);
      SameRoom(net, n1, x, target.value);
    }
  }

  lemma LeavesIt(net: Net, x: nat)
    requires Inv(net) && x in net.viewers
    ensures Agrees(net)
    ensures Unsubscribe(net, x).sub == net.sub - {x} && x in Unsubscribe(net, x).viewers
    ensures Unsubscribe(net, x).viewers[x].failed == net.viewers[x].failed
    ensures Unsubscribe(net, x).viewers[x].finalized == net.viewers[x].finalized
  {
    hide Inv, Unsubscribe, Agrees;
    InvAgrees(net);
    UnsubscribeShrinks(net, x);
    Negotiation.UnsubscribeOnly(net, x);
  }

  lemma SubscribeIs(net: Net, x: nat, target: Option<nat>, wellFormed: bool)
    requires Inv(net) && x in net.viewers && !net.viewers[x].failed
    ensures var n1 := Put(net, x, net.viewers[x].(finalized := true));
            Subscribe(net, x, target, wellFormed) ==
            if !wellFormed || Strays(net, x, target) then Unsubscribe(n1, x)
            else if target.None? || (net.viewers[x].policy.Some? && target.value in net.sfus) then n1
            else if net.viewers[x].policy.Some? && MeetsH264(net, x, target.value) then Fail(n1, x)
            else Enter(n1, x, target.value)
  {
    hide Inv, Enter, Unsubscribe, Fail, ShadowSource, Watches, WatchesFirst, Blocked, MeetsH264;
    var n1 := Put(net, x, net.viewers[x].(finalized := true));
    FinalizedKeeps(net, x);
    InvAgrees(n1);
    ShadowSourceIs(n1, x);
    SameWatched(net, n1, x);
    SameBlocked(net, n1, x, target);
  }

  lemma FinalizedKeeps(net: Net, x: nat)
    requires Inv(net) && x in net.viewers
    ensures Inv(Put(net, x, net.viewers[x].(finalized := true)))
  {
    hide Restricts, Edges;
    PutKeeps(net, x, net.viewers[x].(finalized := true));
  }

  lemma SameWatched(net: Net, n1: Net, x: nat)
    requires x in net.viewers && n1 == Put(net, x, net.viewers[x].(finalized := true))
    ensures forall y: nat :: Watches(n1, x, y) <==> Watches(net, x, y)
    ensures forall y: nat :: WatchesFirst(n1, x, y) <==> WatchesFirst(net, x, y)
  {
  }

  lemma SameBlocked(net: Net, n1: Net, x: nat, target: Option<nat>)
    requires x in net.viewers && n1 == Put(net, x, net.viewers[x].(finalized := true))
    ensures target.Some? ==> (Blocked(n1, x, target.value) <==> MeetsH264(net, x, target.value))
  {
    if target.Some? {
      if Blocked(n1, x, target.value) {
        var y :| BlockedBy(n1, x, target.value, y);
      }
      if MeetsH264(net, x, target.value) {
        var y: nat :| y in net.viewers && y != x && y in net.sub && net.sub[y] == target.value
                      && (net.viewers[x].selected == Some(H264) || net.viewers[y].selected == Some(H264));
        assert BlockedBy(n1, x, target.value, y);
      }
    }
  }

  lemma SameRoom(net: Net, n1: Net, x: nat, s: nat)
    requires n1 == net.(viewers := n1.viewers)
    ensures HasRoom(n1, x, s) <==> HasRoom(net, x, s)
  {
  }

  lemma FailIs(net: Net, x: nat)
    requires Agrees(net) && x in net.viewers
    ensures x !in Fail(net, x).sub && x in Fail(net, x).viewers && Fail(net, x).viewers[x].failed
    ensures Fail(net, x).viewers[x].finalized == net.viewers[x].finalized
    ensures Fail(net, x).viewers[x].selected == net.viewers[x].selected
  {
    hide Without, Edges;
  }

  lemma EnterKeepsFailed(net: Net, x: nat, s: nat)
    requires x in net.viewers
    ensures Enter(net, x, s).viewers[x].failed == net.viewers[x].failed
    ensures Enter(net, x, s).viewers[x].finalized == net.viewers[x].finalized
  {
    hide Unsubscribe, SubscribersOf;
    Negotiation.UnsubscribeOnly(net, x);
  }

  // ---- offers, answers, reports of codecs ----

  // An offer or answer of a governed viewer is passed on exactly when the viewer has not failed, a
  // shadow has a source of its codec, the message is a direct one whose description can be restricted
  // to the codec, and, for an answer, it answers the last offer of the opposite peer without
  // relabelling a payload, its evidence could be recorded, and nobody takes the viewer off.
  lemma PassesExactlyWhen(net: Net, x: nat, d: Description, fromStreamer: bool, e: Env)
    requires Inv(net) && x in net.viewers
    ensures var v := net.viewers[x];
            Filter(net, x, d, fromStreamer, e).1 <==>
            || v.policy.None?
            || (&& !v.failed && d.direct && v.selected.Some? && Restrict(d.sdp, v.selected.value).Passed?
                && (v.shadowOf.Some? ==>
                      exists y: nat :: WatchesFirst(net, x, y) && net.viewers[y].selected == v.selected)
                && (!d.isOffer ==>
                      && v.offer.Some? && v.offerFromStreamer == Some(!fromStreamer) && Accepts(v.offer, d.sdp)
                      && (e.journal || (v.shadowOf.None? && v.requestId.None?)) && !e.rejected && x in net.sub))
  {
    hide Inv, Unsubscribe, Fail, ShadowSource, Restrict, Accepts, Restricts, WatchesFirst;
    InvAgrees(net);
    InvGoverned(net, x);
    ShadowSourceIs(net, x);
    AcceptsAnOffer(net.viewers[x].offer, d.sdp);
    OtherPeer(net.viewers[x], x in net.sub, fromStreamer);
  }

  lemma OtherPeer(v: Viewer, subscribed: bool, fromStreamer: bool)
    requires Governed(v, subscribed)
    ensures v.policy.Some? && v.offer.Some? ==> (v.offerFromStreamer != Some(fromStreamer) <==> v.offerFromStreamer == Some(!fromStreamer))
  {
    hide Restricts;
    if v.policy.Some? && v.offer.Some? {
      var b := v.offerFromStreamer.value;
      assert v.offerFromStreamer == Some(b);
      assert b == fromStreamer || b == !fromStreamer;
    }
  }

  lemma AcceptsAnOffer(offer: Option<string>, sdp: string)
    ensures Accepts(offer, sdp) ==> offer.Some?
  {
    hide Payload;
  }

  // What an offer that is passed on leaves: the restricted description, and who made it. An answer that
  // is passed on completes the negotiation.
  lemma PassedIsRecorded(net: Net, x: nat, d: Description, fromStreamer: bool, e: Env)
    requires Inv(net) && x in net.viewers && net.viewers[x].policy.Some? && Filter(net, x, d, fromStreamer, e).1
    ensures var v := net.viewers[x];
            var after := Filter(net, x, d, fromStreamer, e).0;
            && v.selected.Some? && Restrict(d.sdp, v.selected.value).Passed? && after.sub == net.sub
            && after.viewers == net.viewers[x := if d.isOffer
                                                 then v.(finalized := true, negotiated := false, offerFromStreamer := Some(fromStreamer),
                                                         offer := Some(Restrict(d.sdp, v.selected.value).value))
                                                 else v.(finalized := true, negotiated := true, offerFromStreamer := None, offer := None)]
  {
    hide Inv, Unsubscribe, Fail, ShadowSource, Restrict, Accepts;
  }

  // What becomes of a governed viewer whose offer or answer is not passed on: one that had failed stays
  // as it is; a shadow that strays is unsubscribed; a complete answer that is taken off is unsubscribed;
  // any other fails.
  lemma StoppedIsFailed(net: Net, x: nat, d: Description, fromStreamer: bool, e: Env)
    requires Inv(net) && x in net.viewers && net.viewers[x].policy.Some? && !Filter(net, x, d, fromStreamer, e).1
    ensures var v := net.viewers[x];
            var after := Filter(net, x, d, fromStreamer, e).0;
            && x in after.viewers
            && (v.failed ==> after == net)
            && (!v.failed ==> x !in after.sub)
            && ((&& !v.failed && (d.isOffer || !Accepts(v.offer, d.sdp))
                 && (v.shadowOf.None? || exists y: nat :: WatchesFirst(net, x, y) && net.viewers[y].selected == v.selected)) ==>
                  after.viewers[x].failed)
  {
    hide Inv, Unsubscribe, Fail, ShadowSource, Restrict, Accepts, WatchesFirst;
    InvAgrees(net);
    ShadowSourceIs(net, x);
    var n1 := Put(net, x, net.viewers[x].(finalized := true));
    FinalizedKeeps(net, x);
    FailIs2(n1, x);
    LeavesIt(net, x);
    var n2 := Put(n1, x, Negotiation.Agreed(n1.viewers[x]));
    PutLeaves(net, x, Negotiation.Agreed(n1.viewers[x]));
    assert Put(n1, x, Negotiation.Agreed(n1.viewers[x])) == Put(net, x, Negotiation.Agreed(n1.viewers[x]));
  }

  lemma FailIs2(net: Net, x: nat)
    requires Inv(net) && x in net.viewers
    ensures x !in Fail(net, x).sub && x in Fail(net, x).viewers && Fail(net, x).viewers[x].failed
  {
    hide Inv, Agrees;
    InvAgrees(net);
    FailIs(net, x);
  }

  lemma PutLeaves(net: Net, x: nat, v: Viewer)
    requires Inv(net) && x in net.viewers
    ensures x !in Unsubscribe(Put(net, x, v), x).sub && x in Unsubscribe(Put(net, x, v), x).viewers
  {
    hide Without, Inv;
  }

  // A report is looked at while a governed viewer has neither subscribed nor negotiated nor settled its
  // codec, and holds at most four codecs, or null.
  predicate Heard(v: Viewer, supported: Supported) {
    && v.policy.Some? && v.selected.Some? && !v.finalized && !v.hasSubscribed && v.offer.None?
    && !supported.Malformed? && (supported.Codecs? ==> |supported.codecs| <= 4)
  }

  // Both sides can do the codec.
  predicate Usable(v: Viewer, codecs: seq<VideoCodec>, c: VideoCodec)
    requires v.policy.Some?
  {
    c in v.policy.value.allowed && c in codecs
  }

  // The codec a report selects: null leaves the preferred one; else it is the first of the default codec,
  // VP9 and H264 that both sides can do. A shadow takes that of its source, or none.
  function Chosen(v: Viewer, supported: Supported): Option<VideoCodec>
    requires v.policy.Some? && v.selected.Some?
  {
    var first := if v.shadowOf.Some? then v.selected.value else v.policy.value.defaultCodec;
    if !supported.Codecs? then Some(first)
    else if Usable(v, supported.codecs, first) then Some(first)
    else if v.shadowOf.None? && Usable(v, supported.codecs, VP9) then Some(VP9)
    else if v.shadowOf.None? && Usable(v, supported.codecs, H264) then Some(H264)
    else None
  }

  lemma ReportExactly(net: Net, x: nat, supported: Supported, e: Env)
    requires Inv(net) && x in net.viewers
    ensures var v := net.viewers[x];
            var after := Capabilities(net, x, supported, e);
            && (!Heard(v, supported) ==> after == net)
            && (Heard(v, supported) ==>
                  && x in after.viewers
                  && var recorded := e.journal || (v.shadowOf.None? && v.requestId.None?);
                     if Chosen(v, supported).Some? && recorded
                     then after == net.(viewers := net.viewers[x := v.(finalized := true, selected := Chosen(v, supported))])
                     else after.viewers[x].failed && x !in after.sub && after.viewers[x].selected == v.selected)
  {
    hide Inv, Fail, Capabilities, Heard, Chosen;
    var n1 := Put(net, x, net.viewers[x].(finalized := true));
    ReportIs(net, x, supported, e);
    FinalizedKeeps(net, x);
    FailIs2(n1, x);
    InvAgrees2(n1);
    FailIs(n1, x);
    if Heard(net.viewers[x], supported) {
      HeardIsGoverned(net.viewers[x], supported);
    }
  }

  lemma HeardIsGoverned(v: Viewer, supported: Supported)
    requires Heard(v, supported)
    ensures v.policy.Some? && v.selected.Some?
  {
  }

  lemma ReportIs(net: Net, x: nat, supported: Supported, e: Env)
    requires x in net.viewers
    ensures var v := net.viewers[x];
            Capabilities(net, x, supported, e) ==
            if !Heard(v, supported) then net
            else if Chosen(v, supported).Some? && (e.journal || (v.shadowOf.None? && v.requestId.None?))
            then net.(viewers := net.viewers[x := v.(finalized := true, selected := Chosen(v, supported))])
            else Fail(Put(net, x, v.(finalized := true)), x)
  {
    hide Fail, FirstOf;
    ChosenIs(net.viewers[x], supported);
    hide Chosen;
  }

  lemma ChosenIs(v: Viewer, supported: Supported)
    ensures Heard(v, supported) ==>
              var preferred := if v.shadowOf.Some? then v.selected.value else v.policy.value.defaultCodec;
              Chosen(v, supported) ==
              if supported.Unknown? then Some(preferred)
              else FirstOf(if v.shadowOf.Some? then [preferred] else [preferred, VP9, H264], v.policy.value.allowed, supported.codecs)
  {
    hide FirstOf;
    if v.policy.Some? && v.selected.Some? && supported.Codecs? {
      FirstOfThree(v.policy.value.defaultCodec, v.policy.value.allowed, supported.codecs);
      FirstOfOne(v.selected.value, v.policy.value.allowed, supported.codecs);
    }
  }

  lemma InvAgrees2(net: Net)
    requires Inv(net)
    ensures Agrees(net)
  {
    hide Edges;
  }

  lemma FirstOfThree(first: VideoCodec, allowed: seq<VideoCodec>, codecs: seq<VideoCodec>)
    ensures FirstOf([first, VP9, H264], allowed, codecs) ==
            if first in allowed && first in codecs then Some(first)
            else if VP9 in allowed && VP9 in codecs then Some(VP9)
            else if H264 in allowed && H264 in codecs then Some(H264) else None
  {
    assert [first, VP9, H264][1..] == [VP9, H264] && [VP9, H264][1..] == [H264] && [H264][1..] == [];
    assert FirstOf([], allowed, codecs) == None;
    assert FirstOf([H264], allowed, codecs) == if H264 in allowed && H264 in codecs then Some(H264) else None;
  }

  lemma FirstOfOne(first: VideoCodec, allowed: seq<VideoCodec>, codecs: seq<VideoCodec>)
    ensures FirstOf([first], allowed, codecs) == if first in allowed && first in codecs then Some(first) else None
  {
    assert [first][1..] == [];
  }

  // The deadline takes off exactly the governed viewers that have not finished their negotiation.
  lemma DeadlineExactly(net: Net, x: nat)
    requires Inv(net) && x in net.viewers
    ensures net.viewers[x].policy.None? || net.viewers[x].negotiated ==> Timeout(net, x) == net
    ensures net.viewers[x].policy.Some? && !net.viewers[x].negotiated ==>
              x in Timeout(net, x).viewers && Timeout(net, x).viewers[x].failed && x !in Timeout(net, x).sub
  {
    hide Inv, Fail;
    FailIs2(net, x);
  }

  // ---- messages ----

  // A message of a governed viewer, other than one that is neither media nor a candidate, must name the
  // current generation, and come from a subscriber or be its first offer. Else nothing happens.
  lemma StaleIsDropped(net: Net, x: nat, m: Message, generation: Option<nat>, e: Env)
    requires x in net.viewers && net.viewers[x].policy.Some? && !m.Other?
    requires || generation != Some(net.viewers[x].generation)
             || (x !in net.sub && (net.viewers[x].hasSubscribed || !m.Media? || !m.description.isOffer))
    ensures FromPlayer(net, x, m, generation, e) == net
  {
    hide Filter, Bootstrap;
  }

  // Any other message is filtered if it is an offer or answer. If it is passed on and the sender is not
  // subscribed, it is put on the first streamer listed, or taken off when there is none.
  lemma FreshIsDelivered(net: Net, x: nat, m: Message, generation: Option<nat>, e: Env)
    requires x in net.viewers
    requires net.viewers[x].policy.Some? && !m.Other? ==>
               && generation == Some(net.viewers[x].generation)
               && (x in net.sub || (m.Media? && m.description.isOffer && !net.viewers[x].hasSubscribed))
    ensures var filtered := if m.Media? then Filter(net, x, m.description, false, e) else (net, true);
            && (!filtered.1 || x in filtered.0.sub ==> FromPlayer(net, x, m, generation, e) == filtered.0)
            && (filtered.1 && x !in filtered.0.sub && x in filtered.0.viewers ==>
                  FromPlayer(net, x, m, generation, e) == Bootstrap(filtered.0, x))
  {
    hide Filter, Bootstrap;
  }

  lemma BootstrapIs(net: Net, x: nat)
    requires Inv(net) && x in net.viewers
    ensures net.listed == [] ==> x !in Bootstrap(net, x).sub
    ensures net.listed != [] && x in Bootstrap(net, x).sub ==>
              Bootstrap(net, x) == Subscribe(net, x, Some(net.listed[0]), true)
    ensures net.listed != [] ==> (x in Bootstrap(net, x).sub <==> x in Subscribe(net, x, Some(net.listed[0]), true).sub)
  {
    hide Inv, Subscribe, Unsubscribe;
    InvAgrees(net);
    UnsubscribeShrinks(net, x);
    if net.listed != [] {
      SubscribeKeeps(net, x, Some(net.listed[0]), true);
      var n2 := Subscribe(net, x, Some(net.listed[0]), true);
      InvAgrees(n2);
      UnsubscribeShrinks(n2, x);
    }
  }

  // An offer or answer of a streamer reaches exactly its own subscribers, under their generation; an
  // ungoverned viewer has none.
  lemma ForwardedExactlyWhen(net: Net, s: nat, x: nat, generation: Option<nat>, d: Description, e: Env)
    requires Inv(net) && x in net.viewers && s in net.subscribers
    ensures FromStreamer(net, s, x, generation, d, e) ==
            if x in net.sub && net.sub[x] == s
               && (if net.viewers[x].policy.Some? then generation == Some(net.viewers[x].generation) else generation.None?)
            then Filter(net, x, d, true, e).0 else net
  {
    hide Filter;
  }

  // ---- who is let in ----

  // A player is registered exactly without a ticket, or with a ticket of a governed policy while the
  // server is ready and its evidence can be recorded; a shadow needs a source whose codec is allowed
  // and not H264. It starts with the default codec, a shadow with that of its source.
  lemma LetInExactlyWhen(net: Net, ticket: Option<Ticket>, queryId: Option<string>, ready: bool, e: Env)
    requires Inv(net)
    ensures var after := PlayerConnected(net, ticket, queryId, ready, e);
            && (net.next !in after.viewers ==> after == net)
            && (net.next in after.viewers ==>
                  after == net.(viewers := net.viewers[net.next := after.viewers[net.next]], next := net.next + 1)
                  && var v := after.viewers[net.next];
                     && !v.finalized && !v.failed && !v.hasSubscribed && !v.negotiated && v.generation == 0 && v.offer.None?
                     && v.policy == (if ticket.Some? then ticket.value.policy else None)
                     && v.shadowOf == (if ticket.Some? then ticket.value.shadowOf else None)
                     && (v.validated <==> ticket.Some? && ticket.value.requestId.Some?)
                     && v.requestId == (if ticket.None? then queryId
                                        else if ticket.value.shadowOf.Some? then None
                                        else if ticket.value.requestId.Some? then ticket.value.requestId else queryId))
            && (ticket.None? ==> net.next in after.viewers && after.viewers[net.next].selected.None?)
            && (ticket.Some? && ticket.value.shadowOf.None? ==>
                  && (net.next in after.viewers <==>
                        && ticket.value.policy.Some? && ready
                        && (e.journal || (ticket.value.requestId.None? && queryId.None?)))
                  && (net.next in after.viewers ==> after.viewers[net.next].selected == Some(ticket.value.policy.value.defaultCodec)))
            && (ticket.Some? && ticket.value.shadowOf.Some? ==>
                  && (net.next in after.viewers <==>
                        ticket.value.policy.Some? && ready && e.journal
                        && exists y: nat :: Shadowed(net, ticket.value, y) && net.viewers[y].selected.Some?
                                            && net.viewers[y].selected.value in ticket.value.policy.value.allowed
                                            && net.viewers[y].selected != Some(H264))
                  && (net.next in after.viewers ==>
                        exists y: nat :: Shadowed(net, ticket.value, y) && after.viewers[net.next].selected == net.viewers[y].selected))
  {
    hide Inv, ShadowSource, Watches, WatchesFirst, Shadowed;
    NextIsFree(net);
    if ticket.Some? {
      var v := NewViewer(ticket, queryId);
      var n1 := Put(net, net.next, v);
      NewIsNumbered(net, v);
      SourceOfNew(net, ticket.value, queryId);
    }
  }

  // The first of the viewers a shadow with this ticket may watch.
  ghost predicate Shadowed(net: Net, t: Ticket, y: nat) {
    MayShadow(net, t, y) && forall z: nat :: z < y ==> !MayShadow(net, t, z)
  }

  predicate MayShadow(net: Net, t: Ticket, y: nat) {
    && y in net.viewers && y in net.sub && net.viewers[y].validated && net.viewers[y].negotiated
    && net.viewers[y].requestId == t.shadowOf
    && (if t.policy.None? then net.viewers[y].policy.None?
        else net.viewers[y].policy.Some? && net.viewers[y].policy.value.hash == t.policy.value.hash)
  }

  lemma NextIsFree(net: Net)
    requires Inv(net)
    ensures net.next !in net.viewers && net.next !in net.sub
  {
    hide Edges, Restricts;
  }

  lemma NewIsNumbered(net: Net, v: Viewer)
    requires Inv(net)
    ensures Numbered(Put(net, net.next, v).(next := net.next + 1))
  {
    hide Edges, Restricts, AllGoverned, Exclusive, WithinLimits;
  }

  lemma SourceOfNew(net: Net, t: Ticket, queryId: Option<string>)
    requires Inv(net)
    ensures var n1 := Put(net, net.next, NewViewer(Some(t), queryId));
            && (forall y: nat :: ShadowSource(n1, net.next) == Some(y) <==> Shadowed(net, t, y))
            && (ShadowSource(n1, net.next).Some? ==> ShadowSource(n1, net.next).value in net.viewers
                                                     && n1.viewers[ShadowSource(n1, net.next).value] ==
                                                        net.viewers[ShadowSource(n1, net.next).value])
  {
    hide Inv, ShadowSource;
    NextIsFree(net);
    var x := net.next;
    var n1 := Put(net, x, NewViewer(Some(t), queryId));
    forall y: nat
      ensures Watches(n1, x, y) <==> MayShadow(net, t, y)
    {
    }
    SourceOfUnnumbered(net, n1, x);
    hide Watches, MayShadow;
  }

  lemma SourceOfUnnumbered(net: Net, n1: Net, x: nat)
    requires Inv(net) && x == net.next && x in n1.viewers && n1 == Put(net, x, n1.viewers[x])
    ensures forall y: nat :: ShadowSource(n1, x) == Some(y) <==> WatchesFirst(n1, x, y)
  {
    SourceFromIs(n1, x, 0);
    forall y: nat
      ensures IsSource(n1, x, y) <==> Watches(n1, x, y)
      ensures IsSource(n1, x, y) ==> y < n1.next
    {
      InNumbers(net);
    }
    hide IsSource, Watches, Inv;
  }

  lemma InNumbers(net: Net)
    requires Inv(net)
    ensures forall y :: y in net.viewers ==> y < net.next
  {
    hide Edges, AllGoverned, Exclusive, WithinLimits;
  }
}
