// Runs of the signalling server: any order of connections opening and closing, messages from
// players, streamers and SFUs, and deadlines. What holds of every state such a run reaches.
module ConnectionRuns {
  import opened Wrappers
  import opened CodecPolicies
  import opened CodecAnswers
  import opened Connections
  import opened ConnectionLaws

  datatype Step =
    | PlayerOpens(ticket: Option<Ticket>, queryId: Option<string>, ready: bool, env: Env)
    | StreamerOpens(limit: nat)
    | SfuOpens
    | Subscribes(x: nat, target: Option<nat>, wellFormed: bool)
    | Unsubscribes(x: nat)
    | Sends(x: nat, message: Message, generation: Option<nat>, env: Env)
    | StreamerSends(s: nat, x: nat, generation: Option<nat>, description: Description, env: Env)
    | ReportsCodecs(x: nat, supported: Supported, env: Env)
    | DeadlinePasses(x: nat)
    | PlayerCloses(x: nat)
    | StreamerCloses(s: nat)
    | SfuSubscribes(x: nat, target: Option<nat>, wellFormed: bool)
    | SfuUnsubscribes(x: nat)
    | SfuCloses(x: nat)
    | SfuStopsStreaming(x: nat)
    | StartsStreaming(s: nat)
    | IsUnlisted(s: nat)

  // Only registered connections act; a name resolves to a listed streamer.
  ghost predicate Legal(net: Net, step: Step) {
    match step
    case PlayerOpens(ticket, _, _, _) => ticket.Some? && ticket.value.policy.Some? ==> ValidPolicy(ticket.value.policy.value)
    case Subscribes(x, target, _) => x in net.viewers && (target.Some? ==> target.value in net.listed)
    case Unsubscribes(x) => x in net.viewers
    case Sends(x, _, _, _) => x in net.viewers
    case ReportsCodecs(x, _, _) => x in net.viewers
    case DeadlinePasses(x) => x in net.viewers
    case PlayerCloses(x) => x in net.viewers
    case StreamerCloses(s) => s in net.subscribers && s !in net.sfus
    case SfuSubscribes(x, target, _) => x in net.sfus && (target.Some? ==> target.value in net.listed)
    case SfuUnsubscribes(x) => x in net.sfus
    case SfuCloses(x) => x in net.sfus
    case SfuStopsStreaming(x) => x in net.sfus
    case _ => true
  }

  ghost function Next(net: Net, step: Step): Net
    requires Legal(net, step)
  {
    match step
    case PlayerOpens(ticket, queryId, ready, e) => PlayerConnected(net, ticket, queryId, ready, e)
    case StreamerOpens(limit) => StreamerConnected(net, limit)
    case SfuOpens => SfuConnected(net)
    case Subscribes(x, target, wellFormed) => Subscribe(net, x, target, wellFormed)
    case Unsubscribes(x) => Unsubscribe(net, x)
    case Sends(x, m, generation, e) => FromPlayer(net, x, m, generation, e)
    case StreamerSends(s, x, generation, d, e) => FromStreamer(net, s, x, generation, d, e)
    case ReportsCodecs(x, supported, e) => Capabilities(net, x, supported, e)
    case DeadlinePasses(x) => Timeout(net, x)
    case PlayerCloses(x) => PlayerClosed(net, x)
    case StreamerCloses(s) => StreamerClosed(net, s)
    case SfuSubscribes(x, target, wellFormed) => SfuSubscribe(net, x, target, wellFormed)
    case SfuUnsubscribes(x) => Unsubscribe(net, x)
    case SfuCloses(x) => SfuClosed(net, x)
    case SfuStopsStreaming(x) => SfuStops(net, x)
    case StartsStreaming(s) => net.(streaming := net.streaming + {s})
    case IsUnlisted(s) => net.(listed := Without(net.listed, s))
  }

  // ---- the invariant ----

  ghost predicate Governed(v: Viewer, subscribed: bool) {
    match v.policy
    case None => v.selected.None?
    case Some(p) =>
      && ValidPolicy(p) && v.selected.Some? && v.selected.value in p.allowed
      && (subscribed || v.hasSubscribed || v.offer.Some? ==> v.finalized)
      && (v.offer.Some? ==> v.offerFromStreamer.Some? && Restricts(v.offer.value, v.selected.value))
  }

  // The text is what restricting some description to the codec gives.
  ghost predicate Restricts(offer: string, codec: VideoCodec) {
    exists sdp :: Restrict(sdp, codec) == Passed(offer)
  }

  ghost predicate AllGoverned(net: Net) {
    forall x :: x in net.viewers ==> Governed(net.viewers[x], x in net.sub)
  }

  // Two governed viewers of one streamer: neither selected H264.
  ghost predicate Exclusive(net: Net) {
    forall x, y :: Together(net, x, y) ==> net.viewers[x].selected != Some(H264)
  }

  ghost predicate Together(net: Net, x: nat, y: nat) {
    && x != y && x in net.viewers && y in net.viewers
    && net.viewers[x].policy.Some? && net.viewers[y].policy.Some?
    && x in net.sub && y in net.sub && net.sub[x] == net.sub[y]
  }

  ghost function ViewersOf(net: Net, s: nat): (r: set<nat>) {
    set x | x in SubscribersOf(net, s) && x in net.viewers
  }

  // A limit bounds the PlayerConnections of a streamer; SFUs are not held to it.
  ghost predicate WithinLimits(net: Net) {
    forall s :: s in net.subscribers && s in net.max && net.max[s] > 0 ==> |ViewersOf(net, s)| <= net.max[s]
  }

  ghost predicate Inv(net: Net) {
    Numbered(net) && Agrees(net) && AllGoverned(net) && Exclusive(net) && WithinLimits(net)
  }

  // ---- losing edges keeps it ----

  lemma {:induction false} FewerIsSmaller(a: set<nat>, b: set<nat>)
    requires b <= a
    ensures |b| <= |a|
  {
    if b != {} {
      var x :| x in b;
      FewerIsSmaller(a - {x}, b - {x});
    }
  }

  lemma ShrunkKeeps(a: Net, b: Net)
    requires Inv(a) && Shrunk(a, b) && Agrees(b)
    ensures Inv(b)
  {
    hide Edges, Restricts;
    NumberedStill(a, b);
    forall s | s in b.subscribers && s in b.max && b.max[s] > 0
      ensures |ViewersOf(b, s)| <= b.max[s]
    {
      assert ViewersOf(b, s) <= ViewersOf(a, s);
      FewerIsSmaller(ViewersOf(a, s), ViewersOf(b, s));
    }
    forall x, y | Together(b, x, y)
      ensures b.viewers[x].selected != Some(H264)
    {
      assert Together(a, x, y);
    }
  }

  lemma UnsubscribeKeeps(net: Net, x: nat)
    requires Inv(net)
    ensures Inv(Unsubscribe(net, x))
    ensures Shrunk(net, Unsubscribe(net, x)) && Unsubscribe(net, x).sub == net.sub - {x}
  {
    hide Inv;
    InvAgrees(net);
    UnsubscribeShrinks(net, x);
    ShrunkKeeps(net, Unsubscribe(net, x));
  }

  lemma InvAgrees(net: Net)
    requires Inv(net)
    ensures Numbered(net) && Agrees(net)
  {
    hide Edges;
  }

  lemma EmitKeeps(net: Net, s: nat)
    requires Inv(net)
    ensures Inv(Emit(net, s)) && Shrunk(net, Emit(net, s))
  {
    hide Inv, Shrunk, Emit, FedBy;
    InvAgrees(net);
    DisconnectCascade(net, s);
    ShrunkKeeps(net, Emit(net, s));
  }

  // ---- changing one viewer's codec state keeps it ----

  // v may replace the state of x: the policy stays, and the selected codec unless x is not subscribed.
  ghost predicate Replaces(net: Net, x: nat, v: Viewer) {
    && x in net.viewers && v.policy == net.viewers[x].policy
    && (v.selected == net.viewers[x].selected || x !in net.sub)
    && Governed(v, x in net.sub)
  }

  lemma PutKeeps(net: Net, x: nat, v: Viewer)
    requires Inv(net) && Replaces(net, x, v)
    ensures Inv(Put(net, x, v))
  {
    hide Edges, Governed;
    var b := Put(net, x, v);
    forall s | s in b.subscribers && s in b.max && b.max[s] > 0
      ensures |ViewersOf(b, s)| <= b.max[s]
    {
      assert ViewersOf(b, s) == ViewersOf(net, s);
    }
    forall y, z | Together(b, y, z)
      ensures b.viewers[y].selected != Some(H264)
    {
      assert Together(net, y, z);
    }
  }

  lemma FailKeeps(net: Net, x: nat)
    requires Inv(net) && x in net.viewers
    ensures Inv(Fail(net, x))
  {
    hide Edges, Restricts;
    PutKeeps(net, x, net.viewers[x].(failed := true));
    hide Inv;
    UnsubscribeKeeps(Put(net, x, net.viewers[x].(failed := true)), x);
  }

  // ---- joining keeps it ----

  lemma JoinAgrees(net: Net, x: nat, s: nat)
    requires Agrees(net) && x !in net.sub && s in net.subscribers
    requires x in net.viewers || x in net.sfus
    ensures Agrees(Join(net, x, s))
  {
    var subs := net.subscribers[s];
    assert x !in subs;
    assert Distinct(subs + [x]);
  }

  lemma {:induction false} MembersAtMostLength(s: seq<nat>, members: set<nat>)
    requires forall x :: x in members ==> x in s
    ensures |members| <= |s|
  {
    if s == [] {
      assert members == {};
    } else {
      var last := s[|s| - 1];
      forall x | x in members - {last}
        ensures x in s[..|s| - 1]
      {
      }
      MembersAtMostLength(s[..|s| - 1], members - {last});
      assert members <= (members - {last}) + {last};
      FewerIsSmaller((members - {last}) + {last}, members);
    }
  }

  lemma JoinLimits(net: Net, x: nat, s: nat)
    requires WithinLimits(net) && s in net.subscribers && s in net.max
    requires x in net.viewers ==> net.max[s] > 0 ==> |net.subscribers[s]| < net.max[s]
    ensures WithinLimits(Join(net, x, s))
  {
    var b := Join(net, x, s);
    forall t | t in b.subscribers && t in b.max && b.max[t] > 0
      ensures |ViewersOf(b, t)| <= b.max[t]
    {
      if t != s {
        assert ViewersOf(b, t) == ViewersOf(net, t);
      } else if x in net.viewers {
        MembersAtMostLength(b.subscribers[s], ViewersOf(b, s));
      } else {
        assert ViewersOf(b, s) == ViewersOf(net, s);
      }
    }
  }

  lemma JoinExclusive(net: Net, x: nat, s: nat)
    requires Exclusive(net) && x !in net.sub
    requires x in net.viewers && net.viewers[x].policy.Some? ==> !Blocked(net, x, s)
    ensures Exclusive(Join(net, x, s))
  {
    var b := Join(net, x, s);
    forall y, z | Together(b, y, z)
      ensures b.viewers[y].selected != Some(H264)
    {
      if y == x {
        assert !BlockedBy(net, x, s, z);
      } else if z == x {
        assert !BlockedBy(net, x, s, y);
      } else {
        assert Together(net, y, z);
      }
    }
  }

  lemma JoinKeeps(net: Net, x: nat, s: nat)
    requires Inv(net) && x !in net.sub && s in net.subscribers && s in net.max
    requires x in net.viewers || x in net.sfus
    requires x in net.viewers ==> Governed(net.viewers[x], true)
    requires x in net.viewers ==> net.max[s] > 0 ==> |net.subscribers[s]| < net.max[s]
    requires x in net.viewers && net.viewers[x].policy.Some? ==> !Blocked(net, x, s)
    ensures Inv(Join(net, x, s))
  {
    hide Governed, Blocked, Edges;
    JoinAgrees(net, x, s);
    JoinLimits(net, x, s);
    JoinExclusive(net, x, s);
    hide WithinLimits, Exclusive, Agrees;
  }

  // ---- subscribe ----

  lemma EnterKeeps(net: Net, x: nat, s: nat)
    requires Inv(net) && x in net.viewers && s in net.subscribers
    requires net.viewers[x].finalized
    requires net.viewers[x].policy.Some? ==> !Blocked(net, x, s)
    ensures Inv(Enter(net, x, s))
  {
    hide Inv, Edges, Blocked, Restricts;
    var n2 := if x in net.sub then Unsubscribe(net, x) else net;
    if x in net.sub {
      UnsubscribeKeeps(net, x);
    }
    InvAgrees(net);
    InvAgrees(n2);
    InvGoverned(n2, x);
    assert n2.viewers[x] == net.viewers[x] || n2.viewers[x] == Forget(net.viewers[x]);
    if n2.viewers[x].policy.Some? {
      StillNotBlocked(net, n2, x, s);
    }
    var v := Rejoin(n2.viewers[x]);
    if !(net.max[s] > 0 && |SubscribersOf(n2, s)| >= net.max[s]) {
      PutKeeps(n2, x, v);
      var n3 := Put(n2, x, v);
      if v.policy.Some? {
        PutNotBlocked(n2, x, v, s);
      }
      JoinKeeps(n3, x, s);
    }
  }

  lemma InvGoverned(net: Net, x: nat)
    requires Inv(net) && x in net.viewers
    ensures Governed(net.viewers[x], x in net.sub)
  {
    hide Governed, Edges;
  }

  lemma StillNotBlocked(a: Net, b: Net, x: nat, s: nat)
    requires Shrunk(a, b) || a == b
    requires x in a.viewers && x in b.viewers && !Blocked(a, x, s)
    ensures !Blocked(b, x, s)
  {
    forall y
      ensures !BlockedBy(b, x, s, y)
    {
      assert !BlockedBy(a, x, s, y);
    }
  }

  lemma PutNotBlocked(net: Net, x: nat, v: Viewer, s: nat)
    requires x in net.viewers && !Blocked(net, x, s) && v.selected == net.viewers[x].selected
    ensures !Blocked(Put(net, x, v), x, s)
  {
    forall y
      ensures !BlockedBy(Put(net, x, v), x, s, y)
    {
      assert !BlockedBy(net, x, s, y);
    }
  }

  lemma SubscribeKeeps(net: Net, x: nat, target: Option<nat>, wellFormed: bool)
    requires Inv(net) && x in net.viewers && (target.Some? ==> target.value in net.subscribers)
    ensures Inv(Subscribe(net, x, target, wellFormed))
  {
    hide Inv, Edges, Blocked, Restricts, Enter, Fail, Unsubscribe, ShadowSource;
    var v := net.viewers[x];
    InvGoverned(net, x);
    if !v.failed {
      var n1 := Put(net, x, v.(finalized := true));
      PutKeeps(net, x, v.(finalized := true));
      UnsubscribeKeeps(n1, x);
      FailKeeps(n1, x);
      if target.Some? && (v.policy.Some? ==> !Blocked(n1, x, target.value)) {
        EnterKeeps(n1, x, target.value);
      }
    }
  }

  // ---- negotiation ----

  lemma NegotiateKeeps(net: Net, x: nat, d: Description, fromStreamer: bool, e: Env)
    requires Inv(net) && x in net.viewers && net.viewers[x].policy.Some? && net.viewers[x].finalized
    ensures Inv(Negotiate(net, x, d, fromStreamer, e).0)
  {
    hide Inv, Edges, Fail, Unsubscribe, Restrict, Accepts;
    var v := net.viewers[x];
    InvGoverned(net, x);
    FailKeeps(net, x);
    if v.selected.Some? && Restrict(d.sdp, v.selected.value).Passed? {
      var restricted := Restrict(d.sdp, v.selected.value).value;
      assert Restricts(restricted, v.selected.value);
      if d.isOffer {
        PutKeeps(net, x, v.(offer := Some(restricted), offerFromStreamer := Some(fromStreamer), negotiated := false));
      } else {
        var n1 := Put(net, x, v.(offer := None, offerFromStreamer := None, negotiated := true));
        PutKeeps(net, x, v.(offer := None, offerFromStreamer := None, negotiated := true));
        UnsubscribeKeeps(n1, x);
      }
    }
  }

  lemma FilterKeeps(net: Net, x: nat, d: Description, fromStreamer: bool, e: Env)
    requires Inv(net) && x in net.viewers
    ensures Inv(Filter(net, x, d, fromStreamer, e).0)
  {
    hide Inv, Edges, Unsubscribe, Negotiate, ShadowSource, Restricts;
    var v := net.viewers[x];
    if v.policy.Some? && !v.failed {
      InvGoverned(net, x);
      UnsubscribeKeeps(net, x);
      PutKeeps(net, x, v.(finalized := true));
      NegotiateKeeps(Put(net, x, v.(finalized := true)), x, d, fromStreamer, e);
    }
  }

  lemma BootstrapKeeps(net: Net, x: nat)
    requires Inv(net) && x in net.viewers
    ensures Inv(Bootstrap(net, x))
  {
    hide Inv, Edges, Unsubscribe, Subscribe;
    UnsubscribeKeeps(net, x);
    if net.listed != [] {
      InvAgrees(net);
      assert net.listed[0] in net.listed;
      SubscribeKeeps(net, x, Some(net.listed[0]), true);
      UnsubscribeKeeps(Subscribe(net, x, Some(net.listed[0]), true), x);
    }
  }

  lemma FromPlayerKeeps(net: Net, x: nat, m: Message, generation: Option<nat>, e: Env)
    requires Inv(net) && x in net.viewers
    ensures Inv(FromPlayer(net, x, m, generation, e))
  {
    hide Inv, Filter, Bootstrap;
    if m.Media? {
      FilterKeeps(net, x, m.description, false, e);
    }
    var n1 := if m.Media? then Filter(net, x, m.description, false, e).0 else net;
    if x in n1.viewers {
      BootstrapKeeps(n1, x);
    }
  }

  lemma CapabilitiesKeep(net: Net, x: nat, supported: Supported, e: Env)
    requires Inv(net) && x in net.viewers
    ensures Inv(Capabilities(net, x, supported, e))
  {
    hide Inv, Edges, Unsubscribe, Fail, Restricts;
    var v := net.viewers[x];
    InvGoverned(net, x);
    var n1 := Put(net, x, v.(finalized := true));
    PutKeeps(net, x, v.(finalized := true));
    FailKeeps(n1, x);
    var after := Capabilities(net, x, supported, e);
    if after != net && after != Fail(n1, x) {
      PutKeeps(net, x, after.viewers[x]);
      assert after == Put(net, x, after.viewers[x]);
    }
  }

  // ---- connections ----

  lemma {:induction false} OrphansKeep(net: Net, i: nat)
    requires Inv(net)
    ensures Inv(CloseOrphans(net, i))
    decreases net.next - i
  {
    hide Inv, Unsubscribe, ShadowSource;
    if i < net.next {
      UnsubscribeKeeps(net, i);
      if i in net.viewers && net.viewers[i].shadowOf.Some? && ShadowSource(net, i).None? {
        OrphansKeep(Unsubscribe(net, i), i + 1);
      } else {
        OrphansKeep(net, i + 1);
      }
    }
  }

  lemma ForgottenKeeps(net: Net, x: nat)
    requires Inv(net) && x !in net.sub
    ensures Inv(net.(viewers := net.viewers - {x}))
  {
    hide Edges, Governed;
    var b := net.(viewers := net.viewers - {x});
    forall s | s in b.subscribers && s in b.max && b.max[s] > 0
      ensures |ViewersOf(b, s)| <= b.max[s]
    {
      assert ViewersOf(b, s) <= ViewersOf(net, s);
      FewerIsSmaller(ViewersOf(net, s), ViewersOf(b, s));
    }
    forall y, z | Together(b, y, z)
      ensures b.viewers[y].selected != Some(H264)
    {
      assert Together(net, y, z);
    }
  }

  lemma PlayerClosedKeeps(net: Net, x: nat)
    requires Inv(net) && x in net.viewers
    ensures Inv(PlayerClosed(net, x))
  {
    hide Inv, Unsubscribe, CloseOrphans;
    UnsubscribeKeeps(net, x);
    var n1 := Unsubscribe(net, x);
    ForgottenKeeps(n1, x);
    OrphansKeep(n1.(viewers := n1.viewers - {x}), 0);
  }

  lemma AddedKeeps(net: Net, v: Viewer)
    requires Inv(net) && Governed(v, false)
    ensures Inv(Put(net, net.next, v).(next := net.next + 1))
  {
    hide Distinct, Governed;
    var b := Put(net, net.next, v).(next := net.next + 1);
    assert net.next !in net.sub;
    forall s | s in b.subscribers && s in b.max && b.max[s] > 0
      ensures |ViewersOf(b, s)| <= b.max[s]
    {
      assert net.next !in SubscribersOf(net, s);
      assert ViewersOf(b, s) == ViewersOf(net, s);
    }
    forall y, z | Together(b, y, z)
      ensures b.viewers[y].selected != Some(H264)
    {
      assert Together(net, y, z);
    }
  }

  lemma PlayerConnectedKeeps(net: Net, ticket: Option<Ticket>, queryId: Option<string>, ready: bool, e: Env)
    requires Inv(net)
    requires ticket.Some? && ticket.value.policy.Some? ==> ValidPolicy(ticket.value.policy.value)
    ensures Inv(PlayerConnected(net, ticket, queryId, ready, e))
  {
    hide Inv, Restricts, ShadowSource;
    var v := NewViewer(ticket, queryId);
    if ticket.None? {
      AddedKeeps(net, v);
    } else {
      var codec := Admit(net, v, ready, e);
      if codec.Some? {
        AddedKeeps(net, v.(selected := codec));
      }
    }
  }

  // The same viewers and subscriptions, perhaps with a new streamer nobody is subscribed to.
  lemma SameSubscriptions(a: Net, b: Net)
    requires AllGoverned(a) && Exclusive(a) && WithinLimits(a)
    requires b.viewers == a.viewers && b.sub == a.sub
    requires forall s :: s in b.subscribers ==>
               if s in a.subscribers then b.subscribers[s] == a.subscribers[s] && s in a.max && s in b.max && b.max[s] == a.max[s]
               else b.subscribers[s] == []
    ensures AllGoverned(b) && Exclusive(b) && WithinLimits(b)
  {
    hide Governed;
    forall s | s in b.subscribers && s in b.max && b.max[s] > 0
      ensures |ViewersOf(b, s)| <= b.max[s]
    {
      if s in a.subscribers {
        assert ViewersOf(b, s) == ViewersOf(a, s);
      } else {
        assert ViewersOf(b, s) == {};
      }
    }
    forall y, z | Together(b, y, z)
      ensures b.viewers[y].selected != Some(H264)
    {
      assert Together(a, y, z);
    }
  }

  lemma StreamerConnectedKeeps(net: Net, limit: nat, sfu: bool)
    requires Inv(net)
    ensures Inv(StreamerConnected(net, limit).(sfus := if sfu then net.sfus + {net.next} else net.sfus))
  {
    hide Edges, Governed, ViewersOf, Together;
    var b := StreamerConnected(net, limit).(sfus := if sfu then net.sfus + {net.next} else net.sfus);
    SameSubscriptions(net, b);
    EmptyStreamer(net.sub, net.subscribers, net.next);
  }

  lemma EmptyStreamer(sub: map<nat, nat>, subscribers: map<nat, seq<nat>>, s: nat)
    requires Edges(sub, subscribers) && s !in subscribers
    ensures Edges(sub, subscribers[s := []])
  {
    assert Distinct([]);
    hide Distinct;
  }

  // Changes that no part of the invariant but the numbering looks at.
  lemma BookkeepingKeeps(net: Net, listed: seq<nat>, streaming: set<nat>)
    requires Inv(net) && forall s :: s in listed ==> s in net.listed
    ensures Inv(net.(listed := listed, streaming := streaming))
  {
    hide Distinct;
    SameSubscriptions(net, net.(listed := listed, streaming := streaming));
  }

  lemma SfuGoneKeeps(net: Net, x: nat)
    requires Inv(net) && x !in net.sub
    ensures Inv(net.(sfus := net.sfus - {x}))
  {
    hide Distinct;
    SameSubscriptions(net, net.(sfus := net.sfus - {x}));
  }

  lemma SfuDisconnectKeeps(net: Net, x: nat)
    requires Inv(net) && x in net.sfus
    ensures Inv(SfuDisconnect(net, x)) && x !in SfuDisconnect(net, x).sub
    ensures Shrunk(net, SfuDisconnect(net, x))
  {
    hide Inv, Emit, Edges;
    InvAgrees(net);
    assert x !in net.viewers;
    UnsubscribeKeeps(net, x);
    var n1 := Unsubscribe(net, x);
    assert n1 == Leave(net, x);
    EmitKeeps(n1, x);
    ShrunkTwice(net, n1, Emit(n1, x));
  }

  // ---- every step, every run ----

  lemma NextKeeps(net: Net, step: Step)
    requires Inv(net) && Legal(net, step)
    ensures Inv(Next(net, step))
  {
    hide Inv, Edges, Unsubscribe, Emit, Subscribe, FromPlayer, Filter, Capabilities, Fail, PlayerClosed, PlayerConnected, StreamerConnected;
    InvAgrees(net);
    match step
    case PlayerOpens(ticket, queryId, ready, e) => PlayerConnectedKeeps(net, ticket, queryId, ready, e);
    case StreamerOpens(limit) => OpensKeeps(net, limit, false);
    case SfuOpens => OpensKeeps(net, 0, true);
    case Subscribes(x, target, wellFormed) => SubscribeKeeps(net, x, target, wellFormed);
    case Unsubscribes(x) => UnsubscribeKeeps(net, x);
    case Sends(x, m, generation, e) => FromPlayerKeeps(net, x, m, generation, e);
    case StreamerSends(s, x, generation, d, e) =>
      if x in net.viewers {
        FilterKeeps(net, x, d, true, e);
      }
    case ReportsCodecs(x, supported, e) => CapabilitiesKeep(net, x, supported, e);
    case DeadlinePasses(x) => FailKeeps(net, x);
    case PlayerCloses(x) => PlayerClosedKeeps(net, x);
    case StreamerCloses(s) =>
      EmitKeeps(net, s);
      var n1 := Emit(net, s);
      BookkeepingKeeps(n1, Without(n1.listed, s), n1.streaming);
    case SfuSubscribes(x, target, wellFormed) => SfuSubscribeKeeps(net, x, target, wellFormed);
    case SfuUnsubscribes(x) => UnsubscribeKeeps(net, x);
    case SfuCloses(x) => SfuClosedKeeps(net, x);
    case SfuStopsStreaming(x) =>
      BookkeepingKeeps(net, net.listed, net.streaming - {x});
      EmitKeeps(net.(listed := net.listed, streaming := net.streaming - {x}), x);
    case StartsStreaming(s) => BookkeepingKeeps(net, net.listed, net.streaming + {s});
    case IsUnlisted(s) => BookkeepingKeeps(net, Without(net.listed, s), net.streaming);
  }

  lemma OpensKeeps(net: Net, limit: nat, sfu: bool)
    requires Inv(net) && (sfu ==> limit == 0)
    ensures Inv(if sfu then SfuConnected(net) else StreamerConnected(net, limit))
  {
    hide Inv;
    StreamerConnectedKeeps(net, limit, sfu);
  }

  lemma SfuSubscribeKeeps(net: Net, x: nat, target: Option<nat>, wellFormed: bool)
    requires Inv(net) && x in net.sfus && (target.Some? ==> target.value in net.listed)
    ensures Inv(SfuSubscribe(net, x, target, wellFormed))
  {
    hide Inv, Emit, Edges, Without;
    InvAgrees(net);
    if !wellFormed {
      SfuDisconnectKeeps(net, x);
    } else if target.Some? {
      UnsubscribeKeeps(net, x);
      var n1 := Unsubscribe(net, x);
      assert n1 == Leave(net, x);
      InvAgrees(n1);
      JoinKeeps(n1, x, target.value);
    }
  }

  lemma SfuClosedKeeps(net: Net, x: nat)
    requires Inv(net) && x in net.sfus
    ensures Inv(SfuClosed(net, x))
  {
    hide Inv, Emit, Edges, SfuDisconnect;
    SfuDisconnectKeeps(net, x);
    var n1 := SfuDisconnect(net, x);
    SfuGoneKeeps(n1, x);
    var n2 := n1.(sfus := n1.sfus - {x});
    BookkeepingKeeps(n2, Without(n1.listed, x), n1.streaming);
    assert SfuClosed(net, x) == n2.(listed := Without(n1.listed, x), streaming := n1.streaming);
  }

  ghost predicate Run(net: Net, steps: seq<Step>, last: Net)
    decreases |steps|
  {
    if steps == [] then last == net
    else Legal(net, steps[0]) && Run(Next(net, steps[0]), steps[1..], last)
  }

  lemma {:induction false} RunKeeps(net: Net, steps: seq<Step>, last: Net)
    requires Inv(net) && Run(net, steps, last)
    ensures Inv(last)
    decreases |steps|
  {
    hide Inv, Next, Legal;
    if steps != [] {
      NextKeeps(net, steps[0]);
      RunKeeps(Next(net, steps[0]), steps[1..], last);
    }
  }

  // After any run: both ends of every subscription agree, no limit is exceeded, a governed viewer's
  // codec is one its policy allows, and one that selected H264 shares its streamer with no other.
  lemma EveryRun(steps: seq<Step>, net: Net)
    requires Run(EMPTY_NET, steps, net)
    ensures forall x, s :: s in net.subscribers ==> ((x in net.sub && net.sub[x] == s) <==> x in net.subscribers[s])
    ensures forall s :: s in net.subscribers && s in net.max && net.max[s] > 0 ==> |ViewersOf(net, s)| <= net.max[s]
    ensures forall x :: x in net.viewers && net.viewers[x].policy.Some? ==>
              net.viewers[x].selected.Some? && net.viewers[x].selected.value in net.viewers[x].policy.value.allowed
    ensures forall x, y :: Together(net, x, y) ==> net.viewers[x].selected != Some(H264) && net.viewers[y].selected != Some(H264)
  {
    hide Run, Restricts;
    RunKeeps(EMPTY_NET, steps, net);
    forall x, y | Together(net, x, y)
      ensures net.viewers[x].selected != Some(H264) && net.viewers[y].selected != Some(H264)
    {
      assert Together(net, y, x);
    }
  }
}
