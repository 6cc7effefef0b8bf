// The signalling server's connections: who is subscribed to whom, as both ends record it, the
// cascade of a disconnect through SFUs, and the negotiation of a governed viewer's codec.
module Connections {
  import opened Wrappers
  import opened CodecPolicies
  import opened CodecAnswers

  // The codec state of a PlayerConnection. `policy` is None for an ungoverned viewer, `shadowOf`
  // is the session request an admin shadow watches.
  datatype Viewer = Viewer(
    policy: Option<Policy>,
    requestId: Option<string>,
    validated: bool,
    shadowOf: Option<string>,
    selected: Option<VideoCodec>,
    finalized: bool,
    failed: bool,
    hasSubscribed: bool,
    generation: nat,
    offer: Option<string>,
    offerFromStreamer: Option<bool>,
    negotiated: bool)

  // Connections are numbered in the order in which they open. `viewers` and `sfus` are the player
  // registry, `listed` the streamer registry, `sub` the subscribedStreamer of each subscriber and
  // `subscribers` the set each streamer keeps, which is also its list of 'disconnect' listeners.
  datatype Net = Net(
    viewers: map<nat, Viewer>,
    sfus: set<nat>,
    listed: seq<nat>,
    sub: map<nat, nat>,
    subscribers: map<nat, seq<nat>>,
    max: map<nat, nat>,
    streaming: set<nat>,
    next: nat)

  const EMPTY_NET := Net(map[], {}, [], map[], map[], map[], {}, 0)

  // ---- edges ----

  function Without(s: seq<nat>, x: nat): (r: seq<nat>)
    ensures forall y :: y in r <==> y in s && y != x
    ensures |r| <= |s|
  {
    if s == [] then []
    else if s[0] == x then Without(s[1..], x)
    else [s[0]] + Without(s[1..], x)
  }

  function SubscribersOf(net: Net, s: nat): seq<nat> {
    if s in net.subscribers then net.subscribers[s] else []
  }

  function Leave(net: Net, x: nat): Net {
    if x !in net.sub then net
    else
      var s := net.sub[x];
      net.(sub := net.sub - {x}, subscribers := net.subscribers[s := Without(SubscribersOf(net, s), x)])
  }

  function Join(net: Net, x: nat, s: nat): Net {
    net.(sub := net.sub[x := s], subscribers := net.subscribers[s := SubscribersOf(net, s) + [x]])
  }

  function Forget(v: Viewer): Viewer {
    v.(offer := None, offerFromStreamer := None, negotiated := false)
  }

  function Put(net: Net, x: nat, v: Viewer): Net {
    net.(viewers := net.viewers[x := v])
  }

  // unsubscribe of a viewer or an SFU
  function Unsubscribe(net: Net, x: nat): Net {
    Leave(if x in net.viewers then Put(net, x, Forget(net.viewers[x])) else net, x)
  }

  lemma LeaveShrinks(net: Net, x: nat)
    requires x in net.sub
    ensures |Unsubscribe(net, x).sub| < |net.sub|
    ensures Unsubscribe(net, x).sub == net.sub - {x}
  {
    assert net.sub.Keys - {x} == (net.sub - {x}).Keys;
    assert |net.sub.Keys - {x}| < |net.sub.Keys|;
  }

  // ---- the 'disconnect' event ----

  // Calls the listeners in `left` that are still registered with s. A viewer unsubscribes; an SFU
  // unsubscribes, stops streaming and emits the event itself.
  function EmitTo(net: Net, s: nat, left: seq<nat>): (r: Net)
    ensures |r.sub| <= |net.sub|
    decreases |net.sub|, |left|
  {
    if left == [] then net
    else
      var x := left[0];
      if x in net.sub && x in SubscribersOf(net, s) then
        LeaveShrinks(net, x);
        var n1 := Unsubscribe(net, x);
        var n2 := if x in net.sfus
                  then EmitTo(n1.(streaming := n1.streaming - {x}), x, SubscribersOf(n1, x)) else n1;
        EmitTo(n2, s, left[1..])
      else
        EmitTo(net, s, left[1..])
  }

  function Emit(net: Net, s: nat): Net {
    EmitTo(net, s, SubscribersOf(net, s))
  }

  // ---- viewers ----

  predicate IsSource(net: Net, x: nat, y: nat)
    requires x in net.viewers
  {
    && y in net.viewers && y != x
    && net.viewers[y].validated
    && net.viewers[y].requestId == net.viewers[x].shadowOf
    && net.viewers[y].policy.Some? == net.viewers[x].policy.Some?
    && (net.viewers[x].policy.Some? ==> net.viewers[y].policy.value.hash == net.viewers[x].policy.value.hash)
    && net.viewers[y].negotiated
    && y in net.sub
  }

  function SourceFrom(net: Net, x: nat, i: nat): (y: Option<nat>)
    requires x in net.viewers
    ensures y.Some? ==> i <= y.value && IsSource(net, x, y.value)
    ensures y.None? ==> forall z :: i <= z < net.next ==> !IsSource(net, x, z)
    decreases net.next - i
  {
    if i >= net.next then None
    else if IsSource(net, x, i) then Some(i)
    else SourceFrom(net, x, i + 1)
  }

  // shadowSource
  function ShadowSource(net: Net, x: nat): (y: Option<nat>)
    requires x in net.viewers
    ensures y.Some? ==> IsSource(net, x, y.value)
  {
    SourceFrom(net, x, 0)
  }

  // failCodecNegotiation
  function Fail(net: Net, x: nat): Net
    requires x in net.viewers
  {
    Unsubscribe(Put(net, x, net.viewers[x].(failed := true)), x)
  }

  // H264 allows one governed viewer: somebody else is on s and one of the two selected it.
  ghost predicate Blocked(net: Net, x: nat, s: nat)
    requires x in net.viewers
  {
    exists y :: BlockedBy(net, x, s, y)
  }

  predicate BlockedBy(net: Net, x: nat, s: nat, y: nat)
    requires x in net.viewers
  {
    y in net.viewers && y != x && y in net.sub && net.sub[y] == s
    && (net.viewers[x].selected == Some(H264) || net.viewers[y].selected == Some(H264))
  }

  // The state of a governed viewer that is about to join: a second time starts a new generation.
  function Rejoin(v: Viewer): Viewer {
    if v.policy.None? then v
    else if v.hasSubscribed then Forget(v.(generation := v.generation + 1))
    else v.(hasSubscribed := true)
  }

  // subscribe. `target` is what the streamer registry finds under the wanted name, `wellFormed`
  // whether the name is a string at all.
  ghost function Subscribe(net: Net, x: nat, target: Option<nat>, wellFormed: bool): Net
    requires x in net.viewers
  {
    var v := net.viewers[x];
    if v.failed then net
    else
      var n1 := Put(net, x, v.(finalized := true));
      var source := ShadowSource(n1, x);
      var sourceStream := if source.Some? then Some(n1.sub[source.value]) else None;
      if !wellFormed then Unsubscribe(n1, x)
      else if v.shadowOf.Some? && sourceStream != target then Unsubscribe(n1, x)
      else if target.None? then n1
      else if v.policy.Some? && target.value in n1.sfus then n1
      else if v.policy.Some? && Blocked(n1, x, target.value) then Fail(n1, x)
      else Enter(n1, x, target.value)
  }

  // The end of subscribe: leave the old streamer, then join unless the new one is full.
  function Enter(net: Net, x: nat, s: nat): Net
    requires x in net.viewers
  {
    var n2 := if x in net.sub then Unsubscribe(net, x) else net;
    var max := if s in net.max then net.max[s] else 0;
    if max > 0 && |SubscribersOf(n2, s)| >= max then n2
    else Join(Put(n2, x, Rejoin(n2.viewers[x])), x, s)
  }

  // ---- negotiation ----

  // An offer or an answer; `direct` is false when it comes from an SFU or asks for scalability.
  datatype Description = Description(isOffer: bool, sdp: string, direct: bool)

  // Whether evidence can be persisted, and whether a listener of 'negotiated' takes the viewer off.
  datatype Env = Env(journal: bool, rejected: bool)

  // recordCodec throws.
  predicate RecordFails(v: Viewer, e: Env) {
    v.policy.Some? && (v.shadowOf.Some? || v.requestId.Some?) && !e.journal
  }

  // filterCodecMessage; the second component says whether the message is passed on.
  ghost function Filter(net: Net, x: nat, d: Description, fromStreamer: bool, e: Env): (r: (Net, bool))
    requires x in net.viewers
  {
    var v := net.viewers[x];
    if v.policy.None? then (net, true)
    else if v.failed then (net, false)
    else
      var source := ShadowSource(net, x);
      if v.shadowOf.Some? && (source.None? || net.viewers[source.value].selected != v.selected) then (Unsubscribe(net, x), false)
      else Negotiate(Put(net, x, v.(finalized := true)), x, d, fromStreamer, e)
  }

  ghost function Negotiate(net: Net, x: nat, d: Description, fromStreamer: bool, e: Env): (r: (Net, bool))
    requires x in net.viewers
  {
    var v := net.viewers[x];
    if !d.direct || v.selected.None? then (Fail(net, x), false)
    else
      var restricted := Restrict(d.sdp, v.selected.value);
      if restricted.Rejected? then (Fail(net, x), false)
      else if d.isOffer then
        (Put(net, x, v.(offer := Some(restricted.value), offerFromStreamer := Some(fromStreamer), negotiated := false)), true)
      else if v.offerFromStreamer == Some(fromStreamer) || !Accepts(v.offer, d.sdp) || RecordFails(v, e) then (Fail(net, x), false)
      else
        var n1 := Put(net, x, v.(offer := None, offerFromStreamer := None, negotiated := true));
        if e.rejected then (Unsubscribe(n1, x), false) else (n1, x in n1.sub)
  }

  datatype Message = Media(description: Description) | Candidate | Other

  // sendToStreamer. `generation` is the media generation the message names.
  ghost function FromPlayer(net: Net, x: nat, m: Message, generation: Option<nat>, e: Env): Net
    requires x in net.viewers
  {
    var v := net.viewers[x];
    var governed := v.policy.Some? && !m.Other?;
    if governed && generation != Some(v.generation) then net
    else if governed && x !in net.sub && (!(m.Media? && m.description.isOffer) || v.hasSubscribed) then net
    else
      var (n1, passed) := if m.Media? then Filter(net, x, m.description, false, e) else (net, true);
      if !passed || x in n1.sub || x !in n1.viewers then n1 else Bootstrap(n1, x)
  }

  // A player that is not subscribed is put on the first streamer, or disconnected.
  ghost function Bootstrap(net: Net, x: nat): Net
    requires x in net.viewers
  {
    if net.listed == [] then Unsubscribe(net, x)
    else
      var n2 := Subscribe(net, x, Some(net.listed[0]), true);
      if x in n2.sub then n2 else Unsubscribe(n2, x)
  }

  // forwardMessage: only to a subscriber, and only under the name of its current generation.
  ghost function FromStreamer(net: Net, s: nat, x: nat, generation: Option<nat>, d: Description, e: Env): Net {
    if x !in SubscribersOf(net, s) || x !in net.viewers then net
    else
      var v := net.viewers[x];
      if generation != (if v.policy.Some? then Some(v.generation) else None) then net
      else Filter(net, x, d, true, e).0
  }

  // What the browser says it can decode: nothing usable, null, or a list.
  datatype Supported = Malformed | Unknown | Codecs(codecs: seq<VideoCodec>)

  function FirstOf(wanted: seq<VideoCodec>, allowed: seq<VideoCodec>, supported: seq<VideoCodec>): (c: Option<VideoCodec>)
    ensures c.Some? ==> c.value in wanted && c.value in allowed && c.value in supported
  {
    if wanted == [] then None
    else if wanted[0] in allowed && wanted[0] in supported then Some(wanted[0])
    else FirstOf(wanted[1..], allowed, supported)
  }

  // The handler of scaleWorldCodecCapabilities.
  function Capabilities(net: Net, x: nat, supported: Supported, e: Env): Net
    requires x in net.viewers
  {
    var v := net.viewers[x];
    if v.policy.None? || v.selected.None? || v.finalized || v.hasSubscribed || v.offer.Some? then net
    else if supported.Malformed? || (supported.Codecs? && |supported.codecs| > 4) then net
    else
      var n1 := Put(net, x, v.(finalized := true));
      var preferred := if v.shadowOf.Some? then v.selected.value else v.policy.value.defaultCodec;
      var selected := if supported.Unknown? then Some(preferred)
                      else FirstOf(if v.shadowOf.Some? then [preferred] else [preferred, VP9, H264],
                                   v.policy.value.allowed, supported.codecs);
      if selected.None? || RecordFails(v, e) then Fail(n1, x)
      else Put(n1, x, v.(finalized := true, selected := selected))
  }

  // The negotiation deadline.
  function Timeout(net: Net, x: nat): Net
    requires x in net.viewers
  {
    if net.viewers[x].policy.None? || net.viewers[x].negotiated then net else Fail(net, x)
  }

  // ---- connections opening and closing ----

  // The ticket behind a player connection; None for a connection without a validated ticket.
  datatype Ticket = Ticket(policy: Option<Policy>, requestId: Option<string>, shadowOf: Option<string>)

  function NewViewer(ticket: Option<Ticket>, queryId: Option<string>): Viewer {
    var shadowOf := if ticket.Some? then ticket.value.shadowOf else None;
    var ticketId := if ticket.Some? then ticket.value.requestId else None;
    Viewer(if ticket.Some? then ticket.value.policy else None,
           if shadowOf.Some? then None else if ticketId.Some? then ticketId else queryId,
           ticketId.Some?, shadowOf, None, false, false, false, 0, None, None, false)
  }

  // initializeCodecPolicy: the codec a governed viewer starts with, or None when it is refused.
  function Admit(net: Net, v: Viewer, ready: bool, e: Env): (codec: Option<VideoCodec>)
  {
    if v.policy.None? || !ready then None
    else if v.shadowOf.None? then
      if RecordFails(v, e) then None else Some(v.policy.value.defaultCodec)
    else
      var source := ShadowSource(Put(net, net.next, v), net.next);
      if source.None? || source.value !in net.viewers then None
      else
        var codec := net.viewers[source.value].selected;
        if codec.None? || codec.value !in v.policy.value.allowed || codec.value == H264 || RecordFails(v, e) then None
        else codec
  }

  // onPlayerConnected. A refused connection is closed without being registered.
  function PlayerConnected(net: Net, ticket: Option<Ticket>, queryId: Option<string>, ready: bool, e: Env): Net {
    var v := NewViewer(ticket, queryId);
    if ticket.None? then Put(net, net.next, v).(next := net.next + 1)
    else
      var codec := Admit(net, v, ready, e);
      if codec.None? then net else Put(net, net.next, v.(selected := codec)).(next := net.next + 1)
  }

  function StreamerConnected(net: Net, max: nat): Net {
    net.(listed := net.listed + [net.next], subscribers := net.subscribers[net.next := []],
         max := net.max[net.next := max], next := net.next + 1)
  }

  function SfuConnected(net: Net): Net {
    StreamerConnected(net, 0).(sfus := net.sfus + {net.next})
  }

  // closeOrphanedShadow for the players from number i on
  function CloseOrphans(net: Net, i: nat): Net
    decreases net.next - i
  {
    if i >= net.next then net
    else if i in net.viewers && net.viewers[i].shadowOf.Some? && ShadowSource(net, i).None?
    then CloseOrphans(Unsubscribe(net, i), i + 1)
    else CloseOrphans(net, i + 1)
  }

  // The transport of a player closes.
  function PlayerClosed(net: Net, x: nat): Net {
    var n1 := Unsubscribe(net, x);
    CloseOrphans(n1.(viewers := n1.viewers - {x}), 0)
  }

  // The transport of a streamer closes.
  function StreamerClosed(net: Net, s: nat): Net {
    var n1 := Emit(net, s);
    n1.(listed := Without(n1.listed, s))
  }

  function SfuDisconnect(net: Net, x: nat): Net {
    Emit(Leave(net, x), x)
  }

  function SfuClosed(net: Net, x: nat): Net {
    var n1 := SfuDisconnect(net, x);
    n1.(listed := Without(n1.listed, x), sfus := n1.sfus - {x})
  }

  function SfuSubscribe(net: Net, x: nat, target: Option<nat>, wellFormed: bool): Net {
    if !wellFormed then SfuDisconnect(net, x)
    else if target.None? then net
    else Join(Leave(net, x), x, target.value)
  }

  function SfuStops(net: Net, x: nat): Net {
    Emit(net.(streaming := net.streaming - {x}), x)
  }
}
