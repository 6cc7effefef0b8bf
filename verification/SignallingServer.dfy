// The signalling server as the object whose handlers change it: the two registries and the fields
// of the connections, kept by connection number. Each handler is tied to the step of the same
// name in Connections, over which the results on runs are proved.
module SignallingServers {
  import opened Wrappers
  import opened CodecPolicies
  import opened CodecAnswers
  import opened Connections

  class SignallingServer {
    var viewers: map<nat, Viewer>
    var sfus: set<nat>
    var listed: seq<nat>
    var sub: map<nat, nat>
    var subscribers: map<nat, seq<nat>>
    var max: map<nat, nat>
    var streaming: set<nat>
    var next: nat

    constructor ()
      ensures Contents() == EMPTY_NET && Numbered()
    {
      viewers, sfus, listed, sub := map[], {}, [], map[];
      subscribers, max, streaming, next := map[], map[], {}, 0;
    }

    function Contents(): Net
      reads this
    {
      Net(viewers, sfus, listed, sub, subscribers, max, streaming, next)
    }

    // Viewers carry the numbers handed out so far.
    predicate Numbered()
      reads this
    {
      forall x :: x in viewers ==> x < next
    }

    // ---- subscriptions ----

    method Leave(x: nat)
      modifies this`sub, this`subscribers
      ensures Contents() == Connections.Leave(old(Contents()), x)
    {
      if x !in sub {
        return;
      }
      var s := sub[x];
      subscribers := subscribers[s := Without(SubscribersOf(Contents(), s), x)];
      sub := sub - {x};
    }

    method Unsubscribe(x: nat)
      modifies this`viewers, this`sub, this`subscribers
      ensures Contents() == Connections.Unsubscribe(old(Contents()), x)
      ensures viewers.Keys == old(viewers.Keys)
    {
      if x in viewers {
        viewers := viewers[x := Forget(viewers[x])];
      }
      Leave(x);
    }

    // emit('disconnect') of a streamer or SFU: every listener registered when the event starts.
    method EmitDisconnect(s: nat)
      modifies this`viewers, this`sub, this`subscribers, this`streaming
      ensures Contents() == Emit(old(Contents()), s)
      ensures |sub| <= |old(sub)| && viewers.Keys == old(viewers.Keys)
      decreases |sub|
    {
      hide Connections.Unsubscribe;
      var listeners := SubscribersOf(Contents(), s);
      ghost var before := Contents();
      var i := 0;
      while i < |listeners|
        invariant 0 <= i <= |listeners|
        invariant EmitTo(Contents(), s, listeners[i..]) == EmitTo(before, s, listeners)
        invariant |sub| <= |before.sub| && viewers.Keys == before.viewers.Keys
      {
        var x := listeners[i];
        assert listeners[i..][0] == x && listeners[i..][1..] == listeners[i + 1..];
        if x in sub && x in SubscribersOf(Contents(), s) {
          LeaveShrinks(Contents(), x);
          Unsubscribe(x);
          if x in sfus {
            streaming := streaming - {x};
            EmitDisconnect(x);
          }
        }
        i := i + 1;
      }
    }

    // shadowSource
    method FindShadowSource(x: nat) returns (source: Option<nat>)
      requires x in viewers
      ensures source == ShadowSource(Contents(), x)
    {
      hide IsSource;
      var i := 0;
      while i < next
        invariant i <= next
        invariant SourceFrom(Contents(), x, 0) == SourceFrom(Contents(), x, i)
      {
        if IsSource(Contents(), x, i) {
          return Some(i);
        }
        i := i + 1;
      }
      return None;
    }

    // Whether one of the other viewers of s, or x itself, selected H264.
    method MeetsH264(x: nat, s: nat) returns (blocked: bool)
      requires x in viewers && Numbered()
      ensures blocked == Blocked(Contents(), x, s)
    {
      var y := 0;
      while y < next
        invariant y <= next
        invariant forall z :: 0 <= z < y ==> !BlockedBy(Contents(), x, s, z)
      {
        if BlockedBy(Contents(), x, s, y) {
          return true;
        }
        y := y + 1;
      }
      return false;
    }

    // failCodecNegotiation
    method FailCodecNegotiation(x: nat)
      requires x in viewers
      modifies this`viewers, this`sub, this`subscribers
      ensures Contents() == Fail(old(Contents()), x)
      ensures viewers.Keys == old(viewers.Keys)
    {
      viewers := viewers[x := viewers[x].(failed := true)];
      Unsubscribe(x);
    }

    // The tail of subscribe, once the streamer is known to be one the viewer may have.
    method Enter(x: nat, s: nat)
      requires x in viewers
      modifies this`viewers, this`sub, this`subscribers
      ensures Contents() == Connections.Enter(old(Contents()), x, s)
      ensures viewers.Keys == old(viewers.Keys)
    {
      hide Connections.Unsubscribe, Rejoin, Join;
      if x in sub {
        Unsubscribe(x);
      }
      var limit := if s in max then max[s] else 0;
      if limit > 0 && |SubscribersOf(Contents(), s)| >= limit {
        return;
      }
      Attach(x, s);
    }

    // A second time starts a new generation of the media.
    method Attach(x: nat, s: nat)
      requires x in viewers
      modifies this`viewers, this`sub, this`subscribers
      ensures Contents() == Join(Put(old(Contents()), x, Rejoin(old(viewers[x]))), x, s)
      ensures viewers.Keys == old(viewers.Keys)
    {
      var v := viewers[x];
      if v.policy.Some? {
        if v.hasSubscribed {
          v := v.(generation := v.generation + 1, offer := None, offerFromStreamer := None, negotiated := false);
        }
        v := v.(hasSubscribed := true);
      }
      assert v == Rejoin(viewers[x]);
      hide Rejoin;
      viewers := viewers[x := v];
      sub := sub[x := s];
      subscribers := subscribers[s := SubscribersOf(Contents(), s) + [x]];
    }

    method Subscribe(x: nat, target: Option<nat>, wellFormed: bool)
      requires x in viewers && Numbered()
      modifies this`viewers, this`sub, this`subscribers
      ensures Contents() == Connections.Subscribe(old(Contents()), x, target, wellFormed)
      ensures viewers.Keys == old(viewers.Keys)
    {
      hide Connections.Unsubscribe, Connections.Enter, Fail, Blocked, ShadowSource;
      if viewers[x].failed {
        return;
      }
      viewers := viewers[x := viewers[x].(finalized := true)];
      if !wellFormed {
        Unsubscribe(x);
        return;
      }
      var v := viewers[x];
      if v.shadowOf.Some? {
        var source := FindShadowSource(x);
        if (if source.Some? then Some(sub[source.value]) else None) != target {
          Unsubscribe(x);
          return;
        }
      }
      if target.None? {
        return;
      }
      if v.policy.Some? {
        if target.value in sfus {
          return;
        }
        var blocked := MeetsH264(x, target.value);
        if blocked {
          FailCodecNegotiation(x);
          return;
        }
      }
      Enter(x, target.value);
    }

    // ---- negotiation ----

    // The try block of filterCodecMessage. False when the message is not passed on.
    method Negotiate(x: nat, d: Description, fromStreamer: bool, e: Env) returns (passed: bool)
      requires x in viewers
      modifies this`viewers, this`sub, this`subscribers
      ensures (Contents(), passed) == Connections.Negotiate(old(Contents()), x, d, fromStreamer, e)
      ensures viewers.Keys == old(viewers.Keys)
    {
      hide Connections.Unsubscribe, Fail, Restrict, Accepts;
      var v := viewers[x];
      if !d.direct || v.selected.None? {
        FailCodecNegotiation(x);
        return false;
      }
      var result, _ := RestrictVideoSdp(d.sdp, v.selected.value);
      if result.Rejected? {
        FailCodecNegotiation(x);
        return false;
      }
      if d.isOffer {
        viewers := viewers[x := v.(offer := Some(result.value), offerFromStreamer := Some(fromStreamer), negotiated := false)];
        return true;
      }
      if v.offerFromStreamer == Some(fromStreamer) {
        FailCodecNegotiation(x);
        return false;
      }
      var error := ValidateCodecAnswer(v.offer, d.sdp);
      if error.Some? || RecordFails(v, e) {
        FailCodecNegotiation(x);
        return false;
      }
      viewers := viewers[x := v.(offer := None, offerFromStreamer := None, negotiated := true)];
      if e.rejected {
        Unsubscribe(x);
        return false;
      }
      return x in sub;
    }

    method FilterCodecMessage(x: nat, d: Description, fromStreamer: bool, e: Env) returns (passed: bool)
      requires x in viewers
      modifies this`viewers, this`sub, this`subscribers
      ensures (Contents(), passed) == Filter(old(Contents()), x, d, fromStreamer, e)
      ensures viewers.Keys == old(viewers.Keys)
    {
      hide Connections.Unsubscribe, Connections.Negotiate, ShadowSource;
      var v := viewers[x];
      if v.policy.None? {
        return true;
      }
      if v.failed {
        return false;
      }
      if v.shadowOf.Some? {
        var source := FindShadowSource(x);
        if source.None? || viewers[source.value].selected != v.selected {
          Unsubscribe(x);
          return false;
        }
      }
      viewers := viewers[x := v.(finalized := true)];
      passed := Negotiate(x, d, fromStreamer, e);
    }

    // sendToStreamer
    method SendToStreamer(x: nat, m: Message, generation: Option<nat>, e: Env)
      requires x in viewers && Numbered()
      modifies this`viewers, this`sub, this`subscribers
      ensures Contents() == FromPlayer(old(Contents()), x, m, generation, e)
    {
      hide Connections.Unsubscribe, Connections.Subscribe, Filter;
      var v := viewers[x];
      if v.policy.Some? && !m.Other? && generation != Some(v.generation) {
        return;
      }
      if v.policy.Some? && !m.Other? && x !in sub && (!(m.Media? && m.description.isOffer) || v.hasSubscribed) {
        return;
      }
      if m.Media? {
        var passed := FilterCodecMessage(x, m.description, false, e);
        if !passed {
          return;
        }
      }
      if x in sub {
        return;
      }
      if listed == [] {
        Unsubscribe(x);
        return;
      }
      Subscribe(x, Some(listed[0]), true);
      if x !in sub {
        Unsubscribe(x);
      }
    }

    // forwardMessage
    method ForwardMessage(s: nat, x: nat, generation: Option<nat>, d: Description, e: Env)
      modifies this`viewers, this`sub, this`subscribers
      ensures Contents() == FromStreamer(old(Contents()), s, x, generation, d, e)
    {
      hide Filter;
      if x !in SubscribersOf(Contents(), s) || x !in viewers {
        return;
      }
      if generation != (if viewers[x].policy.Some? then Some(viewers[x].generation) else None) {
        return;
      }
      var _ := FilterCodecMessage(x, d, true, e);
    }

    // handleCodecMessage of a capability report.
    method OnCodecCapabilities(x: nat, supported: Supported, e: Env)
      requires x in viewers
      modifies this`viewers, this`sub, this`subscribers
      ensures Contents() == Capabilities(old(Contents()), x, supported, e)
    {
      hide Connections.Unsubscribe, Fail;
      var v := viewers[x];
      if v.policy.None? || v.selected.None? || v.finalized || v.hasSubscribed || v.offer.Some? {
        return;
      }
      if supported.Malformed? || (supported.Codecs? && |supported.codecs| > 4) {
        return;
      }
      viewers := viewers[x := v.(finalized := true)];
      var preferred := if v.shadowOf.Some? then v.selected.value else v.policy.value.defaultCodec;
      var selected := Some(preferred);
      if supported.Codecs? {
        selected := PickCodec(if v.shadowOf.Some? then [preferred] else [preferred, VP9, H264],
                              v.policy.value.allowed, supported.codecs);
      }
      if selected.None? || RecordFails(v, e) {
        FailCodecNegotiation(x);
        return;
      }
      viewers := viewers[x := viewers[x].(selected := selected)];
    }

    static method PickCodec(wanted: seq<VideoCodec>, allowed: seq<VideoCodec>, supported: seq<VideoCodec>)
      returns (codec: Option<VideoCodec>)
      ensures codec == FirstOf(wanted, allowed, supported)
    {
      var i := 0;
      while i < |wanted|
        invariant 0 <= i <= |wanted|
        invariant FirstOf(wanted, allowed, supported) == FirstOf(wanted[i..], allowed, supported)
      {
        if wanted[i] in allowed && wanted[i] in supported {
          return Some(wanted[i]);
        }
        assert wanted[i..][1..] == wanted[i + 1..];
        i := i + 1;
      }
      return None;
    }

    method OnNegotiationDeadline(x: nat)
      requires x in viewers
      modifies this`viewers, this`sub, this`subscribers
      ensures Contents() == Timeout(old(Contents()), x)
    {
      if viewers[x].policy.Some? && !viewers[x].negotiated {
        FailCodecNegotiation(x);
      }
    }

    // ---- connections opening and closing ----

    method OnPlayerConnected(ticket: Option<Ticket>, queryId: Option<string>, ready: bool, e: Env)
      requires Numbered()
      modifies this`viewers, this`next
      ensures Contents() == PlayerConnected(old(Contents()), ticket, queryId, ready, e) && Numbered()
    {
      hide Admit;
      var v := NewViewer(ticket, queryId);
      if ticket.Some? {
        var codec := InitializeCodecPolicy(v, ready, e);
        if codec.None? {
          return;
        }
        v := v.(selected := codec);
      }
      viewers := viewers[next := v];
      next := next + 1;
    }

    // initializeCodecPolicy, for a viewer that is not yet in the registry.
    method InitializeCodecPolicy(v: Viewer, ready: bool, e: Env) returns (codec: Option<VideoCodec>)
      requires Numbered()
      ensures codec == Admit(Contents(), v, ready, e)
    {
      if v.policy.None? || !ready {
        return None;
      }
      codec := Some(v.policy.value.defaultCodec);
      if v.shadowOf.Some? {
        var source := FindSourceOf(v);
        if source.None? {
          return None;
        }
        codec := viewers[source.value].selected;
        if codec.None? || codec.value !in v.policy.value.allowed || codec.value == H264 {
          return None;
        }
      }
      if RecordFails(v, e) {
        return None;
      }
    }

    method FindSourceOf(v: Viewer) returns (source: Option<nat>)
      requires Numbered()
      ensures source == ShadowSource(Put(Contents(), next, v), next)
      ensures source.Some? ==> source.value in viewers
    {
      hide IsSource;
      ghost var n := Put(Contents(), next, v);
      var i := 0;
      while i < next
        invariant i <= next
        invariant SourceFrom(n, next, 0) == SourceFrom(n, next, i)
      {
        if IsSource(Put(Contents(), next, v), next, i) {
          assert i in viewers by {
            IsInRegistry(i, v);
          }
          return Some(i);
        }
        i := i + 1;
      }
      return None;
    }

    lemma IsInRegistry(i: nat, v: Viewer)
      requires IsSource(Put(Contents(), next, v), next, i)
      ensures i in viewers
    {
    }

    method OnStreamerConnected(limit: nat)
      modifies this`listed, this`subscribers, this`max, this`next
      ensures Contents() == StreamerConnected(old(Contents()), limit)
    {
      listed := listed + [next];
      subscribers := subscribers[next := []];
      max := max[next := limit];
      next := next + 1;
    }

    method OnSfuConnected()
      modifies this`sfus, this`listed, this`subscribers, this`max, this`next
      ensures Contents() == SfuConnected(old(Contents()))
    {
      sfus := sfus + {next};
      OnStreamerConnected(0);
    }

    method OnPlayerClosed(x: nat)
      modifies this`viewers, this`sub, this`subscribers
      ensures Contents() == PlayerClosed(old(Contents()), x)
    {
      hide Connections.Unsubscribe, ShadowSource;
      Unsubscribe(x);
      viewers := viewers - {x};
      ghost var before := Contents();
      var i := 0;
      while i < next
        invariant i <= next
        invariant CloseOrphans(Contents(), i) == CloseOrphans(before, 0)
      {
        if i in viewers && viewers[i].shadowOf.Some? {
          var source := FindShadowSource(i);
          if source.None? {
            Unsubscribe(i);
          }
        }
        i := i + 1;
      }
    }

    method OnStreamerClosed(s: nat)
      modifies this`viewers, this`listed, this`sub, this`subscribers, this`streaming
      ensures Contents() == StreamerClosed(old(Contents()), s)
    {
      EmitDisconnect(s);
      listed := Without(listed, s);
    }

    // disconnect of an SFU
    method SfuDisconnect(x: nat)
      modifies this`viewers, this`sub, this`subscribers, this`streaming
      ensures Contents() == Connections.SfuDisconnect(old(Contents()), x)
    {
      Leave(x);
      EmitDisconnect(x);
    }

    method OnSfuClosed(x: nat)
      modifies this`viewers, this`sfus, this`listed, this`sub, this`subscribers, this`streaming
      ensures Contents() == SfuClosed(old(Contents()), x)
    {
      SfuDisconnect(x);
      listed := Without(listed, x);
      sfus := sfus - {x};
    }

    method SfuSubscribe(x: nat, target: Option<nat>, wellFormed: bool)
      modifies this`viewers, this`sub, this`subscribers, this`streaming
      ensures Contents() == Connections.SfuSubscribe(old(Contents()), x, target, wellFormed)
    {
      if !wellFormed {
        SfuDisconnect(x);
        return;
      }
      if target.None? {
        return;
      }
      Leave(x);
      sub := sub[x := target.value];
      subscribers := subscribers[target.value := SubscribersOf(Contents(), target.value) + [x]];
    }

    method OnStopStreaming(x: nat)
      modifies this`viewers, this`sub, this`subscribers, this`streaming
      ensures Contents() == SfuStops(old(Contents()), x)
    {
      streaming := streaming - {x};
      EmitDisconnect(x);
    }
  }
}
