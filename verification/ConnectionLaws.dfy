// What every handler of the signalling server keeps, and what a disconnect does to the graph.
module ConnectionLaws {
  import opened Wrappers
  import opened CodecPolicies
  import opened CodecAnswers
  import opened Connections

  // ---- the two ends of a subscription ----

  ghost predicate Distinct(s: seq<nat>) {
    forall i, j :: 0 <= i < j < |s| ==> s[i] != s[j]
  }

  ghost predicate Numbered(net: Net) {
    && (forall x :: x in net.viewers ==> x < net.next && x !in net.sfus && x !in net.subscribers)
    && (forall x :: x in net.sfus ==> x < net.next)
    && (forall s :: s in net.subscribers ==> s < net.next && s in net.max)
    && (forall s :: s in net.listed ==> s in net.subscribers)
  }

  // A player or SFU is subscribed to s exactly when s counts it among its subscribers, once.
  ghost predicate Edges(sub: map<nat, nat>, subscribers: map<nat, seq<nat>>) {
    && (forall x :: x in sub ==> sub[x] in subscribers && x in subscribers[sub[x]])
    && (forall s, x :: s in subscribers && x in subscribers[s] ==> x in sub && sub[x] == s)
    && (forall s :: s in subscribers ==> Distinct(subscribers[s]))
  }

  ghost predicate Agrees(net: Net) {
    && Edges(net.sub, net.subscribers)
    && (forall x :: x in net.sub ==> x in net.viewers || x in net.sfus)
  }

  lemma {:induction false} WithoutDistinct(s: seq<nat>, x: nat)
    requires Distinct(s)
    ensures Distinct(Without(s, x))
  {
    if s != [] {
      WithoutDistinct(s[1..], x);
      var w := Without(s[1..], x);
      if s[0] != x {
        forall j | 0 <= j < |w|
          ensures w[j] != s[0]
        {
          assert w[j] in w;
          assert w[j] in s[1..];
        }
      }
    }
  }

  lemma EdgeLeaves(sub: map<nat, nat>, subscribers: map<nat, seq<nat>>, x: nat)
    requires Edges(sub, subscribers) && x in sub
    ensures Edges(sub - {x}, subscribers[sub[x] := Without(subscribers[sub[x]], x)])
  {
    hide Distinct, Without;
    var s := sub[x];
    var left := Without(subscribers[s], x);
    WithoutDistinct(subscribers[s], x);
    var after := subscribers[s := left];
    assert after.Keys == subscribers.Keys;
    forall t, y | t in after && y in after[t]
      ensures y in sub - {x} && (sub - {x})[y] == t
    {
      OtherEdge(sub, subscribers, x, t, y);
    }
    forall y | y in sub - {x}
      ensures (sub - {x})[y] in after && y in after[(sub - {x})[y]]
    {
      assert y in subscribers[sub[y]];
    }
  }

  lemma OtherEdge(sub: map<nat, nat>, subscribers: map<nat, seq<nat>>, x: nat, t: nat, y: nat)
    requires Edges(sub, subscribers) && x in sub && t in subscribers
    requires y in subscribers[sub[x] := Without(subscribers[sub[x]], x)][t]
    ensures y in sub - {x} && (sub - {x})[y] == t
  {
    hide Distinct;
    assert y in subscribers[t];
  }

  ghost predicate FewerEdges(a: Net, b: Net) {
    && b.subscribers.Keys == a.subscribers.Keys
    && (forall x :: x in b.sub ==> x in a.sub && b.sub[x] == a.sub[x])
    && (forall s, x :: s in b.subscribers && x in b.subscribers[s] ==> x in a.subscribers[s])
  }

  ghost predicate ViewersKept(a: Net, b: Net) {
    && b.viewers.Keys == a.viewers.Keys
    && (forall x :: x in a.viewers ==> b.viewers[x] == a.viewers[x] || b.viewers[x] == Forget(a.viewers[x]))
  }

  // b is a with some subscriptions, and what viewers were negotiating, gone.
  ghost predicate Shrunk(a: Net, b: Net) {
    && b.sfus == a.sfus && b.listed == a.listed && b.max == a.max && b.next == a.next && b.streaming <= a.streaming
    && FewerEdges(a, b) && ViewersKept(a, b)
  }

  lemma ShrunkTwice(a: Net, b: Net, c: Net)
    requires Shrunk(a, b) && Shrunk(b, c)
    ensures Shrunk(a, c)
  {
  }

  lemma UnsubscribeShrinks(net: Net, x: nat)
    requires Agrees(net)
    ensures Agrees(Unsubscribe(net, x)) && Shrunk(net, Unsubscribe(net, x))
    ensures Unsubscribe(net, x).sub == net.sub - {x}
  {
    hide Forget, Edges, FewerEdges, Without;
    if x in net.sub {
      InEdges(net.sub, net.subscribers, x);
      EdgeLeaves(net.sub, net.subscribers, x);
      LeaveDrops(net, x);
    } else {
      assert net.sub - {x} == net.sub;
      NothingDrops(net, Unsubscribe(net, x));
    }
  }

  lemma InEdges(sub: map<nat, nat>, subscribers: map<nat, seq<nat>>, x: nat)
    requires Edges(sub, subscribers) && x in sub
    ensures sub[x] in subscribers
  {
  }

  lemma NothingDrops(a: Net, b: Net)
    requires b.sub == a.sub && b.subscribers == a.subscribers
    ensures FewerEdges(a, b)
  {
  }

  lemma LeaveDrops(net: Net, x: nat)
    requires Edges(net.sub, net.subscribers) && x in net.sub
    ensures FewerEdges(net, Unsubscribe(net, x))
  {
    hide Distinct;
  }

  // ---- the cascade ----

  // Whether x is fed by s: a chain of subscriptions leads from x up to s.
  ghost predicate Fed(sub: map<nat, nat>, x: nat, s: nat, hops: nat)
    decreases hops
  {
    x in sub && (sub[x] == s || (hops > 0 && Fed(sub, sub[x], s, hops - 1)))
  }

  ghost predicate FedBy(sub: map<nat, nat>, x: nat, s: nat) {
    exists hops: nat :: Fed(sub, x, s, hops)
  }

  lemma {:induction false} FedIn(less: map<nat, nat>, more: map<nat, nat>, x: nat, s: nat, hops: nat)
    requires forall y :: y in less ==> y in more && more[y] == less[y]
    requires Fed(less, x, s, hops)
    ensures Fed(more, x, s, hops)
    decreases hops
  {
    if less[x] != s {
      FedIn(less, more, less[x], s, hops - 1);
    }
  }

  lemma {:induction false} FedThrough(sub: map<nat, nat>, x: nat, mid: nat, s: nat, hops: nat) returns (more: nat)
    requires Fed(sub, x, mid, hops) && mid in sub && sub[mid] == s
    ensures Fed(sub, x, s, more)
    decreases hops
  {
    if sub[x] == mid {
      more := 1;
    } else {
      more := FedThrough(sub, sub[x], mid, s, hops - 1);
      more := more + 1;
    }
  }

  // Nobody is left under s or under anybody in `gone`.
  ghost predicate NoneUnder(net: Net, gone: set<nat>) {
    forall y :: y in net.sub ==> net.sub[y] !in gone
  }

  ghost predicate GoneAreFed(before: Net, after: Net, s: nat) {
    forall x :: x in before.sub && x !in after.sub ==> FedBy(before.sub, x, s)
  }

  // A viewer keeps what it was negotiating unless it was unsubscribed; SFUs that were stop streaming.
  ghost predicate OnlyGoneChange(before: Net, after: Net) {
    && before.viewers.Keys == after.viewers.Keys
    && (forall x :: x in before.viewers ==>
          after.viewers[x] == if x in before.sub && x !in after.sub then Forget(before.viewers[x]) else before.viewers[x])
    && (forall x :: x in before.streaming && x !in after.streaming ==> x in before.sfus && x in before.sub && x !in after.sub)
    && (forall x :: x in before.sfus && x in before.sub && x !in after.sub ==> x !in after.streaming)
  }

  ghost predicate Cascaded(before: Net, after: Net, s: nat) {
    && Agrees(after) && Shrunk(before, after)
    && GoneAreFed(before, after, s)
    && NoneUnder(after, before.sub.Keys - after.sub.Keys)
    && OnlyGoneChange(before, after)
  }

  function LeftBy(net: Net, x: nat): Net {
    var n1 := Unsubscribe(net, x);
    if x in net.sfus then n1.(streaming := n1.streaming - {x}) else n1
  }

  lemma StepDown(net: Net, x: nat)
    requires Agrees(net) && x in net.sub && (x in net.viewers ==> x !in net.sfus)
    ensures Agrees(LeftBy(net, x)) && Shrunk(net, LeftBy(net, x)) && LeftBy(net, x).sub == net.sub - {x}
    ensures OnlyGoneChange(net, LeftBy(net, x))
  {
    hide Forget, Edges;
    UnsubscribeShrinks(net, x);
  }

  lemma GoneThrough(net: Net, n1: Net, n2: Net, x: nat, s: nat)
    requires x in net.sub && net.sub[x] == s && n1.sub == net.sub - {x}
    requires GoneAreFed(n1, n2, x)
    ensures GoneAreFed(net, n2, s)
  {
    forall y | y in net.sub && y !in n2.sub
      ensures FedBy(net.sub, y, s)
    {
      if y == x {
        assert Fed(net.sub, x, s, 0);
      } else {
        assert y in n1.sub;
        var hops: nat :| Fed(n1.sub, y, x, hops);
        FedIn(n1.sub, net.sub, y, x, hops);
        var more := FedThrough(net.sub, y, x, s, hops);
      }
    }
  }

  lemma GoneInTurn(net: Net, n2: Net, n3: Net, s: nat)
    requires FewerEdges(net, n2) && GoneAreFed(net, n2, s) && GoneAreFed(n2, n3, s)
    ensures GoneAreFed(net, n3, s)
  {
    forall y | y in net.sub && y !in n3.sub
      ensures FedBy(net.sub, y, s)
    {
      if y in n2.sub {
        var hops: nat :| Fed(n2.sub, y, s, hops);
        FedIn(n2.sub, net.sub, y, s, hops);
      }
    }
  }

  lemma ChangesInTurn(a: Net, b: Net, c: Net)
    requires Shrunk(a, b) && Shrunk(b, c) && OnlyGoneChange(a, b) && OnlyGoneChange(b, c)
    ensures Shrunk(a, c) && OnlyGoneChange(a, c)
  {
    ShrunkTwice(a, b, c);
  }

  // One listener of s handled: first it leaves, then what it feeds.
  lemma Compose(net: Net, n1: Net, n2: Net, x: nat, s: nat)
    requires x in net.sub && net.sub[x] == s
    requires Shrunk(net, n1) && n1.sub == net.sub - {x} && OnlyGoneChange(net, n1)
    requires Cascaded(n1, n2, x) && NoneUnder(n2, {x})
    ensures Cascaded(net, n2, s)
  {
    ChangesInTurn(net, n1, n2);
    GoneThrough(net, n1, n2, x, s);
    assert net.sub.Keys - n2.sub.Keys == (n1.sub.Keys - n2.sub.Keys) + {x} by {
      assert FewerEdges(n1, n2);
    }
    hide Shrunk, OnlyGoneChange, GoneAreFed, Agrees;
  }

  // Two parts of one cascade, one after the other.
  lemma Sequence(net: Net, n2: Net, n3: Net, s: nat)
    requires Cascaded(net, n2, s) && Cascaded(n2, n3, s)
    ensures Cascaded(net, n3, s)
  {
    ChangesInTurn(net, n2, n3);
    GoneInTurn(net, n2, n3, s);
    assert net.sub.Keys - n3.sub.Keys == (net.sub.Keys - n2.sub.Keys) + (n2.sub.Keys - n3.sub.Keys) by {
      assert FewerEdges(net, n2) && FewerEdges(n2, n3);
    }
    assert NoneUnder(n3, net.sub.Keys - n2.sub.Keys) by {
      assert FewerEdges(n2, n3);
    }
    hide Shrunk, OnlyGoneChange, GoneAreFed, Agrees;
  }

  lemma NumberedStill(a: Net, b: Net)
    requires Numbered(a) && Shrunk(a, b)
    ensures Numbered(b)
  {
  }

  lemma CascadedSelf(net: Net, s: nat)
    requires Agrees(net)
    ensures Cascaded(net, net, s)
  {
  }

  // All the listeners of x are gone, so nobody is under it.
  lemma AllLeft(net: Net, after: Net, x: nat)
    requires Agrees(net) && FewerEdges(net, after)
    requires AllGone(net, after, x, SubscribersOf(net, x))
    ensures NoneUnder(after, {x})
  {
    hide Distinct;
  }

  lemma CascadedDrops(a: Net, b: Net, s: nat)
    requires Cascaded(a, b, s)
    ensures FewerEdges(a, b)
  {
  }

  lemma EmitUnfolds(net: Net, s: nat, left: seq<nat>, n2: Net)
    requires left != [] && left[0] in net.sub && left[0] in SubscribersOf(net, s)
    requires n2 == if left[0] in net.sfus then EmitTo(LeftBy(net, left[0]), left[0], SubscribersOf(LeftBy(net, left[0]), left[0]))
                   else LeftBy(net, left[0])
    ensures EmitTo(net, s, left) == EmitTo(n2, s, left[1..])
  {
    hide Without, Forget;
  }

  // Everybody of `left` that was subscribed to s is gone.
  ghost predicate AllGone(net: Net, after: Net, s: nat, left: seq<nat>) {
    forall i :: 0 <= i < |left| && left[i] in net.sub && net.sub[left[i]] == s ==> left[i] !in after.sub
  }

  lemma OneMoreGone(net: Net, n2: Net, n3: Net, s: nat, left: seq<nat>)
    requires left != [] && left[0] !in n2.sub
    requires FewerEdges(net, n2) && FewerEdges(n2, n3) && AllGone(n2, n3, s, left[1..])
    ensures AllGone(net, n3, s, left)
  {
    forall i | 0 <= i < |left| && left[i] in net.sub && net.sub[left[i]] == s
      ensures left[i] !in n3.sub
    {
      if i > 0 {
        assert left[i] == left[1..][i - 1];
      }
    }
  }

  lemma NoListener(net: Net, after: Net, s: nat, left: seq<nat>)
    requires Agrees(net) && left != [] && AllGone(net, after, s, left[1..])
    requires !(left[0] in net.sub && left[0] in SubscribersOf(net, s))
    ensures AllGone(net, after, s, left)
  {
    hide Distinct;
    forall i | 0 <= i < |left| && left[i] in net.sub && net.sub[left[i]] == s
      ensures left[i] !in after.sub
    {
      if i > 0 {
        assert left[i] == left[1..][i - 1];
      }
    }
  }

  lemma {:induction false} EmitToCascades(net: Net, s: nat, left: seq<nat>)
    requires Numbered(net) && Agrees(net)
    ensures Cascaded(net, EmitTo(net, s, left), s)
    ensures AllGone(net, EmitTo(net, s, left), s, left)
    decreases |net.sub|, |left|
  {
    hide Cascaded, Numbered, LeftBy, AllGone, Agrees, FewerEdges;
    if left == [] {
      CascadedSelf(net, s);
      assert AllGone(net, net, s, []) by {
        NobodyGone(net, s);
      }
    } else if left[0] in net.sub && left[0] in SubscribersOf(net, s) {
      var n2 := EmitOne(net, s, left[0]);
      EmitUnfolds(net, s, left, n2);
      CascadedAgrees(net, n2, s);
      EmitToCascades(n2, s, left[1..]);
      var n3 := EmitTo(n2, s, left[1..]);
      Sequence(net, n2, n3, s);
      CascadedDrops(net, n2, s);
      CascadedDrops(n2, n3, s);
      OneMoreGone(net, n2, n3, s, left);
    } else {
      EmitToCascades(net, s, left[1..]);
      NoListener(net, EmitTo(net, s, left[1..]), s, left);
    }
  }

  lemma NobodyGone(net: Net, s: nat)
    ensures AllGone(net, net, s, [])
  {
  }

  lemma CascadedAgrees(a: Net, b: Net, s: nat)
    requires Cascaded(a, b, s)
    ensures Agrees(b)
  {
    hide Edges;
  }

  lemma {:induction false} EmitOne(net: Net, s: nat, x: nat) returns (n2: Net)
    requires Numbered(net) && Agrees(net) && x in net.sub && x in SubscribersOf(net, s)
    ensures n2 == if x in net.sfus then EmitTo(LeftBy(net, x), x, SubscribersOf(LeftBy(net, x), x)) else LeftBy(net, x)
    ensures |n2.sub| < |net.sub| && x !in n2.sub
    ensures Cascaded(net, n2, s) && Numbered(n2)
    decreases |net.sub|, 0
  {
    LeaveShrinks(net, x);
    StepDown(net, x);
    assert net.sub[x] == s;
    var m := LeftBy(net, x);
    NumberedStill(net, m);
    n2 := m;
    if x in net.sfus {
      n2 := EmitTo(m, x, SubscribersOf(m, x));
      EmitToCascades(m, x, SubscribersOf(m, x));
      CascadedDrops(m, n2, x);
    } else {
      CascadedSelf(m, x);
    }
    AllLeft(m, n2, x);
    Compose(net, m, n2, x, s);
    NumberedStill(net, n2);
  }

  lemma {:induction false} FedAreGone(net: Net, after: Net, s: nat, x: nat, hops: nat)
    requires Edges(net.sub, net.subscribers) && FewerEdges(net, after) && Fed(net.sub, x, s, hops)
    requires NoneUnder(after, net.sub.Keys - after.sub.Keys) && AllGone(net, after, s, SubscribersOf(net, s))
    ensures x !in after.sub
    decreases hops
  {
    hide Distinct;
    if net.sub[x] == s {
      assert x in net.subscribers[s];
      var i :| 0 <= i < |net.subscribers[s]| && net.subscribers[s][i] == x;
    } else {
      FedAreGone(net, after, s, net.sub[x], hops - 1);
    }
  }

  // A disconnect of s ends exactly the subscriptions fed by s, whatever chains and cycles of SFUs
  // there are, and changes nothing else: the viewers among them forget what they were negotiating,
  // the SFUs among them stop streaming.
  lemma DisconnectCascade(net: Net, s: nat)
    requires Numbered(net) && Agrees(net)
    ensures Agrees(Emit(net, s)) && Shrunk(net, Emit(net, s))
    ensures forall x :: x in Emit(net, s).sub <==> x in net.sub && !FedBy(net.sub, x, s)
    ensures Emit(net, s).viewers.Keys == net.viewers.Keys
    ensures forall x :: x in net.viewers ==>
              (Emit(net, s).viewers[x] == if FedBy(net.sub, x, s) then Forget(net.viewers[x]) else net.viewers[x])
    ensures forall x :: x in Emit(net, s).streaming <==> x in net.streaming && !(x in net.sfus && FedBy(net.sub, x, s))
    ensures forall x :: x in Emit(net, s).sub ==> Emit(net, s).sub[x] != s
  {
    hide Edges, Distinct, Forget, AllGone, NoneUnder, FedBy;
    var after := Emit(net, s);
    EmitToCascades(net, s, SubscribersOf(net, s));
    forall x
      ensures x in after.sub <==> x in net.sub && !FedBy(net.sub, x, s)
    {
      FedOrNot(net, after, s, x);
    }
    forall x | FedBy(net.sub, x, s)
      ensures x in net.sub
    {
      FedIsSubscribed(net.sub, x, s);
    }
    forall x | x in after.sub
      ensures after.sub[x] != s
    {
      if net.sub[x] == s {
        assert Fed(net.sub, x, s, 0);
        FedIsBy(net.sub, x, s, 0);
      }
    }
  }

  lemma FedIsBy(sub: map<nat, nat>, x: nat, s: nat, hops: nat)
    requires Fed(sub, x, s, hops)
    ensures FedBy(sub, x, s)
  {
  }

  lemma FedIsSubscribed(sub: map<nat, nat>, x: nat, s: nat)
    requires FedBy(sub, x, s)
    ensures x in sub
  {
  }

  lemma FedOrNot(net: Net, after: Net, s: nat, x: nat)
    requires Agrees(net) && Cascaded(net, after, s) && AllGone(net, after, s, SubscribersOf(net, s))
    ensures x in after.sub <==> x in net.sub && !FedBy(net.sub, x, s)
  {
    if FedBy(net.sub, x, s) {
      var hops: nat :| Fed(net.sub, x, s, hops);
      FedAreGone(net, after, s, x, hops);
    }
  }
}
