// The logging copy of a value with credential-like fields replaced, over object graphs with
// sharing and cycles. One memory holds the input and the copies; an object is its index.
module LogRedactions {
  import opened Wrappers
  import opened Texts

  datatype Val = Null | Plain(text: string) | Ref(id: nat)

  // Default stands for the built-in prototype.
  datatype Proto = Default | NullProto | Proto(id: nat)

  datatype Node = Arr(items: seq<Val>) | Obj(entries: seq<(string, Val)>, proto: Proto)

  const MARKER := Plain("[REDACTED]")
  const PROTO := "__proto__"

  const SENSITIVE: set<string> := {"accesstoken", "authorization", "credential", "password",
                                   "proxyauthorization", "refreshtoken", "secret", "token", "username"}

  // normalizeLogKey
  function NormalizeKey(key: string): (r: string)
    ensures |r| <= |key|
  {
    if key == [] then []
    else
      var c := key[0];
      var keeps := 'a' <= c <= 'z' || 'A' <= c <= 'Z' || '0' <= c <= '9';
      (if keeps then [LowerChar(c)] else []) + NormalizeKey(key[1..])
  }

  predicate Sensitive(key: string) {
    NormalizeKey(key) in SENSITIVE
  }

  lemma SkipUnderscore(rest: string)
    ensures NormalizeKey(['_'] + rest) == NormalizeKey(rest)
  {
    assert (['_'] + rest)[1..] == rest;
  }

  lemma StartsWithP(rest: string)
    ensures NormalizeKey(['p'] + rest) == ['p'] + NormalizeKey(rest)
  {
    assert (['p'] + rest)[1..] == rest;
  }

  lemma ProtoIsNotSensitive()
    ensures !Sensitive(PROTO)
  {
    hide NormalizeKey;
    var rest := "roto__";
    assert PROTO == ['_'] + (['_'] + (['p'] + rest));
    SkipUnderscore(['_'] + (['p'] + rest));
    SkipUnderscore(['p'] + rest);
    StartsWithP(rest);
    assert "token"[0] == 't' && "secret"[0] == 's';
  }

  // ---- the input ----

  ghost predicate ValidVal(v: Val, n: nat) {
    v.Ref? ==> v.id < n
  }

  // References stay inside; the own keys of an object are distinct.
  ghost predicate ValidNode(node: Node, n: nat) {
    match node
    case Arr(items) => forall k :: 0 <= k < |items| ==> ValidVal(items[k], n)
    case Obj(entries, _) =>
      (forall k :: 0 <= k < |entries| ==> ValidVal(entries[k].1, n))
      && (forall j, k :: 0 <= j < k < |entries| ==> entries[j].0 != entries[k].0)
  }

  ghost predicate ValidInput(input: seq<Node>) {
    forall i :: 0 <= i < |input| ==> ValidNode(input[i], |input|)
  }

  // Whether b is reached from a without passing a sensitive key.
  ghost predicate Edge(node: Node, b: nat) {
    match node
    case Arr(items) => exists k :: 0 <= k < |items| && items[k] == Ref(b)
    case Obj(entries, _) => exists k :: 0 <= k < |entries| && entries[k].1 == Ref(b) && !Sensitive(entries[k].0)
  }

  ghost predicate Path(input: seq<Node>, p: seq<nat>) {
    && |p| >= 1
    && (forall k :: 0 <= k < |p| ==> p[k] < |input|)
    && (forall k :: 0 <= k < |p| - 1 ==> Edge(input[p[k]], p[k + 1]))
  }

  ghost predicate Reaches(input: seq<Node>, a: nat, b: nat) {
    exists p :: Path(input, p) && p[0] == a && p[|p| - 1] == b
  }

  // The object an own "__proto__" key refers to.
  ghost function ProtoRef(node: Node): Option<nat> {
    if node.Obj? && exists k :: 0 <= k < |node.entries| && node.entries[k].0 == PROTO && node.entries[k].1.Ref? then
      var k :| 0 <= k < |node.entries| && node.entries[k].0 == PROTO && node.entries[k].1.Ref?;
      Some(node.entries[k].1.id)
    else None
  }

  ghost predicate ProtoPath(input: seq<Node>, p: seq<nat>) {
    && |p| >= 1
    && (forall k :: 0 <= k < |p| ==> p[k] < |input|)
    && (forall k :: 0 <= k < |p| - 1 ==> ProtoRef(input[p[k]]) == Some(p[k + 1]))
  }

  // A cycle of own "__proto__" keys among what is reached from the root.
  ghost predicate ProtoCycle(input: seq<Node>, root: nat) {
    exists p :: ProtoPath(input, p) && |p| >= 2 && p[0] == p[|p| - 1] && Reaches(input, root, p[0])
  }

  // ---- what a copy is ----

  function Image(v: Val, seen: map<nat, nat>): Val {
    if v.Ref? && v.id in seen then Ref(seen[v.id]) else v
  }

  function Redacted(key: string, v: Val, seen: map<nat, nat>): Val {
    if Sensitive(key) then MARKER else Image(v, seen)
  }

  // Assigning the key "__proto__" sets the prototype instead of a field.
  function CopiedEntries(entries: seq<(string, Val)>, seen: map<nat, nat>): seq<(string, Val)> {
    if entries == [] then []
    else
      var last := entries[|entries| - 1];
      var before := CopiedEntries(entries[..|entries| - 1], seen);
      if last.0 == PROTO then before else before + [(last.0, Redacted(last.0, last.1, seen))]
  }

  function CopiedItems(items: seq<Val>, seen: map<nat, nat>): seq<Val> {
    seq(|items|, k requires 0 <= k < |items| => Image(items[k], seen))
  }

  function ProtoOf(v: Val): Proto {
    match v
    case Null => NullProto
    case Plain(_) => Default
    case Ref(id) => Proto(id)
  }

  function CopiedProto(entries: seq<(string, Val)>, seen: map<nat, nat>): Proto {
    if entries == [] then Default
    else
      var last := entries[|entries| - 1];
      if last.0 == PROTO then ProtoOf(Image(last.1, seen)) else CopiedProto(entries[..|entries| - 1], seen)
  }

  function Copy(node: Node, seen: map<nat, nat>): Node {
    match node
    case Arr(items) => Arr(CopiedItems(items, seen))
    case Obj(entries, _) => Obj(CopiedEntries(entries, seen), CopiedProto(entries, seen))
  }

  ghost predicate ChildrenSeen(node: Node, seen: map<nat, nat>) {
    forall b :: Edge(node, b) ==> b in seen
  }

  ghost predicate Extends(less: map<nat, nat>, more: map<nat, nat>) {
    forall i :: i in less ==> i in more && more[i] == less[i]
  }

  // A finished copy stays right while the memo grows.
  lemma {:induction false} CopiedEntriesStable(entries: seq<(string, Val)>, less: map<nat, nat>, more: map<nat, nat>)
    requires Extends(less, more)
    requires forall k :: 0 <= k < |entries| && entries[k].1.Ref? && !Sensitive(entries[k].0) ==> entries[k].1.id in less
    ensures CopiedEntries(entries, more) == CopiedEntries(entries, less)
    ensures CopiedProto(entries, more) == CopiedProto(entries, less)
  {
    if entries != [] {
      ProtoIsNotSensitive();
      hide Sensitive;
      CopiedEntriesStable(entries[..|entries| - 1], less, more);
    }
  }

  lemma CopyStable(node: Node, less: map<nat, nat>, more: map<nat, nat>)
    requires Extends(less, more) && ChildrenSeen(node, less)
    ensures ChildrenSeen(node, more) && Copy(node, more) == Copy(node, less)
  {
    hide Sensitive;
    match node
    case Arr(items) =>
      forall k | 0 <= k < |items| && items[k].Ref?
        ensures items[k].id in less
      {
        assert Edge(node, items[k].id);
      }
    case Obj(entries, _) =>
      forall k | 0 <= k < |entries| && entries[k].1.Ref? && !Sensitive(entries[k].0)
        ensures entries[k].1.id in less
      {
        assert Edge(node, entries[k].1.id);
      }
      CopiedEntriesStable(entries, less, more);
  }

  // ---- reaching ----

  lemma ReachesSelf(input: seq<Node>, a: nat)
    requires a < |input|
    ensures Reaches(input, a, a)
  {
    var p := [a];
    assert Path(input, p) && p[0] == a && p[|p| - 1] == a;
  }

  lemma ReachesStep(input: seq<Node>, a: nat, b: nat, c: nat)
    requires a < |input| && Edge(input[a], b) && Reaches(input, b, c)
    ensures Reaches(input, a, c)
  {
    var p :| Path(input, p) && p[0] == b && p[|p| - 1] == c;
    var q := [a] + p;
    forall k | 0 <= k < |q| - 1
      ensures Edge(input[q[k]], q[k + 1])
    {
      if k > 0 {
        assert q[k] == p[k - 1] && q[k + 1] == p[k];
      }
    }
    assert Path(input, q) && q[0] == a && q[|q| - 1] == c;
  }

  // What is closed under edges and holds a holds everything a reaches.
  lemma {:induction false} ClosedHoldsReached(input: seq<Node>, closed: set<nat>, p: seq<nat>)
    requires Path(input, p) && p[0] in closed
    requires forall a, b :: a in closed && a < |input| && Edge(input[a], b) ==> b in closed
    ensures p[|p| - 1] in closed
    decreases |p|
  {
    if |p| > 1 {
      assert Edge(input[p[0]], p[1]);
      var q := p[1..];
      assert Path(input, q) by {
        forall k | 0 <= k < |q| - 1
          ensures Edge(input[q[k]], q[k + 1])
        {
          assert Edge(input[p[k + 1]], p[k + 2]);
        }
      }
      ClosedHoldsReached(input, closed, q);
    }
  }

  lemma ProtoRefIs(node: Node, k: nat)
    requires node.Obj? && k < |node.entries| && node.entries[k].0 == PROTO
    requires forall i, j :: 0 <= i < j < |node.entries| ==> node.entries[i].0 != node.entries[j].0
    ensures ProtoRef(node) == if node.entries[k].1.Ref? then Some(node.entries[k].1.id) else None
  {
  }

  lemma ProtoRefIsEdge(node: Node)
    requires ProtoRef(node).Some?
    ensures Edge(node, ProtoRef(node).value)
  {
    ProtoIsNotSensitive();
  }

  // Before the "__proto__" key is met the prototype is the built-in one.
  lemma {:induction false} NoProtoYet(entries: seq<(string, Val)>, seen: map<nat, nat>)
    requires forall k :: 0 <= k < |entries| ==> entries[k].0 != PROTO
    ensures CopiedProto(entries, seen) == Default
  {
    if entries != [] {
      NoProtoYet(entries[..|entries| - 1], seen);
    }
  }

  // The part of a node visited by the first k turns of the loop over it.
  function Part(node: Node, k: nat): Node
    requires k <= Size(node)
  {
    match node
    case Arr(items) => Arr(items[..k])
    case Obj(entries, proto) => Obj(entries[..k], proto)
  }

  function Size(node: Node): nat {
    if node.Arr? then |node.items| else |node.entries|
  }

  // A visit of node i that has done k turns of the loop, and what memory and memo were before it.
  datatype Visit = Visit(i: nat, k: nat, nodes: seq<Node>, source: seq<nat>, seen: map<nat, nat>)

  // The k-th item or entry value.
  function Child(node: Node, k: nat): Val
    requires k < Size(node)
  {
    match node
    case Arr(items) => items[k]
    case Obj(entries, _) => entries[k].1
  }

  ghost function Ids(n: nat): (ids: set<nat>)
    ensures forall i: int :: i in ids <==> 0 <= i < n
  {
    if n == 0 then {} else Ids(n - 1) + {n - 1}
  }

  class Redactor {
    var nodes: seq<Node>
    var seen: map<nat, nat>
    ghost const input: seq<Node>
    // The input object each copy was made of, and a number that falls along prototypes.
    ghost var source: seq<nat>
    ghost var rank: seq<nat>

    constructor (memory: seq<Node>)
      requires ValidInput(memory)
      ensures Valid() && nodes == input == memory && seen == map[] && source == []
    {
      nodes, seen, input, source, rank := memory, map[], memory, [], [];
    }

    ghost predicate Valid()
      reads this
    {
      && ValidInput(input) && input <= nodes
      && |source| == |rank| == |nodes| - |input|
      && (forall i :: i in seen ==> i < |input| <= seen[i] < |nodes| && source[seen[i] - |input|] == i)
      && (forall j :: 0 <= j < |source| ==> source[j] in seen && seen[source[j]] == |input| + j)
      && forall j :: 0 <= j < |source| ==> ProtoSound(j)
    }

    ghost predicate ProtoSound(j: nat)
      requires |source| == |rank| == |nodes| - |input| && j < |source|
      reads this
    {
      var c := nodes[|input| + j];
      c.Obj? && c.proto.Proto? ==>
        && |input| <= c.proto.id < |nodes|
        && rank[c.proto.id - |input|] < rank[j]
        && source[j] < |input|
        && ProtoRef(input[source[j]]) == Some(source[c.proto.id - |input|])
    }

    // Copy j is finished.
    ghost predicate Done(j: nat)
      requires Valid() && j < |source|
      reads this
    {
      ChildrenSeen(input[source[j]], seen) && nodes[|input| + j] == Copy(input[source[j]], seen)
    }

    ghost predicate GrownFrom(nodes0: seq<Node>, source0: seq<nat>, seen0: map<nat, nat>)
      requires Valid()
      reads this
    {
      && nodes0 <= nodes && source0 <= source && Extends(seen0, seen)
      && forall j :: |source0| <= j < |source| ==> Done(j)
    }

    ghost predicate NewAreReached(seen0: map<nat, nat>, a: nat)
      reads this
    {
      forall i :: i in seen && i !in seen0 ==> Reaches(input, a, i)
    }

    // Whether the prototypes of copy c lead to copy o.
    ghost predicate Hits(c: nat, o: nat)
      requires Valid() && |input| <= c < |nodes|
      reads this
      decreases rank[c - |input|]
    {
      assert ProtoSound(c - |input|);
      c == o || (nodes[c].Obj? && nodes[c].proto.Proto? && Hits(nodes[c].proto.id, o))
    }

    lemma {:induction false} HitsPath(c: nat, o: nat) returns (p: seq<nat>)
      requires Valid() && |input| <= c < |nodes| && |input| <= o < |nodes| && Hits(c, o)
      ensures ProtoPath(input, p) && p[0] == source[c - |input|] && p[|p| - 1] == source[o - |input|]
      decreases rank[c - |input|]
    {
      assert source[c - |input|] in seen;
      if c == o {
        p := [source[c - |input|]];
      } else {
        assert ProtoSound(c - |input|);
        var q := HitsPath(nodes[c].proto.id, o);
        p := [source[c - |input|]] + q;
        forall k | 0 <= k < |p| - 1
          ensures ProtoRef(input[p[k]]) == Some(p[k + 1])
        {
          if k > 0 {
            assert p[k] == q[k - 1] && p[k + 1] == q[k];
          }
        }
      }
    }

    method LeadsTo(c: nat, o: nat) returns (hit: bool)
      requires Valid() && |input| <= c < |nodes|
      ensures hit == Hits(c, o)
    {
      var p := c;
      while p != o && nodes[p].Obj? && nodes[p].proto.Proto?
        invariant |input| <= p < |nodes|
        invariant Hits(p, o) == Hits(c, o)
        decreases rank[p - |input|]
      {
        assert ProtoSound(p - |input|);
        p := nodes[p].proto.id;
      }
      hit := p == o;
    }

    // redactSensitiveLogValueInternal; Threw is the error of a cyclic prototype.
    method Redact(v: Val) returns (r: Reply<Val>)
      requires Valid() && ValidVal(v, |input|)
      modifies this
      ensures Valid() && GrownWhen(r.Returned?, old(nodes), old(source), old(seen))
      ensures !v.Ref? ==> r == Returned(v) && seen == old(seen)
      ensures v.Ref? ==> NewAreReached(old(seen), v.id)
      ensures v.Ref? && r.Returned? ==> v.id in seen && r.value == Image(v, seen)
      ensures r.Threw? ==> v.Ref? && ProtoCycle(input, v.id)
      decreases Ids(|input|) - seen.Keys, 1
    {
      if !v.Ref? {
        return Returned(v);
      }
      if v.id in seen {
        return Returned(Ref(seen[v.id]));
      }
      if nodes[v.id].Arr? {
        r := RedactArray(v.id);
      } else {
        r := RedactObject(v.id);
      }
    }

    // Ranks that still fall along prototypes once copy c has prototype d.
    ghost function Raised(c: nat, d: nat): (r: seq<nat>)
      requires Valid() && |input| <= c < |nodes| && |input| <= d < |nodes|
      reads this
      ensures |r| == |rank|
      ensures forall j :: 0 <= j < |rank| ==> r[j] == if Hits(|input| + j, c) then rank[j] + rank[d - |input|] + 1 else rank[j]
    {
      var more := rank[d - |input|] + 1;
      seq(|rank|, j requires 0 <= j < |rank| && Valid() reads this =>
        if Hits(|input| + j, c) then rank[j] + more else rank[j])
    }

    ghost predicate GrownWhen(done: bool, nodes0: seq<Node>, source0: seq<nat>, seen0: map<nat, nat>)
      requires Valid()
      reads this
    {
      if done then GrownFrom(nodes0, source0, seen0)
      else |nodes0| <= |nodes| && Extends(seen0, seen)
    }

    // While node i is being copied: everything new but its own copy is finished, and that copy
    // holds the part visited so far.
    ghost predicate Filling(at: Visit)
      reads this
    {
      && Valid() && at.i < |input| && at.i !in at.seen && at.k <= Size(input[at.i])
      && |input| + |at.source| == |at.nodes| < |nodes| && at.nodes <= nodes && at.source + [at.i] <= source
      && Extends(at.seen[at.i := |at.nodes|], seen)
      && (forall j :: |at.source| < j < |source| ==> Done(j))
      && ChildrenSeen(Part(input[at.i], at.k), seen)
      && nodes[|at.nodes|] == Copy(Part(input[at.i], at.k), seen)
      && NewAreReached(at.seen, at.i)
    }

    method Begin(i: nat, empty: Node) returns (c: nat)
      requires Valid() && i < |input| && i !in seen && empty == Copy(Part(input[i], 0), seen)
      requires empty.Obj? ==> empty.proto == Default
      modifies this
      ensures c == old(|nodes|) && Filling(Visit(i, 0, old(nodes), old(source), old(seen)))
      ensures seen == old(seen)[i := c]
    {
      hide Copy, Reaches, ValidInput, ProtoRef;
      c := |nodes|;
      nodes, seen := nodes + [empty], seen[i := c];
      source, rank := source + [i], rank + [0];
      ReachesSelf(input, i);
      forall j | 0 <= j < |source|
        ensures ProtoSound(j)
      {
        if j < |source| - 1 {
          assert old(ProtoSound(j));
        }
      }
      EmptyStart(input[i], old(seen), seen);
    }

    // A nested call leaves what was there and finishes what it adds.
    twostate lemma StillFilling(at: Visit)
      requires old(Filling(at)) && at.k < Size(input[at.i]) && Child(input[at.i], at.k).Ref?
      requires Valid() && GrownFrom(old(nodes), old(source), old(seen))
      requires NewAreReached(old(seen), Child(input[at.i], at.k).id) && Edge(input[at.i], Child(input[at.i], at.k).id)
      ensures Filling(at)
    {
      hide Edge, Sensitive, Reaches, Copy;
      forall j | |at.source| < j < |source|
        ensures Done(j)
      {
        if j < old(|source|) {
          assert old(Done(j));
          CopyStable(input[source[j]], old(seen), seen);
        }
      }
      CopyStable(Part(input[at.i], at.k), old(seen), seen);
      forall b | b in seen && b !in at.seen
        ensures Reaches(input, at.i, b)
      {
        if b !in old(seen) {
          ReachesStep(input, at.i, Child(input[at.i], at.k).id, b);
        }
      }
    }

    twostate lemma SameFilling(at: Visit)
      requires old(Filling(at))
      requires Valid() && GrownFrom(old(nodes), old(source), old(seen)) && seen == old(seen)
      ensures Filling(at)
    {
      hide ChildrenSeen, Reaches, Copy;
      forall j | |at.source| < j < |source|
        ensures Done(j)
      {
        if j < old(|source|) {
          assert old(Done(j));
        }
      }
    }

    // The whole node visited.
    lemma Finished(at: Visit)
      requires at.i < |input| && at.i !in at.seen && at.k == Size(input[at.i]) && Filling(at)
      ensures GrownFrom(at.nodes, at.source, at.seen)
      ensures at.i in seen && seen[at.i] == |at.nodes|
    {
      hide ChildrenSeen, Reaches, Copy;
      WholePart(input[at.i], seen);
      assert Done(|at.source|);
    }

    // Only the copy of i changed, and not its prototype.
    twostate lemma StaysValid(c: nat)
      requires old(Valid()) && |input| <= c < |nodes| == old(|nodes|)
      requires nodes == old(nodes)[c := nodes[c]]
      requires seen == old(seen) && source == old(source) && rank == old(rank)
      requires nodes[c].Obj? ==> old(nodes)[c].Obj? && nodes[c].proto == old(nodes)[c].proto
      ensures Valid()
    {
      hide ValidInput, ProtoRef;
      forall j | 0 <= j < |source|
        ensures ProtoSound(j)
      {
        assert old(ProtoSound(j));
      }
    }

    method PushItem(i: nat, k: nat, w: Val, c: nat, ghost at: Visit)
      requires Filling(at) && i == at.i && k == at.k && c == |at.nodes|
      requires input[i].Arr? && k < |input[i].items|
      requires w == Image(input[i].items[k], seen) && (input[i].items[k].Ref? ==> input[i].items[k].id in seen)
      modifies this
      ensures Filling(at.(k := k + 1)) && |nodes| == old(|nodes|)
      ensures seen == old(seen) && source == old(source)
    {
      hide ChildrenSeen, Copy, Edge, ValidInput, ProtoSound, Reaches;
      NextItem(input[i], k, seen);
      CopyIsArr(Part(input[i], k), seen);
      nodes := nodes[c := Arr(nodes[c].items + [w])];
      StaysValid(c);
      forall j | |at.source| < j < |source|
        ensures Done(j)
      {
        assert old(Done(j));
      }
    }

    // The recursive call for a child that is not behind a sensitive key.
    method VisitChild(i: nat, item: Val, ghost at: Visit) returns (w: Reply<Val>)
      requires Filling(at) && i == at.i && at.k < Size(input[i]) && item == Child(input[i], at.k)
      requires item.Ref? ==> Edge(input[i], item.id)
      requires ValidVal(item, |input|)
      modifies this
      ensures w.Returned? ==> Filling(at) && w.value == Image(item, seen) && (item.Ref? ==> item.id in seen)
      ensures w.Threw? ==> Valid() && |at.nodes| <= |nodes| && Extends(at.seen, seen) && NewAreReached(at.seen, i) && ProtoCycle(input, i)
      decreases Ids(|input|) - seen.Keys, 2
    {
      hide Copy, Edge, Reaches, ProtoCycle, Sensitive, ChildrenSeen;
      label Before:
      w := Redact(item);
      if w.Threw? {
        ThroughChild(input, i, item.id, seen.Keys - old(seen.Keys));
        CycleThroughChild(input, i, item.id);
      } else if item.Ref? {
        StillFilling@Before(at);
      } else {
        SameFilling@Before(at);
      }
    }

    method RedactArray(i: nat) returns (r: Reply<Val>)
      requires Valid() && i < |input| && i !in seen && input[i].Arr?
      modifies this
      ensures Valid() && GrownWhen(r.Returned?, old(nodes), old(source), old(seen))
      ensures NewAreReached(old(seen), i)
      ensures r.Returned? ==> i in seen && r.value == Ref(seen[i])
      ensures r.Threw? ==> ProtoCycle(input, i)
      decreases Ids(|input|) - seen.Keys, 0
    {
      hide Copy, Edge, Reaches, ProtoCycle;
      var items := nodes[i].items;
      assert nodes[i] == input[i];
      var c := Begin(i, Arr([])) by {
        EmptyCopy(input[i], seen);
      }
      ghost var at := Visit(i, 0, old(nodes), old(source), old(seen));
      var k := 0;
      while k < |items|
        invariant k <= |items| && Filling(at) && at == Visit(i, k, old(nodes), old(source), old(seen))
      {
        ItemEdge(input[i], k);
        var w := VisitChild(i, items[k], at);
        if w.Threw? {
          return Threw;
        }
        PushItem(i, k, w.value, c, at);
        k := k + 1;
        at := at.(k := k);
      }
      Finished(at);
      r := Returned(Ref(c));
    }

    method PutField(i: nat, k: nat, w: Val, c: nat, ghost at: Visit)
      requires Filling(at) && i == at.i && k == at.k && c == |at.nodes|
      requires input[i].Obj? && k < |input[i].entries| && input[i].entries[k].0 != PROTO
      requires w == Redacted(input[i].entries[k].0, input[i].entries[k].1, seen)
      requires !Sensitive(input[i].entries[k].0) && input[i].entries[k].1.Ref? ==> input[i].entries[k].1.id in seen
      modifies this
      ensures Filling(at.(k := k + 1)) && |nodes| == old(|nodes|)
      ensures seen == old(seen) && source == old(source)
    {
      hide ChildrenSeen, Copy, Edge, ValidInput, ProtoSound, Reaches, Redacted, Sensitive;
      NextField(input[i], k, seen);
      nodes := nodes[c := nodes[c].(entries := nodes[c].entries + [(nodes[i].entries[k].0, w)])];
      StaysValid(c);
      forall j | |at.source| < j < |source|
        ensures Done(j)
      {
        assert old(Done(j));
      }
    }

    // Assigning to the key "__proto__": ignored for text, an error when it would close a cycle.
    method SetPrototype(i: nat, k: nat, w: Val, c: nat, ghost at: Visit)
      returns (ok: bool)
      requires Filling(at) && i == at.i && k == at.k && c == |at.nodes|
      requires input[i].Obj? && k < |input[i].entries| && input[i].entries[k].0 == PROTO
      requires w == Image(input[i].entries[k].1, seen)
      requires input[i].entries[k].1.Ref? ==> input[i].entries[k].1.id in seen
      modifies this
      ensures Filling(if ok then at.(k := k + 1) else at) && |nodes| == old(|nodes|)
      ensures seen == old(seen) && source == old(source)
      ensures !ok ==> ProtoCycle(input, i)
    {
      hide ChildrenSeen, Copy, Edge, Reaches, Sensitive, ProtoCycle;
      NextProto(input[i], k, seen);
      match w
      case Plain(_) =>
        ok := true;
        SameDone(c);
      case Null =>
        nodes := nodes[c := nodes[c].(proto := NullProto)];
        ok := true;
        ClearedValid(c);
        SameDone(c);
      case Ref(d) =>
        ok := LinkPrototype(i, k, d, c, at);
    }

    method LinkPrototype(i: nat, k: nat, d: nat, c: nat, ghost at: Visit) returns (ok: bool)
      requires Filling(at) && i == at.i && k == at.k && c == |at.nodes|
      requires input[i].Obj? && k < |input[i].entries| && input[i].entries[k].0 == PROTO
      requires Ref(d) == Image(input[i].entries[k].1, seen)
      requires input[i].entries[k].1.Ref? && input[i].entries[k].1.id in seen
      modifies this
      ensures Filling(if ok then at.(k := k + 1) else at) && |nodes| == old(|nodes|)
      ensures seen == old(seen) && source == old(source)
      ensures !ok ==> ProtoCycle(input, i)
    {
      hide ChildrenSeen, Copy, Edge, Reaches, Sensitive, ProtoCycle, Hits, ProtoRef;
      var hit := LeadsTo(d, c);
      if hit {
        ClosesCycle(i, k, d, c);
        return false;
      }
      NextProto(input[i], k, seen);
      ProtoRefIs(input[i], k);
      ghost var raised := Raised(c, d);
      nodes, rank := nodes[c := nodes[c].(proto := Proto(d))], raised;
      LinkedValid((c, d));
      ok := true;
      SameDone(c);
    }

    lemma ClosesCycle(i: nat, k: nat, d: nat, c: nat)
      requires Valid() && i in seen && seen[i] == c && input[i].Obj? && k < |input[i].entries|
      requires input[i].entries[k].0 == PROTO && input[i].entries[k].1.Ref? && input[i].entries[k].1.id in seen
      requires d == seen[input[i].entries[k].1.id] && Hits(d, c)
      ensures ProtoCycle(input, i)
    {
      hide Edge, Hits;
      ProtoRefIs(input[i], k);
      var q := HitsPath(d, c);
      hide ProtoRef, Valid;
      var p := [i] + q;
      forall m | 0 <= m < |p| - 1
        ensures ProtoRef(input[p[m]]) == Some(p[m + 1])
      {
        if m > 0 {
          assert p[m] == q[m - 1] && p[m + 1] == q[m];
        }
      }
      ReachesSelf(input, i);
      assert ProtoPath(input, p) && p[0] == p[|p| - 1];
    }

    twostate lemma SameDone(c: nat)
      requires old(Valid()) && Valid()
      requires |input| <= c < |nodes| == old(|nodes|)
      requires nodes == old(nodes)[c := nodes[c]]
      requires seen == old(seen) && source == old(source)
      requires forall j :: c - |input| < j < |source| ==> old(Done(j))
      ensures forall j :: c - |input| < j < |source| ==> Done(j)
    {
      hide ChildrenSeen, Copy, ValidInput, ProtoSound;
      forall j | c - |input| < j < |source|
        ensures Done(j)
      {
        assert old(Done(j));
      }
    }

    twostate lemma ClearedValid(c: nat)
      requires old(Valid()) && |input| <= c < |nodes| == old(|nodes|)
      requires nodes == old(nodes)[c := nodes[c]]
      requires seen == old(seen) && source == old(source) && rank == old(rank)
      requires nodes[c].Obj? && !nodes[c].proto.Proto?
      ensures Valid()
    {
      hide ValidInput, ProtoRef;
      forall j | 0 <= j < |source|
        ensures ProtoSound(j)
      {
        assert old(ProtoSound(j));
      }
    }

    // Copy link.0 got copy link.1 as its prototype, which does not lead back to it.
    twostate lemma LinkedValid(link: (nat, nat))
      requires old(Valid()) && |input| <= link.0 < |nodes| == old(|nodes|) && |input| <= link.1 < |nodes|
      requires old(nodes)[link.0].Obj? && nodes == old(nodes)[link.0 := old(nodes)[link.0].(proto := Proto(link.1))]
      requires !old(Hits(link.1, link.0)) && rank == old(Raised(link.0, link.1))
      requires seen == old(seen) && source == old(source)
      requires source[link.0 - |input|] < |input|
      requires ProtoRef(input[source[link.0 - |input|]]) == Some(source[link.1 - |input|])
      ensures Valid()
    {
      hide ValidInput, ProtoRef;
      forall j | 0 <= j < |source|
        ensures ProtoSound(j)
      {
        assert old(ProtoSound(j));
        if |input| + j == link.0 {
          assert old(Hits(link.0, link.0));
        } else if nodes[|input| + j].Obj? && nodes[|input| + j].proto.Proto? {
          var m := nodes[|input| + j].proto.id;
          assert old(Hits(|input| + j, link.0)) == old(Hits(m, link.0));
        }
      }
    }

    method Assign(i: nat, k: nat, key: string, w: Val, c: nat, ghost at: Visit) returns (ok: bool)
      requires Filling(at) && i == at.i && k == at.k && c == |at.nodes|
      requires input[i].Obj? && k < |input[i].entries| && key == input[i].entries[k].0 && !Sensitive(key)
      requires w == Image(input[i].entries[k].1, seen)
      requires input[i].entries[k].1.Ref? ==> input[i].entries[k].1.id in seen
      modifies this
      ensures Filling(if ok then at.(k := k + 1) else at)
      ensures !ok ==> ProtoCycle(input, i)
    {
      hide Copy, Edge, Reaches, ProtoCycle, Sensitive, Redacted, ChildrenSeen, NewAreReached, Valid;
      RedactedIs(key, input[i].entries[k].1);
      if key == PROTO {
        ok := SetPrototype(i, k, w, c, at);
      } else {
        PutField(i, k, w, c, at);
        ok := true;
      }
    }

    method VisitEntry(i: nat, k: nat, key: string, item: Val, c: nat, ghost at: Visit) returns (ok: bool)
      requires Filling(at) && i == at.i && k == at.k && c == |at.nodes|
      requires input[i].Obj? && k < |input[i].entries| && (key, item) == input[i].entries[k]
      requires ValidVal(item, |input|)
      modifies this
      ensures ok ==> Filling(at.(k := k + 1))
      ensures !ok ==> Valid() && |at.nodes| <= |nodes| && Extends(at.seen, seen) && NewAreReached(at.seen, i) && ProtoCycle(input, i)
      decreases Ids(|input|) - seen.Keys, 3
    {
      hide Copy, Edge, Reaches, ProtoCycle, Sensitive, Redacted, ChildrenSeen, NewAreReached, Valid, ValidInput;
      if Sensitive(key) {
        RedactedIs(key, item);
        ProtoIsNotSensitive();
        PutField(i, k, MARKER, c, at);
        return true;
      }
      EntryEdge(input[i], k);
      var w := VisitChild(i, item, at);
      if w.Threw? {
        return false;
      }
      ok := Assign(i, k, key, w.value, c, at);
    }

    method RedactObject(i: nat) returns (r: Reply<Val>)
      requires Valid() && i < |input| && i !in seen && input[i].Obj?
      modifies this
      ensures Valid() && GrownWhen(r.Returned?, old(nodes), old(source), old(seen))
      ensures NewAreReached(old(seen), i)
      ensures r.Returned? ==> i in seen && r.value == Ref(seen[i])
      ensures r.Threw? ==> ProtoCycle(input, i)
      decreases Ids(|input|) - seen.Keys, 0
    {
      hide Copy, Edge, Reaches, ProtoCycle, ChildrenSeen;
      assert nodes[i] == input[i];
      var n := |nodes[i].entries|;
      var c := Begin(i, Obj([], Default)) by {
        EmptyCopy(input[i], seen);
      }
      ghost var at := Visit(i, 0, old(nodes), old(source), old(seen));
      var k := 0;
      while k < n
        invariant k <= n && Filling(at) && at == Visit(i, k, old(nodes), old(source), old(seen))
      {
        var (key, item) := nodes[i].entries[k];
        FewerLeft(|input|, old(seen), seen, i) by {
          assert i in old(seen)[i := |at.nodes|];
        }
        var ok := VisitEntry(i, k, key, item, c, at);
        if !ok {
          return Threw;
        }
        k := k + 1;
        at := at.(k := k);
      }
      Finished(at);
      r := Returned(Ref(c));
    }

    lemma RedactedIs(key: string, v: Val)
      ensures Redacted(key, v, seen) == if Sensitive(key) then MARKER else Image(v, seen)
    {
    }

    ghost predicate AllDone()
      requires Valid()
      reads this
    {
      forall j :: 0 <= j < |source| ==> Done(j)
    }

    lemma SeenIsClosed(a: nat, b: nat)
      requires Valid() && AllDone() && a in seen && a < |input| && Edge(input[a], b)
      ensures b in seen
    {
      hide Edge, Copy, ValidInput;
      assert Done(seen[a] - |input|);
    }

    lemma RootReaches(root: nat)
      requires Valid() && AllDone() && root in seen
      ensures forall i :: Reaches(input, root, i) ==> i in seen
    {
      hide Edge, ValidInput;
      forall i | Reaches(input, root, i)
        ensures i in seen
      {
        var p :| Path(input, p) && p[0] == root && p[|p| - 1] == i;
        forall a, b | a in seen.Keys && a < |input| && Edge(input[a], b)
          ensures b in seen.Keys
        {
          SeenIsClosed(a, b);
        }
        ClosedHoldsReached(input, seen.Keys, p);
      }
    }

    lemma LinkFalls(a: nat)
      requires Valid() && AllDone() && a in seen && ProtoRef(input[a]).Some?
      ensures ProtoRef(input[a]).value in seen
      ensures rank[seen[ProtoRef(input[a]).value] - |input|] < rank[seen[a] - |input|]
    {
      hide ProtoRef, Edge, ChildrenSeen, Copy;
      var b := ProtoRef(input[a]).value;
      ProtoRefIsEdge(input[a]);
      SeenIsClosed(a, b);
      assert ValidNode(input[a], |input|);
      CopyOfProto(input[a], |input|, seen);
      assert Done(seen[a] - |input|) && ProtoSound(seen[a] - |input|);
    }

    lemma {:induction false} PathFalls(p: seq<nat>)
      requires Valid() && AllDone() && ProtoPath(input, p) && p[0] in seen
      ensures p[|p| - 1] in seen
      ensures |p| >= 2 ==> rank[seen[p[|p| - 1]] - |input|] < rank[seen[p[0]] - |input|]
      decreases |p|
    {
      hide ProtoRef, ValidInput, AllDone;
      if |p| >= 2 {
        assert ProtoRef(input[p[0]]) == Some(p[1]);
        LinkFalls(p[0]);
        var q := p[1..];
        assert ProtoPath(input, q) by {
          forall k | 0 <= k < |q| - 1
            ensures ProtoRef(input[q[k]]) == Some(q[k + 1])
          {
            assert ProtoRef(input[p[k + 1]]) == Some(p[k + 2]);
          }
        }
        PathFalls(q);
      }
    }

    lemma NoCycle(root: nat)
      requires Valid() && AllDone() && root in seen
      ensures !ProtoCycle(input, root)
    {
      hide ProtoRef, ValidInput, AllDone, Valid, Reaches;
      if ProtoCycle(input, root) {
        var p :| ProtoPath(input, p) && |p| >= 2 && p[0] == p[|p| - 1] && Reaches(input, root, p[0]);
        RootReaches(root);
        PathFalls(p);
      }
    }
  }

  lemma EmptyCopy(node: Node, seen: map<nat, nat>)
    ensures Copy(Part(node, 0), seen) == if node.Arr? then Arr([]) else Obj([], Default)
  {
  }

  lemma EmptyStart(node: Node, less: map<nat, nat>, more: map<nat, nat>)
    ensures ChildrenSeen(Part(node, 0), more)
    ensures Copy(Part(node, 0), more) == Copy(Part(node, 0), less)
  {
  }

  lemma CopyIsArr(node: Node, seen: map<nat, nat>)
    ensures Copy(node, seen).Arr? <==> node.Arr?
  {
  }

  lemma NextItem(node: Node, k: nat, seen: map<nat, nat>)
    requires node.Arr? && k < |node.items| && ChildrenSeen(Part(node, k), seen)
    requires node.items[k].Ref? ==> node.items[k].id in seen
    ensures ChildrenSeen(Part(node, k + 1), seen)
    ensures Copy(Part(node, k), seen).Arr?
    ensures Copy(Part(node, k + 1), seen) == Arr(Copy(Part(node, k), seen).items + [Image(node.items[k], seen)])
  {
    var items := node.items;
    assert items[..k + 1] == items[..k] + [items[k]];
    forall b | Edge(Part(node, k + 1), b)
      ensures b in seen
    {
      var m :| 0 <= m < k + 1 && items[..k + 1][m] == Ref(b);
      if m < k {
        assert items[..k][m] == Ref(b);
        assert Edge(Part(node, k), b);
      }
    }
  }

  lemma EntryEdge(node: Node, k: nat)
    requires node.Obj? && k < |node.entries| && !Sensitive(node.entries[k].0)
    ensures node.entries[k].1.Ref? ==> Edge(node, node.entries[k].1.id)
  {
    hide Sensitive;
  }

  lemma NextEntrySeen(node: Node, k: nat, seen: map<nat, nat>)
    requires node.Obj? && k < |node.entries| && ChildrenSeen(Part(node, k), seen)
    requires node.entries[k].1.Ref? && !Sensitive(node.entries[k].0) ==> node.entries[k].1.id in seen
    ensures ChildrenSeen(Part(node, k + 1), seen)
  {
    hide Sensitive;
    var entries := node.entries;
    forall b | Edge(Part(node, k + 1), b)
      ensures b in seen
    {
      var m :| 0 <= m < k + 1 && entries[..k + 1][m].1 == Ref(b) && !Sensitive(entries[..k + 1][m].0);
      if m < k {
        assert entries[..k][m] == entries[m];
        assert Edge(Part(node, k), b);
      }
    }
  }

  lemma NextField(node: Node, k: nat, seen: map<nat, nat>)
    requires node.Obj? && k < |node.entries| && ChildrenSeen(Part(node, k), seen) && node.entries[k].0 != PROTO
    requires node.entries[k].1.Ref? && !Sensitive(node.entries[k].0) ==> node.entries[k].1.id in seen
    ensures ChildrenSeen(Part(node, k + 1), seen)
    ensures Copy(Part(node, k), seen).Obj?
    ensures Copy(Part(node, k + 1), seen) ==
            Copy(Part(node, k), seen).(entries := Copy(Part(node, k), seen).entries
                                                  + [(node.entries[k].0, Redacted(node.entries[k].0, node.entries[k].1, seen))])
  {
    hide Sensitive, Redacted;
    NextEntrySeen(node, k, seen);
    assert node.entries[..k + 1][..k] == node.entries[..k];
  }

  lemma NextProto(node: Node, k: nat, seen: map<nat, nat>)
    requires node.Obj? && k < |node.entries| && ChildrenSeen(Part(node, k), seen) && node.entries[k].0 == PROTO
    requires forall i, j :: 0 <= i < j < |node.entries| ==> node.entries[i].0 != node.entries[j].0
    requires node.entries[k].1.Ref? ==> node.entries[k].1.id in seen
    ensures ChildrenSeen(Part(node, k + 1), seen)
    ensures Copy(Part(node, k), seen).Obj? && Copy(Part(node, k), seen).proto == Default
    ensures Copy(Part(node, k + 1), seen) == Copy(Part(node, k), seen).(proto := ProtoOf(Image(node.entries[k].1, seen)))
  {
    hide Sensitive, Redacted;
    NextEntrySeen(node, k, seen);
    NoProtoYet(node.entries[..k], seen);
    assert node.entries[..k + 1][..k] == node.entries[..k];
  }

  lemma WholePart(node: Node, seen: map<nat, nat>)
    ensures Copy(Part(node, Size(node)), seen) == Copy(node, seen)
    ensures ChildrenSeen(Part(node, Size(node)), seen) <==> ChildrenSeen(node, seen)
  {
    match node
    case Arr(items) =>
      assert items[..|items|] == items;
    case Obj(entries, _) =>
      assert entries[..|entries|] == entries;
  }

  lemma ItemEdge(node: Node, k: nat)
    requires node.Arr? && k < |node.items|
    ensures node.items[k].Ref? ==> Edge(node, node.items[k].id)
  {
  }

  lemma ThroughChild(input: seq<Node>, a: nat, child: nat, bs: set<nat>)
    requires a < |input| && Edge(input[a], child)
    requires forall b :: b in bs ==> Reaches(input, child, b)
    ensures forall b :: b in bs ==> Reaches(input, a, b)
  {
    hide Reaches;
    forall b | b in bs
      ensures Reaches(input, a, b)
    {
      ReachesStep(input, a, child, b);
    }
  }

  lemma CycleThroughChild(input: seq<Node>, a: nat, child: nat)
    requires a < |input| && Edge(input[a], child) && ProtoCycle(input, child)
    ensures ProtoCycle(input, a)
  {
    hide Reaches;
    var p :| ProtoPath(input, p) && |p| >= 2 && p[0] == p[|p| - 1] && Reaches(input, child, p[0]);
    ReachesStep(input, a, child, p[0]);
  }

  lemma {:induction false} ProtoCopied(entries: seq<(string, Val)>, seen: map<nat, nat>, k: nat)
    requires k < |entries| && entries[k].0 == PROTO
    requires forall i, j :: 0 <= i < j < |entries| ==> entries[i].0 != entries[j].0
    ensures CopiedProto(entries, seen) == ProtoOf(Image(entries[k].1, seen))
  {
    var n := |entries| - 1;
    if k < n {
      assert entries[k].0 != entries[n].0;
      ProtoCopied(entries[..n], seen, k);
    }
  }

  lemma CopyOfProto(node: Node, n: nat, seen: map<nat, nat>)
    requires ValidNode(node, n) && ProtoRef(node).Some? && ProtoRef(node).value in seen
    ensures Copy(node, seen).Obj? && Copy(node, seen).proto == Proto(seen[ProtoRef(node).value])
  {
    var k :| 0 <= k < |node.entries| && node.entries[k].0 == PROTO && node.entries[k].1.Ref?;
    ProtoRefIs(node, k);
    ProtoCopied(node.entries, seen, k);
  }

  // One object fewer is left to be copied.
  lemma FewerLeft(n: nat, before: map<nat, nat>, after: map<nat, nat>, i: nat)
    requires i < n && i !in before && i in after && Extends(before, after)
    ensures Ids(n) - after.Keys < Ids(n) - before.Keys
  {
    assert i in Ids(n) - before.Keys;
  }

  // ---- the whole ----

  // The copies in `nodes` stand one to one for what the value reaches in `memory`.
  ghost predicate IsRedactedCopy(memory: seq<Node>, v: Val, copied: Val, nodes: seq<Node>, seen: map<nat, nat>) {
    && memory <= nodes
    && (forall i :: i in seen <==> v.Ref? && Reaches(memory, v.id, i))
    && (forall i :: i in seen ==> i < |memory| <= seen[i] < |nodes| && nodes[seen[i]] == Copy(memory[i], seen))
    && (forall i, j :: i in seen && j in seen && seen[i] == seen[j] ==> i == j)
    && (forall c :: |memory| <= c < |nodes| ==> c in seen.Values)
    && copied == Image(v, seen) && (v.Ref? ==> copied != v)
  }

  // redactSensitiveLogValue. It fails exactly when own "__proto__" keys form a cycle.
  method RedactSensitiveLogValue(memory: seq<Node>, v: Val) returns (r: Reply<Val>, nodes: seq<Node>, ghost seen: map<nat, nat>)
    requires ValidInput(memory) && ValidVal(v, |memory|)
    ensures memory <= nodes
    ensures r.Threw? <==> v.Ref? && ProtoCycle(memory, v.id)
    ensures r.Returned? ==> IsRedactedCopy(memory, v, r.value, nodes, seen)
  {
    hide Edge, Reaches, Copy, ProtoCycle, ValidInput, ChildrenSeen;
    var redactor := new Redactor(memory);
    r := redactor.Redact(v);
    nodes, seen := redactor.nodes, redactor.seen;
    if r.Returned? {
      Conclude(redactor, v, r.value);
    }
  }

  lemma Conclude(redactor: Redactor, v: Val, copied: Val)
    requires redactor.Valid() && redactor.GrownFrom(redactor.input, [], map[])
    requires if v.Ref? then v.id in redactor.seen && redactor.NewAreReached(map[], v.id) else redactor.seen == map[]
    requires copied == Image(v, redactor.seen)
    ensures v.Ref? ==> !ProtoCycle(redactor.input, v.id)
    ensures IsRedactedCopy(redactor.input, v, copied, redactor.nodes, redactor.seen)
  {
    hide Edge, Reaches, Copy, ProtoCycle, ValidInput, ChildrenSeen;
    var n := |redactor.input|;
    assert redactor.AllDone();
    if v.Ref? {
      redactor.RootReaches(v.id);
      redactor.NoCycle(v.id);
    }
    forall i | i in redactor.seen
      ensures redactor.nodes[redactor.seen[i]] == Copy(redactor.input[i], redactor.seen)
    {
      assert redactor.Done(redactor.seen[i] - n);
    }
    forall c | n <= c < |redactor.nodes|
      ensures c in redactor.seen.Values
    {
      assert redactor.source[c - n] in redactor.seen && redactor.seen[redactor.source[c - n]] == c;
    }
  }

  // ---- what the copy promises its reader ----

  lemma {:induction false} CopiedEntriesHold(entries: seq<(string, Val)>, seen: map<nat, nat>, m: nat)
    requires m < |CopiedEntries(entries, seen)|
    ensures exists k :: 0 <= k < |entries| && entries[k].0 != PROTO
                        && CopiedEntries(entries, seen)[m] == (entries[k].0, Redacted(entries[k].0, entries[k].1, seen))
  {
    hide Redacted;
    var n := |entries| - 1;
    var before := CopiedEntries(entries[..n], seen);
    if m < |before| {
      CopiedEntriesHold(entries[..n], seen, m);
      var k :| 0 <= k < n && entries[..n][k].0 != PROTO
               && before[m] == (entries[..n][k].0, Redacted(entries[..n][k].0, entries[..n][k].1, seen));
      assert entries[k] == entries[..n][k];
    } else {
      assert entries[n].0 != PROTO;
    }
  }

  // No copy holds a secret, and no copy refers to an object of the input.
  lemma CopyHoldsNoSecret(memory: seq<Node>, v: Val, copied: Val, nodes: seq<Node>, seen: map<nat, nat>, c: nat, m: nat)
    requires ValidInput(memory) && IsRedactedCopy(memory, v, copied, nodes, seen)
    requires |memory| <= c < |nodes| && m < Size(nodes[c])
    ensures nodes[c].Obj? && Sensitive(nodes[c].entries[m].0) ==> nodes[c].entries[m].1 == MARKER
    ensures Child(nodes[c], m).Ref? ==> Child(nodes[c], m).id >= |memory|
  {
    hide Sensitive, Reaches, Path;
    assert c in seen.Values;
    var i :| i in seen && seen[i] == c;
    if memory[i].Arr? {
      ItemEdge(memory[i], m);
      if memory[i].items[m].Ref? {
        ReachedChild(memory, v.id, i, memory[i].items[m].id);
      }
    } else {
      var entries := memory[i].entries;
      CopiedEntriesHold(entries, seen, m);
      var k :| 0 <= k < |entries| && entries[k].0 != PROTO
               && CopiedEntries(entries, seen)[m] == (entries[k].0, Redacted(entries[k].0, entries[k].1, seen));
      if entries[k].1.Ref? && !Sensitive(entries[k].0) {
        EntryEdge(memory[i], k);
        ReachedChild(memory, v.id, i, entries[k].1.id);
      }
    }
  }

  lemma ReachedChild(input: seq<Node>, root: nat, a: nat, b: nat)
    requires Reaches(input, root, a) && a < |input| && Edge(input[a], b) && b < |input|
    ensures Reaches(input, root, b)
  {
    var p :| Path(input, p) && p[0] == root && p[|p| - 1] == a;
    var q := p + [b];
    forall k | 0 <= k < |q| - 1
      ensures Edge(input[q[k]], q[k + 1])
    {
      if k < |p| - 1 {
        assert q[k] == p[k] && q[k + 1] == p[k + 1];
      }
    }
    assert Path(input, q) && q[0] == root && q[|q| - 1] == b;
  }

  function Keys(entries: seq<(string, Val)>): (r: seq<string>)
    ensures |r| == |entries|
  {
    seq(|entries|, k requires 0 <= k < |entries| => entries[k].0)
  }

  // The copy of an object has its keys, in order, exactly when none of them is "__proto__".
  lemma {:induction false} KeysAreKept(entries: seq<(string, Val)>, seen: map<nat, nat>)
    ensures |CopiedEntries(entries, seen)| <= |entries|
    ensures Keys(CopiedEntries(entries, seen)) == Keys(entries) <==> PROTO !in Keys(entries)
    ensures PROTO in Keys(entries) ==> |CopiedEntries(entries, seen)| < |entries|
  {
    hide Redacted;
    if entries != [] {
      var n := |entries| - 1;
      KeysAreKept(entries[..n], seen);
      assert Keys(entries) == Keys(entries[..n]) + [entries[n].0];
      var before := CopiedEntries(entries[..n], seen);
      if entries[n].0 != PROTO {
        assert Keys(CopiedEntries(entries, seen)) == Keys(before) + [entries[n].0];
        assert PROTO in Keys(entries) <==> PROTO in Keys(entries[..n]);
      } else {
        assert Keys(entries)[n] == PROTO;
      }
    }
  }
}
