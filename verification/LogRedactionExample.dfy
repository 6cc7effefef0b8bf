// Inputs whose redacted copy fails, or lacks a key.
module LogRedactionExamples {
  import opened Wrappers
  import opened LogRedactions

  // An object whose own "__proto__" key refers to the object itself cannot be copied.
  lemma OwnPrototypeFails(memory: seq<Node>, i: nat, k: nat)
    requires ValidInput(memory) && i < |memory| && memory[i].Obj? && k < |memory[i].entries|
    requires memory[i].entries[k] == (PROTO, Ref(i))
    ensures ProtoCycle(memory, i)
  {
    assert ValidNode(memory[i], |memory|);
    assert ProtoRef(memory[i]) == Some(i);
    assert Path(memory, [i]) && [i][0] == i;
    assert ProtoPath(memory, [i, i]) && [i, i][0] == i;
  }

  const ITS_OWN_PROTOTYPE := [Obj([(PROTO, Ref(0))], Default)]

  lemma SomeGraphFails()
    ensures ValidInput(ITS_OWN_PROTOTYPE) && ValidVal(Ref(0), |ITS_OWN_PROTOTYPE|) && ProtoCycle(ITS_OWN_PROTOTYPE, 0)
  {
    OwnPrototypeFails(ITS_OWN_PROTOTYPE, 0, 0);
  }

  // What JSON.parse makes of an object with a key "__proto__" and a text.
  const PARSED := [Obj([(PROTO, Ref(1)), ("text", Plain("hello"))], Default), Obj([("admin", Plain("yes"))], Default)]

  // It is copied, without the key: the object under the key becomes the prototype of the copy.
  lemma SomeKeyIsDropped(copied: Val, nodes: seq<Node>, seen: map<nat, nat>)
    requires IsRedactedCopy(PARSED, Ref(0), copied, nodes, seen)
    ensures ValidInput(PARSED) && !ProtoCycle(PARSED, 0)
    ensures Keys(PARSED[0].entries) == [PROTO, "text"]
    ensures copied.Ref? && copied.id < |nodes| && 1 in seen && nodes[copied.id] == Obj([("text", Plain("hello"))], Proto(seen[1]))
  {
    hide Copy, Reaches, ProtoCycle;
    ParsedIsReached();
    ParsedHasNoCycle();
    ParsedCopy(seen);
  }

  lemma ParsedIsReached()
    ensures Reaches(PARSED, 0, 0) && Reaches(PARSED, 0, 1)
  {
    hide Sensitive;
    ProtoIsNotSensitive();
    assert PARSED[0].entries[0].1 == Ref(1);
    assert Path(PARSED, [0]) && [0][0] == 0;
    assert Path(PARSED, [0, 1]) && [0, 1][0] == 0 && [0, 1][1] == 1;
  }

  lemma ParsedHasNoCycle()
    ensures !ProtoCycle(PARSED, 0)
  {
    hide Sensitive, Reaches;
    assert PROTO[0] == '_' && "admin"[0] == 'a' && "text"[0] == 't';
    assert PARSED[0].entries[0] == (PROTO, Ref(1)) && PARSED[0].entries[1].0 == "text";
    assert ProtoRef(PARSED[1]) == None && ProtoRef(PARSED[0]) == Some(1);
    forall p | ProtoPath(PARSED, p) && |p| >= 2
      ensures p[0] != p[|p| - 1]
    {
      var k := |p| - 2;
      assert ProtoRef(PARSED[p[0]]) == Some(p[0 + 1]);
      assert ProtoRef(PARSED[p[k]]) == Some(p[k + 1]);
    }
  }

  lemma ParsedCopy(seen: map<nat, nat>)
    requires 1 in seen
    ensures Copy(PARSED[0], seen) == Obj([("text", Plain("hello"))], Proto(seen[1]))
  {
    hide Sensitive;
    var entries := PARSED[0].entries;
    TextIsNotSensitive();
    assert PROTO[0] == '_' && "text"[0] == 't';
    assert entries[..1] == [entries[0]] && entries[..1][..0] == [];
    assert CopiedEntries(entries[..1], seen) == [];
    assert CopiedProto(entries[..1], seen) == Proto(seen[1]);
  }

  lemma TextIsNotSensitive()
    ensures !Sensitive("text")
  {
    assert "text"[1..] == "ext" && "ext"[1..] == "xt" && "xt"[1..] == "t" && "t"[1..] == "";
    assert NormalizeKey("t") == "t";
    assert NormalizeKey("xt") == "xt";
    assert NormalizeKey("ext") == "ext";
    assert NormalizeKey("text") == "text";
    assert |"token"| == 5 && "text"[1] != "token"[1];
  }
}
