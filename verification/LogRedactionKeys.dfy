// Which keys are sensitive, spelled out letter by letter, and what becomes of the fields under them.
module LogRedactionKeys {
  import opened Wrappers
  import opened Texts
  import opened LogRedactions

  predicate Alphanumeric(c: char) {
    'a' <= c <= 'z' || 'A' <= c <= 'Z' || '0' <= c <= '9'
  }

  // d is c, or its small letter.
  predicate SmallOf(c: char, d: char) {
    if 'A' <= c <= 'Z' then d as int == c as int - 'A' as int + 'a' as int else d == c
  }

  // The letters and digits of the key, in order and with letter case ignored, are those of the word:
  // they stand at these positions.
  ghost predicate SpellsAt(key: string, word: string, at: seq<nat>) {
    && |at| == |word|
    && (forall j, k :: 0 <= j < k < |at| ==> at[j] < at[k])
    && (forall k :: 0 <= k < |at| ==> at[k] < |key| && Alphanumeric(key[at[k]]) && SmallOf(key[at[k]], word[k]))
    && (forall i :: 0 <= i < |key| && Alphanumeric(key[i]) ==> i in at)
  }

  ghost predicate Spells(key: string, word: string) {
    exists at :: SpellsAt(key, word, at)
  }

  lemma {:induction false} NormalizeSnoc(key: string, c: char)
    ensures NormalizeKey(key + [c]) == NormalizeKey(key) + (if Alphanumeric(c) then [LowerChar(c)] else [])
  {
    if key == [] {
      assert ([] + [c])[1..] == [];
    } else {
      assert (key + [c])[0] == key[0] && (key + [c])[1..] == key[1..] + [c];
      NormalizeSnoc(key[1..], c);
    }
  }

  // One more character after a key that is spelled.
  lemma LongerSpelled(front: string, c: char, word: string, at: seq<nat>)
    requires SpellsAt(front, word, at)
    ensures Alphanumeric(c) ==> SpellsAt(front + [c], word + [LowerChar(c)], at + [|front|])
    ensures !Alphanumeric(c) ==> SpellsAt(front + [c], word, at)
  {
    var key := front + [c];
    forall i | 0 <= i < |key| && Alphanumeric(key[i])
      ensures i in at + [|front|] && (!Alphanumeric(c) ==> i in at)
    {
      if i < |front| {
        assert key[i] == front[i];
        assert i in at;
      } else {
        assert (at + [|front|])[|at|] == i;
      }
    }
  }

  lemma {:induction false} NormalIsSpelled(key: string)
    ensures Spells(key, NormalizeKey(key))
  {
    hide NormalizeKey, SpellsAt, Alphanumeric;
    if key == [] {
      EmptyIsSpelled();
    } else {
      var n := |key| - 1;
      NormalIsSpelled(key[..n]);
      var at :| SpellsAt(key[..n], NormalizeKey(key[..n]), at);
      NormalizeSnoc(key[..n], key[n]);
      LongerSpelled(key[..n], key[n], NormalizeKey(key[..n]), at);
      assert key == key[..n] + [key[n]];
      assert NormalizeKey(key[..n]) + [] == NormalizeKey(key[..n]);
    }
  }

  lemma EmptyIsSpelled()
    ensures SpellsAt("", NormalizeKey(""), [])
  {
  }

  lemma {:induction false} SpelledIsNormal(key: string, word: string, at: seq<nat>)
    requires SpellsAt(key, word, at)
    ensures NormalizeKey(key) == word
  {
    hide NormalizeKey, SpellsAt, Alphanumeric;
    if key == [] {
      EmptySpells(word, at);
    } else {
      var n := |key| - 1;
      NormalizeSnoc(key[..n], key[n]);
      assert key == key[..n] + [key[n]];
      ShorterSpelled(key, word, at);
      if Alphanumeric(key[n]) {
        SpelledIsNormal(key[..n], word[..|word| - 1], at[..|at| - 1]);
        assert word == word[..|word| - 1] + [LowerChar(key[n])];
      } else {
        SpelledIsNormal(key[..n], word, at);
        assert word + [] == word;
      }
    }
  }

  lemma EmptySpells(word: string, at: seq<nat>)
    requires SpellsAt("", word, at)
    ensures NormalizeKey("") == word
  {
    AtMost(at, 0);
  }

  lemma {:induction false} AtMost(at: seq<nat>, n: nat)
    requires forall j, k :: 0 <= j < k < |at| ==> at[j] < at[k]
    requires forall k :: 0 <= k < |at| ==> at[k] < n
    ensures |at| <= n
  {
    if at != [] {
      AtMost(at[..|at| - 1], at[|at| - 1]);
    }
  }

  lemma ShorterSpelled(key: string, word: string, at: seq<nat>)
    requires SpellsAt(key, word, at) && key != []
    ensures var n := |key| - 1;
            if Alphanumeric(key[n])
            then word != [] && at != [] && SpellsAt(key[..n], word[..|word| - 1], at[..|at| - 1]) && word[|word| - 1] == LowerChar(key[n])
            else SpellsAt(key[..n], word, at)
  {
    var n, m := |key| - 1, |at| - 1;
    if Alphanumeric(key[n]) {
      assert n in at;
      assert at[m] == n;
    } else {
      assert forall k :: 0 <= k < |at| ==> at[k] != n;
    }
    forall i | 0 <= i < n && Alphanumeric(key[..n][i])
      ensures i in at && (at != [] && at[m] == n ==> i in at[..m])
    {
      assert key[..n][i] == key[i];
      var k :| 0 <= k < |at| && at[k] == i;
      assert k < m ==> at[..m][k] == i;
    }
  }

  // A key is sensitive exactly when its letters and digits spell one of these words.
  lemma SensitiveExactlyWhen(key: string)
    ensures Sensitive(key) <==>
            exists word :: word in {"accesstoken", "authorization", "credential", "password", "proxyauthorization",
                                    "refreshtoken", "secret", "token", "username"} && Spells(key, word)
  {
    hide NormalizeKey, SpellsAt;
    NormalIsSpelled(key);
    forall word | Spells(key, word)
      ensures word == NormalizeKey(key)
    {
      var at :| SpellsAt(key, word, at);
      SpelledIsNormal(key, word, at);
    }
  }

  // Separators make no difference, ...
  lemma SeparatorsAreIgnored(before: string, c: char, after: string)
    requires !Alphanumeric(c)
    ensures Sensitive(before + [c] + after) == Sensitive(before + after)
  {
    hide NormalizeKey;
    NormalizeConcat(before + [c], after);
    NormalizeConcat(before, after);
    NormalizeSnoc(before, c);
    assert NormalizeKey(before) + [] == NormalizeKey(before);
  }

  // ... and neither does letter case.
  lemma LetterCaseIsIgnored(before: string, c: char, d: char, after: string)
    requires SmallOf(c, d)
    ensures Sensitive(before + [c] + after) == Sensitive(before + [d] + after)
  {
    hide NormalizeKey;
    NormalizeConcat(before + [c], after);
    NormalizeConcat(before + [d], after);
    NormalizeSnoc(before, c);
    NormalizeSnoc(before, d);
  }

  lemma {:induction false} NormalizeConcat(a: string, b: string)
    ensures NormalizeKey(a + b) == NormalizeKey(a) + NormalizeKey(b)
  {
    hide NormalizeKey;
    if b == [] {
      assert a + [] == a && NormalizeKey("") == "" by {
        EmptyIsSpelled();
      }
    } else {
      var n := |b| - 1;
      NormalizeConcat(a, b[..n]);
      NormalizeSnoc(b[..n], b[n]);
      NormalizeSnoc(a + b[..n], b[n]);
      assert b == b[..n] + [b[n]];
      assert a + b == (a + b[..n]) + [b[n]];
    }
  }

  // ---- what a copy holds ----

  // The value in the copy: text as it was, and for a reference the copy of what it refers to.
  ghost predicate Carried(v: Val, w: Val, seen: map<nat, nat>) {
    match v
    case Ref(b) => b in seen && w == Ref(seen[b])
    case _ => w == v
  }

  // An array is copied item by item.
  lemma ArrayIsCopied(memory: seq<Node>, v: Val, copied: Val, nodes: seq<Node>, seen: map<nat, nat>, i: nat)
    requires ValidInput(memory) && IsRedactedCopy(memory, v, copied, nodes, seen) && i in seen && memory[i].Arr?
    ensures nodes[seen[i]].Arr? && |nodes[seen[i]].items| == |memory[i].items|
    ensures forall k :: 0 <= k < |memory[i].items| ==> Carried(memory[i].items[k], nodes[seen[i]].items[k], seen)
  {
    hide Reaches, Path;
    forall k | 0 <= k < |memory[i].items|
      ensures Carried(memory[i].items[k], nodes[seen[i]].items[k], seen)
    {
      ItemEdge(memory[i], k);
      assert ValidNode(memory[i], |memory|);
      if memory[i].items[k].Ref? {
        ReachedChild(memory, v.id, i, memory[i].items[k].id);
      }
    }
  }

  // An object is copied field by field: under a sensitive key there is the marker, under another one the
  // value carried over. Only the own key "__proto__" is not a field of the copy.
  lemma FieldIsCopied(memory: seq<Node>, v: Val, copied: Val, nodes: seq<Node>, seen: map<nat, nat>, i: nat, k: nat)
    requires ValidInput(memory) && IsRedactedCopy(memory, v, copied, nodes, seen) && i in seen && memory[i].Obj?
    requires k < |memory[i].entries| && memory[i].entries[k].0 != PROTO
    ensures nodes[seen[i]].Obj?
    ensures exists w :: (memory[i].entries[k].0, w) in nodes[seen[i]].entries
                        && (if Sensitive(memory[i].entries[k].0) then w == Plain("[REDACTED]") else Carried(memory[i].entries[k].1, w, seen))
  {
    hide Reaches, Path, Sensitive, CopiedEntries, CopiedProto;
    var entries := memory[i].entries;
    EntryIsCopied(entries, seen, k);
    if entries[k].1.Ref? && !Sensitive(entries[k].0) {
      EntryEdge(memory[i], k);
      assert ValidNode(memory[i], |memory|);
      ReachedChild(memory, v.id, i, entries[k].1.id);
    }
    var w := Redacted(entries[k].0, entries[k].1, seen);
    assert (entries[k].0, w) in nodes[seen[i]].entries;
  }

  lemma {:induction false} EntryIsCopied(entries: seq<(string, Val)>, seen: map<nat, nat>, k: nat)
    requires k < |entries| && entries[k].0 != PROTO
    ensures (entries[k].0, Redacted(entries[k].0, entries[k].1, seen)) in CopiedEntries(entries, seen)
  {
    hide Redacted;
    var n := |entries| - 1;
    if k < n {
      EntryIsCopied(entries[..n], seen, k);
      assert entries[..n][k] == entries[k];
    } else {
      var c := CopiedEntries(entries, seen);
      assert c[|c| - 1] == (entries[k].0, Redacted(entries[k].0, entries[k].1, seen));
    }
  }

  // The prototype of a copy is the built-in one, or what the own key "__proto__" holds.
  lemma {:induction false} PrototypeIsCopied(entries: seq<(string, Val)>, seen: map<nat, nat>, k: nat)
    requires forall a, b :: 0 <= a < b < |entries| ==> entries[a].0 != entries[b].0
    ensures (forall a :: 0 <= a < |entries| ==> entries[a].0 != PROTO) ==> CopiedProto(entries, seen) == Default
    ensures k < |entries| && entries[k].0 == PROTO ==>
              CopiedProto(entries, seen) == match entries[k].1
                                            case Null => NullProto
                                            case Plain(_) => Default
                                            case Ref(b) => Proto(if b in seen then seen[b] else b)
  {
    if entries != [] {
      var n := |entries| - 1;
      PrototypeIsCopied(entries[..n], seen, if k < n then k else 0);
      assert k < n ==> entries[..n][k] == entries[k];
    }
  }

  // Whoever looks under a key that spells one of the words in a copy finds the marker.
  lemma SecretIsRedacted(memory: seq<Node>, v: Val, copied: Val, nodes: seq<Node>, seen: map<nat, nat>, c: nat, m: nat, word: string)
    requires ValidInput(memory) && IsRedactedCopy(memory, v, copied, nodes, seen)
    requires |memory| <= c < |nodes| && nodes[c].Obj? && m < |nodes[c].entries|
    requires word in {"accesstoken", "authorization", "credential", "password", "proxyauthorization",
                      "refreshtoken", "secret", "token", "username"}
    requires Spells(nodes[c].entries[m].0, word)
    ensures nodes[c].entries[m].1 == Plain("[REDACTED]")
  {
    hide Sensitive, Reaches, Spells, IsRedactedCopy, ValidInput;
    SensitiveExactlyWhen(nodes[c].entries[m].0);
    CopyHoldsNoSecret(memory, v, copied, nodes, seen, c, m);
  }

  // ---- the input ----

  // The values a node holds.
  function Held(node: Node): seq<Val> {
    match node
    case Arr(items) => items
    case Obj(entries, _) => seq(|entries|, k requires 0 <= k < |entries| => entries[k].1)
  }

  // A graph is one whose references name its nodes and whose objects have distinct keys; nothing else
  // is asked of it.
  lemma GraphExactlyWhen(input: seq<Node>)
    ensures ValidInput(input) <==>
            forall i :: 0 <= i < |input| ==>
              && (forall v :: v in Held(input[i]) && v.Ref? ==> v.id < |input|)
              && (input[i].Obj? ==> forall j, k :: 0 <= j < k < |input[i].entries| ==> input[i].entries[j].0 != input[i].entries[k].0)
  {
    forall i | 0 <= i < |input|
      ensures ValidNode(input[i], |input|) <==>
              && (forall v :: v in Held(input[i]) && v.Ref? ==> v.id < |input|)
              && (input[i].Obj? ==> forall j, k :: 0 <= j < k < |input[i].entries| ==> input[i].entries[j].0 != input[i].entries[k].0)
    {
      NodeIs(input[i], |input|);
    }
  }

  lemma NodeIs(node: Node, n: nat)
    ensures ValidNode(node, n) <==>
            && (forall v :: v in Held(node) && v.Ref? ==> v.id < n)
            && (node.Obj? ==> forall j, k :: 0 <= j < k < |node.entries| ==> node.entries[j].0 != node.entries[k].0)
  {
    if forall v :: v in Held(node) && v.Ref? ==> v.id < n {
      if node.Arr? {
        assert forall k :: 0 <= k < |node.items| ==> node.items[k] in Held(node);
      } else {
        assert forall k :: 0 <= k < |node.entries| ==> Held(node)[k] == node.entries[k].1;
      }
    }
  }
}
