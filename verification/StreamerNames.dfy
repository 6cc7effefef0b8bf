// The id a streamer is given, told by the text of the ids that are taken.
module StreamerNames {
  import opened Wrappers
  import opened Decimals
  import opened StreamerRegistries

  // A taken id is the wanted one followed by digits that read as the number n, which JavaScript can count up.
  predicate Numbers(w: string, taken: set<string>, digits: string, n: nat) {
    AllDigits(digits) && Value(digits) == n && n < 9007199254740991 && w + digits in taken
  }

  ghost predicate Takes(w: string, taken: set<string>, n: nat) {
    exists digits :: Numbers(w, taken, digits, n)
  }

  lemma TakesIs(w: string, taken: set<string>, n: nat)
    ensures Takes(w, taken, n) <==> exists t :: t in taken && Postfix(w, t) == Some(n)
  {
    hide AllDigits, Value;
    if Takes(w, taken, n) {
      var digits :| Numbers(w, taken, digits, n);
      assert (w + digits)[|w|..] == digits;
      assert Postfix(w, w + digits) == Some(n);
    }
    if t :| t in taken && Postfix(w, t) == Some(n) {
      assert t == w + t[|w|..];
      assert Numbers(w, taken, t[|w|..], n);
    }
  }

  // The number after m, if it is free, and else the first one that is.
  ghost predicate GivenNext(w: string, taken: set<string>, m: nat, r: string) {
    if w + Decimal(m + 1) !in taken then r == w + Decimal(m + 1)
    else exists p: nat :: p >= 1 && r == w + Decimal(p) && r !in taken && forall q: nat :: 1 <= q < p ==> w + Decimal(q) in taken
  }

  // A streamer that is not registered yet, and asks for id, or for nothing and so for "UnknownStreamer",
  // gets an id nobody holds: the wanted one if no taken id is it with a number; else with the number
  // after the greatest, if that is free; else with the first number from 1 on that is.
  lemma GivenExactly(id: string, taken: set<string>, r: string)
    requires IsSanitized(id, None, taken, r)
    ensures var w := if id == "" then "UnknownStreamer" else id;
            && r !in taken
            && (r == w <==> forall n: nat :: !Takes(w, taken, n))
            && (forall m: nat :: Takes(w, taken, m) && (forall n: nat :: Takes(w, taken, n) ==> n <= m) ==> GivenNext(w, taken, m, r))
  {
    hide Postfix, Takes, Decimal, IsSanitized, GivenNext;
    var w := if id == "" then "UnknownStreamer" else id;
    SanitizedIsFree(id, None, taken, r);
    GrantedAsAsked(id, taken, r);
    NoneTakes(w, taken);
    forall m: nat | Takes(w, taken, m) && (forall n: nat :: Takes(w, taken, n) ==> n <= m)
      ensures GivenNext(w, taken, m, r)
    {
      NextIsGiven(id, taken, r, m);
    }
  }

  lemma NoneTakes(w: string, taken: set<string>)
    ensures (forall t :: t in taken ==> Postfix(w, t).None?) <==> forall n: nat :: !Takes(w, taken, n)
  {
    hide Postfix, Takes;
    forall n: nat
      ensures Takes(w, taken, n) <==> exists t :: t in taken && Postfix(w, t) == Some(n)
    {
      TakesIs(w, taken, n);
    }
    forall t | t in taken && Postfix(w, t).Some?
      ensures Takes(w, taken, Postfix(w, t).value)
    {
    }
  }

  lemma NextIsGiven(id: string, taken: set<string>, r: string, m: nat)
    requires IsSanitized(id, None, taken, r)
    requires var w := Wanted(id); Takes(w, taken, m) && forall n: nat :: Takes(w, taken, n) ==> n <= m
    ensures GivenNext(Wanted(id), taken, m, r)
  {
    hide Takes, Decimal, IsMaxPostfix;
    var w := Wanted(id);
    GreatestIs(w, taken, m);
    var k :| IsMaxPostfix(w, taken, k) && k >= -1 && FirstFree(w, taken, k, r);
  }

  lemma GreatestIs(w: string, taken: set<string>, m: nat)
    requires Takes(w, taken, m) && forall n: nat :: Takes(w, taken, n) ==> n <= m
    ensures forall k :: IsMaxPostfix(w, taken, k) ==> k == m
  {
    hide Postfix, Takes;
    TakesIs(w, taken, m);
    forall k | IsMaxPostfix(w, taken, k)
      ensures k == m
    {
      if k >= 0 {
        TakesIs(w, taken, k);
      }
      var t :| t in taken && Postfix(w, t) == Some(m);
      assert Postfix(w, t).value <= k;
    }
  }

  // A registered streamer that asks for the id it holds alone keeps it.
  lemma OwnIsKept(id: string, taken: set<string>, r: string)
    requires id != "" && IsSanitized(id, Some(id), taken, r) && id !in taken
    ensures r == id
  {
  }
}
