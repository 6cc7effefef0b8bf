// What trimming, lower case and the normal forms of identifiers mean.
module TextLaws {
  import opened Wrappers
  import opened Texts

  // Trimming takes the white space off both ends, and nothing else.
  lemma TrimIs(s: string)
    ensures exists before, after :: s == before + Trim(s) + after
                                    && (forall i :: 0 <= i < |before| ==> IsSpace(before[i]))
                                    && (forall i :: 0 <= i < |after| ==> IsSpace(after[i]))
    ensures Trim(s) != [] ==> !IsSpace(Trim(s)[0]) && !IsSpace(Trim(s)[|Trim(s)| - 1])
  {
    hide IsSpace, TrimStart, TrimEnd;
    var t := TrimEnd(s);
    var before := TrimStartIs(t);
    var after := s[|t|..];
    assert s == t + after;
    TrimTwice(s);
    assert s == before + Trim(s) + after;
  }

  lemma {:induction false} TrimStartIs(s: string) returns (before: string)
    ensures s == before + TrimStart(s) && forall i :: 0 <= i < |before| ==> IsSpace(before[i])
  {
    hide IsSpace;
    before := [];
    if s != [] && IsSpace(s[0]) {
      var more := TrimStartIs(s[1..]);
      before := [s[0]] + more;
      assert s == [s[0]] + s[1..];
    }
  }

  // Two texts with the same letters but for their case are the same in lower case, and only those.
  lemma LowerIs(a: string, b: string)
    ensures Lower(a) == Lower(b) <==> |a| == |b| && forall i :: 0 <= i < |a| ==> SameLetter(a[i], b[i])
  {
    hide Lower;
    if Lower(a) == Lower(b) {
      forall i | 0 <= i < |a|
        ensures SameLetter(a[i], b[i])
      {
        assert Lower(a)[i] == LowerChar(a[i]) && Lower(b)[i] == LowerChar(b[i]);
      }
    }
  }

  predicate SameLetter(c: char, d: char) {
    || c == d
    || ('A' <= c <= 'Z' && d as int == c as int + 32)
    || ('A' <= d <= 'Z' && c as int == d as int + 32)
  }

  // Without its dashes a text keeps its other characters, in order.
  lemma {:induction false} RemoveDashesConcat(a: string, b: string)
    ensures RemoveDashes(a + b) == RemoveDashes(a) + RemoveDashes(b)
  {
    if a == [] {
      assert [] + b == b;
    } else {
      assert (a + b)[0] == a[0] && (a + b)[1..] == a[1..] + b;
      RemoveDashesConcat(a[1..], b);
    }
  }

  lemma OnlyADash()
    ensures RemoveDashes("-") == ""
  {
    assert "-"[1..] == "";
  }

  lemma RemoveDashesIs(a: string, b: string)
    requires '-' !in a
    ensures RemoveDashes(a) == a && RemoveDashes("-") == ""
    ensures RemoveDashes(a + "-" + b) == a + RemoveDashes(b)
  {
    OnlyADash();
    hide RemoveDashes;
    RemoveDashesConcat(a + "-", b);
    RemoveDashesConcat(a, "-");
    assert a + "" == a;
  }

  // Letter case and outer white space make no difference to an identifier, and it has small letters only.
  lemma SameGuid(a: string, b: string)
    requires NormalizeGuid(a).Some? && NormalizeGuid(b).Some?
    ensures NormalizeGuid(a) == NormalizeGuid(b) <==>
            |Trim(a)| == |Trim(b)| && forall i :: 0 <= i < |Trim(a)| ==> SameLetter(Trim(a)[i], Trim(b)[i])
    ensures forall i :: 0 <= i < |NormalizeGuid(a).value| ==> !('A' <= NormalizeGuid(a).value[i] <= 'Z')
  {
    hide Trim, Lower, IsGuid;
    LowerIs(Trim(a), Trim(b));
  }

  // Dashes and letter case make no difference to a token of 32 hexadecimal digits.
  lemma SameToken(a: string, b: string)
    requires IsCompactGuid(RemoveDashes(Trim(a))) && IsCompactGuid(RemoveDashes(Trim(b)))
    ensures NormalizeRecycleToken(a) == NormalizeRecycleToken(b) <==>
            forall i :: 0 <= i < 32 ==> SameLetter(RemoveDashes(Trim(a))[i], RemoveDashes(Trim(b))[i])
  {
    NotEmptied(Trim(a));
    NotEmptied(Trim(b));
    hide Trim, RemoveDashes, Lower;
    LowerIs(RemoveDashes(Trim(a)), RemoveDashes(Trim(b)));
  }

  // Any other text is a token as it is, trimmed, unless nothing is left of it.
  lemma OtherToken(a: string)
    requires !IsCompactGuid(RemoveDashes(Trim(a)))
    ensures NormalizeRecycleToken(a) == if Trim(a) == "" then None else Some(Trim(a))
  {
    hide Trim, RemoveDashes, Lower;
  }

  lemma NotEmptied(t: string)
    requires RemoveDashes(t) != ""
    ensures t != ""
  {
  }
}
