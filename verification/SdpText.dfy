// The text operations the codec policy uses on session descriptions: newline forms, the split
// into media sections, lines, and the tokens of a media line. Each is proved to invert its
// counterpart, which is what lets a rewritten description be read again.
module SdpText {
  import opened Texts

  // ---- newline forms ----

  // replace(/\r\n/g, '\n')
  function Collapse(t: string): (r: string)
    ensures |r| <= |t|
  {
    if t == [] then []
    else if |t| >= 2 && t[0] == '\r' && t[1] == '\n' then ['\n'] + Collapse(t[2..])
    else [t[0]] + Collapse(t[1..])
  }

  // replace(/\n/g, '\r\n')
  function Expand(t: string): (r: string)
    ensures |r| >= |t|
    ensures r != [] ==> r[0] != '\n'
    ensures t != [] && t[0] != '\n' ==> r != [] && r[0] == t[0]
  {
    if t == [] then []
    else if t[0] == '\n' then ['\r', '\n'] + Expand(t[1..])
    else [t[0]] + Expand(t[1..])
  }

  lemma {:induction false} CollapseExpand(t: string)
    ensures Collapse(Expand(t)) == t
  {
    if t != [] {
      CollapseExpand(t[1..]);
      var e := Expand(t[1..]);
      if t[0] == '\n' {
        assert (['\r', '\n'] + e)[2..] == e;
      } else {
        assert ([t[0]] + e)[1..] == e;
      }
    }
  }

  // ---- lines and their concatenation ----

  function Concat(ss: seq<string>): string {
    if ss == [] then [] else ss[0] + Concat(ss[1..])
  }

  lemma {:induction false} ConcatAppend(a: seq<string>, b: seq<string>)
    ensures Concat(a + b) == Concat(a) + Concat(b)
  {
    if a == [] {
      assert a + b == b;
    } else {
      ConcatAppend(a[1..], b);
      assert (a + b)[1..] == a[1..] + b;
    }
  }

  lemma ConcatSplice(ss: seq<string>, k: nat, s: string)
    requires k < |ss|
    ensures Concat(ss[k := s]) == Concat(ss[..k]) + s + Concat(ss[k + 1..])
    ensures Concat(ss) == Concat(ss[..k]) + ss[k] + Concat(ss[k + 1..])
  {
    var u := ss[k := s];
    assert u == ss[..k] + ([s] + ss[k + 1..]);
    assert ss == ss[..k] + ([ss[k]] + ss[k + 1..]);
    ConcatAppend(ss[..k], [s] + ss[k + 1..]);
    ConcatAppend(ss[..k], [ss[k]] + ss[k + 1..]);
    assert ([s] + ss[k + 1..])[1..] == ss[k + 1..];
    assert ([ss[k]] + ss[k + 1..])[1..] == ss[k + 1..];
  }

  function FirstNewline(t: string, i: nat): (j: nat)
    requires i <= |t|
    ensures i <= j <= |t|
    ensures j < |t| ==> t[j] == '\n'
    ensures forall k :: i <= k < j ==> t[k] != '\n'
    decreases |t| - i
  {
    if i == |t| || t[i] == '\n' then i else FirstNewline(t, i + 1)
  }

  // split('\n')
  function SplitLines(t: string): (ls: seq<string>)
    ensures |ls| >= 1
    ensures forall i :: 0 <= i < |ls| ==> '\n' !in ls[i]
    ensures ls[0] <= t
    decreases |t|
  {
    var j := FirstNewline(t, 0);
    if j == |t| then [t] else [t[..j]] + SplitLines(t[j + 1..])
  }

  // join('\n')
  function JoinLines(ls: seq<string>): string
    requires |ls| >= 1
  {
    if |ls| == 1 then ls[0] else ls[0] + ['\n'] + JoinLines(ls[1..])
  }

  lemma {:induction false} JoinSplit(t: string)
    ensures JoinLines(SplitLines(t)) == t
    decreases |t|
  {
    var j := FirstNewline(t, 0);
    if j < |t| {
      JoinSplit(t[j + 1..]);
      assert ([t[..j]] + SplitLines(t[j + 1..]))[1..] == SplitLines(t[j + 1..]);
      assert t == t[..j] + ['\n'] + t[j + 1..];
    }
  }

  lemma FirstOfTwo(l: string, rest: string)
    requires '\n' !in l
    ensures var t := l + (['\n'] + rest);
            FirstNewline(t, 0) == |l| && t[..|l|] == l && t[|l| + 1..] == rest
  {
    var t := l + (['\n'] + rest);
    assert t[|l|] == '\n';
    assert forall k :: 0 <= k < |l| ==> t[k] == l[k];
  }

  lemma {:induction false} SplitJoin(ls: seq<string>)
    requires |ls| >= 1
    requires forall i :: 0 <= i < |ls| ==> '\n' !in ls[i]
    ensures SplitLines(JoinLines(ls)) == ls
  {
    var t := JoinLines(ls);
    var j := FirstNewline(t, 0);
    if |ls| == 1 {
      assert j == |t|;
    } else {
      var rest := JoinLines(ls[1..]);
      SplitJoin(ls[1..]);
      assert t == ls[0] + (['\n'] + rest);
      FirstOfTwo(ls[0], rest);
    }
  }

  // ---- media sections ----

  // What ^ with the multiline flag accepts as the character before a line start.
  predicate Break(c: char) {
    c == '\n' || c == '\r' || c as int == 0x2028 || c as int == 0x2029
  }

  predicate MediaStart(t: string) {
    |t| >= 2 && t[0] == 'm' && t[1] == '='
  }

  predicate StartsAt(t: string, p: int) {
    0 < p < |t| - 1 && Break(t[p - 1]) && t[p] == 'm' && t[p + 1] == '='
  }

  function FirstStart(t: string, p: nat): (q: nat)
    requires p <= |t|
    ensures p <= q <= |t|
    ensures q < |t| ==> StartsAt(t, q)
    ensures forall r :: p <= r < q ==> !StartsAt(t, r)
    decreases |t| - p
  {
    if p == |t| || StartsAt(t, p) then p else FirstStart(t, p + 1)
  }

  // split(/(?=^m=)/m)
  function Sections(t: string): (ss: seq<string>)
    ensures |ss| >= 1
    decreases |t|
  {
    if t == [] then [t]
    else
      var q := FirstStart(t, 1);
      if q == |t| then [t] else [t[..q]] + Sections(t[q..])
  }

  ghost predicate NoStart(t: string) {
    forall p :: 0 < p < |t| ==> !StartsAt(t, p)
  }

  // The lists of strings that Sections can return.
  ghost predicate WellSplit(ss: seq<string>) {
    && |ss| >= 1
    && (forall i :: 0 <= i < |ss| ==> ss[i] != [] && NoStart(ss[i]))
    && (forall i :: 0 < i < |ss| ==> MediaStart(ss[i]))
    && (forall i :: 0 <= i < |ss| - 1 ==> Break(ss[i][|ss[i]| - 1]))
  }

  lemma {:induction false} SectionsWellSplit(t: string)
    requires t != []
    ensures WellSplit(Sections(t))
    ensures Concat(Sections(t)) == t
    ensures Sections(t)[0] <= t
    decreases |t|
  {
    var q := FirstStart(t, 1);
    if q == |t| {
      assert Concat([t]) == t + [] == t;
      assert NoStart(t);
    } else {
      var u := t[q..];
      SectionsWellSplit(u);
      assert t == t[..q] + u;
      FirstSection(u);
      assert NoStart(t[..q]) by {
        forall p | 0 < p < q
          ensures !StartsAt(t[..q], p)
        {
          assert !StartsAt(t, p);
        }
      }
      hide NoStart, WellSplit;
      SectionsCons(t[..q], Sections(u));
    }
  }

  lemma FirstSection(t: string)
    requires MediaStart(t)
    ensures MediaStart(Sections(t)[0])
  {
    assert !StartsAt(t, 1);
    assert FirstStart(t, 1) >= 2;
  }

  lemma SectionsCons(s: string, rest: seq<string>)
    requires s != [] && NoStart(s) && Break(s[|s| - 1])
    requires WellSplit(rest) && MediaStart(rest[0])
    ensures WellSplit([s] + rest)
    ensures Concat([s] + rest) == s + Concat(rest)
  {
    hide NoStart, Break;
    assert ([s] + rest)[1..] == rest;
  }

  lemma {:induction false} SectionsOfConcat(ss: seq<string>)
    requires WellSplit(ss)
    ensures Sections(Concat(ss)) == ss
  {
    var t := Concat(ss);
    var s := ss[0];
    if |ss| == 1 {
      assert t == s + [] == s;
      assert NoStart(s);
      assert FirstStart(t, 1) == |t|;
    } else {
      var rest := ss[1..];
      assert WellSplit(rest);
      SectionsOfConcat(rest);
      var u := Concat(rest);
      assert t == s + u;
      assert u == rest[0] + Concat(rest[1..]);
      assert MediaStart(u);
      var q := |s|;
      assert t[q] == u[0] && t[q + 1] == u[1] && t[q - 1] == s[|s| - 1];
      assert StartsAt(t, q);
      forall p | 0 < p < q
        ensures !StartsAt(t, p)
      {
        assert !StartsAt(s, p);
        assert t[p] == s[p] && t[p - 1] == s[p - 1];
        if p + 1 < q {
          assert t[p + 1] == s[p + 1];
        }
      }
      assert FirstStart(t, 1) == q;
      assert t[..q] == s && t[q..] == u;
    }
  }

  // A text without section starts has none within its lines and none at a later line's start.
  lemma {:induction false} LinesWithoutStart(t: string)
    requires NoStart(t)
    ensures forall l :: l in SplitLines(t) ==> NoStart(l)
    ensures forall i :: 0 < i < |SplitLines(t)| ==> !MediaStart(SplitLines(t)[i])
    decreases |t|
  {
    var j := FirstNewline(t, 0);
    if j < |t| {
      var rest := t[j + 1..];
      forall p | 0 < p < |rest|
        ensures !StartsAt(rest, p)
      {
        assert !StartsAt(t, j + 1 + p);
      }
      LinesWithoutStart(rest);
      forall p | 0 < p < j
        ensures !StartsAt(t[..j], p)
      {
        assert !StartsAt(t, p);
      }
      var ls := SplitLines(t);
      assert ls == [t[..j]] + SplitLines(rest);
      assert !MediaStart(ls[1]) by {
        if MediaStart(ls[1]) {
          assert ls[1] <= rest;
          assert t[j + 1] == 'm' && t[j + 2] == '=';
          assert StartsAt(t, j + 1);
        }
      }
      forall i | 0 < i < |ls|
        ensures !MediaStart(ls[i])
      {
        if i > 1 {
          assert ls[i] == SplitLines(rest)[i - 1];
        }
      }
    }
  }

  lemma JoinedFirstLine(ls: seq<string>)
    requires |ls| >= 1
    requires !MediaStart(ls[0])
    ensures !MediaStart(JoinLines(ls) + ['\n'])
  {
    var t := JoinLines(ls) + ['\n'];
    var l := ls[0];
    var rest := if |ls| == 1 then [] else JoinLines(ls[1..]) + ['\n'];
    assert t == l + ['\n'] + rest;
    assert t[|l|] == '\n';
    assert forall k :: 0 <= k < |ls[0]| ==> t[k] == ls[0][k];
  }

  lemma {:induction false} JoinedWithoutStart(ls: seq<string>)
    requires |ls| >= 1
    requires forall l :: l in ls ==> NoStart(l)
    requires forall i :: 0 < i < |ls| ==> !MediaStart(ls[i])
    ensures NoStart(JoinLines(ls) + ['\n'])
  {
    var t := JoinLines(ls) + ['\n'];
    var l := ls[0];
    var rest := if |ls| == 1 then [] else JoinLines(ls[1..]) + ['\n'];
    assert t == l + ['\n'] + rest;
    if |ls| > 1 {
      JoinedWithoutStart(ls[1..]);
      JoinedFirstLine(ls[1..]);
    }
    assert NoStart(l) && NoStart(rest) && !MediaStart(rest);
    forall p | 0 < p < |t|
      ensures !StartsAt(t, p)
    {
      if p < |l| {
        assert !StartsAt(l, p);
        assert t[p] == l[p] && t[p - 1] == l[p - 1];
      } else if p > |l| + 1 {
        assert !StartsAt(rest, p - |l| - 1);
        assert t[p] == rest[p - |l| - 1] && t[p - 1] == rest[p - |l| - 2];
      }
    }
  }

  // ---- the tokens of a line ----

  function FirstSpace(s: string, i: nat): (j: nat)
    requires i <= |s|
    ensures i <= j <= |s|
    ensures j < |s| ==> IsSpace(s[j])
    ensures forall k :: i <= k < j ==> !IsSpace(s[k])
    decreases |s| - i
  {
    if i == |s| || IsSpace(s[i]) then i else FirstSpace(s, i + 1)
  }

  function SpacesEnd(s: string, i: nat): (j: nat)
    requires i <= |s|
    ensures i <= j <= |s|
    ensures j < |s| ==> !IsSpace(s[j])
    ensures forall k :: i <= k < j ==> IsSpace(s[k])
    decreases |s| - i
  {
    if i == |s| || !IsSpace(s[i]) then i else SpacesEnd(s, i + 1)
  }

  predicate Word(s: string) {
    forall k :: 0 <= k < |s| ==> !IsSpace(s[k])
  }

  // split(/\s+/): only the first and the last token can be empty.
  function Tokens(s: string): (ts: seq<string>)
    ensures |ts| >= 1
    ensures forall t :: t in ts ==> Word(t)
    ensures s != [] && !IsSpace(s[0]) ==> ts[0] != []
    ensures forall i :: 0 < i < |ts| - 1 ==> ts[i] != []
    decreases |s|
  {
    var i := FirstSpace(s, 0);
    if i == |s| then [s]
    else
      assert SpacesEnd(s, i) > i;
      [s[..i]] + Tokens(s[SpacesEnd(s, i)..])
  }

  // join(' ')
  function JoinTokens(ts: seq<string>): string {
    if ts == [] then [] else if |ts| == 1 then ts[0] else ts[0] + [' '] + JoinTokens(ts[1..])
  }

  lemma SplitAtSpace(w: string, rest: string)
    requires w != [] && Word(w) && rest != [] && !IsSpace(rest[0])
    ensures var s := w + ([' '] + rest);
            && FirstSpace(s, 0) == |w| && SpacesEnd(s, |w|) == |w| + 1
            && s[..|w|] == w && s[|w| + 1..] == rest && s[0] == w[0]
  {
    var s := w + ([' '] + rest);
    assert s[|w|] == ' ' && s[|w| + 1] == rest[0];
    assert forall k :: 0 <= k < |w| ==> s[k] == w[k];
  }

  lemma {:induction false} TokensOfJoin(ts: seq<string>)
    requires |ts| >= 1
    requires forall i :: 0 <= i < |ts| ==> ts[i] != [] && Word(ts[i])
    ensures Tokens(JoinTokens(ts)) == ts
    ensures JoinTokens(ts) != []
    ensures JoinTokens(ts)[0] == ts[0][0]
    ensures !IsSpace(JoinTokens(ts)[|JoinTokens(ts)| - 1])
  {
    var s := JoinTokens(ts);
    if |ts| == 1 {
      assert FirstSpace(s, 0) == |s|;
    } else {
      var rest := JoinTokens(ts[1..]);
      TokensOfJoin(ts[1..]);
      assert s == ts[0] + ([' '] + rest);
      assert ts[1] == ts[1..][0] && Word(ts[1]);
      SplitAtSpace(ts[0], rest);
      assert s[|s| - 1] == rest[|rest| - 1];
    }
  }

  lemma {:induction false} JoinTokensNoBreak(ts: seq<string>)
    requires forall t :: t in ts ==> Word(t)
    ensures forall k :: 0 <= k < |JoinTokens(ts)| ==> !Break(JoinTokens(ts)[k])
  {
    if |ts| == 1 {
      assert Word(ts[0]);
    } else if |ts| > 1 {
      assert Word(ts[0]);
      JoinTokensNoBreak(ts[1..]);
    }
  }

  // Splitting at white space and joining with single spaces never lengthens a line.
  lemma {:induction false} TokensNeverLonger(s: string)
    ensures |JoinTokens(Tokens(s))| <= |s|
    decreases |s|
  {
    var i := FirstSpace(s, 0);
    if i < |s| {
      var j := SpacesEnd(s, i);
      assert j > i;
      TokensNeverLonger(s[j..]);
      assert Tokens(s) == [s[..i]] + Tokens(s[j..]);
      assert Tokens(s)[1..] == Tokens(s[j..]);
    }
  }
}
