// What restricting a description promises: when it succeeds, what it replaces, which lines and
// payloads it keeps, and what its result reads as.
module CodecPolicyLaws {
  import opened Wrappers
  import opened Texts
  import opened SdpText
  import opened CodecPolicies

  // ---- when it succeeds ----

  // The payload map, without the loop: who maps what, and that nobody maps twice.
  lemma {:induction false} MappingsMean(ls: seq<string>, offered: seq<string>, n: nat)
    requires n <= |ls|
    ensures Mappings(ls, offered, n).None? <==>
            exists i, j :: 0 <= i < j < n && Offers(offered, ls[i]) && Offers(offered, ls[j])
                           && RtpMap(ls[i]).value.0 == RtpMap(ls[j]).value.0
    ensures Mappings(ls, offered, n).Some? ==> forall pt, codec ::
              pt in Mappings(ls, offered, n).value && Mappings(ls, offered, n).value[pt] == codec <==>
              exists i :: 0 <= i < n && Offers(offered, ls[i]) && RtpMap(ls[i]) == Some((pt, codec))
  {
    hide RtpMap;
    if n > 0 {
      MappingsMean(ls, offered, n - 1);
      var before := Mappings(ls, offered, n - 1);
      var line := ls[n - 1];
      if before.Some? && Offers(offered, line) {
        var pt := RtpMap(line).value.0;
        if pt in before.value {
          var i :| 0 <= i < n - 1 && Offers(offered, ls[i]) && RtpMap(ls[i]) == Some((pt, before.value[pt]));
          assert i < n - 1 && Offers(offered, ls[i]);
        } else {
          forall i | 0 <= i < n - 1 && Offers(offered, ls[i])
            ensures RtpMap(ls[i]).value.0 != pt
          {
            var codec := RtpMap(ls[i]).value.1;
            assert RtpMap(ls[i]) == Some((RtpMap(ls[i]).value.0, codec));
          }
          assert Offers(offered, ls[n - 1]) && RtpMap(ls[n - 1]) == Some((pt, RtpMap(line).value.1));
        }
      }
    }
  }

  lemma {:induction false} MappedAreOffered(ls: seq<string>, offered: seq<string>, n: nat)
    requires n <= |ls|
    requires Mappings(ls, offered, n).Some?
    ensures forall pt :: pt in Mappings(ls, offered, n).value ==> pt in offered && Payload(pt)
  {
    hide RtpMap;
    if n > 0 {
      MappedAreOffered(ls, offered, n - 1);
    }
  }

  // Something is kept exactly when some payload is mapped to the selected codec itself.
  lemma {:induction false} CarriedFromSelected(ls: seq<string>, mappings: map<string, string>, selected: string, n: nat, pt: string)
    requires n <= |ls|
    requires Carries(ls, mappings, selected, n, pt)
    ensures exists q :: q in mappings && mappings[q] == selected
    decreases n
  {
    hide FmtpApt;
    if !(pt in mappings && mappings[pt] == selected) {
      var i :| 0 <= i < n && Links(ls[i], mappings, pt) && Carries(ls, mappings, selected, i, FmtpApt(ls[i]).value.1);
      CarriedFromSelected(ls, mappings, selected, i, FmtpApt(ls[i]).value.1);
    }
  }

  lemma SectionPasses(section: string, selected: string)
    ensures RestrictSection(section, selected).Passed? <==> (ActiveVideo(section) ==> Negotiable(section, selected))
  {
    hide RtpMap, FmtpApt, Lines, Media;
    var ls := Lines(section);
    var mappings := Mappings(ls, Rest(Media(section)), |ls|);
    if ActiveVideo(section) && mappings.Some? {
      var m := mappings.value;
      var keep := Keep(ls, m, selected);
      if pt :| pt in m && m[pt] == selected {
        assert Carries(ls, m, selected, |ls|, pt);
        assert pt in keep;
      }
      if pt :| pt in keep {
        CarriedFromSelected(ls, m, selected, |ls|, pt);
      }
    }
  }

  lemma {:induction false} SectionsPass(ss: seq<string>, selected: string, n: nat)
    requires n <= |ss|
    ensures RestrictSections(ss, selected, n).Passed? <==>
            forall i :: 0 <= i < n && ActiveVideo(ss[i]) ==> Negotiable(ss[i], selected)
    ensures RestrictSections(ss, selected, n).Passed? ==> forall i :: 0 <= i < n ==>
              RestrictSection(ss[i], selected) == Passed(RestrictSections(ss, selected, n).value[i])
  {
    hide RestrictSection, ActiveVideo, Negotiable;
    if n > 0 {
      SectionsPass(ss, selected, n - 1);
      SectionPasses(ss[n - 1], selected);
    }
  }

  ghost predicate OnlyActive(ss: seq<string>, n: nat, k: nat)
    requires n <= |ss|
  {
    k < n && ActiveVideo(ss[k]) && forall i :: 0 <= i < n && ActiveVideo(ss[i]) ==> i == k
  }

  lemma {:induction false} OneIsActive(ss: seq<string>, n: nat)
    requires n <= |ss|
    ensures ActiveCount(ss, n) == 0 <==> forall i :: 0 <= i < n ==> !ActiveVideo(ss[i])
    ensures ActiveCount(ss, n) == 1 <==> exists k: nat :: OnlyActive(ss, n, k)
  {
    hide ActiveVideo;
    if n > 0 {
      var m := n - 1;
      OneIsActive(ss, m);
      if ActiveVideo(ss[m]) {
        assert ActiveCount(ss, m) == 0 ==> OnlyActive(ss, n, m);
        if k: nat :| OnlyActive(ss, n, k) {
          assert k == m;
        }
      } else {
        if k: nat :| OnlyActive(ss, m, k) {
          assert OnlyActive(ss, n, k);
        }
        if k: nat :| OnlyActive(ss, n, k) {
          assert OnlyActive(ss, m, k);
        }
      }
    }
  }

  ghost predicate OneNegotiable(ss: seq<string>, name: string) {
    exists k: nat :: OnlyActive(ss, |ss|, k) && Negotiable(ss[k], name)
  }

  lemma SectionsSucceed(ss: seq<string>, name: string)
    ensures RestrictSections(ss, name, |ss|).Passed? && ActiveCount(ss, |ss|) == 1 <==> OneNegotiable(ss, name)
  {
    hide ActiveVideo, Negotiable, RestrictSections, ActiveCount, RestrictSection;
    SectionsPass(ss, name, |ss|);
    OneIsActive(ss, |ss|);
    if ActiveCount(ss, |ss|) == 1 {
      var k: nat :| OnlyActive(ss, |ss|, k);
      assert RestrictSections(ss, name, |ss|).Passed? <==> Negotiable(ss[k], name);
    }
  }

  // Restricting succeeds exactly on a description of acceptable size with one active video section,
  // whose payload mapping is unambiguous and maps some offered payload to the selected codec.
  lemma RestrictSucceeds(sdp: string, selected: VideoCodec)
    ensures Restrict(sdp, selected).Passed? <==>
            |sdp| <= MAX_SDP && "v=0" <= sdp && OneNegotiable(Sections(Collapse(sdp)), Name(selected))
  {
    hide OneNegotiable, Sections, RestrictSections, ActiveCount, Expand, Concat, Name, Collapse;
    SectionsSucceed(Sections(Collapse(sdp)), Name(selected));
  }

  // ... and replaces the active section, and nothing else.
  lemma RestrictReplaces(sdp: string, selected: VideoCodec) returns (k: nat)
    requires Restrict(sdp, selected).Passed?
    ensures OnlyActive(Sections(Collapse(sdp)), |Sections(Collapse(sdp))|, k)
    ensures RestrictSection(Sections(Collapse(sdp))[k], Name(selected)).Passed?
    ensures Restrict(sdp, selected).value ==
            Expand(Concat(Sections(Collapse(sdp))[k := RestrictSection(Sections(Collapse(sdp))[k], Name(selected)).value]))
  {
    hide ActiveVideo, Negotiable, Sections, RestrictSection;
    var ss := Sections(Collapse(sdp));
    var name := Name(selected);
    SectionsPass(ss, name, |ss|);
    OneIsActive(ss, |ss|);
    k :| OnlyActive(ss, |ss|, k);
    var filtered := RestrictSections(ss, name, |ss|).value;
    forall i | 0 <= i < |ss|
      ensures filtered[i] == ss[k := RestrictSection(ss[k], name).value][i]
    {
      assert RestrictSection(ss[i], name) == Passed(filtered[i]);
      if i != k {
        InactiveStays(ss[i], name);
      }
    }
    assert filtered == ss[k := RestrictSection(ss[k], name).value];
  }

  // ---- what is kept ----

  ghost predicate Increasing(at: seq<nat>, n: nat) {
    (forall i, j :: 0 <= i < j < |at| ==> at[i] < at[j]) && forall k :: 0 <= k < |at| ==> at[k] < n
  }

  // `chain` starts with a payload of the selected codec, and line at[k] declares chain[k + 1] to be
  // the retransmission of chain[k].
  ghost predicate AptChain(ls: seq<string>, mappings: map<string, string>, selected: string, chain: seq<string>, at: seq<nat>,
                           pt: string)
    requires Increasing(at, |ls|)
  {
    && |chain| == |at| + 1 && chain[|at|] == pt
    && chain[0] in mappings && mappings[chain[0]] == selected
    && forall k :: 0 <= k < |at| ==> Links(ls[at[k]], mappings, chain[k + 1]) && FmtpApt(ls[at[k]]).value.1 == chain[k]
  }

  // A payload is kept exactly when a chain of apt declarations, each on a later line than the one
  // before, leads from a payload of the selected codec to it.
  lemma KeptByChain(ls: seq<string>, mappings: map<string, string>, selected: string, pt: string)
    ensures pt in Keep(ls, mappings, selected) <==>
            exists chain, at :: Increasing(at, |ls|) && AptChain(ls, mappings, selected, chain, at, pt)
  {
    hide FmtpApt, Links, AptChain, Increasing;
    if Carries(ls, mappings, selected, |ls|, pt) {
      var chain, at := ChainOf(ls, mappings, selected, |ls|, pt);
      CarriersAreMapped(ls, mappings, selected, |ls|, pt);
      assert Increasing(at, |ls|) && AptChain(ls, mappings, selected, chain, at, pt);
    }
    if chain, at :| Increasing(at, |ls|) && AptChain(ls, mappings, selected, chain, at, pt) {
      ChainCarries(ls, mappings, selected, chain, at, |ls|, pt);
      CarriersAreMapped(ls, mappings, selected, |ls|, pt);
    }
  }

  lemma {:induction false} ChainOf(ls: seq<string>, mappings: map<string, string>, selected: string, n: nat, pt: string)
    returns (chain: seq<string>, at: seq<nat>)
    requires n <= |ls| && Carries(ls, mappings, selected, n, pt)
    ensures Increasing(at, n) && AptChain(ls, mappings, selected, chain, at, pt)
    decreases n
  {
    hide FmtpApt;
    if pt in mappings && mappings[pt] == selected {
      chain, at := [pt], [];
    } else {
      var i :| 0 <= i < n && Links(ls[i], mappings, pt) && Carries(ls, mappings, selected, i, FmtpApt(ls[i]).value.1);
      var before, prior := ChainOf(ls, mappings, selected, i, FmtpApt(ls[i]).value.1);
      chain, at := before + [pt], prior + [i];
    }
  }

  lemma {:induction false} ChainCarries(ls: seq<string>, mappings: map<string, string>, selected: string,
                                        chain: seq<string>, at: seq<nat>, n: nat, pt: string)
    requires n <= |ls| && Increasing(at, n) && AptChain(ls, mappings, selected, chain, at, pt)
    ensures Carries(ls, mappings, selected, n, pt)
    decreases |at|
  {
    hide FmtpApt;
    if at != [] {
      var last := at[|at| - 1];
      assert Links(ls[last], mappings, pt);
      ChainCarries(ls, mappings, selected, chain[..|at|], at[..|at| - 1], last, chain[|at| - 1]);
    }
  }

  // The lines kept, in their order, are exactly those that speak of no payload or of a kept one.
  lemma {:induction false} KeptLinesAre(ls: seq<string>, keep: set<string>) returns (at: seq<nat>)
    ensures Increasing(at, |ls|) && |at| == |KeptLines(ls, keep)|
    ensures forall k :: 0 <= k < |at| ==> KeptLines(ls, keep)[k] == ls[at[k]]
    ensures forall i: nat :: i in at <==> i < |ls| && Kept(ls[i], keep)
  {
    hide Kept;
    at := [];
    if ls != [] {
      var front := ls[..|ls| - 1];
      var line := ls[|ls| - 1];
      at := KeptLinesAre(front, keep);
      KeptLinesSnoc(front, line, keep);
      assert front + [line] == ls;
      assert forall i :: i in at ==> i < |front|;
      if Kept(line, keep) {
        at := at + [|ls| - 1];
      }
    }
  }

  // ---- what the rewritten section reads as ----

  lemma KeptPayloadsAre(pts: seq<string>, keep: set<string>)
    requires forall pt :: pt in keep ==> Payload(pt)
    ensures forall i :: 0 <= i < |KeptPayloads(pts, keep)| ==>
              KeptPayloads(pts, keep)[i] != [] && Word(KeptPayloads(pts, keep)[i])
  {
    var kp := KeptPayloads(pts, keep);
    forall i | 0 <= i < |kp|
      ensures kp[i] != [] && Word(kp[i])
    {
      assert kp[i] in kp;
      assert Payload(kp[i]);
    }
  }

  lemma KeepFacts(section: string, mappings: map<string, string>, selected: string)
    requires Mappings(Lines(section), Rest(Media(section)), |Lines(section)|) == Some(mappings)
    ensures forall pt :: pt in Keep(Lines(section), mappings, selected) ==> pt in Rest(Media(section)) && Payload(pt)
  {
    hide Lines, Media, RtpMap, FmtpApt, Carries, Payload;
    MappedAreOffered(Lines(section), Rest(Media(section)), |Lines(section)|);
  }

  // The new media line: the three leading tokens, then the kept payloads in their old order.
  lemma NewMediaLine(section: string, mappings: map<string, string>, selected: string, keep: set<string>)
    requires "m=video " <= section
    requires Mappings(Lines(section), Rest(Media(section)), |Lines(section)|) == Some(mappings)
    requires keep == Keep(Lines(section), mappings, selected) != {}
    ensures |Media(section)| > 3
    ensures Tokens(MediaLine(Media(section), keep)) == Head(Media(section)) + KeptPayloads(Rest(Media(section)), keep)
    ensures "m=video " <= MediaLine(Media(section), keep)
    ensures forall i :: 0 <= i < |MediaLine(Media(section), keep)| ==> !Break(MediaLine(Media(section), keep)[i])
    ensures !IsSpace(MediaLine(Media(section), keep)[|MediaLine(Media(section), keep)| - 1])
  {
    hide RtpMap, FmtpApt, Carries, Lines, Payload;
    var media := Media(section);
    MediaLineKept(section, keep);
    KeepFacts(section, mappings, selected);
    var some :| some in keep;
    assert some in Rest(media);
    var kp := KeptPayloads(Rest(media), keep);
    assert some in kp;
    KeptPayloadsAre(Rest(media), keep);
    var ts := Head(media) + kp;
    assert |ts| >= 4 && ts[0] == "m=video";
    TokensAreWords(Lines(section)[0]);
    forall i | 0 <= i < |ts|
      ensures ts[i] != [] && Word(ts[i])
    {
      if i < 3 {
        assert ts[i] == media[i];
      } else {
        assert ts[i] == kp[i - 3];
      }
    }
    TokensOfJoin(ts);
    JoinTokensNoBreak(ts);
    var line := JoinTokens(ts);
    assert line == ts[0] + [' '] + JoinTokens(ts[1..]);
    assert "m=video " == "m=video" + [' '];
  }

  lemma TokensAreWords(s: string)
    ensures forall i :: 0 <= i < |Tokens(s)| ==> Word(Tokens(s)[i])
    ensures forall i :: 0 < i < |Tokens(s)| - 1 ==> Tokens(s)[i] != []
  {
    forall i | 0 <= i < |Tokens(s)|
      ensures Word(Tokens(s)[i])
    {
      assert Tokens(s)[i] in Tokens(s);
    }
  }

  // However the joined lines are trimmed, the first one survives when it ends in a visible character.
  lemma FirstLineSurvives(ls: seq<string>)
    requires |ls| >= 1 && ls[0] != [] && '\n' !in ls[0] && !IsSpace(ls[0][|ls[0]| - 1])
    ensures Lines(JoinLines(ls) + ['\n'])[0] == ls[0]
  {
    hide IsSpace, TrimEnd, FirstNewline;
    var l := ls[0];
    var rest := if |ls| == 1 then [] else JoinLines(ls[1..]) + ['\n'];
    var t := JoinLines(ls) + ['\n'];
    assert t == l + (['\n'] + rest);
    hide JoinLines;
    StartOf(l, ['\n'] + rest, TrimEnd(t));
  }

  lemma StartOf(l: string, rest: string, u: string)
    requires l != [] && '\n' !in l && !IsSpace(l[|l| - 1]) && rest != [] && rest[0] == '\n'
    requires u == TrimEnd(l + rest)
    ensures |u| >= |l| && u[..|l|] == l && FirstNewline(u, 0) == |l|
  {
    hide IsSpace, TrimEnd;
    var t := l + rest;
    assert t[|l| - 1] == l[|l| - 1];
    assert !IsSpace(t[|l| - 1]);
    assert |u| >= |l|;
    assert u[..|l|] == l by {
      assert forall k :: 0 <= k < |l| ==> u[k] == t[k] == l[k];
    }
    FirstAfter(u, l);
  }

  lemma FirstAfter(u: string, l: string)
    requires l <= u && '\n' !in l && (|u| > |l| ==> u[|l|] == '\n')
    ensures FirstNewline(u, 0) == |l|
  {
    assert forall k :: 0 <= k < |l| ==> u[k] == l[k] != '\n';
  }

  ghost predicate EndsVisibly(ls: seq<string>) {
    |ls| >= 1 && ls[|ls| - 1] != [] && !IsSpace(ls[|ls| - 1][|ls[|ls| - 1]| - 1])
  }

  lemma {:induction false} JoinLinesEnds(ls: seq<string>)
    requires |ls| >= 1 && (|ls| > 1 || ls[0] != [])
    ensures JoinLines(ls) != []
    ensures EndsVisibly(ls) <==> !IsSpace(JoinLines(ls)[|JoinLines(ls)| - 1])
  {
    if |ls| > 1 {
      var j := JoinLines(ls);
      if ls[1] == [] && |ls| == 2 {
        assert JoinLines(ls[1..]) == [];
        assert j[|j| - 1] == '\n';
      } else {
        JoinLinesEnds(ls[1..]);
        var r := JoinLines(ls[1..]);
        assert j[|j| - 1] == r[|r| - 1];
      }
    }
  }

  lemma LinesOfJoined(ls: seq<string>)
    requires |ls| >= 1 && ls[0] != [] && EndsVisibly(ls)
    requires forall i :: 0 <= i < |ls| ==> '\n' !in ls[i]
    ensures Lines(JoinLines(ls) + ['\n']) == ls
  {
    JoinLinesEnds(ls);
    var j := JoinLines(ls);
    var t := j + ['\n'];
    assert t[..|t| - 1] == j;
    assert TrimEnd(t) == TrimEnd(j) == j;
    SplitJoin(ls);
  }
}
