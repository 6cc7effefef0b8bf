// Restricting a restricted description again. The result is the same exactly when it fits the
// size limit and the last line kept of the video section ends visibly: the second pass trims the
// end of that section, and a line that was not last before may have become last.
module CodecPolicyTwice {
  import opened Wrappers
  import opened Texts
  import opened SdpText
  import opened CodecPolicies
  import opened CodecPolicyLaws

  // ---- filtering lines and payloads once is filtering them twice ----

  lemma {:induction false} KeptLinesTwice(ls: seq<string>, keep: set<string>)
    ensures KeptLines(KeptLines(ls, keep), keep) == KeptLines(ls, keep)
    ensures forall i :: 0 <= i < |KeptLines(ls, keep)| ==> KeptLines(ls, keep)[i] in ls
  {
    hide Kept;
    if ls != [] {
      KeptLinesTwice(ls[1..], keep);
      var k := KeptLines(ls[1..], keep);
      assert ([ls[0]] + k)[1..] == k && [] + k == k;
    }
  }

  lemma {:induction false} KeptPayloadsTwice(pts: seq<string>, keep: set<string>)
    ensures KeptPayloads(KeptPayloads(pts, keep), keep) == KeptPayloads(pts, keep)
  {
    if pts != [] {
      KeptPayloadsTwice(pts[1..], keep);
      var k := KeptPayloads(pts[1..], keep);
      assert ([pts[0]] + k)[1..] == k && [] + k == k;
    }
  }

  // ---- the payload map of the kept lines ----

  lemma {:induction false} MappingsPrefix(a: seq<string>, b: seq<string>, offered: seq<string>, n: nat)
    requires n <= |a|
    ensures Mappings(a + b, offered, n) == Mappings(a, offered, n)
  {
    hide Offers, RtpMap;
    if n > 0 {
      MappingsPrefix(a, b, offered, n - 1);
    }
  }

  lemma {:induction false} MappingsFirstLine(ls: seq<string>, line: string, offered: seq<string>, n: nat)
    requires n <= |ls| && |ls| >= 1
    requires RtpMap(ls[0]).None? && RtpMap(line).None?
    ensures Mappings(ls[0 := line], offered, n) == Mappings(ls, offered, n)
  {
    hide RtpMap;
    if n > 0 {
      MappingsFirstLine(ls, line, offered, n - 1);
    }
  }

  function Restricted(m: map<string, string>, keep: set<string>): map<string, string> {
    map pt | pt in m && pt in keep :: m[pt]
  }

  lemma {:induction false} MappingsOfKept(ls: seq<string>, offered: seq<string>, less: seq<string>, keep: set<string>, n: nat)
    requires n <= |ls|
    requires Mappings(ls, offered, n).Some?
    requires forall pt :: pt in less <==> pt in offered && pt in keep
    ensures Mappings(KeptLines(ls[..n], keep), less, |KeptLines(ls[..n], keep)|)
            == Some(Restricted(Mappings(ls, offered, n).value, keep))
  {
    hide RtpMap, Tag;
    if n == 0 {
      assert Restricted(map[], keep) == map[];
    } else {
      var line := ls[n - 1];
      var k := KeptLines(ls[..n - 1], keep);
      MappingsOfKept(ls, offered, less, keep, n - 1);
      assert ls[..n] == ls[..n - 1] + [line];
      KeptLinesSnoc(ls[..n - 1], line, keep);
      TagAgrees(line);
      var before := Mappings(ls, offered, n - 1).value;
      var after := Mappings(ls, offered, n).value;
      if Kept(line, keep) {
        MappingsPrefix(k, [line], less, |k|);
        assert (k + [line])[|k|] == line;
        if Offers(less, line) {
          assert Restricted(after, keep) == Restricted(before, keep)[RtpMap(line).value.0 := RtpMap(line).value.1];
        } else {
          assert Restricted(after, keep) == Restricted(before, keep);
        }
      } else {
        assert k + [] == k;
        assert Restricted(after, keep) == Restricted(before, keep);
      }
    }
  }

  // ---- the payloads carried by the kept lines ----

  lemma {:induction false} CarriesPrefix(a: seq<string>, b: seq<string>, m: map<string, string>, selected: string, n: nat, pt: string)
    requires n <= |a|
    ensures Carries(a + b, m, selected, n, pt) <==> Carries(a, m, selected, n, pt)
    decreases n
  {
    hide FmtpApt;
    if n > 0 {
      hide Carries;
      assert (a + b)[n - 1] == a[n - 1];
      CarriesStep(a + b, m, selected, n - 1, pt);
      CarriesStep(a, m, selected, n - 1, pt);
      CarriesPrefix(a, b, m, selected, n - 1, pt);
      if Links(a[n - 1], m, pt) {
        CarriesPrefix(a, b, m, selected, n - 1, FmtpApt(a[n - 1]).value.1);
      }
    }
  }

  lemma {:induction false} CarriesFirstLine(ls: seq<string>, line: string, m: map<string, string>, selected: string, n: nat, pt: string)
    requires n <= |ls| && |ls| >= 1
    requires FmtpApt(ls[0]).None? && FmtpApt(line).None?
    ensures Carries(ls[0 := line], m, selected, n, pt) <==> Carries(ls, m, selected, n, pt)
    decreases n
  {
    hide FmtpApt;
    if n > 0 {
      var u := ls[0 := line];
      CarriesStep(u, m, selected, n - 1, pt);
      CarriesStep(ls, m, selected, n - 1, pt);
      CarriesFirstLine(ls, line, m, selected, n - 1, pt);
      if Links(ls[n - 1], m, pt) {
        CarriesFirstLine(ls, line, m, selected, n - 1, FmtpApt(ls[n - 1]).value.1);
      }
    }
  }

  lemma {:induction false} CarriesGrows(ls: seq<string>, m: map<string, string>, selected: string, n: nat, k: nat, pt: string)
    requires n <= k <= |ls|
    requires Carries(ls, m, selected, n, pt)
    ensures Carries(ls, m, selected, k, pt)
    decreases k
  {
    hide Links;
    if n < k {
      CarriesGrows(ls, m, selected, n, k - 1, pt);
      CarriesStep(ls, m, selected, k - 1, pt);
    }
  }

  lemma {:induction false} CarriesOfKept(ls: seq<string>, m: map<string, string>, selected: string, keep: set<string>, n: nat, pt: string)
    requires n <= |ls|
    requires keep == Keep(ls, m, selected)
    ensures Carries(KeptLines(ls[..n], keep), Restricted(m, keep), selected, |KeptLines(ls[..n], keep)|, pt)
            <==> Carries(ls, m, selected, n, pt)
    decreases n
  {
    hide FmtpApt, Tag;
    var less := Restricted(m, keep);
    if n == 0 {
      if pt in m && m[pt] == selected {
        assert Carries(ls, m, selected, |ls|, pt);
      }
    } else {
      var line := ls[n - 1];
      var k := KeptLines(ls[..n - 1], keep);
      assert ls[..n] == ls[..n - 1] + [line];
      KeptLinesSnoc(ls[..n - 1], line, keep);
      CarriesStep(ls, m, selected, n - 1, pt);
      CarriesOfKept(ls, m, selected, keep, n - 1, pt);
      TagAgrees(line);
      var linked := Links(line, m, pt) && Carries(ls, m, selected, n - 1, FmtpApt(line).value.1);
      if linked {
        CarriesGrows(ls, m, selected, n, |ls|, pt);
        assert pt in keep;
      }
      if Kept(line, keep) {
        assert (k + [line])[|k|] == line;
        CarriesStep(k + [line], less, selected, |k|, pt);
        CarriesPrefix(k, [line], less, selected, |k|, pt);
        if Links(line, m, pt) {
          CarriesPrefix(k, [line], less, selected, |k|, FmtpApt(line).value.1);
          CarriesOfKept(ls, m, selected, keep, n - 1, FmtpApt(line).value.1);
        }
      } else {
        assert k + [] == k;
        assert !linked;
      }
    }
  }

  lemma KeepOfKept(ls: seq<string>, m: map<string, string>, selected: string, keep: set<string>)
    requires keep == Keep(ls, m, selected)
    ensures Keep(KeptLines(ls, keep), Restricted(m, keep), selected) == keep
  {
    hide Carries, KeptLines;
    assert ls[..|ls|] == ls;
    forall pt
      ensures pt in Keep(KeptLines(ls, keep), Restricted(m, keep), selected) <==> pt in keep
    {
      CarriesOfKept(ls, m, selected, keep, |ls|, pt);
    }
  }

  // ---- one section, restricted twice ----

  // The lines the second pass starts from: the first pass changed only the media line.
  ghost function Rewritten(section: string, keep: set<string>): (ls: seq<string>)
    ensures |ls| >= 1
  {
    Lines(section)[0 := MediaLine(Media(section), keep)]
  }

  lemma FirstLinesAreBare(section: string, keep: set<string>)
    requires "m=video " <= section
    ensures RtpMap(Lines(section)[0]).None? && FmtpApt(Lines(section)[0]).None?
    ensures RtpMap(Rewritten(section, keep)[0]).None? && FmtpApt(Rewritten(section, keep)[0]).None?
  {
    hide RtpMap, FmtpApt, Tag, Lines;
    FirstLineOf(section);
    MediaLineKept(section, keep);
    assert "m=video"[0] == 'm';
    assert Lines(section)[0][0] == 'm' && Rewritten(section, keep)[0][0] == 'm';
    TagAgrees(Lines(section)[0]);
    TagAgrees(Rewritten(section, keep)[0]);
  }

  lemma KeepOfRewritten(section: string, m: map<string, string>, selected: string, keep: set<string>)
    requires "m=video " <= section
    requires keep == Keep(Lines(section), m, selected)
    ensures Keep(Rewritten(section, keep), m, selected) == keep
  {
    hide RtpMap, FmtpApt, Carries, Lines, Media;
    FirstLinesAreBare(section, keep);
    forall pt
      ensures pt in Keep(Rewritten(section, keep), m, selected) <==> pt in keep
    {
      CarriesFirstLine(Lines(section), MediaLine(Media(section), keep), m, selected, |Lines(section)|, pt);
    }
  }

  // What the first pass leaves, read the way the second pass reads it.
  lemma RewrittenReads(section: string, m: map<string, string>, selected: string, keep: set<string>, ls: seq<string>)
    requires ActiveVideo(section)
    requires Mappings(Lines(section), Rest(Media(section)), |Lines(section)|) == Some(m)
    requires keep == Keep(Lines(section), m, selected) != {}
    requires ls == RestrictedLines(section, m, selected)
    ensures |ls| >= 1 && ls[0] == MediaLine(Media(section), keep)
    ensures ls == KeptLines(Rewritten(section, keep), keep)
    ensures ActiveVideo(JoinLines(ls) + ['\n'])
    ensures Media(JoinLines(ls) + ['\n']) == Head(Media(section)) + KeptPayloads(Rest(Media(section)), keep)
    ensures |Media(section)| > 3
    ensures Mappings(ls, KeptPayloads(Rest(Media(section)), keep), |ls|) == Some(Restricted(m, keep))
    ensures Keep(ls, Restricted(m, keep), selected) == keep
  {
    hide RtpMap, FmtpApt, Carries, Payload, MediaLine, Offers, TrimEnd, Lines, Mappings, Kept;
    RestrictedLinesNonempty(section, m, selected);
    NewMediaLine(section, m, selected, keep);
    FirstLinesAreBare(section, keep);
    KeepOfRewritten(section, m, selected, keep);
    var line := MediaLine(Media(section), keep);
    var out := JoinLines(ls) + ['\n'];
    assert '\n' !in line;
    FirstLineSurvives(ls);
    assert Media(out) == Tokens(line);
    assert line <= out;
    var all := Rewritten(section, keep);
    var offered := Rest(Media(section));
    MappingsFirstLine(Lines(section), line, offered, |all|);
    MappingsOfKept(all, offered, KeptPayloads(offered, keep), keep, |all|);
    assert all[..|all|] == all;
    KeepOfKept(all, m, selected, keep);
  }

  lemma LinesHaveNoNewline(section: string, m: map<string, string>, selected: string, keep: set<string>, ls: seq<string>)
    requires "m=video " <= section
    requires Mappings(Lines(section), Rest(Media(section)), |Lines(section)|) == Some(m)
    requires keep == Keep(Lines(section), m, selected) != {}
    requires ls == RestrictedLines(section, m, selected)
    ensures forall i :: 0 <= i < |ls| ==> '\n' !in ls[i]
  {
    hide RtpMap, FmtpApt, Carries, Payload, MediaLine, Kept, Mappings, TrimEnd, Tokens;
    NewMediaLine(section, m, selected, keep);
    var all := Rewritten(section, keep);
    KeptLinesTwice(all, keep);
    forall l | l in all
      ensures '\n' !in l
    {
      var i :| 0 <= i < |all| && l == all[i];
      if i > 0 {
        assert l == Lines(section)[i];
      }
    }
  }

  // When the last kept line ends visibly the second pass changes nothing.
  lemma SectionSettles(section: string, m: map<string, string>, selected: string, keep: set<string>, ls: seq<string>)
    requires ActiveVideo(section)
    requires Mappings(Lines(section), Rest(Media(section)), |Lines(section)|) == Some(m)
    requires keep == Keep(Lines(section), m, selected) != {}
    requires ls == RestrictedLines(section, m, selected)
    requires EndsVisibly(ls)
    ensures RestrictSection(JoinLines(ls) + ['\n'], selected) == Passed(JoinLines(ls) + ['\n'])
  {
    hide RtpMap, FmtpApt, Carries, Payload, Offers, TrimEnd, Mappings, Kept, Media, Lines, ActiveVideo, Keep;
    ActiveStarts(section);
    RewrittenReads(section, m, selected, keep, ls);
    NewMediaLine(section, m, selected, keep);
    var out := JoinLines(ls) + ['\n'];
    LinesHaveNoNewline(section, m, selected, keep, ls);
    LinesOfJoined(ls);
    var kp := KeptPayloads(Rest(Media(section)), keep);
    assert Head(Media(out)) == Head(Media(section)) && Rest(Media(out)) == kp;
    KeptPayloadsTwice(Rest(Media(section)), keep);
    assert MediaLine(Media(out), keep) == ls[0];
    assert ls[0 := ls[0]] == ls;
    KeptLinesTwice(Rewritten(section, keep), keep);
    assert RestrictedLines(out, Restricted(m, keep), selected) == ls;
    assert ActiveVideo(out);
    RestrictSectionOf(out, Restricted(m, keep), selected);
  }

  lemma RestrictSectionOf(section: string, m: map<string, string>, selected: string)
    requires ActiveVideo(section)
    requires Mappings(Lines(section), Rest(Media(section)), |Lines(section)|) == Some(m)
    requires Keep(Lines(section), m, selected) != {}
    ensures |RestrictedLines(section, m, selected)| >= 1
    ensures RestrictSection(section, selected) == Passed(JoinLines(RestrictedLines(section, m, selected)) + ['\n'])
  {
    hide Keep, Lines, Media, Mappings, RestrictedLines;
    assert "m=video " <= section;
    RestrictedLinesNonempty(section, m, selected);
  }

  // ---- the second pass never lengthens ----

  lemma {:induction false} KeptPayloadsShorter(pts: seq<string>, keep: set<string>)
    ensures |JoinTokens(KeptPayloads(pts, keep))| <= |JoinTokens(pts)|
    ensures KeptPayloads(pts, keep) != [] ==> pts != []
  {
    if pts != [] {
      KeptPayloadsShorter(pts[1..], keep);
      var k := KeptPayloads(pts[1..], keep);
      assert ([pts[0]] + k)[1..] == k && [] + k == k;
    }
  }

  lemma {:induction false} JoinTokensAppend(a: seq<string>, b: seq<string>)
    ensures |JoinTokens(a + b)| == |JoinTokens(a)| + |JoinTokens(b)| + (if a != [] && b != [] then 1 else 0)
  {
    if a == [] {
      assert a + b == b;
    } else {
      JoinTokensAppend(a[1..], b);
      assert (a + b)[1..] == a[1..] + b;
      if |a| == 1 {
        assert a[1..] + b == b;
      }
    }
  }

  lemma MediaLineShorter(section: string, keep: set<string>)
    ensures |MediaLine(Media(section), keep)| <= |Lines(section)[0]|
  {
    hide Lines;
    var media := Media(section);
    TokensNeverLonger(Lines(section)[0]);
    KeptPayloadsShorter(Rest(media), keep);
    JoinTokensAppend(Head(media), Rest(media));
    JoinTokensAppend(Head(media), KeptPayloads(Rest(media), keep));
    assert Head(media) + Rest(media) == media;
  }

  lemma {:induction false} KeptLinesShorter(ls: seq<string>, keep: set<string>)
    requires |ls| >= 1
    ensures KeptLines(ls, keep) != [] ==> |JoinLines(KeptLines(ls, keep))| <= |JoinLines(ls)|
  {
    hide Kept;
    if |ls| == 1 {
      assert KeptLines(ls[1..], keep) == [];
    } else {
      KeptLinesShorter(ls[1..], keep);
      var k := KeptLines(ls[1..], keep);
      assert ([ls[0]] + k)[1..] == k && [] + k == k;
    }
  }

  lemma SectionNotLonger(section: string, selected: string)
    requires ActiveVideo(section) && RestrictSection(section, selected).Passed?
    ensures |RestrictSection(section, selected).value| <= |TrimEnd(section)| + 1
  {
    hide Keep, Media, Mappings, MediaLine, Kept, TrimEnd, SplitLines, ActiveVideo;
    var ls := Lines(section);
    var m := Mappings(ls, Rest(Media(section)), |ls|).value;
    var keep := Keep(ls, m, selected);
    assert "m=video " <= section by {
      ActiveStarts(section);
    }
    RestrictSectionOf(section, m, selected);
    MediaLineShorter(section, keep);
    var all := Rewritten(section, keep);
    KeptLinesShorter(all, keep);
    assert all[1..] == ls[1..];
    assert |JoinLines(all)| <= |JoinLines(ls)|;
    JoinSplit(TrimEnd(section));
  }

  lemma ActiveStarts(section: string)
    requires ActiveVideo(section)
    ensures "m=video " <= section
  {
  }

  // ---- the whole description, restricted twice ----

  // The lines kept of the active section k.
  ghost function KeptOf(section: string, selected: string): seq<string> {
    var m := Mappings(Lines(section), Rest(Media(section)), |Lines(section)|);
    if m.None? then [] else RestrictedLines(section, m.value, selected)
  }

  // What the first pass puts in place of an active section is again a whole media section.
  lemma NewSection(section: string, selected: string)
    requires ActiveVideo(section) && RestrictSection(section, selected).Passed?
    requires NoStart(section)
    ensures |KeptOf(section, selected)| >= 1 && KeptOf(section, selected)[0] != []
    ensures RestrictSection(section, selected).value == JoinLines(KeptOf(section, selected)) + ['\n']
    ensures ActiveVideo(RestrictSection(section, selected).value)
    ensures NoStart(RestrictSection(section, selected).value)
    ensures MediaStart(RestrictSection(section, selected).value)
    ensures EndsVisibly(KeptOf(section, selected)) ==>
              RestrictSection(RestrictSection(section, selected).value, selected) == RestrictSection(section, selected)
  {
    hide RtpMap, FmtpApt, Carries, Payload, Offers, TrimEnd, Mappings, Kept, Media, Lines, ActiveVideo, Keep, NoStart, MediaLine, EndsVisibly;
    ActiveStarts(section);
    var m := Mappings(Lines(section), Rest(Media(section)), |Lines(section)|).value;
    var keep := Keep(Lines(section), m, selected);
    var ls := RestrictedLines(section, m, selected);
    RestrictSectionOf(section, m, selected);
    RewrittenReads(section, m, selected, keep, ls);
    NewMediaLine(section, m, selected, keep);
    ActiveStarts(JoinLines(ls) + ['\n']);
    if EndsVisibly(ls) {
      SectionSettles(section, m, selected, keep, ls);
    }
    KeptWithoutStart(section, keep);
    JoinedWithoutStart(ls);
  }

  lemma KeptWithoutStart(section: string, keep: set<string>)
    requires NoStart(section) && "m=video " <= section
    requires forall i :: 0 <= i < |MediaLine(Media(section), keep)| ==> !Break(MediaLine(Media(section), keep)[i])
    ensures forall l :: l in KeptLines(Rewritten(section, keep), keep) ==> NoStart(l)
    ensures forall i :: 0 < i < |KeptLines(Rewritten(section, keep), keep)| ==>
              !MediaStart(KeptLines(Rewritten(section, keep), keep)[i])
  {
    hide Kept, MediaLine, Tokens, TrimEnd, SplitLines;
    var t := TrimEnd(section);
    assert NoStart(t) by {
      forall p | 0 < p < |t|
        ensures !StartsAt(t, p)
      {
        assert !StartsAt(section, p);
      }
    }
    LinesWithoutStart(t);
    var all := Rewritten(section, keep);
    var kept := KeptLines(all, keep);
    KeptLinesTwice(all, keep);
    forall l | l in kept
      ensures NoStart(l)
    {
      var i :| 0 <= i < |all| && all[i] == l;
      assert i > 0 ==> l == Lines(section)[i] && l in Lines(section);
    }
    MediaLineKept(section, keep);
    var rest := KeptLines(all[1..], keep);
    assert kept == [all[0]] + rest;
    KeptLinesTwice(all[1..], keep);
    forall i | 0 < i < |kept|
      ensures !MediaStart(kept[i])
    {
      assert kept[i] == rest[i - 1];
      var j :| 0 <= j < |all[1..]| && all[1..][j] == rest[i - 1];
      assert kept[i] == Lines(section)[j + 1];
    }
  }

  lemma {:induction false} ExpandInjective(a: string, b: string)
    requires Expand(a) == Expand(b)
    ensures a == b
  {
    CollapseExpand(a);
    CollapseExpand(b);
  }

  lemma SpliceWellSplit(ss: seq<string>, k: nat, s: string)
    requires WellSplit(ss) && k < |ss|
    requires s != [] && NoStart(s) && MediaStart(s) && s[|s| - 1] == '\n'
    ensures WellSplit(ss[k := s])
  {
    hide NoStart, MediaStart;
  }

  // The sections of the restricted description: those of the original but for the active one.
  lemma SectionsOfRestricted(sdp: string, selected: VideoCodec) returns (k: nat)
    requires Restrict(sdp, selected).Passed?
    ensures OnlyActive(Sections(Collapse(sdp)), |Sections(Collapse(sdp))|, k)
    ensures RestrictSection(Sections(Collapse(sdp))[k], Name(selected)).Passed?
    ensures NoStart(Sections(Collapse(sdp))[k])
    ensures Sections(Collapse(Restrict(sdp, selected).value))
            == Sections(Collapse(sdp))[k := RestrictSection(Sections(Collapse(sdp))[k], Name(selected)).value]
    ensures "v=0" <= Restrict(sdp, selected).value
  {
    hide RestrictSection, Restrict, ActiveVideo, NoStart, KeptOf;
    var t := Collapse(sdp);
    var ss := Sections(t);
    RestrictStarts(sdp, selected);
    SectionsWellSplit(t);
    k := RestrictReplaces(sdp, selected);
    NewSection(ss[k], Name(selected));
    var s := RestrictSection(ss[k], Name(selected)).value;
    SpliceWellSplit(ss, k, s);
    var u := Concat(ss[k := s]);
    SectionsOfConcat(ss[k := s]);
    CollapseExpand(u);
    ActiveStarts(ss[k]);
    HeaderFirst(t, k, s);
    ExpandHeader(u);
  }

  lemma RestrictStarts(sdp: string, selected: VideoCodec)
    requires Restrict(sdp, selected).Passed?
    ensures "v=0" <= Collapse(sdp)
  {
    assert "v=0"[0] == 'v' && "v=0"[1] == '=' && "v=0"[2] == '0';
    assert sdp[0] == 'v' && sdp[1] == '=' && sdp[2] == '0';
    assert sdp[1..][1..] == sdp[2..] && sdp[1..][1..][1..] == sdp[3..];
    assert Collapse(sdp) == ['v'] + Collapse(sdp[1..]);
    assert Collapse(sdp[1..]) == ['='] + Collapse(sdp[1..][1..]);
    assert Collapse(sdp[2..]) == ['0'] + Collapse(sdp[2..][1..]);
  }

  lemma ExpandHeader(t: string)
    requires "v=0" <= t
    ensures "v=0" <= Expand(t)
  {
    assert "v=0"[0] == 'v' && "v=0"[1] == '=' && "v=0"[2] == '0';
    assert t[0] == 'v' && t[1] == '=' && t[2] == '0';
    assert t[1..][1..] == t[2..];
    assert Expand(t) == ['v'] + Expand(t[1..]);
    assert Expand(t[1..]) == ['='] + Expand(t[1..][1..]);
    assert Expand(t[2..]) == ['0'] + Expand(t[2..][1..]);
  }

  // The first section holds the version line and is not a video section.
  lemma HeaderFirst(t: string, k: nat, s: string)
    requires "v=0" <= t
    requires k < |Sections(t)| && "m=video " <= Sections(t)[k]
    ensures "v=0" <= Concat(Sections(t)[k := s])
  {
    var ss := Sections(t);
    SectionsWellSplit(t);
    assert "v=0"[0] == 'v' && "v=0"[1] == '=' && "v=0"[2] == '0' && "m=video "[0] == 'm';
    assert ss[0][0] == 'v';
    assert !StartsAt(t, 1) && !StartsAt(t, 2);
    assert FirstStart(t, 1) >= 3;
    assert "v=0" <= ss[0];
    assert k > 0;
    assert Concat(ss[k := s]) == ss[0] + Concat(ss[k := s][1..]);
  }

  lemma SecondPassShorter(sdp: string, selected: VideoCodec, k: nat, ss: seq<string>)
    requires Restrict(sdp, selected).Passed? && Restrict(Restrict(sdp, selected).value, selected).Passed?
    requires ss == Sections(Collapse(Restrict(sdp, selected).value)) && OnlyActive(ss, |ss|, k)
    requires |TrimEnd(ss[k])| + 1 < |ss[k]|
    ensures Restrict(Restrict(sdp, selected).value, selected) != Restrict(sdp, selected)
  {
    hide RestrictSection, Restrict, ActiveVideo, TrimEnd;
    var out := Restrict(sdp, selected).value;
    var j := RestrictReplaces(out, selected);
    assert j == k;
    SectionNotLonger(ss[k], Name(selected));
    var y := RestrictSection(ss[k], Name(selected)).value;
    ConcatSplice(ss, k, y);
    var i := RestrictReplaces(sdp, selected);
    var s := RestrictSection(Sections(Collapse(sdp))[i], Name(selected)).value;
    var u := Concat(Sections(Collapse(sdp))[i := s]);
    CollapseExpand(u);
    assert Collapse(out) == u;
    SectionsWellSplit(u);
    if Expand(Concat(ss[k := y])) == Expand(u) {
      ExpandInjective(Concat(ss[k := y]), u);
      assert false;
    }
  }

  // Restricting is idempotent exactly when the result is within the size limit and the last line
  // kept of the video section ends in a visible character.
  lemma RestrictTwice(sdp: string, selected: VideoCodec) returns (k: nat)
    requires Restrict(sdp, selected).Passed?
    ensures OnlyActive(Sections(Collapse(sdp)), |Sections(Collapse(sdp))|, k)
    ensures Restrict(Restrict(sdp, selected).value, selected) == Restrict(sdp, selected)
            <==> |Restrict(sdp, selected).value| <= MAX_SDP
                 && EndsVisibly(KeptOf(Sections(Collapse(sdp))[k], Name(selected)))
  {
    hide RestrictSection, ActiveVideo, NoStart, KeptOf, TrimEnd, Sections, Collapse, Expand, Concat, Negotiable;
    var ss := Sections(Collapse(sdp));
    var name := Name(selected);
    k := SectionsOfRestricted(sdp, selected);
    NewSection(ss[k], name);
    var s := RestrictSection(ss[k], name).value;
    var out := Restrict(sdp, selected).value;
    var ss' := ss[k := s];
    assert OnlyActive(ss', |ss'|, k);
    var kept := KeptOf(ss[k], name);
    JoinLinesEnds(kept);
    if EndsVisibly(kept) {
      if |out| <= MAX_SDP {
        SectionPasses(s, name);
        RestrictSucceeds(out, selected);
        var j := RestrictReplaces(out, selected);
        assert j == k;
        assert ss'[k := s] == ss';
        RestrictedIs(sdp, selected, k);
      }
    } else if Restrict(out, selected).Passed? {
      TrimsMore(JoinLines(kept));
      SecondPassShorter(sdp, selected, k, ss');
    }
  }

  lemma TrimsMore(j: string)
    requires j != [] && IsSpace(j[|j| - 1])
    ensures |TrimEnd(j + ['\n'])| + 1 < |j + ['\n']|
  {
    var t := j + ['\n'];
    assert t[..|t| - 1] == j;
    assert TrimEnd(t) == TrimEnd(j) == TrimEnd(j[..|j| - 1]);
  }

  lemma RestrictedIs(sdp: string, selected: VideoCodec, k: nat)
    requires Restrict(sdp, selected).Passed?
    requires OnlyActive(Sections(Collapse(sdp)), |Sections(Collapse(sdp))|, k)
    ensures RestrictSection(Sections(Collapse(sdp))[k], Name(selected)).Passed?
    ensures Restrict(sdp, selected).value ==
            Expand(Concat(Sections(Collapse(sdp))[k := RestrictSection(Sections(Collapse(sdp))[k], Name(selected)).value]))
  {
    hide RestrictSection, Restrict, ActiveVideo, Sections;
    var j := RestrictReplaces(sdp, selected);
  }
}
