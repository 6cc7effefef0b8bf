// Which payloads a restricted section keeps, told by the text of its lines, and a section with a
// retransmission payload and a second codec.
module CodecPolicyMeaning {
  import opened Wrappers
  import opened Texts
  import opened SdpText
  import opened CodecPolicies
  import opened CodecPolicyLaws
  import opened CodecPolicyLines

  // The text of the line declares pt, which is mapped to RTX, to be the retransmission of q.
  ghost predicate DeclaredLink(l: string, mappings: map<string, string>, pt: string, q: string) {
    pt in mappings && mappings[pt] == "RTX" && exists o: nat :: Declares(l, pt, q, o)
  }

  // `chain` starts with a payload of the selected codec, and line at[k] links chain[k + 1] to chain[k].
  ghost predicate DeclaredChain(ls: seq<string>, mappings: map<string, string>, selected: string, chain: seq<string>, at: seq<nat>,
                                pt: string)
    requires Increasing(at, |ls|)
  {
    && |chain| == |at| + 1 && chain[|at|] == pt
    && chain[0] in mappings && mappings[chain[0]] == selected
    && forall k :: 0 <= k < |at| ==> DeclaredLink(ls[at[k]], mappings, chain[k + 1], chain[k])
  }

  lemma SameChain(ls: seq<string>, mappings: map<string, string>, selected: string, chain: seq<string>, at: seq<nat>, pt: string)
    requires Increasing(at, |ls|)
    ensures AptChain(ls, mappings, selected, chain, at, pt) <==> DeclaredChain(ls, mappings, selected, chain, at, pt)
  {
    hide FmtpApt, Declares;
    if |chain| == |at| + 1 {
      forall k | 0 <= k < |at|
        ensures DeclaredLink(ls[at[k]], mappings, chain[k + 1], chain[k]) <==>
                Links(ls[at[k]], mappings, chain[k + 1]) && FmtpApt(ls[at[k]]).value.1 == chain[k]
      {
        FmtpAptReads(ls[at[k]], chain[k + 1], chain[k]);
      }
      if AptChain(ls, mappings, selected, chain, at, pt) {
        forall k | 0 <= k < |at|
          ensures DeclaredLink(ls[at[k]], mappings, chain[k + 1], chain[k])
        {
          assert Links(ls[at[k]], mappings, chain[k + 1]);
        }
      }
      if DeclaredChain(ls, mappings, selected, chain, at, pt) {
        forall k | 0 <= k < |at|
          ensures Links(ls[at[k]], mappings, chain[k + 1]) && FmtpApt(ls[at[k]]).value.1 == chain[k]
        {
          assert DeclaredLink(ls[at[k]], mappings, chain[k + 1], chain[k]);
        }
      }
    }
  }

  // A payload is kept exactly when the text of the lines declares it, through a chain of
  // retransmissions, each on a later line than the one before, for a payload of the selected codec.
  lemma KeptByDeclarations(ls: seq<string>, mappings: map<string, string>, selected: string, pt: string)
    ensures pt in Keep(ls, mappings, selected) <==>
            exists chain, at :: Increasing(at, |ls|) && DeclaredChain(ls, mappings, selected, chain, at, pt)
  {
    hide Keep, AptChain, DeclaredChain, Increasing;
    KeptByChain(ls, mappings, selected, pt);
    if pt in Keep(ls, mappings, selected) {
      var chain, at :| Increasing(at, |ls|) && AptChain(ls, mappings, selected, chain, at, pt);
      SameChain(ls, mappings, selected, chain, at, pt);
    }
    if chain, at :| Increasing(at, |ls|) && DeclaredChain(ls, mappings, selected, chain, at, pt) {
      SameChain(ls, mappings, selected, chain, at, pt);
    }
  }

  // The payload map told by the text: who is mapped to what, and that nobody is mapped twice.
  lemma MappingsByText(ls: seq<string>, offered: seq<string>, pt: string, codec: string)
    requires Mappings(ls, offered, |ls|).Some?
    ensures pt in Mappings(ls, offered, |ls|).value && Mappings(ls, offered, |ls|).value[pt] == codec <==>
            pt in offered && exists i, name :: 0 <= i < |ls| && MapsTo(ls[i], pt, name) && codec == Upper(name)
  {
    hide RtpMap, MapsTo, Upper;
    MappingsMean(ls, offered, |ls|);
    if pt in offered && exists i, name :: 0 <= i < |ls| && MapsTo(ls[i], pt, name) && codec == Upper(name) {
      var i, name :| 0 <= i < |ls| && MapsTo(ls[i], pt, name) && codec == Upper(name);
      RtpMapReads(ls[i], pt, codec);
      assert Offers(offered, ls[i]);
    }
    if i :| 0 <= i < |ls| && Offers(offered, ls[i]) && RtpMap(ls[i]) == Some((pt, codec)) {
      RtpMapReads(ls[i], pt, codec);
    }
  }

  // ---- a section ----

  const RTX_MEDIA: seq<string> := ["m=video", "9", "X", "96", "97", "98"]
  const VP9_LINE := "a=rtpmap:96 VP9/90000"
  const RTX_LINE := "a=rtpmap:97 rtx/90000"
  const APT_LINE := "a=fmtp:97 apt=96"
  const H264_LINE := "a=rtpmap:98 H264/90000"

  function RtxLines(): (ls: seq<string>)
    ensures |ls| == 5
  {
    [JoinTokens(RTX_MEDIA), VP9_LINE, RTX_LINE, APT_LINE, H264_LINE]
  }

  function RtxSection(): string {
    JoinLines(RtxLines()) + ['\n']
  }

  lemma Maps(l: string, pt: string, name: string)
    requires Payload(pt) && name != [] && '/' !in name && l == "a=rtpmap:" + pt + " " + name + "/90000"
    ensures RtpMap(l) == Some((pt, Upper(name))) && Tag(l) == Some(pt) && FmtpApt(l).None?
  {
    hide Upper, RtpMap, Tag, Payload;
    hide FmtpApt;
    MapsAs(l, pt, name);
    TagsAs(l, "a=rtpmap:", pt, " " + name + "/90000");
    NoFmtp(l, pt + " " + name + "/90000");
  }

  lemma MapsAs(l: string, pt: string, name: string)
    requires Payload(pt) && name != [] && '/' !in name && l == "a=rtpmap:" + pt + " " + name + "/90000"
    ensures RtpMap(l) == Some((pt, Upper(name)))
  {
    hide Upper, RtpMap, Payload, Lower, IsSpace;
    HeadIsLower();
    assert l == "a=rtpmap:" + pt + " " + name + "/90000" + "";
    LaidOutIs(l, "a=rtpmap:", pt, name, "");
    assert MapsTo(l, pt, name);
    RtpMapReads(l, pt, Upper(name));
  }

  lemma TagsAs(l: string, prefix: string, pt: string, after: string)
    requires Payload(pt) && (prefix == "a=rtpmap:" || prefix == "a=fmtp:") && l == prefix + pt + after && after != [] && after[0] == ' '
    ensures Tag(l) == Some(pt)
  {
    hide Tag, Payload;
    assert Starts(l, prefix, pt);
    TagReads(l, pt);
  }

  lemma NoFmtp(l: string, rest: string)
    requires l == "a=rtpmap:" + rest
    ensures FmtpApt(l).None?
  {
    assert l[2] == "a=rtpmap:"[2] == 'r' && "a=fmtp:"[2] == 'f';
  }

  lemma HeadIsLower()
    ensures Lower("a=rtpmap:") == "a=rtpmap:"
  {
    var h := "a=rtpmap:";
    assert |Lower(h)| == |h|;
    forall i | 0 <= i < |h|
      ensures Lower(h)[i] == h[i]
    {
    }
  }

  lemma LinesRead()
    ensures RtpMap(VP9_LINE) == Some(("96", "VP9")) && Tag(VP9_LINE) == Some("96") && FmtpApt(VP9_LINE).None?
    ensures RtpMap(RTX_LINE) == Some(("97", "RTX")) && Tag(RTX_LINE) == Some("97") && FmtpApt(RTX_LINE).None?
    ensures RtpMap(H264_LINE) == Some(("98", "H264")) && Tag(H264_LINE) == Some("98") && FmtpApt(H264_LINE).None?
  {
    hide RtpMap, Tag, FmtpApt, Upper;
    assert VP9_LINE == "a=rtpmap:" + "96" + " " + "VP9" + "/90000";
    assert RTX_LINE == "a=rtpmap:" + "97" + " " + "rtx" + "/90000";
    assert H264_LINE == "a=rtpmap:" + "98" + " " + "H264" + "/90000";
    Maps(VP9_LINE, "96", "VP9");
    Maps(RTX_LINE, "97", "rtx");
    Maps(H264_LINE, "98", "H264");
    InUpper();
  }

  lemma InUpper()
    ensures Upper("VP9") == "VP9" && Upper("rtx") == "RTX" && Upper("H264") == "H264"
  {
  }

  lemma AptReads()
    ensures FmtpApt(APT_LINE) == Some(("97", "96")) && Tag(APT_LINE) == Some("97") && RtpMap(APT_LINE).None?
  {
    hide FmtpApt, Tag, Declares, AptOf, RtpMap;
    AptDeclares();
    FmtpAptReads(APT_LINE, "97", "96");
    AptTags();
  }

  lemma AptTags()
    ensures Tag(APT_LINE) == Some("97") && RtpMap(APT_LINE).None?
  {
    hide Tag;
    var l := APT_LINE;
    assert l == "a=fmtp:" + "97" + " apt=96";
    TagsAs(l, "a=fmtp:", "97", " apt=96");
    assert l[2] == 'f' && "a=rtpmap:"[2] == 'r';
  }

  lemma AptDeclares()
    ensures Declares(APT_LINE, "97", "96", 10)
  {
    var l := APT_LINE;
    assert "a=fmtp:" + "97" + " " <= l;
    assert l[10..] == "apt=" + "96" + "";
    assert AptOf(l, 10, "96");
    forall o': nat, q' | 10 < o' <= |l|
      ensures !AptOf(l, o', q')
    {
      if AptOf(l, o', q') {
        AptStarts(l, o', q');
      }
    }
  }

  lemma AptStarts(l: string, o: nat, q: string)
    requires AptOf(l, o, q)
    ensures o < |l| && l[o] == 'a'
  {
    var after :| l[o..] == "apt=" + q + after && (after == [] || after[0] == ';' || IsSpace(after[0]));
    assert l[o..][0] == 'a';
  }

  lemma RtxMediaReads()
    ensures Tokens(JoinTokens(RTX_MEDIA)) == RTX_MEDIA && "m=video " <= JoinTokens(RTX_MEDIA)
    ensures RtpMap(JoinTokens(RTX_MEDIA)).None? && FmtpApt(JoinTokens(RTX_MEDIA)).None? && Tag(JoinTokens(RTX_MEDIA)).None?
    ensures '\n' !in JoinTokens(RTX_MEDIA)
  {
    hide RtpMap, FmtpApt, Tag, Tokens;
    TokensOfJoin(RTX_MEDIA);
    JoinTokensNoBreak(RTX_MEDIA);
    var line := JoinTokens(RTX_MEDIA);
    assert line == "m=video" + [' '] + JoinTokens(RTX_MEDIA[1..]);
    assert "m=video " == "m=video" + [' '];
    TagAgrees(line);
  }

  lemma RtxReads()
    ensures Lines(RtxSection()) == RtxLines() && Media(RtxSection()) == RTX_MEDIA && ActiveVideo(RtxSection())
  {
    hide TrimEnd, SplitLines, JoinTokens, Tokens, RtpMap, FmtpApt, Tag;
    RtxMediaReads();
    var ls := RtxLines();
    forall i | 0 <= i < |ls|
      ensures '\n' !in ls[i]
    {
      assert '\n' !in VP9_LINE && '\n' !in RTX_LINE && '\n' !in APT_LINE && '\n' !in H264_LINE;
    }
    assert ls[4] == H264_LINE && H264_LINE[|H264_LINE| - 1] == '0';
    LinesOfJoined(ls);
    assert ls[0] <= JoinLines(ls);
    assert RTX_MEDIA[1] == "9" && "9"[0] != "0"[0];
  }

  const RTX_MAP := map["96" := "VP9", "97" := "RTX", "98" := "H264"]

  lemma Different()
    ensures "96" != "97" && "96" != "98" && "97" != "98"
    ensures "VP9" != "RTX" && "VP9" != "H264" && "H264" != "RTX"
  {
    assert "96"[1] == '6' && "97"[1] == '7' && "98"[1] == '8';
    assert "VP9"[0] == 'V' && "RTX"[0] == 'R' && "H264"[0] == 'H';
  }

  lemma RtxMappings()
    ensures Mappings(RtxLines(), ["96", "97", "98"], 5) == Some(RTX_MAP)
  {
    hide RtpMap, FmtpApt, Tag, JoinTokens;
    LinesRead();
    AptReads();
    RtxMediaReads();
    Different();
    var ls, offered := RtxLines(), ["96", "97", "98"];
    assert offered[0] == "96" && offered[1] == "97" && offered[2] == "98";
    assert Mappings(ls, offered, 1) == Some(map[]);
    assert Mappings(ls, offered, 2) == Some(map["96" := "VP9"]);
    assert Mappings(ls, offered, 3) == Some(map["96" := "VP9", "97" := "RTX"]);
    assert Mappings(ls, offered, 4) == Some(map["96" := "VP9", "97" := "RTX"]);
  }

  lemma RtxKeeps()
    ensures Keep(RtxLines(), RTX_MAP, "VP9") == {"96", "97"}
    ensures Keep(RtxLines(), RTX_MAP, "H264") == {"98"}
  {
    hide RtpMap, FmtpApt, Tag, JoinTokens;
    LinesRead();
    AptReads();
    RtxMediaReads();
    Different();
    var ls := RtxLines();
    assert Carries(ls, RTX_MAP, "VP9", 5, "96") && Carries(ls, RTX_MAP, "VP9", 3, "96");
    assert Links(ls[3], RTX_MAP, "97");
    assert Carries(ls, RTX_MAP, "VP9", 5, "97");
    assert Carries(ls, RTX_MAP, "H264", 5, "98");
    assert forall i :: 0 <= i < 5 && i != 3 ==> FmtpApt(ls[i]).None?;
    assert !Carries(ls, RTX_MAP, "VP9", 5, "98");
    assert !Carries(ls, RTX_MAP, "H264", 5, "96");
    assert !Carries(ls, RTX_MAP, "H264", 3, "96");
    assert !Carries(ls, RTX_MAP, "H264", 5, "97");
  }

  lemma KeptCons(l: string, rest: seq<string>, keep: set<string>)
    ensures KeptLines([l] + rest, keep) == (if Kept(l, keep) then [l] else []) + KeptLines(rest, keep)
  {
    hide Kept;
    assert ([l] + rest)[0] == l && ([l] + rest)[1..] == rest;
  }

  lemma KeptPayloadsCons(pt: string, rest: seq<string>, keep: set<string>)
    ensures KeptPayloads([pt] + rest, keep) == (if pt in keep then [pt] else []) + KeptPayloads(rest, keep)
  {
    assert ([pt] + rest)[0] == pt && ([pt] + rest)[1..] == rest;
  }

  // The lines of the section under another media line.
  function RtxUnder(media: string): (ls: seq<string>)
    ensures |ls| == 5
  {
    RtxLines()[0 := media]
  }

  lemma RtxKept(media: string, keep: set<string>)
    requires Tag(media).None?
    ensures keep == {"96", "97"} ==> KeptLines(RtxUnder(media), keep) == [media, VP9_LINE, RTX_LINE, APT_LINE]
    ensures keep == {"98"} ==> KeptLines(RtxUnder(media), keep) == [media, H264_LINE]
  {
    LinesRead();
    AptReads();
    Different();
    hide RtpMap, FmtpApt, Tag, KeptLines, JoinTokens;
    assert KeptLines([], keep) == [] by {
      NothingKept(keep);
    }
    KeptCons(H264_LINE, [], keep);
    KeptCons(APT_LINE, [H264_LINE], keep);
    KeptCons(RTX_LINE, [APT_LINE, H264_LINE], keep);
    KeptCons(VP9_LINE, [RTX_LINE, APT_LINE, H264_LINE], keep);
    KeptCons(media, [VP9_LINE, RTX_LINE, APT_LINE, H264_LINE], keep);
    assert [H264_LINE] + [] == [H264_LINE];
    assert [APT_LINE] + [H264_LINE] == [APT_LINE, H264_LINE];
    assert [RTX_LINE] + [APT_LINE, H264_LINE] == [RTX_LINE, APT_LINE, H264_LINE];
    assert [VP9_LINE] + [RTX_LINE, APT_LINE, H264_LINE] == [VP9_LINE, RTX_LINE, APT_LINE, H264_LINE];
    assert [media] + [VP9_LINE, RTX_LINE, APT_LINE, H264_LINE] == RtxUnder(media);
  }

  lemma NothingKept(keep: set<string>)
    ensures KeptLines([], keep) == [] && KeptPayloads([], keep) == []
  {
  }

  // The media line of three payloads a, b and c under what is kept.
  lemma MediaLineOfThree(p: string, q: string, r: string, a: string, b: string, c: string, keep: set<string>)
    requires c != a && c != b
    ensures keep == {a, b} ==> MediaLine([p, q, r, a, b, c], keep) == JoinTokens([p, q, r, a, b])
    ensures a != b && keep == {c} ==> MediaLine([p, q, r, a, b, c], keep) == JoinTokens([p, q, r, c])
  {
    hide JoinTokens, KeptPayloads;
    var media := [p, q, r, a, b, c];
    assert Rest(media) == [a, b, c] && Head(media) == [p, q, r];
    KeptOfThree(a, b, c, keep);
    assert [p, q, r] + [a, b] == [p, q, r, a, b];
    assert [p, q, r] + [c] == [p, q, r, c];
  }

  lemma KeptOfThree(a: string, b: string, c: string, keep: set<string>)
    requires c != a && c != b
    ensures keep == {a, b} ==> KeptPayloads([a, b, c], keep) == [a, b]
    ensures a != b && keep == {c} ==> KeptPayloads([a, b, c], keep) == [c]
  {
    hide KeptPayloads;
    NothingKept(keep);
    KeptPayloadsCons(c, [], keep);
    KeptPayloadsCons(b, [c], keep);
    KeptPayloadsCons(a, [b, c], keep);
    assert [c] + [] == [c] && [b] + [c] == [b, c] && [a] + [b, c] == [a, b, c];
  }

  lemma RtxMediaLine(keep: set<string>)
    ensures keep == {"96", "97"} ==> MediaLine(RTX_MEDIA, keep) == JoinTokens(["m=video", "9", "X", "96", "97"])
    ensures keep == {"98"} ==> MediaLine(RTX_MEDIA, keep) == JoinTokens(["m=video", "9", "X", "98"])
  {
    hide JoinTokens, MediaLine;
    Different();
    MediaLineOfThree("m=video", "9", "X", "96", "97", "98", keep);
  }

  lemma RestrictedTo(section: string, mappings: map<string, string>, selected: string, lines: seq<string>)
    requires ActiveVideo(section) && Mappings(Lines(section), Rest(Media(section)), |Lines(section)|) == Some(mappings)
    requires Keep(Lines(section), mappings, selected) != {} && lines == RestrictedLines(section, mappings, selected) && |lines| >= 1
    ensures RestrictSection(section, selected) == Passed(JoinLines(lines) + ['\n'])
  {
    hide JoinLines, JoinTokens, RestrictedLines, Mappings, Keep, ActiveVideo, Lines, Media;
  }

  lemma RtxRestrictedLines(selected: string, keep: set<string>)
    requires keep == Keep(RtxLines(), RTX_MAP, selected)
    ensures RestrictedLines(RtxSection(), RTX_MAP, selected) == KeptLines(RtxUnder(MediaLine(RTX_MEDIA, keep)), keep)
  {
    hide JoinLines, JoinTokens, KeptLines, Keep, MediaLine, Lines, Media, ActiveVideo;
    RtxReads();
    hide RtxSection, RtxLines;
  }

  // Restricted to VP9 the section keeps its retransmission payload and drops H264; restricted to H264
  // it is the other way round.
  lemma RtxIsKept()
    ensures ActiveVideo(RtxSection())
    ensures RestrictSection(RtxSection(), "VP9") ==
            Passed(JoinLines([JoinTokens(["m=video", "9", "X", "96", "97"]), VP9_LINE, RTX_LINE, APT_LINE]) + ['\n'])
    ensures RestrictSection(RtxSection(), "H264") ==
            Passed(JoinLines([JoinTokens(["m=video", "9", "X", "98"]), H264_LINE]) + ['\n'])
  {
    hide RestrictSection, JoinLines, JoinTokens, KeptLines, Mappings, Keep, ActiveVideo, Lines, Media, MediaLine, Tag;
    RtxReads();
    RtxKeeps();
    RtxMediaLine({"96", "97"});
    RtxMediaLine({"98"});
    MediaHasNoTag(["m=video", "9", "X", "96", "97"]);
    MediaHasNoTag(["m=video", "9", "X", "98"]);
    RtxKept(JoinTokens(["m=video", "9", "X", "96", "97"]), {"96", "97"});
    RtxKept(JoinTokens(["m=video", "9", "X", "98"]), {"98"});
    RtxMappings();
    assert Rest(RTX_MEDIA) == ["96", "97", "98"];
    RtxRestrictedLines("VP9", {"96", "97"});
    RtxRestrictedLines("H264", {"98"});
    RestrictedTo(RtxSection(), RTX_MAP, "VP9", [JoinTokens(["m=video", "9", "X", "96", "97"]), VP9_LINE, RTX_LINE, APT_LINE]);
    RestrictedTo(RtxSection(), RTX_MAP, "H264", [JoinTokens(["m=video", "9", "X", "98"]), H264_LINE]);
  }

  lemma MediaHasNoTag(ts: seq<string>)
    requires |ts| > 1 && ts[0] == "m=video"
    ensures Tag(JoinTokens(ts)).None?
  {
    hide Tag;
    var line := JoinTokens(ts);
    assert line == "m=video" + [' '] + JoinTokens(ts[1..]);
    assert line[0] == 'm';
    TagAgrees(line);
  }
}
