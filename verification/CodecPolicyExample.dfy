// A description that is restricted differently the second time: the line after "a= " is dropped
// by the first pass, so the second one trims the space.
module CodecPolicyExample {
  import opened Wrappers
  import opened Texts
  import opened SdpText
  import opened CodecPolicies
  import opened CodecPolicyLaws
  import opened CodecPolicyTwice

  const MEDIA: seq<string> := ["m=video", "9", "X", "96", "97"]
  const RTPMAP := "a=rtpmap:96 VP9/90000"
  const SPACED := "a= "
  const FMTP := "a=fmtp:97"

  function ExampleLines(): (ls: seq<string>)
    ensures |ls| == 4
  {
    [JoinTokens(MEDIA), RTPMAP, SPACED, FMTP]
  }

  function Video(): string {
    JoinLines(ExampleLines()) + ['\n']
  }

  function Example(): string {
    Expand(Concat(["v=0\n", Video()]))
  }

  lemma MappedLine()
    ensures RtpMap(RTPMAP) == Some(("96", "VP9"))
    ensures Tag(RTPMAP) == Some("96")
    ensures FmtpApt(RTPMAP).None?
  {
    var l := RTPMAP;
    assert DigitsEnd(l, 11) == 11;
    assert DigitsEnd(l, 9) == 11;
    assert FirstSlash(l, 12) == 15;
    assert l[15..] == "/90000";
    assert l[9..11] == "96";
    assert Upper(l[12..15]) == "VP9" by {
      assert l[12..15] == "VP9";
    }
    assert TagAfter(l, "a=rtpmap:") == Some("96");
    assert l[2] == 'r' && "a=fmtp:"[2] == 'f';
  }

  lemma SpacedLine()
    ensures RtpMap(SPACED).None? && Tag(SPACED).None? && FmtpApt(SPACED).None?
  {
  }

  lemma DroppedLine()
    ensures RtpMap(FMTP).None? && FmtpApt(FMTP).None?
    ensures Tag(FMTP) == Some("97")
  {
    var l := FMTP;
    assert l[2] == 'f' && "a=rtpmap:"[2] == 'r';
    assert DigitsEnd(l, 9) == 9;
    assert DigitsEnd(l, 7) == 9;
    assert l[7..9] == "97";
    assert TagAfter(l, "a=fmtp:") == Some("97");
  }

  lemma MediaReads()
    ensures Tokens(JoinTokens(MEDIA)) == MEDIA
    ensures "m=video " <= JoinTokens(MEDIA)
    ensures RtpMap(JoinTokens(MEDIA)).None? && FmtpApt(JoinTokens(MEDIA)).None?
    ensures forall i :: 0 <= i < |JoinTokens(MEDIA)| ==> !Break(JoinTokens(MEDIA)[i])
  {
    hide RtpMap, FmtpApt, Tag, Tokens;
    TokensOfJoin(MEDIA);
    JoinTokensNoBreak(MEDIA);
    var line := JoinTokens(MEDIA);
    assert line == "m=video" + [' '] + JoinTokens(MEDIA[1..]);
    assert "m=video " == "m=video" + [' '];
    TagAgrees(line);
  }

  lemma VideoReads()
    ensures Lines(Video()) == ExampleLines()
    ensures Media(Video()) == MEDIA
    ensures ActiveVideo(Video())
  {
    hide RtpMap, FmtpApt, TrimEnd, SplitLines, Tokens, JoinLines;
    MediaReads();
    VideoLines();
    FirstLine(ExampleLines());
  }

  lemma FirstLine(ls: seq<string>)
    requires |ls| >= 1
    ensures ls[0] <= JoinLines(ls)
  {
  }

  lemma VideoLines()
    requires forall i :: 0 <= i < |JoinTokens(MEDIA)| ==> !Break(JoinTokens(MEDIA)[i])
    requires "m=video " <= JoinTokens(MEDIA)
    ensures Lines(Video()) == ExampleLines()
  {
    hide TrimEnd, SplitLines, JoinLines, JoinTokens;
    var ls := ExampleLines();
    forall i | 0 <= i < |ls|
      ensures '\n' !in ls[i]
    {
      assert '\n' !in RTPMAP && '\n' !in SPACED && '\n' !in FMTP;
    }
    assert ls[3] == FMTP && FMTP[|FMTP| - 1] == '7';
    LinesOfJoined(ls);
  }

  lemma OneMapped(ls: seq<string>, offered: seq<string>, pt: string, codec: string)
    requires |ls| == 4 && RtpMap(ls[1]) == Some((pt, codec)) && pt in offered
    requires RtpMap(ls[0]).None? && RtpMap(ls[2]).None? && RtpMap(ls[3]).None?
    ensures Mappings(ls, offered, 4) == Some(map[pt := codec])
  {
    hide RtpMap;
    assert Mappings(ls, offered, 1) == Some(map[]);
    assert Mappings(ls, offered, 2) == Some(map[pt := codec]);
    assert Mappings(ls, offered, 3) == Some(map[pt := codec]);
  }

  lemma NothingLinked(ls: seq<string>, pt: string, codec: string)
    requires forall i :: 0 <= i < |ls| ==> FmtpApt(ls[i]).None?
    ensures Keep(ls, map[pt := codec], codec) == {pt}
  {
    hide FmtpApt;
    assert Carries(ls, map[pt := codec], codec, |ls|, pt);
  }

  lemma VideoKeeps()
    ensures Mappings(ExampleLines(), ["96", "97"], 4) == Some(map["96" := "VP9"])
    ensures Keep(ExampleLines(), map["96" := "VP9"], "VP9") == {"96"}
  {
    hide RtpMap, FmtpApt, Tag, Keep, Mappings, JoinTokens, Tokens, Break;
    MappedLine();
    SpacedLine();
    DroppedLine();
    MediaReads();
    assert ["96", "97"][0] == "96";
    var ls := ExampleLines();
    OneMapped(ls, ["96", "97"], "96", "VP9");
    NothingLinked(ls, "96", "VP9");
  }

  lemma VideoKept()
    ensures !EndsVisibly(KeptOf(Video(), "VP9"))
    ensures Negotiable(Video(), "VP9")
  {
    hide RtpMap, FmtpApt, Tag, Lines, Tokens, MediaLine, Mappings, Keep, JoinTokens;
    VideoReads();
    VideoKeeps();
    MappedLine();
    SpacedLine();
    DroppedLine();
    assert Rest(MEDIA) == ["96", "97"];
    var keep := {"96"};
    var m := map["96" := "VP9"];
    assert "96" in m && m["96"] == "VP9";
    var media := MediaLine(MEDIA, keep);
    var ls := [media, RTPMAP, SPACED, FMTP];
    assert ExampleLines()[0 := media] == ls;
    assert "96" != "97" by {
      assert "96"[1] != "97"[1];
    }
    KeptTail(media, keep);
    assert KeptOf(Video(), "VP9") == KeptLines(ls, keep);
  }

  lemma KeptTail(media: string, keep: set<string>)
    requires keep == {"96"} && "97" !in keep
    ensures !EndsVisibly(KeptLines([media, RTPMAP, SPACED, FMTP], keep))
  {
    hide Tag;
    MappedLine();
    SpacedLine();
    DroppedLine();
    assert KeptLines([], keep) == [];
    assert [FMTP][1..] == [];
    assert KeptLines([FMTP], keep) == [];
    assert [SPACED, FMTP][1..] == [FMTP];
    assert KeptLines([SPACED, FMTP], keep) == [SPACED];
    assert [RTPMAP, SPACED, FMTP][1..] == [SPACED, FMTP];
    assert KeptLines([RTPMAP, SPACED, FMTP], keep) == [RTPMAP, SPACED];
    assert [media, RTPMAP, SPACED, FMTP][1..] == [RTPMAP, SPACED, FMTP];
    var kept := KeptLines([media, RTPMAP, SPACED, FMTP], keep);
    assert kept[|kept| - 1] == SPACED;
    assert SPACED[2] == ' ';
  }

  lemma {:induction false} ExpandAtMostDoubles(t: string)
    ensures |Expand(t)| <= 2 * |t|
  {
    if t != [] {
      ExpandAtMostDoubles(t[1..]);
    }
  }

  lemma ExampleSections()
    ensures Sections(Collapse(Example())) == ["v=0\n", Video()]
    ensures |Example()| <= MAX_SDP && "v=0" <= Example()
  {
    hide Video, Sections, Collapse, Expand, NoStart;
    var ss := ["v=0\n", Video()];
    CollapseExpand(Concat(ss));
    VideoIsWhole();
    HeaderIsWhole();
    SectionsOfConcat(ss);
    assert ss[1..] == [Video()] && [Video()][1..] == [];
    assert Concat(ss) == "v=0\n" + Video();
    assert "v=0" <= "v=0\n";
    ExpandHeader(Concat(ss));
    ExpandAtMostDoubles(Concat(ss));
    VideoIsShort();
  }

  lemma HeaderIsWhole()
    ensures NoStart("v=0\n") && Break("v=0\n"[3])
  {
  }

  lemma VideoIsShort()
    ensures |Video()| <= 100
  {
    hide JoinTokens;
    var ls := ExampleLines();
    assert |JoinTokens(MEDIA)| <= 40 by {
      JoinTokensLength();
    }
    assert JoinLines(ls[3..]) == FMTP;
    assert ls[2..][1..] == ls[3..] && ls[1..][1..] == ls[2..];
    assert |JoinLines(ls[2..])| == |SPACED| + 1 + |FMTP|;
    assert |JoinLines(ls[1..])| == |RTPMAP| + 1 + |JoinLines(ls[2..])|;
  }

  lemma JoinTokensLength()
    ensures |JoinTokens(MEDIA)| <= 40
  {
    assert MEDIA[1..] == ["9", "X", "96", "97"];
    assert MEDIA[1..][1..] == ["X", "96", "97"];
    assert MEDIA[1..][1..][1..] == ["96", "97"];
    assert MEDIA[1..][1..][1..][1..] == ["97"];
  }

  lemma WithoutBreak(l: string)
    requires forall i :: 0 <= i < |l| ==> !Break(l[i])
    ensures NoStart(l)
  {
  }

  lemma WholeVideo(ls: seq<string>)
    requires |ls| == 4 && MediaStart(ls[0])
    requires forall i, k :: 0 <= i < |ls| && 0 <= k < |ls[i]| ==> !Break(ls[i][k])
    requires !MediaStart(ls[1]) && !MediaStart(ls[2]) && !MediaStart(ls[3])
    ensures NoStart(JoinLines(ls) + ['\n']) && MediaStart(JoinLines(ls) + ['\n'])
  {
    hide JoinLines;
    FirstLine(ls);
    forall l | l in ls
      ensures NoStart(l)
    {
      WithoutBreak(l);
    }
    JoinedWithoutStart(ls);
  }

  lemma VideoIsWhole()
    ensures NoStart(Video()) && MediaStart(Video())
  {
    hide RtpMap, FmtpApt, Tokens, JoinLines, JoinTokens, NoStart;
    MediaReads();
    assert "m=video "[0] == 'm' && "m=video "[1] == '=';
    assert RTPMAP[0] == 'a' && SPACED[0] == 'a' && FMTP[0] == 'a';
    WholeVideo(ExampleLines());
  }

  lemma RestrictedTwiceDiffers()
    ensures Restrict(Example(), VP9).Passed?
    ensures Restrict(Restrict(Example(), VP9).value, VP9) != Restrict(Example(), VP9)
  {
    hide Restrict, Negotiable, KeptOf, ActiveVideo, Sections, Collapse, Expand, Concat, Video, Example, EndsVisibly, Name;
    ExampleSections();
    SecondIsActive();
    RestrictSucceeds(Example(), VP9);
    var k := RestrictTwice(Example(), VP9);
    assert k == 1;
    KeepsSpaced();
  }

  lemma KeepsSpaced()
    ensures !EndsVisibly(KeptOf(Video(), Name(VP9)))
  {
    hide KeptOf, Video, EndsVisibly;
    VideoKept();
  }

  lemma SecondIsActive()
    ensures OnlyActive(["v=0\n", Video()], 2, 1) && Negotiable(Video(), Name(VP9))
  {
    hide Negotiable, ActiveVideo, Video, Lines, Media, ExampleLines, EndsVisibly, KeptOf;
    VideoReads();
    VideoKept();
    NotVideo();
  }

  lemma NotVideo()
    ensures !ActiveVideo("v=0\n")
  {
    assert "v=0\n"[0] == 'v' && "m=video "[0] == 'm';
  }
}
