// What a mapping in an answer is, spelled out as text, and which answers are refused.
module CodecAnswerText {
  import opened Wrappers
  import opened Texts
  import opened SdpText
  import opened CodecPolicies
  import opened CodecAnswers
  import opened CodecPolicyLines

  predicate EndsLine(c: char) {
    c == '\r' || c == '\n'
  }

  // From p up to e the text is a mapping of pt to the name: p begins a line, and e ends one.
  ghost predicate MappingText(s: string, p: nat, pt: string, name: string, e: nat) {
    && p <= e <= |s| && (p == 0 || Break(s[p - 1]))
    && Payload(pt) && name != [] && (forall i :: 0 <= i < |name| ==> !EndsLine(name[i]))
    && s[p..e] == "a=rtpmap:" + pt + " " + name && (e == |s| || EndsLine(s[e]))
  }

  lemma {:induction false} LineEndIs(s: string, i: nat)
    requires i <= |s|
    ensures LineEnd(s, i) == |s| || EndsLine(s[LineEnd(s, i)])
    ensures forall k :: i <= k < LineEnd(s, i) ==> !EndsLine(s[k])
    decreases |s| - i
  {
    if i < |s| && !EndsLine(s[i]) {
      LineEndIs(s, i + 1);
    }
  }

  lemma LineEndAt(s: string, i: nat, e: nat)
    requires i <= e <= |s| && (e == |s| || EndsLine(s[e])) && forall k :: i <= k < e ==> !EndsLine(s[k])
    ensures LineEnd(s, i) == e
  {
    LineEndIs(s, i);
  }

  // Exactly the mappings are read, with the name in upper case.
  lemma MappingReads(s: string, p: nat, pt: string, codec: string, e: nat)
    requires p <= |s|
    ensures MappingAt(s, p) == Some((pt, codec, e)) <==> exists name :: MappingText(s, p, pt, name, e) && codec == Upper(name)
  {
    hide Upper, MappingAt, MappingText;
    if exists name :: MappingText(s, p, pt, name, e) && codec == Upper(name) {
      var name :| MappingText(s, p, pt, name, e) && codec == Upper(name);
      TextIsRead(s, p, pt, name, e);
    }
    if MappingAt(s, p) == Some((pt, codec, e)) {
      var name := ReadIsText(s, p);
    }
  }

  lemma TextIsRead(s: string, p: nat, pt: string, name: string, e: nat)
    requires MappingText(s, p, pt, name, e)
    ensures MappingAt(s, p) == Some((pt, Upper(name), e))
  {
    hide Upper, MappingAt, Payload;
    HeadAt(s, p, pt, name, e);
    var rest := s[e..];
    PayloadIsDigits(pt);
    DigitsAre(s, p + 9, pt, " " + (name + rest));
    var j := p + 9 + |pt|;
    NameAt(s, j, name, e);
    PartsAreRead(s, p, j, e);
  }

  lemma PayloadIsDigits(pt: string)
    requires Payload(pt)
    ensures pt != [] && forall k :: 0 <= k < |pt| ==> IsDigit(pt[k])
  {
  }

  lemma HeadAt(s: string, p: nat, pt: string, name: string, e: nat)
    requires p <= e <= |s| && s[p..e] == "a=rtpmap:" + pt + " " + name
    ensures "a=rtpmap:" <= s[p..] && p + 9 + |pt| + 1 + |name| == e
    ensures s[p + 9..] == pt + (" " + (name + s[e..]))
  {
    SplitAt(s, p, e);
    Regroup(pt, name, s[e..]);
    Further(s, p, "a=rtpmap:", pt + (" " + (name + s[e..])));
  }

  lemma Regroup(pt: string, name: string, rest: string)
    ensures ("a=rtpmap:" + pt + " " + name) + rest == "a=rtpmap:" + (pt + (" " + (name + rest)))
  {
  }

  lemma NameAt(s: string, j: nat, name: string, e: nat)
    requires j + 1 + |name| == e <= |s| && s[j..] == " " + (name + s[e..]) && name != []
    requires (forall i :: 0 <= i < |name| ==> !EndsLine(name[i])) && (e == |s| || EndsLine(s[e]))
    ensures s[j] == ' ' && s[j + 1..e] == name && LineEnd(s, j + 1) == e
  {
    Further(s, j, " ", name + s[e..]);
    Further(s, j + 1, name, s[e..]);
    assert s[j] == s[j..][0] == ' ';
    assert forall k :: j + 1 <= k < e ==> s[k] == name[k - j - 1];
    LineEndAt(s, j + 1, e);
  }

  lemma PartsAreRead(s: string, p: nat, j: nat, e: nat)
    requires p <= |s| && (p == 0 || Break(s[p - 1])) && "a=rtpmap:" <= s[p..]
    requires j == DigitsEnd(s, p + 9) && p + 9 < j < |s| && s[j] == ' ' && e == LineEnd(s, j + 1) && e > j + 1
    ensures MappingAt(s, p) == Some((s[p + 9..j], Upper(s[j + 1..e]), e))
  {
    hide Upper;
  }

  lemma ReadIsText(s: string, p: nat) returns (name: string)
    requires p <= |s| && MappingAt(s, p).Some?
    ensures MappingText(s, p, MappingAt(s, p).value.0, name, MappingAt(s, p).value.2)
    ensures MappingAt(s, p).value.1 == Upper(name)
  {
    hide Upper, MappingText;
    var j := DigitsEnd(s, p + 9);
    var e := LineEnd(s, j + 1);
    LineEndIs(s, j + 1);
    name := s[j + 1..e];
    TextOfParts(s, p, j, e);
  }

  lemma TextOfParts(s: string, p: nat, j: nat, e: nat)
    requires p + 9 < j < e <= |s| && (p == 0 || Break(s[p - 1])) && "a=rtpmap:" <= s[p..] && s[j] == ' ' && j + 1 < e
    requires forall k :: p + 9 <= k < j ==> IsDigit(s[k])
    requires (e == |s| || EndsLine(s[e])) && forall k :: j + 1 <= k < e ==> !EndsLine(s[k])
    ensures MappingText(s, p, s[p + 9..j], s[j + 1..e], e)
  {
    InTwo(s, p, p + 9, e);
    InTwo(s, p + 9, j, e);
    InTwo(s, j, j + 1, e);
    assert s[p..p + 9] == s[p..][..9] == "a=rtpmap:";
    assert s[j..j + 1] == " ";
    var pt, name := s[p + 9..j], s[j + 1..e];
    assert "a=rtpmap:" + (pt + (" " + name)) == "a=rtpmap:" + pt + " " + name;
  }

  lemma InTwo(s: string, i: nat, j: nat, e: nat)
    requires i <= j <= e <= |s|
    ensures s[i..e] == s[i..j] + s[j..e]
  {
  }

  // ---- which answers are refused ----

  // An answer is refused exactly when there is no offer, or some payload is last mapped by the answer to
  // a codec to which the offer does not last map it.
  lemma RefusedExactlyWhen(offer: string, answer: string)
    ensures !Accepts(Some(offer), answer) <==>
            || offer == []
            || exists pt, codec :: MapsFrom(VideoSection(answer), 0, pt) && LastMapping(VideoSection(answer), 0, pt, codec)
                                   && !(MapsFrom(VideoSection(offer), 0, pt) && LastMapping(VideoSection(offer), 0, pt, codec))
  {
    hide MappingsFrom, MapsFrom, LastMapping, VideoSection;
    var s, t := VideoSection(offer), VideoSection(answer);
    forall pt: string, codec: string
      ensures (pt in PayloadMap(answer) && PayloadMap(answer)[pt] == codec) <==> MapsFrom(t, 0, pt) && LastMapping(t, 0, pt, codec)
      ensures (pt in PayloadMap(offer) && PayloadMap(offer)[pt] == codec) <==> MapsFrom(s, 0, pt) && LastMapping(s, 0, pt, codec)
    {
      MappingsFromMean(t, 0, map[], pt, codec);
      MappingsFromMean(s, 0, map[], pt, codec);
    }
    if offer != [] && !Accepts(Some(offer), answer) {
      var pt :| pt in PayloadMap(answer) && !(pt in PayloadMap(offer) && PayloadMap(offer)[pt] == PayloadMap(answer)[pt]);
      var codec := PayloadMap(answer)[pt];
      assert MapsFrom(t, 0, pt) && LastMapping(t, 0, pt, codec);
    }
  }

  // The first video section is the one that is read.
  lemma VideoSectionIs(sdp: string, k: nat)
    requires k < |Sections(sdp)| && "m=video " <= Sections(sdp)[k]
    requires forall j :: 0 <= j < k ==> !("m=video " <= Sections(sdp)[j])
    ensures VideoSection(sdp) == Sections(sdp)[k]
  {
    hide Sections;
  }

  lemma NoVideoSection(sdp: string)
    requires forall j :: 0 <= j < |Sections(sdp)| ==> !("m=video " <= Sections(sdp)[j])
    ensures PayloadMap(sdp) == map[]
  {
    hide Sections;
  }
}
