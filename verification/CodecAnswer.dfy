// The check of an answer against the offer it answers: it may not give a payload number another
// codec than the offer does, nor map one the offer does not map.
module CodecAnswers {
  import opened Wrappers
  import opened SdpText
  import opened CodecPolicies

  function LineEnd(s: string, i: nat): (j: nat)
    requires i <= |s|
    ensures i <= j <= |s|
    decreases |s| - i
  {
    if i == |s| || s[i] == '\r' || s[i] == '\n' then i else LineEnd(s, i + 1)
  }

  // /^a=rtpmap:(\d+) ([^\r\n]+)/m matching at p: the payload, the codec in upper case, and the end.
  function MappingAt(s: string, p: nat): (r: Option<(string, string, nat)>)
    requires p <= |s|
    ensures r.Some? ==> p < r.value.2 <= |s| && Payload(r.value.0)
  {
    if (p > 0 && !Break(s[p - 1])) || !("a=rtpmap:" <= s[p..]) then None
    else
      var j := DigitsEnd(s, p + 9);
      if j == p + 9 || j == |s| || s[j] != ' ' then None
      else
        var e := LineEnd(s, j + 1);
        if e == j + 1 then None else Some((s[p + 9..j], Upper(s[j + 1..e]), e))
  }

  // The map built from the matches at p and after, in order; a later mapping replaces an earlier.
  function MappingsFrom(s: string, p: nat, before: map<string, string>): map<string, string>
    requires p <= |s|
    decreases |s| - p
  {
    if p == |s| then before
    else
      var m := MappingAt(s, p);
      if m.Some? then MappingsFrom(s, m.value.2, before[m.value.0 := m.value.1]) else MappingsFrom(s, p + 1, before)
  }

  // Whether s maps pt to codec at q, found by a scan from p, and maps it nowhere later.
  ghost predicate LastMapping(s: string, p: nat, pt: string, codec: string)
    requires p <= |s|
    decreases |s| - p
  {
    if p == |s| then false
    else
      var m := MappingAt(s, p);
      if m.None? then LastMapping(s, p + 1, pt, codec)
      else if MapsFrom(s, m.value.2, pt) then LastMapping(s, m.value.2, pt, codec)
      else m.value.0 == pt && m.value.1 == codec
  }

  ghost predicate MapsFrom(s: string, p: nat, pt: string)
    requires p <= |s|
    decreases |s| - p
  {
    if p == |s| then false
    else
      var m := MappingAt(s, p);
      if m.None? then MapsFrom(s, p + 1, pt) else m.value.0 == pt || MapsFrom(s, m.value.2, pt)
  }

  function VideoIndex(ss: seq<string>, i: nat): (k: nat)
    requires i <= |ss|
    ensures i <= k <= |ss|
    ensures k < |ss| ==> "m=video " <= ss[k]
    ensures forall j :: i <= j < k ==> !("m=video " <= ss[j])
    decreases |ss| - i
  {
    if i == |ss| || "m=video " <= ss[i] then i else VideoIndex(ss, i + 1)
  }

  // The first video section, active or not.
  function VideoSection(sdp: string): string {
    var ss := Sections(sdp);
    var k := VideoIndex(ss, 0);
    if k < |ss| then ss[k] else []
  }

  function PayloadMap(sdp: string): map<string, string> {
    MappingsFrom(VideoSection(sdp), 0, map[])
  }

  // The map holds, for each payload the section maps, the codec of its last mapping.
  lemma {:induction false} MappingsFromMean(s: string, p: nat, before: map<string, string>, pt: string, codec: string)
    requires p <= |s|
    ensures (pt in MappingsFrom(s, p, before) && MappingsFrom(s, p, before)[pt] == codec) <==>
            if MapsFrom(s, p, pt) then LastMapping(s, p, pt, codec) else pt in before && before[pt] == codec
    decreases |s| - p
  {
    hide MappingAt;
    if p < |s| {
      var m := MappingAt(s, p);
      if m.Some? {
        MappingsFromMean(s, m.value.2, before[m.value.0 := m.value.1], pt, codec);
      } else {
        MappingsFromMean(s, p + 1, before, pt, codec);
      }
    }
  }

  method ReadPayloadMap(sdp: string) returns (mappings: map<string, string>)
    ensures mappings == PayloadMap(sdp)
  {
    hide MappingAt;
    var section := VideoSection(sdp);
    mappings := map[];
    var p := 0;
    while p < |section|
      invariant p <= |section|
      invariant MappingsFrom(section, p, mappings) == PayloadMap(sdp)
      decreases |section| - p
    {
      var m := MappingAt(section, p);
      if m.Some? {
        mappings := mappings[m.value.0 := m.value.1];
        p := m.value.2;
      } else {
        p := p + 1;
      }
    }
  }

  ghost predicate Accepts(offer: Option<string>, answer: string) {
    && offer.Some? && offer.value != []
    && forall pt :: pt in PayloadMap(answer) ==> pt in PayloadMap(offer.value) && PayloadMap(offer.value)[pt] == PayloadMap(answer)[pt]
  }

  // None when the answer is accepted.
  method ValidateCodecAnswer(offer: Option<string>, answer: string) returns (error: Option<SdpError>)
    ensures error == Some(NoOffer) <==> offer.None? || offer.value == []
    ensures error == None <==> Accepts(offer, answer)
    ensures error.Some? ==> error.value == NoOffer || error.value == ChangedMapping
  {
    hide PayloadMap;
    if offer.None? || offer.value == [] {
      return Some(NoOffer);
    }
    var expected := ReadPayloadMap(offer.value);
    var given := ReadPayloadMap(answer);
    var left := given.Keys;
    while left != {}
      invariant left <= given.Keys
      invariant forall pt :: pt in given && pt !in left ==> pt in expected && expected[pt] == given[pt]
      decreases |left|
    {
      var pt :| pt in left;
      if pt !in expected || expected[pt] != given[pt] {
        return Some(ChangedMapping);
      }
      left := left - {pt};
    }
    error := None;
  }
}
