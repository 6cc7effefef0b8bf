// The codec policy: a session description restricted to one video codec and the retransmission
// payloads that reach it, and the check that an answer relabels no payload.
module CodecPolicies {
  import opened Wrappers
  import opened Texts
  import opened SdpText

  datatype VideoCodec = VP9 | AV1 | H264 | VP8

  const VIDEO_CODECS: seq<VideoCodec> := [VP9, AV1, H264, VP8]
  const MAX_SDP := 262144

  function Name(c: VideoCodec): string {
    match c
    case VP9 => "VP9"
    case AV1 => "AV1"
    case H264 => "H264"
    case VP8 => "VP8"
  }

  // A ticket policy as parseCodecPolicy lets it through; identifiers other than the hash are left out.
  datatype Policy = Policy(hash: string, allowed: seq<VideoCodec>, defaultCodec: VideoCodec)

  predicate ValidPolicy(p: Policy) {
    && 1 <= |p.allowed| <= 4
    && (forall i, j :: 0 <= i < j < |p.allowed| ==> p.allowed[i] != p.allowed[j])
    && VP8 !in p.allowed
    && p.defaultCodec in p.allowed
  }

  datatype SdpError = InvalidSdp | DuplicateMapping | CannotNegotiate | NotOneActiveVideo | NoOffer | ChangedMapping

  datatype Checked<+T> = Passed(value: T) | Rejected(error: SdpError)

  // ---- what the regular expressions recognise ----

  predicate IsDigit(c: char) {
    '0' <= c <= '9'
  }

  // A word character in the sense of \b.
  predicate IsWord(c: char) {
    IsDigit(c) || 'a' <= c <= 'z' || 'A' <= c <= 'Z' || c == '_'
  }

  function DigitsEnd(s: string, i: nat): (j: nat)
    requires i <= |s|
    ensures i <= j <= |s|
    ensures j < |s| ==> !IsDigit(s[j])
    ensures forall k :: i <= k < j ==> IsDigit(s[k])
    decreases |s| - i
  {
    if i == |s| || !IsDigit(s[i]) then i else DigitsEnd(s, i + 1)
  }

  function UpperChar(c: char): char {
    if 'a' <= c <= 'z' then (c as int - 32) as char else c
  }

  function Upper(s: string): string {
    seq(|s|, i requires 0 <= i < |s| => UpperChar(s[i]))
  }

  predicate PrefixIgnoringCase(s: string, prefix: string) {
    |prefix| <= |s| && forall i :: 0 <= i < |prefix| ==> LowerChar(s[i]) == prefix[i]
  }

  predicate Payload(pt: string) {
    pt != [] && forall k :: 0 <= k < |pt| ==> IsDigit(pt[k])
  }

  function FirstSlash(s: string, i: nat): (j: nat)
    requires i <= |s|
    ensures i <= j <= |s|
    decreases |s| - i
  {
    if i == |s| || s[i] == '/' then i else FirstSlash(s, i + 1)
  }

  // /^a=rtpmap:(\d+) ([^/]+)\/90000(?:\s|$)/i, with the codec in upper case
  function RtpMap(l: string): (r: Option<(string, string)>)
    ensures r.Some? ==> Payload(r.value.0)
  {
    if !PrefixIgnoringCase(l, "a=rtpmap:") then None
    else
      var j := DigitsEnd(l, 9);
      if j == 9 || j == |l| || l[j] != ' ' then None
      else
        var k := FirstSlash(l, j + 1);
        if k > j + 1 && "/90000" <= l[k..] && (|l| == k + 6 || IsSpace(l[k + 6]))
        then Some((l[9..j], Upper(l[j + 1..k]))) else None
  }

  // Whether \bapt=(\d+)(?:;|\s|$) matches at q.
  predicate AptAt(l: string, q: nat) {
    0 < q <= |l| - 4 && !IsWord(l[q - 1]) && l[q..q + 4] == "apt=" &&
    var e := DigitsEnd(l, q + 4);
    e > q + 4 && (e == |l| || l[e] == ';' || IsSpace(l[e]))
  }

  // The last match from `from` on with no line break before it, as the greedy .* finds it.
  function LastApt(l: string, from: nat): (q: Option<nat>)
    requires from <= |l|
    ensures q.Some? ==> from <= q.value && AptAt(l, q.value)
    decreases |l| - from
  {
    if from == |l| then None
    else
      var later := if Break(l[from]) then None else LastApt(l, from + 1);
      if later.Some? then later else if AptAt(l, from) then Some(from) else None
  }

  // /^a=fmtp:(\d+) .*\bapt=(\d+)(?:;|\s|$)/
  function FmtpApt(l: string): (r: Option<(string, string)>)
    ensures r.Some? ==> Payload(r.value.0) && Payload(r.value.1)
  {
    if !("a=fmtp:" <= l) then None
    else
      var j := DigitsEnd(l, 7);
      if j == 7 || j == |l| || l[j] != ' ' then None
      else
        var q := LastApt(l, j + 1);
        if q.None? then None else Some((l[7..j], l[q.value + 4..DigitsEnd(l, q.value + 4)]))
  }

  function TagAfter(l: string, prefix: string): (r: Option<string>)
    ensures r.Some? ==> Payload(r.value)
  {
    if !(prefix <= l) then None
    else
      var j := DigitsEnd(l, |prefix|);
      if j > |prefix| && (j == |l| || !IsWord(l[j])) then Some(l[|prefix|..j]) else None
  }

  // /^a=(?:rtpmap|fmtp|rtcp-fb):(\d+)\b/
  function Tag(l: string): (r: Option<string>)
    ensures r.Some? ==> Payload(r.value)
  {
    var a := TagAfter(l, "a=rtpmap:");
    var b := TagAfter(l, "a=fmtp:");
    if a.Some? then a else if b.Some? then b else TagAfter(l, "a=rtcp-fb:")
  }

  // A mapping or parameter line is filtered, if at all, by the payload it speaks of.
  lemma TagAgrees(l: string)
    ensures RtpMap(l).Some? && Tag(l).Some? ==> Tag(l).value == RtpMap(l).value.0
    ensures FmtpApt(l).Some? ==> Tag(l) == Some(FmtpApt(l).value.0)
    ensures l != [] && l[0] == 'm' ==> Tag(l).None? && RtpMap(l).None? && FmtpApt(l).None?
  {
    hide LastApt;
    assert "a=rtpmap:"[2] == 'r' && "a=rtpmap:"[3] == 't';
    assert "a=fmtp:"[2] == 'f' && "a=rtcp-fb:"[3] == 't' && "a=rtcp-fb:"[4] == 'c' && "a=rtpmap:"[4] == 'p';
  }

  // ---- one active video section ----

  function Lines(section: string): (ls: seq<string>)
    ensures |ls| >= 1
  {
    SplitLines(TrimEnd(section))
  }

  function Media(section: string): seq<string> {
    Tokens(Lines(section)[0])
  }

  predicate ActiveVideo(section: string) {
    "m=video " <= section && !(|Media(section)| > 1 && Media(section)[1] == "0")
  }

  // slice(3)
  function Rest(media: seq<string>): seq<string> {
    if |media| < 3 then [] else media[3..]
  }

  function Head(media: seq<string>): seq<string> {
    if |media| < 3 then media else media[..3]
  }

  predicate Offers(offered: seq<string>, line: string) {
    RtpMap(line).Some? && RtpMap(line).value.0 in offered
  }

  // The codecs the first n lines give to the offered payloads; None when one is given twice.
  function Mappings(ls: seq<string>, offered: seq<string>, n: nat): (r: Option<map<string, string>>)
    requires n <= |ls|
  {
    if n == 0 then Some(map[])
    else
      var before := Mappings(ls, offered, n - 1);
      var line := ls[n - 1];
      if before.None? || !Offers(offered, line) then before
      else if RtpMap(line).value.0 in before.value then None
      else Some(before.value[RtpMap(line).value.0 := RtpMap(line).value.1])
  }

  predicate Links(line: string, mappings: map<string, string>, pt: string) {
    FmtpApt(line).Some? && FmtpApt(line).value.0 == pt && pt in mappings && mappings[pt] == "RTX"
  }

  // pt carries the selected codec, or is a retransmission payload whose apt, declared on one of
  // the first n lines, names a payload that carries it by the lines before that one.
  predicate Carries(ls: seq<string>, mappings: map<string, string>, selected: string, n: nat, pt: string)
    requires n <= |ls|
    decreases n
  {
    || (pt in mappings && mappings[pt] == selected)
    || exists i :: 0 <= i < n && Links(ls[i], mappings, pt)
                   && Carries(ls, mappings, selected, i, FmtpApt(ls[i]).value.1)
  }

  lemma {:induction false} CarriersAreMapped(ls: seq<string>, mappings: map<string, string>, selected: string, n: nat, pt: string)
    requires n <= |ls|
    requires Carries(ls, mappings, selected, n, pt)
    ensures pt in mappings
  {
  }

  ghost function Keep(ls: seq<string>, mappings: map<string, string>, selected: string): set<string> {
    set pt | pt in mappings.Keys && Carries(ls, mappings, selected, |ls|, pt)
  }

  predicate Kept(line: string, keep: set<string>) {
    Tag(line).None? || Tag(line).value in keep
  }

  function KeptLines(ls: seq<string>, keep: set<string>): (r: seq<string>) {
    if ls == [] then []
    else (if Kept(ls[0], keep) then [ls[0]] else []) + KeptLines(ls[1..], keep)
  }

  function KeptPayloads(pts: seq<string>, keep: set<string>): (r: seq<string>)
    ensures forall pt :: pt in r <==> pt in pts && pt in keep
  {
    if pts == [] then []
    else (if pts[0] in keep then [pts[0]] else []) + KeptPayloads(pts[1..], keep)
  }

  function MediaLine(media: seq<string>, keep: set<string>): string {
    JoinTokens(Head(media) + KeptPayloads(Rest(media), keep))
  }

  ghost function RestrictedLines(section: string, mappings: map<string, string>, selected: string): seq<string> {
    var ls := Lines(section);
    var keep := Keep(ls, mappings, selected);
    KeptLines(ls[0 := MediaLine(Media(section), keep)], keep)
  }

  lemma Associates(a: seq<string>, b: seq<string>, c: seq<string>)
    ensures a + (b + c) == (a + b) + c
  {
  }

  lemma {:induction false} KeptLinesSnoc(ls: seq<string>, line: string, keep: set<string>)
    ensures KeptLines(ls + [line], keep) == KeptLines(ls, keep) + (if Kept(line, keep) then [line] else [])
  {
    hide Kept;
    if ls == [] {
      assert KeptLines([line][1..], keep) == [];
    } else {
      KeptLinesSnoc(ls[1..], line, keep);
      assert (ls + [line])[0] == ls[0] && (ls + [line])[1..] == ls[1..] + [line];
      Associates(if Kept(ls[0], keep) then [ls[0]] else [], KeptLines(ls[1..], keep), if Kept(line, keep) then [line] else []);
    }
  }

  lemma {:induction false} KeptPayloadsSnoc(pts: seq<string>, pt: string, keep: set<string>)
    ensures KeptPayloads(pts + [pt], keep) == KeptPayloads(pts, keep) + (if pt in keep then [pt] else [])
  {
    if pts == [] {
      assert KeptPayloads([pt][1..], keep) == [];
    } else {
      KeptPayloadsSnoc(pts[1..], pt, keep);
      assert (pts + [pt])[0] == pts[0] && (pts + [pt])[1..] == pts[1..] + [pt];
      Associates(if pts[0] in keep then [pts[0]] else [], KeptPayloads(pts[1..], keep), if pt in keep then [pt] else []);
    }
  }

  // The rewritten media line is always kept and stays the first.
  lemma MediaLineKept(section: string, keep: set<string>)
    requires "m=video " <= section
    ensures |Media(section)| >= 1 && Media(section)[0] == "m=video"
    ensures Kept(MediaLine(Media(section), keep), keep)
    ensures "m=video" <= MediaLine(Media(section), keep)
  {
    hide RtpMap, FmtpApt, TagAfter;
    var t := TrimEnd(section);
    assert |t| >= 7 by {
      assert section[6] == 'o' && !IsSpace(section[6]);
    }
    var l := Lines(section)[0];
    FirstLineOf(section);
    assert FirstSpace(l, 0) == 7 by {
      assert forall k :: 0 <= k < 7 ==> l[k] == "m=video"[k] && !IsSpace(l[k]);
      assert |l| > 7 ==> l[7] == ' ';
    }
    assert Media(section)[0] == l[..7] == "m=video";
    var ts := Head(Media(section)) + KeptPayloads(Rest(Media(section)), keep);
    assert ts[0] == "m=video";
    var m := JoinTokens(ts);
    assert "m=video" <= m;
    assert m[0] == "m=video"[0];
    TagAgrees(m);
  }

  lemma FirstLineOf(section: string)
    requires "m=video " <= section
    ensures "m=video" <= Lines(section)[0]
    ensures |Lines(section)[0]| > 7 ==> Lines(section)[0][7] == ' '
  {
    var t := TrimEnd(section);
    assert |t| >= 7 by {
      assert section[6] == "m=video "[6] && !IsSpace(section[6]);
    }
    var j := FirstNewline(t, 0);
    assert forall k :: 0 <= k < 7 ==> t[k] == section[k] == "m=video "[k];
    assert |t| > 7 ==> t[7] == section[7] == "m=video "[7];
    assert forall k :: 0 <= k < 7 ==> "m=video "[k] != '\n';
    assert j >= 7 && (j > 7 || j == |t|);
    assert Lines(section)[0] == t[..j];
  }

  // ---- the whole description ----

  ghost predicate Negotiable(section: string, selected: string) {
    var ls := Lines(section);
    var mappings := Mappings(ls, Rest(Media(section)), |ls|);
    mappings.Some? && exists pt :: pt in mappings.value && mappings.value[pt] == selected
  }

  lemma RestrictedLinesNonempty(section: string, mappings: map<string, string>, selected: string)
    requires "m=video " <= section
    ensures |RestrictedLines(section, mappings, selected)| >= 1
    ensures RestrictedLines(section, mappings, selected)[0] == MediaLine(Media(section), Keep(Lines(section), mappings, selected))
    ensures RestrictedLines(section, mappings, selected)[1..] == KeptLines(Lines(section)[1..], Keep(Lines(section), mappings, selected))
  {
    hide MediaLine, Kept, Keep, Media, Lines;
    var keep := Keep(Lines(section), mappings, selected);
    MediaLineKept(section, keep);
    var ls := Lines(section)[0 := MediaLine(Media(section), keep)];
    assert ls[1..] == Lines(section)[1..];
  }

  ghost function RestrictSection(section: string, selected: string): (r: Checked<string>) {
    if !ActiveVideo(section) then Passed(section)
    else
      var ls := Lines(section);
      var mappings := Mappings(ls, Rest(Media(section)), |ls|);
      if mappings.None? then Rejected(DuplicateMapping)
      else if Keep(ls, mappings.value, selected) == {} then Rejected(CannotNegotiate)
      else
        RestrictedLinesNonempty(section, mappings.value, selected);
        Passed(JoinLines(RestrictedLines(section, mappings.value, selected)) + ['\n'])
  }

  // The first n sections, one after the other; the first error wins.
  ghost function RestrictSections(ss: seq<string>, selected: string, n: nat): (r: Checked<seq<string>>)
    requires n <= |ss|
    ensures r.Passed? ==> |r.value| == n
  {
    if n == 0 then Passed([])
    else
      var before := RestrictSections(ss, selected, n - 1);
      if before.Rejected? then before
      else
        var section := RestrictSection(ss[n - 1], selected);
        if section.Rejected? then Rejected(section.error) else Passed(before.value + [section.value])
  }

  ghost function ActiveCount(ss: seq<string>, n: nat): nat
    requires n <= |ss|
  {
    if n == 0 then 0 else ActiveCount(ss, n - 1) + (if ActiveVideo(ss[n - 1]) then 1 else 0)
  }

  ghost function Restrict(sdp: string, selected: VideoCodec): (r: Checked<string>) {
    if |sdp| > MAX_SDP || !("v=0" <= sdp) then Rejected(InvalidSdp)
    else
      var ss := Sections(Collapse(sdp));
      var filtered := RestrictSections(ss, Name(selected), |ss|);
      if filtered.Rejected? then Rejected(filtered.error)
      else if ActiveCount(ss, |ss|) != 1 then Rejected(NotOneActiveVideo)
      else Passed(Expand(Concat(filtered.value)))
  }

  // The codecs an active section offers on lines the mapping loop reaches.
  predicate Available(section: string, c: VideoCodec) {
    ActiveVideo(section) && exists i :: 0 <= i < |Lines(section)| && Offers(Rest(Media(section)), Lines(section)[i])
                                        && RtpMap(Lines(section)[i]).value.1 == Name(c)
  }

  ghost predicate AvailableIn(ss: seq<string>, n: nat, c: VideoCodec)
    requires n <= |ss|
  {
    exists i :: 0 <= i < n && Available(ss[i], c)
  }

  method MapPayloads(ls: seq<string>, offered: seq<string>, available0: set<VideoCodec>)
    returns (mappings: Option<map<string, string>>, available: set<VideoCodec>)
    ensures mappings == Mappings(ls, offered, |ls|)
    ensures mappings.Some? ==> forall c :: c in available <==>
              c in available0 || exists i :: 0 <= i < |ls| && Offers(offered, ls[i]) && RtpMap(ls[i]).value.1 == Name(c)
  {
    hide RtpMap;
    var found: map<string, string> := map[];
    available := available0;
    var i := 0;
    while i < |ls|
      invariant 0 <= i <= |ls|
      invariant Mappings(ls, offered, i) == Some(found)
      invariant forall c :: c in available <==>
                  c in available0 || exists j :: 0 <= j < i && Offers(offered, ls[j]) && RtpMap(ls[j]).value.1 == Name(c)
    {
      var m := RtpMap(ls[i]);
      if m.Some? && m.value.0 in offered {
        if m.value.0 in found {
          DuplicateStays(ls, offered, i + 1);
          return None, available;
        }
        found := found[m.value.0 := m.value.1];
        available := available + (set c | c in VIDEO_CODECS && Name(c) == m.value.1);
      }
      i := i + 1;
    }
    mappings := Some(found);
  }

  lemma {:induction false} DuplicateStays(ls: seq<string>, offered: seq<string>, n: nat)
    requires n <= |ls|
    requires Mappings(ls, offered, n).None?
    ensures Mappings(ls, offered, |ls|).None?
    decreases |ls| - n
  {
    if n < |ls| {
      assert Mappings(ls, offered, n + 1).None?;
      DuplicateStays(ls, offered, n + 1);
    }
  }

  method CollectKept(ls: seq<string>, mappings: map<string, string>, selected: string) returns (keep: set<string>, any: bool)
    ensures keep == Keep(ls, mappings, selected)
    ensures any <==> exists pt :: pt in mappings && mappings[pt] == selected
    ensures any <==> keep != {}
  {
    hide FmtpApt;
    keep := set pt | pt in mappings && mappings[pt] == selected;
    any := keep != {};
    if any {
      var pt :| pt in keep;
      assert pt in mappings && mappings[pt] == selected;
    }
    if pt :| pt in mappings && mappings[pt] == selected {
      assert pt in keep;
    }
    var i := 0;
    while i < |ls|
      invariant 0 <= i <= |ls|
      invariant forall pt :: pt in keep <==> Carries(ls, mappings, selected, i, pt)
      invariant any <==> keep != {}
    {
      var m := FmtpApt(ls[i]);
      ghost var before := keep;
      if m.Some? && m.value.0 in mappings && mappings[m.value.0] == "RTX" && m.value.1 in keep {
        keep := keep + {m.value.0};
      }
      forall pt
        ensures pt in keep <==> Carries(ls, mappings, selected, i + 1, pt)
      {
        CarriesStep(ls, mappings, selected, i, pt);
      }
      i := i + 1;
    }
    forall pt | pt in keep
      ensures pt in mappings
    {
      CarriersAreMapped(ls, mappings, selected, |ls|, pt);
    }
  }

  lemma CarriesStep(ls: seq<string>, mappings: map<string, string>, selected: string, n: nat, pt: string)
    requires n < |ls|
    ensures Carries(ls, mappings, selected, n + 1, pt) <==>
            Carries(ls, mappings, selected, n, pt)
            || (Links(ls[n], mappings, pt) && Carries(ls, mappings, selected, n, FmtpApt(ls[n]).value.1))
  {
    hide FmtpApt;
  }

  method FilterSection(section: string, selected: string, available0: set<VideoCodec>)
    returns (r: Checked<string>, available: set<VideoCodec>)
    requires ActiveVideo(section)
    ensures r == RestrictSection(section, selected)
    ensures r.Passed? ==> forall c :: c in available <==> c in available0 || Available(section, c)
  {
    hide RtpMap, FmtpApt, Tag, Carries, Lines, Mappings, Offers;
    var ls := Lines(section);
    var media := Tokens(ls[0]);
    var mappings;
    mappings, available := MapPayloads(ls, Rest(media), available0);
    if mappings.None? {
      return Rejected(DuplicateMapping), available;
    }
    var keep, any := CollectKept(ls, mappings.value, selected);
    if !any {
      return Rejected(CannotNegotiate), available;
    }
    RestrictedLinesNonempty(section, mappings.value, selected);
    var pts := [];
    var i := 0;
    while i < |Rest(media)|
      invariant 0 <= i <= |Rest(media)|
      invariant pts == KeptPayloads(Rest(media)[..i], keep)
    {
      KeptPayloadsSnoc(Rest(media)[..i], Rest(media)[i], keep);
      assert Rest(media)[..i + 1] == Rest(media)[..i] + [Rest(media)[i]];
      if Rest(media)[i] in keep {
        pts := pts + [Rest(media)[i]];
      }
      i := i + 1;
    }
    assert Rest(media)[..i] == Rest(media);
    ls := ls[0 := JoinTokens(Head(media) + pts)];
    var kept := [];
    i := 0;
    while i < |ls|
      invariant 0 <= i <= |ls|
      invariant kept == KeptLines(ls[..i], keep)
    {
      KeptLinesSnoc(ls[..i], ls[i], keep);
      assert ls[..i + 1] == ls[..i] + [ls[i]];
      if Kept(ls[i], keep) {
        kept := kept + [ls[i]];
      }
      i := i + 1;
    }
    assert ls[..i] == ls;
    assert kept == RestrictedLines(section, mappings.value, selected);
    r := Passed(JoinLines(kept) + ['\n']);
  }

  method RestrictVideoSdp(sdp: string, selected: VideoCodec) returns (r: Checked<string>, available: set<VideoCodec>)
    ensures r == Restrict(sdp, selected)
    ensures r.Passed? ==> forall c :: c in available <==> AvailableIn(Sections(Collapse(sdp)), |Sections(Collapse(sdp))|, c)
  {
    hide RestrictSection, ActiveVideo, Available, Sections;
    available := {};
    if |sdp| > MAX_SDP || !("v=0" <= sdp) {
      return Rejected(InvalidSdp), available;
    }
    var sections := Sections(Collapse(sdp));
    var activeVideo := 0;
    var filtered: seq<string> := [];
    var i := 0;
    while i < |sections|
      invariant 0 <= i <= |sections|
      invariant RestrictSections(sections, Name(selected), i) == Passed(filtered)
      invariant activeVideo == ActiveCount(sections, i)
      invariant forall c :: c in available <==> AvailableIn(sections, i, c)
    {
      if ActiveVideo(sections[i]) {
        activeVideo := activeVideo + 1;
        var section;
        section, available := FilterSection(sections[i], Name(selected), available);
        if section.Rejected? {
          ErrorStays(sections, Name(selected), i + 1);
          return Rejected(section.error), available;
        }
        filtered := filtered + [section.value];
      } else {
        InactiveStays(sections[i], Name(selected));
        filtered := filtered + [sections[i]];
      }
      i := i + 1;
    }
    if activeVideo != 1 {
      return Rejected(NotOneActiveVideo), available;
    }
    r := Passed(Expand(Concat(filtered)));
  }

  lemma InactiveStays(section: string, selected: string)
    requires !ActiveVideo(section)
    ensures RestrictSection(section, selected) == Passed(section)
    ensures forall c :: !Available(section, c)
  {
  }

  lemma {:induction false} ErrorStays(ss: seq<string>, selected: string, n: nat)
    requires n <= |ss|
    requires RestrictSections(ss, selected, n).Rejected?
    ensures RestrictSections(ss, selected, |ss|) == RestrictSections(ss, selected, n)
    decreases |ss| - n
  {
    hide RestrictSection;
    if n < |ss| {
      assert RestrictSections(ss, selected, n + 1) == RestrictSections(ss, selected, n);
      ErrorStays(ss, selected, n + 1);
    }
  }
}
