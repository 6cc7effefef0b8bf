// Which sections are active and which codecs they announce, on the text of their lines.
module CodecPolicySections {
  import opened Wrappers
  import opened Texts
  import opened SdpText
  import opened CodecPolicies
  import opened CodecPolicyLines

  ghost predicate Spaces(s: string) {
    s != [] && forall k :: 0 <= k < |s| ==> IsSpace(s[k])
  }

  // The second word of the media line is a zero.
  ghost predicate PortIsZero(line: string) {
    exists gap, after :: ZeroPort(line, gap, after)
  }

  ghost predicate ZeroPort(line: string, gap: string, after: string) {
    Spaces(gap) && line == "m=video" + gap + "0" + after && (after == [] || IsSpace(after[0]))
  }

  // The first word of a text that begins with "m=video" and ends there or goes on with a space.
  lemma MediaWord(line: string)
    requires "m=video" <= line && (|line| == 7 || IsSpace(line[7]))
    ensures FirstSpace(line, 0) == 7
  {
    var word := "m=video";
    forall k | 0 <= k < 7
      ensures !IsSpace(line[k])
    {
      assert line[k] == word[k];
    }
  }

  lemma SpacesAre(s: string, i: nat, gap: string, rest: string)
    requires i <= |s| && s[i..] == gap + rest && (forall k :: 0 <= k < |gap| ==> IsSpace(gap[k]))
    requires rest == [] || !IsSpace(rest[0])
    ensures SpacesEnd(s, i) == i + |gap| && s[i + |gap|..] == rest
  {
    var t := s[i..];
    assert forall k :: i <= k < i + |gap| ==> s[k] == t[k - i] == gap[k - i];
    assert rest != [] ==> s[i + |gap|] == t[|gap|] == rest[0];
    assert s[i + |gap|..] == t[|gap|..];
  }

  lemma FirstIsZero(s: string)
    ensures s[..FirstSpace(s, 0)] == "0" <==> s != [] && s[0] == '0' && (|s| == 1 || IsSpace(s[1]))
  {
    hide IsSpace;
    assert IsSpace('0') == false by {
      NoSpace();
    }
    if s[..FirstSpace(s, 0)] == "0" {
      assert s[..FirstSpace(s, 0)][0] == s[0];
    }
    if s != [] && s[0] == '0' && (|s| == 1 || IsSpace(s[1])) {
      assert FirstSpace(s, 0) == 1;
      assert s[..1] == "0";
    }
  }

  lemma NoSpace()
    ensures !IsSpace('0')
  {
  }

  lemma PortWord(line: string)
    requires "m=video" <= line && (|line| == 7 || IsSpace(line[7]))
    ensures |Tokens(line)| > 1 && Tokens(line)[1] == "0" <==> PortIsZero(line)
  {
    hide IsSpace;
    MediaWord(line);
    if |line| > 7 {
      var e := SpacesEnd(line, 7);
      var rest := line[e..];
      FirstIsZero(rest);
      assert Tokens(line) == [line[..7]] + Tokens(rest);
      assert Tokens(rest)[0] == rest[..FirstSpace(rest, 0)];
      if Tokens(line)[1] == "0" {
        ZeroIsThere(line, e);
      }
      if PortIsZero(line) {
        ZeroIsFound(line);
      }
    }
  }

  lemma ZeroIsThere(line: string, e: nat)
    requires "m=video" <= line && 7 < e < |line| && line[e] == '0' && (|line| == e + 1 || IsSpace(line[e + 1]))
    requires forall k :: 7 <= k < e ==> IsSpace(line[k])
    ensures PortIsZero(line)
  {
    hide IsSpace;
    var gap, after := line[7..e], line[e + 1..];
    assert line == "m=video" + gap + "0" + after;
    assert forall k :: 0 <= k < |gap| ==> gap[k] == line[7 + k];
    assert after != [] ==> after[0] == line[e + 1];
    assert ZeroPort(line, gap, after);
  }

  lemma ZeroIsFound(line: string)
    requires "m=video" <= line && PortIsZero(line)
    ensures var rest := line[SpacesEnd(line, 7)..];
            rest != [] && rest[0] == '0' && (|rest| == 1 || IsSpace(rest[1]))
  {
    var gap, after :| ZeroPort(line, gap, after);
    NoSpace();
    hide IsSpace;
    assert line[7..] == gap + ("0" + after);
    SpacesAre(line, 7, gap, "0" + after);
    assert after != [] ==> ("0" + after)[1] == after[0];
  }

  // A video section is active unless the second word of its media line is a zero.
  lemma ActiveExactlyWhen(section: string)
    ensures ActiveVideo(section) <==> "m=video " <= section && !PortIsZero(Lines(section)[0])
  {
    hide Tokens, PortIsZero;
    if "m=video " <= section {
      FirstLineIsMedia(section);
      PortWord(Lines(section)[0]);
    }
  }

  lemma FirstLineIsMedia(section: string)
    requires "m=video " <= section
    ensures var line := Lines(section)[0];
            "m=video" <= line && (|line| == 7 || IsSpace(line[7]))
  {
    var t := TrimEnd(section);
    TrimKeepsWord(section, 7);
    var line := Lines(section)[0];
    assert t[..7] == "m=video";
    FirstOfLines(t);
    assert '\n' !in t[..7];
  }

  // White space at the end leaves what comes before the last visible character.
  lemma TrimKeepsWord(s: string, n: nat)
    requires 0 < n <= |s| && !IsSpace(s[n - 1])
    ensures |TrimEnd(s)| >= n && TrimEnd(s)[..n] == s[..n]
  {
    hide IsSpace;
    assert IsSpace(s[n - 1]) || |TrimEnd(s)| >= n;
  }

  // The first line ends at the first line feed.
  lemma FirstOfLines(t: string)
    ensures var line := SplitLines(t)[0];
            line <= t && '\n' !in line && (|line| == |t| || t[|line|] == '\n')
  {
  }

  // An active section announces a codec exactly when a line maps one of its payloads to that name.
  lemma AnnouncedExactlyWhen(section: string, c: VideoCodec)
    ensures Available(section, c) <==>
            "m=video " <= section && !PortIsZero(Lines(section)[0]) &&
            exists i, pt, name :: 0 <= i < |Lines(section)| && Announces(Lines(section)[i], Rest(Media(section)), pt, name, c)
  {
    hide ActiveVideo, Upper, RtpMap, MapsTo, Lines, Media, Rest, PortIsZero;
    ActiveExactlyWhen(section);
    var ls := Lines(section);
    if Available(section, c) {
      var i :| 0 <= i < |ls| && Offers(Rest(Media(section)), ls[i]) && RtpMap(ls[i]).value.1 == Name(c);
      var pt := RtpMap(ls[i]).value.0;
      RtpMapReads(ls[i], pt, Name(c));
      var name :| MapsTo(ls[i], pt, name) && Name(c) == Upper(name);
      assert Announces(ls[i], Rest(Media(section)), pt, name, c);
    }
    forall i, pt, name | 0 <= i < |ls| && Announces(ls[i], Rest(Media(section)), pt, name, c)
      ensures Offers(Rest(Media(section)), ls[i]) && RtpMap(ls[i]).value.1 == Name(c)
    {
      RtpMapReads(ls[i], pt, Name(c));
    }
  }

  // A line maps pt, one of the payloads of the section, to the name of the codec.
  ghost predicate Announces(line: string, offered: seq<string>, pt: string, name: string, c: VideoCodec) {
    pt in offered && MapsTo(line, pt, name) && Upper(name) == Name(c)
  }
}
