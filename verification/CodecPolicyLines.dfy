// What the lines of a description say, spelled out as text: the mapping lines, the parameter lines
// with an apt, and the payload a line speaks of.
module CodecPolicyLines {
  import opened Wrappers
  import opened Texts
  import opened SdpText
  import opened CodecPolicies

  // The digits from i on are p, and no digit follows.
  lemma DigitsAre(l: string, i: nat, p: string, after: string)
    requires i <= |l| && l[i..] == p + after && (forall k :: 0 <= k < |p| ==> IsDigit(p[k]))
    requires after == [] || !IsDigit(after[0])
    ensures DigitsEnd(l, i) == i + |p| && l[i..i + |p|] == p && l[i + |p|..] == after
  {
    var rest := l[i..];
    assert forall k :: i <= k < i + |p| ==> l[k] == rest[k - i] == p[k - i];
    assert after != [] ==> l[i + |p|] == rest[|p|] == after[0];
    assert l[i + |p|..] == rest[|p|..];
  }

  // ---- fmtp ----

  // At o a word begins that is "apt=" and the payload q, ended by a semicolon, white space or the line.
  ghost predicate AptOf(l: string, o: nat, q: string) {
    && 0 < o <= |l| && !IsWord(l[o - 1]) && Payload(q)
    && exists after :: l[o..] == "apt=" + q + after && (after == [] || after[0] == ';' || IsSpace(after[0]))
  }

  // Line breaks end the reach of a parameter.
  predicate Unbroken(l: string, i: nat, j: nat)
    requires i <= j <= |l|
  {
    forall k :: i <= k < j ==> !Break(l[k])
  }

  // The line declares pt to be the retransmission of q: it starts with "a=fmtp:", pt and a space, and
  // q is the payload of the last apt in the reach of that.
  ghost predicate Declares(l: string, pt: string, q: string, o: nat) {
    && Payload(pt) && "a=fmtp:" + pt + " " <= l && 8 + |pt| <= o <= |l|
    && Unbroken(l, 8 + |pt|, o) && AptOf(l, o, q)
    && forall o': nat, q' :: o < o' <= |l| && Unbroken(l, 8 + |pt|, o') ==> !AptOf(l, o', q')
  }

  lemma SpacesAreNoDigits(c: char)
    requires IsSpace(c) || c == ';'
    ensures !IsDigit(c)
  {
  }

  lemma AptAtIs(l: string, o: nat)
    ensures AptAt(l, o) ==> AptOf(l, o, l[o + 4..DigitsEnd(l, o + 4)])
    ensures forall q :: AptOf(l, o, q) ==> AptAt(l, o) && q == l[o + 4..DigitsEnd(l, o + 4)]
  {
    hide AptAt, AptOf;
    if AptAt(l, o) {
      MatchedIsApt(l, o);
    }
    forall q | AptOf(l, o, q)
      ensures AptAt(l, o) && q == l[o + 4..DigitsEnd(l, o + 4)]
    {
      AptIsMatched(l, o, q);
    }
  }

  lemma MatchedIsApt(l: string, o: nat)
    requires AptAt(l, o)
    ensures AptOf(l, o, l[o + 4..DigitsEnd(l, o + 4)])
  {
    hide IsWord, IsSpace;
    var e := DigitsEnd(l, o + 4);
    assert l[o..] == "apt=" + l[o + 4..e] + l[e..] by {
      assert l[o..] == l[o..o + 4] + l[o + 4..];
      assert l[o + 4..] == l[o + 4..e] + l[e..];
    }
    assert l[e..] != [] ==> l[e..][0] == l[e];
  }

  lemma AptIsMatched(l: string, o: nat, q: string)
    requires AptOf(l, o, q)
    ensures AptAt(l, o) && q == l[o + 4..DigitsEnd(l, o + 4)]
  {
    var after :| l[o..] == "apt=" + q + after && (after == [] || after[0] == ';' || IsSpace(after[0]));
    if after != [] {
      SpacesAreNoDigits(after[0]);
    }
    hide IsWord, IsSpace, IsDigit;
    assert |l| - o == 4 + |q| + |after|;
    assert l[o + 4..] == l[o..][4..] == q + after;
    assert l[o..o + 4] == l[o..][..4] == "apt=";
    DigitsAre(l, o + 4, q, after);
    assert after != [] ==> l[o + 4 + |q|..][0] == l[o + 4 + |q|];
  }

  // The search finds the last position with an apt before any line break.
  lemma {:induction false} LastAptIs(l: string, from: nat)
    requires from <= |l|
    ensures LastApt(l, from).Some? ==>
              var o := LastApt(l, from).value;
              o <= |l| && AptAt(l, o) && Unbroken(l, from, o)
              && forall o' :: o < o' <= |l| && Unbroken(l, from, o') ==> !AptAt(l, o')
    ensures LastApt(l, from).None? ==> forall o :: from <= o <= |l| && Unbroken(l, from, o) ==> !AptAt(l, o)
    decreases |l| - from
  {
    hide AptAt, Break;
    if from == |l| {
      NoAptAtEnd(l);
    } else {
      if !Break(l[from]) {
        LastAptIs(l, from + 1);
        forall o | from < o <= |l|
          ensures Unbroken(l, from, o) <==> Unbroken(l, from + 1, o)
        {
        }
      } else {
        forall o | from < o <= |l|
          ensures !Unbroken(l, from, o)
        {
        }
      }
    }
  }

  lemma NoAptAtEnd(l: string)
    ensures !AptAt(l, |l|)
  {
  }

  // Exactly the lines that declare pt to be the retransmission of q are read so.
  lemma FmtpAptReads(l: string, pt: string, q: string)
    ensures FmtpApt(l) == Some((pt, q)) <==> exists o: nat :: Declares(l, pt, q, o)
  {
    hide AptAt, AptOf, LastApt, Unbroken;
    if exists o: nat :: Declares(l, pt, q, o) {
      var o: nat :| Declares(l, pt, q, o);
      HeadIs(l, pt);
      LastAptIs(l, 8 + |pt|);
      DeclaredIsLast(l, pt, q, o);
    }
    if FmtpApt(l) == Some((pt, q)) {
      var j := DigitsEnd(l, 7);
      HeadOf(l, pt);
      LastAptIs(l, j + 1);
      var o := LastApt(l, j + 1).value;
      AptAtIs(l, o);
      forall o': nat, q' | o < o' <= |l| && Unbroken(l, 8 + |pt|, o')
        ensures !AptOf(l, o', q')
      {
        AptAtIs(l, o');
      }
      assert Declares(l, pt, q, o);
    }
  }

  lemma HeadIs(l: string, pt: string)
    requires Payload(pt) && "a=fmtp:" + pt + " " <= l
    ensures "a=fmtp:" <= l && DigitsEnd(l, 7) == 7 + |pt| && l[7..7 + |pt|] == pt && l[7 + |pt|] == ' '
  {
    var head := "a=fmtp:" + pt + " ";
    assert l == head + l[|head|..];
    assert l[7..] == pt + ([' '] + l[|head|..]);
    DigitsAre(l, 7, pt, [' '] + l[|head|..]);
    assert l[7 + |pt|] == head[7 + |pt|];
    assert "a=fmtp:" <= head;
  }

  lemma HeadOf(l: string, pt: string)
    requires "a=fmtp:" <= l && DigitsEnd(l, 7) == 7 + |pt| && |pt| > 0 && 7 + |pt| < |l| && l[7..7 + |pt|] == pt && l[7 + |pt|] == ' '
    ensures "a=fmtp:" + pt + " " <= l
  {
    hide DigitsEnd;
    assert l == l[..7] + l[7..7 + |pt|] + [l[7 + |pt|]] + l[8 + |pt|..];
  }

  lemma DeclaredIsLast(l: string, pt: string, q: string, o: nat)
    requires Declares(l, pt, q, o)
    requires var found := LastApt(l, 8 + |pt|);
             if found.Some? then
               && AptAt(l, found.value) && found.value <= |l| && Unbroken(l, 8 + |pt|, found.value)
               && forall o' :: found.value < o' <= |l| && Unbroken(l, 8 + |pt|, o') ==> !AptAt(l, o')
             else forall o' :: 8 + |pt| <= o' <= |l| && Unbroken(l, 8 + |pt|, o') ==> !AptAt(l, o')
    ensures LastApt(l, 8 + |pt|) == Some(o) && q == l[o + 4..DigitsEnd(l, o + 4)]
  {
    hide AptAt, AptOf, LastApt, Unbroken;
    AptAtIs(l, o);
    var found := LastApt(l, 8 + |pt|);
    if found.Some? {
      AptAtIs(l, found.value);
    }
  }

  // ---- rtpmap ----

  // The line maps pt to a codec: "a=rtpmap:" in any letter case, pt, a space, a name without a slash,
  // and the clock rate 90000, ended by white space or the line.
  ghost predicate MapsTo(l: string, pt: string, name: string) {
    Payload(pt) && name != [] && '/' !in name && exists head, after :: LaidOut(l, head, pt, name, after)
  }

  predicate LaidOut(l: string, head: string, pt: string, name: string, after: string) {
    && l == head + pt + " " + name + "/90000" + after
    && Lower(head) == "a=rtpmap:" && (after == [] || IsSpace(after[0]))
  }

  lemma SlashIs(l: string, i: nat, name: string, after: string)
    requires i <= |l| && l[i..] == name + after && '/' !in name && after != [] && after[0] == '/'
    ensures FirstSlash(l, i) == i + |name|
    decreases |name|
  {
    if name != [] {
      assert l[i] == l[i..][0] == name[0];
      assert l[i + 1..] == l[i..][1..] == name[1..] + after;
      SlashIs(l, i + 1, name[1..], after);
    } else {
      assert l[i] == l[i..][0] == after[0];
    }
  }

  lemma {:induction false} BeforeSlash(l: string, i: nat)
    requires i <= |l|
    ensures '/' !in l[i..FirstSlash(l, i)]
    decreases |l| - i
  {
    if i < |l| && l[i] != '/' {
      BeforeSlash(l, i + 1);
      assert l[i..FirstSlash(l, i)] == [l[i]] + l[i + 1..FirstSlash(l, i + 1)];
    } else {
      assert l[i..FirstSlash(l, i)] == [];
    }
  }

  lemma HeadIgnoresCase(l: string)
    ensures PrefixIgnoringCase(l, "a=rtpmap:") <==> |l| >= 9 && Lower(l[..9]) == "a=rtpmap:"
  {
    if |l| >= 9 {
      assert |Lower(l[..9])| == 9 == |"a=rtpmap:"|;
      assert forall i :: 0 <= i < 9 ==> Lower(l[..9])[i] == LowerChar(l[i]);
    }
  }

  lemma Parts(l: string, a: string, b: string)
    requires l == a + b
    ensures l[..|a|] == a && l[|a|..] == b
  {
  }

  lemma Associates3(a: string, b: string, c: string, d: string, e: string, f: string)
    ensures a + b + c + d + e + f == a + (b + (c + (d + (e + f))))
  {
  }

  lemma Further(l: string, i: nat, a: string, b: string)
    requires i <= |l| && l[i..] == a + b
    ensures i + |a| <= |l| && l[i + |a|..] == b && l[i..i + |a|] == a
  {
    assert l[i + |a|..] == l[i..][|a|..];
    assert l[i..i + |a|] == l[i..][..|a|];
  }

  // What is read when the parts are where they are expected.
  lemma RtpMapFrom(l: string, j: nat, k: nat)
    requires PrefixIgnoringCase(l, "a=rtpmap:") && j == DigitsEnd(l, 9) && 9 < j < |l| && l[j] == ' '
    requires k == FirstSlash(l, j + 1) && k > j + 1 && "/90000" <= l[k..] && (|l| == k + 6 || IsSpace(l[k + 6]))
    ensures RtpMap(l) == Some((l[9..j], Upper(l[j + 1..k])))
  {
    hide PrefixIgnoringCase, Upper, IsSpace;
  }

  lemma RtpMapParts(l: string)
    requires RtpMap(l).Some?
    ensures PrefixIgnoringCase(l, "a=rtpmap:")
    ensures var j := DigitsEnd(l, 9);
            && 9 < j < |l| && l[j] == ' '
            && var k := FirstSlash(l, j + 1);
               k > j + 1 && "/90000" <= l[k..] && (|l| == k + 6 || IsSpace(l[k + 6]))
               && RtpMap(l) == Some((l[9..j], Upper(l[j + 1..k])))
  {
    hide PrefixIgnoringCase, Upper, IsSpace, DigitsEnd, FirstSlash;
    var j := DigitsEnd(l, 9);
    assert 9 < j < |l| && l[j] == ' ';
    var k := FirstSlash(l, j + 1);
    assert k > j + 1 && "/90000" <= l[k..];
  }

  // Exactly the lines that map pt to a name are read so, with the name in upper case.
  lemma RtpMapReads(l: string, pt: string, codec: string)
    ensures RtpMap(l) == Some((pt, codec)) <==> exists name :: MapsTo(l, pt, name) && codec == Upper(name)
  {
    hide RtpMap, Upper, MapsTo;
    if exists name :: MapsTo(l, pt, name) && codec == Upper(name) {
      var name :| MapsTo(l, pt, name) && codec == Upper(name);
      MappedIsRead(l, pt, name);
    }
    if RtpMap(l) == Some((pt, codec)) {
      var name := ReadIsMapped(l);
    }
  }

  // The names under which RTP payload formats are registered; no two codecs share one.
  lemma CodecIsNamed(l: string, pt: string, c: VideoCodec)
    ensures RtpMap(l) == Some((pt, Name(c))) <==>
            exists name :: MapsTo(l, pt, name) &&
                           match c { case VP9 => Upper(name) == "VP9" case AV1 => Upper(name) == "AV1"
                                     case H264 => Upper(name) == "H264" case VP8 => Upper(name) == "VP8" }
    ensures forall d: VideoCodec :: Name(c) == Name(d) ==> c == d
  {
    hide RtpMap, Upper, MapsTo;
    RtpMapReads(l, pt, Name(c));
    assert |"H264"| == 4 && "VP9"[2] == '9' && "VP8"[2] == '8' && "AV1"[2] == '1';
  }

  lemma ReadIsMapped(l: string) returns (name: string)
    requires RtpMap(l).Some?
    ensures MapsTo(l, RtpMap(l).value.0, name) && RtpMap(l).value.1 == Upper(name)
  {
    hide RtpMap, Upper, PrefixIgnoringCase, IsSpace, Lower;
    RtpMapParts(l);
    HeadIgnoresCase(l);
    var j := DigitsEnd(l, 9);
    var k := FirstSlash(l, j + 1);
    BeforeSlash(l, j + 1);
    name := l[j + 1..k];
    Laid(l, j, k);
  }

  lemma Laid(l: string, j: nat, k: nat)
    requires |l| >= 9 && Lower(l[..9]) == "a=rtpmap:"
    requires 9 < j < |l| && l[j] == ' ' && j + 1 < k <= |l| && "/90000" <= l[k..] && (|l| == k + 6 || IsSpace(l[k + 6]))
    requires Payload(l[9..j]) && '/' !in l[j + 1..k]
    ensures MapsTo(l, l[9..j], l[j + 1..k])
  {
    hide Lower, IsSpace, Payload, LaidOut;
    Assembled(l, j, k);
    EndsSo(l, k);
    var head, pt, name, after := l[..9], l[9..j], l[j + 1..k], l[k + 6..];
    LaidOutIs(l, head, pt, name, after);
  }

  lemma EndsSo(l: string, k: nat)
    requires k + 6 <= |l| && (|l| == k + 6 || IsSpace(l[k + 6]))
    ensures l[k + 6..] == [] || IsSpace(l[k + 6..][0])
  {
    hide IsSpace;
  }

  lemma LaidOutIs(l: string, head: string, pt: string, name: string, after: string)
    requires l == head + pt + " " + name + "/90000" + after
    requires Lower(head) == "a=rtpmap:" && (after == [] || IsSpace(after[0]))
    ensures LaidOut(l, head, pt, name, after)
  {
  }

  lemma Assembled(l: string, j: nat, k: nat)
    requires 9 < j < k <= |l| && l[j] == ' ' && "/90000" <= l[k..]
    ensures l == l[..9] + l[9..j] + " " + l[j + 1..k] + "/90000" + l[k + 6..]
  {
    SplitAt(l, 0, 9);
    SplitAt(l, 9, j);
    SplitAt(l, j, j + 1);
    SplitAt(l, j + 1, k);
    Further(l, k, "/90000", l[k..][6..]);
    assert l[0..] == l && l[0..9] == l[..9] && l[j..j + 1] == " ";
    Associates3(l[..9], l[9..j], " ", l[j + 1..k], "/90000", l[k + 6..]);
  }

  lemma SplitAt(l: string, i: nat, j: nat)
    requires i <= j <= |l|
    ensures l[i..] == l[i..j] + l[j..]
  {
  }

  lemma MappedIsRead(l: string, pt: string, name: string)
    requires MapsTo(l, pt, name)
    ensures RtpMap(l) == Some((pt, Upper(name)))
  {
    hide PrefixIgnoringCase, Upper, IsSpace, Lower, RtpMap;
    var head, after :| LaidOut(l, head, pt, name, after);
    Associates3(head, pt, " ", name, "/90000", after);
    assert |Lower(head)| == |head| == 9;
    Parts(l, head, pt + (" " + (name + ("/90000" + after))));
    DigitsAre(l, 9, pt, " " + (name + ("/90000" + after)));
    var j := 9 + |pt|;
    HeadIgnoresCase(l);
    TailIsRead(l, j, name, after);
  }

  lemma TailIsRead(l: string, j: nat, name: string, after: string)
    requires PrefixIgnoringCase(l, "a=rtpmap:") && j == DigitsEnd(l, 9) && 9 < j
    requires name != [] && '/' !in name && (after == [] || IsSpace(after[0]))
    requires l[j..] == " " + (name + ("/90000" + after))
    ensures RtpMap(l) == Some((l[9..j], Upper(name)))
  {
    hide PrefixIgnoringCase, Upper, IsSpace, RtpMap;
    Further(l, j, " ", name + ("/90000" + after));
    SlashIs(l, j + 1, name, "/90000" + after);
    Further(l, j + 1, name, "/90000" + after);
    var k := j + 1 + |name|;
    Further(l, k, "/90000", after);
    assert l[j] == l[j..][0] == ' ';
    assert after != [] ==> l[k + 6] == l[k + 6..][0];
    RtpMapFrom(l, j, k);
  }

  // ---- the payload of a line ----

  ghost predicate Starts(l: string, prefix: string, pt: string) {
    exists after :: l == prefix + pt + after && (after == [] || !IsWord(after[0]))
  }

  // The line is one of a mapping, a parameter or feedback, for pt, which ends as a word.
  ghost predicate SpeaksOf(l: string, pt: string) {
    Payload(pt) && (Starts(l, "a=rtpmap:", pt) || Starts(l, "a=fmtp:", pt) || Starts(l, "a=rtcp-fb:", pt))
  }

  lemma TagAfterReads(l: string, prefix: string, pt: string)
    ensures TagAfter(l, prefix) == Some(pt) <==> Payload(pt) && Starts(l, prefix, pt)
  {
    hide IsWord, TagAfter, Payload;
    if Payload(pt) && Starts(l, prefix, pt) {
      var after :| l == prefix + pt + after && (after == [] || !IsWord(after[0]));
      StartIsRead(l, prefix, pt, after);
    }
    if TagAfter(l, prefix) == Some(pt) {
      ReadStarts(l, prefix, pt);
    }
  }

  lemma StartIsRead(l: string, prefix: string, pt: string, after: string)
    requires Payload(pt) && l == prefix + pt + after && (after == [] || !IsWord(after[0]))
    ensures TagAfter(l, prefix) == Some(pt)
  {
    if after != [] {
      WordsHoldDigits(after[0]);
    }
    hide IsWord, IsDigit;
    assert prefix + pt + after == prefix + (pt + after);
    Parts(l, prefix, pt + after);
    DigitsAre(l, |prefix|, pt, after);
    assert after != [] ==> l[|prefix| + |pt|] == l[|prefix| + |pt|..][0];
  }

  lemma ReadStarts(l: string, prefix: string, pt: string)
    requires TagAfter(l, prefix) == Some(pt)
    ensures Payload(pt) && Starts(l, prefix, pt)
  {
    hide IsWord, DigitsEnd, IsDigit;
    var j := DigitsEnd(l, |prefix|);
    assert l == prefix + pt + l[j..];
    assert l[j..] != [] ==> l[j..][0] == l[j];
  }

  lemma WordsHoldDigits(c: char)
    ensures !IsWord(c) ==> !IsDigit(c)
  {
  }

  // A line is filtered by the payload it speaks of.
  lemma TagReads(l: string, pt: string)
    ensures Tag(l) == Some(pt) <==> SpeaksOf(l, pt)
  {
    hide TagAfter, Starts, Payload;
    TagAfterReads(l, "a=rtpmap:", pt);
    TagAfterReads(l, "a=fmtp:", pt);
    TagAfterReads(l, "a=rtcp-fb:", pt);
    OnePrefix(l);
  }

  lemma OnePrefix(l: string)
    ensures TagAfter(l, "a=rtpmap:").Some? ==> TagAfter(l, "a=fmtp:").None? && TagAfter(l, "a=rtcp-fb:").None?
    ensures TagAfter(l, "a=fmtp:").Some? ==> TagAfter(l, "a=rtcp-fb:").None?
  {
    assert "a=rtpmap:"[2] == 'r' && "a=rtpmap:"[3] == 't' && "a=rtpmap:"[4] == 'p';
    assert "a=fmtp:"[2] == 'f' && "a=rtcp-fb:"[2] == 'r' && "a=rtcp-fb:"[4] == 'c';
  }
}
