// The characters behind the predicates, listed, and identifiers by their groups of digits.
module Alphabets {
  import opened Wrappers
  import Texts
  import SdpText
  import CodecPolicies

  const DIGITS := "0123456789"
  const SMALL := "abcdefghijklmnopqrstuvwxyz"
  const CAPITAL := "ABCDEFGHIJKLMNOPQRSTUVWXYZ"

  lemma DigitIsListed(c: char)
    ensures CodecPolicies.IsDigit(c) <==> c in DIGITS
  {
  }

  lemma {:induction false} LettersAre(i: nat)
    requires i < 26
    ensures SMALL[i] as int == 97 + i && CAPITAL[i] as int == 65 + i
  {
  }

  lemma LetterIsListed(c: char)
    ensures 'a' <= c <= 'z' <==> c in SMALL
    ensures 'A' <= c <= 'Z' <==> c in CAPITAL
  {
  }

  // A word has letters of either case, digits and underscores.
  lemma WordIsListed(c: char)
    ensures CodecPolicies.IsWord(c) <==> c in SMALL || c in CAPITAL || c in DIGITS || c == '_'
  {
  }

  // Changing case takes the i-th letter to the i-th letter, and leaves every other character.
  lemma CaseIsByPosition(i: nat, c: char)
    requires i < 26
    ensures Texts.LowerChar(CAPITAL[i]) == SMALL[i] && CodecPolicies.UpperChar(SMALL[i]) == CAPITAL[i]
    ensures c !in CAPITAL ==> Texts.LowerChar(c) == c
    ensures c !in SMALL ==> CodecPolicies.UpperChar(c) == c
  {
    LettersAre(i);
    LetterIsListed(c);
    hide SMALL, CAPITAL;
  }

  // Hexadecimal digits have letters of either case.
  lemma HexIsListed(c: char)
    ensures Texts.IsHex(c) <==> c in DIGITS || c in "abcdef" || c in "ABCDEF"
  {
  }

  // Line ends are the four line terminators; white space has these, the tabs and the space separators.
  lemma SpaceIsListed(c: char)
    ensures SdpText.Break(c) <==> c in {'\n', '\r', '\U{2028}', '\U{2029}'}
    ensures Texts.IsSpace(c) <==>
            || SdpText.Break(c)
            || c in {'\t', '\U{000B}', '\U{000C}', ' ', '\U{00A0}', '\U{FEFF}'}
            || c in {'\U{1680}', '\U{202F}', '\U{205F}', '\U{3000}'}
            || c in {'\U{2000}', '\U{2001}', '\U{2002}', '\U{2003}', '\U{2004}', '\U{2005}',
                     '\U{2006}', '\U{2007}', '\U{2008}', '\U{2009}', '\U{200A}'}
  {
  }

  // ---- identifiers ----

  predicate HexGroup(s: string, n: nat) {
    |s| == n && forall i :: 0 <= i < n ==> Texts.IsHex(s[i])
  }

  ghost predicate Grouped(s: string, a: string, b: string, c: string, d: string, e: string) {
    && HexGroup(a, 8) && HexGroup(b, 4) && HexGroup(c, 4) && HexGroup(d, 4) && HexGroup(e, 12)
    && s == a + "-" + b + "-" + c + "-" + d + "-" + e
  }

  // An identifier is five groups of 8, 4, 4, 4 and 12 hexadecimal digits with dashes between.
  lemma GuidExactlyWhen(s: string)
    ensures Texts.IsGuid(s) <==> exists a, b, c, d, e :: Grouped(s, a, b, c, d, e)
    ensures Texts.NormalizeGuid(s).Some? <==> Texts.IsGuid(Texts.Trim(s))
    ensures Texts.NormalizeGuid(s).Some? ==> Texts.NormalizeGuid(s).value == Texts.Lower(Texts.Trim(s))
  {
    hide Texts.Trim, Texts.Lower, Texts.IsHex;
    if Texts.IsGuid(s) {
      assert s == s[..8] + "-" + s[9..13] + "-" + s[14..18] + "-" + s[19..23] + "-" + s[24..];
      assert Grouped(s, s[..8], s[9..13], s[14..18], s[19..23], s[24..]);
    }
    if exists a, b, c, d, e :: Grouped(s, a, b, c, d, e) {
      var a, b, c, d, e :| Grouped(s, a, b, c, d, e);
      GroupsFit(s, a, b, c, d, e);
    }
  }

  lemma GroupsFit(s: string, a: string, b: string, c: string, d: string, e: string)
    requires Grouped(s, a, b, c, d, e)
    ensures Texts.IsGuid(s)
  {
    hide Texts.IsHex;
    assert s[..8] == a && s[9..13] == b && s[14..18] == c && s[19..23] == d && s[24..] == e;
    assert s[8] == s[13] == s[18] == s[23] == '-';
    forall i | 0 <= i < 36 && i != 8 && i != 13 && i != 18 && i != 23
      ensures Texts.IsHex(s[i])
    {
      assert i < 8 ==> s[i] == a[i];
      assert 8 < i < 13 ==> s[i] == b[i - 9];
      assert 13 < i < 18 ==> s[i] == c[i - 14];
      assert 18 < i < 23 ==> s[i] == d[i - 19];
      assert 23 < i ==> s[i] == e[i - 24];
    }
  }
}
