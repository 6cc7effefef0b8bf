// UTF-8 (RFC 3629, section 3), which Buffer writes strings in.
module Utf8 {

  type byte = b: int | 0 <= b < 256

  function EncodeChar(c: char): (r: seq<byte>)
    ensures 1 <= |r| <= 4
  {
    var n := c as int;
    if n < 0x80 then [n]
    else if n < 0x800 then [0xC0 + n / 64, 0x80 + n % 64]
    else if n < 0x1_0000 then [0xE0 + n / 4096, 0x80 + n / 64 % 64, 0x80 + n % 64]
    else [0xF0 + n / 262144, 0x80 + n / 4096 % 64, 0x80 + n / 64 % 64, 0x80 + n % 64]
  }

  function Encode(s: string): (r: seq<byte>)
    ensures s != [] ==> r != []
  {
    if s == [] then [] else EncodeChar(s[0]) + Encode(s[1..])
  }

  lemma {:induction false} EncodeConcat(s: string, t: string)
    ensures Encode(s + t) == Encode(s) + Encode(t)
  {
    if s == [] {
      assert s + t == t;
    } else {
      assert (s + t)[1..] == s[1..] + t;
      EncodeConcat(s[1..], t);
    }
  }

  // A zero byte comes from the zero character only.
  lemma {:induction false} ZeroBytes(s: string)
    ensures 0 in Encode(s) <==> 0 as char in s
  {
    if s != [] {
      ZeroBytes(s[1..]);
      ZeroChar(s[0]);
      assert s == [s[0]] + s[1..];
    }
  }

  lemma ZeroChar(c: char)
    ensures 0 in EncodeChar(c) <==> c == 0 as char
  {
    if c as int == 0 {
      assert EncodeChar(c)[0] == 0;
    }
  }

  // No encoding of a character is the beginning of another's.
  lemma FirstChar(c: char, x: seq<byte>, d: char, y: seq<byte>)
    requires EncodeChar(c) + x == EncodeChar(d) + y
    ensures c == d && x == y
  {
    var a, b := EncodeChar(c), EncodeChar(d);
    assert (a + x)[0] == a[0] && (b + y)[0] == b[0];
    LengthByFirst(c);
    LengthByFirst(d);
    assert |a| == |b|;
    assert a == (a + x)[..|a|] == b;
    assert x == (a + x)[|a|..] == y;
    SameChar(c, d);
  }

  lemma LengthByFirst(c: char)
    ensures |EncodeChar(c)| == if EncodeChar(c)[0] < 0x80 then 1 else if EncodeChar(c)[0] < 0xE0 then 2
                               else if EncodeChar(c)[0] < 0xF0 then 3 else 4
  {
  }

  // The code point a sequence stands for.
  function Decoded(b: seq<byte>): int {
    if |b| == 1 then b[0]
    else if |b| == 2 then (b[0] as int - 0xC0) * 64 + (b[1] as int - 0x80)
    else if |b| == 3 then (b[0] as int - 0xE0) * 4096 + (b[1] as int - 0x80) * 64 + (b[2] as int - 0x80)
    else if |b| == 4 then (b[0] as int - 0xF0) * 262144 + (b[1] as int - 0x80) * 4096 + (b[2] as int - 0x80) * 64 + (b[3] as int - 0x80)
    else 0
  }

  lemma DecodedIs(c: char)
    ensures Decoded(EncodeChar(c)) == c as int
  {
    var n := c as int;
    assert n == n / 64 * 64 + n % 64;
    assert n / 64 == n / 4096 * 64 + n / 64 % 64;
    assert n / 4096 == n / 262144 * 64 + n / 4096 % 64;
  }

  lemma SameChar(c: char, d: char)
    requires EncodeChar(c) == EncodeChar(d)
    ensures c == d
  {
    hide EncodeChar, Decoded;
    DecodedIs(c);
    DecodedIs(d);
  }

  // Text is recovered from its bytes.
  lemma {:induction false} EncodeInjective(s: string, t: string)
    requires Encode(s) == Encode(t)
    ensures s == t
  {
    hide EncodeChar;
    if s != [] && t != [] {
      FirstChar(s[0], Encode(s[1..]), t[0], Encode(t[1..]));
      EncodeInjective(s[1..], t[1..]);
      assert s == [s[0]] + s[1..] && t == [t[0]] + t[1..];
    }
  }

  // What of a text fits into n bytes, without cutting a character.
  function Cut(s: string, n: nat): (r: string)
    ensures |r| <= |s| && r == s[..|r|] && |Encode(r)| <= n
  {
    if s == [] || |EncodeChar(s[0])| > n then []
    else
      var rest := Cut(s[1..], n - |EncodeChar(s[0])|);
      assert ([s[0]] + rest)[1..] == rest;
      [s[0]] + rest
  }

  // A text that fits is not cut, and one character more than what is kept would not fit.
  lemma {:induction false} CutIsLongest(s: string, n: nat)
    ensures |Encode(s)| <= n ==> Cut(s, n) == s
    ensures |Cut(s, n)| < |s| ==> |Encode(Cut(s, n))| + |EncodeChar(s[|Cut(s, n)|])| > n
  {
    hide EncodeChar;
    if s != [] && |EncodeChar(s[0])| <= n {
      CutIsLongest(s[1..], n - |EncodeChar(s[0])|);
      assert ([s[0]] + Cut(s[1..], n - |EncodeChar(s[0])|))[1..] == Cut(s[1..], n - |EncodeChar(s[0])|);
    }
  }

  // Characters past the n-th make no difference: each takes a byte at least.
  lemma {:induction false} CutOfSlice(s: string, m: nat, n: nat)
    requires n <= m <= |s|
    ensures Cut(s[..m], n) == Cut(s, n)
  {
    hide EncodeChar;
    if m > 0 {
      assert s[..m][0] == s[0] && s[..m][1..] == s[1..][..m - 1];
      if |EncodeChar(s[0])| <= n {
        CutOfSlice(s[1..], m - 1, n - |EncodeChar(s[0])|);
      }
    }
  }
}
