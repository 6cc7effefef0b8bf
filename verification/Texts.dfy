// Trimming, case folding and identifier normalisation, as the runtime-state
// files use them on strings read back from disk.
module Texts {
  import opened Wrappers

  // The characters JavaScript's trim() removes.
  predicate IsSpace(c: char) {
    var n := c as int;
    9 <= n <= 13 || n == 0x20 || n == 0xA0 || n == 0x1680 || 0x2000 <= n <= 0x200A ||
    n == 0x2028 || n == 0x2029 || n == 0x202F || n == 0x205F || n == 0x3000 || n == 0xFEFF
  }

  function TrimStart(s: string): (t: string)
    ensures t == [] || !IsSpace(t[0])
    ensures s != [] && !IsSpace(s[|s| - 1]) ==> t != [] && t[|t| - 1] == s[|s| - 1]
  {
    if s != [] && IsSpace(s[0]) then TrimStart(s[1..]) else s
  }

  function TrimEnd(s: string): (t: string)
    ensures t == [] || !IsSpace(t[|t| - 1])
    ensures t <= s
    ensures forall i :: |t| <= i < |s| ==> IsSpace(s[i])
  {
    if s != [] && IsSpace(s[|s| - 1]) then TrimEnd(s[..|s| - 1]) else s
  }

  function Trim(s: string): string {
    TrimStart(TrimEnd(s))
  }

  predicate Trimmed(s: string) {
    s != [] ==> !IsSpace(s[0]) && !IsSpace(s[|s| - 1])
  }

  lemma TrimTwice(s: string)
    ensures Trimmed(Trim(s))
    ensures Trim(Trim(s)) == Trim(s)
  {
  }

  function LowerChar(c: char): char {
    if 'A' <= c <= 'Z' then (c as int + 32) as char else c
  }

  function Lower(s: string): (t: string)
    ensures |t| == |s|
    ensures forall i :: 0 <= i < |s| ==> t[i] == LowerChar(s[i])
  {
    if s == [] then [] else [LowerChar(s[0])] + Lower(s[1..])
  }

  lemma LowerTwice(s: string)
    ensures Lower(Lower(s)) == Lower(s)
  {
  }

  predicate IsHex(c: char) {
    '0' <= c <= '9' || 'a' <= c <= 'f' || 'A' <= c <= 'F'
  }

  predicate IsGuid(s: string) {
    |s| == 36 &&
    forall i :: 0 <= i < 36 ==> if i == 8 || i == 13 || i == 18 || i == 23 then s[i] == '-' else IsHex(s[i])
  }

  function NormalizeGuid(s: string): (g: Option<string>)
    ensures g.Some? ==> IsGuid(g.value)
  {
    if IsGuid(Trim(s)) then Some(Lower(Trim(s))) else None
  }

  lemma NormalizeGuidTwice(s: string)
    requires NormalizeGuid(s).Some?
    ensures NormalizeGuid(NormalizeGuid(s).value) == NormalizeGuid(s)
  {
    var g := NormalizeGuid(s).value;
    LowerTwice(Trim(s));
    assert Trimmed(g);
    assert Trim(g) == g;
  }

  function RemoveDashes(s: string): (t: string)
    ensures '-' !in t
    ensures '-' !in s ==> t == s
  {
    if s == [] then []
    else if s[0] == '-' then RemoveDashes(s[1..])
    else [s[0]] + RemoveDashes(s[1..])
  }

  predicate IsCompactGuid(s: string) {
    |s| == 32 && forall i :: 0 <= i < 32 ==> IsHex(s[i])
  }

  // A recycle token is a GUID in any dash layout and letter case, or other text kept as it is.
  function NormalizeRecycleToken(s: string): (t: Option<string>)
    ensures t.Some? ==> t.value != [] && Trimmed(t.value)
  {
    var text := Trim(s);
    if text == [] then None
    else
      var compact := RemoveDashes(text);
      if IsCompactGuid(compact) then
        var r := Lower(compact);
        assert !IsSpace(r[0]) && !IsSpace(r[31]);
        Some(r)
      else
        Some(text)
  }

  lemma NormalizeRecycleTokenTwice(s: string)
    requires NormalizeRecycleToken(s).Some?
    ensures NormalizeRecycleToken(NormalizeRecycleToken(s).value) == NormalizeRecycleToken(s)
  {
    var t := NormalizeRecycleToken(s).value;
    TrimTwice(s);
    assert Trim(t) == t;
    var compact := RemoveDashes(Trim(s));
    if IsCompactGuid(compact) {
      assert forall i :: 0 <= i < 32 ==> IsHex(t[i]);
      LowerTwice(compact);
    }
  }
}
