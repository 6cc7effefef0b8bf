// A reader of the format recovers what was archived.
module UstarLaws {
  import opened Wrappers
  import opened Utf8
  import opened Ustar

  // ---- the length ----

  lemma PaddedIsWhole(n: nat)
    ensures (n + Padding(n)) % BLOCK == 0
  {
  }

  lemma {:induction false} ArchiveIsWholeBlocks(files: seq<BundleFile>)
    requires Accepted(files)
    ensures |Archive(files)| % BLOCK == 0
  {
    hide Member, Split, Padding;
    if files != [] {
      ArchiveIsWholeBlocks(files[1..]);
      PaddedIsWhole(|files[0].content|);
    }
  }

  // ---- the path ----

  // A path is refused exactly when its text form takes more than 100 bytes and no slash splits it
  // into at most 155 and at most 100.
  lemma RefusedOnlyWhenNothingFits(path: string)
    ensures Split(path).None? <==>
            |Encode(Normalized(path))| > 100
            && forall p :: 0 <= p < |Normalized(path)| ==> !Fits(Normalized(path), p)
  {
    hide Fits, Encode, Normalized;
  }

  // The parts joined with a slash are the path again.
  lemma SplitJoins(path: string)
    requires Split(path).Some?
    ensures Joined(Encode(Split(path).value.1), Encode(Split(path).value.0)) == Encode(Normalized(path))
  {
    hide Normalized;
    var s := Normalized(path);
    var p := FirstFit(s, 0);
    if |Encode(s)| > 100 {
      assert s == s[..p] + (['/'] + s[p + 1..]);
      assert p > 0 by {
        NormalizedStart(path);
      }
      EncodeConcat(s[..p], ['/'] + s[p + 1..]);
      EncodeConcat(['/'], s[p + 1..]);
      assert Encode(['/']) == [47] by {
        assert ['/'][1..] == [];
      }
      assert Encode(s) == Encode(s[..p]) + [47] + Encode(s[p + 1..]);
    }
  }

  lemma NormalizedStart(path: string)
    ensures Normalized(path) != [] ==> Normalized(path)[0] != '/'
  {
  }

  // ---- numbers ----

  // The sum of a block counts every byte once, wherever the block is cut.
  lemma {:induction false} SumAddsUp(a: seq<byte>, b: seq<byte>, x: byte)
    ensures Sum([]) == 0 && Sum([x]) == x
    ensures Sum(a + b) == Sum(a) + Sum(b)
  {
    if b == [] {
      assert a + b == a;
    } else {
      var n := |b| - 1;
      SumAddsUp(a, b[..n], x);
      assert (a + b)[..|a| + n] == a + b[..n];
    }
  }

  lemma {:induction false} LeadingZeros(k: nat, d: seq<byte>)
    requires forall i :: 0 <= i < |d| ==> 48 <= d[i] < 56
    ensures OctalValue(Fill(k, 48) + d) == OctalValue(d)
  {
    var x := Fill(k, 48) + d;
    if d != [] {
      assert x[..|x| - 1] == Fill(k, 48) + d[..|d| - 1];
      LeadingZeros(k, d[..|d| - 1]);
    } else if k > 0 {
      assert x[..|x| - 1] == Fill(k - 1, 48) + d;
      LeadingZeros(k - 1, d);
    }
  }

  lemma AtLeastOnce(m: nat, k: int)
    requires k >= 1
    ensures m * k >= m
  {
    assert m * k == m * (k - 1) + m;
  }

  lemma Remainder(n: nat, q: nat, m: nat, r: nat)
    requires m >= 1 && n == m * q + r && r < m
    ensures n % m == r
  {
    var d := n / m;
    assert n == m * d + n % m;
    if d > q {
      assert m * (d - q) == m * d - m * q;
      AtLeastOnce(m, d - q);
    } else if d < q {
      assert m * (q - d) == m * q - m * d;
      AtLeastOnce(m, q - d);
    }
  }

  lemma OctalStep(n: nat, w: nat)
    requires w >= 1
    ensures n % Pow8(w) == 8 * (n / 8 % Pow8(w - 1)) + n % 8
  {
    var m := Pow8(w - 1);
    var q, r := n / 8 / m, n / 8 % m;
    assert n / 8 == m * q + r;
    assert n == 8 * (m * q + r) + n % 8;
    assert n == (8 * m) * q + (8 * r + n % 8);
    Remainder(n, q, 8 * m, 8 * r + n % 8);
  }

  lemma SmallRemainder(n: nat, w: nat)
    requires w >= 1 && n < 8
    ensures n % Pow8(w) == n
  {
    assert Pow8(w) >= 8;
    Remainder(n, 0, Pow8(w), n);
  }

  lemma OneMoreDigit(front: seq<byte>, c: byte, w: nat)
    requires w >= 1 && 48 <= c < 56 && forall i :: 0 <= i < |front| ==> 48 <= front[i] < 56
    ensures OctalValue(LastBytes(front + [c], w)) == 8 * OctalValue(LastBytes(front, w - 1)) + (c - 48)
  {
    var d := LastBytes(front + [c], w);
    assert d == LastBytes(front, w - 1) + [c];
    assert d[..|d| - 1] == LastBytes(front, w - 1);
  }

  lemma {:induction false} LastDigits(n: nat, w: nat)
    ensures OctalValue(LastBytes(Octal(n), w)) == n % Pow8(w)
    decreases w
  {
    hide LastBytes;
    if w == 0 {
      assert LastBytes(Octal(n), 0) == [] by {
        NoDigits(Octal(n));
      }
    } else if n < 8 {
      OneMoreDigit([], 48 + n, w);
      assert [] + [48 + n] == Octal(n);
      assert LastBytes([], w - 1) == [] by {
        NoDigits([]);
      }
      SmallRemainder(n, w);
    } else {
      OctalStep(n, w);
      OneMoreDigit(Octal(n / 8), 48 + n % 8, w);
      LastDigits(n / 8, w - 1);
    }
  }

  lemma NoDigits(b: seq<byte>)
    ensures LastBytes(b, 0) == [] && forall w: nat :: LastBytes([], w) == []
  {
  }

  // A number field keeps the value modulo a power of eight: what fits comes back as it was.
  lemma NumberReadsBack(value: int, length: nat)
    requires length >= 2
    ensures NumberOf(NumberField(value, length)) == Some(Max(0, value) % Pow8(length - 1))
  {
    hide Octal, OctalValue, Pow8;
    var w := length - 1;
    var last := LastBytes(Octal(Max(0, value)), w);
    LastDigits(Max(0, value), w);
    var digits := PadStart(last, w);
    if |last| < w {
      LeadingZeros(w - |last|, last);
    }
    DigitsThen(digits, [0]);
  }

  lemma DigitsThen(digits: seq<byte>, end: seq<byte>)
    requires digits != [] && forall i :: 0 <= i < |digits| ==> 48 <= digits[i] < 56
    requires end != [] && forall i :: 0 <= i < |end| ==> end[i] == 0 || end[i] == 32
    ensures NumberOf(digits + end) == Some(OctalValue(digits))
  {
    var f := digits + end;
    assert f[|digits|] == end[0];
    assert DigitsEnd(f, 0) == |digits|;
    assert f[..|digits|] == digits;
    assert forall i :: |digits| <= i < |f| ==> f[i] == end[i - |digits|];
  }

  lemma ChecksumReadsBack(b: seq<byte>)
    requires |b| == BLOCK
    ensures NumberOf(Checksum(Sum(b))) == Some(Sum(b))
  {
    hide Octal, OctalValue, Pow8, Sum;
    ChecksumFits(b);
    var digits := PadStart(Octal(Sum(b)), 6);
    SumInSix(b);
    LastDigits(Sum(b), 6);
    assert LastBytes(Octal(Sum(b)), 6) == Octal(Sum(b));
    if |Octal(Sum(b))| < 6 {
      LeadingZeros(6 - |Octal(Sum(b))|, Octal(Sum(b)));
    }
    DigitsThen(digits, [0, 32]);
  }

  lemma SumInSix(b: seq<byte>)
    requires |b| == BLOCK
    ensures Sum(b) % Pow8(6) == Sum(b) && |Octal(Sum(b))| <= 6
  {
    assert Pow8(6) == 8 * (8 * (8 * (8 * (8 * (8 * Pow8(0)))))) == 262144;
    OctalDigits(Sum(b), 6);
  }

  // ---- what is at each offset ----

  ghost predicate Ordered(ws: seq<(nat, seq<byte>)>, n: nat) {
    && Placed(ws, n)
    && forall i :: 0 <= i < |ws| - 1 ==> ws[i].0 + |ws[i].1| <= ws[i + 1].0
  }

  lemma {:induction false} AllBefore(ws: seq<(nat, seq<byte>)>, n: nat, k: nat)
    requires Ordered(ws, n) && k < |ws|
    ensures forall i :: 0 <= i < k ==> ws[i].0 + |ws[i].1| <= ws[k].0
  {
    if k > 0 {
      AllBefore(ws, n, k - 1);
    }
  }

  lemma {:induction false} Beyond(b: seq<byte>, ws: seq<(nat, seq<byte>)>, p: nat)
    requires Placed(ws, |b|) && p < |b|
    requires forall i :: 0 <= i < |ws| ==> ws[i].0 + |ws[i].1| <= p
    ensures PutAll(b, ws)[p] == b[p]
  {
    if ws != [] {
      Beyond(b, ws[..|ws| - 1], p);
    }
  }

  lemma {:induction false} ByteAt(b: seq<byte>, ws: seq<(nat, seq<byte>)>, k: nat, p: nat)
    requires Ordered(ws, |b|) && k < |ws|
    requires ws[k].0 <= p < if k + 1 < |ws| then ws[k + 1].0 else |b|
    ensures PutAll(b, ws)[p] == if p < ws[k].0 + |ws[k].1| then ws[k].1[p - ws[k].0] else b[p]
  {
    var n := |ws| - 1;
    var front := ws[..n];
    if k == n {
      AllBefore(ws, |b|, n);
      if p >= ws[k].0 + |ws[k].1| {
        Beyond(b, front, p);
      }
    } else {
      AllBefore(ws, |b|, n);
      assert p < ws[n].0 by {
        if k + 1 < n {
          assert ws[k + 1].0 <= ws[n].0;
        }
      }
      ByteAt(b, front, k, p);
    }
  }

  // The field from offset o is what was written there, then zeros.
  lemma FieldAt(ws: seq<(nat, seq<byte>)>, k: nat, o: nat, length: nat)
    requires Ordered(ws, BLOCK) && k < |ws| && ws[k].0 == o && |ws[k].1| <= length
    requires o + length <= if k + 1 < |ws| then ws[k + 1].0 else BLOCK
    ensures PutAll(Zeros(BLOCK), ws)[o..o + length] == ws[k].1 + Zeros(length - |ws[k].1|)
  {
    hide PutAll, Zeros;
    var h := PutAll(Zeros(BLOCK), ws);
    var field, kept := h[o..o + length], ws[k].1 + Zeros(length - |ws[k].1|);
    forall i | 0 <= i < length
      ensures field[i] == kept[i]
    {
      ByteAt(Zeros(BLOCK), ws, k, o + i);
    }
    assert field == kept;
  }

  lemma FieldsOrdered(name: string, prefix: string, size: nat, mtime: int)
    requires |Encode(name)| <= 100 && |Encode(prefix)| <= 155
    ensures Ordered(Fields(name, prefix, size, mtime), BLOCK)
  {
    hide Encode, NumberField, Fill;
    FieldsPlaced(name, prefix, size, mtime);
    assert |Fill(8, 32)| == 8;
  }

  lemma PutElsewhere(b: seq<byte>, o: nat, x: seq<byte>, lo: nat, hi: nat)
    requires o + |x| <= |b| && lo <= hi <= |b| && (hi <= o || o + |x| <= lo)
    ensures Put(b, o, x)[lo..hi] == b[lo..hi]
  {
  }

  // A field of the header other than the checksum.
  lemma HeaderField(name: string, prefix: string, size: nat, mtime: int, k: nat, length: nat)
    requires |Encode(name)| <= 100 && |Encode(prefix)| <= 155
    requires k < 13 && k != 6
    requires var ws := Fields(name, prefix, size, mtime);
             |ws[k].1| <= length && ws[k].0 + length <= if k < 12 then ws[k + 1].0 else BLOCK
    ensures var w := Fields(name, prefix, size, mtime)[k];
            w.0 + length <= BLOCK
            && Header(name, prefix, size, mtime)[w.0..w.0 + length] == w.1 + Zeros(length - |w.1|)
  {
    hide Encode, NumberField, Fill, PutAll, Ordered, Checksum, Zeros, Put;
    var ws := Fields(name, prefix, size, mtime);
    FieldsOrdered(name, prefix, size, mtime);
    FieldAt(ws, k, ws[k].0, length);
    var b := Unsummed(name, prefix, size, mtime);
    ChecksumFits(b);
    PutElsewhere(b, 148, Checksum(Sum(b)), ws[k].0, ws[k].0 + length);
  }

  lemma TextReadsBack(text: seq<byte>, length: nat)
    requires |text| <= length
    ensures TextOf(text + Zeros(length - |text|)) == text <==> 0 !in text
    ensures 0 !in TextOf(text + Zeros(length - |text|))
  {
    var f := text + Zeros(length - |text|);
    var q := FirstZero(f, 0);
    if 0 !in text {
      assert forall i :: 0 <= i < |text| ==> f[i] == text[i] && text[i] in text;
      assert q >= |text|;
      if |text| < length {
        assert f[|text|] == 0;
      }
      assert f[..q] == text;
    }
  }

  // ---- the checksum verifies ----

  lemma HeaderSumVerifies(name: string, prefix: string, size: nat, mtime: int)
    requires |Encode(name)| <= 100 && |Encode(prefix)| <= 155
    ensures GoodSum(Header(name, prefix, size, mtime))
  {
    hide Encode, NumberField, PutAll, Ordered, Checksum, Fields, Put, Unsummed, Sum, Fill, NumberOf;
    var b := Unsummed(name, prefix, size, mtime);
    ChecksumFits(b);
    ChecksumReadsBack(b);
    SpacesFirst(name, prefix, size, mtime);
    PutBack(b, 148, Checksum(Sum(b)), Fill(8, 32));
  }

  // Putting back what was there before undoes a change.
  lemma PutBack(b: seq<byte>, o: nat, x: seq<byte>, y: seq<byte>)
    requires o + |x| <= |b| && |y| == |x| && b[o..o + |y|] == y
    ensures Put(b, o, x)[o..o + |x|] == x && Put(Put(b, o, x), o, y) == b
  {
    var h := Put(b, o, x);
    assert forall i :: o <= i < o + |y| ==> b[i] == b[o..o + |y|][i - o];
  }

  lemma SpacesFirst(name: string, prefix: string, size: nat, mtime: int)
    requires |Encode(name)| <= 100 && |Encode(prefix)| <= 155
    ensures Unsummed(name, prefix, size, mtime)[148..156] == Fill(8, 32)
  {
    hide Encode, NumberField, Fill, PutAll, Ordered;
    FieldsOrdered(name, prefix, size, mtime);
    FieldAt(Fields(name, prefix, size, mtime), 6, 148, 8);
    assert Fill(8, 32) + Zeros(0) == Fill(8, 32);
  }
}
