// The writer of the bundle archive: a header block filled in place, and the chunks of an archive.
module UstarWriter {
  import opened Wrappers
  import opened Utf8
  import opened Ustar

  // Buffer.write and Buffer.fill
  method WriteAt(buffer: array<byte>, o: nat, x: seq<byte>)
    requires o + |x| <= buffer.Length
    modifies buffer
    ensures buffer[..] == Put(old(buffer[..]), o, x)
  {
    for i := 0 to |x|
      invariant forall j :: 0 <= j < buffer.Length ==> buffer[j] == if o <= j < o + i then x[j - o] else old(buffer[j])
    {
      buffer[o + i] := x[i];
    }
  }

  // writeTarString: of a value that is too long, the characters that fit.
  method WriteTarString(header: array<byte>, value: string, o: nat, length: nat)
    requires o + length <= header.Length
    modifies header
    ensures header[..] == Put(old(header[..]), o, Encode(Cut(value, length)))
    ensures |Encode(value)| <= length ==> header[..] == Put(old(header[..]), o, Encode(value))
  {
    hide Encode, Cut, Put;
    var normalized := if |value| <= length then value else value[..length];
    if |value| > length {
      CutOfSlice(value, length, length);
    }
    CutIsLongest(value, length);
    WriteAt(header, o, Encode(Cut(normalized, length)));
  }

  method WriteTarOctal(header: array<byte>, value: int, o: nat, length: nat)
    requires length >= 2 && o + length <= header.Length
    modifies header
    ensures header[..] == Put(old(header[..]), o, NumberField(value, length))
  {
    var normalized := LastBytes(Octal(Max(0, value)), length - 1);
    var padded := PadStart(normalized, length - 1);
    ghost var before := header[..];
    WriteAt(header, o, padded);
    header[o + length - 1] := 0;
    assert header[..] == Put(before, o, padded + [0]);
  }

  // ---- splitTarPath ----

  function Segments(s: string): (r: seq<string>)
    ensures |r| >= 1
  {
    var p := FirstSlash(s, 0);
    if p == |s| then [s] else [s[..p]] + Segments(s[p + 1..])
  }

  function FirstSlash(s: string, p: nat): (q: nat)
    requires p <= |s|
    ensures p <= q <= |s|
    ensures q < |s| ==> s[q] == '/'
    ensures forall r :: p <= r < q ==> s[r] != '/'
    decreases |s| - p
  {
    if p == |s| || s[p] == '/' then p else FirstSlash(s, p + 1)
  }

  // join('/')
  function Join(ss: seq<string>): string {
    if ss == [] then [] else if |ss| == 1 then ss[0] else ss[0] + ['/'] + Join(ss[1..])
  }

  lemma {:induction false} JoinSegments(s: string)
    ensures Join(Segments(s)) == s
    decreases |s|
  {
    var p := FirstSlash(s, 0);
    if p < |s| {
      JoinSegments(s[p + 1..]);
      assert Segments(s)[1..] == Segments(s[p + 1..]);
      assert s == s[..p] + ['/'] + s[p + 1..];
    }
  }

  // The position of the i-th slash.
  function SlashAt(ss: seq<string>, i: nat): nat
    requires 1 <= i <= |ss|
  {
    |Join(ss[..i])|
  }

  lemma {:induction false} JoinParts(ss: seq<string>, i: nat)
    requires 1 <= i < |ss|
    ensures Join(ss) == Join(ss[..i]) + (['/'] + Join(ss[i..]))
  {
    if i == 1 {
      assert ss[..1][0] == ss[0];
    } else {
      JoinParts(ss[1..], i - 1);
      assert ss[1..][..i - 1] == ss[..i][1..];
      assert ss[1..][i - 1..] == ss[i..];
    }
  }

  // Between two consecutive splits there is no slash.
  lemma {:induction false} NextSlash(s: string, i: nat, p: nat)
    requires 1 <= i < |Segments(s)|
    requires (if i == 1 then 0 else SlashAt(Segments(s), i - 1) + 1) <= p < SlashAt(Segments(s), i) <= |s|
    ensures s[p] != '/'
    decreases i
  {
    var ss := Segments(s);
    var q := FirstSlash(s, 0);
    assert ss == [s[..q]] + Segments(s[q + 1..]);
    if i == 1 {
      assert Join(ss[..1]) == s[..q];
    } else {
      var t := s[q + 1..];
      assert Segments(t) == ss[1..];
      assert ss[..i][1..] == ss[1..][..i - 1];
      if i > 2 {
        assert ss[..i - 1][1..] == ss[1..][..i - 2];
      } else {
        assert ss[..1] == [s[..q]];
      }
      NextSlash(t, i - 1, p - (q + 1));
    }
  }

  lemma {:induction false} AfterLast(s: string, p: nat)
    requires (if |Segments(s)| == 1 then 0 else SlashAt(Segments(s), |Segments(s)| - 1) + 1) <= p < |s|
    ensures s[p] != '/'
    decreases |s|
  {
    var ss := Segments(s);
    var q := FirstSlash(s, 0);
    if q < |s| {
      var t := s[q + 1..];
      var n := |ss| - 1;
      assert ss == [s[..q]] + Segments(t);
      assert Segments(t) == ss[1..];
      if n > 1 {
        assert ss[..n][1..] == ss[1..][..n - 1];
      } else {
        assert ss[..1] == [s[..q]];
      }
      AfterLast(t, p - (q + 1));
    }
  }

  method SplitTarPath(archivePath: string) returns (r: Reply<(string, string)>)
    ensures r.Returned? <==> Split(archivePath).Some?
    ensures r.Returned? ==> Some(r.value) == Split(archivePath)
  {
    hide Normalized, Encode, Segments, Join;
    var normalized := Normalized(archivePath);
    if |Encode(normalized)| <= 100 {
      return Returned((normalized, []));
    }
    var segments := Segments(normalized);
    JoinSegments(normalized);
    var index := 1;
    ghost var from := 0;
    while index < |segments|
      invariant 1 <= index <= |segments|
      invariant from == if index == 1 then 0 else SlashAt(segments, index - 1) + 1
      invariant from <= |normalized|
      invariant forall q :: 0 <= q < from ==> !Fits(normalized, q)
    {
      var prefix, name := Join(segments[..index]), Join(segments[index..]);
      JoinParts(segments, index);
      ghost var p := |prefix|;
      assert normalized == prefix + (['/'] + name);
      assert normalized[..p] == prefix && normalized[p] == '/' && normalized[p + 1..] == name;
      forall q | from <= q < p
        ensures !Fits(normalized, q)
      {
        NextSlash(normalized, index, q);
      }
      if |Encode(prefix)| <= 155 && |Encode(name)| <= 100 {
        FitsHere(normalized, p);
        return Returned((name, prefix));
      }
      from := p + 1;
      index := index + 1;
    }
    forall q | from <= q < |normalized|
      ensures !Fits(normalized, q)
    {
      AfterLast(normalized, q);
    }
    return Threw;
  }

  lemma FitsHere(s: string, p: nat)
    requires p < |s| && Fits(s, p) && forall q :: 0 <= q < p ==> !Fits(s, q)
    ensures FirstFit(s, 0) == p
  {
    hide Fits;
  }

  // ---- the header and the archive ----

  // One byte after another.
  method SumBytes(header: array<byte>) returns (checksum: nat)
    ensures checksum == Sum(header[..])
  {
    checksum := 0;
    for i := 0 to header.Length
      invariant checksum == Sum(header[..i])
    {
      assert header[..i + 1][..i] == header[..i];
      checksum := checksum + header[i];
    }
    assert header[..header.Length] == header[..];
  }

  // The six digits, a zero and a space.
  method WriteChecksum(header: array<byte>, checksum: nat)
    requires header.Length == BLOCK && |PadStart(Octal(checksum), 6)| == 6
    modifies header
    ensures header[..] == Put(old(header[..]), 148, Checksum(checksum))
  {
    hide PadStart, Octal;
    var digits := PadStart(Octal(checksum), 6);
    ghost var before := header[..];
    WriteAt(header, 148, digits);
    header[154] := 0;
    header[155] := 32;
    assert header[..] == Put(before, 148, digits + [0, 32]);
  }

  lemma Constants()
    ensures Encode("ustar") == USTAR && Encode("00") == VERSION && Encode("scaleworld") == OWNER
  {
    hide Encode;
    AsciiIs("ustar", USTAR);
    AsciiIs("00", VERSION);
    AsciiIs("scaleworld", OWNER);
  }

  lemma AsciiIs(s: string, x: seq<byte>)
    requires |s| == |x| && forall i :: 0 <= i < |s| ==> s[i] as int == x[i] < 128
    ensures Encode(s) == x
  {
    EncodeAscii(s);
  }

  lemma {:induction false} EncodeAscii(s: string)
    requires forall i :: 0 <= i < |s| ==> s[i] as int < 128
    ensures |Encode(s)| == |s| && forall i :: 0 <= i < |s| ==> Encode(s)[i] == s[i] as int
  {
    if s != [] {
      EncodeAscii(s[1..]);
    }
  }

  lemma PutNext(b: seq<byte>, ws: seq<(nat, seq<byte>)>, k: nat)
    requires Placed(ws, |b|) && k < |ws|
    ensures PutAll(b, ws[..k + 1]) == Put(PutAll(b, ws[..k]), ws[k].0, ws[k].1)
  {
    assert ws[..k + 1][..k] == ws[..k];
  }

  method CreateTarHeader(archivePath: string, sizeBytes: nat, mtime: int) returns (r: Reply<seq<byte>>)
    ensures r.Returned? <==> Split(archivePath).Some?
    ensures r.Returned? ==> r.value == Header(Split(archivePath).value.0, Split(archivePath).value.1, sizeBytes, mtime)
  {
    hide Split, Encode, NumberField, Put, PutAll, Checksum, Sum;
    var header := new byte[BLOCK](_ => 0);
    var split := SplitTarPath(archivePath);
    if split.Threw? {
      return Threw;
    }
    var (name, prefix) := split.value;
    FillFields(header, name, prefix, sizeBytes, mtime);
    var checksum := SumBytes(header);
    ChecksumFits(header[..]);
    WriteChecksum(header, checksum);
    return Returned(header[..]);
  }

  method FillFields(header: array<byte>, name: string, prefix: string, sizeBytes: nat, mtime: int)
    requires header.Length == BLOCK && header[..] == Zeros(BLOCK)
    requires |Encode(name)| <= 100 && |Encode(prefix)| <= 155
    modifies header
    ensures header[..] == Unsummed(name, prefix, sizeBytes, mtime)
  {
    hide Fields, Encode, Zeros;
    FieldsPlaced(name, prefix, sizeBytes, mtime);
    ghost var ws := Fields(name, prefix, sizeBytes, mtime);
    ThirteenFields(name, prefix, sizeBytes, mtime);
    assert PutAll(Zeros(BLOCK), ws[..0]) == Zeros(BLOCK);
    hide PutAll;
    FillNumbers(header, name, prefix, sizeBytes, mtime);
    FillMarks(header, name, prefix, sizeBytes, mtime);
    assert ws[..13] == ws;
  }

  lemma ThirteenFields(name: string, prefix: string, size: nat, mtime: int)
    ensures |Fields(name, prefix, size, mtime)| == 13
  {
    hide Encode, NumberField, Fill;
  }

  // The name and the numbers.
  method FillNumbers(header: array<byte>, name: string, prefix: string, sizeBytes: nat, mtime: int)
    requires header.Length == BLOCK && |Encode(name)| <= 100 && |Encode(prefix)| <= 155
    requires Placed(Fields(name, prefix, sizeBytes, mtime), BLOCK) && |Fields(name, prefix, sizeBytes, mtime)| == 13
    requires header[..] == PutAll(Zeros(BLOCK), Fields(name, prefix, sizeBytes, mtime)[..0])
    modifies header
    ensures header[..] == PutAll(Zeros(BLOCK), Fields(name, prefix, sizeBytes, mtime)[..6])
  {
    hide Encode, NumberField, Put, PutAll, Zeros, Fill, Cut;
    ghost var b, ws := Zeros(BLOCK), Fields(name, prefix, sizeBytes, mtime);
    WriteTarString(header, name, 0, 100);
    PutNext(b, ws, 0);
    WriteTarOctal(header, 420, 100, 8);
    PutNext(b, ws, 1);
    WriteTarOctal(header, 0, 108, 8);
    PutNext(b, ws, 2);
    WriteTarOctal(header, 0, 116, 8);
    PutNext(b, ws, 3);
    WriteTarOctal(header, sizeBytes, 124, 12);
    PutNext(b, ws, 4);
    WriteTarOctal(header, mtime, 136, 12);
    PutNext(b, ws, 5);
  }

  // The blank checksum, the type, the magic, the owners and the prefix.
  method FillMarks(header: array<byte>, name: string, prefix: string, sizeBytes: nat, mtime: int)
    requires header.Length == BLOCK && |Encode(name)| <= 100 && |Encode(prefix)| <= 155
    requires Placed(Fields(name, prefix, sizeBytes, mtime), BLOCK) && |Fields(name, prefix, sizeBytes, mtime)| == 13
    requires header[..] == PutAll(Zeros(BLOCK), Fields(name, prefix, sizeBytes, mtime)[..6])
    modifies header
    ensures header[..] == PutAll(Zeros(BLOCK), Fields(name, prefix, sizeBytes, mtime)[..13])
  {
    hide Encode, NumberField, Put, PutAll, Zeros, Cut;
    ghost var b, ws := Zeros(BLOCK), Fields(name, prefix, sizeBytes, mtime);
    Constants();
    WriteAt(header, 148, Fill(8, 32));
    PutNext(b, ws, 6);
    WriteAt(header, 156, [48]);
    PutNext(b, ws, 7);
    WriteTarString(header, "ustar", 257, 6);
    PutNext(b, ws, 8);
    WriteTarString(header, "00", 263, 2);
    PutNext(b, ws, 9);
    WriteTarString(header, "scaleworld", 265, 32);
    PutNext(b, ws, 10);
    WriteTarString(header, "scaleworld", 297, 32);
    PutNext(b, ws, 11);
    WriteTarString(header, prefix, 345, 155);
    PutNext(b, ws, 12);
  }

  // Buffer.concat
  function Concat(chunks: seq<seq<byte>>): seq<byte> {
    if chunks == [] then [] else Concat(chunks[..|chunks| - 1]) + chunks[|chunks| - 1]
  }

  lemma ConcatPushed(chunks: seq<seq<byte>>, x: seq<byte>)
    ensures Concat(chunks + [x]) == Concat(chunks) + x
  {
    assert (chunks + [x])[..|chunks|] == chunks;
  }

  lemma PushedThree(chunks: seq<seq<byte>>, x: seq<byte>, y: seq<byte>, z: seq<byte>)
    ensures Concat(if z == [] then chunks + [x] + [y] else chunks + [x] + [y] + [z]) == Concat(chunks) + (x + y + z)
  {
    hide Concat;
    ConcatPushed(chunks, x);
    ConcatPushed(chunks + [x], y);
    ConcatPushed(chunks + [x] + [y], z);
  }

  lemma MembersSnoc(files: seq<BundleFile>, f: BundleFile)
    requires Accepted(files) && Split(f.archivePath).Some?
    ensures Accepted(files + [f]) && Members(files + [f]) == Members(files) + Member(f)
  {
    hide Split, Member;
    assert (files + [f])[..|files|] == files;
  }

  function Members(files: seq<BundleFile>): seq<byte>
    requires Accepted(files)
  {
    if files == [] then [] else Members(files[..|files| - 1]) + Member(files[|files| - 1])
  }

  lemma {:induction false} MembersThenEnd(files: seq<BundleFile>, n: nat)
    requires Accepted(files) && n <= |files|
    ensures Members(files[..n]) + Archive(files[n..]) == Archive(files)
  {
    hide Member, Split;
    if n == 0 {
      assert files[..0] == [] && files[0..] == files;
    } else {
      MembersThenEnd(files, n - 1);
      assert files[..n][..n - 1] == files[..n - 1];
      assert files[n - 1..][1..] == files[n..];
      var front, m, rest := Members(files[..n - 1]), Member(files[n - 1]), Archive(files[n..]);
      assert (front + m) + rest == front + (m + rest);
    }
  }

  // Refused when some path cannot be split; otherwise the whole archive.
  method CreateTarArchive(files: seq<BundleFile>) returns (r: Reply<seq<byte>>)
    ensures r.Returned? <==> Accepted(files)
    ensures r.Returned? ==> r.value == Archive(files)
  {
    hide Split, Header, Concat, Padding, Zeros, Members, Archive;
    var chunks: seq<seq<byte>> := [];
    Nothing();
    for i := 0 to |files|
      invariant Accepted(files[..i])
      invariant Concat(chunks) == Members(files[..i])
    {
      var header := CreateTarHeader(files[i].archivePath, |files[i].content|, files[i].mtime);
      if header.Threw? {
        return Threw;
      }
      assert files[..i + 1] == files[..i] + [files[i]];
      MembersSnoc(files[..i], files[i]);
      var padding := Zeros(Padding(|files[i].content|));
      PushedThree(chunks, header.value, files[i].content, padding);
      chunks := chunks + [header.value];
      chunks := chunks + [files[i].content];
      if |padding| > 0 {
        chunks := chunks + [padding];
      }
    }
    assert files[..|files|] == files;
    ConcatPushed(chunks, Zeros(2 * BLOCK));
    chunks := chunks + [Zeros(2 * BLOCK)];
    MembersThenEnd(files, |files|);
    assert files[|files|..] == [];
    return Returned(Concat(chunks));
  }

  lemma Nothing()
    ensures Concat([]) == [] == Members([]) && Archive([]) == Zeros(2 * BLOCK)
  {
  }
}
