// Reading an archive back gives the files that were put into it.
module UstarReadBack {
  import opened Wrappers
  import opened Utf8
  import opened Ustar
  import opened UstarLaws

  const EIGHT_TO_ELEVEN: nat := 8589934592

  // What the reader makes of the header written for a name, a prefix, a size and a time.
  function InfoOf(name: string, prefix: string, size: nat, mtime: int): Info
    requires |Encode(name)| <= 100 && |Encode(prefix)| <= 155
  {
    Info(Joined(TextOf(Encode(prefix) + Zeros(155 - |Encode(prefix)|)), TextOf(Encode(name) + Zeros(100 - |Encode(name)|))),
         420, 0, 0, size % EIGHT_TO_ELEVEN, Max(0, mtime) % EIGHT_TO_ELEVEN, OWNER, OWNER)
  }

  lemma Powers()
    ensures Pow8(7) == 2097152 && Pow8(11) == EIGHT_TO_ELEVEN
  {
    assert Pow8(4) == 8 * (8 * (8 * (8 * Pow8(0)))) == 4096;
    assert Pow8(7) == 8 * (8 * (8 * Pow8(4))) == 2097152;
    assert Pow8(11) == 8 * (8 * (8 * (8 * Pow8(7))));
  }

  lemma NumbersRead(name: string, prefix: string, size: nat, mtime: int)
    requires |Encode(name)| <= 100 && |Encode(prefix)| <= 155
    ensures var h := Header(name, prefix, size, mtime);
            && NumberOf(h[100..108]) == Some(420) && NumberOf(h[108..116]) == Some(0) && NumberOf(h[116..124]) == Some(0)
            && NumberOf(h[124..136]) == Some(size % EIGHT_TO_ELEVEN)
            && NumberOf(h[136..148]) == Some(Max(0, mtime) % EIGHT_TO_ELEVEN)
  {
    hide Header, Encode, NumberField, NumberOf, Pow8, Zeros;
    Powers();
    var h := Header(name, prefix, size, mtime);
    NumberRead(name, prefix, size, mtime, 1, 100, 8, 420);
    NumberRead(name, prefix, size, mtime, 2, 108, 8, 0);
    NumberRead(name, prefix, size, mtime, 3, 116, 8, 0);
    NumberRead(name, prefix, size, mtime, 4, 124, 12, size);
    NumberRead(name, prefix, size, mtime, 5, 136, 12, mtime);
  }

  // A number field of the header, at offset o.
  lemma NumberRead(name: string, prefix: string, size: nat, mtime: int, k: nat, o: nat, length: nat, value: int)
    requires |Encode(name)| <= 100 && |Encode(prefix)| <= 155
    requires 1 <= k < 6 && length >= 2 && o + length <= BLOCK
    requires var ws := Fields(name, prefix, size, mtime);
             ws[k] == (o, NumberField(value, length)) && ws[k + 1].0 == o + length
    ensures NumberOf(Header(name, prefix, size, mtime)[o..o + length]) == Some(Max(0, value) % Pow8(length - 1))
  {
    hide Header, Encode, NumberField, NumberOf, Pow8, Fill, Zeros;
    HeaderField(name, prefix, size, mtime, k, length);
    NumberReadsBack(value, length);
    assert NumberField(value, length) + Zeros(0) == NumberField(value, length);
  }

  lemma MarksRead(name: string, prefix: string, size: nat, mtime: int)
    requires |Encode(name)| <= 100 && |Encode(prefix)| <= 155
    ensures var h := Header(name, prefix, size, mtime);
            h[257..263] == USTAR + [0] && h[263..265] == VERSION && h[156] == 48
  {
    hide Header, Encode, NumberField, Fill;
    HeaderField(name, prefix, size, mtime, 7, 1);
    HeaderField(name, prefix, size, mtime, 8, 6);
    HeaderField(name, prefix, size, mtime, 9, 2);
    var h := Header(name, prefix, size, mtime);
    assert h[156..157][0] == h[156];
    assert Zeros(1) == [0] && Zeros(0) == [];
  }

  lemma TextsRead(name: string, prefix: string, size: nat, mtime: int)
    requires |Encode(name)| <= 100 && |Encode(prefix)| <= 155
    ensures var h := Header(name, prefix, size, mtime);
            && h[0..100] == Encode(name) + Zeros(100 - |Encode(name)|)
            && h[345..500] == Encode(prefix) + Zeros(155 - |Encode(prefix)|)
            && TextOf(h[265..297]) == OWNER && TextOf(h[297..329]) == OWNER
  {
    hide Header, Encode, NumberField, Fill, Zeros, TextOf;
    HeaderField(name, prefix, size, mtime, 0, 100);
    HeaderField(name, prefix, size, mtime, 10, 32);
    HeaderField(name, prefix, size, mtime, 11, 32);
    HeaderField(name, prefix, size, mtime, 12, 155);
    TextReadsBack(OWNER, 32);
  }

  lemma HeaderReads(name: string, prefix: string, size: nat, mtime: int)
    requires |Encode(name)| <= 100 && |Encode(prefix)| <= 155
    ensures ReadHeader(Header(name, prefix, size, mtime)) == Some(InfoOf(name, prefix, size, mtime))
  {
    hide Header, Encode, NumberOf, TextOf, GoodSum, Joined, Zeros;
    NumbersRead(name, prefix, size, mtime);
    MarksRead(name, prefix, size, mtime);
    TextsRead(name, prefix, size, mtime);
    HeaderSumVerifies(name, prefix, size, mtime);
  }

  // ---- whole archives ----

  // What an archive of the file should read back as.
  function Expected(f: BundleFile): Entry {
    Entry(Info(Encode(Normalized(f.archivePath)), 420, 0, 0, |f.content|, Max(0, f.mtime), OWNER, OWNER), f.content)
  }

  function AllExpected(files: seq<BundleFile>): (es: seq<Entry>)
    ensures |es| == |files|
  {
    if files == [] then [] else [Expected(files[0])] + AllExpected(files[1..])
  }

  // No zero character in the path, a size of at most 33 bits and a time in that range.
  predicate Recoverable(f: BundleFile) {
    0 as char !in Normalized(f.archivePath) && |f.content| < EIGHT_TO_ELEVEN && f.mtime < EIGHT_TO_ELEVEN
  }

  lemma JoinedLength(prefix: seq<byte>, name: seq<byte>)
    ensures 0 in Joined(prefix, name) <==> 0 in prefix || 0 in name
  {
    if prefix != [] {
      assert prefix[0] in prefix;
      if 0 in prefix || 0 in name {
        assert 0 in prefix + [47] + name;
      }
    }
  }

  lemma PathReads(path: string)
    requires Split(path).Some?
    ensures var (name, prefix) := Split(path).value;
            InfoOf(name, prefix, 0, 0).path == Encode(Normalized(path)) <==> 0 as char !in Normalized(path)
  {
    hide Split, Normalized, TextOf, Zeros, Joined;
    var (name, prefix) := Split(path).value;
    SplitJoins(path);
    ZeroBytes(Normalized(path));
    JoinedLength(Encode(prefix), Encode(name));
    TextReadsBack(Encode(name), 100);
    TextReadsBack(Encode(prefix), 155);
    JoinedLength(TextOf(Encode(prefix) + Zeros(155 - |Encode(prefix)|)), TextOf(Encode(name) + Zeros(100 - |Encode(name)|)));
  }

  lemma InfoReads(f: BundleFile)
    requires Split(f.archivePath).Some?
    ensures var (name, prefix) := Split(f.archivePath).value;
            InfoOf(name, prefix, |f.content|, f.mtime) == Expected(f).info <==> Recoverable(f)
  {
    hide Split, Normalized, TextOf, Zeros, Joined, Encode;
    PathReads(f.archivePath);
    var (name, prefix) := Split(f.archivePath).value;
    assert InfoOf(name, prefix, |f.content|, f.mtime).path == InfoOf(name, prefix, 0, 0).path;
    assert |f.content| % EIGHT_TO_ELEVEN == |f.content| <==> |f.content| < EIGHT_TO_ELEVEN;
    assert Max(0, f.mtime) % EIGHT_TO_ELEVEN == Max(0, f.mtime) <==> f.mtime < EIGHT_TO_ELEVEN;
  }

  // The first member of an archive, as the reader sees it.
  lemma FirstMember(files: seq<BundleFile>)
    requires Accepted(files) && files != []
    ensures var f := files[0];
            var (name, prefix) := Split(f.archivePath).value;
            var a := Archive(files);
            && |a| >= BLOCK + |f.content| + Padding(|f.content|)
            && a[..2 * BLOCK] != Zeros(2 * BLOCK)
            && a[..BLOCK] == Header(name, prefix, |f.content|, f.mtime)
            && a[BLOCK..BLOCK + |f.content|] == f.content
            && a[BLOCK + |f.content| + Padding(|f.content|)..] == Archive(files[1..])
  {
    hide Split, Header, Padding, Zeros;
    var f := files[0];
    var (name, prefix) := Split(f.archivePath).value;
    var h := Header(name, prefix, |f.content|, f.mtime);
    FourParts(h, f.content, Zeros(Padding(|f.content|)), Archive(files[1..]));
    var a := Archive(files);
    MarksRead(name, prefix, |f.content|, f.mtime);
    assert a[..2 * BLOCK][156] == h[156] == 48;
  }

  lemma FourParts(h: seq<byte>, c: seq<byte>, z: seq<byte>, rest: seq<byte>)
    ensures var a := (h + c + z) + rest;
            && a[..|h|] == h && a[|h|..|h| + |c|] == c && a[|h| + |c| + |z|..] == rest
  {
  }

  // The archive reads back when its first member does and the rest does.
  lemma ReadOne(files: seq<BundleFile>)
    requires Accepted(files) && files != []
    ensures Read(Archive(files)) == Some(AllExpected(files)) <==>
            Recoverable(files[0]) && Read(Archive(files[1..])) == Some(AllExpected(files[1..]))
  {
    hide Split, Header, Padding, ReadHeader, InfoOf, Recoverable, Archive, Zeros, Normalized, Encode;
    var f := files[0];
    var (name, prefix) := Split(f.archivePath).value;
    FirstMember(files);
    HeaderReads(name, prefix, |f.content|, f.mtime);
    InfoReads(f);
    var a := Archive(files);
    var got := Read(a);
    if Recoverable(f) {
      var rest := Read(Archive(files[1..]));
      assert got == if rest.None? then None else Some([Expected(f)] + rest.value);
      if got.Some? {
        SameRest(Expected(f), rest.value, AllExpected(files[1..]));
      }
    } else if got.Some? {
      assert got.value[0].info != Expected(f).info;
    }
  }

  lemma SameRest(e: Entry, a: seq<Entry>, b: seq<Entry>)
    ensures [e] + a == [e] + b <==> a == b
  {
    if [e] + a == [e] + b {
      assert a == ([e] + a)[1..] == ([e] + b)[1..] == b;
    }
  }

  // Everything is recovered, exactly when every file is recoverable.
  lemma {:induction false} ReadsBack(files: seq<BundleFile>)
    requires Accepted(files)
    ensures Read(Archive(files)) == Some(AllExpected(files)) <==> forall i :: 0 <= i < |files| ==> Recoverable(files[i])
  {
    hide Split, Archive, Read, Expected, Recoverable;
    if files == [] {
      EmptyReads();
    } else {
      ReadsBack(files[1..]);
      ReadOne(files);
      if forall i :: 0 <= i < |files| ==> Recoverable(files[i]) {
        assert Recoverable(files[0]);
        forall i | 0 <= i < |files[1..]|
          ensures Recoverable(files[1..][i])
        {
          assert files[1..][i] == files[i + 1];
        }
      } else if Recoverable(files[0]) {
        var i :| 0 <= i < |files| && !Recoverable(files[i]);
        assert files[1..][i - 1] == files[i];
      }
    }
  }

  lemma EmptyReads()
    ensures Read(Archive([])) == Some(AllExpected([]))
  {
    assert Archive([])[..2 * BLOCK] == Zeros(2 * BLOCK);
  }

  // A file named by a zero character, and one modified at the second 8^11.
  const ZERO_NAMED := BundleFile([0 as char], [], 0)
  const TOO_LATE := BundleFile("a", [], EIGHT_TO_ELEVEN)

  // Both are accepted, and neither is recovered.
  lemma SomeAreNotRecovered()
    ensures Accepted([ZERO_NAMED]) && Read(Archive([ZERO_NAMED])) != Some(AllExpected([ZERO_NAMED]))
    ensures Accepted([TOO_LATE]) && Read(Archive([TOO_LATE])) != Some(AllExpected([TOO_LATE]))
  {
    hide Archive, Read, AllExpected;
    SingleIsAccepted(ZERO_NAMED);
    assert Normalized(ZERO_NAMED.archivePath)[0] == 0 as char;
    ReadsBack([ZERO_NAMED]);
    assert !Recoverable([ZERO_NAMED][0]);
    SingleIsAccepted(TOO_LATE);
    ReadsBack([TOO_LATE]);
    assert !Recoverable([TOO_LATE][0]);
  }

  lemma SingleIsAccepted(f: BundleFile)
    requires |f.archivePath| == 1 && f.archivePath[0] != '/' && f.archivePath[0] != '\\'
    ensures Normalized(f.archivePath) == f.archivePath
    ensures Accepted([f])
  {
    assert Slashes(f.archivePath) == f.archivePath;
    assert f.archivePath[1..] == [];
    assert |Encode(f.archivePath)| <= 4;
  }
}
