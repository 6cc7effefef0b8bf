// The files of a log bundle: which candidates are read, how much of each, and under what names.
module BundleFiles {
  import opened Wrappers
  import opened Texts
  import opened Decimals
  import opened Utf8
  import opened Ustar
  import opened UstarLaws
  import opened UstarReadBack
  import opened UstarWriter

  const MAX_ENTRY_BYTES := 524288

  // A candidate with the sanitized parts of its archive path. `file` is its content when it could
  // be read.
  datatype Candidate = Candidate(folder: string, baseName: string, extension: string, file: Option<seq<byte>>, mtime: int)

  // What sanitizeArchiveSegment returns, and what folders are named like.
  predicate PlainText(s: string) {
    forall i :: 0 <= i < |s| ==> ('a' <= s[i] <= 'z' || 'A' <= s[i] <= 'Z' || '0' <= s[i] <= '9' || s[i] in "._=-")
  }

  predicate Sanitized(c: Candidate) {
    && PlainText(c.folder) && 0 < |c.folder| <= 155
    && PlainText(c.baseName) && 0 < |c.baseName| <= 96
    && PlainText(c.extension) && 0 < |c.extension| <= 96
  }

  // ---- names ----

  // The last part of the path at an attempt; the first attempt has no number.
  function Leaf(c: Candidate, attempt: nat): string {
    if attempt < 2 then c.baseName + c.extension else (c.baseName + "-") + Decimal(attempt) + c.extension
  }

  function ArchivePath(c: Candidate, attempt: nat): string {
    c.folder + "/" + Leaf(c, attempt)
  }

  ghost predicate Allocated(c: Candidate, used: set<string>, path: string, attempt: nat) {
    && attempt >= 1 && path == ArchivePath(c, attempt) && Lower(path) !in used
    && forall b: nat :: 1 <= b < attempt ==> Lower(ArchivePath(c, b)) in used
  }

  lemma DigitsStayLower(s: string, lead: string, n: nat, tail: string)
    requires s == lead + Decimal(n) + tail
    ensures |s| == |lead| + |Decimal(n)| + |tail|
    ensures Lower(s)[|lead|..|lead| + |Decimal(n)|] == Decimal(n)
  {
    hide Decimal;
    ValueOfDecimal(n);
    var d := Decimal(n);
    forall i | 0 <= i < |d|
      ensures Lower(s)[|lead| + i] == d[i]
    {
      assert s[|lead| + i] == d[i];
    }
  }

  function Lead(c: Candidate): string {
    c.folder + "/" + (c.baseName + "-")
  }

  lemma NumberedPath(c: Candidate, n: nat)
    requires n >= 2
    ensures ArchivePath(c, n) == Lead(c) + Decimal(n) + c.extension
  {
    hide Decimal;
    var a, b, d := c.folder + "/", c.baseName + "-", Decimal(n);
    assert a + (b + d + c.extension) == (a + b) + d + c.extension;
  }

  lemma AttemptsDiffer(c: Candidate, m: nat, n: nat)
    requires m >= 2 && n >= 2 && Lower(ArchivePath(c, m)) == Lower(ArchivePath(c, n))
    ensures m == n
  {
    hide Decimal, ArchivePath, Lead, Lower;
    NumberedPath(c, m);
    NumberedPath(c, n);
    DigitsStayLower(ArchivePath(c, m), Lead(c), m, c.extension);
    DigitsStayLower(ArchivePath(c, n), Lead(c), n, c.extension);
    assert |ArchivePath(c, m)| == |ArchivePath(c, n)|;
    DecimalInjective(m, n);
  }

  // Ends because the attempts are all different and only finitely many paths are used.
  method AllocateArchivePath(c: Candidate, usedArchivePaths: set<string>) returns (archivePath: string, used: set<string>)
    ensures exists a: nat :: Allocated(c, usedArchivePaths, archivePath, a)
    ensures used == usedArchivePaths + {Lower(archivePath)}
  {
    hide ArchivePath, Lower;
    archivePath := ArchivePath(c, 1);
    var attempt := 2;
    ghost var left := usedArchivePaths;
    while Lower(archivePath) in usedArchivePaths
      invariant attempt >= 2 && archivePath == ArchivePath(c, attempt - 1)
      invariant forall b: nat :: 1 <= b < attempt - 1 ==> Lower(ArchivePath(c, b)) in usedArchivePaths
      invariant left <= usedArchivePaths
      invariant forall b: nat :: b >= attempt && Lower(ArchivePath(c, b)) in usedArchivePaths ==> Lower(ArchivePath(c, b)) in left
      invariant attempt > 2 ==> Lower(archivePath) in usedArchivePaths ==> Lower(archivePath) in left
      decreases if attempt == 2 then 1 else 0, left
    {
      if attempt > 2 {
        forall b: nat | b >= attempt && Lower(ArchivePath(c, b)) == Lower(archivePath)
          ensures false
        {
          AttemptsDiffer(c, b, attempt - 1);
        }
        left := left - {Lower(archivePath)};
      }
      archivePath := ArchivePath(c, attempt);
      attempt := attempt + 1;
    }
    assert Allocated(c, usedArchivePaths, archivePath, attempt - 1);
    used := usedArchivePaths + {Lower(archivePath)};
  }

  // ---- what is collected ----

  function Total(files: seq<BundleFile>): nat {
    if files == [] then 0 else Total(files[..|files| - 1]) + |files[|files| - 1].content|
  }

  function PathsOf(files: seq<BundleFile>): set<string> {
    set i | 0 <= i < |files| :: Lower(files[i].archivePath)
  }

  // readTailBytes
  function Tail(content: seq<byte>, bytes: nat): seq<byte> {
    if |content| <= bytes then content else content[|content| - bytes..]
  }

  function BytesFor(budget: int, used: nat): nat {
    Max(0, Min(Min(MAX_ENTRY_BYTES, budget), budget - used))
  }

  // File k is the tail of candidate p that the budget left by the files before it allows.
  ghost predicate Taken(cs: seq<Candidate>, budget: int, files: seq<BundleFile>, k: nat, p: nat)
    requires k < |files|
  {
    && p < |cs| && cs[p].file.Some?
    && files[k].content == Tail(cs[p].file.value, BytesFor(budget, Total(files[..k]))) != []
    && files[k].mtime == cs[p].mtime
    && exists a: nat :: Allocated(cs[p], PathsOf(files[..k]), files[k].archivePath, a)
  }

  // Nothing is to be had of candidate j once k files have been taken.
  ghost predicate Skipped(cs: seq<Candidate>, budget: int, files: seq<BundleFile>, k: nat, j: nat)
    requires k <= |files| && j < |cs|
  {
    cs[j].file.None? || Tail(cs[j].file.value, BytesFor(budget, Total(files[..k]))) == []
  }

  // The bundle of the first n candidates: each one in order is taken or skipped.
  ghost predicate Collected(cs: seq<Candidate>, n: nat, budget: int, picks: seq<nat>, files: seq<BundleFile>) {
    && n <= |cs| && |picks| == |files|
    && (forall k :: 0 <= k < |picks| ==> picks[k] < n && Taken(cs, budget, files, k, picks[k]))
    && (forall j, k :: 0 <= j < k < |picks| ==> picks[j] < picks[k])
    && forall j, k :: 0 <= j < n && 0 <= k <= |picks| && (k > 0 ==> picks[k - 1] < j) && (k < |picks| ==> j < picks[k]) ==>
         Skipped(cs, budget, files, k, j)
  }

  method CollectBundleFiles(cs: seq<Candidate>, maxBundleBytes: int) returns (files: seq<BundleFile>)
    ensures exists picks :: Collected(cs, |cs|, maxBundleBytes, picks, files)
  {
    hide Allocated, Tail;
    files := [];
    ghost var picks: seq<nat> := [];
    var usedArchivePaths: set<string> := {};
    var remainingBytes := maxBundleBytes;
    for i := 0 to |cs|
      invariant Collected(cs, i, maxBundleBytes, picks, files)
      invariant remainingBytes == maxBundleBytes - Total(files)
      invariant usedArchivePaths == PathsOf(files)
    {
      var bytesForEntry := Max(0, Min(Min(MAX_ENTRY_BYTES, maxBundleBytes), remainingBytes));
      assert files[..|files|] == files;
      if cs[i].file.Some? && Tail(cs[i].file.value, bytesForEntry) != [] {
        var content := Tail(cs[i].file.value, bytesForEntry);
        var archivePath, used := AllocateArchivePath(cs[i], usedArchivePaths);
        var f := BundleFile(archivePath, content, cs[i].mtime);
        Push(cs, i, maxBundleBytes, picks, files, f);
        remainingBytes := remainingBytes - |content|;
        usedArchivePaths := used;
        files, picks := files + [f], picks + [i];
      } else {
        Skip(cs, i, maxBundleBytes, picks, files);
      }
    }
  }

  lemma Push(cs: seq<Candidate>, i: nat, budget: int, picks: seq<nat>, files: seq<BundleFile>, f: BundleFile)
    requires Collected(cs, i, budget, picks, files) && i < |cs|
    requires cs[i].file.Some? && f.mtime == cs[i].mtime
    requires f.content == Tail(cs[i].file.value, BytesFor(budget, Total(files))) != []
    requires exists a: nat :: Allocated(cs[i], PathsOf(files), f.archivePath, a)
    ensures Collected(cs, i + 1, budget, picks + [i], files + [f])
    ensures Total(files + [f]) == Total(files) + |f.content|
    ensures PathsOf(files + [f]) == PathsOf(files) + {Lower(f.archivePath)}
  {
    hide Allocated, Tail, Lower, BytesFor, Taken, PathsOf;
    var more, ps := files + [f], picks + [i];
    assert more[..|files|] == files == files[..|files|];
    PathsGrow(files, f);
    PushTaken(cs, i, budget, files, f);
    forall k | 0 <= k < |ps|
      ensures ps[k] < i + 1 && Taken(cs, budget, more, k, ps[k])
    {
      if k < |picks| {
        assert Taken(cs, budget, files, k, picks[k]);
        StillTaken(cs, budget, files, f, k, picks[k]);
      }
    }
    forall j, k | 0 <= j < i + 1 && 0 <= k <= |ps| && (k > 0 ==> ps[k - 1] < j) && (k < |ps| ==> j < ps[k])
      ensures Skipped(cs, budget, more, k, j)
    {
      assert k <= |picks|;
      assert more[..k] == files[..k];
      assert Skipped(cs, budget, files, k, j);
    }
  }

  lemma PathsGrow(files: seq<BundleFile>, f: BundleFile)
    ensures PathsOf(files + [f]) == PathsOf(files) + {Lower(f.archivePath)}
  {
    hide Lower;
    var more := files + [f];
    assert Lower(more[|files|].archivePath) in PathsOf(more);
    forall i | 0 <= i < |files|
      ensures Lower(files[i].archivePath) in PathsOf(more)
    {
      assert more[i] == files[i];
    }
  }

  lemma PushTaken(cs: seq<Candidate>, i: nat, budget: int, files: seq<BundleFile>, f: BundleFile)
    requires i < |cs| && cs[i].file.Some? && f.mtime == cs[i].mtime
    requires f.content == Tail(cs[i].file.value, BytesFor(budget, Total(files))) != []
    requires exists a: nat :: Allocated(cs[i], PathsOf(files), f.archivePath, a)
    ensures Taken(cs, budget, files + [f], |files|, i)
  {
    hide Allocated, Tail, BytesFor, PathsOf;
    assert (files + [f])[..|files|] == files;
  }

  lemma StillTaken(cs: seq<Candidate>, budget: int, files: seq<BundleFile>, f: BundleFile, k: nat, p: nat)
    requires k < |files| && Taken(cs, budget, files, k, p)
    ensures Taken(cs, budget, files + [f], k, p)
  {
    hide Allocated, Tail, BytesFor, PathsOf;
    assert (files + [f])[..k] == files[..k];
  }

  lemma Skip(cs: seq<Candidate>, i: nat, budget: int, picks: seq<nat>, files: seq<BundleFile>)
    requires Collected(cs, i, budget, picks, files) && i < |cs|
    requires cs[i].file.None? || Tail(cs[i].file.value, BytesFor(budget, Total(files))) == []
    ensures Collected(cs, i + 1, budget, picks, files)
  {
    hide Allocated, Tail, BytesFor, Taken;
    assert files[..|files|] == files;
  }

  // ---- what the bundle is good for ----

  // The budget is kept, and no two paths are the same even where letter case does not count.
  lemma {:induction false} BundleFits(cs: seq<Candidate>, n: nat, budget: int, picks: seq<nat>, files: seq<BundleFile>, m: nat)
    requires Collected(cs, n, budget, picks, files) && m <= |files|
    ensures Total(files[..m]) <= Max(0, budget)
    ensures forall j, k :: 0 <= j < k < m ==> Lower(files[j].archivePath) != Lower(files[k].archivePath)
    ensures forall k :: 0 <= k < m ==> 0 < |files[k].content| <= MAX_ENTRY_BYTES
  {
    hide Lower;
    if m > 0 {
      var last := m - 1;
      BundleFits(cs, n, budget, picks, files, last);
      assert Taken(cs, budget, files, last, picks[last]);
      assert files[..m][..last] == files[..last];
      forall j | 0 <= j < last
        ensures Lower(files[j].archivePath) != Lower(files[last].archivePath)
      {
        assert files[..last][j] == files[j];
        assert Lower(files[j].archivePath) in PathsOf(files[..last]);
      }
    }
  }

  lemma PlainPath(c: Candidate, attempt: nat)
    requires Sanitized(c)
    ensures Normalized(ArchivePath(c, attempt)) == ArchivePath(c, attempt)
    ensures 0 as char !in ArchivePath(c, attempt)
    ensures forall i :: 0 <= i < |ArchivePath(c, attempt)| ==> ArchivePath(c, attempt)[i] as int < 128
    ensures forall i :: 0 <= i < |ArchivePath(c, attempt)| ==> (ArchivePath(c, attempt)[i] == '/' <==> i == |c.folder|)
  {
    hide Decimal;
    PlainLeaf(c, attempt);
    var leaf := Leaf(c, attempt);
    hide Leaf;
    var path := c.folder + ("/" + leaf);
    assert path == ArchivePath(c, attempt);
    forall i | 0 <= i < |path|
      ensures path[i] != '\\' && 0 < path[i] as int < 128 && (path[i] == '/' <==> i == |c.folder|)
    {
      if i < |c.folder| {
        assert path[i] == c.folder[i];
      } else if i > |c.folder| {
        assert path[i] == leaf[i - |c.folder| - 1];
      }
    }
    assert Slashes(path) == path;
    assert path[0] != '/';
  }

  lemma PlainLeaf(c: Candidate, attempt: nat)
    requires Sanitized(c)
    ensures PlainText(Leaf(c, attempt))
  {
    hide Decimal;
    ValueOfDecimal(attempt);
    var leaf := Leaf(c, attempt);
    if attempt >= 2 {
      var b, d := |c.baseName| + 1, |Decimal(attempt)|;
      forall i | 0 <= i < |leaf|
        ensures PlainText([leaf[i]])
      {
        if i >= b + d {
          assert leaf[i] == c.extension[i - b - d];
        } else if i >= b {
          assert leaf[i] == Decimal(attempt)[i - b];
        } else if i < b - 1 {
          assert leaf[i] == c.baseName[i];
        }
      }
      forall i | 0 <= i < |leaf|
        ensures 'a' <= leaf[i] <= 'z' || 'A' <= leaf[i] <= 'Z' || '0' <= leaf[i] <= '9' || leaf[i] in "._=-"
      {
        assert PlainText([leaf[i]]);
        assert [leaf[i]][0] == leaf[i];
      }
    }
  }

  // Sanitizing does not make a path fit: it is refused exactly when its last part is over 100.
  lemma PathFits(c: Candidate, attempt: nat)
    requires Sanitized(c)
    ensures Split(ArchivePath(c, attempt)).Some? <==> |Leaf(c, attempt)| <= 100
  {
    hide Leaf, Decimal;
    var path := ArchivePath(c, attempt);
    PlainPath(c, attempt);
    RefusedOnlyWhenNothingFits(path);
    var f := |c.folder|;
    assert path[..f] == c.folder && path[f + 1..] == Leaf(c, attempt);
    EncodeAscii(path);
    EncodeAscii(path[..f]);
    EncodeAscii(path[f + 1..]);
    assert Fits(path, f) <==> |Leaf(c, attempt)| <= 100;
    forall p | 0 <= p < |path| && p != f
      ensures !Fits(path, p)
    {
      assert path[p] != '/';
    }
  }

  // A bundle whose paths fit is recovered from its archive, file by file.
  lemma BundleIsRecovered(cs: seq<Candidate>, budget: int, picks: seq<nat>, files: seq<BundleFile>)
    requires Collected(cs, |cs|, budget, picks, files)
    requires forall i :: 0 <= i < |cs| ==> Sanitized(cs[i])
    requires Accepted(files)
    ensures Read(Archive(files)) == Some(AllExpected(files)) <==> forall k :: 0 <= k < |files| ==> files[k].mtime < EIGHT_TO_ELEVEN
  {
    hide Archive, Read, Split, Normalized, ArchivePath, Sanitized, Lower;
    ReadsBack(files);
    BundleFits(cs, |cs|, budget, picks, files, |files|);
    forall k | 0 <= k < |files|
      ensures Recoverable(files[k]) <==> files[k].mtime < EIGHT_TO_ELEVEN
    {
      assert Taken(cs, budget, files, k, picks[k]);
      var a: nat :| Allocated(cs[picks[k]], PathsOf(files[..k]), files[k].archivePath, a);
      PlainPath(cs[picks[k]], a);
    }
  }

  // ---- which bundles the archive writer accepts ----

  // Attempt b of the k-th candidate taken has the path of an earlier one, but for letter case.
  ghost predicate Clashes(cs: seq<Candidate>, picks: seq<nat>, attempts: seq<nat>, k: nat, b: nat)
    requires k < |picks| == |attempts| && forall j :: 0 <= j < |picks| ==> picks[j] < |cs|
  {
    exists j :: 0 <= j < k && Lower(ArchivePath(cs[picks[j]], attempts[j])) == Lower(ArchivePath(cs[picks[k]], b))
  }

  // The attempts that the candidates taken get, by the candidates alone: each the first without a clash.
  ghost predicate Attempts(cs: seq<Candidate>, picks: seq<nat>, attempts: seq<nat>) {
    && |attempts| == |picks| && (forall j :: 0 <= j < |picks| ==> picks[j] < |cs|)
    && forall k :: 0 <= k < |picks| ==>
         && attempts[k] >= 1 && !Clashes(cs, picks, attempts, k, attempts[k])
         && forall b: nat :: 1 <= b < attempts[k] ==> Clashes(cs, picks, attempts, k, b)
  }

  // The collector gives the k-th file the path of that attempt.
  lemma {:induction false} PathIsAttempt(cs: seq<Candidate>, budget: int, picks: seq<nat>, files: seq<BundleFile>,
                                         attempts: seq<nat>, k: nat)
    requires Collected(cs, |cs|, budget, picks, files) && Attempts(cs, picks, attempts) && k < |files|
    ensures files[k].archivePath == ArchivePath(cs[picks[k]], attempts[k])
  {
    hide Lower, ArchivePath, Tail, BytesFor, Skipped;
    forall j: nat | j < k
      ensures files[j].archivePath == ArchivePath(cs[picks[j]], attempts[j])
    {
      PathIsAttempt(cs, budget, picks, files, attempts, j);
    }
    var used := PathsOf(files[..k]);
    forall b: nat
      ensures Clashes(cs, picks, attempts, k, b) <==> Lower(ArchivePath(cs[picks[k]], b)) in used
    {
      ClashIsUsed(cs, picks, files, attempts, k, b);
    }
    assert Taken(cs, budget, files, k, picks[k]);
    var a: nat :| Allocated(cs[picks[k]], used, files[k].archivePath, a);
    assert a == attempts[k];
  }

  lemma ClashIsUsed(cs: seq<Candidate>, picks: seq<nat>, files: seq<BundleFile>, attempts: seq<nat>, k: nat, b: nat)
    requires k < |files| == |picks| == |attempts| && forall j :: 0 <= j < |picks| ==> picks[j] < |cs|
    requires forall j :: 0 <= j < k ==> files[j].archivePath == ArchivePath(cs[picks[j]], attempts[j])
    ensures Clashes(cs, picks, attempts, k, b) <==> Lower(ArchivePath(cs[picks[k]], b)) in PathsOf(files[..k])
  {
    hide Lower, ArchivePath;
    assert forall j :: 0 <= j < k ==> files[..k][j] == files[j];
    if Clashes(cs, picks, attempts, k, b) {
      var j :| 0 <= j < k && Lower(ArchivePath(cs[picks[j]], attempts[j])) == Lower(ArchivePath(cs[picks[k]], b));
      assert Lower(files[..k][j].archivePath) in PathsOf(files[..k]);
    }
  }

  // The number that an attempt puts between the name and the extension.
  function NumberText(attempt: nat): string {
    if attempt < 2 then "" else "-" + Decimal(attempt)
  }

  // What is taken of the k-th candidate: the end of its content, as long as a file may be and as the rest
  // of the budget allows, under its folder, name and extension, with the time of its last change.
  lemma FileIsEnd(cs: seq<Candidate>, budget: int, picks: seq<nat>, files: seq<BundleFile>, attempts: seq<nat>, k: nat)
    requires Collected(cs, |cs|, budget, picks, files) && Attempts(cs, picks, attempts) && k < |files|
    ensures var c, f := cs[picks[k]], files[k];
            && c.file.Some? && f.mtime == c.mtime
            && f.archivePath == c.folder + "/" + c.baseName + NumberText(attempts[k]) + c.extension
            && (exists before :: c.file.value == before + f.content)
            && |f.content| == Min(Min(|c.file.value|, 524288), Min(budget, budget - Total(files[..k])))
  {
    hide Allocated, Lower, Decimal, Skipped, Clashes, ArchivePath, Leaf, NumberText, Tail;
    PathIsAttempt(cs, budget, picks, files, attempts, k);
    assert Taken(cs, budget, files, k, picks[k]);
    var c, f := cs[picks[k]], files[k];
    var bytes := BytesFor(budget, Total(files[..k]));
    TailIsEnd(c.file.value, bytes);
    PathText(c, attempts[k]);
  }

  lemma TailIsEnd(content: seq<byte>, bytes: nat)
    ensures exists before :: content == before + Tail(content, bytes)
    ensures |Tail(content, bytes)| == Min(|content|, bytes)
  {
    var cut := |content| - Min(|content|, bytes);
    assert content == content[..cut] + Tail(content, bytes);
  }

  lemma PathText(c: Candidate, attempt: nat)
    ensures ArchivePath(c, attempt) == c.folder + "/" + c.baseName + NumberText(attempt) + c.extension
  {
    hide Decimal;
    var a, b, e := c.folder + "/", c.baseName, c.extension;
    if attempt < 2 {
      assert b + "" == b;
      assert a + (b + e) == a + b + e;
      assert a + b + "" + e == a + b + e;
    } else {
      var d := Decimal(attempt);
      assert (b + "-") + d == b + ("-" + d);
      assert a + (b + ("-" + d) + e) == a + b + ("-" + d) + e;
    }
  }

  // The candidates taken have such attempts.
  lemma AttemptsExist(cs: seq<Candidate>, budget: int, picks: seq<nat>, files: seq<BundleFile>)
    requires Collected(cs, |cs|, budget, picks, files)
    ensures exists attempts :: Attempts(cs, picks, attempts)
  {
    hide Lower, ArchivePath, Tail, BytesFor, Skipped, Allocated;
    forall k | 0 <= k < |files|
      ensures exists a: nat :: Allocated(cs[picks[k]], PathsOf(files[..k]), files[k].archivePath, a)
    {
      assert Taken(cs, budget, files, k, picks[k]);
    }
    var attempts := seq(|files|, k requires 0 <= k < |files| && picks[k] < |cs|
                                   && exists a: nat :: Allocated(cs[picks[k]], PathsOf(files[..k]), files[k].archivePath, a) =>
                                   (var a: nat :| Allocated(cs[picks[k]], PathsOf(files[..k]), files[k].archivePath, a); a));
    forall k | 0 <= k < |files|
      ensures Allocated(cs[picks[k]], PathsOf(files[..k]), files[k].archivePath, attempts[k])
    {
    }
    AllocatedAttempts(cs, picks, files, attempts);
  }

  lemma AllocatedAttempts(cs: seq<Candidate>, picks: seq<nat>, files: seq<BundleFile>, attempts: seq<nat>)
    requires |files| == |picks| == |attempts| && forall j :: 0 <= j < |picks| ==> picks[j] < |cs|
    requires forall k :: 0 <= k < |files| ==> Allocated(cs[picks[k]], PathsOf(files[..k]), files[k].archivePath, attempts[k])
    ensures Attempts(cs, picks, attempts)
  {
    hide Lower, ArchivePath;
    forall k, b: nat | 0 <= k < |picks|
      ensures Clashes(cs, picks, attempts, k, b) <==> Lower(ArchivePath(cs[picks[k]], b)) in PathsOf(files[..k])
    {
      ClashIsUsed(cs, picks, files, attempts, k, b);
    }
  }

  // The hyphen and the digits of a numbered attempt.
  function NumberLength(attempt: nat): nat {
    if attempt < 2 then 0 else 1 + |Decimal(attempt)|
  }

  // A collected bundle is accepted by the archive writer exactly when every candidate taken has a name
  // and an extension that leave room within 100 characters for the number of its attempt.
  lemma BundleIsAccepted(cs: seq<Candidate>, budget: int, picks: seq<nat>, files: seq<BundleFile>, attempts: seq<nat>)
    requires Collected(cs, |cs|, budget, picks, files) && Attempts(cs, picks, attempts)
    requires forall i :: 0 <= i < |cs| ==> Sanitized(cs[i])
    ensures Accepted(files) <==>
            forall k :: 0 <= k < |picks| ==>
              |cs[picks[k]].baseName| + |cs[picks[k]].extension| + NumberLength(attempts[k]) <= 100
  {
    hide Split, Sanitized, Lower, Decimal, Clashes, ArchivePath;
    forall k | 0 <= k < |files|
      ensures Split(files[k].archivePath).Some? <==>
              |cs[picks[k]].baseName| + |cs[picks[k]].extension| + NumberLength(attempts[k]) <= 100
    {
      PathIsAttempt(cs, budget, picks, files, attempts, k);
      PathFits(cs[picks[k]], attempts[k]);
    }
  }

  // The attempt that is numbered is longer than the first.
  lemma NumberedIsLonger(c: Candidate, used: set<string>, path: string, attempt: nat)
    requires Allocated(c, used, path, attempt) && Lower(ArchivePath(c, 1)) in used
    ensures |path| >= |c.folder| + |c.baseName| + |c.extension| + 3
  {
    assert attempt >= 2;
  }

  // Two readable logs of one name are both taken when the budget has room for more than the first.
  lemma TwinsAreTaken(c: Candidate, budget: int, picks: seq<nat>, files: seq<BundleFile>)
    requires c.file.Some? && c.file.value != [] && budget > Min(|c.file.value|, MAX_ENTRY_BYTES)
    requires Collected([c, c], 2, budget, picks, files)
    ensures picks == [0, 1]
  {
    hide Allocated;
    var cs := [c, c];
    assert files[..0] == [];
    assert !Skipped(cs, budget, files, 0, 0);
    assert |picks| >= 1 && picks[0] == 0;
    assert Taken(cs, budget, files, 0, picks[0]);
    assert files[..1][..0] == [] && files[..1][0] == files[0];
    assert Total(files[..1]) == |files[0].content| <= Min(|c.file.value|, MAX_ENTRY_BYTES);
    assert !Skipped(cs, budget, files, 1, 1);
    assert |picks| >= 2 && picks[1] == 1;
    TwoPicks(cs, budget, picks, files);
  }

  lemma TwoPicks(cs: seq<Candidate>, budget: int, picks: seq<nat>, files: seq<BundleFile>)
    requires Collected(cs, 2, budget, picks, files) && |picks| >= 2 && picks[1] == 1
    ensures |picks| == 2
  {
    hide Taken, Skipped;
    var last := picks[|picks| - 1];
    assert last < 2;
  }

  // Two readable logs of one name of 96 characters make a bundle that the archive writer refuses,
  // though it would take either alone.
  lemma LongNamesAreRefused(c: Candidate, budget: int, picks: seq<nat>, files: seq<BundleFile>)
    requires Sanitized(c) && |c.baseName| == 96 && |c.extension| == 4
    requires c.file.Some? && c.file.value != [] && budget > Min(|c.file.value|, MAX_ENTRY_BYTES)
    requires Collected([c, c], 2, budget, picks, files)
    ensures |files| == 2 && !Accepted(files) && Accepted(files[..1])
  {
    hide Collected, Split, Lower, Sanitized, Tail;
    TwinsAreTaken(c, budget, picks, files);
    TwinPaths(c, budget, picks, files);
    PathFits(c, 1);
    var a: nat :| Allocated(c, PathsOf(files[..1]), files[1].archivePath, a);
    NumberedIsLonger(c, PathsOf(files[..1]), files[1].archivePath, a);
    PathFits(c, a);
  }

  lemma TwinPaths(c: Candidate, budget: int, picks: seq<nat>, files: seq<BundleFile>)
    requires Collected([c, c], 2, budget, picks, files) && picks == [0, 1]
    ensures |files| == 2 && files[0].archivePath == ArchivePath(c, 1)
    ensures Lower(ArchivePath(c, 1)) in PathsOf(files[..1])
    ensures exists a: nat :: Allocated(c, PathsOf(files[..1]), files[1].archivePath, a)
  {
    hide ArchivePath, Lower, Tail;
    assert |files| == 2 && picks[0] == 0 && picks[1] == 1;
    assert Taken([c, c], budget, files, 0, picks[0]) && Taken([c, c], budget, files, 1, picks[1]);
    assert PathsOf(files[..0]) == {};
    assert files[..1][0] == files[0];
  }
}
