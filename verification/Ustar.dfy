// The ustar archive of a log bundle (IEEE Std 1003.1, pax utility, "ustar Interchange Format"):
// what the writer produces, and a reader of the format to hold it against.
module Ustar {
  import opened Wrappers
  import opened Utf8

  const BLOCK := 512

  // `mtime` is the modification time in seconds, already resolved from its text or the clock.
  datatype BundleFile = BundleFile(archivePath: string, content: seq<byte>, mtime: int)

  // ---- bytes ----

  function Fill(n: nat, b: byte): (r: seq<byte>)
    ensures |r| == n && forall i :: 0 <= i < n ==> r[i] == b
  {
    if n == 0 then [] else Fill(n - 1, b) + [b]
  }

  function Zeros(n: nat): (r: seq<byte>)
    ensures |r| == n && forall i :: 0 <= i < n ==> r[i] == 0
  {
    Fill(n, 0)
  }

  function Put(b: seq<byte>, o: nat, x: seq<byte>): (r: seq<byte>)
    requires o + |x| <= |b|
    ensures |r| == |b|
    ensures forall i :: 0 <= i < |b| ==> r[i] == if o <= i < o + |x| then x[i - o] else b[i]
  {
    b[..o] + x + b[o + |x|..]
  }

  function Sum(b: seq<byte>): (s: nat)
    ensures s <= 255 * |b|
  {
    if b == [] then 0 else Sum(b[..|b| - 1]) + b[|b| - 1]
  }

  // ---- octal numbers ----

  // toString(8)
  function Octal(n: nat): (r: seq<byte>)
    ensures |r| >= 1 && forall i :: 0 <= i < |r| ==> 48 <= r[i] < 56
  {
    if n < 8 then [48 + n] else Octal(n / 8) + [48 + n % 8]
  }

  // slice(-w), for w > 0
  function LastBytes(b: seq<byte>, w: nat): seq<byte> {
    if |b| <= w then b else b[|b| - w..]
  }

  // padStart(w, '0')
  function PadStart(b: seq<byte>, w: nat): seq<byte> {
    if |b| >= w then b else Fill(w - |b|, 48) + b
  }

  function NumberField(value: int, length: nat): (r: seq<byte>)
    requires length >= 2
    ensures |r| == length
  {
    PadStart(LastBytes(Octal(Max(0, value)), length - 1), length - 1) + [0]
  }

  function OctalValue(d: seq<byte>): nat
    requires forall i :: 0 <= i < |d| ==> 48 <= d[i] < 56
  {
    if d == [] then 0 else 8 * OctalValue(d[..|d| - 1]) + (d[|d| - 1] - 48)
  }

  // ---- splitTarPath ----

  function Slashes(s: string): (r: string)
    ensures |r| == |s|
    ensures forall i :: 0 <= i < |s| ==> r[i] == if s[i] == '\\' then '/' else s[i]
  {
    if s == [] then [] else Slashes(s[..|s| - 1]) + [if s[|s| - 1] == '\\' then '/' else s[|s| - 1]]
  }

  function WithoutLeading(s: string): (r: string)
    ensures r == [] || r[0] != '/'
  {
    if s != [] && s[0] == '/' then WithoutLeading(s[1..]) else s
  }

  function Normalized(path: string): string {
    WithoutLeading(Slashes(path))
  }

  predicate Fits(s: string, p: nat)
    requires p <= |s|
  {
    p < |s| && s[p] == '/' && |Encode(s[..p])| <= 155 && |Encode(s[p + 1..])| <= 100
  }

  // The leftmost slash at which both parts fit, from position p on; |s| when there is none.
  function FirstFit(s: string, p: nat): (q: nat)
    requires p <= |s|
    ensures p <= q <= |s|
    ensures q < |s| ==> Fits(s, q)
    ensures forall r :: p <= r < q ==> !Fits(s, r)
    decreases |s| - p
  {
    if p == |s| || Fits(s, p) then p else FirstFit(s, p + 1)
  }

  // The name and the prefix, or None when the path is too long.
  function Split(path: string): (r: Option<(string, string)>)
    ensures r.Some? ==> |Encode(r.value.0)| <= 100 && |Encode(r.value.1)| <= 155
  {
    var s := Normalized(path);
    var p := FirstFit(s, 0);
    if |Encode(s)| <= 100 then Some((s, []))
    else if p < |s| then Some((s[p + 1..], s[..p]))
    else None
  }

  // ---- the header ----

  const USTAR: seq<byte> := [117, 115, 116, 97, 114]
  const VERSION: seq<byte> := [48, 48]
  const OWNER: seq<byte> := [115, 99, 97, 108, 101, 119, 111, 114, 108, 100]

  // What is written into the zeroed block, in order of offset. The checksum is spaces at first.
  function Fields(name: string, prefix: string, size: nat, mtime: int): seq<(nat, seq<byte>)> {
    [(0, Encode(name)), (100, NumberField(420, 8)), (108, NumberField(0, 8)), (116, NumberField(0, 8)),
     (124, NumberField(size, 12)), (136, NumberField(mtime, 12)), (148, Fill(8, 32)), (156, [48]),
     (257, USTAR), (263, VERSION), (265, OWNER), (297, OWNER), (345, Encode(prefix))]
  }

  ghost predicate Placed(ws: seq<(nat, seq<byte>)>, n: nat) {
    forall i :: 0 <= i < |ws| ==> ws[i].0 + |ws[i].1| <= n
  }

  function PutAll(b: seq<byte>, ws: seq<(nat, seq<byte>)>): (r: seq<byte>)
    requires Placed(ws, |b|)
    ensures |r| == |b|
  {
    if ws == [] then b
    else
      var last := ws[|ws| - 1];
      Put(PutAll(b, ws[..|ws| - 1]), last.0, last.1)
  }

  function Checksum(sum: nat): seq<byte> {
    PadStart(Octal(sum), 6) + [0, 32]
  }

  lemma FieldsPlaced(name: string, prefix: string, size: nat, mtime: int)
    requires |Encode(name)| <= 100 && |Encode(prefix)| <= 155
    ensures Placed(Fields(name, prefix, size, mtime), BLOCK)
  {
    hide Encode, NumberField, Fill;
    assert |Fill(8, 32)| == 8;
  }

  function Unsummed(name: string, prefix: string, size: nat, mtime: int): (r: seq<byte>)
    requires |Encode(name)| <= 100 && |Encode(prefix)| <= 155
    ensures |r| == BLOCK
  {
    FieldsPlaced(name, prefix, size, mtime);
    PutAll(Zeros(BLOCK), Fields(name, prefix, size, mtime))
  }

  lemma {:induction false} OctalDigits(n: nat, w: nat)
    requires w >= 1 && n < Pow8(w)
    ensures |Octal(n)| <= w
  {
    if n >= 8 {
      assert w >= 2;
      OctalDigits(n / 8, w - 1);
    }
  }

  function Pow8(w: nat): (p: nat)
    ensures p >= 1
  {
    if w == 0 then 1 else 8 * Pow8(w - 1)
  }

  // The checksum of a block always fits its six digits.
  lemma ChecksumFits(b: seq<byte>)
    requires |b| == BLOCK
    ensures |Checksum(Sum(b))| == 8 && |PadStart(Octal(Sum(b)), 6)| == 6
  {
    assert Pow8(6) == 8 * (8 * (8 * (8 * (8 * (8 * Pow8(0)))))) == 262144;
    OctalDigits(Sum(b), 6);
  }

  function Header(name: string, prefix: string, size: nat, mtime: int): (r: seq<byte>)
    requires |Encode(name)| <= 100 && |Encode(prefix)| <= 155
    ensures |r| == BLOCK
  {
    var b := Unsummed(name, prefix, size, mtime);
    ChecksumFits(b);
    Put(b, 148, Checksum(Sum(b)))
  }

  // ---- the archive ----

  function Padding(n: nat): nat {
    (BLOCK - n % BLOCK) % BLOCK
  }

  predicate Accepted(files: seq<BundleFile>) {
    forall i :: 0 <= i < |files| ==> Split(files[i].archivePath).Some?
  }

  function Member(f: BundleFile): (r: seq<byte>)
    requires Split(f.archivePath).Some?
    ensures |r| == BLOCK + |f.content| + Padding(|f.content|)
  {
    var (name, prefix) := Split(f.archivePath).value;
    Header(name, prefix, |f.content|, f.mtime) + f.content + Zeros(Padding(|f.content|))
  }

  function Archive(files: seq<BundleFile>): (r: seq<byte>)
    requires Accepted(files)
    ensures |r| >= 2 * BLOCK
  {
    if files == [] then Zeros(2 * BLOCK) else Member(files[0]) + Archive(files[1..])
  }

  // ---- a reader ----

  // What an entry's header says, with the path as bytes.
  datatype Info = Info(path: seq<byte>, mode: nat, uid: nat, gid: nat, size: nat, mtime: nat, uname: seq<byte>, gname: seq<byte>)
  datatype Entry = Entry(info: Info, content: seq<byte>)

  function FirstZero(b: seq<byte>, p: nat): (q: nat)
    requires p <= |b|
    ensures p <= q <= |b|
    ensures q < |b| ==> b[q] == 0
    ensures forall r :: p <= r < q ==> b[r] != 0
    decreases |b| - p
  {
    if p == |b| || b[p] == 0 then p else FirstZero(b, p + 1)
  }

  // Text fields end at the first zero byte, or fill the field.
  function TextOf(field: seq<byte>): seq<byte> {
    field[..FirstZero(field, 0)]
  }

  function DigitsEnd(b: seq<byte>, p: nat): (q: nat)
    requires p <= |b|
    ensures p <= q <= |b|
    ensures q < |b| ==> !(48 <= b[q] < 56)
    ensures forall r :: p <= r < q ==> 48 <= b[r] < 56
    decreases |b| - p
  {
    if p == |b| || !(48 <= b[p] < 56) then p else DigitsEnd(b, p + 1)
  }

  // Octal digits, ended by spaces or zero bytes.
  function NumberOf(field: seq<byte>): Option<nat> {
    var n := DigitsEnd(field, 0);
    if 0 < n < |field| && forall i :: n <= i < |field| ==> field[i] == 0 || field[i] == 32
    then Some(OctalValue(field[..n])) else None
  }

  function Joined(prefix: seq<byte>, name: seq<byte>): seq<byte> {
    if prefix == [] then name else prefix + [47] + name
  }

  predicate GoodSum(h: seq<byte>)
    requires |h| == BLOCK
  {
    NumberOf(h[148..156]) == Some(Sum(Put(h, 148, Fill(8, 32))))
  }

  // None unless the magic, the version, the checksum, the type and every number are in order.
  function ReadHeader(h: seq<byte>): Option<Info>
    requires |h| == BLOCK
  {
    if h[257..263] != USTAR + [0] || h[263..265] != VERSION || !GoodSum(h) || h[156] != 48 then None
    else
      var mode, uid, gid := NumberOf(h[100..108]), NumberOf(h[108..116]), NumberOf(h[116..124]);
      var size, mtime := NumberOf(h[124..136]), NumberOf(h[136..148]);
      if mode.None? || uid.None? || gid.None? || size.None? || mtime.None? then None
      else Some(Info(Joined(TextOf(h[345..500]), TextOf(h[0..100])), mode.value, uid.value, gid.value,
                     size.value, mtime.value, TextOf(h[265..297]), TextOf(h[297..329])))
  }

  // Two zero blocks end an archive.
  function Read(a: seq<byte>): (r: Option<seq<Entry>>)
    decreases |a|
  {
    if |a| < 2 * BLOCK then None
    else if a[..2 * BLOCK] == Zeros(2 * BLOCK) then Some([])
    else
      var info := ReadHeader(a[..BLOCK]);
      if info.None? then None
      else
        var end := BLOCK + info.value.size + Padding(info.value.size);
        if |a| < end then None
        else
          var rest := Read(a[end..]);
          if rest.None? then None
          else Some([Entry(info.value, a[BLOCK..BLOCK + info.value.size])] + rest.value)
  }
}
