/**
 * Indexed files as byte sequences: a 4-byte header with the record size, then the records. What reading, writing,
 * seeking, searching and re-indexing do to the bytes and the cursor, and what whole-record use keeps.
 */
module RecordFiles {

  type Byte = x: int | 0 <= x < 256

  type Int32 = x: int | -0x8000_0000 <= x < 0x8000_0000

  const HEADER := 4
  const UNOPENED: Int32 := -64

  /** The four bytes of an int as write stores them, least significant first. */
  function Encode(n: Int32): (b: seq<Byte>)
    ensures |b| == HEADER
  {
    var u := if n < 0 then n + 0x1_0000_0000 else n;
    [u % 0x100, u / 0x100 % 0x100, u / 0x1_0000 % 0x100, u / 0x100_0000]
  }

  function Decode(b: seq<Byte>): (n: Int32)
    requires |b| == HEADER
  {
    var u: int := b[0] as int + 0x100 * b[1] as int + 0x1_0000 * b[2] as int + 0x100_0000 * b[3] as int;
    if u < 0x8000_0000 then u else u - 0x1_0000_0000
  }

  /** An int read back from its bytes is the int written. */
  lemma DecodeEncode(n: Int32)
    ensures Decode(Encode(n)) == n
  {
    var u := if n < 0 then n + 0x1_0000_0000 else n;
    assert u == u % 0x100 + 0x100 * (u / 0x100);
    var v := u / 0x100;
    assert u / 0x1_0000 == v / 0x100 && v == v % 0x100 + 0x100 * (v / 0x100);
    var w := v / 0x100;
    assert u / 0x100_0000 == w / 0x100 && w == w % 0x100 + 0x100 * (w / 0x100);
  }

  /** The bytes of an int are its digits to base 256, the least significant first, negative ints modulo 2^32. */
  lemma EncodeExactly(n: Int32)
    ensures var b := Encode(n);
            b[0] as int + 0x100 * b[1] as int + 0x1_0000 * b[2] as int + 0x100_0000 * b[3] as int
            == if n < 0 then n + 0x1_0000_0000 else n
  {
    var u := if n < 0 then n + 0x1_0000_0000 else n;
    assert u == u % 0x100 + 0x100 * (u / 0x100);
    var v := u / 0x100;
    assert u / 0x1_0000 == v / 0x100 && v == v % 0x100 + 0x100 * (v / 0x100);
    var w := v / 0x100;
    assert u / 0x100_0000 == w / 0x100 && w == w % 0x100 + 0x100 * (w / 0x100);
  }

  /** An open file: its bytes, the cursor, and the entry of tab for its descriptor. */
  datatype File = File(bytes: seq<Byte>, pos: nat, size: int)

  datatype Whence = FromStart | FromCursor | FromEnd

  // ----- records -----

  predicate Multiple(a: nat, n: nat) {
    a == 0 || (n > 0 && a >= n && Multiple(a - n, n))
  }

  lemma {:induction false} MultipleAdd(a: nat, b: nat, n: nat)
    requires Multiple(a, n) && Multiple(b, n)
    ensures Multiple(a + b, n)
  {
    if a != 0 {
      MultipleAdd(a - n, b, n);
    }
  }

  lemma {:induction false} MultipleSub(a: nat, b: nat, n: nat)
    requires Multiple(a, n) && Multiple(b, n) && a >= b
    ensures Multiple(a - b, n)
  {
    if b != 0 {
      MultipleSub(a - n, b - n, n);
    }
  }

  lemma {:induction false} MultipleProduct(k: nat, n: nat)
    requires n > 0
    ensures Multiple(k * n, n)
    ensures k * n >= 0
  {
    if k > 0 {
      MultipleProduct(k - 1, n);
      assert k * n == (k - 1) * n + n;
    }
  }

  /** The whole records at the start of a body. */
  function Split(body: seq<Byte>, n: nat): (rs: seq<seq<Byte>>)
    requires n > 0
    ensures forall k :: 0 <= k < |rs| ==> |rs[k]| == n
  {
    if |body| < n then [] else [body[..n]] + Split(body[n..], n)
  }

  function Join(rs: seq<seq<Byte>>): seq<Byte> {
    if rs == [] then [] else rs[0] + Join(rs[1..])
  }

  predicate AllSized(rs: seq<seq<Byte>>, n: nat) {
    forall k :: 0 <= k < |rs| ==> |rs[k]| == n
  }

  lemma {:induction false} JoinSplit(body: seq<Byte>, n: nat)
    requires n > 0 && Multiple(|body|, n)
    ensures Join(Split(body, n)) == body
  {
    if body != [] {
      JoinSplit(body[n..], n);
      assert body == body[..n] + body[n..];
      assert Split(body, n)[1..] == Split(body[n..], n);
    }
  }

  lemma {:induction false} SplitJoin(rs: seq<seq<Byte>>, n: nat)
    requires n > 0 && AllSized(rs, n)
    ensures Split(Join(rs), n) == rs && Multiple(|Join(rs)|, n) && |Join(rs)| == |rs| * n
  {
    if rs != [] {
      SplitJoin(rs[1..], n);
      assert |rs| * n == n + |rs[1..]| * n;
      assert Join(rs)[..n] == rs[0] && Join(rs)[n..] == Join(rs[1..]);
    }
  }

  lemma {:induction false} JoinConcat(a: seq<seq<Byte>>, b: seq<seq<Byte>>)
    ensures Join(a + b) == Join(a) + Join(b)
  {
    if a == [] {
      assert a + b == b;
    } else {
      JoinConcat(a[1..], b);
      assert (a + b)[1..] == a[1..] + b && (a + b)[0] == a[0];
      assert Join(a) == a[0] + Join(a[1..]);
      assert Join(a + b) == a[0] + Join(a[1..] + b);
      hide Join;
    }
  }

  /** Splitting at a record boundary splits the record list. */
  lemma {:induction false} SplitConcat(a: seq<Byte>, b: seq<Byte>, n: nat)
    requires n > 0 && Multiple(|a|, n)
    ensures Split(a + b, n) == Split(a, n) + Split(b, n)
  {
    if a == [] {
      assert a + b == b;
    } else {
      SplitConcat(a[n..], b, n);
      assert (a + b)[..n] == a[..n] && (a + b)[n..] == a[n..] + b;
    }
  }

  lemma JoinCut(rs: seq<seq<Byte>>, k: nat, n: nat)
    requires n > 0 && AllSized(rs, n) && k <= |rs|
    ensures Join(rs) == Join(rs[..k]) + Join(rs[k..])
    ensures |Join(rs[..k])| == k * n && |Join(rs[k..])| == (|rs| - k) * n && |Join(rs)| == |rs| * n
  {
    assert rs == rs[..k] + rs[k..];
    JoinConcat(rs[..k], rs[k..]);
    SplitJoin(rs[..k], n);
    SplitJoin(rs[k..], n);
    SplitJoin(rs, n);
  }

  lemma ProductMonotone(a: nat, b: nat, n: nat)
    ensures a <= b ==> a * n <= b * n
  {
  }

  /** A file in whole-record use: an intact header, whole records, the cursor on a record boundary. */
  ghost predicate Sound(f: File) {
    && 0 < f.size < 0x8000_0000
    && |f.bytes| >= HEADER && f.bytes[..HEADER] == Encode(f.size)
    && HEADER <= f.pos <= |f.bytes|
    && Multiple(f.pos - HEADER, f.size) && Multiple(|f.bytes| - HEADER, f.size)
  }

  /** All the records of a file. */
  ghost function Records(f: File): seq<seq<Byte>>
    requires Sound(f)
  {
    Split(f.bytes[HEADER..], f.size)
  }

  /** The records behind the cursor, and those from the cursor on. */
  ghost function Passed(f: File): seq<seq<Byte>>
    requires Sound(f)
  {
    Split(f.bytes[HEADER..f.pos], f.size)
  }

  ghost function Remaining(f: File): seq<seq<Byte>>
    requires Sound(f)
  {
    Split(f.bytes[f.pos..], f.size)
  }

  lemma RecordsAtCursor(f: File)
    requires Sound(f)
    ensures Records(f) == Passed(f) + Remaining(f)
    ensures Multiple(|f.bytes| - f.pos, f.size)
    ensures f.bytes[HEADER..f.pos] == Join(Passed(f)) && f.bytes[f.pos..] == Join(Remaining(f))
  {
    assert f.bytes[HEADER..] == f.bytes[HEADER..f.pos] + f.bytes[f.pos..];
    SplitConcat(f.bytes[HEADER..f.pos], f.bytes[f.pos..], f.size);
    MultipleSub(|f.bytes| - HEADER, f.pos - HEADER, f.size);
    JoinSplit(f.bytes[HEADER..f.pos], f.size);
    JoinSplit(f.bytes[f.pos..], f.size);
  }

  // ----- system calls -----

  function Min(a: nat, b: nat): nat { if a < b then a else b }

  /** read: up to n bytes from the cursor. */
  function ReadBytes(f: File, n: nat): (b: seq<Byte>)
  {
    if f.pos >= |f.bytes| then [] else f.bytes[f.pos..f.pos + Min(n, |f.bytes| - f.pos)]
  }

  function AfterRead(f: File, n: nat): File {
    f.(pos := f.pos + |ReadBytes(f, n)|)
  }

  /** write: the bytes go in at the cursor, over what is there; a gap before the cursor fills with zeros. */
  function Overwritten(bytes: seq<Byte>, pos: nat, b: seq<Byte>): seq<Byte> {
    var padded := if pos <= |bytes| then bytes else bytes + seq(pos - |bytes|, _ => 0);
    padded[..pos] + b + if pos + |b| <= |padded| then padded[pos + |b|..] else []
  }

  function AfterWrite(f: File, b: seq<Byte>): File {
    f.(bytes := Overwritten(f.bytes, f.pos, b), pos := f.pos + |b|)
  }

  /**
   * What a write leaves in any file, at any cursor, byte by byte: the bytes written, the old bytes outside them, and
   * zeros in a gap.
   */
  lemma WriteExactly(f: File, b: seq<Byte>)
    ensures var g := AfterWrite(f, b);
            && g.pos == f.pos + |b| && g.size == f.size
            && |g.bytes| == (if f.pos + |b| < |f.bytes| then |f.bytes| else f.pos + |b|)
            && forall i :: 0 <= i < |g.bytes| ==>
                 g.bytes[i] == if f.pos <= i < f.pos + |b| then b[i - f.pos] else if i < |f.bytes| then f.bytes[i] else 0
  {
  }

  /** What a read returns from any file, at any cursor, byte by byte: as much as is there, and not more than asked for. */
  lemma ReadExactly(f: File, n: nat)
    ensures var b := ReadBytes(f, n);
            && AfterRead(f, n) == f.(pos := f.pos + |b|)
            && |b| == (if f.pos >= |f.bytes| then 0 else if f.pos + n <= |f.bytes| then n else |f.bytes| - f.pos)
            && forall i :: 0 <= i < |b| ==> b[i] == f.bytes[f.pos + i]
  {
  }

  /** What was written is read back from where it was written. */
  lemma WriteThenRead(f: File, b: seq<Byte>)
    ensures ReadBytes(AfterWrite(f, b).(pos := f.pos), |b|) == b
  {
    WriteExactly(f, b);
    var g := AfterWrite(f, b);
    if b != [] {
      assert g.bytes[f.pos..f.pos + |b|] == b;
    }
  }

  /** lseek: the new cursor, or -1 when it would be negative. */
  function SeekTarget(f: File, offset: int, whence: Whence): int {
    var target := match whence
                  case FromStart => offset
                  case FromCursor => f.pos + offset
                  case FromEnd => |f.bytes| + offset;
    if target < 0 then -1 else target
  }

  /** indlseek: offsets count records, and FromStart skips the header. */
  function IndexTarget(f: File, offset: int, whence: Whence): int {
    SeekTarget(f, offset * f.size + if whence == FromStart then HEADER else 0, whence)
  }

  // ----- whole-record use -----

  /** The file with the records a behind the cursor and z from the cursor on. */
  ghost function FileOf(size: int, a: seq<seq<Byte>>, z: seq<seq<Byte>>): File
    requires 0 < size < 0x8000_0000
  {
    File(Encode(size) + Join(a) + Join(z), HEADER + |Join(a)|, size)
  }

  lemma FileOfSound(size: int, a: seq<seq<Byte>>, z: seq<seq<Byte>>)
    requires 0 < size < 0x8000_0000 && AllSized(a, size) && AllSized(z, size)
    ensures var f := FileOf(size, a, z);
            Sound(f) && Passed(f) == a && Remaining(f) == z && Records(f) == a + z
  {
    var f := FileOf(size, a, z);
    SplitJoin(a, size);
    SplitJoin(z, size);
    assert f.bytes[..HEADER] == Encode(size);
    assert f.bytes[HEADER..f.pos] == Join(a);
    assert f.bytes[f.pos..] == Join(z);
    MultipleAdd(|Join(a)|, |Join(z)|, size);
    RecordsAtCursor(f);
  }

  lemma SoundIsFileOf(f: File)
    requires Sound(f)
    ensures f == FileOf(f.size, Passed(f), Remaining(f))
  {
    RecordsAtCursor(f);
    assert f.bytes == f.bytes[..HEADER] + f.bytes[HEADER..f.pos] + f.bytes[f.pos..];
  }

  lemma CutSized(f: File, k: nat)
    requires Sound(f) && k <= |Remaining(f)|
    ensures AllSized(Passed(f), f.size) && AllSized(Remaining(f), f.size)
    ensures AllSized(Remaining(f)[..k], f.size) && AllSized(Remaining(f)[k..], f.size)
    ensures Remaining(f) == Remaining(f)[..k] + Remaining(f)[k..]
  {
  }

  lemma ConcatSized(a: seq<seq<Byte>>, b: seq<seq<Byte>>, n: nat)
    requires AllSized(a, n) && AllSized(b, n)
    ensures AllSized(a + b, n)
  {
  }

  /** Reading whole records keeps the file sound and moves records from Remaining to Passed. */
  lemma ReadKeepsSound(f: File, m: nat)
    requires Sound(f)
    ensures var k, g := Min(m, |Remaining(f)|), AfterRead(f, m * f.size);
            && ReadBytes(f, m * f.size) == Join(Remaining(f)[..k])
            && Sound(g) && g.bytes == f.bytes
            && Passed(g) == Passed(f) + Remaining(f)[..k] && Remaining(g) == Remaining(f)[k..]
  {
    var k := Min(m, |Remaining(f)|);
    var a, y, w := Passed(f), Remaining(f)[..k], Remaining(f)[k..];
    hide Passed, Remaining, AfterRead, ReadBytes, FileOf, Join, Records, AllSized;
    CutSized(f, k);
    ConcatSized(a, y, f.size);
    SoundIsFileOf(f);
    TakenShape(Remaining(f), m, f.size);
    ReadFileOf(f.size, a, y, w, m * f.size);
    FileOfSound(f.size, a + y, w);
  }

  /** The same file with the boundary between passed and remaining records moved over y. */
  lemma LaidOut(size: int, a: seq<seq<Byte>>, y: seq<seq<Byte>>, w: seq<seq<Byte>>)
    requires 0 < size < 0x8000_0000
    ensures var p := Encode(size) + Join(a);
            && FileOf(size, a, y + w) == File(p + (Join(y) + Join(w)), |p|, size)
            && FileOf(size, a + y, w) == File(p + Join(y) + Join(w), |p + Join(y)|, size)
            && p + (Join(y) + Join(w)) == p + Join(y) + Join(w)
  {
    hide Encode, Join;
    JoinConcat(a, y);
    JoinConcat(y, w);
    assert Encode(size) + (Join(a) + Join(y)) == Encode(size) + Join(a) + Join(y);
  }

  lemma ReadFileOf(size: int, a: seq<seq<Byte>>, y: seq<seq<Byte>>, w: seq<seq<Byte>>, n: nat)
    requires 0 < size < 0x8000_0000 && Min(n, |Join(y)| + |Join(w)|) == |Join(y)|
    ensures var f := FileOf(size, a, y + w);
            && ReadBytes(f, n) == Join(y) && AfterRead(f, n) == FileOf(size, a + y, w)
            && AfterRead(f, n).bytes == f.bytes
  {
    hide AfterRead, ReadBytes, Encode, Join, FileOf;
    LaidOut(size, a, y, w);
    ReadAt(FileOf(size, a, y + w), n, Encode(size) + Join(a), Join(y), Join(w));
  }

  lemma TakenShape(z: seq<seq<Byte>>, m: nat, n: nat)
    requires n > 0 && AllSized(z, n)
    ensures var k := Min(m, |z|);
            Join(z) == Join(z[..k]) + Join(z[k..]) && Min(m * n, |Join(z)|) == |Join(z[..k])|
  {
    JoinCut(z, Min(m, |z|), n);
    TakenLength(m, |z|, n);
  }

  lemma TakenLength(m: nat, c: nat, n: nat)
    ensures Min(m * n, c * n) == Min(m, c) * n
  {
    ProductMonotone(m, c, n);
    ProductMonotone(c, m, n);
  }

  lemma ReadAt(f: File, n: nat, p: seq<Byte>, y: seq<Byte>, z: seq<Byte>)
    requires f.bytes == p + (y + z) && f.pos == |p| && Min(n, |y| + |z|) == |y|
    ensures ReadBytes(f, n) == y && AfterRead(f, n) == File(p + y + z, |p + y|, f.size)
  {
    assert f.bytes == p + y + z;
    assert (p + y + z)[|p|..|p| + |y|] == y;
  }

  /** Writing whole records replaces the records from the cursor on, appending past the end. */
  lemma WriteKeepsSound(f: File, rs: seq<seq<Byte>>)
    requires Sound(f) && AllSized(rs, f.size)
    ensures var g := AfterWrite(f, Join(rs));
            && Sound(g) && g.size == f.size
            && Passed(g) == Passed(f) + rs
            && Remaining(g) == Remaining(f)[Min(|rs|, |Remaining(f)|)..]
  {
    var k := Min(|rs|, |Remaining(f)|);
    var a, y, w := Passed(f), Remaining(f)[..k], Remaining(f)[k..];
    hide Passed, Remaining, AfterWrite, FileOf, Join, Records, AllSized;
    CutSized(f, k);
    ConcatSized(a, rs, f.size);
    SoundIsFileOf(f);
    WrittenShape(Remaining(f), rs, f.size);
    WriteFileOf(f.size, a, y, w, rs);
    FileOfSound(f.size, a + rs, w);
  }

  lemma WriteFileOf(size: int, a: seq<seq<Byte>>, y: seq<seq<Byte>>, w: seq<seq<Byte>>, rs: seq<seq<Byte>>)
    requires 0 < size < 0x8000_0000
    requires |Join(rs)| == |Join(y)| || (|Join(rs)| > |Join(y)| && Join(w) == [])
    ensures AfterWrite(FileOf(size, a, y + w), Join(rs)) == FileOf(size, a + rs, w)
  {
    hide AfterWrite, Encode, Join, FileOf;
    LaidOut(size, a, y, w);
    LaidOut(size, a, rs, w);
    WriteAt(FileOf(size, a, y + w), Encode(size) + Join(a), Join(y), Join(w), Join(rs));
  }

  lemma WrittenShape(z: seq<seq<Byte>>, rs: seq<seq<Byte>>, n: nat)
    requires n > 0 && AllSized(z, n) && AllSized(rs, n)
    ensures var k := Min(|rs|, |z|);
            && Join(z) == Join(z[..k]) + Join(z[k..])
            && (|Join(rs)| == |Join(z[..k])| || (|Join(rs)| > |Join(z[..k])| && Join(z[k..]) == []))
  {
    JoinCut(z, Min(|rs|, |z|), n);
    SplitJoin(rs, n);
    WrittenLength(|rs|, |z|, n);
  }

  lemma WrittenLength(m: nat, c: nat, n: nat)
    requires n > 0
    ensures m <= c ==> m * n == Min(m, c) * n
    ensures m > c ==> m * n > c * n && (c - Min(m, c)) * n == 0
  {
    if m > c {
      ProductMonotone(c + 1, m, n);
      assert (c + 1) * n == c * n + n;
    }
  }

  lemma WriteAt(f: File, p: seq<Byte>, y: seq<Byte>, z: seq<Byte>, b: seq<Byte>)
    requires f.bytes == p + (y + z) && f.pos == |p|
    requires |b| == |y| || (|b| > |y| && z == [])
    ensures AfterWrite(f, b) == File(p + b + z, |p + b|, f.size)
  {
    assert f.bytes[..f.pos] == p;
    assert |p| + |b| <= |f.bytes| ==> f.bytes[|p| + |b|..] == z;
  }

  /** Seeking to record k, when there is one, leaves exactly the first k records behind the cursor. */
  lemma SeekToRecord(f: File, k: nat)
    requires Sound(f) && k <= |Records(f)|
    ensures IndexTarget(f, k, FromStart) == HEADER + k * f.size
    ensures var g := f.(pos := HEADER + k * f.size);
            Sound(g) && Records(g) == Records(f) && Passed(g) == Records(f)[..k] && Remaining(g) == Records(f)[k..]
  {
    hide Split, Join, Encode, Multiple, AllSized, Passed, Remaining, Records, FileOf;
    RecordsSized(f, k);
    ProductMonotone(0, k, f.size);
    CutAtRecord(f, k);
    FileOfSound(f.size, Records(f)[..k], Records(f)[k..]);
  }

  /** The file with its cursor at record k is the one with the first k records behind the cursor. */
  lemma CutAtRecord(f: File, k: nat)
    requires Sound(f) && k <= |Records(f)| && AllSized(Records(f), f.size)
    ensures f.(pos := HEADER + k * f.size) == FileOf(f.size, Records(f)[..k], Records(f)[k..])
  {
    var rs, n := Records(f), f.size;
    hide Split, Join, Encode, Multiple, AllSized;
    JoinSplit(f.bytes[HEADER..], n);
    JoinCut(rs, k, n);
    assert f.bytes == f.bytes[..HEADER] + f.bytes[HEADER..];
    assert Encode(n) + (Join(rs[..k]) + Join(rs[k..])) == Encode(n) + Join(rs[..k]) + Join(rs[k..]);
  }

  lemma RecordsSized(f: File, k: nat)
    requires Sound(f) && k <= |Records(f)|
    ensures AllSized(Records(f), f.size) && AllSized(Records(f)[..k], f.size) && AllSized(Records(f)[k..], f.size)
    ensures Records(f) == Records(f)[..k] + Records(f)[k..]
  {
  }

  /** Seeking to record k and reading one record returns record k. */
  lemma SeekThenRead(f: File, k: nat)
    requires Sound(f) && k < |Records(f)|
    ensures ReadBytes(f.(pos := IndexTarget(f, k, FromStart)), f.size) == Records(f)[k]
  {
    SeekToRecord(f, k);
    var g := f.(pos := IndexTarget(f, k, FromStart));
    ReadKeepsSound(g, 1);
    var r := Remaining(g)[..1];
    assert r == [Records(f)[k]];
    assert Join(r) == r[0] + Join(r[1..]) == r[0];
    assert 1 * f.size == f.size;
  }

  /** One step of whole-record use: a seek in range, or a read or write of whole records. */
  datatype Use = Seek(offset: int, whence: Whence) | ReadRecords(m: nat) | WriteRecords(rs: seq<seq<Byte>>)

  /** The seeks that end on a record of the file or right behind the last one. */
  ghost predicate InRange(f: File, u: Use)
    requires Sound(f)
  {
    match u
    case Seek(offset, whence) => HEADER <= IndexTarget(f, offset, whence) <= |f.bytes|
    case ReadRecords(_) => true
    case WriteRecords(rs) => AllSized(rs, f.size)
  }

  ghost function Used(f: File, u: Use): File
    requires Sound(f) && InRange(f, u)
  {
    match u
    case Seek(offset, whence) => f.(pos := IndexTarget(f, offset, whence))
    case ReadRecords(m) => AfterRead(f, m * f.size)
    case WriteRecords(rs) => AfterWrite(f, Join(rs))
  }

  /** Whole-record use keeps the header, the record size, and the cursor on a record boundary. */
  lemma UseKeepsSound(f: File, u: Use)
    requires Sound(f) && InRange(f, u)
    ensures Sound(Used(f, u)) && Used(f, u).size == f.size
    ensures !u.WriteRecords? ==> Records(Used(f, u)) == Records(f)
  {
    match u
    case Seek(offset, whence) =>
      OnBoundary(f, offset, whence);
    case ReadRecords(m) =>
      ReadKeepsSound(f, m);
    case WriteRecords(rs) =>
      WriteKeepsSound(f, rs);
  }

  /** Multiples of n that differ by k * n stay multiples. */
  lemma ShiftedMultiple(a: nat, k: int, n: nat)
    requires n > 0 && Multiple(a, n) && a + k * n >= 0
    ensures Multiple(a + k * n, n)
  {
    if k >= 0 {
      MultipleProduct(k, n);
      MultipleAdd(a, k * n, n);
    } else {
      MultipleProduct(-k, n);
      assert (-k) * n == -(k * n);
      MultipleSub(a, (-k) * n, n);
    }
  }

  lemma OnBoundary(f: File, offset: int, whence: Whence)
    requires Sound(f) && HEADER <= IndexTarget(f, offset, whence) <= |f.bytes|
    ensures Sound(f.(pos := IndexTarget(f, offset, whence)))
  {
    match whence
    case FromStart => ShiftedMultiple(0, offset, f.size);
    case FromCursor => ShiftedMultiple(f.pos - HEADER, offset, f.size);
    case FromEnd => ShiftedMultiple(|f.bytes| - HEADER, offset, f.size);
  }

  /** The file after a sequence of uses, each in range where it is made. */
  ghost predicate Uses(fs: seq<File>, us: seq<Use>) {
    && |fs| == |us| + 1
    && forall k :: 0 <= k < |us| ==> Sound(fs[k]) && InRange(fs[k], us[k]) && fs[k + 1] == Used(fs[k], us[k])
  }

  /** Over any run of whole-record uses the file stays sound, with the record size it had. */
  lemma {:induction false} RunKeepsSound(fs: seq<File>, us: seq<Use>, k: nat)
    requires Uses(fs, us) && Sound(fs[0]) && k <= |us|
    ensures Sound(fs[k]) && fs[k].size == fs[0].size
  {
    if k > 0 {
      RunKeepsSound(fs, us, k - 1);
      UseKeepsSound(fs[k - 1], us[k - 1]);
    }
  }

  // ----- opening -----

  /** indopen on a new or truncated file: the header is written, the cursor is behind it. */
  function Created(size: Int32): File {
    File(Encode(size), HEADER, size)
  }

  /** indopen on an existing file: a header that is cut short leaves bytes of the unset variable, junk, in the size. */
  function Opened(bytes: seq<Byte>, junk: seq<Byte>): File
    requires |junk| == HEADER
  {
    var k := Min(|bytes|, HEADER);
    File(bytes, k, Decode(bytes[..k] + junk[k..]))
  }

  /** The record size of an opened file is the file's own if and only if the file has a whole header. */
  lemma SizeExactly(bytes: seq<Byte>)
    ensures (forall junk: seq<Byte>, junk2: seq<Byte> :: |junk| == HEADER && |junk2| == HEADER ==>
               Opened(bytes, junk).size == Opened(bytes, junk2).size)
            <==> |bytes| >= HEADER
  {
    if |bytes| < HEADER {
      var zero, one: seq<Byte> := [0, 0, 0, 0], [0, 0, 0, 1];
      var k := |bytes|;
      var b, c := bytes[..k] + zero[k..], bytes[..k] + one[k..];
      assert b[0] == c[0] && b[1] == c[1] && b[2] == c[2] && b[3] == 0 && c[3] == 1;
      assert Opened(bytes, zero).size != Opened(bytes, one).size;
    } else {
      assert forall junk: seq<Byte> :: |junk| == HEADER ==> bytes[..HEADER] + junk[HEADER..] == bytes[..HEADER];
    }
  }

  /** Create, write records, close, reopen: the record size and the records are there. */
  lemma Persistence(size: Int32, rs: seq<seq<Byte>>, junk: seq<Byte>)
    requires size > 0 && AllSized(rs, size) && |junk| == HEADER
    ensures Sound(Created(size))
    ensures var g := Opened(AfterWrite(Created(size), Join(rs)).bytes, junk);
            Sound(g) && g.size == size && Records(g) == rs && Remaining(g) == rs
  {
    var f := Created(size);
    assert f.bytes[..HEADER] == Encode(size);
    assert Split(f.bytes[HEADER..], size) == [];
    WriteKeepsSound(f, rs);
    RecordsAtCursor(AfterWrite(f, Join(rs)));
    ReopenSound(AfterWrite(f, Join(rs)), junk);
  }

  /** Reopening any sound file gives the same size and records, with the cursor at the first one. */
  lemma ReopenSound(f: File, junk: seq<Byte>)
    requires Sound(f) && |junk| == HEADER
    ensures var g := Opened(f.bytes, junk);
            Sound(g) && g.size == f.size && Records(g) == Records(f) && Remaining(g) == Records(f)
  {
    DecodeEncode(f.size);
    var g := Opened(f.bytes, junk);
    assert f.bytes[HEADER..HEADER] == [];
    assert f.bytes[..HEADER] + junk[HEADER..] == f.bytes[..HEADER];
    RecordsAtCursor(f);
    RecordsAtCursor(g);
  }

  // ----- searching -----

  /** The first record that matches, with its position, in a list of records. */
  function FirstMatch(rs: seq<seq<Byte>>, matches: seq<Byte> -> bool): (k: nat)
    ensures k <= |rs|
    ensures forall j :: 0 <= j < k ==> !matches(rs[j])
    ensures k < |rs| ==> matches(rs[k])
  {
    if rs == [] || matches(rs[0]) then 0 else 1 + FirstMatch(rs[1..], matches)
  }

  /** The records that match, in file order, each once. */
  function Filter(rs: seq<seq<Byte>>, matches: seq<Byte> -> bool): seq<seq<Byte>> {
    if rs == [] then []
    else (if matches(rs[0]) then [rs[0]] else []) + Filter(rs[1..], matches)
  }

  lemma FilterHead(rs: seq<seq<Byte>>, matches: seq<Byte> -> bool)
    requires rs != []
    ensures Filter(rs, matches) == (if matches(rs[0]) then [rs[0]] else []) + Filter(rs[1..], matches)
    ensures FirstMatch(rs, matches) == if matches(rs[0]) then 0 else 1 + FirstMatch(rs[1..], matches)
  {
  }

  lemma {:induction false} FilterFirst(rs: seq<seq<Byte>>, matches: seq<Byte> -> bool)
    ensures var k := FirstMatch(rs, matches);
            Filter(rs, matches) == if k < |rs| then [rs[k]] + Filter(rs[k + 1..], matches) else []
  {
    if rs != [] {
      FilterHead(rs, matches);
      hide Filter, FirstMatch;
      if !matches(rs[0]) {
        FilterFirst(rs[1..], matches);
        var k := FirstMatch(rs[1..], matches);
        assert k < |rs| - 1 ==> rs[1..][k + 1..] == rs[k + 2..];
      }
    }
  }

  // ----- re-indexing -----

  /** The record that a reused buffer holds when old bytes have been read over its first bytes, cut to size n. */
  function Resized(r: seq<Byte>, n: nat, junk: seq<Byte>): (q: seq<Byte>)
    requires |junk| >= n
    ensures |q| == n && q[..Min(|r|, n)] == r[..Min(|r|, n)]
  {
    if n <= |r| then r[..n] else r + junk[|r|..n]
  }

  function ResizeAll(rs: seq<seq<Byte>>, n: nat, junk: seq<Byte>): (qs: seq<seq<Byte>>)
    requires |junk| >= n
    ensures |qs| == |rs| && AllSized(qs, n)
  {
    seq(|rs|, k requires 0 <= k < |rs| => Resized(rs[k], n, junk))
  }

  /** Growing the records and shrinking them back restores them, whatever the buffers held. */
  lemma GrowShrink(rs: seq<seq<Byte>>, m: nat, n: nat, junk1: seq<Byte>, junk2: seq<Byte>)
    requires AllSized(rs, m) && m <= n && |junk1| >= n && |junk2| >= m
    ensures ResizeAll(ResizeAll(rs, n, junk1), m, junk2) == rs
  {
    forall k | 0 <= k < |rs| ensures ResizeAll(ResizeAll(rs, n, junk1), m, junk2)[k] == rs[k] {
      assert Resized(rs[k], n, junk1)[..m] == rs[k][..m] == rs[k];
    }
  }

  /** Going to another size and back restores the records, whatever the buffers held, exactly when the size did not shrink. */
  lemma RestoredExactly(rs: seq<seq<Byte>>, m: nat, n: nat)
    requires AllSized(rs, m)
    ensures (forall junk1: seq<Byte>, junk2: seq<Byte> :: |junk1| >= n && |junk2| >= m ==>
               ResizeAll(ResizeAll(rs, n, junk1), m, junk2) == rs)
            <==> (m <= n || rs == [])
  {
    if m <= n || rs == [] {
      forall junk1: seq<Byte>, junk2: seq<Byte> | |junk1| >= n && |junk2| >= m
        ensures ResizeAll(ResizeAll(rs, n, junk1), m, junk2) == rs
      {
        if m <= n {
          GrowShrink(rs, m, n, junk1, junk2);
        }
      }
    } else {
      var b: Byte := if rs[0][n] == 0 then 1 else 0;
      var junk1: seq<Byte>, junk2: seq<Byte> := seq(n, _ => 0), seq(m, _ => b);
      var back := ResizeAll(ResizeAll(rs, n, junk1), m, junk2);
      assert back[0][n] == b;
    }
  }

  /** Record lists that re-indexing, with some buffer contents, can turn one into the other. */
  ghost predicate Reindexes(a: seq<seq<Byte>>, b: seq<seq<Byte>>, n: nat) {
    exists junk: seq<Byte> :: |junk| >= n && b == ResizeAll(a, n, junk)
  }

  function Smallest(sizes: seq<nat>): nat
    requires sizes != []
  {
    if |sizes| == 1 then sizes[0] else Min(Smallest(sizes[..|sizes| - 1]), sizes[|sizes| - 1])
  }

  /** Chained re-indexing keeps the number and the order of the records, and of each the prefix of the smallest size used. */
  lemma {:induction false} ChainKeepsPrefix(stages: seq<seq<seq<Byte>>>, sizes: seq<nat>, k: nat)
    requires stages != [] && |sizes| == |stages| && AllSized(stages[0], sizes[0])
    requires forall i :: 0 <= i < |stages| - 1 ==> Reindexes(stages[i], stages[i + 1], sizes[i + 1])
    requires k < |stages|
    ensures |stages[k]| == |stages[0]| && AllSized(stages[k], sizes[k])
    ensures Smallest(sizes[..k + 1]) <= Min(sizes[0], sizes[k])
    ensures var p := Smallest(sizes[..k + 1]);
            forall j :: 0 <= j < |stages[0]| ==> stages[k][j][..p] == stages[0][j][..p]
  {
    assert sizes[..k + 1][..k] == sizes[..k];
    if k > 0 {
      ChainKeepsPrefix(stages, sizes, k - 1);
      assert Reindexes(stages[k - 1], stages[k], sizes[k]);
      PrefixStep(stages[k - 1], stages[k], sizes[k - 1], sizes[k], stages[0], Smallest(sizes[..k]));
    }
  }

  lemma PrefixStep(a: seq<seq<Byte>>, b: seq<seq<Byte>>, m: nat, n: nat, first: seq<seq<Byte>>, p: nat)
    requires AllSized(a, m) && Reindexes(a, b, n) && p <= m
    requires |a| == |first| && forall j :: 0 <= j < |a| ==> |first[j]| >= p && a[j][..p] == first[j][..p]
    ensures |b| == |first| && AllSized(b, n)
    ensures forall j :: 0 <= j < |b| ==> b[j][..Min(p, n)] == first[j][..Min(p, n)]
  {
    var junk: seq<Byte> :| |junk| >= n && b == ResizeAll(a, n, junk);
    var q := Min(p, n);
    forall j | 0 <= j < |b| ensures b[j][..q] == first[j][..q] {
      assert b[j][..Min(m, n)] == a[j][..Min(m, n)];
      assert b[j][..q] == b[j][..Min(m, n)][..q] == a[j][..q] == a[j][..p][..q];
    }
  }

  /** Two sound files with the same record size and the same records have the same bytes. */
  lemma SameBytes(f: File, g: File)
    requires Sound(f) && Sound(g) && f.size == g.size && Records(f) == Records(g)
    ensures f.bytes == g.bytes
  {
    JoinSplit(f.bytes[HEADER..], f.size);
    JoinSplit(g.bytes[HEADER..], g.size);
    assert f.bytes == f.bytes[..HEADER] + f.bytes[HEADER..];
    assert g.bytes == g.bytes[..HEADER] + g.bytes[HEADER..];
  }

  /** Re-indexing a file to a size that is not smaller, and back, restores it byte for byte. */
  lemma GrowShrinkBytes(f: File, g: File, h: File)
    requires Sound(f) && Sound(g) && Sound(h) && f.size <= g.size && h.size == f.size
    requires Reindexes(Records(f), Records(g), g.size) && Reindexes(Records(g), Records(h), h.size)
    ensures h.bytes == f.bytes
  {
    var junk1: seq<Byte> :| |junk1| >= g.size && Records(g) == ResizeAll(Records(f), g.size, junk1);
    var junk2: seq<Byte> :| |junk2| >= h.size && Records(h) == ResizeAll(Records(g), h.size, junk2);
    GrowShrink(Records(f), f.size, g.size, junk1, junk2);
    SameBytes(f, h);
  }
}
