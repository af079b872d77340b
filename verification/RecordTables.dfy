/**
 * An indexed file as its user sees it: a list of records and an index into it. The calls on bytes and cursor refine
 * the operations on this table, over any run.
 */
module RecordTables {
  import opened RecordFiles

  datatype Table = Table(records: seq<seq<Byte>>, at: nat)

  predicate Within(t: Table) {
    t.at <= |t.records|
  }

  ghost function TableOf(f: File): (t: Table)
    requires Sound(f)
    ensures Within(t)
  {
    RecordsAtCursor(f);
    Table(Records(f), |Passed(f)|)
  }

  /** Where a seek leads, in records. */
  function Target(t: Table, offset: int, whence: Whence): int {
    match whence
    case FromStart => offset
    case FromCursor => t.at + offset
    case FromEnd => |t.records| + offset
  }

  predicate Possible(t: Table, u: Use) {
    match u
    case Seek(offset, whence) => 0 <= Target(t, offset, whence) <= |t.records|
    case ReadRecords(_) => true
    case WriteRecords(_) => true
  }

  /** The index moves; a write replaces the records from the index on and appends what goes past the end. */
  function TableUsed(t: Table, u: Use): Table
    requires Within(t) && Possible(t, u)
  {
    match u
    case Seek(offset, whence) => t.(at := Target(t, offset, whence))
    case ReadRecords(m) => t.(at := t.at + Min(m, |t.records| - t.at))
    case WriteRecords(rs) =>
      Table(t.records[..t.at] + rs + t.records[t.at + Min(|rs|, |t.records| - t.at)..], t.at + |rs|)
  }

  /** The cursor and the size of a sound file, counted in records. */
  lemma CursorInRecords(f: File)
    requires Sound(f)
    ensures Records(f) == Passed(f) + Remaining(f)
    ensures f.pos == HEADER + |Passed(f)| * f.size && |f.bytes| == HEADER + |Records(f)| * f.size
    ensures Passed(f) == Records(f)[..|Passed(f)|] && Remaining(f) == Records(f)[|Passed(f)|..]
  {
    hide Split, Join, Multiple, AllSized, Encode;
    RecordsAtCursor(f);
    CutSized(f, 0);
    SplitJoin(Passed(f), f.size);
    SplitJoin(Remaining(f), f.size);
    assert |f.bytes[HEADER..f.pos]| == |Passed(f)| * f.size && |f.bytes[f.pos..]| == |Remaining(f)| * f.size;
    assert (|Passed(f)| + |Remaining(f)|) * f.size == |Passed(f)| * f.size + |Remaining(f)| * f.size;
  }

  lemma Distributes(a: int, b: int, n: int)
    ensures (a + b) * n == a * n + b * n
  {
  }

  lemma SeekTargets(f: File, offset: int, whence: Whence)
    requires Sound(f)
    ensures var k := Target(TableOf(f), offset, whence);
            IndexTarget(f, offset, whence) == if HEADER + k * f.size < 0 then -1 else HEADER + k * f.size
  {
    hide Sound, Passed, Remaining, Records;
    CursorInRecords(f);
    Distributes(|Passed(f)|, offset, f.size);
    Distributes(|Records(f)|, offset, f.size);
    match whence
    case FromStart => TargetFrom(f, offset, whence, 0);
    case FromCursor => TargetFrom(f, offset, whence, |Passed(f)|);
    case FromEnd => TargetFrom(f, offset, whence, |Records(f)|);
  }

  /** The byte target of a seek, from a starting point of `from` records. */
  lemma TargetFrom(f: File, offset: int, whence: Whence, from: nat)
    requires whence == FromStart ==> from == 0
    requires whence == FromCursor ==> f.pos == HEADER + from * f.size
    requires whence == FromEnd ==> |f.bytes| == HEADER + from * f.size
    ensures var p := HEADER + (from * f.size + offset * f.size);
            IndexTarget(f, offset, whence) == if p < 0 then -1 else p
  {
  }

  lemma {:induction false} ProductStrict(a: int, b: int, n: nat)
    requires n > 0 && a < b
    ensures a * n < b * n
    decreases b - a
  {
    NextProduct(b - 1, n);
    if a < b - 1 {
      ProductStrict(a, b - 1, n);
    }
  }

  lemma NextProduct(a: int, n: nat)
    ensures (a + 1) * n == a * n + n
  {
  }

  lemma InRecords(k: int, c: nat, n: nat)
    requires n > 0
    ensures 0 <= k * n <= c * n <==> 0 <= k <= c
  {
    if k < 0 {
      ProductStrict(k, 0, n);
    } else if k > c {
      ProductStrict(c, k, n);
    } else {
      ProductMonotone(0, k, n);
      ProductMonotone(k, c, n);
    }
  }

  /** A seek is in range on the bytes exactly when it is possible on the table, and refines it. */
  lemma SeekRefines(f: File, offset: int, whence: Whence)
    requires Sound(f)
    ensures InRange(f, Seek(offset, whence)) <==> Possible(TableOf(f), Seek(offset, whence))
    ensures InRange(f, Seek(offset, whence)) ==>
              var g := Used(f, Seek(offset, whence));
              Sound(g) && g.size == f.size && TableOf(g) == TableUsed(TableOf(f), Seek(offset, whence))
  {
    var k := Target(TableOf(f), offset, whence);
    SeekTargets(f, offset, whence);
    CursorInRecords(f);
    InRecords(k, |Records(f)|, f.size);
    if 0 <= k <= |Records(f)| {
      SeekToRecord(f, k);
    }
  }

  /** Moving k elements from the front of z to the end of a. */
  lemma Moved<E>(a: seq<E>, z: seq<E>, k: nat)
    requires k <= |z|
    ensures (a + z[..k]) + z[k..] == a + z && (a + z)[|a|..|a| + k] == z[..k]
  {
  }

  lemma ReadRefines(f: File, m: nat)
    requires Sound(f)
    ensures var t, g := TableOf(f), Used(f, ReadRecords(m));
            && Sound(g) && g.size == f.size && TableOf(g) == TableUsed(t, ReadRecords(m))
            && ReadBytes(f, m * f.size) == Join(t.records[t.at..TableOf(g).at])
  {
    hide Sound, Passed, Remaining, Records, Join, ReadBytes;
    ReadKeepsSound(f, m);
    var k := Min(m, |Remaining(f)|);
    Moved(Passed(f), Remaining(f), k);
    RecordsAtCursor(f);
    RecordsAtCursor(Used(f, ReadRecords(m)));
  }

  lemma WriteRefines(f: File, rs: seq<seq<Byte>>)
    requires Sound(f) && AllSized(rs, f.size)
    ensures var g := Used(f, WriteRecords(rs));
            Sound(g) && g.size == f.size && TableOf(g) == TableUsed(TableOf(f), WriteRecords(rs))
  {
    hide Passed, Remaining, Records, Join, AfterWrite, AllSized;
    WriteKeepsSound(f, rs);
    CursorInRecords(f);
    RecordsAtCursor(f);
    RecordsAtCursor(Used(f, WriteRecords(rs)));
    var k := Min(|rs|, |Remaining(f)|);
    assert Remaining(f)[k..] == Records(f)[|Passed(f)| + k..];
  }

  /** Each whole-record use is the operation on the table. */
  lemma UseRefines(f: File, u: Use)
    requires Sound(f) && InRange(f, u)
    ensures Sound(Used(f, u)) && Used(f, u).size == f.size
    ensures Possible(TableOf(f), u) && TableOf(Used(f, u)) == TableUsed(TableOf(f), u)
  {
    hide Sound, InRange, Used, TableOf, TableUsed;
    match u
    case Seek(offset, whence) => SeekRefines(f, offset, whence);
    case ReadRecords(m) => ReadRefines(f, m);
    case WriteRecords(rs) => WriteSized(f, rs);
  }

  lemma WriteSized(f: File, rs: seq<seq<Byte>>)
    requires Sound(f) && InRange(f, WriteRecords(rs))
    ensures var g := Used(f, WriteRecords(rs));
            Sound(g) && g.size == f.size && TableOf(g) == TableUsed(TableOf(f), WriteRecords(rs))
  {
    WriteRefines(f, rs);
  }

  /** The tables that a sequence of uses leads through. */
  ghost predicate TableRun(ts: seq<Table>, us: seq<Use>) {
    && |ts| == |us| + 1
    && forall k :: 0 <= k < |us| ==> Within(ts[k]) && Possible(ts[k], us[k]) && ts[k + 1] == TableUsed(ts[k], us[k])
  }

  ghost function TablesOf(fs: seq<File>): (ts: seq<Table>)
    requires forall k :: 0 <= k < |fs| ==> Sound(fs[k])
    ensures |ts| == |fs|
  {
    seq(|fs|, k requires 0 <= k < |fs| => TableOf(fs[k]))
  }

  /**
   * Over any run of seeks, whole-record reads and writes, what the file holds and where the cursor is are what the
   * same operations make of the list of records and the index.
   */
  lemma RunRefines(fs: seq<File>, us: seq<Use>)
    requires Uses(fs, us) && Sound(fs[0])
    ensures forall k :: 0 <= k < |fs| ==> Sound(fs[k]) && fs[k].size == fs[0].size
    ensures TableRun(TablesOf(fs), us)
  {
    hide Sound, InRange, Used, TableOf, TableUsed, Possible;
    forall k: nat | k < |fs| ensures Sound(fs[k]) && fs[k].size == fs[0].size {
      RunKeepsSound(fs, us, k);
    }
    var ts := TablesOf(fs);
    forall k: nat | k < |us| ensures Within(ts[k]) && Possible(ts[k], us[k]) && ts[k + 1] == TableUsed(ts[k], us[k]) {
      UseRefines(fs[k], us[k]);
    }
  }
}
