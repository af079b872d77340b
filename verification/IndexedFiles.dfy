/**
 * The indexed file library as it works on open files: every call moves the cursor and changes the bytes in place,
 * reading through buffers that are reused. Every method is proved against RecordFiles.
 */
module IndexedFiles {
  import opened RecordFiles

  /** The unsigned value that a negative int has in a comparison with a size_t. */
  function AsSize(n: int): int {
    if n < 0 then n + 0x1_0000_0000_0000_0000 else n
  }

  class IndexedFile {
    var bytes: seq<Byte>
    var pos: nat
    var tab: Int32

    ghost function State(): File
      reads this
    {
      File(bytes, pos, tab)
    }

    /** indopen of a new or truncated file. */
    constructor Create(size: Int32)
      ensures State() == Created(size)
    {
      tab := size;
      bytes := Encode(size);
      pos := HEADER;
    }

    /** indopen of an existing file; junk is what the variable for the header holds before it is read. */
    constructor Open(contents: seq<Byte>, junk: seq<Byte>)
      requires |junk| == HEADER
      ensures State() == Opened(contents, junk)
    {
      var count := Min(|contents|, HEADER);
      bytes := contents;
      pos := count;
      tab := Decode(contents[..count] + junk[count..]);
    }

    /** read: copies bytes from the cursor to the start of buf; the rest of buf stays as it was. */
    method SystemRead(buf: array<Byte>, nbytes: nat) returns (count: nat)
      requires buf.Length >= nbytes
      modifies this`pos, buf
      ensures var b := old(ReadBytes(State(), nbytes));
              && count == |b| && buf[..count] == b && buf[count..] == old(buf[|b|..])
              && State() == old(AfterRead(State(), nbytes))
    {
      count := if pos >= |bytes| then 0 else Min(nbytes, |bytes| - pos);
      ghost var was := buf[..];
      var i := 0;
      while i < count
        invariant 0 <= i <= count
        invariant forall k :: 0 <= k < i ==> buf[k] == bytes[pos + k]
        invariant forall k :: i <= k < buf.Length ==> buf[k] == was[k]
        modifies buf
      {
        buf[i] := bytes[pos + i];
        i := i + 1;
      }
      assert buf[..count] == ReadBytes(State(), nbytes);
      pos := pos + count;
    }

    /** indread: -1 on a descriptor that is not open or a request below the record size. */
    method Read(buf: array<Byte>, nbytes: nat) returns (count: int)
      requires buf.Length >= nbytes
      modifies this`pos, buf
      ensures if tab == UNOPENED || nbytes < AsSize(tab)
              then count == -1 && State() == old(State()) && buf[..] == old(buf[..])
              else var b := old(ReadBytes(State(), nbytes));
                   && count == |b| && buf[..count] == b && buf[count..] == old(buf[|b|..])
                   && State() == old(AfterRead(State(), nbytes))
      ensures count == -1 <==> tab == -64 || nbytes < tab || (tab < 0 && nbytes < 0x1_0000_0000_0000_0000 + tab)
    {
      if tab == UNOPENED {
        return -1;
      }
      if nbytes < AsSize(tab) {
        return -1;
      }
      count := SystemRead(buf, nbytes);
    }

    /** indwrite: -1 on a descriptor that is not open or a request below the record size. */
    method Write(buf: array<Byte>, nbytes: nat) returns (count: int)
      requires buf.Length >= nbytes
      modifies this`bytes, this`pos
      ensures if tab == UNOPENED || nbytes < AsSize(tab)
              then count == -1 && State() == old(State())
              else count == nbytes && State() == old(AfterWrite(State(), buf[..nbytes]))
      ensures count == -1 <==> tab == -64 || nbytes < tab || (tab < 0 && nbytes < 0x1_0000_0000_0000_0000 + tab)
    {
      if tab == UNOPENED {
        return -1;
      }
      if AsSize(tab) > nbytes {
        return -1;
      }
      bytes := Overwritten(bytes, pos, buf[..nbytes]);
      pos := pos + nbytes;
      count := nbytes;
    }

    /** indlseek: the new cursor, or -1 with the cursor unmoved. */
    method Seek(offset: int, whence: Whence) returns (r: int)
      modifies this`pos
      ensures if tab == UNOPENED then r == -1 else r == old(IndexTarget(State(), offset, whence))
      ensures State() == if r == -1 then old(State()) else old(State()).(pos := r)
    {
      if tab == UNOPENED {
        return -1;
      }
      var position := offset * tab;
      if whence == FromStart {
        position := position + HEADER;
      } else if whence == FromCursor {
        position := pos + position;
      } else {
        position := |bytes| + position;
      }
      if position < 0 {
        return -1;
      }
      pos := position;
      r := position;
    }

    /** indsearch: reads records until one matches or the file ends; the cursor stays behind the last one read. */
    method Search(matches: seq<Byte> -> bool) returns (found: bool, r: seq<Byte>)
      requires Sound(State())
      modifies this`pos
      ensures Sound(State()) && bytes == old(bytes)
      ensures var rest := old(Remaining(State()));
              var k := FirstMatch(rest, matches);
              && found == (k < |rest|)
              && (found ==> r == rest[k] && Passed(State()) == old(Passed(State())) + rest[..k + 1]
                            && Remaining(State()) == rest[k + 1..])
              && (!found ==> Remaining(State()) == [])
    {
      hide Passed, Split, Join, Encode, Multiple, FirstMatch;
      ghost var rest, front := Remaining(State()), Passed(State());
      var tocmp := new Byte[tab];
      ghost var k := 0;
      assert rest[..0] == [] && rest[0..] == rest && front + [] == front;
      var error := ReadRecord(tocmp);
      while error != 0
        invariant Sound(State()) && bytes == old(bytes) && k <= |rest| && tab == old(tab)
        invariant error == (if k < |rest| then tab else 0)
        invariant k < |rest| ==> tocmp[..] == rest[k] && Remaining(State()) == rest[k + 1..]
                                 && Passed(State()) == front + rest[..k + 1]
        invariant k == |rest| ==> Remaining(State()) == []
        invariant forall j :: 0 <= j < k ==> !matches(rest[j])
        decreases |rest| - k
        modifies this`pos, tocmp
      {
        if matches(tocmp[..]) {
          FirstMatchIs(rest, matches, k);
          return true, tocmp[..];
        }
        assert k + 1 < |rest| ==> rest[k + 1..][0] == rest[k + 1] && rest[k + 1..][1..] == rest[k + 2..];
        assert k + 1 < |rest| ==> front + rest[..k + 1] + [rest[k + 1]] == front + rest[..k + 2];
        error := ReadRecord(tocmp);
        k := k + 1;
      }
      FirstMatchIs(rest, matches, k);
      return false, [];
    }

    /** One read of a whole record, as the search loop makes it. */
    method ReadRecord(buf: array<Byte>) returns (count: nat)
      requires Sound(State()) && buf.Length == tab
      modifies this`pos, buf
      ensures Sound(State()) && bytes == old(bytes)
      ensures var rest := old(Remaining(State()));
              if rest == [] then count == 0 && State() == old(State())
              else && count == tab && buf[..] == rest[0] && Remaining(State()) == rest[1..]
                   && Passed(State()) == old(Passed(State())) + [rest[0]]
    {
      ghost var f := State();
      ReadOne(f);
      count := SystemRead(buf, tab);
      assert count == tab ==> buf[..] == buf[..count];
    }
  }

  lemma {:induction false} FirstMatchIs(rs: seq<seq<Byte>>, matches: seq<Byte> -> bool, k: nat)
    requires k <= |rs| && forall j :: 0 <= j < k ==> !matches(rs[j])
    requires k < |rs| ==> matches(rs[k])
    ensures FirstMatch(rs, matches) == k
  {
    if k > 0 {
      FirstMatchIs(rs[1..], matches, k - 1);
    }
  }

  /** Repeated searches, from the cursor until nothing is found. */
  method SearchAll(f: IndexedFile, matches: seq<Byte> -> bool) returns (out: seq<seq<Byte>>)
    requires Sound(f.State())
    modifies f`pos
    ensures out == old(Filter(Remaining(f.State()), matches))
    ensures Sound(f.State()) && Remaining(f.State()) == [] && f.bytes == old(f.bytes) && f.tab == old(f.tab)
  {
    hide Remaining, Passed, Filter, FirstMatch, Sound;
    out := [];
    FilterFirst(Remaining(f.State()), matches);
    var found, r := f.Search(matches);
    while found
      invariant Sound(f.State()) && f.bytes == old(f.bytes) && f.tab == old(f.tab)
      invariant if found then out + [r] + Filter(Remaining(f.State()), matches) == old(Filter(Remaining(f.State()), matches))
                else out == old(Filter(Remaining(f.State()), matches)) && Remaining(f.State()) == []
      decreases found, |Remaining(f.State())|
      modifies f`pos
    {
      out := out + [r];
      FilterFirst(Remaining(f.State()), matches);
      found, r := f.Search(matches);
    }
  }

  /** Reading one record's worth of bytes, at the end of the file and before it. */
  lemma ReadOne(f: File)
    requires Sound(f)
    ensures var g, rest := AfterRead(f, f.size), Remaining(f);
            && Sound(g) && g.bytes == f.bytes
            && (rest == [] ==> ReadBytes(f, f.size) == [] && g == f)
            && (rest != [] ==> && ReadBytes(f, f.size) == rest[0] && |rest[0]| == f.size
                               && Remaining(g) == rest[1..] && Passed(g) == Passed(f) + [rest[0]])
  {
    ReadKeepsSound(f, 1);
    assert 1 * f.size == f.size;
    var rest := Remaining(f);
    if rest == [] {
      assert rest[..0] == [];
    } else {
      assert rest[..1] == [rest[0]];
      assert Join([rest[0]]) == rest[0] + Join([]);
    }
  }

  /** Writing one record at the end of a file appends it. */
  lemma AppendOne(f: File, r: seq<Byte>)
    requires Sound(f) && Remaining(f) == [] && |r| == f.size
    ensures Sound(AfterWrite(f, r)) && AfterWrite(f, r).size == f.size
    ensures Passed(AfterWrite(f, r)) == Passed(f) + [r] && Remaining(AfterWrite(f, r)) == []
  {
    assert Join([r]) == r + Join([]) == r;
    WriteKeepsSound(f, [r]);
  }

  /** One indread and one indwrite of the copying loop, on the buffer mot. */
  method ReadNext(f: IndexedFile, mot: array<Byte>) returns (err: int)
    requires Sound(f.State()) && f.tab <= mot.Length
    modifies f`pos, mot
    ensures Sound(f.State()) && mot[f.tab..] == old(mot[f.tab..])
    ensures var rest := old(Remaining(f.State()));
            if rest == [] then err == 0 && Remaining(f.State()) == []
            else err == f.tab && mot[..f.tab] == rest[0] && Remaining(f.State()) == rest[1..]
  {
    ReadOne(f.State());
    ghost var was := mot[..];
    err := f.Read(mot, f.tab);
    assert mot[f.tab..] == mot[err..][f.tab - err..] == was[err..][f.tab - err..] == was[f.tab..];
  }

  /** The first n bytes of the buffer are the resized record. */
  lemma BufferResized(mot: seq<Byte>, r: seq<Byte>, n: nat, junk: seq<Byte>)
    requires |mot| == |junk| && |r| <= |mot| && n <= |mot| && mot[..|r|] == r && mot[|r|..] == junk[|r|..]
    ensures mot[..n] == Resized(r, n, junk)
  {
    assert mot == r + junk[|r|..];
  }

  lemma ResizeAppend(rs: seq<seq<Byte>>, i: nat, n: nat, junk: seq<Byte>)
    requires i < |rs| && |junk| >= n
    ensures ResizeAll(rs[..i], n, junk) + [Resized(rs[i], n, junk)] == ResizeAll(rs[..i + 1], n, junk)
  {
  }

  /**
   * indxchg: reads the old file record by record into one buffer and writes the buffer's first newind bytes each
   * time. What malloc leaves in the buffer is arbitrary.
   */
  method Indxchg(contents: seq<Byte>, newind: Int32, header: seq<Byte>)
    returns (newFile: IndexedFile, ghost junk: seq<Byte>)
    requires |header| == HEADER && Sound(Opened(contents, header)) && newind > 0
    ensures fresh(newFile) && Sound(newFile.State()) && newFile.tab == newind && |junk| >= newind
    ensures Records(newFile.State()) == ResizeAll(Records(Opened(contents, header)), newind, junk)
  {
    hide Passed, Remaining, Split, Join, Encode, Decode, Overwritten, ReadBytes, Resized, Multiple;
    var oldFile: IndexedFile := new IndexedFile.Open(contents, header);
    var oldind := oldFile.tab;
    newFile := new IndexedFile.Create(newind);
    CreatedSound(newind);
    var taille := if newind > oldind then newind else oldind;
    var mot := new Byte[taille];
    junk := mot[..];
    ghost var rs := Records(oldFile.State());
    ghost var i := 0;
    ReopenSound(oldFile.State(), header);
    var err := ReadNext(oldFile, mot);
    assert ResizeAll(rs[..0], newind, junk) == [];
    while err != 0 && err != -1
      invariant Sound(oldFile.State()) && oldFile.tab == oldind && i <= |rs|
      invariant Sound(newFile.State()) && newFile.tab == newind && Remaining(newFile.State()) == []
      invariant err == (if i < |rs| then oldind else 0)
      invariant i < |rs| ==> mot[..oldind] == rs[i] && Remaining(oldFile.State()) == rs[i + 1..]
      invariant i == |rs| ==> Remaining(oldFile.State()) == []
      invariant mot[oldind..] == junk[oldind..]
      invariant Passed(newFile.State()) == ResizeAll(rs[..i], newind, junk)
      decreases |rs| - i
      modifies oldFile`pos, newFile`bytes, newFile`pos, mot
    {
      BufferResized(mot[..], rs[i], newind, junk);
      AppendOne(newFile.State(), mot[..newind]);
      ResizeAppend(rs, i, newind, junk);
      var written := newFile.Write(mot, newind);
      err := ReadNext(oldFile, mot);
      i := i + 1;
    }
    RecordsAtCursor(newFile.State());
    assert rs[..i] == rs;
  }

  lemma CreatedSound(size: Int32)
    requires size > 0
    ensures Sound(Created(size)) && Passed(Created(size)) == [] && Remaining(Created(size)) == []
  {
    assert Created(size).bytes[..HEADER] == Encode(size);
  }
}
