/** Reading a file character by character into a char, up to the next space, newline or end. */
module TextScanner {
  import CStrings

  type Byte = x: int | 0 <= x < 256

  const SPACE := ' ' as int
  const NEWLINE := '\n' as int
  const EOF := -1
  const NUL := 0

  /** The value of a byte in a signed char. */
  function Signed(b: Byte): int {
    if b < 128 then b else b - 256
  }

  /** What `c = fgetc(f)` leaves in a signed char: byte 255 cannot be told from the end of the file. */
  function GetC(f: seq<Byte>, pos: nat): int {
    if pos < |f| then Signed(f[pos]) else EOF
  }

  function Advance(f: seq<Byte>, pos: nat): nat {
    if pos < |f| then pos + 1 else pos
  }

  predicate IsStop(c: int) {
    c == SPACE || c == NEWLINE || c == EOF
  }

  /** The position of the first stop at or after pos. */
  function WordEnd(f: seq<Byte>, pos: nat): (e: nat)
    requires pos <= |f|
    ensures pos <= e <= |f| && IsStop(GetC(f, e))
    ensures forall k :: pos <= k < e ==> !IsStop(GetC(f, k))
    decreases |f| - pos
  {
    if IsStop(GetC(f, pos)) then pos else WordEnd(f, pos + 1)
  }

  lemma {:induction false} WordEndIs(f: seq<Byte>, pos: nat, e: nat)
    requires pos <= e <= |f| && IsStop(GetC(f, e))
    requires forall k :: pos <= k < e ==> !IsStop(GetC(f, k))
    ensures WordEnd(f, pos) == e
    decreases e - pos
  {
    if pos < e {
      WordEndIs(f, pos + 1, e);
    }
  }

  /** The characters from pos to e. */
  function Chars(f: seq<Byte>, pos: nat, e: nat): (w: seq<int>)
    requires pos <= e <= |f|
    ensures |w| == e - pos
  {
    seq(e - pos, k requires 0 <= k < e - pos => GetC(f, pos + k))
  }

  function Word(f: seq<Byte>, pos: nat): seq<int>
    requires pos <= |f|
  {
    Chars(f, pos, WordEnd(f, pos))
  }

  /** Where the scan goes on after the word at pos and its stop. */
  function Next(f: seq<Byte>, pos: nat): (n: nat)
    requires pos <= |f|
    ensures pos <= n <= |f|
  {
    Advance(f, WordEnd(f, pos))
  }

  predicate NulFree(f: seq<Byte>) {
    forall k :: 0 <= k < |f| ==> f[k] != NUL
  }

  /** The C string at the start of a buffer of character values. */
  function CText(b: seq<int>): (w: seq<int>)
    ensures |w| <= |b| && w == b[..|w|] && NUL !in w
    ensures NUL !in b ==> w == b
  {
    CStrings.Before(b, NUL)
  }

  /** Characters followed by a NUL are the C string of the characters alone. */
  lemma CTextOfPrefix(b: seq<int>, w: seq<int>)
    requires w <= b && |w| < |b| && b[|w|] == NUL
    ensures CText(b) == CText(w)
  {
    CStrings.BeforeOfPrefix(b, w, NUL);
  }

  /** Sets all 100 characters of the buffer to NUL. */
  method Reset(buffer: array<int>)
    requires buffer.Length == 100
    modifies buffer
    ensures forall k :: 0 <= k < 100 ==> buffer[k] == NUL
  {
    var i := 0;
    while i != 100
      invariant 0 <= i <= 100
      invariant forall k :: 0 <= k < i ==> buffer[k] == NUL
    {
      buffer[i] := NUL;
      i := i + 1;
    }
  }

  /** The inner loop of both programs: a word goes into the buffer at i0; c is the stop, next the file position behind it. */
  method ReadWord(f: seq<Byte>, pos: nat, buffer: array<int>, i0: nat) returns (i: nat, next: nat, c: int)
    requires pos <= |f| && i0 + |Word(f, pos)| < buffer.Length
    modifies buffer
    ensures i == i0 + |Word(f, pos)| && next == Next(f, pos) && c == GetC(f, WordEnd(f, pos))
    ensures buffer[i0..i] == Word(f, pos)
    ensures forall k :: 0 <= k < buffer.Length && !(i0 <= k < i) ==> buffer[k] == old(buffer[k])
  {
    i, next := i0, pos;
    c := GetC(f, next);
    next := Advance(f, next);
    ghost var at := pos;
    while !IsStop(c)
      invariant pos <= at <= WordEnd(f, pos) && i == i0 + at - pos
      invariant c == GetC(f, at) && next == Advance(f, at)
      invariant buffer[i0..i] == Chars(f, pos, at)
      invariant forall k :: 0 <= k < buffer.Length && !(i0 <= k < i) ==> buffer[k] == old(buffer[k])
      decreases |f| - at
    {
      assert at < WordEnd(f, pos);
      buffer[i] := c;
      i := i + 1;
      at := at + 1;
      assert Chars(f, pos, at) == Chars(f, pos, at - 1) + [c];
      assert buffer[i0..i] == buffer[i0..i - 1] + [c];
      c := GetC(f, next);
      next := Advance(f, next);
    }
    WordEndIs(f, pos, at);
  }

  // ----- the words of a text -----

  /** All the words of a text from pos on: one more than there are stops before its end. */
  function Words(f: seq<Byte>, pos: nat): (ws: seq<seq<int>>)
    requires pos <= |f|
    ensures |ws| >= 1
    decreases |f| - pos
  {
    [Word(f, pos)] + if WordEnd(f, pos) == |f| then [] else Words(f, Next(f, pos))
  }

  /** The words that the program reads from a first text: it stops where it reads EOF. */
  function ReadWords(f: seq<Byte>, pos: nat): (ws: seq<seq<int>>)
    requires pos <= |f|
    ensures |ws| >= 1
    decreases |f| - pos
  {
    [Word(f, pos)] + if GetC(f, WordEnd(f, pos)) == EOF then [] else ReadWords(f, Next(f, pos))
  }

  /** The part of a text before its first byte 255. */
  function Readable(f: seq<Byte>): (g: seq<Byte>)
    ensures g <= f && (forall k :: 0 <= k < |g| ==> g[k] != 255) && (|g| < |f| ==> f[|g|] == 255)
  {
    if f == [] || f[0] == 255 then [] else [f[0]] + Readable(f[1..])
  }

  /** The words read from a first text are all the words of its part before the first byte 255. */
  lemma {:induction false} ReadsPrefix(f: seq<Byte>, g: seq<Byte>, pos: nat)
    requires pos <= |g| && g <= f
    requires (forall k :: 0 <= k < |g| ==> g[k] != 255) && (|g| < |f| ==> f[|g|] == 255)
    ensures ReadWords(f, pos) == Words(g, pos)
    decreases |g| - pos
  {
    hide Word, WordEnd, GetC, IsStop;
    SameWord(f, g, pos);
    if WordEnd(g, pos) < |g| {
      ReadsPrefix(f, g, WordEnd(g, pos) + 1);
    }
  }

  lemma SameWord(f: seq<Byte>, g: seq<Byte>, pos: nat)
    requires pos <= |g| && g <= f
    requires (forall k :: 0 <= k < |g| ==> g[k] != 255) && (|g| < |f| ==> f[|g|] == 255)
    ensures WordEnd(f, pos) == WordEnd(g, pos) && Word(f, pos) == Word(g, pos)
    ensures GetC(f, WordEnd(f, pos)) == EOF <==> WordEnd(g, pos) == |g|
  {
    SameCharacters(f, g);
    hide GetC;
    var e := WordEnd(g, pos);
    forall k | pos <= k < e ensures !IsStop(GetC(f, k)) {
      assert !IsStop(GetC(g, k));
    }
    WordEndIs(f, pos, e);
  }

  lemma SameCharacters(f: seq<Byte>, g: seq<Byte>)
    requires g <= f
    requires (forall k :: 0 <= k < |g| ==> g[k] != 255) && (|g| < |f| ==> f[|g|] == 255)
    ensures forall k: nat :: k <= |g| ==> GetC(f, k) == GetC(g, k)
    ensures forall k: nat :: k < |g| ==> GetC(g, k) != EOF
    ensures GetC(f, |g|) == EOF
  {
  }

  // ----- characters and bytes -----

  /** w is what reading the bytes b into signed chars gives. */
  predicate ReadsAs(b: seq<Byte>, w: seq<int>) {
    |w| == |b| && forall j :: 0 <= j < |b| ==> -128 <= w[j] < 128 && (w[j] - b[j]) % 256 == 0
  }

  /** A character read is its byte, as a signed char; behind the last byte it is EOF. */
  lemma CharExactly(f: seq<Byte>, k: nat)
    ensures k < |f| ==> -128 <= GetC(f, k) < 128 && (GetC(f, k) - f[k]) % 256 == 0
    ensures k < |f| && f[k] < 128 ==> GetC(f, k) == f[k]
    ensures k >= |f| ==> GetC(f, k) == -1
  {
  }

  lemma CharsRead(f: seq<Byte>, pos: nat, e: nat)
    requires pos <= e <= |f|
    ensures ReadsAs(f[pos..e], Chars(f, pos, e))
  {
    forall j: nat | j < e - pos
      ensures var w := Chars(f, pos, e); -128 <= w[j] < 128 && (w[j] - f[pos..e][j]) % 256 == 0
    {
      CharExactly(f, pos + j);
    }
  }

  /** Bytes can be read in one way only. */
  lemma ReadsAsUnique(b: seq<Byte>, v: seq<int>, w: seq<int>)
    requires ReadsAs(b, v) && ReadsAs(b, w)
    ensures v == w
  {
    forall j | 0 <= j < |b| ensures v[j] == w[j] {
      assert (v[j] - b[j]) % 256 == (w[j] - b[j]) % 256;
    }
  }

  /** A space, a newline, or the byte that reads as EOF. */
  predicate IsStopByte(b: Byte) {
    b == ' ' as int || b == '\n' as int || b == 255
  }

  lemma StopExactly(f: seq<Byte>, k: nat)
    requires k < |f|
    ensures IsStop(GetC(f, k)) <==> IsStopByte(f[k])
  {
  }

  predicate NoStops(b: seq<Byte>) {
    forall k :: 0 <= k < |b| ==> !IsStopByte(b[k])
  }

  lemma SplitAt(f: seq<Byte>, pos: nat, e: nat)
    requires pos <= e <= |f|
    ensures e < |f| ==> f[pos..] == f[pos..e] + [f[e]] + f[e + 1..]
    ensures e == |f| ==> f[pos..] == f[pos..e]
  {
  }

  /** The text cut at its stop bytes. */
  function CutBytes(f: seq<Byte>): (ws: seq<seq<Byte>>)
    ensures |ws| >= 1
  {
    if f == [] then [[]]
    else
      var ws := CutBytes(f[1..]);
      if IsStopByte(f[0]) then [[]] + ws else [[f[0]] + ws[0]] + ws[1..]
  }

  lemma {:induction false} CutFirst(w: seq<Byte>, s: Byte, rest: seq<Byte>)
    requires IsStopByte(s) && NoStops(w)
    ensures CutBytes(w + [s] + rest) == [w] + CutBytes(rest)
  {
    if w == [] {
      assert (w + [s] + rest)[1..] == rest;
    } else {
      CutFirst(w[1..], s, rest);
      assert (w + [s] + rest)[1..] == w[1..] + [s] + rest;
      assert [w[0]] + w[1..] == w;
    }
  }

  lemma {:induction false} CutLast(w: seq<Byte>)
    requires NoStops(w)
    ensures CutBytes(w) == [w]
  {
    if w != [] {
      CutLast(w[1..]);
      assert [w[0]] + w[1..] == w;
    }
  }

  lemma WordBytes(f: seq<Byte>, pos: nat)
    requires pos <= |f|
    ensures var e := WordEnd(f, pos);
            ReadsAs(f[pos..e], Word(f, pos)) && NoStops(f[pos..e]) && (e < |f| ==> IsStopByte(f[e]))
  {
    var e := WordEnd(f, pos);
    CharsRead(f, pos, e);
    forall k: nat | k < e - pos ensures !IsStopByte(f[pos..e][k]) {
      StopExactly(f, pos + k);
    }
    if e < |f| {
      StopExactly(f, e);
    }
  }

  /** Words read as bytes, one by one. */
  predicate AllReadAs(bs: seq<seq<Byte>>, ws: seq<seq<int>>) {
    |ws| == |bs| && forall k :: 0 <= k < |bs| ==> ReadsAs(bs[k], ws[k])
  }

  /** The words of a text are the pieces between its stop bytes, read as characters. */
  lemma {:induction false} WordsAreBytes(f: seq<Byte>, pos: nat)
    requires pos <= |f|
    ensures AllReadAs(CutBytes(f[pos..]), Words(f, pos))
    decreases |f| - pos
  {
    hide ReadsAs, Word, Words, WordEnd, NoStops, IsStopByte, CutBytes, GetC, IsStop;
    var e := WordEnd(f, pos);
    WordBytes(f, pos);
    WordsUnfold(f, pos);
    SplitAt(f, pos, e);
    if e == |f| {
      CutLast(f[pos..e]);
    } else {
      WordsAreBytes(f, e + 1);
      CutFirst(f[pos..e], f[e], f[e + 1..]);
    }
  }

  lemma WordsUnfold(f: seq<Byte>, pos: nat)
    requires pos <= |f|
    ensures var e := WordEnd(f, pos); Words(f, pos) == [Word(f, pos)] + if e == |f| then [] else Words(f, e + 1)
  {
    hide Word, WordEnd;
  }
}
