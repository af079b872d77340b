/**
 * The program that merges two texts word by word, and how its output is taken apart again. A byte 255 ends the
 * first text, since the program cannot tell it from the end of the file, and ends a word of the second.
 */
module FileFusion {
  import opened TextScanner

  const BUFFER := 100

  /** The words and spaces that one turn of the main loop puts into the buffer. */
  function Pair(f1: seq<Byte>, p1: nat, f2: seq<Byte>, p2: nat): seq<int>
    requires p1 <= |f1| && p2 <= |f2|
  {
    Word(f1, p1) + [SPACE] + Word(f2, p2) + [SPACE]
  }

  /** What the program writes from positions p1 and p2 on; a NUL cuts what one turn writes. */
  function Fused(f1: seq<Byte>, p1: nat, f2: seq<Byte>, p2: nat): seq<int>
    requires p1 <= |f1| && p2 <= |f2|
    decreases |f1| - p1
  {
    CText(Pair(f1, p1, f2, p2)) +
    if GetC(f1, WordEnd(f1, p1)) == EOF then [] else Fused(f1, Next(f1, p1), f2, Next(f2, p2))
  }

  /** Every pair of words fits into the buffer with its two spaces and a terminating NUL. */
  predicate Fits(f1: seq<Byte>, p1: nat, f2: seq<Byte>, p2: nat)
    requires p1 <= |f1| && p2 <= |f2|
    decreases |f1| - p1
  {
    && |Word(f1, p1)| + |Word(f2, p2)| + 2 < BUFFER
    && (GetC(f1, WordEnd(f1, p1)) == EOF || Fits(f1, Next(f1, p1), f2, Next(f2, p2)))
  }

  /** The main loop of the program. */
  method Fuse(f1: seq<Byte>, f2: seq<Byte>) returns (out: seq<int>)
    requires Fits(f1, 0, f2, 0)
    ensures out == Fused(f1, 0, f2, 0)
  {
    var buffer := new int[BUFFER];
    Reset(buffer);
    out := [];
    var p1: nat, p2: nat, c1: int := 0, 0, 97;
    while c1 != EOF
      invariant p1 <= |f1| && p2 <= |f2|
      invariant c1 != EOF ==> Fits(f1, p1, f2, p2) && out + Fused(f1, p1, f2, p2) == Fused(f1, 0, f2, 0)
      invariant c1 == EOF ==> out == Fused(f1, 0, f2, 0)
      invariant forall k :: 0 <= k < BUFFER ==> buffer[k] == NUL
      decreases c1 != EOF, |f1| - p1
    {
      FusedStep(f1, p1, f2, p2, out);
      hide Fused, Fits, Word, Next, WordEnd, Pair, CText;
      var text;
      text, p1, p2, c1 := FusePair(f1, p1, f2, p2, buffer);
      out := out + text;
    }
  }

  lemma FusedStep(f1: seq<Byte>, p1: nat, f2: seq<Byte>, p2: nat, out: seq<int>)
    requires p1 <= |f1| && p2 <= |f2| && Fits(f1, p1, f2, p2)
    ensures |Word(f1, p1)| + |Word(f2, p2)| + 2 < BUFFER
    ensures if GetC(f1, WordEnd(f1, p1)) == EOF
            then out + Fused(f1, p1, f2, p2) == out + CText(Pair(f1, p1, f2, p2))
            else && p1 < Next(f1, p1) && Fits(f1, Next(f1, p1), f2, Next(f2, p2))
                 && out + Fused(f1, p1, f2, p2) == out + CText(Pair(f1, p1, f2, p2)) + Fused(f1, Next(f1, p1), f2, Next(f2, p2))
  {
    hide Word, Pair, CText;
  }

  /** One turn of the main loop: two words into the buffer, the buffer out, the buffer reset. */
  method FusePair(f1: seq<Byte>, p1: nat, f2: seq<Byte>, p2: nat, buffer: array<int>)
    returns (text: seq<int>, n1: nat, n2: nat, c1: int)
    requires p1 <= |f1| && p2 <= |f2| && buffer.Length == BUFFER
    requires |Word(f1, p1)| + |Word(f2, p2)| + 2 < BUFFER
    requires forall k :: 0 <= k < BUFFER ==> buffer[k] == NUL
    modifies buffer
    ensures text == CText(Pair(f1, p1, f2, p2))
    ensures n1 == Next(f1, p1) && n2 == Next(f2, p2) && c1 == GetC(f1, WordEnd(f1, p1))
    ensures forall k :: 0 <= k < BUFFER ==> buffer[k] == NUL
  {
    var i;
    i, n1, c1 := ReadWord(f1, p1, buffer, 0);
    buffer[i] := SPACE;
    i := i + 1;
    ghost var head := buffer[..i];
    assert head == Word(f1, p1) + [SPACE];
    var j, c2;
    j, n2, c2 := ReadWord(f2, p2, buffer, i);
    assert buffer[..i] == head;
    buffer[j] := SPACE;
    assert buffer[..j + 1] == buffer[..i] + buffer[i..j] + [SPACE] == Pair(f1, p1, f2, p2);
    CTextOfPrefix(buffer[..], Pair(f1, p1, f2, p2));
    text := CText(buffer[..]);
    Reset(buffer);
  }

  // ----- taking the output apart -----

  /** Words written one after the other, each followed by a space. */
  function Spaced(ws: seq<seq<int>>): seq<int> {
    if ws == [] then [] else ws[0] + [SPACE] + Spaced(ws[1..])
  }

  /** s is the text f, read as characters, with its stops as spaces and a space at its end. */
  predicate Spells(f: seq<Byte>, s: seq<int>) {
    && |s| == |f| + 1 && s[|f|] == ' ' as int
    && forall k :: 0 <= k < |f| ==>
         if IsStopByte(f[k]) then s[k] == ' ' as int else -128 <= s[k] < 128 && (s[k] - f[k]) % 256 == 0
  }

  lemma SpellsWord(b: seq<Byte>, w: seq<int>)
    requires ReadsAs(b, w) && NoStops(b)
    ensures Spells(b, w + [SPACE])
  {
  }

  lemma SpellsMore(b: seq<Byte>, w: seq<int>, stop: Byte, g: seq<Byte>, s: seq<int>)
    requires ReadsAs(b, w) && NoStops(b) && IsStopByte(stop) && Spells(g, s)
    ensures Spells(b + [stop] + g, w + [SPACE] + s)
  {
    hide IsStopByte;
    var f, r, n := b + [stop] + g, w + [SPACE] + s, |b| + 1;
    assert forall k :: n <= k < |f| ==> f[k] == g[k - n] && r[k] == s[k - n];
    assert f[|b|] == stop && r[|b|] == SPACE;
  }

  /** The words of a text are the text: written with spaces they give back its bytes, with its stops as spaces. */
  lemma {:induction false} WordsAreText(f: seq<Byte>, pos: nat)
    requires pos <= |f|
    ensures Spells(f[pos..], Spaced(Words(f, pos)))
    decreases |f| - pos
  {
    hide Words, Word, WordEnd, Spells, ReadsAs, NoStops, IsStopByte, Spaced, GetC, IsStop;
    var e := WordEnd(f, pos);
    WordBytes(f, pos);
    WordsHead(f, pos);
    SplitAt(f, pos, e);
    if e == |f| {
      NothingSpaced();
      SpellsWord(f[pos..e], Word(f, pos));
      assert Word(f, pos) + [SPACE] + [] == Word(f, pos) + [SPACE];
    } else {
      WordsAreText(f, e + 1);
      SpellsMore(f[pos..e], Word(f, pos), f[e], f[e + 1..], Spaced(Words(f, e + 1)));
    }
  }

  lemma NothingSpaced()
    ensures Spaced([]) == []
  {
  }

  lemma WordsHead(f: seq<Byte>, pos: nat)
    requires pos <= |f|
    ensures var e := WordEnd(f, pos);
            Spaced(Words(f, pos)) == Word(f, pos) + [SPACE] + Spaced(if e == |f| then [] else Words(f, e + 1))
  {
    var e, ws := WordEnd(f, pos), Words(f, pos);
    hide Word, WordEnd;
    assert ws[1..] == if e == |f| then [] else Words(f, e + 1);
  }

  /** The k-th word of a list that goes on with empty words. */
  function WordAt(ws: seq<seq<int>>, k: nat): seq<int> {
    if k < |ws| then ws[k] else []
  }

  /** The two word lists, alternating, as long as the first. */
  function Interleaved(a: seq<seq<int>>, b: seq<seq<int>>): (r: seq<seq<int>>)
    ensures |r| == 2 * |a|
  {
    if a == [] then [] else [a[0], WordAt(b, 0)] + Interleaved(a[1..], if b == [] then [] else b[1..])
  }

  lemma {:induction false} InterleavedAt(a: seq<seq<int>>, b: seq<seq<int>>, k: nat)
    requires k < |a|
    ensures Interleaved(a, b)[2 * k] == a[k] && Interleaved(a, b)[2 * k + 1] == WordAt(b, k)
  {
    if k > 0 {
      var b1 := if b == [] then [] else b[1..];
      InterleavedAt(a[1..], b1, k - 1);
      assert Interleaved(a, b)[2 * k] == Interleaved(a[1..], b1)[2 * (k - 1)];
      assert Interleaved(a, b)[2 * k + 1] == Interleaved(a[1..], b1)[2 * (k - 1) + 1];
      assert WordAt(b, k) == WordAt(b1, k - 1);
    }
  }

  lemma {:induction false} InterleavedClean(a: seq<seq<int>>, b: seq<seq<int>>)
    requires forall k :: 0 <= k < |a| ==> SPACE !in a[k]
    requires forall k :: 0 <= k < |b| ==> SPACE !in b[k]
    ensures forall i :: 0 <= i < |Interleaved(a, b)| ==> SPACE !in Interleaved(a, b)[i]
  {
    if a != [] {
      InterleavedClean(a[1..], if b == [] then [] else b[1..]);
    }
  }

  lemma PairNulFree(f1: seq<Byte>, p1: nat, f2: seq<Byte>, p2: nat)
    requires NulFree(f1) && NulFree(f2) && p1 <= |f1| && p2 <= |f2|
    ensures CText(Pair(f1, p1, f2, p2)) == Pair(f1, p1, f2, p2)
  {
    assert NUL !in Word(f1, p1) && NUL !in Word(f2, p2);
  }

  /** The words still to come from a second text; none once it is exhausted. */
  function Coming(f: seq<Byte>, pos: nat, over: bool): seq<seq<int>>
    requires pos <= |f|
  {
    if over then [] else Words(f, pos)
  }

  /** The output is the words of both texts, alternating, each followed by a space. */
  lemma {:induction false} FusedWords(f1: seq<Byte>, p1: nat, f2: seq<Byte>, p2: nat, over: bool)
    requires NulFree(f1) && NulFree(f2) && p1 <= |f1| && p2 <= |f2| && (over ==> p2 == |f2|)
    ensures Fused(f1, p1, f2, p2) == Spaced(Interleaved(ReadWords(f1, p1), Coming(f2, p2, over)))
    decreases |f1| - p1
  {
    var a, b := ReadWords(f1, p1), Coming(f2, p2, over);
    PairNulFree(f1, p1, f2, p2);
    var r := Interleaved(a, b);
    assert WordAt(b, 0) == Word(f2, p2);
    SpacedPair(r);
    var b1 := if b == [] then [] else b[1..];
    if GetC(f1, WordEnd(f1, p1)) == EOF {
      assert a[1..] == [];
      assert r[2..] == [];
    } else {
      var over1 := over || WordEnd(f2, p2) == |f2|;
      FusedWords(f1, Next(f1, p1), f2, Next(f2, p2), over1);
      assert a[1..] == ReadWords(f1, Next(f1, p1));
      assert b1 == Coming(f2, Next(f2, p2), over1);
      assert r[2..] == Interleaved(a[1..], b1);
    }
  }

  lemma SpacedPair(r: seq<seq<int>>)
    requires |r| >= 2
    ensures Spaced(r) == r[0] + [SPACE] + r[1] + [SPACE] + Spaced(r[2..])
  {
    assert r[1..][1..] == r[2..];
  }

  /** Cutting a character sequence at its spaces. */
  function CutAtSpaces(s: seq<int>): (ws: seq<seq<int>>)
    ensures |ws| >= 1
  {
    if s == [] then [[]]
    else
      var ws := CutAtSpaces(s[1..]);
      if s[0] == SPACE then [[]] + ws else [[s[0]] + ws[0]] + ws[1..]
  }

  lemma {:induction false} CutWord(w: seq<int>, s: seq<int>)
    requires SPACE !in w
    ensures CutAtSpaces(w + [SPACE] + s) == [w] + CutAtSpaces(s)
  {
    if w == [] {
      assert ([SPACE] + s)[1..] == s;
      assert w + [SPACE] + s == [SPACE] + s;
    } else {
      assert w[0] in w;
      CutWord(w[1..], s);
      assert (w + [SPACE] + s)[1..] == w[1..] + [SPACE] + s;
      assert [w[0]] + w[1..] == w;
    }
  }

  lemma {:induction false} CutSpaced(ws: seq<seq<int>>)
    requires forall k :: 0 <= k < |ws| ==> SPACE !in ws[k]
    ensures CutAtSpaces(Spaced(ws)) == ws + [[]]
  {
    if ws != [] {
      CutSpaced(ws[1..]);
      CutWord(ws[0], Spaced(ws[1..]));
      assert [ws[0]] + (ws[1..] + [[]]) == ws + [[]];
    }
  }

  lemma {:induction false} WordsWithoutSpaces(f: seq<Byte>, pos: nat)
    requires pos <= |f|
    ensures forall k :: 0 <= k < |Words(f, pos)| ==> SPACE !in Words(f, pos)[k]
    decreases |f| - pos
  {
    if WordEnd(f, pos) != |f| {
      WordsWithoutSpaces(f, Next(f, pos));
    }
  }

  /** The pieces of a text, going on with empty ones. */
  function PieceAt(bs: seq<seq<Byte>>, k: nat): seq<Byte> {
    if k < |bs| then bs[k] else []
  }

  /** Cutting the output at its spaces gives the words of both texts, alternating. */
  lemma WordsCutOut(f1: seq<Byte>, f2: seq<Byte>)
    requires NulFree(f1) && NulFree(f2)
    ensures var ws, a, b := CutAtSpaces(Fused(f1, 0, f2, 0)), Words(Readable(f1), 0), Words(f2, 0);
            && |ws| == 2 * |a| + 1 && ws[2 * |a|] == []
            && forall k :: 0 <= k < |a| ==> ws[2 * k] == a[k] && ws[2 * k + 1] == WordAt(b, k)
  {
    var a, b := Words(Readable(f1), 0), Words(f2, 0);
    FusedWords(f1, 0, f2, 0, false);
    ReadsPrefix(f1, Readable(f1), 0);
    WordsWithoutSpaces(Readable(f1), 0);
    WordsWithoutSpaces(f2, 0);
    var r := Interleaved(a, b);
    forall k: nat | k < |a| ensures r[2 * k] == a[k] && r[2 * k + 1] == WordAt(b, k) {
      InterleavedAt(a, b, k);
    }
    hide Words, Interleaved, Fused, CutAtSpaces, Spaced;
    InterleavedClean(a, b);
    CutSpaced(r);
  }

  /**
   * Un-fusion: cutting the output at its spaces gives, at the even places, the pieces of the first text between its
   * spaces and newlines (up to its first byte 255) and, at the odd places, those of the second, byte for byte, with
   * empty ones once it is exhausted.
   */
  lemma Unfusion(f1: seq<Byte>, f2: seq<Byte>)
    requires NulFree(f1) && NulFree(f2)
    ensures var ws, a, b := CutAtSpaces(Fused(f1, 0, f2, 0)), CutBytes(Readable(f1)), CutBytes(f2);
            && |ws| == 2 * |a| + 1 && ws[2 * |a|] == []
            && forall k :: 0 <= k < |a| ==> ReadsAs(a[k], ws[2 * k]) && ReadsAs(PieceAt(b, k), ws[2 * k + 1])
  {
    hide CutAtSpaces, Fused, Words, CutBytes, Readable;
    WordsCutOut(f1, f2);
    assert Readable(f1)[0..] == Readable(f1) && f2[0..] == f2;
    WordsAreBytes(Readable(f1), 0);
    WordsAreBytes(f2, 0);
  }

  /** Fits, on the pieces of the texts: every pair has less than 98 bytes. */
  lemma FitsExactly(f1: seq<Byte>, f2: seq<Byte>)
    ensures var a, b := CutBytes(Readable(f1)), CutBytes(f2);
            Fits(f1, 0, f2, 0) <==> forall k :: 0 <= k < |a| ==> |a[k]| + |PieceAt(b, k)| < 98
  {
    hide CutBytes, Readable, Fits, Words, ReadWords, ReadsAs;
    FitsWords(f1, 0, f2, 0, false);
    ReadsPrefix(f1, Readable(f1), 0);
    assert Readable(f1)[0..] == Readable(f1) && f2[0..] == f2;
    WordsAreBytes(Readable(f1), 0);
    WordsAreBytes(f2, 0);
    var a, b := CutBytes(Readable(f1)), CutBytes(f2);
    var v, w := ReadWords(f1, 0), Words(f2, 0);
    forall k | 0 <= k < |a| ensures |a[k]| == |v[k]| && |PieceAt(b, k)| == |WordAt(w, k)| {
      SameLength(a[k], v[k]);
      if k < |b| {
        SameLength(b[k], w[k]);
      }
    }
  }

  lemma SameLength(b: seq<Byte>, w: seq<int>)
    requires ReadsAs(b, w)
    ensures |b| == |w|
  {
  }

  predicate PairsFit(v: seq<seq<int>>, w: seq<seq<int>>) {
    forall k :: 0 <= k < |v| ==> |v[k]| + |WordAt(w, k)| < 98
  }

  lemma PairsFitHead(x: seq<int>, v: seq<seq<int>>, w: seq<seq<int>>)
    ensures PairsFit([x] + v, w) <==>
            |x| + |WordAt(w, 0)| < 98 && PairsFit(v, if w == [] then [] else w[1..])
  {
    var u, w1 := [x] + v, if w == [] then [] else w[1..];
    assert forall k :: 0 < k < |u| ==> u[k] == v[k - 1] && WordAt(w, k) == WordAt(w1, k - 1);
    assert forall k :: 0 <= k < |v| ==> v[k] == u[k + 1] && WordAt(w1, k) == WordAt(w, k + 1);
  }

  /** The words still to come after the next one. */
  lemma ComingNext(f: seq<Byte>, pos: nat, over: bool)
    requires pos <= |f| && (over ==> pos == |f|)
    ensures var w := Coming(f, pos, over);
            && WordAt(w, 0) == Word(f, pos)
            && Coming(f, Next(f, pos), over || WordEnd(f, pos) == |f|) == if w == [] then [] else w[1..]
  {
  }

  lemma {:induction false} FitsWords(f1: seq<Byte>, p1: nat, f2: seq<Byte>, p2: nat, over: bool)
    requires p1 <= |f1| && p2 <= |f2| && (over ==> p2 == |f2|)
    ensures Fits(f1, p1, f2, p2) <==> PairsFit(ReadWords(f1, p1), Coming(f2, p2, over))
    decreases |f1| - p1
  {
    hide Coming, PairsFit, Word, Words;
    var w := Coming(f2, p2, over);
    ComingNext(f2, p2, over);
    if GetC(f1, WordEnd(f1, p1)) == EOF {
      PairsFitHead(Word(f1, p1), [], w);
      NoPairs(if w == [] then [] else w[1..]);
      assert [Word(f1, p1)] + [] == [Word(f1, p1)];
    } else {
      FitsWords(f1, Next(f1, p1), f2, Next(f2, p2), over || WordEnd(f2, p2) == |f2|);
      PairsFitHead(Word(f1, p1), ReadWords(f1, Next(f1, p1)), w);
    }
  }

  lemma NoPairs(w: seq<seq<int>>)
    ensures PairsFit([], w)
  {
  }
}
