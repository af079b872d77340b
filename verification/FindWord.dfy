/** The program that prints the positions of the words of a text that begin with a key. */
module FindWord {
  import opened TextScanner

  datatype Match = Match(offset: int, word: seq<int>)

  /** strncmp(word, key, strlen(key)) == 0 for C strings. */
  predicate StartsWith(word: seq<int>, key: seq<int>) {
    key <= word
  }

  /** What one turn of the main loop prints: the offset is counted back by the length of the C string. */
  function Shown(f: seq<Byte>, pos: nat, key: seq<int>): seq<Match>
    requires pos <= |f|
  {
    var word := CText(Word(f, pos));
    if StartsWith(word, key) && GetC(f, WordEnd(f, pos)) != EOF then [Match(Next(f, pos) - |word| - 1, word)] else []
  }

  /** What the program prints from position pos on. */
  function Found(f: seq<Byte>, pos: nat, key: seq<int>): seq<Match>
    requires pos <= |f|
    decreases |f| - pos
  {
    if GetC(f, WordEnd(f, pos)) == EOF then [] else Shown(f, pos, key) + Found(f, Next(f, pos), key)
  }

  /** Every word of the text fits into the buffer with a terminating NUL. */
  predicate Fits(f: seq<Byte>, pos: nat)
    requires pos <= |f|
    decreases |f| - pos
  {
    |Word(f, pos)| < 100 && (GetC(f, WordEnd(f, pos)) == EOF || Fits(f, Next(f, pos)))
  }

  /** The inner loop, with the NUL written behind the word; word is the C string in the buffer, |word| its strlen. */
  method NextWord(f: seq<Byte>, pos: nat, buffer: array<int>) returns (word: seq<int>, next: nat, c: int)
    requires pos <= |f| && |Word(f, pos)| < buffer.Length
    modifies buffer
    ensures word == CText(Word(f, pos)) && next == Next(f, pos) && c == GetC(f, WordEnd(f, pos))
  {
    var i;
    i, next, c := ReadWord(f, pos, buffer, 0);
    buffer[i] := NUL;
    assert buffer[..i] == Word(f, pos);
    CTextOfPrefix(buffer[..], Word(f, pos));
    word := CText(buffer[..]);
  }

  /** The main loop of the program; ftell is the file position. */
  method Find(f: seq<Byte>, key: seq<int>) returns (out: seq<Match>)
    requires Fits(f, 0)
    ensures out == Found(f, 0, key)
  {
    var buffer := new int[100];
    Reset(buffer);
    out := [];
    var pos: nat, c: int := 0, 97;
    while c != EOF
      invariant pos <= |f|
      invariant c != EOF ==> Fits(f, pos) && out + Found(f, pos, key) == Found(f, 0, key)
      invariant c == EOF ==> out == Found(f, 0, key)
      decreases c != EOF, |f| - pos
    {
      hide Found, Fits, WordEnd, Word, Next, GetC, StartsWith, CText, Shown;
      FindTurn(f, pos, key, out);
      ghost var was, shown := pos, out + Shown(f, pos, key);
      var word;
      word, pos, c := NextWord(f, pos, buffer);
      ShownIs(f, was, key, word, pos, c);
      if StartsWith(word, key) && c != EOF {
        out := out + [Match(pos - |word| - 1, word)];
        Reset(buffer);
      }
      assert out == shown;
    }
  }

  lemma ShownIs(f: seq<Byte>, pos: nat, key: seq<int>, word: seq<int>, next: nat, c: int)
    requires pos <= |f| && word == CText(Word(f, pos)) && next == Next(f, pos) && c == GetC(f, WordEnd(f, pos))
    ensures Shown(f, pos, key) == if StartsWith(word, key) && c != EOF then [Match(next - |word| - 1, word)] else []
  {
    hide Word, Next, WordEnd, CText;
  }

  lemma FindTurn(f: seq<Byte>, pos: nat, key: seq<int>, out: seq<Match>)
    requires pos <= |f| && Fits(f, pos)
    ensures |Word(f, pos)| < 100
    ensures GetC(f, WordEnd(f, pos)) != EOF ==>
              pos < Next(f, pos) && Fits(f, Next(f, pos))
    ensures if GetC(f, WordEnd(f, pos)) == EOF then out + Found(f, pos, key) == out + Shown(f, pos, key)
            else out + Found(f, pos, key) == out + Shown(f, pos, key) + Found(f, Next(f, pos), key)
  {
    FoundTurn(f, pos, key);
    hide Word, Shown, Found;
  }

  lemma FoundTurn(f: seq<Byte>, pos: nat, key: seq<int>)
    requires pos <= |f|
    ensures if GetC(f, WordEnd(f, pos)) == EOF then Found(f, pos, key) == [] == Shown(f, pos, key)
            else Found(f, pos, key) == Shown(f, pos, key) + Found(f, Next(f, pos), key)
  {
    hide Word, Next, WordEnd, CText;
  }

  /** A separator-terminated word of the text starts at o and ends before e. */
  predicate WordSpan(f: seq<Byte>, o: int, e: int) {
    && 0 <= o <= e < |f|
    && (o == 0 || Separator(f, o - 1)) && Separator(f, e)
    && forall k :: o <= k < e ==> !Separator(f, k)
  }

  predicate Separator(f: seq<Byte>, k: int) {
    0 <= k < |f| && (f[k] == ' ' as int || f[k] == '\n' as int)
  }

  /** The bytes from o to e read as the word, and the first of them as the key. */
  predicate SpanReads(f: seq<Byte>, o: int, e: int, word: seq<int>, key: seq<int>)
    requires 0 <= o <= e <= |f|
  {
    ReadsAs(f[o..e], word) && |key| <= e - o && ReadsAs(f[o..o + |key|], key)
  }

  /** Match m is a separator-terminated word of the text whose first bytes are the key, at its position. */
  ghost predicate IsMatch(f: seq<Byte>, m: Match, key: seq<int>) {
    exists e :: WordSpan(f, m.offset, e) && SpanReads(f, m.offset, e, m.word, key)
  }

  lemma SpanReadsChars(f: seq<Byte>, o: nat, e: nat, word: seq<int>, key: seq<int>)
    requires o <= e <= |f|
    ensures SpanReads(f, o, e, word, key) <==> word == Chars(f, o, e) && StartsWith(word, key)
  {
    var w, n := Chars(f, o, e), |key|;
    CharsRead(f, o, e);
    if n <= e - o {
      CharsRead(f, o, o + n);
      assert w[..n] == Chars(f, o, o + n);
    }
    if SpanReads(f, o, e, word, key) {
      ReadsAsUnique(f[o..e], word, w);
      ReadsAsUnique(f[o..o + n], key, w[..n]);
    }
    if StartsWith(w, key) {
      assert key == w[..n];
    }
  }

  /** The bytes that a char can tell from the end of a string and from the end of the file. */
  predicate Plain(f: seq<Byte>, k: int) {
    0 <= k < |f| && f[k] != NUL && f[k] != 255
  }

  /** No NUL and no byte 255 stands before a separator. */
  ghost predicate Clean(f: seq<Byte>) {
    forall k, l :: 0 <= k < l && Separator(f, l) ==> Plain(f, k)
  }

  /**
   * The scan is exact from pos on: offsets increase strictly, and a match is printed exactly if it is a
   * separator-terminated word that begins with the key, with its own position.
   */
  ghost predicate Exact(f: seq<Byte>, pos: nat, key: seq<int>)
    requires pos <= |f|
  {
    && (forall i, j :: 0 <= i < j < |Found(f, pos, key)| ==> Found(f, pos, key)[i].offset < Found(f, pos, key)[j].offset)
    && (forall m: Match :: m in Found(f, pos, key) <==> m.offset >= pos && IsMatch(f, m, key))
  }

  lemma Stops(f: seq<Byte>, k: nat)
    ensures Separator(f, k) ==> IsStop(GetC(f, k)) && GetC(f, k) != EOF
    ensures IsStop(GetC(f, k)) && GetC(f, k) != EOF ==> Separator(f, k)
    ensures Plain(f, k) ==> GetC(f, k) != EOF && GetC(f, k) != NUL
  {
  }

  /** In a clean text a word span at or behind pos is the word at pos, or starts behind the end of that word. */
  lemma SpanFrom(f: seq<Byte>, pos: nat, o: int, e: int)
    requires Clean(f) && pos <= |f| && pos <= o && WordSpan(f, o, e)
    ensures GetC(f, WordEnd(f, pos)) != EOF
    ensures o == pos ==> e == WordEnd(f, pos)
    ensures o != pos ==> WordEnd(f, pos) < o
  {
    var w := WordEnd(f, pos);
    forall k: nat ensures Separator(f, k) ==> IsStop(GetC(f, k)) && GetC(f, k) != EOF {
      Stops(f, k);
    }
    Stops(f, w);
    if w < e {
      assert Plain(f, w);
    }
  }

  /** A separator-terminated word of a clean text is its own C string, and the scan gives its position. */
  lemma CleanTurn(f: seq<Byte>, pos: nat, key: seq<int>)
    requires Clean(f) && pos <= |f| && (pos == 0 || Separator(f, pos - 1)) && GetC(f, WordEnd(f, pos)) != EOF
    ensures WordSpan(f, pos, WordEnd(f, pos)) && Next(f, pos) == WordEnd(f, pos) + 1
    ensures Shown(f, pos, key) == if StartsWith(Word(f, pos), key) then [Match(pos, Word(f, pos))] else []
  {
    var e := WordEnd(f, pos);
    Stops(f, e);
    forall k: nat | k < e ensures GetC(f, k) != NUL && (k >= pos ==> !Separator(f, k)) {
      assert Plain(f, k);
      Stops(f, k);
    }
    assert NUL !in Word(f, pos);
  }

  /** m is the word at pos, and it begins with the key. */
  predicate FirstIs(f: seq<Byte>, pos: nat, m: Match, key: seq<int>)
    requires pos <= |f|
  {
    m == Match(pos, Word(f, pos)) && StartsWith(Word(f, pos), key)
  }

  lemma MatchFrom(f: seq<Byte>, pos: nat, m: Match, key: seq<int>)
    requires Clean(f) && pos <= |f| && WordSpan(f, pos, WordEnd(f, pos)) && m.offset >= pos
    ensures IsMatch(f, m, key) <==> FirstIs(f, pos, m, key) || (m.offset > WordEnd(f, pos) && IsMatch(f, m, key))
  {
    if IsMatch(f, m, key) {
      var e: nat :| WordSpan(f, m.offset, e) && SpanReads(f, m.offset, e, m.word, key);
      SpanReadsChars(f, m.offset, e, m.word, key);
      SpanFrom(f, pos, m.offset, e);
    }
    if FirstIs(f, pos, m, key) {
      SpanReadsChars(f, pos, WordEnd(f, pos), m.word, key);
    }
  }

  lemma NoMatch(f: seq<Byte>, pos: nat, m: Match, key: seq<int>)
    requires Clean(f) && pos <= |f| && GetC(f, WordEnd(f, pos)) == EOF && m.offset >= pos
    ensures !IsMatch(f, m, key)
  {
    forall e ensures !WordSpan(f, m.offset, e) {
      if WordSpan(f, m.offset, e) {
        SpanFrom(f, pos, m.offset, e);
      }
    }
  }

  lemma {:induction false} CleanIsExact(f: seq<Byte>, pos: nat, key: seq<int>)
    requires Clean(f) && pos <= |f| && (pos == 0 || Separator(f, pos - 1))
    ensures Exact(f, pos, key)
    decreases |f| - pos
  {
    if GetC(f, WordEnd(f, pos)) == EOF {
      forall m: Match | m.offset >= pos ensures !IsMatch(f, m, key) {
        NoMatch(f, pos, m, key);
      }
    } else {
      CleanTurn(f, pos, key);
      CleanIsExact(f, Next(f, pos), key);
      forall m: Match | m.offset >= pos
        ensures IsMatch(f, m, key) <==> FirstIs(f, pos, m, key) || (m.offset > WordEnd(f, pos) && IsMatch(f, m, key))
      {
        MatchFrom(f, pos, m, key);
      }
      FoundStep(f, pos, key);
    }
  }

  lemma FoundStep(f: seq<Byte>, pos: nat, key: seq<int>)
    requires pos <= |f| && GetC(f, WordEnd(f, pos)) != EOF
    requires Shown(f, pos, key) == if StartsWith(Word(f, pos), key) then [Match(pos, Word(f, pos))] else []
    ensures Found(f, pos, key) == Shown(f, pos, key) + Found(f, Next(f, pos), key)
    ensures forall m: Match :: m in Found(f, pos, key) <==> FirstIs(f, pos, m, key) || m in Found(f, Next(f, pos), key)
  {
  }

  /** No word printed holds a NUL or a character that reads as EOF. */
  lemma {:induction false} PrintedWords(f: seq<Byte>, pos: nat, key: seq<int>)
    requires pos <= |f|
    ensures forall m: Match :: m in Found(f, pos, key) ==> NUL !in m.word && EOF !in m.word
    decreases |f| - pos
  {
    assert EOF !in Word(f, pos);
    assert CText(Word(f, pos)) == Word(f, pos)[..|CText(Word(f, pos))|];
    if GetC(f, WordEnd(f, pos)) != EOF {
      PrintedWords(f, Next(f, pos), key);
    }
  }

  /** Every position that is no separator and has one behind it lies in a separator-terminated word. */
  lemma {:induction false} SpanBack(f: seq<Byte>, k: nat, e: nat) returns (o: nat)
    requires k <= e && Separator(f, e) && forall j :: k <= j < e ==> !Separator(f, j)
    ensures o <= k && WordSpan(f, o, e)
  {
    if k == 0 || Separator(f, k - 1) {
      o := k;
    } else {
      o := SpanBack(f, k - 1, e);
    }
  }

  lemma {:induction false} SpanAhead(f: seq<Byte>, k: nat, l: nat) returns (e: nat)
    requires k <= l && Separator(f, l)
    ensures k <= e <= l && Separator(f, e) && forall j :: k <= j < e ==> !Separator(f, j)
    decreases l - k
  {
    if Separator(f, k) {
      e := k;
    } else {
      e := SpanAhead(f, k + 1, l);
    }
  }

  lemma UncleanIsNotExact(f: seq<Byte>, k: nat, l: nat)
    requires k < l && Separator(f, l) && !Plain(f, k)
    ensures !Exact(f, 0, [])
  {
    var e := SpanAhead(f, k, l);
    var o := SpanBack(f, k, e);
    var m := Match(o, Chars(f, o, e));
    assert m.word[k - o] == GetC(f, k);
    SpanReadsChars(f, o, e, m.word, []);
    assert IsMatch(f, m, []);
    PrintedWords(f, 0, []);
  }

  /**
   * Scanner exactness: for every key the program prints exactly the separator-terminated words of the text that
   * begin with the key, each once, in increasing order and with its own position, if and only if no NUL and no
   * byte 255 stands before a separator of the text.
   */
  lemma ExactExactly(f: seq<Byte>)
    ensures (forall key :: Exact(f, 0, key)) <==> Clean(f)
  {
    if Clean(f) {
      forall key ensures Exact(f, 0, key) {
        CleanIsExact(f, 0, key);
      }
    } else {
      var k, l :| 0 <= k < l && Separator(f, l) && !Plain(f, k);
      UncleanIsNotExact(f, k, l);
    }
  }

  /** Fits, on the pieces of the text up to its first byte 255: each has less than 100 bytes. */
  lemma FitsExactly(f: seq<Byte>)
    ensures Fits(f, 0) <==> forall k :: 0 <= k < |CutBytes(Readable(f))| ==> |CutBytes(Readable(f))[k]| < 100
  {
    hide CutBytes, Readable, Fits, Words, ReadWords;
    FitsWords(f, 0);
    ReadsPrefix(f, Readable(f), 0);
    assert Readable(f)[0..] == Readable(f);
    WordsAreBytes(Readable(f), 0);
    var a, v := CutBytes(Readable(f)), ReadWords(f, 0);
    forall k | 0 <= k < |a| ensures |a[k]| == |v[k]| {
      assert ReadsAs(a[k], v[k]);
    }
  }

  predicate AllShort(v: seq<seq<int>>) {
    forall k :: 0 <= k < |v| ==> |v[k]| < 100
  }

  lemma ShortHead(x: seq<int>, u: seq<seq<int>>)
    ensures AllShort([x] + u) <==> |x| < 100 && AllShort(u)
  {
    var v := [x] + u;
    assert v[0] == x && forall k :: 0 <= k < |u| ==> u[k] == v[k + 1];
  }

  lemma {:induction false} FitsWords(f: seq<Byte>, pos: nat)
    requires pos <= |f|
    ensures Fits(f, pos) <==> AllShort(ReadWords(f, pos))
    decreases |f| - pos
  {
    hide Word, AllShort;
    if GetC(f, WordEnd(f, pos)) == EOF {
      ShortHead(Word(f, pos), []);
      NoneLong();
      assert [Word(f, pos)] + [] == [Word(f, pos)];
    } else {
      FitsWords(f, Next(f, pos));
      ShortHead(Word(f, pos), ReadWords(f, Next(f, pos)));
    }
  }

  lemma NoneLong()
    ensures AllShort([])
  {
  }
}
