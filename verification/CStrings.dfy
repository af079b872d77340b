/** C strings in fixed-size byte buffers: what strncpy leaves in a reused buffer and what strcpy reads back. */
module CStrings {

  const NUL: char := '\0'

  /** What stands before the first terminator. */
  function Before<T(==)>(d: seq<T>, end: T): (t: seq<T>)
    ensures |t| <= |d| && t == d[..|t|] && end !in t
    ensures |t| < |d| ==> d[|t|] == end
  {
    if d == [] || d[0] == end then [] else [d[0]] + Before(d[1..], end)
  }

  lemma {:induction false} BeforeUnique<T>(d: seq<T>, t: seq<T>, end: T)
    requires t <= d && end !in t
    requires |t| < |d| ==> d[|t|] == end
    ensures Before(d, end) == t
  {
    if t != [] {
      assert d[0] == t[0] && t[0] in t;
      BeforeUnique(d[1..], t[1..], end);
    }
  }

  /** Elements followed by a terminator read like the elements alone. */
  lemma {:induction false} BeforeOfPrefix<T>(d: seq<T>, p: seq<T>, end: T)
    requires p <= d && |p| < |d| && d[|p|] == end
    ensures Before(d, end) == Before(p, end)
  {
    if p != [] {
      BeforeOfPrefix(d[1..], p[1..], end);
    }
  }

  /** The C string at the start of a buffer: everything before the first NUL. */
  function CString(d: seq<char>): (t: string)
    ensures |t| <= |d| && t == d[..|t|] && NUL !in t
    ensures |t| < |d| ==> d[|t|] == NUL
  {
    Before(d, NUL)
  }

  /** A NUL-free prefix of the buffer is a prefix of its C string. */
  lemma CStringExtends(d: seq<char>, p: string)
    requires p <= d && NUL !in p
    ensures p <= CString(d)
  {
  }

  lemma CStringUnique(d: seq<char>, t: string)
    requires t <= d && NUL !in t
    requires |t| < |d| ==> d[|t|] == NUL
    ensures CString(d) == t
  {
    BeforeUnique(d, t, NUL);
  }

  /** strncpy(dst, s, len): len bytes are overwritten, padded with NUL after the end of s; the rest is left as it was. */
  function StrNCpy(dst: seq<char>, s: seq<char>, len: nat): (d: seq<char>)
    requires len <= |dst|
    ensures |d| == |dst| && d[len..] == dst[len..]
    ensures forall k :: 0 <= k < len ==> d[k] == if k < |CString(s)| then s[k] else NUL
  {
    seq(len, k requires 0 <= k < len => if k < |CString(s)| then s[k] else NUL) + dst[len..]
  }

  /**
   * The terminator of s is among the len bytes that are copied. s is what lies at the sender's address up to its
   * terminator; where s shows no NUL, the terminator is taken to follow it, as in a string literal.
   */
  predicate Terminated(s: seq<char>, len: nat) {
    |CString(s)| < len
  }

  /** What a reader may find after s was copied with length len into a buffer with unknown contents. */
  predicate Delivers(text: string, s: seq<char>, len: nat) {
    if Terminated(s, len) then text == CString(s) else len <= |CString(s)| && CString(s)[..len] <= text
  }

  lemma CopyDelivers(dst: seq<char>, s: seq<char>, len: nat)
    requires len <= |dst|
    ensures Delivers(CString(StrNCpy(dst, s, len)), s, len)
    ensures Terminated(s, len) ==> NUL in StrNCpy(dst, s, len)
  {
    var d, t := StrNCpy(dst, s, len), CString(s);
    if Terminated(s, len) {
      assert d[|t|] == NUL;
      assert d[..|t|] == t;
      CStringUnique(d, t);
    } else {
      assert t[..len] == d[..len];
      CStringExtends(d, t[..len]);
    }
  }

  /**
   * The payload round trip holds whatever the reused buffer held before, with the reader staying inside the
   * buffer, exactly when the terminator is among the copied bytes.
   */
  lemma RoundTripExactly(s: seq<char>, len: nat, size: nat)
    requires len <= size
    ensures (forall dst: seq<char> :: |dst| == size ==>
               NUL in StrNCpy(dst, s, len) && CString(StrNCpy(dst, s, len)) == CString(s))
            <==> Terminated(s, len)
  {
    if Terminated(s, len) {
      forall dst: seq<char> | |dst| == size
        ensures NUL in StrNCpy(dst, s, len) && CString(StrNCpy(dst, s, len)) == CString(s)
      {
        CopyDelivers(dst, s, len);
      }
    } else {
      var junk := seq(size, _ => 'x');
      var d := StrNCpy(junk, s, len);
      forall k | 0 <= k < size ensures d[k] != NUL {
        if k < len {
          assert d[k] == CString(s)[k];
        } else {
          assert d[k] == d[len..][k - len] == junk[k];
        }
      }
    }
  }

  /** A two-message instance: the second payload is read back with the first one's stale tail. */
  lemma StaleTail()
    ensures var d := StrNCpy(['\0', '\0', '\0', '\0'], "abc\0", 4);
            CString(StrNCpy(d, "x", 1)) == "xbc"
  {
    CStringUnique("abc\0", "abc");
    CStringUnique("x", "x");
    var d := StrNCpy(['\0', '\0', '\0', '\0'], "abc\0", 4);
    assert d == "abc\0";
    var e := StrNCpy(d, "x", 1);
    assert e[1..] == d[1..] == "bc\0";
    assert e == e[..1] + e[1..] == "xbc\0";
    CStringUnique(e, "xbc");
  }
}
