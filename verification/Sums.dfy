/** Weighted counts over a sequence of processes, and how one process's step changes them. */
module Sums {

  /** The sum of a weight over all the elements of a sequence. */
  ghost function Sum<T>(s: seq<T>, w: T -> int): int {
    if s == [] then 0 else w(s[0]) + Sum(s[1..], w)
  }

  /** Replacing one element changes the sum by the difference of the two weights. */
  lemma {:induction false} SumUpdate<T>(s: seq<T>, i: nat, x: T, w: T -> int)
    requires i < |s|
    ensures Sum(s[i := x], w) == Sum(s, w) - w(s[i]) + w(x)
  {
    if i == 0 {
      assert s[i := x][1..] == s[1..];
    } else {
      assert s[i := x][1..] == s[1..][i - 1 := x];
      SumUpdate(s[1..], i - 1, x, w);
    }
  }

  /** With non-negative weights no element outweighs the sum. */
  lemma {:induction false} SumAtLeast<T>(s: seq<T>, i: nat, w: T -> int)
    requires i < |s|
    requires forall x :: x in s ==> w(x) >= 0
    ensures Sum(s, w) >= w(s[i])
  {
    SumNonNegative(s[1..], w);
    if i > 0 {
      SumAtLeast(s[1..], i - 1, w);
    }
  }

  lemma {:induction false} SumNonNegative<T>(s: seq<T>, w: T -> int)
    requires forall x :: x in s ==> w(x) >= 0
    ensures Sum(s, w) >= 0
  {
    if s != [] {
      SumNonNegative(s[1..], w);
    }
  }

  /** A sum of non-negative weights is zero exactly when every weight is. */
  lemma {:induction false} SumZero<T>(s: seq<T>, w: T -> int)
    requires forall x :: x in s ==> w(x) >= 0
    ensures Sum(s, w) == 0 <==> forall i :: 0 <= i < |s| ==> w(s[i]) == 0
  {
    if s != [] {
      SumZero(s[1..], w);
      SumNonNegative(s[1..], w);
      if forall i :: 0 <= i < |s| ==> w(s[i]) == 0 {
        forall i | 0 <= i < |s[1..]| ensures w(s[1..][i]) == 0 {
          assert s[1..][i] == s[i + 1];
        }
      }
      if Sum(s, w) == 0 {
        forall i | 0 <= i < |s| ensures w(s[i]) == 0 {
          if i > 0 {
            assert s[i] == s[1..][i - 1];
          }
        }
      }
    }
  }

  /** A positive sum of non-negative weights has an element of positive weight. */
  lemma SumWitness<T>(s: seq<T>, w: T -> int) returns (i: nat)
    requires forall x :: x in s ==> w(x) >= 0
    requires Sum(s, w) > 0
    ensures i < |s| && w(s[i]) > 0
  {
    SumZero(s, w);
    i :| 0 <= i < |s| && w(s[i]) != 0;
    assert s[i] in s;
  }
}
