/** Sums of a measure over a sequence: the ledger arithmetic of the whole project. */
module Sums {

  /** The total of measure f over s. */
  ghost function SumBy<T(!new)>(f: T -> nat, s: seq<T>): nat
  {
    if s == [] then 0 else SumBy(f, s[..|s| - 1]) + f(s[|s| - 1])
  }

  lemma SumAppend<T(!new)>(f: T -> nat, s: seq<T>, x: T)
    ensures SumBy(f, s + [x]) == SumBy(f, s) + f(x)
  {
    assert (s + [x])[..|s|] == s;
  }

  lemma {:induction false} SumConcat<T(!new)>(f: T -> nat, s: seq<T>, t: seq<T>)
    ensures SumBy(f, s + t) == SumBy(f, s) + SumBy(f, t)
  {
    if t == [] {
      assert s + t == s;
    } else {
      var u := t[..|t| - 1];
      assert s + t == (s + u) + [t[|t| - 1]];
      SumAppend(f, s + u, t[|t| - 1]);
      SumConcat(f, s, u);
    }
  }

  lemma {:induction false} SumUpdate<T(!new)>(f: T -> nat, s: seq<T>, i: nat, x: T)
    requires i < |s|
    ensures SumBy(f, s[i := x]) == SumBy(f, s) - f(s[i]) + f(x)
  {
    var n := |s| - 1;
    if i == n {
      assert s[i := x][..n] == s[..n];
    } else {
      assert s[i := x][..n] == s[..n][i := x];
      SumUpdate(f, s[..n], i, x);
    }
  }

  lemma {:induction false} SumAtLeast<T(!new)>(f: T -> nat, s: seq<T>, i: nat)
    requires i < |s|
    ensures f(s[i]) <= SumBy(f, s)
  {
    if i < |s| - 1 {
      SumAtLeast(f, s[..|s| - 1], i);
    }
  }

  lemma {:induction false} SumAtMost<T(!new)>(f: T -> nat, s: seq<T>, bound: nat)
    requires forall x :: x in s ==> f(x) <= bound
    ensures SumBy(f, s) <= |s| * bound
  {
    if s != [] {
      SumAtMost(f, s[..|s| - 1], bound);
      assert |s| * bound == (|s| - 1) * bound + bound;
    }
  }

  /** A measure that is nowhere larger has no larger total. */
  lemma {:induction false} SumMonotone<T(!new)>(f: T -> nat, g: T -> nat, s: seq<T>)
    requires forall x :: x in s ==> f(x) <= g(x)
    ensures SumBy(f, s) <= SumBy(g, s)
  {
    if s != [] {
      SumMonotone(f, g, s[..|s| - 1]);
    }
  }

  /** A positive total has a positive part. */
  lemma {:induction false} SumPositive<T(!new)>(f: T -> nat, s: seq<T>) returns (i: nat)
    requires SumBy(f, s) > 0
    ensures i < |s| && f(s[i]) > 0
  {
    var n := |s| - 1;
    if f(s[n]) > 0 {
      return n;
    }
    i := SumPositive(f, s[..n]);
  }
}
