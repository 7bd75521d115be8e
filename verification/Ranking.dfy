/** Ranking by a measure, largest first: what sorting promises, and what a bounded insertion
    buffer keeps of it. */
module Ranking {
  import opened Sums

  ghost predicate Descending<T>(f: T -> nat, s: seq<T>) {
    forall i, j :: 0 <= i < j < |s| ==> f(s[i]) >= f(s[j])
  }

  /** The sequence of measures. */
  function Measures<T>(f: T -> nat, s: seq<T>): (m: seq<nat>)
    ensures |m| == |s| && forall i :: 0 <= i < |s| ==> m[i] == f(s[i])
  {
    seq(|s|, i requires 0 <= i < |s| => f(s[i]))
  }

  function Take<T>(k: nat, s: seq<T>): seq<T> {
    if |s| <= k then s else s[..k]
  }

  /** The first place whose measure is smaller than e's, or the end. */
  function Position<T>(f: T -> nat, s: seq<T>, e: T): (j: nat)
    ensures j <= |s|
    ensures forall i :: 0 <= i < j ==> f(e) <= f(s[i])
    ensures j < |s| ==> f(s[j]) < f(e)
  {
    if s == [] then 0
    else if f(s[0]) < f(e) then 0
    else 1 + Position(f, s[1..], e)
  }

  /** Insertion after all that are at least as large. */
  function Insert<T>(f: T -> nat, s: seq<T>, e: T): (r: seq<T>)
    ensures |r| == |s| + 1
  {
    var j := Position(f, s, e);
    s[..j] + [e] + s[j..]
  }

  /** Insertion of every element in turn. */
  function Ranked<T>(f: T -> nat, s: seq<T>): (r: seq<T>)
    ensures |r| == |s|
  {
    if s == [] then [] else Insert(f, Ranked(f, s[..|s| - 1]), s[|s| - 1])
  }

  /** The same with a buffer that keeps the first k. */
  function RankedBounded<T>(f: T -> nat, s: seq<T>, k: nat): (r: seq<T>)
    ensures |r| <= k
  {
    if s == [] then [] else Take(k, Insert(f, RankedBounded(f, s[..|s| - 1], k), s[|s| - 1]))
  }

  lemma InsertKeeps<T>(s: seq<T>, j: nat, e: T)
    requires j <= |s|
    ensures multiset(s[..j] + [e] + s[j..]) == multiset(s) + multiset{e}
  {
    assert s == s[..j] + s[j..];
  }

  lemma InsertDescending<T>(f: T -> nat, s: seq<T>, e: T)
    requires Descending(f, s)
    ensures Descending(f, Insert(f, s, e))
    ensures multiset(Insert(f, s, e)) == multiset(s) + multiset{e}
  {
    var j := Position(f, s, e);
    InsertKeeps(s, j, e);
    var r := Insert(f, s, e);
    assert forall i :: 0 <= i < |r| ==> r[i] == if i < j then s[i] else if i == j then e else s[i - 1];
  }

  lemma MultisetMore<T>(s: seq<T>, e: T)
    ensures multiset(s + [e]) == multiset(s) + multiset{e}
  {
  }

  /** The reference: descending, and the same elements. */
  lemma {:induction false} RankedSorts<T>(f: T -> nat, s: seq<T>)
    ensures Descending(f, Ranked(f, s)) && multiset(Ranked(f, s)) == multiset(s)
  {
    if s != [] {
      var front, e := s[..|s| - 1], s[|s| - 1];
      assert s == front + [e];
      RankedSorts(f, front);
      InsertDescending(f, Ranked(f, front), e);
      MultisetMore(front, e);
    }
  }

  lemma {:induction false} PositionIsFirst<T>(f: T -> nat, s: seq<T>, e: T, j: nat)
    requires j <= |s|
    requires forall i :: 0 <= i < j ==> f(e) <= f(s[i])
    requires j < |s| ==> f(s[j]) < f(e)
    ensures Position(f, s, e) == j
  {
    if s != [] && j > 0 {
      PositionIsFirst(f, s[1..], e, j - 1);
    }
  }

  lemma PositionInTake<T>(f: T -> nat, s: seq<T>, e: T, k: nat)
    requires k < |s|
    ensures Position(f, s[..k], e) == if Position(f, s, e) < k then Position(f, s, e) else k
  {
    var j := Position(f, s, e);
    PositionIsFirst(f, s[..k], e, if j < k then j else k);
  }

  /** The first k of a sequence with something put in depend on its first k only. */
  lemma TakePut<T>(s: seq<T>, j: nat, e: T, k: nat)
    requires j <= |s| && k < |s|
    ensures var i := if j < k then j else k;
      Take(k, s[..k][..i] + [e] + s[..k][i..]) == Take(k, s[..j] + [e] + s[j..])
  {
    var i := if j < k then j else k;
    var short, long := s[..k][..i] + [e] + s[..k][i..], s[..j] + [e] + s[j..];
    assert |short| == k + 1 && |long| == |s| + 1;
    forall p | 0 <= p < k
      ensures short[p] == long[p]
    {
    }
  }

  /** Dropping the tail before an insertion loses nothing that is kept after it. */
  lemma TakeInsert<T>(f: T -> nat, s: seq<T>, e: T, k: nat)
    ensures Take(k, Insert(f, Take(k, s), e)) == Take(k, Insert(f, s, e))
  {
    if |s| > k {
      PositionInTake(f, s, e, k);
      TakePut(s, Position(f, s, e), e, k);
    }
  }

  /** The bounded buffer holds exactly the head of the full ranking. */
  lemma {:induction false} BoundedIsHead<T>(f: T -> nat, s: seq<T>, k: nat)
    ensures RankedBounded(f, s, k) == Take(k, Ranked(f, s))
  {
    if s != [] {
      var n := |s| - 1;
      BoundedIsHead(f, s[..n], k);
      TakeInsert(f, Ranked(f, s[..n]), s[n], k);
    }
  }

  function Without<T>(s: seq<T>, i: nat): seq<T>
    requires i < |s|
  {
    s[..i] + s[i + 1..]
  }

  lemma WithoutOne<T>(s: seq<T>, i: nat)
    requires i < |s|
    ensures multiset(s) == multiset(Without(s, i)) + multiset{s[i]}
    ensures multiset(Without(s, i)) == multiset(s) - multiset{s[i]}
  {
    assert s == s[..i] + [s[i]] + s[i + 1..];
    var rest := multiset(Without(s, i));
    assert rest + multiset{s[i]} - multiset{s[i]} == rest;
  }

  lemma MeasureWithout<T>(f: T -> nat, s: seq<T>, i: nat)
    requires i < |s|
    ensures multiset(Measures(f, s)) == multiset(Measures(f, Without(s, i))) + multiset{f(s[i])}
  {
    assert Measures(f, Without(s, i)) == Without(Measures(f, s), i);
    WithoutOne(Measures(f, s), i);
  }

  lemma {:induction false} MeasuresOfMultiset<T>(f: T -> nat, s: seq<T>, t: seq<T>)
    requires multiset(s) == multiset(t)
    ensures multiset(Measures(f, s)) == multiset(Measures(f, t))
    decreases |s|
  {
    if s == [] {
      assert |multiset(t)| == 0;
    } else {
      assert s[0] in multiset(t);
      var i :| 0 <= i < |t| && t[i] == s[0];
      WithoutOne(s, 0);
      WithoutOne(t, i);
      MeasuresOfMultiset(f, Without(s, 0), Without(t, i));
      MeasureWithout(f, s, 0);
      MeasureWithout(f, t, i);
    }
  }

  predicate Falling(m: seq<nat>) {
    forall i, j :: 0 <= i < j < |m| ==> m[i] >= m[j]
  }

  lemma SameHead(a: seq<nat>, b: seq<nat>)
    requires Falling(a) && Falling(b) && multiset(a) == multiset(b) && a != [] && b != []
    ensures a[0] == b[0]
  {
    assert a[0] in multiset(b) && b[0] in multiset(a);
    var i :| 0 <= i < |b| && b[i] == a[0];
    var j :| 0 <= j < |a| && a[j] == b[0];
    assert b[0] >= b[i] && a[0] >= a[j];
  }

  lemma TailOf(a: seq<nat>)
    requires a != []
    ensures multiset(a[1..]) == multiset(a) - multiset{a[0]}
  {
    assert a == [a[0]] + a[1..];
    assert multiset(a) == multiset{a[0]} + multiset(a[1..]);
  }

  lemma SameSize(a: seq<nat>, b: seq<nat>)
    requires multiset(a) == multiset(b)
    ensures |a| == |b|
  {
    assert |multiset(a)| == |a| && |multiset(b)| == |b|;
  }

  /** A descending arrangement of a multiset of numbers is unique. */
  lemma {:induction false} FallingUnique(a: seq<nat>, b: seq<nat>)
    requires Falling(a) && Falling(b) && multiset(a) == multiset(b)
    ensures a == b
    decreases |a|
  {
    SameSize(a, b);
    if a != [] {
      SameHead(a, b);
      TailOf(a);
      TailOf(b);
      FallingUnique(a[1..], b[1..]);
      assert a == [a[0]] + a[1..] && b == [b[0]] + b[1..];
    }
  }

  /** Whatever a sort does with ties, its first k measures are those of the bounded buffer. */
  lemma AnySortAgrees<T>(f: T -> nat, s: seq<T>, sorted: seq<T>, k: nat)
    requires Descending(f, sorted) && multiset(sorted) == multiset(s)
    ensures Measures(f, RankedBounded(f, s, k)) == Measures(f, Take(k, sorted))
  {
    BoundedIsHead(f, s, k);
    RankedSorts(f, s);
    MeasuresOfMultiset(f, sorted, Ranked(f, s));
    FallingUnique(Measures(f, sorted), Measures(f, Ranked(f, s)));
    assert Measures(f, Take(k, sorted)) == Take(k, Measures(f, sorted));
    assert Measures(f, Take(k, Ranked(f, s))) == Take(k, Measures(f, Ranked(f, s)));
  }

  ghost predicate IsSort<T(!new)>(f: T -> nat, s: seq<T>, sorted: seq<T>) {
    Descending(f, sorted) && multiset(sorted) == multiset(s)
  }

  // ---------------------------------------------------------------- when ties matter

  lemma SumInsert<T(!new)>(f: T -> nat, a: seq<T>, x: T, b: seq<T>)
    ensures SumBy(f, a + [x] + b) == SumBy(f, a + b) + f(x)
  {
    SumConcat(f, a + [x], b);
    SumAppend(f, a, x);
    SumConcat(f, a, b);
  }

  lemma PiecesOf<T>(s: seq<T>, j: nat)
    requires j < |s|
    ensures s == s[..j] + [s[j]] + s[j + 1..]
  {
  }

  lemma SumSplit<T(!new)>(f: T -> nat, s: seq<T>, a: seq<T>, x: T, b: seq<T>)
    requires s == a + [x] + b
    ensures SumBy(f, s) == SumBy(f, a + b) + f(x)
  {
    SumInsert(f, a, x, b);
  }

  lemma SumWithout<T(!new)>(f: T -> nat, s: seq<T>, j: nat)
    requires j < |s|
    ensures SumBy(f, s) == SumBy(f, Without(s, j)) + f(s[j])
  {
    PiecesOf(s, j);
    SumSplit(f, s, s[..j], s[j], s[j + 1..]);
  }

  /** A part of some elements has no larger total. */
  lemma {:induction false} SumOfPart<T(!new)>(f: T -> nat, a: seq<T>, b: seq<T>)
    requires multiset(a) <= multiset(b)
    ensures SumBy(f, a) <= SumBy(f, b)
    decreases |a|
  {
    if a != [] {
      var n := |a| - 1;
      assert a[n] in multiset(a);
      assert a[n] in multiset(b);
      var j :| 0 <= j < |b| && b[j] == a[n];
      WithoutOne(a, n);
      WithoutOne(b, j);
      assert Without(a, n) == a[..n];
      SumOfPart(f, a[..n], Without(b, j));
      SumWithout(f, b, j);
    }
  }

  function Exceeds<T>(f: T -> nat, v: nat): T -> nat {
    (x: T) => if f(x) > v then 1 else 0
  }

  /** How many elements have a larger measure. */
  ghost function Above<T(!new)>(f: T -> nat, s: seq<T>, v: nat): nat {
    SumBy(Exceeds(f, v), s)
  }

  /** In a descending sequence those come first. */
  lemma {:induction false} AboveComeFirst<T(!new)>(f: T -> nat, s: seq<T>, v: nat)
    requires Descending(f, s)
    ensures Above(f, s, v) <= |s|
    ensures forall i :: 0 <= i < |s| ==> (f(s[i]) > v <==> i < Above(f, s, v))
  {
    if s != [] {
      var n := |s| - 1;
      AboveComeFirst(f, s[..n], v);
      assert forall i :: 0 <= i < n ==> s[..n][i] == s[i] && f(s[i]) >= f(s[n]);
    }
  }

  lemma AboveShuffled<T(!new)>(f: T -> nat, a: seq<T>, b: seq<T>, v: nat)
    requires multiset(a) == multiset(b)
    ensures Above(f, a, v) == Above(f, b, v)
  {
    SumOfPart(Exceeds(f, v), a, b);
    SumOfPart(Exceeds(f, v), b, a);
  }

  /** No two different elements are tied with fewer than k ahead of them. */
  ghost predicate Uncontested<T(!new)>(f: T -> nat, s: seq<T>, k: nat) {
    forall x, y :: x in s && y in s && f(x) == f(y) && Above(f, s, f(x)) < k ==> x == y
  }

  /** The buffer, fed the elements in any order, and every sort keep the same elements in the same
      order, if and only if no two different ones are tied for a place among the first k. */
  lemma SameElementsIff<T(!new)>(f: T -> nat, s: seq<T>, k: nat)
    ensures Uncontested(f, s, k) <==>
      forall t, sorted :: multiset(t) == multiset(s) && IsSort(f, s, sorted) ==>
        RankedBounded(f, t, k) == Take(k, sorted)
  {
    if Uncontested(f, s, k) {
      forall t, sorted | multiset(t) == multiset(s) && IsSort(f, s, sorted)
        ensures RankedBounded(f, t, k) == Take(k, sorted)
      {
        UncontestedAgrees(f, s, t, sorted, k);
      }
    } else {
      var x, y :| x in s && y in s && f(x) == f(y) && Above(f, s, f(x)) < k && x != y;
      var sorted := Rival(f, s, k, x, y);
      assert multiset(s) == multiset(s) && IsSort(f, s, sorted);
    }
  }

  lemma UncontestedAgrees<T(!new)>(f: T -> nat, s: seq<T>, t: seq<T>, sorted: seq<T>, k: nat)
    requires Uncontested(f, s, k) && multiset(t) == multiset(s) && IsSort(f, s, sorted)
    ensures RankedBounded(f, t, k) == Take(k, sorted)
  {
    AnySortAgrees(f, t, sorted, k);
    BoundedIsHead(f, t, k);
    RankedSorts(f, t);
    var a, b := RankedBounded(f, t, k), Take(k, sorted);
    assert |Measures(f, a)| == |a| && |Measures(f, b)| == |b|;
    forall p | 0 <= p < |a|
      ensures a[p] == b[p]
    {
      assert Measures(f, a)[p] == f(a[p]) && Measures(f, b)[p] == f(b[p]);
      assert sorted[p] in multiset(s) && Ranked(f, t)[p] in multiset(t);
      AboveComeFirst(f, sorted, f(b[p]));
      AboveShuffled(f, sorted, s, f(b[p]));
    }
  }

  /** If two elements are tied for a place among the first k, some sort disagrees with the buffer
      about who gets it. */
  lemma Rival<T(!new)>(f: T -> nat, s: seq<T>, k: nat, x: T, y: T) returns (sorted: seq<T>)
    requires x in s && y in s && f(x) == f(y) && Above(f, s, f(x)) < k && x != y
    ensures IsSort(f, s, sorted) && Take(k, sorted) != RankedBounded(f, s, k)
  {
    BoundedIsHead(f, s, k);
    RankedSorts(f, s);
    var r := Ranked(f, s);
    AboveComeFirst(f, r, f(x));
    AboveShuffled(f, r, s, f(x));
    var p := Above(f, r, f(x));
    assert x in multiset(r) && y in multiset(r);
    var i :| 0 <= i < |r| && r[i] == x;
    var j :| 0 <= j < |r| && r[j] == y;
    assert p <= i && p <= j && f(r[p]) == f(x);
    var q := if r[p] == x then j else i;
    sorted := Swapped(f, r, p, q);
    assert Take(k, sorted)[p] == r[q] != r[p] == Take(k, r)[p];
  }

  /** Tied elements can change places. */
  lemma Swapped<T(!new)>(f: T -> nat, s: seq<T>, p: nat, q: nat) returns (r: seq<T>)
    requires p < |s| && q < |s| && f(s[p]) == f(s[q]) && Descending(f, s)
    ensures |r| == |s| && r[p] == s[q]
    ensures Descending(f, r) && multiset(r) == multiset(s)
  {
    r := s[p := s[q]][q := s[p]];
    assert forall i :: 0 <= i < |s| ==> f(r[i]) == f(s[i]);
  }

  /** One element put in its place. */
  method InsertSorted<T>(f: T -> nat, s: seq<T>, e: T) returns (r: seq<T>)
    ensures r == Insert(f, s, e)
  {
    var j := 0;
    while j < |s| && f(e) <= f(s[j])
      invariant j <= |s|
      invariant forall i :: 0 <= i < j ==> f(e) <= f(s[i])
    {
      j := j + 1;
    }
    PositionIsFirst(f, s, e, j);
    r := s[..j] + [e] + s[j..];
  }

  /** Sorting in place of a library sort: insertion, one element after the other. */
  method Sort<T>(f: T -> nat, s: seq<T>) returns (sorted: seq<T>)
    ensures sorted == Ranked(f, s)
    ensures Descending(f, sorted) && multiset(sorted) == multiset(s)
  {
    sorted := [];
    for n := 0 to |s|
      invariant sorted == Ranked(f, s[..n])
    {
      assert s[..n + 1][..n] == s[..n];
      sorted := InsertSorted(f, sorted, s[n]);
    }
    assert s[..|s|] == s;
    RankedSorts(f, s);
  }
}
