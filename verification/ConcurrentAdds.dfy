/** Additions to a sketch from many goroutines at once: each row's cell is bumped by an atomic
    operation of its own, and the operations interleave in any way. */
module ConcurrentAdds {
  import opened Words
  import opened Codec
  import opened Sketches
  import opened Sums
  import opened Ranking

  /** One atomic addition: what one Add does to one row. */
  datatype Touch = Touch(row: nat, c: Count)

  predicate AllWithin(touches: seq<Touch>, s: Shape) {
    forall i :: 0 <= i < |touches| ==> touches[i].row < |s.seeds|
  }

  /** The table after a sequence of atomic additions, from an empty one. */
  ghost function Play(s: Shape, touches: seq<Touch>): (rows: seq<Row>)
    requires Usable(s) && AllWithin(touches, s)
    ensures Fits(rows, s)
  {
    if touches == [] then SketchOf(s, [])
    else
      var before, t := Play(s, touches[..|touches| - 1]), touches[|touches| - 1];
      before[t.row := Bump(before[t.row], Column(s, t.row, t.c.key), t.c.amount)]
  }

  /** The additions that have reached row i, in the order in which they did. */
  function Reached(touches: seq<Touch>, i: nat): seq<Count> {
    if touches == [] then []
    else
      var t := touches[|touches| - 1];
      Reached(touches[..|touches| - 1], i) + if t.row == i then [t.c] else []
  }

  /** At any moment each row is the row of a sketch of what has reached it. */
  lemma {:induction false} RowsAreExact(s: Shape, touches: seq<Touch>, i: nat)
    requires Usable(s) && AllWithin(touches, s) && i < |s.seeds|
    ensures Play(s, touches)[i] == RowOf(s, i, Reached(touches, i))
  {
    if touches != [] {
      var n := |touches| - 1;
      var front, t := touches[..n], touches[n];
      RowsAreExact(s, front, i);
      if t.row == i {
        BumpExtends(s, i, Reached(front, i), t.c);
      } else {
        assert Reached(touches, i) == Reached(front, i);
      }
    }
  }

  lemma RowOfShuffled(s: Shape, i: nat, a: seq<Count>, b: seq<Count>)
    requires Usable(s) && i < |s.seeds| && multiset(a) == multiset(b)
    ensures RowOf(s, i, a) == RowOf(s, i, b)
  {
    forall j | 0 <= j < s.width
      ensures RowOf(s, i, a)[j] == RowOf(s, i, b)[j]
    {
      SumOfPart(HitAt(s, i, j), a, b);
      SumOfPart(HitAt(s, i, j), b, a);
    }
  }

  /** When all additions have reached every row, the table is the sketch of them, in whatever order
      their parts were done and with overflow or without. */
  lemma InterleavingIsExact(s: Shape, touches: seq<Touch>, adds: seq<Count>)
    requires Usable(s) && AllWithin(touches, s)
    requires forall i :: 0 <= i < |s.seeds| ==> multiset(Reached(touches, i)) == multiset(adds)
    ensures Play(s, touches) == SketchOf(s, adds)
  {
    forall i | 0 <= i < |s.seeds|
      ensures Play(s, touches)[i] == SketchOf(s, adds)[i]
    {
      RowsAreExact(s, touches, i);
      RowOfShuffled(s, i, Reached(touches, i), adds);
    }
  }

  /** In the middle of an interleaving, a query never underestimates what was completely added
      by then, nor exceeds what any one row has seen. */
  lemma QueryMeanwhile(s: Shape, touches: seq<Touch>, done: seq<Count>, key: string, r: nat)
    requires Usable(s) && AllWithin(touches, s) && r < |s.seeds|
    requires forall i :: 0 <= i < |s.seeds| ==>
      multiset(done) <= multiset(Reached(touches, i)) && Total(Reached(touches, i)) < TWO_64
    ensures TrueCount(key, done) <= Query(Play(s, touches), s, key) <= Total(Reached(touches, r))
  {
    var rows := Play(s, touches);
    var at := EstimateIsMinimum(rows, s, key, |rows|);
    CellMeanwhile(s, touches, done, key, at);
    CellMeanwhile(s, touches, done, key, r);
    assert Query(rows, s, key) <= rows[r][Column(s, r, key)];
  }

  lemma CellMeanwhile(s: Shape, touches: seq<Touch>, done: seq<Count>, key: string, i: nat)
    requires Usable(s) && AllWithin(touches, s) && i < |s.seeds|
    requires multiset(done) <= multiset(Reached(touches, i)) && Total(Reached(touches, i)) < TWO_64
    ensures TrueCount(key, done) <= Play(s, touches)[i][Column(s, i, key)] <= Total(Reached(touches, i))
  {
    RowsAreExact(s, touches, i);
    CellBounds(s, i, key, done, Reached(touches, i));
  }

  lemma CellBounds(s: Shape, i: nat, key: string, done: seq<Count>, reached: seq<Count>)
    requires i < |s.seeds| && s.width > 0 && multiset(done) <= multiset(reached) && Total(reached) < TWO_64
    ensures TrueCount(key, done) <= RowOf(s, i, reached)[Column(s, i, key)] <= Total(reached)
  {
    HitsAtMostTotal(s, i, Column(s, i, key), reached);
    HitsBetween(s, i, key, reached);
    SumOfPart(Only(key), done, reached);
  }
}
