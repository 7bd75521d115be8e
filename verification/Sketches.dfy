/** Count-min sketches as values: what the cells mean, what a query is worth, and what merging
    does (cms.go, merge.go). */
module Sketches {
  import opened Words
  import opened Codec
  import opened Sums

  const GOLDEN: U64 := 0x9e37_79b9_7f4a_7c15

  function SeedAt(base: U64, i: nat): U64 {
    Wrap(base + i * GOLDEN)
  }

  function SeedsFrom(base: U64, depth: nat): (seeds: seq<U64>)
    ensures |seeds| == depth
  {
    seq(depth, i requires 0 <= i < depth => SeedAt(base, i))
  }

  /** The seeds of the first four rows above base seed 42. */
  lemma SeedsExample()
    ensures SeedsFrom(42, 4) == [0x2a, 0x9e37_79b9_7f4a_7c3f, 0x3c6e_f372_fe94_f854, 0xdaa6_6d2c_7ddf_7469]
  {
    assert SeedAt(42, 1) == 0x9e37_79b9_7f4a_7c3f && SeedAt(42, 2) == 0x3c6e_f372_fe94_f854;
    assert SeedAt(42, 3) == 0xdaa6_6d2c_7ddf_7469;
  }

  /** Each row's seed is the one before plus the golden ratio, wrapped. */
  lemma NextSeed(base: U64, i: nat)
    ensures SeedAt(base, 0) == base && SeedAt(base, i + 1) == Wrap(SeedAt(base, i) + GOLDEN)
  {
    var a := base + i * GOLDEN;
    assert base + (i + 1) * GOLDEN == a + GOLDEN;
    WrapSum(a, GOLDEN);
  }

  /** Where keys go: the number of columns, a seed for each row, and the hash. */
  datatype Shape = Shape(width: nat, seeds: seq<U64>, hash: (string, U64) -> U64)

  predicate Usable(s: Shape) {
    s.seeds != [] ==> s.width > 0
  }

  function Column(s: Shape, i: nat, key: string): (j: nat)
    requires i < |s.seeds| && s.width > 0
    ensures j < s.width
  {
    s.hash(key, s.seeds[i]) % s.width
  }

  predicate Fits(rows: seq<Row>, s: Shape) {
    |rows| == |s.seeds| && Rect(rows, s.width)
  }

  function Bump(row: Row, j: nat, n: U64): Row
    requires j < |row|
  {
    row[j := Wrap(row[j] + n)]
  }

  function SetCell(rows: seq<Row>, i: nat, j: nat, v: U64): (r: seq<Row>)
    requires i < |rows| && j < |rows[i]|
  {
    var row: Row := rows[i][j := v];
    rows[i := row]
  }

  /** One addition: one cell of every row, in wrapping arithmetic. */
  function Added(rows: seq<Row>, s: Shape, key: string, n: U64): (r: seq<Row>)
    requires Fits(rows, s) && Usable(s)
    ensures Fits(r, s)
  {
    seq(|rows|, i requires 0 <= i < |rows| => Bump(rows[i], Column(s, i, key), n))
  }

  /** The smallest of a key's cells in the first n rows; all ones if there is none. */
  function Estimate(rows: seq<Row>, s: Shape, key: string, n: nat): U64
    requires Fits(rows, s) && Usable(s) && n <= |rows|
  {
    if n == 0 then TWO_64 - 1
    else
      var v := rows[n - 1][Column(s, n - 1, key)];
      var m := Estimate(rows, s, key, n - 1);
      if v < m then v else m
  }

  function Query(rows: seq<Row>, s: Shape, key: string): U64
    requires Fits(rows, s) && Usable(s)
  {
    Estimate(rows, s, key, |rows|)
  }

  /** A query is below every cell of the key, and, if there is a row, it is one of them. */
  lemma {:induction false} EstimateIsMinimum(rows: seq<Row>, s: Shape, key: string, n: nat) returns (at: nat)
    requires Fits(rows, s) && Usable(s) && n <= |rows|
    ensures forall i :: 0 <= i < n ==> Estimate(rows, s, key, n) <= rows[i][Column(s, i, key)]
    ensures n > 0 ==> at < n && Estimate(rows, s, key, n) == rows[at][Column(s, at, key)]
  {
    at := 0;
    if n > 0 {
      at := EstimateIsMinimum(rows, s, key, n - 1);
      if n == 1 || rows[n - 1][Column(s, n - 1, key)] < Estimate(rows, s, key, n - 1) {
        at := n - 1;
      }
    }
  }

  // ---------------------------------------------------------------- exact contents

  datatype Count = Count(key: string, amount: U64)

  function HitAt(s: Shape, i: nat, j: nat): Count -> nat
    requires i < |s.seeds| && s.width > 0
  {
    (c: Count) => if Column(s, i, c.key) == j then c.amount else 0
  }

  /** Everything added to keys that row i sends to column j. */
  ghost function Hits(s: Shape, i: nat, j: nat, adds: seq<Count>): nat
    requires i < |s.seeds| && s.width > 0
  {
    SumBy(HitAt(s, i, j), adds)
  }

  ghost function RowOf(s: Shape, i: nat, adds: seq<Count>): (row: Row)
    requires i < |s.seeds|
    ensures |row| == s.width
  {
    seq(s.width, j requires 0 <= j < s.width => Wrap(Hits(s, i, j, adds)))
  }

  /** The sketch of a sequence of additions. */
  ghost function SketchOf(s: Shape, adds: seq<Count>): (rows: seq<Row>)
    ensures Fits(rows, s)
  {
    seq(|s.seeds|, i requires 0 <= i < |s.seeds| => RowOf(s, i, adds))
  }

  lemma NothingAdded(s: Shape)
    ensures SketchOf(s, []) == seq(|s.seeds|, i => seq(s.width, j => 0))
  {
    forall i | 0 <= i < |s.seeds|
      ensures SketchOf(s, [])[i] == seq(s.width, j => 0)
    {
    }
  }

  /** Additions keep the sketch exact: each one is the sketch of the longer sequence. */
  lemma AddExtends(s: Shape, adds: seq<Count>, c: Count)
    requires Usable(s)
    ensures Added(SketchOf(s, adds), s, c.key, c.amount) == SketchOf(s, adds + [c])
  {
    forall i | 0 <= i < |s.seeds|
      ensures Added(SketchOf(s, adds), s, c.key, c.amount)[i] == SketchOf(s, adds + [c])[i]
    {
      BumpExtends(s, i, adds, c);
    }
  }

  lemma BumpExtends(s: Shape, i: nat, adds: seq<Count>, c: Count)
    requires i < |s.seeds| && s.width > 0
    ensures Bump(RowOf(s, i, adds), Column(s, i, c.key), c.amount) == RowOf(s, i, adds + [c])
  {
    forall j | 0 <= j < s.width
      ensures Bump(RowOf(s, i, adds), Column(s, i, c.key), c.amount)[j] == RowOf(s, i, adds + [c])[j]
    {
      SumAppend(HitAt(s, i, j), adds, c);
      WrapSum(Hits(s, i, j, adds), c.amount);
    }
  }

  function Amount(): Count -> nat {
    (c: Count) => c.amount
  }

  function Only(key: string): Count -> nat {
    (c: Count) => if c.key == key then c.amount else 0
  }

  /** Everything added, and everything added to one key. */
  ghost function Total(adds: seq<Count>): nat {
    SumBy(Amount(), adds)
  }

  ghost function TrueCount(key: string, adds: seq<Count>): nat {
    SumBy(Only(key), adds)
  }

  lemma HitsBetween(s: Shape, i: nat, key: string, adds: seq<Count>)
    requires i < |s.seeds| && s.width > 0
    ensures TrueCount(key, adds) <= Hits(s, i, Column(s, i, key), adds)
  {
    SumMonotone(Only(key), HitAt(s, i, Column(s, i, key)), adds);
  }

  lemma HitsAtMostTotal(s: Shape, i: nat, j: nat, adds: seq<Count>)
    requires i < |s.seeds| && s.width > 0
    ensures Hits(s, i, j, adds) <= Total(adds)
  {
    SumMonotone(HitAt(s, i, j), Amount(), adds);
  }

  /** Without overflow a cell is exactly what was added to the keys that go there, and a query
      never underestimates and never exceeds the total; it is exact if and only if in some row no
      other key was added to the same cell. */
  lemma QueryBounds(s: Shape, adds: seq<Count>, key: string)
    requires Usable(s) && s.seeds != [] && Total(adds) < TWO_64
    ensures forall i, j :: 0 <= i < |s.seeds| && 0 <= j < s.width ==> SketchOf(s, adds)[i][j] == Hits(s, i, j, adds)
    ensures TrueCount(key, adds) <= Query(SketchOf(s, adds), s, key) <= Total(adds)
    ensures Query(SketchOf(s, adds), s, key) == TrueCount(key, adds) <==>
      exists i :: 0 <= i < |s.seeds| && Hits(s, i, Column(s, i, key), adds) == TrueCount(key, adds)
  {
    var rows := SketchOf(s, adds);
    forall i, j | 0 <= i < |s.seeds| && 0 <= j < s.width
      ensures rows[i][j] == Hits(s, i, j, adds)
    {
      HitsAtMostTotal(s, i, j, adds);
    }
    var at := EstimateIsMinimum(rows, s, key, |rows|);
    HitsBetween(s, at, key, adds);
    HitsAtMostTotal(s, at, Column(s, at, key), adds);
    assert Query(rows, s, key) == Hits(s, at, Column(s, at, key), adds);
    forall i | 0 <= i < |s.seeds|
      ensures Query(rows, s, key) <= Hits(s, i, Column(s, i, key), adds)
    {
      assert rows[i][Column(s, i, key)] == Hits(s, i, Column(s, i, key), adds);
    }
  }

  // ---------------------------------------------------------------- row totals

  function Cell(): nat -> nat {
    (v: nat) => v
  }

  ghost function HitRow(s: Shape, i: nat, adds: seq<Count>): (row: seq<nat>)
    requires i < |s.seeds| && s.width > 0
    ensures |row| == s.width
  {
    seq(s.width, j requires 0 <= j < s.width => Hits(s, i, j, adds))
  }

  lemma {:induction false} ZeroRow(row: seq<nat>)
    requires forall j :: 0 <= j < |row| ==> row[j] == 0
    ensures SumBy<nat>(Cell(), row) == 0
  {
    if row != [] {
      ZeroRow(row[..|row| - 1]);
    }
  }

  /** One addition changes one cell of a row. */
  lemma HitRowMore(s: Shape, i: nat, adds: seq<Count>)
    requires i < |s.seeds| && s.width > 0 && adds != []
    ensures var n := |adds| - 1;
      var before, j := HitRow(s, i, adds[..n]), Column(s, i, adds[n].key);
      HitRow(s, i, adds) == before[j := before[j] + adds[n].amount]
  {
  }

  /** Each row's hits add up to the total: every addition is counted once in every row. */
  lemma {:induction false} RowTotal(s: Shape, i: nat, adds: seq<Count>)
    requires i < |s.seeds| && s.width > 0
    ensures SumBy<nat>(Cell(), HitRow(s, i, adds)) == Total(adds)
  {
    if adds == [] {
      ZeroRow(HitRow(s, i, adds));
    } else {
      var n := |adds| - 1;
      var front, c := adds[..n], adds[n];
      var before, j := HitRow(s, i, front), Column(s, i, c.key);
      RowTotal(s, i, front);
      HitRowMore(s, i, adds);
      SumUpdate<nat>(Cell(), before, j, before[j] + c.amount);
    }
  }

  /** So do the cells of the sketch, as long as nothing overflows. */
  lemma RowConservation(s: Shape, i: nat, adds: seq<Count>)
    requires Usable(s) && i < |s.seeds| && Total(adds) < TWO_64
    ensures SumBy<nat>(Cell(), SketchOf(s, adds)[i]) == Total(adds)
  {
    forall j | 0 <= j < s.width
      ensures SketchOf(s, adds)[i][j] == Hits(s, i, j, adds)
    {
      HitsAtMostTotal(s, i, j, adds);
    }
    RowTotal(s, i, adds);
    assert SketchOf(s, adds)[i] == HitRow(s, i, adds);
  }

  // ---------------------------------------------------------------- merging

  datatype Strategy = MergeMax | MergeMin | MergeSum | MergeReplace

  function MergeCell(how: Strategy, dst: U64, src: U64): U64 {
    match how
    case MergeMax => if src > dst then src else dst
    case MergeMin => if src < dst then src else dst
    case MergeSum => Wrap(dst + src)
    case MergeReplace => src
  }

  function MergeRow(how: Strategy, dst: Row, src: Row): (r: Row)
    requires |dst| == |src|
    ensures |r| == |dst|
  {
    seq(|dst|, j requires 0 <= j < |dst| => MergeCell(how, dst[j], src[j]))
  }

  function Merged(how: Strategy, dst: seq<Row>, src: seq<Row>, s: Shape): (r: seq<Row>)
    requires Fits(dst, s) && Fits(src, s)
    ensures Fits(r, s)
  {
    seq(|dst|, i requires 0 <= i < |dst| => MergeRow(how, dst[i], src[i]))
  }

  /** The sum of two sketches is the sketch of all additions together, with overflow or without. */
  lemma MergeSumConcatenates(s: Shape, a: seq<Count>, b: seq<Count>)
    requires Usable(s)
    ensures Merged(MergeSum, SketchOf(s, a), SketchOf(s, b), s) == SketchOf(s, a + b)
  {
    var m := Merged(MergeSum, SketchOf(s, a), SketchOf(s, b), s);
    forall i | 0 <= i < |s.seeds|
      ensures m[i] == SketchOf(s, a + b)[i]
    {
      forall j | 0 <= j < s.width
        ensures m[i][j] == RowOf(s, i, a + b)[j]
      {
        var x, y := Hits(s, i, j, a), Hits(s, i, j, b);
        SumConcat(HitAt(s, i, j), a, b);
        WrapSum(x, Wrap(y));
        WrapSum(y, x);
      }
    }
  }

  /** The smaller of two sketches answers with the smaller answer. */
  lemma {:induction false} MergeMinQuery(s: Shape, a: seq<Row>, b: seq<Row>, key: string, n: nat)
    requires Usable(s) && Fits(a, s) && Fits(b, s) && n <= |a|
    ensures var x, y := Estimate(a, s, key, n), Estimate(b, s, key, n);
      Estimate(Merged(MergeMin, a, b, s), s, key, n) == if y < x then y else x
  {
    if n > 0 {
      MergeMinQuery(s, a, b, key, n - 1);
      var j := Column(s, n - 1, key);
      assert Merged(MergeMin, a, b, s)[n - 1][j] == MergeCell(MergeMin, a[n - 1][j], b[n - 1][j]);
    }
  }

  /** The larger of two sketches answers with no less than the larger answer. */
  lemma {:induction false} MergeMaxQuery(s: Shape, a: seq<Row>, b: seq<Row>, key: string, n: nat)
    requires Usable(s) && Fits(a, s) && Fits(b, s) && n <= |a|
    ensures Estimate(Merged(MergeMax, a, b, s), s, key, n) >= Estimate(a, s, key, n)
    ensures Estimate(Merged(MergeMax, a, b, s), s, key, n) >= Estimate(b, s, key, n)
  {
    if n > 0 {
      MergeMaxQuery(s, a, b, key, n - 1);
      var j := Column(s, n - 1, key);
      assert Merged(MergeMax, a, b, s)[n - 1][j] == MergeCell(MergeMax, a[n - 1][j], b[n - 1][j]);
    }
  }

  /** Merged by maximum, the sketches of two runs still underestimate neither run, and answer
      with no more than the larger total. */
  lemma MergeMaxBounds(s: Shape, a: seq<Count>, b: seq<Count>, key: string)
    requires Usable(s) && s.seeds != [] && Total(a) < TWO_64 && Total(b) < TWO_64
    ensures var q := Query(Merged(MergeMax, SketchOf(s, a), SketchOf(s, b), s), s, key);
      && TrueCount(key, a) <= q && TrueCount(key, b) <= q
      && q <= if Total(a) > Total(b) then Total(a) else Total(b)
  {
    var x, y := SketchOf(s, a), SketchOf(s, b);
    var m := Merged(MergeMax, x, y, s);
    MergeMaxQuery(s, x, y, key, |x|);
    QueryBounds(s, a, key);
    QueryBounds(s, b, key);
    var at := EstimateIsMinimum(m, s, key, |m|);
    var j := Column(s, at, key);
    assert m[at][j] == MergeCell(MergeMax, x[at][j], y[at][j]);
    HitsAtMostTotal(s, at, j, a);
    HitsAtMostTotal(s, at, j, b);
  }

  lemma MergeReplaceIsSource(s: Shape, a: seq<Row>, b: seq<Row>)
    requires Fits(a, s) && Fits(b, s)
    ensures Merged(MergeReplace, a, b, s) == b
  {
    forall i | 0 <= i < |a|
      ensures Merged(MergeReplace, a, b, s)[i] == b[i]
    {
    }
  }
}
