/** The count-min sketch object (cms.go) and merging one into another (merge.go). */
module CountMin {
  import opened Words
  import opened Varint
  import opened Codec
  import opened Sketches
  import Compressor

  class CountMinSketch {
    const width: U32
    const depth: U32
    const baseSeed: U64
    const seeds: seq<U64>
    const hash: (string, U64) -> U64
    const table: array2<U64>
    /** The table's contents, row by row. */
    ghost var rows: seq<Row>

    function Shape(): Shape {
      Sketches.Shape(width, seeds, hash)
    }

    ghost predicate Valid()
      reads this, table
    {
      && seeds == SeedsFrom(baseSeed, depth)
      && table.Length0 == depth && table.Length1 == width
      && Fits(rows, Shape())
      && forall i, j :: 0 <= i < depth && 0 <= j < width ==> table[i, j] == rows[i][j]
    }

    constructor (width: U32, depth: U32, seed: U64, hash: (string, U64) -> U64)
      ensures Valid() && fresh(table)
      ensures this.width == width && this.depth == depth && this.baseSeed == seed && this.hash == hash
      ensures rows == SketchOf(Shape(), [])
    {
      this.width, this.depth, this.baseSeed, this.hash := width, depth, seed, hash;
      var derived: seq<U64> := [];
      for i := 0 to depth
        invariant |derived| == i && forall k :: 0 <= k < i ==> derived[k] == SeedAt(seed, k)
      {
        WrapSum(i * GOLDEN, seed);
        derived := derived + [Wrap(Wrap(i * GOLDEN) + seed)];
      }
      seeds := derived;
      table := new U64[depth, width]((_, _) => 0);
      rows := seq(depth, i => seq(width, j => 0));
      new;
      NothingAdded(Shape());
    }

    /** One cell of every row grows by the count, in wrapping arithmetic. */
    method Add(key: string, count: U64)
      requires Valid() && Usable(Shape())
      modifies this`rows, table
      ensures Valid() && rows == Added(old(rows), Shape(), key, count)
      ensures forall adds :: old(rows) == SketchOf(Shape(), adds) ==>
        rows == SketchOf(Shape(), adds + [Count(key, count)])
    {
      forall adds | rows == SketchOf(Shape(), adds)
        ensures Added(rows, Shape(), key, count) == SketchOf(Shape(), adds + [Count(key, count)])
      {
        AddExtends(Shape(), adds, Count(key, count));
      }
      ghost var target := Added(rows, Shape(), key, count);
      for i := 0 to depth
        invariant Valid()
        invariant forall k :: 0 <= k < i ==> rows[k] == target[k]
        invariant forall k :: i <= k < depth ==> rows[k] == old(rows)[k]
      {
        var idx := Column(Shape(), i, key);
        table[i, idx] := Wrap(table[i, idx] + count);
        rows := rows[i := Bump(rows[i], idx, count)];
      }
    }

    /** The smallest of the key's cells. */
    method Query(key: string) returns (min: U64)
      requires Valid() && Usable(Shape())
      ensures min == Sketches.Query(rows, Shape(), key)
    {
      min := TWO_64 - 1;
      for i := 0 to depth
        invariant min == Estimate(rows, Shape(), key, i)
      {
        var idx := Column(Shape(), i, key);
        var v := table[i, idx];
        if v < min {
          min := v;
        }
      }
    }

    method Reset()
      requires Valid()
      modifies this`rows, table
      ensures Valid() && rows == SketchOf(Shape(), [])
    {
      for i := 0 to depth
        invariant Valid()
        invariant forall k :: 0 <= k < i ==> rows[k] == seq(width, j => 0)
      {
        for j := 0 to width
          invariant Valid()
          invariant forall k :: 0 <= k < i ==> rows[k] == seq(width, c => 0)
          invariant forall c :: 0 <= c < j ==> rows[i][c] == 0
        {
          table[i, j] := 0;
          rows := SetCell(rows, i, j, 0);
        }
        assert rows[i] == seq(width, j => 0);
      }
      assert rows == seq(depth, i => seq(width, j => 0));
      NothingAdded(Shape());
    }

    /** A sketch of its own with the same contents. */
    method Clone() returns (clone: CountMinSketch)
      requires Valid()
      ensures fresh(clone) && fresh(clone.table) && clone.Valid()
      ensures clone.Shape() == Shape() && clone.baseSeed == baseSeed && clone.depth == depth
      ensures clone.rows == rows
    {
      clone := new CountMinSketch(width, depth, baseSeed, hash);
      for i := 0 to depth
        invariant clone.Valid()
        invariant forall k :: 0 <= k < i ==> clone.rows[k] == rows[k]
      {
        clone.CopyRow(i, this);
      }
      assert clone.rows == rows;
    }

    method CopyRow(i: nat, from: CountMinSketch)
      requires Valid() && from.Valid() && from != this && from.table != table
      requires i < depth == from.depth && width == from.width
      modifies this`rows, table
      ensures Valid() && rows == old(rows)[i := from.rows[i]]
    {
      for j := 0 to width
        invariant Valid()
        invariant forall k :: 0 <= k < depth && k != i ==> rows[k] == old(rows)[k]
        invariant forall c :: 0 <= c < j ==> rows[i][c] == from.rows[i][c]
      {
        var v: U64 := from.table[i, j];
        table[i, j] := v;
        rows := SetCell(rows, i, j, v);
      }
      assert rows[i] == from.rows[i];
    }

    /** Merges another sketch, possibly itself, into this one, cell by cell. Different dimensions
        are refused, and then nothing is changed. */
    method Merge(other: CountMinSketch, how: Strategy) returns (ok: bool)
      requires Valid() && other.Valid() && (other != this ==> other.table != table)
      modifies this`rows, table
      ensures Valid() && other.Valid()
      ensures ok <==> width == other.width && depth == other.depth
      ensures ok ==> rows == Merged(how, old(rows), old(other.rows), Shape())
      ensures !ok ==> rows == old(rows)
    {
      if width != other.width || depth != other.depth {
        return false;
      }
      ghost var target := Merged(how, rows, other.rows, Shape());
      for i := 0 to depth
        invariant Valid() && other.Valid()
        invariant forall k :: 0 <= k < i ==> rows[k] == target[k]
        invariant forall k :: i <= k < depth ==> rows[k] == old(rows)[k] && other.rows[k] == old(other.rows)[k]
      {
        MergeOneRow(other, how, i);
        assert rows[i] == target[i];
      }
      assert rows == target;
      return true;
    }

    method MergeOneRow(other: CountMinSketch, how: Strategy, i: nat)
      requires Valid() && other.Valid() && (other != this ==> other.table != table)
      requires i < depth == other.depth && width == other.width
      modifies this`rows, table
      ensures Valid() && other.Valid()
      ensures rows == old(rows)[i := MergeRow(how, old(rows)[i], old(other.rows)[i])]
    {
      ghost var row := MergeRow(how, rows[i], other.rows[i]);
      for j := 0 to width
        invariant Valid() && other.Valid()
        invariant forall k :: 0 <= k < depth && k != i ==> rows[k] == old(rows)[k]
        invariant forall c :: 0 <= c < j ==> rows[i][c] == row[c]
        invariant forall c :: j <= c < width ==>
          rows[i][c] == old(rows)[i][c] && other.rows[i][c] == old(other.rows)[i][c]
      {
        var v: U64 := table[i, j];
        match how {
          case MergeMax =>
            if other.table[i, j] > table[i, j] {
              v := other.table[i, j];
            }
          case MergeMin =>
            if other.table[i, j] < table[i, j] {
              v := other.table[i, j];
            }
          case MergeSum =>
            v := Wrap(table[i, j] + other.table[i, j]);
          case MergeReplace =>
            v := other.table[i, j];
        }
        table[i, j] := v;
        rows := SetCell(rows, i, j, v);
      }
      assert rows[i] == row;
    }

    /** The header, then the cells row by row, all big-endian. */
    method Marshal() returns (data: seq<Byte>)
      requires Valid()
      ensures data == Image(width, depth, baseSeed, rows)
    {
      var buf := new Byte[Offset(width, depth)];
      var header := Header(width, depth, baseSeed);
      Compressor.CopyHeader(header, buf);
      var off := HEADER;
      assert header + TableBytes(rows[..0]) == header;
      for i := 0 to depth
        invariant off == Offset(width, i) <= buf.Length
        invariant buf[..off] == header + TableBytes(rows[..i])
      {
        RowFits(width, i, depth);
        off := MarshalRow(buf, off, i, header + TableBytes(rows[..i]));
        Compressor.Assoc(header, TableBytes(rows[..i]), RowBytes(rows[i]));
        TableBytesMore(rows[..i], rows[i]);
        assert rows[..i + 1] == rows[..i] + [rows[i]];
      }
      assert rows[..depth] == rows;
      assert buf[..off] == buf[..];
      return buf[..];
    }

    method MarshalRow(buf: array<Byte>, start: nat, i: nat, ghost head: seq<Byte>) returns (off: nat)
      requires Valid() && i < depth && start + 8 * width <= buf.Length && buf[..start] == head
      modifies buf
      ensures off == start + 8 * width && buf[..off] == head + RowBytes(rows[i])
    {
      off := start;
      for j := 0 to width
        invariant off == start + 8 * j
        invariant buf[..off] == head + RowBytes(rows[i][..j])
      {
        Compressor.WriteWord(buf, off, table[i, j], head, rows[i][..j]);
        assert rows[i][..j + 1] == rows[i][..j] + [table[i, j]];
        off := off + 8;
      }
      assert rows[i][..width] == rows[i];
    }
  }

  datatype UnmarshalResult =
    | Sketch(value: CountMinSketch)
    | NoHeader(length: nat)
    | WrongMagic
    | WrongVersion(version: Byte)
    | NoTable(have: nat, need: nat)

  /** What unmarshalling checks, in order; more bytes than needed are ignored. */
  method Unmarshal(data: seq<Byte>, hash: (string, U64) -> U64) returns (r: UnmarshalResult)
    ensures |data| < HEADER ==> r == NoHeader(|data|)
    ensures |data| >= HEADER && !Magic(data) ==> r == WrongMagic
    ensures |data| >= HEADER && Magic(data) && data[2] != 1 ==> r == WrongVersion(data[2])
    ensures |data| >= HEADER && Magic(data) && data[2] == 1 && |data| < Offset(WidthOf(data), DepthOf(data)) ==>
      r == NoTable(|data|, Offset(WidthOf(data), DepthOf(data)))
    ensures |data| >= HEADER && Magic(data) && data[2] == 1 && |data| >= Offset(WidthOf(data), DepthOf(data)) ==>
      && r.Sketch? && fresh(r.value) && fresh(r.value.table) && r.value.Valid()
      && r.value.width == WidthOf(data) && r.value.depth == DepthOf(data)
      && r.value.baseSeed == SeedOf(data) && r.value.hash == hash
      && r.value.rows == TableAt(data, WidthOf(data), DepthOf(data))
  {
    if |data| < HEADER {
      return NoHeader(|data|);
    }
    if !(data[0] == 67 && data[1] == 77) {
      return WrongMagic;
    }
    if data[2] != 1 {
      return WrongVersion(data[2]);
    }
    var width := WidthOf(data);
    var depth := DepthOf(data);
    var seed := SeedOf(data);
    var expected := Offset(width, depth);
    if |data| < expected {
      return NoTable(|data|, expected);
    }
    var cms := new CountMinSketch(width, depth, seed, hash);
    ReadRows(data, cms);
    return Sketch(cms);
  }

  method ReadRows(data: seq<Byte>, cms: CountMinSketch)
    requires cms.Valid() && Offset(cms.width, cms.depth) <= |data|
    modifies cms`rows, cms.table
    ensures cms.Valid() && cms.rows == TableAt(data, cms.width, cms.depth)
  {
    var off := HEADER;
    for i := 0 to cms.depth
      invariant cms.Valid() && off == Offset(cms.width, i) <= |data|
      invariant cms.rows[..i] == TableAt(data, cms.width, i)
    {
      RowFits(cms.width, i, cms.depth);
      ghost var before := cms.rows;
      off := ReadOneRow(data, off, cms, i);
      assert cms.rows[..i + 1] == before[..i] + [RowAt(data, Offset(cms.width, i), cms.width)];
    }
    assert cms.rows[..cms.depth] == cms.rows;
  }

  method ReadOneRow(data: seq<Byte>, start: nat, cms: CountMinSketch, i: nat) returns (off: nat)
    requires cms.Valid() && i < cms.depth && start + 8 * cms.width <= |data|
    modifies cms`rows, cms.table
    ensures cms.Valid() && off == start + 8 * cms.width
    ensures cms.rows == old(cms.rows)[i := RowAt(data, start, cms.width)]
  {
    off := start;
    for j := 0 to cms.width
      invariant cms.Valid() && off == start + 8 * j
      invariant forall k :: 0 <= k < cms.depth && k != i ==> cms.rows[k] == old(cms.rows)[k]
      invariant cms.rows[i][..j] == RowAt(data, start, j)
    {
      var cell := Word64(data[off..off + 8]);
      cms.table[i, j] := cell;
      cms.rows := SetCell(cms.rows, i, j, cell);
      RowAtMore(data, start, j);
      assert cms.rows[i][..j + 1] == RowAt(data, start, j) + [cell];
      off := off + 8;
    }
    assert cms.rows[i][..cms.width] == cms.rows[i];
  }

  /** A sketch marshalled, compressed, decompressed and unmarshalled answers as the original. */
  method Ship(c: CountMinSketch) returns (wire: seq<Byte>, d: CountMinSketch)
    requires c.Valid()
    ensures fresh(d) && d.Valid() && d.Shape() == c.Shape() && d.baseSeed == c.baseSeed && d.rows == c.rows
    ensures HEADER + c.depth * c.width <= |wire| <= HEADER + 10 * (c.depth * c.width)
    ensures forall key :: Usable(c.Shape()) ==> Query(d.rows, d.Shape(), key) == Query(c.rows, c.Shape(), key)
  {
    var data := c.Marshal();
    ImageRead(c.width, c.depth, c.baseSeed, c.rows);
    HeaderSays(c.width, c.depth, c.baseSeed, data);
    CodecRoundTrip(c.width, c.depth, c.baseSeed, c.rows);
    wire := Compressor.Compress(data);
    var r := Compressor.Decompress(wire);
    assert r == Ok(data);
    var u := Unmarshal(r.value, c.hash);
    d := u.value;
  }
}
