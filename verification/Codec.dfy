/** The sketch codec (compress.go): each row as the zigzag varints of its successive differences. */
module Codec {
  import opened Words
  import opened Varint

  const HEADER: nat := 19

  type Row = seq<U64>

  predicate Rect(rows: seq<Row>, width: nat) {
    forall i :: 0 <= i < |rows| ==> |rows[i]| == width
  }

  /** "CM", the version, and the three numbers, big-endian. */
  function Header(width: U32, depth: U32, seed: U64): (h: seq<Byte>)
    ensures |h| == HEADER
  {
    [67, 77, 1] + Big(width, 4) + Big(depth, 4) + Big(seed, 8)
  }

  /** Four rows of 256 cells with base seed 42. */
  lemma HeaderExample()
    ensures Header(256, 4, 42) == [67, 77, 1, 0, 0, 1, 0, 0, 0, 0, 4, 0, 0, 0, 0, 0, 0, 0, 42]
  {
    assert Big(256, 4) == [0, 0, 1, 0] by {
      assert Big(0, 2) == [0, 0] && Big(1, 3) == [0, 0, 1];
    }
    assert Big(0, 7) == [0, 0, 0, 0, 0, 0, 0] by {
      assert Big(0, 3) == [0, 0, 0] && Big(0, 5) == [0, 0, 0, 0, 0];
    }
    assert Big(4, 4) == [0, 0, 0, 4] && Big(42, 8) == [0, 0, 0, 0, 0, 0, 0, 42];
  }

  function RowBytes(cells: Row): (s: seq<Byte>)
    ensures |s| == 8 * |cells|
  {
    if cells == [] then [] else RowBytes(cells[..|cells| - 1]) + Big(cells[|cells| - 1], 8)
  }

  function TableBytes(rows: seq<Row>): seq<Byte> {
    if rows == [] then [] else TableBytes(rows[..|rows| - 1]) + RowBytes(rows[|rows| - 1])
  }

  lemma RowBytesMore(front: Row, cell: U64)
    ensures RowBytes(front + [cell]) == RowBytes(front) + Big(cell, 8)
  {
    assert (front + [cell])[..|front|] == front;
  }

  lemma TableBytesMore(front: seq<Row>, row: Row)
    ensures TableBytes(front + [row]) == TableBytes(front) + RowBytes(row)
  {
    assert (front + [row])[..|front|] == front;
  }

  /** How many cells n rows have. */
  function Area(width: nat, n: nat): nat {
    if n == 0 then 0 else Area(width, n - 1) + width
  }

  lemma {:induction false} AreaIsProduct(width: nat, n: nat)
    ensures Area(width, n) == n * width
  {
    if n > 0 {
      AreaIsProduct(width, n - 1);
      assert n * width == (n - 1) * width + width;
    }
  }

  lemma {:induction false} TableSize(rows: seq<Row>, width: nat)
    requires Rect(rows, width)
    ensures |TableBytes(rows)| == 8 * Area(width, |rows|)
  {
    if rows != [] {
      TableSize(rows[..|rows| - 1], width);
    }
  }

  /** The marshalled form of a sketch. */
  function Image(width: U32, depth: U32, seed: U64, rows: seq<Row>): seq<Byte> {
    Header(width, depth, seed) + TableBytes(rows)
  }

  // ---------------------------------------------------------------- reading the plain form

  function WidthOf(data: seq<Byte>): U32
    requires |data| >= HEADER
  {
    Word32(data[3..7])
  }

  function DepthOf(data: seq<Byte>): U32
    requires |data| >= HEADER
  {
    Word32(data[7..11])
  }

  function SeedOf(data: seq<Byte>): U64
    requires |data| >= HEADER
  {
    Word64(data[11..19])
  }

  predicate Magic(data: seq<Byte>)
    requires |data| >= HEADER
  {
    data[0] == 67 && data[1] == 77
  }

  /** What a header says is what it was made of; and there is only one header that says it. */
  lemma HeaderSays(width: U32, depth: U32, seed: U64, data: seq<Byte>)
    requires |data| >= HEADER && data[..HEADER] == Header(width, depth, seed)
    ensures WidthOf(data) == width && DepthOf(data) == depth && SeedOf(data) == seed
    ensures Magic(data) && data[2] == 1
  {
    var h := data[..HEADER];
    assert data[3..7] == h[3..7] == Big(width, 4);
    assert data[7..11] == h[7..11] == Big(depth, 4);
    assert data[11..19] == h[11..19] == Big(seed, 8);
    assert data[0] == h[0] && data[1] == h[1] && data[2] == h[2];
    Word32OfBig(width);
    Word32OfBig(depth);
    Word64OfBig(seed);
  }

  lemma HeaderOnly(data: seq<Byte>)
    requires |data| >= HEADER && Magic(data) && data[2] == 1
    ensures data[..HEADER] == Header(WidthOf(data), DepthOf(data), SeedOf(data))
  {
    BigOfValue(data[3..7]);
    BigOfValue(data[7..11]);
    BigOfValue(data[11..19]);
    assert data[..HEADER] == data[..3] + data[3..7] + data[7..11] + data[11..19];
    assert data[..3] == [67, 77, 1];
  }

  function RowAt(data: seq<Byte>, off: nat, n: nat): (cells: Row)
    requires off + 8 * n <= |data|
    ensures |cells| == n
  {
    if n == 0 then [] else RowAt(data, off, n - 1) + [Word64(data[off + 8 * (n - 1)..off + 8 * n])]
  }

  /** Where row i starts. */
  function Offset(width: nat, i: nat): nat {
    HEADER + 8 * Area(width, i)
  }

  lemma NextOffset(width: nat, i: nat)
    ensures Offset(width, i + 1) == Offset(width, i) + 8 * width
  {
  }

  lemma OffsetMonotone(width: nat, i: nat, n: nat)
    requires i <= n
    ensures Offset(width, i) <= Offset(width, n)
    decreases n - i
  {
    if i < n {
      OffsetMonotone(width, i, n - 1);
    }
  }

  lemma RowFits(width: nat, i: nat, n: nat)
    requires i < n
    ensures Offset(width, i) + 8 * width == Offset(width, i + 1) <= Offset(width, n)
  {
    OffsetMonotone(width, i + 1, n);
    NextOffset(width, i);
  }

  function TableAt(data: seq<Byte>, width: nat, n: nat): (rows: seq<Row>)
    requires Offset(width, n) <= |data|
    ensures |rows| == n && Rect(rows, width)
  {
    if n == 0 then [] else
      NextOffset(width, n - 1);
      TableAt(data, width, n - 1) + [RowAt(data, Offset(width, n - 1), width)]
  }

  lemma {:induction false} RowRead(data: seq<Byte>, off: nat, cells: Row)
    requires At(data, off, RowBytes(cells))
    ensures RowAt(data, off, |cells|) == cells
  {
    if cells != [] {
      var n := |cells| - 1;
      AtSplit(data, off, RowBytes(cells[..n]), Big(cells[n], 8));
      RowRead(data, off, cells[..n]);
      Word64OfBig(cells[n]);
    }
  }

  lemma RowStepRead(data: seq<Byte>, front: seq<Row>, row: Row)
    requires Offset(|row|, |front|) <= |data| && TableAt(data, |row|, |front|) == front
    requires At(data, Offset(|row|, |front|), RowBytes(row))
    ensures Offset(|row|, |front| + 1) <= |data| && TableAt(data, |row|, |front| + 1) == front + [row]
  {
    RowRead(data, Offset(|row|, |front|), row);
  }

  lemma {:induction false} TableRead(data: seq<Byte>, rows: seq<Row>, width: nat)
    requires Rect(rows, width) && At(data, HEADER, TableBytes(rows))
    ensures Offset(width, |rows|) <= |data| && TableAt(data, width, |rows|) == rows
  {
    if rows != [] {
      var n := |rows| - 1;
      var front, row := rows[..n], rows[n];
      assert rows == front + [row];
      TableBytesMore(front, row);
      TableSize(front, width);
      AtSplit(data, HEADER, TableBytes(front), RowBytes(row));
      TableRead(data, front, width);
      RowStepRead(data, front, row);
    }
  }

  lemma Joined(data: seq<Byte>, a: nat, b: nat, c: nat)
    requires a <= b <= c <= |data|
    ensures data[a..b] + data[b..c] == data[a..c]
  {
  }

  lemma RowAtMore(data: seq<Byte>, off: nat, j: nat)
    requires off + 8 * j + 8 <= |data|
    ensures RowAt(data, off, j + 1) == RowAt(data, off, j) + [Word64(data[off + 8 * j..off + 8 * j + 8])]
  {
  }

  /** The cells are written in the data, from one place up to another. */
  predicate RowWritten(data: seq<Byte>, cells: Row, off: nat, end: nat) {
    off <= end <= |data| && RowBytes(cells) == data[off..end]
  }

  lemma CellBack(data: seq<Byte>, front: Row, off: nat, at: nat, cells: Row)
    requires at + 8 <= |data| && RowWritten(data, front, off, at) && cells == front + [Word64(data[at..at + 8])]
    ensures RowWritten(data, cells, off, at + 8)
  {
    RowBytesMore(front, Word64(data[at..at + 8]));
    BigOfValue(data[at..at + 8]);
    Joined(data, off, at, at + 8);
  }

  lemma {:induction false} RowReadBack(data: seq<Byte>, off: nat, n: nat)
    requires off + 8 * n <= |data|
    ensures RowWritten(data, RowAt(data, off, n), off, off + 8 * n)
  {
    if n == 0 {
      assert data[off..off] == [];
    } else {
      RowReadBack(data, off, n - 1);
      CellBack(data, RowAt(data, off, n - 1), off, off + 8 * (n - 1), RowAt(data, off, n));
    }
  }

  lemma TableAtMore(data: seq<Byte>, width: nat, n: nat)
    requires Offset(width, n + 1) <= |data|
    ensures Offset(width, n) + 8 * width == Offset(width, n + 1)
    ensures TableAt(data, width, n + 1) == TableAt(data, width, n) + [RowAt(data, Offset(width, n), width)]
  {
  }

  /** The rows are written in the data, up to the end. */
  predicate Written(data: seq<Byte>, rows: seq<Row>, end: nat) {
    HEADER <= end <= |data| && TableBytes(rows) == data[HEADER..end]
  }

  lemma RowStepBack(data: seq<Byte>, front: seq<Row>, off: nat, width: nat, rows: seq<Row>)
    requires off + 8 * width <= |data| && Written(data, front, off) && rows == front + [RowAt(data, off, width)]
    ensures Written(data, rows, off + 8 * width)
  {
    RowReadBack(data, off, width);
    TableBytesMore(front, RowAt(data, off, width));
    Joined(data, HEADER, off, off + 8 * width);
  }

  lemma {:induction false} TableReadBack(data: seq<Byte>, width: nat, n: nat)
    requires Offset(width, n) <= |data|
    ensures Written(data, TableAt(data, width, n), Offset(width, n))
  {
    if n == 0 {
      assert data[HEADER..HEADER] == [];
    } else {
      TableAtMore(data, width, n - 1);
      TableReadBack(data, width, n - 1);
      RowStepBack(data, TableAt(data, width, n - 1), Offset(width, n - 1), width, TableAt(data, width, n));
    }
  }

  lemma ImageRead(width: U32, depth: U32, seed: U64, rows: seq<Row>)
    requires |rows| == depth && Rect(rows, width)
    ensures var data := Image(width, depth, seed, rows);
      && |data| == Offset(width, depth)
      && data[..HEADER] == Header(width, depth, seed)
      && TableAt(data, width, depth) == rows
  {
    var data := Image(width, depth, seed, rows);
    TableSize(rows, width);
    assert data[HEADER..] == TableBytes(rows);
    TableRead(data, rows, width);
  }

  // ---------------------------------------------------------------- packing

  /** The cell before the n-th of a row, 0 at the start. */
  function Before(cells: Row, n: nat): U64
    requires n <= |cells|
  {
    if n == 0 then 0 else cells[n - 1]
  }

  /** The difference of two cells in wrapping 64-bit arithmetic. */
  function Difference(cell: U64, prev: U64): I64 {
    Signed(Wrap(cell - prev))
  }

  lemma DifferenceUndone(cell: U64, prev: U64)
    ensures Wrap(prev + Difference(cell, prev)) == cell
  {
    var d := Difference(cell, prev);
    SignedWraps(Wrap(cell - prev));
    WrapSum(d, prev);
    WrapSum(cell - prev, prev);
  }

  lemma DifferenceOnly(prev: U64, d: I64)
    ensures Difference(Wrap(prev + d), prev) == d
  {
    WrapSum(prev + d, 0 - prev);
    assert Wrap(Wrap(prev + d) - prev) == Wrap(d);
    WrapSigned(d);
  }

  function CellCode(cell: U64, prev: U64): seq<Byte> {
    PutUvarint(ZigzagEncode(Difference(cell, prev)))
  }

  function PackRow(cells: Row): seq<Byte> {
    if cells == [] then []
    else
      var n := |cells| - 1;
      PackRow(cells[..n]) + CellCode(cells[n], Before(cells, n))
  }

  function PackTable(rows: seq<Row>): seq<Byte> {
    if rows == [] then [] else PackTable(rows[..|rows| - 1]) + PackRow(rows[|rows| - 1])
  }

  /** The compressed form: data too short to be a sketch is left alone. */
  function Packed(data: seq<Byte>): seq<Byte>
    requires |data| >= HEADER ==> Offset(WidthOf(data), DepthOf(data)) <= |data|
  {
    if |data| < HEADER then data
    else data[..HEADER] + PackTable(TableAt(data, WidthOf(data), DepthOf(data)))
  }

  lemma {:induction false} PackRowSize(cells: Row)
    ensures |cells| <= |PackRow(cells)| <= 10 * |cells|
  {
    if cells != [] {
      var n := |cells| - 1;
      PackRowSize(cells[..n]);
      PutFits(ZigzagEncode(Difference(cells[n], Before(cells, n))));
    }
  }

  lemma {:induction false} PackTableSize(rows: seq<Row>, width: nat)
    requires Rect(rows, width)
    ensures Area(width, |rows|) <= |PackTable(rows)| <= 10 * Area(width, |rows|)
  {
    if rows != [] {
      PackTableSize(rows[..|rows| - 1], width);
      PackRowSize(rows[|rows| - 1]);
    }
  }

  // ---------------------------------------------------------------- unpacking

  datatype RowResult = Cells(cells: Row, next: nat) | BadCell(col: nat, cause: VarintError)

  /** One more cell of a row. */
  function NextCell(data: seq<Byte>, r: RowResult): RowResult {
    match r
    case BadCell(_, _) => r
    case Cells(cells, at) =>
      match ReadUvarint(data, at)
      case Failed(cause) => BadCell(|cells|, cause)
      case Read(zz, next) => Cells(cells + [Wrap(Before(cells, |cells|) + ZigzagDecode(zz))], next)
  }

  /** The next n cells of a row that starts at pos. */
  function ReadRow(data: seq<Byte>, pos: nat, n: nat): (r: RowResult)
    ensures r.Cells? ==> |r.cells| == n && (pos <= |data| ==> pos <= r.next <= |data|)
    ensures r.BadCell? ==> r.col < n
  {
    if n == 0 then Cells([], pos) else NextCell(data, ReadRow(data, pos, n - 1))
  }

  datatype TableResult = Rows(rows: seq<Row>, next: nat) | BadRow(row: nat, col: nat, cause: VarintError)

  /** One more row. */
  function NextRow(data: seq<Byte>, width: nat, r: TableResult): TableResult {
    match r
    case BadRow(_, _, _) => r
    case Rows(rows, at) =>
      match ReadRow(data, at, width)
      case BadCell(col, cause) => BadRow(|rows|, col, cause)
      case Cells(cells, next) => Rows(rows + [cells], next)
  }

  /** The first n rows. */
  function ReadTable(data: seq<Byte>, width: nat, n: nat): (r: TableResult)
    ensures r.Rows? ==> |r.rows| == n && Rect(r.rows, width) && (HEADER <= |data| ==> HEADER <= r.next <= |data|)
    ensures r.BadRow? ==> r.row < n && r.col < width
  {
    if n == 0 then Rows([], HEADER) else NextRow(data, width, ReadTable(data, width, n - 1))
  }

  datatype CodecError =
    | TooShort(length: nat)
    | BadMagic
    | BadVersion(version: Byte)
    | BadVarint(row: nat, col: nat, cause: VarintError)
    | Trailing(count: nat)

  datatype Result<T> = Ok(value: T) | Err(error: CodecError)

  /** The plain form of compressed data. */
  function Unpacked(data: seq<Byte>): Result<seq<Byte>> {
    if |data| < HEADER then Err(TooShort(|data|))
    else if !Magic(data) then Err(BadMagic)
    else if data[2] != 1 then Err(BadVersion(data[2]))
    else
      match ReadTable(data, WidthOf(data), DepthOf(data))
      case BadRow(row, col, cause) => Err(BadVarint(row, col, cause))
      case Rows(rows, next) =>
        if next < |data| then Err(Trailing(|data| - next))
        else Ok(data[..HEADER] + TableBytes(rows))
  }

  lemma PackRowMore(front: Row, cell: U64)
    ensures PackRow(front + [cell]) == PackRow(front) + CellCode(cell, Before(front, |front|))
  {
    var all, n := front + [cell], |front|;
    assert all[..n] == front && all[n] == cell;
    assert Before(all, n) == Before(front, n);
  }

  lemma CellUnpacked(data: seq<Byte>, front: Row, at: nat, cell: U64)
    requires At(data, at, CellCode(cell, Before(front, |front|)))
    ensures NextCell(data, Cells(front, at)) == Cells(front + [cell], at + |CellCode(cell, Before(front, |front|))|)
  {
    var prev := Before(front, |front|);
    var d := Difference(cell, prev);
    RoomForAll();
    ReadWhatWasPut(data, at, 0, ZigzagEncode(d));
    ZigzagRoundTrip(d);
    DifferenceUndone(cell, prev);
  }

  lemma CellStepUnpacked(data: seq<Byte>, pos: nat, head: seq<Byte>, front: Row, cell: U64)
    requires At(data, pos, head + CellCode(cell, Before(front, |front|)))
    ensures At(data, pos, head)
    ensures NextCell(data, Cells(front, pos + |head|)) ==
      Cells(front + [cell], pos + |head| + |CellCode(cell, Before(front, |front|))|)
  {
    AtSplit(data, pos, head, CellCode(cell, Before(front, |front|)));
    CellUnpacked(data, front, pos + |head|, cell);
  }

  lemma CellsUnpacked(data: seq<Byte>, pos: nat, front: Row, cell: U64)
    requires At(data, pos, PackRow(front + [cell]))
    ensures At(data, pos, PackRow(front))
    ensures NextCell(data, Cells(front, pos + |PackRow(front)|)) ==
      Cells(front + [cell], pos + |PackRow(front + [cell])|)
  {
    PackRowMore(front, cell);
    CellStepUnpacked(data, pos, PackRow(front), front, cell);
  }

  lemma LastOf<T>(s: seq<T>)
    requires s != []
    ensures s == s[..|s| - 1] + [s[|s| - 1]]
  {
  }

  lemma {:induction false} RowUnpacked(data: seq<Byte>, pos: nat, cells: Row)
    requires At(data, pos, PackRow(cells))
    ensures ReadRow(data, pos, |cells|) == Cells(cells, pos + |PackRow(cells)|)
  {
    if cells != [] {
      var front, cell := cells[..|cells| - 1], cells[|cells| - 1];
      LastOf(cells);
      CellsUnpacked(data, pos, front, cell);
      RowUnpacked(data, pos, front);
    }
  }

  lemma RowStepUnpacked(data: seq<Byte>, front: seq<Row>, row: Row)
    requires At(data, HEADER, PackTable(front + [row]))
    ensures At(data, HEADER, PackTable(front))
    ensures NextRow(data, |row|, Rows(front, HEADER + |PackTable(front)|)) ==
      Rows(front + [row], HEADER + |PackTable(front + [row])|)
  {
    PackTableMore(front, row);
    AtSplit(data, HEADER, PackTable(front), PackRow(row));
    RowUnpacked(data, HEADER + |PackTable(front)|, row);
  }

  lemma {:induction false} TableUnpacked(data: seq<Byte>, rows: seq<Row>, width: nat)
    requires Rect(rows, width) && At(data, HEADER, PackTable(rows))
    ensures ReadTable(data, width, |rows|) == Rows(rows, HEADER + |PackTable(rows)|)
  {
    if rows != [] {
      var front, row := rows[..|rows| - 1], rows[|rows| - 1];
      assert rows == front + [row];
      RowStepUnpacked(data, front, row);
      TableUnpacked(data, front, width);
    }
  }

  /** The round trip: for every table of 64-bit cells, however far apart, compressing the
      marshalled sketch and decompressing gives it back; and the size of the compressed form. */
  lemma CodecRoundTrip(width: U32, depth: U32, seed: U64, rows: seq<Row>)
    requires |rows| == depth && Rect(rows, width)
    ensures var data := Image(width, depth, seed, rows);
      && |data| == Offset(width, depth) == HEADER + 8 * (depth * width)
      && WidthOf(data) == width && DepthOf(data) == depth
      && Unpacked(Packed(data)) == Ok(data)
      && HEADER + depth * width <= |Packed(data)| <= HEADER + 10 * (depth * width)
  {
    var data := Image(width, depth, seed, rows);
    PackedImage(width, depth, seed, rows);
    var packed := Packed(data);
    assert packed[..HEADER] == Header(width, depth, seed);
    assert packed[HEADER..] == PackTable(rows);
    HeaderSays(width, depth, seed, packed);
    TableUnpacked(packed, rows, width);
    PackTableSize(rows, width);
    AreaIsProduct(width, depth);
  }

  // ---------------------------------------------------------------- the other way round

  lemma CellRepacked(prev: U64, zz: U64)
    ensures CellCode(Wrap(prev + ZigzagDecode(zz)), prev) == PutUvarint(zz)
  {
    DifferenceOnly(prev, ZigzagDecode(zz));
    ZigzagOnto(zz);
  }

  /** The next cell's varint is written as shortly as possible. */
  predicate CellMinimal(data: seq<Byte>, at: nat) {
    ReadUvarint(data, at).Read? && Minimal(data, at, ReadUvarint(data, at).next)
  }

  /** So are those of n cells from pos on. */
  predicate RowMinimal(data: seq<Byte>, pos: nat, n: nat) {
    n == 0 || (RowMinimal(data, pos, n - 1) && ReadRow(data, pos, n - 1).Cells? &&
      CellMinimal(data, ReadRow(data, pos, n - 1).next))
  }

  predicate TableMinimal(data: seq<Byte>, width: nat, n: nat) {
    n == 0 || (TableMinimal(data, width, n - 1) && ReadTable(data, width, n - 1).Rows? &&
      RowMinimal(data, ReadTable(data, width, n - 1).next, width))
  }

  /** Packed again, a stretch of input gives the same bytes if it was minimal, and fewer if not. */
  predicate Again(packed: seq<Byte>, data: seq<Byte>, pos: nat, next: nat, minimal: bool) {
    pos <= next <= |data| && if minimal then packed == data[pos..next] else |packed| < next - pos
  }

  lemma AgainBoth(a: seq<Byte>, b: seq<Byte>, data: seq<Byte>, pos: nat, mid: nat, next: nat, first: bool, second: bool)
    requires Again(a, data, pos, mid, first) && Again(b, data, mid, next, second)
    ensures Again(a + b, data, pos, next, first && second)
  {
    assert data[pos..next] == data[pos..mid] + data[mid..next];
  }

  lemma CellRepackedAgain(data: seq<Byte>, front: Row, at: nat) returns (code: seq<Byte>)
    requires at <= |data| && NextCell(data, Cells(front, at)).Cells?
    ensures var r := NextCell(data, Cells(front, at));
      PackRow(r.cells) == PackRow(front) + code && Again(code, data, at, r.next, CellMinimal(data, at))
  {
    var zz := ReadUvarint(data, at).value;
    var prev := Before(front, |front|);
    CellRepacked(prev, zz);
    PackRowMore(front, Wrap(prev + ZigzagDecode(zz)));
    ReadAgain(data, at);
    code := PutUvarint(zz);
  }

  lemma {:induction false} RowRepacked(data: seq<Byte>, pos: nat, n: nat)
    requires pos <= |data| && ReadRow(data, pos, n).Cells?
    ensures var r := ReadRow(data, pos, n); Again(PackRow(r.cells), data, pos, r.next, RowMinimal(data, pos, n))
  {
    if n > 0 {
      RowRepacked(data, pos, n - 1);
      var front, r := ReadRow(data, pos, n - 1), ReadRow(data, pos, n);
      var code := CellRepackedAgain(data, front.cells, front.next);
      AgainBoth(PackRow(front.cells), code, data, pos, front.next, r.next, RowMinimal(data, pos, n - 1),
        CellMinimal(data, front.next));
    }
  }

  lemma PackTableMore(front: seq<Row>, row: Row)
    ensures PackTable(front + [row]) == PackTable(front) + PackRow(row)
  {
    assert (front + [row])[..|front|] == front;
  }

  lemma {:induction false} TableRepacked(data: seq<Byte>, width: nat, n: nat)
    requires HEADER <= |data| && ReadTable(data, width, n).Rows?
    ensures var r := ReadTable(data, width, n);
      Again(PackTable(r.rows), data, HEADER, r.next, TableMinimal(data, width, n))
  {
    if n > 0 {
      TableRepacked(data, width, n - 1);
      var front := ReadTable(data, width, n - 1);
      RowRepacked(data, front.next, width);
      var row := ReadRow(data, front.next, width);
      PackTableMore(front.rows, row.cells);
      AgainBoth(PackTable(front.rows), PackRow(row.cells), data, HEADER, front.next, row.next,
                TableMinimal(data, width, n - 1), RowMinimal(data, front.next, width));
    }
  }

  /** What a success of the decompressor means. */
  lemma UnpackedIsImage(data: seq<Byte>) returns (rows: seq<Row>)
    requires Unpacked(data).Ok?
    ensures |data| >= HEADER && |rows| == DepthOf(data) && Rect(rows, WidthOf(data))
    ensures ReadTable(data, WidthOf(data), DepthOf(data)) == Rows(rows, |data|)
    ensures data[..HEADER] == Header(WidthOf(data), DepthOf(data), SeedOf(data))
    ensures Unpacked(data).value == Image(WidthOf(data), DepthOf(data), SeedOf(data), rows)
  {
    rows := ReadTable(data, WidthOf(data), DepthOf(data)).rows;
    HeaderOnly(data);
  }

  /** What compressing an image gives. */
  lemma PackedImage(width: U32, depth: U32, seed: U64, rows: seq<Row>)
    requires |rows| == depth && Rect(rows, width)
    ensures var data := Image(width, depth, seed, rows);
      && |data| == Offset(width, depth) && WidthOf(data) == width && DepthOf(data) == depth
      && Packed(data) == Header(width, depth, seed) + PackTable(rows)
  {
    var data := Image(width, depth, seed, rows);
    ImageRead(width, depth, seed, rows);
    HeaderSays(width, depth, seed, data);
  }

  /** Compressing what was decompressed: it gives the input back if and only if every varint in
      the input was minimal; otherwise the result is shorter. */
  lemma RepackIff(data: seq<Byte>)
    requires Unpacked(data).Ok?
    ensures var plain := Unpacked(data).value;
      && |data| >= HEADER && |plain| == Offset(WidthOf(data), DepthOf(data))
      && WidthOf(plain) == WidthOf(data) && DepthOf(plain) == DepthOf(data)
      && (Packed(plain) == data <==> TableMinimal(data, WidthOf(data), DepthOf(data)))
      && (Packed(plain) != data ==> |Packed(plain)| < |data|)
  {
    var rows := UnpackedIsImage(data);
    var width, depth := WidthOf(data), DepthOf(data);
    PackedImage(width, depth, SeedOf(data), rows);
    TableRepacked(data, width, depth);
    assert data == data[..HEADER] + data[HEADER..];
  }

  /** A single cell whose zero is written in two bytes. */
  lemma PaddedExample()
    ensures var data := Header(1, 1, 0) + [128, 0];
      Unpacked(data).Ok? && !TableMinimal(data, 1, 1)
  {
    var data: seq<Byte> := Header(1, 1, 0) + [128, 0];
    assert data[..HEADER] == Header(1, 1, 0);
    HeaderSays(1, 1, 0, data);
    PaddedCell(data);
    assert ReadRow(data, 19, 0) == Cells([], 19);
    assert ReadTable(data, 1, 0) == Rows([], 19);
  }

  lemma PaddedCell(data: seq<Byte>)
    requires |data| == 21 && data[19] == 128 && data[20] == 0
    ensures ReadRow(data, 19, 1).Cells? && ReadRow(data, 19, 1).next == 21 && !RowMinimal(data, 19, 1)
  {
    assert ReadFrom(data, 20, 1) == Read(0, 21);
    assert ReadUvarint(data, 19) == Read(0, 21);
    assert ReadRow(data, 19, 0) == Cells([], 19);
  }
}
