/** The loops of compress.go, over byte buffers, against the codec's definition. */
module Compressor {
  import opened Words
  import opened Varint
  import opened Codec

  /** The difference as the code takes it: between signed words, wrapping. */
  lemma SignedDifference(cell: U64, prev: U64)
    ensures Signed(Wrap(Signed(cell) - Signed(prev))) == Difference(cell, prev)
  {
    SignedWraps(cell);
    SignedWraps(prev);
    WrapSum(Signed(cell), 0 - Signed(prev));
    WrapShift(cell - prev, if prev < TWO_63 then 0 else 1);
  }

  /** The sum as the code takes it. */
  lemma SignedSum(prev: U64, delta: I64)
    ensures Wrap(Signed(Wrap(Signed(prev) + delta))) == Wrap(prev + delta)
  {
    SignedWraps(Wrap(Signed(prev) + delta));
    SignedWraps(prev);
    WrapSum(Signed(prev), delta);
  }

  lemma Assoc(a: seq<Byte>, b: seq<Byte>, c: seq<Byte>)
    ensures (a + b) + c == a + (b + c)
  {
  }

  /** One cell: its difference from the one before, as a zigzag varint. */
  method CompressCell(ghost front: Row, cell: U64, prev: U64, first: bool) returns (code: seq<Byte>)
    requires first == (front == []) && (!first ==> prev == front[|front| - 1])
    ensures PackRow(front + [cell]) == PackRow(front) + code
  {
    SignedDifference(cell, prev);
    var delta := if first then Signed(cell) else Signed(Wrap(Signed(cell) - Signed(prev)));
    assert delta == Difference(cell, Before(front, |front|));
    code := PutUvarint(ZigzagEncode(delta));
    PackRowMore(front, cell);
  }

  /** One row: the differences of its cells, written to the end of the buffer. */
  method CompressRow(data: seq<Byte>, start: nat, width: nat, buf: seq<Byte>) returns (out: seq<Byte>, off: nat)
    requires start + 8 * width <= |data|
    ensures out == buf + PackRow(RowAt(data, start, width)) && off == start + 8 * width
  {
    out, off := buf, start;
    var prev: U64 := 0;
    ghost var cells: Row := [];
    for j := 0 to width
      invariant off == start + 8 * j
      invariant cells == RowAt(data, start, j)
      invariant j > 0 ==> prev == cells[j - 1]
      invariant out == buf + PackRow(cells)
    {
      var cell := Word64(data[off..off + 8]);
      RowAtMore(data, start, j);
      off := off + 8;
      var code := CompressCell(cells, cell, prev, j == 0);
      prev := cell;
      Assoc(buf, PackRow(cells), code);
      out := out + code;
      cells := cells + [cell];
    }
  }

  lemma CompressRowStep(data: seq<Byte>, width: nat, i: nat, depth: nat)
    requires i < depth && Offset(width, depth) <= |data|
    ensures Offset(width, i + 1) == Offset(width, i) + 8 * width <= |data|
    ensures PackTable(TableAt(data, width, i + 1)) ==
      PackTable(TableAt(data, width, i)) + PackRow(RowAt(data, Offset(width, i), width))
  {
    RowFits(width, i, depth);
    PackTableMore(TableAt(data, width, i), RowAt(data, Offset(width, i), width));
  }

  /** Data too short to be a sketch is returned as it is. */
  method Compress(data: seq<Byte>) returns (out: seq<Byte>)
    requires |data| >= HEADER ==> Offset(WidthOf(data), DepthOf(data)) <= |data|
    ensures out == Packed(data)
  {
    if |data| < HEADER {
      return data;
    }
    var width := WidthOf(data);
    var depth := DepthOf(data);
    out := CompressRows(data, width, depth);
  }

  method CompressRows(data: seq<Byte>, width: nat, depth: nat) returns (out: seq<Byte>)
    requires Offset(width, depth) <= |data|
    ensures out == data[..HEADER] + PackTable(TableAt(data, width, depth))
  {
    var head := data[..HEADER];
    out := head;
    var off := HEADER;
    for i := 0 to depth
      invariant off == Offset(width, i) <= |data|
      invariant out == head + PackTable(TableAt(data, width, i))
    {
      ghost var before := PackTable(TableAt(data, width, i));
      CompressRowStep(data, width, i, depth);
      out, off := CompressRow(data, off, width, out);
      Assoc(head, before, PackRow(RowAt(data, Offset(width, i), width)));
    }
  }

  /** binary.BigEndian.PutUint64 */
  method PutUint64(buf: array<Byte>, off: nat, v: U64)
    requires off + 8 <= buf.Length
    modifies buf
    ensures buf[..] == old(buf[..off]) + Big(v, 8) + old(buf[off + 8..])
  {
    var s := Big(v, 8);
    for i := 0 to 8
      invariant buf[..off] == old(buf[..off]) && buf[off + 8..] == old(buf[off + 8..])
      invariant buf[off..off + i] == s[..i]
    {
      buf[off + i] := s[i];
    }
    assert buf[..] == buf[..off] + buf[off..off + 8] + buf[off + 8..];
  }

  datatype Step = Done(next: nat) | Stopped(col: nat, cause: VarintError)

  /** The next cell, or why there is none. */
  method DecompressCell(data: seq<Byte>, ghost front: Row, at: nat, prev: I64, first: bool)
    returns (cell: I64, r: ReadResult)
    requires first == (front == []) && (!first ==> prev == Signed(front[|front| - 1]))
    ensures r.Failed? ==> NextCell(data, Cells(front, at)) == BadCell(|front|, r.error)
    ensures r.Read? ==> NextCell(data, Cells(front, at)) == Cells(front + [Wrap(cell)], r.next)
    ensures Signed(Wrap(cell)) == cell
  {
    r := ReadUvarint(data, at);
    match r
    case Failed(cause) =>
      cell := 0;
    case Read(zz, next) =>
      var delta := ZigzagDecode(zz);
      if first {
        cell := delta;
      } else {
        cell := Signed(Wrap(prev + delta));
      }
      SignedSum(Before(front, |front|), delta);
      WrapSigned(cell);
  }

  /** One row: its varints are read and the cells written to the buffer at start. */
  method DecompressRow(data: seq<Byte>, pos: nat, width: nat, buf: array<Byte>, start: nat) returns (r: Step)
    requires start + 8 * width <= buf.Length
    modifies buf
    ensures match ReadRow(data, pos, width)
      case BadCell(col, cause) => r == Stopped(col, cause)
      case Cells(cells, next) => r == Done(next) && buf[..start + 8 * width] == old(buf[..start]) + RowBytes(cells)
  {
    var at, off := pos, start;
    var prev: I64 := 0;
    ghost var cells: Row := [];
    for j := 0 to width
      invariant off == start + 8 * j
      invariant ReadRow(data, pos, j) == Cells(cells, at)
      invariant j > 0 ==> prev == Signed(cells[j - 1])
      invariant buf[..off] == old(buf[..start]) + RowBytes(cells)
    {
      var cell, zz := DecompressCell(data, cells, at, prev, j == 0);
      if zz.Failed? {
        StopsHere(data, pos, j + 1, width);
        return Stopped(j, zz.error);
      }
      prev := cell;
      WriteWord(buf, off, Wrap(cell), old(buf[..start]), cells);
      off := off + 8;
      cells := cells + [Wrap(cell)];
      at := zz.next;
    }
    return Done(at);
  }

  /** One more cell after those of a row that are written. */
  method WriteWord(buf: array<Byte>, off: nat, word: U64, ghost head: seq<Byte>, ghost cells: Row)
    requires off + 8 <= buf.Length && buf[..off] == head + RowBytes(cells)
    modifies buf
    ensures buf[..off + 8] == head + RowBytes(cells + [word])
  {
    PutUint64(buf, off, word);
    RowBytesMore(cells, word);
    Assoc(head, RowBytes(cells), Big(word, 8));
  }

  /** A row that stops at a cell stops there however many cells were to follow. */
  lemma {:induction false} StopsHere(data: seq<Byte>, pos: nat, j: nat, n: nat)
    requires j <= n && ReadRow(data, pos, j).BadCell?
    ensures ReadRow(data, pos, n) == ReadRow(data, pos, j)
    decreases n - j
  {
    if j < n {
      StopsHere(data, pos, j, n - 1);
    }
  }

  lemma {:induction false} TableStopsHere(data: seq<Byte>, width: nat, i: nat, n: nat)
    requires i <= n && ReadTable(data, width, i).BadRow?
    ensures ReadTable(data, width, n) == ReadTable(data, width, i)
    decreases n - i
  {
    if i < n {
      TableStopsHere(data, width, i, n - 1);
    }
  }

  method CopyHeader(data: seq<Byte>, out: array<Byte>)
    requires |data| >= HEADER && out.Length >= HEADER
    modifies out
    ensures out[..HEADER] == data[..HEADER]
  {
    for k := 0 to HEADER
      invariant out[..k] == data[..k]
    {
      out[k] := data[k];
    }
  }

  /** Every malformed input gets its error, the first that is met. */
  method Decompress(data: seq<Byte>) returns (r: Result<seq<Byte>>)
    ensures r == Unpacked(data)
  {
    if |data| < HEADER {
      return Err(TooShort(|data|));
    }
    if !(data[0] == 67 && data[1] == 77) {
      return Err(BadMagic);
    }
    if data[2] != 1 {
      return Err(BadVersion(data[2]));
    }
    r := DecompressTable(data);
  }

  /** After the header's checks. */
  method DecompressTable(data: seq<Byte>) returns (r: Result<seq<Byte>>)
    requires |data| >= HEADER && Magic(data) && data[2] == 1
    ensures r == Unpacked(data)
  {
    var width := WidthOf(data);
    var depth := DepthOf(data);
    var out := new Byte[Offset(width, depth)];
    CopyHeader(data, out);
    var t := DecompressRows(data, width, depth, out);
    if t.BadRow? {
      return Err(BadVarint(t.row, t.col, t.cause));
    }
    if t.next < |data| {
      return Err(Trailing(|data| - t.next));
    }
    return Ok(out[..]);
  }

  /** One row after those that are written. */
  method WriteRow(data: seq<Byte>, pos: nat, width: nat, buf: array<Byte>, start: nat, ghost head: seq<Byte>,
      ghost rows: seq<Row>)
    returns (r: Step, ghost more: seq<Row>)
    requires ReadTable(data, width, |rows|) == Rows(rows, pos)
    requires start + 8 * width <= buf.Length && buf[..start] == head + TableBytes(rows)
    modifies buf
    ensures r.Stopped? ==> ReadTable(data, width, |rows| + 1) == TableResult.BadRow(|rows|, r.col, r.cause)
    ensures r.Done? ==> ReadTable(data, width, |rows| + 1) == Rows(more, r.next)
    ensures r.Done? ==> buf[..start + 8 * width] == head + TableBytes(more)
  {
    r := DecompressRow(data, pos, width, buf, start);
    more := rows;
    if r.Done? {
      more := rows + [ReadRow(data, pos, width).cells];
      ghost var row := ReadRow(data, pos, width).cells;
      TableBytesMore(rows, row);
      Assoc(head, TableBytes(rows), RowBytes(row));
    }
  }

  /** All rows, into the buffer. */
  method DecompressRows(data: seq<Byte>, width: nat, depth: nat, out: array<Byte>) returns (t: Outcome)
    requires |data| >= HEADER && out.Length == Offset(width, depth) && out[..HEADER] == data[..HEADER]
    modifies out
    ensures match ReadTable(data, width, depth)
      case BadRow(row, col, cause) => t == Outcome.BadRow(row, col, cause)
      case Rows(rows, next) => t == Whole(next) && out[..] == data[..HEADER] + TableBytes(rows)
  {
    var pos, outOff := HEADER, HEADER;
    ghost var head := data[..HEADER];
    ghost var rows: seq<Row> := [];
    assert head + TableBytes(rows) == head;
    for i := 0 to depth
      invariant outOff == Offset(width, i) <= out.Length
      invariant ReadTable(data, width, i) == Rows(rows, pos)
      invariant |rows| == i && out[..outOff] == head + TableBytes(rows)
    {
      RowFits(width, i, depth);
      var step;
      step, rows := WriteRow(data, pos, width, out, outOff, head, rows);
      if step.Stopped? {
        TableStopsHere(data, width, i + 1, depth);
        return Outcome.BadRow(i, step.col, step.cause);
      }
      pos := step.next;
      outOff := outOff + 8 * width;
    }
    assert out[..] == out[..outOff];
    return Whole(pos);
  }

  datatype Outcome = Whole(next: nat) | BadRow(row: nat, col: nat, cause: VarintError)
}
