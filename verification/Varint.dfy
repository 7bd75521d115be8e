/** Zigzag numbers and base-128 varints, as in the Protocol Buffers Encoding guide, sections
    "Signed Integers" and "Base 128 Varints". */
module Varint {
  import opened Words

  /** x ^ mask, for the two masks that occur: all ones or all zeros. */
  function XorMask(ones: bool, x: U64): U64 {
    if ones then TWO_64 - 1 - x else x
  }

  /** uint64((n >> 63) ^ (n << 1)) */
  function ZigzagEncode(n: I64): U64 {
    XorMask(n < 0, Wrap(2 * n))
  }

  /** int64((u >> 1) ^ -(u & 1)) */
  function ZigzagDecode(u: U64): I64 {
    Signed(XorMask(u % 2 == 1, u / 2))
  }

  /** The code of the sign and magnitude: small numbers of either sign get small codes. */
  lemma ZigzagMeans(n: I64)
    ensures ZigzagEncode(n) == if n >= 0 then 2 * n else -2 * n - 1
  {
  }

  lemma ZigzagRoundTrip(n: I64)
    ensures ZigzagDecode(ZigzagEncode(n)) == n
  {
    ZigzagMeans(n);
  }

  lemma ZigzagOnto(u: U64)
    ensures ZigzagEncode(ZigzagDecode(u)) == u
  {
    ZigzagMeans(ZigzagDecode(u));
  }

  // ---------------------------------------------------------------- varints

  const MAX_LEN: nat := 10

  function PutUvarint(x: nat): seq<Byte> {
    if x < 128 then [x] else [x % 128 + 128] + PutUvarint(x / 128)
  }

  /** Seven bits to the byte, the lowest first, with the high bit set on all but the last. */
  lemma PutExample()
    ensures PutUvarint(300) == [172, 2]
  {
    assert PutUvarint(2) == [2];
  }

  datatype VarintError = EndOfInput | Overflow
  datatype ReadResult = Read(value: nat, next: nat) | Failed(error: VarintError)

  /** The value from byte i of a varint on: at most ten bytes, the tenth at most 1. */
  function ReadFrom(data: seq<Byte>, pos: nat, i: nat): (r: ReadResult)
    requires i <= MAX_LEN
    ensures r.Read? ==> pos < r.next <= |data| && r.next <= pos + MAX_LEN - i
    decreases MAX_LEN - i
  {
    if i == MAX_LEN then Failed(Overflow)
    else if pos >= |data| then Failed(EndOfInput)
    else
      var b := data[pos];
      if b < 128 then
        if i == MAX_LEN - 1 && b > 1 then Failed(Overflow) else Read(b, pos + 1)
      else
        match ReadFrom(data, pos + 1, i + 1)
        case Read(value, next) => Read(b - 128 + 128 * value, next)
        case Failed(e) => Failed(e)
  }

  function ReadUvarint(data: seq<Byte>, pos: nat): (r: ReadResult)
    ensures r.Read? ==> pos < r.next <= |data| && r.next <= pos + MAX_LEN
    ensures r.Read? ==> r.value < TWO_64
  {
    ReadRoom(data, pos, 0);
    RoomForAll();
    ReadFrom(data, pos, 0)
  }

  /** How many values byte i and the following can still express. */
  function Room(i: nat): nat
    requires i < MAX_LEN
    decreases MAX_LEN - i
  {
    if i == MAX_LEN - 1 then 2 else 128 * Room(i + 1)
  }

  lemma RoomForAll()
    ensures Room(0) == TWO_64
  {
    assert Room(8) == 128 * 2;
    assert Room(6) == 128 * (128 * Room(8));
    assert Room(4) == 128 * (128 * Room(6));
    assert Room(2) == 128 * (128 * Room(4));
    assert Room(0) == 128 * (128 * Room(2));
  }

  lemma {:induction false} ReadRoom(data: seq<Byte>, pos: nat, i: nat)
    requires i < MAX_LEN
    ensures var r := ReadFrom(data, pos, i); r.Read? ==> r.value < Room(i)
    decreases MAX_LEN - i
  {
    if i == MAX_LEN - 1 {
      assert ReadFrom(data, pos + 1, MAX_LEN) == Failed(Overflow);
    } else {
      ReadRoom(data, pos + 1, i + 1);
      RoomAtLeast(i);
    }
  }

  lemma {:induction false} RoomAtLeast(i: nat)
    requires i < MAX_LEN - 1
    ensures Room(i) >= 256
    decreases MAX_LEN - i
  {
    if i < MAX_LEN - 2 {
      RoomAtLeast(i + 1);
    }
  }

  /** s stands at pos. */
  predicate At(data: seq<Byte>, pos: nat, s: seq<Byte>) {
    pos + |s| <= |data| && data[pos..pos + |s|] == s
  }

  lemma AtSplit(data: seq<Byte>, pos: nat, a: seq<Byte>, b: seq<Byte>)
    ensures At(data, pos, a + b) <==> At(data, pos, a) && At(data, pos + |a|, b)
  {
    if pos + |a + b| <= |data| {
      var s := data[pos..pos + |a + b|];
      assert s == s[..|a|] + s[|a|..];
      assert s[..|a|] == data[pos..pos + |a|];
      assert s[|a|..] == data[pos + |a|..pos + |a| + |b|];
      assert (a + b)[..|a|] == a && (a + b)[|a|..] == b;
    }
  }

  /** What was written is what is read. */
  lemma {:induction false} ReadWhatWasPut(data: seq<Byte>, pos: nat, i: nat, x: nat)
    requires i < MAX_LEN && x < Room(i) && At(data, pos, PutUvarint(x))
    ensures ReadFrom(data, pos, i) == Read(x, pos + |PutUvarint(x)|)
    decreases MAX_LEN - i
  {
    if x < 128 {
      assert data[pos] == data[pos..pos + 1][0];
    } else {
      AtSplit(data, pos, [x % 128 + 128], PutUvarint(x / 128));
      assert data[pos] == data[pos..pos + 1][0];
      ReadWhatWasPut(data, pos + 1, i + 1, x / 128);
    }
  }

  lemma {:induction false} PutLength(x: nat, i: nat)
    requires i < MAX_LEN && x < Room(i)
    ensures 1 <= |PutUvarint(x)| <= MAX_LEN - i
    decreases MAX_LEN - i
  {
    if x >= 128 {
      PutLength(x / 128, i + 1);
    }
  }

  lemma PutFits(x: U64)
    ensures 1 <= |PutUvarint(x)| <= MAX_LEN
  {
    RoomForAll();
    PutLength(x, 0);
  }

  /** A varint can be written longer than necessary; it is not exactly when its last byte adds
      something, or there is only one. */
  predicate Minimal(data: seq<Byte>, pos: nat, next: nat) {
    pos < next <= |data| && (next == pos + 1 || data[next - 1] != 0)
  }

  lemma PutStep(low: nat, rest: nat)
    requires low < 128
    ensures PutUvarint(low + 128 * rest) == if rest == 0 then [low] else [low + 128] + PutUvarint(rest)
  {
    Digits(low, rest);
  }

  lemma PutSize(low: nat, rest: nat)
    requires low < 128
    ensures |PutUvarint(low + 128 * rest)| == if rest == 0 then 1 else 1 + |PutUvarint(rest)|
  {
    PutStep(low, rest);
  }

  lemma Digits(low: nat, rest: nat)
    requires low < 128
    ensures (low + 128 * rest) % 128 == low && (low + 128 * rest) / 128 == rest
  {
  }

  /** A byte with more to come. */
  lemma ReadStep(data: seq<Byte>, pos: nat, i: nat)
    requires i < MAX_LEN && ReadFrom(data, pos, i).Read? && data[pos] >= 128
    ensures i + 1 < MAX_LEN && ReadFrom(data, pos + 1, i + 1).Read?
    ensures var r := ReadFrom(data, pos + 1, i + 1);
      ReadFrom(data, pos, i) == Read(data[pos] - 128 + 128 * r.value, r.next)
  {
  }

  lemma {:induction false} LastByteCounts(data: seq<Byte>, pos: nat, i: nat)
    requires i < MAX_LEN && ReadFrom(data, pos, i).Read?
    ensures var r := ReadFrom(data, pos, i); data[r.next - 1] != 0 ==> r.value > 0
    decreases MAX_LEN - i
  {
    if data[pos] >= 128 && i + 1 < MAX_LEN {
      LastByteCounts(data, pos + 1, i + 1);
    }
  }

  lemma FirstOf(data: seq<Byte>, pos: nat, next: nat)
    requires pos < next <= |data|
    ensures data[pos..next] == [data[pos]] + data[pos + 1..next]
  {
  }

  /** A minimal varint that was read is what would be written. */
  lemma {:induction false} MinimalIsPut(data: seq<Byte>, pos: nat, i: nat)
    requires i < MAX_LEN && ReadFrom(data, pos, i).Read? && Minimal(data, pos, ReadFrom(data, pos, i).next)
    ensures var r := ReadFrom(data, pos, i); PutUvarint(r.value) == data[pos..r.next]
    decreases MAX_LEN - i
  {
    if data[pos] >= 128 {
      ReadStep(data, pos, i);
      var r := ReadFrom(data, pos + 1, i + 1);
      LastByteCounts(data, pos + 1, i + 1);
      MinimalIsPut(data, pos + 1, i + 1);
      PutStep(data[pos] - 128, r.value);
      FirstOf(data, pos, r.next);
    } else {
      assert data[pos..pos + 1] == [data[pos]];
    }
  }

  /** One that is not minimal is longer than what would be written. */
  lemma {:induction false} PaddedIsLonger(data: seq<Byte>, pos: nat, i: nat)
    requires i < MAX_LEN && ReadFrom(data, pos, i).Read? && !Minimal(data, pos, ReadFrom(data, pos, i).next)
    ensures var r := ReadFrom(data, pos, i); pos + |PutUvarint(r.value)| < r.next
    decreases MAX_LEN - i
  {
    if data[pos] >= 128 {
      ReadStep(data, pos, i);
      var r := ReadFrom(data, pos + 1, i + 1);
      PutSize(data[pos] - 128, r.value);
      if r.next > pos + 2 {
        PaddedIsLonger(data, pos + 1, i + 1);
      } else {
        assert r.value == 0;
      }
    }
  }

  /** For a varint read from the input: minimal or longer than need be. */
  lemma ReadAgain(data: seq<Byte>, pos: nat)
    requires ReadUvarint(data, pos).Read?
    ensures var r := ReadUvarint(data, pos);
      if Minimal(data, pos, r.next) then PutUvarint(r.value) == data[pos..r.next]
      else |PutUvarint(r.value)| < r.next - pos
  {
    if Minimal(data, pos, ReadUvarint(data, pos).next) {
      MinimalIsPut(data, pos, 0);
    } else {
      PaddedIsLonger(data, pos, 0);
    }
  }
}
