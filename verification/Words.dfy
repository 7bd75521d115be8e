/** Machine words as ranges of integers, and their big-endian bytes. */
module Words {

  const TWO_32: nat := 0x1_0000_0000
  const TWO_63: nat := 0x8000_0000_0000_0000
  const TWO_64: nat := 0x1_0000_0000_0000_0000

  type Byte = b: nat | b < 256
  type U32 = n: nat | n < 0x1_0000_0000
  type U64 = n: nat | n < 0x1_0000_0000_0000_0000
  type I64 = n: int | -0x8000_0000_0000_0000 <= n < 0x8000_0000_0000_0000

  /** The conversion of any integer to uint64, and uint64 arithmetic with it. */
  function Wrap(n: int): U64 {
    n % TWO_64
  }

  /** int64(x) of an unsigned word. */
  function Signed(x: U64): I64 {
    if x < TWO_63 then x else x - TWO_64
  }

  lemma SignedWraps(x: U64)
    ensures Wrap(Signed(x)) == x
  {
    if x >= TWO_63 {
      WrapShift(x, -1);
    }
  }

  lemma WrapShift(x: int, k: int)
    ensures Wrap(x + k * TWO_64) == Wrap(x)
    decreases if k < 0 then -k else k
  {
    if k > 0 {
      WrapShift(x, k - 1);
      WrapOnce(x + (k - 1) * TWO_64);
    } else if k < 0 {
      WrapShift(x, k + 1);
      WrapOnce(x + k * TWO_64);
    }
  }

  lemma WrapOnce(x: int)
    ensures Wrap(x + TWO_64) == Wrap(x)
  {
  }

  lemma WrapSigned(n: I64)
    ensures Signed(Wrap(n)) == n
  {
    if n < 0 {
      WrapOnce(n);
    }
  }

  /** Wrapping a part of a sum first makes no difference. */
  lemma WrapSum(a: int, b: int)
    ensures Wrap(Wrap(a) + b) == Wrap(a + b)
  {
    var q := a / TWO_64;
    assert a == Wrap(a) + q * TWO_64;
    WrapShift(Wrap(a) + b, q);
  }

  // ---------------------------------------------------------------- big-endian bytes

  function Pow256(n: nat): nat {
    if n == 0 then 1 else 256 * Pow256(n - 1)
  }

  /** The last n base-256 digits, most significant first. */
  function Big(v: nat, n: nat): (s: seq<Byte>)
    ensures |s| == n
  {
    if n == 0 then [] else Big(v / 256, n - 1) + [v % 256]
  }

  function Value(s: seq<Byte>): nat {
    if s == [] then 0 else Value(s[..|s| - 1]) * 256 + s[|s| - 1]
  }

  lemma {:induction false} ValueOfBig(v: nat, n: nat)
    requires v < Pow256(n)
    ensures Value(Big(v, n)) == v
  {
    if n > 0 {
      ValueOfBig(v / 256, n - 1);
      assert Big(v, n)[..n - 1] == Big(v / 256, n - 1);
    }
  }

  lemma {:induction false} BigOfValue(s: seq<Byte>)
    ensures Value(s) < Pow256(|s|)
    ensures Big(Value(s), |s|) == s
  {
    if s != [] {
      var front := s[..|s| - 1];
      BigOfValue(front);
      assert Value(s) / 256 == Value(front) && Value(s) % 256 == s[|s| - 1];
      assert s == front + [s[|s| - 1]];
    }
  }

  /** Each byte is a digit by its position, the most significant first. */
  lemma {:induction false} DigitOfBig(v: nat, n: nat, i: nat)
    requires i < n
    ensures Pow256(n - 1 - i) > 0
    ensures Big(v, n)[i] == (v / Pow256(n - 1 - i)) % 256
  {
    if i < n - 1 {
      DigitOfBig(v / 256, n - 1, i);
      DivideTwice(v, Pow256(n - 2 - i));
    }
  }

  lemma DivideTwice(v: nat, p: nat)
    requires p > 0
    ensures (v / 256) / p == v / (256 * p)
  {
    var q := (v / 256) / p;
    assert 256 * (p * q) <= v < 256 * (p * q + p);
    QuotientIs(v, 256 * p, q);
  }

  lemma QuotientIs(v: nat, d: nat, q: nat)
    requires d > 0 && d * q <= v < d * q + d
    ensures v / d == q
  {
    var k := v / d;
    assert v == d * k + v % d;
    Ordered(d, k, q);
    Ordered(d, q, k);
  }

  lemma {:induction false} Ordered(d: nat, a: nat, b: nat)
    ensures a < b ==> d * a + d <= d * b
    decreases b
  {
    if a < b {
      Ordered(d, a, b - 1);
      assert d * b == d * (b - 1) + d;
    }
  }

  lemma WordSizes()
    ensures Pow256(4) == TWO_32 && Pow256(8) == TWO_64
  {
    assert Pow256(2) == 0x1_0000;
    assert Pow256(4) == 256 * (256 * Pow256(2));
    assert Pow256(6) == 256 * (256 * Pow256(4));
    assert Pow256(8) == 256 * (256 * Pow256(6));
  }

  /** A word read from its bytes. */
  function Word32(s: seq<Byte>): U32
    requires |s| == 4
  {
    WordSizes();
    BigOfValue(s);
    Value(s)
  }

  function Word64(s: seq<Byte>): U64
    requires |s| == 8
  {
    WordSizes();
    BigOfValue(s);
    Value(s)
  }

  lemma Word32OfBig(v: U32)
    ensures Word32(Big(v, 4)) == v
  {
    WordSizes();
    ValueOfBig(v, 4);
  }

  lemma Word64OfBig(v: U64)
    ensures Word64(Big(v, 8)) == v
  {
    WordSizes();
    ValueOfBig(v, 8);
  }
}
