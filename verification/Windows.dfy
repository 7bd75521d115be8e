/** Window arithmetic (window.go, and the alignment in limiter.go's resetWindow). */
module Windows {

  /** Go's integer division truncates toward zero. */
  function GoDiv(a: int, b: int): int
    requires b > 0
  {
    if a >= 0 then a / b else -((-a) / b)
  }

  /** The start of the window that contains now, as the limiter computes it. */
  function Aligned(now: int, window: int): int
    requires window > 0
  {
    GoDiv(now, window) * window
  }

  /** A bucket whose window began at start is due for a reset. */
  predicate Due(start: int, window: int, now: int) {
    now >= start + window
  }

  lemma MulMonotone(k: nat, a: int, b: int)
    requires a <= b
    ensures k * a <= k * b
  {
  }

  lemma MultipleModZero(k: int, w: int)
    requires w > 0
    ensures (k * w) % w == 0
  {
    if k >= 0 {
      ModOfMultiple(k, w);
    } else {
      ModOfMultiple(-k, w);
      assert k * w == -(-k * w);
      var m := -k * w;
      assert m % w == 0;
      NegMod(m, w);
    }
  }

  lemma {:induction false} ModOfMultiple(k: nat, w: int)
    requires w > 0
    ensures (k * w) % w == 0
  {
    if k > 0 {
      ModOfMultiple(k - 1, w);
      assert k * w == (k - 1) * w + w;
      AddMod((k - 1) * w, w);
    }
  }

  lemma AddMod(a: int, w: int)
    requires w > 0
    ensures (a + w) % w == a % w
  {
    var q, r := a / w, a % w;
    assert a + w == (q + 1) * w + r;
    DivModUnique(a + w, w, q + 1, r);
  }

  lemma NegMod(a: int, w: int)
    requires w > 0 && a % w == 0
    ensures (-a) % w == 0
  {
    var q := a / w;
    assert -a == (-q) * w + 0;
    DivModUnique(-a, w, -q, 0);
  }

  /** Euclidean division is the only one with a remainder in range. */
  lemma DivModUnique(a: int, w: int, q: int, r: int)
    requires w > 0 && a == q * w + r && 0 <= r < w
    ensures a / w == q && a % w == r
  {
    var p, m := a / w, a % w;
    assert a == p * w + m;
    if p < q {
      MulMonotone(w, p + 1, q);
    } else if q < p {
      MulMonotone(w, q + 1, p);
    }
  }

  /** Two multiples of w that differ, differ by at least w. */
  lemma MultiplesApart(a: int, b: int, w: int)
    requires w > 0 && a % w == 0 && b % w == 0 && a < b
    ensures a + w <= b
  {
    var p, q := a / w, b / w;
    assert a == w * p && b == w * q;
    assert p < q by {
      if q <= p {
        MulMonotone(w, q, p);
      }
    }
    MulMonotone(w, p + 1, q);
  }

  /** For times from the epoch on, Aligned is the largest multiple of the window not after now. */
  lemma AlignedIsFloor(now: int, window: int)
    requires window > 0
    ensures Aligned(now, window) % window == 0
    ensures now >= 0 ==> Aligned(now, window) <= now < Aligned(now, window) + window
    ensures now >= 0 ==> Aligned(now, window) >= 0
  {
    MultipleModZero(GoDiv(now, window), window);
  }

  lemma AlignedMonotone(a: int, b: int, window: int)
    requires window > 0 && 0 <= a <= b
    ensures Aligned(a, window) <= Aligned(b, window)
  {
    AlignedIsFloor(a, window);
    AlignedIsFloor(b, window);
    if Aligned(b, window) < Aligned(a, window) {
      MultiplesApart(Aligned(b, window), Aligned(a, window), window);
    }
  }

  lemma QuotientBound(w: int, n: nat, span: int)
    requires w > 0 && w * n <= span
    ensures n <= span / w
  {
    if span / w < n {
      MulMonotone(w, span / w + 1, n);
    }
  }
}
