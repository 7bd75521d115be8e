/** Adaptive borrow sizes (adaptive.go), over the reals. */
module Sizer {

  /** The exponential average of a history of recorded amounts. */
  function Ema(alpha: real, history: seq<nat>): real {
    if history == [] then 0.0
    else alpha * history[|history| - 1] as real + (1.0 - alpha) * Ema(alpha, history[..|history| - 1])
  }

  lemma Convex(a: real, b: real, x: real, y: real, top: real)
    requires a >= 0.0 && b >= 0.0 && a + b == 1.0 && 0.0 <= x <= top && 0.0 <= y <= top
    ensures 0.0 <= a * x + b * y <= top
  {
    Scale(a, x, top);
    Scale(b, y, top);
    Share(a, b, top);
    Add(a * x, b * y, a * top, b * top, top);
  }

  lemma Share(a: real, b: real, c: real)
    requires a + b == 1.0
    ensures a * c + b * c == c
  {
    Distribute(a, b, c);
    assert (a + b) * c == c;
  }

  lemma Add(u: real, v: real, p: real, q: real, top: real)
    requires 0.0 <= u <= p && 0.0 <= v <= q && p + q == top
    ensures 0.0 <= u + v <= top
  {
  }

  lemma Distribute(a: real, b: real, c: real)
    ensures a * c + b * c == (a + b) * c
  {
  }

  lemma Scale(a: real, x: real, top: real)
    requires a >= 0.0 && 0.0 <= x <= top
    ensures 0.0 <= a * x <= a * top
  {
  }

  /** The average never leaves the range of what was recorded. */
  lemma {:induction false} EmaBounded(alpha: real, history: seq<nat>, top: nat)
    requires 0.0 <= alpha <= 1.0 && forall i :: 0 <= i < |history| ==> history[i] <= top
    ensures 0.0 <= Ema(alpha, history) <= top as real
  {
    if history != [] {
      var n := |history| - 1;
      EmaBounded(alpha, history[..n], top);
      Convex(alpha, 1.0 - alpha, history[n] as real, Ema(alpha, history[..n]), top as real);
    }
  }

  function Power(x: real, n: nat): real {
    if n == 0 then 1.0 else Power(x, n - 1) * x
  }

  /** The amounts, each with weight alpha for the newest of `total` and (1 - alpha) times the weight of
      the next newer one for any other. */
  function Weighted(alpha: real, history: seq<nat>, total: nat): real
    requires |history| <= total
  {
    if history == [] then 0.0
    else
      var n := |history| - 1;
      Weighted(alpha, history[..n], total) + alpha * Power(1.0 - alpha, total - 1 - n) * history[n] as real
  }

  lemma Spread(p: real, a: real, x: real, b: real, e: real)
    ensures p * (a * x + b * e) == a * p * x + (p * b) * e
  {
    assert p * (a * x + b * e) == p * (a * x) + p * (b * e);
  }

  lemma {:induction false} EmaAged(alpha: real, history: seq<nat>, k: nat)
    ensures Power(1.0 - alpha, k) * Ema(alpha, history) == Weighted(alpha, history, |history| + k)
  {
    if history != [] {
      var n := |history| - 1;
      EmaAged(alpha, history[..n], k + 1);
      Spread(Power(1.0 - alpha, k), alpha, history[n] as real, 1.0 - alpha, Ema(alpha, history[..n]));
    }
  }

  /** The average in closed form: an amount that k others have followed weighs alpha (1 - alpha)^k. */
  lemma EmaIsWeighted(alpha: real, history: seq<nat>)
    ensures Ema(alpha, history) == Weighted(alpha, history, |history|)
  {
    EmaAged(alpha, history, 0);
  }

  /** math.Round of a number that is not negative. */
  function Round(x: real): int {
    (x + 0.5).Floor
  }

  /** Twice what the average rate uses in a refill interval. */
  function Target(rate: real, refillSec: real): int {
    Round(rate * refillSec * 2.0)
  }

  /** The target is the integer nearest to twice the rate times the interval; halves go up. */
  lemma TargetIsNearest(rate: real, refillSec: real)
    ensures Target(rate, refillSec) as real - 0.5 <= rate * refillSec + rate * refillSec
    ensures rate * refillSec + rate * refillSec < Target(rate, refillSec) as real + 0.5
  {
  }

  /** Into [low, high]; the lower limit wins when the two are out of order. */
  function Clamp(x: int, low: nat, high: nat): (r: nat)
    ensures low <= high ==> low <= r <= high
    ensures low <= x <= high ==> r == x
  {
    if x < low then low else if x > high then high else x
  }

  class AdaptiveSizer {
    const alpha: real
    const minBorrow: nat
    const maxBorrow: nat
    const refillSec: real
    const enabled: bool
    var emaRate: real
    var hasData: bool
    ghost var history: seq<nat>

    ghost predicate Valid()
      reads this
    {
      && 0.0 <= alpha <= 1.0 && refillSec >= 0.0
      && emaRate == Ema(alpha, history) && (hasData <==> history != [])
    }

    constructor (alpha: real, minBorrow: nat, maxBorrow: nat, refillSec: real, enabled: bool)
      requires 0.0 <= alpha <= 1.0 && refillSec >= 0.0
      ensures Valid() && history == []
      ensures this.minBorrow == minBorrow && this.maxBorrow == maxBorrow && this.enabled == enabled
    {
      this.alpha, this.minBorrow, this.maxBorrow := alpha, minBorrow, maxBorrow;
      this.refillSec, this.enabled := refillSec, enabled;
      emaRate, hasData, history := 0.0, false, [];
    }

    method Record(consumed: nat)
      requires Valid()
      modifies this
      ensures Valid() && history == old(history) + [consumed]
    {
      emaRate := alpha * consumed as real + (1.0 - alpha) * emaRate;
      hasData := true;
      history := history + [consumed];
      assert history[..|history| - 1] == old(history);
    }

    method Reset()
      requires Valid()
      modifies this
      ensures Valid() && history == []
    {
      emaRate, hasData, history := 0.0, false, [];
    }

    /** What the next borrow should be: the upper limit until there is something to go by. */
    ghost function Size(): nat
      reads this
    {
      if !enabled || history == [] then maxBorrow
      else Clamp(Target(Ema(alpha, history), refillSec), minBorrow, maxBorrow)
    }

    method ComputeBorrowSize() returns (size: nat)
      requires Valid()
      ensures size == Size()
      ensures minBorrow <= maxBorrow ==> (enabled && hasData ==> minBorrow <= size) && size <= maxBorrow
      ensures size <= if minBorrow <= maxBorrow then maxBorrow else minBorrow
    {
      if !enabled || !hasData {
        return maxBorrow;
      }
      NotNegative();
      var result: nat := Target(emaRate, refillSec);
      if result < minBorrow {
        return minBorrow;
      }
      if result > maxBorrow {
        return maxBorrow;
      }
      return result;
    }

    /** Within the limits, a size is nearest to what the weighted average uses in two intervals. */
    lemma SizeIsNearest()
      requires Valid() && enabled && history != [] && minBorrow < Size() < maxBorrow
      ensures var used := Weighted(alpha, history, |history|) * refillSec;
        Size() as real - 0.5 <= used + used < Size() as real + 0.5
    {
      EmaIsWeighted(alpha, history);
      TargetIsNearest(Ema(alpha, history), refillSec);
    }

    /** The conversion to an unsigned integer never sees a negative number. */
    lemma NotNegative()
      requires Valid()
      ensures Target(emaRate, refillSec) >= 0
    {
      EmaBounded(alpha, history, Largest(history));
      Scale(refillSec, emaRate, emaRate);
      var x := emaRate * refillSec;
      assert x >= 0.0;
      assert Target(emaRate, refillSec) == Round(x * 2.0);
    }
  }

  function Largest(history: seq<nat>): (m: nat)
    ensures forall i :: 0 <= i < |history| ==> history[i] <= m
  {
    if history == [] then 0
    else
      var rest := Largest(history[..|history| - 1]);
      if history[|history| - 1] > rest then history[|history| - 1] else rest
  }
}
