/** The per-instance bucket object: atomic token counter, window start, bypass flag, recorded
    consumption (local.go, window.go, bucket.go). */
module Buckets {
  import opened Windows
  import opened Words
  import Protocol

  /** What the machine stores for a sum or difference of two int64 values. */
  function Stored(x: int): int {
    if x >= TWO_63 then x - TWO_64 else if x < 0 - TWO_63 then x + TWO_64 else x
  }

  /** It is the number modulo 2^64, read as signed. */
  lemma StoredIsWrapped(x: int)
    requires 0 - TWO_64 <= x < TWO_64
    ensures Stored(x) == Signed(Wrap(x))
  {
    if x < 0 {
      WrapOnce(x);
    }
  }

  predicate IsInt64(x: int) {
    0 - TWO_63 <= x < TWO_63
  }

  /** What a successful tryConsume leaves behind. */
  function Consumed(tokens: int, n: U64): int {
    Stored(tokens - Signed(n))
  }

  /** A successful tryConsume means that n tokens were there, and leaves exactly the rest, if and
      only if n fits an int64; from 2^63 on the conversion turns negative and every bucket agrees. */
  lemma ConsumeCoveredIff(tokens: int, n: U64)
    requires 0 <= tokens < TWO_63
    requires tokens >= Signed(n)
    ensures n <= tokens && Consumed(tokens, n) == tokens - n <==> n < TWO_63
  {
    if n < TWO_63 {
      assert Consumed(tokens, n) == tokens - n;
    }
  }

  /** The concrete case: 2^63 tokens asked of an empty bucket are granted. */
  lemma HugeRequestSucceeds()
    ensures 0 >= Signed(TWO_63) && Consumed(0, TWO_63) == 0 - TWO_63
  {
  }

  /** The number of tokens below which a bucket is worth filling up: at least one. */
  function Trigger(minBorrow: nat, threshold: real): (t: nat)
    requires threshold >= 0.0
    ensures t >= 1 && (t as real <= minBorrow as real * threshold || t == 1)
    ensures minBorrow as real * threshold < t as real + 1.0
  {
    var share := minBorrow as real * threshold;
    assert share >= 0.0 by { Shares(minBorrow as real, threshold); }
    if share.Floor == 0 then 1 else share.Floor
  }

  lemma Shares(a: real, b: real)
    requires a >= 0.0 && b >= 0.0
    ensures a * b >= 0.0
  {
  }

  class Bucket {
    var tokens: int
    var windowStart: int
    var redisExhausted: bool
    var consumed: nat
    var lastAccess: int
    var preBorrowing: bool

    constructor (nowMs: int)
      ensures Matches(Protocol.NewBucket())
      ensures lastAccess == nowMs && !preBorrowing
    {
      new;
      Init(nowMs);
    }

    /** newBucket's initial contents. */
    method Init(nowMs: int)
      modifies this
      ensures Matches(Protocol.NewBucket())
      ensures lastAccess == nowMs && !preBorrowing
    {
      tokens, windowStart, redisExhausted, consumed := 0, 0, false, 0;
      lastAccess, preBorrowing := nowMs, false;
    }

    /** The object holds exactly what the protocol's bucket holds. */
    ghost predicate Matches(b: Protocol.BucketState)
      reads this
    {
      tokens == b.tokens && windowStart == b.start && redisExhausted == b.exhausted && consumed == b.consumed
    }

    /** The compare-and-swap loop, as the one atomic step it amounts to. */
    method TryConsume(n: U64) returns (ok: bool)
      requires IsInt64(tokens)
      modifies this`tokens
      ensures ok == (old(tokens) >= Signed(n))
      ensures tokens == if ok then Consumed(old(tokens), n) else old(tokens)
      ensures IsInt64(tokens)
    {
      var amount := Signed(n);
      var current := tokens;
      if current < amount {
        return false;
      }
      tokens := Stored(current - amount);
      return true;
    }

    method Refill(n: U64)
      requires IsInt64(tokens)
      modifies this`tokens
      ensures tokens == Stored(old(tokens) + Signed(n)) && IsInt64(tokens)
    {
      tokens := Stored(tokens + Signed(n));
    }

    method Remaining() returns (r: nat)
      ensures r == if tokens < 0 then 0 else tokens
    {
      if tokens < 0 {
        return 0;
      }
      r := tokens;
    }

    method Drain() returns (r: nat)
      modifies this`tokens
      ensures tokens == 0
      ensures r == if old(tokens) < 0 then 0 else old(tokens)
    {
      var was := tokens;
      tokens := 0;
      r := if was < 0 then 0 else was;
    }

    /** What an answered window reset does to the bucket. */
    method Restart(newStart: int)
      modifies this
      ensures Matches(Protocol.BucketState(0, newStart, false, 0))
      ensures lastAccess == old(lastAccess) && preBorrowing == old(preBorrowing)
    {
      var drained := Drain();
      redisExhausted := false;
      consumed := 0;
      windowStart := newStart;
    }

    /** The callback that receives a Redis grant. */
    method TakeGrant(n: U64)
      requires IsInt64(tokens)
      modifies this`tokens, this`redisExhausted
      ensures !redisExhausted
      ensures tokens == Stored(old(tokens) + Signed(n)) && IsInt64(tokens)
    {
      redisExhausted := false;
      Refill(n);
    }

    /** The mark that keeps pre-borrows of a bucket to one at a time, and the janitor away. */
    method TryMarkPreBorrowing() returns (ok: bool)
      modifies this`preBorrowing
      ensures preBorrowing && ok == !old(preBorrowing)
    {
      ok := !preBorrowing;
      preBorrowing := true;
    }

    method ClearPreBorrowing()
      modifies this`preBorrowing
      ensures !preBorrowing
    {
      preBorrowing := false;
    }

    /** Few enough tokens are left to borrow ahead: fewer than the share of the smallest borrow that
        is left after truncation, and in any case none. */
    method BelowPreBorrowThreshold(minBorrow: nat, threshold: real) returns (below: bool)
      requires threshold >= 0.0
      ensures below <==> tokens < Trigger(minBorrow, threshold)
    {
      var remaining := Remaining();
      below := remaining < Trigger(minBorrow, threshold);
    }

    method NeedsReset(nowMs: int, windowMs: int) returns (due: bool)
      ensures due == Due(windowStart, windowMs, nowMs)
    {
      due := nowMs >= windowStart + windowMs;
    }

    /** The idle eviction policy, in milliseconds. */
    method Idle(nowMs: int, idleTimeoutMs: int) returns (idle: bool)
      ensures idle <==> nowMs > lastAccess + idleTimeoutMs
    {
      idle := nowMs - lastAccess > idleTimeoutMs;
    }
  }

  /** A donation between two buckets: the transferer's clamp and tryConsume on the donor and, if the
      reply arrives, the receiver's refill. */
  method Hand(donor: Bucket, receiver: Bucket, amount: U64, arrives: bool) returns (got: nat)
    requires donor != receiver && IsInt64(donor.tokens) && IsInt64(receiver.tokens)
    modifies donor`tokens, receiver`tokens
    ensures got == if old(donor.tokens) < 0 then 0 else Protocol.Min(amount, old(donor.tokens))
    ensures donor.tokens == old(donor.tokens) - got
    ensures receiver.tokens == if arrives then Stored(old(receiver.tokens) + got) else old(receiver.tokens)
  {
    var remaining := donor.Remaining();
    got := if amount > remaining then remaining else amount;
    if got > 0 {
      var taken := donor.TryConsume(got);
    }
    if arrives {
      receiver.Refill(got);
    }
  }
}
