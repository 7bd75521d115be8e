/** One request, as values: what each uninterrupted piece of AllowN makes of the protocol state,
    and the properties every piece keeps.

    The pieces are the window reset, a Redis borrow, a peer donation, a consumption and an
    eviction.  The properties are the bypass flag's meaning and the bound on leaked tokens. */
module Requests {
  import opened Sums
  import opened Windows
  import opened Protocol

  /** Whether a message got through: answered, lost before it had an effect, or after. */
  datatype Reply = Answered | LostBefore | LostAfter

  predicate Known(m: State, i: nat) {
    i in m.live && m.live[i] < |m.buckets|
  }

  function BucketOf(m: State, i: nat): BucketState
    requires Known(m, i)
  {
    m.buckets[m.live[i]]
  }

  /** Every live bucket is a bucket, and no two instances share one. */
  predicate Separate(m: State) {
    && (forall i :: i in m.live ==> Known(m, i))
    && (forall i, j :: i in m.live && j in m.live && i != j ==> m.live[i] != m.live[j])
  }

  function PutOf(m: State, i: nat, x: BucketState): State
    requires Known(m, i)
  {
    Put(m, m.live[i], x)
  }

  // ---------------------------------------------------------------- the pieces

  /** resetWindow of instance i at time now. */
  ghost function ResetOutcome(m: State, i: nat, limit: nat, window: int, now: int, reply: Reply): State
    requires Known(m, i) && window > 0
  {
    var w := Aligned(now, window);
    if BucketOf(m, i).start >= w || reply == LostBefore then m
    else
      var r := Reopened(m, limit, w);
      if reply == LostAfter then r
      else PutOf(r, i, BucketState(0, w, false, 0)).(burned := r.burned + BucketOf(m, i).tokens)
  }

  /** The borrow manager's Acquire for instance i asking Redis for `requested`. */
  ghost function BorrowOutcome(m: State, i: nat, requested: nat, reply: Reply): State
    requires Known(m, i)
  {
    var g := GrantOf(m, requested);
    var b := BucketOf(m, i);
    if reply == LostBefore || g == 0 then m
    else if reply == LostAfter then
      m.(pool := m.pool - g, flights := m.flights + [Lost], burned := m.burned + g)
    else
      PutOf(m, i, b.(tokens := b.tokens + g, exhausted := false))
        .(pool := m.pool - g, flights := m.flights + [Delivered])
  }

  /** Peer j hands `amount` of its tokens to instance i. */
  ghost function DonateOutcome(m: State, i: nat, j: nat, amount: nat, reply: Reply): State
    requires Known(m, i) && Known(m, j) && i != j
    requires 0 < amount <= BucketOf(m, j).tokens
  {
    var d := PutOf(m, j, BucketOf(m, j).(tokens := BucketOf(m, j).tokens - amount));
    if reply != Answered then d.(flights := d.flights + [Lost], burned := d.burned + amount)
    else PutOf(d, i, BucketOf(m, i).(tokens := BucketOf(m, i).tokens + amount))
           .(flights := d.flights + [Delivered])
  }

  /** What server j can spare of `need`: it keeps its reserve. */
  function Spare(m: State, j: nat, need: nat, reserved: nat): nat
    requires Known(m, j)
  {
    if BucketOf(m, j).tokens <= reserved then 0 else Min(need, BucketOf(m, j).tokens - reserved)
  }

  /** One probe of server j for instance i. */
  ghost function ProbeOutcome(m: State, i: nat, j: nat, need: nat, reserved: nat, reply: Reply): State
    requires Known(m, i) && Known(m, j) && i != j
  {
    var spare := Spare(m, j, need, reserved);
    if reply == LostBefore || spare == 0 then m else DonateOutcome(m, i, j, spare, reply)
  }

  /** What the prober receives. */
  function ProbeAnswer(m: State, j: nat, need: nat, reserved: nat, reply: Reply): nat
    requires Known(m, j)
  {
    if reply == Answered then Spare(m, j, need, reserved) else 0
  }

  /** A ranked peer: its instance, whether the mesh knows it, and what becomes of the messages. */
  datatype Peer = Peer(id: nat, reachable: bool, reply: Reply)

  /** One turn of the sequential probing loop: the server looks its bucket up and is asked. */
  ghost function ProbePeer(m: State, i: nat, p: Peer, instances: nat, need: nat, reserved: nat): (State, nat)
    requires Known(m, i)
  {
    var l := LookupOutcome(m, p.id);
    if p.id == i || p.id >= instances || !p.reachable || p.reply == LostBefore || !Known(l, p.id) then (m, 0)
    else
      (ProbeOutcome(l, i, p.id, need, reserved, p.reply), ProbeAnswer(l, p.id, need, reserved, p.reply))
  }

  /** Sequential probing after the first c peers: it stops at the first one that gives something. */
  ghost function Probed(m: State, i: nat, peers: seq<Peer>, c: nat, instances: nat, need: nat, reserved: nat)
    : (State, nat)
    requires c <= |peers|
  {
    if c == 0 then (m, 0)
    else
      var (r, got) := Probed(m, i, peers, c - 1, instances, need, reserved);
      if got > 0 || !Known(r, i) then (r, got) else ProbePeer(r, i, peers[c - 1], instances, need, reserved)
  }

  lemma ProbedNext(m: State, i: nat, peers: seq<Peer>, c: nat, instances: nat, need: nat, reserved: nat)
    requires c < |peers|
    ensures var (r, got) := Probed(m, i, peers, c, instances, need, reserved);
      got == 0 && Known(r, i) ==>
        Probed(m, i, peers, c + 1, instances, need, reserved) ==
          ProbePeer(r, i, peers[c], instances, need, reserved)
  {
  }

  lemma {:induction false} ProbedStops(m: State, i: nat, peers: seq<Peer>, c: nat, d: nat, instances: nat, need: nat,
      reserved: nat)
    requires c <= d <= |peers| && Probed(m, i, peers, c, instances, need, reserved).1 > 0
    ensures Probed(m, i, peers, d, instances, need, reserved) == Probed(m, i, peers, c, instances, need, reserved)
  {
    if c < d {
      ProbedStops(m, i, peers, c, d - 1, instances, need, reserved);
    }
  }

  /** A donation in tokens: the donor gives as much of the need as it holds above its reserve, and
      what is not lost on the way arrives. */
  ghost predicate Donated(had: nat, has: nat, need: nat, reserved: nat) {
    && has <= had <= has + need
    && (had <= reserved ==> has == had)
    && (had > reserved && need > 0 ==> reserved <= has < had && (has == reserved || had == has + need))
  }

  lemma TransferMeans(m: State, i: nat, j: nat, need: nat, reserved: nat, reply: Reply)
    requires Known(m, i) && Known(m, j) && i != j && Separate(m)
    ensures var r := ProbeOutcome(m, i, j, need, reserved, reply);
      var had, got := BucketOf(m, j).tokens, ProbeAnswer(m, j, need, reserved, reply);
      && Separate(r) && Known(r, i) && Known(r, j) && r.live == m.live && r.pool == m.pool
      && (if reply == LostBefore then r == m else Donated(had, BucketOf(r, j).tokens, need, reserved))
      && got == (if reply == Answered then had - BucketOf(r, j).tokens else 0)
      && BucketOf(r, i) == BucketOf(m, i).(tokens := BucketOf(m, i).tokens + got)
      && (forall k :: k in m.live && k != i && k != j ==> BucketOf(r, k) == BucketOf(m, k))
  {
  }

  /** No other instance ends below the smaller of what it had and the reserve. */
  ghost predicate KeepsReserve(m: State, r: State, i: nat, reserved: nat) {
    forall j :: j != i ==> BucketOfOr(r, j) >= Min(BucketOfOr(m, j), reserved)
  }

  lemma ProbeKeepsReserve(m: State, i: nat, p: Peer, instances: nat, need: nat, reserved: nat)
    requires Separate(m) && Known(m, i)
    ensures var (r, got) := ProbePeer(m, i, p, instances, need, reserved);
      Separate(r) && Known(r, i) && KeepsReserve(m, r, i, reserved)
  {
    var l := LookupOutcome(m, p.id);
    assert forall j :: j != i ==> BucketOfOr(l, j) == BucketOfOr(m, j);
    if p.id != i && p.id < instances && p.reachable && p.reply != LostBefore {
      TransferMeans(l, i, p.id, need, reserved, p.reply);
      var r := ProbeOutcome(l, i, p.id, need, reserved, p.reply);
      forall j | j != i
        ensures BucketOfOr(r, j) >= Min(BucketOfOr(m, j), reserved)
      {
        assert j in l.live ==> Known(l, j);
        assert j in r.live ==> Known(r, j);
      }
    }
  }

  lemma {:induction false} ProbingKeepsReserve(m: State, i: nat, peers: seq<Peer>, c: nat, instances: nat, need: nat,
      reserved: nat)
    requires Separate(m) && Known(m, i) && c <= |peers|
    ensures var (r, got) := Probed(m, i, peers, c, instances, need, reserved);
      Separate(r) && Known(r, i) && KeepsReserve(m, r, i, reserved)
  {
    if c > 0 {
      ProbingKeepsReserve(m, i, peers, c - 1, instances, need, reserved);
      var (mid, got) := Probed(m, i, peers, c - 1, instances, need, reserved);
      if got == 0 {
        ProbeKeepsReserve(mid, i, peers[c - 1], instances, need, reserved);
      }
    }
  }

  /** A successful tryConsume(n) and its recorded consumption. */
  ghost function ConsumeOutcome(m: State, i: nat, n: nat): State
    requires Known(m, i) && n <= BucketOf(m, i).tokens
  {
    var b := BucketOf(m, i);
    PutOf(m, i, b.(tokens := b.tokens - n, consumed := b.consumed + n))
      .(admitted := m.admitted + n, sinceReset := m.sinceReset + n)
  }

  /** MarkRedisExhausted. */
  ghost function FlagOutcome(m: State, i: nat): State
    requires Known(m, i)
  {
    PutOf(m, i, BucketOf(m, i).(exhausted := true))
  }

  /** getOrCreateBucket. */
  ghost function LookupOutcome(m: State, i: nat): State {
    if i in m.live then m else Step(m, Create(i))
  }

  /** The janitor drops an idle bucket that no goroutine points to. */
  ghost function EvictOutcome(m: State, i: nat): State
    requires Known(m, i)
  {
    PutOf(m, i, BucketOf(m, i).(tokens := 0))
      .(live := m.live - {i}, burned := m.burned + BucketOf(m, i).tokens)
  }

  /** What a request that its bucket does not cover finds at the start of its loop. */
  ghost function OpeningOutcome(m: State, i: nat, limit: nat, window: int, now: int, reply: Reply): State
    requires window > 0 && Separate(m)
  {
    var l := LookupOutcome(m, i);
    if Due(BucketOf(l, i).start, window, now) then ResetOutcome(l, i, limit, window, now, reply) else l
  }

  /** What is there for instance i without asking peers. */
  function Backing(m: State, i: nat): nat {
    m.pool + BucketOfOr(m, i)
  }

  /** What a request of instance i can count on: its bucket and the pool, the window turned if due. */
  ghost function Prospect(m: State, i: nat, limit: nat, window: int, now: int): nat
    requires window > 0
  {
    if Separate(m) then Backing(OpeningOutcome(m, i, limit, window, now, Answered), i) else 0
  }

  /** Borrowing moves tokens from the one to the other. */
  lemma BorrowBacking(m: State, i: nat, requested: nat)
    requires Known(m, i)
    ensures Known(BorrowOutcome(m, i, requested, Answered), i)
    ensures Backing(BorrowOutcome(m, i, requested, Answered), i) == Backing(m, i)
    ensures Backing(FlagOutcome(m, i), i) == Backing(m, i)
  {
  }

  /** The four writes of an answered reset to bucket k amount to one. */
  lemma ResetWrites(m: State, k: nat, w: int)
    requires IsBucket(m, k)
    ensures var m1 := Step(m, Drain(k));
      var m2 := Step(m1, SetExhausted(k, false));
      var m3 := Step(m2, ClearConsumed(k));
      Step(m3, MoveWindow(k, w)) ==
        Put(m, k, BucketState(0, w, false, 0)).(burned := m.burned + m.buckets[k].tokens)
  {
  }

  /** An answered reset of a window that is over: the bucket is empty and stands at the new window, the
      pool is full again if this is the first to say so, and nobody else notices. */
  lemma ResetMeans(m: State, i: nat, limit: nat, window: int, now: int)
    requires Separate(m) && Known(m, i) && window > 0 && BucketOf(m, i).start < Aligned(now, window)
    ensures var r, w := ResetOutcome(m, i, limit, window, now, Answered), Aligned(now, window);
      && Known(r, i) && r.live == m.live && BucketOf(r, i) == BucketState(0, w, false, 0)
      && r.pool == (if m.windowStart < w then limit else m.pool)
      && r.burned == m.burned + BucketOf(m, i).tokens
      && (forall j :: j in m.live && j != i ==> BucketOf(r, j) == BucketOf(m, j))
  {
  }

  /** The three actions of an answered borrow amount to one update. */
  lemma BorrowWrites(m: State, i: nat, requested: nat)
    requires Known(m, i) && GrantOf(m, requested) > 0
    ensures var k, f := m.live[i], |m.flights|;
      var m1 := Step(m, Borrow(requested));
      && IsFlying(m1, f) && m1.flights[f].amount == GrantOf(m, requested)
      && Step(m1, Lose(f)) == BorrowOutcome(m, i, requested, LostAfter)
      && Step(Step(m1, SetExhausted(k, false)), Refill(k, f)) == BorrowOutcome(m, i, requested, Answered)
  {
    var f := |m.flights|;
    var m1 := Step(m, Borrow(requested));
    assert m1.flights[f := Lost] == m.flights + [Lost];
    assert m1.flights[f := Delivered] == m.flights + [Delivered];
  }

  /** Other instances' buckets stay what they are. */
  lemma BorrowFrame(m: State, i: nat, requested: nat, reply: Reply)
    requires Known(m, i) && Separate(m)
    ensures var r := BorrowOutcome(m, i, requested, reply);
      && Separate(r) && r.live == m.live
      && (forall j :: j in m.live && j != i ==> BucketOf(r, j) == BucketOf(m, j))
  {
  }

  /** A donation touches the two buckets' balances. */
  lemma DonateFrame(m: State, i: nat, j: nat, amount: nat, reply: Reply)
    requires Known(m, i) && Known(m, j) && i != j && Separate(m)
    requires 0 < amount <= BucketOf(m, j).tokens
    ensures var r := DonateOutcome(m, i, j, amount, reply);
      && Separate(r) && r.live == m.live && r.pool == m.pool && r.windowStart == m.windowStart
      && BucketOf(r, j) == BucketOf(m, j).(tokens := BucketOf(m, j).tokens - amount)
      && BucketOf(r, i) == BucketOf(m, i)
           .(tokens := BucketOf(m, i).tokens + if reply == Answered then amount else 0)
      && (forall k :: k in m.live && k != i && k != j ==> BucketOf(r, k) == BucketOf(m, k))
  {
  }

  /** The actions of a donation amount to one update. */
  lemma DonateWrites(m: State, i: nat, j: nat, amount: nat)
    requires Known(m, i) && Known(m, j) && i != j && Separate(m)
    requires 0 < amount <= BucketOf(m, j).tokens
    ensures var f := |m.flights|;
      var m1 := Step(m, Donate(m.live[j], amount));
      && IsFlying(m1, f) && m1.flights[f].amount == amount
      && Step(m1, Lose(f)) == DonateOutcome(m, i, j, amount, LostAfter)
      && Step(m1, Refill(m.live[i], f)) == DonateOutcome(m, i, j, amount, Answered)
  {
    var f := |m.flights|;
    var m1 := Step(m, Donate(m.live[j], amount));
    assert m1.flights[f := Lost] == m.flights + [Lost];
    assert m1.flights[f := Delivered] == m.flights + [Delivered];
  }

  // ---------------------------------------------------------------- the bypass flag

  /** With one clock for everyone: Redis's window has begun, no bucket is ahead of Redis, and a
      bucket flagged exhausted either looks at an empty pool or is behind Redis's window. */
  predicate Bypass(m: State, window: int, clock: int)
    requires window > 0
  {
    && Separate(m)
    && clock >= 0
    && m.windowStart % window == 0
    && 0 <= m.windowStart <= Aligned(clock, window)
    && forall i :: i in m.live ==>
         var b := BucketOf(m, i);
         && b.start % window == 0 && 0 <= b.start <= m.windowStart
         && (b.exhausted ==> m.pool == 0 || b.start < m.windowStart)
  }

  /** Bypass-flag soundness: a flagged bucket that is not due for a reset means an empty pool. */
  lemma FlagMeansEmpty(m: State, window: int, clock: int, now: int, i: nat)
    requires window > 0 && Bypass(m, window, clock) && clock <= now
    requires i in m.live && BucketOf(m, i).exhausted && !Due(BucketOf(m, i).start, window, now)
    ensures m.pool == 0
  {
    AlignedMonotone(clock, now, window);
    AlignedIsFloor(now, window);
    if BucketOf(m, i).start < m.windowStart {
      MultiplesApart(BucketOf(m, i).start, m.windowStart, window);
    }
  }

  lemma BypassTicks(m: State, window: int, clock: int, now: int)
    requires window > 0 && Bypass(m, window, clock) && clock <= now
    ensures Bypass(m, window, now)
  {
    AlignedMonotone(clock, now, window);
  }

  lemma ResetKeepsBypass(m: State, i: nat, limit: nat, window: int, now: int, reply: Reply)
    requires window > 0 && Bypass(m, window, now) && i in m.live
    ensures Bypass(ResetOutcome(m, i, limit, window, now, reply), window, now)
  {
    AlignedIsFloor(now, window);
  }

  lemma BorrowKeepsBypass(m: State, i: nat, requested: nat, reply: Reply, window: int, now: int)
    requires window > 0 && Bypass(m, window, now) && i in m.live
    ensures Bypass(BorrowOutcome(m, i, requested, reply), window, now)
  {
  }

  lemma DonateKeepsBypass(m: State, i: nat, j: nat, amount: nat, reply: Reply, window: int, now: int)
    requires window > 0 && Bypass(m, window, now) && i in m.live && j in m.live && i != j
    requires 0 < amount <= BucketOf(m, j).tokens
    ensures Bypass(DonateOutcome(m, i, j, amount, reply), window, now)
  {
  }

  lemma ConsumeKeepsBypass(m: State, i: nat, n: nat, window: int, now: int)
    requires window > 0 && Bypass(m, window, now) && i in m.live && n <= BucketOf(m, i).tokens
    ensures Bypass(ConsumeOutcome(m, i, n), window, now)
  {
  }

  lemma FlagKeepsBypass(m: State, i: nat, window: int, now: int)
    requires window > 0 && Bypass(m, window, now) && i in m.live && m.pool == 0
    ensures Bypass(FlagOutcome(m, i), window, now)
  {
  }

  lemma LookupKeepsBypass(m: State, i: nat, window: int, now: int)
    requires window > 0 && Bypass(m, window, now)
    ensures Bypass(LookupOutcome(m, i), window, now)
  {
    if i !in m.live {
      var r := LookupOutcome(m, i);
      assert BucketOf(r, i) == NewBucket();
      assert 0 % window == 0 by { MultipleModZero(0, window); }
      forall j | j in m.live
        ensures BucketOf(r, j) == BucketOf(m, j)
      {
      }
    }
  }

  lemma EvictKeepsBypass(m: State, i: nat, window: int, now: int)
    requires window > 0 && Bypass(m, window, now) && i in m.live
    ensures Bypass(EvictOutcome(m, i), window, now)
  {
  }

  // ---------------------------------------------------------------- leaked tokens

  /** Between requests: no bucket holds more than cap, orphans and the wire hold nothing, and
      only instances of the fleet have buckets. */
  predicate Snug(m: State, instances: nat, cap: nat) {
    && Separate(m)
    && (forall i :: i in m.live ==> i < instances)
    && LiveWithin(m.buckets, m.live, cap)
    && OrphansEmpty(m.buckets, m.live)
    && (forall f :: 0 <= f < |m.flights| ==> !m.flights[f].InTransit?)
  }

  /** Only live instances' buckets hold tokens. */
  predicate OrphansEmpty(buckets: seq<BucketState>, live: map<nat, nat>) {
    forall k :: 0 <= k < |buckets| && k !in live.Values ==> buckets[k].tokens == 0
  }

  predicate LiveWithin(buckets: seq<BucketState>, live: map<nat, nat>, cap: nat) {
    forall i :: i in live ==> live[i] < |buckets| && buckets[live[i]].tokens <= cap
  }

  /** Emptying the bucket of i makes i dispensable. */
  lemma Dispense(buckets: seq<BucketState>, live: map<nat, nat>, cap: nat, i: nat)
    requires i in live && OrphansEmpty(buckets, live) && LiveWithin(buckets, live, cap)
    ensures var fewer := buckets[live[i] := buckets[live[i]].(tokens := 0)];
      && OrphansEmpty(fewer, live - {i}) && LiveWithin(fewer, live - {i}, cap)
      && SumBy(Held, buckets) == SumBy(Held, fewer) + buckets[live[i]].tokens
      && |live - {i}| == |live| - 1
  {
    var emptied := buckets[live[i]].(tokens := 0);
    var fewer := buckets[live[i] := emptied];
    var rest := live - {i};
    forall k | 0 <= k < |fewer| && fewer[k].tokens != 0
      ensures k in rest.Values
    {
      assert k in live.Values;
      var j :| j in live && live[j] == k;
      assert j in rest && rest[j] == k;
    }
    SumUpdate(Held, buckets, live[i], emptied);
    assert rest.Keys == live.Keys - {i};
    assert |rest.Keys| == |rest| && |live.Keys| == |live|;
  }

  lemma NoHoldings(buckets: seq<BucketState>, live: map<nat, nat>)
    requires OrphansEmpty(buckets, live) && live.Keys == {}
    ensures SumBy(Held, buckets) == 0
  {
    forall x | x in buckets
      ensures Held(x) <= 0
    {
      var k :| 0 <= k < |buckets| && buckets[k] == x;
      assert k !in live.Values;
    }
    SumAtMost(Held, buckets, 0);
  }

  /** Buckets that only live instances fill hold at most cap per instance. */
  lemma {:induction false} LiveHoldings(buckets: seq<BucketState>, live: map<nat, nat>, cap: nat)
    requires OrphansEmpty(buckets, live) && LiveWithin(buckets, live, cap)
    ensures SumBy(Held, buckets) <= |live| * cap
    decreases |live|
  {
    if live.Keys == {} {
      NoHoldings(buckets, live);
    } else {
      var i :| i in live;
      var fewer := buckets[live[i] := buckets[live[i]].(tokens := 0)];
      Dispense(buckets, live, cap, i);
      LiveHoldings(fewer, live - {i}, cap);
      OneMore(|live|, cap);
    }
  }

  lemma OneMore(n: nat, cap: nat)
    requires n > 0
    ensures n * cap == (n - 1) * cap + cap
  {
  }

  /** A set of instance numbers below n has at most n members. */
  lemma {:induction false} AtMostInstances(s: set<nat>, n: nat)
    requires forall i :: i in s ==> i < n
    ensures |s| <= n
  {
    if n == 0 {
      assert s == {};
    } else {
      AtMostInstances(s - {n - 1}, n - 1);
    }
  }

  lemma NothingFlying(m: State)
    requires forall f :: 0 <= f < |m.flights| ==> !m.flights[f].InTransit?
    ensures SumBy(Carried, m.flights) == 0
  {
    SumAtMost(Carried, m.flights, 0);
  }

  lemma WithinAll(x: int, some: int, all: int, cap: nat)
    requires x <= some * cap && some <= all
    ensures x <= all * cap
  {
    MulMonotone(cap, some, all);
  }

  lemma LiveCount(m: State, instances: nat)
    requires forall i :: i in m.live ==> i < instances
    ensures |m.live| <= instances
  {
    AtMostInstances(m.live.Keys, instances);
    assert |m.live.Keys| == |m.live|;
  }

  lemma SnugOutstanding(m: State, instances: nat, cap: nat)
    requires Snug(m, instances, cap)
    ensures Outstanding(m) <= instances * cap
  {
    NothingFlying(m);
    LiveHoldings(m.buckets, m.live, cap);
    LiveCount(m, instances);
    WithinAll(SumBy(Held, m.buckets), |m.live|, instances, cap);
  }

  /** An answered reset by instance i empties i's bucket: only the others leak into the window. */
  lemma ResetPotential(m: State, i: nat, limit: nat, window: int, now: int, reply: Reply, instances: nat, cap: nat)
    requires window > 0 && i in m.live && Snug(m, instances, cap)
    ensures var r := ResetOutcome(m, i, limit, window, now, reply);
      && Snug(r, instances, cap)
      && (r == m || Potential(r) <= Potential(m) ||
          Potential(r) <= LeakCap(limit, instances, cap, reply))
  {
    var r := ResetOutcome(m, i, limit, window, now, reply);
    var w := Aligned(now, window);
    var mid := Reopened(m, limit, w);
    SnugOutstanding(m, instances, cap);
    SharesAre(instances, cap);
    SharesAre(instances - 1, cap);
    if r != m && reply == Answered {
      PutOutstanding(mid, m.live[i], BucketState(0, w, false, 0));
      OthersOutstanding(m, i, instances, cap);
    }
  }

  /** All but one instance's holdings. */
  lemma OthersHold(buckets: seq<BucketState>, live: map<nat, nat>, cap: nat, i: nat)
    requires i in live && OrphansEmpty(buckets, live) && LiveWithin(buckets, live, cap)
    ensures SumBy(Held, buckets) - buckets[live[i]].tokens <= (|live| - 1) * cap
  {
    Dispense(buckets, live, cap, i);
    LiveHoldings(buckets[live[i] := buckets[live[i]].(tokens := 0)], live - {i}, cap);
  }

  lemma OthersOutstanding(m: State, i: nat, instances: nat, cap: nat)
    requires i in m.live && Snug(m, instances, cap)
    ensures Outstanding(m) - BucketOf(m, i).tokens <= (instances - 1) * cap
  {
    NothingFlying(m);
    OthersHold(m.buckets, m.live, cap, i);
    LiveCount(m, instances);
    WithinAll(SumBy(Held, m.buckets) - m.buckets[m.live[i]].tokens, |m.live| - 1, instances - 1, cap);
  }

  /** Snug, but for what instance i itself holds while it is being served. */
  predicate SnugBut(m: State, i: nat, instances: nat, cap: nat) {
    && Separate(m) && i in m.live
    && (forall j :: j in m.live ==> j < instances)
    && (forall j :: j in m.live && j != i ==> BucketOf(m, j).tokens <= cap)
    && OrphansEmpty(m.buckets, m.live)
    && (forall f :: 0 <= f < |m.flights| ==> !m.flights[f].InTransit?)
  }

  lemma SnugIsSnugBut(m: State, i: nat, instances: nat, cap: nat)
    requires i in m.live && Separate(m)
    ensures Snug(m, instances, cap) <==> SnugBut(m, i, instances, cap) && BucketOf(m, i).tokens <= cap
  {
    if SnugBut(m, i, instances, cap) && BucketOf(m, i).tokens <= cap {
      forall j | j in m.live
        ensures m.live[j] < |m.buckets| && m.buckets[m.live[j]].tokens <= cap
      {
        assert j != i ==> BucketOf(m, j).tokens <= cap;
      }
    }
    if Snug(m, instances, cap) {
      forall j | j in m.live && j != i
        ensures BucketOf(m, j).tokens <= cap
      {
        assert m.buckets[m.live[j]].tokens <= cap;
      }
    }
  }

  /** Borrowing moves tokens out of the pool and into i's bucket, or loses them. */
  lemma BorrowLeak(m: State, i: nat, requested: nat, reply: Reply, instances: nat, cap: nat)
    requires SnugBut(m, i, instances, cap)
    ensures SnugBut(BorrowOutcome(m, i, requested, reply), i, instances, cap)
  {
  }

  /** A donation moves tokens between buckets, or loses them. */
  lemma DonateLeak(m: State, i: nat, j: nat, amount: nat, reply: Reply, instances: nat, cap: nat)
    requires SnugBut(m, i, instances, cap) && j in m.live && i != j
    requires 0 < amount <= BucketOf(m, j).tokens
    ensures SnugBut(DonateOutcome(m, i, j, amount, reply), i, instances, cap)
  {
  }

  lemma DonatePotential(m: State, i: nat, j: nat, amount: nat, reply: Reply)
    requires Separate(m) && i in m.live && j in m.live && i != j
    requires 0 < amount <= BucketOf(m, j).tokens
    ensures Potential(DonateOutcome(m, i, j, amount, reply)) <= Potential(m)
  {
    var d := PutOf(m, j, BucketOf(m, j).(tokens := BucketOf(m, j).tokens - amount));
    PutOutstanding(m, m.live[j], d.buckets[m.live[j]]);
    if reply == Answered {
      PutOutstanding(d, m.live[i], BucketOf(m, i).(tokens := BucketOf(m, i).tokens + amount));
      SumAppend(Carried, m.flights, Delivered);
    } else {
      SumAppend(Carried, m.flights, Lost);
    }
  }

  lemma ConsumeLeak(m: State, i: nat, n: nat, instances: nat, cap: nat)
    requires SnugBut(m, i, instances, cap) && n <= BucketOf(m, i).tokens
    ensures SnugBut(ConsumeOutcome(m, i, n), i, instances, cap)
  {
  }

  lemma FlagLeak(m: State, i: nat, instances: nat, cap: nat)
    requires SnugBut(m, i, instances, cap)
    ensures var r := FlagOutcome(m, i);
      SnugBut(r, i, instances, cap) && Potential(r) == Potential(m)
  {
    PutOutstanding(m, m.live[i], BucketOf(m, i).(exhausted := true));
  }

  lemma LookupLeak(m: State, i: nat, instances: nat, cap: nat)
    requires Snug(m, instances, cap) && i < instances
    ensures var r := LookupOutcome(m, i);
      SnugBut(r, i, instances, cap) && BucketOf(r, i).tokens <= cap && Potential(r) == Potential(m)
  {
    SumAppend(Held, m.buckets, NewBucket());
    if i in m.live {
      SnugIsSnugBut(m, i, instances, cap);
    } else {
      LookupCreates(m, i, instances, cap);
    }
  }

  lemma LookupCreates(m: State, i: nat, instances: nat, cap: nat)
    requires Snug(m, instances, cap) && i < instances && i !in m.live
    ensures SnugBut(LookupOutcome(m, i), i, instances, cap)
  {
    var r := LookupOutcome(m, i);
    assert r.live == m.live[i := |m.buckets|];
    forall k | 0 <= k < |r.buckets| && r.buckets[k].tokens != 0
      ensures k in r.live.Values
    {
      assert k in m.live.Values;
      var j :| j in m.live && m.live[j] == k;
      assert r.live[j] == k;
    }
    forall j | j in r.live && j != i
      ensures BucketOf(r, j).tokens <= cap
    {
      assert j in m.live && m.buckets[m.live[j]].tokens <= cap;
    }
  }

  lemma EvictPotential(m: State, i: nat)
    requires Known(m, i)
    ensures Potential(EvictOutcome(m, i)) <= Potential(m)
  {
    PutOutstanding(m, m.live[i], BucketOf(m, i).(tokens := 0));
  }

  /** What an eviction keeps, together. */
  lemma EvictFair(m: State, i: nat, window: int, now: int, instances: nat, cap: nat)
    requires window > 0 && Known(m, i)
    ensures var r := EvictOutcome(m, i);
      && Potential(r) <= Potential(m)
      && (Bypass(m, window, now) ==> Bypass(r, window, now))
      && (Snug(m, instances, cap) ==> Snug(r, instances, cap))
  {
    EvictPotential(m, i);
    if Bypass(m, window, now) {
      EvictKeepsBypass(m, i, window, now);
    }
    if Snug(m, instances, cap) {
      EvictLeak(m, i, instances, cap);
    }
  }

  lemma EvictLeak(m: State, i: nat, instances: nat, cap: nat)
    requires Snug(m, instances, cap) && i in m.live
    ensures Snug(EvictOutcome(m, i), instances, cap)
  {
    Dispense(m.buckets, m.live, cap, i);
  }

  // ---------------------------------------------------------------- the peer step

  /** What asking peers leaves alone: Redis, the ledger of admission, and all of i's bucket but
      the tokens it received. */
  predicate Peered(m: State, r: State, i: nat, got: nat) {
    && Known(m, i) && Known(r, i)
    && r.pool == m.pool && r.windowStart == m.windowStart && r.minted == m.minted
    && r.admitted == m.admitted
    && BucketOf(r, i) == BucketOf(m, i).(tokens := BucketOf(m, i).tokens + got)
  }

  /** The deployment a request runs in: window length, shared time, fleet size, token cap. */
  datatype Setting = Setting(window: int, now: int, instances: nat, cap: nat) {
    predicate Valid() { window > 0 }
  }

  /** A peer step is fair: it keeps what every piece of a request keeps. */
  ghost predicate Fair(m: State, r: State, i: nat, got: nat, at: Setting)
    requires at.Valid()
  {
    && Peered(m, r, i, got)
    && Potential(r) <= Potential(m)
    && (Bypass(m, at.window, at.now) ==> Bypass(r, at.window, at.now))
    && (SnugBut(m, i, at.instances, at.cap) ==> SnugBut(r, i, at.instances, at.cap))
  }

  lemma FairAfter(m: State, mid: State, r: State, i: nat, got: nat, at: Setting)
    requires at.Valid() && Fair(m, mid, i, 0, at) && Fair(mid, r, i, got, at)
    ensures Fair(m, r, i, got, at)
  {
  }

  lemma LookupFair(m: State, i: nat, j: nat, at: Setting)
    requires at.Valid() && Known(m, i) && Separate(m) && j < at.instances
    ensures Fair(m, LookupOutcome(m, j), i, 0, at)
  {
    SumAppend(Held, m.buckets, NewBucket());
    if Bypass(m, at.window, at.now) {
      LookupKeepsBypass(m, j, at.window, at.now);
    }
    if SnugBut(m, i, at.instances, at.cap) {
      LookupSnugBut(m, i, j, at.instances, at.cap);
    }
  }

  lemma LookupSnugBut(m: State, i: nat, j: nat, instances: nat, cap: nat)
    requires SnugBut(m, i, instances, cap) && j < instances
    ensures SnugBut(LookupOutcome(m, j), i, instances, cap)
  {
    if j !in m.live {
      var r := LookupOutcome(m, j);
      assert forall k :: k in m.live ==> k in r.live && r.live[k] == m.live[k];
      assert j in r.live && r.live[j] == |m.buckets|;
      forall k | 0 <= k < |r.buckets| && r.buckets[k].tokens != 0
        ensures k in r.live.Values
      {
        assert k in m.live.Values;
        var x :| x in m.live && m.live[x] == k;
        assert r.live[x] == k;
      }
    }
  }

  lemma ProbeFair(m: State, i: nat, j: nat, need: nat, reserved: nat, reply: Reply, at: Setting)
    requires at.Valid() && Separate(m) && i in m.live && j in m.live && i != j
    ensures Fair(m, ProbeOutcome(m, i, j, need, reserved, reply), i, ProbeAnswer(m, j, need, reserved, reply), at)
  {
    var amount := Spare(m, j, need, reserved);
    if reply != LostBefore && amount > 0 {
      DonatePotential(m, i, j, amount, reply);
      if Bypass(m, at.window, at.now) {
        DonateKeepsBypass(m, i, j, amount, reply, at.window, at.now);
      }
      if SnugBut(m, i, at.instances, at.cap) {
        DonateLeak(m, i, j, amount, reply, at.instances, at.cap);
      }
    }
  }

  lemma ProbePeerFair(m: State, i: nat, p: Peer, need: nat, reserved: nat, at: Setting)
    requires at.Valid() && Separate(m) && i in m.live
    ensures var (r, got) := ProbePeer(m, i, p, at.instances, need, reserved);
      Fair(m, r, i, got, at) && Separate(r) && got <= need
  {
    if p.id != i && p.id < at.instances && p.reachable && p.reply != LostBefore {
      var l := LookupOutcome(m, p.id);
      LookupFair(m, i, p.id, at);
      ProbeFair(l, i, p.id, need, reserved, p.reply, at);
      FairAfter(m, l, ProbeOutcome(l, i, p.id, need, reserved, p.reply), i,
        ProbeAnswer(l, p.id, need, reserved, p.reply), at);
    }
  }

  /** Sequential probing is fair: whatever the peers hold and whichever messages are lost, it only
      moves tokens, at most `need` of them into i's bucket, and keeps the properties of a request. */
  lemma {:induction false} ProbingFair(m: State, i: nat, peers: seq<Peer>, c: nat, need: nat, reserved: nat,
      at: Setting)
    requires at.Valid() && Separate(m) && i in m.live && c <= |peers|
    ensures var (r, got) := Probed(m, i, peers, c, at.instances, need, reserved);
      Fair(m, r, i, got, at) && Separate(r) && got <= need
  {
    if c > 0 {
      ProbingFair(m, i, peers, c - 1, need, reserved, at);
      var (mid, got) := Probed(m, i, peers, c - 1, at.instances, need, reserved);
      if got == 0 {
        ProbePeerFair(mid, i, peers[c - 1], need, reserved, at);
        var (r, sum) := ProbePeer(mid, i, peers[c - 1], at.instances, need, reserved);
        FairAfter(m, mid, r, i, sum, at);
      }
    }
  }

  // ---------------------------------------------------------------- one turn of the request loop

  /** What one turn keeps: at most the request's own cost is admitted, nothing is minted, and the
      properties of the flag and of the leak survive. */
  ghost predicate Turned(m: State, r: State, i: nat, n: nat, served: bool, at: Setting)
    requires at.Valid()
  {
    && Known(m, i) && Known(r, i)
    && r.admitted == m.admitted + (if served then n else 0)
    && r.minted == m.minted
    && Potential(r) <= Potential(m)
    && (Bypass(m, at.window, at.now) ==> Bypass(r, at.window, at.now))
    && (SnugBut(m, i, at.instances, at.cap) ==> SnugBut(r, i, at.instances, at.cap))
    && (!served ==> BucketOf(r, i).tokens < n)
  }

  lemma TurnedAfter(m: State, mid: State, r: State, i: nat, n: nat, served: bool, at: Setting)
    requires at.Valid() && Turned(m, mid, i, n, false, at) && Turned(mid, r, i, n, served, at)
    ensures Turned(m, r, i, n, served, at)
  {
  }

  lemma ConsumeTurned(m: State, r: State, i: nat, n: nat, at: Setting)
    requires at.Valid() && Separate(r) && i in r.live && n <= BucketOf(r, i).tokens
    requires Known(m, i) && r.admitted == m.admitted && r.minted == m.minted && Potential(r) <= Potential(m)
    requires Bypass(m, at.window, at.now) ==> Bypass(r, at.window, at.now)
    requires SnugBut(m, i, at.instances, at.cap) ==> SnugBut(r, i, at.instances, at.cap)
    ensures Turned(m, ConsumeOutcome(r, i, n), i, n, true, at)
  {
    ConsumePotential(r, i, n);
    if Bypass(r, at.window, at.now) {
      ConsumeKeepsBypass(r, i, n, at.window, at.now);
    }
    if SnugBut(r, i, at.instances, at.cap) {
      ConsumeLeak(r, i, n, at.instances, at.cap);
    }
  }

  lemma ConsumePotential(r: State, i: nat, n: nat)
    requires Known(r, i) && n <= BucketOf(r, i).tokens
    ensures var c := ConsumeOutcome(r, i, n);
      Known(c, i) && c.admitted == r.admitted + n && c.minted == r.minted && Potential(c) == Potential(r)
  {
    var b := BucketOf(r, i);
    PutOutstanding(r, r.live[i], b.(tokens := b.tokens - n, consumed := b.consumed + n));
  }

  lemma BorrowPotential(m: State, i: nat, requested: nat, reply: Reply)
    requires Known(m, i)
    ensures Potential(BorrowOutcome(m, i, requested, reply)) <= Potential(m)
  {
    var g := GrantOf(m, requested);
    var b := BucketOf(m, i);
    if g > 0 && reply == LostAfter {
      SumAppend(Carried, m.flights, Lost);
    } else if g > 0 && reply == Answered {
      PutOutstanding(m, m.live[i], b.(tokens := b.tokens + g, exhausted := false));
      SumAppend(Carried, m.flights, Delivered);
    }
  }

  /** What a background borrow keeps, at a later time. */
  lemma AheadFair(m: State, i: nat, requested: nat, reply: Reply, window: int, clock: int, now: int)
    requires window > 0 && Known(m, i) && clock <= now
    ensures var r := BorrowOutcome(m, i, requested, reply);
      && r.admitted == m.admitted && r.minted == m.minted && Potential(r) <= Potential(m)
      && (Bypass(m, window, clock) ==> Bypass(r, window, now))
  {
    BorrowPotential(m, i, requested, reply);
    if Bypass(m, window, clock) {
      BypassTicks(m, window, clock, now);
      BorrowKeepsBypass(m, i, requested, reply, window, now);
    }
  }

  /** A borrow that leaves the request unserved: the grant was partial, so the pool is empty. */
  lemma BorrowTurned(m: State, i: nat, n: nat, requested: nat, reply: Reply, at: Setting)
    requires at.Valid() && Separate(m) && i in m.live && BucketOf(m, i).tokens < n <= requested
    ensures var r := BorrowOutcome(m, i, requested, reply);
      && Separate(r) && Known(r, i) && r.admitted == m.admitted && r.minted == m.minted
      && Potential(r) <= Potential(m)
      && (Bypass(m, at.window, at.now) ==> Bypass(r, at.window, at.now))
      && (SnugBut(m, i, at.instances, at.cap) ==> SnugBut(r, i, at.instances, at.cap))
      && (BucketOf(r, i).tokens < n ==> Turned(m, r, i, n, false, at))
      && (BucketOf(r, i).tokens < n && reply == Answered ==> r.pool == 0)
      && BucketOf(r, i).tokens < n + requested
  {
    BorrowPotential(m, i, requested, reply);
    if Bypass(m, at.window, at.now) {
      BorrowKeepsBypass(m, i, requested, reply, at.window, at.now);
    }
    if SnugBut(m, i, at.instances, at.cap) {
      BorrowLeak(m, i, requested, reply, at.instances, at.cap);
    }
  }

  lemma FlagTurned(m: State, i: nat, n: nat, at: Setting)
    requires at.Valid() && Separate(m) && i in m.live && BucketOf(m, i).tokens < n && m.pool == 0
    ensures Turned(m, FlagOutcome(m, i), i, n, false, at)
  {
    PutOutstanding(m, m.live[i], BucketOf(m, i).(exhausted := true));
    if Bypass(m, at.window, at.now) {
      FlagKeepsBypass(m, i, at.window, at.now);
    }
    if SnugBut(m, i, at.instances, at.cap) {
      FlagLeak(m, i, at.instances, at.cap);
    }
  }

  /** What the router may still decide: one peer step, and at most two Redis steps. */
  function Left(exhausted: bool, peerChecked: bool, pool: nat): nat {
    (if peerChecked then 0 else 1) + (if exhausted then 0 else if pool == 0 then 1 else 2)
  }

  /** The tokens a window can open with: the limit, and what other instances still hold. */
  function LeakCap(limit: nat, instances: nat, cap: nat, reply: Reply): nat {
    limit + Shares(if reply == Answered && instances > 0 then instances - 1 else instances, cap)
  }

  /** So many times as many. */
  function Shares(n: nat, cap: nat): nat {
    if n == 0 then 0 else Shares(n - 1, cap) + cap
  }

  lemma {:induction false} SharesAre(n: nat, cap: nat)
    ensures Shares(n, cap) == n * cap
  {
    if n > 0 {
      SharesAre(n - 1, cap);
      OneMore(n, cap);
    }
  }

  /** The window start of an instance's bucket; a bucket yet to be created begins at zero. */
  function StartOf(m: State, i: nat): int {
    if Known(m, i) then BucketOf(m, i).start else 0
  }

  /** What the part of AllowN before the loop keeps. */
  ghost predicate Opened(m: State, r: State, i: nat, n: nat, limit: nat, reply: Reply, served: bool, at: Setting)
    requires at.Valid()
  {
    && Known(r, i) && Separate(r)
    && r.admitted == m.admitted + (if served then n else 0)
    && m.minted <= r.minted <= m.minted + limit
    && (Bypass(m, at.window, at.now) ==> Bypass(r, at.window, at.now))
    && (Snug(m, at.instances, at.cap) ==>
          && SnugBut(r, i, at.instances, at.cap) && BucketOf(r, i).tokens <= at.cap
          && (Potential(r) <= Potential(m) || Potential(r) <= LeakCap(limit, at.instances, at.cap, reply)))
    && (!served ==> BucketOf(r, i).tokens < n)
  }

  lemma LookupOpened(m: State, i: nat, limit: nat, reply: Reply, at: Setting)
    requires at.Valid() && Separate(m) && i < at.instances
    ensures var r := LookupOutcome(m, i);
      && Known(r, i) && Separate(r) && r.admitted == m.admitted && r.pool == m.pool && r.minted == m.minted
      && BucketOf(r, i).start == StartOf(m, i)
      && (Bypass(m, at.window, at.now) ==> Bypass(r, at.window, at.now))
      && (Snug(m, at.instances, at.cap) ==>
            SnugBut(r, i, at.instances, at.cap) && BucketOf(r, i).tokens <= at.cap && Potential(r) == Potential(m))
  {
    if Bypass(m, at.window, at.now) {
      LookupKeepsBypass(m, i, at.window, at.now);
    }
    if Snug(m, at.instances, at.cap) {
      LookupLeak(m, i, at.instances, at.cap);
    }
  }

  lemma ConsumeOpened(m: State, r: State, i: nat, n: nat, limit: nat, reply: Reply, at: Setting)
    requires at.Valid() && n <= BucketOfOr(r, i)
    requires Known(r, i) && Separate(r) && r.admitted == m.admitted
    requires m.minted <= r.minted <= m.minted + limit
    requires Bypass(m, at.window, at.now) ==> Bypass(r, at.window, at.now)
    requires Snug(m, at.instances, at.cap) ==>
      && SnugBut(r, i, at.instances, at.cap) && BucketOf(r, i).tokens <= at.cap
      && (Potential(r) <= Potential(m) || Potential(r) <= LeakCap(limit, at.instances, at.cap, reply))
    ensures Opened(m, ConsumeOutcome(r, i, n), i, n, limit, reply, true, at)
  {
    ConsumeTurned(r, r, i, n, at);
  }

  function BucketOfOr(m: State, i: nat): nat {
    if Known(m, i) then BucketOf(m, i).tokens else 0
  }

  /** A reset keeps what must be kept, and an answered one of a due bucket lowers the flag. */
  lemma ResetOpened(m: State, i: nat, limit: nat, now: int, reply: Reply, at: Setting)
    requires at.Valid() && at.now == now && Separate(m) && i in m.live
    ensures var r := ResetOutcome(m, i, limit, at.window, now, reply);
      && Known(r, i) && Separate(r) && r.admitted == m.admitted
      && m.minted <= r.minted <= m.minted + limit
      && (Bypass(m, at.window, now) ==> Bypass(r, at.window, now))
      && (SnugBut(m, i, at.instances, at.cap) && BucketOf(m, i).tokens <= at.cap ==>
            && SnugBut(r, i, at.instances, at.cap) && BucketOf(r, i).tokens <= at.cap
            && (Potential(r) <= Potential(m) || Potential(r) <= LeakCap(limit, at.instances, at.cap, reply)))
      && (Bypass(m, at.window, now) && Due(BucketOf(m, i).start, at.window, now) && reply == Answered ==>
            !BucketOf(r, i).exhausted)
  {
    var r := ResetOutcome(m, i, limit, at.window, now, reply);
    if Bypass(m, at.window, now) {
      ResetKeepsBypass(m, i, limit, at.window, now, reply);
      AlignedIsFloor(now, at.window);
    }
    SnugIsSnugBut(m, i, at.instances, at.cap);
    SnugIsSnugBut(r, i, at.instances, at.cap);
    if Snug(m, at.instances, at.cap) {
      ResetPotential(m, i, limit, at.window, now, reply, at.instances, at.cap);
    }
  }

  /** The part before the loop and the loop together.  `early` says that the loop was not needed. */
  lemma RequestKept(m: State, mid: State, r: State, i: nat, n: nat, limit: nat, reply: Reply, early: bool, served: bool,
      at: Setting)
    requires at.Valid() && Opened(m, mid, i, n, limit, reply, early, at) && Separate(r)
    requires if early then served && r == mid else Turned(mid, r, i, n, served, at)
    ensures r.admitted == m.admitted + (if served then n else 0) && m.minted <= r.minted <= m.minted + limit
    ensures Bypass(m, at.window, at.now) ==> Bypass(r, at.window, at.now)
    ensures Snug(m, at.instances, at.cap) && BucketOf(r, i).tokens <= at.cap ==>
      && Snug(r, at.instances, at.cap)
      && (Potential(r) <= Potential(m) || Potential(r) <= LeakCap(limit, at.instances, at.cap, reply))
  {
    SnugIsSnugBut(r, i, at.instances, at.cap);
  }

  /** The two actions of an eviction amount to one update. */
  lemma EvictWrites(m: State, i: nat)
    requires Separate(m) && i in m.live
    ensures var m1 := Step(m, Evict(i));
      Enabled(m1, Collect(m.live[i])) && Step(m1, Collect(m.live[i])) == EvictOutcome(m, i)
  {
  }

  /** Between requests of cost at most size: the flag is sound, buckets are small, and a window
      cannot admit more than the limit and what size - 1 tokens per instance add to it. */
  ghost predicate Steady(m: State, limit: nat, window: int, clock: int, instances: nat, size: nat)
    requires window > 0 && size > 0
  {
    && Bypass(m, window, clock)
    && Snug(m, instances, size - 1)
    && Potential(m) <= LeakCap(limit, instances, size - 1, LostAfter)
  }

  /** What Steady says about admissions since the last effective reset. */
  lemma SteadyLeak(m: State, limit: nat, window: int, clock: int, instances: nat, size: nat)
    requires window > 0 && size > 0 && Steady(m, limit, window, clock, instances, size)
    ensures m.sinceReset <= limit + instances * (size - 1)
  {
    SharesAre(instances, size - 1);
  }

  lemma LeakCapMonotone(limit: nat, instances: nat, cap: nat, reply: Reply)
    ensures LeakCap(limit, instances, cap, reply) <= LeakCap(limit, instances, cap, LostAfter)
  {
  }

  lemma FreshSteady(m: State, limit: nat, window: int, clock: int, instances: nat, size: nat)
    requires window > 0 && size > 0 && m == Fresh(0, 0) && clock == 0
    ensures Steady(m, limit, window, clock, instances, size)
  {
  }
}
