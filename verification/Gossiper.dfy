/** The receiving side of the gossip (gossip.go): 64 shards of per-peer counts, a consumption
    velocity per peer and key, and the ranking of peers by predicted surplus. */
module Gossiper {
  import opened Options
  import opened Delta
  import opened Ranking

  const SHARD_COUNT: nat := 64
  const BUFFER_SIZE: nat := 16
  const ZERO_TIME: real := -62135596800.0

  type Times = map<string, real>

  datatype PeerEntry = PeerEntry(id: string, surplus: nat, consumed: nat, lastUpdated: real)

  datatype Shard = Shard(
    consumed: map<string, Counts>,
    borrowed: map<string, Counts>,
    updated: map<string, Times>,
    lastConsumed: map<string, Counts>,
    velocity: map<string, Times>,
    lastUpdated: map<string, Times>
  )

  const EMPTY_SHARD: Shard := Shard(map[], map[], map[], map[], map[], map[])

  /** A missing inner map reads as empty. */
  function Of<V>(m: map<string, map<string, V>>, id: string): map<string, V> {
    if id in m then m[id] else map[]
  }

  function TimeOf(m: Times, k: string, absent: real): real {
    if k in m then m[k] else absent
  }

  // ---------------------------------------------------------------- what an update does to a shard

  /** What is stored for one peer and one key: its count, the count and time of the last update,
      and the velocity between updates. */
  datatype Cell = Cell(consumed: Option<nat>, last: Option<nat>, velocity: Option<real>, time: Option<real>)

  const NO_CELL: Cell := Cell(None, None, None, None)

  /** The consumption since the last count; a counter that went down has started again from zero. */
  function Progress(v: nat, last: nat): nat {
    if v >= last then v - last else v
  }

  /** The exponential average of the consumption rate over the time dt. */
  function Blend(alpha: real, progress: nat, dt: real, previous: real): real
    requires dt > 0.0
  {
    alpha * (progress as real / dt) + (1.0 - alpha) * previous
  }

  /** What a count v for a key does to what is stored for it: zero forgets the key. */
  function AbsorbCell(c: Cell, v: nat, alpha: real, now: real): Cell {
    if v == 0 then NO_CELL
    else
      Cell(Some(v), Some(v),
           if c.time.Some? && c.last.Some? && now - c.time.value > 0.0
           then Some(Blend(alpha, Progress(v, c.last.value), now - c.time.value,
                           if c.velocity.Some? then c.velocity.value else 0.0))
           else c.velocity,
           Some(now))
  }

  /** A velocity, if there is one, is at least zero. */
  predicate NotNegative(c: Cell) {
    c.velocity.Some? ==> c.velocity.value >= 0.0
  }

  lemma Product(a: real, b: real)
    requires a >= 0.0 && b >= 0.0
    ensures a * b >= 0.0
  {
  }

  lemma Zero(a: real)
    ensures a * 0.0 == 0.0
  {
  }

  lemma Quotient(a: real, b: real)
    requires a >= 0.0 && b > 0.0
    ensures a / b >= 0.0
  {
  }

  /** No update ever makes a velocity negative. */
  lemma VelocityStays(c: Cell, v: nat, alpha: real, now: real)
    requires 0.0 <= alpha <= 1.0 && NotNegative(c)
    ensures NotNegative(AbsorbCell(c, v, alpha, now))
  {
    if v != 0 && c.time.Some? && c.last.Some? && now - c.time.value > 0.0 {
      var rate := Progress(v, c.last.value) as real / (now - c.time.value);
      Quotient(Progress(v, c.last.value) as real, now - c.time.value);
      Product(alpha, rate);
      Product(1.0 - alpha, if c.velocity.Some? then c.velocity.value else 0.0);
    }
  }

  /** The rate between two counts of a counter that may have started again from zero. */
  function Rate(v: nat, last: nat, dt: real): real
    requires dt > 0.0
  {
    (if v >= last then (v - last) as real else v as real) / dt
  }

  lemma BlendsRates(alpha: real, v: nat, last: nat, dt: real, before: real)
    requires dt > 0.0
    ensures Blend(alpha, Progress(v, last), dt, before) == alpha * Rate(v, last, dt) + (1.0 - alpha) * before
  {
    Scaled(alpha, Progress(v, last) as real / dt, Rate(v, last, dt));
  }

  lemma Scaled(a: real, x: real, y: real)
    requires x == y
    ensures a * x == a * y
  {
  }

  /** One more count: the rate since the last one weighs alpha, the velocity before one less. */
  lemma OneMoreMessage(alpha: real, c: Cell, v: nat, now: real)
    requires v > 0 && c.last.Some? && c.time.Some? && c.time.value < now
    ensures var rate := Rate(v, c.last.value, now - c.time.value);
      var before := if c.velocity.Some? then c.velocity.value else 0.0;
      var r := AbsorbCell(c, v, alpha, now);
      && r == Cell(Some(v), Some(v), r.velocity, Some(now))
      && r.velocity.Some? && r.velocity.value == alpha * rate + (1.0 - alpha) * before
  {
    var dt := now - c.time.value;
    var rate := Rate(v, c.last.value, dt);
    var before := if c.velocity.Some? then c.velocity.value else 0.0;
    BlendsRates(alpha, v, c.last.value, dt, before);
    assert AbsorbCell(c, v, alpha, now).velocity.value == Blend(alpha, Progress(v, c.last.value), dt, before);
  }

  /** Three counts of a key, the first after nothing was known of it: there is no velocity after one,
      alpha times the first rate after two, and the second rate weighs alpha in the third, the first
      one less.  What is stored is the last count and its time. */
  lemma ThreeMessages(alpha: real, v1: nat, t1: real, v2: nat, t2: real, v3: nat, t3: real)
    requires v1 > 0 && v2 > 0 && v3 > 0 && t1 < t2 < t3
    ensures var one := AbsorbCell(NO_CELL, v1, alpha, t1);
      var two := AbsorbCell(one, v2, alpha, t2);
      var rate2, rate3 := Rate(v2, v1, t2 - t1), Rate(v3, v2, t3 - t2);
      && one == Cell(Some(v1), Some(v1), None, Some(t1))
      && two.consumed == Some(v2) && two.time == Some(t2) && two.velocity.Some?
      && two.velocity.value == alpha * rate2
      && var three := AbsorbCell(two, v3, alpha, t3);
      && three == Cell(Some(v3), Some(v3), three.velocity, Some(t3))
      && three.velocity.Some? && three.velocity.value == alpha * rate3 + (1.0 - alpha) * (alpha * rate2)
  {
    var rate2, rate3 := Rate(v2, v1, t2 - t1), Rate(v3, v2, t3 - t2);
    var two := AbsorbCell(Cell(Some(v1), Some(v1), None, Some(t1)), v2, alpha, t2);
    OneMoreMessage(alpha, Cell(Some(v1), Some(v1), None, Some(t1)), v2, t2);
    Zero(1.0 - alpha);
    OneMoreMessage(alpha, two, v3, t3);
    Scaled(1.0 - alpha, two.velocity.value, alpha * rate2);
  }

  // ---------------------------------------------------------------- one peer's maps in a shard

  datatype Row = Row(consumed: Counts, last: Counts, velocity: Times, times: Times)

  function Read<V>(m: map<string, V>, k: string): Option<V> {
    if k in m then Some(m[k]) else None
  }

  function At(r: Row, k: string): Cell {
    Cell(Read(r.consumed, k), Read(r.last, k), Read(r.velocity, k), Read(r.times, k))
  }

  function Store<V>(m: map<string, V>, k: string, x: Option<V>): map<string, V> {
    match x
    case None => m - {k}
    case Some(v) => m[k := v]
  }

  function Write(r: Row, k: string, c: Cell): Row {
    Row(Store(r.consumed, k, c.consumed), Store(r.last, k, c.last),
        Store(r.velocity, k, c.velocity), Store(r.times, k, c.time))
  }

  lemma WriteAt(r: Row, k: string, c: Cell, x: string)
    ensures At(Write(r, k, c), x) == if x == k then c else At(r, x)
  {
  }

  /** A peer's maps after a delta: every key of the delta absorbed once, whatever the order. */
  ghost predicate Absorbed(start: Row, delta: Counts, alpha: real, now: real, r: Row) {
    forall k {:trigger At(r, k)} ::
      At(r, k) == if k in delta then AbsorbCell(At(start, k), delta[k], alpha, now) else At(start, k)
  }

  /** The loop over the consumed delta. */
  method AbsorbAll(start: Row, delta: Counts, alpha: real, now: real) returns (r: Row)
    ensures Absorbed(start, delta, alpha, now, r)
  {
    r := start;
    var rest := delta.Keys;
    while rest != {}
      invariant rest <= delta.Keys
      invariant forall k {:trigger At(r, k)} ::
        At(r, k) == if k in delta && k !in rest then AbsorbCell(At(start, k), delta[k], alpha, now) else At(start, k)
    {
      var k :| k in rest;
      var was := r;
      var c := AbsorbCell(At(r, k), delta[k], alpha, now);
      r := Write(r, k, c);
      rest := rest - {k};
      forall x
        ensures At(r, x) == if x == k then c else At(was, x)
      {
        WriteAt(was, k, c, x);
      }
    }
  }

  /** Every stored velocity is at least zero. */
  predicate Forward(velocity: Times) {
    forall k :: k in velocity ==> velocity[k] >= 0.0
  }

  /** Counts follow the zero-as-delete rule, and velocities never turn negative. */
  lemma AbsorbedMeans(start: Row, delta: Counts, alpha: real, now: real, r: Row)
    requires Absorbed(start, delta, alpha, now, r)
    ensures r.consumed == Apply(start.consumed, delta)
    ensures r.last == Apply(start.last, delta)
    ensures 0.0 <= alpha <= 1.0 && Forward(start.velocity) ==> Forward(r.velocity)
  {
    forall k
      ensures Read(r.consumed, k) == Read(Apply(start.consumed, delta), k)
      ensures Read(r.last, k) == Read(Apply(start.last, delta), k)
    {
      assert At(r, k).consumed == Read(r.consumed, k);
      assert At(start, k).consumed == Read(start.consumed, k);
    }
    SameEverywhere(r.consumed, Apply(start.consumed, delta));
    SameEverywhere(r.last, Apply(start.last, delta));
    if 0.0 <= alpha <= 1.0 && Forward(start.velocity) {
      forall k | k in r.velocity
        ensures r.velocity[k] >= 0.0
      {
        assert At(r, k).velocity == Some(r.velocity[k]);
        if k in delta {
          VelocityStays(At(start, k), delta[k], alpha, now);
        }
      }
    }
  }

  lemma SameEverywhere<V>(m: map<string, V>, n: map<string, V>)
    requires forall k :: Read(m, k) == Read(n, k)
    ensures m == n
  {
    forall k
      ensures k in m <==> k in n
      ensures k in m && k in n ==> m[k] == n[k]
    {
      assert Read(m, k) == Read(n, k);
    }
  }

  // ---------------------------------------------------------------- one shard

  /** The three velocity maps know the same peers, and no velocity is negative. */
  predicate Paired(s: Shard) {
    && s.lastConsumed.Keys == s.velocity.Keys == s.lastUpdated.Keys
    && (forall id :: id in s.velocity ==> Forward(s.velocity[id]))
  }

  function RowOf(s: Shard, id: string): Row {
    Row(Of(s.consumed, id), Of(s.lastConsumed, id), Of(s.velocity, id), Of(s.lastUpdated, id))
  }

  function Stamp(times: Times, keys: set<string>, now: real): Times {
    map k | k in times.Keys + keys :: if k in keys then now else times[k]
  }

  /** The shard once the peer's maps have been replaced. */
  function Install(s: Shard, id: string, r: Row, borrowed: Counts, touched: set<string>, now: real): Shard {
    Shard(s.consumed[id := r.consumed], s.borrowed[id := borrowed],
          s.updated[id := Stamp(Of(s.updated, id), touched, now)],
          s.lastConsumed[id := r.last], s.velocity[id := r.velocity], s.lastUpdated[id := r.times])
  }

  /** updateShardPeerLocked: absorb the consumed delta, apply the borrowed one, stamp the keys. */
  method UpdateShard(s: Shard, id: string, consumed: Counts, borrowed: Counts, alpha: real, now: real)
    returns (r: Shard, ghost row: Row)
    requires 0.0 <= alpha <= 1.0 && Paired(s)
    ensures Absorbed(RowOf(s, id), consumed, alpha, now, row)
    ensures r == Install(s, id, row, Apply(Of(s.borrowed, id), borrowed), consumed.Keys + borrowed.Keys, now)
    ensures Paired(r)
  {
    var start := RowOf(s, id);
    var end := AbsorbAll(start, consumed, alpha, now);
    AbsorbedMeans(start, consumed, alpha, now, end);
    var lent := ApplyAll(Of(s.borrowed, id), borrowed);
    row := end;
    r := Install(s, id, end, lent, consumed.Keys + borrowed.Keys, now);
  }

  // ---------------------------------------------------------------- ranking peers

  function Surplus(e: PeerEntry): nat {
    e.surplus
  }

  /** Borrowed but not consumed, as last heard. */
  function RawSurplus(s: Shard, id: string, key: string): nat {
    var lent, used := Get(Of(s.borrowed, id), key), Get(Of(s.consumed, id), key);
    if lent > used then lent - used else 0
  }

  /** What is left of a surplus after dt at the given velocity. */
  function Predicted(surplus: nat, velocity: real, dt: real): real {
    var decay := velocity * (if dt < 0.0 then 0.0 else dt);
    if decay > 0.0 then (if surplus as real > decay then surplus as real - decay else 0.0)
    else surplus as real
  }

  /** A prediction is never above the surplus; with a velocity that is not negative it is exactly
      the surplus less the decay, cut off at zero. */
  lemma PredictionIsCautious(surplus: nat, velocity: real, dt: real)
    ensures 0.0 <= Predicted(surplus, velocity, dt) <= surplus as real
    ensures velocity >= 0.0 && dt >= 0.0 ==>
      Predicted(surplus, velocity, dt) ==
        if surplus as real >= velocity * dt then surplus as real - velocity * dt else 0.0
  {
    if velocity >= 0.0 && dt >= 0.0 {
      Product(velocity, dt);
    }
  }

  /** The entry of one peer in the ranking for a key, if it has any surplus to show. */
  function Candidate(s: Shard, id: string, key: string, now: real): Option<PeerEntry> {
    var raw := RawSurplus(s, id, key);
    var lastTime := TimeOf(Of(s.updated, id), key, ZERO_TIME);
    var predicted := Predicted(raw, TimeOf(Of(s.velocity, id), key, 0.0), now - lastTime);
    if Get(Of(s.borrowed, id), key) == 0 || raw == 0 || predicted <= 0.0 then None
    else Some(PeerEntry(id, Whole(predicted), Get(Of(s.consumed, id), key), lastTime))
  }

  /** Conversion of a positive real to an unsigned integer truncates. */
  function Whole(x: real): nat {
    if x < 0.0 then 0 else x.Floor
  }

  /** What a peer has borrowed and not yet consumed at time now, if it has gone on consuming at its
      velocity since it was last heard of. */
  function Unspent(s: Shard, id: string, key: string, now: real): real {
    var since := TimeOf(Of(s.updated, id), key, ZERO_TIME);
    Get(Of(s.borrowed, id), key) as real - Get(Of(s.consumed, id), key) as real
      - TimeOf(Of(s.velocity, id), key, 0.0) * Elapsed(since, now)
  }

  /** The time since; a clock that has gone backwards counts as standing still. */
  function Elapsed(since: real, now: real): real {
    if now > since then now - since else 0.0
  }

  /** An entry says what the shard's maps say of its peer: the whole tokens that are unspent, the
      consumed count, and when it was heard. */
  predicate Describes(s: Shard, e: PeerEntry, key: string, now: real) {
    && e.surplus as real <= Unspent(s, e.id, key, now) < e.surplus as real + 1.0
    && e.consumed == Get(Of(s.consumed, e.id), key)
    && e.lastUpdated == TimeOf(Of(s.updated, e.id), key, ZERO_TIME)
  }

  lemma ForwardAt(s: Shard, id: string, key: string)
    requires Paired(s)
    ensures TimeOf(Of(s.velocity, id), key, 0.0) >= 0.0
  {
  }

  /** The prediction is the surplus less what has been consumed since. */
  lemma StandsStill(surplus: nat, velocity: real, now: real, since: real)
    requires velocity >= 0.0
    ensures var left := surplus as real - velocity * Elapsed(since, now);
      Predicted(surplus, velocity, now - since) == if left > 0.0 then left else 0.0
  {
    Product(velocity, Elapsed(since, now));
  }

  lemma Minus(a: nat, b: nat)
    requires a >= b
    ensures (a - b) as real == a as real - b as real
  {
  }

  lemma WholeIsFloor(x: real)
    requires x >= 0.0
    ensures Whole(x) as real <= x < Whole(x) as real + 1.0
  {
  }

  /** A peer is a candidate if and only if it has something unspent, and then its entry describes it. */
  lemma CandidateIff(s: Shard, id: string, key: string, now: real)
    requires Paired(s)
    ensures var c := Candidate(s, id, key, now);
      && (c.Some? <==> Unspent(s, id, key, now) > 0.0)
      && (c.Some? ==> c.value.id == id && Describes(s, c.value, key, now))
  {
    var since, velocity := TimeOf(Of(s.updated, id), key, ZERO_TIME), TimeOf(Of(s.velocity, id), key, 0.0);
    var lent, used := Get(Of(s.borrowed, id), key), Get(Of(s.consumed, id), key);
    ForwardAt(s, id, key);
    StandsStill(RawSurplus(s, id, key), velocity, now, since);
    if lent > used {
      Minus(lent, used);
      WholeIsFloor(Predicted(RawSurplus(s, id, key), velocity, now - since));
    } else {
      Product(velocity, Elapsed(since, now));
    }
  }

  lemma Longer(velocity: real, a: real, b: real)
    requires velocity >= 0.0 && a <= b
    ensures velocity * a <= velocity * b
  {
    Product(velocity, b - a);
    Spread(velocity, a, b - a);
  }

  lemma Spread(x: real, a: real, b: real)
    ensures x * (a + b) == x * a + x * b
  {
  }

  /** A later clock never makes a peer a candidate, or raises its surplus. */
  lemma LaterIsLess(s: Shard, id: string, key: string, a: real, b: real)
    requires Paired(s) && a <= b && Candidate(s, id, key, b).Some?
    ensures Candidate(s, id, key, a).Some?
    ensures Candidate(s, id, key, b).value.surplus <= Candidate(s, id, key, a).value.surplus
  {
    var since := TimeOf(Of(s.updated, id), key, ZERO_TIME);
    ForwardAt(s, id, key);
    Longer(TimeOf(Of(s.velocity, id), key, 0.0), Elapsed(since, a), Elapsed(since, b));
    assert Unspent(s, id, key, b) <= Unspent(s, id, key, a);
    CandidateIff(s, id, key, a);
    CandidateIff(s, id, key, b);
  }

  lemma CandidateIsCautious(s: Shard, id: string, key: string, now: real)
    ensures var c := Candidate(s, id, key, now);
      c.Some? ==> c.value.id == id && c.value.surplus <= RawSurplus(s, id, key)
  {
    var lastTime := TimeOf(Of(s.updated, id), key, ZERO_TIME);
    PredictionIsCautious(RawSurplus(s, id, key), TimeOf(Of(s.velocity, id), key, 0.0), now - lastTime);
  }

  /** The candidates, in the order in which the map is walked. */
  function Candidates(s: Shard, order: seq<string>, key: string, now: real): seq<PeerEntry> {
    if order == [] then []
    else
      var rest := Candidates(s, order[..|order| - 1], key, now);
      var c := Candidate(s, order[|order| - 1], key, now);
      if c.Some? then rest + [c.value] else rest
  }

  lemma {:induction false} CandidatesAreCautious(s: Shard, order: seq<string>, key: string, now: real, e: PeerEntry)
    requires e in Candidates(s, order, key, now)
    ensures e.id in order && Candidate(s, e.id, key, now) == Some(e) && e.surplus <= RawSurplus(s, e.id, key)
  {
    if order != [] {
      var n := |order| - 1;
      CandidateIsCautious(s, order[n], key, now);
      if e in Candidates(s, order[..n], key, now) {
        CandidatesAreCautious(s, order[..n], key, now, e);
      }
    }
  }

  /** Moves the entries from `at` up to n one place on. */
  method Shift(buf: array<PeerEntry>, at: nat, n: nat)
    requires at <= n < buf.Length
    modifies buf
    ensures buf[..at] == old(buf[..at]) && buf[at + 1..n + 1] == old(buf[at..n])
  {
    var i := n;
    while i > at
      invariant at <= i <= n
      invariant forall j :: 0 <= j < i ==> buf[j] == old(buf[j])
      invariant forall j :: i < j <= n ==> buf[j] == old(buf[j - 1])
    {
      buf[i] := buf[i - 1];
      i := i - 1;
    }
  }

  method PutAt(buf: array<PeerEntry>, n: nat, at: nat, e: PeerEntry)
    requires at <= n < buf.Length
    modifies buf
    ensures buf[..n + 1] == old(buf[..n][..at]) + [e] + old(buf[..n][at..])
  {
    Shift(buf, at, n);
    buf[at] := e;
    assert buf[..n + 1] == buf[..at] + [e] + buf[at + 1..n + 1];
    assert old(buf[..n][..at]) == old(buf[..at]) && old(buf[..n][at..]) == old(buf[at..n]);
  }

  /** The insertion into the fixed buffer: find the place, shift the tail, drop what is beyond k. */
  method InsertInto(buf: array<PeerEntry>, n: nat, e: PeerEntry, k: nat) returns (m: nat)
    requires buf.Length == BUFFER_SIZE && n <= k < BUFFER_SIZE
    modifies buf
    ensures m <= k && buf[..m] == Take(k, Insert(Surplus, old(buf[..n]), e))
  {
    ghost var held := buf[..n];
    var at := 0;
    while at < n && e.surplus <= buf[at].surplus
      invariant at <= n
      invariant forall i :: 0 <= i < at ==> e.surplus <= held[i].surplus
    {
      at := at + 1;
    }
    PositionIsFirst(Surplus, held, e, at);
    PutAt(buf, n, at, e);
    m := if n + 1 > k then k else n + 1;
    assert buf[..m] == buf[..n + 1][..m];
  }

  /** TopK for small k: one pass over the map, through the fixed buffer. */
  method TopKFast(s: Shard, k: nat, key: string, now: real, order: seq<string>) returns (top: seq<PeerEntry>)
    requires 0 < k < BUFFER_SIZE
    ensures top == RankedBounded(Surplus, Candidates(s, order, key, now), k)
  {
    var buf := new PeerEntry[BUFFER_SIZE](_ => PeerEntry("", 0, 0, ZERO_TIME));
    var n: nat := 0;
    for x := 0 to |order|
      invariant n <= k
      invariant buf[..n] == RankedBounded(Surplus, Candidates(s, order[..x], key, now), k)
    {
      assert order[..x + 1][..x] == order[..x];
      var c := Candidate(s, order[x], key, now);
      if c.Some? {
        ghost var before := Candidates(s, order[..x], key, now);
        assert (before + [c.value])[..|before|] == before;
        n := InsertInto(buf, n, c.value, k);
      }
    }
    assert order[..|order|] == order;
    top := buf[..n];
  }

  /** TopK for any other k: collect, sort, truncate. */
  method TopKSorted(s: Shard, k: nat, key: string, now: real, order: seq<string>)
    returns (top: seq<PeerEntry>, ghost full: seq<PeerEntry>)
    ensures Descending(Surplus, full) && multiset(full) == multiset(Candidates(s, order, key, now))
    ensures top == Take(k, full)
    ensures Measures(Surplus, top) == Measures(Surplus, Take(k, Ranked(Surplus, Candidates(s, order, key, now))))
  {
    var entries := [];
    for x := 0 to |order|
      invariant entries == Candidates(s, order[..x], key, now)
    {
      assert order[..x + 1][..x] == order[..x];
      var c := Candidate(s, order[x], key, now);
      if c.Some? {
        entries := entries + [c.value];
      }
    }
    assert order[..|order|] == order;
    var sorted := Sort(Surplus, entries);
    top, full := Take(k, sorted), sorted;
  }

  lemma {:induction false} CandidatesOfOrder(s: Shard, a: seq<string>, b: seq<string>, key: string, now: real)
    ensures Candidates(s, a + b, key, now) == Candidates(s, a, key, now) + Candidates(s, b, key, now)
  {
    if b == [] {
      assert a + b == a;
    } else {
      var n := |b| - 1;
      assert (a + b)[..|a| + n] == a + b[..n];
      CandidatesOfOrder(s, a, b[..n], key, now);
    }
  }

  /** One peer's share of the candidates. */
  lemma CandidatesWithout(s: Shard, b: seq<string>, i: nat, key: string, now: real)
    requires i < |b|
    ensures multiset(Candidates(s, b, key, now)) ==
      multiset(Candidates(s, Without(b, i), key, now)) + multiset(Candidates(s, [b[i]], key, now))
  {
    var front, back := b[..i], b[i + 1..];
    assert b == (front + [b[i]]) + back;
    CandidatesOfOrder(s, front + [b[i]], back, key, now);
    CandidatesOfOrder(s, front, [b[i]], key, now);
    CandidatesOfOrder(s, front, back, key, now);
  }

  /** Walking the map in another order permutes the candidates. */
  lemma {:induction false} AnyOrder(s: Shard, a: seq<string>, b: seq<string>, key: string, now: real)
    requires multiset(a) == multiset(b)
    ensures multiset(Candidates(s, a, key, now)) == multiset(Candidates(s, b, key, now))
    decreases |a|
  {
    if a == [] {
      assert |multiset(b)| == 0;
    } else {
      assert a[0] in multiset(b);
      var i :| 0 <= i < |b| && b[i] == a[0];
      WithoutOne(a, 0);
      WithoutOne(b, i);
      AnyOrder(s, Without(a, 0), Without(b, i), key, now);
      CandidatesWithout(s, a, 0, key, now);
      CandidatesWithout(s, b, i, key, now);
    }
  }

  /** The fast path refines the sorting path: for every order in which either walks the map and
      for every way a sort may break ties, both return the same surpluses. */
  lemma FastMeetsSorted(s: Shard, k: nat, key: string, now: real, a: seq<string>, b: seq<string>,
      sorted: seq<PeerEntry>)
    requires multiset(a) == multiset(b)
    requires Descending(Surplus, sorted) && multiset(sorted) == multiset(Candidates(s, b, key, now))
    ensures var fast := RankedBounded(Surplus, Candidates(s, a, key, now), k);
      && Measures(Surplus, fast) == Measures(Surplus, Take(k, sorted))
      && |fast| == (if |Candidates(s, b, key, now)| < k then |Candidates(s, b, key, now)| else k)
  {
    AnyOrder(s, a, b, key, now);
    AnySortAgrees(Surplus, Candidates(s, a, key, now), sorted, k);
    assert |sorted| == |multiset(sorted)| == |Candidates(s, b, key, now)|;
    assert |Measures(Surplus, Take(k, sorted))| == |Take(k, sorted)|;
  }

  /** Both paths, on whatever map orders, name the same peers in the same order, if and only if no
      two different candidates are tied for a place among the first k. */
  lemma SamePeersIff(s: Shard, k: nat, key: string, now: real, order: seq<string>)
    ensures Uncontested(Surplus, Candidates(s, order, key, now), k) <==>
      forall a, b, sorted ::
        multiset(a) == multiset(order) && multiset(b) == multiset(order) &&
        IsSort(Surplus, Candidates(s, b, key, now), sorted) ==>
          RankedBounded(Surplus, Candidates(s, a, key, now), k) == Take(k, sorted)
  {
    var all := Candidates(s, order, key, now);
    if Uncontested(Surplus, all, k) {
      forall a, b, sorted | multiset(a) == multiset(order) && multiset(b) == multiset(order) &&
        IsSort(Surplus, Candidates(s, b, key, now), sorted)
        ensures RankedBounded(Surplus, Candidates(s, a, key, now), k) == Take(k, sorted)
      {
        AnyOrder(s, a, order, key, now);
        AnyOrder(s, b, order, key, now);
        UncontestedAgrees(Surplus, all, Candidates(s, a, key, now), sorted, k);
      }
    } else {
      var x, y :| x in all && y in all && Surplus(x) == Surplus(y) && Above(Surplus, all, Surplus(x)) < k && x != y;
      var sorted := Rival(Surplus, all, k, x, y);
      assert multiset(order) == multiset(order) && IsSort(Surplus, Candidates(s, order, key, now), sorted);
    }
  }

  /** Two peers that both borrowed 5: the order in which the map is walked decides who is asked. */
  lemma TieExample()
    ensures var s := EMPTY_SHARD.(borrowed := map["a" := map["k" := 5], "b" := map["k" := 5]]);
      && RankedBounded(Surplus, Candidates(s, ["a", "b"], "k", 0.0), 1) == [PeerEntry("a", 5, 0, ZERO_TIME)]
      && RankedBounded(Surplus, Candidates(s, ["b", "a"], "k", 0.0), 1) == [PeerEntry("b", 5, 0, ZERO_TIME)]
  {
    var s := EMPTY_SHARD.(borrowed := map["a" := map["k" := 5], "b" := map["k" := 5]]);
    var a, b := PeerEntry("a", 5, 0, ZERO_TIME), PeerEntry("b", 5, 0, ZERO_TIME);
    assert Candidate(s, "a", "k", 0.0) == Some(a) && Candidate(s, "b", "k", 0.0) == Some(b);
    TwoCandidates(s, "a", "b", "k", 0.0);
    TwoCandidates(s, "b", "a", "k", 0.0);
    FirstOfTwo(a, b);
    FirstOfTwo(b, a);
  }

  lemma TwoCandidates(s: Shard, x: string, y: string, key: string, now: real)
    requires Candidate(s, x, key, now).Some? && Candidate(s, y, key, now).Some?
    ensures Candidates(s, [x, y], key, now) == [Candidate(s, x, key, now).value, Candidate(s, y, key, now).value]
  {
    assert [x, y][..1] == [x] && [x][..0] == [];
    assert Candidates(s, [x], key, now) == [Candidate(s, x, key, now).value];
  }

  lemma FirstOfTwo(x: PeerEntry, y: PeerEntry)
    requires Surplus(x) == Surplus(y)
    ensures RankedBounded(Surplus, [x, y], 1) == [x]
  {
    assert [x, y][..1] == [x] && [x][..0] == [];
    assert RankedBounded(Surplus, [x], 1) == [x];
    PositionIsFirst(Surplus, [x], y, 1);
  }

  // ---------------------------------------------------------------- the sharded store

  /** The part of a map that belongs to one shard. */
  function Part(m: Counts, shardOf: string -> nat, idx: nat): Counts {
    map k | k in m && shardOf(k) == idx :: m[k]
  }

  /** What a shard says about a peer and a key. */
  function ConsumedIn(s: Shard, id: string, k: string): nat {
    Get(Of(s.consumed, id), k)
  }

  function BorrowedIn(s: Shard, id: string, k: string): nat {
    Get(Of(s.borrowed, id), k)
  }

  /** All that is stored for a peer and a key on account of its consumption. */
  function CellIn(s: Shard, id: string, k: string): Cell {
    At(RowOf(s, id), k)
  }

  /** When a peer last said something of a key. */
  function HeardIn(s: Shard, id: string, k: string): Option<real> {
    Read(Of(s.updated, id), k)
  }

  /** How what a shard says of peer p and key k changes when peer id sends the delta (c, b). */
  ghost predicate TookAt(s: Shard, r: Shard, id: string, c: Counts, b: Counts, alpha: real, now: real, p: string,
      k: string)
  {
    && ConsumedIn(r, p, k) == (if p == id && k in c then c[k] else ConsumedIn(s, p, k))
    && BorrowedIn(r, p, k) == (if p == id && k in b then b[k] else BorrowedIn(s, p, k))
    && CellIn(r, p, k) ==
         (if p == id && k in c then AbsorbCell(CellIn(s, p, k), c[k], alpha, now) else CellIn(s, p, k))
    && HeardIn(r, p, k) == (if p == id && (k in c || k in b) then Some(now) else HeardIn(s, p, k))
  }

  ghost predicate Took(s: Shard, r: Shard, id: string, c: Counts, b: Counts, alpha: real, now: real) {
    forall p, k :: TookAt(s, r, id, c, b, alpha, now, p, k)
  }

  lemma InstallHere(s: Shard, id: string, row: Row, borrowed: Counts, touched: set<string>, now: real, k: string)
    ensures var r := Install(s, id, row, borrowed, touched, now);
      && CellIn(r, id, k) == At(row, k) && ConsumedIn(r, id, k) == Get(row.consumed, k)
      && BorrowedIn(r, id, k) == Get(borrowed, k)
      && HeardIn(r, id, k) == if k in touched then Some(now) else HeardIn(s, id, k)
  {
  }

  lemma OfOther<V>(m: map<string, map<string, V>>, id: string, x: map<string, V>, p: string)
    requires p != id
    ensures Of(m[id := x], p) == Of(m, p)
  {
  }

  lemma InstallElsewhere(s: Shard, id: string, row: Row, borrowed: Counts, touched: set<string>, now: real, p: string)
    requires p != id
    ensures var r := Install(s, id, row, borrowed, touched, now);
      RowOf(r, p) == RowOf(s, p) && Of(r.borrowed, p) == Of(s.borrowed, p) && Of(r.updated, p) == Of(s.updated, p)
  {
    OfOther(s.consumed, id, row.consumed, p);
    OfOther(s.borrowed, id, borrowed, p);
    OfOther(s.lastConsumed, id, row.last, p);
    OfOther(s.velocity, id, row.velocity, p);
    OfOther(s.lastUpdated, id, row.times, p);
    OfOther(s.updated, id, Stamp(Of(s.updated, id), touched, now), p);
  }

  /** An update of one shard, as the peers' counts show it. */
  lemma UpdateSeen(s: Shard, id: string, row: Row, consumed: Counts, borrowed: Counts, alpha: real, now: real,
      p: string, k: string)
    requires Absorbed(RowOf(s, id), consumed, alpha, now, row)
    ensures var r := Install(s, id, row, Apply(Of(s.borrowed, id), borrowed), consumed.Keys + borrowed.Keys, now);
      TookAt(s, r, id, consumed, borrowed, alpha, now, p, k)
  {
    if p == id {
      AbsorbedMeans(RowOf(s, id), consumed, alpha, now, row);
      InstallHere(s, id, row, Apply(Of(s.borrowed, id), borrowed), consumed.Keys + borrowed.Keys, now, k);
      ApplyAt(Of(s.consumed, id), consumed, k);
      ApplyAt(Of(s.borrowed, id), borrowed, k);
    } else {
      InstallElsewhere(s, id, row, Apply(Of(s.borrowed, id), borrowed), consumed.Keys + borrowed.Keys, now, p);
    }
  }

  method UpdateShardSeen(s: Shard, id: string, consumed: Counts, borrowed: Counts, alpha: real, now: real)
    returns (r: Shard)
    requires 0.0 <= alpha <= 1.0 && Paired(s)
    ensures Paired(r) && Took(s, r, id, consumed, borrowed, alpha, now)
  {
    ghost var row;
    r, row := UpdateShard(s, id, consumed, borrowed, alpha, now);
    forall p, k
      ensures TookAt(s, r, id, consumed, borrowed, alpha, now, p, k)
    {
      UpdateSeen(s, id, row, consumed, borrowed, alpha, now, p, k);
    }
  }

  /** Nothing said, nothing changed. */
  lemma TookNothing(s: Shard, id: string, alpha: real, now: real)
    ensures Took(s, s, id, map[], map[], alpha, now)
  {
  }

  /** How what a shard says of peer p and key k changes when keys are dropped. */
  ghost predicate LostAt(s: Shard, r: Shard, keys: set<string>, p: string, k: string) {
    && ConsumedIn(r, p, k) == (if k in keys then 0 else ConsumedIn(s, p, k))
    && BorrowedIn(r, p, k) == (if k in keys then 0 else BorrowedIn(s, p, k))
    && CellIn(r, p, k) == (if k in keys then NO_CELL else CellIn(s, p, k))
    && HeardIn(r, p, k) == (if k in keys then None else HeardIn(s, p, k))
  }

  ghost predicate Lost(s: Shard, r: Shard, keys: set<string>) {
    forall p, k :: LostAt(s, r, keys, p, k)
  }

  lemma DropAt(m: map<string, Counts>, k: string, p: string, x: string)
    ensures Get(Of(DropIn(m, k), p), x) == if x == k then 0 else Get(Of(m, p), x)
  {
  }

  lemma DropRead<V>(m: map<string, map<string, V>>, k: string, p: string, x: string)
    ensures Read(Of(DropIn(m, k), p), x) == if x == k then None else Read(Of(m, p), x)
  {
  }

  lemma DropCell(s: Shard, k: string, p: string, x: string)
    ensures CellIn(DropKey(s, k), p, x) == (if x == k then NO_CELL else CellIn(s, p, x))
    ensures HeardIn(DropKey(s, k), p, x) == (if x == k then None else HeardIn(s, p, x))
  {
    DropRead(s.consumed, k, p, x);
    DropRead(s.lastConsumed, k, p, x);
    DropRead(s.velocity, k, p, x);
    DropRead(s.lastUpdated, k, p, x);
    DropRead(s.updated, k, p, x);
  }

  lemma DropLoses(s: Shard, r: Shard, keys: set<string>, k: string)
    requires Lost(s, r, keys)
    ensures Lost(s, DropKey(r, k), keys + {k})
  {
    forall p, x
      ensures LostAt(s, DropKey(r, k), keys + {k}, p, x)
    {
      assert LostAt(s, r, keys, p, x);
      DropAt(r.consumed, k, p, x);
      DropAt(r.borrowed, k, p, x);
      DropCell(r, k, p, x);
    }
  }

  /** The keys among the first i that belong to shard j. */
  function KeysIn(keys: seq<string>, shardOf: string -> nat, j: nat): set<string> {
    set k | k in keys && shardOf(k) == j
  }

  /** A shard without one peer. */
  function Forget(s: Shard, id: string): Shard {
    Shard(s.consumed - {id}, s.borrowed - {id}, s.updated - {id},
          s.lastConsumed - {id}, s.velocity - {id}, s.lastUpdated - {id})
  }

  function DropIn<V>(m: map<string, map<string, V>>, k: string): map<string, map<string, V>> {
    map id | id in m :: m[id] - {k}
  }

  /** A shard without one key. */
  function DropKey(s: Shard, k: string): Shard {
    Shard(DropIn(s.consumed, k), DropIn(s.borrowed, k), DropIn(s.updated, k),
          DropIn(s.lastConsumed, k), DropIn(s.velocity, k), DropIn(s.lastUpdated, k))
  }

  class Gossiper {
    const shardOf: string -> nat
    const alpha: real
    var peers: set<string>
    var shards: seq<Shard>

    ghost predicate Valid()
      reads this
    {
      && |shards| == SHARD_COUNT
      && 0.0 < alpha <= 1.0
      && (forall k :: shardOf(k) < SHARD_COUNT)
      && (forall i :: 0 <= i < |shards| ==> Paired(shards[i]))
    }

    /** What the store says a peer has borrowed, or consumed, of a key. */
    ghost function Borrowed(id: string, k: string): nat
      requires Valid()
      reads this
    {
      BorrowedIn(shards[shardOf(k)], id, k)
    }

    ghost function Consumed(id: string, k: string): nat
      requires Valid()
      reads this
    {
      ConsumedIn(shards[shardOf(k)], id, k)
    }

    /** What it knows of a peer's consumption of a key: count, velocity and time. */
    ghost function Known(id: string, k: string): Cell
      requires Valid()
      reads this
    {
      CellIn(shards[shardOf(k)], id, k)
    }

    /** When a peer last said something of a key. */
    ghost function Heard(id: string, k: string): Option<real>
      requires Valid()
      reads this
    {
      HeardIn(shards[shardOf(k)], id, k)
    }

    constructor (shardOf: string -> nat, alpha: real)
      requires forall k :: shardOf(k) < SHARD_COUNT
      requires 0.0 < alpha <= 1.0
      ensures Valid() && peers == {}
      ensures forall id, k :: Borrowed(id, k) == 0 && Consumed(id, k) == 0
      ensures forall id, k :: Known(id, k) == NO_CELL && Heard(id, k) == None
    {
      this.shardOf, this.alpha := shardOf, alpha;
      peers := {};
      shards := seq(SHARD_COUNT, _ => EMPTY_SHARD);
    }

    /** Every shard that a key of the message falls into absorbs its part. */
    method UpdateShards(id: string, consumed: Counts, borrowed: Counts, now: real)
      requires Valid()
      modifies this`shards
      ensures Valid()
      ensures forall j :: 0 <= j < SHARD_COUNT ==>
        Took(old(shards)[j], shards[j], id, Part(consumed, shardOf, j), Part(borrowed, shardOf, j), alpha, now)
    {
      for idx := 0 to SHARD_COUNT
        invariant Valid()
        invariant forall j :: idx <= j < SHARD_COUNT ==> shards[j] == old(shards)[j]
        invariant forall j :: 0 <= j < idx ==>
          Took(old(shards)[j], shards[j], id, Part(consumed, shardOf, j), Part(borrowed, shardOf, j), alpha, now)
      {
        var c, b := Part(consumed, shardOf, idx), Part(borrowed, shardOf, idx);
        if |c| + |b| > 0 {
          var r := UpdateShardSeen(shards[idx], id, c, b, alpha, now);
          shards := shards[idx := r];
        } else {
          assert c == map[] && b == map[];
          TookNothing(shards[idx], id, alpha, now);
        }
      }
    }

    /** UpdatePeer: every touched shard absorbs its part of the delta.  Key by key, the peer's
        counts become what the delta says, with the velocity of the consumption, and the time is
        noted; all else stays. */
    method UpdatePeer(id: string, consumed: Counts, borrowed: Counts, now: real)
      requires Valid()
      modifies this
      ensures Valid() && peers == old(peers) + {id}
      ensures forall p, k :: Consumed(p, k) == if p == id && k in consumed then consumed[k] else old(Consumed(p, k))
      ensures forall p, k :: Borrowed(p, k) == if p == id && k in borrowed then borrowed[k] else old(Borrowed(p, k))
      ensures forall k :: k in consumed ==> Known(id, k) == AbsorbCell(old(Known(id, k)), consumed[k], alpha, now)
      ensures forall p, k :: p != id || k !in consumed ==> Known(p, k) == old(Known(p, k))
      ensures forall k :: k in consumed || k in borrowed ==> Heard(id, k) == Some(now)
      ensures forall p, k :: p != id || (k !in consumed && k !in borrowed) ==> Heard(p, k) == old(Heard(p, k))
    {
      peers := peers + {id};
      UpdateShards(id, consumed, borrowed, now);
      forall p, k
        ensures Consumed(p, k) == if p == id && k in consumed then consumed[k] else old(Consumed(p, k))
        ensures Borrowed(p, k) == if p == id && k in borrowed then borrowed[k] else old(Borrowed(p, k))
        ensures p == id && k in consumed ==> Known(p, k) == AbsorbCell(old(Known(p, k)), consumed[k], alpha, now)
        ensures p != id || k !in consumed ==> Known(p, k) == old(Known(p, k))
        ensures p == id && (k in consumed || k in borrowed) ==> Heard(p, k) == Some(now)
        ensures p != id || (k !in consumed && k !in borrowed) ==> Heard(p, k) == old(Heard(p, k))
      {
        var j := shardOf(k);
        var c, b := Part(consumed, shardOf, j), Part(borrowed, shardOf, j);
        assert Took(old(shards)[j], shards[j], id, c, b, alpha, now);
        assert TookAt(old(shards)[j], shards[j], id, c, b, alpha, now, p, k);
      }
    }

    /** RemovePeer: what was known of the peer is gone, the others stay. */
    method RemovePeer(id: string)
      requires Valid()
      modifies this
      ensures Valid() && peers == old(peers) - {id}
      ensures forall p, k :: Consumed(p, k) == if p == id then 0 else old(Consumed(p, k))
      ensures forall p, k :: Borrowed(p, k) == if p == id then 0 else old(Borrowed(p, k))
      ensures forall p, k :: Known(p, k) == if p == id then NO_CELL else old(Known(p, k))
      ensures forall p, k :: Heard(p, k) == if p == id then None else old(Heard(p, k))
    {
      peers := peers - {id};
      for i := 0 to SHARD_COUNT
        invariant Valid() && peers == old(peers) - {id}
        invariant forall j :: 0 <= j < SHARD_COUNT ==>
          shards[j] == if j < i then Forget(old(shards)[j], id) else old(shards)[j]
      {
        shards := shards[i := Forget(shards[i], id)];
      }
    }

    /** EvictKeys: what every peer said of the keys is gone, all else stays. */
    method EvictKeys(keys: seq<string>)
      requires Valid()
      modifies this
      ensures Valid() && peers == old(peers)
      ensures forall p, k :: Consumed(p, k) == if k in keys then 0 else old(Consumed(p, k))
      ensures forall p, k :: Borrowed(p, k) == if k in keys then 0 else old(Borrowed(p, k))
      ensures forall p, k :: Known(p, k) == if k in keys then NO_CELL else old(Known(p, k))
      ensures forall p, k :: Heard(p, k) == if k in keys then None else old(Heard(p, k))
    {
      DropKeys(keys);
      forall p, k
        ensures Consumed(p, k) == if k in keys then 0 else old(Consumed(p, k))
        ensures Borrowed(p, k) == if k in keys then 0 else old(Borrowed(p, k))
        ensures Known(p, k) == if k in keys then NO_CELL else old(Known(p, k))
        ensures Heard(p, k) == if k in keys then None else old(Heard(p, k))
      {
        var j := shardOf(k);
        assert Lost(old(shards)[j], shards[j], KeysIn(keys, shardOf, j));
        assert LostAt(old(shards)[j], shards[j], KeysIn(keys, shardOf, j), p, k);
      }
    }

    /** The loop over the keys. */
    method DropKeys(keys: seq<string>)
      requires Valid()
      modifies this`shards
      ensures Valid()
      ensures forall j :: 0 <= j < SHARD_COUNT ==> Lost(old(shards)[j], shards[j], KeysIn(keys, shardOf, j))
    {
      for i := 0 to |keys|
        invariant Valid()
        invariant forall j :: 0 <= j < SHARD_COUNT ==> Lost(old(shards)[j], shards[j], KeysIn(keys[..i], shardOf, j))
      {
        var idx := shardOf(keys[i]);
        DropLoses(old(shards)[idx], shards[idx], KeysIn(keys[..i], shardOf, idx), keys[i]);
        assert keys[..i + 1] == keys[..i] + [keys[i]];
        forall j | 0 <= j < SHARD_COUNT
          ensures KeysIn(keys[..i + 1], shardOf, j) ==
            if j == idx then KeysIn(keys[..i], shardOf, j) + {keys[i]} else KeysIn(keys[..i], shardOf, j)
        {
        }
        shards := shards[idx := DropKey(shards[idx], keys[i])];
      }
      assert keys[..|keys|] == keys;
    }

    /** TopK.  Whichever path is taken, the result has the surpluses of a full sort cut off at k;
        every entry describes a peer that has something unspent, and a peer with something unspent
        that is left out has no more of it than each of the k that are not. */
    method TopK(k: nat, key: string, now: real, order: seq<string>) returns (top: seq<PeerEntry>)
      requires Valid()
      requires forall id :: id in order <==> id in shards[shardOf(key)].borrowed
      ensures MatchesAnySort(Candidates(shards[shardOf(key)], order, key, now), k, top)
      ensures TopOf(shards[shardOf(key)], k, key, now, order, top)
      ensures forall e :: e in top ==> e.surplus <= RawSurplus(shards[shardOf(key)], e.id, key)
    {
      var s := shards[shardOf(key)];
      ghost var full := Ranked(Surplus, Candidates(s, order, key, now));
      if 0 < k < BUFFER_SIZE {
        top := TopKFast(s, k, key, now, order);
        BoundedIsHead(Surplus, Candidates(s, order, key, now), k);
        RankedSorts(Surplus, Candidates(s, order, key, now));
      } else {
        top, full := TopKSorted(s, k, key, now, order);
      }
      TopIsFair(s, k, key, now, order, full);
      TopIsTop(s, k, key, now, order, full);
    }
  }

  /** Entries that describe peers with something unspent, in falling order, and no peer left out that
      has more. */
  ghost predicate TopOf(s: Shard, k: nat, key: string, now: real, ids: seq<string>, top: seq<PeerEntry>) {
    && |top| <= k && Descending(Surplus, top)
    && (forall e :: e in top ==> e.id in ids && Unspent(s, e.id, key, now) > 0.0 && Describes(s, e, key, now))
    && (forall id :: id in ids && Unspent(s, id, key, now) > 0.0 ==>
          (exists e :: e in top && e.id == id) ||
          (|top| == k && forall e :: e in top ==> Unspent(s, id, key, now) < e.surplus as real + 1.0))
  }

  lemma {:induction false} CandidatesComplete(s: Shard, order: seq<string>, key: string, now: real, id: string)
    requires id in order && Candidate(s, id, key, now).Some?
    ensures Candidate(s, id, key, now).value in Candidates(s, order, key, now)
  {
    var n := |order| - 1;
    if id != order[n] {
      CandidatesComplete(s, order[..n], key, now, id);
    }
  }

  /** The head of a descending arrangement of the candidates. */
  lemma TopIsTop(s: Shard, k: nat, key: string, now: real, order: seq<string>, full: seq<PeerEntry>)
    requires Paired(s)
    requires Descending(Surplus, full) && multiset(full) == multiset(Candidates(s, order, key, now))
    ensures TopOf(s, k, key, now, order, Take(k, full))
  {
    var top := Take(k, full);
    forall e | e in top
      ensures e.id in order && Unspent(s, e.id, key, now) > 0.0 && Describes(s, e, key, now)
    {
      assert e in multiset(full);
      CandidatesAreCautious(s, order, key, now, e);
      CandidateIff(s, e.id, key, now);
    }
    forall id | id in order && Unspent(s, id, key, now) > 0.0 && !exists e :: e in top && e.id == id
      ensures |top| == k && forall e :: e in top ==> Unspent(s, id, key, now) < e.surplus as real + 1.0
    {
      CandidateIff(s, id, key, now);
      CandidatesComplete(s, order, key, now, id);
      var c := Candidate(s, id, key, now).value;
      assert c in multiset(full);
      var i :| 0 <= i < |full| && full[i] == c;
      assert c !in top;
      assert i >= |top|;
    }
  }

  /** The surpluses are those of the first k of any sort of the candidates. */
  ghost predicate MatchesAnySort(all: seq<PeerEntry>, k: nat, top: seq<PeerEntry>) {
    forall sorted :: Descending(Surplus, sorted) && multiset(sorted) == multiset(all) ==>
      Measures(Surplus, top) == Measures(Surplus, Take(k, sorted))
  }

  /** What is common to both paths: the head of some sort of the candidates. */
  lemma TopIsFair(s: Shard, k: nat, key: string, now: real, order: seq<string>, full: seq<PeerEntry>)
    requires Descending(Surplus, full) && multiset(full) == multiset(Candidates(s, order, key, now))
    ensures MatchesAnySort(Candidates(s, order, key, now), k, Take(k, full))
    ensures forall e :: e in Take(k, full) ==>
      e.id in order && Candidate(s, e.id, key, now) == Some(e) && e.surplus <= RawSurplus(s, e.id, key)
  {
    var all := Candidates(s, order, key, now);
    AnySortAgrees(Surplus, all, full, k);
    forall sorted | Descending(Surplus, sorted) && multiset(sorted) == multiset(all)
      ensures Measures(Surplus, Take(k, full)) == Measures(Surplus, Take(k, sorted))
    {
      AnySortAgrees(Surplus, all, sorted, k);
    }
    forall e | e in Take(k, full)
      ensures e.id in order && Candidate(s, e.id, key, now) == Some(e) && e.surplus <= RawSurplus(s, e.id, key)
    {
      assert e in multiset(full);
      CandidatesAreCautious(s, order, key, now, e);
    }
  }
}
