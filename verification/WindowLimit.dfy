/** How much one window can admit, exactly, over all interleavings of goroutines.

    The limit bounds a window only as far as no bucket still holds tokens when the window opens: a
    request spends them before it looks at the clock. */
module WindowLimit {
  import opened Options
  import opened Sums
  import opened Windows
  import opened Protocol
  import opened Goroutines
  import opened Solo
  import opened Orphans
  import Requests

  /** Every goroutine has finished. */
  predicate Idle(w: World) {
    forall t :: 0 <= t < |w.threads| ==> Finished(w.threads[t])
  }

  /** The tokens in the buckets that the instances' maps hold. */
  function LiveTokens(m: State): nat {
    Inside(m.buckets, m.live.Values)
  }

  lemma NoTokensIff(m: State)
    requires LiveExist(m)
    ensures LiveTokens(m) == 0 <==> forall i :: i in m.live ==> m.buckets[m.live[i]].tokens == 0
  {
    if LiveTokens(m) > 0 {
      var k := InsidePositive(m.buckets, m.live.Values);
      var i :| i in m.live && m.live[i] == k;
    }
    if i :| i in m.live && m.buckets[m.live[i]].tokens > 0 {
      InsideAtLeast(m.buckets, m.live.Values, m.live[i]);
    }
  }

  // ---------------------------------------------------------------- no more than this

  /** Every event is at most one action of the ledger. */
  lemma HappenSpends(cfg: Config, w: World, ev: Event, pool: nat, windowStart: int)
    requires cfg.Valid() && Inv(cfg, w, pool, windowStart) && Ledger(w.mem) && Happen(cfg, w, ev).Some?
    ensures var v := Happen(cfg, w, ev).value;
      && w.mem.starts <= v.mem.starts && Ledger(v.mem)
      && (v.mem.starts == w.mem.starts ==> Potential(v.mem) <= Potential(w.mem))
  {
    match ev
    case Arrive(_, _) =>
    case Janitor(inst) => StepSpends(w.mem, Evict(inst));
    case Turn(t, input) =>
      var e := ThreadEffect(cfg, w, t, input).value;
      ThreadSound(cfg, w, t, input, e);
      if e.act.Some? {
        StepSpends(w.mem, e.act.value);
      }
  }

  lemma {:induction false} PlaySpends(cfg: Config, w: World, events: seq<Event>, pool: nat, windowStart: int)
    requires cfg.Valid() && Inv(cfg, w, pool, windowStart) && Ledger(w.mem) && Play(cfg, w, events).Some?
    ensures var v := Play(cfg, w, events).value;
      && w.mem.starts <= v.mem.starts && Ledger(v.mem)
      && (v.mem.starts == w.mem.starts ==> Potential(v.mem) <= Potential(w.mem))
  {
    if events != [] {
      var n := |events| - 1;
      PlaySpends(cfg, w, events[..n], pool, windowStart);
      RunKeepsInv(cfg, w, pool, windowStart, events[..n]);
      HappenSpends(cfg, Play(cfg, w, events[..n]).value, events[n], pool, windowStart);
    }
  }

  function Outcasts(m: State): set<nat> {
    set d | 0 <= d < |m.buckets| && d !in m.live.Values
  }

  /** In an idle world nothing is in flight, and the buckets outside the maps are out of reach. */
  lemma IdleShut(cfg: Config, w: World, pool: nat, windowStart: int)
    requires cfg.Valid() && Inv(cfg, w, pool, windowStart) && Idle(w)
    ensures Outstanding(w.mem) == LiveTokens(w.mem) + Inside(w.mem.buckets, Outcasts(w.mem))
    ensures forall d :: d in Outcasts(w.mem) ==> Shut(w, d)
  {
    assert forall t :: 0 <= t < |w.threads| ==> Holds(w.threads[t]) == None;
    Requests.NothingFlying(w.mem);
    InsideAndOutside(w.mem.buckets, w.mem.live.Values, Outcasts(w.mem));
  }

  /** From an idle world on, a window admits at most the pool and what the live buckets hold. */
  lemma IdleBound(cfg: Config, w: World, events: seq<Event>, pool: nat, windowStart: int)
    requires cfg.Valid() && Inv(cfg, w, pool, windowStart) && Ledger(w.mem) && Idle(w)
    requires Play(cfg, w, events).Some? && Play(cfg, w, events).value.mem.starts == w.mem.starts
    ensures Play(cfg, w, events).value.mem.sinceReset <= w.mem.sinceReset + w.mem.pool + LiveTokens(w.mem)
  {
    var v, outcasts := Play(cfg, w, events).value, Outcasts(w.mem);
    IdleShut(cfg, w, pool, windowStart);
    PlaySpends(cfg, w, events, pool, windowStart);
    forall d | d in outcasts
      ensures d < |v.mem.buckets| && v.mem.buckets[d] == w.mem.buckets[d]
    {
      ShutForEver(cfg, w, events, d);
    }
    BucketsGrow(cfg, w, events);
    InsideKept(v.mem.buckets, w.mem.buckets, outcasts);
    InsideWithin(v.mem.buckets, outcasts);
  }

  lemma StepGrows(s: State, a: Action)
    requires Enabled(s, a)
    ensures |s.buckets| <= |Step(s, a).buckets|
  {
  }

  lemma {:induction false} BucketsGrow(cfg: Config, w: World, events: seq<Event>)
    requires cfg.Valid() && Play(cfg, w, events).Some?
    ensures |w.mem.buckets| <= |Play(cfg, w, events).value.mem.buckets|
  {
    if events != [] {
      var n := |events| - 1;
      BucketsGrow(cfg, w, events[..n]);
      var mid := Play(cfg, w, events[..n]).value;
      if events[n].Janitor? && events[n].inst in mid.mem.live {
        StepGrows(mid.mem, Evict(events[n].inst));
      }
      if events[n].Turn? {
        var e := ThreadEffect(cfg, mid, events[n].t, events[n].input).value;
        if e.act.Some? && Enabled(mid.mem, e.act.value) {
          StepGrows(mid.mem, e.act.value);
        }
      }
    }
  }

  // ---------------------------------------------------------------- and as much as this

  lemma {:induction false} PlayConcat(cfg: Config, w: World, a: seq<Event>, b: seq<Event>)
    requires cfg.Valid() && Play(cfg, w, a).Some?
    ensures Play(cfg, w, a + b) == Play(cfg, Play(cfg, w, a).value, b)
  {
    if b == [] {
      assert a + b == a;
    } else {
      var n := |b| - 1;
      assert (a + b)[..|a + b| - 1] == a + b[..n] && (a + b)[|a + b| - 1] == b[n];
      PlayConcat(cfg, w, a, b[..n]);
    }
  }

  /** One run after another. */
  lemma Then(cfg: Config, w: World, r: Run, s: Run) returns (u: Run)
    requires cfg.Valid() && Ran(cfg, w, r) && Ran(cfg, r.world, s)
    ensures Ran(cfg, w, u) && u.world == s.world
  {
    PlayConcat(cfg, w, r.events, s.events);
    u := Run(r.events + s.events, s.world, s.tail);
  }

  /** What a served request leaves of the live tokens and of the window's count. */
  lemma ConsumeCounts(m: State, i: nat, n: nat)
    requires LiveExist(m) && i in m.live && n <= Requests.BucketOf(m, i).tokens
    ensures var r := Requests.ConsumeOutcome(m, i, n);
      && LiveExist(r) && LiveTokens(r) == LiveTokens(m) - n && r.sinceReset == m.sinceReset + n
      && r.pool == m.pool && r.starts == m.starts && r.windowStart == m.windowStart
  {
    var r := Requests.ConsumeOutcome(m, i, n);
    InsideUpdate(m.buckets, m.live.Values, m.live[i], r.buckets[m.live[i]]);
  }

  /** Requests of the right size spend all live buckets. */
  lemma {:induction false} SpendLive(cfg: Config, w: World) returns (r: Run)
    requires cfg.Valid() && LiveExist(w.mem)
    ensures Ran(cfg, w, r) && LiveExist(r.world.mem)
    ensures r.world.mem.starts == w.mem.starts && r.world.mem.pool == w.mem.pool
    ensures r.world.mem.sinceReset == w.mem.sinceReset + LiveTokens(w.mem)
    decreases LiveTokens(w.mem)
  {
    r := Run([], w, []);
    if LiveTokens(w.mem) > 0 {
      var k := InsidePositive(w.mem.buckets, w.mem.live.Values);
      var i :| i in w.mem.live && w.mem.live[i] == k;
      var n := w.mem.buckets[k].tokens;
      ConsumeCounts(w.mem, i, n);
      var first := ServeLocally(cfg, w, i, n);
      var rest := SpendLive(cfg, first.world);
      r := Then(cfg, w, first, rest);
    }
  }

  lemma {:induction false} Unused(used: set<nat>) returns (j: nat)
    ensures forall i :: i in used ==> i < j
  {
    j := 0;
    if used != {} {
      var i :| i in used;
      var k := Unused(used - {i});
      j := if k <= i then i + 1 else k;
      assert forall x :: x in used ==> x == i || x in used - {i};
    }
  }

  /** A new instance, whose clock reads a time in Redis's own window, finds that its reset comes too
      late, and borrows the whole pool. */
  lemma NewcomerBorrows(cfg: Config, m: State, j: nat, now: int)
    requires cfg.Valid() && LiveExist(m) && j !in m.live && m.pool > 0
    requires now == if m.windowStart >= 0 then m.windowStart else 0
    ensures var l := Requests.LookupOutcome(m, j);
      Requests.BucketOf(l, j).tokens == 0 && !Requests.BucketOf(Renewed(cfg, l, j, now), j).exhausted
    ensures var b := Lent(cfg, m, j, m.pool, 0, now);
      && LiveExist(b) && j in b.live && Requests.BucketOf(b, j).tokens == m.pool
      && b.starts == m.starts && b.sinceReset == m.sinceReset
  {
    AlignedIsFloor(now, cfg.window);
    var l := Requests.LookupOutcome(m, j);
    assert Requests.BucketOf(l, j) == NewBucket();
    var r := Renewed(cfg, l, j, now);
    assert r.pool == m.pool && r.starts == m.starts && r.sinceReset == m.sinceReset;
    assert Requests.BucketOf(r, j).tokens == 0;
  }

  lemma SpendPool(cfg: Config, w: World) returns (r: Run)
    requires cfg.Valid() && LiveExist(w.mem)
    ensures Ran(cfg, w, r)
    ensures r.world.mem.starts == w.mem.starts && r.world.mem.sinceReset == w.mem.sinceReset + w.mem.pool
  {
    r := Run([], w, []);
    if w.mem.pool > 0 {
      var busy := set k | k in w.open.Keys :: k.0;
      var j := Unused(w.mem.live.Keys + busy);
      var now := if w.mem.windowStart >= 0 then w.mem.windowStart else 0;
      NewcomerBorrows(cfg, w.mem, j, now);
      assert forall k :: k in w.open ==> k.0 in busy;
      r := ServeFromRedis(cfg, w, j, w.mem.pool, 0, now);
    }
  }

  /** From any world whose live buckets exist, reachable ones included, some requests get the pool
      and all that the live buckets hold admitted in the same window. */
  lemma SpendAll(cfg: Config, w: World) returns (r: Run)
    requires cfg.Valid() && LiveExist(w.mem)
    ensures Ran(cfg, w, r) && r.world.mem.starts == w.mem.starts
    ensures r.world.mem.sinceReset == w.mem.sinceReset + w.mem.pool + LiveTokens(w.mem)
  {
    var first := SpendLive(cfg, w);
    var rest := SpendPool(cfg, first.world);
    r := Then(cfg, w, first, rest);
  }

  // ---------------------------------------------------------------- main results

  /** A reachable world. */
  ghost predicate Reached(cfg: Config, w: World, pool: nat, windowStart: int, past: seq<Event>)
    requires cfg.Valid()
  {
    Play(cfg, Boot(pool, windowStart), past) == Some(w)
  }

  /** The schedule leads to no effective reset: Redis's window stays what it is. */
  ghost predicate InWindow(cfg: Config, w: World, events: seq<Event>)
    requires cfg.Valid()
  {
    Play(cfg, w, events).Some? && Play(cfg, w, events).value.mem.starts == w.mem.starts
  }

  ghost function AdmittedInWindow(cfg: Config, w: World, events: seq<Event>): nat
    requires cfg.Valid() && InWindow(cfg, w, events)
  {
    Play(cfg, w, events).value.mem.sinceReset
  }

  /** Exactly how far a window can go from an idle world: the limit holds in every continuation if
      and only if what was admitted, the pool and the tokens in the live buckets stay within it. */
  lemma WindowLimitIff(cfg: Config, w: World, limit: nat, pool: nat, windowStart: int, past: seq<Event>)
    requires cfg.Valid() && Reached(cfg, w, pool, windowStart, past) && Idle(w)
    ensures (forall events :: InWindow(cfg, w, events) ==> AdmittedInWindow(cfg, w, events) <= limit) <==>
      w.mem.sinceReset + w.mem.pool + LiveTokens(w.mem) <= limit
  {
    PlayKeepsInv(cfg, pool, windowStart, past);
    Conservation(pool, windowStart, w.log);
    if w.mem.sinceReset + w.mem.pool + LiveTokens(w.mem) <= limit {
      forall events | InWindow(cfg, w, events)
        ensures AdmittedInWindow(cfg, w, events) <= limit
      {
        IdleBound(cfg, w, events, pool, windowStart);
      }
    } else {
      var r := SpendAll(cfg, w);
      assert InWindow(cfg, w, r.events) && AdmittedInWindow(cfg, w, r.events) > limit;
    }
  }

  /** The same for a window that has just opened: its limit holds if and only if no live bucket
      still has tokens. */
  lemma FreshWindowIff(cfg: Config, w: World, pool: nat, windowStart: int, past: seq<Event>)
    requires cfg.Valid() && Reached(cfg, w, pool, windowStart, past) && Idle(w)
    requires w.mem.sinceReset == 0 && w.mem.pool == cfg.limit
    ensures (forall events :: InWindow(cfg, w, events) ==> AdmittedInWindow(cfg, w, events) <= cfg.limit) <==>
      forall i :: i in w.mem.live ==> Requests.Known(w.mem, i) && Requests.BucketOf(w.mem, i).tokens == 0
  {
    PlayKeepsInv(cfg, pool, windowStart, past);
    WindowLimitIff(cfg, w, cfg.limit, pool, windowStart, past);
    NoTokensIff(w.mem);
  }

  /** And in the middle of anything: tokens in a live bucket can always be spent on top of the pool,
      and with none outside Redis the pool is the most there is. */
  lemma BusyWindow(cfg: Config, w: World, pool: nat, windowStart: int, past: seq<Event>)
    requires cfg.Valid() && Reached(cfg, w, pool, windowStart, past)
    ensures exists events ::
      && InWindow(cfg, w, events)
      && AdmittedInWindow(cfg, w, events) == w.mem.sinceReset + w.mem.pool + LiveTokens(w.mem)
    ensures forall events :: InWindow(cfg, w, events) ==>
      AdmittedInWindow(cfg, w, events) <= w.mem.sinceReset + w.mem.pool + Outstanding(w.mem)
  {
    PlayKeepsInv(cfg, pool, windowStart, past);
    Conservation(pool, windowStart, w.log);
    var r := SpendAll(cfg, w);
    assert InWindow(cfg, w, r.events);
    forall events | InWindow(cfg, w, events)
      ensures AdmittedInWindow(cfg, w, events) <= w.mem.sinceReset + w.mem.pool + Outstanding(w.mem)
    {
      PlaySpends(cfg, w, events, pool, windowStart);
    }
  }

  /** The limit is not a bound on one window, not even with one request after the other.  With a
      limit and a window of 10, instance 1 asks for 1 token at time 10 and borrows 10; at time 20
      instance 0 asks for 10, turns the window and uses the new pool up; then instance 1 asks for 9,
      which it still has.  19 tokens are admitted in the window that began at 20. */
  lemma WindowOverrun() returns (r: Run)
    ensures var cfg := Config(10, 10, 0);
      Play(cfg, Boot(0, 0), r.events) == Some(r.world) && r.world.mem.starts == [10, 20] && r.world.mem.sinceReset == 19
  {
    var cfg := Config(10, 10, 0);
    var w := Boot(0, 0);
    var one := FirstBorrower(cfg, w);
    var two := SecondBorrower(cfg, one.world);
    var three := ServeLocally(cfg, two.world, 1, 9);
    r := Then(cfg, w, one, two);
    r := Then(cfg, w, r, three);
  }

  lemma FirstBorrower(cfg: Config, w: World) returns (r: Run)
    requires cfg == Config(10, 10, 0) && w.mem == Fresh(0, 0) && w.open == map[]
    ensures Ran(cfg, w, r) && r.world.open == map[]
    ensures var m := r.world.mem;
      && m.pool == 0 && m.windowStart == 10 && m.starts == [10]
      && m.live == map[1 := 0] && m.buckets == [BucketState(9, 10, false, 1)]
  {
    assert Aligned(10, 10) == 10;
    var l := Requests.LookupOutcome(w.mem, 1);
    assert l.live == map[1 := 0] && l.buckets == [NewBucket()];
    var m := Renewed(cfg, l, 1, 10);
    assert m.pool == 10 && m.starts == [10] && m.buckets == [BucketState(0, 10, false, 0)];
    var lent := Lent(cfg, w.mem, 1, 1, 10, 10);
    assert lent.buckets == [BucketState(10, 10, false, 0)] && lent.live == map[1 := 0];
    assert lent.pool == 0 && lent.windowStart == 10 && lent.starts == [10];
    r := ServeFromRedis(cfg, w, 1, 1, 10, 10);
    assert r.world.mem == Requests.ConsumeOutcome(lent, 1, 1);
  }

  lemma SecondBorrower(cfg: Config, w: World) returns (r: Run)
    requires cfg == Config(10, 10, 0) && w.open == map[]
    requires var m := w.mem;
      && m.pool == 0 && m.windowStart == 10 && m.starts == [10]
      && m.live == map[1 := 0] && m.buckets == [BucketState(9, 10, false, 1)]
    ensures Ran(cfg, w, r)
    ensures var m := r.world.mem;
      && m.starts == [10, 20] && m.sinceReset == 10
      && m.live == map[1 := 0, 0 := 1] && m.buckets == [BucketState(9, 10, false, 1), BucketState(0, 20, false, 10)]
  {
    assert Aligned(20, 10) == 20;
    var l := Requests.LookupOutcome(w.mem, 0);
    assert l.live == map[1 := 0, 0 := 1] && l.buckets == [BucketState(9, 10, false, 1), NewBucket()];
    var m := Renewed(cfg, l, 0, 20);
    assert m.pool == 10 && m.starts == [10, 20] && m.sinceReset == 0;
    assert m.buckets == [BucketState(9, 10, false, 1), BucketState(0, 20, false, 0)];
    var lent := Lent(cfg, w.mem, 0, 10, 10, 20);
    assert lent.buckets == [BucketState(9, 10, false, 1), BucketState(10, 20, false, 0)] && lent.live == l.live;
    r := ServeFromRedis(cfg, w, 0, 10, 10, 20);
    assert r.world.mem == Requests.ConsumeOutcome(lent, 0, 10);
  }
}
