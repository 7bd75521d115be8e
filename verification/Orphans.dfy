/** Buckets out of everyone's reach: dropped from their instance's map, and no goroutine that still
    has something to do points to them.  Nobody ever touches them again. */
module Orphans {
  import opened Options
  import opened Sums
  import opened Protocol
  import opened Goroutines

  /** The goroutine will not touch bucket d with the pointers it has. */
  predicate Avoids(t: Thread, d: nat) {
    match t
    case Request(l, pc) =>
      pc.Start? || pc.Done? ||
      (l.b != d &&
       match pc
       case ResetCompare(rb, _) => rb != d
       case ResetScript(rb, _) => rb != d
       case ResetDrain(rb, _) => rb != d
       case ResetFlag(rb, _) => rb != d
       case ResetCount(rb, _) => rb != d
       case ResetMove(rb, _) => rb != d
       case _ => true)
    case Probe(_, _, _, _, at) =>
      match at
      case ReadSurplus(b) => b != d
      case ReadTokens(b, _) => b != d
      case Take(b, _) => b != d
      case Extra(b, _) => b != d
      case _ => true
  }

  predicate Targets(act: Option<Action>, d: nat) {
    act.Some? &&
    match act.value
    case Collect(b) => b == d
    case Drain(b) => b == d
    case SetExhausted(b, _) => b == d
    case ClearConsumed(b) => b == d
    case MoveWindow(b, _) => b == d
    case Donate(b, _) => b == d
    case Refill(b, _) => b == d
    case Admit(b, _) => b == d
    case Record(b, _) => b == d
    case _ => false
  }

  /** Bucket d is out of reach. */
  ghost predicate Shut(w: World, d: nat) {
    && IsBucket(w.mem, d) && d !in w.mem.live.Values
    && forall t :: 0 <= t < |w.threads| ==> Avoids(w.threads[t], d)
  }

  /** A step of a goroutine that avoids a bucket outside all maps. */
  predicate Clear(e: Effect, d: nat) {
    Avoids(e.self, d) && !Targets(e.act, d) && forall u :: u in e.spawned ==> Avoids(u, d)
  }

  lemma ResetClear(cfg: Config, w: World, l: Locals, pc: Pc, input: Input, e: Effect, d: nat)
    requires cfg.Valid() && ResetEffect(cfg, w, l, pc, input) == Some(e)
    requires IsBucket(w.mem, d) && d !in w.mem.live.Values && Avoids(Request(l, pc), d)
    ensures Clear(e, d)
  {
    assert e.spawned == [];
  }

  lemma AcquireClear(w: World, l: Locals, pc: Pc, input: Input, e: Effect, d: nat)
    requires AcquireEffect(w, l, pc, input) == Some(e) && !pc.Probing?
    requires IsBucket(w.mem, d) && d !in w.mem.live.Values && Avoids(Request(l, pc), d)
    ensures Clear(e, d)
  {
    assert e.spawned == [];
  }

  lemma ProbingClear(w: World, l: Locals, c: nat, input: Input, e: Effect, d: nat)
    requires ProbingEffect(w, l, c, input) == Some(e) && l.b != d
    ensures Clear(e, d)
  {
    if input.ProbePeer? {
      assert e.spawned == [Probe(c, l.inst, input.server, l.n, Access)];
    }
  }

  lemma RequestClear(cfg: Config, w: World, l: Locals, pc: Pc, input: Input, e: Effect, d: nat)
    requires cfg.Valid() && RequestEffect(cfg, w, l, pc, input) == Some(e)
    requires IsBucket(w.mem, d) && d !in w.mem.live.Values && Avoids(Request(l, pc), d)
    ensures Clear(e, d)
  {
    if ResetEffect(cfg, w, l, pc, input) == Some(e) {
      ResetClear(cfg, w, l, pc, input, e, d);
    } else if pc.Probing? {
      ProbingClear(w, l, pc.c, input, e, d);
    } else if AcquireEffect(w, l, pc, input) == Some(e) {
      AcquireClear(w, l, pc, input, e, d);
    } else if e.spawned != [] {
      assert e.spawned == [Request(Locals(l.inst, 0, l.b, true, false, false), JoinRedis)];
    }
  }

  lemma ProbeClear(cfg: Config, w: World, t: Thread, input: Input, e: Effect, d: nat)
    requires t.Probe? && ProbeEffect(cfg, w, t, input) == Some(e)
    requires IsBucket(w.mem, d) && d !in w.mem.live.Values && Avoids(t, d)
    ensures Clear(e, d)
  {
    assert e.spawned == [];
  }

  /** An action that does not aim at a bucket leaves it alone, and puts no bucket back into a map. */
  lemma Untouched(s: State, a: Action, d: nat)
    requires Enabled(s, a) && IsBucket(s, d) && d !in s.live.Values && !Targets(Some(a), d)
    ensures var t := Step(s, a); IsBucket(t, d) && t.buckets[d] == s.buckets[d] && d !in t.live.Values
  {
    var t := Step(s, a);
    if a.Create? {
      forall i | i in t.live
        ensures t.live[i] != d
      {
      }
    }
    if a.Evict? {
      forall i | i in t.live
        ensures t.live[i] != d
      {
        assert t.live[i] == s.live[i];
      }
    }
  }

  lemma TurnKeepsShut(cfg: Config, w: World, t: nat, e: Effect, d: nat)
    requires t < |w.threads| && Shut(w, d) && Clear(e, d)
    ensures var v := Advance(w, t, e); Shut(v, d) && v.mem.buckets[d] == w.mem.buckets[d]
  {
    var v := Advance(w, t, e);
    if e.act.Some? && Enabled(w.mem, e.act.value) {
      Untouched(w.mem, e.act.value, d);
    }
    forall u | 0 <= u < |v.threads|
      ensures Avoids(v.threads[u], d)
    {
      if u >= |w.threads| {
        assert v.threads[u] == e.spawned[u - |w.threads|];
        assert v.threads[u] in e.spawned;
      } else {
        assert Avoids(w.threads[u], d);
      }
    }
  }

  lemma HappenKeepsShut(cfg: Config, w: World, ev: Event, d: nat)
    requires cfg.Valid() && Shut(w, d) && Happen(cfg, w, ev).Some?
    ensures var v := Happen(cfg, w, ev).value; Shut(v, d) && v.mem.buckets[d] == w.mem.buckets[d]
  {
    match ev
    case Arrive(inst, n) =>
    case Janitor(inst) =>
      Untouched(w.mem, Evict(inst), d);
    case Turn(t, input) =>
      var e := ThreadEffect(cfg, w, t, input).value;
      if w.threads[t].Request? {
        RequestClear(cfg, w, w.threads[t].l, w.threads[t].pc, input, e, d);
      } else {
        ProbeClear(cfg, w, w.threads[t], input, e, d);
      }
      TurnKeepsShut(cfg, w, t, e, d);
  }

  /** Once out of reach, a bucket keeps what it holds for ever. */
  lemma {:induction false} ShutForEver(cfg: Config, w: World, events: seq<Event>, d: nat)
    requires cfg.Valid() && Shut(w, d) && Play(cfg, w, events).Some?
    ensures var v := Play(cfg, w, events).value; Shut(v, d) && v.mem.buckets[d] == w.mem.buckets[d]
  {
    if events != [] {
      var n := |events| - 1;
      ShutForEver(cfg, w, events[..n], d);
      HappenKeepsShut(cfg, Play(cfg, w, events[..n]).value, events[n], d);
    }
  }

  // ---------------------------------------------------------------- what some of the buckets hold

  /** The tokens in the buckets of a set. */
  function Inside(buckets: seq<BucketState>, d: set<nat>): nat {
    if buckets == [] then 0
    else
      var n := |buckets| - 1;
      Inside(buckets[..n], d) + if n in d then buckets[n].tokens else 0
  }

  lemma {:induction false} InsideUpdate(buckets: seq<BucketState>, d: set<nat>, k: nat, x: BucketState)
    requires k < |buckets| && k in d
    ensures Inside(buckets[k := x], d) == Inside(buckets, d) - buckets[k].tokens + x.tokens
  {
    var n := |buckets| - 1;
    if k == n {
      assert buckets[k := x][..n] == buckets[..n];
    } else {
      assert buckets[k := x][..n] == buckets[..n][k := x];
      InsideUpdate(buckets[..n], d, k, x);
    }
  }

  lemma {:induction false} InsidePositive(buckets: seq<BucketState>, d: set<nat>) returns (k: nat)
    requires Inside(buckets, d) > 0
    ensures k < |buckets| && k in d && buckets[k].tokens > 0
  {
    var n := |buckets| - 1;
    if n in d && buckets[n].tokens > 0 {
      return n;
    }
    k := InsidePositive(buckets[..n], d);
  }

  lemma {:induction false} InsideEmpty(buckets: seq<BucketState>, d: set<nat>)
    requires forall k :: 0 <= k < |buckets| && k in d ==> buckets[k].tokens == 0
    ensures Inside(buckets, d) == 0
  {
    if buckets != [] {
      InsideEmpty(buckets[..|buckets| - 1], d);
    }
  }

  lemma {:induction false} InsideAtLeast(buckets: seq<BucketState>, d: set<nat>, k: nat)
    requires k < |buckets| && k in d
    ensures Inside(buckets, d) >= buckets[k].tokens
  {
    if k < |buckets| - 1 {
      InsideAtLeast(buckets[..|buckets| - 1], d, k);
    }
  }

  /** The buckets of a set and the others make up all. */
  lemma {:induction false} InsideAndOutside(buckets: seq<BucketState>, d: set<nat>, rest: set<nat>)
    requires forall k :: 0 <= k < |buckets| ==> (k in d <==> k !in rest)
    ensures Inside(buckets, d) + Inside(buckets, rest) == SumBy(Held, buckets)
  {
    if buckets != [] {
      InsideAndOutside(buckets[..|buckets| - 1], d, rest);
    }
  }

  lemma {:induction false} InsideWithin(buckets: seq<BucketState>, d: set<nat>)
    ensures Inside(buckets, d) <= SumBy(Held, buckets)
  {
    if buckets != [] {
      InsideWithin(buckets[..|buckets| - 1], d);
    }
  }

  /** If more buckets have come and those of the set are what they were. */
  lemma {:induction false} InsideKept(now: seq<BucketState>, was: seq<BucketState>, d: set<nat>)
    requires forall k :: k in d ==> k < |was| <= |now| && now[k] == was[k]
    ensures |was| <= |now| ==> Inside(now, d) == Inside(was, d)
    decreases |now|, |was|
  {
    if |was| <= |now| && now != [] {
      var n := |now| - 1;
      if |was| == |now| {
        assert was != [];
        InsideKeptSame(now, was, d);
      } else {
        InsideKept(now[..n], was, d);
      }
    }
  }

  lemma {:induction false} InsideKeptSame(now: seq<BucketState>, was: seq<BucketState>, d: set<nat>)
    requires |now| == |was| && forall k :: 0 <= k < |now| && k in d ==> now[k] == was[k]
    ensures Inside(now, d) == Inside(was, d)
  {
    if now != [] {
      InsideKeptSame(now[..|now| - 1], was[..|now| - 1], d);
    }
  }
}
