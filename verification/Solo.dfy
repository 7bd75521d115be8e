/** One request of the goroutine machine played without interruption, from any world: event by
    event, it does to the memory what the pieces of Requests say. */
module Solo {
  import opened Options
  import opened Windows
  import opened Protocol
  import opened Routing
  import opened Goroutines
  import Requests

  /** Some events that have been played, the world they led to, and the goroutines that were started
      after the one that is looked at. */
  datatype Run = Run(events: seq<Event>, world: World, tail: seq<Thread>)

  ghost predicate Ran(cfg: Config, w: World, r: Run)
    requires cfg.Valid()
  {
    Play(cfg, w, r.events) == Some(r.world)
  }

  /** The goroutines of the beginning stand where they stood, and the next one stands at pc. */
  predicate At(r: Run, base: seq<Thread>, l: Locals, pc: Pc, m: State) {
    r.world.threads == base + [Request(l, pc)] + r.tail && r.world.mem == m
  }

  /** One more event. */
  lemma Next(cfg: Config, w: World, r: Run, ev: Event) returns (u: Run)
    requires cfg.Valid() && Ran(cfg, w, r) && Happen(cfg, r.world, ev).Some?
    ensures Ran(cfg, w, u) && Some(u.world) == Happen(cfg, r.world, ev) && u.tail == r.tail
  {
    u := Run(r.events + [ev], Happen(cfg, r.world, ev).value, r.tail);
    assert u.events[..|r.events|] == r.events;
  }

  lemma Replaced(w: World, p: nat, e: Effect)
    requires p < |w.threads| && e.spawned == [] && e.taken == None
    ensures var v := Advance(w, p, e);
      v.threads == w.threads[p := e.self] && v.calls == e.calls && v.open == e.open && v.mem == Perform(w, e.act).mem
  {
    assert w.threads[p := e.self] + [] == w.threads[p := e.self];
  }

  lemma Spawned(w: World, t: nat, e: Effect)
    requires t < |w.threads| && e.taken == None
    ensures var v := Advance(w, t, e);
      && v.threads == w.threads[t := e.self] + e.spawned
      && v.calls == e.calls && v.open == e.open && v.mem == Perform(w, e.act).mem
  {
  }

  lemma OneReplaced(base: seq<Thread>, x: Thread, tail: seq<Thread>, y: Thread)
    ensures (base + [x] + tail)[|base|] == x && (base + [x] + tail)[|base| := y] == base + [y] + tail
  {
  }

  /** One more step of the last goroutine, if it starts no other. */
  lemma Move(cfg: Config, w: World, r: Run, base: seq<Thread>, l: Locals, pc: Pc, m: State, input: Input, e: Effect)
    returns (u: Run)
    requires cfg.Valid() && Ran(cfg, w, r) && At(r, base, l, pc, m)
    requires RequestEffect(cfg, r.world, l, pc, input) == Some(e)
    requires e.self.Request? && e.spawned == [] && e.taken == None && (e.act.Some? ==> Enabled(m, e.act.value))
    ensures Ran(cfg, w, u)
    ensures At(u, base, e.self.l, e.self.pc, if e.act.Some? then Step(m, e.act.value) else m)
    ensures u.world.calls == e.calls && u.world.open == e.open && u.tail == r.tail
  {
    var t := |base|;
    OneReplaced(base, Request(l, pc), r.tail, e.self);
    assert ThreadEffect(cfg, r.world, t, input) == Some(e);
    u := Next(cfg, w, r, Turn(t, input));
    Replaced(r.world, t, e);
  }

  /** A step that only does a memory operation. */
  lemma Does1(cfg: Config, w: World, r: Run, base: seq<Thread>, l: Locals, pc: Pc, m: State, input: Input, a: Action,
      next: Pc)
    returns (u: Run)
    requires cfg.Valid() && Ran(cfg, w, r) && At(r, base, l, pc, m) && Enabled(m, a)
    requires RequestEffect(cfg, r.world, l, pc, input) == Some(Does(r.world, a, Request(l, next)))
    ensures Ran(cfg, w, u) && At(u, base, l, next, Step(m, a)) && SameCalls(u, r)
  {
    u := Move(cfg, w, r, base, l, pc, m, input, Does(r.world, a, Request(l, next)));
  }

  /** A step that only moves on. */
  lemma Quiet1(cfg: Config, w: World, r: Run, base: seq<Thread>, l: Locals, pc: Pc, m: State, input: Input, next: Pc)
    returns (u: Run)
    requires cfg.Valid() && Ran(cfg, w, r) && At(r, base, l, pc, m)
    requires RequestEffect(cfg, r.world, l, pc, input) == Some(Quiet(r.world, Request(l, next)))
    ensures Ran(cfg, w, u) && At(u, base, l, next, m) && SameCalls(u, r)
  {
    u := Move(cfg, w, r, base, l, pc, m, input, Quiet(r.world, Request(l, next)));
  }

  predicate SameCalls(u: Run, r: Run) {
    u.world.calls == r.world.calls && u.world.open == r.world.open && u.tail == r.tail
  }

  // ---------------------------------------------------------------- the request, part by part

  function Fresher(inst: nat, n: nat, b: nat): Locals {
    Locals(inst, n, b, false, false, false)
  }

  predicate Points(l: Locals, m: State) {
    Requests.Known(m, l.inst) && l.b == m.live[l.inst]
  }

  /** A request arrives and finds or creates its bucket. */
  lemma Enter(cfg: Config, w: World, inst: nat, n: nat) returns (r: Run)
    requires cfg.Valid() && LiveExist(w.mem)
    ensures var m := Requests.LookupOutcome(w.mem, inst);
      Requests.Known(m, inst) && Ran(cfg, w, r) && At(r, w.threads, Fresher(inst, n, m.live[inst]), TryFirst, m)
    ensures SameCalls(r, Run([], w, []))
  {
    var l := Fresher(inst, n, 0);
    r := Next(cfg, w, Run([], w, []), Arrive(inst, n));
    assert r.world.threads == w.threads + [Request(l, Start)] + [];
    r := Move(cfg, w, r, w.threads, l, Start, w.mem, Go, RequestEffect(cfg, r.world, l, Start, Go).value);
  }

  /** A tryConsume that succeeds, wherever it is made, and the recorded consumption. */
  lemma Hit(cfg: Config, w: World, r: Run, base: seq<Thread>, l: Locals, pc: Pc, m: State) returns (u: Run)
    requires cfg.Valid() && Ran(cfg, w, r) && At(r, base, l, pc, m)
    requires pc == TryFirst || pc == TrySecond || pc == TryThird
    requires Points(l, m) && l.n <= m.buckets[l.b].tokens
    ensures Ran(cfg, w, u) && At(u, base, l, Done(Allowed), Requests.ConsumeOutcome(m, l.inst, l.n)) && SameCalls(u, r)
  {
    var m1 := Step(m, Admit(l.b, l.n));
    var mid := Does1(cfg, w, r, base, l, pc, m, Go, Admit(l.b, l.n), Count(pc == TryFirst));
    u := Counted(cfg, w, mid, base, l, pc == TryFirst, m1);
    Consumes(m, l.inst, l.n);
  }

  lemma Counted(cfg: Config, w: World, r: Run, base: seq<Thread>, l: Locals, first: bool, m: State) returns (u: Run)
    requires cfg.Valid() && Ran(cfg, w, r) && At(r, base, l, Count(first), m) && IsBucket(m, l.b)
    ensures Ran(cfg, w, u) && At(u, base, l, Done(Allowed), Step(m, Record(l.b, l.n))) && SameCalls(u, r)
  {
    u := Does1(cfg, w, r, base, l, Count(first), m, Go, Record(l.b, l.n), Done(Allowed));
  }

  lemma Consumes(m: State, i: nat, n: nat)
    requires Requests.Known(m, i) && n <= Requests.BucketOf(m, i).tokens
    ensures Step(Step(m, Admit(m.live[i], n)), Record(m.live[i], n)) == Requests.ConsumeOutcome(m, i, n)
  {
  }

  /** A request that its bucket covers is served on the spot. */
  lemma ServeLocally(cfg: Config, w: World, inst: nat, n: nat) returns (r: Run)
    requires cfg.Valid() && LiveExist(w.mem)
    requires Requests.Known(w.mem, inst) && n <= Requests.BucketOf(w.mem, inst).tokens
    ensures Ran(cfg, w, r) && SameCalls(r, Run([], w, []))
    ensures At(r, w.threads, Fresher(inst, n, w.mem.live[inst]), Done(Allowed), Requests.ConsumeOutcome(w.mem, inst, n))
  {
    var l := Fresher(inst, n, w.mem.live[inst]);
    r := Enter(cfg, w, inst, n);
    r := Hit(cfg, w, r, w.threads, l, TryFirst, w.mem);
  }

  /** A tryConsume that fails, the clock, and the window reset if it is due. */
  lemma Renew(cfg: Config, w: World, r: Run, base: seq<Thread>, l: Locals, m: State, now: int)
    returns (u: Run, m2: State)
    requires cfg.Valid() && Ran(cfg, w, r) && At(r, base, l, TryFirst, m)
    requires Points(l, m) && m.buckets[l.b].tokens < l.n
    ensures m2 == Renewed(cfg, m, l.inst, now)
    ensures m2.buckets[l.b].tokens < l.n && Points(l, m2)
    ensures Ran(cfg, w, u) && At(u, base, l, LoadFlag, m2) && SameCalls(u, r)
  {
    u := Quiet1(cfg, w, r, base, l, TryFirst, m, Go, ReadClock);
    m2 := m;
    if Due(m.buckets[l.b].start, cfg.window, now) {
      u := Quiet1(cfg, w, u, base, l, ReadClock, m, Clock(now), ResetLookup(now));
      u, m2 := ResetAlone(cfg, w, u, base, l, m, now);
      u := Quiet1(cfg, w, u, base, l, TrySecond, m2, Go, LoadFlag);
    } else {
      u := Quiet1(cfg, w, u, base, l, ReadClock, m, Clock(now), LoadFlag);
    }
  }

  /** The memory after the reset, if one is due. */
  ghost function Renewed(cfg: Config, m: State, inst: nat, now: int): State
    requires cfg.Valid() && Requests.Known(m, inst)
  {
    if Due(Requests.BucketOf(m, inst).start, cfg.window, now)
    then Requests.ResetOutcome(m, inst, cfg.limit, cfg.window, now, Requests.Answered)
    else m
  }

  /** resetWindow, answered. */
  lemma ResetAlone(cfg: Config, w: World, r: Run, base: seq<Thread>, l: Locals, m: State, now: int)
    returns (u: Run, m2: State)
    requires cfg.Valid() && Ran(cfg, w, r) && At(r, base, l, ResetLookup(now), m) && Points(l, m)
    ensures m2 == Requests.ResetOutcome(m, l.inst, cfg.limit, cfg.window, now, Requests.Answered)
    ensures Points(l, m2) && m2.buckets[l.b].tokens <= m.buckets[l.b].tokens
    ensures Ran(cfg, w, u) && At(u, base, l, TrySecond, m2) && SameCalls(u, r)
  {
    var at := Aligned(now, cfg.window);
    m2 := m;
    u := Quiet1(cfg, w, r, base, l, ResetLookup(now), m, Go, ResetCompare(l.b, at));
    if m.buckets[l.b].start >= at {
      u := Quiet1(cfg, w, u, base, l, ResetCompare(l.b, at), m, Go, TrySecond);
    } else {
      u := Quiet1(cfg, w, u, base, l, ResetCompare(l.b, at), m, Go, ResetScript(l.b, at));
      m2 := Step(m, RedisReset(cfg.limit, at));
      u := Does1(cfg, w, u, base, l, ResetScript(l.b, at), m, Go, RedisReset(cfg.limit, at), ResetDrain(l.b, at));
      u := ResetWrite(cfg, w, u, base, l, m2, l.b, at);
      Requests.ResetWrites(m2, l.b, at);
      m2 := Requests.ResetOutcome(m, l.inst, cfg.limit, cfg.window, now, Requests.Answered);
    }
  }

  /** The four writes of a reset to its bucket. */
  lemma ResetWrite(cfg: Config, w: World, r: Run, base: seq<Thread>, l: Locals, m: State, k: nat, at: int)
    returns (u: Run)
    requires cfg.Valid() && Ran(cfg, w, r) && At(r, base, l, ResetDrain(k, at), m) && IsBucket(m, k)
    ensures Ran(cfg, w, u) && SameCalls(u, r)
    ensures var m2 := Step(Step(m, Drain(k)), SetExhausted(k, false));
      At(u, base, l, TrySecond, Step(Step(m2, ClearConsumed(k)), MoveWindow(k, at)))
  {
    var m1 := Step(m, Drain(k));
    u := Does1(cfg, w, r, base, l, ResetDrain(k, at), m, Go, Drain(k), ResetFlag(k, at));
    u := Does1(cfg, w, u, base, l, ResetFlag(k, at), m1, Go, SetExhausted(k, false), ResetCount(k, at));
    u := ResetEnd(cfg, w, u, base, l, Step(m1, SetExhausted(k, false)), k, at);
  }

  lemma ResetEnd(cfg: Config, w: World, r: Run, base: seq<Thread>, l: Locals, m: State, k: nat, at: int)
    returns (u: Run)
    requires cfg.Valid() && Ran(cfg, w, r) && At(r, base, l, ResetCount(k, at), m) && IsBucket(m, k)
    ensures Ran(cfg, w, u) && SameCalls(u, r)
    ensures At(u, base, l, TrySecond, Step(Step(m, ClearConsumed(k)), MoveWindow(k, at)))
  {
    u := Does1(cfg, w, r, base, l, ResetCount(k, at), m, Go, ClearConsumed(k), ResetMove(k, at));
    u := Does1(cfg, w, u, base, l, ResetMove(k, at), Step(m, ClearConsumed(k)), Go, MoveWindow(k, at), TrySecond);
  }

  /** The router sends the request to Redis, and it leads the call. */
  lemma LeadToRedis(cfg: Config, w: World, r: Run, base: seq<Thread>, l: Locals, m: State) returns (u: Run)
    requires cfg.Valid() && Ran(cfg, w, r) && At(r, base, l, Choose, m) && (l.inst, RedisKind) !in r.world.open
    ensures Ran(cfg, w, u) && At(u, base, l, SendBorrow(|r.world.calls|), m)
    ensures u.world.calls == r.world.calls + [Call(l.inst, RedisKind, false, None)]
    ensures u.world.open == r.world.open[(l.inst, RedisKind) := |r.world.calls|] && u.tail == r.tail
  {
    u := Quiet1(cfg, w, r, base, l, Choose, m, Route(Some(ToRedis)), JoinRedis);
    u := Move(cfg, w, u, base, l, JoinRedis, m, Go, JoinEffect(u.world, l, RedisKind));
  }

  /** The flag is off, the router may send the request to Redis, and it leads its call there. */
  lemma Lead(cfg: Config, w: World, r: Run, base: seq<Thread>, l: Locals, m: State) returns (u: Run)
    requires cfg.Valid() && Ran(cfg, w, r) && At(r, base, l, LoadFlag, m) && Points(l, m)
    requires !l.exhausted && !m.buckets[l.b].exhausted && (l.inst, RedisKind) !in r.world.open
    ensures Obeys(RouteContext("", l.n, m.buckets[l.b].exhausted, true), ToRedis)
    ensures Ran(cfg, w, u) && At(u, base, l, SendBorrow(|r.world.calls|), m)
    ensures u.world.calls == r.world.calls + [Call(l.inst, RedisKind, false, None)]
    ensures u.world.open == r.world.open[(l.inst, RedisKind) := |r.world.calls|] && u.tail == r.tail
  {
    u := Quiet1(cfg, w, r, base, l, LoadFlag, m, Go, Choose);
    u := LeadToRedis(cfg, w, u, base, l, m);
  }

  lemma Replied(cfg: Config, w: World, r: Run, base: seq<Thread>, l: Locals, m: State, c: nat, f: nat) returns (u: Run)
    requires cfg.Valid() && Ran(cfg, w, r) && At(r, base, l, BorrowReply(c, f), m)
    ensures Ran(cfg, w, u) && SameCalls(u, r) && At(u, base, l, ClearFlag(c, f), m)
  {
    u := Quiet1(cfg, w, r, base, l, BorrowReply(c, f), m, Go, ClearFlag(c, f));
  }

  /** The borrow, answered with a grant. */
  lemma Ask(cfg: Config, w: World, r: Run, base: seq<Thread>, l: Locals, m: State, c: nat, size: nat) returns (u: Run)
    requires cfg.Valid() && Ran(cfg, w, r) && At(r, base, l, SendBorrow(c), m)
    requires GrantOf(m, if l.n > size then l.n else size) > 0
    ensures Ran(cfg, w, u) && SameCalls(u, r)
    ensures At(u, base, l, ClearFlag(c, |m.flights|), Step(m, Borrow(if l.n > size then l.n else size)))
  {
    var requested := if l.n > size then l.n else size;
    var f := |m.flights|;
    u := Does1(cfg, w, r, base, l, SendBorrow(c), m, Size(size), Borrow(requested), BorrowReply(c, f));
    u := Replied(cfg, w, u, base, l, Step(m, Borrow(requested)), c, f);
  }

  /** The grant, poured into the bucket. */
  lemma Pour(cfg: Config, w: World, r: Run, base: seq<Thread>, l: Locals, m: State, c: nat, f: nat) returns (u: Run)
    requires cfg.Valid() && Ran(cfg, w, r) && At(r, base, l, ClearFlag(c, f), m) && IsBucket(m, l.b) && IsFlying(m, f)
    ensures Ran(cfg, w, u) && SameCalls(u, r)
    ensures var m2 := Step(m, SetExhausted(l.b, false));
      At(u, base, l, Settle(c, Granted(m.flights[f].amount)), Step(m2, Refill(l.b, f)))
  {
    var m2 := Step(m, SetExhausted(l.b, false));
    u := Does1(cfg, w, r, base, l, ClearFlag(c, f), m, Go, SetExhausted(l.b, false), PourRedis(c, f));
    u := Refilled(cfg, w, u, base, l, m2, c, f);
  }

  lemma Refilled(cfg: Config, w: World, r: Run, base: seq<Thread>, l: Locals, m: State, c: nat, f: nat)
    returns (u: Run)
    requires cfg.Valid() && Ran(cfg, w, r) && At(r, base, l, PourRedis(c, f), m) && IsBucket(m, l.b) && IsFlying(m, f)
    ensures Ran(cfg, w, u) && SameCalls(u, r)
    ensures At(u, base, l, Settle(c, Granted(m.flights[f].amount)), Step(m, Refill(l.b, f)))
  {
    var next := Settle(c, Granted(m.flights[f].amount));
    u := Does1(cfg, w, r, base, l, PourRedis(c, f), m, Go, Refill(l.b, f), next);
  }

  /** Both together. */
  lemma BorrowAlone(cfg: Config, w: World, r: Run, base: seq<Thread>, l: Locals, m: State, c: nat, size: nat)
    returns (u: Run)
    requires cfg.Valid() && Ran(cfg, w, r) && At(r, base, l, SendBorrow(c), m) && Points(l, m)
    requires GrantOf(m, if l.n > size then l.n else size) > 0
    ensures var requested := if l.n > size then l.n else size;
      && Ran(cfg, w, u) && SameCalls(u, r)
      && At(u, base, l, Settle(c, Granted(GrantOf(m, requested))),
            Requests.BorrowOutcome(m, l.inst, requested, Requests.Answered))
  {
    var requested := if l.n > size then l.n else size;
    Requests.BorrowWrites(m, l.inst, requested);
    u := Ask(cfg, w, r, base, l, m, c, size);
    u := Pour(cfg, w, u, base, l, Step(m, Borrow(requested)), c, |m.flights|);
  }

  /** A call is settled, and its leader goes on with the outcome. */
  lemma SettleAlone(cfg: Config, w: World, r: Run, base: seq<Thread>, l: Locals, m: State, c: nat, kind: Kind,
      out: Outcome) returns (u: Run)
    requires cfg.Valid() && Ran(cfg, w, r) && At(r, base, l, Settle(c, out), m)
    requires c < |r.world.calls| && r.world.calls[c].kind == kind && r.world.calls[c].inst == l.inst
    ensures Ran(cfg, w, u) && At(u, base, l, After(kind, out), m)
    ensures u.world.open == r.world.open - {(l.inst, kind)} && u.tail == r.tail
  {
    u := Move(cfg, w, r, base, l, Settle(c, out), m, Go, RequestEffect(cfg, r.world, l, Settle(c, out), Go).value);
  }

  /** The call is settled, and the leader tries again. */
  lemma Conclude(cfg: Config, w: World, r: Run, base: seq<Thread>, l: Locals, m: State, c: nat, g: nat) returns (u: Run)
    requires cfg.Valid() && Ran(cfg, w, r) && At(r, base, l, Settle(c, Granted(g)), m) && g > 0 && !l.background
    requires c < |r.world.calls| && r.world.calls[c].kind == RedisKind && r.world.calls[c].inst == l.inst
    ensures Ran(cfg, w, u) && At(u, base, l, TryThird, m)
    ensures u.world.open == r.world.open - {(l.inst, RedisKind)} && u.tail == r.tail
  {
    u := SettleAlone(cfg, w, r, base, l, m, c, RedisKind, Granted(g));
    u := Quiet1(cfg, w, u, base, l, AfterRedis(Granted(g)), m, Go, TryThird);
  }

  /** What a request makes of the memory that goes to Redis and is served from there. */
  ghost function Lent(cfg: Config, m: State, inst: nat, n: nat, size: nat, now: int): State
    requires cfg.Valid() && LiveExist(m)
  {
    var m1 := Renewed(cfg, Requests.LookupOutcome(m, inst), inst, now);
    Requests.BorrowOutcome(m1, inst, if n > size then n else size, Requests.Answered)
  }

  /** A request that its bucket does not cover, and Redis does, is served after one borrow. */
  lemma ServeFromRedis(cfg: Config, w: World, inst: nat, n: nat, size: nat, now: int) returns (r: Run)
    requires cfg.Valid() && LiveExist(w.mem) && (inst, RedisKind) !in w.open
    requires var m := Requests.LookupOutcome(w.mem, inst);
      Requests.BucketOf(m, inst).tokens < n && !Requests.BucketOf(Renewed(cfg, m, inst, now), inst).exhausted
    requires n <= Requests.BucketOf(Lent(cfg, w.mem, inst, n, size, now), inst).tokens
    ensures Ran(cfg, w, r) && r.world.open == w.open && r.tail == []
    ensures var m := Lent(cfg, w.mem, inst, n, size, now);
      At(r, w.threads, Fresher(inst, n, m.live[inst]), Done(Allowed), Requests.ConsumeOutcome(m, inst, n))
  {
    var base, m0 := w.threads, Requests.LookupOutcome(w.mem, inst);
    var l := Fresher(inst, n, m0.live[inst]);
    r := Enter(cfg, w, inst, n);
    var m1;
    r, m1 := Renew(cfg, w, r, base, l, m0, now);
    var c, requested := |r.world.calls|, if n > size then n else size;
    r := Lead(cfg, w, r, base, l, m1);
    var m2 := Requests.BorrowOutcome(m1, inst, requested, Requests.Answered);
    r := BorrowAlone(cfg, w, r, base, l, m1, c, size);
    r := Conclude(cfg, w, r, base, l, m2, c, GrantOf(m1, requested));
    assert w.open[(inst, RedisKind) := c] - {(inst, RedisKind)} == w.open;
    r := Hit(cfg, w, r, base, l, TryThird, m2);
  }
}
