/** The peers' part of a request of the goroutine machine, played without interruption: a leader
    that probes one ranked peer after the other. */
module Probes {
  import opened Options
  import opened Protocol
  import opened Goroutines
  import opened Solo
  import Requests

  /** The leader is probing, and the newest goroutine is its probe. */
  predicate Out(r: Run, base: seq<Thread>, l: Locals, c: nat, q: Thread, m: State) {
    r.world.threads == base + [Request(l, Probing(c))] + r.tail + [q] && r.world.mem == m
  }

  /** A step of the probe. */
  lemma Steps(cfg: Config, w: World, r: Run, base: seq<Thread>, l: Locals, c: nat, q: Thread, m: State, input: Input,
      act: Option<Action>, next: ProbePc) returns (u: Run)
    requires cfg.Valid() && Ran(cfg, w, r) && q.Probe? && Out(r, base, l, c, q, m)
    requires ProbeEffect(cfg, r.world, q, input) ==
      Some(Effect(act, q.(at := next), [], r.world.calls, r.world.open, None))
    requires act.Some? ==> Enabled(m, act.value)
    ensures Ran(cfg, w, u) && SameCalls(u, r)
    ensures Out(u, base, l, c, q.(at := next), if act.Some? then Step(m, act.value) else m)
  {
    var p := |r.world.threads| - 1;
    var e := Effect(act, q.(at := next), [], r.world.calls, r.world.open, None);
    assert ThreadEffect(cfg, r.world, p, input) == Some(e);
    u := Next(cfg, w, r, Turn(p, input));
    Replaced(r.world, p, e);
    assert r.world.threads[p := e.self] == base + [Request(l, Probing(c))] + r.tail + [e.self];
  }

  lemma Received(w: World, t: nat, p: nat, e: Effect)
    requires t < |w.threads| && p < |w.threads| && t != p && w.threads[p].Probe?
    requires e.taken == Some(p) && e.spawned == [] && e.act == None
    ensures var v := Advance(w, t, e);
      && v.threads == w.threads[t := e.self][p := w.threads[p].(at := Gone)]
      && v.calls == e.calls && v.open == e.open && v.mem == w.mem
  {
  }

  /** A probe that has finished joins those that have, and leaves its leader probing. */
  lemma Landed(r: Run, base: seq<Thread>, l: Locals, c: nat, q: Thread, m: State) returns (u: Run)
    requires Out(r, base, l, c, q, m)
    ensures u == r.(tail := r.tail + [q]) && At(u, base, l, Probing(c), m)
  {
    u := r.(tail := r.tail + [q]);
    assert base + [Request(l, Probing(c))] + r.tail + [q] == base + [Request(l, Probing(c))] + u.tail;
  }

  /** The calls are the same, and one more goroutine has been started and has finished. */
  predicate OneJoins(u: Run, r: Run) {
    && u.world.calls == r.world.calls && u.world.open == r.world.open
    && |u.tail| == |r.tail| + 1 && u.tail[..|r.tail|] == r.tail && Finished(u.tail[|r.tail|])
  }

  /** The leader's call, which takes replies. */
  predicate Taking(r: Run, c: nat) {
    c < |r.world.calls| && !r.world.calls[c].closed
  }

  /** The probe is sent, and looks the server's bucket up. */
  lemma Send(cfg: Config, w: World, r: Run, base: seq<Thread>, l: Locals, c: nat, m: State, server: nat)
    returns (u: Run, q: Thread)
    requires cfg.Valid() && Ran(cfg, w, r) && At(r, base, l, Probing(c), m) && Taking(r, c)
    requires server != l.inst && LiveExist(m)
    ensures var s := Requests.LookupOutcome(m, server);
      && Requests.Known(s, server) && Ran(cfg, w, u) && SameCalls(u, r)
      && q == Probe(c, l.inst, server, l.n, ReadSurplus(s.live[server])) && Out(u, base, l, c, q, s)
  {
    var first := Probe(c, l.inst, server, l.n, Access);
    u := Next(cfg, w, r, Turn(|base|, ProbePeer(server)));
    assert u.world.threads == r.world.threads[|base| := Request(l, Probing(c))] + [first];
    assert r.world.threads[|base| := Request(l, Probing(c))] == r.world.threads;
    assert Out(u, base, l, c, first, m);
    var (act, b) := Lookup(m, server);
    u := Steps(cfg, w, u, base, l, c, first, m, Go, act, ReadSurplus(b));
    q := first.(at := ReadSurplus(b));
  }

  /** A server with nothing above its reserve ends the probe. */
  lemma Poor(cfg: Config, w: World, r: Run, base: seq<Thread>, l: Locals, c: nat, q: Thread, m: State, b: nat)
    returns (u: Run)
    requires cfg.Valid() && Ran(cfg, w, r) && q.Probe? && q.at == ReadSurplus(b) && Out(r, base, l, c, q, m)
    requires IsBucket(m, b) && m.buckets[b].tokens <= cfg.reserved
    ensures Ran(cfg, w, u) && OneJoins(u, r) && At(u, base, l, Probing(c), m)
  {
    u := Steps(cfg, w, r, base, l, c, q, m, Go, None, Gone);
    u := Landed(u, base, l, c, q.(at := Gone), m);
  }

  /** A server with something above its reserve takes as much of it as is needed, and sends it. */
  lemma Rich(cfg: Config, w: World, r: Run, base: seq<Thread>, l: Locals, c: nat, q: Thread, m: State, gift: nat)
    returns (u: Run)
    requires cfg.Valid() && Ran(cfg, w, r) && q.Probe? && Requests.Known(m, q.server) && q.need > 0
    requires q.at == ReadSurplus(m.live[q.server]) && Out(r, base, l, c, q, m)
    requires var had := Requests.BucketOf(m, q.server).tokens;
      had > cfg.reserved && gift == if q.need < had - cfg.reserved then q.need else had - cfg.reserved
    ensures Ran(cfg, w, u) && SameCalls(u, r)
    ensures Out(u, base, l, c, q.(at := Reply(|m.flights|)), Step(m, Donate(m.live[q.server], gift)))
  {
    var b := m.live[q.server];
    u := Steps(cfg, w, r, base, l, c, q, m, Go, None, Transfer(gift));
    var q1 := q.(at := Transfer(gift));
    u := Transfers(cfg, w, u, base, l, c, q1, m, gift);
  }

  /** The transferer looks the bucket up again, reads it again, and takes the gift from it. */
  lemma Transfers(cfg: Config, w: World, r: Run, base: seq<Thread>, l: Locals, c: nat, q: Thread, m: State, gift: nat)
    returns (u: Run)
    requires cfg.Valid() && Ran(cfg, w, r) && q.Probe? && Requests.Known(m, q.server)
    requires q.at == Transfer(gift) && Out(r, base, l, c, q, m)
    requires 0 < gift <= Requests.BucketOf(m, q.server).tokens
    ensures Ran(cfg, w, u) && SameCalls(u, r)
    ensures Out(u, base, l, c, q.(at := Reply(|m.flights|)), Step(m, Donate(m.live[q.server], gift)))
  {
    var b := m.live[q.server];
    u := Steps(cfg, w, r, base, l, c, q, m, Go, None, ReadTokens(b, gift));
    var q2 := q.(at := ReadTokens(b, gift));
    u := Steps(cfg, w, u, base, l, c, q2, m, Go, None, Take(b, gift));
    u := Takes(cfg, w, u, base, l, c, q.(at := Take(b, gift)), m, gift);
  }

  lemma Takes(cfg: Config, w: World, r: Run, base: seq<Thread>, l: Locals, c: nat, q: Thread, m: State, gift: nat)
    returns (u: Run)
    requires cfg.Valid() && Ran(cfg, w, r) && q.Probe? && Requests.Known(m, q.server)
    requires q.at == Take(m.live[q.server], gift) && Out(r, base, l, c, q, m)
    requires 0 < gift <= Requests.BucketOf(m, q.server).tokens
    ensures Ran(cfg, w, u) && SameCalls(u, r)
    ensures Out(u, base, l, c, q.(at := Reply(|m.flights|)), Step(m, Donate(m.live[q.server], gift)))
  {
    u := Steps(cfg, w, r, base, l, c, q, m, Go, Some(Donate(m.live[q.server], gift)), Reply(|m.flights|));
  }

  /** The reply is lost, and the grant with it. */
  lemma Wasted(cfg: Config, w: World, r: Run, base: seq<Thread>, l: Locals, c: nat, q: Thread, m: State, f: nat)
    returns (u: Run)
    requires cfg.Valid() && Ran(cfg, w, r) && q.Probe? && q.at == Reply(f) && Out(r, base, l, c, q, m) && IsFlying(m, f)
    ensures Ran(cfg, w, u) && OneJoins(u, r) && At(u, base, l, Probing(c), Step(m, Lose(f)))
  {
    u := Steps(cfg, w, r, base, l, c, q, m, NetFail(false), Some(Lose(f)), Gone);
    u := Landed(u, base, l, c, q.(at := Gone), Step(m, Lose(f)));
  }

  lemma Receives(cfg: Config, w: World, t: nat, p: nat, l: Locals, c: nat, f: nat)
    requires cfg.Valid() && t < |w.threads| && p < |w.threads| && w.threads[t] == Request(l, Probing(c))
    requires w.threads[p].Probe? && w.threads[p].c == c && w.threads[p].at == Reply(f) && c < |w.calls|
    ensures ThreadEffect(cfg, w, t, Receive(p)) == Some(Effect(None, Request(l, PourPeer(c, f)), [],
      w.calls[c := w.calls[c].(closed := true)], w.open, Some(p)))
  {
  }

  /** The leader takes the reply, and takes no more. */
  lemma Taken(cfg: Config, w: World, r: Run, base: seq<Thread>, l: Locals, c: nat, q: Thread, m: State, f: nat)
    returns (u: Run)
    requires cfg.Valid() && Ran(cfg, w, r) && q.Probe? && q.at == Reply(f) && q.c == c && Out(r, base, l, c, q, m)
    requires Taking(r, c)
    ensures Ran(cfg, w, u) && At(u, base, l, PourPeer(c, f), m)
    ensures u.world.open == r.world.open && u.tail == r.tail + [q.(at := Gone)]
    ensures u.world.calls == r.world.calls[c := r.world.calls[c].(closed := true)]
  {
    var p := |r.world.threads| - 1;
    var shut := r.world.calls[c := r.world.calls[c].(closed := true)];
    var e := Effect(None, Request(l, PourPeer(c, f)), [], shut, r.world.open, Some(p));
    Receives(cfg, r.world, |base|, p, l, c, f);
    var next := Next(cfg, w, r, Turn(|base|, Receive(p)));
    Received(r.world, |base|, p, e);
    u := next.(tail := r.tail + [q.(at := Gone)]);
    TwoReplaced(base, Request(l, Probing(c)), r.tail, q, Request(l, PourPeer(c, f)), q.(at := Gone));
  }

  lemma TwoReplaced(base: seq<Thread>, x: Thread, tail: seq<Thread>, q: Thread, x2: Thread, q2: Thread)
    ensures var all := base + [x] + tail + [q];
      all[|base| := x2][|all| - 1 := q2] == base + [x2] + (tail + [q2])
  {
  }

  /** And pours the grant into its bucket. */
  lemma Poured(cfg: Config, w: World, r: Run, base: seq<Thread>, l: Locals, m: State, c: nat, f: nat) returns (u: Run)
    requires cfg.Valid() && Ran(cfg, w, r) && At(r, base, l, PourPeer(c, f), m) && IsBucket(m, l.b) && IsFlying(m, f)
    ensures Ran(cfg, w, u) && SameCalls(u, r)
    ensures At(u, base, l, Settle(c, Granted(m.flights[f].amount)), Step(m, Refill(l.b, f)))
  {
    var next := Settle(c, Granted(m.flights[f].amount));
    u := Does1(cfg, w, r, base, l, PourPeer(c, f), m, Go, Refill(l.b, f), next);
  }

  // ---------------------------------------------------------------- two probes at once

  /** One more step of the probe in place p, wherever it is. */
  lemma StepAt(cfg: Config, w: World, r: Run, p: nat, q: Thread, input: Input, act: Option<Action>, next: ProbePc)
    returns (u: Run)
    requires cfg.Valid() && Ran(cfg, w, r) && p < |r.world.threads| && r.world.threads[p] == q && q.Probe?
    requires ProbeEffect(cfg, r.world, q, input) ==
      Some(Effect(act, q.(at := next), [], r.world.calls, r.world.open, None))
    requires act.Some? ==> Enabled(r.world.mem, act.value)
    ensures Ran(cfg, w, u) && u.world.threads == r.world.threads[p := q.(at := next)]
    ensures u.world.mem == if act.Some? then Step(r.world.mem, act.value) else r.world.mem
  {
    var e := Effect(act, q.(at := next), [], r.world.calls, r.world.open, None);
    assert ThreadEffect(cfg, r.world, p, input) == Some(e);
    u := Next(cfg, w, r, Turn(p, input));
    Replaced(r.world, p, e);
  }

  /** A probe that has read a surplus takes as much of it as it finds. */
  lemma TakesWhatIsThere(cfg: Config, w: World, r: Run, p: nat, q: Thread, amount: nat) returns (u: Run)
    requires cfg.Valid() && Ran(cfg, w, r) && p < |r.world.threads| && r.world.threads[p] == q && q.Probe?
    requires q.at == Transfer(amount) && amount > 0 && Requests.Known(r.world.mem, q.server)
    ensures var m := r.world.mem;
      var there := Requests.BucketOf(m, q.server).tokens;
      && Ran(cfg, w, u) && Requests.Known(u.world.mem, q.server) && u.world.mem.live == m.live
      && Requests.BucketOf(u.world.mem, q.server).tokens == (if amount < there then there - amount else 0)
      && |u.world.threads| == |r.world.threads|
      && (forall t :: 0 <= t < |r.world.threads| && t != p ==> u.world.threads[t] == r.world.threads[t])
  {
    var m := r.world.mem;
    var b := m.live[q.server];
    var taken := Min(amount, m.buckets[b].tokens);
    u := StepAt(cfg, w, r, p, q, Go, None, ReadTokens(b, amount));
    var q1 := q.(at := ReadTokens(b, amount));
    if taken == 0 {
      u := StepAt(cfg, w, u, p, q1, Go, None, Gone);
    } else {
      u := StepAt(cfg, w, u, p, q1, Go, None, Take(b, taken));
      u := StepAt(cfg, w, u, p, q.(at := Take(b, taken)), Go, Some(Donate(b, taken)), Reply(|m.flights|));
    }
  }

  lemma ReadsSurplus(cfg: Config, w: World, r: Run, p: nat, q: Thread) returns (u: Run)
    requires cfg.Valid() && Ran(cfg, w, r) && p < |r.world.threads| && r.world.threads[p] == q && q.Probe?
    requires Requests.Known(r.world.mem, q.server) && q.at == ReadSurplus(r.world.mem.live[q.server])
    requires var have := Requests.BucketOf(r.world.mem, q.server).tokens; cfg.reserved < have <= q.need
    ensures var surplus := Requests.BucketOf(r.world.mem, q.server).tokens - cfg.reserved;
      Ran(cfg, w, u) && u.world.threads == r.world.threads[p := q.(at := Transfer(surplus))]
    ensures u.world.mem == r.world.mem
  {
    var surplus := Requests.BucketOf(r.world.mem, q.server).tokens - cfg.reserved;
    u := StepAt(cfg, w, r, p, q, Go, None, Transfer(surplus));
  }

  lemma BothRead(cfg: Config, w: World, r: Run, p: nat, q: nat, one: Thread, two: Thread, surplus: nat)
    returns (u: Run)
    requires cfg.Valid() && Ran(cfg, w, r) && p < |r.world.threads| && q < |r.world.threads| && p != q
    requires r.world.threads[p] == one && r.world.threads[q] == two && one.Probe? && two.Probe?
    requires one.server == two.server && Requests.Known(r.world.mem, one.server)
    requires one.at == two.at == ReadSurplus(r.world.mem.live[one.server])
    requires var have := Requests.BucketOf(r.world.mem, one.server).tokens;
      cfg.reserved < have <= one.need && have <= two.need && surplus == have - cfg.reserved
    ensures Ran(cfg, w, u) && p < |u.world.threads| && q < |u.world.threads| && u.world.mem == r.world.mem
    ensures u.world.threads[p] == one.(at := Transfer(surplus)) && u.world.threads[q] == two.(at := Transfer(surplus))
  {
    u := ReadsSurplus(cfg, w, r, p, one);
    u := ReadsSurplus(cfg, w, u, q, two);
  }

  /** The reserve is kept by each probe alone, not by two together: when both have read the surplus
      before either takes it, the second takes from the reserve. */
  lemma ReserveRace(cfg: Config, w: World, p: nat, q: nat, have: nat) returns (r: Run)
    requires cfg.Valid() && p < |w.threads| && q < |w.threads| && p != q
    requires w.threads[p].Probe? && w.threads[q].Probe? && w.threads[p].server == w.threads[q].server
    requires Requests.Known(w.mem, w.threads[p].server) && have > cfg.reserved
    requires Requests.BucketOf(w.mem, w.threads[p].server).tokens == have
    requires w.threads[p].at == w.threads[q].at == ReadSurplus(w.mem.live[w.threads[p].server])
    requires w.threads[p].need >= have && w.threads[q].need >= have
    ensures var server := w.threads[p].server;
      && Ran(cfg, w, r) && Requests.Known(r.world.mem, server)
      && Requests.BucketOf(r.world.mem, server).tokens ==
           if 2 * cfg.reserved > have then 2 * cfg.reserved - have else 0
  {
    var one, two, surplus := w.threads[p], w.threads[q], have - cfg.reserved;
    r := BothRead(cfg, w, Run([], w, []), p, q, one, two, surplus);
    r := BothTake(cfg, w, r, p, q, one.(at := Transfer(surplus)), two.(at := Transfer(surplus)), surplus);
  }

  lemma BothTake(cfg: Config, w: World, r: Run, p: nat, q: nat, one: Thread, two: Thread, amount: nat) returns (u: Run)
    requires cfg.Valid() && Ran(cfg, w, r) && p < |r.world.threads| && q < |r.world.threads| && p != q
    requires r.world.threads[p] == one && r.world.threads[q] == two && one.Probe? && two.Probe?
    requires one.at == two.at == Transfer(amount) && amount > 0 && one.server == two.server
    requires Requests.Known(r.world.mem, one.server)
    requires amount <= Requests.BucketOf(r.world.mem, one.server).tokens
    ensures var there := Requests.BucketOf(r.world.mem, one.server).tokens;
      && Ran(cfg, w, u) && Requests.Known(u.world.mem, one.server)
      && Requests.BucketOf(u.world.mem, one.server).tokens == if 2 * amount < there then there - 2 * amount else 0
  {
    u := TakesWhatIsThere(cfg, w, r, p, one, amount);
    u := TakesWhatIsThere(cfg, w, u, q, two, amount);
  }
}
