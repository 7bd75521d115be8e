/** The singleflight groups: one leader for each call, one call at a time for each instance and kind,
    and nobody waits for a call that nobody is working on. */
module Singleflight {
  import opened Options
  import opened Protocol
  import opened Routing
  import opened Goroutines

  /** The call a goroutine is working on. */
  function Leads(t: Thread): Option<nat> {
    match t
    case Request(_, SendBorrow(c)) => Some(c)
    case Request(_, BorrowReply(c, _)) => Some(c)
    case Request(_, EmptyReply(c)) => Some(c)
    case Request(_, ClearFlag(c, _)) => Some(c)
    case Request(_, PourRedis(c, _)) => Some(c)
    case Request(_, Probing(c)) => Some(c)
    case Request(_, PourPeer(c, _)) => Some(c)
    case Request(_, Settle(c, _)) => Some(c)
    case Request(_, _) => None
    case Probe(_, _, _, _, _) => None
  }

  /** The call a goroutine refers to without working on it: the one it waits for, or probes for. */
  function Needs(t: Thread): Option<nat> {
    match t
    case Request(_, Await(c)) => Some(c)
    case Request(_, _) => None
    case Probe(c, _, _, _, _) => Some(c)
  }

  predicate Unsettled(calls: seq<Call>, c: nat) {
    c < |calls| && calls[c].result.None?
  }

  function KeyOf(call: Call): (nat, Kind) {
    (call.inst, call.kind)
  }

  /** Leaders work on unsettled calls, each on its own, and every unsettled call has one. */
  ghost predicate LeadersWork(threads: seq<Thread>, calls: seq<Call>) {
    && (forall t :: 0 <= t < |threads| && Leads(threads[t]).Some? ==> Unsettled(calls, Leads(threads[t]).value))
    && LeadApart(threads)
    && (forall c: nat :: Unsettled(calls, c) ==> HasLeader(threads, c))
  }

  predicate LeadApart(threads: seq<Thread>) {
    forall t, u :: 0 <= t < u < |threads| && Leads(threads[t]).Some? ==> Leads(threads[t]) != Leads(threads[u])
  }

  ghost predicate HasLeader(threads: seq<Thread>, c: nat) {
    exists t :: 0 <= t < |threads| && Leads(threads[t]) == Some(c)
  }

  /** The group's table lists exactly the unsettled calls, one for each instance and kind. */
  ghost predicate TableRight(calls: seq<Call>, open: map<(nat, Kind), nat>) {
    && (forall k :: k in open ==> Unsettled(calls, open[k]) && KeyOf(calls[open[k]]) == k)
    && (forall c: nat :: Unsettled(calls, c) ==> KeyOf(calls[c]) in open && open[KeyOf(calls[c])] == c)
  }

  ghost predicate Led(w: World) {
    && LeadersWork(w.threads, w.calls)
    && TableRight(w.calls, w.open)
    && (forall t :: 0 <= t < |w.threads| && Needs(w.threads[t]).Some? ==> Needs(w.threads[t]).value < |w.calls|)
    && (forall c :: 0 <= c < |w.calls| && w.calls[c].result.Some? ==> w.calls[c].closed)
  }

  // ---------------------------------------------------------------- what one effect may do

  /** Nothing happens to the calls. */
  predicate CallsStay(w: World, self: Thread, e: Effect) {
    && e.calls == w.calls && e.open == w.open && Leads(e.self) == Leads(self)
    && (Needs(e.self).Some? ==> Needs(e.self) == Needs(self) || Needs(e.self).value in w.open.Values)
  }

  /** A goroutine starts a call of its own. */
  predicate CallStarts(w: World, self: Thread, e: Effect) {
    && Leads(self) == None && Leads(e.self) == Some(|w.calls|) && Needs(e.self) == None
    && |e.calls| == |w.calls| + 1 && e.calls[..|w.calls|] == w.calls
    && var call := e.calls[|w.calls|];
       call.result.None? && KeyOf(call) !in w.open && e.open == w.open[KeyOf(call) := |w.calls|]
  }

  /** A leader stops taking replies. */
  predicate CallCloses(w: World, self: Thread, e: Effect) {
    && Leads(self).Some? && Leads(e.self) == Leads(self) && Needs(e.self) == None && e.open == w.open
    && Leads(self).value < |w.calls|
    && e.calls == w.calls[Leads(self).value := w.calls[Leads(self).value].(closed := true)]
  }

  /** A leader settles its call. */
  predicate CallEnds(w: World, self: Thread, e: Effect) {
    && Leads(self).Some? && Leads(e.self) == None && Needs(e.self) == None
    && Leads(self).value < |w.calls| == |e.calls|
    && var c := Leads(self).value;
       && e.calls == w.calls[c := e.calls[c]] && e.calls[c].result.Some? && e.calls[c].closed
       && KeyOf(e.calls[c]) == KeyOf(w.calls[c]) && e.open == w.open - {KeyOf(w.calls[c])}
  }

  /** Goroutines that are started refer to the starter's call at most. */
  predicate StartsFit(self: Thread, e: Effect) {
    forall u :: u in e.spawned ==> Leads(u) == None && (Needs(u) == None || Needs(u) == Leads(self))
  }

  predicate CallMove(w: World, self: Thread, e: Effect) {
    && StartsFit(self, e)
    && (CallsStay(w, self, e) || CallStarts(w, self, e) || CallCloses(w, self, e) || CallEnds(w, self, e))
  }

  lemma JoinMoves(w: World, l: Locals, pc: Pc, kind: Kind)
    requires pc == if kind == RedisKind then JoinRedis else JoinPeer
    ensures CallMove(w, Request(l, pc), JoinEffect(w, l, kind))
  {
    var e, k := JoinEffect(w, l, kind), (l.inst, kind);
    assert e.spawned == [];
    if k !in w.open {
      assert e.calls == w.calls + [Call(k.0, k.1, false, None)];
      assert CallStarts(w, Request(l, pc), e);
    }
  }

  lemma ProbingMoves(w: World, l: Locals, c: nat, input: Input, e: Effect)
    requires ProbingEffect(w, l, c, input) == Some(e)
    ensures CallMove(w, Request(l, Probing(c)), e)
  {
    if input.ProbePeer? {
      assert e.spawned == [Probe(c, l.inst, input.server, l.n, Access)];
    } else {
      assert e.spawned == [];
    }
  }

  lemma AcquireMoves(w: World, l: Locals, pc: Pc, input: Input, e: Effect)
    requires AcquireEffect(w, l, pc, input) == Some(e)
    ensures CallMove(w, Request(l, pc), e)
  {
    if pc.JoinRedis? {
      JoinMoves(w, l, pc, RedisKind);
    } else if pc.JoinPeer? {
      JoinMoves(w, l, pc, PeerKind);
    } else if pc.Probing? {
      ProbingMoves(w, l, pc.c, input, e);
    } else {
      assert e.spawned == [];
      assert if pc.Settle? then CallEnds(w, Request(l, pc), e) else CallsStay(w, Request(l, pc), e);
    }
  }

  lemma ResetMoves(cfg: Config, w: World, l: Locals, pc: Pc, input: Input, e: Effect)
    requires cfg.Valid() && ResetEffect(cfg, w, l, pc, input) == Some(e)
    ensures CallMove(w, Request(l, pc), e)
  {
    assert e.spawned == [];
  }

  lemma RequestMoves(cfg: Config, w: World, l: Locals, pc: Pc, input: Input, e: Effect)
    requires cfg.Valid() && RequestEffect(cfg, w, l, pc, input) == Some(e)
    ensures CallMove(w, Request(l, pc), e)
  {
    if ResetEffect(cfg, w, l, pc, input) == Some(e) {
      ResetMoves(cfg, w, l, pc, input, e);
    } else if AcquireEffect(w, l, pc, input) == Some(e) {
      AcquireMoves(w, l, pc, input, e);
    } else {
      if e.spawned != [] {
        assert e.spawned == [Request(Locals(l.inst, 0, l.b, true, false, false), JoinRedis)];
      }
      assert CallsStay(w, Request(l, pc), e);
    }
  }

  lemma ProbeMoves(cfg: Config, w: World, t: Thread, input: Input, e: Effect)
    requires t.Probe? && ProbeEffect(cfg, w, t, input) == Some(e)
    ensures CallMove(w, t, e)
  {
    assert e.spawned == [];
  }

  // ---------------------------------------------------------------- every step keeps it

  /** The goroutines after a step: the mover's new self, the others as far as calls go, the new. */
  lemma ThreadsAfter(w: World, t: nat, e: Effect)
    requires t < |w.threads| && CallMove(w, w.threads[t], e)
    requires e.taken.Some? ==> e.taken.value != t
    ensures var v := Advance(w, t, e);
      && |w.threads| <= |v.threads| && v.threads[t] == e.self
      && (forall u :: 0 <= u < |w.threads| && u != t ==>
            Leads(v.threads[u]) == Leads(w.threads[u]) && Needs(v.threads[u]) == Needs(w.threads[u]))
      && (forall u :: |w.threads| <= u < |v.threads| ==>
            Leads(v.threads[u]) == None && (Needs(v.threads[u]) == None || Needs(v.threads[u]) == Leads(w.threads[t])))
  {
    var v := Advance(w, t, e);
    forall u | |w.threads| <= u < |v.threads|
      ensures Leads(v.threads[u]) == None && (Needs(v.threads[u]) == None || Needs(v.threads[u]) == Leads(w.threads[t]))
    {
      assert v.threads[u] == e.spawned[u - |w.threads|];
      assert v.threads[u] in e.spawned;
    }
  }

  /** Only a probe's reply is ever taken, by somebody else. */
  lemma TakenIsOther(cfg: Config, w: World, t: nat, input: Input)
    requires cfg.Valid() && t < |w.threads| && ThreadEffect(cfg, w, t, input).Some?
    ensures var e := ThreadEffect(cfg, w, t, input).value; e.taken.Some? ==> e.taken.value != t
  {
  }

  /** Leaders after a step: the mover keeps, takes up or lays down its own call. */
  lemma LeadersKept(w: World, t: nat, e: Effect)
    requires t < |w.threads| && Led(w) && CallMove(w, w.threads[t], e)
    requires e.taken.Some? ==> e.taken.value != t
    ensures LeadersWork(Advance(w, t, e).threads, e.calls)
  {
    var v := Advance(w, t, e);
    ThreadsAfter(w, t, e);
    forall c: nat | Unsettled(e.calls, c)
      ensures HasLeader(v.threads, c)
    {
      if Leads(e.self) == Some(c) {
        assert Leads(v.threads[t]) == Some(c);
      } else {
        assert Unsettled(w.calls, c);
        var u :| 0 <= u < |w.threads| && Leads(w.threads[u]) == Some(c);
        assert Leads(v.threads[u]) == Some(c);
      }
    }
    LeadersApart(w, t, e);
  }

  lemma LeadersApart(w: World, t: nat, e: Effect)
    requires t < |w.threads| && Led(w) && CallMove(w, w.threads[t], e)
    requires e.taken.Some? ==> e.taken.value != t
    ensures var v := Advance(w, t, e);
      && LeadApart(v.threads)
      && (forall u :: 0 <= u < |v.threads| && Leads(v.threads[u]).Some? ==>
        Unsettled(e.calls, Leads(v.threads[u]).value))
  {
    var v := Advance(w, t, e);
    forall u | 0 <= u < |v.threads| && Leads(v.threads[u]).Some?
      ensures Unsettled(e.calls, Leads(v.threads[u]).value)
    {
      LeadAfter(w, t, e, u);
    }
    forall u, x | 0 <= u < x < |v.threads| && Leads(v.threads[u]).Some?
      ensures Leads(v.threads[u]) != Leads(v.threads[x])
    {
      LeadAfter(w, t, e, u);
      if Leads(v.threads[x]).Some? {
        LeadAfter(w, t, e, x);
      }
    }
  }

  /** A leader after a step is the mover, or was a leader before, of another call than the mover's. */
  lemma LeadAfter(w: World, t: nat, e: Effect, u: nat)
    requires t < |w.threads| && Led(w) && CallMove(w, w.threads[t], e)
    requires e.taken.Some? ==> e.taken.value != t
    requires u < |Advance(w, t, e).threads| && Leads(Advance(w, t, e).threads[u]).Some?
    ensures var lead := Leads(Advance(w, t, e).threads[u]);
      && Unsettled(e.calls, lead.value)
      && (u == t ==> lead == Leads(e.self))
      && (u != t ==>
            && u < |w.threads| && lead == Leads(w.threads[u])
            && lead != Leads(w.threads[t]) && lead != Leads(e.self))
  {
    ThreadsAfter(w, t, e);
    if u != t {
      assert Unsettled(w.calls, Leads(w.threads[u]).value);
      assert Leads(w.threads[u]) != Leads(w.threads[t]);
    } else if Leads(w.threads[t]).Some? {
      assert Unsettled(w.calls, Leads(w.threads[t]).value);
    }
  }

  lemma TableKept(w: World, self: Thread, e: Effect)
    requires TableRight(w.calls, w.open) && CallMove(w, self, e)
    requires Leads(self).Some? ==> Unsettled(w.calls, Leads(self).value)
    ensures TableRight(e.calls, e.open)
  {
    forall c: nat | Unsettled(e.calls, c)
      ensures KeyOf(e.calls[c]) in e.open && e.open[KeyOf(e.calls[c])] == c
    {
      if c < |w.calls| {
        assert Unsettled(w.calls, c) && KeyOf(e.calls[c]) == KeyOf(w.calls[c]);
      }
    }
    forall k | k in e.open
      ensures Unsettled(e.calls, e.open[k]) && KeyOf(e.calls[e.open[k]]) == k
    {
      if k in w.open {
        assert Unsettled(w.calls, w.open[k]) && KeyOf(w.calls[w.open[k]]) == k;
      }
    }
  }

  lemma NeedsKept(w: World, t: nat, e: Effect)
    requires t < |w.threads| && Led(w) && CallMove(w, w.threads[t], e)
    requires e.taken.Some? ==> e.taken.value != t
    ensures var v := Advance(w, t, e);
      && (forall u :: 0 <= u < |v.threads| && Needs(v.threads[u]).Some? ==> Needs(v.threads[u]).value < |e.calls|)
      && (forall c :: 0 <= c < |e.calls| && e.calls[c].result.Some? ==> e.calls[c].closed)
  {
    var v := Advance(w, t, e);
    ThreadsAfter(w, t, e);
    assert |w.calls| <= |e.calls|;
    forall u | 0 <= u < |v.threads| && Needs(v.threads[u]).Some?
      ensures Needs(v.threads[u]).value < |e.calls|
    {
      if u < |w.threads| && u != t {
        assert Needs(w.threads[u]).value < |w.calls|;
      }
    }
    forall c | 0 <= c < |e.calls| && e.calls[c].result.Some?
      ensures e.calls[c].closed
    {
      if c < |w.calls| && w.calls[c].result.Some? {
        assert w.calls[c].closed;
      }
    }
  }

  lemma MoveOf(cfg: Config, w: World, t: nat, input: Input)
    requires cfg.Valid() && t < |w.threads| && ThreadEffect(cfg, w, t, input).Some?
    ensures CallMove(w, w.threads[t], ThreadEffect(cfg, w, t, input).value)
  {
    var e := ThreadEffect(cfg, w, t, input).value;
    if w.threads[t].Request? {
      RequestMoves(cfg, w, w.threads[t].l, w.threads[t].pc, input, e);
    } else {
      ProbeMoves(cfg, w, w.threads[t], input, e);
    }
  }

  lemma TurnKeepsLed(cfg: Config, w: World, t: nat, input: Input)
    requires cfg.Valid() && t < |w.threads| && Led(w) && ThreadEffect(cfg, w, t, input).Some?
    ensures Led(Advance(w, t, ThreadEffect(cfg, w, t, input).value))
  {
    var e := ThreadEffect(cfg, w, t, input).value;
    MoveOf(cfg, w, t, input);
    TakenIsOther(cfg, w, t, input);
    LeadersKept(w, t, e);
    TableKept(w, w.threads[t], e);
    NeedsKept(w, t, e);
  }

  lemma ArriveKeepsLed(cfg: Config, w: World, inst: nat, n: nat)
    requires cfg.Valid() && Led(w)
    ensures Led(Happen(cfg, w, Arrive(inst, n)).value)
  {
    var v := Happen(cfg, w, Arrive(inst, n)).value;
    forall c: nat | Unsettled(v.calls, c)
      ensures HasLeader(v.threads, c)
    {
      var u :| 0 <= u < |w.threads| && Leads(w.threads[u]) == Some(c);
      assert v.threads[u] == w.threads[u];
    }
  }

  lemma HappenKeepsLed(cfg: Config, w: World, ev: Event)
    requires cfg.Valid() && Led(w) && Happen(cfg, w, ev).Some?
    ensures Led(Happen(cfg, w, ev).value)
  {
    match ev {
      case Arrive(inst, n) => ArriveKeepsLed(cfg, w, inst, n);
      case Janitor(inst) =>
      case Turn(t, input) => TurnKeepsLed(cfg, w, t, input);
    }
  }

  /** In every reachable world. */
  lemma {:induction false} PlayKeepsLed(cfg: Config, pool: nat, windowStart: int, events: seq<Event>)
    requires cfg.Valid() && Play(cfg, Boot(pool, windowStart), events).Some?
    ensures Led(Play(cfg, Boot(pool, windowStart), events).value)
  {
    if events != [] {
      var n := |events| - 1;
      PlayKeepsLed(cfg, pool, windowStart, events[..n]);
      var mid := Play(cfg, Boot(pool, windowStart), events[..n]).value;
      HappenKeepsLed(cfg, mid, events[n]);
    }
  }

  // ---------------------------------------------------------------- main results

  /** At most one call at a time for each instance and kind, and one leader for it. */
  lemma OneLeader(cfg: Config, pool: nat, windowStart: int, events: seq<Event>, t: nat, u: nat)
    requires cfg.Valid() && Play(cfg, Boot(pool, windowStart), events).Some?
    requires var w := Play(cfg, Boot(pool, windowStart), events).value;
      && t < |w.threads| && u < |w.threads|
      && Leads(w.threads[t]).Some? && Leads(w.threads[u]).Some?
    ensures var w := Play(cfg, Boot(pool, windowStart), events).value;
      var c, d := Leads(w.threads[t]).value, Leads(w.threads[u]).value;
      && c < |w.calls| && d < |w.calls|
      && (KeyOf(w.calls[c]) == KeyOf(w.calls[d]) ==> c == d && t == u)
  {
    PlayKeepsLed(cfg, pool, windowStart, events);
    var w := Play(cfg, Boot(pool, windowStart), events).value;
    assert Unsettled(w.calls, Leads(w.threads[t]).value) && Unsettled(w.calls, Leads(w.threads[u]).value);
  }

  /** An answer of the outside world with which a goroutine can go on. */
  function Offer(t: Thread): Input {
    if t.Probe? then Go
    else
      match t.pc
      case ReadClock => Clock(0)
      case Choose => Route(None)
      case SendBorrow(_) => Size(0)
      case Probing(_) => GiveUp(false)
      case _ => Go
  }

  /** The unsettled call whose leader a goroutine waits for: a follower for the result, a delivered
      reply for the leader to take it or to stop taking replies. */
  function WaitsFor(w: World, t: Thread): Option<nat> {
    match t
    case Request(_, Await(c)) => if Unsettled(w.calls, c) then Some(c) else None
    case Probe(c, _, _, _, Reply(_)) => if c < |w.calls| && !w.calls[c].closed then Some(c) else None
    case _ => None
  }

  lemma LeaderSteps(cfg: Config, w: World, t: nat)
    requires cfg.Valid() && t < |w.threads| && ThreadsValid(cfg, w.mem, w.threads) && Custody(w)
    requires Leads(w.threads[t]).Some? && Leads(w.threads[t]).value < |w.calls|
    ensures ThreadEffect(cfg, w, t, Offer(w.threads[t])).Some?
  {
    assert PointersValid(w.mem, w.threads[t]);
  }

  lemma OtherSteps(cfg: Config, w: World, t: nat)
    requires cfg.Valid() && t < |w.threads| && ThreadsValid(cfg, w.mem, w.threads) && Custody(w) && Led(w)
    requires !Finished(w.threads[t]) && Leads(w.threads[t]) == None && WaitsFor(w, w.threads[t]) == None
    ensures ThreadEffect(cfg, w, t, Offer(w.threads[t])).Some?
  {
    assert PointersValid(w.mem, w.threads[t]);
    if Needs(w.threads[t]).Some? {
      assert Needs(w.threads[t]).value < |w.calls|;
    }
  }

  /** Nobody is stuck: in every reachable world each goroutine that has not finished can go on, or
      waits for an unsettled call that has a leader who can.  In particular a leader that holds a
      grant can pour it. */
  lemma NobodyStuck(cfg: Config, pool: nat, windowStart: int, events: seq<Event>, t: nat)
    requires cfg.Valid() && Play(cfg, Boot(pool, windowStart), events).Some?
    requires var w := Play(cfg, Boot(pool, windowStart), events).value; t < |w.threads| && !Finished(w.threads[t])
    ensures var w := Play(cfg, Boot(pool, windowStart), events).value;
      var call := WaitsFor(w, w.threads[t]);
      if call.None? then ThreadEffect(cfg, w, t, Offer(w.threads[t])).Some?
      else exists u ::
        && 0 <= u < |w.threads| && Leads(w.threads[u]) == call
        && ThreadEffect(cfg, w, u, Offer(w.threads[u])).Some?
  {
    PlayKeepsInv(cfg, pool, windowStart, events);
    PlayKeepsLed(cfg, pool, windowStart, events);
    var w := Play(cfg, Boot(pool, windowStart), events).value;
    var call := WaitsFor(w, w.threads[t]);
    if call.Some? {
      assert Unsettled(w.calls, call.value);
      var u :| 0 <= u < |w.threads| && Leads(w.threads[u]) == call;
      LeaderSteps(cfg, w, u);
    } else if Leads(w.threads[t]).Some? {
      LeaderSteps(cfg, w, t);
    } else {
      OtherSteps(cfg, w, t);
    }
  }
}
