/** The limiter's goroutines, interleaved one memory operation at a time.

    A request goroutine runs AllowN; a background one runs the pre-borrow; a probe is one peer
    RPC, first on the donating server and then on its way back.  A schedule picks, at every
    instant, which goroutine moves and what the outside world answers (a clock reading, the
    router's choice, a lost message, a new peer to probe).  Neither bucket locks nor the
    pre-borrow flag are modelled: dropping them only adds interleavings. */
module Goroutines {
  import opened Options
  import opened Sums
  import opened Windows
  import opened Protocol
  import opened Routing

  /** One limit, one window length and one reserved share, the same on every instance. */
  datatype Config = Config(limit: nat, window: int, reserved: nat) {
    predicate Valid() { window > 0 }
  }

  /** The two singleflight groups of an instance. */
  datatype Kind = RedisKind | PeerKind

  datatype Outcome = Granted(amount: nat) | Failed

  /** One singleflight execution.  `closed` says that its leader no longer takes probe replies. */
  datatype Call = Call(inst: nat, kind: Kind, closed: bool, result: Option<Outcome>)

  /** How a goroutine ends; a background pre-borrow answers nobody. */
  datatype Verdict = Allowed | Denied | Errored | NoAnswer

  /** The local variables of one request: its instance, cost, bucket pointer, and loop flags. */
  datatype Locals = Locals(inst: nat, n: nat, b: nat, background: bool, exhausted: bool, peerChecked: bool)

  /** Where a request stands in AllowN. */
  datatype Pc =
    | Start
    | TryFirst
    | ReadClock
    | ResetLookup(now: int)
    | ResetCompare(rb: nat, w: int)
    | ResetScript(rb: nat, w: int)
    | ResetDrain(rb: nat, w: int)
    | ResetFlag(rb: nat, w: int)
    | ResetCount(rb: nat, w: int)
    | ResetMove(rb: nat, w: int)
    | TrySecond
    | LoadFlag
    | Choose
    | JoinRedis
    | SendBorrow(c: nat)
    | BorrowReply(c: nat, f: nat)
    | EmptyReply(c: nat)
    | ClearFlag(c: nat, f: nat)
    | PourRedis(c: nat, f: nat)
    | JoinPeer
    | Probing(c: nat)
    | PourPeer(c: nat, f: nat)
    | Settle(c: nat, out: Outcome)
    | Await(c: nat)
    | AfterRedis(out: Outcome)
    | AfterPeer(out: Outcome)
    | MarkFlag
    | TryThird
    | Count(first: bool)
    | Done(verdict: Verdict)

  /** Where a probe stands: on the server, on the wire, or late for its caller. */
  datatype ProbePc =
    | Access
    | ReadSurplus(b: nat)
    | Transfer(amount: nat)
    | ReadTokens(b: nat, amount: nat)
    | Take(b: nat, amount: nat)
    | Reply(f: nat)
    | Extra(b: nat, f: nat)
    | Gone

  datatype Thread =
    | Request(l: Locals, pc: Pc)
    | Probe(c: nat, home: nat, server: nat, need: nat, at: ProbePc)

  /** What the outside world supplies to one step. */
  datatype Input =
    | Go
    | Clock(now: int)
    | Route(d: Option<Decision>)
    | Size(size: nat)
    | NetFail(executed: bool)
    | ProbePeer(server: nat)
    | Receive(p: nat)
    | GiveUp(cancelled: bool)
    | SpawnPreBorrow

  /** One step of one goroutine: at most one memory operation, its next position, a goroutine it
      starts, the singleflight table, and a probe whose reply it takes. */
  datatype Effect = Effect(
    act: Option<Action>,
    self: Thread,
    spawned: seq<Thread>,
    calls: seq<Call>,
    open: map<(nat, Kind), nat>,
    taken: Option<nat>
  )

  /** Memory, goroutines, singleflight calls; and, for the proofs, the actions so far and the
      goroutine each grant belongs to. */
  datatype World = World(
    mem: State,
    threads: seq<Thread>,
    calls: seq<Call>,
    open: map<(nat, Kind), nat>,
    log: seq<Action>,
    owner: seq<nat>
  )

  datatype Event =
    | Arrive(inst: nat, n: nat)
    | Janitor(inst: nat)
    | Turn(t: nat, input: Input)

  // ---------------------------------------------------------------- one step of a request

  function Quiet(w: World, self: Thread): Effect {
    Effect(None, self, [], w.calls, w.open, None)
  }

  function Does(w: World, a: Action, self: Thread): Effect {
    Effect(Some(a), self, [], w.calls, w.open, None)
  }

  /** getOrCreateBucket: the pointer found, and the action that creates it if there is none. */
  function Lookup(mem: State, inst: nat): (Option<Action>, nat) {
    if inst in mem.live then (None, mem.live[inst]) else (Some(Create(inst)), |mem.buckets|)
  }

  /** tryConsume(n) on the request's bucket. */
  function TryEffect(w: World, l: Locals, hit: Pc, miss: Pc): Effect {
    if IsBucket(w.mem, l.b) && l.n <= w.mem.buckets[l.b].tokens
    then Does(w, Admit(l.b, l.n), Request(l, hit))
    else Quiet(w, Request(l, miss))
  }

  /** singleflight Do: the first caller leads, the others wait for its result. */
  function JoinEffect(w: World, l: Locals, kind: Kind): Effect {
    if (l.inst, kind) in w.open then Quiet(w, Request(l, Await(w.open[(l.inst, kind)])))
    else
      var c := |w.calls|;
      var pc := if kind == RedisKind then SendBorrow(c) else Probing(c);
      Effect(None, Request(l, pc), [],
             w.calls + [Call(l.inst, kind, false, None)], w.open[(l.inst, kind) := c], None)
  }

  function After(kind: Kind, out: Outcome): Pc {
    if kind == RedisKind then AfterRedis(out) else AfterPeer(out)
  }

  /** The limiter's resetWindow, from its own bucket lookup to the move of the window start. */
  function ResetEffect(cfg: Config, w: World, l: Locals, pc: Pc, input: Input): Option<Effect>
    requires cfg.Valid()
  {
    match pc
    case ResetLookup(now) =>
      var (act, rb) := Lookup(w.mem, l.inst);
      Some(Effect(act, Request(l, ResetCompare(rb, Aligned(now, cfg.window))), [], w.calls, w.open, None))
    case ResetCompare(rb, at) =>
      if !IsBucket(w.mem, rb) then None
      else if w.mem.buckets[rb].start >= at then Some(Quiet(w, Request(l, TrySecond)))
      else Some(Quiet(w, Request(l, ResetScript(rb, at))))
    case ResetScript(rb, at) =>
      if input.NetFail? then
        if input.executed then Some(Does(w, RedisReset(cfg.limit, at), Request(l, TrySecond)))
        else Some(Quiet(w, Request(l, TrySecond)))
      else Some(Does(w, RedisReset(cfg.limit, at), Request(l, ResetDrain(rb, at))))
    case ResetDrain(rb, at) => Some(Does(w, Drain(rb), Request(l, ResetFlag(rb, at))))
    case ResetFlag(rb, at) => Some(Does(w, SetExhausted(rb, false), Request(l, ResetCount(rb, at))))
    case ResetCount(rb, at) => Some(Does(w, ClearConsumed(rb), Request(l, ResetMove(rb, at))))
    case ResetMove(rb, at) => Some(Does(w, MoveWindow(rb, at), Request(l, TrySecond)))
    case _ => None
  }

  /** The borrow manager's Acquire and the peer acquirer's Acquire, as leader or follower. */
  function AcquireEffect(w: World, l: Locals, pc: Pc, input: Input): Option<Effect> {
    match pc
    case JoinRedis => Some(JoinEffect(w, l, RedisKind))
    case SendBorrow(c) =>
      if input.NetFail? && !input.executed then Some(Quiet(w, Request(l, Settle(c, Failed))))
      else if input.Size? then
        var requested := if l.n > input.size then l.n else input.size;
        Some(Does(w, Borrow(requested),
                  Request(l, if GrantOf(w.mem, requested) > 0 then BorrowReply(c, |w.mem.flights|)
                             else EmptyReply(c))))
      else None
    case BorrowReply(c, f) =>
      if input.NetFail? then Some(Does(w, Lose(f), Request(l, Settle(c, Failed))))
      else Some(Quiet(w, Request(l, ClearFlag(c, f))))
    case EmptyReply(c) =>
      Some(Quiet(w, Request(l, Settle(c, if input.NetFail? then Failed else Granted(0)))))
    case ClearFlag(c, f) => Some(Does(w, SetExhausted(l.b, false), Request(l, PourRedis(c, f))))
    case PourRedis(c, f) => PourEffect(w, l, c, f)
    case JoinPeer => Some(JoinEffect(w, l, PeerKind))
    case Probing(c) => ProbingEffect(w, l, c, input)
    case PourPeer(c, f) => PourEffect(w, l, c, f)
    case Settle(c, out) =>
      if c >= |w.calls| then None
      else
        var call := w.calls[c];
        Some(Effect(None, Request(l, After(call.kind, out)), [],
                    w.calls[c := call.(closed := true, result := Some(out))],
                    w.open - {(call.inst, call.kind)}, None))
    case Await(c) =>
      if c < |w.calls| && w.calls[c].result.Some?
      then Some(Quiet(w, Request(l, After(w.calls[c].kind, w.calls[c].result.value))))
      else None
    case _ => None
  }

  /** The callback that refills the leader's bucket with the grant. */
  function PourEffect(w: World, l: Locals, c: nat, f: nat): Option<Effect> {
    if IsFlying(w.mem, f)
    then Some(Does(w, Refill(l.b, f), Request(l, Settle(c, Granted(w.mem.flights[f].amount)))))
    else None
  }

  /** The probing loop: probe another peer, take the first positive reply, or give up. */
  function ProbingEffect(w: World, l: Locals, c: nat, input: Input): Option<Effect> {
    if c >= |w.calls| then None
    else
      var shut := w.calls[c := w.calls[c].(closed := true)];
      match input
      case ProbePeer(server) =>
        if server == l.inst then None
        else Some(Effect(None, Request(l, Probing(c)), [Probe(c, l.inst, server, l.n, Access)],
                         w.calls, w.open, None))
      case Receive(p) =>
        if p < |w.threads| && w.threads[p].Probe? && w.threads[p].c == c && w.threads[p].at.Reply?
        then Some(Effect(None, Request(l, PourPeer(c, w.threads[p].at.f)), [], shut, w.open, Some(p)))
        else None
      case GiveUp(cancelled) =>
        Some(Effect(None, Request(l, Settle(c, if cancelled then Failed else Granted(0))), [], shut, w.open, None))
      case _ => None
  }

  /** AllowN, one memory operation at a time. */
  function RequestEffect(cfg: Config, w: World, l: Locals, pc: Pc, input: Input): Option<Effect>
    requires cfg.Valid()
  {
    match pc
    case Start =>
      var (act, b) := Lookup(w.mem, l.inst);
      Some(Effect(act, Request(l.(b := b), TryFirst), [], w.calls, w.open, None))
    case TryFirst => Some(TryEffect(w, l, Count(true), ReadClock))
    case ReadClock =>
      if !input.Clock? || !IsBucket(w.mem, l.b) then None
      else if Due(w.mem.buckets[l.b].start, cfg.window, input.now)
      then Some(Quiet(w, Request(l, ResetLookup(input.now))))
      else Some(Quiet(w, Request(l, LoadFlag)))
    case TrySecond => Some(TryEffect(w, l, Count(false), LoadFlag))
    case LoadFlag =>
      if !IsBucket(w.mem, l.b) then None
      else Some(Quiet(w, Request(l.(exhausted := w.mem.buckets[l.b].exhausted), Choose)))
    case Choose =>
      if !input.Route? then None
      else Some(match input.d
           case None => Quiet(w, Request(l, Done(Errored)))
           case Some(ToRedis) => Quiet(w, Request(l, JoinRedis))
           case Some(ToPeer) => Quiet(w, Request(l.(peerChecked := true), JoinPeer))
           case Some(Deny) => Quiet(w, Request(l, Done(Denied))))
    case AfterRedis(out) =>
      Some(Quiet(w, Request(l,
        if l.background then Done(NoAnswer)
        else if out.Failed? then Done(Errored)
        else if out.amount > 0 then TryThird
        else MarkFlag)))
    case AfterPeer(out) =>
      Some(Quiet(w, Request(l, if out.Granted? && out.amount > 0 then TryThird else Choose)))
    case MarkFlag => Some(Does(w, SetExhausted(l.b, true), Request(l.(exhausted := true), Choose)))
    case TryThird => Some(TryEffect(w, l, Count(false), Choose))
    case Count(first) =>
      var e := Does(w, Record(l.b, l.n), Request(l, Done(Allowed)));
      if first && input.SpawnPreBorrow? then
        Some(e.(spawned := [Request(Locals(l.inst, 0, l.b, true, false, false), JoinRedis)]))
      else Some(e)
    case Done(_) => None
    case ResetLookup(_) => ResetEffect(cfg, w, l, pc, input)
    case ResetCompare(_, _) => ResetEffect(cfg, w, l, pc, input)
    case ResetScript(_, _) => ResetEffect(cfg, w, l, pc, input)
    case ResetDrain(_, _) => ResetEffect(cfg, w, l, pc, input)
    case ResetFlag(_, _) => ResetEffect(cfg, w, l, pc, input)
    case ResetCount(_, _) => ResetEffect(cfg, w, l, pc, input)
    case ResetMove(_, _) => ResetEffect(cfg, w, l, pc, input)
    case _ => AcquireEffect(w, l, pc, input)
  }

  // ---------------------------------------------------------------- one step of a probe

  /** A probe: the server's accessor and transferer, then the reply. */
  function ProbeEffect(cfg: Config, w: World, t: Thread, input: Input): Option<Effect>
    requires t.Probe?
  {
    match t.at
    case Access =>
      var (act, b) := Lookup(w.mem, t.server);
      Some(Effect(act, t.(at := ReadSurplus(b)), [], w.calls, w.open, None))
    case ReadSurplus(b) =>
      if !IsBucket(w.mem, b) then None
      else
        var have := w.mem.buckets[b].tokens;
        Some(Quiet(w, t.(at := if have <= cfg.reserved then Gone
                               else Transfer(Min(t.need, have - cfg.reserved)))))
    case Transfer(amount) =>
      var (act, b) := Lookup(w.mem, t.server);
      Some(Effect(act, t.(at := ReadTokens(b, amount)), [], w.calls, w.open, None))
    case ReadTokens(b, amount) =>
      if !IsBucket(w.mem, b) then None
      else
        var transfer := Min(amount, w.mem.buckets[b].tokens);
        Some(Quiet(w, t.(at := if transfer == 0 then Gone else Take(b, transfer))))
    case Take(b, amount) =>
      if IsBucket(w.mem, b) && 0 < amount <= w.mem.buckets[b].tokens
      then Some(Does(w, Donate(b, amount), t.(at := Reply(|w.mem.flights|))))
      else Some(Quiet(w, t.(at := Gone)))
    case Reply(f) =>
      if input.NetFail? then Some(Does(w, Lose(f), t.(at := Gone)))
      else if t.c < |w.calls| && w.calls[t.c].closed then
        var (act, b) := Lookup(w.mem, t.home);
        Some(Effect(act, t.(at := Extra(b, f)), [], w.calls, w.open, None))
      else None
    case Extra(b, f) => Some(Does(w, Refill(b, f), t.(at := Gone)))
    case Gone => None
  }

  function ThreadEffect(cfg: Config, w: World, t: nat, input: Input): Option<Effect>
    requires cfg.Valid() && t < |w.threads|
  {
    match w.threads[t]
    case Request(l, pc) => RequestEffect(cfg, w, l, pc, input)
    case Probe(_, _, _, _, _) => ProbeEffect(cfg, w, w.threads[t], input)
  }

  // ---------------------------------------------------------------- the whole machine

  ghost function Perform(w: World, act: Option<Action>): World {
    if act.Some? && Enabled(w.mem, act.value)
    then w.(mem := Step(w.mem, act.value), log := w.log + [act.value])
    else w
  }

  /** New grants belong to the goroutine whose step sent them. */
  function Own(owner: seq<nat>, flights: nat, t: nat): seq<nat> {
    if |owner| < flights then owner + [t] else owner
  }

  /** The goroutines once t has moved and the probe whose reply it took is over. */
  function Moved(threads: seq<Thread>, t: nat, e: Effect): seq<Thread>
    requires t < |threads|
  {
    var moved := threads[t := e.self];
    if e.taken.Some? && e.taken.value < |moved| && moved[e.taken.value].Probe?
    then moved[e.taken.value := moved[e.taken.value].(at := Gone)]
    else moved
  }

  /** The grant in the mover's hands is the mover's. */
  function Keep(owner: seq<nat>, held: Option<nat>, t: nat): seq<nat> {
    if held.Some? && held.value < |owner| then owner[held.value := t] else owner
  }

  ghost function Advance(w: World, t: nat, e: Effect): World
    requires t < |w.threads|
  {
    var v := Perform(w, e.act);
    v.(threads := Moved(w.threads, t, e) + e.spawned, calls := e.calls, open := e.open,
       owner := Keep(Own(w.owner, |v.mem.flights|, t), Holds(e.self), t))
  }

  /** The effect of one event; None if it cannot happen. */
  ghost function Happen(cfg: Config, w: World, ev: Event): Option<World>
    requires cfg.Valid()
  {
    match ev
    case Arrive(inst, n) =>
      Some(w.(threads := w.threads + [Request(Locals(inst, n, 0, false, false, false), Start)]))
    case Janitor(inst) =>
      if inst in w.mem.live then Some(Perform(w, Some(Evict(inst)))) else None
    case Turn(t, input) =>
      if t >= |w.threads| then None
      else
        match ThreadEffect(cfg, w, t, input)
        case None => None
        case Some(e) => Some(Advance(w, t, e))
  }

  function Boot(pool: nat, windowStart: int): World {
    World(Fresh(pool, windowStart), [], [], map[], [], [])
  }

  ghost function Play(cfg: Config, w: World, events: seq<Event>): Option<World>
    requires cfg.Valid()
  {
    if events == [] then Some(w)
    else
      match Play(cfg, w, events[..|events| - 1])
      case None => None
      case Some(mid) => Happen(cfg, mid, events[|events| - 1])
  }

  /** A goroutine that has nothing more to do. */
  predicate Finished(t: Thread) {
    if t.Request? then t.pc.Done? else t.at.Gone?
  }

  // ---------------------------------------------------------------- who holds what

  /** The grant a goroutine is responsible for. */
  function Holds(t: Thread): Option<nat> {
    match t
    case Request(_, BorrowReply(_, f)) => Some(f)
    case Request(_, ClearFlag(_, f)) => Some(f)
    case Request(_, PourRedis(_, f)) => Some(f)
    case Request(_, PourPeer(_, f)) => Some(f)
    case Request(_, _) => None
    case Probe(_, _, _, _, Reply(f)) => Some(f)
    case Probe(_, _, _, _, Extra(_, f)) => Some(f)
    case Probe(_, _, _, _, _) => None
  }

  /** What a goroutine has consumed: its whole cost once a tryConsume has succeeded. */
  function Paid(t: Thread): nat {
    if t.Request? && (t.pc.Count? || t.pc == Done(Allowed)) then t.l.n else 0
  }

  /** What a finished request was told it may use. */
  function Cleared(t: Thread): nat {
    if t.Request? && t.pc == Done(Allowed) then t.l.n else 0
  }

  predicate PointersValid(mem: State, t: Thread) {
    match t
    case Request(l, pc) =>
      && (pc.Start? || IsBucket(mem, l.b))
      && (match pc
          case ResetCompare(rb, _) => IsBucket(mem, rb)
          case ResetScript(rb, _) => IsBucket(mem, rb)
          case ResetDrain(rb, _) => IsBucket(mem, rb)
          case ResetFlag(rb, _) => IsBucket(mem, rb)
          case ResetCount(rb, _) => IsBucket(mem, rb)
          case ResetMove(rb, _) => IsBucket(mem, rb)
          case _ => true)
    case Probe(_, _, _, _, at) =>
      match at
      case ReadSurplus(b) => IsBucket(mem, b)
      case ReadTokens(b, _) => IsBucket(mem, b)
      case Take(b, _) => IsBucket(mem, b)
      case Extra(b, _) => IsBucket(mem, b)
      case _ => true
  }

  predicate AlignedPc(cfg: Config, t: Thread)
    requires cfg.Valid()
  {
    t.Request? && (t.pc.ResetCompare? || t.pc.ResetScript?) ==> t.pc.w % cfg.window == 0
  }

  /** Each grant in flight has exactly one holder, its owner; each holder's grant is in flight. */
  ghost predicate Custody(w: World) {
    && |w.owner| == |w.mem.flights|
    && (forall f :: 0 <= f < |w.mem.flights| && w.mem.flights[f].InTransit? ==>
          w.owner[f] < |w.threads| && Holds(w.threads[w.owner[f]]) == Some(f))
    && (forall t :: 0 <= t < |w.threads| && Holds(w.threads[t]).Some? ==>
          IsFlying(w.mem, Holds(w.threads[t]).value) && w.owner[Holds(w.threads[t]).value] == t)
  }

  predicate ThreadsValid(cfg: Config, mem: State, threads: seq<Thread>)
    requires cfg.Valid()
  {
    forall t :: 0 <= t < |threads| ==> PointersValid(mem, threads[t]) && AlignedPc(cfg, threads[t])
  }

  /** The memory is what the logged actions made of a fresh key. */
  ghost predicate Traced(cfg: Config, w: World, pool: nat, windowStart: int)
    requires cfg.Valid()
  {
    && Exec(Fresh(pool, windowStart), w.log) == Some(w.mem)
    && AllUniform(w.log, cfg.limit, cfg.window)
  }

  ghost predicate Inv(cfg: Config, w: World, pool: nat, windowStart: int)
    requires cfg.Valid()
  {
    && Traced(cfg, w, pool, windowStart)
    && LiveExist(w.mem)
    && w.mem.admitted == SumBy(Paid, w.threads)
    && ThreadsValid(cfg, w.mem, w.threads)
    && Custody(w)
  }

  // ---------------------------------------------------------------- what one effect may do

  function AdmitCost(act: Option<Action>): nat {
    if act.Some? && act.value.Admit? then act.value.n else 0
  }

  predicate Launches(mem: State, act: Option<Action>) {
    act.Some? && ((act.value.Borrow? && GrantOf(mem, act.value.requested) > 0) || act.value.Donate?)
  }

  function Lands(act: Option<Action>): Option<nat> {
    if act.Some? && act.value.Refill? then Some(act.value.f)
    else if act.Some? && act.value.Lose? then Some(act.value.f)
    else None
  }

  /** How custody moves: a launch gives the sender a grant, a landing frees its holder, a taken
      reply passes from the probe to the leader, and nothing else changes hands. */
  predicate CustodyMove(w: World, t: nat, e: Effect)
    requires t < |w.threads|
  {
    var held, holds := Holds(w.threads[t]), Holds(e.self);
    if e.taken.Some? then
      && e.act.None? && held == None
      && e.taken.value < |w.threads| && e.taken.value != t
      && w.threads[e.taken.value].Probe? && w.threads[e.taken.value].at.Reply?
      && holds == Holds(w.threads[e.taken.value])
    else if Launches(w.mem, e.act) then held == None && holds == Some(|w.mem.flights|)
    else if Lands(e.act).Some? then held == Lands(e.act) && holds == None
    else held == holds
  }

  /** A goroutine that has just been started holds nothing, has paid nothing and points at a
      bucket that exists. */
  predicate Newborn(cfg: Config, mem: State, t: Thread)
    requires cfg.Valid()
  {
    Holds(t) == None && Paid(t) == 0 && PointersValid(mem, t) && AlignedPc(cfg, t)
  }

  ghost function MemAfter(w: World, act: Option<Action>): State {
    Perform(w, act).mem
  }

  ghost predicate Sound(cfg: Config, w: World, t: nat, e: Effect)
    requires cfg.Valid() && t < |w.threads|
  {
    && (e.act.Some? ==> Enabled(w.mem, e.act.value) && Uniform(e.act.value, cfg.limit, cfg.window))
    && Paid(e.self) == Paid(w.threads[t]) + AdmitCost(e.act)
    && PointersValid(MemAfter(w, e.act), e.self)
    && AlignedPc(cfg, e.self)
    && CustodyMove(w, t, e)
    && (forall u :: u in e.spawned ==> Newborn(cfg, w.mem, u))
  }

  lemma LookupSound(mem: State, inst: nat)
    requires LiveExist(mem)
    ensures var (act, b) := Lookup(mem, inst);
      && (act.Some? ==> Enabled(mem, act.value) && act.value.Create?)
      && b < if act.Some? then |Step(mem, act.value).buckets| else |mem.buckets|
  {
  }

  lemma ResetLookupSound(cfg: Config, w: World, t: nat, input: Input, e: Effect)
    requires cfg.Valid() && t < |w.threads| && w.threads[t].Request?
    requires LiveExist(w.mem) && ThreadsValid(cfg, w.mem, w.threads) && Custody(w)
    requires w.threads[t].pc.ResetLookup?
    requires ResetEffect(cfg, w, w.threads[t].l, w.threads[t].pc, input) == Some(e)
    ensures Sound(cfg, w, t, e)
  {
    LookupSound(w.mem, w.threads[t].l.inst);
    AlignedIsFloor(w.threads[t].pc.now, cfg.window);
  }

  lemma ResetSound(cfg: Config, w: World, t: nat, input: Input, e: Effect)
    requires cfg.Valid() && t < |w.threads| && w.threads[t].Request? && !w.threads[t].pc.ResetLookup?
    requires LiveExist(w.mem) && ThreadsValid(cfg, w.mem, w.threads) && Custody(w)
    requires ResetEffect(cfg, w, w.threads[t].l, w.threads[t].pc, input) == Some(e)
    ensures Sound(cfg, w, t, e)
  {
    assert Holds(w.threads[t]) == None;
    assert e.spawned == [];
  }

  lemma PourSound(cfg: Config, w: World, t: nat, c: nat, f: nat, e: Effect)
    requires cfg.Valid() && t < |w.threads| && w.threads[t].Request?
    requires LiveExist(w.mem) && ThreadsValid(cfg, w.mem, w.threads) && Custody(w)
    requires w.threads[t].pc == PourRedis(c, f) || w.threads[t].pc == PourPeer(c, f)
    requires PourEffect(w, w.threads[t].l, c, f) == Some(e)
    ensures Sound(cfg, w, t, e)
  {
  }

  lemma ProbingSound(cfg: Config, w: World, t: nat, c: nat, input: Input, e: Effect)
    requires cfg.Valid() && t < |w.threads| && w.threads[t].Request?
    requires LiveExist(w.mem) && ThreadsValid(cfg, w.mem, w.threads) && Custody(w)
    requires w.threads[t].pc == Probing(c)
    requires ProbingEffect(w, w.threads[t].l, c, input) == Some(e)
    ensures Sound(cfg, w, t, e)
  {
    assert Holds(w.threads[t]) == None;
    match input {
      case ProbePeer(server) =>
        assert e.spawned[0] == Probe(c, w.threads[t].l.inst, server, w.threads[t].l.n, Access);
      case Receive(p) =>
        assert IsBucket(w.mem, w.threads[t].l.b);
      case _ =>
    }
  }

  lemma BorrowSound(cfg: Config, w: World, t: nat, c: nat, input: Input, e: Effect)
    requires cfg.Valid() && t < |w.threads| && w.threads[t].Request?
    requires LiveExist(w.mem) && ThreadsValid(cfg, w.mem, w.threads) && Custody(w)
    requires w.threads[t].pc == SendBorrow(c)
    requires AcquireEffect(w, w.threads[t].l, w.threads[t].pc, input) == Some(e)
    ensures Sound(cfg, w, t, e)
  {
    assert IsBucket(w.mem, w.threads[t].l.b);
    assert Holds(w.threads[t]) == None;
  }

  /** Joining a call, waiting for it and settling it. */
  lemma CallSound(cfg: Config, w: World, t: nat, input: Input, e: Effect)
    requires cfg.Valid() && t < |w.threads| && w.threads[t].Request?
    requires LiveExist(w.mem) && ThreadsValid(cfg, w.mem, w.threads) && Custody(w)
    requires var pc := w.threads[t].pc; pc.JoinRedis? || pc.JoinPeer? || pc.Settle? || pc.Await?
    requires AcquireEffect(w, w.threads[t].l, w.threads[t].pc, input) == Some(e)
    ensures Sound(cfg, w, t, e)
  {
    assert IsBucket(w.mem, w.threads[t].l.b);
    assert Holds(w.threads[t]) == None && e.spawned == [];
  }

  /** What the leader does with Redis's answer before it pours a grant. */
  lemma AnswerSound(cfg: Config, w: World, t: nat, input: Input, e: Effect)
    requires cfg.Valid() && t < |w.threads| && w.threads[t].Request?
    requires LiveExist(w.mem) && ThreadsValid(cfg, w.mem, w.threads) && Custody(w)
    requires var pc := w.threads[t].pc; pc.BorrowReply? || pc.EmptyReply? || pc.ClearFlag?
    requires AcquireEffect(w, w.threads[t].l, w.threads[t].pc, input) == Some(e)
    ensures Sound(cfg, w, t, e)
  {
    assert IsBucket(w.mem, w.threads[t].l.b);
    assert e.spawned == [];
  }

  lemma AcquireSound(cfg: Config, w: World, t: nat, input: Input, e: Effect)
    requires cfg.Valid() && t < |w.threads| && w.threads[t].Request?
    requires LiveExist(w.mem) && ThreadsValid(cfg, w.mem, w.threads) && Custody(w)
    requires AcquireEffect(w, w.threads[t].l, w.threads[t].pc, input) == Some(e)
    ensures Sound(cfg, w, t, e)
  {
    match w.threads[t].pc {
      case SendBorrow(c) => BorrowSound(cfg, w, t, c, input, e);
      case PourRedis(c, f) => PourSound(cfg, w, t, c, f, e);
      case PourPeer(c, f) => PourSound(cfg, w, t, c, f, e);
      case Probing(c) => ProbingSound(cfg, w, t, c, input, e);
      case JoinRedis => CallSound(cfg, w, t, input, e);
      case JoinPeer => CallSound(cfg, w, t, input, e);
      case BorrowReply(_, _) => AnswerSound(cfg, w, t, input, e);
      case EmptyReply(_) => AnswerSound(cfg, w, t, input, e);
      case ClearFlag(_, _) => AnswerSound(cfg, w, t, input, e);
      case Settle(_, _) => CallSound(cfg, w, t, input, e);
      case Await(_) => CallSound(cfg, w, t, input, e);
      case _ =>
    }
  }

  lemma TrySound(cfg: Config, w: World, t: nat, hit: Pc, miss: Pc)
    requires cfg.Valid() && t < |w.threads| && w.threads[t].Request?
    requires LiveExist(w.mem) && ThreadsValid(cfg, w.mem, w.threads) && Custody(w)
    requires w.threads[t].pc in {TryFirst, TrySecond, TryThird}
    requires hit.Count? && miss in {ReadClock, LoadFlag, Choose}
    ensures Sound(cfg, w, t, TryEffect(w, w.threads[t].l, hit, miss))
  {
    assert IsBucket(w.mem, w.threads[t].l.b);
  }

  lemma CountSound(cfg: Config, w: World, t: nat, input: Input, e: Effect)
    requires cfg.Valid() && t < |w.threads| && w.threads[t].Request?
    requires LiveExist(w.mem) && ThreadsValid(cfg, w.mem, w.threads) && Custody(w)
    requires w.threads[t].pc.Count?
    requires RequestEffect(cfg, w, w.threads[t].l, w.threads[t].pc, input) == Some(e)
    ensures Sound(cfg, w, t, e)
  {
    assert IsBucket(w.mem, w.threads[t].l.b);
    if e.spawned != [] {
      var l := w.threads[t].l;
      assert e.spawned == [Request(Locals(l.inst, 0, l.b, true, false, false), JoinRedis)];
    }
  }

  lemma LoopSound(cfg: Config, w: World, t: nat, input: Input, e: Effect)
    requires cfg.Valid() && t < |w.threads| && w.threads[t].Request?
    requires LiveExist(w.mem) && ThreadsValid(cfg, w.mem, w.threads) && Custody(w)
    requires var pc := w.threads[t].pc;
      pc.AfterRedis? || pc.AfterPeer? || pc.MarkFlag? || pc.Choose? || pc.LoadFlag? || pc.ReadClock?
    requires RequestEffect(cfg, w, w.threads[t].l, w.threads[t].pc, input) == Some(e)
    ensures Sound(cfg, w, t, e)
  {
    assert IsBucket(w.mem, w.threads[t].l.b);
    assert Holds(w.threads[t]) == None;
    assert e.spawned == [];
  }

  lemma StartSound(cfg: Config, w: World, t: nat, input: Input, e: Effect)
    requires cfg.Valid() && t < |w.threads| && w.threads[t].Request?
    requires LiveExist(w.mem) && ThreadsValid(cfg, w.mem, w.threads) && Custody(w)
    requires w.threads[t].pc.Start?
    requires RequestEffect(cfg, w, w.threads[t].l, w.threads[t].pc, input) == Some(e)
    ensures Sound(cfg, w, t, e)
  {
    LookupSound(w.mem, w.threads[t].l.inst);
  }

  lemma RequestSound(cfg: Config, w: World, t: nat, input: Input, e: Effect)
    requires cfg.Valid() && t < |w.threads| && w.threads[t].Request?
    requires LiveExist(w.mem) && ThreadsValid(cfg, w.mem, w.threads) && Custody(w)
    requires RequestEffect(cfg, w, w.threads[t].l, w.threads[t].pc, input) == Some(e)
    ensures Sound(cfg, w, t, e)
  {
    match w.threads[t].pc {
      case Start => StartSound(cfg, w, t, input, e);
      case TryFirst => TrySound(cfg, w, t, Count(true), ReadClock);
      case TrySecond => TrySound(cfg, w, t, Count(false), LoadFlag);
      case TryThird => TrySound(cfg, w, t, Count(false), Choose);
      case ReadClock => LoopSound(cfg, w, t, input, e);
      case LoadFlag => LoopSound(cfg, w, t, input, e);
      case Choose => LoopSound(cfg, w, t, input, e);
      case AfterRedis(_) => LoopSound(cfg, w, t, input, e);
      case AfterPeer(_) => LoopSound(cfg, w, t, input, e);
      case MarkFlag => LoopSound(cfg, w, t, input, e);
      case Count(_) => CountSound(cfg, w, t, input, e);
      case Done(_) =>
      case ResetLookup(_) => ResetLookupSound(cfg, w, t, input, e);
      case ResetCompare(_, _) => ResetSound(cfg, w, t, input, e);
      case ResetScript(_, _) => ResetSound(cfg, w, t, input, e);
      case ResetDrain(_, _) => ResetSound(cfg, w, t, input, e);
      case ResetFlag(_, _) => ResetSound(cfg, w, t, input, e);
      case ResetCount(_, _) => ResetSound(cfg, w, t, input, e);
      case ResetMove(_, _) => ResetSound(cfg, w, t, input, e);
      case _ => AcquireSound(cfg, w, t, input, e);
    }
  }

  /** The probe's steps that look a bucket up. */
  lemma ProbeLookupSound(cfg: Config, w: World, t: nat, input: Input, e: Effect)
    requires cfg.Valid() && t < |w.threads| && w.threads[t].Probe?
    requires LiveExist(w.mem) && ThreadsValid(cfg, w.mem, w.threads) && Custody(w)
    requires ProbeEffect(cfg, w, w.threads[t], input) == Some(e)
    requires w.threads[t].at.Access? || w.threads[t].at.Transfer?
    ensures Sound(cfg, w, t, e)
  {
    LookupSound(w.mem, w.threads[t].server);
    assert e.spawned == [] && Holds(e.self) == None;
  }

  /** The reply, which is lost, or poured where the asking instance now has its bucket. */
  lemma ReplySound(cfg: Config, w: World, t: nat, input: Input, e: Effect)
    requires cfg.Valid() && t < |w.threads| && w.threads[t].Probe?
    requires LiveExist(w.mem) && ThreadsValid(cfg, w.mem, w.threads) && Custody(w)
    requires ProbeEffect(cfg, w, w.threads[t], input) == Some(e)
    requires w.threads[t].at.Reply? || w.threads[t].at.Extra?
    ensures Sound(cfg, w, t, e)
  {
    LookupSound(w.mem, w.threads[t].home);
    assert e.spawned == [];
  }

  /** Reading the donor's bucket twice, and taking from it. */
  lemma TakeSound(cfg: Config, w: World, t: nat, input: Input, e: Effect)
    requires cfg.Valid() && t < |w.threads| && w.threads[t].Probe?
    requires LiveExist(w.mem) && ThreadsValid(cfg, w.mem, w.threads) && Custody(w)
    requires ProbeEffect(cfg, w, w.threads[t], input) == Some(e)
    requires w.threads[t].at.ReadSurplus? || w.threads[t].at.ReadTokens? || w.threads[t].at.Take?
    ensures Sound(cfg, w, t, e)
  {
    assert e.spawned == [] && Holds(w.threads[t]) == None;
  }

  lemma ProbeSound(cfg: Config, w: World, t: nat, input: Input, e: Effect)
    requires cfg.Valid() && t < |w.threads| && w.threads[t].Probe?
    requires LiveExist(w.mem) && ThreadsValid(cfg, w.mem, w.threads) && Custody(w)
    requires ProbeEffect(cfg, w, w.threads[t], input) == Some(e)
    ensures Sound(cfg, w, t, e)
  {
    match w.threads[t].at {
      case Access => ProbeLookupSound(cfg, w, t, input, e);
      case Transfer(_) => ProbeLookupSound(cfg, w, t, input, e);
      case Reply(_) => ReplySound(cfg, w, t, input, e);
      case Extra(_, _) => ReplySound(cfg, w, t, input, e);
      case ReadSurplus(_) => TakeSound(cfg, w, t, input, e);
      case ReadTokens(_, _) => TakeSound(cfg, w, t, input, e);
      case Take(_, _) => TakeSound(cfg, w, t, input, e);
      case Gone =>
    }
  }

  lemma ThreadSound(cfg: Config, w: World, t: nat, input: Input, e: Effect)
    requires cfg.Valid() && t < |w.threads|
    requires LiveExist(w.mem) && ThreadsValid(cfg, w.mem, w.threads) && Custody(w)
    requires ThreadEffect(cfg, w, t, input) == Some(e)
    ensures Sound(cfg, w, t, e)
  {
    if w.threads[t].Request? {
      RequestSound(cfg, w, t, input, e);
    } else {
      ProbeSound(cfg, w, t, input, e);
    }
  }

  // ---------------------------------------------------------------- every step keeps the invariant

  /** What an action does to the parts of memory that goroutines rely on. */
  lemma StepShape(s: State, a: Action)
    requires Enabled(s, a) && LiveExist(s)
    ensures var s' := Step(s, a);
      && LiveExist(s')
      && |s'.buckets| >= |s.buckets|
      && s'.admitted == s.admitted + AdmitCost(Some(a))
      && (if Launches(s, Some(a)) then
            |s'.flights| == |s.flights| + 1 && s'.flights[..|s.flights|] == s.flights &&
              s'.flights[|s.flights|].InTransit?
          else if Lands(Some(a)).Some? then
            var f := Lands(Some(a)).value;
            f < |s.flights| && |s'.flights| == |s.flights| && !s'.flights[f].InTransit? &&
            forall g :: 0 <= g < |s.flights| && g != f ==> s'.flights[g] == s.flights[g]
          else s'.flights == s.flights)
  {
  }

  lemma AllUniformMore(log: seq<Action>, a: Action, limit: nat, window: int)
    requires window > 0 && AllUniform(log, limit, window) && Uniform(a, limit, window)
    ensures AllUniform(log + [a], limit, window)
  {
  }

  lemma TraceKept(cfg: Config, w: World, act: Option<Action>, pool: nat, windowStart: int)
    requires cfg.Valid() && Traced(cfg, w, pool, windowStart)
    requires act.Some? ==> Enabled(w.mem, act.value) && Uniform(act.value, cfg.limit, cfg.window)
    ensures Traced(cfg, Perform(w, act), pool, windowStart)
  {
    if act.Some? {
      var v := Perform(w, act);
      ExecAppend(Fresh(pool, windowStart), w.log, act.value);
      assert v.log == w.log + [act.value] && v.mem == Step(w.mem, act.value);
      AllUniformMore(w.log, act.value, cfg.limit, cfg.window);
    }
  }

  /** Settled costs: only the moving goroutine's changes. */
  lemma PaidKept(w: World, t: nat, e: Effect)
    requires t < |w.threads|
    requires forall u :: u in e.spawned ==> Paid(u) == 0
    ensures SumBy(Paid, Advance(w, t, e).threads) == SumBy(Paid, w.threads) - Paid(w.threads[t]) + Paid(e.self)
  {
    MovedPaid(w.threads, t, e);
    SumConcat(Paid, Moved(w.threads, t, e), e.spawned);
    SumAtMost(Paid, e.spawned, 0);
  }

  lemma MovedPaid(threads: seq<Thread>, t: nat, e: Effect)
    requires t < |threads|
    ensures SumBy(Paid, Moved(threads, t, e)) == SumBy(Paid, threads) - Paid(threads[t]) + Paid(e.self)
  {
    var moved := threads[t := e.self];
    SumUpdate(Paid, threads, t, e.self);
    if e.taken.Some? && e.taken.value < |moved| && moved[e.taken.value].Probe? {
      SumUpdate(Paid, moved, e.taken.value, moved[e.taken.value].(at := Gone));
    }
  }

  lemma ValidKept(cfg: Config, w: World, t: nat, e: Effect)
    requires cfg.Valid() && t < |w.threads| && LiveExist(w.mem)
    requires ThreadsValid(cfg, w.mem, w.threads) && Sound(cfg, w, t, e)
    ensures ThreadsValid(cfg, Advance(w, t, e).mem, Advance(w, t, e).threads)
  {
    if e.act.Some? {
      StepShape(w.mem, e.act.value);
    }
    var v := Advance(w, t, e);
    forall u | 0 <= u < |v.threads|
      ensures PointersValid(v.mem, v.threads[u]) && AlignedPc(cfg, v.threads[u])
    {
      if u >= |w.threads| {
        assert v.threads[u] == e.spawned[u - |w.threads|];
        assert v.threads[u] in e.spawned;
      } else {
        assert PointersValid(w.mem, w.threads[u]);
      }
    }
  }

  lemma HoldersAfter(cfg: Config, w: World, t: nat, e: Effect)
    requires cfg.Valid() && t < |w.threads| && Custody(w) && Sound(cfg, w, t, e)
    ensures var v := Advance(w, t, e);
      && |v.threads| == |w.threads| + |e.spawned|
      && Holds(v.threads[t]) == Holds(e.self)
      && (e.taken.Some? ==> Holds(v.threads[e.taken.value]) == None)
      && (forall u :: 0 <= u < |w.threads| && u != t && e.taken != Some(u) ==> v.threads[u] == w.threads[u])
      && (forall u :: |w.threads| <= u < |v.threads| ==> Holds(v.threads[u]) == None)
  {
    var v := Advance(w, t, e);
    forall u | |w.threads| <= u < |v.threads|
      ensures Holds(v.threads[u]) == None
    {
      assert v.threads[u] == e.spawned[u - |w.threads|];
      assert v.threads[u] in e.spawned;
    }
  }

  lemma FlightsAfter(cfg: Config, w: World, t: nat, e: Effect, f: nat)
    requires cfg.Valid() && t < |w.threads| && LiveExist(w.mem)
    requires Custody(w) && Sound(cfg, w, t, e)
    requires IsFlying(Advance(w, t, e).mem, f)
    ensures Holds(e.self) == Some(f) ||
      (IsFlying(w.mem, f) && w.owner[f] != t && e.taken != Some(w.owner[f]))
  {
    if e.act.Some? {
      StepShape(w.mem, e.act.value);
    }
  }

  /** The first half of custody: the owner of every grant in flight holds it. */
  lemma OwnersKept(cfg: Config, w: World, t: nat, e: Effect, f: nat)
    requires cfg.Valid() && t < |w.threads| && LiveExist(w.mem)
    requires Custody(w) && Sound(cfg, w, t, e)
    requires IsFlying(Advance(w, t, e).mem, f)
    ensures var v := Advance(w, t, e);
      |v.owner| == |v.mem.flights| && v.owner[f] < |v.threads| && Holds(v.threads[v.owner[f]]) == Some(f)
  {
    OwnerLength(cfg, w, t, e);
    HoldersAfter(cfg, w, t, e);
    FlightsAfter(cfg, w, t, e, f);
  }

  lemma OwnerLength(cfg: Config, w: World, t: nat, e: Effect)
    requires cfg.Valid() && t < |w.threads| && LiveExist(w.mem)
    requires Custody(w) && Sound(cfg, w, t, e)
    ensures var v := Advance(w, t, e);
      && |v.owner| == |v.mem.flights|
      && |w.mem.flights| <= |v.mem.flights|
      && (forall f :: 0 <= f < |w.owner| && Holds(e.self) != Some(f) ==> v.owner[f] == w.owner[f])
      && (Holds(e.self).Some? && Holds(e.self).value < |v.owner| ==> v.owner[Holds(e.self).value] == t)
  {
    if e.act.Some? {
      StepShape(w.mem, e.act.value);
    }
  }

  /** The second half: every holder's grant is in flight, and its own. */
  lemma HoldingsKept(cfg: Config, w: World, t: nat, e: Effect, u: nat)
    requires cfg.Valid() && t < |w.threads| && LiveExist(w.mem)
    requires Custody(w) && Sound(cfg, w, t, e)
    requires u < |Advance(w, t, e).threads| && Holds(Advance(w, t, e).threads[u]).Some?
    ensures var v := Advance(w, t, e);
      var f := Holds(v.threads[u]).value;
      |v.owner| == |v.mem.flights| && IsFlying(v.mem, f) && v.owner[f] == u
  {
    OwnerLength(cfg, w, t, e);
    HoldersAfter(cfg, w, t, e);
    if e.act.Some? {
      StepShape(w.mem, e.act.value);
    }
    if u != t {
      assert Holds(w.threads[u]).Some?;
    }
  }

  lemma CustodyKept(cfg: Config, w: World, t: nat, e: Effect)
    requires cfg.Valid() && t < |w.threads| && LiveExist(w.mem)
    requires Custody(w) && Sound(cfg, w, t, e)
    ensures Custody(Advance(w, t, e))
  {
    var v := Advance(w, t, e);
    OwnerLength(cfg, w, t, e);
    forall f | 0 <= f < |v.mem.flights| && v.mem.flights[f].InTransit?
      ensures v.owner[f] < |v.threads| && Holds(v.threads[v.owner[f]]) == Some(f)
    {
      OwnersKept(cfg, w, t, e, f);
    }
    forall u | 0 <= u < |v.threads| && Holds(v.threads[u]).Some?
      ensures IsFlying(v.mem, Holds(v.threads[u]).value) && v.owner[Holds(v.threads[u]).value] == u
    {
      HoldingsKept(cfg, w, t, e, u);
    }
  }

  lemma TurnKeepsInv(cfg: Config, w: World, t: nat, input: Input, pool: nat, windowStart: int)
    requires cfg.Valid() && Inv(cfg, w, pool, windowStart) && t < |w.threads|
    requires ThreadEffect(cfg, w, t, input).Some?
    ensures Inv(cfg, Advance(w, t, ThreadEffect(cfg, w, t, input).value), pool, windowStart)
  {
    var e := ThreadEffect(cfg, w, t, input).value;
    ThreadSound(cfg, w, t, input, e);
    TraceKept(cfg, w, e.act, pool, windowStart);
    PaidKept(w, t, e);
    ValidKept(cfg, w, t, e);
    CustodyKept(cfg, w, t, e);
    if e.act.Some? {
      StepShape(w.mem, e.act.value);
    }
  }

  lemma ArriveKeepsInv(cfg: Config, w: World, inst: nat, n: nat, pool: nat, windowStart: int)
    requires cfg.Valid() && Inv(cfg, w, pool, windowStart)
    ensures Inv(cfg, Happen(cfg, w, Arrive(inst, n)).value, pool, windowStart)
  {
    SumAppend(Paid, w.threads, Request(Locals(inst, n, 0, false, false, false), Start));
  }

  lemma JanitorKeepsInv(cfg: Config, w: World, inst: nat, pool: nat, windowStart: int)
    requires cfg.Valid() && Inv(cfg, w, pool, windowStart) && inst in w.mem.live
    ensures Inv(cfg, Happen(cfg, w, Janitor(inst)).value, pool, windowStart)
  {
    TraceKept(cfg, w, Some(Evict(inst)), pool, windowStart);
    StepShape(w.mem, Evict(inst));
  }

  /** Every schedule keeps the invariant, wherever it starts. */
  lemma {:induction false} RunKeepsInv(cfg: Config, w: World, pool: nat, windowStart: int, events: seq<Event>)
    requires cfg.Valid() && Inv(cfg, w, pool, windowStart) && Play(cfg, w, events).Some?
    ensures Inv(cfg, Play(cfg, w, events).value, pool, windowStart)
  {
    if events != [] {
      var n := |events| - 1;
      RunKeepsInv(cfg, w, pool, windowStart, events[..n]);
      var mid := Play(cfg, w, events[..n]).value;
      match events[n] {
        case Arrive(inst, cost) => ArriveKeepsInv(cfg, mid, inst, cost, pool, windowStart);
        case Janitor(inst) => JanitorKeepsInv(cfg, mid, inst, pool, windowStart);
        case Turn(t, input) => TurnKeepsInv(cfg, mid, t, input, pool, windowStart);
      }
    }
  }

  /** The invariant of every schedule of goroutines. */
  lemma PlayKeepsInv(cfg: Config, pool: nat, windowStart: int, events: seq<Event>)
    requires cfg.Valid() && Play(cfg, Boot(pool, windowStart), events).Some?
    ensures Inv(cfg, Play(cfg, Boot(pool, windowStart), events).value, pool, windowStart)
  {
    RunKeepsInv(cfg, Boot(pool, windowStart), pool, windowStart, events);
  }

  // ---------------------------------------------------------------- main results

  /** No operation of a goroutine is ever refused: in every reachable state, whatever goroutine
      moves next, its memory operation is possible (the grant it pours is still in flight, the
      bucket it drains exists). */
  lemma NeverRefused(cfg: Config, pool: nat, windowStart: int, events: seq<Event>, t: nat, input: Input)
    requires cfg.Valid() && Play(cfg, Boot(pool, windowStart), events).Some?
    requires var w := Play(cfg, Boot(pool, windowStart), events).value;
      t < |w.threads| && ThreadEffect(cfg, w, t, input).Some?
    ensures var w := Play(cfg, Boot(pool, windowStart), events).value;
      var act := ThreadEffect(cfg, w, t, input).value.act;
      act.Some? ==> Enabled(w.mem, act.value)
  {
    PlayKeepsInv(cfg, pool, windowStart, events);
    var w := Play(cfg, Boot(pool, windowStart), events).value;
    ThreadSound(cfg, w, t, input, ThreadEffect(cfg, w, t, input).value);
  }

  /** Exactly-once refill over every interleaving: a grant in flight is held by one goroutine and
      no other, so it can be poured into a bucket, or lost, exactly once. */
  lemma OneHolderPerGrant(cfg: Config, pool: nat, windowStart: int, events: seq<Event>, f: nat)
    requires cfg.Valid() && Play(cfg, Boot(pool, windowStart), events).Some?
    requires IsFlying(Play(cfg, Boot(pool, windowStart), events).value.mem, f)
    ensures var w := Play(cfg, Boot(pool, windowStart), events).value;
      exists t :: 0 <= t < |w.threads| && Holds(w.threads[t]) == Some(f) &&
        forall u :: 0 <= u < |w.threads| && Holds(w.threads[u]) == Some(f) ==> u == t
  {
    PlayKeepsInv(cfg, pool, windowStart, events);
    var w := Play(cfg, Boot(pool, windowStart), events).value;
    assert Holds(w.threads[w.owner[f]]) == Some(f);
  }

  lemma ClearedWithinPaid(threads: seq<Thread>)
    ensures SumBy(Cleared, threads) <= SumBy(Paid, threads)
  {
    SumMonotone(Cleared, Paid, threads);
  }

  /** The headline: over every interleaving of requests, pre-borrows, probes, evictions, clock
      readings and lost messages, the total cost of the requests answered "allowed" is at most
      the tokens minted, hence one limit per aligned window that Redis opened. */
  lemma AllowedWithinMinted(cfg: Config, pool: nat, windowStart: int, events: seq<Event>)
    requires cfg.Valid() && Play(cfg, Boot(pool, windowStart), events).Some?
    ensures var w := Play(cfg, Boot(pool, windowStart), events).value;
      && Balanced(w.mem)
      && SumBy(Cleared, w.threads) <= w.mem.minted
      && w.mem.minted <= AdmissionCap(w.mem, pool, cfg.limit, cfg.window)
  {
    PlayKeepsInv(cfg, pool, windowStart, events);
    var w := Play(cfg, Boot(pool, windowStart), events).value;
    Conservation(pool, windowStart, w.log);
    AdmissionBound(pool, windowStart, w.log, cfg.limit, cfg.window);
    ClearedWithinPaid(w.threads);
  }
}
