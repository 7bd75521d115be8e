/** The whole request as a value: what AllowN makes of the protocol state and what it answers, for
    everything the outside world may do to it; and, in plain numbers, when it is allowed. */
module Answers {
  import opened Options
  import opened Windows
  import opened Protocol
  import opened Routing
  import opened Requests

  /** What the outside world contributes to one request: the clock, the router's k-th decision
      (None for a router error), message fates, borrow sizes, and the ranked peers to probe. */
  datatype Environment = Environment(
    now: int,
    route: (nat, RouteContext) -> Option<Decision>,
    resetReply: Reply,
    borrowReply: nat -> Reply,
    size: nat -> nat,
    peers: seq<Peer>
  )

  datatype Verdict = Allowed | Denied | Failed

  ghost predicate RouterObeys(env: Environment) {
    forall k: nat, rc :: env.route(k, rc).Some? ==> Obeys(rc, env.route(k, rc).value)
  }

  /** Nothing the limiter itself asks for is lost, and the router makes no errors. */
  ghost predicate NoErrors(env: Environment) {
    && (forall k: nat, rc :: env.route(k, rc).Some?)
    && (forall k: nat :: env.borrowReply(k) == Answered)
  }

  /** And neither is a reset or a probe. */
  ghost predicate NothingLost(env: Environment) {
    NoErrors(env) && env.resetReply == Answered && AllAnswer(env.peers)
  }

  predicate AllAnswer(peers: seq<Peer>) {
    forall p :: p in peers ==> p.reply == Answered
  }

  /** A router that gives up only when there are no peers left to ask, as the default router does. */
  ghost predicate AsksPeers(env: Environment) {
    forall k: nat, rc :: env.route(k, rc) == Some(Deny) ==> !rc.hasPeers
  }

  ghost predicate SizesFit(env: Environment, bound: nat) {
    forall k: nat :: env.size(k) <= bound
  }

  /** What all requests of a fleet have in common. */
  datatype Deployment = Deployment(key: string, limit: nat, window: int, instances: nat, reserved: nat) {
    predicate Valid() { window > 0 }
  }

  // ---------------------------------------------------------------- the request

  /** Where the loop stands: before its k-th decision, or with an answer after k of them. */
  datatype Loop =
    | Going(m: State, exhausted: bool, peerChecked: bool, k: nat)
    | Over(m: State, verdict: Verdict, k: nat)

  ghost function Stage(m: State, answer: Option<Verdict>, exhausted: bool, peerChecked: bool, k: nat): Loop {
    match answer
    case Some(v) => Over(m, v, k)
    case None => Going(m, exhausted, peerChecked, k)
  }

  function Larger(a: nat, b: nat): nat {
    if a > b then a else b
  }

  /** A Redis turn: the answer may be lost, nothing, too little or enough. */
  ghost function RedisPass(env: Environment, i: nat, n: nat, s: Loop): Loop
    requires s.Going? && Known(s.m, i)
  {
    var requested := Larger(n, env.size(s.k));
    var r := BorrowOutcome(s.m, i, requested, env.borrowReply(s.k));
    if env.borrowReply(s.k) != Answered then Over(r, Failed, s.k + 1)
    else if GrantOf(s.m, requested) == 0 then Going(FlagOutcome(s.m, i), true, s.peerChecked, s.k + 1)
    else if n <= BucketOf(r, i).tokens then Over(ConsumeOutcome(r, i, n), Allowed, s.k + 1)
    else Going(r, s.exhausted, s.peerChecked, s.k + 1)
  }

  /** A peer turn: the ranked peers are asked until one gives something. */
  ghost function PeerPass(d: Deployment, env: Environment, i: nat, n: nat, s: Loop): Loop
    requires s.Going? && Known(s.m, i)
  {
    var (r, got) := Probed(s.m, i, env.peers, |env.peers|, d.instances, n, d.reserved);
    if got > 0 && Known(r, i) && n <= BucketOf(r, i).tokens then Over(ConsumeOutcome(r, i, n), Allowed, s.k + 1)
    else Going(r, s.exhausted, true, s.k + 1)
  }

  /** A peer turn, from what the probing has led to. */
  lemma PeerPassIs(d: Deployment, env: Environment, i: nat, n: nat, s: Loop, r: State, got: nat)
    requires s.Going? && Known(s.m, i) && Known(r, i)
    requires (r, got) == Probed(s.m, i, env.peers, |env.peers|, d.instances, n, d.reserved)
    ensures PeerPass(d, env, i, n, s) ==
      if got > 0 && n <= BucketOf(r, i).tokens
      then Stage(ConsumeOutcome(r, i, n), Some(Allowed), s.exhausted, true, s.k + 1)
      else Stage(r, None, s.exhausted, true, s.k + 1)
  {
  }

  /** One pass: the router's decision, which is told whether Redis is exhausted and whether there are
      peers left to ask, and what it leads to. */
  ghost function PassOutcome(d: Deployment, env: Environment, i: nat, n: nat, s: Loop): Loop {
    if s.Over? || !Known(s.m, i) then s
    else
      match env.route(s.k, RouteContext(d.key, n, s.exhausted, !s.peerChecked))
      case None => Over(s.m, Failed, s.k + 1)
      case Some(Deny) => Over(s.m, Denied, s.k + 1)
      case Some(ToRedis) => RedisPass(env, i, n, s)
      case Some(ToPeer) => PeerPass(d, env, i, n, s)
  }

  ghost function Passes(d: Deployment, env: Environment, i: nat, n: nat, s: Loop, c: nat): Loop {
    if c == 0 then s else PassOutcome(d, env, i, n, Passes(d, env, i, n, s, c - 1))
  }

  /** The loop as it starts. */
  ghost function Entered(d: Deployment, env: Environment, i: nat, m: State): Loop
    requires d.Valid() && Separate(m)
  {
    var o := OpeningOutcome(m, i, d.limit, d.window, env.now, env.resetReply);
    Going(o, Known(o, i) && BucketOf(o, i).exhausted, false, 0)
  }

  /** The whole request. */
  ghost function AllowOutcome(d: Deployment, env: Environment, i: nat, n: nat, m: State): Loop
    requires d.Valid() && Separate(m)
  {
    var l := LookupOutcome(m, i);
    var start := Entered(d, env, i, m);
    if n <= BucketOf(l, i).tokens then Over(ConsumeOutcome(l, i, n), Allowed, 0)
    else if Known(start.m, i) && n <= BucketOf(start.m, i).tokens then Over(ConsumeOutcome(start.m, i, n), Allowed, 0)
    else Passes(d, env, i, n, start, 4)
  }

  lemma {:induction false} OverStays(d: Deployment, env: Environment, i: nat, n: nat, s: Loop, c: nat, e: nat)
    requires c <= e && Passes(d, env, i, n, s, c).Over?
    ensures Passes(d, env, i, n, s, e) == Passes(d, env, i, n, s, c)
  {
    if c < e {
      OverStays(d, env, i, n, s, c, e - 1);
    }
  }

  // ---------------------------------------------------------------- what one pass keeps

  /** A stage of the loop: the request is not covered yet, or has its answer. */
  ghost predicate Sensible(s: Loop, i: nat, n: nat) {
    && Separate(s.m) && Known(s.m, i)
    && (s.Going? ==> BucketOf(s.m, i).tokens < n && (s.exhausted ==> BucketOf(s.m, i).exhausted))
    && (s.Over? && s.verdict == Denied ==> BucketOf(s.m, i).exhausted)
  }

  predicate Served(s: Loop) {
    s.Over? && s.verdict == Allowed
  }

  /** What a pass makes of a stage: it keeps what every turn keeps, gives a reason for each answer,
      and comes closer to the end. */
  ghost predicate Progress(d: Deployment, env: Environment, i: nat, n: nat, s: Loop, r: Loop, at: Setting)
    requires at.Valid() && s.Going?
  {
    && Sensible(r, i, n) && r.k == s.k + 1
    && Turned(s.m, r.m, i, n, Served(r), at)
    && (NoErrors(env) && r.Over? ==> r.verdict != Failed)
    && (r.Over? && r.verdict == Denied ==> s.exhausted && r.m == s.m)
    && (r.Going? ==>
          && Left(r.exhausted, r.peerChecked, r.m.pool) < Left(s.exhausted, s.peerChecked, s.m.pool)
          && (s.exhausted ==> r.exhausted) && (s.peerChecked ==> r.peerChecked)
          && (r.exhausted ==> s.exhausted || r.m.pool == 0))
    && (s.exhausted ==> r.m.pool == s.m.pool)
    && (r.m.pool < s.m.pool && NoErrors(env) ==> !BucketOf(r.m, i).exhausted)
    && (NoErrors(env) && !Served(r) ==> Backing(s.m, i) <= Backing(r.m, i))
    && BucketOf(r.m, i).consumed == BucketOf(s.m, i).consumed + (if Served(r) then n else 0)
    && (Served(r) && SizesFit(env, at.cap + 1) && n <= at.cap + 1 ==> BucketOf(r.m, i).tokens <= at.cap)
  }

  lemma RedisLost(d: Deployment, env: Environment, i: nat, n: nat, s: Loop, at: Setting)
    requires at.Valid() && s.Going? && Sensible(s, i, n) && !s.exhausted && env.borrowReply(s.k) != Answered
    ensures Progress(d, env, i, n, s, RedisPass(env, i, n, s), at)
  {
    BorrowTurned(s.m, i, n, Larger(n, env.size(s.k)), env.borrowReply(s.k), at);
  }

  lemma RedisEmpty(d: Deployment, env: Environment, i: nat, n: nat, s: Loop, at: Setting)
    requires at.Valid() && s.Going? && Sensible(s, i, n) && !s.exhausted && env.borrowReply(s.k) == Answered
    requires GrantOf(s.m, Larger(n, env.size(s.k))) == 0
    ensures Progress(d, env, i, n, s, RedisPass(env, i, n, s), at)
  {
    FlagTurned(s.m, i, n, at);
  }

  lemma RedisShort(d: Deployment, env: Environment, i: nat, n: nat, s: Loop, at: Setting)
    requires at.Valid() && s.Going? && Sensible(s, i, n) && !s.exhausted && env.borrowReply(s.k) == Answered
    requires var r := BorrowOutcome(s.m, i, Larger(n, env.size(s.k)), Answered);
      GrantOf(s.m, Larger(n, env.size(s.k))) > 0 && BucketOf(r, i).tokens < n
    ensures Progress(d, env, i, n, s, RedisPass(env, i, n, s), at)
  {
    var requested := Larger(n, env.size(s.k));
    var r := BorrowOutcome(s.m, i, requested, Answered);
    BorrowTurned(s.m, i, n, requested, Answered, at);
    GrantMeans(s.m, i, requested);
    assert RedisPass(env, i, n, s) == Going(r, s.exhausted, s.peerChecked, s.k + 1);
    assert Backing(s.m, i) == Backing(r, i);
  }

  /** A grant, in numbers. */
  lemma GrantMeans(m: State, i: nat, requested: nat)
    requires Known(m, i) && GrantOf(m, requested) > 0
    ensures var r := BorrowOutcome(m, i, requested, Answered);
      && Known(r, i) && !BucketOf(r, i).exhausted && BucketOf(r, i).consumed == BucketOf(m, i).consumed
      && r.pool == (if requested <= m.pool then m.pool - requested else 0)
      && BucketOf(r, i).tokens + r.pool == BucketOf(m, i).tokens + m.pool
  {
  }

  /** A consumption, in numbers. */
  lemma ConsumeMeans(m: State, i: nat, n: nat)
    requires Separate(m) && Known(m, i) && n <= BucketOf(m, i).tokens
    ensures var r := ConsumeOutcome(m, i, n);
      && Separate(r) && Known(r, i) && r.pool == m.pool && r.admitted == m.admitted + n
      && BucketOf(r, i).tokens == BucketOf(m, i).tokens - n
      && BucketOf(r, i).consumed == BucketOf(m, i).consumed + n
      && BucketOf(r, i).exhausted == BucketOf(m, i).exhausted
  {
  }

  lemma RedisServes(d: Deployment, env: Environment, i: nat, n: nat, s: Loop, at: Setting)
    requires at.Valid() && s.Going? && Sensible(s, i, n) && !s.exhausted && env.borrowReply(s.k) == Answered
    requires var r := BorrowOutcome(s.m, i, Larger(n, env.size(s.k)), Answered);
      GrantOf(s.m, Larger(n, env.size(s.k))) > 0 && n <= BucketOf(r, i).tokens
    ensures Progress(d, env, i, n, s, RedisPass(env, i, n, s), at)
  {
    var requested := Larger(n, env.size(s.k));
    var r := BorrowOutcome(s.m, i, requested, Answered);
    BorrowTurned(s.m, i, n, requested, Answered, at);
    GrantMeans(s.m, i, requested);
    ConsumeTurned(s.m, r, i, n, at);
    ConsumeMeans(r, i, n);
    assert BucketOf(ConsumeOutcome(r, i, n), i).tokens < requested;
    assert requested <= at.cap + 1 || !SizesFit(env, at.cap + 1) || n > at.cap + 1;
  }

  lemma RedisProgress(d: Deployment, env: Environment, i: nat, n: nat, s: Loop, at: Setting)
    requires at.Valid() && s.Going? && Sensible(s, i, n) && !s.exhausted
    ensures Progress(d, env, i, n, s, RedisPass(env, i, n, s), at)
  {
    if env.borrowReply(s.k) != Answered {
      RedisLost(d, env, i, n, s, at);
    } else if GrantOf(s.m, Larger(n, env.size(s.k))) == 0 {
      RedisEmpty(d, env, i, n, s, at);
    } else {
      var r := BorrowOutcome(s.m, i, Larger(n, env.size(s.k)), Answered);
      if n <= BucketOf(r, i).tokens {
        RedisServes(d, env, i, n, s, at);
      } else {
        RedisShort(d, env, i, n, s, at);
      }
    }
  }

  lemma PeerProgress(d: Deployment, env: Environment, i: nat, n: nat, s: Loop, at: Setting)
    requires at.Valid() && at.instances == d.instances && s.Going? && Sensible(s, i, n) && !s.peerChecked
    ensures Progress(d, env, i, n, s, PeerPass(d, env, i, n, s), at)
  {
    var (r, got) := Probed(s.m, i, env.peers, |env.peers|, d.instances, n, d.reserved);
    ProbingFair(s.m, i, env.peers, |env.peers|, n, d.reserved, at);
    if got > 0 && n <= BucketOf(r, i).tokens {
      ConsumeTurned(s.m, r, i, n, at);
    }
  }

  lemma PassProgress(d: Deployment, env: Environment, i: nat, n: nat, s: Loop, at: Setting)
    requires at.Valid() && at.instances == d.instances && RouterObeys(env) && s.Going? && Sensible(s, i, n)
    ensures Progress(d, env, i, n, s, PassOutcome(d, env, i, n, s), at)
  {
    var decision := env.route(s.k, RouteContext(d.key, n, s.exhausted, !s.peerChecked));
    if decision == Some(ToRedis) {
      RedisProgress(d, env, i, n, s, at);
    } else if decision == Some(ToPeer) {
      PeerProgress(d, env, i, n, s, at);
    }
  }

  /** What the loop so far has kept, from where it started. */
  ghost predicate SoFar(env: Environment, i: nat, n: nat, s: Loop, r: Loop, at: Setting)
    requires at.Valid() && s.Going?
  {
    && Sensible(r, i, n)
    && Turned(s.m, r.m, i, n, Served(r), at)
    && (NoErrors(env) && r.Over? ==> r.verdict != Failed)
    && (r.Over? && r.verdict == Denied ==> r.m.pool == 0 || (s.exhausted && r.m.pool == s.m.pool))
    && (r.Going? ==>
          && r.k + Left(r.exhausted, r.peerChecked, r.m.pool) <= s.k + Left(s.exhausted, s.peerChecked, s.m.pool)
          && (r.exhausted ==> r.m.pool == 0 || (s.exhausted && r.m.pool == s.m.pool))
          && (s.exhausted ==> r.exhausted))
    && (r.Over? ==> r.k <= s.k + 1 + Left(s.exhausted, s.peerChecked, s.m.pool))
    && (s.exhausted ==> r.m.pool == s.m.pool)
    && (NoErrors(env) && !Served(r) ==> Backing(s.m, i) <= Backing(r.m, i))
    && BucketOf(r.m, i).consumed == BucketOf(s.m, i).consumed + (if Served(r) then n else 0)
    && (Served(r) && SizesFit(env, at.cap + 1) && n <= at.cap + 1 ==> BucketOf(r.m, i).tokens <= at.cap)
  }

  lemma {:induction false} PassesSoFar(d: Deployment, env: Environment, i: nat, n: nat, s: Loop, c: nat, at: Setting)
    requires at.Valid() && at.instances == d.instances && RouterObeys(env) && s.Going? && Sensible(s, i, n)
    ensures SoFar(env, i, n, s, Passes(d, env, i, n, s, c), at)
    ensures Passes(d, env, i, n, s, c).Going? ==> Passes(d, env, i, n, s, c).k == s.k + c
  {
    if c > 0 {
      PassesSoFar(d, env, i, n, s, c - 1, at);
      var mid := Passes(d, env, i, n, s, c - 1);
      if mid.Going? {
        PassProgress(d, env, i, n, mid, at);
        SoFarOn(d, env, i, n, s, mid, PassOutcome(d, env, i, n, mid), at);
      }
    }
  }

  /** One more pass. */
  lemma SoFarOn(d: Deployment, env: Environment, i: nat, n: nat, s: Loop, mid: Loop, r: Loop, at: Setting)
    requires at.Valid() && s.Going? && mid.Going?
    requires SoFar(env, i, n, s, mid, at) && Progress(d, env, i, n, mid, r, at)
    ensures SoFar(env, i, n, s, r, at)
  {
    TurnedAfter(s.m, mid.m, r.m, i, n, Served(r), at);
  }

  /** The loop after k passes, from a state in which the bucket does not cover the request. */
  ghost function LoopFrom(d: Deployment, env: Environment, i: nat, n: nat, m: State, k: nat): Loop
    requires Known(m, i)
  {
    Passes(d, env, i, n, Going(m, BucketOf(m, i).exhausted, false, 0), k)
  }

  /** Between two passes the bucket is still short, and at most three decisions have been made. */
  lemma Unanswered(d: Deployment, env: Environment, i: nat, n: nat, m: State, k: nat)
    requires d.Valid() && RouterObeys(env) && Separate(m) && Known(m, i) && BucketOf(m, i).tokens < n
    requires LoopFrom(d, env, i, n, m, k).Going?
    ensures var g := LoopFrom(d, env, i, n, m, k); k <= 3 && Known(g.m, i) && BucketOf(g.m, i).tokens < n
  {
    PassesSoFar(d, env, i, n, Going(m, BucketOf(m, i).exhausted, false, 0), k,
      Setting(d.window, env.now, d.instances, 0));
  }

  /** The same from any stage that makes sense. */
  lemma StillShort(d: Deployment, env: Environment, i: nat, n: nat, s: Loop, c: nat)
    requires d.Valid() && RouterObeys(env) && s.Going? && Sensible(s, i, n) && Passes(d, env, i, n, s, c).Going?
    ensures var g := Passes(d, env, i, n, s, c);
      Separate(g.m) && Known(g.m, i) && BucketOf(g.m, i).tokens < n
  {
    PassesSoFar(d, env, i, n, s, c, Setting(d.window, env.now, d.instances, 0));
  }

  lemma LoopStays(d: Deployment, env: Environment, i: nat, n: nat, m: State, k: nat)
    requires Known(m, i) && k <= 4 && LoopFrom(d, env, i, n, m, k).Over?
    ensures LoopFrom(d, env, i, n, m, 4) == LoopFrom(d, env, i, n, m, k)
  {
    OverStays(d, env, i, n, Going(m, BucketOf(m, i).exhausted, false, 0), k, 4);
  }

  /** The loop ends within four passes. */
  lemma LoopEnds(d: Deployment, env: Environment, i: nat, n: nat, s: Loop, at: Setting)
    requires at.Valid() && at.instances == d.instances && RouterObeys(env) && s.Going? && Sensible(s, i, n)
    ensures Passes(d, env, i, n, s, 4).Over?
  {
    PassesSoFar(d, env, i, n, s, 4, at);
  }

  lemma LookupKeepsApart(m: State, i: nat)
    requires Separate(m)
    ensures var l := LookupOutcome(m, i); Separate(l) && Known(l, i) && LookupOutcome(l, i) == l
  {
  }

  /** Looking the bucket up before the request makes no difference to it. */
  lemma LookupFirst(d: Deployment, env: Environment, i: nat, n: nat, m: State)
    requires d.Valid() && Separate(m)
    ensures var l := LookupOutcome(m, i);
      Separate(l) && Known(l, i) && AllowOutcome(d, env, i, n, l) == AllowOutcome(d, env, i, n, m)
  {
    LookupKeepsApart(m, i);
  }

  lemma TurnKeepsApart(d: Deployment, env: Environment, i: nat, m: State)
    requires d.Valid() && Separate(m)
    ensures var start := Entered(d, env, i, m); Separate(start.m) && Known(start.m, i)
  {
    LookupKeepsApart(m, i);
  }

  /** Every request is answered. */
  lemma AllowEnds(d: Deployment, env: Environment, i: nat, n: nat, m: State)
    requires d.Valid() && Separate(m) && RouterObeys(env)
    ensures AllowOutcome(d, env, i, n, m).Over?
  {
    var start := Entered(d, env, i, m);
    TurnKeepsApart(d, env, i, m);
    if BucketOf(start.m, i).tokens < n {
      LoopEnds(d, env, i, n, start, Setting(d.window, env.now, d.instances, 0));
    }
  }

  // ---------------------------------------------------------------- what a request keeps

  /** The part before the loop. */
  lemma EnteredKept(d: Deployment, env: Environment, i: nat, n: nat, m: State, at: Setting)
    requires d.Valid() && Separate(m) && i < d.instances && at == Setting(d.window, env.now, d.instances, at.cap)
    requires BucketOf(LookupOutcome(m, i), i).tokens < n
    ensures var o := Entered(d, env, i, m).m;
      && Known(o, i) && Separate(o)
      && (BucketOf(o, i).tokens < n ==> Opened(m, o, i, n, d.limit, env.resetReply, false, at))
      && (n <= BucketOf(o, i).tokens ==>
            Opened(m, ConsumeOutcome(o, i, n), i, n, d.limit, env.resetReply, true, at))
      && (Bypass(m, d.window, env.now) && BucketOf(o, i).exhausted ==>
            o.pool == 0 || (Due(StartOf(m, i), d.window, env.now) && env.resetReply != Answered))
  {
    var l := LookupOutcome(m, i);
    var o := Entered(d, env, i, m).m;
    LookupOpened(m, i, d.limit, env.resetReply, at);
    if Due(BucketOf(l, i).start, d.window, env.now) {
      ResetOpened(l, i, d.limit, env.now, env.resetReply, at);
      if n <= BucketOf(o, i).tokens {
        ConsumeOpened(m, o, i, n, d.limit, env.resetReply, at);
      }
    } else if Bypass(l, d.window, env.now) && BucketOf(l, i).exhausted {
      FlagMeansEmpty(l, d.window, env.now, env.now, i);
    }
  }

  /** Where the request's last tryConsume but for the loop is made. */
  ghost function TriedAt(d: Deployment, env: Environment, i: nat, n: nat, m: State): State
    requires d.Valid() && Separate(m)
  {
    var l := LookupOutcome(m, i);
    if n <= BucketOf(l, i).tokens then l else Entered(d, env, i, m).m
  }

  /** Everything a request keeps, whatever is lost and whatever the router does within its contract. */
  lemma AllowKept(d: Deployment, env: Environment, i: nat, n: nat, m: State, at: Setting)
    requires d.Valid() && Separate(m) && i < d.instances && at == Setting(d.window, env.now, d.instances, at.cap)
    requires RouterObeys(env)
    ensures var res := AllowOutcome(d, env, i, n, m);
      && res.Over? && res.k <= 4 && Sensible(res, i, n)
      && res.m.admitted == m.admitted + (if Served(res) then n else 0)
      && m.minted <= res.m.minted <= m.minted + d.limit
      && (NoErrors(env) ==> res.verdict != Failed)
      && (Bypass(m, d.window, env.now) ==> Bypass(res.m, d.window, env.now))
      && (res.verdict == Denied ==> BucketOf(res.m, i).tokens < n)
      && (res.verdict == Denied && Bypass(m, d.window, env.now) ==>
            res.m.pool == 0 || (Due(StartOf(m, i), d.window, env.now) && env.resetReply != Answered))
      && (n <= BucketOfOr(m, i) ==> Served(res) && res.k == 0)
      && (Snug(m, d.instances, at.cap) && n <= at.cap + 1 && SizesFit(env, at.cap + 1) ==>
            && Snug(res.m, d.instances, at.cap)
            && (Potential(res.m) <= Potential(m) ||
                Potential(res.m) <= LeakCap(d.limit, d.instances, at.cap, env.resetReply)))
    ensures var res, from := AllowOutcome(d, env, i, n, m), TriedAt(d, env, i, n, m);
      && Known(from, i)
      && BucketOf(res.m, i).consumed == BucketOf(from, i).consumed + (if Served(res) then n else 0)
      && (BucketOf(from, i).exhausted ==> res.m.pool == from.pool)
  {
    var res, l := AllowOutcome(d, env, i, n, m), LookupOutcome(m, i);
    LookupOpened(m, i, d.limit, env.resetReply, at);
    if n <= BucketOf(l, i).tokens {
      ConsumeOpened(m, l, i, n, d.limit, env.resetReply, at);
      RequestKept(m, res.m, res.m, i, n, d.limit, env.resetReply, true, true, at);
      ConsumeMeans(l, i, n);
    } else {
      EnteredKept(d, env, i, n, m, at);
      var start := Entered(d, env, i, m);
      if n <= BucketOf(start.m, i).tokens {
        RequestKept(m, res.m, res.m, i, n, d.limit, env.resetReply, true, true, at);
        ConsumeMeans(start.m, i, n);
      } else {
        PassesSoFar(d, env, i, n, start, 4, at);
        RequestKept(m, start.m, res.m, i, n, d.limit, env.resetReply, false, Served(res), at);
      }
    }
  }

  /** A request that its bucket and the pool cover together, once the window has been turned if it is
      due, is allowed unless something is lost on the way to Redis. */
  lemma ProspectServes(d: Deployment, env: Environment, i: nat, n: nat, m: State)
    requires d.Valid() && Separate(m) && i < d.instances && RouterObeys(env) && NoErrors(env)
    requires env.resetReply == Answered && Bypass(m, d.window, env.now)
    requires n <= Prospect(m, i, d.limit, d.window, env.now)
    ensures Served(AllowOutcome(d, env, i, n, m))
  {
    var at := Setting(d.window, env.now, d.instances, 0);
    var start := Entered(d, env, i, m);
    if BucketOf(LookupOutcome(m, i), i).tokens < n {
      EnteredKept(d, env, i, n, m, at);
      if BucketOf(start.m, i).tokens < n {
        PassesSoFar(d, env, i, n, start, 4, at);
      }
    }
  }

  // ---------------------------------------------------------------- in plain numbers

  /** What a peer has for instance i: as much of the need as it holds above the reserve. */
  function OneGift(m: State, i: nat, p: Peer, instances: nat, need: nat, reserved: nat): (gift: nat)
    ensures gift <= need && gift + Min(reserved, BucketOfOr(m, p.id)) <= Larger(BucketOfOr(m, p.id), reserved)
  {
    if p.id == i || p.id >= instances || !p.reachable then 0
    else if BucketOfOr(m, p.id) <= reserved then 0
    else Min(need, BucketOfOr(m, p.id) - reserved)
  }

  /** What the first of c ranked peers that has anything gives. */
  function Gift(m: State, i: nat, peers: seq<Peer>, c: nat, instances: nat, need: nat, reserved: nat): nat
    requires c <= |peers|
  {
    if c == 0 then 0
    else
      var before := Gift(m, i, peers, c - 1, instances, need, reserved);
      if before > 0 then before else OneGift(m, i, peers[c - 1], instances, need, reserved)
  }

  /** Other instances' tokens are the same. */
  ghost predicate SameOthers(m: State, r: State, i: nat) {
    forall j :: j != i ==> BucketOfOr(r, j) == BucketOfOr(m, j)
  }

  lemma {:induction false} GiftOfOthers(m: State, r: State, i: nat, peers: seq<Peer>, c: nat, instances: nat, need: nat,
      reserved: nat)
    requires c <= |peers| && SameOthers(m, r, i)
    ensures Gift(r, i, peers, c, instances, need, reserved) == Gift(m, i, peers, c, instances, need, reserved)
  {
    if c > 0 {
      GiftOfOthers(m, r, i, peers, c - 1, instances, need, reserved);
    }
  }

  /** A probe that is answered gives exactly that. */
  lemma ProbeGives(m: State, i: nat, p: Peer, instances: nat, need: nat, reserved: nat)
    requires Separate(m) && Known(m, i) && p.reply == Answered
    ensures var (r, got) := ProbePeer(m, i, p, instances, need, reserved);
      && Separate(r) && Known(r, i) && r.pool == m.pool
      && got == OneGift(m, i, p, instances, need, reserved)
      && BucketOf(r, i) == BucketOf(m, i).(tokens := BucketOf(m, i).tokens + got)
      && (got == 0 ==> SameOthers(m, r, i))
  {
    var l := LookupOutcome(m, p.id);
    assert BucketOfOr(l, p.id) == BucketOfOr(m, p.id);
    assert SameOthers(m, l, i);
  }

  lemma {:induction false} ProbingGives(m: State, i: nat, peers: seq<Peer>, c: nat, instances: nat, need: nat,
      reserved: nat)
    requires Separate(m) && Known(m, i) && AllAnswer(peers) && c <= |peers|
    ensures var (r, got) := Probed(m, i, peers, c, instances, need, reserved);
      && Separate(r) && Known(r, i) && r.pool == m.pool
      && got == Gift(m, i, peers, c, instances, need, reserved)
      && BucketOf(r, i) == BucketOf(m, i).(tokens := BucketOf(m, i).tokens + got)
      && (got == 0 ==> SameOthers(m, r, i))
  {
    if c > 0 {
      ProbingGives(m, i, peers, c - 1, instances, need, reserved);
      var (r, got) := Probed(m, i, peers, c - 1, instances, need, reserved);
      if got == 0 {
        assert peers[c - 1] in peers;
        ProbeGives(r, i, peers[c - 1], instances, need, reserved);
      }
    }
  }

  ghost function GiftOfAll(d: Deployment, env: Environment, i: nat, n: nat, m: State): nat {
    Gift(m, i, env.peers, |env.peers|, d.instances, n, d.reserved)
  }

  /** What a request can still get at a stage of its loop. */
  ghost function InReach(d: Deployment, env: Environment, i: nat, n: nat, s: Loop): nat
    requires s.Going?
  {
    Backing(s.m, i) + if s.peerChecked then 0 else GiftOfAll(d, env, i, n, s.m)
  }

  /** What is left when a request is denied: peers are left only by a router that need not ask them. */
  ghost function LeftOver(d: Deployment, env: Environment, i: nat, n: nat, m: State): nat {
    Backing(m, i) + if AsksPeers(env) then 0 else GiftOfAll(d, env, i, n, m)
  }

  /** A pass only moves that about, and serves nothing that is not within it. */
  lemma PassReach(d: Deployment, env: Environment, i: nat, n: nat, s: Loop)
    requires NothingLost(env) && RouterObeys(env) && s.Going? && Sensible(s, i, n)
    ensures var r := PassOutcome(d, env, i, n, s);
      && (r.Going? ==> InReach(d, env, i, n, r) == InReach(d, env, i, n, s))
      && (Served(r) ==> n <= InReach(d, env, i, n, s))
      && (r.Over? && !Served(r) ==> InReach(d, env, i, n, s) <= LeftOver(d, env, i, n, r.m))
  {
    var decision := env.route(s.k, RouteContext(d.key, n, s.exhausted, !s.peerChecked));
    if decision == Some(ToRedis) {
      RedisReach(d, env, i, n, s);
    } else if decision == Some(ToPeer) {
      ProbingGives(s.m, i, env.peers, |env.peers|, d.instances, n, d.reserved);
    }
  }

  lemma RedisReach(d: Deployment, env: Environment, i: nat, n: nat, s: Loop)
    requires NothingLost(env) && s.Going? && Sensible(s, i, n)
    ensures var r := RedisPass(env, i, n, s);
      && (r.Going? ==> InReach(d, env, i, n, r) == InReach(d, env, i, n, s))
      && (Served(r) ==> n <= InReach(d, env, i, n, s))
  {
    var requested := Larger(n, env.size(s.k));
    BorrowBacking(s.m, i, requested);
    BorrowFrame(s.m, i, requested, Answered);
    var r := RedisPass(env, i, n, s);
    if r.Going? {
      assert SameOthers(s.m, r.m, i);
      GiftOfOthers(s.m, r.m, i, env.peers, |env.peers|, d.instances, n, d.reserved);
    }
  }

  /** The same of a whole loop. */
  ghost predicate Reaches(d: Deployment, env: Environment, i: nat, n: nat, s: Loop, r: Loop)
    requires s.Going?
  {
    && (r.Going? ==> InReach(d, env, i, n, r) == InReach(d, env, i, n, s))
    && (Served(r) ==> n <= InReach(d, env, i, n, s))
    && (r.Over? && !Served(r) ==> InReach(d, env, i, n, s) <= LeftOver(d, env, i, n, r.m))
  }

  lemma {:induction false} PassesReach(d: Deployment, env: Environment, i: nat, n: nat, s: Loop, c: nat, at: Setting)
    requires at.Valid() && at.instances == d.instances && s.Going? && Sensible(s, i, n)
    requires NothingLost(env) && RouterObeys(env)
    ensures Reaches(d, env, i, n, s, Passes(d, env, i, n, s, c))
  {
    if c > 0 {
      PassesReach(d, env, i, n, s, c - 1, at);
      PassesSoFar(d, env, i, n, s, c - 1, at);
      var mid := Passes(d, env, i, n, s, c - 1);
      if mid.Going? {
        PassReach(d, env, i, n, mid);
        ReachesOn(d, env, i, n, s, mid, PassOutcome(d, env, i, n, mid));
      }
    }
  }

  lemma ReachesOn(d: Deployment, env: Environment, i: nat, n: nat, s: Loop, mid: Loop, r: Loop)
    requires s.Going? && mid.Going? && Reaches(d, env, i, n, s, mid) && Reaches(d, env, i, n, mid, r)
    ensures Reaches(d, env, i, n, s, r)
  {
  }

  /** When the loop serves a request, from a start whose flag, if set, is right. */
  lemma LoopServesIff(d: Deployment, env: Environment, i: nat, n: nat, s: Loop, at: Setting)
    requires at.Valid() && at.instances == d.instances && s.Going? && Sensible(s, i, n)
    requires NothingLost(env) && RouterObeys(env) && (s.exhausted ==> s.m.pool == 0)
    ensures var r := Passes(d, env, i, n, s, 4);
      && (n <= Backing(s.m, i) ==> Served(r))
      && (Served(r) ==> n <= InReach(d, env, i, n, s))
      && (AsksPeers(env) && n <= InReach(d, env, i, n, s) ==> Served(r))
  {
    PassesReach(d, env, i, n, s, 4, at);
    PassesSoFar(d, env, i, n, s, 4, at);
    LoopEnds(d, env, i, n, s, at);
  }

  /** The opening leaves other instances alone. */
  lemma OpeningOthers(d: Deployment, env: Environment, i: nat, m: State)
    requires d.Valid() && Separate(m)
    ensures SameOthers(m, Entered(d, env, i, m).m, i)
  {
    var l := LookupOutcome(m, i);
    assert SameOthers(m, l, i);
  }

  /** When a request is allowed, if nothing is lost: its bucket covers it, or its bucket and the pool
      do, once the window has been turned if it is due, or these and what the first peer that has
      anything above its reserve gives.  A router that gives up only when there are no peers left to
      ask makes this exact; any other may leave the peers' part unused. */
  lemma AllowedIff(d: Deployment, env: Environment, i: nat, n: nat, m: State)
    requires d.Valid() && Separate(m) && i < d.instances && RouterObeys(env) && NothingLost(env)
    requires Bypass(m, d.window, env.now)
    ensures var res := AllowOutcome(d, env, i, n, m);
      var own, prospect := BucketOfOr(m, i), Prospect(m, i, d.limit, d.window, env.now);
      && (n <= own || n <= prospect ==> Served(res))
      && (Served(res) ==> n <= own || n <= prospect + GiftOfAll(d, env, i, n, m))
      && (AsksPeers(env) ==> (Served(res) <==> n <= own || n <= prospect + GiftOfAll(d, env, i, n, m)))
  {
    var at := Setting(d.window, env.now, d.instances, 0);
    var l, start := LookupOutcome(m, i), Entered(d, env, i, m);
    assert BucketOf(l, i).tokens == BucketOfOr(m, i);
    if BucketOf(l, i).tokens < n {
      EnteredKept(d, env, i, n, m, at);
      OpeningOthers(d, env, i, m);
      GiftOfOthers(m, start.m, i, env.peers, |env.peers|, d.instances, n, d.reserved);
      assert InReach(d, env, i, n, start) ==
        Prospect(m, i, d.limit, d.window, env.now) + GiftOfAll(d, env, i, n, m);
      if BucketOf(start.m, i).tokens < n {
        LoopServesIff(d, env, i, n, start, at);
      }
    }
  }

  /** One ranked peer and the default router. */
  ghost function OnePeer(now: int, resetReply: Reply, j: nat): Environment {
    Environment(now, (k: nat, rc: RouteContext) => Some(DefaultDecide(rc)), resetReply, (k: nat) => Answered,
                (k: nat) => 0, [Peer(j, true, Answered)])
  }

  /** What its bucket does not cover and one peer covers above its reserve is served from there, and
      Redis is not asked. */
  lemma OnePeerServes(d: Deployment, i: nat, n: nat, m: State, now: int, resetReply: Reply, j: nat)
    requires d.Valid() && Separate(m) && i != j && j < d.instances && BucketOfOr(m, i) < n
    requires var o := OpeningOutcome(m, i, d.limit, d.window, now, resetReply);
      Separate(o) && Known(o, i) && BucketOf(o, i).tokens < n && n + d.reserved <= BucketOfOr(o, j)
    ensures var o := OpeningOutcome(m, i, d.limit, d.window, now, resetReply);
      && Known(o, j)
      && AllowOutcome(d, OnePeer(now, resetReply, j), i, n, m) ==
           Over(ConsumeOutcome(DonateOutcome(o, i, j, n, Answered), i, n), Allowed, 1)
  {
    var env := OnePeer(now, resetReply, j);
    var start := Entered(d, env, i, m);
    var o := start.m;
    assert BucketOf(LookupOutcome(m, i), i).tokens == BucketOfOr(m, i);
    var got := Probed(o, i, env.peers, 0, d.instances, n, d.reserved);
    assert Probed(o, i, env.peers, 1, d.instances, n, d.reserved) == (DonateOutcome(o, i, j, n, Answered), n);
    assert Passes(d, env, i, n, start, 0) == start;
    OverStays(d, env, i, n, start, 1, 4);
  }

  // ---------------------------------------------------------------- the donors

  lemma PassKeepsReserve(d: Deployment, env: Environment, i: nat, n: nat, s: Loop)
    requires s.Going? && Sensible(s, i, n)
    ensures KeepsReserve(s.m, PassOutcome(d, env, i, n, s).m, i, d.reserved)
  {
    var decision := env.route(s.k, RouteContext(d.key, n, s.exhausted, !s.peerChecked));
    if decision == Some(ToRedis) {
      BorrowFrame(s.m, i, Larger(n, env.size(s.k)), env.borrowReply(s.k));
      assert SameOthers(s.m, RedisPass(env, i, n, s).m, i);
    } else if decision == Some(ToPeer) {
      ProbingKeepsReserve(s.m, i, env.peers, |env.peers|, d.instances, n, d.reserved);
    }
  }

  lemma {:induction false} LoopKeepsReserve(d: Deployment, env: Environment, i: nat, n: nat, s: Loop, c: nat,
      at: Setting)
    requires at.Valid() && at.instances == d.instances && RouterObeys(env) && s.Going? && Sensible(s, i, n)
    ensures KeepsReserve(s.m, Passes(d, env, i, n, s, c).m, i, d.reserved)
  {
    if c > 0 {
      LoopKeepsReserve(d, env, i, n, s, c - 1, at);
      PassesSoFar(d, env, i, n, s, c - 1, at);
      var mid := Passes(d, env, i, n, s, c - 1);
      if mid.Going? {
        PassKeepsReserve(d, env, i, n, mid);
      }
    }
  }

  /** Whatever a request asks of its peers, none of them ends below the smaller of what it had and
      the reserve. */
  lemma DonorsKeepReserve(d: Deployment, env: Environment, i: nat, n: nat, m: State)
    requires d.Valid() && Separate(m) && i < d.instances && RouterObeys(env)
    ensures KeepsReserve(m, AllowOutcome(d, env, i, n, m).m, i, d.reserved)
  {
    var at := Setting(d.window, env.now, d.instances, 0);
    var l, start := LookupOutcome(m, i), Entered(d, env, i, m);
    OpeningOthers(d, env, i, m);
    assert SameOthers(m, l, i);
    if BucketOf(l, i).tokens < n {
      EnteredKept(d, env, i, n, m, at);
      if BucketOf(start.m, i).tokens < n {
        LoopKeepsReserve(d, env, i, n, start, 4, at);
      }
    }
  }

  /** Both statements of when a request is allowed, for the method. */
  lemma AllowServes(d: Deployment, env: Environment, i: nat, n: nat, m: State)
    requires d.Valid() && Separate(m) && i < d.instances && RouterObeys(env)
    ensures var res, prospect := AllowOutcome(d, env, i, n, m), Prospect(m, i, d.limit, d.window, env.now);
      && (NoErrors(env) && env.resetReply == Answered && Bypass(m, d.window, env.now) ==>
            n <= prospect ==> Served(res))
      && (NothingLost(env) && AsksPeers(env) && Bypass(m, d.window, env.now) ==>
            (Served(res) <==> n <= BucketOfOr(m, i) || n <= prospect + GiftOfAll(d, env, i, n, m)))
  {
    if Bypass(m, d.window, env.now) {
      if NoErrors(env) && env.resetReply == Answered && n <= Prospect(m, i, d.limit, d.window, env.now) {
        ProspectServes(d, env, i, n, m);
      }
      if NothingLost(env) {
        AllowedIff(d, env, i, n, m);
      }
    }
  }

  /** All of it, for a request that comes at or after the time up to which the flag is known to be
      right. */
  lemma AllowSummary(d: Deployment, env: Environment, i: nat, n: nat, m: State, clock: int, cap: nat)
    requires d.Valid() && Separate(m) && i < d.instances && RouterObeys(env) && clock <= env.now
    ensures var res, prospect := AllowOutcome(d, env, i, n, m), Prospect(m, i, d.limit, d.window, env.now);
      var sound, r := Bypass(m, d.window, clock), res.m;
      && res.Over? && res.k <= 4 && Known(r, i)
      && r.admitted == m.admitted + (if Served(res) then n else 0)
      && m.minted <= r.minted <= m.minted + d.limit
      && (NoErrors(env) ==> res.verdict != Failed)
      && (sound ==> Bypass(r, d.window, env.now))
      && (res.verdict == Denied ==> BucketOf(r, i).exhausted && BucketOf(r, i).tokens < n)
      && (res.verdict == Denied && sound ==>
            r.pool == 0 || (Due(StartOf(m, i), d.window, env.now) && env.resetReply != Answered))
      && (n <= BucketOfOr(m, i) ==> Served(res) && res.k == 0)
      && (NoErrors(env) && env.resetReply == Answered && sound ==> n <= prospect ==> Served(res))
      && (NothingLost(env) && AsksPeers(env) && sound ==>
            (Served(res) <==> n <= BucketOfOr(m, i) || n <= prospect + GiftOfAll(d, env, i, n, m)))
      && KeepsReserve(m, r, i, d.reserved)
      && (Snug(m, d.instances, cap) && n <= cap + 1 && SizesFit(env, cap + 1) ==>
            && Snug(r, d.instances, cap)
            && (Potential(r) <= Potential(m) ||
                Potential(r) <= LeakCap(d.limit, d.instances, cap, env.resetReply)))
  {
    if Bypass(m, d.window, clock) {
      BypassTicks(m, d.window, clock, env.now);
    }
    AllowKept(d, env, i, n, m, Setting(d.window, env.now, d.instances, cap));
    DonorsKeepReserve(d, env, i, n, m);
    AllowServes(d, env, i, n, m);
  }
}
