/** A whole request of the goroutine machine played without interruption, whatever its router, Redis
    and its peers do: it gives the answer, and does to the memory, exactly what the request as a value
    says. */
module Uninterrupted {
  import opened Options
  import opened Windows
  import opened Protocol
  import opened Routing
  import opened Goroutines
  import opened Solo
  import opened Probes
  import opened Requests
  import Answers

  predicate AllFinished(tail: seq<Thread>) {
    forall q :: q in tail ==> Finished(q)
  }

  /** Goroutines that were started since have finished. */
  predicate Tidy(u: Run, r: Run) {
    |r.tail| <= |u.tail| && u.tail[..|r.tail|] == r.tail && AllFinished(u.tail[|r.tail|..])
  }

  lemma TidyAfter(u: Run, mid: Run, r: Run)
    requires Tidy(u, mid) && Tidy(mid, r)
    ensures Tidy(u, r)
  {
    assert u.tail[|r.tail|..] == mid.tail[|r.tail|..] + u.tail[|mid.tail|..];
  }

  lemma TidyOne(u: Run, r: Run)
    requires OneJoins(u, r)
    ensures Tidy(u, r)
  {
    assert u.tail[|r.tail|..] == [u.tail[|r.tail|]];
  }

  function ConfigOf(d: Answers.Deployment): Config {
    Config(d.limit, d.window, d.reserved)
  }

  // ---------------------------------------------------------------- the peers

  /** The leader of call c is probing; or a peer's grant is in its bucket, and it takes no more. */
  ghost predicate Asked(u: Run, r: Run, base: seq<Thread>, l: Locals, c: nat, m: State, got: nat) {
    && c < |r.world.calls| && u.world.open == r.world.open && Tidy(u, r)
    && if got == 0 then At(u, base, l, Probing(c), m) && u.world.calls == r.world.calls
       else
         && At(u, base, l, Settle(c, Granted(got)), m)
         && u.world.calls == r.world.calls[c := r.world.calls[c].(closed := true)]
  }

  /** A rich peer whose reply arrives. */
  lemma Given(d: Answers.Deployment, w: World, r: Run, base: seq<Thread>, l: Locals, c: nat, q: Thread, m: State,
      gift: nat) returns (u: Run)
    requires d.Valid() && Ran(ConfigOf(d), w, r) && q.Probe? && q.c == c && Out(r, base, l, c, q, m)
    requires Points(l, m) && Known(m, q.server) && Separate(m) && q.server != l.inst && Taking(r, c) && q.need > 0
    requires q.at == ReadSurplus(m.live[q.server])
    requires gift == Spare(m, q.server, q.need, d.reserved) && gift > 0
    ensures Ran(ConfigOf(d), w, u)
    ensures Asked(u, r, base, l, c, DonateOutcome(m, l.inst, q.server, gift, Answered), gift)
  {
    var cfg, f := ConfigOf(d), |m.flights|;
    DonateWrites(m, l.inst, q.server, gift);
    u := Rich(cfg, w, r, base, l, c, q, m, gift);
    var m1 := Step(m, Donate(m.live[q.server], gift));
    u := Taken(cfg, w, u, base, l, c, q.(at := ProbePc.Reply(f)), m1, f);
    u := Poured(cfg, w, u, base, l, m1, c, f);
  }

  /** A rich peer whose reply is lost. */
  lemma GivenAway(d: Answers.Deployment, w: World, r: Run, base: seq<Thread>, l: Locals, c: nat, q: Thread, m: State,
      gift: nat) returns (u: Run)
    requires d.Valid() && Ran(ConfigOf(d), w, r) && q.Probe? && q.c == c && Out(r, base, l, c, q, m)
    requires Points(l, m) && Known(m, q.server) && Separate(m) && q.server != l.inst && Taking(r, c) && q.need > 0
    requires q.at == ReadSurplus(m.live[q.server])
    requires gift == Spare(m, q.server, q.need, d.reserved) && gift > 0
    ensures Ran(ConfigOf(d), w, u)
    ensures Asked(u, r, base, l, c, DonateOutcome(m, l.inst, q.server, gift, LostAfter), 0)
  {
    var cfg, f := ConfigOf(d), |m.flights|;
    DonateWrites(m, l.inst, q.server, gift);
    u := Rich(cfg, w, r, base, l, c, q, m, gift);
    u := Wasted(cfg, w, u, base, l, c, q.(at := ProbePc.Reply(f)), Step(m, Donate(m.live[q.server], gift)), f);
    TidyOne(u, r);
  }

  /** One ranked peer. */
  lemma AskOne(d: Answers.Deployment, w: World, r: Run, base: seq<Thread>, l: Locals, c: nat, m: State, p: Peer)
    returns (u: Run)
    requires d.Valid() && Ran(ConfigOf(d), w, r) && At(r, base, l, Probing(c), m) && Taking(r, c)
    requires Points(l, m) && Separate(m) && l.n > 0
    ensures Ran(ConfigOf(d), w, u)
    ensures var (m2, got) := Requests.ProbePeer(m, l.inst, p, d.instances, l.n, d.reserved);
      Asked(u, r, base, l, c, m2, got)
  {
    var cfg := ConfigOf(d);
    u := r;
    if p.id != l.inst && p.id < d.instances && p.reachable && p.reply != LostBefore {
      var s := LookupOutcome(m, p.id);
      assert Separate(s) && Points(l, s);
      var q;
      u, q := Send(cfg, w, r, base, l, c, m, p.id);
      var gift := Spare(s, p.id, l.n, d.reserved);
      if gift == 0 {
        u := Poor(cfg, w, u, base, l, c, q, s, s.live[p.id]);
        TidyOne(u, r);
      } else if p.reply == Answered {
        u := Given(d, w, u, base, l, c, q, s, gift);
      } else {
        u := GivenAway(d, w, u, base, l, c, q, s, gift);
      }
    }
  }

  lemma AskedOn(v: Run, u: Run, r: Run, base: seq<Thread>, l: Locals, c: nat, mid: State, m: State, got: nat)
    requires Asked(u, r, base, l, c, mid, 0) && Asked(v, u, base, l, c, m, got)
    ensures Asked(v, r, base, l, c, m, got)
  {
    TidyAfter(v, u, r);
  }

  /** The first k ranked peers, one after the other. */
  lemma {:induction false} AskAll(d: Answers.Deployment, w: World, r: Run, base: seq<Thread>, l: Locals, c: nat,
      m: State, peers: seq<Peer>, k: nat) returns (u: Run)
    requires d.Valid() && Ran(ConfigOf(d), w, r) && At(r, base, l, Probing(c), m) && Taking(r, c)
    requires Points(l, m) && Separate(m) && l.n > 0 && k <= |peers|
    ensures Ran(ConfigOf(d), w, u)
    ensures var (m2, got) := Probed(m, l.inst, peers, k, d.instances, l.n, d.reserved);
      Asked(u, r, base, l, c, m2, got) && Points(l, m2) && Separate(m2)
  {
    u := r;
    if k > 0 {
      u := AskAll(d, w, r, base, l, c, m, peers, k - 1);
      var (mid, got) := Probed(m, l.inst, peers, k - 1, d.instances, l.n, d.reserved);
      if got == 0 {
        var v := AskOne(d, w, u, base, l, c, mid, peers[k - 1]);
        var (m2, more) := Requests.ProbePeer(mid, l.inst, peers[k - 1], d.instances, l.n, d.reserved);
        StillPoints(l, mid, peers[k - 1], d);
        AskedOn(v, u, r, base, l, c, mid, m2, more);
        u := v;
      }
    }
  }

  lemma StillPoints(l: Locals, m: State, p: Peer, d: Answers.Deployment)
    requires Points(l, m) && Separate(m)
    ensures var (m2, got) := Requests.ProbePeer(m, l.inst, p, d.instances, l.n, d.reserved);
      Points(l, m2) && Separate(m2)
  {
    ProbeKeepsReserve(m, l.inst, p, d.instances, l.n, d.reserved);
  }

  // ---------------------------------------------------------------- one pass

  function Told(v: Answers.Verdict): Verdict {
    match v
    case Allowed => Allowed
    case Denied => Denied
    case Failed => Errored
  }

  predicate SameRequest(a: Locals, b: Locals) {
    a.inst == b.inst && a.n == b.n && a.b == b.b && a.background == b.background
  }

  /** The goroutine stands where the stage of the loop says. */
  predicate Stands(u: Run, base: seq<Thread>, l: Locals, s: Answers.Loop) {
    match s
    case Going(m, exhausted, peerChecked, _) =>
      At(u, base, l.(exhausted := exhausted, peerChecked := peerChecked), Choose, m)
    case Over(m, v, _) =>
      && |base| < |u.world.threads| && u.world.threads[|base|].Request?
      && SameRequest(u.world.threads[|base|].l, l)
      && At(u, base, u.world.threads[|base|].l, Done(Told(v)), m)
  }

  lemma EndsAt(u: Run, base: seq<Thread>, l: Locals, m: State, v: Answers.Verdict, k: nat)
    requires At(u, base, l, Done(Told(v)), m)
    ensures Stands(u, base, l, Answers.Over(m, v, k))
  {
    assert u.world.threads[|base|] == Request(l, Done(Told(v)));
  }

  lemma EndsAlike(u: Run, base: seq<Thread>, l: Locals, now: Locals, s: Answers.Loop)
    requires s.Over? && Stands(u, base, now, s) && SameRequest(now, l)
    ensures Stands(u, base, l, s)
  {
  }

  /** After a grant: the tryConsume, and its two ends. */
  lemma TryAgain(d: Answers.Deployment, w: World, r: Run, base: seq<Thread>, l: Locals, m: State, k: nat)
    returns (u: Run)
    requires d.Valid() && Ran(ConfigOf(d), w, r) && At(r, base, l, TryThird, m) && Points(l, m)
    ensures Ran(ConfigOf(d), w, u) && SameCalls(u, r)
    ensures Stands(u, base, l,
      if l.n <= BucketOf(m, l.inst).tokens then Answers.Over(ConsumeOutcome(m, l.inst, l.n), Answers.Allowed, k)
      else Answers.Going(m, l.exhausted, l.peerChecked, k))
  {
    if l.n <= BucketOf(m, l.inst).tokens {
      u := Hit(ConfigOf(d), w, r, base, l, TryThird, m);
      EndsAt(u, base, l, ConsumeOutcome(m, l.inst, l.n), Answers.Allowed, k);
    } else {
      u := Quiet1(ConfigOf(d), w, r, base, l, TryThird, m, Go, Choose);
      assert l.(exhausted := l.exhausted, peerChecked := l.peerChecked) == l;
    }
  }

  /** The router sends the request to its peers, and it leads the call. */
  lemma LeadToPeers(cfg: Config, w: World, r: Run, base: seq<Thread>, l: Locals, m: State) returns (u: Run)
    requires cfg.Valid() && Ran(cfg, w, r) && At(r, base, l, Choose, m) && (l.inst, PeerKind) !in r.world.open
    ensures Ran(cfg, w, u) && At(u, base, l.(peerChecked := true), Probing(|r.world.calls|), m)
    ensures u.world.calls == r.world.calls + [Call(l.inst, PeerKind, false, None)]
    ensures u.world.open == r.world.open[(l.inst, PeerKind) := |r.world.calls|] && u.tail == r.tail
  {
    var checked := l.(peerChecked := true);
    u := Move(cfg, w, r, base, l, Choose, m, Route(Some(ToPeer)), Quiet(r.world, Request(checked, JoinPeer)));
    u := Move(cfg, w, u, base, checked, JoinPeer, m, Go, JoinEffect(u.world, checked, PeerKind));
  }

  lemma PeersTold(cfg: Config, w: World, r: Run, base: seq<Thread>, l: Locals, m: State, got: nat) returns (u: Run)
    requires cfg.Valid() && Ran(cfg, w, r) && At(r, base, l, AfterPeer(Granted(got)), m)
    ensures Ran(cfg, w, u) && SameCalls(u, r) && At(u, base, l, if got == 0 then Choose else TryThird, m)
  {
    u := Quiet1(cfg, w, r, base, l, AfterPeer(Granted(got)), m, Go, if got == 0 then Choose else TryThird);
  }

  /** The end of a call to peers. */
  lemma PeersDone(d: Answers.Deployment, w: World, r: Run, base: seq<Thread>, l: Locals, c: nat, m: State, got: nat)
    returns (u: Run)
    requires d.Valid() && Ran(ConfigOf(d), w, r) && c < |r.world.calls|
    requires r.world.calls[c].kind == PeerKind && r.world.calls[c].inst == l.inst
    requires At(r, base, l, if got == 0 then Probing(c) else Settle(c, Granted(got)), m)
    ensures Ran(ConfigOf(d), w, u) && At(u, base, l, if got == 0 then Choose else TryThird, m)
    ensures u.world.open == r.world.open - {(l.inst, PeerKind)} && u.tail == r.tail
  {
    var cfg := ConfigOf(d);
    u := r;
    if got == 0 {
      u := Move(cfg, w, r, base, l, Probing(c), m, GiveUp(false), ProbingEffect(r.world, l, c, GiveUp(false)).value);
    }
    u := SettleAlone(cfg, w, u, base, l, m, c, PeerKind, Granted(got));
    u := PeersTold(cfg, w, u, base, l, m, got);
  }

  /** What a pass leaves behind. */
  predicate Passed(u: Run, r: Run) {
    u.world.open == r.world.open && Tidy(u, r)
  }

  lemma PeerAlone(d: Answers.Deployment, env: Answers.Environment, w: World, r: Run, base: seq<Thread>, l: Locals,
      m: State, k: nat) returns (u: Run)
    requires d.Valid() && Ran(ConfigOf(d), w, r) && At(r, base, l, Choose, m) && (l.inst, PeerKind) !in r.world.open
    requires Points(l, m) && Separate(m) && BucketOf(m, l.inst).tokens < l.n
    ensures Ran(ConfigOf(d), w, u) && Passed(u, r)
    ensures Stands(u, base, l, Answers.PeerPass(d, env, l.inst, l.n, Answers.Going(m, l.exhausted, l.peerChecked, k)))
  {
    var c, checked := |r.world.calls|, l.(peerChecked := true);
    var led := LeadToPeers(ConfigOf(d), w, r, base, l, m);
    u := AskAll(d, w, led, base, checked, c, m, env.peers, |env.peers|);
    var (m2, got) := Probed(m, l.inst, env.peers, |env.peers|, d.instances, l.n, d.reserved);
    assert u.world.open - {(l.inst, PeerKind)} == r.world.open;
    u := PeersDone(d, w, u, base, checked, c, m2, got);
    if got > 0 {
      u := TryAgain(d, w, u, base, checked, m2, k + 1);
    }
  }

  /** The leader's own call to Redis. */
  predicate Calling(r: Run, l: Locals, c: nat) {
    c < |r.world.calls| && r.world.calls[c].kind == RedisKind && r.world.calls[c].inst == l.inst
  }

  /** What a call leaves behind. */
  predicate CallOver(u: Run, r: Run, l: Locals) {
    u.world.open == r.world.open - {(l.inst, RedisKind)} && u.tail == r.tail
  }

  /** A call that has failed ends the request. */
  lemma RedisFails(cfg: Config, w: World, r: Run, base: seq<Thread>, l: Locals, m: State, c: nat) returns (u: Run)
    requires cfg.Valid() && Ran(cfg, w, r) && At(r, base, l, Settle(c, Outcome.Failed), m) && Calling(r, l, c)
    requires !l.background
    ensures Ran(cfg, w, u) && At(u, base, l, Done(Errored), m) && CallOver(u, r, l)
  {
    u := SettleAlone(cfg, w, r, base, l, m, c, RedisKind, Outcome.Failed);
    u := Quiet1(cfg, w, u, base, l, AfterRedis(Outcome.Failed), m, Go, Done(Errored));
  }

  /** The call is lost on the way there. */
  lemma LostOnTheWay(cfg: Config, w: World, r: Run, base: seq<Thread>, l: Locals, m: State, c: nat) returns (u: Run)
    requires cfg.Valid() && Ran(cfg, w, r) && At(r, base, l, SendBorrow(c), m) && Calling(r, l, c) && !l.background
    ensures Ran(cfg, w, u) && CallOver(u, r, l) && At(u, base, l, Done(Errored), m)
  {
    u := Quiet1(cfg, w, r, base, l, SendBorrow(c), m, NetFail(false), Settle(c, Outcome.Failed));
    u := RedisFails(cfg, w, u, base, l, m, c);
  }

  /** An empty answer is lost. */
  lemma EmptyLost(cfg: Config, w: World, r: Run, base: seq<Thread>, l: Locals, m: State, c: nat, size: nat)
    returns (u: Run)
    requires cfg.Valid() && Ran(cfg, w, r) && At(r, base, l, SendBorrow(c), m) && Calling(r, l, c) && !l.background
    requires GrantOf(m, Answers.Larger(l.n, size)) == 0
    ensures Ran(cfg, w, u) && CallOver(u, r, l) && At(u, base, l, Done(Errored), m)
  {
    u := AskEmpty(cfg, w, r, base, l, m, c, size);
    u := Quiet1(cfg, w, u, base, l, EmptyReply(c), m, NetFail(true), Settle(c, Outcome.Failed));
    u := RedisFails(cfg, w, u, base, l, m, c);
  }

  lemma ReplyLost(cfg: Config, w: World, r: Run, base: seq<Thread>, l: Locals, m: State, c: nat, f: nat)
    returns (u: Run)
    requires cfg.Valid() && Ran(cfg, w, r) && At(r, base, l, BorrowReply(c, f), m) && IsFlying(m, f)
    ensures Ran(cfg, w, u) && SameCalls(u, r) && At(u, base, l, Settle(c, Outcome.Failed), Step(m, Lose(f)))
  {
    u := Does1(cfg, w, r, base, l, BorrowReply(c, f), m, NetFail(true), Lose(f), Settle(c, Outcome.Failed));
  }

  /** A grant is lost. */
  lemma GrantLost(cfg: Config, w: World, r: Run, base: seq<Thread>, l: Locals, m: State, c: nat, size: nat)
    returns (u: Run)
    requires cfg.Valid() && Ran(cfg, w, r) && At(r, base, l, SendBorrow(c), m) && Calling(r, l, c) && !l.background
    requires Points(l, m) && GrantOf(m, Answers.Larger(l.n, size)) > 0
    ensures Ran(cfg, w, u) && CallOver(u, r, l)
    ensures At(u, base, l, Done(Errored), BorrowOutcome(m, l.inst, Answers.Larger(l.n, size), LostAfter))
  {
    var requested, f := Answers.Larger(l.n, size), |m.flights|;
    BorrowWrites(m, l.inst, requested);
    var m1 := Step(m, Borrow(requested));
    u := Does1(cfg, w, r, base, l, SendBorrow(c), m, Size(size), Borrow(requested), BorrowReply(c, f));
    u := ReplyLost(cfg, w, u, base, l, m1, c, f);
    u := RedisFails(cfg, w, u, base, l, Step(m1, Lose(f)), c);
  }

  /** The call is lost on the way there or back. */
  lemma RedisLost(d: Answers.Deployment, w: World, r: Run, base: seq<Thread>, l: Locals, m: State, c: nat, size: nat,
      reply: Requests.Reply) returns (u: Run)
    requires d.Valid() && Ran(ConfigOf(d), w, r) && At(r, base, l, SendBorrow(c), m) && Calling(r, l, c)
    requires Points(l, m) && reply != Answered && !l.background
    ensures Ran(ConfigOf(d), w, u) && CallOver(u, r, l)
    ensures At(u, base, l, Done(Errored), BorrowOutcome(m, l.inst, Answers.Larger(l.n, size), reply))
  {
    if reply == LostBefore {
      u := LostOnTheWay(ConfigOf(d), w, r, base, l, m, c);
    } else if GrantOf(m, Answers.Larger(l.n, size)) == 0 {
      u := EmptyLost(ConfigOf(d), w, r, base, l, m, c, size);
    } else {
      u := GrantLost(ConfigOf(d), w, r, base, l, m, c, size);
    }
  }

  /** Redis has nothing. */
  lemma AskEmpty(cfg: Config, w: World, r: Run, base: seq<Thread>, l: Locals, m: State, c: nat, size: nat)
    returns (u: Run)
    requires cfg.Valid() && Ran(cfg, w, r) && At(r, base, l, SendBorrow(c), m)
    requires GrantOf(m, Answers.Larger(l.n, size)) == 0
    ensures Ran(cfg, w, u) && SameCalls(u, r) && At(u, base, l, EmptyReply(c), m)
  {
    var requested := Answers.Larger(l.n, size);
    assert Step(m, Borrow(requested)) == m;
    u := Does1(cfg, w, r, base, l, SendBorrow(c), m, Size(size), Borrow(requested), EmptyReply(c));
  }

  /** An answer of nothing: the bucket is flagged, and so is the request. */
  lemma RedisEmpty(d: Answers.Deployment, w: World, r: Run, base: seq<Thread>, l: Locals, m: State, c: nat, size: nat)
    returns (u: Run)
    requires d.Valid() && Ran(ConfigOf(d), w, r) && At(r, base, l, SendBorrow(c), m) && Calling(r, l, c)
    requires Points(l, m) && !l.background && GrantOf(m, Answers.Larger(l.n, size)) == 0
    ensures Ran(ConfigOf(d), w, u) && CallOver(u, r, l)
    ensures At(u, base, l.(exhausted := true), Choose, FlagOutcome(m, l.inst))
  {
    var cfg := ConfigOf(d);
    u := AskEmpty(cfg, w, r, base, l, m, c, size);
    u := Quiet1(cfg, w, u, base, l, EmptyReply(c), m, Go, Settle(c, Granted(0)));
    u := SettleAlone(cfg, w, u, base, l, m, c, RedisKind, Granted(0));
    u := FlagAlone(cfg, w, u, base, l, m);
  }

  lemma FlagWrites(l: Locals, m: State)
    requires Points(l, m)
    ensures Enabled(m, SetExhausted(l.b, true)) && Step(m, SetExhausted(l.b, true)) == FlagOutcome(m, l.inst)
  {
  }

  lemma FlagAlone(cfg: Config, w: World, r: Run, base: seq<Thread>, l: Locals, m: State) returns (u: Run)
    requires cfg.Valid() && Ran(cfg, w, r) && At(r, base, l, AfterRedis(Granted(0)), m)
    requires Points(l, m) && !l.background
    ensures Ran(cfg, w, u) && SameCalls(u, r) && At(u, base, l.(exhausted := true), Choose, FlagOutcome(m, l.inst))
  {
    u := Quiet1(cfg, w, r, base, l, AfterRedis(Granted(0)), m, Go, MarkFlag);
    u := MarkAlone(cfg, w, u, base, l, m);
  }

  lemma MarkAlone(cfg: Config, w: World, r: Run, base: seq<Thread>, l: Locals, m: State) returns (u: Run)
    requires cfg.Valid() && Ran(cfg, w, r) && At(r, base, l, MarkFlag, m) && Points(l, m)
    ensures Ran(cfg, w, u) && SameCalls(u, r) && At(u, base, l.(exhausted := true), Choose, FlagOutcome(m, l.inst))
  {
    FlagWrites(l, m);
    u := Move(cfg, w, r, base, l, MarkFlag, m, Go,
      Does(r.world, SetExhausted(l.b, true), Request(l.(exhausted := true), Choose)));
  }

  /** A grant: it is poured, and the request tries its bucket again. */
  lemma RedisGrants(d: Answers.Deployment, w: World, r: Run, base: seq<Thread>, l: Locals, m: State, c: nat, size: nat)
    returns (u: Run)
    requires d.Valid() && Ran(ConfigOf(d), w, r) && At(r, base, l, SendBorrow(c), m) && Calling(r, l, c)
    requires Points(l, m) && !l.background && GrantOf(m, Answers.Larger(l.n, size)) > 0
    ensures Ran(ConfigOf(d), w, u) && CallOver(u, r, l)
    ensures var m2 := BorrowOutcome(m, l.inst, Answers.Larger(l.n, size), Answered);
      At(u, base, l, TryThird, m2) && Points(l, m2)
  {
    var cfg, requested := ConfigOf(d), Answers.Larger(l.n, size);
    var m2, g := BorrowOutcome(m, l.inst, requested, Answered), GrantOf(m, requested);
    u := BorrowAlone(cfg, w, r, base, l, m, c, size);
    u := Conclude(cfg, w, u, base, l, m2, c, g);
  }

  lemma RedisAlone(d: Answers.Deployment, env: Answers.Environment, w: World, r: Run, base: seq<Thread>, l: Locals,
      m: State, k: nat) returns (u: Run)
    requires d.Valid() && Ran(ConfigOf(d), w, r) && At(r, base, l, Choose, m) && (l.inst, RedisKind) !in r.world.open
    requires Points(l, m) && Separate(m) && !l.background
    ensures Ran(ConfigOf(d), w, u) && Passed(u, r)
    ensures Stands(u, base, l, Answers.RedisPass(env, l.inst, l.n, Answers.Going(m, l.exhausted, l.peerChecked, k)))
  {
    var cfg, c, size, reply := ConfigOf(d), |r.world.calls|, env.size(k), env.borrowReply(k);
    var requested := Answers.Larger(l.n, size);
    var led := LeadToRedis(cfg, w, r, base, l, m);
    assert led.world.open - {(l.inst, RedisKind)} == r.world.open;
    if reply != Answered {
      u := RedisLost(d, w, led, base, l, m, c, size, reply);
      EndsAt(u, base, l, BorrowOutcome(m, l.inst, requested, reply), Answers.Failed, k + 1);
    } else if GrantOf(m, requested) == 0 {
      u := RedisEmpty(d, w, led, base, l, m, c, size);
    } else {
      u := RedisGrants(d, w, led, base, l, m, c, size);
      u := TryAgain(d, w, u, base, l, BorrowOutcome(m, l.inst, requested, Answered), k + 1);
    }
  }

  // ---------------------------------------------------------------- the loop

  lemma PassAlone(d: Answers.Deployment, env: Answers.Environment, w: World, r: Run, base: seq<Thread>, l: Locals,
      s: Answers.Loop) returns (u: Run)
    requires d.Valid() && Ran(ConfigOf(d), w, r) && s.Going? && Stands(r, base, l, s)
    requires (l.inst, RedisKind) !in r.world.open && (l.inst, PeerKind) !in r.world.open
    requires Points(l, s.m) && Separate(s.m) && BucketOf(s.m, l.inst).tokens < l.n && !l.background
    ensures Ran(ConfigOf(d), w, u) && Passed(u, r)
    ensures Stands(u, base, l, Answers.PassOutcome(d, env, l.inst, l.n, s))
  {
    var cfg := ConfigOf(d);
    var now := l.(exhausted := s.exhausted, peerChecked := s.peerChecked);
    var decision := env.route(s.k, RouteContext(d.key, l.n, s.exhausted, !s.peerChecked));
    var next := Answers.PassOutcome(d, env, l.inst, l.n, s);
    match decision {
      case None =>
        u := Quiet1(cfg, w, r, base, now, Choose, s.m, Route(None), Done(Errored));
        EndsAt(u, base, now, s.m, Answers.Failed, s.k + 1);
      case Some(Deny) =>
        u := Quiet1(cfg, w, r, base, now, Choose, s.m, Route(Some(Deny)), Done(Denied));
        EndsAt(u, base, now, s.m, Answers.Denied, s.k + 1);
      case Some(ToRedis) =>
        u := RedisAlone(d, env, w, r, base, now, s.m, s.k);
      case Some(ToPeer) =>
        u := PeerAlone(d, env, w, r, base, now, s.m, s.k);
    }
    if next.Over? {
      EndsAlike(u, base, l, now, next);
    }
  }

  /** The stage s of the loop is where the played goroutine stands, with its bucket. */
  ghost predicate Reached(u: Run, r: Run, base: seq<Thread>, l: Locals, s: Answers.Loop) {
    Passed(u, r) && Stands(u, base, l, s) && (s.Going? ==> Points(l, s.m))
  }

  lemma OnePassMore(d: Answers.Deployment, env: Answers.Environment, w: World, u: Run, r: Run, base: seq<Thread>,
      l: Locals, t: Answers.Loop) returns (v: Run)
    requires d.Valid() && Ran(ConfigOf(d), w, u) && t.Going? && Reached(u, r, base, l, t) && !l.background
    requires (l.inst, RedisKind) !in r.world.open && (l.inst, PeerKind) !in r.world.open
    requires Separate(t.m) && BucketOf(t.m, l.inst).tokens < l.n
    ensures Ran(ConfigOf(d), w, v) && Reached(v, r, base, l, Answers.PassOutcome(d, env, l.inst, l.n, t))
  {
    v := PassAlone(d, env, w, u, base, l, t);
    PassPoints(d, env, l, t);
    TidyAfter(v, u, r);
  }

  /** The stage of the loop after c passes. */
  lemma {:induction false} LoopAlone(d: Answers.Deployment, env: Answers.Environment, w: World, r: Run,
      base: seq<Thread>, l: Locals, s: Answers.Loop, c: nat) returns (u: Run)
    requires d.Valid() && Answers.RouterObeys(env) && Ran(ConfigOf(d), w, r) && s.Going? && Stands(r, base, l, s)
    requires (l.inst, RedisKind) !in r.world.open && (l.inst, PeerKind) !in r.world.open
    requires Points(l, s.m) && Answers.Sensible(s, l.inst, l.n) && !l.background
    ensures Ran(ConfigOf(d), w, u) && Reached(u, r, base, l, Answers.Passes(d, env, l.inst, l.n, s, c))
  {
    u := r;
    if c > 0 {
      u := LoopAlone(d, env, w, r, base, l, s, c - 1);
      var t := Answers.Passes(d, env, l.inst, l.n, s, c - 1);
      if t.Going? {
        Answers.StillShort(d, env, l.inst, l.n, s, c - 1);
        u := OnePassMore(d, env, w, u, r, base, l, t);
      }
    }
  }

  /** The bucket of the instance stays the same object. */
  lemma PassPoints(d: Answers.Deployment, env: Answers.Environment, l: Locals, s: Answers.Loop)
    requires s.Going? && Points(l, s.m) && Separate(s.m)
    ensures Points(l, Answers.PassOutcome(d, env, l.inst, l.n, s).m)
  {
    BorrowFrame(s.m, l.inst, Answers.Larger(l.n, env.size(s.k)), env.borrowReply(s.k));
    ProbedPoints(d, l, s.m, env.peers, |env.peers|);
  }

  lemma {:induction false} ProbedPoints(d: Answers.Deployment, l: Locals, m: State, peers: seq<Peer>, k: nat)
    requires Points(l, m) && Separate(m) && k <= |peers|
    ensures var (r, got) := Probed(m, l.inst, peers, k, d.instances, l.n, d.reserved); Points(l, r) && Separate(r)
  {
    if k > 0 {
      ProbedPoints(d, l, m, peers, k - 1);
      StillPoints(l, Probed(m, l.inst, peers, k - 1, d.instances, l.n, d.reserved).0, peers[k - 1], d);
    }
  }

  // ---------------------------------------------------------------- the whole request

  /** resetWindow, whatever becomes of its message. */
  lemma TurnAlone(cfg: Config, w: World, r: Run, base: seq<Thread>, l: Locals, m: State, now: int,
      reply: Requests.Reply) returns (u: Run)
    requires cfg.Valid() && Ran(cfg, w, r) && At(r, base, l, ResetLookup(now), m) && Points(l, m)
    ensures Ran(cfg, w, u) && SameCalls(u, r)
    ensures At(u, base, l, TrySecond, ResetOutcome(m, l.inst, cfg.limit, cfg.window, now, reply))
  {
    var at := Aligned(now, cfg.window);
    if reply == Answered || m.buckets[l.b].start >= at {
      var m2;
      u, m2 := ResetAlone(cfg, w, r, base, l, m, now);
    } else {
      u := TurnLost(cfg, w, r, base, l, m, now, reply);
    }
  }

  lemma TurnLost(cfg: Config, w: World, r: Run, base: seq<Thread>, l: Locals, m: State, now: int,
      reply: Requests.Reply) returns (u: Run)
    requires cfg.Valid() && Ran(cfg, w, r) && At(r, base, l, ResetLookup(now), m) && Points(l, m)
    requires reply != Answered && m.buckets[l.b].start < Aligned(now, cfg.window)
    ensures Ran(cfg, w, u) && SameCalls(u, r)
    ensures At(u, base, l, TrySecond, ResetOutcome(m, l.inst, cfg.limit, cfg.window, now, reply))
  {
    var at := Aligned(now, cfg.window);
    u := Quiet1(cfg, w, r, base, l, ResetLookup(now), m, Go, ResetCompare(l.b, at));
    u := Quiet1(cfg, w, u, base, l, ResetCompare(l.b, at), m, Go, ResetScript(l.b, at));
    if reply == LostBefore {
      u := Quiet1(cfg, w, u, base, l, ResetScript(l.b, at), m, NetFail(false), TrySecond);
    } else {
      u := Does1(cfg, w, u, base, l, ResetScript(l.b, at), m, NetFail(true), RedisReset(cfg.limit, at), TrySecond);
    }
  }

  /** What the bucket is when the loop is about to start. */
  ghost function TurnedOver(cfg: Config, m: State, inst: nat, now: int, reply: Requests.Reply): State
    requires cfg.Valid() && Known(m, inst)
  {
    if Due(BucketOf(m, inst).start, cfg.window, now)
    then ResetOutcome(m, inst, cfg.limit, cfg.window, now, reply) else m
  }

  lemma TurnPoints(cfg: Config, l: Locals, m: State, now: int, reply: Requests.Reply)
    requires cfg.Valid() && Points(l, m)
    ensures Points(l, TurnedOver(cfg, m, l.inst, now, reply))
  {
  }

  /** The first tryConsume has failed: the clock, the reset if it is due, and the second tryConsume. */
  lemma OpenAlone(cfg: Config, w: World, r: Run, base: seq<Thread>, l: Locals, m: State, now: int,
      reply: Requests.Reply) returns (u: Run)
    requires cfg.Valid() && Ran(cfg, w, r) && At(r, base, l, TryFirst, m) && Points(l, m)
    requires BucketOf(m, l.inst).tokens < l.n
    ensures Ran(cfg, w, u) && SameCalls(u, r)
    ensures var o := TurnedOver(cfg, m, l.inst, now, reply);
      && Points(l, o)
      && (if l.n <= BucketOf(o, l.inst).tokens then At(u, base, l, Done(Allowed), ConsumeOutcome(o, l.inst, l.n))
          else At(u, base, l, LoadFlag, o))
  {
    var o := TurnedOver(cfg, m, l.inst, now, reply);
    TurnPoints(cfg, l, m, now, reply);
    u := Quiet1(cfg, w, r, base, l, TryFirst, m, Go, ReadClock);
    if Due(m.buckets[l.b].start, cfg.window, now) {
      u := Quiet1(cfg, w, u, base, l, ReadClock, m, Clock(now), ResetLookup(now));
      u := TurnAlone(cfg, w, u, base, l, m, now, reply);
      u := SecondTry(cfg, w, u, base, l, o);
    } else {
      u := Quiet1(cfg, w, u, base, l, ReadClock, m, Clock(now), LoadFlag);
    }
  }

  lemma SecondTry(cfg: Config, w: World, r: Run, base: seq<Thread>, l: Locals, m: State) returns (u: Run)
    requires cfg.Valid() && Ran(cfg, w, r) && At(r, base, l, TrySecond, m) && Points(l, m)
    ensures Ran(cfg, w, u) && SameCalls(u, r)
    ensures if l.n <= BucketOf(m, l.inst).tokens then At(u, base, l, Done(Allowed), ConsumeOutcome(m, l.inst, l.n))
      else At(u, base, l, LoadFlag, m)
  {
    if l.n <= BucketOf(m, l.inst).tokens {
      u := Hit(cfg, w, r, base, l, TrySecond, m);
    } else {
      u := Quiet1(cfg, w, r, base, l, TrySecond, m, Go, LoadFlag);
    }
  }

  /** The loop, from the loading of the flag. */
  lemma LoopFromFlag(d: Answers.Deployment, env: Answers.Environment, w: World, r: Run, base: seq<Thread>, l: Locals,
      m: State) returns (u: Run)
    requires d.Valid() && Answers.RouterObeys(env) && Ran(ConfigOf(d), w, r) && At(r, base, l, LoadFlag, m)
    requires (l.inst, RedisKind) !in r.world.open && (l.inst, PeerKind) !in r.world.open
    requires Points(l, m) && Separate(m) && BucketOf(m, l.inst).tokens < l.n && !l.background && !l.peerChecked
    ensures Ran(ConfigOf(d), w, u) && Passed(u, r)
    ensures Stands(u, base, l, Answers.LoopFrom(d, env, l.inst, l.n, m, 4))
  {
    var flag := BucketOf(m, l.inst).exhausted;
    var s := Answers.Going(m, flag, false, 0);
    u := Move(ConfigOf(d), w, r, base, l, LoadFlag, m, Go, Quiet(r.world, Request(l.(exhausted := flag), Choose)));
    u := LoopAlone(d, env, w, u, base, l, s, 4);
  }

  /** The bucket does not cover the request: the opening and the loop. */
  lemma Short(d: Answers.Deployment, env: Answers.Environment, w: World, r: Run, base: seq<Thread>, l: Locals, m: State)
    returns (u: Run)
    requires d.Valid() && Answers.RouterObeys(env) && Ran(ConfigOf(d), w, r) && At(r, base, l, TryFirst, m)
    requires (l.inst, RedisKind) !in r.world.open && (l.inst, PeerKind) !in r.world.open
    requires Points(l, m) && Separate(m) && BucketOf(m, l.inst).tokens < l.n && l == Fresher(l.inst, l.n, l.b)
    ensures Ran(ConfigOf(d), w, u) && Passed(u, r)
    ensures Stands(u, base, l, Answers.AllowOutcome(d, env, l.inst, l.n, m))
  {
    var cfg := ConfigOf(d);
    var o := TurnedOver(cfg, m, l.inst, env.now, env.resetReply);
    assert o == OpeningOutcome(m, l.inst, d.limit, d.window, env.now, env.resetReply);
    u := OpenAlone(cfg, w, r, base, l, m, env.now, env.resetReply);
    if l.n <= BucketOf(o, l.inst).tokens {
      EndsAt(u, base, l, ConsumeOutcome(o, l.inst, l.n), Answers.Allowed, 0);
    } else {
      u := LoopFromFlag(d, env, w, u, base, l, o);
    }
  }

  /** A request that comes when its instance has no call under way, and that nobody interrupts, gives
      the answer of the request as a value and leaves the memory it leaves, whatever is lost, whatever
      the router does within its contract, and whatever peers are ranked. */
  lemma AllowAlone(d: Answers.Deployment, env: Answers.Environment, w: World, inst: nat, n: nat)
    returns (r: Run, l: Locals)
    requires d.Valid() && Answers.RouterObeys(env) && Separate(w.mem)
    requires (inst, RedisKind) !in w.open && (inst, PeerKind) !in w.open
    ensures var res := Answers.AllowOutcome(d, env, inst, n, w.mem);
      && Ran(ConfigOf(d), w, r) && res.Over? && At(r, w.threads, l, Done(Told(res.verdict)), res.m)
      && l.inst == inst && l.n == n
    ensures r.world.open == w.open && AllFinished(r.tail)
  {
    var base, m := w.threads, LookupOutcome(w.mem, inst);
    l := Fresher(inst, n, m.live[inst]);
    Answers.LookupFirst(d, env, inst, n, w.mem);
    Answers.AllowEnds(d, env, inst, n, w.mem);
    r := Enter(ConfigOf(d), w, inst, n);
    r := Through(d, env, w, r, base, l, m);
    l := r.world.threads[|base|].l;
  }

  /** And then no peer has ended below the smaller of what it had and the reserve. */
  lemma AloneKeepsReserve(d: Answers.Deployment, env: Answers.Environment, w: World, inst: nat, n: nat)
    returns (r: Run, l: Locals)
    requires d.Valid() && Answers.RouterObeys(env) && Separate(w.mem) && inst < d.instances
    requires (inst, RedisKind) !in w.open && (inst, PeerKind) !in w.open
    ensures Ran(ConfigOf(d), w, r) && |r.world.threads| > |w.threads| && Finished(r.world.threads[|w.threads|])
    ensures KeepsReserve(w.mem, r.world.mem, inst, d.reserved)
  {
    r, l := AllowAlone(d, env, w, inst, n);
    Answers.DonorsKeepReserve(d, env, inst, n, w.mem);
  }

  /** From the first tryConsume. */
  lemma Through(d: Answers.Deployment, env: Answers.Environment, w: World, r: Run, base: seq<Thread>, l: Locals,
      m: State)
    returns (u: Run)
    requires d.Valid() && Answers.RouterObeys(env) && Ran(ConfigOf(d), w, r) && At(r, base, l, TryFirst, m)
    requires (l.inst, RedisKind) !in r.world.open && (l.inst, PeerKind) !in r.world.open && r.tail == []
    requires Points(l, m) && Separate(m) && l == Fresher(l.inst, l.n, l.b)
    ensures Ran(ConfigOf(d), w, u) && u.world.open == r.world.open && AllFinished(u.tail)
    ensures Stands(u, base, l, Answers.AllowOutcome(d, env, l.inst, l.n, m))
  {
    if l.n <= BucketOf(m, l.inst).tokens {
      u := Hit(ConfigOf(d), w, r, base, l, TryFirst, m);
      EndsAt(u, base, l, ConsumeOutcome(m, l.inst, l.n), Answers.Allowed, 0);
    } else {
      u := Short(d, env, w, r, base, l, m);
      assert u.tail[0..] == u.tail;
    }
  }

  /** A request that its bucket does not cover, and one probed peer covers above its reserve, is served
      from there: the donation, and the consumption. */
  lemma ServeFromPeers(d: Answers.Deployment, w: World, inst: nat, n: nat, now: int, resetReply: Requests.Reply, j: nat)
    returns (r: Run, l: Locals)
    requires d.Valid() && Separate(w.mem) && (inst, RedisKind) !in w.open && (inst, PeerKind) !in w.open
    requires inst != j && j < d.instances && BucketOfOr(w.mem, inst) < n
    requires var o := OpeningOutcome(w.mem, inst, d.limit, d.window, now, resetReply);
      Separate(o) && Known(o, inst) && BucketOf(o, inst).tokens < n && n + d.reserved <= BucketOfOr(o, j)
    ensures var o := OpeningOutcome(w.mem, inst, d.limit, d.window, now, resetReply);
      && Known(o, j) && Ran(ConfigOf(d), w, r) && l.inst == inst && l.n == n
      && At(r, w.threads, l, Done(Allowed), ConsumeOutcome(DonateOutcome(o, inst, j, n, Answered), inst, n))
    ensures r.world.open == w.open && AllFinished(r.tail)
  {
    Answers.OnePeerServes(d, inst, n, w.mem, now, resetReply, j);
    r, l := AllowAlone(d, Answers.OnePeer(now, resetReply, j), w, inst, n);
  }

  // ---------------------------------------------------------------- what no request waits for

  /** A call that has been answered ends a pre-borrow. */
  lemma PrefetchDone(cfg: Config, w: World, r: Run, base: seq<Thread>, l: Locals, m: State, c: nat, g: nat)
    returns (u: Run)
    requires cfg.Valid() && Ran(cfg, w, r) && At(r, base, l, Settle(c, Granted(g)), m) && Calling(r, l, c)
    requires l.background
    ensures Ran(cfg, w, u) && At(u, base, l, Done(NoAnswer), m) && CallOver(u, r, l)
  {
    u := SettleAlone(cfg, w, r, base, l, m, c, RedisKind, Granted(g));
    u := Quiet1(cfg, w, u, base, l, AfterRedis(Granted(g)), m, Go, Done(NoAnswer));
  }

  /** The call of a pre-borrow, answered. */
  lemma PrefetchAsks(cfg: Config, w: World, r: Run, base: seq<Thread>, l: Locals, m: State, c: nat, size: nat)
    returns (u: Run)
    requires cfg.Valid() && Ran(cfg, w, r) && At(r, base, l, SendBorrow(c), m) && Points(l, m)
    ensures Ran(cfg, w, u) && SameCalls(u, r)
    ensures var requested := Answers.Larger(l.n, size);
      At(u, base, l, Settle(c, Granted(GrantOf(m, requested))), BorrowOutcome(m, l.inst, requested, Answered))
  {
    if GrantOf(m, Answers.Larger(l.n, size)) == 0 {
      u := AskEmpty(cfg, w, r, base, l, m, c, size);
      u := Quiet1(cfg, w, u, base, l, EmptyReply(c), m, Go, Settle(c, Granted(0)));
    } else {
      u := BorrowAlone(cfg, w, r, base, l, m, c, size);
    }
  }

  /** A pre-borrow, played alone: Redis lends what it has, and nobody is answered. */
  lemma PrefetchAlone(cfg: Config, w: World, r: Run, base: seq<Thread>, l: Locals, m: State, size: nat)
    returns (u: Run)
    requires cfg.Valid() && Ran(cfg, w, r) && At(r, base, l, JoinRedis, m) && (l.inst, RedisKind) !in r.world.open
    requires Points(l, m) && l.background
    ensures Ran(cfg, w, u) && u.world.open == r.world.open && u.tail == r.tail
    ensures At(u, base, l, Done(NoAnswer), BorrowOutcome(m, l.inst, Answers.Larger(l.n, size), Answered))
  {
    var c, requested := |r.world.calls|, Answers.Larger(l.n, size);
    var led := Move(cfg, w, r, base, l, JoinRedis, m, Go, JoinEffect(r.world, l, RedisKind));
    assert led.world.open - {(l.inst, RedisKind)} == r.world.open;
    u := PrefetchAsks(cfg, w, led, base, l, m, c, size);
    u := PrefetchDone(cfg, w, u, base, l, BorrowOutcome(m, l.inst, requested, Answered), c, GrantOf(m, requested));
  }

  lemma CountEffect(cfg: Config, w: World, t: nat, l: Locals)
    requires cfg.Valid() && t < |w.threads| && w.threads[t] == Request(l, Count(true))
    ensures ThreadEffect(cfg, w, t, SpawnPreBorrow) ==
      Some(Does(w, Record(l.b, l.n), Request(l, Done(Allowed)))
        .(spawned := [Request(Locals(l.inst, 0, l.b, true, false, false), JoinRedis)]))
  {
  }

  /** The recorded consumption starts a pre-borrow, which is the newest goroutine. */
  lemma CountStarts(cfg: Config, w: World, r: Run, base: seq<Thread>, l: Locals, m: State) returns (u: Run)
    requires cfg.Valid() && Ran(cfg, w, r) && At(r, base, l, Count(true), m) && IsBucket(m, l.b) && r.tail == []
    ensures Ran(cfg, w, u) && u.world.open == r.world.open && u.world.calls == r.world.calls && u.tail == []
    ensures At(u, base + [Request(l, Done(Allowed))], Locals(l.inst, 0, l.b, true, false, false), JoinRedis,
               Step(m, Record(l.b, l.n)))
  {
    var bg := Request(Locals(l.inst, 0, l.b, true, false, false), JoinRedis);
    var e := Does(r.world, Record(l.b, l.n), Request(l, Done(Allowed))).(spawned := [bg]);
    CountEffect(cfg, r.world, |base|, l);
    u := Next(cfg, w, r, Turn(|base|, SpawnPreBorrow));
    Spawned(r.world, |base|, e);
    assert r.world.threads[|base| := Request(l, Done(Allowed))] == base + [Request(l, Done(Allowed))];
    assert u.world.threads == base + [Request(l, Done(Allowed))] + [bg] + [];
  }

  /** A request served on the spot that starts a pre-borrow, and then the pre-borrow: the consumption,
      and a borrow of the recommended size. */
  lemma ServeAndPrefetch(cfg: Config, w: World, inst: nat, n: nat, size: nat) returns (r: Run, l: Locals)
    requires cfg.Valid() && LiveExist(w.mem) && (inst, RedisKind) !in w.open
    requires n <= BucketOf(LookupOutcome(w.mem, inst), inst).tokens
    ensures var m := ConsumeOutcome(LookupOutcome(w.mem, inst), inst, n);
      && Ran(cfg, w, r) && l.inst == inst && l.background && r.world.open == w.open && r.tail == []
      && At(r, w.threads + [Request(Fresher(inst, n, m.live[inst]), Done(Allowed))], l, Done(NoAnswer),
            BorrowOutcome(m, inst, size, Answered))
  {
    var m0 := LookupOutcome(w.mem, inst);
    var first := Fresher(inst, n, m0.live[inst]);
    l := Locals(inst, 0, m0.live[inst], true, false, false);
    var m1 := Step(m0, Admit(first.b, n));
    r := Enter(cfg, w, inst, n);
    r := Does1(cfg, w, r, w.threads, first, TryFirst, m0, Go, Admit(first.b, n), Count(true));
    r := CountStarts(cfg, w, r, w.threads, first, m1);
    Consumes(m0, inst, n);
    r := PrefetchAlone(cfg, w, r, w.threads + [Request(first, Done(Allowed))], l, ConsumeOutcome(m0, inst, n), size);
  }

  /** A reply that comes when its call has been answered: the grant goes to where the asking instance
      has its bucket by now. */
  lemma LateGrantArrives(cfg: Config, w: World, p: nat) returns (r: Run)
    requires cfg.Valid() && p < |w.threads| && w.threads[p].Probe? && w.threads[p].at.Reply? && LiveExist(w.mem)
    requires IsFlying(w.mem, w.threads[p].at.f)
    requires w.threads[p].c < |w.calls| && w.calls[w.threads[p].c].closed
    ensures var m, q := LookupOutcome(w.mem, w.threads[p].home), w.threads[p];
      && Known(m, q.home) && Ran(cfg, w, r) && r.world.threads == w.threads[p := q.(at := Gone)]
      && r.world.mem.flights == w.mem.flights[q.at.f := Delivered]
      && BucketOfOr(r.world.mem, q.home) == BucketOfOr(w.mem, q.home) + w.mem.flights[q.at.f].amount
  {
    var q := w.threads[p];
    var (act, b) := Lookup(w.mem, q.home);
    var m := LookupOutcome(w.mem, q.home);
    var e1 := Effect(act, q.(at := Extra(b, q.at.f)), [], w.calls, w.open, None);
    r := Next(cfg, w, Run([], w, []), Turn(p, Go));
    Replaced(w, p, e1);
    assert r.world.mem == m && r.world.threads[p] == e1.self;
    r := LateRefill(cfg, w, r, p, m, b);
  }

  lemma LateRefill(cfg: Config, w: World, r: Run, p: nat, m: State, b: nat) returns (u: Run)
    requires cfg.Valid() && Ran(cfg, w, r) && p < |r.world.threads| && r.world.threads[p].Probe? && r.world.mem == m
    requires var at := r.world.threads[p].at; at.Extra? && at.b == b && IsBucket(m, b) && IsFlying(m, at.f)
    ensures Ran(cfg, w, u) && u.world.threads == r.world.threads[p := r.world.threads[p].(at := Gone)]
    ensures u.world.mem == Step(m, Refill(b, r.world.threads[p].at.f))
  {
    var q := r.world.threads[p];
    u := Next(cfg, w, r, Turn(p, Go));
    Replaced(r.world, p, Effect(Some(Refill(b, q.at.f)), q.(at := Gone), [], r.world.calls, r.world.open, None));
  }
}
