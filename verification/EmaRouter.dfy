/** The predictive router (ema_router.go): its own velocity per peer and key, and a decision that
    asks peers only when a prediction covers the need. */
module EmaRouter {
  import opened Options
  import opened Delta
  import opened Ranking
  import opened Routing
  import opened Gossiper

  /** The entry's own times and counts, put into a peer's maps for one key. */
  function Observe(last: Counts, velocity: Times, updated: Times, key: string, e: PeerEntry, alpha: real): Times {
    if key in updated && key in last && e.lastUpdated > updated[key] then
      velocity[key := Blend(alpha, Progress(e.consumed, last[key]), e.lastUpdated - updated[key],
                            TimeOf(velocity, key, 0.0))]
    else velocity
  }

  /** The time of the entry last taken into account. */
  function Latest(last: Counts, updated: Times, key: string, e: PeerEntry): Times {
    if key in updated && key in last && e.lastUpdated > updated[key] then updated[key := e.lastUpdated]
    else if key !in updated then updated[key := e.lastUpdated]
    else updated
  }

  lemma ObserveKeepsForward(last: Counts, velocity: Times, updated: Times, key: string, e: PeerEntry, alpha: real)
    requires 0.0 <= alpha <= 1.0 && Forward(velocity)
    ensures Forward(Observe(last, velocity, updated, key, e, alpha))
  {
    if key in updated && key in last && e.lastUpdated > updated[key] {
      var dt := e.lastUpdated - updated[key];
      var progress := Progress(e.consumed, last[key]);
      Quotient(progress as real, dt);
      Product(alpha, progress as real / dt);
      Product(1.0 - alpha, TimeOf(velocity, key, 0.0));
    }
  }

  /** What the router has learnt, by peer and key. */
  datatype Model = Model(last: map<string, Counts>, velocity: map<string, Times>, updated: map<string, Times>)

  /** Taking an entry into account. */
  function Learn(m: Model, e: PeerEntry, key: string, alpha: real): Model {
    var last, speed, times := Of(m.last, e.id), Of(m.velocity, e.id), Of(m.updated, e.id);
    Model(m.last[e.id := last[key := e.consumed]],
          m.velocity[e.id := Observe(last, speed, times, key, e, alpha)],
          m.updated[e.id := Latest(last, times, key, e)])
  }

  function LearnAll(m: Model, top: seq<PeerEntry>, key: string, alpha: real): Model {
    if top == [] then m else Learn(LearnAll(m, top[..|top| - 1], key, alpha), top[|top| - 1], key, alpha)
  }

  /** A velocity is never negative, and counts and times are known for the same keys. */
  ghost predicate Sane(m: Model) {
    && m.last.Keys == m.velocity.Keys == m.updated.Keys
    && (forall id :: id in m.velocity ==> Forward(m.velocity[id]))
    && (forall id :: id in m.last ==> m.last[id].Keys == m.updated[id].Keys)
  }

  lemma LearnKeepsSane(m: Model, e: PeerEntry, key: string, alpha: real)
    requires 0.0 <= alpha <= 1.0 && Sane(m)
    ensures Sane(Learn(m, e, key, alpha))
  {
    ObserveKeepsForward(Of(m.last, e.id), Of(m.velocity, e.id), Of(m.updated, e.id), key, e, alpha);
  }

  lemma {:induction false} LearnAllKeepsSane(m: Model, top: seq<PeerEntry>, key: string, alpha: real)
    requires 0.0 <= alpha <= 1.0 && Sane(m)
    ensures Sane(LearnAll(m, top, key, alpha))
  {
    if top != [] {
      LearnAllKeepsSane(m, top[..|top| - 1], key, alpha);
      LearnKeepsSane(LearnAll(m, top[..|top| - 1], key, alpha), top[|top| - 1], key, alpha);
    }
  }

  /** Seeing the same entry again teaches nothing: deciding often does not distort the velocity. */
  lemma LearnTwice(m: Model, e: PeerEntry, key: string, alpha: real)
    requires Sane(m)
    ensures var once := Learn(m, e, key, alpha); Learn(once, e, key, alpha) == once
  {
    var once := Learn(m, e, key, alpha);
    assert Of(m.last, e.id).Keys == Of(m.updated, e.id).Keys;
    var last, speed, times := Of(once.last, e.id), Of(once.velocity, e.id), Of(once.updated, e.id);
    assert key in last && last[key] == e.consumed && key in times && times[key] >= e.lastUpdated;
    Same(last, key, e.consumed);
    assert Observe(last, speed, times, key, e, alpha) == speed && Latest(last, times, key, e) == times;
    Same(once.last, e.id, last);
    Same(once.velocity, e.id, speed);
    Same(once.updated, e.id, times);
  }

  lemma Same<V>(m: map<string, V>, k: string, v: V)
    requires k in m && m[k] == v
    ensures m[k := v] == m
  {
  }

  // ---------------------------------------------------------------- what is learnt, in numbers

  /** Two entries of a peer, the first of whom nothing was known: the velocity is alpha times the
      rate between them, by the entries' own times, and the last count and time are kept. */
  lemma TwoSightings(m: Model, id: string, key: string, alpha: real, s1: nat, c1: nat, t1: real, s2: nat, c2: nat,
      t2: real)
    requires id !in m.last && id !in m.velocity && id !in m.updated && t1 < t2
    ensures var one := Learn(m, PeerEntry(id, s1, c1, t1), key, alpha);
      var two := Learn(one, PeerEntry(id, s2, c2, t2), key, alpha);
      && TimeOf(Of(one.velocity, id), key, 0.0) == 0.0
      && TimeOf(Of(two.velocity, id), key, 0.0) == alpha * Rate(c2, c1, t2 - t1)
      && two.last[id] == map[key := c2] && two.updated[id] == map[key := t2]
  {
    var one := Learn(m, PeerEntry(id, s1, c1, t1), key, alpha);
    assert Of(one.last, id) == map[key := c1] && Of(one.updated, id) == map[key := t1] && Of(one.velocity, id) == map[];
    BlendsRates(alpha, c2, c1, t2 - t1, 0.0);
    Zero(1.0 - alpha);
  }

  /** A third entry: the rate since the second weighs alpha, the velocity before one less; an entry
      that is not newer changes neither velocity nor time. */
  lemma NextSighting(m: Model, e: PeerEntry, key: string, alpha: real)
    requires e.id in m.last && key in m.last[e.id] && e.id in m.updated && key in m.updated[e.id]
    ensures var r := Learn(m, e, key, alpha);
      var before, since := TimeOf(Of(m.velocity, e.id), key, 0.0), m.updated[e.id][key];
      && r.last[e.id][key] == e.consumed
      && (e.lastUpdated > since ==>
            && r.updated[e.id][key] == e.lastUpdated
            && TimeOf(Of(r.velocity, e.id), key, 0.0) ==
                 alpha * Rate(e.consumed, m.last[e.id][key], e.lastUpdated - since) + (1.0 - alpha) * before)
      && (e.lastUpdated <= since ==>
            r.updated[e.id][key] == since && TimeOf(Of(r.velocity, e.id), key, 0.0) == before)
  {
    if e.lastUpdated > m.updated[e.id][key] {
      BlendsRates(alpha, e.consumed, m.last[e.id][key], e.lastUpdated - m.updated[e.id][key],
                  TimeOf(Of(m.velocity, e.id), key, 0.0));
    }
  }

  /** A peer of which the router has learnt nothing but one entry. */
  ghost predicate SeenOnce(m: Model, id: string, key: string, since: real) {
    && id in m.last && id in m.updated && Of(m.velocity, id) == map[]
    && key in m.updated[id] && m.updated[id][key] == since
  }

  ghost predicate Unseen(m: Model, id: string) {
    id !in m.last && id !in m.velocity && id !in m.updated
  }

  /** The entries of a peer that is new to the router, all heard at the same time, teach no velocity. */
  lemma {:induction false} NewcomerStaysSlow(m: Model, top: seq<PeerEntry>, key: string, alpha: real, id: string,
      since: real)
    requires Unseen(m, id) && forall e :: e in top && e.id == id ==> e.lastUpdated == since
    ensures var r := LearnAll(m, top, key, alpha); Unseen(r, id) || SeenOnce(r, id, key, since)
  {
    if top != [] {
      NewcomerStaysSlow(m, top[..|top| - 1], key, alpha, id, since);
    }
  }

  /** Among the peers, one has something unspent that covers the need, and at least one token more
      than any other. */
  ghost predicate Foremost(s: Shard, ids: seq<string>, id: string, key: string, need: nat, now: real) {
    && id in ids && Unspent(s, id, key, now) > 0.0 && Unspent(s, id, key, now) >= need as real
    && (forall j :: j in ids && j != id ==> Unspent(s, j, key, now) + 1.0 <= Unspent(s, id, key, now))
  }

  /** Any ranking of at least one peer names it, and its entry covers the need. */
  lemma ForemostIsRanked(s: Shard, k: nat, key: string, now: real, ids: seq<string>, top: seq<PeerEntry>, id: string,
      need: nat) returns (e: PeerEntry)
    requires k > 0 && TopOf(s, k, key, now, ids, top) && Foremost(s, ids, id, key, need, now)
    ensures e in top && e.id == id && e.surplus >= need
  {
    if |top| > 0 {
      assert top[0] in top;
    }
    e :| e in top && e.id == id;
  }

  class Router {
    const alpha: real
    var lastConsumed: map<string, Counts>
    var velocity: map<string, Times>
    var lastUpdated: map<string, Times>

    ghost function Models(): Model
      reads this
    {
      Model(lastConsumed, velocity, lastUpdated)
    }

    ghost predicate Valid()
      reads this
    {
      0.0 < alpha <= 1.0 && Sane(Models())
    }

    constructor (alpha: real)
      ensures Valid() && Models() == Model(map[], map[], map[])
      ensures this.alpha == if alpha <= 0.0 || alpha > 1.0 then 0.5 else alpha
    {
      this.alpha := if alpha <= 0.0 || alpha > 1.0 then 0.5 else alpha;
      lastConsumed, velocity, lastUpdated := map[], map[], map[];
    }

    /** What the router predicts a peer still has at time now. */
    ghost function Foreseen(e: PeerEntry, key: string, now: real): real
      reads this
    {
      Predicted(e.surplus, TimeOf(Of(velocity, e.id), key, 0.0), now - TimeOf(Of(lastUpdated, e.id), key, ZERO_TIME))
    }

    /** The surplus less what the peer has consumed, by its velocity, since it was last heard. */
    lemma ForeseenMeans(e: PeerEntry, key: string, now: real)
      requires Valid()
      ensures var speed, since := TimeOf(Of(velocity, e.id), key, 0.0), TimeOf(Of(lastUpdated, e.id), key, ZERO_TIME);
        var left := e.surplus as real - speed * Elapsed(since, now);
        Foreseen(e, key, now) == if left > 0.0 then left else 0.0
    {
      StandsStill(e.surplus, TimeOf(Of(velocity, e.id), key, 0.0), now, TimeOf(Of(lastUpdated, e.id), key, ZERO_TIME));
    }

    /** updateModelsLocked for one peer. */
    method UpdateModel(e: PeerEntry, key: string)
      requires Valid()
      modifies this
      ensures Valid() && Models() == Learn(old(Models()), e, key, alpha)
    {
      ghost var next := Learn(Models(), e, key, alpha);
      LearnKeepsSane(Models(), e, key, alpha);
      var last, times, speed := Of(lastConsumed, e.id), Of(lastUpdated, e.id), Of(velocity, e.id);
      ghost var observed := Observe(last, speed, times, key, e, alpha);
      if key in times && key in last && e.lastUpdated > times[key] {
        var progress := Progress(e.consumed, last[key]);
        speed := speed[key := Blend(alpha, progress, e.lastUpdated - times[key], TimeOf(speed, key, 0.0))];
        times := times[key := e.lastUpdated];
      } else if key !in times {
        times := times[key := e.lastUpdated];
      }
      assert speed == observed;
      velocity := velocity[e.id := speed];
      lastUpdated := lastUpdated[e.id := times];
      var counts: Counts := last[key := e.consumed];
      lastConsumed := lastConsumed[e.id := counts];
      assert Models() == next;
    }

    /** updateModelsLocked. */
    method UpdateModels(top: seq<PeerEntry>, key: string)
      requires Valid()
      modifies this
      ensures Valid() && Models() == LearnAll(old(Models()), top, key, alpha)
    {
      for i := 0 to |top|
        invariant Valid() && Models() == LearnAll(old(Models()), top[..i], key, alpha)
      {
        assert top[..i + 1][..i] == top[..i];
        UpdateModel(top[i], key);
      }
      assert top[..|top|] == top;
    }

    /** Decide, given the ranking it asked for: it keeps the router contract, asks peers exactly
        when some ranked peer is foreseen to cover the need, and never without a surplus that does. */
    method Decide(rc: RouteContext, top: seq<PeerEntry>, now: real) returns (d: Decision)
      requires Valid()
      modifies this
      ensures Valid() && Obeys(rc, d)
      ensures Models() == if rc.hasPeers then LearnAll(old(Models()), top, rc.key, alpha) else old(Models())
      ensures d == ToPeer <==> rc.hasPeers && exists e :: e in top && Foreseen(e, rc.key, now) >= rc.need as real
      ensures d == ToPeer ==> exists e :: e in top && e.surplus >= rc.need
      ensures d != ToPeer ==> d == if rc.redisExhausted then Deny else ToRedis
    {
      if !rc.hasPeers || |top| == 0 {
        return if rc.redisExhausted then Deny else ToRedis;
      }
      UpdateModels(top, rc.key);
      var covered := Covered(top, rc.key, rc.need, now);
      if covered {
        return ToPeer;
      }
      d := if rc.redisExhausted then Deny else ToRedis;
    }

    /** Whether some ranked peer is foreseen to cover the need. */
    method Covered(top: seq<PeerEntry>, key: string, need: nat, now: real) returns (yes: bool)
      ensures yes <==> exists e :: e in top && Foreseen(e, key, now) >= need as real
      ensures yes ==> exists e :: e in top && e.surplus >= need
    {
      for i := 0 to |top|
        invariant forall j :: 0 <= j < i ==> Foreseen(top[j], key, now) < need as real
      {
        var e := top[i];
        var speed := TimeOf(Of(velocity, e.id), key, 0.0);
        var since := now - TimeOf(Of(lastUpdated, e.id), key, ZERO_TIME);
        PredictionIsCautious(e.surplus, speed, since);
        if Predicted(e.surplus, speed, since) >= need as real {
          assert Foreseen(e, key, now) >= need as real && e in top;
          return true;
        }
      }
      return false;
    }

    /** Entry e describes what gossip makes of its peer, and what the router makes of that still covers
        the need. */
    ghost predicate Backed(g: Gossiper, e: PeerEntry, rc: RouteContext, now: real, order: seq<string>)
      requires g.Valid()
      reads this, g
    {
      && e.id in order && Describes(g.shards[g.shardOf(rc.key)], e, rc.key, now)
      && Foreseen(e, rc.key, now) >= rc.need as real
      && (rc.need > 0 ==> g.Borrowed(e.id, rc.key) >= g.Consumed(e.id, rc.key) + rc.need)
    }

    /** Decide with a gossiper: it asks for the first two peers by what they have unspent, from five
        known peers on for the first three, learns of them, and asks peers if and only if one of them
        is foreseen to cover the need.  So it does when the foremost peer covers it and is new to the
        router; and whenever it does, that peer was last heard to have borrowed as much more than it
        consumed. */
    method DecideFrom(g: Gossiper, rc: RouteContext, now: real, order: seq<string>)
      returns (d: Decision, ghost top: seq<PeerEntry>)
      requires Valid() && g.Valid()
      requires forall id :: id in order <==> id in g.shards[g.shardOf(rc.key)].borrowed
      modifies this
      ensures Valid() && Obeys(rc, d)
      ensures TopOf(g.shards[g.shardOf(rc.key)], if |g.peers| >= 5 then 3 else 2, rc.key, now, order, top)
      ensures Models() == if rc.hasPeers then LearnAll(old(Models()), top, rc.key, alpha) else old(Models())
      ensures d == ToPeer <==> rc.hasPeers && exists e :: e in top && Foreseen(e, rc.key, now) >= rc.need as real
      ensures d == ToPeer ==> exists e :: Backed(g, e, rc, now, order)
      ensures d != ToPeer ==> d == if rc.redisExhausted then Deny else ToRedis
      ensures rc.hasPeers && (exists id ::
        Unseen(old(Models()), id) && Foremost(g.shards[g.shardOf(rc.key)], order, id, rc.key, rc.need, now)) ==>
          d == ToPeer
    {
      var k := if |g.peers| + 1 > 5 then 3 else 2;
      var ranked := g.TopK(k, rc.key, now, order);
      top := ranked;
      d := Decide(rc, ranked, now);
      if d == ToPeer {
        ghost var e :| e in top && Foreseen(e, rc.key, now) >= rc.need as real;
        ForeseenIsBacked(g, e, rc, now, order);
      }
      ghost var s := g.shards[g.shardOf(rc.key)];
      if id :| rc.hasPeers && Unseen(old(Models()), id) && Foremost(s, order, id, rc.key, rc.need, now) {
        NewcomerIsForeseen(s, k, rc, now, order, top, old(Models()), id);
      }
    }

    /** The foremost peer, new to the router, is foreseen to cover the need. */
    lemma NewcomerIsForeseen(s: Shard, k: nat, rc: RouteContext, now: real, order: seq<string>, top: seq<PeerEntry>,
        before: Model, id: string)
      requires Valid() && k > 0 && TopOf(s, k, rc.key, now, order, top)
      requires Models() == LearnAll(before, top, rc.key, alpha) && Unseen(before, id)
      requires Foremost(s, order, id, rc.key, rc.need, now)
      ensures exists e :: e in top && Foreseen(e, rc.key, now) >= rc.need as real
    {
      var e := ForemostIsRanked(s, k, rc.key, now, order, top, id, rc.need);
      NewcomerStaysSlow(before, top, rc.key, alpha, id, e.lastUpdated);
      ForeseenMeans(e, rc.key, now);
      assert Of(velocity, id) == map[];
      assert Foreseen(e, rc.key, now) >= rc.need as real;
    }

    lemma ForeseenIsBacked(g: Gossiper, e: PeerEntry, rc: RouteContext, now: real, order: seq<string>)
      requires g.Valid() && e.id in order && Foreseen(e, rc.key, now) >= rc.need as real
      requires Describes(g.shards[g.shardOf(rc.key)], e, rc.key, now)
      ensures Backed(g, e, rc, now, order)
    {
      var s := g.shards[g.shardOf(rc.key)];
      PredictionIsCautious(e.surplus, TimeOf(Of(velocity, e.id), rc.key, 0.0),
        now - TimeOf(Of(lastUpdated, e.id), rc.key, ZERO_TIME));
      ForwardAt(s, e.id, rc.key);
      Product(TimeOf(Of(s.velocity, e.id), rc.key, 0.0), Elapsed(TimeOf(Of(s.updated, e.id), rc.key, ZERO_TIME), now));
    }

    method RemovePeer(id: string)
      requires Valid()
      modifies this
      ensures Valid() && Models() == Model(old(lastConsumed) - {id}, old(velocity) - {id}, old(lastUpdated) - {id})
    {
      lastConsumed, velocity, lastUpdated := lastConsumed - {id}, velocity - {id}, lastUpdated - {id};
    }
  }
}
