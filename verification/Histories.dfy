/** What holds of one goroutine, or one call, over every schedule: nobody else moves a request, a grant
    is always followed by another tryConsume, and a call has one result for all who wait for it. */
module Histories {
  import opened Options
  import opened Protocol
  import opened Routing
  import opened Goroutines
  import opened Singleflight

  /** A request stands still until its own turn. */
  lemma OthersMove(cfg: Config, w: World, ev: Event, t: nat)
    requires cfg.Valid() && t < |w.threads| && w.threads[t].Request? && Happen(cfg, w, ev).Some?
    requires ev.Turn? ==> ev.t != t
    ensures var v := Happen(cfg, w, ev).value; t < |v.threads| && v.threads[t] == w.threads[t]
  {
    if ev.Turn? {
      AdvanceKeeps(w, ev.t, ThreadEffect(cfg, w, ev.t, ev.input).value, t);
    }
  }

  lemma AdvanceKeeps(w: World, t: nat, e: Effect, q: nat)
    requires t < |w.threads| && q < |w.threads|
    ensures var v := Advance(w, t, e);
      |v.threads| >= |w.threads| && (q != t && w.threads[q].Request? ==> v.threads[q] == w.threads[q])
  {
  }

  /** The acquire that the request has made has brought it something. */
  predicate HasGrant(t: Thread) {
    && t.Request? && !t.l.background
    && (t.pc.AfterRedis? || t.pc.AfterPeer?) && t.pc.out.Granted? && t.pc.out.amount > 0
  }

  /** After the first k events the goroutine tries its bucket again, and that is what event k does: it
      succeeds exactly when the bucket has what the request needs at that moment. */
  ghost predicate TriesAt(cfg: Config, w: World, events: seq<Event>, t: nat, l: Locals, k: nat)
    requires cfg.Valid()
  {
    && k < |events| && events[k].Turn? && events[k].t == t
    && Play(cfg, w, events[..k]).Some? && Play(cfg, w, events[..k + 1]).Some?
    && var u, v := Play(cfg, w, events[..k]).value, Play(cfg, w, events[..k + 1]).value;
    && t < |u.threads| && t < |v.threads| && u.threads[t] == Request(l, TryThird)
    && v.threads[t] ==
         Request(l, if IsBucket(u.mem, l.b) && l.n <= u.mem.buckets[l.b].tokens then Count(false) else Choose)
  }

  /** Up to some point of a schedule: the goroutine still has its grant before it, or is about to try
      its bucket, or has tried it. */
  ghost predicate OnItsWay(cfg: Config, w: World, events: seq<Event>, t: nat)
    requires cfg.Valid() && t < |w.threads| && w.threads[t].Request?
  {
    && Play(cfg, w, events).Some?
    && var v, l := Play(cfg, w, events).value, w.threads[t].l;
    && t < |v.threads|
    && (v.threads[t] == w.threads[t] || v.threads[t] == Request(l, TryThird) ||
        exists k: nat :: TriesAt(cfg, w, events, t, l, k))
  }

  /** What has been tried stays tried. */
  lemma TriedBefore(cfg: Config, w: World, events: seq<Event>, t: nat, l: Locals, k: nat, j: nat)
    requires cfg.Valid() && k <= |events| && TriesAt(cfg, w, events[..k], t, l, j)
    ensures TriesAt(cfg, w, events, t, l, j)
  {
    assert events[..k][..j] == events[..j] && events[..k][..j + 1] == events[..j + 1];
  }

  /** The goroutine's own turn. */
  lemma OwnTurn(cfg: Config, w: World, input: Input, t: nat)
    requires cfg.Valid() && t < |w.threads| && w.threads[t].Request? && ThreadEffect(cfg, w, t, input).Some?
    requires HasGrant(w.threads[t]) || w.threads[t].pc == TryThird
    ensures var v, l := Advance(w, t, ThreadEffect(cfg, w, t, input).value), w.threads[t].l;
      && t < |v.threads|
      && v.threads[t] == Request(l,
           if w.threads[t].pc != TryThird then TryThird
           else if IsBucket(w.mem, l.b) && l.n <= w.mem.buckets[l.b].tokens then Count(false) else Choose)
  {
  }

  lemma {:induction false} GrantOnItsWay(cfg: Config, w: World, events: seq<Event>, t: nat)
    requires cfg.Valid() && t < |w.threads| && HasGrant(w.threads[t]) && Play(cfg, w, events).Some?
    ensures OnItsWay(cfg, w, events, t)
  {
    if events != [] {
      var k, l := |events| - 1, w.threads[t].l;
      GrantOnItsWay(cfg, w, events[..k], t);
      var mid := Play(cfg, w, events[..k]).value;
      ThreadsGrow(cfg, mid, events[k]);
      if j: nat :| TriesAt(cfg, w, events[..k], t, l, j) {
        TriedBefore(cfg, w, events, t, l, k, j);
      } else if events[k].Turn? && events[k].t == t {
        assert events[..k + 1] == events;
        OwnTurn(cfg, mid, events[k].input, t);
        if mid.threads[t] != w.threads[t] {
          assert TriesAt(cfg, w, events, t, l, k);
        }
      } else {
        OthersMove(cfg, mid, events[k], t);
      }
    }
  }

  lemma ThreadsGrow(cfg: Config, w: World, ev: Event)
    requires cfg.Valid() && Happen(cfg, w, ev).Some?
    ensures |Happen(cfg, w, ev).value.threads| >= |w.threads|
  {
    if ev.Turn? {
      AdvanceKeeps(w, ev.t, ThreadEffect(cfg, w, ev.t, ev.input).value, ev.t);
    }
  }

  /** A request that a peer or Redis has granted something ends only after it has tried its bucket
      again, over every schedule. */
  lemma GrantIsTried(cfg: Config, w: World, events: seq<Event>, t: nat)
    requires cfg.Valid() && t < |w.threads| && HasGrant(w.threads[t]) && Play(cfg, w, events).Some?
    requires var v := Play(cfg, w, events).value; t < |v.threads| && Finished(v.threads[t])
    ensures exists k: nat :: TriesAt(cfg, w, events, t, w.threads[t].l, k)
  {
    GrantOnItsWay(cfg, w, events, t);
  }

  // ---------------------------------------------------------------- one result for a call

  /** A settled call keeps its result. */
  lemma ResultKept(cfg: Config, w: World, ev: Event, c: nat)
    requires cfg.Valid() && Led(w) && Happen(cfg, w, ev).Some? && c < |w.calls| && w.calls[c].result.Some?
    ensures var v := Happen(cfg, w, ev).value;
      && Led(v) && c < |v.calls| && v.calls[c].result == w.calls[c].result && v.calls[c].kind == w.calls[c].kind
  {
    HappenKeepsLed(cfg, w, ev);
    if ev.Turn? {
      var e := ThreadEffect(cfg, w, ev.t, ev.input).value;
      MoveOf(cfg, w, ev.t, ev.input);
      assert CallMove(w, w.threads[ev.t], e);
      if e.calls != w.calls && CallStarts(w, w.threads[ev.t], e) {
        assert e.calls[..|w.calls|][c] == w.calls[c];
      } else if Leads(w.threads[ev.t]).Some? {
        assert Unsettled(w.calls, Leads(w.threads[ev.t]).value);
      }
    }
  }

  /** A call stays in the table, and keeps its kind. */
  lemma KindKept(cfg: Config, w: World, ev: Event, c: nat)
    requires cfg.Valid() && Happen(cfg, w, ev).Some? && c < |w.calls|
    ensures var v := Happen(cfg, w, ev).value; c < |v.calls| && v.calls[c].kind == w.calls[c].kind
  {
    if ev.Turn? {
      MoveOf(cfg, w, ev.t, ev.input);
      var e := ThreadEffect(cfg, w, ev.t, ev.input).value;
      if e.calls != w.calls && CallStarts(w, w.threads[ev.t], e) {
        assert e.calls[..|w.calls|][c] == w.calls[c];
      }
    }
  }

  /** Somebody who waits for a call still waits, or has gone on with the call's result. */
  ghost predicate Waited(cfg: Config, w: World, events: seq<Event>, t: nat, c: nat)
    requires cfg.Valid() && t < |w.threads| && w.threads[t].Request?
  {
    && Play(cfg, w, events).Some?
    && var v := Play(cfg, w, events).value;
    && t < |v.threads| && c < |v.calls| && Led(v)
    && (v.threads[t] == w.threads[t] ||
        (v.calls[c].result.Some? && exists k: nat :: HearsAt(cfg, w, events, t, c, v.calls[c], k)))
  }

  /** After the first k events the goroutine goes on with the result of the call. */
  ghost predicate HearsAt(cfg: Config, w: World, events: seq<Event>, t: nat, c: nat, call: Call, k: nat)
    requires cfg.Valid() && t < |w.threads| && w.threads[t].Request?
  {
    && k <= |events| && Play(cfg, w, events[..k]).Some? && call.result.Some?
    && var u := Play(cfg, w, events[..k]).value;
    && t < |u.threads| && u.threads[t] == Request(w.threads[t].l, After(call.kind, call.result.value))
  }

  lemma HeardBefore(cfg: Config, w: World, events: seq<Event>, t: nat, c: nat, call: Call, k: nat, j: nat)
    requires cfg.Valid() && t < |w.threads| && w.threads[t].Request? && k <= |events|
    requires HearsAt(cfg, w, events[..k], t, c, call, j)
    ensures HearsAt(cfg, w, events, t, c, call, j)
  {
    assert events[..k][..j] == events[..j];
  }

  /** The follower's own turn. */
  lemma HearsNow(cfg: Config, w: World, input: Input, t: nat, c: nat)
    requires cfg.Valid() && t < |w.threads| && w.threads[t].Request? && w.threads[t].pc == Await(c)
    requires ThreadEffect(cfg, w, t, input).Some?
    ensures var v := Advance(w, t, ThreadEffect(cfg, w, t, input).value);
      && c < |w.calls| && w.calls[c].result.Some? && v.calls == w.calls && t < |v.threads|
      && v.threads[t] == Request(w.threads[t].l, After(w.calls[c].kind, w.calls[c].result.value))
  {
  }

  lemma {:induction false} WaitedOn(cfg: Config, w: World, events: seq<Event>, t: nat, c: nat)
    requires cfg.Valid() && Led(w) && t < |w.threads| && w.threads[t].Request? && w.threads[t].pc == Await(c)
    requires Play(cfg, w, events).Some?
    ensures Waited(cfg, w, events, t, c)
  {
    if events == [] {
      assert Needs(w.threads[t]) == Some(c);
    } else {
      var k := |events| - 1;
      WaitedOn(cfg, w, events[..k], t, c);
      var mid := Play(cfg, w, events[..k]).value;
      var v := Happen(cfg, mid, events[k]).value;
      assert events[..k + 1] == events;
      ThreadsGrow(cfg, mid, events[k]);
      if mid.threads[t] != w.threads[t] {
        var j: nat :| HearsAt(cfg, w, events[..k], t, c, mid.calls[c], j);
        ResultKept(cfg, mid, events[k], c);
        HeardBefore(cfg, w, events, t, c, v.calls[c], k, j);
      } else if events[k].Turn? && events[k].t == t {
        HearsNow(cfg, mid, events[k].input, t, c);
        HappenKeepsLed(cfg, mid, events[k]);
        assert HearsAt(cfg, w, events, t, c, v.calls[c], k + 1);
      } else {
        HappenKeepsLed(cfg, mid, events[k]);
        KindKept(cfg, mid, events[k], c);
        OthersMove(cfg, mid, events[k], t);
      }
    }
  }

  /** Whoever waited for a call of another goroutine, and waits no longer, has gone on with the result
      that the call has for everybody. */
  lemma FollowersHearTheResult(cfg: Config, pool: nat, windowStart: int, past: seq<Event>, events: seq<Event>, t: nat,
      c: nat)
    requires cfg.Valid() && Play(cfg, Boot(pool, windowStart), past).Some?
    requires var w := Play(cfg, Boot(pool, windowStart), past).value;
      && t < |w.threads| && w.threads[t].Request? && w.threads[t].pc == Await(c) && Play(cfg, w, events).Some?
    ensures var w := Play(cfg, Boot(pool, windowStart), past).value;
      var v := Play(cfg, w, events).value;
      && t < |v.threads| && c < |v.calls|
      && (v.threads[t] != w.threads[t] ==>
            v.calls[c].result.Some? && exists k: nat :: HearsAt(cfg, w, events, t, c, v.calls[c], k))
  {
    PlayKeepsLed(cfg, pool, windowStart, past);
    WaitedOn(cfg, Play(cfg, Boot(pool, windowStart), past).value, events, t, c);
  }
}
