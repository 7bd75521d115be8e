/** The instances that share one key, as objects, with requests that run one at a time.

    Each method is what one goroutine of the limiter does without interruption; the ghost log
    records it as the protocol actions it is made of, so everything proved in Protocol about
    arbitrary schedules holds here too. */
module Fleet {
  import opened Options
  import opened Sums
  import opened Windows
  import opened Words
  import opened Protocol
  import opened Requests
  import opened Buckets
  import opened Redis
  import opened Routing
  import opened Answers

  class Fleet {
    const key: string
    const instances: nat
    const limit: nat
    const window: int
    const reserved: nat
    const redis: Cell
    const slots: seq<Bucket>
    var present: set<nat>
    ghost var clock: int
    ghost var model: State
    ghost var log: seq<Action>
    ghost const pool0: nat
    ghost const start0: int

    /** The model's ledgers, and the run that led to it. */
    ghost predicate Booked()
      reads this`model, this`log
    {
      Exec(Fresh(pool0, start0), log) == Some(model) && model.minted < TWO_63
    }

    function Deploy(): Deployment {
      Deployment(key, limit, window, instances, reserved)
    }

    /** The heap is the model: the shared cell, and one bucket object per instance. */
    ghost predicate Valid()
      reads this, redis, slots
    {
      && window > 0 && |slots| == instances
      && (forall i, j :: 0 <= i < j < |slots| ==> slots[i] != slots[j])
      && redis.pool == model.pool && redis.windowStart == model.windowStart
      && present == model.live.Keys
      && Separate(model)
      && (forall i :: i in present ==> i < instances && slots[i].Matches(BucketOf(model, i)))
      && Booked()
    }

    constructor (key: string, slots: seq<Bucket>, limit: nat, window: int, reserved: nat, pool: nat, windowStart: int)
      requires window > 0 && pool < TWO_63
      requires forall i, j :: 0 <= i < j < |slots| ==> slots[i] != slots[j]
      ensures Valid() && fresh(redis) && this.slots == slots && present == {}
      ensures model == Fresh(pool, windowStart) && log == [] && clock == 0
      ensures instances == |slots| && this.limit == limit && this.window == window && this.reserved == reserved
      ensures windowStart == 0 ==> Bypass(model, window, clock)
      ensures Snug(model, instances, 0) && Potential(model) == pool
      ensures pool == 0 && windowStart == 0 ==>
        forall size :: size > 0 ==> Steady(model, limit, window, clock, instances, size)
    {
      this.key, this.instances, this.slots := key, |slots|, slots;
      this.limit, this.window, this.reserved := limit, window, reserved;
      redis := new Cell(pool, windowStart);
      present := {};
      clock := 0;
      model, log := Fresh(pool, windowStart), [];
      pool0, start0 := pool, windowStart;
      new;
      forall size: nat | pool == 0 && windowStart == 0 && size > 0
        ensures Steady(model, limit, window, clock, instances, size)
      {
        FreshSteady(model, limit, window, clock, instances, size);
      }
    }

    /** One protocol action, performed on the ghost state. */
    ghost method Note(a: Action)
      requires Enabled(model, a) && Booked()
      requires a.RedisReset? ==> model.minted + a.limit < TWO_63
      modifies this`model, this`log
      ensures model == Step(old(model), a) && log == old(log) + [a]
      ensures Booked()
    {
      ExecAppend(Fresh(pool0, start0), log, a);
      log := log + [a];
      model := Step(model, a);
    }

    /** getOrCreateBucket.  The object of a dropped bucket serves as the next one: no request is
        in progress that could still point to it. */
    method Lookup(i: nat, now: int)
      requires Valid() && i < instances
      modifies this`present, this`model, this`log, slots[i]
      ensures Valid() && old(log) <= log && i in present
      ensures model == LookupOutcome(old(model), i)
    {
      if i !in present {
        slots[i].Init(now);
        Note(Create(i));
        present := present + {i};
      }
    }

    /** Local counters cannot wrap. */
    lemma TokensFit(i: nat)
      requires Valid() && i in present
      ensures 0 <= slots[i].tokens <= model.minted < TWO_63
    {
      Conservation(pool0, start0, log);
      SumAtLeast(Held, model.buckets, model.live[i]);
    }

    ghost method NoteConsume(i: nat, n: nat)
      requires Booked() && Known(model, i) && n <= BucketOf(model, i).tokens
      modifies this`model, this`log
      ensures Booked() && old(log) <= log && model == ConsumeOutcome(old(model), i, n)
    {
      ghost var k := model.live[i];
      Note(Admit(k, n));
      Note(Record(k, n));
    }

    /** A refill cannot wrap either: pool and bucket together are within what was minted. */
    lemma RefillFits(i: nat)
      requires Valid() && i in present
      ensures slots[i].tokens + model.pool < TWO_63
    {
      Conservation(pool0, start0, log);
      SumAtLeast(Held, model.buckets, model.live[i]);
    }

    /** tryConsume on the instance's bucket and, if it succeeds, recordConsumption. */
    method Consume(i: nat, n: nat) returns (ok: bool)
      requires Valid() && i in present && n < TWO_63
      modifies this`model, this`log, slots[i]
      ensures Valid() && old(log) <= log
      ensures ok <==> n <= BucketOf(old(model), i).tokens
      ensures model == if ok then ConsumeOutcome(old(model), i, n) else old(model)
      ensures slots[i].lastAccess == old(slots[i].lastAccess)
    {
      TokensFit(i);
      ok := slots[i].TryConsume(n);
      if ok {
        slots[i].consumed := slots[i].consumed + n;
        NoteConsume(i, n);
      }
    }

    /** MarkRedisExhausted. */
    method MarkExhausted(i: nat)
      requires Valid() && i in present
      modifies this`model, this`log, slots[i]
      ensures Valid() && old(log) <= log
      ensures model == FlagOutcome(old(model), i)
      ensures slots[i].lastAccess == old(slots[i].lastAccess)
    {
      slots[i].redisExhausted := true;
      Note(SetExhausted(model.live[i], true));
    }

    ghost method NoteReset(i: nat, now: int, reply: Reply)
      requires Booked() && window > 0 && Known(model, i) && model.minted + limit < TWO_63
      requires reply != LostBefore && BucketOf(model, i).start < Aligned(now, window)
      modifies this`model, this`log
      ensures Booked() && old(log) <= log
      ensures model == ResetOutcome(old(model), i, limit, window, now, reply)
    {
      ghost var k, w := model.live[i], Aligned(now, window);
      Note(RedisReset(limit, w));
      if reply == Answered {
        ResetWrites(model, k, w);
        Note(Drain(k));
        Note(SetExhausted(k, false));
        Note(ClearConsumed(k));
        Note(MoveWindow(k, w));
      }
    }

    /** resetWindow: the reset script and, once it has answered, a fresh start for the bucket. */
    method ResetWindow(i: nat, now: int, reply: Reply)
      requires Valid() && i in present && model.minted + limit < TWO_63
      modifies this`model, this`log, redis, slots[i]
      ensures Valid() && old(log) <= log
      ensures model == ResetOutcome(old(model), i, limit, window, now, reply)
      ensures slots[i].lastAccess == old(slots[i].lastAccess)
    {
      var b := slots[i];
      var newStart := Aligned(now, window);
      if b.windowStart >= newStart || reply == LostBefore {
        return;
      }
      var changed := redis.ResetWindow(limit, newStart);
      if reply == Answered {
        b.Restart(newStart);
      }
      NoteReset(i, now, reply);
    }

    ghost method NoteBorrow(i: nat, requested: nat, reply: Reply)
      requires Booked() && Known(model, i) && reply != LostBefore
      modifies this`model, this`log
      ensures Booked() && old(log) <= log
      ensures model == BorrowOutcome(old(model), i, requested, reply)
    {
      ghost var f := |model.flights|;
      ghost var granted := GrantOf(model, requested);
      if granted > 0 {
        BorrowWrites(model, i, requested);
      }
      Note(Action.Borrow(requested));
      if granted > 0 {
        if reply == LostAfter {
          Note(Lose(f));
        } else {
          Note(SetExhausted(model.live[i], false));
          Note(Refill(model.live[i], f));
        }
      }
    }

    /** The script, and the callback that clears the bypass flag and refills the bucket. */
    method Draw(i: nat, requested: nat, arrives: bool) returns (granted: nat)
      requires Valid() && i in present && requested < TWO_63
      modifies redis`pool, slots[i]
      ensures granted == GrantOf(model, requested) && redis.pool == model.pool - granted
      ensures var b := BucketOf(model, i);
        slots[i].Matches(if arrives && granted > 0 then b.(tokens := b.tokens + granted, exhausted := false) else b)
      ensures slots[i].lastAccess == old(slots[i].lastAccess)
    {
      RefillFits(i);
      granted := redis.Borrow(requested);
      if arrives && granted > 0 {
        slots[i].TakeGrant(granted);
      }
    }

    /** The borrow manager's Acquire.  `answer` is None when the caller sees a Redis error. */
    method Borrow(i: nat, requested: nat, reply: Reply) returns (answer: Option<nat>)
      requires Valid() && i in present && requested < TWO_63
      modifies this`model, this`log, redis, slots[i]
      ensures Valid() && old(log) <= log
      ensures model == BorrowOutcome(old(model), i, requested, reply)
      ensures answer == if reply == Answered then Some(GrantOf(old(model), requested)) else None
      ensures slots[i].lastAccess == old(slots[i].lastAccess)
    {
      BorrowFrame(model, i, requested, reply);
      if reply == LostBefore {
        return None;
      }
      var granted := Draw(i, requested, reply == Answered);
      NoteBorrow(i, requested, reply);
      answer := if reply == Answered then Some(granted) else None;
    }

    ghost method NoteDonate(i: nat, j: nat, amount: nat, reply: Reply)
      requires Booked() && Separate(model) && Known(model, i) && Known(model, j) && i != j
      requires 0 < amount <= BucketOf(model, j).tokens
      modifies this`model, this`log
      ensures Booked() && old(log) <= log
      ensures model == DonateOutcome(old(model), i, j, amount, reply)
    {
      ghost var f := |model.flights|;
      DonateWrites(model, i, j, amount);
      Note(Donate(model.live[j], amount));
      if reply == Answered {
        Note(Refill(model.live[i], f));
      } else {
        Note(Lose(f));
      }
    }

    /** Two buckets together hold no more than was minted. */
    lemma PairFits(i: nat, j: nat)
      requires Valid() && i in present && j in present && i != j
      ensures 0 <= slots[i].tokens && 0 <= slots[j].tokens
      ensures slots[i].tokens + slots[j].tokens < TWO_63
    {
      Conservation(pool0, start0, log);
      var k := model.live[j];
      var emptied := model.buckets[k].(tokens := 0);
      SumUpdate(Held, model.buckets, k, emptied);
      SumAtLeast(Held, model.buckets[k := emptied], model.live[i]);
    }

    /** The donor's tryConsume, and the refill if the reply arrives. */
    method Give(i: nat, j: nat, amount: nat, reply: Reply)
      requires Valid() && i in present && j in present && i != j
      requires 0 < amount <= BucketOf(model, j).tokens
      modifies this`model, this`log, slots[i], slots[j]
      ensures Valid() && old(log) <= log
      ensures model == DonateOutcome(old(model), i, j, amount, reply)
      ensures slots[i].lastAccess == old(slots[i].lastAccess)
    {
      DonateFrame(model, i, j, amount, reply);
      HandOver(i, j, amount, reply == Answered);
      NoteDonate(i, j, amount, reply);
    }

    /** The two buckets' part. */
    method HandOver(i: nat, j: nat, amount: nat, arrives: bool)
      requires Valid() && i in present && j in present && i != j
      requires 0 < amount <= BucketOf(model, j).tokens
      modifies slots[i], slots[j]
      ensures slots[i].lastAccess == old(slots[i].lastAccess)
      ensures var b := BucketOf(model, j); slots[j].Matches(b.(tokens := b.tokens - amount))
      ensures var b := BucketOf(model, i); slots[i].Matches(b.(tokens := b.tokens + if arrives then amount else 0))
    {
      PairFits(i, j);
      var got := Hand(slots[j], slots[i], amount, arrives);
    }

    /** TransferTokens on server j for instance i: j gives as much of the need as it holds above its
        reserve; a lost reply burns it. */
    method Transfer(i: nat, j: nat, need: nat, reply: Reply) returns (got: nat)
      requires Valid() && i in present && j in present && i != j && need > 0
      modifies this`model, this`log, slots[i], slots[j]
      ensures Valid() && old(log) <= log
      ensures model == ProbeOutcome(old(model), i, j, need, reserved, reply)
      ensures got == ProbeAnswer(old(model), j, need, reserved, reply)
      ensures reply != LostBefore ==>
        Donated(BucketOf(old(model), j).tokens, BucketOf(model, j).tokens, need, reserved)
      ensures reply == Answered ==> got == BucketOf(old(model), j).tokens - BucketOf(model, j).tokens
      ensures BucketOf(model, i).tokens == BucketOf(old(model), i).tokens + got
      ensures slots[i].lastAccess == old(slots[i].lastAccess)
    {
      TransferMeans(model, i, j, need, reserved, reply);
      var remaining := slots[j].Remaining();
      if reply == LostBefore || remaining <= reserved {
        return 0;
      }
      var surplus := remaining - reserved;
      var amount := if need > surplus then surplus else need;
      Give(i, j, amount, reply);
      got := if reply == Answered then amount else 0;
    }

    /** One turn of the probing loop: the server looks its bucket up, and gives what it can. */
    method Probe(i: nat, p: Peer, need: nat, now: int) returns (got: nat)
      requires Valid() && i in present && need > 0
      modifies this`model, this`log, this`present, slots
      ensures Valid() && old(log) <= log && i in present
      ensures (model, got) == ProbePeer(old(model), i, p, instances, need, reserved)
      ensures slots[i].lastAccess == old(slots[i].lastAccess)
    {
      if p.id == i || p.id >= instances || !p.reachable || p.reply == LostBefore {
        return 0;
      }
      Lookup(p.id, now);
      got := Transfer(i, p.id, need, p.reply);
    }

    /** probeSequential: ask the ranked peers one by one until one gives something. */
    method ProbeSequential(i: nat, need: nat, peers: seq<Peer>, now: int) returns (got: nat, ghost asked: nat)
      requires Valid() && i in present && need > 0
      modifies this`model, this`log, this`present, slots
      ensures Valid() && old(log) <= log && i in present
      ensures asked <= |peers| && (got == 0 ==> asked == |peers|)
      ensures (model, got) == Probed(old(model), i, peers, asked, instances, need, reserved)
      ensures (model, got) == Probed(old(model), i, peers, |peers|, instances, need, reserved)
      ensures KeepsReserve(old(model), model, i, reserved)
      ensures slots[i].lastAccess == old(slots[i].lastAccess)
    {
      ghost var m := model;
      got, asked := ProbeInTurn(i, need, peers, now);
      if got > 0 {
        ProbedStops(m, i, peers, asked, |peers|, instances, need, reserved);
      }
      ProbingKeepsReserve(m, i, peers, asked, instances, need, reserved);
    }

    method ProbeInTurn(i: nat, need: nat, peers: seq<Peer>, now: int) returns (got: nat, ghost asked: nat)
      requires Valid() && i in present && need > 0
      modifies this`model, this`log, this`present, slots
      ensures Valid() && old(log) <= log && i in present
      ensures asked <= |peers| && (got == 0 ==> asked == |peers|)
      ensures (model, got) == Probed(old(model), i, peers, asked, instances, need, reserved)
      ensures slots[i].lastAccess == old(slots[i].lastAccess)
    {
      ghost var m := model;
      var c := 0;
      got := 0;
      while c < |peers| && got == 0
        invariant Valid() && old(log) <= log && i in present && c <= |peers|
        invariant (model, got) == Probed(m, i, peers, c, instances, need, reserved)
        invariant slots[i].lastAccess == old(slots[i].lastAccess)
      {
        ProbedNext(m, i, peers, c, instances, need, reserved);
        got := Probe(i, peers[c], need, now);
        assert (model, got) == Probed(m, i, peers, c + 1, instances, need, reserved);
        c := c + 1;
      }
      asked := c;
    }

    /** acquireFromPeers: what the whole probing comes to. */
    method AskPeers(i: nat, need: nat, peers: seq<Peer>, now: int) returns (got: nat)
      requires Valid() && i in present && need > 0
      modifies this`model, this`log, this`present, slots
      ensures Valid() && old(log) <= log && i in present
      ensures (model, got) == Probed(old(model), i, peers, |peers|, instances, need, reserved)
      ensures slots[i].lastAccess == old(slots[i].lastAccess)
    {
      ghost var asked;
      got, asked := ProbeSequential(i, need, peers, now);
    }

    /** A Redis turn of the request loop: borrow, then consume or, if nothing came, set the flag. */
    method RedisTurn(i: nat, n: nat, env: Environment, k: nat, ghost exhausted: bool, ghost peerChecked: bool)
      returns (answer: Option<Verdict>, empty: bool)
      requires Valid() && i in present && n < TWO_63 && BucketOf(model, i).tokens < n && SizesFit(env, TWO_63 - 1)
      modifies this`model, this`log, redis, slots[i]
      ensures Valid() && old(log) <= log
      ensures Stage(model, answer, exhausted || empty, peerChecked, k + 1) ==
        RedisPass(env, i, n, Going(old(model), exhausted, peerChecked, k))
      ensures slots[i].lastAccess == old(slots[i].lastAccess)
    {
      answer, empty := None, false;
      ghost var m := model;
      var requested := if n > env.size(k) then n else env.size(k);
      BorrowFrame(m, i, requested, env.borrowReply(k));
      var granted := Borrow(i, requested, env.borrowReply(k));
      assert model == BorrowOutcome(m, i, Larger(n, env.size(k)), env.borrowReply(k));
      if granted.None? {
        return Some(Failed), empty;
      }
      if granted.value > 0 {
        var served := Consume(i, n);
        answer := if served then Some(Allowed) else None;
      } else {
        assert model == m;
        MarkExhausted(i);
        empty := true;
      }
    }

    /** A peer turn of the request loop: probe, then consume if a peer gave something. */
    method PeerTurn(i: nat, n: nat, env: Environment, ghost k: nat, ghost exhausted: bool, ghost peerChecked: bool)
      returns (answer: Option<Verdict>)
      requires Valid() && i in present && BucketOf(model, i).tokens < n < TWO_63
      modifies this`model, this`log, this`present, slots
      ensures Valid() && old(log) <= log && i in present
      ensures Stage(model, answer, exhausted, true, k + 1) ==
        PeerPass(Deploy(), env, i, n, Going(old(model), exhausted, peerChecked, k))
      ensures slots[i].lastAccess == old(slots[i].lastAccess)
    {
      ghost var before := Going(model, exhausted, peerChecked, k);
      answer := None;
      var got := AskPeers(i, n, env.peers, env.now);
      PeerPassIs(Deploy(), env, i, n, before, model, got);
      if got > 0 {
        var served := Consume(i, n);
        answer := if served then Some(Allowed) else None;
      }
    }

    /** Find or create the bucket, and try it. */
    method TryLocal(i: nat, n: nat, now: int) returns (served: bool)
      requires Valid() && i < instances && n < TWO_63
      modifies this`present, this`model, this`log, slots[i]
      ensures Valid() && old(log) <= log && i in present
      ensures var l := LookupOutcome(old(model), i);
        && Known(l, i) && (served <==> n <= BucketOf(l, i).tokens)
        && model == if served then ConsumeOutcome(l, i, n) else l
      ensures slots[i].lastAccess == now
    {
      Lookup(i, now);
      slots[i].lastAccess := now;
      served := Consume(i, n);
    }

    /** Reset the window, and try the bucket again. */
    method TryAfterReset(i: nat, n: nat, now: int, reply: Reply) returns (served: bool)
      requires Valid() && i in present && n < TWO_63 && model.minted + limit < TWO_63
      modifies this`model, this`log, redis, slots[i]
      ensures Valid() && old(log) <= log
      ensures var r := ResetOutcome(old(model), i, limit, window, now, reply);
        && Known(r, i) && (served <==> n <= BucketOf(r, i).tokens)
        && model == if served then ConsumeOutcome(r, i, n) else r
      ensures slots[i].lastAccess == old(slots[i].lastAccess)
    {
      ResetWindow(i, now, reply);
      served := Consume(i, n);
    }

    /** AllowN up to its loop: find the bucket, try it, reset the window if due, try again. */
    method Open(i: nat, n: nat, env: Environment) returns (served: bool)
      requires Valid() && i < instances && n < TWO_63 && model.minted + limit < TWO_63
      modifies this`present, this`model, this`log, redis, slots[i]
      ensures Valid() && old(log) <= log && i in present
      ensures var from := TriedAt(Deploy(), env, i, n, old(model));
        && Known(from, i) && (served <==> n <= BucketOf(from, i).tokens)
        && model == if served then ConsumeOutcome(from, i, n) else from
      ensures slots[i].lastAccess == env.now
    {
      served := TryLocal(i, n, env.now);
      if !served {
        var due := slots[i].NeedsReset(env.now, window);
        if due {
          served := TryAfterReset(i, n, env.now, env.resetReply);
        }
      }
    }

    /** One pass through the request loop: the router's k-th decision, and the turn it asks for. */
    method Pass(i: nat, n: nat, env: Environment, k: nat, exhausted: bool, peerChecked: bool)
      returns (answer: Option<Verdict>, empty: bool, asked: bool)
      requires Valid() && i in present && n < TWO_63 && BucketOf(model, i).tokens < n && SizesFit(env, TWO_63 - 1)
      modifies this`present, this`model, this`log, redis, slots
      ensures Valid() && old(log) <= log && i in present
      ensures Stage(model, answer, exhausted || empty, peerChecked || asked, k + 1) ==
        PassOutcome(Deploy(), env, i, n, Going(old(model), exhausted, peerChecked, k))
      ensures slots[i].lastAccess == old(slots[i].lastAccess)
    {
      answer, empty, asked := None, false, false;
      var decision := env.route(k, RouteContext(key, n, exhausted, !peerChecked));
      match decision {
        case None =>
          answer := Some(Failed);
        case Some(Deny) =>
          answer := Some(Denied);
        case Some(ToRedis) =>
          answer, empty := RedisTurn(i, n, env, k, exhausted, peerChecked);
        case Some(ToPeer) =>
          asked := true;
          answer := PeerTurn(i, n, env, k, exhausted, peerChecked);
      }
    }

    /** One more pass of a loop that has made k decisions since it started in `start`. */
    method NextPass(i: nat, n: nat, env: Environment, k: nat, exhausted: bool, peerChecked: bool, ghost start: State)
      returns (answer: Option<Verdict>, empty: bool, asked: bool)
      requires Valid() && i in present && n < TWO_63 && RouterObeys(env) && SizesFit(env, TWO_63 - 1)
      requires Separate(start) && Known(start, i) && BucketOf(start, i).tokens < n
      requires LoopFrom(Deploy(), env, i, n, start, k) == Going(model, exhausted, peerChecked, k)
      modifies this`present, this`model, this`log, redis, slots
      ensures Valid() && old(log) <= log && i in present && k <= 3
      ensures Stage(model, answer, exhausted || empty, peerChecked || asked, k + 1) ==
        LoopFrom(Deploy(), env, i, n, start, k + 1)
      ensures slots[i].lastAccess == old(slots[i].lastAccess)
    {
      Unanswered(Deploy(), env, i, n, start, k);
      answer, empty, asked := Pass(i, n, env, k, exhausted, peerChecked);
    }

    /** The request loop: one pass after the other, until there is an answer. */
    method Serve(i: nat, n: nat, env: Environment) returns (v: Verdict, decisions: nat)
      requires Valid() && i in present && n < TWO_63 && BucketOf(model, i).tokens < n
      requires RouterObeys(env) && SizesFit(env, TWO_63 - 1)
      modifies this`present, this`model, this`log, redis, slots
      ensures Valid() && old(log) <= log && i in present
      ensures 1 <= decisions <= 4
      ensures Over(model, v, decisions) == LoopFrom(Deploy(), env, i, n, old(model), 4)
      ensures slots[i].lastAccess == old(slots[i].lastAccess)
    {
      ghost var d, m := Deploy(), model;
      var answer: Option<Verdict> := None;
      var exhausted, peerChecked := slots[i].redisExhausted, false;
      decisions := 0;
      while answer.None?
        invariant Valid() && old(log) <= log && i in present && decisions <= 4
        invariant answer.Some? ==> decisions >= 1
        invariant LoopFrom(d, env, i, n, m, decisions) == Stage(model, answer, exhausted, peerChecked, decisions)
        invariant slots[i].lastAccess == old(slots[i].lastAccess)
        decreases 4 - decisions, answer.None?
      {
        var empty, asked;
        answer, empty, asked := NextPass(i, n, env, decisions, exhausted, peerChecked, m);
        decisions, exhausted, peerChecked := decisions + 1, exhausted || empty, peerChecked || asked;
      }
      LoopStays(d, env, i, n, m, decisions);
      v := answer.value;
    }

    /** AllowN, but for the clock: exactly the request as a value. */
    method Handle(i: nat, n: nat, env: Environment) returns (v: Verdict, decisions: nat)
      requires Valid() && i < instances && n < TWO_63 && model.minted + limit < TWO_63
      requires RouterObeys(env) && SizesFit(env, TWO_63 - 1)
      modifies this`present, this`model, this`log, redis, slots
      ensures Valid() && old(log) <= log && i in present
      ensures Over(model, v, decisions) == AllowOutcome(Deploy(), env, i, n, old(model))
      ensures slots[i].lastAccess == env.now
    {
      ghost var m := model;
      var served := Open(i, n, env);
      if served {
        v, decisions := Allowed, 0;
      } else {
        v, decisions := Serve(i, n, env);
      }
    }

    /** AllowN, uninterrupted. */
    method AllowN(i: nat, n: nat, env: Environment, ghost cap: nat) returns (v: Verdict, decisions: nat)
      requires Valid() && i < instances && n < TWO_63 && model.minted + limit < TWO_63
      requires clock <= env.now && RouterObeys(env) && SizesFit(env, TWO_63 - 1)
      modifies this`present, this`model, this`log, this`clock, redis, slots
      ensures Valid() && clock == env.now && old(log) <= log && i in present
      // It is the request as a value, and the access is noted.
      ensures Over(model, v, decisions) == AllowOutcome(Deploy(), env, i, n, old(model))
      ensures slots[i].lastAccess == env.now
      // What was admitted is what was asked, or nothing.
      ensures model.admitted == old(model).admitted + if v == Allowed then n else 0
      ensures old(model).minted <= model.minted <= old(model).minted + limit
      // The loop ends after at most four decisions, and fails only on errors.
      ensures decisions <= 4
      ensures NoErrors(env) ==> v != Failed
      // The bypass flag keeps its meaning, and is set after a denial.
      ensures old(Bypass(model, window, clock)) ==> Bypass(model, window, clock)
      ensures v == Denied ==> BucketOf(model, i).exhausted
      // A denial means an empty pool and too few local tokens, unless a lost reset left a stale flag.
      ensures v == Denied ==> BucketOf(model, i).tokens < n
      ensures v == Denied && old(Bypass(model, window, clock)) ==>
        model.pool == 0 || (Due(StartOf(old(model), i), window, env.now) && env.resetReply != Answered)
      // A request that its bucket covers is allowed at once; one that bucket and pool cover together,
      // once the window has been turned if it is due, is allowed unless something is lost on the way.
      ensures n <= BucketOfOr(old(model), i) ==> v == Allowed && decisions == 0
      ensures NoErrors(env) && env.resetReply == Answered && old(Bypass(model, window, clock)) ==>
        n <= Prospect(old(model), i, limit, window, env.now) ==> v == Allowed
      // If nothing is lost and the router asks peers before it gives up, it is allowed exactly if its
      // bucket, or the pool and the first peer with anything above its reserve as well, cover it.
      ensures NothingLost(env) && AsksPeers(env) && old(Bypass(model, window, clock)) ==>
        (v == Allowed <==>
          n <= BucketOfOr(old(model), i) ||
          n <= Prospect(old(model), i, limit, window, env.now) + GiftOfAll(Deploy(), env, i, n, old(model)))
      // No other instance gives its reserve away.
      ensures KeepsReserve(old(model), model, i, reserved)
      // Small requests keep buckets small, and a window leaks at most what the others hold.
      ensures old(Snug(model, instances, cap)) && n <= cap + 1 && SizesFit(env, cap + 1) ==>
        && Snug(model, instances, cap)
        && (Potential(model) <= old(Potential(model)) ||
            Potential(model) <= LeakCap(limit, instances, cap, env.resetReply))
    {
      AllowSummary(Deploy(), env, i, n, model, clock, cap);
      clock := env.now;
      v, decisions := Handle(i, n, env);
    }

    /** After a local hit: if few enough tokens are left and nobody is borrowing ahead already, the
        bucket is marked, which starts a background borrow and keeps the janitor away. */
    method StartPreBorrow(i: nat, minBorrow: nat, threshold: real) returns (started: bool)
      requires Valid() && i in present && threshold >= 0.0
      modifies slots[i]
      ensures Valid() && slots[i].lastAccess == old(slots[i].lastAccess)
      ensures slots[i].preBorrowing == (old(slots[i].preBorrowing) || started)
      ensures started <==>
        BucketOf(model, i).tokens < Trigger(minBorrow, threshold) && !old(slots[i].preBorrowing)
    {
      started := slots[i].BelowPreBorrowThreshold(minBorrow, threshold);
      if started {
        started := slots[i].TryMarkPreBorrowing();
      }
    }

    /** The background borrow of a marked bucket: it has no need of its own, an empty answer sets no
        flag, and the mark goes. */
    method PreBorrow(i: nat, size: nat, now: int, reply: Reply)
      requires Valid() && i in present && size < TWO_63 && clock <= now
      modifies this`model, this`log, this`clock, redis, slots[i]
      ensures Valid() && clock == now && old(log) <= log && !slots[i].preBorrowing
      ensures model == BorrowOutcome(old(model), i, size, reply)
      ensures model.admitted == old(model).admitted && model.minted == old(model).minted
      ensures old(Bypass(model, window, clock)) ==> Bypass(model, window, clock)
      ensures Potential(model) <= old(Potential(model))
    {
      AheadFair(model, i, size, reply, window, clock, now);
      clock := now;
      var answer := Borrow(i, size, reply);
      Unmark(i);
    }

    method Unmark(i: nat)
      requires Valid() && i in present
      modifies slots[i]
      ensures Valid() && !slots[i].preBorrowing
    {
      slots[i].ClearPreBorrowing();
    }

    ghost method NoteEvict(i: nat)
      requires Booked() && Separate(model) && i in model.live
      modifies this`model, this`log
      ensures Booked() && old(log) <= log && model == EvictOutcome(old(model), i)
    {
      EvictWrites(model, i);
      ghost var k := model.live[i];
      Note(Evict(i));
      Note(Collect(k));
    }

    /** The janitor's decision about one bucket. */
    method EvictIdle(i: nat, now: int, idleTimeoutMs: int, ghost cap: nat) returns (evicted: bool)
      requires Valid() && i < instances
      modifies this`present, this`model, this`log
      ensures Valid() && old(log) <= log
      ensures evicted <==>
        i in old(present) && now > slots[i].lastAccess + idleTimeoutMs && !slots[i].preBorrowing
      ensures present == if evicted then old(present) - {i} else old(present)
      ensures model.admitted == old(model).admitted && model.minted == old(model).minted
      ensures old(Bypass(model, window, clock)) ==> Bypass(model, window, clock)
      ensures Potential(model) <= old(Potential(model))
      ensures old(Snug(model, instances, cap)) ==> Snug(model, instances, cap)
    {
      evicted := false;
      if i in present {
        var idle := slots[i].Idle(now, idleTimeoutMs);
        if idle && !slots[i].preBorrowing {
          EvictFair(model, i, window, clock, instances, cap);
          NoteEvict(i);
          present := present - {i};
          evicted := true;
        }
      }
    }
  }

  /** A request, the janitor's visit to one bucket, and the two ends of a background borrow. */
  datatype Job =
    | Ask(inst: nat, n: nat, env: Environment)
    | Visit(inst: nat, now: int, idleTimeoutMs: int)
    | Prefetch(inst: nat, minBorrow: nat, threshold: real)
    | Fetched(inst: nat, size: nat, now: int, reply: Reply)

  /** A job for an instance of the fleet, with sizes up to a bound and a router that obeys. */
  ghost predicate Proper(job: Job, instances: nat, bound: nat) {
    job.inst < instances &&
    match job
    case Ask(_, n, env) => n <= bound && SizesFit(env, bound) && RouterObeys(env)
    case Visit(_, _, _) => true
    case Prefetch(_, _, threshold) => threshold >= 0.0
    case Fetched(_, size, _, _) => size <= bound
  }

  /** When a job happens; the janitor's own clock decides nothing that is shared. */
  function TimeOf(job: Job): Option<int> {
    match job
    case Ask(_, _, env) => Some(env.now)
    case Fetched(_, _, now, _) => Some(now)
    case _ => None
  }

  predicate NotBefore(job: Job, clock: int) {
    TimeOf(job).Some? ==> clock <= TimeOf(job).value
  }

  /** The jobs come in the order of one shared clock. */
  predicate InOrder(jobs: seq<Job>) {
    forall j, k :: 0 <= j < k < |jobs| && TimeOf(jobs[j]).Some? ==> NotBefore(jobs[k], TimeOf(jobs[j]).value)
  }

  /** Proper jobs, in order, none before the clock. */
  ghost predicate Scheduled(jobs: seq<Job>, instances: nat, bound: nat, clock: int) {
    InOrder(jobs) &&
    forall j :: 0 <= j < |jobs| ==> Proper(jobs[j], instances, bound) && NotBefore(jobs[j], clock)
  }

  predicate Foreground(job: Job) {
    job.Ask? || job.Visit?
  }

  predicate AllForeground(jobs: seq<Job>) {
    forall j :: 0 <= j < |jobs| ==> Foreground(jobs[j])
  }

  /** A request of at most the size keeps the fleet steady. */
  method AskSteady(fleet: Fleet, i: nat, n: nat, env: Environment, size: nat) returns (cost: nat)
    requires fleet.Valid() && 0 < size < TWO_63 && fleet.model.minted + fleet.limit < TWO_63
    requires i < fleet.instances && n <= size && SizesFit(env, size) && RouterObeys(env) && fleet.clock <= env.now
    requires Steady(fleet.model, fleet.limit, fleet.window, fleet.clock, fleet.instances, size)
    modifies fleet, fleet.redis, fleet.slots
    ensures fleet.Valid() && fleet.model.admitted == old(fleet.model).admitted + cost
    ensures fleet.model.minted <= old(fleet.model).minted + fleet.limit && fleet.clock == env.now
    ensures Steady(fleet.model, fleet.limit, fleet.window, fleet.clock, fleet.instances, size)
  {
    LeakCapMonotone(fleet.limit, fleet.instances, size - 1, env.resetReply);
    ghost var cap: nat := size - 1;
    assert cap + 1 == size && SizesFit(env, cap + 1) && Snug(fleet.model, fleet.instances, cap);
    var v, decisions := fleet.AllowN(i, n, env, cap);
    cost := if v == Allowed then n else 0;
  }

  /** One foreground job keeps the fleet steady. */
  method DoJob(fleet: Fleet, job: Job, size: nat) returns (cost: nat)
    requires fleet.Valid() && 0 < size < TWO_63 && fleet.model.minted + fleet.limit < TWO_63
    requires Foreground(job) && Proper(job, fleet.instances, size) && NotBefore(job, fleet.clock)
    requires Steady(fleet.model, fleet.limit, fleet.window, fleet.clock, fleet.instances, size)
    modifies fleet, fleet.redis, fleet.slots
    ensures fleet.Valid() && fleet.model.admitted == old(fleet.model).admitted + cost
    ensures fleet.model.minted <= old(fleet.model).minted + fleet.limit
    ensures fleet.clock == if job.Ask? then job.env.now else old(fleet.clock)
    ensures Steady(fleet.model, fleet.limit, fleet.window, fleet.clock, fleet.instances, size)
  {
    cost := 0;
    if job.Ask? {
      cost := AskSteady(fleet, job.inst, job.n, job.env, size);
    } else {
      var evicted := fleet.EvictIdle(job.inst, job.now, job.idleTimeoutMs, size - 1);
    }
  }

  /** What is left of a schedule after its first job. */
  lemma ScheduledRest(jobs: seq<Job>, instances: nat, bound: nat, clock: int, now: int)
    requires jobs != [] && Scheduled(jobs, instances, bound, clock)
    requires now == clock || TimeOf(jobs[0]) == Some(now)
    ensures Proper(jobs[0], instances, bound) && NotBefore(jobs[0], clock)
    ensures Scheduled(jobs[1..], instances, bound, now)
  {
    var rest := jobs[1..];
    forall j | 0 <= j < |rest|
      ensures Proper(rest[j], instances, bound) && NotBefore(rest[j], now)
    {
      assert rest[j] == jobs[j + 1];
    }
    assert InOrder(rest);
  }

  /** Foreground jobs, one after the other, keep the fleet steady. */
  method DoJobs(fleet: Fleet, jobs: seq<Job>, size: nat) returns (cost: nat)
    requires fleet.Valid() && 0 < size < TWO_63
    requires Steady(fleet.model, fleet.limit, fleet.window, fleet.clock, fleet.instances, size)
    requires fleet.model.minted + Refills(|jobs|, fleet.limit) < TWO_63
    requires Scheduled(jobs, fleet.instances, size, fleet.clock) && AllForeground(jobs)
    modifies fleet, fleet.redis, fleet.slots
    ensures fleet.Valid() && fleet.model.admitted == old(fleet.model).admitted + cost
    ensures Steady(fleet.model, fleet.limit, fleet.window, fleet.clock, fleet.instances, size)
    decreases |jobs|
  {
    cost := 0;
    if jobs != [] {
      ghost var before := fleet.clock;
      var first := DoJob(fleet, jobs[0], size);
      ScheduledRest(jobs, fleet.instances, size, before, fleet.clock);
      var rest := DoJobs(fleet, jobs[1..], size);
      cost := first + rest;
    }
  }

  /** Any workload of uninterrupted requests of cost at most size, with borrow sizes at most
      size, from any steady state, such as a fresh key: what has been admitted since the last reset
      never exceeds the limit plus size - 1 tokens per instance, and the bypass flag is sound
      throughout. */
  method Workload(fleet: Fleet, jobs: seq<Job>, size: nat) returns (cost: nat)
    requires fleet.Valid() && 0 < size < TWO_63
    requires Steady(fleet.model, fleet.limit, fleet.window, fleet.clock, fleet.instances, size)
    requires fleet.model.minted + Refills(|jobs|, fleet.limit) < TWO_63
    requires Scheduled(jobs, fleet.instances, size, fleet.clock) && AllForeground(jobs)
    modifies fleet, fleet.redis, fleet.slots
    ensures fleet.Valid() && fleet.model.admitted == old(fleet.model).admitted + cost
    ensures Steady(fleet.model, fleet.limit, fleet.window, fleet.clock, fleet.instances, size)
    ensures fleet.model.sinceReset <= fleet.limit + fleet.instances * (size - 1)
  {
    cost := DoJobs(fleet, jobs, size);
    SteadyLeak(fleet.model, fleet.limit, fleet.window, fleet.clock, fleet.instances, size);
  }

  /** What n resets can mint. */
  function Refills(n: nat, limit: nat): nat {
    if n == 0 then 0 else Refills(n - 1, limit) + limit
  }

  /** A denial says that the pool is empty, unless a reset that was due did not come through. */
  ghost predicate Honest(job: Job, verdict: Option<Verdict>, pool: nat) {
    job.Ask? && verdict == Some(Denied) && job.env.resetReply == Answered ==> pool == 0
  }

  /** Any job, background borrows included, keeps the flag sound. */
  method DoAnyJob(fleet: Fleet, job: Job) returns (verdict: Option<Verdict>)
    requires fleet.Valid() && fleet.model.minted + fleet.limit < TWO_63
    requires Proper(job, fleet.instances, TWO_63 - 1) && NotBefore(job, fleet.clock)
    requires Bypass(fleet.model, fleet.window, fleet.clock)
    modifies fleet, fleet.redis, fleet.slots
    ensures fleet.Valid() && fleet.model.minted <= old(fleet.model).minted + fleet.limit
    ensures fleet.clock == old(fleet.clock) || TimeOf(job) == Some(fleet.clock)
    ensures Bypass(fleet.model, fleet.window, fleet.clock)
    ensures Honest(job, verdict, fleet.model.pool)
  {
    verdict := None;
    match job {
      case Ask(i, n, env) =>
        var v, decisions := fleet.AllowN(i, n, env, 0);
        verdict := Some(v);
      case Visit(i, now, idleTimeoutMs) =>
        var evicted := fleet.EvictIdle(i, now, idleTimeoutMs, 0);
      case Prefetch(i, minBorrow, threshold) =>
        if i in fleet.present {
          var started := fleet.StartPreBorrow(i, minBorrow, threshold);
        }
      case Fetched(i, size, now, reply) =>
        if i in fleet.present && fleet.slots[i].preBorrowing {
          fleet.PreBorrow(i, size, now, reply);
        }
    }
  }

  /** Any run of jobs from a state with a sound flag, such as a fresh key, of any size and with
      background borrows anywhere between them: the flag is sound throughout, and no request is
      denied while the pool has tokens, unless a reset that was due did not come through. */
  method AnyRun(fleet: Fleet, jobs: seq<Job>) returns (verdicts: seq<Option<Verdict>>, ghost pools: seq<nat>)
    requires fleet.Valid() && Bypass(fleet.model, fleet.window, fleet.clock)
    requires Scheduled(jobs, fleet.instances, TWO_63 - 1, fleet.clock)
    requires fleet.model.minted + Refills(|jobs|, fleet.limit) < TWO_63
    modifies fleet, fleet.redis, fleet.slots
    ensures fleet.Valid() && Bypass(fleet.model, fleet.window, fleet.clock)
    ensures |verdicts| == |pools| == |jobs|
    ensures forall j :: 0 <= j < |jobs| ==> Honest(jobs[j], verdicts[j], pools[j])
  {
    verdicts, pools := [], [];
    for j := 0 to |jobs|
      invariant fleet.Valid() && fleet.model.minted + Refills(|jobs| - j, fleet.limit) < TWO_63
      invariant Bypass(fleet.model, fleet.window, fleet.clock)
      invariant forall k :: j <= k < |jobs| ==> NotBefore(jobs[k], fleet.clock)
      invariant |verdicts| == |pools| == j
      invariant forall k :: 0 <= k < j ==> Honest(jobs[k], verdicts[k], pools[k])
    {
      var verdict := DoAnyJob(fleet, jobs[j]);
      verdicts, pools := verdicts + [verdict], pools + [fleet.model.pool];
    }
  }
}
