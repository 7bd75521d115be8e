/** The lease-tracked borrow manager (manager.go): sharded maps that are purged lazily and agree
    with the history of grants, resets and evictions. */
module BorrowManager {
  import opened Leases
  import opened Ranking
  import Redis
  import Sizer

  /** The largest maxKeys entries of a listing that is too long, and all of one that is not. */
  method Truncate(active: seq<KeyVal>, maxKeys: int) returns (out: map<string, nat>)
    requires Distinct(active)
    ensures KeepsLargest(out, AsMap(active), maxKeys)
  {
    AsMapSize(active);
    var kept := active;
    if maxKeys > 0 && |active| > maxKeys {
      var sorted := Sort(Val, active);
      assert |sorted| == |active|;
      HeadKeepsLargest(active, sorted, maxKeys);
      kept := sorted[..maxKeys];
    }
    out := map[];
    for i := 0 to |kept|
      invariant out == AsMap(kept[..i])
    {
      assert kept[..i + 1][..i] == kept[..i];
      out := out[kept[i].key := kept[i].val];
    }
    assert kept[..|kept|] == kept;
  }

  /** The live keys of a shard, in any order, appended to a listing; the expired ones apart. */
  method ListLive(held: map<string, KeyState>, ttl: nat, t: int, active: seq<KeyVal>)
    returns (listed: seq<KeyVal>, gone: set<string>)
    requires Distinct(active) && AsMap(active).Keys !! held.Keys
    ensures Distinct(listed) && AsMap(listed) == AsMap(active) + Live(held, ttl, t)
    ensures forall k :: k in gone <==> k in held && Expired(held[k], ttl, t)
  {
    listed, gone := active, {};
    var pending := held.Keys;
    while pending != {}
      invariant pending <= held.Keys
      invariant forall k :: k in gone <==> k in held && k !in pending && Expired(held[k], ttl, t)
      invariant Distinct(listed)
      invariant AsMap(listed) == AsMap(active) + Live(held - pending, ttl, t)
    {
      var k :| k in pending;
      var ks := held[k];
      LiveStep(held, pending, k, ttl, t);
      if ks.borrowed > 0 && t - ks.lastBorrow > ttl {
        gone := gone + {k};
      } else if ks.borrowed > 0 {
        var kv := KeyVal(k, ks.borrowed);
        ListStep(active, listed, Live(held - pending, ttl, t), kv);
        listed := listed + [kv];
      }
      pending := pending - {k};
    }
    assert held - pending == held;
  }

  lemma ListStep(active: seq<KeyVal>, listed: seq<KeyVal>, live: map<string, nat>, kv: KeyVal)
    requires Distinct(listed) && AsMap(listed) == AsMap(active) + live
    requires kv.key !in AsMap(active) && kv.key !in live
    ensures Distinct(listed + [kv]) && AsMap(listed + [kv]) == AsMap(active) + live[kv.key := kv.val]
  {
    AsMapAppend(listed, kv);
  }

  lemma PurgeKeepsLive(held: map<string, KeyState>, gone: set<string>, ttl: nat, t: int)
    requires forall k :: k in gone ==> k in held && Expired(held[k], ttl, t)
    ensures Live(held - gone, ttl, t) == Live(held, ttl, t)
  {
  }

  lemma LiveStep(held: map<string, KeyState>, pending: set<string>, k: string, ttl: nat, t: int)
    requires k in pending && k in held
    ensures k !in Live(held - pending, ttl, t)
    ensures Live(held - (pending - {k}), ttl, t) ==
      if Worth(held[k], ttl, t) > 0 then Live(held - pending, ttl, t)[k := Worth(held[k], ttl, t)]
      else Live(held - pending, ttl, t)
  {
  }

  class Manager {
    const ttl: nat
    const shardOf: string -> Shard
    const sizer: Sizer.AdaptiveSizer
    var shards: seq<map<string, KeyState>>
    ghost var history: seq<Event>
    ghost var now: int

    ghost predicate Valid()
      reads this, sizer
    {
      sizer.Valid() && Faithful(shards, history, ttl, now, shardOf)
    }

    constructor (ttl: nat, shardOf: string -> Shard, sizer: Sizer.AdaptiveSizer, now: int)
      requires sizer.Valid()
      ensures Valid() && history == [] && this.now == now
      ensures this.ttl == ttl && this.shardOf == shardOf && this.sizer == sizer
    {
      this.ttl, this.shardOf, this.sizer, this.now := ttl, shardOf, sizer, now;
      history := [];
      shards := seq(SHARD_COUNT, _ => map[]);
    }

    /** One call for tokens, as the leader of its singleflight group. Redis may fail; otherwise the
        grant is handed on and added to the lease, whose age is judged before its new start is
        read off the clock. */
    method Acquire(key: string, need: nat, redis: Redis.Cell, fails: bool, judged: int, at: int)
      returns (granted: nat, ghost requested: nat)
      requires Valid() && now <= judged <= at
      modifies this`shards, this`history, this`now, sizer, redis`pool
      ensures Valid()
      ensures requested == if need > old(sizer.Size()) then need else old(sizer.Size())
      ensures sizer.minBorrow <= sizer.maxBorrow ==>
        need <= requested <= if need > sizer.maxBorrow then need else sizer.maxBorrow
      ensures fails ==> granted == 0
      ensures !fails ==> granted <= requested && (granted < requested ==> redis.pool == 0)
      ensures redis.pool + granted == old(redis.pool)
      ensures granted == 0 ==> history == old(history) && now == old(now) && sizer.history == old(sizer.history)
      ensures granted > 0 ==> history == old(history) + [Grant(key, granted, judged, at)] && now == at
      ensures granted > 0 ==> sizer.history == old(sizer.history) + [granted]
      ensures granted > 0 ==> Balance(history, key, ttl, at) == old(Balance(history, key, ttl, judged)) + granted
      ensures forall k, t :: granted > 0 && k != key ==> Balance(history, k, ttl, t) == Balance(old(history), k, ttl, t)
    {
      var size := sizer.ComputeBorrowSize();
      var borrowSize := if need > size then need else size;
      requested := borrowSize;
      if fails {
        return 0, requested;
      }
      granted := redis.Borrow(borrowSize);
      if granted > 0 {
        NoteGrant(key, granted, judged, at);
        sizer.Record(granted);
      }
    }

    /** The bookkeeping of a grant. */
    method NoteGrant(key: string, granted: nat, judged: int, at: int)
      requires Valid() && now <= judged <= at && granted > 0
      modifies this`shards, this`history, this`now
      ensures Valid()
      ensures history == old(history) + [Grant(key, granted, judged, at)] && now == at
      ensures Balance(history, key, ttl, at) == old(Balance(history, key, ttl, judged)) + granted
      ensures forall k, t :: k != key ==> Balance(history, k, ttl, t) == Balance(old(history), k, ttl, t)
    {
      var j := shardOf(key);
      var active := shards[j];
      var ks := KeyState(0, 0);
      if key in active {
        ks := active[key];
        if ks.borrowed > 0 && judged - ks.lastBorrow > ttl {
          ks := ks.(borrowed := 0);
        }
      }
      ks := KeyState(ks.borrowed + granted, at);
      shards := shards[j := active[key := ks]];
      ghost var e := Grant(key, granted, judged, at);
      assert ks == Granted(active, key, granted, judged, at, ttl);
      assert ShardFaithful(active, history, ttl, now, shardOf, j);
      GrantReflects(active, history, ttl, now, Mine(shardOf, j), key, granted, judged, at);
      FaithfulEvent(old(shards), history, ttl, now, shardOf, e, shards[j], at);
      forall k, t
        ensures k != key ==> Balance(history + [e], k, ttl, t) == Balance(history, k, ttl, t)
      {
        BalanceAppend(history, e, k, ttl, t);
      }
      BalanceAppend(history, e, key, ttl, at);
      history := history + [e];
      now := at;
    }

    /** A caller that shared the leader's grant: only the size statistics move. */
    method Share(granted: nat)
      requires Valid()
      modifies sizer
      ensures Valid() && sizer.history == old(sizer.history) + (if granted == 0 then [] else [granted])
    {
      if granted == 0 {
        return;
      }
      sizer.Record(granted);
    }

    /** The lease balance of a key: what the history says, whatever was purged before. */
    method Borrowed(key: string, t: int) returns (balance: nat)
      requires Valid() && now <= t
      modifies this`shards, this`now
      ensures Valid() && now == t
      ensures balance == Balance(history, key, ttl, t)
    {
      var j := shardOf(key);
      var active := shards[j];
      FaithfulAt(shards, history, ttl, now, shardOf, key, t);
      if key in active {
        var ks := active[key];
        if ks.borrowed > 0 && t - ks.lastBorrow > ttl {
          Purge(j, {key}, t);
          return 0;
        }
        Purge(j, {}, t);
        return ks.borrowed;
      }
      Purge(j, {}, t);
      return 0;
    }

    /** Deletes expired keys of one shard. */
    method Purge(j: nat, gone: set<string>, t: int)
      requires Valid() && now <= t && j < SHARD_COUNT
      requires forall k :: k in gone && k in shards[j] ==> Expired(shards[j][k], ttl, t)
      modifies this`shards, this`now
      ensures Valid() && now == t
      ensures shards == old(shards)[j := old(shards)[j] - gone]
    {
      FaithfulPurge(shards, history, ttl, now, shardOf, j, gone, t);
      shards := shards[j := shards[j] - gone];
      now := t;
    }

    /** One shard of the listing: expired keys are deleted on the way, the live ones are listed. */
    method Sweep(j: nat, t: int, active: seq<KeyVal>) returns (listed: seq<KeyVal>)
      requires Valid() && now <= t && j < SHARD_COUNT
      requires Distinct(active) && forall k :: k in AsMap(active) ==> shardOf(k) < j
      modifies this`shards, this`now
      ensures Valid() && now == t && Distinct(listed)
      ensures Live(shards[j], ttl, t) == Live(old(shards[j]), ttl, t)
      ensures shards == old(shards)[j := shards[j]]
      ensures AsMap(listed) == AsMap(active) + Live(old(shards[j]), ttl, t)
    {
      var held := shards[j];
      assert ShardFaithful(held, history, ttl, now, shardOf, j);
      var gone;
      listed, gone := ListLive(held, ttl, t, active);
      PurgeKeepsLive(held, gone, ttl, t);
      Purge(j, gone, t);
    }

    /** All shards in turn. */
    method Collect(t: int) returns (active: seq<KeyVal>)
      requires Valid() && now <= t
      modifies this`shards, this`now
      ensures Valid() && now == t && Distinct(active)
      ensures AsMap(active) == LiveUpTo(shards, SHARD_COUNT, ttl, t)
    {
      active := [];
      Purge(0, {}, t);
      for i := 0 to SHARD_COUNT
        invariant Valid() && now == t && Distinct(active)
        invariant AsMap(active) == LiveUpTo(shards, i, ttl, t)
        invariant forall k :: k in AsMap(active) ==> shardOf(k) < i
      {
        ghost var before := shards;
        assert ShardFaithful(shards[i], history, ttl, t, shardOf, i);
        active := Sweep(i, t, active);
        LivePrefix(before, shards, i, ttl, t);
      }
    }

    /** The listing for gossip: all positive balances, or the largest maxKeys of them. */
    method AllBorrowed(maxKeys: int, t: int) returns (out: map<string, nat>, ghost all: map<string, nat>)
      requires Valid() && now <= t
      modifies this`shards, this`now
      ensures Valid() && now == t
      ensures Positive(all, history, ttl, t)
      ensures KeepsLargest(out, all, maxKeys)
      // What gossip counts on: nothing listed is zero.
      ensures forall k :: k in out ==> out[k] > 0
    {
      var active := Collect(t);
      all := AsMap(active);
      LiveIsPositive(shards, history, ttl, t, shardOf);
      out := Truncate(active, maxKeys);
    }

    /** The window of a key has turned: its balance is gone, its entry stays. */
    method Reset(key: string)
      requires Valid()
      modifies this`shards, this`history
      ensures Valid() && history == old(history) + [Event.Reset(key)]
      ensures forall t :: Balance(history, key, ttl, t) == 0
    {
      var j := shardOf(key);
      var active := shards[j];
      ghost var e := Event.Reset(key);
      assert ShardFaithful(active, history, ttl, now, shardOf, j);
      ClearReflects(active, history, ttl, now, Mine(shardOf, j), e);
      if key in active {
        shards := shards[j := active[key := active[key].(borrowed := 0)]];
      }
      assert shards == old(shards)[j := Cleared(active, e)];
      FaithfulEvent(old(shards), history, ttl, now, shardOf, e, Cleared(active, e), now);
      history := history + [e];
      forall t
        ensures Balance(history, key, ttl, t) == 0
      {
        BalanceAppend(old(history), e, key, ttl, t);
      }
    }

    /** Keys evicted together are sorted by shard first, and each shard is visited once. */
    method EvictKeys(keys: seq<string>)
      requires Valid()
      modifies this`shards, this`history
      ensures Valid() && history == old(history) + Evictions(keys)
      ensures forall k, t :: Balance(history, k, ttl, t) == if k in keys then 0 else Balance(old(history), k, ttl, t)
    {
      var shardToKeys := Group(shardOf, keys);
      for j := 0 to SHARD_COUNT
        invariant |shards| == SHARD_COUNT && history == old(history)
        invariant forall i :: 0 <= i < j ==> shards[i] == old(shards[i]) - Named(shardToKeys[i])
        invariant forall i :: j <= i < SHARD_COUNT ==> shards[i] == old(shards[i])
      {
        var active := DeleteAll(shards[j], shardToKeys[j]);
        shards := shards[j := active];
      }
      forall j | 0 <= j < SHARD_COUNT
        ensures ShardFaithful(shards[j], history + Evictions(keys), ttl, now, shardOf, j)
      {
        assert ShardFaithful(old(shards[j]), history, ttl, now, shardOf, j);
        assert shards[j] == old(shards[j]) - Named(keys);
        EvictionsFaithful(old(shards[j]), history, ttl, now, shardOf, j, keys, shards[j]);
      }
      history := history + Evictions(keys);
      forall k, t
        ensures Balance(history, k, ttl, t) == if k in keys then 0 else Balance(old(history), k, ttl, t)
      {
        EvictionsMean(old(history), keys, k, ttl, t);
      }
    }
  }

  /** Keys by shard, in order. */
  method Group(shardOf: string -> Shard, keys: seq<string>) returns (groups: seq<seq<string>>)
    ensures |groups| == SHARD_COUNT
    ensures forall j, k :: 0 <= j < SHARD_COUNT ==> (k in groups[j] <==> k in keys && shardOf(k) == j)
  {
    groups := seq(SHARD_COUNT, _ => []);
    for i := 0 to |keys|
      invariant |groups| == SHARD_COUNT
      invariant forall j, k :: 0 <= j < SHARD_COUNT ==> (k in groups[j] <==> k in keys[..i] && shardOf(k) == j)
    {
      var j := shardOf(keys[i]);
      groups := groups[j := groups[j] + [keys[i]]];
    }
    assert keys[..|keys|] == keys;
  }

  method DeleteAll(active: map<string, KeyState>, keys: seq<string>) returns (left: map<string, KeyState>)
    ensures left == active - Named(keys)
  {
    left := active;
    for i := 0 to |keys|
      invariant left == active - Named(keys[..i])
    {
      left := left - {keys[i]};
    }
    assert keys[..|keys|] == keys;
  }
}
