/** The lease-tracked borrow manager (manager.go). */
module Leases {
  import opened Ranking

  const SHARD_COUNT: nat := 64

  /** What happens to a key: a grant (the expiry of the old balance is judged at one clock reading,
      the lease starts at a second one), a window reset, or an eviction. */
  datatype Event =
    | Grant(key: string, amount: nat, judged: int, at: int)
    | Reset(key: string)
    | Evict(key: string)

  /** The lease balance of a key at time t, looking back: the grants since the last reset or
      eviction, as far back as each was made within a lease of the one after it, and the last one
      within a lease of t. */
  function Balance(history: seq<Event>, key: string, ttl: nat, t: int): nat {
    if history == [] then 0
    else
      var front, e := history[..|history| - 1], history[|history| - 1];
      if e.key != key then Balance(front, key, ttl, t)
      else
        match e
        case Grant(_, amount, judged, at) => if t - at > ttl then 0 else amount + Balance(front, key, ttl, judged)
        case Reset(_) => 0
        case Evict(_) => 0
  }

  datatype KeyState = KeyState(borrowed: nat, lastBorrow: int)

  /** What a stored state is worth at time t. */
  function Worth(s: KeyState, ttl: nat, t: int): nat {
    if s.borrowed > 0 && t - s.lastBorrow > ttl then 0 else s.borrowed
  }

  /** What a shard's map says a key is worth. */
  function Stored(active: map<string, KeyState>, key: string, ttl: nat, t: int): nat {
    if key in active then Worth(active[key], ttl, t) else 0
  }

  /** A shard's map says, for every key of the shard and from now on, what the history says. */
  ghost predicate Reflects(active: map<string, KeyState>, history: seq<Event>, ttl: nat, now: int,
      mine: string -> bool) {
    forall key, t :: mine(key) && t >= now ==> Balance(history, key, ttl, t) == Stored(active, key, ttl, t)
  }

  /** Purging expired keys, at any time, is not observable: a lease that has run out stays out. */
  lemma PurgeUnseen(active: map<string, KeyState>, history: seq<Event>, ttl: nat, now: int, mine: string -> bool,
      gone: set<string>)
    requires Reflects(active, history, ttl, now, mine)
    requires forall k :: k in gone && k in active ==> active[k].borrowed > 0 && now - active[k].lastBorrow > ttl
    ensures Reflects(active - gone, history, ttl, now, mine)
  {
    forall k, t | mine(k) && t >= now
      ensures Balance(history, k, ttl, t) == Stored(active - gone, k, ttl, t)
    {
      assert Balance(history, k, ttl, t) == Stored(active, k, ttl, t);
    }
  }

  lemma LaterReflects(active: map<string, KeyState>, history: seq<Event>, ttl: nat, now: int, later: int,
      mine: string -> bool)
    requires Reflects(active, history, ttl, now, mine) && now <= later
    ensures Reflects(active, history, ttl, later, mine)
  {
  }

  lemma BalanceAppend(history: seq<Event>, e: Event, key: string, ttl: nat, t: int)
    ensures Balance(history + [e], key, ttl, t) ==
      if e.key != key then Balance(history, key, ttl, t)
      else match e
        case Grant(_, amount, judged, at) => if t - at > ttl then 0 else amount + Balance(history, key, ttl, judged)
        case Reset(_) => 0
        case Evict(_) => 0
  {
    assert (history + [e])[..|history|] == history;
  }

  /** The state of a key after a grant. */
  function Granted(active: map<string, KeyState>, key: string, amount: nat, judged: int, at: int, ttl: nat): KeyState {
    KeyState(Stored(active, key, ttl, judged) + amount, at)
  }

  lemma GrantReflects(active: map<string, KeyState>, history: seq<Event>, ttl: nat, now: int, mine: string -> bool,
      key: string, amount: nat, judged: int, at: int)
    requires Reflects(active, history, ttl, now, mine) && mine(key) && now <= judged <= at && amount > 0
    ensures Reflects(active[key := Granted(active, key, amount, judged, at, ttl)],
                     history + [Grant(key, amount, judged, at)], ttl, at, mine)
  {
    var next := active[key := Granted(active, key, amount, judged, at, ttl)];
    var e := Grant(key, amount, judged, at);
    forall k, t | mine(k) && t >= at
      ensures Balance(history + [e], k, ttl, t) == Stored(next, k, ttl, t)
    {
      BalanceAppend(history, e, k, ttl, t);
      assert Balance(history, k, ttl, judged) == Stored(active, k, ttl, judged);
      assert Balance(history, k, ttl, t) == Stored(active, k, ttl, t);
    }
  }

  /** An event of another shard's key. */
  lemma OtherReflects(active: map<string, KeyState>, history: seq<Event>, ttl: nat, now: int, later: int,
      mine: string -> bool, e: Event)
    requires Reflects(active, history, ttl, now, mine) && !mine(e.key) && now <= later
    ensures Reflects(active, history + [e], ttl, later, mine)
  {
    forall k, t | mine(k) && t >= later
      ensures Balance(history + [e], k, ttl, t) == Stored(active, k, ttl, t)
    {
      BalanceAppend(history, e, k, ttl, t);
    }
  }

  /** A reset zeroes what is stored, an eviction deletes it. */
  function Cleared(active: map<string, KeyState>, e: Event): map<string, KeyState> {
    if e.key !in active || e.Grant? then active
    else if e.Reset? then active[e.key := active[e.key].(borrowed := 0)]
    else active - {e.key}
  }

  lemma ClearReflects(active: map<string, KeyState>, history: seq<Event>, ttl: nat, now: int, mine: string -> bool,
      e: Event)
    requires Reflects(active, history, ttl, now, mine) && !e.Grant?
    ensures Reflects(Cleared(active, e), history + [e], ttl, now, mine)
  {
    forall k, t | mine(k) && t >= now
      ensures Balance(history + [e], k, ttl, t) == Stored(Cleared(active, e), k, ttl, t)
    {
      BalanceAppend(history, e, k, ttl, t);
      assert Balance(history, k, ttl, t) == Stored(active, k, ttl, t);
    }
  }

  // ---------------------------------------------------------------- the largest balances

  datatype KeyVal = KeyVal(key: string, val: nat)

  function Val(kv: KeyVal): nat {
    kv.val
  }

  /** No key twice. */
  predicate Distinct(s: seq<KeyVal>) {
    forall i, j :: 0 <= i < j < |s| ==> s[i].key != s[j].key
  }

  function AsMap(s: seq<KeyVal>): map<string, nat> {
    if s == [] then map[] else AsMap(s[..|s| - 1])[s[|s| - 1].key := s[|s| - 1].val]
  }

  predicate Lists(s: seq<KeyVal>, key: string) {
    exists i :: 0 <= i < |s| && s[i].key == key
  }

  lemma {:induction false} AsMapKeys(s: seq<KeyVal>, key: string)
    ensures key in AsMap(s) <==> Lists(s, key)
  {
    if s != [] {
      var n := |s| - 1;
      AsMapKeys(s[..n], key);
      assert s[n].key == key ==> Lists(s, key);
      assert forall i :: 0 <= i < n ==> s[..n][i] == s[i];
    }
  }

  /** A list without repeated keys says what its map says. */
  lemma {:induction false} AsMapAt(s: seq<KeyVal>, i: nat)
    requires Distinct(s) && i < |s|
    ensures s[i].key in AsMap(s) && AsMap(s)[s[i].key] == s[i].val
  {
    var n := |s| - 1;
    if i < n {
      AsMapAt(s[..n], i);
    }
  }

  /** And it is as long as its map is large. */
  lemma {:induction false} AsMapSize(s: seq<KeyVal>)
    requires Distinct(s)
    ensures |AsMap(s)| == |s|
  {
    if s != [] {
      var n := |s| - 1;
      AsMapSize(s[..n]);
      AsMapKeys(s[..n], s[n].key);
      assert AsMap(s).Keys == AsMap(s[..n]).Keys + {s[n].key};
    }
  }

  lemma AsMapAppend(s: seq<KeyVal>, kv: KeyVal)
    requires Distinct(s) && kv.key !in AsMap(s)
    ensures Distinct(s + [kv]) && AsMap(s + [kv]) == AsMap(s)[kv.key := kv.val]
  {
    assert (s + [kv])[..|s|] == s;
    AsMapKeys(s, kv.key);
  }

  lemma Twice(r: seq<KeyVal>, i: nat, j: nat)
    requires i < j < |r| && r[i] == r[j]
    ensures multiset(r)[r[i]] >= 2
  {
    WithoutOne(r, i);
    assert Without(r, i)[j - 1] == r[j];
    assert r[j] in multiset(Without(r, i));
  }

  lemma Once(s: seq<KeyVal>, a: nat)
    requires Distinct(s) && a < |s|
    ensures multiset(s)[s[a]] == 1
  {
    WithoutOne(s, a);
    assert forall c :: 0 <= c < |s| - 1 ==> Without(s, a)[c] == s[if c < a then c else c + 1];
    assert s[a] !in multiset(Without(s, a));
  }

  /** A rearrangement repeats no key either. */
  lemma DistinctShuffled(s: seq<KeyVal>, r: seq<KeyVal>)
    requires Distinct(s) && multiset(r) == multiset(s)
    ensures Distinct(r)
  {
    forall i, j | 0 <= i < j < |r|
      ensures r[i].key != r[j].key
    {
      if r[i].key == r[j].key {
        assert r[i] in multiset(s) && r[j] in multiset(s);
        var a :| 0 <= a < |s| && s[a] == r[i];
        var b :| 0 <= b < |s| && s[b] == r[j];
        assert a == b;
        Twice(r, i, j);
        Once(s, a);
      }
    }
  }

  /** What a truncated listing may leave out: everything, or the limit's worth of entries, none
      smaller than any that is missing. */
  ghost predicate KeepsLargest(out: map<string, nat>, all: map<string, nat>, maxKeys: int) {
    if maxKeys <= 0 || |all| <= maxKeys then out == all
    else
      && |out| == maxKeys
      && (forall k :: k in out ==> k in all && out[k] == all[k])
      && (forall k, d :: k in out && d in all && d !in out ==> all[d] <= out[k])
  }

  /** Whatever a sort does with equal balances, its head keeps the largest. */
  lemma HeadKeepsLargest(found: seq<KeyVal>, sorted: seq<KeyVal>, n: nat)
    requires Distinct(found) && Descending(Val, sorted) && multiset(sorted) == multiset(found)
    requires 0 < n < |found| && n <= |sorted|
    ensures KeepsLargest(AsMap(sorted[..n]), AsMap(found), n)
  {
    DistinctShuffled(found, sorted);
    AsMapSize(sorted[..n]);
    AsMapSize(found);
    var out, all := AsMap(sorted[..n]), AsMap(found);
    forall k | k in out
      ensures k in all && out[k] == all[k]
    {
      var i := KeptAt(found, sorted, n, k);
    }
    forall k, d | k in out && d in all && d !in out
      ensures all[d] <= out[k]
    {
      var i := KeptAt(found, sorted, n, k);
      AsMapKeys(found, d);
      var a :| 0 <= a < |found| && found[a].key == d;
      AsMapAt(found, a);
      assert found[a] in multiset(sorted);
      var j :| 0 <= j < |sorted| && sorted[j] == found[a];
      if j < n {
        AsMapAt(sorted[..n], j);
        assert false;
      }
      assert Val(sorted[i]) >= Val(sorted[j]);
    }
  }

  lemma KeptAt(found: seq<KeyVal>, sorted: seq<KeyVal>, n: nat, k: string) returns (i: nat)
    requires Distinct(found) && Distinct(sorted) && multiset(sorted) == multiset(found) && n <= |sorted|
    requires k in AsMap(sorted[..n])
    ensures i < n && sorted[i].key == k && AsMap(sorted[..n])[k] == sorted[i].val
    ensures k in AsMap(found) && AsMap(found)[k] == sorted[i].val
  {
    AsMapKeys(sorted[..n], k);
    i :| 0 <= i < n && sorted[..n][i].key == k;
    AsMapAt(sorted[..n], i);
    assert sorted[i] in multiset(found);
    var a :| 0 <= a < |found| && found[a] == sorted[i];
    AsMapAt(found, a);
  }

  // ---------------------------------------------------------------- the live balances

  /** The positive balances in a shard's map. */
  function Live(active: map<string, KeyState>, ttl: nat, t: int): map<string, nat> {
    map k | k in active && Worth(active[k], ttl, t) > 0 :: Worth(active[k], ttl, t)
  }

  /** The positive balances in the first n shards. */
  function LiveUpTo(shards: seq<map<string, KeyState>>, n: nat, ttl: nat, t: int): map<string, nat>
    requires n <= |shards|
  {
    if n == 0 then map[] else LiveUpTo(shards, n - 1, ttl, t) + Live(shards[n - 1], ttl, t)
  }

  type Shard = j: nat | j < SHARD_COUNT

  function Mine(shardOf: string -> Shard, j: nat): string -> bool {
    k => shardOf(k) == j
  }

  ghost predicate Placed(active: map<string, KeyState>, shardOf: string -> Shard, j: nat) {
    forall k :: k in active ==> shardOf(k) == j
  }

  lemma {:induction false} LivePrefix(shards: seq<map<string, KeyState>>, other: seq<map<string, KeyState>>, n: nat,
      ttl: nat, t: int)
    requires n <= |shards| == |other| && forall j :: 0 <= j < n ==> Live(shards[j], ttl, t) == Live(other[j], ttl, t)
    ensures LiveUpTo(shards, n, ttl, t) == LiveUpTo(other, n, ttl, t)
  {
    if n > 0 {
      LivePrefix(shards, other, n - 1, ttl, t);
    }
  }

  /** Each key is looked for in its own shard only. */
  lemma {:induction false} LiveAt(shards: seq<map<string, KeyState>>, shardOf: string -> Shard, n: nat, ttl: nat,
      t: int, k: string)
    requires n <= |shards| && forall j :: 0 <= j < |shards| ==> Placed(shards[j], shardOf, j)
    ensures k in LiveUpTo(shards, n, ttl, t) <==> shardOf(k) < n && Stored(shards[shardOf(k)], k, ttl, t) > 0
    ensures k in LiveUpTo(shards, n, ttl, t) ==> LiveUpTo(shards, n, ttl, t)[k] == Stored(shards[shardOf(k)], k, ttl, t)
  {
    if n > 0 {
      LiveAt(shards, shardOf, n - 1, ttl, t, k);
      assert Placed(shards[n - 1], shardOf, n - 1);
    }
  }

  /** The positive balances of a history, exactly. */
  ghost predicate Positive(all: map<string, nat>, history: seq<Event>, ttl: nat, t: int) {
    && (forall k :: k in all <==> Balance(history, k, ttl, t) > 0)
    && (forall k :: k in all ==> all[k] == Balance(history, k, ttl, t))
  }

  // ---------------------------------------------------------------- all shards together

  /** Every shard holds keys of its own and says what the history says about them. */
  ghost predicate ShardFaithful(active: map<string, KeyState>, history: seq<Event>, ttl: nat, now: int,
      shardOf: string -> Shard, j: nat) {
    Placed(active, shardOf, j) && Reflects(active, history, ttl, now, Mine(shardOf, j))
  }

  ghost predicate Faithful(shards: seq<map<string, KeyState>>, history: seq<Event>, ttl: nat, now: int,
      shardOf: string -> Shard) {
    && |shards| == SHARD_COUNT
    && forall j :: 0 <= j < SHARD_COUNT ==> ShardFaithful(shards[j], history, ttl, now, shardOf, j)
  }

  /** An event is written to one shard and leaves the others right. */
  lemma FaithfulEvent(shards: seq<map<string, KeyState>>, history: seq<Event>, ttl: nat, now: int,
      shardOf: string -> Shard,
      e: Event, next: map<string, KeyState>, later: int)
    requires Faithful(shards, history, ttl, now, shardOf) && now <= later
    requires ShardFaithful(next, history + [e], ttl, later, shardOf, shardOf(e.key))
    ensures Faithful(shards[shardOf(e.key) := next], history + [e], ttl, later, shardOf)
  {
    forall j | 0 <= j < SHARD_COUNT && j != shardOf(e.key)
      ensures ShardFaithful(shards[j], history + [e], ttl, later, shardOf, j)
    {
      assert ShardFaithful(shards[j], history, ttl, now, shardOf, j);
      OtherReflects(shards[j], history, ttl, now, later, Mine(shardOf, j), e);
    }
  }

  predicate Expired(s: KeyState, ttl: nat, now: int) {
    s.borrowed > 0 && now - s.lastBorrow > ttl
  }

  /** A purge of one shard. */
  lemma FaithfulPurge(shards: seq<map<string, KeyState>>, history: seq<Event>, ttl: nat, now: int,
      shardOf: string -> Shard,
      at: nat, gone: set<string>, later: int)
    requires Faithful(shards, history, ttl, now, shardOf) && now <= later && at < SHARD_COUNT
    requires forall k :: k in gone && k in shards[at] ==> Expired(shards[at][k], ttl, later)
    ensures Faithful(shards[at := shards[at] - gone], history, ttl, later, shardOf)
  {
    var next := shards[at := shards[at] - gone];
    forall j | 0 <= j < SHARD_COUNT
      ensures ShardFaithful(next[j], history, ttl, later, shardOf, j)
    {
      assert ShardFaithful(shards[j], history, ttl, now, shardOf, j);
      LaterReflects(shards[j], history, ttl, now, later, Mine(shardOf, j));
      if j == at {
        PurgeUnseen(shards[j], history, ttl, later, Mine(shardOf, j), gone);
      }
    }
  }

  lemma FaithfulAt(shards: seq<map<string, KeyState>>, history: seq<Event>, ttl: nat, now: int,
      shardOf: string -> Shard, k: string, t: int)
    requires Faithful(shards, history, ttl, now, shardOf) && now <= t
    ensures Balance(history, k, ttl, t) == Stored(shards[shardOf(k)], k, ttl, t)
  {
    assert ShardFaithful(shards[shardOf(k)], history, ttl, now, shardOf, shardOf(k));
    assert Mine(shardOf, shardOf(k))(k);
  }

  /** The live entries of all shards are exactly the positive balances. */
  lemma LiveIsPositive(shards: seq<map<string, KeyState>>, history: seq<Event>, ttl: nat, now: int,
      shardOf: string -> Shard)
    requires Faithful(shards, history, ttl, now, shardOf)
    ensures Positive(LiveUpTo(shards, SHARD_COUNT, ttl, now), history, ttl, now)
  {
    assert forall j :: 0 <= j < |shards| ==> ShardFaithful(shards[j], history, ttl, now, shardOf, j);
    forall k
      ensures k in LiveUpTo(shards, SHARD_COUNT, ttl, now) <==> Balance(history, k, ttl, now) > 0
      ensures k in LiveUpTo(shards, SHARD_COUNT, ttl, now) ==>
        LiveUpTo(shards, SHARD_COUNT, ttl, now)[k] == Balance(history, k, ttl, now)
    {
      LiveAt(shards, shardOf, SHARD_COUNT, ttl, now, k);
      FaithfulAt(shards, history, ttl, now, shardOf, k, now);
    }
  }

  // ---------------------------------------------------------------- evictions of many keys

  function Evictions(keys: seq<string>): (r: seq<Event>) {
    if keys == [] then [] else Evictions(keys[..|keys| - 1]) + [Evict(keys[|keys| - 1])]
  }

  function Named(keys: seq<string>): set<string> {
    set k | k in keys
  }

  /** Afterwards the keys named are worth nothing, and no other key has changed. */
  lemma {:induction false} EvictionsMean(history: seq<Event>, keys: seq<string>, k: string, ttl: nat, t: int)
    ensures Balance(history + Evictions(keys), k, ttl, t) == if k in keys then 0 else Balance(history, k, ttl, t)
  {
    if keys == [] {
      assert history + Evictions(keys) == history;
    } else {
      var n := |keys| - 1;
      assert keys == keys[..n] + [keys[n]];
      EvictionsMean(history, keys[..n], k, ttl, t);
      assert history + Evictions(keys) == (history + Evictions(keys[..n])) + [Evict(keys[n])];
      BalanceAppend(history + Evictions(keys[..n]), Evict(keys[n]), k, ttl, t);
    }
  }

  lemma EvictionsFaithful(active: map<string, KeyState>, history: seq<Event>, ttl: nat, now: int,
      shardOf: string -> Shard,
      j: nat, keys: seq<string>, next: map<string, KeyState>)
    requires ShardFaithful(active, history, ttl, now, shardOf, j) && next == active - Named(keys)
    ensures ShardFaithful(next, history + Evictions(keys), ttl, now, shardOf, j)
  {
    forall k, t | Mine(shardOf, j)(k) && t >= now
      ensures Balance(history + Evictions(keys), k, ttl, t) == Stored(next, k, ttl, t)
    {
      EvictionsMean(history, keys, k, ttl, t);
    }
  }
}
