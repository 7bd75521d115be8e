/** The lease balance read off the history grant by grant, without looking back event by event. */
module LeaseReading {
  import opened Leases

  predicate IsGrant(history: seq<Event>, i: nat, key: string) {
    i < |history| && history[i].Grant? && history[i].key == key
  }

  /** Nothing happened to the key between events j and l. */
  predicate Consecutive(history: seq<Event>, j: nat, l: nat, key: string) {
    j < l <= |history| && forall x :: j < x < l ==> history[x].key != key
  }

  /** Grant j was still running when the next grant l of the key was judged. */
  predicate Bridged(history: seq<Event>, j: nat, l: nat, key: string, ttl: nat) {
    IsGrant(history, j, key) && IsGrant(history, l, key) && Consecutive(history, j, l, key) ==>
      history[l].judged - history[j].at <= ttl
  }

  /** If grant j is the key's last event, it is still running at time t. */
  predicate Running(history: seq<Event>, j: nat, key: string, ttl: nat, t: int) {
    IsGrant(history, j, key) && Consecutive(history, j, |history|, key) ==> t - history[j].at <= ttl
  }

  /** No reset and no eviction of the key since event i. */
  predicate Uncleared(history: seq<Event>, i: nat, key: string) {
    forall j :: i < j < |history| && history[j].key == key ==> history[j].Grant?
  }

  /** Grant i is part of the balance at time t: the key was neither reset nor evicted since, and
      no lease of it ran out since. */
  ghost predicate Counts(history: seq<Event>, i: nat, key: string, ttl: nat, t: int) {
    && IsGrant(history, i, key)
    && Uncleared(history, i, key)
    && (forall j: nat :: i <= j ==> Running(history, j, key, ttl, t))
    && (forall j: nat, l: nat :: i <= j < l ==> Bridged(history, j, l, key, ttl))
  }

  /** The grants among the first n events that are part of the balance. */
  ghost function Sum(history: seq<Event>, key: string, ttl: nat, t: int, n: nat): nat
    requires n <= |history|
  {
    if n == 0 then 0
    else Sum(history, key, ttl, t, n - 1) + if Counts(history, n - 1, key, ttl, t) then history[n - 1].amount else 0
  }

  lemma OtherKey(history: seq<Event>, e: Event, i: nat, key: string, ttl: nat, t: int)
    requires i < |history| && e.key != key
    ensures Counts(history + [e], i, key, ttl, t) <==> Counts(history, i, key, ttl, t)
  {
    var longer := history + [e];
    assert Uncleared(longer, i, key) <==> Uncleared(history, i, key) by {
      assert forall j :: i < j < |history| ==> longer[j] == history[j];
      assert longer[|history|] == e;
    }
    forall j: nat | i <= j
      ensures Running(longer, j, key, ttl, t) <==> Running(history, j, key, ttl, t)
    {
      if IsGrant(history, j, key) {
        assert Consecutive(longer, j, |longer|, key) <==> Consecutive(history, j, |history|, key) by {
          if Consecutive(history, j, |history|, key) {
            assert forall x :: j < x < |longer| ==> longer[x].key != key;
          }
          if Consecutive(longer, j, |longer|, key) {
            assert forall x :: j < x < |history| ==> longer[x].key == history[x].key;
          }
        }
      }
    }
    forall j: nat, l: nat | i <= j < l
      ensures Bridged(longer, j, l, key, ttl) <==> Bridged(history, j, l, key, ttl)
    {
      SameBetween(history, e, j, l, key);
    }
  }

  lemma SameBetween(history: seq<Event>, e: Event, j: nat, l: nat, key: string)
    requires j < l
    ensures l < |history| ==> (Consecutive(history + [e], j, l, key) <==> Consecutive(history, j, l, key))
  {
    if l < |history| {
      assert forall x :: j < x < l ==> (history + [e])[x] == history[x];
    }
  }

  lemma SameGrant(history: seq<Event>, e: Event, i: nat, key: string, ttl: nat, t: int)
    requires i < |history| && e.key == key && e.Grant?
    ensures Counts(history + [e], i, key, ttl, t) <==> t - e.at <= ttl && Counts(history, i, key, ttl, e.judged)
  {
    var longer, n := history + [e], |history|;
    if Counts(longer, i, key, ttl, t) {
      assert Running(longer, n, key, ttl, t) && IsGrant(longer, n, key) && Consecutive(longer, n, |longer|, key);
      GrantBack(history, e, i, key, ttl, t);
    }
    if t - e.at <= ttl && Counts(history, i, key, ttl, e.judged) {
      GrantOn(history, e, i, key, ttl, t);
    }
  }

  lemma GrantBack(history: seq<Event>, e: Event, i: nat, key: string, ttl: nat, t: int)
    requires i < |history| && e.key == key && e.Grant? && Counts(history + [e], i, key, ttl, t)
    ensures Counts(history, i, key, ttl, e.judged)
  {
    var longer, n := history + [e], |history|;
    assert forall j :: i < j < n ==> longer[j] == history[j];
    forall j: nat | i <= j
      ensures Running(history, j, key, ttl, e.judged)
    {
      if IsGrant(history, j, key) && Consecutive(history, j, n, key) {
        assert Bridged(longer, j, n, key, ttl);
        assert IsGrant(longer, j, key) && IsGrant(longer, n, key) && Consecutive(longer, j, n, key);
      }
    }
    forall j: nat, l: nat | i <= j < l
      ensures Bridged(history, j, l, key, ttl)
    {
      assert Bridged(longer, j, l, key, ttl);
      SameBetween(history, e, j, l, key);
    }
  }

  lemma GrantOn(history: seq<Event>, e: Event, i: nat, key: string, ttl: nat, t: int)
    requires i < |history| && e.key == key && e.Grant?
    requires t - e.at <= ttl && Counts(history, i, key, ttl, e.judged)
    ensures Counts(history + [e], i, key, ttl, t)
  {
    var longer, n := history + [e], |history|;
    forall j: nat | i <= j
      ensures Running(longer, j, key, ttl, t)
    {
      assert longer[n].key == key;
    }
    forall j: nat, l: nat | i <= j < l
      ensures Bridged(longer, j, l, key, ttl)
    {
      if l < n {
        assert Bridged(history, j, l, key, ttl);
        SameBetween(history, e, j, l, key);
      } else if l == n && IsGrant(longer, j, key) && Consecutive(longer, j, n, key) {
        assert Running(history, j, key, ttl, e.judged);
        assert forall x :: j < x < n ==> longer[x] == history[x];
      }
    }
  }

  lemma LastGrant(history: seq<Event>, e: Event, key: string, ttl: nat, t: int)
    ensures Counts(history + [e], |history|, key, ttl, t) <==> e.key == key && e.Grant? && t - e.at <= ttl
  {
    var longer, n := history + [e], |history|;
    if e.key == key && e.Grant? {
      assert IsGrant(longer, n, key) && Consecutive(longer, n, |longer|, key);
      if t - e.at <= ttl {
        assert forall j: nat :: n <= j ==> Running(longer, j, key, ttl, t);
      } else {
        assert !Running(longer, n, key, ttl, t);
      }
    }
  }

  /** What an event does to the part of the sum that came before it. */
  lemma {:induction false} SumBefore(history: seq<Event>, e: Event, key: string, ttl: nat, t: int, n: nat)
    requires n <= |history|
    ensures Sum(history + [e], key, ttl, t, n) ==
      if e.key != key then Sum(history, key, ttl, t, n)
      else if e.Grant? && t - e.at <= ttl then Sum(history, key, ttl, e.judged, n)
      else 0
  {
    if n > 0 {
      SumBefore(history, e, key, ttl, t, n - 1);
      assert (history + [e])[n - 1] == history[n - 1];
      if e.key != key {
        OtherKey(history, e, n - 1, key, ttl, t);
      } else if e.Grant? {
        SameGrant(history, e, n - 1, key, ttl, t);
      } else {
        assert (history + [e])[|history|] == e;
      }
    }
  }

  /** The balance is the sum of the grants since the last reset, eviction or expiry. */
  lemma {:induction false} BalanceIsSum(history: seq<Event>, key: string, ttl: nat, t: int)
    ensures Balance(history, key, ttl, t) == Sum(history, key, ttl, t, |history|)
    decreases |history|
  {
    if history != [] {
      var n := |history| - 1;
      var front, e := history[..n], history[n];
      assert history == front + [e];
      BalanceIsSum(front, key, ttl, t);
      if e.Grant? {
        BalanceIsSum(front, key, ttl, e.judged);
      }
      SumBefore(front, e, key, ttl, t, n);
      LastGrant(front, e, key, ttl, t);
    }
  }
}
