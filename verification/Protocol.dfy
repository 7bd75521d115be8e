/** The token-borrowing protocol for one key, as atomic operations on shared memory.

    Every operation the limiter performs on the shared Redis cell, on a bucket or on the
    network is one action here.  Actions may interleave in any order; nothing in this module
    assumes that a goroutine runs without interruption, that clocks agree, or that a message
    arrives.  Tokens are counted by six ledgers that no action can leave unbalanced. */
module Protocol {
  import opened Options
  import opened Sums
  import opened Windows

  /** What one bucket object holds: local tokens, the start of its window, the bypass flag and
      the consumption it has recorded in this window. */
  datatype BucketState = BucketState(tokens: nat, start: int, exhausted: bool, consumed: nat)

  /** A grant that has left its source (Redis or a donating peer).  It reaches a bucket, or the
      reply is lost. */
  datatype Flight = InTransit(amount: nat) | Delivered | Lost

  /** One key.  `buckets` holds every bucket object ever created, `live` maps an instance to the
      object its map currently holds for the key; all others are orphans that a goroutine may
      still point to.  The last seven fields are ledgers the program itself does not store. */
  datatype State = State(
    pool: nat,
    windowStart: int,
    buckets: seq<BucketState>,
    live: map<nat, nat>,
    flights: seq<Flight>,
    minted: nat,
    discarded: nat,
    burned: nat,
    admitted: nat,
    starts: seq<int>,
    sinceReset: nat,
    opening: nat
  )

  datatype Action =
    | Create(inst: nat)
    | Evict(inst: nat)
    | Collect(b: nat)
    | RedisReset(limit: nat, newStart: int)
    | Drain(b: nat)
    | SetExhausted(b: nat, flag: bool)
    | ClearConsumed(b: nat)
    | MoveWindow(b: nat, newStart: int)
    | Borrow(requested: nat)
    | Donate(b: nat, amount: nat)
    | Refill(b: nat, f: nat)
    | Lose(f: nat)
    | Admit(b: nat, n: nat)
    | Record(b: nat, n: nat)

  function Held(b: BucketState): nat {
    b.tokens
  }

  function Carried(f: Flight): nat {
    if f.InTransit? then f.amount else 0
  }

  /** Tokens outside Redis: in buckets, live or orphaned, and on the wire. */
  ghost function Outstanding(s: State): nat {
    SumBy(Held, s.buckets) + SumBy(Carried, s.flights)
  }

  function NewBucket(): BucketState {
    BucketState(0, 0, false, 0)
  }

  function Min(a: nat, b: nat): nat {
    if a <= b then a else b
  }

  /** What the borrow script answers to a request. */
  function GrantOf(s: State, requested: nat): nat {
    Min(requested, s.pool)
  }

  predicate IsBucket(s: State, b: nat) {
    b < |s.buckets|
  }

  predicate IsFlying(s: State, f: nat) {
    f < |s.flights| && s.flights[f].InTransit?
  }

  /** When an action can happen at all. */
  predicate Enabled(s: State, a: Action) {
    match a
    case Create(inst) => inst !in s.live
    case Evict(inst) => inst in s.live
    case Collect(b) => IsBucket(s, b) && b !in s.live.Values
    case RedisReset(_, _) => true
    case Drain(b) => IsBucket(s, b)
    case SetExhausted(b, _) => IsBucket(s, b)
    case ClearConsumed(b) => IsBucket(s, b)
    case MoveWindow(b, _) => IsBucket(s, b)
    case Borrow(_) => true
    case Donate(b, amount) => IsBucket(s, b) && 0 < amount <= s.buckets[b].tokens
    case Refill(b, f) => IsBucket(s, b) && IsFlying(s, f)
    case Lose(f) => IsFlying(s, f)
    case Admit(b, n) => IsBucket(s, b) && n <= s.buckets[b].tokens
    case Record(b, _) => IsBucket(s, b)
  }

  /** Replaces the contents of bucket b. */
  function Put(s: State, b: nat, x: BucketState): State
    requires IsBucket(s, b)
  {
    s.(buckets := s.buckets[b := x])
  }

  /** Sends a grant on its way; an answer of zero carries nothing. */
  function Launch(s: State, amount: nat): State {
    if amount == 0 then s else s.(flights := s.flights + [InTransit(amount)])
  }

  /** The window reset script: the first caller of a later window refills the pool. */
  ghost function Reopened(s: State, limit: nat, newStart: int): State {
    if newStart > s.windowStart then
      s.(pool := limit, windowStart := newStart,
         minted := s.minted + limit, discarded := s.discarded + s.pool,
         starts := s.starts + [newStart],
         sinceReset := 0, opening := limit + Outstanding(s))
    else s
  }

  /** The state after an enabled action. */
  ghost function Step(s: State, a: Action): State
    requires Enabled(s, a)
  {
    match a
    case Create(inst) =>
      s.(buckets := s.buckets + [NewBucket()], live := s.live[inst := |s.buckets|])
    case Evict(inst) =>
      s.(live := s.live - {inst})
    case Collect(b) =>
      Put(s, b, s.buckets[b].(tokens := 0)).(burned := s.burned + s.buckets[b].tokens)
    case RedisReset(limit, newStart) =>
      Reopened(s, limit, newStart)
    case Drain(b) =>
      Put(s, b, s.buckets[b].(tokens := 0)).(burned := s.burned + s.buckets[b].tokens)
    case SetExhausted(b, flag) =>
      Put(s, b, s.buckets[b].(exhausted := flag))
    case ClearConsumed(b) =>
      Put(s, b, s.buckets[b].(consumed := 0))
    case MoveWindow(b, newStart) =>
      Put(s, b, s.buckets[b].(start := newStart))
    case Borrow(requested) =>
      var granted := GrantOf(s, requested);
      Launch(s.(pool := s.pool - granted), granted)
    case Donate(b, amount) =>
      Launch(Put(s, b, s.buckets[b].(tokens := s.buckets[b].tokens - amount)), amount)
    case Refill(b, f) =>
      Put(s, b, s.buckets[b].(tokens := s.buckets[b].tokens + s.flights[f].amount))
        .(flights := s.flights[f := Delivered])
    case Lose(f) =>
      s.(flights := s.flights[f := Lost], burned := s.burned + s.flights[f].amount)
    case Admit(b, n) =>
      Put(s, b, s.buckets[b].(tokens := s.buckets[b].tokens - n))
        .(admitted := s.admitted + n, sinceReset := s.sinceReset + n)
    case Record(b, n) =>
      Put(s, b, s.buckets[b].(consumed := s.buckets[b].consumed + n))
  }

  /** Before any instance touches the key: whatever Redis holds is all there is. */
  function Fresh(pool: nat, windowStart: int): State {
    State(pool, windowStart, [], map[], [], pool, 0, 0, 0, [], 0, pool)
  }

  /** The state after a whole schedule of actions, or None if one of them was not enabled. */
  ghost function Exec(s: State, log: seq<Action>): Option<State> {
    if log == [] then Some(s)
    else
      match Exec(s, log[..|log| - 1])
      case None => None
      case Some(mid) =>
        var a := log[|log| - 1];
        if Enabled(mid, a) then Some(Step(mid, a)) else None
  }

  lemma ExecAppend(s: State, log: seq<Action>, a: Action)
    requires Exec(s, log).Some? && Enabled(Exec(s, log).value, a)
    ensures Exec(s, log + [a]) == Some(Step(Exec(s, log).value, a))
  {
    assert (log + [a])[..|log|] == log;
  }

  // ---------------------------------------------------------------- conservation

  /** Every token ever minted is in exactly one place. */
  ghost predicate Balanced(s: State) {
    s.minted == s.pool + s.discarded + Outstanding(s) + s.burned + s.admitted
  }

  /** What has been admitted since the last effective reset, and what may still be, came from
      the tokens the window opened with. */
  ghost predicate WindowBalanced(s: State) {
    s.sinceReset + s.pool + Outstanding(s) <= s.opening
  }

  predicate LiveExist(s: State) {
    forall i :: i in s.live ==> s.live[i] < |s.buckets|
  }

  ghost predicate Ledger(s: State) {
    Balanced(s) && WindowBalanced(s) && LiveExist(s)
  }

  /** How one bucket write moves the total. */
  lemma PutOutstanding(s: State, b: nat, x: BucketState)
    requires IsBucket(s, b)
    ensures Outstanding(Put(s, b, x)) == Outstanding(s) - s.buckets[b].tokens + x.tokens
  {
    SumUpdate(Held, s.buckets, b, x);
  }

  lemma LaunchOutstanding(s: State, amount: nat)
    ensures Outstanding(Launch(s, amount)) == Outstanding(s) + amount
  {
    if amount != 0 {
      SumAppend(Carried, s.flights, InTransit(amount));
    }
  }

  lemma LandOutstanding(s: State, f: nat, outcome: Flight)
    requires IsFlying(s, f) && !outcome.InTransit?
    ensures Outstanding(s.(flights := s.flights[f := outcome])) == Outstanding(s) - s.flights[f].amount
  {
    SumUpdate(Carried, s.flights, f, outcome);
  }

  /** Where every token is that has not been discarded by a reset. */
  ghost function Whereabouts(s: State): nat {
    s.pool + Outstanding(s) + s.burned + s.admitted
  }

  /** Actions that write one bucket only. */
  lemma BucketWrites(s: State, a: Action)
    requires Enabled(s, a)
    requires a.Collect? || a.Drain? || a.SetExhausted? || a.ClearConsumed? || a.MoveWindow? || a.Admit? || a.Record?
    ensures Whereabouts(Step(s, a)) == Whereabouts(s)
  {
    PutOutstanding(s, a.b, Step(s, a).buckets[a.b]);
  }

  /** Actions that send or land a grant. */
  lemma FlightMoves(s: State, a: Action)
    requires Enabled(s, a)
    requires a.Borrow? || a.Donate? || a.Refill? || a.Lose?
    ensures Whereabouts(Step(s, a)) == Whereabouts(s)
  {
    match a {
      case Borrow(requested) =>
        var granted := GrantOf(s, requested);
        LaunchOutstanding(s.(pool := s.pool - granted), granted);
      case Donate(b, amount) =>
        var x := s.buckets[b].(tokens := s.buckets[b].tokens - amount);
        PutOutstanding(s, b, x);
        LaunchOutstanding(Put(s, b, x), amount);
      case Refill(b, f) =>
        var x := s.buckets[b].(tokens := s.buckets[b].tokens + s.flights[f].amount);
        PutOutstanding(s, b, x);
        LandOutstanding(Put(s, b, x), f, Delivered);
      case Lose(f) =>
        LandOutstanding(s, f, Lost);
    }
  }

  /** Only a reset changes the total. */
  lemma StepMoves(s: State, a: Action)
    requires Enabled(s, a) && !a.RedisReset?
    ensures Whereabouts(Step(s, a)) == Whereabouts(s)
  {
    if a.Create? {
      SumAppend(Held, s.buckets, NewBucket());
    } else if a.Borrow? || a.Donate? || a.Refill? || a.Lose? {
      FlightMoves(s, a);
    } else if !a.Evict? {
      BucketWrites(s, a);
    }
  }

  /** What no action but a reset touches. */
  lemma StepFrame(s: State, a: Action)
    requires Enabled(s, a) && !a.RedisReset?
    ensures var t := Step(s, a);
      && t.minted == s.minted && t.discarded == s.discarded && t.opening == s.opening
      && t.burned >= s.burned && t.sinceReset - s.sinceReset == t.admitted - s.admitted
  {
  }

  lemma StepLive(s: State, a: Action)
    requires Enabled(s, a) && LiveExist(s)
    ensures LiveExist(Step(s, a))
  {
  }

  /** Every action keeps both ledgers balanced. */
  lemma StepKeepsLedger(s: State, a: Action)
    requires Ledger(s) && Enabled(s, a)
    ensures Ledger(Step(s, a))
  {
    StepLive(s, a);
    if !a.RedisReset? {
      StepMoves(s, a);
      StepFrame(s, a);
    }
  }

  /** Conservation over every interleaving: from a fresh key, after any schedule, the ledgers
      balance, so no more is admitted than was ever minted. */
  lemma {:induction false} Conservation(pool: nat, windowStart: int, log: seq<Action>)
    requires Exec(Fresh(pool, windowStart), log).Some?
    ensures var s := Exec(Fresh(pool, windowStart), log).value;
      Ledger(s) && s.admitted <= s.minted
  {
    if log != [] {
      Conservation(pool, windowStart, log[..|log| - 1]);
      StepKeepsLedger(Exec(Fresh(pool, windowStart), log[..|log| - 1]).value, log[|log| - 1]);
    }
  }

  /** No bucket and no grant ever exceeds what was minted: 64-bit counters cannot wrap while
      fewer than 2^63 tokens have been minted. */
  lemma CountersFit(s: State, b: nat, f: nat)
    requires Ledger(s)
    ensures IsBucket(s, b) ==> s.buckets[b].tokens <= s.minted
    ensures IsFlying(s, f) ==> s.flights[f].amount <= s.minted
  {
    if IsBucket(s, b) {
      SumAtLeast(Held, s.buckets, b);
    }
    if IsFlying(s, f) {
      SumAtLeast(Carried, s.flights, f);
    }
  }

  // ---------------------------------------------------------------- admission bound

  /** Every reset the instances ask for uses the one limit, and an aligned window start. */
  predicate Uniform(a: Action, limit: nat, window: int)
    requires window > 0
  {
    a.RedisReset? ==> a.limit == limit && a.newStart % window == 0
  }

  predicate AllUniform(log: seq<Action>, limit: nat, window: int)
    requires window > 0
  {
    forall i :: 0 <= i < |log| ==> Uniform(log[i], limit, window)
  }

  /** The effective resets: strictly increasing, aligned, ending at Redis's own window start. */
  predicate Chain(s: State, window: int)
    requires window > 0
  {
    && (forall i, j :: 0 <= i < j < |s.starts| ==> s.starts[i] < s.starts[j])
    && (forall i :: 0 <= i < |s.starts| ==> s.starts[i] % window == 0)
    && (s.starts != [] ==> s.starts[|s.starts| - 1] == s.windowStart)
  }

  /** The chain, and one limit minted for each link of it. */
  predicate Accounted(s: State, pool: nat, limit: nat, window: int)
    requires window > 0
  {
    Chain(s, window) && s.minted == pool + limit * |s.starts|
  }

  lemma StepKeepsChain(s: State, a: Action, pool: nat, limit: nat, window: int)
    requires window > 0 && Uniform(a, limit, window)
    requires Accounted(s, pool, limit, window) && Enabled(s, a)
    ensures Accounted(Step(s, a), pool, limit, window)
  {
    if a.RedisReset? && a.newStart > s.windowStart {
      assert limit * (|s.starts| + 1) == limit * |s.starts| + limit;
    } else {
      var t := Step(s, a);
      assert t.starts == s.starts && t.windowStart == s.windowStart && t.minted == s.minted;
    }
  }

  lemma {:induction false} ResetsFormChain(pool: nat, windowStart: int, log: seq<Action>, limit: nat, window: int)
    requires window > 0 && AllUniform(log, limit, window)
    requires Exec(Fresh(pool, windowStart), log).Some?
    ensures Accounted(Exec(Fresh(pool, windowStart), log).value, pool, limit, window)
  {
    if log == [] {
      assert Exec(Fresh(pool, windowStart), log).value == Fresh(pool, windowStart);
    } else {
      var n := |log| - 1;
      assert Uniform(log[n], limit, window);
      ResetsFormChain(pool, windowStart, log[..n], limit, window);
      StepKeepsChain(Exec(Fresh(pool, windowStart), log[..n]).value, log[n], pool, limit, window);
    }
  }

  /** A strictly increasing chain of multiples of w spans at least (length - 1) windows. */
  lemma {:induction false} ChainSpan(starts: seq<int>, w: int)
    requires w > 0 && starts != []
    requires forall i, j :: 0 <= i < j < |starts| ==> starts[i] < starts[j]
    requires forall i :: 0 <= i < |starts| ==> starts[i] % w == 0
    ensures starts[0] + w * (|starts| - 1) <= starts[|starts| - 1]
  {
    var n := |starts| - 1;
    if n > 0 {
      ChainSpan(starts[..n], w);
      MultiplesApart(starts[n - 1], starts[n], w);
      assert w * n == w * (n - 1) + w;
    }
  }

  /** What the run may admit at most: the initial pool, and one limit for each aligned window
      between the first and the last one Redis opened. */
  function AdmissionCap(s: State, pool: nat, limit: nat, window: int): int
    requires window > 0
  {
    pool + if s.starts == [] then 0 else limit * ((s.windowStart - s.starts[0]) / window + 1)
  }

  lemma AccountedCap(s: State, pool: nat, limit: nat, window: int)
    requires window > 0 && Accounted(s, pool, limit, window)
    ensures s.minted <= AdmissionCap(s, pool, limit, window)
  {
    if s.starts != [] {
      var span := s.windowStart - s.starts[0];
      ChainSpan(s.starts, window);
      QuotientBound(window, |s.starts| - 1, span);
      MulMonotone(limit, |s.starts|, span / window + 1);
    }
  }

  /** Whole-run admission bound.  Whatever the clocks, the duplicate resets, the evictions and
      the lost messages: at most one limit per aligned window that Redis has ever opened, on top
      of what the pool held before the run. */
  lemma AdmissionBound(pool: nat, windowStart: int, log: seq<Action>, limit: nat, window: int)
    requires window > 0 && AllUniform(log, limit, window)
    requires Exec(Fresh(pool, windowStart), log).Some?
    ensures var s := Exec(Fresh(pool, windowStart), log).value;
      s.admitted <= s.minted <= AdmissionCap(s, pool, limit, window)
  {
    Conservation(pool, windowStart, log);
    ResetsFormChain(pool, windowStart, log, limit, window);
    AccountedCap(Exec(Fresh(pool, windowStart), log).value, pool, limit, window);
  }

  // ---------------------------------------------------------------- one window's admissions

  /** Admitted since the last effective reset, plus all that may still be admitted before the next. */
  ghost function Potential(m: State): nat {
    m.sinceReset + m.pool + Outstanding(m)
  }

  /** A reset that comes too late changes nothing, and one that takes effect is remembered. */
  lemma StepStarts(s: State, a: Action)
    requires Enabled(s, a)
    ensures var t := Step(s, a); s.starts <= t.starts && (a.RedisReset? && t.starts == s.starts ==> t == s)
  {
  }

  /** Resets that take effect are remembered; as long as none does, an action moves tokens about,
      admits them or burns them. */
  lemma StepSpends(s: State, a: Action)
    requires Ledger(s) && Enabled(s, a)
    ensures var t := Step(s, a);
      s.starts <= t.starts && Ledger(t) && (t.starts == s.starts ==> Potential(t) <= Potential(s))
  {
    StepStarts(s, a);
    StepKeepsLedger(s, a);
    if !a.RedisReset? {
      StepMoves(s, a);
      StepFrame(s, a);
    }
  }

  /** Whatever happens in a window, late resets included: it admits no more than the pool and all
      tokens outside Redis when we look. */
  lemma {:induction false} WindowSpends(s: State, log: seq<Action>)
    requires Ledger(s) && Exec(s, log).Some?
    ensures var t := Exec(s, log).value;
      s.starts <= t.starts && Ledger(t) && (t.starts == s.starts ==> Potential(t) <= Potential(s))
  {
    if log == [] {
      assert Exec(s, log).value == s;
    } else {
      var n := |log| - 1;
      WindowSpends(s, log[..n]);
      var mid := Exec(s, log[..n]).value;
      StepSpends(mid, log[n]);
    }
  }
}
