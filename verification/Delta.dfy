/** The delta gossip between one sender and one receiver (gossipOnce in limiter.go, and the
    zero-as-delete rule in gossip.go's updateShardPeerLocked).

    The sender remembers, per peer, what that peer has acknowledged.  A round sends what differs
    from that memory; a key that has disappeared is sent as zero, and zero deletes. */
module Delta {

  type Counts = map<string, nat>

  predicate Positive(m: Counts) {
    forall k :: k in m ==> m[k] > 0
  }

  /** An absent key counts as zero, for the sender and for the receiver. */
  function Get(m: Counts, k: string): nat {
    if k in m then m[k] else 0
  }

  /** What the sender transmits: changed keys, and zeros for keys that are gone. */
  function Diff(acked: Counts, current: Counts): Counts {
    map k | k in acked.Keys + current.Keys && (k in current ==> Get(acked, k) != current[k])
      :: Get(current, k)
  }

  /** Applying a delta: zero deletes, anything else overwrites. */
  function Apply(m: Counts, delta: Counts): Counts {
    map k | k in m.Keys + delta.Keys && (k in delta ==> delta[k] != 0)
      :: if k in delta then delta[k] else m[k]
  }

  /** The loop that applies a delta to a map. */
  method ApplyAll(m: Counts, delta: Counts) returns (next: Counts)
    ensures next == Apply(m, delta)
  {
    next := m;
    var rest := delta.Keys;
    while rest != {}
      invariant rest <= delta.Keys
      invariant forall k :: k in next <==>
        if k in delta && k !in rest then delta[k] != 0 else k in m
      invariant forall k :: k in next ==>
        next[k] == if k in delta && k !in rest then delta[k] else m[k]
    {
      var k :| k in rest;
      if delta[k] == 0 {
        next := next - {k};
      } else {
        next := next[k := delta[k]];
      }
      rest := rest - {k};
    }
  }

  lemma ApplyAt(m: Counts, delta: Counts, k: string)
    ensures Get(Apply(m, delta), k) == if k in delta then delta[k] else Get(m, k)
    ensures k in Apply(m, delta) <==> if k in delta then delta[k] != 0 else k in m
  {
  }

  /** The delta is exactly what turns the acknowledged state into the current one. */
  lemma DiffCompletes(acked: Counts, current: Counts)
    requires Positive(current)
    ensures Apply(acked, Diff(acked, current)) == current
  {
    var d := Diff(acked, current);
    var r := Apply(acked, d);
    forall k
      ensures k in r <==> k in current
      ensures k in r && k in current ==> r[k] == current[k]
    {
      ApplyAt(acked, d, k);
    }
  }

  /** Nothing changed, nothing sent. */
  lemma DiffEmptyIff(acked: Counts, current: Counts)
    requires Positive(acked) && Positive(current)
    ensures Diff(acked, current) == map[] <==> acked == current
  {
    var d := Diff(acked, current);
    if d == map[] {
      forall k
        ensures k in acked <==> k in current
        ensures k in acked && k in current ==> acked[k] == current[k]
      {
        assert k !in d;
      }
    } else {
      var k :| k in d;
    }
  }

  /** What becomes of a round's message: lost, applied but not acknowledged, or acknowledged. */
  datatype Fate = Dropped | Unacked | Acked

  /** The sender's memory, the receiver's view, and the keys on which a lost acknowledgement may
      have left them apart. */
  datatype Link = Link(acked: Counts, view: Counts, dirty: set<string>)

  function Round(l: Link, current: Counts, fate: Fate): Link {
    var d := Diff(l.acked, current);
    match fate
    case Dropped => l
    case Unacked => l.(view := Apply(l.view, d), dirty := l.dirty + d.Keys)
    case Acked => Link(Apply(l.acked, d), Apply(l.view, d), l.dirty - d.Keys)
  }

  datatype Exchange = Exchange(current: Counts, fate: Fate)

  /** The link after a history of rounds, from no memory and no view. */
  function History(rounds: seq<Exchange>): Link {
    if rounds == [] then Link(map[], map[], {})
    else
      var last := rounds[|rounds| - 1];
      Round(History(rounds[..|rounds| - 1]), last.current, last.fate)
  }

  predicate AllPositive(rounds: seq<Exchange>) {
    forall i :: 0 <= i < |rounds| ==> Positive(rounds[i].current)
  }

  /** Off the dirty keys, the receiver sees what it has acknowledged. */
  ghost predicate InStep(l: Link) {
    forall k :: k !in l.dirty ==> Get(l.view, k) == Get(l.acked, k)
  }

  lemma RoundKeepsStep(l: Link, current: Counts, fate: Fate)
    requires InStep(l)
    ensures InStep(Round(l, current, fate))
  {
    var d := Diff(l.acked, current);
    var r := Round(l, current, fate);
    forall k | k !in r.dirty
      ensures Get(r.view, k) == Get(r.acked, k)
    {
      ApplyAt(l.view, d, k);
      ApplyAt(l.acked, d, k);
    }
  }

  /** On the dirty keys, the receiver sees something else. */
  ghost predicate OutOfStep(l: Link) {
    forall k :: k in l.dirty ==> Get(l.view, k) != Get(l.acked, k)
  }

  lemma RoundKeepsDirt(l: Link, current: Counts, fate: Fate)
    requires OutOfStep(l) && Positive(l.acked) && Positive(current)
    ensures OutOfStep(Round(l, current, fate))
  {
    var d := Diff(l.acked, current);
    var r := Round(l, current, fate);
    forall k | k in r.dirty
      ensures Get(r.view, k) != Get(r.acked, k)
    {
      ApplyAt(l.view, d, k);
      ApplyAt(l.acked, d, k);
      if k in d {
        assert Get(l.acked, k) != Get(current, k);
      }
    }
  }

  lemma RoundKeepsPositive(l: Link, current: Counts, fate: Fate)
    requires Positive(l.acked) && Positive(l.view)
    ensures var r := Round(l, current, fate); Positive(r.acked) && Positive(r.view)
  {
  }

  /** The invariant of every history of rounds, whatever is lost: the dirty keys are exactly those
      on which the receiver's view is not what was acknowledged. */
  lemma {:induction false} HistoryInStep(rounds: seq<Exchange>)
    requires AllPositive(rounds)
    ensures var l := History(rounds); InStep(l) && OutOfStep(l) && Positive(l.acked) && Positive(l.view)
  {
    if rounds != [] {
      var n := |rounds| - 1;
      HistoryInStep(rounds[..n]);
      var l := History(rounds[..n]);
      RoundKeepsStep(l, rounds[n].current, rounds[n].fate);
      RoundKeepsDirt(l, rounds[n].current, rounds[n].fate);
      RoundKeepsPositive(l, rounds[n].current, rounds[n].fate);
    }
  }

  lemma SameMap(a: Counts, b: Counts)
    requires Positive(a) && Positive(b) && forall k :: Get(a, k) == Get(b, k)
    ensures a == b
  {
    forall k
      ensures k in a <==> k in b
      ensures k in a && k in b ==> a[k] == b[k]
    {
      assert Get(a, k) == Get(b, k);
    }
  }

  /** Convergence, exactly: after an acknowledged round the sender remembers its snapshot, the
      receiver agrees on a key if and only if it was sent or is not dirty, and so it holds the
      whole snapshot if and only if every dirty key is in the delta. */
  lemma ConvergesIff(rounds: seq<Exchange>, current: Counts)
    requires AllPositive(rounds) && Positive(current)
    ensures var l := History(rounds);
      var r := History(rounds + [Exchange(current, Acked)]);
      var d := Diff(l.acked, current);
      && r.acked == current
      && (forall k :: Get(r.view, k) == Get(current, k) <==> k in d || k !in l.dirty)
      && (r.view == current <==> l.dirty <= d.Keys)
  {
    var l := History(rounds);
    HistoryInStep(rounds);
    assert (rounds + [Exchange(current, Acked)])[..|rounds|] == rounds;
    var d := Diff(l.acked, current);
    var r := Round(l, current, Acked);
    DiffCompletes(l.acked, current);
    RoundKeepsPositive(l, current, Acked);
    forall k
      ensures Get(r.view, k) == Get(current, k) <==> k in d || k !in l.dirty
    {
      ApplyAt(l.view, d, k);
      assert k !in d ==> Get(l.acked, k) == Get(current, k);
    }
    if l.dirty <= d.Keys {
      SameMap(r.view, current);
    }
  }

  predicate NoLostAck(rounds: seq<Exchange>) {
    forall i :: 0 <= i < |rounds| ==> rounds[i].fate != Unacked
  }

  lemma {:induction false} NoLostAckNoDirt(rounds: seq<Exchange>)
    requires NoLostAck(rounds)
    ensures History(rounds).dirty == {}
  {
    if rounds != [] {
      NoLostAckNoDirt(rounds[..|rounds| - 1]);
    }
  }

  /** If only messages are lost and never acknowledgements, one acknowledged round converges. */
  lemma ConvergesWithoutLostAcks(rounds: seq<Exchange>, current: Counts)
    requires AllPositive(rounds) && Positive(current) && NoLostAck(rounds)
    ensures History(rounds + [Exchange(current, Acked)]).view == current
  {
    NoLostAckNoDirt(rounds);
    ConvergesIff(rounds, current);
  }

  /** The two kinds of round that lead there. */
  lemma Stray(k: string, v: nat)
    requires v > 0
    ensures Round(Link(map[], map[], {}), map[k := v], Unacked) == Link(map[], map[k := v], {k})
  {
    assert Diff(map[], map[k := v]) == map[k := v];
    assert Apply(map[], map[k := v]) == map[k := v];
  }

  lemma StaysStray(k: string, v: nat)
    requires v > 0
    ensures Round(Link(map[], map[k := v], {k}), map[], Acked) == Link(map[], map[k := v], {k})
  {
    assert Diff(map[], map[]) == map[];
    assert Apply(map[k := v], map[]) == map[k := v];
    assert Apply(map[], map[]) == map[];
  }

  /** A key that appears in one unacknowledged round and is gone in the n rounds after it. */
  function BriefKey(k: string, v: nat, n: nat): seq<Exchange> {
    if n == 0 then [Exchange(map[k := v], Unacked)] else BriefKey(k, v, n - 1) + [Exchange(map[], Acked)]
  }

  /** A lost acknowledgement can leave the receiver wrong for good: a key that appears, is
      delivered without being acknowledged, and disappears again is never mentioned any more,
      however many rounds follow. */
  lemma {:induction false} LostAckDiverges(k: string, v: nat, n: nat)
    requires v > 0
    ensures History(BriefKey(k, v, n)) == Link(map[], map[k := v], {k})
  {
    if n == 0 {
      Stray(k, v);
      HistoryMore([], Exchange(map[k := v], Unacked));
    } else {
      LostAckDiverges(k, v, n - 1);
      StaysStray(k, v);
      HistoryMore(BriefKey(k, v, n - 1), Exchange(map[], Acked));
    }
  }

  lemma HistoryMore(rounds: seq<Exchange>, last: Exchange)
    ensures History(rounds + [last]) == Round(History(rounds), last.current, last.fate)
  {
    assert (rounds + [last])[..|rounds|] == rounds;
  }
}
