/** The sending side of the gossip (gossipOnce in limiter.go): what one peer has acknowledged, the
    delta built for it, and what an acknowledgement changes. */
module GossipSender {
  import opened Options
  import opened Delta

  datatype Request = Request(consumed: Counts, borrowed: Counts)

  /** The two loops that build one delta map. */
  method BuildDelta(acked: Counts, current: Counts) returns (delta: Counts)
    ensures delta == Diff(acked, current)
  {
    delta := map[];
    var rest := current.Keys;
    while rest != {}
      invariant rest <= current.Keys
      invariant forall k :: k in delta <==> k in current && k !in rest && Get(acked, k) != current[k]
      invariant forall k :: k in delta ==> delta[k] == current[k]
    {
      var k :| k in rest;
      if Get(acked, k) != current[k] {
        delta := delta[k := current[k]];
      }
      rest := rest - {k};
    }
    ghost var changed := delta;
    rest := acked.Keys;
    while rest != {}
      invariant rest <= acked.Keys
      invariant forall k :: k in delta <==> k in changed || (k in acked && k !in rest && k !in current)
      invariant forall k :: k in delta ==> delta[k] == Get(current, k)
    {
      var k :| k in rest;
      if k !in current {
        delta := delta[k := 0];
      }
      rest := rest - {k};
    }
  }

  /** What one peer has acknowledged. */
  class PeerState {
    var borrowed: Counts
    var consumed: Counts

    constructor ()
      ensures borrowed == map[] && consumed == map[]
    {
      borrowed, consumed := map[], map[];
    }

    /** The request for this peer, or none when there is nothing to say. */
    method Prepare(currentConsumed: Counts, currentBorrowed: Counts) returns (req: Option<Request>)
      ensures var dc, db := Diff(consumed, currentConsumed), Diff(borrowed, currentBorrowed);
        req == if db == map[] && currentBorrowed == map[] && dc == map[] && currentConsumed == map[]
               then None else Some(Request(dc, db))
    {
      var deltaBorrowed := BuildDelta(borrowed, currentBorrowed);
      var deltaConsumed := BuildDelta(consumed, currentConsumed);
      if |deltaBorrowed| == 0 && |currentBorrowed| == 0 && |deltaConsumed| == 0 && |currentConsumed| == 0 {
        return None;
      }
      req := Some(Request(deltaConsumed, deltaBorrowed));
    }

    /** The peer has acknowledged a request. */
    method Acknowledge(req: Request)
      modifies this
      ensures borrowed == Apply(old(borrowed), req.borrowed)
      ensures consumed == Apply(old(consumed), req.consumed)
    {
      borrowed := ApplyAll(borrowed, req.borrowed);
      consumed := ApplyAll(consumed, req.consumed);
    }
  }

  /** A silent round is harmless: whatever message it stood for would have changed nothing. */
  lemma SilenceIsSafe(acked: Counts, current: Counts, view: Counts)
    requires Diff(acked, current) == map[]
    ensures Apply(view, Diff(acked, current)) == view && Apply(acked, Diff(acked, current)) == acked
  {
    var d := Diff(acked, current);
    assert d == map[];
    forall k
      ensures k in Apply(view, d) <==> k in view
      ensures k in Apply(acked, d) <==> k in acked
    {
      ApplyAt(view, d, k);
      ApplyAt(acked, d, k);
    }
  }

  /** One full exchange with a peer that acknowledges: the memory becomes the snapshot. */
  method AcknowledgedRound(ps: PeerState, currentConsumed: Counts, currentBorrowed: Counts)
    requires Positive(currentConsumed) && Positive(currentBorrowed)
    modifies ps
    ensures ps.borrowed == currentBorrowed && ps.consumed == currentConsumed
  {
    DiffCompletes(ps.borrowed, currentBorrowed);
    DiffCompletes(ps.consumed, currentConsumed);
    var req := ps.Prepare(currentConsumed, currentBorrowed);
    if req.Some? {
      ps.Acknowledge(req.value);
    } else {
      SilenceIsSafe(ps.borrowed, currentBorrowed, map[]);
      SilenceIsSafe(ps.consumed, currentConsumed, map[]);
    }
  }
}
