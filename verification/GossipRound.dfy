/** One gossip round between the sender's memory of a peer and that peer's store: the classes
    refine the abstract rounds of Delta, so its convergence results hold of them. */
module GossipRound {
  import opened Options
  import opened Delta
  import GossipSender
  import Gossiper

  /** The store shows these counts for peer id. */
  ghost predicate Shows(g: Gossiper.Gossiper, id: string, borrowed: Counts, consumed: Counts)
    requires g.Valid()
    reads g
  {
    forall k :: g.Borrowed(id, k) == Get(borrowed, k) && g.Consumed(id, k) == Get(consumed, k)
  }

  /** Sender and receiver stand where the two links, for borrowed and for consumed counts, say. */
  ghost predicate Tracks(ps: GossipSender.PeerState, g: Gossiper.Gossiper, id: string, borrowed: Link, consumed: Link)
    requires g.Valid()
    reads ps, g
  {
    && ps.borrowed == borrowed.acked && ps.consumed == consumed.acked
    && Shows(g, id, borrowed.view, consumed.view)
  }

  /** The gossip handler of the receiver: the store shows the views with the deltas applied. */
  method Deliver(g: Gossiper.Gossiper, id: string, req: GossipSender.Request, now: real,
      ghost borrowed: Counts, ghost consumed: Counts)
    requires g.Valid() && Shows(g, id, borrowed, consumed)
    modifies g
    ensures g.Valid() && Shows(g, id, Apply(borrowed, req.borrowed), Apply(consumed, req.consumed))
  {
    g.UpdatePeer(id, req.consumed, req.borrowed, now);
    forall k
      ensures g.Borrowed(id, k) == Get(Apply(borrowed, req.borrowed), k)
      ensures g.Consumed(id, k) == Get(Apply(consumed, req.consumed), k)
    {
      ApplyAt(borrowed, req.borrowed, k);
      ApplyAt(consumed, req.consumed, k);
    }
  }

  /** The views after a round that may have been dropped. */
  function ViewAfter(l: Link, current: Counts, fate: Fate): Counts {
    if fate == Dropped then l.view else Apply(l.view, Diff(l.acked, current))
  }

  function AckedAfter(l: Link, current: Counts, fate: Fate): Counts {
    if fate == Acked then Apply(l.acked, Diff(l.acked, current)) else l.acked
  }

  lemma RoundParts(l: Link, current: Counts, fate: Fate)
    ensures Delta.Round(l, current, fate).view == ViewAfter(l, current, fate)
    ensures Delta.Round(l, current, fate).acked == AckedAfter(l, current, fate)
    ensures Diff(l.acked, current) == map[] ==>
      ViewAfter(l, current, fate) == l.view && AckedAfter(l, current, fate) == l.acked
  {
    if Diff(l.acked, current) == map[] {
      GossipSender.SilenceIsSafe(l.acked, current, l.view);
    }
  }

  /** gossipOnce for one peer, and the peer's gossip handler if the message arrives. */
  method Round(ps: GossipSender.PeerState, g: Gossiper.Gossiper, id: string,
      currentConsumed: Counts, currentBorrowed: Counts, fate: Fate, now: real,
      ghost borrowed: Link, ghost consumed: Link)
    requires g.Valid() && Tracks(ps, g, id, borrowed, consumed)
    modifies ps, g
    ensures g.Valid()
    ensures Tracks(ps, g, id,
      Delta.Round(borrowed, currentBorrowed, fate), Delta.Round(consumed, currentConsumed, fate))
  {
    RoundParts(borrowed, currentBorrowed, fate);
    RoundParts(consumed, currentConsumed, fate);
    var req := ps.Prepare(currentConsumed, currentBorrowed);
    if req.Some? && fate != Dropped {
      Deliver(g, id, req.value, now, borrowed.view, consumed.view);
      if fate == Acked {
        ps.Acknowledge(req.value);
      }
    }
  }
}
