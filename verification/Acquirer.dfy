/** The parallel probe (acquirer.go): the first positive reply wins, and every later one is handed
    to the extra-tokens callback, also after the caller has gone away. */
module Acquirer {

  /** A probe's outcome, as it arrives on the result channel. */
  datatype Reply = Reply(got: nat, failed: bool)

  predicate Grants(r: Reply) {
    !r.failed && r.got > 0
  }

  /** The grants among the replies, in the order of their arrival. */
  function GrantsOf(replies: seq<Reply>): seq<nat> {
    if replies == [] then []
    else
      var last := replies[|replies| - 1];
      GrantsOf(replies[..|replies| - 1]) + if Grants(last) then [last.got] else []
  }

  lemma {:induction false} GrantsOfConcat(a: seq<Reply>, b: seq<Reply>)
    ensures GrantsOf(a + b) == GrantsOf(a) + GrantsOf(b)
  {
    if b == [] {
      assert a + b == a;
    } else {
      var n := |b| - 1;
      assert (a + b)[..|a| + n] == a + b[..n];
      GrantsOfConcat(a, b[..n]);
    }
  }

  lemma SplitAt(replies: seq<Reply>, n: nat)
    requires n <= |replies|
    ensures GrantsOf(replies) == GrantsOf(replies[..n]) + GrantsOf(replies[n..])
  {
    assert replies == replies[..n] + replies[n..];
    GrantsOfConcat(replies[..n], replies[n..]);
  }

  lemma NextReply(replies: seq<Reply>, n: nat)
    requires n < |replies|
    ensures GrantsOf(replies[..n + 1]) ==
      GrantsOf(replies[..n]) + if Grants(replies[n]) then [replies[n].got] else []
  {
    assert replies[..n + 1][..n] == replies[..n];
  }

  /** The goroutine that outlives the probe: it receives the remaining replies and passes every
      grant to the extra-tokens callback. */
  method DrainRest(replies: seq<Reply>, from: nat) returns (extra: seq<nat>)
    requires from <= |replies|
    ensures extra == GrantsOf(replies[from..])
  {
    extra := [];
    for i := from to |replies|
      invariant extra == GrantsOf(replies[from..i])
    {
      assert replies[from..i + 1][..i - from] == replies[from..i];
      if Grants(replies[i]) {
        extra := extra + [replies[i].got];
      }
    }
    assert replies[from..|replies|] == replies[from..];
  }

  /** A grant among the first n replies is among the first m. */
  lemma GrantedBefore(replies: seq<Reply>, n: nat, m: nat)
    requires n <= m && n <= |replies| && GrantsOf(replies[..n]) != []
    ensures m <= |replies| ==> GrantsOf(replies[..m]) != []
  {
    if m <= |replies| {
      SplitAt(replies[..m], n);
      assert replies[..m][..n] == replies[..n];
    }
  }

  datatype Outcome = Granted(tokens: nat) | Cancelled

  /** probeParallel.  The replies come in any order; the select may see the cancellation before
      any of them (`cancelAt` counts the replies received first).  It gives up if and only if none of
      the replies before the cancellation is a grant, and a reply was still to come. */
  method ProbeParallel(replies: seq<Reply>, cancelAt: nat) returns (out: Outcome, extra: seq<nat>)
    ensures out.Cancelled? <==> cancelAt < |replies| && GrantsOf(replies[..cancelAt]) == []
    ensures out.Cancelled? ==> cancelAt < |replies| && extra == GrantsOf(replies)
    ensures out.Granted? && out.tokens > 0 ==> [out.tokens] + extra == GrantsOf(replies)
    ensures out.Granted? && out.tokens == 0 ==> extra == [] && GrantsOf(replies) == []
  {
    var active: nat := |replies|;
    while active > 0
      invariant 0 <= active <= |replies|
      invariant GrantsOf(replies[..|replies| - active]) == []
      invariant |replies| - active <= cancelAt
    {
      var next := |replies| - active;
      if next == cancelAt {
        SplitAt(replies, next);
        extra := DrainRest(replies, next);
        return Cancelled, extra;
      }
      var r := replies[next];
      active := active - 1;
      NextReply(replies, next);
      if Grants(r) {
        SplitAt(replies, next + 1);
        GrantedBefore(replies, next + 1, cancelAt);
        extra := DrainRest(replies, next + 1);
        return Granted(r.got), extra;
      }
    }
    assert replies[..|replies| - active] == replies;
    return Granted(0), [];
  }

  /** Acquire by the singleflight leader: every grant that arrives is refilled exactly once, the
      winner's by the caller's callback and all others by the extra-tokens callback. */
  method Acquire(replies: seq<Reply>, cancelAt: nat) returns (out: Outcome, refilled: seq<nat>)
    ensures refilled == GrantsOf(replies)
    ensures out.Cancelled? <==> cancelAt < |replies| && GrantsOf(replies[..cancelAt]) == []
    ensures out.Granted? && out.tokens > 0 ==> refilled != [] && refilled[0] == out.tokens
    ensures out == Granted(0) ==> refilled == []
  {
    var extra;
    out, extra := ProbeParallel(replies, cancelAt);
    refilled := if out.Granted? && out.tokens > 0 then [out.tokens] + extra else extra;
  }
}
