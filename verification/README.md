# A verified model of krate

krate is a distributed rate limiter in Go. Every instance keeps a small bucket of tokens per key
and borrows more from a shared Redis pool, or from its peers, when the bucket runs dry; instances
gossip their balances so that a router can guess which peer still has tokens to spare, and a
count-min sketch with a compact codec estimates how often keys occur. This project models that
logic in Dafny and proves what it is meant to keep.

## How it is laid out

The token protocol is proved in three layers, each resting on the one before.

* `Protocol.dfy` is the ledger: one key's Redis cell, all buckets that ever existed (also those
  that were evicted while a goroutine still held them), and all grants in flight, changed by
  atomic actions. Minted tokens are conserved over every run, and a whole run admits at most the
  opening pool plus one limit per window between the first and the last Redis reset.
* `Goroutines.dfy` runs the request, pre-borrow and probe goroutines one memory operation at a
  time, in any interleaving, with singleflight, lost replies and a janitor. No goroutine is ever
  about to do something the ledger forbids, every grant has exactly one holder, and the
  requests answered "allowed" cost no more than was minted. `Singleflight.dfy` proves that each call
  has one leader and that nobody is stuck, `Histories.dfy` that a grant is always followed by another
  try of the bucket. `Solo.dfy`, `Probes.dfy` and `Uninterrupted.dfy` play one request alone: it gives
  exactly the answer and the memory of the request as a value. `Orphans.dfy` and `WindowLimit.dfy`
  settle exactly how much one window can admit over all interleavings: with no request in progress,
  a window that has just opened keeps its limit in every continuation if and only if no live bucket
  still has tokens.
* `Buckets.dfy`, `Redis.dfy` and `Fleet.dfy` are the objects of the code. `Fleet.AllowN` is the whole
  request on real bucket objects, with the log of ledger actions that it is made of. `Requests.dfy`
  holds what its parts do as values, and `Answers.dfy` the whole request as a value, with the exact
  condition in tokens under which it is allowed; the objects and the uninterrupted goroutine both
  refine it. `Fleet.Workload` and `Fleet.AnyRun` close the argument over any list of jobs.

The other components:

* `Delta.dfy`, `GossipSender.dfy`, `Gossiper.dfy`, `GossipRound.dfy`: the delta gossip. After
  a delivered round the receiver agrees with the sender exactly if every key that lost
  acknowledgements have left dirty is in the delta.
* `Ranking.dfy`, `Gossiper.dfy`: `TopK`, whose fixed buffer ranks as the sort does, except for the
  identity of tied peers.
* `Routing.dfy`, `EmaRouter.dfy`: the routers and the contract the request loop needs of them.
* `Acquirer.dfy`: parallel probing refills every granted reply once.
* `Sizer.dfy`, `Leases.dfy`, `LeaseReading.dfy`, `BorrowManager.dfy`: adaptive borrow sizes, and the
  lazily purged lease maps against the history of grants.
* `Words.dfy`, `Varint.dfy`, `Codec.dfy`, `Compressor.dfy`: the codec, over wrapping 64-bit cells.
* `Sketches.dfy`, `ConcurrentAdds.dfy`, `CountMin.dfy`: the sketch, its exact contents under any
  interleaving of additions, and merging.
* `Sums.dfy`, `Windows.dfy`, `Options.dfy`: totals over sequences, window arithmetic, and values that
  may be missing.

Some promises turn out to hold only under a condition, which is proved together with the input
that breaks them. A bucket spends what is left from the previous window before it looks at the
window, so a window can admit more than the limit (`WindowLimit.WindowLimitIff`,
`WindowLimit.WindowOverrun`). A key that returns to its acknowledged value after a lost
acknowledgement is not sent again (`Delta.ConvergesIff`, `Delta.LostAckDiverges`). Compressing what was
decompressed gives the input back exactly if every varint in it was minimal (`Codec.RepackIff`,
`Codec.PaddedExample`). The two ways to rank peers name the same peers exactly if no two are tied
for a place in the ranking (`Gossiper.SamePeersIff`, `Gossiper.TieExample`); their surpluses agree
always. A peer keeps its reserve whatever one request asks of it, but two probes at once can take
from it (`Uninterrupted.AloneKeepsReserve`, `Probes.ReserveRace`). A request of 2^63 tokens or more
is let through by any bucket (`Buckets.ConsumeCoveredIff`, `Buckets.HugeRequestSucceeds`).

## Model

| member | source | states |
|---|---|---|
| `Protocol.BucketWrites` | local.go:21-52 | No write to a bucket (consuming, draining, marking, moving its window) creates or loses a token: what is consumed is admitted, what is drained is burned |
| `Protocol.FlightMoves` | internal/borrow/pool.go:26-46 | Borrowing, donating, delivering and losing a grant move tokens between pool, buckets, grants in flight and the burned pile, and never change their total |
| `Protocol.StepMoves` | limiter.go:353-470 | Every action but a reset keeps the total over all places a token can be |
| `Protocol.StepKeepsLedger` | internal/borrow/pool.go:48-61 | Every enabled action, resets included, keeps the ledger: minted equals pool plus discarded plus buckets plus in flight plus burned plus admitted, and the same since the last reset |
| `Protocol.Conservation` | limiter.go:353-470 | Over every run from a fresh cell the ledger balances, so what was admitted never exceeds what was minted |
| `Protocol.CountersFit` | local.go:15-36 | No bucket and no grant ever holds more than was minted, which is why the 64-bit counters cannot overflow below 2^63 |
| `Protocol.ResetsFormChain` | internal/borrow/pool.go:48-61 | Effective Redis resets happen at strictly increasing multiples of the window, whatever the clocks of the instances, and each mints one limit |
| `Protocol.AdmissionBound` | internal/borrow/pool.go:48-61 | A whole run admits at most the opening pool plus the limit times one more than the number of windows between the first and the last effective reset, despite skewed clocks, duplicate resets, eviction and recreation |
| `Protocol.WindowSpends` | internal/borrow/pool.go:26-61 | In any run, as long as no reset takes effect, calls that come too late included, what was admitted since the last reset, the pool and what is outstanding never grow together |
| `Windows.AlignedIsFloor` | limiter.go:537-538 | The new window start is the multiple of the window at or before now, for the division Go does |
| `Windows.AlignedMonotone` | limiter.go:537-542 | A later clock never gives an earlier window start |
| `Goroutines.ThreadSound` | limiter.go:353-470 | In any state the invariant allows, one step of any request, pre-borrow or probe goroutine does an action the ledger allows, keeps its pointers valid, and hands grants over only by launching, landing or taking a reply |
| `Goroutines.ProbeSound` | internal/peer/server.go:88-121 | A probe consumes at the donor what it sends, also when the balance changed between its two reads, and a late reply is poured into the current bucket of the asking instance |
| `Goroutines.PlayKeepsInv` | limiter.go:353-556 | Every interleaving of goroutines, arrivals and evictions keeps the invariant, and is a run of the ledger with one limit and one window |
| `Goroutines.NeverRefused` | limiter.go:353-470 | Whatever step a goroutine takes in any reachable state is possible for the memory: it lands no grant twice, spends no tokens that are gone, and touches no bucket that never was (that it has a step to take is `Singleflight.NobodyStuck`) |
| `Goroutines.OneHolderPerGrant` | internal/peer/acquirer.go:78-166 | In every reachable state each grant in flight is in the hands of exactly one goroutine, so singleflight followers add no tokens |
| `Goroutines.AllowedWithinMinted` | limiter.go:353-470 | In every interleaving the sizes of all requests answered with allowed add up to no more than was minted, which is within the admission bound |
| `Singleflight.PlayKeepsLed` | internal/borrow/manager.go:88-123 | In every reachable state each unsettled call has one leader of its own, and the group's table lists exactly the unsettled calls, one for each instance and kind |
| `Singleflight.OneLeader` | internal/peer/acquirer.go:78-91 | Two goroutines never lead calls of the same kind for the same instance at the same time |
| `Singleflight.NobodyStuck` | limiter.go:353-470 | In every reachable state each goroutine that has not finished has a step it can take, or waits for an unsettled call whose leader has one; a leader that holds a grant can pour it |
| `Histories.GrantIsTried` | limiter.go:425-466 | In every schedule, a request whose acquire from Redis or from peers has brought it something ends only after it has tried its bucket again, and that try succeeds exactly if the bucket then has what it needs |
| `Histories.FollowersHearTheResult` | internal/peer/acquirer.go:78-91 | In every schedule, whoever waited for a call of another goroutine and waits no longer has gone on with the one result that the call has for everybody |
| `Solo.ServeLocally` | limiter.go:353-377 | Played alone from any world, the goroutine of a request that its bucket covers does to the memory exactly the consumption of the value model |
| `Solo.ServeFromRedis` | limiter.go:353-441 | Played alone, with the window turned if it is due, the goroutine of a request that Redis covers does exactly the lookup, reset, borrow and consumption of the value model, and leaves the singleflight table as it was |
| `Uninterrupted.AllowAlone` | limiter.go:353-470 | Played alone from any world in which its instance has no call under way, a request goroutine gives the answer of the request as a value and leaves exactly its memory, for every message lost, every router within its contract and every list of ranked peers; every probe it started has finished |
| `Uninterrupted.ServeFromPeers` | limiter.go:442-462 | A request that its bucket does not cover, and that one probed peer covers above its reserve, is played alone to allowed: the opening, the donation, the consumption |
| `Uninterrupted.AloneKeepsReserve` | limiter.go:125-133 | Played alone, a request leaves no peer below the smaller of what it had and its reserve |
| `Uninterrupted.ServeAndPrefetch` | limiter.go:362-377 | A request served on the spot that starts a pre-borrow, and then the pre-borrow alone: the consumption and a borrow of the recommended size, and nobody is answered |
| `Uninterrupted.LateGrantArrives` | internal/peer/acquirer.go:137-146 | A reply that comes after its call was answered is added, whole, to the bucket the asking instance has by then |
| `Probes.ReserveRace` | internal/peer/server.go:101-116 | Two probes that both read the surplus before either takes it take from the reserve: what is left is twice the reserve less what there was, or nothing |
| `Orphans.ShutForEver` | limiter.go:639-666 | A bucket that no map holds and no unfinished goroutine points to is never touched again in any continuation |
| `WindowLimit.WindowLimitIff` | limiter.go:353-470 | From any reachable world without a request in progress and for any limit: every continuation in the same Redis window stays within it if and only if what the window has admitted, the pool and the tokens in the live buckets do |
| `WindowLimit.FreshWindowIff` | limiter.go:362-398 | A window that has just opened keeps its limit in every continuation if and only if no live bucket still has tokens |
| `WindowLimit.BusyWindow` | limiter.go:353-470 | From any reachable world at all, the pool and all tokens in live buckets can be admitted on top of what the window has admitted, and nothing beyond what is outstanding can |
| `WindowLimit.WindowOverrun` | limiter.go:362-380 | A schedule of three requests of the goroutine machine, one after the other, admits 19 in a window with limit 10 |
| `Buckets.ConsumeCoveredIff` | local.go:21-31 | When the code lets a request through, it was covered and exactly paid for if and only if its size is below 2^63 |
| `Buckets.HugeRequestSucceeds` | local.go:21-31 | A request of 2^63 is let through by an empty bucket, because its size turns negative |
| `Buckets.StoredIsWrapped` | local.go:21-36 | What a sum of counters is stored as is the number modulo 2^64 read as signed |
| `Buckets.Trigger` | bucket.go:74-80 | The number of tokens below which a bucket is filled up is the truncated share of the smallest borrow, and at least one |
| `Buckets.Bucket.constructor` | bucket.go:21-30 | A new bucket is the empty bucket of the ledger, unmarked, with window start 0 |
| `Buckets.Bucket.TryConsume` | local.go:21-31 | Succeeds exactly if the signed balance covers the signed size, then takes it off with 64-bit wrap, and otherwise changes nothing |
| `Buckets.Bucket.Drain` | local.go:46-52 | Empties the bucket and says what was in it |
| `Buckets.Bucket.Restart` | limiter.go:548-552 | The bucket's part of a reset: empty, unflagged, nothing consumed, the new window start |
| `Buckets.Bucket.TakeGrant` | limiter.go:416-419 | A grant clears the exhausted flag and is added to the balance |
| `Buckets.Bucket.TryMarkPreBorrowing` | bucket.go:66-72 | Only the first of two callers gets the mark |
| `Buckets.Bucket.BelowPreBorrowThreshold` | bucket.go:74-80 | True exactly below that number |
| `Buckets.Hand` | limiter.go:135-149 | A donation takes the amount asked as far as the donor has it, and what arrives is what was taken, or nothing if the reply is lost |
| `Redis.Cell.Borrow` | internal/borrow/pool.go:26-46 | Hands out what was asked as far as the pool goes: nothing is created, and a grant below the request empties the pool |
| `Redis.Cell.ResetWindow` | internal/borrow/pool.go:48-61 | Only a later window start refills the pool, and then to the limit; any other call changes nothing |
| `Routing.DefaultDecide` | routing/router.go:48-56 | Keeps the router contract: peers only while there are some, Redis only while it is not known to be empty, deny only then, and never while peers are left |
| `Requests.FlagMeansEmpty` | limiter.go:379-398 | A bucket that is flagged exhausted and needs no reset means that the Redis pool is empty |
| `Requests.ResetKeepsBypass` | limiter.go:532-556 | A window reset, answered or lost on either way, keeps the meaning of every bucket's flag; so do all other parts of a request, which the fleet's methods use in the same way |
| `Requests.BorrowKeepsBypass` | limiter.go:416-441 | A borrow, answered or lost, keeps it as well, although it changes the pool the flag speaks of |
| `Requests.ProbedStops` | internal/peer/acquirer.go:168-183 | The sequential probe asks no peer after the first that gives something |
| `Requests.ProbingFair` | internal/peer/acquirer.go:168-183 | A whole sequential probe, whatever peers answer, lose or refuse, mints and admits nothing, leaves the pool and the flag's meaning alone, keeps every other bucket small, and yields at most the need |
| `Requests.BorrowTurned` | limiter.go:414-441 | A borrow of at least the need that still leaves the bucket short has emptied the pool, so no grant is left unused in the pool |
| `Requests.RequestKept` | limiter.go:353-470 | The part before the loop and the loop together: what was admitted, minted and may still leak, and the meaning of the flag |
| `Requests.SnugOutstanding` | limiter.go:414-461 | If every bucket in use is small, everything outstanding is at most instances times that size |
| `Requests.ResetPotential` | limiter.go:532-556 | A reset leaves at most the limit plus what the other instances hold to be admitted in the new window |
| `Requests.SteadyLeak` | limiter.go:414-461 | In a steady fleet what was admitted since the last reset is at most the limit plus instances times one less than the largest request or borrow |
| `Requests.ResetMeans` | limiter.go:532-556 | An answered reset of a window that is over empties the bucket, moves it to the new window, fills the pool if no other instance has done so, and touches no other bucket |
| `Requests.TransferMeans` | limiter.go:125-149 | In tokens: a donor that is reached loses exactly the smaller of the need and what it holds above the reserve, so it gives something whenever it has more than the reserve; what arrives is what it lost, unless the reply is lost |
| `Requests.ProbingKeepsReserve` | internal/peer/acquirer.go:168-183 | A whole sequential probe leaves no peer below the smaller of what it had and the reserve |
| `Answers.GrantMeans` | internal/borrow/pool.go:26-46 | A grant is what was asked as far as the pool goes, moves from the pool to the bucket, and clears the flag |
| `Answers.AllowedIff` | limiter.go:353-470 | If nothing is lost and the router gives up only without peers left to ask, a request is allowed if and only if its bucket covers it, or its bucket and the pool, once the window has been turned if due, together with what the first ranked peer that has anything above its reserve gives; any other router may leave the peers out |
| `Answers.ProspectServes` | limiter.go:353-470 | A request that its bucket and the pool cover, the window turned if due, is allowed whatever peers do, unless a message to Redis is lost |
| `Answers.AllowKept` | limiter.go:353-470 | Whatever is lost and whatever the router does within its contract: the request is answered within four decisions, admits its size or nothing, mints at most one limit, counts what it consumed, leaves the pool alone if its flag was set, is denied only when short and with the flag set, and keeps the flag's meaning and the leak bound |
| `Answers.DonorsKeepReserve` | limiter.go:125-133 | Whatever happens to a request, no peer ends below the smaller of what it had and the reserve |
| `Answers.OnePeerServes` | limiter.go:442-462 | With the default router, a request that one ranked peer covers above its reserve costs one decision, and Redis is not asked |
| `Fleet.Fleet.constructor` | limiter.go:512-530 | A fleet starts with no buckets in use, a balanced ledger and a flag invariant that holds |
| `Fleet.Fleet.Lookup` | limiter.go:512-530 | Finds the bucket, or puts a new empty one in place, and nothing else changes |
| `Fleet.Fleet.Consume` | limiter.go:362-377 | Succeeds exactly if the request is covered, and then the tokens become admitted |
| `Fleet.Fleet.ResetWindow` | limiter.go:532-556 | Its effect on Redis and the bucket for each fate of the call, made of ledger actions |
| `Fleet.Fleet.Borrow` | internal/borrow/manager.go:88-119 | The answer is what the pool could grant, or an error; a grant lost on the way back is burned |
| `Fleet.Fleet.Transfer` | internal/peer/server.go:88-121 | The objects do the donation of the model; in tokens, the donor loses the smaller of the need and what it holds above the reserve, and a lost reply burns it |
| `Fleet.Fleet.ProbeSequential` | internal/peer/acquirer.go:168-183 | Asks peers in order and stops at the first that gives; nothing means all were asked; no peer ends below the smaller of what it had and the reserve |
| `Fleet.Fleet.Open` | limiter.go:358-395 | The request up to the loop: if it is not served, a set flag means an empty pool, unless a due reset failed |
| `Fleet.Fleet.Serve` | limiter.go:401-465 | The loop on real objects ends exactly as the loop of the request as a value, so the router is told of peers until they have been asked; between one and four decisions, and denies only on an empty pool or a flag that was already wrong |
| `Fleet.Fleet.AllowN` | limiter.go:353-470 | The whole request on real objects, made of ledger actions: answer, number of decisions and state are exactly those of the request as a value (`Answers.AllowedIff`, `Answers.AllowKept`). So it admits its size or nothing, mints at most one limit, decides at most four times and fails only on errors; if nothing is lost and the router asks peers before it gives up, it is allowed if and only if bucket, pool and first giving peer cover it; it is denied only with too few local tokens, the flag set and (unless a due reset failed) an empty pool; it keeps the flag's meaning, the peers' reserves, small buckets and the leak bound, and notes its time as the last access |
| `Fleet.Fleet.StartPreBorrow` | limiter.go:372-376 | A background borrow starts exactly if fewer tokens are left than the threshold says and none is under way, and marks the bucket |
| `Fleet.Fleet.PreBorrow` | limiter.go:472-497 | The end of a background borrow: its tokens move from the pool to the bucket or are lost, the mark goes, nothing is admitted or minted, the flag keeps its meaning, and what a window can still admit does not rise |
| `Fleet.Fleet.EvictIdle` | limiter.go:639-666 | Evicts exactly the bucket that is idle and not pre-borrowing; its tokens are burned, not admitted |
| `Fleet.DoJob` | limiter.go:353-470 | A request or an eviction keeps the fleet steady and admits exactly its cost |
| `Fleet.Workload` | limiter.go:353-470 | From any steady state, a fresh key included, and after any list of requests and evictions in clock order, with requests and borrows of at most a size and no pre-borrowing, the admissions since the last Redis reset are at most the limit plus instances times one less than the size |
| `Fleet.AnyRun` | limiter.go:353-497 | Over any list of requests of any size, evictions, and starts and ends of background borrows in any order, the flag keeps its meaning and no request is denied while the pool has tokens, unless a due reset failed |
| `Acquirer.DrainRest` | internal/peer/acquirer.go:137-146 | The goroutine left behind passes on every granted reply that is still to come, in order |
| `Acquirer.ProbeParallel` | internal/peer/acquirer.go:107-166 | For every arrival order and every point of cancellation, the winner and the extra tokens are together all granted replies, each once; the cancellation wins if and only if a reply was still to come and none before it is a grant |
| `Acquirer.Acquire` | internal/peer/acquirer.go:78-91 | What is refilled, by either callback, is the list of granted replies exactly, and a positive answer is one of them |
| `Delta.ApplyAll` | internal/sketch/gossip.go:161-172 | The receiver's loop, in any order of keys, sets the nonzero keys of the delta and deletes the zero ones |
| `Delta.DiffCompletes` | limiter.go:274-297 | Applying the difference to the acknowledged map gives the current one |
| `Delta.DiffEmptyIff` | limiter.go:300-303 | The difference is empty if and only if the current map was acknowledged |
| `Delta.HistoryInStep` | limiter.go:311-345 | Over any history of delivered, lost and unacknowledged rounds, the keys dirtied by lost acknowledgements are exactly those at which the receiver does not have the acknowledged value |
| `Delta.ConvergesIff` | limiter.go:253-347 | After a delivered round the receiver has the snapshot's value of a key if and only if the key was in the delta or is not dirty; so it equals the snapshot if and only if every dirty key is in the delta |
| `Delta.ConvergesWithoutLostAcks` | limiter.go:253-347 | If no acknowledgement was ever lost, a delivered round makes the receiver equal to the snapshot everywhere |
| `Delta.LostAckDiverges` | limiter.go:276-285 | A key that appears, has its acknowledgement lost and disappears again is never corrected, however many rounds follow |
| `GossipSender.BuildDelta` | limiter.go:274-297 | The loops over both maps build exactly the difference |
| `GossipSender.PeerState.Prepare` | limiter.go:274-309 | A request is made of both differences, and none is sent exactly when both differences and both maps are empty |
| `GossipSender.PeerState.Acknowledge` | limiter.go:327-344 | The acknowledged maps become what the receiver has applied |
| `GossipSender.SilenceIsSafe` | limiter.go:300-303 | Not sending changes neither side: the skipped round is one whose delta is empty |
| `Ranking.RankedSorts` | internal/sketch/gossip.go:340-342 | Insertion in turn gives a descending rearrangement of the same elements |
| `Ranking.BoundedIsHead` | internal/sketch/gossip.go:263-281 | A buffer cut to k after every insertion holds exactly the first k of the full ranking |
| `Ranking.FallingUnique` | internal/sketch/gossip.go:340-342 | There is only one descending arrangement of given numbers |
| `Ranking.AnySortAgrees` | internal/sketch/gossip.go:213-347 | Whatever a sort does with ties, its first k measures are those of the bounded buffer |
| `Ranking.SameElementsIff` | internal/sketch/gossip.go:263-342 | The buffer, fed in any order, and every sort keep the same elements in the same order if and only if no two different elements are tied with fewer than k ahead of them |
| `Ranking.Sort` | internal/sketch/gossip.go:340-342 | A descending rearrangement of its input |
| `Gossiper.AbsorbAll` | internal/sketch/gossip.go:129-159 | The loop over the consumed counts treats every key of the delta once, in any order, and leaves the others alone |
| `Gossiper.VelocityStays` | internal/sketch/gossip.go:135-158 | A stored velocity never becomes negative, also when a counter goes backwards |
| `Gossiper.ThreeMessages` | internal/sketch/gossip.go:135-158 | In numbers: no velocity after one count, alpha times the first rate after two, and then alpha times the new rate plus the rest of the old velocity, where a counter that went down counts from zero; the last count and time are stored |
| `Gossiper.AbsorbedMeans` | internal/sketch/gossip.go:129-159 | The two copies of the consumed counts both follow the delta, and velocities stay nonnegative |
| `Gossiper.UpdateShard` | internal/sketch/gossip.go:116-185 | One shard after a message: consumed and borrowed counts with the delta applied, times stamped at every key of the message |
| `Gossiper.PredictionIsCautious` | internal/sketch/gossip.go:238-254 | The predicted surplus lies between zero and the raw surplus, and is the raw surplus less the decay, floored at zero |
| `Gossiper.CandidatesAreCautious` | internal/sketch/gossip.go:216-262 | Every candidate is a known peer whose surplus is at most what it borrowed above what it consumed |
| `Gossiper.CandidateIff` | internal/sketch/gossip.go:216-262 | A peer is a candidate if and only if what it borrowed, less what it consumed, less its velocity times the time since it was heard, is above zero; its surplus is the floor of that, its count and time are those stored |
| `Gossiper.LaterIsLess` | internal/sketch/gossip.go:238-256 | A later clock never makes a peer a candidate nor raises its surplus |
| `Gossiper.InsertInto` | internal/sketch/gossip.go:263-281 | The in-place insertion into the fixed buffer of 16, then cut to k, is insertion into the ranking, and never runs over the buffer |
| `Gossiper.TopKFast` | internal/sketch/gossip.go:213-287 | For 1 to 15 peers asked, the buffer ends as the bounded ranking of the candidates |
| `Gossiper.TopKSorted` | internal/sketch/gossip.go:289-347 | The other path is the head of a descending rearrangement of the candidates, with the surpluses of the reference ranking |
| `Gossiper.AnyOrder` | internal/sketch/gossip.go:216-216 | The order in which a map is walked does not change which candidates there are |
| `Gossiper.FastMeetsSorted` | internal/sketch/gossip.go:205-348 | For every map order on either side and every sort, both paths give the same surpluses in the same order, and as many as there are, up to k |
| `Gossiper.SamePeersIff` | internal/sketch/gossip.go:205-348 | Both paths, on whatever map orders, name the same peers if and only if no two different candidates are tied for a place among the first k |
| `Gossiper.TieExample` | internal/sketch/gossip.go:263-281 | Two peers with equal surplus: the map order decides which is named |
| `Gossiper.Gossiper.UpdatePeer` | internal/sketch/gossip.go:73-114 | A message sets exactly its keys, for its peer, in whatever shards they are: counts, velocity and time of its consumption, and when the key was heard of; everything known of other peers and keys stays |
| `Gossiper.Gossiper.RemovePeer` | internal/sketch/gossip.go:187-203 | Nothing is known any more of a removed peer, counts, velocities and times, and no other peer changes |
| `Gossiper.Gossiper.EvictKeys` | internal/sketch/gossip.go:360-395 | Nothing is known any more of evicted keys at any peer, and no other key changes |
| `Gossiper.Gossiper.TopK` | internal/sketch/gossip.go:205-348 | On either path, of the shard's maps: at most k entries in falling order, each of a peer with borrowed less consumed less velocity times the time since above zero, and showing the floor of that, the consumed count and the time; a peer left out that has something left has no more than each of the k named; the surpluses are those of any sort cut off at k |
| `GossipRound.Deliver` | limiter.go:151-154 | What the store shows of a peer after a message is what the delta applied to what it showed before |
| `GossipRound.Round` | limiter.go:253-347 | A round between the real sender state and the real store is a round of the abstract link, for borrowed and consumed counts alike and every fate of the message |
| `EmaRouter.ObserveKeepsForward` | routing/ema_router.go:67-88 | The router's own velocities stay nonnegative too |
| `EmaRouter.LearnTwice` | routing/ema_router.go:67-89 | Seeing an entry again that is no newer changes nothing, so deciding often does not distort the velocity |
| `EmaRouter.TwoSightings` | routing/ema_router.go:60-90 | In numbers: two entries of a new peer leave alpha times the rate between them, by the times in the entries, and the last count and time |
| `EmaRouter.NextSighting` | routing/ema_router.go:67-89 | Each newer entry: alpha times the rate since the last one plus the rest of the old velocity; an entry that is no newer changes neither velocity nor time |
| `EmaRouter.Router.ForeseenMeans` | routing/ema_router.go:137-154 | What is foreseen is the surplus less the velocity times the time since, cut off at zero |
| `EmaRouter.Router.UpdateModel` | routing/ema_router.go:60-90 | One entry is learnt, for its peer and key only, and the model stays sane: velocities nonnegative, counts and times for the same keys |
| `EmaRouter.Router.UpdateModels` | routing/ema_router.go:59-91 | All ranked entries are learnt in order |
| `EmaRouter.Router.Decide` | routing/ema_router.go:93-169 | Keeps the router contract; asks peers if and only if some ranked peer is foreseen to cover the need, and then its surplus does |
| `EmaRouter.Router.DecideFrom` | routing/ema_router.go:93-169 | It ranks the first two peers by what gossip says they have left, the first three from five known peers on, learns of them, and decides for peers if and only if there are peers to ask and one of those ranked is foreseen to cover the need; so it does when the foremost peer covers it and is new to the router, and when it does, some peer had borrowed at least the need more than it consumed |
| `EmaRouter.Router.RemovePeer` | routing/ema_router.go:199-208 | Forgets the peer and nothing else |
| `Sizer.EmaBounded` | internal/borrow/adaptive.go:30-35 | Over any history the average stays between zero and any bound on what was recorded |
| `Sizer.EmaIsWeighted` | internal/borrow/adaptive.go:30-35 | In closed form: an amount that k others have followed weighs alpha (1 - alpha)^k |
| `Sizer.TargetIsNearest` | internal/borrow/adaptive.go:45-46 | The target is the integer nearest to twice the rate times the interval |
| `Sizer.Clamp` | internal/borrow/adaptive.go:48-54 | The result is within the limits when they are in order, and the target itself where possible |
| `Sizer.AdaptiveSizer.Record` | internal/borrow/adaptive.go:30-35 | The average follows the history with one more amount |
| `Sizer.AdaptiveSizer.ComputeBorrowSize` | internal/borrow/adaptive.go:37-55 | The size is the clamped target of the recorded history, or the upper limit without one, and never above the larger limit |
| `Sizer.AdaptiveSizer.SizeIsNearest` | internal/borrow/adaptive.go:37-55 | Between the limits, the size is nearest to what the weighted average of the recorded amounts uses in two intervals |
| `Sizer.AdaptiveSizer.NotNegative` | internal/borrow/adaptive.go:45-46 | The conversion to an unsigned number never sees a negative target |
| `Sizer.AdaptiveSizer.Reset` | internal/borrow/adaptive.go:57-62 | Forgets the history |
| `Leases.PurgeUnseen` | internal/borrow/manager.go:148-169 | Deleting expired entries of a shard, any of them at any time, cannot be observed from then on |
| `Leases.GrantReflects` | internal/borrow/manager.go:107-115 | Judging the old balance at one clock reading and starting the lease at a later one keeps a shard true to the history |
| `Leases.ClearReflects` | internal/borrow/manager.go:191-219 | Zeroing at a reset and deleting at an eviction keep it true |
| `Leases.AsMapSize` | internal/borrow/manager.go:184-188 | Listing distinct keys into a map loses none |
| `Leases.HeadKeepsLargest` | internal/borrow/manager.go:177-188 | The head of any descending sort keeps as many entries as asked, none smaller than any it drops |
| `Leases.LiveIsPositive` | internal/borrow/manager.go:162-175 | The live entries over all shards are exactly the positive balances of the history |
| `Leases.EvictionsMean` | internal/borrow/manager.go:201-219 | After evictions the keys named are worth nothing and no other key has changed |
| `LeaseReading.BalanceIsSum` | internal/borrow/manager.go:88-219 | The balance that looks back event by event is the sum of the grants that count: not reset or evicted since, and with no lease of the key run out since, neither between two grants nor at the end |
| `BorrowManager.Manager.constructor` | internal/borrow/manager.go:56-77 | Empty shards, true to the empty history |
| `BorrowManager.Manager.Acquire` | internal/borrow/manager.go:88-137 | The request is at least the need and at most the larger of need and upper limit; what the pool loses is what is granted; the balance of the key grows by the grant over what was left of it, no other balance changes, and an error changes nothing |
| `BorrowManager.Manager.Share` | internal/borrow/manager.go:121-137 | A singleflight follower records the grant's size and adds no balance |
| `BorrowManager.Manager.Borrowed` | internal/borrow/manager.go:143-156 | The answer is the lease balance of the history, whatever was purged before |
| `BorrowManager.ListLive` | internal/borrow/manager.go:165-173 | Walking a shard in any order lists its live keys once each and finds exactly the expired ones |
| `BorrowManager.Truncate` | internal/borrow/manager.go:177-188 | All entries if they fit, otherwise the largest |
| `BorrowManager.Manager.Sweep` | internal/borrow/manager.go:162-175 | Purging while listing changes no live balance |
| `BorrowManager.Manager.AllBorrowed` | internal/borrow/manager.go:158-189 | Exactly the positive balances of the history without a limit; with one, that many, each at least as large as any left out |
| `BorrowManager.Manager.Reset` | internal/borrow/manager.go:191-199 | The key is worth nothing afterwards at any time |
| `BorrowManager.Manager.EvictKeys` | internal/borrow/manager.go:201-219 | Grouped by shard, exactly the named keys lose their balance |
| `Varint.ZigzagMeans` | internal/sketch/compress.go:97-99 | The shifted and masked word is twice a nonnegative number, and one less than twice the size of a negative one |
| `Varint.ZigzagRoundTrip` | internal/sketch/compress.go:97-103 | Decoding undoes encoding for every signed 64-bit number |
| `Varint.ZigzagOnto` | internal/sketch/compress.go:97-103 | Encoding undoes decoding for every unsigned 64-bit number |
| `Varint.ReadWhatWasPut` | internal/sketch/compress.go:39-40 | A varint is read back wherever it stands, with the bytes it took, whatever follows it |
| `Varint.PutFits` | internal/sketch/compress.go:21-21 | A 64-bit number takes between one and ten bytes |
| `Varint.PutExample` | internal/sketch/compress.go:21-41 | 300 is written as the bytes 172 and 2 |
| `Varint.ReadUvarint` | internal/sketch/compress.go:70-73 | What is read is a 64-bit number and took at most ten bytes of the input |
| `Varint.ReadAgain` | internal/sketch/compress.go:39-73 | A varint that was read would be written the same if it is minimal, and shorter otherwise |
| `Words.DigitOfBig` | internal/sketch/cms.go:102-109 | Byte i of n is the digit of the number in base 256 at place n - 1 - i, the most significant first |
| `Codec.HeaderExample` | internal/sketch/cms.go:96-104 | The header of four rows of 256 cells with seed 42, byte by byte |
| `Codec.HeaderSays` | internal/sketch/cms.go:100-104 | Width, depth and seed are read back from a header, and it passes the checks |
| `Codec.HeaderOnly` | internal/sketch/cms.go:120-129 | A header that passes the checks is the only one that says what it says |
| `Codec.TableRead` | internal/sketch/cms.go:137-143 | The cells are read back from the bytes of a table |
| `Codec.TableReadBack` | internal/sketch/cms.go:106-112 | Writing cells that were read gives the bytes they were read from |
| `Codec.DifferenceUndone` | internal/sketch/compress.go:30-36 | Adding a wrapped difference to the previous cell gives the cell, however far apart they are |
| `Codec.PackTableSize` | internal/sketch/compress.go:24-42 | Every cell takes between one and ten bytes |
| `Codec.CodecRoundTrip` | internal/sketch/compress.go:9-95 | For every table of arbitrary 64-bit cells, decompressing the compressed image gives the image, whose compressed length is between 19 plus one and 19 plus ten bytes a cell |
| `Codec.RepackIff` | internal/sketch/compress.go:9-95 | Compressing what was decompressed gives the input back if and only if all its varints were minimal, and is shorter otherwise |
| `Codec.PaddedExample` | internal/sketch/compress.go:46-95 | A zero written in two bytes is accepted although it is not minimal |
| `Compressor.SignedDifference` | internal/sketch/compress.go:30-36 | The difference of signed words that the code takes is the wrapped difference of the cells |
| `Compressor.CompressRow` | internal/sketch/compress.go:24-42 | One row of cells is appended in packed form, the first against zero |
| `Compressor.Compress` | internal/sketch/compress.go:9-44 | The nested loops compute the packed form, and data shorter than a header is returned as it is |
| `Compressor.DecompressRow` | internal/sketch/compress.go:67-89 | Either the row's cells are written in place after what was there, or the failing column and its cause are reported |
| `Compressor.Decompress` | internal/sketch/compress.go:46-95 | For every input the plain form or the first error in the order of the checks: too short, magic, version, varint with its row and column, trailing bytes |
| `Sketches.SeedsExample` | internal/sketch/cms.go:25-38 | The seeds of four rows above base seed 42, as numbers |
| `Sketches.NextSeed` | internal/sketch/cms.go:25-38 | The first seed is the base, and each further one the one before plus the golden ratio, wrapped |
| `Sketches.EstimateIsMinimum` | internal/sketch/cms.go:56-66 | A query is a lower bound of the key's cells, and one of them if there is a row |
| `Sketches.AddExtends` | internal/sketch/cms.go:49-54 | Adding keeps a sketch exactly the sketch of its additions, with 64-bit wrap |
| `Sketches.QueryBounds` | internal/sketch/cms.go:49-66 | Without overflow every cell is the sum of what was added to the keys that hash there, a query is at least the true count and at most the total, and it is exact if and only if in some row no other key was added to the same cell |
| `Sketches.RowConservation` | internal/sketch/cms.go:49-54 | Without overflow the cells of each row add up to everything that was added |
| `Sketches.MergeSumConcatenates` | internal/sketch/merge.go:31-32 | The sum of two sketches is the sketch of both sequences of additions, with overflow or without |
| `Sketches.MergeMinQuery` | internal/sketch/merge.go:27-30 | Merged by minimum, every query is exactly the smaller of the two |
| `Sketches.MergeMaxQuery` | internal/sketch/merge.go:23-26 | Merged by maximum, every query is at least the larger of the two |
| `Sketches.MergeMaxBounds` | internal/sketch/merge.go:23-26 | Merged by maximum, the sketches of two runs underestimate neither and exceed neither total |
| `Sketches.MergeReplaceIsSource` | internal/sketch/merge.go:33-34 | Replacing leaves the source's cells |
| `ConcurrentAdds.RowsAreExact` | internal/sketch/cms.go:49-54 | With the atomic additions of many goroutines interleaved in any way, each row is at any moment the row of the sketch of what has reached it |
| `ConcurrentAdds.InterleavingIsExact` | internal/sketch/cms.go:49-54 | Once all additions have reached every row, in whatever order, the table is the sketch of them, with overflow or without |
| `ConcurrentAdds.QueryMeanwhile` | internal/sketch/cms.go:49-66 | In the middle of an interleaving a query is at least what was completely added to its key, and at most all that has reached any one row |
| `CountMin.CountMinSketch.constructor` | internal/sketch/cms.go:25-38 | All cells zero: the sketch of no additions, with each row's seed derived from the base seed |
| `CountMin.CountMinSketch.Add` | internal/sketch/cms.go:49-54 | If the table was the sketch of some additions, it is now the sketch of one more |
| `CountMin.CountMinSketch.Query` | internal/sketch/cms.go:56-66 | The loop finds the smallest of the key's cells, all ones if there are no rows |
| `CountMin.CountMinSketch.Reset` | internal/sketch/cms.go:68-74 | Back to the sketch of no additions |
| `CountMin.CountMinSketch.Clone` | internal/sketch/cms.go:76-90 | A sketch on its own memory with the same seeds and cells |
| `CountMin.CountMinSketch.Merge` | internal/sketch/merge.go:14-38 | Cell by cell in place, also into itself; refused exactly for different dimensions, and then without effect |
| `CountMin.CountMinSketch.Marshal` | internal/sketch/cms.go:96-114 | Header and all cells, row by row, big-endian |
| `CountMin.Unmarshal` | internal/sketch/cms.go:116-145 | The first failing check is reported; otherwise a sketch with the derived seeds and exactly the cells in the data, ignoring further bytes |
| `CountMin.Ship` | internal/sketch/compress_test.go:5-34 | Marshalling, compressing, decompressing and unmarshalling gives the same seeds and the same answer to every query, and bounds the compressed size |

## Left out

* Redis itself, script loading and the NOSCRIPT fallback, gRPC, dialing, membership, heartbeat, metrics, logging, options, the example server and the benchmark: a script is one atomic step, and a call is delivered, lost, or delivered with its answer lost.
* The script's borrowed counter and its expiry, `GetState`, `EnsureConfig`, `DeleteBorrowedKeys`: nothing on the request path reads them.
* Lua numbers: pool and limit are integers, so a limit that a double cannot hold exactly is not modelled.
* Floating point: the moving averages, velocities and predictions are reals, and the reserved minimum is the number the code computes from its option.
* The hash functions: any function into the shards, and any 64-bit hash for the sketch.
* Bucket locks and the pre-borrow mark in `Goroutines`: they only rule interleavings out, so what is proved of all runs there holds for more runs than the code has; the runs that `WindowLimit` exhibits are requests played one after the other, which wait for no lock.
* More than one key in the token protocol: keys share only the size statistics, so borrow sizes are arguments there, and so is the ranking of peers.
* The order in which `AllowN` reads the clock more than once: the atomic request in `Fleet` reads one time; `Goroutines` reads a new one at every reset.
* Buckets dropped by eviction in `Fleet`: the object is used again when the instance comes back, after it is put in the state of a new one; `Protocol` and `Goroutines` keep the dropped bucket as one of its own.
* The meaning of the bypass flag while requests interleave, and the leak bound with background borrows: the flag is stated for requests and background borrows that run one after the other, the leak bound for requests and evictions alone.
* The moment at which a request sees that it should borrow ahead: starting a background borrow is a step of its own, which may follow any other.
* `EffectiveLimit` and sliding windows: not on the request path.
* Windows under a millisecond, negative `k` for `TopK`, and input to `Compress` that is shorter than its header says: the code panics there.
* `EMAPredictiveRouter` sharding, its key eviction, and a router without a gossiper: the maps are those of one shard.
* Gossip requests that overtake one another on the way: rounds to one peer follow each other.
* The goroutine per gossip request, and reading the consumed counters of many buckets at once: a snapshot is an argument.
* `Close`, the fake clock, the janitor's ticker and defaulting of timeouts: easy members only.
* BorrowManager.Manager.Acquire: the lease balance is an unbounded number, so the wrap of a balance past 64 bits is not stated.
* Buckets.Bucket.TryConsume: one atomic step; the compare-and-swap loop around it is not modelled.
* EmaRouter.Router.Decide: the ranking it asks for is an argument; `EmaRouter.Router.DecideFrom` supplies it.
* CountMin.CountMinSketch.Add: one caller at a time; interleaved callers are in `ConcurrentAdds`, on values. A query or a merge whose own loads interleave with additions is not modelled.
