# Stratum bridge verification model

A Dafny model of the decision logic of a Stratum mining bridge with AuxPoW merged mining: one
Kaspa parent commits to a ZKas block hash (`H_fc`) in its coinbase, miners search one nonce for
both chains, and the bridge builds proofs, publishes jobs, judges and settles shares, tunes
difficulty and limits abuse. Sockets, RPC answers, clocks and hash functions are parameters, so
every statement holds for all of them.

Code that changes state in place is a class or a loop proved against a specification function;
code that runs concurrently (job producers, settlement, vardiff registration) is a state machine
whose steps are the critical sections of the program, and its theorems quantify over every
interleaving.

| file | component |
|---|---|
| `Merkle.dfy` | coinbase Merkle branch and aux block assembly |
| `MergedPending.dfy` | the claim-once store of pending ZKas blocks |
| `Settlement.dfy`, `Delivery.dfy` | concurrent settlement of network solutions, and what the node receives |
| `JobRing.dfy`, `JobPublication.dfy` | the 300-slot job ring and its three concurrent producers |
| `CompatSearch.dfy` | the backward job search of a submission |
| `SubmitGuards.dfy`, `MarkOrder.dfy` | the two TTL and capacity bounded dedup guards |
| `Vardiff.dfy`, `VardiffClamp.dfy`, `VardiffRegistry.dfy` | the difficulty controller and its reference counts |
| `FeeWindow.dfy` | the per-lane pool fee minute |
| `AntiAbuse.dfy` | token bucket and connection tickets |
| `Framing.dfy` | splitting the byte stream into lines |
| `Codecs.dfy`, `NonceSpaces.dfy`, `NonceWalk.dfy` | job encodings, extranonce prefixes, internal miner walk |
| `Options.dfy`, `Powers.dfy`, `Sequences.dfy` | shared vocabulary |

## What does not hold, and exactly when it does

- With the power-of-two clamp the vardiff controller settles from a power of two, over whatever
  windows, exactly when the ideal difficulty lies in no band `[1.25, 1.5] * 2^k` with `k >= 6`
  (`VardiffClamp.ClampedSettlesIff`); from any other difficulty `d` it also settles when `d` already
  lies in the dead band, `0.75 < ideal / d < 1.25` (`VardiffClamp.ClampedSettlesFromAnywhereIff`). In the band of
  `2^k` it alternates between `2^k` and `2^(k+1)` (`VardiffClamp.AlternatesForEver`).
- A prune leaves every pending activation attached to its entry exactly when none stands between
  its lookup and its count on an entry idle for an hour (`VardiffRegistry.PruneConservesIffSafe`).
  From every consistent state, exactly the unsafe prunes let an activation end with a registered
  connection that has no entry (`VardiffRegistry.UnsafePruneLosesTheConnection`).
- An entry of the anti-abuse table exists exactly while a ticket does, in every run, exactly when
  `max_conn_per_ip >= 1` (or nothing can be tracked); a struct literal, unlike
  `AntiAbuseConfig::new`, can hold zero (`AntiAbuse.TicketsConservedIff`).
- Burst plus rate times elapsed time bounds the admitted frames, whatever rate, burst and bucket,
  exactly for clock readings that never decrease (`AntiAbuse.ElapsedBoundIff`). An address that is
  dropped and tracked again gets a burst each time, and that is all it gets
  (`AntiAbuse.BurstPerTracking`, attained by `AntiAbuse.ReconnectRestoresTheBurst`).
- A stream is accepted under every split into reads exactly when a full 1024-byte read fits at
  every offset (`Framing.AlwaysAcceptedIff`).
- A submitted nonce is confined to its connection's extranonce range exactly when it has at most
  twelve digits (`NonceSpaces.RangeIsKeptIffShort`).
- The internal miner's walks are disjoint exactly when the thread count is coprime to
  1,000,000,007 (`NonceWalk.WalksAreDisjointIff`).
- The queue of `BlockSubmitGuard` lists each held hash once in every state of a run exactly when no
  removal hits a hash still held (`MarkOrder.TightThroughoutIff`). Then marks are forgotten oldest
  first (`MarkOrder.ForgetsOldestFirst`, `MarkOrder.QueueIsOrderOfMarks`); a stale entry lets a prune
  evict a newer mark before an older one, in some run at every capacity from two on
  (`MarkOrder.SomeRunEvictsTheNewer`).
- Over every run each parent-only job repeats the commitment of the job before it exactly when every
  refreshed carrier that was stored commits to what the node had been asked for
  (`JobPublication.ChainKeptIff`); the bridge compares the latest job with the one it started from,
  not the refreshed carrier, and `JobPublication.DishonestNodeBreaksTheChain` is a run that breaks it.

## Model

| member | source | states |
|---|---|---|
| Merkle.CoinbaseMerkleBranch | bridge-src/bridge/src/merged.rs:40-66 | for every number of transactions the loop's branch has length ceil(log2 n), is exactly the right siblings of the coinbase path, and folds the coinbase hash to the root of the padded tree |
| Merkle.NextLevel | bridge-src/bridge/src/merged.rs:55-61 | one pass turns the roots of all height-j subtrees into those of height j+1 |
| Merkle.ClimbOneLevel | bridge-src/bridge/src/merged.rs:50-64 | one iteration keeps the fold of the branch equal to the leftmost node of the level |
| Merkle.TreeHeight | bridge-src/bridge/src/merged.rs:40-45 | the least exponent whose power of two reaches the transaction count |
| Merkle.ProofBindsCoinbase | bridge-src/bridge/src/merged.rs:30-39 | two proofs of equal depth with one root agree on coinbase and branch, or exhibit a hash collision |
| Merkle.AssembleAuxBlock | bridge-src/bridge/src/merged.rs:97-103 | the assembled proof passes inclusion iff the parent header carries the root of its own transactions; the ZKas header and transactions are carried unchanged |
| Pending.InsertKeepsValid | bridge-src/bridge/src/merged.rs:138-156 | an insert keeps queue, map, solved and fee sets consistent and within capacity, and the inserted key survives |
| Pending.MergedPending.InsertWithPayee | bridge-src/bridge/src/merged.rs:138-156 | the in-place maps, sets and deque follow the specification of an insert, eviction included |
| Pending.MergedPending.Insert | bridge-src/bridge/src/merged.rs:132-134 | an insert without payee records the miner as payee |
| Pending.MergedPending.PaidPool | bridge-src/bridge/src/merged.rs:161-163 | an unknown key answers false: it is never credited to the pool |
| Pending.MergedPending.Get | bridge-src/bridge/src/merged.rs:165-167 | returns the block stored for a held key and nothing otherwise |
| Pending.MergedPending.ClaimSolution | bridge-src/bridge/src/merged.rs:169-171 | true iff the key is held and not yet solved, which is exactly when the store changes |
| Pending.MergedPending.IsUnsolved | bridge-src/bridge/src/merged.rs:173-175 | true iff a claim of the key now would win, that is, change the store |
| Pending.SolvedMeansClaimed | bridge-src/bridge/src/merged.rs:128-176 | in every run a key is solved iff some claim won it and it has been held ever since |
| Pending.ClaimWinsOncePerLifetime | bridge-src/bridge/src/merged.rs:169-171 | in every run a claim wins iff the key is held and no earlier winner still stands |
| Pending.WinsAreSeparatedByEviction | bridge-src/bridge/src/merged.rs:138-171 | two wins of one key are separated by a state without it |
| Pending.AttributionFollowsTemplate | bridge-src/bridge/src/merged.rs:138-167 | in every run a held key reports block and payee flag of its latest insert, an unknown key is never credited to the pool |
| Pending.HoldsTheLastAdmitted | bridge-src/bridge/src/merged.rs:128-156 | the store is a FIFO window: exactly the last `cap` newly admitted keys, in order |
| Pending.RunExists | bridge-src/bridge/src/merged.rs:128-176 | every sequence of operations has a run and every state of it is consistent |
| Settlement.KaspaLegFirstAndOnce | bridge-src/bridge/src/share_handler.rs:211-223 | in every interleaving a submission runs the Kaspa leg at most once, everything else it does comes later in the log, and it claims only if it clears the ZKas target |
| Settlement.WholeLife | bridge-src/bridge/src/share_handler.rs:211-223 | in every interleaving the complete event trace of a submission is the one its phase prescribes: Kaspa leg, then its own claim, then its ZKas submission |
| Settlement.OneWinPerLifetime | bridge-src/bridge/src/kaspaapi.rs:730-738 | each `H_fc` wins at most one claim between an insertion and its eviction, over all concurrent submissions |
| Settlement.AtMostOneSubmitPerLifetime | bridge-src/bridge/src/share_handler.rs:892-971 | every ZKas submission is preceded by the won claim of the same submission and happens once; two submissions of one `H_fc` have an eviction of it between their two wins |
| Settlement.StoreMovesOnlyByTemplateOrWin | bridge-src/bridge/src/share_handler.rs:892-971 | the pending store changes only at a template or at a won claim, which marks its own key only |
| Delivery.SecondCallNeedsBothGates | bridge-src/bridge/src/kaspaapi.rs:818-918 | in every interleaving the node is called twice with one ZKas block only by two submissions, with an eviction of the block between their won claims, and after the guard's hold ended: forgotten, or a call with the hash failed |
| Delivery.SecondCallNeedsAFailedOne | bridge-src/bridge/src/kaspaapi.rs:839-918 | within the TTL of the first call and the guard's capacity, only a failed call lets the node be called again with the same hash |
| Delivery.GuardedKeepsOk | bridge-src/bridge/src/kaspaapi.rs:839-918 | marking and taking back a mark keep each guard operation owned by a submission past its claim, one mark each, and each removal behind a failed call |
| JobRing.AppendRefines | bridge-src/bridge/src/mining_state.rs:56-81 | overwriting one slot of the three tables is an append to the unbounded history restricted to its last 300 entries |
| JobRing.MiningState.AddJob | bridge-src/bridge/src/mining_state.rs:56-81 | the job gets the next id and carries the difficulty held at that moment |
| JobRing.MiningState.GetJob | bridge-src/bridge/src/mining_state.rs:87-95 | exactly the job added under the id while it is among the last 300, never a newer one in its slot |
| JobRing.MiningState.GetJobDiff | bridge-src/bridge/src/mining_state.rs:171-177 | the difficulty held when exactly that job was added |
| JobRing.MiningState.LatestJob | bridge-src/bridge/src/mining_state.rs:165-168 | the last job added, found as the maximum stored id |
| JobPublication.NotifyIdsIncrease | bridge-src/bridge/src/client_handler.rs:413-683 | in every interleaving of the producers the notified ids strictly increase |
| JobPublication.CommitmentChangesOnlyAtTemplates | bridge-src/bridge/src/client_handler.rs:1028-1118 | with an honest node, two stored jobs with different `H_fc` have a full build between them |
| JobPublication.ParentOnlyKeepsCommitment | bridge-src/bridge/src/client_handler.rs:1046-1118 | with an honest node, every published parent-only job commits to the `H_fc` of the job right before it |
| JobPublication.ParentJobsAreSpaced | bridge-src/bridge/src/stratum_context.rs:183-198 | two published parent-only jobs are at least the later one's minimum interval apart |
| JobPublication.OneRefreshInFlight | bridge-src/bridge/src/stratum_context.rs:175-194 | at most one refresh holds the gate and at most one producer builds a job |
| JobPublication.StepKeepsGuards | bridge-src/bridge/src/stratum_context.rs:175-194 | every step keeps lock and permit held by exactly the producer whose program point says so |
| JobPublication.StepKeepsOrder | bridge-src/bridge/src/client_handler.rs:686-996 | every step keeps ids and kinds of history and log consistent |
| JobPublication.StepKeepsCommitments | bridge-src/bridge/src/client_handler.rs:1046-1118 | every step with an honest answer keeps each parent-only job on the commitment before it |
| JobPublication.ChainKeptIff | bridge-src/bridge/src/client_handler.rs:1046-1118 | over every run each parent-only job commits to the `H_fc` of the job before it iff every stored carrier commits to what was asked for |
| JobPublication.DishonestNodeBreaksTheChain | bridge-src/bridge/src/client_handler.rs:1046-1118 | a run that answers a refresh with another `H_fc` ends with a broken chain |
| JobPublication.StoringKeepsChainIff | bridge-src/bridge/src/client_handler.rs:1064-1080 | storing a refreshed carrier keeps the chain of commitments iff the carrier commits to what was asked for |
| JobPublication.StepKeepsPace | bridge-src/bridge/src/client_handler.rs:1028-1118 | every step keeps published parent-only jobs spaced |
| CompatSearch.StartJob | bridge-src/bridge/src/share_handler.rs:586-631 | the submitted job while retained, else the newest stored one, nothing on an empty ring |
| CompatSearch.DiffFor | bridge-src/bridge/src/share_handler.rs:1320-1322 | the difficulty recorded with the job, else the connection's current one |
| CompatSearch.WalkBack | bridge-src/bridge/src/share_handler.rs:719-1419 | the loop stops at the newest job of the window that is worth something, or exhausts the window |
| CompatSearch.Search | bridge-src/bridge/src/share_handler.rs:588-1419 | the same from the submitted id, including the empty ring |
| CompatSearch.NewestMatchingJobIsCredited | bridge-src/bridge/src/share_handler.rs:719-729 | without a network hit the newest retained job of id..id-7 whose recorded target is met is credited, low difficulty iff there is none, at most eight evaluations |
| CompatSearch.NoWrapWithinWindow | bridge-src/bridge/src/share_handler.rs:1320-1419 | the loop's wrap-around test cannot fire within eight steps of a 300-slot ring |
| SubmitGuards.PrunedIsTail | bridge-src/bridge/src/share_handler.rs:242-264 | pruning forgets exactly a prefix of the queue: the leading expired keys and whatever exceeds capacity |
| SubmitGuards.RunIsBounded | bridge-src/bridge/src/share_handler.rs:237-287 | in every run the queue lists the held keys once each, at most `max_entries + 1` |
| SubmitGuards.DuplicateSubmitGuard.Prune | bridge-src/bridge/src/share_handler.rs:242-264 | the two in-place loops compute the specified prune |
| SubmitGuards.DuplicateSubmitGuard.Get | bridge-src/bridge/src/share_handler.rs:266-269 | prunes, then answers the stored outcome of a held key |
| SubmitGuards.DuplicateSubmitGuard.InsertInFlightKey | bridge-src/bridge/src/share_handler.rs:271-278 | claims a key once, keeping the bound |
| SubmitGuards.DuplicateSubmitGuard.RecordOutcome | bridge-src/bridge/src/share_handler.rs:280-286 | restamps a held key without reordering it |
| SubmitGuards.DuplicateIsReplayed | bridge-src/bridge/src/share_handler.rs:678-714 | within the TTL and fewer than `max_entries` newly processed submissions a repetition gets the last recorded outcome and is not processed again |
| SubmitGuards.HeldKeyReplaysItsLastOutcome | bridge-src/bridge/src/share_handler.rs:678-714 | in every run, whatever the readings, a submission that is not processed gets the outcome last recorded since its key was last processed |
| SubmitGuards.PruneForgetsOnly | bridge-src/bridge/src/kaspaapi.rs:150-172 | a held hash is forgotten only when expired or over capacity, and pruning restores the capacity |
| SubmitGuards.BlockSubmitGuard.Prune | bridge-src/bridge/src/kaspaapi.rs:150-172 | the in-place loops compute the specified prune |
| SubmitGuards.BlockSubmitGuard.TryMark | bridge-src/bridge/src/kaspaapi.rs:174-182 | wins iff the hash is not held after pruning |
| SubmitGuards.BlockSubmitGuard.RemoveHash | bridge-src/bridge/src/kaspaapi.rs:184-187 | releases the hash, leaving its queue entry |
| SubmitGuards.SecondMarkNeedsRelease | bridge-src/bridge/src/kaspaapi.rs:138-188 | in every run a hash is marked twice only if its own hold ended in between: it was removed, or a prune forgot it after expiry or over capacity |
| SubmitGuards.RemovalLeavesStaleCopy | bridge-src/bridge/src/kaspaapi.rs:184-187 | from a queue without stale entries, a removal leaves none iff there was nothing to remove |
| MarkOrder.TightThroughoutIff | bridge-src/bridge/src/kaspaapi.rs:138-188 | over every run the queue lists each held hash exactly once in every state iff no removal hits a hash still held |
| MarkOrder.ForgetsOldestFirst | bridge-src/bridge/src/kaspaapi.rs:150-172 | without stale entries pruning forgets marks oldest first |
| MarkOrder.QueueIsOrderOfMarks | bridge-src/bridge/src/kaspaapi.rs:150-182 | over every run the queue is the tail of the list of winning markings, in their order |
| MarkOrder.SecondMarkWithinWindow | bridge-src/bridge/src/kaspaapi.rs:150-187 | while readings stay within the TTL of a mark and the guard within its capacity, the hash is marked again only after a removal of it |
| MarkOrder.StaleFrontIsEvicted | bridge-src/bridge/src/kaspaapi.rs:165-171 | for every TTL and capacity, a guard one over capacity with a fresh front hash queued again behind forgets exactly that hash |
| MarkOrder.StaleCopyEvictsTheNewer | bridge-src/bridge/src/kaspaapi.rs:150-187 | for every TTL, every capacity from two on and any distinct hashes, a run reaches a state whose next prune evicts the newer of two marks and keeps the older |
| MarkOrder.SomeRunEvictsTheNewer | bridge-src/bridge/src/kaspaapi.rs:150-187 | so such a run exists for every guard with room for two |
| Vardiff.MinerRatio | bridge-src/bridge/src/share_handler.rs:109-110 | a miner whose share rate is inverse to difficulty is observed at ideal/difficulty |
| Vardiff.AdjustmentApproachesTarget | bridge-src/bridge/src/share_handler.rs:82-132 | clamp off: an adjustment happens iff not settled, and moves observed/expected strictly towards 1 without reaching it, by at least 10%, never below 64 |
| Vardiff.AdjustmentsAreFinite | bridge-src/bridge/src/share_handler.rs:82-132 | clamp off: successive adjustments all go one way and their number is bounded by the starting distance over 6.4 |
| Vardiff.SettlesInTime | bridge-src/bridge/src/share_handler.rs:82-132 | clamp off: after more judged windows than the starting distance over 6.4 the difficulty is in the dead band or within 10% of the floor |
| VardiffClamp.ClampOscillates | bridge-src/bridge/src/share_handler.rs:72-80 | clamp on: two neighbouring powers lead to each other iff the ideal difficulty is in [1.25, 1.5] times the lower |
| VardiffClamp.ClampedStep | bridge-src/bridge/src/share_handler.rs:82-132 | clamp on: the verdict of every judged window at a power of two: half, rest, double, or a leap that stays at most the ideal difficulty |
| VardiffClamp.ClampedSettlesIff | bridge-src/bridge/src/share_handler.rs:72-132 | clamp on, from a power of two: the length of all chains of adjustments, over whatever windows, is bounded iff the ideal difficulty is in no band [1.25, 1.5] * 2^k |
| VardiffClamp.ClampedSettlesFromAnywhereIff | bridge-src/bridge/src/share_handler.rs:72-132 | the same from any difficulty from 64 on: iff in no band, or the start already lies in the dead band |
| VardiffClamp.FirstVerdictInBand | bridge-src/bridge/src/share_handler.rs:104-132 | in a band the first judged window changes nothing iff 0.75 < ideal / difficulty < 1.25 |
| VardiffClamp.AlternatesForEver | bridge-src/bridge/src/share_handler.rs:72-132 | in the band of 2^k every chain from 2^k alternates between 2^k and 2^(k+1) |
| VardiffClamp.PowCeilIsLeast | bridge-src/bridge/src/share_handler.rs:72-80 | rounding up gives the least power of two at least the argument |
| VardiffClamp.PowFloorIsGreatest | bridge-src/bridge/src/share_handler.rs:72-80 | rounding down gives the greatest power of two at most the argument |
| Vardiff.ClampBetweenPowers | bridge-src/bridge/src/share_handler.rs:72-80 | rounding between two neighbouring powers gives the upper or the lower one |
| Vardiff.SilentMinerReachesFloor | bridge-src/bridge/src/share_handler.rs:90-99 | a silent miner seeded at 64 * 2^k reaches 64 in exactly k ticks and rests there, with or without clamp |
| Vardiff.SilentMinerReachesFloorFrom | bridge-src/bridge/src/share_handler.rs:90-99 | clamp off: from any seed d the number of halving ticks to the floor is the least k with d <= 64 * 2^k, and there it rests |
| VardiffRegistry.StepConserves | bridge-src/bridge/src/share_handler.rs:432-459 | every critical section keeps each entry's counter equal to the connections counted in it |
| VardiffRegistry.PruneKeepsLiveEntries | bridge-src/bridge/src/share_handler.rs:198-200 | a prune never drops an entry a connection is counted in |
| VardiffRegistry.PruneConservesIffSafe | bridge-src/bridge/src/share_handler.rs:1551-1581 | a prune keeps counts right and every pending activation attached to its entry iff none holds an entry idle for an hour |
| VardiffRegistry.ActiveCountsRegistered | bridge-src/bridge/src/default_client.rs:289-298 | over every run with safe prunes, while no connection of a key is half way through a call, `active_connections` equals the connections registered under it and its entry exists if there are any |
| VardiffRegistry.UnsafePruneLosesTheConnection | bridge-src/bridge/src/share_handler.rs:432-447 | from every consistent state, a prune followed by the rest of a pending activation leaves a registered connection without entry iff the prune is unsafe |
| VardiffRegistry.PruneCanLoseAConnection | bridge-src/bridge/src/share_handler.rs:432-447 | a run from the empty state reaches such an unsafe prune |
| FeeWindow.XorShiftInverse | bridge-src/bridge/src/merged.rs:270-272 | a xor-shift by at least a third of the word is undone on both sides |
| FeeWindow.MulInverse | bridge-src/bridge/src/merged.rs:270-271 | wrapping multiplication by an invertible constant is undone by its inverse |
| FeeWindow.MixIsBijective | bridge-src/bridge/src/merged.rs:266-272 | the lane mix is a bijection on 64-bit words, both directions |
| FeeWindow.StartMinutesAreEquidistributed | bridge-src/bridge/src/merged.rs:266-275 | over all 2^64 lanes start minutes 0..15 have one lane more than 16..59, counts exact |
| FeeWindow.EveryLanePaysExactly | bridge-src/bridge/src/merged.rs:245-276 | every lane has exactly the configured number of distinct fee minutes, for any constant |
| FeeWindow.OneMinutePerHour | bridge-src/bridge/src/merged.rs:247-275 | with the shipped constant the fee minute is the start minute and no other |
| AntiAbuse.TokensStayInRange | bridge-src/bridge/src/anti_abuse.rs:234-245 | tokens stay in [0, burst] and one frame costs one token of what was held and earned |
| AntiAbuse.WindowBound | bridge-src/bridge/src/anti_abuse.rs:234-245 | any window of calls admits at most burst + rate * forward clock movement inside it |
| AntiAbuse.ForwardAtLeast | bridge-src/bridge/src/anti_abuse.rs:234-238 | forward movement equals elapsed time iff readings never decrease |
| AntiAbuse.MonotoneWindowBound | bridge-src/bridge/src/anti_abuse.rs:234-245 | with readings that never decrease the bound is burst + rate * (t - s) |
| AntiAbuse.BackwardClockRefillsAgain | bridge-src/bridge/src/anti_abuse.rs:234-238 | for any readings that step back, some rate, burst and bucket admit more than burst + rate * elapsed |
| AntiAbuse.ElapsedBoundIff | bridge-src/bridge/src/anti_abuse.rs:234-245 | the bound burst + rate * (t - s) holds for every configuration and bucket iff the readings never decrease |
| AntiAbuse.AntiAbuseGuard.TryAcceptConnection | bridge-src/bridge/src/anti_abuse.rs:294-307 | accepts or rejects with the reported reason and moves table and tickets as specified |
| AntiAbuse.AntiAbuseGuard.TryConsumeFrame | bridge-src/bridge/src/anti_abuse.rs:312-318 | untracked addresses are rejected, tracked ones pay from their bucket only |
| AntiAbuse.AntiAbuseGuard.Release | bridge-src/bridge/src/anti_abuse.rs:323-331 | a dropped ticket lowers the count and removes the entry at zero |
| AntiAbuse.RunWithinCaps | bridge-src/bridge/src/anti_abuse.rs:294-331 | in every run per-address and address caps hold and tokens stay in range |
| AntiAbuse.RunConserves | bridge-src/bridge/src/anti_abuse.rs:294-358 | in every run counts equal live tickets and entries exist iff tickets do, for a cap of at least one |
| AntiAbuse.TicketsConservedIff | bridge-src/bridge/src/anti_abuse.rs:294-306 | that holds in all runs iff the connection cap is not zero or nothing can be tracked |
| AntiAbuse.TrackedRateLimit | bridge-src/bridge/src/anti_abuse.rs:234-331 | while an address stays tracked, any stretch of any run passes at most burst + rate * elapsed frames of it |
| AntiAbuse.BurstPerTracking | bridge-src/bridge/src/anti_abuse.rs:234-331 | whatever an address does, any stretch of any run passes at most one burst per time it is tracked plus rate * forward clock movement |
| AntiAbuse.ReconnectRestoresTheBurst | bridge-src/bridge/src/anti_abuse.rs:323-331 | for every burst of at least n frames, connecting k times passes k * n frames at one instant: the bound is attained |
| Framing.FirstNewline | bridge-src/bridge/src/stratum_listener.rs:543 | the position of the first newline |
| Framing.LineReader.AppendLineData | bridge-src/bridge/src/stratum_listener.rs:33-39 | appends iff the 64 KiB cap is kept, else leaves the buffer unchanged |
| Framing.LineReader.ProcessLines | bridge-src/bridge/src/stratum_listener.rs:543-547 | takes exactly the complete non-empty trimmed lines and leaves the unfinished tail |
| Framing.LineReader.Receive | bridge-src/bridge/src/stratum_listener.rs:375-550 | one read dispatches the lines completed by its NUL-filtered bytes, or overflows and changes nothing |
| Framing.LineReader.Listen | bridge-src/bridge/src/stratum_listener.rs:324-550 | the read loop dispatches what the sequence of reads specifies and stops at the first overflow |
| Framing.LinesOfConcat | bridge-src/bridge/src/stratum_listener.rs:543-547 | lines do not depend on where the text is cut |
| Framing.FramingIgnoresChunking | bridge-src/bridge/src/stratum_listener.rs:375-550 | whatever the accepted reads, lines and tail are those of the whole filtered stream, buffer within 64 KiB |
| Framing.AlwaysAcceptedIff | bridge-src/bridge/src/stratum_listener.rs:33-39 | every split is accepted iff a full read fits at every offset |
| Framing.ShortLinesAreFramedExactly | bridge-src/bridge/src/stratum_listener.rs:375-550 | with lines of at most 64 KiB - 1024 bytes every split is accepted and framed identically |
| Codecs.GenerateJobHeader | bridge-src/bridge/src/hasher.rs:253-267 | the loop yields the little-endian words of the complete chunks |
| Codecs.GenerateLargeJobParams | bridge-src/bridge/src/hasher.rs:367-390 | equals the IceRiver encoding of the first 32 bytes, and panics exactly on shorter data |
| Codecs.HexOfBigEndian | bridge-src/bridge/src/hasher.rs:367-390 | printing a big-endian value with two digits a byte prints its bytes |
| Codecs.TimestampIsLittleEndian | bridge-src/bridge/src/hasher.rs:380-389 | the byte swap of the timestamp prints its little-endian bytes |
| Codecs.JobParamsAreInjective | bridge-src/bridge/src/hasher.rs:277-337 | the string has 80 characters and determines hash and timestamp |
| Codecs.ParseNotify | bridge-src/bridge/examples/cpu_stratum_miner.rs:260-278 | accepts exactly the well-formed notifications and fills the 32 bytes the four chunks spell |
| Codecs.DecodeUndoesEncode | bridge-src/bridge/examples/cpu_stratum_miner.rs:260-278 | the miner recovers exactly the job the bridge encoded |
| Codecs.EncodeUndoesDecode | bridge-src/bridge/src/hasher.rs:253-267 | re-encoding a decoded hash gives the four numbers received |
| NonceSpaces.ExtranonceCounter.Assign | bridge-src/bridge/src/client_handler.rs:268-281 | the caller gets the extranonce of its position among all hand-outs |
| NonceSpaces.ExtranoncesRepeatExactly | bridge-src/bridge/src/client_handler.rs:45-281 | two assignments coincide iff a multiple of 65,536 apart; 65,536 consecutive ones are distinct |
| NonceSpaces.PrefixedNonce | bridge-src/bridge/src/share_handler.rs:640-673 | a nonce short enough to be prefixed parses iff hexadecimal, to e * 2^48 plus its value below 2^48 |
| NonceSpaces.RangesAreDisjoint | bridge-src/bridge/src/share_handler.rs:640-673 | connections with different extranonces submit short nonces from disjoint ranges |
| NonceSpaces.RangeIsKeptIffShort | bridge-src/bridge/src/share_handler.rs:653-662 | a nonce is confined to its range iff it has at most twelve digits |
| NonceWalk.MinerThread.Mine | bridge-src/bridge/src/rkstratum_cpu_miner.rs:232-260 | finds the first passing nonce of the work, keeps its position on a hit, and evaluates exactly the nonces from its old position up to there, in order |
| NonceWalk.HitIsFirst | bridge-src/bridge/src/rkstratum_cpu_miner.rs:232-246 | a hit passes and nothing before it, or without one nothing at all, passes |
| NonceWalk.Euclid | bridge-src/bridge/src/rkstratum_cpu_miner.rs:215-246 | Euclid's lemma behind start i * p and step n |
| NonceWalk.WalksAreDisjointIff | bridge-src/bridge/src/rkstratum_cpu_miner.rs:215-246 | the unwrapped walks never meet iff the thread count is coprime to the stride |
| NonceWalk.TriedNoncesAreDisjoint | bridge-src/bridge/src/rkstratum_cpu_miner.rs:206-260 | with a coprime count two threads that have not wrapped have evaluated no nonce in common, across any work updates |

## Left out

- Floating point: difficulties, rates, tokens and clocks are reals; rounding, NaN and infinity checks are not modelled.
- Hashes, PoW values and header hashing are arbitrary functions; kHeavyHash, bech32, JSON and YAML parsing are not part of this model.
- gRPC, sockets, TLS, keepalive, logging, metrics and configuration parsing.
- `calculate_target` and `diff_to_target_standard`: targets are arbitrary functions of the difficulty; the formulas are closed expressions.
- `build_lane_coinbase_tag`, `resolve_coinbase_recipient`, the Kaspa parent cache and the `SharedWork` slot: only the version change they cause is modelled, as a step or a parameter.
- Settlement: the outcome of an RPC enters only through `Delivery`, as the failure that takes a mark back; retries are not modelled.
- Delivery: merged mode only; in solo mode `submit_block` marks the hash of the job's own block, without a pending store.
- JobPublication: the payee of a refreshed parent is not modelled, because the trait implementation does not forward the lane attribution.
- JobRing.MiningState.AddJob: ids are unbounded; wrap-around of the u64 counter is not modelled.
- CompatSearch.WalkBack: the ring is read at one instant; a producer that adds a job during the walk is not interleaved.
- Vardiff.SettlesInTime: windows that are too short to be judged change nothing and are not counted.
- AntiAbuse.ElapsedBoundIff: bounds over all configurations; for one fixed configuration decreasing readings need not exceed the bound.
- VardiffRegistry.ActiveCountsRegistered: at most 2^32 - 1 connections at once, the width of the counter.
- Framing.LineReader.Receive: ASCII streams only; UTF-8 sequences cut by a read, HTTP sniffing of lines, the frame limiter's disconnect and the idle timeout are not modelled.
- NonceSpaces.ExtranonceCounter.Assign: the switch that gives some miners an empty extranonce; an empty one is modelled in `FinalNonce`, which then takes the nonce as it is.
- NonceWalk.MinerThread.Mine: throttling, shutdown and the submission channel; the slot's version change is the number of attempts.
- NonceWalk.WalksAreDisjointIff: states coprimality of the thread count and the stride; that the stride is prime is not proved.
