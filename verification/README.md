# A verified model of the stateful cores of a DHCP server

This project models, in Dafny, the parts of the server where state, concurrency or
arithmetic make a mistake easy and expensive, and proves what they promise.

- **Address pools** (`Lease*.dfy`): `plugins/range` and `plugins/range6`. One model
  serves both; `Family` picks the branch where they differ. `LeaseModel` holds the
  state and one function per locked operation, `LeasePlugin` the same operations on
  fields changed in place, `LeaseRecords` the records as objects compared by reference,
  `LeaseOps` the elementary changes every operation is made of, `LeaseSystem` the step
  system (locked sections, the FIFO writer, failures, late undos, sweeps, crashes,
  restarts). `LeaseCrash`, `LeaseTold`, `LeaseKept`, `LeaseOverlap`, `LeaseFailures`,
  `LeaseOrphans`, `LeaseExhaustion`, `LeaseAnswers`, `LeaseProbation`, `LeaseRows`
  and `LeaseStranded` hold the theorems.
- **Dynamic DNS** (`Ddns*.dfy`): the updates, the server that applies them (sections
  3.2 and 3.4 of RFC 2136), the worker over a network that loses, repeats and delays,
  the bounded register, names, reverse zones and transaction signatures.
- **Prefix delegation** (`Prefix*.dfy`): the three-pass matching on slices changed in
  place, the pool, releases and sweeps, tied to the 128-bit index arithmetic.
- **Rate limiter** (`Rate*.dfy`): the intrusive linked table, the token bucket and the
  bounds over runs.
- **Gate** (`Gate.dfy`), **address arithmetic** (`IpCalc.dfy`), **RESP** (`Resp*.dfy`).
- `Wrappers.dfy`, `Arith.dfy` and `Octets.dfy` hold what several of these share.

`dafny verify dfyconfig.toml` checks everything.

## How the model meets the code

- The clock, the order in which a map is walked, the room a non-blocking send finds,
  the results of database statements and the answers of the name server are inputs:
  the theorems hold for every choice of them.
- A database statement that reports an error is taken to have applied nothing.
- A record's identity in memory is a number given out once. The undo of a new lease
  compares it, as the source compares pointers; `LeaseRecords` shows that both decide alike.
- A renewal is made in place and is invisible to that comparison, and a message that
  finds enough time left on the record queues nothing and waits for nothing. So a client
  is asked to be considerate: a message that asks for its binding is taken up when no
  store behind the binding is undecided, or is answered from a record whose undecided
  renewal would fall back far enough; a message that gives the binding up does not cross
  an answer that names it. Nothing is asked of other clients, and nothing at all for the
  partition and the bounds. The guard keeps the accounting over whole runs. For a single
  reply the exact condition is wider, and `LeaseOverlap` states it for every message that
  asks; `LeaseStranded` shows with concrete runs what happens outside it.
- The comment on `renew` says that a renewal which landed after a failed one is not the
  failed one's to shorten. The undo compares seconds, so it is when both renewals round to
  one second: `LeaseStranded.CutBackRun`.
- A failed delete has no undo and leaves its row behind. A failed store leaves a row
  behind exactly when its caller drops the lease while a renewal of it has landed or is
  queued. Either way the lease file can become one the server does not start from.
  `LeaseStranded` has a run for each, `LeaseOrphans` the exact conditions, and
  `LeaseFailures` shows that without these events every crash leaves a file to start from.
- The results about what a client was told and keeps count in whole seconds, in both families.
- The writer takes no lock, but it only removes from the front of the queue what a
  locked section adds at the back, so a locked section is one step.
- The documentation of `Offset` says both addresses are masked first. The code
  subtracts first; `IpCalc.MaskedExactlyWhen` says when the two agree.
- The comment on the TSIG key calls its name lowercase, but the configured name is kept
  as written, the wire form is lowercased, and the owner of an answer is compared as the
  server spelled it; `DdnsTsig.SignedIsAcceptedExactlyWhen` says what follows.
- Lowercasing, trimming and case folding follow Unicode tables in the source. They enter
  as functions: of lowercasing it is asked that it be the plain one on ASCII and leave
  labels it has lowercased alone, of the others nothing. `DdnsName.LowerIsLowercasing` says
  that plain ASCII lowercasing is one.

## Model

| member | source | states |
|---|---|---|
| LeaseSystem.RunsKeepThePartition | plugins/range/plugin.go:334-381 | in every run of messages, sweeps, writer successes and failures, late undos, crashes and restarts, the allocator's taken set is exactly the disjoint union of leased and quarantined addresses, no two clients share an address, the quarantine stays within decline-max, and the table within the larger of max-leases and its size at start-up |
| LeaseSystem.StepKeepsConsistent | plugins/range/plugin.go:237-289 | each single step keeps that, whatever the queue, the clock and the map orders do |
| LeaseSystem.FreshIsConsistent | plugins/range/plugin.go:920-994 | an empty process satisfies it |
| LeaseSystem.UndoKeeps | plugins/range6/plugin.go:617-632 | one late undo keeps the partition and both bounds: it never frees an address a client still holds |
| LeaseSystem.UndosSpareOthers | plugins/range/storage.go:302-324 | undos of other clients' changes leave a client its lease unchanged and its address taken |
| LeaseSystem.ReplayExactly | plugins/range/plugin.go:983-991 | the start-up replay succeeds if and only if the loaded addresses are in the pool and pairwise distinct, and then marks exactly those taken |
| LeaseSystem.RestartKeeps | plugins/range6/plugin.go:1255-1279 | a replay that succeeds gives a table and an allocator in agreement |
| LeaseCrash.RunsAreCrashSafe | plugins/range/storage.go:393-422 | in every run without a failed statement (refusals by a full queue allowed), database plus queue equals the table, and after every prefix of the queue the rows hold one row per client and no address twice |
| LeaseCrash.StepKeepsCrashSafe | plugins/range/plugin.go:512-527 | each step keeps that: a delete is queued before the address can be given to anybody else |
| LeaseCrash.CrashAnywhere | plugins/range/plugin.go:976-991 | a crash with any prefix of the queue on disk: the next start succeeds in any row order, gives each client its address back, and is crash safe again |
| LeaseCrash.ReplayableLoads | plugins/range/storage.go:151-182 | a lease file with one row per client and no shared address loads exactly, whatever the order of rows and of the map |
| LeaseCrash.FreshIsCrashSafe | plugins/range/plugin.go:920-994 | an empty process is crash safe |
| LeaseKept.ToldImpliesStored | plugins/range/plugin.go:250-289 | from any state that accounts for a binding, over every run in which that binding's client is considerate, whatever other clients do and whatever fails: when a reply naming an address goes out within its lifetime, the caller's own undos run, the client holds the address in the table and on disk for at least that long, and the row on disk is the table's unless a further renewal is under way |
| LeaseKept.ToldFromGood | plugins/range6/plugin.go:370-394 | per IA, on the state after the caller has settled: an IA answered with an address, all of whose own writes landed, is bound to it in the table and on disk, whatever became of its siblings |
| LeaseKept.KeptStays | plugins/range/plugin.go:464-527 | from then on, through every run, statements failing, queues full, clients overlapping, the client keeps the address in the table and on disk until the second it was told, unless it gives it up itself; through crashes and restarts too when it has no second row on disk |
| LeaseKept.DependableExactly | plugins/range/plugin.go:366-372 | in a state that accounts for a binding, its client can depend on it in every continuation if and only if every undecided store behind it would fall back to a row that lasts as long |
| LeaseKept.UnwrittenIsUndependable | plugins/range/plugin.go:366-372 | however a client came to be told, it cannot depend on a record whose first store is undecided, or has failed with its caller still to undo it: some continuation drops the record |
| LeaseKept.AnsweredAtOnceExactly | plugins/range/plugin.go:488-492 | a message answered from the record alone, such as a retransmission, can be replied to at once, and that reply is dependable if and only if the client's guard held when it was taken up |
| LeaseOverlap.DependableExactlyWhenSafe | plugins/range/plugin.go:488-510 | a message of any number of IAs that asks for a binding, taken up in an accounted state over whatever store is undecided, answered at once, by a renewal or by a new lease: whenever its reply goes out the client can depend on it, if and only if the undecided store's undo leaves a record that lasts, or the message renews and that undo is a renewal's that looks for another second than the one the message rounds to, or the record had lapsed and is replaced |
| LeaseOverlap.SafeReply | plugins/range/plugin.go:497-503 | the one half: however the run goes on, other messages of the same client included, a safe reply is kept |
| LeaseOverlap.SafeguardedReply | plugins/range/plugin.go:497-503 | in every reachable state, whatever the clients did before and however many stores are undecided: a reply is kept if its message found the binding kept, let go, or with no undecided undo that would take the renewed record below the second told, or below the second stored |
| LeaseOverlap.UnsafeReply | plugins/range/plugin.go:366-372 | the other half: some continuation sends the reply and then takes the binding away, or cuts it below what was told |
| LeaseOverlap.GuardIsSafe | plugins/range/plugin.go:488-510 | the guard asked of considerate clients implies that condition |
| LeaseStranded.CutBackRun | plugins/range/plugin.go:497-503 | a concrete run of two renewals that round to one second: the second lands and its caller is told 13, the first one's undo then cuts the record back to 10 |
| LeaseKept.ToldSurvivesEverything | plugins/range/plugin.go:976-991 | a client told an address in a run in which deletes land and no settling caller leaves a row behind, stores failing as they like, keeps its row on disk until the second it was told, through everything that follows: failing statements, crashes and restarts |
| LeaseKept.NoTwoToldOneAddress | plugins/range/plugin.go:274-276 | while what one client was told still runs and it has not given the address up, no other client is told that address |
| LeaseStranded.OverlapRun | plugins/range/plugin.go:488-492 | a concrete run in which no write fails: a retransmission taken up before the first store is on disk is told the address, its reply waits for nothing, and the lease file is empty |
| LeaseTold.RunsAreGood | plugins/range/storage.go:302-353 | the invariant behind these, for one binding, over every run in which its client is considerate: the binding is on disk, or exactly one undecided store answers for it and says what it would fall back to |
| LeaseTold.RestartGood | plugins/range/plugin.go:976-991 | a process that has come up on any lease file it can start from satisfies it |
| LeaseTold.AtRestIsGood | plugins/range/storage.go:302-335 | so does any state in which the binding's row is on disk, nothing is undecided about it and nobody waits for an answer that names it, whatever went before |
| LeaseTold.OffsetsTile | plugins/range6/plugin.go:370-394 | the from/to offsets of a message's IAs tile its pending writes in order, with no gap and no overlap |
| LeaseTold.DoKeepsGood | plugins/range/plugin.go:334-372 | each change a locked section makes keeps the invariant, unless it renews a binding that is undecided or takes one from a client that is waiting to hear of it |
| LeaseTold.WriterGood | plugins/range/storage.go:428-444 | each write that lands or fails keeps it |
| LeaseTold.SettleGood | plugins/range/storage.go:302-335 | settling with undos in reverse order keeps it |
| LeaseFailures.RunsStayRestartable | plugins/range/storage.go:302-324 | whatever the clients do, in every run in which no delete fails and no settling caller leaves a row behind, stores failing as they like: at every point, whichever of the queued stores land, the lease file has one row per client and no address twice |
| LeaseFailures.ConsiderateNeverStrands | plugins/range/storage.go:302-324 | in runs in which every client is considerate and no delete fails, no settling caller leaves a row behind |
| LeaseFailures.FreshIsOrderly | plugins/range/plugin.go:920-994 | an empty process satisfies the hypotheses of these |
| LeaseOrphans.OrphanedExactly | plugins/range/plugin.go:366-372 | once a caller has settled and the queue has landed, some row has no lease if and only if that caller dropped a lease of which a row was on disk or on its way |
| LeaseOrphans.StrandedIsFree | plugins/range/plugin.go:366-372 | the address of such a row is free for the next client |
| LeaseOrphans.FirstStoreStrandsExactly | plugins/range/plugin.go:366-372 | when the first store of a new lease is the one statement that fails, its caller leaves a row behind if and only if something else was queued for that lease before the caller settled, which only a renewal by an overlapping message can be |
| LeaseExhaustion.RefusedExactlyWhenExhausted | plugins/range/plugin.go:415-429 | with no delete refused by a full queue, allocate fails if and only if the quarantine is empty and every pool address is held by an unexpired lease |
| LeaseExhaustion.EarlyEndIsEarliest | plugins/range/plugin.go:439-457 | a probation that allocation ends early is one with the earliest end time |
| LeaseExhaustion.KnownClientKeepsItsAddress | plugins/range/plugin.go:464-510 | a client that comes back, late or not, keeps its address for at least a full lease time, as long as the queue has room and the table is not over its limit |
| LeaseAnswers.DeclineExactly | plugins/range/plugin.go:578-635 | a decline of a held and named address takes it from its client; where there is a quarantine with room for it, or in V6 one whose earliest entry makes room, the address stays taken and is held back until the clock reading of its family plus the probation, otherwise it is free at once; with no such binding, or the queue full, the pool is as it was and the answer says which |
| LeaseProbation.ProbationHolds | plugins/range/plugin.go:663-677 | over every run without a restart: until its probation ends an address is held back, taken, and leased to nobody, unless some section let it go early when no entry of the quarantine ended before it |
| LeaseAnswers.ReleaseExactly | plugins/range/plugin.go:546-563 | a release frees the address of the client that holds it and names it, and touches nothing else; otherwise the pool is as it was and the answer says why |
| LeaseAnswers.NewClientExactly | plugins/range/plugin.go:334-358 | with room in the queue, a client not known is refused if and only if as many leases run as are allowed or every pool address is held by a running one; otherwise it has a record of its own under the name it gave, on an address nobody else has, expiring at the second (V4 cut, V6 rounded) and queued to be stored |
| LeaseAnswers.FirstChoice | plugins/range6/plugin.go:521-531 | the address is the one asked for (V6) if free, or else the lowest free one |
| LeaseAnswers.KnownClientExactly | plugins/range6/plugin.go:563-575 | with room in the queue, a client with a lease keeps its address: enough time left and nothing changes, too little and it is renewed in place to the nearest second, lapsed and it is given back and leased again; each with exactly its rows queued |
| LeaseAnswers.FullQueueRefuses | plugins/range/plugin.go:504-508 | with the queue full, a lease that needs renewing is left as it was and the client refused |
| LeaseAnswers.StuckLeaseIsRenewed | plugins/range/plugin.go:464-482 | a lapsed lease that cannot be given back because the queue is full stays with its client, and is renewed in place if the next send finds room |
| LeaseAnswers.NothingToExtend | plugins/range6/plugin.go:536-545 | a client that extends what it does not hold is told so, and nothing changes |
| LeaseAnswers.LimitExactly | plugins/range/plugin.go:386-403 | the limit counts leases that still run: what has lapsed is swept before it says no |
| LeaseAnswers.SweepGivesBack | plugins/range/plugin.go:641-684 | a full sweep leaves exactly the leases that run and the probations not over, and exactly their addresses taken |
| LeaseAnswers.SweeperGivesBack | plugins/range/plugin.go:688-700 | the sweeper's step is such a sweep at its own time |
| LeaseAnswers.FreeFails | plugins/range6/plugin.go:858-863 | an address the allocator will not free: V4 keeps the entry and counts nothing, V6 drops it all the same |
| LeaseAnswers.ReleaseFails | plugins/range/plugin.go:518-527 | a lease whose address the allocator will not free: row and record are gone, and the caller is told |
| LeaseAnswers.LastRowWins | plugins/range/storage.go:151-182 | of several rows for one client the last one read is loaded |
| LeaseRows.UndosUnwind | plugins/range/storage.go:302-324 | if every row a section queued fails to be written, its undos, run last one first, leave table and allocator as the section found them, however often it stored for one client |
| LeaseRows.UndosArePending | plugins/range/storage.go:259-278 | and these undos are what the section hands its caller |
| LeaseRows.OrderMatters | plugins/range/storage.go:318-324 | two renewals both failed: last one first is back at the start, the other way round is not |
| LeaseRows.OneRowEachInV6 | plugins/range6/storage.go:137-149 | in V6 no client ever has two rows, over every run, whatever fails |
| LeaseRows.StoredV4 | plugins/range/storage.go:225-240 | in V4 a store touches no row but that of the client at that address |
| LeaseRows.StoredV6 | plugins/range6/storage.go:258-285 | in V6 a store replaces the row the client had, wherever that was |
| LeaseRows.Deleted | plugins/range/storage.go:241-250 | a delete takes out the row of that client at that address and no other |
| LeaseStranded.StartsExactlyWhenDistinct | plugins/range/plugin.go:983-991 | start-up succeeds if and only if the loaded addresses are distinct and in the pool |
| LeaseStranded.LostDeleteRun | plugins/range/storage.go:203-212 | a concrete run with one failed delete, which has no undo, leaves two clients' rows on one address |
| LeaseStranded.LostStoreRun | plugins/range/plugin.go:366-372 | a concrete run without any delete: a retransmission renews in place and is told the address, the first message's failed store drops the lease, the next client gets the address, and two clients' rows are on one address |
| LeaseStranded.StrandedForGood | plugins/range/plugin.go:983-991 | a lease file with two clients on one address: no order of rows and no map order lets the server start |
| LeaseStranded.TwoOnOne | plugins/range/plugin.go:983-991 | which is what both runs leave behind |
| LeaseOps.AnswerTrace | plugins/range6/plugin.go:521-545 | what the lock covers for one IA is a list of elementary legal changes, and an address in the answer is in the table at least as long as the client is told |
| LeaseOps.DoAllKeepsPartition | plugins/range/plugin.go:334-381 | every list of legal changes keeps the partition |
| LeaseOps.DoAllKeepsBounds | plugins/range/plugin.go:386-403 | every list of legal changes keeps the quarantine and the table within their bounds |
| LeaseOps.HoldBackCommutes | plugins/range6/plugin.go:809-828 | evicting before or after the declined record has gone makes no difference, which is where the two plugins differ |
| LeaseModel.AllocatorAllocate | plugins/allocators/allocator.go:16-31 | the allocator hands out a free address of the pool, honours a free hint, and fails only when every address is taken |
| LeaseModel.Oldest | plugins/range/plugin.go:439-450 | the scan finds an entry with the smallest end time whenever there is an entry |
| LeasePlugin.Plugin.Enqueue | plugins/range/storage.go:259-278 | the send under the lock: queued with its undo, or refused leaving nothing behind |
| LeasePlugin.Plugin.ReleaseLease | plugins/range/plugin.go:518-527 | in place, the specification's release: row queued, record dropped, bit cleared, or nothing |
| LeasePlugin.Plugin.SweepExpired | plugins/range/plugin.go:641-654 | the map walk releases exactly as the specification's sweep does in the order visited, and visits every key once |
| LeasePlugin.Plugin.FreeDeclined | plugins/range6/plugin.go:858-863 | ends one probation as specified for its family |
| LeasePlugin.Plugin.SweepDeclined | plugins/range/plugin.go:663-677 | the walk of the quarantine, as specified in the order visited |
| LeasePlugin.Plugin.Reclaim | plugins/range/plugin.go:682-684 | both sweeps in turn |
| LeasePlugin.Plugin.EvictOldest | plugins/range/plugin.go:439-457 | the scan and the eviction, as specified |
| LeasePlugin.Plugin.AtLeaseLimit | plugins/range/plugin.go:386-403 | the limit test with its sweep, as specified |
| LeasePlugin.Plugin.Allocate | plugins/range/plugin.go:415-429 | allocation with its two fallbacks, as specified |
| LeasePlugin.Plugin.AllocateLease | plugins/range/plugin.go:334-358 | a new lease, or the state as it was but for what was reclaimed |
| LeasePlugin.Plugin.Renew | plugins/range/plugin.go:488-510 | the in-place renewal and its immediate rollback when the queue refuses |
| LeasePlugin.Plugin.RenewKnown | plugins/range6/plugin.go:563-575 | lapsed bindings re-allocated, others renewed, as specified |
| LeasePlugin.Plugin.Quarantine | plugins/range/plugin.go:606-635 | hold back or free, as specified for each family: the end of the V4 probation counts from the second clock reading, and the eviction scan sees every entry |
| LeasePlugin.Plugin.AnswerIA | plugins/range6/plugin.go:521-545 | one IA of any message kind, as specified for its clock reading; a decline's scan sees every entry |
| LeasePlugin.Plugin.AnswerAll | plugins/range6/plugin.go:370-394 | all IAs of a message, each with its own clock reading and the offsets of its own writes; every decline's scan sees every entry, as the step system asks |
| LeasePlugin.Plugin.RunUndos | plugins/range/storage.go:302-324 | failed changes undone last first, as specified |
| LeaseRecords.Records.Add | plugins/range/plugin.go:334-358 | a new record object under the client's key, told apart from every other |
| LeaseRecords.Records.Extend | plugins/range/plugin.go:493-495 | the renewal writes into the record itself and into no other |
| LeaseRecords.Records.CutBack | plugins/range/plugin.go:497-503 | the renewal's undo, working on the object it captured, does to the table what the numbered model says |
| LeaseRecords.Records.DropUnwritten | plugins/range/plugin.go:366-372 | comparing references decides as comparing numbers does: table and allocator end as the numbered model says |
| LeasePlugin.ReplayRecords | plugins/range/plugin.go:983-991 | the start-up loop succeeds if and only if the loaded addresses are in the pool and pairwise distinct, and then has taken exactly those |
| LeasePlugin.WriteWithRetries | plugins/range/storage.go:428-444 | a statement is retried only while busy, in time and within the retry limit, and the last attempt decides |
| LeasePlugin.FindClear | plugins/allocators/bitmap/bitmap_ipv4.go:78-82 | the scan finds the first clear bit |
| RateTable.Node.Allow | plugins/ratelimit/bucket.go:51-67 | charges the bucket in place exactly as the value-level bucket |
| RateTable.Table.Unlink | plugins/ratelimit/bucket.go:138-150 | takes one node out: prev and next stay inverse, the others keep their order |
| RateTable.Table.PushFront | plugins/ratelimit/bucket.go:153-163 | puts a node at the head, links intact |
| RateTable.Table.Touch | plugins/ratelimit/bucket.go:129-135 | moves a node to the head, links intact |
| RateTable.Table.ReuseOrNew | plugins/ratelimit/bucket.go:118-126 | a fresh node below the bound, else the tail's, out of list and map together |
| RateTable.Table.Fetch | plugins/ratelimit/bucket.go:101-114 | list and map go on describing the same buckets, and their contents become the value-level fetch of the old ones |
| RateTable.Limiter.Consume | plugins/ratelimit/plugin.go:459-477 | table and shared bucket together do what the value-level limiter does, and give its decision |
| RateLimiter.TrackedKeysAreTheMostRecent | plugins/ratelimit/bucket.go:101-126 | after every run the keys kept are exactly the most recently seen distinct keys up to maxKeys, in recency order |
| RateLimiter.BoundNeverShows | plugins/ratelimit/bucket.go:69-114 | while no more than maxKeys distinct keys appear, every decision is the one an unbounded per-key map would make |
| RateLimiter.TrackedKeyIsServed | plugins/ratelimit/plugin.go:459-466 | while it stays tracked, a key's bucket is served its own requests and nothing else |
| RateLimiter.TrackedKeyBound | plugins/ratelimit/plugin.go:459-466 | in any window of any run from the start that opens with one of a key's requests, be it the one that files the key, and in which the key stays tracked, what the key passes times the interval is at most its capacity plus the window |
| RateLimiter.SharedBucketBoundsTheRun | plugins/ratelimit/plugin.go:472-477 | the shared bucket bounds all passed requests over the whole run, whatever keys are evicted |
| RateLimiter.SpacedClientAlwaysPasses | plugins/ratelimit/plugin.go:459-477 | in every run a client that leaves at least one interval between its requests is paid for by its own bucket, even if it was evicted meanwhile, and without a shared bucket always passes |
| RateLimiter.RecencyHolds | plugins/ratelimit/bucket.go:69-84 | the reference recency order holds every key asked for, once |
| RateBucket.CreditBound | plugins/ratelimit/bucket.go:51-67 | banked plus spent credit never exceeds the capacity plus the time gone by |
| RateBucket.WindowBound | plugins/ratelimit/bucket.go:51-67 | the same for any window in the middle of a bucket's life |
| RateBucket.SpacedRequestsPass | plugins/ratelimit/bucket.go:51-67 | a request at least one interval after the last is always paid |
| RateExact.DecidedExactly | plugins/ratelimit/bucket.go:51-67 | from a full bucket a request passes if and only if no window that ends with it would then hold more than burst plus rate pay for: the decisions from the times alone |
| RateExact.CreditAddsUp | plugins/ratelimit/bucket.go:51-67 | a concrete case: of requests at 0, 0, 5 and 11 on a bucket of two tens the third is refused and the last passes |
| RateLimiter.TrackedKeyDecided | plugins/ratelimit/plugin.go:459-470 | in any run a key not tracked is given a full bucket, and while it stays tracked its bucket pays exactly as its own request times say; without a shared bucket that is the answer |
| RateLimiter.SharedBucketDecided | plugins/ratelimit/plugin.go:459-478 | over any run a request its own bucket does not pay for is refused without asking the shared one, and of the others one passes exactly as the times of these say |
| RateBucket.IntervalIs | plugins/ratelimit/plugin.go:239-258 | the interval is the largest whole number of nanoseconds at which n requests fit a second, or a minute |
| RateBucket.BurstIs | plugins/ratelimit/plugin.go:276-282 | the depth of a bucket: the burst given, or twice the whole requests a second, or one |
| RateBucket.CountsExactly | plugins/ratelimit/plugin.go:58-60 | the counts a line may carry: rates from one to a million, bursts to ten million, tracked keys to 1,048,576 |
| RateBucket.AcceptedIsUsable | plugins/ratelimit/plugin.go:239-281 | every accepted configuration gives a limit that pays for a request, with no product outside int64 |
| RateBucket.BankingFits | plugins/ratelimit/bucket.go:57-59 | the one sum the bucket forms stays inside int64 for every accepted configuration |
| DdnsWorker.OneHolderWithItsAddresses | plugins/ddns/worker.go:127-168 | from any zone, over any loss, repetition and delay: no name comes to carry two DHCIDs; one that an update was applied to carries at most the DHCID of the last claim, and then exactly its addresses; any other is as it was |
| DdnsWorker.HeldUntilWithdrawn | plugins/ddns/update.go:72-123 | over any run: a name that carries a client's DHCID goes on carrying it until a withdrawal of that same client is applied |
| DdnsWorker.ForeignJobsChangeNothing | plugins/ddns/worker.go:151-168 | while a name carries one client's DHCID, no datagram of a job with another DHCID changes any forward record there |
| DdnsWorker.NoTakeover | plugins/ddns/update.go:72-85 | in the order the server applied updates, between one client's claim of a name and another client's update of it lies a withdrawal of the first |
| DdnsWorker.NoTakeoverFromStart | plugins/ddns/update.go:72-85 | nor is a name that carried a client's DHCID at the start touched by another before that client's withdrawal |
| DdnsWorker.EveryRunIsLawful | plugins/ddns/worker.go:151-168 | from any zone, every run's applied updates are lawful: a free name is only claimed, one that carries a DHCID only touched by that one client |
| DdnsWorker.DeliverForward | plugins/ddns/update.go:76-123 | a forward update is applied if and only if the name is free (first claim) or held by its own DHCID, replaces the address set, and leaves all else alone |
| DdnsWorker.RegisterTellsTheTruth | plugins/ddns/worker.go:135-177 | in every reachable state every register entry is the client and addresses of the last acknowledged update of its name, within the bound, in order of writing; and everything acknowledged was applied |
| DdnsWorker.ReverseOnlyAfterForward | plugins/ddns/worker.go:127-132 | a PTR update is only ever sent for an address of a job whose forward update was applied and acknowledged |
| DdnsWorker.UndisturbedExactly | plugins/ddns/worker.go:135-177 | with nothing lost, a job succeeds if and only if the name is free or its own client's: then the zone holds what it asked for and the register knows it, otherwise neither has changed |
| DdnsReleases.ReleaseQueuesExactly | plugins/ddns/plugin.go:521-532 | in every reachable state a release joins the queue, at its end, if and only if there is room, the name is registered, and its last acknowledged update was a claim with the release's DHCID that covers every address released; otherwise nothing changes |
| DdnsReleases.EveryWithdrawalIsCovered | plugins/ddns/plugin.go:515-532 | over any run, restarts included, nothing is ever sent to withdraw a name but for a client whose own claim of it, covering all the addresses, was acknowledged before |
| DdnsReleases.BegunInOrder | plugins/ddns/worker.go:63-97 | every job accepted is begun in the order of acceptance or still queued, unless a restart lost it |
| DdnsReleases.BeginsRight | plugins/ddns/worker.go:158-168 | a claim first asks for a free name, a withdrawal as the owner |
| DdnsReleases.EveryAddressIsReversed | plugins/ddns/worker.go:183-196 | over any run, a worker done with an acknowledged job has sent a reverse update for every address in a configured network, whatever was answered |
| DdnsReleases.ReverseDelivered | plugins/ddns/update.go:126-139 | delivered, a reverse update leaves one PTR to the name, or none, at the address's own name, and changes nothing else |
| DdnsReleases.AcknowledgedGoesOn | plugins/ddns/worker.go:135-177 | an acknowledged job is registered (a withdrawal forgotten) and goes on to its reverse zones from the first address |
| DdnsReleases.RefusedGoesNowhere | plugins/ddns/worker.go:135-168 | any other answer leaves register and zone alone; only a first claim told that the name is taken asks again, as the owner |
| DdnsReleases.NoAnswerGoesNowhere | plugins/ddns/worker.go:135-196 | no answer in time: a forward update is given up with nothing remembered, a reverse one passed over |
| DdnsReleases.RestartForgets | plugins/ddns/owner.go:19-29 | a restart forgets the queue and the register and nothing at the server: no release is taken until a claim is acknowledged again |
| DdnsReleases.FamiliesApart | plugins/ddns/update.go:88-93 | an instance writes A records for addresses of four octets, or AAAA records for longer ones, and takes no others |
| DdnsWorker.RunsAreGood | plugins/ddns/worker.go:88-196 | the invariant behind these, for every run |
| DdnsUpdate.ForwardChanges | plugins/ddns/update.go:102-110 | the loop builds the specified update section |
| DdnsUpdate.ClaimEffect | plugins/ddns/update.go:95-110 | a claim's section replaces the whole address set, adds the DHCID and touches nothing else |
| DdnsUpdate.WithdrawEffect | plugins/ddns/update.go:112-123 | a withdrawal's section removes the addresses and exactly its own DHCID |
| DdnsUpdate.ReverseEffect | plugins/ddns/update.go:126-138 | a reverse section leaves exactly one PTR, or none, and touches nothing else |
| DdnsUpdate.FreshCheck | plugins/ddns/update.go:72-78 | the first claim's prerequisite holds exactly when no DHCID is there |
| DdnsUpdate.OwnedCheck | plugins/ddns/update.go:80-85 | the second's holds exactly when the one DHCID there is the client's own |
| DdnsOwners.RegisterAgrees | plugins/ddns/owner.go:48-112 | after every list of acknowledged updates map and list hold the same names, within the bound, each entry that of its name's last claim, in order of last writing |
| DdnsOwners.KeptUntilOutrun | plugins/ddns/owner.go:64-71 | a name whose last acknowledged update was a claim is still registered unless at least max other names were claimed since |
| DdnsOwners.Owners.Note | plugins/ddns/owner.go:50-62 | record, in place: list and map together, as specified |
| DdnsOwners.Owners.EvictOldest | plugins/ddns/owner.go:65-71 | the eviction loop, as specified |
| DdnsOwners.Owners.HoldsAll | plugins/ddns/owner.go:84-100 | true exactly when the name is registered for that DHCID and every one of at least one address |
| DdnsOwners.Owners.Drop | plugins/ddns/owner.go:103-112 | forget, in place |
| DdnsName.PackReadsBack | plugins/ddns/name.go:205-253 | every name that packs is read back, lowercased, off any tail, and takes one octet more than its lowercased text, for every lowercasing that is plain on ASCII and leaves lowercased labels alone |
| DdnsName.ReadLowercases | plugins/ddns/name.go:234-260 | whatever case a label has on the wire, it is read lowercased |
| DdnsName.HostedNamesPack | plugins/ddns/name.go:65-81 | every name hostFQDN accepts packs within 255 octets, reads back as itself on any tail, and is under the zone |
| DdnsName.PackNameLoop | plugins/ddns/name.go:205-224 | the loop over labels packs as specified, or refuses |
| DdnsName.ReadNameLoop | plugins/ddns/name.go:234-253 | the loop over octets reads as specified, or refuses |
| DdnsName.OnlyNameBytes | plugins/ddns/name.go:126-135 | true exactly when every octet is a host name's |
| DdnsName.BareNameJoinsTheZone | plugins/ddns/name.go:65-80 | a bare host name is given the zone's name behind it if and only if the two together are at most 253 octets of proper labels |
| DdnsName.DottedNameStandsAlone | plugins/ddns/name.go:65-80 | a name with dots is given as it stands if and only if it is proper and below the zone, and the refusal says which it was not |
| DdnsName.NoNameNoHost | plugins/ddns/name.go:65-72 | nothing asked for is nothing given |
| DdnsReverse.PtrInZone | plugins/ddns/name.go:160-193 | the PTR name of an address of either family is in a prefix's reverse zone if and only if the prefix contains the address |
| DdnsReverse.PtrNameV4 | plugins/ddns/name.go:141-162 | octet for octet: the four octets in decimal, last first, under in-addr.arpa |
| DdnsReverse.PtrNameV6 | plugins/ddns/name.go:141-162 | octet for octet: the thirty-two nibbles in lowercase hexadecimal, last first, under ip6.arpa |
| DdnsReverse.ZoneExactlyAtLabels | plugins/ddns/name.go:182-193 | a network has a reverse zone if and only if its length is a multiple of eight, or of four for IPv6 |
| DdnsReverse.FillArpaLabels | plugins/ddns/name.go:141-157 | the loop fills every cell with its label, least significant first |
| DdnsReverse.ReverseZoneFor | plugins/ddns/worker.go:201-208 | the first network that contains the address wins, and its zone is one the PTR name is in |
| DdnsTsig.StripUndoesSign | plugins/ddns/tsig.go:388-397 | stripping a signed message of at least 12 octets gives its octets back with its ARCOUNT, which wraps at sixteen bits, in whatever case the owner is spelled |
| DdnsTsig.ParseUndoesRdata | plugins/ddns/tsig.go:228-248 | parsing the RDATA gives every field back, for every 48-bit time |
| DdnsTsig.RecordLayout | plugins/ddns/tsig.go:228-247 | octet for octet as section 4.2 of RFC 8945 has it: owner, type 250, class 255, no time to live, length, data |
| DdnsTsig.RdataLayout | plugins/ddns/tsig.go:228-262 | the data: algorithm, time in six octets, fudge 300, MAC with its length, original id, no error, no other data |
| DdnsTsig.DigestLayout | plugins/ddns/tsig.go:185-225 | octet for octet as section 4.3.3 of RFC 8945 has it: the request's MAC with its length, the message, the variables |
| DdnsTsig.SignLayout | plugins/ddns/tsig.go:159-168 | signing appends exactly the record, counts it in the two octets of ARCOUNT as they wrap, and touches nothing else |
| DdnsTsig.AcceptedExactlyWhen | plugins/ddns/tsig.go:359-406 | an answer is accepted if and only if it names key and algorithm, reports no error, ends in a record whose owner folds to the key's, and carries the MAC of the rest, the record uncounted |
| DdnsTsig.SignedIsAcceptedExactlyWhen | plugins/ddns/tsig.go:359-377 | an answer signed with the key over the request's MAC, its owner spelled in any case, is accepted if and only if that spelling is the one configured |
| DdnsTsig.EchoedOwnerIsAcceptedExactlyWhen | plugins/ddns/tsig.go:118-129 | when the answer spells the owner as the request did, it is accepted if and only if the configured name is in lowercase |
| DdnsTsig.UppercaseKeyRefusesTheEcho | plugins/ddns/tsig.go:118-129 | a key configured in capitals refuses every answer that spells the owner as its requests do |
| DdnsTsig.LowercaseKeyRefusesCapitals | plugins/ddns/tsig.go:294-294 | a key configured in lowercase refuses every answer that spells the owner in capitals, though stripping would fold the case |
| DdnsTsig.DigestBinds | plugins/ddns/tsig.go:185-225 | what is digested determines the message and the time signed |
| DdnsTsig.OneMACOneMessage | plugins/ddns/tsig.go:359-377 | two answers accepted with one MAC for one request are the same message signed at the same time, or exhibit two different inputs with equal hash |
| DdnsTsig.ParseTSIGRDATA | plugins/ddns/tsig.go:339-355 | the reader, consuming its octets and keeping its first error, parses as specified |
| DdnsTsig.RdataReader.Next | plugins/ddns/tsig.go:428-439 | takes octets or fails for good |
| DdnsTsig.RdataReader.NextName | plugins/ddns/tsig.go:460-471 | takes a name or fails for good |
| PrefixExchange.RunsKeepThePool | plugins/prefix/plugin.go:255-338 | after every run of requests, releases and sweeps the taken blocks are exactly those of the prefixes in all records, no block appears twice, no client exceeds max-prefixes and no stored client has an empty record |
| PrefixExchange.ReconcileKeeps | plugins/prefix/plugin.go:456-484 | one exchange keeps that |
| PrefixPool.ReleaseKeeps | plugins/prefix/plugin.go:255-271 | one release keeps that |
| PrefixPool.SweepKeeps | plugins/prefix/plugin.go:330-338 | one sweep, in any order of clients, keeps that |
| PrefixPool.FilterIs | plugins/prefix/plugin.go:255-271 | the filter keeps exactly what is not hit and cuts exactly the rest, no lease lost or doubled |
| PrefixExchange.NoBindingExactlyWhen | plugins/prefix/plugin.go:237-271 | a release frees exactly what the client holds of the list, and counts nothing if and only if that is nothing |
| PrefixExchange.AnswerIsRecorded | plugins/prefix/plugin.go:552-560 | every prefix in the answer is in the client's record with expiry equal to now plus the advertised lifetime |
| PrefixExchange.UnexpiredSurvives | plugins/prefix/plugin.go:456-484 | every unexpired lease survives the exchange with its expiry not reduced |
| PrefixExchange.NothingLapsedIsKept | plugins/prefix/plugin.go:445-484 | everything recorded afterwards was either still running or carved anew from a block that was free once the lapsed ones were back |
| PrefixExchange.AnswerIsBounded | plugins/prefix/plugin.go:404-419 | the answer holds at most the eight hints considered plus max-prefixes prefixes |
| PrefixExchange.RefusedExactlyWhen | plugins/prefix/plugin.go:379-394 | NoPrefixAvail if and only if no held lease serves any hint and the client is at its limit or no block is left |
| PrefixExchange.LateClientKeepsItsPrefix | plugins/prefix/plugin.go:607-614 | a client whose leases have all lapsed and that asks for nothing in particular gets its first old prefix again, and only that |
| PrefixMatch.MatchedExactly | plugins/prefix/plugin.go:491-560 | from the hints and the unexpired leases alone: given out are exactly the leases some hint names and those that fit a hint for any prefix that names none; served are exactly the hints that name one and those for any prefix that find a fitting one not given out before |
| PrefixMatch.RecordExactly | plugins/prefix/plugin.go:456-487 | the record afterwards: the unexpired leases in their order, those given out for at least a full duration, and behind them as many new ones as there are hints no lease serves, up to the client's limit and the free blocks, each for a full duration, and just these blocks taken |
| PrefixMatch.RenewalAddsNothing | plugins/prefix/plugin.go:552-585 | when every hint names a running lease, the client ends with the prefixes it had and no other, and no block more is taken |
| PrefixMatch.AnswerExactly | plugins/prefix/plugin.go:552-600 | the answer holds the leases given out and all the new ones with what they now last, nothing else, and nothing for less than a full duration |
| PrefixMatch.NewPrefixIs | plugins/prefix/plugin.go:578-640 | which prefix is new: the block the hint wants (for one that asks nothing, the client's own lapsed one) if it is in the pool and free, else the lowest free block; as long as wanted, or as a block |
| PrefixMatch.HintsConsidered | plugins/prefix/plugin.go:404-420 | the first eight hints count, or one for nothing in particular |
| PrefixMatch.LateClientKeepsItsPrefixes | plugins/prefix/plugin.go:607-625 | a client all of whose leases have lapsed, asking n times for nothing in particular, gets its first n prefixes back in order |
| PrefixExchange.OthersAreUntouched | plugins/prefix/plugin.go:255-271 | an exchange or a release leaves every other client's record as it was |
| PrefixExchange.SweptClean | plugins/prefix/plugin.go:330-338 | after a full sweep no lapsed delegation is recorded, and the taken blocks are exactly those of delegations still running |
| PrefixPlugin.FilterInPlace | plugins/prefix/plugin.go:255-271 | filtering into the front of the same array equals the functional filter of the old slice |
| PrefixPlugin.Append | plugins/prefix/plugin.go:595-597 | append, in the spare capacity or in a new array, adds exactly one lease |
| PrefixPlugin.Plugin.Filter | plugins/prefix/plugin.go:311-325 | in-place filter and freeing together, every other client's slice untouched |
| PrefixPlugin.Plugin.StoreSlice | plugins/prefix/plugin.go:296-302 | stores the slice, or forgets a client left with nothing |
| PrefixPlugin.Plugin.ReleasePrefixes | plugins/prefix/plugin.go:255-271 | the specified release, and its count |
| PrefixPlugin.Plugin.SweepExpired | plugins/prefix/plugin.go:330-338 | the specified sweep, over every client, and its count |
| PrefixExchange.SweepCountIsFreed | plugins/prefix/plugin.go:330-338 | the count a sweep reports is the number of blocks that came back to the pool |
| PrefixPlugin.PdExchange.Grant | plugins/prefix/plugin.go:552-560 | renews in place, never shortening, and marks and answers |
| PrefixPlugin.PdExchange.RenewExactMatches | plugins/prefix/plugin.go:491-499 | the first pass over the aliased slice, as specified |
| PrefixPlugin.PdExchange.GiveOutRemaining | plugins/prefix/plugin.go:507-533 | the second pass over the aliased slice, as specified |
| PrefixPlugin.Plugin.AllocateForUnsatisfied | plugins/prefix/plugin.go:578-601 | the third pass, extending the slice, as specified |
| PrefixPlugin.Plugin.ReconcileIAPD | plugins/prefix/plugin.go:456-484 | the whole exchange does what the specification says to record, pool and answer |
| PrefixModel.Pick | plugins/allocators/bitmap/bitmap.go:48-82 | hands out a free block, the hinted one when it is free, and fails only when every block is taken |
| PrefixIndex.IndexIsBlock | plugins/allocators/bitmap/bitmap.go:32-39 | toIndex gives every address of an aligned pool its block |
| PrefixIndex.PrefixIsIp | plugins/allocators/bitmap/bitmap.go:41-44 | toPrefix gives every block its first address and never overflows |
| Gate.AtMostMaxRun | server/gate.go:130-159 | in every interleaving at most the configured number of handlers run at once |
| Gate.NoneJoinsAfterStop | server/gate.go:145-170 | once stop has returned no handler joins, over any continuation of any run |
| Gate.TrueWaitMeansNoneEverRuns | server/serve.go:535-540 | a wait that reported true after stop means no handler runs, then or ever after |
| Gate.EveryCallIsAccountedFor | server/gate.go:130-143 | every completed call is exactly one of started, counted overload and counted shutdown, and only started calls have a handler |
| Gate.OverloadExactlyWhenFull | server/gate.go:130-142 | in every reachable state a call is turned away as overload if and only if all the slots are held |
| Gate.AdmittedExactlyWhenOpen | server/gate.go:148-160 | in every reachable state a call that reads the gate is admitted if and only if stop has not begun to close it |
| Gate.CallsGoOn | server/gate.go:130-160 | no call is stuck but for the lock, and each place leads where the code does: counted overload, started handler, or slot given back and counted shutdown |
| Gate.CloserGoesOn | server/gate.go:163-198 | stop and wait likewise: true once no handler is left, false at any time |
| Gate.HandlersGoOn | server/gate.go:148-160 | a handler that runs gives its slot back, and then leaves the wait group |
| Gate.ReleasesNeverBlock | server/gate.go:148-159 | giving a slot back never blocks and the wait group never goes below zero |
| Gate.RunsKeep | server/gate.go:130-196 | the counts and the lock order behind these, for every interleaving |
| IpCalc.OffsetFloors | plugins/allocators/ipcalc.go:52-84 | for lengths 65 to 128 Offset is the floor of the distance over the unit, with ErrOverflow exactly when that reaches 2^64 |
| IpCalc.OffsetOfHighHalves | plugins/allocators/ipcalc.go:44-50 | for lengths 0 to 64 it is the distance of the high halves, shifted |
| IpCalc.MaskedExactlyWhen | plugins/allocators/ipcalc.go:20-30 | the documented masking of both addresses holds if and only if the higher address does not fall short of the lower one below the cut, and the units fit a word |
| IpCalc.MaskedCanFail | plugins/allocators/ipcalc.go:20-30 | an unaligned pair for which it does not hold |
| IpCalc.OffsetFromAligned | plugins/allocators/ipcalc.go:30-84 | for any length it is the masked difference when the lower address is aligned |
| IpCalc.AddPrefixesAdds | plugins/allocators/ipcalc.go:89-126 | for units 1 to 128 AddPrefixes adds its move exactly, with ErrOverflow exactly past 2^128; a count past the unit's width wraps |
| IpCalc.MoveIsExact | plugins/allocators/ipcalc.go:104-110 | for n below 2^unit the move is n units |
| IpCalc.RoundTrip | plugins/allocators/ipcalc.go:86-126 | Offset of AddPrefixes(ip, n, unit) from ip is n |
| Resp.CommandReadBack | plugins/redis/resp.go:201-215 | reading what writeCommand wrote, up to 4096 arguments of up to 1 MiB of any octets, followed by any tail, returns exactly the arguments and leaves exactly the tail |
| Resp.ReplyOwn | plugins/redis/resp.go:103-125 | on any input, a reply returned as a value consumed exactly its own octets: they give the same value whatever follows them |
| RespReplies.ReadBack | plugins/redis/resp.go:103-160 | for an encoder of its own: simple strings, errors, integers of either sign, bulk strings and both nils are read as exactly what they say, off any tail, and only the error as an error |
| RespReplies.ArrayReadBack | plugins/redis/resp.go:163-190 | an array of these is read as exactly their list |
| RespReplies.ErrorInArray | plugins/redis/resp.go:163-190 | an error among the items ends the reading there: the reply is that error and the items behind it are left on the stream |
| RespReplies.ErrorExactlyWhen | plugins/redis/resp.go:103-190 | on any stream, the reply is an error if and only if it starts with a '-' line, or with the header of an array with such an item behind values only |
| RespReplies.ErrorWithoutMinus | plugins/redis/resp.go:163-190 | a concrete array that is an error reply though it starts with '*' |
| RespReplies.NestedIsRefused | plugins/redis/resp.go:163-175 | an array inside an array costs the connection |
| RespReplies.SizeIsBounded | plugins/redis/resp.go:138-175 | so do sizes beyond the bounds and negative ones other than the nil's |
| RespReplies.BulkIsDelimited | plugins/redis/resp.go:138-160 | a bulk is its counted octets and a CRLF: cut short it is the end of the stream, ended otherwise a protocol fault |
| RespReplies.LineIsChecked | plugins/redis/resp.go:85-125 | a line without its CRLF, too long for the buffer, empty, or of an unknown kind |
| RespReplies.NoNumber | plugins/redis/resp.go:128-135 | an integer line that is no number |
| RespReplies.NumbersAreBounded | plugins/redis/resp.go:128-135 | a number may carry a plus sign, and one beyond 64 bits is none |
| Resp.ReadLineIs | plugins/redis/resp.go:85-97 | a line that is read was there, within the buffer, with its CRLF |
| Resp.WriteCommand | plugins/redis/resp.go:201-215 | the buffer holds the specified octets |
| Resp.RespReader.TakeLine | plugins/redis/resp.go:85-97 | reads a line off the stream as specified |
| Resp.RespReader.TakeBulk | plugins/redis/resp.go:138-159 | reads a bulk string as specified and leaves the stream behind it |
| Resp.RespReader.TakeArray | plugins/redis/resp.go:163-184 | reads an array as specified, stopping at the first item that is no value |
| Resp.RespReader.TakeReply | plugins/redis/resp.go:103-125 | reads a reply as specified and leaves the stream behind it |
| Octets.ParseDecimal | plugins/redis/resp.go:128-134 | a count written in decimal is parsed back |

## Left out

- Sockets, packet parsing, sqlite, TLS, HTTP, logging, metrics, events and the user interface: foreign calls and reporting. Only their outcomes enter, where the code branches on them.
- Option plugins, argument parsing and configuration loading: they would only add easy members. Of the arguments only the rate limiter's counts are modelled, because the overflow claim needs them.
- A message taken up while two or more stores behind its binding are undecided, which takes a third overlapping message, or otherwise in a state no longer accounted for: `LeaseOverlap.SafeguardedReply` says when its reply can be depended on; that it cannot otherwise is shown only while the record's first store is undecided, by `LeaseKept.UnwrittenIsUndependable`. The accounting is taken up again by a restart (`LeaseTold.RestartGood`) or when the binding is at rest (`LeaseTold.AtRestIsGood`).
- Fractions of a second: a reply carries a duration, which V4 rounds to the second, and the client counts it from when the reply arrives. With a fractional clock or lease time it may count up to a second past `Unix(now + leaseTime)`, the second the results compare with.
- The cap on IA_NA options per message, rebind, confirm and the status texts of `plugins/range6`: a message of any number of IAs is modelled, rebind answers like renew, and confirm reads the pool's bounds and nothing else.
- The wire form of a binding's key in `plugins/range6` (IAID before DUID): keys are opaque.
- The quarantine across a restart: it is in memory only, so a restart ends every probation, and `LeaseProbation` is about runs without one.
- An allocator whose bitmap library misbehaves at its size limits: the bitmap is a set.
- A ddns name shared by the two families' instances: each withdraws the DHCID without looking at the other, so ownership is stated for one instance.
- Retransmission as such in `plugins/ddns/client.go`: the network may repeat any datagram any number of times, which covers it.
- The DNS library's message encoding and its search for the TSIG record: a record's octets are taken to arrive at the end of the message, as signing put them. A reply is taken to answer the request whose MAC it was signed over.
- Time to live values in the modelled zone: no branch reads them.
- The key and algorithm checks of `newTSIGKey`, DHCID contents, and HMAC: the hash is any function, the DHCID any octets.
- DdnsOwners.Owners.Note: does not model the list elements the source keeps pointers to; the list is a sequence of names.
- The several IA_PD options of one message in `plugins/prefix`: each is one exchange, in order; the cap of eight per message is not stated.
- The drop summary of the rate limiter and the modes that build its key: reporting and string plumbing.
- The log throttle of the gate and the count of relayed requests.
- AddPrefixes for units above 128 and addresses that are not 16 octets: no caller passes them.
- The connection pool, `hgetall` and authentication of the Redis client.
- `plugins/netbox/cache.go`: the same kind of table as the rate limiter's, without the linked list.
