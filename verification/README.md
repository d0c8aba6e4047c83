# Verified model of loki-vl-proxy

loki-vl-proxy answers Loki queries from VictoriaLogs. This project models the parts
of it that keep state under concurrency or transform queries, and proves what they
keep over every run and every input:

- admission control: the circuit breaker (as an atomic machine and as interleaved
  micro-steps around its mutex and its lock-free shadow), the request coalescer that
  couples singleflight with the breaker, and the token-bucket rate limiter;
- the fleet cache: the hash ring, the memory tier with its recency list and byte
  budget, the write-buffered disk tier, the values that travel between replicas, and
  the read-ahead selector;
- query text: the LogsQL filter printer, scanner and parser down to characters, and
  the LogQL metric-expression parser and printer down to tokens;
- the log pipeline: pattern expressions, and `label_format` as a stage and as the
  backend pipes it is translated to;
- bounded work and stream conservation: the array budget for binary operands and the
  response writer that delays compression.

Each component has specification functions on values. Where the source updates state
in place or loops, a class or a method in that form is proved equal to them, and the
lemmas are about the functions. Clocks, the hash, the regular-expression engine, the
circuit breaker's answer and the order in which a map is visited are parameters. Time
is an integer, in nanoseconds where TTLs are rounded to milliseconds, and a real in
`RateLimiter`, `RateLimiterExact` and `RateLimiterRaces`.

## Where the code differs from its comments

- The overwritten entry of a memory store is subtracted from the byte count before
  eviction and again if eviction removes it. `L1Cache.SelfEvictionExactly` says exactly
  when, `L1Cache.ReachableStates` gives the resulting error of the count for every run,
  and `L1Cache.OverwritesDrift` shows that it is unbounded with room for one entry.
- A comment says the owner keeps the full TTL of a write-through push. The non-owner
  clamp is applied first: the push carries the write's TTL if and only if that is at
  most 30 seconds, and 30 seconds otherwise (`Fleet.OwnerKeepsTTLExactly`,
  `Fleet.FiveMinutesBecomeThirtySeconds`).
- A pushed TTL below one millisecond, and so also a TTL of zero, becomes 30 seconds at
  the receiver (`Fleet.PushNeverExtends`), and a disk hit of `Cache.Get` starts the
  default TTL anew. `Fleet.NoCopyOutlivesItsWrite` says exactly which runs are free of
  both; `Fleet.ShortPushOutlives` and `Fleet.RestartOutlives` show that each does harm.
- `Cache.Get` writes a value it fetched from the owner with propagation, so a non-owner
  pushes it back on every such read (`Fleet.EveryFetchPushesBack`);
  `Fleet.PushesExactly` counts the pushes of a write in every run with an agreed ring.
- A disk read can return a value that has been replaced: between the swap and the commit
  of every flush that overwrites a key on disk (`DiskCache.EveryOverwriteExposes`), after
  a commit that refuses the new value (`DiskCache.RefusedWriteLeavesOld`), and after two
  overlapping flushes commit in the wrong order
  (`DiskCache.OverlappingFlushesCanResurrect`). `DiskCache.StaleReadExactly` and
  `DiskCache.NeverStaleExactly` give the exact conditions.
- The limiter's cleanup tests a bucket under its lock and deletes it after unlocking, and
  a request looks its bucket up before it locks it. A request in between makes the
  deletion visible whenever there is a burst to spend, and allows two bursts at one instant
  (`RateLimiterRaces.TwoBurstsAtOnce`); without such races the deletion is invisible
  exactly when a bucket refills while it goes stale
  (`RateLimiterRaces.EvictionShowsExactly`, `RateLimiterRaces.EveryRaceShows`).
  `RateLimiter.EveryRunIsBounded` is the bound that always holds; one more burst per
  raced delete alone is not one (`RateLimiterRaces.OneBurstPerDeleteIsNotEnough`).
- An exact-prefix leaf is printed without escaping, and a field filter with an exact
  prefix is not read back at all. `LogsQLExact.RoundTripExactly` says which trees are.
- One guard of the coalescer can cover any number of backend calls
  (`Coalescer.OneGuardManyCalls`): a caller that joins after the shared call ended, but
  before the count went down, starts another one.
- A backend call that panics leaves its key's count above zero for good, so callers get
  past a refusing guard although nobody is inside, exactly for keys with such a call
  (`Coalescer.GuardBypassedExactly`, `Coalescer.NeverAskedAgain`).
- A comment says a bare rename of `label_format` is translated faithfully, as a field
  copy. Its pipe writes the name of the label as text
  (`LabelPushdown.BareRenameWritesTheName`), and a text such as `<b>` gets the pipe of a
  reference to `b` (`LabelPushdown.BracketedTextReadsTheLabel`); both pass the pushdown
  test. `LabelPushdown.PushedDownExactly` gives the stages whose pipes are right for
  every entry, `LabelPushdown.TestIsEnoughExactly` those among the ones that pass.
- The test also ignores renames when it looks for labels that are read after they are
  written, so even as field copies a swap would depend on the order
  (`LabelFormat.SwapDependsOnOrder`, `LabelFormat.AgreeExactly`).

## Model

| member | source | states |
|---|---|---|
| `CircuitBreaker.WindowRefinesHistory` | internal/middleware/circuitbreaker.go:106-167 | over every run with a monotone clock the kept failure slice is the full failure history since the last close minus a prefix that already left the window |
| `CircuitBreaker.OpensExactly` | internal/middleware/circuitbreaker.go:121-141 | a closed breaker opens on a failure if and only if the failures since it last closed that are inside the window, this one included, reach the threshold |
| `CircuitBreaker.HalfOpenHasPeriod` | internal/middleware/circuitbreaker.go:75-95 | every half-open state lies in a period that began with the admission that ended an open one |
| `CircuitBreaker.HalfOpenCounts` | internal/middleware/circuitbreaker.go:75-141 | in every half-open period the counters are the admitted calls and recorded successes of that period, between 1 and max(1, successThreshold) calls are admitted, and no failure was recorded |
| `CircuitBreaker.ClosesOnlyAfterQuota` | internal/middleware/circuitbreaker.go:98-117 | the breaker closes only on the success that completes successThreshold of them within one half-open period without a failure |
| `CircuitBreaker.WedgesOnlyOnUnrecordedProbes` | internal/middleware/circuitbreaker.go:75-95 | a half-open breaker refuses exactly when the quota is used up, so it admits again once every admitted probe recorded an outcome |
| `CircuitBreaker.OpenPeriodLasts` | internal/middleware/circuitbreaker.go:75-141 | an open breaker was opened by one failure of the run and admits a call if and only if the open duration has passed since that failure read the clock, whatever failures came later |
| `CircuitBreaker.AnswersExactly` | internal/middleware/circuitbreaker.go:67-95 | every answer from the calls before it: a closed breaker admits, an open one after its open period, a half-open one while fewer calls than the success threshold were admitted in its period |
| `CircuitBreaker.ChangesExactly` | internal/middleware/circuitbreaker.go:75-141 | every change of mode from the calls before it: what opens a closed breaker, what makes an open one half-open and what closes or reopens a half-open one, and nothing else does |
| `CircuitBreaker.CircuitBreaker.constructor` | internal/middleware/circuitbreaker.go:53-64 | a new breaker is the initial state of the machine |
| `CircuitBreaker.CircuitBreaker.Allow` | internal/middleware/circuitbreaker.go:67-95 | the answer and the new fields are those of the atomic step |
| `CircuitBreaker.CircuitBreaker.RecordSuccess` | internal/middleware/circuitbreaker.go:98-117 | the new fields are those of the atomic step |
| `CircuitBreaker.CircuitBreaker.RecordFailure` | internal/middleware/circuitbreaker.go:121-141 | the new fields are those of the atomic step, so that `OpensExactly`, `OpenPeriodLasts` and `ChangesExactly` hold of the object |
| `CircuitBreaker.CircuitBreaker.PruneWindow` | internal/middleware/circuitbreaker.go:160-167 | the index loop drops exactly the leading timestamps before the cut-off |
| `BreakerInterleaving.ShadowIsSound` | internal/middleware/circuitbreaker.go:67-73 | whenever the lock-free shadow reads closed, the atomic breaker is closed at that instant |
| `BreakerInterleaving.StepSimulates` | internal/middleware/circuitbreaker.go:67-141 | every micro-step is invisible to the atomic breaker or is exactly one of its operations with its answer |
| `BreakerInterleaving.InterleavingsAreAtomicRuns` | internal/middleware/circuitbreaker.go:67-141 | every interleaving of any number of goroutines is an atomic run with a monotone clock |
| `BreakerInterleaving.FreeMutexShowsTheAtomicBreaker` | internal/middleware/circuitbreaker.go:67-141 | whenever the mutex is free, fields and shadow are those of the atomic breaker |
| `BreakerInterleaving.EffectsAreInsideTheirCalls` | internal/middleware/circuitbreaker.go:67-141 | each call takes effect exactly once, between its start and its return, with the answer the atomic breaker gives at that instant |
| `BreakerInterleaving.InterleavedFailuresTripExactly` | internal/middleware/circuitbreaker.go:121-141 | the trip condition holds in every interleaving |
| `BreakerInterleaving.InterleavedOpenPeriodLasts` | internal/middleware/circuitbreaker.go:67-95 | in every interleaving a call that takes effect while the breaker is open is admitted if and only if the open period of the failure that opened it is over |
| `BreakerInterleaving.InterleavedChangesExactly` | internal/middleware/circuitbreaker.go:75-141 | and every effect on an open or half-open breaker changes its mode as the history of effects demands |
| `Coalescer.EveryInterleaving` | internal/middleware/coalescer.go:92-184 | in every interleaving the count of a key is the number of goroutines inside for it plus those a panic took out, no zero entry stays, and each key has at most one running backend call, led by one of them |
| `Coalescer.OneGuardPerPeriod` | internal/middleware/coalescer.go:165-182 | every busy period of a key begins with one accepted guard, asked when nobody was inside, and the guard is not asked again before the period ends |
| `Coalescer.RejectsOnlyWhenIdle` | internal/middleware/coalescer.go:165-170 | a caller is rejected if and only if nobody is inside for the key, none was lost to a panic and the guard says no, and a rejection changes nothing |
| `Coalescer.LostExactly` | internal/middleware/coalescer.go:165-182 | goroutines of a key are missing from the decrement if and only if one of its backend calls panicked |
| `Coalescer.GuardBypassedExactly` | internal/middleware/coalescer.go:165-182 | with nobody inside, a caller gets past a refusing guard if and only if a backend call for its key panicked before |
| `Coalescer.NeverAskedAgain` | internal/middleware/coalescer.go:165-182 | after a panic the guard is not asked for the key in the rest of any run |
| `Coalescer.OnePanicIsEnough` | internal/middleware/coalescer.go:174-181 | the run with one call that panics |
| `Coalescer.CallsAreGuarded` | internal/middleware/coalescer.go:165-182 | every running backend call lies in a busy period whose guard was accepted no later than its leader entered |
| `Coalescer.AnswersAreFresh` | internal/middleware/coalescer.go:92-128 | every answer comes from a backend call for the caller's key that was still running after the caller entered |
| `Coalescer.CallsOfAPeriod` | internal/middleware/coalescer.go:165-182 | in every run the backend calls started in a busy period are those that ended in it and the one still running |
| `Coalescer.AnotherCallExactly` | internal/middleware/coalescer.go:165-182 | a goroutine that begins starts a backend call, rather than join one, if and only if every call of its period has ended |
| `Coalescer.OneGuardManyCalls` | internal/middleware/coalescer.go:165-182 | for every n there is a run with n backend calls in one busy period |
| `Coalescer.Coalescer.Admit` | internal/middleware/coalescer.go:165-172 | admits when the count is positive or the guard accepts, and raises the count exactly then |
| `Coalescer.Coalescer.Depart` | internal/middleware/coalescer.go:176-181 | lowers the count and removes the entry at zero |
| `RateLimiter.InflowIs` | internal/middleware/ratelimiter.go:107-108 | the inflow used in the model is elapsed time times rate |
| `RateLimiter.Conservation` | internal/middleware/ratelimiter.go:106-121 | what a bucket admits until an instant is at most what it held plus what flowed in |
| `RateLimiter.IntervalBound` | internal/middleware/ratelimiter.go:90-121 | in every interval of every run a bucket admits at most burst plus rate times length |
| `RateLimiterExact.BucketGrantsExactly` | internal/middleware/ratelimiter.go:103-121 | in every run, with any races and evictions, a request is granted if and only if one more grant from its bucket keeps within burst plus rate times length in every stretch from an earlier event to now |
| `RateLimiterExact.GrantsExactly` | internal/middleware/ratelimiter.go:90-190 | if a bucket refills while it goes stale and no request races the cleanup, the same holds for all grants to the client, however often its bucket was evicted |
| `RateLimiter.SameDecisions` | internal/middleware/ratelimiter.go:90-190 | with lookup, spend, staleness test and delete as separate steps of any number of requests and the cleaner: if a bucket refills while it goes stale and no request races the cleanup, the limiter that evicts answers like the one that keeps all buckets |
| `RateLimiterRaces.EveryRaceShows` | internal/middleware/ratelimiter.go:95-106 | after any run without races, the first request that spends between the test and the delete of its bucket, or on a bucket deleted since it looked it up, can be told from the answers at that instant |
| `RateLimiterRaces.EvictionShowsExactly` | internal/middleware/ratelimiter.go:169-190 | without races some run shows the eviction if and only if rate times staleAfter is less than the burst; with them if and only if the burst is at least one |
| `RateLimiter.EveryRunIsBounded` | internal/middleware/ratelimiter.go:90-190 | in every run and interval a client is admitted at most the burst plus rate times length, one more burst for each of its buckets deleted before it was full, and its requests that spend from a deleted bucket |
| `RateLimiter.EarlyDeletesAreRaced` | internal/middleware/ratelimiter.go:178-187 | if a bucket refills while it goes stale, only a bucket spent from between its test and its delete is deleted before it is full |
| `RateLimiter.EveryClientIsBounded` | internal/middleware/ratelimiter.go:90-190 | then the bound has one more burst per raced delete, and is burst plus rate times length in runs without races |
| `RateLimiterRaces.TwoBurstsAtOnce` | internal/middleware/ratelimiter.go:178-187 | under all settings with a positive burst and rate, a client is admitted two whole bursts at one instant in the stated run |
| `RateLimiterRaces.OneBurstPerDeleteIsNotEnough` | internal/middleware/ratelimiter.go:95-106 | a run in which late requests exceed one more burst per raced delete |
| `RateLimiter.TokenBucket.Take` | internal/middleware/ratelimiter.go:103-121 | answer and new fields are those of one request on the bucket |
| `RateLimiter.Limiter.LoadOrStore` | internal/middleware/ratelimiter.go:95-101 | the client's bucket, or a full new one that is then stored |
| `RateLimiter.Limiter.AllowClient` | internal/middleware/ratelimiter.go:90-121 | a call that nothing interrupts answers and spends on its client's bucket only, and on none when the rate is not positive |
| `RateLimiter.Limiter.CleanupStaleClients` | internal/middleware/ratelimiter.go:177-187 | a cleanup that nothing interrupts removes exactly the stale buckets |
| `RateLimiter.WholeRequestIsTwoSteps` | internal/middleware/ratelimiter.go:95-121 | such a call is a lookup step and a spend step of the machine |
| `RateLimiter.WholeCleanupIsTwoSteps` | internal/middleware/ratelimiter.go:178-187 | and its removal of a client a test step and a delete step |
| `HashRing.OwnerIs` | internal/cache/peer.go:1582-1597 | the owner is the last holder of the clockwise successor point |
| `HashRing.MembershipMovesOnlyItsKeys` | internal/cache/peer.go:1277-1294 | for every hash and list, inserting a peer anywhere leaves a key's owner or makes it the new peer, and removing one moves only its keys |
| `HashRing.Ring.Add` | internal/cache/peer.go:1573-1580 | the ring then holds exactly the points of the longer list, sorted, with their last holders |
| `HashRing.Ring.Get` | internal/cache/peer.go:1582-1597 | the binary search returns the owner the clockwise definition gives, collisions included |
| `HashRing.BuildRing` | internal/cache/peer.go:1277-1294 | adding the peers in order represents the list |
| `HashRing.PeerTable.UpdatePeers` | internal/cache/peer.go:1277-1294 | the new ring represents exactly the new list |
| `HashRing.PeerTable.IsOwner` | internal/cache/peer.go:305-312 | true exactly for a replica without peers or the key's owner |
| `L1Cache.LRUVictimsAreASuffix` | internal/cache/cache.go:637-651 | the recency pass keeps the longest prefix of the recency order under which the value fits |
| `L1Cache.SelfEvictionExactly` | internal/cache/cache.go:543-564 | the overwritten key survives eviction if and only if the cache has room for more than one entry and the key is not an expired one met by the expiry pass |
| `L1Cache.StoreDrift` | internal/cache/cache.go:543-564 | a store shifts the byte count's error by the old size exactly on self-eviction |
| `L1Cache.StoreFits` | internal/cache/cache.go:543-564 | a store leaves entry count and running byte count within their limits |
| `L1Cache.ReachableStates` | internal/cache/cache.go:543-678 | in every reachable state map, index and list hold the same keys once, the entry limit holds, and the running count falls short of the bytes held by exactly the self-evicted bytes of the run |
| `L1Cache.OverwritesDrift` | internal/cache/cache.go:544-551 | with room for one entry, n overwrites of a live key lower the running count by n times its size while the same bytes are held |
| `L1Recency.ListIsOrderOfUse` | internal/cache/cache.go:543-678 | in every reachable state, under any limits, the recency list holds exactly the held keys, and one key comes before another if and only if its last accepted store or promotion is later in the run |
| `L1Recency.HoldsLastStore` | internal/cache/cache.go:543-564 | a held key has the value and deadline of its last accepted store, and holds it right after that store |
| `L1Recency.SweptExactly` | internal/cache/cache.go:543-635 | the expiry pass of a store leaves another key if and only if it was held and either the value fits at once or the key has not expired |
| `L1Recency.SurvivesExactly` | internal/cache/cache.go:637-651 | and the recency pass keeps it if and only if the value fits once all keys with an older last use are gone |
| `L1Cache.Cache.RemoveExpired` | internal/cache/cache.go:619-635 | the map loop removes exactly the expired entries with their list elements and bytes |
| `L1Cache.Cache.EvictIfNeeded` | internal/cache/cache.go:619-652 | both passes leave the specified state |
| `L1Cache.Cache.StoreLocal` | internal/cache/cache.go:543-564 | the whole store leaves the specified state and keeps the indexes coherent, with the stored key in front as `L1Recency.ListIsOrderOfUse` demands |
| `L1Cache.Cache.Invalidate` | internal/cache/cache.go:571-594 | removes the entry everywhere or changes nothing |
| `L1Cache.Cache.InvalidatePrefix` | internal/cache/cache.go:596-610 | removes exactly the keys with the prefix |
| `L1Cache.Cache.ApplyPromotion` | internal/cache/cache.go:199-231 | moves the key to the front and changes nothing else |
| `DiskCache.NewestCopyIsLatest` | internal/cache/disk.go:214-299 | in every run, however flushes overlap, fail or refuse entries, the newest copy of a key in the buffer or a swapped buffer is its latest accepted write |
| `DiskCache.StaleReadExactly` | internal/cache/disk.go:142-203 | a read that missed the buffer and looks into the bucket after any further events returns a write older than the latest one before it began if and only if the bucket has an unexpired copy last put by a flush older than the youngest that had taken the key |
| `DiskCache.StaleNowExactly` | internal/cache/disk.go:142-203 | at one instant a read is older than the latest write if and only if the key is not in the buffer, its bucket copy is unexpired and the flush that last put it is not the youngest that took it; any other hit is the latest write |
| `DiskCache.NeverStaleExactly` | internal/cache/disk.go:142-299 | no read of a key at any point of a run, at any time, returns a replaced write if and only if no flush takes the key while it is on disk and no commit puts a copy that a later flush replaced, unless the buffer has the key |
| `DiskCache.ReadsLatestOrMisses` | internal/cache/disk.go:142-299 | if the flushes of a key commit oldest first and keep it, a read that hits returns the latest accepted write if and only if the key is in the buffer or in no flush in flight |
| `DiskCache.ReadsAreWritesAndFresh` | internal/cache/disk.go:142-299 | however flushes overlap, a read returns an accepted write of its key that has not expired |
| `DiskHits.HitsExactly` | internal/cache/disk.go:142-345 | over the events of every run: a key whose last accepted write no flush has taken reads as that write until its deadline; otherwise the write last put on disk that was not replaced, deleted or swept since does; nothing else hits |
| `DiskHits.DeletesAreOfExpired` | internal/cache/disk.go:185-203 | every scheduled delete comes from a read of the key that found a copy on disk at or after its deadline |
| `DiskHits.SchedulesExactly` | internal/cache/disk.go:142-203 | and a read schedules one if and only if it finds such a copy |
| `DiskCache.EveryOverwriteExposes` | internal/cache/disk.go:236-242 | from every state in which a key is buffered and on disk, the swap makes a read return the old value |
| `DiskCache.RefusedWriteLeavesOld` | internal/cache/disk.go:262-284 | a write whose commit refuses it leaves the old value to be read with nothing in flight |
| `DiskCache.OverlappingFlushesCanResurrect` | internal/cache/disk.go:236-242 | two flushes committed the wrong way round make a read return a replaced value |
| `DiskCache.DiskTier.SetEntry` | internal/cache/disk.go:214-233 | buffers accepted values only, and flushes at the size limit |
| `DiskCache.DiskTier.Flush` | internal/cache/disk.go:236-299 | equals a swap step followed by its commit of the entries that encode and fit the byte cap at their turn, or by a failure that changes nothing on disk |
| `DiskCache.DiskTier.PutAll` | internal/cache/disk.go:258-291 | the loop puts exactly the kept entries and stays within the byte cap; without a cap it keeps all that encode |
| `DiskCache.DiskTier.SweepExpired` | internal/cache/disk.go:304-345 | deletes exactly the scanned entries that expired or cannot be read |
| `DiskCache.DiskTier.GetFresh` | internal/cache/disk.go:142-203 | returns the fresh read that `DiskHits.HitsExactly` determines and schedules a delete exactly for an expired bucket entry |
| `Fleet.PushNeverExtends` | internal/cache/peer.go:435-474 | the receiver's TTL is at most the sender's if and only if that is at least one millisecond |
| `Fleet.NoCopyOutlivesItsWrite` | internal/cache/cache.go:285-541 | in a run of any replicas every copy in memory, on disk or on the wire expires no later than its write's time plus TTL plus the time it spent travelling, if and only if no pushed write asks for less than a millisecond and no disk hit starts a default TTL that ends later |
| `Fleet.DelayIsAtMostElapsed` | internal/cache/peer.go:317-457 | that travelling time never exceeds the time since the write |
| `Fleet.ShortPushOutlives` | internal/cache/peer.go:468-474 | from every quiet state, every pushed write of less than a millisecond can leave a copy that outlives it |
| `Fleet.RestartOutlives` | internal/cache/cache.go:392-399 | and so can every disk hit whose default TTL is longer than what is left |
| `FleetBounds.NoCopyIsCutShort` | internal/cache/cache.go:285-541 | in every run every copy in memory, on disk or on the wire lasts at least for the TTL its write is entitled to, counted from the write plus its travelling time, less one millisecond per move |
| `FleetBounds.ServesWhatIsLeft` | internal/cache/peer.go:621-639 | an owner hands a value out if and only if five seconds are left of it, and with it what is left, rounded down to milliseconds |
| `Fleet.OwnerKeepsTTLExactly` | internal/cache/cache.go:508-517 | a push carries its write's TTL if and only if that is at most 30 seconds, else 30 seconds, and the owner keeps that TTL if and only if it is also a positive number of whole milliseconds |
| `Fleet.FiveMinutesBecomeThirtySeconds` | internal/cache/cache.go:508-517 | a five-minute write at a non-owner expires at the owner after 30 seconds |
| `Fleet.PushesExactly` | internal/cache/cache.go:374-541 | with an agreed ring every push goes to the owner, which never forwards it, and a write is pushed once for a non-owner's own write and once for each `Cache.Get` at a non-owner that keeps a fetched or stored copy whose clamped TTL reaches the minimum; hence at most once exactly under the stated counts |
| `Fleet.EveryFetchPushesBack` | internal/cache/cache.go:401-412 | for every n, under the defaults and an agreed ring, a run in which one write at its owner is pushed n times |
| `ReadAhead.WithinBudgets` | internal/cache/peer.go:941-1005 | the selection is distinct eligible candidates within both budgets |
| `ReadAhead.Maximal` | internal/cache/peer.go:941-1005 | at the end a budget is used up or no eligible unselected candidate fits the bytes left |
| `ReadAhead.FairShares` | internal/cache/peer.go:988-1003 | the selection is a part in which no tenant passes its cap, then entries of tenants at their cap, and the latter only if every candidate had its first-pass turn |
| `ReadAhead.CapIsTheShare` | internal/cache/peer.go:947-950 | a tenant's cap is the greatest number of keys within its percentage of the key budget, and at least one |
| `ReadAhead.TenantsWithinTheirShare` | internal/cache/peer.go:941-1005 | in the fair part no tenant passes its percentage of the key budget with more than one key, and a tenant with an entry past it could not have had one more there |
| `ReadAhead.FirstComeFirstServed` | internal/cache/peer.go:957-995 | the fair pass takes a further candidate if and only if it is eligible, new, affordable and within its share given those before it, which stay as they were |
| `ReadAhead.Selector.TryAdd` | internal/cache/peer.go:957-986 | takes the entry exactly under the stated tests and updates every budget |
| `ReadAhead.Select` | internal/cache/peer.go:941-1005 | the two loops compute the specified selection |
| `LogsQLText.UnquoteQuote` | internal/logsql/ast.go:13-17 | scanning a quoted string returns the original and stops exactly after its closing quote, whatever follows |
| `LogsQLText.ReadsQuote` | internal/logsql/scanner.go:152-183 | a quoted literal is read as one string token before any text |
| `LogsQLFilter.LexPrint` | internal/logsql/ast.go:191-329 | the printed text of a well-formed tree scans to exactly its tokens |
| `LogsQLRoundTrip.NormKeepsMeaning` | internal/logsql/ast.go:288-329 | left reassociation and negated fields as negations mean the same on every record |
| `LogsQLRoundTrip.NormKeepsText` | internal/logsql/ast.go:288-329 | and print to the same text |
| `LogsQLRoundTrip.RoundTrip` | internal/logsql/parser.go:140-269 | parsing the printed text of a well-formed tree gives its normal form, with the same meaning and text |
| `LogsQLGrammar.ParsesExactly` | internal/logsql/parser.go:144-646 | a text is accepted with a given tree if and only if its tokens spell that tree in a concrete syntax that lists every spelling of every filter and groups conjunctions and disjunctions to the left |
| `LogsQLText.OnlyVerbatimReads` | internal/logsql/scanner.go:152-183 | only text without a quote, in which backslashes stand before characters they do not change, comes back from between quotes unchanged |
| `LogsQLExact.RoundTripExactly` | internal/logsql/parser.go:144-437 | every tree reads back if and only if its names and words are plain identifiers the parser does not take for something else, each exact prefix is such text, and no field filter has an exact prefix |
| `LogsQLExact.QuoteInExactPrefix` | internal/logsql/ast.go:349-354 | an exact prefix with a quote does not |
| `LogsQLParser.Scanner.ScanQuoted` | internal/logsql/scanner.go:152-183 | the byte loop reads the specified string and rest |
| `LogsQLParser.Scanner.ScanIdentifier` | internal/logsql/scanner.go:228-262 | reads the longest identifier |
| `LogsQLParser.Scanner.ScanColonOp` | internal/logsql/scanner.go:198-226 | reads the longest colon operator |
| `LogsQLParser.Scanner.Next` | internal/logsql/scanner.go:73-150 | returns the specified next token and leaves the rest |
| `LogsQLParser.Parser.ParseOrExpr` | internal/logsql/parser.go:144-158 | the loop agrees with the grammar on every input |
| `LogsQLParser.Parser.ParseAndExpr` | internal/logsql/parser.go:160-174 | the loop agrees with the grammar on every input |
| `LogsQLParser.Parser.ParseNotExpr` | internal/logsql/parser.go:176-188 | agrees with the grammar on every input |
| `LogsQLParser.Parser.ParsePrimaryFilter` | internal/logsql/parser.go:190-269 | agrees with the grammar on every input |
| `LogsQLParser.Parser.ParseIdentOrFieldFilter` | internal/logsql/parser.go:275-437 | agrees with the grammar on every input |
| `LogsQLParser.Parser.ParseBareCsFilterValue` | internal/logsql/parser.go:443-646 | agrees with the grammar on every input |
| `LogsQLParser.ParseText` | internal/logsql/parser.go:19-29 | the answer is the grammar's for the whole input |
| `LogQLTree.TreeIsUnique` | internal/logql/parser.go:250-269 | a yield has at most one tree that respects the six levels, left associative except for `^` |
| `LogQLTree.PrecedenceIsRespected` | internal/logql/parser.go:271-316 | the climber accepts a token sequence with a given tree if and only if the tree respects the levels and has that flat in-order yield |
| `LogQLGrammar.ParsesExactly` | internal/logql/parser.go:156-345 | a token sequence is accepted with a given tree if and only if it spells that tree in a concrete syntax with leading and trailing groupings, label lists with and without commas or left out, matching clauses and modifiers |
| `LogQLGrammar.LevelsAre` | internal/logql/parser.go:250-269 | the precedences are the six levels of Loki's operators, listed from the loosest to the tightest |
| `LogQLGrammar.TwoOperators` | internal/logql/parser.go:271-316 | of any two operators in a row the one on the tighter level binds first, on one level the left one, and of two `^` the right one |
| `LogQLRoundTrip.RoundTrip` | internal/logql/ast.go:399-474 | for every tree of binary operators, aggregations, matching modifiers, literals and atoms, parsing what is printed gives the same tree |
| `LogQLRoundTrip.RoundTripExactly` | internal/logql/parser.go:1129-1187 | a tree reads back if and only if its operators are operators and exactly topk and bottomk carry a positive parameter; everything the parser accepts does |
| `LogQLParser.Parser.ParseBinaryRHS` | internal/logql/parser.go:271-316 | the climbing loop agrees with the grammar on every input |
| `LogQLParser.Parser.ParsePrimary` | internal/logql/parser.go:156-242 | agrees with the grammar on every input |
| `LogQLParser.Parser.ParseVectorAggregation` | internal/logql/parser.go:1129-1187 | agrees with the grammar on every input, groupings before and after the operand included (`LogQLGrammar.ParsesExactly`) |
| `LogQLParser.Parser.ParseNameLoop` | internal/logql/parser.go:320-336 | the label loop reads the names up to the closing parenthesis |
| `LogQLParser.Parser.ReadGrouping` | internal/logql/parser.go:1191-1212 | agrees with the grammar on every input |
| `LogQLParser.ParseTokens` | internal/logql/parser.go:29-40 | the answer is the grammar's for the whole input |
| `PatternText.CaptureLenIs` | internal/logql/stage_validate.go:223-239 | the hand-written recogniser accepts exactly the prefix the regular expression matches |
| `PatternValidator.Validate` | internal/logql/stage_validate.go:178-219 | the first complaint in order; none exactly for patterns with a name, no name twice and no touching captures |
| `PatternCompiler.Compile` | internal/logql/pipeline.go:749-785 | from the leftmost matches the loop builds the parts of the accepted patterns and rejects all others |
| `PatternCompiler.SamePatterns` | internal/logql/pipeline.go:749-785 | every pattern has such matches, and validator and compiler accept the same patterns |
| `PatternCompiler.CompiledShape` | internal/logql/pipeline.go:749-785 | a compiled pattern alternates captures and literals, has distinct names, at least one, and spells the pattern |
| `PatternMatcher.MatchIsFaithful` | internal/logql/pipeline.go:788-819 | past a leading literal, literals and captures taken plus the rest rebuild the line, each capture before a found literal is shortest, and one whose literal is absent takes the rest; else nothing is taken |
| `PatternMatcher.CompiledLabels` | internal/logql/pipeline.go:788-819 | every named capture that was taken is a label with its text and no other label changes |
| `PatternMatcher.MatchLine` | internal/logql/pipeline.go:788-819 | the loop fills the labels of the specified walk |
| `LabelFormat.OrderDoesNotMatter` | internal/logql/pipeline.go:144-171 | a stage that passes the test and whose renames read nothing it writes gives every entry the same labels evaluated in sequence as at once |
| `LabelFormat.SwapDependsOnOrder` | internal/logql/pipeline.go:157-160 | the test passes a swap of any two labels, whose two evaluation orders differ on every entry where the labels differ |
| `LabelFormat.AgreeExactly` | internal/logql/pipeline.go:342-367 | for stages of renames, texts and field references, evaluation in sequence and at once agree on all entries if and only if each assignment that is not overwritten reads a label the earlier ones left as it was |
| `LabelPushdown.ConvertsSimple` | internal/translator/translator.go:1880-1887 | the translator leaves a bare name and a text without actions as they are and turns a field reference into a placeholder |
| `LabelPushdown.TranslateLabelFormat` | internal/translator/translator.go:1851-1872 | the loop emits one pipe per assignment, in order |
| `LabelPushdown.RightExactly` | internal/translator/translator.go:1851-1887 | the pipes of a stage give every entry the stage's labels if and only if each assignment that is not overwritten has a pipe that leaves, in terms of the labels before the stage, what it means |
| `LabelPushdown.PushedDownExactly` | internal/logql/pipeline.go:110-171 | for stages without a label assigned twice that is so if and only if there is no rename, no text with a placeholder, and no reference to a label an earlier assignment changes |
| `LabelPushdown.TestIsEnoughExactly` | internal/logql/pipeline.go:153-171 | a stage that passes the test is pushed down rightly if and only if it has no rename and no text with a placeholder |
| `LabelPushdown.BareRenameWritesTheName` | internal/logql/pipeline.go:113-116 | a bare rename passes the test, and its pipe gives the right labels exactly on entries whose label has its own name as value |
| `LabelPushdown.BracketedTextReadsTheLabel` | internal/logql/pipeline.go:113-116 | a text in brackets passes the test and gets the pipe of the reference |
| `LabelFormat.LabelFormatPushable` | internal/logql/pipeline.go:153-171 | the two loops compute the test |
| `LabelFormat.Entry.ApplyLabelFormat` | internal/logql/pipeline.go:342-367 | all assignments read the labels from before the stage |
| `BinaryBudget.ChargesArrays` | internal/proxy/binary_budget.go:63-88 | for every JSON text of RFC 8259, whatever its spacing, nesting and strings, the scanner charges the number of arrays and ends outside a string |
| `BinaryBudget.AcceptsExactly` | internal/proxy/binary_budget.go:49-90 | a valid response is accepted if and only if its arrays fit, and then exactly they are charged |
| `BinaryBudget.SharedBudgetBounds` | internal/proxy/binary_budget.go:14-30 | operands sharing a budget decode to at most that many arrays together, rejected ones included in between |
| `BinaryBudget.Budget.CheckDecode` | internal/proxy/binary_budget.go:49-90 | the loop accepts and charges as specified for any bytes |
| `CompressWriter.BodyReachesOneSink` | internal/middleware/compress.go:61-181 | after finish one sink holds exactly the concatenated writes and the other nothing, the status was sent at most once, and every acquired hold buffer was released once |
| `CompressWriter.RunConserves` | internal/middleware/compress.go:61-141 | at every moment buffer or one sink is exactly the body so far |
| `CompressWriter.DecisionIsFinal` | internal/middleware/compress.go:113-141 | once output started, sink and status do not change |
| `CompressWriter.ThresholdDecides` | internal/middleware/compress.go:93-181 | without flush, own encoding or bodiless status a response is compressed if and only if its whole body reaches minBytes, however it is cut |
| `CompressWriter.OutcomeExactly` | internal/middleware/compress.go:61-181 | for every run of operations, the status line and the sink are those asked for up to the first operation that starts the output; if none does, those of all operations, compressed if and only if nothing forbids it and the body reaches minBytes |
| `CompressWriter.ChosenIs` | internal/middleware/compress.go:113-125 | the status asked for is that of the last header, or 200 without a header if something was written, or none |
| `CompressWriter.ResponseWriter.WriteBytes` | internal/middleware/compress.go:61-111 | the writer's fields follow the step, and only a buffer not given back is touched |
| `CompressWriter.ResponseWriter.WriteStatus` | internal/middleware/compress.go:113-125 | the writer's fields follow the step, which keeps the code `OutcomeExactly` says is sent |
| `CompressWriter.ResponseWriter.FlushNow` | internal/middleware/compress.go:127-141 | the writer's fields follow the step |
| `CompressWriter.ResponseWriter.Close` | internal/middleware/compress.go:150-181 | the writer's fields follow finish and no buffer is held |

## Left out

- LogsQLParser.Parser.ParseAtomFilter: regular expressions, stream filters, time filters and the word functions with arguments other than `i(...)` end in a separate outcome, as does a bare value with a function name.
- LogsQLParser.Parser.ParsePrimaryFilter: stream and regular-expression filters end in that separate outcome.
- LogsQLParser.Parser.ParseIdentOrFieldFilter: time filters, regular-expression values and function words other than `i` end in that separate outcome.
- LogsQLParser.Parser.ParseBareCsFilterValue: values that are function calls end in that separate outcome.
- LogsQLParser.ParseText: inherits that separate outcome.
- LogsQLGrammar.ParsesExactly: the syntax has no spelling for what ends in that separate outcome.
- LogsQLText.ReadsQuote: outside quoted strings the scanner works on single characters; multi-byte identifiers are not modelled.
- LogQLRoundTrip.RoundTrip: works on tokens; number texts, range aggregations, selectors and raw functions are one token each, and label names are words the scanner does not read as keywords.
- LogQLGrammar.ParsesExactly: works on the same tokens.
- LogQLParser.Parser.ParsePrimary: range aggregations, selectors and raw functions are single tokens that it takes as they are.
- LogQLParser.ParseTokens: asks for input without the end token, which the scanner produces only at the end.
- BreakerInterleaving.InterleavingsAreAtomicRuns: the statistics counters of the breaker are not part of the state.
- Coalescer.EveryInterleaving: the disabled mode (a direct guarded call), the statistics counters and calls of `Do` that bypass the guard are not modelled; singleflight is its documented behaviour, which passes a panic on to every waiter.
- RateLimiter.SameDecisions: the concurrency semaphore and the rejection counters are left out, and arithmetic is exact.
- RateLimiter.Limiter.CleanupStaleClients: as an object it runs to completion; interleavings are the machine's.
- L1Cache.ReachableStates: asks for maxEntries of at least 1 and a byte budget that is not negative; the hot-key statistics are left out.
- DiskCache.DiskTier.Flush: sizes, encoding and failing puts are parameters; purging and the order in which the sweep cursor moves are left out.
- DiskCache.DiskTier.GetFresh: an entry that cannot be decoded, which the source misses, is left out.
- Fleet.PushesExactly: asks for an agreed ring; while rings disagree a push may be forwarded.
- LabelFormat.AgreeExactly: field references have one segment, and a template that fails at run time, which sets an error label, is left out.
- LabelPushdown.RightExactly: the backend's `format` pipe replaces `<name>` by the label's value and nothing else; its options, escapes and the templates it rejects are left out, as is the quoting of the stage's text.
- BinaryBudget.Budget.CheckDecode: request cancellation is left out.
- CompressWriter.BodyReachesOneSink: sinks do not fail; the capture of encoded bodies, the header defaults and the codecs themselves are left out.
- PatternCompiler.Compile: the matches of the regular expression are a parameter, described by what leftmost matching means; the cache of compiled patterns is left out.
- HTTP transport, peer discovery, authentication and metrics: plumbing around the modelled logic.
- The query translator, window splitting and the matching of binary operands by labels.
- Regular-expression filters, JSON and logfmt extraction and template functions of the pipeline.
