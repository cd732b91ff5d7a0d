# Courier location service: a verified model

The service answers "where is the courier of my order?" from a TTL cache. A background
protocol keeps that cache filled: it tracks the orders somebody asks about, resolves each to
its courier, asks every courier once per cycle, and writes all positions in one batch. Several
pods share one cache and elect a leader with an expiring lock; every pod also consumes a
bounded queue of urgent syncs. Two caches implement one contract, one in memory and one on
Redis.

This project models that behaviour in Dafny and proves what it is for:

* the batch cycle does what the naive loop over `SyncOrder` does, with one call per courier;
* the two caches give the same answers over every run of admissible whole calls, and a call
  keeps them in step if and only if it is admissible;
* leader exclusion over every interleaving of any number of pods, exactly how long the lock TTL
  has to be for it, what renewing, standing by and stopping achieve, bounded failover, and the
  history laws of the lock;
* the worker pool, the urgent consumer and the client pipeline in every schedule: bounds, no
  loss, no duplication, progress (for the consumer if and only if it has a slot) and
  termination measures;
* what a request gets: a hit if and only if something stored the order's location within its
  TTL, and then exactly what was stored last;
* the tracking window, exactly which orders the Redis form tracks, and that a watched order
  never misses;
* provenance of everything cached, in every interleaving of single and batch syncs.

`dafny verify dfyconfig.toml` checks everything. The model is proved, not executed.

## How the pieces fit

| module | what it is |
|---|---|
| `Domain` | ids (64-bit), times, coordinates, locations, orders |
| `Keys` | decimal ids and the layout of the flat Redis keyspace |
| `MemoryCache` | the in-memory cache: a state (`Store`) with its transitions, and the class whose methods perform them |
| `Redis`, `RedisCache` | the Redis commands in use as steps on an expiring keyspace, and the repository class built from them |
| `CacheSimulation` | both caches side by side |
| `RedisCleanup` | `RemoveInactiveOrders` on Redis, command by command, under interference |
| `LeaderLock`, `LeaderElection` | histories of lock calls; N pods electing, syncing and stopping |
| `PollerService`, `PreWarm` | `SyncOrder`, `SyncActiveOrders`, `PreWarmCache` |
| `WorkerPool` | the bounded pool behind both fetches of a cycle |
| `SyncInterleaving` | all sync paths of all pods interleaved over one cache |
| `UrgentConsumer` | the urgent queue, its consumer and `Stop` |
| `LocationService`, `TrackingWindow`, `RedisTracking` | the read path, and what it means for tracking and hits |
| `Client`, `Metrics` | the client's fan-out and fan-in, and its tally |

A class method is proved equal to a transition function of the old state; the laws are then
lemmas about those functions. Concurrency is a datatype of actions with `Enabled` and `Apply`,
and a statement about every schedule is a lemma about every sequence of enabled actions.

## Assumptions

* A time is a whole number of milliseconds and 0 is Go's zero time. Each cache call reads the
  clock once; the clock never runs back. Where a TTL has to be positive a `requires` says so: a
  zero TTL means "never expires" for locations and mappings but "gone at the next clean-up" for
  pre-warmed heartbeats (memory_cache.go:72, 170, 266-269).
* Expiry is strict: an entry or lock is alive at exactly its expiry time (memory_cache.go:22,
  170, 206). Redis is assumed to draw the same boundary and to share the service's clock.
* Coordinates are carried, never computed with. The JSON form of a location and the RFC 3339
  form of a timestamp are kept as the values they encode.
* Order Service and Courier Service are partial functions for the length of one cycle where a
  cycle is compared with the naive loop, and arbitrary, possibly failing, replies where
  interleavings are considered.
* singleflight's `Do` means one execution per key and pod whose result all joiners share.
* The comparison of the cycle with the naive loop is for a fixed clock, no cancellation, and a
  cache that does not fail. `WorkerPool` covers every schedule and a cancellation at any moment
  of the two fetches, and shows that an uncancelled pool computes what `PollerService` uses.

## Where the code and its comments differ

* redis_cache.go:135-137 says that a registration is atomic. `Pipeline()` is not a
  transaction: `RedisCleanup.RegistrationCanBeLost` gives a schedule that loses the tracking of
  an order whose heartbeat is alive, and `RedisCleanup.LiveMemberLostIffRaced` says exactly when
  that happens. `RedisTracking.LostOrderIsPickedUp` shows that it heals.
* poller_service.go:88 says that concurrent requests for an order call Order Service exactly
  once. A cycle calls the client directly (:283): `SyncInterleaving.CycleCallsBesideSyncOrder`
  is a run with two calls in flight, and `SyncInterleaving.CallsOverlapIffOneIsACycles` says
  that two calls for one order on one pod can be in flight at once if and only if at least one
  of them is a cycle's. (The worker of a pod runs one cycle at a time, so there the other one is
  a `SyncOrder`'s; the service itself does not prevent two cycles.)
* location_service.go:69 takes a hit order to be tracked already, and redis_cache.go:169-171
  says that a refresh keeps an order polled. On Redis a hit on an order that a clean-up dropped
  stays untracked: `RedisTracking.HitLeavesUntracked` is such a history, and
  `RedisTracking.TrackedIff` and `RedisTracking.TrackedAfterCleanUpIff` say exactly which orders
  are tracked.
* poller_worker.go:92 and :201 say that only the leader polls. `isLeader` is a cached flag:
  `LeaderElection.TwoLeadersWithoutTiming` reaches two leaders, and
  `LeaderElection.LeaderExclusion` holds whenever no claimed lease has run out. When pods are
  punctual (attempts begin at most an interval apart and take at most a given time), exclusion
  holds if and only if the lock TTL covers one interval and one attempt
  (`LeaderElection.ExclusiveIffTtlCovers`).
* Pre-warming equals registering and then syncing each order if and only if no order is listed
  with an answering courier other than its last one (`PreWarm.PreWarmAgreesIff`). This matters
  only to another Order Service client: the shipped `GetAllOrders` walks a map keyed by order id
  (order_service_mock.go:141-153) and lists no order twice, which `PreWarm.DistinctIsConsistent`
  covers.
* The header of redis_cache.go names TTLs other than the configured ones; TTLs are parameters
  here.

## Model

| member | source | states |
|---|---|---|
| `PollerService.PollerService.SyncActiveOrders` | internal/service/poller_service.go:167-261 | the cycle leaves exactly what purging, then running SyncOrder over any listing of the tracked orders, then setting lastSync leaves; each resolved courier is asked exactly once, and Order Service exactly once for each tracked order without a live mapping |
| `PollerService.SyncEachIsSyncSet` | internal/service/poller_service.go:159-167 | the naive loop over any listing, whatever its order and repeats, is one order-by-order update of the set |
| `PollerService.EveryListing` | internal/service/poller_service.go:190-201 | so all listings of the tracked set end in the same state |
| `PollerService.BatchIsLocationsAfter` | internal/service/poller_service.go:231-250 | writing the batch of a cycle updates exactly the answered orders and keeps every other location |
| `PollerService.BatchOfCycle` | internal/service/poller_service.go:217-245 | grouping, deduplicated calls and fan-out list an order if and only if it is tracked, resolved and its courier answered, with its own courier's answer, whatever order the maps are walked in |
| `PollerService.PutLocationsPointwise` | internal/repository/cache/memory_cache.go:85-101 | a batch without conflicting entries writes each of its orders and nothing else |
| `PollerService.PollerService.SyncOrder` | internal/service/poller_service.go:104-157 | one execution: new cache state, success exactly if the order resolves and its courier answers, and which external calls are made |
| `PollerService.PollerService.ResolveCouriers` | internal/service/poller_service.go:190-210 | cached mappings win, missing ones are asked for once and cached, unresolvable orders are left out |
| `PollerService.PollerService.GroupByCourier` | internal/service/poller_service.go:217-221 | a courier has a group exactly if some order resolves to it, holding exactly those orders, each once |
| `PollerService.PollerService.BuildLocations` | internal/service/poller_service.go:231-245 | the fan-out for every order of walking the answers |
| `PollerService.PollerService.FetchMissingOrderCouriers` | internal/service/poller_service.go:264-297 | each missing order is asked for once; the result is Order Service restricted to them |
| `PollerService.PollerService.FetchCourierCoordinates` | internal/service/poller_service.go:300-333 | each courier is asked once; the result is Courier Service restricted to them |
| `PollerService.PollerService.PreWarmCache` | internal/service/poller_service.go:342-400 | the start-up write, with one call per distinct courier |
| `PreWarm.PreWarmAgreesIff` | internal/service/poller_service.go:335-400 | from every cache state and for every walk of the answers, pre-warming equals PreWarmOrders and then SyncOrder for each order, if and only if no order is listed with an answering courier other than its last |
| `PreWarm.DistinctIsConsistent` | internal/service/poller_service.go:342-391 | orders with distinct ids always qualify |
| `PreWarm.InconsistentDiffers` | internal/service/poller_service.go:357-385 | from every cache state, for an order listed with an answering courier other than its last, some walk leaves it that courier's answer, where the naive start-up leaves the last one's answer or what was cached |
| `PreWarm.NaiveLocations` | internal/service/poller_service.go:353-391 | the naive start-up, order by order: each listed order ends with its last courier's answer |
| `PreWarm.MappedUntilExpiry` | internal/service/poller_service.go:194-210 | right after a pre-warm each listed order's mapping is its last courier, readable until exactly the mapping TTL has passed |
| `TrackingWindow.PreWarmedNeedNoOrderService` | internal/service/poller_service.go:194-210 | whatever runs in between, a cycle within one mapping TTL of a pre-warm asks Order Service for none of its orders |
| `WorkerPool.CallsBounded` | internal/service/poller_service.go:264-333 | in every schedule at most WorkerConcurrency calls are in flight, no id is called twice, and called ids lie in the dispatched prefix |
| `WorkerPool.OnReturn` | internal/service/poller_service.go:264-333 | on return no goroutine lives and no slot is taken; called ids are a prefix, all of it unless cancelled; the result is exactly the successful replies |
| `WorkerPool.PoolComputesRestriction` | internal/service/poller_service.go:264-333 | against a fixed partial function every uncancelled schedule computes its restriction to the ids |
| `WorkerPool.StepsTerminate` | internal/service/poller_service.go:270-296 | every step lowers a measure of remaining ids and live goroutines |
| `WorkerPool.CancelReturns` | internal/service/poller_service.go:270-296 | after a cancellation something can move until the return without another id being dispatched, even when no slot is free |
| `WorkerPool.NeverStuck` | internal/service/poller_service.go:270-296 | with at least one slot something can move until the return |
| `SyncInterleaving.EverythingCachedIsGenuine` | internal/service/poller_service.go:104-157 | in every interleaving of all sync paths on all pods, cached mappings are the assignment, and cached locations are of their own order, of the assigned courier, with coordinates that courier service returned for it |
| `SyncInterleaving.CallsOverlapIffOneIsACycles` | internal/service/poller_service.go:87-97 | two Order Service calls for one order on one pod can be in flight at once if and only if at least one of them is a cycle's |
| `SyncInterleaving.SecondCallIffCycleAsks` | internal/service/poller_service.go:264-297 | in every reachable state in which SyncOrder asks for an order, a second call for it is in flight on that pod if and only if a cycle there asks too |
| `SyncInterleaving.CycleCallsBesideSyncOrder` | internal/service/poller_service.go:278-287 | a concrete run with both calls in flight |
| `SyncInterleaving.ExecutionsNeverOverlap` | internal/service/poller_service.go:104-106 | a step towards the others, from singleflight's meaning and every interleaving: two running executions of SyncOrder on one pod are for different orders |
| `SyncInterleaving.OrderServiceOncePerTtl` | internal/service/poller_service.go:106-125 | once an execution has cached a mapping, no SyncOrder on that pod calls Order Service for the order, or waits for it, until the mapping expires, given cache accesses that succeed |
| `SyncInterleaving.AloneIsSyncOrder` | internal/service/poller_service.go:104-157 | an interleavable call of SyncOrder that runs by itself does to mappings and locations exactly what the sequential SyncOrder does |
| `SyncInterleaving.AloneIsCycle` | internal/service/poller_service.go:190-250 | an interleavable cycle over any orders that runs by itself does to mappings and locations exactly what the sequential cycle does, whatever order its couriers are asked in |
| `SyncInterleaving.BatchWrites` | internal/service/poller_service.go:204-250 | in any interleaving, what a batch stores: for each order its assigned courier and that courier's answer, and mappings for a whole TTL; its other steps store nothing |
| `SyncInterleaving.StepKeepsProvenance` | internal/service/poller_service.go:190-250 | every step of single syncs, batches and expiry keeps provenance |
| `SyncInterleaving.StepKeepsFlight` | internal/service/poller_service.go:104-125 | every step keeps the singleflight and mapping-lifetime invariant |
| `CacheSimulation.StepAgreesIff` | internal/repository/cache/redis_cache.go:48-367 | from caches in step, any call keeps them in step with the same answer if and only if it is admissible: positive heartbeat and lock TTLs where one is set, refresh of a tracked order only, no acquire by the present owner |
| `CacheSimulation.RunsAgree` | internal/repository/cache/redis_cache.go:48-367 | from empty caches, every admissible run of calls gets the same answers from both caches, and Redis never reports an error |
| `CacheSimulation.StepAgrees` | internal/repository/cache/memory_cache.go:54-302 | each admissible call keeps the two caches key by key in step and answers alike, whatever the location and mapping TTLs |
| `CacheSimulation.MemoryReadsBack` | internal/repository/cache/memory_cache.go:54-131 | locations and mappings are read back until strictly past their TTL |
| `CacheSimulation.MemoryReadsBackMarks` | internal/repository/cache/memory_cache.go:134-302 | and lastSync, the pre-warm mark and tracked ids |
| `CacheSimulation.RedisReadsBack` | internal/repository/cache/redis_cache.go:49-133 | the same for locations and mappings on Redis, whatever else it holds |
| `CacheSimulation.RedisReadsBackMarks` | internal/repository/cache/redis_cache.go:237-367 | and for lastSync and the pre-warm mark |
| `CacheSimulation.RefreshAgreesIff` | internal/repository/cache/redis_cache.go:172-178 | a refresh keeps them in step if and only if the order is tracked |
| `CacheSimulation.AcquireAgreesIff` | internal/repository/cache/redis_cache.go:266-278 | an acquire answers alike if and only if the caller does not hold the live lock |
| `CacheSimulation.PurgeStep` | internal/repository/cache/redis_cache.go:185-226 | clean-up on Redis corresponds to the in-memory purge |
| `CacheSimulation.DeadAgree` | internal/repository/cache/redis_cache.go:195-217 | members without a heartbeat key are exactly the orders the in-memory purge drops |
| `CacheSimulation.ReadsAgree` | internal/repository/cache/redis_cache.go:49-124 | location and mapping reads answer alike |
| `Keys.ParseInverse` | internal/repository/cache/redis_cache.go:118-129 | parsing a printed 64-bit id gives it back |
| `Keys.RenderInjective` | internal/repository/cache/redis_cache.go:25-32 | templates are injective in the id, and no two templates or fixed keys collide |
| `Keys.ParseRange` | internal/repository/cache/redis_cache.go:118-123 | exactly the 64-bit range parses |
| `Keys.Layout` | internal/repository/cache/redis_cache.go:25-32 | two templates on sample ids, letter by letter |
| `Keys.HeartbeatLayout` | internal/repository/cache/redis_cache.go:29 | and the heartbeat template |
| `Keys.RenderShape` | internal/worker/poller_worker.go:27 | first letter and one marked letter tell a key's kind, the leader key included |
| `MemoryCache.MemoryCacheRepository.GetOrderLocation` | internal/repository/cache/memory_cache.go:54-65 | a missing or strictly expired entry is a miss |
| `MemoryCache.MemoryCacheRepository.SetOrderLocation` | internal/repository/cache/memory_cache.go:68-82 | stores one location; a non-positive TTL means that it never expires |
| `MemoryCache.MemoryCacheRepository.SetOrderLocationsBatch` | internal/repository/cache/memory_cache.go:85-101 | stores a batch in order, later entries winning |
| `MemoryCache.MemoryCacheRepository.GetActiveOrderIDs` | internal/repository/cache/memory_cache.go:143-152 | each tracked id exactly once, expired or not |
| `MemoryCache.MemoryCacheRepository.RemoveInactiveOrders` | internal/repository/cache/memory_cache.go:164-175 | drops exactly the orders whose heartbeat has strictly expired |
| `MemoryCache.MemoryCacheRepository.AcquireLeaderLock` | internal/repository/cache/memory_cache.go:200-223 | granted to anyone if free or expired, and to the owner again |
| `MemoryCache.MemoryCacheRepository.RenewLeaderLock` | internal/repository/cache/memory_cache.go:226-245 | granted to the owner of an unexpired lock only |
| `MemoryCache.MemoryCacheRepository.ReleaseLeaderLock` | internal/repository/cache/memory_cache.go:248-257 | removes the caller's own lock only |
| `MemoryCache.MemoryCacheRepository.PreWarmOrders` | internal/repository/cache/memory_cache.go:261-285 | one pass over the orders writes heartbeats and mappings |
| `MemoryCache.TouchedHeartbeats` | internal/repository/cache/memory_cache.go:273-282 | a pre-warm sets the heartbeats of exactly the listed orders |
| `RedisCache.RedisCacheRepository.GetOrderCourierMapping` | internal/repository/cache/redis_cache.go:108-124 | miss, parsed id or error |
| `RedisCache.RedisCacheRepository.GetActiveOrderIDs` | internal/repository/cache/redis_cache.go:152-167 | exactly the members that parse as ids, one entry for each; an error for a key of another type |
| `RedisCache.RedisCacheRepository.RemoveInactiveOrders` | internal/repository/cache/redis_cache.go:185-226 | removes exactly the parseable members without a heartbeat key |
| `RedisCache.RedisCacheRepository.SetOrderLocationsBatch` | internal/repository/cache/redis_cache.go:85-105 | the pipeline stores every location in order |
| `RedisCache.RedisCacheRepository.PreWarmOrders` | internal/repository/cache/redis_cache.go:317-345 | the pipeline registers, beats and maps every order; it fails if and only if there are orders and the tracking key has another type |
| `RedisCache.RedisCacheRepository.RegisterActiveOrder` | internal/repository/cache/redis_cache.go:138-149 | run alone, adds the member and sets its heartbeat; the error of a tracking key of another type |
| `RedisCache.RedisCacheRepository.AcquireLeaderLock` | internal/repository/cache/redis_cache.go:266-278 | granted if and only if nobody holds the key, which then shows the caller until exactly now + TTL; nothing else changes |
| `RedisCache.RedisCacheRepository.RenewLeaderLock` | internal/repository/cache/redis_cache.go:282-296 | granted if and only if the key shows the caller, and then until exactly now + TTL; otherwise nothing changes |
| `RedisCache.RedisCacheRepository.ReleaseLeaderLock` | internal/repository/cache/redis_cache.go:300-312 | deletes the key if and only if it shows the caller |
| `RedisCleanup.CallNeverAdds` | internal/repository/cache/redis_cache.go:185-226 | the steps of a clean-up add no member, and only its SREM takes any away |
| `RedisCleanup.OthersChangeTracked` | internal/repository/cache/redis_cache.go:138-226 | what an SADD, SREM or heartbeat SET of others does to the tracking set |
| `RedisCleanup.RemovesExactlyTheSeenDead` | internal/repository/cache/redis_cache.go:195-223 | under any interference, a tracked member is removed if and only if it had no heartbeat key at that call's EXISTS |
| `RedisCleanup.LiveMemberLostIffRaced` | internal/repository/cache/redis_cache.go:135-149 | a member whose heartbeat is alive at the SREM is removed if and only if that heartbeat was written after the EXISTS found it missing |
| `RedisCleanup.RegistrationCanBeLost` | internal/repository/cache/redis_cache.go:138-149 | a concrete schedule in which a registration loses its tracking |
| `RedisCleanup.AloneIsSequential` | internal/repository/cache/redis_cache.go:185-226 | run alone, for any order of the EXISTS commands, exactly the dead are removed |
| `LeaderLock.MemoryRefines` | internal/repository/cache/memory_cache.go:200-257 | the in-memory lock calls are steps of the abstract lock, as seen at any later moment |
| `LeaderLock.RedisRefines` | internal/repository/cache/redis_cache.go:266-312 | so are SET NX and the two scripts, without re-acquisition |
| `LeaderLock.MemoryFollows` | internal/repository/cache/memory_cache.go:200-257 | after any history of calls the in-memory lock shows what the history says |
| `LeaderLock.MemoryAnswers` | internal/repository/cache/memory_cache.go:200-257 | and each call in it was answered as the history says |
| `LeaderLock.RedisFollows` | internal/repository/cache/redis_cache.go:266-312 | the same for the Redis key |
| `LeaderLock.RedisAnswers` | internal/repository/cache/redis_cache.go:266-312 | and for its answers, none of which is an error |
| `LeaderLock.LockIsTheValidGrant` | internal/repository/cache/memory_cache.go:200-257 | after any history at most one grant is in force and unexpired, and the lock shows a lease if and only if it is that grant |
| `LeaderLock.GrantsAreSeparated` | internal/repository/cache/memory_cache.go:200-257 | between grants to two instances, the first released the lock or its last lease had strictly expired |
| `LeaderLock.StaleCallsAreHarmless` | internal/repository/cache/redis_cache.go:280-312 | no call of another instance alters a live lease; the owner changes only by its own release or after strict expiry |
| `LeaderLock.BoundedFailover` | internal/worker/poller_worker.go:124-177 | if the holder falls silent after s and standbys try at gaps of at most the renew interval, another instance is granted the lock by s + TTL + interval |
| `LeaderElection.LeaderExclusion` | internal/worker/poller_worker.go:148-177 | in every reachable state in which no claimed lease has run out, at most one pod that has not begun to stop leads, and it owns the unexpired lock |
| `LeaderElection.LeaderOwnsLockIff` | internal/worker/poller_worker.go:148-177 | with no timing hypothesis: a leading pod owns the unexpired lock if and only if its last lease has not run out |
| `LeaderElection.SyncStartsExclusively` | internal/worker/poller_worker.go:181-212 | each periodic sync that a non-stopping pod starts while claimed leases hold is started by the only leader |
| `LeaderElection.CallGrantedIff` | internal/worker/poller_worker.go:148-176 | a delivered renewal is granted if and only if the pod owns the unexpired lock, a delivered acquisition if and only if the lock is free (or its own where allowed); what a granted and a refused call leave |
| `LeaderElection.LostCallLooksRefused` | internal/worker/poller_worker.go:151-167 | a lost request or reply looks refused; only a lost request leaves the lock as it was |
| `LeaderElection.RenewalKeepsLeading` | internal/worker/poller_worker.go:149-160 | from every reachable state, on either cache: after one attempt a leader still leads if and only if its renewal was delivered before its lease ran out, and then has a lease of a whole TTL from the call and the lock |
| `LeaderElection.StandbyLeadsIff` | internal/worker/poller_worker.go:161-175 | after one attempt a standby leads if and only if its acquisition was delivered while the lock was free, or its own where allowed |
| `LeaderElection.StopHandsOver` | internal/worker/poller_worker.go:104-117 | a stopping leader whose release arrives leaves no live lock of its own; another pod's lock and a non-leader's stop change nothing |
| `LeaderElection.ExclusiveIffTtlCovers` | internal/worker/poller_worker.go:124-177 | over all runs in which no claiming pod is late, at most one pod leads if and only if the lock TTL covers one renew interval and one attempt |
| `LeaderElection.PunctualExclusion` | internal/worker/poller_worker.go:124-177 | then no claimed lease runs out and the leader owns the unexpired lock, so the timing hypothesis follows from the pods' pace |
| `LeaderElection.TwoPunctualLeaders` | internal/worker/poller_worker.go:148-177 | with a shorter TTL a leader that is renewing in time can be joined by a second one |
| `LeaderElection.StepKeepsInv` | internal/worker/poller_worker.go:104-177 | every step, with calls lost either way and Stop running beside it, keeps the invariant |
| `LeaderElection.TwoLeadersWithoutTiming` | internal/worker/poller_worker.go:148-177 | without the timing hypothesis two pods can lead |
| `UrgentConsumer.SyncsBoundedAndDistinct` | internal/worker/poller_worker.go:216-270 | in every interleaving running syncs are of distinct orders and at most WorkerConcurrency |
| `UrgentConsumer.TriggersConserved` | internal/worker/poller_worker.go:216-270 | every triggered id is, with multiplicity, exactly one of dropped, queued, in the consumer's hand, skipped, running, finished, abandoned |
| `UrgentConsumer.CheckSkipsIff` | internal/worker/poller_worker.go:233-240 | in every reachable state an id in hand is skipped if and only if an unfinished task of that same id has its entry; otherwise it goes on to wait for a slot |
| `UrgentConsumer.TriggersAreTakenInOrder` | internal/service/poller_service.go:73-80 | in every interleaving accepted triggers are taken first in, first out, and a trigger is dropped if and only if the queue is full |
| `UrgentConsumer.LeavesOnlyWhenStopped` | internal/worker/poller_worker.go:222-249 | the consumer leaves, and gives up an id, only once told to stop |
| `UrgentConsumer.CancelProgresses` | internal/worker/poller_worker.go:222-249 | stopped or cancelled alike, consumer and tasks can always move towards their end without taking another id |
| `UrgentConsumer.AfterStop` | internal/worker/poller_worker.go:104-121 | when Stop has returned nothing runs, all slots are free, inFlight holds exactly the abandoned id if there is one, and every trigger is settled |
| `UrgentConsumer.StopProgresses` | internal/worker/poller_worker.go:104-121 | once stopping, something other than taking a new id can always move until Stop returns |
| `UrgentConsumer.StepsTerminate` | internal/worker/poller_worker.go:222-268 | every step but a trigger lowers a measure of queued ids, the id in hand and running tasks |
| `UrgentConsumer.QuietRunIsFinite` | internal/worker/poller_worker.go:104-121 | so without new triggers Stop ends within that many steps |
| `UrgentConsumer.NeverStuckIff` | internal/worker/poller_worker.go:219-268 | in every interleaving a queued or taken id can be moved on, if and only if there is at least one slot |
| `UrgentConsumer.StuckWithoutSlots` | internal/worker/poller_worker.go:242-249 | without slots the first accepted id blocks the consumer |
| `UrgentConsumer.StepKeepsInv` | internal/worker/poller_worker.go:216-270 | slots, in-flight entries and the count of triggers are kept by every step |
| `LocationService.UrgentQueue.TriggerUrgentSync` | internal/service/poller_service.go:73-80 | appends unless the queue is full, then drops |
| `LocationService.LocationService.GetCourierLocation` | internal/service/location_service.go:61-93 | an invalid id is an error and changes nothing; otherwise the answer is the cached location itself or a miss, and the heartbeat is set; a miss, and only a miss, triggers |
| `TrackingWindow.HitShowsTheLastStored` | internal/service/location_service.go:66-89 | over any history a request hits if and only if a cycle, urgent sync or pre-warm wrote the order's location within the location TTL, and then shows exactly what the last one stored: this order, the courier it resolved to, that courier's coordinates, that time |
| `TrackingWindow.StepLeaves` | internal/service/poller_service.go:133-142 | which location each kind of event leaves for an order, and which it leaves alone |
| `TrackingWindow.CycleIsSyncEach` | internal/service/poller_service.go:167-261 | the cycle of a history is the naive loop over the tracked orders in any listing, and sets lastSync |
| `RedisTracking.RequestAgrees` | internal/service/location_service.go:61-93 | from caches in step a request gets the same answer on both, the error exactly for an invalid id; they stay in step if and only if it did not hit an untracked order |
| `TrackingWindow.TrackedIsWindow` | internal/repository/cache/memory_cache.go:134-175 | over any history, after a purge the tracked orders are exactly those requested or pre-warmed within the heartbeat TTL |
| `TrackingWindow.HeartbeatOrigin` | internal/service/location_service.go:66-90 | every heartbeat dates from an interest shown, and every interest shown is tracked until it is too old |
| `TrackingWindow.SuccessStores` | internal/service/poller_service.go:167-250 | a cycle that succeeds for an order requested within the heartbeat TTL stores its location for one location TTL |
| `TrackingWindow.HoldsLater` | internal/service/poller_service.go:231-250 | no later event shortens a stored location's life |
| `TrackingWindow.WatchedOrderHits` | internal/service/location_service.go:61-93 | for any of an order's requests at most the heartbeat TTL apart, and any cycles that succeed for it at most the location TTL apart and still going on, every one of those requests after the first of those cycles hits |
| `RedisTracking.TrackedInsideWindow` | internal/repository/cache/redis_cache.go:138-226 | on Redis whatever survives a clean-up lies inside the window |
| `RedisTracking.TrackedIff` | internal/repository/cache/redis_cache.go:138-226 | over any history, Redis tracks an order if and only if a miss or pre-warm registered it and every clean-up since came within the heartbeat TTL of an interest shown since |
| `RedisTracking.TrackedAfterCleanUpIff` | internal/repository/cache/redis_cache.go:185-226 | the same for what a clean-up now leaves, this clean-up included |
| `RedisTracking.HitLeavesUntracked` | internal/service/location_service.go:67-72 | a history after which an order lies in the window and a clean-up leaves it untracked |
| `RedisTracking.MissIff` | internal/service/location_service.go:67-75 | a request misses if and only if no location was written within the location TTL |
| `RedisTracking.MappingReadsBack` | internal/repository/cache/redis_cache.go:108-133 | a mapping write is readable until exactly its TTL has passed |
| `RedisTracking.HitIsRecent` | internal/service/location_service.go:67-72 | a hit, tracked or not, shows a location written at most one location TTL ago |
| `RedisTracking.LostOrderIsPickedUp` | internal/service/location_service.go:75-90 | once no location of the order was written for longer than that, a request misses and leaves it tracked with a live heartbeat |
| `RedisTracking.Origins` | internal/repository/cache/redis_cache.go:138-178 | over any history every location entry and heartbeat has its origin and deadline |
| `Client.NoSendOnClosed` | cmd/client/main.go:236-309 | in every schedule nobody is about to send on a closed channel |
| `Client.NeverDeadlocks` | cmd/client/main.go:221-310 | with at least one thread and one order, something other than an interrupt can move until the summary |
| `Client.EveryRequestRecordedOnce` | cmd/client/main.go:236-310 | an uninterrupted run records each sequence number from 1 to the total exactly once and no other, number k for `orders[(k - 1) % n]` |
| `Client.InterruptDrains` | cmd/client/main.go:243-304 | after an interrupt no further request is handed out, the dispatcher can leave at once, and until the summary something can move without a worker taking another job |
| `Client.NothingTakenIsLost` | cmd/client/main.go:236-310 | interrupted or not, at the summary every number handed out is recorded once, still queued, or the one the dispatcher gave up |
| `Client.OrdersAskedEvenly` | cmd/client/main.go:285-293 | for distinct listed ids, how many recorded requests were for each order id |
| `Client.StepKeepsInv` | cmd/client/main.go:236-310 | every step keeps each request number in exactly one place |
| `Client.RecordedEvenly` | cmd/client/main.go:285-293 | an uninterrupted run has recorded, for each position in the list of orders, its share of full rounds, and one more for the first ones |
| `Client.NoOrderIsFavoured` | cmd/client/main.go:285-293 | the recorded requests for no two positions differ by more than one |
| `Client.StepsTerminate` | cmd/client/main.go:236-310 | with a number of requests given, or once interrupted, every step lowers a measure |
| `Client.RunsAreBounded` | cmd/client/main.go:236-310 | so a run of N requests has at most 10 N + threads + 5 steps, and by NeverDeadlocks it can only end in the summary |
| `Metrics.MetricsTracker.Record` | cmd/client/main.go:90-111 | by how much each counter changes, in terms of the status code and the SLA flag, with all counters and latencies agreeing with the history |
| `Metrics.ClassesByStatus` | cmd/client/main.go:101-110 | over any history each counter is the number of outcomes with status 200, 202, 400 to 499, or any other |
| `Metrics.ClassesPartition` | cmd/client/main.go:101-110 | the four status counters add up to the total |

## Left out

- PollerService.PollerService.SyncActiveOrders: proved on the in-memory cache with a fixed clock and no cache failure; branches that log or return a cache error cannot occur there. Concurrency and failing caches are the subject of `SyncInterleaving`.
- PollerService.PollerService.FetchMissingOrderCouriers: sequential here; schedules, the slot limit and cancellation are in `WorkerPool`, tied back by `PoolComputesRestriction`.
- PollerService.PollerService.FetchCourierCoordinates: sequential here, as above.
- CacheSimulation.RunsAgree: whole calls one after the other, all admissible; `StepAgreesIff` says that no other call keeps the caches in step.
- SyncInterleaving.AloneIsCycle: the tracked orders of a cycle are a parameter; tracking is in `TrackingWindow` and `RedisTracking`.
- SyncInterleaving.AloneIsSyncOrder: location expiry is not part of the interleaved model; a location disappears at any time.
- WorkerPool.NeverStuck: needs WorkerConcurrency of at least 1; with 0 the program blocks.
- TrackingWindow.WatchedOrderHits: whole calls on the in-memory cache, one after the other; cycles are atomic there.
- RedisTracking.TrackedInsideWindow: one direction, because the other is false of the code (`HitLeavesUntracked`); the exact condition is `TrackedIff`. Whole calls, one after the other.
- SyncInterleaving.EverythingCachedIsGenuine: assumes that an order's courier in Order Service does not change during the run.
- LeaderElection.LeaderExclusion: about the start of a sync, not its duration, and about pods that have not begun to stop; a stopping pod releases the lock without clearing its flag.
- UrgentConsumer.NeverStuckIff: needs a queue that holds at least one id; the hand-over to a waiting consumer through a queue of capacity 0 is not modelled.
- SyncInterleaving.SecondCallIffCycleAsks: about calls in flight at once; a pre-warm makes no Order Service calls.
- LeaderElection.SyncStartsExclusively: the start-up sync before the ticker loop and a ticker that wins against a closed stop channel are both this step. The mode without a cache, where the flag is set outright, is not modelled.
- The inner singleflight around Order Service: inside `SyncOrder` the outer group already admits one execution per order and pod.
- The class fields of the Redis client, and Redis errors other than a key of the wrong type or unreadable content; network failure is a lost request or reply in `LeaderElection` and a failing access in `SyncInterleaving`.
- A location that cannot be encoded as JSON (not-a-number coordinates).
- Monotonicity of `UpdatedAt` and lastSync across concurrent syncs: the code does not promise it.
- Circuit breakers, retries, mock latency and chaos injection: external clients are replies that may fail at any call.
- HTTP handlers, health probes, metrics, tracing, logging, configuration and wiring.
- The client's HTTP request, console output and floating-point percentiles.
