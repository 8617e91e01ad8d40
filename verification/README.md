# Japson connection liveness, in Dafny

A model of the server-side liveness subsystem of Japson. Japson is a small JSON-over-datagram messaging library. The model covers two parts:

- **The active registry.** It is the `connections` list of `JapsonConnection` records, each looked up by host and port.
- **The `disconnected` holding cache.** It keeps demoted peers for ten minutes after they are written, holds at most 1000 entries, and has a removal listener.

Four kinds of step drive the two stores:

- the packet path: `handle`, `addConnection` and `getConnection`;
- one run of the heartbeat sweep;
- the cache's own age and size eviction;
- handler and packet registration in the shared `Japson` base class, together with its debug flag.

Listener callbacks are recorded in one event log of five kinds: acquired, reacquired, unresponsive, disconnect and forget. Each event carries the record as the listener would have seen it.

Everything is a pure function over an immutable `State(active, cache, events)`. The current time, the staleness timeout and the disconnect threshold are parameters.

Modules:

- `Connection` holds the record and the events.
- `HoldingCache` holds the cache and its listener.
- `Connections` holds the registry operations and the invariant they keep.
- `Heartbeat` holds one sweep.
- `Scenarios` holds multi-step runs.
- `Japson` holds registration and the debug flag.

The invariant `Connections.Inv` has three parts:

- registry keys are distinct;
- no registry key is *live* in the cache, where live means present and not yet expired;
- every cached record's count is past the threshold.

`GetConnection`, `AddConnection`, `Handle`, `Evict` and `Sweep` each preserve it.

The removal at the end of the sweep is modelled as written: it removes every record whose count exceeds the threshold. That count is not reset on reacquisition, so a consequence follows. `Scenarios.ReacquiredPeerVanishes` proves that a peer reacquired from the cache disappears from both stores at the next sweep if that sweep finds it fresh. No event about it is emitted.

## Model

| member | source | states |
|---|---|---|
| Connection.Fresh | src/main/java/com/sitrica/japson/server/Connections.java:109-119 | A new record carries the given address, port and identification, has not failed, and was last heard from at creation |
| Connection.MarkUnresponsive | src/main/java/com/sitrica/japson/server/Connections.java:137-139 | Marking a record unresponsive raises its failure count by one and changes nothing else |
| Connection.Refresh | src/main/java/com/sitrica/japson/server/Connections.java:145-147 | Refreshing a record sets its last-contact time to now and changes nothing else, the failure count included |
| Connection.RecordUpdatesCommute | src/main/java/com/sitrica/japson/server/Connections.java:109-147 | Counting a failure and refreshing the contact time commute; refreshing never resets the count; a refreshed new record is a new record created now |
| HoldingCache.Remove | src/main/java/com/sitrica/japson/server/Connections.java:93 | Removing a key drops exactly that key and leaves every other entry as it was; a forget is reported only if an entry was there and the cause is not explicit |
| HoldingCache.Put | src/main/java/com/sitrica/japson/server/Connections.java:62 | Demotion files the record under its own key stamped with the current time; a displaced older entry is reported as forgotten |
| HoldingCache.PutThenGet | src/main/java/com/sitrica/japson/server/Connections.java:28 | After a demotion is filed, a lookup of that key returns the record exactly while less than ten minutes have passed since it was written, and nothing afterwards; lookups of every other key are unaffected |
| HoldingCache.RemoveThenGet | src/main/java/com/sitrica/japson/server/Connections.java:93 | After a removal, for any cause, a lookup of the removed key finds nothing, and lookups of every other key are unaffected |
| HoldingCache.Trim | src/main/java/com/sitrica/japson/server/Connections.java:29 | The model's size check, an idealised global form of the 1000-entry bound: it does nothing while the cache holds at most 1000 entries; above that it evicts the chosen victim, for cause SIZE, and reports it forgotten |
| HoldingCache.PutTrimBounded | src/main/java/com/sitrica/japson/server/Connections.java:29 | Under the model's global size check: filing a record into a cache of at most 1000 entries can exceed that only by one new key, and the check then brings the cache back to exactly 1000 entries, keeps the record just written and reports one forget of the victim |
| Connections.Find | src/main/java/com/sitrica/japson/server/Connections.java:80-83 | The registry position returned is the first one holding the key, and none is returned only when no record has the key |
| Connections.GetConnection | src/main/java/com/sitrica/japson/server/Connections.java:79-95 | A registry hit changes nothing; a miss in both stores returns nothing and changes nothing; a live cache hit reports one reacquired event (no acquired event, no forget), appends the cached record with its count unchanged and drops the key from the cache |
| Connections.AddConnection | src/main/java/com/sitrica/japson/server/Connections.java:69-77 | The returned record has the key and is the one the registry now finds first; an existing record is returned with nothing changed, identification included; a cached one is reacquired; otherwise one record with the given identification and zero failures is appended with one acquired event; the registry only grows, by at most one |
| Connections.Handle | src/main/java/com/sitrica/japson/server/Connections.java:98-105 | Without an identification nothing changes; with one, the result is addConnection followed by setting the found record's last-contact time to now, every other record and the cache and events staying as addConnection left them |
| Connections.Evict | src/main/java/com/sitrica/japson/server/Connections.java:27-37 | A removal by the cache leaves the registry alone and removes only the key; automatic causes report one forget of the removed record, explicit invalidation reports none |
| Connections.Expire | src/main/java/com/sitrica/japson/server/Connections.java:28 | Age-based cleanup never touches the registry |
| Connections.InvLater | src/main/java/com/sitrica/japson/server/Connections.java:28 | Time passing cannot break the invariant, because cache entries only age |
| Connections.InitialInv | src/main/java/com/sitrica/japson/server/Connections.java:25-27 | The empty registry and cache satisfy the invariant |
| Connections.GetConnectionPreservesInv | src/main/java/com/sitrica/japson/server/Connections.java:90-93 | Reacquisition keeps registry keys distinct and never leaves a key in both stores |
| Connections.AddConnectionPreservesInv | src/main/java/com/sitrica/japson/server/Connections.java:69-77 | Adding a connection keeps the invariant |
| Connections.HandlePreservesInv | src/main/java/com/sitrica/japson/server/Connections.java:98-105 | Handling a payload keeps the invariant |
| Connections.EvictPreservesInv | src/main/java/com/sitrica/japson/server/Connections.java:32-37 | A cache removal keeps the invariant |
| Connections.ExpireCache | src/main/java/com/sitrica/japson/server/Connections.java:28 | Cleaning up a list of keys leaves exactly the other entries, unchanged |
| Connections.ExpireEvents | src/main/java/com/sitrica/japson/server/Connections.java:35-37 | Cleaning up distinct cached keys reports exactly one forget per removed record, in order, after the earlier events |
| Connections.ExpireForgetsExpired | src/main/java/com/sitrica/japson/server/Connections.java:28-37 | Cleaning up exactly the expired entries leaves exactly the live ones, unchanged, keeps the registry, and reports one forget per expired record |
| Heartbeat.Observe | src/main/java/com/sitrica/japson/server/Connections.java:56-63 | A fresh record is left alone; a stale one is reported unresponsive once, as it was, and its count rises by one; past the threshold it is then reported disconnected with the raised count and filed in the cache, and any displaced entry is forgotten |
| Heartbeat.Scan | src/main/java/com/sitrica/japson/server/Connections.java:55-64 | The loop visits every registry record and leaves each one marked in place: counted once more if stale, untouched otherwise |
| Heartbeat.Retain | src/main/java/com/sitrica/japson/server/Connections.java:65 | A record is kept exactly when its count is within the threshold |
| Heartbeat.RetainCounts | src/main/java/com/sitrica/japson/server/Connections.java:65 | Each record within the threshold is kept as many times as it occurs, and every other record is dropped entirely |
| Heartbeat.RetainAppend | src/main/java/com/sitrica/japson/server/Connections.java:65 | Removal works record by record, so the kept records stay in registry order |
| Heartbeat.Sweep | src/main/java/com/sitrica/japson/server/Connections.java:54-66 | After a sweep no registry record's count exceeds the threshold, and earlier events are kept as they were |
| Heartbeat.ScanCacheKeys | src/main/java/com/sitrica/japson/server/Connections.java:60-63 | The sweep adds exactly the keys of the demoted records to the cache |
| Heartbeat.ScanCacheDemoted | src/main/java/com/sitrica/japson/server/Connections.java:62 | Each demoted record is cached under its key with its raised count, stamped with the sweep time |
| Heartbeat.ScanCacheKept | src/main/java/com/sitrica/japson/server/Connections.java:60-63 | Cache entries under keys the sweep does not demote are left as they were |
| Heartbeat.ObserveCache | src/main/java/com/sitrica/japson/server/Connections.java:59-62 | The loop body changes the cache only for a demoted record, which it files under its own key with its raised count, stamped with the sweep time |
| Heartbeat.ScanCacheOver | src/main/java/com/sitrica/japson/server/Connections.java:59-62 | Everything the loop files in the cache is past the threshold, so a cache holding only such records still does |
| Heartbeat.ObserveSubjects | src/main/java/com/sitrica/japson/server/Connections.java:58-62 | One loop body reports a stale record as unresponsive and a demoted record as disconnected; it reports a forget exactly when a demoted record displaces a cached entry, naming that entry; it reports nothing else |
| Heartbeat.ScanEvents | src/main/java/com/sitrica/japson/server/Connections.java:55-64 | Across the loop, the unresponsive reports are exactly the stale records and the disconnect reports exactly the demoted ones, each once and in registry order; there are no acquired or reacquired reports |
| Heartbeat.ScanForgets | src/main/java/com/sitrica/japson/server/Connections.java:62 | A forget during the loop reports only an entry that was cached before the sweep under a key the sweep demotes |
| Heartbeat.ObserveForgets | src/main/java/com/sitrica/japson/server/Connections.java:62 | A forget from one loop body concerns that record's key and a demoted record, and reports the entry cached before the sweep when the loop has not touched that key |
| Heartbeat.ScanForgetSubjects | src/main/java/com/sitrica/japson/server/Connections.java:55-64 | With distinct registry keys, the loop's forgets are exactly the entries cached before the sweep under the keys it demotes, one each, in registry order |
| Heartbeat.RetainDistinct | src/main/java/com/sitrica/japson/server/Connections.java:65 | Removing records keeps registry keys distinct |
| Heartbeat.MarkedDistinct | src/main/java/com/sitrica/japson/server/Connections.java:59 | Marking records in place keeps registry keys distinct |
| Heartbeat.SweepFailsMonotone | src/main/java/com/sitrica/japson/server/Connections.java:59-65 | Every record left registered is a former record, either untouched or counted exactly once more, and within the threshold: counts never decrease while registered |
| Heartbeat.SweepKeepsMarked | src/main/java/com/sitrica/japson/server/Connections.java:59-65 | A record, as the loop leaves it, stays registered exactly when its count is within the threshold |
| Heartbeat.SweepDropsKey | src/main/java/com/sitrica/japson/server/Connections.java:59-65 | A record whose count, as the loop leaves it, exceeds the threshold takes its key out of the registry |
| Heartbeat.SweepCacheAt | src/main/java/com/sitrica/japson/server/Connections.java:59-62 | After a sweep, a demoted record is cached under its key with its raised count; the cache slot of any other record is as it was |
| Heartbeat.SweepRecord | src/main/java/com/sitrica/japson/server/Connections.java:55-65 | The fate of one record: fresh and within the threshold it stays; stale but within the threshold it stays counted; demoted it leaves the registry for the cache; fresh but already past the threshold it leaves the registry without being cached |
| Heartbeat.SweepPreservesInv | src/main/java/com/sitrica/japson/server/Connections.java:54-66 | A sweep keeps keys distinct, never leaves a key live in both stores, and caches only records past the threshold |
| Heartbeat.SweepDisjoint | src/main/java/com/sitrica/japson/server/Connections.java:59-65 | No record left registered by a sweep has a live cache entry |
| Heartbeat.SweepEvents | src/main/java/com/sitrica/japson/server/Connections.java:54-66 | A sweep's new events are one unresponsive report per stale record and one disconnect report per demoted record, in registry order; its forgets are exactly the entries cached under demoted keys before the sweep, in registry order; it never reports an acquisition or reacquisition |
| Heartbeat.ScanEventKeys | src/main/java/com/sitrica/japson/server/Connections.java:55-64 | Every event of a sweep concerns the key of a record that was stale |
| Heartbeat.ScanAbout | src/main/java/com/sitrica/japson/server/Connections.java:55-64 | With distinct registry keys, the loop's events about one record's key are exactly what the loop body emits for that record |
| Heartbeat.SweepPeer | src/main/java/com/sitrica/japson/server/Connections.java:55-65 | With distinct registry keys, a sweep's events about a stale record are what its loop body emits; a record counted but within the threshold stays registered with its cache slot unchanged; a demoted record leaves the registry and is cached with its raised count |
| Scenarios.ReportsAt | src/main/java/com/sitrica/japson/server/Connections.java:58-59 | The reports a silent peer receives over successive sweeps: the i-th one carries the record with i more failures, because each report precedes that sweep's increment |
| Scenarios.SweepSingle | src/main/java/com/sitrica/japson/server/Connections.java:55-65 | A registry holding one stale record either keeps it counted once more with one report, or demotes it into the cache with an unresponsive report followed by a disconnect report |
| Scenarios.LoneStep | src/main/java/com/sitrica/japson/server/Connections.java:55-65 | The lone-record sweep facts hold at each step of a run of sweeps |
| Scenarios.CountedStep | src/main/java/com/sitrica/japson/server/Connections.java:56-65 | At a step of a run that finds a registered peer stale but within the threshold, the peer stays registered counted once more, its cache slot is untouched, and the step reports it unresponsive once and nothing else about its key |
| Scenarios.DemotingStep | src/main/java/com/sitrica/japson/server/Connections.java:56-65 | At a step of a run that demotes a registered peer, the peer leaves the registry, is cached with its raised count, and the step reports it unresponsive, then disconnected, then forgets any entry cached under its key |
| Scenarios.SilentPeerCounted | src/main/java/com/sitrica/japson/server/Connections.java:56-65 | In any registry with distinct keys, sweeps that keep finding a peer stale while its count stays within the threshold report it unresponsive once per sweep, with the count one higher each time, and report nothing else about its key; its cache slot is untouched |
| Scenarios.SilentPeerDemoted | src/main/java/com/sitrica/japson/server/Connections.java:54-66 | In any registry with distinct keys, a silent peer is reported unresponsive at every sweep until its count passes the threshold; that sweep then reports it disconnected and forgets any entry cached under its key; the peer leaves the registry and is cached with the raised count; nothing else about its key is reported |
| Scenarios.ThresholdScenario | src/main/java/com/sitrica/japson/server/Connections.java:54-66 | With a 5 s timeout and a threshold of 2, a peer last heard from at 0 is reported at 5, 6 and 7 s and demoted by the third sweep with a count of 3 |
| Scenarios.HoldingWindow | src/main/java/com/sitrica/japson/server/Connections.java:79-95 | Contact five minutes after demotion is a reacquisition with the frozen count; after eleven minutes the peer is acquired afresh, and a cleanup at expiry has reported a forget |
| Scenarios.ReacquiredPeerVanishes | src/main/java/com/sitrica/japson/server/Connections.java:65 | A peer reacquired by handle sits in the registry only; if the next sweep is within the timeout, the peer leaves the registry, is not cached, and no event mentions it |
| Japson.Register | src/main/java/com/sitrica/japson/shared/Japson.java:18-20 | Registration only adds, and only adds arguments |
| Japson.RegisterCovers | src/main/java/com/sitrica/japson/shared/Japson.java:18-20 | After registration every argument's ID is represented |
| Japson.RegisterSkipsTaken | src/main/java/com/sitrica/japson/shared/Japson.java:19 | A newly added member never shares an ID with a member registered before the call |
| Japson.RegisterUnique | src/main/java/com/sitrica/japson/shared/Japson.java:18-20 | If IDs were unique before registration they are unique after, even when arguments share an ID |
| Japson.RegisterHandlers | src/main/java/com/sitrica/japson/shared/Japson.java:17-22 | Handler registration only adds handlers, only from the arguments, and leaves packets and the debug flag unchanged |
| Japson.RegisterPackets | src/main/java/com/sitrica/japson/shared/Japson.java:24-29 | Packet registration only adds packets, only from the arguments, and leaves handlers and the debug flag unchanged |
| Japson.RegisterHandlersById | src/main/java/com/sitrica/japson/shared/Japson.java:17-22 | Every argument's handler ID is registered afterwards; no new handler shares an ID with one registered before; unique handler IDs stay unique |
| Japson.RegisterPacketsById | src/main/java/com/sitrica/japson/shared/Japson.java:24-29 | The same three guarantees for packets |
| Japson.EnableDebug | src/main/java/com/sitrica/japson/shared/Japson.java:39-42 | Enabling debug sets the flag and changes nothing else |
| Japson.IsDebug | src/main/java/com/sitrica/japson/shared/Japson.java:44-46 | The query reports exactly the debug flag |
| Japson.DebugFlag | src/main/java/com/sitrica/japson/shared/Japson.java:39-46 | Enabling debug is idempotent, isDebug reports it, and a new instance starts with it off |

## Left out

- Scheduling: the sweep runs once, after the heartbeat delay. That is why the model gives one sweep and `Scenarios` strings sweeps together. It does not model the executor, or the fact that the source never repeats the sweep.
- Wall-clock time: `System.currentTimeMillis()` becomes a `now` parameter. The model does not constrain it to increase across steps, except where a lemma requires it.
- Time values are Java `long`s. They are modelled as unbounded integers, so overflow of `now - updated` is not modelled.
- Failure counts are Java `int`s. They are modelled as `nat`, so 32-bit wrap-around after 2^31 sweeps is not modelled.
- Concurrency: the registry list is shared between the sweep thread and the packet path. Each step is modelled as atomic.
- Addresses: the source keys the registry by resolved `InetAddress` and the cache by the unresolved host name from reverse lookup. The model uses one `Key(host, port)` for both stores, so DNS and hostname resolution, and any mismatch between the two key forms, are not modelled.
- JSON parsing: the payload is reduced to its optional `identification` string. A non-string identification field, and the `Handler` superclass dispatch, are not modelled.
- The cache loader at Connections.java lines 39-49 is never invoked, because only `getIfPresent` is used.
- Guava internals:
  - which entry a size eviction picks (approximately least recently used) is a parameter of `Evict` and `Trim`;
  - when the cache runs its maintenance is a parameter (`Expire`'s key order and the caller's choice of step).
- HoldingCache.Trim: the model applies the 1000-entry bound to the whole cache. Guava splits the bound across its segments and may evict an entry before the total reaches 1000, so Trim's no-op clause is idealised. An early eviction appears in the model only as a free `Evict(_, _, Size)` step, which may be taken at any time for any key.
- HoldingCache.PutTrimBounded: it holds for the idealised global bound only. Under Guava's per-segment bound a write may be followed by a SIZE eviction while the cache holds fewer than 1000 entries, and the cache then holds fewer than 1000 afterwards. Such evictions are free `Evict(_, _, Size)` steps in the model.
- Maintenance inside a write: Guava may expire or size-evict other entries during the `put` at Connections.java line 62, that is, in the middle of a sweep. The model runs that maintenance only as separate `Evict`, `Expire` or `Trim` steps between operations. The sweep's own write does not apply the size check. `PutTrimBounded` states the bound for one write followed by one size check.
- Listener dispatch: the source snapshots the owner's listeners at construction and calls each listener in turn. The model records one event per callback in a single log, as if there were one listener. The `FluentLogger`, `getHandlers` and `getLogger` are not modelled.
- HashSet iteration order in `registerHandlers` and `registerPackets` is an input: the argument sequence. Handler and packet identity is an explicit `instance` field.
- Connections.Expire: its own contract states only that the registry is untouched. The cache and event results are stated by `ExpireCache`, `ExpireEvents` and `ExpireForgetsExpired`.
