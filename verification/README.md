# nscale control plane: a verified model

nscale puts a proxy in front of jobs on Nomad, wakes a job when a request for it arrives and scales it
down to zero when it has been idle. This project models the parts of nscale in which a mistake would be
a race, a lost update or a broken rewrite, and proves what they guarantee.

Concurrent code appears twice where it updates objects: as a class whose methods change the same fields
as the original and are proved against a specification, and as a step machine in which every access to
shared memory, every Redis command, every etcd call and every answer of Nomad or Consul is one atomic
step. A schedule is any sequence of actions, an action its thread is not ready for changes nothing, and
so a theorem about all schedules is a theorem about all interleavings.

## What is modelled

**Wake coordinator** (`WakeProtocol`, `WakeCoalescing`, `WakeTightness`, `WakeProvenance`,
`WakeAgreement`, `WakeDelivery`, `WakeStatus`, `WakeService`, `WakeCoordinator`). Any number of `ensure_running` calls, wake tasks,
`mark_dormant`, `invalidate` and `refresh_endpoint` calls, for any jobs, interleave on the map of wake
states, the endpoint cache, the status cells, the broadcast channels and the semaphore. A cell is never
destroyed: whoever holds a reference keeps using it after its key is gone. A run carries a history of
won swaps, `scale_up` calls, dormant stores, key removals, reported endpoints and broadcasts, and the
theorems relate these.

A reset is two separate steps, so "at most one wake" is false. The bound that holds is one `scale_up`
plus one for each dormant store plus one for each key removal, and `BoundAttained` shows for every number
of resets that this bound is reached. Only stores that change the status and removals of a present key
are counted, which makes the bound stronger. A broadcast to a channel without receivers is kept as a
message in the model, but a later subscriber starts behind it and cannot see it.

`WakeStatus` is about what a wake owes. In every run each waking cell has a thread that won it and still has
to store its outcome, so no job is left waking for good; a task that fails has removed the key by the time it
ends; and what Nomad or Consul answered is what each waiting caller returns. `WakeService` is the promise of
coalescing from the other side: for every number of requests there is a run in which one `scale_up` serves
them all.

**Two-tier registry** (`RegistrySpec`, `RegistryRefinement`, `RegistryRecovery`, `JobRegistry`,
`RegistryHistory`, `RegistryAgreement`, `RegistryJobAgreement`, `RegistryRemoval`, `RegistryLedger`). Two Redis hashes in front
of two etcd key families. `JobRegistry.dfy` is the code with every command able to fail, and to fail after it
has taken effect; its contracts say what a call that succeeds has done and what a call that fails may leave
behind. The naming discipline of the refinement is that each service name belongs to one job and no job id is
the service name of another job. The history theorem needs no discipline and covers all interleavings of
replicas with crashes.

Agreement of cache and etcd does not hold of all interleavings: `StaleFill` is a lookup that overlaps with a
deregistration, `CrossedWrites` two registrations that overlap, and `LostReplyIsStale` a registration that
meets a fault. It does hold, by `AgreeBetweenWrites`, in every schedule in which no registration or
deregistration overlaps with another call or meets a fault, at every moment at which none is under way,
whatever lookups, syncs and listings overlap, fail or crash. Under the naming discipline each key belongs to
one job, and `AgreeOnJob` says the same of one job at a time: what counts is overlap with calls that handle
the job, and calls of other jobs may overlap and fail as they like. `AloneIsSpec` ties the interleaved model
to the sequential one.

`RegistryRemoval` is about overlapping deregistrations of one job that nobody registers again, without any
naming discipline; deregistrations meet no fault there, other calls may. What they leave in etcd is nothing,
whatever else interleaves. What they leave in the cache is nothing if no lookup, sync, listing or
deregistration under another key overlaps with them, and `StaleFill` is what an overlapping lookup can do.

`RegistryLedger` says what a lookup finds in terms of the operations made, from empty stores on. Without etcd
that is the last registration under the key that has neither been deregistered nor lost since, and with etcd a
registration that stands, whatever the cache has lost.

The rollback of a failed deregistration restores one registration. `Compensation` says for every key, job id
or service name, when that puts etcd back exactly; `TwoServiceJobLosesOne` and `ServiceKeyOverwritesJob` are
the two ways it can fail to.

**Scale-down safety** (`InFlight`, `ScaleDownLock`, `Heartbeat`, `Controller`, `MissingJobs`). The
in-flight counters with their lock upgrade and their atomic decrement, which would wrap at zero; the TTL
lock between replicas on the clock of the Redis server; the heartbeat on one global clock; the controller
with its deferrals, probe baselines and activity entries; and the shared missing-job counter with its
`u32` limit. The in-flight gate compares the activity key with the job id under which requests are
counted, so it is stated for activity keys that are job ids, and `GateMissesOtherKeys` shows what happens
to any other key. The heartbeat theorem assumes what the schedule allows: the request is routed within a
third of the idle timeout of its start record, a heartbeat write lands less than a third after its
tick, other writes land within a third of their score, and no older score overwrites the start record
before the request is routed. The lock excludes exactly when ticks and the releases they spawn end within
the TTL. `MissingJobs` has auto-deregistration on. It keeps one counter, so it too is stated for activity keys
that are job ids: the scaler counts under the activity key, the proxies under the registration's job id. Its
cleanups call the interleaved registry, and `CleanupCompletes` says what they leave in etcd and, unless a
lookup, sync, listing or deregistration under another key overlaps with them, in the cache.

**Tag injection** (`RouterTags`, `JobTags`, `JobText`, `JobMutator`). The rewrite of a parsed job document as a
function of the document, with all its error exits, and as code that edits a tag vector from the back and
threads the set of seen triples through three nested loops. `JobText` states the same in terms of the document
alone: which tags name a router, what is wrong with a document, which triples it describes and where its
routers point afterwards. JSON objects are maps from strings.

**Event stream** (`EventStream`, `EventReplay`). Newline framing over arbitrary chunks, delivery to a
receiver that can go away, and resuming by index. What a line means is a parameter of the model, so the
theorems hold for every decoder. Replay assumes that the server answers an index with all frames from that
index on, in order and with indices that never decrease, for a fixed set of registrations and stores that
do not fail. In `EventProcessor` an entry of `dormant` stands for the `mark_dormant` call together with the
removal of the activity entry that follows it.

Registrations are values with a lossless encoding. Times are natural numbers. Integers are unbounded
except where the code depends on their width, which is written out.

## Model

| member | source | states |
|---|---|---|
| `WakeCoalescing.CoalescingBound` | crates/nscale-waker/src/coordinator.rs:64-293 | in every interleaving, the `scale_up` calls for a job are at most one more than its dormant stores and key removals together |
| `WakeCoalescing.OneScaleUpWithoutReset` | crates/nscale-waker/src/coordinator.rs:13-14 | requests coalesce: a run without a reset of the job calls `scale_up` for it at most once |
| `WakeCoalescing.LedgerOfRun` | crates/nscale-waker/src/coordinator.rs:125-230 | the invariant behind the bound: won swaps, dormant cells and an absent key are all paid for, and every win is before its call or has made it |
| `WakeCoalescing.ConcurrencyBound` | crates/nscale-waker/src/coordinator.rs:309-324 | never more tasks inside the `scale_up` section than the semaphore has permits |
| `WakeCoalescing.DecidePaid` | crates/nscale-waker/src/state.rs:50-67 | whoever makes a cell dormant or removes a key leaves an entry in the history, and only a dormant cell can be won |
| `WakeTightness.BoundAttained` | crates/nscale-waker/src/coordinator.rs:233-239 | for every n some schedule with n dormant stores and n key removals makes 1 + n + n `scale_up` calls, so the bound cannot be lowered |
| `WakeTightness.ResetRound` | crates/nscale-waker/src/coordinator.rs:234-238 | a job being woken can be woken twice more by one reset: between its two steps, and after it |
| `WakeTightness.WakeOnce` | crates/nscale-waker/src/coordinator.rs:125-195 | an uncached job with a dormant or missing cell can always be brought to one more `scale_up` by a new request |
| `WakeProvenance.Provenance` | crates/nscale-waker/src/coordinator.rs:54-230 | every endpoint in the cache or returned to a caller was reported before, by Consul or Nomad, for that very job |
| `WakeProvenance.SourcedOfRun` | crates/nscale-waker/src/coordinator.rs:153-163 | the invariant: also endpoints that threads carry or channels hold were reported for their own job |
| `WakeProvenance.Isolation` | crates/nscale-waker/src/coordinator.rs:54-293 | no step of a thread for one job changes the cache entry, the key or the cell of another |
| `WakeAgreement.CallersAgree` | crates/nscale-waker/src/coordinator.rs:58-124 | in a run that neither resets nor refreshes a job, all callers that get an endpoint get the same one, the one reported to the wake task |
| `WakeAgreement.ReadyIsCached` | crates/nscale-waker/src/coordinator.rs:81-99 | in such a run READY implies a cached endpoint, and nobody gets past the cache check to ask Nomad |
| `WakeAgreement.NoSecondReport` | crates/nscale-waker/src/coordinator.rs:326-334 | with one win there is one task, so while a task still waits for health nothing has been reported |
| `WakeAgreement.QuietRun` | crates/nscale-waker/src/coordinator.rs:160-162 | the invariant, resting on the order insert, then ready, then send |
| `WakeDelivery.NoLostWakeUp` | crates/nscale-waker/src/coordinator.rs:103-123 | whoever waits on a channel when a wake task broadcasts there can end its wait at every later moment at which it still waits |
| `WakeDelivery.ReceivesIffSent` | crates/nscale-waker/src/coordinator.rs:105-123 | a waiter can complete exactly if some wake task has broadcast on its channel at or after the position where it subscribed |
| `WakeDelivery.LateSubscriberWaits` | crates/nscale-waker/src/coordinator.rs:100-105 | a follower that read WAKING and subscribes after the broadcast cannot complete on it |
| `WakeDelivery.WinnerHearsItsTask` | crates/nscale-waker/src/coordinator.rs:127-216 | the winner subscribes before it spawns: once its own task has ended, its wait can end |
| `WakeDelivery.NotAbandonedWhileAwaited` | crates/nscale-waker/src/coordinator.rs:326-356 | from any well-formed state and through any schedule, a wake task does not cancel its wake as long as some waiter on its channel has not stopped waiting |
| `WakeDelivery.BroadcastsOnce` | crates/nscale-waker/src/coordinator.rs:153-194 | no wake task broadcasts twice, and one that has ended has broadcast once, whatever the outcome |
| `WakeDelivery.DeliveringRun` | crates/nscale-waker/src/coordinator.rs:127-195 | the invariant: receivers are at or before the end of their channel, each message has its task, a winner is not past the message of its task |
| `WakeStatus.WakingIsOwedRun` | crates/nscale-waker/src/coordinator.rs:127-195 | in every interleaving each waking cell has a thread that won it, or the task of one, and still has to store READY or DORMANT there |
| `WakeStatus.NotLeftWaking` | crates/nscale-waker/src/coordinator.rs:125-195 | once no wake of a job is under way no cell of it is waking, so the next request does not queue up behind a wake that is over |
| `WakeStatus.FailedWakeRemovesKey` | crates/nscale-waker/src/coordinator.rs:164-193 | whatever else a schedule holds, a wake task that fails has removed the key of its job by the time it has ended, with a removal in the history if the key was there |
| `WakeStatus.AnswerReachesCaller` | crates/nscale-waker/src/coordinator.rs:105-123 | whoever waits when Nomad or Consul ends the wake, and returns with its message, returns what was answered, "job missing" as not found of that job; otherwise its timeout fired or the channel left it behind |
| `WakeStatus.ReceivesExactly` | crates/nscale-waker/src/coordinator.rs:105-123 | one receive: nothing while there is no message, the error of a channel of 16 messages when further behind, and otherwise what the message at the position tells |
| `WakeStatus.TimeoutReturns` | crates/nscale-waker/src/coordinator.rs:119-122 | a timeout that fires ends the wait with the timeout and touches nothing shared |
| `WakeStatus.LateLoserIsServed` | crates/nscale-waker/src/coordinator.rs:218-220 | a caller that lost the race for a wake which has ended meanwhile loops and returns the cached endpoint instead of waiting |
| `WakeStatus.TwoLooksCancel` | crates/nscale-waker/src/coordinator.rs:342-356 | two looks of the poller in a row cancel the wake exactly if nobody waits for it |
| `WakeStatus.EmptyLookForgotten` | crates/nscale-waker/src/coordinator.rs:342-356 | a look that sees a receiver forgets an earlier one that saw none: the next look, whatever happens before it, cancels nothing |
| `WakeStatus.CachedIsServed` | crates/nscale-waker/src/coordinator.rs:57-61 | a request for a job with a cached endpoint gets it at once and touches nothing shared |
| `WakeStatus.FetchReaches` | crates/nscale-waker/src/coordinator.rs:81-99 | a READY job without a cached endpoint: the error of Nomad goes to the caller, its endpoint to the cache and the caller |
| `WakeService.AllServedByOneWake` | crates/nscale-waker/src/coordinator.rs:54-230 | for every n there is a run in which n + 1 requests for a sleeping job all return the endpoint of one `scale_up` |
| `WakeProtocol.DecideStaysHome` | crates/nscale-waker/src/coordinator.rs:54-356 | a thread only ever touches cells created under its own job id |
| `WakeObjects.WakeState.TryStartWake` | crates/nscale-waker/src/state.rs:50-59 | wins exactly if the cell was dormant, and then the cell is waking; otherwise nothing changes |
| `WakeObjects.WakeCoordinator.GetOrCreate` | crates/nscale-waker/src/coordinator.rs:67-76 | the cell of the key if there is one, a fresh dormant cell otherwise; other keys keep theirs |
| `WakeObjects.WakeCoordinator.Reset` | crates/nscale-waker/src/coordinator.rs:233-251 | the cache entry and the key are gone, the cell others may still hold is dormant and keeps its channel |
| `WakeObjects.WakeCoordinator.RefreshEndpoint` | crates/nscale-waker/src/coordinator.rs:257-293 | an error changes nothing, no endpoint resets the job, an endpoint is cached and reported as confirmed exactly if it is the current one |
| `WakeObjects.ResetUninterrupted` | crates/nscale-waker/src/coordinator.rs:233-239 | the three steps of a reset, uninterrupted, do to the shared state what the reset method does |
| `WakeObjects.RefreshUninterrupted` | crates/nscale-waker/src/coordinator.rs:264-270 | the steps of a refresh that found an endpoint, uninterrupted, cache it and make the cell of the job, if any, ready |
| `WakeObjects.RefreshMissingResets` | crates/nscale-waker/src/coordinator.rs:283-290 | a refresh that finds no endpoint, uninterrupted, resets the job |
| `WakeObjects.RefreshFailedKeeps` | crates/nscale-waker/src/coordinator.rs:264 | a refresh that fails leaves everything as it was |
| `RegistryRefinement.ReadThrough` | crates/nscale-store/src/registry.rs:151-185 | after any sequence of operations and cache losses `get` finds a key exactly if etcd holds it as job or service, finds a current registration for it, and the directly looked up one when each job has one service |
| `RegistryRefinement.RunKeepsCoherent` | crates/nscale-store/src/registry.rs:38-222 | every operation keeps both hashes to current registrations under their own names |
| `RegistryRefinement.CoherentAnswer` | crates/nscale-store/src/registry.rs:151-185 | coherence is enough for the cache to answer as etcd would |
| `RegistryRefinement.RegisterKeepsCoherent` | crates/nscale-store/src/registry.rs:98-106 | a registration that moves a job to another service name leaves nothing outdated in the job hash |
| `RegistryRefinement.DeregisterKeepsCoherent` | crates/nscale-store/src/registry.rs:109-133 | a deregistration leaves no entry in a hash that etcd no longer backs |
| `RegistryRecovery.DeregisterComplete` | crates/nscale-store/src/registry.rs:109-133 | no value of the job is left in any of the four maps, under any service name, and etcd keeps every entry of every other job |
| `RegistryRecovery.DeregisteredIsGone` | crates/nscale-store/src/registry.rs:57-82 | no lookup of any key ever finds a registration of the job again, through any sequence of operations that does not register it |
| `RegistryRecovery.Compensation` | crates/nscale-store/src/registry.rs:112-128 | after an eviction that failed at any point and a restore, etcd is as before if and only if the key was not found or the rollback is exact for it: a job id without a service but the restored one, or the name of the service that the job entry names; then the caches are coherent and the same keys are found |
| `RegistryRecovery.RestoredEtcd` | crates/nscale-etcd/src/client.rs:118-141 | removing what a key stands for and storing what was found for it is the identity on etcd exactly under that condition, for job ids and service names |
| `RegistryRecovery.TwoServiceJobLosesOne` | crates/nscale-store/src/registry.rs:116-118 | a job with two services for which the rollback loses one |
| `RegistryRecovery.ServiceKeyOverwritesJob` | crates/nscale-store/src/registry.rs:110-118 | a failed deregistration under the name of a second service removes nothing and overwrites the job entry |
| `RegistryHistory.CachedWasDurable` | crates/nscale-store/src/registry.rs:84-106 | from a cold cache, under any interleaving, lost request, lost reply and crash, what is in a Redis hash was accepted by etcd before |
| `RegistryHistory.NextDurableFirst` | crates/nscale-store/src/registry.rs:99-103 | the step behind it: whatever a call may still write has been accepted |
| `RegistryHistory.NextProcAccepted` | crates/nscale-store/src/registry.rs:151-212 | a call only carries on with registrations it has read from a store or has had accepted |
| `RegistryHistory.StaleFill` | crates/nscale-store/src/registry.rs:167-178 | for every registration, a lookup overlapping with a deregistration can leave it cached while etcd no longer has it |
| `RegistryHistory.CrossedWrites` | crates/nscale-store/src/registry.rs:98-106 | from any state without calls under way, two registrations of one service that cross leave the cache with the one that etcd no longer holds |
| `RegistryHistory.LostReplyIsStale` | crates/nscale-store/src/registry.rs:99-103 | a registration that etcd takes without its reply arriving leaves the old one cached |
| `RegistryHistory.FailedEvictionRestores` | crates/nscale-store/src/registry.rs:115-127 | an eviction that fails at any of its commands is answered by storing what the lookup had found, and by nothing if it had found nothing |
| `RegistryAgreement.AgreeBetweenWrites` | crates/nscale-store/src/registry.rs:84-222 | in every schedule in which no registration or deregistration overlaps with another call or meets a fault, whenever none is under way the caches are coherent and a lookup answers as etcd does; all other calls may overlap, fail and crash |
| `RegistryAgreement.ReadsAgree` | crates/nscale-store/src/registry.rs:151-222 | any interleaving of lookups, syncs and listings with any faults and crashes keeps cache and etcd in agreement |
| `RegistryAgreement.AgreeingRun` | crates/nscale-store/src/registry.rs:98-133 | the invariant: the write under way is alone and leads to coherent stores |
| `RegistryAgreement.AloneIsSpec` | crates/nscale-store/src/registry.rs:97-185 | a registration, deregistration or lookup of the interleaved model that is undisturbed leaves exactly the stores of the sequential specification |
| `RegistryAgreement.AloneListingIsSpec` | crates/nscale-store/src/registry.rs:84-95 | so does an undisturbed sync or listing, for some listing of etcd |
| `RegistryAgreement.AloneEnds` | crates/nscale-store/src/registry.rs:97-222 | left alone, every call ends from every state |
| `RegistryJobAgreement.AgreeOnJob` | crates/nscale-store/src/registry.rs:84-222 | per job: in every schedule in which no write of the job overlaps with a lookup under one of its keys, a sync, a listing or another write of it, and its writes meet no fault, whenever none is under way a lookup under a key of the job answers as etcd does; calls of other jobs may do anything, faults and crashes included |
| `RegistryJobAgreement.AgreeingForRun` | crates/nscale-store/src/registry.rs:98-133 | the invariant: the write of the job under way is the only call that has to do with it, and leads to agreement of its entries |
| `RegistryJobAgreement.NextCalmFor` | crates/nscale-store/src/registry.rs:109-222 | any step of anything but a write of the job, failing or not, restores of other jobs included, keeps its entries in agreement |
| `RegistryJobAgreement.ElsewhereIssue` | crates/nscale-store/src/registry.rs:38-82 | under the naming discipline no command of a call of another job touches an entry of this one, in Redis or etcd |
| `RegistryJobAgreement.CoherentStart` | crates/nscale-store/src/registry.rs:84-95 | where cache and etcd agree and no call is under way, they agree for every job |
| `RegistryRemoval.EtcdIsCleared` | crates/nscale-etcd/src/client.rs:131-141 | whatever lookups, syncs, listings, registrations of other jobs and deregistrations interleave, once a deregistration of the job has begun and none still has to delete, etcd holds nothing of it |
| `RegistryRemoval.CleanupLeavesNothing` | crates/nscale-store/src/registry.rs:57-133 | any number of overlapping deregistrations of a job: when nothing that could cache the job overlaps with them, then once all have ended no map holds it and no call under way has it to write |
| `RegistryRemoval.CacheClearingRun` | crates/nscale-store/src/registry.rs:57-82 | the invariant: while deregistrations are under way, each entry of the job is still going to be evicted by one of them |
| `RegistrySpec.KeyFamilies` | crates/nscale-etcd/src/client.rs:31-45 | job keys and service keys are injective, and neither family is inside the prefix of the other |
| `RegistryLedger.LookupWithoutEtcd` | crates/nscale-store/src/registry.rs:151-165 | without etcd, after any operations, a lookup finds exactly the last registration under the key as a job id that was neither deregistered nor lost since, or else the last one under it as a service name |
| `RegistryLedger.LookupWithEtcd` | crates/nscale-store/src/registry.rs:151-185 | with etcd and the naming discipline a lookup finds a key exactly if a registration under it stands, and finds one that stands, whatever the cache has lost |
| `RegistryLedger.CacheRecords` | crates/nscale-store/src/registry.rs:97-133 | without etcd the two hashes hold exactly the last registrations under each job id and service name |
| `RegistryLedger.EtcdRecords` | crates/nscale-store/src/registry.rs:97-133 | etcd holds exactly the last registrations under each job id and service name that no deregistration has taken away, through lookups, syncs, listings and cache losses |
| `RegistryLedger.FoundAgainInCache` | crates/nscale-store/src/registry.rs:176-178 | what a lookup has found is found again in Redis alone |
| `RegistryLedger.ListingFillsCache` | crates/nscale-store/src/registry.rs:84-95 | after a sync, or a listing of empty hashes, Redis alone holds every service entry of etcd and an entry for every job |
| `RegistryObjects.EtcdClient.StoreRegistration` | crates/nscale-etcd/src/client.rs:118-128 | both keys are put or neither, also when the call fails |
| `RegistryObjects.EtcdClient.ServiceKeysForJob` | crates/nscale-etcd/src/client.rs:93-112 | exactly the service keys whose registration names the job |
| `RegistryObjects.EtcdClient.RemoveRegistration` | crates/nscale-etcd/src/client.rs:131-141 | the job key and all its service keys go together or none does |
| `RegistryObjects.EtcdClient.ListAll` | crates/nscale-etcd/src/client.rs:157-164 | all service registrations, or all job registrations if there is no service |
| `RegistryObjects.JobRegistry.CacheRegistration` | crates/nscale-store/src/registry.rs:38-55 | both hashes hold the registration; a failure leaves at most one of the writes, or both, done and nothing else changed |
| `RegistryObjects.JobRegistry.RemoveCachedRegistration` | crates/nscale-store/src/registry.rs:57-82 | every entry of the job is gone from both hashes; a failure has removed only entries of the job |
| `RegistryObjects.JobRegistry.Register` | crates/nscale-store/src/registry.rs:98-106 | etcd first: a failure of etcd leaves the cache untouched, a failure of Redis comes after etcd has the registration |
| `RegistryObjects.JobRegistry.Get` | crates/nscale-store/src/registry.rs:151-185 | answers and fills the cache as the specification says; a failure never changes etcd |
| `RegistryObjects.JobRegistry.Deregister` | crates/nscale-store/src/registry.rs:109-133 | does what the specification says, or fails with a failed eviction answered by the restore, or without having got that far |
| `RegistryObjects.JobRegistry.SyncFromDurable` | crates/nscale-store/src/registry.rs:84-95 | caches a whole listing of etcd and returns the number of entries listed; a failure has cached a first part of a listing or nothing |
| `RegistryObjects.JobRegistry.ListAll` | crates/nscale-store/src/registry.rs:187-222 | lists the service hash, else the job hash, else etcd, and touches the cache only in the last case, also when it fails |
| `InFlightGate.GateHolds` | crates/nscale-scaler/src/controller.rs:235-247 | a `scale_down_job` call never reaches `scale_down` for a job with a guard live from the start of the call until now |
| `InFlightGate.CountIsLiveGuards` | crates/nscale-core/src/inflight.rs:22-69 | in every interleaving, lock upgrades included, the count of a job is the number of its live guards |
| `InFlightGate.NoUnderflow` | crates/nscale-core/src/inflight.rs:65-69 | a guard that drops finds its counter positive, so the decrement never wraps |
| `InFlightGate.ExactRun` | crates/nscale-core/src/inflight.rs:22-38 | the invariant: one counter for each job, whoever raced to create it |
| `InFlightGate.GateMissesOtherKeys` | crates/nscale-scaler/src/controller.rs:236-294 | for every activity key that is not the job id of its registration, the job is scaled down under a live guard |
| `InFlightObjects.InFlightTracker.Track` | crates/nscale-core/src/inflight.rs:22-38 | the job's count goes up by one, no other count changes, and the guard is the job's one counter |
| `InFlightObjects.InFlightTracker.Release` | crates/nscale-core/src/inflight.rs:65-69 | undoes one tracking of the job and nothing else |
| `InFlightObjects.InFlightTracker.HasInFlight` | crates/nscale-core/src/inflight.rs:41-47 | true exactly if the job's count is positive |
| `ScaleDownLock.OneTickAtATime` | crates/nscale-scaler/src/controller.rs:183-220 | if ticks and their releases end within the TTL, at most one replica is inside a tick, over all timed runs of any number of replicas |
| `ScaleDownLock.ExclusiveIffWithinTtl` | crates/nscale-scaler/src/controller.rs:60-61 | with ticks and releases bounded, no run of any number of replicas has two of them inside a tick if and only if neither bound exceeds the TTL: a long tick lets a second replica in, and so does a late release, whose token names the instance and not the acquisition |
| `ScaleDownLock.LeaseStays` | crates/nscale-store/src/activity.rs:101-143 | through any acquisitions, ticks, crashes and releases of other replicas a lease stays in place until it expires or its holder releases it |
| `ScaleDownLock.LostReplyHoldsUntilTtl` | crates/nscale-store/src/activity.rs:101-121 | an acquisition whose reply is lost starts no tick, and keeps every replica from starting one until exactly the TTL is over |
| `ScaleDownLock.ExclusiveRun` | crates/nscale-store/src/activity.rs:101-121 | the invariant: there is at most one session and it holds the lock until its TTL |
| `Heartbeat.NeverIdleWhileServed` | crates/nscale-proxy/src/handler.rs:238-278 | from its start record to its response or its cap, and without a cap for a WebSocket, a request keeps its job out of the idle list |
| `Heartbeat.FreshRun` | crates/nscale-store/src/activity.rs:78-88 | the invariant: the score is at most two intervals behind the next beat, or behind the write on its way |
| `Heartbeat.IdleIffOldWrite` | crates/nscale-store/src/activity.rs:78-88 | a job is reported idle exactly if its last write, not removed since, is at least the timeout ago |
| `Heartbeat.KeepsBeating` | crates/nscale-proxy/src/handler.rs:250-277 | for every n, up to the cap for an ordinary request, some run has written the n-th beat n thirds of the timeout after the start and goes on |
| `Heartbeat.CapLetsGo` | crates/nscale-proxy/src/handler.rs:261-269 | from the cap on the request writes no more, and the job is reported idle exactly once its last score is the timeout old |
| `ControllerSpec.NoRetryWithinBackoff` | crates/nscale-scaler/src/controller.rs:361-371 | in any sequence of calls no attempt on a key starts within 30 seconds of one on that key that a deployment blocked |
| `ControllerSpec.OtherKeysUntouched` | crates/nscale-scaler/src/controller.rs:223-336 | a call leaves deferral, baseline, activity and dormancy of every other key alone |
| `ControllerSpec.ReleasedStartsAfresh` | crates/nscale-scaler/src/controller.rs:347-360 | after a job was given up, and whatever happens to other jobs in between, its next call attempts a scale-down exactly if nothing is in flight, the counter read is zero or unprobed, and the job is registered: no old deferral or baseline is left |
| `ControllerSpec.GrownCounterHoldsBack` | crates/nscale-scaler/src/traffic_probe.rs:39-66 | over runs of calls: if the last counter read for a key since it was given up was p, a call that reads q makes its attempt exactly if q is at most p and the job is registered |
| `ControllerSpec.FirstLookHoldsBack` | crates/nscale-scaler/src/traffic_probe.rs:56-63 | the first counter read for a key lets an attempt through exactly if it is zero and the job is registered |
| `ControllerSpec.BusyIsRecorded` | crates/nscale-scaler/src/controller.rs:236-260 | a job found busy, by a request in flight or a grown counter, has its activity set to the time of the check |
| `ControllerSpec.UnregisteredIsForgotten` | crates/nscale-scaler/src/controller.rs:275-281 | a key without a registration loses its activity entry and is not scaled down |
| `ControllerSpec.FaultLeavesJobAlone` | crates/nscale-scaler/src/controller.rs:265-285 | a failing probe or registry means no attempt, and the activity stays as it was |
| `ControllerSpec.AttemptLeaves` | crates/nscale-scaler/src/controller.rs:347-375 | after an attempt the activity is the time it was found blocked, gone if the job was given up, and otherwise as before; only a job given up becomes dormant |
| `ControllerSpec.ClearIsAttempted` | crates/nscale-scaler/src/controller.rs:212-217 | each idle job whose turn comes and that is clear then has its attempt in the log at the end of the tick, and no attempt is lost |
| `ControllerSpec.DeferringRun` | crates/nscale-scaler/src/controller.rs:225-233 | the invariant: a blocked attempt is still deferred or its backoff is over |
| `ControllerObjects.ScaleDownController.ScaleDownJob` | crates/nscale-scaler/src/controller.rs:223-336 | the code updates its fields as the specification of one call says, on every exit |
| `ControllerObjects.ScaleDownController.HasActiveTraffic` | crates/nscale-scaler/src/traffic_probe.rs:39-66 | active exactly if the counter has grown, or is positive at the first look, and the baseline is always replaced |
| `ControllerObjects.ScaleDownController.Tick` | crates/nscale-scaler/src/controller.rs:212-217 | the idle jobs are handled in order up to the one before which the shutdown is noticed |
| `MissingJobs.NoEarlyCleanup` | crates/nscale-proxy/src/handler.rs:103-116 | under every interleaving and fault a cleanup belongs to an increment that was at least the threshold-th since the last clear |
| `MissingJobs.ThresholdStartsCleanup` | crates/nscale-scaler/src/controller.rs:118-126 | without faults, once the counter reaches the threshold, the signal counted with exactly the threshold has started the cleanup or is about to |
| `MissingJobs.CleanupCompletes` | crates/nscale-proxy/src/handler.rs:77-116 | in every interleaving of fault-free signals, successes and deregistrations with registry calls that do not register the job again, once no signal has anything left to do the counter is below the threshold and, if any signal reached it, etcd holds nothing of the job; neither does the cache, once all deregistrations of the job have ended, if no lookup, sync, listing or deregistration under another key overlapped with one |
| `MissingJobs.SomebodyAtWork` | crates/nscale-scaler/src/controller.rs:118-145 | while the counter is at the threshold some signal still has its cleanup to decide, begin, await or clear |
| `MissingJobs.CleanedUpToRun` | crates/nscale-scaler/src/controller.rs:90-110 | the invariant: each increment that reached the threshold belongs to an actor before its deregistration, or waiting for one that still has to delete, or etcd holds nothing of the job and the counter has been cleared since or is about to be |
| `MissingJobs.FaithfulRun` | crates/nscale-store/src/auto_deregister.rs:28-64 | the invariant: the counter is the number of increments since the last clear and every increment was told its rank |
| `MissingJobs.CountReached` | crates/nscale-store/src/auto_deregister.rs:28-48 | since the last clear some increment was told each number up to the counter |
| `MissingJobs.SuccessClears` | crates/nscale-scaler/src/controller.rs:80-88 | a success clears the counter, unless its command is lost |
| `RouterTags.ServiceTagRouter` | crates/nscale-nomad/src/job_mutator.rs:166-182 | a tag with the service prefix of a router is a tag of that router and no other, as names have no dots |
| `RouterTags.Canonical` | crates/nscale-nomad/src/job_mutator.rs:146-148 | each router ends with exactly one service tag, the target; the set of routers and all other tags, in their order, are as before |
| `RouterTags.Idempotent` | crates/nscale-nomad/src/job_mutator.rs:177-217 | rewriting rewritten tags changes nothing, in whatever order the routers are taken |
| `RouterTags.SettleOne` | crates/nscale-nomad/src/job_mutator.rs:196-216 | after an upsert exactly one tag has the prefix, the desired one |
| `RouterTags.SettleKeeps` | crates/nscale-nomad/src/job_mutator.rs:196-216 | an upsert keeps the order and values of all tags it is not about |
| `RouterTags.UpsertNames` | crates/nscale-nomad/src/job_mutator.rs:166-175 | an upsert neither adds nor loses a router name |
| `JobText.RouterNamesExactly` | crates/nscale-nomad/src/job_mutator.rs:166-175 | x is a router exactly if it has no dot and some tag is the prefix, x, a dot and anything |
| `JobText.FirstFaultDecides` | crates/nscale-nomad/src/job_mutator.rs:12-144 | a document is rejected for the first thing that is wrong with it, in document order, and accepted exactly if nothing is |
| `JobText.RoutersPointAtTarget` | crates/nscale-nomad/src/job_mutator.rs:146-148 | after the rewrite of an enabled service each of its routers is pointed at the target and nowhere else |
| `JobText.ReturnsExactlyDescribed` | crates/nscale-nomad/src/job_mutator.rs:20-90 | the triples returned are exactly those the document describes: the job by its `ID` or else its `Name`, groups and services by their `Name`, for the enabled services of groups and tasks |
| `JobTags.OnlyTagsChange` | crates/nscale-nomad/src/job_mutator.rs:12-91 | injection changes nothing of a document but the tags of its services, even when it stops with an error |
| `JobTags.InjectionComplete` | crates/nscale-nomad/src/job_mutator.rs:34-90 | on success every service at group and task level is rewritten as its tags ask for, and the result lists the triples of the enabled ones |
| `JobTags.InjectionIdempotent` | crates/nscale-nomad/src/job_mutator.rs:12-91 | a second injection changes nothing and returns the same registrations |
| `JobTags.RewrittenIsCanonical` | crates/nscale-nomad/src/job_mutator.rs:130-148 | in an enabled service each router has exactly one service tag, the target, and nothing else about its tags has changed |
| `JobTags.AddAllDistinct` | crates/nscale-nomad/src/job_mutator.rs:150-160 | the returned list has no duplicates and misses nothing |
| `JobTags.AddAllInOrder` | crates/nscale-nomad/src/job_mutator.rs:150-160 | and is in the order of first occurrence |
| `JobMutatorObjects.TagVec.MatchingIndexes` | crates/nscale-nomad/src/job_mutator.rs:185-194 | all positions with the prefix, ascending, and nothing between them matches |
| `JobMutatorObjects.TagVec.RemoveLater` | crates/nscale-nomad/src/job_mutator.rs:209-211 | removing from the back takes out exactly the matches after the first |
| `JobMutatorObjects.SettleAt` | crates/nscale-nomad/src/job_mutator.rs:196-216 | the desired tag stands where the first match stood, or at the end if there was none |
| `JobMutatorObjects.TagVec.Upsert` | crates/nscale-nomad/src/job_mutator.rs:177-217 | the edit in place computes the specified list |
| `JobMutatorObjects.JobMutator.InjectTags` | crates/nscale-nomad/src/job_mutator.rs:146-148 | the loop over the ordered set makes one upsert for each router, in sorted order |
| `JobMutatorObjects.JobMutator.InjectService` | crates/nscale-nomad/src/job_mutator.rs:102-160 | one service: default tags, enabling, the error exits, and a registration only if its triple is new |
| `JobMutatorObjects.JobMutator.InjectServices` | crates/nscale-nomad/src/job_mutator.rs:93-164 | the services in order up to the first error, with what was done before it kept |
| `JobMutatorObjects.JobMutator.InjectTasks` | crates/nscale-nomad/src/job_mutator.rs:64-87 | the same for the tasks of a group |
| `JobMutatorObjects.JobMutator.InjectGroup` | crates/nscale-nomad/src/job_mutator.rs:37-88 | services of the group first, then those of its tasks |
| `JobMutatorObjects.JobMutator.InjectNscaleTags` | crates/nscale-nomad/src/job_mutator.rs:12-91 | the whole injection computes the specified document, and the registrations or the first error |
| `EventFraming.ChunkIndependent` | crates/nscale-nomad/src/events.rs:109-151 | however the stream is cut, the events are those of its complete lines, in order, as far as the receiver takes them, and the buffer holds exactly the bytes after the last newline |
| `EventFraming.LinesConcat` | crates/nscale-nomad/src/events.rs:117-120 | lines do not depend on where the byte stream is cut |
| `EventFraming.LinesAndRest` | crates/nscale-nomad/src/events.rs:117-120 | no byte is lost, repeated or moved by the framing |
| `EventFraming.LineShape` | crates/nscale-nomad/src/events.rs:119-120 | a line ends with a newline and has no other |
| `EventFraming.DeliversInOrder` | crates/nscale-nomad/src/events.rs:133-144 | the receiver gets a prefix of all events, all of them unless it goes away |
| `EventObjects.EventConsumer.OnChunk` | crates/nscale-nomad/src/events.rs:116-151 | draining the buffer in place handles the lines of buffer and chunk and leaves their rest |
| `EventObjects.EventConsumer.SendFrame` | crates/nscale-nomad/src/events.rs:132-144 | the index moves to the frame, and its events are delivered one by one until the receiver is gone |
| `EventObjects.EventConsumer.ConnectAndConsume` | crates/nscale-nomad/src/events.rs:108-164 | one connection starts with an empty buffer and feeds its chunks in order until the receiver is gone |
| `EventObjects.EventConsumer.EventStreamLoop` | crates/nscale-nomad/src/events.rs:42-64 | connection after connection with the progress kept, until the receiver is gone |
| `EventReplay.ReplayEqualsUninterrupted` | crates/nscale-nomad/src/events.rs:42-64 | for any disconnects at any byte, once a connection has brought the last frames, every frame has been applied and the running set is that of the uninterrupted stream |
| `EventReplay.DeliveredEqualsUninterrupted` | crates/nscale-scaler/src/event_processor.rs:43-58 | end to end: whatever the chunks and the breaks, the events delivered leave the processor with the running set of the uninterrupted stream |
| `EventReplay.ConsumerReplays` | crates/nscale-nomad/src/events.rs:42-63 | the byte-level consumer, over all connections, delivers the events of the frames applied and reaches the index the next connection asks for |
| `EventReplay.ResumedIsSettled` | crates/nscale-nomad/src/events.rs:66-84 | the invariant: nothing before the next start is missing, and what later frames do not touch is already right |
| `EventReplay.ReceivedIsStretch` | crates/nscale-nomad/src/events.rs:112-158 | a broken connection applies a contiguous stretch of frames from where it was asked to start |
| `EventReplay.ConsumerInFrames` | crates/nscale-nomad/src/events.rs:126-149 | what the consumer delivers for some lines, and the index it reaches, in terms of frames |
| `EventReplay.LastTouchDecides` | crates/nscale-scaler/src/event_processor.rs:118-139 | the last event about an allocation decides whether it is seen as running |
| `EventReplay.EventMeaning` | crates/nscale-scaler/src/event_processor.rs:104-167 | in the terms of the event: for a registered job running with run is seen as running, complete, failed, lost and a desired stop end that, and every other event changes nothing |
| `EventProcessorObjects.EventProcessor.HandleEvent` | crates/nscale-scaler/src/event_processor.rs:70-170 | activity is recorded only for an allocation first seen running, a stopped one makes the job dormant, anything else changes nothing |
| `EventProcessorObjects.EventProcessor.Run` | crates/nscale-scaler/src/event_processor.rs:43-58 | the running set after a stream is that of its events in order |

## Left out

- `ensure_running` as a method: it gives up control at every await, so it is modelled as the threads of the step machine only; the classes hold the parts of the coordinator that run without waiting.
- `WakeObjects.WakeCoordinator.RefreshEndpoint`: runs in one piece given Nomad's answer; the interleaved form is part of the step machine.
- `RegistryRefinement.ReadThrough`: for operations one after the other without faults; interleaved ones are the subject of `RegistryAgreement`.
- `RegistryJobAgreement.AgreeOnJob`: says when agreement holds; that some kinds of overlap break it is shown by `StaleFill` and `CrossedWrites`, not for every pair of calls.
- `MissingJobs.CleanupCompletes`: leaves out `mark_dormant` and the removal of activity and baseline, which come before the deregistration and do not fail it; how a failed deregistration ends is taken from the action.
- `EventReplay.ReplayEqualsUninterrupted`: says nothing about how often activity is recorded or a job is marked dormant, which replay can repeat.
- `Heartbeat.NeverIdleWhileServed`: one job and one request; other requests are writes at any time.
- The status value outside the three known ones: the status is a datatype, so that exit of `ensure_running` cannot be taken.
- Liveness: that a task is ever scheduled, that a wake ever ends, that a reconnect ever succeeds.
- The sleep times of the abandonment poller: any two looks in a row at no receiver cancel the wake.
- Fairness of the semaphore, and its closing, which nscale never does.
- HTTP clients, routing, response streaming, WebSocket tunnels, and the proxy's retry ladder.
- JSON, UTF-8 decoding and trimming of a line, the error text of the answers, and the normalisation of the etcd key prefix.
- Parsing of Prometheus metrics; a scrape is a natural number or a failure.
- Completeness of `list_all`, which answers from a partial cache by design.
- Redis, etcd and Nomad themselves: atomic maps, compare-and-delete, a counter, and a list of frames.
- Configuration, logging, the admin API, deployment files.
