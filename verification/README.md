# A verified model of the kuberecord data plane

kuberecord records what happens to Kubernetes objects: informers feed a work queue, a worker per
key compares the live object with a version-gated cache of what a sink was told, writes rows
asynchronously, and settles each write through a callback that may come late, out of order, or as a
failure. This project models that data plane in Dafny and proves what it guarantees.

`dafny verify dfyconfig.toml` checks everything.

## How it is laid out

| file | part of the system |
|---|---|
| `Common`, `Texts` | shared vocabulary; text order, sorting, split and join |
| `HashCache` | the dedup cache: gates as functions, the table as a class proved against them |
| `Protocol` | the write protocol of one (sink, key) as a state machine; hypotheses; runs |
| `Pipeline` | the program's work item, retry list, queue and callbacks, proved to be those steps |
| `DataPlane` | many keys, one clock: every key is always in a state the machine reaches |
| `Settlement`, `Lifetimes`, `DeleteOnce`, `CloseOuts`, `NoGaps`, `Continuity`, `Histories`, `Replay`, `FullRows`, `Events`, `Provenance` | invariants and theorems over every run |
| `Implications` | which hypotheses follow from which |
| `Boundaries` | runs that meet the other hypotheses and break a guarantee |
| `Exactness` | exactly when each guarantee holds |
| `Writer` | the batched writer and its shutdown order, all interleavings |
| `SinkManager` | instance routing and draining |
| `Recovery` | warm-up seeding and close-out recovery from history |
| `Identity` | cache keys and scope eviction |
| `Redaction`, `RedactionPaths`, `Policies`, `Floors` | redaction semantics, path grammar, policies, floors written and read back |
| `Registry`, `Interests`, `Epochs` | desired targets, interest table, scope epochs |
| `ControlPlane` | rules in, policies out, over any history of edits |
| `Scrubbing` | from the rules in force to what is scrubbed from an object |
| `Normalization` | what is hashed, and the informer transform |
| `Witnesses` | concrete libraries and names that meet the assumed laws |

## The protocol and its hypotheses

A work item is not atomic in the model. The worker reads the lister, retries owed close-outs, loads
the cache, closes out a superseded incarnation, reserves a version and submits, in separate steps;
the watch cache, the sink and the zombie collector may act between any two of them. Lister errors,
unavailable sinks, refused enqueues, failed writes and undecodable baselines are all steps. A run is
any sequence of possible steps, and each theorem names the hypotheses it needs:

- `settled`: a work item starts only once every job of its key has settled.
- `truthful`: a callback reports success exactly when the row is durable.
- `lifetimes`: a key is not re-inserted while a versioned job of it is outstanding.
- `uids`: UIDs are non-empty and never come back to the watch cache.
- `calmGc`: the collector does not claim the very incarnation a worker is in the middle of recording.
- `idleGc`: the collector does not claim while a worker is in the middle of an item.
- `clearGc`: the collector does not claim while a write of the key is reserved or outstanding.

`settled` implies `lifetimes` and `idleGc` implies `calmGc` (`Implications`). The hypotheses on the
collector are not stated anywhere in the repository. What needs them, and what does not, is exact:

| guarantee, over every run | holds if and only if |
|---|---|
| no UID has two durable `Deleted` rows | truthful, uids, calmGc or idleGc, settled or lifetimes |
| a key with nothing left to do has no gap | settled, truthful, uids, idleGc |
| a key with nothing left to do has a complete history: each recorded incarnation is live, or has one `Deleted` row, stamped last | settled, truthful, uids, idleGc |
| no gap for keys whose object is in the watch cache | settled, truthful, uids |
| every incarnation's rows can be replayed | settled, truthful, uids; or no first change is recorded as a patch |
| the patch counter is exact for every entry, where some first change is recorded as a patch | settled, truthful, uids, clearGc |

The same three hypotheses make replay exact and bounded. The runs behind the negative halves are
in `Boundaries`: in `CollectorRace` a claim between the lister read and the reservation yields two
`Deleted` rows for one UID; in `UnrecordedDeath` a claim that fails after the successor reserved the
key leaves a death unrecorded; in `SupersededCount` a claim supersedes a write that then fails, and
the entry keeps its count. `Patches` says when a first change is recorded as a patch: the kind is not
Event, the documents have a diff, and the sink's cadence does not turn it into a checkpoint. Where it
never does, every row but a death holds full state and no hypothesis is needed (`FullRows`).

The documentation of `emitCloseOuts` calls a re-emitted close-out harmless because it is
byte-identical; `NothingNew` proves that for every way the query may break the tie.

`TransformObject` is documented as never perturbing a hash. `ContentCommutes` gives the exact
condition: an object whose annotations are present but empty, or not all strings, and whose managed
fields name someone, hashes differently once transformed (`EmptyAnnotationsShow`).

Modelling choices: UIDs and digests are naturals, since they are only compared (for the UID
tie-break any total order will do); each stamped record gets a strictly later instant, and time
may pass at any step; versions are unbounded; SHA-256, zstd, jsondiff, label selectors and string quoting are parameters with stated
laws (`HashCaches.Lawful`, `RedactionPaths.Lawful`), which `Witnesses` shows can be met; the lister, the sink's answers and the
scheduler are inputs.

## Model

| member | source | states |
|---|---|---|
| `HashCaches.CompressBaseline` | internal/pipeline/hashcache.go:330-362 | whatever way a baseline is stored, decoding it gives back the bytes that went in |
| `HashCaches.HashCache.Load` | internal/pipeline/hashcache.go:69-74 | returns the key's entry and changes nothing |
| `HashCaches.HashCache.Reserve` | internal/pipeline/hashcache.go:81-90 | installs the entry under the key's next version, one for a new key, and touches no other key |
| `HashCaches.HashCache.CommitIfCurrent` | internal/pipeline/hashcache.go:98-114 | replaces the entry exactly when the caller's version is still current, and says whether it did |
| `HashCaches.HashCache.DeleteIfCurrent` | internal/pipeline/hashcache.go:118-127 | removes the entry exactly when the caller's version is still current |
| `HashCaches.HashCache.ReserveDelete` | internal/pipeline/hashcache.go:204-222 | hands out a deletion claim to one caller only, for the expected UID, with a version that supersedes any write in flight |
| `HashCaches.HashCache.UnclaimDelete` | internal/pipeline/hashcache.go:229-238 | releases the claim only if nothing superseded it |
| `HashCaches.HashCache.StoreIfAbsent` | internal/pipeline/hashcache.go:244-255 | seeds an absent key at version one and never replaces a present one |
| `HashCaches.HashCache.DeletePrefix` | internal/pipeline/hashcache.go:269-280 | removes exactly the keys with the prefix, keeps the rest unchanged, and returns the number removed |
| `Pipelines.ItemIsARun` | internal/pipeline/process.go:352-416 | an uninterrupted work item is a run of the protocol machine from queued to idle, under any hypotheses that allow it to start |
| `Pipelines.ItemReports` | internal/pipeline/process.go:431-768 | a work item on a listed object writes nothing exactly when UID and digest are those last recorded; otherwise it hands over exactly one write, saying Added, Snapshot, Modified or Checkpoint with full state or patch as the case is, or queues the key again |
| `Pipelines.RetryAllIsAfterRetry` | internal/pipeline/process.go:930-935 | retrying owed close-outs one by one splits them into accepted jobs and still-owed records, in order, none lost |
| `Pipelines.CloseOutRetryQueue.Add` | internal/pipeline/process.go:956-963 | appends to the key's list only |
| `Pipelines.CloseOutRetryQueue.TakeAll` | internal/pipeline/process.go:966-972 | returns the key's list and clears it, leaving other keys alone |
| `Pipelines.Pipeline.ForgetEphemeral` | internal/pipeline/process.go:876-885 | an expired Event's entry is gone unless a claim is in flight, and no other key changes |
| `Pipelines.Pipeline.EnqueueCloseOut` | internal/pipeline/process.go:899-921 | a close-out is handed over, or it is owed and the key queued |
| `Pipelines.Pipeline.RetryPendingCloseOuts` | internal/pipeline/process.go:930-935 | does to its key what the machine's Retry step does, and nothing to any other |
| `Pipelines.Pipeline.EmitDelete` | internal/pipeline/process.go:804-858 | claims, hands the Deleted row over or releases the claim, as the machine's step; reports the outcome and the error |
| `Pipelines.Pipeline.CloseSuperseded` | internal/pipeline/process.go:499-542 | the reincarnation branch does what the machine's CloseOld step does |
| `Pipelines.Pipeline.ReserveAndSubmit` | internal/pipeline/process.go:644-765 | reservation, record and enqueue or revert are the machine's Reserve and Submit steps |
| `Pipelines.Pipeline.ProcessUpsert` | internal/pipeline/process.go:431-768 | the whole upsert path, with its dedup and error exits, is the machine's steps from Load on |
| `Pipelines.Pipeline.Process` | internal/pipeline/process.go:352-416 | one work item gives the machine's state for its key, and asks for a retry exactly when the machine re-queues |
| `Pipelines.Pipeline.RecordChange` | internal/pipeline/process.go:497-765 | closing out, drafting, reserving and submitting a change is the machine's steps from CloseOld on |
| `Pipelines.Pipeline.OthersTick` | internal/pipeline/process.go:713-735 | for any other key a call is one Tick of the machine: its state is still shown, at the later instant |
| `Pipelines.Pipeline.ProcessNext` | internal/pipeline/pipeline.go:376-396 | takes the key off the queue, processes it, puts it back on failure; other keys keep entry, queue membership, jobs and debts |
| `Pipelines.Pipeline.Settle` | internal/pipeline/process.go:738-757 | running a job's callback is the machine's Settle step |
| `DataPlanes.DataPlane.Move` | internal/pipeline/pipeline.go:376-396 | when one key has moved as the machine does, every other key is in a state the machine reaches by letting time pass |
| `DataPlanes.DataPlane.Observe` | internal/watch/pool.go:414-465 | an informer event changes the watch cache and queues the key, and every key stays reachable |
| `DataPlanes.DataPlane.Vanish` | internal/watch/pool.go:414-465 | so does a deletion event |
| `DataPlanes.DataPlane.Work` | internal/pipeline/pipeline.go:376-396 | a work item moves its key as the machine's item does, among any number of other keys |
| `DataPlanes.DataPlane.Settle` | internal/pipeline/process.go:738-757 | a callback moves its key as the machine's Settle does |
| `DataPlanes.DataPlane.Collect` | internal/pipeline/warm.go:1179-1261 | a collector's claim moves its key as the machine's GcClaim does |
| `DataPlanes.DataPlane.NoKeyHasAGap` | internal/pipeline/process.go:352-416 | after any calls on any keys, a key with nothing left to do has no gap |
| `DataPlanes.DataPlane.NoKeyDiesTwice` | internal/pipeline/process.go:804-858 | and none has two Deleted rows for one UID |
| `DataPlanes.DataPlane.NoKeyForgetsADeath` | internal/pipeline/process.go:499-542 | each recorded incarnation of a finished key is live, or has exactly one deletion after all its states |
| `DataPlanes.DataPlane.NoEventIsMissed` | internal/pipeline/process.go:547-693 | the live Event of a finished Event key is recorded in full |
| `DataPlanes.DataPlane.NoKeyIsUnreadable` | internal/pipeline/process.go:324-335 | and every incarnation of every key is replayed to the state hashed on its newest row, within the cadence |
| `Implications.SettledRespectsLifetimes` | internal/pipeline/hashcache.go:81-90 | a run whose items start settled never reserves an absent key while a versioned job is outstanding |
| `Implications.IdleIsCalm` | internal/pipeline/warm.go:1179-1261 | a collector that claims only between items never claims what a worker holds |
| `Settlement.VersionsInEveryRun` | internal/pipeline/hashcache.go:81-127 | in every run that respects lifetimes outstanding versions are distinct and at most the entry's, and only its owner can pass the gate |
| `Settlement.StaleJobsDoNothing` | internal/pipeline/hashcache.go:98-127 | any number of superseded settlements, or settlements of an absent key, leave the entry alone |
| `Settlement.LatestDecides` | internal/pipeline/process.go:693-757 | however the others interleave, the entry ends as the last-issued write's own outcome dictates |
| `Settlement.SettlementConfluence` | internal/pipeline/process.go:693-757 | two orders of settling the same outstanding jobs with the same outcomes leave the same entry |
| `Settlement.ConfluentRuns` | internal/pipeline/hashcache.go:81-127 | the same over runs of the machine, from every reachable state |
| `Lifetimes.LifeStep` | internal/pipeline/hashcache.go:204-238 | every step keeps entry, jobs and pending reverts tied to one incarnation that is live or really gone |
| `DeleteOnce.OnceInEveryRun` | internal/pipeline/process.go:804-858 | for each UID, deletion rows durable, in flight or owed never add up to more than one, and once there is one the incarnation is gone, held by no worker and not claimable again |
| `DeleteOnce.AtMostOneDeletedRow` | internal/pipeline/process.go:499-542 | in every run under truthful, lifetimes, uids and calmGc no UID has two durable Deleted rows |
| `CloseOuts.CloseOutConservation` | internal/pipeline/process.go:899-972 | in every run each claimed close-out is in exactly one of in flight, owed, acknowledged, and nothing else is |
| `CloseOuts.DebtsAreQueued` | internal/pipeline/process.go:899-935 | in every run, under no hypothesis, an owed close-out has its key queued whenever no worker is at it |
| `Events.EventsStayEphemeral` | internal/pipeline/process.go:381-386 | no step for an ephemeral key issues anything but full-state Added and Modified rows |
| `Events.EventKeysStayEphemeral` | internal/pipeline/special_kinds.go:75-93 | hence no run for an Event of the core or events group leaves a Deleted, Snapshot, Checkpoint or diff-bearing row |
| `Events.LiveEventIsRecorded` | internal/pipeline/process.go:547-693 | in every run under settled, truthful and uids a quiescent Event in the watch cache has its full document as newest row |
| `Events.EventKeysAreRecorded` | internal/pipeline/special_kinds.go:75-93 | so it is for Events of the core and events groups |
| `Events.DurableKindsHaveNoGaps` | internal/pipeline/special_kinds.go:75-93 | every other kind, and Events of other groups, are recorded to the end, deaths included |
| `Events.ExpiredEventsAreForgotten` | internal/pipeline/process.go:876-885 | in every run, under no hypothesis, an expired Event leaves no entry and no Event's entry holds a baseline |
| `NoGaps.GapInEveryRun` | internal/pipeline/process.go:431-768 | the invariant that ties newest rows, cache entry, outstanding jobs and worker phase together holds in every run under settled, truthful, uids and idleGc |
| `NoGaps.NoGapsWhenQuiescent` | internal/pipeline/process.go:352-416 | in every run under settled, truthful, uids and idleGc a key not queued, worked on, in flight or in debt has a newest row with the live object's UID and hash, or a deletion or none if the object is gone |
| `Continuity.ContinuousInEveryRun` | internal/pipeline/process.go:431-768 | with the collector free to claim at any moment, entry, writes, rows and watch cache stay consistent for every living incarnation, and rows become durable in the order they were stamped |
| `Continuity.LiveIsRecorded` | internal/pipeline/process.go:352-416 | under settled, truthful and uids alone, a quiescent key whose object is in the watch cache has that object's state as its newest row, Event or not |
| `Histories.EveryDeathIsRecorded` | internal/pipeline/process.go:499-542 | in every run under settled, truthful, uids and idleGc a quiescent key has a Deleted row for every incarnation ever recorded but the live one |
| `Histories.DeathComesLast` | internal/pipeline/process.go:804-858 | an incarnation's Deleted row bears a later timestamp than all its other rows, and only one that is gone has any |
| `Histories.HistoryIsComplete` | internal/pipeline/process.go:431-858 | so each recorded incarnation of a quiescent key is live and has no deletion, or has exactly one, stamped last |
| `Replay.DraftFits` | internal/pipeline/process.go:553-622 | whichever of full state, diff or checkpoint is drafted, replaying it after the existing rows gives the new document and the count the cache will carry |
| `Replay.BoundedExactReplay` | internal/pipeline/process.go:324-335 | in every run under settled, truthful and uids, folding an incarnation's patches from its newest data-bearing row gives exactly the hashed document, over fewer patches than the cadence, and the fold follows the timestamps |
| `Replay.PatchCountIsExact` | internal/pipeline/hashcache.go:386-406 | at settled points the entry's counter is the number of patches a reader folds, for every incarnation still in the watch cache |
| `Replay.EveryPatchCountIsExact` | internal/pipeline/hashcache.go:386-406 | with clearGc the counter is exact for every entry, gone or not |
| `Replay.ReplayIsLive` | internal/pipeline/process.go:547-622 | a key with nothing left to do replays to the live object's own document |
| `Provenance.RowsAreObserved` | internal/pipeline/process.go:713-735 | in every run, under no hypothesis, each durable row carries the UID, API version, digest and document of an object that was observed, and a Deleted row carries none of the last two |
| `Boundaries.CollectorRace` | internal/pipeline/warm.go:1179-1261 | a run without calmGc and idleGc that records one death twice |
| `Boundaries.VersionRestart` | internal/pipeline/hashcache.go:81-90 | a run without settled and lifetimes that records one death twice |
| `Boundaries.LostAcknowledgement` | internal/pipeline/process.go:839-851 | a run without truthful acknowledgements that records one death twice |
| `Boundaries.ReturningUid` | internal/pipeline/process.go:804-858 | a run without uids that records one death twice |
| `Boundaries.UnsettledFallback` | internal/pipeline/process.go:698-704 | a run without settled that ends quiescent with a live object unrecorded |
| `Boundaries.UnfoundedAcknowledgement` | internal/pipeline/process.go:738-757 | a run without truthful acknowledgements that ends so |
| `Boundaries.ReturningGap` | internal/pipeline/warm.go:1179-1261 | a run without uids that ends so |
| `Boundaries.UnrecordedDeath` | internal/pipeline/hashcache.go:229-238 | a run without idleGc that ends quiescent with a death unrecorded |
| `Boundaries.OvertakenDeath` | internal/pipeline/hashcache.go:204-222 | a run under every hypothesis but settled in which a successor is recorded over a claim in flight, whose failure leaves a death unrecorded |
| `Boundaries.SupersededCount` | internal/pipeline/hashcache.go:98-114 | a run under every hypothesis but clearGc in which a vanished incarnation's entry has no row behind it |
| `Exactness.DeletedOnceExactly` | internal/pipeline/hashcache.go:204-238 | no run records one death twice if and only if truthful, uids, calmGc or idleGc, settled or lifetimes |
| `Exactness.NoGapsExactly` | internal/pipeline/process.go:352-416 | no run leaves a gap if and only if settled, truthful, uids and idleGc |
| `Exactness.CompleteExactly` | internal/pipeline/process.go:431-858 | every run that comes to rest leaves a complete history if and only if settled, truthful, uids and idleGc |
| `Exactness.LivingRecordedExactly` | internal/pipeline/process.go:431-768 | no run leaves a living object unrecorded if and only if settled, truthful and uids |
| `Boundaries.PatchWithoutBase` | internal/pipeline/process.go:553-622 | an entry that speaks for a state no row holds makes the next change, if the cadence leaves it a patch, one nothing can be applied to |
| `Boundaries.Nameless` | internal/pipeline/process.go:497-499 | a run without uids in which an entry with an empty UID is diffed against another incarnation |
| `Boundaries.ReturningPatch` | internal/pipeline/hashcache.go:98-114 | a run without uids and clearGc in which an incarnation that left comes back and is diffed against a state no row holds |
| `FullRows.ReplayableWithoutPatches` | internal/pipeline/process.go:553-622 | where no first change is recorded as a patch, in every run, under no hypothesis, an incarnation's newest row holds its full state |
| `Boundaries.UnreadableOtherwise` | internal/pipeline/process.go:547-622 | without settled, truthful or uids a run leaves such a patch, and an entry at rest whose incarnation cannot be replayed |
| `Exactness.ReplayableExactly` | internal/pipeline/process.go:547-622 | every run's rows can be replayed if and only if settled, truthful and uids are met or no first change is recorded as a patch |
| `Exactness.PatchCountExactly` | internal/pipeline/hashcache.go:386-406 | where some first change is recorded as a patch, the counter is exact at every settled point of every run if and only if settled, truthful, uids and clearGc |
| `Writer.InvInEveryRun` | internal/sink/clickhouse/writer.go:566-614 | every interleaving keeps each accepted job in exactly one of queue, batch, settled; timers armed exactly for non-empty filling batches; batches within the limit |
| `Writer.CallbacksAtMostOnce` | internal/sink/clickhouse/writer.go:427-462 | in every interleaving a callback runs at most once and only for an accepted job, reports success only for an acknowledged row and failure only for one that failed alone, and no send is possible on the closed channel |
| `Writer.CleanShutdown` | internal/sink/clickhouse/writer.go:482-528 | when Start returns every accepted job's callback has run exactly once, queue and batches are empty, and no user holds or can obtain the connection |
| `Writer.ShutdownCanFinish` | internal/sink/clickhouse/writer.go:482-528 | from every orderly state after shutdown begins some finite run closes the connection |
| `Writer.EveryRunCanShutDown` | internal/sink/clickhouse/writer.go:482-528 | hence every run of the writer can be brought to a clean end |
| `Writer.ServingAccepts` | internal/sink/clickhouse/writer.go:427-450 | with room in the queue a serving writer accepts any new job, at the end of the queue |
| `Writer.EveryJobCanBeWritten` | internal/sink/clickhouse/writer.go:566-614 | from every reachable serving state of a writer with a worker and any room a new job can be accepted, written and reported as written |
| `Writer.RefusedForAReason` | internal/sink/clickhouse/writer.go:427-462 | in every run a refused job was called after shutdown began, or its caller gave up |
| `Writer.ConnectionIsLent` | internal/sink/clickhouse/writer.go:401-414 | a serving writer lends its connection to any user, a closing one to none |
| `Writer.FlushBatch` | internal/sink/clickhouse/writer.go:659-712 | settles the batch in order, true for all if the batch was sent and by each row's own attempt otherwise, as that many steps of the machine |
| `SinkManagers.AccountedNew` | internal/sink/manager.go:587-611 | recycling keeps every started instance routed or with one drain scheduled, never both |
| `SinkManagers.AccountedDelete` | internal/sink/manager.go:630-647 | so does taking a name out of service |
| `SinkManagers.SinkManager.EnsureLocked` | internal/sink/manager.go:587-611 | a fitting instance is kept, a failing factory changes nothing, otherwise a new instance is routed and the one it replaced is drained |
| `SinkManagers.SinkManager.Ensure` | internal/sink/manager.go:563-583 | refuses an empty name or a stopped manager, only notes a request before the manager runs, otherwise succeeds exactly if that configuration is already routed or can be built, and then routes it, other names untouched |
| `SinkManagers.SinkManager.Delete` | internal/sink/manager.go:630-647 | unroutes the name and schedules one drain for what it routed; a no-op once stopped |
| `SinkManagers.SinkManager.DrainEnds` | internal/sink/manager.go:743-755 | an ended drain was a scheduled one |
| `SinkManagers.SinkManager.Begin` | internal/sink/manager.go:483-532 | brings up exactly the declared sinks whose factory succeeds |
| `SinkManagers.SinkManager.Stop` | internal/sink/manager.go:483-532 | nothing is routed any more and every started instance has its drain scheduled |
| `SinkManagers.SinkManager.Return` | internal/sink/manager.go:483-532 | after Start returns no instance is routed and every started one has drained |
| `Recovery.ListedBefore` | internal/sink/clickhouse/statereader.go:67-82 | after close-outs have landed, an answer lists no incarnation the first answer did not, with the same age and API version |
| `Recovery.CurrentStays` | internal/pipeline/warm.go:818-831 | an identity's current incarnation stays listed and current in every later answer |
| `Recovery.NothingNew` | internal/pipeline/warm.go:947-986 | reading and emitting again calls for no row the first reading did not, however ties are broken |
| `Recovery.RecoveryConverges` | internal/pipeline/warm.go:947-986 | over any number of rounds with any of the writes landing, the history gains only the first reading's close-outs and the living stay current |
| `Recovery.RecoveryIsIdempotent` | internal/pipeline/warm.go:673-685 | once a round has landed no later round adds a row |
| `Recovery.ClosedOutExactly` | internal/pipeline/warm.go:818-831 | a warm-up closes out exactly the open incarnations that a younger open one of the same identity replaced, dated from their own last rows |
| `Recovery.NewestIsSpared` | internal/pipeline/warm.go:818-831 | however ties are broken, the incarnation of an identity's newest row is never closed out |
| `Recovery.GroupByIdentity` | internal/pipeline/warm.go:791-804 | one bucket per identity, in the order of first sight, holding exactly that identity's states in order |
| `Recovery.SplitIncarnations` | internal/pipeline/warm.go:818-831 | the state with the greatest timestamp, the greatest UID breaking a tie, and every state of another UID |
| `Recovery.SplitIsCurrent` | internal/pipeline/warm.go:818-831 | the split of a group is the current incarnation and exactly the ones to close out |
| `Recovery.SeedScope` | internal/pipeline/warm.go:714-783 | seeds the current incarnation of each identity, never replaces a live entry, and collects exactly the priors to close out |
| `Recovery.SeededIsKnown` | internal/pipeline/warm.go:743-757 | on a seeded key the stored state is a duplicate, another UID a new incarnation, another state a change written in full |
| `Identity.CacheKeyIsInjective` | internal/pipeline/identity.go:77-79 | identities with plain groups, kinds and namespaces share a cache key only if equal |
| `Identity.PrefixIsScope` | internal/pipeline/identity.go:123-129 | a scope's prefix matches exactly the keys of the scope |
| `Identity.BarsCollide` | internal/pipeline/identity.go:77-79 | without the restriction on kinds two identities collide |
| `Identity.SinkState.ScopeWarm` | internal/pipeline/pipeline.go:476-486 | true exactly when the object's own scope or its kind's all-namespaces scope is warm |
| `Identity.SinkState.EvictScope` | internal/pipeline/pipeline.go:535-556 | forgets the scope's warmth and exactly the entries of its keys |
| `Redaction.ScrubShows` | internal/pipeline/redact.go:228-292 | after redaction an outermost matched position holds the sentinel, nothing is below it, and every other position shows what it showed |
| `Redaction.MatchesItsPath` | internal/pipeline/redact.go:248-320 | a path matches exactly the positions that spell it, with any index at each wildcard |
| `Redaction.ScrubUnion` | internal/pipeline/redact.go:228-242 | redacting by one set of positions after another is redacting by their union |
| `Redaction.Noninterference` | internal/pipeline/redact.go:228-320 | two objects redact to the same object exactly when they agree at every position with no match at or above it |
| `Redaction.RedactValue` | internal/pipeline/redact.go:248-292 | one path puts the sentinel at exactly the positions it matches, and reports a change exactly when the value differs |
| `Redaction.RedactElements` | internal/pipeline/redact.go:297-320 | the same for every element of an array, and nothing for a value that is not one |
| `RedactionPaths.ParseRedactionPath` | internal/pipeline/redact.go:331-407 | the parser loop terminates and computes the recursive grammar |
| `RedactionPaths.GrammarIsFieldPaths` | api/v1alpha1/shared_types.go:124 | without a quoted subscript the parser accepts exactly the CRD's field paths and returns exactly the segments that print as the text |
| `RedactionPaths.AnnotationParses` | internal/pipeline/redact.go:71-73 | an annotation's path parses to its three keys if and only if the key is non-empty and its quoted form holds no closing bracket |
| `RedactionPaths.AnnotationKeyParses` | api/v1alpha1/shared_types.go:135 | which every key the CRD admits satisfies |
| `Policies.CompileRedaction` | internal/pipeline/redact.go:135-153 | succeeds exactly when every path parses, and gives the one ascending compiled form of the paths and the built-in one |
| `Policies.CompiledUnique` | internal/pipeline/redact.go:135-153 | the set of texts decides the policy, whatever order or repetition they came in |
| `Policies.MergeRedaction` | internal/pipeline/redact.go:175-195 | holds exactly the contributed paths, each text once and ascending; none only if nothing was contributed |
| `Policies.ApplyPaths` | internal/pipeline/redact.go:228-242 | path after path, the result is the set semantics of all of them and the root stays an object |
| `Policies.Apply` | internal/pipeline/redact.go:228-242 | the same with no policy meaning the built-in one |
| `Policies.OrderIsIrrelevant` | internal/pipeline/redact.go:228-242 | policies with the same paths redact alike |
| `Policies.ApplyIsIdempotent` | internal/pipeline/redact.go:248-262 | redacting twice is redacting once |
| `Policies.MergeCovers` | internal/pipeline/redact.go:175-195 | a merge covers exactly what any of its policies covers |
| `Policies.MergeLaw` | internal/pipeline/redact.go:175-195 | the merge of two policies redacts as one after the other |
| `Policies.StoredAlike` | internal/pipeline/redact.go:228-320 | objects are stored alike under a policy exactly when they differ only beneath what it covers |
| `Texts.LeqIsLexicographic` | internal/controller/redaction.go:48-49 | the order of every sorted list is by the first differing character, a text before its extensions |
| `Floors.CanonicalRedaction` | internal/controller/redaction.go:40-69 | the text is the joined ascending list of exactly the paths the floor and the extras ask for |
| `Floors.FlattenRedactions` | internal/watch/interest.go:199-216 | the ascending list of exactly the non-empty paths in the texts |
| `Floors.TargetPolicy` | internal/watch/interest.go:148-190 | fails exactly when a path is malformed; otherwise the effective policy is compiled from the flattened paths and the built-in one |
| `Floors.SpelledIsRead` | internal/watch/interest.go:199-216 | splitting a canonical text gives back exactly the paths joined into it |
| `ControlPlane.RuleBook.Apply` | internal/plan/registry.go:280-319 | an edited rule's requests are rendered, joined and installed, or a malformed selector leaves everything as it was |
| `ControlPlane.RuleBook.Withdraw` | internal/plan/registry.go:329-342 | a deleted rule's requests are no longer in force, and no other rule's are touched |
| `ControlPlane.RuleBook.CarriedIsAsked` | internal/plan/registry.go:421-473 | what a target's snapshot carries is exactly what the rules in force ask for there |
| `ControlPlane.RuleBook.PolicyFor` | internal/watch/interest.go:148-190 | after any history of edits a wanted target's policy is the built-in path and exactly the union of the floors and extras of the rules in force, or an error if one of those paths is malformed |
| `Registry.AddedIsExact` | internal/plan/registry.go:421-443 | adding a contribution keeps every counter an exact cardinality |
| `Registry.RemovedIsExact` | internal/plan/registry.go:447-473 | dropping one does too, and no empty target or zero counter survives |
| `Registry.ExactIsUnique` | internal/plan/registry.go:421-473 | the rules' target sets alone decide the index, whatever edits led to them |
| `Registry.PlanRegistry.Upsert` | internal/plan/registry.go:280-319 | a malformed selector changes nothing; otherwise the rule's canonical set is installed, the index stays exact, and a wake-up is posted exactly if the set changed |
| `Registry.PlanRegistry.Remove` | internal/plan/registry.go:329-342 | withdraws the rule, keeps the index exact, wakes exactly if the rule was known |
| `Registry.PlanRegistry.Snapshot` | internal/plan/registry.go:351-365 | exactly the targets of the rules, each with the ascending lists of those rules, their selectors and their non-empty redactions |
| `Registry.PlanRegistry.RulesForSink` | internal/plan/registry.go:382-396 | read off the index, exactly the rules with a target on the sink, ascending |
| `Registry.PlanRegistry.TargetCountForRule` | internal/plan/registry.go:408-417 | the number of index targets that list the rule |
| `Interests.BuildIndex` | internal/watch/interest.go:354-377 | each list of a rebuilt index holds exactly the interests with its key, once |
| `Interests.InterestTable.Replace` | internal/watch/interest.go:354-377 | installs the desired set with both indexes exact and returns what vanished |
| `Interests.InterestTable.InterestsFor` | internal/watch/interest.go:386-390 | exactly the interests an informer serves |
| `Interests.InterestTable.LookupIdentity` | internal/watch/interest.go:404-436 | exactly the interests whose scope holds the object, once each, its own namespace first |
| `Interests.InterestTable.InterestsForScope` | internal/watch/interest.go:450-455 | exactly the interests of one scope, with no cluster-wide fallback |
| `Interests.InterestTable.RedactionFor` | internal/watch/manager.go:524-541 | a policy covering exactly what any answering interest's policy covers, or none if no interest answers |
| `Scrubbing.Scrubber.Translate` | internal/watch/manager.go:663-703 | a pass serves exactly the usable targets the rules in force want and at which nothing malformed is asked for, each with the policy asked for there |
| `Scrubbing.Scrubber.Refresh` | internal/watch/manager.go:596-628 | after a pass the table holds exactly that |
| `Scrubbing.Scrubber.Scrub` | internal/pipeline/process.go:433-450 | an object is scrubbed of the built-in path and exactly what the rules in force at the last pass ask for at any served target answering for it; with no such target nothing is written |
| `Scrubbing.AnsweringCovers` | internal/watch/manager.go:524-541 | what the answering interests cover together is what is due at the answering targets |
| `Scrubbing.DueExactly` | internal/controller/redaction.go:40-69 | at a target exactly the last-applied configuration, the annotations and the field paths that its rules in force name are due |
| `Scrubbing.DemandIsScrubbed` | internal/pipeline/redact.go:228-242 | what a rule in force names is never stored: the sentinel is there, or nothing because something above was scrubbed |
| `Scrubbing.UndemandedIsKept` | internal/pipeline/redact.go:228-242 | what no rule in force names, there or above, is stored as it is |
| `Epochs.TellsStart` | internal/watch/scope_recorder.go:222-255 | a Started event for an inactive scope keeps every scope's log alternating and open exactly while active |
| `Epochs.TellsStop` | internal/watch/scope_recorder.go:264-288 | so does a Stopped event for an active one |
| `Epochs.MirrorStop` | internal/watch/manager.go:596-630 | stopping an interest removes its informer from its own scope's targets and nothing else, several API versions of a kind included |
| `Epochs.ScopeRecorder.EnqueueEvent` | internal/watch/scope_recorder.go:370-376 | appends, drops the oldest over the limit and counts them; what is pending is always the youngest part of the log |
| `Epochs.ScopeRecorder.ScopeStarted` | internal/watch/scope_recorder.go:222-255 | enqueues a Started event exactly for a scope's first target |
| `Epochs.ScopeRecorder.ScopeStopped` | internal/watch/scope_recorder.go:264-288 | enqueues a Stopped event exactly for its last target and ignores a target that never started |
| `Epochs.ScopeRecorder.HandOver` | internal/watch/scope_recorder.go:394-445 | as long as nothing was dropped, what sinks accepted is a prefix of what was enqueued |
| `Epochs.ScopeRecorder.Pop` | internal/watch/scope_recorder.go:394-445 | only the accepted head is popped, and then accepted events followed by pending ones are the log |
| `Epochs.ScopeRecorder.Flush` | internal/watch/scope_recorder.go:394-445 | hands over the longest accepted prefix in order and keeps the rest queued |
| `Epochs.Translate` | internal/watch/manager.go:663-696 | exactly the translatable targets become interests, each under its own identity |
| `Epochs.WatchManager.ReconcilePool` | internal/watch/manager.go:596-652 | after every pass each scope's log alternates from Started and is open exactly while an interest of it has a running informer, and everything it adds to the log bears the pass's instant |
| `Normalization.ExtractActors` | internal/pipeline/actors.go:89-131 | the ascending distinct manager names, unnamed ones as unknown, malformed entries skipped |
| `Normalization.ActorsAreManagers` | internal/pipeline/actors.go:89-131 | without the operator's annotation the actors are the managers' names, unnamed ones as unknown, ascending and once each |
| `Normalization.DecodeActors` | internal/pipeline/actors.go:61-69 | the non-empty parts in order |
| `Normalization.ActorsRoundTrip` | internal/pipeline/actors.go:53-69 | non-empty names survive encoding if and only if none holds a comma |
| `Normalization.StripVolatileFields` | internal/pipeline/process.go:158-204 | drops the volatile fields and the operator's annotation, its map too if it was the only one, and nothing else |
| `Normalization.ContentExactly` | internal/pipeline/process.go:158-204 | two objects hash alike, before redaction, if and only if they differ at most in managedFields, resourceVersion, generation and the operator's annotation |
| `Normalization.ServerUpdateIsSkipped` | internal/pipeline/process.go:548-552 | an update confined to those is deduplicated and writes nothing |
| `Normalization.Unstructured.TransformObject` | internal/watch/pool.go:561-587 | in place, exactly the harvested annotation added and the managed fields removed |
| `Normalization.Unstructured.Normalize` | internal/pipeline/process.go:103-139 | the hashed content and the actors, from the annotation if there is one |
| `Normalization.TransformIsIdempotent` | internal/watch/pool.go:561-587 | transforming twice is transforming once |
| `Normalization.ContentCommutes` | internal/watch/pool.go:561-587 | the transformed object has the raw one's hashed content if and only if nothing is harvested or the annotations are absent or a non-empty map of strings |
| `Normalization.ActorsCommute` | internal/pipeline/actors.go:53-131 | it has the raw one's actors if and only if no manager name holds a comma; of an object that brought the operator's key, if and only if nothing was harvested or the key already lists the harvested names |
| `Normalization.TransformIsInvisible` | internal/pipeline/process.go:103-204 | where nothing was harvested, or the annotations are carried over and the names are read back, neither the stored document nor the actors change, under any policy |
| `Normalization.EmptyAnnotationsShow` | internal/watch/pool.go:561-587 | an object with empty annotations whose content differs once transformed |
| `Normalization.CommaShows` | internal/pipeline/actors.go:53-69 | an object whose manager name holds a comma and whose actors differ once transformed |
| `Normalization.RedactedChangeIsSkipped` | internal/pipeline/process.go:97-139 | a change confined to redacted positions is deduplicated and writes nothing |

## Left out

- Replay.PatchCountIsExact: speaks of incarnations still in the watch cache; for the others `EveryPatchCountIsExact` needs clearGc, and `PatchCountExactly` shows that nothing less will do.
- DeleteOnce.AtMostOneDeletedRow: leaves out rows recovered from history, which `Recovery` treats separately.
- DataPlanes.DataPlane.Work: runs an item without interruption; items interleaved with other steps are runs of the machine.
- Pipelines.Pipeline.ReserveAndSubmit: resource version, labels, actors and cluster columns of a record are not carried.
- Recovery.SeedScope: takes the cache key as any injective naming of identities; `CacheKeyIsInjective` supplies it.
- Interests.InterestTable.Replace: the by-sink order of an informer's list and the order of the vanished interests are not modelled.
- Epochs.WatchManager.ReconcilePool: assumes distinct kinds resolve to distinct resources; the order of reports within a pass and the cache eviction of a stopped scope are not part of it.
- SinkManagers.SinkManager.Delete: the eviction of pipeline state after a delete, which is not atomic with a concurrent re-create, is not part of this model.
- Scope stops and evictions inside the protocol machine, and seeding from history as one of its steps.
- Versions wrapping around at 64 bits.
- The gates and retries of the warm coordinator, the recovery of refused reincarnations, and the collector's own loop; its claims are steps of the protocol.
- Probing, backoff, debounce, tickers and drain timeouts: the moment they fire is a nondeterministic step.
- The scope-event worker of the ClickHouse writer, SQL text and schema creation.
- Kubernetes reconcilers, admission, status conditions, metrics and logging.
