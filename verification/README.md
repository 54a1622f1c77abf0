# Verification of the index node

A Dafny model of a crash-tolerant file-indexing node, with proofs. SQLite holds
the truth; a text index and a vector graph are projections that can be rebuilt;
generations, epochs and revisions keep stale work out. What is modelled:

- **Durable queue** (`Catalog`, `Queue`, `QueueInvariant`, `QueueLeases`,
  `QueueRecovery`, `QueueProducers`, `QueueLanding`, `QueueMeaning`, `QueueRuns`,
  `Anchors`, `RowIds`, `Store`). Catalog rows, task rows and dead letters; each write
  transaction is a method of the class `Store`, proved equal to a specification
  function; the invariant and its consequences are proved of those functions over
  every run.
- **Removing a root** (`QueueFence`, `QueueRemoval`, `RemovalCost`, `QueueGaps`).
  The one transaction that allocates without raising the catalog and retires
  without comparing generations: what it promises, and exactly what that costs.
- **Commit path** (`Projection`, `Commit`, `CommitGap`). The writer's batch
  collapses to one native commit; reading generations, committing and recording
  are separate steps between which any catalog transaction or crash may fall.
- **Vector projection** (`VectorTruth`, `VectorProjection`, `VectorIndex`).
  Truth rows, the change log, tombstones, model switches, snapshots and pruning.
- **Breaker and controller** (`Breaker`, `Controller`, `ProbeLoop`). The probe
  protocol and a drain of parked tasks that loses no wake-up, interleaved with
  every store transaction.
- **Watched roots** (`Watch`, `Roots`, `RootsSafety`, `RootsGap`, `Backoff`).
  Dirty generations, root epochs, fencing and the scanner's dispatch.
- **Scheduler** (`Paths`, `Budget`, `Scheduler`, `SchedulerGaps`). Path scopes,
  the two-source claim, the retry budget, and the fate of each claimed task.
- **Debouncer** (`Debounce`) and **hybrid search** (`Search`).

`dafny verify dfyconfig.toml` checks the whole project.

## How to read it

A transaction appears three times: as a specification function in `Queue` or
`QueueRemoval` (named as in the store), as a method of `Store` whose `ensures`
ties the new tables to that function, and in lemmas about the function. `Inv` in
`Catalog` is the invariant every transaction keeps; `AnchoredAt`, that no task of
a path runs ahead of its catalog row, is kept by all but root removals, and so is
`AllAnchored`, the same of every path and of the dead letters. `Kept` is what
the others keep, `KeptAloud` what the commit receipt keeps. A failed transaction
is `RolledBack` and changes nothing; a `Store` method named `...Tx` is one step
inside a transaction. Protocols with several goroutines are state
machines: a `Step` datatype, a guard, a `Next` function, and `Run` predicates
over sequences of states.

Where paths are compared the model takes them as already cleaned and treats the
path key as the path. Integers are unbounded. A task's `log` is its persisted
attempts log without the cap on its length. `limit` is the retry policy's bound
on transient attempts. Credit and the retry ratio are reals without the epsilon.
The nearest-neighbour graph answers exactly; the native text index is a bag of
documents. Environment answers (what a query returned, how a native commit
ended, whether a write succeeded, the clock) are parameters.

## Where the code does not do what one would expect

Each of these is exhibited by a run from an empty store or an idle protocol, next
to the exact condition under which the expected property holds.

- An event can be lost. If a task in flight creates the catalog row behind a newer,
  unanchored pending row, that row can be more than one generation ahead of the
  catalog; the event then commits its bump, and its operation is dropped
  (`QueueLanding.EventLands`, `QueueGaps.EventCanBeDropped`). A child of an
  expanded directory is dropped in the same situation
  (`QueueLanding.ExpansionLands`).
- So removing a root can leave work without a remove behind it: at a path the
  catalog lists, the fence relies on the expansion
  (`QueueRemoval.RemovalFences`, `QueueGaps.RemovalCanMissWork`).
- Removing a root can leave a task ahead of its catalog row
  (`RemovalCost.RemovalAnchorsAt`, `QueueGaps.RemovalCanOutrun`) and can keep only
  the older of two parked rows (`RemovalCost.RemovalForgets`,
  `QueueGaps.RemovalCanForget`).
- A row the catalog shows can lack its document: two tasks of one generation,
  the second a delete, whose receipt is lost after the native commit
  (`Commit.StepCovers`, `CommitGap.AbandonedDeleteIsReachable`). Other files are
  not affected, nor is the order of documents (`Commit.IndexNeverGoesBack`), and the file itself agrees again once an upsert of it is recorded
  (`Commit.RunCovers`, `Commit.RecordKeeps`).
- A claimed task can be neither dispatched nor refunded: a relocate onto a path
  whose retry_wait row has a newer generation; the refund then fails and the
  scheduler's run ends with that error (`SchedulerGaps.RefundRefusedIff`,
  `SchedulerGaps.RefundCanBeRefused`).
- A task row id can be leased for a second path while the first lease's
  completion is still on its way, because `task_id` is not AUTOINCREMENT and a
  coalescing release deletes rows. The second lease takes the first one's entry,
  and the late completion then frees the scope of work still running
  (`SchedulerGaps.RowIdCanBeReused`, `SchedulerGaps.LateCompletionFreesReused`).
  A row that stays in the table is always excluded
  (`SchedulerGaps.RowThatStaysIsExcluded`, `Scheduler.Scheduler.Offer`).
- The scanner reads the roots before it takes its lock. A root added in between
  can be dropped from its queue, and one dirtied in between can be dispatched as
  if clean, until the next periodic scan (`RootsSafety.StepTracksRoot`,
  `RootsSafety.ListedRootIsTracked`, `RootsGap.RootCanBeForgotten`, `RootsGap.DirtiedRootCanBeForgotten`). Fencing
  and the meaning of clean are not affected (`RootsSafety.FencedNeverScans`,
  `RootsSafety.CleanRootWasScanned`).

## Model

| member | source | states |
|---|---|---|
| `Store.Store.Enqueue` | packages/index-node/internal/store/taskqueue.go:78-119 | the transaction inserts a pending row or coalesces into the path's pending row, or rejects an invalid request and changes nothing |
| `Store.Store.AllocateGeneration` | packages/index-node/internal/store/taskqueue.go:129-176 | an event's task is paid for by bumping the catalog row at its (source) path, else the pending row's own file, else it gets one more than any row of its paths |
| `Store.Store.EnqueueEvent` | packages/index-node/internal/store/taskqueue.go:124-184 | generation allocation, catalog bump and enqueue commit together or not at all, and keep the store's invariant |
| `Store.Store.Inspect` | packages/index-node/internal/store/reconcile_enqueue.go:45-92 | a scanner difference is rejected, stale, covered by unfinished work or due, judged on the transaction's own reading |
| `Store.Store.EnqueueReconcile` | packages/index-node/internal/store/reconcile_enqueue.go:45-122 | scanner work is queued with its bump exactly when the observation still holds and nothing unfinished covers it; otherwise nothing changes |
| `Store.Store.SelectFirst` | packages/index-node/internal/store/taskqueue.go:222-232 | ORDER BY ... LIMIT: the first n eligible rows, distinct, in order, and every row left out comes later |
| `Store.Store.Claim` | packages/index-node/internal/store/taskqueue.go:208-257 | a claim takes the first n due pending rows of its source whose path has nothing in flight, charges them and leaves all others alone |
| `Store.Store.ClearOlderStateSlot` | packages/index-node/internal/store/taskqueue.go:711-727 | the target slot is cleared unless a strictly newer row holds it |
| `Store.Store.Prepare` | packages/index-node/internal/store/catalog.go:122-154 | a task's catalog row is written and the task anchored to it, or one of the documented errors leaves both tables alone |
| `Store.Store.WriteFile` | packages/index-node/internal/store/catalog.go:86-187 | an unanchored task upserts by path under the generation fence; an anchored one only rewrites its own row at its own generation |
| `Store.Store.RelocateFile` | packages/index-node/internal/store/catalog.go:461-495 | a row moves only to a free path and only at the expected generation |
| `Store.Store.MarkDone` | packages/index-node/internal/store/taskqueue.go:308-328 | the finished row takes the done slot whatever held it, and resolves only dead letters of strictly older generations |
| `Store.Store.CompleteReceipt` | packages/index-node/internal/store/taskqueue.go:374-406 | one committed line updates its catalog row at its own generation and finishes its task, or fails before any write |
| `Store.Store.CompleteBatch` | packages/index-node/internal/store/taskqueue.go:368-410 | a batch of receipts is applied whole; one failing line undoes the lines before it |
| `Store.Store.FindSuccessor` | packages/index-node/internal/store/supersede.go:22-41 | a strictly newer generation exists in the catalog row or in another row of the path |
| `Store.Store.Retire` | packages/index-node/internal/store/supersede.go:15-59 | an in-flight loser is retired exactly when a strictly newer durable generation exists |
| `Store.Store.MarkRetry` | packages/index-node/internal/store/taskqueue.go:423-470 | a failure logs and charges the execution; a dispatch refund undoes the claim; a newer retry row refuses both |
| `Store.Store.ValidateParking` | packages/index-node/internal/store/taskqueue.go:480-506 | a parking batch is nonempty, positive, duplicate-free and wholly in flight |
| `Store.Store.ClearParkingSlots` | packages/index-node/internal/store/taskqueue.go:507-511 | all waiting slots of the batch are cleared, or a newer occupant stops it |
| `Store.Store.ParkBatch` | packages/index-node/internal/store/taskqueue.go:480-526 | every task of the batch is parked with its charge refunded and its next lease free, or none is |
| `Store.Store.EnsureFailureFile` | packages/index-node/internal/store/taskqueue.go:675-695 | a task that dies before it has a catalog row gets a failed placeholder, never lowering a generation |
| `Store.Store.Bury` | packages/index-node/internal/store/taskqueue.go:647-668 | the dead task is anchored, its letter upserted unless a newer one exists, and its row failed if still current |
| `Store.Store.MarkDead` | packages/index-node/internal/store/taskqueue.go:605-670 | a dying lease always counts, takes the dead slot unless a newer row holds it, and leaves its evidence |
| `Store.Store.HandleFailure` | packages/index-node/internal/pipeline/worker/processor.go:226-260 | a failed lease is retried while it is transient and below the attempt limit and otherwise dies, unless a newer row of its path holds the slot it would take; then nothing changes |
| `Store.Store.Release` | packages/index-node/internal/store/taskqueue.go:565-590 | a parked row becomes pending, or is folded into the pending row of its path, the newer generation winning |
| `Store.Store.ReleaseToPending` | packages/index-node/internal/store/taskqueue.go:536-596 | the first rows in queue order are released; of those released none stays parked |
| `Store.Store.RecoverTask` | packages/index-node/internal/store/store.go:447-548 | a crashed lease is requeued, poisoned at its second crash, or dropped for a newer row of its target slot |
| `Store.Store.RecoverInFlight` | packages/index-node/internal/store/store.go:423-550 | after recovery nothing is in flight, and requeued, poisoned and superseded add up to the rows that were |
| `Store.Store.ExpandDirectory` | packages/index-node/internal/store/directory.go:28-73 | every catalog row strictly below the claimed directory is bumped and queued at its own destination, and the parent finished, in one transaction, or nothing happens |
| `Store.Store.ListChildren` | packages/index-node/internal/store/directory.go:264-316 | the children are exactly the catalog rows strictly below the directory, each once, with the same relative path under the destination |
| `Store.Store.EnqueuePrefixRemovals` | packages/index-node/internal/store/directory.go:78-106 | removing a root expands every catalog row inside it and fences every path inside it that has active rows, in one transaction, or rejects a blank prefix and changes nothing |
| `Store.Store.Gather` | packages/index-node/internal/store/directory.go:128-164 | a path's group holds its newest active generation, whether anything is pending or running, and its parked rows in order of age |
| `Store.Store.FenceGroup` | packages/index-node/internal/store/directory.go:166-192 | a path's parked rows are retired, and work without a catalog row gets a remove above every active generation |
| `Store.Store.Redrive` | packages/index-node/internal/store/deadletter.go:270-424 | each named letter is redriven once, all or none; a missing one or an empty or non-positive list changes nothing |
| `Store.Store.UpgradeModel` | packages/index-node/internal/store/model_upgrade.go:125-212 | the first page of visible images of another model, in id order, is raised, hidden and queued, all or none, and the caller learns whether more are left |
| `Store.Store.Backfill` | packages/index-node/internal/store/media_backfill.go:62-110 | a still-current legacy file is raised and queued in one step |
| `Store.Store.SetModel` | packages/index-node/internal/store/vectors.go:207-227 | a vector write labels its catalog row with the model only at the row's own generation |
| `Store.Store.DropLetter` | packages/index-node/internal/store/deadletter.go:227-247 | retention deletes a dead letter only while it is still the one that was archived |
| `QueueInvariant.EnqueueKeeps` | packages/index-node/internal/store/taskqueue.go:78-119 | queueing paid-for work keeps every invariant, removes no row and lowers no generation |
| `QueueInvariant.EventStrictlyNewer` | packages/index-node/internal/store/taskqueue.go:124-184 | an event's generation is strictly above the pending row it coalesces into exactly when the catalog row that pays for it does not trail that row |
| `QueueInvariant.OwnRowStrictlyNewer` | packages/index-node/internal/store/taskqueue.go:124-184 | while nothing at the path runs ahead of its catalog row, it is whenever the pending row is anchored to the payer |
| `QueueInvariant.ReconcileKeeps` | packages/index-node/internal/store/reconcile_enqueue.go:45-122 | scanner work keeps every invariant |
| `QueueInvariant.ScannerStrictlyNewer` | packages/index-node/internal/store/reconcile_enqueue.go:45-122 | scanner work is always more than one generation above a pending row it coalesces into |
| `QueueInvariant.ClaimKeeps` | packages/index-node/internal/store/taskqueue.go:208-257 | a claim never puts two rows of a path in flight and keeps attempt accounting exact |
| `QueueLeases.PrepareKeeps` | packages/index-node/internal/store/catalog.go:122-187 | prepare keeps every invariant and makes no row visible |
| `QueueLeases.RefundUndoesClaim` | packages/index-node/internal/store/taskqueue.go:419-470 | refunding a claim restores the row exactly but for its state and due time |
| `QueueLeases.CompleteBatchKeeps` | packages/index-node/internal/store/taskqueue.go:368-410 | completing a batch keeps every invariant and drops no unfinished work without an equal or newer row |
| `QueueLeases.ParkKeeps` | packages/index-node/internal/store/taskqueue.go:480-526 | parking keeps every invariant and loses no work |
| `QueueLeases.MarkDeadKeeps` | packages/index-node/internal/store/taskqueue.go:605-670 | a death keeps every invariant and loses no work |
| `QueueLeases.HandleFailureKeeps` | packages/index-node/internal/pipeline/worker/processor.go:226-260 | whatever ends a failed lease keeps the retry bounds |
| `QueueRecovery.ReleaseKeeps` | packages/index-node/internal/store/taskqueue.go:536-596 | releasing any batch keeps one row per slot and loses no work |
| `QueueRecovery.ReleaseUnparks` | packages/index-node/internal/store/taskqueue.go:536-596 | no released row is left parked |
| `QueueRecovery.RecoverKeeps` | packages/index-node/internal/store/store.go:423-550 | crash recovery keeps every invariant, loses no work and counts each row once |
| `QueueRecovery.RecoveryEmptiesFlight` | packages/index-node/internal/store/store.go:423-550 | after recovery no row is in flight and the three counts add up |
| `QueueProducers.ExpandDirectoryKeeps` | packages/index-node/internal/store/directory.go:28-73 | directory expansion keeps every invariant |
| `QueueProducers.RedriveAllKeeps` | packages/index-node/internal/store/deadletter.go:377-424 | redriving keeps every invariant |
| `QueueProducers.UpgradeAllKeeps` | packages/index-node/internal/store/model_upgrade.go:125-212 | a model upgrade keeps every invariant |
| `QueueProducers.BackfillKeeps` | packages/index-node/internal/store/media_backfill.go:62-110 | a backfill keeps every invariant |
| `QueueRuns.PerformKeeps` | packages/index-node/internal/store/taskqueue.go:78-727 | every transaction of the node, root removals included, keeps one row per (path, state), exact attempts and monotone generations, and only receipts make rows visible; it keeps tasks behind their catalog rows, and drops no work without an equal or newer row, exactly unless it is a root removal in one of two named situations |
| `QueueRuns.PerformLosesAt` | packages/index-node/internal/store/taskqueue.go:78-727 | at each path on its own, a transaction drops no work without an equal or newer row exactly unless a root removal forgets work at that path |
| `QueueRuns.PerformAnchorsAt` | packages/index-node/internal/store/taskqueue.go:78-727 | at each path on its own, tasks stay behind their catalog rows exactly unless a root removal outruns an anchor at that path |
| `QueueRuns.RunKeeps` | packages/index-node/internal/store/taskqueue.go:78-727 | the same over every run from an empty database, and generations never decrease between any two moments |
| `QueueRuns.RunAnchorsAt` | packages/index-node/internal/store/taskqueue.go:124-184 | in every run, from any moment at which no task of a path is ahead of its catalog row, none is until a root removal outruns an anchor at that path |
| `QueueRuns.RunAnchors` | packages/index-node/internal/store/taskqueue.go:124-184 | in every run in which no root removal outruns an anchor, no task and no dead letter is ahead of its catalog row |
| `QueueRuns.WorkIsFinishedOrKept` | packages/index-node/internal/store/taskqueue.go:78-727 | in every run whose removals forget nothing at its own path, queued work leaves an equal or newer row of its path in the table until such a row has finished |
| `QueueRuns.AttemptsAreExact` | packages/index-node/internal/store/taskqueue.go:423-526 | in any run a row's attempts are its logged failures and charged crashes, plus its charge while in flight; a live row has fewer failures than the limit and at most one crash |
| `QueueMeaning.CoalescingKeepsNewest` | packages/index-node/internal/store/taskqueue.go:93-110 | whatever order requests arrive in, the newest generation is left |
| `QueueMeaning.CoalescingKeepsUrgency` | packages/index-node/internal/store/taskqueue.go:93-110 | the row ends with the most urgent priority and the earliest due time mentioned, and no more |
| `QueueMeaning.CoalescingResetsBudget` | packages/index-node/internal/store/taskqueue.go:93-110 | the retry budget restarts exactly when some request was newer |
| `QueueMeaning.NewestOperationWins` | packages/index-node/internal/store/taskqueue.go:93-110 | the newest request's operation survives, the latest among equals |
| `QueueLanding.EnqueueLands` | packages/index-node/internal/store/taskqueue.go:78-119 | a request's own operation, source, anchor and generation are what is left pending exactly when no pending row of the path is newer; otherwise the queued work is as before |
| `QueueLanding.EventLands` | packages/index-node/internal/store/taskqueue.go:124-184 | a committed event raises the catalog row that pays for it by one, and its own operation is left pending exactly unless that row trails the pending one by more than one |
| `QueueLanding.OwnRowLands` | packages/index-node/internal/store/taskqueue.go:124-184 | which never happens to work anchored to the payer, while nothing at its path runs ahead of its catalog row |
| `QueueLanding.ReconcileLands` | packages/index-node/internal/store/reconcile_enqueue.go:45-122 | enqueued scanner work is always what is left pending |
| `QueueLanding.ExpansionLands` | packages/index-node/internal/store/directory.go:223-262 | each child's own remove or move is left pending at its destination exactly unless a pending row there is more than one ahead of the child's row |
| `QueueLanding.ExpandAllRaises` | packages/index-node/internal/store/directory.go:318-329 | an expansion raises each child's row by one, hides it, and touches no other catalog row |
| `QueueLanding.DirectoryLands` | packages/index-node/internal/store/directory.go:28-73 | every catalog row below an expanded directory is among the children, with that outcome |
| `QueueLanding.UpgradeLands` | packages/index-node/internal/store/model_upgrade.go:159-212 | an upgraded file keeps status indexed and loses visibility, and its re-embedding is left pending unless newer work is |
| `QueueLanding.RedriveLands` | packages/index-node/internal/store/deadletter.go:377-424 | a redrive trades a current letter for its upsert, left pending unless newer work is, and leaves a superseded letter as it is |
| `QueueGaps.EventCanBeDropped` | packages/index-node/internal/store/taskqueue.go:124-184 | a run of five transactions, after which a remove commits, raises the catalog row and leaves no trace in the queue |
| `QueueMeaning.ReleaseLands` | packages/index-node/internal/store/taskqueue.go:565-590 | a released row's work, accounting included, becomes its path's pending work unless newer work is pending |
| `QueueMeaning.FailureEnds` | packages/index-node/internal/pipeline/worker/processor.go:238-260 | a failed lease moves to its retry or dead slot, counted and logged once, or is refused exactly when a newer row of its path holds that slot |
| `QueueMeaning.DeathLeavesEvidence` | packages/index-node/internal/store/taskqueue.go:605-670 | every dead task has a catalog row and a dead letter at least as new, and a current row is failed |
| `QueueMeaning.EvidenceNeedsSuccess` | packages/index-node/internal/store/taskqueue.go:368-410 | a batch clears a dead letter exactly when it commits a strictly newer, fresh generation of that file |
| `QueueMeaning.RetirementSparesEvidence` | packages/index-node/internal/store/supersede.go:15-59 | retiring a superseded lease changes no dead letter and no catalog row |
| `QueueFence.FenceFences` | packages/index-node/internal/store/directory.go:108-195 | fencing a path leaves a strictly newer remove behind whatever is active there, exactly unless the catalog lists the path and the expansion had not done so |
| `QueueFence.FenceAnchors` | packages/index-node/internal/store/directory.go:173-186 | a fence leaves a task ahead of its catalog row exactly when the pending row it renews is anchored to a row no newer |
| `QueueFence.FenceForgets` | packages/index-node/internal/store/directory.go:166-211 | a fence drops the newest work of a path exactly when two rows of different age are parked, nothing as new stands and no remove follows |
| `QueueRemoval.RemovalFences` | packages/index-node/internal/store/directory.go:78-195 | after a root's removal whatever is active at a path inside it has a strictly newer remove pending behind it, exactly unless the path's catalog row trails that work |
| `QueueRemoval.OwnWorkIsFenced` | packages/index-node/internal/store/directory.go:78-195 | which it does not where all the path's work is anchored to that row and not ahead of it |
| `QueueRemoval.RemovalIsConfined` | packages/index-node/internal/store/directory.go:78-106 | a removal raises and hides exactly the catalog rows inside the root and touches no row at a path outside it |
| `RemovalCost.RemovalKeeps` | packages/index-node/internal/store/directory.go:78-195 | a removal keeps the store's invariant, lowers no generation and makes nothing visible |
| `RemovalCost.RemovalAnchorsAt` | packages/index-node/internal/store/directory.go:173-186 | a removal leaves some task of a path ahead of its catalog row exactly when, the path being inside and unlisted, a pending row there is anchored to a row that even the removal leaves behind the path's work |
| `RemovalCost.RemovalAnchors` | packages/index-node/internal/store/directory.go:173-186 | so the whole store's generation fence, dead letters included, stands exactly when that happens at no path |
| `RemovalCost.RemovalForgets` | packages/index-node/internal/store/directory.go:197-211 | a removal drops unfinished work without an equal or newer row exactly when, at a path inside, two rows of different age are parked and nothing as new stands or is raised |
| `QueueGaps.RemovalCanMissWork` | packages/index-node/internal/store/directory.go:223-262 | a reachable store whose removal leaves a running and a newer pending write without a remove behind them |
| `QueueGaps.RemovalCanOutrun` | packages/index-node/internal/store/directory.go:173-186 | a reachable store whose removal leaves a rename ahead of the row it is anchored to |
| `QueueGaps.RemovalCanForget` | packages/index-node/internal/store/directory.go:197-211 | a reachable store whose removal keeps the older of two parked rows and drops the newer |
| `RowIds.RowKeepsPath` | packages/index-node/internal/store/taskqueue.go:78-727 | a task row keeps its path in every transaction that leaves it in the table, but for a removal, which may drop a finished or parked row inside the root and reuse its id for another path's remove |
| `RowIds.RowKeepsPathInRun` | packages/index-node/internal/store/taskqueue.go:78-727 | so a row id that names another path later left the table, or was displaced by a removal, in between |
| `Projection.Writer.Apply` | packages/index-node/internal/index/tantivy.go:223-268 | one native commit deletes the batch's files and then adds its documents |
| `Projection.Writer.Inspect` | packages/index-node/internal/index/writer.go:324-343 | staleness, receipts and the last fresh request of each file |
| `Projection.Writer.Collapse` | packages/index-node/internal/index/writer.go:344-349 | the mutations applied are exactly each file's last fresh one, in order |
| `Projection.Writer.Flush` | packages/index-node/internal/index/writer.go:308-370 | on every path each request gets exactly one response, and the index is what one-by-one processing gives or what it was |
| `Projection.BatchLeaves` | packages/index-node/internal/index/writer.go:324-355 | a batch leaves each file as its last fresh mutation does and no other file changed |
| `Projection.EachLeaves` | packages/index-node/internal/index/writer.go:308-370 | so does applying every fresh request on its own and ignoring stale ones |
| `Projection.FlushRefinesOneByOne` | packages/index-node/internal/index/writer.go:308-370 | the collapsed commit holds the same documents, as often, as processing one by one |
| `Projection.BatchKeepsOneDocument` | packages/index-node/internal/index/writer.go:308-370 | the index never holds two documents of a file |
| `Projection.ReplayIsHarmless` | packages/index-node/internal/index/tantivy.go:221-222 | applying a batch twice is applying it once |
| `Projection.SameAnswersSameDocuments` | packages/index-node/internal/index/tantivy.go:221-268 | indexes that answer alike for every file hold the same documents |
| `Commit.RecordCommitted` | packages/index-node/internal/pipeline/worker/recorder.go:24-54 | a whole batch of receipts becomes one store transaction |
| `Commit.ApplyKeeps` | packages/index-node/internal/index/writer.go:350-355 | after a native commit a file that agreed lacks its document exactly if the batch deletes it while it is shown and no receipt will come |
| `Commit.BatchFiles` | packages/index-node/internal/store/taskqueue.go:368-410 | a completed batch leaves each row as the last fresh line about it says, at that line's generation |
| `Commit.RecordKeeps` | packages/index-node/internal/index/writer.go:356-366 | a recorded batch leaves in agreement exactly the files that were covered and those it upserts, whatever was lost before; a file its receipt shows is visible with its document |
| `Commit.StepCovers` | packages/index-node/internal/index/writer.go:308-370 | in any interleaving with catalog transactions and crashes a covered file stays covered, whatever becomes of other files, except exactly in a step that commits a delete of it while it is shown and loses the receipt |
| `Commit.StepKeeps` | packages/index-node/internal/index/writer.go:308-370 | so all files stay covered except exactly where some file's delete is abandoned so |
| `Commit.NewestGrows` | packages/index-node/internal/index/writer.go:308-355 | no step applies a document older than one applied before for its file, lost receipts or not |
| `Commit.CoveredAgrees` | packages/index-node/internal/index/writer.go:308-370 | a covered file that is visible has a document of exactly its generation outside the window between its delete's commit and the receipt |
| `Commit.DocumentsBehind` | packages/index-node/internal/store/catalog.go:412-424 | in every run, lost receipts or not, a file has at most one document and it is not ahead of its catalog row |
| `Commit.IndexNeverGoesBack` | packages/index-node/internal/index/writer.go:308-355 | in every run a file's document is never older than a document it had before |
| `Commit.RunCovers` | packages/index-node/internal/index/writer.go:308-370 | in every run a file covered at some moment stays covered, and agrees outside that window, until a delete of that very file is abandoned |
| `Commit.RunCoheres` | packages/index-node/internal/index/writer.go:308-370 | so the whole index agrees with the catalog over every run that abandons no such delete |
| `CommitGap.AbandonedDeleteIsReachable` | packages/index-node/internal/pipeline/worker/processor.go:478-502 | a run with two tasks of one generation, the second a delete, ends with a shown row that has no document |
| `VectorTruth.PackRoundTrip` | packages/index-node/internal/index/vector.go:205-217 | keys in range pack into 64 bits and back, and nothing else packs to them |
| `VectorTruth.QuietRowsStay` | packages/index-node/internal/store/vectors.go:513-568 | a row that no later change touches is what it was |
| `VectorTruth.WritesAdd` | packages/index-node/internal/store/vectors.go:125-146 | inserting rows in turn adds exactly them, the last of a frame winning |
| `VectorTruth.Table.Write` | packages/index-node/internal/store/migrations/0005_vector_changes.sql:20-51 | every row change appends one log entry with the next revision |
| `VectorTruth.Table.RequireContract` | packages/index-node/internal/store/vectors.go:231-294 | the first use of a model fixes its width and every later vector must match |
| `VectorTruth.Table.Replace` | packages/index-node/internal/store/vectors.go:179-229 | a file's rows become exactly the given ones under the generation fence, or nothing changes |
| `VectorTruth.Table.DeleteFor` | packages/index-node/internal/store/vectors.go:431-458 | a file's rows are deleted under the generation fence, or nothing changes |
| `VectorTruth.Table.Prune` | packages/index-node/internal/store/vectors.go:570-584 | exactly the log entries up to a revision go |
| `VectorProjection.ReplayOne` | packages/index-node/internal/index/vector.go:452-487 | one logged change carries graph, tombstones and metadata to the next revision |
| `VectorProjection.AppliedReady` | packages/index-node/internal/index/vector.go:927-949 | metadata read from today's truth is right once the log is replayed |
| `VectorProjection.FullyReplayedAgrees` | packages/index-node/internal/index/vector.go:387-450 | a fully replayed state's searchable set is the truth of its model |
| `VectorProjection.TombstonesAreOutnumbered` | packages/index-node/internal/index/vector.go:672-702 | asking for as many more nodes as there are tombstones finds exactly the nearest live ones |
| `VectorIndex.Index.RebuildModel` | packages/index-node/internal/index/vector.go:319-349 | a rebuild is every truth row of the model at the current revision |
| `VectorIndex.Index.LatestModel` | packages/index-node/internal/store/vectors.go:481-496 | the latest model is that of a row whose file comes first by indexed status, time of indexing and generation |
| `VectorIndex.Index.Rebuild` | packages/index-node/internal/index/vector.go:295-349 | a requested model is rebuilt from all its rows; without one the latest model is, or the index is left empty if no row's file is listed |
| `VectorIndex.Index.ApplyChange` | packages/index-node/internal/index/vector.go:452-487 | a change is applied unless it is of another model or width |
| `VectorIndex.Index.ChangesAfter` | packages/index-node/internal/store/vectors.go:513-568 | the retained entries above a revision, in order |
| `VectorIndex.Index.Visit` | packages/index-node/internal/index/vector.go:402-426 | replay stops at the first revision out of step and otherwise reaches the truth or names the last model switched to |
| `VectorIndex.Index.ReplayChanges` | packages/index-node/internal/index/vector.go:387-450 | an undisturbed replay is refused exactly when revisions are pruned away or run ahead of the table, and otherwise ends in agreement |
| `VectorIndex.Index.LoadSnapshot` | packages/index-node/internal/index/vector.go:863-951 | a snapshot loads ready for replay, or is refused |
| `VectorIndex.Index.Open` | packages/index-node/internal/index/vector.go:219-265 | from no snapshot, a damaged one or any one ever written the searchable set is the truth of the state's model |
| `VectorIndex.Index.ApplyRequest` | packages/index-node/internal/index/vector.go:542-573 | truth changes as asked and the searchable set follows, under the written model even if replay fails |
| `VectorIndex.Index.SnapshotTo` | packages/index-node/internal/index/vector.go:758-861 | a snapshot describes the truth of its revision for ever after, whether or not its prune happens |
| `VectorIndex.Index.Search` | packages/index-node/internal/index/vector.go:640-703 | the hits are exactly the min(topK, live) nearest live vectors with their timestamps |
| `Breaker.StreakIsConsecutive` | packages/index-node/internal/pipeline/embed/breaker.go:270-278 | the counter is that many accepted failures in a row without a success |
| `Breaker.Breaker.Allow` | packages/index-node/internal/pipeline/embed/breaker.go:174-197 | a permit is given while closed, or as the one probe of a half-open epoch, and never before the cooldown ends |
| `Breaker.Breaker.Finish` | packages/index-node/internal/pipeline/embed/breaker.go:257-310 | a permit counts once and only in its own epoch, and the breaker leaves closed only at the configured number of consecutive failures |
| `Breaker.Breaker.HalfOpenIdle` | packages/index-node/internal/pipeline/embed/breaker.go:221-233 | a probe candidate may be released only while no unfinished probe of the epoch exists |
| `Breaker.StaleFinish` | packages/index-node/internal/pipeline/embed/breaker.go:257-266 | finishing a permit of an older epoch disturbs no live permit |
| `Controller.OnlyParkingParks` | packages/index-node/internal/store/taskqueue.go:480-526 | no transaction but parking makes a row wait, root removals included |
| `Controller.StepKeeps` | packages/index-node/internal/pipeline/embed/controller.go:182-215 | every step of every goroutine keeps each waiting row attended while the breaker is closed |
| `Controller.RunStrandsNobody` | packages/index-node/internal/pipeline/embed/controller.go:182-469 | in every interleaving, a waiting row under a closed breaker has a drain due, its parker before its check, or a request on the way |
| `Controller.ClearingHolds` | packages/index-node/internal/pipeline/embed/controller.go:464-467 | a drain may clear its flag because whoever parked since is still on the way |
| `Controller.QuiescentNodeDrains` | packages/index-node/internal/pipeline/embed/controller.go:446-451 | with nobody in between calls a drain can start |
| `Controller.Drain.DrainWaiting` | packages/index-node/internal/pipeline/embed/controller.go:446-469 | an undisturbed drain terminates with no row waiting and the flag cleared |
| `ProbeLoop.Loop.Pass` | packages/index-node/internal/pipeline/embed/controller.go:524-574 | one pass releases at most one waiting row, only while the breaker is half open in the snapshot's epoch with no probe out, and two candidates of one epoch are a dispatch interval apart |
| `ProbeLoop.Loop.ReleaseCandidate` | packages/index-node/internal/pipeline/embed/breaker.go:217-233 | under the breaker's lock one waiting row becomes pending, exactly if the epoch is still half open with no live probe permit and a row waits |
| `Watch.Manager.AddRoot` | packages/index-node/internal/watch/manager.go:143-186 | a root is added dirty with a new epoch exactly when it clashes with no other root, by name or by resolved path, and that is the protocol's step |
| `Watch.Manager.MarkDirty` | packages/index-node/internal/watch/manager.go:493-507 | recording a loss is the protocol's step where it is enabled and nothing elsewhere; it notifies exactly when the root was clean |
| `Watch.Manager.Acknowledge` | packages/index-node/internal/watch/manager.go:519-541 | acknowledging a judged scan is the protocol's step: a root is cleaned only by its own epoch at its current loss count |
| `Watch.Manager.BeginRemove` | packages/index-node/internal/watch/manager.go:223-235 | a removal first stops the root from recording losses, as the protocol's step |
| `Watch.Manager.Forget` | packages/index-node/internal/watch/manager.go:257-261 | a fenced instance is forgotten, and only that instance |
| `Watch.Scanner.QueueLocked` | packages/index-node/internal/reconcile/scanner.go:629-638 | the stronger trigger and the earlier time survive a merge |
| `Watch.Scanner.Mark` | packages/index-node/internal/reconcile/scanner.go:239-254 | queueing a dirty mark is the protocol's step: a fenced instance is not queued |
| `Watch.Scanner.Fence` | packages/index-node/internal/reconcile/scanner.go:263-282 | the locked part of a fence is the protocol's step, and it joins exactly when the fence may not yet return |
| `Watch.Scanner.QueueAll` | packages/index-node/internal/reconcile/scanner.go:358-386 | queueing all listed roots one by one is the protocol's step, passing over fenced instances but at startup |
| `Watch.Scanner.Requeue` | packages/index-node/internal/reconcile/scanner.go:612-638 | a failed or dirtied root goes back into the queue as the protocol's step |
| `Watch.Scanner.PruneBlocked` | packages/index-node/internal/reconcile/scanner.go:435-445 | a tombstone goes exactly when the snapshot no longer lists it and no round holds it |
| `Watch.Scanner.TakeReady` | packages/index-node/internal/reconcile/scanner.go:394-433 | a dispatch from a snapshot is the protocol's step: what is unlisted is dropped, what is not due or not available stays, the rest is dispatched as the snapshot shows it |
| `RootsSafety.StepKeeps` | packages/index-node/internal/reconcile/scanner.go:239-610 | every step of watcher, scanner, notifier and removal keeps the safety invariants |
| `RootsSafety.CleanRootWasScanned` | packages/index-node/internal/watch/manager.go:493-541 | in any run a clean root was scanned without error after its last recorded loss of its current epoch |
| `RootsSafety.FencedNeverScans` | packages/index-node/internal/reconcile/scanner.go:263-291 | once a fence returned, no scan of that epoch is active then or ever after |
| `RootsSafety.StepTracksRoot` | packages/index-node/internal/reconcile/scanner.go:394-433 | every step keeps a dirty unfenced root queued, owed or announced, whatever becomes of other roots, except exactly a dispatch whose snapshot misses this one |
| `RootsSafety.StepTracks` | packages/index-node/internal/reconcile/scanner.go:394-433 | so all of them stay so except exactly where a dispatch misses some root |
| `RootsSafety.ListingTracks` | packages/index-node/internal/reconcile/scanner.go:358-386 | a periodic or startup scan queues every listed root again, forgotten or not |
| `RootsSafety.CurrentSnapshotMissesNothing` | packages/index-node/internal/reconcile/scanner.go:394-399 | a snapshot still equal to the watcher's roots misses nothing |
| `RootsSafety.RunTracksRoot` | packages/index-node/internal/reconcile/scanner.go:394-610 | in every run a root tracked at some moment stays so until a dispatch misses that very root |
| `RootsSafety.ListedRootIsTracked` | packages/index-node/internal/reconcile/scanner.go:358-433 | in every run a root, once forgotten or not, is tracked from the next scan that lists it until a dispatch misses it |
| `RootsSafety.RunTracks` | packages/index-node/internal/reconcile/scanner.go:394-610 | over every run without any miss no dirty root is forgotten |
| `RootsGap.RootCanBeForgotten` | packages/index-node/internal/reconcile/scanner.go:394-412 | a run ends at rest with a dirty root nobody will look at before the next periodic scan |
| `RootsGap.DirtiedRootCanBeForgotten` | packages/index-node/internal/reconcile/scanner.go:394-433 | a run in which a root dirtied after the snapshot is scanned as if it were clean and then stays dirty at rest |
| `Backoff.Delay` | packages/index-node/internal/reconcile/scanner.go:651-663 | the delay is base doubled per failure, capped, without ever exceeding the cap on the way |
| `Backoff.DelaysGrowToTheCap` | packages/index-node/internal/errclass/errclass.go:329-347 | before jitter, delays never shrink as failures mount |
| `Paths.Overlap` | packages/index-node/internal/scheduler/scheduler.go:576-602 | the loops decide overlap |
| `Paths.OverlapIsSharing` | packages/index-node/internal/scheduler/scheduler.go:576-612 | scopes overlap exactly when some path belongs to both |
| `Paths.OverlapIsSymmetric` | packages/index-node/internal/scheduler/scheduler.go:576-602 | overlap is symmetric |
| `Paths.SharedPathNests` | packages/index-node/internal/scheduler/scheduler.go:604-612 | two directories share a path only if one is at or below the other |
| `Budget.Plan` | packages/index-node/internal/scheduler/scheduler.go:202-232 | every prefix of a plan holds exactly the whole part of the credit earned |
| `Budget.PlanFromNothing` | packages/index-node/internal/scheduler/scheduler.go:202-217 | from no credit, n slots hold floor(ratio*n) retries, in every prefix |
| `Budget.RetriesArePaidFor` | packages/index-node/internal/scheduler/scheduler.go:219-232 | over any run credit stays in [0,1] and pays for every budgeted retry |
| `Budget.RetryShareIsBounded` | packages/index-node/internal/scheduler/scheduler.go:186-196 | R*(1-ratio) <= credit + F*ratio |
| `Scheduler.OrderClaimed` | packages/index-node/internal/scheduler/scheduler.go:418-454 | the claimed tasks are merged along the plan |
| `Scheduler.MergeKeepsOrder` | packages/index-node/internal/scheduler/scheduler.go:418-454 | the merge keeps each source's order, loses nothing and repeats nothing |
| `Scheduler.MergeFollowsPlan` | packages/index-node/internal/scheduler/scheduler.go:418-454 | while neither source has run out each slot goes where the plan says |
| `Scheduler.ClaimReady` | packages/index-node/internal/scheduler/scheduler.go:346-391 | never more than the limit, and fewer only when neither source has anything left to claim |
| `Scheduler.ScopeCovers` | packages/index-node/internal/scheduler/scheduler.go:542-557 | a task reserves its paths, or whole directories when it removes or moves something without a catalog row |
| `Scheduler.SamePathExcludes` | packages/index-node/internal/scheduler/scheduler.go:542-574 | two leases of one path always exclude each other |
| `Scheduler.Scheduler.HasConflict` | packages/index-node/internal/scheduler/scheduler.go:567-574 | a conflict is an overlap with some scope in flight |
| `Scheduler.Scheduler.Offer` | packages/index-node/internal/scheduler/scheduler.go:460-492 | a task goes out exactly when it conflicts with nothing in flight, the output accepts it and, for a retry, the budget or idle capacity allows it; it replaces a live entry of its id exactly when that entry no longer meets its scope |
| `Scheduler.Scheduler.RefundRest` | packages/index-node/internal/scheduler/scheduler.go:510-518 | every remaining task is refunded, a refused refund not stopping the rest |
| `Scheduler.Scheduler.DispatchClaimed` | packages/index-node/internal/scheduler/scheduler.go:456-500 | on every exit each task is leased once, durably refunded in full, or left in flight behind a newer retry row, and the scopes in flight stay pairwise disjoint |
| `Scheduler.Scheduler.Round` | packages/index-node/internal/scheduler/scheduler.go:316-331 | of one whole round: the rows claimed, at most the limit and each once, are each leased once, refunded, or left behind a newer retry row |
| `SchedulerGaps.RefundCanBeRefused` | packages/index-node/internal/scheduler/scheduler.go:520-535 | a reachable claimed task conflicts and its refund is refused |
| `SchedulerGaps.RefundRefusedIff` | packages/index-node/internal/store/taskqueue.go:423-470 | a refund is refused exactly when a newer retry row holds the path |
| `SchedulerGaps.RowIdCanBeReused` | packages/index-node/internal/store/taskqueue.go:574-588 | a row id freed by a coalescing release is leased again for another path, replacing the first lease's entry |
| `SchedulerGaps.RowThatStaysIsExcluded` | packages/index-node/internal/scheduler/scheduler.go:474-492 | in every run a row leased again while its entry is still there cannot replace it, unless the row left the table in between |
| `SchedulerGaps.LateCompletionFreesReused` | packages/index-node/internal/scheduler/scheduler.go:338-339 | the first lease's late completion then frees the second lease's scope while its task still runs |
| `Debounce.FoldingIsNetEffect` | packages/index-node/internal/debounce/debounce.go:546-585 | whatever else is added in between, after a possible trace of a path without moves the pending map holds exactly the trace's net effect there |
| `Debounce.MovesCompose` | packages/index-node/internal/debounce/debounce.go:674-684 | a chain of moves leaves one move from the first path to the last |
| `Debounce.MergingNeverHurries` | packages/index-node/internal/debounce/debounce.go:635-691 | a merged change is as late as the later of the two |
| `Debounce.PendingState.Add` | packages/index-node/internal/debounce/debounce.go:546-585 | the map with its heap follows the plain map through every merge |
| `Debounce.PendingState.DiscardStale` | packages/index-node/internal/debounce/debounce.go:624-633 | stale entries go until the root is a pending change's own entry |
| `Debounce.PendingState.Peek` | packages/index-node/internal/debounce/debounce.go:605-615 | the pending change that falls due first, if it is due |
| `Debounce.PendingState.Flush` | packages/index-node/internal/debounce/debounce.go:384-408 | exactly the due changes are persisted, in deadline order, and removed; a failure keeps the rest |
| `Debounce.OneEntryPerPath` | packages/index-node/internal/debounce/debounce.go:587-595 | a live entry carries its change's own deadline and version |
| `Search.Rank` | packages/index-node/internal/index/search.go:540-588 | ranking keeps each eligible file's first hit, in order |
| `Search.RankedIsBest` | packages/index-node/internal/index/search.go:540-588 | the ranked files are exactly the eligible ones found, each once, at their best hit |
| `Search.Fuse` | packages/index-node/internal/index/search.go:665-725 | the fusion is the best topK of every file found, each once, by score, best rank and id |
| `Search.FusionHasNoDuplicates` | packages/index-node/internal/index/search.go:665-725 | no file appears twice |
| `Search.FusionIsUnique` | packages/index-node/internal/index/search.go:705-714 | the order is total, so the answer is determined |
| `Search.Search` | packages/index-node/internal/index/search.go:194-272 | the loop terminates, and a short answer neither incomplete nor degraded is the fusion of everything both routes have |

## Left out

- SQL text, pragmas, migrations, audit outbox, JSON failure histories and timestamps: the tables are maps, `meta` stands for size, time, inode and hash, and history is counted in `Task.log`.
- Generation exhaustion at the largest 64-bit integer: integers are unbounded, so the error that reports it has no counterpart.
- Path cleaning, case folding and the path-key backfill: paths are taken as cleaned.
- CompleteTask, the public UpsertFile, MarkFileDeleted and PutVector: the node does not use them.
- Store.Store.Prepare: always writes status pending, because every caller does.
- Store.Store.EnqueueReconcile: returns the outcome without the covering or queued task.
- Store.Store.HandleFailure: the transient and the dying lease; a stale lease is Store.Store.Retire, and a fatal failure leaves the row in flight and ends the process.
- Store.Store.ListChildren: the children come in any order, where the source lists them by path; the order decides only which new rows get which ids.
- Store.Store.Redrive: letters named by file id; selection by error class or by version mismatch is left out because letters carry neither here.
- Store.Store.DropLetter: the archived letter is recognised by its generation; its update time is not part of this model, so a letter rewritten at one generation counts as unchanged.
- DeleteVectorsByFile, DeleteDeadLetter and the public UpsertDeadLetter: maintenance of a stopped node, outside the runs.
- Commit.StepKeeps: the request channel, timers and admission are left out; a batch is any sequence of requests.
- Projection.Writer.Flush: the catalog rows are read and the receipt transaction runs outside it; validation of malformed mutations is left out because the mutation type cannot express them.
- VectorIndex.Index.LoadSnapshot: file format, checksum and configuration checks are one outcome, a damaged file.
- VectorIndex.Index.LatestModel: among rows whose files rank equally any may be taken, where the source takes the youngest; row ids of vectors are not part of this model.
- VectorIndex.Index.RebuildModel: reading rows and revision is one step because the index is their only writer.
- VectorIndex.Index.Search: query normalisation and cosine scores are left out; distance is any function of the node.
- Vector rows of files whose id does not fit the 48-bit key: keys are pairs in the model, and only packing knows the bound.
- Controller.RunStrandsNobody: permits taken through the raw breaker and finished without the controller are excluded, as the controller's own documentation excludes them.
- Roots.Next: the watch manager is taken as already running, and each round's work covers one root because the manager forbids overlapping roots; scan contents (what a walk enqueues), startup readiness and failure counters are left out. A root is unavailable exactly while it is being removed: the node's provider hands out pending and degraded roots as available (packages/index-node/internal/lifecycle/lifecycle.go:299-302), although the scanner's comment at packages/index-node/internal/reconcile/scanner.go:388-391 suggests otherwise.
- Backoff.DelaysGrowToTheCap: the retry policy multiplies by a random jitter in [0.8, 1.2], which is left out; with it a later delay can be the shorter.
- Scheduler.ClaimReady: store failures in the middle of a round are left out; the store works.
- Debounce.PendingState.First: the binary heap of the standard library is a set from which the least entry is taken.
- Debounce.FoldingIsNetEffect: holds while no move is pending or added; move folding is a hint that scanning backs up, and no meaning is claimed for it beyond chains of moves.
- FlushPrefix, directory classification and the enqueue that follows a flush: the flushed changes are the debouncer's result here.
- Search.Search: backend errors, response validation, query embedding and snippets' truncation are left out; each backend is one ranked list of which it returns the first n.
- gRPC transport, batching of embeddings, metrics, configuration, the terminal interface, audit retention and note handling: outside this model.
