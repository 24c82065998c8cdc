# A verified model of the in-memory LangGraph runtime

The in-memory runtime keeps everything a LangGraph server would keep in a database: checkpoints,
threads, runs, crons, stored items and the events of a deployment. These modules model the parts of
it that hold state and prove what they are for.

| modules | what they model |
|---|---|
| `CheckpointModel`, `CheckpointPruning`, `PruneInvisible`, `RunDeletion`, `CheckpointSizes`, `CheckpointSaver` | the checkpoint saver: three maps, `keep_latest` pruning along parent chains, and the incremental size tally |
| `RuntimeState`, `ThreadTtl`, `ThreadSweeps`, `SweepEffects`, `ThreadTtlHistory`, `PolicyHistory` | thread deletion and the thread TTL sweep |
| `Dispatch`, `RunLifecycle`, `DispatchRuns`, `DispatchProgress`, `DispatchEffects`, `RunOutcomes`, `RunEffects`, `RunHistories` | the run queue: dispatch, cancellation, deletion, completion |
| `Connection` | the store of lists over which both work, as the class that is changed in place |
| `SizeTracking`, `ItemStore`, `ItemStoreHistory` | the item store with per-item TTL |
| `DeployEvents` | the bounded event buffer of a deployment and its resumable stream |
| `WorkerSlots` | the worker pool of the queue loop |
| `AuthFilters` | the evaluator of authorisation filters |
| `Basics.dfy` (`Wrappers`, `Lex`, `Decimals`, `MapSums`) | options, the order of ids, decimal numbers, sums over maps |

Each class method is proved equal to a function of the old state, and each method of
`Connection.Store` to one event of the histories of `DispatchRuns`; the theorems are about those
functions and histories. What a function does is stated once more from the rows alone, without naming
it, in `SweepEffects`, `DispatchEffects` and `RunEffects`.

## How the source is read

- **Ids.** Thread and checkpoint ids are strings ordered by their characters, which stand for UTF-8
  bytes. A checkpoint's parent is older than itself; this is the basis on which pruning takes the
  greatest id for the newest checkpoint, and it is what makes the parent walk end. It is a type
  invariant of a namespace (`Space`) and a condition on `put`.
- **Payloads** are opaque values with a type tag and a length; sizes are the source's formulas over
  those lengths. What a channel reconstructs to is taken as the list of ancestors walked, with the
  write group of each, down to the nearest snapshot: equal lists rebuild equal values whatever the
  channel's reducer is.
- **Storage keys.** The two outer levels of `storage` are one key (thread, namespace); a thread with
  no namespaces and an absent thread are the same. Item-store namespaces are flattened the same way.
- **The library's saver** is not part of this repository. `put` is taken to write one entry and one
  blob per new version, tagged `"empty"` if the channel has no value; `put_writes` to change only the
  group it is called for, in any way (`merge`); `delete_thread` to remove the thread's rows.
- **Atomic steps.** A coroutine runs as one step of the event loop and no authorisation handler is
  configured. Clocks, configuration and generated ids are parameters. A generated thread id is
  unused, and so is the target of a copy.
- **The sweep** is the form that is given `stats`, as the sweeping loop calls it.
- **Copying a thread** replaces its id inside payloads by one of the same length (both are UUIDs), so
  a copy is modelled as the same rows under the new id.

Where the documentation and the code differ, the code is followed. Some properties one might expect
hold only under a condition:

- *Pruning is invisible to a run that continues* if and only if every `put` is foreseen when it comes
  (`InvisibleIffForeseen`): each channel of the new checkpoint brings its snapshot along or finds it
  still stored or, without one, walks from the old head over checkpoints that are still there. A run
  is safe beforehand if each channel of a new checkpoint is a new version or keeps its parent's, if
  a channel without a value was already carried by the parent, and if no `put` overwrites a snapshot
  by an empty value under the same version (`PruningIsInvisible`). Each of the three is needed:
  `SupersededVersionIsVisible`, `UncarriedChannelIsVisible` and `ReusedVersionIsVisible` are stores
  where the head reconstructs differently without it.
- *Deleting the checkpoints of a run after a prune* lets the prune show only if that run wrote a head:
  then the store without the prune falls back to a checkpoint which the prune may have dropped.
  `PruneThenDeleteRun` says exactly when.
- *Two prunes of one thread are a full TTL apart* unless its TTL record is wiped in the very instant
  of the update that was pruned for, by setting a policy or by creating the thread anew (`Rearms`).
  `StepForgetsIffRearms` shows that nothing else makes a thread forget a prune,
  `ForgottenIffPrunable` that a forgotten prune is one a sweep can repeat, and
  `RearmedIffPrunedAgain` that an event which leaves its thread with a keep-latest policy lets the
  prunes of a run overlap if and only if it re-arms one. `PolicyResetSameInstant` is an example.
- *A filter check that comes to a verdict*, whichever, means that the filter is valid unless `$or` and
  `$and` stand side by side in it; `VerdictIsValidIff` says exactly what they need then.
  `VerdictWithoutValidity` and `PassedWithoutValidity` are filters that are rejected and passed
  without being valid.
- *A cancellation stops all it selects*, for runs that share an id and a thread, if and only if those
  to be rolled back come first (`CancelStopsIff`). The source does not check that a new run's id is
  unused; where it is, ids stay unique and this always holds (`AlwaysUniqueIds`).

## Model

| member | source | states |
|---|---|---|
| `CheckpointPruning.PruneKeepsReconstruction` | src/langgraph_runtime_inmem/checkpoint.py:413-523 | After one `keep_latest` prune every namespace has the same newest checkpoint, with the same entry, pending writes and blobs, and every channel of it rebuilds from the same ancestors, writes and snapshot. |
| `CheckpointPruning.WalkSurvivesIffKept` | src/langgraph_runtime_inmem/checkpoint.py:455-523 | For every start and channel the parent walk is the same after the prune if and only if all its checkpoints are kept. |
| `CheckpointPruning.WalksAgreeIff` | src/langgraph_runtime_inmem/checkpoint.py:471-488 | In a part of a store, whose checkpoints each have their writes and named blobs, a walk is the same if and only if the part holds every checkpoint on it. |
| `CheckpointPruning.KeptIsLeast` | src/langgraph_runtime_inmem/checkpoint.py:446-500 | Nothing kept is unneeded: any set of checkpoints with the newest one, from which its channels rebuild as before, contains every kept id. |
| `CheckpointPruning.KeptCheckpointRows` | src/langgraph_runtime_inmem/checkpoint.py:502-523 | A kept checkpoint keeps its entry, its write group and every blob it names. |
| `CheckpointPruning.SurvivorsBelongToKept` | src/langgraph_runtime_inmem/checkpoint.py:502-523 | Every surviving write group and blob belongs to a surviving checkpoint and is unchanged; no namespace is left empty. |
| `CheckpointPruning.PruneIdempotent` | src/langgraph_runtime_inmem/checkpoint.py:430-523 | Pruning twice is pruning once, on all three maps. |
| `CheckpointPruning.PruneAllRows` | src/langgraph_runtime_inmem/checkpoint.py:430-433 | A prune of a list of threads prunes each listed thread as if once and alone, repeats included, and touches no other thread. |
| `CheckpointPruning.DeleteAllRows` | src/langgraph_runtime_inmem/checkpoint.py:420-423 | The deleting strategies leave the listed threads with no rows in any map, and all others as they were. |
| `CheckpointModel.RankDecreases` | src/langgraph_runtime_inmem/checkpoint.py:446-448 | The parent walk ends: the number of checkpoints no newer than the current one falls at every step. |
| `Lex.LessMeans` | src/langgraph_runtime_inmem/checkpoint.py:446-448 | Ids compare at the first place where they differ, and a beginning comes before its continuations. |
| `CheckpointModel.ViewsCommute` | src/langgraph_runtime_inmem/checkpoint.py:430-529 | Operations on the rows of two different threads commute. |
| `PruneInvisible.PruningIsInvisible` | src/langgraph_runtime_inmem/checkpoint.py:286-523 | Over every run of head-extending puts, writes, thread deletions and deletions of other runs than the heads', with prunes at arbitrary points, every namespace has the head, pending writes and channel reconstructions of the run without prunes. |
| `PruneInvisible.InvisibleIffForeseen` | src/langgraph_runtime_inmem/checkpoint.py:286-523 | Over every run whose puts are on top of their heads, with prunes at arbitrary points, nothing ever shows if and only if every put is foreseen in the stores it meets. |
| `PruneInvisible.PutOnPart` | src/langgraph_runtime_inmem/checkpoint.py:286-352 | Whatever prunes went before, a put on a shared head is the new head either way, with no pending writes, and each channel reconstructs alike if and only if it was foreseen. |
| `PruneInvisible.EventHiddenIff` | src/langgraph_runtime_inmem/checkpoint.py:286-523 | One event leaves all heads alike if and only if it is foreseen; then the pruned store still holds part of the other. |
| `PruneInvisible.PartAfterPut` | src/langgraph_runtime_inmem/checkpoint.py:286-352 | After a foreseen put every checkpoint in the pruned store still has its writes and all materialised blobs it names. |
| `PruneInvisible.PruneThenPut` | src/langgraph_runtime_inmem/checkpoint.py:286-523 | For any put on top of the head after a prune: it is the head either way; each of its channels reconstructs as without the prune if and only if a snapshot comes with the put or is among the kept blobs or, failing a snapshot, the walk from the old head meets kept checkpoints only; its pending writes are the same if and only if none preceded it. |
| `PruneInvisible.HeadExtendingIsForeseen` | src/langgraph_runtime_inmem/checkpoint.py:286-352 | The puts of a continuing run meet the exact condition on every channel, after any prunes. |
| `PruneInvisible.ReusedVersionIsVisible` | src/langgraph_runtime_inmem/checkpoint.py:286-352 | A concrete store where emptying an existing version after a prune makes the new head reconstruct differently. |
| `PruneInvisible.UncarriedChannelIsVisible` | src/langgraph_runtime_inmem/checkpoint.py:471-488 | A concrete store where a channel its parent did not carry comes back without a value, and the new head reconstructs differently after the prune. |
| `PruneInvisible.SupersededVersionIsVisible` | src/langgraph_runtime_inmem/checkpoint.py:516-523 | A concrete store where a put goes back to an older version of a channel, whose blob the prune has dropped, and the new head reconstructs differently. |
| `RunDeletion.PruneThenDeleteRun` | src/langgraph_runtime_inmem/ops.py:4098-4141 | After a prune and the deletion of a run the heads agree if and only if the prune kept the newest checkpoint of the other runs, and then each channel reconstructs alike if and only if it kept the ancestors of other runs walked. |
| `RunDeletion.OtherRunsDeletedInvisibly` | src/langgraph_runtime_inmem/ops.py:4098-4141 | Deleting any run but the head's own never lets a prune show. |
| `CheckpointPruning.EmptiedNamespaceGoes` | src/langgraph_runtime_inmem/ops.py:4098-4141 | Deleting a run's checkpoints drops exactly the namespaces it empties. |
| `CheckpointSaver.InMemorySaver.constructor` | src/langgraph_runtime_inmem/checkpoint.py:175-229 | Loading persisted maps leaves the tally equal to their measure. |
| `CheckpointSaver.InMemorySaver.RebuildSizeTracking` | src/langgraph_runtime_inmem/checkpoint.py:246-264 | The full recomputation reaches the right tally from any state; on a store whose tally is right it changes nothing. |
| `CheckpointSaver.InMemorySaver.Put` | src/langgraph_runtime_inmem/checkpoint.py:286-352 | Adds the entry and the new versions' blobs to the thread, nothing else, and keeps the tally equal to a recomputation, also when entries or blobs are overwritten. |
| `CheckpointSaver.InMemorySaver.PutWrites` | src/langgraph_runtime_inmem/checkpoint.py:354-378 | Changes one write group, however the library merges it, and keeps the tally right. |
| `CheckpointSaver.InMemorySaver.DeleteThread` | src/langgraph_runtime_inmem/checkpoint.py:401-403 | Removes the thread's rows from all three maps and its record from the tally, and keeps the tally right. |
| `CheckpointSaver.InMemorySaver.Clear` | src/langgraph_runtime_inmem/checkpoint.py:391-399 | Leaves nothing stored and an empty tally. |
| `CheckpointSaver.InMemorySaver.FindKept` | src/langgraph_runtime_inmem/checkpoint.py:446-488 | The one walk for all channels together, which drops each channel at its nearest snapshot, keeps exactly the newest checkpoint and what the separate walks of its unmaterialised channels visit. |
| `CheckpointSaver.InMemorySaver.StillNeeded` | src/langgraph_runtime_inmem/checkpoint.py:455-488 | Which of the open channels have no snapshot at this checkpoint: blob missing or tagged "empty". |
| `CheckpointSaver.InMemorySaver.DropCheckpoints` | src/langgraph_runtime_inmem/checkpoint.py:490-500 | Cuts the namespace to the kept ids and counts exactly the bytes and entries lost. |
| `CheckpointSaver.InMemorySaver.PruneSpace` | src/langgraph_runtime_inmem/checkpoint.py:441-508 | One namespace: its entries are cut to the kept ids, the write and blob keys collected are exactly those of kept checkpoints, and the sizes returned are what was removed. |
| `CheckpointSaver.InMemorySaver.PruneWrites` | src/langgraph_runtime_inmem/checkpoint.py:510-514 | Exactly the thread's write groups of kept checkpoints remain; other threads keep theirs; the size returned is what was removed. |
| `CheckpointSaver.InMemorySaver.PruneBlobs` | src/langgraph_runtime_inmem/checkpoint.py:516-523 | Exactly the thread's blobs named by kept checkpoints remain; other threads keep theirs; the size returned is what was removed. |
| `CheckpointSaver.InMemorySaver.PruneThread` | src/langgraph_runtime_inmem/checkpoint.py:430-529 | The loops over the three maps leave the thread's rows as the specification of `keep_latest` says and the tally right. |
| `CheckpointSaver.InMemorySaver.Prune` | src/langgraph_runtime_inmem/checkpoint.py:405-529 | `"keep_latest"` prunes, `"delete"` and `"delete_all"` delete, any other strategy is refused and changes nothing; the tally stays right. |
| `CheckpointSaver.InMemorySaver.DiscardCheckpoint` | src/langgraph_runtime_inmem/checkpoint.py:274-284 | Removing one checkpoint and its size, and the namespace if it was the last, keeps the tally right. |
| `CheckpointSaver.InMemorySaver.DeleteRun` | src/langgraph_runtime_inmem/ops.py:4098-4141 | Deleting a run's checkpoints removes exactly the entries whose metadata names the run, and namespaces it empties; writes and blobs stay; the tally stays right. |
| `CheckpointSaver.InMemorySaver.CopyThread` | src/langgraph_runtime_inmem/ops.py:1590-1643 | A fresh thread gets the source's rows in all three maps, and copying the source's record keeps the tally right. |
| `CheckpointSaver.CheckpointSizeState.Adjust` | src/langgraph_runtime_inmem/checkpoint.py:132-147 | Replaces one thread's record by the clamped sum, drops an empty record, and moves the totals by the difference. |
| `CheckpointSaver.CheckpointSizeState.RemoveThread` | src/langgraph_runtime_inmem/checkpoint.py:149-154 | Drops the record, returns its bytes and takes it off the totals. |
| `CheckpointSaver.CheckpointSizeState.CopyThread` | src/langgraph_runtime_inmem/checkpoint.py:156-165 | The target's record becomes the source's, with the totals moved by the difference. |
| `CheckpointSaver.WriteGroupSize` | src/langgraph_runtime_inmem/checkpoint.py:81-92 | The accumulating loop computes the sum over the group's writes. |
| `CheckpointSaver.FindLatest` | src/langgraph_runtime_inmem/checkpoint.py:446-448 | Finds the checkpoint that no other exceeds. |
| `CheckpointSizes.AdjustTracks` | src/langgraph_runtime_inmem/checkpoint.py:132-147 | If a thread's rows change by some bytes and entries, moving its record by those keeps the tally right, and the record is never clamped at zero. |
| `CheckpointSizes.TallyUnique` | src/langgraph_runtime_inmem/checkpoint.py:246-264 | A store has one correct tally, so incremental and recomputed tallies are equal. |
| `CheckpointSizes.PutSizes` | src/langgraph_runtime_inmem/checkpoint.py:300-352 | The bytes and entries a put adds, overwritten entries and blobs taken off once. |
| `CheckpointSizes.WithRecordConsistent` | src/langgraph_runtime_inmem/checkpoint.py:138-147 | Replacing one record keeps the totals the sums of the records, and no empty record is left. |
| `CheckpointSizes.RowsAreMeasured` | src/langgraph_runtime_inmem/checkpoint.py:53-102 | Each row counts every string stored with it once: its size is the length of all of them written one after the other. |
| `CheckpointSizes.GroupIsMeasured` | src/langgraph_runtime_inmem/checkpoint.py:81-92 | A write group counts its checkpoint's id once and each write once. |
| `CheckpointSizes.DecimalLengthIs` | src/langgraph_runtime_inmem/checkpoint.py:53-61 | A number counts the characters of its decimal form. |
| `ThreadTtl.CandidateIffShownExpired` | src/langgraph_runtime_inmem/ops.py:1704-1723 | The sweep selects a thread exactly when it has no active run and the expiry shown for it, under its own policy or else the global one, is there and not after now. |
| `SweepEffects.OwnPolicyDecides` | src/langgraph_runtime_inmem/ops.py:120-132 | Whatever the global policy, a thread with its own policy is left alone by a sweep unless it has no pending or running run, a full TTL has passed since its update and, under keep-latest, no marker covers that update; then it is gone with all its rows, or pruned and marked. |
| `SweepEffects.GlobalPolicyDecides` | src/langgraph_runtime_inmem/ops.py:120-132 | A thread without a policy of its own follows the global one in the same way, also when only a marker is stored for it. |
| `SweepEffects.NoPolicyNeverSwept` | src/langgraph_runtime_inmem/ops.py:1704-1712 | With neither policy a thread is never touched. |
| `SweepEffects.DueInOrder` | src/langgraph_runtime_inmem/ops.py:1718-1725 | Threads are taken by last update plus TTL, and then by id. |
| `SweepEffects.LimitTakes` | src/langgraph_runtime_inmem/ops.py:1673-1692 | A sweep takes the first threads up to its own limit, or else the configured one, or else all; a limit below one takes none. |
| `ThreadTtl.DueListMembers` | src/langgraph_runtime_inmem/ops.py:1698-1727 | The work list holds exactly the eligible threads, each once, by expiry and then id. |
| `ThreadTtl.PrunesAndDeletesCommute` | src/langgraph_runtime_inmem/ops.py:1741-1771 | Pruning one thread and deleting another commute. |
| `ThreadTtl.BatchIsSequential` | src/langgraph_runtime_inmem/ops.py:1741-1771 | Pruning a whole batch first and then deleting or marking one by one equals handling its threads one at a time. |
| `ThreadTtl.BatchedIsSequential` | src/langgraph_runtime_inmem/ops.py:1741-1771 | For every batch size the sweep ends in the state and with the counts of handling the selected threads one at a time in order. |
| `ThreadTtl.SweepOutcome` | src/langgraph_runtime_inmem/ops.py:1741-1771 | Delete-threads lose row, runs, crons, TTL record and all checkpoint rows; keep-latest threads are pruned and marked; nothing else changes; both counts are exact. |
| `ThreadSweeps.SweepResult` | src/langgraph_runtime_inmem/ops.py:1725-1771 | The outcome and the counts of a sweep of the first `limit` due threads. |
| `ThreadSweeps.DueAfterSweep` | src/langgraph_runtime_inmem/ops.py:1704-1771 | What is due after a sweep is what the sweep left of the due list, in the same order: nobody handled is due again. |
| `ThreadSweeps.SweepsDrain` | src/langgraph_runtime_inmem/ops.py:1704-1771 | `k` sweeps with limit `L` at one instant handle the first `k * L` due threads in order, each once, and leave the rest due. |
| `ThreadSweeps.DrainedSweepIsIdle` | src/langgraph_runtime_inmem/ops.py:1704-1771 | Once `k * L` reaches the number due, all were handled, and a further sweep returns (0, 0) and changes nothing. |
| `ThreadSweeps.ActiveThreadsProtected` | src/langgraph_runtime_inmem/ops.py:1698-1707 | A thread with a pending or running run keeps its row, runs, crons, TTL record and every checkpoint row. |
| `ThreadSweeps.SweepKeepsReconstruction` | src/langgraph_runtime_inmem/ops.py:1746-1760 | No sweep changes what the heads of a surviving thread rebuild from. |
| `ThreadSweeps.SweepAccounts` | src/langgraph_runtime_inmem/ops.py:1773-1799 | Conservation: what the swept threads lost, summed thread by thread, is what the totals lost, and no thread grew. |
| `ThreadSweeps.TakeOverTotals` | src/langgraph_runtime_inmem/ops.py:1773-1799 | Moving the listed threads' records one by one moves the totals by the sum of their differences. |
| `ThreadSweeps.PruneShrinksSizes` | src/langgraph_runtime_inmem/checkpoint.py:490-529 | A prune never increases a thread's bytes or checkpoints. |
| `ThreadTtlHistory.PrunesAreSeparated` | src/langgraph_runtime_inmem/ops.py:1704-1771 | Over every history with a clock that does not run back in which no event re-arms a prune, two keep-latest prunes of one thread have an update between them, and the second comes a full TTL after it. |
| `ThreadTtlHistory.StepForgetsIffRearms` | src/langgraph_runtime_inmem/ops.py:1106-1214 | An event makes a thread forget a prune if and only if, in the instant of the update pruned for, it sets a policy for the thread or creates it anew with no marker left. |
| `ThreadTtlHistory.ForgottenIffPrunable` | src/langgraph_runtime_inmem/ops.py:1704-1723 | An inactive keep-latest thread whose TTL has run out is pruned again for the same update if and only if that prune was forgotten. |
| `ThreadTtlHistory.RearmedIffPrunedAgain` | src/langgraph_runtime_inmem/ops.py:135-169 | After a history without re-arming, an event that leaves its thread with a keep-latest policy can be followed by an overlapping prune if and only if it re-arms one. |
| `ThreadTtlHistory.UnlimitedSweepHandles` | src/langgraph_runtime_inmem/ops.py:1704-1727 | Without a limit a sweep handles a thread if and only if it is inactive and its shown expiry has come. |
| `PolicyHistory.PolicyIsLastGiven` | src/langgraph_runtime_inmem/ops.py:135-146 | Over every history the policy on a thread's record is the one last given to it by creating or patching it, and lost only with the thread. |
| `PolicyHistory.UpdatedAtIsLastUpdate` | src/langgraph_runtime_inmem/ops.py:1106-1214 | Over every history a thread's `updated_at` is the time of its creation, last patch or last activity. |
| `PolicyHistory.LastGivenPolicyDecides` | src/langgraph_runtime_inmem/ops.py:120-146 | After every history a sweep goes by the policy last given to the thread, and by the global one only without it. |
| `ThreadTtlHistory.PolicyResetSameInstant` | src/langgraph_runtime_inmem/ops.py:135-146 | A concrete history where a policy set at the instant of a prune makes the same update be pruned twice. |
| `Connection.Store.SweepTtl` | src/langgraph_runtime_inmem/ops.py:1651-1799 | The sweep's method: the final state and both counts of handling the taken threads one at a time, and reported freed bytes and entries equal to the totals before minus after. |
| `Connection.Store.SweepBatch` | src/langgraph_runtime_inmem/ops.py:1743-1771 | One batch: one prune of its keep-latest threads, then each thread deleted or marked. |
| `Connection.Store.CollectExpired` | src/langgraph_runtime_inmem/ops.py:1694-1727 | Selection, sort and limit. |
| `Connection.Store.SweepExpired` | src/langgraph_runtime_inmem/ops.py:1741-1771 | The loop over batches of the given size. |
| `Connection.Store.Freed` | src/langgraph_runtime_inmem/ops.py:1773-1797 | The per-thread sums that the statistics report. |
| `Connection.Store.DeleteThread` | src/langgraph_runtime_inmem/ops.py:1396-1455 | The thread goes with its runs, crons, TTL record and checkpoint rows, and only it; an unknown thread changes nothing. |
| `Connection.Store.PutThread` | src/langgraph_runtime_inmem/ops.py:1106-1176 | Adds an idle thread with the policy given, or leaves an existing one alone. |
| `Connection.Store.CopyThread` | src/langgraph_runtime_inmem/ops.py:1546-1648 | The new thread takes the source's TTL override, not its sweep marker, and its checkpoint rows. |
| `Connection.CopyIsFaithful` | src/langgraph_runtime_inmem/ops.py:1546-1648 | A copy is a new idle thread, updated now, with the rows and policy of the source, and leaves all else alone. |
| `Connection.Store.NextRuns` | src/langgraph_runtime_inmem/ops.py:2613-2668 | The method starts runs in place as the dispatcher's specification says. |
| `Connection.Store.PutRun` | src/langgraph_runtime_inmem/ops.py:2734-2954 | Puts a pending run in place with the outcome that `RunOutcomes.PutRunOutcome` characterises. |
| `Connection.Store.DeleteRun` | src/langgraph_runtime_inmem/ops.py:2991-3025 | The run and its checkpoints go; "not found" is told exactly when there is no such run, after the checkpoints are gone. |
| `Connection.Store.CancelRuns` | src/langgraph_runtime_inmem/ops.py:3028-3204 | Cancellation as specified, and "nothing to cancel" told exactly when no selected run is active. |
| `Connection.Store.InterruptRuns` | src/langgraph_runtime_inmem/ops.py:3145-3184 | The first pass: what it interrupts, which threads it sets idle, and which runs it leaves for deletion. |
| `Connection.Store.SetJointStatus` | src/langgraph_runtime_inmem/ops.py:1298-1393 | The joint update of a run and its thread, including roll-back, or "not found" and no change. |
| `Dispatch.DueOrderSorted` | src/langgraph_runtime_inmem/ops.py:2623-2630 | The eligible runs, each once, by creation time and stable. |
| `Dispatch.NextStartsExactly` | src/langgraph_runtime_inmem/ops.py:2623-2668 | The runs started are exactly the first of their thread within the first `limit` due runs whose thread exists and had nothing running; no other run changes. |
| `DispatchEffects.StartsIff` | src/langgraph_runtime_inmem/ops.py:2623-2668 | A call starts a run if and only if it is pending and was created before now, fewer than `limit` such runs come before it by creation and then position, none of them on its thread, and its thread exists and has nothing running; all other runs stay. |
| `DispatchEffects.SomeRunStarts` | src/langgraph_runtime_inmem/ops.py:2623-2668 | With nothing running, every thread in place and a run pending since before now, some run starts. |
| `DispatchProgress.StartedIsEarliest` | src/langgraph_runtime_inmem/ops.py:2624-2668 | Every run handed out was pending with a creation time before now, and is the earliest due run of its thread. |
| `DispatchProgress.YieldsAtMostLimit` | src/langgraph_runtime_inmem/ops.py:2637-2668 | A call never hands out more runs than its limit. |
| `DispatchProgress.AttemptsAreConsecutive` | src/langgraph_runtime_inmem/ops.py:2656-2668 | Over every history the attempts handed out for a run are 1, 2, 3, ... in dispatch order. |
| `DispatchProgress.LogCounted` | src/langgraph_runtime_inmem/database.py:119-122 | The counter of a run is the number of times it was handed out, through every other operation. |
| `DispatchProgress.NextStartsEarliest` | src/langgraph_runtime_inmem/ops.py:2624-2668 | With nothing running and every thread in place a call starts the earliest due run of all. |
| `DispatchProgress.RoundsDrain` | src/langgraph_runtime_inmem/ops.py:2624-2668 | Alternating dispatch and completion drains n due runs in at most n rounds, whatever the limits and outcomes. |
| `DispatchProgress.RoundMakesProgress` | src/langgraph_runtime_inmem/ops.py:2624-2668 | Each round takes at least one due run off and keeps references intact. |
| `DispatchRuns.AlwaysConsistent` | src/langgraph_runtime_inmem/ops.py:2613-3265 | Over every history of puts, dispatches, cancellations, thread creations, patches, copies and deletions, status updates, crons added and removed, and sweeps no thread has two running runs, every run and bound cron has its thread, and thread ids stay unique. |
| `DispatchRuns.StepKeepsConsistent` | src/langgraph_runtime_inmem/ops.py:2613-3204 | Each operation keeps that invariant. |
| `DispatchRuns.AddThreadKeepsConsistent` | src/langgraph_runtime_inmem/ops.py:1106-1176 | A thread created or copied leaves all runs, crons and ids in order. |
| `DispatchRuns.FewerCronsConsistent` | src/langgraph_runtime_inmem/ops.py:3827-3840 | Removing crons keeps all references. |
| `DispatchRuns.ThreadsInPlaceConsistent` | src/langgraph_runtime_inmem/ops.py:1179-1296 | Patching a thread or setting its status keeps all references. |
| `DispatchRuns.ExclusiveMeaning` | src/langgraph_runtime_inmem/ops.py:2637-2668 | Two runs that are running are on different threads. |
| `DispatchRuns.DispatchKeepsConsistent` | src/langgraph_runtime_inmem/ops.py:2637-2668 | Dispatch starts no second run of a thread, although it looks at runs one by one while it is starting others. |
| `DispatchRuns.RemoveThreadKeepsConsistent` | src/langgraph_runtime_inmem/ops.py:1429-1442 | Deleting a thread leaves no run or cron that refers to it. |
| `DispatchRuns.PutKeepsConsistent` | src/langgraph_runtime_inmem/ops.py:2815-2954 | A new run always has its thread, created if need be. |
| `RunOutcomes.JointStatusBusyIffActive` | src/langgraph_runtime_inmem/ops.py:1298-1393 | After a joint update the thread is busy exactly when it still has a pending or running run; `RunEffects.JointOutcome` gives the whole outcome. |
| `RunOutcomes.ThreadStatusBusyIffActive` | src/langgraph_runtime_inmem/ops.py:1225-1296 | After an update of its status a thread is busy exactly when it has a pending or running run. |
| `RunEffects.JointOutcome` | src/langgraph_runtime_inmem/ops.py:1298-1393 | A joint update is refused exactly when thread or run is missing; else the run has the status, or is gone with its checkpoints; the thread is updated now, and busy while it has active runs, else in error if the run failed, else interrupted if there is a next step, else idle; nothing else changes. |
| `RunEffects.ThreadStatusOutcome` | src/langgraph_runtime_inmem/ops.py:1225-1296 | The same for an update of the thread's status alone. |
| `RunOutcomes.PutRunOutcome` | src/langgraph_runtime_inmem/ops.py:2815-2954 | A refused put changes nothing; otherwise its thread is added busy as of now, or made busy now unless it was; the put is turned away if and only if it asked for that and the thread has pending or running runs, which are handed back exactly and change nothing, and else exactly one pending run, due after the delay, is added and handed back ahead of those in flight. |
| `RunOutcomes.CancelStopsSelected` | src/langgraph_runtime_inmem/ops.py:3145-3204 | Where no two runs share id and thread, no selected active run stays active: it is interrupted, or gone if it was to be rolled back with nobody listening; all other runs stay as they are. |
| `RunOutcomes.CancelLeaves` | src/langgraph_runtime_inmem/ops.py:3145-3204 | For all runs: of those that share an id and a thread, as many of the first are gone as were to be rolled back, and of the others the selected active ones are interrupted. |
| `RunOutcomes.CancelStopsIff` | src/langgraph_runtime_inmem/ops.py:3145-3204 | No selected run with this id and thread stays active if and only if those to be rolled back come first among them. |
| `RunEffects.CancelByStatus` | src/langgraph_runtime_inmem/ops.py:3094-3184 | Cancelling by status hits exactly the runs of the named statuses: each is interrupted, or gone if rolled back with nobody listening; the others stay, in order. |
| `RunEffects.CancelByIds` | src/langgraph_runtime_inmem/ops.py:3107-3184 | Cancelling by ids hits exactly the pending and running runs with one of the ids on the thread, in the same way. |
| `RunEffects.CancelByAssistant` | src/langgraph_runtime_inmem/ops.py:3107-3184 | Cancelling by assistant hits exactly the assistant's pending and running runs, in the same way. |
| `RunEffects.CancelledMembers` | src/langgraph_runtime_inmem/ops.py:3145-3184 | Row by row: what is left of a cancellation are the runs not hit as they were, and those hit and not rolled back, interrupted. |
| `RunEffects.CancelByStatusThreads` | src/langgraph_runtime_inmem/ops.py:3145-3170 | Exactly the threads turn idle, updated now, that lose a pending run to an interruption; for a cancellation by status. |
| `RunEffects.CancelByIdsThreads` | src/langgraph_runtime_inmem/ops.py:3145-3170 | The same for one by ids. |
| `RunEffects.CancelByAssistantThreads` | src/langgraph_runtime_inmem/ops.py:3145-3170 | The same for one by assistant. |
| `RunEffects.CancelCheckpoints` | src/langgraph_runtime_inmem/ops.py:3171-3184 | A cancellation deletes exactly the checkpoints written by the runs it rolls back; writes and blobs stay. |
| `RunEffects.PutCronOutcome` | src/langgraph_runtime_inmem/ops.py:3603-3671 | A cron is added if its id is new and the thread it is bound to exists; otherwise nothing changes. |
| `RunHistories.AlwaysUniqueIds` | src/langgraph_runtime_inmem/ops.py:2734-3265 | Over every history whose new runs get unused ids, run ids stay unique, so that cancellations stop exactly what they select. |
| `RunHistories.RoundsAreEvents` | src/langgraph_runtime_inmem/ops.py:2613-2668 | Rounds of dispatch and completion are histories of dispatches and status updates. |
| `RunHistories.HistoryDrains` | src/langgraph_runtime_inmem/ops.py:2624-3265 | Such a history drains n due runs in at most n dispatches, and keeps all references. |
| `RuntimeState.ThreadsWithoutMembers` | src/langgraph_runtime_inmem/ops.py:1429-1442 | Deletion takes out exactly the threads with the id. |
| `RuntimeState.CronsWithoutMembers` | src/langgraph_runtime_inmem/ops.py:1429-1442 | Exactly the crons bound to the thread go with it. |
| `SizeTracking.SizeTracker.SetSize` | src/langgraph_runtime_inmem/size_tracking.py:25-36 | One entry's size is set, not below zero, and the total stays the sum of the entries. |
| `SizeTracking.SizeTracker.Remove` | src/langgraph_runtime_inmem/size_tracking.py:38-43 | The entry goes, and its size is returned and taken off the total. |
| `SizeTracking.SizeTracker.Clear` | src/langgraph_runtime_inmem/size_tracking.py:45-48 | No entries and a total of zero. |
| `ItemStore.DiskBackedInMemStore.constructor` | src/langgraph_runtime_inmem/store.py:58-123 | A loaded store has no orphaned TTL record and every item is measured; vectors belong to stored items exactly if the loaded files agree. |
| `ItemStore.DiskBackedInMemStore.RebuildSizeTracking` | src/langgraph_runtime_inmem/store.py:150-155 | Measures every item; on a measured store it changes nothing. |
| `ItemStore.DiskBackedInMemStore.ApplyPutOps` | src/langgraph_runtime_inmem/store.py:203-235 | Writes and deletions reach all four indices: TTL records and sizes agree with the data again, and vectors belong to stored items if they did. |
| `ItemStore.DiskBackedInMemStore.PrepareOps` | src/langgraph_runtime_inmem/store.py:173-186 | Reads move the expiry of the stored, expiring items among those read to a full TTL from now, and nothing else. |
| `ItemStore.DiskBackedInMemStore.BatchSearch` | src/langgraph_runtime_inmem/store.py:188-201 | The same for the hits of a search. |
| `ItemStore.DiskBackedInMemStore.RunBatch` | src/langgraph_runtime_inmem/store.py:237-240 | Reads, searches and writes of one batch, in that order. |
| `ItemStore.DiskBackedInMemStore.SweepTtl` | src/langgraph_runtime_inmem/store.py:242-293 | Exactly the expired keys leave all four indices, and vectors still belong to stored items; the count is theirs and the reported bytes are the total before minus the total after. |
| `ItemStoreHistory.StoreRefinesHistory` | src/langgraph_runtime_inmem/store.py:157-275 | Over every history with a clock that does not run back, an item is stored exactly when the plain reading of the history says so, with its last value, and expires at its last write or refresh plus its TTL. |
| `ItemStoreHistory.SweepRemovesLapsed` | src/langgraph_runtime_inmem/store.py:242-275 | A sweep removes exactly the items every touch of which lies a full TTL back; items written without a TTL never. |
| `ItemStoreHistory.WriteOverridesRefresh` | src/langgraph_runtime_inmem/store.py:203-235 | In one batch a write decides the expiry, whatever was read. |
| `ItemStoreHistory.IndicesFollowData` | src/langgraph_runtime_inmem/store.py:203-275 | Over every history only stored items have TTL records or vectors. |
| `ItemStoreHistory.VectorsAreLastEmbedded` | src/langgraph_runtime_inmem/store.py:203-275 | Over every history an item's vectors are those of its last write that brought some, since it was last deleted or swept. |
| `DeployEvents.DeployOperation.Append` | src/langgraph_runtime_inmem/routes.py:77-98 | The bounded buffer and its counter stand for the whole log of events: the last 2000 and their number. |
| `DeployEvents.DeployOperation.FinishReading` | src/langgraph_runtime_inmem/routes.py:172-198 | The stderr tail is appended before the status becomes terminal; a torn-down reader leaves the status. |
| `DeployEvents.DeployOperation.Poll` | src/langgraph_runtime_inmem/routes.py:427-457 | The index arithmetic over the buffer delivers the events after the cursor that are still there, each with the id that counts it in the whole log. |
| `DeployEvents.PollCompleteIff` | src/langgraph_runtime_inmem/routes.py:427-457 | A poll misses nothing after the cursor if and only if at most 2000 events lie beyond it. |
| `DeployEvents.LogIsAppended` | src/langgraph_runtime_inmem/routes.py:142-165 | The log a stream reads from is everything appended so far, in order. |
| `DeployEvents.StatusIsLastSet` | src/langgraph_runtime_inmem/routes.py:184-193 | The status it sees is the one last set. |
| `DeployEvents.DeliveriesAreExact` | src/langgraph_runtime_inmem/routes.py:427-457 | However appends and polls interleave, every event delivered with id i is the i-th ever appended and ids strictly increase. |
| `DeployEvents.StreamIsComplete` | src/langgraph_runtime_inmem/routes.py:427-457 | A stream that keeps up delivers exactly what follows the client's cursor and closes with the id after the last event. |
| `DeployEvents.GeneratorSteps` | src/langgraph_runtime_inmem/routes.py:427-457 | While the operation runs the generator reads and checks in turn; once the status is terminal, whichever, it reads what is left, sends the marker and ends. |
| `DeployEvents.TerminalStreamCloses` | src/langgraph_runtime_inmem/routes.py:444-455 | From any point, once the operation has succeeded or failed, at most three steps send the marker, `done` or `error`, with the id after the last event. |
| `DeployEvents.TerminalStreamDeliversAll` | src/langgraph_runtime_inmem/routes.py:427-457 | A stream that keeps up with an operation that has ended goes on to deliver the whole remainder and the marker. |
| `DeployEvents.ReadSendsAll` | src/langgraph_runtime_inmem/routes.py:433-442 | After each read a stream that keeps up has sent everything that follows the client's cursor. |
| `DeployEvents.ResumeLosesNothing` | src/langgraph_runtime_inmem/routes.py:405-457 | A client that resumes with the last id it saw gets, over both connections, the events of one uninterrupted stream. |
| `DeployEvents.ResumeByLastEventId` | src/langgraph_runtime_inmem/routes.py:417-457 | A client that sends back, in the `Last-Event-ID` header, the id of the last event it saw gets, over both connections, the events of one uninterrupted stream, whatever the query parameter says. |
| `DeployEvents.CursorSources` | src/langgraph_runtime_inmem/routes.py:417-425 | The cursor comes from the header, or else from the query parameter; blank, unreadable and negative ones are the start. |
| `Decimals.DecimalReadsBack` | src/langgraph_runtime_inmem/routes.py:419-439 | An event id sent as a decimal reads back as itself. |
| `WorkerSlots.SlotsAreConserved` | src/langgraph_runtime_inmem/queue.py:95-240 | Idle, executing and returning runners are always all the runners, each once; a yielded run always finds an idle runner, a returning one always finds room, and `WORKERS` holds one task per executing job. |
| `WorkerSlots.YieldsFitIdle` | src/langgraph_runtime_inmem/queue.py:182-212 | A call of the dispatcher never yields more runs than there were idle runners. |
| `WorkerSlots.NextYieldIsEnabled` | src/langgraph_runtime_inmem/queue.py:182-240 | Until a call of the dispatcher has yielded all its runs, the next one finds an idle runner, whatever tasks finish in the meantime. |
| `WorkerSlots.AdvanceConserves` | src/langgraph_runtime_inmem/queue.py:112-140 | No step loses, doubles or invents a runner. |
| `WorkerSlots.FinishedRunner` | src/langgraph_runtime_inmem/queue.py:128-140 | With isolated loops a finished task's runner is on its way until its put comes round, and then all is as if it had been queued at once, as it is without them. |
| `WorkerSlots.RunnerQueue.StartTask` | src/langgraph_runtime_inmem/queue.py:204-240 | Takes the first idle runner for a yielded run and adds its task. |
| `WorkerSlots.RunnerQueue.Cleanup` | src/langgraph_runtime_inmem/queue.py:112-140 | Gives a finished job's runner back, at once or through the loop's own thread, and drops its task. |
| `WorkerSlots.RunnerQueue.DeliverReturned` | src/langgraph_runtime_inmem/queue.py:128-140 | The put scheduled on the main loop queues the runner handed back first. |
| `AuthFilters.CheckMeansHolds` | src/langgraph_runtime_inmem/ops.py:4144-4319 | A filter that validates and has no empty operator object never raises and equals its boolean meaning (some `$or` group, all `$and` groups, all field tests) for all metadata and nesting levels. |
| `AuthFilters.CheckAnyMeansSome` | src/langgraph_runtime_inmem/ops.py:4231-4258 | The early-exit loop over `$or` groups finds whether some group holds. |
| `AuthFilters.CheckAllMeansEvery` | src/langgraph_runtime_inmem/ops.py:4260-4285 | The early-exit loop over `$and` groups finds whether every group holds. |
| `AuthFilters.CheckFieldsMeansHolds` | src/langgraph_runtime_inmem/ops.py:4287-4319 | The field tests in order amount to their conjunction, with `$eq`, `$contains` and plain equality. |
| `AuthFilters.CheckContains` | src/langgraph_runtime_inmem/ops.py:4300-4313 | A `$contains` test passes exactly when the key holds a list with every wanted element in it, or with the one wanted value. |
| `AuthFilters.CheckEquals` | src/langgraph_runtime_inmem/ops.py:4287-4317 | An `$eq` or plain test passes exactly when the key holds that value. |
| `AuthFilters.RefusedShapes` | src/langgraph_runtime_inmem/ops.py:4161-4204 | Validation and check both refuse `$or` and `$and` without a list of two filters or more, and nesting beyond depth two. |
| `AuthFilters.GroupsAccepted` | src/langgraph_runtime_inmem/ops.py:4161-4204 | Lists of two or more filters that are valid one level down are accepted. |
| `AuthFilters.VerdictWithoutValidity` | src/langgraph_runtime_inmem/ops.py:4207-4319 | A concrete filter that checks to a verdict although it does not validate. |
| `AuthFilters.VerdictIsValidIff` | src/langgraph_runtime_inmem/ops.py:4144-4319 | A check that comes to a verdict had a valid filter if and only if, where `$or` and `$and` stand side by side, both lists validate one level further down as well, at the top level only. |
| `AuthFilters.PassedWithoutValidity` | src/langgraph_runtime_inmem/ops.py:4144-4319 | A concrete filter that lets metadata pass and is too deeply nested to be valid. |
| `AuthFilters.ValidateShallower` | src/langgraph_runtime_inmem/ops.py:4144-4204 | A filter valid at some depth is valid at every lesser depth. |

## Left out

- DispatchRuns.AlwaysConsistent: does not say that a thread is busy exactly when it has an active run; cancelling sets a thread idle without looking at its other runs. `RunOutcomes.JointStatusBusyIffActive` says where it is re-established.
- DispatchRuns.ExclusiveMeaning: speaks of the status `running` only; a cancelled run's worker may still be winding down while the next run of the thread starts.
- CheckpointSaver.InMemorySaver.DeleteRun: writes and blobs of a deleted run's checkpoints stay, as in the source, so no claim is made that nothing unreferenced remains; the tally still counts them.
- CheckpointSaver.InMemorySaver.CopyThread: the rewriting of the thread's id inside copied payloads is the identity here; only the keys change.
- PruneInvisible.PruningIsInvisible: deleting a run that wrote a head is not among its events; `RunDeletion.PruneThenDeleteRun` says what it does right after a prune. The store the run starts from has no writes or blobs under empty namespaces and no writes past a head.
- Connection.Store.PutRun: only puts that leave the run pending are modelled; the source also accepts other initial statuses.
- WorkerSlots.SlotsAreConserved: the exception paths of the queue loop and of the loops' own threads depend on code that is not in this repository.
- Parsing and normalising TTL configuration (`_normalize_ttl_config`), and reading it from the environment.
- Serialisation, file persistence and the flush thread.
- Authorisation handlers, HTTP status mapping, logging and the formatting of sizes.
- Assistants, searches, pagination, cron dates and thread state.
- The message streams' resumption by millisecond ids, which two messages can share.
- Mappings left empty inside nested dictionaries (an item-store namespace without items, a thread without checkpoint namespaces) are not told apart from absent ones.
