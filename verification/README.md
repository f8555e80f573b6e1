# Verified models of QEMU's block layer, jobs and CPU protocols

Dafny models of five parts of QEMU, each with the properties it exists for:

* **Exclusive sections** (`cpu-common.c`), module `Exclusive`. Every interleaving over any number of CPUs, one shared access per step, under sequential consistency and with spurious wake-ups.
* **The ioctl blocker** (`accel/accel-blocker.c`), module `AccelBlocker`. The same kind of state machine; lock counters and the event are modelled by their contracts.
* **Image operations** (`qemu-img.c`), modules `Buffers`, `Compare`, `Rebase`, `ConvertParts`, `ConvertRun`, `ConvertCalls`, with arithmetic in `Align`. An image is its size, its content and honest answers about its block status. `convert` is a pool of coroutines modelled as a state machine over the contracts of its sequential parts.
* **The block graph** (`block.c`, `util/transactions.c`), modules `BlockGraph`, `TopologicalOrder`, `Permissions`, `GraphTransaction`, `RefreshPerms`, `GraphChange`, `AioContext`. Nodes and edges with permissions, changed through transactions that keep a list of undo actions and an account of references.
* **Jobs** (`job.c`, `blockjob.c`), modules `Jobs` and `JobPause`. Groups of jobs that end together, and the accounting of pauses.

`Common` holds an option type, minimum and maximum, and one predicate on sequences. `dafny verify dfyconfig.toml` checks the whole project.

## What is assumed

* Block status answers are honest: what is reported as zero or as left to the backing file reads that way. Status runs consist of whole sectors. A request that fails may have been carried out in part.
* For `rebase`, the overlay's allocation unit is a multiple of `write_align`, which is no larger than the copy buffer (`IO_BUF_SIZE`). `Rebase.ExtendRun` proves the exact condition under which the loop moves on.
* Nodes are drained while the graph changes, as the functions require. The lists of children and parents are sets, since rolling back puts an edge back at another place.
* Linked nodes, jobs and backends share an AioContext when an edge is attached, which attaching keeps up.
* Pausing, resuming and cancelling jobs is done by the main loop, one at a time; I/O errors and drained sections come at any time.
* Jobs of a group have all been started. Driver callbacks are atomic in module `Jobs`, and a driver's cancel callback that is asked to force does so.

## Where the code and its description disagree

* The comment above `is_allocated_sectors` promises that a run is reported as data exactly if its first sector holds data. `ConvertParts.IsAllocatedSectors` gives the exact condition: the first sector holds data, or the zeroes at the start all lie in the alignment unit of the data after them. `ConvertParts.ShortHoleIsData` is such an input.
* The comment above `is_allocated_sectors_min` says that up to `min` zero sectors are ignored. `ConvertParts.IsAllocatedSectorsMin` states exactly which holes are: those of which, rounded to whole alignment units, nothing or fewer than `min` sectors are left. So a longer hole may be ignored if it is not aligned, and of the holes up to `min` sectors exactly those are not ignored that have `min` sectors and start and end aligned (`ConvertParts.UpToMinimumIff`). `ConvertParts.HoleOfMinimumEndsData` is such an input.
* `bdrv_replace_node_common` and `bdrv_append` are meant to leave permissions that fit the new graph. What an owner asks of a child depends on the child (`force_share`), and the owners of the redirected edges are not refreshed. `GraphChange.ReplaceNodeCommon` and `GraphChange.Append` give the exact condition for all permissions to stay in order, `GraphChange.AskedAlikeIff` says what it means for the default functions, and `GraphChange.ForceShareBreaksOrder` is an input for which it fails.
* A comment in `bdrv_default_perms_for_storage` says that the branch for data children is a subset of the one for metadata. `Permissions.DataAddsNothingIff` gives the exact condition: the node is writable, or its users ask for writes only together with the right to resize. `Permissions.DataCanMatter` is an input for which it fails, and `RefreshPerms.WhereDataMattersIsRefused` shows that the permission refresh refuses such a node.
* `block_job_iostatus_reset_locked` asserts that an I/O error is kept only while the job is paused by the user. The job lock is given up in the middle of a resume, and an error that arrives after the reset and before the end of it is left behind. `JobPause.BlockJob.FinishResume` and `JobPause.BlockJob.ContReset` give the exact condition, `JobPause.LateError` such a sequence. The pause count is right in any case.
* A transaction of jobs is meant to be all or nothing. When a member fails in `prepare` and another job is the one that `job_do_finalize_locked` was called for, that other job is not cancelled and commits. `Jobs.MixedGroup` gives such a group; `Jobs.AllOrNothingIff` gives the exact condition.

## Model

| member | source | states |
|---|---|---|
| `Exclusive.ExclusiveSafety` | cpu-common.c:183-325 | in every state of every interleaving, while a thread is in an exclusive section no CPU executes between `cpu_exec_start` and `cpu_exec_end` and no other thread is in an exclusive section |
| `Exclusive.ExclusiveAccounting` | cpu-common.c:205-323 | whenever the list lock is free, `pending_cpus` is 0 with no `has_waiter` set, or exactly 1 plus the number of CPUs with `has_waiter` |
| `Exclusive.LastDecrementWakesOwner` | cpu-common.c:314-323 | the decrement to 1 finds the owner asleep on `exclusive_cond` and wakes it, or already notified: the wake-up is not lost |
| `Exclusive.CountedProgress` | cpu-common.c:250-323 | every own step of a counted CPU brings it nearer to its decrement, and it is uncounted only by that |
| `Exclusive.CountedStays` | cpu-common.c:192-323 | no step of another thread moves or uncounts a counted CPU |
| `Exclusive.CountedEnabled` | cpu-common.c:250-323 | a counted CPU waits for nothing but the list lock, whose holder can always go on |
| `Exclusive.HolderSteps` | cpu-common.c:192-323 | a holder of the list lock always has a next step |
| `Exclusive.StepKeepsInv` | cpu-common.c:183-325 | every step of every thread keeps the invariant behind safety and accounting |
| `Exclusive.RunInv` | cpu-common.c:183-325 | the invariant holds in every reachable state |
| `Exclusive.ScanKeepsInv` | cpu-common.c:213-220 | a CPU seen running is counted once; one seen not running has not read `pending_cpus` yet |
| `Exclusive.DecrementKeepsInv` | cpu-common.c:314-323 | clearing `has_waiter` and decrementing keeps the count exact |
| `Exclusive.ExecTestKeepsInv` | cpu-common.c:272-281 | reading `pending_cpus` before and within the wait keeps the invariant |
| `Exclusive.ExecCheckKeepsInv` | cpu-common.c:274-287 | a CPU that was counted goes on, one that was not gives way to the exclusive section |
| `AccelBlocker.InhibitionSafety` | accel/accel-blocker.c:104-143 | once `accel_ioctl_inhibit_begin` has returned, no thread is in a counted ioctl until the counters are unlocked |
| `AccelBlocker.NoLostWakeup` | accel/accel-blocker.c:119-143 | an inhibitor waiting for an event that is not set is never alone: some thread is on its way to set it and not blocked |
| `AccelBlocker.SetterMoves` | accel/accel-blocker.c:53-85 | a thread in or after a counted ioctl can always go on, and each step brings it nearer to setting the event |
| `AccelBlocker.ZeroStays` | accel/accel-blocker.c:43-85 | a counter that is zero while locked stays zero, so that looking at the counters one after the other is enough |
| `AccelBlocker.StepKeepsInv` | accel/accel-blocker.c:43-154 | counters count exactly the threads in ioctls, what a scan has found stays true, and whoever decided to wait will be woken |
| `AccelBlocker.RunInv` | accel/accel-blocker.c:43-154 | this holds in every reachable state |
| `Buffers.FindNonzero` | qemu-img.c:1134-1148 | the first sector boundary whose sector holds a non-zero byte, or -1 exactly when all bytes are zero |
| `Buffers.CompareBuffers` | qemu-img.c:1265-1290 | the longest run of chunks that have the same matching status as the first one, with chunks of a given size |
| `Compare.CheckEmptySectors` | qemu-img.c:1309-1330 | decides whether a run reads as zeroes, with the sector of the first difference |
| `Compare.CompareRun` | qemu-img.c:1542-1586 | one pass over a common run: agreement, or a mismatch before which all agrees |
| `Compare.CompareRest` | qemu-img.c:1603-1624 | the larger image's rest must read as zeroes |
| `Compare.ImgCompare` | qemu-img.c:1497-1628 | without errors, non-strict comparison gives 0 exactly when the zero-extended contents are equal; a reported offset has agreement before it and a differing sector-sized chunk at it; strict differences and errors |
| `Rebase.WrittenReads` | qemu-img.c:4129-4141 | a copy-on-write write changes exactly the bytes written, read through the backing file it was made on |
| `Rebase.RewriteKeepsReads` | qemu-img.c:4129-4141 | writing what is read already changes nothing that can be read |
| `Rebase.SettledMayMove` | qemu-img.c:4152-4163 | an overlay settled up to its end reads the same through the new backing file |
| `Rebase.ExtendRun` | qemu-img.c:4082-4085 | the run extended to alignment stays in the blocks of the unallocated run, and ends after the offset exactly when the alignment gap is smaller than the buffer |
| `Rebase.CopyChunk` | qemu-img.c:4129-4141 | one differing chunk is copied up; the overlay reads as before through the old backing file, also if the write fails |
| `Rebase.CopyDifferences` | qemu-img.c:4123-4147 | after the run, whatever is still left to the backing file reads the same in both of them |
| `Rebase.ImgRebase` | qemu-img.c:4027-4149 | for any allocation unit that is a multiple of `write_align`: at every point the overlay reads unchanged through the old backing file; when the loop ends without error it reads the same through the new one, with either backing file shorter than the image; the loop ends |
| `ConvertParts.AndMask` | qemu-img.c:1174-1206 | the masks of the alignment arithmetic take remainders |
| `ConvertParts.IsAllocatedSectors` | qemu-img.c:1160-1211 | data is reported exactly if the first sector holds data or the zeroes at the start are too few to end aligned; a hole is at least one sector, only zeroes, and ends with the buffer or where the next data is rounded down to; data holds data, no run of zeroes that fills an alignment unit, and goes on after zeroes only within the same unit |
| `ConvertParts.ShortHoleIsData` | qemu-img.c:1184-1192 | one zero sector before data in the same alignment unit is reported as data |
| `ConvertParts.IsAllocatedSectorsMin` | qemu-img.c:1218-1255 | for every hole that starts up to the end of the data: it is swallowed exactly if, rounded to whole alignment units, nothing or fewer than `min` sectors of it are left; the data ends aligned, less than an alignment unit after its last sector, before at least `min` zero sectors or before zeroes up to the end |
| `ConvertParts.UpToMinimumIff` | qemu-img.c:1213-1216 | a hole of up to `min` sectors is ignored unless it has exactly `min` and starts and ends aligned |
| `ConvertParts.HoleOfMinimumEndsData` | qemu-img.c:1241-1250 | one zero sector ends the data if `min` is 1 |
| `ConvertParts.SelectPart` | qemu-img.c:1701-1711 | the source that holds a sector, and where that source starts |
| `ConvertParts.ImgConvertState.QueryStatus` | qemu-img.c:1736-1797 | the cached status describes the sectors up to the cached end, also when salvaging on ever shorter ranges |
| `ConvertParts.ImgConvertState.IterationSectors` | qemu-img.c:1714-1818 | the next chunk is not empty, deserves the status reported, fits the buffer if it has to be read and, for a compressed target, consists of whole clusters; the cached status stays right for what comes after it |
| `ConvertParts.WholeClusters` | qemu-img.c:1803-1815 | rounding to whole clusters, where a part of a cluster is taken as data |
| `ConvertParts.CoRead` | qemu-img.c:1820-1871 | the buffer holds the concatenated sources across source boundaries; unreadable sectors become zeroes only when salvaging |
| `ConvertParts.ChooseRequest` | qemu-img.c:1874-1936 | every request covers at least one sector; sectors are skipped only where the target shows the right content already; zeroes stand for zeroes |
| `ConvertRun.ConvertPreservesContent` | qemu-img.c:1969-2153 | for any sources, answers, options, number of coroutines and schedule: if the copy ends with 0, every target sector reads as the concatenated sources, or zero where salvaged as unreadable; without salvage mode the target equals the sources |
| `ConvertRun.OneWriter` | qemu-img.c:2037-2054 | with ordered writes and no error, only the chunk at `wr_offs` is being written, by one coroutine |
| `ConvertRun.WritesInOrder` | qemu-img.c:2037-2089 | in every run with ordered writes and no error, a chunk whose write begins later starts strictly later, unless it is the same chunk, held all along, after copy offloading was given up |
| `ConvertRun.OffsetsRise` | qemu-img.c:2068-2072 | in every run with ordered writes and no error, `wr_offs` never moves back |
| `ConvertRun.ChunksPartition` | qemu-img.c:1993-2015 | in every run, also after errors, the chunks claimed partition the sectors up to `sector_num` in the order in which they were claimed |
| `ConvertRun.FinishWakes` | qemu-img.c:2072-2088 | finishing a chunk wakes the coroutine parked for its end, also after an error moved `wr_offs` out of order |
| `ConvertRun.NoStrandedWaiter` | qemu-img.c:2037-2089 | behind every parked coroutine there is one with an earlier chunk that is not parked |
| `ConvertRun.RunHasNoStrandedWaiter` | qemu-img.c:1993-2089 | in every reachable state, also after errors and with chunks claimed after an error, before a parked coroutine there is one that is not parked and can go on |
| `ConvertRun.HolderProgress` | qemu-img.c:2024-2089 | every step of a coroutine with its chunk lowers a rank until the chunk is finished, also when copy offloading fails and it starts over |
| `ConvertRun.OthersNeverSetBack` | qemu-img.c:2024-2089 | no step of another coroutine raises that rank, and one that wakes a coroutine makes it due |
| `ConvertRun.AheadNeverGrows` | qemu-img.c:1993-2015 | nobody claims a chunk before one that is held |
| `ConvertRun.ParkedComesNearer` | qemu-img.c:2037-2089 | so no coroutine stays parked: in every run, each step wakes it or leaves it with no more coroutines ahead, none of them set back, and the one that made the step nearer to the end of its chunk |
| `ConvertRun.HolderSteps` | qemu-img.c:1993-2089 | a coroutine that has a chunk and is not parked can always go on |
| `ConvertRun.ClaimKeepsInv` | qemu-img.c:1998-2015 | a chunk may be claimed after the test for errors has been overtaken by an error; it starts at `sector_num`, overlaps no other chunk and deserves its status |
| `ConvertRun.StepKeepsInv` | qemu-img.c:1969-2153 | every step of every coroutine keeps the invariant on chunks and content |
| `ConvertRun.RunInv` | qemu-img.c:1969-2153 | the invariant holds in every reachable state |
| `ConvertCalls.CallsAreAllowed` | qemu-img.c:1722-1917 | in every reachable state, also after errors, the assertions of `convert_iteration_sectors`, `convert_co_read` and `convert_co_write` hold for the coroutine that calls them |
| `ConvertCalls.QueryStep` | qemu-img.c:1998-2015 | what `convert_iteration_sectors` returns is a step of the run |
| `ConvertCalls.ReadStep` | qemu-img.c:2025-2031 | so is what `convert_co_read` returns |
| `ConvertCalls.WriteStep` | qemu-img.c:1880-1936 | and one pass of the loop of `convert_co_write`, whether its request succeeds or fails |
| `BlockGraph.AcyclicHasNoCycle` | block.c:4340-4356 | in an acyclic graph no walk along edges comes back |
| `TopologicalOrder.TopologicalDfs` | block.c:2312-2335 | lists the nodes below a node that were not found before, each once and before its children; calls may share the table of found nodes |
| `TopologicalOrder.RefreshList` | block.c:2639-2641 | the list holds exactly the nodes reachable from the given ones, each once, parents first |
| `Permissions.OverlaysShareBacking` | block.c:2784-2818 | any number of overlays can share a backing file, whatever their own users do |
| `Permissions.MetadataSharedIff` | block.c:2820-2898 | when two active nodes can keep metadata in one node, exactly; a writable node has its metadata to itself |
| `Permissions.StorageNeeds` | block.c:2820-2898 | each permission asked of a storage child, with the exact reason for it |
| `Permissions.StorageShares` | block.c:2820-2898 | while the node is active nobody else may write or resize metadata, nor resize data |
| `Permissions.DataAddsNothingIff` | block.c:2855-2887 | exactly when the branch for data repeats the one for metadata |
| `Permissions.DataCanMatter` | block.c:2855-2887 | an input for which it does not |
| `RefreshPerms.WhereDataMattersIsRefused` | block.c:2521-2562 | wherever it does not, the node is read-only with users that write, and is refused |
| `Permissions.StorageMonotone` | block.c:2820-2898 | the rules for metadata and data children ask for less when less is asked of the node |
| `Permissions.DefaultPermsMonotone` | block.c:2773-2921 | so do all default permission functions |
| `RefreshPerms.GetCumulativePerm` | block.c:2646-2662 | what all users need together and what all of them share |
| `RefreshPerms.ParentPermsConflict` | block.c:2257-2281 | reports a conflict exactly if two different parents are not allowed by each other |
| `RefreshPerms.EarlierStays` | block.c:2600-2622 | refreshing a node leaves the nodes listed before it settled |
| `RefreshPerms.SettleOne` | block.c:2600-2622 | so the pass settles one node after the other |
| `RefreshPerms.SetChildPerms` | block.c:2581-2588 | every child edge carries what the node's cumulative permissions call for, and no other edge changes |
| `RefreshPerms.NodeRefreshPerm` | block.c:2521-2591 | refused exactly if the node needs write access and is read-only, or needs it without resize and its size is not aligned, or its driver refuses; else its edges carry what its users call for |
| `RefreshPerms.DoRefreshPerms` | block.c:2600-2622 | one pass is a fixpoint: on success every listed node is in order with the final permissions; after edges were only taken away it fails neither for a conflict nor for a read-only node |
| `RefreshPerms.ListRefreshPerms` | block.c:2632-2644 | on success a node is in order exactly if it is below the given nodes or was in order before, and the transaction leads back to the same state |
| `RefreshPerms.RefreshSubtree` | block.c:2699-2718 | the same for the subtree of one node |
| `RefreshPerms.LoosenedFine` | block.c:3326-3340 | after edges were taken from a graph in order, no node has conflicting parents and none needs write access it cannot have |
| `RefreshPerms.RefreshedLooser` | block.c:2581-2588 | refreshing such a node only loosens further |
| `RefreshPerms.DefaultsAreMonotone` | block.c:2283-2299 | drivers with the default functions, and sharing forced by the node below, meet the condition that loosening needs |
| `RefreshPerms.DetachAndFree` | block.c:3326-3351 | the edge is gone and its reference is scheduled to be dropped |
| `RefreshPerms.RootUnrefChild` | block.c:3326-3351 | taking a parent away never reports a conflict or a read-only node; unless a driver or the size check refuses, all permissions are in order again |
| `GraphTransaction.BlockLayer.SetPerm` | block.c:2358-2374 | the new permissions, and an abort still leads back to where it led |
| `GraphTransaction.BlockLayer.ReplaceChildTran` | block.c:2490-2512 | the edge points to the new node; the ledger stays balanced and an abort leads back |
| `GraphTransaction.BlockLayer.AttachChildCommon` | block.c:3091-3190 | the new edge or no change at all; ledger balanced, abort leads back |
| `GraphTransaction.BlockLayer.RemoveChild` | block.c:5337-5350 | the edge is detached now and freed on commit; ledger balanced, abort leads back |
| `GraphTransaction.BlockLayer.Abort` | util/transactions.c:60-79 | at any point of a transaction: every edge target and every permission is as before, a freed edge is detached, a reference that is dropped was there, and the ledger is balanced |
| `GraphTransaction.BlockLayer.Commit` | util/transactions.c:81-99 | nothing moves; references to replaced nodes are scheduled to be dropped, one each; removed edges, all detached, are freed once |
| `GraphTransaction.BlockLayer.RunScheduledUnref` | block.c:7174-7180 | a scheduled reference is there to be dropped, and the ledger stays balanced |
| `GraphTransaction.EdgeIsCounted` | block.c:7162-7172 | a node that an edge points to has a positive count |
| `GraphTransaction.ScheduledIsCounted` | block.c:7162-7180 | so has a node with a scheduled reference |
| `GraphTransaction.ReplaceSound` | block.c:2436-2512 | replacing and undoing are inverse, and the reference count is edges plus saved plus scheduled plus external references |
| `GraphTransaction.AttachSound` | block.c:3033-3068 | the same for attaching |
| `GraphTransaction.UndoReplaceKeepsLedger` | block.c:2444-2470 | undoing a replacement moves the saved reference back to the edge and drops the new one |
| `GraphTransaction.UndoAttachKeepsLedger` | block.c:3033-3068 | undoing an attachment schedules the edge's reference to be dropped |
| `GraphTransaction.UnreferencedIsUnused` | block.c:7153-7180 | a node whose count is zero has no parent edge, no saved and no scheduled reference |
| `GraphChange.RecurseHasChild` | block.c:4340-4356 | true exactly if the node is reachable; ends because there is no cycle |
| `GraphChange.ShouldUpdateChild` | block.c:5241-5318 | true exactly if the edge may move and belongs to no node reachable from `to`, although the search goes on after it has found the edge |
| `GraphChange.VisitChildren` | block.c:5292-5307 | one node of the breadth-first search |
| `GraphChange.AddKeepsAcyclic` | block.c:3217-3221 | an edge from u to w closes no cycle unless w reaches u |
| `GraphChange.PointKeepsBelow` | block.c:5372-5388 | redirecting an edge outside of the subtree of `to` leaves that subtree unchanged |
| `GraphChange.ReplaceNodeNoperm` | block.c:5360-5391 | redirecting edges one at a time has the effect of redirecting at once those that are outside of the subtree of `to` in the original graph; it succeeds exactly if no such edge is frozen and, without auto_skip, none is skipped; no cycle arises, also on failure |
| `GraphChange.ReplaceNodeCommon` | block.c:5404-5443 | on success the redirected graph, with everything below the two nodes in order; all permissions stay in order exactly if the owners of the moved edges ask of the new node what they asked of the old one; on failure everything as before |
| `GraphChange.RedirectedFineIff` | block.c:5372-5388 | a third node stays in order exactly under that condition |
| `GraphChange.MoverNotBelow` | block.c:5430-5433 | the owner of a moved edge is below neither node, so nobody refreshes it |
| `GraphChange.AskedAlikeIff` | block.c:2283-2299 | with the default functions: the two nodes agree in `force_share`, or the owner shares everything anyway |
| `GraphChange.ForceShareBreaksOrder` | block.c:2295-2298 | a graph in order for which the condition fails, and in which the refresh finds nothing to refuse |
| `GraphChange.AttachChildNoperm` | block.c:3205-3236 | refused if the child reaches the parent; else the new edge with the permissions the parent asks for, and no cycle |
| `GraphChange.AttachChild` | block.c:3288-3318 | on success one edge more and permissions in order if they were before; on failure everything as before; the caller's reference is given up either way |
| `GraphChange.AppendedEdge` | block.c:5481-5517 | the new node's own edge to the old top is not redirected |
| `GraphChange.Append` | block.c:5481-5517 | on success the new node is on top, the graph is acyclic and everything below the new node is in order; all permissions stay in order exactly if the owners of the moved edges ask of the new top what they asked of the old one; on failure everything as before |
| `GraphChange.RedirectedKeeps` | block.c:5372-5388 | however many edges have been redirected, there is no cycle and the subtree of `to` is unchanged |
| `GraphChange.StepKeepsAcyclic` | block.c:3205-3236 | attaching, detaching and replacing keep the graph acyclic |
| `GraphChange.RunKeepsAcyclic` | block.c:5360-5391 | so does any sequence of them |
| `AioContext.Change.ChangeNode` | block.c:7653-7688 | collects the node and all that has to move with it; fails only if a user that has to move refuses; ends on the number of unvisited edges |
| `AioContext.Change.ParentChange` | block.c:7569-7596 | the user of an edge is asked once |
| `AioContext.Change.ChildChange` | block.c:7608-7618 | the node of an edge is visited once |
| `AioContext.Change.ChangeJob` | blockjob.c:147-171 | all nodes of a job move with it |
| `AioContext.TryChangeAioContext` | block.c:7702-7739 | exactly what is linked to the node, not crossing the ignored edge, moves to the new context; or nothing moves, exactly if a user that has to move refuses |
| `AioContext.ConnectedMoves` | block.c:7653-7739 | if linked things shared a context before, everything connected to the node has the new context |
| `AioContext.UniformStays` | block.c:7653-7739 | and linked things share a context again |
| `AioContext.TryChange` | block.c:3136-3154 | the same for the parent of an edge that is not attached yet, be it a node, a job or a backend |
| `AioContext.MovesBack` | block.c:3046-3049 | what has moved can move back, and then everything is where it was |
| `AioContext.MatchContexts` | block.c:3130-3165 | the child moves to the parent's context, or else the parent to the child's; it fails exactly if neither can |
| `AioContext.MatchedUniform` | block.c:3125-3165 | then the two ends of the new edge share a context and all else that is linked still does |
| `AioContext.UnmatchContexts` | block.c:3044-3066 | when attaching is undone, moving back never fails, as the source asserts, and all contexts are as before |
| `Jobs.FinalizedIsFinal` | job.c:846-883 | a job with an error or cancelled by force aborts, another commits; it leaves the transaction |
| `Jobs.UnrefKeeps` | job.c:463-485 | a job that loses its last reference is NULL and in no transaction |
| `Jobs.JobTxn.FinishSync` | job.c:1242-1270 | the event loop completes the job; members that are brought down stay so and completed ones are untouched |
| `Jobs.JobTxn.CancelOthers` | job.c:951-960 | every other member is cancelled by force |
| `Jobs.JobTxn.TxnAbort` | job.c:929-969 | every member is finalised through abort and the list ends empty; the only exception is the job itself if it has no error and was not cancelled by force |
| `Jobs.JobTxn.PrepareAll` | job.c:972-987 | stops at the first member that fails, which is then aborting |
| `Jobs.JobTxn.FinalizeAll` | job.c:177-199 | all members commit; the reference held meanwhile may be the last one, and then the job is NULL and in no transaction |
| `Jobs.JobTxn.DoFinalize` | job.c:996-1008 | the verdict of every member, given what the drivers' prepare callbacks return |
| `Jobs.AllOrNothingIff` | job.c:996-1008 | all members share one verdict exactly if none fails to prepare or the first to fail is the job that finalisation was called for |
| `Jobs.NotAllOrNothing` | job.c:1002-1004 | the verdicts of a group for which this fails |
| `Jobs.MixedGroup` | job.c:1002-1004 | such a group is reached from two started jobs that both succeed |
| `Jobs.JobTxn.TxnSuccess` | job.c:1037-1061 | the group ends exactly if this member is the last to complete and nobody finalises by hand; else the member waits, or all are pending |
| `Jobs.JobTxn.JobExit` | job.c:1064-1096 | a member with an error or cancelled by force aborts the whole group; one that succeeded waits for the others or, as the last one, ends the group with the verdicts that the prepare callbacks give |
| `Jobs.JobTxn.JobCancel` | job.c:1137-1163 | cancelling a member that is deferred to the main loop, by this or an earlier request by force, aborts the whole group; else only its cancel flags change |
| `Jobs.JobTxn.UserCancel` | job.c:1165-1171 | the same behind the verb table |
| `Jobs.JobTxn.JobFinalize` | job.c:1010-1017 | accepted exactly in PENDING, and ends the group |
| `Jobs.JobTxn.JobDismiss` | job.c:774-785 | accepted exactly in CONCLUDED |
| `Jobs.JobTxn.RunStep` | job.c:1102-1119 | steps of a job's coroutine follow the transition table and keep the group consistent |
| `Jobs.JobTxn.Run` | job.c:817-1171 | for any sequence of coroutine steps, exits, cancels, finalise and dismiss requests: a commit callback is called only if every member returned 0 and reached PENDING, and no assertion on transitions, cancellation, results or references fails |
| `JobPause.BlockJob.Start` | job.c:1121-1135 | the job runs at once exactly if nobody else wants it paused |
| `JobPause.BlockJob.DrainedBegin` | blockjob.c:93-97 | one more reason to pause |
| `JobPause.BlockJob.DrainedEnd` | blockjob.c:123-127 | the count is positive, and the job goes on exactly if this was the last reason |
| `JobPause.BlockJob.UserPause` | job.c:722-733 | refused in states that cannot pause and for a job paused by the user already |
| `JobPause.BlockJob.BeginResume` | job.c:740-752 | accepted exactly for a job paused by the user in a state that can resume |
| `JobPause.BlockJob.BeginCancel` | job.c:900-903 | a cancel takes away the user's pause if there is one |
| `JobPause.BlockJob.DriverResume` | blockjob.c:565-576 | the reset in the driver's callback never fails its assertion, whatever happened after the lock was given up |
| `JobPause.BlockJob.FinishResume` | job.c:756-757 | takes away the user's pause and no other; the job goes on exactly if no child is drained; an error is left behind exactly if it came after the reset |
| `JobPause.BlockJob.ContReset` | monitor/qmp-cmds.c:96-101 | the assertion of the reset holds exactly if the last resume left no error behind or the job has been paused for the user since |
| `JobPause.LateError` | job.c:751-757 | a sequence in which it fails |
| `JobPause.BlockJob.UserResume` | job.c:740-758 | a resume that nothing comes in between of takes away the user's pause and no other, and leaves no error |
| `JobPause.BlockJob.CancelUnpauses` | job.c:900-910 | so does a cancel, without waking the job |
| `JobPause.BlockJob.IostatusReset` | blockjob.c:555-563 | the assertion holds while an error is kept only for a job paused by the user |
| `JobPause.BlockJob.OnIoError` | blockjob.c:578-622 | which errors stop the job; a job that stops is paused for the user once |
| `JobPause.BlockJob.Run` | job.c:690-758 | for any sequence of events, with I/O errors and drained sections in the middle of a resume or cancel: the pause count is 1 if not started, plus 1 if paused by the user, plus the number of drained children; no assertion fails but that of a reset after a late error |

## Left out

- Exclusive.ExclusiveSafety: the set of CPUs is fixed; `cpu_list_add` and `cpu_list_remove` are not modelled, and neither are the safe work queue and `cpu_exec_step_atomic`.
- AccelBlocker.InhibitionSafety: the set of CPUs is fixed; threads that hold the big lock are not counted, as in the source.
- Weak memory ordering and fairness of condition variables: steps are sequentially consistent, and progress is stated as enabled steps that come nearer to the goal.
- Compare.ImgCompare: option parsing, messages and progress.
- Rebase.ImgRebase: unsafe mode, compression and growing the overlay are not modelled; `write_align` is at most the copy buffer.
- ConvertRun.ConvertPreservesContent: the first pass of `convert_do_copy`, which only adds up sectors for progress, bitmaps, rate limits and the creation of the target.
- RefreshPerms.NodeRefreshPerm: a driver's own permission check, and what it does on commit and abort, is a free choice of the driver; the reopen queue is left out.
- RefreshPerms.RootUnrefChild: a driver or the size check may still refuse, which the source ignores; the move back to the main AioContext is left out.
- GraphTransaction.BlockLayer.AttachChildCommon: whether activity and AioContext allow the edge is a free choice, as contexts are in module `AioContext`; drained counters and the pointers `bs->file` and `bs->backing` are left out.
- GraphTransaction.BlockLayer.Abort: the assertions that an edge is not frozen and its parent is drained are not modelled: all nodes are drained while the graph changes, and nothing freezes an edge meanwhile.
- GraphTransaction.BlockLayer.RunScheduledUnref: a node whose count reaches zero stays in the model; closing it is left out.
- `bdrv_replace_child_bs`, reopening, option inheritance and `inherits_from` in block.c.
- AioContext.TryChangeAioContext: notifiers and the detaching and attaching of drivers; a job's or backend's own context is one value.
- Jobs.JobTxn.Run: jobs that are not started, creation of jobs while the group is active, timers, progress, events and the completion callback of the job's owner.
- Jobs.JobTxn.FinishSync: that the event loop completes the job is assumed; pairs of references that are taken and given back around calls which cannot drop the last one are left out there and in the uses of `job_txn_apply_locked` other than `FinalizeAll`.
- `img_dd`, `img_bench`, `img_map`, `img_resize`, `img_snapshot`, `img_bitmap`, monitor commands and the other files of the repository: they would add easier members only.
