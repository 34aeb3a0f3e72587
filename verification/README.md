# PhxQueue: a model with proofs

PhxQueue is a replicated queue. Stores keep each Paxos group's agreed log, an ordered list of instance ids
per queue (store metas) and a pair of cursors per consumer group and queue. A lock service, replicated the
same way, elects one scheduler. Consumers divide queues among themselves by consistent hashing, and
producers pack items into requests. This project models these four parts in Dafny and proves what they are
for. `dafny verify dfyconfig.toml` checks everything.

What the source changes in place is a class whose methods are proved against functions on values; what
interleaves (replicas and consumers, map and mirror, schedulers and lock service, bucket routines, batching
calls) is a state machine over those functions, with theorems over all its runs.

| files | part |
|---|---|
| `CursorId`, `Options`, `Numbers`, `StoreLog`, `StoreItems` | instance ids with their sentinel, arithmetic on remainders and 32-bit integers, the agreed log and the configuration, which items the log holds by position |
| `StoreMeta`, `CrcChain`, `SyncCtrl`, `BaseMgr`, `KeepSync` | one replica of a store: metas, cursors, Get, Execute, checkpoints |
| `StoreRun`, `StoreSafety` | the Paxos group with several replicas and consumers; at-least-once delivery |
| `StoreGets`, `StoreSolo`, `StorePass` | what a Get returns, cursor pairs, checkpoint passes, stored prevs and restarts |
| `StoreLimits`, `StorePrevLimits` | runs that show why the conditions of the store theorems are needed |
| `LockDb`, `LockMgr`, `LockRecovery`, `LockRun` | lock records, checkpoints and recovery over a mirror that is ahead |
| `KeepMaster`, `Lease`, `LeaseLimits` | the scheduler's lease over recovering lock nodes, and why its conditions are needed |
| `Ring`, `Slots`, `Buckets` | consistent hashing, process slots, handling buckets |
| `Packing`, `Batch`, `Ranks`, `StoreSelect` | request packing, group commit, queue ranks and retries, store selection |

## Where the code does not keep what it is for

Each of these is proved with the input or the run that shows it, and with the condition under which the
property holds.

- A checkpoint pass scans the queues of a group one at a time while instances go on executing
  (phxqueue/store/keepsyncthread.cpp:193). Its checkpoint may then pass an add that some group has not read. A
  restart does not put it back, and the group's cursor goes past it: it acknowledges an item it never received
  (`StoreLimits.RacyRunLosesAnItem`, a run from the first state; `StoreLimits.RacyPassPassesByAnItem`, for every
  sampled instance). In every state of the invariant such a checkpoint can be followed by that loss
  (`StoreLimits.UnreceivedIsLost`), and delivery stays at least once if and only if every meta the checkpoint
  passes was received (`StoreLimits.DumpIsSafeIff`). The run theorems hold for all runs whose checkpoints are safe
  in this sense (`SafeRun`). A store could check it: it is enough that every passed meta is at or below the stored
  prev of every valid group, or that the proposal lies below the instance sampled at the start of the pass
  (`StoreSafety.AcknowledgedDumpIsSafe`). A pass that is one step is always safe. The source checks neither.
- A stored prev cursor can move back while a Get is between reading its pair and storing its prev: when another
  Get of the pair stores one, or when a replicated prev of the pair is executed, even during a single Get
  (`StorePrevLimits.OverlappingStoresMoveBack`, `StorePrevLimits.SyncDuringGetMovesBack`, both for every state of a
  common shape and both reached from the first state). When neither happens it never moves back
  (`StorePass.StoredPrevNeverDecreases`). Delivery at least once holds either way.
- Recovery of the lock service can bring a released lock back (`LockRecovery.ReleasedLockComesBack`,
  `LockRecovery.RecoveryIsExact`). Such a restart of one lock node can make two schedulers master at once
  (`LeaseLimits.HarmfulRestartMakesTwoMasters`, `LeaseLimits.HarmfulRestartCanCome`).
- A scheduler reads the lock after it samples its clock. From two milliseconds between the two on, two
  schedulers can be master at once (`LeaseLimits.TwoMasters`); below that never, unless a lock node restarts
  harmfully (`Leases.OneMaster`).
- `MakeAddRequests` reports an oversized item only when it is the first of its queue info; a later one goes into
  a request of its own (`Packing.PackFailsOnFirst`, `Packing.OversizedSecondGoesAlone`).
- The backlog is exact only below 2^31 metas (`StoreMetas.IndexesCountMetas`); 2^31 adds are counted as -2^31
  (`StoreMetas.BacklogTurnsNegative`).

## Assumptions

- Paxos yields one agreed, ordered log; a replica's log is cut only at or below its checkpoint; the
  configuration does not change; process restarts keep memory-mapped files and files.
- Consumers acknowledge by the default CustomGetRequest. `skip` in the configuration stands for SkipGet and
  ShouldSkip and depends on item, queue and group only.
- Executing one instance, and taking its values over into metas and cursors, is one step of a replica. In
  `StoreSolo` a whole Get is one step too; in `StoreRun` it is not.
- Client ids of schedulers differ. Their clocks and those of the lock nodes run at the same rate from any offsets
  and, a lease added, stay below 2^64. The lease is neither 0 nor unlimited, instance 0 of the lock group is no lock
  command, and no master is forced. A scheduler may restart under its id; it then forgets what it watched and that it
  was master. Any lock node may answer from its own map.
- A lock node's restart is harmless to a key (`LockRun.Harmless`) when its mirror holds the key, or when the first
  command after its checkpoint that creates the key, up to where its mirror ever was, was accepted in the agreed order.
- Hash functions, crc32 and random numbers are arbitrary functions; the detection half of the crc chain needs
  a collision-free one. Ranges of a queue info are sorted and disjoint where ranks are said to follow the order
  of queues; counts are at least -1.
- The ring used for store selection is cached per thread and topic in the source, not per pub; here it is any
  ring, and not empty when there are stores.
- A producer's requests hold between one and `batch_limit` items, as `MakeAddRequests` makes them, and
  3 * `batch_limit` is below 2^32.

## Model

| member | source | states |
|---|---|---|
| `StoreMetas.StoreMetaQueue.Next` | phxqueue/store/storemeta.cpp:122-156 | finds the first meta above the cursor (the front for the sentinel), if there is one; moves the dequeue mark to it only forward; the check fails exactly when it is ahead of the mark and its crc does not continue the mark's |
| `StoreMetas.StoreMetaQueue.PushBack` | phxqueue/store/storemeta.cpp:158-173 | appends exactly when the cursor is above every meta; index and crc are chained to the predecessor, or to the last dequeued meta when the queue is empty |
| `StoreMetas.StoreMetaQueue.Front` | phxqueue/store/storemeta.cpp:176-182 | the front is the smallest cursor |
| `StoreMetas.StoreMetaQueue.Back` | phxqueue/store/storemeta.cpp:184-190 | the back is the largest cursor |
| `StoreMetas.StoreMetaQueue.EraseFrontTill` | phxqueue/store/storemeta.cpp:192-201 | removes exactly the metas up to the cursor |
| `StoreMetas.StoreMetaQueue.UpdateDequeueStat` | phxqueue/store/storemeta.cpp:227-237 | the dequeue mark moves onto the first meta not below the cursor, only forward, and stays where it is when there is none |
| `StoreMetas.StoreMetaQueue.SizeGT` | phxqueue/store/storemeta.cpp:245-251 | the number of metas above the cursor modulo 32 bits, and exactly that number if and only if it is below 2^31 |
| `StoreMetas.IndexesCountMetas` | phxqueue/store/storemeta.cpp:158-251 | the same over every run of pushes, erasures, reads and marks from a new queue |
| `StoreMetas.BacklogTurnsNegative` | phxqueue/store/storemeta.cpp:245-251 | the bound is real: after 2^31 adds the count is -2^31 |
| `BaseMgrs.BaseMgr.GetBackLogByCursorID` | phxqueue/store/syncctrl.cpp:311-324 | the backlog is the number of metas, or of those above the cursor, exactly as long as the queue has fewer than 2^31 |
| `CrcChain.ApplyKeepsChain` | phxqueue/store/storemeta.cpp:92-173 | every operation that erases only what was handed out keeps the crc chain, through emptying and refilling |
| `CrcChain.NewQueueIsChained` | phxqueue/store/storemeta.cpp:158-173 | a new queue starts a chain |
| `CrcChain.ReaderInTurnNeverFails` | phxqueue/store/storemeta.cpp:122-156 | over every such run a reader that goes on from the last dequeued meta never sees a failed check |
| `CrcChain.CheckPassesIffNothingSkipped` | phxqueue/store/storemeta.cpp:139-153 | with a collision-free link the check passes if and only if no meta was left out |
| `SyncCtrls.SyncCtrl.AdjustNextCursorID` | phxqueue/store/syncctrl.cpp:120-146 | where a Get starts: the client's cursors when its next is the stored one, otherwise the stored prev, never below the stored prev |
| `SyncCtrls.SyncCtrl.UpdateCursorID` | phxqueue/store/syncctrl.cpp:148-171 | writes one field of one pair of the shared buffer and nothing else |
| `SyncCtrls.SyncCtrl.GetCursorID` | phxqueue/store/syncctrl.cpp:173-198 | a cursor counts only when its magic is in place |
| `SyncCtrls.SyncCtrl.SyncQueue` | phxqueue/store/syncctrl.cpp:327-375 | one detail of a replicated sync value: the cursors it moves, ended by the first group out of range with an error; without one it yields the prev by which the dequeue mark moves |
| `SyncCtrls.SyncTakesLargest` | phxqueue/store/syncctrl.cpp:327-375 | a whole sync value: both cursors of a pair become the largest prev the value lists for it if that is ahead of the stored prev or none is stored, otherwise the pair stays as it is |
| `SyncCtrls.UnknownGroupEnds` | phxqueue/store/syncctrl.cpp:336-366 | what a detail lists after its first group out of range has no effect |
| `SyncCtrls.UnknownDetailEnds` | phxqueue/store/syncctrl.cpp:327-375 | neither has what the value lists after that detail |
| `SyncCtrls.MaxPrevIsLargest` | phxqueue/store/syncctrl.cpp:335-370 | the prev by which the dequeue mark moves is the largest one listed, as long as none is the sentinel, which is never stored |
| `BaseMgrs.BaseMgr.Add` | phxqueue/store/basemgr.cpp:66-102 | a queue gets the instance id once, if it has items, is used by a pub and the id is new |
| `BaseMgrs.BaseMgr.NeedSkipAdd` | phxqueue/store/basemgr.cpp:104-154 | skips exactly when adding would change nothing |
| `BaseMgrs.BaseMgr.Turn` | phxqueue/store/basemgr.cpp:265-318 | one turn, from the log: it turns to the first meta above the cursor, or below the checkpoint to the next instance still in the log, and finds all items this instance holds for the queue, once each and in order, or one of the reasons to find none |
| `BaseMgrs.TurnFindsRight` | phxqueue/store/basemgr.cpp:265-318 | the same for the function that the loop theorems use |
| `StoreItems.ItemsAreStored` | phxqueue/store/basemgr.cpp:417-463 | an item is among those of an instance if and only if some value of the instance is an add to the queue that holds it, and its cursor is the instance |
| `StoreItems.SliceDelivers` | phxqueue/store/basemgr.cpp:417-463 | a slice of the log holds, for every position (instance, value, index in the add) of an item of the queue that the group does not skip, that item, each position once, in the order of positions, and nothing else |
| `BaseMgrs.BytesOfConcat` | phxqueue/store/basemgr.cpp:355-371 | the bytes of items add up |
| `BaseMgrs.BaseMgr.DequeueLoop` | phxqueue/store/basemgr.cpp:252-376 | the loop with its limits on turns, items, bytes, time budget and item age |
| `BaseMgrs.BaseMgr.Get` | phxqueue/store/basemgr.cpp:156-413 | the return code, the response and the new cursor pair of a Get that is not random, all error returns, nothing else changed; `StoreSolo.GetReturnsItems` says which items those are |
| `BaseMgrs.BaseMgr.Execute` | phxqueue/store/storesm.cpp:49-111 | a log value adds its instance id to the metas and moves the cursors; false only for an add to an unknown queue, or a queue or group of a sync value out of range, with what was done until then |
| `BaseMgrs.BaseMgr.SyncCursorID` | phxqueue/store/syncctrl.cpp:327-375 | a whole sync value, queue by queue up to the first queue or group out of range, which is an error: the cursors it moves, and the dequeue marks it moves or clears |
| `KeepSync.CheckPointStat.UpdateCheckPointAndFlush` | phxqueue/store/checkpointstat.cpp:114-127 | the stored checkpoint becomes the given one |
| `KeepSync.KeepSyncThread.DumpCheckPoint` | phxqueue/store/keepsyncthread.cpp:256-284 | the stored checkpoint never moves back |
| `KeepSync.KeepSyncThread.FindSlowestGroup` | phxqueue/store/keepsyncthread.cpp:194-213 | the smallest set prev of the valid groups, and whether every one of them has one |
| `KeepSync.KeepSyncThread.ScanQueue` | phxqueue/store/keepsyncthread.cpp:193-236 | a meta is left if and only if it was there and some valid group has no prev or one below it; the smallest one left lowers the proposal to one below it; the pass ends early when instance 0 is left |
| `KeepSync.KeepSyncThread.MakeCheckPoint` | phxqueue/store/keepsyncthread.cpp:177-253 | a whole pass over the queues of a group leaves in each what some valid group still waits for, and the checkpoint becomes one below the smallest meta left, or one below the instance being decided when nothing is left, unless it would move back |
| `KeepSync.KeptIsLeft` | phxqueue/store/keepsyncthread.cpp:194-221 | what is erased is exactly what every valid group has acknowledged |
| `KeepSync.PassConcludes` | phxqueue/store/keepsyncthread.cpp:177-284 | the same of a whole pass on values: metas left in every queue of the group, other queues untouched, the checkpoint proposed and the one stored |
| `KeepSync.KeepSyncThread.SyncCursorID` | phxqueue/store/keepsyncthread.cpp:308-335 | the proposed sync value holds every stored prev of the group's queues and nothing else |
| `KeepSync.SlowestIsSlowest` | phxqueue/store/keepsyncthread.cpp:194-213 | what that means: no valid group with a set prev is below the cursor found, one is at it if there is one, and the flag is down exactly when a valid group has none |
| `StoreSafety.ErasedWasAcknowledged` | phxqueue/store/keepsyncthread.cpp:217-221 | over the pass of the machine: only what every valid group acknowledged is erased |
| `StoreSafety.InstancePushesOnce` | phxqueue/store/storesm.cpp:49-111 | an instance adds its id to the metas of exactly the queues it holds items for, once, however many values it holds |
| `StoreSafety.CheckpointIsBelowMetas` | phxqueue/store/keepsyncthread.cpp:223-253 | after a pass that is one step the checkpoint is not lower and behind what was executed; when it moved it is below every meta left, and it stays below them when it was so before |
| `StoreSafety.PassDumpKeepsInv` | phxqueue/store/keepsyncthread.cpp:242-253 | ending an interleaved pass keeps the invariant when every meta its checkpoint passes was received by every valid group |
| `StoreSafety.AcknowledgedDumpIsSafe` | phxqueue/store/keepsyncthread.cpp:194-253 | what a store could check for that: every passed meta is at or below the stored prev of every valid group, or the proposal lies below the instance sampled at the start |
| `StoreSafety.StepKeepsInv` | phxqueue/store/basemgr.cpp:156-413 | every step of the group's machine, on any replica, keeps the invariant, an interleaved checkpoint when all it passes was received: an executed add is among the replica's metas or was received by every valid group |
| `StoreSafety.AcknowledgedWasReceived` | phxqueue/consumer/consumer.cpp:1037-1041 | at least once, over every run with several replicas, lost, delayed or repeated responses, restarts, checkpoint transfer, truncation and interleaved passes whose checkpoints pass only what was received: every item that an add in the log holds at or below any replica's stored prev, and that the group does not skip, was received by the group |
| `StoreSafety.NothingIsLost` | phxqueue/store/keepsyncthread.cpp:187-284 | over every such run, for every item that an add in the log holds: its instance, once executed, is among the metas or the item was received; received if at or below the checkpoint; the log is only cut below it |
| `StoreGets.TurnExtendsSlice` | phxqueue/store/basemgr.cpp:265-357 | a turn adds what the log slice gains up to the instance it turns to |
| `StoreGets.LoopIsSlice` | phxqueue/store/basemgr.cpp:252-376 | a successful loop returns exactly the items of the log between start and end, across the switch from log to metas |
| `StoreGets.LoopStopsFirst` | phxqueue/store/basemgr.cpp:252-376 | the loop makes turns up to the first reason to stop and no further: 512 turns, the item limit reached or about to be passed, the time budget, an item with too late an access time, the byte limit, or nothing left; it fails only on an instance it cannot read before that |
| `StoreGets.LoopBoundsBytes` | phxqueue/store/basemgr.cpp:355-371 | a response overshoots the byte limit by at most one instance |
| `StoreGets.LoopStopsAtLate` | phxqueue/store/basemgr.cpp:328-334 | nothing up to the returned next starts later than the request's time |
| `StoreGets.StuckMeansDrained` | phxqueue/store/basemgr.cpp:252-376 | a Get that does not advance has nothing left to return, or the next item is too young |
| `StoreGets.GetIsSteps` | phxqueue/store/basemgr.cpp:156-413 | the Get method is a run of the machine's small steps: begin, turns, two cursor updates |
| `StoreSolo.StartIsStored` | phxqueue/store/syncctrl.cpp:120-146 | whatever a client sends, it resumes at the stored next if it names it, otherwise at the stored prev, or from the beginning |
| `StoreSolo.LoopAdvances` | phxqueue/store/basemgr.cpp:252-376 | the loop only moves forward and never onto the sentinel |
| `StoreSolo.CursorPairsOnlyMoveForward` | phxqueue/store/basemgr.cpp:379-399 | over every run of one replica with Gets of arbitrary clients taken one at a time: prev never decreases, prev <= next, a set prev has a set next, the sentinel is never stored |
| `StoreSolo.CheckpointIsAcknowledged` | phxqueue/store/keepsyncthread.cpp:187-284 | over every such run everything at or below the checkpoint was acknowledged by all valid groups |
| `StoreSolo.GetReturnsSlice` | phxqueue/store/basemgr.cpp:252-376 | a step to the next one: in every reachable state the items of a successful Get of a valid group are the slice of the log from its start to the returned next, at most `limit` unless of one instance |
| `StoreSolo.GetReturnsItems` | phxqueue/store/basemgr.cpp:252-376 | in every reachable state a successful Get of a valid group returns, for every position (instance, value, index) after its start and up to the returned next where the log holds an item for the queue that the group does not skip, that item with the instance as its cursor, each position once, in log order, and nothing else |
| `StorePass.AtomicPassStaysBelowNow` | phxqueue/store/keepsyncthread.cpp:184-245 | a pass that is one step proposes something below the instance sampled at its start |
| `StoreSafety.DumpIsBelowMetas` | phxqueue/store/keepsyncthread.cpp:242-253 | a proposal below the instance sampled at the start is safe: below every meta left, whatever was executed during the pass |
| `StoreLimits.RacyPassPassesByAnItem` | phxqueue/store/keepsyncthread.cpp:187-244 | the source's pass is not one step: for every sampled instance and every proposal at or above it there is an interleaving in which the checkpoint passes an item nobody has read |
| `StoreLimits.RacyRunLosesAnItem` | phxqueue/store/keepsyncthread.cpp:187-284 | a run from the first state, through an interleaved pass, a restart and one more add, after which a group has acknowledged an item it never received |
| `StoreLimits.UnreceivedIsLost` | phxqueue/store/keepsyncthread.cpp:242-284 | from every state of the invariant: a checkpoint that passes an item some group has not received can be followed by a state in which that group's stored prev covers the item |
| `StoreLimits.DumpIsSafeIff` | phxqueue/store/keepsyncthread.cpp:242-284 | so the condition of the run theorems is exact: delivery stays at least once whatever follows such a checkpoint, up to the next unsafe one, if and only if every meta it passes was received |
| `StorePass.CheckpointNeverDecreases` | phxqueue/store/keepsyncthread.cpp:256-284 | over every run a checkpoint moves back only when another replica's is loaded |
| `StorePass.StepsStayPossible` | phxqueue/store/keepsyncthread.cpp:124-254 | over every run with safe checkpoints the background steps and turns can be taken in the state reached |
| `StorePass.RestartRebuildsMetas` | phxqueue/store/storesm.cpp:113-135 | executing from the checkpoint after a restart rebuilds exactly the ids above it that hold items for the queue |
| `StorePass.RestartForgetsNothing` | phxqueue/store/storesm.cpp:113-135 | over every run with safe checkpoints a restart gets back every meta that some group still waits for, and nothing besides but what every valid group received |
| `StorePass.StoredPrevNeverDecreases` | phxqueue/store/basemgr.cpp:379-399 | over every run, from any state: a stored prev never moves back as long as no Get of the pair stores its prev after another Get of the pair, or a replicated prev of it, was stored since it began |
| `StorePrevLimits.OverlappingStoresMoveBack` | phxqueue/store/basemgr.cpp:379-399 | in every state in which a consumer has read on past the stored prev, two overlapping Gets move that prev back |
| `StorePrevLimits.SyncDuringGetMovesBack` | phxqueue/store/syncctrl.cpp:327-375 | in every state in which a later prev is on its way from another replica, executing it during one Get moves the stored prev back |
| `StorePrevLimits.OverlapCanCome` | phxqueue/store/basemgr.cpp:379-399 | a run from the first state to such an overlap |
| `StorePrevLimits.SyncDuringGetCanCome` | phxqueue/store/basemgr.cpp:379-399 | a run from the first state to such a replicated prev |
| `LockDbs.LockDb.GetRecord` | phxqueue/lock/lockdb.cpp:434-469 | lookup with its error cases |
| `LockDbs.LockDb.SetRecord` | phxqueue/lock/lockdb.cpp:471-502 | one record is written; the mirror drops the deadline |
| `LockDbs.LockDb.DeleteRecord` | phxqueue/lock/lockdb.cpp:504-523 | one record is removed |
| `LockDbs.LockDb.AcquireLock` | phxqueue/lock/lockdb.cpp:207-257 | compare and set under the record's version, all return codes; an accepted record is written with the deadline (now + lease) modulo 2^64, or 0 for an unlimited lease, by the map and as given by the mirror; lease 0 removes the record; nothing else changes |
| `LockDbs.LockDb.VersionSetString` | phxqueue/lock/lockdb.cpp:135-177 | the same, but version -1 is unconditional |
| `LockMgrs.LockMgr.ExecuteMap` | phxqueue/lock/locksm.cpp:34-181 | a command reaches the map under its instance id with the deadline (now + lease) modulo 2^64; last_instance_id moves even when it is refused |
| `LockMgrs.LockMgr.ExecuteMirror` | phxqueue/lock/locksm.cpp:82-103 | a command reaches the mirror; checkpoints move only when it is accepted, the disk checkpoint only when synced |
| `LockMgrs.LockMgr.WriteDiskCheckpoint` | phxqueue/lock/lockmgr.cpp:229-254 | disk and memory checkpoint move together, never to the sentinel |
| `LockMgrs.LockMgr.Init` | phxqueue/lock/lockmgr.cpp:86-161 | the map holds exactly the mirror's records without reserved keys, with deadlines a lease from now; a larger restart checkpoint replaces the disk checkpoint |
| `LockMgrs.LockMgr.CleanCommand` | phxqueue/lock/cleanthread.cpp:178-196 | the cleaner's command exists exactly when the record has a finite lease and its deadline is over, and removes the record only while it has the same version |
| `LockMgrs.OverdueAfterLease` | phxqueue/lock/cleanthread.cpp:178-196 | so while the record of a command accepted at some time stands, there is no such command up to that time plus the lease and there is one at every later time; never when the lease is unlimited |
| `LockMgrs.LockMgr.WriteRestartCheckpoint` | phxqueue/lock/cleanthread.cpp:226-259 | the restart checkpoint is written exactly under its guard |
| `LockRecovery.ApplyAgain` | phxqueue/lock/lockdb.cpp:135-257 | executing a command again on records that are already past it brings no key further from the clean run |
| `LockRecovery.KeyRecovers` | phxqueue/lock/lockmgr.cpp:86-161 | replaying any suffix on a mirror that is ahead restores a key, even with deletions and unconditional strings, when the mirror held it or the first command found to create it was accepted before |
| `LockRecovery.RecoveryWithoutDeletes` | phxqueue/lock/lockmgr.cpp:86-161 | without lease-0 commands the replayed records equal those of one clean execution |
| `LockRecovery.RecoveryIsExact` | phxqueue/lock/lockmgr.cpp:86-161 | with deletions and unconditional strings the records are equal if and only if no deleted key is created again by a command refused before; for logs in which, up to the instance replayed to, no command names the version of a refused one on the same key, so not past the first that was made from a resurrected record |
| `LockRecovery.ReleasedLockComesBack` | phxqueue/lock/lockmgr.cpp:86-161 | a concrete log in which a released lock comes back |
| `LockRun.CheckpointsAreSound` | phxqueue/lock/cleanthread.cpp:226-259 | over every run with crashes and interleaved reads, the mirror has executed every command at or below the disk and the restart checkpoint |
| `LockRun.KeyRecoversOverRuns` | phxqueue/lock/lockmgr.cpp:86-161 | over every run with crashes harmless to a key, deletions included, a map that has caught up with the mirror holds for the key what one clean execution holds |
| `LockRun.RecoveryIsClean` | phxqueue/lock/lockmgr.cpp:86-161 | over every run without deletions, once the map has caught up with the mirror it equals one clean execution |
| `KeepMasters.KeepMasterThread.KeepMaster` | phxqueue/scheduler/keepmasterthread.cpp:120-210 | one round: it watches a new version for a lease from the sampled time, asks for the lock under the version read when it holds it or has watched it for long enough, and an accepted request renews mastership to the sampled time plus the lease |
| `KeepMasters.SchedulerMgr.RenewMaster` | phxqueue/scheduler/schedulermgr.cpp:201-205 | the expiry becomes the given time |
| `Leases.StepKeepsInv` | phxqueue/lock/lock.h:60-90 | every step of schedulers, lock nodes and cleaner, other than a harmful restart, keeps the lease invariant; nodes answer from their own maps, behind or recovered |
| `Leases.DeadlinesKeepInv` | phxqueue/lock/lockdb.cpp:245-250 | a node sets the deadline from its own clock when it executes or reloads a record, which is after the command was chosen; so no cleaner finds a record overdue within a lease of that |
| `Leases.AckIsSuccess` | phxqueue/lock/lockdb.cpp:207-257 | a node that accepts a lock request, even while it replays, accepts what the agreed order accepts |
| `Leases.LeasesExclude` | phxqueue/scheduler/keepmasterthread.cpp:149-210 | of two leases with different owners the earlier one ends less than the read delay after the later one starts |
| `Leases.MastersOverlapBriefly` | phxqueue/scheduler/schedulermgr.cpp:207-223 | over every run without a harmful restart two schedulers are master together only within the read delay after the later lease was taken |
| `Leases.OneMaster` | phxqueue/scheduler/schedulermgr.cpp:207-223 | over every such run never two masters while a read follows its clock sample within one millisecond |
| `LeaseLimits.TwoMasters` | phxqueue/scheduler/keepmasterthread.cpp:149-176 | the bound is exact: with a delay of two milliseconds, for every lease length and all clock offsets, a run without any restart of a lock node has two masters |
| `LeaseLimits.HarmfulRestartMakesTwoMasters` | phxqueue/lock/lockmgr.cpp:86-161 | so is the condition on restarts: after any run, a harmful restart of a node can be followed by two masters, without read delay or another restart, when there is another node and a scheduler that may join |
| `LeaseLimits.HarmfulRestartCanCome` | phxqueue/lock/lockmgr.cpp:86-161 | a run from the first state to a harmful restart |
| `Rings.Seek` | phxqueue/consumer/consumer.cpp:859-860 | lower_bound with wraparound |
| `Rings.BuildRing` | phxqueue/consumer/consumer.cpp:831-846 | the ring holds exactly the points of the listed nodes and scales, each for the first node listed with it |
| `Rings.RingHolds` | phxqueue/consumer/consumer.cpp:831-846 | the same for the function that the ring theorems use |
| `Rings.PickOwns` | phxqueue/consumer/consumer.cpp:848-866 | a node is picked if and only if a point of it, with no earlier node listed at that point, is the least listed point not below the hash, or the least of all when none is |
| `Rings.ConsistenHash.Init` | phxqueue/comm/utils/hash_util.h:39-57 | the ring holds exactly the points of the listed nodes, each for the first node listed with it; an empty list leaves it as it was |
| `Rings.ConsistenHash.PickNodeByKey` | phxqueue/comm/utils/hash_util.h:59-67 | the node at the least point not below the key's hash, or at the least of all when there is none |
| `Rings.GetQueueByAddrScale` | phxqueue/consumer/consumer.cpp:816-872 | a queue is taken if and only if, modulo 2^32, a point of the local address, with no earlier one listed at that point, is the least listed point not below the queue's hash, or the least of all when none is |
| `Rings.QueuesArePartitioned` | phxqueue/consumer/consumer.cpp:816-872 | with one view each queue is taken by exactly one consumer, which is in the view |
| `Rings.LoweringMovesOnlyFrom` | phxqueue/consumer/consumer.cpp:831-846 | lowering a scale or removing a node moves only that node's keys, collisions and wraparound included; read backwards, raising moves keys only to it |
| `Rings.LeavingIsZero` | phxqueue/consumer/consumer.cpp:831-846 | leaving the view is the same as scale zero |
| `Rings.OthersKeepTheirQueues` | phxqueue/consumer/consumer.cpp:848-866 | all other consumers keep their queues, and the lowered one gains none |
| `SlotBuffer.HeartBeatLock.ClearInvalidConsumerGroupIDs` | phxqueue/consumer/hblock.cpp:181-193 | frees exactly the slots of groups that are not valid |
| `SlotBuffer.HeartBeatLock.KeepAssigned` | phxqueue/consumer/hblock.cpp:209-234 | the first loop keeps one slot per pending queue and frees the rest of the group's slots |
| `SlotBuffer.HeartBeatLock.FillFree` | phxqueue/consumer/hblock.cpp:236-260 | the second loop fills free slots with the queues left |
| `SlotBuffer.HeartBeatLock.DistubeGroup` | phxqueue/consumer/hblock.cpp:200-261 | one group's turn: distinct pending queues, running ones kept, other groups untouched, a queue left out only when no slot is free |
| `SlotBuffer.HeartBeatLock.DistubePendingQueues` | phxqueue/consumer/hblock.cpp:195-273 | the same for all listed groups together |
| `HandleBuckets.Consumer.MakeHandleBuckets` | phxqueue/consumer/consumer.cpp:200-235 | each item goes to one bucket, items of one uin share it, and a bucket is shared otherwise only when all are in use |
| `HandleBuckets.Consumer.ProcessAllHandleTasks` | phxqueue/consumer/consumer.cpp:415-423 | a bucket is handled front to back |
| `HandleBuckets.InOrder` | phxqueue/consumer/consumer.cpp:415-423 | under any interleaving an item begins only after all earlier items of its bucket were handled |
| `HandleBuckets.SameUinInOrder` | phxqueue/consumer/consumer.cpp:200-235 | items of one nonzero uin are handled in the order in which they were fetched, under any interleaving |
| `HandleBuckets.HandledOnce` | phxqueue/consumer/consumer.cpp:415-423 | under any interleaving no item is handled twice |
| `HandleBuckets.FinishedMeansDrained` | phxqueue/consumer/consumer.cpp:295-315 | the counter reaches the number of items exactly when all buckets are drained and idle |
| `Packing.MakeAddRequests` | phxqueue/producer/producer.cpp:219-300 | grouping by queue info and packing, with what is left on failure |
| `Packing.ForKeyEnumerates` | phxqueue/producer/producer.cpp:219-243 | the list of a queue info holds the updated items that go to it, once each and in the order given, and nothing else |
| `Packing.ResultIsByQueueInfo` | phxqueue/producer/producer.cpp:245-299 | the requests are those of the lists of the queue infos one after the other, up to the first list that fails |
| `Packing.PackGroup` | phxqueue/producer/producer.cpp:245-299 | the packing loop |
| `Packing.PackCutsGreedily` | phxqueue/producer/producer.cpp:246-297 | the requests of a list are its pieces in order, each within the limits or one oversized item, and each ended only because the next item had no room under one of the limits |
| `Packing.BytesOfPrefix` | phxqueue/producer/producer.cpp:254-268 | the sizes of items add up |
| `Packing.PackFailsOnFirst` | phxqueue/producer/producer.cpp:254-266 | packing a list fails if and only if its first item breaks a limit by itself |
| `Packing.FailsOnSomeFirst` | phxqueue/producer/producer.cpp:245-266 | the whole call fails if and only if some list's first item does |
| `Packing.OversizedSecondGoesAlone` | phxqueue/producer/producer.cpp:254-296 | an oversized item in second place goes alone; the same two items in the other order fail |
| `Packing.PackConserves` | phxqueue/producer/producer.cpp:246-297 | requests hold the list's items once each, in order, within the limits or as one oversized item |
| `Packing.EveryItemPackedOnce` | phxqueue/producer/producer.cpp:219-300 | the same for all queue infos together |
| `Packing.PackingIsMinimal` | phxqueue/producer/producer.cpp:246-297 | no split into requests within the limits has fewer requests |
| `GroupCommit.BatchTask.Add` | phxqueue/producer/batchhelper.cpp:121-130 | a task joins and the 32-bit counters follow |
| `GroupCommit.BatchTask.IsReady` | phxqueue/producer/batchhelper.cpp:132-147 | a batch with items and a set start is ready when twice one of its 32-bit counters reaches its limit or its delay is over; otherwise the time at which it will be |
| `GroupCommit.BatchTask.BatchRequest` | phxqueue/producer/batchhelper.cpp:149-167 | the added request holds all items in arrival order |
| `GroupCommit.AllItemsJoin` | phxqueue/producer/batchhelper.cpp:149-167 | the request of a list of calls is that of its parts joined, and of one call its items |
| `GroupCommit.BatchHelper.BatchRawAdd` | phxqueue/producer/batchhelper.cpp:380-397 | a call joins the open batch and takes it when ready, otherwise waits |
| `GroupCommit.BatchHelper.DispatchBatchTask` | phxqueue/producer/batchhelper.cpp:260-294 | returns at once before the time set by the last pass; otherwise ready batches go to idle routines, one stays only if not ready or no routine is idle, and the earliest time at which one becomes ready is set |
| `GroupCommit.EarlyPassMissesNothing` | phxqueue/producer/batchhelper.cpp:260-294 | a batch that the last pass left unready stays so until the time it set, or for ever when it set none, while no call joins it |
| `GroupCommit.RequestsAreConserved` | phxqueue/producer/batchhelper.cpp:344-415 | under any interleaving the requests of a queue are, in arrival order, those of its batches and of its open batch |
| `GroupCommit.EveryCallAnsweredOnce` | phxqueue/producer/batchhelper.cpp:149-177 | every call of an added batch has that batch's return code, nobody else has one, and no call is in two batches |
| `GroupCommit.OpenCallsWait` | phxqueue/producer/batchhelper.cpp:390-404 | a call of an open batch waits with a notifier |
| `GroupCommit.OpenBatchIsSmall` | phxqueue/producer/batchhelper.cpp:132-147 | an open batch is below half of both limits, as far as the counters' 32 bits go, whatever the requests hold |
| `GroupCommit.OpenBatchIsUnderHalf` | phxqueue/producer/batchhelper.cpp:121-147 | over every run of packed requests the item counter does not wrap: an open batch holds less than half of the items a batch may hold |
| `GroupCommit.OpenBatchBecomesReady` | phxqueue/producer/batchhelper.cpp:121-147 | in every reachable state an open batch can become ready if and only if its 32-bit item count is not zero and its start is set; then it is ready from start plus delay on |
| `GroupCommit.EveryCallCanBeAnswered` | phxqueue/producer/batchhelper.cpp:149-294 | so over every run of packed requests all callers of an open batch can be answered by one dispatch once its delay is over |
| `Ranks.GetNQueue` | phxqueue/config/topicconfig.cpp:404-414 | number of queues |
| `Ranks.GetQueueByRank` | phxqueue/config/topicconfig.cpp:416-433 | queue of a rank for any list of ranges, in the source's 32-bit arithmetic, none past the end |
| `Ranks.RankIsDefined` | phxqueue/config/topicconfig.cpp:416-433 | a rank names a queue exactly when it is below the number of queues |
| `Ranks.RankIsIncreasing` | phxqueue/config/topicconfig.cpp:416-433 | ranks follow the order of the queues |
| `Ranks.RankOf` | phxqueue/config/topicconfig.cpp:416-433 | every queue has a rank |
| `Ranks.RetriesVisitEveryQueue` | phxqueue/config/topicconfig.cpp:435-445 | as many successive switching retries as queues visit each queue exactly once, from any hash |
| `Ranks.QueueSelector.GetQueueID` | phxqueue/producer/selector.cpp:55-93 | with n queues the one of rank (hash + retry) modulo n, retry counted only when switching; none without queues; the retry count rises by one |
| `Ranks.GetQueueInfoIDByCount` | phxqueue/config/topicconfig.cpp:481-503 | the ladder with its error returns |
| `Ranks.ItemClimbsLadder` | phxqueue/config/topicconfig.cpp:481-503 | an item is at a queue info exactly for the counts that are its own, after all earlier ones |
| `Ranks.MissingInfoIsError` | phxqueue/config/topicconfig.cpp:481-503 | a queue info that is missing is an error exactly for the counts that get as far |
| `Ranks.ItemDroppedAfterAll` | phxqueue/config/topicconfig.cpp:481-503 | it is dropped exactly when all counts are bounded and used up |
| `StoreSelect.StoreSelector.GetStoreID` | phxqueue/producer/selector.cpp:197-241 | the search loop, which ends for every way in which stores may be blocked; without switching, and on a first call whose choice is not blocked, the store of the least point not below the call's hash, or of the least point of all; an error without stores |
| `StoreSelect.FirstLands` | phxqueue/producer/selector.cpp:223-226 | the same for the search function, at the first candidate |
| `StoreSelect.StoreSelector.FindNearest` | phxqueue/producer/selector.cpp:208-222 | the untried store with the smallest next point |
| `StoreSelect.NearestIsNearest` | phxqueue/producer/selector.cpp:208-222 | no untried store has a smaller next point |
| `StoreSelect.SearchFindsUntried` | phxqueue/producer/selector.cpp:197-241 | with switching a call returns a store that is not blocked: the one where the hash lands on a first call, the untried one with the smallest next point on a retry; or, when all stores with points were tried, the store at hash modulo the number of stores |
| `StoreSelect.RetriesSwitchStores` | phxqueue/producer/selector.cpp:197-241 | over all successive calls the stores that are no fallback are distinct, and a fallback comes only when every store with points was chosen by an earlier call or was found blocked |

## Left out

- Paxos, LevelDB, files and memory mapping, protobuf, RPC, threads, coroutines and pipes: the log, maps and
  steps stand for them; their failures are not modelled, except that reading an instance may fail.
- Random Gets, Replay, ClearSyncCtrl and configuration reload: they move or drop cursors on purpose.
- Negative consumer group or queue ids in a Get or a sync value index outside the cursor buffer in the source, and a
  detail without groups for an unknown queue outside the meta queues; the model starts at 0 and excludes the latter.
- EraseFrontUntill and VersionDeleteString, which no active code calls.
- ForwardLoopKey: which record the cleaner looks at next; any expired record may be deleted at any time.
- The local delete after PaxosAcquireLock with lease 0 (phxqueue/lock/lock.cpp:428-436): it acts outside the log.
- The release path of HeartBeatLock, which is never taken, and its readers of the slot array.
- Scheduler load balancing, FreqMan, loggers, breakpoints, factories, address encoding, file loading.
- Parse and serialisation errors, and commands on the reserved keys of the mirror.
- StoreSafety.StepKeepsInv: not for a checkpoint that passes what a group has not received; it breaks the invariant.
- StoreSafety.PassDumpKeepsInv: not for such a checkpoint, as above.
- StoreSafety.AcknowledgedWasReceived: not for runs with such a checkpoint, in which it is false.
- StoreSafety.NothingIsLost: not for runs with such a checkpoint; `StoreLimits.RacyRunLosesAnItem` is one.
- StorePass.StepsStayPossible: not for runs with such a checkpoint.
- StorePass.RestartForgetsNothing: not for runs with such a checkpoint, after which a restart may forget metas.
- Leases.StepKeepsInv: not for a harmful restart of a lock node, which breaks the invariant.
- Leases.MastersOverlapBriefly: not for runs with a harmful restart, in which it is false.
- Leases.OneMaster: not for runs with a harmful restart, in which it is false.
- KeepSync.KeepSyncThread.MakeCheckPoint: one pass with nothing in between; `StoreRun` has the pass queue by queue.
- StoreSolo.CursorPairsOnlyMoveForward: a Get is one step there; `StorePass.StoredPrevNeverDecreases` is about the
  small steps.
- LockRecovery.RecoveryIsExact: not for a log that goes on from a resurrected record; take the instance before.
- LockRun.RecoveryIsClean: for logs without lease-0 commands; with them `LockRun.KeyRecoversOverRuns` speaks of each key.
- StoreSolo.CheckpointIsAcknowledged: not for a checkpoint loaded from another replica, whose cursors this
  replica need not have; `StoreSafety.NothingIsLost` covers that case with what was received.
- GroupCommit.BatchHelper.BatchRawAdd: the split of slots over daemon threads is left out, since a queue always
  has the same thread.
