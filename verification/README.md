# A verified model of the Xion file store

This project models the storage core of AstraStore Xion in Dafny and proves what its design
promises, or the exact condition under which the code keeps the promise:

* **the disk store** (`pkg/files/store.go`, `pkg/files/recovery.go`): one object over a small
  file system with active files, trash, upload sessions and quarantine, and an incrementally
  maintained usage index for owner quotas;
* **the resumable upload protocol** end to end: the Python client's chunk and retry loops, the
  `Content-Range` header, the gateway's checks, and the store's append and completion;
* **the replication queue** (`pkg/replication/manager.go`): persisted jobs, one worker,
  exponential backoff, crashes and restarts, against a replica that is itself a disk store;
* **the consistent-hash ring** (`pkg/balance/consistent_hash.go`).

## How the model is built

| file | holds |
|---|---|
| `Basics.dfy`, `Text.dfy`, `Maps.dfy` | value types, the string library calls, facts about finite maps |
| `Accounting.dfy` | one bucket of the usage index against a rescan, with 64-bit wrap-around |
| `Disk.dfy`, `Trails.dfy` | the data directory, how records are read, the atomic steps of each operation |
| `StoreSpec.dfy` | each store operation as a function on the whole state |
| `Invariants.dfy`, `Quota.dfy`, `Soundness.dfy`, `Exact.dfy` | what every operation keeps: sound files, an index that agrees with a rescan in bytes and in record counts, and what each owner pays |
| `Billing.dfy` | the same for the quota alone, on directories that need not be sound |
| `Outcomes.dfy` | when each operation succeeds, and what can be read afterwards |
| `Recovery.dfy`, `Crash.dfy`, `CutOff.dfy` | Recover and the sweep; where an operation can be cut off, what that costs, and which crashes heal |
| `Operations.dfy`, `OneStep.dfy` | what can happen to a store (operations, failures at any call, crashes at any step, restarts), and what one such step keeps |
| `Runs.dfy`, `Lifecycle.dfy` | whole runs; what becomes of one file or upload over them |
| `DiskStore.dfy` | the store as a class: file-system calls one by one, each of which may fail, proved against `StoreSpec` |
| `StoreRuns.dfy` | every call on the class is a step of a run, and every directory it passes through one that a crash can leave |
| `SessionSort.dfy` | the in-place sort of the session listing |
| `ContentRange.dfy`, `LimitReader.dfy`, `Gateway.dfy`, `UploadClient.dfy` | the upload protocol |
| `Backoff.dfy`, `JobQueue.dfy`, `JobRuns.dfy`, `JobManager.dfy`, `Replication.dfy` | the replication queue and its effect on the replica |
| `Ring.dfy` | the hash ring |

The file system is a record of maps in which a rename is one atomic step; a crash can fall
between any two steps. `DiskStore.DiskStore` takes those steps one at a time, records the
directory after each in a ghost trail, and lets any call fail; its methods are proved equal to
the functions in `StoreSpec`, and the theorems are about those functions, about runs made of
them, and about the trails. A run (`Operations.Run`) has three kinds of trouble: a call that fails
before the operation commits, a call that fails so late that the operation cannot be undone, and
the end of the process anywhere within an operation. Runs without late failures, in which a crash
leaves the directory that the operation or a failure before its commit would leave, with nothing
but temporary files next to it, and Recover follows, are called orderly. Late failures always end soundness
(`Runs.LateIsNeverGood`), and so do the crashes that do not heal (the lemmas of `Crash` say which);
neither endangers the quota.

SHA-256, CRC32, generated identifiers, the clock, the pause threshold and the order in which a
directory is listed are parameters. Collision-freedom of the checksum appears only where it is
needed, as the assumption that a damaged chunk does not carry the checksum of the chunk that was
sent.

`dafny verify dfyconfig.toml` checks everything.

## Where code and comments disagree

The model follows the code in each case.

* `pkg/files/recovery.go:293-294` says that quarantine never overwrites an entry. The stamped
  name is not checked again: a third artifact of one name at the clock reading of the second
  replaces it (`Recovery.OldEvidenceKeptIff`, `Recovery.EvidenceCanBeOverwritten`).
* `pkg/files/recovery.go:164-168` leaves unreadable sessions for Recover to quarantine. Recover
  takes only sessions that have no manifest at all; a session whose part and manifest disagree
  blocks the store for good (`Recovery.RecoverReadyIff`, `Crash.InterruptedAppendBlocksTheStore`).
* `pkg/files/recovery.go:45-48` says that Recover touches the temporary files the package writes.
  The probe file of the readiness check is not among them (`Crash.ProbeCrashNeverHeals`).
* `client/python/astrastore_xion/client.py:182-187` promises an upload that continues after an
  interruption. The loop always opens a new session, and a chunk survives if and only if the
  exchange in which the session takes it is itself answered; when that reply is lost every retry is
  refused and the whole upload is abandoned (`UploadClient.Client.PutChunk`,
  `UploadClient.Client.UploadLargeFile`).
* `core/apigateway/main.go:75-77` says that Recover repairs what a killed process leaves behind.
  It does for a Put or a StartUpload before its first rename. The removals of AbortUpload, the sweep
  and PurgeTrash heal between two directories, and within one if and only if it is a session whose
  manifest went first (`Runs.RemovalCrashHealsIff`). Any other step of Put, AppendUpload,
  CompleteUpload, Delete and Restore before the last leaves a store that never becomes ready again
  (`CutOff.PutCutHealsIff`, `Crash.AppendCrashHealsIff`, `Crash.CompleteCrashHealsIff`,
  `Crash.DeleteCrashHealsIff`, `Crash.RestoreCrashHealsIff`).
* The repository's own `README.md:167` says that background jobs bring the file to the replica and are retried when they
  fail. `core/apigateway/handlers.go:195-221` makes the replica delete a file again when the request
  that carried it does not end well, however late that shows. If an execution has meanwhile found
  the file there, the job stays completed and the file is in the replica's trash
  (`Replication.CompletedIsReplicated`, `Replication.LateCleanupUndoesReplication`).
* The quota test itself wraps at 64 bits: an owner whose bytes exceed the limit by more than 2^63
  but not by more than 2^64 is let in (`Quota.QuotaGateIsRightIff`).
* The backoff loop wraps at 64 bits for some configurations (`Backoff.BackoffIsExponentialIff`,
  `Backoff.LargestPowerWraps`).

## Model

| member | source | states |
|---|---|---|
| `Text.EqualFoldIff` | pkg/files/store.go:525 | two checksums match if and only if they have the same length and the same letters and digits but for case |
| `Text.AllHexIff` | pkg/files/store.go:1536-1542 | a checksum is hexadecimal if and only if each of its characters is |
| `Accounting.NormalizeIdempotent` | pkg/files/store.go:1437-1443 | an owner that is normalized again stays the same |
| `Accounting.ReleaseAgrees` | pkg/files/store.go:825-858 | releasing a record keeps every owner's bytes equal to a rescan's, for every size |
| `Accounting.ChargeAgreesIff` | pkg/files/store.go:825-852 | charging a record keeps them equal if and only if the owner's bytes still fit 64 bits |
| `Accounting.ReleaseExactIff` | pkg/files/store.go:825-852 | when a release gives exactly the rescan's bucket, record counts included |
| `Accounting.ChargeExactIff` | pkg/files/store.go:825-852 | when a charge gives exactly the rescan's bucket, record counts included |
| `Accounting.PositiveSizesStayExact` | pkg/files/store.go:825-852 | with positive sizes only, releases stay exact |
| `Accounting.RecordsStayNonNegative` | pkg/files/store.go:825-852 | no update ever shows an owner a negative number of records |
| `Accounting.RescanAdd` | pkg/files/store.go:734-813 | adding one record to the rescan's bucket is the bucket of the larger set |
| `Accounting.SameBytesSameCapacity` | pkg/files/store.go:125-131 | buckets that show every owner the same bytes add up to the same total |
| `Accounting.ShownCounts` | pkg/files/store.go:133-155 | the records of a rescanned bucket, over all owners, are as many as the records on disk, and its bytes are the sum of their sizes |
| `DiskModel.ReadyRescansIff` | pkg/files/store.go:1233-1368 | a ready store can be rescanned if and only if no owner's bytes overflow |
| `DiskModel.PatchReadyIff` | pkg/files/store.go:1233-1368 | changing one identifier of a ready store leaves it ready if and only if that identifier's entries are |
| `Trails.PutNeverShowsHalfAFile` | pkg/files/store.go:284-354 | after each step of Put the new identifier is invisible or complete with its size and checksum, and nothing else has changed |
| `Trails.DeleteKeepsOneCopy` | pkg/files/store.go:1062-1118 | after each step of Delete exactly one copy of the bytes exists, the same bytes, under one record |
| `Trails.RestoreKeepsOneCopy` | pkg/files/store.go:1190-1230 | the same for Restore |
| `Trails.PutTrailNeverHalf` | pkg/files/store.go:284-354 | the same over every directory that a Put passes through under any result, its clean-up included |
| `Trails.DeleteStepsKeepOneCopy` | pkg/files/store.go:1062-1118 | one copy under one record over every directory that a Delete passes through under any result, its rollback included |
| `Trails.RestoreStepsKeepOneCopy` | pkg/files/store.go:1190-1230 | the same for Restore, its late failures included |
| `Invariants.PutKeepsInv` | pkg/files/store.go:253-355 | Put keeps files complete, identifiers in one place, and the index in agreement with a rescan |
| `Invariants.StartKeepsInv` | pkg/files/store.go:357-431 | the same for StartUpload with its sweep |
| `Invariants.AppendKeepsInv` | pkg/files/store.go:445-547 | the same for AppendUpload, and it makes no sum overflow |
| `Invariants.CompleteKeepsInv` | pkg/files/store.go:549-632 | the same for CompleteUpload |
| `Invariants.AbortKeepsInv` | pkg/files/store.go:634-662 | the same for AbortUpload |
| `Invariants.SweepKeepsInv` | pkg/files/recovery.go:146-195 | the same for the sweep in any listing order |
| `Invariants.DeleteKeepsInv` | pkg/files/store.go:1045-1120 | the same for Delete |
| `Invariants.RestoreKeepsInv` | pkg/files/store.go:1175-1231 | the same for Restore |
| `Invariants.PurgeKeepsInv` | pkg/files/recovery.go:211-253 | the same for PurgeTrash in any listing order |
| `Invariants.LoadKeepsInv` | pkg/files/store.go:716-813 | loading the index establishes its agreement with a rescan |
| `Quota.PutCosts` | pkg/files/store.go:253-355 | Put adds exactly the body's size to its owner's bytes on disk when it succeeds, nothing when it does not, and nothing to anybody else's |
| `Quota.StartCosts` | pkg/files/store.go:357-431 | under every outcome StartUpload gives back the declared sizes of the sessions that its sweep has ended, and adds exactly its own declared size when it succeeds |
| `Quota.AppendCostsNothing` | pkg/files/store.go:445-547 | AppendUpload changes nobody's total, whatever its outcome |
| `Quota.CompleteConserves` | pkg/files/store.go:549-632 | CompleteUpload changes nobody's total, even where it fails late |
| `Quota.DeleteConserves` | pkg/files/store.go:1045-1120 | Delete changes nobody's total |
| `Quota.RestoreConserves` | pkg/files/store.go:1175-1231 | Restore changes nobody's total |
| `Quota.AbortReleases` | pkg/files/store.go:634-662 | AbortUpload gives back exactly the declared size of the session it removes |
| `Quota.SweepReleases` | pkg/files/recovery.go:146-195 | a sweep over any listing gives back exactly the declared sizes of the open sessions it has removed, and leaves the others as they were |
| `Quota.PurgeReleases` | pkg/files/recovery.go:211-253 | a purge over any listing, up to the entry it stops at, gives back exactly the sizes of the entries it has destroyed |
| `Quota.PurgeRemovesExactly` | pkg/files/recovery.go:211-253 | a purge that comes to its end destroys a listed entry if and only if there is no bound or its deletion time is not after the bound, and leaves every other entry as it was |
| `Quota.PurgeEndsIff` | pkg/files/recovery.go:211-253 | a purge comes to the end of its listing if and only if every listed entry is readable |
| `Quota.WithinQuotaFits` | pkg/files/store.go:696-711 | within a quota no 64-bit sum of the index overflows |
| `Quota.IndexTotalIsRescan` | pkg/files/store.go:121-123 | for every owner, over the limit or not, the total is the one a rescan would show, and the quota decision is the one it would give |
| `Quota.QuotaGateIff` | pkg/files/store.go:696-714 | with a quota a charge is admitted if and only if it leaves the owner within the limit, also for an owner already above it, unless 64-bit sums come round |
| `Quota.QuotaGateIsRightIff` | pkg/files/store.go:696-714 | exactly when they do: the decision is right for every charge if and only if the owner's bytes are at most 2^63 above the limit or more than 2^64 above it |
| `Outcomes.EmptyStoreServes` | pkg/files/store.go:223-251 | a new directory is a good state in which nobody has anything, so the conditions of success below apply to it |
| `Outcomes.PutSucceedsIff` | pkg/files/store.go:253-355 | in every good state Put succeeds if and only if writes are not paused, nothing carries the identifier, the body comes to its end and the owner has room; each refusal names the condition that failed |
| `Outcomes.PutThenRead` | pkg/files/store.go:253-355 | after it the record has the given description, the size and checksum of the body and the clock reading, the object is the body, and no other identifier has changed |
| `Outcomes.StartUploadFitsIff` | pkg/files/store.go:395-405 | in every good state, whoever is above the limit before the sweep, a well-formed request that the pause threshold does not stop is accepted if the declared size fits next to the owner's live bytes and refused for the quota if it does not: abandoned sessions never count |
| `Outcomes.StartThenRead` | pkg/files/store.go:404-430 | a started session can be read, is open and empty, and is what was asked for |
| `Outcomes.AppendSucceedsIff` | pkg/files/store.go:445-547 | in every good state a chunk is accepted if and only if it starts where the open session stands, ends within it, arrives whole with the announced length and checksum, and writes are not paused |
| `Outcomes.CompleteSucceedsIff` | pkg/files/store.go:549-632 | an open session of a sound store is published if and only if all of it has arrived and the declared checksum is that of its bytes; each refusal says which is not so |
| `Outcomes.CompleteTwice` | pkg/files/store.go:549-575 | completing a session again returns the same file and changes nothing |
| `Outcomes.AbortForgetsIff` | pkg/files/store.go:634-662 | an open session goes, a completed one is refused and stays, an unknown one counts as gone; nothing else on disk changes |
| `Outcomes.DeleteTrashes` | pkg/files/store.go:1045-1120 | Delete on a sound store always succeeds; an active file is then in trash with its bytes, its record and the time, and other identifiers are as before |
| `Outcomes.RestoreSucceedsIff` | pkg/files/store.go:1175-1231 | Restore on a sound store succeeds if and only if the identifier is in trash, and gives back the bytes and the record without the time |
| `Exact.CompleteIsExact` | pkg/files/store.go:549-632 | in a state with an exact index and no empty file, completing an upload leaves the index exact, record counts included |
| `Exact.DeleteIsExact` | pkg/files/store.go:1045-1120 | the same for Delete |
| `Exact.RestoreIsExact` | pkg/files/store.go:1175-1231 | the same for Restore |
| `Exact.PurgeIsExact` | pkg/files/recovery.go:211-253 | the same for PurgeTrash over any listing |
| `Exact.CapacityCountsTheDisk` | pkg/files/store.go:867-898 | in such a state the capacity report gives the numbers of objects, manifests and trash entries on disk and the sums of their sizes |
| `Billing.TotalIsBilled` | pkg/files/store.go:121-123 | in every state of the quota theorem the total is what the owner is charged for on disk, also where a failed Restore has left a file in two places |
| `Billing.BilledGateIff` | pkg/files/store.go:696-714 | in every such state, sound or not, a charge is admitted if and only if it leaves the owner within the limit |
| `Billing.RestoreSplitIsBilled` | pkg/files/store.go:1221-1223 | a Restore that fails at its last step leaves the sum of the index right although neither bucket is |
| `Billing.RecoverIsBilled` | pkg/files/recovery.go:49-141 | Recover charges nobody more, from any directory |
| `Runs.EmptyStoreIsAStart` | pkg/files/store.go:223-251 | a new directory meets what every run theorem asks of its first state |
| `Runs.RunStaysSound` | pkg/files/store.go:253-1231 | over every orderly run (failures before commit, restarts, and crashes that leave only temporary files before Recover) every file stays complete and in one place, whatever the index shows |
| `Runs.RunKeepsInv` | pkg/files/store.go:716-865 | and as long as no owner's bytes overflow 64 bits, a valid index agrees with a rescan at every moment of such a run |
| `Runs.RunKeepsServing` | pkg/files/store.go:716-723 | in no such run does the load of the index fail, so that no request is ever refused for it and the conditions of success in `Outcomes` hold at every moment |
| `Runs.TornBodyIsAStep` | pkg/files/store.go:288-315 | the runs contain the end of the process with any part of a Put's body written |
| `Runs.TornChunkIsAStep` | pkg/files/store.go:500-515 | with any part of a chunk written behind the bytes that the session counts |
| `Runs.HalfSessionIsAStep` | pkg/files/store.go:634-662 | and with any half of a session directory removed |
| `Runs.RemovalCrashHealsIff` | pkg/files/recovery.go:146-253 | a crash anywhere in the removals of AbortUpload, of a sweep or of a purge heals if and only if every session that still has its manifest and every trash entry is whole, and then Recover leads to a good state |
| `Runs.LateIsNeverGood` | pkg/files/store.go:586-1231 | a failure after the point of no return always ends soundness, so such runs have to be without it |
| `Runs.OrderlyCrashHeals` | core/apigateway/main.go:65-78 | every crash that the orderly runs contain heals, whatever operation it cuts off |
| `Runs.PutCrashIsOrderlyIff` | pkg/files/store.go:284-354 | a crash anywhere within a Put, its clean-up included, is a step of the orderly runs if and only if it heals |
| `Runs.RunStaysExact` | pkg/files/store.go:716-898 | over every orderly run without empty files a valid index is exactly what a rescan would build, record counts included, and the capacity figures are those of the disk |
| `Runs.CapacityIsRescanned` | pkg/files/store.go:125-147 | in every good state, empty files or not, the reported bytes equal those of a store that always rescans |
| `Runs.FailedLoadIsForEver` | pkg/files/store.go:716-723 | once the first load of the index has failed every later Put of the process is refused, whatever is repaired |
| `Runs.RunStaysWithinQuota` | pkg/files/store.go:696-711 | with a quota and a start within it no run charges an owner more than the limit over files, trash and reservations, nothing overflows, and a valid index shows it: with early and late failures, with crashes at any step, repaired or not, but for one window of CompleteUpload |
| `Lifecycle.DeleteThenRestore` | pkg/files/store.go:1045-1231 | Delete and then Restore give back the whole directory and the record |
| `Lifecycle.DeleteThenRestoreIndex` | pkg/files/store.go:1045-1231 | in every state that an orderly run without empty files reaches, the usage index is exact in between and comes back too, counts included |
| `Lifecycle.DeleteThenRestoreIndexIff` | pkg/files/store.go:825-858 | with empty files about, an exact index comes back if and only if the file is empty itself, or neither the owner's other files nor those in trash, if any, are all empty |
| `Lifecycle.DeleteTwice` | pkg/files/store.go:1045-1060 | repeating Delete changes nothing and succeeds |
| `Lifecycle.DeletedIsPurgedIff` | pkg/files/recovery.go:211-253 | a file deleted at a time is destroyed by exactly the later purges whose bound is not before that time, and by those without a bound; until then it is in trash, and never active |
| `Lifecycle.StartedIsSweptIff` | pkg/files/recovery.go:146-195 | a session started at t survives every sweep before t plus the TTL and no later one; without a TTL, every one |
| `Lifecycle.AppendedIsSweptIff` | pkg/files/recovery.go:146-195 | every accepted chunk begins that time again |
| `Lifecycle.CompletedIsSwept` | pkg/files/recovery.go:180-195 | the next sweep drops a completed session, at once, and leaves its file |
| `Lifecycle.PartIsTheAcceptedChunks` | pkg/files/store.go:445-547 | over any orderly run from a sound store, crashes and restarts included, the part is the accepted chunks in order, as long as the received count and never longer than declared |
| `Lifecycle.CompletePublishesThePart` | pkg/files/store.go:549-632 | a successful CompleteUpload publishes exactly the part's bytes with declared size and matching checksum, as of the session's creation; the session keeps its record, completed, naming the file, and no part |
| `Recovery.PlaceOneMore` | pkg/files/recovery.go:295-324 | the order in which artifacts are quarantined does not matter |
| `Recovery.EvidenceKept` | pkg/files/recovery.go:295-324 | without a name clash every artifact and all earlier evidence is in quarantine afterwards, unchanged |
| `Recovery.OldEvidenceKeptIff` | pkg/files/recovery.go:293-324 | exactly when earlier evidence survives |
| `Recovery.EvidenceCanBeOverwritten` | pkg/files/recovery.go:293-324 | an input on which it does not |
| `Recovery.SweepRemovesExactly` | pkg/files/recovery.go:146-195 | over any listing a session stays if and only if the sweep has no TTL, does not list it or cannot read it, or it is open and the time since its last update is less than the TTL |
| `Recovery.RecoverReadyIff` | pkg/files/recovery.go:49-141 | Recover leads to readiness if and only if nothing is wrong but temporary files, sessions without manifest and sessions the sweep may drop |
| `Recovery.RecoverIsConservative` | pkg/files/recovery.go:36-48 | Recover changes no active or trashed file and keeps every live session |
| `Recovery.ReportCounts` | pkg/files/recovery.go:49-141 | the report gives, kind by kind, the number of artifacts that are in quarantine for it, and the number of sessions that have gone besides |
| `Recovery.LitterIsRemoved` | pkg/files/recovery.go:49-141 | from a ready store plus any temporary files and manifest-less sessions, Recover leads back to that store, swept, and it is ready |
| `Recovery.CutOffRecoverIsLitter` | pkg/files/recovery.go:49-141 | a Recover cut off between two moves, or while it copies a directory, leaves a store that the next one repairs in the same way |
| `Recovery.RecoverIsIdempotent` | pkg/files/recovery.go:49-141 | a second Recover at the same clock reading repairs nothing and changes nothing |
| `Crash.PutCrashHealsIff` | pkg/files/store.go:284-354 | for each step of Put, whether a crash there heals: not between the renames of object and manifest |
| `Crash.TornBodyHeals` | pkg/files/store.go:288-315 | a crash with any part of the body written heals |
| `Crash.StartCrashHeals` | pkg/files/store.go:404-427 | every crash during StartUpload heals |
| `Crash.AppendCrashHealsIff` | pkg/files/store.go:479-545 | a crash during AppendUpload heals if and only if the manifest has been renamed |
| `Crash.InterruptedAppendBlocksTheStore` | pkg/files/store.go:1456-1489 | a part longer than its manifest says makes every rescan fail, every Put be refused and the session unremovable, before and after Recover |
| `Crash.CompleteCrashHealsIff` | pkg/files/store.go:549-632 | a crash during CompleteUpload heals only after its last rename |
| `Crash.DeleteCrashHealsIff` | pkg/files/store.go:1045-1120 | the same for Delete |
| `Crash.RestoreCrashHealsIff` | pkg/files/store.go:1175-1231 | the same for Restore |
| `Crash.AbortCrashHealsIff` | pkg/files/store.go:634-662 | a directory removal cut in half heals if and only if the manifest went first |
| `Crash.PurgeCrashNeverHeals` | pkg/files/recovery.go:211-253 | a trash entry removed by half never heals |
| `Crash.ProbeCrashNeverHeals` | pkg/files/store.go:1239-1251 | a readiness probe cut off between creating and removing its file leaves a store that no restart makes ready |
| `Crash.FailedRestoreIsFinal` | pkg/files/store.go:1190-1231 | a Restore that fails after rewriting the trash manifest cannot be repeated or repaired |
| `Crash.SplitRestoreIsFinal` | pkg/files/store.go:1221-1223 | a Restore that fails to remove the emptied entry leaves the identifier active and in trash at once; its record reads well, but it can be neither restored nor deleted nor repaired |
| `Crash.FailedCompleteIsFinal` | pkg/files/store.go:586-632 | a CompleteUpload that fails after renaming the part leaves a session nobody can complete, continue, abort or repair |
| `CutOff.PutCutHealsIff` | pkg/files/store.go:284-354 | a Put cut off anywhere before its last rename heals if and only if it has left nothing but temporary files, that is, if its object has not been renamed |
| `CutOff.StartCutIsLitter` | pkg/files/store.go:404-427 | a StartUpload cut off anywhere before its last rename leaves nothing else |
| `CutOff.RebootKeepsInv` | core/apigateway/main.go:65-78 | a process that ends with nothing but temporary files and bare sessions next to a sound store is replaced by one that starts, after Recover, in a good state with an agreeing index |
| `CutOff.DeleteCutIsNoDearer` | pkg/files/store.go:1062-1118 | a Delete cut off at any step forward or back charges nobody more |
| `CutOff.RestoreCutIsNoDearer` | pkg/files/store.go:1190-1230 | the same for Restore |
| `CutOff.AppendCutIsNoDearer` | pkg/files/store.go:500-545 | the same for AppendUpload with any part of the chunk written |
| `CutOff.CompleteCutIsNoDearer` | pkg/files/store.go:590-632 | the same for CompleteUpload unless the file is visible while the reservation still counts |
| `CutOff.DoubledIsWithinIff` | pkg/files/store.go:607-621 | a crash in that window takes its owner above the limit if and only if the file does not fit next to all that the owner has |
| `CutOff.DoubledBlocksTheStore` | pkg/files/store.go:734-813 | and no rescan of such a store succeeds, before or after Recover |
| `DiskStore.DiskStore.constructor` | pkg/files/store.go:215-251 | a store that has just opened a directory has no index |
| `DiskStore.DiskStore.MoveUsage` | pkg/files/store.go:825-858 | the in-place index update equals its specification |
| `DiskStore.DiskStore.AddRecord` | pkg/files/store.go:749-763 | one record of the rescan, with its overflow check exact |
| `DiskStore.DiskStore.RescanFiles` | pkg/files/store.go:765-780 | the loop builds the bucket of all files, and fails if and only if one is unreadable or the sum overflows |
| `DiskStore.DiskStore.RescanTrash` | pkg/files/store.go:781-792 | the same for trash |
| `DiskStore.DiskStore.RescanUploads` | pkg/files/store.go:793-809 | the same for open sessions |
| `DiskStore.DiskStore.RebuildUsage` | pkg/files/store.go:734-813 | the index is replaced by a rescan or left alone |
| `DiskStore.DiskStore.EnsureUsage` | pkg/files/store.go:716-723 | the index is loaded once and the first error is kept |
| `DiskStore.DiskStore.CheckPaused` | pkg/files/store.go:900-909 | a pause check loads the index first |
| `DiskStore.DiskStore.Put` | pkg/files/store.go:253-355 | under every result the state is the specified one, and the file is visible completely or not at all at every step, clean-up included; after a file-system error the directory is unchanged; a success takes exactly the steps of the trail |
| `DiskStore.DiskStore.Delete` | pkg/files/store.go:1045-1120 | the same with one copy under one record at every step; the rollback undoes every prefix of the steps |
| `DiskStore.DiskStore.Restore` | pkg/files/store.go:1175-1231 | the same, but an error may leave one of two named states behind |
| `DiskStore.DiskStore.StartUpload` | pkg/files/store.go:357-431 | sweep, load, quota and creation equal the specification; an error leaves at most the sweep behind; every step is one of the sweep or of the new session |
| `DiskStore.DiskStore.AppendUpload` | pkg/files/store.go:445-547 | the chunk is written first and judged afterwards; every rejection and error rolls back, through named steps only |
| `DiskStore.DiskStore.Judge` | pkg/files/store.go:504-528 | a written chunk passes if and only if the body is exactly as long as announced, was read to its end without an error and has the announced checksum; then what was written is the body, and it fits the session |
| `DiskStore.DiskStore.CompleteUpload` | pkg/files/store.go:549-632 | equals the specification; an error leaves the state alone or, once the part is renamed, loses it; the clean-up removes object and manifest one after the other |
| `DiskStore.DiskStore.AbortUpload` | pkg/files/store.go:634-662 | removes the session and its reservation, or nothing |
| `DiskStore.DiskStore.SweepUploads` | pkg/files/recovery.go:146-209 | the loop equals the sweep up to the first removal that fails; when none fails a session stays exactly as long as it is unreadable, or open and younger than the TTL by the update time in its manifest, and the count is right |
| `DiskStore.DiskStore.PurgeTrash` | pkg/files/recovery.go:211-253 | the loop equals the purge up to the first unreadable entry; when there is none an entry goes if and only if its deletion time is not after the bound or there is no bound, and the count is right |
| `DiskStore.DiskStore.FilesReady` | pkg/files/store.go:1252-1288 | the loops accept if and only if there is no staged manifest and every identifier has a readable manifest with an object or neither |
| `DiskStore.DiskStore.SessionsReady` | pkg/files/store.go:1289-1324 | accept if and only if every session is readable, has no staged manifest, and no part once completed |
| `DiskStore.DiskStore.TrashIsReady` | pkg/files/store.go:1325-1355 | accept if and only if every trash entry is complete and readable |
| `DiskStore.DiskStore.CheckReady` | pkg/files/store.go:1233-1368 | without faults the probe accepts exactly the ready directories and leaves the directory as it was; only a failing removal leaves its file |
| `DiskStore.DiskStore.OwnerQuota` | pkg/files/store.go:673-694 | in a good state used is what the owner is charged for on disk, and a further charge is admitted if and only if it is at most what is reported as available |
| `DiskStore.DiskStore.ReportCapacity` | pkg/files/store.go:867-898 | in a counted state the figures are the numbers of objects, manifests and trash entries on disk and the sums of their sizes |
| `DiskStore.DiskStore.AddUp` | pkg/files/store.go:125-155 | one pass over a bucket counts its records and adds up its bytes, wrapped to 64 bits |
| `DiskStore.DiskStore.QuarantinePath` | pkg/files/recovery.go:295-324 | one artifact is moved as specified; a failure leaves it where it was, with at most a copy or a part of one under its target, and no other entry of the quarantine changes |
| `DiskStore.DiskStore.QuarantineParts` | pkg/files/recovery.go:58-70 | the loop moves and counts every part |
| `DiskStore.DiskStore.QuarantineManifests` | pkg/files/recovery.go:72-84 | the loop moves and counts every staged manifest |
| `DiskStore.DiskStore.QuarantineSessions` | pkg/files/recovery.go:86-125 | the loop moves and counts staged session manifests and sessions without manifest, and keeps the others |
| `DiskStore.DiskStore.Recover` | pkg/files/recovery.go:49-141 | loops, sweep and rescan equal the specification with its report; under an error active and trashed files are unchanged, and either some leftovers are still there and the index is untouched, or all are gone and the index follows the sessions swept so far; on a tidy store only the sweep can fail |
| `StoreRuns.Perform` | pkg/files/store.go:253-1368 | whatever is asked of the store and whatever call fails in it, the object takes one step of a run, the one asked for, through directories each of which a crash during that operation can leave; when no call fails the step is the whole operation |
| `StoreRuns.AnyStepCanBeTheLast` | pkg/files/store.go:253-1368 | so the process can end at any step of any method, and what the next one finds is a step of the run |
| `StoreRuns.Serve` | pkg/files/store.go:696-711 | any sequence of requests to one object is a run, and from within the quota it leaves nobody above the limit |
| `SessionSort.SortSessionsByUpdated` | pkg/files/recovery.go:280-291 | the insertion sort leaves a permutation, newest first, identifiers breaking ties |
| `SessionSort.LessIff` | pkg/files/recovery.go:280-291 | strings are ordered by their first difference, a prefix before what it begins |
| `SessionSort.SortedListingIsUnique` | pkg/files/recovery.go:280-291 | the sorted listing of sessions with distinct identifiers does not depend on the order read |
| `ContentRange.ParseIff` | core/apigateway/handlers.go:744-764 | a header is accepted with given numbers if and only if it spells them in the stated form, inside the total and 64 bits |
| `ContentRange.RoundTripIff` | client/python/astrastore_xion/client.py:229-232 | what the client prints is read back as the same range if and only if the chunk lies in the file and the size fits 64 bits |
| `ContentRange.AcceptsPlusSigns` | core/apigateway/handlers.go:757-759 | numbers with a plus sign are accepted, against section 14.4 of RFC 9110 |
| `LimitReader.UploadLimitReader.Read` | core/apigateway/handlers.go:771-789 | at most limit + 1 bytes pass; a body within the limit ends as it does itself, a longer one with the limit's error |
| `LimitReader.Drain` | core/apigateway/handlers.go:766-789 | for any chunking and any buffers the caller sees a body within the limit unchanged, and of a longer one limit + 1 bytes and an error |
| `LimitReader.PutBehindTheLimitIff` | core/apigateway/handlers.go:242-257 | behind the limit a Put succeeds if and only if the body fits and the Put itself succeeds |
| `Gateway.AppendOutcomes` | pkg/files/store.go:445-547 | what an accepted or rejected append does to the session's directory |
| `Gateway.Gateway.Start` | core/apigateway/handlers.go:453-482 | sizes outside 1 to the maximum are refused; otherwise the session is as requested, new and empty; with nobody else about and no call failing it is granted if and only if the store loads, is not paused, the checksum is well-formed and the size fits after the sweep |
| `Gateway.Gateway.Append` | core/apigateway/handlers.go:498-531 | success means that the session took exactly this body at this offset; failure leaves the session alone or finds it removed |
| `Gateway.Gateway.Complete` | core/apigateway/handlers.go:533-546 | success publishes the session's bytes as it declared |
| `UploadClient.TakenExtends` | pkg/files/store.go:504-545 | a taken chunk extends the stored prefix of the source by exactly that chunk, damaged deliveries included |
| `UploadClient.RetriedIsRefused` | pkg/files/store.go:468-470 | a chunk that has been taken is never taken again |
| `UploadClient.Client.StartSession` | client/python/astrastore_xion/client.py:193-200 | the client has a session if and only if one was opened and the reply arrived; with nobody else about, a request that comes to a store that can take it opens one |
| `UploadClient.Client.ExchangeChunk` | client/python/astrastore_xion/client.py:223-236 | one PUT under the fate that the network has for it (loss, proxy reply) and under damage leaves the session before or after the chunk, and is answered with success if and only if the session took the chunk in this very exchange and the reply arrived |
| `UploadClient.Client.PutChunk` | client/python/astrastore_xion/client.py:318-354 | the chunk is taken at most once over all retries; the client tries exactly as long as it may and the replies call for it; the loop succeeds if and only if the exchange that takes the chunk is itself answered; with nobody else about, that is the first request that comes to the gateway |
| `UploadClient.Client.AbortSession` | client/python/astrastore_xion/client.py:257-271 | retried in the same way; the first of its requests that comes to the gateway ends an open session, where nothing fails |
| `UploadClient.Client.UploadLargeFile` | client/python/astrastore_xion/client.py:173-254 | for every network: if it returns a file, the stored object is the source byte for byte, with declared owner, size and checksum, whatever the chunk size, short reads, losses, retries and other activity; it returns none once any chunk is taken without its reply arriving; with nobody else about, on a store that can take the file, it returns one if and only if the session is confirmed, every chunk by the first of its requests that comes to the gateway, and the completion, so always over a network that loses nothing; and every chunk is confirmed over one that only loses requests, fewer in a row than the client may send; a failed upload gives its reservation back with the first request to do so that arrives |
| `UploadClient.NewStoreAccepts` | client/python/astrastore_xion/client.py:173-254 | what the success of an upload asks of the store is met by a new one, for every file within maximum and quota |
| `Backoff.BackoffFor` | pkg/replication/manager.go:340-355 | the loop on 64-bit durations equals its specification |
| `Backoff.BackoffIsExponentialIff` | pkg/replication/manager.go:340-355 | the delay is min(base * 2^(n-1), max) for every n if and only if the doubling reaches max within 64 bits |
| `Backoff.BoundedMaximumNeverOverflows` | pkg/replication/manager.go:340-355 | which holds for every maximum up to 2^62 with a smaller base than 2^62 |
| `Backoff.LargestPowerWraps` | pkg/replication/manager.go:340-355 | and fails for base = max = 2^62 |
| `JobQueue.Configured` | pkg/replication/manager.go:112-135 | the defaults are ten attempts, five seconds and ten minutes; the attempt limit is positive and the base within the maximum, and values that are given stand |
| `JobQueue.JobIdsAreDistinct` | pkg/replication/manager.go:194 | there is one job identifier per operation and file |
| `JobQueue.RunKeepsInv` | pkg/replication/manager.go:187-337 | over every run with crashes and lost writes no job exceeds its attempts, and memory and disk list the same jobs |
| `JobRuns.DiskEqualsMemory` | pkg/replication/manager.go:187-337 | without write errors the jobs directory equals memory whenever the lock is free |
| `JobRuns.JobsStay` | pkg/replication/manager.go:471-498 | no failure, crash or restart loses a stored job |
| `JobRuns.RestartLosesNothing` | pkg/replication/manager.go:471-498 | a crash and restart give back every job, none running, all else unchanged |
| `JobRuns.CompletedMeansExecuted` | pkg/replication/manager.go:289-313 | a job is completed, in memory or on disk, only if one of its executions returned nil |
| `JobRuns.ClaimedIff` | pkg/replication/manager.go:315-337 | a free worker can claim a job if and only if it waits or has failed, has attempts left and, with a positive base, is not put off |
| `JobRuns.RetriedWhenDueIff` | pkg/replication/manager.go:289-337 | after a failure the job can be claimed again if and only if attempts are left and, with a positive base, the backoff delay has passed |
| `JobRuns.SucceededIsDone` | pkg/replication/manager.go:289-337 | after a success it is never claimed again |
| `JobRuns.EnqueuedIsDue` | pkg/replication/manager.go:187-222 | a job that is enqueued, or enqueued again after a failure, is claimable at once with all its attempts, in memory and on disk |
| `JobRuns.EnqueuedAgainIsNothing` | pkg/replication/manager.go:198-207 | enqueuing a job again that has not failed changes nothing |
| `JobRuns.ResetIsDue` | pkg/replication/manager.go:224-257 | so is every job that Retry has reset |
| `JobRuns.ExecutionsAreBounded` | pkg/replication/manager.go:289-337 | without resets and crashes the worker begins at most as many executions as the uncompleted jobs have attempts left, every job enqueued meanwhile included with all of its attempts |
| `JobRuns.CrashedExecutionIsNotCounted` | pkg/replication/manager.go:488-494 | a crash gives the attempt back and the job can be claimed again at once |
| `JobRuns.LostClaimIsStuck` | pkg/replication/manager.go:328-333 | a claim that cannot be written marks the job running with nobody running it |
| `JobRuns.StuckUntilFreed` | pkg/replication/manager.go:328-333 | and so it stays, never executed, until a restart or an explicit Retry of it |
| `JobRuns.StuckIff` | pkg/replication/manager.go:315-337 | in every run a job is marked running with nobody running it if and only if a claim of it could not be written and neither a restart nor its Retry has come since |
| `JobRuns.WrittenClaimsNeverStick` | pkg/replication/manager.go:328-333 | so while every claim is written no job is ever stranded |
| `JobRuns.RunKeepsTime` | pkg/replication/manager.go:289-355 | on a clock that never runs backwards the counted failures of every job stay the backoff delays apart, over crashes and lost writes |
| `JobRuns.NthFailureIsLate` | pkg/replication/manager.go:298-302 | the n-th failure comes no earlier than the first plus the first n - 1 ideal delays |
| `JobManager.Manager.Enqueue` | pkg/replication/manager.go:187-222 | one event of the queue; an existing job that has not failed is returned as it is |
| `JobManager.Manager.Select` | pkg/replication/manager.go:230-239 | Retry means the job of that identifier, or else the uncompleted jobs of that file |
| `JobManager.Manager.Retry` | pkg/replication/manager.go:224-257 | resets all of them to pending with no attempts counted and nothing to wait for, leaves the others alone, or stops before the first write error |
| `JobManager.Manager.ClaimNext` | pkg/replication/manager.go:315-337 | returns nothing if and only if every job is completed, running, out of attempts or, with a positive base, put off to later than now; otherwise it claims one, and the worker has it unless the write fails |
| `JobManager.Manager.Finish` | pkg/replication/manager.go:295-312 | records the outcome on the job as it is now, with the next attempt after the backoff |
| `JobManager.Manager.ProcessPending` | pkg/replication/manager.go:289-313 | if and only if a job is due it is claimed; any requests in between and the recording of the given outcome at the end form a run of the queue |
| `JobManager.Manager.LoadJobs` | pkg/replication/manager.go:471-498 | the restart loop equals its specification, also when a write fails halfway |
| `Replication.ExecutionOutcomes` | pkg/replication/manager.go:370-453 | an execution under any loss leaves the replica alone, stores the file, or stores and deletes it; success only when the replica holds it |
| `Replication.RerunChangesNothing` | pkg/replication/manager.go:378-386 | once the replica holds the file an execution changes nothing and succeeds when answered |
| `Replication.TrashBlocksReplication` | pkg/files/store.go:284-286 | an identifier in the replica's trash makes every execution fail without effect |
| `Replication.DeliveredSucceedsIff` | pkg/replication/manager.go:370-453 | an execution in which everything arrives succeeds if and only if the replica holds the file already, or has the identifier unused and room for it |
| `Replication.SuccessCopies` | pkg/replication/manager.go:370-393 | a successful execution on an unused identifier stores the bytes under the original's name and metadata, and so charges the same owner |
| `Replication.ExecutionsHaveOneEffect` | pkg/replication/manager.go:370-453 | any number of executions change the replica's entry at most once |
| `Replication.AnyExecutionIsAStep` | pkg/replication/manager.go:370-453 | the runs of queue and replica contain every execution, from any state of the replica and with any fate |
| `Replication.AnyLateRequestIsAStep` | core/apigateway/handlers.go:195-221 | every request that reaches the replica late, at any time |
| `Replication.AnyCutIsAStep` | pkg/files/store.go:284-354 | and the end of the replica's process at any point of its Put |
| `Replication.HeldBytes` | pkg/replication/manager.go:449-452 | on a sound replica the matching record vouches for bytes of that size and checksum |
| `Replication.HeldStays` | pkg/replication/manager.go:370-453 | from the first success on the replica's entry never changes, over crashes of both sides, repeated executions and requests that arrive late, unless the replica cleans up |
| `Replication.CompletedIsReplicated` | pkg/replication/manager.go:289-453 | in every run of queue and replica a completed job had its file there, with the same identifier, size and checksum, when it succeeded; the replica still has it if and only if it has not since cleaned up after an older request of that file, which it cannot when none was open |
| `Replication.LateCleanupUndoesReplication` | core/apigateway/handlers.go:195-221 | and that does happen: a run with a completed job and the file in the replica's trash |
| `Replication.Replicator.ReplicateUpload` | pkg/replication/manager.go:370-453 | for given behaviour of source and network the steps against a replica store equal one specified execution; where everything arrives and no call of the replica fails it succeeds if and only if the replica has the file already or can take it; success means that the replica has it |
| `Ring.AddMovesOnlyToTheNewNode` | pkg/balance/consistent_hash.go:157-187 | after AddNode every position keeps its node or moves to the new one, collisions included |
| `Ring.RemoveDisruptsNobodyElseIff` | pkg/balance/consistent_hash.go:189-217 | RemoveNode moves nobody else's position if and only if each removed key of another node falls back to that node |
| `Ring.RemoveMovesOnlyItsOwn` | pkg/balance/consistent_hash.go:189-217 | without collisions only the removed node's positions move |
| `Ring.CollidingRemovalDisrupts` | pkg/balance/consistent_hash.go:203-206 | with a collision a live node loses its position to a third |
| `Ring.AddThenRemoveRestoresIff` | pkg/balance/consistent_hash.go:157-217 | add and remove restore the ring if and only if no virtual key was taken |
| `Ring.AddsCommuteIff` | pkg/balance/consistent_hash.go:157-187 | the order of two additions does not matter if and only if they share no virtual key |
| `Ring.NamesThatAlwaysCollide` | pkg/balance/consistent_hash.go:175-176 | with more than ten replicas a name and the same name followed by 1 collide under every hash |
| `Ring.RunKeepsOwnership` | pkg/balance/consistent_hash.go:157-217 | in every reachable ring each key belongs to a live node |
| `Ring.NodesAreTheAddedIff` | pkg/balance/consistent_hash.go:157-217 | after any history the live nodes are exactly the names whose last change is an addition |
| `Ring.ServesIff` | pkg/balance/consistent_hash.go:157-242 | between names without collisions there is an answer to every lookup if and only if some node is live |
| `Ring.LiveNodeWithoutPlace` | pkg/balance/consistent_hash.go:203-206 | with a collision a live node can be left with no key at all, and every lookup fails |
| `Ring.RingDependsOnLiveNodesOnly` | pkg/balance/consistent_hash.go:157-217 | without collisions any two histories with the same live nodes end with the same ring |
| `Ring.FirstAtOrAfter` | pkg/balance/consistent_hash.go:230-241 | the first key at or after a position in the sorted slice, or else the first, is the clockwise nearest |
| `Ring.ConsistentHashBalancer.AddNode` | pkg/balance/consistent_hash.go:157-187 | a new node is added to the nodes and takes all its virtual keys, a known one changes nothing; the slice stays sorted with exactly the keys of the map |
| `Ring.ConsistentHashBalancer.RemoveNode` | pkg/balance/consistent_hash.go:189-217 | a known node leaves the nodes and all its virtual keys go, whoever has them, an unknown one changes nothing; the slice stays sorted with exactly the keys of the map |
| `Ring.ConsistentHashBalancer.Search` | pkg/balance/consistent_hash.go:230-232 | the binary search splits the slice at the position |
| `Ring.ConsistentHashBalancer.GetNode` | pkg/balance/consistent_hash.go:219-242 | binary search with wrap-around finds the node of a linear scan, and an error if and only if the ring is empty |

## Left out

The file system and the store:

- Directory syncs do not fail, and the calls of a cleanup or rollback do not fail; every other file-system call may.
- `Runs.RunStaysSound`: its runs are orderly. Late failures and crashes that leave more than temporary files end soundness (`Runs.LateIsNeverGood`, `Crash.FailedRestoreIsFinal`, `Crash.SplitRestoreIsFinal`, `Crash.FailedCompleteIsFinal` and the lemmas on crashes); `Runs.RunStaysWithinQuota` covers them all the same.
- `Runs.RunStaysWithinQuota`: a crash while CompleteUpload shows the file and still holds the reservation is excluded, because it is false there (`CutOff.DoubledIsWithinIff`).
- `DiskStore.DiskStore.AbortUpload`: the removal of a directory happens or does not; halves of it appear only after a crash (`Runs.RemovalCrashHealsIff`, `Runs.RunStaysWithinQuota`).
- `DiskStore.DiskStore.RebuildUsage`: every reason for which a rescan fails is one error.
- `Crash.AppendCrashHealsIff`: the chunk arrives in one step; a shorter prefix of it is the case of `Crash.InterruptedAppendBlocksTheStore` and of `CutOff.AppendCutIsNoDearer`.
- `DiskStore.DiskStore.CheckReady`: the names of the groups in quarantine/ are always the known ones; any number of left probe files count as one.
- `DiskStore.DiskStore.SweepUploads`: names in the directories that are not identifiers are not modelled; they are skipped or refused by the code.
- A record that cannot be decoded is the case of a record that fails its checks.
- Identifiers never look like a clock reading followed by a name, so that a stamped quarantine name is never the base name of another artifact.
- The percentage of used space: whether the threshold is exceeded is an input. Each operation reads the clock once.
- Context cancellation, permissions, MIME detection and the cleaning of display names.
- `Text.TrimSpace`, `Text.EqualFold` and `Text.Lower`: only ASCII.
- Open, List, Count, ListTrash and ListUploads: they read records one by one as modelled and would add only easy members.

The upload protocol:

- HTTP, multipart and JSON decoding, authentication; status codes are kept where the client looks at them.
- `UploadClient.Client.UploadLargeFile`: the network is given as the fates of any finite number of requests, after which everything is delivered; other clients may do anything to the store except write to this session; a generated file identifier is unused; a proxy does not invent a success.
- `LimitReader.UploadLimitReader.Read`: the limit is below 2^63 - 1 and the underlying reader makes progress on a non-empty buffer.

The replication queue:

- `JobRuns.RunKeepsTime`: a clock that never runs backwards is assumed there and nowhere else.
- `JobQueue.RunKeepsInv`: a write of a job is atomic; error texts are not kept; the list of failure times in a job serves the statements only.
- `Replication.CompletedIsReplicated`: nobody else writes to the file's entry on the replica, so that replicated deletions and restores of the same file are outside; the code does not order them, and the replica need not converge to the primary.
- `Replication.Replicator.ReplicateUpload`: an execution acts on the replica in one step. What arrives between its status check and its POST makes the POST fail, which is an arrival before an execution that is lost. The class never sends a request that is left open; the runs do, and a request from before the run may arrive at any time.
- The worker's ticker and wake-up channel: a claim may happen at any time.

The ring:

- Node statistics, UpdateNodeStatus, rebalancing, shard migration and hot-file counts: unfinished or trivial.

The services, commands, other clients, and the raft, monitor, crypto, compress, auth, metadata and storage packages are not part of this model.
