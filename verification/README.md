# Verification of the cache server's storage core

This Dafny project models the storage core of a GitHub Actions cache server and
proves properties of the model. `dafny verify dfyconfig.toml` checks all of it.

## What is modelled

Cache archives arrive as numbered parts in a storage folder named after the
upload, are finalized into a storage location, may be merged into one object in
the background, are read under leases, and are removed through an outbox of
folder deletions. The modules follow the program:

- **Folders.** `FolderProtocol` has one step for every database transaction and
  storage action on uploads, locations, entries, reader leases, merges and
  deletion tasks. `FolderOwnership` proves what every run of such steps keeps.
  `FolderEffects` says what finalization does and `FolderLifecycles` what may
  happen to every row, step by step and over runs; `FolderProgress` shows that
  from every reachable state an upload can be saved and read back, a location
  merged, its parts removed and its folder deleted, and exactly when.
  `FolderContents` says what stored folders hold, `FolderSizes` which sizes are
  recorded for their parts, `FolderReads` what readers get over whole runs, and
  `FolderRanges` that ranged readers get it too. `ObjectNames` and `FolderNames`
  justify treating deletion by prefix as deletion of a folder or one of its
  subfolders.
- **Requests on shared rows.** `UploadSessions` (when a session is idle),
  `UploadReservations` (reservation and passive
  cleanup loops under arbitrary interference), `StorageDeletions` (outbox
  retries), `OrphanedStorage` (reconciliation of unreferenced folders) and
  `CacheMatching` (which entry a restore gets).
- **Reading.** `PartIndexes`, `ByteRanges`, `ObjectStreams`,
  `RangedPartsReading`, `PartsReading` and `Downloads`: the incremental readers
  refine one slice of the concatenated parts, and all representations agree.
- **Sharing.** `PartIndexCaching` (the weighted LRU), `SingleFlight` (its
  callers), `FlightOutcomes` (how their calls end) and `LeaseReleasing` (the batching worker).
- **Object storage.** `CycleDetector`, `ObjectWalk`, `PageFingerprint`,
  `PrefixDeletion`, `ComposePlanning`, `FolderInventory`.
- **Eviction.** `CapacityEviction`: one pass over least recently used locations.

`Sequences`, `Int64`, `Octets`, `Options`, `Decimals` and `Bitmaps` are shared
vocabulary.

## How to read the model

- Objects whose methods update fields are classes; loops are methods proved
  against specification functions. Concurrent parts are state machines: a
  critical section or transaction is one step, a run is any sequence of possible
  steps, and the theorems are about all runs. For the lease releaser the class
  and the state machine are tied together method by method.
- Where a request makes several database calls, other requests act between them:
  as steps of the protocol, or as a schedule of events before each call.
- Buffers are modelled as a maximal length and a returned sequence; storage may
  return any chunk, report an end early or late, and fail. Storage that is
  `reliable` does not fail, and storage that is `prompt` does not answer a
  nonempty request with neither a byte nor an end; an object store that is
  `capable` does not refuse to compose. A reader that is `shared` may be closed
  by another goroutine at any time. These are parameters: every contract says
  what holds with and without them.
- Ids of uploads are drawn fresh; SHA-256 is taken to be injective on the inputs
  given to it; strings hold one byte per character; 64-bit arithmetic is explicit
  where the source can reach its limits.
- Times are integers of a clock that does not go back.

## Where code and expectation differ

- The S3 compose planner rounds with `size + 5 GiB - 1`. A source whose size is
  within that distance of the int64 limit makes the sum wrap, and the source is
  silently dropped from the plan. `ComposePlanning.PlanPreservesContent` states
  exactly when content is preserved, `ComposePlanning.AcceptsExactly` what is
  accepted in spite of it.
- A part that is still being written when its upload is finalized overwrites a
  finalized part; only the row update after the write notices.
  `FolderContents.StepIsFaithful` states exactly which writes do harm and
  `FolderReads.LateWriteIsSeen` gives a run.
- Part sizes are found by an inspection before the finalizing transaction, which
  checks only that the upload row is still there. A part that changes its length
  in between leaves a recorded size and a cached part index that are not those of
  the finalized parts, and ranged readers then get wrong bytes without an error.
  `FolderSizes.SizeIsRightExactly` and `FolderSizes.FinalizeRecordsExactly` state
  exactly when the sizes are right, `FolderReads.EarlyWriteIsMisrecorded` and
  `FolderRanges.EarlyWriteIsServedWrong` give a run, and
  `FolderReads.CarefulWritersAreEnough`, `FolderReads.ReadersGetWhatWasSaved` and
  `FolderRanges.RangesOfWhatWasSaved` say what holds without such writes.
- Brent's detector saturates its power at 2^63; longer periods are never
  reported (`CycleDetection.LongPeriodsGoUnreported`).
- The comment on capacity candidates says that a row whose recency moves may be
  revisited; the guarantees on order are for rows whose recency stays.

## Model

| member | source | states |
|---|---|---|
| `FolderOwnership.ExactlyOneOwner` | internal/cache/service.go:898-978 | a folder that has appeared belongs to an upload row, to one location row, or was queued for deletion as a whole: exactly one of the three, in every reachable state |
| `FolderOwnership.LiveLocationsAreNotQueued` | internal/cache/service.go:966-972 | no step queues the folder of a live location; its parts are queued exactly when their deletion was claimed, which needs a merged object; finalization leaves only its blocks subfolder in the queue |
| `FolderOwnership.EveryRunKeepsInv` | internal/storagelifecycle/service.go:722-801 | ownership, rows and stored objects stay consistent over every interleaving of uploads, finalization, readers, merging, eviction, orphan claims and outbox processing |
| `FolderOwnership.FromStart` | internal/storagelifecycle/service.go:722-801 | every state that any run from an empty database reaches has that consistency |
| `FolderOwnership.StepKeepsInv` | internal/storagelifecycle/service.go:722-801 | one transaction or storage action of any of the 26 kinds keeps it |
| `FolderOwnership.UploadsEndOnce` | internal/uploadsession/session.go:50-81 | over any run, finalization, the deletion of an invalid upload and idle deletion together end one upload at most once |
| `FolderOwnership.EndingIsOver` | internal/cache/service.go:970-972 | whichever of the three commits, the upload row was there before and is gone for good after |
| `FolderOwnership.DeleteObjectKeepsPresent` | internal/storageoutbox/outbox.go:24-42 | what was ever queued for deletion, also when a second processor has already removed the task, is in no representation that a live row, a half-finished finalization or a finished merge relies on |
| `FolderOwnership.FinalizeKeepsPresent` | internal/cache/service.go:471-515 | the parts whose sizes an inspection has found, one by one, are still there when the finalizing transaction commits |
| `FolderOwnership.FinalizeKeepsRows` | internal/cache/service.go:923-964 | finalization leaves at most one entry per tuple, every one leading to an unfenced location; which one, FolderEffects.CompletionLeadsToTheUpload says |
| `FolderOwnership.FinalizeKeepsOwnership` | internal/cache/service.go:966-972 | the folder passes from its upload row to the new location row, with only the blocks queued |
| `FolderEffects.CompletionLeadsToTheUpload` | internal/cache/service.go:898-978 | finalizing leads the tuple to the upload: exactly one entry matches it, under the id it had if there was one, dated now and pointing at a new row for the uploaded folder with the sizes found; every other entry is unchanged; a location that lost its last entry by that is fenced, or gone with its folder queued exactly when it may go, and every other row is unchanged |
| `FolderLifecycles.LocationsAge` | internal/storagelifecycle/service.go:803-1015 | the only ways in which a location row changes: folder, part count and sizes never; merged, unsupported, parts-deleted and fenced once each, at the current time, by the finishing or the giving up of its merge, the claim, or the loss of its last entry; only a new merge takes it over, only its own merge gives it up, and only these two set how long that lasts |
| `FolderLifecycles.MilestonesStay` | internal/storagelifecycle/service.go:955-975 | over every run a row that was merged, unsupported, without its parts or fenced stays so, since the same moment |
| `FolderLifecycles.UnsupportedStaysInParts` | internal/storagelifecycle/service.go:977-998 | what the storage could not merge is never merged, loses no parts, and is not tried again |
| `FolderLifecycles.MergesExclude` | internal/storagelifecycle/service.go:911-914 | over every run, while the lease of a merge is unexpired the row stays, no other merge begins or ends it, and the lease is as it was |
| `FolderLifecycles.EntriesLeaveExactly` | internal/storagelifecycle/service.go:626-631 | an entry goes exactly when it is detached from the location it leads to; only a finalization points one elsewhere |
| `FolderLifecycles.LeasesAreGranted` | internal/storagelifecycle/service.go:264-297 | a lease is made by an acquisition for the location and representation that were looked up, prolonged to the full time by its own renewal and only while unexpired, gone after its release or, once expired, after a purge, and otherwise unchanged while unexpired |
| `FolderLifecycles.NoLeaseRevives` | internal/storagelifecycle/service.go:316-332 | over every run an expired or released lease is never live again |
| `FolderLifecycles.RefusedReadersWereOvertaken` | internal/storagelifecycle/service.go:208-262 | a reader that has looked up a location is refused its lease only when the row is gone by then, or was unmerged, in several parts and not known as unsupported when looked up and has been fenced or merged since |
| `FolderLifecycles.ActiveUploadsStay` | internal/uploadsession/session.go:50-81 | over every run an upload that was created or renewed at some time is there, unless it is completed or deleted as invalid or an idle deletion asks for later activity |
| `FolderLifecycles.IdleDeletionExactly` | internal/uploadsession/session.go:32-40 | idle deletion takes exactly the uploads without activity since its cutoff |
| `FolderLifecycles.SessionsAreKept` | internal/cache/service.go:811-822 | an upload row is made by its creation at the current time, renewed only by a finished part, gone exactly after one of the three endings, and otherwise unchanged |
| `FolderLifecycles.ClockAndOutbox` | internal/storageoutbox/outbox.go:13-42 | only waiting lets time pass; whatever a step queues gets a task in the same step, and a task leaves only when its deletion is complete |
| `FolderLifecycles.NoPlaceIsQueuedTwice` | internal/cleanup/orphaned_storage.go:314-361 | over every run a folder or subfolder has at most one task |
| `FolderLifecycles.ObjectsMove` | internal/cache/service.go:782-800 | storage changes one object at a time, by writes, deletions and merges that land; no transaction touches it |
| `FolderLifecycles.FinishFollowsAnAnswer` | internal/cache/service.go:1099-1147 | over every run a merge is recorded only after storage has answered that its object is complete |
| `FolderProgress.UploadsCanBeSaved` | internal/cache/service.go:490-525 | from every reachable state, any nonempty list of parts whose sizes can be added up can be uploaded under a new folder for a tuple that nobody is uploading, and finalized: the row has exactly these sizes and contents, and the tuple leads to it |
| `FolderProgress.WhatIsUploadedIsRead` | internal/cache/download.go:22-53 | and whoever then looks up the tuple gets a lease for exactly the bytes that were uploaded |
| `FolderProgress.EntriesCanBeLookedUp` | internal/storagelifecycle/service.go:300-314 | every entry can be read, merged or not; a direct download can if and only if the location is merged or a single part |
| `FolderProgress.EntriesAreServed` | internal/storagelifecycle/service.go:182-298 | who looks up an entry and at once asks for a lease gets it, and for its whole time, whatever other steps follow, the leased representation stays in storage |
| `FolderProgress.MergesBeginExactly` | internal/storagelifecycle/service.go:911-914 | where merging is enabled, a merge can begin exactly when the location is live, unmerged, in several parts and not unsupported, and nobody holds it: its lease ran out or was given up, or a merge from before leases began over fifteen minutes ago |
| `FolderProgress.HoldersDecideExactly` | internal/storagelifecycle/service.go:935-1015 | only who holds the unexpired lease can renew it, finish or give up as unsupported; to finish, the object must be complete; to release it the lease need not be unexpired |
| `FolderProgress.LocationsCanBeMerged` | internal/cache/service.go:1099-1147 | from every reachable state such a location can be merged, also when storage answers only at the second attempt; then it holds the concatenation of its parts, and nothing else has changed |
| `FolderProgress.PartsAreClaimedExactly` | internal/storagelifecycle/service.go:815-860 | parts can be claimed exactly when the location is live, merged and not yet claimed, and no unexpired lease is for its parts |
| `FolderProgress.QueuedPlacesCanBeEmptied` | internal/storageoutbox/outbox.go:24-42 | whatever was queued can be deleted object by object, and nothing else is touched by that |
| `FolderProgress.LocationsGoExactly` | internal/storagelifecycle/service.go:626-631 | when the entries of a location are detached and it is fenced again after some time, the row is gone if and only if the grace period, every lease on it and the lease of its merge have run out by then; its folder is queued with that |
| `FolderProgress.OrphansAreClaimedExactly` | internal/cleanup/orphaned_storage.go:314-361 | a folder can be claimed as an orphan exactly when no upload row, no location row and no task names it, and is queued as a whole |
| `FolderProgress.TuplesComeFree` | internal/cache/service.go:282-316 | after any of the three endings of an upload its tuple can be uploaded again |
| `FolderProgress.EveryFolderCanBeFreed` | internal/storagelifecycle/service.go:626-631 | nothing is stranded: from every reachable state, all objects of any folder, be it in an upload, a location or retired, can be removed by the steps of the protocol, without touching another object |
| `FolderOwnership.DropUploadKeepsOwnership` | internal/cache/service.go:852-875 | deleting an upload row together with queueing its folder leaves the folder with one owner, the outbox |
| `FolderOwnership.ClaimOrphanKeepsOwnership` | internal/cleanup/orphaned_storage.go:314-361 | claiming an unreferenced folder takes it from nobody |
| `FolderOwnership.FenceKeepsRows` | internal/storagelifecycle/service.go:726-801 | fencing leaves no entry or lease without its location row |
| `FolderOwnership.RetiresExactlyWhenDue` | internal/storagelifecycle/service.go:755-800 | a fence without entries deletes the row exactly when the grace period is over, no unexpired lease is left and no merge is running |
| `FolderOwnership.DetachingIsExact` | internal/storagelifecycle/service.go:626-631 | detaching entries fences a location exactly when no entry is left, and deletes it, queueing its folder, exactly when it may go as well |
| `FolderNames.PrefixIsCovers` | internal/storage/s3.go:531-533 | deleting the prefix of a task removes exactly the objects that the protocol lets the task remove |
| `FolderOwnership.RowsLeaveAfterGrace` | internal/storagelifecycle/service.go:784-797 | any step that removes a location row finds it fenced for the whole grace period, unread and unmerged |
| `FolderOwnership.LookingKeepsRows` | internal/storagelifecycle/service.go:202-262 | a reader that does not lock the row it read may insert its lease later, because the representation it saw cannot go |
| `FolderOwnership.InsertKeepsRows` | internal/storagelifecycle/service.go:264-290 | inserting a lease keeps every lease on a live row with the representation it is for |
| `FolderOwnership.ClaimPartsKeepsRows` | internal/storagelifecycle/service.go:815-878 | parts deletion is claimed only when no lease on the parts is left |
| `FolderOwnership.MergeRefines` | internal/storagelifecycle/service.go:935-1015 | renewing, finishing, giving up or releasing a merge changes a row only in ways that readers and parts deletion can rely on |
| `FolderOwnership.ComposedKeepsInv` | internal/cache/service.go:1099-1147 | a composed object may land at any time: after its token was lost, after another merge finished and the parts were deleted, after its location went, or without the merge hearing of it |
| `FolderOwnership.CopiedKeepsInv` | internal/cache/service.go:1103-1111 | copying the parts one at a time, while anything else goes on, disturbs no invariant |
| `FolderOwnership.LeasesProtect` | internal/storagelifecycle/service.go:736-798 | while a lease row exists, its location row exists and all objects of the leased representation are in storage |
| `FolderOwnership.ReadersAreSafeUntilExpiry` | internal/storagelifecycle/service.go:264-297 | a lease that is neither released nor renewed keeps its representation in storage until it expires, whatever else runs |
| `FolderOwnership.LeaseStays` | internal/storagelifecycle/service.go:767-783 | no step but its own release or renewal removes or changes an unexpired lease |
| `FolderContents.StepIsFaithful` | internal/cache/service.go:782-800 | a step spoils the contents of live locations if and only if it writes something else over one of their finalized parts |
| `FolderContents.WriteIsExact` | internal/cache/service.go:782-800 | the same for a single object write |
| `FolderContents.ComposedKeepsFaithful` | internal/cache/service.go:1103-1111 | a merge writes the concatenation of the finalized parts whenever it lands, also when the parts are gone by then |
| `FolderContents.CopiedKeepsTraced` | internal/cache/service.go:1103-1111 | while its location lives, a merge copies parts as they were finalized, and keeps them |
| `FolderContents.ServedIsSaved` | internal/cache/download.go:44-53 | both representations of a live location serve the same finalized bytes |
| `FolderContents.SavedStays` | internal/cache/service.go:910-921 | what was saved for a location never changes |
| `FolderSizes.FinalizeRecordsExactly` | internal/cache/service.go:490-515 | a finalization records the part sizes of what it finalizes if and only if every part still has, at the commit, the size that the inspection found |
| `FolderSizes.StepIsRecorded` | internal/cache/service.go:513-515 | the recorded sizes of live locations go wrong in a commit of outdated sizes and in no other step |
| `FolderSizes.SizeIsRightExactly` | internal/cache/service.go:490-515 | over any run from the inspection of a part to the commit, the recorded size of the part is right if and only if the last write to it in between, if any, had that length |
| `FolderSizes.PartIsLastWrite` | internal/cache/service.go:782-800 | while its upload goes on, a part holds what was last written to it, whatever else happens |
| `FolderReads.RunIsRightExactly` | internal/cache/service.go:490-525 | over any run, live locations hold what was finalized, with the right sizes, in every state if and only if no step overwrites a finalized part with something else and no commit records outdated sizes |
| `FolderReads.TimelyRunsAreSound` | internal/cache/service.go:782-800 | that is so when parts are written only while the upload row exists and no part changes its length between its inspection and the commit |
| `FolderSizes.StepFitsExactly` | internal/cache/service.go:490-515 | the sizes found by inspections that can still commit go out of date in a write of another length to a part already inspected, and in no other step |
| `FolderReads.CarefulWritersAreEnough` | internal/cache/service.go:782-800 | from an empty database, contents and sizes of live locations are right in every state if every write is to a folder whose upload row exists and keeps the length that a pending inspection has found for the part |
| `FolderReads.ReadersGetWhatWasSaved` | internal/cache/download.go:22-53 | in such runs every leased reader gets the finalized bytes, as many as the recorded size says, from the parts or the merged object, at every moment |
| `FolderReads.LaterSizesAreSaved` | internal/cache/download.go:166-181 | in such runs a part that is inspected at any moment, also by another process, has the size it was finalized with |
| `FolderReads.LaterIndexIsRecorded` | internal/cache/download.go:166-181 | so an index loaded later, one part at a time, is made from the recorded sizes |
| `FolderReads.LateWriteIsSeen` | internal/cache/service.go:782-800 | a concrete run: a part still being written when its upload is finalized changes the cache afterwards; only the row update behind the write fails |
| `FolderReads.EarlyWriteIsMisrecorded` | internal/cache/service.go:490-525 | a concrete run: a part rewritten between its inspection and the commit leaves wrong sizes behind, though the contents are what was finalized |
| `FolderNames.NameInjective` | internal/storage/inventory.go:164-170 | no two objects of the protocol have the same name in storage |
| `FolderRanges.RangesOfWhatWasSaved` | internal/cache/download.go:83-164 | over any sound run a ranged reader gets, from whichever representation it has leased, exactly the range of the finalized bytes or its rejection; the recorded size and the index are those the run left behind |
| `FolderRanges.LeasedServes` | internal/cache/download.go:83-164 | in every good state a lease protects all that a ranged reader needs: the objects under their names, the recorded size and the index agree |
| `FolderRanges.EarlyWriteIsServedWrong` | internal/cache/download.go:124-164 | in the run with the early write a ranged reader gets bytes other than those at its range, and no error |
| `UploadSessions.ActivityProtects` | internal/uploadsession/session.go:14-47 | activity at a time protects a session from takeovers for five minutes and from cleanup for fifteen; cleanup removes nothing that a takeover would not; UploadSessions.IdleExactly gives the converse |
| `UploadSessions.IdleExactly` | internal/uploadsession/session.go:32-40 | a session is idle at a cutoff if and only if it was neither created nor renewed since |
| `UploadSessions.HeartbeatProtects` | internal/cache/upload_activity.go:13-57 | while an operation renews its session at any interval that with the timeout stays within five minutes, and five minutes beyond, no takeover finds it idle |
| `UploadReservations.Reserve` | internal/cache/service.go:279-317 | the reservation loop ends whatever other requests do between its calls and removes only sessions idle for five minutes; alone, it answers that the tuple is in use if and only if one of its sessions was active in the last five minutes, otherwise removes them all and creates the row, and fails only when every id drawn was taken |
| `UploadReservations.ReservationAnswers` | internal/cache/service.go:282-316 | that follows from giving way one by one in id order: sessions of other tuples and active ones stay as they were |
| `UploadReservations.GivingWayMeans` | internal/cache/service.go:283-303 | the sessions that gave way are idle ones of the tuple, and precede all that remain |
| `UploadReservations.TryOnce` | internal/cache/service.go:282-316 | a round returns, consumes an attempt, or removes a row |
| `UploadReservations.TakeOver` | internal/cache/service.go:285-303 | an existing session gives way, is reported as in use, or was gone already |
| `UploadReservations.CreateUploadRecord` | internal/cache/service.go:707-742 | up to five ids are drawn; alone, it fails only when all five are taken |
| `UploadReservations.UploadTable.DeleteIfInactive` | internal/uploadsession/session.go:50-81 | a row is removed only if it is idle at the moment of the deletion, and exactly then its folder is queued |
| `UploadReservations.OthersMakeNothingIdle` | internal/cache/upload_activity.go:59-71 | no request makes a row idle at a cutoff that has passed |
| `UploadReservations.RunUploads` | internal/cleanup/service.go:79-106 | passive cleanup ends whatever others do; every row that is left was active since its cutoff; it counts its deletions, removes only sessions idle for fifteen minutes and queues the folder of each; alone, it removes exactly the idle ones |
| `UploadReservations.CleanPage` | internal/cleanup/service.go:95-104 | after a page no listed row is idle any more |
| `StorageDeletions.StorageDeletionRetryDelay` | internal/cleanup/service.go:332-341 | the doubling loop computes five minutes doubled per attempt after the first, capped at a day, without overflow |
| `StorageDeletions.DelaysGrow` | internal/cleanup/service.go:332-341 | more attempts never mean a shorter wait |
| `StorageDeletions.DelayDoubles` | internal/cleanup/service.go:332-341 | the first failure waits for the base delay, every further one twice as long as the one before, up to a day |
| `StorageDeletions.RetriesAreSpaced` | internal/cleanup/service.go:324-330 | a task whose failure was recorded is due again exactly when the delay of one more attempt has passed |
| `StorageDeletions.QueryHidesNothing` | internal/cleanup/service.go:288-297 | the page query, rounded to milliseconds, hides no task that is ready |
| `StorageDeletions.RunStorageDeletions` | internal/cleanup/service.go:283-322 | one run attempts every due task once and changes no other row; it counts the successes and collects the failures; a failure raises the attempt counter only if it could be recorded; a run that a failing query ends has done so for the tasks up to some id |
| `StorageDeletions.SweepPage` | internal/cleanup/service.go:310-320 | a page attempts its due tasks and leaves the rest |
| `OrphanedStorage.UnderIsTopLevel` | internal/cleanup/orphaned_storage.go:326-328 | for a top-level folder the equality and prefix conditions pick exactly the names whose first segment it is |
| `OrphanedStorage.ActiveUploadFolders` | internal/cleanup/orphaned_storage.go:265-312 | the keyset-paged search, which may stop early, finds exactly the folders of the batch that some upload row is under |
| `OrphanedStorage.OrphansAreUnclaimed` | internal/cleanup/orphaned_storage.go:314-361 | a top-level folder is queued if and only if it is old and no row is for it or anything inside it, and once in spite of duplicates |
| `OrphanedStorage.ProcessOrphanFolderBatch` | internal/cleanup/orphaned_storage.go:100-145 | a batch queues exactly what one claim after the other would, so the first queries change nothing; it counts that, and stops in front of the first folder at which it is cancelled |
| `OrphanedStorage.RunOrphanedStorage` | internal/cleanup/orphaned_storage.go:53-98 | batch after batch queues what one batch of the whole walk would; a batch that fails, or a cancellation between any two folders, ends the walk with a prefix handled |
| `OrphanedStorage.BatchesAddUp` | internal/cleanup/orphaned_storage.go:61-78 | where the batches are cut makes no difference |
| `OrphanedStorage.Tables.Claim` | internal/cleanup/orphaned_storage.go:326-353 | a claim succeeds exactly when none of the three tables has a name under the folder |
| `CacheMatching.MatchCacheEntry` | internal/cache/service.go:653-676 | the entry is the best of the first scope and key that have a match, in the order of scopes, then keys; none is returned only when nothing matches any |
| `CacheMatching.FindExactOrPrefixed` | internal/cache/service.go:988-1007 | an exact match wins, otherwise the latest update among the keys with the prefix |
| `CacheMatching.FindCacheEntry` | internal/cache/service.go:1009-1030 | some matching entry, for prefixes one updated last; none if and only if there is none |
| `CacheMatching.SortIsStable` | internal/cache/service.go:691-695 | permissions fall, grants are neither lost nor added, and equal ones keep their order |
| `CacheMatching.ReadScopesAreTheGranted` | internal/cache/service.go:697-704 | exactly the scopes granted for reading are searched |
| `CacheMatching.WriteScope` | internal/cache/service.go:682-689 | the first scope with write permission, or none |
| `LeaseReleasing.EveryRunKeepsInv` | internal/cache/reader_lease_releaser.go:70-188 | over every interleaving: ids reach the release call first in, first out and once, in batches of one to the batch size; the timer is armed exactly while part of a batch waits; nothing is sent on, or closes, a closed queue; accepted ids add up to finished, pending and abandoned ones |
| `LeaseReleasing.FromStart` | internal/cache/reader_lease_releaser.go:44-68 | this holds from construction, for any requested sizes |
| `LeaseReleasing.GracefulShutdownReleasesAll` | internal/cache/reader_lease_releaser.go:91-115 | without a cancellation the worker leaves only after every accepted id was handed over and its call finished |
| `LeaseReleasing.NothingIsLostWithoutATimeout` | internal/cache/reader_lease_releaser.go:91-115 | over every run in which no shutdown times out, the worker leaves only after every accepted id was handed over and its call finished |
| `LeaseReleasing.EnqueueAcceptsExactly` | internal/cache/reader_lease_releaser.go:70-89 | an id is accepted if and only if it is empty, or shutdown has not begun and the queue has room; only then it is queued |
| `LeaseReleasing.IdleWorkerHasReleasedAll` | internal/cache/reader_lease_releaser.go:125-167 | when the worker can do nothing more, without a timed-out shutdown everything accepted was handed over and its call finished |
| `LeaseReleasing.CancelledCallIsTheLast` | internal/cache/reader_lease_releaser.go:169-187 | after a cancellation the call under way is the last: its ids are finished unless it fails, and all others that are left are abandoned |
| `LeaseReleasing.FailedCallIsForgotten` | internal/cache/reader_lease_releaser.go:169-187 | a call that fails without a cancellation ends like one that succeeds |
| `LeaseReleasing.ShutdownsWaitForTheWorker` | internal/cache/reader_lease_releaser.go:91-115 | a shutdown waits exactly when the worker was started, can time out only while it waits, and returns only when the worker is gone |
| `LeaseReleasing.GoneWorkerFreesAllWaiters` | internal/cache/reader_lease_releaser.go:107-114 | once the worker is gone, every waiting shutdown returns |
| `LeaseReleasing.WorkerRunsAreShort` | internal/cache/reader_lease_releaser.go:125-167 | between two enqueues the worker takes only finitely many steps |
| `LeaseReleasing.ShutdownIsNotStuck` | internal/cache/reader_lease_releaser.go:107-114 | while somebody waits in Shutdown, the worker can go on or is gone |
| `LeaseReleasing.Settled` | internal/cache/reader_lease_releaser.go:51-59 | the batch size is at least one and fits the queue |
| `LeaseReleasing.ReaderLeaseReleaser.Enqueue` | internal/cache/reader_lease_releaser.go:70-89 | an id is accepted exactly when the call says so; the empty id is not queued |
| `LeaseReleasing.ReaderLeaseReleaser.BeginShutdown` | internal/cache/reader_lease_releaser.go:91-105 | accepting ends and the queue is closed once |
| `LeaseReleasing.ReaderLeaseReleaser.Receive` | internal/cache/reader_lease_releaser.go:138-158 | an id joins the batch; a full batch is released and the timer disarmed |
| `LeaseReleasing.ReaderLeaseReleaser.Tick` | internal/cache/reader_lease_releaser.go:159-165 | the delay releases the collected part of a batch |
| `LeaseReleasing.ReaderLeaseReleaser.SeeClosed` | internal/cache/reader_lease_releaser.go:139-145 | the closed queue releases what is left, if anything |
| `LeaseReleasing.ReaderLeaseReleaser.SeeCancelled` | internal/cache/reader_lease_releaser.go:135-137 | a cancellation abandons the batch and the queue |
| `LeaseReleasing.ReaderLeaseReleaser.EndRelease` | internal/cache/reader_lease_releaser.go:169-182 | a failed call counts as abandoned only after a cancellation |
| `LeaseReleasing.ReaderLeaseReleaser.Check` | internal/cache/reader_lease_releaser.go:183-187 | after the call a cancellation abandons the queue |
| `PartIndexCaching.PartIndexCache.Add` | internal/cache/part_index.go:127-158 | the new list is the touched or extended old one; map and list keep the same entries, and the used weight is their sum and within the capacity |
| `PartIndexCaching.PartIndexCache.MakeRoom` | internal/cache/part_index.go:145-154 | evicting from the back keeps exactly the longest run of recent entries that leaves room, and the list cannot run out |
| `PartIndexCaching.EvictsNoMoreThanNeeded` | internal/cache/part_index.go:145-154 | a run of the most recent entries leaves room if and only if it is no longer than what is kept |
| `PartIndexCaching.AddedWellFormed` | internal/cache/part_index.go:133-158 | no duplicate key, right weights, capacity kept |
| `PartIndexCaching.AddedFind` | internal/cache/part_index.go:133-158 | the key is found afterwards unless it can never fit, a cached index is not replaced, and other keys are found as before or evicted |
| `PartIndexCaching.TouchKeepsEntries` | internal/cache/part_index.go:137-140 | a hit reorders and loses nothing |
| `PartIndexCaching.TouchWellFormed` | internal/cache/part_index.go:137-140 | a hit puts the entry first and keeps the weight |
| `PartIndexCaching.TouchMoves` | internal/cache/part_index.go:137-140 | a hit moves its entry to the front and leaves the others in their order |
| `PartIndexCaching.AddedKeepsOrder` | internal/cache/part_index.go:145-158 | an index that is put in comes first, and behind it the most recent entries in their order |
| `PartIndexCaching.WeightIsMemory` | internal/cache/part_index.go:141-141 | the cache charges exactly the bytes of the names, eight bytes for every boundary and 64 for every entry |
| `PartIndexCaching.CapacityBoundsMemory` | internal/cache/part_index.go:141-155 | names, boundaries and overhead of all entries together stay within the capacity |
| `SingleFlight.EveryRunKeepsInv` | internal/cache/part_index.go:89-125 | over every interleaving: a key is in flight exactly while its one owner loads it, every waiter waits on a closed flight or the live one for its key, and every successful caller gets what its key loads; who succeeds, FlightOutcomes says |
| `SingleFlight.FromStart` | internal/cache/part_index.go:81-87 | this holds from an empty cache of any capacity |
| `SingleFlight.AtMostOneLoad` | internal/cache/part_index.go:111-123 | a key is in flight if and only if exactly one caller loads it |
| `SingleFlight.QuietRunsAreShort` | internal/cache/part_index.go:91-124 | callers inside take only finitely many steps, failed and cancelled ones included |
| `SingleFlight.NobodyIsStuck` | internal/cache/part_index.go:99-109 | while a call is unfinished some caller can move without being cancelled |
| `FlightOutcomes.CallsEndAsTheirLoads` | internal/cache/part_index.go:89-125 | over every run from an empty cache: a call fails exactly when its own load failed and is cancelled exactly when it was cancelled; a load of its own that succeeds gives it that index; it gets an index otherwise only if the run has loaded or added one for its key, and says exactly whether it had to wait |
| `FlightOutcomes.NoFailureWithoutAFailedLoad` | internal/cache/part_index.go:115-123 | over every run in which no load of a key failed, no caller of the key fails |
| `FlightOutcomes.PutIsFound` | internal/cache/part_index.go:118-120 | an index that was loaded or added and fits the capacity is found at once |
| `FlightOutcomes.FoundUntilEvicted` | internal/cache/part_index.go:133-158 | it is found until another index that fits is put in and leaves no room for all |
| `FlightOutcomes.HitIsServed` | internal/cache/part_index.go:92-98 | a caller whose key is cached is done at once, without load or wait, and only the order of the list changes |
| `FlightOutcomes.WaitersCanBeCancelled` | internal/cache/part_index.go:99-109 | exactly the waiting callers can be cancelled, at any time, and nobody else is affected |
| `PartIndexes.NewPartIndex` | internal/cache/part_index.go:19-29 | an index exists exactly for sizes that are not negative and sum within int64, and holds their prefix sums; otherwise the first impossible part is named |
| `PartIndexes.Locate` | internal/cache/part_index.go:31-41 | the binary search finds the only part whose interval contains the offset, or the end |
| `PartIndexes.StartsAreSums` | internal/cache/part_index.go:43-49 | starts and sizes of parts are those the index was made from |
| `ByteRanges.ResolutionIsCorrect` | internal/cache/byte_range.go:57-94 | the answer is the interval of the first satisfiable range after valid unsatisfiable ones, within the size and not empty; or unsatisfiable exactly when all are valid and none is satisfiable; as section 14.1.2 of RFC 9110 asks |
| `ByteRanges.ResolutionIsUnique` | internal/cache/byte_range.go:57-94 | nothing else answers |
| `RangedPartsReading.RangedPartsReader.Read` | internal/cache/ranged_parts_reader.go:40-62 | each read appends to what was delivered; a clean end means the whole range was returned; every error says what it means: closed, a needed part missing, or storage failing or too short; a read that returns nothing without an error happens only when a storage body itself answers so; the retry loop ends |
| `RangedPartsReading.RangedPartsReader.CurrentStream` | internal/cache/ranged_parts_reader.go:80-132 | the next part with something left is opened, or the end reported; a closed reader stays closed |
| `RangedPartsReading.RangedPartsReader.FinishPart` | internal/cache/ranged_parts_reader.go:134-145 | a finished part is counted once, however the reader changed meanwhile |
| `RangedPartsReading.RangedPartsReader.Close` | internal/cache/ranged_parts_reader.go:64-78 | closing takes nothing back and happens once |
| `RangedPartsReading.PlanReadsSlice` | internal/cache/ranged_parts_reader.go:80-132 | the pieces that the reader opens concatenate to one slice of the concatenated parts |
| `RangedPartsReading.SelectionIsServable` | internal/cache/ranged_parts_reader.go:27-38 | a well-formed selection of stored parts can be served in full |
| `RangedPartsReading.CleanEndMeansStored` | internal/cache/ranged_parts_reader.go:112-128 | after a clean end every byte that the index places in the range was stored: a part shorter than the index says never ends cleanly |
| `RangedPartsReading.ReadRange` | internal/cache/ranged_parts_reader.go:40-62 | for all parts, empty ones included, every valid selection, all buffer sizes and all chunkings: the bytes are a prefix of the selected slice, and all of it at the end; with storage that answers every request and nobody closing, more nonempty buffers than bytes get all of it and the end |
| `RangedPartsReading.ReadBuffers` | internal/cache/ranged_parts_reader.go:40-62 | as long as no error comes, each nonempty buffer gets at least a byte from storage that answers every request |
| `ObjectStreams.ExactLengthReader.Read` | internal/storage/storage.go:56-84 | exactly the promised count is delivered before a clean end; a stream that ends early is an unexpected end |
| `ObjectStreams.Storage.CreateRangedDownloadStream` | internal/storage/s3.go:353-382 | the stream promises the selected bytes of the object, or is refused |
| `PartsReading.PartsReader.Read` | internal/cache/parts_reader.go:33-53 | whole parts in order; a clean end means all parts were returned; errors mean closed, missing or failing storage; a read that returns nothing without an error happens only when a storage body itself answers so |
| `PartsReading.ReadAll` | internal/cache/parts_reader.go:33-118 | the unranged reader returns a prefix of the stored parts, and all of them at the end, which needs every part; with storage that answers every request, every part there and nobody closing, more nonempty buffers than bytes get all of them and the end |
| `Downloads.RepresentationsAgree` | internal/cache/download.go:83-164 | when recorded size and index are those of the parts, which FolderRanges derives from runs, merged object, single part and many parts give the same total, range and bytes, or the same refusal |
| `Downloads.MergedServes` | internal/cache/download.go:83-97 | the merged object serves the selected slice of the contents, with or without parts beside it |
| `Downloads.PartsServe` | internal/cache/download.go:99-164 | so do the parts, one or many |
| `Downloads.WrongSizeIsRefused` | internal/cache/download.go:141-144 | a recorded size that differs from the total of the index is refused, never served |
| `Downloads.MergedFailsExactly` | internal/cache/download.go:83-97 | an open of the merged object reports it as missing exactly when it is missing and the recorded size does not reject the range first |
| `Downloads.PartsFailExactly` | internal/cache/download.go:99-164 | an open of several parts fails by rejected range, missing part, failed lookup or wrong total, each exactly when that is the first thing wrong in this order |
| `Downloads.ServedIsRead` | internal/cache/ranged_parts_reader.go:27-38 | what is said to be served from several parts is what the reader of RangedPartsReading returns, for every index, one that does not fit the parts included |
| `Downloads.StaleIndexIsBelieved` | internal/cache/download.go:141-164 | an index that does not fit the parts is believed when its total is the recorded size: bytes 0-1 of 7 8 9 5 are served as 7 5 |
| `Downloads.NoPartsNoRange` | internal/cache/download.go:103-106 | a location without parts serves no range |
| `Downloads.Materialize` | internal/cache/service.go:1099-1111 | where the store answers and composes, a background merge succeeds if and only if there are one to ten thousand parts, all of them there and of sizes that the planner accepts; it is unsupported or a part missing only when that is so; it then stores the concatenation of the parts if and only if no part size overflows the planner, and changes nothing else; when it reports a failed completion it has changed nothing or has landed |
| `ObjectNames.PartObjectInjective` | internal/cache/service.go:1249-1251 | part names tell parts apart |
| `ObjectNames.FolderPrefixIsolates` | internal/storage/inventory.go:164-170 | deleting a folder by prefix touches no other root folder |
| `ObjectNames.SubfoldersAreApart` | internal/cache/service.go:1245-1263 | deleting the blocks or the parts touches neither the other nor the merged object |
| `ComposePlanning.PlanParts` | internal/storage/s3.go:258-298 | the planner decides, and plans, as specified slice by slice |
| `ComposePlanning.AcceptsExactly` | internal/storage/s3.go:270-297 | for all positive sizes: it accepts if and only if some source is left after those that overflow the rounding are dropped, there are at most 10000 slices, and all that are left but the last have 5 MiB; with none left it panics; an empty source is refused |
| `ComposePlanning.DroppedSourceIsPlanned` | internal/storage/s3.go:272-297 | a small source followed by one near the int64 limit is accepted, and the plan is the small source alone |
| `ComposePlanning.SlicesTileSource` | internal/storage/s3.go:276-290 | the slices of a source are contiguous, cover it, differ by at most a byte, and are at most 5 GiB; those of a split source at least half that |
| `ComposePlanning.SliceCountIs` | internal/storage/s3.go:272-274 | the rounded-up count is right exactly when its sum does not overflow; otherwise it is negative |
| `ComposePlanning.PlanPreservesContent` | internal/storage/s3.go:258-298 | the planned ranges concatenate to the sources if and only if no source size overflows the rounding |
| `ComposePlanning.ObjectStore.ComposeObjects` | internal/storage/s3.go:171-256 | on a store that answers and composes, the outcome is exactly the verdict: unsupported for no names, too many names or sizes the planner does not accept, a missing source when one is missing, the planner's panic when it panics, composed otherwise; on any store no outcome but a failure or a refusal by the store differs from it; success stores exactly the planned copies and touches nothing else, every failure but that of the completion changes nothing |
| `CycleDetection.CycleDetector.Observe` | internal/storage/s3.go:37-66 | the detector reports exactly when the value equals the checkpoint of Brent's schedule, without overflow |
| `CycleDetection.PhaseShape` | internal/storage/s3.go:52-64 | checkpoints sit one below a power of two and are followed for that many steps, up to saturation |
| `CycleDetection.ReportsAreSound` | internal/storage/s3.go:46-50 | a report means that the value was observed before |
| `CycleDetection.ReportsWithinBound` | internal/storage/s3.go:37-66 | a sequence with tail mu and period lambda is reported by index 2 max(mu + 1, lambda) - 2 + lambda |
| `CycleDetection.LongPeriodsGoUnreported` | internal/storage/s3.go:52-64 | beyond the saturated power no repetition is reported |
| `ObjectWalk.WalkObjects` | internal/storage/s3.go:658-712 | for any server over finitely many tokens the walk ends, at most three times as many pages later, at the point and with the objects and outcome specified |
| `ObjectWalk.WalkVerdict` | internal/storage/s3.go:658-712 | it visits every page once, in order, if and only if the listing ends, and reports a cycle if and only if it never would |
| `ObjectWalk.RepeatedTokenNeverEnds` | internal/storage/s3.go:699-710 | a repeated token means the listing never ends |
| `ObjectWalk.SilentIsShort` | internal/storage/s3.go:699-710 | without a report there are at most three times as many pages as tokens |
| `PrefixDeletion.DeleteByPrefixWithPageLimit` | internal/storage/s3.go:569-641 | every outcome is justified by what was listed and answered: finished only after an empty untruncated page, no progress only after the same page as often as the limit says, a cycle only after an earlier page came again, the work limit only after as many pages, an error only when a call failed; exactly the listed keys are requested, and only keys with the prefix are; on an honest store, which may answer with short pages, neither check fires, exactly the listed keys are gone, and the call finishes, with exactly the prefix keys gone, if and only if its limit exceeds the number of nonempty pages |
| `PrefixDeletion.DeleteByPrefix` | internal/storage/s3.go:565-567 | the same with the page limit per call and the real fingerprint |
| `PrefixDeletion.HonestStep` | internal/storage/s3.go:577-637 | a page of an honest listing, short or full, has a fingerprint never seen before, and its keys are accounted for |
| `PrefixDeletion.HonestEnd` | internal/storage/s3.go:577-640 | an honest store ends finished or at the page limit, as the number of nonempty pages says |
| `PrefixDeletion.FullPagesVerdict` | internal/storage/s3.go:577-640 | when pages are full the limit is decided by the number of keys alone: the call finishes if and only if its limit exceeds the pages that many keys take |
| `PrefixDeletion.PageProgress.Check` | internal/storage/s3.go:605-617 | no progress if and only if the same page came as often in a row as the limit says, a cycle if and only if the detector reports; a fresh page passes |
| `PageFingerprint.FingerprintIdentifiesPage` | internal/storage/s3.go:643-656 | equal fingerprints mean the same keys in any order |
| `PageFingerprint.HashInputInjective` | internal/storage/s3.go:646-652 | length prefixes keep lists of keys apart |
| `PageFingerprint.PermutationsSortAlike` | internal/storage/s3.go:644-645 | sorting makes the order of a page irrelevant |
| `PageFingerprint.TupleHashIdentifiesTuple` | internal/cache/service.go:841-850 | upload tuples with the same hash input are the same tuple |
| `FolderInventory.InspectIndexedFolder` | internal/storage/inventory.go:60-121 | for any order of arrival, duplicates and foreign names: the inventory succeeds if and only if every index arrived and the sum fits, else names the least missing one; sizes are the first reported |
| `FolderInventory.AgreesWithPartIndex` | internal/storage/inventory.go:150-155 | the total in order of arrival fits and equals the total of the part index for exactly the same inputs |
| `FolderInventory.TotalIsIndexOrderSum` | internal/storage/inventory.go:89-121 | adding in order of arrival gives the sum in index order |
| `FolderInventory.UnsummableStays` | internal/storage/inventory.go:150-155 | a sum that failed stays impossible whatever arrives later |
| `FolderInventory.IndexOfIsCanonical` | internal/storage/inventory.go:90-93 | only the canonical decimal name below the expected count is an index |
| `FolderInventory.RecordedIsFirst` | internal/storage/inventory.go:94-102 | the size kept for an index is the first one reported |
| `FolderInventory.FirstIsRecorded` | internal/storage/inventory.go:94-102 | the first size reported for an index is kept |
| `FolderInventory.IndexedFolderAccumulator.Add` | internal/storage/inventory.go:89-104 | one arrival is recorded, or rejected when the sum is impossible |
| `FolderInventory.IndexedFolderAccumulator.Result` | internal/storage/inventory.go:106-121 | the least missing index, or the total and the sizes |
| `FolderInventory.AddStorageBytes` | internal/storage/inventory.go:150-155 | overflow and negative sizes are rejected, all else added |
| `Bitmaps.Bitmap.Mark` | internal/storage/inventory.go:94-98 | setting a bit marks one index and no other |
| `Decimals.AtoiItoa` | internal/storage/inventory.go:90-91 | decimal names read back as their number |
| `CapacityEviction.Enforce` | internal/storagecapacity/service.go:178-249 | a pass counts what happened to the rows it visited, visits them as the next row says, and is constrained only when no row that is there all the time was left out; errors abort it with the counts so far |
| `CapacityEviction.VisitsAreOrdered` | internal/storagecapacity/service.go:209-246 | rows are visited in strictly increasing order of recency and id, each at most once; no row that every query lists is passed over; before each visit usage was above the target |
| `CapacityEviction.PassIsMinimal` | internal/storagecapacity/service.go:232-247 | claimed, pinned and stale rows are counted each by its own counter and the counts add up to the visits; usage after is usage before less the claimed bytes, not below zero; without the last claim it would still exceed the target |
| `CapacityEviction.KeysetIsOrder` | internal/storagecapacity/service.go:300-310 | the keyset condition selects exactly the rows behind the cursor |
| `CapacityEviction.NextPageContinues` | internal/storagecapacity/service.go:294-325 | a page carries on where the visits stopped, and is empty only when nothing was left out |
| `CapacityEviction.UsageIsClampedOnce` | internal/storagecapacity/service.go:236-236 | clamping at every claim is clamping once |
| `CapacityEviction.RatioFloor` | internal/storagecapacity/service.go:350-352 | nine tenths of the budget, rounded down, with no step outside int64; rounded towards zero for negative budgets |

## Left out

- PartIndexCaching.PartIndexCache.Add: the sum of used and new weight is an unbounded integer; in int64 it could wrap only for capacities above 2^62 bytes.
- CapacityEviction.Enforce: byte counters are unbounded integers, and row sizes are the claimed ones; sums over 2^63 bytes are not modelled, nor is the budget as a percentage of a file system, which is floating point; errors of the queries in front of the loop end the pass and are left out.
- UploadReservations.Reserve: begins after the write scope and the advisory check for a live entry, and leaves out database errors.
- StorageDeletions.RunStorageDeletions: other processes working on the same tasks during a run are modelled only in FolderProtocol.
- OrphanedStorage.RunOrphanedStorage: other requests during a walk are modelled only in FolderProtocol, where the claim is one transaction.
- LeaseReleasing.EveryRunKeepsInv: the flush delay is an event that may come at any time while the timer is armed.
- FolderOwnership.EveryRunKeepsInv: observations of row versions, on which capacity eviction and the purge of dangling entries insist, are left out, so these steps may happen more often than they do; the steps are therefore one, detaching entries and fencing.
- Isolation of the database: a transaction is atomic, except that a reader's lookup and lease insertion are separate steps where the source takes no lock.
- Copying one part in several ranges: a merge copies a part at once, so a copy of a part that is overwritten meanwhile is all old or all new.
- Failed deletions of folders: objects are deleted one by one, and a task may be completed or stay; the attempt counter is modelled in StorageDeletions.
- Walking top-level folders in S3 uses the same loop and detector as the modelled walk and is left out.
- Revalidation of the reader lease after a slow index lookup, direct-download URLs and their signing, materialization slots and their shutdown.
- File-system storage, multipart uploads and their abortion, HTTP, authentication, configuration, metrics, logging, migrations and generated database code.
- The bounded retry around a match that finds its location missing or fenced; its purge is the detaching step of FolderProtocol.
- Size reconciliation and the retention pass: loops like the ones modelled around the same lifecycle transactions.
