# Test-paper backend: verified model

This project models the behaviour of the test-paper backend in Dafny and proves properties of that model.
It covers six parts of the service, hardest first.

1. **Sync v1** (`Sync*.dfy`, `ConflictRules.dfy`). One owner's stream of entities, append-only version rows, a
   change log, a stream row with epoch and horizon, device cursors and idempotency batches. `SyncTypes` has the rows
   and messages; `SyncState` is the database as one value (`Db`) with the one write every accepted change makes;
   `SyncStore.Store` is the same database as a class updated in place, and each service method
   (`PushMutations`, `ResolveConflict`, `RestoreVersionOf`, `CompactSyncStream`, `PullChanges`, ...) is proved to do
   to the class what a function (`Push`, `Resolve`, `RestoreTo`, `Compact`, `Pull`, ...) does to the value.
   `SyncRuns` then proves what any run of those calls keeps, `SyncAnswers` when reads are answered, `SyncDecisions` what
   a push answers and whose content a decision accepts, `SyncReplica` adds one replica per device, and
   `SyncUndo` follows undo and redo across whatever lies between.
2. **Attachments** (`Attachment*.dfy`). Chunk arithmetic and assembly, the row triggers that keep reference counts,
   the reference lifecycle, and the maintenance run that expires uploads and collects blobs. `AttachmentService.Service`
   is the class; `AttachmentRuns` has the statements about every run, including runs in which files are damaged, and
   `AttachmentUploads` follows one upload through such a run.
3. **Paper generation** (`Ranking`, `MarkDistribution`, `TargetCounts`, `Fitness`, `GeneticSearch`, `PaperGeneration`).
   Mark apportionment with its repair loop, difficulty targets, the fitness of a selection, the genetic search for every
   tape of random draws, and the finished list. Weights, fractions and fitness are reals.
4. **LaTeX math** (`LatexMath`, `LatexProofs`, `LatexRoundTrip`). The recursive-descent translation to formula XML.
   XML is a list of opening, closing and leaf tokens.
5. **Refresh-token families** (`AuthSessions`). Issue, rotation, replay detection and revocation as a class, and runs
   of those actions.
6. **DOCX columns** (`PaperColumns`). Grouping, numbering and the next-fit packing of question blocks into columns.

`Wrappers` has the Option and Result types that all parts share. Service calls are atomic steps that roll back when a
constraint refuses them. Content hashes are injective (`Digest`/`Sha`), with a constructor `Foreign` for hashes of nothing;
cursors are records that a device can only have been given, or noise. Sequence numbers are drawn in commit order, with
arbitrary gaps. Nothing in the sync model assumes that a clock never goes back, apart from the recovery theorem, which says
so; the attachment runs do.

## Where the code falls short of its promise

The model keeps the code as it is. For each but the last there is a lemma with an input that shows the failure, and
one that says for all inputs when the promise holds.

- A create of other content for an entity that was edited since its own creation makes its whole batch fail: the conflict
  it wants to record has no baseline, which a table check allows only for concurrent creates
  (`SyncCounterexamples.CreateOverAnEditLosesItsBatch`). For one mutation `SyncPushProofs.SettleFailsExactly` has the
  exact condition, for a batch `SyncRuns.PushFailsExactly`, and for a retry after any run `SyncRuns.RetryFailsExactly`: it
  fails as long as it may be tried and the stored content is not what it asks for.
- Undoing the undo of a saveCopy looks the version up in the conflict's own entity. The copy stays deleted and the
  other entity is overwritten (`SyncCounterexamples.UndoOfUndoneCopyMisses`; exactly when: `SyncUndo.UndoOfUndoExactly`
  and, with no call in between, `SyncUndo.UndoOfUndoAtOnce`).
- A closing brace nobody opened ends the whole formula. What follows it is dropped, as in `a}b`, unless nothing was read
  before, as in `}x`, which is shown as it is (`LatexProofs.UnopenedBraces`; exactly when: `LatexProofs.ReadsToTheEnd`).
- The chunk files of a completed upload are never unlinked: its rows go with its blob, and then nothing names the files
  (`AttachmentFiles.CompletedChunksStay`; exactly which files go: `AttachmentFiles.FilesGoExactly`).
- A gap in the sequence numbers below the first recent row is enough for a compaction to move the horizon and rotate the
  epoch, which sends every device back to a snapshot although no row above the horizon is past retention
  (`SyncCompaction.GapsMoveTheHorizon`; exactly when: `SyncCompaction.CompactionMovesExactly`).
- The check for too few candidate questions is dead code, because the type targets are already cut down to what is
  available (`PaperGeneration.TargetsFit`, for all inputs).

## Model

| member | source | states |
|---|---|---|
| SyncLog.CompactionKeepsViews | testpaper_backend/services/sync_compaction.py:35-51 | deleting the superseded rows up to a horizon leaves the newest row of every entity at every boundary from the horizon on |
| SyncLog.AdmittedDeleteKeepsViews | alembic/versions/20260823_0027_sync_compaction_boundary_anchor.py:26-60 | one delete that the row trigger admits leaves every view at or above the horizon |
| SyncLog.GuardedDeletesKeepViews | alembic/versions/20260823_0027_sync_compaction_boundary_anchor.py:26-60 | any sequence of admitted single-row deletes keeps every view from the horizon on and every row above it |
| SyncLog.CompactionAdmittedInAnyOrder | alembic/versions/20260823_0027_sync_compaction_boundary_anchor.py:26-60 | the delete set of a compaction passes the row trigger in whatever order its rows are taken, and leaves the same log |
| SyncLog.PreservedRowsAreEntities | testpaper_backend/services/sync_compaction.py:98-172 | what is kept at or below the horizon is one row for each distinct entity with a row there |
| SyncCompaction.CompactionPreservesMeaning | testpaper_backend/services/sync_compaction.py:98-172 | a compaction never lowers the horizon, and every view at or above the new one is the one before |
| SyncCompaction.CompactionMovesExactly | testpaper_backend/services/sync_compaction.py:98-187 | a run of allowed retention applies exactly when the sequence behind the horizon is past retention with all rows at or below it; the horizon then moves to the greatest sequence of which that holds |
| SyncCompaction.OldRowsAreCompacted | testpaper_backend/services/sync_compaction.py:104-134 | a row above the horizon that is past retention with all rows before it makes a run apply and comes to lie at or below the new horizon; no row newer than the cutoff does |
| SyncCompaction.GapsMoveTheHorizon | testpaper_backend/services/sync_compaction.py:104-113 | a log in which no row above the horizon is old, and whose horizon moves for a gap in the numbers alone |
| SyncCompaction.DryRunForetells | testpaper_backend/services/sync_compaction.py:145-187 | a run that does not apply changes nothing and reports what applying it would |
| SyncCompaction.CompactionDeletes | testpaper_backend/services/sync_compaction.py:74-172 | a row goes exactly when the run applies and a newer row of its entity lies at or below the new horizon; every row that goes is no newer than the cutoff, in whatever clock order the rows stand |
| SyncCompaction.CompactionCounts | testpaper_backend/services/sync_compaction.py:98-187 | preservedRows is the number of distinct entities at or below the horizon, deletedRows what the log lost |
| SyncCompaction.CompactKeepsCore | testpaper_backend/services/sync_compaction.py:54-187 | compaction keeps the log sorted and in agreement with the entities, and the histories |
| SyncCompaction.CompactSyncStream | testpaper_backend/services/sync_compaction.py:54-187 | the service changes the tables exactly as Compact says; its row deletes are all admitted and its recount check never fires |
| SyncCompaction.DeleteSuperseded | testpaper_backend/services/sync_compaction.py:160-172 | deleting row by row under the trigger removes exactly the superseded rows and counts them |
| SyncHistory.HistoryGrows | testpaper_backend/services/sync_conflicts.py:258-291 | a version table that grew starts every entity's history with what it was |
| SyncHistory.FindVersionInChain | testpaper_backend/services/sync_conflicts.py:405-422 | in a chained history the lookup by number finds version n at position n, and nothing outside 1..length |
| SyncState.AcceptKeepsProjection | testpaper_backend/services/sync_push.py:244-291 | after an accepted write each entity's newest log row exists and carries its version, hash, tombstone and payload |
| SyncState.AcceptKeepsHistory | testpaper_backend/services/sync_push.py:227-275 | an accepted write appends the next version chained to its predecessor by number and hash, and touches no other history |
| SyncState.AcceptKeepsCore | testpaper_backend/services/sync_push.py:227-298 | an accepted write with an unused operation keeps log, projection, histories and operation uniqueness |
| SyncPush.ValidateOperationGraph | testpaper_backend/schemas/sync.py:125-136 | accepts a batch exactly when operation ids are unique and dependencies name earlier operations |
| SyncPush.ApplyMutationTo | testpaper_backend/services/sync_push.py:164-298 | updating the rows in place does exactly what ApplyMutation says, and a refused constraint leaves them alone |
| SyncPush.SettleIn | testpaper_backend/services/sync_push.py:403-486 | one savepoint, with its retry, does what Settle says |
| SyncPush.PushMutations | testpaper_backend/services/sync_push.py:353-500 | a push does what Push says, including validation, replay and rollback |
| SyncPushProofs.MutationOutcome | testpaper_backend/services/sync_push.py:164-298 | when exactly a mutation applies, is a noop, conflicts or is rejected, by base version and hash, tombstone and content |
| SyncPushProofs.ConflictOutcome | testpaper_backend/services/sync_conflicts.py:73-164 | when exactly a divergence is a noop, a recorded conflict or a refused row |
| SyncPushProofs.SettleOutcome | testpaper_backend/services/sync_push.py:403-486 | when exactly an operation of a batch is applied, a noop, a conflict, rejected or failed by a dependency, by permission, schema, earlier use, dependencies, compare-and-set and content |
| SyncPushProofs.SettleFailsExactly | testpaper_backend/services/sync_push.py:444-460 | an operation loses its batch exactly when it may be tried, is a create of other content than stored, and the newest version of its entity is not a create |
| SyncPushProofs.DependencyClosure | testpaper_backend/services/sync_push.py:403-493 | a settled batch answers every mutation in order, and an applied or noop operation has all transitive dependencies applied or noop |
| SyncPushProofs.OnlyAppliedOperationsWrite | testpaper_backend/services/sync_push.py:403-493 | in a settled batch an operation that did not apply leaves entities, versions and log alone, an applied one makes exactly its own write |
| SyncConflicts.CreateConflictIn | testpaper_backend/services/sync_conflicts.py:73-164 | recording a conflict in the tables does what CreateConflict says |
| SyncConflicts.ResolveConflict | testpaper_backend/services/sync_conflicts.py:310-531 | resolving a conflict in place does what Resolve says, for all six actions, replays and refusals |
| SyncConflicts.RestoreVersionOf | testpaper_backend/services/sync_conflicts.py:552-655 | restoring a version in place does what RestoreTo says |
| SyncDecisions.ConflictIsRecorded | testpaper_backend/services/sync_conflicts.py:73-164 | a recorded conflict holds what the mutation asked for, the entity as stored with author and time of its newest version, the base exactly as named, and the gravest reason of either side |
| SyncDecisions.PushRecords | testpaper_backend/services/sync_push.py:403-493 | the conflict a push answers with is in its tables, recorded against the tables as the operation found them |
| SyncDecisions.OperationOutcome | testpaper_backend/services/sync_push.py:164-493 | for each operation of a settled batch, against the tables it found: the condition of its status, version, hash and error of its answer, and that an applied one gives its entity its content as the next version while any other changes no entity |
| SyncDecisions.DecisionAccepts | testpaper_backend/services/sync_conflicts.py:351-404 | keepLocal accepts the local side, useCloud the cloud side, manualMerge the merged payload, restoreVersion that version of the history, saveCopy the local side for a new entity; one version up, no other entity changed |
| SyncDecisions.DecisionAfterPush | testpaper_backend/services/sync_conflicts.py:310-531 | from the push on, across any run: keepLocal leaves the entity with what the pushed mutation asked for, useCloud with what was stored when it was tried, and so on for each action |
| SyncDecisions.DecisionAppends | testpaper_backend/services/sync_conflicts.py:258-307 | a decision appends one version row and one log row, of the kind its action calls for, under its own operation, device and time |
| SyncDecisions.DecidedExactly | testpaper_backend/services/sync_conflicts.py:310-531 | a new decision is accepted exactly when its conflict exists, the caller saw the entity as it is, the operation is unused and the action fits: the version exists, the copy is new, or the resolution to undo is the newest, not undone and still reversible |
| SyncDecisions.RestoredExactly | testpaper_backend/services/sync_conflicts.py:552-655 | a new restoration is accepted exactly when the caller saw the entity as it is, the version exists and the operation is unused; the entity then has the content of that version and nothing else changed |
| SyncRuns.ReachableStatesAgree | testpaper_backend/services/sync_push.py:244-291 | in every reachable state the log agrees with the entities, histories are hash-chained 1..version, and the audit rows are consistent |
| SyncRuns.HistoryIsImmutable | testpaper_backend/services/sync_conflicts.py:258-291 | no run of any calls alters or removes an earlier version row |
| SyncRuns.AcknowledgedNeverFalls | testpaper_backend/services/sync_read.py:256-282 | a device's acknowledged sequence never falls over any run, whatever cursors are presented |
| SyncRuns.OnlyAcknowledgementsMoveCursors | testpaper_backend/services/sync_read.py:104-150 | no call but an acknowledgement moves a device's cursor |
| SyncRuns.PushReplay | testpaper_backend/services/sync_push.py:313-327 | a settled batch sent again after any run changes nothing and returns the first answer; other content under its key is refused and changes nothing |
| SyncRuns.ResolutionReplay | testpaper_backend/services/sync_conflicts.py:317-348 | the same for a resolution and its operation |
| SyncRuns.RestoreReplay | testpaper_backend/services/sync_conflicts.py:560-590 | the same for a history restoration |
| SyncRuns.OneVersionPerOperation | testpaper_backend/db.py:349-350 | over every run, one operation makes at most one version row across push, resolve and restore, and its decision names that row |
| SyncRuns.PushFailsExactly | testpaper_backend/services/sync_push.py:353-500 | a push fails on a constraint exactly when it is new and well formed and some settled prefix of it meets a mutation that cannot be recorded; every refused push leaves the tables as they were |
| SyncRuns.RetryFailsExactly | testpaper_backend/services/sync_push.py:444-460 | a mutation that lost its batch, tried again after any run, is lost again exactly while it is eligible with its dependencies met and the stored content is not what it asks for |
| SyncUndo.UndoRestoresContent | testpaper_backend/services/sync_conflicts.py:372-422 | undoing the latest resolution, unless it was a saveCopy or the undo of one, gives its entity the payload and tombstone it had just before it, after whatever happened since, and changes no other entity |
| SyncUndo.UndoTwiceRedoes | testpaper_backend/services/sync_conflicts.py:372-422 | a resolution (not a saveCopy or an undo) is undone while its entity is still what it accepted, and after any further run that undo is undone: the entity has the payload and tombstone that the first resolution accepted |
| SyncUndo.UndoOfSaveCopy | testpaper_backend/services/sync_conflicts.py:389-404 | undoing a saveCopy deletes the copy and changes nothing else |
| SyncUndo.UndoOfUndoExactly | testpaper_backend/services/sync_conflicts.py:405-422 | after any run between the two, undoing an undo gives the entity of the first undo back what it had before it exactly when that entity is the conflict's own or has that content already; otherwise it is left as it was |
| SyncUndo.UndoOfUndoAtOnce | testpaper_backend/services/sync_conflicts.py:405-422 | with no call between the two undos, exactly when the first undo wrote the conflict's own entity or there was no content to give back |
| SyncCounterexamples.CreateOverAnEditLosesItsBatch | testpaper_backend/services/sync_push.py:452-460 | a run from the empty server on which a second create, of other content, of an edited entity loses its batch, leaves no trace, and loses it again when sent again at once |
| SyncCounterexamples.UndoOfUndoneCopyMisses | testpaper_backend/services/sync_conflicts.py:409-415 | a run on which undoing an undone saveCopy leaves the copy deleted and writes the other entity |
| SyncRead.PullChanges | testpaper_backend/services/sync_read.py:205-253 | a pull does to the tables and answers what Pull says |
| SyncRead.AcknowledgeCursor | testpaper_backend/services/sync_read.py:256-282 | an acknowledgement does what Acknowledge says |
| SyncRead.SnapshotPageOf | testpaper_backend/services/sync_read.py:285-381 | a snapshot page does what SnapshotEntities says |
| SyncRead.DeviceCursorIn | testpaper_backend/services/sync_read.py:104-150 | the device row is created, refused, re-armed or rotated as TouchDevice says |
| SyncAnswers.PullIsAnswered | testpaper_backend/services/sync_read.py:205-253 | a pull is answered exactly when the device is neither revoked nor lapsed and its position is of this owner, device and epoch and not compacted away; otherwise the error says which and nothing changes |
| SyncAnswers.AcknowledgementIsAnswered | testpaper_backend/services/sync_read.py:256-282 | the same for an acknowledgement and its cursor |
| SyncAnswers.SnapshotIsAnswered | testpaper_backend/services/sync_read.py:285-381 | a first snapshot page is refused to a revoked device alone, however long its cursor has lapsed; a later page also needs the snapshot cursor of this owner, device and epoch |
| SyncAnswers.LapsedDevicesRecover | testpaper_backend/services/sync_read.py:104-150 | after a first snapshot page and any run, while the epoch lasts and the time has not run out, the next page, a pull from the resume cursor and its acknowledgement are answered |
| SyncAnswers.EveryDeviceRecovers | testpaper_backend/services/sync_read.py:285-381 | in every reachable state every device gets a first snapshot page |
| SyncPaging.PageAgrees | testpaper_backend/services/sync_read.py:205-253 | applying a change page to a replica that is the view at its cursor gives the view at the next cursor, and the newest view when no more rows follow |
| SyncPaging.PageProgress | testpaper_backend/services/sync_read.py:205-253 | a page carries the rows behind its cursor in order, as many as the page size within 1 to 500 unless there are fewer, and says that more follow exactly when they do |
| SyncPaging.SnapshotPageAgrees | testpaper_backend/services/sync_read.py:315-381 | a snapshot page extends the view at its fixed boundary from the last key to the next; keys are new, ascending and never repeat; the last page completes the view |
| SyncPaging.SnapshotProgress | testpaper_backend/services/sync_read.py:315-381 | a snapshot page is full unless it is the last, and says that more follow exactly when an entity beyond its last key has a row at the boundary |
| SyncCursors.StepKeepsCursors | testpaper_backend/services/sync_read.py:153-189 | every cursor minted in the current epoch stays between horizon and log maximum through every call with cursors that were handed out |
| SyncCursors.DevicesStayWithin | testpaper_backend/services/sync_read.py:256-282 | over every run from the empty server in which devices present only cursors handed out before, none has acknowledged more than the log maximum |
| SyncCursors.CursorsStayWithin | testpaper_backend/services/sync_read.py:153-189 | over every such run, every cursor handed out points at most at the log maximum, and of the current epoch at least at the horizon |
| SyncCursors.PositionAcknowledged | testpaper_backend/services/sync_read.py:256-282 | an accepted acknowledgement moves the device exactly to the presented sequence when that is further |
| SyncReplica.ReachableSystems | testpaper_backend/services/sync_read.py:205-381 | over any interleaving of server calls and device events, lost acknowledgements included, every device's replica is the latest-per-entity view at its cursor |
| SyncReplica.PullConverges | testpaper_backend/services/sync_read.py:205-253 | in every reachable system a pull from the device's cursor, from its acknowledged checkpoint or for the first time leaves the replica the view at the next cursor, and equal to the server's entities when no more rows follow |
| SyncReplica.SnapshotRecovers | testpaper_backend/services/sync_read.py:285-381 | in every reachable system the snapshot page without a successor, the first or a later one, gives a replica equal to the view at its boundary, and the cursor it resumes from is accepted at once |
| SyncReplica.CursorsStayValid | testpaper_backend/services/sync_read.py:167-189 | in every reachable system a change cursor of the current epoch is not refused for preceding the horizon or exceeding the log |
| AttachmentChunks.ChunksTile | testpaper_backend/services/attachment_transfers.py:333-340 | chunk ranges are non-empty, each starts where the one before ends, and the last ends at byteSize |
| AttachmentChunks.EveryByteInOneChunk | testpaper_backend/services/attachment_transfers.py:224-236 | every byte position lies in exactly one chunk range |
| AttachmentChunks.CompleteExactly | testpaper_backend/services/attachment_transfers.py:59-61 | the stored bytes equal byteSize exactly when no ordinal is missing, and never exceed it |
| AttachmentChunks.AssemblyRestores | testpaper_backend/services/attachment_storage.py:58-83 | the pieces of a content put together in order are the content |
| AttachmentProofs.CountedKeepsCounts | alembic/versions/20260813_0021_attachment_blob_acl_model.py:280-328 | with exact counts the trigger never raises and keeps every count equal to the live bound references |
| AttachmentProofs.LifecycleKeeps | testpaper_backend/services/attachment_maintenance.py:33-61 | deleting or restoring an attachment never trips a trigger and keeps all tables in order |
| AttachmentProofs.BindKeeps | alembic/versions/20260813_0021_attachment_blob_acl_model.py:248-271 | a live reference can be bound exactly to an available blob of its hash and size |
| AttachmentProofs.InitiateKeeps | testpaper_backend/services/attachment_transfers.py:159-252 | starting an upload keeps all tables in order and never trips a trigger |
| AttachmentProofs.AllBytesArrived | testpaper_backend/services/attachment_transfers.py:360-373 | of an upload in progress, uploadedBytes is within byteSize and equals it exactly when no chunk is missing |
| AttachmentProofs.CompleteFailsExactly | testpaper_backend/services/attachment_transfers.py:385-454 | an unexpired upload completes unless chunks are missing, a chunk file is lost, the bytes have another hash, or its reference was deleted, and the error says which |
| AttachmentMaintenance.CollectsExactly | testpaper_backend/services/attachment_maintenance.py:134-204 | a batch loses exactly the blobs that nothing needed before it started |
| AttachmentMaintenance.MaintenanceRemovesExactly | testpaper_backend/services/attachment_maintenance.py:83-204 | a run removes exactly the selected blobs without live reference, retained reference and unexpired upload, and leaves every other blob row as it was |
| AttachmentMaintenance.MaintenanceSpares | testpaper_backend/services/attachment_maintenance.py:134-204 | a live or retained reference and its blob survive every run unchanged |
| AttachmentMaintenance.DetachedLinks | testpaper_backend/services/attachment_maintenance.py:182-204 | without a live reference, detaching the deleted ones leaves nothing that refers to the blob row, so the delete is never refused |
| AttachmentFiles.LiveReferencesDownload | testpaper_backend/services/attachment_transfers.py:457-486 | a live bound reference downloads as bytes of the hash and size it promises |
| AttachmentFiles.DownloadExactly | testpaper_backend/services/attachment_transfers.py:457-486 | whatever the files hold, bytes are handed out exactly for a live bound reference with an available blob and only if they have the promised hash and size; otherwise the blob is quarantined |
| AttachmentFiles.DeletedDoesNotDownload | testpaper_backend/services/attachment_access.py:49-61 | after an attachment is deleted its download is refused |
| AttachmentFiles.InitiateOutcome | testpaper_backend/services/attachment_transfers.py:100-252 | a new upload starts exactly when its reference is new or live with the same metadata and its blob is new or of the same size; it is complete at once exactly when the bytes are stored already, and then downloads |
| AttachmentFiles.InitiateRefusals | testpaper_backend/services/attachment_transfers.py:100-252 | which error a refused start answers with, for a missing entity, a deleted or differently described attachment, and another size of the same bytes; nothing changes |
| AttachmentFiles.StatusReports | testpaper_backend/services/attachment_transfers.py:59-82 | a status names exactly the missing ordinals and, of an upload in progress, all bytes exactly when none is missing |
| AttachmentFiles.ExpiredUploadsAreRefused | testpaper_backend/services/attachment_transfers.py:304-410 | an incomplete upload past its time takes no chunk, does not complete and is not reported |
| AttachmentFiles.ForeignDevicesAreRefused | testpaper_backend/services/attachment_transfers.py:304-410 | a device that did not start an upload can neither add to it nor complete it |
| AttachmentFiles.NewChunksAreStored | testpaper_backend/services/attachment_transfers.py:304-382 | a new chunk that fits and has its declared hash is always stored |
| AttachmentFiles.OnlyFilesOfRemovedRows | testpaper_backend/services/attachment_maintenance.py:206-214 | a run deletes no file but those of rows it removed |
| AttachmentFiles.FilesGoExactly | testpaper_backend/services/attachment_maintenance.py:117-214 | a run unlinks exactly the files of removed blob rows and of the chunk rows of selected uploads past their grace period, but those that resist; every other file stays as it is |
| AttachmentFiles.CompletedChunksStay | testpaper_backend/services/attachment_maintenance.py:182-214 | a run that drops the blob, upload and chunk rows of a completed upload and leaves its chunk file behind |
| AttachmentFiles.CompleteThenDownload | testpaper_backend/services/attachment_transfers.py:385-486 | an unexpired upload whose chunk rows are the pieces of a content completes, and then the attachment downloads as that content |
| AttachmentUploads.InitiateReplay | testpaper_backend/services/attachment_transfers.py:170-186 | before the upload expires, asking again after any run, even one that damages files, returns the status of the same upload and changes nothing; other content under the key is refused and changes nothing |
| AttachmentUploads.AcceptedChunksDecide | testpaper_backend/services/attachment_transfers.py:304-382 | two runs of chunk calls for an upload that had the same (ordinal, bytes) accepted end in the same tables and files, so with the same chunk rows, byte count and assembly |
| AttachmentUploads.SentIsAccepted | testpaper_backend/services/attachment_transfers.py:304-382 | as long as the chunks for an ordinal agree, what is accepted, as stored or stored already, is exactly what arrives intact |
| AttachmentUploads.ArrivalOrderIrrelevant | testpaper_backend/services/attachment_transfers.py:304-382 | two runs that bring the same chunks intact, in whatever order, however often and with whatever damaged in transit, end in the same state |
| AttachmentUploads.PiecesArrive | testpaper_backend/services/attachment_transfers.py:304-382 | over any run of all the services, once every piece not stored yet has arrived intact the chunk rows are those of the content |
| AttachmentUploads.UploadThenDownload | testpaper_backend/services/attachment_transfers.py:304-486 | then completing succeeds and the attachment downloads as the content, unless it was deleted or the upload was completed meanwhile |
| AttachmentUploads.StartThenDownload | testpaper_backend/services/attachment_transfers.py:159-486 | the same from the request for an upload on: start, send the pieces in any order, complete and download give the content back |
| AttachmentRuns.CountsAreExact | alembic/versions/20260813_0021_attachment_blob_acl_model.py:280-328 | in every reachable state each blob counts exactly its live references and the underflow cannot happen |
| AttachmentRuns.UnexpiredUploadsFindTheirBlob | testpaper_backend/services/attachment_transfers.py:435-437 | in every reachable state, even after damage to files, an unexpired upload finds its blob row with its size |
| AttachmentRuns.BoundReferencesStayReadable | testpaper_backend/services/attachment_transfers.py:457-486 | in every state reachable without outside damage, every live bound reference downloads |
| AttachmentRuns.ReachableMaintenanceSpares | testpaper_backend/services/attachment_maintenance.py:134-204 | in every reachable state, maintenance spares what is live or within its retention |
| AttachmentRuns.DeleteThenRestore | testpaper_backend/services/attachment_maintenance.py:33-61 | deleting an attachment and restoring it gives back every reference row and every count |
| AttachmentService.Service.UpdateReference | alembic/versions/20260813_0021_attachment_blob_acl_model.py:280-328 | the trigger's updates in place are those of Counted, and it raises exactly when Counted has no result |
| AttachmentService.Service.ApplyReferenceLifecycle | testpaper_backend/services/attachment_maintenance.py:33-61 | deleting or restoring in place does what ApplyLifecycle says, and changes nothing when the trigger raises |
| AttachmentService.Service.InitiateUpload | testpaper_backend/services/attachment_transfers.py:159-252 | the service does what Initiate says, rolling back on refusal |
| AttachmentService.Service.UploadChunk | testpaper_backend/services/attachment_transfers.py:304-382 | the service does what ReceiveChunk says |
| AttachmentService.Service.Assemble | testpaper_backend/services/attachment_storage.py:58-83 | the loop over chunk files yields what Assembled says: a verified final file, the concatenation, or the failure |
| AttachmentService.Service.CompleteUpload | testpaper_backend/services/attachment_transfers.py:385-454 | the service does what Complete says; the final file outlives a rollback |
| AttachmentService.Service.DownloadAttachment | testpaper_backend/services/attachment_transfers.py:457-486 | a download answers what Download says, and quarantines a blob whose bytes do not verify |
| AttachmentService.Service.RunMaintenance | testpaper_backend/services/attachment_maintenance.py:83-234 | the three phases in place do what Maintain says, and the report counts the uploads newly marked, the uploads past their grace period, the blob rows and files that went, and the stored files of removed rows that resisted |
| MarkDistribution.DistributeMarks | testpaper_backend/services/paper_generation.py:38-68 | refuses exactly when there are fewer marks than questions; else marks are positive, add up to the total, lie between floor and ceiling of the raw share when the floors leave a remainder, and never fall as the raw share rises |
| MarkDistribution.Repair | testpaper_backend/services/paper_generation.py:58-66 | the bounded loop ends with the marks adding up, each raised at most once or counted down once a round, never below one |
| MarkDistribution.BoundNeverBites | testpaper_backend/services/paper_generation.py:57-58 | by the time the attempt bound is used up the marks already fit the total |
| MarkDistribution.RemainderWithinFractions | testpaper_backend/services/paper_generation.py:45-47 | what the floors leave over is at most the sum of the fractions |
| TargetCounts.NormalizeTargets | testpaper_backend/services/paper_generation.py:87-108 | terminates with counts that add up, no negative count for a target that is not, no fewer for a larger target, nothing for a zero target, and each the rounded quota moved by at most one, all in one direction |
| TargetCounts.NearQuota | testpaper_backend/services/paper_generation.py:87-108 | each scaled count lies within one and a half of its exact quota |
| TargetCounts.StillLowering | testpaper_backend/services/paper_generation.py:98-107 | while the counts are too many a full round takes something off, which bounds the loop |
| TargetCounts.DifficultyTargets | testpaper_backend/services/paper_generation.py:71-84 | for every coefficient the three targets are non-negative and add up to the number of questions; for one from 0 to 1 each difficulty gets its share by nearness, up or down to a neighbouring whole number, so the far one gets none |
| GeneticSearch.Crossover | testpaper_backend/services/paper_generation.py:211-227 | the child is duplicate-free of the right length, made of the parents alone: the candidates are never reached |
| GeneticSearch.ChildIsIndividual | testpaper_backend/services/paper_generation.py:211-227 | the child starts with the first parent's head and continues with genes of the second that the head lacks |
| GeneticSearch.Mutate | testpaper_backend/services/paper_generation.py:230-246 | the mutated individual is a duplicate-free list of candidates in which exactly the struck genes changed, and none when all candidates are taken |
| GeneticSearch.ReplacementExists | testpaper_backend/services/paper_generation.py:239-243 | a valid replacement exists whenever mutation looks for one |
| GeneticSearch.WinnerIsFirstBest | testpaper_backend/services/paper_generation.py:384-387 | the winner of a tournament is the first of the best individuals drawn |
| GeneticSearch.NextGeneration | testpaper_backend/services/paper_generation.py:382-400 | the elite is carried over unchanged in front; every other member is bred from two tournament winners, crossed and mutated as its draws say |
| GeneticSearch.Search | testpaper_backend/services/paper_generation.py:353-400 | for the generations it ranked, in order, and every tape of draws: each has full size, starts with the elite of the one before and is otherwise bred from it as the tape says; top scores never fall; the best was ranked and scores at least every individual ever ranked; the search stops early exactly at the first generation numbered fifty or more (from zero) whose top score is the one of thirty generations before |
| GeneticSearch.TopScoreIsTop | testpaper_backend/services/paper_generation.py:353-381 | the top score of a generation is attained in it and bounds every score there |
| Fitness.IndividualFitness | testpaper_backend/services/paper_generation.py:175-208 | the pass that counts and the penalties that follow yield the fit of the selection |
| Fitness.PenaltyFreeExactly | testpaper_backend/services/paper_generation.py:197-204 | a selection is without penalty exactly when its difficulties, types, required tags and weight are those aimed at |
| Fitness.FitIsBounded | testpaper_backend/services/paper_generation.py:206-208 | the greatest score, and that a selection reaches it exactly when it meets every aim, has every preferred tag and enough variety |
| Fitness.PreferredTagsPay | testpaper_backend/services/paper_generation.py:206-208 | of two selections with the same penalty, one with more preferred tags and no less variety scores more |
| PaperGeneration.GenerationTypeCounts | testpaper_backend/services/paper_generation.py:111-115 | counts for a type asked for more than once add up, under distinct types |
| PaperGeneration.TargetsFit | testpaper_backend/services/paper_generation.py:304-325 | the type targets never exceed the candidates, so the check after them never fires |
| PaperGeneration.BuildPaper | testpaper_backend/services/paper_generation.py:249-276 | the list has the questions in order, numbered from one, with fair marks that add up to the total |
| PaperGeneration.GeneratePaper | testpaper_backend/services/paper_generation.py:295-413 | for positive counts and candidates of the requested types: succeeds exactly with candidates and enough marks; then returns a positive number of different candidates, as many as the targets, numbered from one, with marks that add up to totalMarks. With more candidates than that they are the best individual the search ranked, by the fitness for the aims of the request; with just as many they are the candidates, without a search |
| PaperGeneration.ScoreIsFit | testpaper_backend/services/paper_generation.py:159-169 | the score of an individual is the fit of the features of its own questions |
| LatexMath.Parser.Parse | testpaper_backend/documents/docx_runs.py:267-269 | the parser terminates on every source and yields what Translate says |
| LatexMath.Parser.ParseSequence | testpaper_backend/documents/docx_runs.py:271-282 | the loop yields the XML and end position of SequenceAt |
| LatexMath.Parser.ParseScripts | testpaper_backend/documents/docx_runs.py:388-405 | the loop over markers yields ScriptsAt: a later script of a kind replaces an earlier one |
| LatexMath.Parser.ReadBalancedText | testpaper_backend/documents/docx_runs.py:361-377 | the text up to the brace that closes the group, or to the end |
| LatexMath.SequenceAt | testpaper_backend/documents/docx_runs.py:271-282 | a sequence ends between its start and the length |
| LatexMath.AtomAt | testpaper_backend/documents/docx_runs.py:284-301 | an atom ends within the source, and makes no progress exactly at a closing brace or a script marker |
| LatexProofs.SequenceSound | testpaper_backend/documents/docx_runs.py:271-282 | a sequence ends exactly behind the brace that closes it, or at the end, and its XML is well nested |
| LatexProofs.TranslationIsWellNested | testpaper_backend/documents/docx_runs.py:262-405 | every source yields non-empty, well-nested XML |
| LatexProofs.ReadsToTheEnd | testpaper_backend/documents/docx_runs.py:271-282 | the whole source is read exactly when no proper prefix closes more unescaped braces than it opened; otherwise reading stops right behind the first prefix that does |
| LatexProofs.UnopenedBraces | testpaper_backend/documents/docx_runs.py:267-282 | `a}b` translates to the run `a` and stops behind the brace; `}x` yields nothing and is shown as it is |
| LatexRoundTrip.PrintedFormulasTranslate | testpaper_backend/documents/docx_runs.py:335-405 | a formula printed as LaTeX translates to its own XML: numerator above denominator, each script in its place, with or without braces, rows in order, prose to the last character, escapes, spaces, styles and unknown commands as what they stand for |
| AuthSessions.FamiliesHaveOneOfEach | testpaper_backend/services/auth_sessions.py:222-333 | in every reachable state a family has at most one unrevoked refresh and one unrevoked access token |
| AuthSessions.ReplayEndsFamily | testpaper_backend/services/auth_sessions.py:259-333 | after a detected replay no token of the family authenticates or refreshes in any later state |
| AuthSessions.RotatedTokenIsSpent | testpaper_backend/services/auth_sessions.py:259-333 | a rotated refresh token is refused ever after, and its reuse is detected exactly while its row is stored and has a family |
| AuthSessions.RotationLeavesPair | testpaper_backend/services/auth_sessions.py:222-256 | a rotation leaves exactly the pair it returns live in the family |
| AuthSessions.AuthenticatesExactly | testpaper_backend/security.py:102-128 | a credential authenticates exactly when it is stored, unrevoked, unexpired, no refresh token and of an active user, and then as the user it was issued to; only its own expired row is lost |
| AuthSessions.RefreshesExactly | testpaper_backend/services/auth_sessions.py:259-333 | a refresh token is exchanged exactly when it is good; the pair is new, of the same user, and lives as long as its kinds do |
| AuthSessions.LoginIssues | testpaper_backend/services/auth_sessions.py:96-102 | a login issues a pair on its device in a family nothing else belongs to, and changes no other token |
| AuthSessions.DeviceIsRevoked | testpaper_backend/services/auth_sessions.py:336-347 | revoking a device, refused exactly from that device itself, ends its tokens in every later state and touches no others |
| AuthSessions.SessionOpens | testpaper_backend/services/auth_sessions.py:53-70 | a browser session authenticates exactly until its time runs out, and opening one clears away expired rows alone |
| AuthSessions.UserIsForgotten | testpaper_backend/services/profiles.py:77-107 | forgetting a user ends every token but the one kept, in every later state, and touches no other user |
| AuthSessions.TokenTable.RefreshTokenPair | testpaper_backend/services/auth_sessions.py:259-333 | the rotation in place does what RefreshPair says |
| AuthSessions.TokenTable.GetUserFromToken | testpaper_backend/security.py:102-128 | authentication does what Authenticate says |
| AuthSessions.TokenTable.AuthenticateNative | testpaper_backend/services/auth_sessions.py:96-102 | a login of a device does what LoginNative says |
| AuthSessions.TokenTable.RevokeDeviceTokens | testpaper_backend/services/auth_sessions.py:336-347 | revoking a device does what RevokeDevice says |
| PaperColumns.GroupingPermutes | testpaper_backend/documents/paper_docx.py:324-331 | grouping by type loses and repeats no question |
| PaperColumns.SectionsHoldEveryQuestionOnce | testpaper_backend/documents/paper_docx.py:334-358 | sections in order number the questions 1..n and hold each exactly once |
| PaperColumns.PlaceKeeps | testpaper_backend/documents/paper_docx.py:277-321 | placing a block keeps every column within capacity or a single block, and each new column's first block would not have fitted before |
| PaperColumns.ColumnsWithinCapacity | testpaper_backend/documents/paper_docx.py:277-321 | every column is within capacity unless it holds a single block |
| PaperColumns.ColumnBound | testpaper_backend/documents/paper_docx.py:277-321 | (columns - 1) times capacity is less than twice the total units |
| PaperColumns.AutoDensity | testpaper_backend/documents/paper_docx.py:453-460 | the density read off the groups depends only on the number of questions and the number of objective ones |
| PaperColumns.DenserIsSmaller | testpaper_backend/documents/paper_docx.py:386-409 | a denser layout needs less room for every question and has smaller columns; an answer takes room exactly when present and asked for, an image always six units |
| PaperColumns.DenseSections | testpaper_backend/documents/paper_docx.py:463-474 | only objective sections are ever dense, exactly when they or the paper are long; on a normal paper every section is normal |
| PaperColumns.TemplateColumns | testpaper_backend/documents/paper_docx.py:257-321 | at the density asked for, or the one the numbers of questions and of objective questions call for, there are no columns exactly at normal density; otherwise every question is in exactly one column, columns read in order give 1..n, and the bounds hold |

## Left out

- Other owners and scopes: one owner's personal stream is modelled, so ownership filters are implicit.
- Row locks, isolation levels and the retry after a lost race for a unique key: calls are atomic, and sequence order is assumed to be commit order, although a push takes no stream lock (testpaper_backend/services/sync_push.py:373-403).
- SHA-256, HMAC, JSON canonicalisation and base64: hashes are injective and cursors unforgeable records; generated identifiers and tokens are counters that never repeat.
- The byte-size limits of batches, and fields that only travel with a row (names of devices, content types, timestamps other than those a decision reads).
- ORM session caches: a relationship collection read after a write in the same transaction is taken to be current.
- Answers that arrive late: an acknowledgement is answered before the device's next event or never, and a device pulls from its checkpoint only when it knows which one the server holds.
- HTTP routes, middleware, configuration, task queues, metrics and audit rows.
- The link from a sync write to the attachment lifecycle: both sides are modelled, but in separate stores. An un-delete by keepLocal, useCloud or manualMerge is logged as an update (testpaper_backend/services/sync_conflicts.py:268) and so does not revive the reference; nothing here claims that reference and entity tombstones agree. A download checks the reference, not the tombstone of its target.
- Attachment rows are keyed by hash (blobs) and attachment entity (references), not by their serial ids; both keys are unique columns.
- Corruption is a step of its own (`Damaging`) that may replace all files; concurrent runs between a metadata commit and the deletion of its files are not modelled, a maintenance run is one step.
- Which rows a maintenance query selects is a parameter: any batch of at most the batch size that satisfies the query, since rows may be skipped when locked.
- The refusal of a maintenance batch size below one (testpaper_backend/services/attachment_maintenance.py:91-92); a batch of none selects nothing in the model.
- `math.ceil` of a float quotient is modelled as exact ceiling division, which it is for the sizes the request schema admits.
- Floating-point rounding: weights, shares, fitness and column units are reals.
- The rejection loop of a mutation and the sampling without replacement yield their result directly; that a random loop ends with probability one is not modelled.
- Stripping and lower-casing of tags: they are compared as stored. The diagnostics a generated paper carries are not part of this model, apart from the number of generations.
- The candidate query (subjects, owner, type names) delivers the list of candidates; its error for none found is kept.
- The text of LaTeX prose and symbol glyphs: replacing escapes inside `\text{...}` and XML escaping happen in leaf tokens that are kept as they are; stripping of the source and the choice between text and math segments are not part of this model.
- Unicode: which characters are letters or white space is a parameter; a backslash, braces and script markers are neither.
- Password checks, browser cookie sessions, device listings and audit events around the token families.
- Document assembly around the columns: zip handling, template surgery, images, text output, and the non-template layout.
