/** Whole runs of attachment calls, with a clock that never goes back. */
module AttachmentRuns {
  import opened AttachmentChunks
  import opened AttachmentFiles
  import opened AttachmentMaintenance
  import opened AttachmentProofs
  import opened AttachmentVault
  import opened Wrappers

  datatype Event =
    | Starting(device: string, req: Request, found: bool)
    | Receiving(upload: nat, device: string, ordinal: int, data: Bytes, declared: Digest)
    | Completing(upload: nat, device: string)
    | Changing(attachment: nat, kind: Lifecycle)
    | Reading(attachment: nat)
    | Maintaining(ids: seq<nat>, shas: seq<Digest>, undeletable: set<FileKey>, batchSize: nat)
    | Damaging(files: map<FileKey, Bytes>)   // something outside the services changes the files

  datatype Timed = Timed(event: Event, now: Time)

  ghost predicate Admitted(v: Vault, e: Event, now: Time) {
    match e
    case Starting(_, req, _) => ValidRequest(req)
    case Maintaining(ids, shas, _, batchSize) => Selected(v, ids, shas, batchSize, now)
    case _ => true
  }

  /** The tables and files after an event; one that raises changes nothing. */
  ghost function Step(v: Vault, e: Event, now: Time): Vault
    requires Admitted(v, e, now)
  {
    match e
    case Starting(device, req, found) => Initiate(v, device, req, found, now).vault
    case Receiving(upload, device, ordinal, data, declared) =>
      ReceiveChunk(v, upload, device, ordinal, data, declared, now).vault
    case Completing(upload, device) => Complete(v, upload, device, now).vault
    case Changing(attachment, kind) =>
      (match ApplyLifecycle(v, attachment, kind, now) case None => v case Some(after) => after)
    case Reading(attachment) => Download(v, attachment).vault
    case Maintaining(ids, shas, undeletable, _) => Maintain(v, ids, shas, undeletable, now)
    case Damaging(files) => v.(files := files)
  }

  /** A run from `v` at time `clock`: each event is admitted where it happens, and no earlier than the one before. */
  ghost predicate Possible(v: Vault, clock: Time, run: seq<Timed>)
    decreases |run|
  {
    run != [] ==>
      && clock <= run[0].now && Admitted(v, run[0].event, run[0].now)
      && Possible(Step(v, run[0].event, run[0].now), run[0].now, run[1..])
  }

  ghost function After(v: Vault, clock: Time, run: seq<Timed>): (Vault, Time)
    requires Possible(v, clock, run)
    decreases |run|
  {
    if run == [] then (v, clock) else After(Step(v, run[0].event, run[0].now), run[0].now, run[1..])
  }

  lemma StepKeepsTables(v: Vault, e: Event, now: Time)
    requires TablesOk(v, now) && Admitted(v, e, now)
    ensures TablesOk(Step(v, e, now), now)
  {
    hide TablesOk, Initiate, ReceiveChunk, Complete, ApplyLifecycle, Download, Maintain;
    match e
    case Starting(device, req, found) => InitiateKeeps(v, device, req, found, now);
    case Receiving(upload, device, ordinal, data, declared) =>
      ReceiveKeeps(v, upload, device, ordinal, data, declared, now);
    case Completing(upload, device) => CompleteKeeps(v, upload, device, now);
    case Changing(attachment, kind) => LifecycleKeeps(v, attachment, kind, now);
    case Reading(attachment) => DownloadKeeps(v, attachment, now);
    case Maintaining(ids, shas, undeletable, batchSize) => MaintainKeeps(v, ids, shas, undeletable, batchSize, now);
    case Damaging(files) => FilesDoNotMatter(v, files, now);
  }

  lemma StepKeepsFiles(v: Vault, e: Event, now: Time)
    requires TablesOk(v, now) && FilesOk(v) && Admitted(v, e, now) && !e.Damaging?
    ensures FilesOk(Step(v, e, now))
  {
    hide TablesOk, FilesOk, Initiate, ReceiveChunk, Complete, ApplyLifecycle, Download, Maintain;
    match e
    case Starting(device, req, found) => InitiateKeepsFiles(v, device, req, found, now);
    case Receiving(upload, device, ordinal, data, declared) =>
      ReceiveKeepsFiles(v, upload, device, ordinal, data, declared, now);
    case Completing(upload, device) => CompleteKeepsFiles(v, upload, device, now);
    case Changing(attachment, kind) => LifecycleKeepsFiles(v, attachment, kind, now);
    case Reading(attachment) => ReadingKeepsFiles(v, attachment, now);
    case Maintaining(ids, shas, undeletable, batchSize) =>
      MaintainKeepsFiles(v, ids, shas, undeletable, batchSize, now);
  }

  lemma ReadingKeepsFiles(v: Vault, attachment: nat, now: Time)
    requires TablesOk(v, now) && FilesOk(v)
    ensures Download(v, attachment).vault == v
  {
    hide TablesOk, FilesOk, Verify;
    if attachment in v.references && IsLive(v.references[attachment]) { LiveReferencesDownload(v, now, attachment); }
  }

  lemma EmptyVaultOk(now: Time)
    ensures TablesOk(EMPTY_VAULT, now) && FilesOk(EMPTY_VAULT)
  {}

  lemma {:induction false} RunKeepsTables(v: Vault, clock: Time, run: seq<Timed>)
    requires TablesOk(v, clock) && Possible(v, clock, run)
    ensures TablesOk(After(v, clock, run).0, After(v, clock, run).1)
    decreases |run|
  {
    hide TablesOk, Step;
    if run != [] {
      LaterKeeps(v, clock, run[0].now);
      StepKeepsTables(v, run[0].event, run[0].now);
      RunKeepsTables(Step(v, run[0].event, run[0].now), run[0].now, run[1..]);
    }
  }

  lemma {:induction false} RunKeepsFiles(v: Vault, clock: Time, run: seq<Timed>)
    requires TablesOk(v, clock) && FilesOk(v) && Possible(v, clock, run)
    requires forall i :: 0 <= i < |run| ==> !run[i].event.Damaging?
    ensures FilesOk(After(v, clock, run).0)
    decreases |run|
  {
    hide TablesOk, FilesOk, Step;
    if run != [] {
      LaterKeeps(v, clock, run[0].now);
      StepKeepsTables(v, run[0].event, run[0].now);
      StepKeepsFiles(v, run[0].event, run[0].now);
      RunKeepsFiles(Step(v, run[0].event, run[0].now), run[0].now, run[1..]);
    }
  }

  /** In every reachable state each blob counts exactly its live references, and no trigger can raise when an
      attachment is deleted or restored. */
  lemma CountsAreExact(run: seq<Timed>, start: Time, now: Time)
    requires Possible(EMPTY_VAULT, start, run) && After(EMPTY_VAULT, start, run).1 <= now
    ensures var v := After(EMPTY_VAULT, start, run).0;
            && (forall sha :: sha in v.blobs ==> v.blobs[sha].referenceCount == |LiveRefs(v.references, sha)|)
            && forall attachment, kind :: ApplyLifecycle(v, attachment, kind, now).Some?
  {
    EmptyVaultOk(start);
    RunKeepsTables(EMPTY_VAULT, start, run);
    var v := After(EMPTY_VAULT, start, run).0;
    LaterKeeps(v, After(EMPTY_VAULT, start, run).1, now);
    forall attachment, kind ensures ApplyLifecycle(v, attachment, kind, now).Some? {
      LifecycleKeeps(v, attachment, kind, now);
    }
    hide ApplyLifecycle, LiveRefs;
  }

  /** Whatever happened before, even to the files, an upload that has not expired finds its blob row with its
      size, and its reference row. */
  lemma UnexpiredUploadsFindTheirBlob(run: seq<Timed>, start: Time, now: Time, id: nat)
    requires Possible(EMPTY_VAULT, start, run) && After(EMPTY_VAULT, start, run).1 <= now
    requires var v := After(EMPTY_VAULT, start, run).0; id in v.uploads && v.uploads[id].expiresAt > now
    ensures var v := After(EMPTY_VAULT, start, run).0;
            var req := v.uploads[id].request;
            && req.sha in v.blobs && v.blobs[req.sha].byteSize == req.byteSize && req.attachment in v.references
  {
    EmptyVaultOk(start);
    RunKeepsTables(EMPTY_VAULT, start, run);
    var v := After(EMPTY_VAULT, start, run).0;
    hide TablesOk;
    LaterKeeps(v, After(EMPTY_VAULT, start, run).1, now);
    UploadAt(v, id, now);
  }

  /** As long as nothing outside touches the files, every live bound reference of every reachable state
      downloads as bytes of the hash and size it promises. */
  lemma BoundReferencesStayReadable(run: seq<Timed>, start: Time, attachment: nat)
    requires Possible(EMPTY_VAULT, start, run) && forall i :: 0 <= i < |run| ==> !run[i].event.Damaging?
    requires var v := After(EMPTY_VAULT, start, run).0; attachment in v.references && IsLive(v.references[attachment])
    ensures var v := After(EMPTY_VAULT, start, run).0;
            var reply := Download(v, attachment).reply;
            reply.Ok? && Sha(reply.value) == v.references[attachment].sha
                && |reply.value| == v.references[attachment].byteSize
  {
    EmptyVaultOk(start);
    RunKeepsTables(EMPTY_VAULT, start, run);
    RunKeepsFiles(EMPTY_VAULT, start, run);
    var (v, clock) := After(EMPTY_VAULT, start, run);
    hide TablesOk, FilesOk, Possible, Download;
    LiveReferencesDownload(v, clock, attachment);
  }

  /** In every reachable state, a maintenance run spares what is live or within its retention. */
  lemma ReachableMaintenanceSpares(run: seq<Timed>, start: Time, ids: seq<nat>, shas: seq<Digest>,
                                   undeletable: set<FileKey>, batchSize: nat, now: Time, id: nat)
    requires Possible(EMPTY_VAULT, start, run) && After(EMPTY_VAULT, start, run).1 <= now
    requires var v := After(EMPTY_VAULT, start, run).0;
             && Selected(v, ids, shas, batchSize, now) && id in v.references && v.references[id].blob.Some?
             && var r := v.references[id]; (!r.tombstone || (r.retentionUntil.Some? && r.retentionUntil.value > now))
    ensures var v := After(EMPTY_VAULT, start, run).0;
            var after := Maintain(v, ids, shas, undeletable, now);
            var sha := v.references[id].blob.value;
            && id in after.references && after.references[id] == v.references[id]
            && sha in v.blobs && sha in after.blobs && after.blobs[sha] == v.blobs[sha]
  {
    EmptyVaultOk(start);
    RunKeepsTables(EMPTY_VAULT, start, run);
    var v := After(EMPTY_VAULT, start, run).0;
    hide TablesOk, Possible, Maintain, Selected;
    LaterKeeps(v, After(EMPTY_VAULT, start, run).1, now);
    MaintenanceSpares(v, ids, shas, undeletable, batchSize, now, id);
  }

  /** Deleting an attachment and restoring it before any maintenance gives its reference back, and its blob
      the count it had. */
  lemma DeleteThenRestore(v: Vault, attachment: nat, now: Time, later: Time)
    requires TablesOk(v, now) && now <= later
    requires attachment in v.references && !v.references[attachment].tombstone
    ensures var deleted := ApplyLifecycle(v, attachment, Deleted, now);
            && deleted.Some?
            && var restored := ApplyLifecycle(deleted.value, attachment, Restored, later);
               && restored.Some? && restored.value.references == v.references
               && restored.value.blobs.Keys == v.blobs.Keys
               && forall sha :: sha in v.blobs ==>
                    restored.value.blobs[sha].referenceCount == v.blobs[sha].referenceCount
  {
    hide TablesOk, ApplyLifecycle;
    LifecycleKeeps(v, attachment, Deleted, now);
    LifecycleShape(v, attachment, Deleted, now);
    var deleted := ApplyLifecycle(v, attachment, Deleted, now).value;
    LaterKeeps(deleted, now, later);
    LifecycleKeeps(deleted, attachment, Restored, later);
    LifecycleShape(deleted, attachment, Restored, later);
    var restored := ApplyLifecycle(deleted, attachment, Restored, later).value;
    NotRetained(v, attachment, now);
    assert restored.references == v.references;
    forall sha | sha in v.blobs ensures restored.blobs[sha].referenceCount == v.blobs[sha].referenceCount {
      CountAt(v, sha, now);
      CountAt(restored, sha, later);
    }
  }

  lemma LifecycleShape(v: Vault, attachment: nat, kind: Lifecycle, now: Time)
    requires attachment in v.references && ApplyLifecycle(v, attachment, kind, now).Some?
    ensures var after := ApplyLifecycle(v, attachment, kind, now).value;
            var r := v.references[attachment];
            && after.blobs.Keys == v.blobs.Keys
            && after.references == v.references[attachment :=
                 if kind == Deleted && !r.tombstone then r.(tombstone := true, retentionUntil := Some(now + RETENTION))
                 else if kind == Restored && r.tombstone then r.(tombstone := false, retentionUntil := None)
                 else r]
  {
    hide RetentionBound, Later;
  }

  lemma NotRetained(v: Vault, attachment: nat, now: Time)
    requires TablesOk(v, now) && attachment in v.references && !v.references[attachment].tombstone
    ensures v.references[attachment].retentionUntil == None
  {
    hide CountsOk, LinksOk, UploadsOk, ChunksOk;
    assert RetainedOk(v.blobs, v.references[attachment]);
  }

  lemma CountAt(v: Vault, sha: Digest, now: Time)
    requires TablesOk(v, now) && sha in v.blobs
    ensures v.blobs[sha].referenceCount == |LiveRefs(v.references, sha)|
  {
    hide LinksOk, RetentionOk, UploadsOk, ChunksOk, LiveRefs;
  }
}
