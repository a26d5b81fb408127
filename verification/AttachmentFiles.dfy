/** The files behind the rows: while nothing outside the services touches them, every bound reference can
    be downloaded, and an uploaded content comes back byte for byte. */
module AttachmentFiles {
  import opened AttachmentChunks
  import opened AttachmentMaintenance
  import opened AttachmentProofs
  import opened AttachmentVault
  import opened Wrappers

  // ---------------------------------------------------------------- the invariant

  /** A blob file holds bytes of its own hash. */
  ghost predicate BlobFilesOk(files: map<FileKey, Bytes>) {
    forall sha :: BlobFile(sha) in files ==> Sha(files[BlobFile(sha)]) == sha
  }

  /** An available blob has its file. */
  ghost predicate AvailableOk(blobs: map<Digest, Blob>, files: map<FileKey, Bytes>) {
    forall sha :: sha in blobs && blobs[sha].status == Available ==>
                    BlobFile(sha) in files && |files[BlobFile(sha)]| == blobs[sha].byteSize
  }

  ghost predicate StoredAs(files: map<FileKey, Bytes>, key: FileKey, c: Chunk) {
    key in files && Sha(files[key]) == c.sha && |files[key]| == c.byteSize
  }

  /** A chunk row has its file. */
  ghost predicate StoredOk(chunks: map<nat, map<nat, Chunk>>, files: map<FileKey, Bytes>) {
    forall id, k :: id in chunks && k in chunks[id] ==> StoredAs(files, ChunkFile(id, k), chunks[id][k])
  }

  /** No chunk file lies in the way of a chunk that is still to come. */
  ghost predicate NoStrayFiles(v: Vault) {
    forall id: nat, k: nat :: ChunkFile(id, k) in v.files ==>
        id < v.nextUpload && (id in v.uploads ==> k in ChunksOf(v, id))
  }

  /** What is bound is available. */
  ghost predicate BoundAvailable(blobs: map<Digest, Blob>, references: map<nat, Reference>) {
    forall id :: id in references && references[id].blob.Some? ==>
                   references[id].blob.value in blobs && blobs[references[id].blob.value].status == Available
  }

  ghost predicate FilesOk(v: Vault) {
    && BlobFilesOk(v.files)
    && AvailableOk(v.blobs, v.files)
    && StoredOk(v.chunks, v.files)
    && NoStrayFiles(v)
    && BoundAvailable(v.blobs, v.references)
  }

  /** The rows the files depend on stay as they are. */
  lemma SameRows(v: Vault, after: Vault)
    requires FilesOk(v) && after.files == v.files && after.uploads.Keys == v.uploads.Keys && after.chunks == v.chunks
    requires after.nextUpload == v.nextUpload && SameBlobs(v.blobs, after.blobs)
    requires forall id :: id in after.references && after.references[id].blob.Some? ==>
                            && after.references[id].blob.value in v.blobs
                            && v.blobs[after.references[id].blob.value].status == Available
    ensures FilesOk(after)
  {}

  lemma VerifiedBlob(v: Vault, sha: Digest)
    requires FilesOk(v) && sha in v.blobs && v.blobs[sha].status == Available
    ensures Verify(v.files, BlobFile(sha), sha, v.blobs[sha].byteSize)
  {}

  // ---------------------------------------------------------------- downloads

  /** Every live bound reference downloads as bytes of the hash and size it promises. */
  lemma LiveReferencesDownload(v: Vault, now: Time, attachment: nat)
    requires TablesOk(v, now) && FilesOk(v)
    requires attachment in v.references && IsLive(v.references[attachment])
    ensures var r := v.references[attachment];
            var outcome := Download(v, attachment);
            && outcome.vault == v && outcome.reply.Ok?
            && Sha(outcome.reply.value) == r.sha && |outcome.reply.value| == r.byteSize
  {
    assert BoundOk(v.blobs, v.references[attachment]);
    VerifiedBlob(v, v.references[attachment].sha);
  }

  /** Without trust in the files: a download is answered exactly for a live bound reference whose blob is available and
      whose stored bytes have the hash and size it promises. Bytes that do not are never handed out; their blob goes
      into quarantine and is not found from then on. */
  lemma DownloadExactly(v: Vault, now: Time, attachment: nat)
    requires TablesOk(v, now)
    ensures var Outcome(after, reply) := Download(v, attachment);
            var bound := attachment in v.references && IsLive(v.references[attachment]);
            && (!bound ==> after == v && reply == Fail(EntityNotFound))
            && (bound ==>
                  var r := v.references[attachment];
                  && r.sha in v.blobs
                  && var genuine := BlobFile(r.sha) in v.files && Sha(v.files[BlobFile(r.sha)]) == r.sha
                                    && |v.files[BlobFile(r.sha)]| == r.byteSize;
                     if v.blobs[r.sha].status != Available then after == v && reply == Fail(EntityNotFound)
                     else if genuine then after == v && reply == Ok(v.files[BlobFile(r.sha)])
                     else (reply == Fail(HashMismatch)
                           && Download(after, attachment) == Outcome(after, Fail(EntityNotFound))))
  {
    if attachment in v.references { assert BoundOk(v.blobs, v.references[attachment]); }
    hide CountsOk, LinksOk, RetentionOk, UploadsOk, ChunksOk;
  }

  /** A deleted attachment does not download. */
  lemma DeletedDoesNotDownload(v: Vault, attachment: nat, now: Time)
    requires TablesOk(v, now)
    ensures var deleted := ApplyLifecycle(v, attachment, Deleted, now);
            deleted.Some? && Download(deleted.value, attachment) == Outcome(deleted.value, Fail(EntityNotFound))
  {
    LifecycleKeeps(v, attachment, Deleted, now);
    hide TablesOk, Counted;
  }

  // ---------------------------------------------------------------- what keeps the files

  lemma LifecycleKeepsFiles(v: Vault, attachment: nat, kind: Lifecycle, now: Time)
    requires TablesOk(v, now) && FilesOk(v)
    ensures ApplyLifecycle(v, attachment, kind, now).Some? && FilesOk(ApplyLifecycle(v, attachment, kind, now).value)
  {
    if attachment in v.references {
      var r := v.references[attachment];
      assert BoundOk(v.blobs, r);
      hide CountsOk, LinksOk, RetentionOk, UploadsOk, ChunksOk, Counted, FilesOk;
      if kind == Deleted && !r.tombstone {
        RebindKeepsFiles(v, attachment, r.(tombstone := true, retentionUntil := Some(now + RETENTION)), now);
      } else if kind == Restored && r.tombstone {
        RebindKeepsFiles(v, attachment, r.(tombstone := false, retentionUntil := None), now);
      }
    }
  }

  lemma RebindKeepsFiles(v: Vault, id: nat, r: Reference, now: Time)
    requires TablesOk(v, now) && FilesOk(v) && id in v.references
    requires r.sha == v.references[id].sha && r.byteSize == v.references[id].byteSize
    requires BoundOk(v.blobs, r) && (r.tombstone <==> r.retentionUntil.Some?)
    requires v.references[id].tombstone && r.tombstone ==> r == v.references[id]
    requires r.blob == v.references[id].blob
    ensures WithReference(v, id, r, now).Some? && FilesOk(WithReference(v, id, r, now).value)
  {
    hide TablesOk, Counted;
    ReferenceUpdateKeeps(v, id, r, now);
    SameRows(v, WithReference(v, id, r, now).value);
  }

  lemma BindKeepsFiles(v: Vault, id: nat, sha: Digest, now: Time)
    requires TablesOk(v, now) && FilesOk(v) && id in v.references && !v.references[id].tombstone
    requires Bind(v, id, sha, now).Some?
    ensures FilesOk(Bind(v, id, sha, now).value)
  {
    hide TablesOk, Bind;
    BindKeeps(v, id, sha, now);
    SameRows(v, Bind(v, id, sha, now).value);
  }

  lemma EnsureKeepsFiles(v: Vault, req: Request, now: Time)
    requires FilesOk(v)
    ensures FilesOk(EnsureBlob(EnsureReference(v, req), req, now))
  {
    hide BlobFilesOk, StoredOk;
    assert FilesOk(EnsureReference(v, req)) by { hide AvailableOk; }
    PendingKeepsFiles(EnsureReference(v, req), req, now);
  }

  lemma PendingKeepsFiles(v: Vault, req: Request, now: Time)
    requires FilesOk(v)
    ensures FilesOk(EnsureBlob(v, req, now))
  {
    hide BlobFilesOk, StoredOk;
  }

  lemma NewUploadKeepsFiles(v: Vault, u: Upload)
    requires FilesOk(v) && ChunksOk(v.uploads, v.chunks)
    requires v.nextUpload !in v.uploads
    ensures FilesOk(WithUpload(v, u))
  {
    hide Accounted, ChunkOk;
  }

  lemma InitiateKeepsFiles(v: Vault, device: string, req: Request, found: bool, now: Time)
    requires TablesOk(v, now) && FilesOk(v) && ValidRequest(req)
    ensures FilesOk(Initiate(v, device, req, found, now).vault)
  {
    hide TablesOk, FilesOk, StartUpload, FindUpload, StatusOf;
    EnsureReferenceKeeps(v, req, now);
    EnsureBlobKeeps(EnsureReference(v, req), req, now);
    EnsureKeepsFiles(v, req, now);
    var v1 := EnsureReference(v, req);
    var v2 := EnsureBlob(v1, req, now);
    if !v1.references[req.attachment].tombstone && SameMetadata(v1.references[req.attachment], req)
       && v2.blobs[req.sha].byteSize == req.byteSize {
      StartKeepsFiles(v, v2, device, req, now);
    }
  }

  lemma FreshUpload(v: Vault, now: Time)
    requires TablesOk(v, now)
    ensures v.nextUpload !in v.uploads && ChunksOk(v.uploads, v.chunks)
  {
    hide UploadOk, ChunksOk;
  }

  lemma StartKeepsFiles(before: Vault, v: Vault, device: string, req: Request, now: Time)
    requires TablesOk(before, now) && FilesOk(before) && TablesOk(v, now) && FilesOk(v) && ValidRequest(req)
    requires req.sha in v.blobs && v.blobs[req.sha].byteSize == req.byteSize && req.attachment in v.references
    requires !v.references[req.attachment].tombstone && SameMetadata(v.references[req.attachment], req)
    ensures FilesOk(StartUpload(before, v, device, req, now).vault)
  {
    hide TablesOk, FilesOk, Verify, Bind;
    var deduplicated := v.blobs[req.sha].status == Available;
    if deduplicated { VerifiedBlob(v, req.sha); }
    NewUploadKeeps(v, device, req, deduplicated, now);
    FreshUpload(v, now);
    NewUploadKeepsFiles(v, NewUpload(device, req, deduplicated, now));
    var started := WithUpload(v, NewUpload(device, req, deduplicated, now));
    hide NewUpload, StatusOf;
    if deduplicated && Bind(started, req.attachment, req.sha, now).Some? {
      BindKeepsFiles(started, req.attachment, req.sha, now);
    }
  }

  lemma ChunkKeepsFiles(v: Vault, id: nat, ordinal: nat, data: Bytes)
    requires FilesOk(v) && id in v.uploads && id < v.nextUpload && ordinal !in ChunksOf(v, id)
    ensures FilesOk(WithChunk(v, id, ordinal, data))
  {
    hide BoundAvailable;
    var after := WithChunk(v, id, ordinal, data);
    assert after.chunks[id] == ChunksOf(v, id)[ordinal := after.chunks[id][ordinal]];
  }

  lemma ReceiveKeepsFiles(v: Vault, id: nat, device: string, ordinal: int, data: Bytes, declared: Digest, now: Time)
    requires TablesOk(v, now) && FilesOk(v)
    ensures FilesOk(ReceiveChunk(v, id, device, ordinal, data, declared, now).vault)
  {
    hide TablesOk, FilesOk, WithChunk, MissingChunks, ChunksOf;
    var after := ReceiveChunk(v, id, device, ordinal, data, declared, now).vault;
    if after != v {
      UploadAt(v, id, now);
      ChunkKeepsFiles(v, id, ordinal, data);
    }
  }

  /** A chunk of an upload in progress that is new, fits and has the declared hash is always stored. */
  lemma NewChunksAreStored(v: Vault, id: nat, ordinal: int, data: Bytes, now: Time)
    requires TablesOk(v, now) && FilesOk(v)
    requires id in v.uploads && v.uploads[id].status != Completed && v.uploads[id].expiresAt > now
    requires ChunkFits(v.uploads[id], ordinal, data) && ordinal !in ChunksOf(v, id)
    ensures var outcome := ReceiveChunk(v, id, v.uploads[id].device, ordinal, data, Sha(data), now);
            && outcome.reply.Ok? && !outcome.reply.value.duplicate
            && outcome.vault == WithChunk(v, id, ordinal, data)
  {
    var u := v.uploads[id];
    UploadAt(v, id, now);
    assert ChunkFile(id, ordinal) !in v.files;
    assert |data| <= u.request.chunkSize;
    hide TablesOk, FilesOk, WithChunk, MissingChunks, ChunksOf, UploadOk, Offset, TotalChunks;
  }

  lemma FinalFileKeeps(v: Vault, sha: Digest, bytes: Bytes)
    requires FilesOk(v) && Sha(bytes) == sha
    requires sha in v.blobs ==> v.blobs[sha].byteSize == |bytes|
    ensures FilesOk(WithFile(v, sha, bytes))
  {
    hide BoundAvailable;
  }

  lemma AvailableKeepsFiles(v: Vault, sha: Digest)
    requires FilesOk(v) && sha in v.blobs
    requires BlobFile(sha) in v.files && |v.files[BlobFile(sha)]| == v.blobs[sha].byteSize
    ensures FilesOk(WithStatus(v, sha, Available))
  {}

  lemma CompletedKeepsFiles(v: Vault, id: nat)
    requires FilesOk(v) && id in v.uploads
    ensures FilesOk(WithCompleted(v, id))
  {}

  lemma AssembledBytes(v: Vault, id: nat, total: nat, sha: Digest, byteSize: nat)
    requires Assembled(v.files, id, total, sha, byteSize).Ok?
    ensures var bytes := Assembled(v.files, id, total, sha, byteSize).value;
            Sha(bytes) == sha && |bytes| == byteSize
  {}

  lemma PublishKeepsFiles(v: Vault, id: nat, now: Time)
    requires TablesOk(v, now) && FilesOk(v) && id in v.uploads
    requires v.uploads[id].expiresAt > now && v.uploads[id].status != Completed
    requires var req := v.uploads[id].request;
             BlobFile(req.sha) in v.files && |v.files[BlobFile(req.sha)]| == req.byteSize
    ensures FilesOk(Publish(v, id, now).vault)
  {
    var req := v.uploads[id].request;
    UploadAt(v, id, now);
    hide TablesOk, FilesOk, UploadOk, StatusOf;
    StatusKeeps(v, req.sha, Available, now);
    AvailableKeepsFiles(v, req.sha);
    if !v.references[req.attachment].tombstone {
      var available := WithStatus(v, req.sha, Available);
      BindKeeps(available, req.attachment, req.sha, now);
      hide Bind;
      if Bind(available, req.attachment, req.sha, now).Some? {
        BindKeepsFiles(available, req.attachment, req.sha, now);
        CompletedKeepsFiles(Bind(available, req.attachment, req.sha, now).value, id);
      }
    }
  }

  lemma CompleteKeepsFiles(v: Vault, id: nat, device: string, now: Time)
    requires TablesOk(v, now) && FilesOk(v)
    ensures FilesOk(Complete(v, id, device, now).vault)
  {
    hide TablesOk, FilesOk, Publish, MissingChunks, StatusOf, Assembled;
    if id in v.uploads {
      var u := v.uploads[id];
      var assembled := Assembled(v.files, id, u.totalChunks, u.request.sha, u.request.byteSize);
      if assembled.Ok? && u.expiresAt > now && u.status != Completed {
        UploadAt(v, id, now);
        hide UploadOk;
        AssembledBytes(v, id, u.totalChunks, u.request.sha, u.request.byteSize);
        BlobOfUpload(v, id, now);
        FinalFileKeeps(v, u.request.sha, assembled.value);
        FilesDoNotMatter(v, v.files[BlobFile(u.request.sha) := assembled.value], now);
        PublishKeepsFiles(WithFile(v, u.request.sha, assembled.value), id, now);
      }
    }
  }

  lemma BlobOfUpload(v: Vault, id: nat, now: Time)
    requires TablesOk(v, now) && id in v.uploads && v.uploads[id].expiresAt > now
    ensures var req := v.uploads[id].request; req.sha in v.blobs && v.blobs[req.sha].byteSize == req.byteSize
  {
    UploadAt(v, id, now);
    hide TablesOk;
  }

  // ---------------------------------------------------------------- maintenance

  /** The file of a row that the run removes: of a blob row that goes, or of a chunk row of a selected upload past its
      grace period. */
  ghost predicate OfRemovedRow(v: Vault, after: Vault, ids: seq<nat>, now: Time, key: FileKey) {
    match key
    case BlobFile(sha) => sha in v.blobs && sha !in after.blobs
    case ChunkFile(id, k) =>
      id in ids && id in v.uploads && v.uploads[id].expiresAt <= now - GRACE && id in v.chunks && k in v.chunks[id]
  }

  lemma {:induction false} ExpiredFilesAre(v: Vault, ids: seq<nat>, now: Time, key: FileKey)
    ensures key in ExpiredFiles(v, ids, now)
            <==> key.ChunkFile? && key.upload in ids && key.upload in v.uploads
                 && v.uploads[key.upload].expiresAt <= now - GRACE
                 && key.upload in v.chunks && key.ordinal in v.chunks[key.upload]
  {
    if ids != [] {
      var n := |ids| - 1;
      assert ids == ids[..n] + [ids[n]];
      ExpiredFilesAre(v, ids[..n], now, key);
    }
  }

  lemma RemovedKeysAre(v: Vault, ids: seq<nat>, shas: seq<Digest>, undeletable: set<FileKey>, now: Time, key: FileKey)
    ensures key in RemovedKeys(v, ids, shas, now)
            <==> OfRemovedRow(v, Maintain(v, ids, shas, undeletable, now), ids, now, key)
  {
    ExpiryHolds(v, ids, now);
    ExpiredFilesAre(v, ids, now, key);
    hide ExpireUploads, CollectBlobs, ExpiredFiles;
  }

  /** A run unlinks the files of the rows it removes, of all of them but those that resist, and no others. */
  lemma FilesGoExactly(v: Vault, ids: seq<nat>, shas: seq<Digest>, undeletable: set<FileKey>, now: Time, key: FileKey)
    ensures var after := Maintain(v, ids, shas, undeletable, now);
            && (key in after.files
                <==> key in v.files && (key in undeletable || !OfRemovedRow(v, after, ids, now, key)))
            && (key in after.files ==> after.files[key] == v.files[key])
  {
    RemovedKeysAre(v, ids, shas, undeletable, now, key);
    ExpiryHolds(v, ids, now);
    CollectsExactly(ExpireUploads(v, ids, now), shas, now);
    hide ExpireUploads, CollectBlobs, RemovedKeys, OfRemovedRow;
  }

  /** A run deletes the files of rows it removed, and of no others. */
  lemma OnlyFilesOfRemovedRows(v: Vault, ids: seq<nat>, shas: seq<Digest>, undeletable: set<FileKey>, now: Time,
                               key: FileKey)
    requires key in v.files && key !in Maintain(v, ids, shas, undeletable, now).files
    ensures var after := Maintain(v, ids, shas, undeletable, now);
            match key
            case BlobFile(sha) => sha in v.blobs && sha !in after.blobs
            case ChunkFile(id, _) => id in v.uploads && id !in after.uploads
  {
    FilesGoExactly(v, ids, shas, undeletable, now, key);
    ExpiryHolds(v, ids, now);
    CollectsExactly(ExpireUploads(v, ids, now), shas, now);
    hide ExpireUploads, CollectBlobs, RemovedKeys;
  }

  /** A completed upload of one byte, its attachment deleted and past its retention. */
  function Leftover(content: Bytes): Vault {
    var sha := Sha(content);
    Vault(map[sha := Blob(1, Available, 0, Some(0), 0)],
          map[1 := Reference(2, sha, 1, "name", Some(sha), true, Some(0))],
          map[0 := Upload("phone", Request("key", 1, 2, sha, 1, 256 * 1024, "name"), 1, 1, Completed, Some(sha), 0)],
          map[0 := map[0 := Chunk(0, 1, sha)]],
          map[BlobFile(sha) := content, ChunkFile(0, 0) := content], 1)
  }

  /** The chunk files of a completed upload stay for ever: its row and its chunk rows go with its blob, in the second
      phase of a run, which unlinks the blob's file alone; no row names the chunk files any more. */
  lemma CompletedChunksStay(content: Bytes)
    requires |content| == 1
    ensures var v := Leftover(content);
            && TablesOk(v, 1) && FilesOk(v) && Selected(v, [], [Sha(content)], 1, 1)
            && var after := Maintain(v, [], [Sha(content)], {}, 1);
               && after.blobs == map[] && after.uploads == map[] && after.chunks == map[]
               && after.files == map[ChunkFile(0, 0) := content]
  {
    LeftoverTables(content);
    LeftoverRun(content);
    hide TablesOk, Maintain;
  }

  lemma LeftoverTables(content: Bytes)
    ensures TablesOk(Leftover(content), 1)
  {
    var v, sha := Leftover(content), Sha(content);
    assert LiveRefs(v.references, sha) == {};
    assert StoredBytes(1, 256 * 1024, {0}, 0) == 0;
    assert StoredBytes(1, 256 * 1024, {0}, 1) == ExpectedSize(1, 256 * 1024, 0) == 1;
    assert v.chunks[0].Keys == {0};
    hide LiveRefs, StoredBytes;
  }

  lemma LeftoverRun(content: Bytes)
    ensures Maintain(Leftover(content), [], [Sha(content)], {}, 1)
         == Vault(map[], map[1 := Reference(2, Sha(content), 1, "name", None, true, Some(0))], map[], map[],
                  map[ChunkFile(0, 0) := content], 1)
  {
    var v, sha := Leftover(content), Sha(content);
    assert [sha][..0] == [];
    assert !Needed(v, sha, 1);
    assert ExpireUploads(v, [], 1) == v && ExpiredFiles(v, [], 1) == {};
    LeftoverDropped(content);
    hide DropBlob, Needed, Leftover, ExpireUploads, ExpiredFiles;
    assert CollectBlobs(v, [], 1) == v;
    assert CollectBlobs(v, [sha], 1) == DropBlob(v, sha);
    assert RemovedKeys(v, [], [sha], 1) == {BlobFile(sha)};
  }

  lemma LeftoverDropped(content: Bytes)
    ensures var v, sha := Leftover(content), Sha(content);
            && sha in v.blobs && v.files == map[BlobFile(sha) := content, ChunkFile(0, 0) := content]
            && BlobFiles(v, DropBlob(v, sha)) == {BlobFile(sha)}
            && v.files - {BlobFile(sha)} == map[ChunkFile(0, 0) := content]
            && DropBlob(v, sha)
               == Vault(map[], map[1 := Reference(2, sha, 1, "name", None, true, Some(0))], map[], map[], v.files, 1)
  {
    var v, sha := Leftover(content), Sha(content);
    var dropped := DropBlob(v, sha);
    assert dropped.blobs == map[] && dropped.uploads == map[] && dropped.chunks == map[];
    assert dropped.references == map[1 := Reference(2, sha, 1, "name", None, true, Some(0))];
    hide DropBlob;
    assert BlobFiles(v, dropped) == {BlobFile(sha)};
  }

  /** What a run leaves of the chunks: those of uploads it kept. */
  lemma {:induction false} CollectedChunks(v: Vault, shas: seq<Digest>, now: Time)
    ensures forall id :: id in CollectBlobs(v, shas, now).chunks ==>
                           id in v.chunks && CollectBlobs(v, shas, now).chunks[id] == v.chunks[id]
    ensures forall id :: id in CollectBlobs(v, shas, now).uploads ==>
                           id in v.uploads && CollectBlobs(v, shas, now).uploads[id] == v.uploads[id]
    ensures forall id :: id in CollectBlobs(v, shas, now).uploads && id in v.chunks ==>
              id in CollectBlobs(v, shas, now).chunks
  {
    if shas != [] {
      hide Needed;
      CollectedChunks(v, shas[..|shas|-1], now);
    }
  }

  lemma MaintainKeepsFiles(v: Vault, ids: seq<nat>, shas: seq<Digest>, undeletable: set<FileKey>, batchSize: nat,
                           now: Time)
    requires TablesOk(v, now) && FilesOk(v) && Selected(v, ids, shas, batchSize, now)
    ensures FilesOk(Maintain(v, ids, shas, undeletable, now))
  {
    var after := Maintain(v, ids, shas, undeletable, now);
    MaintenanceRemovesExactly(v, ids, shas, undeletable, batchSize, now);
    MaintainKeeps(v, ids, shas, undeletable, batchSize, now);
    ExpiryHolds(v, ids, now);
    CollectedChunks(ExpireUploads(v, ids, now), shas, now);
    CollectsExactly(ExpireUploads(v, ids, now), shas, now);
    forall key | key in v.files && key !in after.files
      ensures match key
              case BlobFile(sha) => sha !in after.blobs
              case ChunkFile(id, _) => id !in after.uploads
    {
      OnlyFilesOfRemovedRows(v, ids, shas, undeletable, now, key);
    }
    FewerFiles(v, after, now);
  }

  /** Rows and files may go as long as no row that stays loses its file. */
  lemma FewerFiles(v: Vault, after: Vault, now: Time)
    requires FilesOk(v) && TablesOk(after, now) && KeepsNeeds(v, after, now)
    requires after.nextUpload == v.nextUpload
    requires forall sha :: sha in after.blobs ==> sha in v.blobs && after.blobs[sha] == v.blobs[sha]
    requires forall id :: id in after.chunks ==> id in v.chunks && after.chunks[id] == v.chunks[id]
    requires forall id :: id in after.uploads && id in v.chunks ==> id in after.chunks
    requires forall key :: key in after.files ==> key in v.files && after.files[key] == v.files[key]
    requires forall key :: key in v.files && key !in after.files ==>
                             match key
                             case BlobFile(sha) => sha !in after.blobs
                             case ChunkFile(id, _) => id !in after.uploads
    ensures FilesOk(after)
  {
    hide CountsOk, RetentionOk, UploadsOk;
  }

  // ---------------------------------------------------------------- the round trip

  /** Every chunk of an upload holds its piece of the content. */
  ghost predicate HoldsPieces(v: Vault, id: nat, content: Bytes) {
    && id in v.uploads && v.uploads[id].request.chunkSize > 0
    && v.uploads[id].request.byteSize == |content| && v.uploads[id].request.sha == Sha(content)
    && forall k: nat :: k < TotalChunks(|content|, v.uploads[id].request.chunkSize) ==>
         k in ChunksOf(v, id) && ChunksOf(v, id)[k].sha == Sha(Piece(content, v.uploads[id].request.chunkSize, k))
  }

  lemma PieceFile(v: Vault, id: nat, content: Bytes, k: nat)
    requires FilesOk(v) && HoldsPieces(v, id, content) && k < TotalChunks(|content|, v.uploads[id].request.chunkSize)
    ensures ChunkFile(id, k) in v.files
    ensures v.files[ChunkFile(id, k)] == Piece(content, v.uploads[id].request.chunkSize, k)
  {
    hide TotalChunks, Piece, NoStrayFiles, BoundAvailable, AvailableOk, BlobFilesOk;
    assert k in ChunksOf(v, id);
    assert StoredAs(v.files, ChunkFile(id, k), v.chunks[id][k]);
  }

  /** Piece files are put together to the content. */
  lemma PiecesAssemble(files: map<FileKey, Bytes>, id: nat, content: Bytes, chunkSize: nat)
    requires chunkSize > 0
    requires forall k: nat :: k < TotalChunks(|content|, chunkSize) ==>
               ChunkFile(id, k) in files && files[ChunkFile(id, k)] == Piece(content, chunkSize, k)
    ensures Assembled(files, id, TotalChunks(|content|, chunkSize), Sha(content), |content|) == Ok(content)
  {
    hide TotalChunks, Piece, Concatenated;
    AssemblyRestores(content, chunkSize, Parts(files, id, TotalChunks(|content|, chunkSize)));
  }

  lemma PartsAreThere(v: Vault, id: nat, content: Bytes, now: Time)
    requires FilesOk(v) && TablesOk(v, now) && HoldsPieces(v, id, content)
    ensures Assembled(v.files, id, v.uploads[id].totalChunks, Sha(content), |content|) == Ok(content)
  {
    var chunkSize := v.uploads[id].request.chunkSize;
    UploadAt(v, id, now);
    hide TablesOk, FilesOk, TotalChunks, Piece, Assembled;
    forall k: nat | k < TotalChunks(|content|, chunkSize)
      ensures ChunkFile(id, k) in v.files && v.files[ChunkFile(id, k)] == Piece(content, chunkSize, k)
    {
      PieceFile(v, id, content, k);
    }
    PiecesAssemble(v.files, id, content, chunkSize);
  }

  lemma {:induction false} NothingMissing(received: set<nat>, n: nat)
    requires forall k: nat :: k < n ==> k in received
    ensures MissingBelow(received, n) == []
  {
    if n > 0 { NothingMissing(received, n - 1); }
  }

  /** Once all pieces of a content are stored, completing and downloading gives the content back. */
  lemma CompleteThenDownload(v: Vault, id: nat, content: Bytes, now: Time)
    requires TablesOk(v, now) && FilesOk(v) && HoldsPieces(v, id, content)
    requires v.uploads[id].status != Completed && v.uploads[id].expiresAt > now
    requires v.uploads[id].request.attachment in v.references
    requires !v.references[v.uploads[id].request.attachment].tombstone
    ensures var done := Complete(v, id, v.uploads[id].device, now);
            && done.reply.Ok? && done.reply.value.completed
            && Download(done.vault, v.uploads[id].request.attachment).reply == Ok(content)
  {
    var device, attachment := v.uploads[id].device, v.uploads[id].request.attachment;
    PartsAreThere(v, id, content, now);
    AllChunksThere(v, id, content, now);
    CompleteFailsExactly(v, id, device, now);
    var done := Complete(v, id, device, now);
    CompleteKeeps(v, id, device, now);
    CompleteKeepsFiles(v, id, device, now);
    CompletedShape(v, id, device, now);
    hide TablesOk, FilesOk, HoldsPieces, Complete, MissingChunks, Assembled, Download;
    LiveReferencesDownload(done.vault, now, attachment);
  }

  lemma AllChunksThere(v: Vault, id: nat, content: Bytes, now: Time)
    requires TablesOk(v, now) && HoldsPieces(v, id, content)
    ensures MissingChunks(v, id) == []
  {
    UploadAt(v, id, now);
    NothingMissing(ChunksOf(v, id).Keys, v.uploads[id].totalChunks);
  }

  lemma CompletedShape(v: Vault, id: nat, device: string, now: Time)
    requires TablesOk(v, now) && id in v.uploads && v.uploads[id].status != Completed
    requires Complete(v, id, device, now).reply.Ok?
    ensures var done := Complete(v, id, device, now);
            var req := v.uploads[id].request;
            && done.reply.value.completed
            && req.attachment in done.vault.references && IsLive(done.vault.references[req.attachment])
            && done.vault.references[req.attachment].sha == req.sha
  {
    var u := v.uploads[id];
    UploadAt(v, id, now);
    hide TablesOk, MissingChunks, Assembled, Counted;
  }

  /** Once its time ran out an upload that is not complete takes no chunk, does not complete and is not reported. */
  lemma ExpiredUploadsAreRefused(v: Vault, id: nat, ordinal: int, data: Bytes, declared: Digest, found: bool, now: Time)
    requires id in v.uploads && v.uploads[id].status != Completed && v.uploads[id].expiresAt <= now
    ensures var u := v.uploads[id];
            var chunk := ReceiveChunk(v, id, u.device, ordinal, data, declared, now);
            && Complete(v, id, u.device, now) == Outcome(v, Fail(UploadExpired))
            && chunk.vault == v && chunk.reply.Fail?
            && (|data| <= MAX_CHUNK && declared == Sha(data) ==> chunk.reply == Fail(UploadExpired))
            && (ValidRequest(u.request) && FindUpload(v, u.device, u.request.key, v.nextUpload) == Some(id) ==>
                  Initiate(v, u.device, u.request, found, now) == Outcome(v, Fail(UploadExpired)))
  {
    hide FindUpload, MissingChunks, Assembled, ExpectedSize;
  }

  /** A device that did not start an upload can neither add to it nor complete it. */
  lemma ForeignDevicesAreRefused(v: Vault, id: nat, device: string, ordinal: int, data: Bytes, declared: Digest,
                                 now: Time)
    requires id in v.uploads ==> v.uploads[id].device != device
    ensures Complete(v, id, device, now) == Outcome(v, Fail(EntityNotFound))
    ensures var chunk := ReceiveChunk(v, id, device, ordinal, data, declared, now);
            chunk.vault == v && chunk.reply.Fail?
  {
    hide MissingChunks, Assembled, ExpectedSize;
  }

  // ---------------------------------------------------------------- starting and starting again

  /** When a new upload may start: the reference is new or live with the same metadata, and the blob is new or
      of the same size. */
  predicate Startable(v: Vault, req: Request) {
    && (req.attachment in v.references ==>
          !v.references[req.attachment].tombstone && SameMetadata(v.references[req.attachment], req))
    && (req.sha in v.blobs ==> v.blobs[req.sha].byteSize == req.byteSize)
  }

  predicate AlreadyStored(v: Vault, req: Request) {
    req.sha in v.blobs && v.blobs[req.sha].status == Available
  }

  lemma StartOutcome(before: Vault, v: Vault, device: string, req: Request, now: Time)
    requires TablesOk(v, now) && FilesOk(v) && ValidRequest(req)
    requires req.sha in v.blobs && v.blobs[req.sha].byteSize == req.byteSize && req.attachment in v.references
    requires !v.references[req.attachment].tombstone && SameMetadata(v.references[req.attachment], req)
    ensures var outcome := StartUpload(before, v, device, req, now);
            && outcome.reply.Ok? && outcome.reply.value.upload == v.nextUpload
            && (outcome.reply.value.completed <==> AlreadyStored(v, req))
            && outcome.vault.nextUpload == v.nextUpload + 1
            && outcome.vault.uploads == v.uploads[v.nextUpload := NewUpload(device, req, AlreadyStored(v, req), now)]
            && req.attachment in outcome.vault.references
            && (AlreadyStored(v, req) ==> IsLive(outcome.vault.references[req.attachment]))
  {
    hide TablesOk, FilesOk, Verify, Bind;
    var stored := AlreadyStored(v, req);
    if stored { VerifiedBlob(v, req.sha); }
    NewUploadKeeps(v, device, req, stored, now);
    var started := WithUpload(v, NewUpload(device, req, stored, now));
    if stored { BindKeeps(started, req.attachment, req.sha, now); }
    hide MissingChunks;
  }

  /** A new upload starts exactly when it may; it is complete at once exactly when the bytes are there already, and
      then the attachment can be downloaded. */
  lemma InitiateOutcome(v: Vault, device: string, req: Request, now: Time)
    requires TablesOk(v, now) && FilesOk(v) && ValidRequest(req)
    requires FindUpload(v, device, req.key, v.nextUpload).None?
    ensures var outcome := Initiate(v, device, req, true, now);
            && (outcome.reply.Ok? <==> Startable(v, req))
            && (outcome.reply.Fail? ==> outcome.vault == v)
            && (outcome.reply.Ok? ==>
                  && outcome.reply.value.upload == v.nextUpload
                  && (outcome.reply.value.completed <==> AlreadyStored(v, req))
                  && (AlreadyStored(v, req) ==> Download(outcome.vault, req.attachment).reply.Ok?))
  {
    hide TablesOk, FilesOk, StartUpload, FindUpload, StatusOf, Download;
    EnsureReferenceKeeps(v, req, now);
    EnsureBlobKeeps(EnsureReference(v, req), req, now);
    EnsureKeepsFiles(v, req, now);
    var v2 := EnsureBlob(EnsureReference(v, req), req, now);
    if Startable(v, req) {
      StartOutcome(v, v2, device, req, now);
      InitiateKeeps(v, device, req, true, now);
      InitiateKeepsFiles(v, device, req, true, now);
      if AlreadyStored(v, req) {
        LiveReferencesDownload(Initiate(v, device, req, true, now).vault, now, req.attachment);
      }
    }
  }

  /** Why a new upload does not start: the attachment or its target is not there, the attachment is deleted or was
      described otherwise, or the bytes were announced with another size. Nothing changes then. */
  lemma InitiateRefusals(v: Vault, device: string, req: Request, found: bool, now: Time)
    requires TablesOk(v, now) && ValidRequest(req) && FindUpload(v, device, req.key, v.nextUpload).None?
    ensures var outcome := Initiate(v, device, req, found, now);
            var described := req.attachment in v.references ==>
                               var r := v.references[req.attachment];
                               !r.tombstone && r.target == req.target && r.sha == req.sha && r.byteSize == req.byteSize
                               && r.name == req.name;
            && (!found ==> outcome == Outcome(v, Fail(EntityNotFound)))
            && (found && !described ==> outcome == Outcome(v, Fail(Conflict)))
            && (found && described && req.sha in v.blobs && v.blobs[req.sha].byteSize != req.byteSize ==>
                  outcome == Outcome(v, Fail(HashMismatch)))
            && (found && described && (req.sha in v.blobs ==> v.blobs[req.sha].byteSize == req.byteSize) ==>
                  outcome.reply.Ok?)
  {
    hide TablesOk, FindUpload, StatusOf, StartUpload;
    EnsureReferenceKeeps(v, req, now);
    EnsureBlobKeeps(EnsureReference(v, req), req, now);
    var v2 := EnsureBlob(EnsureReference(v, req), req, now);
    if Startable(v, req) { StartKeeps(v, v2, device, req, now); }
  }

  /** What a device is told: the bytes counted so far, exactly the ordinals that are not stored, and whether the upload
      is complete; of one in progress, all bytes have arrived exactly when nothing is missing. */
  lemma StatusReports(v: Vault, id: nat, now: Time)
    requires TablesOk(v, now) && id in v.uploads
    ensures var u, status := v.uploads[id], StatusOf(v, id);
            && status.upload == id && status.attachment == u.request.attachment
            && status.uploadedBytes == u.uploadedBytes && (status.completed <==> u.blob.Some?)
            && (forall k: nat :: k in status.missing <==> k < u.totalChunks && k !in ChunksOf(v, id))
            && (!status.completed ==> (status.uploadedBytes == u.request.byteSize <==> status.missing == []))
  {
    UploadAt(v, id, now);
    if v.uploads[id].status != Completed { AllBytesArrived(v, id, now); }
    hide TablesOk, ChunksOf;
  }
}
