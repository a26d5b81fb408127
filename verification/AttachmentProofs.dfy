/** What every call keeps about attachments: exact reference counts, links that lead somewhere, retention
    bounds, and accounted chunks. */
module AttachmentProofs {
  import opened AttachmentChunks
  import opened AttachmentVault
  import opened Wrappers

  // ---------------------------------------------------------------- the invariant

  /** The live references bound to a blob. */
  function LiveRefs(references: map<nat, Reference>, sha: Digest): set<nat> {
    set id | id in references && references[id].blob == Some(sha) && !references[id].tombstone
  }

  /** The count of a blob is the number of live references bound to it. */
  ghost predicate CountsOk(blobs: map<Digest, Blob>, references: map<nat, Reference>) {
    forall sha :: sha in blobs ==> blobs[sha].referenceCount == |LiveRefs(references, sha)|
  }

  ghost predicate BoundOk(blobs: map<Digest, Blob>, r: Reference) {
    r.blob.Some? ==> r.blob.value == r.sha && r.sha in blobs && blobs[r.sha].byteSize == r.byteSize
  }

  /** Whatever is bound is bound to an existing blob of the promised hash and size. */
  ghost predicate LinksOk(blobs: map<Digest, Blob>, references: map<nat, Reference>) {
    forall id :: id in references ==> BoundOk(blobs, references[id])
  }

  ghost predicate RetainedOk(blobs: map<Digest, Blob>, r: Reference) {
    && (r.tombstone <==> r.retentionUntil.Some?)
    && (r.tombstone && r.blob.Some? && r.blob.value in blobs ==>
          && blobs[r.blob.value].gcEligibleAt.Some?
          && r.retentionUntil.value <= blobs[r.blob.value].gcEligibleAt.value)
  }

  /** A blob is not due for collection before every deleted reference to it has outlived its retention. */
  ghost predicate RetentionOk(blobs: map<Digest, Blob>, references: map<nat, Reference>) {
    forall id :: id in references ==> RetainedOk(blobs, references[id])
  }

  ghost predicate UploadOk(blobs: map<Digest, Blob>, references: map<nat, Reference>, u: Upload, now: Time) {
    && ValidRequest(u.request)
    && u.totalChunks == TotalChunks(u.request.byteSize, u.request.chunkSize)
    && (u.status == Completed <==> u.blob.Some?)
    && (u.blob.Some? ==> u.blob.value == u.request.sha && u.request.sha in blobs)
    && (u.status == Expired ==> u.expiresAt <= now)
    && (u.expiresAt > now ==> u.request.sha in blobs && blobs[u.request.sha].byteSize == u.request.byteSize)
    && u.request.attachment in references
    && references[u.request.attachment].sha == u.request.sha
    && references[u.request.attachment].byteSize == u.request.byteSize
  }

  /** Every upload has its reference row, and as long as it has not expired, its blob row. */
  ghost predicate UploadsOk(blobs: map<Digest, Blob>, references: map<nat, Reference>, uploads: map<nat, Upload>,
                            nextUpload: nat, now: Time) {
    forall id :: id in uploads ==> id < nextUpload && UploadOk(blobs, references, uploads[id], now)
  }

  ghost predicate ChunkOk(u: Upload, k: nat, c: Chunk) {
    && k < u.totalChunks && u.request.chunkSize > 0
    && c.offset == Offset(u.request.chunkSize, k)
    && c.byteSize == ExpectedSize(u.request.byteSize, u.request.chunkSize, k)
  }

  /** The bytes counted as uploaded: those of the chunks stored, or all of a deduplicated upload. */
  ghost predicate Accounted(u: Upload, received: set<nat>) {
    || (u.status == Completed && received == {} && u.uploadedBytes == u.request.byteSize)
    || u.uploadedBytes == StoredBytes(u.request.byteSize, u.request.chunkSize, received, u.totalChunks)
  }

  ghost predicate ChunksOk(uploads: map<nat, Upload>, chunks: map<nat, map<nat, Chunk>>) {
    && (forall id :: id in chunks ==> id in uploads)
    && (forall id, k :: id in chunks && k in chunks[id] ==> ChunkOk(uploads[id], k, chunks[id][k]))
    && forall id :: id in uploads ==> Accounted(uploads[id], if id in chunks then chunks[id].Keys else {})
  }

  ghost predicate TablesOk(v: Vault, now: Time) {
    && CountsOk(v.blobs, v.references)
    && LinksOk(v.blobs, v.references)
    && RetentionOk(v.blobs, v.references)
    && UploadsOk(v.blobs, v.references, v.uploads, v.nextUpload, now)
    && ChunksOk(v.uploads, v.chunks)
  }

  // ---------------------------------------------------------------- the count trigger

  lemma LiveRefsUpdate(references: map<nat, Reference>, id: nat, r: Reference, sha: Digest)
    ensures LiveRefs(references[id := r], sha)
         == LiveRefs(references, sha) - {id} + (if r.blob == Some(sha) && !r.tombstone then {id} else {})
  {}

  lemma LiveMember(references: map<nat, Reference>, id: nat, sha: Digest)
    requires id in references
    ensures id in LiveRefs(references, sha) <==> references[id].blob == Some(sha) && !references[id].tombstone
  {}

  /** A blob changed only in its count and its collection time, which never moves forward. */
  ghost predicate SameBlob(before: Blob, after: Blob) {
    && after.byteSize == before.byteSize && after.status == before.status && after.createdAt == before.createdAt
    && (before.gcEligibleAt.Some? ==> after.gcEligibleAt.Some? && before.gcEligibleAt.value <= after.gcEligibleAt.value)
  }

  ghost predicate SameBlobs(before: map<Digest, Blob>, after: map<Digest, Blob>) {
    before.Keys == after.Keys && forall sha :: sha in before ==> SameBlob(before[sha], after[sha])
  }

  /** With exact counts the trigger never raises, keeps them exact, and records the retention of a reference
      that stops being live. */
  lemma CountedKeepsCounts(blobs: map<Digest, Blob>, references: map<nat, Reference>, id: nat, r: Reference, now: Time)
    requires CountsOk(blobs, references) && id in references
    requires references[id].blob.Some? ==> references[id].blob.value in blobs
    requires r.blob.Some? ==> r.blob.value in blobs
    requires IsLive(references[id]) && IsLive(r) ==> r.blob == references[id].blob
    ensures Counted(blobs, references[id], r, now).Some?
    ensures var after := Counted(blobs, references[id], r, now).value;
            && CountsOk(after, references[id := r]) && SameBlobs(blobs, after)
            && (IsLive(references[id]) && !IsLive(r) ==>
                  var b := after[references[id].blob.value];
                  b.gcEligibleAt.Some? && RetentionBound(references[id], r, now) <= b.gcEligibleAt.value)
  {
    hide LiveRefs;
    var before := references[id];
    if IsLive(before) { CountIsPositive(blobs, references, id, before.blob.value); }
    CountedShape(blobs, before, r, now);
    hide Counted, RetentionBound;
    var after := Counted(blobs, before, r, now).value;
    forall sha | sha in after ensures after[sha].referenceCount == |LiveRefs(references[id := r], sha)| {
      LiveCountStep(references, id, r, sha);
    }
  }

  lemma CountIsPositive(blobs: map<Digest, Blob>, references: map<nat, Reference>, id: nat, sha: Digest)
    requires CountsOk(blobs, references) && id in references && sha in blobs
    requires references[id].blob == Some(sha) && !references[id].tombstone
    ensures blobs[sha].referenceCount > 0
  {
    LiveMember(references, id, sha);
    assert LiveRefs(references, sha) != {};
  }

  /** What the trigger does to the blob rows, by what happens to the live binding. */
  lemma CountedShape(blobs: map<Digest, Blob>, before: Reference, r: Reference, now: Time)
    requires IsLive(before) ==> before.blob.value in blobs && blobs[before.blob.value].referenceCount > 0
    requires r.blob.Some? ==> r.blob.value in blobs
    requires IsLive(before) && IsLive(r) ==> r.blob == before.blob
    ensures IsLive(before) == IsLive(r) ==> Counted(blobs, before, r, now) == Some(blobs)
    ensures IsLive(before) && !IsLive(r) ==>
              var sha := before.blob.value;
              Counted(blobs, before, r, now) == Some(blobs[sha :=
                blobs[sha].(referenceCount := blobs[sha].referenceCount - 1,
                            gcEligibleAt := Later(blobs[sha].gcEligibleAt, RetentionBound(before, r, now)))])
    ensures !IsLive(before) && IsLive(r) ==>
              var sha := r.blob.value;
              Counted(blobs, before, r, now)
                  == Some(blobs[sha := blobs[sha].(referenceCount := blobs[sha].referenceCount + 1)])
  {}

  lemma LiveCountStep(references: map<nat, Reference>, id: nat, r: Reference, sha: Digest)
    requires id in references
    ensures |LiveRefs(references[id := r], sha)| == |LiveRefs(references, sha)|
      - (if references[id].blob == Some(sha) && !references[id].tombstone then 1 else 0)
      + (if r.blob == Some(sha) && !r.tombstone then 1 else 0)
  {
    LiveRefsUpdate(references, id, r, sha);
    LiveMember(references, id, sha);
    CardinalityStep(LiveRefs(references, sha), id);
  }

  lemma CardinalityStep(s: set<nat>, id: nat)
    ensures |s - {id}| == |s| - if id in s then 1 else 0
    ensures |s - {id} + {id}| == |s - {id}| + 1
  {
    if id !in s { assert s - {id} == s; }
  }

  // ---------------------------------------------------------------- updates of one reference

  lemma LinksFollow(before: map<Digest, Blob>, after: map<Digest, Blob>, references: map<nat, Reference>, id: nat,
                    r: Reference)
    requires LinksOk(before, references) && SameBlobs(before, after) && BoundOk(after, r)
    ensures LinksOk(after, references[id := r])
  {}

  lemma RetentionFollows(before: map<Digest, Blob>, after: map<Digest, Blob>, references: map<nat, Reference>,
                         id: nat, r: Reference)
    requires RetentionOk(before, references) && SameBlobs(before, after) && RetainedOk(after, r)
    ensures RetentionOk(after, references[id := r])
  {}

  lemma UploadsFollow(before: map<Digest, Blob>, after: map<Digest, Blob>, references: map<nat, Reference>, id: nat,
                      r: Reference, uploads: map<nat, Upload>, nextUpload: nat, now: Time)
    requires UploadsOk(before, references, uploads, nextUpload, now) && SameBlobs(before, after)
    requires id in references && r.sha == references[id].sha && r.byteSize == references[id].byteSize
    ensures UploadsOk(after, references[id := r], uploads, nextUpload, now)
  {}

  /** Changing one reference in its binding or its retention keeps the tables in order. */
  lemma ReferenceUpdateKeeps(v: Vault, id: nat, r: Reference, now: Time)
    requires TablesOk(v, now) && id in v.references
    requires r.sha == v.references[id].sha && r.byteSize == v.references[id].byteSize
    requires BoundOk(v.blobs, r) && (r.tombstone <==> r.retentionUntil.Some?)
    requires v.references[id].tombstone && r.tombstone ==> r == v.references[id]
    requires !v.references[id].tombstone && r.tombstone ==> r.blob == v.references[id].blob
    ensures WithReference(v, id, r, now).Some?
    ensures TablesOk(WithReference(v, id, r, now).value, now)
    ensures SameBlobs(v.blobs, WithReference(v, id, r, now).value.blobs)
  {
    hide CountsOk, UploadsOk, ChunksOk, Counted;
    var before := v.references[id];
    assert BoundOk(v.blobs, before) && RetainedOk(v.blobs, before);
    CountedKeepsCounts(v.blobs, v.references, id, r, now);
    var after := Counted(v.blobs, before, r, now).value;
    assert RetainedOk(after, r);
    hide LinksOk, RetentionOk;
    LinksFollow(v.blobs, after, v.references, id, r);
    RetentionFollows(v.blobs, after, v.references, id, r);
    UploadsFollow(v.blobs, after, v.references, id, r, v.uploads, v.nextUpload, now);
  }

  /** Deleting or restoring an attachment never trips the trigger. */
  lemma LifecycleKeeps(v: Vault, attachment: nat, kind: Lifecycle, now: Time)
    requires TablesOk(v, now)
    ensures ApplyLifecycle(v, attachment, kind, now).Some?
    ensures TablesOk(ApplyLifecycle(v, attachment, kind, now).value, now)
  {
    if attachment in v.references {
      var r := v.references[attachment];
      assert BoundOk(v.blobs, r);
      hide WithReference, CountsOk, LinksOk, RetentionOk, UploadsOk, ChunksOk;
      if kind == Deleted && !r.tombstone {
        ReferenceUpdateKeeps(v, attachment, r.(tombstone := true, retentionUntil := Some(now + RETENTION)), now);
      } else if kind == Restored && r.tombstone {
        ReferenceUpdateKeeps(v, attachment, r.(tombstone := false, retentionUntil := None), now);
      }
    }
  }

  /** A live reference can be bound exactly to an available blob of its hash and size. */
  lemma BindKeeps(v: Vault, id: nat, sha: Digest, now: Time)
    requires TablesOk(v, now) && id in v.references && !v.references[id].tombstone
    ensures Bind(v, id, sha, now).Some? <==> MayBind(v.blobs, v.references[id], sha)
    ensures Bind(v, id, sha, now).Some? ==>
              var bound := Bind(v, id, sha, now).value;
              && TablesOk(bound, now) && SameBlobs(v.blobs, bound.blobs)
              && bound
                 == v.(blobs := bound.blobs, references := v.references[id := v.references[id].(blob := Some(sha))])
  {
    if MayBind(v.blobs, v.references[id], sha) {
      var r := v.references[id];
      assert RetainedOk(v.blobs, r);
      ReferenceUpdateKeeps(v, id, r.(blob := Some(sha)), now);
      hide TablesOk, Counted;
    }
  }

  // ---------------------------------------------------------------- starting an upload

  lemma LiveRefsOfMissing(blobs: map<Digest, Blob>, references: map<nat, Reference>, sha: Digest)
    requires LinksOk(blobs, references) && sha !in blobs
    ensures LiveRefs(references, sha) == {}
  {
    forall id | id in references ensures id !in LiveRefs(references, sha) { assert BoundOk(blobs, references[id]); }
  }

  lemma EnsureReferenceKeeps(v: Vault, req: Request, now: Time)
    requires TablesOk(v, now)
    ensures TablesOk(EnsureReference(v, req), now)
  {
    if req.attachment !in v.references {
      var r := EnsureReference(v, req).references[req.attachment];
      hide CountsOk, LinksOk, RetentionOk, UploadsOk, ChunksOk;
      assert BoundOk(v.blobs, r) && RetainedOk(v.blobs, r) && SameBlobs(v.blobs, v.blobs);
      UnboundCounts(v.blobs, v.references, req.attachment, r);
      LinksFollow(v.blobs, v.blobs, v.references, req.attachment, r);
      RetentionFollows(v.blobs, v.blobs, v.references, req.attachment, r);
      MoreReferences(v.blobs, v.references, req.attachment, r, v.uploads, v.nextUpload, now);
    }
  }

  lemma UnboundCounts(blobs: map<Digest, Blob>, references: map<nat, Reference>, id: nat, r: Reference)
    requires CountsOk(blobs, references) && id !in references && r.blob.None?
    ensures CountsOk(blobs, references[id := r])
  {
    forall sha | sha in blobs ensures LiveRefs(references[id := r], sha) == LiveRefs(references, sha) {
      LiveRefsUpdate(references, id, r, sha);
      assert id !in LiveRefs(references, sha);
    }
    hide LiveRefs;
  }

  lemma MoreReferences(blobs: map<Digest, Blob>, references: map<nat, Reference>, id: nat, r: Reference,
                       uploads: map<nat, Upload>, nextUpload: nat, now: Time)
    requires UploadsOk(blobs, references, uploads, nextUpload, now) && id !in references
    ensures UploadsOk(blobs, references[id := r], uploads, nextUpload, now)
  {}

  lemma EnsureBlobKeeps(v: Vault, req: Request, now: Time)
    requires TablesOk(v, now)
    ensures TablesOk(EnsureBlob(v, req, now), now)
  {
    if req.sha !in v.blobs {
      LiveRefsOfMissing(v.blobs, v.references, req.sha);
      hide LiveRefs, ChunksOk;
    }
  }

  lemma StatusKeeps(v: Vault, sha: Digest, status: BlobStatus, now: Time)
    requires TablesOk(v, now) && sha in v.blobs
    ensures TablesOk(WithStatus(v, sha, status), now)
  {
    hide LiveRefs, ChunksOk;
  }

  lemma NewUploadKeeps(v: Vault, device: string, req: Request, deduplicated: bool, now: Time)
    requires TablesOk(v, now) && ValidRequest(req)
    requires req.sha in v.blobs && v.blobs[req.sha].byteSize == req.byteSize
    requires req.attachment in v.references && SameMetadata(v.references[req.attachment], req)
    ensures TablesOk(WithUpload(v, NewUpload(device, req, deduplicated, now)), now)
  {
    hide CountsOk, LinksOk, RetentionOk;
    var u := NewUpload(device, req, deduplicated, now);
    assert v.nextUpload !in v.chunks;
    assert UploadOk(v.blobs, v.references, u, now);
    NothingStored(req.byteSize, req.chunkSize, u.totalChunks);
    hide UploadOk, ChunkOk;
    assert Accounted(u, {}) by { hide UploadsOk, ChunksOk; }
    NewUploadChunks(v.uploads, v.chunks, v.nextUpload, u);
  }

  lemma NewUploadChunks(uploads: map<nat, Upload>, chunks: map<nat, map<nat, Chunk>>, id: nat, u: Upload)
    requires ChunksOk(uploads, chunks) && id !in uploads && Accounted(u, {})
    ensures ChunksOk(uploads[id := u], chunks)
  {
    hide Accounted, ChunkOk;
  }

  lemma {:induction false} NothingStored(byteSize: nat, chunkSize: nat, n: nat)
    ensures StoredBytes(byteSize, chunkSize, {}, n) == 0
  {
    if n > 0 { NothingStored(byteSize, chunkSize, n - 1); }
  }

  /** Starting an upload keeps the tables in order, and never trips a trigger. */
  lemma InitiateKeeps(v: Vault, device: string, req: Request, found: bool, now: Time)
    requires TablesOk(v, now) && ValidRequest(req)
    ensures TablesOk(Initiate(v, device, req, found, now).vault, now)
    ensures Initiate(v, device, req, found, now).reply != Fail(ConstraintViolated)
  {
    hide TablesOk, StartUpload, FindUpload, StatusOf;
    EnsureReferenceKeeps(v, req, now);
    EnsureBlobKeeps(EnsureReference(v, req), req, now);
    var v1 := EnsureReference(v, req);
    var v2 := EnsureBlob(v1, req, now);
    if !v1.references[req.attachment].tombstone && SameMetadata(v1.references[req.attachment], req)
       && v2.blobs[req.sha].byteSize == req.byteSize {
      StartKeeps(v, v2, device, req, now);
    }
  }

  lemma StartKeeps(before: Vault, v: Vault, device: string, req: Request, now: Time)
    requires TablesOk(before, now) && TablesOk(v, now) && ValidRequest(req)
    requires req.sha in v.blobs && v.blobs[req.sha].byteSize == req.byteSize && req.attachment in v.references
    requires !v.references[req.attachment].tombstone && SameMetadata(v.references[req.attachment], req)
    ensures TablesOk(StartUpload(before, v, device, req, now).vault, now)
    ensures StartUpload(before, v, device, req, now).reply.Ok?
  {
    hide TablesOk, Verify, Bind;
    var blob := v.blobs[req.sha];
    var deduplicated := blob.status == Available && Verify(v.files, BlobFile(req.sha), req.sha, blob.byteSize);
    StatusKeeps(v, req.sha, Quarantined, now);
    var checked := if blob.status == Available && !deduplicated then WithStatus(v, req.sha, Quarantined) else v;
    NewUploadKeeps(checked, device, req, deduplicated, now);
    var started := WithUpload(checked, NewUpload(device, req, deduplicated, now));
    hide NewUpload, StatusOf;
    if deduplicated { BindKeeps(started, req.attachment, req.sha, now); }
  }

  // ---------------------------------------------------------------- chunks and completion

  /** What of an upload the tables depend on besides its progress. */
  lemma UploadUpdate(v: Vault, id: nat, u: Upload, now: Time)
    requires UploadsOk(v.blobs, v.references, v.uploads, v.nextUpload, now) && id in v.uploads
    requires UploadOk(v.blobs, v.references, u, now)
    ensures UploadsOk(v.blobs, v.references, v.uploads[id := u], v.nextUpload, now)
  {
    hide UploadOk;
  }

  lemma ChunkUpdate(uploads: map<nat, Upload>, chunks: map<nat, map<nat, Chunk>>, id: nat, u: Upload,
                    rows: map<nat, Chunk>)
    requires ChunksOk(uploads, chunks) && id in uploads
    requires Accounted(u, rows.Keys) && forall k :: k in rows ==> ChunkOk(u, k, rows[k])
    ensures ChunksOk(uploads[id := u], chunks[id := rows])
  {
    hide Accounted, ChunkOk;
  }

  lemma RowsOf(v: Vault, id: nat)
    requires ChunksOk(v.uploads, v.chunks) && id in v.uploads
    ensures Accounted(v.uploads[id], ChunksOf(v, id).Keys)
    ensures forall k :: k in ChunksOf(v, id) ==> ChunkOk(v.uploads[id], k, ChunksOf(v, id)[k])
  {
    hide Accounted, ChunkOk;
    assert ChunksOf(v, id).Keys == if id in v.chunks then v.chunks[id].Keys else {};
  }

  lemma UploadAt(v: Vault, id: nat, now: Time)
    requires TablesOk(v, now) && id in v.uploads
    ensures id < v.nextUpload && UploadOk(v.blobs, v.references, v.uploads[id], now)
  {
    hide UploadOk;
  }

  lemma ChunkKeeps(v: Vault, id: nat, ordinal: nat, data: Bytes, now: Time)
    requires TablesOk(v, now) && id in v.uploads && v.uploads[id].status != Completed && v.uploads[id].expiresAt > now
    requires ChunkFits(v.uploads[id], ordinal, data) && ordinal !in ChunksOf(v, id)
    ensures TablesOk(WithChunk(v, id, ordinal, data), now)
  {
    hide CountsOk, LinksOk, RetentionOk, UploadsOk, ChunksOk, ExpectedSize, Offset, ChunksOf;
    var u := v.uploads[id];
    UploadAt(v, id, now);
    RowsOf(v, id);
    var after := WithChunk(v, id, ordinal, data);
    var rows := after.chunks[id];
    assert rows.Keys == ChunksOf(v, id).Keys + {ordinal};
    StoreOne(u.request.byteSize, u.request.chunkSize, ChunksOf(v, id).Keys, ordinal, u.totalChunks);
    UploadUpdate(v, id, after.uploads[id], now);
    ChunkUpdate(v.uploads, v.chunks, id, after.uploads[id], rows);
  }

  lemma ReceiveKeeps(v: Vault, id: nat, device: string, ordinal: int, data: Bytes, declared: Digest, now: Time)
    requires TablesOk(v, now)
    ensures TablesOk(ReceiveChunk(v, id, device, ordinal, data, declared, now).vault, now)
  {
    hide TablesOk, WithChunk, MissingChunks, ChunksOf;
    var after := ReceiveChunk(v, id, device, ordinal, data, declared, now).vault;
    if after != v { ChunkKeeps(v, id, ordinal, data, now); }
  }

  lemma CompletedKeeps(v: Vault, id: nat, now: Time)
    requires TablesOk(v, now) && id in v.uploads && v.uploads[id].request.sha in v.blobs
    requires v.uploads[id].status != Completed
    ensures TablesOk(WithCompleted(v, id), now)
  {
    hide CountsOk, LinksOk, RetentionOk, UploadsOk, ChunksOk, StoredBytes;
    var u := WithCompleted(v, id).uploads[id];
    UploadAt(v, id, now);
    RowsOf(v, id);
    UploadUpdate(v, id, u, now);
    assert ChunksOf(v, id).Keys == if id in v.chunks then v.chunks[id].Keys else {};
    ProgressOnly(v.uploads, v.chunks, id, u);
  }

  /** A change of an upload that keeps its accounts keeps those of all. */
  lemma ProgressOnly(uploads: map<nat, Upload>, chunks: map<nat, map<nat, Chunk>>, id: nat, u: Upload)
    requires ChunksOk(uploads, chunks) && id in uploads
    requires u.request == uploads[id].request && u.totalChunks == uploads[id].totalChunks
    requires Accounted(u, if id in chunks then chunks[id].Keys else {})
    ensures ChunksOk(uploads[id := u], chunks)
  {
    hide Accounted, Offset, ExpectedSize;
  }

  lemma FilesDoNotMatter(v: Vault, files: map<FileKey, Bytes>, now: Time)
    requires TablesOk(v, now)
    ensures TablesOk(v.(files := files), now)
  {
    hide CountsOk, LinksOk, RetentionOk, UploadsOk, ChunksOk;
  }

  /** Publishing an upload that has not expired finds its blob row; it fails exactly for a deleted reference. */
  lemma PublishKeeps(v: Vault, id: nat, now: Time)
    requires TablesOk(v, now) && id in v.uploads && v.uploads[id].expiresAt > now && v.uploads[id].status != Completed
    ensures var outcome := Publish(v, id, now);
            var req := v.uploads[id].request;
            && TablesOk(outcome.vault, now)
            && req.sha in v.blobs && v.blobs[req.sha].byteSize == req.byteSize && req.attachment in v.references
            && outcome.reply == (if v.references[req.attachment].tombstone then Fail(Conflict)
                                 else Ok(StatusOf(outcome.vault, id)))
  {
    var req := v.uploads[id].request;
    assert UploadOk(v.blobs, v.references, v.uploads[id], now);
    hide TablesOk, UploadOk, StatusOf;
    StatusKeeps(v, req.sha, Available, now);
    if !v.references[req.attachment].tombstone {
      var available := WithStatus(v, req.sha, Available);
      BindKeeps(available, req.attachment, req.sha, now);
      hide Bind;
      var bound := Bind(available, req.attachment, req.sha, now).value;
      CompletedKeeps(bound, id, now);
    }
  }

  lemma CompleteKeeps(v: Vault, id: nat, device: string, now: Time)
    requires TablesOk(v, now)
    ensures TablesOk(Complete(v, id, device, now).vault, now)
  {
    hide TablesOk, Publish, MissingChunks, StatusOf, Assembled;
    if id in v.uploads {
      var u := v.uploads[id];
      var assembled := Assembled(v.files, id, u.totalChunks, u.request.sha, u.request.byteSize);
      if assembled.Ok? {
        FilesDoNotMatter(v, v.files[BlobFile(u.request.sha) := assembled.value], now);
        if u.expiresAt > now && u.status != Completed {
          PublishKeeps(WithFile(v, u.request.sha, assembled.value), id, now);
        }
      }
    }
  }

  /** Completing an upload that has not expired: it fails exactly when chunks are missing, when a chunk file
      is lost or the bytes do not have the promised hash, or when the reference was deleted meanwhile. */
  lemma CompleteFailsExactly(v: Vault, id: nat, device: string, now: Time)
    requires TablesOk(v, now) && id in v.uploads && v.uploads[id].device == device
    requires v.uploads[id].expiresAt > now && v.uploads[id].status != Completed
    ensures var u := v.uploads[id];
            u.request.attachment in v.references &&
            match Complete(v, id, device, now).reply
            case Ok(_) =>
              && MissingChunks(v, id) == []
              && Assembled(v.files, id, u.totalChunks, u.request.sha, u.request.byteSize).Ok?
              && !v.references[u.request.attachment].tombstone
            case Fail(error) =>
              if MissingChunks(v, id) != [] then error == UploadIncomplete
              else match Assembled(v.files, id, u.totalChunks, u.request.sha, u.request.byteSize)
                   case Fail(lost) => error == lost
                   case Ok(_) => error == Conflict && v.references[u.request.attachment].tombstone
  {
    var u := v.uploads[id];
    assert UploadOk(v.blobs, v.references, u, now);
    AllBytesArrived(v, id, now);
    hide TablesOk, Publish, MissingChunks, StatusOf, Assembled, UploadOk;
    var assembled := Assembled(v.files, id, u.totalChunks, u.request.sha, u.request.byteSize);
    if assembled.Ok? {
      FilesDoNotMatter(v, v.files[BlobFile(u.request.sha) := assembled.value], now);
      PublishKeeps(WithFile(v, u.request.sha, assembled.value), id, now);
    }
  }

  /** Of an upload in progress, all bytes are there exactly when no chunk is missing. */
  lemma AllBytesArrived(v: Vault, id: nat, now: Time)
    requires TablesOk(v, now) && id in v.uploads && v.uploads[id].status != Completed
    ensures 0 <= v.uploads[id].uploadedBytes <= v.uploads[id].request.byteSize
    ensures v.uploads[id].uploadedBytes == v.uploads[id].request.byteSize <==> MissingChunks(v, id) == []
  {
    hide CountsOk, LinksOk, RetentionOk, UploadsOk, ChunksOk, ChunksOf, StoredBytes;
    var u := v.uploads[id];
    UploadAt(v, id, now);
    RowsOf(v, id);
    hide UploadOk;
    CompleteExactly(u.request.byteSize, u.request.chunkSize, ChunksOf(v, id).Keys);
  }

  lemma DownloadKeeps(v: Vault, attachment: nat, now: Time)
    requires TablesOk(v, now)
    ensures TablesOk(Download(v, attachment).vault, now)
  {
    hide TablesOk, WithStatus, Verify;
    if Download(v, attachment).vault != v { StatusKeeps(v, v.references[attachment].blob.value, Quarantined, now); }
  }

  /** Time passing keeps the tables in order. */
  lemma LaterKeeps(v: Vault, before: Time, now: Time)
    requires TablesOk(v, before) && before <= now
    ensures TablesOk(v, now)
  {
    hide CountsOk, LinksOk, RetentionOk, ChunksOk;
  }
}
