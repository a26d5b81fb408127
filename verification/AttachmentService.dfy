/** The attachment services over their tables and files, updated in place. */
module AttachmentService {
  import opened AttachmentChunks
  import opened AttachmentFiles
  import opened AttachmentVault
  import opened Wrappers

  class Service {
    var blobs: map<Digest, Blob>
    var references: map<nat, Reference>
    var uploads: map<nat, Upload>
    var chunks: map<nat, map<nat, Chunk>>
    var files: map<FileKey, Bytes>
    var nextUpload: nat

    /** The tables and files as one value. */
    function View(): Vault
      reads this
    {
      Vault(blobs, references, uploads, chunks, files, nextUpload)
    }

    constructor ()
      ensures View() == EMPTY_VAULT
    {
      blobs, references, uploads, chunks, files, nextUpload := map[], map[], map[], map[], map[], 0;
    }

    /** Undo all table changes since `before`; files are not part of a transaction. */
    method Rollback(before: Vault)
      modifies this
      ensures View() == before.(files := old(files))
    {
      blobs, references, uploads, chunks, nextUpload :=
        before.blobs, before.references, before.uploads, before.chunks, before.nextUpload;
    }

    /** Update a reference row; the trigger behind it moves the counts, or raises. */
    method UpdateReference(id: nat, r: Reference, now: Time) returns (raised: bool)
      requires id in references
      modifies this
      ensures raised <==> WithReference(old(View()), id, r, now).None?
      ensures !raised ==> View() == WithReference(old(View()), id, r, now).value
      ensures raised ==> View().(blobs := old(blobs)) == old(View())
    {
      var before := references[id];
      if IsLive(before) && (!IsLive(r) || r.blob != before.blob) {
        var sha := before.blob.value;
        if sha !in blobs || blobs[sha].referenceCount <= 0 { return true; }
        blobs := blobs[sha := blobs[sha].(referenceCount := blobs[sha].referenceCount - 1,
                                          gcEligibleAt := Later(blobs[sha].gcEligibleAt,
                                                                RetentionBound(before, r, now)))];
      }
      if IsLive(r) && (!IsLive(before) || r.blob != before.blob) {
        var sha := r.blob.value;
        if sha !in blobs { return true; }
        blobs := blobs[sha := blobs[sha].(referenceCount := blobs[sha].referenceCount + 1)];
      }
      references := references[id := r];
      raised := false;
    }

    /** Bind a reference to a blob; the trigger before it checks the blob's metadata. */
    method BindReference(id: nat, sha: Digest, now: Time) returns (raised: bool)
      requires id in references
      modifies this
      ensures raised <==> Bind(old(View()), id, sha, now).None?
      ensures !raised ==> View() == Bind(old(View()), id, sha, now).value
      ensures raised ==> View().(blobs := old(blobs)) == old(View())
    {
      if !MayBind(blobs, references[id], sha) { return true; }
      raised := UpdateReference(id, references[id].(blob := Some(sha)), now);
    }

    method ApplyReferenceLifecycle(attachment: nat, kind: Lifecycle, now: Time) returns (raised: bool)
      modifies this
      ensures raised <==> ApplyLifecycle(old(View()), attachment, kind, now).None?
      ensures View() == if raised then old(View()) else ApplyLifecycle(old(View()), attachment, kind, now).value
    {
      if attachment !in references { return false; }
      ghost var before := View();
      var start := View();
      var r := references[attachment];
      raised := false;
      if kind == Deleted && !r.tombstone {
        raised := UpdateReference(attachment, r.(tombstone := true, retentionUntil := Some(now + RETENTION)), now);
      } else if kind == Restored && r.tombstone {
        raised := UpdateReference(attachment, r.(tombstone := false, retentionUntil := None), now);
      }
      if raised { Rollback(start); }
    }

    method InitiateUpload(device: string, req: Request, found: bool, now: Time) returns (reply: Reply<Status>)
      requires ValidRequest(req)
      modifies this
      ensures Outcome(View(), reply) == Initiate(old(View()), device, req, found, now)
    {
      var start := View();
      var existing := FindUpload(start, device, req.key, nextUpload);
      if existing.Some? {
        var u := uploads[existing.value];
        if u.request != req { return Fail(IdempotencyMismatch); }
        if u.status != Completed && u.expiresAt <= now { return Fail(UploadExpired); }
        return Ok(StatusOf(start, existing.value));
      }
      if !found { return Fail(EntityNotFound); }
      if req.attachment !in references {
        var pending := Reference(req.target, req.sha, req.byteSize, req.name, None, false, None);
        references := references[req.attachment := pending];
      }
      var r := references[req.attachment];
      if r.tombstone || !SameMetadata(r, req) {
        Rollback(start);
        return Fail(Conflict);
      }
      if req.sha !in blobs {
        blobs := blobs[req.sha := Blob(req.byteSize, Pending, 0, None, now)];
      }
      if blobs[req.sha].byteSize != req.byteSize {
        Rollback(start);
        return Fail(HashMismatch);
      }
      reply := OpenUpload(device, req, now, start);
    }

    method OpenUpload(device: string, req: Request, now: Time, start: Vault) returns (reply: Reply<Status>)
      requires ValidRequest(req) && req.sha in blobs && req.attachment in references && start.files == files
      modifies this
      ensures Outcome(View(), reply) == StartUpload(start, old(View()), device, req, now)
    {
      var blob := blobs[req.sha];
      var deduplicated := blob.status == Available && Verify(files, BlobFile(req.sha), req.sha, blob.byteSize);
      if blob.status == Available && !deduplicated {
        blobs := blobs[req.sha := blob.(status := Quarantined)];
      }
      var id := nextUpload;
      uploads := uploads[id := NewUpload(device, req, deduplicated, now)];
      nextUpload := nextUpload + 1;
      if deduplicated {
        var raised := BindReference(req.attachment, req.sha, now);
        if raised {
          Rollback(start);
          return Fail(ConstraintViolated);
        }
      }
      reply := Ok(StatusOf(View(), id));
    }

    method UploadChunk(id: nat, device: string, ordinal: int, data: Bytes, declared: Digest, now: Time)
      returns (reply: Reply<Receipt>)
      modifies this
      ensures Outcome(View(), reply) == ReceiveChunk(old(View()), id, device, ordinal, data, declared, now)
    {
      if |data| > MAX_CHUNK { return Fail(ChunkTooLarge); }
      if Sha(data) != declared { return Fail(ChunkMismatch); }
      if id !in uploads || uploads[id].device != device { return Fail(EntityNotFound); }
      var u := uploads[id];
      if u.status != Completed && u.expiresAt <= now { return Fail(UploadExpired); }
      if !ChunkFits(u, ordinal, data) { return Fail(ChunkMismatch); }
      var offset := Offset(u.request.chunkSize, ordinal);
      var rows := ChunksOf(View(), id);
      if ordinal in rows {
        if rows[ordinal] != Chunk(offset, |data|, declared) { return Fail(ChunkMismatch); }
        return Ok(Receipt(true, u.uploadedBytes, MissingChunks(View(), id)));
      }
      if u.status == Completed { return Fail(ChunkMismatch); }
      var key := ChunkFile(id, ordinal);
      if key in files && files[key] != data { return Fail(ChunkMismatch); }
      files := files[key := data];
      var k: nat := ordinal;
      var more: map<nat, Chunk> := rows[k := Chunk(offset, |data|, declared)];
      chunks := chunks[id := more];
      uploads := uploads[id := u.(uploadedBytes := u.uploadedBytes + |data|, status := Uploading)];
      reply := Ok(Receipt(false, uploads[id].uploadedBytes, MissingChunks(View(), id)));
    }

    /** Put the chunk files together, or keep a final file that verifies. */
    method Assemble(id: nat, total: nat, sha: Digest, byteSize: nat) returns (reply: Reply<Bytes>)
      ensures reply == Assembled(files, id, total, sha, byteSize)
    {
      if Verify(files, BlobFile(sha), sha, byteSize) { return Ok(files[BlobFile(sha)]); }
      var output: Bytes := [];
      var k := 0;
      while k < total
        invariant 0 <= k <= total
        invariant forall j: nat :: j < k ==> ChunkFile(id, j) in files
        invariant output == Concatenated(Parts(files, id, total), k)
      {
        if ChunkFile(id, k) !in files { return Fail(FileLost); }
        output := output + files[ChunkFile(id, k)];
        k := k + 1;
      }
      if |output| != byteSize || Sha(output) != sha { return Fail(HashMismatch); }
      reply := Ok(output);
    }

    method CompleteUpload(id: nat, device: string, now: Time) returns (reply: Reply<Status>)
      modifies this
      ensures Outcome(View(), reply) == Complete(old(View()), id, device, now)
    {
      if id !in uploads || uploads[id].device != device { return Fail(EntityNotFound); }
      var u := uploads[id];
      if u.status == Completed { return Ok(StatusOf(View(), id)); }
      if u.expiresAt <= now { return Fail(UploadExpired); }
      var missing := MissingChunks(View(), id);
      if missing != [] || u.uploadedBytes != u.request.byteSize { return Fail(UploadIncomplete); }
      var assembled := Assemble(id, u.totalChunks, u.request.sha, u.request.byteSize);
      if assembled.Fail? { return Fail(assembled.error); }
      files := files[BlobFile(u.request.sha) := assembled.value];
      reply := PublishUpload(id, now);
    }

    method PublishUpload(id: nat, now: Time) returns (reply: Reply<Status>)
      requires id in uploads
      modifies this
      ensures Outcome(View(), reply) == Publish(old(View()), id, now)
    {
      var start := View();
      var req := uploads[id].request;
      if req.sha !in blobs || blobs[req.sha].byteSize != req.byteSize { return Fail(HashMismatch); }
      blobs := blobs[req.sha := blobs[req.sha].(status := Available)];
      if req.attachment !in references || references[req.attachment].tombstone {
        Rollback(start);
        return Fail(Conflict);
      }
      var raised := BindReference(req.attachment, req.sha, now);
      if raised {
        Rollback(start);
        return Fail(ConstraintViolated);
      }
      uploads := uploads[id := uploads[id].(status := Completed, blob := Some(req.sha))];
      reply := Ok(StatusOf(View(), id));
    }

    method DownloadAttachment(attachment: nat) returns (reply: Reply<Bytes>)
      modifies this
      ensures Outcome(View(), reply) == Download(old(View()), attachment)
    {
      if attachment !in references || !IsLive(references[attachment]) { return Fail(EntityNotFound); }
      var sha := references[attachment].blob.value;
      if sha !in blobs || blobs[sha].status != Available { return Fail(EntityNotFound); }
      if Verify(files, BlobFile(sha), sha, blobs[sha].byteSize) { return Ok(files[BlobFile(sha)]); }
      blobs := blobs[sha := blobs[sha].(status := Quarantined)];
      reply := Fail(HashMismatch);
    }

    /** The first transaction of a run: mark overdue uploads, drop those past their grace period. */
    method ExpireSelected(ids: seq<nat>, now: Time) returns (fileKeys: set<FileKey>, marked: nat, deleted: nat)
      requires forall i :: 0 <= i < |ids| ==> Overdue(View(), ids[i], now)
      requires Distinct(ids)
      modifies this
      ensures View() == ExpireUploads(old(View()), ids, now)
      ensures fileKeys == ExpiredFiles(old(View()), ids, now)
      ensures marked == |NewlyExpired(old(View()), ids)| && deleted == |PastGrace(old(View()), ids, now)|
    {
      hide NewlyExpired, PastGrace, ExpireUpload, ExpireUploads, ExpiredFiles, ChunkKeys, ChunksOf, Overdue, Distinct,
          StillAs;
      fileKeys, marked, deleted := {}, 0, 0;
      var i := 0;
      ghost var start := View();
      NoneExpired(start, ids, now);
      while i < |ids|
        invariant 0 <= i <= |ids|
        invariant View() == ExpireUploads(start, ids[..i], now) && StillAs(start, View(), ids, i)
        invariant fileKeys == ExpiredFiles(start, ids[..i], now)
        invariant marked == |NewlyExpired(start, ids[..i])| && deleted == |PastGrace(start, ids[..i], now)|
      {
        ExpireNext(start, View(), ids, i, now);
        OneMoreCounted(start, ids, i, now);
        if uploads[ids[i]].status != Expired { marked := marked + 1; }
        var keys, dropped := ExpireRow(ids[i], now);
        fileKeys := fileKeys + keys;
        if dropped { deleted := deleted + 1; }
        i := i + 1;
      }
      assert ids[..|ids|] == ids;
    }

    /** Mark one overdue upload; past its grace period, drop it with its chunk rows. */
    method ExpireRow(id: nat, now: Time) returns (keys: set<FileKey>, dropped: bool)
      requires id in uploads
      modifies this
      ensures View() == ExpireUpload(old(View()), id, now)
      ensures dropped <==> old(uploads[id].expiresAt) <= now - GRACE
      ensures keys == if dropped then ChunkKeys(old(View()), id) else {}
    {
      keys, dropped := {}, uploads[id].expiresAt <= now - GRACE;
      uploads := uploads[id := uploads[id].(status := Expired)];
      if dropped {
        keys := ChunkKeys(View(), id);
        uploads, chunks := uploads - {id}, chunks - {id};
      }
    }

    /** The second transaction of a run: remove the selected blobs that nothing needs. */
    method CollectSelected(shas: seq<Digest>, now: Time) returns (fileKeys: set<FileKey>, blobsDeleted: nat)
      modifies this
      ensures View() == CollectBlobs(old(View()), shas, now)
      ensures fileKeys == BlobFiles(old(View()), View())
      ensures blobsDeleted == |old(blobs)| - |blobs|
    {
      hide CollectBlobs, CollectBlob, DropBlob, BlobFiles, Needed;
      fileKeys, blobsDeleted := {}, 0;
      var i := 0;
      ghost var start := View();
      NoneCollected(start, shas, now);
      while i < |shas|
        invariant 0 <= i <= |shas|
        invariant View() == CollectBlobs(start, shas[..i], now)
        invariant blobs.Keys <= start.blobs.Keys && fileKeys == BlobFiles(start, View())
        invariant blobsDeleted == |start.blobs| - |blobs|
      {
        CollectNext(start, View(), shas, i, now);
        var sha := shas[i];
        if sha in blobs && !Needed(View(), sha, now) {
          DropBlobRow(sha);
          fileKeys := fileKeys + {BlobFile(sha)};
          blobsDeleted := blobsDeleted + 1;
        }
        i := i + 1;
      }
      assert shas[..|shas|] == shas;
    }

    method DropBlobRow(sha: Digest)
      requires sha in blobs
      modifies this
      ensures View() == DropBlob(old(View()), sha)
      ensures blobs.Keys == old(blobs.Keys) - {sha} && |blobs| == |old(blobs)| - 1
    {
      var remaining := WithoutUploadsOf(uploads, sha);
      chunks := map id | id in chunks && (id in remaining || id !in uploads) :: chunks[id];
      uploads := remaining;
      references := Detached(references, sha);
      assert |blobs.Keys - {sha}| == |blobs.Keys| - 1;
      blobs := blobs - {sha};
      assert |blobs| == |blobs.Keys|;
    }

    /** Unlink the files of removed rows; some may resist. */
    method DeleteFiles(fileKeys: set<FileKey>, undeletable: set<FileKey>) returns (deleted: nat, failures: nat)
      modifies this`files
      ensures files == old(files) - (fileKeys - undeletable)
      ensures deleted == |old(files)| - |files|
      ensures failures == |fileKeys * undeletable * old(files.Keys)|
    {
      hide FilesLeft, Resisting;
      var todo := fileKeys;
      ghost var start, done: set<FileKey> := files, {};
      deleted, failures := 0, 0;
      NoneDeleted(files, undeletable);
      while todo != {}
        invariant done == fileKeys - todo && todo <= fileKeys
        invariant files == FilesLeft(start, done, undeletable)
        invariant deleted == |start| - |files| && failures == |Resisting(start, done, undeletable)|
        decreases |todo|
      {
        var key :| key in todo;
        DeleteOne(start, done, key, undeletable);
        todo := todo - {key};
        done := done + {key};
        if key in files {
          if key in undeletable {
            failures := failures + 1;
          } else {
            files := files - {key};
            deleted := deleted + 1;
          }
        }
      }
      assert done == fileKeys;
      AllDeleted(start, fileKeys, undeletable);
    }

    /** A maintenance run and its report: the uploads marked and dropped, the blob rows and files that went, and the
        files that resisted. */
    method RunMaintenance(ids: seq<nat>, shas: seq<Digest>, undeletable: set<FileKey>, ghost batchSize: nat, now: Time)
      returns (report: Report)
      requires Selected(View(), ids, shas, batchSize, now)
      modifies this
      ensures View() == Maintain(old(View()), ids, shas, undeletable, now)
      ensures report.expiredMarked == |NewlyExpired(old(View()), ids)|
      ensures report.expiredDeleted == |PastGrace(old(View()), ids, now)|
      ensures report.blobsDeleted == |old(blobs)| - |blobs|
      ensures report.filesDeleted == |old(files)| - |files|
      ensures report.fileFailures == |Resistant(old(View()), View(), ids, undeletable, now)|
    {
      hide ExpiredFiles, BlobFiles, NewlyExpired, PastGrace;
      ghost var start := View();
      var chunkFiles, marked, dropped := ExpireSelected(ids, now);
      BlobsUntouched(start, ids, now);
      var blobFiles, blobsDeleted := CollectSelected(shas, now);
      FilesUntouched(start, ids, shas, now);
      var deleted, failures := DeleteFiles(chunkFiles + blobFiles, undeletable);
      ResistantAre(start, ids, shas, undeletable, now);
      report := Report(marked, dropped, blobsDeleted, deleted, failures);
    }
  }

  /** The stored files of removed rows that resist. */
  ghost function Resistant(v: Vault, after: Vault, ids: seq<nat>, undeletable: set<FileKey>, now: Time): set<FileKey> {
    set key | key in v.files && key in undeletable && OfRemovedRow(v, after, ids, now, key)
  }

  lemma ResistantAre(v: Vault, ids: seq<nat>, shas: seq<Digest>, undeletable: set<FileKey>, now: Time)
    ensures RemovedKeys(v, ids, shas, now) * undeletable * v.files.Keys
         == Resistant(v, Maintain(v, ids, shas, undeletable, now), ids, undeletable, now)
  {
    forall key: FileKey
      ensures key in RemovedKeys(v, ids, shas, now)
              <==> OfRemovedRow(v, Maintain(v, ids, shas, undeletable, now), ids, now, key)
    {
      RemovedKeysAre(v, ids, shas, undeletable, now, key);
    }
    hide RemovedKeys, OfRemovedRow, Maintain;
  }

  ghost function FilesLeft(files: map<FileKey, Bytes>, done: set<FileKey>,
                           undeletable: set<FileKey>): map<FileKey, Bytes> {
    files - (done - undeletable)
  }

  ghost function Resisting(files: map<FileKey, Bytes>, done: set<FileKey>, undeletable: set<FileKey>): set<FileKey> {
    done * undeletable * files.Keys
  }

  lemma NoneDeleted(files: map<FileKey, Bytes>, undeletable: set<FileKey>)
    ensures FilesLeft(files, {}, undeletable) == files && Resisting(files, {}, undeletable) == {}
  {}

  lemma AllDeleted(files: map<FileKey, Bytes>, done: set<FileKey>, undeletable: set<FileKey>)
    ensures FilesLeft(files, done, undeletable) == files - (done - undeletable)
    ensures Resisting(files, done, undeletable) == done * undeletable * files.Keys
  {}

  lemma DeleteOne(files: map<FileKey, Bytes>, done: set<FileKey>, key: FileKey, undeletable: set<FileKey>)
    requires key !in done
    ensures var before, after := FilesLeft(files, done, undeletable), FilesLeft(files, done + {key}, undeletable);
            && after == (if key in before && key !in undeletable then before - {key} else before)
            && |after| == |before| - (if key in before && key !in undeletable then 1 else 0)
            && |Resisting(files, done + {key}, undeletable)|
               == |Resisting(files, done, undeletable)| + if key in before && key in undeletable then 1 else 0
  {
    var before, after := FilesLeft(files, done, undeletable), FilesLeft(files, done + {key}, undeletable);
    assert after == if key in before && key !in undeletable then before - {key} else before;
    if key in before && key !in undeletable { OneFewer(before, key); }
    ResistOne(files, done, key, undeletable);
  }

  lemma ResistOne(files: map<FileKey, Bytes>, done: set<FileKey>, key: FileKey, undeletable: set<FileKey>)
    requires key !in done
    ensures |Resisting(files, done + {key}, undeletable)|
         == |Resisting(files, done, undeletable)|
             + if key in FilesLeft(files, done, undeletable) && key in undeletable then 1 else 0
  {
    assert Resisting(files, done + {key}, undeletable)
        == Resisting(files, done, undeletable)
           + if key in FilesLeft(files, done, undeletable) && key in undeletable then {key} else {};
  }

  lemma OneFewer<K, T>(m: map<K, T>, key: K)
    requires key in m
    ensures |m - {key}| == |m| - 1
  {
    assert (m - {key}).Keys == m.Keys - {key};
    assert |m.Keys - {key}| == |m.Keys| - 1;
  }

  lemma NoneCollected(v: Vault, shas: seq<Digest>, now: Time)
    ensures CollectBlobs(v, shas[..0], now) == v && BlobFiles(v, v) == {}
  {}

  lemma CollectNext(v: Vault, mid: Vault, shas: seq<Digest>, i: nat, now: Time)
    requires i < |shas| && mid == CollectBlobs(v, shas[..i], now) && mid.blobs.Keys <= v.blobs.Keys
    ensures var sha := shas[i];
            && CollectBlobs(v, shas[..i+1], now)
               == (if sha !in mid.blobs || Needed(mid, sha, now) then mid else DropBlob(mid, sha))
            && (sha in mid.blobs ==> BlobFiles(v, DropBlob(mid, sha)) == BlobFiles(v, mid) + {BlobFile(sha)})
  {
    assert shas[..i+1][..i] == shas[..i];
    hide Needed, CollectBlobs;
    assert DropBlob(mid, shas[i]).blobs == mid.blobs - {shas[i]};
    hide DropBlob;
  }

  /** The uploads from the i-th on are as they were. */
  ghost predicate StillAs(v: Vault, after: Vault, ids: seq<nat>, i: nat) {
    forall j :: i <= j < |ids| ==>
      && ids[j] in v.uploads && ids[j] in after.uploads && after.uploads[ids[j]] == v.uploads[ids[j]]
      && ChunksOf(after, ids[j]) == ChunksOf(v, ids[j])
  }

  lemma NoneExpired(v: Vault, ids: seq<nat>, now: Time)
    requires forall i :: 0 <= i < |ids| ==> Overdue(v, ids[i], now)
    ensures ExpireUploads(v, ids[..0], now) == v && ExpiredFiles(v, ids[..0], now) == {} && StillAs(v, v, ids, 0)
    ensures NewlyExpired(v, ids[..0]) == {} && PastGrace(v, ids[..0], now) == {}
  {}

  lemma ExpireNext(v: Vault, mid: Vault, ids: seq<nat>, i: nat, now: Time)
    requires i < |ids| && Distinct(ids) && mid == ExpireUploads(v, ids[..i], now) && StillAs(v, mid, ids, i)
    ensures ids[i] in v.uploads && ids[i] in mid.uploads && mid.uploads[ids[i]] == v.uploads[ids[i]]
    ensures ExpireUploads(v, ids[..i+1], now) == ExpireUpload(mid, ids[i], now)
    ensures ExpiredFiles(v, ids[..i+1], now)
         == ExpiredFiles(v, ids[..i], now)
             + if v.uploads[ids[i]].expiresAt <= now - GRACE then ChunkKeys(mid, ids[i]) else {}
    ensures StillAs(v, ExpireUpload(mid, ids[i], now), ids, i + 1)
  {
    assert ids[..i+1][..i] == ids[..i];
    OthersStay(mid, ids, i, now);
    hide ExpireUpload, ChunksOf;
  }

  lemma OthersStay(mid: Vault, ids: seq<nat>, i: nat, now: Time)
    requires i < |ids| && Distinct(ids)
    ensures var after := ExpireUpload(mid, ids[i], now);
            forall j :: i < j < |ids| ==>
              && (ids[j] in mid.uploads ==> ids[j] in after.uploads && after.uploads[ids[j]] == mid.uploads[ids[j]])
              && ChunksOf(after, ids[j]) == ChunksOf(mid, ids[j])
  {
    forall j | i < j < |ids| ensures ids[j] != ids[i] {}
    hide Distinct;
  }

  lemma OneMoreCounted(v: Vault, ids: seq<nat>, i: nat, now: Time)
    requires i < |ids| && Distinct(ids) && ids[i] in v.uploads
    ensures |NewlyExpired(v, ids[..i+1])| == |NewlyExpired(v, ids[..i])|
            + if v.uploads[ids[i]].status != Expired then 1 else 0
    ensures |PastGrace(v, ids[..i+1], now)| == |PastGrace(v, ids[..i], now)|
            + if v.uploads[ids[i]].expiresAt <= now - GRACE then 1 else 0
  {
    assert ids[i] !in ids[..i];
    assert ids[..i+1] == ids[..i] + [ids[i]];
    NextExpired(v, ids[..i], ids[i]);
    NextPastGrace(v, ids[..i], ids[i], now);
  }

  lemma NextExpired(v: Vault, ids: seq<nat>, id: nat)
    requires id !in ids && id in v.uploads
    ensures |NewlyExpired(v, ids + [id])| == |NewlyExpired(v, ids)| + if v.uploads[id].status != Expired then 1 else 0
  {
    assert NewlyExpired(v, ids + [id]) == NewlyExpired(v, ids) + if v.uploads[id].status != Expired then {id} else {};
  }

  lemma NextPastGrace(v: Vault, ids: seq<nat>, id: nat, now: Time)
    requires id !in ids && id in v.uploads
    ensures |PastGrace(v, ids + [id], now)| == |PastGrace(v, ids, now)|
            + if v.uploads[id].expiresAt <= now - GRACE then 1 else 0
  {
    assert PastGrace(v, ids + [id], now) == PastGrace(v, ids, now)
           + if v.uploads[id].expiresAt <= now - GRACE then {id} else {};
  }

  lemma {:induction false} BlobsUntouched(v: Vault, ids: seq<nat>, now: Time)
    ensures ExpireUploads(v, ids, now).blobs == v.blobs && ExpireUploads(v, ids, now).files == v.files
  {
    if ids != [] { BlobsUntouched(v, ids[..|ids|-1], now); }
  }

  lemma {:induction false} FilesUntouched(v: Vault, ids: seq<nat>, shas: seq<Digest>, now: Time)
    ensures CollectBlobs(ExpireUploads(v, ids, now), shas, now).files == v.files
  {
    hide Needed, ExpireUploads;
    if shas == [] {
      BlobsUntouched(v, ids, now);
    } else {
      FilesUntouched(v, ids, shas[..|shas|-1], now);
    }
  }
}
