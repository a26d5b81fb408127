/** What a maintenance run removes, and what it never does. */
module AttachmentMaintenance {
  import opened AttachmentChunks
  import opened AttachmentProofs
  import opened AttachmentVault
  import opened Wrappers

  // ---------------------------------------------------------------- expired uploads

  lemma FewerUploads(v: Vault, ids: set<nat>, now: Time)
    requires TablesOk(v, now)
    ensures TablesOk(v.(uploads := v.uploads - ids, chunks := v.chunks - ids), now)
  {
    hide CountsOk, LinksOk, RetentionOk, UploadOk, ChunkOk, Accounted;
  }

  lemma MarkKeeps(v: Vault, id: nat, now: Time)
    requires TablesOk(v, now) && Overdue(v, id, now)
    ensures TablesOk(v.(uploads := v.uploads[id := v.uploads[id].(status := Expired)]), now)
  {
    hide CountsOk, LinksOk, RetentionOk, UploadsOk, ChunksOk, StoredBytes;
    var u := v.uploads[id].(status := Expired);
    UploadAt(v, id, now);
    RowsOf(v, id);
    UploadUpdate(v, id, u, now);
    assert ChunksOf(v, id).Keys == if id in v.chunks then v.chunks[id].Keys else {};
    ProgressOnly(v.uploads, v.chunks, id, u);
  }

  lemma ExpireKeeps(v: Vault, id: nat, now: Time)
    requires TablesOk(v, now) && (id in v.uploads ==> Overdue(v, id, now))
    ensures TablesOk(ExpireUpload(v, id, now), now)
  {
    hide TablesOk;
    if id in v.uploads {
      MarkKeeps(v, id, now);
      FewerUploads(v.(uploads := v.uploads[id := v.uploads[id].(status := Expired)]), {id}, now);
    }
  }

  /** Expiring uploads touches nothing but overdue uploads, and drops those past their grace period. */
  ghost predicate Expiry(v: Vault, after: Vault, ids: seq<nat>, now: Time) {
    && after == v.(uploads := after.uploads, chunks := after.chunks)
    && (forall id :: id in after.uploads ==> id in v.uploads)
    && (forall id :: id in v.uploads && id !in ids ==> id in after.uploads && after.uploads[id] == v.uploads[id])
    && (forall id :: id in v.uploads && id in ids ==>
          && (id in after.uploads <==> v.uploads[id].expiresAt > now - GRACE)
          && (id in after.uploads ==> after.uploads[id] == v.uploads[id].(status := Expired)))
    && (forall id :: id in after.uploads && id in v.chunks ==> id in after.chunks && after.chunks[id] == v.chunks[id])
    && (forall id :: id in after.chunks ==> id in v.chunks)
  }

  lemma {:induction false} ExpiryHolds(v: Vault, ids: seq<nat>, now: Time)
    ensures Expiry(v, ExpireUploads(v, ids, now), ids, now)
  {
    if ids != [] {
      var n := |ids| - 1;
      ExpiryHolds(v, ids[..n], now);
      hide ExpireUpload;
      ExpiryStep(v, ExpireUploads(v, ids[..n], now), ids[..n], ids[n], now);
      assert ids == ids[..n] + [ids[n]];
    }
  }

  lemma ExpiryStep(v: Vault, mid: Vault, ids: seq<nat>, id: nat, now: Time)
    requires Expiry(v, mid, ids, now)
    ensures Expiry(v, ExpireUpload(mid, id, now), ids + [id], now)
  {
    var after := ExpireUpload(mid, id, now);
    assert after == v.(uploads := after.uploads, chunks := after.chunks);
    hide ExpireUpload;
    forall x: nat
      ensures x in after.uploads ==> x in v.uploads
      ensures x in v.uploads && x !in ids + [id] ==> x in after.uploads && after.uploads[x] == v.uploads[x]
      ensures x in v.uploads && x in ids + [id] ==> (x in after.uploads <==> v.uploads[x].expiresAt > now - GRACE)
      ensures x in v.uploads && x in ids + [id] && x in after.uploads ==>
                after.uploads[x] == v.uploads[x].(status := Expired)
      ensures x in after.uploads && x in v.chunks ==> x in after.chunks && after.chunks[x] == v.chunks[x]
      ensures x in after.chunks ==> x in v.chunks
    {
      ExpiryStepAt(v, mid, ids, id, now, x);
    }
  }

  lemma ExpiryStepAt(v: Vault, mid: Vault, ids: seq<nat>, id: nat, now: Time, x: nat)
    requires Expiry(v, mid, ids, now)
    ensures var after := ExpireUpload(mid, id, now);
            && (x in after.uploads ==> x in v.uploads)
            && (x in v.uploads && x !in ids + [id] ==> x in after.uploads && after.uploads[x] == v.uploads[x])
            && (x in v.uploads && x in ids + [id] ==>
                  && (x in after.uploads <==> v.uploads[x].expiresAt > now - GRACE)
                  && (x in after.uploads ==> after.uploads[x] == v.uploads[x].(status := Expired)))
            && (x in after.uploads && x in v.chunks ==> x in after.chunks && after.chunks[x] == v.chunks[x])
            && (x in after.chunks ==> x in v.chunks)
  {}

  lemma {:induction false} ExpireAllKeeps(v: Vault, ids: seq<nat>, now: Time)
    requires TablesOk(v, now) && forall i :: 0 <= i < |ids| ==> Overdue(v, ids[i], now)
    ensures TablesOk(ExpireUploads(v, ids, now), now)
  {
    hide TablesOk, ExpireUpload;
    if ids != [] {
      var n := |ids| - 1;
      ExpireAllKeeps(v, ids[..n], now);
      ExpiryHolds(v, ids[..n], now);
      ExpireKeeps(ExpireUploads(v, ids[..n], now), ids[n], now);
    }
  }

  // ---------------------------------------------------------------- unneeded blobs

  lemma DetachedCounts(v: Vault, sha: Digest)
    requires CountsOk(v.blobs, v.references)
    ensures CountsOk(v.blobs - {sha}, Detached(v.references, sha))
  {
    forall other | other in v.blobs && other != sha
      ensures LiveRefs(Detached(v.references, sha), other) == LiveRefs(v.references, other)
    {}
    hide LiveRefs;
  }

  /** Once no live reference holds a blob, detaching the deleted ones leaves no link to it: its row can go. */
  lemma DetachedLinks(v: Vault, sha: Digest)
    requires LinksOk(v.blobs, v.references) && RetentionOk(v.blobs, v.references) && !HasLiveReference(v, sha)
    ensures LinksOk(v.blobs - {sha}, Detached(v.references, sha))
    ensures RetentionOk(v.blobs - {sha}, Detached(v.references, sha))
    ensures forall id :: id in v.references ==> Detached(v.references, sha)[id].blob != Some(sha)
  {
    forall id | id in v.references
      ensures Detached(v.references, sha)[id].blob != Some(sha)
      ensures BoundOk(v.blobs - {sha}, Detached(v.references, sha)[id])
      ensures RetainedOk(v.blobs - {sha}, Detached(v.references, sha)[id])
    {
      assert BoundOk(v.blobs, v.references[id]) && RetainedOk(v.blobs, v.references[id]);
    }
  }

  lemma RemainingUploads(v: Vault, sha: Digest, now: Time)
    requires UploadsOk(v.blobs, v.references, v.uploads, v.nextUpload, now) && !HasActiveUpload(v, sha, now)
    ensures UploadsOk(v.blobs - {sha}, Detached(v.references, sha), WithoutUploadsOf(v.uploads, sha), v.nextUpload, now)
  {
    forall id | id in WithoutUploadsOf(v.uploads, sha)
      ensures id < v.nextUpload && UploadOk(v.blobs - {sha}, Detached(v.references, sha), v.uploads[id], now)
    {
      assert UploadOk(v.blobs, v.references, v.uploads[id], now);
    }
    hide UploadOk;
  }

  lemma RemainingChunks(v: Vault, sha: Digest)
    requires ChunksOk(v.uploads, v.chunks)
    ensures ChunksOk(DropBlob(v, sha).uploads, DropBlob(v, sha).chunks)
  {
    hide ChunkOk, Accounted;
    var uploads := WithoutUploadsOf(v.uploads, sha);
    var chunks := DropBlob(v, sha).chunks;
    assert forall id :: id in chunks ==> id in uploads && chunks[id] == v.chunks[id];
    assert forall id :: id in uploads && id in v.chunks ==> id in chunks;
  }

  lemma CollectKeeps(v: Vault, sha: Digest, now: Time)
    requires TablesOk(v, now)
    ensures TablesOk(CollectBlob(v, sha, now), now)
  {
    if sha in v.blobs && !Needed(v, sha, now) {
      hide CountsOk, LinksOk, RetentionOk, UploadsOk, ChunksOk;
      hide HasLiveReference, HasRetainedReference, HasActiveUpload, Detached, WithoutUploadsOf;
      DetachedCounts(v, sha);
      DetachedLinks(v, sha);
      RemainingUploads(v, sha, now);
      RemainingChunks(v, sha);
    }
  }

  lemma {:induction false} CollectAllKeeps(v: Vault, shas: seq<Digest>, now: Time)
    requires TablesOk(v, now)
    ensures TablesOk(CollectBlobs(v, shas, now), now)
  {
    hide TablesOk, CollectBlob;
    if shas != [] {
      CollectAllKeeps(v, shas[..|shas|-1], now);
      CollectKeeps(CollectBlobs(v, shas[..|shas|-1], now), shas[|shas|-1], now);
    }
  }

  // ---------------------------------------------------------------- exactly what is collected

  /** References and uploads that keep something needed are still there, and no new ones are. */
  ghost predicate KeepsNeeds(v: Vault, after: Vault, now: Time) {
    && v.references.Keys == after.references.Keys
    && (forall id :: id in v.references ==>
          || after.references[id] == v.references[id]
          || (after.references[id] == v.references[id].(blob := None) && v.references[id].tombstone
              && !(v.references[id].retentionUntil.Some? && v.references[id].retentionUntil.value > now)))
    && (forall id :: id in after.uploads ==> id in v.uploads && Alike(v.uploads[id], after.uploads[id]))
    && (forall id :: id in v.uploads && v.uploads[id].expiresAt > now ==> id in after.uploads)
  }

  ghost predicate Alike(a: Upload, b: Upload) {
    a.blob == b.blob && a.request == b.request && a.expiresAt == b.expiresAt
  }

  lemma KeepsNeedsTransitive(a: Vault, b: Vault, c: Vault, now: Time)
    requires KeepsNeeds(a, b, now) && KeepsNeeds(b, c, now)
    ensures KeepsNeeds(a, c, now)
  {}

  lemma SameLive(v: Vault, after: Vault, sha: Digest, now: Time)
    requires KeepsNeeds(v, after, now)
    ensures HasLiveReference(v, sha) <==> HasLiveReference(after, sha)
  {
    hide Alike;
    if HasLiveReference(v, sha) {
      var id :| id in v.references && v.references[id].blob == Some(sha) && !v.references[id].tombstone;
      assert after.references[id] == v.references[id];
    }
  }

  lemma SameRetained(v: Vault, after: Vault, sha: Digest, now: Time)
    requires KeepsNeeds(v, after, now)
    ensures HasRetainedReference(v, sha, now) <==> HasRetainedReference(after, sha, now)
  {
    hide Alike;
    if HasRetainedReference(v, sha, now) {
      var id :| id in v.references && v.references[id].blob == Some(sha)
        && v.references[id].retentionUntil.Some? && v.references[id].retentionUntil.value > now;
      assert after.references[id] == v.references[id];
    }
  }

  lemma SameActive(v: Vault, after: Vault, sha: Digest, now: Time)
    requires KeepsNeeds(v, after, now)
    ensures HasActiveUpload(v, sha, now) <==> HasActiveUpload(after, sha, now)
  {
    if HasActiveUpload(v, sha, now) {
      var id :| id in v.uploads && (v.uploads[id].blob == Some(sha) || v.uploads[id].request.sha == sha)
        && v.uploads[id].expiresAt > now;
      assert id in after.uploads;
    }
    if HasActiveUpload(after, sha, now) {
      var id :| id in after.uploads && (after.uploads[id].blob == Some(sha) || after.uploads[id].request.sha == sha)
        && after.uploads[id].expiresAt > now;
      assert id in v.uploads;
    }
  }

  lemma SameNeeds(v: Vault, after: Vault, sha: Digest, now: Time)
    requires KeepsNeeds(v, after, now)
    ensures Needed(v, sha, now) <==> Needed(after, sha, now)
  {
    hide KeepsNeeds, HasLiveReference, HasRetainedReference, HasActiveUpload;
    SameLive(v, after, sha, now);
    SameRetained(v, after, sha, now);
    SameActive(v, after, sha, now);
  }

  lemma CollectKeepsNeeds(v: Vault, sha: Digest, now: Time)
    ensures KeepsNeeds(v, CollectBlob(v, sha, now), now)
  {
    var after := CollectBlob(v, sha, now);
    if sha in v.blobs && !Needed(v, sha, now) {
      forall id | id in v.uploads && v.uploads[id].expiresAt > now ensures id in after.uploads {
        assert !HasActiveUpload(v, sha, now);
      }
      forall id | id in v.references && v.references[id].blob == Some(sha) && v.references[id].tombstone
        ensures !(v.references[id].retentionUntil.Some? && v.references[id].retentionUntil.value > now)
      {
        assert !HasRetainedReference(v, sha, now);
      }
    }
  }

  /** A batch of blobs loses exactly the rows that nothing needed before it started. */
  lemma {:induction false} CollectsExactly(v: Vault, shas: seq<Digest>, now: Time)
    ensures var after := CollectBlobs(v, shas, now);
            && KeepsNeeds(v, after, now)
            && (forall sha :: sha in after.blobs <==> sha in v.blobs && !(sha in shas && !Needed(v, sha, now)))
            && (forall sha :: sha in after.blobs ==> after.blobs[sha] == v.blobs[sha])
            && after.files == v.files && after.nextUpload == v.nextUpload
  {
    hide KeepsNeeds, Needed, CollectBlob;
    if shas == [] {
      NothingCollected(v, now);
    } else {
      var n := |shas| - 1;
      var mid := CollectBlobs(v, shas[..n], now);
      CollectsExactly(v, shas[..n], now);
      CollectKeepsNeeds(mid, shas[n], now);
      KeepsNeedsTransitive(v, mid, CollectBlob(mid, shas[n], now), now);
      SameNeeds(v, mid, shas[n], now);
      CollectOne(mid, shas[n], now);
      assert shas == shas[..n] + [shas[n]];
    }
  }

  lemma NothingCollected(v: Vault, now: Time)
    ensures KeepsNeeds(v, v, now)
  {}

  lemma CollectOne(v: Vault, sha: Digest, now: Time)
    ensures var after := CollectBlob(v, sha, now);
            && after.blobs == (if sha in v.blobs && !Needed(v, sha, now) then v.blobs - {sha} else v.blobs)
            && after.files == v.files && after.nextUpload == v.nextUpload
  {
    hide Needed;
  }

  lemma ExpiryKeepsNeeds(v: Vault, ids: seq<nat>, now: Time)
    requires forall i :: 0 <= i < |ids| ==> Overdue(v, ids[i], now)
    ensures KeepsNeeds(v, ExpireUploads(v, ids, now), now)
  {
    ExpiryHolds(v, ids, now);
    hide ExpireUploads;
    var after := ExpireUploads(v, ids, now);
    forall id | id in v.uploads && v.uploads[id].expiresAt > now ensures id in after.uploads {
      assert id !in ids;
    }
  }

  /** A run removes exactly the selected blobs that no live reference, no reference within its retention and
      no unexpired upload of the hash needs; every other blob row is left as it was. */
  lemma MaintenanceRemovesExactly(v: Vault, ids: seq<nat>, shas: seq<Digest>, undeletable: set<FileKey>,
                                  batchSize: nat, now: Time)
    requires Selected(v, ids, shas, batchSize, now)
    ensures var after := Maintain(v, ids, shas, undeletable, now);
            && (forall sha :: sha in after.blobs <==> sha in v.blobs && !(sha in shas && !Needed(v, sha, now)))
            && (forall sha :: sha in after.blobs ==> after.blobs[sha] == v.blobs[sha])
            && KeepsNeeds(v, after, now)
  {
    hide KeepsNeeds, Needed;
    ExpiryKeepsNeeds(v, ids, now);
    ExpiryHolds(v, ids, now);
    var expired := ExpireUploads(v, ids, now);
    CollectsExactly(expired, shas, now);
    var collected := CollectBlobs(expired, shas, now);
    KeepsNeedsTransitive(v, expired, collected, now);
    forall sha ensures Needed(v, sha, now) <==> Needed(expired, sha, now) { SameNeeds(v, expired, sha, now); }
    hide ExpireUploads, CollectBlobs, ExpiredFiles, BlobFiles;
    OnlyFiles(v, collected, Maintain(v, ids, shas, undeletable, now), now);
  }

  lemma OnlyFiles(v: Vault, a: Vault, b: Vault, now: Time)
    requires KeepsNeeds(v, a, now) && b == a.(files := b.files)
    ensures KeepsNeeds(v, b, now)
  {}

  /** A live or retained reference, and the blob it is bound to, survive every run unchanged. */
  lemma MaintenanceSpares(v: Vault, ids: seq<nat>, shas: seq<Digest>, undeletable: set<FileKey>, batchSize: nat,
                          now: Time, id: nat)
    requires Selected(v, ids, shas, batchSize, now) && TablesOk(v, now)
    requires id in v.references && v.references[id].blob.Some?
    requires !v.references[id].tombstone || v.references[id].retentionUntil.value > now
    ensures var after := Maintain(v, ids, shas, undeletable, now);
            var sha := v.references[id].blob.value;
            && id in after.references && after.references[id] == v.references[id]
            && sha in v.blobs && sha in after.blobs && after.blobs[sha] == v.blobs[sha]
  {
    var sha := v.references[id].blob.value;
    assert BoundOk(v.blobs, v.references[id]) && RetainedOk(v.blobs, v.references[id]);
    assert Needed(v, sha, now);
    hide TablesOk, Maintain, Selected, Needed;
    MaintenanceRemovesExactly(v, ids, shas, undeletable, batchSize, now);
  }

  lemma MaintainKeeps(v: Vault, ids: seq<nat>, shas: seq<Digest>, undeletable: set<FileKey>, batchSize: nat, now: Time)
    requires TablesOk(v, now) && Selected(v, ids, shas, batchSize, now)
    ensures TablesOk(Maintain(v, ids, shas, undeletable, now), now)
  {
    hide TablesOk;
    ExpireAllKeeps(v, ids, now);
    CollectAllKeeps(ExpireUploads(v, ids, now), shas, now);
    var collected := CollectBlobs(ExpireUploads(v, ids, now), shas, now);
    FilesDoNotMatter(collected, Maintain(v, ids, shas, undeletable, now).files, now);
  }
}
