/** Uploading, referencing and collecting attachment bytes, for one owner.

    - Blob rows are keyed by their content hash and reference rows by the attachment entity they describe;
      both columns are unique. Whether a reference is available is whether it is bound to a blob.
    - A content hash is an injective function of the bytes; `Foreign` stands for a hash of no bytes.
    - Each call sees one time `now`. */
module AttachmentVault {
  import opened AttachmentChunks
  import opened Wrappers

  const RETENTION := 30 * 24 * 3600
  const GRACE := 7 * 24 * 3600
  const UPLOAD_TTL := 24 * 3600
  const MAX_CHUNK := 8 * 1024 * 1024

  type Time = int

  datatype Digest = Sha(content: Bytes) | Foreign(text: string)

  datatype FileKey = BlobFile(sha: Digest) | ChunkFile(upload: nat, ordinal: nat)

  datatype BlobStatus = Pending | Available | Quarantined

  datatype Blob = Blob(byteSize: nat, status: BlobStatus, referenceCount: int, gcEligibleAt: Option<Time>,
                       createdAt: Time)

  datatype Reference = Reference(
    target: nat, sha: Digest, byteSize: nat, name: string, blob: Option<Digest>, tombstone: bool,
    retentionUntil: Option<Time>)

  datatype Request = Request(
    key: string, attachment: nat, target: nat, sha: Digest, byteSize: nat, chunkSize: nat, name: string)

  datatype UploadStatus = Initiated | Uploading | Completed | Expired

  datatype Upload = Upload(
    device: string, request: Request, totalChunks: nat, uploadedBytes: int, status: UploadStatus,
    blob: Option<Digest>, expiresAt: Time)

  datatype Chunk = Chunk(offset: nat, byteSize: nat, sha: Digest)

  datatype Vault = Vault(
    blobs: map<Digest, Blob>, references: map<nat, Reference>, uploads: map<nat, Upload>,
    chunks: map<nat, map<nat, Chunk>>, files: map<FileKey, Bytes>, nextUpload: nat)

  datatype Error = IdempotencyMismatch | UploadExpired | EntityNotFound | Conflict | HashMismatch | ChunkTooLarge
                 | ChunkMismatch | UploadIncomplete | ConstraintViolated | FileLost

  type Reply<T> = Result<T, Error>

  datatype Outcome<+T> = Outcome(vault: Vault, reply: Result<T, Error>)

  /** What a device is told about an upload. */
  datatype Status = Status(upload: nat, attachment: nat, deduplicated: bool, completed: bool, uploadedBytes: int,
                           missing: seq<nat>)

  const EMPTY_VAULT := Vault(map[], map[], map[], map[], map[], 0)

  /** What the request schema admits. */
  predicate ValidRequest(req: Request) {
    0 < req.byteSize <= 100 * 1024 * 1024 && 256 * 1024 <= req.chunkSize <= MAX_CHUNK
  }

  // ---------------------------------------------------------------- stored files

  function Verify(files: map<FileKey, Bytes>, key: FileKey, sha: Digest, byteSize: nat): bool {
    key in files && |files[key]| == byteSize && Sha(files[key]) == sha
  }

  function Parts(files: map<FileKey, Bytes>, upload: nat, n: nat): map<nat, Bytes> {
    map k: nat | k < n && ChunkFile(upload, k) in files :: files[ChunkFile(upload, k)]
  }

  /** The final file for a hash: one that is there already and verifies, or the chunks put together. */
  function Assembled(files: map<FileKey, Bytes>, upload: nat, total: nat, sha: Digest, byteSize: nat): Reply<Bytes> {
    if Verify(files, BlobFile(sha), sha, byteSize) then Ok(files[BlobFile(sha)])
    else if exists k: nat :: k < total && ChunkFile(upload, k) !in files then Fail(FileLost)
    else
      var bytes := Concatenated(Parts(files, upload, total), total);
      if |bytes| == byteSize && Sha(bytes) == sha then Ok(bytes) else Fail(HashMismatch)
  }

  // ---------------------------------------------------------------- the row triggers

  predicate IsLive(r: Reference) {
    r.blob.Some? && !r.tombstone
  }

  function Later(at: Option<Time>, bound: Time): Option<Time> {
    if at.Some? && at.value > bound then at else Some(bound)
  }

  function RetentionBound(before: Reference, after: Reference, now: Time): Time {
    if after.retentionUntil.Some? then after.retentionUntil.value
    else if before.retentionUntil.Some? then before.retentionUntil.value
    else now + RETENTION
  }

  /** The trigger behind an update of a reference: counts move with live bindings; it raises on an underflow
      and on a blob that is not there. */
  function Counted(blobs: map<Digest, Blob>, before: Reference, after: Reference,
                   now: Time): Option<map<Digest, Blob>> {
    var leaves := IsLive(before) && (!IsLive(after) || after.blob != before.blob);
    var arrives := IsLive(after) && (!IsLive(before) || after.blob != before.blob);
    var lowered :=
      if !leaves then Some(blobs)
      else
        var sha := before.blob.value;
        if sha in blobs && blobs[sha].referenceCount > 0 then
          var b := blobs[sha];
          Some(blobs[sha := b.(referenceCount := b.referenceCount - 1,
                               gcEligibleAt := Later(b.gcEligibleAt, RetentionBound(before, after, now)))])
        else None;
    if lowered.None? || !arrives then lowered
    else
      var sha := after.blob.value;
      if sha in lowered.value then
        var b := lowered.value[sha];
        Some(lowered.value[sha := b.(referenceCount := b.referenceCount + 1)])
      else None
  }

  /** The trigger before a binding: only verified bytes of the promised hash and size. */
  predicate MayBind(blobs: map<Digest, Blob>, r: Reference, sha: Digest) {
    sha in blobs && blobs[sha].status == Available && sha == r.sha && blobs[sha].byteSize == r.byteSize
  }

  function WithReference(v: Vault, id: nat, r: Reference, now: Time): Option<Vault>
    requires id in v.references
  {
    match Counted(v.blobs, v.references[id], r, now)
    case None => None
    case Some(blobs) => Some(v.(blobs := blobs, references := v.references[id := r]))
  }

  function Bind(v: Vault, id: nat, sha: Digest, now: Time): Option<Vault>
    requires id in v.references
  {
    var r := v.references[id];
    if !MayBind(v.blobs, r, sha) then None else WithReference(v, id, r.(blob := Some(sha)), now)
  }

  // ---------------------------------------------------------------- the reference lifecycle

  datatype Lifecycle = Deleted | Restored | Other

  /** What deleting or restoring the attachment entity does to its reference. */
  function ApplyLifecycle(v: Vault, attachment: nat, kind: Lifecycle, now: Time): Option<Vault> {
    if attachment !in v.references then Some(v)
    else
      var r := v.references[attachment];
      if kind == Deleted && !r.tombstone then
        WithReference(v, attachment, r.(tombstone := true, retentionUntil := Some(now + RETENTION)), now)
      else if kind == Restored && r.tombstone then
        WithReference(v, attachment, r.(tombstone := false, retentionUntil := None), now)
      else Some(v)
  }

  // ---------------------------------------------------------------- starting an upload

  function ChunksOf(v: Vault, id: nat): map<nat, Chunk> {
    if id in v.chunks then v.chunks[id] else map[]
  }

  function MissingChunks(v: Vault, id: nat): seq<nat>
    requires id in v.uploads
  {
    MissingBelow(ChunksOf(v, id).Keys, v.uploads[id].totalChunks)
  }

  function StatusOf(v: Vault, id: nat): Status
    requires id in v.uploads
  {
    var u, missing := v.uploads[id], MissingChunks(v, id);
    Status(id, u.request.attachment, u.status == Completed && |missing| == u.totalChunks, u.status == Completed,
           u.uploadedBytes, missing)
  }

  /** The upload a device started under an idempotency key, looked for among the first n. */
  function FindUpload(v: Vault, device: string, key: string, n: nat): (id: Option<nat>)
    ensures id.Some? ==> id.value < n && id.value in v.uploads
    ensures id.Some? ==> v.uploads[id.value].device == device && v.uploads[id.value].request.key == key
  {
    if n == 0 then None
    else
      var earlier := FindUpload(v, device, key, n - 1);
      if earlier.Some? then earlier
      else if n - 1 in v.uploads && v.uploads[n - 1].device == device && v.uploads[n - 1].request.key == key
          then Some(n - 1)
      else None
  }

  predicate SameMetadata(r: Reference, req: Request) {
    r.target == req.target && r.sha == req.sha && r.byteSize == req.byteSize && r.name == req.name
  }

  function EnsureReference(v: Vault, req: Request): Vault {
    if req.attachment in v.references then v
    else
      var r := Reference(req.target, req.sha, req.byteSize, req.name, None, false, None);
      v.(references := v.references[req.attachment := r])
  }

  function EnsureBlob(v: Vault, req: Request, now: Time): Vault {
    if req.sha in v.blobs then v
    else v.(blobs := v.blobs[req.sha := Blob(req.byteSize, Pending, 0, None, now)])
  }

  function WithStatus(v: Vault, sha: Digest, status: BlobStatus): Vault
    requires sha in v.blobs
  {
    v.(blobs := v.blobs[sha := v.blobs[sha].(status := status)])
  }

  function NewUpload(device: string, req: Request, deduplicated: bool, now: Time): Upload
    requires req.chunkSize > 0
  {
    Upload(device, req, TotalChunks(req.byteSize, req.chunkSize),
           if deduplicated then req.byteSize else 0,
           if deduplicated then Completed else Initiated,
           if deduplicated then Some(req.sha) else None,
           now + UPLOAD_TTL)
  }

  function WithUpload(v: Vault, u: Upload): Vault {
    v.(uploads := v.uploads[v.nextUpload := u], nextUpload := v.nextUpload + 1)
  }

  /** Start an upload, or report the one the key already names. `found` says whether the attachment and its
      target are live entities. */
  function Initiate(v: Vault, device: string, req: Request, found: bool, now: Time): Outcome<Status>
    requires ValidRequest(req)
  {
    var existing := FindUpload(v, device, req.key, v.nextUpload);
    if existing.Some? then
      var u := v.uploads[existing.value];
      if u.request != req then Outcome(v, Fail(IdempotencyMismatch))
      else if u.status != Completed && u.expiresAt <= now then Outcome(v, Fail(UploadExpired))
      else Outcome(v, Ok(StatusOf(v, existing.value)))
    else if !found then Outcome(v, Fail(EntityNotFound))
    else
      var v1 := EnsureReference(v, req);
      var r := v1.references[req.attachment];
      if r.tombstone || !SameMetadata(r, req) then Outcome(v, Fail(Conflict))
      else
        var v2 := EnsureBlob(v1, req, now);
        var blob := v2.blobs[req.sha];
        if blob.byteSize != req.byteSize then Outcome(v, Fail(HashMismatch))
        else StartUpload(v, v2, device, req, now)
  }

  /** The rest of starting an upload, once its reference and blob rows are there. */
  function StartUpload(before: Vault, v: Vault, device: string, req: Request, now: Time): Outcome<Status>
    requires ValidRequest(req) && req.sha in v.blobs && req.attachment in v.references
  {
    var blob := v.blobs[req.sha];
    var deduplicated := blob.status == Available && Verify(v.files, BlobFile(req.sha), req.sha, blob.byteSize);
    var checked := if blob.status == Available && !deduplicated then WithStatus(v, req.sha, Quarantined) else v;
    var started := WithUpload(checked, NewUpload(device, req, deduplicated, now));
    if !deduplicated then Outcome(started, Ok(StatusOf(started, v.nextUpload)))
    else
      match Bind(started, req.attachment, req.sha, now)
      case None => Outcome(before, Fail(ConstraintViolated))
      case Some(bound) => Outcome(bound, Ok(StatusOf(bound, v.nextUpload)))
  }

  // ---------------------------------------------------------------- receiving a chunk

  predicate ChunkFits(u: Upload, ordinal: int, data: Bytes) {
    0 <= ordinal < u.totalChunks && |data| == ExpectedSize(u.request.byteSize, u.request.chunkSize, ordinal)
  }

  function WithChunk(v: Vault, id: nat, ordinal: nat, data: Bytes): Vault
    requires id in v.uploads
  {
    var u := v.uploads[id];
    var chunk := Chunk(Offset(u.request.chunkSize, ordinal), |data|, Sha(data));
    v.(chunks := v.chunks[id := ChunksOf(v, id)[ordinal := chunk]],
       uploads := v.uploads[id := u.(uploadedBytes := u.uploadedBytes + |data|, status := Uploading)],
       files := v.files[ChunkFile(id, ordinal) := data])
  }

  datatype Receipt = Receipt(duplicate: bool, uploadedBytes: int, missing: seq<nat>)

  function ReceiveChunk(v: Vault, id: nat, device: string, ordinal: int, data: Bytes, declared: Digest,
                        now: Time): Outcome<Receipt> {
    if |data| > MAX_CHUNK then Outcome(v, Fail(ChunkTooLarge))
    else if Sha(data) != declared then Outcome(v, Fail(ChunkMismatch))
    else if id !in v.uploads || v.uploads[id].device != device then Outcome(v, Fail(EntityNotFound))
    else
      var u := v.uploads[id];
      if u.status != Completed && u.expiresAt <= now then Outcome(v, Fail(UploadExpired))
      else if !ChunkFits(u, ordinal, data) then Outcome(v, Fail(ChunkMismatch))
      else if ordinal in ChunksOf(v, id) then
        if ChunksOf(v, id)[ordinal] == Chunk(Offset(u.request.chunkSize, ordinal), |data|, declared) then
          Outcome(v, Ok(Receipt(true, u.uploadedBytes, MissingChunks(v, id))))
        else Outcome(v, Fail(ChunkMismatch))
      else if u.status == Completed then Outcome(v, Fail(ChunkMismatch))
      else if ChunkFile(id, ordinal) in v.files && v.files[ChunkFile(id, ordinal)] != data
          then Outcome(v, Fail(ChunkMismatch))
      else
        var stored := WithChunk(v, id, ordinal, data);
        Outcome(stored, Ok(Receipt(false, stored.uploads[id].uploadedBytes, MissingChunks(stored, id))))
  }

  // ---------------------------------------------------------------- completing an upload

  function WithFile(v: Vault, sha: Digest, bytes: Bytes): Vault {
    v.(files := v.files[BlobFile(sha) := bytes])
  }

  function WithCompleted(v: Vault, id: nat): Vault
    requires id in v.uploads
  {
    v.(uploads := v.uploads[id := v.uploads[id].(status := Completed, blob := Some(v.uploads[id].request.sha))])
  }

  /** Put the chunks together, mark the blob available and bind the reference. A failure after the final file
      was written leaves the file behind. */
  function Complete(v: Vault, id: nat, device: string, now: Time): Outcome<Status> {
    if id !in v.uploads || v.uploads[id].device != device then Outcome(v, Fail(EntityNotFound))
    else
      var u := v.uploads[id];
      if u.status == Completed then Outcome(v, Ok(StatusOf(v, id)))
      else if u.expiresAt <= now then Outcome(v, Fail(UploadExpired))
      else if MissingChunks(v, id) != [] || u.uploadedBytes != u.request.byteSize
          then Outcome(v, Fail(UploadIncomplete))
      else
        match Assembled(v.files, id, u.totalChunks, u.request.sha, u.request.byteSize)
        case Fail(error) => Outcome(v, Fail(error))
        case Ok(bytes) => Publish(WithFile(v, u.request.sha, bytes), id, now)
  }

  /** The rest of completing an upload, once its bytes are in place. */
  function Publish(v: Vault, id: nat, now: Time): Outcome<Status>
    requires id in v.uploads
  {
    var req := v.uploads[id].request;
    if req.sha !in v.blobs || v.blobs[req.sha].byteSize != req.byteSize then Outcome(v, Fail(HashMismatch))
    else
      var available := WithStatus(v, req.sha, Available);
      if req.attachment !in v.references || v.references[req.attachment].tombstone then Outcome(v, Fail(Conflict))
      else
        match Bind(available, req.attachment, req.sha, now)
        case None => Outcome(v, Fail(ConstraintViolated))
        case Some(bound) =>
          var done := WithCompleted(bound, id);
          Outcome(done, Ok(StatusOf(done, id)))
  }

  // ---------------------------------------------------------------- reading

  /** The bytes behind a live reference; bytes that do not verify put their blob into quarantine. */
  function Download(v: Vault, attachment: nat): Outcome<Bytes> {
    if attachment !in v.references || !IsLive(v.references[attachment]) then Outcome(v, Fail(EntityNotFound))
    else
      var sha := v.references[attachment].blob.value;
      if sha !in v.blobs || v.blobs[sha].status != Available then Outcome(v, Fail(EntityNotFound))
      else if Verify(v.files, BlobFile(sha), sha, v.blobs[sha].byteSize) then Outcome(v, Ok(v.files[BlobFile(sha)]))
      else Outcome(WithStatus(v, sha, Quarantined), Fail(HashMismatch))
  }

  // ---------------------------------------------------------------- maintenance

  /** An upload the first query of a run may select. */
  predicate Overdue(v: Vault, id: nat, now: Time) {
    id in v.uploads && v.uploads[id].status != Completed && v.uploads[id].expiresAt <= now
  }

  function ChunkKeys(v: Vault, id: nat): set<FileKey> {
    set k | k in ChunksOf(v, id) :: ChunkFile(id, k)
  }

  function DropUpload(v: Vault, id: nat): Vault {
    v.(uploads := v.uploads - {id}, chunks := v.chunks - {id})
  }

  /** Mark an overdue upload as expired; after the grace period drop it with its chunks. */
  function ExpireUpload(v: Vault, id: nat, now: Time): Vault {
    if id !in v.uploads then v
    else
      var marked := v.(uploads := v.uploads[id := v.uploads[id].(status := Expired)]);
      if v.uploads[id].expiresAt > now - GRACE then marked else DropUpload(marked, id)
  }

  function ExpireUploads(v: Vault, ids: seq<nat>, now: Time): Vault {
    if ids == [] then v else ExpireUpload(ExpireUploads(v, ids[..|ids|-1], now), ids[|ids|-1], now)
  }

  /** The chunk files of the uploads that are dropped. */
  function ExpiredFiles(v: Vault, ids: seq<nat>, now: Time): set<FileKey> {
    if ids == [] then {}
    else
      var id := ids[|ids|-1];
      var earlier := ExpiredFiles(v, ids[..|ids|-1], now);
      if id in v.uploads && v.uploads[id].expiresAt <= now - GRACE then earlier + ChunkKeys(v, id) else earlier
  }

  /** A blob the second query of a run may select. */
  predicate Collectable(v: Vault, sha: Digest, now: Time) {
    && sha in v.blobs && v.blobs[sha].referenceCount == 0
    && var b := v.blobs[sha];
       || (b.gcEligibleAt.Some? && b.gcEligibleAt.value <= now)
       || (b.status != Available && b.createdAt <= now - GRACE)
  }

  predicate HasLiveReference(v: Vault, sha: Digest) {
    exists id :: id in v.references && v.references[id].blob == Some(sha) && !v.references[id].tombstone
  }

  predicate HasRetainedReference(v: Vault, sha: Digest, now: Time) {
    exists id :: id in v.references && v.references[id].blob == Some(sha)
      && v.references[id].retentionUntil.Some? && v.references[id].retentionUntil.value > now
  }

  predicate HasActiveUpload(v: Vault, sha: Digest, now: Time) {
    exists id :: id in v.uploads && (v.uploads[id].blob == Some(sha) || v.uploads[id].request.sha == sha)
      && v.uploads[id].expiresAt > now
  }

  predicate Needed(v: Vault, sha: Digest, now: Time) {
    HasLiveReference(v, sha) || HasRetainedReference(v, sha, now) || HasActiveUpload(v, sha, now)
  }

  function Detached(references: map<nat, Reference>, sha: Digest): map<nat, Reference> {
    map id | id in references ::
      if references[id].blob == Some(sha) && references[id].tombstone
          then references[id].(blob := None) else references[id]
  }

  function WithoutUploadsOf(uploads: map<nat, Upload>, sha: Digest): map<nat, Upload> {
    map id | id in uploads && uploads[id].blob != Some(sha) :: uploads[id]
  }

  /** Remove a blob row with the uploads that completed into it, and detach its deleted references. */
  function DropBlob(v: Vault, sha: Digest): Vault {
    var uploads := WithoutUploadsOf(v.uploads, sha);
    v.(uploads := uploads,
       chunks := map id | id in v.chunks && (id in uploads || id !in v.uploads) :: v.chunks[id],
       references := Detached(v.references, sha),
       blobs := v.blobs - {sha})
  }

  function CollectBlob(v: Vault, sha: Digest, now: Time): Vault {
    if sha !in v.blobs || Needed(v, sha, now) then v else DropBlob(v, sha)
  }

  function CollectBlobs(v: Vault, shas: seq<Digest>, now: Time): Vault {
    if shas == [] then v else CollectBlob(CollectBlobs(v, shas[..|shas|-1], now), shas[|shas|-1], now)
  }

  function BlobFiles(before: Vault, after: Vault): set<FileKey> {
    set sha | sha in before.blobs && sha !in after.blobs :: BlobFile(sha)
  }

  /** The rows a run works on: what its queries selected, at most a batch of each. */
  ghost predicate Selected(v: Vault, ids: seq<nat>, shas: seq<Digest>, batchSize: nat, now: Time) {
    && |ids| <= batchSize && |shas| <= batchSize && Distinct(ids) && Distinct(shas)
    && (forall i :: 0 <= i < |ids| ==> Overdue(v, ids[i], now))
    && forall i :: 0 <= i < |shas| ==> Collectable(ExpireUploads(v, ids, now), shas[i], now)
  }

  /** The selected uploads a run marks as expired. */
  function NewlyExpired(v: Vault, ids: seq<nat>): set<nat> {
    set id | id in ids && id in v.uploads && v.uploads[id].status != Expired
  }

  /** The selected uploads a run drops. */
  function PastGrace(v: Vault, ids: seq<nat>, now: Time): set<nat> {
    set id | id in ids && id in v.uploads && v.uploads[id].expiresAt <= now - GRACE
  }

  /** The files of the rows a run removes. */
  function RemovedKeys(v: Vault, ids: seq<nat>, shas: seq<Digest>, now: Time): set<FileKey> {
    var expired := ExpireUploads(v, ids, now);
    ExpiredFiles(v, ids, now) + BlobFiles(expired, CollectBlobs(expired, shas, now))
  }

  /** What a run reports. */
  datatype Report = Report(expiredMarked: nat, expiredDeleted: nat, blobsDeleted: nat, filesDeleted: nat,
                           fileFailures: nat)

  /** One maintenance run: expired uploads, then blobs nothing needs, then the files of both. Files in
      `undeletable` stay. */
  function Maintain(v: Vault, ids: seq<nat>, shas: seq<Digest>, undeletable: set<FileKey>, now: Time): Vault {
    var expired := ExpireUploads(v, ids, now);
    var collected := CollectBlobs(expired, shas, now);
    collected.(files := collected.files - (RemovedKeys(v, ids, shas, now) - undeletable))
  }
}
