/** One upload through a whole run: chunks in any order and sent again, whatever else goes on between. */
module AttachmentUploads {
  import opened AttachmentChunks
  import opened AttachmentFiles
  import opened AttachmentMaintenance
  import opened AttachmentProofs
  import opened AttachmentRuns
  import opened AttachmentVault
  import opened Wrappers

  // ---------------------------------------------------------------- what any event leaves of an upload

  ghost predicate SameTerms(a: Upload, b: Upload) {
    a.device == b.device && a.request == b.request && a.totalChunks == b.totalChunks && a.expiresAt == b.expiresAt
  }

  /** Uploads keep their terms; new ones take new numbers; one that has not expired stays. */
  ghost predicate KeepsTerms(v: Vault, after: Vault, now: Time) {
    && v.nextUpload <= after.nextUpload
    && (forall id :: id in after.uploads && id in v.uploads ==> SameTerms(v.uploads[id], after.uploads[id]))
    && (forall id :: id in after.uploads && id !in v.uploads ==> v.nextUpload <= id)
    && (forall id :: id in v.uploads && v.uploads[id].expiresAt > now ==> id in after.uploads)
  }

  /** The chunk rows of an upload, and whether it is complete, are the same before and after. */
  ghost predicate SameProgress(v: Vault, after: Vault, id: nat) {
    && ChunksOf(after, id) == ChunksOf(v, id)
    && (id in v.uploads && id in after.uploads ==>
          (after.uploads[id].status == Completed <==> v.uploads[id].status == Completed))
  }

  /** One new upload, on the terms of its request. */
  ghost predicate Opens(v: Vault, after: Vault, device: string, req: Request, now: Time) {
    && v.nextUpload in after.uploads && after.uploads == v.uploads[v.nextUpload := after.uploads[v.nextUpload]]
    && after.chunks == v.chunks && after.nextUpload == v.nextUpload + 1
    && var u := after.uploads[v.nextUpload]; u.device == device && u.request == req && u.expiresAt == now + UPLOAD_TTL
  }

  lemma StartOpens(before: Vault, v: Vault, device: string, req: Request, now: Time)
    requires ValidRequest(req) && req.sha in v.blobs && req.attachment in v.references
    ensures var outcome := StartUpload(before, v, device, req, now);
            if outcome.reply.Ok? then
              && Opens(v, outcome.vault, device, req, now) && outcome.reply.value.upload == v.nextUpload
              && (outcome.reply.value.completed <==> outcome.vault.uploads[v.nextUpload].status == Completed)
            else outcome.vault == before
  {
    hide Verify, MissingChunks, Counted, MayBind, TotalChunks;
  }

  lemma InitiateOpens(v: Vault, device: string, req: Request, found: bool, now: Time)
    requires ValidRequest(req)
    ensures var outcome := Initiate(v, device, req, found, now);
            && (outcome.vault == v || Opens(v, outcome.vault, device, req, now))
            && (outcome.reply.Ok? && FindUpload(v, device, req.key, v.nextUpload).None? ==>
                  && Opens(v, outcome.vault, device, req, now) && outcome.reply.value.upload == v.nextUpload
                  && (outcome.reply.value.completed <==> outcome.vault.uploads[v.nextUpload].status == Completed))
  {
    hide StartUpload, FindUpload, StatusOf, SameMetadata;
    StartOpens(v, EnsureBlob(EnsureReference(v, req), req, now), device, req, now);
  }

  lemma InitiateFollows(v: Vault, device: string, req: Request, found: bool, now: Time, id: nat)
    requires TablesOk(v, now) && ValidRequest(req)
    ensures var after := Initiate(v, device, req, found, now).vault;
            KeepsTerms(v, after, now) && (id in v.uploads ==> SameProgress(v, after, id))
  {
    FreshUpload(v, now);
    InitiateOpens(v, device, req, found, now);
    hide TablesOk, Initiate;
  }

  lemma ReceiveFollows(v: Vault, id: nat, device: string, ordinal: int, data: Bytes, declared: Digest, now: Time,
                       other: nat)
    ensures var after := ReceiveChunk(v, id, device, ordinal, data, declared, now).vault;
            KeepsTerms(v, after, now) && (other != id ==> SameProgress(v, after, other))
  {
    hide MissingChunks, ExpectedSize, Offset;
  }

  lemma CompleteFollows(v: Vault, id: nat, device: string, now: Time, other: nat)
    ensures var after := Complete(v, id, device, now).vault;
            && KeepsTerms(v, after, now) && ChunksOf(after, other) == ChunksOf(v, other)
            && (other in v.uploads && after.uploads[other].status == Completed ==>
                  v.uploads[other].status == Completed || MissingChunks(v, other) == [])
  {
    hide MissingChunks, Assembled, StatusOf, Counted;
  }

  lemma LifecycleFollows(v: Vault, attachment: nat, kind: Lifecycle, now: Time)
    requires ApplyLifecycle(v, attachment, kind, now).Some?
    ensures var after := ApplyLifecycle(v, attachment, kind, now).value;
            after.uploads == v.uploads && after.chunks == v.chunks && after.nextUpload == v.nextUpload
  {
    hide Counted;
  }

  lemma MaintainFollows(v: Vault, ids: seq<nat>, shas: seq<Digest>, undeletable: set<FileKey>, batchSize: nat,
                        now: Time, id: nat)
    requires Selected(v, ids, shas, batchSize, now)
    ensures var after := Maintain(v, ids, shas, undeletable, now);
            && KeepsTerms(v, after, now)
            && (id in v.uploads && v.uploads[id].expiresAt > now ==> SameProgress(v, after, id))
  {
    var expired := ExpireUploads(v, ids, now);
    MaintenanceRemovesExactly(v, ids, shas, undeletable, batchSize, now);
    ExpiryHolds(v, ids, now);
    CollectedChunks(expired, shas, now);
    CollectsExactly(expired, shas, now);
    hide ExpireUploads, CollectBlobs, ExpiredFiles, BlobFiles, Needed;
    assert id in v.uploads && v.uploads[id].expiresAt > now ==> id !in ids;
  }

  lemma StepFollows(v: Vault, e: Event, now: Time, id: nat)
    requires TablesOk(v, now) && Admitted(v, e, now)
    ensures KeepsTerms(v, Step(v, e, now), now)
    ensures id in v.uploads && v.uploads[id].expiresAt > now && !(e.Receiving? && e.upload == id) ==>
              var after := Step(v, e, now);
              && ChunksOf(after, id) == ChunksOf(v, id)
              && (after.uploads[id].status == Completed ==>
                   v.uploads[id].status == Completed || MissingChunks(v, id) == [])
  {
    hide TablesOk, Initiate, ReceiveChunk, Complete, ApplyLifecycle, Download, Maintain, ChunksOf, MissingChunks,
        SameTerms;
    match e
    case Starting(device, req, found) => InitiateFollows(v, device, req, found, now, id);
    case Receiving(upload, device, ordinal, data, declared) =>
      ReceiveFollows(v, upload, device, ordinal, data, declared, now, id);
    case Completing(upload, device) => CompleteFollows(v, upload, device, now, id);
    case Changing(attachment, kind) =>
      NothingMoves(v, v, now, id);
      if ApplyLifecycle(v, attachment, kind, now).Some? {
        LifecycleFollows(v, attachment, kind, now);
        NothingMoves(v, ApplyLifecycle(v, attachment, kind, now).value, now, id);
      }
    case Reading(attachment) =>
      ReadingMoves(v, attachment);
      NothingMoves(v, Download(v, attachment).vault, now, id);
    case Maintaining(ids, shas, undeletable, batchSize) =>
      MaintainFollows(v, ids, shas, undeletable, batchSize, now, id);
    case Damaging(files) => NothingMoves(v, v.(files := files), now, id);
  }

  lemma ReadingMoves(v: Vault, attachment: nat)
    ensures var after := Download(v, attachment).vault;
            after.uploads == v.uploads && after.chunks == v.chunks && after.nextUpload == v.nextUpload
  {
    hide Verify;
  }

  lemma NothingMoves(v: Vault, after: Vault, now: Time, id: nat)
    requires after.uploads == v.uploads && after.chunks == v.chunks && after.nextUpload == v.nextUpload
    ensures KeepsTerms(v, after, now) && SameProgress(v, after, id)
  {}

  // ---------------------------------------------------------------- starting again

  /** `id` is the only upload the device started under the key up to it. */
  ghost predicate Named(v: Vault, device: string, req: Request, id: nat, expiresAt: Time) {
    && id in v.uploads && id < v.nextUpload
    && v.uploads[id].device == device && v.uploads[id].request == req && v.uploads[id].expiresAt == expiresAt
    && forall x :: x in v.uploads && x < id ==> !(v.uploads[x].device == device && v.uploads[x].request.key == req.key)
  }

  lemma {:induction false} NotFoundBefore(v: Vault, device: string, key: string, n: nat)
    ensures FindUpload(v, device, key, n).None? <==>
              forall x :: x in v.uploads && x < n ==>
                  !(v.uploads[x].device == device && v.uploads[x].request.key == key)
  {
    if n > 0 { NotFoundBefore(v, device, key, n - 1); }
  }

  lemma {:induction false} NamedIsFound(v: Vault, device: string, req: Request, id: nat, expiresAt: Time, n: nat)
    requires Named(v, device, req, id, expiresAt) && id < n
    ensures FindUpload(v, device, req.key, n) == Some(id)
  {
    if n == id + 1 {
      NotFoundBefore(v, device, req.key, id);
    } else {
      NamedIsFound(v, device, req, id, expiresAt, n - 1);
    }
  }

  lemma {:induction false} StaysNamed(v: Vault, clock: Time, run: seq<Timed>, device: string, req: Request, id: nat,
                                      expiresAt: Time)
    requires TablesOk(v, clock) && Possible(v, clock, run) && After(v, clock, run).1 < expiresAt
    requires Named(v, device, req, id, expiresAt)
    ensures Named(After(v, clock, run).0, device, req, id, expiresAt)
    decreases |run|
  {
    hide TablesOk, Step;
    if run != [] {
      var next := Step(v, run[0].event, run[0].now);
      ClockAdvances(next, run[0].now, run[1..]);
      LaterKeeps(v, clock, run[0].now);
      StepKeepsTables(v, run[0].event, run[0].now);
      StepFollows(v, run[0].event, run[0].now, id);
      StaysNamed(next, run[0].now, run[1..], device, req, id, expiresAt);
    }
  }

  lemma {:induction false} ClockAdvances(v: Vault, clock: Time, run: seq<Timed>)
    requires Possible(v, clock, run)
    ensures clock <= After(v, clock, run).1
    decreases |run|
  {
    if run != [] { ClockAdvances(Step(v, run[0].event, run[0].now), run[0].now, run[1..]); }
  }

  /** Asking again before the upload expires, after whatever happened since, returns the same upload and changes
      nothing; asking for something else under the same key is refused and changes nothing. */
  lemma InitiateReplay(v: Vault, device: string, req: Request, now: Time, first: Outcome<Status>, run: seq<Timed>,
                       last: Vault, other: Request, found: bool, later: Time)
    requires TablesOk(v, now) && ValidRequest(req) && ValidRequest(other) && other.key == req.key
    requires FindUpload(v, device, req.key, v.nextUpload).None?
    requires first == Initiate(v, device, req, true, now) && first.reply.Ok?
    requires Possible(first.vault, now, run) && After(first.vault, now, run).0 == last
    requires After(first.vault, now, run).1 <= later < now + UPLOAD_TTL
    ensures var id := first.reply.value.upload;
            && id in last.uploads
            && Initiate(last, device, other, found, later)
               == Outcome(last, if other == req then Ok(StatusOf(last, id)) else Fail(IdempotencyMismatch))
  {
    InitiateOpens(v, device, req, true, now);
    InitiateKeeps(v, device, req, true, now);
    hide TablesOk, Initiate, StatusOf, FindUpload, Possible, After, Named, Opens, ValidRequest;
    StartIsNamed(v, first.vault, device, req, now);
    StaysNamed(first.vault, now, run, device, req, v.nextUpload, now + UPLOAD_TTL);
    NamedIsBelow(last, device, req, v.nextUpload, now + UPLOAD_TTL);
    NamedIsFound(last, device, req, v.nextUpload, now + UPLOAD_TTL, last.nextUpload);
    NamedAnswers(last, device, req, v.nextUpload, now + UPLOAD_TTL, other, found, later);
  }

  lemma NamedIsBelow(v: Vault, device: string, req: Request, id: nat, expiresAt: Time)
    requires Named(v, device, req, id, expiresAt)
    ensures id < v.nextUpload && id in v.uploads
  {}

  lemma NamedAnswers(v: Vault, device: string, req: Request, id: nat, expiresAt: Time, other: Request, found: bool,
                     now: Time)
    requires Named(v, device, req, id, expiresAt)
    requires FindUpload(v, device, req.key, v.nextUpload) == Some(id) && now < expiresAt
    requires ValidRequest(other) && other.key == req.key
    ensures Initiate(v, device, other, found, now)
         == Outcome(v, if other == req then Ok(StatusOf(v, id)) else Fail(IdempotencyMismatch))
  {
    hide StatusOf, FindUpload;
  }

  lemma StartIsNamed(v: Vault, after: Vault, device: string, req: Request, now: Time)
    requires TablesOk(v, now) && FindUpload(v, device, req.key, v.nextUpload).None? && Opens(v, after, device, req, now)
    ensures Named(after, device, req, v.nextUpload, now + UPLOAD_TTL)
  {
    NotFoundBefore(v, device, req.key, v.nextUpload);
    FreshUpload(v, now);
    hide TablesOk, FindUpload;
  }

  // ---------------------------------------------------------------- the order of arrival

  type Piecewise = set<(nat, Bytes)>  // ordinals with their bytes

  /** Nothing but chunks sent to one upload, by whatever device. */
  ghost predicate OnlyChunksOf(run: seq<Timed>, id: nat) {
    forall i :: 0 <= i < |run| ==> run[i].event.Receiving? && run[i].event.upload == id
  }

  /** A chunk that reached the service as its device sent it, and fits the upload. */
  ghost predicate Intact(u: Upload, e: Event, id: nat) {
    && e.Receiving? && e.upload == id && e.device == u.device && Sha(e.data) == e.declared
    && ChunkFits(u, e.ordinal, e.data)
  }

  ghost function AcceptedBy(v: Vault, e: Event, now: Time): Piecewise
    requires e.Receiving?
  {
    if e.ordinal >= 0 && ReceiveChunk(v, e.upload, e.device, e.ordinal, e.data, e.declared, now).reply.Ok?
        then {(e.ordinal, e.data)}
    else {}
  }

  /** The chunks the service answered with a receipt, stored or stored already. */
  ghost function Accepted(v: Vault, clock: Time, run: seq<Timed>, id: nat): Piecewise
    requires Possible(v, clock, run) && OnlyChunksOf(run, id)
    decreases |run|
  {
    if run == [] then {}
    else AcceptedBy(v, run[0].event, run[0].now) + Accepted(Step(v, run[0].event, run[0].now), run[0].now, run[1..], id)
  }

  /** What receiving the accepted chunks has made of the vault: their rows and files, the progress of the upload,
      and nothing else. */
  ghost predicate Received(v: Vault, after: Vault, id: nat, accepted: Piecewise) {
    && id in v.uploads && id in after.uploads
    && after == v.(uploads := v.uploads[id := after.uploads[id]], chunks := after.chunks, files := after.files)
    && (if ChunksOf(after, id) == ChunksOf(v, id) then after == v
        else
          && v.uploads[id].status != Completed
          && after.chunks == v.chunks[id := ChunksOf(after, id)]
          && after.uploads[id] == v.uploads[id].(status := Uploading, uploadedBytes := after.uploads[id].uploadedBytes))
    && RowsReceived(v.uploads[id].request.chunkSize, ChunksOf(v, id), ChunksOf(after, id), accepted)
    && (forall key :: key in v.files ==> key in after.files && after.files[key] == v.files[key])
    && (forall key :: key in after.files && key !in v.files ==>
          key.ChunkFile? && key.upload == id && key.ordinal in ChunksOf(after, id))
  }

  ghost predicate RowsReceived(chunkSize: nat, rows: map<nat, Chunk>, after: map<nat, Chunk>, accepted: Piecewise) {
    && (forall k :: k in rows ==> k in after && after[k] == rows[k])
    && (forall k, data :: (k, data) in accepted ==>
          k in after && after[k] == Chunk(Offset(chunkSize, k), |data|, Sha(data)))
    && (forall k :: k in after && k !in rows ==> exists data :: (k, data) in accepted)
  }

  lemma SameRowsReceived(chunkSize: nat, rows: map<nat, Chunk>, a: map<nat, Chunk>, b: map<nat, Chunk>,
                         accepted: Piecewise)
    requires RowsReceived(chunkSize, rows, a, accepted) && RowsReceived(chunkSize, rows, b, accepted)
    ensures a == b
  {
    hide Offset;
    forall k | k in a ensures k in b && b[k] == a[k] {
      if k !in rows { var data :| (k, data) in accepted; }
    }
    forall k | k in b ensures k in a {
      if k !in rows { var data :| (k, data) in accepted; }
    }
  }

  /** What a call does with a chunk: refuse it, find it there already, or store it. */
  lemma ReceiptShape(v: Vault, e: Event, now: Time)
    requires e.Receiving?
    ensures var after := Step(v, e, now);
            || (after == v && AcceptedBy(v, e, now) == {})
            || (e.ordinal >= 0 && e.upload in v.uploads && AcceptedBy(v, e, now) == {(e.ordinal, e.data)}
                && Intact(v.uploads[e.upload], e, e.upload)
                && var row := Chunk(Offset(v.uploads[e.upload].request.chunkSize, e.ordinal), |e.data|, Sha(e.data));
                   if e.ordinal in ChunksOf(v, e.upload) then after == v && ChunksOf(v, e.upload)[e.ordinal] == row
                   else
                     && after == WithChunk(v, e.upload, e.ordinal, e.data) && v.uploads[e.upload].status != Completed
                     && (ChunkFile(e.upload, e.ordinal) in v.files ==>
                          v.files[ChunkFile(e.upload, e.ordinal)] == e.data))
  {
    hide WithChunk, MissingChunks, ExpectedSize, Offset;
  }

  lemma ReceivedMore(v: Vault, mid: Vault, id: nat, accepted: Piecewise, e: Event, now: Time)
    requires Received(v, mid, id, accepted) && e.Receiving? && e.upload == id
    ensures Received(v, Step(mid, e, now), id, accepted + AcceptedBy(mid, e, now))
  {
    ReceiptShape(mid, e, now);
    hide Step, AcceptedBy, Intact;
    var after := Step(mid, e, now);
    if AcceptedBy(mid, e, now) == {} {
      assert accepted + {} == accepted;
    } else if e.ordinal in ChunksOf(mid, id) {
      FoundThere(v, mid, id, accepted, e.ordinal, e.data);
    } else {
      StoredNow(v, mid, id, accepted, e.ordinal, e.data);
    }
  }

  lemma FoundThere(v: Vault, mid: Vault, id: nat, accepted: Piecewise, ordinal: nat, data: Bytes)
    requires Received(v, mid, id, accepted) && ordinal in ChunksOf(mid, id)
    requires ChunksOf(mid, id)[ordinal] == Chunk(Offset(v.uploads[id].request.chunkSize, ordinal), |data|, Sha(data))
    ensures Received(v, mid, id, accepted + {(ordinal, data)})
  {
    hide Offset, ChunksOf;
    forall k | k in ChunksOf(mid, id) && k !in ChunksOf(v, id)
      ensures exists data' :: (k, data') in accepted + {(ordinal, data)}
    {
      var data' :| (k, data') in accepted;
      assert (k, data') in accepted + {(ordinal, data)};
    }
  }

  lemma StoredNow(v: Vault, mid: Vault, id: nat, accepted: Piecewise, ordinal: nat, data: Bytes)
    requires Received(v, mid, id, accepted) && ordinal !in ChunksOf(mid, id) && mid.uploads[id].status != Completed
    requires ChunkFile(id, ordinal) in mid.files ==> mid.files[ChunkFile(id, ordinal)] == data
    ensures Received(v, WithChunk(mid, id, ordinal, data), id, accepted + {(ordinal, data)})
  {
    var after := WithChunk(mid, id, ordinal, data);
    var chunkSize := v.uploads[id].request.chunkSize;
    var row := Chunk(Offset(chunkSize, ordinal), |data|, Sha(data));
    assert ChunksOf(after, id) == ChunksOf(mid, id)[ordinal := row];
    assert ChunksOf(after, id) != ChunksOf(v, id);
    OneMoreRow(chunkSize, ChunksOf(v, id), ChunksOf(mid, id), accepted, ordinal, data);
    hide Offset, RowsReceived;
    assert after.chunks == v.chunks[id := ChunksOf(after, id)];
    assert after.uploads == v.uploads[id := after.uploads[id]];
  }

  lemma OneMoreRow(chunkSize: nat, rows: map<nat, Chunk>, mid: map<nat, Chunk>, accepted: Piecewise, ordinal: nat,
                   data: Bytes)
    requires RowsReceived(chunkSize, rows, mid, accepted) && ordinal !in mid
    ensures RowsReceived(chunkSize, rows, mid[ordinal := Chunk(Offset(chunkSize, ordinal), |data|, Sha(data))],
                         accepted + {(ordinal, data)})
  {
    hide Offset;
    var more := accepted + {(ordinal, data)};
    assert (ordinal, data) in more;
    forall k | k in mid && k !in rows ensures exists data' :: (k, data') in more {
      var data' :| (k, data') in accepted;
      assert (k, data') in more;
    }
  }

  lemma {:induction false} RunReceives(v: Vault, mid: Vault, clock: Time, run: seq<Timed>, id: nat, accepted: Piecewise)
    requires Received(v, mid, id, accepted) && Possible(mid, clock, run) && OnlyChunksOf(run, id)
    ensures Received(v, After(mid, clock, run).0, id, accepted + Accepted(mid, clock, run, id))
    decreases |run|
  {
    hide Received, Step, AcceptedBy;
    if run == [] {
      assert accepted + {} == accepted;
    } else {
      var (e, now) := (run[0].event, run[0].now);
      var next, more := Step(mid, e, now), AcceptedBy(mid, e, now);
      ReceivedMore(v, mid, id, accepted, e, now);
      RunReceives(v, next, now, run[1..], id, accepted + more);
      assert accepted + more + Accepted(next, now, run[1..], id) == accepted + Accepted(mid, clock, run, id);
    }
  }

  /** Files, rows and progress are determined by which chunks were accepted. */
  lemma ReceivedIsDetermined(v: Vault, a: Vault, b: Vault, id: nat, accepted: Piecewise, now: Time, later: Time)
    requires Received(v, a, id, accepted) && Received(v, b, id, accepted)
    requires TablesOk(a, now) && FilesOk(a) && TablesOk(b, later) && FilesOk(b)
    ensures a == b
  {
    SameRowsReceived(v.uploads[id].request.chunkSize, ChunksOf(v, id), ChunksOf(a, id), ChunksOf(b, id), accepted);
    if ChunksOf(a, id) != ChunksOf(v, id) {
      SameBytesCounted(a, b, id, now, later);
      SameFiles(v, a, b, id, accepted);
      hide TablesOk, FilesOk, ChunksOf, RowsReceived;
    }
  }

  lemma SameBytesCounted(a: Vault, b: Vault, id: nat, now: Time, later: Time)
    requires TablesOk(a, now) && TablesOk(b, later) && id in a.uploads && id in b.uploads
    requires a.uploads[id].status == b.uploads[id].status == Uploading && a.uploads[id].request == b.uploads[id].request
    requires a.uploads[id].totalChunks == b.uploads[id].totalChunks && ChunksOf(a, id) == ChunksOf(b, id)
    ensures a.uploads[id].uploadedBytes == b.uploads[id].uploadedBytes
  {
    RowsOf(a, id);
    RowsOf(b, id);
    hide TablesOk, ChunkOk, StoredBytes, ChunksOf;
  }

  lemma SameFiles(v: Vault, a: Vault, b: Vault, id: nat, accepted: Piecewise)
    requires Received(v, a, id, accepted) && Received(v, b, id, accepted) && ChunksOf(a, id) == ChunksOf(b, id)
    requires FilesOk(a) && FilesOk(b)
    ensures a.files == b.files
  {
    forall key | key in a.files ensures key in b.files && b.files[key] == a.files[key] {
      SameFile(v, a, b, id, accepted, key);
    }
    forall key | key in b.files ensures key in a.files { SameFile(v, b, a, id, accepted, key); }
    hide Received, FilesOk;
  }

  lemma SameFile(v: Vault, a: Vault, b: Vault, id: nat, accepted: Piecewise, key: FileKey)
    requires Received(v, a, id, accepted) && Received(v, b, id, accepted) && ChunksOf(a, id) == ChunksOf(b, id)
    requires FilesOk(a) && FilesOk(b) && key in a.files
    ensures key in b.files && b.files[key] == a.files[key]
  {
    hide RowsReceived, NoStrayFiles, BlobFilesOk, AvailableOk, BoundAvailable;
    if key !in v.files {
      assert id in a.chunks && id in b.chunks && a.chunks[id] == b.chunks[id];
      assert StoredAs(a.files, key, a.chunks[id][key.ordinal]) && StoredAs(b.files, key, b.chunks[id][key.ordinal]);
    }
  }

  /** Two runs that had the same chunks accepted end in the same state, with the same chunk rows, the same count of
      bytes and the same files to put together, whatever their order, their replays and what was refused. */
  lemma AcceptedChunksDecide(v: Vault, clock: Time, id: nat, one: seq<Timed>, other: seq<Timed>)
    requires TablesOk(v, clock) && FilesOk(v) && id in v.uploads
    requires Possible(v, clock, one) && OnlyChunksOf(one, id) && Possible(v, clock, other) && OnlyChunksOf(other, id)
    requires Accepted(v, clock, one, id) == Accepted(v, clock, other, id)
    ensures var a, b := After(v, clock, one).0, After(v, clock, other).0;
            && a == b && id in a.uploads
            && ChunksOf(a, id) == ChunksOf(b, id) && a.uploads[id].uploadedBytes == b.uploads[id].uploadedBytes
            && forall n, sha, byteSize ::
                 Assembled(a.files, id, n, sha, byteSize) == Assembled(b.files, id, n, sha, byteSize)
  {
    hide TablesOk, FilesOk, Possible, Accepted, After, Received, Assembled, ChunksOf;
    var accepted := Accepted(v, clock, one, id);
    EndsReceived(v, clock, id, one);
    EndsReceived(v, clock, id, other);
    var a, b := After(v, clock, one), After(v, clock, other);
    ReceivedIsDetermined(v, a.0, b.0, id, accepted, a.1, b.1);
  }

  lemma EndsReceived(v: Vault, clock: Time, id: nat, run: seq<Timed>)
    requires TablesOk(v, clock) && FilesOk(v) && id in v.uploads && Possible(v, clock, run) && OnlyChunksOf(run, id)
    ensures var (after, end) := After(v, clock, run);
            Received(v, after, id, Accepted(v, clock, run, id)) && TablesOk(after, end) && FilesOk(after)
                && id in after.uploads
  {
    NothingReceived(v, id);
    RunReceives(v, v, clock, run, id, {});
    assert {} + Accepted(v, clock, run, id) == Accepted(v, clock, run, id);
    hide TablesOk, FilesOk, Possible, Accepted, After;
    RunKeepsTables(v, clock, run);
    RunKeepsFiles(v, clock, run);
  }

  lemma NothingReceived(v: Vault, id: nat)
    requires id in v.uploads
    ensures Received(v, v, id, {})
  {}

  // ---------------------------------------------------------------- chunks that agree

  /** The chunks stored so far are among the parts, and a completed upload has them all. */
  ghost predicate RowsAre(v: Vault, id: nat, parts: map<nat, Bytes>) {
    && id in v.uploads
    && (forall k :: k in ChunksOf(v, id) ==> k in parts && ChunksOf(v, id)[k].sha == Sha(parts[k]))
    && (v.uploads[id].status == Completed ==> forall k: nat :: k < v.uploads[id].totalChunks ==> k in ChunksOf(v, id))
  }

  ghost predicate Agrees(u: Upload, e: Event, id: nat, parts: map<nat, Bytes>) {
    Intact(u, e, id) ==> e.ordinal in parts && e.data == parts[e.ordinal]
  }

  /** A chunk that agrees with what is stored gets a receipt. */
  lemma IntactIsAccepted(v: Vault, e: Event, now: Time, id: nat, parts: map<nat, Bytes>)
    requires TablesOk(v, now) && FilesOk(v) && RowsAre(v, id, parts) && v.uploads[id].expiresAt > now
    requires Intact(v.uploads[id], e, id) && Agrees(v.uploads[id], e, id, parts)
    ensures AcceptedBy(v, e, now) == {(e.ordinal, e.data)}
  {
    var u := v.uploads[id];
    UploadAt(v, id, now);
    if e.ordinal in ChunksOf(v, id) {
      RowsOf(v, id);
      assert ChunkOk(u, e.ordinal, ChunksOf(v, id)[e.ordinal]);
      FitsMaximum(u, e.ordinal, e.data);
      hide TablesOk, FilesOk, MissingChunks, ChunksOf, ExpectedSize, Offset, UploadOk;
    } else {
      NewChunksAreStored(v, id, e.ordinal, e.data, now);
      hide TablesOk, FilesOk, ReceiveChunk, ChunksOf, UploadOk;
    }
  }

  lemma FitsMaximum(u: Upload, ordinal: int, data: Bytes)
    requires ValidRequest(u.request) && ChunkFits(u, ordinal, data)
    ensures |data| <= MAX_CHUNK
  {
    hide Offset;
  }

  lemma StepKeepsRows(v: Vault, e: Event, now: Time, id: nat, parts: map<nat, Bytes>)
    requires TablesOk(v, now) && FilesOk(v) && Admitted(v, e, now)
    requires RowsAre(v, id, parts) && v.uploads[id].expiresAt > now && Agrees(v.uploads[id], e, id, parts)
    ensures var after := Step(v, e, now);
            && RowsAre(after, id, parts) && SameTerms(v.uploads[id], after.uploads[id])
            && ChunksOf(v, id).Keys <= ChunksOf(after, id).Keys
            && (Intact(v.uploads[id], e, id) ==> e.ordinal in ChunksOf(after, id))
  {
    hide Step, TablesOk, FilesOk, Admitted, RowsAre, Agrees;
    if e.Receiving? && e.upload == id {
      ReceivingKeepsRows(v, e, now, id, parts);
    } else {
      OthersKeepRows(v, e, now, id, parts);
    }
  }

  lemma ReceivingKeepsRows(v: Vault, e: Event, now: Time, id: nat, parts: map<nat, Bytes>)
    requires TablesOk(v, now) && FilesOk(v) && e.Receiving? && e.upload == id
    requires RowsAre(v, id, parts) && v.uploads[id].expiresAt > now && Agrees(v.uploads[id], e, id, parts)
    ensures var after := Step(v, e, now);
            && RowsAre(after, id, parts) && SameTerms(v.uploads[id], after.uploads[id])
            && ChunksOf(v, id).Keys <= ChunksOf(after, id).Keys
            && (Intact(v.uploads[id], e, id) ==> e.ordinal in ChunksOf(after, id))
  {
    ReceiptShape(v, e, now);
    hide Step, AcceptedBy, TablesOk, FilesOk, RowsAre, Intact, WithChunk;
    OneUpload(v, id, parts);
    assert SameTerms(v.uploads[id], v.uploads[id]);
    if AcceptedBy(v, e, now) != {} && e.ordinal !in ChunksOf(v, id) {
      StoringKeepsRows(v, id, e.ordinal, e.data, parts);
    }
    if Intact(v.uploads[id], e, id) { IntactIsAccepted(v, e, now, id, parts); }
  }

  lemma StoringKeepsRows(v: Vault, id: nat, ordinal: nat, data: Bytes, parts: map<nat, Bytes>)
    requires RowsAre(v, id, parts) && v.uploads[id].status != Completed && ordinal in parts && data == parts[ordinal]
    ensures var after := WithChunk(v, id, ordinal, data);
            && RowsAre(after, id, parts) && SameTerms(v.uploads[id], after.uploads[id])
            && ChunksOf(after, id).Keys == ChunksOf(v, id).Keys + {ordinal}
  {
    hide Offset;
  }

  lemma OthersKeepRows(v: Vault, e: Event, now: Time, id: nat, parts: map<nat, Bytes>)
    requires TablesOk(v, now) && Admitted(v, e, now) && !(e.Receiving? && e.upload == id)
    requires RowsAre(v, id, parts) && v.uploads[id].expiresAt > now
    ensures var after := Step(v, e, now);
            && RowsAre(after, id, parts) && SameTerms(v.uploads[id], after.uploads[id])
            && ChunksOf(v, id) == ChunksOf(after, id)
  {
    StepFollows(v, e, now, id);
    hide Step, TablesOk, Admitted;
  }

  lemma {:induction false} RunKeepsRows(v: Vault, clock: Time, run: seq<Timed>, id: nat, parts: map<nat, Bytes>)
    requires TablesOk(v, clock) && FilesOk(v) && Possible(v, clock, run)
    requires RowsAre(v, id, parts) && After(v, clock, run).1 < v.uploads[id].expiresAt
    requires forall i :: 0 <= i < |run| ==> !run[i].event.Damaging? && Agrees(v.uploads[id], run[i].event, id, parts)
    ensures var after := After(v, clock, run).0;
            && RowsAre(after, id, parts) && SameTerms(v.uploads[id], after.uploads[id])
            && ChunksOf(v, id).Keys <= ChunksOf(after, id).Keys
            && forall i :: 0 <= i < |run| && Intact(v.uploads[id], run[i].event, id) ==>
                 run[i].event.ordinal in ChunksOf(after, id)
    decreases |run|
  {
    hide TablesOk, FilesOk, Step, RowsAre, ChunksOf, Admitted;
    assert RowsAre(v, id, parts) ==> id in v.uploads by { OneUpload(v, id, parts); }
    if run != [] {
      var (e, now) := (run[0].event, run[0].now);
      var next := Step(v, e, now);
      ClockAdvances(next, now, run[1..]);
      LaterKeeps(v, clock, now);
      StepKeepsTables(v, e, now);
      StepKeepsFiles(v, e, now);
      StepKeepsRows(v, e, now, id, parts);
      OneUpload(next, id, parts);
      forall i | 0 <= i < |run[1..]|
        ensures !run[1..][i].event.Damaging? && Agrees(next.uploads[id], run[1..][i].event, id, parts) {
        assert run[1..][i] == run[i + 1];
        SameChunksFit(v.uploads[id], next.uploads[id], run[i + 1].event, id);
      }
      RunKeepsRows(next, now, run[1..], id, parts);
      forall i | 0 <= i < |run| && Intact(v.uploads[id], run[i].event, id)
        ensures run[i].event.ordinal in ChunksOf(After(v, clock, run).0, id)
      {
        SameChunksFit(v.uploads[id], next.uploads[id], run[i].event, id);
        if i > 0 { assert run[i] == run[1..][i - 1]; }
      }
    }
  }

  lemma OneUpload(v: Vault, id: nat, parts: map<nat, Bytes>)
    requires RowsAre(v, id, parts)
    ensures id in v.uploads
  {}

  lemma SameChunksFit(a: Upload, b: Upload, e: Event, id: nat)
    requires SameTerms(a, b)
    ensures Intact(a, e, id) <==> Intact(b, e, id)
  {}

  /** The chunks a run brings intact. */
  ghost function Sent(u: Upload, run: seq<Timed>, id: nat): Piecewise {
    set i | 0 <= i < |run| && Intact(u, run[i].event, id) :: (run[i].event.ordinal, run[i].event.data)
  }

  lemma SentFirst(u: Upload, run: seq<Timed>, id: nat)
    requires run != []
    ensures Sent(u, run, id)
         == (if Intact(u, run[0].event, id) then {(run[0].event.ordinal, run[0].event.data)} else {})
             + Sent(u, run[1..], id)
  {
    var rest := run[1..];
    hide Intact;
    forall p | p in Sent(u, rest, id) ensures p in Sent(u, run, id) {
      var i :| 0 <= i < |rest| && Intact(u, rest[i].event, id) && p == (rest[i].event.ordinal, rest[i].event.data);
      assert rest[i] == run[i + 1];
    }
    forall p | p in Sent(u, run, id)
      ensures p in Sent(u, rest, id) || (Intact(u, run[0].event, id) && p == (run[0].event.ordinal, run[0].event.data))
    {
      var i :| 0 <= i < |run| && Intact(u, run[i].event, id) && p == (run[i].event.ordinal, run[i].event.data);
      if i > 0 { assert rest[i - 1] == run[i]; }
    }
  }

  lemma SameSent(a: Upload, b: Upload, run: seq<Timed>, id: nat)
    requires SameTerms(a, b)
    ensures Sent(a, run, id) == Sent(b, run, id)
  {}

  lemma AcceptedIsSent(v: Vault, e: Event, now: Time, id: nat, parts: map<nat, Bytes>)
    requires TablesOk(v, now) && FilesOk(v) && RowsAre(v, id, parts) && v.uploads[id].expiresAt > now
    requires e.Receiving? && e.upload == id && Agrees(v.uploads[id], e, id, parts)
    ensures AcceptedBy(v, e, now) == if Intact(v.uploads[id], e, id) then {(e.ordinal, e.data)} else {}
  {
    ReceiptShape(v, e, now);
    hide Step, AcceptedBy, TablesOk, FilesOk, RowsAre, Offset;
    if Intact(v.uploads[id], e, id) { IntactIsAccepted(v, e, now, id, parts); }
  }

  /** As long as the chunks of an ordinal agree, exactly what arrives intact is accepted. */
  lemma {:induction false} SentIsAccepted(v: Vault, clock: Time, run: seq<Timed>, id: nat, parts: map<nat, Bytes>)
    requires TablesOk(v, clock) && FilesOk(v) && Possible(v, clock, run) && OnlyChunksOf(run, id)
    requires RowsAre(v, id, parts) && After(v, clock, run).1 < v.uploads[id].expiresAt
    requires forall i :: 0 <= i < |run| ==> Agrees(v.uploads[id], run[i].event, id, parts)
    ensures Accepted(v, clock, run, id) == Sent(v.uploads[id], run, id)
    decreases |run|
  {
    hide TablesOk, FilesOk, Step, RowsAre, ChunksOf, Admitted, Sent, Intact, AcceptedBy;
    OneUpload(v, id, parts);
    if run == [] {
      NothingSent(v.uploads[id], id);
    } else {
      var (e, now) := (run[0].event, run[0].now);
      var next := Step(v, e, now);
      ClockAdvances(next, now, run[1..]);
      LaterKeeps(v, clock, now);
      StepKeepsTables(v, e, now);
      StepKeepsFiles(v, e, now);
      StepKeepsRows(v, e, now, id, parts);
      OneUpload(next, id, parts);
      forall i | 0 <= i < |run[1..]| ensures Agrees(next.uploads[id], run[1..][i].event, id, parts) {
        assert run[1..][i] == run[i + 1];
        SameChunksFit(v.uploads[id], next.uploads[id], run[i + 1].event, id);
      }
      SentIsAccepted(next, now, run[1..], id, parts);
      SameSent(v.uploads[id], next.uploads[id], run[1..], id);
      AcceptedIsSent(v, e, now, id, parts);
      SentFirst(v.uploads[id], run, id);
    }
  }

  lemma NothingSent(u: Upload, id: nat)
    ensures Sent(u, [], id) == {}
  {}

  /** The order in which the chunks of an upload arrive, how often each is sent again and what arrives damaged make
      no difference: two runs that bring the same chunks intact end in the same state. */
  lemma ArrivalOrderIrrelevant(v: Vault, clock: Time, id: nat, parts: map<nat, Bytes>, one: seq<Timed>,
                               other: seq<Timed>)
    requires TablesOk(v, clock) && FilesOk(v) && RowsAre(v, id, parts)
    requires Possible(v, clock, one) && OnlyChunksOf(one, id) && Possible(v, clock, other) && OnlyChunksOf(other, id)
    requires forall i :: 0 <= i < |one| ==> Agrees(v.uploads[id], one[i].event, id, parts)
    requires forall i :: 0 <= i < |other| ==> Agrees(v.uploads[id], other[i].event, id, parts)
    requires After(v, clock, one).1 < v.uploads[id].expiresAt && After(v, clock, other).1 < v.uploads[id].expiresAt
    requires Sent(v.uploads[id], one, id) == Sent(v.uploads[id], other, id)
    ensures After(v, clock, one).0 == After(v, clock, other).0
  {
    OneUpload(v, id, parts);
    hide TablesOk, FilesOk, Possible, Accepted, After, Sent, RowsAre, Agrees;
    SentIsAccepted(v, clock, one, id, parts);
    SentIsAccepted(v, clock, other, id, parts);
    AcceptedChunksDecide(v, clock, id, one, other);
  }

  // ---------------------------------------------------------------- the round trip

  /** Every chunk that reaches the upload intact is the piece of the content at its ordinal. */
  ghost predicate SendsPieces(u: Upload, e: Event, id: nat, content: Bytes)
    requires u.request.chunkSize > 0
  {
    Intact(u, e, id) ==>
      e.ordinal < TotalChunks(|content|, u.request.chunkSize)
          && e.data == Piece(content, u.request.chunkSize, e.ordinal)
  }

  function Pieces(content: Bytes, chunkSize: nat): map<nat, Bytes>
    requires chunkSize > 0
  {
    map k: nat | k < TotalChunks(|content|, chunkSize) :: Piece(content, chunkSize, k)
  }

  ghost predicate Uploads(v: Vault, id: nat, content: Bytes) {
    && id in v.uploads && v.uploads[id].request.byteSize == |content| && v.uploads[id].request.sha == Sha(content)
    && v.uploads[id].request.chunkSize > 0
  }

  /** Every piece is stored already or arrives intact at least once, and nothing touches the files. */
  ghost predicate Brings(v: Vault, run: seq<Timed>, id: nat, content: Bytes)
    requires Uploads(v, id, content)
  {
    && (forall i :: 0 <= i < |run| ==> !run[i].event.Damaging? && SendsPieces(v.uploads[id], run[i].event, id, content))
    && forall k: nat :: k < TotalChunks(|content|, v.uploads[id].request.chunkSize) ==>
         k in ChunksOf(v, id)
             || exists i :: 0 <= i < |run| && Intact(v.uploads[id], run[i].event, id) && run[i].event.ordinal == k
  }

  /** In any run without damage to the files, whatever else goes on in it: once every piece that was not stored yet
      has arrived intact, in any order and however often, the upload holds all pieces of the content. */
  lemma PiecesArrive(v: Vault, clock: Time, run: seq<Timed>, id: nat, content: Bytes)
    requires TablesOk(v, clock) && FilesOk(v) && Possible(v, clock, run) && Uploads(v, id, content)
    requires After(v, clock, run).1 < v.uploads[id].expiresAt
    requires RowsAre(v, id, Pieces(content, v.uploads[id].request.chunkSize)) && Brings(v, run, id, content)
    ensures HoldsPieces(After(v, clock, run).0, id, content)
  {
    var u := v.uploads[id];
    var parts := Pieces(content, u.request.chunkSize);
    assert forall i :: 0 <= i < |run| ==> Agrees(u, run[i].event, id, parts);
    RunKeepsRows(v, clock, run, id, parts);
    hide TablesOk, FilesOk, Possible, TotalChunks, Piece, ChunksOf, Intact, After;
    var after := After(v, clock, run).0;
    forall k: nat | k < TotalChunks(|content|, u.request.chunkSize)
      ensures k in ChunksOf(after, id) && ChunksOf(after, id)[k].sha == Sha(Piece(content, u.request.chunkSize, k))
    {
      assert k in parts;
    }
  }

  /** Sending the pieces of a content in any order and as often as one likes, whatever else goes on between, then
      completing and downloading gives the content back. */
  lemma UploadThenDownload(v: Vault, clock: Time, run: seq<Timed>, last: Vault, id: nat, content: Bytes, now: Time)
    requires TablesOk(v, clock) && FilesOk(v) && Uploads(v, id, content)
    requires RowsAre(v, id, Pieces(content, v.uploads[id].request.chunkSize)) && Brings(v, run, id, content)
    requires Possible(v, clock, run) && After(v, clock, run).0 == last
    requires After(v, clock, run).1 <= now < v.uploads[id].expiresAt
    requires id in last.uploads ==> last.uploads[id].status != Completed
    requires var attachment := v.uploads[id].request.attachment;
             attachment in last.references ==> !last.references[attachment].tombstone
    ensures var done := Complete(last, id, v.uploads[id].device, now);
            && done.reply.Ok? && done.reply.value.completed
            && Download(done.vault, v.uploads[id].request.attachment).reply == Ok(content)
  {
    var parts := Pieces(content, v.uploads[id].request.chunkSize);
    PiecesArrive(v, clock, run, id, content);
    assert forall i :: 0 <= i < |run| ==> Agrees(v.uploads[id], run[i].event, id, parts);
    RunKeepsRows(v, clock, run, id, parts);
    RunKeepsTables(v, clock, run);
    RunKeepsFiles(v, clock, run);
    hide RowsAre, Brings, Possible, FilesOk, TablesOk, HoldsPieces, Complete, Download, Pieces, After, Uploads;
    LaterKeeps(last, After(v, clock, run).1, now);
    OneUpload(last, id, parts);
    UploadAt(last, id, now);
    CompleteThenDownload(last, id, content, now);
  }

  /** The same from the start: a request for new bytes, their pieces in any order, completion and download. */
  lemma StartThenDownload(v: Vault, device: string, req: Request, now: Time, first: Vault, run: seq<Timed>, last: Vault,
                          content: Bytes, later: Time)
    requires TablesOk(v, now) && FilesOk(v) && ValidRequest(req) && req.sha == Sha(content) && req.byteSize == |content|
    requires FindUpload(v, device, req.key, v.nextUpload).None? && Startable(v, req) && !AlreadyStored(v, req)
    requires first == Initiate(v, device, req, true, now).vault && Uploads(first, v.nextUpload, content)
    requires Brings(first, run, v.nextUpload, content) && Possible(first, now, run) && After(first, now, run).0 == last
    requires After(first, now, run).1 <= later < now + UPLOAD_TTL
    requires v.nextUpload in last.uploads ==> last.uploads[v.nextUpload].status != Completed
    requires req.attachment in last.references ==> !last.references[req.attachment].tombstone
    ensures Initiate(v, device, req, true, now).reply.Ok?
    ensures var done := Complete(last, v.nextUpload, device, later);
            done.reply.Ok? && done.reply.value.completed && Download(done.vault, req.attachment).reply == Ok(content)
  {
    hide TablesOk, FilesOk, Brings, Possible, After, Complete, Download;
    NewUploadIsEmpty(v, device, req, now, content);
    UploadThenDownload(first, now, run, last, v.nextUpload, content, later);
  }

  lemma NewUploadIsEmpty(v: Vault, device: string, req: Request, now: Time, content: Bytes)
    requires TablesOk(v, now) && FilesOk(v) && ValidRequest(req)
    requires FindUpload(v, device, req.key, v.nextUpload).None? && Startable(v, req) && !AlreadyStored(v, req)
    ensures var outcome := Initiate(v, device, req, true, now);
            && outcome.reply.Ok? && TablesOk(outcome.vault, now) && FilesOk(outcome.vault)
            && Opens(v, outcome.vault, device, req, now)
            && RowsAre(outcome.vault, v.nextUpload, Pieces(content, req.chunkSize))
  {
    InitiateOpens(v, device, req, true, now);
    InitiateKeeps(v, device, req, true, now);
    InitiateKeepsFiles(v, device, req, true, now);
    InitiateOutcome(v, device, req, now);
    FreshUpload(v, now);
    hide TablesOk, FilesOk, Initiate, MissingChunks, Startable, FindUpload, Download;
  }
}
