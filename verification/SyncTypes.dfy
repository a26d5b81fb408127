/** The rows and messages of the Sync v1 protocol, for one owner and the scope "personal".

    - Identifiers are naturals: canonical UUID strings of one length are totally ordered as text, and
      the naturals stand for them in that order.
    - A content hash is an injective function of the canonical content; `Foreign` stands for a hash a
      client sends that is the digest of no content.
    - Times are integers on one scale; nothing here assumes that a clock never goes back. */
module SyncTypes {
  import opened Wrappers

  type Id = nat
  type Time = int

  datatype EntityType = Attachment | Comment | Draft | Favorite | Paper | Question | Setting

  datatype MutationKind = Create | Update | Delete | Restore | Rename | Attach | Detach

  /** What a payload says about its own schema version: nothing, an integer, or something else. */
  datatype SchemaTag = Absent | Number(n: int) | NotANumber

  datatype Payload = Payload(schema: SchemaTag, body: string)

  datatype Hash = Digest(content: Option<Payload>) | Foreign(text: string)

  datatype Key = Key(kind: EntityType, id: Id)

  /** Entity types in the order of their names, the order the snapshot query sorts by. */
  function TypeRank(t: EntityType): nat {
    match t
    case Attachment => 0
    case Comment => 1
    case Draft => 2
    case Favorite => 3
    case Paper => 4
    case Question => 5
    case Setting => 6
  }

  /** The row comparison (entity_type, public_id) of the snapshot query. */
  predicate KeyLess(a: Key, b: Key) {
    TypeRank(a.kind) < TypeRank(b.kind) || (a.kind == b.kind && a.id < b.id)
  }

  /** The current projection of an entity. */
  datatype Entity = Entity(version: nat, hash: Hash, payload: Option<Payload>, tombstone: bool)

  /** One immutable row of an entity's history. */
  datatype VersionRow = VersionRow(
    key: Key, version: nat, hash: Hash, payload: Option<Payload>, tombstone: bool, kind: MutationKind,
    op: Id, baseVersion: Option<nat>, baseHash: Option<Hash>, device: string, createdAt: Time)

  /** One row of the change log; `versionId` is the identity of the version row it publishes. */
  datatype LogRow = LogRow(
    sequence: nat, versionId: nat, key: Key, version: nat, hash: Hash, kind: MutationKind,
    tombstone: bool, op: Id, createdAt: Time)

  /** What a device receives for a log row joined with the version row it names. */
  datatype Change = Change(
    sequence: nat, key: Key, kind: MutationKind, version: nat, hash: Hash, updatedAt: Time,
    payload: Option<Payload>)

  datatype Snapshot = Snapshot(
    version: nat, hash: Hash, kind: MutationKind, tombstone: bool, payload: Option<Payload>,
    device: string, modifiedAt: Time)

  datatype Reason =
    | ConcurrentCreate | DivergentContent | TombstoneDivergence | RestoreDivergence | RenameDivergence

  datatype ConflictRow = ConflictRow(
    publicId: Id, key: Key, reason: Reason, base: Option<Snapshot>, local: Snapshot, cloud: Snapshot,
    detectedAt: Time)

  /** A resolution action with the one field it alone requires. */
  datatype Action =
    | KeepLocal
    | UseCloud
    | SaveCopy(newEntityId: Id)
    | ManualMerge(merged: Payload)
    | RestoreVersion(target: int)
    | Undo(resolution: Id)

  /** `unread` is what the payload field holds that the action does not read; the request hash covers it. */
  datatype ResolutionRequest = ResolutionRequest(
    op: Id, action: Action, currentVersion: nat, currentHash: Hash, unread: Option<Payload>)

  /** A recorded decision; the stored request hash is represented by the request it is injective in. */
  datatype ResolutionRow = ResolutionRow(
    publicId: Id, conflict: nat, request: ResolutionRequest, device: string, acceptedVersionId: nat,
    result: Snapshot, undoes: Option<nat>, resolvedAt: Time)

  datatype RestoreRequest = RestoreRequest(
    key: Key, targetVersion: int, op: Id, currentVersion: nat, currentHash: Hash)

  datatype RestoreRow = RestoreRow(
    request: RestoreRequest, acceptedVersionId: nat, device: string, restoredAt: Time)

  datatype Mutation = Mutation(
    op: Id, key: Key, kind: MutationKind, baseVersion: Option<nat>, baseHash: Option<Hash>,
    payload: Option<Payload>, dependsOn: seq<Id>)

  datatype PushRequest = PushRequest(protocol: int, batchId: Id, device: string, mutations: seq<Mutation>)

  datatype Status = Applied | Noop | Conflicted | Rejected | DependencyFailed

  datatype ErrorCode =
    | ProtocolUnsupported | BatchInvalid | IdempotencyMismatch | DependencyFailure | Conflicting
    | CursorInvalid | CursorExpired | SnapshotExpired | EntityForbidden | EntityNotFound
    | SchemaUnsupported | RetentionTooShort
    | IntegrityViolation  // a database constraint refused the transaction, which rolled back

  datatype OpResult = OpResult(
    op: Id, status: Status, version: Option<nat>, hash: Option<Hash>, conflictId: Option<Id>,
    failedDependencies: seq<Id>, error: Option<ErrorCode>)

  datatype BatchKey = BatchKey(device: string, batchId: Id)

  datatype Batch = Batch(request: PushRequest, results: seq<OpResult>)

  type Reply<T> = Result<T, ErrorCode>

  datatype Stream = Stream(epoch: Id, horizon: nat, snapshotVersion: nat)

  datatype DeviceRow = DeviceRow(epoch: Id, cursor: nat, expiresAt: Time, revoked: bool)

  /** A signed cursor. A device can present only what the server once returned, or noise. */
  datatype Cursor =
    | ChangeCursor(owner: Id, device: string, epoch: Id, sequence: nat)
    | SnapshotCursor(owner: Id, device: string, epoch: Id, snapshotId: Id, boundary: nat, last: Option<Key>)
    | Unsigned(text: string)

  datatype User = User(questionsWrite: bool, papersWrite: bool)

  /** What the outside world decides at one write: the clock, and how many sequence numbers other
      owners or rolled-back statements consumed since the last draw. */
  datatype Draw = Draw(now: Time, skip: nat)
}
