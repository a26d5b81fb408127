/** The tables of one owner's personal sync stream, the one write every accepted change makes, and what
    every write keeps. */
module SyncState {
  import opened Wrappers
  import opened SyncTypes
  import opened SyncLog
  import opened SyncHistory

  datatype Db = Db(
    owner: Id,
    entities: map<Key, Entity>,
    versions: seq<VersionRow>,
    log: seq<LogRow>,
    lastSequence: nat,                 // the last sequence number drawn from the table's generator
    conflicts: seq<ConflictRow>,
    resolutions: seq<ResolutionRow>,
    restores: seq<RestoreRow>,
    batches: map<BatchKey, Batch>,
    opResults: map<Id, OpResult>,      // one row per (owner, operation)
    stream: Option<Stream>,
    devices: map<string, DeviceRow>,
    nextUuid: Id)                      // generated identifiers never repeat

  function EmptyDb(owner: Id): Db {
    Db(owner, map[], [], [], 0, [], [], [], map[], map[], None, map[], 0)
  }

  /** A log row joined with the version row it names. */
  function ChangeOf(versions: seq<VersionRow>, row: LogRow): Change {
    Change(row.sequence, row.key, row.kind, row.version, row.hash, row.createdAt,
           if row.versionId < |versions| then versions[row.versionId].payload else None)
  }

  /** The newest change of an entity at a boundary. */
  function ViewAt(db: Db, k: Key, boundary: nat): Option<Change> {
    match LatestAt(db.log, k, boundary)
    case None => None
    case Some(r) => Some(ChangeOf(db.versions, r))
  }

  // ---------------------------------------------------------------- the write

  function NextVersion(db: Db, k: Key): nat {
    if k in db.entities then db.entities[k].version + 1 else 1
  }

  function NextRow(db: Db, k: Key, payload: Option<Payload>, tombstone: bool, kind: MutationKind,
                   op: Id, device: string, now: Time): VersionRow {
    VersionRow(k, NextVersion(db, k), Digest(payload), payload, tombstone, kind, op,
               if k in db.entities then Some(db.entities[k].version) else None,
               if k in db.entities then Some(db.entities[k].hash) else None,
               device, now)
  }

  function PublishedAs(row: VersionRow, versionId: nat, sequence: nat): LogRow {
    LogRow(sequence, versionId, row.key, row.version, row.hash, row.kind, row.tombstone, row.op, row.createdAt)
  }

  /** One accepted change: the projection moves to the next version, one version row records it and one
      log row publishes it. */
  function Accept(db: Db, k: Key, payload: Option<Payload>, tombstone: bool, kind: MutationKind,
                  op: Id, device: string, draw: Draw): Db
  {
    var row := NextRow(db, k, payload, tombstone, kind, op, device, draw.now);
    var sequence := db.lastSequence + 1 + draw.skip;
    db.(entities := db.entities[k := Entity(row.version, row.hash, payload, tombstone)],
        versions := db.versions + [row],
        log := db.log + [PublishedAs(row, |db.versions|, sequence)],
        lastSequence := sequence)
  }

  // ---------------------------------------------------------------- invariants

  ghost predicate LogOk(db: Db) {
    && Sorted(db.log)
    && forall r :: r in db.log ==>
         && 1 <= r.sequence <= db.lastSequence
         && r.versionId < |db.versions|
         && r == PublishedAs(db.versions[r.versionId], r.versionId, r.sequence)
  }

  /** What a change shows is what the projection holds. */
  ghost predicate Shows(c: Change, e: Entity) {
    c.version == e.version && c.hash == e.hash && c.payload == e.payload
  }

  /** The log agrees with the projection: an entity exists exactly when the log has a row for it, and
      the newest row carries its version, hash, tombstone and, joined, its payload. */
  ghost predicate ProjectionOk(db: Db) {
    forall k ::
      && (k in db.entities <==> LatestAt(db.log, k, db.lastSequence).Some?)
      && (k in db.entities ==>
            var r := LatestAt(db.log, k, db.lastSequence).value;
            Shows(ChangeOf(db.versions, r), db.entities[k]) && r.tombstone == db.entities[k].tombstone)
  }

  /** Every entity has a chained history of exactly the versions 1..entity.version that ends in the
      entity, and no other history exists. */
  ghost predicate HistoryOk(db: Db) {
    forall k :: EntityHistoryOk(db.entities, HistoryOf(db.versions, k), k)
  }

  ghost predicate EntityHistoryOk(entities: map<Key, Entity>, history: seq<VersionRow>, k: Key) {
    && Chained(history)
    && (k !in entities ==> history == [])
    && (k in entities ==>
          var e := entities[k];
          && 1 <= e.version == |history|
          && history[e.version-1].hash == e.hash
          && history[e.version-1].payload == e.payload
          && history[e.version-1].tombstone == e.tombstone)
  }

  ghost predicate OpsOk(db: Db) {
    forall i, j :: 0 <= i < j < |db.versions| ==> db.versions[i].op != db.versions[j].op
  }

  ghost predicate CoreOk(db: Db) {
    LogOk(db) && ProjectionOk(db) && HistoryOk(db) && OpsOk(db)
  }

  lemma EntityContent(db: Db, k: Key)
    requires CoreOk(db) && k in db.entities
    ensures var e := db.entities[k];
            && e.hash == Digest(e.payload) && (e.payload.None? <==> e.tombstone) && 1 <= e.version
            && FindVersion(db.versions, k, e.version).Some?
  {
    assert EntityHistoryOk(db.entities, HistoryOf(db.versions, k), k);
    FindVersionInChain(db.versions, k, db.entities[k].version);
  }

  // ---------------------------------------------------------------- the write keeps them

  lemma AcceptKeepsLog(db: Db, k: Key, payload: Option<Payload>, tombstone: bool, kind: MutationKind,
                       op: Id, device: string, draw: Draw)
    requires LogOk(db)
    ensures LogOk(Accept(db, k, payload, tombstone, kind, op, device, draw))
  {}

  lemma AcceptKeepsProjection(db: Db, k: Key, payload: Option<Payload>, tombstone: bool, kind: MutationKind,
                              op: Id, device: string, draw: Draw)
    requires LogOk(db) && ProjectionOk(db)
    ensures ProjectionOk(Accept(db, k, payload, tombstone, kind, op, device, draw))
  {
    var db' := Accept(db, k, payload, tombstone, kind, op, device, draw);
    var row := db'.log[|db.log|];
    forall x
      ensures x in db'.entities <==> LatestAt(db'.log, x, db'.lastSequence).Some?
      ensures x in db'.entities ==>
                var r := LatestAt(db'.log, x, db'.lastSequence).value;
                Shows(ChangeOf(db'.versions, r), db'.entities[x]) && r.tombstone == db'.entities[x].tombstone
    {
      LatestAtAppend(db.log, row, x, db'.lastSequence);
      ViewAboveAll(db, x, db'.lastSequence);
      if x != k && x in db.entities {
        LatestAtIsLatest(db.log, x, db.lastSequence);
      }
    }
  }

  /** Above every sequence drawn, the view is the newest one. */
  lemma ViewAboveAll(db: Db, k: Key, boundary: nat)
    requires LogOk(db) && db.lastSequence <= boundary
    ensures LatestAt(db.log, k, boundary) == LatestAt(db.log, k, db.lastSequence)
  {
    LatestAtIsLatest(db.log, k, boundary);
    match LatestAt(db.log, k, boundary) {
      case Some(r) => LatestAtIsUnique(db.log, k, db.lastSequence, r);
      case None => LatestAtIsNone(db.log, k, db.lastSequence);
    }
  }

  lemma AcceptKeepsHistory(db: Db, k: Key, payload: Option<Payload>, tombstone: bool, kind: MutationKind,
                           op: Id, device: string, draw: Draw)
    requires HistoryOk(db)
    requires payload.None? <==> tombstone
    requires kind == Create ==> k !in db.entities
    ensures HistoryOk(Accept(db, k, payload, tombstone, kind, op, device, draw))
  {
    var db' := Accept(db, k, payload, tombstone, kind, op, device, draw);
    var row := NextRow(db, k, payload, tombstone, kind, op, device, draw.now);
    forall x ensures EntityHistoryOk(db'.entities, HistoryOf(db'.versions, x), x) {
      HistoryAppend(db.versions, row, x);
      var history := HistoryOf(db.versions, x);
      assert EntityHistoryOk(db.entities, history, x);
      if x == k {
        ExtendedHistoryOk(db.entities, history, k, row);
        assert HistoryOf(db'.versions, x) == history + [row];
      } else {
        assert HistoryOf(db'.versions, x) == history;
      }
    }
  }

  lemma ExtendedHistoryOk(entities: map<Key, Entity>, history: seq<VersionRow>, k: Key, row: VersionRow)
    requires EntityHistoryOk(entities, history, k)
    requires row.version == if k in entities then entities[k].version + 1 else 1
    requires row.baseVersion == if k in entities then Some(entities[k].version) else None
    requires row.baseHash == if k in entities then Some(entities[k].hash) else None
    requires row.hash == Digest(row.payload) && (row.payload.None? <==> row.tombstone)
    requires row.kind == Create ==> k !in entities
    ensures EntityHistoryOk(entities[k := Entity(row.version, row.hash, row.payload, row.tombstone)],
                            history + [row], k)
  {
    ChainedAppend(history, row);
    assert (history + [row])[|history|] == row;
  }

  /** The write keeps the log, the projection, every history and the uniqueness of operations. */
  lemma AcceptKeepsCore(db: Db, k: Key, payload: Option<Payload>, tombstone: bool, kind: MutationKind,
                        op: Id, device: string, draw: Draw)
    requires CoreOk(db)
    requires payload.None? <==> tombstone
    requires kind == Create ==> k !in db.entities
    requires !OpUsed(db.versions, op)
    ensures CoreOk(Accept(db, k, payload, tombstone, kind, op, device, draw))
  {
    AcceptKeepsLog(db, k, payload, tombstone, kind, op, device, draw);
    AcceptKeepsProjection(db, k, payload, tombstone, kind, op, device, draw);
    AcceptKeepsHistory(db, k, payload, tombstone, kind, op, device, draw);
    var db' := Accept(db, k, payload, tombstone, kind, op, device, draw);
    forall i, j | 0 <= i < j < |db'.versions| ensures db'.versions[i].op != db'.versions[j].op {
      if j == |db.versions| { assert db.versions[i] in db.versions; }
    }
  }

  /** The unique key (entity, version) never refuses the row a write makes. */
  lemma NextVersionIsFree(db: Db, k: Key)
    requires CoreOk(db)
    ensures FindVersion(db.versions, k, NextVersion(db, k)).None?
  {
    assert EntityHistoryOk(db.entities, HistoryOf(db.versions, k), k);
    FindVersionInChain(db.versions, k, NextVersion(db, k));
  }

  /** The write changes no view at or below what the generator had drawn. */
  lemma AcceptKeepsViews(db: Db, k: Key, payload: Option<Payload>, tombstone: bool, kind: MutationKind,
                         op: Id, device: string, draw: Draw, x: Key, b: nat)
    requires LogOk(db) && b <= db.lastSequence
    ensures ViewAt(Accept(db, k, payload, tombstone, kind, op, device, draw), x, b) == ViewAt(db, x, b)
  {
    var db' := Accept(db, k, payload, tombstone, kind, op, device, draw);
    LatestAtAppend(db.log, db'.log[|db.log|], x, b);
    LatestAtIsLatest(db.log, x, b);
  }
}
