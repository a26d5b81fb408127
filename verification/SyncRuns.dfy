/** Whole runs of the server: every reachable state keeps its invariants, every table only grows, and so
    an answer once recorded is the answer for ever. */
module SyncRuns {
  import opened Wrappers
  import opened SyncTypes
  import opened SyncLog
  import opened SyncHistory
  import opened SyncState
  import opened ConflictRules
  import opened SyncConflicts
  import opened SyncPush
  import opened SyncPushProofs
  import opened SyncCompaction
  import opened SyncRead

  datatype Request =
    | DoPush(user: User, device: string, batch: PushRequest, draws: seq<Draw>)
    | DoResolve(conflictId: Id, resolution: ResolutionRequest, device: string, draw: Draw)
    | DoRestore(restore: RestoreRequest, device: string, draw: Draw)
    | DoCompact(now: Time, retentionDays: int, apply: bool)
    | DoPull(device: string, cursor: Option<Cursor>, pageSize: int, now: Time)
    | DoAcknowledge(device: string, position: Cursor, now: Time)
    | DoSnapshot(device: string, cursor: Option<Cursor>, pageSize: int, now: Time)

  /** One service call, one atomic step. */
  function Step(db: Db, q: Request): Db {
    match q
    case DoPush(user, device, batch, draws) => Push(db, user, device, batch, draws).0
    case DoResolve(conflictId, resolution, device, draw) => Resolve(db, conflictId, resolution, device, draw).0
    case DoRestore(restore, device, draw) => RestoreTo(db, restore, device, draw).0
    case DoCompact(now, days, apply) => Compact(db, now, days, apply).0
    case DoPull(device, cursor, size, now) => Pull(db, device, cursor, size, now).0
    case DoAcknowledge(device, cursor, now) => Acknowledge(db, device, cursor, now).0
    case DoSnapshot(device, cursor, size, now) => SnapshotEntities(db, device, cursor, size, now).0
  }

  function Run(db: Db, requests: seq<Request>): Db
    decreases requests
  {
    if requests == [] then db else Run(Step(db, requests[0]), requests[1..])
  }

  // ---------------------------------------------------------------- the invariant

  predicate SnapshotOk(s: Snapshot) {
    s.hash == Digest(s.payload) && (s.payload.None? <==> s.tombstone)
  }

  ghost predicate ConflictRowOk(db: Db, c: ConflictRow) {
    && c.key in db.entities && SnapshotOk(c.local) && SnapshotOk(c.cloud)
    && (c.base.Some? ==> SnapshotOk(c.base.value)) && BaselineOk(c.reason, c.base)
  }

  ghost predicate ConflictsOk(db: Db) {
    && (forall c :: c in db.conflicts ==> ConflictRowOk(db, c) && c.publicId < db.nextUuid)
    && forall i, j :: 0 <= i < j < |db.conflicts| ==> db.conflicts[i].publicId != db.conflicts[j].publicId
  }

  /** Every resolution names its conflict and the version it accepted under its own operation; an undo
      undoes an earlier resolution of the same conflict, and no resolution is undone twice. */
  ghost predicate ResolutionsOk(db: Db) {
    && (forall i :: 0 <= i < |db.resolutions| ==> ResolutionOk(db, i))
    && (forall i, j :: 0 <= i < j < |db.resolutions| && db.resolutions[i].undoes.Some?
          ==> db.resolutions[i].undoes != db.resolutions[j].undoes)
    && (forall i, j :: 0 <= i < j < |db.resolutions| ==>
          && db.resolutions[i].request.op != db.resolutions[j].request.op
          && db.resolutions[i].publicId != db.resolutions[j].publicId)
  }

  ghost predicate ResolutionOk(db: Db, i: nat)
    requires i < |db.resolutions|
  {
    var r := db.resolutions[i];
    && r.conflict < |db.conflicts| && r.acceptedVersionId < |db.versions|
    && db.versions[r.acceptedVersionId].op == r.request.op
    && r.publicId < db.nextUuid
    && (r.undoes.Some? <==> r.request.action.Undo?)
    && (r.undoes.Some? ==> r.undoes.value < i && db.resolutions[r.undoes.value].conflict == r.conflict)
  }

  ghost predicate RestoresOk(db: Db) {
    && (forall r :: r in db.restores ==>
          r.acceptedVersionId < |db.versions| && db.versions[r.acceptedVersionId].op == r.request.op)
    && (forall i, j :: 0 <= i < j < |db.restores| ==> db.restores[i].request.op != db.restores[j].request.op)
  }

  ghost predicate DevicesOk(db: Db) {
    db.stream.None? ==> db.devices == map[]
  }

  ghost predicate DbOk(db: Db) {
    && CoreOk(db) && StreamOk(db) && DevicesOk(db)
    && ConflictsOk(db) && ResolutionsOk(db) && RestoresOk(db)
  }

  // ---------------------------------------------------------------- growth

  ghost predicate Extends<K, V>(small: map<K, V>, big: map<K, V>) {
    forall k :: k in small ==> k in big && big[k] == small[k]
  }

  function CursorOf(db: Db, device: string): nat {
    if device in db.devices then db.devices[device].cursor else 0
  }

  /** Nothing recorded is altered or lost: histories, conflicts and decisions are appended to, batches and
      operation results stay, and horizons, sequences and acknowledged cursors never fall. */
  ghost predicate Grows(a: Db, b: Db) {
    && a.owner == b.owner
    && a.versions <= b.versions && a.conflicts <= b.conflicts && a.resolutions <= b.resolutions
       && a.restores <= b.restores
    && Extends(a.batches, b.batches) && Extends(a.opResults, b.opResults)
    && a.entities.Keys <= b.entities.Keys
    && a.lastSequence <= b.lastSequence && MaxSequence(a.log) <= MaxSequence(b.log)
    && HorizonOf(a) <= HorizonOf(b) && a.nextUuid <= b.nextUuid
    && (a.stream.Some? ==> b.stream.Some?)
    && StreamMoves(a, b) && SameViews(a, b)
    && forall d :: CursorOf(a, d) <= CursorOf(b, d)
  }

  /** The stream stays as it is, or gets a new epoch. */
  predicate StreamMoves(a: Db, b: Db) {
    b.stream == a.stream || (b.stream.Some? && a.nextUuid <= b.stream.value.epoch < b.nextUuid)
  }

  /** Every view that was complete stays what it was, as long as the horizon has not passed it. */
  ghost predicate SameViews(a: Db, b: Db) {
    forall k, s: nat :: HorizonOf(b) <= s <= a.lastSequence ==> ViewAt(b, k, s) == ViewAt(a, k, s)
  }

  lemma SameLogSameViews(a: Db, b: Db)
    requires a.log == b.log && a.versions == b.versions
    ensures SameViews(a, b)
  {}

  lemma GrowsTransitive(a: Db, b: Db, c: Db)
    requires Grows(a, b) && Grows(b, c)
    ensures Grows(a, c)
  {
    hide CursorOf, MaxSequence, ViewAt;
    forall d ensures CursorOf(a, d) <= CursorOf(c, d) {
      assert CursorOf(a, d) <= CursorOf(b, d) <= CursorOf(c, d);
    }
    forall k, s: nat | HorizonOf(c) <= s <= a.lastSequence ensures ViewAt(c, k, s) == ViewAt(a, k, s) {
      assert ViewAt(b, k, s) == ViewAt(a, k, s);
    }
  }

  lemma GrowsReflexive(a: Db)
    ensures Grows(a, a)
  {}

  // ---------------------------------------------------------------- the write

  /** A write, and after it anything that leaves the core, devices and stream alone. */
  lemma AcceptKeepsAll(db: Db, k: Key, payload: Option<Payload>, tombstone: bool, kind: MutationKind,
                       op: Id, device: string, draw: Draw)
    requires DbOk(db)
    requires payload.None? <==> tombstone
    requires kind == Create ==> k !in db.entities
    requires !OpUsed(db.versions, op)
    ensures var db' := Accept(db, k, payload, tombstone, kind, op, device, draw);
            DbOk(db') && Grows(db, db')
  {
    var db' := Accept(db, k, payload, tombstone, kind, op, device, draw);
    AcceptKeepsCore(db, k, payload, tombstone, kind, op, device, draw);
    assert db'.log[..|db.log|] == db.log;
    assert db'.entities.Keys == db.entities.Keys + {k};
    AppendRaisesMax(db.log, db'.log);
    forall x, s: nat | s <= db.lastSequence ensures ViewAt(db', x, s) == ViewAt(db, x, s) {
      AcceptKeepsViews(db, k, payload, tombstone, kind, op, device, draw, x, s);
    }
    hide DbOk, Grows, Accept, ViewAt;
    WrittenKeepsAll(db, db');
  }

  lemma WrittenKeepsAll(a: Db, b: Db)
    requires DbOk(a) && CoreOk(b)
    requires b == a.(entities := b.entities, versions := b.versions, log := b.log, lastSequence := b.lastSequence)
    requires a.versions <= b.versions && a.entities.Keys <= b.entities.Keys && a.lastSequence <= b.lastSequence
    requires MaxSequence(a.log) <= MaxSequence(b.log)
    requires SameViews(a, b)
    ensures DbOk(b) && Grows(a, b)
  {
    hide SameViews;
    AcceptKeepsAudit(a, b);
    assert forall d :: CursorOf(a, d) == CursorOf(b, d);
    hide CoreOk, ConflictsOk, ResolutionsOk, RestoresOk, MaxSequence, CursorOf;
  }

  lemma AppendRaisesMax(log: seq<LogRow>, more: seq<LogRow>)
    requires |more| == |log| + 1 && more[..|log|] == log
    ensures MaxSequence(log) <= MaxSequence(more)
  {}

  lemma AcceptKeepsAudit(db: Db, db': Db)
    requires ConflictsOk(db) && ResolutionsOk(db) && RestoresOk(db)
    requires db.versions <= db'.versions && db.entities.Keys <= db'.entities.Keys
    requires db'.conflicts == db.conflicts && db'.resolutions == db.resolutions && db'.restores == db.restores
    requires db.nextUuid <= db'.nextUuid
    ensures ConflictsOk(db') && ResolutionsOk(db') && RestoresOk(db')
  {
    forall i | 0 <= i < |db'.resolutions| ensures ResolutionOk(db', i) {
      assert ResolutionOk(db, i);
    }
  }

  // ---------------------------------------------------------------- conflicts and pushes

  lemma FoundVersionContent(db: Db, k: Key, version: int)
    requires HistoryOk(db) && FindVersion(db.versions, k, version).Some?
    ensures SnapshotOk(SnapshotOf(FindVersion(db.versions, k, version).value))
    ensures k in db.entities
  {
    var history := HistoryOf(db.versions, k);
    assert EntityHistoryOk(db.entities, history, k);
    FindVersionInChain(db.versions, k, version);
    assert Follows(history[..version-1], history[version-1]);
  }

  lemma ConflictKeepsAll(db: Db, device: string, m: Mutation, draw: Draw)
    requires DbOk(db) && ValidMutation(m) && m.key in db.entities
    requires CreateConflict(db, device, m, draw).Done?
    ensures var db' := CreateConflict(db, device, m, draw).db;
            DbOk(db') && Grows(db, db')
  {
    GrowsReflexive(db);
    var db' := CreateConflict(db, device, m, draw).db;
    NewConflictOk(db, device, m, draw);
    ConflictShape(db, device, m, draw);
    hide DbOk, Grows, CreateConflict, SnapshotOk, BaselineOk;
    if db' != db { NewConflictKeepsAll(db, db'); }
  }

  lemma NewConflictKeepsAll(a: Db, b: Db)
    requires DbOk(a)
    requires b == a.(conflicts := b.conflicts, nextUuid := b.nextUuid) && a.nextUuid <= b.nextUuid
    requires a.conflicts <= b.conflicts && ConflictsOk(b)
    ensures DbOk(b) && Grows(a, b)
  {
    CoreIsCore(a, b);
    SameLogSameViews(a, b);
    hide CoreOk, ConflictsOk, MaxSequence, SameViews;
    forall i | 0 <= i < |b.resolutions| ensures ResolutionOk(b, i) { assert ResolutionOk(a, i); }
  }

  lemma CoreIsCore(a: Db, b: Db)
    requires CoreOk(a) && SameCore(a, b)
    ensures CoreOk(b)
  {}

  lemma ConflictShape(db: Db, device: string, m: Mutation, draw: Draw)
    requires m.key in db.entities && CreateConflict(db, device, m, draw).Done?
    ensures var db' := CreateConflict(db, device, m, draw).db;
            db' == db
            || (|db'.conflicts| == |db.conflicts| + 1
                && db' == db.(conflicts := db.conflicts + [db'.conflicts[|db.conflicts|]], nextUuid := db.nextUuid + 1))
  {}

  lemma NewConflictOk(db: Db, device: string, m: Mutation, draw: Draw)
    requires DbOk(db) && ValidMutation(m) && m.key in db.entities
    requires CreateConflict(db, device, m, draw).Done?
    ensures ConflictsOk(CreateConflict(db, device, m, draw).db)
  {
    var db' := CreateConflict(db, device, m, draw).db;
    ConflictShape(db, device, m, draw);
    if db' != db {
      NewConflictRowOk(db, device, m, draw);
      hide CreateConflict, CoreOk, SnapshotOk, BaselineOk;
      AppendedConflictOk(db, db', db'.conflicts[|db.conflicts|]);
    }
  }

  lemma NewConflictRowOk(db: Db, device: string, m: Mutation, draw: Draw)
    requires CoreOk(db) && ValidMutation(m) && m.key in db.entities
    requires CreateConflict(db, device, m, draw).Done?
    ensures var db' := CreateConflict(db, device, m, draw).db;
            |db'.conflicts| > |db.conflicts| ==>
              ConflictRowOk(db, db'.conflicts[|db.conflicts|]) && db'.conflicts[|db.conflicts|].publicId == db.nextUuid
  {
    EntityContent(db, m.key);
    if m.baseVersion.Some? && FindVersion(db.versions, m.key, m.baseVersion.value).Some? {
      FoundVersionContent(db, m.key, m.baseVersion.value);
    }
    assert SnapshotOk(LocalSnapshot(m, device, draw.now));
    assert SnapshotOk(CloudSnapshot(db, m.key, draw.now));
    assert BaseSnapshot(db, m).Some? ==> SnapshotOk(BaseSnapshot(db, m).value);
    hide CoreOk, FindVersion, HistoryOf, Classify, ValidMutation, SnapshotOk, BaselineOk;
    hide LocalSnapshot, CloudSnapshot, BaseSnapshot, CloudKind;
  }

  lemma AppendedConflictOk(a: Db, b: Db, c: ConflictRow)
    requires ConflictsOk(a) && b == a.(conflicts := a.conflicts + [c], nextUuid := a.nextUuid + 1)
    requires ConflictRowOk(a, c) && c.publicId == a.nextUuid
    ensures ConflictsOk(b)
  {
    forall i, j | 0 <= i < j < |b.conflicts| ensures b.conflicts[i].publicId != b.conflicts[j].publicId {
      assert a.conflicts[i] in a.conflicts;
    }
    hide SnapshotOk, BaselineOk;
  }

  /** Fields outside the core, the stream and the audit tables do not matter to the invariant. */
  lemma BookkeepingKeepsAll(db: Db, db': Db)
    requires DbOk(db) && Extends(db.batches, db'.batches) && Extends(db.opResults, db'.opResults)
    requires db' == db.(batches := db'.batches, opResults := db'.opResults)
    ensures DbOk(db') && Grows(db, db')
  {
    SameLogSameViews(db, db');
    hide SameViews;
    forall i | 0 <= i < |db'.resolutions| ensures ResolutionOk(db', i) {
      assert ResolutionOk(db, i);
    }
  }

  lemma SettleKeepsAll(db: Db, user: User, device: string, m: Mutation, byId: map<Id, OpResult>, draw: Draw)
    requires DbOk(db) && ValidMutation(m)
    requires Settle(db, user, device, m, byId, draw).Some?
    ensures var db' := Settle(db, user, device, m, byId, draw).value.0;
            DbOk(db') && Grows(db, db')
  {
    SettleHasEffect(db, user, device, m, byId, draw);
    var (db', r) := Settle(db, user, device, m, byId, draw).value;
    hide Settle, DbOk, Grows, Accept, CreateConflict;
    GrowsReflexive(db);
    if m.op !in db.opResults {
      var mid :| MutationEffect(db, mid, device, m, draw, r) && mid.opResults == db.opResults
          && db' == AddResult(mid, r);
      if r.status == Applied {
        AcceptKeepsAll(db, m.key, Desired(m), m.kind == Delete, m.kind, m.op, device, draw);
      } else if mid != db {
        ConflictKeepsAll(db, device, m, draw);
      }
      BookkeepingKeepsAll(mid, db');
      GrowsTransitive(db, mid, db');
    }
  }

  lemma {:induction false} PrefixKeepsAll(db: Db, user: User, device: string, ms: seq<Mutation>, draws: seq<Draw>,
                                          n: nat)
    requires DbOk(db) && n <= |ms| && (forall m :: m in ms ==> ValidMutation(m))
    requires PushPrefix(db, user, device, ms, draws, n).Some?
    ensures var db' := PushPrefix(db, user, device, ms, draws, n).value.0;
            DbOk(db') && Grows(db, db')
  {
    hide Settle, DbOk, Grows, ValidMutation;
    if n == 0 {
      GrowsReflexive(db);
    } else {
      PrefixKeepsAll(db, user, device, ms, draws, n - 1);
      var (before, results) := PushPrefix(db, user, device, ms, draws, n - 1).value;
      assert ms[n-1] in ms;
      SettleKeepsAll(before, user, device, ms[n-1], ById(results), DrawAt(draws, n - 1));
      var after := PushPrefix(db, user, device, ms, draws, n).value.0;
      GrowsTransitive(db, before, after);
    }
  }

  lemma PushKeepsAll(db: Db, user: User, device: string, batch: PushRequest, draws: seq<Draw>)
    requires DbOk(db)
    ensures var db' := Push(db, user, device, batch, draws).0;
            DbOk(db') && Grows(db, db')
  {
    GrowsReflexive(db);
    var db' := Push(db, user, device, batch, draws).0;
    var n := |batch.mutations|;
    hide DbOk, Grows, PushPrefix;
    if db' != db {
      PrefixKeepsAll(db, user, device, batch.mutations, draws, n);
      var after := PushPrefix(db, user, device, batch.mutations, draws, n).value.0;
      PrefixKeepsBatches(db, user, device, batch.mutations, draws, n);
      BookkeepingKeepsAll(after, db');
      GrowsTransitive(db, after, db');
    }
  }

  lemma {:induction false} PrefixKeepsBatches(db: Db, user: User, device: string, ms: seq<Mutation>, draws: seq<Draw>,
                                              n: nat)
    requires n <= |ms| && PushPrefix(db, user, device, ms, draws, n).Some?
    ensures var db' := PushPrefix(db, user, device, ms, draws, n).value.0;
            db'.batches == db.batches && db'.devices == db.devices
  {
    hide Settle;
    if n > 0 {
      PrefixKeepsBatches(db, user, device, ms, draws, n - 1);
      var (before, results) := PushPrefix(db, user, device, ms, draws, n - 1).value;
      SettleKeepsBatches(before, user, device, ms[n-1], ById(results), DrawAt(draws, n - 1));
    }
  }

  lemma SettleKeepsBatches(db: Db, user: User, device: string, m: Mutation, byId: map<Id, OpResult>, draw: Draw)
    requires Settle(db, user, device, m, byId, draw).Some?
    ensures var db' := Settle(db, user, device, m, byId, draw).value.0;
            db'.batches == db.batches && db'.devices == db.devices
  {
    SettleHasEffect(db, user, device, m, byId, draw);
    var (db', r) := Settle(db, user, device, m, byId, draw).value;
    hide Settle, CreateConflict;
    if m.op !in db.opResults {
      var mid :| MutationEffect(db, mid, device, m, draw, r) && mid.opResults == db.opResults
          && db' == AddResult(mid, r);
      if r.status != Applied && mid != db { ConflictLeavesCore(db, device, m, draw); }
    }
  }

  // ---------------------------------------------------------------- resolutions and restores

  lemma SourceContent(db: Db, conflict: nat, action: Action)
    requires DbOk(db) && conflict < |db.conflicts|
    requires ResolutionSource(db, conflict, action).Ok?
    ensures var s := ResolutionSource(db, conflict, action).value;
            && (s.payload.None? <==> s.tombstone)
            && (s.undoes.Some? <==> action.Undo?)
            && (s.undoes.Some? ==>
                 s.undoes.value < |db.resolutions| && db.resolutions[s.undoes.value].conflict == conflict)
  {
    var c := db.conflicts[conflict];
    assert c in db.conflicts;
    match action {
      case RestoreVersion(target) => FoundVersionContent(db, c.key, target);
      case Undo(publicId) =>
        var p := FindResolution(db.resolutions, publicId, conflict).value;
        var accepted := db.versions[db.resolutions[p].acceptedVersionId];
        if !db.resolutions[p].request.action.SaveCopy? { FoundVersionContent(db, c.key, accepted.version - 1); }
      case _ =>
    }
  }

  lemma AcceptResolutionKeepsAll(db: Db, conflict: nat, request: ResolutionRequest, source: Source, device: string,
                                 draw: Draw)
    requires DbOk(db) && conflict < |db.conflicts|
    requires source.payload.None? <==> source.tombstone
    requires source.undoes.Some? <==> request.action.Undo?
    requires source.undoes.Some? ==>
               source.undoes.value < |db.resolutions| && db.resolutions[source.undoes.value].conflict == conflict
    requires forall r :: r in db.resolutions ==> r.request.op != request.op
    ensures var db' := AcceptResolution(db, conflict, request, source, device, draw).0;
            DbOk(db') && Grows(db, db')
  {
    GrowsReflexive(db);
    var (db', reply) := AcceptResolution(db, conflict, request, source, device, draw);
    if reply.Ok? {
      var kind := ResolutionKind(request.action, source.tombstone);
      AcceptResolutionShape(db, conflict, request, source, device, draw);
      var mid := Accept(db, source.key, source.payload, source.tombstone, kind, request.op, device, draw);
      hide DbOk, Grows, AcceptResolution, ResolutionKind, Accept;
      AcceptKeepsAll(db, source.key, source.payload, source.tombstone, kind, request.op, device, draw);
      NewResolutionKeepsAll(mid, db', reply.value);
      GrowsTransitive(db, mid, db');
    }
  }

  lemma AcceptResolutionShape(db: Db, conflict: nat, request: ResolutionRequest, source: Source, device: string,
                              draw: Draw)
    requires AcceptResolution(db, conflict, request, source, device, draw).1.Ok?
    ensures var (db', reply) := AcceptResolution(db, conflict, request, source, device, draw);
            var kind := ResolutionKind(request.action, source.tombstone);
            var mid := Accept(db, source.key, source.payload, source.tombstone, kind, request.op, device, draw);
            var r := reply.value;
            && !OpUsed(db.versions, request.op)
            && mid.resolutions == db.resolutions && mid.conflicts == db.conflicts && mid.nextUuid == db.nextUuid
            && db' == mid.(resolutions := mid.resolutions + [r], nextUuid := mid.nextUuid + 1)
            && r.request == request && r.conflict == conflict && r.undoes == source.undoes && r.publicId == db.nextUuid
            && r.acceptedVersionId == |db.versions| < |mid.versions|
            && mid.versions[r.acceptedVersionId].op == request.op
            && mid.versions[r.acceptedVersionId].key == source.key
            && (r.undoes.Some? ==> !Undone(db.resolutions, r.undoes.value))
  {}

  lemma NewResolutionKeepsAll(mid: Db, db': Db, r: ResolutionRow)
    requires DbOk(mid)
    requires db' == mid.(resolutions := mid.resolutions + [r], nextUuid := mid.nextUuid + 1)
    requires r.conflict < |mid.conflicts| && r.acceptedVersionId < |mid.versions| && r.publicId == mid.nextUuid
    requires mid.versions[r.acceptedVersionId].op == r.request.op
    requires r.undoes.Some? <==> r.request.action.Undo?
    requires r.undoes.Some? ==>
               r.undoes.value < |mid.resolutions| && mid.resolutions[r.undoes.value].conflict == r.conflict
    requires r.undoes.Some? ==> !Undone(mid.resolutions, r.undoes.value)
    requires forall x :: x in mid.resolutions ==> x.request.op != r.request.op
    ensures DbOk(db') && Grows(mid, db')
  {
    SameLogSameViews(mid, db');
    hide CoreOk, ConflictsOk, RestoresOk, MaxSequence, SameViews;
    var n := |mid.resolutions|;
    forall i | 0 <= i < |db'.resolutions| ensures ResolutionOk(db', i) {
      if i < n { assert ResolutionOk(mid, i); }
    }
    forall i, j | 0 <= i < j < |db'.resolutions|
      ensures db'.resolutions[i].undoes.Some? ==> db'.resolutions[i].undoes != db'.resolutions[j].undoes
      ensures db'.resolutions[i].request.op != db'.resolutions[j].request.op
      ensures db'.resolutions[i].publicId != db'.resolutions[j].publicId
    {
      assert mid.resolutions[i] in mid.resolutions && ResolutionOk(mid, i);
    }
    assert CoreOk(db') && ConflictsOk(db') && RestoresOk(db') by { SameTablesOk(mid, db'); }
  }

  lemma SameTablesOk(a: Db, b: Db)
    requires CoreOk(a) && ConflictsOk(a)
    requires SameCore(a, b) && b.conflicts == a.conflicts && a.nextUuid <= b.nextUuid
    ensures CoreOk(b) && ConflictsOk(b)
    ensures RestoresOk(a) && b.restores == a.restores ==> RestoresOk(b)
  {}

  lemma ResolveKeepsAll(db: Db, conflictId: Id, request: ResolutionRequest, device: string, draw: Draw)
    requires DbOk(db)
    ensures var db' := Resolve(db, conflictId, request, device, draw).0;
            DbOk(db') && Grows(db, db')
  {
    GrowsReflexive(db);
    var db' := Resolve(db, conflictId, request, device, draw).0;
    hide DbOk, Grows, AcceptResolution, ResolutionSource;
    if db' != db {
      var c := FindConflict(db.conflicts, conflictId).value;
      SourceContent(db, c, request.action);
      var source := ResolutionSource(db, c, request.action).value;
      AcceptResolutionKeepsAll(db, c, request, source, device, draw);
    }
  }

  lemma RestoreKeepsAll(db: Db, request: RestoreRequest, device: string, draw: Draw)
    requires DbOk(db)
    ensures var db' := RestoreTo(db, request, device, draw).0;
            DbOk(db') && Grows(db, db')
  {
    GrowsReflexive(db);
    var (db', reply) := RestoreTo(db, request, device, draw);
    if db' != db {
      FoundVersionContent(db, request.key, request.targetVersion);
      var historic := FindVersion(db.versions, request.key, request.targetVersion).value;
      var kind := AppendKind(historic.tombstone, true);
      var mid := Accept(db, request.key, historic.payload, historic.tombstone, kind, request.op, device, draw);
      AcceptKeepsAll(db, request.key, historic.payload, historic.tombstone, kind, request.op, device, draw);
      assert mid.versions[|db.versions|].op == request.op;
      NewRestoreKeepsAll(mid, db', reply.value);
      hide DbOk, Grows, Accept, RestoreTo;
      GrowsTransitive(db, mid, db');
    }
  }

  lemma NewRestoreKeepsAll(mid: Db, db': Db, r: RestoreRow)
    requires DbOk(mid) && db' == mid.(restores := mid.restores + [r])
    requires r.acceptedVersionId < |mid.versions| && mid.versions[r.acceptedVersionId].op == r.request.op
    requires forall x :: x in mid.restores ==> x.request.op != r.request.op
    ensures DbOk(db') && Grows(mid, db')
  {
    SameLogSameViews(mid, db');
    hide CoreOk, ConflictsOk, MaxSequence, SameViews;
    SameTablesOk(mid, db');
    forall i | 0 <= i < |db'.resolutions| ensures ResolutionOk(db', i) { assert ResolutionOk(mid, i); }
    forall i, j | 0 <= i < j < |db'.restores| ensures db'.restores[i].request.op != db'.restores[j].request.op {
      assert mid.restores[i] in mid.restores;
    }
  }

  // ---------------------------------------------------------------- reads and compaction

  /** Two states that differ in the stream, the devices and generated identifiers only. */
  ghost predicate ReadChange(a: Db, b: Db) {
    b == a.(stream := b.stream, devices := b.devices, nextUuid := b.nextUuid)
    && a.nextUuid <= b.nextUuid
    && (a.stream.Some? ==> b.stream == a.stream)
    && (a.stream.None? ==>
         b.stream.None? || (b.stream.value.horizon == 0 && a.nextUuid <= b.stream.value.epoch < b.nextUuid))
    && forall d :: CursorOf(a, d) <= CursorOf(b, d)
  }

  lemma ReadChangeKeepsAll(a: Db, b: Db)
    requires DbOk(a) && ReadChange(a, b)
    requires b.stream.None? ==> b.devices == map[]
    ensures DbOk(b) && Grows(a, b)
  {
    SameLogSameViews(a, b);
    hide CoreOk, ConflictsOk, MaxSequence, RestoresOk, CursorOf, SameViews;
    SameTablesOk(a, b);
    forall i | 0 <= i < |b.resolutions| ensures ResolutionOk(b, i) { assert ResolutionOk(a, i); }
  }

  lemma TouchKeepsAll(db: Db, device: string, now: Time, allowRecovery: bool)
    requires DbOk(db)
    requires TouchDevice(EnsureStream(db), device, now, allowRecovery).Ok?
    ensures var db' := TouchDevice(EnsureStream(db), device, now, allowRecovery).value;
            && DbOk(db') && Grows(db, db') && ReadChange(db, db') && db'.stream.Some? && device in db'.devices
            && db'.devices[device].cursor == CursorOf(db, device)
            && forall d :: CursorOf(db', d) == CursorOf(db, d)
  {
    var db' := TouchDevice(EnsureStream(db), device, now, allowRecovery).value;
    TouchShape(db, device, now, allowRecovery);
    hide TouchDevice, EnsureStream;
    ReadChangeKeepsAll(db, db');
  }

  lemma TouchShape(db: Db, device: string, now: Time, allowRecovery: bool)
    requires StreamOk(db) && DevicesOk(db)
    requires TouchDevice(EnsureStream(db), device, now, allowRecovery).Ok?
    ensures var db' := TouchDevice(EnsureStream(db), device, now, allowRecovery).value;
            && ReadChange(db, db') && db'.stream.Some? && device in db'.devices
            && db'.devices[device].cursor == CursorOf(db, device)
            && forall d :: CursorOf(db', d) == CursorOf(db, d)
  {}

  lemma PullKeepsAll(db: Db, device: string, cursor: Option<Cursor>, pageSize: int, now: Time)
    requires DbOk(db)
    ensures var db' := Pull(db, device, cursor, pageSize, now).0;
            DbOk(db') && Grows(db, db') && forall d :: CursorOf(db', d) == CursorOf(db, d)
  {
    GrowsReflexive(db);
    var db' := Pull(db, device, cursor, pageSize, now).0;
    hide DbOk, Grows, TouchDevice, EnsureStream;
    if db' != db { TouchKeepsAll(db, device, now, false); }
  }

  lemma SnapshotKeepsAll(db: Db, device: string, cursor: Option<Cursor>, pageSize: int, now: Time)
    requires DbOk(db)
    ensures var db' := SnapshotEntities(db, device, cursor, pageSize, now).0;
            DbOk(db') && Grows(db, db') && forall d :: CursorOf(db', d) == CursorOf(db, d)
  {
    GrowsReflexive(db);
    var db' := SnapshotEntities(db, device, cursor, pageSize, now).0;
    if db' != db {
      TouchKeepsAll(db, device, now, true);
      var touched := TouchDevice(EnsureStream(db), device, now, true).value;
      DrawKeepsAll(touched, db');
      GrowsTransitive(db, touched, db');
    }
  }

  lemma DrawKeepsAll(a: Db, b: Db)
    requires DbOk(a) && b == a.(nextUuid := b.nextUuid) && a.nextUuid <= b.nextUuid
    ensures DbOk(b) && Grows(a, b)
  {
    assert forall d :: CursorOf(a, d) == CursorOf(b, d);
    ReadChangeKeepsAll(a, b);
  }

  /** An acknowledgement moves the device's cursor up, to the sequence its signed cursor names. */
  lemma AcknowledgeKeepsAll(db: Db, device: string, cursor: Cursor, now: Time)
    requires DbOk(db)
    ensures var db' := Acknowledge(db, device, cursor, now).0;
            DbOk(db') && Grows(db, db')
  {
    GrowsReflexive(db);
    var (db', reply) := Acknowledge(db, device, cursor, now);
    if reply.Ok? {
      TouchShape(db, device, now, false);
      hide EnsureStream, TouchDevice;
      assert forall d :: CursorOf(db, d) <= CursorOf(db', d);
      ReadChangeKeepsAll(db, db');
    }
  }

  lemma CompactKeepsAll(db: Db, now: Time, retentionDays: int, apply: bool)
    requires DbOk(db)
    ensures var db' := Compact(db, now, retentionDays, apply).0;
            DbOk(db') && Grows(db, db')
  {
    GrowsReflexive(db);
    var db' := Compact(db, now, retentionDays, apply).0;
    CompactKeepsCore(db, now, retentionDays, apply);
    CompactShape(db, now, retentionDays, apply);
    hide Compact, CoreOk, Grows, DbOk;
    if db' != db {
      forall k, s: nat | HorizonOf(db') <= s <= db.lastSequence ensures ViewAt(db', k, s) == ViewAt(db, k, s) {
        CompactionPreservesMeaning(db, now, retentionDays, apply, k, s);
      }
      hide ViewAt;
      RotationKeepsAll(db, db');
    }
  }

  lemma RotationKeepsAll(a: Db, b: Db)
    requires DbOk(a) && CoreOk(b) && StreamOk(b)
    requires b == a.(stream := b.stream, nextUuid := b.nextUuid, log := b.log)
    requires b.stream.Some? && HorizonOf(a) <= HorizonOf(b) && a.nextUuid <= b.nextUuid
    requires MaxSequence(b.log) == MaxSequence(a.log)
    requires StreamMoves(a, b) && SameViews(a, b)
    ensures DbOk(b) && Grows(a, b)
  {
    hide CoreOk, MaxSequence, SameViews, StreamMoves;
    forall i | 0 <= i < |b.resolutions| ensures ResolutionOk(b, i) { assert ResolutionOk(a, i); }
    assert forall d :: CursorOf(a, d) == CursorOf(b, d);
  }

  // ---------------------------------------------------------------- every run

  lemma StepKeepsAll(db: Db, q: Request)
    requires DbOk(db)
    ensures DbOk(Step(db, q)) && Grows(db, Step(db, q))
  {
    hide DbOk, Grows, Push, Resolve, RestoreTo, Compact, Pull, Acknowledge, SnapshotEntities;
    match q {
      case DoPush(user, device, batch, draws) => PushKeepsAll(db, user, device, batch, draws);
      case DoResolve(conflictId, resolution, device, draw) => ResolveKeepsAll(db, conflictId, resolution, device, draw);
      case DoRestore(restore, device, draw) => RestoreKeepsAll(db, restore, device, draw);
      case DoCompact(now, days, apply) => CompactKeepsAll(db, now, days, apply);
      case DoPull(device, cursor, size, now) => PullKeepsAll(db, device, cursor, size, now);
      case DoAcknowledge(device, cursor, now) => AcknowledgeKeepsAll(db, device, cursor, now);
      case DoSnapshot(device, cursor, size, now) => SnapshotKeepsAll(db, device, cursor, size, now);
    }
  }

  /** Every run keeps the invariant, and alters or loses nothing recorded. */
  lemma {:induction false} RunKeepsAll(db: Db, requests: seq<Request>)
    requires DbOk(db)
    ensures DbOk(Run(db, requests)) && Grows(db, Run(db, requests))
    decreases requests
  {
    hide DbOk, Grows, Step;
    if requests == [] {
      GrowsReflexive(db);
    } else {
      StepKeepsAll(db, requests[0]);
      RunKeepsAll(Step(db, requests[0]), requests[1..]);
      GrowsTransitive(db, Step(db, requests[0]), Run(db, requests));
    }
  }

  lemma EmptyDbOk(owner: Id)
    ensures DbOk(EmptyDb(owner))
  {
    forall k ensures EntityHistoryOk(map[], HistoryOf([], k), k) {}
  }

  /** In every reachable state the log agrees with the projection and every history is hash-chained. */
  lemma ReachableStatesAgree(owner: Id, requests: seq<Request>)
    ensures DbOk(Run(EmptyDb(owner), requests))
  {
    EmptyDbOk(owner);
    RunKeepsAll(EmptyDb(owner), requests);
  }

  /** No run alters a version row that was there: each history only gains rows at its end. */
  lemma HistoryIsImmutable(db: Db, requests: seq<Request>, k: Key)
    requires DbOk(db)
    ensures HistoryOf(db.versions, k) <= HistoryOf(Run(db, requests).versions, k)
  {
    RunKeepsAll(db, requests);
    HistoryGrows(db.versions, Run(db, requests).versions, k);
  }

  /** A device's acknowledged sequence never falls. */
  lemma AcknowledgedNeverFalls(db: Db, requests: seq<Request>, device: string)
    requires DbOk(db)
    ensures CursorOf(db, device) <= CursorOf(Run(db, requests), device)
  {
    RunKeepsAll(db, requests);
  }

  // ---------------------------------------------------------------- lost batches

  /** Before mutation i the batch has settled, and mutation i cannot be recorded. */
  ghost predicate LostAt(db: Db, user: User, device: string, ms: seq<Mutation>, draws: seq<Draw>, i: nat)
    requires i < |ms|
  {
    match PushPrefix(db, user, device, ms, draws, i)
    case None => false
    case Some((before, results)) => CannotBeRecorded(before, user, ms[i], ById(results))
  }

  lemma LostExactlyThere(db: Db, user: User, device: string, ms: seq<Mutation>, draws: seq<Draw>, i: nat)
    requires DbOk(db) && i < |ms| && (forall m :: m in ms ==> ValidMutation(m))
    requires PushPrefix(db, user, device, ms, draws, i).Some?
    ensures PushPrefix(db, user, device, ms, draws, i + 1).None? <==> LostAt(db, user, device, ms, draws, i)
  {
    hide Settle, ValidMutation, Grows, CannotBeRecorded, ConflictsOk, ResolutionsOk, RestoresOk, StreamOk, DevicesOk,
        CoreOk;
    PrefixKeepsAll(db, user, device, ms, draws, i);
    var (before, results) := PushPrefix(db, user, device, ms, draws, i).value;
    PushPrefixStep(db, user, device, ms, draws, i, before, results);
    assert ms[i] in ms;
    SettleFailsExactly(before, user, device, ms[i], ById(results), DrawAt(draws, i));
  }

  lemma {:induction false} FirstLoss(db: Db, user: User, device: string, ms: seq<Mutation>, draws: seq<Draw>, n: nat)
    returns (i: nat)
    requires DbOk(db) && n <= |ms| && (forall m :: m in ms ==> ValidMutation(m))
    requires PushPrefix(db, user, device, ms, draws, n).None?
    ensures i < n && LostAt(db, user, device, ms, draws, i)
  {
    hide DbOk, Settle, ValidMutation, LostAt;
    if PushPrefix(db, user, device, ms, draws, n - 1).None? {
      i := FirstLoss(db, user, device, ms, draws, n - 1);
    } else {
      i := n - 1;
      LostExactlyThere(db, user, device, ms, draws, i);
    }
  }

  /** A push fails on a constraint exactly when it is new and, after some of its mutations settled, meets one that
      cannot be recorded. Its tables are then as they were. */
  lemma PushFailsExactly(db: Db, user: User, device: string, batch: PushRequest, draws: seq<Draw>)
    requires DbOk(db)
    ensures Push(db, user, device, batch, draws).1 == Fail(IntegrityViolation)
            <==> ValidRequest(batch) && batch.protocol == SYNC_PROTOCOL_VERSION && batch.device == device
                 && BatchKey(device, batch.batchId) !in db.batches
                 && exists i: nat :: i < |batch.mutations| && LostAt(db, user, device, batch.mutations, draws, i)
    ensures Push(db, user, device, batch, draws).1.Fail? ==> Push(db, user, device, batch, draws).0 == db
  {
    var ms := batch.mutations;
    if ValidRequest(batch) {
      ValidMutations(batch);
      hide DbOk, ValidRequest, LostAt, PushPrefix;
      if PushPrefix(db, user, device, ms, draws, |ms|).None? {
        var i := FirstLoss(db, user, device, ms, draws, |ms|);
      } else {
        forall i: nat | i < |ms| ensures !LostAt(db, user, device, ms, draws, i) {
          NotLost(db, user, device, ms, draws, i);
        }
      }
    }
  }

  lemma ValidMutations(batch: PushRequest)
    requires ValidRequest(batch)
    ensures forall m :: m in batch.mutations ==> ValidMutation(m)
  {}

  lemma NotLost(db: Db, user: User, device: string, ms: seq<Mutation>, draws: seq<Draw>, i: nat)
    requires DbOk(db) && i < |ms| && (forall m :: m in ms ==> ValidMutation(m))
    requires PushPrefix(db, user, device, ms, draws, |ms|).Some?
    ensures !LostAt(db, user, device, ms, draws, i)
  {
    hide DbOk, ValidMutation, Settle, CannotBeRecorded;
    if PushPrefix(db, user, device, ms, draws, i).Some? {
      LostExactlyThere(db, user, device, ms, draws, i);
      if PushPrefix(db, user, device, ms, draws, i + 1).None? {
        PushPrefixFails(db, user, device, ms, draws, i + 1, |ms|);
      }
    }
  }

  /** Once the newest version of an entity is not a create, it never is again. */
  lemma NewestStaysNoCreate(a: Db, b: Db, k: Key)
    requires DbOk(a) && DbOk(b) && Grows(a, b) && k in a.entities && CloudKind(a, k) != Create
    ensures k in b.entities && CloudKind(b, k) != Create
  {
    HistoryGrows(a.versions, b.versions, k);
    var before, after := HistoryOf(a.versions, k), HistoryOf(b.versions, k);
    assert EntityHistoryOk(a.entities, before, k) && EntityHistoryOk(b.entities, after, k);
    hide HistoryOf, ViewAt, MaxSequence, LatestAt;
    if |after| > |before| {
      assert Follows(after[..|after|-1], after[|after|-1]);
    } else {
      assert after == before;
    }
  }

  /** The retry of a mutation that lost its batch, after any run and by anyone, fails exactly as long as it may be
      tried at all and the stored content is not what it asks for. */
  lemma RetryFailsExactly(db: Db, user: User, device: string, m: Mutation, byId: map<Id, OpResult>, draw: Draw,
                          between: seq<Request>, user': User, device': string, byId': map<Id, OpResult>, draw': Draw)
    requires DbOk(db) && ValidMutation(m) && Settle(db, user, device, m, byId, draw).None?
    ensures var later := Run(db, between);
            Settle(later, user', device', m, byId', draw').None?
            <==> Eligible(later, user', m) && FailedDependencies(m.dependsOn, byId') == [] && !AlreadySo(later, m)
  {
    hide Settle, Grows, Run, ValidMutation, CloudKind, Eligible, AlreadySo, FailedDependencies;
    var later := Run(db, between);
    RunKeepsAll(db, between);
    SettleFailsExactly(db, user, device, m, byId, draw);
    SettleFailsExactly(later, user', device', m, byId', draw');
    NewestStaysNoCreate(db, later, m.key);
  }

  // ---------------------------------------------------------------- replays

  /** A settled batch submitted again, after any run, changes nothing and returns the first answer; the
      same key with other content changes nothing and is refused. */
  lemma PushReplay(db: Db, user: User, device: string, batch: PushRequest, draws: seq<Draw>,
                   between: seq<Request>, user': User, batch': PushRequest, draws': seq<Draw>)
    requires DbOk(db)
    requires Push(db, user, device, batch, draws).1.Ok?
    requires batch'.batchId == batch.batchId
    ensures var later := Run(Push(db, user, device, batch, draws).0, between);
            && Push(later, user', device, batch', draws').0 == later
            && (batch' == batch ==>
                 Push(later, user', device, batch', draws').1 == Push(db, user, device, batch, draws).1)
            && (batch' != batch ==> Push(later, user', device, batch', draws').1.Fail?)
  {
    var settled := Push(db, user, device, batch, draws).0;
    PushKeepsAll(db, user, device, batch, draws);
    RunKeepsAll(settled, between);
    PushRecords(db, user, device, batch, draws);
    var later := Run(settled, between);
    hide DbOk, Run, PushPrefix;
    assert BatchKey(device, batch.batchId) in later.batches;
  }

  lemma PushRecords(db: Db, user: User, device: string, batch: PushRequest, draws: seq<Draw>)
    requires Push(db, user, device, batch, draws).1.Ok?
    ensures var (db', reply) := Push(db, user, device, batch, draws);
            var key := BatchKey(device, batch.batchId);
            && key in db'.batches && db'.batches[key] == Batch(batch, reply.value)
            && ValidRequest(batch) && batch.protocol == SYNC_PROTOCOL_VERSION && batch.device == device
  {
    hide PushPrefix;
  }

  lemma {:induction false} OperationFound(resolutions: seq<ResolutionRow>, i: nat)
    requires i < |resolutions|
    requires forall a, b :: 0 <= a < b < |resolutions| ==> resolutions[a].request.op != resolutions[b].request.op
    ensures FindByOperation(resolutions, resolutions[i].request.op) == Some(i)
  {
    var n := |resolutions| - 1;
    if i < n { OperationFound(resolutions[..n], i); }
  }

  lemma {:induction false} RestoreFound(restores: seq<RestoreRow>, i: nat)
    requires i < |restores|
    requires forall a, b :: 0 <= a < b < |restores| ==> restores[a].request.op != restores[b].request.op
    ensures FindRestore(restores, restores[i].request.op) == Some(i)
  {
    var n := |restores| - 1;
    if i < n { RestoreFound(restores[..n], i); }
  }

  /** A recorded resolution asked for again, after any run, changes nothing and returns the recorded
      decision; its operation with other content, or for another conflict, changes nothing and is refused. */
  lemma ResolutionReplay(db: Db, conflictId: Id, request: ResolutionRequest, device: string, draw: Draw,
                         between: seq<Request>, conflictId': Id, request': ResolutionRequest, device': string,
                         draw': Draw)
    requires DbOk(db)
    requires Resolve(db, conflictId, request, device, draw).1.Ok?
    requires request'.op == request.op
    ensures var later := Run(Resolve(db, conflictId, request, device, draw).0, between);
            && Resolve(later, conflictId', request', device', draw').0 == later
            && (conflictId' == conflictId && request' == request
                ==> Resolve(later, conflictId', request', device', draw').1
                    == Resolve(db, conflictId, request, device, draw).1)
            && (conflictId' != conflictId || request' != request
                ==> Resolve(later, conflictId', request', device', draw').1.Fail?)
  {
    var (settled, reply) := Resolve(db, conflictId, request, device, draw);
    ResolveKeepsAll(db, conflictId, request, device, draw);
    var i := ResolveRecords(db, conflictId, request, device, draw);
    RunKeepsAll(settled, between);
    var later := Run(settled, between);
    assert later.resolutions[i] == settled.resolutions[i];
    assert later.conflicts[reply.value.conflict] == settled.conflicts[reply.value.conflict];
    OperationFound(later.resolutions, i);
  }

  lemma ResolveRecords(db: Db, conflictId: Id, request: ResolutionRequest, device: string, draw: Draw) returns (i: nat)
    requires DbOk(db) && Resolve(db, conflictId, request, device, draw).1.Ok?
    ensures var (db', reply) := Resolve(db, conflictId, request, device, draw);
            && i < |db'.resolutions| && db'.resolutions[i] == reply.value && reply.value.request == request
            && reply.value.conflict < |db'.conflicts| && db'.conflicts[reply.value.conflict].publicId == conflictId
  {
    var replay := FindByOperation(db.resolutions, request.op);
    if replay.Some? {
      i := replay.value;
    } else {
      i := |db.resolutions|;
      var c := FindConflict(db.conflicts, conflictId).value;
      var source := ResolutionSource(db, c, request.action).value;
      AcceptResolutionShape(db, c, request, source, device, draw);
    }
  }

  /** The same for a history restoration. */
  lemma RestoreReplay(db: Db, request: RestoreRequest, device: string, draw: Draw,
                      between: seq<Request>, request': RestoreRequest, device': string, draw': Draw)
    requires DbOk(db)
    requires RestoreTo(db, request, device, draw).1.Ok?
    requires request'.op == request.op
    ensures var later := Run(RestoreTo(db, request, device, draw).0, between);
            && RestoreTo(later, request', device', draw').0 == later
            && (request' == request ==>
                 RestoreTo(later, request', device', draw').1 == RestoreTo(db, request, device, draw).1)
            && (request' != request ==> RestoreTo(later, request', device', draw').1.Fail?)
  {
    var (settled, reply) := RestoreTo(db, request, device, draw);
    RestoreKeepsAll(db, request, device, draw);
    var i := RestoreRecords(db, request, device, draw);
    RunKeepsAll(settled, between);
    var later := Run(settled, between);
    assert later.restores[i] == settled.restores[i];
    RestoreFound(later.restores, i);
    hide CoreOk, Run, FindVersion, Accept;
  }

  lemma RestoreRecords(db: Db, request: RestoreRequest, device: string, draw: Draw) returns (i: nat)
    requires RestoreTo(db, request, device, draw).1.Ok?
    ensures var (db', reply) := RestoreTo(db, request, device, draw);
            i < |db'.restores| && db'.restores[i] == reply.value && reply.value.request == request
  {
    var replay := FindRestore(db.restores, request.op);
    i := if replay.Some? then replay.value else |db.restores|;
  }

  /** Across pushes, resolutions and restorations an operation makes at most one version row, and it is
      the row its decision names. */
  lemma OneVersionPerOperation(owner: Id, requests: seq<Request>, i: nat, j: nat)
    requires var db := Run(EmptyDb(owner), requests);
             i < |db.versions| && j < |db.versions| && db.versions[i].op == db.versions[j].op
    ensures i == j
    ensures var db := Run(EmptyDb(owner), requests);
            && (forall r :: r in db.resolutions && r.request.op == db.versions[i].op ==> r.acceptedVersionId == i)
            && (forall r :: r in db.restores && r.request.op == db.versions[i].op ==> r.acceptedVersionId == i)
  {
    ReachableStatesAgree(owner, requests);
    var db := Run(EmptyDb(owner), requests);
    forall r | r in db.resolutions && r.request.op == db.versions[i].op ensures r.acceptedVersionId == i {
      var n :| 0 <= n < |db.resolutions| && db.resolutions[n] == r;
      assert ResolutionOk(db, n);
    }
  }

  /** No request but an acknowledgement moves a device's cursor. */
  lemma OnlyAcknowledgementsMoveCursors(db: Db, q: Request, device: string)
    requires DbOk(db) && !q.DoAcknowledge?
    ensures CursorOf(Step(db, q), device) == CursorOf(db, device)
  {
    hide DbOk, Push, Resolve, RestoreTo, Compact, Pull, SnapshotEntities;
    match q {
      case DoPush(user, device, batch, draws) => PushKeepsDevices(db, user, device, batch, draws);
      case DoResolve(conflictId, resolution, device, draw) =>
        ResolveKeepsDevices(db, conflictId, resolution, device, draw);
      case DoRestore(restore, device, draw) => RestoreKeepsDevices(db, restore, device, draw);
      case DoCompact(now, days, apply) => CompactKeepsDevices(db, now, days, apply);
      case DoPull(device, cursor, size, now) => PullKeepsAll(db, device, cursor, size, now);
      case DoSnapshot(device, cursor, size, now) => SnapshotKeepsAll(db, device, cursor, size, now);
    }
  }

  lemma PushKeepsDevices(db: Db, user: User, device: string, batch: PushRequest, draws: seq<Draw>)
    ensures Push(db, user, device, batch, draws).0.devices == db.devices
  {
    hide PushPrefix;
    var n := |batch.mutations|;
    if PushPrefix(db, user, device, batch.mutations, draws, n).Some? {
      PrefixKeepsBatches(db, user, device, batch.mutations, draws, n);
    }
  }

  lemma ResolveKeepsDevices(db: Db, conflictId: Id, request: ResolutionRequest, device: string, draw: Draw)
    ensures Resolve(db, conflictId, request, device, draw).0.devices == db.devices
  {
    hide ResolutionSource;
  }

  lemma RestoreKeepsDevices(db: Db, request: RestoreRequest, device: string, draw: Draw)
    ensures RestoreTo(db, request, device, draw).0.devices == db.devices
  {}

  lemma CompactKeepsDevices(db: Db, now: Time, retentionDays: int, apply: bool)
    ensures Compact(db, now, retentionDays, apply).0.devices == db.devices
  {}
}
