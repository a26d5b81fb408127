/** Conflicts keep both candidates of a divergence; resolutions, undos and restores append versions. */
module SyncConflicts {
  import opened Wrappers
  import opened SyncTypes
  import opened SyncLog
  import opened SyncHistory
  import opened SyncState
  import opened SyncStore
  import opened ConflictRules

  /** The outcome of work inside a savepoint: new tables and a result, or a refused constraint. */
  datatype Attempt = Done(db: Db, result: OpResult) | Refused

  function NoopResult(op: Id, e: Entity): OpResult {
    OpResult(op, Noop, Some(e.version), Some(e.hash), None, [], None)
  }

  /** The content a mutation asks for: none for a delete. */
  function Desired(m: Mutation): Option<Payload> {
    if m.kind == Delete then None else m.payload
  }

  // ---------------------------------------------------------------- conflicts

  function CloudKind(db: Db, k: Key): MutationKind
    requires k in db.entities
  {
    var history := HistoryOf(db.versions, k);
    if history != [] then history[|history|-1].kind else if db.entities[k].tombstone then Delete else Update
  }

  function CloudDevice(db: Db, k: Key): string {
    var history := HistoryOf(db.versions, k);
    if history != [] then history[|history|-1].device else "cloud"
  }

  function SnapshotOf(row: VersionRow): Snapshot {
    Snapshot(row.version, row.hash, row.kind, row.tombstone, row.payload, row.device, row.createdAt)
  }

  function BaseSnapshot(db: Db, m: Mutation): Option<Snapshot> {
    if m.baseVersion.None? then None
    else
      match FindVersion(db.versions, m.key, m.baseVersion.value)
      case None => None
      case Some(row) => Some(SnapshotOf(row))
  }

  function LocalSnapshot(m: Mutation, device: string, now: Time): Snapshot {
    Snapshot((if m.baseVersion.Some? then m.baseVersion.value else 0) + 1, Digest(Desired(m)), m.kind,
             m.kind == Delete, Desired(m), device, now)
  }

  /** The modification time of a projection is the time of its newest version. */
  function CloudSnapshot(db: Db, k: Key, now: Time): Snapshot
    requires k in db.entities
  {
    var e := db.entities[k];
    var history := HistoryOf(db.versions, k);
    Snapshot(e.version, e.hash, CloudKind(db, k), e.tombstone, e.payload, CloudDevice(db, k),
             if history != [] then history[|history|-1].createdAt else now)
  }

  /** The table's check: exactly a concurrent create has a null baseline. */
  predicate BaselineOk(reason: Reason, base: Option<Snapshot>) {
    reason == ConcurrentCreate <==> base.None?
  }

  function CreateConflict(db: Db, device: string, m: Mutation, draw: Draw): Attempt
    requires m.key in db.entities
  {
    var e := db.entities[m.key];
    match Classify(m.kind, CloudKind(db, m.key), Digest(Desired(m)), e.hash)
    case None => Done(db, NoopResult(m.op, e))
    case Some(reason) =>
      var base := BaseSnapshot(db, m);
      if !BaselineOk(reason, base) then Refused
      else
        var conflict := ConflictRow(db.nextUuid, m.key, reason, base, LocalSnapshot(m, device, draw.now),
                                    CloudSnapshot(db, m.key, draw.now), draw.now);
        Done(db.(conflicts := db.conflicts + [conflict], nextUuid := db.nextUuid + 1),
             OpResult(m.op, Conflicted, Some(e.version), Some(e.hash), Some(conflict.publicId), [], Some(Conflicting)))
  }

  method CreateConflictIn(store: Store, device: string, m: Mutation, draw: Draw) returns (result: Option<OpResult>)
    requires m.key in store.entities
    modifies store
    ensures match CreateConflict(old(store.View()), device, m, draw)
            case Done(db, r) => store.View() == db && result == Some(r)
            case Refused => store.View() == old(store.View()) && result == None
  {
    var db := store.View();
    var entity := store.entities[m.key];
    var reason := Classify(m.kind, CloudKind(db, m.key), Digest(Desired(m)), entity.hash);
    if reason.None? { return Some(NoopResult(m.op, entity)); }
    var base := BaseSnapshot(db, m);
    if !BaselineOk(reason.value, base) { return None; }
    var publicId := store.NewUuid();
    store.conflicts := store.conflicts + [
      ConflictRow(publicId, m.key, reason.value, base, LocalSnapshot(m, device, draw.now),
                  CloudSnapshot(db, m.key, draw.now), draw.now)];
    result := Some(OpResult(m.op, Conflicted, Some(entity.version), Some(entity.hash), Some(publicId), [],
                            Some(Conflicting)));
  }

  // ---------------------------------------------------------------- lookups

  function FindConflict(conflicts: seq<ConflictRow>, publicId: Id): (i: Option<nat>)
    ensures i.Some? ==> i.value < |conflicts| && conflicts[i.value].publicId == publicId
  {
    if conflicts == [] then None
    else if conflicts[|conflicts|-1].publicId == publicId then Some(|conflicts| - 1)
    else FindConflict(conflicts[..|conflicts|-1], publicId)
  }

  function FindByOperation(resolutions: seq<ResolutionRow>, op: Id): (i: Option<nat>)
    ensures i.Some? ==> i.value < |resolutions| && resolutions[i.value].request.op == op
    ensures i.None? ==> forall r :: r in resolutions ==> r.request.op != op
  {
    if resolutions == [] then None
    else
      var n := |resolutions| - 1;
      assert resolutions == resolutions[..n] + [resolutions[n]];
      if resolutions[n].request.op == op then Some(n) else FindByOperation(resolutions[..n], op)
  }

  function FindResolution(resolutions: seq<ResolutionRow>, publicId: Id, conflict: nat): (i: Option<nat>)
    ensures i.Some? ==> i.value < |resolutions| && resolutions[i.value].publicId == publicId
                        && resolutions[i.value].conflict == conflict
  {
    if resolutions == [] then None
    else
      var n := |resolutions| - 1;
      if resolutions[n].publicId == publicId && resolutions[n].conflict == conflict then Some(n)
      else FindResolution(resolutions[..n], publicId, conflict)
  }

  /** The conflict's resolution with the greatest (time, row identity). */
  function LatestResolution(resolutions: seq<ResolutionRow>, conflict: nat): (i: Option<nat>)
    ensures i.Some? ==> i.value < |resolutions| && resolutions[i.value].conflict == conflict
  {
    if resolutions == [] then None
    else
      var n := |resolutions| - 1;
      var earlier := LatestResolution(resolutions[..n], conflict);
      if resolutions[n].conflict == conflict
         && (earlier.None? || resolutions[earlier.value].resolvedAt <= resolutions[n].resolvedAt)
      then Some(n) else earlier
  }

  predicate Undone(resolutions: seq<ResolutionRow>, i: nat) {
    exists r :: r in resolutions && r.undoes == Some(i)
  }

  function FindRestore(restores: seq<RestoreRow>, op: Id): (i: Option<nat>)
    ensures i.Some? ==> i.value < |restores| && restores[i.value].request.op == op
    ensures i.None? ==> forall r :: r in restores ==> r.request.op != op
  {
    if restores == [] then None
    else
      var n := |restores| - 1;
      assert restores == restores[..n] + [restores[n]];
      if restores[n].request.op == op then Some(n) else FindRestore(restores[..n], op)
  }

  // ---------------------------------------------------------------- resolutions

  /** The content a resolution accepts and the entity it accepts it for; an undo names what it undoes. */
  datatype Source = Source(key: Key, payload: Option<Payload>, tombstone: bool, undoes: Option<nat>)

  function UndoSource(db: Db, conflict: nat, publicId: Id): Reply<Source>
    requires conflict < |db.conflicts|
  {
    var k := db.conflicts[conflict].key;
    match FindResolution(db.resolutions, publicId, conflict)
    case None => Fail(EntityNotFound)
    case Some(p) =>
      var prior := db.resolutions[p];
      if LatestResolution(db.resolutions, conflict) != Some(p) then Fail(Conflicting)
      else if prior.acceptedVersionId >= |db.versions| then Fail(IntegrityViolation)  // excluded by a foreign key
      else
        var accepted := db.versions[prior.acceptedVersionId];
        if prior.request.action.SaveCopy? then
          if accepted.key in db.entities && db.entities[accepted.key].version == accepted.version
             && db.entities[accepted.key].hash == accepted.hash
          then Ok(Source(accepted.key, None, true, Some(p)))
          else Fail(Conflicting)
        else
          match FindVersion(db.versions, k, accepted.version - 1)
          case None => Fail(Conflicting)
          case Some(before) => Ok(Source(k, before.payload, before.tombstone, Some(p)))
  }

  function ResolutionSource(db: Db, conflict: nat, action: Action): Reply<Source>
    requires conflict < |db.conflicts|
  {
    var c := db.conflicts[conflict];
    match action
    case KeepLocal => Ok(Source(c.key, c.local.payload, c.local.tombstone, None))
    case UseCloud => Ok(Source(c.key, c.cloud.payload, c.cloud.tombstone, None))
    case SaveCopy(id) => Ok(Source(Key(c.key.kind, id), c.local.payload, c.local.tombstone, None))
    case ManualMerge(merged) => Ok(Source(c.key, Some(merged), false, None))
    case RestoreVersion(target) =>
      (match FindVersion(db.versions, c.key, target)
       case None => Fail(EntityNotFound)
       case Some(row) => Ok(Source(c.key, row.payload, row.tombstone, None)))
    case Undo(publicId) => UndoSource(db, conflict, publicId)
  }

  function AppendKind(tombstone: bool, restoring: bool): MutationKind {
    if tombstone then Delete else if restoring then Restore else Update
  }

  function ResolutionKind(action: Action, tombstone: bool): MutationKind {
    if action.SaveCopy? then Create else AppendKind(tombstone, action.RestoreVersion? || action.Undo?)
  }

  /** The write of an accepted resolution, or the constraint that refuses it. */
  function AcceptResolution(db: Db, conflict: nat, request: ResolutionRequest, source: Source, device: string,
                            draw: Draw)
    : (Db, Reply<ResolutionRow>)
  {
    var kind := ResolutionKind(request.action, source.tombstone);
    var row := NextRow(db, source.key, source.payload, source.tombstone, kind, request.op, device, draw.now);
    if request.action.SaveCopy? && source.key in db.entities then (db, Fail(IntegrityViolation))
    else if !Admissible(db.versions, row) then (db, Fail(IntegrityViolation))
    else if source.undoes.Some? && Undone(db.resolutions, source.undoes.value) then (db, Fail(IntegrityViolation))
    else
      var written := Accept(db, source.key, source.payload, source.tombstone, kind, request.op, device, draw);
      var resolution := ResolutionRow(
        db.nextUuid, conflict, request, device, |db.versions|,
        SnapshotOf(row), source.undoes, draw.now);
      (written.(resolutions := written.resolutions + [resolution], nextUuid := db.nextUuid + 1), Ok(resolution))
  }

  function Resolve(db: Db, conflictId: Id, request: ResolutionRequest, device: string, draw: Draw)
    : (Db, Reply<ResolutionRow>)
  {
    match FindByOperation(db.resolutions, request.op)
    case Some(i) =>
      var row := db.resolutions[i];
      (db, if row.conflict < |db.conflicts| && db.conflicts[row.conflict].publicId == conflictId
          && row.request == request
           then Ok(row) else Fail(IdempotencyMismatch))
    case None =>
      match FindConflict(db.conflicts, conflictId)
      case None => (db, Fail(EntityNotFound))
      case Some(c) =>
        var k := db.conflicts[c].key;
        if k !in db.entities then (db, Fail(IntegrityViolation))  // excluded by a foreign key
        else if db.entities[k].version != request.currentVersion || db.entities[k].hash != request.currentHash then
          (db, Fail(Conflicting))
        else
          match ResolutionSource(db, c, request.action)
          case Fail(error) => (db, Fail(error))
          case Ok(source) => AcceptResolution(db, c, request, source, device, draw)
  }

  // ---------------------------------------------------------------- history restoration

  function RestoreTo(db: Db, request: RestoreRequest, device: string, draw: Draw): (Db, Reply<RestoreRow>) {
    match FindRestore(db.restores, request.op)
    case Some(i) =>
      (db, if db.restores[i].request == request then Ok(db.restores[i]) else Fail(IdempotencyMismatch))
    case None =>
      if request.key !in db.entities then (db, Fail(EntityNotFound))
      else if db.entities[request.key].version != request.currentVersion
              || db.entities[request.key].hash != request.currentHash then (db, Fail(Conflicting))
      else
        match FindVersion(db.versions, request.key, request.targetVersion)
        case None => (db, Fail(EntityNotFound))
        case Some(historic) =>
          var kind := AppendKind(historic.tombstone, true);
          var row := NextRow(db, request.key, historic.payload, historic.tombstone, kind, request.op, device, draw.now);
          if !Admissible(db.versions, row) then (db, Fail(IntegrityViolation))
          else
            var written :=
              Accept(db, request.key, historic.payload, historic.tombstone, kind, request.op, device, draw);
            var restore := RestoreRow(request, |db.versions|, device, draw.now);
            (written.(restores := written.restores + [restore]), Ok(restore))
  }

  // ---------------------------------------------------------------- the services

  /** Append the next version of an existing entity and publish it; None is a constraint violation. */
  method AppendVersion(store: Store, k: Key, payload: Option<Payload>, tombstone: bool, op: Id, restoring: bool,
                       device: string, draw: Draw)
    returns (id: Option<nat>)
    requires k in store.entities
    modifies store
    ensures var db := old(store.View());
            var kind := AppendKind(tombstone, restoring);
            if Admissible(db.versions, NextRow(db, k, payload, tombstone, kind, op, device, draw.now))
            then id == Some(|db.versions|) && store.View() == Accept(db, k, payload, tombstone, kind, op, device, draw)
            else id == None
  {
    var entity := store.entities[k];
    var baseVersion, baseHash := entity.version, entity.hash;
    var contentHash := Digest(payload);
    entity := entity.(version := entity.version + 1);
    entity := entity.(hash := contentHash);
    entity := entity.(payload := payload);
    entity := entity.(tombstone := tombstone);
    store.entities := store.entities[k := entity];
    var kind := if tombstone then Delete else if restoring then Restore else Update;
    id := store.AddVersion(VersionRow(k, entity.version, contentHash, payload, tombstone, kind, op,
                                      Some(baseVersion), Some(baseHash), device, draw.now));
    if id.Some? { store.AddLogRow(id.value, draw.skip); }
  }

  /** Insert the copy a saveCopy resolution asks for, with its first version. */
  method InsertCopy(store: Store, k: Key, payload: Option<Payload>, tombstone: bool, op: Id, device: string, draw: Draw)
    returns (id: Option<nat>)
    modifies store
    ensures var db := old(store.View());
            if k !in db.entities
                && Admissible(db.versions, NextRow(db, k, payload, tombstone, Create, op, device, draw.now))
            then id == Some(|db.versions|)
                && store.View() == Accept(db, k, payload, tombstone, Create, op, device, draw)
            else id == None
  {
    if k in store.entities { return None; }
    store.entities := store.entities[k := Entity(1, Digest(payload), payload, tombstone)];
    id := store.AddVersion(
      VersionRow(k, 1, Digest(payload), payload, tombstone, Create, op, None, None, device, draw.now));
    if id.Some? { store.AddLogRow(id.value, draw.skip); }
  }

  method ResolveConflict(store: Store, conflictId: Id, request: ResolutionRequest, device: string, draw: Draw)
    returns (reply: Reply<ResolutionRow>)
    modifies store
    ensures (store.View(), reply) == Resolve(old(store.View()), conflictId, request, device, draw)
  {
    var before := store.View();
    var replay := FindByOperation(store.resolutions, request.op);
    if replay.Some? {
      var row := store.resolutions[replay.value];
      if row.conflict >= |store.conflicts| || store.conflicts[row.conflict].publicId != conflictId
          || row.request != request {
        return Fail(IdempotencyMismatch);
      }
      return Ok(row);
    }
    var found := FindConflict(store.conflicts, conflictId);
    if found.None? { return Fail(EntityNotFound); }
    var conflict := store.conflicts[found.value];
    if conflict.key !in store.entities { return Fail(IntegrityViolation); }
    var entity := store.entities[conflict.key];
    if entity.version != request.currentVersion || entity.hash != request.currentHash { return Fail(Conflicting); }
    var chosen := ResolutionSource(before, found.value, request.action);
    if chosen.Fail? { return Fail(chosen.error); }
    var source := chosen.value;
    var id: Option<nat>;
    if request.action.SaveCopy? {
      id := InsertCopy(store, source.key, source.payload, source.tombstone, request.op, device, draw);
    } else {
      SourceExists(before, found.value, request.action);
      id := AppendVersion(store, source.key, source.payload, source.tombstone, request.op,
                          request.action.RestoreVersion? || request.action.Undo?, device, draw);
    }
    if id.None? || (source.undoes.Some? && Undone(store.resolutions, source.undoes.value)) {
      store.Rollback(before);
      return Fail(IntegrityViolation);
    }
    var publicId := store.NewUuid();
    var resolution := ResolutionRow(publicId, found.value, request, device, id.value,
                                    SnapshotOf(store.versions[id.value]), source.undoes, draw.now);
    store.resolutions := store.resolutions + [resolution];
    reply := Ok(resolution);
  }

  lemma SourceExists(db: Db, conflict: nat, action: Action)
    requires conflict < |db.conflicts| && db.conflicts[conflict].key in db.entities
    requires ResolutionSource(db, conflict, action).Ok? && !action.SaveCopy?
    ensures ResolutionSource(db, conflict, action).value.key in db.entities
  {}

  method RestoreVersionOf(store: Store, request: RestoreRequest, device: string, draw: Draw)
    returns (reply: Reply<RestoreRow>)
    modifies store
    ensures (store.View(), reply) == RestoreTo(old(store.View()), request, device, draw)
  {
    var before := store.View();
    var replay := FindRestore(store.restores, request.op);
    if replay.Some? {
      var row := store.restores[replay.value];
      return if row.request != request then Fail(IdempotencyMismatch) else Ok(row);
    }
    if request.key !in store.entities { return Fail(EntityNotFound); }
    var entity := store.entities[request.key];
    if entity.version != request.currentVersion || entity.hash != request.currentHash { return Fail(Conflicting); }
    var historic := FindVersion(store.versions, request.key, request.targetVersion);
    if historic.None? { return Fail(EntityNotFound); }
    var id := AppendVersion(store, request.key, historic.value.payload, historic.value.tombstone, request.op, true,
                            device, draw);
    if id.None? {
      store.Rollback(before);
      return Fail(IntegrityViolation);
    }
    var restore := RestoreRow(request, id.value, device, draw.now);
    store.restores := store.restores + [restore];
    reply := Ok(restore);
  }
}
