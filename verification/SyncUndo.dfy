/** Undo and redo of conflict resolutions, across whatever runs lie between. */
module SyncUndo {
  import opened Wrappers
  import opened SyncTypes
  import opened SyncLog
  import opened SyncHistory
  import opened SyncState
  import opened SyncConflicts
  import opened SyncRuns

  /** A resolution that is recorded now, not answered from an earlier record. */
  ghost predicate Decides(db: Db, conflictId: Id, request: ResolutionRequest, device: string, draw: Draw) {
    FindByOperation(db.resolutions, request.op).None? && Resolve(db, conflictId, request, device, draw).1.Ok?
  }

  /** The version row a resolution accepted. */
  function AcceptedRow(db: Db, r: ResolutionRow): VersionRow
    requires r.acceptedVersionId < |db.versions|
  {
    db.versions[r.acceptedVersionId]
  }

  /** The entities of `b` other than `k` are those of `a`. */
  ghost predicate OnlyChanges(a: Db, b: Db, k: Key) {
    forall x :: x != k ==>
        (x in a.entities <==> x in b.entities) && (x in a.entities ==> a.entities[x] == b.entities[x])
  }

  predicate SameContent(a: Entity, b: Entity) {
    a.payload == b.payload && a.tombstone == b.tombstone
  }

  /** What a decision does: it accepts the source's content as the next version of the source's entity,
      changes no other entity, and records the resolution last. */
  ghost predicate Decided(db: Db, db': Db, r: ResolutionRow, c: nat, request: ResolutionRequest, source: Source) {
    && db'.resolutions == db.resolutions + [r]
    && r.request == request && r.conflict == c && r.undoes == source.undoes
    && r.acceptedVersionId == |db.versions| < |db'.versions|
    && AcceptedRow(db', r).key == source.key
    && AcceptedRow(db', r).version == NextVersion(db, source.key)
    && AcceptedRow(db', r).payload == source.payload && AcceptedRow(db', r).tombstone == source.tombstone
    && source.key in db'.entities
    && db'.entities[source.key].payload == source.payload && db'.entities[source.key].tombstone == source.tombstone
    && db'.entities[source.key].version == NextVersion(db, source.key)
    && OnlyChanges(db, db', source.key)
    && (request.action.SaveCopy? ==> source.key !in db.entities)
  }

  lemma AcceptedIsDecided(db: Db, c: nat, request: ResolutionRequest, source: Source, device: string, draw: Draw)
    requires AcceptResolution(db, c, request, source, device, draw).1.Ok?
    ensures var (db', reply) := AcceptResolution(db, c, request, source, device, draw);
            Decided(db, db', reply.value, c, request, source)
  {}

  lemma DecisionEffect(db: Db, conflictId: Id, request: ResolutionRequest, device: string, draw: Draw)
    returns (c: nat, source: Source)
    requires DbOk(db) && Decides(db, conflictId, request, device, draw)
    ensures FindConflict(db.conflicts, conflictId) == Some(c) && c < |db.conflicts|
    ensures ResolutionSource(db, c, request.action) == Ok(source)
    ensures var (db', reply) := Resolve(db, conflictId, request, device, draw);
            && DbOk(db') && Grows(db, db')
            && Decided(db, db', reply.value, c, request, source)
  {
    ResolveKeepsAll(db, conflictId, request, device, draw);
    hide DbOk, Grows, ResolutionSource, AcceptResolution, Decided;
    c := FindConflict(db.conflicts, conflictId).value;
    source := ResolutionSource(db, c, request.action).value;
    AcceptedIsDecided(db, c, request, source, device, draw);
  }

  lemma {:induction false} ConflictStillFound(conflicts: seq<ConflictRow>, more: seq<ConflictRow>, publicId: Id, c: nat)
    requires FindConflict(conflicts, publicId) == Some(c) && conflicts <= more
    requires forall i, j :: 0 <= i < j < |more| ==> more[i].publicId != more[j].publicId
    ensures FindConflict(more, publicId) == Some(c)
    decreases |more|
  {
    if conflicts != more {
      var n := |more| - 1;
      assert conflicts <= more[..n];
      assert more[c] == conflicts[c];
      ConflictStillFound(conflicts, more[..n], publicId, c);
    }
  }

  lemma {:induction false} ResolutionFoundAt(resolutions: seq<ResolutionRow>, i: nat)
    requires i < |resolutions|
    requires forall a, b :: 0 <= a < b < |resolutions| ==> resolutions[a].publicId != resolutions[b].publicId
    ensures FindResolution(resolutions, resolutions[i].publicId, resolutions[i].conflict) == Some(i)
  {
    var n := |resolutions| - 1;
    if i < n { ResolutionFoundAt(resolutions[..n], i); }
  }

  /** An undo, any time after the resolution it names: the entity it writes and the content it accepts. */
  lemma UndoSourceLater(db: Db, conflictId: Id, first: ResolutionRequest, device: string, draw: Draw,
                        between: seq<Request>, undo: ResolutionRequest, device': string, draw': Draw)
    returns (c: nat, source: Source)
    requires DbOk(db) && Decides(db, conflictId, first, device, draw)
    requires var later := Run(Resolve(db, conflictId, first, device, draw).0, between);
             && Decides(later, conflictId, undo, device', draw')
             && undo.action == Undo(Resolve(db, conflictId, first, device, draw).1.value.publicId)
    ensures var (after, reply) := Resolve(db, conflictId, first, device, draw);
            var accepted := AcceptedRow(after, reply.value);
            var later := Run(after, between);
            && DbOk(later) && Grows(after, later)
            && c < |later.conflicts|
               && FindConflict(db.conflicts, conflictId) == Some(c) == FindConflict(later.conflicts, conflictId)
            && ResolutionSource(later, c, undo.action) == Ok(source)
            && (if first.action.SaveCopy? then source == Source(accepted.key, None, true, Some(|db.resolutions|))
                else var row := FindVersion(later.versions, later.conflicts[c].key, accepted.version - 1);
                     row.Some? && source == Source(later.conflicts[c].key, row.value.payload, row.value.tombstone,
                                                   Some(|db.resolutions|)))
  {
    hide DbOk, CoreOk, Resolve, Run, FindVersion, LatestResolution, OnlyChanges;
    var (after, reply) := Resolve(db, conflictId, first, device, draw);
    var c0, source0 := DecisionEffect(db, conflictId, first, device, draw);
    RunKeepsAll(after, between);
    var later := Run(after, between);
    c, source := DecisionEffect(later, conflictId, undo, device', draw');
    AuditFound(db, after, later, conflictId, c0);
    assert later.versions[reply.value.acceptedVersionId] == AcceptedRow(after, reply.value);
  }

  /** In a later state the conflict and the last resolution are found where they were. */
  lemma AuditFound(db: Db, after: Db, later: Db, conflictId: Id, c: nat)
    requires DbOk(later) && Grows(db, after) && Grows(after, later)
    requires FindConflict(db.conflicts, conflictId) == Some(c)
    requires |after.resolutions| == |db.resolutions| + 1 && after.resolutions[|db.resolutions|].conflict == c
    ensures FindConflict(later.conflicts, conflictId) == Some(c)
    ensures var p := |db.resolutions|;
            p < |later.resolutions| && later.resolutions[p] == after.resolutions[p]
            && FindResolution(later.resolutions, after.resolutions[p].publicId, c) == Some(p)
  {
    hide CoreOk, ResolutionOk, ConflictRowOk, MaxSequence;
    ConflictStillFound(db.conflicts, later.conflicts, conflictId, c);
    ResolutionFoundAt(later.resolutions, |db.resolutions|);
  }

  /** Did the recorded resolution accept a version of its conflict's own entity? */
  predicate WritesItsConflict(outcome: (Db, Reply<ResolutionRow>)) {
    && outcome.1.Ok?
    && outcome.1.value.conflict < |outcome.0.conflicts| && outcome.1.value.acceptedVersionId < |outcome.0.versions|
    && AcceptedRow(outcome.0, outcome.1.value).key == outcome.0.conflicts[outcome.1.value.conflict].key
  }

  /** Only a saveCopy, or the undo of one, writes another entity than its conflict's. */
  lemma OwnEntity(db: Db, conflictId: Id, first: ResolutionRequest, device: string, draw: Draw)
    requires DbOk(db) && Decides(db, conflictId, first, device, draw)
    requires !first.action.SaveCopy? && !first.action.Undo?
    ensures WritesItsConflict(Resolve(db, conflictId, first, device, draw))
  {
    var (after, reply) := Resolve(db, conflictId, first, device, draw);
    hide DbOk, Resolve, Grows, ResolutionSource, OnlyChanges;
    var c, source := DecisionEffect(db, conflictId, first, device, draw);
    ConflictKept(db, after, c);
    SourceOfOwn(db, c, first.action);
  }

  lemma ConflictKept(a: Db, b: Db, c: nat)
    requires Grows(a, b) && c < |a.conflicts|
    ensures c < |b.conflicts| && b.conflicts[c] == a.conflicts[c]
  {}

  lemma SourceOfOwn(db: Db, c: nat, action: Action)
    requires c < |db.conflicts| && ResolutionSource(db, c, action).Ok? && !action.SaveCopy? && !action.Undo?
    ensures ResolutionSource(db, c, action).value.key == db.conflicts[c].key
  {}

  /** Undoing the latest resolution gives its entity the content the entity had just before that
      resolution, whatever happened since; no other entity changes. The resolution must not have been a
      saveCopy or the undo of one. */
  lemma UndoRestoresContent(db: Db, conflictId: Id, first: ResolutionRequest, device: string, draw: Draw,
                            between: seq<Request>, undo: ResolutionRequest, device': string, draw': Draw)
    requires DbOk(db) && Decides(db, conflictId, first, device, draw)
    requires var later := Run(Resolve(db, conflictId, first, device, draw).0, between);
             && Decides(later, conflictId, undo, device', draw')
             && undo.action == Undo(Resolve(db, conflictId, first, device, draw).1.value.publicId)
    requires !first.action.SaveCopy?
    requires first.action.Undo? ==> WritesItsConflict(Resolve(db, conflictId, first, device, draw))
    ensures var (after, reply) := Resolve(db, conflictId, first, device, draw);
            var later := Run(after, between);
            var undone := Resolve(later, conflictId, undo, device', draw').0;
            && reply.value.acceptedVersionId < |after.versions|
            && var k := AcceptedRow(after, reply.value).key;
            && k in db.entities && k in undone.entities
            && SameContent(undone.entities[k], db.entities[k])
            && OnlyChanges(later, undone, k)
  {
    hide DbOk, Resolve, Run, FindVersion, ResolutionSource, OnlyChanges;
    var (after, reply) := Resolve(db, conflictId, first, device, draw);
    var later := Run(after, between);
    var c0, source0 := DecisionEffect(db, conflictId, first, device, draw);
    var c, source := UndoSourceLater(db, conflictId, first, device, draw, between, undo, device', draw');
    var c', source' := DecisionEffect(later, conflictId, undo, device', draw');
    assert after.conflicts[c0] == db.conflicts[c0] == later.conflicts[c0];
    if !first.action.Undo? { OwnEntity(db, conflictId, first, device, draw); }
    ConflictEntityExists(db, c0);
    PredecessorContent(db, later, source0.key);
  }

  lemma ConflictEntityExists(db: Db, c: nat)
    requires DbOk(db) && c < |db.conflicts|
    ensures db.conflicts[c].key in db.entities
  {
    assert db.conflicts[c] in db.conflicts;
  }

  /** The version before the next one is, in every later state, the entity as it is now. */
  lemma PredecessorContent(db: Db, later: Db, k: Key)
    requires DbOk(db) && DbOk(later) && db.versions <= later.versions && k in db.entities
    ensures var row := FindVersion(later.versions, k, NextVersion(db, k) - 1);
            row.Some? && row.value.payload == db.entities[k].payload && row.value.tombstone == db.entities[k].tombstone
  {
    assert EntityHistoryOk(db.entities, HistoryOf(db.versions, k), k);
    assert EntityHistoryOk(later.entities, HistoryOf(later.versions, k), k);
    HistoryGrows(db.versions, later.versions, k);
    FindVersionInChain(later.versions, k, NextVersion(db, k) - 1);
  }

  /** Undoing a saveCopy tombstones the copy and changes nothing else. */
  lemma UndoOfSaveCopy(db: Db, conflictId: Id, first: ResolutionRequest, device: string, draw: Draw,
                       between: seq<Request>, undo: ResolutionRequest, device': string, draw': Draw)
    requires DbOk(db) && Decides(db, conflictId, first, device, draw)
    requires var later := Run(Resolve(db, conflictId, first, device, draw).0, between);
             && Decides(later, conflictId, undo, device', draw')
             && undo.action == Undo(Resolve(db, conflictId, first, device, draw).1.value.publicId)
    requires first.action.SaveCopy?
    ensures var (after, reply) := Resolve(db, conflictId, first, device, draw);
            var later := Run(after, between);
            var undone := Resolve(later, conflictId, undo, device', draw').0;
            && reply.value.conflict < |db.conflicts|
            && var copy := Key(db.conflicts[reply.value.conflict].key.kind, first.action.newEntityId);
            && copy !in db.entities
            && copy in undone.entities && undone.entities[copy].tombstone && undone.entities[copy].payload == None
            && OnlyChanges(later, undone, copy)
  {
    hide DbOk, Grows, Resolve, Run, FindVersion, UndoSource, OnlyChanges;
    var (after, reply) := Resolve(db, conflictId, first, device, draw);
    var c0, source0 := DecisionEffect(db, conflictId, first, device, draw);
    var c, source := UndoSourceLater(db, conflictId, first, device, draw, between, undo, device', draw');
    var c', source' := DecisionEffect(Run(after, between), conflictId, undo, device', draw');
  }

  /** An undo of a resolution that wrote its conflict's own entity, and was no saveCopy, writes it too. */
  lemma UndoWritesItsConflict(db: Db, conflictId: Id, first: ResolutionRequest, device: string, draw: Draw,
                              between: seq<Request>, undo: ResolutionRequest, device': string, draw': Draw)
    requires DbOk(db) && Decides(db, conflictId, first, device, draw) && !first.action.SaveCopy?
    requires var later := Run(Resolve(db, conflictId, first, device, draw).0, between);
             && Decides(later, conflictId, undo, device', draw')
             && undo.action == Undo(Resolve(db, conflictId, first, device, draw).1.value.publicId)
    ensures var later := Run(Resolve(db, conflictId, first, device, draw).0, between);
            && WritesItsConflict(Resolve(later, conflictId, undo, device', draw'))
            && var undone := Resolve(later, conflictId, undo, device', draw');
               FindConflict(db.conflicts, conflictId).Some? &&
               undone.1.value.conflict == FindConflict(db.conflicts, conflictId).value
  {
    hide DbOk, Resolve, Run, FindVersion, ResolutionSource, OnlyChanges;
    var (after, reply) := Resolve(db, conflictId, first, device, draw);
    var later := Run(after, between);
    var c, source := UndoSourceLater(db, conflictId, first, device, draw, between, undo, device', draw');
    var c', source' := DecisionEffect(later, conflictId, undo, device', draw');
    var undone := Resolve(later, conflictId, undo, device', draw').0;
    assert undone.conflicts[c] == later.conflicts[c];
  }

  /** Undo and redo. A resolution is undone while its entity still is what the resolution accepted, and later
      that undo is undone: the entity has the content the resolution accepted. */
  lemma UndoTwiceRedoes(db: Db, conflictId: Id, first: ResolutionRequest, device: string, draw: Draw,
                        between: seq<Request>, undo: ResolutionRequest, device': string, draw': Draw,
                        between': seq<Request>, redo: ResolutionRequest, device'': string, draw'': Draw)
    requires DbOk(db) && Decides(db, conflictId, first, device, draw)
    requires !first.action.SaveCopy? && !first.action.Undo?
    requires var (after, reply) := Resolve(db, conflictId, first, device, draw);
             var later := Run(after, between);
             && Decides(later, conflictId, undo, device', draw') && undo.action == Undo(reply.value.publicId)
             && reply.value.acceptedVersionId < |after.versions|
             && var k := AcceptedRow(after, reply.value).key;
             k in after.entities && k in later.entities && later.entities[k] == after.entities[k]
    requires var later := Run(Resolve(db, conflictId, first, device, draw).0, between);
             var (undone, reply) := Resolve(later, conflictId, undo, device', draw');
             && Decides(Run(undone, between'), conflictId, redo, device'', draw'')
             && redo.action == Undo(reply.value.publicId)
    ensures var (after, reply) := Resolve(db, conflictId, first, device, draw);
            var undone := Resolve(Run(after, between), conflictId, undo, device', draw').0;
            var redone := Resolve(Run(undone, between'), conflictId, redo, device'', draw'').0;
            var accepted := AcceptedRow(after, reply.value);
            && accepted.key in redone.entities
            && redone.entities[accepted.key].payload == accepted.payload
            && redone.entities[accepted.key].tombstone == accepted.tombstone
  {
    hide DbOk, Resolve, Run, FindVersion, ResolutionSource, OnlyChanges;
    var (after, reply) := Resolve(db, conflictId, first, device, draw);
    var later := Run(after, between);
    var c, source := DecisionEffect(db, conflictId, first, device, draw);
    OwnEntity(db, conflictId, first, device, draw);
    RunKeepsAll(after, between);
    UndoWritesItsConflict(db, conflictId, first, device, draw, between, undo, device', draw');
    UndoRestoresContent(later, conflictId, undo, device', draw', between', redo, device'', draw'');
    var (undone, reply') := Resolve(later, conflictId, undo, device', draw');
    var c', source' := DecisionEffect(later, conflictId, undo, device', draw');
    ConflictKept(db, after, c);
    ConflictKept(after, later, c);
    ConflictKept(later, undone, c);
  }

  /** Where the promise fails. Undoing the undo of a saveCopy reads and writes the conflict's entity, not the
      copy: the copy stays as it is, and the conflict's entity falls back to an early version. The entity that
      the first undo wrote has, after the second, the content it had before the first exactly when that entity
      is the conflict's own, or when it had that content already before the second undo. */
  lemma UndoOfUndoExactly(db: Db, conflictId: Id, first: ResolutionRequest, device: string, draw: Draw,
                          between: seq<Request>, undo: ResolutionRequest, device': string, draw': Draw)
    requires DbOk(db) && Decides(db, conflictId, first, device, draw) && first.action.Undo?
    requires var (after, reply) := Resolve(db, conflictId, first, device, draw);
             && Decides(Run(after, between), conflictId, undo, device', draw')
             && undo.action == Undo(reply.value.publicId)
    ensures var (after, reply) := Resolve(db, conflictId, first, device, draw);
            var later := Run(after, between);
            var undone := Resolve(later, conflictId, undo, device', draw').0;
            && reply.value.acceptedVersionId < |after.versions| && reply.value.conflict < |after.conflicts|
            && var k := AcceptedRow(after, reply.value).key;
            && k in db.entities && k in later.entities && k in undone.entities
            && (SameContent(undone.entities[k], db.entities[k])
                <==> k == after.conflicts[reply.value.conflict].key || SameContent(later.entities[k], db.entities[k]))
            && (k != after.conflicts[reply.value.conflict].key ==> undone.entities[k] == later.entities[k])
  {
    hide DbOk, Grows, Resolve, Run, FindVersion, ResolutionSource, OnlyChanges;
    var (after, reply) := Resolve(db, conflictId, first, device, draw);
    var later := Run(after, between);
    var c0, source0 := DecisionEffect(db, conflictId, first, device, draw);
    RunKeepsAll(after, between);
    UndoWritesItsConflict(db, conflictId, first, device, draw, between, undo, device', draw');
    UndoWritesExisting(db, c0, first.action);
    ConflictKept(db, after, c0);
    var k := AcceptedRow(after, reply.value).key;
    EntitiesStay(after, later, k);
    var c', source' := DecisionEffect(later, conflictId, undo, device', draw');
    ConflictKept(after, later, c0);
    ConflictKept(later, Resolve(later, conflictId, undo, device', draw').0, c0);
    if k == after.conflicts[c0].key {
      UndoRestoresContent(db, conflictId, first, device, draw, between, undo, device', draw');
    } else {
      OtherEntity(later, Resolve(later, conflictId, undo, device', draw').0, after.conflicts[c0].key, k);
    }
  }

  lemma OtherEntity(a: Db, b: Db, written: Key, k: Key)
    requires OnlyChanges(a, b, written) && k != written && k in a.entities
    ensures k in b.entities && b.entities[k] == a.entities[k]
  {}

  lemma EntitiesStay(a: Db, b: Db, k: Key)
    requires Grows(a, b) && k in a.entities
    ensures k in b.entities
  {}

  /** At once, with no call between the two undos: the content is given back exactly when the first undo wrote
      the conflict's own entity or there was no content to give back. */
  lemma UndoOfUndoAtOnce(db: Db, conflictId: Id, first: ResolutionRequest, device: string, draw: Draw,
                         undo: ResolutionRequest, device': string, draw': Draw)
    requires DbOk(db) && Decides(db, conflictId, first, device, draw) && first.action.Undo?
    requires var (after, reply) := Resolve(db, conflictId, first, device, draw);
             Decides(after, conflictId, undo, device', draw') && undo.action == Undo(reply.value.publicId)
    ensures var (after, reply) := Resolve(db, conflictId, first, device, draw);
            var undone := Resolve(after, conflictId, undo, device', draw').0;
            && reply.value.acceptedVersionId < |after.versions| && reply.value.conflict < |after.conflicts|
            && var k := AcceptedRow(after, reply.value).key;
            && k in db.entities && k in undone.entities
            && (SameContent(undone.entities[k], db.entities[k])
                <==> k == after.conflicts[reply.value.conflict].key || db.entities[k].tombstone)
  {
    hide DbOk, Grows, Resolve, FindVersion, ResolutionSource, OnlyChanges;
    var (after, reply) := Resolve(db, conflictId, first, device, draw);
    assert Run(after, []) == after;
    UndoOfUndoExactly(db, conflictId, first, device, draw, [], undo, device', draw');
    var c0, source0 := DecisionEffect(db, conflictId, first, device, draw);
    UndoWritesExisting(db, c0, first.action);
    EntityIsContent(db, source0.key);
    ConflictKept(db, after, c0);
  }

  lemma EntityIsContent(db: Db, k: Key)
    requires DbOk(db) && k in db.entities
    ensures db.entities[k].payload.None? <==> db.entities[k].tombstone
  {
    EntityContent(db, k);
  }

  /** An undo writes an entity that exists; when that is not the conflict's own, it accepts a tombstone. */
  lemma UndoWritesExisting(db: Db, c: nat, action: Action)
    requires DbOk(db) && c < |db.conflicts| && action.Undo? && ResolutionSource(db, c, action).Ok?
    ensures var s := ResolutionSource(db, c, action).value;
            s.key in db.entities && (s.key != db.conflicts[c].key ==> s.tombstone && s.payload == None)
  {
    assert db.conflicts[c] in db.conflicts;
  }
}
