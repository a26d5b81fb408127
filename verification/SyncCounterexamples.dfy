/** Runs from an empty server on which two attractive promises fail. The exact conditions are proved as
    `SyncPushProofs.SettleFailsExactly` and `SyncUndo.UndoOfUndoExactly`. */
module SyncCounterexamples {
  import opened Wrappers
  import opened SyncTypes
  import opened SyncLog
  import opened SyncHistory
  import opened SyncState
  import opened ConflictRules
  import opened SyncConflicts
  import opened SyncPush
  import opened SyncRuns

  const QUESTION := Key(Question, 7)
  const COPY := Key(Question, 8)
  const FIRST := Payload(Absent, "first")
  const SECOND := Payload(Absent, "second")
  const NOW := Draw(0, 0)
  const AUTHOR := User(true, true)
  const DEVICE := "phone"

  function Batch1(batchId: Id, m: Mutation): Request {
    DoPush(AUTHOR, DEVICE, PushRequest(1, batchId, DEVICE, [m]), [NOW])
  }

  const CREATE := Mutation(0, QUESTION, Create, None, None, Some(FIRST), [])
  const EDIT := Mutation(1, QUESTION, Update, Some(1), Some(Digest(Some(FIRST))), Some(SECOND), [])
  const CREATE_AGAIN := Mutation(2, QUESTION, Create, None, None, Some(FIRST), [])
  const STALE_EDIT := Mutation(1, QUESTION, Update, Some(1), Some(Foreign("stale")), Some(SECOND), [])

  /** A push of one mutation is its settlement, recorded. */
  lemma PushOne(db: Db, batchId: Id, m: Mutation)
    requires ValidMutation(m) && m.dependsOn == [] && BatchKey(DEVICE, batchId) !in db.batches
    ensures match Settle(db, AUTHOR, DEVICE, m, map[], NOW)
            case None => Step(db, Batch1(batchId, m)) == db
            case Some((after, r)) =>
              Step(db, Batch1(batchId, m)) ==
                var batch := Batch(PushRequest(1, batchId, DEVICE, [m]), [r]);
                after.(batches := after.batches[BatchKey(DEVICE, batchId) := batch])
  {
    hide Settle, ValidMutation;
    var ms, draws := [m], [NOW];
    assert PushPrefix(db, AUTHOR, DEVICE, ms, draws, 0) == Some((db, []));
    assert DrawAt(draws, 0) == NOW && ById([]) == map[];
    var settled := Settle(db, AUTHOR, DEVICE, m, map[], NOW);
    if settled.Some? {
      assert [] + [settled.value.1] == [settled.value.1];
      assert PushPrefix(db, AUTHOR, DEVICE, ms, draws, 1) == Some((settled.value.0, [settled.value.1]));
    } else {
      assert PushPrefix(db, AUTHOR, DEVICE, ms, draws, 1) == None;
    }
    assert GraphOk(ms);
    assert ValidRequest(PushRequest(1, batchId, DEVICE, ms));
  }

  lemma SettleWrite(db: Db, m: Mutation)
    requires m.dependsOn == [] && ApplyMutation(db, AUTHOR, DEVICE, m, NOW) == Write(db, DEVICE, m, NOW)
    requires Write(db, DEVICE, m, NOW).Done? && m.op !in db.opResults
    ensures var written := Write(db, DEVICE, m, NOW);
            Settle(db, AUTHOR, DEVICE, m, map[], NOW) == Some((AddResult(written.db, written.result), written.result))
  {
    hide ApplyMutation;
  }

  function Row(k: Key, version: nat, payload: Option<Payload>, kind: MutationKind, op: Id, baseVersion: Option<nat>,
               baseHash: Option<Hash>): VersionRow {
    VersionRow(k, version, Digest(payload), payload, payload.None?, kind, op, baseVersion, baseHash, DEVICE, 0)
  }

  const ROW1 := Row(QUESTION, 1, Some(FIRST), Create, 0, None, None)

  /** After the create: one entity at version one. */
  ghost predicate Created(db: Db) {
    && db.entities == map[QUESTION := Entity(1, Digest(Some(FIRST)), Some(FIRST), false)]
    && db.versions == [ROW1]
    && db.conflicts == [] && db.resolutions == [] && db.nextUuid == 0
    && db.opResults.Keys == {0} && db.batches.Keys == {BatchKey(DEVICE, 0)}
  }

  lemma AfterCreate()
    ensures Created(Step(EmptyDb(0), Batch1(0, CREATE)))
  {
    var db := EmptyDb(0);
    assert Write(db, DEVICE, CREATE, NOW).Done?;
    SettleWrite(db, CREATE);
    PushOne(db, 0, CREATE);
    hide Step;
  }

  const ROW2 := Row(QUESTION, 2, Some(SECOND), Update, 1, Some(1), Some(Digest(Some(FIRST))))

  lemma AfterEdit(db: Db)
    requires Created(db)
    ensures var after := Step(db, Batch1(1, EDIT));
            && after.entities == map[QUESTION := Entity(2, Digest(Some(SECOND)), Some(SECOND), false)]
            && after.versions == [ROW1, ROW2] && after.opResults.Keys == {0, 1}
            && after.batches.Keys == {BatchKey(DEVICE, 0), BatchKey(DEVICE, 1)}
  {
    EditWrites(db);
    SettleWrite(db, EDIT);
    PushOne(db, 1, EDIT);
    hide Step, Write, ApplyMutation, Settle;
  }

  lemma EditWrites(db: Db)
    requires Created(db)
    ensures EDIT.op !in db.opResults && ApplyMutation(db, AUTHOR, DEVICE, EDIT, NOW) == Write(db, DEVICE, EDIT, NOW)
    ensures Write(db, DEVICE, EDIT, NOW).Done?
    ensures var a := Write(db, DEVICE, EDIT, NOW);
            && a.db.entities == map[QUESTION := Entity(2, Digest(Some(SECOND)), Some(SECOND), false)]
            && a.db.versions == [ROW1, ROW2] && a.result.op == 1
            && a.db.opResults == db.opResults && a.db.batches == db.batches
  {
    assert !OpUsed(db.versions, 1) && FindVersion(db.versions, QUESTION, 2).None? by {
      assert [ROW1][..0] == [];
    }
    hide OpUsed, FindVersion, CreateConflict;
  }

  /** A create of other content over a question that was edited since: its batch is refused and leaves no trace,
      and so does a retry at once. When a later retry fails is SyncRuns.RetryFailsExactly. */
  lemma CreateOverAnEditLosesItsBatch()
    ensures var db := Run(EmptyDb(0), [Batch1(0, CREATE), Batch1(1, EDIT)]);
            && Settle(db, AUTHOR, DEVICE, CREATE_AGAIN, map[], NOW).None?
            && Step(db, Batch1(2, CREATE_AGAIN)) == db
               == Step(Step(db, Batch1(2, CREATE_AGAIN)), Batch1(2, CREATE_AGAIN))
  {
    var run := [Batch1(0, CREATE), Batch1(1, EDIT)];
    AfterCreate();
    var created := Step(EmptyDb(0), run[0]);
    AfterEdit(created);
    var db := Step(created, run[1]);
    hide Step, Created;
    RunTwo(EmptyDb(0), run[0], run[1]);
    hide Run;
    NewestIsAnEdit(db);
    assert CreateConflict(db, DEVICE, CREATE_AGAIN, NOW).Refused?;
    assert ApplyMutation(db, AUTHOR, DEVICE, CREATE_AGAIN, NOW).Refused?;
    PushOne(db, 2, CREATE_AGAIN);
  }

  lemma RunTwo(db: Db, a: Request, b: Request)
    ensures Run(db, [a, b]) == Step(Step(db, a), b)
  {
    hide Step;
    assert [a, b][1..] == [b] && [b][1..] == [];
    assert Run(Step(db, a), [b]) == Run(Step(Step(db, a), b), []);
  }

  lemma NewestIsAnEdit(db: Db)
    requires db.versions == [ROW1, ROW2] && QUESTION in db.entities
    ensures CloudKind(db, QUESTION) == Update
  {
    assert db.versions[..1] == [ROW1];
    HistoryAppend([ROW1], ROW2, QUESTION);
    assert [ROW1] + [ROW2] == db.versions;
  }

  // ---------------------------------------------------------------- undoing an undone copy

  function Decide(op: Id, action: Action): Request {
    DoResolve(0, ResolutionRequest(op, action, 1, Digest(Some(FIRST)), None), DEVICE, NOW)
  }

  const SAVE_COPY := Decide(2, SaveCopy(8))
  const UNDO_COPY := Decide(3, Undo(1))
  const UNDO_AGAIN := Decide(4, Undo(2))

  const QUESTION_NOW := Entity(1, Digest(Some(FIRST)), Some(FIRST), false)
  const COPY_ROW := Row(COPY, 1, Some(SECOND), Create, 2, None, None)
  const COPY_GONE := Row(COPY, 2, None, Delete, 3, Some(1), Some(Digest(Some(SECOND))))

  /** One open conflict over the question: the stale edit against the created version. */
  ghost predicate Disputed(db: Db) {
    && db.entities == map[QUESTION := QUESTION_NOW] && db.versions == [ROW1]
    && |db.conflicts| == 1 && db.conflicts[0].publicId == 0 && db.conflicts[0].key == QUESTION
    && db.conflicts[0].local.payload == Some(SECOND) && !db.conflicts[0].local.tombstone
    && db.resolutions == [] && db.nextUuid == 1
  }

  lemma AfterStaleEdit(db: Db)
    requires Created(db)
    ensures Disputed(Step(db, Batch1(1, STALE_EDIT)))
  {
    assert CloudKind(db, QUESTION) == Create by {
      HistoryAppend([], ROW1, QUESTION);
      assert [] + [ROW1] == db.versions;
    }
    assert FindVersion(db.versions, QUESTION, 1) == Some(ROW1);
    assert CreateConflict(db, DEVICE, STALE_EDIT, NOW).Done?;
    assert ApplyMutation(db, AUTHOR, DEVICE, STALE_EDIT, NOW) == CreateConflict(db, DEVICE, STALE_EDIT, NOW);
    var done := CreateConflict(db, DEVICE, STALE_EDIT, NOW);
    hide ApplyMutation, CreateConflict;
    assert Settle(db, AUTHOR, DEVICE, STALE_EDIT, map[], NOW) == Some((AddResult(done.db, done.result), done.result));
    PushOne(db, 1, STALE_EDIT);
    hide Step;
  }

  ghost predicate Copied(db: Db) {
    && db.entities == map[QUESTION := QUESTION_NOW, COPY := Entity(1, Digest(Some(SECOND)), Some(SECOND), false)]
    && db.versions == [ROW1, COPY_ROW]
    && |db.conflicts| == 1 && db.conflicts[0].publicId == 0 && db.conflicts[0].key == QUESTION
    && |db.resolutions| == 1 && db.nextUuid == 2
    && var r := db.resolutions[0];
       && r.publicId == 1 && r.conflict == 0 && r.request.op == 2 && r.request.action == SaveCopy(8)
       && r.acceptedVersionId == 1 && r.undoes == None && r.resolvedAt == 0
  }

  lemma OneConflict(db: Db)
    requires |db.conflicts| == 1 && db.conflicts[0].publicId == 0
    ensures FindConflict(db.conflicts, 0) == Some(0)
  {}

  lemma AfterSaveCopy(db: Db)
    requires Disputed(db)
    ensures Copied(Step(db, SAVE_COPY))
  {
    OneConflict(db);
    assert !OpUsed(db.versions, 2) && FindVersion(db.versions, COPY, 1).None? by { assert [ROW1][..0] == []; }
    assert [ROW1] + [COPY_ROW] == [ROW1, COPY_ROW];
  }

  ghost predicate CopyUndone(db: Db) {
    && db.entities == map[QUESTION := QUESTION_NOW, COPY := Entity(2, Digest(None), None, true)]
    && db.versions == [ROW1, COPY_ROW, COPY_GONE]
    && |db.conflicts| == 1 && db.conflicts[0].publicId == 0 && db.conflicts[0].key == QUESTION
    && |db.resolutions| == 2 && db.nextUuid == 3
    && db.resolutions[0].request.op == 2 && db.resolutions[0].undoes == None
    && db.resolutions[0].conflict == 0 && db.resolutions[0].resolvedAt == 0
    && var r := db.resolutions[1];
       && r.publicId == 2 && r.conflict == 0 && r.request.op == 3 && r.request.action == Undo(1)
       && r.acceptedVersionId == 2 && r.undoes == Some(0) && r.resolvedAt == 0
  }

  /** The last of the resolutions is the latest one of its conflict when no other is later. */
  lemma LastIsLatest(resolutions: seq<ResolutionRow>)
    requires resolutions != []
             && forall i :: 0 <= i < |resolutions| ==> resolutions[i].resolvedAt == 0 && resolutions[i].conflict == 0
    ensures LatestResolution(resolutions, 0) == Some(|resolutions| - 1)
    ensures FindResolution(resolutions, resolutions[|resolutions|-1].publicId, 0) == Some(|resolutions| - 1)
  {}

  lemma {:induction false} OpsApart(resolutions: seq<ResolutionRow>, op: Id)
    requires forall i :: 0 <= i < |resolutions| ==> resolutions[i].request.op != op
    ensures FindByOperation(resolutions, op).None?
  {
    if resolutions != [] { OpsApart(resolutions[..|resolutions|-1], op); }
  }

  lemma FindAppended(versions: seq<VersionRow>, row: VersionRow, k: Key, version: int)
    ensures FindVersion(versions + [row], k, version)
         == if row.key == k && row.version == version then Some(row) else FindVersion(versions, k, version)
  {
    assert (versions + [row])[..|versions|] == versions;
  }

  /** Lookups in the three versions the run writes. */
  lemma FindAmongThree(k: Key, version: int)
    ensures FindVersion([ROW1, COPY_ROW], k, version)
         == if k == COPY && version == 1 then Some(COPY_ROW)
            else if k == QUESTION && version == 1 then Some(ROW1) else None
    ensures FindVersion([ROW1, COPY_ROW, COPY_GONE], k, version)
         == if k == COPY && version == 2 then Some(COPY_GONE) else FindVersion([ROW1, COPY_ROW], k, version)
  {
    assert [] + [ROW1] == [ROW1] && [ROW1] + [COPY_ROW] == [ROW1, COPY_ROW]
        && [ROW1, COPY_ROW] + [COPY_GONE] == [ROW1, COPY_ROW, COPY_GONE];
    FindAppended([], ROW1, k, version);
    FindAppended([ROW1], COPY_ROW, k, version);
    FindAppended([ROW1, COPY_ROW], COPY_GONE, k, version);
  }

  lemma AfterUndo(db: Db)
    requires Copied(db)
    ensures CopyUndone(Step(db, UNDO_COPY))
  {
    OneConflict(db);
    OpsApart(db.resolutions, 3);
    LastIsLatest(db.resolutions);
    hide FindConflict, FindByOperation, LatestResolution, FindResolution;
    var source := Source(COPY, None, true, Some(0));
    assert UndoSource(db, 0, 1) == Ok(source);
    FindAmongThree(COPY, 2);
    assert !OpUsed(db.versions, 3) && !Undone(db.resolutions, 0);
    assert [ROW1, COPY_ROW] + [COPY_GONE] == [ROW1, COPY_ROW, COPY_GONE];
    hide FindVersion, OpUsed, UndoSource;
    assert Step(db, UNDO_COPY) == AcceptResolution(db, 0, UNDO_COPY.resolution, source, DEVICE, NOW).0;
  }

  /** Undoing the undo of a saveCopy leaves the copy deleted and writes the question instead. */
  lemma UndoOfUndoneCopyMisses()
    ensures var before := Run(EmptyDb(0), [Batch1(0, CREATE), Batch1(1, STALE_EDIT), SAVE_COPY]);
            var after := Run(before, [UNDO_COPY, UNDO_AGAIN]);
            && COPY in before.entities && !before.entities[COPY].tombstone
            && COPY in after.entities && after.entities[COPY].tombstone
            && QUESTION in before.entities && before.entities[QUESTION].version == 1
            && QUESTION in after.entities && after.entities[QUESTION].version == 2
  {
    var start := EmptyDb(0);
    AfterCreate();
    var created := Step(start, Batch1(0, CREATE));
    AfterStaleEdit(created);
    var disputed := Step(created, Batch1(1, STALE_EDIT));
    AfterSaveCopy(disputed);
    var before := Step(disputed, SAVE_COPY);
    AfterUndo(before);
    var undone := Step(before, UNDO_COPY);
    AfterUndoAgain(undone);
    hide Step, Created, Disputed;
    RunThree(start, Batch1(0, CREATE), Batch1(1, STALE_EDIT), SAVE_COPY);
    RunTwo(before, UNDO_COPY, UNDO_AGAIN);
  }

  lemma AfterUndoAgain(db: Db)
    requires CopyUndone(db)
    ensures var after := Step(db, UNDO_AGAIN);
            && COPY in after.entities && after.entities[COPY] == db.entities[COPY]
            && QUESTION in after.entities && after.entities[QUESTION].version == 2
  {
    OneConflict(db);
    OpsApart(db.resolutions, 4);
    LastIsLatest(db.resolutions);
    hide FindConflict, FindByOperation, LatestResolution, FindResolution;
    FindAmongThree(QUESTION, 1);
    FindAmongThree(QUESTION, 2);
    hide FindVersion;
    var source := Source(QUESTION, Some(FIRST), false, Some(1));
    assert UndoSource(db, 0, 2) == Ok(source);
    assert !OpUsed(db.versions, 4) && !Undone(db.resolutions, 1);
    hide OpUsed, UndoSource;
    assert Step(db, UNDO_AGAIN) == AcceptResolution(db, 0, UNDO_AGAIN.resolution, source, DEVICE, NOW).0;
  }

  lemma RunThree(db: Db, a: Request, b: Request, c: Request)
    ensures Run(db, [a, b, c]) == Step(Step(Step(db, a), b), c)
  {
    hide Step;
    assert [a, b, c][1..] == [b, c];
    RunTwo(Step(db, a), b, c);
  }
}
