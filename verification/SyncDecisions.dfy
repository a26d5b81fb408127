/** From a push to the decision about the conflict it recorded: whose content the entity ends with. */
module SyncDecisions {
  import opened Wrappers
  import opened SyncTypes
  import opened SyncHistory
  import opened SyncState
  import opened ConflictRules
  import opened SyncConflicts
  import opened SyncPush
  import opened SyncPushProofs
  import opened SyncRuns
  import opened SyncUndo

  // ---------------------------------------------------------------- what a push records

  /** The device's side of a conflict is what the mutation asks for. */
  ghost predicate LocalSide(s: Snapshot, device: string, m: Mutation, now: Time) {
    && s.payload == m.payload && s.hash == Digest(m.payload) && s.tombstone == (m.kind == Delete) && s.kind == m.kind
    && s.version == (if m.baseVersion.Some? then m.baseVersion.value + 1 else 1) && s.device == device
       && s.modifiedAt == now
  }

  /** The server's side is the entity as stored, with who made its newest version and when. */
  ghost predicate CloudSide(s: Snapshot, e: Entity, history: seq<VersionRow>) {
    && s.payload == e.payload && s.hash == e.hash && s.tombstone == e.tombstone
       && s.version == e.version == |history| > 0
    && var newest := history[|history|-1];
       s.kind == newest.kind && s.device == newest.device && s.modifiedAt == newest.createdAt
  }

  /** A base is there exactly when the mutation names one, and is that version of the entity. */
  ghost predicate BaseSide(base: Option<Snapshot>, m: Mutation, history: seq<VersionRow>) {
    if m.kind == Create then base == None
    else
      && m.baseVersion.Some? && 1 <= m.baseVersion.value <= |history|
      && var row := history[m.baseVersion.value-1];
         base == Some(Snapshot(row.version, row.hash, row.kind, row.tombstone, row.payload, row.device, row.createdAt))
  }

  /** Two creates that met, else the gravest thing either side did: a deletion, a restoration, a new name, an edit. */
  ghost predicate ReasonFits(reason: Reason, ours: MutationKind, theirs: MutationKind) {
    var either := {ours, theirs};
    && (reason == ConcurrentCreate <==> ours == Create)
    && (reason == TombstoneDivergence <==> ours != Create && Delete in either)
    && (reason == RestoreDivergence <==> ours != Create && Delete !in either && Restore in either)
    && (reason == RenameDivergence <==> ours != Create && either !! {Delete, Restore} && Rename in either)
    && (reason == DivergentContent <==> ours != Create && either !! {Delete, Restore, Rename})
  }

  /** The row that a mutation which found other content leaves behind. */
  ghost predicate Records(db: Db, c: ConflictRow, device: string, m: Mutation, now: Time) {
    && c.key == m.key && m.key in db.entities && c.detectedAt == now
    && LocalSide(c.local, device, m, now)
    && CloudSide(c.cloud, db.entities[m.key], HistoryOf(db.versions, m.key))
    && BaseSide(c.base, m, HistoryOf(db.versions, m.key))
    && ReasonFits(c.reason, m.kind, c.cloud.kind)
  }

  lemma ConflictParts(db: Db, device: string, m: Mutation, draw: Draw)
    requires m.key in db.entities
    requires CreateConflict(db, device, m, draw).Done? && CreateConflict(db, device, m, draw).result.conflictId.Some?
    ensures var a := CreateConflict(db, device, m, draw);
            && |a.db.conflicts| == |db.conflicts| + 1 && a.db.conflicts[..|db.conflicts|] == db.conflicts
            && var c := a.db.conflicts[|db.conflicts|];
               && a.result.conflictId == Some(c.publicId) && c.key == m.key && c.detectedAt == draw.now
               && Classify(m.kind, CloudKind(db, m.key), Digest(Desired(m)), db.entities[m.key].hash) == Some(c.reason)
               && c.base == BaseSnapshot(db, m) && BaselineOk(c.reason, c.base)
               && c.local == LocalSnapshot(m, device, draw.now) && c.cloud == CloudSnapshot(db, m.key, draw.now)
  {
    hide Classify, CloudKind, BaseSnapshot, BaselineOk, LocalSnapshot, CloudSnapshot;
  }

  lemma LocalIsOurs(m: Mutation, device: string, now: Time)
    requires ValidMutation(m)
    ensures LocalSide(LocalSnapshot(m, device, now), device, m, now)
  {}

  lemma CloudIsStored(db: Db, k: Key, now: Time)
    requires CoreOk(db) && k in db.entities
    ensures CloudSide(CloudSnapshot(db, k, now), db.entities[k], HistoryOf(db.versions, k))
    ensures CloudSnapshot(db, k, now).kind == CloudKind(db, k)
  {
    assert EntityHistoryOk(db.entities, HistoryOf(db.versions, k), k);
    hide CoreOk, HistoryOf;
  }

  lemma BaseIsNamed(db: Db, m: Mutation, reason: Reason)
    requires CoreOk(db) && ValidMutation(m) && m.key in db.entities
    requires BaselineOk(reason, BaseSnapshot(db, m)) && (reason == ConcurrentCreate ==> m.kind == Create)
    ensures BaseSide(BaseSnapshot(db, m), m, HistoryOf(db.versions, m.key))
    ensures reason == ConcurrentCreate <==> m.kind == Create
  {
    assert EntityHistoryOk(db.entities, HistoryOf(db.versions, m.key), m.key);
    if m.baseVersion.Some? { FindVersionInChain(db.versions, m.key, m.baseVersion.value); }
    hide CoreOk, HistoryOf, FindVersion, EntityHistoryOk;
  }

  lemma ReasonIsGravest(ours: MutationKind, theirs: MutationKind, local: Hash, cloud: Hash)
    ensures match Classify(ours, theirs, local, cloud)
            case None => local == cloud
            case Some(reason) =>
              && local != cloud && (reason == ConcurrentCreate <==> ours == Create && theirs == Create)
              && ((ours == Create ==> theirs == Create) ==> ReasonFits(reason, ours, theirs))
  {}

  /** A recorded conflict keeps both sides, the base the mutation names, and why they differ. */
  lemma ConflictIsRecorded(db: Db, device: string, m: Mutation, draw: Draw)
    requires CoreOk(db) && ValidMutation(m) && m.key in db.entities
    requires CreateConflict(db, device, m, draw).Done? && CreateConflict(db, device, m, draw).result.conflictId.Some?
    ensures var a := CreateConflict(db, device, m, draw);
            && |a.db.conflicts| == |db.conflicts| + 1 && a.db.conflicts[..|db.conflicts|] == db.conflicts
            && var c := a.db.conflicts[|db.conflicts|];
               a.result.conflictId == Some(c.publicId) && Records(db, c, device, m, draw.now)
  {
    ConflictParts(db, device, m, draw);
    hide CreateConflict, CoreOk, ValidMutation, BaselineOk, ReasonFits, LocalSide, CloudSide, BaseSide;
    hide BaseSnapshot, LocalSnapshot, CloudSnapshot, CloudKind;
    var c := CreateConflict(db, device, m, draw).db.conflicts[|db.conflicts|];
    ReasonIsGravest(m.kind, CloudKind(db, m.key), Digest(Desired(m)), db.entities[m.key].hash);
    hide Classify;
    LocalIsOurs(m, device, draw.now);
    CloudIsStored(db, m.key, draw.now);
    BaseIsNamed(db, m, c.reason);
  }

  lemma OnlyConflictsAreNamed(db: Db, user: User, device: string, m: Mutation, draw: Draw)
    requires ApplyMutation(db, user, device, m, draw).Done?
    requires ApplyMutation(db, user, device, m, draw).result.conflictId.Some?
    ensures m.key in db.entities && CreateConflict(db, device, m, draw) == ApplyMutation(db, user, device, m, draw)
  {
    hide CreateConflict, CanMutate;
  }

  lemma SettleRecords(db: Db, user: User, device: string, m: Mutation, byId: map<Id, OpResult>, draw: Draw)
    requires CoreOk(db) && ValidMutation(m) && Settle(db, user, device, m, byId, draw).Some?
    requires Settle(db, user, device, m, byId, draw).value.1.conflictId.Some?
    ensures var (db', r) := Settle(db, user, device, m, byId, draw).value;
            && |db'.conflicts| == |db.conflicts| + 1 && db'.conflicts[..|db.conflicts|] == db.conflicts
            && var c := db'.conflicts[|db.conflicts|];
               r.conflictId == Some(c.publicId) && Records(db, c, device, m, draw.now)
  {
    hide CoreOk, CreateConflict, Records, ApplyMutation, ValidMutation, FailedDependencies;
    var attempt := ApplyMutation(db, user, device, m, draw);
    if attempt.Done? && attempt.result.conflictId.Some? { OnlyConflictsAreNamed(db, user, device, m, draw); }
    if m.key in db.entities && CreateConflict(db, device, m, draw).Done?
       && CreateConflict(db, device, m, draw).result.conflictId.Some? {
      ConflictIsRecorded(db, device, m, draw);
    }
  }

  // ---------------------------------------------------------------- the conflict after its push

  lemma {:induction false} PrefixGrows(db: Db, user: User, device: string, ms: seq<Mutation>, draws: seq<Draw>,
                                       i: nat, n: nat)
    requires DbOk(db) && i <= n <= |ms| && (forall m :: m in ms ==> ValidMutation(m))
    requires PushPrefix(db, user, device, ms, draws, n).Some?
    ensures PushPrefix(db, user, device, ms, draws, i).Some?
    ensures Grows(PushPrefix(db, user, device, ms, draws, i).value.0,
            PushPrefix(db, user, device, ms, draws, n).value.0)
  {
    hide Settle, DbOk, Grows, ValidMutation;
    if i == n {
      GrowsReflexive(PushPrefix(db, user, device, ms, draws, i).value.0);
    } else {
      PrefixGrows(db, user, device, ms, draws, i, n - 1);
      PrefixKeepsAll(db, user, device, ms, draws, n - 1);
      var (before, results) := PushPrefix(db, user, device, ms, draws, n - 1).value;
      assert ms[n-1] in ms;
      SettleKeepsAll(before, user, device, ms[n-1], ById(results), DrawAt(draws, n - 1));
      GrowsTransitive(PushPrefix(db, user, device, ms, draws, i).value.0, before,
                      PushPrefix(db, user, device, ms, draws, n).value.0);
    }
  }

  /** A push that was not answered from an earlier record. */
  ghost predicate Pushes(db: Db, user: User, device: string, batch: PushRequest, draws: seq<Draw>) {
    BatchKey(device, batch.batchId) !in db.batches && Push(db, user, device, batch, draws).1.Ok?
  }

  /** The tables as operation i of the batch found them. */
  function Found(db: Db, user: User, device: string, batch: PushRequest, draws: seq<Draw>, i: nat): Db
    requires i <= |batch.mutations| && PushPrefix(db, user, device, batch.mutations, draws, i).Some?
  {
    PushPrefix(db, user, device, batch.mutations, draws, i).value.0
  }

  lemma PushedBatch(db: Db, user: User, device: string, batch: PushRequest, draws: seq<Draw>)
    requires DbOk(db) && Pushes(db, user, device, batch, draws)
    ensures ValidRequest(batch)
    ensures var n := |batch.mutations|;
            var (pushed, reply) := Push(db, user, device, batch, draws);
            PushPrefix(db, user, device, batch.mutations, draws, n).Some?
            && var (settled, results) := PushPrefix(db, user, device, batch.mutations, draws, n).value;
               && reply == Ok(results) && pushed.conflicts == settled.conflicts && DbOk(pushed)
  {
    hide DbOk, PushPrefix, ValidRequest, Grows;
    PushKeepsAll(db, user, device, batch, draws);
  }

  /** What a push names as a conflict, it recorded: the row is in its tables. */
  lemma PushRecords(db: Db, user: User, device: string, batch: PushRequest, draws: seq<Draw>, i: nat)
    returns (c: nat)
    requires DbOk(db) && Pushes(db, user, device, batch, draws)
    requires var results := Push(db, user, device, batch, draws).1.value; i < |results| && results[i].conflictId.Some?
    ensures i < |batch.mutations| && PushPrefix(db, user, device, batch.mutations, draws, i).Some?
    ensures var (pushed, reply) := Push(db, user, device, batch, draws);
            && DbOk(pushed) && c < |pushed.conflicts| && reply.value[i].conflictId == Some(pushed.conflicts[c].publicId)
            && Records(Found(db, user, device, batch, draws, i), pushed.conflicts[c], device, batch.mutations[i],
                       DrawAt(draws, i).now)
  {
    PushedBatch(db, user, device, batch, draws);
    ValidMutations(batch);
    hide Push, DbOk, Records;
    var (settled, results) := PushPrefix(db, user, device, batch.mutations, draws, |batch.mutations|).value;
    hide PushPrefix;
    c := PrefixRecords(db, user, device, batch.mutations, draws, i, settled, results);
  }

  lemma PrefixRecords(db: Db, user: User, device: string, ms: seq<Mutation>, draws: seq<Draw>, i: nat, settled: Db,
                      results: seq<OpResult>)
    returns (c: nat)
    requires DbOk(db) && GraphOk(ms) && (forall m :: m in ms ==> ValidMutation(m))
    requires PushPrefix(db, user, device, ms, draws, |ms|) == Some((settled, results))
    requires i < |results| && results[i].conflictId.Some?
    ensures |results| == |ms| && PushPrefix(db, user, device, ms, draws, i).Some?
    ensures var before := PushPrefix(db, user, device, ms, draws, i).value.0;
            && c < |settled.conflicts| && results[i].conflictId == Some(settled.conflicts[c].publicId)
            && Records(before, settled.conflicts[c], device, ms[i], DrawAt(draws, i).now)
  {
    PrefixIsClosed(db, user, device, ms, draws, |ms|);
    hide Settle, ValidMutation, GraphOk, DbOk, Grows, Records, ById, Accept, PrefixClosed, SameCore;
    var before, after := OnlyAppliedOperationsWrite(db, user, device, ms, draws, i, settled, results);
    PushPrefixStep(db, user, device, ms, draws, i, before, results[..i]);
    PrefixKeepsAll(db, user, device, ms, draws, i);
    PrefixGrows(db, user, device, ms, draws, i + 1, |ms|);
    hide PushPrefix;
    assert ms[i] in ms;
    CoreOf(before);
    assert results[..i+1][i] == results[i];
    SettleRecords(before, user, device, ms[i], ById(results[..i]), DrawAt(draws, i));
    c := |before.conflicts|;
    ConflictKept(after, settled, c);
  }

  lemma CoreOf(db: Db)
    requires DbOk(db)
    ensures CoreOk(db)
  {}

  /** Every dependency of operation i is an earlier operation that applied or was a noop. */
  ghost predicate Ready(ms: seq<Mutation>, results: seq<OpResult>, i: nat)
    requires i < |ms| && |results| == |ms|
  {
    forall d :: d in ms[i].dependsOn ==> exists j :: 0 <= j < i && ms[j].op == d && Succeeded(results[j])
  }

  lemma ReadyExactly(ms: seq<Mutation>, results: seq<OpResult>, i: nat)
    requires i < |ms| == |results| && GraphOk(ms) && Answers(results, ms)
    ensures FailedDependencies(ms[i].dependsOn, ById(results[..i])) == [] <==> Ready(ms, results, i)
  {
    var failed := FailedDependencies(ms[i].dependsOn, ById(results[..i]));
    forall d | d in ms[i].dependsOn
      ensures d in failed <==> !(exists j :: 0 <= j < i && ms[j].op == d && Succeeded(results[j]))
    {
      var j :| 0 <= j < i && ms[j].op == d;
      ByIdIndex(results[..i], ms, j);
      assert results[..i][j] == results[j];
      UniqueOps(ms);
    }
    hide FailedDependencies, ById, GraphOk, Answers;
    if failed != [] { assert failed[0] in failed && failed[0] in ms[i].dependsOn; }
  }

  lemma UniqueOps(ms: seq<Mutation>)
    requires GraphOk(ms)
    ensures forall i, j :: 0 <= i < |ms| && 0 <= j < |ms| && ms[i].op == ms[j].op ==> i == j
  {}

  /** What the answer for an operation carries: the version and hash of the entity as it now is, and why it failed. */
  ghost predicate AnswersFully(found: Db, after: Db, user: User, m: Mutation, r: OpResult) {
    match r.status
    case Applied | Noop =>
      && m.key in after.entities && r.error == None && r.conflictId == None
      && r.version == Some(after.entities[m.key].version) && r.hash == Some(after.entities[m.key].hash)
    case Conflicted =>
      && m.key in after.entities && r.error == Some(Conflicting)
      && r.version == Some(after.entities[m.key].version) && r.hash == Some(after.entities[m.key].hash)
      && (r.conflictId.Some? <==> |after.conflicts| > |found.conflicts|)
    case DependencyFailed => r.error == Some(DependencyFailure) && r.failedDependencies != []
    case Rejected =>
      r.error == Some(if m.op in found.opResults then BatchInvalid
                      else if !Permitted(user, m.key.kind) then EntityForbidden
                      else if !Readable(m.payload) then SchemaUnsupported
                      else if m.kind == Create then BatchInvalid else EntityNotFound)
  }

  /** The outcome of one operation, against the tables as it found them. */
  ghost predicate Outcome(found: Db, after: Db, user: User, m: Mutation, r: OpResult, ready: bool) {
    var known := m.op in found.opResults;
    var allowed := Permitted(user, m.key.kind) && Readable(m.payload);
    var stored := m.key in found.entities;
    var unused := !OpUsed(found.versions, m.op);
    && (r.status != Applied ==> after.entities == found.entities)
    && AnswersFully(found, after, user, m, r)
    && match r.status
       case DependencyFailed => !known && !ready
       case Applied => !known && ready && allowed && CompareAndSet(found, m) && unused
                       && Becomes(found, after, m.key, m.payload, m.kind == Delete)
       case Noop => !known && ready && allowed && AlreadySo(found, m)
       case Conflicted => !known && ready && allowed && stored && !AlreadySo(found, m)
                          && (CompareAndSet(found, m) ==> !unused)
       case Rejected => known || (ready && (!allowed || (!stored && (m.kind == Create ==> !unused))))
  }

  /** What a push answers for each operation, and what that did. Against the tables as the operation found them: it
      applies exactly when it is new, its dependencies succeeded, the user may write the type, its payload is readable
      and the compare-and-set holds; it is a noop exactly when the content is so already; and so on for the others. An
      applied one gives its entity its content as the next version; any other changes no entity. */
  lemma OperationOutcome(db: Db, user: User, device: string, batch: PushRequest, draws: seq<Draw>, i: nat,
                         results: seq<OpResult>)
    requires DbOk(db) && BatchKey(device, batch.batchId) !in db.batches && i < |batch.mutations|
    requires Push(db, user, device, batch, draws).1 == Ok(results)
    ensures |results| == |batch.mutations| && results[i].op == batch.mutations[i].op
    ensures PushPrefix(db, user, device, batch.mutations, draws, i).Some?
    ensures PushPrefix(db, user, device, batch.mutations, draws, i + 1).Some?
    ensures Outcome(Found(db, user, device, batch, draws, i), Found(db, user, device, batch, draws, i + 1), user,
                    batch.mutations[i], results[i], Ready(batch.mutations, results, i))
  {
    PushedBatch(db, user, device, batch, draws);
    ValidMutations(batch);
    hide Push, DbOk, PushPrefix, Ready, Outcome, ValidMutation, GraphOk;
    var settled := PushPrefix(db, user, device, batch.mutations, draws, |batch.mutations|).value.0;
    OutcomeInPrefix(db, user, device, batch.mutations, draws, i, settled, results);
  }

  lemma OutcomeInPrefix(db: Db, user: User, device: string, ms: seq<Mutation>, draws: seq<Draw>, i: nat, settled: Db,
                        results: seq<OpResult>)
    requires DbOk(db) && GraphOk(ms) && (forall m :: m in ms ==> ValidMutation(m)) && i < |ms|
    requires PushPrefix(db, user, device, ms, draws, |ms|) == Some((settled, results))
    ensures |results| == |ms| && results[i].op == ms[i].op
    ensures PushPrefix(db, user, device, ms, draws, i).Some? && PushPrefix(db, user, device, ms, draws, i + 1).Some?
    ensures var found := PushPrefix(db, user, device, ms, draws, i).value.0;
            var after := PushPrefix(db, user, device, ms, draws, i + 1).value.0;
            Outcome(found, after, user, ms[i], results[i], Ready(ms, results, i))
  {
    PrefixIsClosed(db, user, device, ms, draws, |ms|);
    hide Settle, ValidMutation, GraphOk, DbOk, Grows, ById, Accept, PrefixClosed, SameCore, Outcome, Ready,
        FailedDependencies;
    var before, after := OnlyAppliedOperationsWrite(db, user, device, ms, draws, i, settled, results);
    PushPrefixStep(db, user, device, ms, draws, i, before, results[..i]);
    PrefixKeepsAll(db, user, device, ms, draws, i);
    hide PushPrefix;
    assert ms[i] in ms;
    CoreOf(before);
    ReadyExactly(ms, results, i);
    assert results[..i+1][i] == results[i];
    SettledOutcome(before, user, device, ms[i], ById(results[..i]), DrawAt(draws, i));
  }

  lemma SettledOutcome(db: Db, user: User, device: string, m: Mutation, byId: map<Id, OpResult>, draw: Draw)
    requires CoreOk(db) && ValidMutation(m) && Settle(db, user, device, m, byId, draw).Some?
    ensures var (db', r) := Settle(db, user, device, m, byId, draw).value;
            Outcome(db, db', user, m, r, FailedDependencies(m.dependsOn, byId) == [])
  {
    SettleOutcome(db, user, device, m, byId, draw);
    SettleLeavesCore(db, user, device, m, byId, draw);
    var (db', r) := Settle(db, user, device, m, byId, draw).value;
    if r.status == Applied { WriteBecomes(db, db', device, m, draw); }
    SettledAnswers(db, user, device, m, byId, draw);
    hide AnswersFully, CoreOk, ValidMutation, Settle, FailedDependencies, AlreadySo, CompareAndSet, Permitted,
        Readable, OpUsed, Becomes, Accept;
  }

  lemma SettledAnswers(db: Db, user: User, device: string, m: Mutation, byId: map<Id, OpResult>, draw: Draw)
    requires CoreOk(db) && ValidMutation(m) && Settle(db, user, device, m, byId, draw).Some?
    ensures var (db', r) := Settle(db, user, device, m, byId, draw).value; AnswersFully(db, db', user, m, r)
  {
    ResultsNameOperation(db, user, device, m, draw);
    var failed := FailedDependencies(m.dependsOn, byId);
    var attempt := ApplyMutation(db, user, device, m, draw);
    if attempt.Done? { ApplyMutationEffect(db, user, device, m, draw); }
    hide CoreOk, ApplyMutation, CreateConflict, ValidMutation, AnswersFully, MutationEffect, Recover,
        FailedDependencies;
    if m.op in db.opResults || (failed == [] && attempt.Refused?) {
      if m.op !in db.opResults { RefusedOnlyIfAllowed(db, user, device, m, draw); }
      RecoverAnswers(db, user, device, m, draw);
    } else if failed != [] {
      DependencyAnswers(db, user, m, failed);
    } else {
      TriedAnswers(db, user, device, m, draw);
      AddedAnswers(db, attempt.db, user, m, attempt.result);
    }
  }

  lemma AddedAnswers(db: Db, after: Db, user: User, m: Mutation, r: OpResult)
    requires AnswersFully(db, after, user, m, r)
    ensures AnswersFully(db, AddResult(after, r), user, m, r)
  {}

  lemma DependencyAnswers(db: Db, user: User, m: Mutation, failed: seq<Id>)
    requires failed != []
    ensures var r := DependencyResult(m.op, failed); AnswersFully(db, AddResult(db, r), user, m, r)
  {}

  lemma RecoverAnswers(db: Db, user: User, device: string, m: Mutation, draw: Draw)
    requires m.op !in db.opResults ==>
               Permitted(user, m.key.kind) && Readable(m.payload) && (m.key !in db.entities ==> m.kind == Create)
    requires Recover(db, device, m, draw).Some?
    ensures var (db', r) := Recover(db, device, m, draw).value; AnswersFully(db, db', user, m, r)
  {
    if m.key in db.entities && CreateConflict(db, device, m, draw).Done? { ConflictAnswers(db, user, device, m, draw); }
    hide CreateConflict, Permitted, Readable;
  }

  lemma RefusedOnlyIfAllowed(db: Db, user: User, device: string, m: Mutation, draw: Draw)
    requires CoreOk(db) && ValidMutation(m) && ApplyMutation(db, user, device, m, draw).Refused?
    ensures Permitted(user, m.key.kind) && Readable(m.payload) && (m.key !in db.entities ==> m.kind == Create)
  {
    hide CoreOk, CreateConflict, Write;
  }

  lemma ConflictAnswers(db: Db, user: User, device: string, m: Mutation, draw: Draw)
    requires m.key in db.entities && CreateConflict(db, device, m, draw).Done?
    ensures var a := CreateConflict(db, device, m, draw); AnswersFully(db, a.db, user, m, a.result)
  {
    hide Classify, CloudKind, BaseSnapshot, BaselineOk, LocalSnapshot, CloudSnapshot;
  }

  lemma TriedAnswers(db: Db, user: User, device: string, m: Mutation, draw: Draw)
    requires ValidMutation(m) && m.op !in db.opResults && ApplyMutation(db, user, device, m, draw).Done?
    ensures var a := ApplyMutation(db, user, device, m, draw); AnswersFully(db, a.db, user, m, a.result)
  {
    if m.key in db.entities && CreateConflict(db, device, m, draw).Done? { ConflictAnswers(db, user, device, m, draw); }
    hide CreateConflict, FindVersion, OpUsed;
  }

  lemma WriteBecomes(db: Db, db': Db, device: string, m: Mutation, draw: Draw)
    requires ValidMutation(m)
    requires SameCore(db', Accept(db, m.key, Desired(m), m.kind == Delete, m.kind, m.op, device, draw))
    ensures Becomes(db, db', m.key, m.payload, m.kind == Delete)
  {}

  // ---------------------------------------------------------------- the decision

  /** The entity has this content now, one version up, and nothing else changed. */
  ghost predicate Becomes(db: Db, db': Db, k: Key, payload: Option<Payload>, tombstone: bool) {
    && k in db'.entities && db'.entities[k].payload == payload && db'.entities[k].tombstone == tombstone
    && db'.entities[k].version == (if k in db.entities then db.entities[k].version + 1 else 1)
    && OnlyChanges(db, db', k)
  }

  /** The one version row and the one log row that record a change: whose they are, what kind of change, and that they
      are the entity as it is now. */
  ghost predicate Appends(db: Db, db': Db, k: Key, kind: MutationKind, op: Id, device: string, now: Time) {
    && |db'.versions| == |db.versions| + 1 && db'.versions[..|db.versions|] == db.versions
    && |db'.log| == |db.log| + 1 && db'.log[..|db.log|] == db.log && k in db'.entities
    && var row, published, e := db'.versions[|db.versions|], db'.log[|db.log|], db'.entities[k];
       && row.key == k && row.kind == kind && row.op == op && row.device == device && row.createdAt == now
       && row.version == e.version && row.payload == e.payload && row.tombstone == e.tombstone && row.hash == e.hash
       && published.versionId == |db.versions| && published.key == k && published.kind == kind && published.op == op
       && published.version == e.version && published.hash == e.hash && published.tombstone == e.tombstone
       && published.createdAt == now && db.lastSequence < published.sequence == db'.lastSequence
  }

  lemma AcceptAppends(db: Db, k: Key, payload: Option<Payload>, tombstone: bool, kind: MutationKind, op: Id,
                      device: string, draw: Draw)
    ensures Appends(db, Accept(db, k, payload, tombstone, kind, op, device, draw), k, kind, op, device, draw.now)
  {}

  /** The kind of change a decision is: a copy is created, what ends deleted is a deletion, a version taken from the
      history is a restoration, anything else an update. */
  function KindOfDecision(action: Action, tombstone: bool): MutationKind {
    if action.SaveCopy? then Create
    else if tombstone then Delete
    else if action.RestoreVersion? || action.Undo? then Restore
    else Update
  }

  /** Whatever the action, a decision appends one version of one entity, under its own operation, device and time. */
  lemma DecisionAppends(db: Db, conflictId: Id, request: ResolutionRequest, device: string, draw: Draw)
    requires DbOk(db) && Decides(db, conflictId, request, device, draw)
    ensures var (db', reply) := Resolve(db, conflictId, request, device, draw);
            && reply.value.acceptedVersionId == |db.versions| < |db'.versions|
            && var row := db'.versions[|db.versions|];
               && Appends(db, db', row.key, KindOfDecision(request.action, row.tombstone), request.op, device, draw.now)
               && reply.value.device == device && reply.value.resolvedAt == draw.now
               && reply.value.result == Snapshot(row.version, row.hash, row.kind, row.tombstone, row.payload,
                                                 row.device, row.createdAt)
  {
    var c, source := DecisionEffect(db, conflictId, request, device, draw);
    hide DbOk, Grows, ResolutionSource, Decided, AcceptResolution, Appends;
    AcceptedAppends(db, c, request, source, device, draw);
  }

  lemma AcceptedAppends(db: Db, c: nat, request: ResolutionRequest, source: Source, device: string, draw: Draw)
    requires AcceptResolution(db, c, request, source, device, draw).1.Ok?
    ensures var (db', reply) := AcceptResolution(db, c, request, source, device, draw);
            && reply.value.acceptedVersionId == |db.versions| < |db'.versions|
            && var row := db'.versions[|db.versions|];
               && Appends(db, db', row.key, KindOfDecision(request.action, row.tombstone), request.op, device, draw.now)
               && reply.value.device == device && reply.value.resolvedAt == draw.now
               && reply.value.result == SnapshotOf(row)
  {
    var kind := ResolutionKind(request.action, source.tombstone);
    AcceptAppends(db, source.key, source.payload, source.tombstone, kind, request.op, device, draw);
  }

  /** Whose content each action accepts, given the conflict row. */
  ghost predicate Accepts(db: Db, db': Db, c: ConflictRow, action: Action) {
    match action
    case KeepLocal => c.key in db.entities && Becomes(db, db', c.key, c.local.payload, c.local.tombstone)
    case UseCloud => c.key in db.entities && Becomes(db, db', c.key, c.cloud.payload, c.cloud.tombstone)
    case ManualMerge(merged) => c.key in db.entities && Becomes(db, db', c.key, Some(merged), false)
    case RestoreVersion(target) =>
      var history := HistoryOf(db.versions, c.key);
      c.key in db.entities && 1 <= target <= |history|
      && Becomes(db, db', c.key, history[target-1].payload, history[target-1].tombstone)
    case SaveCopy(id) =>
      Key(c.key.kind, id) !in db.entities && Becomes(db, db', Key(c.key.kind, id), c.local.payload, c.local.tombstone)
    case Undo(_) => true  // SyncUndo has what an undo accepts
  }

  lemma DecisionAccepts(db: Db, conflictId: Id, request: ResolutionRequest, device: string, draw: Draw) returns (c: nat)
    requires DbOk(db) && Decides(db, conflictId, request, device, draw)
    ensures FindConflict(db.conflicts, conflictId) == Some(c) && c < |db.conflicts|
    ensures Accepts(db, Resolve(db, conflictId, request, device, draw).0, db.conflicts[c], request.action)
  {
    var source;
    c, source := DecisionEffect(db, conflictId, request, device, draw);
    var (db', reply) := Resolve(db, conflictId, request, device, draw);
    DecidedBecomes(db, db', reply.value, c, request, source);
    hide DbOk, Grows, Resolve, Becomes, ResolutionSource, Decided;
    ConflictEntityExists(db, c);
    SourceAccepted(db, c, request.action, source, db');
  }

  lemma DecidedBecomes(db: Db, db': Db, r: ResolutionRow, c: nat, request: ResolutionRequest, source: Source)
    requires Decided(db, db', r, c, request, source)
    ensures Becomes(db, db', source.key, source.payload, source.tombstone)
    ensures request.action.SaveCopy? ==> source.key !in db.entities
  {
    hide OnlyChanges;
  }

  /** The content an action accepts, by the conflict row and the history. */
  lemma SourceMeans(db: Db, c: nat, action: Action, source: Source)
    requires DbOk(db) && c < |db.conflicts| && ResolutionSource(db, c, action) == Ok(source)
    ensures var row := db.conflicts[c];
            match action
            case KeepLocal => source == Source(row.key, row.local.payload, row.local.tombstone, None)
            case UseCloud => source == Source(row.key, row.cloud.payload, row.cloud.tombstone, None)
            case ManualMerge(merged) => source == Source(row.key, Some(merged), false, None)
            case RestoreVersion(target) =>
              var history := HistoryOf(db.versions, row.key);
              1 <= target <= |history|
              && source == Source(row.key, history[target-1].payload, history[target-1].tombstone, None)
            case SaveCopy(id) => source == Source(Key(row.key.kind, id), row.local.payload, row.local.tombstone, None)
            case Undo(_) => true
  {
    var k := db.conflicts[c].key;
    HistoryAt(db, k);
    if action.RestoreVersion? { FindVersionInChain(db.versions, k, action.target); }
    hide DbOk, FindVersion, UndoSource, HistoryOf, Chained, EntityHistoryOk;
  }

  lemma SourceAccepted(db: Db, c: nat, action: Action, source: Source, db': Db)
    requires DbOk(db) && c < |db.conflicts| && ResolutionSource(db, c, action) == Ok(source)
    requires db.conflicts[c].key in db.entities && (action.SaveCopy? ==> source.key !in db.entities)
    requires Becomes(db, db', source.key, source.payload, source.tombstone)
    ensures Accepts(db, db', db.conflicts[c], action)
  {
    hide DbOk, ResolutionSource, HistoryOf, Becomes;
    SourceMeans(db, c, action, source);
  }

  lemma HistoryAt(db: Db, k: Key)
    requires DbOk(db)
    ensures Chained(HistoryOf(db.versions, k)) && EntityHistoryOk(db.entities, HistoryOf(db.versions, k), k)
  {
    assert EntityHistoryOk(db.entities, HistoryOf(db.versions, k), k);
  }

  /** From the push on. A push answers a mutation with a conflict; after any run that conflict is decided. Keeping the
      local side leaves the entity with what the mutation asked for, using the cloud side with what was stored when the
      mutation was tried, a merge with the merged payload, a restored version with that version; a saved copy gets what
      the mutation asked for under its own identifier. No other entity changes. */
  lemma DecisionAfterPush(db: Db, user: User, device: string, batch: PushRequest, draws: seq<Draw>, i: nat,
                          between: seq<Request>, request: ResolutionRequest, device': string, draw': Draw)
    requires DbOk(db) && Pushes(db, user, device, batch, draws)
    requires var (pushed, reply) := Push(db, user, device, batch, draws);
             && i < |reply.value| && reply.value[i].conflictId.Some?
             && Decides(Run(pushed, between), reply.value[i].conflictId.value, request, device', draw')
    ensures i < |batch.mutations| && PushPrefix(db, user, device, batch.mutations, draws, i).Some?
    ensures var (pushed, reply) := Push(db, user, device, batch, draws);
            var later := Run(pushed, between);
            var decided := Resolve(later, reply.value[i].conflictId.value, request, device', draw').0;
            var m := batch.mutations[i];
            var found := Found(db, user, device, batch, draws, i);
            && m.key in found.entities && m.key in later.entities
            && match request.action
               case KeepLocal => Becomes(later, decided, m.key, m.payload, m.kind == Delete)
               case UseCloud =>
                 Becomes(later, decided, m.key, found.entities[m.key].payload, found.entities[m.key].tombstone)
               case ManualMerge(merged) => Becomes(later, decided, m.key, Some(merged), false)
               case RestoreVersion(target) =>
                 var history := HistoryOf(later.versions, m.key);
                 1 <= target <= |history|
                 && Becomes(later, decided, m.key, history[target-1].payload, history[target-1].tombstone)
               case SaveCopy(id) =>
                 var copy := Key(m.key.kind, id);
                 copy !in later.entities && Becomes(later, decided, copy, m.payload, m.kind == Delete)
               case Undo(_) => true
  {
    hide DbOk, Push, Resolve, Run, PushPrefix, Becomes, HistoryOf, CloudSide, LocalSide, BaseSide, ReasonFits;
    var c := PushRecords(db, user, device, batch, draws, i);
    var (pushed, reply) := Push(db, user, device, batch, draws);
    var later := Run(pushed, between);
    var conflictId := reply.value[i].conflictId.value;
    RunKeepsAll(pushed, between);
    var c' := DecisionAccepts(later, conflictId, request, device', draw');
    OneConflict(pushed, later, c, c');
    ConflictEntityExists(later, c');
    Sides(Found(db, user, device, batch, draws, i), pushed.conflicts[c], device, batch.mutations[i],
        DrawAt(draws, i).now);
  }

  lemma OneConflict(a: Db, b: Db, c: nat, c': nat)
    requires DbOk(b) && Grows(a, b) && c < |a.conflicts| && c' < |b.conflicts|
    requires b.conflicts[c'].publicId == a.conflicts[c].publicId
    ensures b.conflicts[c'] == a.conflicts[c]
  {
    assert b.conflicts[c] == a.conflicts[c];
    hide CoreOk, ResolutionsOk, RestoresOk, ConflictRowOk;
  }

  lemma Sides(db: Db, c: ConflictRow, device: string, m: Mutation, now: Time)
    requires Records(db, c, device, m, now)
    ensures c.key == m.key && m.key in db.entities
    ensures c.local.payload == m.payload && c.local.tombstone == (m.kind == Delete)
    ensures c.cloud.payload == db.entities[m.key].payload && c.cloud.tombstone == db.entities[m.key].tombstone
  {
    hide BaseSide, ReasonFits;
  }

  // ---------------------------------------------------------------- when a decision is accepted

  /** The caller saw the entity as it is. */
  predicate SeesCurrent(db: Db, k: Key, version: nat, hash: Hash) {
    k in db.entities && db.entities[k].version == version && db.entities[k].hash == hash
  }

  /** The newest resolution of a conflict, by time and then by row. */
  ghost predicate NewestOf(db: Db, i: nat, c: nat) {
    && i < |db.resolutions| && db.resolutions[i].conflict == c
    && forall j :: 0 <= j < |db.resolutions| && db.resolutions[j].conflict == c ==>
         || db.resolutions[j].resolvedAt < db.resolutions[i].resolvedAt
         || (db.resolutions[j].resolvedAt == db.resolutions[i].resolvedAt && j <= i)
  }

  /** Resolution i can be undone: it is the conflict's newest and was not undone; a copy it saved is still as it was,
      and for any other there is a version before the one it accepted. */
  ghost predicate Undoable(db: Db, c: nat, i: nat)
    requires c < |db.conflicts|
  {
    && NewestOf(db, i, c) && (forall r :: r in db.resolutions ==> r.undoes != Some(i))
    && db.resolutions[i].acceptedVersionId < |db.versions|
    && var accepted := db.versions[db.resolutions[i].acceptedVersionId];
       if db.resolutions[i].request.action.SaveCopy? then SeesCurrent(db, accepted.key, accepted.version, accepted.hash)
       else 1 <= accepted.version - 1 <= |HistoryOf(db.versions, db.conflicts[c].key)|
  }

  ghost predicate ActionFits(db: Db, c: nat, action: Action)
    requires c < |db.conflicts|
  {
    var k := db.conflicts[c].key;
    match action
    case KeepLocal | UseCloud | ManualMerge(_) => true
    case SaveCopy(id) => Key(k.kind, id) !in db.entities
    case RestoreVersion(target) => 1 <= target <= |HistoryOf(db.versions, k)|
    case Undo(publicId) =>
      exists i :: 0 <= i < |db.resolutions| && db.resolutions[i].publicId == publicId && Undoable(db, c, i)
  }

  lemma {:induction false} LatestIsNewest(resolutions: seq<ResolutionRow>, c: nat)
    ensures match LatestResolution(resolutions, c)
            case None => forall j :: 0 <= j < |resolutions| ==> resolutions[j].conflict != c
            case Some(i) =>
              forall j :: 0 <= j < |resolutions| && resolutions[j].conflict == c ==>
                || resolutions[j].resolvedAt < resolutions[i].resolvedAt
                || (resolutions[j].resolvedAt == resolutions[i].resolvedAt && j <= i)
  {
    if resolutions != [] { LatestIsNewest(resolutions[..|resolutions|-1], c); }
  }

  lemma NewestIsLatest(db: Db, i: nat, c: nat)
    ensures LatestResolution(db.resolutions, c) == Some(i) <==> NewestOf(db, i, c)
  {
    LatestIsNewest(db.resolutions, c);
    hide LatestResolution;
  }

  lemma {:induction false} ConflictFoundAt(conflicts: seq<ConflictRow>, publicId: Id)
    ensures FindConflict(conflicts, publicId).None? <==> forall c :: c in conflicts ==> c.publicId != publicId
  {
    if conflicts != [] {
      var n := |conflicts| - 1;
      assert conflicts == conflicts[..n] + [conflicts[n]];
      ConflictFoundAt(conflicts[..n], publicId);
    }
  }

  /** What an undo accepts exists exactly when the resolution it names can be undone. */
  lemma UndoFits(db: Db, c: nat, publicId: Id)
    requires DbOk(db) && c < |db.conflicts|
    ensures var source := UndoSource(db, c, publicId);
            source.Ok? && source.value.undoes.Some? && !Undone(db.resolutions, source.value.undoes.value)
            <==> ActionFits(db, c, Undo(publicId))
  {
    hide DbOk, Undoable, UndoSource, Undone;
    forall i | 0 <= i < |db.resolutions| && db.resolutions[i].publicId == publicId && Undoable(db, c, i)
      ensures UndoSource(db, c, publicId).Ok? && UndoSource(db, c, publicId).value.undoes == Some(i)
      ensures !Undone(db.resolutions, i)
    {
      UndoableSource(db, c, i);
    }
    if UndoSource(db, c, publicId).Ok? { SourceUndoable(db, c, publicId); }
  }

  lemma UndoableSource(db: Db, c: nat, i: nat)
    requires DbOk(db) && c < |db.conflicts| && i < |db.resolutions| && Undoable(db, c, i)
    ensures var source := UndoSource(db, c, db.resolutions[i].publicId); source.Ok? && source.value.undoes == Some(i)
    ensures !Undone(db.resolutions, i)
  {
    NewestIsLatest(db, i, c);
    IdentifiersDiffer(db);
    ResolutionFoundAt(db.resolutions, i);
    HistoryAt(db, db.conflicts[c].key);
    FindVersionInChain(db.versions, db.conflicts[c].key, db.versions[db.resolutions[i].acceptedVersionId].version - 1);
    hide DbOk, FindVersion, LatestResolution, FindResolution, HistoryOf, Chained, EntityHistoryOk, NewestOf;
  }

  lemma IdentifiersDiffer(db: Db)
    requires DbOk(db)
    ensures forall a, b :: 0 <= a < b < |db.resolutions| ==> db.resolutions[a].publicId != db.resolutions[b].publicId
  {
    hide CoreOk, ConflictsOk, RestoresOk, ResolutionOk;
  }

  lemma SourceUndoable(db: Db, c: nat, publicId: Id)
    requires DbOk(db) && c < |db.conflicts| && UndoSource(db, c, publicId).Ok?
    ensures var source := UndoSource(db, c, publicId).value;
            && source.undoes.Some? && source.undoes.value < |db.resolutions|
            && db.resolutions[source.undoes.value].publicId == publicId
            && (!Undone(db.resolutions, source.undoes.value) ==> Undoable(db, c, source.undoes.value))
  {
    UndoSourceShape(db, c, publicId);
    var i := UndoSource(db, c, publicId).value.undoes.value;
    hide UndoSource;
    NewestIsLatest(db, i, c);
    HistoryAt(db, db.conflicts[c].key);
    FindVersionInChain(db.versions, db.conflicts[c].key, db.versions[db.resolutions[i].acceptedVersionId].version - 1);
    hide DbOk, FindVersion, LatestResolution, FindResolution, HistoryOf, Chained, EntityHistoryOk, NewestOf;
  }

  lemma UndoSourceShape(db: Db, c: nat, publicId: Id)
    requires c < |db.conflicts| && UndoSource(db, c, publicId).Ok?
    ensures var source := UndoSource(db, c, publicId).value;
            && source.undoes.Some? && source.undoes.value < |db.resolutions|
            && var i := source.undoes.value;
               && db.resolutions[i].publicId == publicId && LatestResolution(db.resolutions, c) == Some(i)
               && db.resolutions[i].acceptedVersionId < |db.versions|
               && var accepted := db.versions[db.resolutions[i].acceptedVersionId];
                  if db.resolutions[i].request.action.SaveCopy?
                  then SeesCurrent(db, accepted.key, accepted.version, accepted.hash)
                  else FindVersion(db.versions, db.conflicts[c].key, accepted.version - 1).Some?
  {
    hide FindVersion, LatestResolution, FindResolution;
  }

  lemma SourceFits(db: Db, c: nat, action: Action)
    requires DbOk(db) && c < |db.conflicts|
    ensures var source := ResolutionSource(db, c, action);
            (&& source.Ok? && (action.SaveCopy? ==> source.value.key !in db.entities)
             && (source.value.undoes.Some? ==> !Undone(db.resolutions, source.value.undoes.value)))
            <==> ActionFits(db, c, action)
  {
    if action.Undo? {
      UndoFits(db, c, action.resolution);
      if UndoSource(db, c, action.resolution).Ok? { SourceUndoable(db, c, action.resolution); }
      hide DbOk, UndoSource, Undone, Undoable;
    } else {
      HistoryAt(db, db.conflicts[c].key);
      if action.RestoreVersion? { FindVersionInChain(db.versions, db.conflicts[c].key, action.target); }
      hide DbOk, FindVersion, UndoSource, HistoryOf, Chained, EntityHistoryOk, Undone;
    }
  }

  /** A new decision is accepted exactly when the conflict exists, the caller saw its entity as it is, the action fits
      and the operation is unused; a refused one changes nothing. */
  lemma DecidedExactly(db: Db, conflictId: Id, request: ResolutionRequest, device: string, draw: Draw)
    requires DbOk(db) && forall r :: r in db.resolutions ==> r.request.op != request.op
    ensures var (db', reply) := Resolve(db, conflictId, request, device, draw);
            && (reply.Ok? <==> exists c ::
                  && 0 <= c < |db.conflicts| && db.conflicts[c].publicId == conflictId
                  && SeesCurrent(db, db.conflicts[c].key, request.currentVersion, request.currentHash)
                  && ActionFits(db, c, request.action) && !OpUsed(db.versions, request.op))
            && (reply.Fail? ==> db' == db)
  {
    ConflictFoundAt(db.conflicts, conflictId);
    var found := FindConflict(db.conflicts, conflictId);
    if found.Some? {
      var c := found.value;
      SourceFits(db, c, request.action);
      OneRow(db, c);
      if ResolutionSource(db, c, request.action).Ok? { AcceptedExactly(db, c, request, device, draw); }
    }
    hide DbOk, FindConflict, ResolutionSource, AcceptResolution, ActionFits, Undone, OpUsed;
  }

  lemma OneRow(db: Db, c: nat)
    requires DbOk(db) && c < |db.conflicts|
    ensures forall c' :: 0 <= c' < |db.conflicts| && db.conflicts[c'].publicId == db.conflicts[c].publicId ==> c' == c
  {
    hide CoreOk, ResolutionsOk, RestoresOk, ConflictRowOk;
  }

  lemma AcceptedExactly(db: Db, c: nat, request: ResolutionRequest, device: string, draw: Draw)
    requires DbOk(db) && c < |db.conflicts| && ResolutionSource(db, c, request.action).Ok?
    ensures var source := ResolutionSource(db, c, request.action).value;
            var (db', reply) := AcceptResolution(db, c, request, source, device, draw);
            && (reply.Ok? <==> && !OpUsed(db.versions, request.op)
                               && (request.action.SaveCopy? ==> source.key !in db.entities)
                               && (source.undoes.Some? ==> !Undone(db.resolutions, source.undoes.value)))
            && (reply.Fail? ==> db' == db)
  {
    CoreOf(db);
    NextVersionIsFree(db, ResolutionSource(db, c, request.action).value.key);
    hide DbOk, CoreOk, ResolutionSource, OpUsed, FindVersion, Undone, Accept;
  }

  /** A new history restoration is accepted exactly when the caller saw the entity as it is, the version exists and the
      operation is unused; the entity then has that version's content, one version up, and nothing else changed. */
  lemma RestoredExactly(db: Db, request: RestoreRequest, device: string, draw: Draw)
    requires DbOk(db) && forall r :: r in db.restores ==> r.request.op != request.op
    ensures var (db', reply) := RestoreTo(db, request, device, draw);
            var history := HistoryOf(db.versions, request.key);
            && (reply.Ok? <==> && SeesCurrent(db, request.key, request.currentVersion, request.currentHash)
                               && 1 <= request.targetVersion <= |history| && !OpUsed(db.versions, request.op))
            && (reply.Ok? ==>
                  var row := history[request.targetVersion-1];
                  && Becomes(db, db', request.key, row.payload, row.tombstone)
                  && Appends(db, db', request.key, if row.tombstone then Delete else Restore, request.op, device,
                             draw.now))
            && (reply.Fail? ==> db' == db)
  {
    CoreOf(db);
    HistoryAt(db, request.key);
    FindVersionInChain(db.versions, request.key, request.targetVersion);
    hide DbOk, CoreOk, OpUsed, FindVersion, HistoryOf, Chained, EntityHistoryOk, RestoreTo, Becomes, Appends,
        SeesCurrent;
    RestoreNeeds(db, request, device, draw);
    var historic := FindVersion(db.versions, request.key, request.targetVersion);
    if historic.Some? && SeesCurrent(db, request.key, request.currentVersion, request.currentHash)
       && !OpUsed(db.versions, request.op) {
      RestoreEffect(db, request, historic.value, device, draw);
    }
  }

  lemma RestoreNeeds(db: Db, request: RestoreRequest, device: string, draw: Draw)
    requires forall r :: r in db.restores ==> r.request.op != request.op
    ensures var (db', reply) := RestoreTo(db, request, device, draw);
            && (reply.Ok? ==> && SeesCurrent(db, request.key, request.currentVersion, request.currentHash)
                              && FindVersion(db.versions, request.key, request.targetVersion).Some?
                              && !OpUsed(db.versions, request.op))
            && (reply.Fail? ==> db' == db)
  {
    hide FindVersion, OpUsed, Accept;
  }

  lemma RestoreEffect(db: Db, request: RestoreRequest, historic: VersionRow, device: string, draw: Draw)
    requires CoreOk(db) && forall r :: r in db.restores ==> r.request.op != request.op
    requires FindVersion(db.versions, request.key, request.targetVersion) == Some(historic)
    requires SeesCurrent(db, request.key, request.currentVersion, request.currentHash)
    requires !OpUsed(db.versions, request.op)
    ensures var (db', reply) := RestoreTo(db, request, device, draw);
            && reply.Ok? && Becomes(db, db', request.key, historic.payload, historic.tombstone)
            && Appends(db, db', request.key, if historic.tombstone then Delete else Restore, request.op, device,
                       draw.now)
  {
    AcceptAppends(db, request.key, historic.payload, historic.tombstone, AppendKind(historic.tombstone, true),
                  request.op, device, draw);
    NextVersionIsFree(db, request.key);
    hide CoreOk, FindVersion, OpUsed;
  }
}
