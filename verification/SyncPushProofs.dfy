/** What a push means: the exact condition of every outcome of one mutation, and what a settled batch
    promises about its results, its dependencies and the tables. */
module SyncPushProofs {
  import opened Wrappers
  import opened SyncTypes
  import opened SyncLog
  import opened SyncHistory
  import opened SyncState
  import opened ConflictRules
  import opened SyncConflicts
  import opened SyncPush

  // ---------------------------------------------------------------- one mutation

  /** The mutation may be tried at all. */
  predicate Eligible(db: Db, user: User, m: Mutation) {
    CanMutate(user, m.key.kind) && m.op !in db.opResults && SchemaSupported(Desired(m))
  }

  /** The stored content is what the mutation asks for. */
  predicate AlreadySo(db: Db, m: Mutation) {
    m.key in db.entities && db.entities[m.key].payload == Desired(m)
    && db.entities[m.key].tombstone == (m.kind == Delete)
  }

  /** The compare-and-set holds: a create finds no entity; anything else finds the (version, hash) it was
      based on, live unless it restores, and changes the content. */
  predicate CompareAndSet(db: Db, m: Mutation) {
    if m.kind == Create then m.key !in db.entities
    else
      && m.key in db.entities
      && m.baseVersion == Some(db.entities[m.key].version) && m.baseHash == Some(db.entities[m.key].hash)
      && (m.kind == Restore <==> db.entities[m.key].tombstone)
      && !AlreadySo(db, m)
  }

  /** The divergence of a mutation from the stored entity can be recorded with its baseline: a create
      meets an entity whose newest version is a create, or the base version named exists. */
  predicate Recordable(db: Db, m: Mutation)
    requires m.key in db.entities
  {
    if m.kind == Create then CloudKind(db, m.key) == Create
    else m.baseVersion.Some? && FindVersion(db.versions, m.key, m.baseVersion.value).Some?
  }

  lemma ConflictOutcome(db: Db, device: string, m: Mutation, draw: Draw)
    requires CoreOk(db) && ValidMutation(m) && m.key in db.entities
    ensures var a := CreateConflict(db, device, m, draw);
            && (AlreadySo(db, m) <==> a == Done(db, NoopResult(m.op, db.entities[m.key])))
            && (!AlreadySo(db, m) && Recordable(db, m) <==> a.Done? && a.result.status == Conflicted)
            && (!AlreadySo(db, m) && !Recordable(db, m) <==> a.Refused?)
  {
    hide CoreOk, HistoryOf, FindVersion;
    EntityContent(db, m.key);
  }

  /** The exact condition of every outcome of a mutation. */
  lemma MutationOutcome(db: Db, user: User, device: string, m: Mutation, draw: Draw)
    requires CoreOk(db) && ValidMutation(m)
    ensures var a := ApplyMutation(db, user, device, m, draw);
            && (a.Done? && a.result.status == Applied
                <==> Eligible(db, user, m) && CompareAndSet(db, m) && !OpUsed(db.versions, m.op))
            && (a.Done? && a.result.status == Noop <==> Eligible(db, user, m) && AlreadySo(db, m))
            && (a.Done? && a.result.status == Conflicted
                <==> Eligible(db, user, m) && m.key in db.entities && !CompareAndSet(db, m) && !AlreadySo(db, m)
                     && Recordable(db, m))
            && (a.Done? && a.result.status == Rejected
                <==> !Eligible(db, user, m) || (m.key !in db.entities && m.kind != Create))
            && (a.Refused?
                <==> Eligible(db, user, m)
                     && (if CompareAndSet(db, m) then OpUsed(db.versions, m.op)
                         else m.key in db.entities && !AlreadySo(db, m) && !Recordable(db, m)))
  {
    hide CoreOk, Write, CreateConflict, CloudKind, FindVersion;
    if Eligible(db, user, m) && m.key in db.entities {
      EntityContent(db, m.key);
      ConflictOutcome(db, device, m, draw);
      WriteOutcome(db, device, m, draw);
    } else {
      WriteOutcome(db, device, m, draw);
    }
  }

  lemma WriteOutcome(db: Db, device: string, m: Mutation, draw: Draw)
    requires CoreOk(db)
    ensures Write(db, device, m, draw).Done? <==> !OpUsed(db.versions, m.op)
    ensures Write(db, device, m, draw).Done? ==> Write(db, device, m, draw).result.status == Applied
  {
    hide CoreOk, FindVersion;
    NextVersionIsFree(db, m.key);
  }

  /** Two tables with the same entities, versions and log. */
  predicate SameCore(a: Db, b: Db) {
    a.entities == b.entities && a.versions == b.versions && a.log == b.log && a.lastSequence == b.lastSequence
  }

  /** What one mutation does to the tables: an applied one makes exactly its write; any other leaves the
      entities, versions and log alone and at most records a conflict. */
  ghost predicate MutationEffect(db: Db, db': Db, device: string, m: Mutation, draw: Draw, r: OpResult) {
    if r.status == Applied then
      && !OpUsed(db.versions, m.op) && (m.kind == Create ==> m.key !in db.entities)
      && db' == Accept(db, m.key, Desired(m), m.kind == Delete, m.kind, m.op, device, draw)
      && r.version == Some(db'.entities[m.key].version) && r.hash == Some(db'.entities[m.key].hash)
    else
      db' == db || (m.key in db.entities && CreateConflict(db, device, m, draw) == Done(db', r))
  }

  lemma ApplyMutationEffect(db: Db, user: User, device: string, m: Mutation, draw: Draw)
    requires ApplyMutation(db, user, device, m, draw).Done?
    ensures var a := ApplyMutation(db, user, device, m, draw);
            MutationEffect(db, a.db, device, m, draw, a.result) && a.result.op == m.op && a.db.opResults == db.opResults
  {
    ResultsNameOperation(db, user, device, m, draw);
    if m.key in db.entities && CreateConflict(db, device, m, draw).Done? { ConflictLeavesCore(db, device, m, draw); }
    hide CreateConflict;
  }

  lemma ConflictLeavesCore(db: Db, device: string, m: Mutation, draw: Draw)
    requires m.key in db.entities && CreateConflict(db, device, m, draw).Done?
    ensures var a := CreateConflict(db, device, m, draw);
            SameCore(db, a.db) && a.result.status in {Noop, Conflicted}
            && a.db.opResults == db.opResults && a.db.batches == db.batches && a.db.devices == db.devices
  {}

  // ---------------------------------------------------------------- one savepoint

  /** The tables after an operation: its effect and, unless its id was taken, its result row. */
  ghost predicate SettleEffect(db: Db, db': Db, device: string, m: Mutation, draw: Draw, r: OpResult) {
    if m.op in db.opResults then db' == db && r.status == Rejected
    else exists mid: Db ::
        MutationEffect(db, mid, device, m, draw, r) && mid.opResults == db.opResults && db' == AddResult(mid, r)
  }

  lemma SettleHasEffect(db: Db, user: User, device: string, m: Mutation, byId: map<Id, OpResult>, draw: Draw)
    requires Settle(db, user, device, m, byId, draw).Some?
    ensures var (db', r) := Settle(db, user, device, m, byId, draw).value;
            SettleEffect(db, db', device, m, draw, r) && r.op == m.op
  {
    var (db', r) := Settle(db, user, device, m, byId, draw).value;
    var failed := FailedDependencies(m.dependsOn, byId);
    if failed == [] && ApplyMutation(db, user, device, m, draw).Done? {
      ApplyMutationEffect(db, user, device, m, draw);
      var mid := ApplyMutation(db, user, device, m, draw).db;
      assert m.op !in db.opResults ==> MutationEffect(db, mid, device, m, draw, r) && db' == AddResult(mid, r);
    } else if m.op !in db.opResults {
      assert MutationEffect(db, db, device, m, draw, r) && db' == AddResult(db, r);
    }
  }

  lemma SettleLeavesCore(db: Db, user: User, device: string, m: Mutation, byId: map<Id, OpResult>, draw: Draw)
    requires Settle(db, user, device, m, byId, draw).Some?
    ensures var (db', r) := Settle(db, user, device, m, byId, draw).value;
            if r.status == Applied
            then SameCore(db', Accept(db, m.key, Desired(m), m.kind == Delete, m.kind, m.op, device, draw))
            else SameCore(db', db)
  {
    SettleHasEffect(db, user, device, m, byId, draw);
    var (db', r) := Settle(db, user, device, m, byId, draw).value;
    if m.op !in db.opResults && r.status != Applied {
      var mid :| MutationEffect(db, mid, device, m, draw, r) && mid.opResults == db.opResults
          && db' == AddResult(mid, r);
      if mid != db { ConflictLeavesCore(db, device, m, draw); }
    }
  }

  /** An operation that succeeded had no failed dependency; one with a failed dependency fails. */
  lemma SettleNeedsDependencies(db: Db, user: User, device: string, m: Mutation, byId: map<Id, OpResult>, draw: Draw)
    requires Settle(db, user, device, m, byId, draw).Some?
    ensures var r := Settle(db, user, device, m, byId, draw).value.1;
            var failed := FailedDependencies(m.dependsOn, byId);
            && (Succeeded(r) ==> failed == [])
            && (failed != [] ==> r == if m.op in db.opResults then RejectedResult(m.op, BatchInvalid)
                                      else DependencyResult(m.op, failed))
  {}

  /** A create of different content meets an entity whose newest version is not itself a create: the conflict
      would need the baseline that a create does not name. */
  predicate CannotBeRecorded(db: Db, user: User, m: Mutation, byId: map<Id, OpResult>) {
    && Eligible(db, user, m) && FailedDependencies(m.dependsOn, byId) == []
    && m.kind == Create && m.key in db.entities && !AlreadySo(db, m) && CloudKind(db, m.key) != Create
  }

  /** The one way a savepoint fails twice, and its whole batch with it. */
  lemma SettleFailsExactly(db: Db, user: User, device: string, m: Mutation, byId: map<Id, OpResult>, draw: Draw)
    requires CoreOk(db) && ValidMutation(m)
    ensures Settle(db, user, device, m, byId, draw).None?
            <==> CannotBeRecorded(db, user, m, byId)
  {
    MutationOutcome(db, user, device, m, draw);
    if m.key in db.entities { ConflictOutcome(db, device, m, draw); }
    var failed := FailedDependencies(m.dependsOn, byId);
    if failed == [] && ApplyMutation(db, user, device, m, draw).Done? {
      ApplyMutationEffect(db, user, device, m, draw);
    }
    hide CoreOk, ApplyMutation, CreateConflict, CloudKind, AlreadySo, FailedDependencies, MutationEffect;
  }

  /** Questions need one permission; papers, drafts, attachments and comments another; favourites and settings none. */
  predicate Permitted(user: User, t: EntityType) {
    && (t == Question ==> user.questionsWrite)
    && (t in {Paper, Draft, Attachment, Comment} ==> user.papersWrite)
  }

  /** A payload without a schema version, or with version 1. */
  predicate Readable(payload: Option<Payload>) {
    payload.Some? ==> payload.value.schema in {Absent, Number(1)}
  }

  /** The exact outcome of an operation in its batch. */
  lemma SettleOutcome(db: Db, user: User, device: string, m: Mutation, byId: map<Id, OpResult>, draw: Draw)
    requires CoreOk(db) && ValidMutation(m) && Settle(db, user, device, m, byId, draw).Some?
    ensures var status := Settle(db, user, device, m, byId, draw).value.1.status;
            var known := m.op in db.opResults;
            var ready := FailedDependencies(m.dependsOn, byId) == [];
            var allowed := Permitted(user, m.key.kind) && Readable(m.payload);
            var stored := m.key in db.entities;
            && (status == DependencyFailed <==> !known && !ready)
            && (status == Applied <==> !known && ready && allowed && CompareAndSet(db, m) && !OpUsed(db.versions, m.op))
            && (status == Noop <==> !known && ready && allowed && AlreadySo(db, m))
            && (status == Conflicted <==> !known && ready && allowed && stored && !AlreadySo(db, m)
                                          && (CompareAndSet(db, m) ==> OpUsed(db.versions, m.op)))
            && (status == Rejected <==>
                 known || (ready && (!allowed || (!stored && (m.kind == Create ==> OpUsed(db.versions, m.op))))))
  {
    MutationOutcome(db, user, device, m, draw);
    if m.key in db.entities { ConflictOutcome(db, device, m, draw); }
    if ApplyMutation(db, user, device, m, draw).Done? { ApplyMutationEffect(db, user, device, m, draw); }
    hide CoreOk, ApplyMutation, CreateConflict, CloudKind, AlreadySo, FailedDependencies, MutationEffect, OpUsed,
        FindVersion;
  }

  // ---------------------------------------------------------------- the batch

  /** `i` depends on `j`, directly or through other operations of the batch. */
  ghost predicate Reaches(ms: seq<Mutation>, i: nat, j: nat)
    requires i < |ms|
  {
    && j < i
    && (ms[j].op in ms[i].dependsOn
        || exists mid: nat :: j < mid < i && ms[mid].op in ms[i].dependsOn && Reaches(ms, mid, j))
  }

  lemma {:induction false} ByIdIndex(results: seq<OpResult>, ms: seq<Mutation>, j: nat)
    requires Answers(results, ms) && GraphOk(ms) && j < |results|
    ensures ms[j].op in ById(results) && ById(results)[ms[j].op] == results[j]
  {
    var n := |results| - 1;
    if j < n { ByIdIndex(results[..n], ms, j); }
  }

  /** The batch as far as operation n answers its operations in order and respects dependencies. */
  ghost predicate PrefixClosed(ms: seq<Mutation>, results: seq<OpResult>) {
    && Answers(results, ms)
    && forall i, j :: 0 <= j < i < |results| && ms[j].op in ms[i].dependsOn && Succeeded(results[i]) ==>
         Succeeded(results[j])
  }

  lemma {:induction false} PrefixIsClosed(db: Db, user: User, device: string, ms: seq<Mutation>, draws: seq<Draw>,
                                          n: nat)
    requires n <= |ms| && GraphOk(ms) && PushPrefix(db, user, device, ms, draws, n).Some?
    ensures var results := PushPrefix(db, user, device, ms, draws, n).value.1;
            |results| == n && Answers(results, ms) && PrefixClosed(ms, results)
  {
    hide Settle, GraphOk;
    if n == 0 {
      EmptyPrefixIsClosed(ms);
    } else {
      PrefixIsClosed(db, user, device, ms, draws, n - 1);
      var (before, results) := PushPrefix(db, user, device, ms, draws, n - 1).value;
      PushPrefixStep(db, user, device, ms, draws, n - 1, before, results);
      ExtendClosed(before, user, device, ms, results, DrawAt(draws, n - 1));
    }
  }

  lemma EmptyPrefixIsClosed(ms: seq<Mutation>)
    ensures PrefixClosed(ms, [])
  {}

  lemma ExtendClosed(before: Db, user: User, device: string, ms: seq<Mutation>, results: seq<OpResult>, draw: Draw)
    requires GraphOk(ms) && PrefixClosed(ms, results) && |results| < |ms|
    requires Settle(before, user, device, ms[|results|], ById(results), draw).Some?
    ensures PrefixClosed(ms, results + [Settle(before, user, device, ms[|results|], ById(results), draw).value.1])
  {
    hide Settle, PrefixClosed, ById, GraphOk, FailedDependencies;
    var m := ms[|results|];
    var r := Settle(before, user, device, m, ById(results), draw).value.1;
    SettleNamesOperation(before, user, device, m, ById(results), draw);
    SettleNeedsDependencies(before, user, device, m, ById(results), draw);
    ClosedAnswers(ms, results);
    forall j | 0 <= j < |results| && ms[j].op in m.dependsOn && Succeeded(r) ensures Succeeded(results[j]) {
      ByIdIndex(results, ms, j);
      assert ms[j].op !in FailedDependencies(m.dependsOn, ById(results));
    }
    AppendClosed(ms, results, r);
  }

  lemma ClosedAnswers(ms: seq<Mutation>, results: seq<OpResult>)
    requires PrefixClosed(ms, results)
    ensures Answers(results, ms)
  {}

  lemma AppendClosed(ms: seq<Mutation>, results: seq<OpResult>, r: OpResult)
    requires PrefixClosed(ms, results) && |results| < |ms| && r.op == ms[|results|].op
    requires forall j :: 0 <= j < |results| && ms[j].op in ms[|results|].dependsOn && Succeeded(r) ==>
               Succeeded(results[j])
    ensures PrefixClosed(ms, results + [r])
  {}

  lemma {:induction false} TransitiveDependencies(ms: seq<Mutation>, results: seq<OpResult>, i: nat, j: nat)
    requires PrefixClosed(ms, results) && i < |results|
    requires Reaches(ms, i, j) && Succeeded(results[i])
    ensures Succeeded(results[j])
    decreases i
  {
    if ms[j].op !in ms[i].dependsOn {
      var mid: nat :| j < mid < i && ms[mid].op in ms[i].dependsOn && Reaches(ms, mid, j);
      TransitiveDependencies(ms, results, mid, j);
    }
  }

  /** Every batch that settles answers its mutations one by one in order, and an operation that applied
      or was a noop has all its transitive dependencies applied or noop. */
  lemma DependencyClosure(db: Db, user: User, device: string, request: PushRequest, draws: seq<Draw>)
    requires BatchKey(device, request.batchId) !in db.batches
    requires Push(db, user, device, request, draws).1.Ok?
    ensures var results := Push(db, user, device, request, draws).1.value;
            var ms := request.mutations;
            && |results| == |ms|
            && (forall i :: 0 <= i < |ms| ==> results[i].op == ms[i].op)
            && (forall i, j :: 0 <= j < i < |ms| && Reaches(ms, i, j) && Succeeded(results[i]) ==>
                 Succeeded(results[j]))
  {
    var ms := request.mutations;
    PrefixIsClosed(db, user, device, ms, draws, |ms|);
    var results := PushPrefix(db, user, device, ms, draws, |ms|).value.1;
    forall i, j | 0 <= j < i < |ms| && Reaches(ms, i, j) && Succeeded(results[i]) ensures Succeeded(results[j]) {
      TransitiveDependencies(ms, results, i, j);
    }
  }

  lemma {:induction false} EarlierPrefixSettles(db: Db, user: User, device: string, ms: seq<Mutation>,
                                                draws: seq<Draw>, n: nat, i: nat)
    requires i <= n <= |ms| && PushPrefix(db, user, device, ms, draws, n).Some?
    ensures PushPrefix(db, user, device, ms, draws, i).Some?
    ensures PushPrefix(db, user, device, ms, draws, i).value.1 <= PushPrefix(db, user, device, ms, draws, n).value.1
  {
    hide Settle;
    if i < n { EarlierPrefixSettles(db, user, device, ms, draws, n - 1, i); }
  }

  /** What an operation did to the tables, by its result: its own write when it applied, else nothing. */
  ghost predicate WroteIffApplied(before: Db, after: Db, device: string, m: Mutation, draw: Draw, r: OpResult) {
    if r.status == Applied
    then SameCore(after, Accept(before, m.key, Desired(m), m.kind == Delete, m.kind, m.op, device, draw))
    else SameCore(after, before)
  }

  /** In a settled batch an operation that did not apply leaves the entities, versions and log as they
      were just before it, and an applied one makes exactly its own write there. */
  lemma OnlyAppliedOperationsWrite(db: Db, user: User, device: string, ms: seq<Mutation>, draws: seq<Draw>, i: nat,
                                   settled: Db, results: seq<OpResult>) returns (before: Db, after: Db)
    requires i < |ms| && GraphOk(ms) && PushPrefix(db, user, device, ms, draws, |ms|) == Some((settled, results))
    ensures |results| == |ms|
    ensures PushPrefix(db, user, device, ms, draws, i) == Some((before, results[..i]))
    ensures PushPrefix(db, user, device, ms, draws, i + 1) == Some((after, results[..i+1]))
    ensures WroteIffApplied(before, after, device, ms[i], DrawAt(draws, i), results[i])
  {
    hide Settle, Accept, GraphOk, PrefixClosed, ById, SameCore;
    PrefixIsClosed(db, user, device, ms, draws, |ms|);
    EarlierPrefixSettles(db, user, device, ms, draws, |ms|, i + 1);
    EarlierPrefixSettles(db, user, device, ms, draws, i + 1, i);
    PrefixIsClosed(db, user, device, ms, draws, i + 1);
    PrefixIsClosed(db, user, device, ms, draws, i);
    var (b, earlier) := PushPrefix(db, user, device, ms, draws, i).value;
    PushPrefixStep(db, user, device, ms, draws, i, b, earlier);
    hide PushPrefix;
    var (a, later) := PushPrefix(db, user, device, ms, draws, i + 1).value;
    before, after := b, a;
    assert later == results[..i+1] && earlier == results[..i];
    SettleLeavesCore(before, user, device, ms[i], ById(earlier), DrawAt(draws, i));
  }
}
