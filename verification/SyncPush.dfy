/** Push: batches of mutations applied by compare-and-set on (version, hash), each in its own savepoint,
    under a batch key that makes a repeated submission return the first answer. */
module SyncPush {
  import opened Wrappers
  import opened SyncTypes
  import opened SyncLog
  import opened SyncHistory
  import opened SyncState
  import opened SyncStore
  import opened SyncConflicts

  const SYNC_PROTOCOL_VERSION := 1
  const MAX_PUSH_MUTATIONS := 100

  // ---------------------------------------------------------------- request validation

  predicate ValidMutation(m: Mutation) {
    && Distinct(m.dependsOn)
    && m.op !in m.dependsOn
    && (m.kind == Create ==> m.baseVersion.None? && m.baseHash.None?)
    && (m.kind != Create ==> m.baseVersion.Some? && m.baseVersion.value >= 1 && m.baseHash.Some?)
    && (m.kind == Delete <==> m.payload.None?)
  }

  /** Operation ids are unique in the batch, and dependencies name earlier operations. */
  predicate GraphOk(ms: seq<Mutation>) {
    && (forall i, j :: 0 <= i < j < |ms| ==> ms[i].op != ms[j].op)
    && forall i, d :: 0 <= i < |ms| && d in ms[i].dependsOn ==> exists j :: 0 <= j < i && ms[j].op == d
  }

  predicate ValidRequest(request: PushRequest) {
    && |request.mutations| <= MAX_PUSH_MUTATIONS
    && (forall m :: m in request.mutations ==> ValidMutation(m))
    && GraphOk(request.mutations)
  }

  method ValidateOperationGraph(ms: seq<Mutation>) returns (ok: bool)
    ensures ok <==> GraphOk(ms)
  {
    for i := 0 to |ms|
      invariant forall a, b :: 0 <= a < b < i ==> ms[a].op != ms[b].op
    {
      if exists a :: 0 <= a < i && ms[a].op == ms[i].op { return false; }
    }
    var seen: set<Id> := {};
    for i := 0 to |ms|
      invariant forall d :: d in seen <==> exists j :: 0 <= j < i && ms[j].op == d
      invariant forall a, d :: 0 <= a < i && d in ms[a].dependsOn ==> exists j :: 0 <= j < a && ms[j].op == d
    {
      if exists d :: d in ms[i].dependsOn && d !in seen { return false; }
      seen := seen + {ms[i].op};
    }
    return true;
  }

  // ---------------------------------------------------------------- one mutation

  predicate CanMutate(user: User, t: EntityType) {
    match t
    case Question => user.questionsWrite
    case Paper | Draft | Attachment | Comment => user.papersWrite
    case Favorite | Setting => true
  }

  predicate SchemaSupported(payload: Option<Payload>) {
    payload.None? || payload.value.schema == Absent || payload.value.schema == Number(1)
  }

  function RejectedResult(op: Id, error: ErrorCode): OpResult {
    OpResult(op, Rejected, None, None, None, [], Some(error))
  }

  function DependencyResult(op: Id, failed: seq<Id>): OpResult {
    OpResult(op, DependencyFailed, None, None, None, failed, Some(DependencyFailure))
  }

  /** The accepted write of a mutation that passed every check. */
  function Write(db: Db, device: string, m: Mutation, draw: Draw): Attempt {
    var row := NextRow(db, m.key, Desired(m), m.kind == Delete, m.kind, m.op, device, draw.now);
    if Admissible(db.versions, row) then
      Done(Accept(db, m.key, Desired(m), m.kind == Delete, m.kind, m.op, device, draw),
           OpResult(m.op, Applied, Some(row.version), Some(row.hash), None, [], None))
    else Refused
  }

  function ApplyMutation(db: Db, user: User, device: string, m: Mutation, draw: Draw): Attempt {
    if !CanMutate(user, m.key.kind) then Done(db, RejectedResult(m.op, EntityForbidden))
    else if m.op in db.opResults then Done(db, RejectedResult(m.op, BatchInvalid))
    else if !SchemaSupported(Desired(m)) then Done(db, RejectedResult(m.op, SchemaUnsupported))
    else if m.key !in db.entities then
      if m.kind == Create then Write(db, device, m, draw) else Done(db, RejectedResult(m.op, EntityNotFound))
    else
      var e := db.entities[m.key];
      var same := e.hash == Digest(Desired(m));
      if m.kind == Create then
        if !e.tombstone && same then Done(db, NoopResult(m.op, e)) else CreateConflict(db, device, m, draw)
      else if Some(e.version) != m.baseVersion || Some(e.hash) != m.baseHash || (m.kind == Restore) != e.tombstone then
        CreateConflict(db, device, m, draw)
      else if m.kind != Delete && same then Done(db, NoopResult(m.op, e))
      else Write(db, device, m, draw)
  }

  // ---------------------------------------------------------------- one savepoint

  predicate Succeeded(r: OpResult) { r.status == Applied || r.status == Noop }

  function ById(results: seq<OpResult>): map<Id, OpResult> {
    if results == [] then map[]
    else
      var r := results[|results|-1];
      ById(results[..|results|-1])[r.op := r]
  }

  function FailedDependencies(dependsOn: seq<Id>, byId: map<Id, OpResult>): (failed: seq<Id>)
    ensures forall d :: d in failed <==> d in dependsOn && (d !in byId || !Succeeded(byId[d]))
  {
    if dependsOn == [] then []
    else
      var n := |dependsOn| - 1;
      var d := dependsOn[n];
      assert dependsOn == dependsOn[..n] + [d];
      FailedDependencies(dependsOn[..n], byId) + if d !in byId || !Succeeded(byId[d]) then [d] else []
  }

  function AddResult(db: Db, r: OpResult): Db {
    db.(opResults := db.opResults[r.op := r])
  }

  /** What an operation settles to when its savepoint hit a constraint; None when the retry hits one too
      and the whole batch is lost. */
  function Recover(db: Db, device: string, m: Mutation, draw: Draw): Option<(Db, OpResult)> {
    if m.op in db.opResults then Some((db, RejectedResult(m.op, BatchInvalid)))
    else if m.key in db.entities then
      if m.kind == Create then
        match CreateConflict(db, device, m, draw)
        case Done(db', r) => Some((AddResult(db', r), r))
        case Refused => None
      else
        var r := StaleResult(m.op, db.entities[m.key]);
        Some((AddResult(db, r), r))
    else
      var r := RejectedResult(m.op, BatchInvalid);
      Some((AddResult(db, r), r))
  }

  function StaleResult(op: Id, e: Entity): OpResult {
    OpResult(op, Conflicted, Some(e.version), Some(e.hash), None, [], Some(Conflicting))
  }

  function Settle(db: Db, user: User, device: string, m: Mutation, byId: map<Id, OpResult>, draw: Draw)
    : Option<(Db, OpResult)>
  {
    var failed := FailedDependencies(m.dependsOn, byId);
    var attempt := if failed != [] then Done(db, DependencyResult(m.op, failed))
                   else ApplyMutation(db, user, device, m, draw);
    if attempt.Done? && m.op !in attempt.db.opResults then Some((AddResult(attempt.db, attempt.result), attempt.result))
    else Recover(db, device, m, draw)
  }

  // ---------------------------------------------------------------- the batch

  function DrawAt(draws: seq<Draw>, i: nat): Draw {
    if i < |draws| then draws[i] else Draw(0, 0)
  }

  /** The state and results after the first n mutations. */
  function PushPrefix(db: Db, user: User, device: string, ms: seq<Mutation>, draws: seq<Draw>, n: nat)
    : Option<(Db, seq<OpResult>)>
    requires n <= |ms|
  {
    if n == 0 then Some((db, []))
    else
      match PushPrefix(db, user, device, ms, draws, n - 1)
      case None => None
      case Some((before, results)) =>
        match Settle(before, user, device, ms[n-1], ById(results), DrawAt(draws, n - 1))
        case None => None
        case Some((after, r)) => Some((after, results + [r]))
  }

  function Push(db: Db, user: User, device: string, request: PushRequest,
                draws: seq<Draw>): (Db, Reply<seq<OpResult>>) {
    var key := BatchKey(device, request.batchId);
    if !ValidRequest(request) then (db, Fail(BatchInvalid))
    else if request.protocol != SYNC_PROTOCOL_VERSION then (db, Fail(ProtocolUnsupported))
    else if request.device != device then (db, Fail(EntityForbidden))
    else if key in db.batches then
      (db, if db.batches[key].request == request then Ok(db.batches[key].results) else Fail(IdempotencyMismatch))
    else
      match PushPrefix(db, user, device, request.mutations, draws, |request.mutations|)
      case None => (db, Fail(IntegrityViolation))
      case Some((after, results)) =>
        (after.(batches := after.batches[key := Batch(request, results)]), Ok(results))
  }

  // ---------------------------------------------------------------- the service

  /** Apply one mutation to the tables; None is a constraint violation, which leaves them alone. */
  method ApplyMutationTo(store: Store, user: User, device: string, m: Mutation, draw: Draw)
    returns (result: Option<OpResult>)
    requires ValidMutation(m)
    modifies store
    ensures match ApplyMutation(old(store.View()), user, device, m, draw)
            case Done(db, r) => store.View() == db && result == Some(r)
            case Refused => store.View() == old(store.View()) && result == None
  {
    hide CreateConflict, CanMutate, Write;
    if !CanMutate(user, m.key.kind) { return Some(RejectedResult(m.op, EntityForbidden)); }
    if m.op in store.opResults { return Some(RejectedResult(m.op, BatchInvalid)); }
    var desired := if m.kind == Delete then None else m.payload;
    if !SchemaSupported(desired) { return Some(RejectedResult(m.op, SchemaUnsupported)); }
    var desiredHash := Digest(desired);
    if m.kind == Create {
      if m.key in store.entities {
        var entity := store.entities[m.key];
        if !entity.tombstone && entity.hash == desiredHash { return Some(NoopResult(m.op, entity)); }
        result := CreateConflictIn(store, device, m, draw);
        return;
      }
    } else {
      if m.key !in store.entities { return Some(RejectedResult(m.op, EntityNotFound)); }
      var entity := store.entities[m.key];
      if entity.version != m.baseVersion.value || entity.hash != m.baseHash.value {
        result := CreateConflictIn(store, device, m, draw);
        return;
      }
      if m.kind == Restore {
        if !entity.tombstone {
          result := CreateConflictIn(store, device, m, draw);
          return;
        }
      } else if entity.tombstone {
        result := CreateConflictIn(store, device, m, draw);
        return;
      }
      if m.kind != Delete && entity.hash == desiredHash { return Some(NoopResult(m.op, entity)); }
    }
    result := WriteIn(store, device, m, draw);
  }

  /** The write of a mutation that passed every check: the entity, its version row and its log row. */
  method WriteIn(store: Store, device: string, m: Mutation, draw: Draw) returns (result: Option<OpResult>)
    requires if m.key in store.entities
             then m.baseVersion == Some(store.entities[m.key].version) && m.baseHash == Some(store.entities[m.key].hash)
             else m.kind == Create && m.baseVersion.None? && m.baseHash.None?
    modifies store
    ensures match Write(old(store.View()), device, m, draw)
            case Done(db, r) => store.View() == db && result == Some(r)
            case Refused => store.View() == old(store.View()) && result == None
  {
    hide OpUsed, FindVersion;
    var before := store.View();
    var desired := if m.kind == Delete then None else m.payload;
    var desiredHash := Digest(desired);
    var nextVersion: nat := 1;
    if m.key !in store.entities {
      store.entities := store.entities[m.key := Entity(1, desiredHash, desired, false)];
    } else {
      var entity := store.entities[m.key];
      nextVersion := entity.version + 1;
      entity := entity.(version := nextVersion);
      entity := entity.(hash := desiredHash);
      entity := entity.(payload := desired);
      entity := entity.(tombstone := m.kind == Delete);
      store.entities := store.entities[m.key := entity];
    }
    var row := VersionRow(m.key, nextVersion, desiredHash, desired, store.entities[m.key].tombstone, m.kind, m.op,
                          m.baseVersion, m.baseHash, device, draw.now);
    var id := store.AddVersion(row);
    if id.None? {
      store.Rollback(before);
      return None;
    }
    store.AddLogRow(id.value, draw.skip);
    result := Some(OpResult(m.op, Applied, Some(nextVersion), Some(desiredHash), None, [], None));
  }

  method FailedAmong(dependsOn: seq<Id>, byId: map<Id, OpResult>) returns (failed: seq<Id>)
    requires forall d :: d in dependsOn ==> d in byId
    ensures failed == FailedDependencies(dependsOn, byId)
  {
    failed := [];
    for i := 0 to |dependsOn|
      invariant failed == FailedDependencies(dependsOn[..i], byId)
    {
      assert dependsOn[..i+1][..i] == dependsOn[..i];
      if byId[dependsOn[i]].status !in {Applied, Noop} { failed := failed + [dependsOn[i]]; }
    }
    assert dependsOn[..|dependsOn|] == dependsOn;
  }

  /** Whatever a mutation comes to, its result carries its operation. */
  lemma ResultsNameOperation(db: Db, user: User, device: string, m: Mutation, draw: Draw)
    ensures ApplyMutation(db, user, device, m, draw).Done? ==>
              ApplyMutation(db, user, device, m, draw).result.op == m.op
    ensures m.key in db.entities && CreateConflict(db, device, m, draw).Done? ==>
              CreateConflict(db, device, m, draw).result.op == m.op
  {}

  method SettleIn(store: Store, user: User, device: string, m: Mutation, byId: map<Id, OpResult>, draw: Draw)
    returns (result: Option<OpResult>)
    requires ValidMutation(m)
    requires forall d :: d in m.dependsOn ==> d in byId
    modifies store
    ensures match Settle(old(store.View()), user, device, m, byId, draw)
            case Some((db, r)) => store.View() == db && result == Some(r)
            case None => result == None
  {
    hide ApplyMutation, CreateConflict, ValidMutation, FailedDependencies;
    ResultsNameOperation(store.View(), user, device, m, draw);
    var before := store.View();
    var failed := FailedAmong(m.dependsOn, byId);
    var attempt: Option<OpResult>;
    if failed != [] {
      attempt := Some(DependencyResult(m.op, failed));
    } else {
      attempt := ApplyMutationTo(store, user, device, m, draw);
    }
    if attempt.Some? && m.op !in store.opResults {
      store.opResults := store.opResults[m.op := attempt.value];
      return attempt;
    }
    store.Rollback(before);
    if m.op in store.opResults { return Some(RejectedResult(m.op, BatchInvalid)); }
    if m.kind == Create && m.key in store.entities {
      result := CreateConflictIn(store, device, m, draw);
      if result.None? { return; }
    } else {
      result := Some(if m.key in store.entities then StaleResult(m.op, store.entities[m.key])
                     else RejectedResult(m.op, BatchInvalid));
    }
    store.opResults := store.opResults[m.op := result.value];
  }

  lemma {:induction false} ByIdKeys(results: seq<OpResult>, op: Id)
    ensures op in ById(results) <==> exists j :: 0 <= j < |results| && results[j].op == op
  {
    if results != [] {
      var n := |results| - 1;
      ByIdKeys(results[..n], op);
    }
  }

  lemma SettleNamesOperation(db: Db, user: User, device: string, m: Mutation, byId: map<Id, OpResult>, draw: Draw)
    ensures Settle(db, user, device, m, byId, draw).Some?
            ==> Settle(db, user, device, m, byId, draw).value.1.op == m.op
  {}

  lemma PushPrefixStep(db: Db, user: User, device: string, ms: seq<Mutation>, draws: seq<Draw>, n: nat,
                       before: Db, results: seq<OpResult>)
    requires n < |ms| && PushPrefix(db, user, device, ms, draws, n) == Some((before, results))
    ensures PushPrefix(db, user, device, ms, draws, n + 1)
            == match Settle(before, user, device, ms[n], ById(results), DrawAt(draws, n))
               case None => None
               case Some((after, r)) => Some((after, results + [r]))
  {}

  lemma {:induction false} PushPrefixFails(db: Db, user: User, device: string, ms: seq<Mutation>, draws: seq<Draw>,
                                           n: nat, m: nat)
    requires n <= m <= |ms| && PushPrefix(db, user, device, ms, draws, n).None?
    ensures PushPrefix(db, user, device, ms, draws, m).None?
  {
    if n < m { PushPrefixFails(db, user, device, ms, draws, n, m - 1); }
  }

  /** Results stand in the order of the operations they answer. */
  ghost predicate Answers(results: seq<OpResult>, ms: seq<Mutation>) {
    |results| <= |ms| && forall i :: 0 <= i < |results| ==> results[i].op == ms[i].op
  }

  lemma EarlierDependenciesKnown(results: seq<OpResult>, ms: seq<Mutation>, d: Id)
    requires Answers(results, ms) && |results| < |ms| && GraphOk(ms)
    requires d in ms[|results|].dependsOn
    ensures d in ById(results)
  {
    var j :| 0 <= j < |results| && ms[j].op == d;
    assert results[j].op == d;
    ByIdKeys(results, d);
  }

  lemma EmptyPrefix(db: Db, user: User, device: string, ms: seq<Mutation>, draws: seq<Draw>)
    ensures PushPrefix(db, user, device, ms, draws, 0) == Some((db, [])) && Answers([], ms) && ById([]) == map[]
  {}

  lemma AppendResult(results: seq<OpResult>, r: OpResult, ms: seq<Mutation>)
    requires Answers(results, ms) && |results| < |ms| && r.op == ms[|results|].op
    ensures Answers(results + [r], ms) && ById(results + [r]) == ById(results)[r.op := r]
  {
    assert (results + [r])[..|results|] == results;
    AppendAnswer(results, r, ms);
    hide Answers;
  }

  lemma AppendAnswer(results: seq<OpResult>, r: OpResult, ms: seq<Mutation>)
    requires Answers(results, ms) && |results| < |ms| && r.op == ms[|results|].op
    ensures Answers(results + [r], ms)
  {}

  /** The loop over the batch; false when a constraint refused an operation twice. */
  method RunMutations(store: Store, user: User, device: string, ms: seq<Mutation>, draws: seq<Draw>)
    returns (settled: bool, results: seq<OpResult>)
    requires GraphOk(ms) && forall m :: m in ms ==> ValidMutation(m)
    modifies store
    ensures PushPrefix(old(store.View()), user, device, ms, draws, |ms|)
            == if settled then Some((store.View(), results)) else None
  {
    hide Settle, GraphOk, ValidMutation, PushPrefix, ById, Answers;
    var before := store.View();
    results := [];
    var byId: map<Id, OpResult> := map[];
    EmptyPrefix(before, user, device, ms, draws);
    for i := 0 to |ms|
      invariant PushPrefix(before, user, device, ms, draws, i) == Some((store.View(), results))
      invariant |results| == i && Answers(results, ms)
      invariant byId == ById(results)
    {
      forall d | d in ms[i].dependsOn ensures d in byId { EarlierDependenciesKnown(results, ms, d); }
      SettleNamesOperation(store.View(), user, device, ms[i], byId, DrawAt(draws, i));
      PushPrefixStep(before, user, device, ms, draws, i, store.View(), results);
      var result := SettleIn(store, user, device, ms[i], byId, DrawAt(draws, i));
      if result.None? {
        PushPrefixFails(before, user, device, ms, draws, i + 1, |ms|);
        return false, results;
      }
      AppendResult(results, result.value, ms);
      results := results + [result.value];
      byId := byId[result.value.op := result.value];
    }
    settled := true;
  }

  method PushMutations(store: Store, user: User, device: string, request: PushRequest, draws: seq<Draw>)
    returns (reply: Reply<seq<OpResult>>)
    modifies store
    ensures (store.View(), reply) == Push(old(store.View()), user, device, request, draws)
  {
    var graph := ValidateOperationGraph(request.mutations);
    if |request.mutations| > MAX_PUSH_MUTATIONS || !graph || exists m :: m in request.mutations && !ValidMutation(m) {
      return Fail(BatchInvalid);
    }
    if request.protocol != SYNC_PROTOCOL_VERSION { return Fail(ProtocolUnsupported); }
    if request.device != device { return Fail(EntityForbidden); }
    var key := BatchKey(device, request.batchId);
    if key in store.batches {
      var existing := store.batches[key];
      return if existing.request != request then Fail(IdempotencyMismatch) else Ok(existing.results);
    }
    var before := store.View();
    var settled, results := RunMutations(store, user, device, request.mutations, draws);
    if !settled {
      store.Rollback(before);
      return Fail(IntegrityViolation);
    }
    store.batches := store.batches[key := Batch(request, results)];
    reply := Ok(results);
  }
}
