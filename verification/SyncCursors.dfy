/** Cursor discipline: what the signed cursors in circulation may point at, and that it stays so. */
module SyncCursors {
  import opened Wrappers
  import opened SyncTypes
  import opened SyncLog
  import opened SyncState
  import opened SyncCompaction
  import opened SyncPush
  import opened SyncConflicts
  import opened SyncRead
  import opened SyncPaging
  import opened SyncRuns

  // ---------------------------------------------------------------- the cursors in circulation

  /** The cursors a request hands out. */
  function Returned(db: Db, q: Request): set<Cursor> {
    match q
    case DoPull(device, cursor, size, now) =>
      (match Pull(db, device, cursor, size, now).1 case Ok(page) => {page.next} case Fail(_) => {})
    case DoAcknowledge(device, position, now) =>
      (match Acknowledge(db, device, position, now).1 case Ok(r) => {r.cursor} case Fail(_) => {})
    case DoSnapshot(device, cursor, size, now) =>
      (match SnapshotEntities(db, device, cursor, size, now).1
       case Ok(page) => {page.next, page.resume}
       case Fail(_) => {})
    case _ => {}
  }

  predicate Genuine(minted: set<Cursor>, owner: Id, c: Cursor) {
    c in minted || c.Unsigned? || c.owner != owner
  }

  /** Cursors are signed: a request presents one the server returned, one made for another owner, or noise. */
  predicate Unforged(db: Db, minted: set<Cursor>, q: Request) {
    match q
    case DoPull(_, cursor, _, _) => cursor.None? || Genuine(minted, db.owner, cursor.value)
    case DoAcknowledge(_, position, _) => Genuine(minted, db.owner, position)
    case DoSnapshot(_, cursor, _, _) => cursor.None? || Genuine(minted, db.owner, cursor.value)
    case _ => true
  }

  function PointOf(c: Cursor): nat
    requires !c.Unsigned?
  {
    if c.ChangeCursor? then c.sequence else c.boundary
  }

  /** A cursor in circulation never points above the log; in the current epoch it never points below the
      horizon. */
  ghost predicate CursorOk(db: Db, c: Cursor) {
    && !c.Unsigned? && c.owner == db.owner
    && c.epoch < db.nextUuid
    && PointOf(c) <= MaxSequence(db.log)
    && (db.stream.Some? && c.epoch == db.stream.value.epoch ==> db.stream.value.horizon <= PointOf(c))
  }

  ghost predicate MintedOk(db: Db, minted: set<Cursor>) {
    forall c :: c in minted ==> CursorOk(db, c)
  }

  /** No device has acknowledged more than the log ever held. */
  ghost predicate DevicesWithin(db: Db) {
    forall d :: CursorOf(db, d) <= MaxSequence(db.log)
  }

  lemma GrowthKeepsCursor(a: Db, b: Db, c: Cursor)
    requires Grows(a, b) && CursorOk(a, c)
    ensures CursorOk(b, c)
  {}

  /** The position a successful pull reads from: the cursor presented, or the acknowledged one. */
  lemma PositionOfPull(db: Db, device: string, cursor: Option<Cursor>, pageSize: int, now: Time) returns (sequence: nat)
    requires DbOk(db) && Pull(db, device, cursor, pageSize, now).1.Ok?
    ensures var (db', reply) := Pull(db, device, cursor, pageSize, now);
            && db'.stream.Some? && db'.log == db.log && db'.owner == db.owner
            && HorizonOf(db') <= sequence
            && (match cursor
                case None => sequence == CursorOf(db, device)
                case Some(c) => c.ChangeCursor? && c.owner == db.owner && c.device == device
                                && c.epoch == db'.stream.value.epoch && c.sequence == sequence)
            && reply.value == ChangesPage(db', device, sequence, pageSize)
  {
    TouchKeepsAll(db, device, now, false);
    hide DbOk, EnsureStream, TouchDevice, ChangesPage;
    var touched := Pull(db, device, cursor, pageSize, now).0;
    sequence := if cursor.Some? then cursor.value.sequence else touched.devices[device].cursor;
  }

  lemma PagePoint(db: Db, device: string, sequence: nat, pageSize: int)
    requires LogOk(db) && db.stream.Some? && sequence <= MaxSequence(db.log)
    ensures var c := ChangesPage(db, device, sequence, pageSize).next;
            c.ChangeCursor? && c.owner == db.owner && c.device == device && c.epoch == db.stream.value.epoch
            && sequence <= c.sequence <= MaxSequence(db.log)
  {
    var i := RowsAfterIsSuffix(db.log, sequence);
    var j := PageIsRows(db, device, sequence, pageSize, i);
    MaxSequenceBounds(db.log);
    hide ChangesPage, RowsAfter, MaxSequence;
    if i < j { assert db.log[j-1] in db.log; }
  }

  /** Presented cursors that are accepted are in circulation. */
  lemma AcceptedIsMinted(db: Db, minted: set<Cursor>, c: Cursor)
    requires MintedOk(db, minted) && Genuine(minted, db.owner, c) && !c.Unsigned? && c.owner == db.owner
    ensures CursorOk(db, c)
  {}

  lemma PullReturnsOk(db: Db, minted: set<Cursor>, device: string, cursor: Option<Cursor>, pageSize: int, now: Time)
    requires DbOk(db) && MintedOk(db, minted) && DevicesWithin(db)
    requires cursor.None? || Genuine(minted, db.owner, cursor.value)
    requires Pull(db, device, cursor, pageSize, now).1.Ok?
    ensures var (db', reply) := Pull(db, device, cursor, pageSize, now);
            CursorOk(db', reply.value.next) && reply.value.next.ChangeCursor? && reply.value.next.device == device
  {
    var (db', reply) := Pull(db, device, cursor, pageSize, now);
    var sequence := PositionOfPull(db, device, cursor, pageSize, now);
    PullKeepsAll(db, device, cursor, pageSize, now);
    assert CursorOf(db, device) <= MaxSequence(db.log);
    if cursor.Some? { AcceptedIsMinted(db, minted, cursor.value); }
    StreamFresh(db');
    hide Pull, CoreOk, MaxSequence, ChangesPage, Grows;
    PagePoint(db', device, sequence, pageSize);
  }

  lemma StreamFresh(db: Db)
    requires DbOk(db) && db.stream.Some?
    ensures db.stream.value.epoch < db.nextUuid && db.stream.value.horizon <= MaxSequence(db.log)
  {}

  lemma PositionAcknowledged(db: Db, device: string, position: Cursor, now: Time)
    requires DbOk(db) && Acknowledge(db, device, position, now).1.Ok?
    ensures var (db', reply) := Acknowledge(db, device, position, now);
            && position.ChangeCursor? && position.owner == db.owner && position.device == device
            && db'.stream.Some? && db'.log == db.log && db'.owner == db.owner
            && position.epoch == db'.stream.value.epoch && HorizonOf(db') <= position.sequence
            && (reply.value.advanced <==> position.sequence > CursorOf(db, device))
            && CursorOf(db', device) == (if reply.value.advanced then position.sequence else CursorOf(db, device))
            && (forall d :: d != device ==> CursorOf(db', d) == CursorOf(db, d))
            && reply.value.cursor == ChangeCursor(db.owner, device, db'.stream.value.epoch, CursorOf(db', device))
            && db'.versions == db.versions
  {
    TouchKeepsAll(db, device, now, false);
    hide DbOk, EnsureStream, TouchDevice, Grows;
  }

  lemma AcknowledgeReturnsOk(db: Db, minted: set<Cursor>, device: string, position: Cursor, now: Time)
    requires DbOk(db) && MintedOk(db, minted) && DevicesWithin(db) && Genuine(minted, db.owner, position)
    requires Acknowledge(db, device, position, now).1.Ok?
    ensures position.ChangeCursor? && position.sequence <= MaxSequence(db.log)
    ensures var (db', reply) := Acknowledge(db, device, position, now);
            CursorOk(db', reply.value.cursor)
  {
    PositionAcknowledged(db, device, position, now);
    AcceptedIsMinted(db, minted, position);
    AcknowledgeKeepsAll(db, device, position, now);
    assert CursorOf(db, device) <= MaxSequence(db.log);
    var db' := Acknowledge(db, device, position, now).0;
    StreamFresh(db');
    hide Acknowledge, CoreOk, MaxSequence, Grows;
  }

  /** The boundary and last key a successful snapshot request pages from. */
  lemma PositionOfSnapshot(db: Db, device: string, cursor: Option<Cursor>, pageSize: int, now: Time)
    returns (boundary: nat, last: Option<Key>)
    requires DbOk(db) && SnapshotEntities(db, device, cursor, pageSize, now).1.Ok?
    ensures var (db', reply) := SnapshotEntities(db, device, cursor, pageSize, now);
            && db'.stream.Some? && db'.log == db.log && db'.owner == db.owner && db'.versions == db.versions
            && (match cursor
                case None => boundary == MaxSequence(db.log) && last == None
                case Some(c) => c.SnapshotCursor? && c.owner == db.owner && c.device == device
                                && c.epoch == db'.stream.value.epoch && c.boundary == boundary && c.last == last)
            && exists id :: reply.value == EntriesPage(db', device, id, boundary, last, pageSize)
  {
    TouchKeepsAll(db, device, now, true);
    var (db', reply) := SnapshotEntities(db, device, cursor, pageSize, now);
    var touched := TouchDevice(EnsureStream(db), device, now, true).value;
    if cursor.None? {
      boundary, last := MaxSequence(db.log), None;
      PageIgnoresUuids(touched, db', device, touched.nextUuid, boundary, last, pageSize);
    } else {
      boundary, last := cursor.value.boundary, cursor.value.last;
    }
    hide DbOk, EnsureStream, TouchDevice, EntriesPage, Grows;
  }

  lemma {:induction false} NewestIgnoresUuids(a: Db, b: Db, keys: seq<Key>, boundary: nat)
    requires a.log == b.log && a.versions == b.versions
    ensures Newest(a, keys, boundary) == Newest(b, keys, boundary)
  {
    if keys != [] { NewestIgnoresUuids(a, b, keys[1..], boundary); }
  }

  lemma PageIgnoresUuids(a: Db, b: Db, device: string, id: Id, boundary: nat, last: Option<Key>, pageSize: int)
    requires a.stream.Some? && b == a.(nextUuid := b.nextUuid)
    ensures EntriesPage(a, device, id, boundary, last, pageSize) == EntriesPage(b, device, id, boundary, last, pageSize)
  {
    NewestIgnoresUuids(a, b, KeysBeyond(KeysAt(a.log, boundary), last), boundary);
  }

  lemma SnapshotReturnsOk(db: Db, minted: set<Cursor>, device: string, cursor: Option<Cursor>, pageSize: int, now: Time)
    requires DbOk(db) && MintedOk(db, minted)
    requires cursor.None? || Genuine(minted, db.owner, cursor.value)
    requires SnapshotEntities(db, device, cursor, pageSize, now).1.Ok?
    ensures var (db', reply) := SnapshotEntities(db, device, cursor, pageSize, now);
            var page := reply.value;
            && CursorOk(db', page.next) && page.next.SnapshotCursor? && page.next.device == device
            && CursorOk(db', page.resume) && page.resume.ChangeCursor? && page.resume.device == device
            && page.resume.epoch == page.next.epoch && page.resume.sequence == page.next.boundary
  {
    hide SnapshotEntities, CoreOk, MaxSequence, Grows, Newest, KeysAt, KeysBeyond, ConflictsOk, ResolutionsOk,
        RestoresOk;
    var (db', reply) := SnapshotEntities(db, device, cursor, pageSize, now);
    var boundary, last := PositionOfSnapshot(db, device, cursor, pageSize, now);
    SnapshotKeepsAll(db, device, cursor, pageSize, now);
    if cursor.Some? { AcceptedIsMinted(db, minted, cursor.value); }
    StreamFresh(db');
    StreamMovesOf(db, db');
    var id :| reply.value == EntriesPage(db', device, id, boundary, last, pageSize);
    hide DbOk;
  }

  lemma StreamMovesOf(a: Db, b: Db)
    requires Grows(a, b)
    ensures StreamMoves(a, b) && a.nextUuid <= b.nextUuid
  {}

  /** Only an acknowledgement moves a device, and only to a sequence a cursor in circulation names. */
  lemma StepKeepsWithin(db: Db, minted: set<Cursor>, q: Request)
    requires DbOk(db) && MintedOk(db, minted) && DevicesWithin(db) && Unforged(db, minted, q)
    ensures DevicesWithin(Step(db, q))
  {
    StepKeepsAll(db, q);
    hide DbOk, MintedOk, Pull, SnapshotEntities, CursorOf, MaxSequence, Acknowledge;
    var db' := Step(db, q);
    MaxNeverFalls(db, db');
    hide Grows;
    forall d ensures CursorOf(db', d) <= MaxSequence(db'.log) {
      if q.DoAcknowledge? {
        hide Step;
        AcknowledgedWithin(db, minted, q.device, q.position, q.now, d);
      } else {
        OnlyAcknowledgementsMoveCursors(db, q, d);
      }
    }
  }

  lemma MaxNeverFalls(a: Db, b: Db)
    requires Grows(a, b)
    ensures MaxSequence(a.log) <= MaxSequence(b.log)
  {}

  lemma AcknowledgedWithin(db: Db, minted: set<Cursor>, device: string, position: Cursor, now: Time, d: string)
    requires DbOk(db) && MintedOk(db, minted) && DevicesWithin(db) && Genuine(minted, db.owner, position)
    ensures CursorOf(Acknowledge(db, device, position, now).0, d) <= MaxSequence(db.log)
  {
    hide DbOk, MintedOk, CursorOf, MaxSequence;
    assert CursorOf(db, d) <= MaxSequence(db.log);
    if Acknowledge(db, device, position, now).1.Ok? {
      PositionAcknowledged(db, device, position, now);
      AcknowledgeReturnsOk(db, minted, device, position, now);
    }
  }

  /** Cursor discipline: one step with unforged cursors keeps every cursor in circulation, and every device's
      acknowledged sequence, within bounds. */
  lemma StepKeepsCursors(db: Db, minted: set<Cursor>, q: Request)
    requires DbOk(db) && MintedOk(db, minted) && DevicesWithin(db) && Unforged(db, minted, q)
    ensures DbOk(Step(db, q)) && Grows(db, Step(db, q)) && MintedOk(Step(db, q), minted + Returned(db, q))
    ensures DevicesWithin(Step(db, q))
  {
    StepKeepsAll(db, q);
    StepKeepsWithin(db, minted, q);
    hide DbOk, Grows, Push, Resolve, RestoreTo, Compact, Pull, Acknowledge, SnapshotEntities, CursorOk, DevicesWithin;
    match q {
      case DoPull(device, cursor, size, now) =>
        if Pull(db, device, cursor, size, now).1.Ok? { PullReturnsOk(db, minted, device, cursor, size, now); }
      case DoAcknowledge(device, position, now) =>
        if Acknowledge(db, device, position, now).1.Ok? { AcknowledgeReturnsOk(db, minted, device, position, now); }
      case DoSnapshot(device, cursor, size, now) =>
        if SnapshotEntities(db, device, cursor, size, now).1.Ok? {
          SnapshotReturnsOk(db, minted, device, cursor, size, now);
        }
      case _ =>
    }
    forall c | c in minted ensures CursorOk(Step(db, q), c) { GrowthKeepsCursor(db, Step(db, q), c); }
  }

  // ---------------------------------------------------------------- unforged runs

  /** A run in which every cursor presented was returned earlier in it, made for another owner, or noise. */
  ghost predicate UnforgedRun(db: Db, minted: set<Cursor>, requests: seq<Request>)
    decreases requests
  {
    requests != [] ==>
      && Unforged(db, minted, requests[0])
      && UnforgedRun(Step(db, requests[0]), minted + Returned(db, requests[0]), requests[1..])
  }

  ghost function MintedAfter(db: Db, minted: set<Cursor>, requests: seq<Request>): set<Cursor>
    decreases requests
  {
    if requests == [] then minted
    else MintedAfter(Step(db, requests[0]), minted + Returned(db, requests[0]), requests[1..])
  }

  lemma {:induction false} RunKeepsCursors(db: Db, minted: set<Cursor>, requests: seq<Request>)
    requires DbOk(db) && MintedOk(db, minted) && DevicesWithin(db) && UnforgedRun(db, minted, requests)
    ensures MintedOk(Run(db, requests), MintedAfter(db, minted, requests)) && DevicesWithin(Run(db, requests))
    decreases requests
  {
    hide DbOk, MintedOk, DevicesWithin, Step, Returned, Unforged, Grows;
    if requests != [] {
      StepKeepsCursors(db, minted, requests[0]);
      RunKeepsCursors(Step(db, requests[0]), minted + Returned(db, requests[0]), requests[1..]);
    }
  }

  /** In every state an unforged run reaches, no device has acknowledged more than the log's maximum. */
  lemma DevicesStayWithin(owner: Id, requests: seq<Request>, device: string)
    requires UnforgedRun(EmptyDb(owner), {}, requests)
    ensures CursorOf(Run(EmptyDb(owner), requests), device) <= MaxSequence(Run(EmptyDb(owner), requests).log)
  {
    EmptyDbOk(owner);
    RunKeepsCursors(EmptyDb(owner), {}, requests);
    hide MaxSequence, CursorOf;
  }

  /** And every cursor handed out lies between horizon and maximum as long as its epoch lasts. */
  lemma CursorsStayWithin(owner: Id, requests: seq<Request>, c: Cursor)
    requires UnforgedRun(EmptyDb(owner), {}, requests) && c in MintedAfter(EmptyDb(owner), {}, requests)
    ensures var db := Run(EmptyDb(owner), requests);
            && !c.Unsigned? && PointOf(c) <= MaxSequence(db.log)
            && (db.stream.Some? && c.epoch == db.stream.value.epoch ==> HorizonOf(db) <= PointOf(c))
  {
    EmptyDbOk(owner);
    RunKeepsCursors(EmptyDb(owner), {}, requests);
    assert CursorOk(Run(EmptyDb(owner), requests), c);
  }
}
