/** When reads are answered: the exact conditions of an answered pull, acknowledgement and snapshot page, and that
    a device whose cursor is lost always finds its way back. */
module SyncAnswers {
  import opened Wrappers
  import opened SyncTypes
  import opened SyncLog
  import opened SyncState
  import opened SyncConflicts
  import opened SyncPush
  import opened SyncCompaction
  import opened SyncRead
  import opened SyncRuns
  import opened SyncCursors

  // ---------------------------------------------------------------- who is answered

  /** The epoch a read is answered in: the stream's, or the one that the first read of all starts. */
  function EpochOf(db: Db): Id {
    if db.stream.Some? then db.stream.value.epoch else db.nextUuid
  }

  predicate Known(db: Db, device: string) {
    device in db.devices
  }

  predicate Revoked(db: Db, device: string) {
    Known(db, device) && db.devices[device].revoked
  }

  /** A known device lost its place: its time ran out, or the epoch changed. */
  predicate Lapsed(db: Db, device: string, now: Time) {
    Known(db, device) && (db.devices[device].expiresAt <= now || db.devices[device].epoch != EpochOf(db))
  }

  /** A change cursor of this owner, device and epoch, not below the horizon. */
  predicate Usable(db: Db, device: string, c: Cursor) {
    c.ChangeCursor? && c.owner == db.owner && c.device == device && c.epoch == EpochOf(db)
        && HorizonOf(db) <= c.sequence
  }

  /** Why a cursor is refused: it is not a change cursor of this owner and device, or its time is past. */
  function CursorError(db: Db, device: string, c: Cursor): ErrorCode {
    if c.ChangeCursor? && c.owner == db.owner && c.device == device then CursorExpired else CursorInvalid
  }

  /** Why a device is refused. */
  function DeviceError(db: Db, device: string): ErrorCode {
    if Revoked(db, device) then EntityForbidden else CursorExpired
  }

  /** After an answered read the device stands in the current epoch, and for a full period. */
  ghost predicate Armed(db: Db, device: string, until: Time) {
    && db.stream.Some? && Known(db, device) && !db.devices[device].revoked
    && db.devices[device].epoch == db.stream.value.epoch && until <= db.devices[device].expiresAt
  }

  /** A pull is answered exactly when the device is neither revoked nor lapsed and the position it reads from, its
      cursor or the one it acknowledged, has not been compacted away. */
  lemma PullIsAnswered(db: Db, device: string, cursor: Option<Cursor>, pageSize: int, now: Time)
    requires DbOk(db)
    ensures var (db', reply) := Pull(db, device, cursor, pageSize, now);
            var refused := Revoked(db, device) || Lapsed(db, device, now);
            var position :=
              if cursor.Some? then Usable(db, device, cursor.value) else HorizonOf(db) <= CursorOf(db, device);
            && (reply.Ok? <==> !refused && position)
            && (reply.Ok? ==> Armed(db', device, now + DEVICE_CURSOR_TTL) && EpochOf(db') == EpochOf(db))
            && (reply.Fail? ==>
                  && db' == db
                  && reply.error == if refused then DeviceError(db, device)
                                    else if cursor.Some? then CursorError(db, device, cursor.value) else CursorExpired)
  {
    hide CoreOk, ConflictsOk, ResolutionsOk, RestoresOk, ChangesPage;
  }

  /** An acknowledgement is answered exactly when the device is neither revoked nor lapsed and its cursor is usable. */
  lemma AcknowledgementIsAnswered(db: Db, device: string, cursor: Cursor, now: Time)
    requires DbOk(db)
    ensures var (db', reply) := Acknowledge(db, device, cursor, now);
            var refused := Revoked(db, device) || Lapsed(db, device, now);
            && (reply.Ok? <==> !refused && Usable(db, device, cursor))
            && (reply.Ok? ==> Armed(db', device, now + DEVICE_CURSOR_TTL) && EpochOf(db') == EpochOf(db))
            && (reply.Fail? ==>
                  && db' == db
                  && reply.error == if refused then DeviceError(db, device) else CursorError(db, device, cursor))
  {
    hide CoreOk, ConflictsOk, ResolutionsOk, RestoresOk;
  }

  /** A first snapshot page is refused to a revoked device alone, however long ago its cursor lapsed; a later page
      also needs the snapshot cursor of this owner, device and epoch. */
  lemma SnapshotIsAnswered(db: Db, device: string, cursor: Option<Cursor>, pageSize: int, now: Time)
    requires DbOk(db)
    ensures var (db', reply) := SnapshotEntities(db, device, cursor, pageSize, now);
            && (reply.Ok? <==> !Revoked(db, device)
                               && (cursor.Some? ==>
                                     var c := cursor.value;
                                     && c.SnapshotCursor? && c.owner == db.owner && c.device == device
                                     && c.epoch == EpochOf(db)))
            && (reply.Ok? ==> Armed(db', device, now + DEVICE_CURSOR_TTL) && EpochOf(db') == EpochOf(db))
            && (reply.Fail? ==>
                  && db' == db
                  && var ours := cursor.Some? && cursor.value.SnapshotCursor? && cursor.value.owner == db.owner
                                 && cursor.value.device == device;
                     reply.error == if Revoked(db, device) then EntityForbidden
                                    else if ours then SnapshotExpired else CursorInvalid)
  {
    hide CoreOk, ConflictsOk, ResolutionsOk, RestoresOk, EntriesPage, MaxSequence;
  }

  // ---------------------------------------------------------------- recovery

  /** No read of the run carries an earlier clock. */
  ghost predicate NotBefore(requests: seq<Request>, now: Time) {
    forall q :: q in requests ==>
      match q
      case DoPull(_, _, _, at) => now <= at
      case DoAcknowledge(_, _, at) => now <= at
      case DoSnapshot(_, _, _, at) => now <= at
      case _ => true
  }

  lemma WritesKeepDevices(db: Db, q: Request)
    requires q.DoPush? || q.DoResolve? || q.DoRestore? || q.DoCompact?
    ensures Step(db, q).devices == db.devices
  {
    hide Push, Resolve, RestoreTo, Compact;
    match q {
      case DoPush(user, device, batch, draws) => PushKeepsDevices(db, user, device, batch, draws);
      case DoResolve(conflictId, resolution, device, draw) =>
        ResolveKeepsDevices(db, conflictId, resolution, device, draw);
      case DoRestore(restore, device, draw) => RestoreKeepsDevices(db, restore, device, draw);
      case DoCompact(now, days, apply) => CompactKeepsDevices(db, now, days, apply);
    }
  }

  /** A read changes the row of its own device at most. */
  lemma PullTouchesOne(db: Db, device: string, cursor: Option<Cursor>, pageSize: int, now: Time)
    ensures forall d :: d != device && d in db.devices ==>
              var after := Pull(db, device, cursor, pageSize, now).0;
              d in after.devices && after.devices[d] == db.devices[d]
  {
    hide ChangesPage;
  }

  lemma AcknowledgeTouchesOne(db: Db, device: string, cursor: Cursor, now: Time)
    ensures forall d :: d != device && d in db.devices ==>
              var after := Acknowledge(db, device, cursor, now).0;
              d in after.devices && after.devices[d] == db.devices[d]
  {}

  lemma SnapshotTouchesOne(db: Db, device: string, cursor: Option<Cursor>, pageSize: int, now: Time)
    ensures forall d :: d != device && d in db.devices ==>
              var after := SnapshotEntities(db, device, cursor, pageSize, now).0;
              d in after.devices && after.devices[d] == db.devices[d]
  {
    hide EntriesPage, MaxSequence;
  }

  /** As long as the epoch lasts, a device that stands in it does so after any call. */
  lemma StepKeepsArmed(db: Db, q: Request, device: string, now: Time)
    requires DbOk(db) && Armed(db, device, now + DEVICE_CURSOR_TTL) && NotBefore([q], now)
    requires Step(db, q).stream == db.stream
    ensures Armed(Step(db, q), device, now + DEVICE_CURSOR_TTL)
  {
    hide DbOk, Pull, Acknowledge, SnapshotEntities, Push, Resolve, RestoreTo, Compact;
    assert q in [q];
    match q {
      case DoPull(d, cursor, size, at) =>
        PullIsAnswered(db, d, cursor, size, at);
        PullTouchesOne(db, d, cursor, size, at);
      case DoAcknowledge(d, position, at) =>
        AcknowledgementIsAnswered(db, d, position, at);
        AcknowledgeTouchesOne(db, d, position, at);
      case DoSnapshot(d, cursor, size, at) =>
        SnapshotIsAnswered(db, d, cursor, size, at);
        SnapshotTouchesOne(db, d, cursor, size, at);
      case _ => WritesKeepDevices(db, q);
    }
  }

  /** Epochs never come back. */
  lemma EpochNeverReturns(a: Db, b: Db, c: Db)
    requires DbOk(a) && a.stream.Some? && Grows(a, b) && Grows(b, c) && EpochOf(c) == EpochOf(a)
    ensures b.stream == a.stream && c.stream == a.stream
  {
    hide CoreOk, SameViews, MaxSequence, CursorOf;
  }

  lemma {:induction false} RunKeepsArmed(db: Db, requests: seq<Request>, device: string, now: Time)
    requires DbOk(db) && Armed(db, device, now + DEVICE_CURSOR_TTL) && NotBefore(requests, now)
    requires EpochOf(Run(db, requests)) == EpochOf(db)
    ensures Armed(Run(db, requests), device, now + DEVICE_CURSOR_TTL) && Run(db, requests).stream == db.stream
    decreases requests
  {
    hide DbOk, Grows, Step;
    if requests != [] {
      var next := Step(db, requests[0]);
      StepKeepsAll(db, requests[0]);
      RunKeepsAll(next, requests[1..]);
      EpochNeverReturns(db, next, Run(db, requests));
      assert requests[0] in requests && forall q :: q in requests[1..] ==> q in requests;
      StepKeepsArmed(db, requests[0], device, now);
      RunKeepsArmed(next, requests[1..], device, now);
    }
  }

  /** Recovery. Whatever became of its cursor, a device that is not revoked gets a first snapshot page. From then on,
      after any run, as long as the epoch lasts and its time has not run out: the next page is answered, and so are a
      pull from the cursor the snapshot resumes at and an acknowledgement of it. */
  lemma LapsedDevicesRecover(db: Db, device: string, pageSize: int, now: Time, between: seq<Request>, pageSize': int,
                             later: Time)
    requires DbOk(db) && !Revoked(db, device)
    requires NotBefore(between, now) && now <= later < now + DEVICE_CURSOR_TTL
    requires var after := SnapshotEntities(db, device, None, pageSize, now).0;
             EpochOf(Run(after, between)) == EpochOf(after)
    ensures var (after, reply) := SnapshotEntities(db, device, None, pageSize, now);
            var db' := Run(after, between);
            && reply.Ok?
            && SnapshotEntities(db', device, Some(reply.value.next), pageSize', later).1.Ok?
            && Pull(db', device, Some(reply.value.resume), pageSize', later).1.Ok?
            && Acknowledge(db', device, reply.value.resume, later).1.Ok?
  {
    SnapshotIsAnswered(db, device, None, pageSize, now);
    FirstPageCursors(db, device, pageSize, now);
    SnapshotKeepsAll(db, device, None, pageSize, now);
    hide DbOk, Grows, SnapshotEntities, Pull, Acknowledge, Run;
    var (after, reply) := SnapshotEntities(db, device, None, pageSize, now);
    RunKeepsArmed(after, between, device, now);
    RunKeepsAll(after, between);
    SameOwner(after, Run(after, between));
    SnapshotIsAnswered(Run(after, between), device, Some(reply.value.next), pageSize', later);
    PullIsAnswered(Run(after, between), device, Some(reply.value.resume), pageSize', later);
    AcknowledgementIsAnswered(Run(after, between), device, reply.value.resume, later);
  }

  lemma SameOwner(a: Db, b: Db)
    requires Grows(a, b)
    ensures a.owner == b.owner
  {}

  lemma FirstPageCursors(db: Db, device: string, pageSize: int, now: Time)
    requires DbOk(db) && SnapshotEntities(db, device, None, pageSize, now).1.Ok?
    ensures var (after, reply) := SnapshotEntities(db, device, None, pageSize, now);
            && after.owner == db.owner && reply.value.resume.ChangeCursor? && Usable(after, device, reply.value.resume)
            && var c := reply.value.next;
               c.SnapshotCursor? && c.owner == after.owner && c.device == device && c.epoch == EpochOf(after)
  {
    SnapshotKeepsAll(db, device, None, pageSize, now);
    hide SnapshotEntities, CoreOk, ConflictsOk, ResolutionsOk, RestoresOk, MaxSequence, Newest, KeysAt, KeysBeyond,
        SameViews;
    var boundary, last := PositionOfSnapshot(db, device, None, pageSize, now);
  }

  // ---------------------------------------------------------------- every reachable state

  /** No call revokes a device. */
  lemma NobodyRevoked(db: Db, q: Request)
    requires DbOk(db) && forall d :: d in db.devices ==> !db.devices[d].revoked
    ensures forall d :: d in Step(db, q).devices ==> !Step(db, q).devices[d].revoked
  {
    hide DbOk, Pull, Acknowledge, SnapshotEntities, Push, Resolve, RestoreTo, Compact;
    match q {
      case DoPull(d, cursor, size, at) => PullRevokesNobody(db, d, cursor, size, at);
      case DoAcknowledge(d, position, at) => AcknowledgeRevokesNobody(db, d, position, at);
      case DoSnapshot(d, cursor, size, at) => SnapshotRevokesNobody(db, d, cursor, size, at);
      case _ => WritesKeepDevices(db, q);
    }
  }

  lemma PullRevokesNobody(db: Db, device: string, cursor: Option<Cursor>, pageSize: int, now: Time)
    requires forall d :: d in db.devices ==> !db.devices[d].revoked
    ensures var after := Pull(db, device, cursor, pageSize, now).0;
            forall d :: d in after.devices ==> !after.devices[d].revoked
  {
    hide ChangesPage;
  }

  lemma AcknowledgeRevokesNobody(db: Db, device: string, cursor: Cursor, now: Time)
    requires forall d :: d in db.devices ==> !db.devices[d].revoked
    ensures var after := Acknowledge(db, device, cursor, now).0;
            forall d :: d in after.devices ==> !after.devices[d].revoked
  {}

  lemma SnapshotRevokesNobody(db: Db, device: string, cursor: Option<Cursor>, pageSize: int, now: Time)
    requires forall d :: d in db.devices ==> !db.devices[d].revoked
    ensures var after := SnapshotEntities(db, device, cursor, pageSize, now).0;
            forall d :: d in after.devices ==> !after.devices[d].revoked
  {
    hide EntriesPage, MaxSequence;
  }

  lemma {:induction false} NobodyIsRevoked(db: Db, requests: seq<Request>)
    requires DbOk(db) && forall d :: d in db.devices ==> !db.devices[d].revoked
    ensures forall d :: d in Run(db, requests).devices ==> !Run(db, requests).devices[d].revoked
    decreases requests
  {
    hide DbOk, Grows, Step;
    if requests != [] {
      StepKeepsAll(db, requests[0]);
      NobodyRevoked(db, requests[0]);
      NobodyIsRevoked(Step(db, requests[0]), requests[1..]);
    }
  }

  /** In every reachable state every device, new, lapsed or overtaken by a compaction, gets a first snapshot page. */
  lemma EveryDeviceRecovers(owner: Id, requests: seq<Request>, device: string, pageSize: int, now: Time)
    ensures SnapshotEntities(Run(EmptyDb(owner), requests), device, None, pageSize, now).1.Ok?
  {
    EmptyDbOk(owner);
    RunKeepsAll(EmptyDb(owner), requests);
    NobodyIsRevoked(EmptyDb(owner), requests);
    hide DbOk, Grows, SnapshotEntities, Run;
    SnapshotIsAnswered(Run(EmptyDb(owner), requests), device, None, pageSize, now);
  }
}
