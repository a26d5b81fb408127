/** Reading a stream: incremental pages after a cursor, acknowledgements, and a snapshot of the newest
    row per entity at a pinned boundary, paged by key. */
module SyncRead {
  import opened Wrappers
  import opened SyncTypes
  import opened SyncLog
  import opened SyncState
  import opened SyncStore

  const MAX_PULL_PAGE_SIZE := 500
  const DEVICE_CURSOR_TTL := 90 * 86400

  datatype PullPage = PullPage(changes: seq<Change>, next: Cursor, hasMore: bool)
  datatype AckReply = AckReply(cursor: Cursor, advanced: bool)
  datatype SnapshotPage = SnapshotPage(snapshotId: Id, entries: seq<Change>, next: Cursor, hasMore: bool,
                                       resume: Cursor)

  // ---------------------------------------------------------------- streams, devices, cursors

  function EnsureStream(db: Db): (r: Db)
    ensures r.stream.Some?
  {
    if db.stream.Some? then db
    else db.(stream := Some(Stream(db.nextUuid, 0, 0)), nextUuid := db.nextUuid + 1)
  }

  predicate Expired(row: DeviceRow, stream: Stream, now: Time) {
    row.expiresAt <= now || row.epoch != stream.epoch
  }

  /** The device's row, created at sequence 0 when it is new; an expired one needs snapshot recovery. */
  function TouchDevice(db: Db, device: string, now: Time, allowRecovery: bool): Reply<Db>
    requires db.stream.Some?
  {
    var stream := db.stream.value;
    if device !in db.devices then
      Ok(db.(devices := db.devices[device := DeviceRow(stream.epoch, 0, now + DEVICE_CURSOR_TTL, false)]))
    else
      var row := db.devices[device];
      if row.revoked then Fail(EntityForbidden)
      else if Expired(row, stream, now) && !allowRecovery then Fail(CursorExpired)
      else
        Ok(db.(devices := db.devices[device := row.(epoch := stream.epoch, expiresAt := now + DEVICE_CURSOR_TTL)]))
  }

  function ValidateChangeCursor(db: Db, device: string, cursor: Cursor): Reply<nat>
    requires db.stream.Some?
  {
    if !cursor.ChangeCursor? || cursor.owner != db.owner || cursor.device != device then Fail(CursorInvalid)
    else if cursor.epoch != db.stream.value.epoch then Fail(CursorExpired)
    else if cursor.sequence < db.stream.value.horizon then Fail(CursorExpired)
    else Ok(cursor.sequence)
  }

  function ClampPage(pageSize: int): (n: nat)
    ensures 1 <= n <= MAX_PULL_PAGE_SIZE
  {
    var atLeastOne := if pageSize < 1 then 1 else pageSize;
    if atLeastOne > MAX_PULL_PAGE_SIZE then MAX_PULL_PAGE_SIZE else atLeastOne
  }

  function Take<T>(s: seq<T>, n: nat): seq<T> {
    if n < |s| then s[..n] else s
  }

  // ---------------------------------------------------------------- incremental pages

  /** The rows above a sequence, in sequence order. */
  function RowsAfter(log: seq<LogRow>, sequence: nat): seq<LogRow> {
    if log == [] then []
    else
      RowsAfter(log[..|log|-1], sequence) + if log[|log|-1].sequence > sequence then [log[|log|-1]] else []
  }

  function Changes(versions: seq<VersionRow>, rows: seq<LogRow>): (cs: seq<Change>)
    ensures |cs| == |rows| && forall i :: 0 <= i < |rows| ==> cs[i] == ChangeOf(versions, rows[i])
  {
    seq(|rows|, i requires 0 <= i < |rows| => ChangeOf(versions, rows[i]))
  }

  function ChangesPage(db: Db, device: string, sequence: nat, pageSize: int): PullPage
    requires db.stream.Some?
  {
    var size := ClampPage(pageSize);
    var rows := Take(RowsAfter(db.log, sequence), size + 1);
    var page := Take(rows, size);
    var next := if page != [] then page[|page|-1].sequence else sequence;
    PullPage(Changes(db.versions, page), ChangeCursor(db.owner, device, db.stream.value.epoch, next), |rows| > size)
  }

  function Pull(db: Db, device: string, cursor: Option<Cursor>, pageSize: int, now: Time): (Db, Reply<PullPage>) {
    match TouchDevice(EnsureStream(db), device, now, false)
    case Fail(error) => (db, Fail(error))
    case Ok(touched) =>
      var position := if cursor.Some? then ValidateChangeCursor(touched, device, cursor.value)
                      else Ok(touched.devices[device].cursor);
      match position
      case Fail(error) => (db, Fail(error))
      case Ok(sequence) =>
        if sequence < touched.stream.value.horizon then (db, Fail(CursorExpired))
        else (touched, Ok(ChangesPage(touched, device, sequence, pageSize)))
  }

  // ---------------------------------------------------------------- acknowledgements

  function Acknowledge(db: Db, device: string, cursor: Cursor, now: Time): (Db, Reply<AckReply>) {
    match TouchDevice(EnsureStream(db), device, now, false)
    case Fail(error) => (db, Fail(error))
    case Ok(touched) =>
      match ValidateChangeCursor(touched, device, cursor)
      case Fail(error) => (db, Fail(error))
      case Ok(sequence) =>
        var row := touched.devices[device];
        var advanced := sequence > row.cursor;
        var acked := if advanced then sequence else row.cursor;
        (touched.(devices := touched.devices[device := row.(cursor := acked)]),
         Ok(AckReply(ChangeCursor(db.owner, device, touched.stream.value.epoch, acked), advanced)))
  }

  // ---------------------------------------------------------------- snapshots

  function InsertKey(keys: seq<Key>, k: Key): seq<Key> {
    if keys == [] then [k]
    else if keys[0] == k then keys
    else if KeyLess(k, keys[0]) then [k] + keys
    else [keys[0]] + InsertKey(keys[1..], k)
  }

  /** The entities with a row at or below the boundary, ordered by type and identifier. */
  function KeysAt(log: seq<LogRow>, boundary: nat): seq<Key> {
    if log == [] then []
    else
      var keys := KeysAt(log[..|log|-1], boundary);
      var row := log[|log|-1];
      if row.sequence <= boundary then InsertKey(keys, row.key) else keys
  }

  predicate Beyond(k: Key, last: Option<Key>) {
    last.None? || KeyLess(last.value, k)
  }

  function KeysBeyond(keys: seq<Key>, last: Option<Key>): seq<Key> {
    if keys == [] then []
    else (if Beyond(keys[0], last) then [keys[0]] else []) + KeysBeyond(keys[1..], last)
  }

  /** The newest rows of the given entities at the boundary, joined with their versions. */
  function Newest(db: Db, keys: seq<Key>, boundary: nat): seq<Change> {
    if keys == [] then []
    else
      (match LatestAt(db.log, keys[0], boundary)
       case None => []
       case Some(r) => [ChangeOf(db.versions, r)]) + Newest(db, keys[1..], boundary)
  }

  function EntriesPage(db: Db, device: string, snapshotId: Id, boundary: nat, last: Option<Key>,
                       pageSize: int): SnapshotPage
    requires db.stream.Some?
  {
    var size := ClampPage(pageSize);
    var rows := Take(Newest(db, KeysBeyond(KeysAt(db.log, boundary), last), boundary), size + 1);
    var page := Take(rows, size);
    var nextLast := if page != [] then Some(page[|page|-1].key) else last;
    var epoch := db.stream.value.epoch;
    SnapshotPage(snapshotId, page, SnapshotCursor(db.owner, device, epoch, snapshotId, boundary, nextLast),
                 |rows| > size, ChangeCursor(db.owner, device, epoch, boundary))
  }

  function SnapshotEntities(db: Db, device: string, cursor: Option<Cursor>, pageSize: int, now: Time)
    : (Db, Reply<SnapshotPage>)
  {
    match TouchDevice(EnsureStream(db), device, now, true)
    case Fail(error) => (db, Fail(error))
    case Ok(touched) =>
      match cursor
      case None =>
        (touched.(nextUuid := touched.nextUuid + 1),
         Ok(EntriesPage(touched, device, touched.nextUuid, MaxSequence(touched.log), None, pageSize)))
      case Some(c) =>
        if !c.SnapshotCursor? || c.owner != db.owner || c.device != device then (db, Fail(CursorInvalid))
        else if c.epoch != touched.stream.value.epoch then (db, Fail(SnapshotExpired))
        else (touched, Ok(EntriesPage(touched, device, c.snapshotId, c.boundary, c.last, pageSize)))
  }

  // ---------------------------------------------------------------- the services

  method StreamIn(store: Store) returns (stream: Stream)
    modifies store`stream, store`nextUuid
    ensures store.View() == EnsureStream(old(store.View())) && store.stream == Some(stream)
  {
    if store.stream.None? {
      var epoch := store.NewUuid();
      store.stream := Some(Stream(epoch, 0, 0));
    }
    stream := store.stream.value;
  }

  method DeviceCursorIn(store: Store, device: string, now: Time, allowRecovery: bool) returns (error: Option<ErrorCode>)
    requires store.stream.Some?
    modifies store`devices
    ensures match TouchDevice(old(store.View()), device, now, allowRecovery)
            case Ok(db) => store.View() == db && error == None
            case Fail(e) => error == Some(e)
  {
    var stream := store.stream.value;
    if device !in store.devices {
      store.devices := store.devices[device := DeviceRow(stream.epoch, 0, now + DEVICE_CURSOR_TTL, false)];
      return None;
    }
    var row := store.devices[device];
    if row.revoked { return Some(EntityForbidden); }
    var expired := row.expiresAt <= now || row.epoch != stream.epoch;
    if expired && !allowRecovery { return Some(CursorExpired); }
    if expired { row := row.(epoch := stream.epoch); }
    row := row.(expiresAt := now + DEVICE_CURSOR_TTL);
    store.devices := store.devices[device := row];
    error := None;
  }

  method PullChanges(store: Store, device: string, cursor: Option<Cursor>, pageSize: int, now: Time)
    returns (reply: Reply<PullPage>)
    modifies store
    ensures (store.View(), reply) == Pull(old(store.View()), device, cursor, pageSize, now)
  {
    var before := store.View();
    var stream := StreamIn(store);
    var error := DeviceCursorIn(store, device, now, false);
    if error.Some? {
      store.Rollback(before);
      return Fail(error.value);
    }
    var sequence := store.devices[device].cursor;
    if cursor.Some? {
      var validated := ValidateChangeCursor(store.View(), device, cursor.value);
      if validated.Fail? {
        store.Rollback(before);
        return Fail(validated.error);
      }
      sequence := validated.value;
    }
    if sequence < stream.horizon {
      store.Rollback(before);
      return Fail(CursorExpired);
    }
    reply := Ok(ChangesPage(store.View(), device, sequence, pageSize));
  }

  method AcknowledgeCursor(store: Store, device: string, cursor: Cursor, now: Time) returns (reply: Reply<AckReply>)
    modifies store
    ensures (store.View(), reply) == Acknowledge(old(store.View()), device, cursor, now)
  {
    var before := store.View();
    var stream := StreamIn(store);
    var error := DeviceCursorIn(store, device, now, false);
    if error.Some? {
      store.Rollback(before);
      return Fail(error.value);
    }
    var validated := ValidateChangeCursor(store.View(), device, cursor);
    if validated.Fail? {
      store.Rollback(before);
      return Fail(validated.error);
    }
    var row := store.devices[device];
    var advanced := validated.value > row.cursor;
    if advanced { row := row.(cursor := validated.value); }
    store.devices := store.devices[device := row];
    reply := Ok(AckReply(ChangeCursor(store.owner, device, stream.epoch, row.cursor), advanced));
  }

  method SnapshotPageOf(store: Store, device: string, cursor: Option<Cursor>, pageSize: int, now: Time)
    returns (reply: Reply<SnapshotPage>)
    modifies store
    ensures (store.View(), reply) == SnapshotEntities(old(store.View()), device, cursor, pageSize, now)
  {
    var before := store.View();
    var stream := StreamIn(store);
    var error := DeviceCursorIn(store, device, now, true);
    if error.Some? {
      store.Rollback(before);
      return Fail(error.value);
    }
    if cursor.None? {
      var boundary := MaxSequence(store.log);
      var touched := store.View();
      var snapshotId := store.NewUuid();
      return Ok(EntriesPage(touched, device, snapshotId, boundary, None, pageSize));
    }
    var c := cursor.value;
    if !c.SnapshotCursor? || c.owner != store.owner || c.device != device {
      store.Rollback(before);
      return Fail(CursorInvalid);
    }
    if c.epoch != stream.epoch {
      store.Rollback(before);
      return Fail(SnapshotExpired);
    }
    reply := Ok(EntriesPage(store.View(), device, c.snapshotId, c.boundary, c.last, pageSize));
  }
}
