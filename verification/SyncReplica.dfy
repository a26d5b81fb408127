/** Devices and their replicas over whole runs of server and devices: whatever pushes, resolutions,
    compactions, expiries and half-finished snapshots lie between, a replica is the newest-per-entity view
    at its device's cursor, and once a pull reports nothing more it is the server's entities. */
module SyncReplica {
  import opened Wrappers
  import opened SyncTypes
  import opened SyncLog
  import opened SyncState
  import opened SyncConflicts
  import opened SyncPush
  import opened SyncCompaction
  import opened SyncRead
  import opened SyncPaging
  import opened SyncRuns
  import opened SyncCursors

  /** A snapshot being collected: the cursor of its next page and what its pages gave so far. */
  datatype Staging = Staging(next: Cursor, collected: Replica)

  /** A device: its replica and the cursor it committed with it; the replicas it saved, under their sequence,
      before it asked for their acknowledgement; the sequence it knows the server to have acknowledged, unless
      an answer was lost; and a snapshot in progress. */
  datatype Client = Client(
    replica: Replica, position: Option<Cursor>, saved: map<nat, Replica>, acknowledged: Option<nat>,
    staging: Option<Staging>)

  datatype System = System(db: Db, minted: set<Cursor>, clients: map<string, Client>)

  const FRESH := Client(map[], None, map[0 := map[]], Some(0), None)

  function ClientOf(sys: System, device: string): Client {
    if device in sys.clients then sys.clients[device] else FRESH
  }

  /** What can happen next. `Serve` is any service call whose answer no replica uses: writes, compactions,
      reads whose answer is lost. A device that pulls from its checkpoint, or for the first time, sends no
      cursor. A lost acknowledgement reaches the server, but its answer does not reach the device. */
  datatype Event =
    | Serve(q: Request)
    | PullPosition(device: string, pageSize: int, now: Time)
    | PullCheckpoint(device: string, pageSize: int, now: Time)
    | AcknowledgeReplica(device: string, now: Time)
    | LoseAcknowledgement(device: string, now: Time)
    | StartSnapshot(device: string, pageSize: int, now: Time)
    | ContinueSnapshot(device: string, pageSize: int, now: Time)

  /** Devices acknowledge only what they committed, so an acknowledgement is never a stray call; and a device
      pulls from its checkpoint only when it knows which one the server holds. */
  predicate Possible(sys: System, e: Event) {
    match e
    case Serve(q) => !q.DoAcknowledge? && Unforged(sys.db, sys.minted, q)
    case PullPosition(device, _, _) => ClientOf(sys, device).position.Some?
    case PullCheckpoint(device, _, _) => ClientOf(sys, device).acknowledged.Some?
    case AcknowledgeReplica(device, _) => ClientOf(sys, device).position.Some?
    case LoseAcknowledgement(device, _) => ClientOf(sys, device).position.Some?
    case ContinueSnapshot(device, _, _) => ClientOf(sys, device).staging.Some?
    case _ => true
  }

  /** The service call an event makes. */
  function CallOf(sys: System, e: Event): Request
    requires Possible(sys, e)
  {
    match e
    case Serve(q) => q
    case PullPosition(device, size, now) => DoPull(device, ClientOf(sys, device).position, size, now)
    case PullCheckpoint(device, size, now) => DoPull(device, None, size, now)
    case AcknowledgeReplica(device, now) => DoAcknowledge(device, ClientOf(sys, device).position.value, now)
    case LoseAcknowledgement(device, now) => DoAcknowledge(device, ClientOf(sys, device).position.value, now)
    case StartSnapshot(device, size, now) => DoSnapshot(device, None, size, now)
    case ContinueSnapshot(device, size, now) =>
      DoSnapshot(device, Some(ClientOf(sys, device).staging.value.next), size, now)
  }

  /** The replica saved before its acknowledgement is asked for. */
  function Save(client: Client): Client {
    if client.position.Some? && client.position.value.ChangeCursor? then
      client.(saved := client.saved[client.position.value.sequence := client.replica])
    else client
  }

  /** The replica a pull without a cursor starts from. */
  function Checkpoint(client: Client): Replica {
    if client.acknowledged.Some? && client.acknowledged.value in client.saved
    then client.saved[client.acknowledged.value] else map[]
  }

  /** A page collected: with more to come it is staged, else it is installed with its resume cursor. */
  function Collect(client: Client, collected: Replica, page: SnapshotPage): Client {
    var all := ApplyChanges(collected, page.entries);
    if page.hasMore then client.(staging := Some(Staging(page.next, all)))
    else client.(replica := all, position := Some(page.resume), staging := None)
  }

  /** What the device makes of the answer; an error leaves it as it was. */
  function React(db: Db, client: Client, e: Event): Client {
    match e
    case Serve(_) => client
    case PullPosition(device, size, now) =>
      (match Pull(db, device, client.position, size, now).1
       case Fail(_) => client
       case Ok(page) => client.(replica := ApplyChanges(client.replica, page.changes), position := Some(page.next)))
    case PullCheckpoint(device, size, now) =>
      (match Pull(db, device, None, size, now).1
       case Fail(_) => client
       case Ok(page) => client.(replica := ApplyChanges(Checkpoint(client), page.changes), position := Some(page.next)))
    case AcknowledgeReplica(device, now) =>
      if client.position.None? then client
      else
        (match Acknowledge(db, device, client.position.value, now).1
         case Fail(_) => Save(client)
         case Ok(r) => Save(client).(acknowledged := if r.cursor.ChangeCursor? then Some(r.cursor.sequence) else None))
    case LoseAcknowledgement(_, _) => Save(client).(acknowledged := None)
    case StartSnapshot(device, size, now) =>
      (match SnapshotEntities(db, device, None, size, now).1
       case Fail(_) => client
       case Ok(page) => Collect(client, map[], page))
    case ContinueSnapshot(device, size, now) =>
      if client.staging.None? then client
      else
        (match SnapshotEntities(db, device, Some(client.staging.value.next), size, now).1
         case Fail(_) => client
         case Ok(page) => Collect(client, client.staging.value.collected, page))
  }

  function Next(sys: System, e: Event): System
    requires Possible(sys, e)
  {
    var q := CallOf(sys, e);
    System(Step(sys.db, q), sys.minted + Returned(sys.db, q),
           if e.Serve? then sys.clients
           else sys.clients[e.device := React(sys.db, ClientOf(sys, e.device), e)])
  }

  ghost predicate AllPossible(sys: System, events: seq<Event>)
    decreases events
  {
    events == [] || (Possible(sys, events[0]) && AllPossible(Next(sys, events[0]), events[1..]))
  }

  ghost function After(sys: System, events: seq<Event>): System
    requires AllPossible(sys, events)
    decreases events
  {
    if events == [] then sys else After(Next(sys, events[0]), events[1..])
  }

  function Initial(owner: Id): System {
    System(EmptyDb(owner), {}, map[])
  }

  // ---------------------------------------------------------------- the invariant

  predicate Current(db: Db, c: Cursor) {
    !c.Unsigned? && db.stream.Some? && c.epoch == db.stream.value.epoch
  }

  /** As long as the horizon has not passed them: a replica is the view at its cursor, the pages collected of a
      snapshot are its boundary's view up to their last key, and a saved replica is the view at its sequence.
      What the server holds as acknowledged is among the saved ones, and what the device knows of it is so. */
  ghost predicate ClientOk(db: Db, minted: set<Cursor>, device: string, client: Client) {
    && (client.position.Some? ==>
          && client.position.value in minted && client.position.value.ChangeCursor?
          && (HorizonOf(db) <= client.position.value.sequence ==>
               Agrees(client.replica, db, client.position.value.sequence)))
    && (client.staging.Some? ==>
          var next := client.staging.value.next;
          && next in minted && next.SnapshotCursor?
          && (HorizonOf(db) <= next.boundary ==>
               AgreesUpTo(client.staging.value.collected, db, next.boundary, next.last)))
    && SavedOk(db, client.saved)
    && CursorOf(db, device) in client.saved
    && (client.acknowledged.Some? ==> client.acknowledged.value == CursorOf(db, device))
  }

  ghost predicate SavedOk(db: Db, saved: map<nat, Replica>) {
    forall s :: s in saved ==> s <= MaxSequence(db.log) && (HorizonOf(db) <= s ==> Agrees(saved[s], db, s))
  }

  ghost predicate SystemOk(sys: System) {
    && DbOk(sys.db) && MintedOk(sys.db, sys.minted) && DevicesWithin(sys.db)
    && forall d :: ClientOk(sys.db, sys.minted, d, ClientOf(sys, d))
  }

  /** The views a device may rely on outlast a step: same epoch, same views at its cursors. */
  lemma ViewsOutlast(a: Db, b: Db, replica: Replica, s: nat)
    requires Grows(a, b) && HorizonOf(b) <= s <= a.lastSequence
    ensures Agrees(replica, a, s) <==> Agrees(replica, b, s)
    ensures forall last :: AgreesUpTo(replica, a, s, last) <==> AgreesUpTo(replica, b, s, last)
  {
    assert forall k :: ViewAt(b, k, s) == ViewAt(a, k, s);
  }

  lemma MaxBelowLast(db: Db)
    requires DbOk(db)
    ensures MaxSequence(db.log) <= db.lastSequence
  {
    MaxSequenceBounds(db.log);
  }

  /** A cursor of the current epoch after a step was of the current epoch before it. */
  lemma StillCurrent(a: Db, b: Db, c: Cursor)
    requires Grows(a, b) && CursorOk(a, c) && Current(b, c)
    ensures Current(a, c) && HorizonOf(b) == HorizonOf(a) <= PointOf(c) <= MaxSequence(a.log)
  {}

  lemma SavedOutlast(a: Db, b: Db, saved: map<nat, Replica>)
    requires DbOk(a) && Grows(a, b) && SavedOk(a, saved)
    ensures SavedOk(b, saved)
  {
    MaxBelowLast(a);
    MaxNeverFalls(a, b);
    HorizonNeverFalls(a, b);
    hide DbOk, Agrees, MaxSequence;
    forall s | s in saved ensures s <= MaxSequence(b.log) && (HorizonOf(b) <= s ==> Agrees(saved[s], b, s)) {
      if HorizonOf(b) <= s { ViewsOutlast(a, b, saved[s], s); }
    }
  }

  lemma PointWithin(db: Db, minted: set<Cursor>, c: Cursor)
    requires MintedOk(db, minted) && c in minted
    ensures !c.Unsigned? && PointOf(c) <= MaxSequence(db.log)
    ensures Current(db, c) ==> HorizonOf(db) <= PointOf(c)
  {
    assert CursorOk(db, c);
  }

  /** A device that takes no part in a step keeps what it has. */
  lemma BystanderKeeps(a: Db, b: Db, minted: set<Cursor>, minted': set<Cursor>, device: string, client: Client)
    requires DbOk(a) && MintedOk(a, minted) && Grows(a, b) && minted <= minted'
    requires CursorOf(b, device) == CursorOf(a, device)
    requires ClientOk(a, minted, device, client)
    ensures ClientOk(b, minted', device, client)
  {
    hide DbOk, MintedOk, Grows, SavedOk, Agrees, AgreesUpTo, CursorOf;
    MovedKeeps(a, b, minted, minted', device, client, client.acknowledged);
    assert client.(acknowledged := client.acknowledged) == client;
  }

  // ---------------------------------------------------------------- the device that acts

  /** What a device holds is enough for its next pull: its replica for one with its cursor, its checkpoint for
      one without. */
  lemma BaseAgrees(db: Db, minted: set<Cursor>, device: string, client: Client)
    requires MintedOk(db, minted) && ClientOk(db, minted, device, client)
    ensures client.position.Some? && Current(db, client.position.value) ==>
              && client.position.value.ChangeCursor?
              && Agrees(client.replica, db, client.position.value.sequence)
    ensures client.acknowledged.Some? && HorizonOf(db) <= CursorOf(db, device) ==>
              Agrees(Checkpoint(client), db, CursorOf(db, device))
  {
    hide Agrees, AgreesUpTo, CursorOf, MaxSequence, MintedOk;
    if client.position.Some? { PointWithin(db, minted, client.position.value); }
  }

  lemma StagingAgrees(db: Db, minted: set<Cursor>, device: string, client: Client)
    requires MintedOk(db, minted) && ClientOk(db, minted, device, client)
    ensures client.staging.Some? && Current(db, client.staging.value.next) ==>
              var next := client.staging.value.next;
              next.SnapshotCursor? && AgreesUpTo(client.staging.value.collected, db, next.boundary, next.last)
  {
    hide Agrees, AgreesUpTo, CursorOf, MaxSequence, MintedOk, SavedOk;
    if client.staging.Some? { PointWithin(db, minted, client.staging.value.next); }
  }

  /** A pull that is answered from a view the device holds leaves it with the view at the next cursor. */
  lemma PullAgrees(db: Db, minted: set<Cursor>, device: string, cursor: Option<Cursor>, base: Replica, pageSize: int,
                   now: Time)
    requires DbOk(db) && MintedOk(db, minted) && DevicesWithin(db)
    requires cursor.None? || cursor.value in minted
    requires Pull(db, device, cursor, pageSize, now).1.Ok?
    requires cursor.Some? && cursor.value.ChangeCursor? && Current(db, cursor.value) ==>
               Agrees(base, db, cursor.value.sequence)
    requires cursor.None? && HorizonOf(db) <= CursorOf(db, device) ==> Agrees(base, db, CursorOf(db, device))
    ensures var (db', reply) := Pull(db, device, cursor, pageSize, now);
            var page := reply.value;
            && page.next.ChangeCursor?
            && Agrees(ApplyChanges(base, page.changes), db', page.next.sequence)
            && (!page.hasMore ==> Agrees(ApplyChanges(base, page.changes), db', db'.lastSequence))
  {
    var (db', reply) := Pull(db, device, cursor, pageSize, now);
    var sequence := PositionOfPull(db, device, cursor, pageSize, now);
    PullKeepsAll(db, device, cursor, pageSize, now);
    assert CursorOf(db, device) <= MaxSequence(db.log);
    MaxBelowLast(db);
    LogOfDb(db');
    hide DbOk, CoreOk, Agrees, Pull, MaxSequence, CursorOf, ChangesPage;
    if cursor.Some? { StillCurrent(db, db', cursor.value); }
    HorizonNeverFalls(db, db');
    assert Agrees(base, db, sequence);
    ViewsOutlast(db, db', base, sequence);
    PageAgrees(base, db', device, sequence, pageSize);
  }

  lemma LogOfDb(db: Db)
    requires DbOk(db)
    ensures LogOk(db)
  {}

  lemma HorizonNeverFalls(a: Db, b: Db)
    requires Grows(a, b)
    ensures HorizonOf(a) <= HorizonOf(b)
  {}

  /** A snapshot page answered from a correct staging continues it correctly, and the last one is the
      complete view at the resume cursor. */
  lemma SnapshotAgrees(db: Db, minted: set<Cursor>, device: string, cursor: Option<Cursor>, collected: Replica,
                       pageSize: int, now: Time)
    requires DbOk(db) && MintedOk(db, minted)
    requires cursor.None? || cursor.value in minted
    requires SnapshotEntities(db, device, cursor, pageSize, now).1.Ok?
    requires cursor.None? ==> collected == map[]
    requires cursor.Some? && cursor.value.SnapshotCursor? && Current(db, cursor.value)
             ==> AgreesUpTo(collected, db, cursor.value.boundary, cursor.value.last)
    ensures var (db', reply) := SnapshotEntities(db, device, cursor, pageSize, now);
            var page := reply.value;
            && page.next.SnapshotCursor? && page.resume.ChangeCursor?
            && AgreesUpTo(ApplyChanges(collected, page.entries), db', page.next.boundary, page.next.last)
            && (!page.hasMore ==> Agrees(ApplyChanges(collected, page.entries), db', page.resume.sequence))
  {
    var (db', reply) := SnapshotEntities(db, device, cursor, pageSize, now);
    var boundary, last := PositionOfSnapshot(db, device, cursor, pageSize, now);
    SnapshotKeepsAll(db, device, cursor, pageSize, now);
    MaxBelowLast(db);
    LogOfDb(db');
    EmptyAgreesWithNothing(db', boundary);
    SnapshotReturnsOk(db, minted, device, cursor, pageSize, now);
    hide DbOk, CoreOk, Agrees, AgreesUpTo, SnapshotEntities, MaxSequence, EntriesPage;
    if cursor.Some? {
      StillCurrent(db, db', cursor.value);
      ViewsOutlast(db, db', collected, boundary);
    }
    var id :| reply.value == EntriesPage(db', device, id, boundary, last, pageSize);
    SnapshotPageAgrees(collected, db', device, id, boundary, last, pageSize);
  }

  lemma EmptyAgreesWithNothing(db: Db, boundary: nat)
    ensures AgreesUpTo(map[], db, boundary, None)
  {}

  lemma CollectKeeps(db: Db, minted: set<Cursor>, device: string, client: Client, collected: Replica,
                     page: SnapshotPage)
    requires ClientOk(db, minted, device, client)
    requires page.next in minted && page.resume in minted && page.next.SnapshotCursor? && page.resume.ChangeCursor?
    requires AgreesUpTo(ApplyChanges(collected, page.entries), db, page.next.boundary, page.next.last)
    requires !page.hasMore ==> Agrees(ApplyChanges(collected, page.entries), db, page.resume.sequence)
    ensures ClientOk(db, minted, device, Collect(client, collected, page))
  {
    hide Agrees, AgreesUpTo, CursorOf, ApplyChanges;
  }

  /** The acting device stays correct through every event. */
  lemma ActorKeeps(sys: System, e: Event)
    requires SystemOk(sys) && Possible(sys, e) && !e.Serve?
    ensures var sys' := Next(sys, e);
            ClientOk(sys'.db, sys'.minted, e.device, React(sys.db, ClientOf(sys, e.device), e))
  {
    hide DbOk, CoreOk, Agrees, AgreesUpTo, MintedOk, Grows, ApplyChanges, CursorOf, Pull, Acknowledge, SnapshotEntities;
    var db, db' := sys.db, Step(sys.db, CallOf(sys, e));
    var client := ClientOf(sys, e.device);
    var minted' := sys.minted + Returned(db, CallOf(sys, e));
    ActorUnforged(sys, e);
    StepKeepsCursors(db, sys.minted, CallOf(sys, e));
    assert ClientOk(db, sys.minted, e.device, client);
    BaseAgrees(db, sys.minted, e.device, client);
    StagingAgrees(db, sys.minted, e.device, client);
    hide SystemOk, SavedOk, DevicesWithin;
    match e {
      case AcknowledgeReplica(device, now) =>
        AcknowledgeKeeps(db, sys.minted, minted', device, client, now);
      case LoseAcknowledgement(device, now) =>
        AcknowledgeKeeps(db, sys.minted, minted', device, client, now);
      case PullPosition(device, size, now) =>
        OnlyAcknowledgementsMoveCursors(db, CallOf(sys, e), device);
        BystanderKeeps(db, db', sys.minted, minted', device, client);
        if Pull(db, device, client.position, size, now).1.Ok? {
          PullAgrees(db, sys.minted, device, client.position, client.replica, size, now);
        }
      case PullCheckpoint(device, size, now) =>
        OnlyAcknowledgementsMoveCursors(db, CallOf(sys, e), device);
        BystanderKeeps(db, db', sys.minted, minted', device, client);
        if Pull(db, device, None, size, now).1.Ok? {
          PullAgrees(db, sys.minted, device, None, Checkpoint(client), size, now);
        }
      case StartSnapshot(device, size, now) =>
        OnlyAcknowledgementsMoveCursors(db, CallOf(sys, e), device);
        BystanderKeeps(db, db', sys.minted, minted', device, client);
        if SnapshotEntities(db, device, None, size, now).1.Ok? {
          SnapshotAgrees(db, sys.minted, device, None, map[], size, now);
          CollectKeeps(db', minted', device, client, map[], SnapshotEntities(db, device, None, size, now).1.value);
        }
      case ContinueSnapshot(device, size, now) =>
        OnlyAcknowledgementsMoveCursors(db, CallOf(sys, e), device);
        BystanderKeeps(db, db', sys.minted, minted', device, client);
        var next := Some(client.staging.value.next);
        if SnapshotEntities(db, device, next, size, now).1.Ok? {
          SnapshotAgrees(db, sys.minted, device, next, client.staging.value.collected, size, now);
          CollectKeeps(db', minted', device, client, client.staging.value.collected,
                       SnapshotEntities(db, device, next, size, now).1.value);
        }
    }
  }

  lemma ActorUnforged(sys: System, e: Event)
    requires SystemOk(sys) && Possible(sys, e)
    ensures Unforged(sys.db, sys.minted, CallOf(sys, e))
  {
    if !e.Serve? {
      assert ClientOk(sys.db, sys.minted, e.device, ClientOf(sys, e.device));
      hide DbOk, MintedOk, Agrees, AgreesUpTo, CursorOf;
    }
  }

  /** Whether its answer arrives or not, an acknowledgement leaves the device with what it saved. */
  lemma AcknowledgeKeeps(db: Db, minted: set<Cursor>, minted': set<Cursor>, device: string, client: Client, now: Time)
    requires DbOk(db) && MintedOk(db, minted) && DevicesWithin(db) && minted <= minted'
    requires ClientOk(db, minted, device, client) && client.position.Some?
    ensures var db' := Acknowledge(db, device, client.position.value, now).0;
            && ClientOk(db', minted', device, React(db, client, AcknowledgeReplica(device, now)))
            && ClientOk(db', minted', device, React(db, client, LoseAcknowledgement(device, now)))
  {
    var position := client.position.value;
    var (db', reply) := Acknowledge(db, device, position, now);
    StepKeepsCursors(db, minted, DoAcknowledge(device, position, now));
    SaveKeeps(db, minted, device, client);
    hide DbOk, CoreOk, Agrees, AgreesUpTo, MintedOk, CursorOf, DevicesWithin, SavedOk, MaxSequence, ClientOk;
    if reply.Fail? {
      FailedAcknowledge(db, device, position, now);
      MovedKeeps(db, db', minted, minted', device, Save(client), client.acknowledged);
      MovedKeeps(db, db', minted, minted', device, Save(client), None);
    } else {
      PositionAcknowledged(db, device, position, now);
      hide Acknowledge;
      MovedKeeps(db, db', minted, minted', device, Save(client), Some(CursorOf(db', device)));
      MovedKeeps(db, db', minted, minted', device, Save(client), None);
    }
  }

  /** Saving the replica under its cursor's sequence keeps everything. */
  lemma SaveKeeps(db: Db, minted: set<Cursor>, device: string, client: Client)
    requires MintedOk(db, minted) && ClientOk(db, minted, device, client) && client.position.Some?
    ensures ClientOk(db, minted, device, Save(client))
    ensures client.position.value.ChangeCursor? && client.position.value.sequence in Save(client).saved
  {
    PointWithin(db, minted, client.position.value);
    hide MintedOk, Agrees, AgreesUpTo, MaxSequence, CursorOf;
  }

  /** The server moved to a saved sequence, or stayed, and the device knows so or knows nothing. */
  lemma MovedKeeps(a: Db, b: Db, minted: set<Cursor>, minted': set<Cursor>, device: string, client: Client,
                   known: Option<nat>)
    requires DbOk(a) && MintedOk(a, minted) && Grows(a, b) && minted <= minted'
    requires ClientOk(a, minted, device, client) && CursorOf(b, device) in client.saved
    requires known.Some? ==> known.value == CursorOf(b, device)
    ensures ClientOk(b, minted', device, client.(acknowledged := known))
  {
    MaxBelowLast(a);
    SavedOutlast(a, b, client.saved);
    HorizonNeverFalls(a, b);
    hide DbOk, Agrees, AgreesUpTo, MaxSequence, CursorOf, MintedOk, SavedOk;
    if client.position.Some? {
      PointWithin(a, minted, client.position.value);
      var s := client.position.value.sequence;
      if HorizonOf(b) <= s { ViewsOutlast(a, b, client.replica, s); }
    }
    if client.staging.Some? {
      var next := client.staging.value.next;
      PointWithin(a, minted, next);
      if HorizonOf(b) <= next.boundary { ViewsOutlast(a, b, client.staging.value.collected, next.boundary); }
    }
  }

  lemma FailedAcknowledge(db: Db, device: string, position: Cursor, now: Time)
    requires Acknowledge(db, device, position, now).1.Fail?
    ensures Acknowledge(db, device, position, now).0 == db
  {}

  // ---------------------------------------------------------------- every run

  lemma EventKeepsSystem(sys: System, e: Event)
    requires SystemOk(sys) && Possible(sys, e)
    ensures SystemOk(Next(sys, e))
  {
    var sys' := Next(sys, e);
    var q := CallOf(sys, e);
    ActorUnforged(sys, e);
    StepKeepsCursors(sys.db, sys.minted, q);
    hide DbOk, MintedOk, Grows, ClientOk, React, Step, Returned, Unforged;
    forall d ensures ClientOk(sys'.db, sys'.minted, d, ClientOf(sys', d)) {
      if !e.Serve? && e.device == d {
        ActorKeeps(sys, e);
      } else {
        OthersKeepCursors(sys, e, d);
        BystanderKeeps(sys.db, sys'.db, sys.minted, sys'.minted, d, ClientOf(sys, d));
      }
    }
  }

  lemma OthersKeepCursors(sys: System, e: Event, d: string)
    requires SystemOk(sys) && Possible(sys, e) && (e.Serve? || e.device != d)
    ensures CursorOf(Step(sys.db, CallOf(sys, e)), d) == CursorOf(sys.db, d)
  {
    hide DbOk, MintedOk, ClientOk, Unforged, Pull, SnapshotEntities, Acknowledge;
    var q := CallOf(sys, e);
    if q.DoAcknowledge? {
      if Acknowledge(sys.db, q.device, q.position, q.now).1.Ok? {
        PositionAcknowledged(sys.db, q.device, q.position, q.now);
      } else {
        FailedAcknowledge(sys.db, q.device, q.position, q.now);
      }
    } else {
      OnlyAcknowledgementsMoveCursors(sys.db, q, d);
    }
  }

  /** Every reachable system of server and devices satisfies the invariant. */
  lemma {:induction false} ReachableSystems(sys: System, events: seq<Event>)
    requires SystemOk(sys) && AllPossible(sys, events)
    ensures SystemOk(After(sys, events))
    decreases events
  {
    hide SystemOk, Possible, Next;
    if events != [] {
      EventKeepsSystem(sys, events[0]);
      ReachableSystems(Next(sys, events[0]), events[1..]);
    }
  }

  lemma InitialSystemOk(owner: Id)
    ensures SystemOk(Initial(owner))
  {
    EmptyDbOk(owner);
    var sys := Initial(owner);
    forall d ensures ClientOk(sys.db, sys.minted, d, ClientOf(sys, d)) {
      assert Agrees(map[], sys.db, 0);
    }
  }

  /** The replica holds exactly the server's entities. */
  ghost predicate Converged(replica: Replica, db: Db) {
    forall k ::
      && (k in replica <==> k in db.entities)
      && (k in replica ==> Shows(replica[k], db.entities[k]))
  }

  lemma NewestViewIsEntities(replica: Replica, db: Db)
    requires DbOk(db) && Agrees(replica, db, db.lastSequence)
    ensures Converged(replica, db)
  {
    forall k
      ensures k in replica <==> k in db.entities
      ensures k in replica ==> Shows(replica[k], db.entities[k])
    {
      assert Held(replica, k) == ViewAt(db, k, db.lastSequence);
    }
  }

  /** Replica convergence. After any run at all, a pull that is answered, with the device's cursor or without
      one, leaves the device with the view at its new cursor, and one that reports nothing more leaves it with
      exactly the server's entities. A device's first pull has no cursor. */
  lemma PullConverges(owner: Id, events: seq<Event>, e: Event)
    requires AllPossible(Initial(owner), events) && (e.PullPosition? || e.PullCheckpoint?)
    requires Possible(After(Initial(owner), events), e)
    ensures var sys := After(Initial(owner), events);
            var cursor := if e.PullPosition? then ClientOf(sys, e.device).position else None;
            var (db', reply) := Pull(sys.db, e.device, cursor, e.pageSize, e.now);
            var client' := ClientOf(Next(sys, e), e.device);
            reply.Ok? ==>
              && client'.position == Some(reply.value.next) && reply.value.next.ChangeCursor?
              && Agrees(client'.replica, db', reply.value.next.sequence)
              && (!reply.value.hasMore ==> Converged(client'.replica, db'))
  {
    InitialSystemOk(owner);
    ReachableSystems(Initial(owner), events);
    var sys := After(Initial(owner), events);
    hide After, AllPossible;
    PulledReplica(sys, e);
  }

  lemma PulledReplica(sys: System, e: Event)
    requires SystemOk(sys) && (e.PullPosition? || e.PullCheckpoint?) && Possible(sys, e)
    ensures var cursor := if e.PullPosition? then ClientOf(sys, e.device).position else None;
            var (db', reply) := Pull(sys.db, e.device, cursor, e.pageSize, e.now);
            var client' := ClientOf(Next(sys, e), e.device);
            reply.Ok? ==>
              && client'.position == Some(reply.value.next) && reply.value.next.ChangeCursor?
              && Agrees(client'.replica, db', reply.value.next.sequence)
              && (!reply.value.hasMore ==> Converged(client'.replica, db'))
  {
    var client := ClientOf(sys, e.device);
    assert ClientOk(sys.db, sys.minted, e.device, client);
    var cursor := if e.PullPosition? then client.position else None;
    var base := if e.PullPosition? then client.replica else Checkpoint(client);
    var (db', reply) := Pull(sys.db, e.device, cursor, e.pageSize, e.now);
    if reply.Ok? {
      BaseAgrees(sys.db, sys.minted, e.device, client);
      hide Pull, Agrees, Grows, DbOk, MintedOk, DevicesWithin, CursorOf, SavedOk;
      PullAgrees(sys.db, sys.minted, e.device, cursor, base, e.pageSize, e.now);
      PullKeepsAll(sys.db, e.device, cursor, e.pageSize, e.now);
      if !reply.value.hasMore { NewestViewIsEntities(ApplyChanges(base, reply.value.changes), db'); }
    }
  }

  /** Snapshot recovery. After any run, the snapshot page that completes a recovery, be it the first or a later
      one, leaves the device with the complete view at one boundary, and the cursor it resumes from is accepted
      at once. */
  lemma SnapshotRecovers(owner: Id, events: seq<Event>, e: Event)
    requires AllPossible(Initial(owner), events) && (e.StartSnapshot? || e.ContinueSnapshot?)
    requires Possible(After(Initial(owner), events), e)
    ensures var sys := After(Initial(owner), events);
            var cursor := if e.StartSnapshot? then None else Some(ClientOf(sys, e.device).staging.value.next);
            var (db', reply) := SnapshotEntities(sys.db, e.device, cursor, e.pageSize, e.now);
            var client' := ClientOf(Next(sys, e), e.device);
            reply.Ok? && !reply.value.hasMore ==>
              && client'.position == Some(reply.value.resume) && reply.value.resume.ChangeCursor?
              && reply.value.resume.sequence
                 == (if e.StartSnapshot? then MaxSequence(sys.db.log) else PointOf(cursor.value))
              && Agrees(client'.replica, db', reply.value.resume.sequence)
              && db'.stream.Some?
              && ValidateChangeCursor(db', e.device, reply.value.resume) == Ok(reply.value.resume.sequence)
  {
    InitialSystemOk(owner);
    ReachableSystems(Initial(owner), events);
    var sys := After(Initial(owner), events);
    hide After, AllPossible, SystemOk, SnapshotEntities, Agrees;
    RecoveryCompletes(sys, e);
  }

  lemma RecoveryCompletes(sys: System, e: Event)
    requires SystemOk(sys) && (e.StartSnapshot? || e.ContinueSnapshot?) && Possible(sys, e)
    ensures var cursor := if e.StartSnapshot? then None else Some(ClientOf(sys, e.device).staging.value.next);
            && (cursor.Some? ==> cursor.value.SnapshotCursor?)
            && var (db', reply) := SnapshotEntities(sys.db, e.device, cursor, e.pageSize, e.now);
            var client' := ClientOf(Next(sys, e), e.device);
            reply.Ok? && !reply.value.hasMore ==>
              && client'.position == Some(reply.value.resume) && reply.value.resume.ChangeCursor?
              && reply.value.resume.sequence
                 == (if e.StartSnapshot? then MaxSequence(sys.db.log) else PointOf(cursor.value))
              && Agrees(client'.replica, db', reply.value.resume.sequence)
              && db'.stream.Some?
              && ValidateChangeCursor(db', e.device, reply.value.resume) == Ok(reply.value.resume.sequence)
  {
    var client := ClientOf(sys, e.device);
    assert ClientOk(sys.db, sys.minted, e.device, client);
    var cursor := if e.StartSnapshot? then None else Some(client.staging.value.next);
    var collected := if e.StartSnapshot? then map[] else client.staging.value.collected;
    var (db', reply) := SnapshotEntities(sys.db, e.device, cursor, e.pageSize, e.now);
    StagingAgrees(sys.db, sys.minted, e.device, client);
    hide SnapshotEntities, Agrees, AgreesUpTo, DbOk, MintedOk, CursorOf, DevicesWithin, SavedOk, MaxSequence;
    if reply.Ok? && !reply.value.hasMore {
      SnapshotAgrees(sys.db, sys.minted, e.device, cursor, collected, e.pageSize, e.now);
      ResumeAccepted(sys.db, sys.minted, e.device, cursor, e.pageSize, e.now);
    }
  }

  lemma ResumeAccepted(db: Db, minted: set<Cursor>, device: string, cursor: Option<Cursor>, pageSize: int, now: Time)
    requires DbOk(db) && MintedOk(db, minted) && (cursor.None? || cursor.value in minted)
    requires SnapshotEntities(db, device, cursor, pageSize, now).1.Ok?
    ensures var (db', reply) := SnapshotEntities(db, device, cursor, pageSize, now);
            var resume := reply.value.resume;
            && (cursor.Some? ==> cursor.value.SnapshotCursor?) && resume.ChangeCursor? && db'.stream.Some?
            && resume.sequence == (if cursor.None? then MaxSequence(db.log) else PointOf(cursor.value))
            && ValidateChangeCursor(db', device, resume) == Ok(resume.sequence)
  {
    var (db', reply) := SnapshotEntities(db, device, cursor, pageSize, now);
    var boundary, last := PositionOfSnapshot(db, device, cursor, pageSize, now);
    SnapshotReturnsOk(db, minted, device, cursor, pageSize, now);
    var id :| reply.value == EntriesPage(db', device, id, boundary, last, pageSize);
    hide SnapshotEntities, DbOk, Newest, KeysAt, MintedOk, MaxSequence;
  }

  /** Cursor discipline. In every reachable system every cursor in circulation points at or below the top
      of the log, and a change cursor of the current epoch presented by its device is accepted as it is. */
  lemma CursorsStayValid(owner: Id, events: seq<Event>, c: Cursor)
    requires AllPossible(Initial(owner), events)
    requires c in After(Initial(owner), events).minted
    ensures var db := After(Initial(owner), events).db;
            && !c.Unsigned? && PointOf(c) <= MaxSequence(db.log)
            && (c.ChangeCursor? && Current(db, c) ==> ValidateChangeCursor(db, c.device, c) == Ok(c.sequence))
  {
    InitialSystemOk(owner);
    ReachableSystems(Initial(owner), events);
  }
}
