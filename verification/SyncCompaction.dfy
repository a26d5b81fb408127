/** Compaction: move the horizon of a stream to the newest point all of whose rows are past retention,
    delete the superseded rows below it and rotate the epoch. */
module SyncCompaction {
  import opened Wrappers
  import opened SyncTypes
  import opened SyncLog
  import opened SyncState
  import opened SyncStore

  const MINIMUM_RETENTION_DAYS := 90
  const DAY := 86400

  datatype CompactionResult = CompactionResult(
    applied: bool, cutoff: Time, previousHorizon: nat, newHorizon: nat, eligibleRows: nat, deletedRows: nat,
    preservedRows: int, previousSnapshotVersion: nat, newSnapshotVersion: nat, epochRotated: bool)

  /** The smallest sequence of a row newer than the cutoff, whatever the order of the clocks. */
  function FirstRecent(log: seq<LogRow>, cutoff: Time): Option<nat> {
    if log == [] then None
    else
      var n := |log| - 1;
      var earlier := FirstRecent(log[..n], cutoff);
      if log[n].createdAt <= cutoff then earlier
      else if earlier.Some? && earlier.value <= log[n].sequence then earlier
      else Some(log[n].sequence)
  }

  lemma {:induction false} FirstRecentIsLeast(log: seq<LogRow>, cutoff: Time)
    ensures match FirstRecent(log, cutoff)
            case None => forall r :: r in log ==> r.createdAt <= cutoff
            case Some(s) =>
              && (exists r :: r in log && cutoff < r.createdAt && r.sequence == s)
              && forall r :: r in log && cutoff < r.createdAt ==> s <= r.sequence
  {
    if log != [] {
      var n := |log| - 1;
      assert log == log[..n] + [log[n]];
      FirstRecentIsLeast(log[..n], cutoff);
      assert log[n] in log;
    }
  }

  function Boundary(log: seq<LogRow>, cutoff: Time): int {
    match FirstRecent(log, cutoff)
    case None => MaxSequence(log)
    case Some(s) => s - 1
  }

  function Unapplied(cutoff: Time, stream: Stream): CompactionResult {
    CompactionResult(false, cutoff, stream.horizon, stream.horizon, 0, 0, 0,
                     stream.snapshotVersion, stream.snapshotVersion, false)
  }

  function Outcome(db: Db, stream: Stream, cutoff: Time, boundary: nat, apply: bool): CompactionResult {
    var eligible := CountAt(db.log, boundary);
    var deletable := CountDeletable(db.log, db.log, boundary);
    CompactionResult(apply, cutoff, stream.horizon, boundary, eligible, deletable, eligible - deletable,
                     stream.snapshotVersion, stream.snapshotVersion + 1, apply)
  }

  function Compact(db: Db, now: Time, retentionDays: int, apply: bool): (Db, Reply<CompactionResult>) {
    var cutoff := now - retentionDays * DAY;
    if retentionDays < MINIMUM_RETENTION_DAYS then (db, Fail(RetentionTooShort))
    else if db.stream.None? then (db, Ok(CompactionResult(false, cutoff, 0, 0, 0, 0, 0, 0, 0, false)))
    else
      var stream := db.stream.value;
      var boundary := Boundary(db.log, cutoff);
      if boundary <= stream.horizon then (db, Ok(Unapplied(cutoff, stream)))
      else if !apply then (db, Ok(Outcome(db, stream, cutoff, boundary, false)))
      else
        (db.(stream := Some(Stream(db.nextUuid, boundary, stream.snapshotVersion + 1)),
             nextUuid := db.nextUuid + 1,
             log := Compacted(db.log, boundary)),
         Ok(Outcome(db, stream, cutoff, boundary, true)))
  }

  /** The rows the delete statement selects. */
  function Candidates(rows: seq<LogRow>, log: seq<LogRow>, boundary: nat): (selected: seq<LogRow>)
    ensures |selected| == CountDeletable(rows, log, boundary)
    ensures forall r :: r in selected <==> r in rows && Deletable(log, boundary, r)
  {
    if rows == [] then []
    else
      var n := |rows| - 1;
      assert rows == rows[..n] + [rows[n]];
      Candidates(rows[..n], log, boundary) + if Deletable(log, boundary, rows[n]) then [rows[n]] else []
  }

  lemma {:induction false} CandidatesDistinct(rows: seq<LogRow>, log: seq<LogRow>, boundary: nat)
    requires Sorted(rows)
    ensures Sorted(Candidates(rows, log, boundary))
  {
    if rows != [] {
      var n := |rows| - 1;
      var selected := Candidates(rows[..n], log, boundary);
      CandidatesDistinct(rows[..n], log, boundary);
      forall i | 0 <= i < |selected| ensures selected[i].sequence < rows[n].sequence {
        assert selected[i] in rows[..n];
      }
    }
  }

  lemma SortedRowsDiffer(rows: seq<LogRow>)
    requires Sorted(rows)
    ensures forall i, j :: 0 <= i < j < |rows| ==> rows[i] != rows[j]
  {}

  /** The delete statement: every candidate row passes the row trigger as the table shrinks. */
  method DeleteSuperseded(store: Store, stream: Stream, log: seq<LogRow>) returns (deleted: nat, admitted: bool)
    requires Sorted(log) && store.log == log && store.stream == Some(stream)
    modifies store`log
    ensures admitted && deleted == CountDeletable(log, log, stream.horizon)
    ensures store.log == Compacted(log, stream.horizon)
  {
    hide Compacted, Deletable, Without;
    var candidates := Candidates(log, log, stream.horizon);
    CandidatesDistinct(log, log, stream.horizon);
    SortedRowsDiffer(candidates);
    CompactionAdmittedInAnyOrder(stream, log, candidates);
    deleted, admitted := 0, true;
    assert candidates[0..] == candidates;
    for i := 0 to |candidates|
      invariant deleted == i && admitted
      invariant DeleteRows(Some(stream), store.log, candidates[i..]) == Some(Compacted(log, stream.horizon))
    {
      assert candidates[i..][1..] == candidates[i+1..];
      admitted := store.DeleteLogRow(candidates[i]);
      if !admitted { return; }
      deleted := deleted + 1;
    }
  }

  method CompactSyncStream(store: Store, now: Time, retentionDays: int, apply: bool)
    returns (reply: Reply<CompactionResult>)
    requires Sorted(store.log)
    modifies store
    ensures store.View() == Compact(old(store.View()), now, retentionDays, apply).0
    ensures reply == Compact(old(store.View()), now, retentionDays, apply).1
  {
    hide MaxSequence, FirstRecent, CountAt, CountDeletable, Compacted, Sorted;
    if retentionDays < MINIMUM_RETENTION_DAYS { return Fail(RetentionTooShort); }
    var cutoff := now - retentionDays * DAY;
    if store.stream.None? { return Ok(CompactionResult(false, cutoff, 0, 0, 0, 0, 0, 0, 0, false)); }
    var previous := store.stream.value;
    var maxSequence := MaxSequence(store.log);
    var firstRecent := FirstRecent(store.log, cutoff);
    var boundary: int := maxSequence;
    if firstRecent.Some? { boundary := firstRecent.value as int - 1; }
    if boundary <= previous.horizon { return Ok(Unapplied(cutoff, previous)); }
    var eligible: int := CountAt(store.log, boundary);
    var deletable: int := CountDeletable(store.log, store.log, boundary);
    if !apply {
      return Ok(CompactionResult(false, cutoff, previous.horizon, boundary, eligible, deletable, eligible - deletable,
                                 previous.snapshotVersion, previous.snapshotVersion + 1, false));
    }
    var deleted, admitted := RotateAndDelete(store, boundary);
    assert admitted && deleted == deletable;  // the check that raises on a changed count never does
    reply := Ok(CompactionResult(true, cutoff, previous.horizon, boundary, eligible, deleted, eligible - deleted,
                                 previous.snapshotVersion, store.stream.value.snapshotVersion, true));
  }

  /** Move the horizon, count a snapshot version, rotate the epoch, then delete what is superseded. */
  method RotateAndDelete(store: Store, boundary: nat) returns (deleted: nat, admitted: bool)
    requires Sorted(store.log) && store.stream.Some?
    modifies store
    ensures var db := old(store.View());
            && store.View() == db.(stream := Some(Stream(db.nextUuid, boundary, db.stream.value.snapshotVersion + 1)),
                                   nextUuid := db.nextUuid + 1,
                                   log := Compacted(db.log, boundary))
            && deleted == CountDeletable(db.log, db.log, boundary)
    ensures admitted
  {
    hide Compacted, Sorted, CountDeletable;
    var stream := store.stream.value;
    stream := stream.(horizon := boundary);
    stream := stream.(snapshotVersion := stream.snapshotVersion + 1);
    var epoch := store.NewUuid();
    stream := stream.(epoch := epoch);
    store.stream := Some(stream);
    deleted, admitted := DeleteSuperseded(store, stream, store.log);
  }

  // ---------------------------------------------------------------- what compaction means

  ghost predicate StreamOk(db: Db) {
    db.stream.Some? ==> db.stream.value.horizon <= MaxSequence(db.log) && db.stream.value.epoch < db.nextUuid
  }

  function HorizonOf(db: Db): nat {
    if db.stream.Some? then db.stream.value.horizon else 0
  }

  lemma BoundaryBelowMax(log: seq<LogRow>, cutoff: Time)
    requires forall r :: r in log ==> 1 <= r.sequence
    ensures 0 <= Boundary(log, cutoff) <= MaxSequence(log)
    ensures forall r :: r in log && r.sequence <= Boundary(log, cutoff) ==> r.createdAt <= cutoff
  {
    FirstRecentIsLeast(log, cutoff);
    MaxSequenceBounds(log);
  }

  lemma CompactedMaxSequence(log: seq<LogRow>, horizon: nat)
    requires Sorted(log)
    ensures MaxSequence(Compacted(log, horizon)) == MaxSequence(log)
  {
    MaxSequenceBounds(log);
    MaxSequenceBounds(Compacted(log, horizon));
    if MaxSequence(log) > 0 {
      var r :| r in log && r.sequence == MaxSequence(log);
      assert r in Compacted(log, horizon);
    }
  }

  /** The horizon never falls, and every view at or above the new one is the one before. */
  lemma CompactionPreservesMeaning(db: Db, now: Time, retentionDays: int, apply: bool, k: Key, b: nat)
    requires LogOk(db)
    requires HorizonOf(Compact(db, now, retentionDays, apply).0) <= b
    ensures HorizonOf(db) <= HorizonOf(Compact(db, now, retentionDays, apply).0)
    ensures LatestAt(Compact(db, now, retentionDays, apply).0.log, k, b) == LatestAt(db.log, k, b)
  {
    BoundaryBelowMax(db.log, now - retentionDays * DAY);
    var db' := Compact(db, now, retentionDays, apply).0;
    if db'.log != db.log { CompactionKeepsViews(db.log, HorizonOf(db'), k, b); }
  }

  /** A run either leaves the tables alone or applies, and then moves the horizon up and compacts there. */
  lemma CompactShape(db: Db, now: Time, retentionDays: int, apply: bool)
    requires LogOk(db)
    ensures var (db', reply) := Compact(db, now, retentionDays, apply);
            if reply.Ok? && reply.value.applied
            then && db.stream.Some? && db'.stream.Some? && HorizonOf(db) < HorizonOf(db') <= MaxSequence(db.log)
                 && HorizonOf(db') == Boundary(db.log, now - retentionDays * DAY)
                 && db' == db.(stream := Some(Stream(db.nextUuid, HorizonOf(db'), db.stream.value.snapshotVersion + 1)),
                               nextUuid := db.nextUuid + 1,
                               log := Compacted(db.log, HorizonOf(db')))
            else db' == db
  {
    hide Sorted, Boundary, Compacted, CountAt, CountDeletable;
    BoundaryBelowMax(db.log, now - retentionDays * DAY);
  }

  /** Every row at or below the sequence is past the retention. */
  ghost predicate PastRetention(log: seq<LogRow>, cutoff: Time, sequence: nat) {
    sequence <= MaxSequence(log) && forall r :: r in log && r.sequence <= sequence ==> r.createdAt <= cutoff
  }

  lemma BoundaryIsGreatest(log: seq<LogRow>, cutoff: Time, sequence: nat)
    requires forall r :: r in log ==> 1 <= r.sequence
    ensures sequence <= Boundary(log, cutoff) <==> PastRetention(log, cutoff, sequence)
  {
    FirstRecentIsLeast(log, cutoff);
    MaxSequenceBounds(log);
  }

  /** When a run moves the horizon, and where to. It moves exactly when some sequence above the horizon is past
      retention with all below it, that is when the next one is; it then moves to the greatest such sequence, so to
      every row that is past retention with all before it and not to any newer row. */
  lemma CompactionMovesExactly(db: Db, now: Time, retentionDays: int, apply: bool)
    requires LogOk(db)
    ensures var (db', reply) := Compact(db, now, retentionDays, apply);
            var cutoff := now - retentionDays * DAY;
            && (reply.Ok? <==> retentionDays >= MINIMUM_RETENTION_DAYS)
            && (reply.Ok? ==>
                  && reply.value.cutoff == cutoff && reply.value.previousHorizon == HorizonOf(db)
                  && (reply.value.applied <==>
                        apply && db.stream.Some? && PastRetention(db.log, cutoff, HorizonOf(db) + 1))
                  && (db.stream.Some? && PastRetention(db.log, cutoff, HorizonOf(db) + 1) ==>
                        forall b: nat :: b <= reply.value.newHorizon <==> PastRetention(db.log, cutoff, b))
                  && (!(db.stream.Some? && PastRetention(db.log, cutoff, HorizonOf(db) + 1)) ==>
                        reply.value.newHorizon == HorizonOf(db) && reply.value.deletedRows == 0)
                  && HorizonOf(db') == if reply.value.applied then reply.value.newHorizon else HorizonOf(db))
  {
    LoggedSequences(db);
    var cutoff := now - retentionDays * DAY;
    BoundaryBelowMax(db.log, cutoff);
    BoundaryIsGreatest(db.log, cutoff, HorizonOf(db) + 1);
    forall b: nat ensures b <= Boundary(db.log, cutoff) <==> PastRetention(db.log, cutoff, b) {
      BoundaryIsGreatest(db.log, cutoff, b);
    }
    hide LogOk, Boundary, PastRetention, CountAt, CountDeletable, Compacted, MaxSequence;
  }

  /** A row above the horizon that is past retention with all before it is reason enough, and the new horizon covers
      it; no row newer than the cutoff is ever at or below it. */
  lemma OldRowsAreCompacted(db: Db, now: Time, retentionDays: int, r: LogRow)
    requires LogOk(db) && db.stream.Some? && retentionDays >= MINIMUM_RETENTION_DAYS && r in db.log
    ensures var (db', reply) := Compact(db, now, retentionDays, true);
            var cutoff := now - retentionDays * DAY;
            && (HorizonOf(db) < r.sequence
                && (forall x :: x in db.log && x.sequence <= r.sequence ==> x.createdAt <= cutoff)
                ==> reply.value.applied && r.sequence <= HorizonOf(db'))
            && (reply.value.applied && cutoff < r.createdAt ==> HorizonOf(db') < r.sequence)
  {
    CompactionMovesExactly(db, now, retentionDays, true);
    MaxSequenceBounds(db.log);
    var (db', reply) := Compact(db, now, retentionDays, true);
    var cutoff := now - retentionDays * DAY;
    assert PastRetention(db.log, cutoff, r.sequence) ==>
             PastRetention(db.log, cutoff, HorizonOf(db) + 1) || r.sequence <= HorizonOf(db);
    assert reply.value.applied ==> PastRetention(db.log, cutoff, HorizonOf(db'));
    hide Compact, LogOk, MaxSequence;
  }

  /** The converse fails: a gap in the numbers alone moves the horizon, from 1 to 4 below the recent row 5, and
      rotates the epoch, although no row lies between. */
  lemma GapsMoveTheHorizon()
    ensures var k := Key(Question, 1);
            var v1 := VersionRow(k, 1, Digest(None), None, true, Create, 1, None, None, "phone", 0);
            var v2 := VersionRow(k, 2, Digest(None), None, true, Update, 2, Some(1), Some(Digest(None)), "phone",
                100 * DAY);
            var log := [PublishedAs(v1, 0, 1), PublishedAs(v2, 1, 5)];
            var db := EmptyDb(0).(versions := [v1, v2], log := log, lastSequence := 5, stream := Some(Stream(9, 1, 1)),
                                  nextUuid := 10);
            var (db', reply) := Compact(db, 100 * DAY, 90, true);
            && LogOk(db) && (forall r :: r in log && 1 < r.sequence ==> 10 * DAY < r.createdAt)
            && reply.Ok? && reply.value.applied && HorizonOf(db') == 4 && db'.log == db.log
  {
    var k := Key(Question, 1);
    var v1 := VersionRow(k, 1, Digest(None), None, true, Create, 1, None, None, "phone", 0);
    var v2 := VersionRow(k, 2, Digest(None), None, true, Update, 2, Some(1), Some(Digest(None)), "phone", 100 * DAY);
    var log := [PublishedAs(v1, 0, 1), PublishedAs(v2, 1, 5)];
    assert log[..1] == [log[0]] && log[..1][..0] == [];
    assert FirstRecent(log[..1], 10 * DAY) == None;
    assert FirstRecent(log, 10 * DAY) == Some(5);
    KeepsAll(log);
  }

  lemma KeepsAll(log: seq<LogRow>)
    requires |log| == 2 && log[0].sequence <= 4 < log[1].sequence
    ensures Compacted(log, 4) == log
  {
    assert log[..1] == [log[0]] && log[..1][..0] == [];
    assert Kept(log[..1], log, 4) == [log[0]];
  }

  /** A dry run reports what the run would do. */
  lemma DryRunForetells(db: Db, now: Time, retentionDays: int)
    ensures var dry, wet := Compact(db, now, retentionDays, false), Compact(db, now, retentionDays, true);
            && dry.0 == db
            && (dry.1.Ok? <==> wet.1.Ok?)
            && (dry.1.Ok? ==> dry.1.value == wet.1.value.(applied := false, epochRotated := false))
  {
    hide Boundary, CountAt, CountDeletable, Compacted;
  }

  lemma LoggedSequences(db: Db)
    requires LogOk(db)
    ensures forall r :: r in db.log ==> 1 <= r.sequence
  {}

  /** A row goes exactly when the run applies and the row is superseded at or below the new horizon; and
      every row that goes is no newer than the cutoff, whatever the clock order of the rows. */
  lemma CompactionDeletes(db: Db, now: Time, retentionDays: int, apply: bool, r: LogRow)
    requires LogOk(db) && r in db.log
    ensures var (db', reply) := Compact(db, now, retentionDays, apply);
            r !in db'.log <==> reply.Ok? && reply.value.applied && Deletable(db.log, HorizonOf(db'), r)
    ensures r !in Compact(db, now, retentionDays, apply).0.log ==> r.createdAt <= now - retentionDays * DAY
  {
    hide Compact, Boundary, MaxSequence, Sorted;
    CompactShape(db, now, retentionDays, apply);
    LoggedSequences(db);
    BoundaryBelowMax(db.log, now - retentionDays * DAY);
  }

  /** The reported counts: what is deleted is what the table loses, and what is preserved is one row for
      every distinct entity at or below the new horizon. */
  lemma CompactionCounts(db: Db, now: Time, retentionDays: int, apply: bool)
    requires LogOk(db)
    ensures var (db', reply) := Compact(db, now, retentionDays, apply);
            reply.Ok? && reply.value.newHorizon > reply.value.previousHorizon ==>
              && reply.value.preservedRows == |EntitiesAt(db.log, reply.value.newHorizon)|
              && (reply.value.applied ==> reply.value.deletedRows == |db.log| - |db'.log|)
  {
    var reply := Compact(db, now, retentionDays, apply).1;
    if reply.Ok? && reply.value.newHorizon > reply.value.previousHorizon {
      PreservedRowsAreEntities(db.log, reply.value.newHorizon);
      KeptLength(db.log, db.log, reply.value.newHorizon);
    }
  }

  lemma {:induction false} KeptLength(rows: seq<LogRow>, log: seq<LogRow>, boundary: nat)
    ensures |Kept(rows, log, boundary)| + CountDeletable(rows, log, boundary) == |rows|
  {
    if rows != [] { KeptLength(rows[..|rows|-1], log, boundary); }
  }

  lemma CompactKeepsCore(db: Db, now: Time, retentionDays: int, apply: bool)
    requires CoreOk(db) && StreamOk(db)
    ensures CoreOk(Compact(db, now, retentionDays, apply).0)
    ensures StreamOk(Compact(db, now, retentionDays, apply).0)
    ensures MaxSequence(Compact(db, now, retentionDays, apply).0.log) == MaxSequence(db.log)
  {
    hide Compact, Compacted;
    var db' := Compact(db, now, retentionDays, apply).0;
    CompactShape(db, now, retentionDays, apply);
    if db' != db { CompactedKeepsCore(db, db'); }
  }

  lemma CompactedKeepsCore(db: Db, db': Db)
    requires CoreOk(db) && HorizonOf(db') <= MaxSequence(db.log)
    requires db' == db.(stream := db'.stream, nextUuid := db'.nextUuid, log := Compacted(db.log, HorizonOf(db')))
    ensures CoreOk(db') && MaxSequence(db'.log) == MaxSequence(db.log)
  {
    CompactedMaxSequence(db.log, HorizonOf(db'));
    MaxSequenceBounds(db.log);
    CompactedKeepsLog(db, db');
    SameViewsSameProjection(db, db');
    hide LogOk, ProjectionOk, EntityHistoryOk;
  }

  lemma CompactedKeepsLog(db: Db, db': Db)
    requires LogOk(db)
    requires db' == db.(stream := db'.stream, nextUuid := db'.nextUuid, log := Compacted(db.log, HorizonOf(db')))
    ensures LogOk(db')
  {
    KeptSorted(db.log, db.log, HorizonOf(db'));
    assert forall r :: r in db'.log ==> r in db.log;
    hide Compacted, Deletable, Sorted;
  }

  lemma SameViewsSameProjection(db: Db, db': Db)
    requires LogOk(db) && ProjectionOk(db) && HorizonOf(db') <= db.lastSequence
    requires db'.log == Compacted(db.log, HorizonOf(db'))
    requires db'.entities == db.entities && db'.versions == db.versions && db'.lastSequence == db.lastSequence
    ensures ProjectionOk(db')
  {
    hide Compacted, LatestAt;
    forall k ensures LatestAt(db'.log, k, db'.lastSequence) == LatestAt(db.log, k, db.lastSequence) {
      CompactionKeepsViews(db.log, HorizonOf(db'), k, db.lastSequence);
    }
  }
}
