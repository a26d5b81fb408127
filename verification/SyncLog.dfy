/** The change log of one stream: a table ordered by its sequence, read through the newest row per
    entity at a boundary, and shortened by single-row deletes that a trigger guards. */
module SyncLog {
  import opened Wrappers
  import opened SyncTypes

  ghost predicate Sorted(log: seq<LogRow>) {
    forall i, j :: 0 <= i < j < |log| ==> log[i].sequence < log[j].sequence
  }

  /** The highest sequence of the log, 0 when it is empty. */
  function MaxSequence(log: seq<LogRow>): nat {
    if log == [] then 0 else
      var m := MaxSequence(log[..|log|-1]);
      if m < log[|log|-1].sequence then log[|log|-1].sequence else m
  }

  /** The row ranked first for `k` when the rows at or below `boundary` are ranked newest first. */
  function LatestAt(log: seq<LogRow>, k: Key, boundary: nat): Option<LogRow> {
    if log == [] then None
    else
      var row := log[|log|-1];
      if row.key == k && row.sequence <= boundary then Some(row)
      else LatestAt(log[..|log|-1], k, boundary)
  }

  /** Reference definition of "newest at the boundary", free of any order of the table. */
  ghost predicate IsLatest(log: seq<LogRow>, k: Key, boundary: nat, r: LogRow) {
    && r in log && r.key == k && r.sequence <= boundary
    && forall x :: x in log && x.key == k && x.sequence <= boundary ==> x.sequence <= r.sequence
  }

  ghost predicate NoneAt(log: seq<LogRow>, k: Key, boundary: nat) {
    forall x :: x in log && x.key == k ==> boundary < x.sequence
  }

  lemma {:induction false} LatestAtIsLatest(log: seq<LogRow>, k: Key, boundary: nat)
    requires Sorted(log)
    ensures match LatestAt(log, k, boundary)
            case Some(r) => IsLatest(log, k, boundary, r)
            case None => NoneAt(log, k, boundary)
  {
    if log != [] {
      var n := |log| - 1;
      assert log == log[..n] + [log[n]];
      LatestAtIsLatest(log[..n], k, boundary);
    }
  }

  /** Sequences identify rows, so the reference definition determines the row. */
  lemma LatestAtIsUnique(log: seq<LogRow>, k: Key, boundary: nat, r: LogRow)
    requires Sorted(log)
    requires IsLatest(log, k, boundary, r)
    ensures LatestAt(log, k, boundary) == Some(r)
  {
    LatestAtIsLatest(log, k, boundary);
    var s := LatestAt(log, k, boundary).value;
    var i :| 0 <= i < |log| && log[i] == r;
    var j :| 0 <= j < |log| && log[j] == s;
  }

  lemma LatestAtIsNone(log: seq<LogRow>, k: Key, boundary: nat)
    requires Sorted(log)
    requires NoneAt(log, k, boundary)
    ensures LatestAt(log, k, boundary) == None
  {
    LatestAtIsLatest(log, k, boundary);
  }

  lemma {:induction false} MaxSequenceBounds(log: seq<LogRow>)
    ensures forall r :: r in log ==> r.sequence <= MaxSequence(log)
    ensures MaxSequence(log) == 0 || exists r :: r in log && r.sequence == MaxSequence(log)
  {
    if log != [] {
      var n := |log| - 1;
      assert log == log[..n] + [log[n]];
      MaxSequenceBounds(log[..n]);
      assert log[n] in log;
    }
  }

  /** Appending a row above every other changes the view of its own entity only, and only at or above
      its sequence. */
  lemma LatestAtAppend(log: seq<LogRow>, row: LogRow, k: Key, boundary: nat)
    ensures LatestAt(log + [row], k, boundary)
            == if row.key == k && row.sequence <= boundary then Some(row) else LatestAt(log, k, boundary)
  {
    assert (log + [row])[..|log|] == log;
  }

  // ---------------------------------------------------------------- guarded deletes

  /** The compactor's delete predicate: at or below the boundary, with a newer row of the same entity
      that is also at or below it. */
  predicate Deletable(log: seq<LogRow>, boundary: nat, row: LogRow) {
    && row.sequence <= boundary
    && exists later ::
         later in log && later.key == row.key && row.sequence < later.sequence && later.sequence <= boundary
  }

  /** The row-level trigger: deleting a row needs a stream whose horizon covers it, and a newer row of
      the same entity that the horizon covers too. */
  predicate GuardAdmits(stream: Option<Stream>, log: seq<LogRow>, row: LogRow) {
    stream.Some? && Deletable(log, stream.value.horizon, row)
  }

  function Without(log: seq<LogRow>, sequence: nat): (rest: seq<LogRow>)
    ensures forall r :: r in rest <==> r in log && r.sequence != sequence
  {
    if log == [] then []
    else
      var n := |log| - 1;
      assert log == log[..n] + [log[n]];
      Without(log[..n], sequence) + if log[n].sequence == sequence then [] else [log[n]]
  }

  lemma {:induction false} WithoutSorted(log: seq<LogRow>, sequence: nat)
    requires Sorted(log)
    ensures Sorted(Without(log, sequence))
  {
    if log != [] {
      var n := |log| - 1;
      var rest := Without(log[..n], sequence);
      WithoutSorted(log[..n], sequence);
      forall i | 0 <= i < |rest| ensures rest[i].sequence < log[n].sequence {
        assert rest[i] in log[..n];
      }
    }
  }

  /** Deletes attempted one row at a time, each judged by the trigger against what the earlier ones
      left; a refused delete raises and aborts the statement. */
  function DeleteRows(stream: Option<Stream>, log: seq<LogRow>, order: seq<LogRow>): Option<seq<LogRow>>
    decreases order
  {
    if order == [] then Some(log)
    else if order[0] in log && GuardAdmits(stream, log, order[0]) then
      DeleteRows(stream, Without(log, order[0].sequence), order[1..])
    else None
  }

  /** One admitted delete changes no view at or above the horizon, and no row above it. */
  lemma AdmittedDeleteKeepsViews(stream: Option<Stream>, log: seq<LogRow>, row: LogRow, k: Key, boundary: nat)
    requires Sorted(log) && row in log
    requires GuardAdmits(stream, log, row)
    requires stream.value.horizon <= boundary
    ensures LatestAt(Without(log, row.sequence), k, boundary) == LatestAt(log, k, boundary)
  {
    var rest := Without(log, row.sequence);
    WithoutSorted(log, row.sequence);
    LatestAtIsLatest(log, k, boundary);
    match LatestAt(log, k, boundary) {
      case Some(r) =>
        assert r.sequence != row.sequence by {
          if r.sequence == row.sequence { SameSequenceSameRow(log, r, row); }
        }
        LatestAtIsUnique(rest, k, boundary, r);
      case None =>
        LatestAtIsNone(rest, k, boundary);
    }
  }

  lemma SameSequenceSameRow(log: seq<LogRow>, a: LogRow, b: LogRow)
    requires Sorted(log) && a in log && b in log && a.sequence == b.sequence
    ensures a == b
  {
    var i :| 0 <= i < |log| && log[i] == a;
    var j :| 0 <= j < |log| && log[j] == b;
  }

  /** Any statement of single-row deletes that the trigger lets through keeps every view at or above
      the horizon and every row above it. */
  lemma {:induction false} GuardedDeletesKeepViews(stream: Option<Stream>, log: seq<LogRow>, order: seq<LogRow>)
    requires Sorted(log)
    requires DeleteRows(stream, log, order).Some?
    ensures var rest := DeleteRows(stream, log, order).value;
            && Sorted(rest)
            && (forall r :: r in rest ==> r in log)
            && (stream.Some? ==> forall r :: r in log && stream.value.horizon < r.sequence ==> r in rest)
            && (stream.Some? ==> forall k, b :: stream.value.horizon <= b ==>
                 LatestAt(rest, k, b) == LatestAt(log, k, b))
            && (stream.None? ==> rest == log)
    decreases order
  {
    if order != [] {
      var next := Without(log, order[0].sequence);
      WithoutSorted(log, order[0].sequence);
      GuardedDeletesKeepViews(stream, next, order[1..]);
      forall k, b | stream.value.horizon <= b
        ensures LatestAt(DeleteRows(stream, log, order).value, k, b) == LatestAt(log, k, b)
      {
        AdmittedDeleteKeepsViews(stream, log, order[0], k, b);
      }
    }
  }

  // ---------------------------------------------------------------- the compacted log

  /** The rows of `rows` that the delete predicate, judged against the whole table, leaves. */
  function Kept(rows: seq<LogRow>, log: seq<LogRow>, boundary: nat): (kept: seq<LogRow>)
    ensures forall r :: r in kept <==> r in rows && !Deletable(log, boundary, r)
  {
    if rows == [] then []
    else
      var n := |rows| - 1;
      assert rows == rows[..n] + [rows[n]];
      Kept(rows[..n], log, boundary) + if Deletable(log, boundary, rows[n]) then [] else [rows[n]]
  }

  function Compacted(log: seq<LogRow>, boundary: nat): seq<LogRow> {
    Kept(log, log, boundary)
  }

  lemma {:induction false} KeptSorted(rows: seq<LogRow>, log: seq<LogRow>, boundary: nat)
    requires Sorted(rows)
    ensures Sorted(Kept(rows, log, boundary))
  {
    if rows != [] {
      var n := |rows| - 1;
      var kept := Kept(rows[..n], log, boundary);
      KeptSorted(rows[..n], log, boundary);
      forall i | 0 <= i < |kept| ensures kept[i].sequence < rows[n].sequence {
        assert kept[i] in rows[..n];
      }
    }
  }

  /** Two sorted tables with the same rows are the same table. */
  lemma {:induction false} SortedExtensional(a: seq<LogRow>, b: seq<LogRow>)
    requires Sorted(a) && Sorted(b)
    requires forall r :: r in a <==> r in b
    ensures a == b
  {
    assert a != [] ==> a[0] in a;
    assert b != [] ==> b[0] in b;
    if a != [] {
      assert a[0] == b[0] by {
        var i :| 0 <= i < |a| && a[i] == b[0];
        var j :| 0 <= j < |b| && b[j] == a[0];
      }
      forall r ensures r in a[1..] <==> r in b[1..] {
        TailMembers(a, r);
        TailMembers(b, r);
      }
      SortedExtensional(a[1..], b[1..]);
      assert a == [a[0]] + a[1..] && b == [b[0]] + b[1..];
    }
  }

  lemma TailMembers(a: seq<LogRow>, r: LogRow)
    requires Sorted(a) && a != []
    ensures r in a[1..] <==> r in a && r != a[0]
  {
    assert a == [a[0]] + a[1..];
    if r in a[1..] {
      var i :| 0 <= i < |a[1..]| && a[1..][i] == r;
      assert a[i + 1] == r;
    }
  }

  /** Compaction preserves meaning: at every boundary at or above the horizon it sets, the newest row
      of every entity is the one it was. */
  lemma CompactionKeepsViews(log: seq<LogRow>, horizon: nat, k: Key, boundary: nat)
    requires Sorted(log) && horizon <= boundary
    ensures LatestAt(Compacted(log, horizon), k, boundary) == LatestAt(log, k, boundary)
  {
    KeptSorted(log, log, horizon);
    LatestAtIsLatest(log, k, boundary);
    match LatestAt(log, k, boundary) {
      case Some(r) => LatestAtIsUnique(Compacted(log, horizon), k, boundary, r);
      case None => LatestAtIsNone(Compacted(log, horizon), k, boundary);
    }
  }

  /** The newest row at or below the horizon is never a candidate, and it outlives every candidate of
      its entity: it is the row the trigger finds whatever was deleted before. */
  lemma DeletableHasKeptAnchor(log: seq<LogRow>, horizon: nat, row: LogRow) returns (anchor: LogRow)
    requires Sorted(log) && Deletable(log, horizon, row)
    ensures IsLatest(log, row.key, horizon, anchor) && row.sequence < anchor.sequence
    ensures !Deletable(log, horizon, anchor)
  {
    LatestAtIsLatest(log, row.key, horizon);
    anchor := LatestAt(log, row.key, horizon).value;
  }

  /** The compactor's delete set is admitted by the trigger in whatever order its rows are processed,
      and what is left does not depend on the order. */
  lemma CompactionAdmittedInAnyOrder(stream: Stream, log: seq<LogRow>, order: seq<LogRow>)
    requires Sorted(log)
    requires forall i, j :: 0 <= i < j < |order| ==> order[i] != order[j]
    requires forall r :: r in order <==> r in log && Deletable(log, stream.horizon, r)
    ensures DeleteRows(Some(stream), log, order) == Some(Compacted(log, stream.horizon))
  {
    DeletesAdmitted(stream, log, log, order);
    var rest := DeleteRows(Some(stream), log, order).value;
    KeptSorted(log, log, stream.horizon);
    SortedExtensional(rest, Compacted(log, stream.horizon));
  }

  /** A table on the way from `log` to its compaction: rows of `log`, among them all that stay. */
  ghost predicate KeepsAnchors(left: seq<LogRow>, log: seq<LogRow>, horizon: nat) {
    && Sorted(left)
    && (forall r :: r in left ==> r in log)
    && forall r :: r in log && !Deletable(log, horizon, r) ==> r in left
  }

  lemma AdmittedBesideAnchors(stream: Stream, log: seq<LogRow>, left: seq<LogRow>, row: LogRow)
    requires Sorted(log) && KeepsAnchors(left, log, stream.horizon)
    requires Deletable(log, stream.horizon, row)
    ensures GuardAdmits(Some(stream), left, row)
  {
    var anchor := DeletableHasKeptAnchor(log, stream.horizon, row);
    assert anchor in left && anchor.key == row.key;
  }

  lemma WithoutRow(left: seq<LogRow>, row: LogRow)
    requires Sorted(left) && row in left
    ensures var next := Without(left, row.sequence);
            Sorted(next) && forall r :: r in next <==> r in left && r != row
  {
    WithoutSorted(left, row.sequence);
    forall r | r in left && r.sequence == row.sequence ensures r == row { SameSequenceSameRow(left, r, row); }
  }

  lemma TailDistinct(order: seq<LogRow>)
    requires order != [] && forall i, j :: 0 <= i < j < |order| ==> order[i] != order[j]
    ensures order[0] !in order[1..]
    ensures forall i, j :: 0 <= i < j < |order[1..]| ==> order[1..][i] != order[1..][j]
  {
    forall i | 0 <= i < |order[1..]| ensures order[1..][i] != order[0] { assert order[1..][i] == order[i + 1]; }
  }

  lemma {:induction false} DeletesAdmitted(stream: Stream, log: seq<LogRow>, rest: seq<LogRow>, order: seq<LogRow>)
    requires Sorted(log) && KeepsAnchors(rest, log, stream.horizon)
    requires forall i, j :: 0 <= i < j < |order| ==> order[i] != order[j]
    requires forall r :: r in order ==> r in rest && Deletable(log, stream.horizon, r)
    ensures DeleteRows(Some(stream), rest, order).Some?
    ensures var left := DeleteRows(Some(stream), rest, order).value;
            Sorted(left) && forall r :: r in left <==> r in rest && r !in order
    decreases order
  {
    if order != [] {
      var row := order[0];
      assert row in order;
      AdmittedBesideAnchors(stream, log, rest, row);
      hide Deletable;
      WithoutRow(rest, row);
      assert order == [row] + order[1..];
      TailDistinct(order);
      forall r | r in order[1..] ensures r in Without(rest, row.sequence) && Deletable(log, stream.horizon, r) {
        assert r in order;
      }
      DeletesAdmitted(stream, log, Without(rest, row.sequence), order[1..]);
    }
  }

  // ---------------------------------------------------------------- counting

  /** How many rows lie at or below the boundary. */
  function CountAt(rows: seq<LogRow>, boundary: nat): nat {
    if rows == [] then 0
    else CountAt(rows[..|rows|-1], boundary) + if rows[|rows|-1].sequence <= boundary then 1 else 0
  }

  function CountDeletable(rows: seq<LogRow>, log: seq<LogRow>, boundary: nat): nat {
    if rows == [] then 0
    else CountDeletable(rows[..|rows|-1], log, boundary) + if Deletable(log, boundary, rows[|rows|-1]) then 1 else 0
  }

  /** The distinct entities with a row at or below the boundary. */
  function EntitiesAt(rows: seq<LogRow>, boundary: nat): set<Key> {
    set r | r in rows && r.sequence <= boundary :: r.key
  }

  /** The entities whose newest row at or below the boundary is among the first n rows. */
  ghost function AnchoredBefore(log: seq<LogRow>, boundary: nat, n: nat): set<Key>
    requires n <= |log|
  {
    set i | 0 <= i < n && log[i].sequence <= boundary && !Deletable(log, boundary, log[i]) :: log[i].key
  }

  lemma {:induction false} KeptCountsAnchors(log: seq<LogRow>, boundary: nat, n: nat)
    requires Sorted(log) && n <= |log|
    ensures CountAt(log[..n], boundary) - CountDeletable(log[..n], log, boundary)
            == |AnchoredBefore(log, boundary, n)|
  {
    if n > 0 {
      KeptCountsAnchors(log, boundary, n - 1);
      var row := log[n - 1];
      assert log[..n][..n-1] == log[..n-1];
      var before := AnchoredBefore(log, boundary, n - 1);
      if row.sequence <= boundary && !Deletable(log, boundary, row) {
        assert row.key !in before;  // an older row of the entity has this one as its newer witness
        assert AnchoredBefore(log, boundary, n) == before + {row.key};
      } else {
        assert AnchoredBefore(log, boundary, n) == before;
      }
    }
  }

  /** What compaction keeps at or below the boundary is exactly one row per entity. */
  lemma PreservedRowsAreEntities(log: seq<LogRow>, boundary: nat)
    requires Sorted(log)
    ensures CountAt(log, boundary) - CountDeletable(log, log, boundary) == |EntitiesAt(log, boundary)|
  {
    KeptCountsAnchors(log, boundary, |log|);
    assert log[..|log|] == log;
    hide CountAt, CountDeletable, Sorted;
    forall k | k in EntitiesAt(log, boundary) ensures k in AnchoredBefore(log, boundary, |log|) {
      EntityIsAnchored(log, boundary, k);
    }
    hide Deletable;
    assert AnchoredBefore(log, boundary, |log|) == EntitiesAt(log, boundary);
  }

  lemma EntityIsAnchored(log: seq<LogRow>, boundary: nat, k: Key)
    requires Sorted(log) && k in EntitiesAt(log, boundary)
    ensures k in AnchoredBefore(log, boundary, |log|)
  {
    LatestAtIsLatest(log, k, boundary);
    var r := LatestAt(log, k, boundary).value;
    var i :| 0 <= i < |log| && log[i] == r;
  }
}
