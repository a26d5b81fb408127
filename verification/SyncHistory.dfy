/** The append-only table of version rows, read as one hash-chained history per entity. */
module SyncHistory {
  import opened Wrappers
  import opened SyncTypes

  /** The version rows of `k`, oldest first. */
  function HistoryOf(versions: seq<VersionRow>, k: Key): seq<VersionRow> {
    if versions == [] then []
    else
      var n := |versions| - 1;
      HistoryOf(versions[..n], k) + if versions[n].key == k then [versions[n]] else []
  }

  /** The row a lookup by (entity, version number) finds. */
  function FindVersion(versions: seq<VersionRow>, k: Key, version: int): Option<VersionRow> {
    if versions == [] then None
    else
      var n := |versions| - 1;
      if versions[n].key == k && versions[n].version == version then Some(versions[n])
      else FindVersion(versions[..n], k, version)
  }

  predicate OpUsed(versions: seq<VersionRow>, op: Id) {
    exists v :: v in versions && v.op == op
  }

  /** The two unique keys of the table: (entity, version) and (owner, operation). */
  predicate Admissible(versions: seq<VersionRow>, row: VersionRow) {
    !OpUsed(versions, row.op) && FindVersion(versions, row.key, row.version).None?
  }

  /** Version numbers 1, 2, 3, ..., each row naming its predecessor's number and hash; a hash is the
      digest of the row's payload, the payload is null exactly when the row is a tombstone, and only a first
      version is a create. */
  ghost predicate Chained(history: seq<VersionRow>) {
    forall i :: 0 <= i < |history| ==> Follows(history[..i], history[i])
  }

  ghost predicate Follows(earlier: seq<VersionRow>, row: VersionRow) {
    && row.version == |earlier| + 1
    && row.baseVersion == (if earlier == [] then None else Some(|earlier|))
    && row.baseHash == (if earlier == [] then None else Some(earlier[|earlier|-1].hash))
    && row.hash == Digest(row.payload)
    && (row.payload.None? <==> row.tombstone)
    && (row.kind == Create ==> earlier == [])
  }

  lemma ChainedAppend(history: seq<VersionRow>, row: VersionRow)
    ensures Chained(history + [row]) <==> Chained(history) && Follows(history, row)
  {
    var h := history + [row];
    assert h[..|history|] == history && h[|history|] == row;
    forall i | 0 <= i < |history| ensures h[..i] == history[..i] && h[i] == history[i] {}
    if Chained(h) {
      forall i | 0 <= i < |history| ensures Follows(history[..i], history[i]) {
        assert Follows(h[..i], h[i]);
      }
    }
  }

  lemma HistoryAppend(versions: seq<VersionRow>, row: VersionRow, k: Key)
    ensures HistoryOf(versions + [row], k) == HistoryOf(versions, k) + if row.key == k then [row] else []
  {
    assert (versions + [row])[..|versions|] == versions;
  }

  /** A table that grew still starts every history with what it was: no earlier row is altered. */
  lemma {:induction false} HistoryGrows(versions: seq<VersionRow>, more: seq<VersionRow>, k: Key)
    requires versions <= more
    ensures HistoryOf(versions, k) <= HistoryOf(more, k)
    decreases |more|
  {
    if versions != more {
      var n := |more| - 1;
      assert versions <= more[..n];
      HistoryGrows(versions, more[..n], k);
    }
  }

  /** In a chained history the lookup by number is the indexing it looks like. */
  lemma {:induction false} FindVersionInChain(versions: seq<VersionRow>, k: Key, version: int)
    requires Chained(HistoryOf(versions, k))
    ensures FindVersion(versions, k, version)
            == if 1 <= version <= |HistoryOf(versions, k)| then Some(HistoryOf(versions, k)[version-1]) else None
  {
    if versions != [] {
      var n := |versions| - 1;
      var h := HistoryOf(versions[..n], k);
      if versions[n].key == k {
        ChainedAppend(h, versions[n]);
      } else {
        assert HistoryOf(versions, k) == h;
      }
      FindVersionInChain(versions[..n], k, version);
    }
  }
}
