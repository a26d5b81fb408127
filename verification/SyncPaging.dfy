/** What pages mean: applying an incremental page to the view at its cursor gives the view at the next
    cursor, and the pages of one snapshot list every entity of one boundary exactly once. */
module SyncPaging {
  import opened Wrappers
  import opened SyncTypes
  import opened SyncLog
  import opened SyncState
  import opened SyncRead

  type Replica = map<Key, Change>

  function Held(replica: Replica, k: Key): Option<Change> {
    if k in replica then Some(replica[k]) else None
  }

  /** The replica is exactly the newest-per-entity view at the boundary. */
  ghost predicate Agrees(replica: Replica, db: Db, boundary: nat) {
    forall k :: Held(replica, k) == ViewAt(db, k, boundary)
  }

  /** A device applies changes in the order it receives them. */
  function ApplyChanges(replica: Replica, changes: seq<Change>): Replica {
    if changes == [] then replica
    else
      var n := |changes| - 1;
      ApplyChanges(replica, changes[..n])[changes[n].key := changes[n]]
  }

  // ---------------------------------------------------------------- incremental pages

  /** The first j rows of the log are those at or below b. */
  ghost predicate Splits(log: seq<LogRow>, b: nat, j: nat) {
    && j <= |log|
    && (forall x :: 0 <= x < j ==> log[x].sequence <= b)
    && forall x :: j <= x < |log| ==> b < log[x].sequence
  }

  lemma RowsAfterIsSuffix(log: seq<LogRow>, b: nat) returns (j: nat)
    requires Sorted(log)
    ensures Splits(log, b, j) && RowsAfter(log, b) == log[j..]
  {
    j := RowsAfterInPrefix(log, b, |log|);
    assert log[..|log|] == log;
  }

  lemma {:induction false} RowsAfterInPrefix(log: seq<LogRow>, b: nat, n: nat) returns (j: nat)
    requires Sorted(log) && n <= |log|
    ensures j <= n && RowsAfter(log[..n], b) == log[j..n]
    ensures forall x :: 0 <= x < j ==> log[x].sequence <= b
    ensures forall x :: j <= x < n ==> b < log[x].sequence
  {
    if n == 0 {
      j := 0;
    } else {
      j := RowsAfterInPrefix(log, b, n - 1);
      assert log[..n][..n-1] == log[..n-1];
      assert j < n - 1 ==> b < log[j].sequence < log[n-1].sequence;
      if log[n-1].sequence <= b { j := n; }
    }
  }

  lemma NextRowView(db: Db, b: nat, j: nat, k: Key)
    requires Sorted(db.log) && Splits(db.log, b, j) && j < |db.log|
    ensures LatestAt(db.log, k, db.log[j].sequence)
            == if db.log[j].key == k then Some(db.log[j]) else LatestAt(db.log, k, b)
  {
    var row := db.log[j];
    LatestAtIsLatest(db.log, k, b);
    if row.key == k {
      LatestAtIsUnique(db.log, k, row.sequence, row);
    } else {
      forall x | x in db.log && x.key == k && x.sequence <= row.sequence ensures x.sequence <= b {
        var i :| 0 <= i < |db.log| && db.log[i] == x;
      }
      match LatestAt(db.log, k, b) {
        case Some(r) => LatestAtIsUnique(db.log, k, row.sequence, r);
        case None => LatestAtIsNone(db.log, k, row.sequence);
      }
    }
  }

  lemma NextRowAgrees(replica: Replica, db: Db, b: nat, j: nat)
    requires Sorted(db.log) && Splits(db.log, b, j) && j < |db.log|
    requires Agrees(replica, db, b)
    ensures Agrees(replica[db.log[j].key := ChangeOf(db.versions, db.log[j])], db, db.log[j].sequence)
    ensures Splits(db.log, db.log[j].sequence, j + 1)
  {
    var replica' := replica[db.log[j].key := ChangeOf(db.versions, db.log[j])];
    forall k ensures Held(replica', k) == ViewAt(db, k, db.log[j].sequence) {
      NextRowView(db, b, j, k);
      assert Held(replica, k) == ViewAt(db, k, b);
    }
  }

  /** Applying the rows i..j of the log to the view before them gives the view after them. */
  lemma {:induction false} RowsAgree(replica: Replica, db: Db, b: nat, i: nat, j: nat)
    requires Sorted(db.log) && Splits(db.log, b, i) && i <= j <= |db.log|
    requires Agrees(replica, db, b)
    ensures var b' := if i < j then db.log[j-1].sequence else b;
            Agrees(ApplyChanges(replica, Changes(db.versions, db.log[i..j])), db, b') && Splits(db.log, b', j)
                && b <= b'
  {
    hide Agrees, LatestAt, Splits, Sorted, ApplyChanges, Changes;
    if i == j {
      NothingApplied(replica, db, i);
    } else {
      var b1 := if i < j - 1 then db.log[j-2].sequence else b;
      RowsAgree(replica, db, b, i, j - 1);
      OneMoreRow(replica, ApplyChanges(replica, Changes(db.versions, db.log[i..j-1])), db, b1, i, j);
    }
  }

  lemma OneMoreRow(replica: Replica, before: Replica, db: Db, b: nat, i: nat, j: nat)
    requires Sorted(db.log) && i < j <= |db.log| && Splits(db.log, b, j - 1) && Agrees(before, db, b)
    requires before == ApplyChanges(replica, Changes(db.versions, db.log[i..j-1]))
    ensures Agrees(ApplyChanges(replica, Changes(db.versions, db.log[i..j])), db, db.log[j-1].sequence)
    ensures Splits(db.log, db.log[j-1].sequence, j) && b < db.log[j-1].sequence
  {
    ApplyOneMore(replica, db, i, j);
    hide Agrees, LatestAt, ApplyChanges, Changes;
    NextRowAgrees(before, db, b, j - 1);
  }

  lemma NothingApplied(replica: Replica, db: Db, i: nat)
    requires i <= |db.log|
    ensures ApplyChanges(replica, Changes(db.versions, db.log[i..i])) == replica
  {}

  lemma ApplyOneMore(replica: Replica, db: Db, i: nat, j: nat)
    requires i < j <= |db.log|
    ensures ApplyChanges(replica, Changes(db.versions, db.log[i..j]))
            == ApplyChanges(replica, Changes(db.versions, db.log[i..j-1]))
                 [db.log[j-1].key := ChangeOf(db.versions, db.log[j-1])]
  {
    var cs := Changes(db.versions, db.log[i..j]);
    assert cs[..|cs|-1] == Changes(db.versions, db.log[i..j-1]);
  }

  /** An incremental page takes the view at its cursor to the view at the next cursor; with nothing more
      to come, that is the newest view there is. */
  lemma PageAgrees(replica: Replica, db: Db, device: string, sequence: nat, pageSize: int)
    requires LogOk(db) && db.stream.Some? && sequence <= MaxSequence(db.log)
    requires Agrees(replica, db, sequence)
    ensures var page := ChangesPage(db, device, sequence, pageSize);
            && page.next.ChangeCursor?
            && sequence <= page.next.sequence <= MaxSequence(db.log)
            && Agrees(ApplyChanges(replica, page.changes), db, page.next.sequence)
            && (!page.hasMore ==> Agrees(ApplyChanges(replica, page.changes), db, db.lastSequence))
  {
    var page := ChangesPage(db, device, sequence, pageSize);
    var i := RowsAfterIsSuffix(db.log, sequence);
    var j := PageIsRows(db, device, sequence, pageSize, i);
    RowsAgree(replica, db, sequence, i, j);
    MaxSequenceBounds(db.log);
    hide ChangesPage, RowsAfter, MaxSequence, ApplyChanges, Changes;
    if !page.hasMore { LastPageIsNewest(ApplyChanges(replica, page.changes), db, page.next.sequence); }
  }

  /** The page size asked for, within what the service gives. */
  function PageLimit(pageSize: int): nat {
    if pageSize < 1 then 1 else if pageSize > 500 then 500 else pageSize
  }

  /** Pulling comes to an end: a page carries the rows behind its cursor in order, as many as the page size unless there
      are fewer, and says that there is more exactly when there is. With every page there is less to come. */
  lemma PageProgress(db: Db, device: string, sequence: nat, pageSize: int)
    requires LogOk(db) && db.stream.Some? && sequence <= MaxSequence(db.log)
    ensures var page := ChangesPage(db, device, sequence, pageSize);
            && page.next.ChangeCursor?
            && |page.changes| <= PageLimit(pageSize) && (page.hasMore ==> |page.changes| == PageLimit(pageSize))
            && (page.hasMore <==> exists r :: r in db.log && page.next.sequence < r.sequence)
            && |RowsAfter(db.log, page.next.sequence)| + |page.changes| == |RowsAfter(db.log, sequence)|
            && (forall i :: 0 <= i < |page.changes| ==> sequence < page.changes[i].sequence <= page.next.sequence)
            && forall i, j :: 0 <= i < j < |page.changes| ==> page.changes[i].sequence < page.changes[j].sequence
  {
    assert Sorted(db.log);
    hide ChangesPage, RowsAfter, MaxSequence, LogOk, PageLimit;
    var i := RowsAfterIsSuffix(db.log, sequence);
    var j := PageIsRows(db, device, sequence, pageSize, i);
    PageLength(db, device, sequence, pageSize, i);
    SplitsNext(db.log, sequence, i, j);
    var next := ChangesPage(db, device, sequence, pageSize).next.sequence;
    var i' := RowsAfterIsSuffix(db.log, next);
    SplitsOnce(db.log, next, i', j);
    MoreToCome(db.log, next, j);
    ChangesInOrder(db, i, j, sequence);
  }

  lemma MoreToCome(log: seq<LogRow>, b: nat, j: nat)
    requires Splits(log, b, j)
    ensures j < |log| <==> exists r :: r in log && b < r.sequence
  {
    if j < |log| { assert log[j] in log; }
  }

  lemma ChangesInOrder(db: Db, i: nat, j: nat, sequence: nat)
    requires Sorted(db.log) && Splits(db.log, sequence, i) && i <= j <= |db.log|
    ensures var changes := Changes(db.versions, db.log[i..j]);
            var next := if i < j then db.log[j-1].sequence else sequence;
            && (forall x :: 0 <= x < |changes| ==> sequence < changes[x].sequence <= next)
            && forall x, y :: 0 <= x < y < |changes| ==> changes[x].sequence < changes[y].sequence
  {}

  lemma SplitsNext(log: seq<LogRow>, b: nat, i: nat, j: nat)
    requires Sorted(log) && Splits(log, b, i) && i <= j <= |log|
    ensures Splits(log, if i < j then log[j-1].sequence else b, j)
  {}

  lemma SplitsOnce(log: seq<LogRow>, b: nat, i: nat, j: nat)
    requires Splits(log, b, i) && Splits(log, b, j)
    ensures i == j
  {
    assert i < |log| ==> b < log[i].sequence;
    assert j < |log| ==> b < log[j].sequence;
  }

  lemma PageLength(db: Db, device: string, sequence: nat, pageSize: int, i: nat)
    requires db.stream.Some? && i <= |db.log| && RowsAfter(db.log, sequence) == db.log[i..]
    ensures var page := ChangesPage(db, device, sequence, pageSize);
            |page.changes| == if |db.log| - i < PageLimit(pageSize) then |db.log| - i else PageLimit(pageSize)
  {}

  lemma PageIsRows(db: Db, device: string, sequence: nat, pageSize: int, i: nat) returns (j: nat)
    requires db.stream.Some? && i <= |db.log| && RowsAfter(db.log, sequence) == db.log[i..]
    ensures var page := ChangesPage(db, device, sequence, pageSize);
            && i <= j <= |db.log|
            && page.changes == Changes(db.versions, db.log[i..j])
            && page.next == ChangeCursor(db.owner, device, db.stream.value.epoch,
                                         if i < j then db.log[j-1].sequence else sequence)
            && (page.hasMore <==> j < |db.log|)
  {
    var size := ClampPage(pageSize);
    j := if i + size < |db.log| then i + size else |db.log|;
    PageIsSlice(db.log, sequence, i, size);
  }

  lemma LastPageIsNewest(replica: Replica, db: Db, b: nat)
    requires LogOk(db) && Splits(db.log, b, |db.log|) && Agrees(replica, db, b)
    ensures Agrees(replica, db, db.lastSequence)
  {
    forall k ensures Held(replica, k) == ViewAt(db, k, db.lastSequence) {
      WholeLogView(db, b, k);
      assert Held(replica, k) == ViewAt(db, k, b);
    }
  }

  lemma PageIsSlice(log: seq<LogRow>, sequence: nat, i: nat, size: nat)
    requires i <= |log| && RowsAfter(log, sequence) == log[i..]
    ensures var rows := Take(RowsAfter(log, sequence), size + 1);
            var j := if i + size < |log| then i + size else |log|;
            Take(rows, size) == log[i..j] && (|rows| > size <==> j < |log|)
  {}

  lemma WholeLogView(db: Db, b: nat, k: Key)
    requires LogOk(db) && Splits(db.log, b, |db.log|)
    ensures LatestAt(db.log, k, b) == LatestAt(db.log, k, db.lastSequence)
  {
    LatestAtIsLatest(db.log, k, b);
    forall x | x in db.log ensures x.sequence <= b {
      var i :| 0 <= i < |db.log| && db.log[i] == x;
    }
    match LatestAt(db.log, k, b) {
      case Some(r) => LatestAtIsUnique(db.log, k, db.lastSequence, r);
      case None => LatestAtIsNone(db.log, k, db.lastSequence);
    }
  }

  // ---------------------------------------------------------------- snapshot pages

  ghost predicate KeysSorted(keys: seq<Key>) {
    forall i, j :: 0 <= i < j < |keys| ==> KeyLess(keys[i], keys[j])
  }

  lemma KeyOrder(a: Key, b: Key)
    ensures a == b || KeyLess(a, b) || KeyLess(b, a)
    ensures !(KeyLess(a, b) && KeyLess(b, a)) && !KeyLess(a, a)
  {}

  lemma {:induction false} InsertKeySorted(keys: seq<Key>, k: Key)
    requires KeysSorted(keys)
    ensures KeysSorted(InsertKey(keys, k))
    ensures forall x :: x in InsertKey(keys, k) <==> x in keys || x == k
  {
    if keys != [] {
      assert keys == [keys[0]] + keys[1..];
      KeyOrder(k, keys[0]);
      if KeyLess(keys[0], k) {
        InsertKeySorted(keys[1..], k);
        var rest := InsertKey(keys[1..], k);
        forall i | 0 <= i < |rest| ensures KeyLess(keys[0], rest[i]) { assert rest[i] in rest; }
      }
    }
  }

  lemma {:induction false} KeysAtSorted(log: seq<LogRow>, boundary: nat)
    ensures KeysSorted(KeysAt(log, boundary))
    ensures forall k :: k in KeysAt(log, boundary) <==> LatestAt(log, k, boundary).Some?
  {
    if log != [] {
      var n := |log| - 1;
      KeysAtSorted(log[..n], boundary);
      InsertKeySorted(KeysAt(log[..n], boundary), log[n].key);
    }
  }

  lemma {:induction false} KeysBeyondSorted(keys: seq<Key>, last: Option<Key>)
    requires KeysSorted(keys)
    ensures KeysSorted(KeysBeyond(keys, last))
    ensures forall k :: k in KeysBeyond(keys, last) <==> k in keys && Beyond(k, last)
  {
    if keys != [] {
      assert keys == [keys[0]] + keys[1..];
      KeysBeyondSorted(keys[1..], last);
      var rest := KeysBeyond(keys[1..], last);
      forall i | 0 <= i < |rest| ensures KeyLess(keys[0], rest[i]) {
        assert rest[i] in rest;
        var j :| 0 <= j < |keys[1..]| && keys[1..][j] == rest[i];
        assert keys[j + 1] == rest[i];
      }
    }
  }

  /** Every listed entity has a row at the boundary, so the list of newest rows follows the list of keys. */
  lemma {:induction false} NewestFollowsKeys(db: Db, keys: seq<Key>, boundary: nat)
    requires LogOk(db)
    requires forall k :: k in keys ==> LatestAt(db.log, k, boundary).Some?
    ensures |Newest(db, keys, boundary)| == |keys|
    ensures forall i :: 0 <= i < |keys| ==>
              Newest(db, keys, boundary)[i].key == keys[i]
                  && Some(Newest(db, keys, boundary)[i]) == ViewAt(db, keys[i], boundary)
  {
    if keys != [] {
      assert keys == [keys[0]] + keys[1..];
      NewestFollowsKeys(db, keys[1..], boundary);
      LatestAtIsLatest(db.log, keys[0], boundary);
    }
  }

  /** The replica is the view at the boundary on the keys up to `last`, and has no other key. */
  ghost predicate AgreesUpTo(replica: Replica, db: Db, boundary: nat, last: Option<Key>) {
    forall k :: Held(replica, k) == if Beyond(k, last) then None else ViewAt(db, k, boundary)
  }

  lemma {:induction false} EntriesAgree(replica: Replica, db: Db, boundary: nat, last: Option<Key>, keys: seq<Key>,
                                        entries: seq<Change>, n: nat)
    requires AgreesUpTo(replica, db, boundary, last)
    requires KeysSorted(keys)
    requires forall k :: k in keys <==> LatestAt(db.log, k, boundary).Some? && Beyond(k, last)
    requires n <= |entries| <= |keys|
    requires forall i :: 0 <= i < |entries| ==>
               entries[i].key == keys[i] && Some(entries[i]) == ViewAt(db, keys[i], boundary)
    ensures AgreesUpTo(ApplyChanges(replica, entries[..n]), db, boundary, if n > 0 then Some(keys[n-1]) else last)
  {
    if n > 0 {
      EntriesAgree(replica, db, boundary, last, keys, entries, n - 1);
      assert entries[..n][..n-1] == entries[..n-1];
      var before := ApplyChanges(replica, entries[..n-1]);
      var after := ApplyChanges(replica, entries[..n]);
      assert after == before[keys[n-1] := entries[n-1]];
      var last0 := if n > 1 then Some(keys[n-2]) else last;
      forall k ensures Held(after, k) == if Beyond(k, Some(keys[n-1])) then None else ViewAt(db, k, boundary) {
        NextKeyView(db, boundary, last, keys, n, k);
        assert Held(before, k) == if Beyond(k, last0) then None else ViewAt(db, k, boundary);
      }
    }
  }

  /** Between two neighbouring listed keys there is no entity with a row at the boundary. */
  lemma NextKeyView(db: Db, boundary: nat, last: Option<Key>, keys: seq<Key>, n: nat, k: Key)
    requires KeysSorted(keys) && 1 <= n <= |keys|
    requires forall x :: x in keys <==> LatestAt(db.log, x, boundary).Some? && Beyond(x, last)
    ensures var last0 := if n > 1 then Some(keys[n-2]) else last;
            && (Beyond(k, Some(keys[n-1])) ==> Beyond(k, last0) && k != keys[n-1])
            && (!Beyond(k, Some(keys[n-1])) && Beyond(k, last0) && k != keys[n-1] ==> ViewAt(db, k, boundary) == None)
  {
    assert keys[n-1] in keys;
    KeyOrder(k, keys[n-1]);
    var last0 := if n > 1 then Some(keys[n-2]) else last;
    if !Beyond(k, Some(keys[n-1])) && Beyond(k, last0) && k != keys[n-1] && k in keys {
      var i :| 0 <= i < |keys| && keys[i] == k;
      NoKeyBetween(keys, i, n);
    } else if n > 1 {
      assert keys[n-2] in keys;
    }
  }

  lemma NoKeyBetween(keys: seq<Key>, i: nat, n: nat)
    requires KeysSorted(keys) && i < |keys| && 1 <= n <= |keys|
    ensures KeyLess(keys[i], keys[n-1]) ==> n > 1 && (i == n - 2 || KeyLess(keys[i], keys[n-2]))
  {
    KeyOrder(keys[i], keys[n-1]);
    if n > 1 { KeyOrder(keys[i], keys[n-2]); }
  }

  /** A snapshot page extends the view it pages through from the last key to the next last key, and the
      page without a successor completes it. Its keys are new, in order, and never repeat. */
  lemma SnapshotPageAgrees(replica: Replica, db: Db, device: string, snapshotId: Id, boundary: nat, last: Option<Key>,
                           pageSize: int)
    requires LogOk(db) && db.stream.Some?
    requires AgreesUpTo(replica, db, boundary, last)
    ensures var page := EntriesPage(db, device, snapshotId, boundary, last, pageSize);
            && page.next.SnapshotCursor? && page.next.boundary == boundary
            && AgreesUpTo(ApplyChanges(replica, page.entries), db, boundary, page.next.last)
            && (!page.hasMore ==> Agrees(ApplyChanges(replica, page.entries), db, boundary))
            && (forall i :: 0 <= i < |page.entries| ==>
                 Beyond(page.entries[i].key, last) && page.entries[i].key !in replica)
            && (forall i, j :: 0 <= i < j < |page.entries| ==> KeyLess(page.entries[i].key, page.entries[j].key))
  {
    var keys, n := PageIsKeys(db, device, snapshotId, boundary, last, pageSize);
    var page := EntriesPage(db, device, snapshotId, boundary, last, pageSize);
    hide EntriesPage, LatestAt, LogOk, ApplyChanges;
    KeyedEntriesAgree(replica, db, boundary, last, keys, page.entries);
    forall i | 0 <= i < n ensures Beyond(keys[i], last) && keys[i] !in replica {
      assert keys[i] in keys;
      assert Held(replica, keys[i]) == None;
    }
    if !page.hasMore {
      LastPageCompletes(ApplyChanges(replica, page.entries), db, boundary, last, keys, page.next.last);
    }
  }

  /** A page lists the first keys beyond the last one, each with its newest row at the boundary. */
  lemma PageIsKeys(db: Db, device: string, snapshotId: Id, boundary: nat, last: Option<Key>, pageSize: int)
    returns (keys: seq<Key>, n: nat)
    requires LogOk(db) && db.stream.Some?
    ensures KeysSorted(keys) && n <= |keys|
    ensures forall k :: k in keys <==> LatestAt(db.log, k, boundary).Some? && Beyond(k, last)
    ensures var page := EntriesPage(db, device, snapshotId, boundary, last, pageSize);
            && |page.entries| == n
            && (forall i :: 0 <= i < n ==>
                  page.entries[i].key == keys[i] && Some(page.entries[i]) == ViewAt(db, keys[i], boundary))
            && page.next == SnapshotCursor(db.owner, device, db.stream.value.epoch, snapshotId, boundary,
                                           if n > 0 then Some(keys[n-1]) else last)
            && page.resume == ChangeCursor(db.owner, device, db.stream.value.epoch, boundary)
            && page.snapshotId == snapshotId
            && (page.hasMore <==> n < |keys|)
            && (n == 0 ==> keys == [])
  {
    hide KeysAt, KeysBeyond, Newest, LatestAt, LogOk, KeysSorted, Take, ViewAt, ClampPage;
    keys := KeysBeyond(KeysAt(db.log, boundary), last);
    KeysOfView(db, boundary, last);
    var entries := Newest(db, keys, boundary);
    var size := ClampPage(pageSize);
    PageHoldsSome(pageSize);
    n := if size < |entries| then size else |entries|;
    TakePage(entries, size);
  }

  lemma PageHoldsSome(pageSize: int)
    ensures ClampPage(pageSize) >= 1
  {}

  /** The keys of the view beyond the last one, in order, and their newest rows. */
  lemma KeysOfView(db: Db, boundary: nat, last: Option<Key>)
    requires LogOk(db)
    ensures var keys := KeysBeyond(KeysAt(db.log, boundary), last);
            && KeysSorted(keys)
            && (forall k :: k in keys <==> LatestAt(db.log, k, boundary).Some? && Beyond(k, last))
            && |Newest(db, keys, boundary)| == |keys|
            && forall i :: 0 <= i < |keys| ==>
                 Newest(db, keys, boundary)[i].key == keys[i]
                     && Some(Newest(db, keys, boundary)[i]) == ViewAt(db, keys[i], boundary)
  {
    hide LatestAt, ViewAt;
    KeysAtSorted(db.log, boundary);
    KeysBeyondSorted(KeysAt(db.log, boundary), last);
    hide KeysSorted, KeysAt, KeysBeyond, Newest;
    NewestFollowsKeys(db, KeysBeyond(KeysAt(db.log, boundary), last), boundary);
  }

  lemma KeyedEntriesAgree(replica: Replica, db: Db, boundary: nat, last: Option<Key>, keys: seq<Key>,
                          entries: seq<Change>)
    requires AgreesUpTo(replica, db, boundary, last)
    requires KeysSorted(keys) && |entries| <= |keys|
    requires forall k :: k in keys <==> LatestAt(db.log, k, boundary).Some? && Beyond(k, last)
    requires forall i :: 0 <= i < |entries| ==>
               entries[i].key == keys[i] && Some(entries[i]) == ViewAt(db, keys[i], boundary)
    ensures AgreesUpTo(ApplyChanges(replica, entries), db, boundary,
            if entries != [] then Some(keys[|entries|-1]) else last)
  {
    EntriesAgree(replica, db, boundary, last, keys, entries, |entries|);
    assert entries[..|entries|] == entries;
  }

  lemma TakePage<T>(s: seq<T>, size: nat)
    ensures var rows := Take(s, size + 1);
            var n := if size < |s| then size else |s|;
            Take(rows, size) == s[..n] && (|rows| > size <==> n < |s|)
  {}

  lemma LastPageCompletes(replica: Replica, db: Db, boundary: nat, last: Option<Key>, keys: seq<Key>, next: Option<Key>)
    requires AgreesUpTo(replica, db, boundary, next)
    requires KeysSorted(keys)
    requires forall k :: k in keys <==> LatestAt(db.log, k, boundary).Some? && Beyond(k, last)
    requires next == if keys != [] then Some(keys[|keys|-1]) else last
    ensures Agrees(replica, db, boundary)
  {
    forall k ensures Held(replica, k) == ViewAt(db, k, boundary) {
      assert Held(replica, k) == if Beyond(k, next) then None else ViewAt(db, k, boundary);
      if Beyond(k, next) && ViewAt(db, k, boundary).Some? {
        if keys != [] {
          assert keys[|keys|-1] in keys;
          if k in keys {
            var i :| 0 <= i < |keys| && keys[i] == k;
            KeyOrder(k, keys[|keys|-1]);
          }
        }
      }
    }
  }

  /** Paging a snapshot comes to an end: a page has as many entities as the page size unless there are fewer, and says
      that there is more exactly when an entity beyond its last one has a row at the boundary. */
  lemma SnapshotProgress(db: Db, device: string, snapshotId: Id, boundary: nat, last: Option<Key>, pageSize: int)
    requires LogOk(db) && db.stream.Some?
    ensures var page := EntriesPage(db, device, snapshotId, boundary, last, pageSize);
            && page.next.SnapshotCursor?
            && |page.entries| <= PageLimit(pageSize) && (page.hasMore ==> |page.entries| == PageLimit(pageSize))
            && (page.hasMore <==> exists k :: Beyond(k, page.next.last) && LatestAt(db.log, k, boundary).Some?)
            && page.next.last == (if page.entries != [] then Some(page.entries[|page.entries|-1].key) else last)
  {
    var keys, n := PageIsKeys(db, device, snapshotId, boundary, last, pageSize);
    var page := EntriesPage(db, device, snapshotId, boundary, last, pageSize);
    SnapshotLength(db, device, snapshotId, boundary, last, pageSize);
    hide EntriesPage, LatestAt, LogOk;
    if page.hasMore {
      assert keys[n] in keys && KeyLess(keys[n-1], keys[n]);
      assert Beyond(keys[n], page.next.last) && LatestAt(db.log, keys[n], boundary).Some?;
    }
    forall k | Beyond(k, page.next.last) && LatestAt(db.log, k, boundary).Some? ensures page.hasMore {
      if n > 0 {
        assert keys[n-1] in keys;
        KeyOrderTransitive(last, keys[n-1], k);
      }
      var i :| 0 <= i < |keys| && keys[i] == k;
      if i < n { KeyOrder(keys[i], keys[n-1]); }
    }
  }

  lemma KeyOrderTransitive(last: Option<Key>, mid: Key, k: Key)
    requires Beyond(mid, last) && KeyLess(mid, k)
    ensures Beyond(k, last)
  {}

  lemma SnapshotLength(db: Db, device: string, snapshotId: Id, boundary: nat, last: Option<Key>, pageSize: int)
    requires db.stream.Some?
    ensures var page := EntriesPage(db, device, snapshotId, boundary, last, pageSize);
            |page.entries| <= PageLimit(pageSize) && (page.hasMore ==> |page.entries| == PageLimit(pageSize))
  {
    hide KeysAt, KeysBeyond, Newest;
  }
}
