/** The tables as the services see them: rows assigned in place inside a transaction. */
module SyncStore {
  import opened Wrappers
  import opened SyncTypes
  import opened SyncLog
  import opened SyncHistory
  import opened SyncState

  class Store {
    const owner: Id
    var entities: map<Key, Entity>
    var versions: seq<VersionRow>
    var log: seq<LogRow>
    var lastSequence: nat
    var conflicts: seq<ConflictRow>
    var resolutions: seq<ResolutionRow>
    var restores: seq<RestoreRow>
    var batches: map<BatchKey, Batch>
    var opResults: map<Id, OpResult>
    var stream: Option<Stream>
    var devices: map<string, DeviceRow>
    var nextUuid: Id

    /** The contents of the tables as one value. */
    function View(): Db
      reads this
    {
      Db(owner, entities, versions, log, lastSequence, conflicts, resolutions, restores, batches, opResults,
         stream, devices, nextUuid)
    }

    constructor (owner: Id)
      ensures View() == EmptyDb(owner)
    {
      this.owner := owner;
      entities, versions, log, lastSequence := map[], [], [], 0;
      conflicts, resolutions, restores := [], [], [];
      batches, opResults := map[], map[];
      stream, devices, nextUuid := None, map[], 0;
    }

    /** Undo everything since `before`, as a rolled-back transaction or savepoint does. */
    method Rollback(before: Db)
      requires before.owner == owner
      modifies this
      ensures View() == before
    {
      entities, versions, log, lastSequence := before.entities, before.versions, before.log, before.lastSequence;
      conflicts, resolutions, restores := before.conflicts, before.resolutions, before.restores;
      batches, opResults := before.batches, before.opResults;
      stream, devices, nextUuid := before.stream, before.devices, before.nextUuid;
    }

    /** Insert a version row; the unique keys refuse a used operation or version number. */
    method AddVersion(row: VersionRow) returns (id: Option<nat>)
      modifies this`versions
      ensures if Admissible(old(versions), row)
              then id == Some(|old(versions)|) && versions == old(versions) + [row]
              else id == None && versions == old(versions)
    {
      if !Admissible(versions, row) { return None; }
      id := Some(|versions|);
      versions := versions + [row];
    }

    /** Publish a version row under the next sequence number drawn. */
    method AddLogRow(versionId: nat, skip: nat)
      requires versionId < |versions|
      modifies this`log, this`lastSequence
      ensures lastSequence == old(lastSequence) + 1 + skip
      ensures log == old(log) + [PublishedAs(versions[versionId], versionId, lastSequence)]
    {
      lastSequence := lastSequence + 1 + skip;
      log := log + [PublishedAs(versions[versionId], versionId, lastSequence)];
    }

    /** Delete one log row; the row trigger refuses by raising. */
    method DeleteLogRow(row: LogRow) returns (admitted: bool)
      modifies this`log
      ensures admitted <==> GuardAdmits(stream, old(log), row)
      ensures log == if admitted then Without(old(log), row.sequence) else old(log)
    {
      admitted := GuardAdmits(stream, log, row);
      if admitted { log := Without(log, row.sequence); }
    }

    method NewUuid() returns (id: Id)
      modifies this`nextUuid
      ensures id == old(nextUuid) && nextUuid == old(nextUuid) + 1
    {
      id := nextUuid;
      nextUuid := nextUuid + 1;
    }
  }
}
