/** Classification of two changes that did not see each other. */
module ConflictRules {
  import opened Wrappers
  import opened SyncTypes

  function Classify(localKind: MutationKind, cloudKind: MutationKind, localHash: Hash,
                    cloudHash: Hash): Option<Reason> {
    if localHash == cloudHash then None
    else if localKind == cloudKind == Create then Some(ConcurrentCreate)
    else if Delete in {localKind, cloudKind} then Some(TombstoneDivergence)
    else if Restore in {localKind, cloudKind} then Some(RestoreDivergence)
    else if Rename in {localKind, cloudKind} then Some(RenameDivergence)
    else Some(DivergentContent)
  }
}
