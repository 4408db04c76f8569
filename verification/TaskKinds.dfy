/** Kinds and statuses of background tasks. */
module TaskKinds {
  datatype TaskKind = FolderUpload | ChannelReprocess | DamageCalculation

  datatype TaskStatus = Queued | Running | Cancelling | Completed | Failed | Cancelled

  predicate IsActive(status: TaskStatus) {
    status in {Queued, Running, Cancelling}
  }

  predicate IsDerived(kind: TaskKind) {
    kind in {ChannelReprocess, DamageCalculation}
  }
}
