/** has_pending_snapshot: a volume is left alone while the first snapshot of
    its listing (taken to be the most recent) is still being copied. */
module SnapshotGuard {
  import opened Resources

  const PENDING := "pending"

  /** The argument is the volume's snapshot listing as the provider returns it. */
  function HasPendingSnapshot(listing: seq<Snapshot>): bool
  {
    listing != [] && listing[0].state == PENDING
  }

  /** A volume never snapshotted is never held back. */
  lemma NoSnapshotsNoGuard()
    ensures !HasPendingSnapshot([])
  {
  }

  /** Only the first entry is consulted: two listings that agree on their
      first entry (or are both empty) get the same answer, whatever follows. */
  lemma OnlyFirstEntryCounts(a: seq<Snapshot>, b: seq<Snapshot>)
    requires (a == []) == (b == [])
    requires a != [] ==> a[0].state == b[0].state
    ensures HasPendingSnapshot(a) == HasPendingSnapshot(b)
  {
  }

  /** A pending snapshot put in front of any listing holds the volume back,
      and a finished one in front releases it. */
  lemma FirstEntryDecides(s: Snapshot, rest: seq<Snapshot>)
    ensures HasPendingSnapshot([s] + rest) <==> s.state == PENDING
  {
  }
}
