/** The rows the three list commands print, one comma-joined line each:
    instances list, volumes list and snapshots list. A row is kept as its
    fields; joining them with ", " is left to the printer. */
module Reporter {
  import opened Resources
  import opened Decimal
  import opened Selection

  const NO_PROJECT := "<no_project>"
  const COMPLETED := "completed"
  const SIZE_UNIT := "GiB"
  const ENCRYPTED := "Encrypted"
  const NOT_ENCRYPTED := "Not Encrypted"

  /** id, instance type, availability zone, state, public DNS name, project */
  datatype InstanceRow = InstanceRow(
    id: string, instanceType: string, zone: string, state: string,
    publicDnsName: string, project: string)

  /** volume id, instance id, state, size, encryption */
  datatype VolumeRow = VolumeRow(
    volumeId: string, instanceId: string, state: string, size: string, encryption: string)

  /** snapshot id, volume id, instance id, state, progress, start time */
  datatype SnapshotRow = SnapshotRow(
    snapshotId: string, volumeId: string, instanceId: string, state: string,
    progress: string, startTime: int)

  // ---------------------------------------------------------------------
  // Labels

  /** The value under key in the dictionary built from a tag list: when a
      key is repeated, the later entry overwrites the earlier one. */
  function TagValue(ts: seq<Tag>, key: string): (r: Option<string>)
    ensures r.None? <==> forall k :: 0 <= k < |ts| ==> ts[k].key != key
    ensures r.Some? ==>
      exists k :: (0 <= k < |ts| && ts[k] == Tag(key, r.value)
                   && forall k' :: k < k' < |ts| ==> ts[k'].key != key)
    decreases |ts|
  {
    if ts == [] then None
    else if ts[|ts| - 1].key == key then Some(ts[|ts| - 1].value)
    else TagValue(ts[..|ts| - 1], key)
  }

  /** The project column: the value of the Project tag, read from the
      dictionary built from the tag list (an instance with no tags at all
      has an empty one), or the sentinel when there is no such tag. A label
      other than the sentinel is the value of one of the instance's Project
      tags. */
  function ProjectLabel(tags: Option<seq<Tag>>): (r: string)
    ensures tags.None? ==> r == NO_PROJECT
    ensures r == NO_PROJECT
      || (tags.Some? && exists k :: 0 <= k < |tags.value| && tags.value[k] == Tag(PROJECT_KEY, r))
  {
    var ts := if tags.Some? then tags.value else [];
    match TagValue(ts, PROJECT_KEY)
    case Some(p) => p
    case None => NO_PROJECT
  }

  /** The size column: the size in decimal digits, followed by the unit
      GiB with no space between them. */
  function SizeLabel(size: nat): (r: string)
    ensures |r| > |SIZE_UNIT| && r[|r| - |SIZE_UNIT|..] == SIZE_UNIT
    ensures AllDigits(r[..|r| - |SIZE_UNIT|])
  {
    DecimalString(size) + SIZE_UNIT
  }

  /** The encryption column: one of two fixed words, chosen by the
      volume's encrypted flag. */
  function EncryptionLabel(encrypted: bool): (r: string)
    ensures r == ENCRYPTED <==> encrypted
    ensures r == NOT_ENCRYPTED <==> !encrypted
  {
    if encrypted then ENCRYPTED else NOT_ENCRYPTED
  }

  /** An instance without a Project tag (or without tags at all) is shown
      with the sentinel. */
  lemma UntaggedShowsSentinel(i: Instance)
    requires i.tags.None? || forall k :: 0 <= k < |i.tags.value| ==> i.tags.value[k].key != PROJECT_KEY
    ensures ProjectLabel(i.tags) == NO_PROJECT
  {
  }

  /** The label and the --project filter agree: an instance shown under
      project p (other than the sentinel) is one the filter for p selects,
      and an instance the filter for p selects is shown under p when it has
      only one Project tag. */
  lemma ProjectLabelMatchesFilter(i: Instance, p: string)
    ensures ProjectLabel(i.tags) == p && p != NO_PROJECT ==> TaggedWith(i, p)
    ensures TaggedWith(i, p)
      && (forall a, b :: 0 <= a < b < |i.tags.value| ==>
            i.tags.value[a].key == PROJECT_KEY ==> i.tags.value[b].key != PROJECT_KEY)
      ==> ProjectLabel(i.tags) == p
  {
    if TaggedWith(i, p) {
      var ts := i.tags.value;
      var a :| 0 <= a < |ts| && ts[a] == Tag(PROJECT_KEY, p);
      var r := TagValue(ts, PROJECT_KEY);
      if r.Some? && r.value != p {
        var b :| 0 <= b < |ts| && ts[b] == Tag(PROJECT_KEY, r.value)
          && forall k' :: b < k' < |ts| ==> ts[k'].key != PROJECT_KEY;
        assert a < b;
      }
    }
  }

  /** The size column reads back as the size: digits, then "GiB". */
  lemma SizeLabelRoundTrip(size: nat)
    ensures var s := SizeLabel(size);
      && |s| > |SIZE_UNIT|
      && s[|s| - |SIZE_UNIT|..] == SIZE_UNIT
      && AllDigits(s[..|s| - |SIZE_UNIT|])
      && DigitsValue(s[..|s| - |SIZE_UNIT|]) == size
  {
    var s := SizeLabel(size);
    assert s[..|s| - |SIZE_UNIT|] == DecimalString(size);
    DecimalRoundTrip(size);
  }

  /** Different sizes get different size labels. */
  lemma SizeLabelInjective(m: nat, n: nat)
    requires SizeLabel(m) == SizeLabel(n)
    ensures m == n
  {
    SizeLabelRoundTrip(m);
    SizeLabelRoundTrip(n);
  }

  /** The encryption column tells the two cases apart. */
  lemma EncryptionLabelInjective(a: bool, b: bool)
    ensures EncryptionLabel(a) == EncryptionLabel(b) <==> a == b
  {
  }

  // ---------------------------------------------------------------------
  // Snapshot truncation

  /** The snapshots the inner loop of snapshots list prints without --all:
      every entry up to and including the first "completed" one. */
  function UpToFirstCompleted(s: seq<Snapshot>): (r: seq<Snapshot>)
    ensures r <= s
    ensures forall k :: 0 <= k < |r| - 1 ==> r[k].state != COMPLETED
    ensures r == s || (r != [] && r[|r| - 1].state == COMPLETED)
    decreases |s|
  {
    if s == [] then []
    else if s[0].state == COMPLETED then [s[0]]
    else
      var rest := UpToFirstCompleted(s[1..]);
      assert s == [s[0]] + s[1..];
      [s[0]] + rest
  }

  /** The entries of one volume's listing that are printed: a prefix of the
      listing that always holds its first entry, and the whole listing
      with --all. */
  function Shown(s: seq<Snapshot>, listAll: bool): (r: seq<Snapshot>)
    ensures r <= s
    ensures s != [] ==> r != []
    ensures listAll ==> r == s
  {
    if listAll then s else UpToFirstCompleted(s)
  }

  /** The printed entries are exactly the prefix ending at the first
      completed one (m is its position plus one). */
  lemma {:induction false} FirstCompletedAt(s: seq<Snapshot>, m: nat)
    requires 0 < m <= |s| && s[m - 1].state == COMPLETED
    requires forall q :: 0 <= q < m - 1 ==> s[q].state != COMPLETED
    ensures UpToFirstCompleted(s) == s[..m]
    decreases m
  {
    if m > 1 {
      FirstCompletedAt(s[1..], m - 1);
      assert s[..m] == [s[0]] + s[1..][..m - 1];
    }
  }

  /** Without a completed entry the whole listing is printed. */
  lemma {:induction false} NoCompletedShowsAll(s: seq<Snapshot>)
    requires forall q :: 0 <= q < |s| ==> s[q].state != COMPLETED
    ensures UpToFirstCompleted(s) == s
    decreases |s|
  {
    if s != [] {
      NoCompletedShowsAll(s[1..]);
      assert s == [s[0]] + s[1..];
    }
  }

  /** The most recent snapshot of a volume is always printed, with or
      without --all, and --all prints the whole listing. */
  lemma MostRecentAlwaysShown(s: seq<Snapshot>, listAll: bool)
    requires s != []
    ensures Shown(s, listAll) != [] && Shown(s, listAll)[0] == s[0]
    ensures Shown(s, listAll) <= s
    ensures listAll ==> Shown(s, true) == s
  {
  }

  /** A completed most recent snapshot is the only one printed without
      --all, however many completed ones follow it. */
  lemma CompletedFirstShownAlone(s: seq<Snapshot>)
    requires s != [] && s[0].state == COMPLETED
    ensures Shown(s, false) == [s[0]]
  {
  }

  /** Two unfinished snapshots and then completed ones: the two unfinished
      entries and the newest completed one are printed, the older completed one is
      not; --all prints all four. */
  lemma TruncationExample(p1: Snapshot, p2: Snapshot, c1: Snapshot, c2: Snapshot)
    requires p1.state == "pending" && p2.state == "error"
    requires c1.state == COMPLETED && c2.state == COMPLETED
    ensures Shown([p1, p2, c1, c2], false) == [p1, p2, c1]
    ensures Shown([p1, p2, c1, c2], true) == [p1, p2, c1, c2]
  {
    FirstCompletedAt([p1, p2, c1, c2], 3);
    assert [p1, p2, c1, c2][..3] == [p1, p2, c1];
  }

  // ---------------------------------------------------------------------
  // Rows

  function InstanceRowOf(i: Instance): InstanceRow
  {
    InstanceRow(i.id, i.instanceType, i.zone, i.state, i.publicDnsName, ProjectLabel(i.tags))
  }

  function VolumeRowOf(i: Instance, v: Volume): VolumeRow
  {
    VolumeRow(v.id, i.id, v.state, SizeLabel(v.size), EncryptionLabel(v.encrypted))
  }

  function SnapshotRowOf(i: Instance, v: Volume, s: Snapshot): SnapshotRow
  {
    SnapshotRow(s.id, v.id, i.id, s.state, s.progress, s.startTime)
  }

  /** instances list: one row per selected instance, in order. */
  function InstanceRows(sel: seq<Instance>): seq<InstanceRow>
  {
    seq(|sel|, k requires 0 <= k < |sel| => InstanceRowOf(sel[k]))
  }

  function VolumeRowsOf(i: Instance, vs: seq<Volume>): seq<VolumeRow>
  {
    seq(|vs|, j requires 0 <= j < |vs| => VolumeRowOf(i, vs[j]))
  }

  /** volumes list: for each selected instance in order, one row per volume. */
  function VolumeRows(sel: seq<Instance>): seq<VolumeRow>
    decreases |sel|
  {
    if sel == [] then []
    else VolumeRows(sel[..|sel| - 1]) + VolumeRowsOf(sel[|sel| - 1], sel[|sel| - 1].volumes)
  }

  function SnapshotRowsOf(i: Instance, v: Volume, shown: seq<Snapshot>): seq<SnapshotRow>
  {
    seq(|shown|, q requires 0 <= q < |shown| => SnapshotRowOf(i, v, shown[q]))
  }

  /** The snapshot rows of one instance, volume by volume. */
  function InstanceSnapshotRows(c: Cloud, i: Instance, vs: seq<Volume>, listAll: bool): seq<SnapshotRow>
    decreases |vs|
  {
    if vs == [] then []
    else
      var v := vs[|vs| - 1];
      InstanceSnapshotRows(c, i, vs[..|vs| - 1], listAll)
        + SnapshotRowsOf(i, v, Shown(SnapshotsOf(c, v.id), listAll))
  }

  /** snapshots list: instance by instance, volume by volume, the printed
      entries of each volume's listing. */
  function SnapshotRows(c: Cloud, sel: seq<Instance>, listAll: bool): seq<SnapshotRow>
    decreases |sel|
  {
    if sel == [] then []
    else
      var i := sel[|sel| - 1];
      SnapshotRows(c, sel[..|sel| - 1], listAll) + InstanceSnapshotRows(c, i, i.volumes, listAll)
  }

  /** Every volume of every selected instance has its row. */
  lemma {:induction false} EveryVolumeListed(sel: seq<Instance>, a: nat, x: nat)
    requires a < |sel| && x < |sel[a].volumes|
    ensures VolumeRowOf(sel[a], sel[a].volumes[x]) in VolumeRows(sel)
    decreases |sel|
  {
    var n := |sel| - 1;
    var tail := VolumeRowsOf(sel[n], sel[n].volumes);
    if a < n {
      EveryVolumeListed(sel[..n], a, x);
      assert sel[..n][a] == sel[a];
    } else {
      assert tail[x] == VolumeRowOf(sel[a], sel[a].volumes[x]);
    }
  }

  /** Every row of volumes list is that of a selected instance's volume. */
  lemma {:induction false} OnlySelectedVolumesListed(sel: seq<Instance>, row: VolumeRow)
    requires row in VolumeRows(sel)
    ensures exists a, x :: (0 <= a < |sel| && 0 <= x < |sel[a].volumes|
                            && row == VolumeRowOf(sel[a], sel[a].volumes[x]))
    decreases |sel|
  {
    var n := |sel| - 1;
    if row in VolumeRows(sel[..n]) {
      OnlySelectedVolumesListed(sel[..n], row);
      var a, x :| 0 <= a < n && 0 <= x < |sel[..n][a].volumes|
        && row == VolumeRowOf(sel[..n][a], sel[..n][a].volumes[x]);
      assert sel[..n][a] == sel[a];
    } else {
      var tail := VolumeRowsOf(sel[n], sel[n].volumes);
      var x :| 0 <= x < |tail| && tail[x] == row;
      assert row == VolumeRowOf(sel[n], sel[n].volumes[x]);
    }
  }

  /** The most recent snapshot of every volume of every selected instance is
      printed, with or without --all. */
  lemma {:induction false} MostRecentOfEachVolume(c: Cloud, i: Instance, vs: seq<Volume>, x: nat, listAll: bool)
    requires x < |vs| && SnapshotsOf(c, vs[x].id) != []
    ensures SnapshotRowOf(i, vs[x], SnapshotsOf(c, vs[x].id)[0]) in InstanceSnapshotRows(c, i, vs, listAll)
    decreases |vs|
  {
    var n := |vs| - 1;
    if x < n {
      MostRecentOfEachVolume(c, i, vs[..n], x, listAll);
      assert vs[..n][x] == vs[x];
    } else {
      var shown := Shown(SnapshotsOf(c, vs[n].id), listAll);
      MostRecentAlwaysShown(SnapshotsOf(c, vs[n].id), listAll);
      assert SnapshotRowsOf(i, vs[n], shown)[0] == SnapshotRowOf(i, vs[x], SnapshotsOf(c, vs[x].id)[0]);
    }
  }

  lemma {:induction false} MostRecentOfEachInstance(c: Cloud, sel: seq<Instance>, a: nat, x: nat, listAll: bool)
    requires a < |sel| && x < |sel[a].volumes| && SnapshotsOf(c, sel[a].volumes[x].id) != []
    ensures var v := sel[a].volumes[x];
      SnapshotRowOf(sel[a], v, SnapshotsOf(c, v.id)[0]) in SnapshotRows(c, sel, listAll)
    decreases |sel|
  {
    var n := |sel| - 1;
    var v := sel[a].volumes[x];
    var row := SnapshotRowOf(sel[a], v, SnapshotsOf(c, v.id)[0]);
    var init := SnapshotRows(c, sel[..n], listAll);
    var last := InstanceSnapshotRows(c, sel[n], sel[n].volumes, listAll);
    assert SnapshotRows(c, sel, listAll) == init + last;
    if a < n {
      assert sel[..n][a] == sel[a];
      MostRecentOfEachInstance(c, sel[..n], a, x, listAll);
      assert row in init;
    } else {
      MostRecentOfEachVolume(c, sel[a], sel[a].volumes, x, listAll);
      assert row in last;
    }
  }
}
