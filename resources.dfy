/** The provider's resources as the command-line tool sees them: instances with
    their tags and attached volumes, and the snapshot listing of every volume.
    States are the provider's own state names, as strings. */
module Resources {

  datatype Option<+T> = None | Some(value: T)

  datatype Result<+T, +E> = Success(value: T) | Failure(error: E)

  /** One entry of an instance's tag list ({'Key': .., 'Value': ..}). */
  datatype Tag = Tag(key: string, value: string)

  datatype Snapshot = Snapshot(
    id: string,
    volumeId: string,
    state: string,         // "pending", "completed", "error", ...
    progress: string,      // a percentage, such as "100%"
    startTime: int,        // a point in time; its rendering is not modelled
    description: string)

  datatype Volume = Volume(
    id: string,
    state: string,         // "creating", "available", "in-use", ...
    size: nat,             // in GiB
    encrypted: bool)

  datatype Instance = Instance(
    id: string,
    instanceType: string,
    zone: string,          // the availability zone of its placement
    state: string,         // the state's name: "pending", "running", "stopping", "stopped", ...
    publicDnsName: string,
    tags: Option<seq<Tag>>, // boto3 gives None for an instance without tags
    volumes: seq<Volume>)

  /** What the provider holds: the instances, each volume's snapshot listing
      (first entry = most recent) and a logical clock that stamps new snapshots. */
  datatype Cloud = Cloud(
    instances: seq<Instance>,
    snapshots: map<string, seq<Snapshot>>,
    clock: nat)

  /** The snapshot listing of one volume; a volume never
      snapshotted has an empty listing. */
  function SnapshotsOf(c: Cloud, volumeId: string): seq<Snapshot>
  {
    if volumeId in c.snapshots then c.snapshots[volumeId] else []
  }

  /** The identifiers of a selection of instances, in order. */
  function Ids(sel: seq<Instance>): (ids: seq<string>)
    ensures |ids| == |sel|
    ensures forall k :: 0 <= k < |sel| ==> ids[k] == sel[k].id
  {
    seq(|sel|, k requires 0 <= k < |sel| => sel[k].id)
  }

  /** Regrouping appended segments (of a trace, of printed rows). */
  lemma AppendAssoc<T>(a: seq<T>, b: seq<T>, c: seq<T>)
    ensures (a + b) + c == a + (b + c)
  {
  }
}
