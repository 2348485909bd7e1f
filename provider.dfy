/** The provider as the commands drive it, and the commands that change it:
    instances start|stop|reboot|snapshot. The provider keeps the instances,
    the snapshot listings and a trace of every call the commands issue; which
    calls it refuses is fixed by faults. */
module Provider {
  import opened Resources
  import opened Selection
  import opened SnapshotGuard
  import opened Execution
  import opened Plans
  import opened Reporter

  /** How a command ends: done (possibly with reported failures), refused
      because the explicit instance does not exist, or cut short by a
      provider error nothing catches. */
  datatype Status = Completed | SelectionFailed(error: SelectionError) | Aborted

  class Ec2 {
    var instances: seq<Instance>
    var snapshots: map<string, seq<Snapshot>>
    var clock: nat
    var trace: seq<Event>
    const faults: set<Call>

    function State(): Cloud
      reads this
    {
      Cloud(instances, snapshots, clock)
    }

    constructor (start: Cloud, faults: set<Call>)
      ensures State() == start && trace == [] && this.faults == faults
    {
      instances, snapshots, clock := start.instances, start.snapshots, start.clock;
      trace := [];
      this.faults := faults;
    }

    /** One provider call: i.stop(), i.wait_until_stopped(), i.start(),
        i.wait_until_running() or v.create_snapshot(Description=...). */
    method Invoke(call: Call) returns (ok: bool)
      modifies this
      ensures ok == (call !in faults)
      ensures trace == old(trace) + [Issued(call, ok)]
      ensures State() == if ok then Apply(old(State()), call) else old(State())
    {
      ok := call !in faults;
      trace := trace + [Issued(call, ok)];
      if ok {
        var next := Apply(State(), call);
        instances, snapshots, clock := next.instances, next.snapshots, next.clock;
      }
    }

    /** The report that a volume was skipped because its latest snapshot is
        still pending (line 121). */
    method RecordSkip(volumeId: string)
      modifies this
      ensures trace == old(trace) + [Skipped(volumeId)]
      ensures State() == old(State())
    {
      trace := trace + [Skipped(volumeId)];
    }

    /** One step of a command: the call (or, for a volume, the guard and then
        the call), with the step deciding whether a refusal ends the command. */
    method Take(s: Step) returns (ok: bool)
      modifies this
      ensures var e := Perform(old(State()), faults, s);
        trace == old(trace) + [e.event] && State() == e.cloud && ok == !e.fatal
    {
      match s
      case Attempt(call) =>
        var accepted := Invoke(call);
        ok := true;
      case Require(call) =>
        ok := Invoke(call);
      case Guarded(v) =>
        if HasPendingSnapshot(SnapshotsOf(State(), v)) {
          RecordSkip(v);
          ok := true;
        } else {
          ok := Invoke(CreateSnapshot(v, SNAPSHOT_DESCRIPTION));
        }
    }

    /** A loop over the selection whose ClientError is reported and skipped
        (the stop and start loops). */
    method AttemptEach(t: Transition, ids: seq<string>)
      modifies this
      ensures var r := Execute(old(State()), faults, Attempts(t, ids));
        !r.aborted && trace == old(trace) + r.events && State() == r.cloud
    {
      ghost var plan := Attempts(t, ids);
      var i := 0;
      while i < |ids|
        invariant 0 <= i <= |ids|
        invariant var r := Execute(old(State()), faults, plan[..i]);
          !r.aborted && trace == old(trace) + r.events && State() == r.cloud
      {
        ghost var r, e := ExecuteStep(old(State()), faults, plan, i);
        var ok := Take(Attempt(CallFor(t, ids[i])));
        AppendAssoc(old(trace), r.events, [e.event]);
        i := i + 1;
      }
      assert plan[..|ids|] == plan;
    }

    /** A loop of waits over the selection: the first WaiterError propagates. */
    method AwaitEach(t: Transition, ids: seq<string>) returns (ok: bool)
      modifies this
      ensures var r := Execute(old(State()), faults, Barrier(t, ids));
        ok == !r.aborted && trace == old(trace) + r.events && State() == r.cloud
    {
      ghost var plan := Barrier(t, ids);
      var i := 0;
      while i < |ids|
        invariant 0 <= i <= |ids|
        invariant var r := Execute(old(State()), faults, plan[..i]);
          !r.aborted && trace == old(trace) + r.events && State() == r.cloud
      {
        ghost var r, e := ExecuteStep(old(State()), faults, plan, i);
        ok := Take(Require(CallFor(t, ids[i])));
        AppendAssoc(old(trace), r.events, [e.event]);
        if !ok {
          ExecuteAbortedPrefix(old(State()), faults, plan[..i + 1], plan);
          return;
        }
        i := i + 1;
      }
      assert plan[..|ids|] == plan;
      ok := true;
    }

    /** A loop of transitions followed by a loop of waits over the same ids. */
    method Cycle(t: Transition, w: Transition, ids: seq<string>) returns (ok: bool)
      modifies this
      ensures var r := Execute(old(State()), faults, Attempts(t, ids) + Barrier(w, ids));
        ok == !r.aborted && trace == old(trace) + r.events && State() == r.cloud
    {
      ghost var c0 := State();
      AttemptEach(t, ids);
      ghost var r1 := Execute(c0, faults, Attempts(t, ids));
      ok := AwaitEach(w, ids);
      ghost var r2 := Execute(r1.cloud, faults, Barrier(w, ids));
      AppendAssoc(old(trace), r1.events, r2.events);
      ExecuteConcat(c0, faults, Attempts(t, ids), Barrier(w, ids));
    }

    /** The four loops of reboot over the selected ids (lines 76-98). */
    method RebootSelected(ids: seq<string>) returns (ok: bool)
      modifies this
      ensures var r := Execute(old(State()), faults, RebootPlan(ids));
        ok == !r.aborted && trace == old(trace) + r.events && State() == r.cloud
    {
      ghost var c0 := State();
      ghost var first := Attempts(StopIt, ids) + Barrier(AwaitStopped, ids);
      ghost var second := Attempts(StartIt, ids) + Barrier(AwaitRunning, ids);
      assert RebootPlan(ids) == first + second;
      ExecuteConcat(c0, faults, first, second);
      ok := Cycle(StopIt, AwaitStopped, ids);
      if !ok {
        return;
      }
      ghost var r1 := Execute(c0, faults, first);
      ok := Cycle(StartIt, AwaitRunning, ids);
      AppendAssoc(old(trace), r1.events, Execute(r1.cloud, faults, second).events);
    }

    /** Two calls in a row, the second only if the first went through. */
    method TakeBoth(a: Step, b: Step) returns (ok: bool)
      modifies this
      ensures var r := Execute(old(State()), faults, [a, b]);
        ok == !r.aborted && trace == old(trace) + r.events && State() == r.cloud
    {
      ghost var plan := [a, b];
      assert plan[..0] == [] && plan[..2] == plan;
      ghost var r0, e1 := ExecuteStep(State(), faults, plan, 0);
      ghost var r1, e2 := ExecuteStep(State(), faults, plan, 1);
      ok := Take(a);
      if ok {
        ok := Take(b);
        AppendAssoc(old(trace), [e1.event], [e2.event]);
      }
    }

    /** The volume loop of create_snapshots (lines 119-125). */
    method SnapshotVolumes(vs: seq<Volume>) returns (ok: bool)
      modifies this
      ensures var r := Execute(old(State()), faults, VolumeSteps(vs));
        ok == !r.aborted && trace == old(trace) + r.events && State() == r.cloud
    {
      ghost var plan := VolumeSteps(vs);
      var j := 0;
      while j < |vs|
        invariant 0 <= j <= |vs|
        invariant var r := Execute(old(State()), faults, plan[..j]);
          !r.aborted && trace == old(trace) + r.events && State() == r.cloud
      {
        ghost var r, e := ExecuteStep(old(State()), faults, plan, j);
        ok := Take(Guarded(vs[j].id));
        AppendAssoc(old(trace), r.events, [e.event]);
        if !ok {
          ExecuteAbortedPrefix(old(State()), faults, plan[..j + 1], plan);
          return;
        }
        j := j + 1;
      }
      assert plan[..|vs|] == plan;
      ok := true;
    }

    /** One iteration of the instance loop of create_snapshots (lines 114-130):
        stop and wait, the volume loop, start and wait. */
    method SnapshotInstance(i: Instance) returns (ok: bool)
      modifies this
      ensures var r := Execute(old(State()), faults, InstanceBlock(i));
        ok == !r.aborted && trace == old(trace) + r.events && State() == r.cloud
    {
      ghost var t0 := trace;
      ghost var r1, r2, r3 := InstanceBlockPhases(State(), faults, i);
      ok := TakeBoth(Require(Stop(i.id)), Require(WaitUntilStopped(i.id)));
      if ok {
        ok := SnapshotVolumes(i.volumes);
        AppendAssoc(t0, r1.events, r2.events);
        if ok {
          ok := TakeBoth(Require(Start(i.id)), Require(WaitUntilRunning(i.id)));
          AppendAssoc(t0, r1.events + r2.events, r3.events);
        }
      }
    }

    /** The instance loop of create_snapshots over the selection. */
    method SnapshotSelected(xs: seq<Instance>) returns (ok: bool)
      modifies this
      ensures var r := Execute(old(State()), faults, SnapshotPlan(xs));
        ok == !r.aborted && trace == old(trace) + r.events && State() == r.cloud
    {
      ghost var c0 := State();
      var k := 0;
      assert xs[..0] == [];
      while k < |xs|
        invariant 0 <= k <= |xs|
        invariant var r := Execute(c0, faults, SnapshotPlan(xs[..k]));
          !r.aborted && trace == old(trace) + r.events && State() == r.cloud
      {
        SnapshotPlanNext(c0, faults, xs, k);
        ghost var r := Execute(c0, faults, SnapshotPlan(xs[..k]));
        ok := SnapshotInstance(xs[k]);
        AppendAssoc(old(trace), r.events, Execute(r.cloud, faults, InstanceBlock(xs[k])).events);
        if !ok {
          return;
        }
        k := k + 1;
      }
      assert xs[..|xs|] == xs;
      ok := true;
    }

    /** instances stop (lines 55-65). */
    method StopInstances(instance: Option<string>, project: Option<string>) returns (status: Status)
      modifies this
      ensures var sel := Select(old(instances), instance, project);
        if sel.Failure? then
          status == SelectionFailed(sel.error) && trace == old(trace) && State() == old(State())
        else
          var r := Execute(old(State()), faults, Attempts(StopIt, Ids(sel.value)));
          status == Completed && trace == old(trace) + r.events && State() == r.cloud
    {
      var sel := Select(instances, instance, project);
      if sel.Failure? {
        return SelectionFailed(sel.error);
      }
      AttemptEach(StopIt, Ids(sel.value));
      status := Completed;
    }

    /** instances start (lines 38-48). */
    method StartInstances(instance: Option<string>, project: Option<string>) returns (status: Status)
      modifies this
      ensures var sel := Select(old(instances), instance, project);
        if sel.Failure? then
          status == SelectionFailed(sel.error) && trace == old(trace) && State() == old(State())
        else
          var r := Execute(old(State()), faults, Attempts(StartIt, Ids(sel.value)));
          status == Completed && trace == old(trace) + r.events && State() == r.cloud
    {
      var sel := Select(instances, instance, project);
      if sel.Failure? {
        return SelectionFailed(sel.error);
      }
      AttemptEach(StartIt, Ids(sel.value));
      status := Completed;
    }

    /** instances reboot (lines 72-102). */
    method RebootInstances(instance: Option<string>, project: Option<string>) returns (status: Status)
      modifies this
      ensures var sel := Select(old(instances), instance, project);
        if sel.Failure? then
          status == SelectionFailed(sel.error) && trace == old(trace) && State() == old(State())
        else
          var r := Execute(old(State()), faults, RebootPlan(Ids(sel.value)));
          status == (if r.aborted then Aborted else Completed)
          && trace == old(trace) + r.events && State() == r.cloud
    {
      var sel := Select(instances, instance, project);
      if sel.Failure? {
        return SelectionFailed(sel.error);
      }
      var ok := RebootSelected(Ids(sel.value));
      status := if ok then Completed else Aborted;
    }

    /** instances snapshot (lines 109-134): nothing is caught, so the first
        provider error ends the command. */
    method CreateSnapshots(instance: Option<string>, project: Option<string>) returns (status: Status)
      modifies this
      ensures var sel := Select(old(instances), instance, project);
        if sel.Failure? then
          status == SelectionFailed(sel.error) && trace == old(trace) && State() == old(State())
        else
          var r := Execute(old(State()), faults, SnapshotPlan(sel.value));
          status == (if r.aborted then Aborted else Completed)
          && trace == old(trace) + r.events && State() == r.cloud
    {
      var sel := Select(instances, instance, project);
      if sel.Failure? {
        return SelectionFailed(sel.error);
      }
      var ok := SnapshotSelected(sel.value);
      status := if ok then Completed else Aborted;
    }

    /** instances list (lines 141-155). */
    method ListInstances(instance: Option<string>, project: Option<string>)
      returns (r: Result<seq<InstanceRow>, SelectionError>)
      ensures var sel := Select(instances, instance, project);
        if sel.Failure? then r == Failure(sel.error) else r == Success(InstanceRows(sel.value))
    {
      var sel := Select(instances, instance, project);
      if sel.Failure? {
        return Failure(sel.error);
      }
      var rows := ListSelectedInstances(sel.value);
      r := Success(rows);
    }

    /** The loop of instances list: one row per selected instance, in order. */
    method ListSelectedInstances(xs: seq<Instance>) returns (rows: seq<InstanceRow>)
      ensures rows == InstanceRows(xs)
    {
      rows := [];
      var k := 0;
      while k < |xs|
        invariant 0 <= k <= |xs| && |rows| == k
        invariant forall q :: 0 <= q < k ==> rows[q] == InstanceRowOf(xs[q])
      {
        rows := rows + [InstanceRowOf(xs[k])];
        k := k + 1;
      }
    }

    /** The inner loop of volumes list: one row per volume of i. */
    method ListInstanceVolumes(i: Instance) returns (rows: seq<VolumeRow>)
      ensures rows == VolumeRowsOf(i, i.volumes)
    {
      rows := [];
      var j := 0;
      while j < |i.volumes|
        invariant 0 <= j <= |i.volumes| && |rows| == j
        invariant forall q :: 0 <= q < j ==> rows[q] == VolumeRowOf(i, i.volumes[q])
      {
        rows := rows + [VolumeRowOf(i, i.volumes[j])];
        j := j + 1;
      }
    }

    /** volumes list (lines 166-179). */
    method ListVolumes(instance: Option<string>, project: Option<string>)
      returns (r: Result<seq<VolumeRow>, SelectionError>)
      ensures var sel := Select(instances, instance, project);
        if sel.Failure? then r == Failure(sel.error) else r == Success(VolumeRows(sel.value))
    {
      var sel := Select(instances, instance, project);
      if sel.Failure? {
        return Failure(sel.error);
      }
      var rows := ListSelectedVolumes(sel.value);
      r := Success(rows);
    }

    /** The outer loop of volumes list: the selected instances in order. */
    method ListSelectedVolumes(xs: seq<Instance>) returns (rows: seq<VolumeRow>)
      ensures rows == VolumeRows(xs)
    {
      rows := [];
      var k := 0;
      assert xs[..0] == [];
      while k < |xs|
        invariant 0 <= k <= |xs| && rows == VolumeRows(xs[..k])
      {
        var part := ListInstanceVolumes(xs[k]);
        rows := rows + part;
        assert xs[..k + 1][..k] == xs[..k];
        k := k + 1;
      }
      assert xs[..|xs|] == xs;
    }

    /** The inner loop of snapshots list over one volume's listing: print,
        then stop after a completed snapshot unless --all. */
    method ListVolumeSnapshots(i: Instance, v: Volume, listAll: bool) returns (rows: seq<SnapshotRow>)
      ensures rows == SnapshotRowsOf(i, v, Shown(SnapshotsOf(State(), v.id), listAll))
    {
      var listing := SnapshotsOf(State(), v.id);
      rows := [];
      var m := 0;
      while m < |listing|
        invariant 0 <= m <= |listing| && |rows| == m
        invariant forall q :: 0 <= q < m ==> rows[q] == SnapshotRowOf(i, v, listing[q])
        invariant !listAll ==> forall q :: 0 <= q < m ==> listing[q].state != COMPLETED
      {
        var s := listing[m];
        rows := rows + [SnapshotRowOf(i, v, s)];
        m := m + 1;
        if s.state == COMPLETED && !listAll {
          FirstCompletedAt(listing, m);
          break;
        }
      }
      if m == |listing| && (listAll || forall q :: 0 <= q < m ==> listing[q].state != COMPLETED) {
        if !listAll {
          NoCompletedShowsAll(listing);
        }
        assert listing[..m] == listing;
      }
      assert Shown(listing, listAll) == listing[..m];
    }

    /** The middle loop of snapshots list: the volumes of i in order. */
    method ListInstanceSnapshots(i: Instance, listAll: bool) returns (rows: seq<SnapshotRow>)
      ensures rows == InstanceSnapshotRows(State(), i, i.volumes, listAll)
    {
      rows := [];
      var j := 0;
      assert i.volumes[..0] == [];
      while j < |i.volumes|
        invariant 0 <= j <= |i.volumes|
        invariant rows == InstanceSnapshotRows(State(), i, i.volumes[..j], listAll)
      {
        var shown := ListVolumeSnapshots(i, i.volumes[j], listAll);
        assert i.volumes[..j + 1][..j] == i.volumes[..j];
        rows := rows + shown;
        j := j + 1;
      }
      assert i.volumes[..|i.volumes|] == i.volumes;
    }

    /** snapshots list (lines 192-208). */
    method ListSnapshots(instance: Option<string>, project: Option<string>, listAll: bool)
      returns (r: Result<seq<SnapshotRow>, SelectionError>)
      ensures var sel := Select(instances, instance, project);
        if sel.Failure? then r == Failure(sel.error) else r == Success(SnapshotRows(State(), sel.value, listAll))
    {
      var sel := Select(instances, instance, project);
      if sel.Failure? {
        return Failure(sel.error);
      }
      var rows := ListSelectedSnapshots(sel.value, listAll);
      r := Success(rows);
    }

    /** The outer loop of snapshots list: the selected instances in order. */
    method ListSelectedSnapshots(xs: seq<Instance>, listAll: bool) returns (rows: seq<SnapshotRow>)
      ensures rows == SnapshotRows(State(), xs, listAll)
    {
      rows := [];
      var k := 0;
      assert xs[..0] == [];
      while k < |xs|
        invariant 0 <= k <= |xs| && rows == SnapshotRows(State(), xs[..k], listAll)
      {
        var part := ListInstanceSnapshots(xs[k], listAll);
        rows := rows + part;
        assert xs[..k + 1][..k] == xs[..k];
        k := k + 1;
      }
      assert xs[..|xs|] == xs;
    }
  }
}
