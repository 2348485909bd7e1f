/** The steps each command carries out over its selection, and what their
    runs are proved to look like: the stop and start batches isolate failures,
    reboot runs four whole-selection phases with barriers, and the snapshot
    command handles one instance completely before the next and stops at the
    first provider error. */
module Plans {
  import opened Resources
  import opened Execution
  import opened SnapshotGuard

  datatype Transition = StopIt | AwaitStopped | StartIt | AwaitRunning

  function CallFor(t: Transition, id: string): Call
  {
    match t
    case StopIt => Stop(id)
    case AwaitStopped => WaitUntilStopped(id)
    case StartIt => Start(id)
    case AwaitRunning => WaitUntilRunning(id)
  }

  /** A loop whose ClientError is reported and skipped (lines 42-48, 59-65,
      76-82, 88-94). */
  function Attempts(t: Transition, ids: seq<string>): seq<Step>
  {
    seq(|ids|, k requires 0 <= k < |ids| => Attempt(CallFor(t, ids[k])))
  }

  /** A loop of waits with no handler: the first failure ends the command
      (lines 84-86, 96-98). */
  function Barrier(t: Transition, ids: seq<string>): seq<Step>
  {
    seq(|ids|, k requires 0 <= k < |ids| => Require(CallFor(t, ids[k])))
  }

  /** The four loops of reboot, each over the whole selection. */
  function RebootPlan(ids: seq<string>): (r: seq<Step>)
    ensures |r| == 4 * |ids|
  {
    Attempts(StopIt, ids) + Barrier(AwaitStopped, ids) + Attempts(StartIt, ids) + Barrier(AwaitRunning, ids)
  }

  /** The guard-or-create step of every volume of an instance, in order. */
  function VolumeSteps(vs: seq<Volume>): seq<Step>
  {
    seq(|vs|, k requires 0 <= k < |vs| => Guarded(vs[k].id))
  }

  /** One iteration of the snapshot loop (lines 114-130): nothing in it is
      guarded by a handler. */
  function InstanceBlock(i: Instance): (r: seq<Step>)
    ensures |r| == |i.volumes| + 4
  {
    [Require(Stop(i.id)), Require(WaitUntilStopped(i.id))]
      + VolumeSteps(i.volumes)
      + [Require(Start(i.id)), Require(WaitUntilRunning(i.id))]
  }

  function SnapshotPlan(sel: seq<Instance>): seq<Step>
    decreases |sel|
  {
    if sel == [] then [] else SnapshotPlan(sel[..|sel| - 1]) + InstanceBlock(sel[|sel| - 1])
  }

  /** Where the steps of the k-th selected instance begin. */
  function BlockStart(sel: seq<Instance>, k: nat): nat
    requires k <= |sel|
  {
    |SnapshotPlan(sel[..k])|
  }

  // ---------------------------------------------------------------------
  // start_instances, stop_instances

  /** Every instance of the selection gets exactly one attempt, in selection
      order; whether it is accepted depends on that call alone, so a refused
      instance never keeps a later one from being tried, and the batch always
      runs to its end. */
  lemma BatchIsolatesFailures(c: Cloud, faults: set<Call>, t: Transition, ids: seq<string>)
    ensures var r := Execute(c, faults, Attempts(t, ids));
      && !r.aborted
      && |r.events| == |ids|
      && forall k :: 0 <= k < |ids| ==>
           r.events[k] == Issued(CallFor(t, ids[k]), CallFor(t, ids[k]) !in faults)
  {
    var plan := Attempts(t, ids);
    ExecuteFollowsPlan(c, faults, plan);
    var r := Execute(c, faults, plan);
    if r.events != [] {
      var last := |r.events| - 1;
      assert !Fatal(r.events[last], plan[last]);
    }
    forall k | 0 <= k < |ids|
      ensures r.events[k] == Issued(CallFor(t, ids[k]), CallFor(t, ids[k]) !in faults)
    {
      assert Matches(r.events[k], plan[k], faults);
    }
  }

  // ---------------------------------------------------------------------
  // reboot_instances

  predicate IsCall(e: Event, t: Transition)
  {
    e.Issued? &&
    match t
    case StopIt => e.call.Stop?
    case AwaitStopped => e.call.WaitUntilStopped?
    case StartIt => e.call.Start?
    case AwaitRunning => e.call.WaitUntilRunning?
  }

  /** The m-th call of a reboot: stops at 0..n-1, waits for "stopped" at
      n..2n-1, starts at 2n..3n-1, waits for "running" at 3n..4n-1, each
      phase over the whole selection in selection order. */
  function RebootCall(ids: seq<string>, m: nat): Call
    requires m < 4 * |ids|
  {
    var n := |ids|;
    if m < n then Stop(ids[m])
    else if m < 2 * n then WaitUntilStopped(ids[m - n])
    else if m < 3 * n then Start(ids[m - 2 * n])
    else WaitUntilRunning(ids[m - 3 * n])
  }

  lemma RebootStepAt(ids: seq<string>, m: nat)
    requires m < 4 * |ids|
    ensures |RebootPlan(ids)| == 4 * |ids|
    ensures RebootPlan(ids)[m] ==
      if RebootCall(ids, m).Stop? || RebootCall(ids, m).Start? then Attempt(RebootCall(ids, m))
      else Require(RebootCall(ids, m))
  {
  }

  /** A reboot issues the calls of the four-phase schedule in order, each
      reported as the provider answers it. It runs to the end of the schedule
      unless a wait fails, and then that failed wait is its last event. */
  lemma RebootFollowsSchedule(c: Cloud, faults: set<Call>, ids: seq<string>)
    ensures var r := Execute(c, faults, RebootPlan(ids));
      && |r.events| <= 4 * |ids|
      && (!r.aborted ==> |r.events| == 4 * |ids|)
      && (r.aborted ==> 0 < |r.events|)
      && (forall m :: 0 <= m < |r.events| ==>
            r.events[m] == Issued(RebootCall(ids, m), RebootCall(ids, m) !in faults))
      && (r.aborted ==>
            var e := r.events[|r.events| - 1];
            !e.ok && (IsCall(e, AwaitStopped) || IsCall(e, AwaitRunning)))
  {
    var plan := RebootPlan(ids);
    ExecuteFollowsPlan(c, faults, plan);
    var r := Execute(c, faults, plan);
    forall m | 0 <= m < |r.events|
      ensures r.events[m] == Issued(RebootCall(ids, m), RebootCall(ids, m) !in faults)
    {
      RebootStepAt(ids, m);
      assert Matches(r.events[m], plan[m], faults);
    }
    if r.aborted {
      var last := |r.events| - 1;
      assert Fatal(r.events[last], plan[last]);
      RebootStepAt(ids, last);
    }
  }

  /** Every stop of the first phase is issued, whatever the provider answers:
      failed stops are reported and the loop goes on. */
  lemma RebootAttemptsEveryStop(c: Cloud, faults: set<Call>, ids: seq<string>)
    ensures var r := Execute(c, faults, RebootPlan(ids));
      && |ids| <= |r.events|
      && forall i :: 0 <= i < |ids| ==> r.events[i] == Issued(Stop(ids[i]), Stop(ids[i]) !in faults)
  {
    var plan := RebootPlan(ids);
    var r := Execute(c, faults, plan);
    RebootFollowsSchedule(c, faults, ids);
    if r.aborted {
      var last := |r.events| - 1;
      RebootStepAt(ids, last);
    }
    assert forall i :: 0 <= i < |ids| ==> RebootCall(ids, i) == Stop(ids[i]);
  }

  /** The barrier: no start is issued before every wait for "stopped", and a
      start is issued at all only once every instance of the selection has
      been waited on successfully. */
  lemma RebootBarrier(c: Cloud, faults: set<Call>, ids: seq<string>)
    ensures var r := Execute(c, faults, RebootPlan(ids));
      && (forall j, k ::
            (0 <= j < |r.events| && 0 <= k < |r.events|
             && IsCall(r.events[j], AwaitStopped) && IsCall(r.events[k], StartIt)) ==> j < k)
      && (forall k :: 0 <= k < |r.events| && IsCall(r.events[k], StartIt) ==>
            2 * |ids| <= k
            && forall i :: 0 <= i < |ids| ==> r.events[|ids| + i] == Issued(WaitUntilStopped(ids[i]), true))
  {
    var r := Execute(c, faults, RebootPlan(ids));
    RebootFollowsSchedule(c, faults, ids);
    forall k | 0 <= k < |r.events| && IsCall(r.events[k], StartIt)
      ensures 2 * |ids| <= k
      ensures forall i :: 0 <= i < |ids| ==> r.events[|ids| + i] == Issued(WaitUntilStopped(ids[i]), true)
    {
      StartFollowsStoppedWaits(c, faults, ids, k);
    }
  }

  /** A start at position k of a reboot comes after the whole wait phase, and
      every wait of that phase was accepted. */
  lemma StartFollowsStoppedWaits(c: Cloud, faults: set<Call>, ids: seq<string>, k: nat)
    requires k < |Execute(c, faults, RebootPlan(ids)).events|
    requires IsCall(Execute(c, faults, RebootPlan(ids)).events[k], StartIt)
    ensures 2 * |ids| <= k
    ensures forall i :: 0 <= i < |ids| ==>
      Execute(c, faults, RebootPlan(ids)).events[|ids| + i] == Issued(WaitUntilStopped(ids[i]), true)
  {
    var n := |ids|;
    var plan := RebootPlan(ids);
    var r := Execute(c, faults, plan);
    RebootFollowsSchedule(c, faults, ids);
    assert r.events[k].call == RebootCall(ids, k);
    assert 2 * n <= k;
    forall i | 0 <= i < n
      ensures r.events[n + i] == Issued(WaitUntilStopped(ids[i]), true)
    {
      var m := n + i;
      assert RebootCall(ids, m) == WaitUntilStopped(ids[i]);
      if WaitUntilStopped(ids[i]) in faults {
        RebootStepAt(ids, m);
        RefusedRequireIsLast(c, faults, plan, m);
      }
    }
  }

  /** The kept quirk: an instance whose stop was refused is still waited on
      for "stopped" and still sent a start, like every other instance. */
  lemma RebootKeepsFailedStops(c: Cloud, faults: set<Call>, ids: seq<string>, i: nat)
    requires i < |ids| && Stop(ids[i]) in faults
    requires forall j :: 0 <= j < |ids| ==> WaitUntilStopped(ids[j]) !in faults
    ensures var r := Execute(c, faults, RebootPlan(ids)); var n := |ids|;
      && 3 * n <= |r.events|
      && r.events[i] == Issued(Stop(ids[i]), false)
      && r.events[n + i] == Issued(WaitUntilStopped(ids[i]), true)
      && r.events[2 * n + i] == Issued(Start(ids[i]), Start(ids[i]) !in faults)
  {
    var r := Execute(c, faults, RebootPlan(ids));
    RebootFollowsSchedule(c, faults, ids);
    if r.aborted {
      var last := |r.events| - 1;
      assert r.events[last] == Issued(RebootCall(ids, last), RebootCall(ids, last) !in faults);
      assert 3 * |ids| <= last;
    }
  }

  // ---------------------------------------------------------------------
  // create_snapshots

  /** No volume is shared between two instances of the selection (nor listed
      twice for one). */
  predicate DistinctVolumes(sel: seq<Instance>)
  {
    forall a, x, b, y ::
      0 <= a < |sel| && 0 <= x < |sel[a].volumes| && 0 <= b < |sel| && 0 <= y < |sel[b].volumes|
      && (a != b || x != y)
      ==> sel[a].volumes[x].id != sel[b].volumes[y].id
  }

  lemma {:induction false} SnapshotPlanPrefix(sel: seq<Instance>, k: nat)
    requires k <= |sel|
    ensures SnapshotPlan(sel[..k]) <= SnapshotPlan(sel)
    decreases |sel| - k
  {
    if k == |sel| {
      assert sel[..k] == sel;
    } else {
      SnapshotPlanPrefix(sel, k + 1);
      assert sel[..k + 1][..k] == sel[..k];
    }
  }

  /** The steps of the k-th selected instance form one contiguous block of
      the plan, right after those of the instances before it. */
  lemma SnapshotBlockAt(sel: seq<Instance>, k: nat)
    requires k < |sel|
    ensures var lo := BlockStart(sel, k); var b := InstanceBlock(sel[k]);
      && lo + |b| == BlockStart(sel, k + 1) <= |SnapshotPlan(sel)|
      && forall p :: lo <= p < lo + |b| ==> SnapshotPlan(sel)[p] == b[p - lo]
  {
    var whole := SnapshotPlan(sel);
    var upTo := SnapshotPlan(sel[..k + 1]);
    var b := InstanceBlock(sel[k]);
    SnapshotPlanSnoc(sel, k);
    SnapshotPlanPrefix(sel, k + 1);
    forall p | BlockStart(sel, k) <= p < BlockStart(sel, k) + |b| ensures whole[p] == b[p - BlockStart(sel, k)]
    {
      assert whole[p] == upTo[p];
    }
  }

  /** The plan of the first k + 1 instances extends that of the first k by
      the block of instance k. */
  lemma SnapshotPlanSnoc(sel: seq<Instance>, k: nat)
    requires k < |sel|
    ensures SnapshotPlan(sel[..k + 1]) == SnapshotPlan(sel[..k]) + InstanceBlock(sel[k])
  {
    assert sel[..k + 1][..k] == sel[..k];
  }

  /** Every step of the snapshot plan is fatal on error: it has no Attempt,
      and it creates snapshots only through the guard. */
  lemma {:induction false} SnapshotPlanSteps(sel: seq<Instance>)
    ensures forall m :: 0 <= m < |SnapshotPlan(sel)| ==>
      var s := SnapshotPlan(sel)[m];
      s.Guarded? || (s.Require? && !s.call.CreateSnapshot?)
    decreases |sel|
  {
    if sel != [] {
      SnapshotPlanSteps(sel[..|sel| - 1]);
    }
  }

  /** Each instance is processed completely before the next: the events at
      the positions of the k-th block are, in order, the stop and the wait for
      "stopped" of that instance, one guard-or-create per volume, then its
      start and its wait for "running". */
  lemma SnapshotRunFollowsBlocks(c: Cloud, faults: set<Call>, sel: seq<Instance>, k: nat)
    requires k < |sel|
    ensures var r := Execute(c, faults, SnapshotPlan(sel));
      var lo := BlockStart(sel, k); var b := InstanceBlock(sel[k]);
      forall m :: lo <= m < lo + |b| && m < |r.events| ==> Matches(r.events[m], b[m - lo], faults)
  {
    var plan := SnapshotPlan(sel);
    SnapshotBlockAt(sel, k);
    ExecuteFollowsPlan(c, faults, plan);
  }

  /** No error handling: the first refused call (a stop, a wait, a
      create_snapshot or a start) is the last event of the run, so no later
      step of its instance and nothing for any later instance is issued. */
  lemma SnapshotFailureEndsRun(c: Cloud, faults: set<Call>, sel: seq<Instance>, k: nat, m: nat)
    requires k < |sel|
    requires BlockStart(sel, k) <= m < BlockStart(sel, k + 1)
    requires var r := Execute(c, faults, SnapshotPlan(sel));
      m < |r.events| && r.events[m].Issued? && !r.events[m].ok
    ensures var r := Execute(c, faults, SnapshotPlan(sel));
      && r.aborted
      && |r.events| == m + 1
      && forall k' :: k < k' <= |sel| ==> |r.events| <= BlockStart(sel, k')
  {
    var plan := SnapshotPlan(sel);
    var r := Execute(c, faults, plan);
    assert r.aborted && |r.events| == m + 1 by {
      SnapshotPlanSteps(sel);
      ExecuteFollowsPlan(c, faults, plan);
      assert Fatal(r.events[m], plan[m]);
    }
    forall k' | k < k' <= |sel| ensures BlockStart(sel, k + 1) <= BlockStart(sel, k')
    {
      SnapshotPlanPrefix(sel[..k'], k + 1);
      assert sel[..k'][..k + 1] == sel[..k + 1];
    }
  }

  /** Every create_snapshot the command issues carries the fixed description. */
  lemma SnapshotDescriptionIsFixed(c: Cloud, faults: set<Call>, sel: seq<Instance>)
    ensures var r := Execute(c, faults, SnapshotPlan(sel));
      forall m :: 0 <= m < |r.events| && r.events[m].Issued? && r.events[m].call.CreateSnapshot? ==>
        r.events[m].call.description == SNAPSHOT_DESCRIPTION
  {
    var plan := SnapshotPlan(sel);
    SnapshotPlanSteps(sel);
    ExecuteFollowsPlan(c, faults, plan);
  }

  /** The snapshot plan touches the listing of a volume only at a guard of
      one of the selected instances' volumes. */
  lemma {:induction false} SnapshotPlanLeavesOtherVolumes(sel: seq<Instance>, v: string)
    requires forall a, x :: 0 <= a < |sel| && 0 <= x < |sel[a].volumes| ==> sel[a].volumes[x].id != v
    ensures forall m :: 0 <= m < |SnapshotPlan(sel)| ==> !Touches(SnapshotPlan(sel)[m], v)
    decreases |sel|
  {
    if sel != [] {
      var init := sel[..|sel| - 1];
      var b := InstanceBlock(sel[|sel| - 1]);
      SnapshotPlanLeavesOtherVolumes(init, v);
      forall m | |SnapshotPlan(init)| <= m < |SnapshotPlan(sel)|
        ensures !Touches(SnapshotPlan(sel)[m], v)
      {
        var i := m - |SnapshotPlan(init)|;
        assert SnapshotPlan(sel)[m] == b[i];
        if 2 <= i < 2 + |sel[|sel| - 1].volumes| {
          assert b[i] == Guarded(sel[|sel| - 1].volumes[i - 2].id);
        }
      }
    }
  }

  lemma VolumeNotEarlier(sel: seq<Instance>, k: nat, j: nat)
    requires DistinctVolumes(sel)
    requires k < |sel| && j < |sel[k].volumes|
    ensures forall a, x :: 0 <= a < k && 0 <= x < |sel[..k][a].volumes| ==>
      sel[..k][a].volumes[x].id != sel[k].volumes[j].id
    ensures forall x :: 0 <= x < j ==> sel[k].volumes[x].id != sel[k].volumes[j].id
  {
    forall a, x | 0 <= a < k && 0 <= x < |sel[..k][a].volumes|
      ensures sel[..k][a].volumes[x].id != sel[k].volumes[j].id
    {
      assert sel[..k][a] == sel[a];
    }
  }

  /** The guard of the j-th volume of the k-th instance sits at position
      BlockStart(sel, k) + 2 + j, after that instance's stop and wait. */
  lemma GuardPosition(sel: seq<Instance>, k: nat, j: nat)
    requires k < |sel| && j < |sel[k].volumes|
    ensures BlockStart(sel, k) + 2 + j < |SnapshotPlan(sel)|
    ensures SnapshotPlan(sel)[BlockStart(sel, k) + 2 + j] == Guarded(sel[k].volumes[j].id)
  {
    var plan := SnapshotPlan(sel);
    var lo := BlockStart(sel, k);
    var b := InstanceBlock(sel[k]);
    SnapshotBlockAt(sel, k);
  }

  /** Inside one instance's block, the stop, the wait and the guards of the
      earlier volumes leave the j-th volume alone when those volumes differ
      from it. */
  lemma BlockHeadLeavesVolume(i: Instance, j: nat)
    requires j < |i.volumes|
    requires forall x :: 0 <= x < j ==> i.volumes[x].id != i.volumes[j].id
    ensures forall p :: 0 <= p < 2 + j ==> !Touches(InstanceBlock(i)[p], i.volumes[j].id)
  {
    forall p | 0 <= p < 2 + j ensures !Touches(InstanceBlock(i)[p], i.volumes[j].id)
    {
      if 2 <= p {
        assert InstanceBlock(i)[p] == Guarded(i.volumes[p - 2].id);
      }
    }
  }

  /** Before the guard of the j-th volume of the k-th instance, no step of
      the plan touches that volume. */
  lemma EarlierStepsLeaveVolume(sel: seq<Instance>, k: nat, j: nat)
    requires k < |sel| && j < |sel[k].volumes|
    requires forall a, x :: 0 <= a < k && 0 <= x < |sel[..k][a].volumes| ==>
      sel[..k][a].volumes[x].id != sel[k].volumes[j].id
    requires forall x :: 0 <= x < j ==> sel[k].volumes[x].id != sel[k].volumes[j].id
    ensures BlockStart(sel, k) + 2 + j <= |SnapshotPlan(sel)|
    ensures forall p :: 0 <= p < BlockStart(sel, k) + 2 + j ==>
      !Touches(SnapshotPlan(sel)[p], sel[k].volumes[j].id)
  {
    var plan := SnapshotPlan(sel);
    var lo := BlockStart(sel, k);
    var b := InstanceBlock(sel[k]);
    var v := sel[k].volumes[j].id;
    SnapshotBlockAt(sel, k);
    BlockHeadLeavesVolume(sel[k], j);
    SnapshotPlanLeavesOtherVolumes(sel[..k], v);
    SnapshotPlanPrefix(sel, k);
    forall p | 0 <= p < lo + 2 + j ensures !Touches(plan[p], v)
    {
      if p < lo {
        assert plan[p] == SnapshotPlan(sel[..k])[p];
      }
    }
  }

  /** The guard decides each visited volume on its listing as it stood when
      the command began: a pending first snapshot gives a skip and no
      create_snapshot; otherwise exactly one create_snapshot, with the fixed
      description, is issued for it. */
  lemma SnapshotGuardDecides(c: Cloud, faults: set<Call>, sel: seq<Instance>, k: nat, j: nat)
    requires DistinctVolumes(sel)
    requires k < |sel| && j < |sel[k].volumes|
    requires BlockStart(sel, k) + 2 + j < |Execute(c, faults, SnapshotPlan(sel)).events|
    ensures var v := sel[k].volumes[j].id;
      var create := CreateSnapshot(v, SNAPSHOT_DESCRIPTION);
      Execute(c, faults, SnapshotPlan(sel)).events[BlockStart(sel, k) + 2 + j] ==
        if HasPendingSnapshot(SnapshotsOf(c, v)) then Skipped(v) else Issued(create, create !in faults)
  {
    VolumeNotEarlier(sel, k, j);
    GuardPosition(sel, k, j);
    EarlierStepsLeaveVolume(sel, k, j);
    GuardSeesListingAtStart(c, faults, SnapshotPlan(sel), BlockStart(sel, k) + 2 + j);
  }

  /** The snapshot run after one more instance: the previous run followed by
      that instance's block, and if the block is cut short, the whole run. */
  lemma SnapshotPlanNext(c: Cloud, faults: set<Call>, sel: seq<Instance>, k: nat)
    requires k < |sel| && !Execute(c, faults, SnapshotPlan(sel[..k])).aborted
    ensures var r := Execute(c, faults, SnapshotPlan(sel[..k]));
      var b := Execute(r.cloud, faults, InstanceBlock(sel[k]));
      && Execute(c, faults, SnapshotPlan(sel[..k + 1])) == Run(r.events + b.events, b.cloud, b.aborted)
      && (b.aborted ==> Execute(c, faults, SnapshotPlan(sel)) == Execute(c, faults, SnapshotPlan(sel[..k + 1])))
  {
    assert sel[..k + 1][..k] == sel[..k];
    ExecuteConcat(c, faults, SnapshotPlan(sel[..k]), InstanceBlock(sel[k]));
    SnapshotPlanPrefix(sel, k + 1);
    if Execute(c, faults, SnapshotPlan(sel[..k + 1])).aborted {
      ExecuteAbortedPrefix(c, faults, SnapshotPlan(sel[..k + 1]), SnapshotPlan(sel));
    }
  }

  /** The run of one instance's block, phase by phase: stop and wait, the
      volumes, start and wait; each phase runs only if the one before it
      was not cut short. */
  lemma InstanceBlockPhases(c: Cloud, faults: set<Call>, i: Instance) returns (r1: Run, r2: Run, r3: Run)
    ensures r1 == Execute(c, faults, [Require(Stop(i.id)), Require(WaitUntilStopped(i.id))])
    ensures r2 == Execute(r1.cloud, faults, VolumeSteps(i.volumes))
    ensures r3 == Execute(r2.cloud, faults, [Require(Start(i.id)), Require(WaitUntilRunning(i.id))])
    ensures var halt := [Require(Stop(i.id)), Require(WaitUntilStopped(i.id))];
      var resume := [Require(Start(i.id)), Require(WaitUntilRunning(i.id))];
      var r1 := Execute(c, faults, halt);
      var r2 := Execute(r1.cloud, faults, VolumeSteps(i.volumes));
      var r3 := Execute(r2.cloud, faults, resume);
      Execute(c, faults, InstanceBlock(i)) ==
        if r1.aborted then r1
        else if r2.aborted then Run(r1.events + r2.events, r2.cloud, true)
        else Run(r1.events + r2.events + r3.events, r3.cloud, r3.aborted)
  {
    var halt := [Require(Stop(i.id)), Require(WaitUntilStopped(i.id))];
    var volumes := VolumeSteps(i.volumes);
    var resume := [Require(Start(i.id)), Require(WaitUntilRunning(i.id))];
    assert InstanceBlock(i) == (halt + volumes) + resume;
    ExecuteConcat(c, faults, halt, volumes);
    ExecuteConcat(c, faults, halt + volumes, resume);
    r1 := Execute(c, faults, halt);
    r2 := Execute(r1.cloud, faults, volumes);
    r3 := Execute(r2.cloud, faults, resume);
    AppendAssoc(r1.events, r2.events, r3.events);
  }
}
