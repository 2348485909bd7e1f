/** How the commands talk to the provider. Every command is a sequence of
    steps; a step issues one provider call (or records that a volume was
    skipped), and the step says what a provider error does: an Attempt reports
    it and the command carries on (the try/except ClientError ... continue of
    the start and stop loops), a Require lets it end the command (no handler
    in the source). Execute gives the trace and the provider state that a
    sequence of steps leaves, for a provider that fails exactly the calls in
    faults. */
module Execution {
  import opened Resources
  import opened Decimal
  import opened SnapshotGuard

  const SNAPSHOT_DESCRIPTION := "Created by Snapshots script"

  const STOPPING := "stopping"
  const STOPPED := "stopped"
  const STARTING := "pending"
  const RUNNING := "running"

  datatype Call =
    | Stop(instanceId: string)
    | WaitUntilStopped(instanceId: string)
    | Start(instanceId: string)
    | WaitUntilRunning(instanceId: string)
    | CreateSnapshot(volumeId: string, description: string)

  datatype Step =
    | Attempt(call: Call)
    | Require(call: Call)
      /** has_pending_snapshot on the volume, then either a skip or
          Require(CreateSnapshot(volumeId, SNAPSHOT_DESCRIPTION)) */
    | Guarded(volumeId: string)

  /** One line of the trace: a call and whether the provider accepted it
      (a refused stop or start is the "Could not ..." report), or a skipped
      volume. */
  datatype Event = Issued(call: Call, ok: bool) | Skipped(volumeId: string)

  datatype Run = Run(events: seq<Event>, cloud: Cloud, aborted: bool)

  /** The outcome of one step: its event, the new state, and whether it ends
      the command. */
  datatype Effect = Effect(event: Event, cloud: Cloud, fatal: bool)

  function SetState(xs: seq<Instance>, id: string, state: string): seq<Instance>
  {
    seq(|xs|, k requires 0 <= k < |xs| => if xs[k].id == id then xs[k].(state := state) else xs[k])
  }

  /** The snapshot the provider starts for a create_snapshot call: pending,
      stamped by the clock, and listed first for its volume. */
  function NewSnapshot(c: Cloud, volumeId: string, description: string): Snapshot
  {
    Snapshot("snap-" + DecimalString(c.clock), volumeId, PENDING, "0%", c.clock, description)
  }

  /** What an accepted call does to the provider. A wait is a single
      transition into the state it waits for. No call changes which
      instances there are, their identifiers, tags or volumes; a lifecycle
      call puts the instances it names into the state it leads to (stopping,
      stopped, pending, running) and changes no other instance, and a
      create_snapshot only the listing of its volume, where the new pending
      snapshot goes first. */
  function Apply(c: Cloud, call: Call): (r: Cloud)
    ensures r.clock == c.clock + 1
    ensures |r.instances| == |c.instances|
    ensures call.Stop? ==> forall k :: 0 <= k < |c.instances| && c.instances[k].id == call.instanceId ==>
      r.instances[k].state == STOPPING
    ensures call.WaitUntilStopped? ==> forall k :: 0 <= k < |c.instances| && c.instances[k].id == call.instanceId ==>
      r.instances[k].state == STOPPED
    ensures call.Start? ==> forall k :: 0 <= k < |c.instances| && c.instances[k].id == call.instanceId ==>
      r.instances[k].state == STARTING
    ensures call.WaitUntilRunning? ==> forall k :: 0 <= k < |c.instances| && c.instances[k].id == call.instanceId ==>
      r.instances[k].state == RUNNING
    ensures forall k :: 0 <= k < |c.instances| ==>
      r.instances[k] == c.instances[k].(state := r.instances[k].state)
    ensures forall k :: 0 <= k < |c.instances| && (call.CreateSnapshot? || c.instances[k].id != call.instanceId) ==>
      r.instances[k] == c.instances[k]
    ensures forall v :: !(call.CreateSnapshot? && call.volumeId == v) ==> SnapshotsOf(r, v) == SnapshotsOf(c, v)
    ensures call.CreateSnapshot? ==>
      var listing := SnapshotsOf(r, call.volumeId);
      && listing != [] && listing[1..] == SnapshotsOf(c, call.volumeId)
      && listing[0].state == PENDING && listing[0].description == call.description
  {
    var c' := c.(clock := c.clock + 1);
    match call
    case Stop(id) => c'.(instances := SetState(c.instances, id, STOPPING))
    case WaitUntilStopped(id) => c'.(instances := SetState(c.instances, id, STOPPED))
    case Start(id) => c'.(instances := SetState(c.instances, id, STARTING))
    case WaitUntilRunning(id) => c'.(instances := SetState(c.instances, id, RUNNING))
    case CreateSnapshot(v, d) =>
      c'.(snapshots := c.snapshots[v := [NewSnapshot(c, v, d)] + SnapshotsOf(c, v)])
  }

  function Issue(c: Cloud, faults: set<Call>, call: Call, tolerated: bool): Effect
  {
    var ok := call !in faults;
    Effect(Issued(call, ok), if ok then Apply(c, call) else c, !ok && !tolerated)
  }

  /** One step against the provider: its event is one the step can produce,
      it ends the command exactly when it is fatal for its step, and only an
      accepted call changes the provider. */
  function Perform(c: Cloud, faults: set<Call>, s: Step): (e: Effect)
    ensures Matches(e.event, s, faults)
    ensures Fatal(e.event, s) <==> e.fatal
    ensures if e.event.Issued? && e.event.ok then e.cloud == Apply(c, e.event.call) else e.cloud == c
  {
    match s
    case Attempt(call) => Issue(c, faults, call, true)
    case Require(call) => Issue(c, faults, call, false)
    case Guarded(v) =>
      if HasPendingSnapshot(SnapshotsOf(c, v)) then Effect(Skipped(v), c, false)
      else Issue(c, faults, CreateSnapshot(v, SNAPSHOT_DESCRIPTION), false)
  }

  /** Carries the steps out in order; the first fatal step ends the run. */
  function Execute(c: Cloud, faults: set<Call>, plan: seq<Step>): (r: Run)
    ensures |r.events| <= |plan|
    ensures r.aborted || |r.events| == |plan|
    decreases |plan|
  {
    if plan == [] then Run([], c, false)
    else
      var r := Execute(c, faults, plan[..|plan| - 1]);
      if r.aborted then r
      else
        var e := Perform(r.cloud, faults, plan[|plan| - 1]);
        Run(r.events + [e.event], e.cloud, e.fatal)
  }

  /** The event a step can produce. */
  predicate Matches(e: Event, s: Step, faults: set<Call>)
  {
    match s
    case Attempt(call) => e == Issued(call, call !in faults)
    case Require(call) => e == Issued(call, call !in faults)
    case Guarded(v) =>
      var create := CreateSnapshot(v, SNAPSHOT_DESCRIPTION);
      e == Skipped(v) || e == Issued(create, create !in faults)
  }

  /** A refused call that its step does not tolerate. */
  predicate Fatal(e: Event, s: Step)
  {
    !s.Attempt? && e.Issued? && !e.ok
  }

  /** Running two plans one after the other: the second starts from the
      state the first leaves, unless the first was cut short, in which case
      nothing of the second happens. */
  lemma {:induction false} ExecuteConcat(c: Cloud, faults: set<Call>, p: seq<Step>, q: seq<Step>)
    ensures var r := Execute(c, faults, p);
      Execute(c, faults, p + q) ==
        if r.aborted then r
        else
          var r2 := Execute(r.cloud, faults, q);
          Run(r.events + r2.events, r2.cloud, r2.aborted)
    decreases |q|
  {
    if q == [] {
      assert p + q == p;
    } else {
      var q0 := q[..|q| - 1];
      assert (p + q)[..|p + q| - 1] == p + q0;
      assert (p + q)[|p + q| - 1] == q[|q| - 1];
      ExecuteConcat(c, faults, p, q0);
    }
  }

  /** One more step at the end of a plan. */
  lemma ExecuteSnoc(c: Cloud, faults: set<Call>, p: seq<Step>, s: Step)
    ensures var r := Execute(c, faults, p);
      Execute(c, faults, p + [s]) ==
        if r.aborted then r
        else
          var e := Perform(r.cloud, faults, s);
          Run(r.events + [e.event], e.cloud, e.fatal)
  {
    assert (p + [s])[..|p|] == p;
  }

  /** The trace follows the plan step by step: the k-th event is one the k-th
      step can produce; the run covers the whole plan unless it was cut short;
      and it is cut short exactly at its last event, which is the only fatal
      one. */
  lemma {:induction false} ExecuteFollowsPlan(c: Cloud, faults: set<Call>, plan: seq<Step>)
    ensures var r := Execute(c, faults, plan);
      && |r.events| <= |plan|
      && (r.aborted || |r.events| == |plan|)
      && (r.aborted ==> |r.events| > 0)
      && (forall k :: 0 <= k < |r.events| ==> Matches(r.events[k], plan[k], faults))
      && (forall k :: 0 <= k < |r.events| ==>
            (Fatal(r.events[k], plan[k]) <==> r.aborted && k == |r.events| - 1))
    decreases |plan|
  {
    if plan != [] {
      var p := plan[..|plan| - 1];
      ExecuteFollowsPlan(c, faults, p);
      var r := Execute(c, faults, p);
      if !r.aborted {
        var e := Perform(r.cloud, faults, plan[|plan| - 1]);
        assert Execute(c, faults, plan).events == r.events + [e.event];
        forall k | 0 <= k < |r.events|
          ensures plan[k] == p[k]
        {
        }
      }
    }
  }

  /** The events of a plan's prefix come first in the events of the plan. */
  lemma ExecutePrefixEvents(c: Cloud, faults: set<Call>, plan: seq<Step>, m: nat)
    requires m <= |plan|
    ensures Execute(c, faults, plan[..m]).events <= Execute(c, faults, plan).events
  {
    assert plan[..m] + plan[m..] == plan;
    ExecuteConcat(c, faults, plan[..m], plan[m..]);
  }

  /** A refused call without a handler is the last event of its run. */
  lemma RefusedRequireIsLast(c: Cloud, faults: set<Call>, plan: seq<Step>, m: nat)
    requires m < |Execute(c, faults, plan).events| && plan[m].Require?
    requires Execute(c, faults, plan).events[m] == Issued(plan[m].call, false)
    ensures Execute(c, faults, plan).aborted && m == |Execute(c, faults, plan).events| - 1
  {
    ExecuteFollowsPlan(c, faults, plan);
    assert Fatal(Execute(c, faults, plan).events[m], plan[m]);
  }

  /** Which steps can change the snapshot listing of volume v. */
  predicate Touches(s: Step, v: string)
  {
    match s
    case Guarded(w) => w == v
    case Attempt(call) => call.CreateSnapshot? && call.volumeId == v
    case Require(call) => call.CreateSnapshot? && call.volumeId == v
  }

  /** A step that does not touch v leaves its listing as it was. */
  lemma PerformLeavesListing(c: Cloud, faults: set<Call>, s: Step, v: string)
    requires !Touches(s, v)
    ensures SnapshotsOf(Perform(c, faults, s).cloud, v) == SnapshotsOf(c, v)
  {
  }

  /** Steps that do not touch v leave its listing as it was. */
  lemma {:induction false} UntouchedListing(c: Cloud, faults: set<Call>, plan: seq<Step>, v: string)
    requires forall k :: 0 <= k < |plan| ==> !Touches(plan[k], v)
    ensures SnapshotsOf(Execute(c, faults, plan).cloud, v) == SnapshotsOf(c, v)
    decreases |plan|
  {
    if plan != [] {
      var init := plan[..|plan| - 1];
      UntouchedListing(c, faults, init, v);
      PerformLeavesListing(Execute(c, faults, init).cloud, faults, plan[|plan| - 1], v);
    }
  }

  /** The guard of a Guarded step that the run reaches sees the volume's
      listing as it was when the command began, as long as no earlier step
      touched that volume: a pending first snapshot gives a skip, anything
      else exactly one create_snapshot with the fixed description. */
  lemma GuardSeesListingAtStart(c: Cloud, faults: set<Call>, plan: seq<Step>, k: nat)
    requires k < |plan| && k < |Execute(c, faults, plan).events|
    requires plan[k].Guarded?
    requires forall j :: 0 <= j < k ==> !Touches(plan[j], plan[k].volumeId)
    ensures var v := plan[k].volumeId;
      var create := CreateSnapshot(v, SNAPSHOT_DESCRIPTION);
      Execute(c, faults, plan).events[k] ==
        if HasPendingSnapshot(SnapshotsOf(c, v)) then Skipped(v) else Issued(create, create !in faults)
  {
    var v := plan[k].volumeId;
    var r, e := ExecuteStep(c, faults, plan, k);
    assert |r.events| == k && !r.aborted by {
      if r.aborted {
        ExecuteAbortedPrefix(c, faults, plan[..k], plan);
      }
    }
    var pre := Execute(c, faults, plan[..k + 1]).events;
    assert pre == r.events + [e.event];
    ExecutePrefixEvents(c, faults, plan, k + 1);
    assert Execute(c, faults, plan).events[k] == pre[k];
    assert SnapshotsOf(r.cloud, v) == SnapshotsOf(c, v) by {
      UntouchedListing(c, faults, plan[..k], v);
    }
  }

  /** The run of a plan prefix extended by the next step of the plan; r and
      e name the run so far and the effect of the next step. */
  lemma ExecuteStep(c: Cloud, faults: set<Call>, plan: seq<Step>, m: nat) returns (r: Run, e: Effect)
    requires m < |plan|
    ensures r == Execute(c, faults, plan[..m]) && e == Perform(r.cloud, faults, plan[m])
    ensures Execute(c, faults, plan[..m + 1]) ==
      if r.aborted then r else Run(r.events + [e.event], e.cloud, e.fatal)
  {
    assert plan[..m + 1] == plan[..m] + [plan[m]];
    ExecuteSnoc(c, faults, plan[..m], plan[m]);
    r := Execute(c, faults, plan[..m]);
    e := Perform(r.cloud, faults, plan[m]);
  }

  /** Once a prefix of a plan is cut short, the rest of the plan adds nothing. */
  lemma ExecuteAbortedPrefix(c: Cloud, faults: set<Call>, p: seq<Step>, plan: seq<Step>)
    requires p <= plan && Execute(c, faults, p).aborted
    ensures Execute(c, faults, plan) == Execute(c, faults, p)
  {
    assert plan == p + plan[|p|..];
    ExecuteConcat(c, faults, p, plan[|p|..]);
  }
}
