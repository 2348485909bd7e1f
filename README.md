# snapshots — a Dafny model of the EC2 snapshot command-line tool

`snapshots` is a small command-line tool that drives Amazon EC2. It selects
instances, starts, stops and reboots them, snapshots their volumes, and lists
instances, volumes and snapshots. This project models the decision and
sequencing logic of `snapshots/snapshots.py` over an in-memory provider, and
proves what each command does to that provider and in what order.

- **Resources** (`resources.dfy`): instances, volumes, snapshots and tags as
  datatypes. `Cloud` is the provider's state: the instances, a snapshot
  listing per volume (first entry = most recent) and a logical clock that
  stamps new snapshots.
- **Selection** (`selection.dfy`): `filter_instances`. An explicit instance
  id wins outright. Otherwise a project filters on the `Project` tag.
  Otherwise every instance is selected. An empty option counts as absent,
  as Python truthiness has it. An explicit id the provider does not know is
  the provider's `InvalidInstanceID.NotFound` (`InvalidInstanceID.Malformed`
  for an ill-formed id). Either is raised before any call
  is issued, so here it is the `InstanceNotFound` error.
- **SnapshotGuard** (`guard.dfy`): `has_pending_snapshot`.
- **Execution** (`execution.dfy`): how a command talks to the provider. A
  command is a sequence of steps, and each step issues one provider call:
  - an `Attempt` step is a call inside `try … except ClientError: continue`,
    so a refusal is reported and the loop goes on;
  - a `Require` step is a call with no handler, so a refusal ends the
    command;
  - a `Guarded` step is the per-volume guard, followed by either a skip or a
    `create_snapshot`.

  Which calls the provider refuses is a parameter, the set `faults`.
  `Execute` gives the trace of events and the final state for a sequence of
  steps.
- **Plans** (`plans.dfy`): the steps of `start`, `stop`, `reboot` and
  `snapshot` over a selection, and the properties of their runs.
- **Provider** (`provider.dfy`): class `Ec2` holds the provider's state and
  the trace, and its methods are the command bodies. They are loops that
  issue calls one at a time, and each is proved to leave exactly the trace
  and state that `Execute` gives for its plan. The three `list` commands are
  loops that build rows.
- **Reporter** (`reporter.dfy`): the rows the list commands print. This
  covers the `<no_project>` sentinel, `str(size) + "GiB"`,
  `"Encrypted"`/`"Not Encrypted"`, and the cut after the first completed
  snapshot unless `--all` is given.
- **Decimal** (`decimal.dfy`): `str()` of a non-negative integer and the
  reading that inverts it.

## Model

| member | source | states |
|---|---|---|
| Selection.TaggedWith | snapshots/snapshots.py:12-13 | the project filter: the instance has tags and one of them is `Project` with exactly the given value |
| Selection.Select | snapshots/snapshots.py:8-15 | with an id given, fails exactly when no instance has that id (error names the id), and otherwise selects exactly the instances with that id; with only a project, selects exactly the instances tagged `Project` = project; with neither (or empty strings), returns the list unchanged |
| Selection.ExplicitIdIgnoresProject | snapshots/snapshots.py:9-10 | with an explicit id the project option has no effect at all |
| Selection.EmptyProjectSelectsAll | snapshots/snapshots.py:11 | an empty project string selects every instance, like no project |
| SnapshotGuard.HasPendingSnapshot | snapshots/snapshots.py:17-19 | the guard itself, defined on emptiness and the first entry alone; the three lemmas below state its properties |
| SnapshotGuard.NoSnapshotsNoGuard | snapshots/snapshots.py:17-19 | a volume with no snapshots is never held back |
| SnapshotGuard.OnlyFirstEntryCounts | snapshots/snapshots.py:17-19 | two listings that agree on emptiness and on the first entry's state get the same answer: later entries are never consulted |
| SnapshotGuard.FirstEntryDecides | snapshots/snapshots.py:19 | a non-empty listing is held back iff its first entry is `pending` |
| Execution.Apply | snapshots/snapshots.py:113-130 | an accepted call keeps every instance's identifier, tags and volumes; an accepted stop, wait for stopped, start and wait for running leave the instance it names `stopping`, `stopped`, `pending` and `running`, and change no other instance, and a `create_snapshot` only its volume's listing, in front of which it puts a pending snapshot with the given description |
| Execution.Perform | snapshots/snapshots.py:42-48 | one step: its event is the step's call with the provider's answer (or the skip of a guarded volume), it ends the command exactly when a call without a handler is refused, and only an accepted call changes the provider |
| Execution.Execute | snapshots/snapshots.py:59-65 | a run of a plan has at most one event per step, and exactly one per step unless it was cut short |
| Execution.ExecuteFollowsPlan | snapshots/snapshots.py:44-48 | the k-th event is the k-th step's call with the provider's answer; the run covers the whole plan unless a call without a handler is refused, and that refusal is then the last event and the only fatal one |
| Execution.GuardSeesListingAtStart | snapshots/snapshots.py:119-125 | a guard step that no earlier step's volume shares decides on the listing as the command found it: pending first entry gives a skip, anything else exactly one `create_snapshot` with the fixed description |
| Plans.Attempts | snapshots/snapshots.py:42-48 | a loop whose refusals are reported and skipped (also lines 59-65, 76-82, 88-94): one Attempt step per id, in order; `Plans.BatchIsolatesFailures` states its run |
| Plans.Barrier | snapshots/snapshots.py:84-86 | a wait loop with no handler (also lines 96-98): one Require step per id, in order; `Provider.Ec2.AwaitEach` and `Plans.RebootBarrier` state its run |
| Plans.RebootPlan | snapshots/snapshots.py:76-98 | the four loops of reboot, one step per selected instance in each; `Plans.RebootFollowsSchedule` gives the call at every position |
| Plans.InstanceBlock | snapshots/snapshots.py:114-130 | one iteration of the snapshot loop: four lifecycle steps and one guard per volume; `Plans.InstanceBlockPhases` states their order |
| Plans.SnapshotPlan | snapshots/snapshots.py:113-130 | the blocks of the selected instances in selection order; its properties are the `Plans.Snapshot…` lemmas below |
| Plans.BatchIsolatesFailures | snapshots/snapshots.py:42-48 | the start loop (and the stop loop, lines 59-65) issues exactly one call per selected instance in selection order, each answered independently, and always runs to the end |
| Plans.RebootFollowsSchedule | snapshots/snapshots.py:76-98 | reboot issues the calls of the four-phase schedule: all stops, all waits for stopped, all starts, all waits for running; it stops early only at a refused wait, which is then its last event |
| Plans.RebootAttemptsEveryStop | snapshots/snapshots.py:76-82 | the first events of a reboot are, for each selected instance in order, its stop with the provider's answer: every instance gets its stop attempt, whatever the provider answers for the others |
| Plans.RebootBarrier | snapshots/snapshots.py:84-91 | every wait for stopped comes before every start, and a start is issued only after every selected instance was waited on successfully |
| Plans.StartFollowsStoppedWaits | snapshots/snapshots.py:84-91 | a start issued by reboot comes after the whole wait-for-stopped phase, and every wait of that phase was accepted |
| Plans.RebootKeepsFailedStops | snapshots/snapshots.py:76-91 | an instance whose stop was refused is still waited on and still sent a start when the waits succeed |
| Plans.SnapshotRunFollowsBlocks | snapshots/snapshots.py:113-130 | the events of the k-th instance's block are its stop, its wait for stopped, one guard-or-create per volume in order, its start, its wait for running, all before the next instance |
| Plans.SnapshotFailureEndsRun | snapshots/snapshots.py:113-130 | a refused call inside an instance's block ends the run there: nothing later in that block and nothing for any later instance is issued |
| Plans.SnapshotDescriptionIsFixed | snapshots/snapshots.py:125 | every issued `create_snapshot` carries the description "Created by Snapshots script" |
| Plans.SnapshotGuardDecides | snapshots/snapshots.py:119-125 | for each volume the run reaches: skip iff its listing started with a pending snapshot, otherwise exactly one `create_snapshot` with the fixed description |
| Plans.InstanceBlockPhases | snapshots/snapshots.py:114-130 | an instance's block runs as stop and wait, then the volumes, then start and wait, each phase only when the previous one was not cut short |
| Provider.Ec2.Invoke | snapshots/snapshots.py:62 | one provider call: it is refused exactly when it is in the fault set, it is appended to the trace with its answer, and an accepted call changes the state as the provider does |
| Provider.Ec2.Take | snapshots/snapshots.py:119-125 | performs one step: trace, state and continuation as `Perform` gives them |
| Provider.Ec2.RecordSkip | snapshots/snapshots.py:120-122 | a skipped volume appends one skip event to the trace and changes nothing at the provider |
| Provider.Ec2.TakeBoth | snapshots/snapshots.py:116-117 | two calls without a handler in a row (stop then wait, start then wait) leave the trace and state of `Execute` on those two steps, and report false exactly when one was refused |
| Provider.Ec2.AttemptEach | snapshots/snapshots.py:59-65 | the loop leaves the trace and state of `Execute` on its Attempt steps, and never aborts |
| Provider.Ec2.AwaitEach | snapshots/snapshots.py:84-86 | the wait loop leaves the trace and state of `Execute` on its Require steps; it reports false exactly when a wait was refused |
| Provider.Ec2.Cycle | snapshots/snapshots.py:76-86 | a loop of attempts followed by a loop of waits over the same instances leaves the trace and state of `Execute` on the two plans one after the other |
| Provider.Ec2.StartInstances | snapshots/snapshots.py:38-48 | a selection error changes nothing; otherwise the trace and state are those of one Attempt per selected instance, and the command completes |
| Provider.Ec2.StopInstances | snapshots/snapshots.py:55-65 | as StartInstances, with stop calls |
| Provider.Ec2.RebootSelected | snapshots/snapshots.py:76-98 | the four loops leave the trace and state of `Execute` on the reboot plan |
| Provider.Ec2.RebootInstances | snapshots/snapshots.py:72-102 | a selection error changes nothing; otherwise trace and state follow the reboot plan, and the command is aborted exactly when that run is |
| Provider.Ec2.SnapshotVolumes | snapshots/snapshots.py:119-125 | the volume loop leaves the trace and state of `Execute` on the guard steps of those volumes |
| Provider.Ec2.SnapshotInstance | snapshots/snapshots.py:113-130 | one iteration leaves the trace and state of `Execute` on that instance's block |
| Provider.Ec2.SnapshotSelected | snapshots/snapshots.py:113-130 | the instance loop leaves the trace and state of `Execute` on the snapshot plan and stops at its first fatal event |
| Provider.Ec2.CreateSnapshots | snapshots/snapshots.py:109-134 | a selection error changes nothing; otherwise trace and state follow the snapshot plan, and the command is aborted exactly when that run is |
| Provider.Ec2.ListInstances | snapshots/snapshots.py:141-155 | a selection error is returned as is; otherwise one row per selected instance, in order |
| Provider.Ec2.ListSelectedInstances | snapshots/snapshots.py:145-153 | one row per selected instance, in selection order |
| Provider.Ec2.ListInstanceVolumes | snapshots/snapshots.py:171-177 | one row per volume of the instance, in order |
| Provider.Ec2.ListVolumes | snapshots/snapshots.py:166-179 | a selection error is returned as is; otherwise the volume rows instance by instance |
| Provider.Ec2.ListSelectedVolumes | snapshots/snapshots.py:170-177 | the volume rows of the selected instances, instance by instance |
| Provider.Ec2.ListVolumeSnapshots | snapshots/snapshots.py:198-207 | the rows of a volume's listing up to and including the first completed snapshot, or of the whole listing with `--all` |
| Provider.Ec2.ListInstanceSnapshots | snapshots/snapshots.py:197-207 | the snapshot rows of the instance's volumes, volume by volume |
| Provider.Ec2.ListSnapshots | snapshots/snapshots.py:192-208 | a selection error is returned as is; otherwise the snapshot rows instance by instance, volume by volume |
| Provider.Ec2.ListSelectedSnapshots | snapshots/snapshots.py:196-207 | the snapshot rows of the selected instances, instance by instance |
| Reporter.TagValue | snapshots/snapshots.py:146 | the dictionary built from a tag list has a key iff some tag has it, and its value is that of the last tag with the key |
| Reporter.ProjectLabel | snapshots/snapshots.py:146-153 | an instance with no tags gets `<no_project>`; any other label is the value of one of the instance's `Project` tags |
| Reporter.UntaggedShowsSentinel | snapshots/snapshots.py:146-153 | an instance with no tags or no `Project` tag is shown as `<no_project>` |
| Reporter.ProjectLabelMatchesFilter | snapshots/snapshots.py:146-153 | an instance shown under a project other than the sentinel is one the `--project` filter selects; an instance the filter selects, with a single `Project` tag, is shown under that project |
| Reporter.SizeLabel | snapshots/snapshots.py:176 | the size column is a run of digits followed by "GiB" |
| Reporter.EncryptionLabel | snapshots/snapshots.py:177 | the column is "Encrypted" exactly for an encrypted volume and "Not Encrypted" exactly for one that is not |
| Reporter.SizeLabelRoundTrip | snapshots/snapshots.py:176 | the size column is digits followed by "GiB", and the digits read back as the size |
| Reporter.SizeLabelInjective | snapshots/snapshots.py:176 | different sizes give different size columns |
| Reporter.EncryptionLabelInjective | snapshots/snapshots.py:177 | the encryption column is equal for two volumes iff their encrypted flags are |
| Reporter.InstanceRowOf | snapshots/snapshots.py:147-153 | an instance row: id, type, availability zone, state name, public DNS name and project label, in that order |
| Reporter.VolumeRowOf | snapshots/snapshots.py:172-177 | a volume row: volume id, instance id, state, size label and encryption label, in that order |
| Reporter.SnapshotRowOf | snapshots/snapshots.py:199-205 | a snapshot row: snapshot id, volume id, instance id, state, progress and start time, in that order |
| Reporter.UpToFirstCompleted | snapshots/snapshots.py:198-207 | the printed entries are a prefix of the listing with no completed entry before the last, and end at a completed entry unless they are the whole listing |
| Reporter.Shown | snapshots/snapshots.py:198-207 | what is printed of a listing is a prefix of it that is never empty for a non-empty listing, and the whole listing with `--all` |
| Reporter.FirstCompletedAt | snapshots/snapshots.py:207 | the loop stops right after the first completed entry |
| Reporter.NoCompletedShowsAll | snapshots/snapshots.py:198-207 | a listing without a completed entry is printed in full |
| Reporter.MostRecentAlwaysShown | snapshots/snapshots.py:190-207 | the most recent snapshot is always printed, what is printed is a prefix of the listing, and `--all` prints the whole listing |
| Reporter.CompletedFirstShownAlone | snapshots/snapshots.py:207 | when the most recent snapshot is completed, it is the only one printed without `--all` |
| Reporter.TruncationExample | snapshots/snapshots.py:198-207 | pending, error, completed, completed: the first three are printed without `--all`, all four with it |
| Reporter.EveryVolumeListed | snapshots/snapshots.py:170-177 | every volume of every selected instance has its row |
| Reporter.OnlySelectedVolumesListed | snapshots/snapshots.py:170-177 | every row is that of a volume of a selected instance |
| Reporter.MostRecentOfEachVolume | snapshots/snapshots.py:197-207 | the most recent snapshot of each volume of an instance is printed |
| Reporter.MostRecentOfEachInstance | snapshots/snapshots.py:196-207 | the most recent snapshot of every volume of every selected instance is printed, with or without `--all` |
| Decimal.DecimalString | snapshots/snapshots.py:176 | the size is written as at least one digit, with no leading zero except in "0" |
| Decimal.DecimalRoundTrip | snapshots/snapshots.py:176 | the digits `str(n)` writes read back as n |
| Decimal.DecimalInjective | snapshots/snapshots.py:176 | different sizes are written differently |

## Left out

- Calls into boto3 and botocore are parameters of the model, not code.
  - The provider answers every call from the fault set; which calls EC2
    really refuses is not modelled.
  - The filtering is done on the in-memory list. EC2's own filter semantics
    are not modelled, in particular the `*` and `?` wildcards in tag filter
    values.
- Plans.BatchIsolatesFailures: "always runs to the end" holds for the one
  kind of provider failure the model has, a refused call (`ClientError`).
  The code catches only `ClientError` (lines 46, 63, 80, 92); any other
  exception from `start` or `stop`, such as a connection or credentials
  error, escapes the loop and ends the command. Such failures are not
  modelled: an `Attempt` step tolerates every fault.
- The read calls never fail in the model. In the code, listing the
  instances, a volume list (lines 119, 171, 197) or a snapshot listing
  (lines 18, 198) can raise, uncaught, and end the command, including the
  guard inside `create_snapshots` and all three list commands.
- The selection is computed once per command. In the code each of the four
  loops of `reboot_instances` iterates the provider's collection again, so
  it lists the instances again. The model does not capture that, which is
  harmless here: no call changes an instance's identifier or tags
  (`Execution.Apply`).
- `wait_until_stopped` and `wait_until_running` are single calls that either
  succeed or fail. A success sets the awaited state; a failure
  (`WaiterError`, never caught) ends the command. Polling, timeouts and the
  intermediate states are not modelled.
- `start` and `stop` on an accepted call set the state to `pending` and
  `stopping`. The provider's own state machine, including refusals caused by
  the current state, is folded into the fault set.
- The click option parsing, help text, the `--profile` option and the
  session set-up at lines 5-6 and 24-27 are not modelled.
- Printed text is not modelled: progress messages, "Could not …" lines,
  "Skipping …" lines and the exact `", "`-joined output. Each list row is
  kept as its fields.
- `s.start_time.strftime("%c")` is locale-dependent formatting; the start
  time is kept as an integer.
- The race between the pending-snapshot guard and `create_snapshot` against
  other actors is concurrency with the provider, and is not modelled. The
  provider changes only through the commands' own calls.
- Plans.SnapshotGuardDecides: proved only for selections in which no volume
  is attached to two selected instances or listed twice for one. This is an
  assumption of the lemma, not a property of EC2: a Multi-Attach volume is
  attached to several instances at once. `Execute` itself covers that case
  as the code does: the second visit to such a volume sees the pending
  snapshot made on the first visit, and skips it.
- Snapshots taken of one volume are put in front of its listing, so "first =
  most recent" holds in the model. EC2 does not guarantee that order.
- Tags are a list of key/value pairs, as boto3 returns them. A repeated
  `Project` key is shown with its last value, while the filter matches any
  of them.
- The `--all` help text (snapshots/snapshots.py:191) says "not just the
  most recent", but without `--all` the loop prints every entry of a
  volume's listing up to and including the first completed one. The model
  follows the loop.
- `start` and `stop` end as `Completed` even when calls were refused: the
  code reports each refusal and returns normally, with no failing exit
  status.
- `setup.py` is packaging metadata and is not part of this model.
