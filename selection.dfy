/** filter_instances: which instances a command works on. An explicit
    instance id wins outright; otherwise a project name filters on the
    Project tag; otherwise every instance is taken. */
module Selection {
  import opened Resources

  const PROJECT_KEY := "Project"

  datatype SelectionError = InstanceNotFound(instanceId: string)

  /** Python truthiness of an optional command-line value: an absent value and
      the empty string both select nothing. */
  predicate Given(o: Option<string>)
  {
    o.Some? && o.value != ""
  }

  /** The provider's filter 'tag:Project' with the single value project. */
  predicate TaggedWith(i: Instance, project: string)
  {
    i.tags.Some? && Tag(PROJECT_KEY, project) in i.tags.value
  }

  /** The instances of xs that pass keep, in their listing order. */
  function Filter(xs: seq<Instance>, keep: Instance -> bool): (r: seq<Instance>)
    ensures |r| <= |xs|
    ensures forall x :: x in r <==> x in xs && keep(x)
    ensures (forall k :: 0 <= k < |xs| ==> keep(xs[k])) ==> r == xs
  {
    if xs == [] then []
    else
      assert xs == [xs[0]] + xs[1..];
      (if keep(xs[0]) then [xs[0]] else []) + Filter(xs[1..], keep)
  }

  /** The instances a command works on, chosen by filter_instances from the
      id and project options. Asking the provider for an instance id it does
      not know fails with InvalidInstanceID.NotFound (InvalidInstanceID.Malformed
      for an ill-formed id), which surfaces here as InstanceNotFound. */
  function Select(xs: seq<Instance>, instance: Option<string>, project: Option<string>)
    : (r: Result<seq<Instance>, SelectionError>)
    ensures Given(instance) ==>
      (r.Failure? <==> forall x :: x in xs ==> x.id != instance.value)
    ensures Given(instance) && r.Failure? ==> r.error == InstanceNotFound(instance.value)
    ensures Given(instance) && r.Success? ==>
      forall x :: x in r.value <==> x in xs && x.id == instance.value
    ensures !Given(instance) && Given(project) ==>
      r.Success? && forall x :: x in r.value <==> x in xs && TaggedWith(x, project.value)
    ensures !Given(instance) && !Given(project) ==> r == Success(xs)
  {
    if Given(instance) then
      var id := instance.value;
      var found := Filter(xs, (i: Instance) => i.id == id);
      if found == [] then Failure(InstanceNotFound(id))
      else assert found[0] in found; Success(found)
    else if Given(project) then
      var p := project.value;
      Success(Filter(xs, (i: Instance) => TaggedWith(i, p)))
    else
      Success(xs)
  }

  /** With an explicit id, the project option has no effect at all. */
  lemma ExplicitIdIgnoresProject(xs: seq<Instance>, id: string, p: Option<string>, q: Option<string>)
    requires id != ""
    ensures Select(xs, Some(id), p) == Select(xs, Some(id), q)
  {
  }

  /** An empty project value behaves as no project: every instance. */
  lemma EmptyProjectSelectsAll(xs: seq<Instance>, instance: Option<string>)
    requires !Given(instance)
    ensures Select(xs, instance, Some("")) == Success(xs)
  {
  }
}
