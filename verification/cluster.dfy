/**
 * The cluster as the migration sees it: an object store it reads by key,
 * and writes (suspend, create, delete) whose outcome the cluster decides.
 */
module Cluster {
  import opened Wrappers
  import opened Flux

  /** The Flux objects stored in the cluster, by namespace and name. */
  datatype Store = Store(
    releases: map<NamespacedName, HelmRelease>,
    repositories: map<NamespacedName, HelmRepository>,
    charts: map<NamespacedName, HelmChart>)

  /** A single typed get: the stored object, or nothing when the read fails. */
  function Get<T>(objects: map<NamespacedName, T>, key: NamespacedName): (r: Option<T>)
    ensures r.Some? <==> key in objects
    ensures r.Some? ==> r.value == objects[key]
  {
    if key in objects then Some(objects[key]) else None
  }

  /** The key an object's own metadata gives it. */
  function KeyOf(meta: ObjectMeta): (key: NamespacedName)
  {
    NamespacedName(meta.namespace, meta.name)
  }

  /** Every stored object carries the name and namespace it is stored under, as the API server guarantees. */
  ghost predicate Consistent(store: Store)
  {
    && (forall k :: k in store.releases ==> KeyOf(store.releases[k].meta) == k)
    && (forall k :: k in store.repositories ==> KeyOf(store.repositories[k].meta) == k)
    && (forall k :: k in store.charts ==> KeyOf(store.charts[k].meta) == k)
  }

  /** The three kinds of cluster write the migration issues. */
  datatype Action = Suspend | Create | Delete

  /** The object a write is about; `M` is the generated Application. */
  datatype Target<M> =
    | ReleaseObject(release: HelmRelease)
    | RepositoryObject(repository: HelmRepository)
    | ChartObject(chart: HelmChart)
    | ApplicationObject(application: M)

  datatype Step<M> = Step(action: Action, target: Target<M>)

  /** What the cluster answered to one write. */
  datatype StepResult = Done | Failed(reason: string)

  /** One write as it happened: the step and the cluster's answer. */
  datatype Attempt<M> = Attempt(step: Step<M>, result: StepResult)

  /**
   * The cluster's answer to a write, which may depend on every write
   * attempted before it; nothing is assumed about it.
   */
  type Responder<!M> = (seq<Attempt<M>>, Step<M>) -> StepResult

  /**
   * Attempts every step of `plan`, in order, after the attempts already
   * in `done`. A failed write is recorded and the next step is attempted
   * all the same: no step is skipped and nothing is rolled back.
   */
  function Execute<M>(plan: seq<Step<M>>, respond: Responder<M>, done: seq<Attempt<M>>): (trace: seq<Attempt<M>>)
    ensures |trace| == |done| + |plan|
    ensures trace[..|done|] == done
    ensures forall i :: 0 <= i < |plan| ==>
      trace[|done| + i] == Attempt(plan[i], respond(trace[..|done| + i], plan[i]))
    decreases |plan|
  {
    if plan == [] then done
    else Execute(plan[1..], respond, done + [Attempt(plan[0], respond(done, plan[0]))])
  }

  /** The steps a trace attempted, in order. */
  function Steps<M>(trace: seq<Attempt<M>>): (steps: seq<Step<M>>)
    ensures |steps| == |trace|
    ensures forall i :: 0 <= i < |trace| ==> steps[i] == trace[i].step
  {
    if trace == [] then [] else [trace[0].step] + Steps(trace[1..])
  }

  /** Executing a plan attempts exactly the plan's steps, whatever the cluster answers. */
  lemma ExecuteAttemptsEveryStep<M>(plan: seq<Step<M>>, respond: Responder<M>)
    ensures Steps(Execute(plan, respond, [])) == plan
  {
  }

  /**
   * A trace that attempts each step of `plan` in order, recording the
   * cluster's answer given the attempts before it, is the trace `Execute`
   * defines: the two descriptions of a run of writes agree.
   */
  lemma {:induction false} ExecutePlanIsExecute<M>(plan: seq<Step<M>>, respond: Responder<M>, trace: seq<Attempt<M>>)
    requires |trace| == |plan|
    requires forall i :: 0 <= i < |plan| ==> trace[i].step == plan[i]
    requires forall i :: 0 <= i < |plan| ==> trace[i].result == respond(trace[..i], plan[i])
    ensures trace == Execute(plan, respond, [])
  {
    PrefixesAgree(plan, respond, trace, |plan|);
    assert trace == trace[..|plan|];
    assert Execute(plan, respond, []) == Execute(plan, respond, [])[..|plan|];
  }

  /** The first `k` attempts of such a trace are the first `k` attempts `Execute` defines. */
  lemma {:induction false} PrefixesAgree<M>(plan: seq<Step<M>>, respond: Responder<M>, trace: seq<Attempt<M>>, k: nat)
    requires |trace| == |plan|
    requires forall i :: 0 <= i < |plan| ==> trace[i].step == plan[i]
    requires forall i :: 0 <= i < |plan| ==> trace[i].result == respond(trace[..i], plan[i])
    requires k <= |plan|
    ensures trace[..k] == Execute(plan, respond, [])[..k]
  {
    var e := Execute(plan, respond, []);
    if k > 0 {
      PrefixesAgree(plan, respond, trace, k - 1);
      assert e[0 + (k - 1)] == Attempt(plan[k - 1], respond(e[..0 + (k - 1)], plan[k - 1]));
      assert trace[..k] == trace[..k - 1] + [trace[k - 1]];
      assert e[..k] == e[..k - 1] + [e[k - 1]];
    }
  }

  /**
   * Loop form of `Execute`, issuing one write per iteration; its trace is
   * the one `Execute` defines (the loop invariant), answers recorded and
   * otherwise ignored.
   */
  method ExecutePlan<M>(plan: seq<Step<M>>, respond: Responder<M>) returns (trace: seq<Attempt<M>>)
    ensures |trace| == |plan|
    ensures forall i :: 0 <= i < |plan| ==> trace[i].step == plan[i]
    ensures forall i :: 0 <= i < |plan| ==> trace[i].result == respond(trace[..i], plan[i])
  {
    trace := [];
    var i := 0;
    while i < |plan|
      invariant 0 <= i <= |plan|
      invariant |trace| == i
      invariant Execute(plan[i..], respond, trace) == Execute(plan, respond, [])
    {
      assert plan[i..][1..] == plan[i + 1..];
      trace := trace + [Attempt(plan[i], respond(trace, plan[i]))];
      i := i + 1;
    }
  }
}
