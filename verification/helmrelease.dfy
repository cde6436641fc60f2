/**
 * The `helmrelease` command: fetch a HelmRelease with its HelmRepository
 * and HelmChart, translate them into an Argo CD Application, then either
 * print the Application (preview) or suspend the Flux objects, create the
 * Application and delete the Flux objects (confirm).
 */
module HelmReleaseCmd {
  import opened Wrappers
  import opened Flux
  import opened Argo
  import opened Cluster

  /** The command-line options the command reads. */
  datatype Options = Options(
    name: string,
    namespace: string,
    argoCDNamespace: string,
    argoProject: string,
    confirmMigrate: bool)

  /** The three objects a successful fetch yields. */
  datatype Fetched = Fetched(release: HelmRelease, repository: HelmRepository, chart: HelmChart)

  /** Which read failed, and under which key. */
  datatype FetchError =
    | ReleaseNotFound(key: NamespacedName)
    | RepositoryNotFound(key: NamespacedName)
    | ChartNotFound(key: NamespacedName)

  /** Why a run stopped before any write or print. */
  datatype AbortReason = FetchFailed(fetchError: FetchError) | GenerateFailed(message: string)

  /**
   * How a run ends: stopped before any effect, the generated Application
   * printed, or the migration's writes attempted with their answers.
   */
  datatype Outcome<M> = Abort(reason: AbortReason) | Print(manifest: M) | Migrated(trace: seq<Attempt<M>>)

  /** Key the HelmRelease is read under: the --namespace and --name options. */
  function ReleaseKey(opts: Options): (key: NamespacedName)
  {
    NamespacedName(opts.namespace, opts.name)
  }

  /** Name of the HelmChart Flux generates for a release: "<namespace>-<name>". */
  function HelmChartName(opts: Options): (chartName: string)
    ensures |chartName| == |opts.namespace| + 1 + |opts.name|
    ensures chartName[..|opts.namespace|] == opts.namespace
    ensures chartName[|opts.namespace|] == '-'
    ensures chartName[|opts.namespace| + 1..] == opts.name
  {
    opts.namespace + "-" + opts.name
  }

  /**
   * The three reads, in order, each depending on the one before. The
   * repository is looked up in the resolved repository namespace under the
   * source reference's name; the chart in that same namespace under the
   * synthesised chart name. The first read that fails ends the fetch.
   */
  function Fetch(opts: Options, store: Store): (r: Result<Fetched, FetchError>)
    ensures r.Success? <==>
      && ReleaseKey(opts) in store.releases
      && var release := store.releases[ReleaseKey(opts)];
         && NamespacedName(GetHelmRepoNamespace(release), release.spec.chart.sourceRef.name) in store.repositories
         && NamespacedName(GetHelmRepoNamespace(release), HelmChartName(opts)) in store.charts
    ensures r.Success? ==>
      && r.value.release == store.releases[ReleaseKey(opts)]
      && r.value.repository == store.repositories[NamespacedName(GetHelmRepoNamespace(r.value.release), r.value.release.spec.chart.sourceRef.name)]
      && r.value.chart == store.charts[NamespacedName(GetHelmRepoNamespace(r.value.release), HelmChartName(opts))]
    ensures ReleaseKey(opts) !in store.releases ==> r == Failure(ReleaseNotFound(ReleaseKey(opts)))
    ensures ReleaseKey(opts) in store.releases ==>
      var release := store.releases[ReleaseKey(opts)];
      var repoKey := NamespacedName(GetHelmRepoNamespace(release), release.spec.chart.sourceRef.name);
      var chartKey := NamespacedName(GetHelmRepoNamespace(release), HelmChartName(opts));
      && (repoKey !in store.repositories ==> r == Failure(RepositoryNotFound(repoKey)))
      && (repoKey in store.repositories && chartKey !in store.charts ==> r == Failure(ChartNotFound(chartKey)))
  {
    match Get(store.releases, ReleaseKey(opts))
    case None => Failure(ReleaseNotFound(ReleaseKey(opts)))
    case Some(release) =>
      var sourceRefName := release.spec.chart.sourceRef.name;
      var helmRepoNamespace :=
        if release.spec.chart.sourceRef.namespace == "" then release.meta.namespace
        else release.spec.chart.sourceRef.namespace;
      var repoKey := NamespacedName(helmRepoNamespace, sourceRefName);
      match Get(store.repositories, repoKey)
      case None => Failure(RepositoryNotFound(repoKey))
      case Some(repository) =>
        var chartKey := NamespacedName(helmRepoNamespace, HelmChartName(opts));
        match Get(store.charts, chartKey)
        case None => Failure(ChartNotFound(chartKey))
        case Some(chart) => Success(Fetched(release, repository, chart))
  }

  /** `strconv.FormatBool`. */
  function FormatBool(b: bool): (s: string)
    ensures s == "true" <==> b
    ensures s == "true" || s == "false"
  {
    if b then "true" else "false"
  }

  /** The create-namespace switch: "false" unless the release's install policy asks for it. */
  function CreateNamespaceFlag(install: Option<Install>): (s: string)
    ensures s == "true" <==> install.Some? && install.value.createNamespace
    ensures s == "false" <==> !(install.Some? && install.value.createNamespace)
  {
    match install
    case None => "false"
    case Some(policy) => FormatBool(policy.createNamespace)
  }

  /**
   * The encoded values document: empty when the release has no values,
   * and also when encoding fails, since the encoder's error is discarded
   * and leaves the buffer empty.
   */
  function ValuesYaml(values: Option<Values>, marshal: Values -> Option<string>): (s: string)
    ensures values.None? ==> s == ""
    ensures values.Some? && marshal(values.value).None? ==> s == ""
    ensures values.Some? && marshal(values.value).Some? ==> s == marshal(values.value).value
  {
    match values
    case None => ""
    case Some(v) =>
      match marshal(v)
      case None => ""
      case Some(encoded) => encoded
  }

  /** The namespace appended to the release name: the target namespace, or the --namespace option when none is set. */
  function AppNameSuffix(opts: Options, targetNamespace: string): (suffix: string)
    ensures targetNamespace != "" ==> suffix == targetNamespace
    ensures targetNamespace == "" ==> suffix == opts.namespace
  {
    if targetNamespace == "" then opts.namespace else targetNamespace
  }

  /** The Application description built from the fetched release and repository. */
  function Translate(opts: Options, release: HelmRelease, repository: HelmRepository, marshal: Values -> Option<string>): (app: HelmApplication)
    ensures app.destinationServer == InClusterServer
    ensures app.namespace == opts.argoCDNamespace && app.project == opts.argoProject
    ensures app.destinationNamespace == release.spec.targetNamespace
    ensures app.helmCreateNamespace == "true" || app.helmCreateNamespace == "false"
    ensures |app.name| == |release.meta.name| + |AppNameSuffix(opts, release.spec.targetNamespace)|
    ensures release.spec.values.None? ==> app.helmValues == ""
    ensures release.spec.values.Some? && marshal(release.spec.values.value).None? ==> app.helmValues == ""
    ensures release.spec.values.Some? && marshal(release.spec.values.value).Some? ==>
      app.helmValues == marshal(release.spec.values.value).value
  {
    HelmApplication(
      name := release.meta.name + AppNameSuffix(opts, release.spec.targetNamespace),
      namespace := opts.argoCDNamespace,
      destinationNamespace := release.spec.targetNamespace,
      destinationServer := InClusterServer,
      project := opts.argoProject,
      helmChart := release.spec.chart.chart,
      helmRepo := repository.url,
      helmTargetRevision := release.spec.chart.version,
      helmValues := ValuesYaml(release.spec.values, marshal),
      helmCreateNamespace := CreateNamespaceFlag(release.spec.install))
  }

  /** The fetched Flux objects, in the order the migration handles them: release, repository, chart. */
  function FluxObjects<M>(fetched: Fetched): (objects: seq<Target<M>>)
  {
    [ReleaseObject(fetched.release), RepositoryObject(fetched.repository), ChartObject(fetched.chart)]
  }

  /**
   * Confirm mode's writes, in order: suspend each Flux object, create the
   * Application, delete each Flux object in the same order as suspended.
   */
  function MigrationPlan<M>(fetched: Fetched, manifest: M): (plan: seq<Step<M>>)
    ensures |plan| == 7
    ensures forall i :: 0 <= i < 3 ==> plan[i] == Step(Suspend, FluxObjects(fetched)[i])
    ensures forall i :: 0 <= i < 3 ==> plan[4 + i] == Step(Delete, FluxObjects(fetched)[i])
    ensures plan[3] == Step(Create, ApplicationObject(manifest))
  {
    [ Step(Suspend, ReleaseObject(fetched.release)),
      Step(Suspend, RepositoryObject(fetched.repository)),
      Step(Suspend, ChartObject(fetched.chart)),
      Step(Create, ApplicationObject(manifest)),
      Step(Delete, ReleaseObject(fetched.release)),
      Step(Delete, RepositoryObject(fetched.repository)),
      Step(Delete, ChartObject(fetched.chart)) ]
  }

  /**
   * One run of the command. `marshal` stands for the YAML encoder,
   * `generate` for the Application generator and `respond` for the
   * cluster's answers to writes.
   */
  function Run<M>(opts: Options, store: Store, marshal: Values -> Option<string>,
                  generate: HelmApplication -> Result<M, string>, respond: Responder<M>): (out: Outcome<M>)
    ensures out.Abort? <==>
      || Fetch(opts, store).Failure?
      || generate(Translate(opts, Fetch(opts, store).value.release, Fetch(opts, store).value.repository, marshal)).Failure?
    ensures out.Print? ==> !opts.confirmMigrate
    ensures out.Migrated? ==> opts.confirmMigrate
  {
    match Fetch(opts, store)
    case Failure(e) => Abort(FetchFailed(e))
    case Success(fetched) =>
      var app := Translate(opts, fetched.release, fetched.repository, marshal);
      match generate(app)
      case Failure(message) => Abort(GenerateFailed(message))
      case Success(manifest) =>
        if opts.confirmMigrate then Migrated(Execute(MigrationPlan(fetched, manifest), respond, []))
        else Print(manifest)
  }

  /** The cluster writes a run attempted. */
  function Writes<M>(out: Outcome<M>): (writes: seq<Step<M>>)
  {
    if out.Migrated? then Steps(out.trace) else []
  }
}
