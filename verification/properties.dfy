/**
 * Properties of the `helmrelease` command that relate several of its
 * operations: what an Application description lets one read back, what
 * the names are when the store is consistent, and which effects each
 * kind of run has.
 */
module HelmReleaseProperties {
  import opened Wrappers
  import opened Flux
  import opened Argo
  import opened Cluster
  import opened HelmReleaseCmd

  /** The fields of a release and its repository that an Application description carries. */
  datatype Summary = Summary(
    releaseName: string,
    targetNamespace: string,
    chart: string,
    version: string,
    repoURL: string,
    createNamespace: bool)

  function SummaryOf(release: HelmRelease, repository: HelmRepository): (summary: Summary)
  {
    Summary(
      release.meta.name,
      release.spec.targetNamespace,
      release.spec.chart.chart,
      release.spec.chart.version,
      repository.url,
      release.spec.install.Some? && release.spec.install.value.createNamespace)
  }

  /** Reads back a formatted boolean. */
  function ParseFlag(s: string): (b: Option<bool>)
    ensures b.Some? <==> s == "true" || s == "false"
    ensures b == Some(true) <==> s == "true"
  {
    if s == "true" then Some(true) else if s == "false" then Some(false) else None
  }

  /**
   * Reads a release summary back from an Application description: the
   * release name is the Application name with the effective target
   * namespace removed from its end.
   */
  function Recover(opts: Options, app: HelmApplication): (r: Option<Summary>)
    ensures r.Some? ==> r.value.releaseName + AppNameSuffix(opts, app.destinationNamespace) == app.name
    ensures r.Some? ==> r.value.targetNamespace == app.destinationNamespace
  {
    var suffix := AppNameSuffix(opts, app.destinationNamespace);
    var cut := |app.name| - |suffix|;
    if cut < 0 || app.name[cut..] != suffix then None
    else
      match ParseFlag(app.helmCreateNamespace)
      case None => None
      case Some(createNamespace) =>
        Some(Summary(app.name[..cut], app.destinationNamespace, app.helmChart,
                     app.helmTargetRevision, app.helmRepo, createNamespace))
  }

  /**
   * Translation loses none of the fields the Application carries: the
   * release name, target namespace, chart, version, repository URL and
   * create-namespace switch are all read back unchanged.
   */
  lemma TranslateRoundTrip(opts: Options, release: HelmRelease, repository: HelmRepository, marshal: Values -> Option<string>)
    ensures Recover(opts, Translate(opts, release, repository, marshal)) == Some(SummaryOf(release, repository))
  {
    var app := Translate(opts, release, repository, marshal);
    var suffix := AppNameSuffix(opts, release.spec.targetNamespace);
    assert app.name == release.meta.name + suffix;
    assert app.name[|release.meta.name|..] == suffix;
    assert app.name[..|release.meta.name|] == release.meta.name;
  }

  /**
   * The naming convention is not injective: two releases that differ in
   * name and target namespace can yield the same Application name.
   */
  lemma AppNamesMayCollide(opts: Options, marshal: Values -> Option<string>)
    ensures
      var source := SourceReference("HelmRepository", "charts", "");
      var first := HelmRelease(ObjectMeta("ab", "flux-system"), HelmReleaseSpec(HelmChartTemplateSpec("web", "1.0.0", source), "c", None, None));
      var second := HelmRelease(ObjectMeta("a", "flux-system"), HelmReleaseSpec(HelmChartTemplateSpec("web", "1.0.0", source), "bc", None, None));
      var repository := HelmRepository(ObjectMeta("charts", "flux-system"), "https://example.org/charts");
      && first != second
      && Translate(opts, first, repository, marshal).name == Translate(opts, second, repository, marshal).name
  {
  }

  /**
   * In a consistent store, where every object carries the key it is stored
   * under, the names follow the command's options: the Application is the
   * release name followed by the target namespace (or the --namespace
   * option), and the repository and chart are read from the source
   * reference's namespace, falling back to the --namespace option.
   */
  lemma NamingInConsistentStore(opts: Options, store: Store, marshal: Values -> Option<string>)
    requires Consistent(store)
    requires Fetch(opts, store).Success?
    ensures
      var fetched := Fetch(opts, store).value;
      var spec := fetched.release.spec;
      var repoNamespace := if spec.chart.sourceRef.namespace != "" then spec.chart.sourceRef.namespace else opts.namespace;
      && Translate(opts, fetched.release, fetched.repository, marshal).name
           == opts.name + (if spec.targetNamespace != "" then spec.targetNamespace else opts.namespace)
      && KeyOf(fetched.repository.meta) == NamespacedName(repoNamespace, spec.chart.sourceRef.name)
      && KeyOf(fetched.chart.meta) == NamespacedName(repoNamespace, opts.namespace + "-" + opts.name)
  {
    var release := Fetch(opts, store).value.release;
    assert KeyOf(store.releases[ReleaseKey(opts)].meta) == ReleaseKey(opts);
    assert release.meta == ObjectMeta(opts.name, opts.namespace);
    var repoKey := NamespacedName(GetHelmRepoNamespace(release), release.spec.chart.sourceRef.name);
    assert KeyOf(store.repositories[repoKey].meta) == repoKey;
    var chartKey := NamespacedName(GetHelmRepoNamespace(release), HelmChartName(opts));
    assert KeyOf(store.charts[chartKey].meta) == chartKey;
  }

  /** A failed read ends the run before any write or print. */
  lemma FetchFailureAborts<M>(opts: Options, store: Store, marshal: Values -> Option<string>,
                              generate: HelmApplication -> Result<M, string>, respond: Responder<M>)
    requires Fetch(opts, store).Failure?
    ensures Run(opts, store, marshal, generate, respond) == Abort(FetchFailed(Fetch(opts, store).error))
    ensures Writes(Run(opts, store, marshal, generate, respond)) == []
  {
  }

  /** A failed Application generation ends the run before any write or print. */
  lemma GenerateFailureAborts<M>(opts: Options, store: Store, marshal: Values -> Option<string>,
                                 generate: HelmApplication -> Result<M, string>, respond: Responder<M>)
    requires Fetch(opts, store).Success?
    requires generate(Translate(opts, Fetch(opts, store).value.release, Fetch(opts, store).value.repository, marshal)).Failure?
    ensures Run(opts, store, marshal, generate, respond) ==
      Abort(GenerateFailed(generate(Translate(opts, Fetch(opts, store).value.release, Fetch(opts, store).value.repository, marshal)).error))
    ensures Writes(Run(opts, store, marshal, generate, respond)) == []
  {
  }

  /** In preview mode a run that does not abort prints the generated Application and writes nothing. */
  lemma PreviewOnlyPrints<M>(opts: Options, store: Store, marshal: Values -> Option<string>,
                             generate: HelmApplication -> Result<M, string>, respond: Responder<M>)
    requires !opts.confirmMigrate
    requires Fetch(opts, store).Success?
    requires generate(Translate(opts, Fetch(opts, store).value.release, Fetch(opts, store).value.repository, marshal)).Success?
    ensures Run(opts, store, marshal, generate, respond)
      == Print(generate(Translate(opts, Fetch(opts, store).value.release, Fetch(opts, store).value.repository, marshal)).value)
    ensures Writes(Run(opts, store, marshal, generate, respond)) == []
  {
  }

  /**
   * In confirm mode a run that does not abort attempts exactly seven
   * writes: suspend release, repository and chart, create the generated
   * Application, delete release, repository and chart. Each write is
   * attempted whatever the cluster answered to the ones before.
   */
  lemma ConfirmWritesInOrder<M>(opts: Options, store: Store, marshal: Values -> Option<string>,
                                 generate: HelmApplication -> Result<M, string>, respond: Responder<M>)
    requires opts.confirmMigrate
    requires Fetch(opts, store).Success?
    requires generate(Translate(opts, Fetch(opts, store).value.release, Fetch(opts, store).value.repository, marshal)).Success?
    ensures
      var f := Fetch(opts, store).value;
      var manifest := generate(Translate(opts, f.release, f.repository, marshal)).value;
      Writes(Run(opts, store, marshal, generate, respond)) ==
        [ Step(Suspend, ReleaseObject(f.release)),
          Step(Suspend, RepositoryObject(f.repository)),
          Step(Suspend, ChartObject(f.chart)),
          Step(Create, ApplicationObject(manifest)),
          Step(Delete, ReleaseObject(f.release)),
          Step(Delete, RepositoryObject(f.repository)),
          Step(Delete, ChartObject(f.chart)) ]
  {
    var f := Fetch(opts, store).value;
    var manifest := generate(Translate(opts, f.release, f.repository, marshal)).value;
    ExecuteAttemptsEveryStep(MigrationPlan(f, manifest), respond);
  }

  /** The writes a run attempts do not depend on how the cluster answers them. */
  lemma WritesIgnoreAnswers<M>(opts: Options, store: Store, marshal: Values -> Option<string>,
                                generate: HelmApplication -> Result<M, string>,
                                respond: Responder<M>, respond': Responder<M>)
    ensures Writes(Run(opts, store, marshal, generate, respond)) == Writes(Run(opts, store, marshal, generate, respond'))
  {
    match Fetch(opts, store)
    case Failure(_) =>
    case Success(f) =>
      match generate(Translate(opts, f.release, f.repository, marshal))
      case Failure(_) =>
      case Success(manifest) =>
        if opts.confirmMigrate {
          ExecuteAttemptsEveryStep(MigrationPlan(f, manifest), respond);
          ExecuteAttemptsEveryStep(MigrationPlan(f, manifest), respond');
        }
  }

  /** A run writes to the cluster exactly when it is confirmed and does not abort. */
  lemma WritesOnlyWhenConfirmed<M>(opts: Options, store: Store, marshal: Values -> Option<string>,
                                   generate: HelmApplication -> Result<M, string>, respond: Responder<M>)
    ensures Writes(Run(opts, store, marshal, generate, respond)) != [] <==>
      opts.confirmMigrate && !Run(opts, store, marshal, generate, respond).Abort?
  {
    var out := Run(opts, store, marshal, generate, respond);
    if out.Migrated? {
      assert |Steps(out.trace)| == 7;
    }
  }

  /**
   * Worked example: release app1 in flux-system, chart nginx 1.2.3 from
   * repository bitnami, no target namespace.
   */
  lemma Example(marshal: Values -> Option<string>)
    ensures
      var opts := Options("app1", "flux-system", "argocd", "default", false);
      var release := HelmRelease(ObjectMeta("app1", "flux-system"),
        HelmReleaseSpec(HelmChartTemplateSpec("nginx", "1.2.3", SourceReference("HelmRepository", "bitnami", "")), "", None, None));
      var repository := HelmRepository(ObjectMeta("bitnami", "flux-system"), "https://charts.bitnami.com/bitnami");
      Translate(opts, release, repository, marshal) == HelmApplication(
        "app1flux-system", "argocd", "", "https://kubernetes.default.svc", "default",
        "nginx", "https://charts.bitnami.com/bitnami", "1.2.3", "", "false")
  {
  }
}
