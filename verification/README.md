# Flux HelmRelease to Argo CD Application migration — a Dafny model

This project models the `helmrelease` command of the `mta` migration tool.
The command reads a Flux HelmRelease, the HelmRepository the release names
as its chart source and the HelmChart Flux generated for it. It translates
them into an Argo CD Application. Then it does one of two things:

- preview (the default): it prints the Application;
- confirm (`--confirm-migrate`): it suspends the three Flux objects,
  creates the Application and deletes the three Flux objects.

Modules:

- `Wrappers` (`wrappers.dfy`): `Option` and `Result`.
- `Flux` (`flux.dfy`): the HelmRelease, HelmRepository and HelmChart
  fields the command reads, and `GetHelmRepoNamespace`.
- `Argo` (`argo.dfy`): the flat Application description handed to the
  Application generator, and the in-cluster API server address.
- `Cluster` (`cluster.dfy`): the object store the command reads, and
  the writes it issues. `Execute` is the functional definition of
  attempting a sequence of writes. `ExecutePlan` is its loop form.
- `HelmReleaseCmd` (`helmrelease.dfy`): fetching, translation,
  the seven-step migration plan, and one run of the command as an `Outcome`
  (`Abort`, `Print` or `Migrated`).
- `HelmReleaseProperties` (`properties.dfy`): lemmas that relate these operations. `Recover`
  reads a release summary back from an Application; `TranslateRoundTrip`
  proves it inverts `Translate`.

The cluster is a `Store` of three maps keyed by namespace and name. A read
whose key is missing is a failed `Get`, and a failed `Get` aborts the run.
The YAML encoder is a parameter (`marshal`), and so is the Application
generator (`generate`), which may fail. The cluster's answer to each write
is a parameter too (`respond`); it may depend on every earlier write.

Three details of the code are easy to misread:

- The repository namespace falls back to the namespace in the fetched
  release's metadata.
- The HelmChart name and the Application-name fallback use the
  `--namespace` and `--name` options.
- The Application name starts with the fetched release's metadata name.

`NamingInConsistentStore` shows that these sources agree whenever every
stored object carries the key it is stored under. The values string is also
empty when the encoder fails, because the code discards the encoder's error.

## Model

| member | source | states |
|---|---|---|
| Cluster.Get | cmd/helmrelease.go:89-120 | A read succeeds exactly when the key is stored, and then returns the stored object. A failed read of any kind (not found or an API error) is a missing key. |
| Flux.GetHelmRepoNamespace | cmd/helmrelease.go:175-182 | The repository namespace is the source reference's namespace when that is set, and the release's own namespace otherwise. It is empty only when both are empty. |
| HelmReleaseCmd.HelmChartName | cmd/helmrelease.go:113-114 | The chart name is the --namespace option, then a dash, then the --name option. |
| HelmReleaseCmd.Fetch | cmd/helmrelease.go:87-120 | The fetch succeeds exactly when all three keys are present. The repository is read under the source reference's name in `GetHelmRepoNamespace`'s namespace, so the inline computation agrees with that helper. The chart is read under the synthesised name in that same namespace, not in the release namespace. The first missing object ends the fetch with its own error: a missing release, then a missing repository, then a missing chart. |
| HelmReleaseCmd.FormatBool | cmd/helmrelease.go:131 | The result is "true" exactly when the flag is true, and otherwise "false". |
| HelmReleaseCmd.CreateNamespaceFlag | cmd/helmrelease.go:129-132 | The result is "true" exactly when an install policy is present and asks for namespace creation. It is "false" in every other case, including an absent install policy. |
| HelmReleaseCmd.ValuesYaml | cmd/helmrelease.go:122-127 | The result is empty when the release has no values, and also when encoding fails. Otherwise it is the encoder's output. |
| HelmReleaseCmd.AppNameSuffix | cmd/helmrelease.go:134-137 | The suffix is the target namespace when that is set, and the --namespace option otherwise. |
| HelmReleaseCmd.Translate | cmd/helmrelease.go:94-152 | The destination server is the in-cluster address. The namespace and project are the Argo CD namespace and project options. The destination namespace is the target namespace verbatim, even when empty. The name is as long as the release name plus its suffix. Values are empty when the release has none or when encoding fails, and are the encoder's output otherwise. The create-namespace switch is "true" or "false". |
| HelmReleaseCmd.MigrationPlan | cmd/helmrelease.go:159-167 | There are seven writes. Release, repository and chart are suspended in that order. Then the Application is created. Then the same three objects are deleted in the same order. |
| HelmReleaseCmd.Run | cmd/helmrelease.go:87-171 | A run aborts exactly when a read or Application generation fails. It prints only in preview mode and writes only in confirm mode. |
| Cluster.Execute | cmd/helmrelease.go:159-167 | Every step of the plan is attempted in order, one attempt per step. The answer to each attempt depends on the preceding attempts and is otherwise ignored, so a failure never skips a later step. |
| Cluster.ExecuteAttemptsEveryStep | cmd/helmrelease.go:159-167 | The steps attempted are exactly the plan, whatever the cluster answers. |
| Cluster.ExecutePlanIsExecute | cmd/helmrelease.go:159-167 | Any trace that attempts each planned step in order, with the cluster's answer given the attempts before it, equals the trace `Execute` defines. This is what ties `ExecutePlan`'s contract to `Execute`. |
| Cluster.ExecutePlan | cmd/helmrelease.go:159-167 | The loop that issues one write per step records one attempt per step, in plan order. The answer recorded for each attempt is the cluster's answer given the attempts before it. The loop never stops early on a failed write. It is the loop form of `Execute`: both describe the same trace. |
| HelmReleaseProperties.TranslateRoundTrip | cmd/helmrelease.go:139-150 | Reading the Application back gives the release's own values. This covers the release name (the Application name minus its suffix), the target namespace, the chart, the version, the repository URL and the create-namespace switch. So these fields are copied verbatim. |
| HelmReleaseProperties.AppNamesMayCollide | cmd/helmrelease.go:134-142 | Two different releases, "ab" with target "c" and "a" with target "bc", get the same Application name. |
| HelmReleaseProperties.NamingInConsistentStore | cmd/helmrelease.go:102-142 | When every stored object carries its own key, the Application name is the --name option plus the target namespace (or the --namespace option). The repository and chart come from the source reference's namespace, or the --namespace option when that is unset. The chart is named "<namespace>-<name>". |
| HelmReleaseProperties.FetchFailureAborts | cmd/helmrelease.go:87-120 | A failed read makes the run abort with that read's error, and nothing is written. |
| HelmReleaseProperties.GenerateFailureAborts | cmd/helmrelease.go:154-157 | A failed Application generation makes the run abort with the generator's error, and nothing is written. |
| HelmReleaseProperties.PreviewOnlyPrints | cmd/helmrelease.go:168-171 | In preview mode a run that does not abort prints the generated Application and writes nothing. |
| HelmReleaseProperties.ConfirmWritesInOrder | cmd/helmrelease.go:159-167 | In confirm mode a run that does not abort writes exactly: suspend(release), suspend(repository), suspend(chart), create(Application), delete(release), delete(repository), delete(chart). |
| HelmReleaseProperties.WritesIgnoreAnswers | cmd/helmrelease.go:159-167 | Two runs that differ only in the cluster's answers to writes attempt the same writes. |
| HelmReleaseProperties.WritesOnlyWhenConfirmed | cmd/helmrelease.go:159-171 | A run writes to the cluster exactly when it is confirmed and does not abort. |
| HelmReleaseProperties.Example | cmd/helmrelease.go:141-152 | Release app1 in flux-system (chart nginx 1.2.3, repository https://charts.bitnami.com/bitnami, no target namespace) becomes Application app1flux-system. Its chart, repository and revision are copied, its values are empty and its create-namespace switch is "false". |

## Left out

- Flag parsing, config-file and environment loading (cmd/root.go), and the errors from reading the flags: the options are given as a value.
- Scheme registration, REST-config and client construction: the model starts from a given store.
- cmd/version.go: it prints a constant JSON object and holds no logic.
- The YAML encoding of values and the Application generator: these are opaque parameters (`marshal`, `generate`).
- The YAML printer: the `Print` outcome stands for printing the generated Application; a print error, discarded at cmd/helmrelease.go:170, is not modelled, so a failed or partial print is not represented. The content of the values document is never inspected, so re-parsing the encoded values is not modelled.
- The bodies of the suspend, create and delete helpers: each write is an event whose answer the `respond` parameter chooses.
- Logging and process termination: a fatal log is the `Abort` outcome, and the informational log line in confirm mode has no counterpart.
