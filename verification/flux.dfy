/**
 * The Flux custom resources the migration reads: a HelmRelease, the
 * HelmRepository it names as its source, and the HelmChart that Flux
 * generated for it. Only the fields the migration looks at are kept.
 */
module Flux {
  import opened Wrappers

  /** Key of a namespaced object in the cluster's object store. */
  datatype NamespacedName = NamespacedName(namespace: string, name: string)

  /** `metadata` of a stored object. */
  datatype ObjectMeta = ObjectMeta(name: string, namespace: string)

  /** `spec.chart.spec.sourceRef`; an empty namespace means "the release's own namespace". */
  datatype SourceReference = SourceReference(kind: string, name: string, namespace: string)

  /** `spec.chart.spec` of a HelmRelease. */
  datatype HelmChartTemplateSpec = HelmChartTemplateSpec(chart: string, version: string, sourceRef: SourceReference)

  /** `spec.install` of a HelmRelease (only the field the migration reads). */
  datatype Install = Install(createNamespace: bool)

  /** The release's `spec.values` document, kept opaque: its content is never inspected. */
  datatype Values = Values(raw: string)

  /** `spec` of a HelmRelease; `install` and `values` are pointers in the Go types, hence optional. */
  datatype HelmReleaseSpec = HelmReleaseSpec(
    chart: HelmChartTemplateSpec,
    targetNamespace: string,
    install: Option<Install>,
    values: Option<Values>)

  datatype HelmRelease = HelmRelease(meta: ObjectMeta, spec: HelmReleaseSpec)

  /** A HelmRepository; only `spec.url` is read. */
  datatype HelmRepository = HelmRepository(meta: ObjectMeta, url: string)

  /** A HelmChart; it is only suspended and deleted, never read. */
  datatype HelmChart = HelmChart(meta: ObjectMeta)

  /**
   * Namespace of the HelmRepository a release draws its chart from:
   * the source reference's namespace when it is set, otherwise the
   * namespace the release itself lives in.
   */
  function GetHelmRepoNamespace(release: HelmRelease): (ns: string)
    ensures release.spec.chart.sourceRef.namespace != "" ==> ns == release.spec.chart.sourceRef.namespace
    ensures release.spec.chart.sourceRef.namespace == "" ==> ns == release.meta.namespace
    ensures ns == "" <==> release.spec.chart.sourceRef.namespace == "" && release.meta.namespace == ""
  {
    var helmRepoNamespace := release.spec.chart.sourceRef.namespace;
    if helmRepoNamespace == "" then release.meta.namespace else helmRepoNamespace
  }
}
