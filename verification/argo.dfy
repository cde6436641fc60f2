/** The flat description of an Argo CD Application that the migration fills in. */
module Argo {

  /** Address of the API server of the cluster Argo CD itself runs in. */
  const InClusterServer: string := "https://kubernetes.default.svc"

  /**
   * Input of the Application generator: every field is a string, the
   * values document already encoded and the create-namespace switch
   * already formatted as "true" or "false".
   */
  datatype HelmApplication = HelmApplication(
    name: string,
    namespace: string,
    destinationNamespace: string,
    destinationServer: string,
    project: string,
    helmChart: string,
    helmRepo: string,
    helmTargetRevision: string,
    helmValues: string,
    helmCreateNamespace: string)
}
