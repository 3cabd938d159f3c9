/** The values that pass between the watcher, the service cache, the health checker and the API. */
module Domain {
  import opened Wrappers

  type Uid = string

  datatype HealthCheck = HealthCheck(enabled: bool, path: string, intervalSeconds: int, timeoutSeconds: int, port: int,
                                     url: string)

  datatype LandingPage = LandingPage(enabled: bool, displayName: string, visibility: string,
                                     requiredGroups: seq<string>,
                                     healthCheck: Option<HealthCheck>)

  datatype App = App(
    uid: Uid,
    name: string,
    namespace: string,
    serviceName: string,
    serviceNamespace: string,
    servicePort: int,
    crossNamespaceAllowed: bool,
    isStatic: bool,
    landingPage: Option<LandingPage>)

  datatype HealthCheckConfig = HealthCheckConfig(probeURL: string, intervalSeconds: int, timeoutSeconds: int,
                                                 trusted: bool)

  datatype HealthStatus = HealthStatus(status: string, lastCheck: Option<int>, message: string)

  const UNKNOWN := HealthStatus("unknown", None, "")

  datatype ServiceInfo = ServiceInfo(
    uid: Uid,
    name: string,
    namespace: string,
    displayName: string,
    visibility: string,
    requiredGroups: seq<string>,
    isStatic: bool,
    healthCheckConfig: Option<HealthCheckConfig>,
    health: HealthStatus)
}
