/**
 * The data the service-catalog module works on: the services and endpoints
 * the identity API reports, the desired catalog read from the data file,
 * and the action records the module returns.
 */
module Catalog {
  import opened Wrappers

  /** Opaque identifier the identity API assigns to a service or an endpoint. */
  type Id = nat

  /** A service as listed by the identity API. */
  datatype Service = Service(
    id: Id,
    srvType: string,
    name: Option<string>,
    description: Option<string>,
    enabled: bool)

  /** An endpoint as listed by the identity API; `region` may be null. */
  datatype Endpoint = Endpoint(
    id: Id,
    serviceId: Id,
    region: Option<string>,
    interface: string,
    url: string,
    enabled: bool)

  /** One desired endpoint entry; every key of the entry may be absent. */
  datatype EndpointSpec = EndpointSpec(
    interface: Option<string>,
    url: Option<string>,
    enabled: Option<bool>)

  /**
   * The desired endpoints of one environment, grouped by region key in the
   * order of the data file.  A region key may itself be null.
   */
  datatype EnvironmentSpec = EnvironmentSpec(endpoints: seq<(Option<string>, seq<EndpointSpec>)>)

  /**
   * One desired service.  `environments` maps an environment name to its
   * entry, which is `None` when the data file gives the name an empty value.
   */
  datatype ServiceSpec = ServiceSpec(
    name: Option<string>,
    description: Option<string>,
    enabled: Option<bool>,
    environments: map<string, Option<EnvironmentSpec>>)

  /** The desired catalog: services keyed by type, in the order of the data file. */
  datatype Desired = Desired(services: seq<(string, ServiceSpec)>)

  /** Interface of a desired endpoint that does not name one. */
  const DefaultInterface: string := "public"

  /** One entry of `actions.services`. */
  datatype ServiceAction =
    | ServiceUpdate(
        srvType: string, id: Id,
        currentName: Option<string>, newName: Option<string>,
        currentEnabled: bool, newEnabled: bool,
        currentDescription: Option<string>, newDescription: Option<string>)
    | ServiceCreate(
        srvType: string, newName: Option<string>, newEnabled: bool, newDescription: Option<string>)
    | ServiceDelete(
        srvType: string, id: Id,
        currentName: Option<string>, currentDescription: Option<string>, currentEnabled: bool)

  /** One entry of `actions.endpoints`. */
  datatype EndpointAction =
    | EndpointUpdate(
        serviceType: string, id: Id, interface: string,
        currentUrl: string, newUrl: string,
        currentEnabled: bool, newEnabled: bool)
    | EndpointCreate(
        serviceType: string, region: Option<string>, interface: string,
        newUrl: string, newEnabled: bool)
    | EndpointDelete(id: Id, currentUrl: string, currentEnabled: bool)

  /** Why a run stops early: a desired endpoint without a `url` key. */
  datatype Error = MissingUrl(serviceType: string, region: Option<string>)

  /** What the module reports: the changed flag and the actions, or the failure. */
  datatype RunResult =
    | Exited(changed: bool, serviceActions: seq<ServiceAction>, endpointActions: seq<EndpointAction>)
    | Failed(error: Error)
}
