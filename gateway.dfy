/**
 * The remote identity API, reduced to the calls the service-catalog module
 * makes.  The real calls go through the OpenStack SDK over the network; here
 * they are abstract operations on an ordered listing of services and
 * endpoints, a counter that hands out fresh ids, and a log of mutating calls.
 */
module Gateway {
  import opened Wrappers
  import opened Catalog

  /** A mutating call that reached the identity API. */
  datatype Call =
    | CreateServiceCall(srvType: string, name: Option<string>, description: Option<string>, enabled: bool)
    | UpdateServiceCall(id: Id, name: Option<string>, description: Option<string>, enabled: bool)
    | DeleteServiceCall(id: Id)
    | CreateEndpointCall(serviceId: Id, interface: string, url: string, region: Option<string>, enabled: bool)
    | UpdateEndpointCall(id: Id, url: string, enabled: bool)
    | DeleteEndpointCall(id: Id)

  /** What the identity API holds, in listing order, and the calls made so far. */
  datatype GwState = GwState(services: seq<Service>, endpoints: seq<Endpoint>, nextId: Id, calls: seq<Call>) {

    /**
     * The identity API hands out ids nobody holds: every service id, every
     * endpoint id and every service id an endpoint points to is below the
     * counter, and no two different records of one kind share an id.
     */
    ghost predicate Fresh() {
      && (forall s :: s in services ==> s.id < nextId)
      && (forall e :: e in endpoints ==> e.id < nextId && e.serviceId < nextId)
      && (forall s, t :: s in services && t in services && s.id == t.id ==> s == t)
      && (forall e, f :: e in endpoints && f in endpoints && e.id == f.id ==> e == f)
    }

    /** `endpoints(service_id=...)`, or every endpoint when no service is named. */
    function EndpointsOf(serviceId: Option<Id>): (r: seq<Endpoint>)
      ensures forall e :: e in r <==> e in endpoints && (serviceId.Some? ==> e.serviceId == serviceId.value)
    {
      match serviceId
      case None => endpoints
      case Some(sid) => Filter((e: Endpoint) => e.serviceId == sid, endpoints)
    }

    /** Creates a service under a fresh id and returns it. */
    function CreateService(srvType: string, name: Option<string>, description: Option<string>, enabled: bool): (r: (GwState, Service))
      ensures r.1 == Service(nextId, srvType, name, description, enabled)
      ensures r.0.services == services + [r.1] && r.0.endpoints == endpoints && r.0.nextId > nextId
      ensures r.0.calls == calls + [CreateServiceCall(srvType, name, description, enabled)]
    {
      var s := Service(nextId, srvType, name, description, enabled);
      (this.(services := services + [s], nextId := nextId + 1,
             calls := calls + [CreateServiceCall(srvType, name, description, enabled)]), s)
    }

    /** Updates the three fields of `current`; the response keeps its id and type. */
    function UpdateService(current: Service, name: Option<string>, description: Option<string>, enabled: bool): (r: (GwState, Service))
      ensures r.1.id == current.id && r.1.srvType == current.srvType
      ensures r.1.name == name && r.1.description == description && r.1.enabled == enabled
      ensures |r.0.services| == |services| && r.0.endpoints == endpoints && r.0.nextId == nextId
      ensures forall k :: 0 <= k < |services| ==>
                r.0.services[k] == if services[k].id == current.id then r.1 else services[k]
      ensures r.0.calls == calls + [UpdateServiceCall(current.id, name, description, enabled)]
    {
      var s := current.(name := name, description := description, enabled := enabled);
      var replaced := seq(|services|, k requires 0 <= k < |services| =>
                          if services[k].id == current.id then s else services[k]);
      (this.(services := replaced, calls := calls + [UpdateServiceCall(current.id, name, description, enabled)]), s)
    }

    /** Deletes the service with id `id`; nothing else goes with it. */
    function DeleteService(id: Id): (r: GwState)
      ensures forall s :: s in r.services <==> s in services && s.id != id
      ensures r.endpoints == endpoints && r.nextId == nextId && r.calls == calls + [DeleteServiceCall(id)]
    {
      this.(services := Filter((s: Service) => s.id != id, services), calls := calls + [DeleteServiceCall(id)])
    }

    /** Creates an endpoint under a fresh id; the region is stored as given. */
    function CreateEndpoint(serviceId: Id, interface: string, url: string, region: Option<string>, enabled: bool): (r: (GwState, Endpoint))
      ensures r.1 == Endpoint(nextId, serviceId, region, interface, url, enabled)
      ensures r.0.endpoints == endpoints + [r.1] && r.0.services == services && r.0.nextId > nextId
      ensures r.0.calls == calls + [CreateEndpointCall(serviceId, interface, url, region, enabled)]
    {
      var e := Endpoint(nextId, serviceId, region, interface, url, enabled);
      (this.(endpoints := endpoints + [e], nextId := nextId + 1,
             calls := calls + [CreateEndpointCall(serviceId, interface, url, region, enabled)]), e)
    }

    /** Updates url and enabled flag of `current`; the response keeps everything else. */
    function UpdateEndpoint(current: Endpoint, url: string, enabled: bool): (r: (GwState, Endpoint))
      ensures r.1.id == current.id && r.1.serviceId == current.serviceId
      ensures r.1.region == current.region && r.1.interface == current.interface
      ensures r.1.url == url && r.1.enabled == enabled
      ensures |r.0.endpoints| == |endpoints| && r.0.services == services && r.0.nextId == nextId
      ensures forall k :: 0 <= k < |endpoints| ==>
                r.0.endpoints[k] == if endpoints[k].id == current.id then r.1 else endpoints[k]
      ensures r.0.calls == calls + [UpdateEndpointCall(current.id, url, enabled)]
    {
      var e := current.(url := url, enabled := enabled);
      var replaced := seq(|endpoints|, k requires 0 <= k < |endpoints| =>
                          if endpoints[k].id == current.id then e else endpoints[k]);
      (this.(endpoints := replaced, calls := calls + [UpdateEndpointCall(current.id, url, enabled)]), e)
    }

    /** Deletes the endpoint with id `id`. */
    function DeleteEndpoint(id: Id): (r: GwState)
      ensures forall e :: e in r.endpoints <==> e in endpoints && e.id != id
      ensures r.services == services && r.nextId == nextId && r.calls == calls + [DeleteEndpointCall(id)]
    {
      this.(endpoints := Filter((e: Endpoint) => e.id != id, endpoints), calls := calls + [DeleteEndpointCall(id)])
    }
  }

  // Every call keeps the identity API's ids fresh.

  /** A created service gets an id no listed service or endpoint refers to. */
  lemma CreateServiceKeepsFresh(g: GwState, srvType: string, name: Option<string>, description: Option<string>, enabled: bool)
    requires g.Fresh()
    ensures var r := g.CreateService(srvType, name, description, enabled);
            && r.0.Fresh()
            && (forall s :: s in g.services ==> s.id != r.1.id)
            && (forall e :: e in g.endpoints ==> e.serviceId != r.1.id)
  {
  }

  lemma UpdateServiceKeepsFresh(g: GwState, current: Service, name: Option<string>, description: Option<string>, enabled: bool)
    requires g.Fresh()
    ensures g.UpdateService(current, name, description, enabled).0.Fresh()
  {
  }

  lemma DeleteServiceKeepsFresh(g: GwState, id: Id)
    requires g.Fresh()
    ensures g.DeleteService(id).Fresh()
  {
  }

  /** An endpoint created under a known service gets an id no listed endpoint has. */
  lemma CreateEndpointKeepsFresh(g: GwState, serviceId: Id, interface: string, url: string, region: Option<string>, enabled: bool)
    requires g.Fresh() && serviceId < g.nextId
    ensures var r := g.CreateEndpoint(serviceId, interface, url, region, enabled);
            r.0.Fresh() && forall e :: e in g.endpoints ==> e.id != r.1.id
  {
  }

  lemma UpdateEndpointKeepsFresh(g: GwState, current: Endpoint, url: string, enabled: bool)
    requires g.Fresh() && current.serviceId < g.nextId
    ensures g.UpdateEndpoint(current, url, enabled).0.Fresh()
  {
  }

  lemma DeleteEndpointKeepsFresh(g: GwState, id: Id)
    requires g.Fresh()
    ensures g.DeleteEndpoint(id).Fresh()
  {
  }

  /** The identity API as an object whose state the module's calls change. */
  class RemoteCatalog {
    var services: seq<Service>
    var endpoints: seq<Endpoint>
    var nextId: Id
    var calls: seq<Call>

    function State(): GwState
      reads this
    {
      GwState(services, endpoints, nextId, calls)
    }

    constructor (services: seq<Service>, endpoints: seq<Endpoint>, nextId: Id)
      ensures State() == GwState(services, endpoints, nextId, [])
    {
      this.services := services;
      this.endpoints := endpoints;
      this.nextId := nextId;
      this.calls := [];
    }

    /** `identity.services()`: every service, in listing order. */
    method ListServices() returns (r: seq<Service>)
      ensures r == services
    {
      r := services;
    }

    /** `identity.endpoints(service_id=...)`. */
    method ListEndpoints(serviceId: Option<Id>) returns (r: seq<Endpoint>)
      ensures r == State().EndpointsOf(serviceId)
      ensures forall e :: e in r <==> e in endpoints && (serviceId.Some? ==> e.serviceId == serviceId.value)
    {
      r := State().EndpointsOf(serviceId);
    }

    method CreateService(srvType: string, name: Option<string>, description: Option<string>, enabled: bool) returns (s: Service)
      modifies this
      ensures (State(), s) == old(State()).CreateService(srvType, name, description, enabled)
      ensures old(State()).Fresh() ==> && State().Fresh()
                                       && (forall x :: x in old(services) ==> x.id != s.id)
                                       && (forall e :: e in old(endpoints) ==> e.serviceId != s.id)
    {
      var r := State().CreateService(srvType, name, description, enabled);
      if State().Fresh() {
        CreateServiceKeepsFresh(State(), srvType, name, description, enabled);
      }
      services, nextId, calls := r.0.services, r.0.nextId, r.0.calls;
      s := r.1;
    }

    method UpdateService(current: Service, name: Option<string>, description: Option<string>, enabled: bool) returns (s: Service)
      modifies this
      ensures (State(), s) == old(State()).UpdateService(current, name, description, enabled)
    {
      var r := State().UpdateService(current, name, description, enabled);
      services, calls := r.0.services, r.0.calls;
      s := r.1;
    }

    method DeleteService(current: Service)
      modifies this
      ensures State() == old(State()).DeleteService(current.id)
    {
      var r := State().DeleteService(current.id);
      services, calls := r.services, r.calls;
    }

    method CreateEndpoint(serviceId: Id, interface: string, url: string, region: Option<string>, enabled: bool) returns (e: Endpoint)
      modifies this
      ensures (State(), e) == old(State()).CreateEndpoint(serviceId, interface, url, region, enabled)
      ensures old(State()).Fresh() && serviceId < old(nextId) ==>
                State().Fresh() && forall x :: x in old(endpoints) ==> x.id != e.id
    {
      var r := State().CreateEndpoint(serviceId, interface, url, region, enabled);
      if State().Fresh() && serviceId < nextId {
        CreateEndpointKeepsFresh(State(), serviceId, interface, url, region, enabled);
      }
      endpoints, nextId, calls := r.0.endpoints, r.0.nextId, r.0.calls;
      e := r.1;
    }

    /**
     * `_update_endpoint`.  `current` is a value here, so the caller's copy of
     * it keeps the old url and enabled flag; the SDK instead updates the
     * object it is given in place.
     */
    method UpdateEndpoint(current: Endpoint, url: string, enabled: bool) returns (e: Endpoint)
      modifies this
      ensures (State(), e) == old(State()).UpdateEndpoint(current, url, enabled)
    {
      var r := State().UpdateEndpoint(current, url, enabled);
      endpoints, calls := r.0.endpoints, r.0.calls;
      e := r.1;
    }

    method DeleteEndpoint(current: Endpoint)
      modifies this
      ensures State() == old(State()).DeleteEndpoint(current.id)
    {
      var r := State().DeleteEndpoint(current.id);
      endpoints, calls := r.endpoints, r.calls;
    }
  }
}
