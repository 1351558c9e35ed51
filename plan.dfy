/**
 * What one run of the service-catalog module does, as functions: the
 * change-detection predicates, the type lookup, the first-match endpoint
 * search, one reconciliation step per desired service and per desired
 * endpoint, the pruning passes, and the whole run as a fold over them.
 * The imperative run in module Engine is proved to compute exactly this.
 */
module Plan {
  import opened Wrappers
  import opened Catalog
  import opened Gateway

  /** The module's parameters, and whether Ansible runs it in check mode. */
  datatype Params = Params(targetEnv: string, skipDelete: bool, limitServices: seq<string>, checkMode: bool)

  /**
   * Everything a run accumulates: the identity API's state, the claimed
   * service and endpoint ids, the two action lists, the changed flag, and
   * the reason the run stopped, if it did.
   */
  datatype Acc = Acc(
    gw: GwState,
    usedServices: set<Id>,
    usedEps: set<Id>,
    serviceActions: seq<ServiceAction>,
    endpointActions: seq<EndpointAction>,
    changed: bool,
    error: Option<Error>)

  /** A run's accumulator before the first service is processed. */
  function Start(gw: GwState): Acc {
    Acc(gw, {}, {}, [], [], false, None)
  }

  /** What the module returns for a finished accumulator. */
  function Outcome(a: Acc): RunResult {
    match a.error
    case Some(e) => Failed(e)
    case None => Exited(a.changed, a.serviceActions, a.endpointActions)
  }

  /**
   * The service whose endpoints are being reconciled: its type, its id when
   * it has one, and the endpoint listing fetched once for it.
   */
  datatype Scope = Scope(checkMode: bool, srvType: string, serviceId: Option<Id>, currentEps: seq<Endpoint>) {
    /** Outside check mode the service always has an id. */
    predicate Ok() {
      !checkMode ==> serviceId.Some?
    }
  }

  /** `_is_srv_update_necessary`: some of name, description, enabled differs. */
  predicate SrvUpdateNecessary(current: Service, name: Option<string>, description: Option<string>, enabled: bool)
    ensures SrvUpdateNecessary(current, name, description, enabled)
            <==> current.(name := name, description := description, enabled := enabled) != current
  {
    current.name != name || current.description != description || current.enabled != enabled
  }

  /** `_is_ep_update_necessary`: url or enabled differs. */
  predicate EpUpdateNecessary(current: Endpoint, url: string, enabled: bool)
    ensures EpUpdateNecessary(current, url, enabled) <==> current.(url := url, enabled := enabled) != current
  {
    current.url != url || current.enabled != enabled
  }

  /** The observed region with a null region read as the empty string. */
  function NormalizeRegion(region: Option<string>): string {
    region.GetOr("")
  }

  /**
   * An observed endpoint matches a desired region key and interface when its
   * normalised region equals the key as written and the interfaces agree.
   * Only the observed side is normalised: a null key matches nothing.
   */
  predicate Matches(cep: Endpoint, region: Option<string>, interface: string) {
    region == Some(NormalizeRegion(cep.region)) && cep.interface == interface
  }

  /** Position of the first endpoint of `eps` that matches, if any. */
  function FirstMatch(eps: seq<Endpoint>, region: Option<string>, interface: string): (r: Option<nat>)
    ensures r.Some? ==> r.value < |eps| && Matches(eps[r.value], region, interface)
    ensures r.Some? ==> forall j :: 0 <= j < r.value ==> !Matches(eps[j], region, interface)
    ensures r.None? ==> forall j :: 0 <= j < |eps| ==> !Matches(eps[j], region, interface)
  {
    if eps == [] then None
    else if Matches(eps[0], region, interface) then Some(0)
    else match FirstMatch(eps[1..], region, interface)
      case None => None
      case Some(i) => Some(i + 1)
  }

  /** `services[i]` is the last listed service whose type is `t`. */
  predicate LastOfType(services: seq<Service>, i: int, t: string) {
    0 <= i < |services| && services[i].srvType == t &&
    forall j :: i < j < |services| ==> services[j].srvType != t
  }

  /**
   * `{k.type: k for k in existing_services}`: every listed type maps to the
   * LAST listed service of that type.
   */
  function ByType(services: seq<Service>): (m: map<string, Service>)
    ensures forall t :: t in m ==> exists i :: LastOfType(services, i, t) && services[i] == m[t]
  {
    if services == [] then map[]
    else
      var n := |services| - 1;
      var m' := ByType(services[..n]);
      ByTypeStep(services, m');
      m'[services[n].srvType := services[n]]
  }

  /** Extending the lookup of all but the last service by the last one. */
  lemma ByTypeStep(services: seq<Service>, m': map<string, Service>)
    requires |services| > 0
    requires forall t :: t in m' ==> exists i :: LastOfType(services[..|services| - 1], i, t) && services[i] == m'[t]
    ensures var n := |services| - 1;
            var m := m'[services[n].srvType := services[n]];
            forall t :: t in m ==> exists i :: LastOfType(services, i, t) && services[i] == m[t]
  {
    var n := |services| - 1;
    var m := m'[services[n].srvType := services[n]];
    assert LastOfType(services, n, services[n].srvType);
    forall t | t in m
      ensures exists i :: LastOfType(services, i, t) && services[i] == m[t]
    {
      if t != services[n].srvType {
        var i :| LastOfType(services[..n], i, t) && services[i] == m'[t];
        assert LastOfType(services, i, t);
      }
    }
  }

  /**
   * The service half of one desired service: update the service found by
   * type when a field differs, create it when the type is empty or unknown.
   * Returns the new accumulator and the service the endpoints hang off, which
   * is missing only for a check-mode create.
   */
  function ResolveService(a: Acc, checkMode: bool, byType: map<string, Service>, srvType: string,
                          name: Option<string>, description: Option<string>, enabled: bool): (r: (Acc, Option<Service>))
    ensures !checkMode ==> r.1.Some?
    ensures r.0.error == a.error && r.0.usedServices == a.usedServices && r.0.usedEps == a.usedEps
  {
    if srvType != "" && srvType in byType then
      var current := byType[srvType];
      if SrvUpdateNecessary(current, name, description, enabled) then
        var (gw', s) := if checkMode then (a.gw, current) else a.gw.UpdateService(current, name, description, enabled);
        var rec := ServiceUpdate(srvType, s.id, s.name, name, s.enabled, enabled, s.description, description);
        (a.(gw := gw', changed := true, serviceActions := a.serviceActions + [rec]), Some(s))
      else
        (a, Some(current))
    else
      var rec := ServiceCreate(srvType, name, enabled, description);
      if checkMode then
        (a.(changed := true, serviceActions := a.serviceActions + [rec]), None)
      else
        var (gw', s) := a.gw.CreateService(srvType, name, description, enabled);
        (a.(gw := gw', changed := true, serviceActions := a.serviceActions + [rec]), Some(s))
  }

  /**
   * One desired endpoint: abort when it has no url; otherwise update the
   * first matching observed endpoint when url or enabled differs, leave it
   * alone when not, or create one when nothing matches.  The endpoint used
   * is claimed whenever it has an id.
   */
  function EndpointStep(a: Acc, sc: Scope, region: Option<string>, tep: EndpointSpec): Acc
    requires sc.Ok()
  {
    if tep.url.None? then a.(error := Some(MissingUrl(sc.srvType, region)))
    else
      var interface := tep.interface.GetOr(DefaultInterface);
      var url := tep.url.value;
      var enabled := tep.enabled.GetOr(true);
      match FirstMatch(sc.currentEps, region, interface)
      case Some(i) =>
        var cep := sc.currentEps[i];
        if EpUpdateNecessary(cep, url, enabled) then
          var (gw', ep) := if sc.checkMode then (a.gw, cep) else a.gw.UpdateEndpoint(cep, url, enabled);
          var rec := EndpointUpdate(sc.srvType, cep.id, interface, cep.url, url, cep.enabled, enabled);
          a.(gw := gw', changed := true, endpointActions := a.endpointActions + [rec], usedEps := a.usedEps + {ep.id})
        else
          a.(usedEps := a.usedEps + {cep.id})
      case None =>
        var rec := EndpointCreate(sc.srvType, region, interface, url, enabled);
        if sc.checkMode then
          a.(changed := true, endpointActions := a.endpointActions + [rec])
        else
          var (gw', ep) := a.gw.CreateEndpoint(sc.serviceId.value, interface, url, region, enabled);
          a.(gw := gw', changed := true, endpointActions := a.endpointActions + [rec], usedEps := a.usedEps + {ep.id})
  }

  /** The desired endpoints of one region key, in order, stopping at an error. */
  function EndpointsFold(a: Acc, sc: Scope, region: Option<string>, teps: seq<EndpointSpec>): Acc
    requires sc.Ok()
    decreases |teps|
  {
    if a.error.Some? || teps == [] then a
    else EndpointsFold(EndpointStep(a, sc, region, teps[0]), sc, region, teps[1..])
  }

  /** Every region key of one environment, in order, stopping at an error. */
  function RegionsFold(a: Acc, sc: Scope, regions: seq<(Option<string>, seq<EndpointSpec>)>): Acc
    requires sc.Ok()
    decreases |regions|
  {
    if a.error.Some? || regions == [] then a
    else RegionsFold(EndpointsFold(a, sc, regions[0].0, regions[0].1), sc, regions[1..])
  }

  /** True when the service type is outside a non-empty `limit_services`. */
  predicate Excluded(p: Params, srvType: string) {
    |p.limitServices| > 0 && srvType !in p.limitServices
  }

  /** True when the service has a non-null entry for the target environment. */
  predicate HasTargetEnv(p: Params, target: ServiceSpec) {
    p.targetEnv in target.environments && target.environments[p.targetEnv].Some?
  }

  /**
   * One desired service: skipped when excluded or without the target
   * environment; otherwise resolved, claimed when it has an id, and its
   * endpoints reconciled against one listing fetched for that id.
   */
  function ServiceStep(a: Acc, p: Params, byType: map<string, Service>, srvType: string, target: ServiceSpec): Acc
  {
    if Excluded(p, srvType) || !HasTargetEnv(p, target) then a
    else
      var env := target.environments[p.targetEnv].value;
      var (a1, current) := ResolveService(a, p.checkMode, byType, srvType,
                                          target.name, target.description, target.enabled.GetOr(true));
      match current
      case None =>
        RegionsFold(a1, Scope(p.checkMode, srvType, None, []), env.endpoints)
      case Some(s) =>
        var a2 := a1.(usedServices := a1.usedServices + {s.id});
        RegionsFold(a2, Scope(p.checkMode, srvType, Some(s.id), a2.gw.EndpointsOf(Some(s.id))), env.endpoints)
  }

  /** The shape of one processed desired service: resolve, claim when it has an id, then its regions. */
  lemma ServiceStepShape(a: Acc, p: Params, byType: map<string, Service>, t: string, target: ServiceSpec)
    requires !Excluded(p, t) && HasTargetEnv(p, target)
    ensures var res := ResolveService(a, p.checkMode, byType, t, target.name, target.description, target.enabled.GetOr(true));
            var regions := target.environments[p.targetEnv].value.endpoints;
            ServiceStep(a, p, byType, t, target)
            == if res.1.Some?
               then RegionsFold(res.0.(usedServices := res.0.usedServices + {res.1.value.id}),
                                Scope(p.checkMode, t, Some(res.1.value.id), res.0.gw.EndpointsOf(Some(res.1.value.id))), regions)
               else RegionsFold(res.0, Scope(p.checkMode, t, None, []), regions)
  {
  }

  /** Every desired service, in order, stopping at an error. */
  function ServicesFold(a: Acc, p: Params, byType: map<string, Service>, items: seq<(string, ServiceSpec)>): Acc
    decreases |items|
  {
    if a.error.Some? || items == [] then a
    else ServicesFold(ServiceStep(a, p, byType, items[0].0, items[0].1), p, byType, items[1..])
  }

  /** Deletes one listed endpoint unless its id was claimed. */
  function PruneEndpoint(a: Acc, checkMode: bool, e: Endpoint): Acc {
    if e.id in a.usedEps then a
    else
      a.(gw := if checkMode then a.gw else a.gw.DeleteEndpoint(e.id),
         changed := true,
         endpointActions := a.endpointActions + [EndpointDelete(e.id, e.url, e.enabled)])
  }

  function PruneEndpoints(a: Acc, checkMode: bool, eps: seq<Endpoint>): Acc
    decreases |eps|
  {
    if eps == [] then a else PruneEndpoints(PruneEndpoint(a, checkMode, eps[0]), checkMode, eps[1..])
  }

  /** Deletes one snapshot service unless its id was claimed. */
  function PruneService(a: Acc, checkMode: bool, s: Service): Acc {
    if s.id in a.usedServices then a
    else
      a.(gw := if checkMode then a.gw else a.gw.DeleteService(s.id),
         changed := true,
         serviceActions := a.serviceActions + [ServiceDelete(s.srvType, s.id, s.name, s.description, s.enabled)])
  }

  function PruneServices(a: Acc, checkMode: bool, services: seq<Service>): Acc
    decreases |services|
  {
    if services == [] then a else PruneServices(PruneService(a, checkMode, services[0]), checkMode, services[1..])
  }

  /** Pruning runs only without `limit_services` and with `skip_delete` off. */
  predicate PruneEnabled(p: Params) {
    |p.limitServices| == 0 && !p.skipDelete
  }

  /** The desired services reconciled against the snapshot taken at the start. */
  function ServicesPhase(gw0: GwState, data: Desired, p: Params): Acc {
    ServicesFold(Start(gw0), p, ByType(gw0.services), data.services)
  }

  /**
   * A whole run: the services phase, then, when it did not abort and pruning
   * is enabled, the endpoint pass over a fresh listing of all endpoints and
   * the service pass over the snapshot taken at the start.
   */
  function Reconcile(gw0: GwState, data: Desired, p: Params): Acc {
    var a1 := ServicesPhase(gw0, data, p);
    if a1.error.None? && PruneEnabled(p) then
      PruneServices(PruneEndpoints(a1, p.checkMode, a1.gw.endpoints), p.checkMode, gw0.services)
    else a1
  }
}
