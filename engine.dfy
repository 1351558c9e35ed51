/**
 * `SCModule.run` as imperative code over the identity API object.  The
 * variables `run` keeps for the duration of one run (the changed flag, the
 * sets of claimed ids and the two result lists) are fields of a Reconciler,
 * so that the per-service and per-endpoint parts of the loop body can be
 * methods of their own.  Every method is proved to do exactly what the
 * matching function of module Plan describes.
 */
module Engine {
  import opened Wrappers
  import opened Catalog
  import opened Gateway
  import opened Plan

  /**
   * The endpoint search of `run`: walks the listing in order and stops at
   * the first endpoint whose normalised region and interface match.
   */
  method FindEndpoint(currentEps: seq<Endpoint>, region: Option<string>, interface: string) returns (r: Option<nat>)
    ensures r.Some? ==> r.value < |currentEps| && Matches(currentEps[r.value], region, interface)
    ensures r.Some? ==> forall j :: 0 <= j < r.value ==> !Matches(currentEps[j], region, interface)
    ensures r.None? ==> forall j :: 0 <= j < |currentEps| ==> !Matches(currentEps[j], region, interface)
    ensures r == FirstMatch(currentEps, region, interface)
  {
    r := None;
    var m := 0;
    while m < |currentEps|
      invariant 0 <= m <= |currentEps|
      invariant forall j :: 0 <= j < m ==> !Matches(currentEps[j], region, interface)
    {
      var cep := currentEps[m];
      var cepRegion := if cep.region.Some? then cep.region.value else "";
      if region == Some(cepRegion) && interface == cep.interface {
        r := Some(m);
        break;
      }
      m := m + 1;
    }
  }

  class Reconciler {
    const conn: RemoteCatalog
    const checkMode: bool
    var changed: bool
    var usedServices: set<Id>
    var usedEps: set<Id>
    var serviceActions: seq<ServiceAction>
    var endpointActions: seq<EndpointAction>

    /** The run's state as the accumulator of module Plan. */
    function Snapshot(error: Option<Error>): Acc
      reads this, conn
    {
      Acc(conn.State(), usedServices, usedEps, serviceActions, endpointActions, changed, error)
    }

    constructor (conn: RemoteCatalog, checkMode: bool)
      ensures this.conn == conn && this.checkMode == checkMode
      ensures Snapshot(None) == Start(conn.State())
    {
      this.conn := conn;
      this.checkMode := checkMode;
      changed := false;
      usedServices, usedEps := {}, {};
      serviceActions, endpointActions := [], [];
    }

    /**
     * `SCModule.run`: reconciles the desired catalog for `targetEnv` against
     * the identity API and, when allowed, prunes what was not claimed.
     * This holds on any identity API; check mode previews a real run on one
     * that hands out fresh ids (`Preview.CheckModeMirrorsRealRun`).
     */
    method Run(data: Desired, targetEnv: string, skipDelete: bool, limitServices: seq<string>) returns (r: RunResult)
      modifies this, conn
      ensures var fin := Reconcile(old(conn.State()), data, Params(targetEnv, skipDelete, limitServices, checkMode));
              r == Outcome(fin) && conn.State() == fin.gw
    {
      var p := Params(targetEnv, skipDelete, limitServices, checkMode);
      changed := false;
      var existingServices := conn.ListServices();
      usedServices, usedEps := {}, {};
      serviceActions, endpointActions := [], [];
      var err := ReconcileServices(p, existingServices, data);
      if err.Some? {
        return Failed(err.value);
      }
      if |limitServices| == 0 && !skipDelete {
        Prune(existingServices);
      }
      r := Exited(changed, serviceActions, endpointActions);
    }

    /** The main loop of `run`, over the desired services in order. */
    method ReconcileServices(p: Params, existingServices: seq<Service>, data: Desired) returns (err: Option<Error>)
      requires p.checkMode == checkMode
      requires Snapshot(None) == Start(conn.State()) && existingServices == conn.services
      modifies this, conn
      ensures Snapshot(err) == ServicesPhase(old(conn.State()), data, p)
    {
      ghost var phase := ServicesPhase(conn.State(), data, p);
      var existingServicePerType := ByType(existingServices);
      var i := 0;
      while i < |data.services|
        invariant 0 <= i <= |data.services|
        invariant ServicesFold(Snapshot(None), p, existingServicePerType, data.services[i..]) == phase
      {
        var (srvType, targetSrv) := data.services[i];
        assert data.services[i..][1..] == data.services[i + 1..];
        err := ReconcileService(p, existingServicePerType, srvType, targetSrv);
        if err.Some? {
          assert phase == Snapshot(err);
          return;
        }
        i := i + 1;
      }
      err := None;
    }

    /**
     * The cleanup of `run`: every endpoint of a fresh listing whose id was
     * not claimed, then every service of the start snapshot whose id was not.
     */
    method Prune(existingServices: seq<Service>)
      modifies this, conn
      ensures Snapshot(None)
              == PruneServices(PruneEndpoints(old(Snapshot(None)), checkMode, old(conn.endpoints)), checkMode, existingServices)
    {
      var existingEps := conn.ListEndpoints(None);
      ghost var afterEps := PruneEndpoints(Snapshot(None), checkMode, existingEps);
      var j := 0;
      while j < |existingEps|
        invariant 0 <= j <= |existingEps|
        invariant PruneEndpoints(Snapshot(None), checkMode, existingEps[j..]) == afterEps
      {
        assert existingEps[j..][1..] == existingEps[j + 1..];
        PruneEndpoint(existingEps[j]);
        j := j + 1;
      }
      var k := 0;
      while k < |existingServices|
        invariant 0 <= k <= |existingServices|
        invariant PruneServices(Snapshot(None), checkMode, existingServices[k..])
                  == PruneServices(afterEps, checkMode, existingServices)
      {
        assert existingServices[k..][1..] == existingServices[k + 1..];
        PruneService(existingServices[k]);
        k := k + 1;
      }
    }

    /** The loop body of `run` for one desired service. */
    method ReconcileService(p: Params, existingServicePerType: map<string, Service>, srvType: string, targetSrv: ServiceSpec)
      returns (err: Option<Error>)
      requires p.checkMode == checkMode
      modifies this, conn
      ensures Snapshot(err) == ServiceStep(old(Snapshot(None)), p, existingServicePerType, srvType, targetSrv)
    {
      ghost var a0 := Snapshot(None);
      if |p.limitServices| > 0 && srvType !in p.limitServices {
        return None;
      }
      if !(p.targetEnv in targetSrv.environments && targetSrv.environments[p.targetEnv].Some?) {
        return None;
      }
      var currentEps: seq<Endpoint> := [];
      var currentSrv := ResolveTarget(srvType, existingServicePerType,
                                      targetSrv.name, targetSrv.description, targetSrv.enabled.GetOr(true));

      var serviceId: Option<Id> := None;
      if currentSrv.Some? {
        usedServices := usedServices + {currentSrv.value.id};
        currentEps := conn.ListEndpoints(Some(currentSrv.value.id));
        serviceId := Some(currentSrv.value.id);
      }
      var sc := Scope(checkMode, srvType, serviceId, currentEps);
      ServiceStepShape(a0, p, existingServicePerType, srvType, targetSrv);
      err := ReconcileRegions(sc, targetSrv.environments[p.targetEnv].value.endpoints);
    }

    /** The region keys of the target environment, in order. */
    method ReconcileRegions(sc: Scope, regions: seq<(Option<string>, seq<EndpointSpec>)>) returns (err: Option<Error>)
      requires sc.checkMode == checkMode && sc.Ok()
      modifies this, conn
      ensures Snapshot(err) == RegionsFold(old(Snapshot(None)), sc, regions)
    {
      ghost var fin := RegionsFold(Snapshot(None), sc, regions);
      var j := 0;
      while j < |regions|
        invariant 0 <= j <= |regions|
        invariant RegionsFold(Snapshot(None), sc, regions[j..]) == fin
      {
        var (regionId, targetEps) := regions[j];
        assert regions[j..][1..] == regions[j + 1..];
        err := ReconcileRegion(sc, regionId, targetEps);
        if err.Some? {
          assert fin == Snapshot(err);
          return;
        }
        j := j + 1;
      }
      err := None;
    }

    /**
     * The service part of `run`'s loop body: update the service of that type
     * when a field differs, create it when the type is empty or unknown.
     */
    method ResolveTarget(srvType: string, existingServicePerType: map<string, Service>,
                         targetName: Option<string>, targetDescription: Option<string>, targetEnabled: bool)
      returns (currentSrv: Option<Service>)
      modifies this, conn
      ensures (Snapshot(None), currentSrv)
              == ResolveService(old(Snapshot(None)), checkMode, existingServicePerType, srvType,
                                targetName, targetDescription, targetEnabled)
    {
      currentSrv := None;
      if srvType != "" && srvType in existingServicePerType {
        currentSrv := Some(existingServicePerType[srvType]);
        if SrvUpdateNecessary(currentSrv.value, targetName, targetDescription, targetEnabled) {
          changed := true;
          if !checkMode {
            var s := conn.UpdateService(currentSrv.value, targetName, targetDescription, targetEnabled);
            currentSrv := Some(s);
          }
          var srv := currentSrv.value;
          serviceActions := serviceActions + [ServiceUpdate(srvType, srv.id, srv.name, targetName,
                                                            srv.enabled, targetEnabled, srv.description, targetDescription)];
        }
      } else {
        changed := true;
        if !checkMode {
          var s := conn.CreateService(srvType, targetName, targetDescription, targetEnabled);
          currentSrv := Some(s);
        }
        serviceActions := serviceActions + [ServiceCreate(srvType, targetName, targetEnabled, targetDescription)];
      }
    }

    /** The desired endpoints listed under one region key. */
    method ReconcileRegion(sc: Scope, regionId: Option<string>, targetEps: seq<EndpointSpec>) returns (err: Option<Error>)
      requires sc.checkMode == checkMode && sc.Ok()
      modifies this, conn
      ensures Snapshot(err) == EndpointsFold(old(Snapshot(None)), sc, regionId, targetEps)
    {
      ghost var fin := EndpointsFold(Snapshot(None), sc, regionId, targetEps);
      var k := 0;
      while k < |targetEps|
        invariant 0 <= k <= |targetEps|
        invariant EndpointsFold(Snapshot(None), sc, regionId, targetEps[k..]) == fin
      {
        assert targetEps[k..][1..] == targetEps[k + 1..];
        err := ReconcileEndpoint(sc, regionId, targetEps[k]);
        if err.Some? {
          assert fin == Snapshot(err);
          return;
        }
        k := k + 1;
      }
      err := None;
    }

    /** The body of `run`'s innermost loop, for one desired endpoint. */
    method ReconcileEndpoint(sc: Scope, regionId: Option<string>, tep: EndpointSpec) returns (err: Option<Error>)
      requires sc.checkMode == checkMode && sc.Ok()
      modifies this, conn
      ensures Snapshot(err) == EndpointStep(old(Snapshot(None)), sc, regionId, tep)
    {
      var targetInterface := tep.interface.GetOr(DefaultInterface);
      if tep.url.None? {
        return Some(MissingUrl(sc.srvType, regionId));
      }
      var targetUrl := tep.url.value;
      var targetEnabled := tep.enabled.GetOr(true);
      var ep: Option<Endpoint> := None;

      var found := FindEndpoint(sc.currentEps, regionId, targetInterface);
      if found.Some? {
        var cep := sc.currentEps[found.value];
        if EpUpdateNecessary(cep, targetUrl, targetEnabled) {
          changed := true;
          if !checkMode {
            var e := conn.UpdateEndpoint(cep, targetUrl, targetEnabled);
            ep := Some(e);
          } else {
            ep := Some(cep);
          }
          endpointActions := endpointActions + [EndpointUpdate(sc.srvType, cep.id, targetInterface, cep.url, targetUrl,
                                                               cep.enabled, targetEnabled)];
        } else {
          ep := Some(cep);
        }
      } else {
        changed := true;
        if !checkMode {
          var e := conn.CreateEndpoint(sc.serviceId.value, targetInterface, targetUrl, regionId, targetEnabled);
          ep := Some(e);
        }
        endpointActions := endpointActions + [EndpointCreate(sc.srvType, regionId, targetInterface, targetUrl, targetEnabled)];
      }
      if ep.Some? {
        usedEps := usedEps + {ep.value.id};
      }
      err := None;
    }

    /** One iteration of the endpoint cleanup loop. */
    method PruneEndpoint(existingEp: Endpoint)
      modifies this, conn
      ensures Snapshot(None) == Plan.PruneEndpoint(old(Snapshot(None)), checkMode, existingEp)
    {
      if existingEp.id !in usedEps {
        changed := true;
        if !checkMode {
          conn.DeleteEndpoint(existingEp);
        }
        endpointActions := endpointActions + [EndpointDelete(existingEp.id, existingEp.url, existingEp.enabled)];
      }
    }

    /** One iteration of the service cleanup loop. */
    method PruneService(srv: Service)
      modifies this, conn
      ensures Snapshot(None) == Plan.PruneService(old(Snapshot(None)), checkMode, srv)
    {
      if srv.id !in usedServices {
        changed := true;
        if !checkMode {
          conn.DeleteService(srv);
        }
        serviceActions := serviceActions + [ServiceDelete(srv.srvType, srv.id, srv.name, srv.description, srv.enabled)];
      }
    }
  }
}
