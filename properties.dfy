/**
 * Properties of a run of the service-catalog module, proved about the
 * functions of module Plan (and so, through Engine.Reconciler.Run's
 * postcondition, about the imperative run).
 */
module Properties {
  import opened Wrappers
  import opened Catalog
  import opened Gateway
  import opened Plan

  // ---------------------------------------------------------------------
  // Change detection

  /** A service update is needed exactly when applying it would change the service. */
  lemma ServiceUpdateNeededIffItChanges(gw: GwState, current: Service, name: Option<string>, description: Option<string>, enabled: bool)
    ensures SrvUpdateNecessary(current, name, description, enabled)
            <==> gw.UpdateService(current, name, description, enabled).1 != current
    ensures !SrvUpdateNecessary(gw.UpdateService(current, name, description, enabled).1, name, description, enabled)
  {
  }

  /** An endpoint update is needed exactly when applying it would change the endpoint. */
  lemma EndpointUpdateNeededIffItChanges(gw: GwState, current: Endpoint, url: string, enabled: bool)
    ensures EpUpdateNecessary(current, url, enabled) <==> gw.UpdateEndpoint(current, url, enabled).1 != current
    ensures !EpUpdateNecessary(gw.UpdateEndpoint(current, url, enabled).1, url, enabled)
  {
  }

  // ---------------------------------------------------------------------
  // The type lookup

  /** Every listed type is a key of the lookup. */
  lemma {:induction false} ByTypeCoversEveryType(services: seq<Service>, i: int)
    requires 0 <= i < |services|
    ensures services[i].srvType in ByType(services)
    decreases |services|
  {
    var n := |services| - 1;
    if i < n {
      assert services[..n][i] == services[i];
      ByTypeCoversEveryType(services[..n], i);
    }
  }

  /** A service that is followed by another of the same type is never what the lookup returns. */
  lemma ShadowedServiceIsInvisible(services: seq<Service>, i: int, j: int)
    requires 0 <= i < j < |services| && services[i].srvType == services[j].srvType
    requires services[i] !in services[i + 1..]
    ensures services[i].srvType in ByType(services) && ByType(services)[services[i].srvType] != services[i]
  {
    var t := services[i].srvType;
    ByTypeCoversEveryType(services, i);
    var k :| LastOfType(services, k, t) && services[k] == ByType(services)[t];
    assert !(k < j);
    assert services[k] == services[i + 1..][k - i - 1];
  }

  // ---------------------------------------------------------------------
  // Region normalisation and first match

  /** A desired key "" matches an endpoint with a null or empty region, and nothing else. */
  lemma EmptyKeyMatchesNullRegion(cep: Endpoint, interface: string)
    ensures Matches(cep, Some(""), interface) <==> (cep.region == None || cep.region == Some("")) && cep.interface == interface
  {
  }

  /** A null desired key is compared as written and never matches an observed endpoint. */
  lemma NullKeyNeverMatches(eps: seq<Endpoint>, interface: string)
    ensures FirstMatch(eps, None, interface) == None
  {
  }

  // ---------------------------------------------------------------------
  // One desired endpoint

  /** A desired endpoint without a url stops the run and changes nothing else. */
  lemma MissingUrlAborts(a: Acc, sc: Scope, region: Option<string>, tep: EndpointSpec)
    requires sc.Ok() && tep.url.None?
    ensures EndpointStep(a, sc, region, tep) == a.(error := Some(MissingUrl(sc.srvType, region)))
  {
  }

  /**
   * A desired endpoint whose first match is at position i: only that
   * endpoint is claimed, an update record naming it is appended exactly when
   * url or enabled differ, and later duplicates stay unclaimed.
   */
  lemma MatchedEndpointStep(a: Acc, sc: Scope, region: Option<string>, tep: EndpointSpec, i: nat)
    requires sc.Ok() && tep.url.Some?
    requires FirstMatch(sc.currentEps, region, tep.interface.GetOr(DefaultInterface)) == Some(i)
    ensures var b := EndpointStep(a, sc, region, tep);
            var cep := sc.currentEps[i];
            var url := tep.url.value;
            var enabled := tep.enabled.GetOr(true);
            && b.error == a.error
            && b.usedEps == a.usedEps + {cep.id}
            && b.usedServices == a.usedServices
            && b.serviceActions == a.serviceActions
            && b.endpointActions == a.endpointActions +
                 (if EpUpdateNecessary(cep, url, enabled)
                  then [EndpointUpdate(sc.srvType, cep.id, tep.interface.GetOr(DefaultInterface), cep.url, url, cep.enabled, enabled)]
                  else [])
            && (forall j :: i < j < |sc.currentEps| && sc.currentEps[j].id != cep.id ==>
                  (sc.currentEps[j].id in b.usedEps <==> sc.currentEps[j].id in a.usedEps))
            && b.changed == (a.changed || EpUpdateNecessary(cep, url, enabled))
            && b.gw == if EpUpdateNecessary(cep, url, enabled) && !sc.checkMode
                       then a.gw.UpdateEndpoint(cep, url, enabled).0 else a.gw
  {
  }

  /**
   * A desired endpoint with no match: exactly one create record; outside
   * check mode the gateway creates it and its new id is claimed, in check
   * mode nothing is called and nothing is claimed.
   */
  lemma UnmatchedEndpointStep(a: Acc, sc: Scope, region: Option<string>, tep: EndpointSpec)
    requires sc.Ok() && tep.url.Some?
    requires FirstMatch(sc.currentEps, region, tep.interface.GetOr(DefaultInterface)) == None
    ensures var b := EndpointStep(a, sc, region, tep);
            var interface := tep.interface.GetOr(DefaultInterface);
            var enabled := tep.enabled.GetOr(true);
            && b.error == a.error && b.changed
            && b.serviceActions == a.serviceActions && b.usedServices == a.usedServices
            && b.endpointActions == a.endpointActions + [EndpointCreate(sc.srvType, region, interface, tep.url.value, enabled)]
            && (sc.checkMode ==> b.gw == a.gw && b.usedEps == a.usedEps)
            && (!sc.checkMode ==>
                  var created := a.gw.CreateEndpoint(sc.serviceId.value, interface, tep.url.value, region, enabled);
                  b.gw == created.0 && b.usedEps == a.usedEps + {created.1.id} && created.1.id == a.gw.nextId)
  {
  }

  // ---------------------------------------------------------------------
  // One desired service

  /** An excluded service, or one without a non-null target environment, leaves everything as it was. */
  lemma SkippedServiceIsUntouched(a: Acc, p: Params, byType: map<string, Service>, srvType: string, target: ServiceSpec)
    requires Excluded(p, srvType) || !HasTargetEnv(p, target)
    ensures ServiceStep(a, p, byType, srvType, target) == a
  {
  }

  /**
   * The service record of one desired service: one create when the type is
   * empty or unknown, one update of the looked-up service exactly when a
   * field differs, otherwise none.  In check mode an update record carries
   * the observed values as its current ones; outside it carries the values
   * of the update's response, which are the requested ones.
   */
  lemma ServiceRecordRules(a: Acc, checkMode: bool, byType: map<string, Service>, srvType: string,
                           name: Option<string>, description: Option<string>, enabled: bool)
    ensures var (b, current) := ResolveService(a, checkMode, byType, srvType, name, description, enabled);
            && b.error == a.error && b.usedServices == a.usedServices && b.usedEps == a.usedEps
            && b.endpointActions == a.endpointActions
            && (!(srvType != "" && srvType in byType) ==>
                  && b.serviceActions == a.serviceActions + [ServiceCreate(srvType, name, enabled, description)]
                  && (checkMode <==> current.None?)
                  && (checkMode ==> b.gw == a.gw)
                  && (!checkMode ==> (b.gw, current.value) == a.gw.CreateService(srvType, name, description, enabled)))
            && (srvType != "" && srvType in byType ==>
                  var s := byType[srvType];
                  && current.Some? && current.value.id == s.id
                  && (!SrvUpdateNecessary(s, name, description, enabled) ==>
                        b.serviceActions == a.serviceActions && b.gw == a.gw && current == Some(s))
                  && (SrvUpdateNecessary(s, name, description, enabled) ==>
                        && b.serviceActions == a.serviceActions + [ServiceUpdate(srvType, s.id,
                             if checkMode then s.name else name, name,
                             if checkMode then s.enabled else enabled, enabled,
                             if checkMode then s.description else description, description)]
                        && (checkMode ==> b.gw == a.gw && current == Some(s))
                        && (!checkMode ==> (b.gw, current.value) == a.gw.UpdateService(s, name, description, enabled))))
  {
  }

  // ---------------------------------------------------------------------
  // How a run's accumulator grows

  /**
   * `b` follows `a`: records and claims are only appended, `changed` turns
   * on exactly when a record is appended, check mode leaves the identity API
   * alone.
   */
  ghost predicate Extends(a: Acc, b: Acc, checkMode: bool) {
    && a.serviceActions <= b.serviceActions
    && a.endpointActions <= b.endpointActions
    && a.usedServices <= b.usedServices
    && a.usedEps <= b.usedEps
    && (b.changed <==> a.changed || |a.serviceActions| < |b.serviceActions| || |a.endpointActions| < |b.endpointActions|)
    && (checkMode ==> b.gw == a.gw)
  }

  /** No record appended between `a` and `b` is a delete. */
  ghost predicate AddsNoDeletes(a: Acc, b: Acc) {
    && (forall k :: |a.serviceActions| <= k < |b.serviceActions| ==> !b.serviceActions[k].ServiceDelete?)
    && (forall k :: |a.endpointActions| <= k < |b.endpointActions| ==> !b.endpointActions[k].EndpointDelete?)
  }

  lemma ExtendsTrans(a: Acc, b: Acc, c: Acc, checkMode: bool)
    requires Extends(a, b, checkMode) && Extends(b, c, checkMode)
    ensures Extends(a, c, checkMode)
  {
  }

  lemma AddsNoDeletesTrans(a: Acc, b: Acc, c: Acc, checkMode: bool)
    requires Extends(a, b, checkMode) && Extends(b, c, checkMode)
    requires AddsNoDeletes(a, b) && AddsNoDeletes(b, c)
    ensures AddsNoDeletes(a, c)
  {
    forall k | |a.serviceActions| <= k < |c.serviceActions|
      ensures !c.serviceActions[k].ServiceDelete?
    {
      if k < |b.serviceActions| { assert c.serviceActions[k] == b.serviceActions[k]; }
    }
    forall k | |a.endpointActions| <= k < |c.endpointActions|
      ensures !c.endpointActions[k].EndpointDelete?
    {
      if k < |b.endpointActions| { assert c.endpointActions[k] == b.endpointActions[k]; }
    }
  }

  /** Grows: Extends and AddsNoDeletes together. */
  ghost predicate Grows(a: Acc, b: Acc, checkMode: bool) {
    Extends(a, b, checkMode) && AddsNoDeletes(a, b)
  }

  lemma GrowsTrans(a: Acc, b: Acc, c: Acc, checkMode: bool)
    requires Grows(a, b, checkMode) && Grows(b, c, checkMode)
    ensures Grows(a, c, checkMode)
  {
    ExtendsTrans(a, b, c, checkMode);
    AddsNoDeletesTrans(a, b, c, checkMode);
  }

  lemma EndpointStepGrows(a: Acc, sc: Scope, region: Option<string>, tep: EndpointSpec)
    requires sc.Ok()
    ensures Grows(a, EndpointStep(a, sc, region, tep), sc.checkMode)
  {
  }

  lemma {:induction false} EndpointsFoldGrows(a: Acc, sc: Scope, region: Option<string>, teps: seq<EndpointSpec>)
    requires sc.Ok()
    ensures Grows(a, EndpointsFold(a, sc, region, teps), sc.checkMode)
    decreases |teps|
  {
    if a.error.None? && teps != [] {
      var a1 := EndpointStep(a, sc, region, teps[0]);
      EndpointStepGrows(a, sc, region, teps[0]);
      EndpointsFoldGrows(a1, sc, region, teps[1..]);
      GrowsTrans(a, a1, EndpointsFold(a1, sc, region, teps[1..]), sc.checkMode);
    }
  }

  lemma {:induction false} RegionsFoldGrows(a: Acc, sc: Scope, regions: seq<(Option<string>, seq<EndpointSpec>)>)
    requires sc.Ok()
    ensures Grows(a, RegionsFold(a, sc, regions), sc.checkMode)
    decreases |regions|
  {
    if a.error.None? && regions != [] {
      var a1 := EndpointsFold(a, sc, regions[0].0, regions[0].1);
      EndpointsFoldGrows(a, sc, regions[0].0, regions[0].1);
      RegionsFoldGrows(a1, sc, regions[1..]);
      GrowsTrans(a, a1, RegionsFold(a1, sc, regions[1..]), sc.checkMode);
    }
  }

  lemma ServiceStepGrows(a: Acc, p: Params, byType: map<string, Service>, srvType: string, target: ServiceSpec)
    ensures Grows(a, ServiceStep(a, p, byType, srvType, target), p.checkMode)
  {
    if !Excluded(p, srvType) && HasTargetEnv(p, target) {
      var env := target.environments[p.targetEnv].value;
      var (a1, current) := ResolveService(a, p.checkMode, byType, srvType,
                                          target.name, target.description, target.enabled.GetOr(true));
      assert Grows(a, a1, p.checkMode);
      match current
      case None =>
        var sc := Scope(p.checkMode, srvType, None, []);
        RegionsFoldGrows(a1, sc, env.endpoints);
        GrowsTrans(a, a1, RegionsFold(a1, sc, env.endpoints), p.checkMode);
      case Some(s) =>
        var a2 := a1.(usedServices := a1.usedServices + {s.id});
        var sc := Scope(p.checkMode, srvType, Some(s.id), a2.gw.EndpointsOf(Some(s.id)));
        RegionsFoldGrows(a2, sc, env.endpoints);
        GrowsTrans(a, a1, a2, p.checkMode);
        GrowsTrans(a, a2, RegionsFold(a2, sc, env.endpoints), p.checkMode);
    }
  }

  lemma {:induction false} ServicesFoldGrows(a: Acc, p: Params, byType: map<string, Service>, items: seq<(string, ServiceSpec)>)
    ensures Grows(a, ServicesFold(a, p, byType, items), p.checkMode)
    decreases |items|
  {
    if a.error.None? && items != [] {
      var a1 := ServiceStep(a, p, byType, items[0].0, items[0].1);
      ServiceStepGrows(a, p, byType, items[0].0, items[0].1);
      ServicesFoldGrows(a1, p, byType, items[1..]);
      GrowsTrans(a, a1, ServicesFold(a1, p, byType, items[1..]), p.checkMode);
    }
  }

  lemma {:induction false} PruneEndpointsExtends(a: Acc, checkMode: bool, eps: seq<Endpoint>)
    ensures Extends(a, PruneEndpoints(a, checkMode, eps), checkMode)
    decreases |eps|
  {
    if eps != [] {
      var a1 := PruneEndpoint(a, checkMode, eps[0]);
      PruneEndpointsExtends(a1, checkMode, eps[1..]);
      ExtendsTrans(a, a1, PruneEndpoints(a1, checkMode, eps[1..]), checkMode);
    }
  }

  lemma {:induction false} PruneServicesExtends(a: Acc, checkMode: bool, services: seq<Service>)
    ensures Extends(a, PruneServices(a, checkMode, services), checkMode)
    decreases |services|
  {
    if services != [] {
      var a1 := PruneService(a, checkMode, services[0]);
      PruneServicesExtends(a1, checkMode, services[1..]);
      ExtendsTrans(a, a1, PruneServices(a1, checkMode, services[1..]), checkMode);
    }
  }

  /** The whole run extends its start, and the services phase appends no delete. */
  lemma RunGrows(gw0: GwState, data: Desired, p: Params)
    ensures Grows(Start(gw0), ServicesPhase(gw0, data, p), p.checkMode)
    ensures Extends(Start(gw0), Reconcile(gw0, data, p), p.checkMode)
  {
    var a1 := ServicesPhase(gw0, data, p);
    ServicesFoldGrows(Start(gw0), p, ByType(gw0.services), data.services);
    if a1.error.None? && PruneEnabled(p) {
      var a2 := PruneEndpoints(a1, p.checkMode, a1.gw.endpoints);
      PruneEndpointsExtends(a1, p.checkMode, a1.gw.endpoints);
      PruneServicesExtends(a2, p.checkMode, gw0.services);
      ExtendsTrans(Start(gw0), a1, a2, p.checkMode);
      ExtendsTrans(Start(gw0), a2, PruneServices(a2, p.checkMode, gw0.services), p.checkMode);
    }
  }

  // ---------------------------------------------------------------------
  // Whole-run properties

  /** `changed` is true exactly when some action record was appended. */
  lemma ChangedIffSomeAction(gw0: GwState, data: Desired, p: Params)
    ensures var r := Reconcile(gw0, data, p);
            r.changed <==> |r.serviceActions| > 0 || |r.endpointActions| > 0
  {
    RunGrows(gw0, data, p);
  }

  /** In check mode no create, update or delete call reaches the identity API. */
  lemma CheckModeMakesNoCalls(gw0: GwState, data: Desired, p: Params)
    requires p.checkMode
    ensures Reconcile(gw0, data, p).gw == gw0
  {
    RunGrows(gw0, data, p);
  }

  /** With a non-empty `limit_services` or with `skip_delete`, no delete record is produced. */
  lemma NoDeletesWithoutPruning(gw0: GwState, data: Desired, p: Params)
    requires |p.limitServices| > 0 || p.skipDelete
    ensures var r := Reconcile(gw0, data, p);
            && (forall a :: a in r.serviceActions ==> !a.ServiceDelete?)
            && (forall a :: a in r.endpointActions ==> !a.EndpointDelete?)
  {
    RunGrows(gw0, data, p);
  }
  // ---------------------------------------------------------------------
  // Pruning

  /** The listed endpoints whose id was not claimed, in listing order. */
  function UnclaimedEndpoints(eps: seq<Endpoint>, used: set<Id>): (r: seq<Endpoint>)
    ensures forall e :: e in r <==> e in eps && e.id !in used
  {
    Filter((e: Endpoint) => e.id !in used, eps)
  }

  /** The snapshot services whose id was not claimed, in snapshot order. */
  function UnclaimedServices(services: seq<Service>, used: set<Id>): (r: seq<Service>)
    ensures forall s :: s in r <==> s in services && s.id !in used
  {
    Filter((s: Service) => s.id !in used, services)
  }

  /** The unclaimed endpoints of a listing: its head when unclaimed, then those of its tail. */
  lemma UnclaimedEndpointsStep(eps: seq<Endpoint>, used: set<Id>)
    requires eps != []
    ensures UnclaimedEndpoints(eps, used)
            == (if eps[0].id !in used then [eps[0]] else []) + UnclaimedEndpoints(eps[1..], used)
  {
  }

  /** The unclaimed services of a snapshot: its head when unclaimed, then those of its tail. */
  lemma UnclaimedServicesStep(services: seq<Service>, used: set<Id>)
    requires services != []
    ensures UnclaimedServices(services, used)
            == (if services[0].id !in used then [services[0]] else []) + UnclaimedServices(services[1..], used)
  {
  }

  /** One delete record per endpoint, carrying its values before deletion. */
  function EndpointDeletes(eps: seq<Endpoint>): seq<EndpointAction> {
    if eps == [] then [] else [EndpointDelete(eps[0].id, eps[0].url, eps[0].enabled)] + EndpointDeletes(eps[1..])
  }

  function EndpointDeleteCalls(eps: seq<Endpoint>): seq<Call> {
    if eps == [] then [] else [DeleteEndpointCall(eps[0].id)] + EndpointDeleteCalls(eps[1..])
  }

  /** One delete record per service, carrying its values before deletion. */
  function ServiceDeletes(services: seq<Service>): seq<ServiceAction> {
    if services == [] then []
    else [ServiceDelete(services[0].srvType, services[0].id, services[0].name, services[0].description, services[0].enabled)]
         + ServiceDeletes(services[1..])
  }

  function ServiceDeleteCalls(services: seq<Service>): seq<Call> {
    if services == [] then [] else [DeleteServiceCall(services[0].id)] + ServiceDeleteCalls(services[1..])
  }

  /** The endpoint pass records exactly the unclaimed listed endpoints, in listing order. */
  lemma {:induction false} PruneEndpointsDeletesUnclaimed(a: Acc, checkMode: bool, eps: seq<Endpoint>)
    ensures var b := PruneEndpoints(a, checkMode, eps);
            && b.endpointActions == a.endpointActions + EndpointDeletes(UnclaimedEndpoints(eps, a.usedEps))
            && b.serviceActions == a.serviceActions
            && b.usedEps == a.usedEps && b.usedServices == a.usedServices && b.error == a.error
    decreases |eps|
  {
    if eps != [] {
      var a1 := PruneEndpoint(a, checkMode, eps[0]);
      assert a1.usedEps == a.usedEps && a1.usedServices == a.usedServices && a1.error == a.error;
      assert a1.serviceActions == a.serviceActions;
      PruneEndpointsDeletesUnclaimed(a1, checkMode, eps[1..]);
      UnclaimedEndpointsStep(eps, a.usedEps);
      var b := PruneEndpoints(a, checkMode, eps);
      assert b == PruneEndpoints(a1, checkMode, eps[1..]);
      var rest := UnclaimedEndpoints(eps[1..], a.usedEps);
      assert b.endpointActions == a1.endpointActions + EndpointDeletes(rest);
      if eps[0].id !in a.usedEps {
        var d := EndpointDelete(eps[0].id, eps[0].url, eps[0].enabled);
        assert a1.endpointActions == a.endpointActions + [d];
        assert UnclaimedEndpoints(eps, a.usedEps) == [eps[0]] + rest;
        assert EndpointDeletes([eps[0]] + rest) == [d] + EndpointDeletes(rest);
        assert b.endpointActions == a.endpointActions + ([d] + EndpointDeletes(rest));
      } else {
        assert a1 == a;
        assert UnclaimedEndpoints(eps, a.usedEps) == rest;
      }
    }
  }

  /** Outside check mode, the endpoint pass calls delete for exactly those endpoints, in order. */
  lemma {:induction false} PruneEndpointsCalls(a: Acc, eps: seq<Endpoint>)
    ensures var b := PruneEndpoints(a, false, eps);
            b.gw.calls == a.gw.calls + EndpointDeleteCalls(UnclaimedEndpoints(eps, a.usedEps))
    decreases |eps|
  {
    if eps != [] {
      var a1 := PruneEndpoint(a, false, eps[0]);
      assert a1.usedEps == a.usedEps;
      PruneEndpointsCalls(a1, eps[1..]);
      UnclaimedEndpointsStep(eps, a.usedEps);
      var rest := UnclaimedEndpoints(eps[1..], a.usedEps);
      if eps[0].id !in a.usedEps {
        assert a1.gw.calls == a.gw.calls + [DeleteEndpointCall(eps[0].id)] by {
          assert a1.gw == a.gw.DeleteEndpoint(eps[0].id);
        }
        assert UnclaimedEndpoints(eps, a.usedEps) == [eps[0]] + rest;
        assert EndpointDeleteCalls([eps[0]] + rest) == [DeleteEndpointCall(eps[0].id)] + EndpointDeleteCalls(rest);
      } else {
        assert a1 == a;
      }
    }
  }

  /** The service pass records exactly the unclaimed snapshot services, in snapshot order. */
  lemma {:induction false} PruneServicesDeletesUnclaimed(a: Acc, checkMode: bool, services: seq<Service>)
    ensures var b := PruneServices(a, checkMode, services);
            && b.serviceActions == a.serviceActions + ServiceDeletes(UnclaimedServices(services, a.usedServices))
            && b.endpointActions == a.endpointActions
            && b.usedEps == a.usedEps && b.usedServices == a.usedServices && b.error == a.error
    decreases |services|
  {
    if services != [] {
      var s0 := services[0];
      var a1 := PruneService(a, checkMode, s0);
      assert a1.usedEps == a.usedEps && a1.usedServices == a.usedServices && a1.error == a.error;
      assert a1.endpointActions == a.endpointActions;
      PruneServicesDeletesUnclaimed(a1, checkMode, services[1..]);
      UnclaimedServicesStep(services, a.usedServices);
      var b := PruneServices(a, checkMode, services);
      assert b == PruneServices(a1, checkMode, services[1..]);
      var rest := UnclaimedServices(services[1..], a.usedServices);
      assert b.serviceActions == a1.serviceActions + ServiceDeletes(rest);
      if s0.id !in a.usedServices {
        var d := ServiceDelete(s0.srvType, s0.id, s0.name, s0.description, s0.enabled);
        assert a1.serviceActions == a.serviceActions + [d];
        assert UnclaimedServices(services, a.usedServices) == [s0] + rest;
        assert ServiceDeletes([s0] + rest) == [d] + ServiceDeletes(rest);
        assert b.serviceActions == a.serviceActions + ([d] + ServiceDeletes(rest));
      } else {
        assert a1 == a;
        assert UnclaimedServices(services, a.usedServices) == rest;
      }
    }
  }

  /** Outside check mode, the service pass calls delete for exactly those services, in order. */
  lemma {:induction false} PruneServicesCalls(a: Acc, services: seq<Service>)
    ensures var b := PruneServices(a, false, services);
            b.gw.calls == a.gw.calls + ServiceDeleteCalls(UnclaimedServices(services, a.usedServices))
    decreases |services|
  {
    if services != [] {
      var s0 := services[0];
      var a1 := PruneService(a, false, s0);
      assert a1.usedServices == a.usedServices;
      PruneServicesCalls(a1, services[1..]);
      UnclaimedServicesStep(services, a.usedServices);
      var rest := UnclaimedServices(services[1..], a.usedServices);
      if s0.id !in a.usedServices {
        assert a1.gw.calls == a.gw.calls + [DeleteServiceCall(s0.id)] by {
          assert a1.gw == a.gw.DeleteService(s0.id);
        }
        assert UnclaimedServices(services, a.usedServices) == [s0] + rest;
        assert ServiceDeleteCalls([s0] + rest) == [DeleteServiceCall(s0.id)] + ServiceDeleteCalls(rest);
      } else {
        assert a1 == a;
        assert UnclaimedServices(services, a.usedServices) == rest;
      }
    }
  }

  /**
   * When pruning runs, the delete records are exactly: one per endpoint of
   * the fresh listing whose id was not claimed, and one per service of the
   * start snapshot whose id was not claimed.  Outside check mode every
   * endpoint deletion reaches the identity API before any service deletion.
   */
  lemma PruningDeletesExactlyUnclaimed(gw0: GwState, data: Desired, p: Params)
    requires PruneEnabled(p) && ServicesPhase(gw0, data, p).error.None?
    ensures var a1 := ServicesPhase(gw0, data, p);
            var r := Reconcile(gw0, data, p);
            var eps := UnclaimedEndpoints(a1.gw.endpoints, a1.usedEps);
            var srvs := UnclaimedServices(gw0.services, a1.usedServices);
            && r.endpointActions == a1.endpointActions + EndpointDeletes(eps)
            && r.serviceActions == a1.serviceActions + ServiceDeletes(srvs)
            && (!p.checkMode ==> r.gw.calls == a1.gw.calls + EndpointDeleteCalls(eps) + ServiceDeleteCalls(srvs))
  {
    var a1 := ServicesPhase(gw0, data, p);
    PruneEndpointsDeletesUnclaimed(a1, p.checkMode, a1.gw.endpoints);
    var a2 := PruneEndpoints(a1, p.checkMode, a1.gw.endpoints);
    PruneServicesDeletesUnclaimed(a2, p.checkMode, gw0.services);
    if !p.checkMode {
      PruneEndpointsCalls(a1, a1.gw.endpoints);
      PruneServicesCalls(a2, gw0.services);
    }
  }

  // ---------------------------------------------------------------------
  // Check mode and a service that does not exist yet

  predicate UrlsPresent(teps: seq<EndpointSpec>) {
    forall t :: t in teps ==> t.url.Some?
  }

  predicate RegionUrlsPresent(regions: seq<(Option<string>, seq<EndpointSpec>)>) {
    forall r :: r in regions ==> UrlsPresent(r.1)
  }

  /** One create record per desired endpoint of one region key, with defaults applied. */
  function EndpointCreates(srvType: string, region: Option<string>, teps: seq<EndpointSpec>): seq<EndpointAction>
    requires UrlsPresent(teps)
  {
    if teps == [] then []
    else [EndpointCreate(srvType, region, teps[0].interface.GetOr(DefaultInterface), teps[0].url.value, teps[0].enabled.GetOr(true))]
         + EndpointCreates(srvType, region, teps[1..])
  }

  /** One create record per desired endpoint of an environment, in data-file order. */
  function RegionCreates(srvType: string, regions: seq<(Option<string>, seq<EndpointSpec>)>): seq<EndpointAction>
    requires RegionUrlsPresent(regions)
  {
    if regions == [] then []
    else EndpointCreates(srvType, regions[0].0, regions[0].1) + RegionCreates(srvType, regions[1..])
  }

  lemma {:induction false} EndpointsFoldWithoutService(a: Acc, sc: Scope, region: Option<string>, teps: seq<EndpointSpec>)
    requires sc == Scope(true, sc.srvType, None, []) && a.error.None? && UrlsPresent(teps)
    ensures EndpointsFold(a, sc, region, teps)
            == a.(changed := a.changed || |teps| > 0,
                  endpointActions := a.endpointActions + EndpointCreates(sc.srvType, region, teps))
    decreases |teps|
  {
    if teps != [] {
      var a1 := EndpointStep(a, sc, region, teps[0]);
      EndpointsFoldWithoutService(a1, sc, region, teps[1..]);
    }
  }

  lemma {:induction false} RegionsFoldWithoutService(a: Acc, sc: Scope, regions: seq<(Option<string>, seq<EndpointSpec>)>)
    requires sc == Scope(true, sc.srvType, None, []) && a.error.None? && RegionUrlsPresent(regions)
    ensures var creates := RegionCreates(sc.srvType, regions);
            RegionsFold(a, sc, regions)
            == a.(changed := a.changed || |creates| > 0, endpointActions := a.endpointActions + creates)
    decreases |regions|
  {
    if regions != [] {
      var a1 := EndpointsFold(a, sc, regions[0].0, regions[0].1);
      EndpointsFoldWithoutService(a, sc, regions[0].0, regions[0].1);
      RegionsFoldWithoutService(a1, sc, regions[1..]);
    }
  }

  /**
   * In check mode a service that has to be created gets no id: it is not
   * claimed, its endpoint list is taken as empty, every desired endpoint
   * becomes a create record, none is claimed and the identity API is left
   * alone.
   */
  lemma CheckModeNewServiceClaimsNothing(a: Acc, p: Params, byType: map<string, Service>, srvType: string, target: ServiceSpec)
    requires p.checkMode && a.error.None?
    requires !Excluded(p, srvType) && HasTargetEnv(p, target)
    requires !(srvType != "" && srvType in byType)
    requires RegionUrlsPresent(target.environments[p.targetEnv].value.endpoints)
    ensures ServiceStep(a, p, byType, srvType, target)
            == a.(changed := true,
                  serviceActions := a.serviceActions + [ServiceCreate(srvType, target.name, target.enabled.GetOr(true), target.description)],
                  endpointActions := a.endpointActions + RegionCreates(srvType, target.environments[p.targetEnv].value.endpoints))
  {
    var env := target.environments[p.targetEnv].value;
    var (a1, current) := ResolveService(a, p.checkMode, byType, srvType,
                                        target.name, target.description, target.enabled.GetOr(true));
    RegionsFoldWithoutService(a1, Scope(true, srvType, None, []), env.endpoints);
  }
}
