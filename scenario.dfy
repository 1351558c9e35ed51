/**
 * A worked run: a catalog with one `compute` service and one public
 * endpoint without a region, applied to an empty identity API and then
 * applied again to the result.
 */
module Scenario {
  import opened Wrappers
  import opened Catalog
  import opened Gateway
  import opened Plan

  function ComputeCatalog(): Desired {
    var ep := EndpointSpec(Some("public"), Some(ComputeUrl), None);
    var env := EnvironmentSpec([(Some(""), [ep])]);
    Desired([("compute", ServiceSpec(Some("nova"), None, None, map["prod" := Some(env)]))])
  }

  const ComputeUrl := "https://compute.example.com"

  /** A run outside check mode, with pruning enabled. */
  function Applied(): Params {
    Params("prod", false, [], false)
  }

  /** The identity API after the first run against an empty one. */
  function Created(): GwState {
    GwState([Service(0, "compute", Some("nova"), None, true)],
            [Endpoint(1, 0, Some(""), "public", ComputeUrl, true)],
            2,
            [CreateServiceCall("compute", Some("nova"), None, true),
             CreateEndpointCall(0, "public", ComputeUrl, Some(""), true)])
  }

  /** The one desired endpoint of the compute catalog. */
  function ComputeEndpoint(): EndpointSpec {
    EndpointSpec(Some("public"), Some(ComputeUrl), None)
  }

  /**
   * For the compute catalog the services phase is one endpoint step, under
   * the compute service once it is resolved and claimed.
   */
  lemma ComputePhase(gw: GwState, checkMode: bool)
    ensures var res := ResolveService(Start(gw), checkMode, ByType(gw.services), "compute", Some("nova"), None, true);
            res.1.Some? ==>
              var id := res.1.value.id;
              var a2 := res.0.(usedServices := res.0.usedServices + {id});
              ServicesPhase(gw, ComputeCatalog(), Params("prod", false, [], checkMode))
              == EndpointStep(a2, Scope(checkMode, "compute", Some(id), a2.gw.EndpointsOf(Some(id))), Some(""), ComputeEndpoint())
  {
    var p := Params("prod", false, [], checkMode);
    var target := ComputeCatalog().services[0].1;
    var res := ResolveService(Start(gw), checkMode, ByType(gw.services), "compute", Some("nova"), None, true);
    if res.1.Some? {
      var id := res.1.value.id;
      var a2 := res.0.(usedServices := res.0.usedServices + {id});
      var sc := Scope(checkMode, "compute", Some(id), a2.gw.EndpointsOf(Some(id)));
      assert res.0.error == None;
      OneEndpointRegions(a2, sc, Some(""), ComputeEndpoint());
      assert !Excluded(p, "compute") && HasTargetEnv(p, target);
      assert target.environments["prod"].value.endpoints == [(Some(""), [ComputeEndpoint()])];
      assert target.enabled.GetOr(true) && target.name == Some("nova") && target.description == None;
      assert ServiceStep(Start(gw), p, ByType(gw.services), "compute", target) == RegionsFold(a2, sc, [(Some(""), [ComputeEndpoint()])]);
    }
  }

  /** One region holding one endpoint with a url is just that endpoint's step. */
  lemma OneEndpointRegions(a: Acc, sc: Scope, region: Option<string>, tep: EndpointSpec)
    requires sc.Ok() && a.error == None && tep.url.Some?
    ensures RegionsFold(a, sc, [(region, [tep])]) == EndpointStep(a, sc, region, tep)
  {
    var b := EndpointStep(a, sc, region, tep);
    assert b.error == None;
    assert EndpointsFold(a, sc, region, [tep]) == b;
  }

  /** Against an empty identity API the service and its endpoint are created and claimed. */
  lemma FirstRunCreates()
    ensures Reconcile(GwState([], [], 0, []), ComputeCatalog(), Applied())
         == Acc(Created(), {0}, {1},
                [ServiceCreate("compute", Some("nova"), true, None)],
                [EndpointCreate("compute", Some(""), "public", ComputeUrl, true)], true, None)
  {
    var gw := GwState([], [], 0, []);
    var a0 := Start(gw);
    var created := a0.gw.CreateService("compute", Some("nova"), None, true);
    var a1 := a0.(gw := created.0, changed := true,
                  serviceActions := [ServiceCreate("compute", Some("nova"), true, None)]);
    assert ByType([]) == map[];
    var rs := ResolveService(a0, false, map[], "compute", Some("nova"), None, true);
    assert rs.1 == Some(created.1);
    assert rs.0.gw == a1.gw;
    assert rs.0.serviceActions == a1.serviceActions;
    assert rs.0 == a1;
    ComputePhase(gw, false);
    var a2 := a1.(usedServices := {0});
    assert a2.gw.EndpointsOf(Some(0)) == [];
    assert FirstMatch([], Some(""), "public") == None;
    var a3 := EndpointStep(a2, Scope(false, "compute", Some(0), []), Some(""), ComputeEndpoint());
    assert a3 == Acc(Created(), {0}, {1}, a1.serviceActions,
                     [EndpointCreate("compute", Some(""), "public", ComputeUrl, true)], true, None);
    assert ServicesPhase(gw, ComputeCatalog(), Applied()) == a3;
    assert PruneEndpoints(a3, false, a3.gw.endpoints) == a3;
  }

  /** Against the result of the first run nothing differs and nothing is left unclaimed. */
  lemma SecondRunIsQuiet()
    ensures Reconcile(Created(), ComputeCatalog(), Applied())
         == Acc(Created(), {0}, {1}, [], [], false, None)
  {
    var srv := Service(0, "compute", Some("nova"), None, true);
    var ep := Endpoint(1, 0, Some(""), "public", ComputeUrl, true);
    var a0 := Start(Created());
    assert ByType([srv]) == map["compute" := srv] by {
      assert [srv][..0] == [];
    }
    assert !SrvUpdateNecessary(srv, Some("nova"), None, true);
    assert ResolveService(a0, false, map["compute" := srv], "compute", Some("nova"), None, true) == (a0, Some(srv));
    ComputePhase(Created(), false);
    var a2 := a0.(usedServices := {0});
    assert a2.gw.EndpointsOf(Some(0)) == [ep];
    assert FirstMatch([ep], Some(""), "public") == Some(0);
    var a3 := a2.(usedEps := {1});
    assert EndpointStep(a2, Scope(false, "compute", Some(0), [ep]), Some(""), ComputeEndpoint()) == a3;
    assert ServicesPhase(Created(), ComputeCatalog(), Applied()) == a3;
    assert PruneEndpoints(a3, false, [ep]) == a3;
    assert PruneServices(a3, false, [srv]) == a3;
  }

  /** The first run creates the service and its endpoint; the second finds nothing to do. */
  lemma SecondRunChangesNothing()
    ensures var first := Reconcile(GwState([], [], 0, []), ComputeCatalog(), Applied());
            && first.serviceActions == [ServiceCreate("compute", Some("nova"), true, None)]
            && first.endpointActions == [EndpointCreate("compute", Some(""), "public", ComputeUrl, true)]
            && first.changed
            && var second := Reconcile(first.gw, ComputeCatalog(), Applied());
               second.serviceActions == [] && second.endpointActions == [] && !second.changed
  {
    FirstRunCreates();
    SecondRunIsQuiet();
  }

  /**
   * An identity API holding the `compute` service and two public endpoints
   * without a region whose url is out of date.
   */
  function DuplicatedEndpoints(): GwState {
    var srv := Service(1, "compute", Some("nova"), None, true);
    var stale := "https://old.example.com";
    GwState([srv], [Endpoint(2, 1, None, "public", stale, true), Endpoint(3, 1, None, "public", stale, true)], 4, [])
  }

  /** The services phase over the duplicates: the first one is updated and claimed. */
  lemma DuplicatesPhase(checkMode: bool)
    ensures ServicesPhase(DuplicatedEndpoints(), ComputeCatalog(), Params("prod", false, [], checkMode))
            == DuplicatesPhaseResult(checkMode)
  {
    var gw := DuplicatedEndpoints();
    DuplicatesResolved(checkMode);
    ComputePhase(gw, checkMode);
    DuplicatesFirstMatched(checkMode);
    FirstDuplicateUpdated();
  }

  /**
   * Where the services phase over the duplicates ends: the compute service
   * and the first duplicate claimed, one update record, and outside check
   * mode the first duplicate rewritten.
   */
  function DuplicatesPhaseResult(checkMode: bool): Acc {
    var gw := DuplicatedEndpoints();
    Acc(if checkMode then gw
        else gw.(endpoints := [gw.endpoints[0].(url := ComputeUrl), gw.endpoints[1]],
                 calls := [UpdateEndpointCall(2, ComputeUrl, true)]),
        {1}, {2}, [],
        [EndpointUpdate("compute", 2, "public", "https://old.example.com", ComputeUrl, true, true)], true, None)
  }

  /** The compute service of the duplicates needs no update and is claimed as it is. */
  lemma DuplicatesResolved(checkMode: bool)
    ensures var gw := DuplicatedEndpoints();
            ResolveService(Start(gw), checkMode, ByType(gw.services), "compute", Some("nova"), None, true)
            == (Start(gw), Some(gw.services[0]))
  {
    var gw := DuplicatedEndpoints();
    var srv := gw.services[0];
    assert ByType([srv]) == map["compute" := srv] by {
      assert [srv][..0] == [];
    }
    assert !SrvUpdateNecessary(srv, Some("nova"), None, true);
  }

  /** The desired endpoint matches the first duplicate and updates it. */
  lemma DuplicatesFirstMatched(checkMode: bool)
    ensures var gw := DuplicatedEndpoints();
            var a2 := Start(gw).(usedServices := {1});
            var rec := EndpointUpdate("compute", 2, "public", "https://old.example.com", ComputeUrl, true, true);
            var gw' := if checkMode then gw else gw.UpdateEndpoint(gw.endpoints[0], ComputeUrl, true).0;
            && a2.gw.EndpointsOf(Some(1)) == gw.endpoints
            && EndpointStep(a2, Scope(checkMode, "compute", Some(1), gw.endpoints), Some(""), ComputeEndpoint())
               == a2.(gw := gw', changed := true, endpointActions := [rec], usedEps := {2})
  {
    var gw := DuplicatedEndpoints();
    var e2 := gw.endpoints[0];
    assert Start(gw).gw.EndpointsOf(Some(1)) == gw.endpoints;
    assert Matches(e2, Some(""), "public");
    assert FirstMatch(gw.endpoints, Some(""), "public") == Some(0);
    assert EpUpdateNecessary(e2, ComputeUrl, true);
  }

  /**
   * First match wins: only the first of the two duplicates is updated and
   * claimed, the second is pruned; in check mode the same records come out
   * and no call is made.
   */
  lemma FirstDuplicateWins()
    ensures var applied := Reconcile(DuplicatedEndpoints(), ComputeCatalog(), Params("prod", false, [], false));
            && applied.serviceActions == []
            && applied.endpointActions == [
                 EndpointUpdate("compute", 2, "public", "https://old.example.com", ComputeUrl, true, true),
                 EndpointDelete(3, "https://old.example.com", true)]
            && applied.gw.calls == [UpdateEndpointCall(2, ComputeUrl, true), DeleteEndpointCall(3)]
    ensures var preview := Reconcile(DuplicatedEndpoints(), ComputeCatalog(), Params("prod", false, [], true));
            && preview.serviceActions == []
            && preview.endpointActions == [
                 EndpointUpdate("compute", 2, "public", "https://old.example.com", ComputeUrl, true, true),
                 EndpointDelete(3, "https://old.example.com", true)]
            && preview.gw == DuplicatedEndpoints()
  {
    DuplicatesApplied();
    DuplicatesPreviewed();
  }

  /** The real run on the duplicates: update the first, delete the second. */
  lemma DuplicatesApplied()
    ensures var applied := Reconcile(DuplicatedEndpoints(), ComputeCatalog(), Params("prod", false, [], false));
            && applied.serviceActions == []
            && applied.endpointActions == [
                 EndpointUpdate("compute", 2, "public", "https://old.example.com", ComputeUrl, true, true),
                 EndpointDelete(3, "https://old.example.com", true)]
            && applied.gw.calls == [UpdateEndpointCall(2, ComputeUrl, true), DeleteEndpointCall(3)]
  {
    DuplicatesPhase(false);
    PrunedAfterPhase(DuplicatedEndpoints(), ComputeCatalog(), Params("prod", false, [], false), DuplicatesPhaseResult(false));
    SecondDuplicatePruned();
  }

  /** A run whose services phase ended in `a` without error, with pruning on, is `a` pruned. */
  lemma PrunedAfterPhase(gw0: GwState, data: Desired, p: Params, a: Acc)
    requires ServicesPhase(gw0, data, p) == a && a.error.None? && PruneEnabled(p)
    ensures Reconcile(gw0, data, p) == PruneServices(PruneEndpoints(a, p.checkMode, a.gw.endpoints), p.checkMode, gw0.services)
  {
  }

  /** Pruning after that phase deletes the second duplicate and nothing else. */
  lemma SecondDuplicatePruned()
    ensures var a := DuplicatesPhaseResult(false);
            var c := PruneServices(PruneEndpoints(a, false, a.gw.endpoints), false, DuplicatedEndpoints().services);
            && c.serviceActions == []
            && c.endpointActions == a.endpointActions + [EndpointDelete(3, "https://old.example.com", true)]
            && c.gw.calls == a.gw.calls + [DeleteEndpointCall(3)]
  {
    var a := DuplicatesPhaseResult(false);
    var e3 := a.gw.endpoints[1];
    assert PruneEndpoint(a, false, a.gw.endpoints[0]) == a;
    var c := PruneEndpoint(a, false, e3);
    assert PruneEndpoints(a, false, a.gw.endpoints) == c;
    assert PruneServices(c, false, DuplicatedEndpoints().services) == c;
  }

  /** The identity API after the real run updated the first duplicate. */
  lemma FirstDuplicateUpdated()
    ensures var gw := DuplicatedEndpoints();
            gw.UpdateEndpoint(gw.endpoints[0], ComputeUrl, true).0
            == gw.(endpoints := [gw.endpoints[0].(url := ComputeUrl), gw.endpoints[1]],
                   calls := [UpdateEndpointCall(2, ComputeUrl, true)])
  {
    var gw := DuplicatedEndpoints();
    var updated := gw.UpdateEndpoint(gw.endpoints[0], ComputeUrl, true).0;
    assert |updated.endpoints| == 2;
    assert updated.endpoints[0] == gw.endpoints[0].(url := ComputeUrl);
    assert updated.endpoints[1] == gw.endpoints[1];
  }

  /** The preview on the duplicates: the same records, no call. */
  lemma DuplicatesPreviewed()
    ensures var preview := Reconcile(DuplicatedEndpoints(), ComputeCatalog(), Params("prod", false, [], true));
            && preview.serviceActions == []
            && preview.endpointActions == [
                 EndpointUpdate("compute", 2, "public", "https://old.example.com", ComputeUrl, true, true),
                 EndpointDelete(3, "https://old.example.com", true)]
            && preview.gw == DuplicatedEndpoints()
  {
    var gw := DuplicatedEndpoints();
    var q := DuplicatesPhaseResult(true);
    DuplicatesPhase(true);
    PrunedAfterPhase(gw, ComputeCatalog(), Params("prod", false, [], true), q);
    var qc := PruneEndpoint(q, true, gw.endpoints[1]);
    assert PruneEndpoint(q, true, gw.endpoints[0]) == q;
    assert PruneEndpoints(q, true, q.gw.endpoints) == qc;
    assert PruneServices(qc, true, gw.services) == qc;
  }
}
