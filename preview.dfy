/**
 * Check mode against a real run.  Run on the same identity API and the same
 * desired catalog, a preview (Ansible's check mode) and a real run agree on
 * the error, on `changed`, on every endpoint record and on every service
 * record except the `current_*` fields of a service update, which a real
 * run takes from the update's response.
 *
 * The proof follows both runs side by side.  `Mirrors` relates the real
 * accumulator to the preview one: the preview never touches the identity
 * API; the real run claims every id the preview claims, and more only for
 * ids it created itself; every endpoint it changed in place was claimed by
 * the preview too, under a service the preview claimed.
 */
module Preview {
  import opened Wrappers
  import opened Catalog
  import opened Gateway
  import opened Plan
  import opened Properties

  /** A service record with the fields that come from the update's response blanked. */
  function Intent(a: ServiceAction): ServiceAction {
    match a
    case ServiceUpdate(t, id, _, newName, _, newEnabled, _, newDescription) =>
      ServiceUpdate(t, id, None, newName, false, newEnabled, None, newDescription)
    case _ => a
  }

  /** Two lists of service records that agree except for the `current_*` fields of updates. */
  predicate SameIntent(xs: seq<ServiceAction>, ys: seq<ServiceAction>) {
    |xs| == |ys| && forall k :: 0 <= k < |xs| ==> Intent(xs[k]) == Intent(ys[k])
  }

  /** Distinct service types, as the keys of the data file's `services` mapping are. */
  predicate DistinctTypes(items: seq<(string, ServiceSpec)>) {
    forall i, j :: 0 <= i < j < |items| ==> items[i].0 != items[j].0
  }

  /**
   * `n` is what the real run made of the listed endpoint `o`: the same id,
   * and, if it changed, an endpoint the preview claimed under a service the
   * preview claimed.
   */
  ghost predicate Patched(o: Endpoint, n: Endpoint, q: Acc) {
    n.id == o.id && (n != o ==> n.id in q.usedEps && o.serviceId in q.usedServices && n.serviceId in q.usedServices)
  }

  /** The real accumulator `r` and the preview accumulator `q`, both started on `gw0`. */
  ghost predicate Mirrors(gw0: GwState, r: Acc, q: Acc) {
    && q.gw == gw0
    && r.error == q.error
    && r.endpointActions == q.endpointActions
    && SameIntent(r.serviceActions, q.serviceActions)
    && q.usedEps <= r.usedEps
    && (forall i :: i in r.usedEps && i !in q.usedEps ==> i >= gw0.nextId)
    && q.usedServices <= r.usedServices
    && (forall i :: i in r.usedServices && i !in q.usedServices ==> i >= gw0.nextId)
    && gw0.nextId <= r.gw.nextId
    && r.gw.Fresh()
    && |gw0.endpoints| <= |r.gw.endpoints|
    && (forall k :: 0 <= k < |gw0.endpoints| ==> Patched(gw0.endpoints[k], r.gw.endpoints[k], q))
    && (forall k :: |gw0.endpoints| <= k < |r.gw.endpoints| ==>
          && r.gw.endpoints[k].id >= gw0.nextId
          && r.gw.endpoints[k].id in r.usedEps
          && r.gw.endpoints[k].serviceId in r.usedServices)
  }

  /**
   * The scopes both runs use for one service: the same listing, taken from
   * `gw0`; the real run has an id for the service; a non-empty listing
   * belongs to a service both runs claimed.
   */
  ghost predicate ScopesMirror(gw0: GwState, r: Acc, q: Acc, scR: Scope, scQ: Scope) {
    && !scR.checkMode && scQ.checkMode
    && scR.srvType == scQ.srvType
    && scR.currentEps == scQ.currentEps
    && scR.serviceId.Some?
    && scR.serviceId.value < r.gw.nextId
    && scR.serviceId.value in r.usedServices
    && (scR.currentEps != [] ==> scR.serviceId.value in q.usedServices)
    && (forall e :: e in scR.currentEps ==> e in gw0.endpoints && e.serviceId == scR.serviceId.value)
  }

  /** A desired endpoint whose first match is at position `i` of the shared listing. */
  lemma MatchedStepMirrors(gw0: GwState, r: Acc, q: Acc, scR: Scope, scQ: Scope, region: Option<string>,
                           tep: EndpointSpec, i: nat)
    requires gw0.Fresh() && Mirrors(gw0, r, q) && ScopesMirror(gw0, r, q, scR, scQ)
    requires tep.url.Some? && FirstMatch(scR.currentEps, region, tep.interface.GetOr(DefaultInterface)) == Some(i)
    ensures Mirrors(gw0, EndpointStep(r, scR, region, tep), EndpointStep(q, scQ, region, tep))
  {
    var r1 := EndpointStep(r, scR, region, tep);
    var q1 := EndpointStep(q, scQ, region, tep);
    MatchedEndpointStep(r, scR, region, tep, i);
    MatchedEndpointStep(q, scQ, region, tep, i);
    var cep := scR.currentEps[i];
    assert cep in scR.currentEps;
    assert cep in gw0.endpoints && cep.serviceId in q.usedServices;
    if EpUpdateNecessary(cep, tep.url.value, tep.enabled.GetOr(true)) {
      UpdatedEndpointMirrors(gw0, r, q, r1, q1, cep, tep.url.value, tep.enabled.GetOr(true));
    } else {
      assert r1 == r.(usedEps := r.usedEps + {cep.id}) && q1 == q.(usedEps := q.usedEps + {cep.id});
      ClaimedEndpointMirrors(gw0, r, q, cep.id);
    }
  }

  /** Both runs claiming the same listed endpoint keeps them related. */
  lemma ClaimedEndpointMirrors(gw0: GwState, r: Acc, q: Acc, id: Id)
    requires Mirrors(gw0, r, q)
    ensures Mirrors(gw0, r.(usedEps := r.usedEps + {id}), q.(usedEps := q.usedEps + {id}))
  {
    var q2 := q.(usedEps := q.usedEps + {id});
    forall k | 0 <= k < |gw0.endpoints|
      ensures Patched(gw0.endpoints[k], r.gw.endpoints[k], q2)
    {
      assert Patched(gw0.endpoints[k], r.gw.endpoints[k], q);
    }
  }

  /** The real run rewrote, in place, a listed endpoint both runs claimed under a service the preview claimed. */
  lemma UpdatedEndpointMirrors(gw0: GwState, r: Acc, q: Acc, r1: Acc, q1: Acc, cep: Endpoint, url: string, enabled: bool)
    requires gw0.Fresh() && Mirrors(gw0, r, q)
    requires cep in gw0.endpoints && cep.serviceId in q.usedServices
    requires r1.gw == r.gw.UpdateEndpoint(cep, url, enabled).0
    requires q1 == q.(changed := q1.changed, endpointActions := q1.endpointActions, usedEps := q.usedEps + {cep.id})
    requires r1.error == r.error && r1.serviceActions == r.serviceActions && r1.usedServices == r.usedServices
    requires r1.endpointActions == q1.endpointActions && r1.usedEps == r.usedEps + {cep.id}
    ensures Mirrors(gw0, r1, q1)
  {
    UpdateEndpointKeepsFresh(r.gw, cep, url, enabled);
    var e := r.gw.UpdateEndpoint(cep, url, enabled).1;
    forall k | 0 <= k < |gw0.endpoints|
      ensures Patched(gw0.endpoints[k], r1.gw.endpoints[k], q1)
    {
      assert Patched(gw0.endpoints[k], r.gw.endpoints[k], q);
      if r.gw.endpoints[k].id == cep.id {
        assert gw0.endpoints[k] in gw0.endpoints;
        assert gw0.endpoints[k] == cep;
      }
    }
    forall k | |gw0.endpoints| <= k < |r1.gw.endpoints|
      ensures r1.gw.endpoints[k] == r.gw.endpoints[k]
    {
      assert r.gw.endpoints[k].id != cep.id;
    }
  }

  /** A desired endpoint with no match: the real run creates it under its own service id. */
  lemma UnmatchedStepMirrors(gw0: GwState, r: Acc, q: Acc, scR: Scope, scQ: Scope, region: Option<string>, tep: EndpointSpec)
    requires gw0.Fresh() && Mirrors(gw0, r, q) && ScopesMirror(gw0, r, q, scR, scQ)
    requires tep.url.Some? && FirstMatch(scR.currentEps, region, tep.interface.GetOr(DefaultInterface)) == None
    ensures Mirrors(gw0, EndpointStep(r, scR, region, tep), EndpointStep(q, scQ, region, tep))
  {
    UnmatchedEndpointStep(r, scR, region, tep);
    UnmatchedEndpointStep(q, scQ, region, tep);
    var created := r.gw.CreateEndpoint(scR.serviceId.value, tep.interface.GetOr(DefaultInterface), tep.url.value, region,
                                       tep.enabled.GetOr(true));
    CreateEndpointKeepsFresh(r.gw, scR.serviceId.value, tep.interface.GetOr(DefaultInterface), tep.url.value, region,
                             tep.enabled.GetOr(true));
    CreatedEndpointMirrors(gw0, r, q, EndpointStep(r, scR, region, tep), EndpointStep(q, scQ, region, tep), created.1);
  }

  /** The real run appended a fresh endpoint under a service it claimed; the preview only recorded it. */
  lemma CreatedEndpointMirrors(gw0: GwState, r: Acc, q: Acc, r1: Acc, q1: Acc, e: Endpoint)
    requires Mirrors(gw0, r, q)
    requires r1.gw.Fresh() && r1.gw.endpoints == r.gw.endpoints + [e] && r1.gw.nextId >= r.gw.nextId
    requires e.id == r.gw.nextId && e.serviceId in r.usedServices
    requires q1 == q.(changed := q1.changed, endpointActions := q1.endpointActions)
    requires r1.error == r.error && r1.serviceActions == r.serviceActions && r1.usedServices == r.usedServices
    requires r1.endpointActions == q1.endpointActions && r1.usedEps == r.usedEps + {e.id}
    ensures Mirrors(gw0, r1, q1)
  {
    forall k | 0 <= k < |gw0.endpoints|
      ensures Patched(gw0.endpoints[k], r1.gw.endpoints[k], q1)
    {
      assert r1.gw.endpoints[k] == r.gw.endpoints[k];
      assert Patched(gw0.endpoints[k], r.gw.endpoints[k], q);
    }
    forall k | |gw0.endpoints| <= k < |r1.gw.endpoints|
      ensures r1.gw.endpoints[k].id >= gw0.nextId && r1.gw.endpoints[k].id in r1.usedEps
      ensures r1.gw.endpoints[k].serviceId in r1.usedServices
    {
      if k < |r.gw.endpoints| {
        assert r1.gw.endpoints[k] == r.gw.endpoints[k];
      }
    }
  }

  lemma EndpointStepMirrors(gw0: GwState, r: Acc, q: Acc, scR: Scope, scQ: Scope, region: Option<string>, tep: EndpointSpec)
    requires gw0.Fresh() && Mirrors(gw0, r, q) && ScopesMirror(gw0, r, q, scR, scQ)
    ensures Mirrors(gw0, EndpointStep(r, scR, region, tep), EndpointStep(q, scQ, region, tep))
    ensures ScopesMirror(gw0, EndpointStep(r, scR, region, tep), EndpointStep(q, scQ, region, tep), scR, scQ)
    ensures EndpointStep(q, scQ, region, tep).usedServices == q.usedServices
  {
    var r1 := EndpointStep(r, scR, region, tep);
    var q1 := EndpointStep(q, scQ, region, tep);
    EndpointStepGrows(r, scR, region, tep);
    EndpointStepGrows(q, scQ, region, tep);
    if tep.url.None? {
      MissingUrlMirrors(gw0, r, q, scR, scQ, region, tep);
    } else {
      match FirstMatch(scR.currentEps, region, tep.interface.GetOr(DefaultInterface))
      case Some(i) => MatchedStepMirrors(gw0, r, q, scR, scQ, region, tep, i);
      case None => UnmatchedStepMirrors(gw0, r, q, scR, scQ, region, tep);
    }
    assert r.gw.nextId <= r1.gw.nextId && r.usedServices <= r1.usedServices && q1.usedServices == q.usedServices;
  }

  /** A desired endpoint without a url: both runs stop on the same error. */
  lemma MissingUrlMirrors(gw0: GwState, r: Acc, q: Acc, scR: Scope, scQ: Scope, region: Option<string>, tep: EndpointSpec)
    requires gw0.Fresh() && Mirrors(gw0, r, q) && ScopesMirror(gw0, r, q, scR, scQ)
    requires tep.url.None?
    ensures Mirrors(gw0, EndpointStep(r, scR, region, tep), EndpointStep(q, scQ, region, tep))
  {
    var err := Some(MissingUrl(scR.srvType, region));
    assert EndpointStep(r, scR, region, tep) == r.(error := err);
    assert EndpointStep(q, scQ, region, tep) == q.(error := err);
    forall k | 0 <= k < |gw0.endpoints|
      ensures Patched(gw0.endpoints[k], r.gw.endpoints[k], q.(error := err))
    {
      assert Patched(gw0.endpoints[k], r.gw.endpoints[k], q);
    }
  }

  lemma {:induction false} EndpointsFoldMirrors(gw0: GwState, r: Acc, q: Acc, scR: Scope, scQ: Scope,
                                                region: Option<string>, teps: seq<EndpointSpec>)
    requires gw0.Fresh() && Mirrors(gw0, r, q) && ScopesMirror(gw0, r, q, scR, scQ)
    ensures Mirrors(gw0, EndpointsFold(r, scR, region, teps), EndpointsFold(q, scQ, region, teps))
    ensures ScopesMirror(gw0, EndpointsFold(r, scR, region, teps), EndpointsFold(q, scQ, region, teps), scR, scQ)
    ensures EndpointsFold(q, scQ, region, teps).usedServices == q.usedServices
    decreases |teps|
  {
    if r.error.None? && teps != [] {
      EndpointStepMirrors(gw0, r, q, scR, scQ, region, teps[0]);
      EndpointsFoldMirrors(gw0, EndpointStep(r, scR, region, teps[0]), EndpointStep(q, scQ, region, teps[0]),
                           scR, scQ, region, teps[1..]);
    }
  }

  lemma {:induction false} RegionsFoldMirrors(gw0: GwState, r: Acc, q: Acc, scR: Scope, scQ: Scope,
                                              regions: seq<(Option<string>, seq<EndpointSpec>)>)
    requires gw0.Fresh() && Mirrors(gw0, r, q) && ScopesMirror(gw0, r, q, scR, scQ)
    ensures Mirrors(gw0, RegionsFold(r, scR, regions), RegionsFold(q, scQ, regions))
    ensures RegionsFold(q, scQ, regions).usedServices == q.usedServices
    decreases |regions|
  {
    if r.error.None? && regions != [] {
      EndpointsFoldMirrors(gw0, r, q, scR, scQ, regions[0].0, regions[0].1);
      RegionsFoldMirrors(gw0, EndpointsFold(r, scR, regions[0].0, regions[0].1),
                         EndpointsFold(q, scQ, regions[0].0, regions[0].1), scR, scQ, regions[1..]);
    }
  }

  /**
   * Filtering two lists that agree position by position, where the second
   * may have extra elements at the end that its filter drops.
   */
  lemma {:induction false} FilterRelated<T(!new)>(p: T -> bool, pq: T -> bool, xs: seq<T>, ys: seq<T>)
    requires |xs| <= |ys|
    requires forall k :: 0 <= k < |xs| ==> (p(ys[k]) <==> pq(xs[k])) && (p(ys[k]) ==> ys[k] == xs[k])
    requires forall k :: |xs| <= k < |ys| ==> !p(ys[k])
    ensures Filter(p, ys) == Filter(pq, xs)
    decreases |ys|
  {
    if ys != [] {
      if xs == [] {
        FilterRelated(p, pq, [], ys[1..]);
      } else {
        FilterRelated(p, pq, xs[1..], ys[1..]);
      }
    }
  }

  /** A service neither run has claimed yet has the same endpoint listing in both. */
  lemma ListingAgrees(gw0: GwState, r: Acc, q: Acc, sid: Id)
    requires gw0.Fresh() && Mirrors(gw0, r, q) && sid < gw0.nextId && sid !in q.usedServices
    ensures r.gw.EndpointsOf(Some(sid)) == gw0.EndpointsOf(Some(sid))
  {
    var p := (e: Endpoint) => e.serviceId == sid;
    forall k | 0 <= k < |gw0.endpoints|
      ensures (p(r.gw.endpoints[k]) <==> p(gw0.endpoints[k])) && (p(r.gw.endpoints[k]) ==> r.gw.endpoints[k] == gw0.endpoints[k])
    {
      assert Patched(gw0.endpoints[k], r.gw.endpoints[k], q);
    }
    FilterRelated(p, p, gw0.endpoints, r.gw.endpoints);
  }

  /** A service created by the real run has no endpoint yet. */
  lemma NewServiceHasNoEndpoints(g: GwState, sid: Id)
    requires g.Fresh() && sid >= g.nextId
    ensures g.EndpointsOf(Some(sid)) == []
  {
    FilterNone((e: Endpoint) => e.serviceId == sid, g.endpoints);
  }

  lemma {:induction false} FilterNone<T(!new)>(p: T -> bool, s: seq<T>)
    requires forall x :: x in s ==> !p(x)
    ensures Filter(p, s) == []
    decreases |s|
  {
    if s != [] {
      assert s[0] in s;
      FilterNone(p, s[1..]);
    }
  }

  /** Two different types of the lookup name two different services. */
  lemma ByTypeIdsDistinct(gw0: GwState, t1: string, t2: string)
    requires gw0.Fresh()
    requires t1 in ByType(gw0.services) && t2 in ByType(gw0.services) && t1 != t2
    ensures ByType(gw0.services)[t1].id != ByType(gw0.services)[t2].id
  {
    var m := ByType(gw0.services);
    var i1 :| LastOfType(gw0.services, i1, t1) && gw0.services[i1] == m[t1];
    var i2 :| LastOfType(gw0.services, i2, t2) && gw0.services[i2] == m[t2];
    assert gw0.services[i1] in gw0.services && gw0.services[i2] in gw0.services;
  }

  /** The service half of one desired service keeps the two runs related. */
  lemma ResolveMirrors(gw0: GwState, r: Acc, q: Acc, p: Params, t: string, target: ServiceSpec)
    requires gw0.Fresh() && Mirrors(gw0, r, q)
    ensures var byType := ByType(gw0.services);
            var (r1, curR) := ResolveService(r, false, byType, t, target.name, target.description, target.enabled.GetOr(true));
            var (q1, curQ) := ResolveService(q, true, byType, t, target.name, target.description, target.enabled.GetOr(true));
            && Mirrors(gw0, r1, q1)
            && r1.gw.endpoints == r.gw.endpoints && r1.usedServices == r.usedServices && q1.usedServices == q.usedServices
            && curR.Some?
            && (t != "" && t in byType ==> curQ == Some(byType[t]) && curR.value.id == byType[t].id)
            && (!(t != "" && t in byType) ==> curQ.None? && curR.value.id == r.gw.nextId && r1.gw.nextId > r.gw.nextId)
  {
    var byType := ByType(gw0.services);
    if t != "" && t in byType {
      ResolveKnownMirrors(gw0, r, q, byType, t, target.name, target.description, target.enabled.GetOr(true));
    } else {
      ResolveNewMirrors(gw0, r, q, byType, t, target.name, target.description, target.enabled.GetOr(true));
    }
  }

  /** A type the snapshot knows: both runs take the listed service, the real run may update it. */
  lemma ResolveKnownMirrors(gw0: GwState, r: Acc, q: Acc, byType: map<string, Service>, t: string,
                            name: Option<string>, description: Option<string>, enabled: bool)
    requires gw0.Fresh() && Mirrors(gw0, r, q) && t != "" && t in byType
    ensures var (r1, curR) := ResolveService(r, false, byType, t, name, description, enabled);
            var (q1, curQ) := ResolveService(q, true, byType, t, name, description, enabled);
            && Mirrors(gw0, r1, q1)
            && r1.gw.endpoints == r.gw.endpoints && r1.usedServices == r.usedServices && q1.usedServices == q.usedServices
            && curQ == Some(byType[t]) && curR.Some? && curR.value.id == byType[t].id
  {
    ServiceRecordRules(r, false, byType, t, name, description, enabled);
    ServiceRecordRules(q, true, byType, t, name, description, enabled);
    UpdateServiceKeepsFresh(r.gw, byType[t], name, description, enabled);
    var r1 := ResolveService(r, false, byType, t, name, description, enabled).0;
    var q1 := ResolveService(q, true, byType, t, name, description, enabled).0;
    var n := |r.serviceActions|;
    if n < |r1.serviceActions| {
      assert Intent(r1.serviceActions[n]) == Intent(q1.serviceActions[n]);
    }
    assert SameIntent(r1.serviceActions, q1.serviceActions);
  }

  /** A type the snapshot lacks: the preview only records a creation, the real run creates the service. */
  lemma ResolveNewMirrors(gw0: GwState, r: Acc, q: Acc, byType: map<string, Service>, t: string,
                          name: Option<string>, description: Option<string>, enabled: bool)
    requires gw0.Fresh() && Mirrors(gw0, r, q) && !(t != "" && t in byType)
    ensures var (r1, curR) := ResolveService(r, false, byType, t, name, description, enabled);
            var (q1, curQ) := ResolveService(q, true, byType, t, name, description, enabled);
            && Mirrors(gw0, r1, q1)
            && r1.gw.endpoints == r.gw.endpoints && r1.usedServices == r.usedServices && q1.usedServices == q.usedServices
            && curQ.None? && curR.Some? && curR.value.id == r.gw.nextId && r1.gw.nextId > r.gw.nextId
  {
    ServiceRecordRules(r, false, byType, t, name, description, enabled);
    ServiceRecordRules(q, true, byType, t, name, description, enabled);
    CreateServiceKeepsFresh(r.gw, t, name, description, enabled);
    var r1 := ResolveService(r, false, byType, t, name, description, enabled).0;
    var q1 := ResolveService(q, true, byType, t, name, description, enabled).0;
    assert Intent(r1.serviceActions[|r.serviceActions|]) == Intent(q1.serviceActions[|r.serviceActions|]);
    assert SameIntent(r1.serviceActions, q1.serviceActions);
  }

  /** Both runs claiming the same listed service keeps them related. */
  lemma ClaimBothMirrors(gw0: GwState, r: Acc, q: Acc, sid: Id)
    requires Mirrors(gw0, r, q)
    ensures Mirrors(gw0, r.(usedServices := r.usedServices + {sid}), q.(usedServices := q.usedServices + {sid}))
  {
    var q2 := q.(usedServices := q.usedServices + {sid});
    forall k | 0 <= k < |gw0.endpoints|
      ensures Patched(gw0.endpoints[k], r.gw.endpoints[k], q2)
    {
      assert Patched(gw0.endpoints[k], r.gw.endpoints[k], q);
    }
  }

  /** The real run alone claiming a service it created keeps them related. */
  lemma ClaimRealMirrors(gw0: GwState, r: Acc, q: Acc, sid: Id)
    requires Mirrors(gw0, r, q) && sid >= gw0.nextId
    ensures Mirrors(gw0, r.(usedServices := r.usedServices + {sid}), q)
  {
  }

  /** A desired service of a listed type: both runs claim it and share its listing. */
  lemma KnownServiceMirrors(gw0: GwState, r: Acc, q: Acc, p: Params, t: string, target: ServiceSpec)
    requires gw0.Fresh() && Mirrors(gw0, r, q)
    requires !Excluded(p, t) && HasTargetEnv(p, target)
    requires t != "" && t in ByType(gw0.services) && ByType(gw0.services)[t].id !in q.usedServices
    ensures var byType := ByType(gw0.services);
            var r1 := ServiceStep(r, p.(checkMode := false), byType, t, target);
            var q1 := ServiceStep(q, p.(checkMode := true), byType, t, target);
            && Mirrors(gw0, r1, q1)
            && q1.usedServices == q.usedServices + {byType[t].id}
  {
    var byType := ByType(gw0.services);
    var pR, pQ := p.(checkMode := false), p.(checkMode := true);
    var regions := target.environments[p.targetEnv].value.endpoints;
    ResolveMirrors(gw0, r, q, p, t, target);
    var resR := ResolveService(r, false, byType, t, target.name, target.description, target.enabled.GetOr(true));
    var resQ := ResolveService(q, true, byType, t, target.name, target.description, target.enabled.GetOr(true));
    var s := byType[t];
    var i :| LastOfType(gw0.services, i, t) && gw0.services[i] == s;
    assert s in gw0.services;
    var r2 := resR.0.(usedServices := resR.0.usedServices + {s.id});
    var q2 := resQ.0.(usedServices := resQ.0.usedServices + {s.id});
    ListingAgrees(gw0, resR.0, resQ.0, s.id);
    ClaimBothMirrors(gw0, resR.0, resQ.0, s.id);
    var scR := Scope(false, t, Some(s.id), r2.gw.EndpointsOf(Some(s.id)));
    var scQ := Scope(true, t, Some(s.id), q2.gw.EndpointsOf(Some(s.id)));
    assert ScopesMirror(gw0, r2, q2, scR, scQ);
    RegionsFoldMirrors(gw0, r2, q2, scR, scQ, regions);
    ServiceStepShape(r, pR, byType, t, target);
    ServiceStepShape(q, pQ, byType, t, target);
  }

  /** A desired service of an empty or unlisted type: only the real run creates and claims it. */
  lemma NewServiceMirrors(gw0: GwState, r: Acc, q: Acc, p: Params, t: string, target: ServiceSpec)
    requires gw0.Fresh() && Mirrors(gw0, r, q)
    requires !Excluded(p, t) && HasTargetEnv(p, target)
    requires !(t != "" && t in ByType(gw0.services))
    ensures var byType := ByType(gw0.services);
            var r1 := ServiceStep(r, p.(checkMode := false), byType, t, target);
            var q1 := ServiceStep(q, p.(checkMode := true), byType, t, target);
            && Mirrors(gw0, r1, q1)
            && q1.usedServices == q.usedServices
  {
    var byType := ByType(gw0.services);
    var pR, pQ := p.(checkMode := false), p.(checkMode := true);
    var regions := target.environments[p.targetEnv].value.endpoints;
    ResolveMirrors(gw0, r, q, p, t, target);
    var resR := ResolveService(r, false, byType, t, target.name, target.description, target.enabled.GetOr(true));
    var resQ := ResolveService(q, true, byType, t, target.name, target.description, target.enabled.GetOr(true));
    var sid := resR.1.value.id;
    var r2 := resR.0.(usedServices := resR.0.usedServices + {sid});
    NewServiceHasNoEndpoints(r.gw, sid);
    assert r2.gw.endpoints == r.gw.endpoints;
    ClaimRealMirrors(gw0, resR.0, resQ.0, sid);
    var scR := Scope(false, t, Some(sid), r2.gw.EndpointsOf(Some(sid)));
    var scQ := Scope(true, t, None, []);
    assert ScopesMirror(gw0, r2, resQ.0, scR, scQ);
    RegionsFoldMirrors(gw0, r2, resQ.0, scR, scQ, regions);
    ServiceStepShape(r, pR, byType, t, target);
    ServiceStepShape(q, pQ, byType, t, target);
  }

  /** One desired service keeps the two runs related; the preview claims at most the looked-up service. */
  lemma ServiceStepMirrors(gw0: GwState, r: Acc, q: Acc, p: Params, t: string, target: ServiceSpec)
    requires gw0.Fresh() && Mirrors(gw0, r, q)
    requires t in ByType(gw0.services) ==> ByType(gw0.services)[t].id !in q.usedServices
    ensures var byType := ByType(gw0.services);
            var r1 := ServiceStep(r, p.(checkMode := false), byType, t, target);
            var q1 := ServiceStep(q, p.(checkMode := true), byType, t, target);
            && Mirrors(gw0, r1, q1)
            && (forall i :: i in q1.usedServices ==> i in q.usedServices || (t in byType && i == byType[t].id))
  {
    if Excluded(p, t) || !HasTargetEnv(p, target) {
      SkippedServiceIsUntouched(r, p.(checkMode := false), ByType(gw0.services), t, target);
      SkippedServiceIsUntouched(q, p.(checkMode := true), ByType(gw0.services), t, target);
    } else if t != "" && t in ByType(gw0.services) {
      KnownServiceMirrors(gw0, r, q, p, t, target);
    } else {
      NewServiceMirrors(gw0, r, q, p, t, target);
    }
  }

  /** Every desired service, in order; each listed service is claimed at most once. */
  lemma {:induction false} ServicesFoldMirrors(gw0: GwState, r: Acc, q: Acc, p: Params, items: seq<(string, ServiceSpec)>)
    requires gw0.Fresh() && Mirrors(gw0, r, q) && DistinctTypes(items)
    requires forall j :: 0 <= j < |items| && items[j].0 in ByType(gw0.services) ==>
               ByType(gw0.services)[items[j].0].id !in q.usedServices
    ensures var byType := ByType(gw0.services);
            Mirrors(gw0, ServicesFold(r, p.(checkMode := false), byType, items),
                         ServicesFold(q, p.(checkMode := true), byType, items))
    decreases |items|
  {
    var byType := ByType(gw0.services);
    if r.error.None? && items != [] {
      var t := items[0].0;
      ServiceStepMirrors(gw0, r, q, p, t, items[0].1);
      var r1 := ServiceStep(r, p.(checkMode := false), byType, t, items[0].1);
      var q1 := ServiceStep(q, p.(checkMode := true), byType, t, items[0].1);
      forall j | 0 <= j < |items[1..]| && items[1..][j].0 in byType
        ensures byType[items[1..][j].0].id !in q1.usedServices
      {
        assert items[1..][j] == items[j + 1];
        if t in byType {
          ByTypeIdsDistinct(gw0, t, items[j + 1].0);
        }
      }
      ServicesFoldMirrors(gw0, r1, q1, p, items[1..]);
    }
  }

  /** The endpoints left unclaimed are the same in both runs. */
  lemma UnclaimedEndpointsAgree(gw0: GwState, r: Acc, q: Acc)
    requires gw0.Fresh() && Mirrors(gw0, r, q)
    ensures UnclaimedEndpoints(r.gw.endpoints, r.usedEps) == UnclaimedEndpoints(gw0.endpoints, q.usedEps)
  {
    var pr := (e: Endpoint) => e.id !in r.usedEps;
    var pq := (e: Endpoint) => e.id !in q.usedEps;
    forall k | 0 <= k < |gw0.endpoints|
      ensures (pr(r.gw.endpoints[k]) <==> pq(gw0.endpoints[k])) && (pr(r.gw.endpoints[k]) ==> r.gw.endpoints[k] == gw0.endpoints[k])
    {
      assert gw0.endpoints[k] in gw0.endpoints;
      assert Patched(gw0.endpoints[k], r.gw.endpoints[k], q);
    }
    FilterRelated(pr, pq, gw0.endpoints, r.gw.endpoints);
  }

  /** The services of the start snapshot left unclaimed are the same in both runs. */
  lemma UnclaimedServicesAgree(gw0: GwState, r: Acc, q: Acc)
    requires gw0.Fresh() && Mirrors(gw0, r, q)
    ensures UnclaimedServices(gw0.services, r.usedServices) == UnclaimedServices(gw0.services, q.usedServices)
  {
    var pr := (s: Service) => s.id !in r.usedServices;
    var pq := (s: Service) => s.id !in q.usedServices;
    forall k | 0 <= k < |gw0.services|
      ensures pr(gw0.services[k]) <==> pq(gw0.services[k])
    {
      assert gw0.services[k] in gw0.services;
    }
    FilterRelated(pr, pq, gw0.services, gw0.services);
  }

  lemma SameIntentAppend(xs: seq<ServiceAction>, ys: seq<ServiceAction>, zs: seq<ServiceAction>)
    requires SameIntent(xs, ys)
    ensures SameIntent(xs + zs, ys + zs)
  {
  }

  /** After a related services phase, both runs end related: pruning deletes the same records. */
  lemma RunsEndAlike(gw0: GwState, data: Desired, p: Params)
    requires gw0.Fresh()
    requires Mirrors(gw0, ServicesPhase(gw0, data, p.(checkMode := false)), ServicesPhase(gw0, data, p.(checkMode := true)))
    ensures var r := Reconcile(gw0, data, p.(checkMode := false));
            var q := Reconcile(gw0, data, p.(checkMode := true));
            && q.error == r.error
            && q.endpointActions == r.endpointActions
            && SameIntent(r.serviceActions, q.serviceActions)
  {
    var pR, pQ := p.(checkMode := false), p.(checkMode := true);
    var r1 := ServicesPhase(gw0, data, pR);
    var q1 := ServicesPhase(gw0, data, pQ);
    if r1.error.None? && PruneEnabled(p) {
      PruningDeletesExactlyUnclaimed(gw0, data, pR);
      PruningDeletesExactlyUnclaimed(gw0, data, pQ);
      PruneEndpointsDeletesUnclaimed(r1, false, r1.gw.endpoints);
      PruneEndpointsDeletesUnclaimed(q1, true, q1.gw.endpoints);
      PruneServicesDeletesUnclaimed(PruneEndpoints(r1, false, r1.gw.endpoints), false, gw0.services);
      PruneServicesDeletesUnclaimed(PruneEndpoints(q1, true, q1.gw.endpoints), true, gw0.services);
      UnclaimedEndpointsAgree(gw0, r1, q1);
      UnclaimedServicesAgree(gw0, r1, q1);
      SameIntentAppend(r1.serviceActions, q1.serviceActions,
                       ServiceDeletes(UnclaimedServices(gw0.services, r1.usedServices)));
    } else {
      assert Reconcile(gw0, data, pR) == r1;
      assert Reconcile(gw0, data, pQ) == q1;
    }
  }

  /**
   * Check mode previews the real run: on an identity API that hands out
   * fresh ids and a data file whose service types are distinct, both end
   * with the same error, the same `changed`, the same endpoint records, and
   * the same service records up to the `current_*` fields of an update.
   */
  lemma CheckModeMirrorsRealRun(gw0: GwState, data: Desired, p: Params)
    requires gw0.Fresh() && DistinctTypes(data.services)
    ensures var r := Reconcile(gw0, data, p.(checkMode := false));
            var q := Reconcile(gw0, data, p.(checkMode := true));
            && q.error == r.error
            && q.changed == r.changed
            && q.endpointActions == r.endpointActions
            && SameIntent(r.serviceActions, q.serviceActions)
  {
    assert Mirrors(gw0, Start(gw0), Start(gw0));
    ServicesFoldMirrors(gw0, Start(gw0), Start(gw0), p, data.services);
    RunsEndAlike(gw0, data, p);
    ChangedIffSomeAction(gw0, data, p.(checkMode := false));
    ChangedIffSomeAction(gw0, data, p.(checkMode := true));
  }
}
