# Service catalog reconciliation, modelled in Dafny

This project models the `service_catalog` Ansible module of the Open Telekom
Cloud infrastructure collection. The module keeps the identity service's
catalog in line with a data file. It reads the desired services of one
target environment and compares them with the services and endpoints the
identity API lists. It then creates or updates what differs, claims every
observed service and endpoint that a desired entry matched, and can delete
whatever was left unclaimed. It returns a `changed` flag and two lists of
action records, one for services and one for endpoints. In Ansible's check
mode it calls no mutating API. It computes the same records and the same
`changed` flag as a real run, except for the `current_*` fields of a service
update (`Preview.CheckModeMirrorsRealRun`). This holds when the identity API
hands out fresh ids, the data file names each service type once, and an
update leaves the listed record it was given unchanged; the SDK's in-place
update breaks the last of these (see "## Left out").

Modules, one file each:

- `Wrappers` (`wrappers.dfy`): `Option` and an order-preserving `Filter`.
- `Catalog` (`catalog.dfy`): observed services and endpoints, the desired
  catalog, the action records and the error.
- `Gateway` (`gateway.dfy`): the identity API as an object (`RemoteCatalog`).
  It holds ordered lists of services and endpoints, a counter for new ids
  and a log of the mutating calls. `GwState` is the same state as a value.
  `GwState.Fresh` says the ids are fresh: every id is below the counter, and
  no two services and no two endpoints share one. Every service call keeps
  it, and an endpoint call keeps it when its service id was handed out.
- `Plan` (`plan.dfy`): the run as functions. These are the two
  change-detection predicates, the type lookup, the first-match endpoint
  search, one step per desired service and per desired endpoint, the two
  pruning passes, and `Reconcile`, the whole run.
- `Engine` (`engine.dfy`): `SCModule.run` as imperative code.
  `Reconciler.Run` loops over the desired services, regions and endpoints
  and calls the identity API object. Its postcondition says that, on any
  identity API, the result and the identity API's final state are exactly
  those of `Plan.Reconcile`.
  The run's own variables (the changed flag, the two claim sets and the two
  result lists) are fields of the `Reconciler`, so that each part of the loop
  body can be its own method.
- `Properties` (`properties.dfy`): what a run guarantees, proved about `Plan`.
- `Url` (`urljoin.dfy`): `urljoin`.
- `Scenario` (`scenario.dfy`): two worked runs on concrete data.
- `Preview` (`preview.dfy`): a check-mode run against a real run on the same
  identity API and the same data. The proof follows both runs side by side.

Modelling choices:

- The desired catalog's dictionaries become ordered sequences of pairs,
  because Python dictionaries keep insertion order. A region key may be null.
- Only the observed region is normalised: a null region reads as `""`. The
  desired key is compared as written. A null key therefore never matches, and
  an endpoint is created for it on every run (`Properties.NullKeyNeverMatches`).
- The endpoint list of a service is fetched once, before its desired
  endpoints are processed, and is not refreshed. Two desired entries with the
  same region and interface both match the same observed endpoint, and in the
  model both see it as it was listed.
- The model reads `_update_service` and `_update_endpoint` as returning the
  updated record and leaving the record passed in unchanged (see
  "## Left out"). Outside check mode, a service update record therefore takes
  its `current_*` fields from the update's response, which carries the
  requested values. An endpoint update record takes them from the endpoint as
  it was listed.
- Endpoint pruning walks a fresh listing of all endpoints. Service pruning
  walks the snapshot taken at the start, so it also sees services of a
  duplicated type that the type lookup hid.
- The source searches the listing and applies the update inside the search
  loop before its `break`. The model searches first (`Engine.FindEndpoint`)
  and then acts on the endpoint found. No state changes during the search,
  so the two are the same.

## Model

| member | source | states |
|---|---|---|
| `Plan.SrvUpdateNecessary` | plugins/modules/service_catalog.py:150-157 | a service update is needed exactly when the service with the requested name, description and enabled flag differs from the listed one |
| `Plan.EpUpdateNecessary` | plugins/modules/service_catalog.py:159-164 | an endpoint update is needed exactly when the endpoint with the requested url and enabled flag differs from the listed one |
| `Properties.ServiceUpdateNeededIffItChanges` | plugins/modules/service_catalog.py:150-157 | a service update is needed exactly when applying it would change name, description or enabled; after the update none is needed |
| `Properties.EndpointUpdateNeededIffItChanges` | plugins/modules/service_catalog.py:159-164 | an endpoint update is needed exactly when applying it would change url or enabled; after the update none is needed |
| `Plan.ByType` | plugins/modules/service_catalog.py:180 | every key of the type lookup maps to the last listed service of that type |
| `Properties.ByTypeCoversEveryType` | plugins/modules/service_catalog.py:180 | every listed type is a key of the lookup |
| `Properties.ShadowedServiceIsInvisible` | plugins/modules/service_catalog.py:180 | a service followed by another of the same type is never the one the lookup returns |
| `Plan.NormalizeRegion` | plugins/modules/service_catalog.py:260-261 | an observed null region reads as `""`; any other region is kept |
| `Plan.Matches` | plugins/modules/service_catalog.py:263-266 | an observed endpoint matches when the desired key equals its normalised region and the interfaces are equal; its properties are `Properties.EmptyKeyMatchesNullRegion` and `Properties.NullKeyNeverMatches` |
| `Plan.FirstMatch` | plugins/modules/service_catalog.py:258-292 | returns the first endpoint of the listing whose normalised region equals the desired key and whose interface matches, or none when no endpoint matches |
| `Engine.FindEndpoint` | plugins/modules/service_catalog.py:258-292 | the search loop stops at the first matching endpoint, no earlier endpoint matches, and none is found only when no endpoint matches |
| `Properties.EmptyKeyMatchesNullRegion` | plugins/modules/service_catalog.py:258-266 | the desired key `""` matches an endpoint whose region is null or empty, and no other |
| `Properties.NullKeyNeverMatches` | plugins/modules/service_catalog.py:258-266 | a null desired key matches no observed endpoint, because only the observed side is normalised |
| `Properties.MissingUrlAborts` | plugins/modules/service_catalog.py:252-254 | a desired endpoint without `url` stops the run with an error and changes nothing else |
| `Plan.EndpointStep` | plugins/modules/service_catalog.py:251-310 | one desired endpoint: an error without url, otherwise the first match is updated or left alone, or a new endpoint is created; its properties are `Properties.MissingUrlAborts`, `Properties.MatchedEndpointStep` and `Properties.UnmatchedEndpointStep` |
| `Properties.MatchedEndpointStep` | plugins/modules/service_catalog.py:251-292 | with a first match at position i, only that endpoint is claimed, in check mode too; an update record naming it is appended exactly when url or enabled differ, and then `changed` turns on; outside check mode exactly that update call is made, otherwise the identity API is untouched; later duplicates stay unclaimed |
| `Properties.UnmatchedEndpointStep` | plugins/modules/service_catalog.py:293-310 | with no match, exactly one create record is appended with the defaults applied; outside check mode the endpoint is created and its new id claimed; in check mode nothing is called or claimed |
| `Properties.SkippedServiceIsUntouched` | plugins/modules/service_catalog.py:187-199 | a service outside a non-empty `limit_services`, or without a non-null target environment, produces no record, no claim and no call |
| `Plan.ServiceStep` | plugins/modules/service_catalog.py:187-311 | one desired service: skipped when excluded or without the target environment; otherwise resolved, claimed when it has an id, and its endpoints reconciled against one listing; its properties are `Properties.SkippedServiceIsUntouched`, `Properties.ServiceRecordRules` and `Properties.CheckModeNewServiceClaimsNothing` |
| `Properties.ServiceRecordRules` | plugins/modules/service_catalog.py:200-240 | an empty or unknown type yields exactly one create record, and outside check mode exactly that create call; a known type yields one update record exactly when a field differs, and outside check mode exactly that update call; in check mode its current fields are the observed ones and the identity API is untouched, otherwise they are the update's response |
| `Plan.ResolveService` | plugins/modules/service_catalog.py:200-240 | outside check mode the service always has an id afterwards; resolving a service claims nothing itself |
| `Properties.CheckModeNewServiceClaimsNothing` | plugins/modules/service_catalog.py:200-310 | in check mode a service to be created has no id: it and its endpoints are not claimed, every desired endpoint becomes one create record, and no call is made |
| `Properties.RunGrows` | plugins/modules/service_catalog.py:166-341 | during a run records and claims are only appended, `changed` turns on exactly when a record is appended, and the services phase appends no delete |
| `Plan.Excluded` | plugins/modules/service_catalog.py:187-188 | a service type is skipped when `limit_services` is non-empty and does not name it; its property is `Properties.SkippedServiceIsUntouched` |
| `Plan.HasTargetEnv` | plugins/modules/service_catalog.py:194-197 | a service is reconciled only when it has a non-null entry for the target environment; its property is `Properties.SkippedServiceIsUntouched` |
| `Plan.EndpointsFold` | plugins/modules/service_catalog.py:250-310 | the desired endpoints of one region key in order, stopping at the first error; its properties are `Properties.RunGrows` and `Engine.Reconciler.ReconcileRegion` |
| `Plan.RegionsFold` | plugins/modules/service_catalog.py:248-310 | the region keys of the target environment in order, stopping at the first error; its properties are `Properties.RunGrows` and `Engine.Reconciler.ReconcileRegions` |
| `Plan.ServicesFold` | plugins/modules/service_catalog.py:185-311 | the desired services in order against one type lookup, stopping at the first error; its properties are `Properties.RunGrows` and `Engine.Reconciler.ReconcileServices` |
| `Plan.ServicesPhase` | plugins/modules/service_catalog.py:179-311 | the main loop from an empty start, with the type lookup built from the snapshot taken at the start; its properties are `Properties.RunGrows` and `Properties.NoDeletesWithoutPruning` |
| `Plan.PruneEnabled` | plugins/modules/service_catalog.py:312-314 | pruning runs only with an empty `limit_services` and `skip_delete` off; its property is `Properties.NoDeletesWithoutPruning` |
| `Plan.PruneEndpoint` | plugins/modules/service_catalog.py:317-326 | one listed endpoint: left alone when its id was claimed, otherwise a delete record, `changed`, and outside check mode the delete call |
| `Plan.PruneEndpoints` | plugins/modules/service_catalog.py:316-326 | the endpoint cleanup over a listing in order; its properties are `Properties.PruneEndpointsDeletesUnclaimed` and `Properties.PruneEndpointsCalls` |
| `Plan.PruneService` | plugins/modules/service_catalog.py:330-341 | one snapshot service: left alone when its id was claimed, otherwise a delete record, `changed`, and outside check mode the delete call |
| `Plan.PruneServices` | plugins/modules/service_catalog.py:328-341 | the service cleanup over the snapshot in order; its properties are `Properties.PruneServicesDeletesUnclaimed` and `Properties.PruneServicesCalls` |
| `Plan.Outcome` | plugins/modules/service_catalog.py:342-345 | a run that aborted returns its error; otherwise it returns `changed` and the two record lists |
| `Plan.Reconcile` | plugins/modules/service_catalog.py:166-345 | the whole run: the services phase, then, when it did not abort and pruning is enabled, the endpoint pass and the service pass; its properties are the `Properties` and `Preview` lemmas |
| `Properties.ChangedIffSomeAction` | plugins/modules/service_catalog.py:166-345 | the returned `changed` flag is true exactly when some action record was produced |
| `Properties.CheckModeMakesNoCalls` | plugins/modules/service_catalog.py:212-341 | in check mode the identity API ends the run exactly as it started: no create, update or delete call |
| `Preview.CheckModeMirrorsRealRun` | plugins/modules/service_catalog.py:212-341 | on an identity API with fresh ids and a data file naming each type once, check mode gives the same error, the same `changed` flag and the same endpoint records as a real run, and the same service records except the `current_*` fields of an update, with updates read as leaving the listed record unchanged |
| `Properties.NoDeletesWithoutPruning` | plugins/modules/service_catalog.py:312-314 | with a non-empty `limit_services` or with `skip_delete`, no delete record is produced |
| `Properties.UnclaimedEndpoints` | plugins/modules/service_catalog.py:316-317 | the candidates for endpoint deletion are exactly the listed endpoints whose id was not claimed |
| `Properties.UnclaimedServices` | plugins/modules/service_catalog.py:329-330 | the candidates for service deletion are exactly the snapshot services whose id was not claimed |
| `Properties.PruneEndpointsDeletesUnclaimed` | plugins/modules/service_catalog.py:316-326 | the endpoint pass appends one delete record per unclaimed listed endpoint, in listing order, and changes no claim |
| `Properties.PruneEndpointsCalls` | plugins/modules/service_catalog.py:316-320 | outside check mode the endpoint pass calls delete once per unclaimed endpoint, in order |
| `Properties.PruneServicesDeletesUnclaimed` | plugins/modules/service_catalog.py:328-341 | the service pass appends one delete record per unclaimed snapshot service, in snapshot order |
| `Properties.PruneServicesCalls` | plugins/modules/service_catalog.py:328-333 | outside check mode the service pass calls delete once per unclaimed snapshot service, in order |
| `Properties.PruningDeletesExactlyUnclaimed` | plugins/modules/service_catalog.py:312-341 | when pruning runs, the delete records are exactly the unclaimed endpoints of a fresh listing and the unclaimed services of the start snapshot, and every endpoint deletion reaches the API before any service deletion |
| `Engine.Reconciler.Run` | plugins/modules/service_catalog.py:166-345 | on any identity API, the returned result and the identity API's final state are those of `Plan.Reconcile` |
| `Engine.Reconciler.ReconcileServices` | plugins/modules/service_catalog.py:179-311 | the main loop over the desired services computes `Plan.ServicesPhase` from the start snapshot |
| `Engine.Reconciler.ReconcileService` | plugins/modules/service_catalog.py:187-311 | one iteration of the main loop computes `Plan.ServiceStep` |
| `Engine.Reconciler.ResolveTarget` | plugins/modules/service_catalog.py:200-240 | the service part of one iteration computes `Plan.ResolveService` |
| `Engine.Reconciler.ReconcileRegions` | plugins/modules/service_catalog.py:248-310 | the loop over the target environment's region keys computes `Plan.RegionsFold` |
| `Engine.Reconciler.ReconcileRegion` | plugins/modules/service_catalog.py:250-310 | the loop over one region's desired endpoints computes `Plan.EndpointsFold` |
| `Engine.Reconciler.ReconcileEndpoint` | plugins/modules/service_catalog.py:251-310 | one desired endpoint computes `Plan.EndpointStep` |
| `Engine.Reconciler.Prune` | plugins/modules/service_catalog.py:315-341 | the cleanup computes the endpoint pass over a fresh listing, then the service pass over the start snapshot |
| `Engine.Reconciler.PruneEndpoint` | plugins/modules/service_catalog.py:317-326 | one iteration of the endpoint cleanup computes `Plan.PruneEndpoint` |
| `Engine.Reconciler.PruneService` | plugins/modules/service_catalog.py:330-341 | one iteration of the service cleanup computes `Plan.PruneService` |
| `Gateway.RemoteCatalog.ListServices` | plugins/modules/service_catalog.py:179 | lists every service in the API's order |
| `Gateway.RemoteCatalog.ListEndpoints` | plugins/modules/service_catalog.py:245-246 | lists the endpoints of one service, or all endpoints, in the API's order |
| `Gateway.RemoteCatalog.UpdateService` | plugins/modules/service_catalog.py:87-97 | the response keeps id and type and carries the requested fields; the stored record with that id is replaced and the call is logged |
| `Gateway.RemoteCatalog.CreateService` | plugins/modules/service_catalog.py:99-107 | creates the service under the counter's id, appends it and logs the call; when the API's ids are fresh, no listed service has that id, no endpoint refers to it, and the ids stay fresh |
| `Gateway.RemoteCatalog.DeleteService` | plugins/modules/service_catalog.py:109-114 | removes the service with that id and logs the call |
| `Gateway.RemoteCatalog.UpdateEndpoint` | plugins/modules/service_catalog.py:116-126 | the response keeps id, service, region and interface and carries the requested url and enabled flag |
| `Gateway.RemoteCatalog.CreateEndpoint` | plugins/modules/service_catalog.py:128-141 | creates the endpoint under the counter's id with the region as given, appends it and logs the call; when the API's ids are fresh and the service id was handed out, no listed endpoint has that id and the ids stay fresh |
| `Gateway.RemoteCatalog.DeleteEndpoint` | plugins/modules/service_catalog.py:143-148 | removes the endpoint with that id and logs the call |
| `Url.UrlJoin` | plugins/modules/service_catalog.py:66-73 | joins the arguments with `/`, each one made `""` when missing and stripped of outer slashes; its partner is `Url.UrlJoinSegments` |
| `Url.TrimStart` | plugins/modules/service_catalog.py:73 | `lstrip('/')` drops exactly the leading slashes |
| `Url.TrimEnd` | plugins/modules/service_catalog.py:73 | `rstrip('/')` drops exactly the trailing slashes |
| `Url.StripIdempotent` | plugins/modules/service_catalog.py:73 | stripping a stripped argument changes nothing |
| `Url.StripHasNoOuterSlash` | plugins/modules/service_catalog.py:73 | a stripped argument neither starts nor ends with a slash |
| `Url.UrlJoinSegments` | plugins/modules/service_catalog.py:66-73 | splitting `urljoin`'s result on slashes gives back the stripped arguments, missing ones as `""`, when none has an inner slash |
| `Scenario.SecondRunChangesNothing` | plugins/modules/service_catalog.py:166-345 | a new `compute` service with one endpoint is created on the first run; a second run against the result produces no record and `changed` is false |
| `Scenario.FirstDuplicateWins` | plugins/modules/service_catalog.py:258-326 | of two duplicate endpoints only the first is updated and claimed and the second is pruned; check mode gives the same records, with the update read as leaving the listed endpoint unchanged, and makes no call |

## Left out

- The OpenStack SDK calls behind `_create_*`, `_update_*` and `_delete_*` are network I/O. They are abstract operations of `Gateway.RemoteCatalog` that always succeed. Failing calls, retries and partial failures are not modelled.
- The API's ids are strings. Here they are natural numbers handed out by a counter.
- Gateway.RemoteCatalog.UpdateEndpoint returns a new record and leaves the listed endpoint as it was. The SDK's `_update` applies the new url and enabled flag to the object passed in, in place, and the module then reads that same object (lines 274-286). In a real run the endpoint update record's `current_url` and `current_enabled` would therefore read the new values, and a later desired entry matching the same listed endpoint would find nothing left to change, where the model gives it a second update record and a second update call. This aliasing is not modelled.
- Gateway.RemoteCatalog.UpdateService likewise leaves the listed service as it was, where the SDK updates it in place. The module reads only the response (lines 213-226) and, when pruning, only ids, so the model's records agree with this in-place update.
- Preview.CheckModeMirrorsRealRun proves equal endpoint records under the copy reading of `_update_endpoint` above. With the SDK's in-place update, a real run's endpoint update records carry the new values in their `current_*` fields, and repeated desired entries for one listed endpoint give fewer records than in check mode.
- Scenario.FirstDuplicateWins shows check mode giving the same records under the same reading; with the SDK's in-place update the real run's record would carry the new url as its `current_url`.
- Preview.CheckModeMirrorsRealRun assumes that the data file names each service type once. The data file's `services` mapping has unique keys, and the model's sequence of pairs does not enforce that.
- Deleting a service does not remove its endpoints in the model. The real API may cascade, but the module never relies on it.
- Deriving `identity_ext_base` from the identity endpoint URL (lines 171-175) builds request paths only. It is not modelled, so `urljoin` is modelled on its own.
- The Ansible scaffolding is not modelled: `argument_spec`, `module_kwargs`, `exit`, `main` and the documentation strings.
- The diagnostic `log` list is not modelled.
- Values of the wrong type in the data file are not modelled. Examples are a null `enabled` or `interface` value, or a non-string `urljoin` argument. Booleans are booleans and keys are absent or strings.
- An exception raised while a listing is being iterated is not modelled. Listings are taken whole before they are walked.
- Idempotence in general (a second run against the first run's result changes nothing) is not proved. It fails for a null region key, for an empty service type and for duplicate (region, interface) entries. It is shown only on the concrete run `Scenario.SecondRunChangesNothing`.
