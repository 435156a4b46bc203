# ErieCanal in Dafny

A model of the logic of ErieCanal, a Kubernetes multi-cluster services implementation, with proofs. It follows
the constraints and conflict resolution that KEP-1645 (Multi-Cluster Services API) asks for, as far as the code
implements them. `dafny verify dfyconfig.toml` checks everything.

## What is proved

**Federation** (`ServiceImports`, `ImportProperties`, `ExportDecisions`, `Federation`, `FederationPorts`). Exports
of a service are accepted or rejected by looking at all clusters and folded into a ServiceImport in each other
cluster. The protocol is a transition system in which every cluster handles its messages when it likes, handling
may be retried or break off after creating the import, and reads made for a decision may fail.

- With nothing assumed but one rule per port number, no import ever names its own cluster or lists an exporter twice.
- Conflict safety is exact: with Services that stay as they are while exported, and any decisions and messages in
  flight, active exports agree exactly as long as none is taken for the first that conflicts with an active one
  (`AlwaysAgreeIff`). Overlapping decisions and changing Services do break it (`ConcurrentFirstExportsConflict`,
  `ChangedServiceConflicts`); with one decision delivered at a time and covering rules it holds (`ActiveExportsAgree`).
- With one decision in flight at a time, rules that cover the imported ports, at least one rule that names a Service
  port, and Services that stay as they are while exported, imports mirror exactly the active exports. The conditions on
  rules are exact for a single upsert or deletion (`UpsertHoldsIff`, `DeletionHoldsIff`, `UpsertKeepsOthersIff`,
  `DeletionKeepsOthersIff`), covering follows when all exports use the same port numbers (`UniformIsOrderly`), and an
  import without ports loses exports (`PortlessImportLosesExports`).

**Cache** (`ChangeTracking`, `EndpointsCache`, `ServiceCache`, `ImportCache`, `IngressCache`, `IngressRuns`,
`IngressFailures`). Change trackers coalesce events and patch big tables. For endpoints, services and imports the patched
table after a sync equals the rebuilt one over every interleaving, in every iteration order of Go maps. One proof serves
exact claims and claims about keys only: values are seen through a view. Route keys neither name their Ingress nor depend
on it alone. With constant Service answers and fixed Ingress classes, syncs are right in every order exactly if at each
of them Ingresses that share a key agree on its route and no change removes a key that is asked for (`SyncsRightIff`,
`RoutesAreRebuilt`). `ChangeKeepsKeysIff`, `SyncKeepsKeysIff` and `ClassChangeIff` are exact without those assumptions, for
a change, a sync and a change of class, and `SharedKeyLost`, `RenamedPortStays` and `TakenOverUnseen` are runs that go wrong.

**Published configuration** (`ServiceRegistry`, `LocalSync`, `IngressConfig`, `IngressSync`, `Publishing`). The registry
published after a sync has under every name exactly the addresses that the live Services, Endpoints and imports imply,
over every run in which no Service with entries turns into a skipped type (`RegistryFollowsLive`, in the fields of the
live objects `AddressPublishedIff`). The router has exactly the hosts and paths that live Ingresses route to backends
with live endpoints, over every steady run in which Ingresses agree (`RouterFollowsLive`), and each service it names is
balanced over exactly the parses of the endpoints its live object offers (`BalancerFollowsLive`). However pushes overlap, the stored version is right exactly when the content written last is
the one whose version was stored last (`VersionMatchesRepoIff`).

**ServiceExport Ingresses** (`ServiceExports`, `ExportPaths`, `ExportFailures`). Listings come from a cache and may lag.
Generated Ingresses share no path exactly as long as no reconcile misses a conflict (`AlwaysApartIff`), which current
listings never do. In a run without failures every accepted reconcile leaves an Ingress with the paths, backends and
annotations of the current spec (`ReconcileUpToDate`).

**Load-balanced Services** (`Finalizers`, `AddressStatus`), **worker pool** (`WorkerPool`, `RoundRobin`), **Helm values**
(`HelmValues`).

## Reading the model

Code that loops and updates is a method proved against a function or relation; what the source promises is proved about
that function as lemmas. Each conversion has, beside its function, a lemma that says in the fields of its input what it
yields, both ways, and one for order and number where these matter. Protocols are value-level transition systems over the same functions, and a run is a sequence
of states and steps. Go map iteration is modelled by picking any remaining key.

Library calls and answers of informers and API servers are parameters: IPv4 and DNS checks, endpoint parsing, hashes
(assumed to tell contents apart and never to be empty), annotation and TLS processing of an Ingress, Service listers,
and which API call fails.

Where the code falls short of a promise the code is kept, a failing run or input is given and the exact condition is
stated: conflicting exports (`Federation`, `FederationPorts`), routes with shared keys, renamed ports or changed classes
(`IngressRuns`, `IngressFailures`), Services that turn into skipped types (`ServiceCache`), overlapping pushes
(`Publishing`), lagging listings, a stored hash without the Ingress update, a re-created Ingress and annotations that are
never removed (`ServiceExports`, `ExportPaths`, `ExportFailures`), trusted authorities of repeated hosts
(`IngressConfig`), routes of Ingresses without annotations (`IngressRuns`, `IngressFailures`), repeated finalizers
(`Finalizers`), and round robin past the wrap of its counter (`RoundRobin`). A Service of type ExternalName has normally no cluster address, and then the service table has no
entry for it, although the code has a branch that builds one.

## Model

| member | source | states |
|---|---|---|
| `ServiceImports.MergeEndpoints` | pkg/cluster/remote.go:298-328 | merging an export into one port yields a list without repeated clusters whose map is the old one with the exporter's entry set by its last matching rule, or nothing when no rule matches; an empty port gets one endpoint per matching rule |
| `ServiceImports.MergedIff` | pkg/cluster/remote.go:298-328 | field by field: an endpoint is on a merged port iff it is at the gateway of the exporter with the path of the last rule for that port, or is the last one of another cluster and some rule is for the port; on an empty port iff some rule for it has its path |
| `ServiceImports.NewServiceImport` | pkg/cluster/remote.go:399-435 | the new import lists, rule by rule, the Service ports of that number, each with one endpoint |
| `ServiceImports.NewPortsIff` | pkg/cluster/remote.go:399-435 | a port is in a new import iff it has name, protocols and number of a Service port that some rule names, with the one endpoint at the gateway of the exporter with the path of that rule; the account is that of the export |
| `ServiceImports.GetOrCreateServiceImport` | pkg/cluster/remote.go:345-397 | the existing import is returned as it is, a new one is created only when there is none; an error is returned, with nothing stored, iff creating the namespace, creating the import or getting the existing one fails |
| `ServiceImports.UpsertServiceImport` | pkg/cluster/remote.go:280-343 | an export of the cluster itself is ignored; otherwise the import exists afterwards, every port has its header unchanged and its endpoints merged, and the service account is the exporter's; a failed call changes nothing, except that an import just created stays when its update fails |
| `ServiceImports.UpsertLeaves` | pkg/cluster/remote.go:280-343 | what an upsert leaves: own exports change nothing; otherwise the account is that of the export, termination is as before, and every port has its header and exactly the endpoints that belong there |
| `ServiceImports.DeleteServiceImport` | pkg/cluster/remote.go:452-521 | own exports, missing and terminating imports are left alone; otherwise the covered ports that keep an endpoint of another cluster remain, and the import goes when none does |
| `ServiceImports.DeletionKeepsRest` | pkg/cluster/remote.go:463-502 | a withdrawal keeps account and termination, and the whole import where it is the cluster itself, missing or terminating |
| `ServiceImports.DeletionLeaves` | pkg/cluster/remote.go:452-521 | what a withdrawal leaves, by members and fields: the import goes iff no port that a rule covers has an endpoint of another cluster, and else has exactly such ports, each with all endpoints of other clusters and none of the exporter |
| `ServiceImports.DeletedPortsAreSurvivors` | pkg/cluster/remote.go:480-499 | with one rule per port number the nested loops keep each surviving port exactly once |
| `ServiceImports.DeletedPortsMembers` | pkg/cluster/remote.go:480-499 | for any rules, the ports left by a deletion are exactly the covered ones with another cluster's endpoint, stripped of the exporter |
| `ImportProperties.UpsertIdempotent` | pkg/cluster/remote.go:184-195 | a retried upsert changes no port and no endpoint, for every import and every rule list |
| `ImportProperties.DeletionIdempotent` | pkg/cluster/remote.go:153-164 | a retried deletion changes nothing: as a set of ports always, as a bag of ports with one rule per number |
| `ImportProperties.UpsertKeepsOthersIff` | pkg/cluster/remote.go:308-328 | an upsert keeps every other cluster's endpoints iff a rule covers each port that has one |
| `ImportProperties.DeletionKeepsOthersIff` | pkg/cluster/remote.go:480-502 | a deletion keeps every other cluster's endpoints iff a rule covers each port that has one |
| `ImportProperties.UpsertsCommuteIff` | pkg/cluster/remote.go:296-330 | two exporters may upsert an existing import in either order iff they cover the same of its ports |
| `ImportProperties.UpsertThenDeleteRestoresIff` | pkg/cluster/remote.go:296-330 | exporting and withdrawing restores an import without that exporter, as a bag of ports, iff it has ports and all are non-empty and covered |
| `ImportProperties.UpsertThenDeleteLeavesNothing` | pkg/cluster/remote.go:501-518 | where there was no import, exporting and withdrawing leaves none |
| `ExportDecisions.ValidateServiceExport` | pkg/cluster/remote.go:253-278 | no error iff the cluster has no such Service or one of equal type and ports; a failed read is an error |
| `ExportDecisions.ClusterReconciler.IsFirstTimeExport` | controllers/cluster/v1alpha1/cluster_controller.go:390-404 | true iff no connected remote cluster has the import, a failed read counting as having it |
| `ExportDecisions.ClusterReconciler.IsValidServiceExport` | controllers/cluster/v1alpha1/cluster_controller.go:406-427 | valid iff no other remote cluster conflicts; otherwise the reported error is that of a conflicting cluster |
| `ExportDecisions.ClusterReconciler.ProcessServiceExportCreatedEvent` | controllers/cluster/v1alpha1/cluster_controller.go:370-449 | exactly one message is enqueued: accepted iff the export is first or valid, else rejected for a real conflict |
| `ExportDecisions.AcceptsIff` | controllers/cluster/v1alpha1/cluster_controller.go:390-427 | an export is accepted iff every remote cluster was read to have no import of it, or every other remote cluster has no such Service or was read to have one of equal type and ports |
| `Federation.SoundStep` | pkg/cluster/remote.go:280-343 | every step of the protocol keeps imports free of the own cluster and of repeated exporters |
| `Federation.ImportsAlwaysSound` | pkg/cluster/remote.go:284-328 | in every interleaving of decisions, deliveries, retries and partial failures no import names its own cluster or lists an exporter twice on a port |
| `Federation.NothingLeftAfterDeletion` | pkg/cluster/remote.go:481-499 | right after a cluster handled a deletion no endpoint of the exporter is left there |
| `Federation.UpsertHoldsIff` | pkg/cluster/remote.go:280-343 | with one rule per port number an upsert takes an import that mirrors the exports to one that mirrors them with the new export iff its rules cover every imported port and, when it creates the import, give it a port |
| `Federation.DeletionHoldsIff` | pkg/cluster/remote.go:452-521 | a deletion takes an import that mirrors the exports to one that mirrors the rest iff no exporter is left or its rules cover some imported port |
| `Federation.AcceptedAgrees` | controllers/cluster/v1alpha1/cluster_controller.go:370-427 | a decision taken in a quiet state accepts only exports whose Service agrees with all active ones, even when nothing was compared |
| `Federation.HandledHolds` | pkg/cluster/remote.go:131-232 | however often a message is handled, the import ends up mirroring the active exports |
| `Federation.StepInv` | pkg/cluster/remote.go:280-521 | every orderly step keeps the whole protocol invariant |
| `Federation.ImportsFollowExports` | pkg/cluster/remote.go:280-521 | whole-run refinement: an import with nothing left to handle exists iff another cluster exports, and each port lists those clusters once, with gateway and path of the latest export |
| `Federation.AccountFollowsLastExport` | pkg/cluster/remote.go:331-332 | in every run the account of an import is that of the last export handled there, and no import is terminating |
| `Federation.StepAgreesIff` | controllers/cluster/v1alpha1/cluster_controller.go:370-427 | whatever is in flight and whatever the rules, with Services kept while exported, a step loses the agreement of the active exports iff it takes for the first, uncompared, an export that conflicts with an active one |
| `Federation.AlwaysAgreeIff` | controllers/cluster/v1alpha1/cluster_controller.go:370-427 | conflict safety, exactly: over every such run all active exports have Services of equal type and ports up to some moment iff no export was so wrongly taken for the first before it |
| `Federation.OrderlyNeverWronglyFirst` | controllers/cluster/v1alpha1/cluster_controller.go:390-404 | with one decision delivered at a time and covering rules none ever is |
| `Federation.ActiveExportsAgree` | controllers/cluster/v1alpha1/cluster_controller.go:370-427 | so in orderly runs all active exports agree at every moment |
| `FederationPorts.NewPortsHeaders` | pkg/cluster/remote.go:403-418 | a new import has exactly the Service ports its rules name, as a bag |
| `FederationPorts.DeletionKeepsHeaders` | pkg/cluster/remote.go:480-502 | a covering deletion that leaves the import leaves its port headers as a bag |
| `FederationPorts.CreationCommutes` | pkg/cluster/remote.go:345-397 | two exporters with equal Service ports and port numbers may create an import in either order |
| `FederationPorts.UniformIsOrderly` | pkg/cluster/remote.go:296-328 | if all exports use the same port numbers, every step meets the covering condition of the refinement |
| `FederationPorts.ImportPortsFollowServices` | pkg/cluster/remote.go:399-418 | over such a run an import has exactly the ports of the active exporters' Services with those numbers |
| `FederationPorts.PortlessImportLosesExports` | pkg/cluster/remote.go:399-418 | an export whose rules name no Service port leaves an import without ports: later exports are not listed and withdrawing one removes it |
| `FederationPorts.ConcurrentFirstExportsConflict` | controllers/cluster/v1alpha1/cluster_controller.go:370-404 | a run with Services kept in which two conflicting exports are both taken for the first |
| `FederationPorts.ChangedServiceConflicts` | pkg/cluster/remote.go:253-278 | a run in which an exported Service changes and a conflicting export is accepted by comparison |
| `ChangeTracking.ChangeTracker.Record` | pkg/cache/endpoints.go:111-128 | the pending changes keep the first previous entries and the latest current ones per object, and drop a change that came back |
| `ChangeTracking.RecordedAt` | pkg/cache/endpoints.go:111-128 | an event touches the change of its object only, which then leads from the first previous entries to the latest and is there iff these differ |
| `ChangeTracking.EventsCoalesce` | pkg/cache/endpoints.go:111-128 | any number of events of an object between two syncs leave one change from its first to its last entries, or none if these are equal |
| `ChangeTracking.ChangeTracker.CheckoutChanges` | pkg/cache/endpoints.go:131-141 | hands out all pending changes and empties the table |
| `ChangeTracking.MergeFilterUnmerge` | pkg/cache/service.go:264-268 | merge, filter, unmerge equals unmerge, merge on every table and change |
| `ChangeTracking.Table.Merge` | pkg/cache/endpoints.go:235-239 | every entry of the other map is set, the rest stays |
| `ChangeTracking.Table.Unmerge` | pkg/cache/endpoints.go:241-245 | every key of the other map is deleted, the rest stays |
| `ChangeTracking.Table.Filter` | pkg/cache/service.go:287-293 | the keys that the other map has are removed |
| `ChangeTracking.Table.ApplyUnmergeMerge` | pkg/cache/endpoints.go:223-233 | applies every pending change once, in some order, and leaves none pending |
| `ChangeTracking.Table.ApplyMergeFilterUnmerge` | pkg/cache/service.go:261-270 | does the same as the endpoints way of applying |
| `ChangeTracking.OrderApplies` | pkg/cache/service.go:264-269 | in every iteration order each object's part of the table is patched by its own change |
| `ChangeTracking.ApplyConfluent` | pkg/cache/endpoints.go:228-232 | so there is one possible result |
| `ChangeTracking.CacheInvAt` | pkg/cache/endpoints.go:97-141 | in every interleaving of events and syncs pending items hold the last applied and the latest entries, and objects without one have them equal |
| `ChangeTracking.SyncRefinesRebuild` | pkg/cache/endpoints.go:223-245 | the incrementally patched table right after a sync is the one rebuilt from all live objects |
| `ChangeTracking.SkipSafeIff` | pkg/cache/service.go:161-163 | whatever is pending, ignoring an event leaves the next sync right iff the old and the new object add the same |
| `EndpointsCache.EndpointsToEndpointsMap` | pkg/cache/endpoints.go:154-200 | nil for nil; otherwise each service port name with a usable address is mapped to those addresses in document order |
| `EndpointsCache.EndpointListMembers` | pkg/cache/endpoints.go:160-194 | an endpoint is listed iff a subset has its port, non-zero and of that name, with its IPv4 address |
| `EndpointsCache.EndpointListInOrder` | pkg/cache/endpoints.go:160-194 | subset by subset, in order, with one endpoint per usable address and port of that name |
| `CacheTypes.JoinHostPortIff` | pkg/cache/endpoints.go:70-76 | the text of an endpoint is its host, in brackets if it has a colon, a colon and the number that the digits read back as |
| `CacheTypes.DecimalIff` | pkg/cache/endpoints.go:70-76 | the text of a number is the one text of digits, without leading zeros and with a sign if negative, that reads back as it |
| `EndpointsCache.Update` | pkg/cache/endpoints.go:97-129 | records the conversions of the old and new object and reports whether anything is pending |
| `EndpointsCache.EndpointsCacheIsRebuild` | pkg/cache/endpoints.go:97-245 | for every interleaving of adds, updates, deletes, resyncs and syncs the endpoints table after a sync is the union over the live objects |
| `EndpointsCache.PendingItemsInStep` | pkg/cache/endpoints.go:97-141 | at every moment pending items carry last-applied and latest entries; an object without one has its latest in the table |
| `ServiceCache.ServiceToServiceMap` | pkg/cache/service.go:190-217 | nil without an object or cluster address; otherwise the last handled port of each name |
| `ServiceCache.EntriesStandForPorts` | pkg/cache/service.go:86-217 | a Service adds an entry for exactly the names of its ports iff it has a cluster address and a handled type, that of the last port of the name, with its fields, cluster address or external name and target port; without a cluster address it adds nothing |
| `ServiceCache.Update` | pkg/cache/service.go:151-184 | NodePort and LoadBalancer objects are ignored, others are recorded |
| `ServiceCache.ServiceCacheIsRebuild` | pkg/cache/service.go:151-305 | while no Service with entries turns into a skipped type, the service table after a sync is the union over the live Services |
| `ServiceCache.ScopeExact` | pkg/cache/service.go:161-163 | that assumption is exact, whatever is pending: the next sync is right iff it held |
| `ServiceCache.NodePortLeavesEntry` | pkg/cache/service.go:161-163 | a run in which a ClusterIP Service turns into a NodePort one and its entry survives the next sync |
| `ImportCache.ServiceImportToServiceMap` | pkg/cache/serviceimport.go:227-250 | one entry per port key, that of the last port of that name, with its fields and the answer of the lister as address |
| `ImportCache.EndpointsToEndpointsMap` | pkg/cache/serviceimport.go:272-296 | each port key with endpoints is mapped to them in document order |
| `ImportCache.EndpointListMembers` | pkg/cache/serviceimport.go:272-303 | an endpoint is listed under a name iff a port of the import of that name has it: host, colon, number and path of its target as text, its cluster, and no node or host name |
| `ImportCache.EndpointListInOrder` | pkg/cache/serviceimport.go:277-293 | port by port, in order, with one entry per endpoint of a port of that name |
| `ImportCache.ServiceImportChangeTracker.Update` | pkg/cache/serviceimport.go:125-175 | one event is recorded in both pending tables |
| `ImportCache.EndpointsDrainIsRebuild` | pkg/cache/serviceimport.go:158-172 | however the two drains interleave with events, draining endpoints leaves the union of the live imports' endpoints |
| `ImportCache.ImportsDrainKeys` | pkg/cache/serviceimport.go:144-190 | draining services leaves exactly the live imports' port keys, each under its own name, whatever the Service lister answered |
| `IngressCache.HostPathNormal` | pkg/cache/ingress.go:164-196 | a prefix path is written with one trailing wildcard, stably; exact paths stay; other types are not routed |
| `IngressCache.HostPathIff` | pkg/cache/ingress.go:164-196 | the routed path is the given one or, for a prefix, its shortest completion that ends in the wildcard |
| `IngressCache.OursIff` | pkg/ingress/utils.go:23-43 | an Ingress is ours iff it names the pipy class, by annotation before field, or names none and pipy is the default or there is no default |
| `IngressCache.PortByNumberFirst` | pkg/cache/ingress.go:319-323 | a port number means the first Service port that has it, and nothing iff there is none |
| `IngressCache.IngressToIngressMap` | pkg/cache/ingress.go:244-299 | nil for nil, otherwise the routes of the Ingress |
| `IngressCache.CandidatesIff` | pkg/cache/ingress.go:252-323 | the routes an Ingress asks for, field by field: exactly those with the host of a rule, the path of one of its paths with a service backend, that Service and its port by name, or by the first Service port of that number, and the details of the rule |
| `IngressCache.CandidatesInOrder` | pkg/cache/ingress.go:252-292 | rule by rule and path by path, in document order, at most one for a path |
| `IngressCache.FirstPathWins` | pkg/cache/ingress.go:286-292 | a key is routed iff a candidate has it, by the first one in document order |
| `IngressCache.RoutedIff` | pkg/cache/ingress.go:252-292 | a key is routed iff a path of a rule yields it |
| `IngressCache.RoutesFitKeys` | pkg/cache/ingress.go:280-292 | a route's host, path and backend are those of its key, and the backend is a TCP port |
| `IngressCache.UpdateTracker` | pkg/cache/ingress.go:208-242 | invalid Ingresses are ignored, others are recorded |
| `IngressCache.RefreshIngress` | pkg/cache/local_cache.go:262-281 | applies every valid listed Ingress as new together with whatever is pending; at keys no pending change names it removes no route and binds exactly the keys of valid listed Ingresses to a route of a listed one |
| `IngressRuns.ChangeKeepsKeysIff` | pkg/cache/ingress.go:381-403 | for any add, update or delete with previous and current as converted at the event, the keys stay those of the live Ingresses iff each key given up but not unmerged is asked for by another Ingress and no key unmerged for good is |
| `IngressRuns.SyncKeepsKeysIff` | pkg/cache/ingress.go:365-403 | every order of applying the pending changes gives the keys of the live Ingresses iff no change removes a key that is asked for and each key no change names is present iff asked for |
| `IngressRuns.UnionIff` | pkg/cache/ingress.go:365-403 | changes that lead each Ingress to its latest routes give the union of the live routes in every order iff Ingresses that share a key agree on its route and no change removes a key that is asked for |
| `IngressRuns.StepGood` | pkg/cache/ingress.go:208-242 | in a run with constant answers and fixed classes each right step keeps pending changes in step with the table, and a sync or refresh is right iff the Ingresses so agree then |
| `IngressRuns.SyncsRightIff` | pkg/cache/local_cache.go:213-281 | over every such run, all syncs and refreshes up to some moment are right in every order iff the Ingresses agree at each |
| `IngressRuns.RoutesAreRebuilt` | pkg/cache/local_cache.go:213-281 | so the route table right after such a sync or refresh is the union of the routes of the live valid Ingresses |
| `IngressFailures.ClassChangeIff` | pkg/cache/ingress.go:218-237 | an event that may change the class of an Ingress leaves the next sync right iff an Ingress given up has no routes, and one taken over with nothing pending has none or other ones than before |
| `IngressFailures.SharedKeyLost` | pkg/cache/ingress.go:381-403 | a run in which deleting an Ingress takes the route of another one with the same key |
| `IngressFailures.RenamedPortStays` | pkg/cache/ingress.go:313-323 | a run in which a Service port is renamed, the routes are refreshed, the Ingress is deleted and the old key stays |
| `IngressFailures.TakenOverUnseen` | pkg/cache/ingress.go:218-237 | a run in which an Ingress of another class becomes valid with unchanged rules and gets no route |
| `IngressFailures.TwoShareKey` | pkg/cache/ingress.go:280-284 | two Ingresses with equal rules share a key |
| `IngressFailures.RenameChangesKey` | pkg/cache/ingress.go:319-323 | renaming the port changes the key of an Ingress that names it by number |
| `IngressFailures.ClassNameTakenOver` | pkg/ingress/utils.go:24-42 | the same run by setting nothing but the class name of an Ingress, whatever the default class |
| `IngressRuns.CrashIffUnannotated` | pkg/cache/ingress.go:422-425 | the rebuilt table has a route without upstream settings iff a live valid Ingress with routes has no annotations |
| `IngressFailures.UnannotatedCrashes` | pkg/cache/ingress.go:422-425 | a run of a single Ingress without annotations that ends in such a table |
| `Names.StringInjective` | pkg/cache/types.go:54-63 | names without '/' and ':' are told apart by their text up to the protocol |
| `Names.StringReads` | pkg/cache/types.go:54-63 | namespace, name and port can be read off the text |
| `ServiceRegistry.BuildServiceRoutes` | pkg/cache/local_cache.go:417-494 | visits every service port name once and emits the entries of its Service and of its import |
| `ServiceRegistry.EntriesOfName` | pkg/cache/local_cache.go:431-490 | the entries of a service port name: one for a ClusterIP Service with its endpoints in order, tagged by node and host, one for an ExternalName Service with its address, none for other types, and one for an import with the endpoints of other clusters, tagged by cluster |
| `ServiceRegistry.ServiceBatches` | pkg/cache/local_cache.go:496-524 | each name has the addresses of all its entries in order, and only names with an address are present |
| `ServiceRegistry.PublishedRegistry` | pkg/cache/local_cache.go:417-524 | registry conservation: the addresses under a name are, as a bag, the sum over all service port names with that text; empty names are absent |
| `LocalSync.SyncRebuilds` | pkg/cache/local_cache.go:197-211 | in such runs, after the four drains of a sync, with events in between, every table is the rebuilt one of the objects live at its drain |
| `LocalSync.SyncedNamedRight` | pkg/cache/local_cache.go:431-476 | so after every sync entries sit under their own name and port, as publishing needs |
| `LocalSync.RegistryFollowsLive` | pkg/cache/local_cache.go:197-237 | end to end over every run in which no Service with entries turns into a skipped type: under each name the registry has, as a bag, exactly the addresses that the live Services, Endpoints and imports imply, and no other name |
| `LocalSync.AddressPublishedIff` | pkg/cache/local_cache.go:197-237 | in the fields of live objects: an address is under a name iff a service port name with that text has it from a usable address and port of an Endpoints object whose Service is of type ClusterIP, from an external name, or from an endpoint of a live import |
| `IngressConfig.BuildIngressConfig` | pkg/cache/local_cache.go:283-349 | crashes iff a route has no upstream; otherwise publishes one spec per route whose backend has a parseable endpoint, each route visited once |
| `IngressConfig.ParsedMembers` | pkg/cache/local_cache.go:320-338 | an upstream endpoint is listed iff it is the parse of an endpoint of the backend |
| `IngressConfig.ParsedInOrder` | pkg/cache/local_cache.go:320-338 | in the order of the endpoints, each as often as it occurs |
| `IngressConfig.ParsedAll` | pkg/cache/local_cache.go:320-338 | where all parse, one for one at the same places |
| `IngressConfig.SpecsSayRoutes` | pkg/cache/local_cache.go:290-345 | a spec is published iff it has host, path, service, rewrite, balancing, upstream and TLS settings of a route whose backend has a parseable endpoint, and lists its parseable endpoints |
| `IngressConfig.IngressBatches` | pkg/cache/local_cache.go:351-415 | fills router, balancer and certificates from the routes in order and lists the trusted authorities once each |
| `IngressConfig.RouterLastWins` | pkg/cache/local_cache.go:366-368 | a router key is present iff a route has it, bound to the last one |
| `IngressConfig.BalancerLastWins` | pkg/cache/local_cache.go:370-371 | a service is present iff a route names it, bound to the last one |
| `IngressConfig.CertificatesFirstWins` | pkg/cache/local_cache.go:373-381 | a host has certificates iff a TLS route names it, those of the first |
| `IngressConfig.CertificatesComeFromRoutes` | pkg/cache/local_cache.go:311-381 | the certificate entry of a host has certificate, trusted CA, client verification, depth and wildcard flag of a TLS route of that host |
| `IngressConfig.TrustedIff` | pkg/cache/local_cache.go:373-389 | an authority is published iff some route brings it that is not a further TLS route of its host |
| `IngressConfig.RepeatedHostLosesCA` | pkg/cache/local_cache.go:373-378 | the authority of a second TLS route of a host is lost |
| `IngressConfig.RouterServicesBalanced` | pkg/cache/local_cache.go:366-371 | every service the router names is balanced, for each routed backend of that name over exactly the parses of the endpoints of that backend, never none |
| `IngressConfig.EntriesComeFromRoutes` | pkg/cache/local_cache.go:366-371 | router and balancer entries carry the settings of a route with that host and path, or that backend |
| `IngressConfig.RoutesReachable` | pkg/cache/local_cache.go:341-371 | a route whose backend has a parseable endpoint is in the router and its service in the balancer |
| `IngressConfig.ColonsConfuse` | pkg/cache/types.go:54-63 | with ':' in a name two backends can have one text |
| `IngressSync.RouterIff` | pkg/cache/local_cache.go:283-371 | from rebuilt tables, a host and path are in the router iff they are those of a path of a rule of a live valid Ingress whose backend has an endpoint that parses and that its live Endpoints object offers |
| `IngressSync.BalancerFollowsLive` | pkg/cache/local_cache.go:320-371 | and for every routed backend of that name the service of a router entry is balanced over an upstream endpoint iff it is the parse of an endpoint that the live Endpoints object of the backend offers |
| `IngressSync.RouterFollowsLive` | pkg/cache/local_cache.go:210-258 | end to end over every steady run in which the Ingresses agree at each sync: the build crashes iff a live valid Ingress with routes has no annotations, else the router has exactly the hosts and paths served by live objects |
| `Publishing.HistoryAt` | pkg/cache/local_cache.go:222-237 | in every run, however pushes overlap, the repo holds the last write, the version is that of the last version update, and the writes are the updates together with the pushes in between |
| `Publishing.VersionMatchesRepoIff` | pkg/cache/local_cache.go:222-237 | in every run the version is initial on an empty repo or the hash of the repo iff the content written last is the one whose version was stored last |
| `Publishing.SkipRightIff` | pkg/cache/local_cache.go:222-237 | in every run a sync that skips publishing is right iff the content written last is the one whose version was stored last |
| `Publishing.InOrderMatches` | pkg/cache/local_cache.go:228-236 | pushes that store their versions in the order of their writes may overlap: with none half done the version is right |
| `Publishing.SerialMatches` | pkg/cache/local_cache.go:228-236 | pushes that never overlap store their versions in that order, so with none half done the version is right |
| `Publishing.OverlappingPushesDiverge` | pkg/cache/local_cache.go:228-236 | two overlapping pushes can leave one content under the version of the other |
| `ServiceExports.Reconciler.Reconcile` | controllers/serviceexport/v1alpha1/serviceexport_controller.go:88-199 | the exports with their status and hash and the Ingresses after a reconcile, for every answer about the Service, every listing and whichever call fails |
| `ServiceExports.ReconcileTouchesOnly` | controllers/serviceexport/v1alpha1/serviceexport_controller.go:88-199 | whatever fails, a reconcile changes at most hash and status of its export and the Ingress generated for it |
| `ServiceExports.FailureEnds` | controllers/serviceexport/v1alpha1/serviceexport_controller.go:134-198 | a failed call ends an accepted reconcile: what comes after it does not happen and the status stays; only the hash is stored before the Ingress update |
| `ServiceExports.AnnotationsIff` | controllers/serviceexport/v1alpha1/serviceexport_controller.go:335-357 | the annotations of a spec, key by key and value by value: both rewrite targets iff both are given, stickiness iff asked for, the balancer iff named |
| `ServiceExports.AnnotationsAfterWrite` | controllers/serviceexport/v1alpha1/serviceexport_controller.go:134-190 | a written Ingress has exactly the annotations that the spec asks for and those it had under other keys; a new one only the former |
| `ServiceExports.StatusTells` | controllers/serviceexport/v1alpha1/serviceexport_controller.go:93-199 | a completed reconcile marks the export as exported iff its Service can be exported and no path of a listed Ingress of another owner has path and type of one of its rules, and then its Ingress exists; otherwise the status gives exactly the reason and the Ingresses stay as they are |
| `ServiceExports.Reconciler.FindConflict` | controllers/serviceexport/v1alpha1/serviceexport_controller.go:118-132 | true iff a listed Ingress not controlled by the export has a path and type of one of its rules |
| `ExportPaths.StepApartIff` | controllers/serviceexport/v1alpha1/serviceexport_controller.go:112-198 | for every step, listing and failure, generated Ingresses stay free of common paths iff no Ingress is written while another export's has one of its paths |
| `ExportPaths.AlwaysApartIff` | controllers/serviceexport/v1alpha1/serviceexport_controller.go:112-198 | over every run, with listings that may lag, Ingresses generated for different exports share no path of one type up to some moment iff no reconcile so missed a conflict before it |
| `ExportPaths.GeneratedPathsApart` | controllers/serviceexport/v1alpha1/serviceexport_controller.go:112-198 | with listings that show the other exports' Ingresses as they are they never share one |
| `ExportFailures.LaggingListingShares` | controllers/serviceexport/v1alpha1/serviceexport_controller.go:112-132 | a run in which a lagging listing lets two exports with a common path through |
| `ServiceExports.ReconcileUpToDate` | controllers/serviceexport/v1alpha1/serviceexport_controller.go:134-375 | without failures or outside deletions each accepted reconcile leaves, under svcexp-ing- and the name, an Ingress that the export controls, with one rule whose i-th path has path and type of rule i and leads to its port of the service of that name, and with all annotations the spec asks for, also when the hash test skips the update |
| `ServiceExports.ReconcileUpToDateIff` | controllers/serviceexport/v1alpha1/serviceexport_controller.go:160-196 | a single reconcile fails to do so iff the stored hash is already that of the spec while the Ingress is not up to date |
| `ServiceExports.StaleStays` | controllers/serviceexport/v1alpha1/serviceexport_controller.go:160-198 | no reconcile, failing or not, leads out of that situation, and an accepted one even marks it as exported |
| `ServiceExports.ExactAnnotationsIff` | controllers/serviceexport/v1alpha1/serviceexport_controller.go:183-190 | an update leaves exactly the annotations of the spec iff the Ingress had no other, since none is removed |
| `ExportFailures.StickyStays` | controllers/serviceexport/v1alpha1/serviceexport_controller.go:183-190 | a run without failures in which session stickiness is turned off in the spec and its annotation stays |
| `ExportFailures.FailedUpdateSticks` | controllers/serviceexport/v1alpha1/serviceexport_controller.go:167-196 | a run in which the Ingress update fails after the hash was stored and the Ingress keeps the paths of the old spec |
| `ExportFailures.CollectedIngressStale` | controllers/serviceexport/v1alpha1/serviceexport_controller.go:144-167 | a run without failures in which an Ingress re-created under an old hash goes stale when the spec returns to the hashed one |
| `Finalizers.RemoveFinalizer` | controllers/servicelb/service_controller.go:427-440 | the in-place loop crashes iff the last entry is the finalizer and it occurs twice; otherwise it leaves the swept list |
| `Finalizers.SweepExact` | controllers/servicelb/service_controller.go:432-437 | the sweep removes exactly the finalizer iff no two of them are adjacent |
| `Finalizers.SweepKeepsOthers` | controllers/servicelb/service_controller.go:432-437 | whatever it leaves of the finalizer, the sweep loses and reorders no other one |
| `Finalizers.SweepHalves` | controllers/servicelb/service_controller.go:432-437 | of n finalizers in a row n/2 are left |
| `Finalizers.RepeatedFinalizer` | controllers/servicelb/service_controller.go:432-437 | a list on which a repeated finalizer makes the removal crash, and one on which it stays behind |
| `Finalizers.SingleRemovalExact` | controllers/servicelb/service_controller.go:432-437 | with at most one occurrence removal stays in bounds and leaves the other entries in order |
| `Finalizers.OpsKeepOthers` | controllers/servicelb/service_controller.go:418-440 | any additions and removals keep at most one occurrence, never touch the others, and the last one decides presence |
| `Finalizers.HasFinalizer` | controllers/servicelb/service_controller.go:442-450 | true iff the finalizer is listed |
| `Finalizers.AddFinalizer` | controllers/servicelb/service_controller.go:418-425 | appended iff absent |
| `AddressStatus.IsPodReady` | controllers/servicelb/service_controller.go:456-467 | the first Ready condition decides |
| `AddressStatus.ReadyIff` | controllers/servicelb/service_controller.go:456-467 | ready iff the first condition of kind Ready has status True |
| `AddressStatus.PodIPs` | controllers/servicelb/service_controller.go:337-392 | read errors and unhandled policies are reported; otherwise the IPv4 part of external, else internal, addresses of ready pods' nodes, each once in some order |
| `AddressStatus.ExpectedIff` | controllers/servicelb/service_controller.go:337-392 | an address is expected iff it is IPv4 and an external address of the node of a ready pod with an address or, only if there is no external one at all, an internal one |
| `AddressStatus.FilterByIPFamily` | controllers/servicelb/service_controller.go:394-416 | keeps the IPv4 addresses for single-stack IPv4 Services, an error otherwise |
| `AddressStatus.ServiceIPs` | controllers/servicelb/service_controller.go:325-335 | the non-empty published addresses in order |
| `AddressStatus.StringsEqual` | pkg/util/slice.go:19-29 | true iff the two lists are equal |
| `AddressStatus.UpdateStatus` | controllers/servicelb/service_controller.go:276-322 | adds the finalizer and writes the sorted expected addresses iff they differ from the sorted published ones, whichever write fails |
| `AddressStatus.StatusNeedsFinalizer` | controllers/servicelb/service_controller.go:306-321 | published addresses change only together with the finalizer, other finalizers stay, and it is not added twice |
| `AddressStatus.SortEnumerations` | controllers/servicelb/service_controller.go:300-301 | sorting any two enumerations of one set gives the same list |
| `AddressStatus.SecondReconcileQuiet` | controllers/servicelb/service_controller.go:294-321 | after a write a second reconcile with the same pods and nodes writes nothing |
| `AddressStatus.WriteIffSetsDiffer` | controllers/servicelb/service_controller.go:294-321 | with a status of distinct, non-empty addresses a write is attempted iff the published set is not the expected one, and a completed one publishes it sorted |
| `AddressStatus.UnchangedIff` | controllers/servicelb/service_controller.go:294-304 | for any status: it is left alone iff its non-empty entries are the expected addresses, each once |
| `WorkerPool.WorkerPool.constructor` | pkg/workqueue/workqueue.go:160-186 | as many idle workers as asked for, one per processor for zero, none for a negative number |
| `WorkerPool.WorkerPool.AddJob` | pkg/workqueue/workqueue.go:190-193 | the job goes to the worker of its hash, or blocks when that queue is full; without workers the division fails |
| `WorkerPool.WorkerPool.AddJobRoundRobin` | pkg/workqueue/workqueue.go:198-201 | the 64-bit counter moves, draws the worker, and the job is queued or waits |
| `WorkerPool.WorkerPool.StartJob` | pkg/workqueue/workqueue.go:221-224 | an idle worker takes the first job of its queue |
| `WorkerPool.WorkerPool.FinishJob` | pkg/workqueue/workqueue.go:226-230 | a finished job is counted, modulo 2^64 |
| `WorkerPool.StepInv` | pkg/workqueue/workqueue.go:190-237 | every step keeps each worker's jobs in sending order and its queue within 4096 |
| `WorkerPool.EqualHashInOrder` | pkg/workqueue/workqueue.go:190-193 | in every run jobs added with one hash begin in the order they were sent |
| `WorkerPool.JobsConserved` | pkg/workqueue/workqueue.go:216-237 | in every run sent = queued + running + processed, with the processed ones as the workers count them below 2^64, and no queue exceeds 4096 |
| `WorkerPool.RoundRobinFair` | pkg/workqueue/workqueue.go:198-201 | until the counter wraps, or when the workers divide 2^64, each of n workers received, or is about to by a blocked call, floor(k/n) or ceil(k/n) of the jobs of k calls; with no call blocked it received them |
| `RoundRobin.FairForeverIff` | pkg/workqueue/workqueue.go:199-200 | past the wrap fairness goes on forever iff the number of workers divides it |
| `HelmValues.MergeMaps` | pkg/helm/helm.go:152-169 | the two loops and the recursion compute the merge |
| `HelmValues.LookupRightBiased` | pkg/helm/helm.go:152-169 | lookup by path: the right value wins, maps at one path merge, the left shows where the right has nothing on the way |
| `HelmValues.MergeIdempotent` | pkg/helm/helm.go:152-169 | merging a value over itself gives it back |
| `HelmValues.MergeAgain` | pkg/helm/helm.go:152-169 | merging the same values in twice is merging them once |
| `HelmValues.AbsorbedIff` | pkg/helm/helm.go:157-167 | merging c over a gives c iff every key of a is in c, down through common maps |
| `HelmValues.AssociativeIff` | pkg/helm/helm.go:152-169 | merging three values is associative iff no path is a map in a, a leaf in b and a map in c that does not absorb a's |

## Left out

- Connector start-up, kubeconfig handling, cluster status conditions and the set of clusters changing during a run.
- Withdrawals whose Service was deleted first: the event is dropped by the informer handler, so the model's runs do not contain it.
- The status conditions that make already rejected or invalid exports be ignored; such events change nothing in the model.
- Export target clusters: the field exists in the API but the federation code does not read it.
- Session affinity, IPs and type of a ServiceImport: set once or never, read nowhere.
- The in-cluster connector: its cluster is skipped by decisions and handles no export messages.
- Ingress annotations and TLS secret lookup: straight-line branching, kept as a parameter.
- Log output, metrics, events, rate limits, sync periods and the stop channels of the worker pool beyond halting an idle worker.
- DaemonSet creation for load-balanced Services, the gateway controllers, webhooks, certificates, the repo client and the proxy scripts.
- Generated client, lister and deep-copy code.
- Publishing: the hash function itself; the model takes it to tell route contents apart up to order.
- ServiceExports: nil path types and rules without HTTP paths in other Ingresses, on which the scan of the source would crash.
- ServiceExports: reads other than the listing are taken as current; the message and time of a status condition.
- IngressRuns.RoutesAreRebuilt: a refresh lists the Ingresses whose events were handled; an informer store ahead of its handlers is not modelled, and routes of a version that was listed but coalesced away could then stay.
