/** One sync of the local cache from the live objects to the published registry (syncRoutes in
    pkg/cache/local_cache.go).  The four tables are drained one after the other while events keep coming. */
module LocalSync {
  import opened Bags
  import opened Names
  import opened CacheTypes
  import opened ChangeTracking
  import opened ServiceRegistry
  import S = ServiceCache
  import M = ImportCache
  import E = EndpointsCache

  datatype World = World(services: S.State, imports: M.State, endpoints: E.State)

  datatype Step =
    | OnServices(service: CacheStep<S.Service, ServiceInfo>)
    | OnImports(imp: M.Step)
    | OnEndpoints(endpoint: E.Step)

  /** Which table a step drains, if any. */
  datatype Drained = Nothing | Services | Imports | ImportedEndpoints | LocalEndpoints

  function DrainOf(step: Step): Drained {
    match step
    case OnServices(service) => if service.Sync? then Services else Nothing
    case OnImports(imp) =>
      if imp.SyncImports? then Imports else if imp.SyncEndpoints? then ImportedEndpoints else Nothing
    case OnEndpoints(endpoint) => if endpoint.Sync? then LocalEndpoints else Nothing
  }

  ghost predicate Next(usable: string -> bool, isIPv4: string -> bool, w: World, step: Step, w': World) {
    match step
    case OnServices(service) => S.NextInScope(usable, w.services, service, w'.services)
      && w' == w.(services := w'.services)
    case OnImports(imp) => M.Next(w.imports, imp, w'.imports) && w' == w.(imports := w'.imports)
    case OnEndpoints(endpoint) =>
      E.Next(isIPv4, w.endpoints, endpoint, w'.endpoints) && w' == w.(endpoints := w'.endpoints)
  }

  function Empty(): World {
    World(Cache(map[], map[], map[]), M.State(map[], map[], map[], map[], map[]), Cache(map[], map[], map[]))
  }

  /** The step at `i` of a run is one of the cache. */
  ghost predicate StepAt(usable: string -> bool, isIPv4: string -> bool, states: seq<World>, steps: seq<Step>, i: int) {
    0 <= i < |steps| && |states| == |steps| + 1 && Next(usable, isIPv4, states[i], steps[i], states[i + 1])
  }

  ghost predicate IsRun(usable: string -> bool, isIPv4: string -> bool, states: seq<World>, steps: seq<Step>) {
    && |states| == |steps| + 1 && states[0] == Empty()
    && forall i :: 0 <= i < |steps| ==> StepAt(usable, isIPv4, states, steps, i)
  }

  ghost predicate Good(usable: string -> bool, isIPv4: string -> bool, w: World) {
    CacheInv(Same, S.Converter(usable), w.services) && M.Good(w.imports) && E.Good(isIPv4, w.endpoints)
  }

  lemma StartGood(usable: string -> bool, isIPv4: string -> bool)
    ensures Good(usable, isIPv4, Empty())
  {
    var w := Empty();
    forall n ensures InStep(Same, S.Converter(usable), w.services, n) { assert Slice(w.services.table, n) == map[]; }
    M.GoodAt([w.imports], [], 0);
    E.GoodAt(isIPv4, [w.endpoints], [], 0);
  }

  lemma {:induction false} GoodAt(usable: string -> bool, isIPv4: string -> bool, states: seq<World>, steps: seq<Step>,
                                  i: nat)
    requires IsRun(usable, isIPv4, states, steps) && i < |states|
    ensures Good(usable, isIPv4, states[i])
  {
    if i == 0 {
      StartGood(usable, isIPv4);
    } else {
      GoodAt(usable, isIPv4, states, steps, i - 1);
      var w, w' := states[i - 1], states[i];
      assert StepAt(usable, isIPv4, states, steps, i - 1);
      match steps[i - 1]
      case OnServices(service) => S.NextKeeps(usable, w.services, service, w'.services);
      case OnImports(imp) => M.NextGood(w.imports, imp, w'.imports);
      case OnEndpoints(endpoint) => E.NextGood(isIPv4, w.endpoints, endpoint, w'.endpoints);
    }
  }

  function TablesOf(w: World): Tables {
    Tables(w.services.table, w.imports.table, w.endpoints.table, w.imports.endpointTable)
  }

  ghost predicate SameTable(what: Drained, t: Tables, t': Tables) {
    match what
    case Nothing => true
    case Services => t.services == t'.services
    case Imports => t.imports == t'.imports
    case ImportedEndpoints => t.multiClusterEndpoints == t'.multiClusterEndpoints
    case LocalEndpoints => t.endpoints == t'.endpoints
  }

  /** A table changes only when it is drained. */
  lemma {:induction false} Kept(usable: string -> bool, isIPv4: string -> bool, states: seq<World>, steps: seq<Step>,
                                i: nat, j: nat, what: Drained)
    requires IsRun(usable, isIPv4, states, steps) && i <= j < |states|
    requires forall x :: i <= x < j ==> DrainOf(steps[x]) != what
    ensures SameTable(what, TablesOf(states[i]), TablesOf(states[j]))
  {
    if i < j {
      Kept(usable, isIPv4, states, steps, i, j - 1, what);
      assert StepAt(usable, isIPv4, states, steps, j - 1);
      assert DrainOf(steps[j - 1]) != what;
    }
  }

  // ------------------------------------------------------- what live objects imply

  /** The live objects as each table last saw them. */
  datatype Live = Live(
    services: map<NamespacedName, S.Service>,
    imports: map<NamespacedName, M.ImportObject>,
    importedEndpoints: map<NamespacedName, M.ImportObject>,
    endpoints: map<NamespacedName, E.Endpoints>)

  ghost predicate ServiceHas(usable: string -> bool, live: Live, k: ServicePortName) {
    var n := k.namespacedName;
    n in live.services && k in S.ServiceTable(usable, live.services[n])
  }

  ghost predicate ImportHas(live: Live, k: ServicePortName) {
    k.namespacedName in live.imports && k in M.PortKeys(live.imports[k.namespacedName])
  }

  function RemoteEndpointsOf(live: Live, k: ServicePortName): seq<EndpointInfo> {
    var n := k.namespacedName;
    if n !in live.importedEndpoints then [] else
    M.EndpointList(live.importedEndpoints[n], live.importedEndpoints[n].ports, k)
  }

  /** A port of a live ClusterIP Service stands for the usable addresses of the live Endpoints, one of an
      ExternalName Service for its external address; a port of a live import adds the other clusters'. */
  ghost function Implied(usable: string -> bool, isIPv4: string -> bool, live: Live,
                         k: ServicePortName): multiset<string> {
    OwnImplied(usable, isIPv4, live, k) +
    (if ImportHas(live, k) then Image(EndpointText, RemoteEndpointsOf(live, k)) else multiset{})
  }

  ghost function OwnImplied(usable: string -> bool, isIPv4: string -> bool, live: Live,
                            k: ServicePortName): multiset<string> {
    if !ServiceHas(usable, live, k) then multiset{} else
    var svc := live.services[k.namespacedName];
    if svc.kind.ClusterIP? then Image(EndpointText, E.ListOf(isIPv4, live.endpoints, k))
    else multiset{S.ServiceTable(usable, svc)[k].address}
  }

  ghost function ImpliedBags(usable: string -> bool, isIPv4: string -> bool,
                             live: Live): ServicePortName -> multiset<string> {
    k => Implied(usable, isIPv4, live, k)
  }

  ghost function ImpliedNames(usable: string -> bool, live: Live): set<ServicePortName> {
    (set n, k | n in live.services && k in S.ServiceTable(usable, live.services[n]) && k.namespacedName == n :: k) +
    (set n, k | n in live.imports && k in M.PortKeys(live.imports[n]) && k.namespacedName == n :: k)
  }

  /** The tables are the rebuilt ones of those live objects; of the imports, the keys are. */
  ghost predicate Rebuilt(usable: string -> bool, isIPv4: string -> bool, live: Live, t: Tables) {
    && IsRebuild(S.Converter(usable), live.services, t.services)
    && (forall k :: k in t.imports <==> ImportHas(live, k))
    && IsRebuild(M.EndpointsTable, live.importedEndpoints, t.multiClusterEndpoints)
    && IsRebuild(E.Converter(isIPv4), live.endpoints, t.endpoints)
  }

  lemma RemoteEndpointsAt(live: Live, endpoints: map<ServicePortName, seq<EndpointInfo>>, k: ServicePortName)
    requires IsRebuild(M.EndpointsTable, live.importedEndpoints, endpoints)
    ensures At(endpoints, k) == RemoteEndpointsOf(live, k)
  {
    var n := k.namespacedName;
    if n in live.importedEndpoints {
      var o := live.importedEndpoints[n];
      if M.EndpointList(o, o.ports, k) != [] { M.ListedKeys(o, o.ports, k); }
    }
  }

  lemma ServicesAt(usable: string -> bool, live: Live, services: map<ServicePortName, ServiceInfo>, k: ServicePortName)
    requires IsRebuild(S.Converter(usable), live.services, services)
    ensures k in services <==> ServiceHas(usable, live, k)
    ensures k in services ==>
      && services[k] == S.ServiceTable(usable, live.services[k.namespacedName])[k]
      && services[k].kind == live.services[k.namespacedName].kind
      && (services[k].kind.ClusterIP? || services[k].kind.ExternalName?)
  {
    if k in services {
      var svc := live.services[k.namespacedName];
      assert services[k] == S.Converter(usable)(svc)[k];
      S.EntriesStandForPorts(usable, svc, k);
    }
  }

  /** A key of the tables stands for the addresses that the live objects imply. */
  lemma BagImplied(usable: string -> bool, isIPv4: string -> bool, live: Live, t: Tables, k: ServicePortName)
    requires Rebuilt(usable, isIPv4, live, t)
    ensures AddressBag(t, k) == Implied(usable, isIPv4, live, k)
  {
    ServicesAt(usable, live, t.services, k);
    E.RebuildLists(isIPv4, live.endpoints, t.endpoints, k);
    RemoteEndpointsAt(live, t.multiClusterEndpoints, k);
  }

  lemma NamesImplied(usable: string -> bool, isIPv4: string -> bool, live: Live, t: Tables)
    requires Rebuilt(usable, isIPv4, live, t)
    ensures AllNames(t) == ImpliedNames(usable, live)
  {
    forall k ensures k in AllNames(t) <==> k in ImpliedNames(usable, live) {
      ServicesAt(usable, live, t.services, k);
    }
  }

  lemma RegistryImplied(usable: string -> bool, isIPv4: string -> bool, live: Live, t: Tables, registry: Registry,
                        s: string)
    requires Rebuilt(usable, isIPv4, live, t) && Conserves(registry, t)
    ensures Holds(registry, ImpliedBags(usable, isIPv4, live), ImpliedNames(usable, live), s)
  {
    assert Holds(registry, AddressBags(t), AllNames(t), s);
    NamesImplied(usable, isIPv4, live, t);
    forall k ensures AddressBags(t)(k) == ImpliedBags(usable, isIPv4, live)(k) {
      BagImplied(usable, isIPv4, live, t, k);
    }
    SumSame(AddressBags(t), ImpliedBags(usable, isIPv4, live), AllNames(t), s);
  }

  // ----------------------------------------------- the same, address by address

  /** A live Service has a port of that name and a cluster address. */
  ghost predicate HasService(live: Live, k: ServicePortName) {
    && k.namespacedName in live.services && live.services[k.namespacedName].clusterIP != ""
    && exists p :: p in live.services[k.namespacedName].ports && S.Named(live.services[k.namespacedName], p, k)
  }

  /** The live Endpoints of that name offer the address. */
  ghost predicate OffersLocally(isIPv4: string -> bool, live: Live, k: ServicePortName, a: string) {
    k.namespacedName in live.endpoints &&
    var o := live.endpoints[k.namespacedName];
    exists ss, info :: ss in o.subsets && E.Offered(isIPv4, o, ss.addresses, ss.ports, k, info) && info.endpoint == a
  }

  /** The address is the external name of the Service with the target of its last port of that name. */
  ghost predicate IsExternal(live: Live, k: ServicePortName, a: string) {
    k.namespacedName in live.services &&
    var svc := live.services[k.namespacedName];
    exists i, t :: S.LastNamed(svc, svc.ports, k, i) && IsDecimal(t, svc.ports[i].targetPort) &&
      a == svc.externalName + ":" + t
  }

  /** The live import of that name has an endpoint of another cluster with that text. */
  ghost predicate OffersRemotely(live: Live, k: ServicePortName, a: string) {
    && k.namespacedName in live.imports && M.HasPort(live.imports[k.namespacedName], k)
    && k.namespacedName in live.importedEndpoints
    && var o := live.importedEndpoints[k.namespacedName];
       exists info :: M.Imported(o.ports, o, k, info) && info.endpoint == a
  }

  ghost predicate Offers(usable: string -> bool, isIPv4: string -> bool, live: Live, k: ServicePortName, a: string) {
    OffersRemotely(live, k, a) || OffersOwn(usable, isIPv4, live, k, a)
  }

  ghost predicate OffersOwn(usable: string -> bool, isIPv4: string -> bool, live: Live, k: ServicePortName, a: string) {
    && HasService(live, k)
    && match live.services[k.namespacedName].kind
       case ClusterIP => OffersLocally(isIPv4, live, k, a)
       case ExternalName => usable(live.services[k.namespacedName].externalName) && IsExternal(live, k, a)
       case NodePort => false
       case LoadBalancer => false
  }

  lemma LocalListIff(isIPv4: string -> bool, live: Live, k: ServicePortName, a: string)
    ensures a in Image(EndpointText, E.ListOf(isIPv4, live.endpoints, k)) <==> OffersLocally(isIPv4, live, k, a)
  {
    ImageMembers(EndpointText, E.ListOf(isIPv4, live.endpoints, k), a);
    if k.namespacedName in live.endpoints {
      var o := live.endpoints[k.namespacedName];
      forall info ensures info in E.EndpointList(isIPv4, o, k) <==>
        exists ss :: ss in o.subsets && E.Offered(isIPv4, o, ss.addresses, ss.ports, k, info)
      {
        E.EndpointListMembers(isIPv4, o, o.subsets, k, info);
      }
      if info :| info in E.ListOf(isIPv4, live.endpoints, k) && EndpointText(info) == a {
        var ss :| ss in o.subsets && E.Offered(isIPv4, o, ss.addresses, ss.ports, k, info);
      }
      if ss, info :| ss in o.subsets && E.Offered(isIPv4, o, ss.addresses, ss.ports, k, info) && info.endpoint == a {
        assert info in E.ListOf(isIPv4, live.endpoints, k) && EndpointText(info) == a;
      }
    }
  }

  lemma RemoteListIff(live: Live, k: ServicePortName, a: string)
    ensures ImportHas(live, k) && a in Image(EndpointText, RemoteEndpointsOf(live, k)) <==> OffersRemotely(live, k, a)
  {
    ImageMembers(EndpointText, RemoteEndpointsOf(live, k), a);
    if k.namespacedName in live.imports { M.PortKeysIff(live.imports[k.namespacedName], k); }
    if k.namespacedName in live.importedEndpoints {
      var o := live.importedEndpoints[k.namespacedName];
      forall info ensures info in M.EndpointList(o, o.ports, k) <==> M.Imported(o.ports, o, k, info) {
        M.EndpointListMembers(o, o.ports, k, info);
      }
    }
  }

  lemma ExternalIff(usable: string -> bool, live: Live, k: ServicePortName, a: string)
    requires ServiceHas(usable, live, k) && live.services[k.namespacedName].kind.ExternalName?
    ensures a == S.ServiceTable(usable, live.services[k.namespacedName])[k].address <==> IsExternal(live, k, a)
  {
    var svc := live.services[k.namespacedName];
    var info := S.ServiceTable(usable, svc)[k];
    S.EntriesStandForPorts(usable, svc, k);
    var i :| S.LastNamed(svc, svc.ports, k, i) && S.StandsFor(info, svc, svc.ports[i]);
    forall j | S.LastNamed(svc, svc.ports, k, j) ensures j == i { }
    forall t ensures IsDecimal(t, svc.ports[i].targetPort) <==> t == Decimal(svc.ports[i].targetPort) {
      DecimalIff(t, svc.ports[i].targetPort);
    }
  }

  lemma OwnIff(usable: string -> bool, isIPv4: string -> bool, live: Live, k: ServicePortName, a: string)
    ensures a in OwnImplied(usable, isIPv4, live, k) <==> OffersOwn(usable, isIPv4, live, k, a)
    ensures OffersOwn(usable, isIPv4, live, k, a) ==> ServiceHas(usable, live, k)
  {
    if k.namespacedName in live.services {
      LocalListIff(isIPv4, live, k, a);
      S.EntriesStandForPorts(usable, live.services[k.namespacedName], k);
      if ServiceHas(usable, live, k) && live.services[k.namespacedName].kind.ExternalName? {
        ExternalIff(usable, live, k, a);
      }
    }
  }

  lemma ImpliedIff(usable: string -> bool, isIPv4: string -> bool, live: Live, k: ServicePortName, a: string)
    ensures a in Implied(usable, isIPv4, live, k) <==> Offers(usable, isIPv4, live, k, a)
    ensures Offers(usable, isIPv4, live, k, a) ==> k in ImpliedNames(usable, live)
  {
    RemoteListIff(live, k, a);
    OwnIff(usable, isIPv4, live, k, a);
    if k.namespacedName in live.imports { M.PortKeysIff(live.imports[k.namespacedName], k); }
  }

  // ------------------------------------------------------------------ end to end

  /** The four drains of one sync, in the order of the source, with any events but no other drain between. */
  ghost predicate IsSync(steps: seq<Step>, a: nat, b: nat, c: nat, d: nat) {
    && a < b < c < d < |steps|
    && DrainOf(steps[a]) == Services && DrainOf(steps[b]) == Imports
    && DrainOf(steps[c]) == ImportedEndpoints && DrainOf(steps[d]) == LocalEndpoints
    && forall x :: a < x < d && x != b && x != c ==> DrainOf(steps[x]) == Nothing
  }

  ghost function LiveAt(states: seq<World>, a: nat, b: nat, c: nat, d: nat): Live
    requires a < |states| && b < |states| && c < |states| && d < |states|
  {
    Live(states[a].services.live, states[b].imports.live, states[c].imports.live, states[d].endpoints.live)
  }

  /** One table is the rebuilt one of the objects that were live in `w`. */
  ghost predicate RebuiltPart(usable: string -> bool, isIPv4: string -> bool, what: Drained, w: World, t: Tables) {
    match what
    case Nothing => true
    case Services => IsRebuild(S.Converter(usable), w.services.live, t.services)
    case Imports => forall k :: k in t.imports <==>
      k.namespacedName in w.imports.live && k in M.PortKeys(w.imports.live[k.namespacedName])
    case ImportedEndpoints => IsRebuild(M.EndpointsTable, w.imports.live, t.multiClusterEndpoints)
    case LocalEndpoints => IsRebuild(E.Converter(isIPv4), w.endpoints.live, t.endpoints)
  }

  lemma DrainRebuilds(usable: string -> bool, isIPv4: string -> bool, states: seq<World>, steps: seq<Step>, i: nat)
    requires IsRun(usable, isIPv4, states, steps) && i < |steps|
    ensures RebuiltPart(usable, isIPv4, DrainOf(steps[i]), states[i + 1], TablesOf(states[i + 1]))
  {
    GoodAt(usable, isIPv4, states, steps, i + 1);
    assert StepAt(usable, isIPv4, states, steps, i);
    var w := states[i + 1];
    match DrainOf(steps[i])
    case Nothing =>
    case Services =>
      InStepRebuilds(Same, S.Converter(usable), w.services);
      ProjectSame(w.services.table);
    case Imports =>
      InStepRebuilds(M.Unit, M.KeysTable, M.ImportSide(w.imports));
      ProjectKeys(M.Unit, w.imports.table);
      assert forall k :: k in Project(M.Unit, w.imports.table) <==> k in w.imports.table;
    case ImportedEndpoints =>
      InStepRebuilds(Same, M.EndpointsTable, M.EndpointSide(w.imports));
      ProjectSame(w.imports.endpointTable);
    case LocalEndpoints =>
      InStepRebuilds(Same, E.Converter(isIPv4), w.endpoints);
      ProjectSame(w.endpoints.table);
  }

  /** The step at `i` is the last up to `d` that drains that table. */
  ghost predicate LastDrain(steps: seq<Step>, i: nat, d: nat, what: Drained) {
    i <= d < |steps| && DrainOf(steps[i]) == what && forall x :: i < x <= d ==> DrainOf(steps[x]) != what
  }

  /** A table is the rebuilt one until it is drained again. */
  lemma DrainedPart(usable: string -> bool, isIPv4: string -> bool, states: seq<World>, steps: seq<Step>,
                    i: nat, d: nat, what: Drained)
    requires IsRun(usable, isIPv4, states, steps) && LastDrain(steps, i, d, what)
    ensures RebuiltPart(usable, isIPv4, what, states[i + 1], TablesOf(states[d + 1]))
  {
    DrainRebuilds(usable, isIPv4, states, steps, i);
    Kept(usable, isIPv4, states, steps, i + 1, d + 1, what);
    PartKept(usable, isIPv4, what, states[i + 1], TablesOf(states[i + 1]), TablesOf(states[d + 1]));
  }

  lemma PartKept(usable: string -> bool, isIPv4: string -> bool, what: Drained, w: World, t: Tables, t': Tables)
    requires RebuiltPart(usable, isIPv4, what, w, t) && SameTable(what, t, t')
    ensures RebuiltPart(usable, isIPv4, what, w, t')
  {
  }

  lemma SyncDrains(steps: seq<Step>, a: nat, b: nat, c: nat, d: nat)
    requires IsSync(steps, a, b, c, d)
    ensures LastDrain(steps, a, d, Services) && LastDrain(steps, b, d, Imports)
    ensures LastDrain(steps, c, d, ImportedEndpoints) && LastDrain(steps, d, d, LocalEndpoints)
  {
  }

  lemma SyncRebuilds(usable: string -> bool, isIPv4: string -> bool, states: seq<World>, steps: seq<Step>,
                     a: nat, b: nat, c: nat, d: nat)
    requires IsRun(usable, isIPv4, states, steps) && IsSync(steps, a, b, c, d)
    ensures Rebuilt(usable, isIPv4, LiveAt(states, a + 1, b + 1, c + 1, d + 1), TablesOf(states[d + 1]))
  {
    SyncDrains(steps, a, b, c, d);
    DrainedPart(usable, isIPv4, states, steps, a, d, Services);
    DrainedPart(usable, isIPv4, states, steps, b, d, Imports);
    DrainedPart(usable, isIPv4, states, steps, c, d, ImportedEndpoints);
    DrainedPart(usable, isIPv4, states, steps, d, d, LocalEndpoints);
    PartsMakeRebuilt(usable, isIPv4, states[a + 1], states[b + 1], states[c + 1], states[d + 1],
      TablesOf(states[d + 1]));
  }

  lemma PartsMakeRebuilt(usable: string -> bool, isIPv4: string -> bool, a: World, b: World, c: World, d: World,
                         t: Tables)
    requires RebuiltPart(usable, isIPv4, Services, a, t) && RebuiltPart(usable, isIPv4, Imports, b, t)
    requires RebuiltPart(usable, isIPv4, ImportedEndpoints, c, t) && RebuiltPart(usable, isIPv4, LocalEndpoints, d, t)
    ensures Rebuilt(usable, isIPv4, Live(a.services.live, b.imports.live, c.imports.live, d.endpoints.live), t)
  {
  }

  /** What publishing needs of the tables holds after every sync. */
  lemma SyncedNamedRight(usable: string -> bool, isIPv4: string -> bool, states: seq<World>, steps: seq<Step>,
                         a: nat, b: nat, c: nat, d: nat)
    requires IsRun(usable, isIPv4, states, steps) && IsSync(steps, a, b, c, d)
    ensures var t := TablesOf(states[d + 1]); NamedRight(t.services) && NamedRight(t.imports)
  {
    SyncDrains(steps, a, b, c, d);
    DrainedPart(usable, isIPv4, states, steps, a, d, Services);
    GoodAt(usable, isIPv4, states, steps, d + 1);
    TablesNamedRight(usable, isIPv4, states[a + 1], states[d + 1]);
  }

  lemma TablesNamedRight(usable: string -> bool, isIPv4: string -> bool, drained: World, w: World)
    requires RebuiltPart(usable, isIPv4, Services, drained, TablesOf(w)) && Good(usable, isIPv4, w)
    ensures NamedRight(w.services.table) && NamedRight(w.imports.table)
  {
    S.RebuildNamedRight(usable, drained.services.live, w.services.table);
  }

  /** End to end: over every interleaving of events and syncs, the registry published after a sync has, under
      every name, exactly the addresses that the live Services, Endpoints and imports imply. */
  lemma RegistryFollowsLive(usable: string -> bool, isIPv4: string -> bool, states: seq<World>, steps: seq<Step>,
                            a: nat, b: nat, c: nat, d: nat, registry: Registry, s: string)
    requires IsRun(usable, isIPv4, states, steps) && IsSync(steps, a, b, c, d)
    requires Conserves(registry, TablesOf(states[d + 1]))
    ensures var live := LiveAt(states, a + 1, b + 1, c + 1, d + 1);
      Holds(registry, ImpliedBags(usable, isIPv4, live), ImpliedNames(usable, live), s)
  {
    SyncRebuilds(usable, isIPv4, states, steps, a, b, c, d);
    RegistryImplied(usable, isIPv4, LiveAt(states, a + 1, b + 1, c + 1, d + 1), TablesOf(states[d + 1]), registry, s);
  }

  /** In particular: an address is published under a name exactly if some service port name with that text has it
      from a live object, read off the fields of the live Services, Endpoints and imports. */
  lemma AddressPublishedIff(usable: string -> bool, isIPv4: string -> bool, states: seq<World>, steps: seq<Step>,
                            a: nat, b: nat, c: nat, d: nat, registry: Registry, s: string, address: string)
    requires IsRun(usable, isIPv4, states, steps) && IsSync(steps, a, b, c, d)
    requires Conserves(registry, TablesOf(states[d + 1]))
    ensures var live := LiveAt(states, a + 1, b + 1, c + 1, d + 1);
      (s in registry && address in registry[s]) <==>
      exists k :: String(k) == s && Offers(usable, isIPv4, live, k, address)
  {
    var live := LiveAt(states, a + 1, b + 1, c + 1, d + 1);
    RegistryFollowsLive(usable, isIPv4, states, steps, a, b, c, d, registry, s);
    assert address in multiset(At(registry, s)) <==> address in At(registry, s);
    SumMembers(ImpliedBags(usable, isIPv4, live), ImpliedNames(usable, live), s, address);
    forall k ensures address in ImpliedBags(usable, isIPv4, live)(k) <==> Offers(usable, isIPv4, live, k, address) {
      ImpliedIff(usable, isIPv4, live, k, address);
    }
    forall k | Offers(usable, isIPv4, live, k, address) ensures k in ImpliedNames(usable, live) {
      ImpliedIff(usable, isIPv4, live, k, address);
    }
  }
}
