/** From the cache tables to the published service registry (pkg/cache/local_cache.go). */
module ServiceRegistry {
  import opened Bags
  import opened Names
  import opened CacheTypes

  datatype Tables = Tables(
    services: map<ServicePortName, ServiceInfo>,
    imports: map<ServicePortName, ServiceInfo>,
    endpoints: map<ServicePortName, seq<EndpointInfo>>,
    multiClusterEndpoints: map<ServicePortName, seq<EndpointInfo>>)

  datatype Target = Target(address: string, tags: map<string, string>)

  datatype RouteEntry = RouteEntry(name: string, namespace: string, targets: seq<Target>, portName: string)

  type Registry = map<string, seq<string>>

  function At<K, V>(m: map<K, seq<V>>, k: K): seq<V> {
    if k in m then m[k] else []
  }

  function LocalTargets(eps: seq<EndpointInfo>): seq<Target> {
    seq(|eps|, i requires 0 <= i < |eps| => Target(eps[i].endpoint,
      map["Node" := eps[i].nodename, "Host" := eps[i].hostname]))
  }

  function RemoteTargets(eps: seq<EndpointInfo>): seq<Target> {
    seq(|eps|, i requires 0 <= i < |eps| => Target(eps[i].endpoint, map["Cluster" := eps[i].cluster]))
  }

  function EntryOf(info: ServiceInfo, targets: seq<Target>): RouteEntry {
    RouteEntry(info.svcName.name, info.svcName.namespace, targets, info.portName)
  }

  /** The entry a Service port adds: its endpoints, or its external address. */
  function ServiceEntries(t: Tables, k: ServicePortName): seq<RouteEntry> {
    if k !in t.services then [] else
    var info := t.services[k];
    match info.kind
    case ClusterIP => [EntryOf(info, LocalTargets(At(t.endpoints, k)))]
    case ExternalName => [EntryOf(info, [Target(info.address, map[])])]
    case NodePort => []
    case LoadBalancer => []
  }

  /** The entry an imported port adds: the endpoints of the other clusters. */
  function ImportEntries(t: Tables, k: ServicePortName): seq<RouteEntry> {
    if k !in t.imports then [] else [EntryOf(t.imports[k], RemoteTargets(At(t.multiClusterEndpoints, k)))]
  }

  function RoutesInOrder(t: Tables, order: seq<ServicePortName>): seq<RouteEntry> {
    if order == [] then [] else
    var k := order[|order| - 1];
    RoutesInOrder(t, order[..|order| - 1]) + ServiceEntries(t, k) + ImportEntries(t, k)
  }

  function AllNames(t: Tables): set<ServicePortName> {
    t.services.Keys + t.imports.Keys
  }

  /** The entry is named after the info, and its targets are the endpoints in order, tagged by `tag`. */
  ghost predicate Targets(r: RouteEntry, info: ServiceInfo, eps: seq<EndpointInfo>, remote: bool) {
    && r.name == info.svcName.name && r.namespace == info.svcName.namespace && r.portName == info.portName
    && |r.targets| == |eps|
    && forall i :: 0 <= i < |eps| ==>
      && r.targets[i].address == eps[i].endpoint
      && r.targets[i].tags.Keys == (if remote then {"Cluster"} else {"Node", "Host"})
      && (remote ==> r.targets[i].tags["Cluster"] == eps[i].cluster)
      && (!remote ==> r.targets[i].tags["Node"] == eps[i].nodename && r.targets[i].tags["Host"] == eps[i].hostname)
  }

  /** A service port name adds one entry for a ClusterIP or ExternalName Service and one for an import, with the
      endpoints of the Service, its external address, or the endpoints of the other clusters. */
  lemma EntriesOfName(t: Tables, k: ServicePortName)
    ensures var es := ServiceEntries(t, k);
      if k !in t.services || t.services[k].kind.NodePort? || t.services[k].kind.LoadBalancer? then es == [] else
      && |es| == 1
      && (t.services[k].kind.ClusterIP? ==>
        Targets(es[0], t.services[k], if k in t.endpoints then t.endpoints[k] else [], false))
      && (t.services[k].kind.ExternalName? ==>
        && Targets(es[0].(targets := []), t.services[k], [], false)
        && |es[0].targets| == 1 && es[0].targets[0].address == t.services[k].address && es[0].targets[0].tags == map[])
    ensures var es := ImportEntries(t, k);
      if k !in t.imports then es == [] else
      && |es| == 1
      && Targets(es[0], t.imports[k], if k in t.multiClusterEndpoints then t.multiClusterEndpoints[k] else [], true)
  {
  }

  method BuildServiceRoutes(t: Tables) returns (routes: seq<RouteEntry>, ghost order: seq<ServicePortName>)
    ensures Enumerates(order, AllNames(t))
    ensures routes == RoutesInOrder(t, order)
  {
    routes, order := [], [];
    var rest := t.services.Keys + t.imports.Keys;
    while rest != {}
      invariant rest <= AllNames(t)
      invariant Enumerates(order, AllNames(t) - rest)
      invariant routes == RoutesInOrder(t, order)
      decreases rest
    {
      var k :| k in rest;
      ghost var before := routes;
      if k in t.services {
        var info := t.services[k];
        match info.kind {
          case ClusterIP =>
            var targets := AddTargets(At(t.endpoints, k));
            routes := routes + [EntryOf(info, targets)];
          case ExternalName => routes := routes + [EntryOf(info, [Target(info.address, map[])])];
          case NodePort =>
          case LoadBalancer =>
        }
      }
      assert routes == before + ServiceEntries(t, k);
      if k in t.imports {
        var targets := AddClusterTargets(At(t.multiClusterEndpoints, k));
        routes := routes + [EntryOf(t.imports[k], targets)];
      }
      assert routes == before + ServiceEntries(t, k) + ImportEntries(t, k);
      assert (order + [k])[..|order|] == order;
      order, rest := order + [k], rest - {k};
    }
  }

  method AddTargets(eps: seq<EndpointInfo>) returns (targets: seq<Target>)
    ensures targets == LocalTargets(eps)
  {
    targets := [];
    for i := 0 to |eps|
      invariant targets == LocalTargets(eps)[..i]
    {
      targets := targets + [Target(eps[i].endpoint, map["Node" := eps[i].nodename, "Host" := eps[i].hostname])];
    }
  }

  method AddClusterTargets(eps: seq<EndpointInfo>) returns (targets: seq<Target>)
    ensures targets == RemoteTargets(eps)
  {
    targets := [];
    for i := 0 to |eps|
      invariant targets == RemoteTargets(eps)[..i]
    {
      targets := targets + [Target(eps[i].endpoint, map["Cluster" := eps[i].cluster])];
    }
  }

  // ---------------------------------------------------------------- the registry

  function EntryName(r: RouteEntry): string {
    r.namespace + "/" + r.name + FmtPortName(r.portName)
  }

  function Addresses(ts: seq<Target>): seq<string> {
    seq(|ts|, i requires 0 <= i < |ts| => ts[i].address)
  }

  /** The addresses of all entries of that name, in order. */
  function AddressesNamed(routes: seq<RouteEntry>, s: string): seq<string> {
    if routes == [] then [] else
    var r := routes[|routes| - 1];
    AddressesNamed(routes[..|routes| - 1], s) + if EntryName(r) == s then Addresses(r.targets) else []
  }

  lemma OneRouteMore(routes: seq<RouteEntry>, i: nat, s: string)
    requires i < |routes|
    ensures AddressesNamed(routes[..i + 1], s) ==
      if EntryName(routes[i]) == s && routes[i].targets != []
      then AddressesNamed(routes[..i], s) + Addresses(routes[i].targets)
      else AddressesNamed(routes[..i], s)
  {
    assert routes[..i + 1][..i] == routes[..i];
  }

  /** `s` is bound to the addresses of its entries, and only if there are any. */
  ghost predicate RegisteredAt(registry: Registry, routes: seq<RouteEntry>, s: string) {
    (s in registry <==> AddressesNamed(routes, s) != []) && (s in registry ==> registry[s] == AddressesNamed(routes, s))
  }

  ghost predicate Registers(registry: Registry, routes: seq<RouteEntry>) {
    forall s :: RegisteredAt(registry, routes, s)
  }

  lemma RegistersMore(registry: Registry, routes: seq<RouteEntry>, i: nat, registry': Registry)
    requires i < |routes| && Registers(registry, routes[..i])
    requires var name, addrs := EntryName(routes[i]), Addresses(routes[i].targets);
      registry' == if addrs != [] then registry[name := At(registry, name) + addrs] else registry
    ensures Registers(registry', routes[..i + 1])
  {
    var more := routes[..i + 1];
    forall s ensures RegisteredAt(registry', more, s) {
      assert RegisteredAt(registry, routes[..i], s);
      OneRouteMore(routes, i, s);
    }
  }

  method ServiceBatches(routes: seq<RouteEntry>) returns (registry: Registry)
    ensures Registers(registry, routes)
  {
    registry := map[];
    for i := 0 to |routes|
      invariant Registers(registry, routes[..i])
    {
      var addrs := CollectAddresses(routes[i]);
      ghost var before := registry;
      if |addrs| > 0 {
        var name := EntryName(routes[i]);
        registry := registry[name := At(registry, name) + addrs];
      }
      RegistersMore(before, routes, i, registry);
    }
    assert routes[..|routes|] == routes;
  }

  method CollectAddresses(r: RouteEntry) returns (addrs: seq<string>)
    ensures addrs == Addresses(r.targets)
  {
    addrs := [];
    for i := 0 to |r.targets|
      invariant addrs == Addresses(r.targets)[..i]
    {
      addrs := addrs + [r.targets[i].address];
    }
  }

  // ---------------------------------------------------------------- conservation

  function EndpointText(ep: EndpointInfo): string { ep.endpoint }

  /** The bag of addresses that one service port name stands for. */
  function AddressBag(t: Tables, k: ServicePortName): multiset<string> {
    LocalBag(t, k) + ImportedBag(t, k)
  }

  function LocalBag(t: Tables, k: ServicePortName): multiset<string> {
    if k !in t.services then multiset{}
    else if t.services[k].kind.ClusterIP? then Image(EndpointText, At(t.endpoints, k))
    else if t.services[k].kind.ExternalName? then multiset{t.services[k].address}
    else multiset{}
  }

  function ImportedBag(t: Tables, k: ServicePortName): multiset<string> {
    if k !in t.imports then multiset{} else Image(EndpointText, At(t.multiClusterEndpoints, k))
  }

  function AddressBags(t: Tables): ServicePortName -> multiset<string> {
    k => AddressBag(t, k)
  }

  /** The sum of the bags of the keys whose text is `s`. */
  ghost function SumNamed(bag: ServicePortName -> multiset<string>, keys: set<ServicePortName>,
                          s: string): multiset<string> {
    if keys == {} then multiset{} else
    var k :| k in keys;
    SumNamed(bag, keys - {k}, s) + if String(k) == s then bag(k) else multiset{}
  }

  lemma {:induction false} SumSame(f: ServicePortName -> multiset<string>, g: ServicePortName -> multiset<string>,
                                   keys: set<ServicePortName>, s: string)
    requires forall k :: k in keys ==> f(k) == g(k)
    ensures SumNamed(f, keys, s) == SumNamed(g, keys, s)
  {
    if keys != {} {
      var k :| k in keys;
      SumSame(f, g, keys - {k}, s);
      SumRemove(f, keys, s, k);
      SumRemove(g, keys, s, k);
    }
  }

  lemma {:induction false} SumRemove(bag: ServicePortName -> multiset<string>, keys: set<ServicePortName>, s: string,
                                     k: ServicePortName)
    requires k in keys
    ensures SumNamed(bag, keys, s) == SumNamed(bag, keys - {k}, s) + if String(k) == s then bag(k) else multiset{}
  {
    var j :| j in keys
      && SumNamed(bag, keys, s) == SumNamed(bag, keys - {j}, s) + if String(j) == s then bag(j) else multiset{};
    if j != k {
      SumRemove(bag, keys - {j}, s, k);
      SumRemove(bag, keys - {k}, s, j);
      assert keys - {j} - {k} == keys - {k} - {j};
      Swap(SumNamed(bag, keys - {j} - {k}, s), if String(k) == s then bag(k) else multiset{},
           if String(j) == s then bag(j) else multiset{});
    }
  }

  lemma {:induction false} SumMembers(bag: ServicePortName -> multiset<string>, keys: set<ServicePortName>, s: string,
                                      a: string)
    ensures a in SumNamed(bag, keys, s) <==> exists k :: k in keys && String(k) == s && a in bag(k)
  {
    if keys != {} {
      var k :| k in keys;
      SumMembers(bag, keys - {k}, s, a);
      SumRemove(bag, keys, s, k);
    }
  }

  /** The addresses of one entry, if it has that name. */
  function EntryBag(r: RouteEntry, s: string): multiset<string> {
    if EntryName(r) == s then multiset(Addresses(r.targets)) else multiset{}
  }

  function Named(s: string): RouteEntry -> multiset<string> {
    r => EntryBag(r, s)
  }

  function NamedBag(routes: seq<RouteEntry>, s: string): multiset<string> {
    BagSum(Named(s), routes)
  }

  lemma {:induction false} AddressesAsBag(routes: seq<RouteEntry>, s: string)
    ensures multiset(AddressesNamed(routes, s)) == NamedBag(routes, s)
  {
    if routes != [] { AddressesAsBag(routes[..|routes| - 1], s); }
  }

  lemma TargetBag(eps: seq<EndpointInfo>)
    ensures multiset(Addresses(LocalTargets(eps))) == Image(EndpointText, eps)
    ensures multiset(Addresses(RemoteTargets(eps))) == Image(EndpointText, eps)
  {
    MappedBag(EndpointText, eps);
    var texts, near, far := Mapped(EndpointText, eps), Addresses(LocalTargets(eps)), Addresses(RemoteTargets(eps));
    forall i | 0 <= i < |eps| ensures near[i] == texts[i] && far[i] == texts[i] {
      assert LocalTargets(eps)[i].address == eps[i].endpoint && RemoteTargets(eps)[i].address == eps[i].endpoint;
    }
    assert near == texts && far == texts;
  }

  lemma SingleEntry(r: RouteEntry, s: string)
    ensures NamedBag([r], s) == EntryBag(r, s)
  {
    assert [r][..0] == [];
    assert BagSum(Named(s), [r]) == BagSum(Named(s), []) + EntryBag(r, s);
  }

  lemma EntryNamed(info: ServiceInfo, targets: seq<Target>, k: ServicePortName)
    requires info.svcName == k.namespacedName && info.portName == k.port
    ensures EntryName(EntryOf(info, targets)) == String(k)
  {
  }

  lemma ServiceEntryBag(t: Tables, k: ServicePortName, s: string)
    requires NamedRight(t.services)
    ensures NamedBag(ServiceEntries(t, k), s) == if String(k) == s then LocalBag(t, k) else multiset{}
  {
    if k in t.services {
      var info := t.services[k];
      if info.kind.ClusterIP? {
        TargetBag(At(t.endpoints, k));
        EntryNamed(info, LocalTargets(At(t.endpoints, k)), k);
        SingleEntry(EntryOf(info, LocalTargets(At(t.endpoints, k))), s);
      } else if info.kind.ExternalName? {
        var targets := [Target(info.address, map[])];
        assert Addresses(targets) == [info.address];
        EntryNamed(info, targets, k);
        SingleEntry(EntryOf(info, targets), s);
      }
    }
  }

  lemma ImportEntryBag(t: Tables, k: ServicePortName, s: string)
    requires NamedRight(t.imports)
    ensures NamedBag(ImportEntries(t, k), s) == if String(k) == s then ImportedBag(t, k) else multiset{}
  {
    if k in t.imports {
      var targets := RemoteTargets(At(t.multiClusterEndpoints, k));
      TargetBag(At(t.multiClusterEndpoints, k));
      EntryNamed(t.imports[k], targets, k);
      SingleEntry(EntryOf(t.imports[k], targets), s);
    }
  }

  lemma {:induction false} RoutesConserve(t: Tables, order: seq<ServicePortName>, keys: set<ServicePortName>, s: string)
    requires NamedRight(t.services) && NamedRight(t.imports) && Enumerates(order, keys)
    ensures NamedBag(RoutesInOrder(t, order), s) == SumNamed(AddressBags(t), keys, s)
  {
    if order == [] {
      assert keys == {};
    } else {
      var front, k := order[..|order| - 1], order[|order| - 1];
      assert Enumerates(front, keys - {k});
      RoutesConserve(t, front, keys - {k}, s);
      var a, b, c := RoutesInOrder(t, front), ServiceEntries(t, k), ImportEntries(t, k);
      BagSumConcat(Named(s), a + b, c);
      BagSumConcat(Named(s), a, b);
      ServiceEntryBag(t, k, s);
      ImportEntryBag(t, k, s);
      assert k in keys;
      SumRemove(AddressBags(t), keys, s, k);
      Assoc(SumNamed(AddressBags(t), keys - {k}, s), NamedBag(b, s), NamedBag(c, s));
    }
  }

  /** Under every name, the registry has, as a bag, the addresses of all those keys with that text; names
      without an address are absent. */
  ghost predicate Holds(registry: Registry, bag: ServicePortName -> multiset<string>, keys: set<ServicePortName>,
                        s: string) {
    && multiset(At(registry, s)) == SumNamed(bag, keys, s)
    && (s in registry <==> SumNamed(bag, keys, s) != multiset{})
  }

  ghost predicate Conserves(registry: Registry, t: Tables) {
    forall s :: Holds(registry, AddressBags(t), AllNames(t), s)
  }

  /** Registry conservation: nothing of the tables is lost or published twice. */
  method PublishedRegistry(t: Tables) returns (registry: Registry)
    requires NamedRight(t.services) && NamedRight(t.imports)
    ensures Conserves(registry, t)
  {
    var routes, order := BuildServiceRoutes(t);
    registry := ServiceBatches(routes);
    forall s ensures Holds(registry, AddressBags(t), AllNames(t), s) {
      assert RegisteredAt(registry, routes, s);
      RoutesConserve(t, order, AllNames(t), s);
      AddressesAsBag(routes, s);
      assert |multiset(AddressesNamed(routes, s))| == |AddressesNamed(routes, s)|;
    }
  }
}
