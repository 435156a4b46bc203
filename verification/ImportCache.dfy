/** The two tables fed by ServiceImports (pkg/cache/serviceimport.go): imported service ports and
    multi-cluster endpoints.  Their pending changes are drained at different times, and the values
    of the first depend on what the Service lister answers when an event arrives. */
module ImportCache {
  import opened Options
  import opened Names
  import opened CacheTypes
  import opened ChangeTracking
  import I = ServiceImports

  datatype ImportObject = ImportObject(name: NamespacedName, ports: seq<I.ImportPort>)

  type ImportMap = map<ServicePortName, ServiceInfo>

  type EndpointsMap = map<ServicePortName, seq<EndpointInfo>>

  /** The IPv4 cluster address of the Service of that name, empty when there is none. */
  type Lister = NamespacedName -> string

  function KeyOf(o: ImportObject, p: I.ImportPort): ServicePortName {
    ServicePortName(o.name, p.header.name, p.header.protocol)
  }

  function NewImportInfo(lister: Lister, o: ImportObject, p: I.ImportPort): ServiceInfo {
    ServiceInfo(lister(o.name), p.header.port, p.header.name, p.header.protocol, o.name, ClusterIP)
  }

  function NewEndpointInfo(ep: I.Endpoint): EndpointInfo {
    EndpointInfo(ep.target.host + ":" + Decimal(ep.target.port) + ep.target.path, "", "", ep.clusterKey)
  }

  function PortKeys(o: ImportObject): set<ServicePortName> {
    set p | p in o.ports :: KeyOf(o, p)
  }

  function Infos(eps: seq<I.Endpoint>): seq<EndpointInfo> {
    seq(|eps|, i requires 0 <= i < |eps| => NewEndpointInfo(eps[i]))
  }

  /** All endpoints of the ports with that key, in document order. */
  function EndpointList(o: ImportObject, ports: seq<I.ImportPort>, k: ServicePortName): seq<EndpointInfo> {
    if ports == [] then [] else
    var p := ports[|ports| - 1];
    EndpointList(o, ports[..|ports| - 1], k) + if KeyOf(o, p) == k then Infos(p.endpoints) else []
  }

  ghost function EndpointsTable(o: ImportObject): EndpointsMap {
    map k | k in PortKeys(o) && EndpointList(o, o.ports, k) != [] :: EndpointList(o, o.ports, k)
  }

  ghost function KeysTable(o: ImportObject): map<ServicePortName, ()> {
    map k | k in PortKeys(o) :: ()
  }

  ghost function EndpointsContribution(o: Option<ImportObject>): Contribution<ServicePortName, seq<EndpointInfo>> {
    match o case None => None case Some(v) => Some(EndpointsTable(v))
  }

  /** `c` is what the conversion of `o` may give for some answers of the Service lister. */
  ghost predicate ImportContribution(o: Option<ImportObject>, c: Contribution<ServicePortName, ServiceInfo>) {
    match o
    case None => c == None
    case Some(v) => c.Some? && c.value.Keys == PortKeys(v) && NamedRight(c.value)
  }

  ghost predicate Named(o: ImportObject, p: I.ImportPort, k: ServicePortName) {
    k.namespacedName == o.name && k.port == p.header.name && k.protocol == p.header.protocol
  }

  /** The text is host, port and path of the endpoint's target, and the cluster is the endpoint's. */
  ghost predicate Describes(info: EndpointInfo, ep: I.Endpoint) {
    && info.cluster == ep.clusterKey && info.nodename == "" && info.hostname == ""
    && exists t :: IsDecimal(t, ep.target.port) && info.endpoint == ep.target.host + ":" + t + ep.target.path
  }

  lemma DescribesIff(info: EndpointInfo, ep: I.Endpoint)
    ensures info == NewEndpointInfo(ep) <==> Describes(info, ep)
  {
    DecimalIff(Decimal(ep.target.port), ep.target.port);
    forall t ensures IsDecimal(t, ep.target.port) <==> t == Decimal(ep.target.port) { DecimalIff(t, ep.target.port); }
  }

  ghost predicate Imported(ports: seq<I.ImportPort>, o: ImportObject, k: ServicePortName, info: EndpointInfo) {
    exists p, ep :: p in ports && Named(o, p, k) && ep in p.endpoints && Describes(info, ep)
  }

  /** A service port name lists exactly the endpoints of the import's ports of that name. */
  lemma {:induction false} EndpointListMembers(o: ImportObject, ports: seq<I.ImportPort>, k: ServicePortName,
                                               info: EndpointInfo)
    ensures info in EndpointList(o, ports, k) <==> Imported(ports, o, k, info)
  {
    if ports != [] {
      var front, p := ports[..|ports| - 1], ports[|ports| - 1];
      EndpointListMembers(o, front, k, info);
      assert forall x :: x in ports <==> x in front || x == p;
      assert KeyOf(o, p) == k <==> Named(o, p, k);
      InfosMembers(p.endpoints, info);
    }
  }

  lemma InfosMembers(eps: seq<I.Endpoint>, info: EndpointInfo)
    ensures info in Infos(eps) <==> exists ep :: ep in eps && Describes(info, ep)
  {
    forall ep ensures info == NewEndpointInfo(ep) <==> Describes(info, ep) { DescribesIff(info, ep); }
    if ep :| ep in eps && Describes(info, ep) {
      var i :| 0 <= i < |eps| && eps[i] == ep;
      assert Infos(eps)[i] == info;
    }
  }

  /** Port by port, in order; a port of that name gives one entry per endpoint, in order. */
  lemma EndpointListInOrder(o: ImportObject, a: seq<I.ImportPort>, p: I.ImportPort, k: ServicePortName)
    ensures EndpointList(o, a + [p], k) == EndpointList(o, a, k) + EndpointList(o, [p], k)
    ensures Named(o, p, k) ==>
      && |EndpointList(o, [p], k)| == |p.endpoints|
      && forall i :: 0 <= i < |p.endpoints| ==> Describes(EndpointList(o, [p], k)[i], p.endpoints[i])
  {
    assert (a + [p])[..|a|] == a && [p][..0] == [];
    if Named(o, p, k) {
      assert EndpointList(o, [p], k) == Infos(p.endpoints);
      forall i | 0 <= i < |p.endpoints| ensures Describes(Infos(p.endpoints)[i], p.endpoints[i]) {
        DescribesIff(Infos(p.endpoints)[i], p.endpoints[i]);
      }
    }
  }

  /** The entry is that of the imported port, at the address that the Service lister gave. */
  ghost predicate InfoFor(info: ServiceInfo, lister: Lister, o: ImportObject, p: I.ImportPort) {
    && info.address == lister(o.name) && info.port == p.header.port && info.portName == p.header.name
    && info.protocol == p.header.protocol && info.svcName == o.name && info.kind == ClusterIP
  }

  ghost predicate LastNamed(o: ImportObject, ports: seq<I.ImportPort>, k: ServicePortName, i: int) {
    0 <= i < |ports| && Named(o, ports[i], k) && forall j :: i < j < |ports| ==> !Named(o, ports[j], k)
  }

  ghost predicate HasPort(o: ImportObject, k: ServicePortName) {
    exists p :: p in o.ports && Named(o, p, k)
  }

  /** `m` has the entry of the last port of every name. */
  ghost predicate LastWins(lister: Lister, o: ImportObject, ports: seq<I.ImportPort>, m: ImportMap) {
    && m.Keys == (set p | p in ports :: KeyOf(o, p))
    && forall k :: k in m ==> exists i :: LastNamed(o, ports, k, i) && InfoFor(m[k], lister, o, ports[i])
  }

  lemma OnePortMore(lister: Lister, o: ImportObject, ports: seq<I.ImportPort>, p: I.ImportPort, m: ImportMap)
    requires LastWins(lister, o, ports, m)
    ensures LastWins(lister, o, ports + [p], m[KeyOf(o, p) := NewImportInfo(lister, o, p)])
  {
    var more, m' := ports + [p], m[KeyOf(o, p) := NewImportInfo(lister, o, p)];
    forall k | k in m' ensures exists i :: LastNamed(o, more, k, i) && InfoFor(m'[k], lister, o, more[i]) {
      if k == KeyOf(o, p) {
        assert LastNamed(o, more, k, |ports|);
      } else {
        var i :| LastNamed(o, ports, k, i) && InfoFor(m[k], lister, o, ports[i]);
        assert LastNamed(o, more, k, i);
      }
    }
  }

  // ----------------------------------------------------------- imperative form

  method ServiceImportToServiceMap(lister: Lister, svcImp: Option<ImportObject>)
    returns (c: Contribution<ServicePortName, ServiceInfo>)
    ensures ImportContribution(svcImp, c)
    ensures c.Some? ==> forall k :: k in c.value ==>
      exists i :: LastNamed(svcImp.value, svcImp.value.ports, k, i) &&
        InfoFor(c.value[k], lister, svcImp.value, svcImp.value.ports[i])
  {
    if svcImp.None? {
      return None;
    }
    var o := svcImp.value;
    var m: ImportMap := map[];
    for i := 0 to |o.ports|
      invariant LastWins(lister, o, o.ports[..i], m)
    {
      OnePortMore(lister, o, o.ports[..i], o.ports[i], m);
      assert o.ports[..i + 1] == o.ports[..i] + [o.ports[i]];
      m := m[KeyOf(o, o.ports[i]) := NewImportInfo(lister, o, o.ports[i])];
    }
    assert o.ports[..|o.ports|] == o.ports;
    c := Some(m);
  }

  lemma InfosMore(eps: seq<I.Endpoint>, i: nat)
    requires i < |eps|
    ensures Infos(eps[..i + 1]) == Infos(eps[..i]) + [NewEndpointInfo(eps[i])]
  {
  }

  method AppendEndpoints(m: EndpointsMap, k: ServicePortName, eps: seq<I.Endpoint>,
                         ghost list: ServicePortName -> seq<EndpointInfo>)
    returns (m': EndpointsMap)
    requires Tabulates(m, list)
    ensures Tabulates(m', Extended(list, k, Infos(eps)))
  {
    m' := m;
    ExtendedByNothing(m, list, k);
    for i := 0 to |eps|
      invariant Tabulates(m', Extended(list, k, Infos(eps[..i])))
    {
      InfosMore(eps, i);
      AppendedTabulates(m', list, k, Infos(eps[..i]), NewEndpointInfo(eps[i]));
      m' := Appended(m', k, NewEndpointInfo(eps[i]));
    }
    assert eps[..|eps|] == eps;
  }

  /** The lists of the first ports. */
  ghost function Lists(o: ImportObject, ports: seq<I.ImportPort>): ServicePortName -> seq<EndpointInfo> {
    k => EndpointList(o, ports, k)
  }

  method EndpointsToEndpointsMap(svcImp: Option<ImportObject>)
    returns (c: Contribution<ServicePortName, seq<EndpointInfo>>)
    ensures c == EndpointsContribution(svcImp)
  {
    if svcImp.None? {
      return None;
    }
    var o := svcImp.value;
    var m: EndpointsMap := map[];
    for i := 0 to |o.ports|
      invariant Tabulates(m, Lists(o, o.ports[..i]))
    {
      assert o.ports[..i + 1][..i] == o.ports[..i];
      var k := KeyOf(o, o.ports[i]);
      m := AppendEndpoints(m, k, o.ports[i].endpoints, Lists(o, o.ports[..i]));
      TabulatesSame(m, Extended(Lists(o, o.ports[..i]), k, Infos(o.ports[i].endpoints)), Lists(o, o.ports[..i + 1]));
    }
    assert o.ports[..|o.ports|] == o.ports;
    forall k | k in m ensures k in PortKeys(o) {
      ListedKeys(o, o.ports, k);
    }
    assert m == EndpointsTable(o);
    c := Some(m);
  }

  lemma {:induction false} ListedKeys(o: ImportObject, ports: seq<I.ImportPort>, k: ServicePortName)
    requires EndpointList(o, ports, k) != []
    ensures exists p :: p in ports && KeyOf(o, p) == k
  {
    var p, front := ports[|ports| - 1], ports[..|ports| - 1];
    assert p in ports;
    if EndpointList(o, front, k) != [] {
      ListedKeys(o, front, k);
      var q :| q in front && KeyOf(o, q) == k;
      assert q in ports;
    }
  }

  class ServiceImportChangeTracker {
    const imports: ChangeTracker<ServicePortName, ServiceInfo>
    const endpoints: ChangeTracker<ServicePortName, seq<EndpointInfo>>

    ghost predicate Valid() {
      imports as object != endpoints as object
    }

    constructor ()
      ensures Valid() && fresh(imports) && fresh(endpoints)
      ensures imports.items == map[] && endpoints.items == map[]
    {
      imports := new ChangeTracker();
      endpoints := new ChangeTracker();
    }

    method Update(lister: Lister, previous: Option<ImportObject>, current: Option<ImportObject>)
      returns (pending: bool, ghost was: Contribution<ServicePortName, ServiceInfo>,
        ghost now: Contribution<ServicePortName, ServiceInfo>)
      requires Valid()
      requires previous.Some? && current.Some? ==> previous.value.name == current.value.name
      modifies imports, endpoints
      ensures ImportContribution(previous, was) && ImportContribution(current, now)
      ensures previous.None? && current.None? ==>
        !pending && imports.items == old(imports.items) && endpoints.items == old(endpoints.items)
      ensures previous.Some? || current.Some? ==>
        var n := (if current.Some? then current else previous).value.name;
        && imports.items == Recorded(old(imports.items), n, was, now)
        && endpoints.items ==
          Recorded(old(endpoints.items), n, EndpointsContribution(previous), EndpointsContribution(current))
        && (pending <==> imports.items != map[] || endpoints.items != map[])
    {
      if previous.None? && current.None? {
        return false, None, None;
      }
      var n := (if current.Some? then current else previous).value.name;
      var svcWas := ServiceImportToServiceMap(lister, previous);
      var svcNow := ServiceImportToServiceMap(lister, current);
      var changed := imports.Record(n, svcWas, svcNow);
      var epWas := EndpointsToEndpointsMap(previous);
      var epNow := EndpointsToEndpointsMap(current);
      var epChanged := endpoints.Record(n, epWas, epNow);
      return changed || epChanged, svcWas, svcNow;
    }
  }

  // ------------------------------------------------------------------ whole runs

  datatype State = State(
    live: map<NamespacedName, ImportObject>,
    items: Items<ServicePortName, ServiceInfo>, table: ImportMap,
    endpointItems: Items<ServicePortName, seq<EndpointInfo>>, endpointTable: EndpointsMap)

  datatype Step =
    | Seen(n: NamespacedName, obj: Option<ImportObject>, was: Contribution<ServicePortName, ServiceInfo>,
      now: Contribution<ServicePortName, ServiceInfo>)
    | SyncImports
    | SyncEndpoints

  ghost predicate Next(s: State, step: Step, s': State) {
    match step
    case Seen(n, obj, was, now) =>
      && (obj.Some? ==> obj.value.name == n)
      && ImportContribution(Lookup(s.live, n), was) && ImportContribution(obj, now)
      && s' == s.(
        live := (match obj case None => s.live - {n} case Some(o) => s.live[n := o]),
        items := Recorded(s.items, n, was, now),
        endpointItems := Recorded(s.endpointItems, n, EndpointsContribution(Lookup(s.live, n)),
          EndpointsContribution(obj)))
    case SyncImports =>
      AppliedTo(s.table, s.items, s'.table) && s' == s.(items := map[], table := s'.table)
    case SyncEndpoints =>
      AppliedTo(s.endpointTable, s.endpointItems, s'.endpointTable)
        && s' == s.(endpointItems := map[], endpointTable := s'.endpointTable)
  }

  ghost predicate IsRun(states: seq<State>, steps: seq<Step>) {
    && |states| == |steps| + 1
    && states[0] == State(map[], map[], map[], map[], map[])
    && forall i :: 0 <= i < |steps| ==> Next(states[i], steps[i], states[i + 1])
  }

  function Unit<T>(t: T): () { () }

  /** The run as each of the two tables sees it. */
  ghost function ImportSide(s: State): Cache<ImportObject, ServiceInfo> {
    Cache(s.live, s.items, s.table)
  }

  ghost function EndpointSide(s: State): Cache<ImportObject, seq<EndpointInfo>> {
    Cache(s.live, s.endpointItems, s.endpointTable)
  }

  ghost predicate Good(s: State) {
    && (forall n :: n in s.live ==> s.live[n].name == n)
    && CacheInv(Unit, KeysTable, ImportSide(s))
    && CacheInv(Same, EndpointsTable, EndpointSide(s))
    && NamedRight(s.table)
    && CurrentsNamedRight(s.items)
  }

  ghost predicate CurrentsNamedRight(items: Items<ServicePortName, ServiceInfo>) {
    forall n :: n in items ==> NamedRight(Entries(items[n].current))
  }

  lemma RecordedNamedRight(items: Items<ServicePortName, ServiceInfo>, n: NamespacedName,
                           was: Contribution<ServicePortName, ServiceInfo>,
                           now: Contribution<ServicePortName, ServiceInfo>)
    requires CurrentsNamedRight(items) && NamedRight(Entries(now))
    ensures CurrentsNamedRight(Recorded(items, n, was, now))
  {
  }

  lemma AppliedNamedRight(table: ImportMap, items: Items<ServicePortName, ServiceInfo>, after: ImportMap)
    requires NamedRight(table) && AppliedTo(table, items, after) && CurrentsNamedRight(items)
    ensures NamedRight(after)
  {
    forall k | k in after ensures after[k].svcName == k.namespacedName && after[k].portName == k.port {
      var n := k.namespacedName;
      assert k in Slice(after, n) && Slice(after, n)[k] == after[k];
      if n in items && k in Entries(items[n].current) {
        assert after[k] == Entries(items[n].current)[k];
      } else {
        assert k in Slice(table, n);
      }
    }
  }

  lemma SeenImportSide(s: State, n: NamespacedName, obj: Option<ImportObject>,
                       was: Contribution<ServicePortName, ServiceInfo>,
                       now: Contribution<ServicePortName, ServiceInfo>, s': State)
    requires Good(s) && Next(s, Seen(n, obj, was, now), s')
    ensures CacheInv(Unit, KeysTable, ImportSide(s'))
  {
    ContributionKeys(Lookup(s.live, n), was, n);
    ContributionKeys(obj, now, n);
    EventInv(Unit, KeysTable, ImportSide(s), Event(n, obj, was, now, false), ImportSide(s'));
  }

  lemma ContributionKeys(o: Option<ImportObject>, c: Contribution<ServicePortName, ServiceInfo>, n: NamespacedName)
    requires ImportContribution(o, c) && (o.Some? ==> o.value.name == n)
    ensures Owned(n, c) && Project(Unit, Entries(c)) == Wanted(KeysTable, o)
  {
  }

  lemma SeenEndpointSide(s: State, n: NamespacedName, obj: Option<ImportObject>,
                         was: Contribution<ServicePortName, ServiceInfo>,
                         now: Contribution<ServicePortName, ServiceInfo>, s': State)
    requires Good(s) && Next(s, Seen(n, obj, was, now), s')
    ensures CacheInv(Same, EndpointsTable, EndpointSide(s'))
  {
    var epWas, epNow := EndpointsContribution(Lookup(s.live, n)), EndpointsContribution(obj);
    ProjectSame(Entries(epWas));
    ProjectSame(Entries(epNow));
    EventInv(Same, EndpointsTable, EndpointSide(s), Event(n, obj, epWas, epNow, false), EndpointSide(s'));
  }

  lemma NextGood(s: State, step: Step, s': State)
    requires Good(s) && Next(s, step, s')
    ensures Good(s')
  {
    match step
    case Seen(n, obj, was, now) =>
      SeenImportSide(s, n, obj, was, now, s');
      SeenEndpointSide(s, n, obj, was, now, s');
      RecordedNamedRight(s.items, n, was, now);
    case SyncImports =>
      SyncInv(Unit, KeysTable, ImportSide(s), ImportSide(s'));
      AppliedNamedRight(s.table, s.items, s'.table);
      assert EndpointSide(s') == EndpointSide(s);
    case SyncEndpoints =>
      SyncInv(Same, EndpointsTable, EndpointSide(s), EndpointSide(s'));
      assert ImportSide(s') == ImportSide(s);
  }

  lemma {:induction false} GoodAt(states: seq<State>, steps: seq<Step>, i: nat)
    requires IsRun(states, steps) && i < |states|
    ensures Good(states[i])
  {
    if i == 0 {
      var s := states[0];
      forall n ensures InStep(Unit, KeysTable, ImportSide(s), n) {
        assert Slice(s.table, n) == map[];
      }
      forall n ensures InStep(Same, EndpointsTable, EndpointSide(s), n) {
        assert Slice(s.endpointTable, n) == map[];
      }
    } else {
      GoodAt(states, steps, i - 1);
      NextGood(states[i - 1], steps[i - 1], states[i]);
    }
  }

  /** However the two drains and the events interleave, draining the endpoint changes leaves exactly
      the union of the live imports' endpoints. */
  lemma EndpointsDrainIsRebuild(states: seq<State>, steps: seq<Step>, i: nat)
    requires IsRun(states, steps) && i < |steps| && steps[i].SyncEndpoints?
    ensures IsRebuild(EndpointsTable, states[i + 1].live, states[i + 1].endpointTable)
  {
    GoodAt(states, steps, i + 1);
    InStepRebuilds(Same, EndpointsTable, EndpointSide(states[i + 1]));
    ProjectSame(states[i + 1].endpointTable);
  }

  lemma PortKeysIff(o: ImportObject, k: ServicePortName)
    ensures k in PortKeys(o) <==> HasPort(o, k)
  {
    if p :| p in o.ports && Named(o, p, k) { assert KeyOf(o, p) == k; }
  }

  /** And draining the service changes leaves exactly the port keys of the live imports, whatever the
      Service lister answered on the way. */
  lemma ImportsDrainKeys(states: seq<State>, steps: seq<Step>, i: nat, k: ServicePortName)
    requires IsRun(states, steps) && i < |steps| && steps[i].SyncImports?
    ensures var s := states[i + 1];
      && (k in s.table <==> k.namespacedName in s.live && HasPort(s.live[k.namespacedName], k))
      && NamedRight(s.table)
  {
    GoodAt(states, steps, i + 1);
    var s := states[i + 1];
    InStepRebuilds(Unit, KeysTable, ImportSide(s));
    ProjectKeys(Unit, s.table);
    assert k in Project(Unit, s.table) <==> k in s.table;
    if k.namespacedName in s.live { PortKeysIff(s.live[k.namespacedName], k); }
  }
}
