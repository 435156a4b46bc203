/** The service table of the local cache (pkg/cache/service.go).  Whether an ExternalName is usable
    (no loopback, a valid DNS name) is decided by library calls and is a parameter here; `clusterIP`
    is the Service's IPv4 cluster address, empty when it has none. */
module ServiceCache {
  import opened Options
  import opened Names
  import opened CacheTypes
  import opened ChangeTracking

  datatype Port = Port(name: string, protocol: string, port: int, targetPort: int)

  datatype Service = Service(name: NamespacedName, kind: ServiceKind, clusterIP: string, externalName: string,
                             ports: seq<Port>)

  type ServiceMap = map<ServicePortName, ServiceInfo>

  function KeyOf(svc: Service, p: Port): ServicePortName {
    ServicePortName(svc.name, p.name, p.protocol)
  }

  function NewServiceInfo(usable: string -> bool, p: Port, svc: Service): Option<ServiceInfo> {
    match svc.kind
    case ClusterIP => Some(ServiceInfo(svc.clusterIP, p.port, p.name, p.protocol, svc.name, svc.kind))
    case ExternalName =>
      if usable(svc.externalName)
      then
        var address := svc.externalName + ":" + Decimal(p.targetPort);
        Some(ServiceInfo(address, p.port, p.name, p.protocol, svc.name, svc.kind))
      else None
    case NodePort => None
    case LoadBalancer => None
  }

  /** The last port of that key that the cache can handle. */
  function LastPort(usable: string -> bool, svc: Service, ports: seq<Port>, k: ServicePortName): Option<ServiceInfo> {
    if ports == [] then None else
    var p := ports[|ports| - 1];
    if KeyOf(svc, p) == k && NewServiceInfo(usable, p, svc).Some? then NewServiceInfo(usable, p, svc)
    else LastPort(usable, svc, ports[..|ports| - 1], k)
  }

  ghost function ServiceTable(usable: string -> bool, svc: Service): ServiceMap {
    if svc.clusterIP == "" then map[] else
    map p | p in svc.ports && LastPort(usable, svc, svc.ports, KeyOf(svc, p)).Some? ::
      KeyOf(svc, p) := LastPort(usable, svc, svc.ports, KeyOf(svc, p)).value
  }

  ghost function ServiceContribution(usable: string -> bool,
                                     svc: Option<Service>): Contribution<ServicePortName, ServiceInfo> {
    if svc.None? || svc.value.clusterIP == "" then None else Some(ServiceTable(usable, svc.value))
  }

  ghost function Converter(usable: string -> bool): Service -> ServiceMap {
    svc => ServiceTable(usable, svc)
  }

  lemma {:induction false} LastPortListed(usable: string -> bool, svc: Service, ports: seq<Port>, k: ServicePortName)
    requires LastPort(usable, svc, ports, k).Some?
    ensures exists p :: p in ports && KeyOf(svc, p) == k
  {
    var p, front := ports[|ports| - 1], ports[..|ports| - 1];
    assert p in ports;
    if !(KeyOf(svc, p) == k && NewServiceInfo(usable, p, svc).Some?) {
      LastPortListed(usable, svc, front, k);
      var q :| q in front && KeyOf(svc, q) == k;
      assert q in ports;
    }
  }

  method ServiceToServiceMap(usable: string -> bool, service: Option<Service>)
    returns (c: Contribution<ServicePortName, ServiceInfo>)
    ensures c == ServiceContribution(usable, service)
  {
    if service.None? {
      return None;
    }
    var svc := service.value;
    if svc.clusterIP == "" {
      return None;
    }
    var m: ServiceMap := map[];
    for i := 0 to |svc.ports|
      invariant forall k :: k in m <==> LastPort(usable, svc, svc.ports[..i], k).Some?
      invariant forall k :: k in m ==> LastPort(usable, svc, svc.ports[..i], k) == Some(m[k])
    {
      assert svc.ports[..i + 1][..i] == svc.ports[..i];
      var info := NewServiceInfo(usable, svc.ports[i], svc);
      if info.Some? {
        m := m[KeyOf(svc, svc.ports[i]) := info.value];
      }
    }
    assert svc.ports[..|svc.ports|] == svc.ports;
    forall k | k in m ensures k in ServiceTable(usable, svc) {
      LastPortListed(usable, svc, svc.ports, k);
    }
    assert m == ServiceTable(usable, svc);
    c := Some(m);
  }

  predicate ShouldSkip(svc: Service) {
    svc.kind.NodePort? || svc.kind.LoadBalancer?
  }

  /** The object an event is about decides whether the tracker sees it at all. */
  predicate Skipped(previous: Option<Service>, current: Option<Service>) {
    match current
    case Some(svc) => ShouldSkip(svc)
    case None => previous.Some? && ShouldSkip(previous.value)
  }

  method Update(usable: string -> bool, tracker: ChangeTracker<ServicePortName, ServiceInfo>,
                previous: Option<Service>, current: Option<Service>) returns (pending: bool)
    requires previous.Some? && current.Some? ==> previous.value.name == current.value.name
    modifies tracker
    ensures (previous.None? && current.None?) || Skipped(previous, current) ==>
      !pending && tracker.items == old(tracker.items)
    ensures (previous.Some? || current.Some?) && !Skipped(previous, current) ==>
      && tracker.items == Recorded(old(tracker.items), (if current.Some? then current else previous).value.name,
                                   ServiceContribution(usable, previous), ServiceContribution(usable, current))
      && (pending <==> tracker.items != map[])
  {
    if previous.None? && current.None? {
      return false;
    }
    var svc := (if current.Some? then current else previous).value;
    if ShouldSkip(svc) {
      return false;
    }
    var was: Contribution<ServicePortName, ServiceInfo> := None;
    if svc.name !in tracker.items {
      was := ServiceToServiceMap(usable, previous);
    }
    var now := ServiceToServiceMap(usable, current);
    pending := tracker.Record(svc.name, was, now);
  }

  // ------------------------------------------------------------------ whole runs

  lemma {:induction false} SkippedKindsAddNothing(usable: string -> bool, svc: Service)
    requires ShouldSkip(svc)
    ensures ServiceTable(usable, svc) == map[]
  {
    forall p | p in svc.ports ensures LastPort(usable, svc, svc.ports, KeyOf(svc, p)).None? {
      NoLastPort(usable, svc, svc.ports, KeyOf(svc, p));
    }
  }

  lemma {:induction false} NoLastPort(usable: string -> bool, svc: Service, ports: seq<Port>, k: ServicePortName)
    requires ShouldSkip(svc)
    ensures LastPort(usable, svc, ports, k).None?
  {
    if ports != [] { NoLastPort(usable, svc, ports[..|ports| - 1], k); }
  }

  type State = Cache<Service, ServiceInfo>

  /** The cache step that an informer event about object `n` causes. */
  ghost function EventOf(usable: string -> bool, s: State, n: NamespacedName,
                         obj: Option<Service>): CacheStep<Service, ServiceInfo> {
    var seen := Lookup(s.live, n);
    Event(n, obj, ServiceContribution(usable, seen), ServiceContribution(usable, obj), Skipped(seen, obj))
  }

  /** A Service that has entries does not turn into a type the cache skips. */
  ghost predicate StaysInScope(usable: string -> bool, s: State, n: NamespacedName, obj: Option<Service>) {
    obj.Some? && (obj.value.kind.NodePort? || obj.value.kind.LoadBalancer?) && n in s.live ==>
      ServiceTable(usable, s.live[n]) == map[]
  }

  lemma InScopeIffHarmless(usable: string -> bool, s: State, n: NamespacedName, obj: Option<Service>)
    ensures StaysInScope(usable, s, n, obj) <==> Harmless(Converter(usable), s, EventOf(usable, s, n, obj))
  {
    if obj.Some? && ShouldSkip(obj.value) {
      SkippedKindsAddNothing(usable, obj.value);
    } else if obj.None? && n in s.live && ShouldSkip(s.live[n]) {
      SkippedKindsAddNothing(usable, s.live[n]);
    }
  }

  ghost predicate LiveUnderNames(s: State) {
    forall n :: n in s.live ==> s.live[n].name == n
  }

  ghost predicate Next(usable: string -> bool, s: State, step: CacheStep<Service, ServiceInfo>, s': State) {
    && Takes(Same, Converter(usable), s, step, s')
    && (step.Event? ==>
      && (step.obj.Some? ==> step.obj.value.name == step.n)
      && step == EventOf(usable, s, step.n, step.obj))
  }

  /** Every event about a rightly named object is a step of the cache. */
  lemma EventsAreSteps(usable: string -> bool, s: State, n: NamespacedName, obj: Option<Service>) returns (s': State)
    requires LiveUnderNames(s) && (obj.Some? ==> obj.value.name == n)
    ensures Next(usable, s, EventOf(usable, s, n, obj), s') && LiveUnderNames(s')
  {
    var step := EventOf(usable, s, n, obj);
    s' := s.(live := (match obj case None => s.live - {n} case Some(o) => s.live[n := o]),
             items := if step.skipped then s.items else Recorded(s.items, n, step.previous, step.current));
    ProjectSame(Entries(step.previous));
    ProjectSame(Entries(step.current));
  }

  /** A step of the cache in which no Service with entries turns into a skipped type. */
  ghost predicate NextInScope(usable: string -> bool, s: State, step: CacheStep<Service, ServiceInfo>, s': State) {
    Next(usable, s, step, s') && (step.Event? ==> StaysInScope(usable, s, step.n, step.obj))
  }

  lemma NextKeeps(usable: string -> bool, s: State, step: CacheStep<Service, ServiceInfo>, s': State)
    requires CacheInv(Same, Converter(usable), s) && NextInScope(usable, s, step, s')
    ensures CacheInv(Same, Converter(usable), s')
  {
    if step.Event? {
      InScopeIffHarmless(usable, s, step.n, step.obj);
      EventInv(Same, Converter(usable), s, step, s');
    } else {
      SyncInv(Same, Converter(usable), s, s');
    }
  }

  /** While no Service with entries turns into a skipped type, the service table right after a sync is
      the union of the tables of all live Services. */
  lemma ServiceCacheIsRebuild(usable: string -> bool, states: seq<State>, steps: seq<CacheStep<Service, ServiceInfo>>,
                              i: nat)
    requires |states| == |steps| + 1 && states[0] == Cache(map[], map[], map[])
    requires forall j :: 0 <= j < |steps| ==> NextInScope(usable, states[j], steps[j], states[j + 1])
    requires i < |steps| && steps[i].Sync?
    ensures IsRebuild(Converter(usable), states[i + 1].live, states[i + 1].table)
  {
    forall j | 0 <= j < |steps| ensures Harmless(Converter(usable), states[j], steps[j]) {
      if steps[j].Event? {
        assert NextInScope(usable, states[j], steps[j], states[j + 1]);
        InScopeIffHarmless(usable, states[j], steps[j].n, steps[j].obj);
      }
    }
    SyncRefinesRebuild(Same, Converter(usable), states, steps, i);
    ProjectSame(states[i + 1].table);
  }

  /** The assumption is exact: whatever is pending, an event about an object leaves the next sync
      right if and only if no Service with entries turned into a skipped type. */
  lemma ScopeExact(usable: string -> bool, s: State, n: NamespacedName, obj: Option<Service>, s1: State, s2: State)
    requires CacheInv(Same, Converter(usable), s)
    requires Next(usable, s, EventOf(usable, s, n, obj), s1) && Next(usable, s1, CacheStep.Sync, s2)
    ensures IsRebuild(Converter(usable), s2.live, s2.table) <==> StaysInScope(usable, s, n, obj)
  {
    var step, conv := EventOf(usable, s, n, obj), Converter(usable);
    InScopeIffHarmless(usable, s, n, obj);
    ProjectSame(s2.table);
    if step.skipped {
      SkipSafeIff(Same, conv, s, step, s1, s2);
    } else {
      EventInv(Same, conv, s, step, s1);
      SyncInv(Same, conv, s1, s2);
      InStepRebuilds(Same, conv, s2);
    }
  }

  /** The assumption is needed: a ClusterIP Service is added, synced and turned into a NodePort one; the
      entry of its port survives the next sync. */
  lemma NodePortLeavesEntry(usable: string -> bool, svc: Service, p: Port)
    returns (states: seq<State>, steps: seq<CacheStep<Service, ServiceInfo>>)
    requires svc.kind.ClusterIP? && svc.clusterIP != "" && svc.ports == [p]
    ensures |states| == |steps| + 1 == 5 && states[0] == Cache(map[], map[], map[])
    ensures forall j :: 0 <= j < |steps| ==> Next(usable, states[j], steps[j], states[j + 1])
    ensures steps[|steps| - 1].Sync? && states[|steps|].live == map[svc.name := svc.(kind := NodePort)]
    ensures KeyOf(svc, p) in states[|steps|].table
    ensures !IsRebuild(Converter(usable), states[|steps|].live, states[|steps|].table)
  {
    var n, node, table := svc.name, svc.(kind := NodePort), ServiceTable(usable, svc);
    var s0: State := Cache(map[], map[], map[]);
    var s1 := EventsAreSteps(usable, s0, n, Some(svc));
    var s2 := FirstSync(usable, svc, s1);
    var s3 := EventsAreSteps(usable, s2, n, Some(node));
    var turn := EventOf(usable, s2, n, Some(node));
    IdleSync(usable, s3);
    states, steps := [s0, s1, s2, s3, s3], [EventOf(usable, s0, n, Some(svc)), CacheStep.Sync, turn, CacheStep.Sync];
    OneEntry(usable, svc, p);
    StrayEntry(usable, s3.live, s3.table, node, KeyOf(svc, p));
  }

  lemma FirstSync(usable: string -> bool, svc: Service, s: State) returns (s': State)
    requires svc.clusterIP != "" && svc.kind.ClusterIP?
    requires Next(usable, Cache(map[], map[], map[]), EventOf(usable, Cache(map[], map[], map[]), svc.name, Some(svc)),
      s)
    ensures s' == Cache(map[svc.name := svc], map[], ServiceTable(usable, svc)) && Next(usable, s, CacheStep.Sync, s')
  {
    s' := Cache(map[svc.name := svc], map[], ServiceTable(usable, svc));
    AppliedOnce(svc.name, ServiceTable(usable, svc), s.items);
  }

  lemma IdleSync(usable: string -> bool, s: State)
    requires s.items == map[]
    ensures Next(usable, s, CacheStep.Sync, s)
  {
    assert AppliedTo(s.table, s.items, s.table);
  }

  lemma StrayEntry(usable: string -> bool, live: map<NamespacedName, Service>, table: ServiceMap,
                   svc: Service, k: ServicePortName)
    requires k in table && k.namespacedName == svc.name && svc.name in live && live[svc.name] == svc && ShouldSkip(svc)
    ensures !IsRebuild(Converter(usable), live, table)
  {
    SkippedKindsAddNothing(usable, svc);
    assert k !in Converter(usable)(svc);
  }

  lemma OneEntry(usable: string -> bool, svc: Service, p: Port)
    requires svc.kind.ClusterIP? && svc.clusterIP != "" && svc.ports == [p]
    ensures ServiceTable(usable, svc).Keys == {KeyOf(svc, p)}
  {
    assert LastPort(usable, svc, svc.ports, KeyOf(svc, p)).Some?;
  }

  /** The first sync of a single object. */
  lemma AppliedOnce(n: NamespacedName, table: ServiceMap, items: Items<ServicePortName, ServiceInfo>)
    requires Owned(n, Some(table)) && items == map[n := Change(None, Some(table))]
    ensures AppliedTo(map[], items, table)
  {
    forall m ensures Slice(table, m) ==
      if m in items then Patched(Slice<ServiceInfo>(map[], m), items[m]) else Slice<ServiceInfo>(map[], m)
    {
      assert Slice<ServiceInfo>(map[], m) == map[];
    }
  }

  lemma {:induction false} LastPortNamed(usable: string -> bool, svc: Service, ports: seq<Port>, k: ServicePortName)
    requires LastPort(usable, svc, ports, k).Some?
    ensures LastPort(usable, svc, ports, k).value.svcName == k.namespacedName
    ensures LastPort(usable, svc, ports, k).value.portName == k.port
  {
    var p := ports[|ports| - 1];
    if !(KeyOf(svc, p) == k && NewServiceInfo(usable, p, svc).Some?) {
      LastPortNamed(usable, svc, ports[..|ports| - 1], k);
    }
  }

  /** A rebuilt service table has every entry under its own name and port. */
  lemma RebuildNamedRight(usable: string -> bool, live: map<NamespacedName, Service>, table: ServiceMap)
    requires IsRebuild(Converter(usable), live, table)
    ensures NamedRight(table)
  {
    forall k | k in table ensures table[k].svcName == k.namespacedName && table[k].portName == k.port {
      var svc := live[k.namespacedName];
      assert table[k] == ServiceTable(usable, svc)[k];
      LastPortNamed(usable, svc, svc.ports, k);
    }
  }

  /** The entry is that of the port: a cluster address, or the external name with the port's target. */
  ghost predicate StandsFor(info: ServiceInfo, svc: Service, p: Port) {
    && info.svcName == svc.name && info.portName == p.name && info.protocol == p.protocol
    && info.port == p.port && info.kind == svc.kind
    && match svc.kind
       case ClusterIP => info.address == svc.clusterIP
       case ExternalName => exists t :: IsDecimal(t, p.targetPort) && info.address == svc.externalName + ":" + t
       case NodePort => false
       case LoadBalancer => false
  }

  ghost predicate Named(svc: Service, p: Port, k: ServicePortName) {
    k.namespacedName == svc.name && k.port == p.name && k.protocol == p.protocol
  }

  /** The cache can handle the Service: by its type, and if that is ExternalName, by its external name. */
  ghost predicate Handled(usable: string -> bool, svc: Service) {
    svc.kind.ClusterIP? || (svc.kind.ExternalName? && usable(svc.externalName))
  }

  ghost predicate LastNamed(svc: Service, ports: seq<Port>, k: ServicePortName, i: int) {
    0 <= i < |ports| && Named(svc, ports[i], k) && forall j :: i < j < |ports| ==> !Named(svc, ports[j], k)
  }

  lemma {:induction false} LastPortIff(usable: string -> bool, svc: Service, ports: seq<Port>, k: ServicePortName)
    ensures LastPort(usable, svc, ports, k).Some? <==>
      Handled(usable, svc) && exists p :: p in ports && Named(svc, p, k)
  {
    if ports != [] {
      var front, p := ports[..|ports| - 1], ports[|ports| - 1];
      LastPortIff(usable, svc, front, k);
      assert forall x :: x in ports <==> x in front || x == p;
      assert KeyOf(svc, p) == k <==> Named(svc, p, k);
    }
  }

  lemma NewInfoStandsFor(usable: string -> bool, svc: Service, p: Port)
    requires NewServiceInfo(usable, p, svc).Some?
    ensures StandsFor(NewServiceInfo(usable, p, svc).value, svc, p)
  {
    DecimalIff(Decimal(p.targetPort), p.targetPort);
  }

  lemma {:induction false} LastPortEntry(usable: string -> bool, svc: Service, ports: seq<Port>, k: ServicePortName)
    returns (i: int)
    requires LastPort(usable, svc, ports, k).Some?
    ensures LastNamed(svc, ports, k, i) && StandsFor(LastPort(usable, svc, ports, k).value, svc, ports[i])
  {
    i := |ports| - 1;
    var p, front := ports[i], ports[..i];
    assert KeyOf(svc, p) == k <==> Named(svc, p, k);
    LastPortIff(usable, svc, ports, k);
    if Named(svc, p, k) {
      NewInfoStandsFor(usable, svc, p);
    } else {
      i := LastPortEntry(usable, svc, front, k);
    }
  }

  /** A Service adds an entry for exactly the names of its ports, if it has a cluster address and the cache can
      handle it, and the entry is that of the last port of that name; without a cluster address it adds nothing. */
  lemma EntriesStandForPorts(usable: string -> bool, svc: Service, k: ServicePortName)
    ensures k in ServiceTable(usable, svc) <==>
      svc.clusterIP != "" && Handled(usable, svc) && exists p :: p in svc.ports && Named(svc, p, k)
    ensures k in ServiceTable(usable, svc) ==>
      exists i :: LastNamed(svc, svc.ports, k, i) && StandsFor(ServiceTable(usable, svc)[k], svc, svc.ports[i])
    ensures ServiceContribution(usable, Some(svc)).None? <==> svc.clusterIP == ""
  {
    LastPortIff(usable, svc, svc.ports, k);
    if LastPort(usable, svc, svc.ports, k).Some? {
      LastPortListed(usable, svc, svc.ports, k);
      var i := LastPortEntry(usable, svc, svc.ports, k);
    }
  }
}
