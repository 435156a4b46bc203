/** The endpoints table of the local cache (pkg/cache/endpoints.go).  Telling an IPv4 address from
    other text is a library call and a parameter here. */
module EndpointsCache {
  import opened Options
  import opened Names
  import opened CacheTypes
  import opened ChangeTracking

  datatype Address = Address(ip: string, nodeName: Option<string>, hostname: string)

  datatype EndpointPort = EndpointPort(name: string, port: int, protocol: string)

  datatype Subset = Subset(addresses: seq<Address>, ports: seq<EndpointPort>)

  datatype Endpoints = Endpoints(name: NamespacedName, subsets: seq<Subset>)

  type EndpointsMap = map<ServicePortName, seq<EndpointInfo>>

  function KeyOf(o: Endpoints, p: EndpointPort): ServicePortName {
    ServicePortName(o.name, p.name, p.protocol)
  }

  function InfoOf(a: Address, p: EndpointPort): EndpointInfo {
    EndpointInfo(JoinHostPort(a.ip, p.port), a.nodeName.GetOr(""), a.hostname, "")
  }

  // ------------------------------------------------- what a key is mapped to

  /** The usable addresses of one port, in document order. */
  function AddressList(isIPv4: string -> bool, addrs: seq<Address>, p: EndpointPort): seq<EndpointInfo> {
    if addrs == [] then [] else
    var a := addrs[|addrs| - 1];
    AddressList(isIPv4, addrs[..|addrs| - 1], p) + if a.ip != "" && isIPv4(a.ip) then [InfoOf(a, p)] else []
  }

  function PortList(isIPv4: string -> bool, o: Endpoints, addrs: seq<Address>, ports: seq<EndpointPort>,
                    k: ServicePortName): seq<EndpointInfo> {
    if ports == [] then [] else
    var p := ports[|ports| - 1];
    PortList(isIPv4, o, addrs, ports[..|ports| - 1], k) +
    if p.port != 0 && KeyOf(o, p) == k then AddressList(isIPv4, addrs, p) else []
  }

  function SubsetList(isIPv4: string -> bool, o: Endpoints, subsets: seq<Subset>,
                      k: ServicePortName): seq<EndpointInfo> {
    if subsets == [] then [] else
    var ss := subsets[|subsets| - 1];
    SubsetList(isIPv4, o, subsets[..|subsets| - 1], k) + PortList(isIPv4, o, ss.addresses, ss.ports, k)
  }

  /** All usable endpoints of the object for one service port name, in document order. */
  function EndpointList(isIPv4: string -> bool, o: Endpoints, k: ServicePortName): seq<EndpointInfo> {
    SubsetList(isIPv4, o, o.subsets, k)
  }

  ghost function PortKeys(o: Endpoints): set<ServicePortName> {
    set ss, p | ss in o.subsets && p in ss.ports :: KeyOf(o, p)
  }

  /** The object's table: every service port name with a usable endpoint, mapped to its endpoints. */
  ghost function EndpointsTable(isIPv4: string -> bool, o: Endpoints): EndpointsMap {
    map k | k in PortKeys(o) && EndpointList(isIPv4, o, k) != [] :: EndpointList(isIPv4, o, k)
  }

  lemma {:induction false} ListedPorts(isIPv4: string -> bool, o: Endpoints, addrs: seq<Address>,
                                       ports: seq<EndpointPort>, k: ServicePortName)
    requires PortList(isIPv4, o, addrs, ports, k) != []
    ensures exists p :: p in ports && KeyOf(o, p) == k
  {
    var p := ports[|ports| - 1];
    if PortList(isIPv4, o, addrs, ports[..|ports| - 1], k) != [] {
      ListedPorts(isIPv4, o, addrs, ports[..|ports| - 1], k);
    } else {
      assert p in ports && KeyOf(o, p) == k;
    }
  }

  lemma {:induction false} ListedKeys(isIPv4: string -> bool, o: Endpoints, subsets: seq<Subset>, k: ServicePortName)
    requires SubsetList(isIPv4, o, subsets, k) != []
    ensures exists ss, p :: ss in subsets && p in ss.ports && KeyOf(o, p) == k
  {
    var ss := subsets[|subsets| - 1];
    if SubsetList(isIPv4, o, subsets[..|subsets| - 1], k) != [] {
      ListedKeys(isIPv4, o, subsets[..|subsets| - 1], k);
    } else {
      ListedPorts(isIPv4, o, ss.addresses, ss.ports, k);
      assert ss in subsets;
    }
  }

  /** `info` is the address `a` of the object at port `p`, both usable. */
  ghost predicate Describes(isIPv4: string -> bool, info: EndpointInfo, a: Address, p: EndpointPort) {
    && p.port != 0 && a.ip != "" && isIPv4(a.ip)
    && HostPort(info.endpoint, a.ip, p.port) && info.hostname == a.hostname && info.cluster == ""
    && info.nodename == (if a.nodeName.Some? then a.nodeName.value else "")
  }

  /** The service port name is that of the object and of the port's name and protocol. */
  ghost predicate Named(o: Endpoints, p: EndpointPort, k: ServicePortName) {
    k.namespacedName == o.name && k.port == p.name && k.protocol == p.protocol
  }

  ghost predicate Offered(isIPv4: string -> bool, o: Endpoints, addrs: seq<Address>, ports: seq<EndpointPort>,
                          k: ServicePortName, info: EndpointInfo) {
    exists p, a :: p in ports && a in addrs && Named(o, p, k) && Describes(isIPv4, info, a, p)
  }

  lemma {:induction false} AddressListMembers(isIPv4: string -> bool, addrs: seq<Address>, p: EndpointPort,
                                              info: EndpointInfo)
    requires p.port != 0
    ensures info in AddressList(isIPv4, addrs, p) <==> exists a :: a in addrs && Describes(isIPv4, info, a, p)
  {
    if addrs != [] {
      var front, a := addrs[..|addrs| - 1], addrs[|addrs| - 1];
      AddressListMembers(isIPv4, front, p, info);
      assert forall x :: x in addrs <==> x in front || x == a;
      JoinHostPortIff(info.endpoint, a.ip, p.port);
      assert Describes(isIPv4, info, a, p) <==> a.ip != "" && isIPv4(a.ip) && info == InfoOf(a, p);
    }
  }

  lemma {:induction false} PortListMembers(isIPv4: string -> bool, o: Endpoints, addrs: seq<Address>,
                                           ports: seq<EndpointPort>, k: ServicePortName, info: EndpointInfo)
    ensures info in PortList(isIPv4, o, addrs, ports, k) <==> Offered(isIPv4, o, addrs, ports, k, info)
  {
    if ports != [] {
      var front, p := ports[..|ports| - 1], ports[|ports| - 1];
      PortListMembers(isIPv4, o, addrs, front, k, info);
      assert KeyOf(o, p) == k <==> Named(o, p, k);
      if p.port != 0 { AddressListMembers(isIPv4, addrs, p, info); }
      assert forall x :: x in ports <==> x in front || x == p;
    }
  }

  /** A service port name is mapped to exactly the usable addresses of the object's ports of that name. */
  lemma {:induction false} EndpointListMembers(isIPv4: string -> bool, o: Endpoints, subsets: seq<Subset>,
                                               k: ServicePortName, info: EndpointInfo)
    ensures info in SubsetList(isIPv4, o, subsets, k) <==>
      exists ss :: ss in subsets && Offered(isIPv4, o, ss.addresses, ss.ports, k, info)
  {
    if subsets != [] {
      var front, ss := subsets[..|subsets| - 1], subsets[|subsets| - 1];
      EndpointListMembers(isIPv4, o, front, k, info);
      PortListMembers(isIPv4, o, ss.addresses, ss.ports, k, info);
      assert forall x :: x in subsets <==> x in front || x == ss;
    }
  }

  ghost function UsableAt(isIPv4: string -> bool, addrs: seq<Address>): set<int> {
    set i | 0 <= i < |addrs| && addrs[i].ip != "" && isIPv4(addrs[i].ip)
  }

  ghost function PortsAt(o: Endpoints, ports: seq<EndpointPort>, k: ServicePortName): set<int> {
    set j | 0 <= j < |ports| && ports[j].port != 0 && Named(o, ports[j], k)
  }

  lemma {:induction false} AddressListCount(isIPv4: string -> bool, addrs: seq<Address>, p: EndpointPort)
    ensures |AddressList(isIPv4, addrs, p)| == |UsableAt(isIPv4, addrs)|
  {
    if addrs != [] {
      var front, last := addrs[..|addrs| - 1], |addrs| - 1;
      AddressListCount(isIPv4, front, p);
      assert UsableAt(isIPv4, addrs) - {last} == UsableAt(isIPv4, front);
    }
  }

  lemma {:induction false} PortListCount(isIPv4: string -> bool, o: Endpoints, addrs: seq<Address>,
                                         ports: seq<EndpointPort>, k: ServicePortName)
    ensures |PortList(isIPv4, o, addrs, ports, k)| == |PortsAt(o, ports, k)| * |UsableAt(isIPv4, addrs)|
  {
    if ports != [] {
      var front, last := ports[..|ports| - 1], |ports| - 1;
      PortListCount(isIPv4, o, addrs, front, k);
      AddressListCount(isIPv4, addrs, ports[last]);
      PortsAtMore(o, ports, k);
      Distribute(|PortsAt(o, front, k)|, |UsableAt(isIPv4, addrs)|);
      assert KeyOf(o, ports[last]) == k <==> Named(o, ports[last], k);
    }
  }

  lemma PortsAtMore(o: Endpoints, ports: seq<EndpointPort>, k: ServicePortName)
    requires ports != []
    ensures var last := ports[|ports| - 1];
      |PortsAt(o, ports, k)| == |PortsAt(o, ports[..|ports| - 1], k)| + if last.port != 0
        && Named(o, last, k) then 1 else 0
  {
    var last := |ports| - 1;
    assert PortsAt(o, ports, k) - {last} == PortsAt(o, ports[..last], k);
  }

  lemma Distribute(x: nat, y: nat)
    ensures (x + 1) * y == x * y + y
  {
  }

  /** Subset by subset, in order; a subset gives as many endpoints as it has usable addresses for each of its
      ports of that name. */
  lemma EndpointListInOrder(isIPv4: string -> bool, o: Endpoints, a: seq<Subset>, ss: Subset, k: ServicePortName)
    ensures SubsetList(isIPv4, o, a + [ss], k) == SubsetList(isIPv4, o, a, k) + SubsetList(isIPv4, o, [ss], k)
    ensures |SubsetList(isIPv4, o, [ss], k)| == |PortsAt(o, ss.ports, k)| * |UsableAt(isIPv4, ss.addresses)|
  {
    assert (a + [ss])[..|a|] == a && [ss][..0] == [];
    assert SubsetList(isIPv4, o, [ss], k) == PortList(isIPv4, o, ss.addresses, ss.ports, k);
    PortListCount(isIPv4, o, ss.addresses, ss.ports, k);
  }

  lemma TabulatesTable(isIPv4: string -> bool, o: Endpoints, m: EndpointsMap)
    requires Tabulates(m, Lists(isIPv4, o, o.subsets))
    ensures m == EndpointsTable(isIPv4, o)
  {
    forall k | k in m ensures k in PortKeys(o) {
      ListedKeys(isIPv4, o, o.subsets, k);
    }
    assert m.Keys == EndpointsTable(isIPv4, o).Keys;
  }

  // ----------------------------------------------------------- imperative form

  method AppendAddresses(isIPv4: string -> bool, m: EndpointsMap, k: ServicePortName, addrs: seq<Address>,
                         p: EndpointPort,
                         ghost list: ServicePortName -> seq<EndpointInfo>)
    returns (m': EndpointsMap)
    requires Tabulates(m, list)
    ensures Tabulates(m', Extended(list, k, AddressList(isIPv4, addrs, p)))
  {
    m' := m;
    ExtendedByNothing(m, list, k);
    for i := 0 to |addrs|
      invariant Tabulates(m', Extended(list, k, AddressList(isIPv4, addrs[..i], p)))
    {
      assert addrs[..i + 1][..i] == addrs[..i];
      if addrs[i].ip != "" && isIPv4(addrs[i].ip) {
        AppendedTabulates(m', list, k, AddressList(isIPv4, addrs[..i], p), InfoOf(addrs[i], p));
        m' := Appended(m', k, InfoOf(addrs[i], p));
      } else {
        assert AddressList(isIPv4, addrs[..i + 1], p) == AddressList(isIPv4, addrs[..i], p);
      }
    }
    assert addrs[..|addrs|] == addrs;
  }

  /** The lists so far, followed by those of the ports of one subset. */
  ghost function WithPorts(isIPv4: string -> bool, o: Endpoints, ss: Subset, ports: seq<EndpointPort>,
                           list: ServicePortName -> seq<EndpointInfo>): ServicePortName -> seq<EndpointInfo> {
    k => list(k) + PortList(isIPv4, o, ss.addresses, ports, k)
  }

  lemma OnePortMore(isIPv4: string -> bool, o: Endpoints, ss: Subset, j: nat,
                    list: ServicePortName -> seq<EndpointInfo>, k: ServicePortName)
    requires j < |ss.ports|
    ensures var p := ss.ports[j]; var was := WithPorts(isIPv4, o, ss, ss.ports[..j], list);
      WithPorts(isIPv4, o, ss, ss.ports[..j + 1], list)(k) ==
      if p.port != 0 then Extended(was, KeyOf(o, p), AddressList(isIPv4, ss.addresses, p))(k) else was(k)
  {
    var p, ports := ss.ports[j], ss.ports[..j + 1];
    assert ports[..|ports| - 1] == ss.ports[..j] && ports[|ports| - 1] == p;
    var before := PortList(isIPv4, o, ss.addresses, ss.ports[..j], k);
    var tail := if p.port != 0 && KeyOf(o, p) == k then AddressList(isIPv4, ss.addresses, p) else [];
    assert PortList(isIPv4, o, ss.addresses, ports, k) == before + tail;
    assert list(k) + (before + tail) == (list(k) + before) + tail;
  }

  method AppendPorts(isIPv4: string -> bool, m: EndpointsMap, o: Endpoints, ss: Subset,
                     ghost list: ServicePortName -> seq<EndpointInfo>)
    returns (m': EndpointsMap)
    requires Tabulates(m, list)
    ensures Tabulates(m', WithPorts(isIPv4, o, ss, ss.ports, list))
  {
    m' := m;
    TabulatesSame(m, list, WithPorts(isIPv4, o, ss, [], list));
    for j := 0 to |ss.ports|
      invariant Tabulates(m', WithPorts(isIPv4, o, ss, ss.ports[..j], list))
    {
      var p := ss.ports[j];
      ghost var was, now := WithPorts(isIPv4, o, ss, ss.ports[..j], list),
        WithPorts(isIPv4, o, ss, ss.ports[..j + 1], list);
      forall k { OnePortMore(isIPv4, o, ss, j, list, k); }
      if p.port != 0 {
        m' := AppendAddresses(isIPv4, m', KeyOf(o, p), ss.addresses, p, was);
        TabulatesSame(m', Extended(was, KeyOf(o, p), AddressList(isIPv4, ss.addresses, p)), now);
      } else {
        TabulatesSame(m', was, now);
      }
    }
    assert ss.ports[..|ss.ports|] == ss.ports;
  }

  /** The lists of the first subsets. */
  ghost function Lists(isIPv4: string -> bool, o: Endpoints,
                       subsets: seq<Subset>): ServicePortName -> seq<EndpointInfo> {
    k => SubsetList(isIPv4, o, subsets, k)
  }

  method EndpointsToEndpointsMap(isIPv4: string -> bool, endpoints: Option<Endpoints>)
    returns (c: Contribution<ServicePortName, seq<EndpointInfo>>)
    ensures c == EndpointsContribution(isIPv4, endpoints)
  {
    if endpoints.None? {
      return None;
    }
    var o := endpoints.value;
    var m: EndpointsMap := map[];
    for i := 0 to |o.subsets|
      invariant Tabulates(m, Lists(isIPv4, o, o.subsets[..i]))
    {
      assert o.subsets[..i + 1][..i] == o.subsets[..i];
      ghost var was := Lists(isIPv4, o, o.subsets[..i]);
      m := AppendPorts(isIPv4, m, o, o.subsets[i], was);
      TabulatesSame(m, WithPorts(isIPv4, o, o.subsets[i], o.subsets[i].ports, was),
        Lists(isIPv4, o, o.subsets[..i + 1]));
    }
    assert o.subsets[..|o.subsets|] == o.subsets;
    TabulatesTable(isIPv4, o, m);
    c := Some(m);
  }

  ghost function EndpointsContribution(isIPv4: string -> bool,
                                       o: Option<Endpoints>): Contribution<ServicePortName, seq<EndpointInfo>> {
    match o case None => None case Some(v) => Some(EndpointsTable(isIPv4, v))
  }

  ghost function Converter(isIPv4: string -> bool): Endpoints -> EndpointsMap {
    o => EndpointsTable(isIPv4, o)
  }

  lemma TableOwned(isIPv4: string -> bool, o: Option<Endpoints>, n: NamespacedName)
    requires o.Some? ==> o.value.name == n
    ensures Owned(n, EndpointsContribution(isIPv4, o))
  {
  }

  method Update(isIPv4: string -> bool, tracker: ChangeTracker<ServicePortName, seq<EndpointInfo>>,
                previous: Option<Endpoints>, current: Option<Endpoints>) returns (pending: bool)
    requires previous.Some? && current.Some? ==> previous.value.name == current.value.name
    modifies tracker
    ensures previous.None? && current.None? ==> !pending && tracker.items == old(tracker.items)
    ensures previous.Some? || current.Some? ==>
      && tracker.items == Recorded(old(tracker.items), (if current.Some? then current else previous).value.name,
                                   EndpointsContribution(isIPv4, previous), EndpointsContribution(isIPv4, current))
      && (pending <==> tracker.items != map[])
  {
    if previous.None? && current.None? {
      return false;
    }
    var n := (if current.Some? then current else previous).value.name;
    var was: Contribution<ServicePortName, seq<EndpointInfo>> := None;
    if n !in tracker.items {
      was := EndpointsToEndpointsMap(isIPv4, previous);
    }
    var now := EndpointsToEndpointsMap(isIPv4, current);
    pending := tracker.Record(n, was, now);
  }

  // ------------------------------------------------------------------ whole runs

  /** An informer event names the object's new state; the old one is what the informer last saw. */
  datatype Step = Seen(n: NamespacedName, obj: Option<Endpoints>) | Sync

  type State = Cache<Endpoints, seq<EndpointInfo>>

  ghost predicate Next(isIPv4: string -> bool, s: State, step: Step, s': State) {
    match step
    case Seen(n, obj) =>
      && (obj.Some? ==> obj.value.name == n)
      && s' == s.(live := (match obj case None => s.live - {n} case Some(o) => s.live[n := o]),
                  items := Recorded(s.items, n, EndpointsContribution(isIPv4, Lookup(s.live, n)),
                    EndpointsContribution(isIPv4, obj)))
    case Sync =>
      AppliedTo(s.table, s.items, s'.table) && s' == Cache(s.live, map[], s'.table)
  }

  ghost predicate IsRun(isIPv4: string -> bool, states: seq<State>, steps: seq<Step>) {
    && |states| == |steps| + 1
    && states[0] == Cache(map[], map[], map[])
    && forall i :: 0 <= i < |steps| ==> Next(isIPv4, states[i], steps[i], states[i + 1])
  }

  ghost predicate Good(isIPv4: string -> bool, s: State) {
    && (forall n :: n in s.live ==> s.live[n].name == n)
    && CacheInv(Same, Converter(isIPv4), s)
  }

  lemma NextGood(isIPv4: string -> bool, s: State, step: Step, s': State)
    requires Good(isIPv4, s) && Next(isIPv4, s, step, s')
    ensures Good(isIPv4, s')
  {
    var conv := Converter(isIPv4);
    match step
    case Sync => SyncInv(Same, conv, s, s');
    case Seen(n, obj) =>
      var was, now := EndpointsContribution(isIPv4, Lookup(s.live, n)), EndpointsContribution(isIPv4, obj);
      TableOwned(isIPv4, Lookup(s.live, n), n);
      TableOwned(isIPv4, obj, n);
      ProjectSame(Entries(was));
      ProjectSame(Entries(now));
      EventInv(Same, conv, s, Event(n, obj, was, now, false), s');
  }

  lemma {:induction false} GoodAt(isIPv4: string -> bool, states: seq<State>, steps: seq<Step>, i: nat)
    requires IsRun(isIPv4, states, steps) && i < |states|
    ensures Good(isIPv4, states[i])
  {
    if i == 0 {
      forall n ensures InStep(Same, Converter(isIPv4), states[0], n) {
        assert Slice(states[0].table, n) == map[];
      }
    } else {
      GoodAt(isIPv4, states, steps, i - 1);
      NextGood(isIPv4, states[i - 1], steps[i - 1], states[i]);
    }
  }

  /** For every interleaving of adds, updates, deletes, resyncs and syncs, the endpoints table right
      after a sync is the union of the tables of all live objects. */
  lemma EndpointsCacheIsRebuild(isIPv4: string -> bool, states: seq<State>, steps: seq<Step>, i: nat)
    requires IsRun(isIPv4, states, steps) && i < |steps| && steps[i].Sync?
    ensures IsRebuild(Converter(isIPv4), states[i + 1].live, states[i + 1].table)
  {
    GoodAt(isIPv4, states, steps, i + 1);
    var conv := Converter(isIPv4);
    InStepRebuilds(Same, conv, states[i + 1]);
    ProjectSame(states[i + 1].table);
  }

  /** The usable endpoints of the live object that a service port name belongs to. */
  function ListOf(isIPv4: string -> bool, live: map<NamespacedName, Endpoints>, k: ServicePortName): seq<EndpointInfo> {
    if k.namespacedName in live then EndpointList(isIPv4, live[k.namespacedName], k) else []
  }

  /** They are what the rebuilt table lists. */
  lemma RebuildLists(isIPv4: string -> bool, live: map<NamespacedName, Endpoints>, table: EndpointsMap,
                     k: ServicePortName)
    requires IsRebuild(Converter(isIPv4), live, table)
    ensures (if k in table then table[k] else []) == ListOf(isIPv4, live, k)
  {
    if k.namespacedName in live {
      var o := live[k.namespacedName];
      assert Converter(isIPv4)(o) == EndpointsTable(isIPv4, o);
      if EndpointList(isIPv4, o, k) != [] { ListedKeys(isIPv4, o, o.subsets, k); }
    }
  }

  /** At every moment, a pending item holds the entries last applied and the latest ones; an object
      without one has its latest entries in the table. */
  lemma PendingItemsInStep(isIPv4: string -> bool, states: seq<State>, steps: seq<Step>, i: nat, n: NamespacedName)
    requires IsRun(isIPv4, states, steps) && i < |states|
    ensures var s := states[i];
      var latest := if n in s.live then EndpointsTable(isIPv4, s.live[n]) else map[];
      if n in s.items
      then Entries(s.items[n].previous) == Slice(s.table, n) && Entries(s.items[n].current) == latest
      else Slice(s.table, n) == latest
  {
    GoodAt(isIPv4, states, steps, i);
    var s := states[i];
    assert InStep(Same, Converter(isIPv4), s, n);
    ProjectSame(Slice(s.table, n));
    if n in s.items {
      ProjectSame(Entries(s.items[n].previous));
      ProjectSame(Entries(s.items[n].current));
    }
  }
}
