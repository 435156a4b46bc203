/** How one cluster folds the exports of the other clusters into its ServiceImport
    (pkg/cluster/remote.go).  A `ServiceImport` here is the object of one namespace/name
    in one cluster; `Option` says whether the API server holds it. */
module ServiceImports {
  import opened Options

  type ClusterKey = string

  datatype Rule = Rule(portNumber: int, path: string)

  datatype Gateway = Gateway(host: string, ip: string, port: int)

  datatype ServicePort = ServicePort(
    name: string, protocol: string, appProtocol: Option<string>, port: int, targetPort: string, nodePort: int)

  datatype Service = Service(kind: string, ports: seq<ServicePort>)

  /** A ServiceExportEvent: the export, the Service behind it and where it comes from. */
  datatype ExportEvent = ExportEvent(
    clusterKey: ClusterKey, gateway: Gateway, rules: seq<Rule>, serviceAccount: string, service: Service)

  datatype Target = Target(host: string, ip: string, port: int, path: string)

  datatype Endpoint = Endpoint(clusterKey: ClusterKey, target: Target)

  datatype Header = Header(name: string, protocol: string, appProtocol: Option<string>, port: int)

  datatype ImportPort = ImportPort(header: Header, endpoints: seq<Endpoint>)

  datatype ServiceImport = ServiceImport(ports: seq<ImportPort>, serviceAccount: string, terminating: bool)

  // ---------------------------------------------------------------- endpoints

  function NewEndpoint(e: ExportEvent, r: Rule): Endpoint {
    Endpoint(e.clusterKey, Target(e.gateway.host, e.gateway.ip, e.gateway.port, r.path))
  }

  /** The endpoints of a port keyed by cluster; a later entry overwrites an earlier one. */
  function EndpointMap(eps: seq<Endpoint>): map<ClusterKey, Endpoint> {
    if eps == [] then map[] else
    EndpointMap(eps[..|eps| - 1])[eps[|eps| - 1].clusterKey := eps[|eps| - 1]]
  }

  ghost predicate DistinctKeys(eps: seq<Endpoint>) {
    forall i, j :: 0 <= i < j < |eps| ==> eps[i].clusterKey != eps[j].clusterKey
  }

  lemma {:induction false} EndpointMapKeys(eps: seq<Endpoint>)
    ensures forall k :: k in EndpointMap(eps) ==> EndpointMap(eps)[k] in eps && EndpointMap(eps)[k].clusterKey == k
    ensures forall ep :: ep in eps ==> ep.clusterKey in EndpointMap(eps)
    ensures DistinctKeys(eps) ==> forall ep :: ep in eps ==> EndpointMap(eps)[ep.clusterKey] == ep
  {
    if eps != [] { EndpointMapKeys(eps[..|eps| - 1]); }
  }

  /** The last rule for a port: the one whose path an upsert leaves behind. */
  function LastRule(rules: seq<Rule>, port: int): Option<Rule> {
    if rules == [] then None
    else if rules[|rules| - 1].portNumber == port then Some(rules[|rules| - 1])
    else LastRule(rules[..|rules| - 1], port)
  }

  lemma {:induction false} LastRuleMatches(rules: seq<Rule>, port: int)
    ensures LastRule(rules, port).Some? ==>
      LastRule(rules, port).value in rules && LastRule(rules, port).value.portNumber == port
    ensures LastRule(rules, port).None? <==> forall r :: r in rules ==> r.portNumber != port
    ensures DistinctRules(rules) ==> forall r :: r in rules && r.portNumber == port ==> LastRule(rules, port) == Some(r)
  {
    if rules != [] {
      LastRuleMatches(rules[..|rules| - 1], port);
      assert forall r :: r in rules <==> r in rules[..|rules| - 1] || r == rules[|rules| - 1];
    }
  }

  /** It is the last one in the list. */
  lemma {:induction false} LastRuleIsLast(rules: seq<Rule>, port: int) returns (i: nat)
    requires exists r :: r in rules && r.portNumber == port
    ensures i < |rules| && rules[i].portNumber == port && LastRule(rules, port) == Some(rules[i])
    ensures forall j :: i < j < |rules| ==> rules[j].portNumber != port
  {
    i := |rules| - 1;
    if rules[i].portNumber != port {
      var front := rules[..i];
      assert forall r :: r in rules <==> r in front || r == rules[i];
      i := LastRuleIsLast(front, port);
    }
  }

  lemma LastRuleAppend(front: seq<Rule>, last: Rule, port: int)
    ensures LastRule(front + [last], port) == if last.portNumber == port then Some(last) else LastRule(front, port)
    ensures LastRule([last], port) == if last.portNumber == port then Some(last) else None
  {
    assert (front + [last])[..|front|] == front;
    assert [last][..0] == [];
  }

  ghost predicate DistinctRules(rules: seq<Rule>) {
    forall i, j :: 0 <= i < j < |rules| ==> rules[i].portNumber != rules[j].portNumber
  }

  /** What an upsert writes on a port that has no endpoint yet: one per matching rule. */
  function FreshEndpoints(e: ExportEvent, rules: seq<Rule>, port: int): seq<Endpoint> {
    if rules == [] then [] else
    var last := rules[|rules| - 1];
    FreshEndpoints(e, rules[..|rules| - 1], port) + if last.portNumber == port then [NewEndpoint(e, last)] else []
  }

  lemma {:induction false} FreshEndpointsShape(e: ExportEvent, rules: seq<Rule>, port: int)
    ensures FreshEndpoints(e, rules, port) == [] <==> LastRule(rules, port).None?
    ensures DistinctRules(rules) ==> |FreshEndpoints(e, rules, port)| <= 1
    ensures forall ep :: ep in FreshEndpoints(e, rules, port) ==> ep.clusterKey == e.clusterKey
  {
    if rules != [] {
      var front := rules[..|rules| - 1];
      FreshEndpointsShape(e, front, port);
      LastRuleMatches(front, port);
    }
  }

  lemma {:induction false} FreshEndpointsOverlay(e: ExportEvent, rules: seq<Rule>, port: int)
    ensures EndpointMap(FreshEndpoints(e, rules, port)) == Overlay(map[], e, LastRule(rules, port))
  {
    if rules != [] {
      var front, last := rules[..|rules| - 1], rules[|rules| - 1];
      var was, made := FreshEndpoints(e, front, port), FreshEndpoints(e, rules, port);
      FreshEndpointsOverlay(e, front, port);
      if last.portNumber == port {
        assert made[..|made| - 1] == was;
        assert EndpointMap(made) == EndpointMap(was)[e.clusterKey := NewEndpoint(e, last)];
        assert EndpointMap(was).Keys <= {e.clusterKey};
      } else {
        assert made == was;
      }
    }
  }

  /** Rule by rule, in order, one endpoint at the exporter's gateway with the path of the rule. */
  lemma {:induction false} FreshEndpointsInOrder(e: ExportEvent, a: seq<Rule>, b: seq<Rule>, port: int)
    ensures FreshEndpoints(e, a + b, port) == FreshEndpoints(e, a, port) + FreshEndpoints(e, b, port)
    ensures |b| == 1 && b[0].portNumber == port ==>
      |FreshEndpoints(e, b, port)| == 1 && LeadsTo(FreshEndpoints(e, b, port)[0], e, b[0])
  {
    if b == [] {
      assert a + b == a;
    } else {
      var u, front := a + b, b[..|b| - 1];
      FreshEndpointsInOrder(e, a, front, port);
      assert u[..|u| - 1] == a + front;
    }
  }

  /** The endpoint is the exporter's: its cluster, its gateway and the path of the rule. */
  ghost predicate LeadsTo(ep: Endpoint, e: ExportEvent, r: Rule) {
    && ep.clusterKey == e.clusterKey && ep.target.host == e.gateway.host && ep.target.ip == e.gateway.ip
    && ep.target.port == e.gateway.port && ep.target.path == r.path
  }

  lemma FreshEndpointsMap(e: ExportEvent, rules: seq<Rule>, port: int)
    ensures EndpointMap(FreshEndpoints(e, rules, port)) == Overlay(map[], e, LastRule(rules, port))
    ensures FreshEndpoints(e, rules, port) == [] <==> LastRule(rules, port).None?
    ensures DistinctRules(rules) ==> |FreshEndpoints(e, rules, port)| <= 1
    ensures forall ep :: ep in FreshEndpoints(e, rules, port) ==> ep.clusterKey == e.clusterKey
  {
    FreshEndpointsShape(e, rules, port);
    FreshEndpointsOverlay(e, rules, port);
  }

  /** The given endpoints with the exporter's own entry inserted or replaced. */
  function Overlay(eps: map<ClusterKey, Endpoint>, e: ExportEvent, r: Option<Rule>): map<ClusterKey, Endpoint> {
    match r
    case None => map[]
    case Some(rule) => eps[e.clusterKey := NewEndpoint(e, rule)]
  }

  /** `out` is a possible result of merging the export into the endpoints `eps` of one port;
      the order of a merged list is that of a Go map iteration, so it is left open. */
  ghost predicate Merged(eps: seq<Endpoint>, e: ExportEvent, port: int, out: seq<Endpoint>) {
    if eps == [] then out == FreshEndpoints(e, e.rules, port)
    else DistinctKeys(out) && EndpointMap(out) == Overlay(EndpointMap(eps), e, LastRule(e.rules, port))
  }

  method MergeEndpoints(eps: seq<Endpoint>, e: ExportEvent, port: int) returns (out: seq<Endpoint>)
    ensures Merged(eps, e, port, out)
  {
    out := [];
    if |eps| == 0 {
      for i := 0 to |e.rules|
        invariant out == FreshEndpoints(e, e.rules[..i], port)
      {
        assert e.rules[..i + 1][..i] == e.rules[..i];
        if e.rules[i].portNumber == port {
          out := out + [NewEndpoint(e, e.rules[i])];
        }
      }
      assert e.rules[..|e.rules|] == e.rules;
    } else {
      var epMap: map<ClusterKey, Endpoint> := map[];
      for i := 0 to |e.rules|
        invariant epMap == Overlay(EndpointMap(eps), e, LastRule(e.rules[..i], port))
      {
        assert e.rules[..i + 1][..i] == e.rules[..i];
        if e.rules[i].portNumber == port {
          epMap := CopyInto(epMap, eps);
          epMap := epMap[e.clusterKey := NewEndpoint(e, e.rules[i])];
        }
      }
      assert e.rules[..|e.rules|] == e.rules;
      EndpointMapKeys(eps);
      out := Enumerate(epMap);
    }
  }

  method CopyInto(start: map<ClusterKey, Endpoint>, eps: seq<Endpoint>) returns (epMap: map<ClusterKey, Endpoint>)
    ensures epMap == start + EndpointMap(eps)
  {
    epMap := start;
    for j := 0 to |eps|
      invariant epMap == start + EndpointMap(eps[..j])
    {
      assert eps[..j + 1][..j] == eps[..j];
      epMap := epMap[eps[j].clusterKey := eps[j]];
    }
    assert eps[..|eps|] == eps;
  }

  lemma AppendEndpoint(eps: seq<Endpoint>, ep: Endpoint)
    ensures EndpointMap(eps + [ep]) == EndpointMap(eps)[ep.clusterKey := ep]
    ensures DistinctKeys(eps) && ep.clusterKey !in EndpointMap(eps) ==> DistinctKeys(eps + [ep])
  {
    assert (eps + [ep])[..|eps|] == eps;
    EndpointMapKeys(eps);
  }

  /** Ranging over the endpoint map yields its values once each, in some order. */
  method Enumerate(epMap: map<ClusterKey, Endpoint>) returns (out: seq<Endpoint>)
    requires forall k :: k in epMap ==> epMap[k].clusterKey == k
    ensures DistinctKeys(out) && EndpointMap(out) == epMap
  {
    out := [];
    var rest := epMap.Keys;
    while rest != {}
      invariant rest <= epMap.Keys
      invariant DistinctKeys(out)
      invariant EndpointMap(out) == map k | k in epMap && k !in rest :: epMap[k]
      decreases rest
    {
      var k :| k in rest;
      AppendEndpoint(out, epMap[k]);
      out := out + [epMap[k]];
      rest := rest - {k};
    }
  }

  ghost predicate LastForPort(rules: seq<Rule>, port: int, i: int) {
    0 <= i < |rules| && rules[i].portNumber == port && forall j :: i < j < |rules| ==> rules[j].portNumber != port
  }

  ghost predicate LastOfCluster(eps: seq<Endpoint>, i: int) {
    0 <= i < |eps| && forall j :: i < j < |eps| ==> eps[j].clusterKey != eps[i].clusterKey
  }

  lemma {:induction false} EndpointMapLast(eps: seq<Endpoint>, k: ClusterKey)
    ensures k in EndpointMap(eps) ==>
      exists i :: LastOfCluster(eps, i) && eps[i].clusterKey == k && EndpointMap(eps)[k] == eps[i]
    ensures forall i :: LastOfCluster(eps, i) && eps[i].clusterKey == k ==>
      k in EndpointMap(eps) && EndpointMap(eps)[k] == eps[i]
  {
    if eps != [] {
      var front, last := eps[..|eps| - 1], |eps| - 1;
      EndpointMapLast(front, k);
      if eps[last].clusterKey == k {
        assert LastOfCluster(eps, last);
      } else {
        assert forall i :: i != last && LastOfCluster(eps, i) && eps[i].clusterKey == k ==> LastOfCluster(front, i);
        if k in EndpointMap(front) {
          var i :| LastOfCluster(front, i) && front[i].clusterKey == k && EndpointMap(front)[k] == front[i];
          assert LastOfCluster(eps, i);
        }
      }
    }
  }

  /** The endpoint belongs on the port after the export was merged into the given ones: where there was none, one
      for each rule for the port; otherwise nothing unless some rule is for the port, and then the exporter's for
      the last such rule, with the last endpoint of every other cluster. */
  ghost predicate Belongs(eps: seq<Endpoint>, e: ExportEvent, port: int, ep: Endpoint) {
    if eps == [] then exists r :: r in e.rules && r.portNumber == port && LeadsTo(ep, e, r)
    else if ep.clusterKey == e.clusterKey then exists i :: LastForPort(e.rules, port, i) && LeadsTo(ep, e, e.rules[i])
    else (exists r :: r in e.rules && r.portNumber == port) && exists i :: LastOfCluster(eps, i) && eps[i] == ep
  }

  lemma {:induction false} FreshEndpointsMembers(e: ExportEvent, rules: seq<Rule>, port: int, ep: Endpoint)
    ensures ep in FreshEndpoints(e, rules, port) <==>
      exists r :: r in rules && r.portNumber == port && LeadsTo(ep, e, r)
  {
    if rules != [] {
      var front, last := rules[..|rules| - 1], rules[|rules| - 1];
      FreshEndpointsMembers(e, front, port, ep);
      assert forall r :: r in rules <==> r in front || r == last;
      assert LeadsTo(ep, e, last) <==> ep == NewEndpoint(e, last);
    }
  }

  /** A merge leaves exactly the endpoints that belong there. */
  lemma MergedIff(eps: seq<Endpoint>, e: ExportEvent, port: int, out: seq<Endpoint>, ep: Endpoint)
    requires Merged(eps, e, port, out)
    ensures ep in out <==> Belongs(eps, e, port, ep)
    ensures eps != [] ==> DistinctKeys(out)
  {
    if eps == [] {
      FreshEndpointsMembers(e, e.rules, port, ep);
    } else {
      EndpointMapKeys(out);
      assert ep in out <==> ep.clusterKey in EndpointMap(out) && EndpointMap(out)[ep.clusterKey] == ep;
      LastRuleMatches(e.rules, port);
      if LastRule(e.rules, port).Some? { OverlayIff(eps, e, port, ep); }
    }
  }

  lemma OverlayIff(eps: seq<Endpoint>, e: ExportEvent, port: int, ep: Endpoint)
    requires eps != [] && LastRule(e.rules, port).Some?
    ensures var m := Overlay(EndpointMap(eps), e, LastRule(e.rules, port));
      (ep.clusterKey in m && m[ep.clusterKey] == ep) <==> Belongs(eps, e, port, ep)
  {
    LastRuleMatches(e.rules, port);
    var i := LastRuleIsLast(e.rules, port);
    assert LastForPort(e.rules, port, i) && forall j :: LastForPort(e.rules, port, j) ==> j == i;
    EndpointMapLast(eps, ep.clusterKey);
    assert LeadsTo(ep, e, e.rules[i]) <==> ep == NewEndpoint(e, e.rules[i]);
  }

  // ------------------------------------------------------------- a new import

  function MatchingPorts(ports: seq<ServicePort>, port: int): seq<ServicePort> {
    if ports == [] then [] else
    var last := ports[|ports| - 1];
    MatchingPorts(ports[..|ports| - 1], port) + if last.port == port then [last] else []
  }

  function NewPort(e: ExportEvent, r: Rule, p: ServicePort): ImportPort {
    ImportPort(Header(p.name, p.protocol, p.appProtocol, p.port), [NewEndpoint(e, r)])
  }

  function NewPortsOfRule(e: ExportEvent, r: Rule, ports: seq<ServicePort>): seq<ImportPort> {
    if ports == [] then [] else
    var last := ports[|ports| - 1];
    NewPortsOfRule(e, r, ports[..|ports| - 1]) + if r.portNumber == last.port then [NewPort(e, r, last)] else []
  }

  function NewPorts(e: ExportEvent, rules: seq<Rule>): seq<ImportPort> {
    if rules == [] then [] else
    NewPorts(e, rules[..|rules| - 1]) + NewPortsOfRule(e, rules[|rules| - 1], e.service.ports)
  }

  function NewImport(e: ExportEvent): ServiceImport {
    ServiceImport(NewPorts(e, e.rules), e.serviceAccount, false)
  }

  method NewServiceImport(e: ExportEvent) returns (imp: ServiceImport)
    ensures imp == NewImport(e)
  {
    var ports: seq<ImportPort> := [];
    for i := 0 to |e.rules|
      invariant ports == NewPorts(e, e.rules[..i])
    {
      assert e.rules[..i + 1][..i] == e.rules[..i];
      var r, svcPorts := e.rules[i], e.service.ports;
      for j := 0 to |svcPorts|
        invariant ports == NewPorts(e, e.rules[..i]) + NewPortsOfRule(e, r, svcPorts[..j])
      {
        assert svcPorts[..j + 1][..j] == svcPorts[..j];
        if r.portNumber == svcPorts[j].port {
          ports := ports + [NewPort(e, r, svcPorts[j])];
        }
      }
      assert svcPorts[..|svcPorts|] == svcPorts;
    }
    assert e.rules[..|e.rules|] == e.rules;
    imp := ServiceImport(ports, e.serviceAccount, false);
  }

  lemma {:induction false} NewPortsOfRuleShape(e: ExportEvent, r: Rule, ports: seq<ServicePort>)
    ensures forall p :: p in NewPortsOfRule(e, r, ports) <==>
      exists sp :: sp in MatchingPorts(ports, r.portNumber) && p == NewPort(e, r, sp)
    ensures |NewPortsOfRule(e, r, ports)| == |MatchingPorts(ports, r.portNumber)|
    ensures forall sp :: sp in MatchingPorts(ports, r.portNumber) ==> sp.port == r.portNumber
  {
    if ports != [] { NewPortsOfRuleShape(e, r, ports[..|ports| - 1]); }
  }

  /** The ports of a new import: for each rule, the Service ports with that number, each with one endpoint. */
  lemma {:induction false} NewPortsMembers(e: ExportEvent, rules: seq<Rule>)
    ensures forall p :: p in NewPorts(e, rules) <==>
      exists r, sp :: r in rules && sp in MatchingPorts(e.service.ports, r.portNumber) && p == NewPort(e, r, sp)
    ensures forall p :: p in NewPorts(e, rules) ==>
      exists r :: r in rules && p.endpoints == [NewEndpoint(e, r)] && p.header.port == r.portNumber
  {
    if rules != [] {
      var front, last := rules[..|rules| - 1], rules[|rules| - 1];
      NewPortsMembers(e, front);
      NewPortsOfRuleShape(e, last, e.service.ports);
      assert forall r :: r in rules <==> r in front || r == last;
    }
  }

  lemma {:induction false} MatchingPortsMembers(ports: seq<ServicePort>, port: int, sp: ServicePort)
    ensures sp in MatchingPorts(ports, port) <==> sp in ports && sp.port == port
  {
    if ports != [] {
      var front, last := ports[..|ports| - 1], ports[|ports| - 1];
      MatchingPortsMembers(front, port, sp);
      assert forall x :: x in ports <==> x in front || x == last;
    }
  }

  /** The imported port is the Service's, with the exporter's endpoint for the rule. */
  ghost predicate StandsFor(p: ImportPort, e: ExportEvent, r: Rule, sp: ServicePort) {
    && p.header.name == sp.name && p.header.protocol == sp.protocol && p.header.appProtocol == sp.appProtocol
    && p.header.port == sp.port == r.portNumber
    && |p.endpoints| == 1 && LeadsTo(p.endpoints[0], e, r)
  }

  /** A port is in a new import exactly if it stands for a Service port that some rule names. */
  lemma NewPortsIff(e: ExportEvent, p: ImportPort)
    ensures p in NewImport(e).ports <==> exists r, sp :: r in e.rules && sp in e.service.ports && StandsFor(p, e, r, sp)
    ensures NewImport(e).serviceAccount == e.serviceAccount && !NewImport(e).terminating
  {
    NewPortsMembers(e, e.rules);
    forall r: Rule, sp: ServicePort
      ensures sp in MatchingPorts(e.service.ports, r.portNumber) && p == NewPort(e, r, sp) <==>
      sp in e.service.ports && StandsFor(p, e, r, sp)
    {
      MatchingPortsMembers(e.service.ports, r.portNumber, sp);
      if StandsFor(p, e, r, sp) { assert p.endpoints == [NewEndpoint(e, r)]; }
    }
  }

  // ----------------------------------------------------------------- upserting

  /** `after` is a possible import of cluster `self` after upsertServiceImport handled the export. */
  ghost predicate Upserts(self: ClusterKey, before: Option<ServiceImport>, e: ExportEvent,
                          after: Option<ServiceImport>) {
    if e.clusterKey == self then after == before else
    var imp := before.GetOr(NewImport(e));
    && after.Some?
    && after.value.serviceAccount == e.serviceAccount
    && after.value.terminating == imp.terminating
    && PortsMerged(imp.ports, e, after.value.ports)
  }

  ghost predicate PortsMerged(before: seq<ImportPort>, e: ExportEvent, after: seq<ImportPort>) {
    && |after| == |before|
    && forall i :: 0 <= i < |before| ==> PortMerged(before[i], e, after[i])
  }

  ghost predicate PortMerged(before: ImportPort, e: ExportEvent, after: ImportPort) {
    after.header == before.header && Merged(before.endpoints, e, before.header.port, after.endpoints)
  }

  /** What an upsert leaves: own exports change nothing; otherwise the import has the account of the export, is
      terminating only if it was, and has the ports it had, or those of a new one, with their headers and with
      exactly the endpoints that belong there. */
  lemma UpsertLeaves(self: ClusterKey, before: Option<ServiceImport>, e: ExportEvent, after: Option<ServiceImport>)
    requires Upserts(self, before, e, after)
    ensures e.clusterKey == self ==> after == before
    ensures e.clusterKey != self ==>
      && after.Some? && after.value.serviceAccount == e.serviceAccount
      && (after.value.terminating <==> before.Some? && before.value.terminating)
      && var was := if before.Some? then before.value.ports else NewPorts(e, e.rules);
      && |after.value.ports| == |was|
      && forall i :: 0 <= i < |was| ==>
        && after.value.ports[i].header == was[i].header
        && forall ep :: ep in after.value.ports[i].endpoints <==> Belongs(was[i].endpoints, e, was[i].header.port, ep)
  {
    if e.clusterKey != self {
      var was, now := before.GetOr(NewImport(e)).ports, after.value.ports;
      forall i, ep | 0 <= i < |was|
        ensures ep in now[i].endpoints <==> Belongs(was[i].endpoints, e, was[i].header.port, ep)
      {
        assert PortMerged(was[i], e, now[i]);
        MergedIff(was[i].endpoints, e, was[i].header.port, now[i].endpoints, ep);
      }
    }
  }

  /** Which API call fails, if any. */
  datatype Failure = NoFailure | NamespaceFails | CreateFails | GetFails | UpdateFails

  /** An upsert that fails either changes nothing or leaves the import as it was created. */
  method UpsertServiceImport(self: ClusterKey, found: Option<ServiceImport>, e: ExportEvent, fails: Failure)
    returns (after: Option<ServiceImport>, ok: bool)
    ensures ok ==> Upserts(self, found, e, after)
    ensures !ok ==>
      e.clusterKey != self && after == if fails.UpdateFails? then Some(found.GetOr(NewImport(e))) else found
    ensures ok <==> e.clusterKey == self || fails.NoFailure? || (fails.GetFails? && found.None?)
  {
    if e.clusterKey == self {
      return found, true;
    }
    var got, stored := GetOrCreateServiceImport(found, e, fails);
    if got.None? {
      return stored, false;
    }
    var imp := got.value;
    var ports := imp.ports;
    for idx := 0 to |ports|
      invariant |ports| == |imp.ports|
      invariant forall i :: 0 <= i < idx ==> PortMerged(imp.ports[i], e, ports[i])
      invariant forall i :: idx <= i < |ports| ==> ports[i] == imp.ports[i]
    {
      var endpoints := MergeEndpoints(ports[idx].endpoints, e, ports[idx].header.port);
      ports := ports[idx := ports[idx].(endpoints := endpoints)];
    }
    if fails.UpdateFails? {
      return stored, false;
    }
    return Some(imp.(ports := ports, serviceAccount := e.serviceAccount)), true;
  }

  /** Create first, and get what exists already; `stored` is what the cluster has afterwards. */
  method GetOrCreateServiceImport(found: Option<ServiceImport>, e: ExportEvent, fails: Failure)
    returns (imp: Option<ServiceImport>, stored: Option<ServiceImport>)
    ensures imp.None? <==> fails.NamespaceFails? || fails.CreateFails? || (fails.GetFails? && found.Some?)
    ensures imp.Some? ==> imp.value == found.GetOr(NewImport(e))
    ensures stored == if imp.Some? then imp else found
  {
    if fails.NamespaceFails? {
      return None, found;
    }
    var made := NewServiceImport(e);
    if fails.CreateFails? {
      return None, found;
    }
    match found
    case None => return Some(made), Some(made);
    case Some(existing) =>
      if fails.GetFails? {
        return None, found;
      }
      return found, found;
  }

  // ------------------------------------------------------------------ deleting

  function Without(eps: seq<Endpoint>, key: ClusterKey): seq<Endpoint> {
    if eps == [] then [] else
    var last := eps[|eps| - 1];
    Without(eps[..|eps| - 1], key) + if last.clusterKey == key then [] else [last]
  }

  lemma {:induction false} WithoutMembers(eps: seq<Endpoint>, key: ClusterKey)
    ensures forall ep :: ep in Without(eps, key) <==> ep in eps && ep.clusterKey != key
    ensures DistinctKeys(eps) ==> DistinctKeys(Without(eps, key))
  {
    if eps != [] {
      var front, last := eps[..|eps| - 1], eps[|eps| - 1];
      WithoutMembers(front, key);
      assert forall ep :: ep in eps <==> ep in front || ep == last;
    }
  }

  /** The others stay in their order, each as often as before. */
  lemma {:induction false} WithoutInOrder(a: seq<Endpoint>, b: seq<Endpoint>, key: ClusterKey)
    ensures Without(a + b, key) == Without(a, key) + Without(b, key)
    ensures |b| == 1 && b[0].clusterKey != key ==> Without(b, key) == b
  {
    if b == [] {
      assert a + b == a;
    } else {
      var u, front := a + b, b[..|b| - 1];
      WithoutInOrder(a, front, key);
      assert u[..|u| - 1] == a + front;
    }
  }

  lemma MapMinus<K, V>(m: map<K, V>, k: K, v: V, gone: K)
    ensures m[k := v] - {gone} == if k == gone then m - {gone} else (m - {gone})[k := v]
  {
  }

  lemma {:induction false} WithoutMap(eps: seq<Endpoint>, key: ClusterKey)
    ensures EndpointMap(Without(eps, key)) == EndpointMap(eps) - {key}
  {
    if eps != [] {
      var front, last := eps[..|eps| - 1], eps[|eps| - 1];
      WithoutMap(front, key);
      MapMinus(EndpointMap(front), last.clusterKey, last, key);
      if last.clusterKey == key {
        assert Without(eps, key) == Without(front, key);
      } else {
        AppendEndpoint(Without(front, key), last);
      }
    }
  }

  function Strip(p: ImportPort, key: ClusterKey): ImportPort {
    p.(endpoints := Without(p.endpoints, key))
  }

  function DeletedPortsOfRule(r: Rule, ports: seq<ImportPort>, key: ClusterKey): seq<ImportPort> {
    if ports == [] then [] else
    var last := ports[|ports| - 1];
    DeletedPortsOfRule(r, ports[..|ports| - 1], key) +
    if r.portNumber == last.header.port && Without(last.endpoints, key) != [] then [Strip(last, key)] else []
  }

  function DeletedPorts(rules: seq<Rule>, ports: seq<ImportPort>, key: ClusterKey): seq<ImportPort> {
    if rules == [] then [] else
    DeletedPorts(rules[..|rules| - 1], ports, key) + DeletedPortsOfRule(rules[|rules| - 1], ports, key)
  }

  /** The import of cluster `self` after deleteServiceImport handled the deletion of an export. */
  function Deletion(self: ClusterKey, before: Option<ServiceImport>, e: ExportEvent): Option<ServiceImport> {
    if e.clusterKey == self || before.None? || before.value.terminating then before else
    var ports := DeletedPorts(e.rules, before.value.ports, e.clusterKey);
    if ports == [] then None else Some(before.value.(ports := ports))
  }

  /** The port is one that a rule covers, without the exporter and with another cluster's endpoint. */
  ghost predicate LeftBy(e: ExportEvent, p: ImportPort, q: ImportPort) {
    && (exists r :: r in e.rules && r.portNumber == p.header.port)
    && q.header == p.header && q.endpoints != []
    && (forall ep :: ep in q.endpoints <==> ep in p.endpoints && ep.clusterKey != e.clusterKey)
  }

  /** A withdrawal sets nothing but the ports. */
  lemma DeletionKeepsRest(self: ClusterKey, before: Option<ServiceImport>, e: ExportEvent)
    ensures e.clusterKey == self || before.None? || before.value.terminating ==> Deletion(self, before, e) == before
    ensures before.Some? && Deletion(self, before, e).Some? ==>
      && Deletion(self, before, e).value.serviceAccount == before.value.serviceAccount
      && Deletion(self, before, e).value.terminating == before.value.terminating
  {
  }

  /** What a withdrawal leaves: own exports, missing and terminating imports are left as they are; otherwise the
      import goes if no port is left, and else keeps everything but its ports. */
  lemma DeletionLeaves(self: ClusterKey, before: Option<ServiceImport>, e: ExportEvent)
    ensures var after := Deletion(self, before, e);
      if e.clusterKey == self || before.None? || before.value.terminating then after == before else
      && (after.None? <==> forall p, q :: p in before.value.ports ==> !LeftBy(e, p, q))
      && (after.Some? ==>
        && after.value.serviceAccount == before.value.serviceAccount && !after.value.terminating
        && (forall q :: q in after.value.ports ==> exists p :: p in before.value.ports && LeftBy(e, p, q))
        && forall p, q :: p in before.value.ports && LeftBy(e, p, q) ==>
          exists q' :: q' in after.value.ports && LeftBy(e, p, q'))
  {
    DeletionKeepsRest(self, before, e);
    if e.clusterKey != self && before.Some? && !before.value.terminating {
      var was, key := before.value.ports, e.clusterKey;
      DeletedPortsMembers(e.rules, was, key);
      forall p | p in was
        ensures Survives(e.rules, p, key) ==> LeftBy(e, p, Strip(p, key))
        ensures forall q :: LeftBy(e, p, q) ==> Survives(e.rules, p, key)
      {
        WithoutMembers(p.endpoints, key);
        LastRuleMatches(e.rules, p.header.port);
        forall q | LeftBy(e, p, q) ensures Survives(e.rules, p, key) {
          assert q.endpoints[0] in q.endpoints;
          assert q.endpoints[0] in Without(p.endpoints, key);
        }
      }
      var left := DeletedPorts(e.rules, was, key);
      if left != [] {
        assert left[0] in left;
        var p :| p in was && Survives(e.rules, p, key) && left[0] == Strip(p, key);
        assert LeftBy(e, p, left[0]);
      } else {
        forall p, q | p in was ensures !LeftBy(e, p, q) { assert Strip(p, key) !in left; }
      }
    }
  }

  method DeleteServiceImport(self: ClusterKey, found: Option<ServiceImport>, e: ExportEvent)
    returns (after: Option<ServiceImport>)
    ensures after == Deletion(self, found, e)
  {
    if e.clusterKey == self || found.None? || found.value.terminating {
      return found;
    }
    var imp := found.value;
    var ports: seq<ImportPort> := [];
    for i := 0 to |e.rules|
      invariant ports == DeletedPorts(e.rules[..i], imp.ports, e.clusterKey)
    {
      assert e.rules[..i + 1][..i] == e.rules[..i];
      var kept := KeepPortsOfRule(e.rules[i], imp.ports, e.clusterKey);
      ports := ports + kept;
    }
    assert e.rules[..|e.rules|] == e.rules;
    after := if |ports| > 0 then Some(imp.(ports := ports)) else None;
  }

  /** The inner loop of a deletion: the ports of one rule that keep an endpoint. */
  method KeepPortsOfRule(r: Rule, ports: seq<ImportPort>, key: ClusterKey) returns (kept: seq<ImportPort>)
    ensures kept == DeletedPortsOfRule(r, ports, key)
  {
    kept := [];
    for j := 0 to |ports|
      invariant kept == DeletedPortsOfRule(r, ports[..j], key)
    {
      assert ports[..j + 1][..j] == ports[..j];
      if r.portNumber == ports[j].header.port {
        var endpoints := RemoveCluster(ports[j].endpoints, key);
        if |endpoints| > 0 {
          kept := kept + [ports[j].(endpoints := endpoints)];
        }
      }
    }
    assert ports[..|ports|] == ports;
  }

  method RemoveCluster(eps: seq<Endpoint>, key: ClusterKey) returns (out: seq<Endpoint>)
    ensures out == Without(eps, key)
  {
    out := [];
    for i := 0 to |eps|
      invariant out == Without(eps[..i], key)
    {
      assert eps[..i + 1][..i] == eps[..i];
      if eps[i].clusterKey != key {
        out := out + [eps[i]];
      }
    }
    assert eps[..|eps|] == eps;
  }

  /** The ports a deletion keeps, in import order: covered by a rule, and still holding an endpoint
      of another cluster. */
  function Survivors(rules: seq<Rule>, ports: seq<ImportPort>, key: ClusterKey): seq<ImportPort> {
    if ports == [] then [] else
    var last := ports[|ports| - 1];
    Survivors(rules, ports[..|ports| - 1], key) + if Survives(rules, last, key) then [Strip(last, key)] else []
  }

  predicate Survives(rules: seq<Rule>, p: ImportPort, key: ClusterKey) {
    LastRule(rules, p.header.port).Some? && Without(p.endpoints, key) != []
  }

  lemma {:induction false} SurvivorsOfRule(r: Rule, ports: seq<ImportPort>, key: ClusterKey)
    ensures DeletedPortsOfRule(r, ports, key) == Survivors([r], ports, key)
  {
    if ports != [] {
      SurvivorsOfRule(r, ports[..|ports| - 1], key);
      LastRuleAppend([], r, ports[|ports| - 1].header.port);
    }
  }

  lemma {:induction false} SurvivorsSplit(front: seq<Rule>, last: Rule, ports: seq<ImportPort>, key: ClusterKey)
    requires LastRule(front, last.portNumber).None?
    ensures multiset(Survivors(front + [last], ports, key)) ==
      multiset(Survivors(front, ports, key)) + multiset(Survivors([last], ports, key))
  {
    if ports != [] {
      SurvivorsSplit(front, last, ports[..|ports| - 1], key);
      LastRuleAppend(front, last, ports[|ports| - 1].header.port);
    }
  }

  /** The nested loops of a deletion visit the ports rule by rule; with one rule per port number they
      keep exactly the survivors, each once. */
  lemma {:induction false} DeletedPortsAreSurvivors(rules: seq<Rule>, ports: seq<ImportPort>, key: ClusterKey)
    requires DistinctRules(rules)
    ensures multiset(DeletedPorts(rules, ports, key)) == multiset(Survivors(rules, ports, key))
  {
    if rules == [] {
      NoSurvivors(ports, key);
    } else {
      var front, last := rules[..|rules| - 1], rules[|rules| - 1];
      DeletedPortsAreSurvivors(front, ports, key);
      SurvivorsOfRule(last, ports, key);
      LastRuleMatches(front, last.portNumber);
      SurvivorsSplit(front, last, ports, key);
      assert front + [last] == rules;
    }
  }

  lemma {:induction false} NoSurvivors(ports: seq<ImportPort>, key: ClusterKey)
    ensures Survivors([], ports, key) == []
  {
    if ports != [] { NoSurvivors(ports[..|ports| - 1], key); }
  }

  lemma {:induction false} SurvivorsMembers(rules: seq<Rule>, ports: seq<ImportPort>, key: ClusterKey)
    ensures forall q :: q in Survivors(rules, ports, key) <==>
      exists p :: p in ports && Survives(rules, p, key) && q == Strip(p, key)
  {
    if ports != [] {
      var front, last := ports[..|ports| - 1], ports[|ports| - 1];
      SurvivorsMembers(rules, front, key);
      assert forall p :: p in ports <==> p in front || p == last;
    }
  }

  /** Whatever the rules, a port after a deletion is a stripped port from before that a rule covers. */
  lemma {:induction false} DeletedPortsMembers(rules: seq<Rule>, ports: seq<ImportPort>, key: ClusterKey)
    ensures forall q :: q in DeletedPorts(rules, ports, key) <==>
      exists p :: p in ports && Survives(rules, p, key) && q == Strip(p, key)
  {
    if rules == [] {
    } else {
      var front, last := rules[..|rules| - 1], rules[|rules| - 1];
      DeletedPortsMembers(front, ports, key);
      SurvivorsOfRule(last, ports, key);
      SurvivorsMembers([last], ports, key);
      forall p: ImportPort
        ensures Survives(rules, p, key) <==> Survives(front, p, key) || Survives([last], p, key)
      {
        LastRuleAppend(front, last, p.header.port);
        assert rules == front + [last];
      }
    }
  }
}
