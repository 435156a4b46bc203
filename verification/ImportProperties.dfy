/** What one upsert or one deletion does to the endpoints of a ServiceImport: retries, order,
    undoing, and exactly when the endpoints of the other clusters survive. */
module ImportProperties {
  import opened Bags
  import opened Options
  import opened ServiceImports

  predicate Covered(rules: seq<Rule>, p: ImportPort) {
    LastRule(rules, p.header.port).Some?
  }

  lemma NoEndpoints(eps: seq<Endpoint>)
    ensures eps == [] <==> EndpointMap(eps) == map[]
  {
    if eps != [] {
      EndpointMapKeys(eps);
      assert eps[0] in eps;
    }
  }

  /** The whole merge of one port, as a map; both branches of the source agree on it. */
  lemma MergedMap(eps: seq<Endpoint>, e: ExportEvent, port: int, out: seq<Endpoint>)
    requires Merged(eps, e, port, out)
    ensures EndpointMap(out) == Overlay(EndpointMap(eps), e, LastRule(e.rules, port))
    ensures out == [] <==> LastRule(e.rules, port).None?
    ensures DistinctRules(e.rules) ==> DistinctKeys(out)
  {
    FreshEndpointsMap(e, e.rules, port);
    NoEndpoints(out);
    if LastRule(e.rules, port).Some? { assert e.clusterKey in EndpointMap(out); }
  }

  // ------------------------------------------------------------------- retries

  /** Equal up to the order of the endpoints inside each port. */
  ghost predicate SameEndpoints(a: Option<ServiceImport>, b: Option<ServiceImport>) {
    && (a.Some? <==> b.Some?)
    && (a.Some? ==>
      && a.value.serviceAccount == b.value.serviceAccount
      && a.value.terminating == b.value.terminating
      && SamePorts(a.value.ports, b.value.ports))
  }

  ghost predicate SamePorts(a: seq<ImportPort>, b: seq<ImportPort>) {
    && |a| == |b|
    && forall i :: 0 <= i < |a| ==>
      a[i].header == b[i].header && EndpointMap(a[i].endpoints) == EndpointMap(b[i].endpoints)
  }

  /** A retried upsert changes nothing, whatever the rules and the import. */
  lemma UpsertIdempotent(self: ClusterKey, before: Option<ServiceImport>, e: ExportEvent,
                         once: Option<ServiceImport>, twice: Option<ServiceImport>)
    requires Upserts(self, before, e, once) && Upserts(self, once, e, twice)
    ensures SameEndpoints(once, twice)
  {
    if e.clusterKey != self {
      var was, a, b := before.GetOr(NewImport(e)).ports, once.value.ports, twice.value.ports;
      forall i | 0 <= i < |a|
        ensures a[i].header == b[i].header && EndpointMap(a[i].endpoints) == EndpointMap(b[i].endpoints)
      {
        assert PortMerged(was[i], e, a[i]) && PortMerged(a[i], e, b[i]);
        MergedMap(was[i].endpoints, e, was[i].header.port, a[i].endpoints);
        MergedMap(a[i].endpoints, e, a[i].header.port, b[i].endpoints);
      }
    }
  }

  lemma {:induction false} SurvivorsAgain(rules: seq<Rule>, ports: seq<ImportPort>, key: ClusterKey)
    requires forall p :: p in ports ==> Survives(rules, p, key) && Strip(p, key) == p
    ensures Survivors(rules, ports, key) == ports
  {
    if ports != [] {
      assert ports[|ports| - 1] in ports;
      SurvivorsAgain(rules, ports[..|ports| - 1], key);
    }
  }

  lemma {:induction false} WithoutTwice(eps: seq<Endpoint>, key: ClusterKey)
    ensures Without(Without(eps, key), key) == Without(eps, key)
  {
    if eps != [] {
      var front, last := eps[..|eps| - 1], eps[|eps| - 1];
      WithoutTwice(front, key);
      if last.clusterKey != key {
        assert Without(eps, key)[..|Without(eps, key)| - 1] == Without(front, key);
      } else {
        assert Without(eps, key) == Without(front, key);
      }
    }
  }

  ghost predicate SamePortBag(a: Option<ServiceImport>, b: Option<ServiceImport>) {
    && (a.Some? <==> b.Some?)
    && (a.Some? ==> a.value == b.value.(ports := a.value.ports) && multiset(a.value.ports) == multiset(b.value.ports))
  }

  /** A retried deletion changes nothing: as a set of ports for any rules, as a bag of ports when
      no two rules have the same number. */
  lemma DeletionIdempotent(self: ClusterKey, before: Option<ServiceImport>, e: ExportEvent)
    ensures var once := Deletion(self, before, e); var twice := Deletion(self, once, e);
      && (once.Some? <==> twice.Some?)
      && (once.Some? ==> forall q :: q in twice.value.ports <==> q in once.value.ports)
      && (DistinctRules(e.rules) ==> SamePortBag(twice, once))
  {
    var once := Deletion(self, before, e);
    if e.clusterKey != self && before.Some? && !before.value.terminating && once.Some? {
      var ports, key := once.value.ports, e.clusterKey;
      KeptStays(e.rules, before.value.ports, key);
      DeletedPortsMembers(e.rules, ports, key);
      assert ports[0] in ports;
      assert Strip(ports[0], key) in DeletedPorts(e.rules, ports, key);
      if DistinctRules(e.rules) {
        DeletedPortsAreSurvivors(e.rules, ports, key);
        SurvivorsAgain(e.rules, ports, key);
      }
    }
  }

  lemma KeptStays(rules: seq<Rule>, was: seq<ImportPort>, key: ClusterKey)
    ensures forall q :: q in DeletedPorts(rules, was, key) ==> Survives(rules, q, key) && Strip(q, key) == q
  {
    DeletedPortsMembers(rules, was, key);
    forall q | q in DeletedPorts(rules, was, key) ensures Survives(rules, q, key) && Strip(q, key) == q {
      var p :| p in was && Survives(rules, p, key) && q == Strip(p, key);
      WithoutTwice(p.endpoints, key);
    }
  }

  // -------------------------------------------- the endpoints of other clusters

  ghost predicate HasOther(p: ImportPort, key: ClusterKey) {
    exists ep :: ep in p.endpoints && ep.clusterKey != key
  }

  ghost predicate KeepsOthers(before: seq<ImportPort>, key: ClusterKey, after: seq<ImportPort>)
    requires |before| == |after|
  {
    forall i, k :: 0 <= i < |before| && k != key && k in EndpointMap(before[i].endpoints) ==>
      && k in EndpointMap(after[i].endpoints)
      && EndpointMap(after[i].endpoints)[k] == EndpointMap(before[i].endpoints)[k]
  }

  /** An upsert keeps the endpoints of all other clusters exactly when a rule covers every port that
      has one: an uncovered port is emptied. */
  lemma UpsertKeepsOthersIff(self: ClusterKey, imp: ServiceImport, e: ExportEvent, after: Option<ServiceImport>)
    requires e.clusterKey != self && Upserts(self, Some(imp), e, after)
    ensures |after.value.ports| == |imp.ports|
    ensures KeepsOthers(imp.ports, e.clusterKey, after.value.ports) <==>
      forall p :: p in imp.ports && HasOther(p, e.clusterKey) ==> Covered(e.rules, p)
  {
    var a, b := imp.ports, after.value.ports;
    forall i | 0 <= i < |a|
      ensures EndpointMap(b[i].endpoints) ==
        Overlay(EndpointMap(a[i].endpoints), e, LastRule(e.rules, a[i].header.port))
      ensures HasOther(a[i], e.clusterKey) <==> exists k :: k in EndpointMap(a[i].endpoints) && k != e.clusterKey
    {
      assert PortMerged(a[i], e, b[i]);
      MergedMap(a[i].endpoints, e, a[i].header.port, b[i].endpoints);
      EndpointMapKeys(a[i].endpoints);
      if HasOther(a[i], e.clusterKey) {
        var ep :| ep in a[i].endpoints && ep.clusterKey != e.clusterKey;
        assert ep.clusterKey in EndpointMap(a[i].endpoints);
      }
    }
    if KeepsOthers(a, e.clusterKey, b) {
      forall p | p in a && HasOther(p, e.clusterKey) ensures Covered(e.rules, p) {
        var i :| 0 <= i < |a| && a[i] == p;
        var k :| k in EndpointMap(a[i].endpoints) && k != e.clusterKey;
        assert k in EndpointMap(b[i].endpoints);
      }
    }
    if forall p :: p in a && HasOther(p, e.clusterKey) ==> Covered(e.rules, p) {
      forall i, k | 0 <= i < |a| && k != e.clusterKey && k in EndpointMap(a[i].endpoints)
        ensures k in EndpointMap(b[i].endpoints) && EndpointMap(b[i].endpoints)[k] == EndpointMap(a[i].endpoints)[k]
      {
        assert HasOther(a[i], e.clusterKey) && a[i] in a;
      }
    }
  }

  ghost predicate StillListed(p: ImportPort, ep: Endpoint, after: Option<ServiceImport>) {
    after.Some? && exists q :: q in after.value.ports && q.header == p.header && ep in q.endpoints
  }

  /** A deletion keeps the endpoints of all other clusters under the same condition: an uncovered
      port is dropped. */
  lemma DeletionKeepsOthersIff(self: ClusterKey, imp: ServiceImport, e: ExportEvent)
    requires e.clusterKey != self && !imp.terminating
    ensures (forall p, ep :: p in imp.ports && ep in p.endpoints && ep.clusterKey != e.clusterKey ==>
        StillListed(p, ep, Deletion(self, Some(imp), e)))
      <==> forall p :: p in imp.ports && HasOther(p, e.clusterKey) ==> Covered(e.rules, p)
  {
    var key := e.clusterKey;
    var after := Deletion(self, Some(imp), e);
    DeletedPortsMembers(e.rules, imp.ports, key);
    forall p, ep | p in imp.ports && ep in p.endpoints && ep.clusterKey != key
      ensures StillListed(p, ep, after) <==> Covered(e.rules, p)
    {
      WithoutMembers(p.endpoints, key);
      if Covered(e.rules, p) {
        assert ep in Strip(p, key).endpoints;
        assert Survives(e.rules, p, key);
        assert Strip(p, key) in DeletedPorts(e.rules, imp.ports, key);
      }
    }
    forall p | p in imp.ports && HasOther(p, key)
      ensures exists ep ::
        ep in p.endpoints && ep.clusterKey != key && (StillListed(p, ep, after) <==> Covered(e.rules, p))
    {
      var ep :| ep in p.endpoints && ep.clusterKey != key;
    }
  }

  // --------------------------------------------------------------------- order

  /** Two exporters may upsert an existing import in either order exactly when they cover the same
      of its ports. */
  lemma UpsertsCommuteIff(self: ClusterKey, imp: ServiceImport, e: ExportEvent, f: ExportEvent,
                          e1: Option<ServiceImport>, ef: Option<ServiceImport>,
                          f1: Option<ServiceImport>, fe: Option<ServiceImport>)
    requires e.clusterKey != self && f.clusterKey != self && e.clusterKey != f.clusterKey
    requires Upserts(self, Some(imp), e, e1) && Upserts(self, e1, f, ef)
    requires Upserts(self, Some(imp), f, f1) && Upserts(self, f1, e, fe)
    ensures SamePorts(ef.value.ports, fe.value.ports) <==>
      forall p :: p in imp.ports ==> (Covered(e.rules, p) <==> Covered(f.rules, p))
  {
    var was, a, b := imp.ports, ef.value.ports, fe.value.ports;
    forall i | 0 <= i < |was|
      ensures a[i].header == was[i].header == b[i].header
      ensures EndpointMap(a[i].endpoints) == EndpointMap(b[i].endpoints) <==>
        (Covered(e.rules, was[i]) <==> Covered(f.rules, was[i]))
    {
      UpsertOrderOnPort(was[i], e, f, e1.value.ports[i], a[i], f1.value.ports[i], b[i]);
    }
    if SamePorts(a, b) {
      forall p | p in was ensures Covered(e.rules, p) <==> Covered(f.rules, p) {
        var i :| 0 <= i < |was| && was[i] == p;
        assert a[i].header == b[i].header && EndpointMap(a[i].endpoints) == EndpointMap(b[i].endpoints);
      }
    }
  }

  lemma UpsertOrderOnPort(p: ImportPort, e: ExportEvent, f: ExportEvent,
                          pe: ImportPort, pef: ImportPort, pf: ImportPort, pfe: ImportPort)
    requires e.clusterKey != f.clusterKey
    requires PortMerged(p, e, pe) && PortMerged(pe, f, pef) && PortMerged(p, f, pf) && PortMerged(pf, e, pfe)
    ensures EndpointMap(pef.endpoints) == EndpointMap(pfe.endpoints) <==> (Covered(e.rules, p) <==> Covered(f.rules, p))
  {
    var n := p.header.port;
    MergedMap(p.endpoints, e, n, pe.endpoints);
    MergedMap(pe.endpoints, f, n, pef.endpoints);
    MergedMap(p.endpoints, f, n, pf.endpoints);
    MergedMap(pf.endpoints, e, n, pfe.endpoints);
    OverlayOrder(EndpointMap(p.endpoints), e, LastRule(e.rules, n), f, LastRule(f.rules, n));
  }

  lemma OverlayOrder(m: map<ClusterKey, Endpoint>, e: ExportEvent, r: Option<Rule>, f: ExportEvent, q: Option<Rule>)
    requires e.clusterKey != f.clusterKey
    ensures Overlay(Overlay(m, e, r), f, q) == Overlay(Overlay(m, f, q), e, r) <==> (r.Some? <==> q.Some?)
  {
    if r.Some? && q.None? {
      assert e.clusterKey in Overlay(Overlay(m, f, q), e, r);
    } else if q.Some? && r.None? {
      assert f.clusterKey in Overlay(Overlay(m, e, r), f, q);
    }
  }

  // ------------------------------------------------------------------- undoing

  datatype PortView = PortView(header: Header, endpoints: map<ClusterKey, Endpoint>)

  function ViewOf(p: ImportPort): PortView {
    PortView(p.header, EndpointMap(p.endpoints))
  }

  /** The bag of ports, each seen as its header and its endpoints by cluster. */
  function Table(ports: seq<ImportPort>): multiset<PortView> {
    Image(ViewOf, ports)
  }

  lemma {:induction false} SurvivorViews(rules: seq<Rule>, ports: seq<ImportPort>, key: ClusterKey)
    ensures |Survivors(rules, ports, key)| <= |ports|
    ensures |Survivors(rules, ports, key)| == |ports| <==> forall p :: p in ports ==> Survives(rules, p, key)
    ensures (forall p :: p in ports ==> Survives(rules, p, key)) ==>
      forall i :: 0 <= i < |ports| ==> Survivors(rules, ports, key)[i] == Strip(ports[i], key)
  {
    if ports != [] {
      var front, last := ports[..|ports| - 1], ports[|ports| - 1];
      SurvivorViews(rules, front, key);
      assert forall p :: p in ports <==> p in front || p == last;
    }
  }

  lemma RemoveAbsent<K, V>(m: map<K, V>, k: K, v: V)
    requires k !in m
    ensures m[k := v] - {k} == m
  {
  }

  /** Exporting from K and deleting that export again restores an import that had nothing of K,
      exactly when the import has ports and each of them is non-empty and covered by a rule. */
  lemma UpsertThenDeleteRestoresIff(self: ClusterKey, imp: ServiceImport, e: ExportEvent, mid: Option<ServiceImport>)
    requires e.clusterKey != self && !imp.terminating && DistinctRules(e.rules)
    requires forall p :: p in imp.ports ==> e.clusterKey !in EndpointMap(p.endpoints)
    requires Upserts(self, Some(imp), e, mid)
    ensures var after := Deletion(self, mid, e);
      (after.Some? && Table(after.value.ports) == Table(imp.ports)) <==>
      (imp.ports != [] && forall p :: p in imp.ports ==> p.endpoints != [] && Covered(e.rules, p))
  {
    var gone := DeletedPorts(e.rules, mid.value.ports, e.clusterKey);
    PortsUndone(imp.ports, e, mid.value.ports);
    ImageSize(ViewOf, gone);
    ImageSize(ViewOf, imp.ports);
  }

  lemma PortsUndone(was: seq<ImportPort>, e: ExportEvent, a: seq<ImportPort>)
    requires PortsMerged(was, e, a) && DistinctRules(e.rules)
    requires forall p :: p in was ==> e.clusterKey !in EndpointMap(p.endpoints)
    ensures Table(DeletedPorts(e.rules, a, e.clusterKey)) == Table(was) <==>
      forall p :: p in was ==> p.endpoints != [] && Covered(e.rules, p)
  {
    var gone, kept := DeletedPorts(e.rules, a, e.clusterKey), Survivors(e.rules, a, e.clusterKey);
    DeletedPortsAreSurvivors(e.rules, a, e.clusterKey);
    BagSumOfBag(Single(ViewOf), gone, kept);
    SurvivorsUndone(was, e, a);
    if forall p :: p in a ==> Survives(e.rules, p, e.clusterKey) {
      SurvivorsView(was, e, a);
    } else {
      SurvivorViews(e.rules, a, e.clusterKey);
      ImageSize(ViewOf, kept);
      ImageSize(ViewOf, was);
    }
  }

  lemma SurvivorsView(was: seq<ImportPort>, e: ExportEvent, a: seq<ImportPort>)
    requires PortsMerged(was, e, a)
    requires forall p :: p in was ==> e.clusterKey !in EndpointMap(p.endpoints)
    requires forall p :: p in a ==> Survives(e.rules, p, e.clusterKey)
    ensures Table(Survivors(e.rules, a, e.clusterKey)) == Table(was)
  {
    var kept := Survivors(e.rules, a, e.clusterKey);
    SurvivorViews(e.rules, a, e.clusterKey);
    forall i | 0 <= i < |was| ensures ViewOf(kept[i]) == ViewOf(was[i]) {
      assert a[i] in a && was[i] in was;
      assert PortMerged(was[i], e, a[i]);
      UndoneOnPort(was[i], e, a[i]);
    }
    BagSumPointwise(Single(ViewOf), kept, was);
  }

  lemma SurvivorsUndone(was: seq<ImportPort>, e: ExportEvent, a: seq<ImportPort>)
    requires PortsMerged(was, e, a)
    requires forall p :: p in was ==> e.clusterKey !in EndpointMap(p.endpoints)
    ensures (forall p :: p in a ==> Survives(e.rules, p, e.clusterKey)) <==>
      (forall p :: p in was ==> p.endpoints != [] && Covered(e.rules, p))
  {
    forall i | 0 <= i < |was|
      ensures a[i] in a && was[i] in was
      ensures Survives(e.rules, a[i], e.clusterKey) <==> was[i].endpoints != [] && Covered(e.rules, was[i])
    {
      assert PortMerged(was[i], e, a[i]);
      UndoneOnPort(was[i], e, a[i]);
    }
  }

  lemma UndoneOnPort(p: ImportPort, e: ExportEvent, q: ImportPort)
    requires PortMerged(p, e, q) && e.clusterKey !in EndpointMap(p.endpoints)
    ensures Survives(e.rules, q, e.clusterKey) <==> p.endpoints != [] && Covered(e.rules, p)
    ensures Survives(e.rules, q, e.clusterKey) ==>
      EndpointMap(Strip(q, e.clusterKey).endpoints) == EndpointMap(p.endpoints)
  {
    var key := e.clusterKey;
    MergedMap(p.endpoints, e, p.header.port, q.endpoints);
    WithoutMap(q.endpoints, key);
    if Covered(e.rules, p) {
      RemoveAbsent(EndpointMap(p.endpoints), key, NewEndpoint(e, LastRule(e.rules, p.header.port).value));
      NoEndpoints(p.endpoints);
      NoEndpoints(Without(q.endpoints, key));
    }
  }

  /** Where the import did not exist, the export creates it and its deletion removes it. */
  lemma UpsertThenDeleteLeavesNothing(self: ClusterKey, e: ExportEvent, mid: Option<ServiceImport>)
    requires e.clusterKey != self && Upserts(self, None, e, mid)
    ensures mid.Some? && Deletion(self, mid, e) == None
  {
    var key, was, a := e.clusterKey, NewPorts(e, e.rules), mid.value.ports;
    NewPortsMembers(e, e.rules);
    forall q | q in a ensures Without(q.endpoints, key) == [] {
      var i :| 0 <= i < |a| && a[i] == q;
      assert PortMerged(was[i], e, a[i]) && was[i] in was;
      NewPortUndone(was[i], e, q);
    }
    DeletedPortsMembers(e.rules, a, key);
    NoElements(DeletedPorts(e.rules, a, key));
  }

  lemma NewPortUndone(p: ImportPort, e: ExportEvent, q: ImportPort)
    requires PortMerged(p, e, q)
    requires exists r :: r in e.rules && p.endpoints == [NewEndpoint(e, r)] && p.header.port == r.portNumber
    ensures Without(q.endpoints, e.clusterKey) == []
  {
    var r :| r in e.rules && p.endpoints == [NewEndpoint(e, r)] && p.header.port == r.portNumber;
    MergedMap(p.endpoints, e, p.header.port, q.endpoints);
    assert [NewEndpoint(e, r)][..0] == [];
    assert EndpointMap(p.endpoints).Keys == {e.clusterKey};
    WithoutMap(q.endpoints, e.clusterKey);
    NoEndpoints(Without(q.endpoints, e.clusterKey));
  }
}
