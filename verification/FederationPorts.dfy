/** The ports of the imports over a whole run in which all exports use the same port numbers, and
    why decisions have to be delivered one at a time. */
module FederationPorts {
  import opened Bags
  import opened Options
  import opened ServiceImports
  import opened ImportProperties
  import opened ExportDecisions
  import opened Federation

  function HeaderOf(p: ImportPort): Header { p.header }

  function HeaderFor(p: ServicePort): Header { Header(p.name, p.protocol, p.appProtocol, p.port) }

  function RulePorts(rules: seq<Rule>): set<int> {
    set r | r in rules :: r.portNumber
  }

  /** The headers under which the Service ports with these numbers are imported. */
  function Published(ports: seq<ServicePort>, numbers: set<int>): multiset<Header> {
    if ports == [] then multiset{} else
    var last := ports[|ports| - 1];
    Published(ports[..|ports| - 1], numbers) + if last.port in numbers then multiset{HeaderFor(last)} else multiset{}
  }

  lemma {:induction false} PublishedSplit(ports: seq<ServicePort>, numbers: set<int>, n: int)
    requires n !in numbers
    ensures Published(ports, numbers + {n}) == Published(ports, numbers) + Published(ports, {n})
  {
    if ports != [] { PublishedSplit(ports[..|ports| - 1], numbers, n); }
  }

  lemma {:induction false} PublishedNone(ports: seq<ServicePort>)
    ensures Published(ports, {}) == multiset{}
  {
    if ports != [] { PublishedNone(ports[..|ports| - 1]); }
  }

  lemma {:induction false} NewPortsOfRuleHeaders(e: ExportEvent, r: Rule, ports: seq<ServicePort>)
    ensures Image(HeaderOf, NewPortsOfRule(e, r, ports)) == Published(ports, {r.portNumber})
  {
    if ports != [] {
      var front, last := ports[..|ports| - 1], ports[|ports| - 1];
      NewPortsOfRuleHeaders(e, r, front);
      var made := NewPortsOfRule(e, r, front);
      if r.portNumber == last.port {
        ImageAppend(HeaderOf, made, NewPort(e, r, last));
      } else {
        assert NewPortsOfRule(e, r, ports) == made;
      }
    }
  }

  /** A new import has every Service port that a rule names, each once. */
  lemma {:induction false} NewPortsHeaders(e: ExportEvent, rules: seq<Rule>)
    requires DistinctRules(rules)
    ensures Image(HeaderOf, NewPorts(e, rules)) == Published(e.service.ports, RulePorts(rules))
  {
    if rules == [] {
      PublishedNone(e.service.ports);
      assert RulePorts(rules) == {};
    } else {
      var front, last := rules[..|rules| - 1], rules[|rules| - 1];
      NewPortsHeaders(e, front);
      NewPortsOfRuleHeaders(e, last, e.service.ports);
      BagSumConcat(Single(HeaderOf), NewPorts(e, front), NewPortsOfRule(e, last, e.service.ports));
      assert RulePorts(rules) == RulePorts(front) + {last.portNumber} by {
        assert forall r :: r in rules <==> r in front || r == last;
      }
      PublishedSplit(e.service.ports, RulePorts(front), last.portNumber);
    }
  }

  /** A deletion that leaves the import in place leaves its port headers as they are. */
  lemma DeletionKeepsHeaders(c: ClusterKey, act: map<ClusterKey, ExportEvent>, imp: Option<ServiceImport>,
                             e: ExportEvent)
    requires Holds(c, act, imp) && DistinctRules(e.rules)
    requires e.clusterKey != c ==> ImportCovered(imp, e)
    ensures Deletion(c, imp, e).Some? ==>
      imp.Some? && Image(HeaderOf, Deletion(c, imp, e).value.ports) == Image(HeaderOf, imp.value.ports)
  {
    if e.clusterKey != c && Deletion(c, imp, e).Some? {
      var key, was := e.clusterKey, imp.value.ports;
      var gone, kept := DeletedPorts(e.rules, was, key), Survivors(e.rules, was, key);
      DeletedPortsAreSurvivors(e.rules, was, key);
      BagSumOfBag(Single(HeaderOf), gone, kept);
      AllSurvive(act - {c}, e.rules, was, key);
      SurvivorHeaders(e.rules, was, key);
    }
  }

  /** Ports that all list the same exporters survive a covering deletion all together. */
  lemma AllSurvive(others: map<ClusterKey, ExportEvent>, rules: seq<Rule>, was: seq<ImportPort>, key: ClusterKey)
    requires forall p :: p in was ==> PortHolds(p, others) && Covered(rules, p)
    requires DeletedPorts(rules, was, key) != []
    ensures forall p :: p in was ==> Survives(rules, p, key)
  {
    var gone := DeletedPorts(rules, was, key);
    DeletedPortsMembers(rules, was, key);
    assert gone[0] in gone;
    var q :| q in was && Survives(rules, q, key) && gone[0] == Strip(q, key);
    StripHolds(q, others, key);
    forall p | p in was ensures Survives(rules, p, key) {
      StripHolds(p, others, key);
    }
  }

  lemma SurvivorHeaders(rules: seq<Rule>, was: seq<ImportPort>, key: ClusterKey)
    requires forall p :: p in was ==> Survives(rules, p, key)
    ensures Image(HeaderOf, Survivors(rules, was, key)) == Image(HeaderOf, was)
  {
    SurvivorViews(rules, was, key);
    BagSumPointwise(Single(HeaderOf), Survivors(rules, was, key), was);
  }

  lemma UpsertKeepsHeaders(c: ClusterKey, imp: Option<ServiceImport>, e: ExportEvent, after: Option<ServiceImport>)
    requires Upserts(c, imp, e, after) && e.clusterKey != c
    ensures Image(HeaderOf, after.value.ports) == Image(HeaderOf, imp.GetOr(NewImport(e)).ports)
  {
    var was, a := imp.GetOr(NewImport(e)).ports, after.value.ports;
    forall i | 0 <= i < |a| ensures HeaderOf(a[i]) == HeaderOf(was[i]) {
      assert PortMerged(was[i], e, a[i]);
    }
    BagSumPointwise(Single(HeaderOf), a, was);
  }

  // ---------------------------------------------------- creating in either order

  /** A port that lists first `e`, then `f`. */
  ghost function PairView(e: ExportEvent, f: ExportEvent): Header -> PortView {
    (h: Header) => PortView(h, Overlay(Overlay(map[], e, LastRule(e.rules, h.port)), f, LastRule(f.rules, h.port)))
  }

  lemma CreatedView(p: ImportPort, e: ExportEvent, p1: ImportPort, f: ExportEvent, p2: ImportPort)
    requires PortMerged(p, e, p1) && PortMerged(p1, f, p2) && DistinctRules(e.rules)
    requires exists r :: r in e.rules && p.endpoints == [NewEndpoint(e, r)] && p.header.port == r.portNumber
    ensures ViewOf(p2) == PairView(e, f)(p2.header) && p2.header.port in RulePorts(e.rules)
  {
    var r :| r in e.rules && p.endpoints == [NewEndpoint(e, r)] && p.header.port == r.portNumber;
    LastRuleMatches(e.rules, r.portNumber);
    assert [NewEndpoint(e, r)][..0] == [];
    assert EndpointMap(p.endpoints) == Overlay(map[], e, Some(r));
    MergedMap(p.endpoints, e, p.header.port, p1.endpoints);
    MergedMap(p1.endpoints, f, p.header.port, p2.endpoints);
  }

  lemma CreatedViews(was: seq<ImportPort>, e: ExportEvent, a: seq<ImportPort>, f: ExportEvent, b: seq<ImportPort>)
    requires was == NewPorts(e, e.rules) && PortsMerged(was, e, a) && PortsMerged(a, f, b) && DistinctRules(e.rules)
    ensures forall i :: 0 <= i < |b| ==>
      ViewOf(b[i]) == PairView(e, f)(HeaderOf(b[i])) && b[i].header.port in RulePorts(e.rules)
  {
    NewPortsMembers(e, e.rules);
    forall i | 0 <= i < |b|
      ensures ViewOf(b[i]) == PairView(e, f)(HeaderOf(b[i])) && b[i].header.port in RulePorts(e.rules) {
      assert was[i] in was && PortMerged(was[i], e, a[i]) && PortMerged(a[i], f, b[i]);
      CreatedView(was[i], e, a[i], f, b[i]);
    }
  }

  /** An import created by `e` and then upserted by `f`, as a table. */
  lemma CreatedTable(self: ClusterKey, e: ExportEvent, e1: Option<ServiceImport>, f: ExportEvent,
                     ef: Option<ServiceImport>)
    requires e.clusterKey != self && f.clusterKey != self && DistinctRules(e.rules)
    requires Upserts(self, None, e, e1) && Upserts(self, e1, f, ef)
    ensures Table(ef.value.ports) == Image(PairView(e, f), Mapped(HeaderOf, ef.value.ports))
    ensures multiset(Mapped(HeaderOf, ef.value.ports)) == Published(e.service.ports, RulePorts(e.rules))
    ensures forall h :: h in Mapped(HeaderOf, ef.value.ports) ==> h.port in RulePorts(e.rules)
  {
    var b := ef.value.ports;
    CreatedViews(NewPorts(e, e.rules), e, e1.value.ports, f, b);
    ImageThrough(ViewOf, HeaderOf, PairView(e, f), b);
    MappedBag(HeaderOf, b);
    UpsertKeepsHeaders(self, None, e, e1);
    UpsertKeepsHeaders(self, e1, f, ef);
    NewPortsHeaders(e, e.rules);
  }

  /** Two exporters whose Services have the same ports, with rules for the same port numbers, may also create
      the import in either order: the ports and their endpoints are the same. */
  lemma CreationCommutes(self: ClusterKey, e: ExportEvent, f: ExportEvent,
                         e1: Option<ServiceImport>, ef: Option<ServiceImport>, f1: Option<ServiceImport>,
                         fe: Option<ServiceImport>)
    requires e.clusterKey != self && f.clusterKey != self && e.clusterKey != f.clusterKey
    requires e.service.ports == f.service.ports && RulePorts(e.rules) == RulePorts(f.rules)
    requires DistinctRules(e.rules) && DistinctRules(f.rules)
    requires Upserts(self, None, e, e1) && Upserts(self, e1, f, ef)
    requires Upserts(self, None, f, f1) && Upserts(self, f1, e, fe)
    ensures Table(ef.value.ports) == Table(fe.value.ports)
  {
    CreatedTable(self, e, e1, f, ef);
    CreatedTable(self, f, f1, e, fe);
    var hs, gs := Mapped(HeaderOf, ef.value.ports), Mapped(HeaderOf, fe.value.ports);
    BagSumOfBag(Single(PairView(f, e)), hs, gs);
    forall i | 0 <= i < |hs| ensures PairView(e, f)(hs[i]) == PairView(f, e)(hs[i]) {
      assert hs[i] in hs;
      PairViewSymmetric(e, f, hs[i]);
    }
    ImagesAgree(PairView(e, f), PairView(f, e), hs);
  }

  lemma PairViewSymmetric(e: ExportEvent, f: ExportEvent, h: Header)
    requires e.clusterKey != f.clusterKey && h.port in RulePorts(e.rules) && h.port in RulePorts(f.rules)
    ensures PairView(e, f)(h) == PairView(f, e)(h)
  {
    LastRuleMatches(e.rules, h.port);
    LastRuleMatches(f.rules, h.port);
    OverlayOrder(map[], e, LastRule(e.rules, h.port), f, LastRule(f.rules, h.port));
  }

  lemma {:induction false} ImagesAgree<A, B>(f: A -> B, g: A -> B, s: seq<A>)
    requires forall i :: 0 <= i < |s| ==> f(s[i]) == g(s[i])
    ensures Image(f, s) == Image(g, s)
  {
    if s != [] { ImagesAgree(f, g, s[..|s| - 1]); }
  }

  // ------------------------------------------------------------------- the run

  /** One decision at a time, one rule per port number, always the same port numbers, at least one
      of them a port of the Service, and Services that stay as they are while exported. */
  ghost predicate Uniform(s: State, step: Step, numbers: set<int>) {
    match step
    case Decide(e, _) => s.inflight == {} && DistinctRules(e.rules) && RulePorts(e.rules) == numbers
      && NewPorts(e, e.rules) != []
    case Withdraw(e) => s.inflight == {} && DistinctRules(e.rules) && RulePorts(e.rules) == numbers
    case SetService(c, _) => c !in s.active
    case Handle(_, _, _) => true
    case CreateOnly(_, _) => true
  }

  ghost predicate UniformUpTo(r: Run, n: nat, numbers: set<int>) {
    IsRun(r) && n < |r.states| && forall i :: 0 <= i < n ==> Uniform(r.states[i], r.steps[i], numbers)
  }

  ghost predicate PortsAgree(c: ClusterKey, act: map<ClusterKey, ExportEvent>, imp: Option<ServiceImport>,
                             numbers: set<int>) {
    imp.Some? ==> forall k :: k in act && k != c ==>
      Image(HeaderOf, imp.value.ports) == Published(act[k].service.ports, numbers)
  }

  ghost predicate PortsIn(imp: Option<ServiceImport>, numbers: set<int>) {
    imp.Some? ==> forall p :: p in imp.value.ports ==> p.header.port in numbers
  }

  ghost predicate PortInv(s: State, numbers: set<int>) {
    && (forall c, m :: (c, m) in s.inflight ==> RulePorts(m.event.rules) == numbers)
    && forall c :: c in s.imports ==> PortsAgree(c, s.active, s.imports[c], numbers) && PortsIn(s.imports[c], numbers)
  }

  lemma SameNumbersCover(s: State, e: ExportEvent, numbers: set<int>)
    requires PortInv(s, numbers) && RulePorts(e.rules) == numbers
    ensures Covers(s, e)
  {
    forall c | c in s.imports && c != e.clusterKey ensures ImportCovered(s.imports[c], e) {
      if s.imports[c].Some? {
        forall p | p in s.imports[c].value.ports ensures Covered(e.rules, p) {
          assert PortsIn(s.imports[c], numbers);
          LastRuleMatches(e.rules, p.header.port);
        }
      }
    }
  }

  lemma UpsertPorts(c: ClusterKey, act: map<ClusterKey, ExportEvent>, before: Option<ServiceImport>, e: ExportEvent,
                    after: Option<ServiceImport>)
    requires Upserts(c, before, e, after) && e.clusterKey != c && DistinctRules(e.rules)
    requires Agree(act) && e.clusterKey in act && act[e.clusterKey] == e
    requires PortsAgree(c, act, before, RulePorts(e.rules)) && PortsIn(before, RulePorts(e.rules))
    ensures PortsAgree(c, act, after, RulePorts(e.rules)) && PortsIn(after, RulePorts(e.rules))
  {
    UpsertKeepsHeaders(c, before, e, after);
    NewPortsHeaders(e, e.rules);
    NewImportPortsIn(e);
    var was, a := before.GetOr(NewImport(e)).ports, after.value.ports;
    forall q | q in a ensures q.header.port in RulePorts(e.rules) {
      var i :| 0 <= i < |a| && a[i] == q;
      assert PortMerged(was[i], e, a[i]) && was[i] in was;
    }
  }

  lemma DeletionPorts(c: ClusterKey, act: map<ClusterKey, ExportEvent>, from: map<ClusterKey, ExportEvent>,
                      before: Option<ServiceImport>, e: ExportEvent)
    requires Holds(c, from, before) && DistinctRules(e.rules) && e.clusterKey != c && ImportCovered(before, e)
    requires PortsAgree(c, act, before, RulePorts(e.rules)) && PortsIn(before, RulePorts(e.rules))
    ensures PortsAgree(c, act, Deletion(c, before, e), RulePorts(e.rules))
      && PortsIn(Deletion(c, before, e), RulePorts(e.rules))
  {
    DeletionKeepsHeaders(c, from, before, e);
    if before.Some? { DeletedPortsMembers(e.rules, before.value.ports, e.clusterKey); }
  }

  /** The import a handled message leaves has the ports that every active export asks for. */
  lemma HandledPorts(s: State, c: ClusterKey, m: Message, after: Option<ServiceImport>, numbers: set<int>)
    requires Inv(s) && PortInv(s, numbers) && (c, m) in s.inflight && Handles(c, s.imports[c], m, after)
    ensures PortsAgree(c, s.active, after, numbers) && PortsIn(after, numbers)
  {
    assert PendingOk(s, c, m) && Followed(s, c);
    var e, before := m.event, s.imports[c];
    if e.clusterKey != c {
      if m.Accepted? {
        UpsertPorts(c, s.active, before, e, after);
      } else {
        DeletionPorts(c, s.active, if Holds(c, s.active, before) then s.active else s.settled, before, e);
      }
    }
  }

  lemma NewImportPortsIn(e: ExportEvent)
    ensures PortsIn(Some(NewImport(e)), RulePorts(e.rules))
  {
    NewPortsMembers(e, e.rules);
  }

  lemma DecidePorts(s: State, e: ExportEvent, s': State, numbers: set<int>)
    requires Inv(s) && PortInv(s, numbers) && Inv(s') && s.inflight == {} && RulePorts(e.rules) == numbers
    requires s' == s.(active := s.active[e.clusterKey := e], settled := s.active, last := Some(Accepted(e)),
      inflight := ToAll(s, Accepted(e)))
    ensures PortInv(s', numbers)
  {
    forall c | c in s'.imports
      ensures PortsAgree(c, s'.active, s'.imports[c], numbers) && PortsIn(s'.imports[c], numbers) {
      assert Followed(s, c) && !Pending(s, c);
      assert PortsAgree(c, s.active, s.imports[c], numbers);
      if s.imports[c].Some? {
        NonEmptyKey(s.active - {c});
        var j :| j in s.active - {c};
        assert s'.active[j].service == s.services[j] == s.active[j].service;
        AgreeingPorts(c, s.active, s'.active, s.imports[c], j, numbers);
      }
    }
  }

  lemma AgreeingPorts(c: ClusterKey, act: map<ClusterKey, ExportEvent>, act': map<ClusterKey, ExportEvent>,
                      imp: Option<ServiceImport>, j: ClusterKey, numbers: set<int>)
    requires PortsAgree(c, act, imp, numbers) && Agree(act') && imp.Some?
    requires j in act && j in act' && j != c && act'[j].service == act[j].service
    ensures PortsAgree(c, act', imp, numbers)
  {
    forall k | k in act' && k != c
      ensures Image(HeaderOf, imp.value.ports) == Published(act'[k].service.ports, numbers) {
      assert SameSpec(act'[j].service, act'[k].service);
    }
  }

  lemma WithdrawPorts(s: State, e: ExportEvent, s': State, numbers: set<int>)
    requires PortInv(s, numbers) && s.inflight == {} && RulePorts(e.rules) == numbers && Takes(s, Withdraw(e), s')
    ensures PortInv(s', numbers)
  {
    forall c | c in s'.imports
      ensures PortsAgree(c, s'.active, s'.imports[c], numbers) && PortsIn(s'.imports[c], numbers) {
      assert PortsAgree(c, s.active, s.imports[c], numbers);
    }
  }

  lemma CreatePorts(s: State, c: ClusterKey, m: Message, s': State, numbers: set<int>)
    requires Inv(s) && PortInv(s, numbers) && Takes(s, CreateOnly(c, m), s')
    ensures PortInv(s', numbers)
  {
    assert PendingOk(s, c, m);
    NewPortsHeaders(m.event, m.event.rules);
    NewImportPortsIn(m.event);
    assert s.active[m.event.clusterKey] == m.event;
  }

  lemma PortStep(s: State, step: Step, s': State, numbers: set<int>)
    requires Inv(s) && PortInv(s, numbers) && Takes(s, step, s') && Uniform(s, step, numbers)
    ensures Inv(s') && PortInv(s', numbers)
  {
    if step.Decide? || step.Withdraw? {
      SameNumbersCover(s, step.event, numbers);
    }
    StepInv(s, step, s');
    match step
    case Decide(e, bgs) => if Accepts(bgs, e) { DecidePorts(s, e, s', numbers); }
    case Withdraw(e) => WithdrawPorts(s, e, s', numbers);
    case Handle(c, m, _) => HandledPorts(s, c, m, s'.imports[c], numbers);
    case CreateOnly(c, m) => CreatePorts(s, c, m, s', numbers);
    case SetService(_, _) =>
  }

  lemma {:induction false} PortInvAt(r: Run, i: nat, numbers: set<int>)
    requires UniformUpTo(r, i, numbers)
    ensures Inv(r.states[i]) && PortInv(r.states[i], numbers)
  {
    if i == 0 {
      InvAt(r, 0);
    } else {
      PortInvAt(r, i - 1, numbers);
      PortStep(r.states[i - 1], r.steps[i - 1], r.states[i], numbers);
    }
  }

  /** With one set of port numbers for all exports, every step meets the covering condition, so the
      refinement and conflict safety of `Federation` apply to the run. */
  lemma {:induction false} UniformIsOrderly(r: Run, n: nat, numbers: set<int>)
    requires UniformUpTo(r, n, numbers)
    ensures OrderlyUpTo(r, n)
  {
    forall i | 0 <= i < n ensures Orderly(r.states[i], r.steps[i]) {
      PortInvAt(r, i, numbers);
      if r.steps[i].Decide? || r.steps[i].Withdraw? {
        SameNumbersCover(r.states[i], r.steps[i].event, numbers);
      }
    }
  }

  /** In such a run an import lists exactly the Service ports with these numbers, each once, as every
      active exporter's Service has them. */
  lemma ImportPortsFollowServices(r: Run, i: nat, c: ClusterKey, k: ClusterKey, numbers: set<int>)
    requires UniformUpTo(r, i, numbers)
    requires c in r.states[i].imports && r.states[i].imports[c].Some? && k in r.states[i].active && k != c
    ensures Image(HeaderOf, r.states[i].imports[c].value.ports) ==
      Published(r.states[i].active[k].service.ports, numbers)
  {
    PortInvAt(r, i, numbers);
    assert PortsAgree(c, r.states[i].active, r.states[i].imports[c], numbers);
  }

  // --------------------------------------------------- why the hypotheses are there

  /** An export none of whose rules names a Service port creates an import without ports; later exports are
      not listed there, and withdrawing one of them removes the import under the first. */
  lemma PortlessImportLosesExports(self: ClusterKey, e: ExportEvent, f: ExportEvent, e1: Option<ServiceImport>,
                                   ef: Option<ServiceImport>)
    requires e.clusterKey != self && f.clusterKey != self && NewPorts(e, e.rules) == []
    requires Upserts(self, None, e, e1) && Upserts(self, e1, f, ef)
    ensures ef.Some? && ef.value.ports == [] && Deletion(self, ef, f) == None
  {
    DeletedPortsMembers(f.rules, [], f.clusterKey);
    NoElements(DeletedPorts(f.rules, [], f.clusterKey));
  }

  function Admitted(s: State, e: ExportEvent): State {
    s.(active := s.active[e.clusterKey := e], settled := s.active, last := Some(Accepted(e)),
       inflight := s.inflight + (set c | c in s.imports :: (c, Accepted(e))))
  }

  function BeforeExports(e: ExportEvent, f: ExportEvent): State {
    State(map[e.clusterKey := e.service, f.clusterKey := f.service], map[e.clusterKey := None, f.clusterKey := None],
      {}, map[], map[], None)
  }

  /** What a decision reads of the two clusters, when it finds no imports or cannot tell. */
  function Reading(e: ExportEvent, svc: Service, f: ExportEvent, readable: bool): map<ClusterKey, Background> {
    var imported: ApiRead<ServiceImport> := if readable then ApiRead.NotFound else ApiRead.Failed;
    map[e.clusterKey := Background(false, imported, Found(svc)),
        f.clusterKey := Background(false, imported, Found(f.service))]
  }

  /** One of two clusters without imports exports: unseen when the imports can be read, else after it was
      compared with a Service like its own. */
  lemma Admits(s: State, e: ExportEvent, svc: Service, f: ExportEvent, readable: bool, x: ExportEvent)
    requires e.clusterKey != f.clusterKey && x in {e, f}
    requires s.imports == map[e.clusterKey := None, f.clusterKey := None]
    requires s.services == map[e.clusterKey := svc, f.clusterKey := f.service] && s.services[x.clusterKey] == x.service
    requires readable || (x == f && SameSpec(f.service, svc))
    ensures Takes(s, Decide(x, Reading(e, svc, f, readable)), Admitted(s, x))
    ensures FirstTime(Reading(e, svc, f, readable)) <==> readable
  {
    ReadingObserves(s, e, svc, f, readable);
    ReadingAccepts(e, svc, f, readable, x);
  }

  lemma ReadingObserves(s: State, e: ExportEvent, svc: Service, f: ExportEvent, readable: bool)
    requires e.clusterKey != f.clusterKey && s.imports == map[e.clusterKey := None, f.clusterKey := None]
    requires s.services == map[e.clusterKey := svc, f.clusterKey := f.service]
    ensures Observes(s, Reading(e, svc, f, readable))
  {
  }

  lemma ReadingAccepts(e: ExportEvent, svc: Service, f: ExportEvent, readable: bool, x: ExportEvent)
    requires e.clusterKey != f.clusterKey && (readable || (x == f && SameSpec(f.service, svc)))
    ensures Accepts(Reading(e, svc, f, readable), x)
    ensures FirstTime(Reading(e, svc, f, readable)) <==> readable
  {
    var bgs := Reading(e, svc, f, readable);
    assert e.clusterKey in bgs && (ServiceImportExists(bgs[e.clusterKey]) <==> !readable);
  }

  /** Decisions that are not delivered one at a time are not safe: two clusters can each export
      "first", with Services of different types, and both are accepted. */
  lemma ConcurrentFirstExportsConflict(e: ExportEvent, f: ExportEvent) returns (r: Run)
    requires e.clusterKey != f.clusterKey && !SameSpec(e.service, f.service)
    ensures IsRun(r) && !Agree(r.states[|r.steps|].active)
    ensures forall i :: 0 <= i < |r.steps| ==> KeepsServices(r.states[i], r.steps[i])
  {
    var s0, bgs := BeforeExports(e, f), Reading(e, e.service, f, true);
    var s1 := Admitted(s0, e);
    var s2 := Admitted(s1, f);
    r := Run([s0, s1, s2], [Decide(e, bgs), Decide(f, bgs)]);
    Admits(s0, e, e.service, f, true, e);
    Admits(s1, e, e.service, f, true, f);
    assert s2.active[e.clusterKey] == e && s2.active[f.clusterKey] == f;
  }

  /** Services that change while exported are not safe either: the export of `f` is compared with what the
      Service of `e` has become, and no export is wrongly taken for the first. */
  lemma ChangedServiceConflicts(e: ExportEvent, f: ExportEvent) returns (r: Run)
    requires e.clusterKey != f.clusterKey && !SameSpec(e.service, f.service)
    ensures IsRun(r) && !Agree(r.states[|r.steps|].active) && NoneWronglyFirst(r, |r.steps|)
  {
    var s0, bgs := BeforeExports(e, f), Reading(e, e.service, f, true);
    var s1, unread := Admitted(s0, e), Reading(e, f.service, f, false);
    var s2 := s1.(services := map[e.clusterKey := f.service, f.clusterKey := f.service]);
    var s3 := Admitted(s2, f);
    r := Run([s0, s1, s2, s3], [Decide(e, bgs), SetService(e.clusterKey, Some(f.service)), Decide(f, unread)]);
    Admits(s0, e, e.service, f, true, e);
    assert s1.services[e.clusterKey := f.service] == s2.services;
    assert Takes(s1, r.steps[1], s2);
    Admits(s2, e, f.service, f, false, f);
    assert s3.active[e.clusterKey] == e && s3.active[f.clusterKey] == f;
  }
}
