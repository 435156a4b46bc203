/** The export/import protocol of a cluster set as a transition system, for one service name.
    Decisions put one message per cluster in flight; messages are handled in any order, may be
    retried after a failure, and reads made for a decision may fail. */
module Federation {
  import opened Bags
  import opened Options
  import opened ServiceImports
  import opened ImportProperties
  import opened ExportDecisions

  /** `active` holds the exports accepted and not withdrawn; `settled` is its value before
      the last decision and `last` that decision's message.  These are history: no step reads them. */
  datatype State = State(
    services: map<ClusterKey, Service>,
    imports: map<ClusterKey, Option<ServiceImport>>,
    inflight: set<(ClusterKey, Message)>,
    active: map<ClusterKey, ExportEvent>,
    settled: map<ClusterKey, ExportEvent>,
    last: Option<Message>)

  datatype Step =
    | Decide(event: ExportEvent, bgs: map<ClusterKey, Background>)
    | Withdraw(event: ExportEvent)
    | Handle(cluster: ClusterKey, msg: Message, retried: bool)
    | CreateOnly(cluster: ClusterKey, msg: Message)
    | SetService(cluster: ClusterKey, service: Option<Service>)

  ghost predicate Initial(s: State) {
    && s.inflight == {} && s.active == map[] && s.settled == map[] && s.last == None
    && forall c :: c in s.imports ==> s.imports[c] == None
  }

  /** A read either fails or tells the truth. */
  ghost predicate Reads<T>(r: ApiRead<T>, actual: Option<T>) {
    r == Failed || r == match actual case None => NotFound case Some(v) => Found(v)
  }

  ghost predicate Observes(s: State, bgs: map<ClusterKey, Background>) {
    && (forall c :: c in s.imports ==> c in bgs && !bgs[c].isInCluster)
    && forall c :: c in bgs && !bgs[c].isInCluster ==>
      && c in s.imports
      && Reads(bgs[c].imported, s.imports[c])
      && Reads(bgs[c].service, if c in s.services then Some(s.services[c]) else None)
  }

  ghost function ToAll(s: State, m: Message): set<(ClusterKey, Message)> {
    set c | c in s.imports :: (c, m)
  }

  ghost predicate Handles(c: ClusterKey, before: Option<ServiceImport>, m: Message, after: Option<ServiceImport>) {
    match m
    case Accepted(e) => Upserts(c, before, e, after)
    case Deleted(e) => after == Deletion(c, before, e)
    case Rejected(_, _) => after == before
  }

  ghost predicate Takes(s: State, step: Step, s': State) {
    match step
    case Decide(e, bgs) =>
      && e.clusterKey in s.imports && e.clusterKey in s.services && s.services[e.clusterKey] == e.service
      && Observes(s, bgs)
      && s' == if Accepts(bgs, e)
         then s.(active := s.active[e.clusterKey := e], settled := s.active, last := Some(Accepted(e)),
                 inflight := s.inflight + ToAll(s, Accepted(e)))
         else s
    case Withdraw(e) =>
      && e.clusterKey in s.imports
      && s' == s.(active := s.active - {e.clusterKey}, settled := s.active, last := Some(Deleted(e)),
                 inflight := s.inflight + ToAll(s, Deleted(e)))
    case Handle(c, m, retried) =>
      && (c, m) in s.inflight && c in s.imports && c in s'.imports
      && Handles(c, s.imports[c], m, s'.imports[c])
      && s' == s.(imports := s.imports[c := s'.imports[c]],
        inflight := if retried then s.inflight else s.inflight - {(c, m)})
    case CreateOnly(c, m) =>
      && (c, m) in s.inflight && c in s.imports && m.Accepted? && m.event.clusterKey != c && s.imports[c] == None
      && s' == s.(imports := s.imports[c := Some(NewImport(m.event))])
    case SetService(c, svc) =>
      && s' == s.(services := match svc case None => s.services - {c} case Some(v) => s.services[c := v])
  }

  datatype Run = Run(states: seq<State>, steps: seq<Step>)

  ghost predicate IsRun(r: Run) {
    && |r.states| == |r.steps| + 1
    && Initial(r.states[0])
    && forall i :: 0 <= i < |r.steps| ==> Takes(r.states[i], r.steps[i], r.states[i + 1])
  }

  // ------------------------------------------------ every interleaving is sound

  ghost predicate RulesDistinct(step: Step) {
    (step.Decide? || step.Withdraw?) ==> DistinctRules(step.event.rules)
  }

  /** No endpoint of the cluster itself, and at most one per exporter, on every port. */
  ghost predicate SoundImport(c: ClusterKey, imp: Option<ServiceImport>) {
    imp.Some? ==> forall p :: p in imp.value.ports ==> SoundPort(c, p)
  }

  ghost predicate SoundPort(c: ClusterKey, p: ImportPort) {
    DistinctKeys(p.endpoints) && forall ep :: ep in p.endpoints ==> ep.clusterKey != c
  }

  ghost predicate Sound(s: State) {
    && (forall c :: c in s.imports ==> SoundImport(c, s.imports[c]))
    && forall c, m :: (c, m) in s.inflight ==> DistinctRules(m.event.rules)
  }

  lemma NewImportSound(c: ClusterKey, e: ExportEvent)
    requires e.clusterKey != c
    ensures SoundImport(c, Some(NewImport(e)))
  {
    NewPortsMembers(e, e.rules);
  }

  lemma UpsertSound(c: ClusterKey, before: Option<ServiceImport>, e: ExportEvent, after: Option<ServiceImport>)
    requires SoundImport(c, before) && DistinctRules(e.rules) && Upserts(c, before, e, after)
    ensures SoundImport(c, after)
  {
    if e.clusterKey != c {
      NewImportSound(c, e);
      var was, a := before.GetOr(NewImport(e)).ports, after.value.ports;
      forall q | q in a ensures SoundPort(c, q) {
        var i :| 0 <= i < |a| && a[i] == q;
        assert PortMerged(was[i], e, a[i]) && was[i] in was;
        MergedMap(was[i].endpoints, e, was[i].header.port, q.endpoints);
        EndpointMapKeys(q.endpoints);
        EndpointMapKeys(was[i].endpoints);
      }
    }
  }

  lemma DeletionSound(c: ClusterKey, before: Option<ServiceImport>, e: ExportEvent)
    requires SoundImport(c, before)
    ensures SoundImport(c, Deletion(c, before, e))
  {
    if before.Some? {
      DeletedPortsMembers(e.rules, before.value.ports, e.clusterKey);
      forall p | p in before.value.ports ensures SoundPort(c, Strip(p, e.clusterKey)) {
        WithoutMembers(p.endpoints, e.clusterKey);
      }
    }
  }

  lemma SoundStep(s: State, step: Step, s': State)
    requires Sound(s) && Takes(s, step, s') && RulesDistinct(step)
    ensures Sound(s')
  {
    match step
    case Decide(e, _) =>
    case Withdraw(e) =>
    case Handle(c, Accepted(e), _) => UpsertSound(c, s.imports[c], e, s'.imports[c]);
    case Handle(c, Deleted(e), _) => DeletionSound(c, s.imports[c], e);
    case Handle(c, Rejected(_, _), _) =>
    case CreateOnly(c, m) => NewImportSound(c, m.event);
    case SetService(_, _) =>
  }

  /** However decisions, deliveries, retries and failures interleave, no import ever names its own
      cluster or lists one exporter twice on a port. */
  lemma {:induction false} ImportsAlwaysSound(r: Run, i: nat, c: ClusterKey)
    requires IsRun(r) && i < |r.states| && forall j :: 0 <= j < |r.steps| ==> RulesDistinct(r.steps[j])
    requires c in r.states[i].imports
    ensures SoundImport(c, r.states[i].imports[c])
  {
    SoundAt(r, i);
  }

  lemma {:induction false} SoundAt(r: Run, i: nat)
    requires IsRun(r) && i < |r.states| && forall j :: 0 <= j < |r.steps| ==> RulesDistinct(r.steps[j])
    ensures Sound(r.states[i])
  {
    if i > 0 {
      SoundAt(r, i - 1);
      SoundStep(r.states[i - 1], r.steps[i - 1], r.states[i]);
    }
  }

  /** Right after a cluster handles the deletion of an export, nothing of the exporter is left there. */
  lemma NothingLeftAfterDeletion(s: State, c: ClusterKey, e: ExportEvent, retried: bool, s': State)
    requires Takes(s, Handle(c, Deleted(e), retried), s') && e.clusterKey != c
    requires s.imports[c].Some? ==> !s.imports[c].value.terminating
    ensures s'.imports[c].Some? ==>
      forall p, ep :: p in s'.imports[c].value.ports && ep in p.endpoints ==> ep.clusterKey != e.clusterKey
  {
    if s.imports[c].Some? {
      DeletedPortsMembers(e.rules, s.imports[c].value.ports, e.clusterKey);
      forall p | p in s.imports[c].value.ports
        ensures forall ep :: ep in Strip(p, e.clusterKey).endpoints ==> ep.clusterKey != e.clusterKey {
        WithoutMembers(p.endpoints, e.clusterKey);
      }
    }
  }

  // --------------------------------------------- the imports follow the exports

  function EndpointFor(e: ExportEvent, port: int): Option<Endpoint> {
    match LastRule(e.rules, port)
    case None => None
    case Some(r) => Some(NewEndpoint(e, r))
  }

  /** One endpoint per exporter, with its gateway and the path of its rule for this port. */
  ghost predicate PortHolds(p: ImportPort, exports: map<ClusterKey, ExportEvent>) {
    && DistinctKeys(p.endpoints)
    && EndpointMap(p.endpoints).Keys == exports.Keys
    && forall k :: k in exports ==> EndpointFor(exports[k], p.header.port) == Some(EndpointMap(p.endpoints)[k])
  }

  /** The import of cluster `c` says exactly what the exports `act` of the other clusters say. */
  ghost predicate Holds(c: ClusterKey, act: map<ClusterKey, ExportEvent>, imp: Option<ServiceImport>) {
    var others := act - {c};
    && (imp.Some? <==> others != map[])
    && (imp.Some? ==>
      && !imp.value.terminating && imp.value.ports != []
      && forall p :: p in imp.value.ports ==> PortHolds(p, others))
  }

  ghost predicate ImportCovered(imp: Option<ServiceImport>, e: ExportEvent) {
    imp.Some? ==> forall p :: p in imp.value.ports ==> Covered(e.rules, p)
  }

  /** A rule of the event covers every imported port of the other clusters. */
  ghost predicate Covers(s: State, e: ExportEvent) {
    forall c :: c in s.imports && c != e.clusterKey ==> ImportCovered(s.imports[c], e)
  }

  /** What the strong claims ask of a step: one decision at a time, one rule per port number,
      rules that cover the imported ports, and Services that stay as they are while exported. */
  ghost predicate Orderly(s: State, step: Step) {
    match step
    case Decide(e, _) => s.inflight == {} && DistinctRules(e.rules) && Covers(s, e) && NewPorts(e, e.rules) != []
    case Withdraw(e) => s.inflight == {} && DistinctRules(e.rules) && Covers(s, e)
    case SetService(c, _) => c !in s.active
    case Handle(_, _, _) => true
    case CreateOnly(_, _) => true
  }

  ghost predicate OrderlyUpTo(r: Run, n: nat) {
    IsRun(r) && n < |r.states| && forall i :: 0 <= i < n ==> Orderly(r.states[i], r.steps[i])
  }

  lemma NewImportHolds(c: ClusterKey, act: map<ClusterKey, ExportEvent>, e: ExportEvent)
    requires act - {c} == map[e.clusterKey := e] && DistinctRules(e.rules) && NewPorts(e, e.rules) != []
    ensures Holds(c, act, Some(NewImport(e))) && ImportCovered(Some(NewImport(e)), e)
  {
    NewPortsMembers(e, e.rules);
    assert e.clusterKey in act - {c};
    forall p | p in NewPorts(e, e.rules) ensures PortHolds(p, act - {c}) && Covered(e.rules, p) {
      var r :| r in e.rules && p.endpoints == [NewEndpoint(e, r)] && p.header.port == r.portNumber;
      LastRuleMatches(e.rules, r.portNumber);
      assert p.endpoints[..0] == [];
      assert EndpointMap(p.endpoints) == map[e.clusterKey := NewEndpoint(e, r)];
    }
  }

  lemma PortMergeHolds(p: ImportPort, others: map<ClusterKey, ExportEvent>, e: ExportEvent, q: ImportPort)
    requires PortHolds(p, others) && PortMerged(p, e, q) && DistinctRules(e.rules) && Covered(e.rules, p)
    ensures PortHolds(q, others[e.clusterKey := e]) && Covered(e.rules, q)
  {
    MergedMap(p.endpoints, e, p.header.port, q.endpoints);
  }

  lemma UpsertHolds(c: ClusterKey, act: map<ClusterKey, ExportEvent>, before: Option<ServiceImport>, e: ExportEvent,
                    after: Option<ServiceImport>)
    requires Holds(c, act, before) && e.clusterKey != c && Upserts(c, before, e, after)
    requires DistinctRules(e.rules) && ImportCovered(before, e) && (before.None? ==> NewPorts(e, e.rules) != [])
    ensures Holds(c, act[e.clusterKey := e], after) && ImportCovered(after, e)
  {
    var act', others := act[e.clusterKey := e], act - {c};
    assert act' - {c} == others[e.clusterKey := e];
    assert e.clusterKey in act' - {c};
    if before.None? {
      NewImportHolds(c, act', e);
      assert (act' - {c})[e.clusterKey := e] == act' - {c};
      PortsMergeHolds(NewPorts(e, e.rules), act' - {c}, e, after.value.ports);
    } else {
      PortsMergeHolds(before.value.ports, others, e, after.value.ports);
    }
  }

  /** The mirror is kept exactly by an export that covers the imported ports and, when it is the one that
      creates the import, gives it a port. */
  lemma UpsertHoldsIff(c: ClusterKey, act: map<ClusterKey, ExportEvent>, before: Option<ServiceImport>, e: ExportEvent,
                       after: Option<ServiceImport>)
    requires Holds(c, act, before) && e.clusterKey != c && Upserts(c, before, e, after) && DistinctRules(e.rules)
    ensures Holds(c, act[e.clusterKey := e], after) <==>
      ImportCovered(before, e) && (before.None? ==> NewPorts(e, e.rules) != [])
  {
    var act' := act[e.clusterKey := e];
    assert e.clusterKey in act' - {c};
    if ImportCovered(before, e) && (before.None? ==> NewPorts(e, e.rules) != []) {
      UpsertHolds(c, act, before, e, after);
    } else if before.Some? {
      var was, a := before.value.ports, after.value.ports;
      var p :| p in was && !Covered(e.rules, p);
      var i :| 0 <= i < |was| && was[i] == p;
      assert PortMerged(was[i], e, a[i]) && a[i] in a;
      MergedMap(p.endpoints, e, p.header.port, a[i].endpoints);
      LastRuleMatches(e.rules, p.header.port);
      assert !PortHolds(a[i], act' - {c});
    }
  }

  lemma PortsMergeHolds(was: seq<ImportPort>, others: map<ClusterKey, ExportEvent>, e: ExportEvent, a: seq<ImportPort>)
    requires PortsMerged(was, e, a) && DistinctRules(e.rules)
    requires forall p :: p in was ==> PortHolds(p, others) && Covered(e.rules, p)
    ensures forall q :: q in a ==> PortHolds(q, others[e.clusterKey := e]) && Covered(e.rules, q)
  {
    forall q | q in a ensures PortHolds(q, others[e.clusterKey := e]) && Covered(e.rules, q) {
      var i :| 0 <= i < |a| && a[i] == q;
      assert PortMerged(was[i], e, a[i]) && was[i] in was;
      PortMergeHolds(was[i], others, e, q);
    }
  }

  lemma StripHolds(p: ImportPort, others: map<ClusterKey, ExportEvent>, key: ClusterKey)
    requires PortHolds(p, others)
    ensures PortHolds(Strip(p, key), others - {key})
    ensures Without(p.endpoints, key) == [] <==> others - {key} == map[]
  {
    WithoutMap(p.endpoints, key);
    WithoutMembers(p.endpoints, key);
    NoEndpoints(Without(p.endpoints, key));
    assert (EndpointMap(p.endpoints) - {key}).Keys == (others - {key}).Keys;
    if others - {key} == map[] {
      assert (EndpointMap(p.endpoints) - {key}).Keys == {};
    }
  }

  lemma DeletionHolds(c: ClusterKey, act: map<ClusterKey, ExportEvent>, before: Option<ServiceImport>, e: ExportEvent)
    requires Holds(c, act, before) && e.clusterKey != c && ImportCovered(before, e)
    ensures Holds(c, act - {e.clusterKey}, Deletion(c, before, e)) && ImportCovered(Deletion(c, before, e), e)
  {
    var key, others := e.clusterKey, act - {c};
    assert act - {key} - {c} == others - {key};
    if before.Some? {
      var was := before.value.ports;
      forall p | p in was
        ensures PortHolds(Strip(p, key), others - {key})
        ensures Survives(e.rules, p, key) <==> others - {key} != map[]
      {
        StripHolds(p, others, key);
      }
      DeletedPortsMembers(e.rules, was, key);
      NoElements(DeletedPorts(e.rules, was, key));
      assert was[0] in was;
      if others - {key} != map[] {
        assert Strip(was[0], key) in DeletedPorts(e.rules, was, key);
      }
    } else {
      assert others - {key} == map[];
    }
  }

  /** The mirror is kept exactly by a withdrawal that leaves no exporter or covers some imported port. */
  lemma DeletionHoldsIff(c: ClusterKey, act: map<ClusterKey, ExportEvent>, before: Option<ServiceImport>,
                         e: ExportEvent)
    requires Holds(c, act, before) && e.clusterKey != c
    ensures Holds(c, act - {e.clusterKey}, Deletion(c, before, e)) <==>
      act - {c} - {e.clusterKey} == map[] || SomeCovered(before.value.ports, e)
  {
    var key, others := e.clusterKey, act - {c};
    assert act - {key} - {c} == others - {key};
    if before.Some? {
      DeletedPortsHold(before.value.ports, others, e);
    } else {
      assert others - {key} == map[];
    }
  }

  ghost predicate SomeCovered(ports: seq<ImportPort>, e: ExportEvent) {
    exists p :: p in ports && Covered(e.rules, p)
  }

  /** What a withdrawal leaves says what the exporters left say, and is something if one is left and a port
      is covered. */
  lemma DeletedPortsHold(was: seq<ImportPort>, others: map<ClusterKey, ExportEvent>, e: ExportEvent)
    requires forall p :: p in was ==> PortHolds(p, others)
    ensures forall q :: q in DeletedPorts(e.rules, was, e.clusterKey) ==> PortHolds(q, others - {e.clusterKey})
    ensures DeletedPorts(e.rules, was, e.clusterKey) != [] <==>
      others - {e.clusterKey} != map[] && SomeCovered(was, e)
  {
    var key := e.clusterKey;
    forall p | p in was
      ensures PortHolds(Strip(p, key), others - {key})
      ensures Survives(e.rules, p, key) <==> Covered(e.rules, p) && others - {key} != map[]
    {
      StripHolds(p, others, key);
    }
    DeletedPortsMembers(e.rules, was, key);
    NoElements(DeletedPorts(e.rules, was, key));
    if others - {key} != map[] && SomeCovered(was, e) {
      var p :| p in was && Covered(e.rules, p);
      assert Strip(p, key) in DeletedPorts(e.rules, was, key);
    }
  }

  // ---------------------------------------------------------------- invariants

  ghost predicate Agree(act: map<ClusterKey, ExportEvent>) {
    forall j, k :: j in act && k in act ==>
      act[j].service.kind == act[k].service.kind && act[j].service.ports == act[k].service.ports
  }

  ghost predicate Keyed(act: map<ClusterKey, ExportEvent>) {
    forall k :: k in act ==> act[k].clusterKey == k
  }

  /** A message still in flight leads from the settled exports to the active ones. */
  ghost predicate PendingOk(s: State, c: ClusterKey, m: Message) {
    && c in s.imports
    && s.last == Some(m)
    && DistinctRules(m.event.rules)
    && (c != m.event.clusterKey ==> ImportCovered(s.imports[c], m.event))
    && match m
       case Accepted(e) => s.active == s.settled[e.clusterKey := e] && NewPorts(e, e.rules) != []
       case Deleted(e) => s.active == s.settled - {e.clusterKey}
       case Rejected(_, _) => false
  }

  ghost predicate Pending(s: State, c: ClusterKey) {
    exists m :: (c, m) in s.inflight
  }

  ghost predicate Followed(s: State, c: ClusterKey)
    requires c in s.imports
  {
    Holds(c, s.active, s.imports[c]) || (Pending(s, c) && Holds(c, s.settled, s.imports[c]))
  }

  ghost predicate Inv(s: State) {
    && s.active.Keys <= s.imports.Keys
    && Keyed(s.active)
    && (forall k :: k in s.active ==> k in s.services && s.services[k] == s.active[k].service)
    && Agree(s.active)
    && (forall c, m :: (c, m) in s.inflight ==> PendingOk(s, c, m))
    && forall c :: c in s.imports ==> Followed(s, c)
  }

  /** A decision in a quiet state admits only exports whose Service agrees with every active one,
      also when the export is taken for the first and nothing is compared. */
  lemma AcceptedAgrees(s: State, e: ExportEvent, bgs: map<ClusterKey, Background>, k: ClusterKey)
    requires Inv(s) && s.inflight == {} && Observes(s, bgs) && e.clusterKey in s.imports
    requires Accepts(bgs, e) && k in s.active && k != e.clusterKey
    ensures SameSpec(e.service, s.active[k].service)
  {
    var c := e.clusterKey;
    assert Followed(s, c) && !Pending(s, c);
    assert k in s.active - {c};
    assert ServiceImportExists(bgs[c]);
    assert !FirstTime(bgs);
    assert !Conflicts(bgs, e, k);
    assert Reads(bgs[k].service, Some(s.services[k]));
  }

  /** A decision in a quiet state puts every cluster one message behind. */
  lemma AnnouncedInv(s: State, m: Message, act: map<ClusterKey, ExportEvent>, s': State)
    requires Inv(s) && s.inflight == {}
    requires s' == s.(active := act, settled := s.active, last := Some(m), inflight := ToAll(s, m))
    requires act.Keys <= s.imports.Keys && Keyed(act) && Agree(act)
    requires forall k :: k in act ==> k in s.services && s.services[k] == act[k].service
    requires forall c :: c in s.imports ==> PendingOk(s', c, m)
    ensures Inv(s')
  {
    forall c | c in s'.imports ensures Followed(s', c) {
      assert Followed(s, c) && !Pending(s, c);
      assert (c, m) in s'.inflight;
    }
  }

  lemma DecideInv(s: State, e: ExportEvent, bgs: map<ClusterKey, Background>, s': State)
    requires Inv(s) && Takes(s, Decide(e, bgs), s') && Orderly(s, Decide(e, bgs))
    ensures Inv(s')
  {
    if Accepts(bgs, e) {
      forall k | k in s.active && k != e.clusterKey ensures SameSpec(e.service, s.active[k].service) {
        AcceptedAgrees(s, e, bgs, k);
      }
      assert Agree(s'.active);
      AnnouncedInv(s, Accepted(e), s'.active, s');
    }
  }

  lemma WithdrawInv(s: State, e: ExportEvent, s': State)
    requires Inv(s) && Takes(s, Withdraw(e), s') && Orderly(s, Withdraw(e))
    ensures Inv(s')
  {
    AnnouncedInv(s, Deleted(e), s'.active, s');
  }

  lemma HandledAccept(c: ClusterKey, from: map<ClusterKey, ExportEvent>, before: Option<ServiceImport>, e: ExportEvent,
                      after: Option<ServiceImport>)
    requires Holds(c, from, before) && Upserts(c, before, e, after) && DistinctRules(e.rules)
      && NewPorts(e, e.rules) != []
    requires c != e.clusterKey ==> ImportCovered(before, e)
    ensures Holds(c, from[e.clusterKey := e], after)
    ensures c != e.clusterKey ==> ImportCovered(after, e)
  {
    if c == e.clusterKey {
      assert from[c := e] - {c} == from - {c};
    } else {
      UpsertHolds(c, from, before, e, after);
    }
  }

  lemma HandledDelete(c: ClusterKey, from: map<ClusterKey, ExportEvent>, before: Option<ServiceImport>, e: ExportEvent)
    requires Holds(c, from, before) && (c != e.clusterKey ==> ImportCovered(before, e))
    ensures Holds(c, from - {e.clusterKey}, Deletion(c, before, e))
    ensures c != e.clusterKey ==> ImportCovered(Deletion(c, before, e), e)
  {
    if c == e.clusterKey {
      assert from - {c} - {c} == from - {c};
    } else {
      DeletionHolds(c, from, before, e);
    }
  }

  /** Handling a message, however often, brings the import to what the active exports say. */
  lemma HandledHolds(s: State, c: ClusterKey, m: Message, after: Option<ServiceImport>)
    requires Inv(s) && (c, m) in s.inflight && Handles(c, s.imports[c], m, after)
    ensures Holds(c, s.active, after)
    ensures c != m.event.clusterKey ==> ImportCovered(after, m.event)
  {
    assert PendingOk(s, c, m) && Followed(s, c);
    match m {
      case Accepted(e) => AcceptBringsActive(c, s.settled, s.active, s.imports[c], e, after);
      case Deleted(e) => DeleteBringsActive(c, s.settled, s.active, s.imports[c], e);
    }
  }

  lemma AcceptBringsActive(c: ClusterKey, settled: map<ClusterKey, ExportEvent>, act: map<ClusterKey, ExportEvent>,
                           before: Option<ServiceImport>, e: ExportEvent, after: Option<ServiceImport>)
    requires act == settled[e.clusterKey := e] && (Holds(c, act, before) || Holds(c, settled, before))
    requires Upserts(c, before, e, after) && DistinctRules(e.rules) && NewPorts(e, e.rules) != []
    requires c != e.clusterKey ==> ImportCovered(before, e)
    ensures Holds(c, act, after) && (c != e.clusterKey ==> ImportCovered(after, e))
  {
    assert act[e.clusterKey := e] == act;
    HandledAccept(c, if Holds(c, act, before) then act else settled, before, e, after);
  }

  lemma DeleteBringsActive(c: ClusterKey, settled: map<ClusterKey, ExportEvent>, act: map<ClusterKey, ExportEvent>,
                           before: Option<ServiceImport>, e: ExportEvent)
    requires act == settled - {e.clusterKey} && (Holds(c, act, before) || Holds(c, settled, before))
    requires c != e.clusterKey ==> ImportCovered(before, e)
    ensures Holds(c, act, Deletion(c, before, e))
    ensures c != e.clusterKey ==> ImportCovered(Deletion(c, before, e), e)
  {
    assert act - {e.clusterKey} == act;
    HandledDelete(c, if Holds(c, act, before) then act else settled, before, e);
  }

  lemma HandleInv(s: State, c: ClusterKey, m: Message, retried: bool, s': State)
    requires Inv(s) && Takes(s, Handle(c, m, retried), s')
    ensures Inv(s')
  {
    HandledHolds(s, c, m, s'.imports[c]);
    UntouchedInv(s, c, s');
  }

  lemma CreateInv(s: State, c: ClusterKey, m: Message, s': State)
    requires Inv(s) && Takes(s, CreateOnly(c, m), s')
    ensures Inv(s')
  {
    var e := m.event;
    assert PendingOk(s, c, m) && Followed(s, c);
    assert e.clusterKey in s.active - {c};
    assert s.active - {c} == map[e.clusterKey := e];
    NewImportHolds(c, s.active, e);
    UntouchedInv(s, c, s');
  }

  /** Replacing one import by what the active exports say keeps the invariant. */
  lemma UntouchedInv(s: State, c: ClusterKey, s': State)
    requires Inv(s) && c in s.imports && c in s'.imports && s'.inflight <= s.inflight
    requires forall d, m :: (d, m) in s.inflight && (d, m) !in s'.inflight ==> d == c
    requires s' == s.(imports := s.imports[c := s'.imports[c]], inflight := s'.inflight)
    requires Holds(c, s.active, s'.imports[c])
    requires forall m :: (c, m) in s.inflight && c != m.event.clusterKey ==> ImportCovered(s'.imports[c], m.event)
    ensures Inv(s')
  {
    forall d | d in s'.imports ensures Followed(s', d) {
      if d != c {
        assert Followed(s, d);
        if Pending(s, d) {
          var m :| (d, m) in s.inflight;
          assert (d, m) in s'.inflight;
        }
      }
    }
    forall d, m | (d, m) in s'.inflight ensures PendingOk(s', d, m) {
      assert PendingOk(s, d, m);
    }
  }

  lemma StepInv(s: State, step: Step, s': State)
    requires Inv(s) && Takes(s, step, s') && Orderly(s, step)
    ensures Inv(s')
  {
    match step
    case Decide(e, bgs) => DecideInv(s, e, bgs, s');
    case Withdraw(e) => WithdrawInv(s, e, s');
    case Handle(c, m, retried) => HandleInv(s, c, m, retried, s');
    case CreateOnly(c, m) => CreateInv(s, c, m, s');
    case SetService(c, _) =>
      forall d | d in s'.imports ensures Followed(s', d) {
        assert Followed(s, d);
        assert Pending(s, d) <==> Pending(s', d);
      }
      forall d, m | (d, m) in s'.inflight ensures PendingOk(s', d, m) {
        assert PendingOk(s, d, m);
      }
  }

  lemma {:induction false} InvAt(r: Run, i: nat)
    requires OrderlyUpTo(r, i)
    ensures Inv(r.states[i])
  {
    if i == 0 {
      forall c | c in r.states[0].imports ensures Followed(r.states[0], c) {
        assert r.states[0].active - {c} == map[];
      }
    } else {
      InvAt(r, i - 1);
      StepInv(r.states[i - 1], r.steps[i - 1], r.states[i]);
    }
  }

  // ------------------------------------------------------------------ theorems

  /** The endpoint is the export's: its cluster, its gateway, and the path of its rule for the port. */
  ghost predicate PointsTo(ep: Endpoint, e: ExportEvent, port: int) {
    && ep.clusterKey == e.clusterKey
    && ep.target.host == e.gateway.host && ep.target.ip == e.gateway.ip && ep.target.port == e.gateway.port
    && exists r :: r in e.rules && r.portNumber == port && r.path == ep.target.path
  }

  /** Every port lists the exporters once each. */
  ghost predicate ListsExactly(p: ImportPort, c: ClusterKey, act: map<ClusterKey, ExportEvent>) {
    && |p.endpoints| == |act.Keys - {c}|
    && (forall k :: k in act && k != c ==> exists ep :: ep in p.endpoints && PointsTo(ep, act[k], p.header.port))
    && forall ep :: ep in p.endpoints ==>
      ep.clusterKey in act && ep.clusterKey != c && PointsTo(ep, act[ep.clusterKey], p.header.port)
  }

  lemma PortHoldsLists(p: ImportPort, c: ClusterKey, act: map<ClusterKey, ExportEvent>)
    requires PortHolds(p, act - {c}) && Keyed(act)
    ensures ListsExactly(p, c, act)
  {
    EndpointMapKeys(p.endpoints);
    EndpointCount(p.endpoints);
    assert (act - {c}).Keys == act.Keys - {c};
    forall k | k in act && k != c
      ensures EndpointMap(p.endpoints)[k] in p.endpoints && PointsTo(EndpointMap(p.endpoints)[k], act[k], p.header.port)
    {
      assert k in act - {c};
      LastRuleMatches(act[k].rules, p.header.port);
    }
  }

  /** Whole-run refinement: once a cluster has handled its messages, its import exists exactly when
      another cluster has an active export, and every port lists exactly those exporters. */
  lemma ImportsFollowExports(r: Run, i: nat, c: ClusterKey)
    requires OrderlyUpTo(r, i)
    requires c in r.states[i].imports && !Pending(r.states[i], c)
    ensures var s := r.states[i]; var imp := s.imports[c];
      && (imp.Some? <==> exists k :: k in s.active && k != c)
      && (imp.Some? ==> imp.value.ports != [] && forall p :: p in imp.value.ports ==> ListsExactly(p, c, s.active))
  {
    InvAt(r, i);
    var s := r.states[i];
    assert Followed(s, c);
    if k :| k in s.active && k != c {
      assert k in s.active - {c};
    }
    if s.imports[c].Some? {
      forall p | p in s.imports[c].value.ports ensures ListsExactly(p, c, s.active) {
        PortHoldsLists(p, c, s.active);
      }
      NonEmptyKey(s.active - {c});
    }
  }

  lemma NonEmptyKey<K, V>(m: map<K, V>)
    requires m != map[]
    ensures exists k :: k in m
  {
    assert m.Keys != {};
  }

  lemma {:induction false} EndpointCount(eps: seq<Endpoint>)
    requires DistinctKeys(eps)
    ensures |EndpointMap(eps).Keys| == |eps|
  {
    if eps != [] {
      var front, last := eps[..|eps| - 1], eps[|eps| - 1];
      EndpointCount(front);
      EndpointMapKeys(front);
      assert EndpointMap(eps).Keys == EndpointMap(front).Keys + {last.clusterKey};
    }
  }

  // ------------------------------------------------------------- service accounts

  /** The service account that a step gives the import of cluster `c`, if it gives one. */
  function AccountSet(step: Step, c: ClusterKey): Option<string> {
    match step
    case Handle(d, Accepted(e), _) => if d == c && e.clusterKey != c then Some(e.serviceAccount) else None
    case CreateOnly(d, m) => if d == c then Some(m.event.serviceAccount) else None
    case _ => None
  }

  /** The account of the last export that cluster `c` handled. */
  function LastAccount(steps: seq<Step>, c: ClusterKey): Option<string> {
    if steps == [] then None else
    var given := AccountSet(steps[|steps| - 1], c);
    if given.Some? then given else LastAccount(steps[..|steps| - 1], c)
  }

  /** In every run, the service account of an import is that of the last export handled there: withdrawals,
      retries and decisions do not change it. */
  lemma {:induction false} AccountFollowsLastExport(r: Run, i: nat, c: ClusterKey)
    requires IsRun(r) && i < |r.states| && c in r.states[i].imports && r.states[i].imports[c].Some?
    ensures LastAccount(r.steps[..i], c) == Some(r.states[i].imports[c].value.serviceAccount)
    ensures !r.states[i].imports[c].value.terminating
  {
    if i > 0 {
      var s, step := r.states[i - 1], r.steps[i - 1];
      assert Takes(s, step, r.states[i]) && r.steps[..i][..i - 1] == r.steps[..i - 1];
      if s.imports[c].Some? { AccountFollowsLastExport(r, i - 1, c); }
      if step.Handle? && step.cluster == c { HandledAccount(c, s.imports[c], step.msg, r.states[i].imports[c]); }
    }
  }

  lemma HandledAccount(c: ClusterKey, before: Option<ServiceImport>, m: Message, after: Option<ServiceImport>)
    requires Handles(c, before, m, after) && after.Some? && (before.Some? ==> !before.value.terminating)
    ensures !after.value.terminating
    ensures m.Accepted? && m.event.clusterKey != c ==> after.value.serviceAccount == m.event.serviceAccount
    ensures !(m.Accepted? && m.event.clusterKey != c) ==>
      before.Some? && after.value.serviceAccount == before.value.serviceAccount
  {
    if m.Deleted? { DeletionKeepsRest(c, before, m.event); }
  }

  // ------------------------------------------------------------- conflict safety

  /** Services stay as they are while exported. */
  ghost predicate KeepsServices(s: State, step: Step) {
    step.SetService? ==> step.cluster !in s.active
  }

  /** The active exports are of clusters of the set and of the Services these have. */
  ghost predicate Tracked(s: State) {
    forall k :: k in s.active ==> k in s.imports && k in s.services && s.services[k] == s.active[k].service
  }

  /** The export is taken for the first, and nothing compared, although it conflicts with an active one. */
  ghost predicate WronglyFirst(s: State, step: Step) {
    step.Decide? && FirstTime(step.bgs) && exists k :: ConflictsWith(s, step.event, k)
  }

  ghost predicate ConflictsWith(s: State, e: ExportEvent, k: ClusterKey) {
    && k in s.active && k != e.clusterKey
    && (e.service.kind != s.active[k].service.kind || e.service.ports != s.active[k].service.ports)
  }

  /** An export that is compared agrees with every active one, however many messages are in flight. */
  lemma ComparedAgrees(s: State, e: ExportEvent, bgs: map<ClusterKey, Background>, k: ClusterKey)
    requires Tracked(s) && Observes(s, bgs) && Accepts(bgs, e) && !FirstTime(bgs)
    requires k in s.active && k != e.clusterKey
    ensures SameSpec(e.service, s.active[k].service)
  {
    assert !Conflicts(bgs, e, k);
    assert Reads(bgs[k].service, Some(s.services[k]));
  }

  lemma TrackedStep(s: State, step: Step, s': State)
    requires Tracked(s) && Takes(s, step, s') && KeepsServices(s, step)
    ensures Tracked(s')
  {
  }

  lemma AddedAgrees(act: map<ClusterKey, ExportEvent>, e: ExportEvent)
    requires Agree(act) && forall k :: k in act && k != e.clusterKey ==> SameSpec(e.service, act[k].service)
    ensures Agree(act[e.clusterKey := e])
  {
  }

  /** For every step, whatever is in flight and whatever the rules: agreement is lost exactly by an export
      wrongly taken for the first. */
  lemma StepAgreesIff(s: State, step: Step, s': State)
    requires Tracked(s) && Agree(s.active) && Takes(s, step, s') && KeepsServices(s, step)
    ensures Tracked(s') && (Agree(s'.active) <==> !WronglyFirst(s, step))
  {
    TrackedStep(s, step, s');
    if step.Decide? && Accepts(step.bgs, step.event) {
      var e := step.event;
      assert s'.active == s.active[e.clusterKey := e];
      if WronglyFirst(s, step) {
        var k :| ConflictsWith(s, e, k);
        assert s'.active[k] == s.active[k] && s'.active[e.clusterKey] == e;
      } else {
        forall k | k in s.active && k != e.clusterKey ensures SameSpec(e.service, s.active[k].service) {
          assert !ConflictsWith(s, e, k) || !FirstTime(step.bgs);
          if !FirstTime(step.bgs) { ComparedAgrees(s, e, step.bgs, k); }
        }
        AddedAgrees(s.active, e);
      }
    }
  }

  ghost predicate NoneWronglyFirst(r: Run, n: nat)
    requires n <= |r.steps| < |r.states|
  {
    forall i :: 0 <= i < n ==> !WronglyFirst(r.states[i], r.steps[i])
  }

  lemma {:induction false} AgreesUpTo(r: Run, n: nat)
    requires IsRun(r) && n <= |r.steps| && forall i :: 0 <= i < n ==> KeepsServices(r.states[i], r.steps[i])
    requires NoneWronglyFirst(r, n)
    ensures Tracked(r.states[n]) && Agree(r.states[n].active)
  {
    if n > 0 {
      AgreesUpTo(r, n - 1);
      StepAgreesIff(r.states[n - 1], r.steps[n - 1], r.states[n]);
    }
  }

  lemma {:induction false} TrackedAt(r: Run, n: nat)
    requires IsRun(r) && n <= |r.steps| && forall i :: 0 <= i < n ==> KeepsServices(r.states[i], r.steps[i])
    ensures Tracked(r.states[n])
  {
    if n > 0 {
      TrackedAt(r, n - 1);
      TrackedStep(r.states[n - 1], r.steps[n - 1], r.states[n]);
    }
  }

  /** Conflict safety, exactly: in every run, with any decisions and messages in flight and any rules, all
      exports active together have Services of one type with the same ports up to some moment if and only if
      no export was wrongly taken for the first before it. */
  lemma AlwaysAgreeIff(r: Run, n: nat)
    requires IsRun(r) && n <= |r.steps| && forall i :: 0 <= i < n ==> KeepsServices(r.states[i], r.steps[i])
    ensures (forall i :: 0 <= i <= n ==> Agree(r.states[i].active)) <==> NoneWronglyFirst(r, n)
  {
    if NoneWronglyFirst(r, n) {
      forall i | 0 <= i <= n ensures Agree(r.states[i].active) { AgreesUpTo(r, i); }
    }
    if forall i :: 0 <= i <= n ==> Agree(r.states[i].active) {
      forall i | 0 <= i < n ensures !WronglyFirst(r.states[i], r.steps[i]) {
        TrackedAt(r, i);
        assert Agree(r.states[i + 1].active);
        StepAgreesIff(r.states[i], r.steps[i], r.states[i + 1]);
      }
    }
  }

  /** With one decision delivered at a time and covering rules no export is wrongly taken for the first. */
  lemma OrderlyNeverWronglyFirst(r: Run, n: nat)
    requires OrderlyUpTo(r, n)
    ensures NoneWronglyFirst(r, n)
  {
    forall i | 0 <= i < n ensures !WronglyFirst(r.states[i], r.steps[i]) {
      var s, step := r.states[i], r.steps[i];
      assert Takes(s, step, r.states[i + 1]) && Orderly(s, step);
      if step.Decide? && FirstTime(step.bgs) {
        InvAt(r, i);
        forall k | k in s.active && k != step.event.clusterKey ensures !ConflictsWith(s, step.event, k) {
          AcceptedAgrees(s, step.event, step.bgs, k);
        }
      }
    }
  }

  /** So at every moment of such a run all active exports agree, although the first one is accepted unseen. */
  lemma ActiveExportsAgree(r: Run, i: nat, j: ClusterKey, k: ClusterKey)
    requires OrderlyUpTo(r, i) && j in r.states[i].active && k in r.states[i].active
    ensures r.states[i].active[j].service.kind == r.states[i].active[k].service.kind
    ensures r.states[i].active[j].service.ports == r.states[i].active[k].service.ports
  {
    OrderlyNeverWronglyFirst(r, i);
    forall x | 0 <= x < i ensures KeepsServices(r.states[x], r.steps[x]) {
      assert Orderly(r.states[x], r.steps[x]);
    }
    AgreesUpTo(r, i);
  }
}
