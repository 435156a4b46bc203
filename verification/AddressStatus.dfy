/** The address status of a load-balanced Service (controllers/servicelb/service_controller.go) and the
    comparison it rests on (pkg/util/slice.go).  Telling an IPv4 address from other text is a library call
    and a parameter; it is false of the empty text. */
module AddressStatus {
  import opened Bags
  import F = Finalizers

  datatype Condition = Condition(kind: string, status: string)

  datatype Pod = Pod(nodeName: string, podIP: string, conditions: seq<Condition>)

  datatype AddressKind = ExternalIP | InternalIP | OtherAddress

  datatype NodeAddress = NodeAddress(kind: AddressKind, address: string)

  datatype NodeRead = NodeFound(addresses: seq<NodeAddress>) | NodeMissing | NodeFailed

  type Nodes = string -> NodeRead

  datatype Policy = SingleStack | OtherPolicy

  const FINALIZER := "servicelb.flomesh.io/daemonset"

  datatype Service = Service(ingress: seq<string>, policy: Policy, families: seq<string>, finalizers: seq<string>)

  datatype Expected = IPs(ips: seq<string>) | ReadError | UnhandledPolicy | NoFamilyCrash

  // --------------------------------------------------------------------- sorting

  /** Byte order on text, shorter first among prefixes. */
  predicate Leq(a: string, b: string) {
    a == [] || (b != [] && (a[0] < b[0] || (a[0] == b[0] && Leq(a[1..], b[1..]))))
  }

  lemma {:induction false} LeqTotal(a: string, b: string)
    ensures Leq(a, b) || Leq(b, a)
  {
    if a != [] && b != [] && a[0] == b[0] { LeqTotal(a[1..], b[1..]); }
  }

  lemma {:induction false} LeqAntisymmetric(a: string, b: string)
    requires Leq(a, b) && Leq(b, a)
    ensures a == b
  {
    if a != [] {
      LeqAntisymmetric(a[1..], b[1..]);
      assert a == [a[0]] + a[1..] && b == [b[0]] + b[1..];
    }
  }

  lemma {:induction false} LeqTransitive(a: string, b: string, c: string)
    requires Leq(a, b) && Leq(b, c)
    ensures Leq(a, c)
  {
    if a != [] && a[0] == b[0] && b[0] == c[0] { LeqTransitive(a[1..], b[1..], c[1..]); }
  }

  ghost predicate Sorted(s: seq<string>) {
    forall i, j :: 0 <= i < j < |s| ==> Leq(s[i], s[j])
  }

  function Insert(x: string, s: seq<string>): seq<string> {
    if s == [] then [x] else if Leq(x, s[0]) then [x] + s else [s[0]] + Insert(x, s[1..])
  }

  function Sort(s: seq<string>): seq<string> {
    if s == [] then [] else Insert(s[0], Sort(s[1..]))
  }

  lemma {:induction false} InsertBag(x: string, s: seq<string>)
    ensures multiset(Insert(x, s)) == multiset(s) + multiset{x}
  {
    if s != [] {
      assert s == [s[0]] + s[1..];
      if !Leq(x, s[0]) { InsertBag(x, s[1..]); }
    }
  }

  lemma {:induction false} InsertSorts(x: string, s: seq<string>)
    requires Sorted(s)
    ensures Sorted(Insert(x, s))
  {
    if s != [] {
      if Leq(x, s[0]) {
        forall i | 0 <= i < |s| ensures Leq(x, s[i]) {
          if i > 0 { LeqTransitive(x, s[0], s[i]); }
        }
      } else {
        LeqTotal(x, s[0]);
        InsertSorts(x, s[1..]);
        InsertBag(x, s[1..]);
        var t := Insert(x, s[1..]);
        forall i | 0 <= i < |t| ensures Leq(s[0], t[i]) {
          assert t[i] in multiset(t);
          assert t[i] == x || t[i] in s[1..];
        }
      }
    }
  }

  lemma {:induction false} SortSorts(s: seq<string>)
    ensures Sorted(Sort(s)) && multiset(Sort(s)) == multiset(s)
  {
    if s != [] {
      SortSorts(s[1..]);
      InsertSorts(s[0], Sort(s[1..]));
      InsertBag(s[0], Sort(s[1..]));
      assert s == [s[0]] + s[1..];
    }
  }

  lemma SortedHead(a: seq<string>, b: seq<string>)
    requires Sorted(a) && a != [] && b != [] && multiset(a) == multiset(b)
    ensures Leq(a[0], b[0])
  {
    assert b[0] in multiset(a);
    var j :| 0 <= j < |a| && a[j] == b[0];
    LeqReflexive(a[0]);
  }

  lemma TailBag(a: seq<string>)
    requires a != []
    ensures multiset(a) == multiset(a[1..]) + multiset{a[0]}
  {
    assert a == [a[0]] + a[1..];
  }

  /** There is one sorted sequence per bag, so how a map was enumerated does not matter. */
  lemma {:induction false} SortedUnique(a: seq<string>, b: seq<string>)
    requires Sorted(a) && Sorted(b) && multiset(a) == multiset(b)
    ensures a == b
  {
    assert |a| == |multiset(a)| == |multiset(b)| == |b|;
    if a != [] {
      SortedHead(a, b);
      SortedHead(b, a);
      LeqAntisymmetric(a[0], b[0]);
      TailBag(a);
      TailBag(b);
      Cancel(multiset(a[1..]), multiset(b[1..]), multiset{a[0]});
      SortedUnique(a[1..], b[1..]);
    }
  }

  lemma {:induction false} LeqReflexive(a: string)
    ensures Leq(a, a)
  {
    if a != [] { LeqReflexive(a[1..]); }
  }

  // ------------------------------------------------------- which addresses to publish

  method IsPodReady(conditions: seq<Condition>) returns (ready: bool)
    ensures ready <==> Ready(conditions)
  {
    for i := 0 to |conditions|
      invariant Ready(conditions) <==> Ready(conditions[i..])
    {
      assert conditions[i..][1..] == conditions[i + 1..];
      if conditions[i].kind == "Ready" {
        return conditions[i].status == "True";
      }
    }
    return false;
  }

  /** The first Ready condition decides. */
  predicate Ready(conditions: seq<Condition>) {
    conditions != [] && if conditions[0].kind == "Ready" then conditions[0].status == "True" else Ready(conditions[1..])
  }

  predicate Usable(p: Pod) {
    p.nodeName != "" && p.podIP != "" && Ready(p.conditions)
  }

  /** The addresses of one kind on the nodes of the usable pods. */
  ghost function NodeIPs(nodes: Nodes, pods: seq<Pod>, kind: AddressKind): set<string> {
    set p, a | p in pods && Usable(p) && nodes(p.nodeName).NodeFound? && a in nodes(p.nodeName).addresses
      && a.kind == kind :: a.address
  }

  /** External addresses if there is any, else internal ones; of these, the IPv4 ones. */
  ghost function ExpectedSet(isIPv4: string -> bool, nodes: Nodes, pods: seq<Pod>): set<string> {
    var ext := NodeIPs(nodes, pods, ExternalIP);
    set a | a in (if ext != {} then ext else NodeIPs(nodes, pods, InternalIP)) && isIPv4(a)
  }

  ghost predicate ReadFails(nodes: Nodes, pods: seq<Pod>) {
    exists p :: p in pods && Usable(p) && nodes(p.nodeName).NodeFailed?
  }

  /** The first condition of kind Ready. */
  ghost predicate FirstReady(conditions: seq<Condition>, i: int) {
    && 0 <= i < |conditions| && conditions[i].kind == "Ready"
    && forall j :: 0 <= j < i ==> conditions[j].kind != "Ready"
  }

  lemma {:induction false} ReadyIff(conditions: seq<Condition>)
    ensures Ready(conditions) <==> exists i :: FirstReady(conditions, i) && conditions[i].status == "True"
  {
    if conditions != [] {
      var rest := conditions[1..];
      if conditions[0].kind == "Ready" {
        assert FirstReady(conditions, 0);
      } else {
        ReadyIff(rest);
        assert forall i :: 0 < i < |conditions| ==> conditions[i] == rest[i - 1];
        forall i ensures FirstReady(rest, i) <==> FirstReady(conditions, i + 1) {
          assert forall j :: 0 <= j < |rest| ==> rest[j] == conditions[j + 1];
        }
        if i :| FirstReady(conditions, i) { assert FirstReady(rest, i - 1); }
      }
    }
  }

  /** A ready pod with an address runs on a node that has that address. */
  ghost predicate OnNode(nodes: Nodes, pods: seq<Pod>, kind: AddressKind, address: string) {
    exists p, a ::
      && p in pods && p.nodeName != "" && p.podIP != "" && Ready(p.conditions)
      && nodes(p.nodeName).NodeFound? && a in nodes(p.nodeName).addresses
      && a.kind == kind && a.address == address
  }

  /** The addresses to publish are the external IPv4 ones of these nodes or, only if there is no external address
      at all, the internal ones. */
  lemma ExpectedIff(isIPv4: string -> bool, nodes: Nodes, pods: seq<Pod>, address: string)
    ensures address in ExpectedSet(isIPv4, nodes, pods) <==>
      && isIPv4(address)
      && (|| OnNode(nodes, pods, ExternalIP, address)
          || (OnNode(nodes, pods, InternalIP, address) && forall ext :: !OnNode(nodes, pods, ExternalIP, ext)))
  {
    forall kind, a ensures a in NodeIPs(nodes, pods, kind) <==> OnNode(nodes, pods, kind, a) { }
    var ext := NodeIPs(nodes, pods, ExternalIP);
    assert ext != {} <==> exists a :: a in ext;
  }

  method Keys(of: set<string>) returns (out: seq<string>)
    ensures Enumerates(out, of)
  {
    out := [];
    var rest := of;
    while rest != {}
      invariant rest <= of && Enumerates(out, of - rest)
      decreases rest
    {
      var a :| a in rest;
      out, rest := out + [a], rest - {a};
    }
  }

  method AddressesOf(addresses: seq<NodeAddress>, ext: set<string>, internal: set<string>)
    returns (ext': set<string>, internal': set<string>)
    ensures ext' == ext + set a | a in addresses && a.kind == ExternalIP :: a.address
    ensures internal' == internal + set a | a in addresses && a.kind == InternalIP :: a.address
  {
    ext', internal' := ext, internal;
    for i := 0 to |addresses|
      invariant ext' == ext + set a | a in addresses[..i] && a.kind == ExternalIP :: a.address
      invariant internal' == internal + set a | a in addresses[..i] && a.kind == InternalIP :: a.address
    {
      assert addresses[..i + 1] == addresses[..i] + [addresses[i]];
      if addresses[i].kind == ExternalIP {
        ext' := ext' + {addresses[i].address};
      } else if addresses[i].kind == InternalIP {
        internal' := internal' + {addresses[i].address};
      }
    }
    assert addresses[..|addresses|] == addresses;
  }

  ghost predicate IsExpected(isIPv4: string -> bool, nodes: Nodes, pods: seq<Pod>, svc: Service, e: Expected) {
    if ReadFails(nodes, pods) then e == ReadError
    else if svc.policy == OtherPolicy then e == UnhandledPolicy
    else if svc.families == [] then e == NoFamilyCrash
    else if svc.families[0] != "IPv4" then e == UnhandledPolicy
    else e.IPs? && Enumerates(e.ips, ExpectedSet(isIPv4, nodes, pods))
  }

  method PodIPs(isIPv4: string -> bool, nodes: Nodes, pods: seq<Pod>, svc: Service) returns (e: Expected)
    ensures IsExpected(isIPv4, nodes, pods, svc, e)
    ensures e.IPs? <==>
      !ReadFails(nodes, pods) && svc.policy == SingleStack && svc.families != [] && svc.families[0] == "IPv4"
  {
    var ext: set<string>, internal: set<string> := {}, {};
    for i := 0 to |pods|
      invariant !ReadFails(nodes, pods[..i])
      invariant ext == NodeIPs(nodes, pods[..i], ExternalIP) && internal == NodeIPs(nodes, pods[..i], InternalIP)
    {
      assert pods[..i + 1] == pods[..i] + [pods[i]];
      var pod := pods[i];
      if pod.nodeName != "" && pod.podIP != "" {
        var ready := IsPodReady(pod.conditions);
        if ready {
          var node := nodes(pod.nodeName);
          match node {
            case NodeMissing =>
            case NodeFailed => assert pod in pods; return ReadError;
            case NodeFound(addresses) => ext, internal := AddressesOf(addresses, ext, internal);
          }
        }
      }
    }
    assert pods[..|pods|] == pods;
    var ips: seq<string>;
    if |ext| > 0 {
      ips := Keys(ext);
    } else {
      ips := Keys(internal);
    }
    e := FilterByIPFamily(isIPv4, ips, svc);
    if e.IPs? {
      assert Enumerates(e.ips, ExpectedSet(isIPv4, nodes, pods));
    }
  }

  method FilterByIPFamily(isIPv4: string -> bool, ips: seq<string>, svc: Service) returns (e: Expected)
    ensures e.IPs? <==> svc.policy == SingleStack && svc.families != [] && svc.families[0] == "IPv4"
    ensures e.NoFamilyCrash? <==> svc.policy == SingleStack && svc.families == []
    ensures !e.ReadError?
    ensures e.IPs? && Distinct(ips) ==> Distinct(e.ips)
    ensures e.IPs? ==> forall a :: a in e.ips <==> a in ips && isIPv4(a)
  {
    var v4: seq<string> := [];
    for i := 0 to |ips|
      invariant forall a :: a in v4 <==> a in ips[..i] && isIPv4(a)
      invariant Distinct(ips) ==> Distinct(v4)
    {
      assert ips[..i + 1] == ips[..i] + [ips[i]];
      if isIPv4(ips[i]) {
        v4 := v4 + [ips[i]];
      }
    }
    assert ips[..|ips|] == ips;
    if svc.policy == SingleStack {
      if svc.families == [] {
        return NoFamilyCrash;
      }
      if svc.families[0] == "IPv4" {
        return IPs(v4);
      }
    }
    return UnhandledPolicy;
  }

  function NonEmpty(s: seq<string>): seq<string> {
    if s == [] then [] else NonEmpty(s[..|s| - 1]) + if s[|s| - 1] != "" then [s[|s| - 1]] else []
  }

  method ServiceIPs(svc: Service) returns (ips: seq<string>)
    ensures ips == NonEmpty(svc.ingress)
  {
    ips := [];
    for i := 0 to |svc.ingress|
      invariant ips == NonEmpty(svc.ingress[..i])
    {
      assert svc.ingress[..i + 1][..i] == svc.ingress[..i];
      if svc.ingress[i] != "" {
        ips := ips + [svc.ingress[i]];
      }
    }
    assert svc.ingress[..|svc.ingress|] == svc.ingress;
  }

  method StringsEqual(left: seq<string>, right: seq<string>) returns (equal: bool)
    ensures equal <==> left == right
  {
    if |left| != |right| {
      return false;
    }
    for i := 0 to |left|
      invariant left[..i] == right[..i]
    {
      if left[i] != right[i] {
        return false;
      }
    }
    return true;
  }

  // --------------------------------------------------------------- one reconcile

  /** Which write fails, if it is made. */
  datatype Failure = NoFailure | FinalizerFails | StatusFails

  /** `Halted` is a failed write, with the Service as it was stored by then. */
  datatype Outcome = Unchanged | Written(svc: Service) | Halted(svc: Service) | Error(why: Expected)

  /** The part of updateService for a Service the controller is responsible for. */
  method UpdateStatus(isIPv4: string -> bool, nodes: Nodes, pods: seq<Pod>, svc: Service, fails: Failure)
    returns (out: Outcome)
    ensures Reconciles(isIPv4, nodes, pods, svc, fails, out)
  {
    var existing := ServiceIPs(svc);
    var expected := PodIPs(isIPv4, nodes, pods, svc);
    if !expected.IPs? {
      return Error(expected);
    }
    var want, have := Sort(expected.ips), Sort(existing);
    var same := StringsEqual(want, have);
    if same {
      return Unchanged;
    }
    var finalizers := F.AddFinalizer(svc.finalizers, FINALIZER);
    if fails.FinalizerFails? && |finalizers| > |svc.finalizers| {
      return Halted(svc);
    }
    var kept := svc.(finalizers := finalizers);
    if fails.StatusFails? {
      return Halted(kept);
    }
    return Written(kept.(ingress := want));
  }

  function WithFinalizer(svc: Service): Service {
    if FINALIZER in svc.finalizers then svc else svc.(finalizers := svc.finalizers + [FINALIZER])
  }

  function OutcomeFor(svc: Service, e: Expected, fails: Failure): Outcome {
    if !e.IPs? then Error(e)
    else if Sort(e.ips) == Sort(NonEmpty(svc.ingress)) then Unchanged
    else if fails.FinalizerFails? && FINALIZER !in svc.finalizers then Halted(svc)
    else if fails.StatusFails? then Halted(WithFinalizer(svc))
    else Written(WithFinalizer(svc).(ingress := Sort(e.ips)))
  }

  ghost predicate Reconciles(isIPv4: string -> bool, nodes: Nodes, pods: seq<Pod>, svc: Service, fails: Failure,
                             out: Outcome) {
    exists e :: IsExpected(isIPv4, nodes, pods, svc, e) && out == OutcomeFor(svc, e, fails)
  }

  /** The status never changes on a Service that the finalizer does not hold: whatever fails, addresses other
      than before come together with it, and the other finalizers stay. */
  lemma StatusNeedsFinalizer(isIPv4: string -> bool, nodes: Nodes, pods: seq<Pod>, svc: Service, fails: Failure,
                             out: Outcome)
    requires Reconciles(isIPv4, nodes, pods, svc, fails, out) && (out.Written? || out.Halted?)
    ensures out.svc.ingress != svc.ingress ==> FINALIZER in out.svc.finalizers
    ensures F.Others(out.svc.finalizers, FINALIZER) == F.Others(svc.finalizers, FINALIZER)
    ensures F.Count(svc.finalizers, FINALIZER) <= 1 ==> F.Count(out.svc.finalizers, FINALIZER) <= 1
  {
    if FINALIZER !in svc.finalizers { F.OthersAppend(svc.finalizers, FINALIZER); }
  }

  /** Sorting any two enumerations of one set gives the same sequence. */
  lemma SortEnumerations(a: seq<string>, b: seq<string>, of: set<string>)
    requires Enumerates(a, of) && Enumerates(b, of)
    ensures Sort(a) == Sort(b)
  {
    DistinctBag(a);
    DistinctBag(b);
    assert (set x | x in a) == of == (set x | x in b);
    SortSorts(a);
    SortSorts(b);
    SortedUnique(Sort(a), Sort(b));
  }

  lemma {:induction false} DistinctBag(s: seq<string>)
    requires Distinct(s)
    ensures multiset(s) == multiset(set x | x in s)
  {
    if s != [] {
      var front, last := s[..|s| - 1], s[|s| - 1];
      DistinctBag(front);
      assert s == front + [last];
      assert (set x | x in s) == (set x | x in front) + {last};
    }
  }

  lemma {:induction false} NonEmptyAll(s: seq<string>)
    requires "" !in s
    ensures NonEmpty(s) == s
  {
    if s != [] {
      NonEmptyAll(s[..|s| - 1]);
      assert s == s[..|s| - 1] + [s[|s| - 1]];
    }
  }

  lemma {:induction false} NonEmptyCount(s: seq<string>, a: string)
    ensures multiset(NonEmpty(s))[a] == if a == "" then 0 else multiset(s)[a]
  {
    if s != [] {
      NonEmptyCount(s[..|s| - 1], a);
      assert s == s[..|s| - 1] + [s[|s| - 1]];
    }
  }

  lemma SortEqualIff(a: seq<string>, b: seq<string>)
    ensures Sort(a) == Sort(b) <==> multiset(a) == multiset(b)
  {
    SortSorts(a);
    SortSorts(b);
    if multiset(a) == multiset(b) { SortedUnique(Sort(a), Sort(b)); }
  }

  lemma SameBagIff(ips: seq<string>, want: set<string>, have: seq<string>)
    requires Enumerates(ips, want)
    ensures Sort(ips) == Sort(NonEmpty(have)) <==>
      "" !in want && forall a :: a != "" ==> multiset(have)[a] == if a in want then 1 else 0
  {
    var kept := NonEmpty(have);
    SortEqualIff(ips, kept);
    forall a ensures multiset(ips)[a] == if a in want then 1 else 0 { EnumerationCount(ips, want, a); }
    forall a ensures multiset(kept)[a] == if a == "" then 0 else multiset(have)[a] { NonEmptyCount(have, a); }
    if Sort(ips) == Sort(kept) {
      assert multiset(ips)[""] == multiset(kept)[""];
      assert forall a :: multiset(ips)[a] == multiset(kept)[a];
    } else {
      assert exists a :: multiset(ips)[a] != multiset(kept)[a];
    }
  }

  lemma EnumerationCount(ips: seq<string>, want: set<string>, a: string)
    requires Enumerates(ips, want)
    ensures multiset(ips)[a] == if a in want then 1 else 0
  {
    DistinctBag(ips);
    assert (set x | x in ips) == want;
  }

  /** Whatever the status lists, it is left alone exactly if its non-empty entries are the expected addresses, each
      once. */
  lemma UnchangedIff(isIPv4: string -> bool, nodes: Nodes, pods: seq<Pod>, svc: Service, fails: Failure, out: Outcome)
    requires Reconciles(isIPv4, nodes, pods, svc, fails, out) && !out.Error?
    ensures var want := ExpectedSet(isIPv4, nodes, pods);
      out.Unchanged? <==>
        "" !in want && forall a :: a != "" ==> multiset(svc.ingress)[a] == if a in want then 1 else 0
  {
    var e :| IsExpected(isIPv4, nodes, pods, svc, e) && out == OutcomeFor(svc, e, fails);
    SameBagIff(e.ips, ExpectedSet(isIPv4, nodes, pods), svc.ingress);
  }

  /** The outcome does not depend on how Go enumerates its maps. */
  lemma OutcomeUnique(isIPv4: string -> bool, nodes: Nodes, pods: seq<Pod>, svc: Service, fails: Failure, a: Outcome,
                      b: Outcome)
    requires Reconciles(isIPv4, nodes, pods, svc, fails, a) && Reconciles(isIPv4, nodes, pods, svc, fails, b)
    ensures a == b
  {
    forall e, d | IsExpected(isIPv4, nodes, pods, svc, e) && IsExpected(isIPv4, nodes, pods, svc, d) && e.IPs? && d.IPs?
      ensures Sort(e.ips) == Sort(d.ips)
    {
      SortEnumerations(e.ips, d.ips, ExpectedSet(isIPv4, nodes, pods));
    }
  }

  lemma SortedAgain(ips: seq<string>)
    requires "" !in ips
    ensures Sort(NonEmpty(Sort(ips))) == Sort(ips)
  {
    var t := Sort(ips);
    SortSorts(ips);
    forall x | x in t ensures x != "" {
      assert x in multiset(t);
      assert x in ips;
    }
    NonEmptyAll(t);
    SortSorts(t);
    SortedUnique(Sort(t), t);
  }

  /** Once a status was written, a second reconcile with the same pods and nodes writes nothing. */
  lemma SecondReconcileQuiet(isIPv4: string -> bool, nodes: Nodes, pods: seq<Pod>, svc: Service,
                             fails: Failure, first: Outcome, fails': Failure, second: Outcome)
    requires !isIPv4("")
    requires Reconciles(isIPv4, nodes, pods, svc, fails, first) && first.Written?
    requires Reconciles(isIPv4, nodes, pods, first.svc, fails', second)
    ensures second == Unchanged
  {
    var e :| IsExpected(isIPv4, nodes, pods, svc, e) && first == OutcomeFor(svc, e, fails);
    assert "" !in e.ips;
    SortedAgain(e.ips);
    assert IsExpected(isIPv4, nodes, pods, first.svc, e);
    OutcomeUnique(isIPv4, nodes, pods, first.svc, fails', second, Unchanged);
  }

  /** For a status of distinct, non-empty addresses, a write is attempted exactly when the published set is not
      the expected one, and unless it fails it publishes exactly the expected set. */
  lemma WriteIffSetsDiffer(isIPv4: string -> bool, nodes: Nodes, pods: seq<Pod>, svc: Service, fails: Failure,
                           out: Outcome)
    requires Distinct(svc.ingress) && "" !in svc.ingress
    requires Reconciles(isIPv4, nodes, pods, svc, fails, out) && !out.Error?
    ensures out.Unchanged? <==> (set a | a in svc.ingress) == ExpectedSet(isIPv4, nodes, pods)
    ensures fails.NoFailure? ==> !out.Halted?
    ensures out.Written? ==> Enumerates(out.svc.ingress, ExpectedSet(isIPv4, nodes, pods)) && Sorted(out.svc.ingress)
  {
    var e :| IsExpected(isIPv4, nodes, pods, svc, e) && out == OutcomeFor(svc, e, fails);
    OutcomeWrites(svc, e, fails, ExpectedSet(isIPv4, nodes, pods));
  }

  lemma OutcomeWrites(svc: Service, e: Expected, fails: Failure, want: set<string>)
    requires Distinct(svc.ingress) && "" !in svc.ingress && e.IPs? && Enumerates(e.ips, want)
    ensures OutcomeFor(svc, e, fails).Unchanged? <==> (set a | a in svc.ingress) == want
    ensures Enumerates(Sort(e.ips), want) && Sorted(Sort(e.ips))
  {
    NonEmptyAll(svc.ingress);
    SortSorts(e.ips);
    SortKeepsEnumeration(e.ips, want);
    SortEqualIffSetsEqual(e.ips, want, svc.ingress);
  }

  lemma SortEqualIffSetsEqual(a: seq<string>, of: set<string>, b: seq<string>)
    requires Enumerates(a, of) && Distinct(b)
    ensures Sort(a) == Sort(b) <==> (set x | x in b) == of
  {
    if (set x | x in b) == of {
      assert Enumerates(b, of);
      SortEnumerations(a, b, of);
    }
    if Sort(a) == Sort(b) {
      SortSorts(a);
      SortSorts(b);
      assert forall x :: x in a <==> x in multiset(a);
      assert forall x :: x in b <==> x in multiset(b);
    }
  }

  lemma TwoAt(t: seq<string>, i: nat, j: nat)
    requires i < j < |t| && t[i] == t[j]
    ensures multiset(t)[t[i]] >= 2
  {
    assert t == t[..i] + [t[i]] + t[i + 1..j] + [t[j]] + t[j + 1..];
  }

  lemma SortKeepsEnumeration(s: seq<string>, of: set<string>)
    requires Enumerates(s, of)
    ensures Enumerates(Sort(s), of)
  {
    SortSorts(s);
    DistinctBag(s);
    var t := Sort(s);
    assert forall a :: a in t <==> a in multiset(t);
    assert forall a :: a in s <==> a in multiset(s);
    forall i, j | 0 <= i < j < |t| ensures t[i] != t[j] {
      if t[i] == t[j] { TwoAt(t, i, j); }
    }
  }
}
