/** The route table of the local cache (pkg/cache/ingress.go) and its refresh when services change
    (pkg/cache/local_cache.go).  What annotations and TLS secrets add to a route is computed from the
    Ingress and the rule alone and is a parameter, as is the lookup of a Service's ports. */
module IngressCache {
  import opened Bags
  import opened Options
  import opened Names
  import opened ChangeTracking

  datatype PathType = Exact | Prefix | ImplementationSpecific

  datatype Backend = Backend(service: string, portName: string, portNumber: int)

  datatype HttpPath = HttpPath(path: string, pathType: PathType, backend: Option<Backend>)

  datatype Rule = Rule(host: string, http: Option<seq<HttpPath>>)

  datatype IngressTLS = IngressTLS(hosts: seq<string>, secretName: string)

  datatype Ingress = Ingress(
    name: NamespacedName, ingressClass: Option<string>, tls: seq<IngressTLS>, rules: seq<Rule>,
    annotations: Option<map<string, string>>)

  const PIPY_CLASS := "pipy"
  const CLASS_ANNOTATION := "kubernetes.io/ingress.class"

  /** The class an Ingress names, by annotation before field, empty when it names none. */
  function ClassOf(ing: Ingress): string {
    if CLASS_ANNOTATION in ing.annotations.GetOr(map[]) then ing.annotations.value[CLASS_ANNOTATION]
    else ing.ingressClass.GetOr("")
  }

  /** Which Ingresses are ours, when `defaultClass` is the default class of the cluster, or empty. */
  function IsValidPipyIngress(defaultClass: string): Ingress -> bool {
    (ing: Ingress) => ClassOf(ing) == PIPY_CLASS || (ClassOf(ing) == "" && defaultClass in {PIPY_CLASS, ""})
  }

  datatype RouteKey = RouteKey(backend: ServicePortName, host: string, path: string)

  datatype Certificate = Certificate(cert: string, key: string, ca: string)

  datatype Upstream = Upstream(sslName: string, sslCert: Option<Certificate>, sslVerify: bool)

  datatype Details = Details(
    rewrite: seq<string>, sticky: bool, balancer: string, upstream: Option<Upstream>,
    isTLS: bool, wildcardHost: bool, verifyClient: bool, verifyDepth: int,
    certificate: Option<Certificate>, trustedCA: Option<Certificate>)

  datatype Route = Route(host: string, path: string, backend: ServicePortName, details: Details)

  /** Building the configuration needs upstream settings of every route. */
  ghost predicate WithoutUpstream(table: map<RouteKey, Route>, k: RouteKey) {
    k in table && table[k].details.upstream.None?
  }

  datatype SvcPort = SvcPort(port: int, name: string)

  /** Library and lister answers at the time of a conversion. */
  datatype Env = Env(findService: NamespacedName -> Option<seq<SvcPort>>, enrich: (Ingress, Rule) -> Details)

  function HasSuffix(s: string, suffix: string): bool {
    |suffix| <= |s| && s[|s| - |suffix|..] == suffix
  }

  /** A prefix path is written with a trailing wildcard; other path types are not routed. */
  function HostPath(p: HttpPath): Option<string> {
    match p.pathType
    case Exact => Some(p.path)
    case Prefix =>
      if HasSuffix(p.path, "/*") then Some(p.path)
      else if HasSuffix(p.path, "/") then Some(p.path + "*")
      else Some(p.path + "/*")
    case ImplementationSpecific => None
  }

  /** A routed prefix path ends in the wildcard and differs from the given one by at most that ending;
      writing it twice changes nothing. */
  lemma HostPathNormal(p: HttpPath)
    ensures p.pathType == Exact ==> HostPath(p) == Some(p.path)
    ensures p.pathType == Prefix ==>
      && HostPath(p).Some? && HasSuffix(HostPath(p).value, "/*") && p.path <= HostPath(p).value
        && |HostPath(p).value| <= |p.path| + 2
      && HostPath(p.(path := HostPath(p).value)) == HostPath(p)
    ensures p.pathType == ImplementationSpecific ==> HostPath(p) == None
  {
    WildcardSuffix(p.path);
    if p.pathType == Prefix {
      var path := HostPath(p).value;
      WildcardSuffix(path);
      if HasSuffix(p.path, "/") { assert p.path[|p.path| - 1..][0] == '/'; }
    }
  }

  lemma WildcardSuffix(s: string)
    ensures HasSuffix(s, "/*") <==> |s| >= 2 && s[|s| - 2] == '/' && s[|s| - 1] == '*'
  {
    if |s| >= 2 {
      var t := s[|s| - 2..];
      assert t[0] == s[|s| - 2] && t[1] == s[|s| - 1];
      assert t == [t[0], t[1]];
    }
  }

  ghost predicate EndsInWildcard(s: string) {
    |s| >= 2 && s[|s| - 2] == '/' && s[|s| - 1] == '*'
  }

  /** How a path is written: as it is, or completed by as little as possible to end in the wildcard. */
  ghost predicate WrittenAs(p: HttpPath, path: string) {
    match p.pathType
    case Exact => path == p.path
    case Prefix =>
      && p.path <= path && EndsInWildcard(path)
      && forall s :: p.path <= s && EndsInWildcard(s) ==> |path| <= |s|
    case ImplementationSpecific => false
  }

  lemma HostPathCompletes(p: HttpPath)
    requires p.pathType == Prefix
    ensures HostPath(p).Some? && WrittenAs(p, HostPath(p).value)
  {
    HostPathNormal(p);
    var path := HostPath(p).value;
    WildcardSuffix(path);
    WildcardSuffix(p.path);
    SlashSuffix(p.path);
    forall s | p.path <= s && EndsInWildcard(s) ensures |path| <= |s| {
      if |s| == |p.path| { assert s == p.path; }
      if |s| == |p.path| + 1 { assert s[|s| - 2] == p.path[|p.path| - 1]; }
    }
  }

  lemma SlashSuffix(s: string)
    ensures HasSuffix(s, "/") <==> s != [] && s[|s| - 1] == '/'
  {
    if s != [] { assert s[|s| - 1..] == [s[|s| - 1]]; }
  }

  /** There is one way to write it, and that is the routed path. */
  lemma HostPathIff(p: HttpPath, path: string)
    ensures HostPath(p) == Some(path) <==> WrittenAs(p, path)
  {
    if p.pathType == Prefix {
      HostPathNormal(p);
      HostPathCompletes(p);
      var own, n := HostPath(p).value, |p.path|;
      if WrittenAs(p, path) {
        assert |own| == |path| <= n + 2;
        forall i | 0 <= i < |path| ensures own[i] == path[i] {
          if i < n { assert own[i] == p.path[i] == path[i]; }
        }
        assert own == path;
      }
    }
  }

  function PortByNumber(ports: seq<SvcPort>, number: int): Option<string> {
    if ports == [] then None
    else if ports[0].port == number then Some(ports[0].name)
    else PortByNumber(ports[1..], number)
  }

  /** A port number is resolved to the name of the first Service port that has it. */
  lemma {:induction false} PortByNumberFirst(ports: seq<SvcPort>, number: int)
    ensures PortByNumber(ports, number).None? <==> forall p :: p in ports ==> p.port != number
    ensures PortByNumber(ports, number).Some? ==>
      exists i :: FirstPort(ports, number, i) && ports[i].name == PortByNumber(ports, number).value
  {
    if ports != [] && ports[0].port != number {
      PortByNumberFirst(ports[1..], number);
      assert forall p :: p in ports <==> p == ports[0] || p in ports[1..];
      if PortByNumber(ports, number).Some? {
        var i :| FirstPort(ports[1..], number, i) && ports[1..][i].name == PortByNumber(ports[1..], number).value;
        assert forall j :: 0 < j <= i + 1 ==> ports[j] == ports[1..][j - 1];
        assert FirstPort(ports, number, i + 1);
      }
    } else if ports != [] {
      assert FirstPort(ports, number, 0);
    }
  }

  ghost predicate FirstPort(ports: seq<SvcPort>, number: int, i: int) {
    0 <= i < |ports| && ports[i].port == number && forall j :: 0 <= j < i ==> ports[j].port != number
  }

  function BackendName(env: Env, namespace: string, b: Backend): Option<ServicePortName> {
    var n := NamespacedName(namespace, b.service);
    if b.portName != "" then Some(ServicePortName(n, b.portName, "TCP"))
    else if b.portNumber > 0 then
      match env.findService(n)
      case None => None
      case Some(ports) =>
        (match PortByNumber(ports, b.portNumber)
         case None => None
         case Some(name) => Some(ServicePortName(n, name, "TCP")))
    else None
  }

  datatype Candidate = Candidate(key: RouteKey, route: Route)

  /** The route one (rule, path) pair asks for, if any. */
  function CandidateOf(env: Env, ing: Ingress, r: Rule, p: HttpPath): Option<Candidate> {
    if p.backend.None? then None else
    match BackendName(env, ing.name.namespace, p.backend.value)
    case None => None
    case Some(spn) =>
      (match HostPath(p)
       case None => None
       case Some(path) => Some(Candidate(RouteKey(spn, r.host, path), Route(r.host, path, spn, env.enrich(ing, r)))))
  }

  function PathCandidates(env: Env, ing: Ingress, r: Rule, paths: seq<HttpPath>): seq<Candidate> {
    if paths == [] then [] else
    PathCandidates(env, ing, r, paths[..|paths| - 1]) +
    match CandidateOf(env, ing, r, paths[|paths| - 1]) case None => [] case Some(c) => [c]
  }

  function RuleCandidates(env: Env, ing: Ingress, rules: seq<Rule>): seq<Candidate> {
    if rules == [] then [] else
    var r := rules[|rules| - 1];
    RuleCandidates(env, ing, rules[..|rules| - 1]) + PathCandidates(env, ing, r, r.http.GetOr([]))
  }

  /** All routes the Ingress asks for, in document order. */
  function Candidates(env: Env, ing: Ingress): seq<Candidate> {
    RuleCandidates(env, ing, ing.rules)
  }

  /** `m` binds every key to the route of the first candidate that has it. */
  ghost predicate FirstWins(m: map<RouteKey, Route>, cs: seq<Candidate>) {
    && (forall c :: c in cs ==> c.key in m)
    && forall k :: k in m ==> exists i :: FirstAt(cs, i, k) && m[k] == cs[i].route
  }

  ghost predicate FirstAt(cs: seq<Candidate>, i: int, k: RouteKey) {
    0 <= i < |cs| && cs[i].key == k && forall j :: 0 <= j < i ==> cs[j].key != k
  }

  lemma FirstWinsUnique(a: map<RouteKey, Route>, b: map<RouteKey, Route>, cs: seq<Candidate>)
    requires FirstWins(a, cs) && FirstWins(b, cs)
    ensures a == b
  {
    forall k | k in a ensures k in b && a[k] == b[k] {
      var i :| FirstAt(cs, i, k) && a[k] == cs[i].route;
      assert cs[i] in cs;
      var j :| FirstAt(cs, j, k) && b[k] == cs[j].route;
      assert i == j;
    }
    forall k | k in b ensures k in a {
      var i :| FirstAt(cs, i, k) && b[k] == cs[i].route;
      assert cs[i] in cs;
    }
  }

  lemma OnePathMore(env: Env, ing: Ingress, r: Rule, paths: seq<HttpPath>, i: nat, cs: seq<Candidate>)
    requires i < |paths|
    ensures var sofar, c := cs + PathCandidates(env, ing, r, paths[..i]), CandidateOf(env, ing, r, paths[i]);
      cs + PathCandidates(env, ing, r, paths[..i + 1]) == if c.Some? then sofar + [c.value] else sofar
  {
    var more := paths[..i + 1];
    assert more[..|more| - 1] == paths[..i] && more[|more| - 1] == paths[i];
  }

  method AddPaths(env: Env, ing: Ingress, r: Rule, m: map<RouteKey, Route>, ghost cs: seq<Candidate>)
    returns (m': map<RouteKey, Route>)
    requires FirstWins(m, cs) && r.http.Some?
    ensures FirstWins(m', cs + PathCandidates(env, ing, r, r.http.value))
  {
    m' := m;
    var paths := r.http.value;
    assert cs + PathCandidates(env, ing, r, []) == cs;
    for i := 0 to |paths|
      invariant FirstWins(m', cs + PathCandidates(env, ing, r, paths[..i]))
    {
      var c := CandidateOf(env, ing, r, paths[i]);
      OnePathMore(env, ing, r, paths, i, cs);
      if c.Some? {
        OneCandidateMore(m', cs + PathCandidates(env, ing, r, paths[..i]), c.value);
        if c.value.key !in m' {
          m' := m'[c.value.key := c.value.route];
        }
      }
    }
    assert paths[..|paths|] == paths;
  }

  lemma OneCandidateMore(m: map<RouteKey, Route>, cs: seq<Candidate>, c: Candidate)
    requires FirstWins(m, cs)
    ensures FirstWins(if c.key in m then m else m[c.key := c.route], cs + [c])
  {
    var more, m' := cs + [c], if c.key in m then m else m[c.key := c.route];
    forall k | k in m' ensures exists i :: FirstAt(more, i, k) && m'[k] == more[i].route {
      if k in m {
        var i :| FirstAt(cs, i, k) && m[k] == cs[i].route;
        assert FirstAt(more, i, k);
      } else {
        forall j | 0 <= j < |cs| ensures more[j].key != k { assert cs[j] in cs; }
        assert FirstAt(more, |cs|, k);
      }
    }
  }

  function FirstOf(cs: seq<Candidate>): map<RouteKey, Route> {
    if cs == [] then map[] else
    var m, c := FirstOf(cs[..|cs| - 1]), cs[|cs| - 1];
    if c.key in m then m else m[c.key := c.route]
  }

  lemma {:induction false} FirstOfWins(cs: seq<Candidate>)
    ensures FirstWins(FirstOf(cs), cs)
  {
    if cs != [] {
      var front, c := cs[..|cs| - 1], cs[|cs| - 1];
      var m := FirstOf(front);
      FirstOfWins(front);
      OneCandidateMore(m, front, c);
      assert front + [c] == cs;
      assert FirstOf(cs) == if c.key in m then m else m[c.key := c.route];
    }
  }

  /** The routes of an Ingress. */
  function Routes(env: Env, ing: Ingress): map<RouteKey, Route> {
    FirstOf(Candidates(env, ing))
  }

  function Contributed(env: Env, ing: Option<Ingress>): Contribution<RouteKey, Route> {
    match ing case None => None case Some(v) => Some(Routes(env, v))
  }

  lemma OneRuleMore(env: Env, ing: Ingress, rules: seq<Rule>, i: nat)
    requires i < |rules|
    ensures RuleCandidates(env, ing, rules[..i + 1]) ==
      RuleCandidates(env, ing, rules[..i]) +
      if rules[i].http.Some? then PathCandidates(env, ing, rules[i], rules[i].http.value) else []
  {
    assert rules[..i + 1][..i] == rules[..i];
  }

  method IngressToIngressMap(env: Env, ing: Option<Ingress>) returns (c: Contribution<RouteKey, Route>)
    ensures c == Contributed(env, ing)
  {
    if ing.None? {
      return None;
    }
    var m: map<RouteKey, Route> := map[];
    var rules := ing.value.rules;
    for i := 0 to |rules|
      invariant FirstWins(m, RuleCandidates(env, ing.value, rules[..i]))
    {
      OneRuleMore(env, ing.value, rules, i);
      if rules[i].http.Some? {
        m := AddPaths(env, ing.value, rules[i], m, RuleCandidates(env, ing.value, rules[..i]));
      } else {
        assert RuleCandidates(env, ing.value, rules[..i]) + [] == RuleCandidates(env, ing.value, rules[..i]);
      }
    }
    assert rules[..|rules|] == rules;
    FirstOfWins(Candidates(env, ing.value));
    FirstWinsUnique(m, Routes(env, ing.value), Candidates(env, ing.value));
    c := Some(m);
  }

  /** A route of an Ingress comes from the first (rule, path) in document order that yields its key;
      a key that several ask for goes to the earliest. */
  lemma FirstPathWins(env: Env, ing: Ingress, k: RouteKey)
    ensures k in Routes(env, ing) <==> exists c :: c in Candidates(env, ing) && c.key == k
    ensures k in Routes(env, ing) ==>
      exists i :: FirstAt(Candidates(env, ing), i, k) && Routes(env, ing)[k] == Candidates(env, ing)[i].route
  {
    var cs, m := Candidates(env, ing), Routes(env, ing);
    FirstOfWins(cs);
    if k in m {
      var i :| FirstAt(cs, i, k) && m[k] == cs[i].route;
      assert cs[i] in cs;
    }
  }

  /** Some path of some rule asks for that route. */
  ghost predicate AsksFor(env: Env, ing: Ingress, rules: seq<Rule>, c: Candidate) {
    exists r, p :: r in rules && r.http.Some? && p in r.http.value && CandidateOf(env, ing, r, p) == Some(c)
  }

  lemma {:induction false} PathCandidatesMembers(env: Env, ing: Ingress, r: Rule, paths: seq<HttpPath>, c: Candidate)
    ensures c in PathCandidates(env, ing, r, paths) <==>
      exists p :: p in paths && CandidateOf(env, ing, r, p) == Some(c)
  {
    if paths != [] {
      var front, last := paths[..|paths| - 1], paths[|paths| - 1];
      PathCandidatesMembers(env, ing, r, front, c);
      assert forall p :: p in paths <==> p in front || p == last;
    }
  }

  lemma {:induction false} RuleCandidatesMembers(env: Env, ing: Ingress, rules: seq<Rule>, c: Candidate)
    ensures c in RuleCandidates(env, ing, rules) <==> AsksFor(env, ing, rules, c)
  {
    if rules != [] {
      var front, last := rules[..|rules| - 1], rules[|rules| - 1];
      RuleCandidatesMembers(env, ing, front, c);
      PathCandidatesMembers(env, ing, last, last.http.GetOr([]), c);
      assert forall r :: r in rules <==> r in front || r == last;
    }
  }

  /** The candidates are exactly the routes that the paths of the rules ask for. */
  lemma CandidatesMembers(env: Env, ing: Ingress, c: Candidate)
    ensures c in Candidates(env, ing) <==> AsksFor(env, ing, ing.rules, c)
  {
    RuleCandidatesMembers(env, ing, ing.rules, c);
  }

  /** The name of the backend's port: given, or that of the first port of the Service with the given number. */
  ghost predicate PortNamed(env: Env, service: NamespacedName, b: Backend, port: string) {
    if b.portName != "" then port == b.portName else
    && b.portNumber > 0 && env.findService(service).Some?
    && var ports := env.findService(service).value;
       exists i :: FirstPort(ports, b.portNumber, i) && ports[i].name == port
  }

  /** The candidate is what the path of the rule asks for: its host and path, the TCP port of the Service behind
      it, and the details that the Ingress and the rule give. */
  ghost predicate Yields(env: Env, ing: Ingress, r: Rule, p: HttpPath, c: Candidate) {
    && p.backend.Some?
    && c.key.host == r.host && WrittenAs(p, c.key.path)
    && c.key.backend.namespacedName == NamespacedName(ing.name.namespace, p.backend.value.service)
    && c.key.backend.protocol == "TCP"
    && PortNamed(env, c.key.backend.namespacedName, p.backend.value, c.key.backend.port)
    && c.route.host == r.host && c.route.path == c.key.path && c.route.backend == c.key.backend
    && c.route.details == env.enrich(ing, r)
  }

  lemma BackendNameIff(env: Env, namespace: string, b: Backend, spn: ServicePortName)
    ensures BackendName(env, namespace, b) == Some(spn) <==>
      && spn.namespacedName == NamespacedName(namespace, b.service) && spn.protocol == "TCP"
      && PortNamed(env, spn.namespacedName, b, spn.port)
  {
    var n := NamespacedName(namespace, b.service);
    if b.portName == "" && b.portNumber > 0 && env.findService(n).Some? {
      var ports := env.findService(n).value;
      PortByNumberFirst(ports, b.portNumber);
      forall i, j | FirstPort(ports, b.portNumber, i) && FirstPort(ports, b.portNumber, j) ensures i == j { }
      if i :| FirstPort(ports, b.portNumber, i) { assert ports[i] in ports; }
    }
  }

  lemma CandidateIff(env: Env, ing: Ingress, r: Rule, p: HttpPath, c: Candidate)
    ensures CandidateOf(env, ing, r, p) == Some(c) <==> Yields(env, ing, r, p, c)
  {
    if p.backend.Some? {
      BackendNameIff(env, ing.name.namespace, p.backend.value, c.key.backend);
      HostPathIff(p, c.key.path);
    }
  }

  /** The routes an Ingress asks for are exactly those that a path of one of its rules yields. */
  lemma CandidatesIff(env: Env, ing: Ingress, c: Candidate)
    ensures c in Candidates(env, ing) <==>
      exists r, p :: r in ing.rules && r.http.Some? && p in r.http.value && Yields(env, ing, r, p, c)
  {
    CandidatesMembers(env, ing, c);
    forall r, p ensures CandidateOf(env, ing, r, p) == Some(c) <==> Yields(env, ing, r, p, c) {
      CandidateIff(env, ing, r, p, c);
    }
  }

  /** And they are asked for in document order, rule by rule. */
  lemma CandidatesInOrder(env: Env, ing: Ingress, a: seq<Rule>, r: Rule, paths: seq<HttpPath>, p: HttpPath)
    ensures RuleCandidates(env, ing, a + [r]) == RuleCandidates(env, ing, a) + RuleCandidates(env, ing, [r])
    ensures RuleCandidates(env, ing, [r]) == PathCandidates(env, ing, r, r.http.GetOr([]))
    ensures PathCandidates(env, ing, r, paths + [p]) ==
      PathCandidates(env, ing, r, paths) + PathCandidates(env, ing, r, [p])
    ensures |PathCandidates(env, ing, r, [p])| <= 1
  {
    assert (a + [r])[..|a|] == a && [r][..0] == [] && (paths + [p])[..|paths|] == paths && [p][..0] == [];
  }

  /** A key is routed exactly if a path of a rule yields it. */
  lemma RoutedIff(env: Env, ing: Ingress, k: RouteKey)
    ensures k in Routes(env, ing) <==> exists r, p, c ::
      r in ing.rules && r.http.Some? && p in r.http.value && Yields(env, ing, r, p, c) && c.key == k
  {
    FirstPathWins(env, ing, k);
    if c :| c in Candidates(env, ing) && c.key == k { CandidatesIff(env, ing, c); }
    if r, p, c :| r in ing.rules && r.http.Some? && p in r.http.value && Yields(env, ing, r, p, c) && c.key == k {
      CandidatesIff(env, ing, c);
    }
  }

  /** An Ingress is ours if it names the pipy class, by annotation or, without that annotation, by field; or if it
      names none and the default class is pipy or there is no default. */
  lemma OursIff(defaultClass: string, ing: Ingress)
    ensures var noted := ing.annotations.Some? && "kubernetes.io/ingress.class" in ing.annotations.value;
      && (noted ==> (IsValidPipyIngress(defaultClass)(ing) <==>
        var c := ing.annotations.value["kubernetes.io/ingress.class"];
        c == "pipy" || (c == "" && (defaultClass == "pipy" || defaultClass == ""))))
      && (!noted && ing.ingressClass.Some? ==> (IsValidPipyIngress(defaultClass)(ing) <==>
        ing.ingressClass == Some("pipy") ||
          (ing.ingressClass == Some("") && (defaultClass == "pipy" || defaultClass == ""))))
      && (!noted && ing.ingressClass.None? ==>
        (IsValidPipyIngress(defaultClass)(ing) <==> defaultClass == "pipy" || defaultClass == ""))
  {
  }

  ghost predicate Fits(c: Candidate) {
    c.route.backend == c.key.backend && c.route.host == c.key.host && c.route.path == c.key.path
      && c.key.backend.protocol == "TCP"
  }

  lemma {:induction false} PathCandidatesFit(env: Env, ing: Ingress, r: Rule, paths: seq<HttpPath>)
    ensures forall c :: c in PathCandidates(env, ing, r, paths) ==> Fits(c)
  {
    if paths != [] { PathCandidatesFit(env, ing, r, paths[..|paths| - 1]); }
  }

  lemma {:induction false} RuleCandidatesFit(env: Env, ing: Ingress, rules: seq<Rule>)
    ensures forall c :: c in RuleCandidates(env, ing, rules) ==> Fits(c)
  {
    if rules != [] {
      RuleCandidatesFit(env, ing, rules[..|rules| - 1]);
      PathCandidatesFit(env, ing, rules[|rules| - 1], rules[|rules| - 1].http.GetOr([]));
    }
  }

  /** A route says what its key says, and its backend is a TCP port. */
  lemma RoutesFitKeys(env: Env, ing: Ingress, k: RouteKey)
    requires k in Routes(env, ing)
    ensures Fits(Candidate(k, Routes(env, ing)[k]))
  {
    FirstPathWins(env, ing, k);
    RuleCandidatesFit(env, ing, ing.rules);
    var i :| FirstAt(Candidates(env, ing), i, k) && Routes(env, ing)[k] == Candidates(env, ing)[i].route;
    assert Candidates(env, ing)[i] in Candidates(env, ing);
  }

  // -------------------------------------------------------------------- refresh

  method UpdateTracker(env: Env, valid: Ingress -> bool, tracker: ChangeTracker<RouteKey, Route>,
                       previous: Option<Ingress>, current: Option<Ingress>)
    returns (pending: bool)
    requires previous.Some? && current.Some? ==> previous.value.name == current.value.name
    modifies tracker
    ensures var about := if current.Some? then current else previous;
      if about.None? || !valid(about.value) then !pending && tracker.items == old(tracker.items) else
      && tracker.items ==
        Recorded(old(tracker.items), about.value.name, Contributed(env, previous), Contributed(env, current))
      && (pending <==> tracker.items != map[])
  {
    var about := if current.Some? then current else previous;
    if about.None? || !valid(about.value) {
      return false;
    }
    var was: Contribution<RouteKey, Route> := None;
    if about.value.name !in tracker.items {
      was := IngressToIngressMap(env, previous);
    }
    var now := IngressToIngressMap(env, current);
    pending := tracker.Record(about.value.name, was, now);
  }

  ghost predicate DistinctNames(listed: seq<Ingress>) {
    forall i, j :: 0 <= i < j < |listed| ==> listed[i].name != listed[j].name
  }

  /** The pending changes once every valid listed Ingress was queued as new. */
  function QueuedAll(env: Env, valid: Ingress -> bool, listed: seq<Ingress>,
                     items: Items<RouteKey, Route>): Items<RouteKey, Route> {
    if listed == [] then items else
    var ing, before := listed[|listed| - 1], QueuedAll(env, valid, listed[..|listed| - 1], items);
    if valid(ing) then Recorded(before, ing.name, None, Some(Routes(env, ing))) else before
  }

  /** refreshIngress: queue every valid listed Ingress as new, then apply, together with whatever is pending.
      It never removes a route that no pending change names, and every such key of a listed Ingress ends up
      bound to a route of a listed one. */
  method RefreshIngress(env: Env, valid: Ingress -> bool, listed: seq<Ingress>,
                        tracker: ChangeTracker<RouteKey, Route>, routes: Table<RouteKey, Route>)
    returns (ghost order: seq<NamespacedName>)
    requires DistinctNames(listed)
    modifies tracker, routes
    ensures tracker.items == map[]
    ensures var items := QueuedAll(env, valid, listed, old(tracker.items));
      Enumerates(order, items.Keys) && routes.entries == PatchedInOrder(old(routes.entries), items, order)
    ensures forall k :: Untouched(old(tracker.items), k) ==>
      RefreshedAt(env, valid, listed, old(routes.entries), routes.entries, k)
  {
    ghost var pending := tracker.items;
    for i := 0 to |listed|
      invariant routes.entries == old(routes.entries)
      invariant tracker.items == QueuedAll(env, valid, listed[..i], pending)
    {
      assert listed[..i + 1][..i] == listed[..i];
      if valid(listed[i]) {
        var _ := UpdateTracker(env, valid, tracker, None, Some(listed[i]));
      }
    }
    assert listed[..|listed|] == listed;
    ghost var items := tracker.items;
    order := routes.ApplyUnmergeMerge(tracker);
    forall k | Untouched(pending, k)
      ensures RefreshedAt(env, valid, listed, old(routes.entries), routes.entries, k)
    {
      RefreshAt(env, valid, listed, pending, old(routes.entries), order, k);
    }
  }

  ghost predicate AskedByListed(env: Env, valid: Ingress -> bool, listed: seq<Ingress>, k: RouteKey) {
    exists ing :: ing in listed && valid(ing) && k in Routes(env, ing)
  }

  /** The route at `k` is one that a listed, valid Ingress asks for. */
  ghost predicate FromListed(env: Env, valid: Ingress -> bool, listed: seq<Ingress>, k: RouteKey, route: Route) {
    exists ing :: ing in listed && valid(ing) && k in Routes(env, ing) && Routes(env, ing)[k] == route
  }

  /** The route is not removed; a key that a listed Ingress asks for gets the route of a listed one. */
  ghost predicate RefreshedAt(env: Env, valid: Ingress -> bool, listed: seq<Ingress>,
                              before: map<RouteKey, Route>, after: map<RouteKey, Route>, k: RouteKey) {
    && (k in after <==> k in before || AskedByListed(env, valid, listed, k))
    && (k in after ==>
      if AskedByListed(env, valid, listed, k)
      then FromListed(env, valid, listed, k, after[k])
      else after[k] == before[k])
  }

  /** No pending change names the key. */
  ghost predicate Untouched<K, V>(items: Items<K, V>, k: K) {
    forall n :: n in items ==> k !in Entries(items[n].previous) && k !in Entries(items[n].current)
  }

  /** What queueing does at one key that was untouched: exactly the listed Ingresses ask for it. */
  ghost predicate QueuedAt(env: Env, valid: Ingress -> bool, listed: seq<Ingress>, items: Items<RouteKey, Route>,
                           k: RouteKey) {
    && (forall n :: n in items ==> k !in Entries(items[n].previous))
    && (forall ing :: ing in listed && valid(ing) && k in Routes(env, ing) ==>
      ing.name in items && items[ing.name].current == Some(Routes(env, ing)))
    && forall n :: n in items && k in Entries(items[n].current) ==>
      FromListed(env, valid, listed, k, Entries(items[n].current)[k])
  }

  lemma {:induction false} QueuedAllAt(env: Env, valid: Ingress -> bool, listed: seq<Ingress>,
                                       items: Items<RouteKey, Route>, k: RouteKey)
    requires DistinctNames(listed) && Untouched(items, k)
    ensures QueuedAt(env, valid, listed, QueuedAll(env, valid, listed, items), k)
  {
    if listed != [] {
      var front, ing := listed[..|listed| - 1], listed[|listed| - 1];
      QueuedAllAt(env, valid, front, items, k);
      QueuedOneMore(env, valid, front, ing, QueuedAll(env, valid, front, items), k);
      assert front + [ing] == listed;
    }
  }

  lemma QueuedOneMore(env: Env, valid: Ingress -> bool, front: seq<Ingress>, ing: Ingress,
                      before: Items<RouteKey, Route>, k: RouteKey)
    requires DistinctNames(front + [ing]) && QueuedAt(env, valid, front, before, k)
    ensures var after := if valid(ing) then Recorded(before, ing.name, None, Some(Routes(env, ing))) else before;
      QueuedAt(env, valid, front + [ing], after, k)
  {
    var more := front + [ing];
    var after := if valid(ing) then Recorded(before, ing.name, None, Some(Routes(env, ing))) else before;
    assert forall x :: x in more <==> x in front || x == ing;
    forall x | x in front ensures x.name != ing.name {
      var i :| 0 <= i < |front| && front[i] == x;
      assert more[i] == x && more[|front|] == ing;
    }
    forall n | n in after && k in Entries(after[n].current)
      ensures FromListed(env, valid, more, k, Entries(after[n].current)[k])
    {
      if n == ing.name && valid(ing) {
        assert ing in more;
      } else {
        assert FromListed(env, valid, front, k, Entries(before[n].current)[k]);
      }
    }
  }

  lemma RefreshAt(env: Env, valid: Ingress -> bool, listed: seq<Ingress>, pending: Items<RouteKey, Route>,
                  before: map<RouteKey, Route>, order: seq<NamespacedName>, k: RouteKey)
    requires DistinctNames(listed) && Untouched(pending, k)
    requires Enumerates(order, QueuedAll(env, valid, listed, pending).Keys)
    ensures var items := QueuedAll(env, valid, listed, pending);
      RefreshedAt(env, valid, listed, before, PatchedInOrder(before, items, order), k)
  {
    var items := QueuedAll(env, valid, listed, pending);
    QueuedAllAt(env, valid, listed, pending, k);
    AddsAt(before, items, order, k);
    if AskedByListed(env, valid, listed, k) {
      var ing :| ing in listed && valid(ing) && k in Routes(env, ing);
      assert AddsAs(items, order, ing.name, k);
    }
  }

  ghost predicate AddsAs<K, V>(items: Items<K, V>, order: seq<NamespacedName>, n: NamespacedName, k: K) {
    n in order && n in items && k in Entries(items[n].current)
  }

  /** At a key that no change has as previous, changes only add or overwrite, whatever the order. */
  lemma {:induction false} AddsAt<K, V>(before: map<K, V>, items: Items<K, V>, order: seq<NamespacedName>, k: K)
    requires forall n :: n in order ==> n in items && k !in Entries(items[n].previous)
    ensures var after := PatchedInOrder(before, items, order);
      && (k in after <==> k in before || exists n :: AddsAs(items, order, n, k))
      && (k in after ==>
        if exists n :: AddsAs(items, order, n, k)
        then exists n :: AddsAs(items, order, n, k) && after[k] == Entries(items[n].current)[k]
        else after[k] == before[k])
  {
    if order != [] {
      var front, last := order[..|order| - 1], order[|order| - 1];
      AddsAt(before, items, front, k);
      var mid, after := PatchedInOrder(before, items, front), PatchedInOrder(before, items, order);
      assert after == Patched(mid, items[last]);
      assert forall n :: n in order <==> n in front || n == last;
      assert forall n :: AddsAs(items, order, n, k) <==>
        AddsAs(items, front, n, k) || (n == last && k in Entries(items[last].current));
      if k in Entries(items[last].current) {
        assert AddsAs(items, order, last, k);
      }
    }
  }
}
