/** From the route table to the published router, balancer and certificates
    (pkg/cache/local_cache.go).  Splitting an endpoint text into address and port is a library call and
    a parameter here; it fails on text without both. */
module IngressConfig {
  import opened Bags
  import opened Options
  import opened Names
  import opened CacheTypes
  import opened IngressCache

  datatype UpstreamEndpoint = UpstreamEndpoint(ip: string, port: int)

  datatype RouterSpec = RouterSpec(host: string, path: string, service: string, rewrite: seq<string>)

  datatype BalancerSpec = BalancerSpec(sticky: bool, balancer: string, upstream: Upstream,
                                       endpoints: seq<UpstreamEndpoint>)

  datatype TLSSpec = TLSSpec(
    isTLS: bool, verifyDepth: int, verifyClient: bool, certificate: Option<Certificate>, wildcardHost: bool,
    trustedCA: Option<Certificate>)

  datatype RouteSpec = RouteSpec(router: RouterSpec, balancer: BalancerSpec, tls: TLSSpec)

  type Parse = string -> Option<UpstreamEndpoint>

  type Endpoints = map<ServicePortName, seq<EndpointInfo>>

  function ParsedList(parse: Parse, eps: seq<EndpointInfo>): seq<UpstreamEndpoint> {
    if eps == [] then [] else
    ParsedList(parse, eps[..|eps| - 1]) + match parse(eps[|eps| - 1].endpoint) case None => [] case Some(u) => [u]
  }

  /** Every endpoint that parses is listed, and nothing else, */
  lemma {:induction false} ParsedMembers(parse: Parse, eps: seq<EndpointInfo>, u: UpstreamEndpoint)
    ensures u in ParsedList(parse, eps) <==> exists ep :: ep in eps && parse(ep.endpoint) == Some(u)
  {
    if eps != [] {
      var front, last := eps[..|eps| - 1], eps[|eps| - 1];
      ParsedMembers(parse, front, u);
      assert forall ep :: ep in eps <==> ep in front || ep == last;
    }
  }

  /** in the order of the endpoints, once for each. */
  lemma {:induction false} ParsedInOrder(parse: Parse, a: seq<EndpointInfo>, b: seq<EndpointInfo>)
    ensures ParsedList(parse, a + b) == ParsedList(parse, a) + ParsedList(parse, b)
  {
    if b == [] {
      assert a + b == a;
    } else {
      var u, front, last := a + b, b[..|b| - 1], b[|b| - 1];
      ParsedInOrder(parse, a, front);
      assert u[..|u| - 1] == a + front && u[|u| - 1] == last;
      var more := match parse(last.endpoint) case None => [] case Some(x) => [x];
      assert ParsedList(parse, u) == (ParsedList(parse, a) + ParsedList(parse, front)) + more;
    }
  }

  /** Where all of them parse, the list has each of them at its place. */
  lemma {:induction false} ParsedAll(parse: Parse, eps: seq<EndpointInfo>)
    requires forall ep :: ep in eps ==> parse(ep.endpoint).Some?
    ensures |ParsedList(parse, eps)| == |eps|
    ensures forall i :: 0 <= i < |eps| ==> parse(eps[i].endpoint) == Some(ParsedList(parse, eps)[i])
  {
    if eps != [] { ParsedAll(parse, eps[..|eps| - 1]); }
  }

  /** The parseable endpoints of a backend. */
  function BackendEndpoints(parse: Parse, endpoints: Endpoints, b: ServicePortName): seq<UpstreamEndpoint> {
    ParsedList(parse, if b in endpoints then endpoints[b] else [])
  }

  function SpecOf(parse: Parse, endpoints: Endpoints, r: Route): RouteSpec
    requires r.details.upstream.Some?
  {
    var d := r.details;
    RouteSpec(
      RouterSpec(r.host, r.path, String(r.backend), d.rewrite),
      BalancerSpec(d.sticky, d.balancer, d.upstream.value, BackendEndpoints(parse, endpoints, r.backend)),
      TLSSpec(d.isTLS, d.verifyDepth, d.verifyClient, d.certificate, d.wildcardHost, d.trustedCA))
  }

  method UpstreamEndpoints(parse: Parse, endpoints: Endpoints, b: ServicePortName) returns (out: seq<UpstreamEndpoint>)
    ensures out == BackendEndpoints(parse, endpoints, b)
  {
    out := [];
    var eps := if b in endpoints then endpoints[b] else [];
    for i := 0 to |eps|
      invariant out == ParsedList(parse, eps[..i])
    {
      assert eps[..i + 1][..i] == eps[..i];
      var u := parse(eps[i].endpoint);
      if u.Some? {
        out := out + [u.value];
      }
    }
    assert eps[..|eps|] == eps;
  }

  /** `s` is the spec of the route at `k`, and its backend has a parseable endpoint. */
  ghost predicate Publishes(parse: Parse, endpoints: Endpoints, table: map<RouteKey, Route>, k: RouteKey,
                            s: RouteSpec) {
    k in table && table[k].details.upstream.Some? && s == SpecOf(parse, endpoints, table[k])
      && s.balancer.endpoints != []
  }

  ghost predicate PublishedFrom(parse: Parse, endpoints: Endpoints, table: map<RouteKey, Route>, s: RouteSpec) {
    exists k :: Publishes(parse, endpoints, table, k, s)
  }

  /** The specs published for a route table are those of the routes whose backend has a parseable endpoint. */
  ghost predicate Published(parse: Parse, endpoints: Endpoints, table: map<RouteKey, Route>, routes: seq<RouteSpec>) {
    && (forall k :: k in table ==> table[k].details.upstream.Some?)
    && (forall s :: s in routes <==> PublishedFrom(parse, endpoints, table, s))
  }

  /** One spec per route, in that order, where the backend has a parseable endpoint. */
  function SpecsInOrder(parse: Parse, endpoints: Endpoints, table: map<RouteKey, Route>,
                        order: seq<RouteKey>): seq<RouteSpec>
    requires forall k :: k in order ==> k in table && table[k].details.upstream.Some?
  {
    if order == [] then [] else
    var spec := SpecOf(parse, endpoints, table[order[|order| - 1]]);
    SpecsInOrder(parse, endpoints, table, order[..|order| - 1]) + if spec.balancer.endpoints != [] then [spec] else []
  }

  /** The crash, exactly on a route without upstream settings, or the published specs. */
  ghost predicate Configures(parse: Parse, endpoints: Endpoints, table: map<RouteKey, Route>,
                             result: Option<seq<RouteSpec>>) {
    && (result.None? <==> exists k :: WithoutUpstream(table, k))
    && (result.Some? ==> Published(parse, endpoints, table, result.value))
  }

  /** buildIngressConfig: every route is visited once.  None is the crash on a route without upstream
      settings, which a route has when its Ingress has no annotations. */
  method BuildIngressConfig(parse: Parse, endpoints: Endpoints, table: map<RouteKey, Route>)
    returns (result: Option<seq<RouteSpec>>, ghost order: seq<RouteKey>)
    ensures Configures(parse, endpoints, table, result)
    ensures result.Some? ==>
      Enumerates(order, table.Keys) && result.value == SpecsInOrder(parse, endpoints, table, order)
  {
    var routes: seq<RouteSpec> := [];
    order := [];
    var rest := table.Keys;
    while rest != {}
      invariant rest <= table.Keys && Enumerates(order, table.Keys - rest)
      invariant forall k :: k in order ==> table[k].details.upstream.Some?
      invariant routes == SpecsInOrder(parse, endpoints, table, order)
      decreases rest
    {
      var k :| k in rest;
      if table[k].details.upstream.None? {
        assert WithoutUpstream(table, k);
        return None, order;
      }
      var eps := UpstreamEndpoints(parse, endpoints, table[k].backend);
      var spec := SpecOf(parse, endpoints, table[k]);
      if |eps| > 0 {
        routes := routes + [spec];
      }
      assert (order + [k])[..|order|] == order;
      order, rest := order + [k], rest - {k};
    }
    assert forall k :: k in table ==> k in order;
    InOrderPublishes(parse, endpoints, table, order);
    return Some(routes), order;
  }

  lemma {:induction false} SpecsMembers(parse: Parse, endpoints: Endpoints, table: map<RouteKey, Route>,
                                        order: seq<RouteKey>, s: RouteSpec)
    requires forall k :: k in order ==> k in table && table[k].details.upstream.Some?
    ensures s in SpecsInOrder(parse, endpoints, table, order) <==>
      exists k :: k in order && Publishes(parse, endpoints, table, k, s)
  {
    if order != [] {
      var front, last := order[..|order| - 1], order[|order| - 1];
      SpecsMembers(parse, endpoints, table, front, s);
      assert forall k :: k in order <==> k in front || k == last;
      var spec := SpecOf(parse, endpoints, table[last]);
      assert Publishes(parse, endpoints, table, last, s) <==> s == spec && spec.balancer.endpoints != [];
    }
  }

  lemma InOrderPublishes(parse: Parse, endpoints: Endpoints, table: map<RouteKey, Route>, order: seq<RouteKey>)
    requires Enumerates(order, table.Keys) && forall k :: k in table ==> table[k].details.upstream.Some?
    ensures Published(parse, endpoints, table, SpecsInOrder(parse, endpoints, table, order))
  {
    forall s ensures s in SpecsInOrder(parse, endpoints, table, order) <==> PublishedFrom(parse, endpoints, table, s) {
      SpecsMembers(parse, endpoints, table, order, s);
    }
  }

  // --------------------------------------------------------------------- batches

  function RouterKey(s: RouteSpec): string {
    s.router.host + s.router.path
  }

  function Keyed(k: string): RouteSpec -> bool { (r: RouteSpec) => RouterKey(r) == k }

  function Serving(s: string): RouteSpec -> bool { (r: RouteSpec) => r.router.service == s }

  /** The last element of the routes with that property, if any. */
  ghost predicate LastAt(routes: seq<RouteSpec>, has: RouteSpec -> bool, i: int) {
    0 <= i < |routes| && has(routes[i]) && forall j :: i < j < |routes| ==> !has(routes[j])
  }

  lemma LastAtMore(front: seq<RouteSpec>, r: RouteSpec, has: RouteSpec -> bool)
    ensures has(r) ==> LastAt(front + [r], has, |front|)
    ensures !has(r) ==> forall i :: LastAt(front, has, i) ==> LastAt(front + [r], has, i)
  {
  }

  function Router(routes: seq<RouteSpec>): map<string, RouterSpec> {
    if routes == [] then map[] else
    var r := routes[|routes| - 1];
    Router(routes[..|routes| - 1])[RouterKey(r) := r.router]
  }

  function Balancer(routes: seq<RouteSpec>): map<string, BalancerSpec> {
    if routes == [] then map[] else
    var r := routes[|routes| - 1];
    Balancer(routes[..|routes| - 1])[r.router.service := r.balancer]
  }

  function Certificates(routes: seq<RouteSpec>): map<string, TLSSpec> {
    if routes == [] then map[] else
    var m, r := Certificates(routes[..|routes| - 1]), routes[|routes| - 1];
    if r.router.host != "" && r.tls.isTLS && r.router.host !in m then m[r.router.host := r.tls] else m
  }

  /** The authorities a route brings along: of its trusted CA and of its certificate. */
  function BroughtBy(r: RouteSpec): set<string> {
    (if r.tls.trustedCA.Some? && r.tls.trustedCA.value.ca != "" then {r.tls.trustedCA.value.ca} else {}) +
    (if r.tls.certificate.Some? && r.tls.certificate.value.ca != "" then {r.tls.certificate.value.ca} else {})
  }

  /** A TLS route whose host already has a certificate entry is passed over. */
  function TrustedCAs(routes: seq<RouteSpec>): set<string> {
    if routes == [] then {} else
    var front, r := routes[..|routes| - 1], routes[|routes| - 1];
    if r.router.host != "" && r.tls.isTLS && r.router.host in Certificates(front)
    then TrustedCAs(front)
    else TrustedCAs(front) + BroughtBy(r)
  }

  method IngressBatches(routes: seq<RouteSpec>)
    returns (router: map<string, RouterSpec>, balancer: map<string, BalancerSpec>, certificates: map<string, TLSSpec>,
      trusted: seq<string>)
    ensures router == Router(routes) && balancer == Balancer(routes) && certificates == Certificates(routes)
    ensures Enumerates(trusted, TrustedCAs(routes))
  {
    router, balancer, certificates := map[], map[], map[];
    var cas: set<string> := {};
    for i := 0 to |routes|
      invariant router == Router(routes[..i]) && balancer == Balancer(routes[..i])
        && certificates == Certificates(routes[..i])
      invariant cas == TrustedCAs(routes[..i])
    {
      assert routes[..i + 1][..i] == routes[..i];
      var r := routes[i];
      router := router[RouterKey(r) := r.router];
      balancer := balancer[r.router.service := r.balancer];
      if r.router.host != "" && r.tls.isTLS {
        if r.router.host in certificates {
          continue;
        }
        certificates := certificates[r.router.host := r.tls];
      }
      cas := cas + BroughtBy(r);
    }
    assert routes[..|routes|] == routes;
    trusted := ListCAs(cas);
  }

  method ListCAs(cas: set<string>) returns (trusted: seq<string>)
    ensures Enumerates(trusted, cas)
  {
    trusted := [];
    var rest := cas;
    while rest != {}
      invariant rest <= cas && Enumerates(trusted, cas - rest)
      decreases rest
    {
      var ca :| ca in rest;
      trusted, rest := trusted + [ca], rest - {ca};
    }
  }

  /** An earlier TLS route has the host of the TLS route at `i`. */
  ghost predicate RepeatsHost(routes: seq<RouteSpec>, i: int)
    requires 0 <= i < |routes|
  {
    && routes[i].router.host != "" && routes[i].tls.isTLS
    && exists j :: 0 <= j < i && TLSFor(routes[j], routes[i].router.host)
  }

  /** The route names the authority, as its trusted CA or with its certificate. */
  ghost predicate Brings(r: RouteSpec, ca: string) {
    && ca != ""
    && ((r.tls.trustedCA.Some? && r.tls.trustedCA.value.ca == ca) ||
        (r.tls.certificate.Some? && r.tls.certificate.value.ca == ca))
  }

  ghost predicate BringsFirst(routes: seq<RouteSpec>, i: int, ca: string) {
    0 <= i < |routes| && Brings(routes[i], ca) && !RepeatsHost(routes, i)
  }

  /** An authority is published exactly when some route brings it that is not a further TLS route of its host. */
  lemma {:induction false} TrustedIff(routes: seq<RouteSpec>, ca: string)
    ensures ca in TrustedCAs(routes) <==> exists i :: BringsFirst(routes, i, ca)
  {
    if routes != [] {
      var front, last := routes[..|routes| - 1], |routes| - 1;
      TrustedIff(front, ca);
      CertificatesFirstWins(front, routes[last].router.host);
      assert forall j :: 0 <= j < last ==> routes[j] == front[j] && front[j] in front;
      assert RepeatsHost(routes, last) <==>
        routes[last].router.host != "" && routes[last].tls.isTLS && routes[last].router.host in Certificates(front);
      assert forall i :: 0 <= i < last ==> (RepeatsHost(routes, i) <==> RepeatsHost(front, i));
      assert forall i :: i != last ==> (BringsFirst(routes, i, ca) <==> BringsFirst(front, i, ca));
      assert Brings(routes[last], ca) <==> ca in BroughtBy(routes[last]);
      assert BringsFirst(routes, last, ca) <==> Brings(routes[last], ca) && !RepeatsHost(routes, last);
    }
  }

  /** So the authority of a second TLS route of a host is lost, unless another route brings it. */
  lemma RepeatedHostLosesCA(a: RouteSpec, b: RouteSpec, ca: string)
    requires a.router.host == b.router.host != "" && a.tls.isTLS && b.tls.isTLS
    requires Brings(b, ca) && !Brings(a, ca)
    ensures ca !in TrustedCAs([a, b])
  {
    var routes := [a, b];
    TrustedIff(routes, ca);
    assert TLSFor(routes[0], b.router.host) && RepeatsHost(routes, 1);
  }

  /** Router keys are exactly those of the routes, each bound to the last route that has it. */
  lemma {:induction false} RouterLastWins(routes: seq<RouteSpec>, k: string)
    ensures k in Router(routes) <==> exists r :: r in routes && RouterKey(r) == k
    ensures k in Router(routes) ==> exists i :: LastAt(routes, Keyed(k), i) && Router(routes)[k] == routes[i].router
  {
    if routes != [] {
      var front, r := routes[..|routes| - 1], routes[|routes| - 1];
      RouterLastWins(front, k);
      assert forall x :: x in routes <==> x in front || x == r;
      assert routes == front + [r];
      LastAtMore(front, r, Keyed(k));
      if RouterKey(r) == k {
        assert LastAt(routes, Keyed(k), |routes| - 1);
      } else if k in Router(front) {
        var i :| LastAt(front, Keyed(k), i) && Router(front)[k] == front[i].router;
        assert LastAt(routes, Keyed(k), i);
      }
    }
  }

  lemma {:induction false} BalancerLastWins(routes: seq<RouteSpec>, s: string)
    ensures s in Balancer(routes) <==> exists r :: r in routes && r.router.service == s
    ensures s in Balancer(routes) ==>
      exists i :: LastAt(routes, Serving(s), i) && Balancer(routes)[s] == routes[i].balancer
  {
    if routes != [] {
      var front, r := routes[..|routes| - 1], routes[|routes| - 1];
      BalancerLastWins(front, s);
      assert forall x :: x in routes <==> x in front || x == r;
      assert routes == front + [r];
      LastAtMore(front, r, Serving(s));
      if r.router.service == s {
        assert LastAt(routes, Serving(s), |routes| - 1);
      } else if s in Balancer(front) {
        var i :| LastAt(front, Serving(s), i) && Balancer(front)[s] == front[i].balancer;
        assert LastAt(routes, Serving(s), i);
      }
    }
  }

  /** A host has a certificate entry exactly when a published TLS route names it, and gets the first one. */
  lemma {:induction false} CertificatesFirstWins(routes: seq<RouteSpec>, h: string)
    ensures h in Certificates(routes) <==> h != "" && exists r :: r in routes && TLSFor(r, h)
    ensures h in Certificates(routes) ==> exists i :: FirstTLS(routes, h, i) && Certificates(routes)[h] == routes[i].tls
  {
    if routes != [] {
      var front, r := routes[..|routes| - 1], routes[|routes| - 1];
      CertificatesFirstWins(front, h);
      assert routes == front + [r];
      assert forall x :: x in routes <==> x in front || x == r;
      if h in Certificates(front) {
        var i :| FirstTLS(front, h, i) && Certificates(front)[h] == front[i].tls;
        assert FirstTLS(routes, h, i);
      } else if h in Certificates(routes) {
        assert forall j :: 0 <= j < |front| ==> front[j] in front;
        assert FirstTLS(routes, h, |front|);
      }
    }
  }

  predicate TLSFor(r: RouteSpec, h: string) {
    r.router.host == h && r.tls.isTLS
  }

  ghost predicate FirstTLS(routes: seq<RouteSpec>, h: string, i: int) {
    0 <= i < |routes| && TLSFor(routes[i], h) && forall j :: 0 <= j < i ==> !TLSFor(routes[j], h)
  }

  /** The spec says what the route says. */
  ghost predicate Says(s: RouteSpec, r: Route) {
    && s.router.host == r.host && s.router.path == r.path && s.router.service == String(r.backend)
    && s.router.rewrite == r.details.rewrite
    && s.balancer.sticky == r.details.sticky && s.balancer.balancer == r.details.balancer
    && Some(s.balancer.upstream) == r.details.upstream
    && s.tls.isTLS == r.details.isTLS && s.tls.certificate == r.details.certificate
    && s.tls.trustedCA == r.details.trustedCA && s.tls.verifyClient == r.details.verifyClient
    && s.tls.verifyDepth == r.details.verifyDepth && s.tls.wildcardHost == r.details.wildcardHost
  }

  /** The TLS settings are those of the route, which has TLS. */
  ghost predicate SecuredAs(tls: TLSSpec, r: Route) {
    && tls.isTLS && r.details.isTLS
    && tls.certificate == r.details.certificate && tls.trustedCA == r.details.trustedCA
    && tls.verifyClient == r.details.verifyClient && tls.verifyDepth == r.details.verifyDepth
    && tls.wildcardHost == r.details.wildcardHost
  }

  /** Every published spec says what a route says whose backend has a parseable endpoint, and lists these. */
  lemma SpecsSayRoutes(parse: Parse, endpoints: Endpoints, table: map<RouteKey, Route>, routes: seq<RouteSpec>,
                       s: RouteSpec)
    requires Published(parse, endpoints, table, routes)
    ensures s in routes <==>
      exists k :: k in table && Says(s, table[k])
        && s.balancer.endpoints == BackendEndpoints(parse, endpoints, table[k].backend) != []
  {
    forall k | k in table ensures Publishes(parse, endpoints, table, k, s) <==>
      Says(s, table[k]) && s.balancer.endpoints == BackendEndpoints(parse, endpoints, table[k].backend) != [] { }
    if s in routes { var k :| Publishes(parse, endpoints, table, k, s); }
  }

  /** A host's certificate entry has the TLS settings of a route of that host. */
  lemma CertificatesComeFromRoutes(parse: Parse, endpoints: Endpoints, table: map<RouteKey, Route>,
                                   routes: seq<RouteSpec>, h: string)
    requires Published(parse, endpoints, table, routes) && h in Certificates(routes)
    ensures exists k :: k in table && table[k].host == h && SecuredAs(Certificates(routes)[h], table[k])
  {
    CertificatesFirstWins(routes, h);
    var i :| FirstTLS(routes, h, i) && Certificates(routes)[h] == routes[i].tls;
    assert routes[i] in routes;
    SpecsSayRoutes(parse, endpoints, table, routes, routes[i]);
    var k :| k in table && Says(routes[i], table[k]);
    assert SecuredAs(Certificates(routes)[h], table[k]);
  }

  // ------------------------------------------------------- referential integrity

  /** Backends are TCP service ports whose names hold neither '/' nor ':', as Kubernetes names do. */
  ghost predicate PlainBackends(table: map<RouteKey, Route>) {
    forall k :: k in table ==> FreeName(table[k].backend) && table[k].backend.protocol == "TCP"
  }

  /** Every service the router names has a balancer entry; its endpoints are non-empty and are exactly the
      parseable endpoints of every routed backend of that name, although the last route to share the service
      overwrites the entry. */
  lemma RouterServicesBalanced(parse: Parse, endpoints: Endpoints, table: map<RouteKey, Route>, routes: seq<RouteSpec>,
                               rk: string, b: RouteKey)
    requires Published(parse, endpoints, table, routes) && PlainBackends(table)
    requires rk in Router(routes)
    ensures var s := Router(routes)[rk].service;
      && s in Balancer(routes)
      && Balancer(routes)[s].endpoints != []
      && (b in table && String(table[b].backend) == s ==>
        && Balancer(routes)[s].endpoints == BackendEndpoints(parse, endpoints, table[b].backend)
        && forall u :: u in Balancer(routes)[s].endpoints <==> Parseable(parse, endpoints, table[b].backend, u))
  {
    RouterLastWins(routes, rk);
    var i :| LastAt(routes, Keyed(rk), i) && Router(routes)[rk] == routes[i].router;
    var s := routes[i].router.service;
    assert routes[i] in routes;
    BalancerLastWins(routes, s);
    var j :| LastAt(routes, Serving(s), j) && Balancer(routes)[s] == routes[j].balancer;
    assert routes[j] in routes;
    var k :| Publishes(parse, endpoints, table, k, routes[j]);
    if b in table && String(table[b].backend) == s {
      StringInjective(table[b].backend, table[k].backend);
      forall u ensures u in Balancer(routes)[s].endpoints <==> Parseable(parse, endpoints, table[b].backend, u) {
        ParsedMembers(parse, if table[b].backend in endpoints then endpoints[table[b].backend] else [], u);
      }
    }
  }

  /** The upstream endpoint is the parse of one of the endpoints of the backend. */
  ghost predicate Parseable(parse: Parse, endpoints: Endpoints, b: ServicePortName, u: UpstreamEndpoint) {
    b in endpoints && exists ep :: ep in endpoints[b] && parse(ep.endpoint) == Some(u)
  }

  /** A router entry is one of the routes with that host and path: its service is that route's backend and
      its rewrite that route's; the balancer settings of a service are those of one of its routes. */
  lemma EntriesComeFromRoutes(parse: Parse, endpoints: Endpoints, table: map<RouteKey, Route>, routes: seq<RouteSpec>,
                              rk: string)
    requires Published(parse, endpoints, table, routes) && rk in Router(routes)
    ensures exists k :: k in table && table[k].host + table[k].path == rk && FromRoute(Router(routes)[rk], table[k])
    ensures var s := Router(routes)[rk].service;
      && s in Balancer(routes)
      && exists k :: k in table && String(table[k].backend) == s && BalancedAs(Balancer(routes)[s], table[k])
  {
    RouterLastWins(routes, rk);
    var i :| LastAt(routes, Keyed(rk), i) && Router(routes)[rk] == routes[i].router;
    assert routes[i] in routes;
    var k :| Publishes(parse, endpoints, table, k, routes[i]);
    assert FromRoute(Router(routes)[rk], table[k]);
    var s := routes[i].router.service;
    BalancerLastWins(routes, s);
    var j :| LastAt(routes, Serving(s), j) && Balancer(routes)[s] == routes[j].balancer;
    assert routes[j] in routes;
    var k' :| Publishes(parse, endpoints, table, k', routes[j]);
    assert BalancedAs(Balancer(routes)[s], table[k']);
  }

  ghost predicate FromRoute(r: RouterSpec, route: Route) {
    r.host == route.host && r.path == route.path && r.service == String(route.backend)
      && r.rewrite == route.details.rewrite
  }

  ghost predicate BalancedAs(b: BalancerSpec, route: Route) {
    && b.sticky == route.details.sticky && b.balancer == route.details.balancer
    && route.details.upstream == Some(b.upstream)
  }

  /** And every route whose backend has a parseable endpoint is reachable under its host and path. */
  lemma RoutesReachable(parse: Parse, endpoints: Endpoints, table: map<RouteKey, Route>, routes: seq<RouteSpec>,
                        k: RouteKey)
    requires Published(parse, endpoints, table, routes) && k in table
    requires BackendEndpoints(parse, endpoints, table[k].backend) != []
    ensures table[k].host + table[k].path in Router(routes) && String(table[k].backend) in Balancer(routes)
  {
    var spec := SpecOf(parse, endpoints, table[k]);
    assert Publishes(parse, endpoints, table, k, spec);
    RouterLastWins(routes, RouterKey(spec));
    BalancerLastWins(routes, spec.router.service);
  }

  /** With ':' in a name two different backends can have one text, so the restriction is needed. */
  lemma ColonsConfuse() returns (x: ServicePortName, y: ServicePortName)
    ensures x.namespacedName != y.namespacedName && x.protocol == y.protocol == "TCP" && String(x) == String(y)
  {
    x := ServicePortName(NamespacedName("a", "b:c"), "", "TCP");
    y := ServicePortName(NamespacedName("a", "b"), "c", "TCP");
    assert String(x) == "a/b:c" == String(y);
  }
}
