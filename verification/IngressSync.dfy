/** One sync of the local cache from the live Ingresses and Endpoints to the published router and balancer
    (syncRoutes in pkg/cache/local_cache.go). */
module IngressSync {
  import opened Options
  import opened Names
  import opened ChangeTracking
  import opened IngressCache
  import opened IngressConfig
  import R = IngressRuns
  import E = EndpointsCache

  type LiveEndpoints = map<NamespacedName, E.Endpoints>

  type LiveIngresses = map<NamespacedName, Ingress>

  /** The parseable usable endpoints of a backend, read off the live object. */
  function Reachable(parse: Parse, isIPv4: string -> bool, eps: LiveEndpoints,
                     b: ServicePortName): seq<UpstreamEndpoint> {
    ParsedList(parse, E.ListOf(isIPv4, eps, b))
  }

  lemma BackendReachable(parse: Parse, isIPv4: string -> bool, eps: LiveEndpoints, table: Endpoints, b: ServicePortName)
    requires IsRebuild(E.Converter(isIPv4), eps, table)
    ensures BackendEndpoints(parse, table, b) == Reachable(parse, isIPv4, eps, b)
  {
    E.RebuildLists(isIPv4, eps, table, b);
  }

  /** The live Ingress `n` of ours routes `k`. */
  ghost predicate Routes(env: Env, valid: Ingress -> bool, live: LiveIngresses, n: NamespacedName, k: RouteKey) {
    k in R.Wants(env, valid, Lookup(live, n))
  }

  /** The upstream endpoint is the parse of an endpoint that the live object of the backend offers. */
  ghost predicate Backed(parse: Parse, isIPv4: string -> bool, eps: LiveEndpoints, b: ServicePortName,
                         u: UpstreamEndpoint) {
    b.namespacedName in eps &&
    var o := eps[b.namespacedName];
    exists ss, info :: ss in o.subsets && E.Offered(isIPv4, o, ss.addresses, ss.ports, b, info) &&
      parse(info.endpoint) == Some(u)
  }

  lemma ReachableIff(parse: Parse, isIPv4: string -> bool, eps: LiveEndpoints, b: ServicePortName, u: UpstreamEndpoint)
    ensures u in Reachable(parse, isIPv4, eps, b) <==> Backed(parse, isIPv4, eps, b, u)
  {
    ParsedMembers(parse, E.ListOf(isIPv4, eps, b), u);
    if b.namespacedName in eps {
      var o := eps[b.namespacedName];
      forall info ensures info in E.EndpointList(isIPv4, o, b) <==>
        exists ss :: ss in o.subsets && E.Offered(isIPv4, o, ss.addresses, ss.ports, b, info)
      {
        E.EndpointListMembers(isIPv4, o, o.subsets, b, info);
      }
      if info :| info in E.ListOf(isIPv4, eps, b) && parse(info.endpoint) == Some(u) {
        var ss :| ss in o.subsets && E.Offered(isIPv4, o, ss.addresses, ss.ports, b, info);
      }
      if Backed(parse, isIPv4, eps, b, u) {
        var ss, info :| ss in o.subsets && E.Offered(isIPv4, o, ss.addresses, ss.ports, b, info)
          && parse(info.endpoint) == Some(u);
        assert info in E.ListOf(isIPv4, eps, b);
      }
    }
  }

  lemma ReachableSome(parse: Parse, isIPv4: string -> bool, eps: LiveEndpoints, b: ServicePortName)
    ensures Reachable(parse, isIPv4, eps, b) != [] <==> exists u :: Backed(parse, isIPv4, eps, b, u)
  {
    var list := Reachable(parse, isIPv4, eps, b);
    forall u ensures u in list <==> Backed(parse, isIPv4, eps, b, u) { ReachableIff(parse, isIPv4, eps, b, u); }
    if list != [] { assert list[0] in list; }
  }

  /** A live Ingress of ours has a rule and a path that ask for that host and path. */
  ghost predicate AsksFor(env: Env, valid: Ingress -> bool, live: LiveIngresses, n: NamespacedName, r: Rule,
                          p: HttpPath,
                          c: Candidate) {
    && n in live && valid(live[n]) && r in live[n].rules && r.http.Some? && p in r.http.value
    && Yields(env, live[n], r, p, c)
  }

  /** Some path of a rule of a live Ingress of ours asks for that host and path, with a backend whose live object
      offers an endpoint that parses. */
  ghost predicate Served(env: Env, valid: Ingress -> bool, live: LiveIngresses, parse: Parse, isIPv4: string -> bool,
                         eps: LiveEndpoints, rk: string) {
    exists n, r, p, c, u :: AsksFor(env, valid, live, n, r, p, c) && r.host + c.key.path == rk &&
      Backed(parse, isIPv4, eps, c.key.backend, u)
  }

  /** A route of the rebuilt table says what its key says. */
  lemma TableFits(env: Env, valid: Ingress -> bool, live: LiveIngresses, table: map<RouteKey, Route>, n: NamespacedName,
                  k: RouteKey)
    requires R.IsUnion(env, valid, live, table) && Routes(env, valid, live, n, k)
    ensures k in table && Fits(Candidate(k, table[k]))
  {
    RoutesFitKeys(env, live[n], k);
  }

  lemma ServedIsRouted(env: Env, valid: Ingress -> bool, live: LiveIngresses, table: map<RouteKey, Route>, parse: Parse,
                       isIPv4: string -> bool, eps: LiveEndpoints, endpoints: Endpoints, routes: seq<RouteSpec>,
                       n: NamespacedName, k: RouteKey)
    requires R.IsUnion(env, valid, live, table) && IsRebuild(E.Converter(isIPv4), eps, endpoints)
    requires Published(parse, endpoints, table, routes)
    requires Routes(env, valid, live, n, k) && Reachable(parse, isIPv4, eps, k.backend) != []
    ensures k.host + k.path in Router(routes) && String(k.backend) in Balancer(routes)
  {
    TableFits(env, valid, live, table, n, k);
    BackendReachable(parse, isIPv4, eps, endpoints, k.backend);
    RoutesReachable(parse, endpoints, table, routes, k);
  }

  /** A router entry is that of a live Ingress's route, whose backend has a parseable live endpoint. */
  lemma RoutedIsServed(env: Env, valid: Ingress -> bool, live: LiveIngresses, table: map<RouteKey, Route>, parse: Parse,
                       isIPv4: string -> bool, eps: LiveEndpoints, endpoints: Endpoints, routes: seq<RouteSpec>,
                       rk: string)
    returns (n: NamespacedName, k: RouteKey)
    requires R.IsUnion(env, valid, live, table) && IsRebuild(E.Converter(isIPv4), eps, endpoints)
    requires Published(parse, endpoints, table, routes) && rk in Router(routes)
    ensures Routes(env, valid, live, n, k) && k.host + k.path == rk
    ensures Router(routes)[rk].service == String(k.backend) && Reachable(parse, isIPv4, eps, k.backend) != []
  {
    RouterLastWins(routes, rk);
    var i :| LastAt(routes, Keyed(rk), i) && Router(routes)[rk] == routes[i].router;
    assert routes[i] in routes;
    k :| Publishes(parse, endpoints, table, k, routes[i]);
    n :| k in R.Wants(env, valid, Lookup(live, n));
    assert Routes(env, valid, live, n, k);
    TableFits(env, valid, live, table, n, k);
    BackendReachable(parse, isIPv4, eps, endpoints, k.backend);
  }

  /** A host and path are in the router exactly if some live Ingress of ours routes them to a backend with a
      parseable live endpoint. */
  lemma RouterIff(env: Env, valid: Ingress -> bool, live: LiveIngresses, table: map<RouteKey, Route>, parse: Parse,
                  isIPv4: string -> bool, eps: LiveEndpoints, endpoints: Endpoints, routes: seq<RouteSpec>, rk: string)
    requires R.IsUnion(env, valid, live, table) && IsRebuild(E.Converter(isIPv4), eps, endpoints)
    requires Published(parse, endpoints, table, routes)
    ensures rk in Router(routes) <==> Served(env, valid, live, parse, isIPv4, eps, rk)
  {
    if rk in Router(routes) {
      var n, k := RoutedIsServed(env, valid, live, table, parse, isIPv4, eps, endpoints, routes, rk);
      RoutedIff(env, live[n], k);
      ReachableSome(parse, isIPv4, eps, k.backend);
      var r, p, c :| r in live[n].rules && r.http.Some? && p in r.http.value && Yields(env, live[n], r, p, c)
        && c.key == k;
      var u :| Backed(parse, isIPv4, eps, k.backend, u);
      assert AsksFor(env, valid, live, n, r, p, c);
    }
    if Served(env, valid, live, parse, isIPv4, eps, rk) {
      var n, r, p, c, u :| AsksFor(env, valid, live, n, r, p, c) && r.host + c.key.path == rk &&
        Backed(parse, isIPv4, eps, c.key.backend, u);
      RoutedIff(env, live[n], c.key);
      ReachableSome(parse, isIPv4, eps, c.key.backend);
      assert Routes(env, valid, live, n, c.key);
      ServedIsRouted(env, valid, live, table, parse, isIPv4, eps, endpoints, routes, n, c.key);
    }
  }

  /** Backends of live Ingresses have names without '/' and ':', as Kubernetes names do. */
  ghost predicate PlainNames(env: Env, valid: Ingress -> bool, live: LiveIngresses) {
    forall n, k :: Routes(env, valid, live, n, k) ==> FreeName(k.backend)
  }

  /** And its service is balanced over exactly the parseable live endpoints of every routed backend of that name. */
  lemma BalancerFollowsLive(env: Env, valid: Ingress -> bool, live: LiveIngresses, table: map<RouteKey, Route>,
                            parse: Parse, isIPv4: string -> bool, eps: LiveEndpoints, endpoints: Endpoints,
                            routes: seq<RouteSpec>, rk: string, n: NamespacedName, k: RouteKey)
    requires R.IsUnion(env, valid, live, table) && IsRebuild(E.Converter(isIPv4), eps, endpoints)
    requires Published(parse, endpoints, table, routes) && PlainNames(env, valid, live)
    requires rk in Router(routes) && Routes(env, valid, live, n, k) && String(k.backend) == Router(routes)[rk].service
    ensures var s := Router(routes)[rk].service;
      && s in Balancer(routes) && Balancer(routes)[s].endpoints != []
      && Balancer(routes)[s].endpoints == Reachable(parse, isIPv4, eps, k.backend)
      && forall u :: u in Balancer(routes)[s].endpoints <==> Backed(parse, isIPv4, eps, k.backend, u)
  {
    forall j | j in table ensures FreeName(table[j].backend) && table[j].backend.protocol == "TCP" {
      var m :| j in R.Wants(env, valid, Lookup(live, m));
      assert Routes(env, valid, live, m, j);
      TableFits(env, valid, live, table, m, j);
    }
    TableFits(env, valid, live, table, n, k);
    BackendReachable(parse, isIPv4, eps, endpoints, k.backend);
    RouterServicesBalanced(parse, endpoints, table, routes, rk, k);
    forall u ensures u in Reachable(parse, isIPv4, eps, k.backend) <==> Backed(parse, isIPv4, eps, k.backend, u) {
      ReachableIff(parse, isIPv4, eps, k.backend, u);
    }
  }

  /** End to end: in every steady run of events, syncs and refreshes in which the Ingresses agree at each sync, and
      every run of Endpoints events and syncs, the configuration built after a sync crashes exactly if a live Ingress
      of ours with routes has no annotations; otherwise a host and path are in the router exactly if a live Ingress
      of ours routes them to a backend with a parseable live endpoint. */
  lemma RouterFollowsLive(env: Env, valid: Ingress -> bool, states: seq<R.State>, steps: seq<R.Step>, i: nat,
                          isIPv4: string -> bool, epStates: seq<E.State>, epSteps: seq<E.Step>, j: nat,
                          parse: Parse, result: Option<seq<RouteSpec>>, rk: string)
    requires EnrichesAndSteady(env, valid, states, steps, i) && E.IsRun(isIPv4, epStates, epSteps)
    requires j < |epSteps| && epSteps[j].Sync?
    requires Configures(parse, epStates[j + 1].table, states[i + 1].table, result)
    ensures var live, eps := states[i + 1].live, epStates[j + 1].live;
      && (result.None? <==> exists n :: R.Unannotated(env, valid, live, n))
      && (result.Some? ==> (rk in Router(result.value) <==> Served(env, valid, live, parse, isIPv4, eps, rk)))
  {
    R.RoutesAreRebuilt(env, valid, states, steps, i);
    E.EndpointsCacheIsRebuild(isIPv4, epStates, epSteps, j);
    R.CrashIffUnannotated(env, valid, states[i + 1].live, states[i + 1].table);
    if result.Some? {
      RouterIff(env, valid, states[i + 1].live, states[i + 1].table, parse, isIPv4, epStates[j + 1].live,
        epStates[j + 1].table, result.value, rk);
    }
  }

  ghost predicate EnrichesAndSteady(env: Env, valid: Ingress -> bool, states: seq<R.State>, steps: seq<R.Step>,
                                    i: nat) {
    && R.EnrichesByAnnotations(env) && R.Steady(env, valid, states, steps)
    && i < |steps| && !steps[i].Seen? && forall j :: 0 <= j <= i ==> R.AgreeAt(env, valid, states, steps, j)
  }
}
