/** Where the route table is not the rebuilt one (pkg/cache/ingress.go): Ingresses that change class, shared keys,
    renamed ports, and Ingresses without annotations. */
module IngressFailures {
  import opened Options
  import opened Names
  import opened Bags
  import opened ChangeTracking
  import opened IngressCache
  import opened IngressRuns

  // --------------------------------------------------- when an Ingress changes class

  /** No two live Ingresses share a key, and no pending change has a previous key of another one. */
  ghost predicate Apart(env: Env, valid: Ingress -> bool, s: State) {
    && (forall n, m, k :: Asks(env, valid, s.live, n, k) && Asks(env, valid, s.live, m, k) ==> n == m)
    && forall n, m, k :: n in s.items && k in Entries(s.items[n].previous) && Asks(env, valid, s.live, m, k) ==> n == m
  }

  lemma ApartAgrees(env: Env, valid: Ingress -> bool, s: State)
    requires Apart(env, valid, s) && Ready(env, valid, s.live, s.table, s.items)
    ensures Agreeing(env, valid, s.live, s.items)
  {
    forall n, k | Removes(s.items, n, k) ensures !Asked(env, valid, s.live, k) {
      assert !Asks(env, valid, s.live, n, k);
    }
  }

  /** An Ingress with routes is not given up silently, and one taken over with nothing pending has no routes
      or other ones than before. */
  ghost predicate ClassChangeSeen(env: Env, valid: Ingress -> bool, s: State, n: NamespacedName, obj: Ingress)
    requires n in s.live
  {
    && (valid(s.live[n]) && !valid(obj) ==> Routes(env, s.live[n]) == map[])
    && (!valid(s.live[n]) && valid(obj) && n !in s.items ==>
      Routes(env, obj) == map[] || Routes(env, s.live[n]) != Routes(env, obj))
  }

  /** Whatever else is pending, an event that may change the class of an Ingress leaves the next sync right if
      and only if the tracker sees the change of class. */
  lemma ClassChangeIff(env: Env, valid: Ingress -> bool, s: State, obj: Ingress, s1: State,
                       order: seq<NamespacedName>, s2: State)
    requires Good(env, valid, s) && Apart(env, valid, s) && Apart(env, valid, s1) && obj.name in s.live
    requires Next(valid, s, Seen(obj.name, Some(obj), env), s1) && Next(valid, s1, Drain(order), s2)
    ensures IsUnion(env, valid, s2.live, s2.table) <==> ClassChangeSeen(env, valid, s, obj.name, obj)
  {
    if ClassChangeSeen(env, valid, s, obj.name, obj) {
      SeenReady(env, valid, s, obj, s1);
      ApartAgrees(env, valid, s1);
      AgreeingGivesUnion(env, valid, s1.live, s1.table, s1.items, order);
    } else if valid(obj) {
      var k :| k in Routes(env, obj);
      RecordedSame(s.items, obj.name, Some(Routes(env, obj)));
      MissedAfterSync(env, valid, s, obj, s1, order, k);
      NotUnion(env, valid, s2.live, s2.table, obj, k);
    } else {
      var k :| k in Routes(env, s.live[obj.name]);
      LeftAfterSync(env, valid, s, obj, s1, order, k);
    }
  }

  lemma SeenCurrents(env: Env, valid: Ingress -> bool, s: State, obj: Ingress, s1: State, m: NamespacedName)
    requires Good(env, valid, s) && obj.name in s.live && ClassChangeSeen(env, valid, s, obj.name, obj)
    requires Next(valid, s, Seen(obj.name, Some(obj), env), s1) && m in s1.items
    ensures Entries(s1.items[m].current) == Wants(env, valid, Lookup(s1.live, m))
  {
    assert LeadsToLatest(env, valid, s, m);
    if m != obj.name { assert Lookup(s1.live, m) == Lookup(s.live, m); }
    assert Lookup(s1.live, obj.name) == Some(obj);
  }

  lemma SeenThere(env: Env, valid: Ingress -> bool, s: State, obj: Ingress, s1: State, m: NamespacedName, k: RouteKey)
    requires Good(env, valid, s) && obj.name in s.live && ClassChangeSeen(env, valid, s, obj.name, obj)
    requires Next(valid, s, Seen(obj.name, Some(obj), env), s1) && m !in s1.items && Asks(env, valid, s1.live, m, k)
    ensures Bound(s1.table, k) == RouteOf(env, valid, s1.live, m, k)
  {
    if m != obj.name { assert Lookup(s1.live, m) == Lookup(s.live, m); }
    assert Lookup(s1.live, obj.name) == Some(obj);
    assert Applied(env, valid, s, m) == Wants(env, valid, Lookup(s1.live, m));
  }

  lemma SeenPrevious(env: Env, valid: Ingress -> bool, s: State, obj: Ingress, s1: State, k: RouteKey)
    requires Good(env, valid, s) && obj.name in s.live && ClassChangeSeen(env, valid, s, obj.name, obj)
    requires Next(valid, s, Seen(obj.name, Some(obj), env), s1)
    requires k in s1.table && !Asked(env, valid, s1.live, k)
    ensures SomePrevious(s1.items, k)
  {
    assert SomeApplied(env, valid, s, k);
    var m :| k in Applied(env, valid, s, m);
    assert !Asks(env, valid, s1.live, m, k);
    if m != obj.name { assert Lookup(s1.live, m) == Lookup(s.live, m); }
    assert Lookup(s1.live, obj.name) == Some(obj);
    assert m in s1.items && k in Entries(s1.items[m].previous);
  }

  lemma SeenReady(env: Env, valid: Ingress -> bool, s: State, obj: Ingress, s1: State)
    requires Good(env, valid, s) && obj.name in s.live && ClassChangeSeen(env, valid, s, obj.name, obj)
    requires Next(valid, s, Seen(obj.name, Some(obj), env), s1)
    ensures Ready(env, valid, s1.live, s1.table, s1.items)
  {
    forall m | m in s1.items ensures Entries(s1.items[m].current) == Wants(env, valid, Lookup(s1.live, m)) {
      SeenCurrents(env, valid, s, obj, s1, m);
    }
    forall m, k | m !in s1.items && Asks(env, valid, s1.live, m, k)
      ensures Bound(s1.table, k) == RouteOf(env, valid, s1.live, m, k)
    {
      SeenThere(env, valid, s, obj, s1, m, k);
    }
    forall k | k in s1.table && !Asked(env, valid, s1.live, k) ensures SomePrevious(s1.items, k) {
      SeenPrevious(env, valid, s, obj, s1, k);
    }
  }

  /** The key of an Ingress taken over unseen is not added. */
  lemma MissedAfterSync(env: Env, valid: Ingress -> bool, s: State, obj: Ingress, s1: State,
                        order: seq<NamespacedName>, k: RouteKey)
    requires Good(env, valid, s) && Apart(env, valid, s1) && obj.name in s.live && obj.name !in s.items
    requires !valid(s.live[obj.name]) && valid(obj) && k in Routes(env, obj)
    requires s1 == State(s.live[obj.name := obj], s.items, s.table) && Enumerates(order, s1.items.Keys)
    ensures k !in PatchedInOrder(s1.table, s1.items, order)
  {
    assert Asks(env, valid, s1.live, obj.name, k);
    forall m | m in order ensures !Adds(s1.items, m, k) {
      assert Lookup(s1.live, m) == Lookup(s.live, m) && LeadsToLatest(env, valid, s, m);
      assert !Asks(env, valid, s1.live, m, k);
    }
    forall m ensures k !in Applied(env, valid, s, m) {
      if m != obj.name {
        assert Lookup(s1.live, m) == Lookup(s.live, m);
        assert !Asks(env, valid, s1.live, m, k);
      }
    }
    assert !SomeApplied(env, valid, s, k);
    KeyAfter(s1.table, s1.items, order, k);
  }

  /** The key of an Ingress given up unseen stays. */
  lemma LeftAfterSync(env: Env, valid: Ingress -> bool, s: State, obj: Ingress, s1: State,
                      order: seq<NamespacedName>, k: RouteKey)
    requires Good(env, valid, s) && Apart(env, valid, s) && obj.name in s.live
    requires valid(s.live[obj.name]) && !valid(obj) && k in Routes(env, s.live[obj.name])
    requires s1 == State(s.live[obj.name := obj], s.items, s.table) && Enumerates(order, s1.items.Keys)
    ensures !IsUnion(env, valid, s1.live, PatchedInOrder(s1.table, s1.items, order))
  {
    var n := obj.name;
    assert Lookup(s.live, n) == Some(s.live[n]);
    assert Asks(env, valid, s.live, n, k);
    assert LeadsToLatest(env, valid, s, n);
    forall m | m in order ensures !Removes(s.items, m, k) {
      assert m in s.items && k in Entries(s.items[m].previous) ==> m == n;
    }
    assert !SomeRemoves(s1.items, order, k);
    KeyAfter(s1.table, s1.items, order, k);
    if n in s.items {
      assert n in order && Adds(s.items, n, k);
    } else {
      assert k in Applied(env, valid, s, n);
      assert Bound(s.table, k) == Bound(Applied(env, valid, s, n), k);
    }
    assert k in PatchedInOrder(s1.table, s1.items, order);
    forall m ensures k !in Wants(env, valid, Lookup(s1.live, m)) {
      if m != n {
        assert Lookup(s1.live, m) == Lookup(s.live, m);
        assert !Asks(env, valid, s.live, m, k);
      } else {
        assert Lookup(s1.live, n) == Some(obj);
      }
    }
  }

  lemma NotUnion(env: Env, valid: Ingress -> bool, live: map<NamespacedName, Ingress>, table: RouteMap, ing: Ingress,
                 k: RouteKey)
    requires ing.name in live && live[ing.name] == ing && valid(ing) && k in Routes(env, ing) && k !in table
    ensures !IsUnion(env, valid, live, table)
  {
    assert k in Wants(env, valid, Lookup(live, ing.name));
  }

  lemma RecordedSame<K, V>(items: Items<K, V>, n: NamespacedName, c: Contribution<K, V>)
    requires n !in items
    ensures Recorded(items, n, c, c) == items
  {
  }

  // ------------------------------------------------------------- runs that go wrong

  /** A new Ingress of ours is queued. */
  lemma SeenNew(valid: Ingress -> bool, s: State, ing: Ingress, env: Env)
    requires valid(ing) && ing.name !in s.live && ing.name !in s.items
    ensures Next(valid, s, Seen(ing.name, Some(ing), env), State(
      s.live[ing.name := ing], s.items[ing.name := Change(None, Some(Routes(env, ing)))], s.table))
  {
  }

  /** So is the deletion of one. */
  lemma SeenGone(valid: Ingress -> bool, s: State, ing: Ingress, env: Env)
    requires valid(ing) && ing.name in s.live && s.live[ing.name] == ing && s.items == map[]
    ensures Next(valid, s, Seen(ing.name, None, env), State(
      s.live - {ing.name}, map[ing.name := Change(Some(Routes(env, ing)), None)], s.table))
  {
  }

  /** Two Ingresses ask for one key; deleting the first takes the route from the second. */
  lemma SharedKeyLost(env: Env, valid: Ingress -> bool, a: Ingress, b: Ingress, k: RouteKey)
    returns (states: seq<State>, steps: seq<Step>)
    requires a.name != b.name && valid(a) && valid(b) && k in Routes(env, a) && k in Routes(env, b)
    ensures IsRun(valid, states, steps) && |steps| == 5 && steps[4].Drain?
    ensures forall i :: 0 <= i < |steps| && !steps[i].Drain? ==> steps[i].env == env
    ensures states[5].live == map[b.name := b] && k !in states[5].table
  {
    var n, m, ra, rb := a.name, b.name, Routes(env, a), Routes(env, b);
    var s0 := State(map[], map[], map[]);
    var s1 := State(map[n := a], map[n := Change(None, Some(ra))], map[]);
    var s2 := State(map[n := a, m := b], map[n := Change(None, Some(ra)), m := Change(None, Some(rb))], map[]);
    var s3 := State(s2.live, map[], PatchedInOrder(map[], s2.items, [n, m]));
    var s4 := State(map[m := b], map[n := Change(Some(ra), None)], s3.table);
    var s5 := State(s4.live, map[], PatchedInOrder(s4.table, s4.items, [n]));
    states := [s0, s1, s2, s3, s4, s5];
    steps := [Seen(n, Some(a), env), Seen(m, Some(b), env), Drain([n, m]), Seen(n, None, env), Drain([n])];
    SeenNew(valid, s0, a, env);
    SeenNew(valid, s1, b, env);
    assert Next(valid, s2, steps[2], s3);
    assert s3.live - {n} == s4.live;
    SeenGone(valid, s3, a, env);
    assert Next(valid, s4, steps[4], s5);
    OneApplied(s4.table, s4.items, n);
  }

  /** An Ingress names its Service port by number and the port is renamed; the refresh adds the new key, and
      when the Ingress is deleted the old key stays, with no Ingress left. */
  lemma RenamedPortStays(env: Env, env': Env, valid: Ingress -> bool, ing: Ingress, k: RouteKey)
    returns (states: seq<State>, steps: seq<Step>)
    requires valid(ing) && k in Routes(env, ing) && k !in Routes(env', ing)
    ensures IsRun(valid, states, steps) && |steps| == 5 && steps[4].Drain?
    ensures states[5].live == map[] && k in states[5].table
  {
    var n, r, r' := ing.name, Routes(env, ing), Routes(env', ing);
    var s0 := State(map[], map[], map[]);
    var s1 := State(map[n := ing], map[n := Change(None, Some(r))], map[]);
    var s2 := State(s1.live, map[], PatchedInOrder(map[], s1.items, [n]));
    var anew := map[n := Change(None, Some(r'))];
    OneQueued(env', valid, ing);
    var s3 := State(s1.live, map[], PatchedInOrder(s2.table, anew, [n]));
    var s4 := State(map[], map[n := Change(Some(r'), None)], s3.table);
    var s5 := State(map[], map[], PatchedInOrder(s4.table, s4.items, [n]));
    states := [s0, s1, s2, s3, s4, s5];
    steps := [Seen(n, Some(ing), env), Drain([n]), Refresh([ing], [n], env'), Seen(n, None, env'), Drain([n])];
    SeenNew(valid, s0, ing, env);
    assert Next(valid, s1, steps[1], s2);
    assert Lists([ing], s2.live);
    assert Next(valid, s2, steps[2], s3);
    assert s3.live - {n} == map[];
    SeenGone(valid, s3, ing, env');
    assert Next(valid, s4, steps[4], s5);
    OneApplied(map[], s1.items, n);
    OneApplied(s2.table, anew, n);
    OneApplied(s4.table, s4.items, n);
  }

  lemma OneApplied(table: RouteMap, items: Items<RouteKey, Route>, n: NamespacedName)
    requires n in items
    ensures PatchedInOrder(table, items, [n]) == Patched(table, items[n])
  {
    var order := [n];
    assert order[..|order| - 1] == [];
    assert PatchedInOrder(table, items, order[..|order| - 1]) == table;
  }

  lemma OneQueued(env: Env, valid: Ingress -> bool, ing: Ingress)
    requires valid(ing)
    ensures QueuedAll(env, valid, [ing], map[]) == map[ing.name := Change(None, Some(Routes(env, ing)))]
  {
    var listed := [ing];
    assert listed[..|listed| - 1] == [];
    assert QueuedAll(env, valid, listed[..|listed| - 1], map[]) == map[];
  }

  /** An Ingress of another class becomes ours without changing its rules: no route is added. */
  lemma TakenOverUnseen(env: Env, valid: Ingress -> bool, a: Ingress, b: Ingress, k: RouteKey)
    returns (states: seq<State>, steps: seq<Step>)
    requires a.name == b.name && !valid(a) && valid(b) && Routes(env, a) == Routes(env, b) && k in Routes(env, b)
    ensures IsRun(valid, states, steps) && |steps| == 3 && steps[2].Drain?
    ensures steps[0] == Seen(a.name, Some(a), env) && steps[1] == Seen(b.name, Some(b), env)
    ensures states[3].live == map[b.name := b] && k !in states[3].table
  {
    var n := b.name;
    var s0, s1, s2 := State(map[], map[], map[]), State(map[n := a], map[], map[]), State(map[n := b], map[], map[]);
    states, steps := [s0, s1, s2, s2], [Seen(n, Some(a), env), Seen(n, Some(b), env), Drain([])];
    assert s1.live[n := b] == s2.live;
    assert Next(valid, s0, steps[0], s1);
    assert Next(valid, s1, steps[1], s2);
    assert Next(valid, s2, steps[2], s2);
  }

  /** The routes of an Ingress with a single path. */
  lemma SingleRoute(env: Env, ing: Ingress, r: Rule, p: HttpPath, c: Candidate)
    requires ing.rules == [r] && r.http == Some([p]) && CandidateOf(env, ing, r, p) == Some(c)
    ensures Routes(env, ing) == map[c.key := c.route]
  {
    var paths, rules, cs := [p], [r], [c];
    assert paths[..|paths| - 1] == [] && rules[..|rules| - 1] == [] && cs[..|cs| - 1] == [];
    assert PathCandidates(env, ing, r, paths[..|paths| - 1]) == [];
    assert PathCandidates(env, ing, r, paths) == [c];
    assert RuleCandidates(env, ing, rules[..|rules| - 1]) == [];
    assert RuleCandidates(env, ing, rules) == cs;
    assert FirstOf(cs[..|cs| - 1]) == map[];
  }

  function OnePath(name: NamespacedName, port: Backend): Ingress {
    Ingress(name, None, [], [Rule("host", Some([HttpPath("/", Exact, Some(port))]))], Some(map[]))
  }

  /** Such Ingresses: two of one namespace with equal rules share their key, */
  lemma TwoShareKey(env: Env) returns (a: Ingress, b: Ingress, k: RouteKey)
    ensures a.name != b.name && k in Routes(env, a) && k in Routes(env, b)
  {
    var to := Backend("svc", "http", 0);
    a, b := OnePath(NamespacedName("ns", "a"), to), OnePath(NamespacedName("ns", "b"), to);
    k := RouteKey(ServicePortName(NamespacedName("ns", "svc"), "http", "TCP"), "host", "/");
    SingleRoute(env, a, a.rules[0], a.rules[0].http.value[0],
      CandidateOf(env, a, a.rules[0], a.rules[0].http.value[0]).value);
    SingleRoute(env, b, b.rules[0], b.rules[0].http.value[0],
      CandidateOf(env, b, b.rules[0], b.rules[0].http.value[0]).value);
  }

  function Answering(enrich: (Ingress, Rule) -> Details, ports: seq<SvcPort>): Env {
    Env(_ => Some(ports), enrich)
  }

  /** and renaming port 80 of the Service changes the key of an Ingress that names it by number. */
  lemma RenameChangesKey(enrich: (Ingress, Rule) -> Details) returns (ing: Ingress, env: Env, env': Env, k: RouteKey)
    ensures k in Routes(env, ing) && k !in Routes(env', ing)
  {
    ing := OnePath(NamespacedName("ns", "a"), Backend("svc", "", 80));
    env, env' := Answering(enrich, [SvcPort(80, "http")]), Answering(enrich, [SvcPort(80, "web")]);
    var r, p := ing.rules[0], ing.rules[0].http.value[0];
    var was, now := CandidateOf(env, ing, r, p).value, CandidateOf(env', ing, r, p).value;
    k := was.key;
    assert k.backend.port == "http" && now.key.backend.port == "web";
    assert "http"[0] != "web"[0];
    SingleRoute(env, ing, r, p, was);
    SingleRoute(env', ing, r, p, now);
  }

  /** What is added to a route does not depend on the class field. */
  ghost predicate IgnoresClass(env: Env) {
    forall ing, r, c :: env.enrich(Classed(ing, c), r) == env.enrich(ing, r)
  }

  function Classed(ing: Ingress, c: Option<string>): Ingress {
    ing.(ingressClass := c)
  }

  lemma {:induction false} PathsIgnoreClass(env: Env, ing: Ingress, c: Option<string>, r: Rule, paths: seq<HttpPath>)
    requires IgnoresClass(env)
    ensures PathCandidates(env, Classed(ing, c), r, paths) == PathCandidates(env, ing, r, paths)
  {
    if paths != [] {
      PathsIgnoreClass(env, ing, c, r, paths[..|paths| - 1]);
      assert env.enrich(Classed(ing, c), r) == env.enrich(ing, r);
    }
  }

  lemma {:induction false} RulesIgnoreClass(env: Env, ing: Ingress, c: Option<string>, rules: seq<Rule>)
    requires IgnoresClass(env)
    ensures RuleCandidates(env, Classed(ing, c), rules) == RuleCandidates(env, ing, rules)
  {
    if rules != [] {
      RulesIgnoreClass(env, ing, c, rules[..|rules| - 1]);
      PathsIgnoreClass(env, ing, c, rules[|rules| - 1], rules[|rules| - 1].http.GetOr([]));
    }
  }

  /** and setting the class name of an Ingress is a change of class that leaves its routes as they are. */
  lemma ClassNameTakenOver(env: Env, defaultClass: string)
    returns (a: Ingress, k: RouteKey, states: seq<State>, steps: seq<Step>)
    requires IgnoresClass(env)
    ensures var b := Classed(a, Some(PIPY_CLASS));
      && IsRun(IsValidPipyIngress(defaultClass), states, steps) && |steps| == 3 && steps[2].Drain?
      && steps[0] == Seen(a.name, Some(a), env) && steps[1] == Seen(a.name, Some(b), env)
      && k in Routes(env, b) && states[3].live == map[a.name := b] && k !in states[3].table
  {
    a := Classed(OnePath(NamespacedName("ns", "a"), Backend("svc", "http", 0)), Some("other"));
    var b, r := Classed(a, Some(PIPY_CLASS)), a.rules[0];
    var c := CandidateOf(env, a, r, r.http.value[0]).value;
    k := c.key;
    SingleRoute(env, a, r, r.http.value[0], c);
    RulesIgnoreClass(env, a, Some(PIPY_CLASS), a.rules);
    assert "other"[0] != PIPY_CLASS[0];
    states, steps := TakenOverUnseen(env, IsValidPipyIngress(defaultClass), a, b, k);
  }

  // ------------------------------------------------------------ missing annotations

  /** Such an Ingress: it names no class, where there is no default class, and has one path. */
  lemma UnannotatedCrashes(env: Env) returns (ing: Ingress, k: RouteKey, states: seq<State>, steps: seq<Step>)
    requires EnrichesByAnnotations(env)
    ensures IsRun(IsValidPipyIngress(""), states, steps) && |steps| == 2 && steps[1].Drain?
    ensures states[2].live == map[ing.name := ing] && WithoutUpstream(states[2].table, k)
  {
    ing := OnePath(NamespacedName("ns", "a"), Backend("svc", "http", 0)).(annotations := None);
    var n, r, valid := ing.name, ing.rules[0], IsValidPipyIngress("");
    var c := CandidateOf(env, ing, r, r.http.value[0]).value;
    k := c.key;
    SingleRoute(env, ing, r, r.http.value[0], c);
    var s0 := State(map[], map[], map[]);
    var s1 := State(map[n := ing], map[n := Change(None, Some(Routes(env, ing)))], map[]);
    var s2 := State(s1.live, map[], PatchedInOrder(map[], s1.items, [n]));
    states, steps := [s0, s1, s2], [Seen(n, Some(ing), env), Drain([n])];
    SeenNew(valid, s0, ing, env);
    assert Next(valid, s1, steps[1], s2);
    OneApplied(map[], s1.items, n);
    RouteUpstream(env, ing, k);
  }
}
