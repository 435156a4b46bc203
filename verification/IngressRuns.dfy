/** The route table over whole runs of events, syncs and refreshes (pkg/cache/ingress.go, local_cache.go).
    Route keys do not name their Ingress and depend on what the Service lister answers, so the table is the
    rebuilt one only under conditions; this module says which. */
module IngressRuns {
  import opened Bags
  import opened Options
  import opened Names
  import opened ChangeTracking
  import opened IngressCache

  type RouteMap = map<RouteKey, Route>

  // ------------------------------------------------------------ a single change

  ghost predicate AskedFor(live: map<NamespacedName, RouteMap>, k: RouteKey) {
    exists n :: n in live && k in live[n]
  }

  ghost predicate AskedByOther(live: map<NamespacedName, RouteMap>, n: NamespacedName, k: RouteKey) {
    exists m :: m in live && m != n && k in live[m]
  }

  /** `table` has exactly the route keys that the live Ingresses ask for. */
  ghost predicate KeysOfLive(live: map<NamespacedName, RouteMap>, table: RouteMap) {
    forall k :: k in table <==> AskedFor(live, k)
  }

  function Replaced(live: map<NamespacedName, RouteMap>, n: NamespacedName,
                    c: Contribution<RouteKey, Route>): map<NamespacedName, RouteMap> {
    match c case None => live - {n} case Some(m) => live[n := m]
  }

  /** One change keeps the keys right at `k`: a key the Ingress gives up is removed unless another Ingress
      asks for it, and a key that is removed is not one another Ingress asks for. */
  ghost predicate ChangeRightAt(live: map<NamespacedName, RouteMap>, n: NamespacedName, ch: Change<RouteKey, Route>,
                                k: RouteKey) {
    k !in Entries(ch.current) ==>
      if k in Entries(ch.previous) then !AskedByOther(live, n, k)
      else n in live && k in live[n] ==> AskedByOther(live, n, k)
  }

  /** For every add, update or delete, with `previous` and `current` as converted when the event arrived and
      `live[n]` what was last applied for the Ingress, the keys stay right exactly then. */
  lemma ChangeKeepsKeysIff(live: map<NamespacedName, RouteMap>, n: NamespacedName, ch: Change<RouteKey, Route>,
                           table: RouteMap)
    requires KeysOfLive(live, table)
    ensures KeysOfLive(Replaced(live, n, ch.current), Patched(table, ch)) <==> forall k :: ChangeRightAt(live, n, ch, k)
  {
    var now, after := Replaced(live, n, ch.current), Patched(table, ch);
    forall k
      ensures AskedFor(live, k) <==> (n in live && k in live[n]) || AskedByOther(live, n, k)
      ensures AskedFor(now, k) <==> k in Entries(ch.current) || AskedByOther(live, n, k)
    {
      AskedSplit(live, n, k);
      AskedSplit(now, n, k);
      OthersSame(live, n, ch.current, k);
    }
    assert forall k :: (k in after <==> AskedFor(now, k)) <==> ChangeRightAt(live, n, ch, k);
  }

  lemma AskedSplit(live: map<NamespacedName, RouteMap>, n: NamespacedName, k: RouteKey)
    ensures AskedFor(live, k) <==> (n in live && k in live[n]) || AskedByOther(live, n, k)
  {
  }

  lemma OthersSame(live: map<NamespacedName, RouteMap>, n: NamespacedName, c: Contribution<RouteKey, Route>,
                   k: RouteKey)
    ensures AskedByOther(Replaced(live, n, c), n, k) <==> AskedByOther(live, n, k)
  {
    var now := Replaced(live, n, c);
    assert forall m :: m != n ==> (m in now <==> m in live) && (m in live ==> now[m] == live[m]);
  }

  // -------------------------------------------------- all pending changes, any order

  ghost predicate Adds<K, V>(items: Items<K, V>, n: NamespacedName, k: K) {
    n in items && k in Entries(items[n].current)
  }

  ghost predicate Removes<K, V>(items: Items<K, V>, n: NamespacedName, k: K) {
    n in items && k in Entries(items[n].previous) && k !in Entries(items[n].current)
  }

  ghost predicate SomeAdds<K, V>(items: Items<K, V>, order: seq<NamespacedName>, k: K) {
    exists n :: n in order && Adds(items, n, k)
  }

  ghost predicate SomeRemoves<K, V>(items: Items<K, V>, order: seq<NamespacedName>, k: K) {
    exists n :: n in order && Removes(items, n, k)
  }

  lemma {:induction false} KeyAfter<K, V>(table: map<K, V>, items: Items<K, V>, order: seq<NamespacedName>, k: K)
    requires forall n :: n in order ==> n in items
    ensures var after := PatchedInOrder(table, items, order);
      && (!SomeRemoves(items, order, k) ==> (k in after <==> k in table || SomeAdds(items, order, k)))
      && (!SomeAdds(items, order, k) ==> (k in after <==> k in table && !SomeRemoves(items, order, k)))
  {
    if order != [] {
      var front, last := order[..|order| - 1], order[|order| - 1];
      KeyAfter(table, items, front, k);
      assert forall n :: n in order <==> n in front || n == last;
      assert SomeAdds(items, order, k) <==> SomeAdds(items, front, k) || Adds(items, last, k);
      assert SomeRemoves(items, order, k) <==> SomeRemoves(items, front, k) || Removes(items, last, k);
    }
  }

  lemma {:induction false} SomeOrder(names: set<NamespacedName>) returns (order: seq<NamespacedName>)
    ensures Enumerates(order, names)
  {
    order := [];
    if names != {} {
      var n :| n in names;
      var front := SomeOrder(names - {n});
      order := front + [n];
    }
  }

  /** At `k` a sync goes right: no change removes a key that is asked for, and a key that no change names is
      in the table exactly if it is asked for. */
  ghost predicate SyncRightAt(live: map<NamespacedName, RouteMap>, items: Items<RouteKey, Route>, table: RouteMap,
                              k: RouteKey) {
    && (forall n :: Removes(items, n, k) ==> !AskedFor(live, k))
    && (Untouched(items, k) ==> (k in table <==> AskedFor(live, k)))
  }

  ghost predicate RightInEveryOrder(live: map<NamespacedName, RouteMap>, items: Items<RouteKey, Route>,
                                    table: RouteMap) {
    forall order | Enumerates(order, items.Keys) :: KeysOfLive(live, PatchedInOrder(table, items, order))
  }

  /** Go may apply the pending changes in any order.  All orders give the keys of the live Ingresses if and
      only if the sync goes right at every key. */
  lemma SyncKeepsKeysIff(live: map<NamespacedName, RouteMap>, items: Items<RouteKey, Route>, table: RouteMap)
    requires forall n :: n in items ==> Entries(items[n].current) == if n in live then live[n] else map[]
    ensures RightInEveryOrder(live, items, table) <==> forall k :: SyncRightAt(live, items, table, k)
  {
    if forall k :: SyncRightAt(live, items, table, k) {
      forall order | Enumerates(order, items.Keys) ensures KeysOfLive(live, PatchedInOrder(table, items, order)) {
        forall k ensures k in PatchedInOrder(table, items, order) <==> AskedFor(live, k) {
          RightAfter(live, items, table, order, k);
        }
      }
    }
    if RightInEveryOrder(live, items, table) {
      forall k ensures SyncRightAt(live, items, table, k) {
        RightBefore(live, items, table, k);
      }
    }
  }

  lemma RightAfter(live: map<NamespacedName, RouteMap>, items: Items<RouteKey, Route>, table: RouteMap,
                   order: seq<NamespacedName>, k: RouteKey)
    requires forall n :: n in items ==> Entries(items[n].current) == if n in live then live[n] else map[]
    requires SyncRightAt(live, items, table, k) && Enumerates(order, items.Keys)
    ensures k in PatchedInOrder(table, items, order) <==> AskedFor(live, k)
  {
    KeyAfter(table, items, order, k);
    forall n | Adds(items, n, k) ensures AskedFor(live, k) { assert n in live && k in live[n]; }
    if !Untouched(items, k) {
      var n :| n in items && (k in Entries(items[n].previous) || k in Entries(items[n].current));
      assert n in order && (Adds(items, n, k) || Removes(items, n, k));
    }
  }

  lemma RightBefore(live: map<NamespacedName, RouteMap>, items: Items<RouteKey, Route>, table: RouteMap, k: RouteKey)
    requires RightInEveryOrder(live, items, table)
    ensures SyncRightAt(live, items, table, k)
  {
    var any := SomeOrder(items.Keys);
    assert KeysOfLive(live, PatchedInOrder(table, items, any));
    KeyAfter(table, items, any, k);
    forall n | Removes(items, n, k) ensures !AskedFor(live, k) {
      var front := SomeOrder(items.Keys - {n});
      var order := front + [n];
      assert Enumerates(order, items.Keys);
      assert order[..|order| - 1] == front;
      assert KeysOfLive(live, PatchedInOrder(table, items, order));
    }
  }

  // ------------------------------------------------------------------------ runs

  datatype State = State(live: map<NamespacedName, Ingress>, items: Items<RouteKey, Route>, table: RouteMap)

  /** A conversion uses the answers of its time; `order` is how Go happens to visit the pending changes. */
  datatype Step =
    | Seen(n: NamespacedName, obj: Option<Ingress>, env: Env)
    | Drain(order: seq<NamespacedName>)
    | Refresh(listed: seq<Ingress>, order: seq<NamespacedName>, env: Env)

  ghost predicate Lists(listed: seq<Ingress>, live: map<NamespacedName, Ingress>) {
    && DistinctNames(listed)
    && (forall ing :: ing in listed ==> ing.name in live && live[ing.name] == ing)
    && forall n :: n in live ==> live[n] in listed
  }

  ghost function Queued(env: Env, valid: Ingress -> bool, s: State, n: NamespacedName,
                        obj: Option<Ingress>): Items<RouteKey, Route> {
    var was := Lookup(s.live, n);
    var about := if obj.Some? then obj else was;
    if about.None? || !valid(about.value) then s.items
    else Recorded(s.items, n, Contributed(env, was), Contributed(env, obj))
  }

  ghost predicate Next(valid: Ingress -> bool, s: State, step: Step, s': State) {
    match step
    case Seen(n, obj, env) =>
      && (obj.Some? ==> obj.value.name == n)
      && s' == State((match obj case None => s.live - {n} case Some(o) => s.live[n := o]),
        Queued(env, valid, s, n, obj), s.table)
    case Drain(order) =>
      Enumerates(order, s.items.Keys) && s' == State(s.live, map[], PatchedInOrder(s.table, s.items, order))
    case Refresh(listed, order, env) =>
      var items := QueuedAll(env, valid, listed, s.items);
      && Lists(listed, s.live) && Enumerates(order, items.Keys)
      && s' == State(s.live, map[], PatchedInOrder(s.table, items, order))
  }

  ghost predicate IsRun(valid: Ingress -> bool, states: seq<State>, steps: seq<Step>) {
    && |states| == |steps| + 1 && states[0] == State(map[], map[], map[])
    && forall i :: 0 <= i < |steps| ==> Next(valid, states[i], steps[i], states[i + 1])
  }

  /** What an Ingress, if there is one and it is ours, should add to the table. */
  ghost function Wants(env: Env, valid: Ingress -> bool, o: Option<Ingress>): RouteMap {
    if o.Some? && valid(o.value) then Routes(env, o.value) else map[]
  }

  /** The table is the union of the routes of the live Ingresses. */
  ghost predicate IsUnion(env: Env, valid: Ingress -> bool, live: map<NamespacedName, Ingress>, table: RouteMap) {
    && (forall k :: k in table ==> exists n :: k in Wants(env, valid, Lookup(live, n)))
    && forall n, k :: k in Wants(env, valid, Lookup(live, n)) ==>
      k in table && table[k] == Wants(env, valid, Lookup(live, n))[k]
  }

  // ------------------------------------------------------------ constant answers

  function Bound<K, V>(m: map<K, V>, k: K): Option<V> {
    if k in m then Some(m[k]) else None
  }

  ghost predicate Asks(env: Env, valid: Ingress -> bool, live: map<NamespacedName, Ingress>, n: NamespacedName,
                       k: RouteKey) {
    k in Wants(env, valid, Lookup(live, n))
  }

  ghost predicate Asked(env: Env, valid: Ingress -> bool, live: map<NamespacedName, Ingress>, k: RouteKey) {
    exists n :: Asks(env, valid, live, n, k)
  }

  /** What applying the changes at one key does, when all that add it add the same route. */
  lemma {:induction false} RouteAfter(table: RouteMap, items: Items<RouteKey, Route>, order: seq<NamespacedName>,
                                      k: RouteKey, route: Route)
    requires forall n :: n in order ==> n in items && (Adds(items, n, k) ==> Entries(items[n].current)[k] == route)
    ensures var after := Bound(PatchedInOrder(table, items, order), k);
      && (!SomeRemoves(items, order, k) ==> after == if SomeAdds(items, order, k) then Some(route) else Bound(table, k))
      && (!SomeAdds(items, order, k) ==> after == if SomeRemoves(items, order, k) then None else Bound(table, k))
  {
    if order != [] {
      var front, last := order[..|order| - 1], order[|order| - 1];
      RouteAfter(table, items, front, k, route);
      assert forall n :: n in order <==> n in front || n == last;
      assert SomeAdds(items, order, k) <==> SomeAdds(items, front, k) || Adds(items, last, k);
      assert SomeRemoves(items, order, k) <==> SomeRemoves(items, front, k) || Removes(items, last, k);
    }
  }

  /** The changes lead from the table to the routes of the live Ingresses, one Ingress at a time. */
  ghost predicate Ready(env: Env, valid: Ingress -> bool, live: map<NamespacedName, Ingress>, table: RouteMap,
                        items: Items<RouteKey, Route>) {
    && (forall n :: n in items ==> Entries(items[n].current) == Wants(env, valid, Lookup(live, n)))
    && (forall n, k :: n !in items && Asks(env, valid, live, n, k) ==>
      Bound(table, k) == RouteOf(env, valid, live, n, k))
    && forall k :: k in table && !Asked(env, valid, live, k) ==> SomePrevious(items, k)
  }

  ghost predicate SomePrevious(items: Items<RouteKey, Route>, k: RouteKey) {
    exists n :: n in items && k in Entries(items[n].previous)
  }

  ghost function RouteOf(env: Env, valid: Ingress -> bool, live: map<NamespacedName, Ingress>, n: NamespacedName,
                         k: RouteKey): Option<Route> {
    Bound(Wants(env, valid, Lookup(live, n)), k)
  }

  /** Ingresses that share a key ask for the same route under it, and no change removes a key that is asked for. */
  ghost predicate Agreeing(env: Env, valid: Ingress -> bool, live: map<NamespacedName, Ingress>,
                           items: Items<RouteKey, Route>) {
    && (forall n, m, k :: Asks(env, valid, live, n, k) && Asks(env, valid, live, m, k) ==>
      RouteOf(env, valid, live, n, k) == RouteOf(env, valid, live, m, k))
    && forall n, k :: Removes(items, n, k) ==> !Asked(env, valid, live, k)
  }

  lemma AskedAfter(env: Env, valid: Ingress -> bool, live: map<NamespacedName, Ingress>, table: RouteMap,
                   items: Items<RouteKey, Route>, order: seq<NamespacedName>, n: NamespacedName, k: RouteKey)
    requires Ready(env, valid, live, table, items) && Agreeing(env, valid, live, items) && Enumerates(order, items.Keys)
    requires Asks(env, valid, live, n, k)
    ensures Bound(PatchedInOrder(table, items, order), k) == RouteOf(env, valid, live, n, k)
  {
    var route := Wants(env, valid, Lookup(live, n))[k];
    forall m | m in order && Adds(items, m, k) ensures Entries(items[m].current)[k] == route {
      assert Asks(env, valid, live, m, k);
      assert RouteOf(env, valid, live, n, k) == RouteOf(env, valid, live, m, k);
    }
    RouteAfter(table, items, order, k, route);
    assert !SomeRemoves(items, order, k);
    if n in items { assert n in order && Adds(items, n, k); }
  }

  lemma UnaskedAfter(env: Env, valid: Ingress -> bool, live: map<NamespacedName, Ingress>, table: RouteMap,
                     items: Items<RouteKey, Route>, order: seq<NamespacedName>, k: RouteKey)
    requires Ready(env, valid, live, table, items) && Enumerates(order, items.Keys) && !Asked(env, valid, live, k)
    ensures k !in PatchedInOrder(table, items, order)
  {
    forall m | m in order ensures !Adds(items, m, k) {
      assert !Asks(env, valid, live, m, k);
    }
    KeyAfter(table, items, order, k);
    if k in table {
      var m :| m in items && k in Entries(items[m].previous);
      assert m in order && Removes(items, m, k);
    }
  }

  lemma AgreeingGivesUnion(env: Env, valid: Ingress -> bool, live: map<NamespacedName, Ingress>, table: RouteMap,
                           items: Items<RouteKey, Route>, order: seq<NamespacedName>)
    requires Ready(env, valid, live, table, items) && Agreeing(env, valid, live, items) && Enumerates(order, items.Keys)
    ensures IsUnion(env, valid, live, PatchedInOrder(table, items, order))
  {
    var after := PatchedInOrder(table, items, order);
    forall k | k in after ensures exists n :: k in Wants(env, valid, Lookup(live, n)) {
      if !Asked(env, valid, live, k) { UnaskedAfter(env, valid, live, table, items, order, k); }
      var n :| Asks(env, valid, live, n, k);
    }
    forall n, k | k in Wants(env, valid, Lookup(live, n))
      ensures k in after && after[k] == Wants(env, valid, Lookup(live, n))[k]
    {
      AskedAfter(env, valid, live, table, items, order, n, k);
    }
  }

  ghost predicate UnionInEveryOrder(env: Env, valid: Ingress -> bool, live: map<NamespacedName, Ingress>,
                                    table: RouteMap, items: Items<RouteKey, Route>) {
    forall order | Enumerates(order, items.Keys) :: IsUnion(env, valid, live, PatchedInOrder(table, items, order))
  }

  lemma UnionAt(env: Env, valid: Ingress -> bool, live: map<NamespacedName, Ingress>, table: RouteMap,
                n: NamespacedName, k: RouteKey)
    requires IsUnion(env, valid, live, table) && Asks(env, valid, live, n, k)
    ensures Bound(table, k) == RouteOf(env, valid, live, n, k)
  {
  }

  lemma UnionKeepsAsked(env: Env, valid: Ingress -> bool, live: map<NamespacedName, Ingress>, table: RouteMap,
                        items: Items<RouteKey, Route>, n: NamespacedName, k: RouteKey)
    requires UnionInEveryOrder(env, valid, live, table, items) && Removes(items, n, k)
    ensures !Asked(env, valid, live, k)
  {
    var front := SomeOrder(items.Keys - {n});
    var order := front + [n];
    assert Enumerates(order, items.Keys) && order[..|order| - 1] == front;
    var after := PatchedInOrder(table, items, order);
    assert k !in after && IsUnion(env, valid, live, after);
    forall m ensures !Asks(env, valid, live, m, k) {
      assert k in Wants(env, valid, Lookup(live, m)) ==> k in after;
    }
  }

  lemma UnionAgrees(env: Env, valid: Ingress -> bool, live: map<NamespacedName, Ingress>, table: RouteMap,
                    items: Items<RouteKey, Route>)
    requires UnionInEveryOrder(env, valid, live, table, items)
    ensures Agreeing(env, valid, live, items)
  {
    var order := SomeOrder(items.Keys);
    var after := PatchedInOrder(table, items, order);
    assert IsUnion(env, valid, live, after);
    forall n, m, k | Asks(env, valid, live, n, k) && Asks(env, valid, live, m, k)
      ensures RouteOf(env, valid, live, n, k) == RouteOf(env, valid, live, m, k)
    {
      UnionAt(env, valid, live, after, n, k);
      UnionAt(env, valid, live, after, m, k);
    }
    forall n, k | Removes(items, n, k) ensures !Asked(env, valid, live, k) {
      UnionKeepsAsked(env, valid, live, table, items, n, k);
    }
  }

  /** Applied in any order, the changes give the union of the live Ingresses' routes if and only if the
      Ingresses agree. */
  lemma UnionIff(env: Env, valid: Ingress -> bool, live: map<NamespacedName, Ingress>, table: RouteMap,
                 items: Items<RouteKey, Route>)
    requires Ready(env, valid, live, table, items)
    ensures UnionInEveryOrder(env, valid, live, table, items) <==> Agreeing(env, valid, live, items)
  {
    if Agreeing(env, valid, live, items) {
      forall order | Enumerates(order, items.Keys)
        ensures IsUnion(env, valid, live, PatchedInOrder(table, items, order))
      {
        AgreeingGivesUnion(env, valid, live, table, items, order);
      }
    }
    if UnionInEveryOrder(env, valid, live, table, items) { UnionAgrees(env, valid, live, table, items); }
  }

  // ----------------------------------------------------------- whole steady runs

  /** What the table has of an Ingress: the previous routes of its pending change, or else its routes. */
  ghost function Applied(env: Env, valid: Ingress -> bool, s: State, n: NamespacedName): RouteMap {
    if n in s.items then Entries(s.items[n].previous) else Wants(env, valid, Lookup(s.live, n))
  }

  ghost predicate LeadsToLatest(env: Env, valid: Ingress -> bool, s: State, n: NamespacedName) {
    n in s.items ==> Entries(s.items[n].current) == Wants(env, valid, Lookup(s.live, n))
  }

  /** Pending changes lead to the latest routes, and the table is the union of what was applied. */
  ghost predicate Good(env: Env, valid: Ingress -> bool, s: State) {
    && (forall n :: LeadsToLatest(env, valid, s, n))
    && (forall k :: k in s.table ==> SomeApplied(env, valid, s, k))
    && forall n, k :: k in Applied(env, valid, s, n) ==> Bound(s.table, k) == Bound(Applied(env, valid, s, n), k)
  }

  ghost predicate SomeApplied(env: Env, valid: Ingress -> bool, s: State, k: RouteKey) {
    exists n :: k in Applied(env, valid, s, n)
  }

  /** The changes that a sync, or a refresh, applies. */
  ghost function ToApply(valid: Ingress -> bool, s: State, step: Step): Items<RouteKey, Route> {
    if step.Refresh? then QueuedAll(step.env, valid, step.listed, s.items) else s.items
  }

  /** How queueing live Ingresses as new changes what is pending: every change still leads to the latest
      routes, and a change that went had nothing to do. */
  ghost predicate Requeued(env: Env, valid: Ingress -> bool, s: State, items: Items<RouteKey, Route>) {
    && (forall n :: n in items ==> Entries(items[n].current) == Wants(env, valid, Lookup(s.live, n)))
    && (forall n :: n in items && n in s.items ==>
      items[n].previous == s.items[n].previous || Entries(s.items[n].previous) == Wants(env, valid, Lookup(s.live, n)))
    && forall n :: n in s.items && n !in items ==>
      Entries(s.items[n].previous) == Wants(env, valid, Lookup(s.live, n))
  }

  lemma RequeuedMore(env: Env, valid: Ingress -> bool, s: State, items: Items<RouteKey, Route>, ing: Ingress)
    requires Requeued(env, valid, s, items) && ing.name in s.live && s.live[ing.name] == ing && valid(ing)
    ensures Requeued(env, valid, s, Recorded(items, ing.name, None, Some(Routes(env, ing))))
  {
    assert Lookup(s.live, ing.name) == Some(ing);
  }

  lemma GoodRequeued(env: Env, valid: Ingress -> bool, s: State)
    requires Good(env, valid, s)
    ensures Requeued(env, valid, s, s.items)
  {
    forall n | n in s.items ensures Entries(s.items[n].current) == Wants(env, valid, Lookup(s.live, n)) {
      assert LeadsToLatest(env, valid, s, n);
    }
  }

  lemma {:induction false} RequeuedAll(env: Env, valid: Ingress -> bool, s: State, listed: seq<Ingress>)
    requires Good(env, valid, s) && forall ing :: ing in listed ==> ing.name in s.live && s.live[ing.name] == ing
    ensures Requeued(env, valid, s, QueuedAll(env, valid, listed, s.items))
  {
    if listed == [] {
      GoodRequeued(env, valid, s);
    } else {
      var front, ing := listed[..|listed| - 1], listed[|listed| - 1];
      RequeuedAll(env, valid, s, front);
      assert ing in listed;
      if valid(ing) { RequeuedMore(env, valid, s, QueuedAll(env, valid, front, s.items), ing); }
    }
  }

  lemma RequeuedReady(env: Env, valid: Ingress -> bool, s: State, items: Items<RouteKey, Route>)
    requires Good(env, valid, s) && Requeued(env, valid, s, items)
    ensures Ready(env, valid, s.live, s.table, items)
  {
    forall n, k | n !in items && Asks(env, valid, s.live, n, k)
      ensures Bound(s.table, k) == RouteOf(env, valid, s.live, n, k)
    {
      assert Applied(env, valid, s, n) == Wants(env, valid, Lookup(s.live, n));
    }
    forall k | k in s.table && !Asked(env, valid, s.live, k) ensures SomePrevious(items, k) {
      assert SomeApplied(env, valid, s, k);
      var n :| k in Applied(env, valid, s, n);
      assert !Asks(env, valid, s.live, n, k);
      assert n in items && k in Entries(items[n].previous);
    }
  }

  lemma StepReady(env: Env, valid: Ingress -> bool, s: State, step: Step, s': State)
    requires Good(env, valid, s) && Next(valid, s, step, s') && !step.Seen? && (step.Refresh? ==> step.env == env)
    ensures Ready(env, valid, s.live, s.table, ToApply(valid, s, step))
  {
    if step.Refresh? { RequeuedAll(env, valid, s, step.listed); } else { GoodRequeued(env, valid, s); }
    RequeuedReady(env, valid, s, ToApply(valid, s, step));
  }

  lemma UnionIsGood(env: Env, valid: Ingress -> bool, s: State)
    requires s.items == map[] && IsUnion(env, valid, s.live, s.table)
    ensures Good(env, valid, s)
  {
    forall k | k in s.table ensures SomeApplied(env, valid, s, k) {
      var n :| k in Wants(env, valid, Lookup(s.live, n));
      assert k in Applied(env, valid, s, n);
    }
    forall n, k | k in Applied(env, valid, s, n) ensures Bound(s.table, k) == Bound(Applied(env, valid, s, n), k) {
      UnionAt(env, valid, s.live, s.table, n, k);
    }
  }

  lemma GoodIsUnion(env: Env, valid: Ingress -> bool, s: State)
    requires s.items == map[] && Good(env, valid, s)
    ensures IsUnion(env, valid, s.live, s.table)
  {
    forall k | k in s.table ensures exists n :: k in Wants(env, valid, Lookup(s.live, n)) {
      assert SomeApplied(env, valid, s, k);
      var n :| k in Applied(env, valid, s, n);
      assert k in Wants(env, valid, Lookup(s.live, n));
    }
    forall n, k | k in Wants(env, valid, Lookup(s.live, n))
      ensures k in s.table && s.table[k] == Wants(env, valid, Lookup(s.live, n))[k]
    {
      assert k in Applied(env, valid, s, n);
      assert Bound(s.table, k) == Bound(Applied(env, valid, s, n), k);
    }
  }

  /** An Ingress does not move between ours and not ours. */
  ghost predicate KeepsClass(valid: Ingress -> bool, s: State, step: Step) {
    step.Seen? && step.n in s.live && step.obj.Some? ==> (valid(s.live[step.n]) <==> valid(step.obj.value))
  }

  /** An event does not change what was applied. */
  lemma SeenApplied(env: Env, valid: Ingress -> bool, s: State, step: Step, s': State, m: NamespacedName)
    requires LeadsToLatest(env, valid, s, m)
    requires step.Seen? && step.env == env && Next(valid, s, step, s') && KeepsClass(valid, s, step)
    ensures Applied(env, valid, s', m) == Applied(env, valid, s, m) && LeadsToLatest(env, valid, s', m)
  {
    if m != step.n {
      assert Lookup(s'.live, m) == Lookup(s.live, m);
      assert (m in s'.items <==> m in s.items) && (m in s.items ==> s'.items[m] == s.items[m]);
    } else {
      SeenOwn(env, valid, s, step, s');
    }
  }

  lemma SeenOwn(env: Env, valid: Ingress -> bool, s: State, step: Step, s': State)
    requires step.Seen? && step.env == env && Next(valid, s, step, s') && KeepsClass(valid, s, step)
    requires LeadsToLatest(env, valid, s, step.n)
    ensures Applied(env, valid, s', step.n) == Applied(env, valid, s, step.n) && LeadsToLatest(env, valid, s', step.n)
  {
    var n, was, obj := step.n, Lookup(s.live, step.n), step.obj;
    assert Lookup(s'.live, n) == obj;
    var about := if obj.Some? then obj else was;
    if about.None? || !valid(about.value) {
      assert Wants(env, valid, was) == Wants(env, valid, obj) == map[];
    } else {
      assert Entries(Contributed(env, obj)) == Wants(env, valid, obj);
      assert Entries(Contributed(env, was)) == Wants(env, valid, was);
    }
  }

  lemma SeenGood(env: Env, valid: Ingress -> bool, s: State, step: Step, s': State)
    requires Good(env, valid, s) && step.Seen? && step.env == env
    requires Next(valid, s, step, s') && KeepsClass(valid, s, step)
    ensures Good(env, valid, s')
  {
    forall m ensures Applied(env, valid, s', m) == Applied(env, valid, s, m) && LeadsToLatest(env, valid, s', m) {
      SeenApplied(env, valid, s, step, s', m);
    }
    forall k | k in s'.table ensures SomeApplied(env, valid, s', k) {
      assert SomeApplied(env, valid, s, k);
      var n :| k in Applied(env, valid, s, n);
      assert k in Applied(env, valid, s', n);
    }
  }

  /** The answers never change and Ingresses keep their class. */
  ghost predicate Steady(env: Env, valid: Ingress -> bool, states: seq<State>, steps: seq<Step>) {
    && IsRun(valid, states, steps)
    && forall j :: 0 <= j < |steps| ==> SteadyAt(env, valid, states, steps, j)
  }

  ghost predicate SteadyAt(env: Env, valid: Ingress -> bool, states: seq<State>, steps: seq<Step>, j: int)
    requires 0 <= j < |steps| < |states|
  {
    (!steps[j].Drain? ==> steps[j].env == env) && KeepsClass(valid, states[j], steps[j])
  }

  /** If the step at `j` is a sync or a refresh, the Ingresses agree then. */
  ghost predicate AgreeAt(env: Env, valid: Ingress -> bool, states: seq<State>, steps: seq<Step>, j: int)
    requires 0 <= j < |steps| < |states|
  {
    !steps[j].Seen? ==> Agreeing(env, valid, states[j].live, ToApply(valid, states[j], steps[j]))
  }

  /** If it is one, every order of applying gives the union. */
  ghost predicate RightAt(env: Env, valid: Ingress -> bool, states: seq<State>, steps: seq<Step>, j: int)
    requires 0 <= j < |steps| < |states|
  {
    !steps[j].Seen? ==>
      UnionInEveryOrder(env, valid, states[j].live, states[j].table, ToApply(valid, states[j], steps[j]))
  }

  /** Each step of a steady run keeps the table in step if it is right; and it is right iff Ingresses agree. */
  lemma StepGood(env: Env, valid: Ingress -> bool, states: seq<State>, steps: seq<Step>, j: nat)
    requires Steady(env, valid, states, steps) && j < |steps| && Good(env, valid, states[j])
    ensures AgreeAt(env, valid, states, steps, j) <==> RightAt(env, valid, states, steps, j)
    ensures RightAt(env, valid, states, steps, j) ==> Good(env, valid, states[j + 1])
  {
    var s, step, s' := states[j], steps[j], states[j + 1];
    assert Next(valid, s, step, s') && SteadyAt(env, valid, states, steps, j);
    if step.Seen? {
      SeenGood(env, valid, s, step, s');
    } else {
      var items := ToApply(valid, s, step);
      StepReady(env, valid, s, step, s');
      UnionIff(env, valid, s.live, s.table, items);
      if RightAt(env, valid, states, steps, j) {
        assert IsUnion(env, valid, s.live, PatchedInOrder(s.table, items, step.order));
        UnionIsGood(env, valid, s');
      }
    }
  }

  lemma {:induction false} GoodAt(env: Env, valid: Ingress -> bool, states: seq<State>, steps: seq<Step>, i: nat)
    requires Steady(env, valid, states, steps) && i < |states|
    requires forall j :: 0 <= j < i ==> AgreeAt(env, valid, states, steps, j) || RightAt(env, valid, states, steps, j)
    ensures Good(env, valid, states[i])
  {
    if i > 0 {
      GoodAt(env, valid, states, steps, i - 1);
      StepGood(env, valid, states, steps, i - 1);
    }
  }

  /** In a steady run, for every interleaving of events, syncs and refreshes: all syncs and refreshes up to some
      moment are right in every order if and only if at each of them the Ingresses agree. */
  lemma SyncsRightIff(env: Env, valid: Ingress -> bool, states: seq<State>, steps: seq<Step>, n: nat)
    requires Steady(env, valid, states, steps) && n <= |steps|
    ensures (forall j :: 0 <= j < n ==> RightAt(env, valid, states, steps, j)) <==>
      forall j :: 0 <= j < n ==> AgreeAt(env, valid, states, steps, j)
  {
    if forall j :: 0 <= j < n ==> RightAt(env, valid, states, steps, j) {
      forall j | 0 <= j < n ensures AgreeAt(env, valid, states, steps, j) {
        GoodAt(env, valid, states, steps, j);
        StepGood(env, valid, states, steps, j);
      }
    }
    if forall j :: 0 <= j < n ==> AgreeAt(env, valid, states, steps, j) {
      forall j | 0 <= j < n ensures RightAt(env, valid, states, steps, j) {
        GoodAt(env, valid, states, steps, j);
        StepGood(env, valid, states, steps, j);
      }
    }
  }

  /** So the table right after such a sync or refresh is the union of the live Ingresses' routes. */
  lemma RoutesAreRebuilt(env: Env, valid: Ingress -> bool, states: seq<State>, steps: seq<Step>, i: nat)
    requires Steady(env, valid, states, steps) && i < |steps| && !steps[i].Seen?
    requires forall j :: 0 <= j <= i ==> AgreeAt(env, valid, states, steps, j)
    ensures IsUnion(env, valid, states[i + 1].live, states[i + 1].table)
  {
    GoodAt(env, valid, states, steps, i + 1);
    assert Next(valid, states[i], steps[i], states[i + 1]);
    GoodIsUnion(env, valid, states[i + 1]);
  }

  // ------------------------------------------------------------ missing annotations

  /** Upstream settings are made exactly when the Ingress has annotations. */
  ghost predicate EnrichesByAnnotations(env: Env) {
    forall ing, r :: env.enrich(ing, r).upstream.None? <==> ing.annotations.None?
  }

  lemma RouteUpstream(env: Env, ing: Ingress, k: RouteKey)
    requires EnrichesByAnnotations(env) && k in Routes(env, ing)
    ensures Routes(env, ing)[k].details.upstream.None? <==> ing.annotations.None?
  {
    FirstPathWins(env, ing, k);
    var cs := Candidates(env, ing);
    var i :| FirstAt(cs, i, k) && Routes(env, ing)[k] == cs[i].route;
    assert cs[i] in cs;
    CandidatesMembers(env, ing, cs[i]);
    var r, p :| r in ing.rules && r.http.Some? && p in r.http.value && CandidateOf(env, ing, r, p) == Some(cs[i]);
    assert cs[i].route.details == env.enrich(ing, r);
  }

  /** The Ingress is live, has routes and has no annotations. */
  ghost predicate Unannotated(env: Env, valid: Ingress -> bool, live: map<NamespacedName, Ingress>, n: NamespacedName) {
    n in live && live[n].annotations.None? && Wants(env, valid, Lookup(live, n)) != map[]
  }

  /** The table holds a route without upstream settings, on which building the configuration crashes, if and
      only if some routed Ingress has no annotations. */
  lemma CrashIffUnannotated(env: Env, valid: Ingress -> bool, live: map<NamespacedName, Ingress>, table: RouteMap)
    requires EnrichesByAnnotations(env) && IsUnion(env, valid, live, table)
    ensures (exists k :: WithoutUpstream(table, k)) <==> exists n :: Unannotated(env, valid, live, n)
  {
    if k :| WithoutUpstream(table, k) {
      var n :| k in Wants(env, valid, Lookup(live, n));
      RouteUpstream(env, live[n], k);
      assert Unannotated(env, valid, live, n);
    }
    if n :| Unannotated(env, valid, live, n) {
      var k :| k in Wants(env, valid, Lookup(live, n));
      RouteUpstream(env, live[n], k);
      assert WithoutUpstream(table, k);
    }
  }
}
