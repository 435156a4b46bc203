/** The change trackers of the local cache: informer events are coalesced per object and later
    patched into one big table (pkg/cache/endpoints.go, service.go, serviceimport.go). */
module ChangeTracking {
  import opened Bags
  import opened Options
  import opened Names

  /** What an object adds to the table; None is Go's nil map, which differs from an empty one. */
  type Contribution<K, V> = Option<map<K, V>>

  datatype Change<K, V> = Change(previous: Contribution<K, V>, current: Contribution<K, V>)

  type Items<K, V> = map<NamespacedName, Change<K, V>>

  function Entries<K, V>(c: Contribution<K, V>): map<K, V> {
    c.GetOr(map[])
  }

  /** The pending changes after one event: the first `previous` of an object is kept, and a change
      that came back to it is dropped. */
  function Recorded<K, V(==)>(items: Items<K, V>, n: NamespacedName, previous: Contribution<K, V>,
                         current: Contribution<K, V>): Items<K, V> {
    var change := Change(if n in items then items[n].previous else previous, current);
    if change.previous == change.current then items - {n} else items[n := change]
  }

  /** An event touches the change of its object only: that goes from the first previous entries to the latest
      ones, and is there exactly if these differ. */
  lemma RecordedAt<K, V>(items: Items<K, V>, n: NamespacedName, previous: Contribution<K, V>,
                             current: Contribution<K, V>, m: NamespacedName)
    ensures var after, first := Recorded(items, n, previous, current),
      if n in items then items[n].previous else previous;
      && (m != n ==> (m in after <==> m in items) && (m in items ==> after[m] == items[m]))
      && (n in after <==> first != current)
      && (n in after ==> after[n].previous == first && after[n].current == current)
  {
  }

  /** Events of one object, each from where the one before it ended. */
  function RecordedAll<K, V(==)>(items: Items<K, V>, n: NamespacedName, first: Contribution<K, V>,
                                 later: seq<Contribution<K, V>>): Items<K, V> {
    if later == [] then items else
    var last := |later| - 1;
    Recorded(RecordedAll(items, n, first, later[..last]), n, if last == 0 then first else later[last - 1], later[last])
  }

  /** However many events an object has between two syncs, they leave one change, from the first entries to the
      last, or none if it came back to where it was. */
  lemma {:induction false} EventsCoalesce<K, V>(items: Items<K, V>, n: NamespacedName, first: Contribution<K, V>,
                                                    later: seq<Contribution<K, V>>)
    requires n !in items && later != []
    ensures RecordedAll(items, n, first, later) ==
      if later[|later| - 1] == first then items else items[n := Change(first, later[|later| - 1])]
  {
    var last := |later| - 1;
    if last > 0 { EventsCoalesce(items, n, first, later[..last]); }
  }

  function Unmerged<K, V>(table: map<K, V>, other: Contribution<K, V>): map<K, V> {
    table - Entries(other).Keys
  }

  function Merged<K, V>(table: map<K, V>, other: Contribution<K, V>): map<K, V> {
    table + Entries(other)
  }

  /** One change applied the way endpoints and routes do it: unmerge, then merge. */
  function Patched<K, V>(table: map<K, V>, ch: Change<K, V>): map<K, V> {
    Merged(Unmerged(table, ch.previous), ch.current)
  }

  /** Merge, filter, unmerge (the Service way) does the same to every table. */
  lemma MergeFilterUnmerge<K, V>(table: map<K, V>, ch: Change<K, V>)
    ensures Merged(table, ch.current) - (Entries(ch.previous) - Entries(ch.current).Keys).Keys == Patched(table, ch)
  {
  }

  // ----------------------------------------------------------- imperative form

  class ChangeTracker<K(==), V(==)> {
    var items: Items<K, V>

    constructor ()
      ensures items == map[]
    {
      items := map[];
    }

    method Record(n: NamespacedName, previous: Contribution<K, V>, current: Contribution<K, V>) returns (pending: bool)
      modifies this
      ensures items == Recorded(old(items), n, previous, current)
      ensures pending <==> items != map[]
    {
      var change := Change(previous, current);
      if n in items {
        change := items[n].(current := current);
      }
      items := items[n := change];
      if change.previous == change.current {
        assert old(items)[n := change] - {n} == old(items) - {n};
        items := items - {n};
      }
      pending := |items| > 0;
    }

    method CheckoutChanges() returns (changes: Items<K, V>)
      modifies this
      ensures changes == old(items) && items == map[]
    {
      changes := items;
      items := map[];
    }
  }

  /** A Go map that the cache merges contributions into and out of. */
  class Table<K(==), V(==)> {
    var entries: map<K, V>

    constructor ()
      ensures entries == map[]
    {
      entries := map[];
    }

    method Merge(other: Contribution<K, V>)
      modifies this
      ensures entries == Merged(old(entries), other)
    {
      var from := Entries(other);
      var rest := from.Keys;
      while rest != {}
        invariant rest <= from.Keys
        invariant entries == old(entries) + (from - rest)
        decreases rest
      {
        var k :| k in rest;
        entries, rest := entries[k := from[k]], rest - {k};
      }
    }

    method Unmerge(other: Contribution<K, V>)
      modifies this
      ensures entries == Unmerged(old(entries), other)
    {
      var rest := Entries(other).Keys;
      while rest != {}
        invariant rest <= Entries(other).Keys
        invariant entries == old(entries) - (Entries(other).Keys - rest)
        decreases rest
      {
        var k :| k in rest;
        entries, rest := entries - {k}, rest - {k};
      }
    }

    static method Filter(from: Contribution<K, V>, other: Contribution<K, V>) returns (left: Contribution<K, V>)
      ensures Entries(left) == Entries(from) - Entries(other).Keys
    {
      left := from;
      var rest := Entries(from).Keys;
      while rest != {}
        invariant rest <= Entries(from).Keys
        invariant Entries(left) == Entries(from) - (Entries(other).Keys * (Entries(from).Keys - rest))
        decreases rest
      {
        var k :| k in rest;
        if k in Entries(other) {
          left := Some(Entries(left) - {k});
        }
        rest := rest - {k};
      }
    }

    /** Endpoints style: check the changes out, then unmerge and merge them one by one. */
    method ApplyUnmergeMerge(tracker: ChangeTracker<K, V>) returns (ghost order: seq<NamespacedName>)
      modifies this, tracker
      ensures tracker.items == map[]
      ensures Enumerates(order, old(tracker.items).Keys)
      ensures entries == PatchedInOrder(old(entries), old(tracker.items), order)
    {
      var changes := tracker.CheckoutChanges();
      var rest := changes.Keys;
      order := [];
      while rest != {}
        invariant rest <= changes.Keys && tracker.items == map[]
        invariant Enumerates(order, changes.Keys - rest)
        invariant entries == PatchedInOrder(old(entries), changes, order)
        decreases rest
      {
        var n :| n in rest;
        Unmerge(changes[n].previous);
        Merge(changes[n].current);
        assert (order + [n])[..|order|] == order;
        order, rest := order + [n], rest - {n};
      }
    }

    /** Service style: merge, filter the previous entries, unmerge what is left of them. */
    method ApplyMergeFilterUnmerge(tracker: ChangeTracker<K, V>) returns (ghost order: seq<NamespacedName>)
      modifies this, tracker
      ensures tracker.items == map[]
      ensures Enumerates(order, old(tracker.items).Keys)
      ensures entries == PatchedInOrder(old(entries), old(tracker.items), order)
    {
      var changes := tracker.items;
      var rest := changes.Keys;
      order := [];
      while rest != {}
        invariant rest <= changes.Keys && tracker.items == changes
        invariant Enumerates(order, changes.Keys - rest)
        invariant entries == PatchedInOrder(old(entries), changes, order)
        decreases rest
      {
        var n :| n in rest;
        ghost var before := entries;
        Merge(changes[n].current);
        var previous := Filter(changes[n].previous, changes[n].current);
        Unmerge(previous);
        MergeFilterUnmerge(before, changes[n]);
        assert (order + [n])[..|order|] == order;
        order, rest := order + [n], rest - {n};
      }
      tracker.items := map[];
    }
  }

  function PatchedInOrder<K, V>(table: map<K, V>, items: Items<K, V>, order: seq<NamespacedName>): map<K, V>
    requires forall n :: n in order ==> n in items
  {
    if order == [] then table else
    var last := order[|order| - 1];
    Patched(PatchedInOrder(table, items, order[..|order| - 1]), items[last])
  }

  // ------------------------------------------------- ownership and confluence

  /** The part of a table that belongs to one object. */
  ghost function Slice<V>(table: map<ServicePortName, V>, n: NamespacedName): map<ServicePortName, V> {
    map k | k in table && k.namespacedName == n :: table[k]
  }

  ghost predicate Owned<V>(n: NamespacedName, c: Contribution<ServicePortName, V>) {
    forall k :: k in Entries(c) ==> k.namespacedName == n
  }

  ghost predicate ItemsOwned<V>(items: Items<ServicePortName, V>) {
    forall n :: n in items ==> Owned(n, items[n].previous) && Owned(n, items[n].current)
  }

  /** `table'` is `table` with every pending change applied to the part its object owns. */
  ghost predicate AppliedTo<V>(table: map<ServicePortName, V>, items: Items<ServicePortName, V>,
                               table': map<ServicePortName, V>) {
    forall n :: Slice(table', n) == if n in items then Patched(Slice(table, n), items[n]) else Slice(table, n)
  }

  lemma PatchedSlices<V>(table: map<ServicePortName, V>, n: NamespacedName, ch: Change<ServicePortName, V>,
                         m: NamespacedName)
    requires Owned(n, ch.previous) && Owned(n, ch.current)
    ensures Slice(Patched(table, ch), m) == if m == n then Patched(Slice(table, n), ch) else Slice(table, m)
  {
    var left, right := Slice(Patched(table, ch), m), if m == n then Patched(Slice(table, n), ch) else Slice(table, m);
    assert left.Keys == right.Keys;
  }

  lemma AppliedOneMore<V>(table: map<ServicePortName, V>, items: Items<ServicePortName, V>, rest: set<NamespacedName>,
                          n: NamespacedName, before: map<ServicePortName, V>)
    requires ItemsOwned(items) && n in rest && rest <= items.Keys
    requires AppliedTo(table, items - rest, before)
    ensures AppliedTo(table, items - (rest - {n}), Patched(before, items[n]))
  {
    var after := Patched(before, items[n]);
    forall m ensures Slice(after, m) ==
      if m in items - (rest - {n}) then Patched(Slice(table, m), items[m]) else Slice(table, m) {
      PatchedSlices(before, n, items[n], m);
      assert Slice(before, m) == if m in items - rest then Patched(Slice(table, m), items[m]) else Slice(table, m);
    }
  }

  /** A table is determined by its slices. */
  lemma SlicesDetermine<V>(a: map<ServicePortName, V>, b: map<ServicePortName, V>)
    requires forall n :: Slice(a, n) == Slice(b, n)
    ensures a == b
  {
    forall k | k in a ensures k in b && a[k] == b[k] {
      assert k in Slice(a, k.namespacedName);
    }
    forall k | k in b ensures k in a {
      assert k in Slice(b, k.namespacedName);
    }
  }

  /** Confluence: whatever order the changes are applied in, there is one possible result. */
  lemma ApplyConfluent<V>(table: map<ServicePortName, V>, items: Items<ServicePortName, V>,
                          a: map<ServicePortName, V>, b: map<ServicePortName, V>)
    requires AppliedTo(table, items, a) && AppliedTo(table, items, b)
    ensures a == b
  {
    SlicesDetermine(a, b);
  }

  /** Every iteration order that visits each pending object once gives that result. */
  lemma {:induction false} AnyOrderApplies<V>(table: map<ServicePortName, V>, items: Items<ServicePortName, V>,
                                              order: seq<NamespacedName>)
    requires ItemsOwned(items)
    requires forall n :: n in order ==> n in items
    requires forall i, j :: 0 <= i < j < |order| ==> order[i] != order[j]
    ensures AppliedTo(table, items - (items.Keys - set n | n in order), PatchedInOrder(table, items, order))
  {
    if order == [] {
      assert items - (items.Keys - set n | n in order) == map[];
    } else {
      var front, last := order[..|order| - 1], order[|order| - 1];
      AnyOrderApplies(table, items, front);
      var rest := items.Keys - set n | n in front;
      AppliedOneMore(table, items, rest, last, PatchedInOrder(table, items, front));
      assert (set n | n in order) == (set n | n in front) + {last};
      assert rest - {last} == items.Keys - set n | n in order;
    }
  }

  /** So both ways of applying, in any order, do what `AppliedTo` says. */
  lemma OrderApplies<V>(table: map<ServicePortName, V>, items: Items<ServicePortName, V>, order: seq<NamespacedName>)
    requires ItemsOwned(items) && Enumerates(order, items.Keys)
    ensures AppliedTo(table, items, PatchedInOrder(table, items, order))
  {
    AnyOrderApplies(table, items, order);
    assert items.Keys == set n | n in order;
    assert items - (items.Keys - set n | n in order) == items;
  }

  // ------------------------------------------------------------ the cache runs

  /** Values seen through `view`: the identity for exact claims, a constant for claims on keys. */
  ghost function Project<K, V, W>(view: V -> W, m: map<K, V>): map<K, W> {
    map k | k in m :: view(m[k])
  }

  function Same<T>(t: T): T { t }

  lemma ProjectSame<K, V>(m: map<K, V>)
    ensures Project(Same, m) == m
  {
  }

  lemma ProjectKeys<K, V, W>(view: V -> W, m: map<K, V>)
    ensures Project(view, m).Keys == m.Keys
  {
  }

  /** A cache over objects of type O: the live objects, the pending changes and the table. */
  datatype Cache<O, V> = Cache(live: map<NamespacedName, O>, items: Items<ServicePortName, V>,
                               table: map<ServicePortName, V>)

  /** An event carries the contributions computed for the old and the new object when it arrived;
      a skipped event reaches the informer's store but not the tracker. */
  datatype CacheStep<O, V> =
    | Event(n: NamespacedName, obj: Option<O>, previous: Contribution<ServicePortName, V>,
      current: Contribution<ServicePortName, V>, skipped: bool)
    | Sync

  ghost function Lookup<O>(live: map<NamespacedName, O>, n: NamespacedName): Option<O> {
    if n in live then Some(live[n]) else None
  }

  /** What the object, if any, should add to the table, as far as `view` can see. */
  ghost function Wanted<O, W>(conv: O -> map<ServicePortName, W>, o: Option<O>): map<ServicePortName, W> {
    match o case None => map[] case Some(v) => conv(v)
  }

  ghost predicate Takes<O, V, W>(view: V -> W, conv: O -> map<ServicePortName, W>, s: Cache<O, V>,
                                 step: CacheStep<O, V>, s': Cache<O, V>) {
    match step
    case Event(n, obj, previous, current, skipped) =>
      && Owned(n, previous) && Owned(n, current)
      && Project(view, Entries(previous)) == Wanted(conv, Lookup(s.live, n))
      && Project(view, Entries(current)) == Wanted(conv, obj)
      && s' == s.(live := (match obj case None => s.live - {n} case Some(o) => s.live[n := o]),
                  items := if skipped then s.items else Recorded(s.items, n, previous, current))
    case Sync =>
      && AppliedTo(s.table, s.items, s'.table)
      && s' == Cache(s.live, map[], s'.table)
  }

  /** A skipped event is harmless when the old and the new object add the same. */
  ghost predicate Harmless<O, V, W>(conv: O -> map<ServicePortName, W>, s: Cache<O, V>, step: CacheStep<O, V>) {
    step.Event? && step.skipped ==> Wanted(conv, Lookup(s.live, step.n)) == Wanted(conv, step.obj)
  }

  /** A pending item carries what was last applied and what is latest; without one the two agree. */
  ghost predicate InStep<O, V, W>(view: V -> W, conv: O -> map<ServicePortName, W>, s: Cache<O, V>, n: NamespacedName) {
    var applied, latest := Project(view, Slice(s.table, n)), Wanted(conv, Lookup(s.live, n));
    if n in s.items
    then Project(view, Entries(s.items[n].previous)) == applied && Project(view, Entries(s.items[n].current)) == latest
    else applied == latest
  }

  ghost predicate CacheInv<O, V, W>(view: V -> W, conv: O -> map<ServicePortName, W>, s: Cache<O, V>) {
    ItemsOwned(s.items) && forall n :: InStep(view, conv, s, n)
  }

  lemma EventInv<O, V, W>(view: V -> W, conv: O -> map<ServicePortName, W>, s: Cache<O, V>, step: CacheStep<O, V>,
                          s': Cache<O, V>)
    requires CacheInv(view, conv, s) && Takes(view, conv, s, step, s') && step.Event? && Harmless(conv, s, step)
    ensures CacheInv(view, conv, s')
  {
    forall m ensures InStep(view, conv, s', m) {
      assert InStep(view, conv, s, m);
      if m != step.n {
        assert Lookup(s'.live, m) == Lookup(s.live, m);
        assert (m in s'.items <==> m in s.items) && (m in s.items ==> s'.items[m] == s.items[m]);
      } else {
        assert Lookup(s'.live, m) == step.obj;
      }
    }
  }

  lemma SyncInv<O, V, W>(view: V -> W, conv: O -> map<ServicePortName, W>, s: Cache<O, V>, s': Cache<O, V>)
    requires CacheInv(view, conv, s) && Takes(view, conv, s, Sync, s')
    ensures CacheInv(view, conv, s')
  {
    forall n ensures InStep(view, conv, s', n) {
      assert InStep(view, conv, s, n);
      if n in s.items {
        var slice := Slice(s.table, n);
        ProjectKeys(view, slice);
        ProjectKeys(view, Entries(s.items[n].previous));
        assert slice.Keys == Entries(s.items[n].previous).Keys;
        assert Patched(slice, s.items[n]) == Entries(s.items[n].current);
      }
    }
  }

  ghost predicate IsCacheRun<O, V, W>(view: V -> W, conv: O -> map<ServicePortName, W>, states: seq<Cache<O, V>>,
                                      steps: seq<CacheStep<O, V>>) {
    && |states| == |steps| + 1
    && states[0] == Cache(map[], map[], map[])
    && forall i :: 0 <= i < |steps| ==>
      Takes(view, conv, states[i], steps[i], states[i + 1]) && Harmless(conv, states[i], steps[i])
  }

  /** Over every interleaving of events and syncs the pending items stay in step with the table. */
  lemma {:induction false} CacheInvAt<O, V, W>(view: V -> W, conv: O -> map<ServicePortName, W>,
                                               states: seq<Cache<O, V>>, steps: seq<CacheStep<O, V>>, i: nat)
    requires IsCacheRun(view, conv, states, steps) && i < |states|
    ensures CacheInv(view, conv, states[i])
  {
    if i == 0 {
      forall n ensures InStep(view, conv, states[0], n) {
        assert Slice(states[0].table, n) == map[];
      }
    } else {
      CacheInvAt(view, conv, states, steps, i - 1);
      if steps[i - 1].Event? {
        EventInv(view, conv, states[i - 1], steps[i - 1], states[i]);
      } else {
        SyncInv(view, conv, states[i - 1], states[i]);
      }
    }
  }

  /** The table one gets by converting all live objects anew. */
  ghost predicate IsRebuild<O, W>(conv: O -> map<ServicePortName, W>, live: map<NamespacedName, O>,
                                  table: map<ServicePortName, W>) {
    && (forall k :: k in table <==> k.namespacedName in live && k in conv(live[k.namespacedName]))
    && forall k :: k in table ==> table[k] == conv(live[k.namespacedName])[k]
  }

  lemma InStepRebuilds<O, V, W>(view: V -> W, conv: O -> map<ServicePortName, W>, s: Cache<O, V>)
    requires CacheInv(view, conv, s) && s.items == map[]
    ensures IsRebuild(conv, s.live, Project(view, s.table))
  {
    var t := Project(view, s.table);
    forall k
      ensures k in t <==> k.namespacedName in s.live && k in conv(s.live[k.namespacedName])
      ensures k in t ==> t[k] == conv(s.live[k.namespacedName])[k]
    {
      var n := k.namespacedName;
      assert InStep(view, conv, s, n);
      assert k in s.table <==> k in Project(view, Slice(s.table, n));
    }
  }

  /** The incremental table right after a sync is the rebuilt one. */
  lemma SyncRefinesRebuild<O, V, W>(view: V -> W, conv: O -> map<ServicePortName, W>,
                                    states: seq<Cache<O, V>>, steps: seq<CacheStep<O, V>>, i: nat)
    requires IsCacheRun(view, conv, states, steps) && i < |steps| && steps[i].Sync?
    ensures IsRebuild(conv, states[i + 1].live, Project(view, states[i + 1].table))
  {
    CacheInvAt(view, conv, states, steps, i + 1);
    InStepRebuilds(view, conv, states[i + 1]);
  }

  /** Skipping an event is safe exactly when it is harmless, whatever else is pending: otherwise the next
      sync leaves the table different from the rebuilt one. */
  lemma SkipSafeIff<O, V, W>(view: V -> W, conv: O -> map<ServicePortName, W>,
                             s: Cache<O, V>, step: CacheStep<O, V>, s1: Cache<O, V>, s2: Cache<O, V>)
    requires CacheInv(view, conv, s) && step.Event? && step.skipped
    requires Takes(view, conv, s, step, s1) && Takes(view, conv, s1, Sync, s2)
    ensures IsRebuild(conv, s2.live, Project(view, s2.table)) <==> Harmless(conv, s, step)
  {
    if Harmless(conv, s, step) {
      EventInv(view, conv, s, step, s1);
      SyncInv(view, conv, s1, s2);
      InStepRebuilds(view, conv, s2);
    }
    var unskipped := Cache(s.live, map[], s2.table);
    SyncInv(view, conv, s, unskipped);
    if IsRebuild(conv, s2.live, Project(view, s2.table)) {
      assert InStep(view, conv, unskipped, step.n);
      RebuildSlice(view, conv, s2, step.n, Entries(step.current));
    }
  }

  /** A rebuilt table has, for every object, what the object should add. */
  lemma RebuildSlice<O, V, W>(view: V -> W, conv: O -> map<ServicePortName, W>, s: Cache<O, V>,
                              n: NamespacedName, now: map<ServicePortName, V>)
    requires IsRebuild(conv, s.live, Project(view, s.table))
    requires Owned(n, Some(now)) && Project(view, now) == Wanted(conv, Lookup(s.live, n))
    ensures Project(view, Slice(s.table, n)) == Wanted(conv, Lookup(s.live, n))
  {
    var was, wanted := Project(view, Slice(s.table, n)), Wanted(conv, Lookup(s.live, n));
    ProjectKeys(view, now);
    forall k ensures k in was <==> k in wanted {
      assert k in was <==> k in Project(view, s.table) && k.namespacedName == n;
    }
    assert was == wanted;
  }
}
