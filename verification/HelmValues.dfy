/** The recursive merge of Helm values (pkg/helm/helm.go). */
module HelmValues {
  import opened Options

  /** A value is a nested map or anything else. */
  datatype Value = Leaf(text: string) | Node(fields: map<string, Value>)

  type Values = v: Value | v.Node? witness Node(map[])

  predicate BothNodes(a: Value, b: Value) { a.Node? && b.Node? }

  /** `b` merged over `a`: maps are merged, anything else is replaced. */
  function Merge(a: Values, b: Values): (m: Values)
    decreases b
  {
    Node(map k | k in a.fields.Keys + b.fields.Keys ::
           if k !in b.fields then a.fields[k]
           else if k in a.fields && BothNodes(a.fields[k], b.fields[k]) then Merge(a.fields[k], b.fields[k])
           else b.fields[k])
  }

  method MergeMaps(a: Values, b: Values) returns (out: Values)
    ensures out == Merge(a, b)
    decreases b
  {
    var fields: map<string, Value> := map[];
    var rest := a.fields.Keys;
    while rest != {}
      invariant rest <= a.fields.Keys
      invariant fields == a.fields - rest
      decreases rest
    {
      var k :| k in rest;
      fields, rest := fields[k := a.fields[k]], rest - {k};
    }
    assert fields == a.fields;
    rest := b.fields.Keys;
    ghost var whole := Merge(a, b).fields;
    while rest != {}
      invariant rest <= b.fields.Keys
      invariant fields.Keys == a.fields.Keys + (b.fields.Keys - rest)
      invariant forall k :: k in fields ==> fields[k] == if k in b.fields && k !in rest then whole[k] else a.fields[k]
      decreases rest
    {
      var k :| k in rest;
      var v := b.fields[k];
      if v.Node? && k in fields && fields[k].Node? {
        var m := MergeMaps(fields[k], v);
        fields := fields[k := m];
      } else {
        fields := fields[k := v];
      }
      rest := rest - {k};
    }
    out := Node(fields);
    assert fields == whole;
  }

  // --------------------------------------------------------------- lookup by path

  function Get(v: Value, path: seq<string>): Option<Value>
    decreases |path|
  {
    if path == [] then Some(v)
    else if v.Leaf? || path[0] !in v.fields then None
    else Get(v.fields[path[0]], path[1..])
  }

  /** Some proper prefix of the path is not a map there. */
  predicate Blocked(v: Value, path: seq<string>)
    decreases |path|
  {
    path != [] && (v.Leaf? || (path[0] in v.fields && Blocked(v.fields[path[0]], path[1..])))
  }

  /** Right-biased lookup: what `b` has at a path wins, maps at the same path are merged, and `a` shows
      through only where `b` has nothing on the way. */
  lemma {:induction false} LookupRightBiased(a: Values, b: Values, path: seq<string>)
    ensures Get(Merge(a, b), path) ==
      match Get(b, path)
      case Some(v) => (
        match Get(a, path)
        case Some(u) => if BothNodes(u, v) then Some(Merge(u, v)) else Some(v)
        case None => Some(v))
      case None => if Blocked(b, path) then None else Get(a, path)
    decreases |path|
  {
    if path != [] {
      var k := path[0];
      if k in b.fields {
        if k in a.fields && BothNodes(a.fields[k], b.fields[k]) {
          LookupRightBiased(a.fields[k], b.fields[k], path[1..]);
        } else if k in a.fields {
          LeafGet(a.fields[k], path[1..]);
          LeafGet(b.fields[k], path[1..]);
        }
      }
    }
  }

  lemma LeafGet(v: Value, path: seq<string>)
    ensures v.Leaf? ==> Get(v, path) == if path == [] then Some(v) else None
    ensures v.Leaf? ==> (Blocked(v, path) <==> path != [])
  {
  }

  lemma GetOne(v: Values, k: string)
    requires k in v.fields
    ensures Get(v, [k]) == Some(v.fields[k])
  {
    assert [k][1..] == [];
  }

  // ------------------------------------------------------------------------ algebra

  lemma {:induction false} MergeIdempotent(a: Values)
    ensures Merge(a, a) == a
    decreases a
  {
    forall k | k in a.fields && a.fields[k].Node? ensures Merge(a.fields[k], a.fields[k]) == a.fields[k] {
      MergeIdempotent(a.fields[k]);
    }
    assert Merge(a, a).fields == a.fields;
  }

  /** Merging the same values in again changes nothing. */
  lemma {:induction false} MergeAgain(a: Values, b: Values)
    ensures Merge(Merge(a, b), b) == Merge(a, b)
    decreases b
  {
    var m := Merge(a, b);
    forall k | k in b.fields && b.fields[k].Node? && m.fields[k].Node?
      ensures Merge(m.fields[k], b.fields[k]) == m.fields[k]
    {
      if k in a.fields && a.fields[k].Node? {
        MergeAgain(a.fields[k], b.fields[k]);
      } else {
        MergeIdempotent(b.fields[k]);
      }
    }
    assert Merge(m, b).fields == m.fields;
  }

  /** Every key of `a` is in `c`, and so on down wherever both are maps. */
  predicate Absorbed(a: Values, c: Values)
    decreases c
  {
    forall k :: k in a.fields ==>
      k in c.fields && (BothNodes(a.fields[k], c.fields[k]) ==> Absorbed(a.fields[k], c.fields[k]))
  }

  /** Merging `c` over `a` gives `c` exactly when `c` absorbs `a`. */
  lemma {:induction false} AbsorbedIff(a: Values, c: Values)
    ensures Merge(a, c) == c <==> Absorbed(a, c)
    decreases c
  {
    var m := Merge(a, c);
    forall k | k in a.fields && k in c.fields && BothNodes(a.fields[k], c.fields[k])
      ensures m.fields[k] == c.fields[k] <==> Absorbed(a.fields[k], c.fields[k])
    {
      AbsorbedIff(a.fields[k], c.fields[k]);
    }
    if Absorbed(a, c) {
      assert m.fields == c.fields;
    }
    if m == c {
      assert forall k :: k in a.fields ==> k in m.fields;
    }
  }

  /** At this path `a` and `c` have maps and `b` something else, and `c` does not absorb `a`. */
  predicate ClashAt(a: Values, b: Values, c: Values, path: seq<string>) {
    var u, v, w := Get(a, path), Get(b, path), Get(c, path);
    u.Some? && v.Some? && w.Some? && u.value.Node? && v.value.Leaf? && w.value.Node? && !Absorbed(u.value, w.value)
  }

  lemma ClashBelow(a: Values, b: Values, c: Values, k: string, path: seq<string>)
    requires k in a.fields && k in b.fields && k in c.fields
    requires a.fields[k].Node? && b.fields[k].Node? && c.fields[k].Node?
    ensures ClashAt(a, b, c, [k] + path) <==> ClashAt(a.fields[k], b.fields[k], c.fields[k], path)
  {
    assert ([k] + path)[1..] == path;
  }

  ghost predicate Clashes(a: Values, b: Values, c: Values) {
    exists path :: ClashAt(a, b, c, path)
  }

  /** How both ways of merging three values compare under one key. */
  lemma AssociativeAt(a: Values, b: Values, c: Values, k: string)
    requires k in a.fields || k in b.fields || k in c.fields
    ensures var l, r := Merge(Merge(a, b), c).fields, Merge(a, Merge(b, c)).fields;
      && k in l && k in r
      && if k in a.fields && k in b.fields && k in c.fields && a.fields[k].Node? && c.fields[k].Node? then
           if b.fields[k].Node?
           then l[k] == Merge(Merge(a.fields[k], b.fields[k]), c.fields[k])
             && r[k] == Merge(a.fields[k], Merge(b.fields[k], c.fields[k]))
           else l[k] == c.fields[k] && r[k] == Merge(a.fields[k], c.fields[k])
         else l[k] == r[k]
  {
  }

  /** Merging three values is associative exactly when there is no clash. */
  lemma {:induction false} AssociativeIff(a: Values, b: Values, c: Values)
    ensures Merge(Merge(a, b), c) == Merge(a, Merge(b, c)) <==> !Clashes(a, b, c)
    decreases c
  {
    var l, r := Merge(Merge(a, b), c), Merge(a, Merge(b, c));
    if !Clashes(a, b, c) {
      forall k | k in l.fields ensures k in r.fields && l.fields[k] == r.fields[k] {
        AssociativeAt(a, b, c, k);
        AgreeUnder(a, b, c, k);
      }
      assert l.fields.Keys == r.fields.Keys;
      assert l.fields == r.fields;
    }
    if l == r {
      forall path ensures !ClashAt(a, b, c, path) {
        if path != [] && ClashAt(a, b, c, path) {
          var k := path[0];
          assert path == [k] + path[1..];
          AssociativeAt(a, b, c, k);
          DisagreeUnder(a, b, c, k, path[1..]);
        }
      }
    }
  }

  lemma {:induction false} AgreeUnder(a: Values, b: Values, c: Values, k: string)
    requires !Clashes(a, b, c) && (k in a.fields || k in b.fields || k in c.fields)
    ensures Merge(Merge(a, b), c).fields[k] == Merge(a, Merge(b, c)).fields[k]
    decreases c, 0
  {
    AssociativeAt(a, b, c, k);
    if k in a.fields && k in b.fields && k in c.fields && a.fields[k].Node? && c.fields[k].Node? {
      if b.fields[k].Node? {
        forall path ensures !ClashAt(a.fields[k], b.fields[k], c.fields[k], path) {
          ClashBelow(a, b, c, k, path);
        }
        AssociativeIff(a.fields[k], b.fields[k], c.fields[k]);
      } else {
        assert !ClashAt(a, b, c, [k]);
        GetOne(a, k);
        GetOne(b, k);
        GetOne(c, k);
        AbsorbedIff(a.fields[k], c.fields[k]);
      }
    }
  }

  lemma {:induction false} DisagreeUnder(a: Values, b: Values, c: Values, k: string, path: seq<string>)
    requires ClashAt(a, b, c, [k] + path)
    ensures Merge(Merge(a, b), c) != Merge(a, Merge(b, c))
    decreases c, 0
  {
    assert ([k] + path)[1..] == path;
    LeafGet(a.fields[k], path);
    LeafGet(b.fields[k], path);
    LeafGet(c.fields[k], path);
    AssociativeAt(a, b, c, k);
    if b.fields[k].Node? {
      ClashBelow(a, b, c, k, path);
      AssociativeIff(a.fields[k], b.fields[k], c.fields[k]);
    } else {
      assert [k] + path == [k];
      GetOne(a, k);
      GetOne(c, k);
      AbsorbedIff(a.fields[k], c.fields[k]);
    }
  }
}
