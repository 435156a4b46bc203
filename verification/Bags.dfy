/** Sequences seen as bags: what the models need where Go leaves an order open. */
module Bags {
  lemma NoElements<T>(s: seq<T>)
    ensures s == [] <==> forall x :: x !in s
  {
    if s != [] { assert s[0] in s; }
  }

  ghost predicate Distinct<T>(s: seq<T>) {
    forall i, j :: 0 <= i < j < |s| ==> s[i] != s[j]
  }

  /** `s` lists the set, each element once, in some order. */
  ghost predicate Enumerates<T>(s: seq<T>, of: set<T>) {
    && Distinct(s)
    && (forall x :: x in s ==> x in of)
    && (forall x :: x in of ==> x in s)
  }

  function Cut<T>(s: seq<T>, i: nat): seq<T>
    requires i < |s|
  {
    s[..i] + s[i + 1..]
  }

  lemma CutBag<T>(s: seq<T>, i: nat)
    requires i < |s|
    ensures multiset(s) == multiset(Cut(s, i)) + multiset{s[i]}
  {
    assert s == s[..i] + ([s[i]] + s[i + 1..]);
  }

  lemma Swap<T>(a: multiset<T>, b: multiset<T>, c: multiset<T>)
    ensures a + b + c == a + c + b
  {
  }

  lemma Assoc<T>(a: multiset<T>, b: multiset<T>, c: multiset<T>)
    ensures a + b + c == a + (b + c)
  {
  }

  lemma Cancel<T>(a: multiset<T>, b: multiset<T>, c: multiset<T>)
    requires a + c == b + c
    ensures a == b
  {
    assert a == a + c - c;
    assert b == b + c - c;
  }

  /** The sum of the bags `f` gives for the elements of `s`. */
  function BagSum<A, B>(f: A -> multiset<B>, s: seq<A>): multiset<B> {
    if s == [] then multiset{} else BagSum(f, s[..|s| - 1]) + f(s[|s| - 1])
  }

  lemma {:induction false} BagSumConcat<A, B>(f: A -> multiset<B>, s: seq<A>, t: seq<A>)
    ensures BagSum(f, s + t) == BagSum(f, s) + BagSum(f, t)
  {
    if t == [] {
      assert s + t == s;
    } else {
      var front, u := t[..|t| - 1], s + t;
      BagSumConcat(f, s, front);
      assert u[..|u| - 1] == s + front;
      Assoc(BagSum(f, s), BagSum(f, front), f(t[|t| - 1]));
    }
  }

  lemma {:induction false} BagSumCut<A, B>(f: A -> multiset<B>, s: seq<A>, i: nat)
    requires i < |s|
    ensures BagSum(f, s) == BagSum(f, Cut(s, i)) + f(s[i])
  {
    var front := s[..|s| - 1];
    if i == |s| - 1 {
      assert Cut(s, i) == front;
    } else {
      BagSumCut(f, front, i);
      var c, last := Cut(s, i), f(s[|s| - 1]);
      assert c[..|c| - 1] == Cut(front, i);
      assert BagSum(f, c) == BagSum(f, Cut(front, i)) + last;
      Swap(BagSum(f, Cut(front, i)), f(s[i]), last);
    }
  }

  /** The sum depends only on the bag of elements, not on their order. */
  lemma {:induction false} BagSumOfBag<A, B>(f: A -> multiset<B>, s: seq<A>, t: seq<A>)
    requires multiset(s) == multiset(t)
    ensures BagSum(f, s) == BagSum(f, t)
  {
    assert |s| == |multiset(s)| == |multiset(t)| == |t|;
    if s != [] {
      var n := |s| - 1;
      assert s[n] in multiset(t);
      var i :| 0 <= i < |t| && t[i] == s[n];
      CutBag(s, n);
      CutBag(t, i);
      assert Cut(s, n) == s[..n];
      Cancel(multiset(s[..n]), multiset(Cut(t, i)), multiset{s[n]});
      BagSumOfBag(f, s[..n], Cut(t, i));
      BagSumCut(f, t, i);
    }
  }

  lemma {:induction false} BagSumPointwise<A, B>(f: A -> multiset<B>, s: seq<A>, t: seq<A>)
    requires |s| == |t| && forall i :: 0 <= i < |s| ==> f(s[i]) == f(t[i])
    ensures BagSum(f, s) == BagSum(f, t)
  {
    if s != [] { BagSumPointwise(f, s[..|s| - 1], t[..|t| - 1]); }
  }

  function Single<A, B>(f: A -> B): A -> multiset<B> {
    x => multiset{f(x)}
  }

  /** The bag of the values of `f` on the elements of `s`. */
  function Image<A, B>(f: A -> B, s: seq<A>): multiset<B> {
    BagSum(Single(f), s)
  }

  lemma {:induction false} ImageSize<A, B>(f: A -> B, s: seq<A>)
    ensures |Image(f, s)| == |s|
  {
    if s != [] { ImageSize(f, s[..|s| - 1]); }
  }

  lemma ImageAppend<A, B>(f: A -> B, s: seq<A>, x: A)
    ensures Image(f, s + [x]) == Image(f, s) + multiset{f(x)}
  {
    assert (s + [x])[..|s|] == s;
  }

  lemma {:induction false} ImageMembers<A, B>(f: A -> B, s: seq<A>, y: B)
    ensures y in Image(f, s) <==> exists x :: x in s && f(x) == y
  {
    if s != [] {
      var front, last := s[..|s| - 1], s[|s| - 1];
      ImageMembers(f, front, y);
      assert Image(f, s) == Image(f, front) + multiset{f(last)};
      assert forall x :: x in s <==> x in front || x == last;
    }
  }

  function Mapped<A, B>(f: A -> B, s: seq<A>): seq<B> {
    seq(|s|, i requires 0 <= i < |s| => f(s[i]))
  }

  lemma {:induction false} MappedBag<A, B>(f: A -> B, s: seq<A>)
    ensures multiset(Mapped(f, s)) == Image(f, s)
  {
    if s != [] {
      var front, x := s[..|s| - 1], s[|s| - 1];
      MappedBag(f, front);
      assert Mapped(f, s) == Mapped(f, front) + [f(x)];
    }
  }

  lemma {:induction false} ImageThrough<A, B, C>(f: A -> C, h: A -> B, g: B -> C, s: seq<A>)
    requires forall i :: 0 <= i < |s| ==> f(s[i]) == g(h(s[i]))
    ensures Image(f, s) == Image(g, Mapped(h, s))
  {
    if s != [] {
      var front, x := s[..|s| - 1], s[|s| - 1];
      ImageThrough(f, h, g, front);
      assert Mapped(h, s) == Mapped(h, front) + [h(x)];
      ImageAppend(g, Mapped(h, front), h(x));
    }
  }
}
