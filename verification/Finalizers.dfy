/** Finalizers of a load-balanced Service (controllers/servicelb/service_controller.go).  Removal shifts a
    Go slice down in place while ranging over it: the range keeps the length it started with and reads the
    shared backing array as it is at each turn. */
module Finalizers {

  function Count(s: seq<string>, f: string): nat {
    multiset(s)[f]
  }

  /** The other entries, in order. */
  function Others(s: seq<string>, f: string): seq<string> {
    if s == [] then [] else (if s[0] == f then [] else [s[0]]) + Others(s[1..], f)
  }

  /** What the loop leaves: after a removal the next entry slides under the cursor and is not looked at. */
  function Sweep(s: seq<string>, f: string): seq<string> {
    if s == [] then []
    else if s[0] != f then [s[0]] + Sweep(s[1..], f)
    else if |s| == 1 then []
    else [s[1]] + Sweep(s[2..], f)
  }

  method HasFinalizer(s: seq<string>, f: string) returns (found: bool)
    ensures found <==> f in s
  {
    for i := 0 to |s|
      invariant f !in s[..i]
    {
      if s[i] == f {
        return true;
      }
    }
    return false;
  }

  method AddFinalizer(s: seq<string>, f: string) returns (out: seq<string>)
    ensures out == if f in s then s else s + [f]
  {
    var has := HasFinalizer(s, f);
    out := if has then s else s + [f];
  }

  /** The loop crashes on a slice bound exactly here. */
  ghost predicate Crashes(s: seq<string>, f: string) {
    s != [] && s[|s| - 1] == f && Count(s, f) >= 2
  }

  /** `append(list[:k], list[k+1:]...)` on the shared backing array. */
  method ShiftDown(a: array<string>, k: nat, len: nat)
    requires k < len <= a.Length
    modifies a
    ensures a[..][..len - 1] == old(a[..])[..k] + old(a[..])[k + 1..len]
    ensures a[..][len - 1..] == old(a[..])[len - 1..]
  {
    ghost var was := a[..];
    var i := k;
    while i < len - 1
      invariant k <= i <= len - 1
      invariant forall t :: 0 <= t < k ==> a[t] == was[t]
      invariant forall t :: k <= t < i ==> a[t] == was[t + 1]
      invariant forall t :: i <= t < a.Length ==> a[t] == was[t]
    {
      a[i] := a[i + 1];
      i := i + 1;
    }
    assert a[..][..len - 1] == was[..k] + was[k + 1..len];
  }

  /** Where the loop stands at turn `k`: `cur` is the backing array, `len` the list's length by now, `s`
      what it was.  Cells past `len` still hold copies of the old last entry. */
  ghost predicate Midway(s: seq<string>, f: string, k: nat, cur: seq<string>, len: nat) {
    && k <= |s| && len <= |s| == |cur|
    && (len == |s| ==> cur == s && f !in s[..k])
    && (len < |s| ==> f in s[..k])
    && (forall t :: len <= t < |s| ==> cur[t] == s[|s| - 1])
    && (k < len ==> cur[len - 1] == s[|s| - 1])
    && (if k <= len then cur[..k] + Sweep(cur[k..len], f) == Sweep(s, f) else cur[..len] == Sweep(s, f))
    && (len < |s| && k == |s| && s[|s| - 1] == f ==> f !in s[..|s| - 1])
  }

  method RemoveFinalizer(a: array<string>, f: string) returns (len: nat, crashed: bool)
    modifies a
    ensures crashed <==> Crashes(old(a[..]), f)
    ensures !crashed ==> len <= a.Length && a[..][..len] == Sweep(old(a[..]), f)
  {
    ghost var s := a[..];
    len := a.Length;
    MidwayStart(s, f);
    for k := 0 to a.Length
      invariant Midway(s, f, k, a[..], len)
    {
      len, crashed := Turn(a, f, k, len, s);
      if crashed {
        return len, true;
      }
    }
    NoCrash(s, f, a[..], len);
    return len, false;
  }

  /** One turn of the loop. */
  method Turn(a: array<string>, f: string, k: nat, len: nat, ghost s: seq<string>) returns (len': nat, crashed: bool)
    requires k < a.Length && Midway(s, f, k, a[..], len)
    modifies a
    ensures crashed ==> Crashes(s, f)
    ensures !crashed ==> Midway(s, f, k + 1, a[..], len')
  {
    ghost var before := a[..];
    if a[k] != f {
      MidwayKeep(s, f, k, before, len);
      return len, false;
    }
    if k + 1 > len {
      CountTwo(s, f, k);
      return len, true;
    }
    ShiftDown(a, k, len);
    MidwayRemove(s, f, k, before, len, a[..]);
    return len - 1, false;
  }

  lemma MidwayStart(s: seq<string>, f: string)
    ensures Midway(s, f, 0, s, |s|)
  {
    assert s[..0] == [] && s[0..|s|] == s;
  }

  lemma MidwayRemove(s: seq<string>, f: string, k: nat, before: seq<string>, len: nat, after: seq<string>)
    requires Midway(s, f, k, before, len) && k < len && before[k] == f && |after| == |before|
    requires after[..len - 1] == before[..k] + before[k + 1..len] && after[len - 1..] == before[len - 1..]
    ensures Midway(s, f, k + 1, after, len - 1)
  {
    SweepRemove(before, k, len, f, after);
    var n := |s|;
    assert before[len - 1] == s[n - 1];
    assert forall t :: len - 1 <= t < n ==> after[t] == after[len - 1..][t - (len - 1)] == before[t];
    assert s[..k + 1] == s[..k] + [s[k]];
    if len == n {
      assert f in s[..k + 1];
    }
    if k + 1 < len - 1 {
      assert after[len - 2] == after[..len - 1][len - 2] == before[len - 1];
    }
    if k + 1 == n {
      assert s[..n - 1] == s[..k];
    }
  }

  lemma MidwayKeep(s: seq<string>, f: string, k: nat, cur: seq<string>, len: nat)
    requires Midway(s, f, k, cur, len) && k < |s| && cur[k] != f
    ensures Midway(s, f, k + 1, cur, len)
  {
    assert s[..k + 1] == s[..k] + [s[k]];
    if k < len {
      SweepKeep(cur, k, len, f);
    } else if k == len {
      assert cur[k..len] == [];
    }
  }

  lemma NoCrash(s: seq<string>, f: string, cur: seq<string>, len: nat)
    requires Midway(s, f, |s|, cur, len)
    ensures !Crashes(s, f) && cur[..len] == Sweep(s, f)
  {
    assert s[..|s|] == s;
    if s != [] && s[|s| - 1] == f {
      assert f in s;
      CountOne(s, f);
    }
    if len == |s| { assert cur[|s|..len] == []; }
  }

  lemma SweepRemove(before: seq<string>, k: nat, len: nat, f: string, after: seq<string>)
    requires k < len <= |before| == |after| && before[k] == f
    requires after[..len - 1] == before[..k] + before[k + 1..len]
    ensures k + 1 <= len - 1 ==>
      after[..k + 1] + Sweep(after[k + 1..len - 1], f) == before[..k] + Sweep(before[k..len], f)
    ensures k + 1 > len - 1 ==> after[..len - 1] == before[..k] + Sweep(before[k..len], f)
  {
    var rest := before[k..len];
    if k + 1 <= len - 1 {
      assert rest[1] == before[k + 1] && rest[2..] == before[k + 2..len];
      assert after[..k + 1] == after[..len - 1][..k + 1] == before[..k] + [before[k + 1]];
      assert after[k + 1..len - 1] == after[..len - 1][k + 1..] == before[k + 2..len];
    } else {
      assert |rest| == 1;
    }
  }

  lemma SweepKeep(a: seq<string>, k: nat, len: nat, f: string)
    requires k < len <= |a| && a[k] != f
    ensures a[..k + 1] + Sweep(a[k + 1..len], f) == a[..k] + Sweep(a[k..len], f)
  {
    assert a[k..len][1..] == a[k + 1..len];
    assert a[..k + 1] == a[..k] + [a[k]];
  }

  lemma CountTwo(s: seq<string>, f: string, k: nat)
    requires k < |s| && f in s[..k] && s[|s| - 1] == f
    ensures Count(s, f) >= 2
  {
    var i :| 0 <= i < k && s[i] == f;
    assert s == s[..i] + [f] + s[i + 1..|s| - 1] + [f];
  }

  lemma CountOne(s: seq<string>, f: string)
    requires s != [] && s[|s| - 1] == f && f !in s[..|s| - 1]
    ensures Count(s, f) == 1
  {
    assert s == s[..|s| - 1] + [f];
  }

  // -------------------------------------------------------------- what it achieves

  ghost predicate Adjacent(s: seq<string>, f: string) {
    exists i :: 0 <= i < |s| - 1 && s[i] == f && s[i + 1] == f
  }

  lemma {:induction false} NoneInOthers(s: seq<string>, f: string)
    ensures f !in Others(s, f)
  {
    if s != [] { NoneInOthers(s[1..], f); }
  }

  /** The sweep removes exactly the finalizer if and only if no two of them are next to each other. */
  lemma {:induction false} SweepExact(s: seq<string>, f: string)
    ensures Sweep(s, f) == Others(s, f) <==> !Adjacent(s, f)
  {
    if s == [] {
    } else if s[0] != f {
      SweepExact(s[1..], f);
      AdjacentTail(s, f);
      ConsEqual(s[0], Sweep(s[1..], f), Others(s[1..], f));
    } else if |s| == 1 {
      assert s[1..] == [];
    } else if s[1] == f {
      assert Adjacent(s, f);
      NoneInOthers(s, f);
      assert Sweep(s, f)[0] == f;
    } else {
      SweepExact(s[2..], f);
      AdjacentTail(s, f);
      AdjacentTail(s[1..], f);
      assert s[1..][1..] == s[2..];
      assert Others(s, f) == Others(s[1..], f) == [s[1]] + Others(s[2..], f);
      ConsEqual(s[1], Sweep(s[2..], f), Others(s[2..], f));
    }
  }

  lemma ConsEqual(x: string, a: seq<string>, b: seq<string>)
    ensures [x] + a == [x] + b <==> a == b
  {
    assert ([x] + a)[1..] == a && ([x] + b)[1..] == b;
  }

  lemma AdjacentTail(s: seq<string>, f: string)
    requires s != [] && (s[0] != f || (|s| > 1 && s[1] != f))
    ensures Adjacent(s, f) <==> Adjacent(s[1..], f)
  {
    if Adjacent(s, f) {
      var i :| 0 <= i < |s| - 1 && s[i] == f && s[i + 1] == f;
      assert s[1..][i - 1] == f && s[1..][i] == f;
    }
    if Adjacent(s[1..], f) {
      var i :| 0 <= i < |s[1..]| - 1 && s[1..][i] == f && s[1..][i + 1] == f;
      assert s[i + 1] == f && s[i + 2] == f;
    }
  }

  /** Whatever it leaves of the finalizer, the sweep loses and reorders no other one. */
  lemma {:induction false} SweepKeepsOthers(s: seq<string>, f: string)
    ensures Others(Sweep(s, f), f) == Others(s, f)
  {
    if s == [] {
    } else if s[0] != f {
      SweepKeepsOthers(s[1..], f);
      OthersCons(s[0], Sweep(s[1..], f), f);
    } else if |s| > 1 {
      SweepKeepsOthers(s[2..], f);
      OthersCons(s[1], Sweep(s[2..], f), f);
      OthersCons(s[1], s[2..], f);
      assert s[1..] == [s[1]] + s[2..];
    }
  }

  lemma OthersCons(x: string, s: seq<string>, f: string)
    ensures Others([x] + s, f) == (if x == f then [] else [x]) + Others(s, f)
  {
    assert ([x] + s)[1..] == s;
  }

  function Repeated(f: string, n: nat): seq<string> {
    if n == 0 then [] else [f] + Repeated(f, n - 1)
  }

  lemma RepeatedMore(f: string, n: nat, t: seq<string>)
    ensures Repeated(f, n + 1) + t == [f] + (Repeated(f, n) + t)
  {
  }

  lemma SweepPair(f: string, rest: seq<string>)
    ensures Sweep([f] + ([f] + rest), f) == [f] + Sweep(rest, f)
  {
    var s := [f] + ([f] + rest);
    assert s[1] == f && s[2..] == rest;
  }

  lemma SweepOne(f: string, t: seq<string>)
    requires t == [] || t[0] != f
    ensures Sweep([f] + t, f) == Sweep(t, f)
  {
    if t != [] { assert ([f] + t)[1] == t[0] && ([f] + t)[2..] == t[1..]; }
  }

  /** Of finalizers next to each other every second one is left. */
  lemma {:induction false} SweepHalves(f: string, n: nat, t: seq<string>)
    requires t == [] || t[0] != f
    ensures Sweep(Repeated(f, n) + t, f) == Repeated(f, n / 2) + Sweep(t, f)
  {
    if n == 0 {
      assert [] + t == t;
    } else if n == 1 {
      assert Repeated(f, 1) == [f];
      SweepOne(f, t);
    } else {
      SweepHalves(f, n - 2, t);
      RepeatedMore(f, n - 1, t);
      RepeatedMore(f, n - 2, t);
      SweepPair(f, Repeated(f, n - 2) + t);
      RepeatedMore(f, (n - 2) / 2, Sweep(t, f));
    }
  }

  /** A repeated finalizer makes the removal crash, or stay behind. */
  lemma RepeatedFinalizer(f: string, x: string)
    requires x != f
    ensures Crashes([f, f], f)
    ensures !Crashes([f, f, x], f) && Sweep([f, f, x], f) == [f, x] != Others([f, f, x], f)
  {
    var s := [f, f, x];
    assert s[2..] == [x] && s[1..] == [f, x] && [x][1..] == [];
    assert Sweep([x], f) == [x];
    SweepExact(s, f);
    assert s[0] == f && s[1] == f;
    assert Count([f, f], f) == 2;
  }

  /** With at most one occurrence, wherever it is, the removal stays in bounds and is exact. */
  lemma SingleRemovalExact(s: seq<string>, f: string)
    requires Count(s, f) <= 1
    ensures !Crashes(s, f) && Sweep(s, f) == Others(s, f)
  {
    SweepExact(s, f);
    AdjacentCount(s, f);
  }

  lemma AdjacentCount(s: seq<string>, f: string)
    ensures Adjacent(s, f) ==> Count(s, f) >= 2
  {
    if Adjacent(s, f) {
      var i :| 0 <= i < |s| - 1 && s[i] == f && s[i + 1] == f;
      assert s == s[..i] + [f] + [f] + s[i + 2..];
    }
  }

  /** One reconcile adds the finalizer or removes it. */
  datatype Op = Add | Remove

  /** The list after an operation; a removal is skipped when there is nothing to remove. */
  function Applied(s: seq<string>, op: Op, f: string): seq<string> {
    match op
    case Add => if f in s then s else s + [f]
    case Remove => if f in s then Sweep(s, f) else s
  }

  function AppliedAll(s: seq<string>, ops: seq<Op>, f: string): seq<string> {
    if ops == [] then s else Applied(AppliedAll(s, ops[..|ops| - 1], f), ops[|ops| - 1], f)
  }

  lemma {:induction false} OthersAbsent(s: seq<string>, f: string)
    requires f !in s
    ensures Others(s, f) == s
  {
    if s != [] {
      OthersAbsent(s[1..], f);
      assert s == [s[0]] + s[1..];
    }
  }

  lemma {:induction false} OthersAppend(s: seq<string>, f: string)
    ensures Others(s + [f], f) == Others(s, f)
  {
    if s == [] {
      assert [f][1..] == [];
    } else {
      OthersAppend(s[1..], f);
      assert (s + [f])[1..] == s[1..] + [f];
    }
  }

  /** Any sequence of additions and removals that starts with at most one occurrence keeps at most one, and
      never touches or reorders the other finalizers. */
  lemma {:induction false} OpsKeepOthers(s: seq<string>, ops: seq<Op>, f: string)
    requires Count(s, f) <= 1
    ensures Count(AppliedAll(s, ops, f), f) <= 1
    ensures Others(AppliedAll(s, ops, f), f) == Others(s, f)
    ensures ops != [] ==> (f in AppliedAll(s, ops, f) <==> ops[|ops| - 1] == Add)
  {
    if ops != [] {
      OpsKeepOthers(s, ops[..|ops| - 1], f);
      OpKeepsOthers(AppliedAll(s, ops[..|ops| - 1], f), ops[|ops| - 1], f);
    }
  }

  lemma OpKeepsOthers(t: seq<string>, op: Op, f: string)
    requires Count(t, f) <= 1
    ensures Count(Applied(t, op, f), f) <= 1
    ensures Others(Applied(t, op, f), f) == Others(t, f)
    ensures f in Applied(t, op, f) <==> op == Add
  {
    if op == Add {
      OthersAppend(t, f);
      if f !in t { assert multiset(t + [f])[f] == multiset(t)[f] + 1; }
    } else {
      SingleRemovalExact(t, f);
      NoneInOthers(t, f);
      OthersAbsent(Others(t, f), f);
    }
  }
}
