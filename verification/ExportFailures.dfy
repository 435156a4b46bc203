/** Runs of the ServiceExport reconciler that go wrong: a lagging listing, annotations that stay, and Ingresses that
    stay behind their spec (controllers/serviceexport/v1alpha1/serviceexport_controller.go). */
module ExportFailures {
  import opened Options
  import opened Names
  import opened ServiceExports
  import opened ExportPaths

  function Made(n: NamespacedName, uid: Uid, spec: Spec): Ingresses {
    map[GeneratedName(n) := Ingress(Some(uid), [IngressPaths(n, spec)], Annotations(spec))]
  }

  function Now(n: NamespacedName, listed: Ingresses, fails: Failure): Step {
    Reconcile(n, Usable, Some(listed), fails)
  }

  lemma MadeServes(n: NamespacedName, uid: Uid, spec: Spec)
    ensures ServesAll(Made(n, uid, spec)[GeneratedName(n)], n, spec)
  {
    ServesAllIff(Made(n, uid, spec)[GeneratedName(n)], n, spec);
  }

  /** An Ingress has the paths of at most one list of rules. */
  lemma OneSpecServed(ing: Ingress, n: NamespacedName, a: Spec, b: Spec)
    requires ServesAll(ing, n, a) && ServesAll(ing, n, b)
    ensures a.rules == b.rules
  {
    forall i | 0 <= i < |a.rules| ensures a.rules[i] == b.rules[i] {
      assert Serves(ing.rules[0][i], n, a.rules[i]) && Serves(ing.rules[0][i], n, b.rules[i]);
    }
  }

  lemma AloneNoConflict(listed: Ingresses, x: Export)
    requires forall m :: m in listed ==> listed[m].controller == Some(x.uid)
    ensures !Conflicts(listed, x)
  {
  }

  /** An export without an Ingress, listed as if there were no Ingress, gets one. */
  lemma Creates(hash: Spec -> string, s: State, n: NamespacedName)
    requires n in s.exports && GeneratedName(n) !in s.ingresses
    ensures var x := s.exports[n];
      Takes(hash, s, Now(n, map[], NoFailure), State(s.exports[n := x.(status := Exported)],
        s.ingresses + Made(n, x.uid, x.spec), s.serial))
  {
    AloneNoConflict(map[], s.exports[n]);
    assert s.ingresses + Made(n, s.exports[n].uid, s.exports[n].spec) ==
      s.ingresses[GeneratedName(n) := Made(n, s.exports[n].uid, s.exports[n].spec)[GeneratedName(n)]];
  }

  /** A lone export without the right hash gets it, and its Ingress is updated, unless that fails. */
  lemma Updates(hash: Spec -> string, n: NamespacedName, x: Export, ing: Ingress)
    requires ing.controller == Some(x.uid) && x.hash != hash(x.spec)
    ensures var ings := map[GeneratedName(n) := ing];
      var s, hashed := State(map[n := x], ings, 1), x.(hash := hash(x.spec));
      var now := ing.(rules := [IngressPaths(n, x.spec)], annotations := ing.annotations + Annotations(x.spec));
      && Takes(hash, s, Now(n, ings, UpdateFails), State(map[n := hashed], ings, 1))
      && Takes(hash, s, Now(n, ings, NoFailure),
        State(map[n := hashed.(status := Exported)], map[GeneratedName(n) := now], 1))
  {
    var ings := map[GeneratedName(n) := ing];
    var hashed := x.(hash := hash(x.spec));
    AloneNoConflict(ings, x);
    assert map[n := x][n := hashed] == map[n := hashed];
    assert map[n := x][n := hashed][n := hashed.(status := Exported)] == map[n := hashed.(status := Exported)];
    var now := ing.(rules := [IngressPaths(n, x.spec)], annotations := ing.annotations + Annotations(x.spec));
    assert ings[GeneratedName(n) := now] == map[GeneratedName(n) := now];
  }

  lemma Applies(hash: Spec -> string, n: NamespacedName, x: Export, ings: Ingresses, spec: Spec)
    ensures Takes(hash, State(map[n := x], ings, 1), Apply(n, spec), State(map[n := x.(spec := spec)], ings, 1))
  {
    assert map[n := x][n := x.(spec := spec)] == map[n := x.(spec := spec)];
  }

  /** The first export, created and reconciled. */
  lemma Started(hash: Spec -> string, n: NamespacedName, a: Spec) returns (states: seq<State>, steps: seq<Step>)
    ensures IsRun(hash, states, steps) && |steps| == 2 && steps == [Apply(n, a), Now(n, map[], NoFailure)]
    ensures forall j :: 0 <= j < 2 ==> Tidy(states[j], steps[j])
    ensures states[2] == State(map[n := Export(Uid(n, 0), a, "", Exported)], Made(n, Uid(n, 0), a), 1)
  {
    var x := Export(Uid(n, 0), a, "", Unset);
    var s0, s1 := State(map[], map[], 0), State(map[n := x], map[], 1);
    var s2 := State(map[n := x.(status := Exported)], Made(n, x.uid, a), 1);
    Creates(hash, s1, n);
    assert map[n := x][n := x.(status := Exported)] == map[n := x.(status := Exported)];
    states, steps := [s0, s1, s2], [Apply(n, a), Now(n, map[], NoFailure)];
    assert Takes(hash, s0, steps[0], s1);
    assert Takes(hash, s1, steps[1], s2);
  }

  /** A run goes on by a step. */
  lemma Continued(hash: Spec -> string, states: seq<State>, steps: seq<Step>, step: Step, s': State)
    requires IsRun(hash, states, steps) && Takes(hash, states[|steps|], step, s')
    ensures IsRun(hash, states + [s'], steps + [step])
  {
    var more, all := states + [s'], steps + [step];
    forall i | 0 <= i < |all| ensures Takes(hash, more[i], all[i], more[i + 1]) {
      if i < |steps| { assert Takes(hash, states[i], steps[i], states[i + 1]); }
    }
  }

  /** A listing that lags is enough: two exports with a common path are both accepted. */
  lemma LaggingListingShares(hash: Spec -> string, n: NamespacedName, a: Spec, m: NamespacedName, b: Spec,
                             path: string, pathType: string) returns (states: seq<State>, steps: seq<Step>)
    requires n != m && Wants(a, path, pathType) && Wants(b, path, pathType)
    ensures IsRun(hash, states, steps) && !Apart(states[|steps|], n, m)
  {
    states, steps := Started(hash, n, a);
    GeneratedNameInjective(n, m);
    var s2, y := states[2], Export(Uid(m, 1), b, "", Unset);
    var s3 := State(s2.exports[m := y], s2.ingresses, 2);
    assert Takes(hash, s2, Apply(m, b), s3);
    Continued(hash, states, steps, Apply(m, b), s3);
    states, steps := states + [s3], steps + [Apply(m, b)];
    Creates(hash, s3, m);
    var s4 := State(s3.exports[m := y.(status := Exported)], s3.ingresses + Made(m, y.uid, b), 2);
    Continued(hash, states, steps, Now(m, map[], NoFailure), s4);
    states, steps := states + [s4], steps + [Now(m, map[], NoFailure)];
    MadeServes(n, Uid(n, 0), a);
    MadeServes(m, y.uid, b);
    WantsIff(s4.ingresses[GeneratedName(n)], n, a, path, pathType);
    WantsIff(s4.ingresses[GeneratedName(m)], m, b, path, pathType);
  }

  /** An annotation stays that the spec no longer asks for, with no call failing and nothing collected. */
  lemma StickyStays(hash: Spec -> string, n: NamespacedName, a: Spec) returns (states: seq<State>, steps: seq<Step>)
    requires GoodHash(hash) && a.sessionSticky
    ensures IsRun(hash, states, steps) && forall j :: 0 <= j < |steps| ==> Tidy(states[j], steps[j])
    ensures var last := states[|steps|];
      && n in last.exports && last.exports[n].spec == a.(sessionSticky := false) && last.exports[n].status.Exported?
      && last.exports[n].hash == hash(last.exports[n].spec) && GeneratedName(n) in last.ingresses
      && SESSION_STICKY in last.ingresses[GeneratedName(n)].annotations
      && SESSION_STICKY !in Annotations(last.exports[n].spec)
  {
    states, steps := Started(hash, n, a);
    var x, b := states[2].exports[n], a.(sessionSticky := false);
    var ing := states[2].ingresses[GeneratedName(n)];
    var s3 := State(map[n := x.(spec := b)], states[2].ingresses, 1);
    Applies(hash, n, x, states[2].ingresses, b);
    Continued(hash, states, steps, Apply(n, b), s3);
    states, steps := states + [s3], steps + [Apply(n, b)];
    Updates(hash, n, x.(spec := b), ing);
    var now := ing.(rules := [IngressPaths(n, b)], annotations := ing.annotations + Annotations(b));
    var s4 := State(map[n := x.(spec := b, hash := hash(b), status := Exported)], map[GeneratedName(n) := now], 1);
    Continued(hash, states, steps, Now(n, s3.ingresses, NoFailure), s4);
    states, steps := states + [s4], steps + [Now(n, s3.ingresses, NoFailure)];
    KeysDiffer();
  }

  /** A failed call is enough for a stale Ingress: the spec changes, the hash is stored, the Ingress update
      fails, and the Ingress keeps the paths of the old spec through all later reconciles. */
  lemma FailedUpdateSticks(hash: Spec -> string, n: NamespacedName, a: Spec, b: Spec)
    returns (states: seq<State>, steps: seq<Step>)
    requires GoodHash(hash) && a.rules != b.rules
    ensures IsRun(hash, states, steps)
    ensures var last := states[|steps|];
      && Stale(hash, last, n) && last.exports[n].spec == b
      && ServesAll(last.ingresses[GeneratedName(n)], n, a)
  {
    states, steps := Started(hash, n, a);
    var x, made := states[2].exports[n], states[2].ingresses;
    Applies(hash, n, x, made, b);
    Continued(hash, states, steps, Apply(n, b), State(map[n := x.(spec := b)], made, 1));
    states, steps := states + [State(map[n := x.(spec := b)], made, 1)], steps + [Apply(n, b)];
    Updates(hash, n, x.(spec := b), made[GeneratedName(n)]);
    var s4 := State(map[n := x.(spec := b, hash := hash(b))], made, 1);
    Continued(hash, states, steps, Now(n, made, UpdateFails), s4);
    states, steps := states + [s4], steps + [Now(n, made, UpdateFails)];
    MadeServes(n, x.uid, a);
    if ServesAll(made[GeneratedName(n)], n, b) { OneSpecServed(made[GeneratedName(n)], n, a, b); }
  }

  /** So is collecting the generated Ingress under a living export, with no call failing: the Ingress
      created anew for spec `b` survives a change back to spec `a`, whose hash is still stored. */
  lemma CollectedIngressStale(hash: Spec -> string, n: NamespacedName, a: Spec, b: Spec)
    returns (states: seq<State>, steps: seq<Step>)
    requires GoodHash(hash) && a.rules != b.rules
    ensures IsRun(hash, states, steps)
    ensures forall i :: 0 <= i < |steps| && steps[i].Reconcile? ==> steps[i].fails.NoFailure?
    ensures var last := states[|steps|];
      && Stale(hash, last, n) && last.exports[n].spec == a
      && ServesAll(last.ingresses[GeneratedName(n)], n, b)
  {
    states, steps := Hashed(hash, n, a);
    var y, made := states[3].exports[n], states[3].ingresses;
    Applies(hash, n, y, made, b);
    Continued(hash, states, steps, Apply(n, b), State(map[n := y.(spec := b)], made, 1));
    states, steps := states + [State(map[n := y.(spec := b)], made, 1)], steps + [Apply(n, b)];
    var s5 := State(map[n := y.(spec := b)], map[], 1);
    assert made - {GeneratedName(n)} == map[];
    Continued(hash, states, steps, Collect(n), s5);
    states, steps := states + [s5], steps + [Collect(n)];
    states, steps := Returned(hash, states, steps, n, y.(spec := b), a);
    MadeServes(n, y.uid, b);
    var ing := states[|steps|].ingresses[GeneratedName(n)];
    if ServesAll(ing, n, a) { OneSpecServed(ing, n, b, a); }
  }

  lemma Hashed(hash: Spec -> string, n: NamespacedName, a: Spec) returns (states: seq<State>, steps: seq<Step>)
    requires GoodHash(hash)
    ensures IsRun(hash, states, steps) && |steps| == 3
    ensures forall i :: 0 <= i < |steps| && steps[i].Reconcile? ==> steps[i].fails.NoFailure?
    ensures states[3] == State(map[n := Export(Uid(n, 0), a, hash(a), Exported)], Made(n, Uid(n, 0), a), 1)
  {
    states, steps := Started(hash, n, a);
    var x, made := states[2].exports[n], states[2].ingresses;
    assert Annotations(a) + Annotations(a) == Annotations(a);
    Updates(hash, n, x, made[GeneratedName(n)]);
    var s3 := State(map[n := x.(hash := hash(a))], made, 1);
    Continued(hash, states, steps, Now(n, made, NoFailure), s3);
    states, steps := states + [s3], steps + [Now(n, made, NoFailure)];
  }

  /** The Ingress is created anew, and the spec goes back. */
  lemma Returned(hash: Spec -> string, states: seq<State>, steps: seq<Step>, n: NamespacedName, x: Export, a: Spec)
    returns (states': seq<State>, steps': seq<Step>)
    requires IsRun(hash, states, steps) && states[|steps|] == State(map[n := x], map[], 1)
    ensures IsRun(hash, states', steps') && steps' == steps + [Now(n, map[], NoFailure), Apply(n, a)]
    ensures states'[|steps'|] == State(map[n := x.(spec := a, status := Exported)], Made(n, x.uid, x.spec), 1)
  {
    var s, made := states[|steps|], Made(n, x.uid, x.spec);
    Creates(hash, s, n);
    assert map[n := x][n := x.(status := Exported)] == map[n := x.(status := Exported)];
    var s6 := State(map[n := x.(status := Exported)], made, 1);
    Continued(hash, states, steps, Now(n, map[], NoFailure), s6);
    Applies(hash, n, x.(status := Exported), made, a);
    var s7 := State(map[n := x.(spec := a, status := Exported)], made, 1);
    Continued(hash, states + [s6], steps + [Now(n, map[], NoFailure)], Apply(n, a), s7);
    states', steps' := states + [s6] + [s7], steps + [Now(n, map[], NoFailure)] + [Apply(n, a)];
  }
}
