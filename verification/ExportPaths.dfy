/** When the Ingresses generated for different ServiceExports have no path in common
    (controllers/serviceexport/v1alpha1/serviceexport_controller.go). */
module ExportPaths {
  import opened Options
  import opened Names
  import opened ServiceExports

  /** The generated Ingresses of two exports have no (path, path type) in common. */
  ghost predicate Apart(s: State, n: NamespacedName, m: NamespacedName) {
    GeneratedName(n) in s.ingresses && GeneratedName(m) in s.ingresses ==>
      forall path, pathType :: !(HasPath(s.ingresses[GeneratedName(n)], path, pathType)
        && HasPath(s.ingresses[GeneratedName(m)], path, pathType))
  }

  ghost predicate AllApart(s: State) {
    forall n, m :: n != m ==> Apart(s, n, m)
  }

  /** Exports and generated Ingresses belong to the names they go under. */
  ghost predicate Named(s: State) {
    && (forall n :: n in s.exports ==> s.exports[n].uid.name == n)
    && forall n :: GeneratedName(n) in s.ingresses ==>
      s.ingresses[GeneratedName(n)].controller.Some? && s.ingresses[GeneratedName(n)].controller.value.name == n
  }

  ghost predicate Wants(spec: Spec, path: string, pathType: string) {
    exists r :: r in spec.rules && r.path == path && r.pathType == pathType
  }

  /** The path is one of the spec, and in the Ingress of another export. */
  ghost predicate SharesPath(s: State, n: NamespacedName, spec: Spec, m: NamespacedName, path: string,
                             pathType: string) {
    && m != n && GeneratedName(m) in s.ingresses && Wants(spec, path, pathType)
    && HasPath(s.ingresses[GeneratedName(m)], path, pathType)
  }

  ghost predicate Shares(s: State, n: NamespacedName, spec: Spec) {
    exists m, path, pathType :: SharesPath(s, n, spec, m, path, pathType)
  }

  /** The reconcile writes the Ingress although another export's Ingress has one of its paths. */
  ghost predicate MissesConflict(hash: Spec -> string, s: State, step: Step) {
    && step.Reconcile? && step.n in s.exports
    && Reconciled(hash, s, step.n, step.service, step.listed, step.fails).ingresses != s.ingresses
    && Shares(s, step.n, s.exports[step.n].spec)
  }

  /** The Ingress of `n` is made anew with the paths of the spec, and nothing else changes among Ingresses. */
  ghost predicate Rewritten(s: State, n: NamespacedName, spec: Spec, s': State) {
    && s'.ingresses.Keys == s.ingresses.Keys + {GeneratedName(n)}
    && ServesAll(s'.ingresses[GeneratedName(n)], n, spec)
    && forall m :: m in s.ingresses && m != GeneratedName(n) ==> s'.ingresses[m] == s.ingresses[m]
  }

  lemma WantsIff(ing: Ingress, n: NamespacedName, spec: Spec, path: string, pathType: string)
    requires ServesAll(ing, n, spec)
    ensures HasPath(ing, path, pathType) <==> Wants(spec, path, pathType)
  {
    if HasPath(ing, path, pathType) {
      var paths, p :| paths in ing.rules && p in paths && p.path == path && p.pathType == pathType;
      var i :| 0 <= i < |spec.rules| && ing.rules[0][i] == p;
      assert spec.rules[i] in spec.rules;
    }
    if Wants(spec, path, pathType) {
      var r :| r in spec.rules && r.path == path && r.pathType == pathType;
      var i :| 0 <= i < |spec.rules| && spec.rules[i] == r;
      assert ing.rules[0] in ing.rules && ing.rules[0][i] in ing.rules[0];
    }
  }

  lemma RewriteApartIff(s: State, n: NamespacedName, spec: Spec, s': State)
    requires AllApart(s) && Rewritten(s, n, spec, s')
    ensures AllApart(s') <==> !Shares(s, n, spec)
  {
    var g := GeneratedName(n);
    forall m ensures GeneratedName(m) == g <==> m == n { GeneratedNameInjective(m, n); }
    if Shares(s, n, spec) {
      var m, path, pathType :| SharesPath(s, n, spec, m, path, pathType);
      WantsIff(s'.ingresses[g], n, spec, path, pathType);
      assert !Apart(s', n, m);
    } else {
      forall a, b | a != b ensures Apart(s', a, b) {
        assert Apart(s, a, b);
        if a == n || b == n { ApartFrom(s, n, spec, if a == n then b else a, s'); }
      }
    }
  }

  lemma ApartFrom(s: State, n: NamespacedName, spec: Spec, m: NamespacedName, s': State)
    requires Rewritten(s, n, spec, s') && !Shares(s, n, spec) && m != n
    ensures Apart(s', n, m) && Apart(s', m, n)
  {
    GeneratedNameInjective(m, n);
    var g, h := GeneratedName(n), GeneratedName(m);
    if h in s'.ingresses {
      forall path, pathType
        ensures !(HasPath(s'.ingresses[g], path, pathType) && HasPath(s'.ingresses[h], path, pathType))
      {
        WantsIff(s'.ingresses[g], n, spec, path, pathType);
        assert !SharesPath(s, n, spec, m, path, pathType);
      }
    }
  }

  lemma SameIngressesApart(s: State, s': State)
    requires AllApart(s) && forall n :: GeneratedName(n) in s'.ingresses ==>
      GeneratedName(n) in s.ingresses && s'.ingresses[GeneratedName(n)] == s.ingresses[GeneratedName(n)]
    ensures AllApart(s')
  {
    forall a, b | a != b ensures Apart(s', a, b) { assert Apart(s, a, b); }
  }

  /** No identity changes, and at most the Ingress of `n` does, which keeps its controller or is that export's own. */
  ghost predicate KeepsIdentities(s: State, n: NamespacedName, s': State) {
    var g := GeneratedName(n);
    && s'.exports.Keys == s.exports.Keys && s'.ingresses.Keys <= s.ingresses.Keys + {g}
    && (forall m :: m in s.exports ==> s'.exports[m].uid == s.exports[m].uid)
    && (forall m :: m in s.ingresses ==> m in s'.ingresses && s'.ingresses[m].controller == s.ingresses[m].controller)
    && (g !in s.ingresses && g in s'.ingresses ==>
      n in s.exports && s'.ingresses[g].controller == Some(s.exports[n].uid))
  }

  lemma GeneratedIdentities(hash: Spec -> string, s: State, n: NamespacedName, fails: Failure)
    requires n in s.exports
    ensures KeepsIdentities(s, n, Generated(hash, s, n, fails).0)
  {
  }

  lemma MarkedIdentities(s: State, n: NamespacedName, s1: State, status: Status, fails: Failure)
    requires KeepsIdentities(s, n, s1) && n in s1.exports
    ensures KeepsIdentities(s, n, Marked(s1, n, status, fails))
  {
  }

  lemma ReconcileIdentities(hash: Spec -> string, s: State, n: NamespacedName, service: ServiceRead,
                            listed: Option<Ingresses>, fails: Failure)
    ensures KeepsIdentities(s, n, Reconciled(hash, s, n, service, listed, fails))
  {
    if n in s.exports {
      match Refusal(service, listed, s.exports[n])
      case Some(why) => MarkedIdentities(s, n, s, Refused(why), fails);
      case None =>
        GeneratedIdentities(hash, s, n, fails);
        MarkedIdentities(s, n, Generated(hash, s, n, fails).0, Exported, fails);
    }
  }

  lemma NamedStep(hash: Spec -> string, s: State, step: Step, s': State)
    requires Named(s) && Takes(hash, s, step, s')
    ensures Named(s')
  {
    match step
    case Reconcile(n, service, listed, fails) =>
      ReconcileIdentities(hash, s, n, service, listed, fails);
      ReconcileNamed(s, n, s');
    case Apply(_, _) =>
    case Remove(_) =>
    case Collect(_) =>
    case EditOther(_, _) =>
  }

  lemma ReconcileNamed(s: State, n: NamespacedName, s': State)
    requires Named(s) && KeepsIdentities(s, n, s')
    ensures Named(s')
  {
    forall m ensures GeneratedName(m) == GeneratedName(n) <==> m == n { GeneratedNameInjective(m, n); }
  }

  /** For every step, with any listing and any failure: the paths stay apart exactly unless the reconcile
      misses a conflict. */
  lemma StepApartIff(hash: Spec -> string, s: State, step: Step, s': State)
    requires AllApart(s) && Takes(hash, s, step, s')
    ensures AllApart(s') <==> !MissesConflict(hash, s, step)
  {
    if step.Reconcile? && s'.ingresses != s.ingresses {
      ServesAllIff(s'.ingresses[GeneratedName(step.n)], step.n, s.exports[step.n].spec);
      assert Rewritten(s, step.n, s.exports[step.n].spec, s');
      RewriteApartIff(s, step.n, s.exports[step.n].spec, s');
    } else {
      SameIngressesApart(s, s');
    }
  }

  lemma {:induction false} ApartUpTo(hash: Spec -> string, states: seq<State>, steps: seq<Step>, i: nat)
    requires IsRun(hash, states, steps) && i < |states|
    requires forall j :: 0 <= j < i ==> !MissesConflict(hash, states[j], steps[j])
    ensures AllApart(states[i])
  {
    if i > 0 {
      ApartUpTo(hash, states, steps, i - 1);
      StepApartIff(hash, states[i - 1], steps[i - 1], states[i]);
    }
  }

  /** In every run, whatever the listings show, whatever calls fail and whatever else is edited, the Ingresses
      generated for two ServiceExports never share a path of the same type up to some moment, if and only if no
      reconcile before it missed a conflict. */
  lemma AlwaysApartIff(hash: Spec -> string, states: seq<State>, steps: seq<Step>, n: nat)
    requires IsRun(hash, states, steps) && n <= |steps|
    ensures (forall i :: 0 <= i <= n ==> AllApart(states[i])) <==>
      forall i :: 0 <= i < n ==> !MissesConflict(hash, states[i], steps[i])
  {
    if forall i :: 0 <= i < n ==> !MissesConflict(hash, states[i], steps[i]) {
      forall i | 0 <= i <= n ensures AllApart(states[i]) { ApartUpTo(hash, states, steps, i); }
    }
    if forall i :: 0 <= i <= n ==> AllApart(states[i]) {
      forall i | 0 <= i < n ensures !MissesConflict(hash, states[i], steps[i]) {
        assert AllApart(states[i]) && AllApart(states[i + 1]);
        StepApartIff(hash, states[i], steps[i], states[i + 1]);
      }
    }
  }

  /** The listing, if there is one, shows the other exports' Ingresses as they are. */
  ghost predicate ListsOthers(s: State, step: Step) {
    step.Reconcile? && step.listed.Some? ==>
      forall m :: m != step.n && GeneratedName(m) in s.ingresses ==>
        GeneratedName(m) in step.listed.value && step.listed.value[GeneratedName(m)] == s.ingresses[GeneratedName(m)]
  }

  /** Such a listing misses nothing. */
  lemma CurrentListingMissesNothing(hash: Spec -> string, s: State, step: Step)
    requires Named(s) && ListsOthers(s, step)
    ensures !MissesConflict(hash, s, step)
  {
    if step.Reconcile? && step.n in s.exports && Shares(s, step.n, s.exports[step.n].spec) {
      var n, x := step.n, s.exports[step.n];
      var m, path, pathType :| SharesPath(s, n, x.spec, m, path, pathType);
      var r :| r in x.spec.rules && r.path == path && r.pathType == pathType;
      if step.listed.Some? {
        assert step.listed.value[GeneratedName(m)].controller != Some(x.uid);
        assert Conflicts(step.listed.value, x);
      }
    }
  }

  lemma {:induction false} NamedAt(hash: Spec -> string, states: seq<State>, steps: seq<Step>, i: nat)
    requires IsRun(hash, states, steps) && i < |states|
    ensures Named(states[i])
  {
    if i > 0 {
      NamedAt(hash, states, steps, i - 1);
      NamedStep(hash, states[i - 1], steps[i - 1], states[i]);
    }
  }

  /** So with listings that show the other exports' Ingresses as they are, the paths are always apart. */
  lemma GeneratedPathsApart(hash: Spec -> string, states: seq<State>, steps: seq<Step>, i: nat, n: NamespacedName,
                            m: NamespacedName)
    requires IsRun(hash, states, steps) && i < |states| && n != m
    requires forall j :: 0 <= j < i ==> ListsOthers(states[j], steps[j])
    ensures Apart(states[i], n, m)
  {
    forall j | 0 <= j < i ensures !MissesConflict(hash, states[j], steps[j]) {
      NamedAt(hash, states, steps, j);
      CurrentListingMissesNothing(hash, states[j], steps[j]);
    }
    ApartUpTo(hash, states, steps, i);
  }
}
