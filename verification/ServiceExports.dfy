/** The ServiceExport reconciler (controllers/serviceexport/v1alpha1/serviceexport_controller.go): path
    conflicts, the generated Ingress, the hash annotation and the status.  Hashing a spec is a library call
    and a parameter; what is read of the Service, which Ingresses a listing shows and which API call fails,
    if any, is chosen by the step.  The listing comes from a cache and may lag. */
module ServiceExports {
  import opened Options
  import opened Names

  datatype ExportRule = ExportRule(portNumber: int, path: string, pathType: string)

  datatype PathRewrite = PathRewrite(from: string, to: string)

  /** `rest` stands for the spec fields that do not shape the Ingress. */
  datatype Spec = Spec(
    rules: seq<ExportRule>, pathRewrite: Option<PathRewrite>, sessionSticky: bool, loadBalancer: string, rest: string)

  /** An object identity: a name together with how often it was created before. */
  datatype Uid = Uid(name: NamespacedName, serial: nat)

  datatype Reason = ServiceMissing | ServiceUnread | ServiceDeleted | ServiceExternal | ListingFailed | PathConflict

  /** The Valid condition, if set. */
  datatype Status = Unset | Exported | Refused(why: Reason)

  datatype Export = Export(uid: Uid, spec: Spec, hash: string, status: Status)

  datatype IngressPath = IngressPath(path: string, pathType: string, service: string, port: int)

  /** An Ingress by its controlling owner, the paths of its rules and its annotations. */
  datatype Ingress = Ingress(controller: Option<Uid>, rules: seq<seq<IngressPath>>, annotations: map<string, string>)

  type Ingresses = map<NamespacedName, Ingress>

  datatype State = State(exports: map<NamespacedName, Export>, ingresses: Ingresses, serial: nat)

  /** What is read of the Service of the export's name. */
  datatype ServiceRead = Usable | Missing | Unread | Deleting | External

  datatype Failure = NoFailure | GetFails | CreateFails | AnnotateFails | UpdateFails | StatusFails

  function GeneratedName(n: NamespacedName): NamespacedName {
    NamespacedName(n.namespace, "svcexp-ing-" + n.name)
  }

  lemma GeneratedNameInjective(n: NamespacedName, m: NamespacedName)
    ensures GeneratedName(n) == GeneratedName(m) <==> n == m
  {
    if GeneratedName(n) == GeneratedName(m) {
      assert GeneratedName(n).name[|"svcexp-ing-"|..] == n.name;
      assert GeneratedName(m).name[|"svcexp-ing-"|..] == m.name;
    }
  }

  function PathOf(n: NamespacedName, r: ExportRule): IngressPath {
    IngressPath(r.path, r.pathType, n.name, r.portNumber)
  }

  /** The paths an export asks for: one per rule, in order, to the service of the same name. */
  function IngressPaths(n: NamespacedName, spec: Spec): seq<IngressPath> {
    seq(|spec.rules|, i requires 0 <= i < |spec.rules| => PathOf(n, spec.rules[i]))
  }

  const REWRITE_FROM := "pipy.ingress.kubernetes.io/rewrite-target-from"
  const REWRITE_TO := "pipy.ingress.kubernetes.io/rewrite-target-to"
  const SESSION_STICKY := "pipy.ingress.kubernetes.io/session-sticky"
  const LOAD_BALANCER := "pipy.ingress.kubernetes.io/lb-type"

  /** The annotations an export asks for. */
  function Annotations(spec: Spec): map<string, string> {
    var rewrite := spec.pathRewrite;
    (if rewrite.Some? && rewrite.value.from != "" && rewrite.value.to != ""
     then map[REWRITE_FROM := rewrite.value.from, REWRITE_TO := rewrite.value.to] else map[]) +
    (if spec.sessionSticky then map[SESSION_STICKY := "true"] else map[]) +
    (if spec.loadBalancer != "" then map[LOAD_BALANCER := spec.loadBalancer] else map[])
  }

  ghost predicate HasPath(ing: Ingress, path: string, pathType: string) {
    exists paths, p :: paths in ing.rules && p in paths && p.path == path && p.pathType == pathType
  }

  /** Some listed Ingress that this export does not control already has a path of one of its rules. */
  ghost predicate Conflicts(listed: Ingresses, x: Export) {
    exists r, m :: r in x.spec.rules && m in listed && listed[m].controller != Some(x.uid) &&
      HasPath(listed[m], r.path, r.pathType)
  }

  /** Why the export is refused, if it is; without a listing, listing failed. */
  ghost function Refusal(service: ServiceRead, listed: Option<Ingresses>, x: Export): Option<Reason> {
    match service
    case Missing => Some(ServiceMissing)
    case Unread => Some(ServiceUnread)
    case Deleting => Some(ServiceDeleted)
    case External => Some(ServiceExternal)
    case Usable =>
      if listed.None? then Some(ListingFailed)
      else if Conflicts(listed.value, x) then Some(PathConflict)
      else None
  }

  /** Path `k` of rule `j` of a listed Ingress that the export does not control is that of its rule `i`. */
  ghost predicate Clash(listed: Ingresses, x: Export, i: int, m: NamespacedName, j: int, k: int) {
    && 0 <= i < |x.spec.rules| && m in listed && listed[m].controller != Some(x.uid)
    && 0 <= j < |listed[m].rules| && 0 <= k < |listed[m].rules[j]|
    && listed[m].rules[j][k].path == x.spec.rules[i].path
    && listed[m].rules[j][k].pathType == x.spec.rules[i].pathType
  }

  ghost predicate Clashes(listed: Ingresses, x: Export) {
    exists i, m, j, k :: Clash(listed, x, i, m, j, k)
  }

  lemma ConflictsIff(listed: Ingresses, x: Export)
    ensures Conflicts(listed, x) <==> Clashes(listed, x)
  {
    if Conflicts(listed, x) {
      var r, m :| r in x.spec.rules && m in listed && listed[m].controller != Some(x.uid) &&
        HasPath(listed[m], r.path, r.pathType);
      var paths, p :| paths in listed[m].rules && p in paths && p.path == r.path && p.pathType == r.pathType;
      var i :| 0 <= i < |x.spec.rules| && x.spec.rules[i] == r;
      var j :| 0 <= j < |listed[m].rules| && listed[m].rules[j] == paths;
      var k :| 0 <= k < |paths| && paths[k] == p;
      assert Clash(listed, x, i, m, j, k);
    }
    if Clashes(listed, x) {
      var i, m, j, k :| Clash(listed, x, i, m, j, k);
      var r, paths := x.spec.rules[i], listed[m].rules[j];
      assert r in x.spec.rules && paths in listed[m].rules && paths[k] in paths;
      assert HasPath(listed[m], r.path, r.pathType);
    }
  }

  /** The Service can be exported, and the listing shows no clash. */
  ghost predicate Acceptable(service: ServiceRead, listed: Option<Ingresses>, x: Export) {
    service.Usable? && listed.Some? && !Clashes(listed.value, x)
  }

  function Marked(s: State, n: NamespacedName, status: Status, fails: Failure): State
    requires n in s.exports
  {
    if fails.StatusFails? then s else s.(exports := s.exports[n := s.exports[n].(status := status)])
  }

  /** What an accepted export does to the API objects, the status aside, and whether every call went through. */
  function Generated(hash: Spec -> string, s: State, n: NamespacedName, fails: Failure): (r: (State, bool))
    requires n in s.exports
    ensures n in r.0.exports
  {
    var x, g := s.exports[n], GeneratedName(n);
    if fails.GetFails? then (s, false)
    else if g !in s.ingresses then
      if fails.CreateFails? then (s, false)
      else
        var made := Ingress(Some(x.uid), [IngressPaths(n, x.spec)], Annotations(x.spec));
        (s.(ingresses := s.ingresses[g := made]), true)
    else if x.hash == hash(x.spec) then (s, true)
    else if fails.AnnotateFails? then (s, false)
    else
      var annotated := s.(exports := s.exports[n := x.(hash := hash(x.spec))]);
      var now := s.ingresses[g].(
        rules := [IngressPaths(n, x.spec)], annotations := s.ingresses[g].annotations + Annotations(x.spec));
      if fails.UpdateFails? then (annotated, false) else (annotated.(ingresses := s.ingresses[g := now]), true)
  }

  /** What one reconcile of export `n` does to the API objects. */
  ghost function Reconciled(hash: Spec -> string, s: State, n: NamespacedName, service: ServiceRead,
                            listed: Option<Ingresses>, fails: Failure): State {
    if n !in s.exports then s else
    match Refusal(service, listed, s.exports[n])
    case Some(why) => Marked(s, n, Refused(why), fails)
    case None =>
      var r := Generated(hash, s, n, fails);
      if r.1 then Marked(r.0, n, Exported, fails) else r.0
  }

  // ----------------------------------------------------------- imperative form

  class Reconciler {
    var exports: map<NamespacedName, Export>
    var ingresses: Ingresses
    var serial: nat

    ghost function Abs(): State
      reads this
    {
      State(exports, ingresses, serial)
    }

    constructor ()
      ensures Abs() == State(map[], map[], 0)
    {
      exports, ingresses, serial := map[], map[], 0;
    }

    method PathsFor(n: NamespacedName, spec: Spec) returns (paths: seq<IngressPath>)
      ensures paths == IngressPaths(n, spec)
    {
      paths := [];
      for i := 0 to |spec.rules|
        invariant paths == IngressPaths(n, spec)[..i]
      {
        paths := paths + [PathOf(n, spec.rules[i])];
      }
    }

    /** Annotations are only ever set, key by key. */
    static method Annotated(was: map<string, string>, more: map<string, string>) returns (now: map<string, string>)
      ensures now == was + more
    {
      now := was;
      var rest := more.Keys;
      while rest != {}
        invariant rest <= more.Keys && now == was + (more - rest)
        decreases rest
      {
        var key :| key in rest;
        now, rest := now[key := more[key]], rest - {key};
      }
    }

    static method Has(ing: Ingress, path: string, pathType: string) returns (found: bool)
      ensures found <==> HasPath(ing, path, pathType)
    {
      for i := 0 to |ing.rules|
        invariant forall k, p :: 0 <= k < i && p in ing.rules[k] ==> !(p.path == path && p.pathType == pathType)
      {
        var paths := ing.rules[i];
        for j := 0 to |paths|
          invariant forall k :: 0 <= k < j ==> !(paths[k].path == path && paths[k].pathType == pathType)
        {
          if paths[j].path == path && paths[j].pathType == pathType {
            assert paths in ing.rules && paths[j] in paths;
            return true;
          }
        }
      }
      return false;
    }

    static method FindConflict(listed: Ingresses, x: Export) returns (found: bool)
      ensures found <==> Conflicts(listed, x)
    {
      for i := 0 to |x.spec.rules|
        invariant forall k, m :: 0 <= k < i && m in listed && listed[m].controller != Some(x.uid) ==>
          !HasPath(listed[m], x.spec.rules[k].path, x.spec.rules[k].pathType)
      {
        var r, rest := x.spec.rules[i], listed.Keys;
        while rest != {}
          invariant rest <= listed.Keys
          invariant forall m :: m in listed && m !in rest && listed[m].controller != Some(x.uid) ==>
            !HasPath(listed[m], r.path, r.pathType)
          decreases rest
        {
          var m :| m in rest;
          if listed[m].controller != Some(x.uid) {
            var has := Has(listed[m], r.path, r.pathType);
            if has {
              assert r in x.spec.rules;
              return true;
            }
          }
          rest := rest - {m};
        }
      }
      return false;
    }

    static method Refuse(service: ServiceRead, listed: Option<Ingresses>, x: Export) returns (why: Option<Reason>)
      ensures why == Refusal(service, listed, x)
    {
      match service
      case Missing => return Some(ServiceMissing);
      case Unread => return Some(ServiceUnread);
      case Deleting => return Some(ServiceDeleted);
      case External => return Some(ServiceExternal);
      case Usable =>
        if listed.None? {
          return Some(ListingFailed);
        }
        var conflict := FindConflict(listed.value, x);
        return if conflict then Some(PathConflict) else None;
    }

    method Mark(n: NamespacedName, status: Status, fails: Failure)
      requires n in exports
      modifies this
      ensures Abs() == Marked(old(Abs()), n, status, fails)
    {
      if !fails.StatusFails? {
        exports := exports[n := exports[n].(status := status)];
      }
    }

    /** The Ingress is created, or updated after the new hash was stored. */
    method Generate(hash: Spec -> string, n: NamespacedName, fails: Failure) returns (ok: bool)
      requires n in exports
      modifies this
      ensures (Abs(), ok) == Generated(hash, old(Abs()), n, fails)
    {
      var x, g := exports[n], GeneratedName(n);
      if fails.GetFails? {
        return false;
      }
      if g !in ingresses {
        var paths := PathsFor(n, x.spec);
        if fails.CreateFails? {
          return false;
        }
        ingresses := ingresses[g := Ingress(Some(x.uid), [paths], Annotations(x.spec))];
        return true;
      }
      if x.hash != hash(x.spec) {
        if fails.AnnotateFails? {
          return false;
        }
        exports := exports[n := x.(hash := hash(x.spec))];
        var paths := PathsFor(n, x.spec);
        var annotations := Annotated(ingresses[g].annotations, Annotations(x.spec));
        if fails.UpdateFails? {
          return false;
        }
        ingresses := ingresses[g := ingresses[g].(rules := [paths], annotations := annotations)];
      }
      return true;
    }

    method Reconcile(hash: Spec -> string, n: NamespacedName, service: ServiceRead, listed: Option<Ingresses>,
                     fails: Failure)
      modifies this
      ensures Abs() == Reconciled(hash, old(Abs()), n, service, listed, fails)
    {
      if n !in exports {
        return;
      }
      var why := Refuse(service, listed, exports[n]);
      if why.Some? {
        Mark(n, Refused(why.value), fails);
        return;
      }
      var ok := Generate(hash, n, fails);
      if ok {
        Mark(n, Exported, fails);
      }
    }
  }

  // ------------------------------------------------------------------------ runs

  datatype Step =
    | Reconcile(n: NamespacedName, service: ServiceRead, listed: Option<Ingresses>, fails: Failure)
    | Apply(n: NamespacedName, spec: Spec)
    | Remove(n: NamespacedName)
    | Collect(n: NamespacedName)
    | EditOther(m: NamespacedName, ing: Option<Ingress>)

  ghost predicate IsGenerated(m: NamespacedName) {
    exists n :: m == GeneratedName(n)
  }

  /** Besides reconciles: users create and change exports and delete them, generated Ingresses get
      collected, and other Ingresses come and go. */
  ghost predicate Takes(hash: Spec -> string, s: State, step: Step, s': State) {
    match step
    case Reconcile(n, service, listed, fails) => s' == Reconciled(hash, s, n, service, listed, fails)
    case Apply(n, spec) =>
      s' == if n in s.exports then s.(exports := s.exports[n := s.exports[n].(spec := spec)])
            else s.(exports := s.exports[n := Export(Uid(n, s.serial), spec, "", Unset)], serial := s.serial + 1)
    case Remove(n) => s' == s.(exports := s.exports - {n})
    case Collect(n) => s' == s.(ingresses := s.ingresses - {GeneratedName(n)})
    case EditOther(m, ing) =>
      && !IsGenerated(m)
      && s' == s.(ingresses := match ing case None => s.ingresses - {m} case Some(i) => s.ingresses[m := i])
  }

  ghost predicate IsRun(hash: Spec -> string, states: seq<State>, steps: seq<Step>) {
    && |states| == |steps| + 1
    && states[0].exports == map[]
    && (forall m :: m in states[0].ingresses ==> !IsGenerated(m))
    && forall i :: 0 <= i < |steps| ==> Takes(hash, states[i], steps[i], states[i + 1])
  }

  /** A reconcile that goes through marks the export as exported exactly when its Service can be exported and
      the listing shows no clash, and then there is an Ingress; otherwise it gives the reason. */
  lemma StatusTells(hash: Spec -> string, s: State, n: NamespacedName, service: ServiceRead, listed: Option<Ingresses>)
    requires n in s.exports
    ensures var after := Reconciled(hash, s, n, service, listed, NoFailure);
      && n in after.exports && !after.exports[n].status.Unset?
      && var x, status := s.exports[n], after.exports[n].status;
      && (status.Exported? <==> Acceptable(service, listed, x))
      && (status == Refused(ServiceMissing) <==> service.Missing?)
      && (status == Refused(ServiceUnread) <==> service.Unread?)
      && (status == Refused(ServiceDeleted) <==> service.Deleting?)
      && (status == Refused(ServiceExternal) <==> service.External?)
      && (status == Refused(ListingFailed) <==> service.Usable? && listed.None?)
      && (status == Refused(PathConflict) <==> service.Usable? && listed.Some? && Clashes(listed.value, x))
      && (status.Exported? ==> GeneratedName(n) in after.ingresses)
      && (status.Refused? ==> after.ingresses == s.ingresses)
  {
    if listed.Some? { ConflictsIff(listed.value, s.exports[n]); }
  }

  /** Whatever fails, a reconcile changes at most the hash and the status of its export, and its Ingress. */
  lemma ReconcileTouchesOnly(hash: Spec -> string, s: State, n: NamespacedName, service: ServiceRead,
                             listed: Option<Ingresses>, fails: Failure)
    ensures var after, g := Reconciled(hash, s, n, service, listed, fails), GeneratedName(n);
      && after.serial == s.serial && after.exports.Keys == s.exports.Keys
      && after.exports - {n} == s.exports - {n} && after.ingresses - {g} == s.ingresses - {g}
      && (n in s.exports ==>
        && after.exports[n].uid == s.exports[n].uid && after.exports[n].spec == s.exports[n].spec
        && after.exports[n].hash in {s.exports[n].hash, hash(s.exports[n].spec)})
  {
    if n in s.exports && Refusal(service, listed, s.exports[n]).None? {
      GeneratedTouchesOnly(hash, s, n, fails);
    }
  }

  lemma GeneratedTouchesOnly(hash: Spec -> string, s: State, n: NamespacedName, fails: Failure)
    requires n in s.exports
    ensures var after, g := Generated(hash, s, n, fails).0, GeneratedName(n);
      && after.serial == s.serial && after.exports.Keys == s.exports.Keys
      && after.exports - {n} == s.exports - {n} && after.ingresses - {g} == s.ingresses - {g}
      && after.exports[n].uid == s.exports[n].uid && after.exports[n].spec == s.exports[n].spec
      && after.exports[n].hash in {s.exports[n].hash, hash(s.exports[n].spec)}
  {
  }

  /** A failed call ends the reconcile: nothing that comes after it happens, and the status stays. */
  lemma FailureEnds(hash: Spec -> string, s: State, n: NamespacedName, service: ServiceRead,
                    listed: Option<Ingresses>, fails: Failure)
    requires n in s.exports && Acceptable(service, listed, s.exports[n])
    ensures var after, x, g := Reconciled(hash, s, n, service, listed, fails), s.exports[n], GeneratedName(n);
      && (fails.GetFails? ==> after == s)
      && (fails.CreateFails? && g !in s.ingresses ==> after == s)
      && (fails.AnnotateFails? && g in s.ingresses && x.hash != hash(x.spec) ==> after == s)
      && (fails.UpdateFails? && g in s.ingresses && x.hash != hash(x.spec) ==>
        after == s.(exports := s.exports[n := x.(hash := hash(x.spec))]))
      && (fails.StatusFails? ==>
        var done := Reconciled(hash, s, n, service, listed, NoFailure);
        after == done.(exports := done.exports[n := done.exports[n].(status := x.status)]))
  {
    ConflictsIff(listed.value, s.exports[n]);
    if fails.StatusFails? {
      var r := Generated(hash, s, n, fails);
      assert r == Generated(hash, s, n, NoFailure) && r.1;
      assert r.0.exports[n := r.0.exports[n].(status := Exported)][n := r.0.exports[n]] == r.0.exports;
    }
  }

  // ------------------------------------------------------ the Ingress is up to date

  ghost predicate GoodHash(hash: Spec -> string) {
    (forall a :: hash(a) != "") && forall a, b :: hash(a) == hash(b) ==> a == b
  }

  /** No API call fails, and a generated Ingress is collected exactly between the removal of its export and
      the creation of the next one of that name. */
  ghost predicate Tidy(s: State, step: Step) {
    match step
    case Reconcile(_, _, _, fails) => fails.NoFailure?
    case Apply(n, _) => n !in s.exports ==> GeneratedName(n) !in s.ingresses
    case Collect(n) => n !in s.exports
    case Remove(_) => true
    case EditOther(_, _) => true
  }

  /** The path is that of the rule, and leads to its port of the service of that name. */
  ghost predicate Serves(p: IngressPath, n: NamespacedName, r: ExportRule) {
    p.path == r.path && p.pathType == r.pathType && p.service == n.name && p.port == r.portNumber
  }

  /** One Ingress rule with one path for each rule of the spec, in order. */
  ghost predicate ServesAll(ing: Ingress, n: NamespacedName, spec: Spec) {
    && |ing.rules| == 1 && |ing.rules[0]| == |spec.rules|
    && forall i :: 0 <= i < |spec.rules| ==> Serves(ing.rules[0][i], n, spec.rules[i])
  }

  /** The spec asks for that annotation: both of a rewrite, or none. */
  ghost predicate Asks(spec: Spec, key: string, value: string) {
    var rewrite := spec.pathRewrite;
    || (rewrite.Some? && rewrite.value.from != "" && rewrite.value.to != "" &&
        ((key == "pipy.ingress.kubernetes.io/rewrite-target-from" && value == rewrite.value.from) ||
         (key == "pipy.ingress.kubernetes.io/rewrite-target-to" && value == rewrite.value.to)))
    || (spec.sessionSticky && key == "pipy.ingress.kubernetes.io/session-sticky" && value == "true")
    || (spec.loadBalancer != "" && key == "pipy.ingress.kubernetes.io/lb-type" && value == spec.loadBalancer)
  }

  ghost predicate Bound(m: map<string, string>, key: string, value: string) {
    key in m && m[key] == value
  }

  lemma KeysDiffer()
    ensures SESSION_STICKY !in {REWRITE_FROM, REWRITE_TO, LOAD_BALANCER}
    ensures LOAD_BALANCER !in {REWRITE_FROM, REWRITE_TO} && REWRITE_FROM != REWRITE_TO
  {
    assert SESSION_STICKY[27] == 's' && REWRITE_FROM[27] == 'r' && REWRITE_TO[27] == 'r' && LOAD_BALANCER[27] == 'l';
    assert REWRITE_FROM[42] == 'f' && REWRITE_TO[42] == 't';
  }

  /** The annotations of a spec are exactly those it asks for. */
  lemma AnnotationsIff(spec: Spec, key: string, value: string)
    ensures Bound(Annotations(spec), key, value) <==> Asks(spec, key, value)
  {
    KeysDiffer();
  }

  /** The Ingress has the paths of the spec, and every annotation the spec asks for. */
  ghost predicate UpToDate(ing: Ingress, n: NamespacedName, spec: Spec) {
    && ServesAll(ing, n, spec)
    && forall key, value :: Asks(spec, key, value) ==> Bound(ing.annotations, key, value)
  }

  lemma ServesAllIff(ing: Ingress, n: NamespacedName, spec: Spec)
    ensures ServesAll(ing, n, spec) <==> ing.rules == [IngressPaths(n, spec)]
  {
    if ServesAll(ing, n, spec) {
      assert ing.rules[0] == IngressPaths(n, spec);
      assert ing.rules == [IngressPaths(n, spec)];
    }
  }

  lemma WrittenUpToDate(ing: Ingress, n: NamespacedName, spec: Spec, was: map<string, string>)
    requires ing.rules == [IngressPaths(n, spec)] && ing.annotations == was + Annotations(spec)
    ensures UpToDate(ing, n, spec)
  {
    ServesAllIff(ing, n, spec);
    forall key, value | Asks(spec, key, value) ensures Bound(ing.annotations, key, value) {
      AnnotationsIff(spec, key, value);
    }
  }

  /** Writing sets what the spec asks for and keeps every other annotation; a new Ingress has no other. */
  lemma AnnotationsAfterWrite(hash: Spec -> string, s: State, n: NamespacedName, key: string, value: string)
    requires n in s.exports && (GeneratedName(n) in s.ingresses ==> s.exports[n].hash != hash(s.exports[n].spec))
    ensures var now, g := Generated(hash, s, n, NoFailure).0.ingresses, GeneratedName(n);
      g in now && (Bound(now[g].annotations, key, value) <==>
        || Asks(s.exports[n].spec, key, value)
        || (g in s.ingresses && Bound(s.ingresses[g].annotations, key, value) &&
            forall v :: !Asks(s.exports[n].spec, key, v)))
  {
    forall v ensures Bound(Annotations(s.exports[n].spec), key, v) <==> Asks(s.exports[n].spec, key, v) {
      AnnotationsIff(s.exports[n].spec, key, v);
    }
    var more := Annotations(s.exports[n].spec);
    assert key in more <==> exists v :: Bound(more, key, v) by {
      if key in more { assert Bound(more, key, more[key]); }
    }
  }

  /** Without the hash test in the way, an accepted reconcile writes the Ingress. */
  lemma GeneratedUpToDate(hash: Spec -> string, s: State, n: NamespacedName)
    requires n in s.exports && (GeneratedName(n) in s.ingresses ==> s.exports[n].hash != hash(s.exports[n].spec))
    ensures var r, g := Generated(hash, s, n, NoFailure), GeneratedName(n);
      && r.1 && g in r.0.ingresses && UpToDate(r.0.ingresses[g], n, s.exports[n].spec)
      && r.0.ingresses[g].controller ==
        if g in s.ingresses then s.ingresses[g].controller else Some(s.exports[n].uid)
  {
    var r, g := Generated(hash, s, n, NoFailure), GeneratedName(n);
    var was := if g in s.ingresses then s.ingresses[g].annotations else map[];
    assert map[] + Annotations(s.exports[n].spec) == Annotations(s.exports[n].spec);
    WrittenUpToDate(r.0.ingresses[g], n, s.exports[n].spec, was);
  }

  ghost predicate MadeFor(hash: Spec -> string, s: State, n: NamespacedName, spec: Spec)
    requires n in s.exports && GeneratedName(n) in s.ingresses
  {
    s.exports[n].hash == hash(spec) && UpToDate(s.ingresses[GeneratedName(n)], n, spec)
  }

  /** An export with a hash has an Ingress, and that is up to date with the spec that was hashed. */
  ghost predicate HashTells(hash: Spec -> string, s: State, n: NamespacedName) {
    n in s.exports && s.exports[n].hash != "" ==>
      GeneratedName(n) in s.ingresses && exists spec :: MadeFor(hash, s, n, spec)
  }

  lemma TidyStep(hash: Spec -> string, s: State, step: Step, s': State, n: NamespacedName)
    requires GoodHash(hash) && HashTells(hash, s, n) && Takes(hash, s, step, s') && Tidy(s, step)
    ensures HashTells(hash, s', n)
  {
    GeneratedNameInjective(n, if step.EditOther? then n else step.n);
    if step.Reconcile? && step.n == n && n in s.exports && s'.exports[n].hash != s.exports[n].hash {
      GeneratedUpToDate(hash, s, n);
      assert MadeFor(hash, s', n, s.exports[n].spec);
    } else if n in s.exports && s.exports[n].hash != "" && n in s'.exports {
      var spec :| MadeFor(hash, s, n, spec);
      assert MadeFor(hash, s', n, spec);
    }
  }

  lemma {:induction false} HashTellsAt(hash: Spec -> string, states: seq<State>, steps: seq<Step>, i: nat,
                                       n: NamespacedName)
    requires GoodHash(hash) && IsRun(hash, states, steps) && i < |states|
    requires forall j :: 0 <= j < i ==> Tidy(states[j], steps[j])
    ensures HashTells(hash, states[i], n)
  {
    if i > 0 {
      HashTellsAt(hash, states, steps, i - 1, n);
      TidyStep(hash, states[i - 1], steps[i - 1], states[i], n);
    }
  }

  /** The generated Ingress belongs to the export, and not to an earlier one of its name. */
  ghost predicate Owned(s: State, n: NamespacedName) {
    n in s.exports && GeneratedName(n) in s.ingresses ==>
      s.ingresses[GeneratedName(n)].controller == Some(s.exports[n].uid)
  }

  lemma OwnedStep(hash: Spec -> string, s: State, step: Step, s': State, n: NamespacedName)
    requires Owned(s, n) && Takes(hash, s, step, s') && Tidy(s, step)
    ensures Owned(s', n)
  {
    GeneratedNameInjective(n, if step.EditOther? then n else step.n);
  }

  lemma {:induction false} OwnedAt(hash: Spec -> string, states: seq<State>, steps: seq<Step>, i: nat,
                                   n: NamespacedName)
    requires IsRun(hash, states, steps) && i < |states|
    requires forall j :: 0 <= j < i ==> Tidy(states[j], steps[j])
    ensures Owned(states[i], n)
  {
    if i > 0 {
      OwnedAt(hash, states, steps, i - 1, n);
      OwnedStep(hash, states[i - 1], steps[i - 1], states[i], n);
    }
  }

  /** In a tidy run every accepted reconcile leaves the export with its Ingress, which has the paths of the
      current spec and all its annotations, also when the hash test skips the update. */
  lemma ReconcileUpToDate(hash: Spec -> string, states: seq<State>, steps: seq<Step>, i: nat, n: NamespacedName)
    requires GoodHash(hash) && IsRun(hash, states, steps) && i < |steps|
    requires forall j :: 0 <= j <= i ==> Tidy(states[j], steps[j])
    requires steps[i].Reconcile? && steps[i].n == n
    requires n in states[i].exports && Acceptable(steps[i].service, steps[i].listed, states[i].exports[n])
    ensures var g, x := NamespacedName(n.namespace, "svcexp-ing-" + n.name), states[i].exports[n];
      && g in states[i + 1].ingresses && states[i + 1].ingresses[g].controller == Some(x.uid)
      && UpToDate(states[i + 1].ingresses[g], n, x.spec)
  {
    HashTellsAt(hash, states, steps, i, n);
    OwnedAt(hash, states, steps, i, n);
    var s := states[i];
    assert Takes(hash, s, steps[i], states[i + 1]);
    ConflictsIff(steps[i].listed.value, s.exports[n]);
    if GeneratedName(n) !in s.ingresses || s.exports[n].hash != hash(s.exports[n].spec) {
      GeneratedUpToDate(hash, s, n);
    }
  }

  /** The stored hash is that of the spec, but the generated Ingress is not up to date with it. */
  ghost predicate Stale(hash: Spec -> string, s: State, n: NamespacedName) {
    && n in s.exports && GeneratedName(n) in s.ingresses
    && s.exports[n].hash == hash(s.exports[n].spec)
    && !UpToDate(s.ingresses[GeneratedName(n)], n, s.exports[n].spec)
  }

  /** For a single accepted reconcile without failures, exactly one situation leaves the Ingress out of date. */
  lemma ReconcileUpToDateIff(hash: Spec -> string, s: State, n: NamespacedName, service: ServiceRead,
                             listed: Option<Ingresses>)
    requires n in s.exports && Acceptable(service, listed, s.exports[n])
    ensures var after, g := Reconciled(hash, s, n, service, listed, NoFailure), GeneratedName(n);
      (g in after.ingresses && UpToDate(after.ingresses[g], n, s.exports[n].spec)) <==> !Stale(hash, s, n)
  {
    ConflictsIff(listed.value, s.exports[n]);
    if GeneratedName(n) !in s.ingresses || s.exports[n].hash != hash(s.exports[n].spec) {
      GeneratedUpToDate(hash, s, n);
    }
  }

  /** No reconcile of that export leads out of it, whatever fails, and an accepted one marks it as exported. */
  lemma StaleStays(hash: Spec -> string, s: State, n: NamespacedName, service: ServiceRead,
                   listed: Option<Ingresses>, fails: Failure)
    requires Stale(hash, s, n)
    ensures var after := Reconciled(hash, s, n, service, listed, fails);
      && Stale(hash, after, n) && after.ingresses == s.ingresses && after.exports[n].spec == s.exports[n].spec
      && (fails.NoFailure? && Acceptable(service, listed, s.exports[n]) ==> after.exports[n].status.Exported?)
  {
    if listed.Some? { ConflictsIff(listed.value, s.exports[n]); }
  }

  /** Annotations are not removed: after an update the Ingress has exactly those of the spec if and only if
      it had no other before. */
  lemma ExactAnnotationsIff(hash: Spec -> string, s: State, n: NamespacedName, service: ServiceRead,
                            listed: Option<Ingresses>)
    requires n in s.exports && GeneratedName(n) in s.ingresses && Acceptable(service, listed, s.exports[n])
    requires s.exports[n].hash != hash(s.exports[n].spec)
    ensures var after, g := Reconciled(hash, s, n, service, listed, NoFailure), GeneratedName(n);
      (forall key, value :: Bound(after.ingresses[g].annotations, key, value) <==> Asks(s.exports[n].spec, key, value))
        <==> s.ingresses[g].annotations.Keys <= Annotations(s.exports[n].spec).Keys
  {
    ConflictsIff(listed.value, s.exports[n]);
    var spec := s.exports[n].spec;
    var was, more := s.ingresses[GeneratedName(n)].annotations, Annotations(spec);
    assert (was + more).Keys == was.Keys + more.Keys;
    forall key, value ensures Bound(more, key, value) <==> Asks(spec, key, value) { AnnotationsIff(spec, key, value); }
    if was.Keys <= more.Keys {
      assert was + more == more;
    } else {
      var key :| key in was && key !in more;
      assert Bound(was + more, key, was[key]) && !Bound(more, key, was[key]);
    }
  }
}
