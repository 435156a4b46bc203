/** Accepting or rejecting an exported service by looking at every other cluster
    (controllers/cluster/v1alpha1/cluster_controller.go). */
module ExportDecisions {
  import opened Options
  import opened ServiceImports

  /** The outcome of one read from a cluster's API server. */
  datatype ApiRead<+T> = Found(value: T) | NotFound | Failed

  /** What the control plane sees of one connected cluster, for the name being exported. */
  datatype Background = Background(isInCluster: bool, imported: ApiRead<ServiceImport>, service: ApiRead<Service>)

  datatype Message =
    | Accepted(event: ExportEvent)
    | Rejected(event: ExportEvent, reason: Conflict)
    | Deleted(event: ExportEvent)

  datatype Conflict = Conflict(clusterKey: ClusterKey, detail: Detail)

  datatype Detail = GetFailed | TypeDiffers | PortsDiffer

  predicate SameSpec(a: Service, b: Service) {
    a.kind == b.kind && a.ports == b.ports
  }

  /** A failed read counts as an existing import. */
  predicate ServiceImportExists(bg: Background) {
    !bg.imported.NotFound?
  }

  /** A Service that is not there cannot conflict; a failed read does. */
  function ValidateServiceExport(bg: Background, service: Service): (err: Option<Detail>)
    ensures err.None? <==> bg.service.NotFound? || (bg.service.Found? && SameSpec(service, bg.service.value))
    ensures err == Some(GetFailed) <==> bg.service.Failed?
    ensures err == Some(TypeDiffers) <==> bg.service.Found? && service.kind != bg.service.value.kind
  {
    match bg.service
    case NotFound => None
    case Failed => Some(GetFailed)
    case Found(localSvc) =>
      if service.kind != localSvc.kind then Some(TypeDiffers)
      else if service.ports != localSvc.ports then Some(PortsDiffer)
      else None
  }

  ghost predicate FirstTime(bgs: map<ClusterKey, Background>) {
    forall k :: k in bgs && !bgs[k].isInCluster ==> !ServiceImportExists(bgs[k])
  }

  ghost predicate Conflicts(bgs: map<ClusterKey, Background>, e: ExportEvent, k: ClusterKey) {
    k in bgs && !bgs[k].isInCluster && k != e.clusterKey && ValidateServiceExport(bgs[k], e.service).Some?
  }

  ghost predicate Accepts(bgs: map<ClusterKey, Background>, e: ExportEvent) {
    FirstTime(bgs) || forall k :: !Conflicts(bgs, e, k)
  }

  /** The other cluster is remote and its Service cannot be read, or has another type or other ports. */
  ghost predicate Objects(bgs: map<ClusterKey, Background>, e: ExportEvent, k: ClusterKey) {
    && k in bgs && !bgs[k].isInCluster && k != e.clusterKey
    && match bgs[k].service
       case NotFound => false
       case Failed => true
       case Found(svc) => svc.kind != e.service.kind || svc.ports != e.service.ports
  }

  /** An export is accepted exactly if no remote cluster has, or may have, an import of it, or no other remote
      cluster objects. */
  lemma AcceptsIff(bgs: map<ClusterKey, Background>, e: ExportEvent)
    ensures Accepts(bgs, e) <==>
      || (forall k :: k in bgs && !bgs[k].isInCluster ==> bgs[k].imported.NotFound?)
      || (forall k :: !Objects(bgs, e, k))
    ensures forall k :: Conflicts(bgs, e, k) <==> Objects(bgs, e, k)
  {
    forall k ensures Conflicts(bgs, e, k) <==> Objects(bgs, e, k) { }
    assert forall k :: k in bgs ==> (ServiceImportExists(bgs[k]) <==> !bgs[k].imported.NotFound?);
    assert FirstTime(bgs) <==> forall k :: k in bgs && !bgs[k].isInCluster ==> bgs[k].imported.NotFound?;
  }

  ghost predicate DecidedAs(bgs: map<ClusterKey, Background>, e: ExportEvent, m: Message) {
    && !m.Deleted?
    && m.event == e
    && (m.Accepted? <==> Accepts(bgs, e))
    && (m.Rejected? ==>
      && Conflicts(bgs, e, m.reason.clusterKey)
      && ValidateServiceExport(bgs[m.reason.clusterKey], e.service) == Some(m.reason.detail))
  }

  class ClusterReconciler {
    var backgrounds: map<ClusterKey, Background>
    var queue: seq<Message>

    constructor ()
      ensures backgrounds == map[] && queue == []
    {
      backgrounds, queue := map[], [];
    }

    method IsFirstTimeExport() returns (first: bool)
      ensures first <==> FirstTime(backgrounds)
      ensures first <==>
        forall k :: k in backgrounds && !backgrounds[k].isInCluster ==> backgrounds[k].imported.NotFound?
    {
      var rest := backgrounds.Keys;
      while rest != {}
        invariant rest <= backgrounds.Keys
        invariant forall k :: k in backgrounds && k !in rest && !backgrounds[k].isInCluster ==>
          !ServiceImportExists(backgrounds[k])
        decreases rest
      {
        var k :| k in rest;
        if !backgrounds[k].isInCluster && ServiceImportExists(backgrounds[k]) {
          return false;
        }
        rest := rest - {k};
      }
      return true;
    }

    /** No error for a valid export, otherwise the first conflict met. */
    method IsValidServiceExport(e: ExportEvent) returns (err: Option<Conflict>)
      ensures err.None? <==> forall k :: !Conflicts(backgrounds, e, k)
      ensures err.Some? ==>
        && Conflicts(backgrounds, e, err.value.clusterKey)
        && ValidateServiceExport(backgrounds[err.value.clusterKey], e.service) == Some(err.value.detail)
    {
      var rest := backgrounds.Keys;
      while rest != {}
        invariant rest <= backgrounds.Keys
        invariant forall k :: k !in rest ==> !Conflicts(backgrounds, e, k)
        decreases rest
      {
        var k :| k in rest;
        if !backgrounds[k].isInCluster && k != e.clusterKey {
          var detail := ValidateServiceExport(backgrounds[k], e.service);
          if detail.Some? {
            assert Conflicts(backgrounds, e, k);
            return Some(Conflict(k, detail.value));
          }
        }
        rest := rest - {k};
      }
      return None;
    }

    method ProcessServiceExportCreatedEvent(e: ExportEvent)
      modifies this`queue
      ensures |queue| == |old(queue)| + 1 && queue[..|old(queue)|] == old(queue)
      ensures DecidedAs(backgrounds, e, queue[|old(queue)|])
    {
      var first := IsFirstTimeExport();
      if first {
        queue := queue + [Accepted(e)];
      } else {
        var err := IsValidServiceExport(e);
        if err.None? {
          queue := queue + [Accepted(e)];
        } else {
          queue := queue + [Rejected(e, err.value)];
        }
      }
    }
  }
}
