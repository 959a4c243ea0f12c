/** The load-balancer store logic of the cloud controller manager
    (`GetLoadBalancer`, the create-or-update branch of `EnsureLoadBalancer`,
    `UpdateLoadBalancer`, `updateLoadBalancer`, `EnsureLoadBalancerDeleted` in
    pkg/cloud-controller-manager/loadbalancer.go) against a map-backed store of
    load balancers in the manager's namespace. */
module LoadBalancerManagement {
  import opened Wrappers
  import opened GoLib
  import opened Kube
  import opened LoadBalancerNaming
  import opened LoadBalancerSpecs

  const UuidKey := Prefix + "service-uuid"
  const ClusterNameKey := Prefix + "cluster"

  datatype LoadBalancerStatus = LoadBalancerStatus(address: string)

  datatype LoadBalancer = LoadBalancer(
    namespace: string,
    name: Bytes,
    annotations: map<string, string>,
    labels: map<string, string>,
    spec: LoadBalancerSpec,
    status: LoadBalancerStatus)

  /** A load balancer is stored under its namespace and name. */
  type LbKey = (string, Bytes)

  function KeyOf(lb: LoadBalancer): LbKey
  {
    (lb.namespace, lb.name)
  }

  /** The API server files every object under its own namespace and name. */
  predicate WellKeyed(objects: map<LbKey, LoadBalancer>)
  {
    forall k :: k in objects ==> KeyOf(objects[k]) == k
  }

  datatype ManagerError = StoreFailed(storeError: StoreError) | SpecFailed(specError: SpecError)

  /** A `v1.LoadBalancerStatus` with its one ingress IP. */
  datatype IngressStatus = IngressStatus(ip: string)

  class LoadBalancerManager {
    const lbClient: Store<LbKey, LoadBalancer>
    const namespace: string

    constructor (lbClient: Store<LbKey, LoadBalancer>, namespace: string)
      ensures this.lbClient == lbClient && this.namespace == namespace
    {
      this.lbClient := lbClient;
      this.namespace := namespace;
    }

    /** The name fits a Kubernetes label and ends in the hex digest of the service's identity. */
    function GetLoadBalancerName(clusterName: string, svc: Service): (r: Bytes)
      ensures LenOfSuffix < |r| <= MaxNameLength
      ensures r[|r| - LenOfSuffix..] == FormatHex8(Digest(clusterName, svc.namespace, svc.name, svc.uid))
    {
      NameSuffix(clusterName, svc.namespace, svc.name, svc.uid);
      LoadBalancerName(clusterName, svc.namespace, svc.name, svc.uid)
    }

    function KeyFor(clusterName: string, svc: Service): LbKey
    {
      (namespace, GetLoadBalancerName(clusterName, svc))
    }

    /** The service's load balancer, its absence reported as `(nil, false, nil)`,
        any other read error passed on. */
    method GetLoadBalancer(clusterName: string, svc: Service) returns (status: Option<IngressStatus>, found: bool, err: Option<StoreError>)
      ensures var key := KeyFor(clusterName, svc);
              && (lbClient.fault.Some? ==> status.None? && !found && err == Some(Failure(lbClient.fault.value)))
              && (lbClient.fault.None? && key !in lbClient.objects ==> status.None? && !found && err.None?)
              && (lbClient.fault.None? && key in lbClient.objects ==>
                    status == Some(IngressStatus(lbClient.objects[key].status.address)) && found && err.None?)
    {
      var name := GetLoadBalancerName(clusterName, svc);
      var lb := lbClient.Get((namespace, name));
      if lb.Err? {
        if lb.error == NotFound {
          return None, false, None;
        } else {
          return None, false, Some(lb.error);
        }
      }
      return Some(IngressStatus(lb.value.status.address)), true, None;
    }

    /** `updateLoadBalancer`: rebuild the spec and write the object back with only
        its spec replaced. */
    method ReplaceSpec(lb: LoadBalancer, svc: Service, nodes: seq<Node>) returns (err: Option<ManagerError>)
      requires WellKeyed(lbClient.objects)
      modifies lbClient
      ensures WellKeyed(lbClient.objects) && lbClient.fault == old(lbClient.fault)
      ensures HealthCheckOf(svc).Err? ==> err == Some(SpecFailed(HealthCheckOf(svc).error)) && lbClient.objects == old(lbClient.objects)
      ensures HealthCheckOf(svc).Ok? && old(lbClient.fault).Some? ==>
                err == Some(StoreFailed(Failure(old(lbClient.fault).value))) && lbClient.objects == old(lbClient.objects)
      ensures HealthCheckOf(svc).Ok? && old(lbClient.fault).None? && KeyOf(lb) !in old(lbClient.objects) ==>
                err == Some(StoreFailed(NotFound)) && lbClient.objects == old(lbClient.objects)
      ensures HealthCheckOf(svc).Ok? && old(lbClient.fault).None? && KeyOf(lb) in old(lbClient.objects) ==>
                && err.None?
                && KeyOf(lb) in lbClient.objects
                && (exists spec :: IsSpecFor(svc, nodes, spec) && lbClient.objects == old(lbClient.objects)[KeyOf(lb) := lb.(spec := spec)])
    {
      var spec := GetLBSpec(svc, nodes);
      if spec.Err? {
        return Some(SpecFailed(spec.error));
      }
      var lbCopy := lb.(spec := spec.value);
      var updated := lbClient.Update(KeyOf(lbCopy), lbCopy);
      if updated.Err? {
        return Some(StoreFailed(updated.error));
      }
      return None;
    }

    /** The create-or-update step of `EnsureLoadBalancer`: a present load
        balancer gets its spec replaced; an absent one is created with the
        service's UID annotation, the cluster label and the built spec. */
    method EnsureLoadBalancer(clusterName: string, svc: Service, nodes: seq<Node>) returns (err: Option<ManagerError>)
      requires WellKeyed(lbClient.objects)
      modifies lbClient
      ensures WellKeyed(lbClient.objects) && lbClient.fault == old(lbClient.fault)
      ensures old(lbClient.fault).Some? ==>
                err == Some(StoreFailed(Failure(old(lbClient.fault).value))) && lbClient.objects == old(lbClient.objects)
      ensures HealthCheckOf(svc).Err? ==> err.Some? && lbClient.objects == old(lbClient.objects)
      ensures old(lbClient.fault).None? && HealthCheckOf(svc).Err? ==> err == Some(SpecFailed(HealthCheckOf(svc).error))
      ensures old(lbClient.fault).None? && HealthCheckOf(svc).Ok? ==>
                && err.None?
                && (exists spec :: IsSpecFor(svc, nodes, spec) &&
                      lbClient.objects == old(lbClient.objects)[KeyFor(clusterName, svc) :=
                        EnsuredLoadBalancer(old(lbClient.objects), KeyFor(clusterName, svc), clusterName, svc, spec)])
    {
      var name := GetLoadBalancerName(clusterName, svc);
      var lb := lbClient.Get((namespace, name));
      if lb.Err? && lb.error != NotFound {
        return Some(StoreFailed(lb.error));
      }
      if lb.Ok? {
        err := ReplaceSpec(lb.value, svc, nodes);
      } else {
        err := CreateFor(clusterName, name, svc, nodes);
      }
    }

    /** What `EnsureLoadBalancer` leaves under `key` once `spec` is built: the
        present object with its spec replaced, or a new object carrying the
        service's UID annotation and the cluster label. */
    function EnsuredLoadBalancer(objects: map<LbKey, LoadBalancer>, key: LbKey, clusterName: string, svc: Service,
                                 spec: LoadBalancerSpec): (lb: LoadBalancer)
      reads this
      ensures key in objects ==> lb == objects[key].(spec := spec)
      ensures key !in objects ==> lb.namespace == namespace && lb.name == key.1 && lb.spec == spec
      ensures key !in objects ==> lb.annotations == map[UuidKey := svc.uid] && lb.labels == map[ClusterNameKey := clusterName]
      ensures key !in objects ==> lb.status.address == ""
    {
      if key in objects then objects[key].(spec := spec)
      else LoadBalancer(namespace, key.1, map[UuidKey := svc.uid], map[ClusterNameKey := clusterName], spec, LoadBalancerStatus(""))
    }

    /** The create branch of `EnsureLoadBalancer`, reached when the read found
        no object and no fault: the object carries the service's UID annotation,
        the cluster label and the built spec. */
    method CreateFor(clusterName: string, name: Bytes, svc: Service, nodes: seq<Node>) returns (err: Option<ManagerError>)
      requires WellKeyed(lbClient.objects) && lbClient.fault.None? && (namespace, name) !in lbClient.objects
      modifies lbClient
      ensures WellKeyed(lbClient.objects) && lbClient.fault == old(lbClient.fault)
      ensures HealthCheckOf(svc).Err? ==> err == Some(SpecFailed(HealthCheckOf(svc).error)) && lbClient.objects == old(lbClient.objects)
      ensures HealthCheckOf(svc).Ok? ==>
                && err.None?
                && (exists spec :: IsSpecFor(svc, nodes, spec) &&
                      lbClient.objects == old(lbClient.objects)[(namespace, name) := LoadBalancer(
                        namespace, name, map[UuidKey := svc.uid], map[ClusterNameKey := clusterName], spec, LoadBalancerStatus(""))])
    {
      var spec := GetLBSpec(svc, nodes);
      if spec.Err? {
        return Some(SpecFailed(spec.error));
      }
      var created := lbClient.Create((namespace, name), LoadBalancer(
        namespace, name, map[UuidKey := svc.uid], map[ClusterNameKey := clusterName], spec.value, LoadBalancerStatus("")));
      // The read just found no object and no fault, so in this sequential model
      // the create cannot fail (a concurrent create is not modelled).
      assert created.Ok?;
      err := None;
    }

    /** `UpdateLoadBalancer`: any read error, absence included, is returned;
        otherwise the spec is replaced. */
    method UpdateLoadBalancer(clusterName: string, svc: Service, nodes: seq<Node>) returns (err: Option<ManagerError>)
      requires WellKeyed(lbClient.objects)
      modifies lbClient
      ensures WellKeyed(lbClient.objects) && lbClient.fault == old(lbClient.fault)
      ensures var key := KeyFor(clusterName, svc);
              old(lbClient.fault).None? && key !in old(lbClient.objects) ==>
                err == Some(StoreFailed(NotFound)) && lbClient.objects == old(lbClient.objects)
      ensures var key := KeyFor(clusterName, svc);
              old(lbClient.fault).None? && key in old(lbClient.objects) && HealthCheckOf(svc).Ok? ==>
                && err.None?
                && (exists spec :: IsSpecFor(svc, nodes, spec) && lbClient.objects == old(lbClient.objects)[key := old(lbClient.objects)[key].(spec := spec)])
      ensures old(lbClient.fault).Some? ==>
                err == Some(StoreFailed(Failure(old(lbClient.fault).value))) && lbClient.objects == old(lbClient.objects)
      ensures var key := KeyFor(clusterName, svc);
              old(lbClient.fault).None? && key in old(lbClient.objects) && HealthCheckOf(svc).Err? ==>
                err == Some(SpecFailed(HealthCheckOf(svc).error)) && lbClient.objects == old(lbClient.objects)
      ensures err.Some? ==> lbClient.objects == old(lbClient.objects)
    {
      var name := GetLoadBalancerName(clusterName, svc);
      var lb := lbClient.Get((namespace, name));
      if lb.Err? {
        return Some(StoreFailed(lb.error));
      }
      err := ReplaceSpec(lb.value, svc, nodes);
    }

    /** `EnsureLoadBalancerDeleted`: an absent load balancer is not an error; any
        other read error is returned; a present one is deleted. */
    method EnsureLoadBalancerDeleted(clusterName: string, svc: Service) returns (err: Option<StoreError>)
      requires WellKeyed(lbClient.objects)
      modifies lbClient
      ensures WellKeyed(lbClient.objects) && lbClient.fault == old(lbClient.fault)
      ensures old(lbClient.fault).Some? ==> err == Some(Failure(old(lbClient.fault).value)) && lbClient.objects == old(lbClient.objects)
      ensures old(lbClient.fault).None? ==> err.None? && lbClient.objects == old(lbClient.objects) - {KeyFor(clusterName, svc)}
    {
      var name := GetLoadBalancerName(clusterName, svc);
      var lb := lbClient.Get((namespace, name));
      if lb.Err? && lb.error != NotFound {
        return Some(lb.error);
      }
      if lb.Ok? {
        err := lbClient.Delete((namespace, name));
        return;
      }
      return None;
    }
  }
}
