/** The load-balancer controller of the Harvester side (`OnChange`, `OnRemove`,
    `allocateIP`, `requestIP`, `releaseIP`, `selectIPPool` in
    vendor/github.com/harvester/harvester-load-balancer/pkg/controller/loadbalancer/controller.go).
    The allocators' own lease bookkeeping is not visible; what an allocator
    hands out or whether a release fails is an input, and every allocator call
    is recorded in order. */
module LoadBalancerController {
  import opened Wrappers
  import opened Kube
  import opened IpamSelection

  const GroupName := "loadbalancer.harvesterhci.io"
  const AnnotationKeyNetwork := GroupName + "/network"
  const AnnotationKeyProject := GroupName + "/project"
  const AnnotationKeyNamespace := GroupName + "/namespace"
  const AnnotationKeyCluster := GroupName + "/cluster"

  /** IPAM modes and the workload type served by a VM load balancer. */
  const Pool := "pool"
  const DHCP := "dhcp"
  const VM := "vm"
  /** The address that stands for "ask DHCP for an address". */
  const Address4AskDHCP := "0.0.0.0"

  datatype AllocatedAddress = AllocatedAddress(ipPool: string, ip: string, mask: string, gateway: string)

  datatype Condition = Condition(status: bool, message: string)

  datatype LoadBalancerSpec = LoadBalancerSpec(ipam: string, ipPool: string, workloadType: string)

  datatype LoadBalancerStatus = LoadBalancerStatus(allocatedAddress: AllocatedAddress, address: string, ready: Option<Condition>)

  datatype LoadBalancer = LoadBalancer(
    namespace: string,
    name: string,
    annotations: map<string, string>,
    deleting: bool,
    spec: LoadBalancerSpec,
    status: LoadBalancerStatus)

  /** The address an allocator hands out. */
  datatype IPConfig = IPConfig(ip: string, mask: string, gateway: string)

  datatype AllocatorCall = Request(pool: string, key: string) | Release(pool: string, key: string)

  /** Which pools have an allocator, and how each allocator answers a request
      or a release for a key. */
  datatype AllocatorEnv = AllocatorEnv(
    present: set<string>,
    grant: (string, string) -> Result<IPConfig, string>,
    release: (string, string) -> Option<string>)

  datatype AllocError = NoAllocator(pool: string) | AllocatorFailed(message: string) | SelectFailed(namespace: string, name: string)

  datatype HandlerError = AllocationFailed(allocError: AllocError) | ManagerFailed(message: string)
                        | WaitFailed(message: string) | UpdateFailed(storeError: StoreError)

  datatype ManagerCall = EnsureCall(lb: LoadBalancer) | DeleteCall(lb: LoadBalancer)

  /** The allocator key of a load balancer, `namespace/name`. */
  function AllocationKey(lb: LoadBalancer): string
  {
    lb.namespace + "/" + lb.name
  }

  /** `requestIP`: the result and the allocator calls it makes. */
  function RequestOutcome(env: AllocatorEnv, lb: LoadBalancer, pool: string)
    : (outcome: (Result<Option<AllocatedAddress>, AllocError>, seq<AllocatorCall>))
  {
    if pool !in env.present then (Err(NoAllocator(pool)), [])
    else
      var key := AllocationKey(lb);
      match env.grant(pool, key)
      case Err(e) => (Err(AllocatorFailed(e)), [Request(pool, key)])
      case Ok(c) => (Ok(Some(AllocatedAddress(pool, c.ip, c.mask, c.gateway))), [Request(pool, key)])
  }

  /** `releaseIP`: releases the load balancer's key from the pool its status records. */
  function ReleaseOutcome(env: AllocatorEnv, lb: LoadBalancer): (outcome: (Option<AllocError>, seq<AllocatorCall>))
  {
    var pool := lb.status.allocatedAddress.ipPool;
    if pool !in env.present then (Some(NoAllocator(pool)), [])
    else
      var key := AllocationKey(lb);
      match env.release(pool, key)
      case Some(e) => (Some(AllocatorFailed(e)), [Release(pool, key)])
      case None => (None, [Release(pool, key)])
  }

  /** The requirement `selectIPPool` builds from the annotations. */
  function RequirementOf(lb: LoadBalancer): Requirement
  {
    Requirement(Lookup(lb.annotations, AnnotationKeyNetwork), Lookup(lb.annotations, AnnotationKeyProject),
                Lookup(lb.annotations, AnnotationKeyNamespace), Lookup(lb.annotations, AnnotationKeyCluster))
  }

  /** The pool mode's target: the pool the spec names, else the selector's choice. */
  function TargetPool(pools: Result<seq<IPPool>, string>, lb: LoadBalancer): Result<string, AllocError>
  {
    if lb.spec.ipPool != "" then Ok(lb.spec.ipPool)
    else if pools.Err? then Err(SelectFailed(lb.namespace, lb.name))
    else Ok(SelectedPool(pools.value, RequirementOf(lb)).name)
  }

  /** `allocateIP`: the new allocated address (none for "no change"), or an
      error, together with the allocator calls made, in order. */
  function AllocateOutcome(env: AllocatorEnv, pools: Result<seq<IPPool>, string>, lb: LoadBalancer)
    : (outcome: (Result<Option<AllocatedAddress>, AllocError>, seq<AllocatorCall>))
  {
    var recorded := lb.status.allocatedAddress;
    if lb.spec.ipam == DHCP then
      var released := if recorded.ipPool != "" then ReleaseOutcome(env, lb) else (None, []);
      if released.0.Some? then (Err(released.0.value), released.1)
      else if recorded.ip != Address4AskDHCP then (Ok(Some(AllocatedAddress("", Address4AskDHCP, "", ""))), released.1)
      else (Ok(None), released.1)
    else
      match TargetPool(pools, lb)
      case Err(e) => (Err(e), [])
      case Ok(pool) =>
        var released :=
          if recorded.ipPool != "" && recorded.ipPool != pool then ReleaseOutcome(env, lb) else (None, []);
        if released.0.Some? then (Err(released.0.value), released.1)
        else if recorded.ipPool != pool then
          var requested := RequestOutcome(env, lb, pool);
          (requested.0, released.1 + requested.1)
        else (Ok(None), released.1)
  }

  /** In DHCP mode nothing is requested; a recorded pool is released first; the
      result asks DHCP unless the address already does, and then it is "no change". */
  lemma DhcpAllocation(env: AllocatorEnv, pools: Result<seq<IPPool>, string>, lb: LoadBalancer)
    requires lb.spec.ipam == DHCP
    ensures var r := AllocateOutcome(env, pools, lb).0;
            var calls := AllocateOutcome(env, pools, lb).1;
            var key := AllocationKey(lb);
            var recorded := lb.status.allocatedAddress.ipPool;
            && (recorded == "" ==> calls == [])
            && (recorded != "" && recorded in env.present ==> calls == [Release(recorded, key)])
            && (recorded != "" && recorded !in env.present ==> calls == [] && r == Err(NoAllocator(recorded)))
            && (recorded != "" && recorded in env.present && env.release(recorded, key).Some? ==>
                  r == Err(AllocatorFailed(env.release(recorded, key).value)))
            && (r.Ok? ==> (r.value.Some? <==> lb.status.allocatedAddress.ip != Address4AskDHCP))
            && (r.Ok? && r.value.Some? ==> r.value.value == AllocatedAddress("", Address4AskDHCP, "", ""))
            && (recorded == "" || (recorded in env.present && env.release(recorded, key).None?) ==>
                  r == Ok(if lb.status.allocatedAddress.ip != Address4AskDHCP
                          then Some(AllocatedAddress("", Address4AskDHCP, "", "")) else None))
  {
  }

  /** In pool mode, when the recorded pool already is the target, nothing is
      called and the result is "no change". */
  lemma SamePoolNoAllocatorCall(env: AllocatorEnv, pools: Result<seq<IPPool>, string>, lb: LoadBalancer)
    requires lb.spec.ipam != DHCP
    requires TargetPool(pools, lb) == Ok(lb.status.allocatedAddress.ipPool)
    ensures AllocateOutcome(env, pools, lb) == (Ok(None), [])
  {
  }

  /** In pool mode at most one release and one request happen, the release
      (of the recorded pool) strictly before the request (to the target), and
      a release happens only when the recorded pool is set and not the target. */
  lemma ReleaseBeforeRequest(env: AllocatorEnv, pools: Result<seq<IPPool>, string>, lb: LoadBalancer)
    requires lb.spec.ipam != DHCP
    ensures var r := AllocateOutcome(env, pools, lb).0;
            var calls := AllocateOutcome(env, pools, lb).1;
            var recorded := lb.status.allocatedAddress.ipPool;
            var key := AllocationKey(lb);
            && |calls| <= 2
            && (forall i, j :: 0 <= i < j < |calls| ==> calls[i].Release? && calls[j].Request?)
            && (forall i :: 0 <= i < |calls| && calls[i].Release? ==>
                  calls[i] == Release(recorded, key) && recorded != "" && TargetPool(pools, lb) != Ok(recorded))
            && (forall i :: 0 <= i < |calls| && calls[i].Request? ==>
                  TargetPool(pools, lb) == Ok(calls[i].pool) && calls[i].key == key && calls[i].pool != recorded)
  {
  }

  /** In pool mode, a target pool other than the recorded one is requested
      once nothing was recorded or the release went through: the result is that
      request's, and the calls are the release (if any) followed by the request
      (when the pool has an allocator). */
  lemma ChangedPoolRequests(env: AllocatorEnv, pools: Result<seq<IPPool>, string>, lb: LoadBalancer, target: string)
    requires lb.spec.ipam != DHCP
    requires TargetPool(pools, lb) == Ok(target) && target != lb.status.allocatedAddress.ipPool
    requires var recorded := lb.status.allocatedAddress.ipPool;
             recorded == "" || (recorded in env.present && env.release(recorded, AllocationKey(lb)).None?)
    ensures var r := AllocateOutcome(env, pools, lb).0;
            var calls := AllocateOutcome(env, pools, lb).1;
            var recorded := lb.status.allocatedAddress.ipPool;
            var key := AllocationKey(lb);
            && r == RequestOutcome(env, lb, target).0
            && calls == (if recorded != "" then [Release(recorded, key)] else [])
                        + (if target in env.present then [Request(target, key)] else [])
            && (target !in env.present ==> r == Err(NoAllocator(target)))
            && (target in env.present && env.grant(target, key).Ok? ==>
                  r == Ok(Some(AllocatedAddress(target, env.grant(target, key).value.ip,
                                                env.grant(target, key).value.mask, env.grant(target, key).value.gateway))))
            && (target in env.present && env.grant(target, key).Err? ==> r == Err(AllocatorFailed(env.grant(target, key).error)))
  {
  }

  /** In pool mode, a recorded pool other than the target is released first;
      a missing allocator or a failed release ends the allocation there. */
  lemma ChangedPoolReleasesFirst(env: AllocatorEnv, pools: Result<seq<IPPool>, string>, lb: LoadBalancer, target: string)
    requires lb.spec.ipam != DHCP
    requires TargetPool(pools, lb) == Ok(target)
    requires lb.status.allocatedAddress.ipPool != "" && lb.status.allocatedAddress.ipPool != target
    ensures var r := AllocateOutcome(env, pools, lb).0;
            var calls := AllocateOutcome(env, pools, lb).1;
            var recorded := lb.status.allocatedAddress.ipPool;
            var key := AllocationKey(lb);
            && (recorded in env.present ==> |calls| > 0 && calls[0] == Release(recorded, key))
            && (recorded !in env.present ==> r == Err(NoAllocator(recorded)) && calls == [])
            && (recorded in env.present && env.release(recorded, key).Some? ==>
                  r == Err(AllocatorFailed(env.release(recorded, key).value)) && calls == [Release(recorded, key)])
  {
  }

  /** A pool-mode allocation records the pool it came from and what its allocator handed out. */
  lemma AllocationRecordsPool(env: AllocatorEnv, pools: Result<seq<IPPool>, string>, lb: LoadBalancer)
    requires lb.spec.ipam != DHCP
    requires AllocateOutcome(env, pools, lb).0.Ok?
    requires AllocateOutcome(env, pools, lb).0.value.Some?
    ensures var a := AllocateOutcome(env, pools, lb).0.value.value;
            && TargetPool(pools, lb) == Ok(a.ipPool)
            && a.ipPool != lb.status.allocatedAddress.ipPool
            && a.ipPool in env.present
            && env.grant(a.ipPool, AllocationKey(lb)) == Ok(IPConfig(a.ip, a.mask, a.gateway))
  {
  }

  /** Without a named pool, a failed pool listing fails the allocation before any allocator call. */
  lemma SelectorFailureIsError(env: AllocatorEnv, pools: Result<seq<IPPool>, string>, lb: LoadBalancer)
    requires lb.spec.ipam != DHCP && lb.spec.ipPool == "" && pools.Err?
    ensures AllocateOutcome(env, pools, lb) == (Err(SelectFailed(lb.namespace, lb.name)), [])
  {
  }

  /** The status copy `OnChange` works on: the recorded address is replaced
      only when `allocateIP` produced one. */
  function WithAllocation(lb: LoadBalancer, allocation: Option<AllocatedAddress>): (r: LoadBalancer)
    ensures allocation.None? ==> r == lb
    ensures allocation.Some? ==> r.status.allocatedAddress == allocation.value
    ensures r.(status := lb.status) == lb
    ensures r.status.address == lb.status.address && r.status.ready == lb.status.ready
  {
    if allocation.Some? then lb.(status := lb.status.(allocatedAddress := allocation.value)) else lb
  }

  /** The Ready condition set true with an empty message, with the given address. */
  function MarkedReady(lb: LoadBalancer, address: string): (r: LoadBalancer)
    ensures r.status.ready == Some(Condition(true, ""))
    ensures r.status.address == address
    ensures r.status.allocatedAddress == lb.status.allocatedAddress
    ensures r.(status := lb.status) == lb
  {
    lb.(status := lb.status.(address := address, ready := Some(Condition(true, ""))))
  }

  class AllocatorMap {
    const env: AllocatorEnv
    /** Every allocator call made so far, in order. */
    var calls: seq<AllocatorCall>

    constructor (env: AllocatorEnv)
      ensures this.env == env && calls == []
    {
      this.env := env;
      calls := [];
    }

    predicate Has(pool: string)
    {
      pool in env.present
    }

    method Get(pool: string, key: string) returns (r: Result<IPConfig, string>)
      requires Has(pool)
      modifies this
      ensures r == env.grant(pool, key)
      ensures calls == old(calls) + [Request(pool, key)]
    {
      r := env.grant(pool, key);
      calls := calls + [Request(pool, key)];
    }

    method Release(pool: string, key: string) returns (err: Option<string>)
      requires Has(pool)
      modifies this
      ensures err == env.release(pool, key)
      ensures calls == old(calls) + [AllocatorCall.Release(pool, key)]
    {
      err := env.release(pool, key);
      calls := calls + [AllocatorCall.Release(pool, key)];
    }
  }

  class Handler {
    const lbClient: Store<(string, string), LoadBalancer>
    /** What the IP-pool cache lists. */
    const ipPools: Result<seq<IPPool>, string>
    const allocatorMap: AllocatorMap
    /** How the load-balancer manager's ensure and delete answer, and what the
        wait for the service's external IP yields. */
    const ensureOutcome: Option<string>
    const deleteOutcome: Option<string>
    const waitOutcome: Result<string, string>
    /** Every call into the load-balancer manager so far, in order. */
    var managerCalls: seq<ManagerCall>

    constructor (lbClient: Store<(string, string), LoadBalancer>, ipPools: Result<seq<IPPool>, string>,
                 allocatorMap: AllocatorMap, ensureOutcome: Option<string>, deleteOutcome: Option<string>,
                 waitOutcome: Result<string, string>)
      ensures this.lbClient == lbClient && this.ipPools == ipPools && this.allocatorMap == allocatorMap
      ensures this.ensureOutcome == ensureOutcome && this.deleteOutcome == deleteOutcome
      ensures this.waitOutcome == waitOutcome && managerCalls == []
    {
      this.lbClient := lbClient;
      this.ipPools := ipPools;
      this.allocatorMap := allocatorMap;
      this.ensureOutcome := ensureOutcome;
      this.deleteOutcome := deleteOutcome;
      this.waitOutcome := waitOutcome;
      managerCalls := [];
    }

    method RequestIP(lb: LoadBalancer, pool: string) returns (r: Result<Option<AllocatedAddress>, AllocError>)
      modifies allocatorMap
      ensures r == RequestOutcome(allocatorMap.env, lb, pool).0
      ensures allocatorMap.calls == old(allocatorMap.calls) + RequestOutcome(allocatorMap.env, lb, pool).1
    {
      if !allocatorMap.Has(pool) {
        assert allocatorMap.calls + [] == allocatorMap.calls;
        return Err(NoAllocator(pool));
      }
      var ipConfig := allocatorMap.Get(pool, lb.namespace + "/" + lb.name);
      if ipConfig.Err? {
        return Err(AllocatorFailed(ipConfig.error));
      }
      return Ok(Some(AllocatedAddress(pool, ipConfig.value.ip, ipConfig.value.mask, ipConfig.value.gateway)));
    }

    method ReleaseIP(lb: LoadBalancer) returns (err: Option<AllocError>)
      modifies allocatorMap
      ensures err == ReleaseOutcome(allocatorMap.env, lb).0
      ensures allocatorMap.calls == old(allocatorMap.calls) + ReleaseOutcome(allocatorMap.env, lb).1
    {
      var pool := lb.status.allocatedAddress.ipPool;
      if !allocatorMap.Has(pool) {
        assert allocatorMap.calls + [] == allocatorMap.calls;
        return Some(NoAllocator(pool));
      }
      var released := allocatorMap.Release(pool, lb.namespace + "/" + lb.name);
      if released.Some? {
        return Some(AllocatorFailed(released.value));
      }
      return None;
    }

    method SelectIPPool(lb: LoadBalancer) returns (r: Result<string, string>)
      ensures ipPools.Err? ==> r == Err(ipPools.error)
      ensures ipPools.Ok? ==> r == Ok(SelectedPool(ipPools.value, RequirementOf(lb)).name)
    {
      var requirement := Requirement(Lookup(lb.annotations, AnnotationKeyNetwork), Lookup(lb.annotations, AnnotationKeyProject),
                                     Lookup(lb.annotations, AnnotationKeyNamespace), Lookup(lb.annotations, AnnotationKeyCluster));
      var pool := Select(ipPools, requirement);
      if pool.Err? {
        return Err(pool.error);
      }
      return Ok(pool.value.name);
    }

    method AllocateIP(lb: LoadBalancer) returns (r: Result<Option<AllocatedAddress>, AllocError>)
      modifies allocatorMap
      ensures r == AllocateOutcome(allocatorMap.env, ipPools, lb).0
      ensures allocatorMap.calls == old(allocatorMap.calls) + AllocateOutcome(allocatorMap.env, ipPools, lb).1
    {
      var recorded := lb.status.allocatedAddress;
      if lb.spec.ipam == DHCP {
        if recorded.ipPool != "" {
          var err := ReleaseIP(lb);
          if err.Some? {
            return Err(err.value);
          }
        }
        if recorded.ip != Address4AskDHCP {
          return Ok(Some(AllocatedAddress("", Address4AskDHCP, "", "")));
        }
        return Ok(None);
      }

      var pool := lb.spec.ipPool;
      if pool == "" {
        var selected := SelectIPPool(lb);
        if selected.Err? {
          return Err(SelectFailed(lb.namespace, lb.name));
        }
        pool := selected.value;
      }
      assert TargetPool(ipPools, lb) == Ok(pool);
      ghost var before := allocatorMap.calls;
      if recorded.ipPool != "" && recorded.ipPool != pool {
        var err := ReleaseIP(lb);
        if err.Some? {
          return Err(err.value);
        }
      }
      if recorded.ipPool != pool {
        ghost var released := allocatorMap.calls;
        r := RequestIP(lb, pool);
        assert allocatorMap.calls == before + (released[|before|..] + RequestOutcome(allocatorMap.env, lb, pool).1);
        return r;
      }
      return Ok(None);
    }

    /** `OnRemove`: a missing object is a no-op; a pool-mode load balancer with
        a recorded pool releases its address first; a VM load balancer is then
        deleted through the manager. */
    method OnRemove(lb: Option<LoadBalancer>) returns (r: Result<Option<LoadBalancer>, HandlerError>)
      modifies allocatorMap, this
      ensures lb.None? ==> r == Ok(None) && allocatorMap.calls == old(allocatorMap.calls) && managerCalls == old(managerCalls)
      ensures lb.Some? ==>
                var l := lb.value;
                var releases := l.spec.ipam == Pool && l.status.allocatedAddress.ipPool != "";
                var releaseErr := if releases then ReleaseOutcome(allocatorMap.env, l).0 else None;
                var releaseCalls := if releases then ReleaseOutcome(allocatorMap.env, l).1 else [];
                && allocatorMap.calls == old(allocatorMap.calls) + releaseCalls
                && (releaseErr.Some? ==> r == Err(AllocationFailed(releaseErr.value)) && managerCalls == old(managerCalls))
                && (releaseErr.None? ==>
                      && managerCalls == old(managerCalls) + (if l.spec.workloadType == VM then [DeleteCall(l)] else [])
                      && r == (if l.spec.workloadType == VM && deleteOutcome.Some? then Err(ManagerFailed(deleteOutcome.value))
                               else Ok(Some(l))))
    {
      if lb.None? {
        return Ok(None);
      }
      var l := lb.value;
      if l.spec.ipam == Pool && l.status.allocatedAddress.ipPool != "" {
        var err := ReleaseIP(l);
        if err.Some? {
          return Err(AllocationFailed(err.value));
        }
      }
      if l.spec.workloadType == VM {
        managerCalls := managerCalls + [DeleteCall(l)];
        if deleteOutcome.Some? {
          return Err(ManagerFailed(deleteOutcome.value));
        }
      }
      return Ok(Some(l));
    }

    /** `OnChange` without the wait loop's timing: a missing or deleting object
        is left alone; otherwise the allocation is refreshed, a VM load balancer
        is ensured through the manager and takes the service's external IP, and
        the copy, marked Ready with an empty message, is written back. */
    method OnChange(lb: Option<LoadBalancer>) returns (r: Result<Option<LoadBalancer>, HandlerError>)
      modifies allocatorMap, this, lbClient
      ensures lb.None? || lb.value.deleting ==>
                && r == Ok(None) && allocatorMap.calls == old(allocatorMap.calls)
                && managerCalls == old(managerCalls) && lbClient.objects == old(lbClient.objects)
      ensures lb.Some? && !lb.value.deleting ==>
                var l := lb.value;
                var allocation := AllocateOutcome(allocatorMap.env, ipPools, l).0;
                var allocatorCalls := AllocateOutcome(allocatorMap.env, ipPools, l).1;
                && allocatorMap.calls == old(allocatorMap.calls) + allocatorCalls
                && (allocation.Err? ==>
                      && r == Err(AllocationFailed(allocation.error))
                      && managerCalls == old(managerCalls) && lbClient.objects == old(lbClient.objects))
                && (allocation.Ok? ==>
                      var copy := WithAllocation(l, allocation.value);
                      var isVM := l.spec.workloadType == VM;
                      && managerCalls == old(managerCalls) + (if isVM then [EnsureCall(copy)] else [])
                      && (isVM && ensureOutcome.Some? ==>
                            r == Err(ManagerFailed(ensureOutcome.value)) && lbClient.objects == old(lbClient.objects))
                      && (isVM && ensureOutcome.None? && waitOutcome.Err? ==>
                            r == Err(WaitFailed(waitOutcome.error)) && lbClient.objects == old(lbClient.objects))
                      && (!isVM || (ensureOutcome.None? && waitOutcome.Ok?) ==>
                            var ready := MarkedReady(copy, if isVM then waitOutcome.value else copy.status.address);
                            var key := (l.namespace, l.name);
                            && (old(lbClient.fault).Some? ==>
                                  r == Err(UpdateFailed(Failure(old(lbClient.fault).value))) && lbClient.objects == old(lbClient.objects))
                            && (old(lbClient.fault).None? && key !in old(lbClient.objects) ==>
                                  r == Err(UpdateFailed(NotFound)) && lbClient.objects == old(lbClient.objects))
                            && (old(lbClient.fault).None? && key in old(lbClient.objects) ==>
                                  r == Ok(Some(ready)) && lbClient.objects == old(lbClient.objects)[key := ready])))
    {
      if lb.None? || lb.value.deleting {
        return Ok(None);
      }
      var l := lb.value;
      var recorded := AllocateIP(l);
      if recorded.Err? {
        return Err(AllocationFailed(recorded.error));
      }
      var lbCopy := l;
      if recorded.value.Some? {
        lbCopy := lbCopy.(status := lbCopy.status.(allocatedAddress := recorded.value.value));
      }
      if l.spec.workloadType == VM {
        managerCalls := managerCalls + [EnsureCall(lbCopy)];
        if ensureOutcome.Some? {
          return Err(ManagerFailed(ensureOutcome.value));
        }
        if waitOutcome.Err? {
          return Err(WaitFailed(waitOutcome.error));
        }
        lbCopy := lbCopy.(status := lbCopy.status.(address := waitOutcome.value));
      }
      lbCopy := lbCopy.(status := lbCopy.status.(ready := Some(Condition(true, ""))));
      var updated := lbClient.Update((l.namespace, l.name), lbCopy);
      if updated.Err? {
        return Err(UpdateFailed(updated.error));
      }
      return Ok(Some(updated.value));
    }
  }
}
