/** The topology re-sync controller (`Register`, `OnVmiChanged`, `reSync`,
    `compareTopology`, `isMigrationCompleted` in
    pkg/controller/virtualmachineinstance/controller.go): after a guest node's VM
    has migrated, a node whose region or zone labels disagree with the VMI's
    annotations is tainted so that the cloud controller re-initialises it. */
module TopologyResync {
  import opened Wrappers
  import opened Kube

  /** The label naming what created a VMI, and the value the node driver uses. */
  const LabelKeyVirtualMachineCreator := "harvesterhci.io/creator"
  const VirtualMachineCreatorNodeDriver := "docker-machine-driver-harvester"

  /** The taint the cloud controller manager removes once it has initialised a node. */
  const TaintExternalCloudProvider := "node.cloudprovider.kubernetes.io/uninitialized"
  const TaintEffectPreferNoSchedule := "PreferNoSchedule"

  datatype Taint = Taint(key: string, value: string, effect: string)

  const ResyncTaint := Taint(TaintExternalCloudProvider, "true", TaintEffectPreferNoSchedule)

  datatype TaintCall = AddOrUpdateTaint(nodeName: string, taint: Taint)

  datatype ResyncError = NodeLookupFailed(storeError: StoreError) | TaintFailed(message: string)

  /** Region and zone agree, a missing key reading as the empty value. */
  predicate CompareTopology(a: map<string, string>, b: map<string, string>): (same: bool)
    ensures same <==> Lookup(a, LabelTopologyRegion) == Lookup(b, LabelTopologyRegion)
                      && Lookup(a, LabelTopologyZone) == Lookup(b, LabelTopologyZone)
    ensures a == b ==> same
    ensures LabelTopologyRegion in a && LabelTopologyRegion in b && a[LabelTopologyRegion] != b[LabelTopologyRegion] ==> !same
    ensures LabelTopologyZone in a && LabelTopologyZone in b && a[LabelTopologyZone] != b[LabelTopologyZone] ==> !same
  {
    Lookup(a, LabelTopologyRegion) == Lookup(b, LabelTopologyRegion)
      && Lookup(a, LabelTopologyZone) == Lookup(b, LabelTopologyZone)
  }

  /** Agreement of topology is an equivalence on label maps. */
  lemma CompareTopologyEquivalence(a: map<string, string>, b: map<string, string>, c: map<string, string>)
    ensures CompareTopology(a, a)
    ensures CompareTopology(a, b) ==> CompareTopology(b, a)
    ensures CompareTopology(a, b) && CompareTopology(b, c) ==> CompareTopology(a, c)
  {
  }

  /** A map without region and zone agrees exactly with maps whose region and zone are empty or missing. */
  lemma MissingTopologyReadsEmpty(a: map<string, string>, b: map<string, string>)
    requires LabelTopologyRegion !in a && LabelTopologyZone !in a
    ensures CompareTopology(a, b) <==>
              (LabelTopologyRegion !in b || b[LabelTopologyRegion] == "")
              && (LabelTopologyZone !in b || b[LabelTopologyZone] == "")
  {
  }

  /** Only label values matter: entries other than region and zone never change the answer. */
  lemma CompareTopologyIgnoresOtherKeys(a: map<string, string>, b: map<string, string>, key: string, value: string)
    requires key != LabelTopologyRegion && key != LabelTopologyZone
    ensures CompareTopology(a[key := value], b) == CompareTopology(a, b)
  {
  }

  predicate IsMigrationCompleted(vmi: Vmi)
  {
    vmi.migrationState.None? || vmi.migrationState.value.completed
  }

  /** A VMI whose migration is under way is skipped, whatever else holds of it. */
  lemma MidMigrationSkipped(vmi: Vmi, namespace: string)
    requires vmi.migrationState.Some? && !vmi.migrationState.value.completed
    ensures !IsMigrationCompleted(vmi)
    ensures SkipsAtGuard(Some(vmi), namespace)
  {
  }

  /** The first guard of `OnVmiChanged`: the VMI is absent, deleting, has no
      annotations, lies outside the handler's namespace or is mid-migration. */
  predicate SkipsAtGuard(vmi: Option<Vmi>, namespace: string)
  {
    vmi.None? || vmi.value.deleting || vmi.value.annotations.None?
      || vmi.value.namespace != namespace || !IsMigrationCompleted(vmi.value)
  }

  predicate CreatedByNodeDriver(vmi: Vmi)
  {
    Lookup(vmi.labels, LabelKeyVirtualMachineCreator) == VirtualMachineCreatorNodeDriver
  }

  /** As written, the handler's namespace is Go's zero value, and every VMI
      that has a namespace is skipped at the guard. */
  lemma AsWrittenSkipsEveryNamespacedVmi(vmi: Vmi)
    requires vmi.namespace != ""
    ensures SkipsAtGuard(Some(vmi), "")
  {
  }

  /** With the namespace stored, a VMI of that namespace that is live, annotated
      and not migrating passes the guard. */
  lemma CorrectedProcessesOwnNamespace(namespace: string, vmi: Vmi)
    requires !vmi.deleting && vmi.annotations.Some? && IsMigrationCompleted(vmi)
    requires vmi.namespace == namespace
    ensures !SkipsAtGuard(Some(vmi), namespace)
  {
  }

  class Handler {
    const namespace: string
    const nodeCache: Store<string, Node>
    /** Guest hostname to VM name, shared with the instance queries. */
    var nodeToVMName: map<string, string>
    /** Every taint write so far, in order, and how such a write answers. */
    var taintCalls: seq<TaintCall>
    const taintOutcome: Option<string>

    /** `Register` with its namespace stored, as the guard evidently intends. */
    constructor (nodeCache: Store<string, Node>, nodeToVMName: map<string, string>, taintOutcome: Option<string>, namespace: string)
      ensures this.namespace == namespace && this.nodeCache == nodeCache
      ensures this.nodeToVMName == nodeToVMName && this.taintOutcome == taintOutcome && taintCalls == []
    {
      this.namespace := namespace;
      this.nodeCache := nodeCache;
      this.nodeToVMName := nodeToVMName;
      this.taintOutcome := taintOutcome;
      taintCalls := [];
    }

    /** `Register` as written: the namespace argument is dropped. */
    static method RegisterAsWritten(nodeCache: Store<string, Node>, nodeToVMName: map<string, string>,
                                    taintOutcome: Option<string>, namespace: string) returns (h: Handler)
      ensures fresh(h)
      ensures h.namespace == "" && h.taintCalls == []
      ensures h.nodeCache == nodeCache && h.nodeToVMName == nodeToVMName && h.taintOutcome == taintOutcome
    {
      h := new Handler(nodeCache, nodeToVMName, taintOutcome, "");
    }

    /** `reSync`: taint the node named after the VMI. */
    method ReSync(vmi: Vmi) returns (err: Option<ResyncError>)
      modifies this
      ensures taintCalls == old(taintCalls) + [AddOrUpdateTaint(vmi.name, ResyncTaint)]
      ensures err == if taintOutcome.Some? then Some(TaintFailed(taintOutcome.value)) else None
      ensures nodeToVMName == old(nodeToVMName)
    {
      taintCalls := taintCalls + [AddOrUpdateTaint(vmi.name, Taint(TaintExternalCloudProvider, "true", TaintEffectPreferNoSchedule))];
      if taintOutcome.Some? {
        return Some(TaintFailed(taintOutcome.value));
      }
      return None;
    }

    /** `OnVmiChanged`, given what the guest agent reports (a hostname or an
        error). The VMI is always returned. Skipped VMIs cause nothing; otherwise
        a reported hostname is recorded against the VM and names the node, else
        the VMI's name does; a missing node ends quietly, another lookup error
        is returned; a node whose topology disagrees is tainted. */
    method OnVmiChanged(vmi: Option<Vmi>, guestHostname: Result<string, string>) returns (r: Option<Vmi>, err: Option<ResyncError>)
      modifies this
      ensures r == vmi
      ensures SkipsAtGuard(vmi, namespace) || !CreatedByNodeDriver(vmi.value) ==>
                err.None? && nodeToVMName == old(nodeToVMName) && taintCalls == old(taintCalls)
      ensures !SkipsAtGuard(vmi, namespace) && CreatedByNodeDriver(vmi.value) ==>
                var v := vmi.value;
                var nodeName := if guestHostname.Ok? then guestHostname.value else v.name;
                var node := nodeCache.Get(nodeName);
                && nodeToVMName == (if guestHostname.Ok? then old(nodeToVMName)[guestHostname.value := v.name] else old(nodeToVMName))
                && (node.Err? && node.error != NotFound ==> err == Some(NodeLookupFailed(node.error)) && taintCalls == old(taintCalls))
                && (node == Err(NotFound) ==> err.None? && taintCalls == old(taintCalls))
                && (node.Ok? && CompareTopology(AnnotationsOf(v), node.value.labels) ==> err.None? && taintCalls == old(taintCalls))
                && (node.Ok? && !CompareTopology(AnnotationsOf(v), node.value.labels) ==>
                      && taintCalls == old(taintCalls) + [AddOrUpdateTaint(v.name, ResyncTaint)]
                      && err == (if taintOutcome.Some? then Some(TaintFailed(taintOutcome.value)) else None))
    {
      r := vmi;
      if vmi.None? || vmi.value.deleting || vmi.value.annotations.None? || vmi.value.namespace != namespace
         || !IsMigrationCompleted(vmi.value) {
        return r, None;
      }
      var v := vmi.value;
      if Lookup(v.labels, LabelKeyVirtualMachineCreator) != VirtualMachineCreatorNodeDriver {
        return r, None;
      }

      var nodeName := v.name;
      if guestHostname.Ok? {
        nodeName := guestHostname.value;
        nodeToVMName := nodeToVMName[nodeName := v.name];
      }

      var node := nodeCache.Get(nodeName);
      if node.Err? {
        if node.error != NotFound {
          return r, Some(NodeLookupFailed(node.error));
        }
        return r, None;
      }

      if !CompareTopology(AnnotationsOf(v), node.value.labels) {
        err := ReSync(v);
        return r, err;
      }
      return r, None;
    }
  }

  /** A node-driver VMI of the registered namespace, live, annotated and done
      migrating, whose node exists and disagrees on topology: the case in which
      a re-sync is due. */
  predicate ReSyncDue(nodeCache: Store<string, Node>, namespace: string, vmi: Vmi)
    reads nodeCache
  {
    && vmi.namespace == namespace && namespace != ""
    && !vmi.deleting && vmi.annotations.Some? && IsMigrationCompleted(vmi) && CreatedByNodeDriver(vmi)
    && nodeCache.fault.None? && vmi.name in nodeCache.objects
    && !CompareTopology(AnnotationsOf(vmi), nodeCache.objects[vmi.name].labels)
  }

  /** `Register` as written, then the change of a VMI for which a re-sync is
      due: the handler returns at its guard, and the node is never tainted. */
  method AsWrittenRegisterMissesReSync(nodeCache: Store<string, Node>, taintOutcome: Option<string>,
                                       namespace: string, vmi: Vmi, guestHostname: Result<string, string>)
    returns (h: Handler, err: Option<ResyncError>)
    requires ReSyncDue(nodeCache, namespace, vmi)
    ensures err.None? && h.taintCalls == [] && h.nodeToVMName == map[]
  {
    h := Handler.RegisterAsWritten(nodeCache, map[], taintOutcome, namespace);
    var r;
    r, err := h.OnVmiChanged(Some(vmi), guestHostname);
  }

  /** With the namespace stored, the same change taints the VMI's node once. */
  method CorrectedRegisterReSyncs(nodeCache: Store<string, Node>, taintOutcome: Option<string>,
                                  namespace: string, vmi: Vmi)
    returns (h: Handler, err: Option<ResyncError>)
    requires ReSyncDue(nodeCache, namespace, vmi)
    ensures h.taintCalls == [AddOrUpdateTaint(vmi.name, ResyncTaint)]
    ensures err == if taintOutcome.Some? then Some(TaintFailed(taintOutcome.value)) else None
  {
    h := new Handler(nodeCache, map[], taintOutcome, namespace);
    var r;
    r, err := h.OnVmiChanged(Some(vmi), Err("no guest agent"));
  }
}
