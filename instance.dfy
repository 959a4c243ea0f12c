/** Node metadata of the cloud controller manager: the addresses of a guest
    node and the instance queries (`getNodeAddresses`, `getAdditionalInternalIPs`,
    `InstanceExists`, `InstanceShutdown`, `InstanceMetadata`, `getVM` in
    pkg/cloud-controller-manager/instance.go). */
module Instances {
  import opened Wrappers
  import opened Kube

  const ProviderName := "harvester"
  /** The node annotation holding the node IP the kubelet was given. */
  const AnnotationAlphaProvidedIPAddr := "alpha.kubernetes.io/provided-node-ip"
  /** The node annotation holding a JSON list of further internal IPs. */
  const KeyAdditionalInternalIPs := "cloudprovider.harvesterhci.io/additional-internal-ips"

  /** Library parsers whose workings are not modelled: whether
      `net.ParseIP(s).To4() != nil`, and `json.Unmarshal` of a `[]string`
      (`None` for a decoding error). */
  datatype Parsers = Parsers(isIPv4: string -> bool, decodeStringList: string -> Option<seq<string>>)

  /** `getAdditionalInternalIPs`: `(nil, nil)` without the annotation, an error
      when it does not decode, else the decoded list. */
  function GetAdditionalInternalIPs(node: Node, parsers: Parsers): (r: Result<Option<seq<string>>, string>)
    ensures r == Ok(None) <==> KeyAdditionalInternalIPs !in node.annotations
    ensures r.Err? <==> KeyAdditionalInternalIPs in node.annotations
                        && parsers.decodeStringList(node.annotations[KeyAdditionalInternalIPs]).None?
    ensures r.Err? ==> r.error == node.annotations[KeyAdditionalInternalIPs]
    ensures r.Ok? && r.value.Some? ==>
              KeyAdditionalInternalIPs in node.annotations
              && parsers.decodeStringList(node.annotations[KeyAdditionalInternalIPs]) == r.value
  {
    if KeyAdditionalInternalIPs !in node.annotations then Ok(None)
    else
      var text := node.annotations[KeyAdditionalInternalIPs];
      match parsers.decodeStringList(text)
      case None => Err(text)
      case Some(ips) => Ok(Some(ips))
  }

  /** An IP counts as internal when it is the provided node IP or listed as additionally internal. */
  predicate IsInternal(ip: string, providedNodeIP: string, additional: Option<seq<string>>)
  {
    ip == providedNodeIP || (additional.Some? && ip in additional.value)
  }

  function Classify(ip: string, providedNodeIP: string, additional: Option<seq<string>>): NodeAddressType
  {
    if IsInternal(ip, providedNodeIP, additional) then NodeInternalIP else NodeExternalIP
  }

  predicate Qualifies(network: string, iface: VmiInterface, parsers: Parsers)
  {
    network == iface.name && parsers.isIPv4(iface.ip)
  }

  /** The entries one spec network contributes, in interface order. */
  function NetworkAddresses(network: string, ifaces: seq<VmiInterface>, providedNodeIP: string,
                            additional: Option<seq<string>>, parsers: Parsers): seq<NodeAddress>
  {
    if |ifaces| == 0 then []
    else
      var iface := ifaces[|ifaces| - 1];
      NetworkAddresses(network, ifaces[..|ifaces| - 1], providedNodeIP, additional, parsers)
        + (if Qualifies(network, iface, parsers)
           then [NodeAddress(Classify(iface.ip, providedNodeIP, additional), iface.ip)]
           else [])
  }

  /** The entries of all spec networks, network by network. */
  function InterfaceAddresses(networks: seq<string>, ifaces: seq<VmiInterface>, providedNodeIP: string,
                              additional: Option<seq<string>>, parsers: Parsers): seq<NodeAddress>
  {
    if |networks| == 0 then []
    else
      InterfaceAddresses(networks[..|networks| - 1], ifaces, providedNodeIP, additional, parsers)
        + NetworkAddresses(networks[|networks| - 1], ifaces, providedNodeIP, additional, parsers)
  }

  /** The list `getAdditionalInternalIPs` yields to `getNodeAddresses`: a
      decoding error is only logged, and leaves the list nil. */
  function AdditionalFor(node: Node, parsers: Parsers): Option<seq<string>>
  {
    match GetAdditionalInternalIPs(node, parsers)
    case Ok(ips) => ips
    case Err(_) => None
  }

  /** What `getNodeAddresses` returns: nil without the provided-node-ip annotation;
      otherwise the interface entries followed by the node's HostName entry. */
  function NodeAddressesOf(node: Node, vmi: Vmi, parsers: Parsers): (r: Option<seq<NodeAddress>>)
    ensures r.None? <==> AnnotationAlphaProvidedIPAddr !in node.annotations
    ensures r.Some? ==> |r.value| >= 1 && r.value[|r.value| - 1] == NodeAddress(NodeHostName, node.name)
  {
    if AnnotationAlphaProvidedIPAddr !in node.annotations then None
    else
      Some(InterfaceAddresses(vmi.networks, vmi.interfaces, node.annotations[AnnotationAlphaProvidedIPAddr],
                              AdditionalFor(node, parsers), parsers)
           + [NodeAddress(NodeHostName, node.name)])
  }

  method GetNodeAddresses(node: Node, vmi: Vmi, parsers: Parsers) returns (r: Option<seq<NodeAddress>>)
    ensures r == NodeAddressesOf(node, vmi, parsers)
  {
    if AnnotationAlphaProvidedIPAddr !in node.annotations {
      return None;
    }
    var providedNodeIP := node.annotations[AnnotationAlphaProvidedIPAddr];
    var aiIPs: Option<seq<string>> := None;
    var decoded := GetAdditionalInternalIPs(node, parsers);
    if decoded.Ok? {
      aiIPs := decoded.value;
    }

    var nodeAddresses: seq<NodeAddress> := [];
    var networks := vmi.networks;
    var ifaces := vmi.interfaces;
    assert ifaces[..|ifaces|] == ifaces;
    for i := 0 to |networks|
      invariant nodeAddresses == InterfaceAddresses(networks[..i], ifaces, providedNodeIP, aiIPs, parsers)
    {
      InterfaceAddressesStep(networks, i, ifaces, providedNodeIP, aiIPs, parsers);
      for j := 0 to |ifaces|
        invariant nodeAddresses == InterfaceAddresses(networks[..i], ifaces, providedNodeIP, aiIPs, parsers)
                                   + NetworkAddresses(networks[i], ifaces[..j], providedNodeIP, aiIPs, parsers)
      {
        NetworkAddressesStep(networks[i], ifaces, j, providedNodeIP, aiIPs, parsers);
        if networks[i] == ifaces[j].name {
          if parsers.isIPv4(ifaces[j].ip) {
            var nodeAddr := NodeAddress(NodeExternalIP, ifaces[j].ip);
            if ifaces[j].ip == providedNodeIP || (aiIPs.Some? && ifaces[j].ip in aiIPs.value) {
              nodeAddr := nodeAddr.(kind := NodeInternalIP);
            }
            assert nodeAddr == NodeAddress(Classify(ifaces[j].ip, providedNodeIP, aiIPs), ifaces[j].ip);
            AppendAssociates(InterfaceAddresses(networks[..i], ifaces, providedNodeIP, aiIPs, parsers),
                             NetworkAddresses(networks[i], ifaces[..j], providedNodeIP, aiIPs, parsers), [nodeAddr]);
            nodeAddresses := nodeAddresses + [nodeAddr];
          }
        }
      }
    }
    assert networks[..|networks|] == networks;
    nodeAddresses := nodeAddresses + [NodeAddress(NodeHostName, node.name)];
    return Some(nodeAddresses);
  }

  lemma AppendAssociates<T>(a: seq<T>, b: seq<T>, c: seq<T>)
    ensures (a + b) + c == a + (b + c)
  {
  }

  /** One more interface adds its entry, if it qualifies, at the end. */
  lemma NetworkAddressesStep(network: string, ifaces: seq<VmiInterface>, j: nat, providedNodeIP: string,
                             additional: Option<seq<string>>, parsers: Parsers)
    requires j < |ifaces|
    ensures NetworkAddresses(network, ifaces[..j + 1], providedNodeIP, additional, parsers)
         == NetworkAddresses(network, ifaces[..j], providedNodeIP, additional, parsers)
            + (if Qualifies(network, ifaces[j], parsers)
               then [NodeAddress(Classify(ifaces[j].ip, providedNodeIP, additional), ifaces[j].ip)]
               else [])
  {
    assert ifaces[..j + 1][..j] == ifaces[..j];
  }

  /** One more spec network adds its entries at the end. */
  lemma InterfaceAddressesStep(networks: seq<string>, i: nat, ifaces: seq<VmiInterface>, providedNodeIP: string,
                               additional: Option<seq<string>>, parsers: Parsers)
    requires i < |networks|
    ensures InterfaceAddresses(networks[..i + 1], ifaces, providedNodeIP, additional, parsers)
         == InterfaceAddresses(networks[..i], ifaces, providedNodeIP, additional, parsers)
            + NetworkAddresses(networks[i], ifaces, providedNodeIP, additional, parsers)
  {
    assert networks[..i + 1][..i] == networks[..i];
  }

  /** One network's entries are exactly the qualifying interfaces, each classified. */
  lemma {:induction false} NetworkAddressesMembership(network: string, ifaces: seq<VmiInterface>, providedNodeIP: string,
                                                      additional: Option<seq<string>>, parsers: Parsers, e: NodeAddress)
    ensures e in NetworkAddresses(network, ifaces, providedNodeIP, additional, parsers)
        <==> exists j :: 0 <= j < |ifaces| && Qualifies(network, ifaces[j], parsers)
                         && e == NodeAddress(Classify(ifaces[j].ip, providedNodeIP, additional), ifaces[j].ip)
  {
    if |ifaces| > 0 {
      var init := ifaces[..|ifaces| - 1];
      NetworkAddressesMembership(network, init, providedNodeIP, additional, parsers, e);
      if e in NetworkAddresses(network, init, providedNodeIP, additional, parsers) {
        var j :| 0 <= j < |init| && Qualifies(network, init[j], parsers)
                 && e == NodeAddress(Classify(init[j].ip, providedNodeIP, additional), init[j].ip);
        assert ifaces[j] == init[j];
      }
      if exists j :: 0 <= j < |ifaces| && Qualifies(network, ifaces[j], parsers)
                     && e == NodeAddress(Classify(ifaces[j].ip, providedNodeIP, additional), ifaces[j].ip) {
        var j :| 0 <= j < |ifaces| && Qualifies(network, ifaces[j], parsers)
                 && e == NodeAddress(Classify(ifaces[j].ip, providedNodeIP, additional), ifaces[j].ip);
        if j < |init| {
          assert init[j] == ifaces[j];
        }
      }
    }
  }

  /** The interface entries are exactly the (spec network, interface) pairs whose
      names agree and whose IP is IPv4, each classified Internal or External. */
  lemma {:induction false} InterfaceAddressesMembership(networks: seq<string>, ifaces: seq<VmiInterface>, providedNodeIP: string,
                                                        additional: Option<seq<string>>, parsers: Parsers, e: NodeAddress)
    ensures e in InterfaceAddresses(networks, ifaces, providedNodeIP, additional, parsers)
        <==> exists i, j :: 0 <= i < |networks| && 0 <= j < |ifaces| && Qualifies(networks[i], ifaces[j], parsers)
                            && e == NodeAddress(Classify(ifaces[j].ip, providedNodeIP, additional), ifaces[j].ip)
  {
    if |networks| > 0 {
      var init := networks[..|networks| - 1];
      var last := networks[|networks| - 1];
      InterfaceAddressesMembership(init, ifaces, providedNodeIP, additional, parsers, e);
      NetworkAddressesMembership(last, ifaces, providedNodeIP, additional, parsers, e);
      if e in InterfaceAddresses(init, ifaces, providedNodeIP, additional, parsers) {
        var i, j :| 0 <= i < |init| && 0 <= j < |ifaces| && Qualifies(init[i], ifaces[j], parsers)
                    && e == NodeAddress(Classify(ifaces[j].ip, providedNodeIP, additional), ifaces[j].ip);
        assert networks[i] == init[i];
      }
      if exists i, j :: 0 <= i < |networks| && 0 <= j < |ifaces| && Qualifies(networks[i], ifaces[j], parsers)
                        && e == NodeAddress(Classify(ifaces[j].ip, providedNodeIP, additional), ifaces[j].ip) {
        var i, j :| 0 <= i < |networks| && 0 <= j < |ifaces| && Qualifies(networks[i], ifaces[j], parsers)
                    && e == NodeAddress(Classify(ifaces[j].ip, providedNodeIP, additional), ifaces[j].ip);
        if i < |init| {
          assert init[i] == networks[i];
        }
      }
    }
  }

  /** Every entry but the last comes from a qualifying interface and is
      InternalIP exactly when its IP is the provided node IP or an additional
      internal IP, ExternalIP otherwise. */
  lemma NodeAddressEntriesSound(node: Node, vmi: Vmi, parsers: Parsers)
    requires AnnotationAlphaProvidedIPAddr in node.annotations
    ensures var r := NodeAddressesOf(node, vmi, parsers).value;
            var provided := node.annotations[AnnotationAlphaProvidedIPAddr];
            var additional := AdditionalFor(node, parsers);
            forall k :: 0 <= k < |r| - 1 ==>
              && (exists i, j :: 0 <= i < |vmi.networks| && 0 <= j < |vmi.interfaces|
                                 && Qualifies(vmi.networks[i], vmi.interfaces[j], parsers) && r[k].address == vmi.interfaces[j].ip)
              && (r[k].kind == NodeInternalIP <==> IsInternal(r[k].address, provided, additional))
              && (r[k].kind == NodeExternalIP <==> !IsInternal(r[k].address, provided, additional))
  {
    var r := NodeAddressesOf(node, vmi, parsers).value;
    var provided := node.annotations[AnnotationAlphaProvidedIPAddr];
    var additional := AdditionalFor(node, parsers);
    var entries := InterfaceAddresses(vmi.networks, vmi.interfaces, provided, additional, parsers);
    assert r == entries + [NodeAddress(NodeHostName, node.name)];
    forall k | 0 <= k < |r| - 1
      ensures exists i, j :: 0 <= i < |vmi.networks| && 0 <= j < |vmi.interfaces|
                             && Qualifies(vmi.networks[i], vmi.interfaces[j], parsers) && r[k].address == vmi.interfaces[j].ip
      ensures r[k].kind == NodeInternalIP <==> IsInternal(r[k].address, provided, additional)
      ensures r[k].kind == NodeExternalIP <==> !IsInternal(r[k].address, provided, additional)
    {
      assert r[k] == entries[k];
      InterfaceAddressesMembership(vmi.networks, vmi.interfaces, provided, additional, parsers, r[k]);
      var i, j :| 0 <= i < |vmi.networks| && 0 <= j < |vmi.interfaces| && Qualifies(vmi.networks[i], vmi.interfaces[j], parsers)
                  && r[k] == NodeAddress(Classify(vmi.interfaces[j].ip, provided, additional), vmi.interfaces[j].ip);
    }
    assert forall k :: 0 <= k < |r| - 1 ==> (r[k].kind == NodeInternalIP <==> IsInternal(r[k].address, provided, additional));
    assert forall k :: 0 <= k < |r| - 1 ==>
      (exists i, j :: 0 <= i < |vmi.networks| && 0 <= j < |vmi.interfaces|
                      && Qualifies(vmi.networks[i], vmi.interfaces[j], parsers) && r[k].address == vmi.interfaces[j].ip);
  }

  /** Every qualifying (spec network, interface) pair appears, classified. */
  lemma NodeAddressEntriesComplete(node: Node, vmi: Vmi, parsers: Parsers)
    requires AnnotationAlphaProvidedIPAddr in node.annotations
    ensures var r := NodeAddressesOf(node, vmi, parsers).value;
            var provided := node.annotations[AnnotationAlphaProvidedIPAddr];
            var additional := AdditionalFor(node, parsers);
            forall i, j :: 0 <= i < |vmi.networks| && 0 <= j < |vmi.interfaces| && Qualifies(vmi.networks[i], vmi.interfaces[j], parsers)
              ==> NodeAddress(Classify(vmi.interfaces[j].ip, provided, additional), vmi.interfaces[j].ip) in r
  {
    var r := NodeAddressesOf(node, vmi, parsers).value;
    var provided := node.annotations[AnnotationAlphaProvidedIPAddr];
    var additional := AdditionalFor(node, parsers);
    var entries := InterfaceAddresses(vmi.networks, vmi.interfaces, provided, additional, parsers);
    assert r == entries + [NodeAddress(NodeHostName, node.name)];
    forall i, j | 0 <= i < |vmi.networks| && 0 <= j < |vmi.interfaces| && Qualifies(vmi.networks[i], vmi.interfaces[j], parsers)
      ensures NodeAddress(Classify(vmi.interfaces[j].ip, provided, additional), vmi.interfaces[j].ip) in r
    {
      var e := NodeAddress(Classify(vmi.interfaces[j].ip, provided, additional), vmi.interfaces[j].ip);
      InterfaceAddressesMembership(vmi.networks, vmi.interfaces, provided, additional, parsers, e);
      assert e in entries;
    }
  }

  /** Output order is spec-network order: the networks' entries concatenate. */
  lemma {:induction false} InterfaceAddressesConcat(n1: seq<string>, n2: seq<string>, ifaces: seq<VmiInterface>,
                                                    providedNodeIP: string, additional: Option<seq<string>>, parsers: Parsers)
    ensures InterfaceAddresses(n1 + n2, ifaces, providedNodeIP, additional, parsers)
         == InterfaceAddresses(n1, ifaces, providedNodeIP, additional, parsers)
            + InterfaceAddresses(n2, ifaces, providedNodeIP, additional, parsers)
    decreases |n2|
  {
    if |n2| == 0 {
      assert n1 + n2 == n1;
    } else {
      var init := n2[..|n2| - 1];
      assert (n1 + n2)[..|n1 + n2| - 1] == n1 + init;
      assert (n1 + n2)[|n1 + n2| - 1] == n2[|n2| - 1];
      InterfaceAddressesConcat(n1, init, ifaces, providedNodeIP, additional, parsers);
      AppendAssociates(InterfaceAddresses(n1, ifaces, providedNodeIP, additional, parsers),
                       InterfaceAddresses(init, ifaces, providedNodeIP, additional, parsers),
                       NetworkAddresses(n2[|n2| - 1], ifaces, providedNodeIP, additional, parsers));
    }
  }

  /** The interfaces one spec network selects, in interface order. */
  function QualifyingInterfaces(network: string, ifaces: seq<VmiInterface>, parsers: Parsers): (q: seq<VmiInterface>)
    ensures |q| <= |ifaces|
  {
    if |ifaces| == 0 then []
    else (if Qualifies(network, ifaces[0], parsers) then [ifaces[0]] else [])
         + QualifyingInterfaces(network, ifaces[1..], parsers)
  }

  /** One classified entry per interface, in the same order. */
  function EntriesFor(ifaces: seq<VmiInterface>, providedNodeIP: string, additional: Option<seq<string>>): (r: seq<NodeAddress>)
    ensures |r| == |ifaces|
    ensures forall k :: 0 <= k < |ifaces| ==> r[k] == NodeAddress(Classify(ifaces[k].ip, providedNodeIP, additional), ifaces[k].ip)
  {
    seq(|ifaces|, k requires 0 <= k < |ifaces| => NodeAddress(Classify(ifaces[k].ip, providedNodeIP, additional), ifaces[k].ip))
  }

  /** The entries `getNodeAddresses` should produce, read off network by
      network: each spec network's qualifying interfaces, in interface order. */
  function OrderedEntries(networks: seq<string>, ifaces: seq<VmiInterface>, providedNodeIP: string,
                          additional: Option<seq<string>>, parsers: Parsers): seq<NodeAddress>
  {
    if |networks| == 0 then []
    else EntriesFor(QualifyingInterfaces(networks[0], ifaces, parsers), providedNodeIP, additional)
         + OrderedEntries(networks[1..], ifaces, providedNodeIP, additional, parsers)
  }

  lemma {:induction false} QualifyingInterfacesConcat(network: string, a: seq<VmiInterface>, b: seq<VmiInterface>, parsers: Parsers)
    ensures QualifyingInterfaces(network, a + b, parsers)
         == QualifyingInterfaces(network, a, parsers) + QualifyingInterfaces(network, b, parsers)
    decreases |a|
  {
    if |a| == 0 {
      assert a + b == b;
    } else {
      assert (a + b)[1..] == a[1..] + b;
      QualifyingInterfacesConcat(network, a[1..], b, parsers);
      AppendAssociates(if Qualifies(network, a[0], parsers) then [a[0]] else [],
                       QualifyingInterfaces(network, a[1..], parsers), QualifyingInterfaces(network, b, parsers));
    }
  }

  lemma EntriesForConcat(a: seq<VmiInterface>, b: seq<VmiInterface>, providedNodeIP: string, additional: Option<seq<string>>)
    ensures EntriesFor(a + b, providedNodeIP, additional) == EntriesFor(a, providedNodeIP, additional) + EntriesFor(b, providedNodeIP, additional)
  {
    var l := EntriesFor(a + b, providedNodeIP, additional);
    var r := EntriesFor(a, providedNodeIP, additional) + EntriesFor(b, providedNodeIP, additional);
    forall k | 0 <= k < |l|
      ensures l[k] == r[k]
    {
      if k >= |a| {
        assert (a + b)[k] == b[k - |a|];
      }
    }
  }

  /** One network's entries are its qualifying interfaces, classified, in interface order. */
  lemma {:induction false} NetworkAddressesInOrder(network: string, ifaces: seq<VmiInterface>, providedNodeIP: string,
                                                   additional: Option<seq<string>>, parsers: Parsers)
    ensures NetworkAddresses(network, ifaces, providedNodeIP, additional, parsers)
         == EntriesFor(QualifyingInterfaces(network, ifaces, parsers), providedNodeIP, additional)
    decreases |ifaces|
  {
    if |ifaces| > 0 {
      var init := ifaces[..|ifaces| - 1];
      var last := ifaces[|ifaces| - 1];
      assert ifaces == init + [last];
      NetworkAddressesInOrder(network, init, providedNodeIP, additional, parsers);
      QualifyingInterfacesConcat(network, init, [last], parsers);
      assert [last][1..] == [];
      EntriesForConcat(QualifyingInterfaces(network, init, parsers), QualifyingInterfaces(network, [last], parsers),
                       providedNodeIP, additional);
    }
  }

  /** The interface entries are, network by network in spec order, each
      network's qualifying interfaces in interface order. */
  lemma {:induction false} InterfaceAddressesInOrder(networks: seq<string>, ifaces: seq<VmiInterface>, providedNodeIP: string,
                                                     additional: Option<seq<string>>, parsers: Parsers)
    ensures InterfaceAddresses(networks, ifaces, providedNodeIP, additional, parsers)
         == OrderedEntries(networks, ifaces, providedNodeIP, additional, parsers)
    decreases |networks|
  {
    if |networks| > 0 {
      var first := [networks[0]];
      var rest := networks[1..];
      assert networks == first + rest;
      InterfaceAddressesConcat(first, rest, ifaces, providedNodeIP, additional, parsers);
      assert first[..0] == [];
      var own := NetworkAddresses(networks[0], ifaces, providedNodeIP, additional, parsers);
      assert InterfaceAddresses(first, ifaces, providedNodeIP, additional, parsers) == [] + own;
      assert [] + own == own;
      NetworkAddressesInOrder(networks[0], ifaces, providedNodeIP, additional, parsers);
      InterfaceAddressesInOrder(rest, ifaces, providedNodeIP, additional, parsers);
    }
  }

  /** `getNodeAddresses` yields exactly the ordered entries and then the
      HostName: one entry per qualifying (spec network, interface) pair, spec
      networks first-to-last and interfaces in order within each. */
  lemma NodeAddressesInOrder(node: Node, vmi: Vmi, parsers: Parsers)
    requires AnnotationAlphaProvidedIPAddr in node.annotations
    ensures NodeAddressesOf(node, vmi, parsers).value
         == OrderedEntries(vmi.networks, vmi.interfaces, node.annotations[AnnotationAlphaProvidedIPAddr],
                           AdditionalFor(node, parsers), parsers)
            + [NodeAddress(NodeHostName, node.name)]
  {
    InterfaceAddressesInOrder(vmi.networks, vmi.interfaces, node.annotations[AnnotationAlphaProvidedIPAddr],
                              AdditionalFor(node, parsers), parsers);
  }

  /** An additional-IPs annotation that does not decode acts exactly as if it
      were absent, and no error surfaces. */
  lemma MalformedAdditionalIPsActAsAbsent(node: Node, vmi: Vmi, parsers: Parsers)
    requires KeyAdditionalInternalIPs in node.annotations
    requires parsers.decodeStringList(node.annotations[KeyAdditionalInternalIPs]).None?
    ensures NodeAddressesOf(node, vmi, parsers)
         == NodeAddressesOf(node.(annotations := node.annotations - {KeyAdditionalInternalIPs}), vmi, parsers)
  {
    assert |AnnotationAlphaProvidedIPAddr| != |KeyAdditionalInternalIPs|;
  }

  datatype InstanceMetadata = InstanceMetadata(
    providerID: string,
    region: string,
    zone: string,
    nodeAddresses: Option<seq<NodeAddress>>)

  class InstanceManager {
    const vmClient: Store<(string, string), VirtualMachine>
    const vmiClient: Store<(string, string), Vmi>
    /** Guest hostnames that differ from their VM's name, as recorded by the
        topology controller. */
    var nodeToVMName: map<string, string>
    const namespace: string
    const parsers: Parsers

    constructor (vmClient: Store<(string, string), VirtualMachine>, vmiClient: Store<(string, string), Vmi>,
                 nodeToVMName: map<string, string>, namespace: string, parsers: Parsers)
      ensures this.vmClient == vmClient && this.vmiClient == vmiClient
      ensures this.nodeToVMName == nodeToVMName && this.namespace == namespace && this.parsers == parsers
    {
      this.vmClient := vmClient;
      this.vmiClient := vmiClient;
      this.nodeToVMName := nodeToVMName;
      this.namespace := namespace;
      this.parsers := parsers;
    }

    /** The VM behind a node: the recorded VM name for its node name, else the node name. */
    function VMKey(node: Node): (string, string)
      reads this
    {
      (namespace, if node.name in nodeToVMName then nodeToVMName[node.name] else node.name)
    }

    /** The VM stored under the node's VM name, a store fault, or `NotFound`. */
    function GetVM(node: Node): (r: Result<VirtualMachine, StoreError>)
      reads this, vmClient
      ensures r.Ok? <==> vmClient.fault.None? && VMKey(node) in vmClient.objects
      ensures r.Ok? ==> r.value == vmClient.objects[VMKey(node)]
      ensures vmClient.fault.Some? ==> r == Err(Failure(vmClient.fault.value))
      ensures vmClient.fault.None? && VMKey(node) !in vmClient.objects ==> r == Err(NotFound)
    {
      vmClient.Get(VMKey(node))
    }

    /** A missing VM means "no instance", with no error; other errors are returned. */
    method InstanceExists(node: Node) returns (found: bool, err: Option<StoreError>)
      ensures vmClient.fault.Some? ==> !found && err == Some(Failure(vmClient.fault.value))
      ensures vmClient.fault.None? ==> err.None? && (found <==> VMKey(node) in vmClient.objects)
    {
      var vm := GetVM(node);
      if vm.Err? {
        if vm.error != NotFound {
          return false, Some(vm.error);
        }
        return false, None;
      }
      return true, None;
    }

    /** An instance is shut down exactly when its VM is not ready; a missing VM is an error. */
    method InstanceShutdown(node: Node) returns (shutdown: bool, err: Option<StoreError>)
      ensures vmClient.fault.Some? ==> !shutdown && err == Some(Failure(vmClient.fault.value))
      ensures vmClient.fault.None? && VMKey(node) !in vmClient.objects ==> !shutdown && err == Some(NotFound)
      ensures vmClient.fault.None? && VMKey(node) in vmClient.objects ==>
                err.None? && shutdown == !vmClient.objects[VMKey(node)].ready
    {
      var vm := GetVM(node);
      if vm.Err? {
        return false, Some(vm.error);
      }
      return !vm.value.ready, None;
    }

    /** The provider ID is always `harvester://` and the VM's UID; without a VMI
        there is no region, zone or address; with one, region and zone are its
        topology annotations (empty when absent) and the addresses are
        `getNodeAddresses`'. */
    method InstanceMetadataOf(node: Node) returns (r: Result<InstanceMetadata, StoreError>)
      ensures GetVM(node).Err? ==> r == Err(GetVM(node).error)
      ensures GetVM(node).Ok? ==>
                var vm := GetVM(node).value;
                var vmi := vmiClient.Get((namespace, vm.name));
                && (vmi.Err? && vmi.error != NotFound ==> r == Err(vmi.error))
                && (vmi == Err(NotFound) ==> r == Ok(InstanceMetadata(ProviderName + "://" + vm.uid, "", "", None)))
                && (vmi.Ok? ==>
                      && r.Ok?
                      && r.value.providerID == ProviderName + "://" + vm.uid
                      && r.value.region == Lookup(AnnotationsOf(vmi.value), LabelTopologyRegion)
                      && r.value.zone == Lookup(AnnotationsOf(vmi.value), LabelTopologyZone)
                      && r.value.nodeAddresses == NodeAddressesOf(node, vmi.value, parsers))
    {
      var vm := GetVM(node);
      if vm.Err? {
        return Err(vm.error);
      }
      var meta := InstanceMetadata(ProviderName + "://" + vm.value.uid, "", "", None);
      var vmi := vmiClient.Get((namespace, vm.value.name));
      if vmi.Err? {
        if vmi.error == NotFound {
          return Ok(meta);
        }
        return Err(vmi.error);
      }
      var annotations := AnnotationsOf(vmi.value);
      if LabelTopologyRegion in annotations {
        meta := meta.(region := annotations[LabelTopologyRegion]);
      }
      if LabelTopologyZone in annotations {
        meta := meta.(zone := annotations[LabelTopologyZone]);
      }
      var addresses := GetNodeAddresses(node, vmi.value, parsers);
      meta := meta.(nodeAddresses := addresses);
      return Ok(meta);
    }
  }
}
