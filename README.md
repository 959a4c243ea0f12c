# Harvester cloud provider: a Dafny model

This project models the core of the Harvester cloud provider. The cloud
controller manager runs inside a guest Kubernetes cluster whose nodes are
Harvester virtual machines. For such a cluster, it does three things:

- it turns `LoadBalancer` services into Harvester `LoadBalancer` objects;
- it reports each node's addresses and topology from the VM and its VMI;
- it taints a node for re-initialisation when a migration has moved its VM
  to another region or zone.

The model also covers parts of the vendored Harvester load-balancer controller:

- IP-pool selection;
- IP allocation and release;
- the handling of load-balancer changes and removals;
- the address a VMI offers as a backend server.

Modules, one per source file, plus shared helpers:

- `GoLib` (`golib.dfy`): the Go library behaviour the core relies on.
  - UTF-8 encoding of strings, because Go's `len`, slicing and CRC work on bytes.
  - `strconv.Atoi`, with optional sign and the int64 range.
  - `int32(x)` wrap-around.
  - `%08x` lower-case hex, with its read-back.
  - CRC-32 with the IEEE polynomial, computed bit by bit.
- `Kube` (`kube.dfy`):
  - the Kubernetes objects the core reads (services, nodes, VMs, VMIs);
  - a generic object `Store` class standing for a client or cache. Its map of
    objects is changed by `Create`, `Update` and `Delete`, and an injected
    `fault` makes every call fail as the API server would.
- `LoadBalancerNaming` (`lb_name.dfy`): `loadBalancerName`.
- `LoadBalancerSpecs` (`lb_spec.dfy`): the pure logic of
  `pkg/cloud-controller-manager/loadbalancer.go`: `getLBSpec`,
  `extractHealthCheck`, `getNodePort`, `getAnnotationValue` and `defaultValue`.
- `LoadBalancerManagement` (`lb_manager.dfy`): the `LoadBalancerManager`
  object. It models `GetLoadBalancer`, `EnsureLoadBalancer`,
  `UpdateLoadBalancer`, `updateLoadBalancer` and `EnsureLoadBalancerDeleted`
  over the `Store` of Harvester load balancers.
- `Instances` (`instance.dfy`): `getNodeAddresses`, `getAdditionalInternalIPs`,
  `getVM`, `InstanceExists`, `InstanceShutdown` and `InstanceMetadata`.
- `IpamSelection` (`ipam_selector.dfy`): `isMatch`, `matcher.Matches` and
  `Selector.Select`.
- `LoadBalancerController` (`lb_controller.dfy`): `allocateIP`, `requestIP`,
  `releaseIP`, `selectIPPool`, `OnRemove` and `OnChange` of the
  load-balancer controller.
  - Allocator calls and load-balancer-manager calls are recorded in order.
  - What an allocator hands out is an input.
- `TopologyResync` (`topology.dfy`): `Register`, `OnVmiChanged`, `reSync`,
  `compareTopology` and `isMigrationCompleted`.
- `BackendServers` (`backend_server.dfy`): `Server.GetAddress`.

Behaviour worth knowing that the model makes explicit:

- The load-balancer name is cut at byte 55. The cut can split a multi-byte
  character. The CRC suffix is computed over the uncut base plus the UID.
- The `healthcheck-port` annotation is parsed as a Go `int`. It is then
  narrowed with `int32(...)` before it is compared with the service ports, so
  a value 2^32 above a port still matches it.
- When several service ports have the same number, the last one gives the
  node port.
- `reSync` taints the node named after the VMI. The node lookup before it
  used the guest hostname, which can differ from that name.
- A selected pool can be the empty pool when none qualifies. What follows
  depends on whether a pool was recorded:
  - if one was, the controller releases it and requests from a pool named
    `""`, which normally has no allocator, so allocation fails;
  - if none was, the recorded pool `""` equals the target, so nothing is
    called, no error is returned and the load balancer stays without an address.

Some constants the core uses are defined in packages outside this model:

- `KeyAdditionalInternalIPs`;
- `Address4AskDHCP` (`"0.0.0.0"`);
- `lbv1.Pool`, `lbv1.DHCP` and `lbv1.VM` (`"pool"`, `"dhcp"`, `"vm"`);
- the creator label and its node-driver value;
- the external-cloud-provider taint key.

The model gives them their upstream values (`KeyAdditionalInternalIPs` is
`cloudprovider.harvesterhci.io/additional-internal-ips`). No proof depends on
them beyond their being fixed and the annotation keys being distinct.

## Model

| member | source | states |
|---|---|---|
| GoLib.ToInt32 | pkg/cloud-controller-manager/loadbalancer.go:310-315 | Go's `int32(x)`: in-range values are kept, and otherwise the result is congruent to `x` modulo 2^32 |
| GoLib.EncodeRune | pkg/cloud-controller-manager/loadbalancer.go:76-90 | A rune takes 1 to 4 bytes. It takes one byte, equal to its code, exactly when it is ASCII; otherwise every byte is at least 0x80 |
| GoLib.Utf8Concat | pkg/cloud-controller-manager/loadbalancer.go:80-81 | The bytes of a concatenation are the concatenated bytes, so `len(base)` and `base[:55]` can be taken part by part |
| GoLib.Utf8Ascii | pkg/cloud-controller-manager/loadbalancer.go:80-88 | An ASCII string has one byte per character, equal to its code |
| GoLib.Atoi | pkg/cloud-controller-manager/loadbalancer.go:305-307 | `strconv.Atoi`: a success lies in the int64 range and the text has a digit |
| GoLib.NatDigits | pkg/cloud-controller-manager/loadbalancer.go:305-307 | Helper of the `AtoiItoa` round trip: the decimal text of a natural number is non-empty and all digits |
| GoLib.NatDigitsValue | pkg/cloud-controller-manager/loadbalancer.go:305-307 | Helper of the `AtoiItoa` round trip: reading the decimal digits of `n` back gives `n` |
| GoLib.AtoiItoa | pkg/cloud-controller-manager/loadbalancer.go:305 | `Atoi` parses the decimal text of every int64 back to the same value, so every annotation written with `strconv.Itoa` is accepted |
| GoLib.HexDigit | pkg/cloud-controller-manager/loadbalancer.go:82 | Every hex digit is a lower-case hex byte |
| GoLib.FormatHex | pkg/cloud-controller-manager/loadbalancer.go:82 | The zero-padded hex text has exactly the requested width and only lower-case hex digits |
| GoLib.ParseFormatHex | pkg/cloud-controller-manager/loadbalancer.go:82 | The padded hex text reads back as the number it was made from |
| GoLib.FormatHex8 | pkg/cloud-controller-manager/loadbalancer.go:82 | `%08x` of a 32-bit digest is 8 lower-case hex digits that read back as the digest |
| LoadBalancerNaming.LoadBalancerName | pkg/cloud-controller-manager/loadbalancer.go:76-90 | The name is longer than the 8-byte suffix and at most 63 bytes |
| LoadBalancerNaming.EffectiveClusterName | pkg/cloud-controller-manager/loadbalancer.go:77-79 | A cluster name that is a DNS-1035 label is kept. Any other gets an "a" in front and is otherwise unchanged |
| LoadBalancerNaming.NamePrefix | pkg/cloud-controller-manager/loadbalancer.go:77-89 | The name starts with the checked cluster name and a dash, as far as the 55-byte cut keeps it |
| LoadBalancerNaming.AssembleParts | pkg/cloud-controller-manager/loadbalancer.go:84-89 | The cut keeps a base of at most 55 bytes whole and cuts a longer one to exactly 55. The result begins with what is kept and ends with the suffix |
| LoadBalancerNaming.PrefixOfBaseKept | pkg/cloud-controller-manager/loadbalancer.go:84-89 | Any leading part of the base survives the cut up to 55 bytes |
| LoadBalancerNaming.NameSuffix | pkg/cloud-controller-manager/loadbalancer.go:81-83 | The last 8 bytes are the lower-case hex CRC-32 (IEEE) of the uncut base plus the UID, and they read back as that checksum (`GoLib.ChecksumIEEE` is the bitwise CRC-32 it refers to) |
| LoadBalancerNaming.NameTruncation | pkg/cloud-controller-manager/loadbalancer.go:85-89 | A base of at most 55 bytes is kept whole. A longer base is cut to 55 bytes, which makes the name exactly 63 bytes |
| LoadBalancerNaming.NameStartsWithBase | pkg/cloud-controller-manager/loadbalancer.go:80-89 | The name begins with the base `cluster-namespace-name-`, as far as the cut keeps it |
| LoadBalancerNaming.HeadAndSuffixFormLabel | pkg/cloud-controller-manager/loadbalancer.go:73-75 | A label-shaped head of at most 55 bytes followed by 8 hex digits is a DNS-1035 label |
| LoadBalancerNaming.NameIsDns1035Label | pkg/cloud-controller-manager/loadbalancer.go:73-90 | When the names use only `[-a-z0-9]`, the derived name is a DNS-1035 label. The "a" prefix repairs a cluster name that starts with a digit or a dash, or is empty |
| LoadBalancerNaming.EffectiveClusterNameStartsWithLetter | pkg/cloud-controller-manager/loadbalancer.go:77-79 | A cluster name of label characters, once checked, is non-empty, starts with a letter and keeps to label characters |
| LoadBalancerNaming.LabelTextBytes | pkg/cloud-controller-manager/loadbalancer.go:80-81 | Text of label characters starting with a letter encodes to bytes of the same kind |
| LoadBalancerNaming.LabelBaseAssembled | pkg/cloud-controller-manager/loadbalancer.go:84-89 | A label-shaped base, cut and followed by eight hex digits, is a DNS-1035 label |
| LoadBalancerSpecs.GetAnnotationValue | pkg/cloud-controller-manager/loadbalancer.go:323-330 | A missing key gives the key's default. A present key fails exactly when its value is not an integer, and the error names the key and the text; otherwise the result is the parsed integer |
| LoadBalancerSpecs.DefaultsOfThresholdKeys | pkg/cloud-controller-manager/loadbalancer.go:332-347 | The success, failure, period and timeout keys default to 1, 3, 5 and 3 |
| LoadBalancerSpecs.NoMatchingPortGivesZero | pkg/cloud-controller-manager/loadbalancer.go:310-318 | With no service port equal to the wanted one, the node port found is 0 |
| LoadBalancerSpecs.LastMatchingPortWins | pkg/cloud-controller-manager/loadbalancer.go:310-315 | The loop does not stop at the first match: the node port found is that of the last service port equal to the wanted one |
| LoadBalancerSpecs.GetNodePort | pkg/cloud-controller-manager/loadbalancer.go:299-321 | The loop yields what the port annotation denotes: nothing without it, an error for non-integer text, and otherwise the node port of the last port equal to its `int32` value, with 0 an error |
| LoadBalancerSpecs.ExtractHealthCheck | pkg/cloud-controller-manager/loadbalancer.go:261-297 | The field-by-field build yields the health check the annotations denote, failing at the first bad value |
| LoadBalancerSpecs.HealthCheckWithoutPortAnnotation | pkg/cloud-controller-manager/loadbalancer.go:299-303 | Without the port annotation there is no health check and no error |
| LoadBalancerSpecs.HealthCheckPortNotInteger | pkg/cloud-controller-manager/loadbalancer.go:305-307 | A non-integer port annotation is an error carrying its text |
| LoadBalancerSpecs.HealthCheckNodePortMissing | pkg/cloud-controller-manager/loadbalancer.go:310-318 | A port annotation that matches no service port is a node-port-not-found error |
| LoadBalancerSpecs.HealthCheckDefaults | pkg/cloud-controller-manager/loadbalancer.go:276-296 | With a matching port and no threshold annotations, the health check is the node port with thresholds 1 and 3, a period of 5 and a timeout of 3 |
| LoadBalancerSpecs.HealthCheckParsedThresholds | pkg/cloud-controller-manager/loadbalancer.go:276-296 | With a matching port and all four thresholds given as integers, the health check is the node port with exactly the parsed success, failure, period and timeout values |
| LoadBalancerSpecs.HealthCheckBadThreshold | pkg/cloud-controller-manager/loadbalancer.go:276-294 | Any threshold annotation that is not an integer fails the health check |
| LoadBalancerSpecs.InternalAddressesMembership | pkg/cloud-controller-manager/loadbalancer.go:239-243 | An address is collected exactly when some entry of the node's address list is an InternalIP with that address |
| LoadBalancerSpecs.InternalIPsMembership | pkg/cloud-controller-manager/loadbalancer.go:236-244 | The backend servers are exactly the InternalIP addresses of all nodes |
| LoadBalancerSpecs.GetLBSpec | pkg/cloud-controller-manager/loadbalancer.go:218-259 | The spec fails exactly when the health check fails, with its error. On success it has the IPAM annotation (pool when absent), the description annotation, one listener per port in order (name, port, protocol, node port), the nodes' internal IPs in order, and the health check |
| LoadBalancerManagement.LoadBalancerManager.GetLoadBalancerName | pkg/cloud-controller-manager/loadbalancer.go:69-71 | The name of a service's load balancer is longer than 8 bytes, at most 63, and ends in the hex digest of the cluster name, namespace, name and UID |
| LoadBalancerManagement.LoadBalancerManager.GetLoadBalancer | pkg/cloud-controller-manager/loadbalancer.go:49-67 | An existing object gives its address as the single ingress IP. A missing one gives `(nil, false, nil)`. Any other read error is returned |
| LoadBalancerManagement.LoadBalancerManager.ReplaceSpec | pkg/cloud-controller-manager/loadbalancer.go:165-178 | Only the object's spec is replaced by the rebuilt spec. A spec error or update error leaves the store unchanged |
| LoadBalancerManagement.LoadBalancerManager.EnsureLoadBalancer | pkg/cloud-controller-manager/loadbalancer.go:96-138 | A read error other than not-found is returned. A spec error is returned as that error, with nothing changed. An existing object gets its spec replaced. A missing one is created in the manager's namespace under the derived name, with the UID annotation, the cluster-name label and the new spec |
| LoadBalancerManagement.LoadBalancerManager.CreateFor | pkg/cloud-controller-manager/loadbalancer.go:117-136 | When the read found nothing: a spec error leaves the store unchanged; otherwise exactly one object is added, under the manager's namespace and the derived name, with the UID annotation, the cluster-name label and a spec built for the service |
| LoadBalancerManagement.LoadBalancerManager.EnsuredLoadBalancer | pkg/cloud-controller-manager/loadbalancer.go:113-136 | What ends up under the key: the present object with only its spec replaced, or a new object with exactly the UID annotation, the cluster-name label, the spec and an empty address |
| LoadBalancerManagement.LoadBalancerManager.UpdateLoadBalancer | pkg/cloud-controller-manager/loadbalancer.go:155-163 | A read fault is returned and a missing object is an error; in both cases nothing changes. Otherwise the spec is replaced as in `updateLoadBalancer`, and a health-check error in the spec is returned with the store unchanged |
| LoadBalancerManagement.LoadBalancerManager.EnsureLoadBalancerDeleted | pkg/cloud-controller-manager/loadbalancer.go:180-191 | The object is removed when present. A missing object is not an error. A read error is returned |
| Instances.GetAdditionalInternalIPs | pkg/cloud-controller-manager/instance.go:130-142 | No annotation gives no list and no error. An annotation that does not decode is an error carrying its text. Otherwise the result is the decoded list |
| Instances.NodeAddressesOf | pkg/cloud-controller-manager/instance.go:87-127 | There are no addresses exactly when the provided-node-ip annotation is missing. Otherwise the last entry is the node's HostName |
| Instances.GetNodeAddresses | pkg/cloud-controller-manager/instance.go:87-127 | The nested loops produce, network by network and interface by interface, one classified entry per IPv4 interface named by a spec network, then the HostName |
| Instances.NetworkAddressesMembership | pkg/cloud-controller-manager/instance.go:104-119 | One network's entries are exactly its qualifying interfaces, each classified |
| Instances.InterfaceAddressesMembership | pkg/cloud-controller-manager/instance.go:102-120 | The entries are exactly the pairs of a spec network and an interface with equal names and an IPv4 address |
| Instances.NodeAddressEntriesSound | pkg/cloud-controller-manager/instance.go:102-126 | Each entry before the HostName comes from a qualifying interface. It is InternalIP exactly when its IP is the provided node IP or an additional internal IP, and ExternalIP otherwise |
| Instances.NodeAddressEntriesComplete | pkg/cloud-controller-manager/instance.go:102-120 | Every IPv4 interface named by a spec network appears among the entries, classified |
| Instances.NetworkAddressesInOrder | pkg/cloud-controller-manager/instance.go:104-119 | One network's entries are its qualifying interfaces in interface order, one classified entry each |
| Instances.InterfaceAddressesInOrder | pkg/cloud-controller-manager/instance.go:102-120 | The entries are, network by network in spec order, the qualifying interfaces in interface order, with repeats kept |
| Instances.NodeAddressesInOrder | pkg/cloud-controller-manager/instance.go:102-126 | With the annotation, the address list is exactly that ordered sequence of classified entries followed by the HostName |
| Instances.InterfaceAddressesConcat | pkg/cloud-controller-manager/instance.go:102-120 | Entries follow spec-network order: the entries of two network lists concatenate |
| Instances.MalformedAdditionalIPsActAsAbsent | pkg/cloud-controller-manager/instance.go:93-100 | An additional-IPs annotation that does not decode gives the same addresses as no annotation, and raises no error |
| Instances.InstanceManager.GetVM | pkg/cloud-controller-manager/instance.go:78-84 | The VM is read under the mapped VM name (or the node name): the stored VM, a read fault, or not-found |
| Instances.InstanceManager.InstanceExists | pkg/cloud-controller-manager/instance.go:28-36 | The instance exists exactly when the VM does. A missing VM is not an error; any other read error is |
| Instances.InstanceManager.InstanceShutdown | pkg/cloud-controller-manager/instance.go:38-44 | An instance is shut down exactly when its VM is not ready. A missing VM is an error |
| Instances.InstanceManager.InstanceMetadataOf | pkg/cloud-controller-manager/instance.go:46-76 | The provider ID is `harvester://` plus the VM UID. Without a VMI there is no region, zone or address. With one, region and zone are its topology annotations and the addresses are `getNodeAddresses`' |
| IpamSelection.AnyTupleMatchesIff | vendor/github.com/harvester/harvester-load-balancer/pkg/ipam/selector.go:40-46 | The scope loop finds a match exactly when some tuple matches |
| IpamSelection.Matches | vendor/github.com/harvester/harvester-load-balancer/pkg/ipam/selector.go:35-47 | A different network never matches, and neither does an empty scope |
| IpamSelection.MatchesIff | vendor/github.com/harvester/harvester-load-balancer/pkg/ipam/selector.go:35-47 | A selector matches exactly when its network is the requirement's and some tuple matches |
| IpamSelection.WildcardsMatchEverything | vendor/github.com/harvester/harvester-load-balancer/pkg/ipam/selector.go:67-76 | `*` on either side matches any value: an all-wildcard tuple or requirement always matches |
| IpamSelection.MatchWithoutWildcards | vendor/github.com/harvester/harvester-load-balancer/pkg/ipam/selector.go:67-76 | Without wildcards, a tuple matches exactly when project, namespace and cluster are equal |
| IpamSelection.ChosenIsBest | vendor/github.com/harvester/harvester-load-balancer/pkg/ipam/selector.go:55-62 | No pool is chosen exactly when none matches with a positive priority. A chosen pool matches with a positive priority, has the greatest priority among matching pools, and is strictly above every earlier matching pool |
| IpamSelection.Select | vendor/github.com/harvester/harvester-load-balancer/pkg/ipam/selector.go:49-65 | A listing error is returned unchanged. Otherwise the result is the chosen pool, or the empty pool when none qualifies |
| IpamSelection.SelectedEmptyIffNoneEligible | vendor/github.com/harvester/harvester-load-balancer/pkg/ipam/selector.go:55-64 | For named pools, the result has an empty name exactly when no pool qualifies |
| IpamSelection.TiesGoToEarliest | vendor/github.com/harvester/harvester-load-balancer/pkg/ipam/selector.go:58 | Of two qualifying pools with equal priority, the later is never chosen |
| IpamSelection.IneligibleSuffixIgnored | vendor/github.com/harvester/harvester-load-balancer/pkg/ipam/selector.go:57-62 | Appending pools that do not qualify leaves the choice unchanged |
| LoadBalancerController.DhcpAllocation | vendor/github.com/harvester/harvester-load-balancer/pkg/controller/loadbalancer/controller.go:138-150 | In DHCP mode nothing is requested, and a recorded pool is released first (a missing allocator or a failed release is an error). With no recorded pool or a successful release, the result asks DHCP unless the address already does, and then it is "no change" |
| LoadBalancerController.SamePoolNoAllocatorCall | vendor/github.com/harvester/harvester-load-balancer/pkg/controller/loadbalancer/controller.go:163-172 | When the recorded pool is the target, there is no allocator call and no change |
| LoadBalancerController.ReleaseBeforeRequest | vendor/github.com/harvester/harvester-load-balancer/pkg/controller/loadbalancer/controller.go:153-172 | In pool mode there is at most one release and one request, the release first. It releases the recorded pool only when that is set and is not the target, and it requests only from the target, with key `namespace/name` |
| LoadBalancerController.ChangedPoolRequests | vendor/github.com/harvester/harvester-load-balancer/pkg/controller/loadbalancer/controller.go:153-172 | A target other than the recorded pool is requested once nothing was recorded or the release succeeded: the calls are that release, if any, then the request, and the result is the grant, a missing-allocator error or the allocator's error |
| LoadBalancerController.ChangedPoolReleasesFirst | vendor/github.com/harvester/harvester-load-balancer/pkg/controller/loadbalancer/controller.go:163-172 | A recorded pool other than the target is released by the first call; a missing allocator or a failed release ends the allocation with that error |
| LoadBalancerController.AllocationRecordsPool | vendor/github.com/harvester/harvester-load-balancer/pkg/controller/loadbalancer/controller.go:175-193 | A new pool-mode address records the target pool. The pool has an allocator, and the address is what that allocator granted for the key |
| LoadBalancerController.SelectorFailureIsError | vendor/github.com/harvester/harvester-load-balancer/pkg/controller/loadbalancer/controller.go:154-161 | Without a named pool, a failed pool listing is an error before any allocator call |
| LoadBalancerController.WithAllocation | vendor/github.com/harvester/harvester-load-balancer/pkg/controller/loadbalancer/controller.go:83-90 | The status address is overwritten only when an allocation was returned; nothing else changes |
| LoadBalancerController.MarkedReady | vendor/github.com/harvester/harvester-load-balancer/pkg/controller/loadbalancer/controller.go:100-106 | The Ready condition is True with an empty message, and the address is the given one; nothing else changes |
| LoadBalancerController.Handler.SelectIPPool | vendor/github.com/harvester/harvester-load-balancer/pkg/controller/loadbalancer/controller.go:195-208 | The requirement comes from the four annotations, each missing one read as empty. The result is the selected pool's name, or the listing error |
| LoadBalancerController.Handler.RequestIP | vendor/github.com/harvester/harvester-load-balancer/pkg/controller/loadbalancer/controller.go:175-193 | A pool without an allocator is an error, with no call. Otherwise one request is made for `namespace/name`, and the result records the pool and the granted address |
| LoadBalancerController.Handler.ReleaseIP | vendor/github.com/harvester/harvester-load-balancer/pkg/controller/loadbalancer/controller.go:210-216 | The recorded pool without an allocator is an error, with no call. Otherwise one release is made for `namespace/name`, and its error is returned |
| LoadBalancerController.Handler.AllocateIP | vendor/github.com/harvester/harvester-load-balancer/pkg/controller/loadbalancer/controller.go:134-173 | The result and the allocator calls made are those of the allocation rules |
| LoadBalancerController.Handler.OnRemove | vendor/github.com/harvester/harvester-load-balancer/pkg/controller/loadbalancer/controller.go:112-132 | A nil object is a no-op. Pool IPAM with a recorded pool releases first, and a release error stops the removal. A VM load balancer is then deleted through the manager |
| LoadBalancerController.Handler.OnChange | vendor/github.com/harvester/harvester-load-balancer/pkg/controller/loadbalancer/controller.go:77-110 | A nil or deleting object is left alone. An allocation error is returned. A VM load balancer is ensured with the new allocation and takes the service's IP. The copy, marked Ready, is written back |
| TopologyResync.CompareTopology | pkg/controller/virtualmachineinstance/controller.go:116-119 | Two label maps agree exactly when their region and their zone are equal, a missing key reading as empty; so equal maps agree and two present but different regions, or zones, disagree |
| TopologyResync.MidMigrationSkipped | pkg/controller/virtualmachineinstance/controller.go:121-123 | A VMI whose migration has not completed is not migration-complete and is skipped at the guard |
| TopologyResync.CompareTopologyEquivalence | pkg/controller/virtualmachineinstance/controller.go:116-119 | Topology agreement is reflexive, symmetric and transitive |
| TopologyResync.MissingTopologyReadsEmpty | pkg/controller/virtualmachineinstance/controller.go:116-119 | A missing region or zone reads as the empty value |
| TopologyResync.CompareTopologyIgnoresOtherKeys | pkg/controller/virtualmachineinstance/controller.go:116-119 | Only region and zone matter to the comparison |
| TopologyResync.AsWrittenSkipsEveryNamespacedVmi | pkg/controller/virtualmachineinstance/controller.go:64-67 | As written, the guard against the empty namespace that `Register` leaves skips every VMI with a namespace |
| TopologyResync.AsWrittenRegisterMissesReSync | pkg/controller/virtualmachineinstance/controller.go:28-106 | As written, a handler from `Register` given a VMI due for re-sync in that namespace returns no error, taints nothing and records no VM name |
| TopologyResync.CorrectedRegisterReSyncs | pkg/controller/virtualmachineinstance/controller.go:28-114 | With the namespace stored, the same VMI gets its node tainted once with the uninitialized taint, and the taint error, if any, is returned |
| TopologyResync.CorrectedProcessesOwnNamespace | pkg/controller/virtualmachineinstance/controller.go:64-67 | With the namespace stored, a live, annotated, non-migrating VMI of that namespace passes the guard |
| TopologyResync.Handler.RegisterAsWritten | pkg/controller/virtualmachineinstance/controller.go:28-46 | The handler is built with every argument except the namespace, which stays empty, and with no taint calls yet |
| TopologyResync.Handler.ReSync | pkg/controller/virtualmachineinstance/controller.go:108-114 | The node named after the VMI gets the uninitialized taint, with value `true` and effect PreferNoSchedule. A taint error is returned |
| TopologyResync.Handler.OnVmiChanged | pkg/controller/virtualmachineinstance/controller.go:60-106 | The VMI is always returned. A VMI that is skipped (nil, deleting, unannotated, in another namespace, mid-migration, or not created by the node driver) causes nothing. Otherwise: a guest hostname is recorded against the VM and names the node, else the VMI name does; a missing node ends quietly; another lookup error is returned; a node whose topology disagrees is tainted |
| BackendServers.GetAddress | vendor/github.com/harvester/harvester-load-balancer/pkg/lb/servicelb/backendserver.go:19-27 | A success returns a non-empty IP, that of the first interface reporting one, with every earlier interface empty. It fails, with `""`, exactly when no interface has an IP |

## Left out

- Watches, goroutines, channels and timeouts are not modelled.
  - This covers `getIP`, the wait for an IP in `EnsureLoadBalancer`, and `waitServiceExternalIP`.
  - `EnsureLoadBalancer` returns only its error; the IP it waits for is not modelled.
  - `waitServiceExternalIP`'s result is an input of the controller's `Handler`.
- The allocators' lease bookkeeping is not modelled. `SafeAllocatorMap` and `allocator.Get/Release` are a set of pools that have an allocator, plus the answers each allocator gives. Calls are recorded in order.
- Library parsers are inputs. `net.ParseIP(..).To4() != nil` and decoding a JSON `[]string` are functions the instance queries are given.
- The guest agent's answer (`GuestOsInfo`), the load-balancer manager's `EnsureLoadBalancer` / `DeleteLoadBalancer` and `AddOrUpdateTaintOnNode` are not modelled. They are inputs and logged calls.
- Error messages built with `fmt.Errorf` are modelled as error constructors that carry the same data, not as text.
- API server details are not modelled: resource versions, update conflicts, and a create that races with another writer. The stores are plain maps.
- `sync.Map` is a plain map. The topology controller and the instance queries would share it; here each owns a copy.
- Logging is not modelled.
- Bootstrap (`ccm.go`, `main.go`) and the generated clients are not modelled.
- Constructors only store their arguments.
- `newLoadBalancerManager` is not modelled (configuration and client creation).
- `GetKind` is not modelled (object metadata only).
- `LoadBalancerManagement.LoadBalancerManager.EnsureLoadBalancer` requires the store's keys to agree with the stored objects' namespace and name, as an API server guarantees.
- `LoadBalancerManagement.LoadBalancerManager.UpdateLoadBalancer` and `EnsureLoadBalancerDeleted` have the same requirement.

## Findings

| source | as written | input that shows it | evidently intended | confidence | as-written member | corrected member |
|---|---|---|---|---|---|---|
| pkg/controller/virtualmachineinstance/controller.go:28-46,64-67 | `Register` takes `namespace` but never stores it in `Handler`, so `h.namespace` is `""`, and the guard `vmi.Namespace != h.namespace` skips every VMI that has a namespace | `Register(…, "default")` then a migrated, annotated node-driver VMI in namespace `default`: `OnVmiChanged` returns at the guard and never re-syncs | the handler keeps the namespace, so VMIs of that namespace are re-synced | not executed | TopologyResync.AsWrittenRegisterMissesReSync | TopologyResync.CorrectedRegisterReSyncs |
