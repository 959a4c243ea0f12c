/** How the cloud controller manager turns a guest-cluster service and its nodes
    into the spec of a Harvester load balancer (`getLBSpec`, `extractHealthCheck`,
    `getNodePort`, `getAnnotationValue`, `defaultValue` in
    pkg/cloud-controller-manager/loadbalancer.go; keys and defaults from
    pkg/cloud-controller-manager/annotation.go). */
module LoadBalancerSpecs {
  import opened Wrappers
  import opened GoLib
  import opened Kube

  const Prefix := "cloudprovider.harvesterhci.io/"
  const LoadBalancerDescription := Prefix + "description"
  const LoadBalancerIPAM := Prefix + "ipam"
  const HealthCheckPort := Prefix + "healthcheck-port"
  const HealthCheckSuccessThreshold := Prefix + "healthcheck-success-threshold"
  const HealthCheckFailureThreshold := Prefix + "healthcheck-failure-threshold"
  const HealthCheckPeriodSeconds := Prefix + "healthcheck-periodseconds"
  const HealthCheckTimeoutSeconds := Prefix + "healthcheck-timeoutseconds"

  const DefaultSuccessThreshold := 1
  const DefaultFailThreshold := 3
  const DefaultPeriodSeconds := 5
  const DefaultTimeoutSeconds := 3

  /** The pool-managed IPAM mode of the load balancer API. */
  const Pool := "pool"

  datatype Listener = Listener(name: string, port: Int32, protocol: string, backendPort: Int32)

  datatype HealthCheck = HealthCheck(
    port: int,
    successThreshold: int,
    failureThreshold: int,
    periodSeconds: int,
    timeoutSeconds: int)

  datatype LoadBalancerSpec = LoadBalancerSpec(
    description: string,
    ipam: string,
    listeners: seq<Listener>,
    backendServers: seq<string>,
    healthCheck: Option<HealthCheck>)

  datatype SpecError =
    | PortNotInteger(text: string)                   // the healthcheck-port annotation is not an integer
    | NodePortNotFound(port: int)                    // no service port has that number, or its node port is 0
    | ThresholdNotInteger(key: string, text: string) // a threshold annotation is present but not an integer

  /** The default of a health-check annotation; 0 for any other key. */
  function DefaultValue(key: string): int
  {
    if key == HealthCheckSuccessThreshold then DefaultSuccessThreshold
    else if key == HealthCheckFailureThreshold then DefaultFailThreshold
    else if key == HealthCheckPeriodSeconds then DefaultPeriodSeconds
    else if key == HealthCheckTimeoutSeconds then DefaultTimeoutSeconds
    else 0
  }

  /** An annotation read as an integer: its default when absent, an error when
      present but not an integer. */
  function GetAnnotationValue(annotations: map<string, string>, key: string): (r: Result<int, SpecError>)
    ensures key !in annotations ==> r == Ok(DefaultValue(key))
    ensures key in annotations ==> (r.Err? <==> Atoi(annotations[key]).None?)
    ensures r.Err? ==> r.error == ThresholdNotInteger(key, annotations[key])
    ensures key in annotations && Atoi(annotations[key]).Some? ==> r == Ok(Atoi(annotations[key]).value)
  {
    if key !in annotations then Ok(DefaultValue(key))
    else
      match Atoi(annotations[key])
      case None => Err(ThresholdNotInteger(key, annotations[key]))
      case Some(v) => Ok(v)
  }

  /** The node port of the last service port whose number is `port`; 0 when none is. */
  function LastMatchingNodePort(ports: seq<ServicePort>, port: Int32): Int32
  {
    if |ports| == 0 then 0
    else if ports[|ports| - 1].port == port then ports[|ports| - 1].nodePort
    else LastMatchingNodePort(ports[..|ports| - 1], port)
  }

  /** No service port with number `port` gives 0. */
  lemma {:induction false} NoMatchingPortGivesZero(ports: seq<ServicePort>, port: Int32)
    requires forall k :: 0 <= k < |ports| ==> ports[k].port != port
    ensures LastMatchingNodePort(ports, port) == 0
    decreases |ports|
  {
    if |ports| > 0 {
      NoMatchingPortGivesZero(ports[..|ports| - 1], port);
    }
  }

  /** The node port of the last service port with number `port` is the one found. */
  lemma {:induction false} LastMatchingPortWins(ports: seq<ServicePort>, port: Int32, k: nat)
    requires k < |ports| && ports[k].port == port
    requires forall j :: k < j < |ports| ==> ports[j].port != port
    ensures LastMatchingNodePort(ports, port) == ports[k].nodePort
    decreases |ports|
  {
    if k < |ports| - 1 {
      var init := ports[..|ports| - 1];
      assert init[k] == ports[k];
      LastMatchingPortWins(init, port, k);
    }
  }

  /** One more service port replaces the match when its number is `port`. */
  lemma LastMatchingNodePortStep(ports: seq<ServicePort>, i: nat, port: Int32)
    requires i < |ports|
    ensures LastMatchingNodePort(ports[..i + 1], port)
         == if ports[i].port == port then ports[i].nodePort else LastMatchingNodePort(ports[..i], port)
  {
    assert ports[..i + 1][..i] == ports[..i];
  }

  /** What `getNodePort` returns: no health check without the port annotation,
      else the node port of the service port it names. The annotation's value goes
      through Go's `int32(…)` before it is compared. */
  function NodePortOf(svc: Service): Result<Option<int>, SpecError>
  {
    if HealthCheckPort !in svc.annotations then Ok(None)
    else
      var text := svc.annotations[HealthCheckPort];
      match Atoi(text)
      case None => Err(PortNotInteger(text))
      case Some(port) =>
        var nodePort := LastMatchingNodePort(svc.ports, ToInt32(port));
        if nodePort == 0 then Err(NodePortNotFound(port)) else Ok(Some(nodePort))
  }

  method GetNodePort(svc: Service) returns (r: Result<Option<int>, SpecError>)
    ensures r == NodePortOf(svc)
  {
    if HealthCheckPort !in svc.annotations {
      return Ok(None);
    }
    var text := svc.annotations[HealthCheckPort];
    var port := Atoi(text);
    if port.None? {
      return Err(PortNotInteger(text));
    }
    var wanted := ToInt32(port.value);
    var nodePort: Int32 := 0;
    var i := 0;
    while i < |svc.ports|
      invariant 0 <= i <= |svc.ports|
      invariant nodePort == LastMatchingNodePort(svc.ports[..i], wanted)
    {
      LastMatchingNodePortStep(svc.ports, i, wanted);
      if svc.ports[i].port == wanted {
        nodePort := svc.ports[i].nodePort;
      }
      i := i + 1;
    }
    assert svc.ports[..i] == svc.ports;
    if nodePort == 0 {
      return Err(NodePortNotFound(port.value));
    }
    return Ok(Some(nodePort));
  }

  /** What `extractHealthCheck` returns. */
  function HealthCheckOf(svc: Service): Result<Option<HealthCheck>, SpecError>
  {
    var port :- NodePortOf(svc);
    if port.None? then Ok(None)
    else
      var success :- GetAnnotationValue(svc.annotations, HealthCheckSuccessThreshold);
      var failure :- GetAnnotationValue(svc.annotations, HealthCheckFailureThreshold);
      var period :- GetAnnotationValue(svc.annotations, HealthCheckPeriodSeconds);
      var timeout :- GetAnnotationValue(svc.annotations, HealthCheckTimeoutSeconds);
      Ok(Some(HealthCheck(port.value, success, failure, period, timeout)))
  }

  method ExtractHealthCheck(svc: Service) returns (r: Result<Option<HealthCheck>, SpecError>)
    ensures r == HealthCheckOf(svc)
  {
    var port := GetNodePort(svc);
    if port.Err? {
      return Err(port.error);
    }
    if port.value.None? {
      return Ok(None);
    }
    var healthCheck := HealthCheck(port.value.value, 0, 0, 0, 0);
    var v := GetAnnotationValue(svc.annotations, HealthCheckSuccessThreshold);
    if v.Err? {
      return Err(v.error);
    }
    healthCheck := healthCheck.(successThreshold := v.value);
    v := GetAnnotationValue(svc.annotations, HealthCheckFailureThreshold);
    if v.Err? {
      return Err(v.error);
    }
    healthCheck := healthCheck.(failureThreshold := v.value);
    v := GetAnnotationValue(svc.annotations, HealthCheckPeriodSeconds);
    if v.Err? {
      return Err(v.error);
    }
    healthCheck := healthCheck.(periodSeconds := v.value);
    v := GetAnnotationValue(svc.annotations, HealthCheckTimeoutSeconds);
    if v.Err? {
      return Err(v.error);
    }
    healthCheck := healthCheck.(timeoutSeconds := v.value);
    return Ok(Some(healthCheck));
  }

  /** No port annotation: no health check and no error. */
  lemma HealthCheckWithoutPortAnnotation(svc: Service)
    requires HealthCheckPort !in svc.annotations
    ensures HealthCheckOf(svc) == Ok(None)
  {
  }

  /** A port annotation that is not an integer is an error. */
  lemma HealthCheckPortNotInteger(svc: Service)
    requires HealthCheckPort in svc.annotations && Atoi(svc.annotations[HealthCheckPort]).None?
    ensures HealthCheckOf(svc) == Err(PortNotInteger(svc.annotations[HealthCheckPort]))
  {
  }

  /** A port number that no service port has, or whose last matching port has node
      port 0, is an error. */
  lemma HealthCheckNodePortMissing(svc: Service, port: int)
    requires HealthCheckPort in svc.annotations && Atoi(svc.annotations[HealthCheckPort]) == Some(port)
    requires (forall k :: 0 <= k < |svc.ports| ==> svc.ports[k].port != ToInt32(port))
          || (exists k :: 0 <= k < |svc.ports| && svc.ports[k].port == ToInt32(port) && svc.ports[k].nodePort == 0
                          && forall j :: k < j < |svc.ports| ==> svc.ports[j].port != ToInt32(port))
    ensures HealthCheckOf(svc) == Err(NodePortNotFound(port))
  {
    if forall k :: 0 <= k < |svc.ports| ==> svc.ports[k].port != ToInt32(port) {
      NoMatchingPortGivesZero(svc.ports, ToInt32(port));
    } else {
      var k :| 0 <= k < |svc.ports| && svc.ports[k].port == ToInt32(port) && svc.ports[k].nodePort == 0
               && forall j :: k < j < |svc.ports| ==> svc.ports[j].port != ToInt32(port);
      LastMatchingPortWins(svc.ports, ToInt32(port), k);
    }
  }

  /** With a valid port annotation and no threshold annotations, the health check
      probes the node port of the last service port with that number and uses the
      defaults 1 / 3 / 5 / 3. */
  lemma HealthCheckDefaults(svc: Service, port: int, k: nat)
    requires HealthCheckPort in svc.annotations && Atoi(svc.annotations[HealthCheckPort]) == Some(port)
    requires k < |svc.ports| && svc.ports[k].port == ToInt32(port) && svc.ports[k].nodePort != 0
    requires forall j :: k < j < |svc.ports| ==> svc.ports[j].port != ToInt32(port)
    requires HealthCheckSuccessThreshold !in svc.annotations && HealthCheckFailureThreshold !in svc.annotations
    requires HealthCheckPeriodSeconds !in svc.annotations && HealthCheckTimeoutSeconds !in svc.annotations
    ensures HealthCheckOf(svc) == Ok(Some(HealthCheck(svc.ports[k].nodePort, 1, 3, 5, 3)))
  {
    LastMatchingPortWins(svc.ports, ToInt32(port), k);
    DefaultsOfThresholdKeys();
  }

  /** With the port resolved and all four thresholds given as integers, the
      health check carries exactly the parsed values. */
  lemma HealthCheckParsedThresholds(svc: Service, port: int, k: nat, success: int, failure: int, period: int, timeout: int)
    requires HealthCheckPort in svc.annotations && Atoi(svc.annotations[HealthCheckPort]) == Some(port)
    requires k < |svc.ports| && svc.ports[k].port == ToInt32(port) && svc.ports[k].nodePort != 0
    requires forall j :: k < j < |svc.ports| ==> svc.ports[j].port != ToInt32(port)
    requires HealthCheckSuccessThreshold in svc.annotations && Atoi(svc.annotations[HealthCheckSuccessThreshold]) == Some(success)
    requires HealthCheckFailureThreshold in svc.annotations && Atoi(svc.annotations[HealthCheckFailureThreshold]) == Some(failure)
    requires HealthCheckPeriodSeconds in svc.annotations && Atoi(svc.annotations[HealthCheckPeriodSeconds]) == Some(period)
    requires HealthCheckTimeoutSeconds in svc.annotations && Atoi(svc.annotations[HealthCheckTimeoutSeconds]) == Some(timeout)
    ensures HealthCheckOf(svc) == Ok(Some(HealthCheck(svc.ports[k].nodePort, success, failure, period, timeout)))
  {
    LastMatchingPortWins(svc.ports, ToInt32(port), k);
  }

  /** The four threshold keys differ (at the first letter after "healthcheck-"),
      so each gets its own default. */
  lemma DefaultsOfThresholdKeys()
    ensures DefaultValue(HealthCheckSuccessThreshold) == DefaultSuccessThreshold
    ensures DefaultValue(HealthCheckFailureThreshold) == DefaultFailThreshold
    ensures DefaultValue(HealthCheckPeriodSeconds) == DefaultPeriodSeconds
    ensures DefaultValue(HealthCheckTimeoutSeconds) == DefaultTimeoutSeconds
  {
    var at := |Prefix| + |"healthcheck-"|;
    assert HealthCheckSuccessThreshold[at] == 's';
    assert HealthCheckFailureThreshold[at] == 'f';
    assert HealthCheckPeriodSeconds[at] == 'p';
    assert HealthCheckTimeoutSeconds[at] == 't';
  }

  /** Once the port resolves, a threshold annotation that is present but not an
      integer is an error. */
  lemma HealthCheckBadThreshold(svc: Service, key: string)
    requires NodePortOf(svc).Ok? && NodePortOf(svc).value.Some?
    requires key in {HealthCheckSuccessThreshold, HealthCheckFailureThreshold, HealthCheckPeriodSeconds, HealthCheckTimeoutSeconds}
    requires key in svc.annotations && Atoi(svc.annotations[key]).None?
    ensures HealthCheckOf(svc).Err?
  {
  }

  // ---------------------------------------------------------------- backends

  /** The addresses of type NodeInternalIP, in order. */
  function InternalAddresses(addresses: seq<NodeAddress>): seq<string>
  {
    if |addresses| == 0 then []
    else
      var last := addresses[|addresses| - 1];
      InternalAddresses(addresses[..|addresses| - 1]) + (if last.kind == NodeInternalIP then [last.address] else [])
  }

  /** The NodeInternalIP addresses of all nodes, node by node. */
  function InternalIPs(nodes: seq<Node>): seq<string>
  {
    if |nodes| == 0 then [] else InternalIPs(nodes[..|nodes| - 1]) + InternalAddresses(nodes[|nodes| - 1].addresses)
  }

  lemma {:induction false} InternalAddressesMembership(addresses: seq<NodeAddress>, a: string)
    ensures a in InternalAddresses(addresses)
        <==> exists j :: 0 <= j < |addresses| && addresses[j] == NodeAddress(NodeInternalIP, a)
  {
    if |addresses| > 0 {
      var init := addresses[..|addresses| - 1];
      InternalAddressesMembership(init, a);
      if a in InternalAddresses(init) {
        var j :| 0 <= j < |init| && init[j] == NodeAddress(NodeInternalIP, a);
        assert addresses[j] == init[j];
      }
      if exists j :: 0 <= j < |addresses| && addresses[j] == NodeAddress(NodeInternalIP, a) {
        var j :| 0 <= j < |addresses| && addresses[j] == NodeAddress(NodeInternalIP, a);
        if j < |init| {
          assert init[j] == addresses[j];
        }
      }
    }
  }

  /** The backend servers are exactly the NodeInternalIP addresses of the nodes. */
  lemma {:induction false} InternalIPsMembership(nodes: seq<Node>, a: string)
    ensures a in InternalIPs(nodes)
        <==> exists i, j :: 0 <= i < |nodes| && 0 <= j < |nodes[i].addresses|
                            && nodes[i].addresses[j] == NodeAddress(NodeInternalIP, a)
  {
    if |nodes| > 0 {
      var init := nodes[..|nodes| - 1];
      var last := nodes[|nodes| - 1];
      InternalIPsMembership(init, a);
      InternalAddressesMembership(last.addresses, a);
      if a in InternalIPs(init) {
        var i, j :| 0 <= i < |init| && 0 <= j < |init[i].addresses| && init[i].addresses[j] == NodeAddress(NodeInternalIP, a);
        assert nodes[i] == init[i];
      }
      if exists i, j :: 0 <= i < |nodes| && 0 <= j < |nodes[i].addresses| && nodes[i].addresses[j] == NodeAddress(NodeInternalIP, a) {
        var i, j :| 0 <= i < |nodes| && 0 <= j < |nodes[i].addresses| && nodes[i].addresses[j] == NodeAddress(NodeInternalIP, a);
        if i < |init| {
          assert init[i] == nodes[i];
        }
      }
    }
  }

  function ListenerOf(p: ServicePort): Listener
  {
    Listener(p.name, p.port, p.protocol, p.nodePort)
  }

  /** `spec` is what `getLBSpec` builds for `svc` and `nodes`: the IPAM mode is
      the ipam annotation copied verbatim, else `pool`; one listener per service
      port, in order, forwarding to its node port; the backends are the nodes'
      internal IPs in order; the health check as `extractHealthCheck` gives it. */
  predicate IsSpecFor(svc: Service, nodes: seq<Node>, spec: LoadBalancerSpec)
  {
    && spec.ipam == (if LoadBalancerIPAM in svc.annotations then svc.annotations[LoadBalancerIPAM] else Pool)
    && spec.description == Lookup(svc.annotations, LoadBalancerDescription)
    && |spec.listeners| == |svc.ports|
    && (forall i :: 0 <= i < |svc.ports| ==>
          && spec.listeners[i].name == svc.ports[i].name
          && spec.listeners[i].port == svc.ports[i].port
          && spec.listeners[i].protocol == svc.ports[i].protocol
          && spec.listeners[i].backendPort == svc.ports[i].nodePort)
    && spec.backendServers == InternalIPs(nodes)
    && HealthCheckOf(svc).Ok? && spec.healthCheck == HealthCheckOf(svc).value
  }

  /** `getLBSpec`: the spec above, or the health-check error, which is the only error. */
  method GetLBSpec(svc: Service, nodes: seq<Node>) returns (r: Result<LoadBalancerSpec, SpecError>)
    ensures r.Err? <==> HealthCheckOf(svc).Err?
    ensures r.Err? ==> r.error == HealthCheckOf(svc).error
    ensures r.Ok? ==> IsSpecFor(svc, nodes, r.value)
  {
    var ipam := Pool;
    if LoadBalancerIPAM in svc.annotations {
      ipam := svc.annotations[LoadBalancerIPAM];
    }

    var listeners: seq<Listener> := [];
    for i := 0 to |svc.ports|
      invariant |listeners| == i
      invariant forall k :: 0 <= k < i ==> listeners[k] == ListenerOf(svc.ports[k])
    {
      listeners := listeners + [ListenerOf(svc.ports[i])];
    }

    var backendServers: seq<string> := [];
    for i := 0 to |nodes|
      invariant backendServers == InternalIPs(nodes[..i])
    {
      assert nodes[..i + 1][..i] == nodes[..i];
      var addresses := nodes[i].addresses;
      for j := 0 to |addresses|
        invariant backendServers == InternalIPs(nodes[..i]) + InternalAddresses(addresses[..j])
      {
        assert addresses[..j + 1][..j] == addresses[..j];
        if addresses[j].kind == NodeInternalIP {
          backendServers := backendServers + [addresses[j].address];
        }
      }
      assert addresses[..|addresses|] == addresses;
    }
    assert nodes[..|nodes|] == nodes;

    var healthCheck := ExtractHealthCheck(svc);
    if healthCheck.Err? {
      return Err(healthCheck.error);
    }

    return Ok(LoadBalancerSpec(Lookup(svc.annotations, LoadBalancerDescription), ipam, listeners, backendServers, healthCheck.value));
  }
}
