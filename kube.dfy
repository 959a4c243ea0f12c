/** The Kubernetes and KubeVirt objects the core reads, as values, and a
    map-backed object store standing in for the generated API clients and
    caches. */
module Kube {
  import opened Wrappers
  import opened GoLib

  /** Reading a Go `map[string]string`: a missing key reads as "". */
  function Lookup(m: map<string, string>, key: string): string
  {
    if key in m then m[key] else ""
  }

  /** Well-known Kubernetes label keys for a node's topology. */
  const LabelTopologyRegion := "topology.kubernetes.io/region"
  const LabelTopologyZone := "topology.kubernetes.io/zone"

  datatype ServicePort = ServicePort(name: string, protocol: string, port: Int32, nodePort: Int32)

  datatype Service = Service(
    namespace: string,
    name: string,
    uid: string,
    annotations: map<string, string>,
    ports: seq<ServicePort>)

  datatype NodeAddressType =
    | NodeHostName
    | NodeExternalIP
    | NodeInternalIP
    | NodeExternalDNS
    | NodeInternalDNS

  datatype NodeAddress = NodeAddress(kind: NodeAddressType, address: string)

  datatype Node = Node(
    name: string,
    annotations: map<string, string>,
    labels: map<string, string>,
    addresses: seq<NodeAddress>)

  datatype VirtualMachine = VirtualMachine(name: string, uid: string, ready: bool)

  datatype VmiInterface = VmiInterface(name: string, ip: string)

  datatype MigrationState = MigrationState(completed: bool)

  /** A virtual machine instance. `annotations` is `None` for a nil annotation map;
      `networks` holds the names of the spec's networks. */
  datatype Vmi = Vmi(
    namespace: string,
    name: string,
    annotations: Option<map<string, string>>,
    labels: map<string, string>,
    deleting: bool,
    networks: seq<string>,
    interfaces: seq<VmiInterface>,
    migrationState: Option<MigrationState>)

  /** `vmi.GetAnnotations()` read as a map: nil reads as empty. */
  function AnnotationsOf(vmi: Vmi): map<string, string>
  {
    if vmi.annotations.Some? then vmi.annotations.value else map[]
  }

  datatype StoreError = NotFound | AlreadyExists | Failure(message: string)

  /** An API client (or cache) for one kind of object, keyed by `K`. When `fault`
      is set, the API server answers every request with that error. */
  class Store<K(==), V> {
    var objects: map<K, V>
    var fault: Option<string>

    constructor (objects: map<K, V>, fault: Option<string>)
      ensures this.objects == objects && this.fault == fault
    {
      this.objects := objects;
      this.fault := fault;
    }

    function Get(key: K): Result<V, StoreError>
      reads this
    {
      if fault.Some? then Err(Failure(fault.value))
      else if key in objects then Ok(objects[key])
      else Err(NotFound)
    }

    method Create(key: K, v: V) returns (r: Result<V, StoreError>)
      modifies this
      ensures fault == old(fault)
      ensures r == if old(fault).Some? then Err(Failure(old(fault).value))
                   else if key in old(objects) then Err(AlreadyExists)
                   else Ok(v)
      ensures objects == if r.Ok? then old(objects)[key := v] else old(objects)
    {
      if fault.Some? {
        r := Err(Failure(fault.value));
      } else if key in objects {
        r := Err(AlreadyExists);
      } else {
        objects := objects[key := v];
        r := Ok(v);
      }
    }

    method Update(key: K, v: V) returns (r: Result<V, StoreError>)
      modifies this
      ensures fault == old(fault)
      ensures r == if old(fault).Some? then Err(Failure(old(fault).value))
                   else if key !in old(objects) then Err(NotFound)
                   else Ok(v)
      ensures objects == if r.Ok? then old(objects)[key := v] else old(objects)
    {
      if fault.Some? {
        r := Err(Failure(fault.value));
      } else if key !in objects {
        r := Err(NotFound);
      } else {
        objects := objects[key := v];
        r := Ok(v);
      }
    }

    method Delete(key: K) returns (err: Option<StoreError>)
      modifies this
      ensures fault == old(fault)
      ensures err == if old(fault).Some? then Some(Failure(old(fault).value))
                     else if key !in old(objects) then Some(NotFound)
                     else None
      ensures objects == if err.None? then old(objects) - {key} else old(objects)
    {
      if fault.Some? {
        err := Some(Failure(fault.value));
      } else if key !in objects {
        err := Some(NotFound);
      } else {
        objects := objects - {key};
        err := None;
      }
    }
  }
}
