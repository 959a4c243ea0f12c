/** The address a VMI offers as a load-balancer backend (`Server.GetAddress` in
    vendor/github.com/harvester/harvester-load-balancer/pkg/lb/servicelb/backendserver.go). */
module BackendServers {
  import opened Kube

  /** The first interface that reports an IP gives the address; without one
      there is none. The VMI is only read. */
  method GetAddress(vmi: Vmi) returns (address: string, ok: bool)
    ensures ok ==> address != ""
    ensures ok ==> exists k :: 0 <= k < |vmi.interfaces| && vmi.interfaces[k].ip == address
                               && forall m :: 0 <= m < k ==> vmi.interfaces[m].ip == ""
    ensures !ok <==> forall k :: 0 <= k < |vmi.interfaces| ==> vmi.interfaces[k].ip == ""
    ensures !ok ==> address == ""
  {
    var i := 0;
    while i < |vmi.interfaces|
      invariant 0 <= i <= |vmi.interfaces|
      invariant forall m :: 0 <= m < i ==> vmi.interfaces[m].ip == ""
    {
      if vmi.interfaces[i].ip != "" {
        return vmi.interfaces[i].ip, true;
      }
      i := i + 1;
    }
    return "", false;
  }
}
