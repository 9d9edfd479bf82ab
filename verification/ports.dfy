/**
 * The published-port lookup that both networking tests run after inspecting
 * their service: scan the endpoint's port configurations and take the
 * published port of the first one whose target port is 80.
 */
module Ports {
  import opened Wrappers

  /** Go's `uint32`, the type of both port fields of a swarm port configuration. */
  newtype uint32 = x: int | 0 <= x < 0x1_0000_0000

  /** The two fields of a swarm `PortConfig` that the lookup reads. */
  datatype PortConfig = PortConfig(targetPort: uint32, publishedPort: uint32)

  /** The port the test service listens on inside its containers. */
  const ServicePort: uint32 := 80

  /** The index of the first configuration whose target port is `target`, if there is one. */
  function IndexOfTarget(ports: seq<PortConfig>, target: uint32): (r: Option<nat>)
    ensures r.Some? ==> r.value < |ports| && ports[r.value].targetPort == target
    ensures r.Some? ==> forall j :: 0 <= j < r.value ==> ports[j].targetPort != target
    ensures r.None? ==> forall j :: 0 <= j < |ports| ==> ports[j].targetPort != target
  {
    if |ports| == 0 then None
    else if ports[0].targetPort == target then Some(0)
    else match IndexOfTarget(ports[1..], target)
      case None => None
      case Some(i) => Some(i + 1)
  }

  /**
   * The port the tests probe: the published port of the first configuration
   * that targets port 80, or Go's zero value 0 when no configuration does.
   */
  function PublishedPort(ports: seq<PortConfig>): (published: uint32)
    ensures (forall j :: 0 <= j < |ports| ==> ports[j].targetPort != ServicePort) ==> published == 0
    ensures forall i :: 0 <= i < |ports| && ports[i].targetPort == ServicePort &&
                        (forall j :: 0 <= j < i ==> ports[j].targetPort != ServicePort)
                        ==> published == ports[i].publishedPort
  {
    match IndexOfTarget(ports, ServicePort)
    case None => 0
    case Some(i) => ports[i].publishedPort
  }

  /** The search loop itself: a zero-initialised variable, overwritten once, then `break`. */
  method LookupPublished(ports: seq<PortConfig>) returns (published: uint32)
    ensures published == PublishedPort(ports)
  {
    published := 0;
    for i := 0 to |ports|
      invariant published == 0
      invariant forall j :: 0 <= j < i ==> ports[j].targetPort != ServicePort
    {
      if ports[i].targetPort == ServicePort {
        published := ports[i].publishedPort;
        break;
      }
    }
  }
}
