/** The service and endpoint objects the sinks receive, and the names derived from them. */
module LocalNet {
  import opened Basics

  datatype Protocol = UnknownProtocol | TCP | UDP | SCTP

  datatype PortMapping = PortMapping(name: string, protocol: Protocol, port: int, nodePort: int, targetPort: int)

  datatype Service = Service(
    namespace: string, name: string, ports: seq<PortMapping>,
    clusterV4: seq<string>, externalV4: seq<string>, annotations: map<string, string>)

  /** An endpoint object: here only its V4 addresses matter. */
  datatype Endpoint = Endpoint(v4: seq<string>)

  /** Whether the name has the namespace and the name of the service. */
  predicate IsCalled(service: Service, name: NamespacedName) {
    service.namespace == name.namespace && service.name == name.name
  }

  /** CreateNamespacedName and GetName. */
  function NameOf(service: Service): NamespacedName {
    NamespacedName(service.namespace, service.name)
  }
}

/** How proxies name a service port. */
module ServicePorts {
  import opened Basics
  import opened LocalNet

  datatype ServicePortName = ServicePortName(service: NamespacedName, port: string, protocol: Protocol)
}
