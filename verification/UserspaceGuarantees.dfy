/** What runs of the userspace sink guarantee about portals and served endpoints. */
module UserspaceGuarantees {
  import opened Basics
  import opened HostPort
  import opened LocalNet
  import opened Balancer
  import opened Portals
  import opened UserspaceSink
  import opened UserspaceRuns
  import opened UserspaceDriver

  // ----- portals -----

  /** How a service comes to ask for a portal: through a port of that name, on the first
      cluster IP, an external IP or, with a node port, all interfaces. */
  predicate AsksThrough(service: Service, port: PortMapping, k: PortalName)
    requires service.clusterV4 != []
  {
    && IsCalled(service, k.service) && k.port == port.name
    && (k.ip == service.clusterV4[0] || k.ip in service.externalV4 || (k.ip == "" && port.nodePort != 0))
  }

  /** What a portal listens on, read off the ports from last to first. */
  function ListenerOf(service: Service, n: nat, k: PortalName): Option<Listener>
    requires HasClusterIP(service) && n <= |service.ports|
  {
    if n == 0 then None
    else if AsksThrough(service, service.ports[n - 1], k) then Some(ListenerOn(service.ports[n - 1], k.ip))
    else ListenerOf(service, n - 1, k)
  }

  lemma OnePortLater(service: Service, n: nat, k: PortalName, before: Portals, after: Portals)
    requires HasClusterIP(service) && 0 < n <= |service.ports|
    requires after == before + TableOfPort(service, service.ports[n - 1])
    requires Get(before, k) == ListenerOf(service, n - 1, k)
    ensures Get(after, k) == ListenerOf(service, n, k)
  {
    var port := service.ports[n - 1];
    TableLookup(NameOf(service), port, IPsOfPort(service, port), k);
    assert Get(after, k) ==
      if k in TableOfPort(service, port) then Get(TableOfPort(service, port), k) else Get(before, k);
  }

  lemma {:induction false} PortalLookup(service: Service, n: nat, k: PortalName) returns (table: Portals)
    requires HasClusterIP(service) && n <= |service.ports|
    ensures table == PortalsOfFirst(service, n) && Get(table, k) == ListenerOf(service, n, k)
  {
    if n == 0 {
      table := map[];
    } else {
      var before := PortalLookup(service, n - 1, k);
      table := before + TableOfPort(service, service.ports[n - 1]);
      OnePortLater(service, n, k, before, table);
    }
  }

  /** Among the first n ports, i is the last one that asks for the portal. */
  predicate AsksLast(service: Service, n: nat, i: nat, k: PortalName)
    requires service.clusterV4 != [] && i < n <= |service.ports|
  {
    AsksThrough(service, service.ports[i], k) && forall j :: i < j < n ==> !AsksThrough(service, service.ports[j], k)
  }

  lemma {:induction false} AskedPorts(service: Service, n: nat, k: PortalName)
    requires HasClusterIP(service) && n <= |service.ports|
    ensures ListenerOf(service, n, k).Some? <==> exists i :: 0 <= i < n && AsksThrough(service, service.ports[i], k)
  {
    if n > 0 {
      AskedPorts(service, n - 1, k);
    }
  }

  lemma {:induction false} LastAskedPort(service: Service, n: nat, i: nat, k: PortalName)
    requires HasClusterIP(service) && i < n <= |service.ports| && AsksLast(service, n, i, k)
    ensures ListenerOf(service, n, k) == Some(ListenerOn(service.ports[i], k.ip))
  {
    if i < n - 1 {
      LastAskedPort(service, n - 1, i, k);
    }
  }

  /** The listener a port asks for: on its node port on all interfaces if it has one, and on its own
      port otherwise. */
  predicate IsListenerFor(port: PortMapping, k: PortalName, listener: Listener) {
    && listener.port == (if k.ip == "" && port.nodePort != 0 then port.nodePort else port.port)
    && listener.protocol == port.protocol
  }

  /** A service asks for a portal exactly if some port of it does; the last port that does sets the
      listener. */
  lemma PortalTableMeaning(service: Service, k: PortalName)
    requires HasClusterIP(service)
    ensures k in PortalTable(service) <==>
      exists i :: 0 <= i < |service.ports| && AsksThrough(service, service.ports[i], k)
    ensures forall i :: 0 <= i < |service.ports| && AsksLast(service, |service.ports|, i, k) ==>
      k in PortalTable(service) && IsListenerFor(service.ports[i], k, PortalTable(service)[k])
  {
    var _ := PortalLookup(service, |service.ports|, k);
    AskedPorts(service, |service.ports|, k);
    forall i | 0 <= i < |service.ports| && AsksLast(service, |service.ports|, i, k)
      ensures ListenerOf(service, |service.ports|, k) == Some(ListenerOn(service.ports[i], k.ip))
    {
      LastAskedPort(service, |service.ports|, i, k);
    }
  }

  /** Whether every portal could be opened in the latest SetService for the name since it was
      last deleted, if there is one. */
  predicate LatestSucceeded(calls: seq<SinkCall>, name: NamespacedName) {
    if calls == [] then true
    else if Settles(calls[|calls| - 1], name) then AllOpened(calls[|calls| - 1])
    else LatestSucceeded(calls[..|calls| - 1], name)
  }

  /** The call decides on all portals of the service, whatever they were. */
  predicate Settles(call: SinkCall, name: NamespacedName) {
    match call
    case SetService(service, _) => IsCalled(service, name)
    case DeleteService(n) => n == name
    case _ => false
  }

  predicate SameListenPort(a: Option<Listener>, b: Option<Listener>) {
    if a.None? || b.None? then a == b else a.value.port == b.value.port
  }

  /** The portals of one service are exactly those its latest version asks for, on their ports. */
  ghost predicate PortalsExact(st: SinkState, name: NamespacedName)
    requires Recorded(st.records)
  {
    var table := if name in st.records then PortalTable(st.records[name].service) else map[];
    forall k: PortalName :: k.service == name ==> SameListenPort(Get(st.portals, k), Get(table, k))
  }

  /** No port of the service's latest version, if there is one, overrides another. */
  ghost predicate PortsDistinct(st: SinkState, name: NamespacedName) {
    name in st.records ==> UniquePortNames(st.records[name].service.ports)
  }

  /** After a SetService, all portals the service may have are exact once those it asks for are. */
  lemma ExactOnceAllSet(service: Service, portals: Portals)
    requires HasClusterIP(service)
    requires forall k :: k in portals && k.service == NameOf(service) ==> k in PortalTable(service)
    ensures AllSet(PortalTable(service), portals) <==> forall k: PortalName ::
      k.service == NameOf(service) ==> SameListenPort(Get(portals, k), Get(PortalTable(service), k))
  {
    var table := PortalTable(service);
    TableOfService(service);
    if AllSet(table, portals) {
      forall k: PortalName | k.service == NameOf(service) ensures SameListenPort(Get(portals, k), Get(table, k)) {
        assert k in table ==> OnPort(Get(portals, k), table[k].port);
      }
    } else {
      var k: PortalName :| k in table && !OnPort(Get(portals, k), table[k].port);
      assert k.service == NameOf(service) && !SameListenPort(Get(portals, k), Get(table, k));
    }
  }

  /** After a SetService in which every portal could be opened, the service has exactly the portals
      it asks for, with the right listen ports; if no port overrides another, only then. */
  lemma SetServiceExact(st: SinkState, service: Service, succeeded: bool, st': SinkState)
    requires Recorded(st.records) && PortalsAskedFor(st)
    requires HasClusterIP(service) && ServiceSet(st, service, succeeded, st')
    ensures Recorded(st'.records)
    ensures succeeded ==> PortalsExact(st', NameOf(service))
    ensures UniquePortNames(service.ports) ==> (PortalsExact(st', NameOf(service)) <==> succeeded)
  {
    WithServiceRecords(st.records, service);
    PortalsAfterSetService(st, service, succeeded, st');
    assert succeeded ==> AllSet(PortalTable(service), st'.portals);
    ExactOnceAllSet(service, st'.portals);
  }

  lemma SettledStep(st: SinkState, call: SinkCall, st': SinkState, name: NamespacedName)
    requires Invariant(st) && Callable(st.records, call) && Step(st, call, st') && Settles(call, name)
    ensures Recorded(st'.records)
    ensures AllOpened(call) ==> PortalsExact(st', name)
    ensures PortsDistinct(st', name) ==> (PortalsExact(st', name) <==> AllOpened(call))
  {
    match call
    case SetService(service, succeeded) => SetServiceExact(st, service, succeeded, st');
    case DeleteService(deleted) => DeleteServiceKeepsPortals(st, deleted, st');
  }

  /** What a call that does not settle the portals of a service leaves as it was. */
  ghost predicate Unsettled(st: SinkState, st': SinkState, name: NamespacedName) {
    && (name in st'.records <==> name in st.records)
    && (name in st.records ==> st'.records[name].service == st.records[name].service)
    && (forall k: PortalName :: k.service == name ==> Get(st'.portals, k) == Get(st.portals, k))
  }

  lemma UnsettledStep(st: SinkState, call: SinkCall, st': SinkState, name: NamespacedName)
    requires Invariant(st) && Callable(st.records, call) && Step(st, call, st') && !Settles(call, name)
    ensures Unsettled(st, st', name)
  {
    match call
    case SetService(service, succeeded) => PortalsAfterSetService(st, service, succeeded, st');
    case DeleteService(deleted) => DeleteServiceKeepsPortals(st, deleted, st');
    case SetEndpoint(_, endpoint) =>
    case DeleteEndpoint(_) =>
    case Serve(_) =>
  }

  /** Once every portal could be opened in its latest SetService, a live service has exactly the
      portals it asks for, with the right listen ports; if no port of it overrides another, only
      then. A service that is gone has none. */
  lemma PortalsOfLiveServices(states: seq<SinkState>, calls: seq<SinkCall>, i: nat, name: NamespacedName)
    requires IsRun(states, calls) && i <= |calls|
    ensures Recorded(states[i].records)
    ensures LatestSucceeded(calls[..i], name) ==> PortalsExact(states[i], name)
    ensures PortsDistinct(states[i], name) ==> (PortalsExact(states[i], name) <==> LatestSucceeded(calls[..i], name))
  {
    LatestTellsExact(states, calls, i, name);
  }

  lemma {:induction false} LatestTellsExact(states: seq<SinkState>, calls: seq<SinkCall>, i: nat,
                                            name: NamespacedName)
    requires IsRun(states, calls) && i <= |calls|
    ensures Invariant(states[i]) && TellsExact(states[i], name, LatestSucceeded(calls[..i], name))
  {
    InvariantInEveryRun(states, calls, i);
    if i > 0 {
      LatestTellsExact(states, calls, i - 1, name);
      StepTellsExact(states[i - 1], calls[i - 1], states[i], name, LatestSucceeded(calls[..i - 1], name));
      LatestOneMore(calls, i, name);
    }
  }

  lemma LatestOneMore(calls: seq<SinkCall>, i: nat, name: NamespacedName)
    requires 0 < i <= |calls|
    ensures LatestSucceeded(calls[..i], name) ==
      if Settles(calls[i - 1], name) then AllOpened(calls[i - 1]) else LatestSucceeded(calls[..i - 1], name)
  {
    assert calls[..i][..i - 1] == calls[..i - 1];
  }

  /** A flag that tells whether the portals of a service are exact. */
  ghost predicate TellsExact(st: SinkState, name: NamespacedName, flag: bool)
    requires Recorded(st.records)
  {
    (flag ==> PortalsExact(st, name)) && (PortsDistinct(st, name) && PortalsExact(st, name) ==> flag)
  }

  lemma StepTellsExact(st: SinkState, call: SinkCall, st': SinkState, name: NamespacedName, flag: bool)
    requires Invariant(st) && Callable(st.records, call) && Step(st, call, st') && Recorded(st'.records)
    requires TellsExact(st, name, flag)
    ensures TellsExact(st', name, if Settles(call, name) then AllOpened(call) else flag)
  {
    if Settles(call, name) {
      SettledStep(st, call, st', name);
    } else {
      UnsettledStep(st, call, st', name);
    }
  }

  lemma {:induction false} LatestOfSucceeded(calls: seq<SinkCall>, name: NamespacedName)
    requires forall i :: 0 <= i < |calls| ==> AllOpened(calls[i])
    ensures LatestSucceeded(calls, name)
  {
    if calls != [] {
      LatestOfSucceeded(calls[..|calls| - 1], name);
    }
  }

  /** Whatever calls a new backend is given: a service ends up with exactly the portals it asks for
      once every portal could be opened in its latest SetService, and all services do if nothing
      was added to the log of portals that failed to open. */
  method DrivePortals(backend: Backend, requests: seq<SinkCall>) returns (ghost calls: seq<SinkCall>)
    requires backend.Valid() && backend.State() == INITIAL && CallableInTurn(requests)
    modifies backend, backend.Repr, backend.proxier, backend.proxier.Repr
    modifies backend.proxier.loadBalancer, backend.proxier.loadBalancer.Repr
    ensures backend.Valid() && Invariant(backend.State())
    ensures |calls| == |requests| && forall i :: 0 <= i < |calls| ==> SameCall(requests[i], calls[i])
    ensures backend.proxier.failed == old(backend.proxier.failed) <==>
      forall i :: 0 <= i < |calls| ==> AllOpened(calls[i])
    ensures forall name :: LatestSucceeded(calls, name) ==> PortalsExact(backend.State(), name)
    ensures forall name :: PortsDistinct(backend.State(), name) && PortalsExact(backend.State(), name) ==>
      LatestSucceeded(calls, name)
    ensures backend.proxier.failed == old(backend.proxier.failed) ==>
      forall name :: PortalsExact(backend.State(), name)
  {
    ghost var states, logs;
    states, calls, logs := Drive(backend, requests);
    LogTellsFailures(logs, calls);
    ExactAtEnd(states, calls);
  }

  lemma ExactAtEnd(states: seq<SinkState>, calls: seq<SinkCall>)
    requires IsRun(states, calls)
    ensures Recorded(states[|calls|].records)
    ensures forall name :: LatestSucceeded(calls, name) ==> PortalsExact(states[|calls|], name)
    ensures forall name :: PortsDistinct(states[|calls|], name) && PortalsExact(states[|calls|], name) ==>
      LatestSucceeded(calls, name)
    ensures (forall i :: 0 <= i < |calls| ==> AllOpened(calls[i])) ==>
      forall name :: PortalsExact(states[|calls|], name)
  {
    InvariantInEveryRun(states, calls, |calls|);
    assert calls[..|calls|] == calls;
    forall name
      ensures LatestSucceeded(calls, name) ==> PortalsExact(states[|calls|], name)
      ensures PortsDistinct(states[|calls|], name) && PortalsExact(states[|calls|], name) ==>
        LatestSucceeded(calls, name)
      ensures (forall i :: 0 <= i < |calls| ==> AllOpened(calls[i])) ==> PortalsExact(states[|calls|], name)
    {
      PortalsOfLiveServices(states, calls, |calls|, name);
      if forall i :: 0 <= i < |calls| ==> AllOpened(calls[i]) {
        LatestOfSucceeded(calls, name);
      }
    }
  }

  /** SetService records the service under its own namespace and name, and nothing under another
      namespace or name changes. */
  lemma SetServiceStaysInName(st: SinkState, service: Service, succeeded: bool, st': SinkState, other: NamespacedName)
    requires Invariant(st) && HasClusterIP(service) && ServiceSet(st, service, succeeded, st')
    ensures var name := NamespacedName(service.namespace, service.name);
      name in st'.records && st'.records[name].service == service
    ensures other.namespace != service.namespace || other.name != service.name ==>
      && Get(st'.records, other) == Get(st.records, other)
      && (forall k: PortalName :: k.service == other ==> Get(st'.portals, k) == Get(st.portals, k))
      && (forall k: ServicePortName :: k.service == other ==> Get(st'.balancer, k) == Get(st.balancer, k))
  {
    PortalsAfterSetService(st, service, succeeded, st');
    forall k: ServicePortName | k.service == other && other != NameOf(service)
      ensures Get(st'.balancer, k) == Get(st.balancer, k)
    {
      ServiceUpdateKeepsLists(st, service, k);
    }
  }

  /** Some port of the service asks for the portal with this listener. */
  ghost predicate OfferedByPort(service: Service, k: PortalName, listener: Listener) {
    HasClusterIP(service) && exists i ::
      0 <= i < |service.ports| && AsksThrough(service, service.ports[i], k)
      && IsListenerFor(service.ports[i], k, listener)
  }

  lemma {:induction false} OfferedBySomePort(service: Service, n: nat, k: PortalName, listener: Listener)
    requires HasClusterIP(service) && n <= |service.ports| && (k, listener) in OffersOfFirst(service, n)
    ensures OfferedByPort(service, k, listener)
  {
    var port := service.ports[n - 1];
    if (k, listener) in OffersOfFirst(service, n - 1) {
      OfferedBySomePort(service, n - 1, k, listener);
    } else {
      TableLookup(NameOf(service), port, IPsOfPort(service, port), k);
      assert Get(TableOfPort(service, port), k) == Some(listener);
      assert AsksThrough(service, port, k) && IsListenerFor(port, k, listener);
    }
  }

  /** A version of the service, set before position i, asks for this portal with this listener. */
  ghost predicate WasOffered(calls: seq<SinkCall>, i: nat, k: PortalName, listener: Listener)
    requires i <= |calls|
  {
    exists j :: 0 <= j < i && calls[j].SetService? && OfferedByPort(calls[j].service, k, listener)
  }

  /** Whatever portals fail to open, a mapped portal listens on a port, and with the protocol, that some
      version of its service asked for it. */
  lemma {:induction false} PortalPortsWereOffered(states: seq<SinkState>, calls: seq<SinkCall>, i: nat, k: PortalName)
    requires IsRun(states, calls) && i <= |calls| && k in states[i].portals
    ensures WasOffered(calls, i, k, states[i].portals[k])
  {
    InvariantInEveryRun(states, calls, i - 1);
    PortalSetByStep(states[i - 1], calls[i - 1], states[i], k);
    if Get(states[i - 1].portals, k) == Some(states[i].portals[k]) {
      PortalPortsWereOffered(states, calls, i - 1, k);
    } else {
      var service := calls[i - 1].service;
      OfferedBySomePort(service, |service.ports|, k, states[i].portals[k]);
    }
  }

  lemma PortalSetByStep(st: SinkState, call: SinkCall, st': SinkState, k: PortalName)
    requires Recorded(st.records) && PortalsAskedFor(st) && Callable(st.records, call) && Step(st, call, st')
    requires k in st'.portals
    ensures
      || Get(st.portals, k) == Some(st'.portals[k])
      || (call.SetService? && (k, st'.portals[k]) in OffersOf(call.service))
  {
    match call
    case SetService(service, succeeded) => PortalsAfterSetService(st, service, succeeded, st');
    case _ =>
  }

  lemma OnlyOffer(service: Service, k: PortalName, listener: Listener)
    requires UniquePortNames(service.ports) && OfferedByPort(service, k, listener)
    ensures Get(PortalTable(service), k) == Some(listener)
  {
    PortalTableMeaning(service, k);
    var i :| 0 <= i < |service.ports| && AsksThrough(service, service.ports[i], k)
      && IsListenerFor(service.ports[i], k, listener);
    assert AsksLast(service, |service.ports|, i, k);
  }

  /** If no port overrides another: a portal that is on the asked-for port already keeps its protocol,
      whatever the new version says; any other that opens gets the protocol of its port. */
  lemma SetServiceProtocol(st: SinkState, service: Service, succeeded: bool, st': SinkState, k: PortalName)
    requires Invariant(st) && HasClusterIP(service) && ServiceSet(st, service, succeeded, st')
    requires UniquePortNames(service.ports) && k in PortalTable(service)
    ensures OnPort(Get(st.portals, k), PortalTable(service)[k].port) ==> Get(st'.portals, k) == Get(st.portals, k)
    ensures !OnPort(Get(st.portals, k), PortalTable(service)[k].port) && succeeded ==>
      Get(st'.portals, k) == Some(PortalTable(service)[k])
  {
    PortalsAfterSetService(st, service, succeeded, st');
    if !OnPort(Get(st.portals, k), PortalTable(service)[k].port) && succeeded {
      assert OnPort(Get(st'.portals, k), PortalTable(service)[k].port);
      OfferedBySomePort(service, |service.ports|, k, st'.portals[k]);
      OnlyOffer(service, k, st'.portals[k]);
    }
  }

  /** A service is set, and set again with another protocol for its only port. */
  function ProtocolCalls(service: Service, protocol: Protocol): seq<SinkCall>
    requires |service.ports| == 1
  {
    [SetService(service, true), SetService(service.(ports := [service.ports[0].(protocol := protocol)]), true)]
  }

  /** There is such a run, and at its end the portal on the cluster IP still has the old protocol. */
  lemma StaleProtocolRun(service: Service, protocol: Protocol) returns (states: seq<SinkState>)
    requires HasClusterIP(service) && |service.ports| == 1 && protocol != service.ports[0].protocol
    requires service.clusterV4[0] != ""
    ensures IsRun(states, ProtocolCalls(service, protocol))
    ensures var k := PortalName(NameOf(service), service.ports[0].name, service.clusterV4[0]);
      Get(states[2].portals, k) == Some(Listener(service.ports[0].port, service.ports[0].protocol))
  {
    var calls := ProtocolCalls(service, protocol);
    ProtocolCallable(service, protocol);
    var made;
    states, made := SomeRun(calls);
    assert made == calls;
    var k := PortalName(NameOf(service), service.ports[0].name, service.clusterV4[0]);
    InvariantInEveryRun(states, calls, 1);
    assert Taken(states[0], calls[0], states[1]) && Taken(states[1], calls[1], states[2]);
    OnlyPortal(calls[0].service, k);
    OnlyPortal(calls[1].service, k);
    SetServiceProtocol(states[0], calls[0].service, true, states[1], k);
    SetServiceProtocol(states[1], calls[1].service, true, states[2], k);
  }

  lemma ProtocolCallable(service: Service, protocol: Protocol)
    requires HasClusterIP(service) && |service.ports| == 1
    ensures CallableInTurn(ProtocolCalls(service, protocol))
  {
  }

  lemma OnlyPortal(service: Service, k: PortalName)
    requires HasClusterIP(service) && |service.ports| == 1
    requires k == PortalName(NameOf(service), service.ports[0].name, service.clusterV4[0]) && k.ip != ""
    ensures UniquePortNames(service.ports)
    ensures Get(PortalTable(service), k) == Some(Listener(service.ports[0].port, service.ports[0].protocol))
  {
    PortalTableMeaning(service, k);
    assert AsksLast(service, 1, 0, k);
  }

  // ----- the load balancer -----

  /** Whether the list of a port holds the addresses of the endpoint object, in some order. */
  ghost predicate Holds(st: SinkState, name: NamespacedName, endpoint: Endpoint, port: string)
    requires name in st.records && ServicePortName(name, port) in st.balancer
  {
    multiset(st.balancer[ServicePortName(name, port)].endpoints) == multiset(ListFor(PortMap(endpoint,
      st.records[name].service), port))
  }

  /** SetEndpoint replaces the lists of a service by the addresses of the new object exactly when
      that object has an address, or the first object ever set had one, or there is nothing to
      clear: what to clear is looked up in the first object, which the backend never replaces. */
  lemma SetEndpointReplaces(st: SinkState, name: NamespacedName, endpoint: Endpoint, st': SinkState, port: string)
    requires Invariant(st) && name in st.records && EndpointSet(st, name, endpoint, st')
    requires port in PortNames(st.records[name].service)
    ensures name in st'.records && st'.records[name].service == st.records[name].service
    ensures ServicePortName(name, port) in st.balancer && ServicePortName(name, port) in st'.balancer
    ensures Holds(st', name, endpoint, port) <==>
      || endpoint.v4 != []
      || (st.records[name].endpoint.Some? && st.records[name].endpoint.value.v4 != [])
      || st.balancer[ServicePortName(name, port)].endpoints == []
  {
    var record := st.records[name];
    BalancerSetKeepsKeys(st, name, endpoint, st'.balancer);
    assert ServicePortName(name, port) in st.balancer;
    BalancerSetHolds(st.balancer, record, endpoint, st'.balancer, port);
  }

  lemma BalancerSetHolds(before: Table, record: Record, endpoint: Endpoint, after: Table, port: string)
    requires BalancerSet(before, record, endpoint, after) && port in PortNames(record.service)
    requires ServicePortName(NameOf(record.service), port) in before
    requires ServicePortName(NameOf(record.service), port) in after
    requires record.endpoint.None? ==> before[ServicePortName(NameOf(record.service), port)] == EMPTY
    ensures multiset(after[ServicePortName(NameOf(record.service),
      port)].endpoints) == multiset(ListFor(PortMap(endpoint, record.service), port)) <==>
      || endpoint.v4 != []
      || (record.endpoint.Some? && record.endpoint.value.v4 != [])
      || before[ServicePortName(NameOf(record.service), port)].endpoints == []
  {
  }

  /** DeleteEndpoint empties the lists exactly when the first object had an address or there was
      nothing to empty. */
  lemma DeleteEndpointEmpties(st: SinkState, name: NamespacedName, st': SinkState, port: string)
    requires Invariant(st) && Callable(st.records, DeleteEndpoint(name)) && Step(st, DeleteEndpoint(name), st')
    requires name in st.records && port in PortNames(st.records[name].service)
    ensures ServicePortName(name, port) in st.balancer && ServicePortName(name, port) in st'.balancer
    ensures st'.balancer[ServicePortName(name, port)].endpoints == [] <==>
      st.records[name].endpoint.value.v4 != [] || st.balancer[ServicePortName(name, port)].endpoints == []
  {
  }

  /** The latest call about a name that can change the lists of its ports. */
  function LatestCall(calls: seq<SinkCall>, name: NamespacedName): Option<SinkCall> {
    if calls == [] then None
    else
      var call := calls[|calls| - 1];
      if Concerns(call, name) then Some(call) else LatestCall(calls[..|calls| - 1], name)
  }

  predicate Concerns(call: SinkCall, name: NamespacedName) {
    match call
    case SetService(service, _) => IsCalled(service, name)
    case DeleteService(n) => n == name
    case SetEndpoint(n, _) => n == name
    case DeleteEndpoint(n) => n == name
    case Serve(_) => false
  }

  /** The record of a service and the lists of its ports, as one call may leave them. */
  ghost predicate Unconcerned(st: SinkState, st': SinkState, k: ServicePortName) {
    && Get(st'.records, k.service) == Get(st.records, k.service)
    && (k in st'.balancer <==> k in st.balancer)
    && (k in st.balancer ==> st'.balancer[k].endpoints == st.balancer[k].endpoints)
  }

  lemma DeleteServiceElsewhere(st: SinkState, deleted: NamespacedName, st': SinkState, k: ServicePortName)
    requires Recorded(st.records) && Step(st, DeleteService(deleted), st') && k.service != deleted
    ensures Unconcerned(st, st', k)
  {
  }

  lemma BalancerCallElsewhere(st: SinkState, call: SinkCall, st': SinkState, k: ServicePortName)
    requires Recorded(st.records) && Callable(st.records, call) && Step(st, call, st')
    requires call.DeleteEndpoint? || call.Serve?
    requires !Concerns(call, k.service)
    ensures Unconcerned(st, st', k)
  {
  }

  lemma SetServiceElsewhere(st: SinkState, service: Service, st': SinkState, k: ServicePortName)
    requires Recorded(st.records) && BalancerAgrees(st) && k.service != NameOf(service)
    requires st'.records == WithService(st.records, service)
    requires st'.balancer == EntriesAfterSet(st.records, st.balancer, service)
    ensures Unconcerned(st, st', k)
  {
    ServiceUpdateKeepsLists(st, service, k);
  }

  lemma SetEndpointElsewhere(st: SinkState, name: NamespacedName, endpoint: Endpoint, st': SinkState,
                             k: ServicePortName)
    requires Recorded(st.records) && BalancerAgrees(st) && name in st.records && EndpointSet(st, name, endpoint, st')
      && k.service != name
    ensures Unconcerned(st, st', k)
  {
    BalancerSetKeepsKeys(st, name, endpoint, st'.balancer);
  }

  lemma UnconcernedStep(st: SinkState, call: SinkCall, st': SinkState, k: ServicePortName)
    requires Invariant(st) && Callable(st.records, call) && Step(st, call, st') && !Concerns(call, k.service)
    ensures Unconcerned(st, st', k)
  {
    match call
    case SetService(service, succeeded) => SetServiceElsewhere(st, service, st', k);
    case DeleteService(deleted) => DeleteServiceElsewhere(st, deleted, st', k);
    case SetEndpoint(n, endpoint) => SetEndpointElsewhere(st, n, endpoint, st', k);
    case DeleteEndpoint(_) => BalancerCallElsewhere(st, call, st', k);
    case Serve(_) => BalancerCallElsewhere(st, call, st', k);
  }

  /** While the latest call about a service is a SetEndpoint whose object has an address, every
      port of the service is served from exactly that object's addresses, in some order. */
  lemma {:induction false} ServedFromLatestEndpoint(states: seq<SinkState>, calls: seq<SinkCall>, i: nat,
                                                    name: NamespacedName, endpoint: Endpoint, port: string)
    requires IsRun(states, calls) && i <= |calls| && LatestCall(calls[..i], name) == Some(SetEndpoint(name, endpoint))
    requires endpoint.v4 != []
    ensures name in states[i].records
    ensures port in PortNames(states[i].records[name].service) ==>
      ServicePortName(name, port) in states[i].balancer && Holds(states[i], name, endpoint, port)
  {
    var st, call := states[i - 1], calls[i - 1];
    assert calls[..i][..i - 1] == calls[..i - 1];
    InvariantInEveryRun(states, calls, i - 1);
    if Concerns(call, name) {
      assert EndpointSet(st, name, endpoint, states[i]);
      if port in PortNames(st.records[name].service) {
        SetEndpointReplaces(st, name, endpoint, states[i], port);
      }
      assert name in states[i].records && states[i].records[name].service == st.records[name].service;
    } else {
      ServedFromLatestEndpoint(states, calls, i - 1, name, endpoint, port);
      UnconcernedStep(st, call, states[i], ServicePortName(name, port));
      assert Get(states[i].records, name) == Get(st.records, name);
    }
  }

  /** A proxied connection is then sent to one of those addresses. */
  lemma ConnectionsReachLatestEndpoint(states: seq<SinkState>, calls: seq<SinkCall>, i: nat, name: NamespacedName,
                                       endpoint: Endpoint, port: string)
    requires IsRun(states, calls) && i <= |calls| && LatestCall(calls[..i], name) == Some(SetEndpoint(name, endpoint))
    requires endpoint.v4 != []
    ensures name in states[i].records
    ensures port in PortNames(states[i].records[name].service) ==>
      var answer := Upcoming(states[i].balancer, ServicePortName(name, port));
      answer.Next? && answer.endpoint in Addresses(endpoint.v4, states[i].records[name].service.ports, port)
  {
    ServedFromLatestEndpoint(states, calls, i, name, endpoint, port);
    InvariantInEveryRun(states, calls, i);
    var service := states[i].records[name].service;
    if port in PortNames(service) {
      ServedFromList(states[i].balancer[ServicePortName(name, port)], service, endpoint, port);
    }
  }

  lemma ServedFromList(entry: Entry, service: Service, endpoint: Endpoint, port: string)
    requires entry.Valid() && endpoint.v4 != [] && port in PortNames(service)
    requires multiset(entry.endpoints) == multiset(ListFor(PortMap(endpoint, service), port))
    ensures entry.endpoints != [] && entry.endpoints[entry.index] in Addresses(endpoint.v4, service.ports, port)
  {
    PortMapLists(endpoint, service);
    var addresses := Addresses(endpoint.v4, service.ports, port);
    assert ListFor(PortMap(endpoint, service), port) == addresses != [];
    assert |multiset(entry.endpoints)| == |multiset(addresses)|;
    assert entry.endpoints[entry.index] in multiset(addresses);
  }

  /** A service update does not look at addresses. A list that held the addresses of an endpoint
      object still does exactly when the new version gives the port the same ones, in some order;
      a new port name is served from nothing until the next SetEndpoint. */
  lemma SetServiceKeepsAddresses(st: SinkState, service: Service, st': SinkState, endpoint: Endpoint, port: string)
    requires Recorded(st.records) && BalancerAgrees(st) && NameOf(service) in st.records && port in PortNames(service)
    requires st'.records == WithService(st.records, service)
    requires st'.balancer == EntriesAfterSet(st.records, st.balancer, service)
    ensures var name := NameOf(service);
      var before := st.records[name].service;
      && ServicePortName(name, port) in st'.balancer
      && (port !in PortNames(before) ==> st'.balancer[ServicePortName(name, port)] == EMPTY)
      && (port in PortNames(before) ==>
            && ServicePortName(name, port) in st.balancer
            && (Holds(st, name, endpoint, port) ==>
                  (Holds(st', name, endpoint, port) <==>
                   multiset(Addresses(endpoint.v4, before.ports, port)) ==
                     multiset(Addresses(endpoint.v4, service.ports, port)))))
  {
    ServiceUpdateKeepsLists(st, service, ServicePortName(NameOf(service), port));
  }

  /** The endpoint strings of some addresses with one port number. */
  function EndpointStrings(ips: seq<string>, port: int): seq<string> {
    if ips == [] then [] else EndpointStrings(ips[..|ips| - 1], port) + [EndpointString(ips[|ips| - 1], port)]
  }

  lemma {:induction false} AddressesOfUniquePort(ip: string, ports: seq<PortMapping>, i: nat)
    requires UniquePortNames(ports) && i < |ports|
    ensures AddressesOfIP(ip, ports, ports[i].name) == [EndpointString(ip, ports[i].port)]
  {
    var init := ports[..|ports| - 1];
    if i < |init| {
      AddressesOfUniquePort(ip, init, i);
    } else {
      NoAddressesOfIP(ip, init, ports[i].name);
    }
  }

  lemma {:induction false} NoAddressesOfIP(ip: string, ports: seq<PortMapping>, name: string)
    requires forall i :: 0 <= i < |ports| ==> ports[i].name != name
    ensures AddressesOfIP(ip, ports, name) == []
  {
    if ports != [] {
      NoAddressesOfIP(ip, ports[..|ports| - 1], name);
    }
  }

  lemma {:induction false} EndpointStringsAt(ips: seq<string>, port: int, i: nat)
    requires i < |ips|
    ensures |EndpointStrings(ips, port)| == |ips| && EndpointStrings(ips, port)[i] == EndpointString(ips[i], port)
  {
    var n := |ips| - 1;
    if i < n {
      EndpointStringsAt(ips[..n], port, i);
    } else if n > 0 {
      EndpointStringsAt(ips[..n], port, n - 1);
    }
  }

  /** For a port name that no other port has, the list is one string per address, in order. */
  lemma UniquePortAddresses(ips: seq<string>, ports: seq<PortMapping>, i: nat, j: nat)
    requires UniquePortNames(ports) && i < |ports| && j < |ips|
    ensures |Addresses(ips, ports, ports[i].name)| == |ips|
    ensures Addresses(ips, ports, ports[i].name)[j] == EndpointString(ips[j], ports[i].port)
  {
    AddressesOfUnique(ips, ports, i);
    EndpointStringsAt(ips, ports[i].port, j);
  }

  lemma {:induction false} AddressesOfUnique(ips: seq<string>, ports: seq<PortMapping>, i: nat)
    requires UniquePortNames(ports) && i < |ports|
    ensures Addresses(ips, ports, ports[i].name) == EndpointStrings(ips, ports[i].port)
  {
    if ips != [] {
      AddressesOfUnique(ips[..|ips| - 1], ports, i);
      AddressesOfUniquePort(ips[|ips| - 1], ports, i);
    }
  }

  lemma {:induction false} OnePortInStrings(ips: seq<string>, port: int, s: string) returns (ip: string)
    requires s in EndpointStrings(ips, port)
    ensures s == EndpointString(ip, port)
  {
    ip := ips[|ips| - 1];
    if s != EndpointString(ip, port) {
      ip := OnePortInStrings(ips[..|ips| - 1], port, s);
    }
  }

  lemma SameStringsSamePort(ips: seq<string>, port1: int, port2: int)
    requires InInt(port1) && InInt(port2) && ips != []
    ensures multiset(EndpointStrings(ips, port1)) == multiset(EndpointStrings(ips, port2)) <==> port1 == port2
  {
    if multiset(EndpointStrings(ips, port1)) == multiset(EndpointStrings(ips, port2)) {
      var last := ips[|ips| - 1];
      var s := EndpointString(last, port1);
      assert s in multiset(EndpointStrings(ips, port1));
      var ip := OnePortInStrings(ips, port2, s);
      EndpointStringInjective(last, port1, ip, port2);
    }
  }

  /** A list of a port name that no other port has, and that held the addresses of an endpoint
      object, still does after a service update exactly when the object has no address or the port
      kept its number. */
  lemma SetServiceKeepsPorts(st: SinkState, service: Service, st': SinkState, endpoint: Endpoint, i: nat, j: nat)
    requires Recorded(st.records) && BalancerAgrees(st) && NameOf(service) in st.records
    requires st'.records == WithService(st.records, service)
    requires st'.balancer == EntriesAfterSet(st.records, st.balancer, service)
    requires var before := st.records[NameOf(service)].service;
      && UniquePortNames(before.ports) && UniquePortNames(service.ports)
      && i < |before.ports| && j < |service.ports| && before.ports[i].name == service.ports[j].name
      && InInt(before.ports[i].port) && InInt(service.ports[j].port)
    ensures var name, port := NameOf(service), service.ports[j];
      && ServicePortName(name, port.name) in st.balancer && ServicePortName(name, port.name) in st'.balancer
      && (Holds(st, name, endpoint, port.name) ==>
            (Holds(st', name, endpoint, port.name) <==>
             endpoint.v4 == [] || st.records[name].service.ports[i].port == port.port))
  {
    var before := st.records[NameOf(service)].service;
    assert before.ports[i].name in PortNames(before) && service.ports[j].name in PortNames(service);
    SetServiceKeepsAddresses(st, service, st', endpoint, service.ports[j].name);
    AddressesOfUnique(endpoint.v4, before.ports, i);
    AddressesOfUnique(endpoint.v4, service.ports, j);
    if endpoint.v4 != [] {
      SameStringsSamePort(endpoint.v4, before.ports[i].port, service.ports[j].port);
    }
  }

  // ----- runs that leave stale addresses -----

  /** The first object has no address, the second has one, the third none again. */
  function StaleCalls(service: Service, ip: string): seq<SinkCall> {
    var name := NameOf(service);
    [SetService(service, true), SetEndpoint(name, Endpoint([])), SetEndpoint(name, Endpoint([ip])),
     SetEndpoint(name, Endpoint([]))]
  }

  lemma StaleCallsCallable(service: Service, ip: string)
    requires HasClusterIP(service)
    ensures CallableInTurn(StaleCalls(service, ip))
  {
    var calls := StaleCalls(service, ip);
    assert calls[..1] == [calls[0]] && calls[..2][..1] == calls[..1] && calls[..3][..2] == calls[..2];
    assert RecordsAfter([]) == map[];
    assert NameOf(service) in RecordsAfter(calls[..1]);
    assert NameOf(service) in RecordsAfter(calls[..2]);
    assert NameOf(service) in RecordsAfter(calls[..3]);
  }

  /** There is such a run, and at its end the second object's address is still in the list. */
  lemma StaleListRun(service: Service, ip: string) returns (states: seq<SinkState>)
    requires HasClusterIP(service) && |service.ports| == 1
    ensures IsRun(states, StaleCalls(service, ip))
    ensures var k := ServicePortName(NameOf(service), service.ports[0].name);
      k in states[4].balancer && states[4].balancer[k].endpoints == [EndpointString(ip, service.ports[0].port)]
  {
    StaleCallsCallable(service, ip);
    var calls;
    states, calls := SomeRun(StaleCalls(service, ip));
    assert calls == StaleCalls(service, ip);
    StaleListAtEnd(states, service, ip);
  }

  lemma StaleListAtEnd(states: seq<SinkState>, service: Service, ip: string)
    requires HasClusterIP(service) && |service.ports| == 1 && IsRun(states, StaleCalls(service, ip))
    ensures var k := ServicePortName(NameOf(service), service.ports[0].name);
      k in states[4].balancer && states[4].balancer[k].endpoints == [EndpointString(ip, service.ports[0].port)]
  {
    var name, port, calls := NameOf(service), service.ports[0], StaleCalls(service, ip);
    var k := ServicePortName(name, port.name);
    assert port.name in PortNames(service);
    StaleListRecords(states, service, ip);
    InvariantInEveryRun(states, calls, 2);
    InvariantInEveryRun(states, calls, 3);
    assert Step(states[2], calls[2], states[3]) && Step(states[3], calls[3], states[4]);
    SetEndpointReplaces(states[2], name, Endpoint([ip]), states[3], port.name);
    OneAddress(service, ip);
    Singleton(states[3].balancer[k].endpoints, EndpointString(ip, port.port));
    assert k !in NamesIn(name, PortMap(Endpoint([]), service).Keys);
  }

  lemma StaleListRecords(states: seq<SinkState>, service: Service, ip: string)
    requires HasClusterIP(service) && IsRun(states, StaleCalls(service, ip))
    ensures states[2].records == states[3].records == map[NameOf(service) := Record(service, Some(Endpoint([])))]
  {
    var calls := StaleCalls(service, ip);
    assert Step(states[0], calls[0], states[1]);
    assert Step(states[1], calls[1], states[2]);
    assert Step(states[2], calls[2], states[3]);
  }

  lemma OneAddress(service: Service, ip: string)
    requires |service.ports| == 1
    ensures ListFor(PortMap(Endpoint([ip]), service), service.ports[0].name) ==
      [EndpointString(ip, service.ports[0].port)]
  {
    var port := service.ports[0];
    assert port.name in PortNames(service);
    assert [ip][..0] == [] && service.ports[..0] == [];
    assert Addresses([], service.ports, port.name) == [];
    assert AddressesOfIP(ip, [], port.name) == [];
  }

  lemma Singleton(list: seq<string>, x: string)
    requires multiset(list) == multiset([x])
    ensures list == [x]
  {
  }

  /** The endpoint object is set for one port number, which the next version then changes. */
  function RenumberingCalls(service: Service, port: int, ip: string): seq<SinkCall>
    requires |service.ports| == 1
  {
    [SetService(service, true), SetEndpoint(NameOf(service), Endpoint([ip])),
     SetService(Renumbered(service, port), true)]
  }

  function Renumbered(service: Service, port: int): Service
    requires |service.ports| == 1
  {
    service.(ports := [service.ports[0].(port := port)])
  }

  /** There is such a run, and at its end the list holds the address with the old port number. */
  lemma StalePortRun(service: Service, port: int, ip: string) returns (states: seq<SinkState>)
    requires HasClusterIP(service) && |service.ports| == 1
    requires InInt(service.ports[0].port) && InInt(port) && port != service.ports[0].port
    ensures IsRun(states, RenumberingCalls(service, port, ip))
    ensures var name := NameOf(service);
      var k := ServicePortName(name, service.ports[0].name);
      && name in states[3].records && states[3].records[name].service == Renumbered(service, port)
      && k in states[3].balancer && states[3].balancer[k].endpoints == [EndpointString(ip, service.ports[0].port)]
      && !Holds(states[3], name, Endpoint([ip]), service.ports[0].name)
  {
    RenumberingCallable(service, port, ip);
    var calls;
    states, calls := SomeRun(RenumberingCalls(service, port, ip));
    assert calls == RenumberingCalls(service, port, ip);
    StalePortAtEnd(states, service, port, ip);
  }

  lemma RenumberingCallable(service: Service, port: int, ip: string)
    requires HasClusterIP(service) && |service.ports| == 1
    ensures CallableInTurn(RenumberingCalls(service, port, ip))
  {
    var calls := RenumberingCalls(service, port, ip);
    assert calls[..1] == [calls[0]];
    assert RecordsAfter([]) == map[];
    assert NameOf(service) in RecordsAfter(calls[..1]);
  }

  lemma StalePortAtEnd(states: seq<SinkState>, service: Service, port: int, ip: string)
    requires HasClusterIP(service) && |service.ports| == 1
    requires InInt(service.ports[0].port) && InInt(port) && port != service.ports[0].port
    requires IsRun(states, RenumberingCalls(service, port, ip))
    ensures var name := NameOf(service);
      var k := ServicePortName(name, service.ports[0].name);
      && name in states[3].records && states[3].records[name].service == Renumbered(service, port)
      && k in states[3].balancer && states[3].balancer[k].endpoints == [EndpointString(ip, service.ports[0].port)]
      && !Holds(states[3], name, Endpoint([ip]), service.ports[0].name)
  {
    var name, first, calls := NameOf(service), service.ports[0], RenumberingCalls(service, port, ip);
    var endpoint := Endpoint([ip]);
    InvariantInEveryRun(states, calls, 1);
    InvariantInEveryRun(states, calls, 2);
    assert Taken(states[0], calls[0], states[1]) && Taken(states[1], calls[1], states[2]);
    assert Taken(states[2], calls[2], states[3]);
    assert first.name in PortNames(service) && first.name in PortNames(Renumbered(service, port));
    SetEndpointReplaces(states[1], name, endpoint, states[2], first.name);
    OneAddress(service, ip);
    OneAddress(Renumbered(service, port), ip);
    Singleton(states[2].balancer[ServicePortName(name, first.name)].endpoints, EndpointString(ip, first.port));
    ServiceUpdateKeepsLists(states[2], Renumbered(service, port), ServicePortName(name, first.name));
    if Holds(states[3], name, endpoint, first.name) {
      Singleton([EndpointString(ip, first.port)], EndpointString(ip, port));
      EndpointStringInjective(ip, first.port, ip, port);
    }
  }
}
