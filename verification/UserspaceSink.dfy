/** The userspace Backend: the sink that drives the Proxier and its load balancer. */
module UserspaceSink {
  import opened Basics
  import opened LocalNet
  import opened Balancer
  import opened Portals

  /** ServiceEndpoint: the latest service and the first endpoint object seen for it. */
  datatype Record = Record(service: Service, endpoint: Option<Endpoint>)

  type Records = map<NamespacedName, Record>

  datatype SinkState = SinkState(records: Records, portals: Portals, balancer: Table)

  /** A sink call; `succeeded` says whether every portal it asked for could be opened. Serve is
      a proxied connection asking for the next endpoint in between. */
  datatype SinkCall =
    | SetService(service: Service, succeeded: bool)
    | DeleteService(name: NamespacedName)
    | SetEndpoint(name: NamespacedName, endpoint: Endpoint)
    | DeleteEndpoint(name: NamespacedName)
    | Serve(port: ServicePortName)

  /** What the code relies on: a cluster IP for every port, an endpoint only for a known
      service, and the deletion of an endpoint only after one was set. */
  predicate Callable(records: Records, call: SinkCall) {
    match call
    case SetService(service, _) => HasClusterIP(service)
    case DeleteService(_) => true
    case SetEndpoint(name, _) => name in records
    case DeleteEndpoint(name) => name in records ==> records[name].endpoint.Some?
    case Serve(_) => true
  }

  ghost predicate Recorded(records: Records) {
    forall name :: name in records ==> IsCalled(records[name].service, name) && HasClusterIP(records[name].service)
  }

  function WithService(records: Records, service: Service): Records {
    var name := NameOf(service);
    records[name := Record(service, if name in records then records[name].endpoint else None)]
  }

  /** AddEndpoint keeps the first endpoint object. */
  function WithEndpoint(records: Records, service: Service, endpoint: Endpoint): Records {
    var name := NameOf(service);
    if name !in records then records[name := Record(service, Some(endpoint))]
    else if records[name].endpoint.None? then records[name := records[name].(endpoint := Some(endpoint))]
    else records
  }

  /** The recorded version of a service, if there is one. */
  function VersionOf(records: Records, name: NamespacedName): Option<Service> {
    if name in records then Some(records[name].service) else None
  }

  /** A service update adds the load balancer entries of the new port names, then drops those
      of vanished ones. */
  function EntriesMerged(earlier: Option<Service>, balancer: Table, service: Service): Table {
    var name := NameOf(service);
    var entries := WithEntries(balancer, NamesIn(name, PortNames(service)));
    if earlier.Some? then entries - NamesIn(name, PortNames(earlier.value) - PortNames(service)) else entries
  }

  /** What OnServiceAdd or OnServiceUpdate may do to the portals. */
  ghost predicate PortalsMerged(earlier: Option<Service>, before: Portals, service: Service, succeeded: bool,
                                after: Portals)
    requires (earlier.Some? ==> HasClusterIP(earlier.value)) && HasClusterIP(service)
  {
    if earlier.Some?
    then Updated(before, PortalTable(earlier.value), PortalTable(service), OffersOf(service), succeeded, after)
    else Merged(before, PortalTable(service), OffersOf(service), succeeded, after)
  }

  function EntriesAfterSet(records: Records, balancer: Table, service: Service): Table {
    EntriesMerged(VersionOf(records, NameOf(service)), balancer, service)
  }

  ghost predicate PortalsAfterSet(records: Records, before: Portals, service: Service, succeeded: bool, after: Portals)
    requires Recorded(records) && HasClusterIP(service)
  {
    PortalsMerged(VersionOf(records, NameOf(service)), before, service, succeeded, after)
  }

  ghost predicate ServiceSet(st: SinkState, service: Service, succeeded: bool, st': SinkState)
    requires Recorded(st.records) && HasClusterIP(service)
  {
    && st'.records == WithService(st.records, service)
    && PortalsAfterSet(st.records, st.portals, service, succeeded, st'.portals)
    && MergedFully(service, st.portals, succeeded, st'.portals)
    && st'.balancer == EntriesAfterSet(st.records, st.balancer, service)
  }

  ghost predicate EndpointSet(st: SinkState, name: NamespacedName, endpoint: Endpoint, st': SinkState)
    requires name in st.records && Recorded(st.records)
  {
    var record := st.records[name];
    && st'.records == WithEndpoint(st.records, record.service, endpoint)
    && st'.portals == st.portals
    && BalancerSet(st.balancer, record, endpoint, st'.balancer)
  }

  /** OnEndpointsAdd for a record without an endpoint, OnEndpointsUpdate otherwise. */
  ghost predicate BalancerSet(before: Table, record: Record, endpoint: Endpoint, after: Table) {
    var m := PortMap(endpoint, record.service);
    match record.endpoint
    case None => PortsChanged(OnAdd, before, NameOf(record.service), m, m.Keys, after)
    case Some(first) => EndpointsUpdated(before, NameOf(record.service), PortMap(first, record.service), m, after)
  }

  ghost predicate Step(st: SinkState, call: SinkCall, st': SinkState)
    requires Recorded(st.records) && Callable(st.records, call)
  {
    match call
    case SetService(service, succeeded) => ServiceSet(st, service, succeeded, st')
    case DeleteService(name) =>
      if name !in st.records then st' == st
      else
        var service := st.records[name].service;
        st' == SinkState(st.records - {name}, st.portals - PortalTable(service).Keys,
          st.balancer - NamesIn(name, PortNames(service)))
    case SetEndpoint(name, endpoint) => EndpointSet(st, name, endpoint, st')
    case DeleteEndpoint(name) =>
      if name !in st.records then st' == st
      else
        var record := st.records[name];
        st' == st.(balancer := ResetPorts(st.balancer, name, PortMap(record.endpoint.value, record.service).Keys))
    case Serve(port) => st' == st.(balancer := Advance(st.balancer, port))
  }

  // ----- the object -----

  class ServiceEndpoint {
    var service: Service
    var endpoint: Option<Endpoint>
    /** The only name this record is ever kept under. */
    ghost const name: NamespacedName

    constructor (service: Service, endpoint: Option<Endpoint>)
      ensures this.service == service && this.endpoint == endpoint && name == NameOf(service)
    {
      this.service, this.endpoint, this.name := service, endpoint, NameOf(service);
    }
  }

  class Backend {
    const proxier: Proxier
    var servicesEndpoints: map<NamespacedName, ServiceEndpoint>
    ghost var Repr: set<ServiceEndpoint>

    ghost predicate Valid()
      reads this, Repr, proxier, proxier.Repr, proxier.loadBalancer, proxier.loadBalancer.Repr
    {
      ValidRecords() && proxier.Valid() && proxier.loadBalancer.Valid()
    }

    ghost predicate ValidRecords()
      reads this, Repr
    {
      forall a :: a in servicesEndpoints ==>
        && servicesEndpoints[a] in Repr && servicesEndpoints[a].name == a
        && IsCalled(servicesEndpoints[a].service, a) && HasClusterIP(servicesEndpoints[a].service)
    }

    ghost function Records(): Records
      reads this, Repr
      requires ValidRecords()
    {
      map a | a in servicesEndpoints :: Record(servicesEndpoints[a].service, servicesEndpoints[a].endpoint)
    }

    ghost function State(): SinkState
      reads this, Repr, proxier, proxier.Repr, proxier.loadBalancer, proxier.loadBalancer.Repr
      requires Valid()
    {
      SinkState(Records(), proxier.View(), proxier.loadBalancer.View())
    }

    constructor (proxier: Proxier)
      requires proxier.Valid() && proxier.View() == map[]
      requires proxier.loadBalancer.Valid() && proxier.loadBalancer.View() == map[]
      ensures Valid() && this.proxier == proxier && Repr == {} && State() == SinkState(map[], map[], map[])
    {
      this.proxier := proxier;
      servicesEndpoints, Repr := map[], {};
    }

    method AddService(service: Service)
      requires ValidRecords() && HasClusterIP(service)
      modifies this, Repr
      ensures ValidRecords() && forall s :: s in Repr ==> s in old(Repr) || fresh(s)
      ensures Records() == WithService(old(Records()), service)
    {
      var name := NameOf(service);
      if name !in servicesEndpoints {
        var record := new ServiceEndpoint(service, None);
        servicesEndpoints, Repr := servicesEndpoints[name := record], Repr + {record};
      } else {
        servicesEndpoints[name].service := service;
      }
    }

    method AddEndpoint(service: Service, endpoint: Endpoint)
      requires ValidRecords() && HasClusterIP(service)
      modifies this, Repr
      ensures ValidRecords() && forall s :: s in Repr ==> s in old(Repr) || fresh(s)
      ensures Records() == WithEndpoint(old(Records()), service, endpoint)
    {
      var name := NameOf(service);
      if name in servicesEndpoints && servicesEndpoints[name].endpoint.None? {
        servicesEndpoints[name].endpoint := Some(endpoint);
      } else if name !in servicesEndpoints {
        var record := new ServiceEndpoint(service, Some(endpoint));
        servicesEndpoints, Repr := servicesEndpoints[name := record], Repr + {record};
      }
    }

    method SetService(service: Service) returns (ghost succeeded: bool)
      requires Valid() && HasClusterIP(service)
      modifies this, Repr, proxier, proxier.Repr, proxier.loadBalancer
      ensures forall s :: s in Repr ==> s in old(Repr) || fresh(s)
      ensures forall s :: s in proxier.Repr ==> s in old(proxier.Repr) || fresh(s)
      ensures forall s :: s in proxier.loadBalancer.Repr ==> s in old(proxier.loadBalancer.Repr) || fresh(s)
      ensures old(proxier.failed) <= proxier.failed && (succeeded <==> proxier.failed == old(proxier.failed))
      ensures Valid() && Recorded(old(Records())) && ServiceSet(old(State()), service, succeeded, State())
    {
      succeeded := TellOfService(service);
      RecordService(service);
    }

    /** Looks up the recorded version and tells the proxier. */
    method TellOfService(service: Service) returns (ghost succeeded: bool)
      requires Valid() && HasClusterIP(service)
      modifies proxier, proxier.Repr, proxier.loadBalancer
      ensures Valid() && Records() == old(Records()) && Repr == old(Repr)
      ensures forall s :: s in proxier.Repr ==> s in old(proxier.Repr) || fresh(s)
      ensures forall s :: s in proxier.loadBalancer.Repr ==> s in old(proxier.loadBalancer.Repr) || fresh(s)
      ensures old(proxier.failed) <= proxier.failed && (succeeded <==> proxier.failed == old(proxier.failed))
      ensures Recorded(Records())
      ensures PortalsAfterSet(Records(), old(proxier.View()), service, succeeded, proxier.View())
      ensures MergedFully(service, old(proxier.View()), succeeded, proxier.View())
      ensures proxier.loadBalancer.View() == EntriesAfterSet(Records(), old(proxier.loadBalancer.View()), service)
    {
      var name := NameOf(service);
      var earlier := if name in servicesEndpoints then Some(servicesEndpoints[name].service) else None;
      ghost var records := Records();
      assert earlier == VersionOf(records, name);
      succeeded := TellProxier(earlier, service);
      assert unchanged(this) && unchanged(Repr);
      assert Records() == records;
    }

    /** AddService, which leaves the proxier and its load balancer alone. */
    method RecordService(service: Service)
      requires Valid() && HasClusterIP(service)
      modifies this, Repr
      ensures Valid() && forall s :: s in Repr ==> s in old(Repr) || fresh(s)
      ensures State() == old(State()).(records := WithService(old(Records()), service))
      ensures unchanged(proxier) && unchanged(proxier.loadBalancer)
    {
      AddService(service);
      assert unchanged(proxier) && unchanged(proxier.Repr);
      assert unchanged(proxier.loadBalancer) && unchanged(proxier.loadBalancer.Repr);
    }

    /** OnServiceUpdate from the recorded version, or OnServiceAdd when there is none. */
    method TellProxier(earlier: Option<Service>, service: Service) returns (ghost succeeded: bool)
      requires proxier.Valid() && proxier.loadBalancer.Valid() && HasClusterIP(service)
      requires earlier.Some? ==> HasClusterIP(earlier.value) && NameOf(earlier.value) == NameOf(service)
      modifies proxier, proxier.Repr, proxier.loadBalancer
      ensures proxier.Valid() && forall s :: s in proxier.Repr ==> s in old(proxier.Repr) || fresh(s)
      ensures proxier.loadBalancer.Valid()
      ensures forall s :: s in proxier.loadBalancer.Repr ==> s in old(proxier.loadBalancer.Repr) || fresh(s)
      ensures old(proxier.failed) <= proxier.failed && (succeeded <==> proxier.failed == old(proxier.failed))
      ensures PortalsMerged(earlier, old(proxier.View()), service, succeeded, proxier.View())
      ensures MergedFully(service, old(proxier.View()), succeeded, proxier.View())
      ensures proxier.loadBalancer.View() == EntriesMerged(earlier, old(proxier.loadBalancer.View()), service)
    {
      if earlier.Some? {
        succeeded := proxier.OnServiceUpdate(earlier.value, service);
      } else {
        succeeded := proxier.OnServiceAdd(service);
      }
    }

    method DeleteService(name: NamespacedName)
      requires Valid()
      modifies this, proxier, proxier.Repr, proxier.loadBalancer
      ensures Repr == old(Repr) && proxier.Repr == old(proxier.Repr) && proxier.failed == old(proxier.failed)
      ensures proxier.loadBalancer.Repr == old(proxier.loadBalancer.Repr)
      ensures Valid() && Recorded(old(Records())) && Step(old(State()), SinkCall.DeleteService(name), State())
    {
      if name in servicesEndpoints {
        var service := servicesEndpoints[name].service;
        assert Records()[name].service == service;
        proxier.OnServiceDelete(service);
        assert unchanged(this) && unchanged(Repr);
        label deleted:
        RemoveRecord(name);
        assert unchanged@deleted(proxier) && unchanged@deleted(proxier.Repr);
        assert unchanged@deleted(proxier.loadBalancer) && unchanged@deleted(proxier.loadBalancer.Repr);
      }
    }

    method RemoveRecord(name: NamespacedName)
      requires ValidRecords()
      modifies this
      ensures ValidRecords() && Repr == old(Repr)
      ensures Records() == old(Records()) - {name}
    {
      servicesEndpoints := servicesEndpoints - {name};
    }

    method SetEndpoint(name: NamespacedName, endpoint: Endpoint)
      requires Valid() && name in servicesEndpoints
      modifies this, Repr, proxier.loadBalancer, proxier.loadBalancer.Repr
      ensures forall s :: s in Repr ==> s in old(Repr) || fresh(s)
      ensures forall s :: s in proxier.loadBalancer.Repr ==> s in old(proxier.loadBalancer.Repr) || fresh(s)
      ensures Valid() && Recorded(old(Records())) && EndpointSet(old(State()), name, endpoint, State())
    {
      ghost var record := Records()[name];
      var service := servicesEndpoints[name].service;
      TellBalancer(name, endpoint);
      label balanced:
      AddEndpoint(service, endpoint);
      assert unchanged(proxier) && unchanged(proxier.Repr);
      assert unchanged@balanced(proxier.loadBalancer) && unchanged@balanced(proxier.loadBalancer.Repr);
    }

    method TellBalancer(name: NamespacedName, endpoint: Endpoint)
      requires ValidRecords() && proxier.loadBalancer.Valid() && name in servicesEndpoints
      modifies proxier.loadBalancer, proxier.loadBalancer.Repr
      ensures forall s :: s in proxier.loadBalancer.Repr ==> s in old(proxier.loadBalancer.Repr) || fresh(s)
      ensures ValidRecords() && Records() == old(Records()) && proxier.loadBalancer.Valid()
      ensures BalancerSet(old(proxier.loadBalancer.View()), Records()[name], endpoint, proxier.loadBalancer.View())
    {
      var record := servicesEndpoints[name];
      assert Records()[name] == Record(record.service, record.endpoint);
      if record.endpoint.None? {
        proxier.loadBalancer.OnEndpointsAdd(endpoint, record.service);
      } else {
        proxier.loadBalancer.OnEndpointsUpdate(record.endpoint.value, endpoint, record.service);
      }
      assert unchanged(this) && unchanged(Repr);
    }

    method DeleteEndpoint(name: NamespacedName)
      requires Valid() && (name in servicesEndpoints ==> servicesEndpoints[name].endpoint.Some?)
      modifies proxier.loadBalancer.Repr
      ensures Valid() && Recorded(old(Records())) && Step(old(State()), SinkCall.DeleteEndpoint(name), State())
    {
      if name in servicesEndpoints {
        var record := servicesEndpoints[name];
        assert Records()[name] == Record(record.service, record.endpoint);
        proxier.loadBalancer.OnEndpointsDelete(record.endpoint.value, record.service);
        assert unchanged(this) && unchanged(Repr);
        assert unchanged(proxier) && unchanged(proxier.Repr);
      }
    }
  }
}
