/** LoadBalancerRR: per service port, a list of endpoints and the position to use next. */
module Balancer {
  import opened Basics
  import opened HostPort
  import opened LocalNet
  import opened Shuffling

  /** The userspace ServicePortName; its Protocol field is never set. */
  datatype ServicePortName = ServicePortName(service: NamespacedName, port: string)

  datatype Entry = Entry(endpoints: seq<string>, index: nat) {
    /** 0 for an empty list, a position otherwise. */
    predicate Valid() {
      if endpoints == [] then index == 0 else index < |endpoints|
    }
  }

  type Table = map<ServicePortName, Entry>

  const EMPTY := Entry([], 0)

  // ----- buildPortsToEndpointsMap -----

  function Names(ports: seq<PortMapping>): set<string> {
    set i | 0 <= i < |ports| :: ports[i].name
  }

  function PortNames(service: Service): set<string> {
    Names(service.ports)
  }

  /** The addresses one IP gives to the port name, in the order of the service's ports. */
  function AddressesOfIP(ip: string, ports: seq<PortMapping>, name: string): seq<string> {
    if ports == [] then []
    else
      var last := ports[|ports| - 1];
      AddressesOfIP(ip, ports[..|ports| - 1], name) + if last.name == name then [EndpointString(ip, last.port)] else []
  }

  function Addresses(ips: seq<string>, ports: seq<PortMapping>, name: string): seq<string> {
    if ips == [] then []
    else Addresses(ips[..|ips| - 1], ports, name) + AddressesOfIP(ips[|ips| - 1], ports, name)
  }

  /** One of the strings that an address and a port of this name print to. */
  ghost predicate IsAddress(ips: seq<string>, ports: seq<PortMapping>, name: string, s: string) {
    exists i, j ::
      0 <= i < |ips| && 0 <= j < |ports| && ports[j].name == name && s == EndpointString(ips[i], ports[j].port)
  }

  lemma AddressesMeaning(ips: seq<string>, ports: seq<PortMapping>, name: string, s: string)
    ensures s in Addresses(ips, ports, name) <==> IsAddress(ips, ports, name, s)
  {
    if s in Addresses(ips, ports, name) {
      var i, j := AddressSource(ips, ports, name, s);
    }
    if i, j :|
      0 <= i < |ips| && 0 <= j < |ports| && ports[j].name == name && s == EndpointString(ips[i], ports[j].port)
    {
      AddressListed(ips, ports, i, j);
    }
  }

  lemma {:induction false} AddressSource(ips: seq<string>, ports: seq<PortMapping>, name: string, s: string)
    returns (i: nat, j: nat)
    requires s in Addresses(ips, ports, name)
    ensures i < |ips| && j < |ports| && ports[j].name == name && s == EndpointString(ips[i], ports[j].port)
  {
    i := |ips| - 1;
    if s in AddressesOfIP(ips[i], ports, name) {
      j := PortSource(ips[i], ports, name, s);
    } else {
      i, j := AddressSource(ips[..i], ports, name, s);
    }
  }

  lemma {:induction false} PortSource(ip: string, ports: seq<PortMapping>, name: string, s: string) returns (j: nat)
    requires s in AddressesOfIP(ip, ports, name)
    ensures j < |ports| && ports[j].name == name && s == EndpointString(ip, ports[j].port)
  {
    j := |ports| - 1;
    if s in AddressesOfIP(ip, ports[..j], name) {
      j := PortSource(ip, ports[..j], name, s);
    }
  }

  lemma {:induction false} AddressListed(ips: seq<string>, ports: seq<PortMapping>, i: nat, j: nat)
    requires i < |ips| && j < |ports|
    ensures EndpointString(ips[i], ports[j].port) in Addresses(ips, ports, ports[j].name)
  {
    if i == |ips| - 1 {
      PortListed(ips[i], ports, j);
    } else {
      AddressListed(ips[..|ips| - 1], ports, i, j);
    }
  }

  lemma {:induction false} PortListed(ip: string, ports: seq<PortMapping>, j: nat)
    requires j < |ports|
    ensures EndpointString(ip, ports[j].port) in AddressesOfIP(ip, ports, ports[j].name)
  {
    if j < |ports| - 1 {
      PortListed(ip, ports[..|ports| - 1], j);
    }
  }

  function PortMap(endpoint: Endpoint, service: Service): map<string, seq<string>> {
    map name | name in PortNames(service) && endpoint.v4 != [] :: Addresses(endpoint.v4, service.ports, name)
  }

  function ListFor(m: map<string, seq<string>>, name: string): seq<string> {
    if name in m then m[name] else []
  }

  method BuildPortsToEndpointsMap(endpoint: Endpoint, service: Service) returns (m: map<string, seq<string>>)
    ensures m == PortMap(endpoint, service)
    ensures forall name :: name in m ==> m[name] != []
  {
    m := map[];
    var ips := endpoint.v4;
    for i := 0 to |ips|
      invariant m == map name | name in PortNames(service) && i > 0 :: Addresses(ips[..i], service.ports, name)
    {
      ghost var before := m;
      m := AppendIP(m, ips[i], service.ports);
      OneMoreIP(ips, i, service, before, m);
    }
    assert ips[..|ips|] == ips;
    PortMapLists(endpoint, service);
  }

  /** The inner loop of buildPortsToEndpointsMap: all ports for one IP. */
  method AppendIP(before: map<string, seq<string>>, ip: string, ports: seq<PortMapping>)
    returns (m: map<string, seq<string>>)
    ensures IPAppended(before, ip, ports, m)
  {
    m := before;
    for j := 0 to |ports|
      invariant IPAppended(before, ip, ports[..j], m)
    {
      AppendedOneMore(before, ip, ports, j, m);
      m := m[ports[j].name := ListFor(m, ports[j].name) + [EndpointString(ip, ports[j].port)]];
    }
    assert ports[..|ports|] == ports;
  }

  ghost predicate IPAppended(before: map<string, seq<string>>, ip: string, ports: seq<PortMapping>,
                             m: map<string, seq<string>>) {
    && (forall name :: ListFor(m, name) == ListFor(before, name) + AddressesOfIP(ip, ports, name))
    && m.Keys == before.Keys + Names(ports)
  }

  lemma AppendedOneMore(before: map<string, seq<string>>, ip: string, ports: seq<PortMapping>, j: nat,
                        m: map<string, seq<string>>)
    requires j < |ports| && IPAppended(before, ip, ports[..j], m)
    ensures IPAppended(before, ip, ports[..j + 1],
                       m[ports[j].name := ListFor(m, ports[j].name) + [EndpointString(ip, ports[j].port)]])
  {
    var port := ports[j];
    var m' := m[port.name := ListFor(m, port.name) + [EndpointString(ip, port.port)]];
    forall name ensures ListFor(m', name) == ListFor(before, name) + AddressesOfIP(ip, ports[..j + 1], name) {
      AddressesOneMore(ip, ports, j, name);
      assert ListFor(m, name) == ListFor(before, name) + AddressesOfIP(ip, ports[..j], name);
      if name == port.name {
        assert ListFor(m', name) == ListFor(m, name) + [EndpointString(ip, port.port)];
        Associative(ListFor(before, name), AddressesOfIP(ip, ports[..j], name), [EndpointString(ip, port.port)]);
      } else {
        assert ListFor(m', name) == ListFor(m, name);
        assert AddressesOfIP(ip, ports[..j], name) + [] == AddressesOfIP(ip, ports[..j], name);
      }
    }
    NamesOneMore(ports, j);
  }

  lemma AddressesOneMore(ip: string, ports: seq<PortMapping>, j: nat, name: string)
    requires j < |ports|
    ensures AddressesOfIP(ip, ports[..j + 1], name) ==
      AddressesOfIP(ip, ports[..j], name) + if ports[j].name == name then [EndpointString(ip, ports[j].port)] else []
  {
    assert ports[..j + 1][..j] == ports[..j];
  }

  lemma NamesOneMore(ports: seq<PortMapping>, j: nat)
    requires j < |ports|
    ensures Names(ports[..j + 1]) == Names(ports[..j]) + {ports[j].name}
  {
  }

  lemma PortMapLists(endpoint: Endpoint, service: Service)
    ensures forall name :: name in PortMap(endpoint, service) ==> PortMap(endpoint, service)[name] != []
  {
    forall name | name in PortMap(endpoint, service) ensures PortMap(endpoint, service)[name] != [] {
      NamedPortsHaveAddresses(endpoint.v4, service.ports, name);
    }
  }

  lemma OneMoreIP(ips: seq<string>, i: nat, service: Service, before: map<string, seq<string>>,
                  m: map<string, seq<string>>)
    requires i < |ips|
    requires before == map name | name in PortNames(service) && i > 0 :: Addresses(ips[..i], service.ports, name)
    requires IPAppended(before, ips[i], service.ports, m)
    ensures m == map name | name in PortNames(service) && i + 1 > 0 :: Addresses(ips[..i + 1], service.ports, name)
  {
    assert ips[..i + 1][..i] == ips[..i];
    forall name | name in m ensures m[name] == Addresses(ips[..i + 1], service.ports, name) {
      assert m[name] == ListFor(m, name) == ListFor(before, name) + AddressesOfIP(ips[i], service.ports, name);
      if i == 0 {
        assert Addresses(ips[..0], service.ports, name) == [];
      }
    }
  }

  lemma {:induction false} NamedPortsHaveAddresses(ips: seq<string>, ports: seq<PortMapping>, name: string)
    requires ips != [] && exists i :: 0 <= i < |ports| && ports[i].name == name
    ensures Addresses(ips, ports, name) != []
  {
    OneIPHasAddresses(ips[|ips| - 1], ports, name);
  }

  lemma {:induction false} OneIPHasAddresses(ip: string, ports: seq<PortMapping>, name: string)
    requires exists i :: 0 <= i < |ports| && ports[i].name == name
    ensures AddressesOfIP(ip, ports, name) != []
  {
    if ports[|ports| - 1].name != name {
      var i :| 0 <= i < |ports| && ports[i].name == name;
      assert ports[..|ports| - 1][i].name == name;
      OneIPHasAddresses(ip, ports[..|ports| - 1], name);
    }
  }

  // ----- what the endpoint handlers do to the table -----

  datatype Handler = OnAdd | OnUpdate

  /** What a handler does to one entry. Adding always stores some shuffle of the endpoints,
      to be used from the start; updating does so only when the multiset differs, and
      otherwise keeps order and position. */
  ghost predicate EntryChanged(handler: Handler, before: Option<Entry>, endpoints: seq<string>, after: Entry) {
    if handler == OnUpdate && before.Some? && multiset(before.value.endpoints) == multiset(endpoints)
    then after == before.value
    else multiset(after.endpoints) == multiset(endpoints) && after.index == 0
  }

  function NamesIn(service: NamespacedName, ports: set<string>): set<ServicePortName> {
    set p | p in ports :: ServicePortName(service, p)
  }

  /** Only the named ports of the service differ, and those as the handler makes them. */
  ghost predicate PortsChanged(handler: Handler, before: Table, service: NamespacedName, m: map<string, seq<string>>,
                               ports: set<string>, after: Table) {
    && ports <= m.Keys
    && after.Keys == before.Keys + NamesIn(service, ports)
    && (forall p :: p in ports ==>
          var name := ServicePortName(service, p);
          name in after && EntryChanged(handler, Get(before, name), m[p], after[name]))
    && (forall name :: name in before && name !in NamesIn(service, ports) ==>
          name in after && after[name] == before[name])
  }

  function ResetPorts(t: Table, service: NamespacedName, ports: set<string>): Table {
    map name | name in t :: if name.service == service && name.port in ports then EMPTY else t[name]
  }

  /** OnEndpointsUpdate from `oldMap` to `newMap`. */
  ghost predicate EndpointsUpdated(before: Table, service: NamespacedName, oldMap: map<string, seq<string>>,
                                   newMap: map<string, seq<string>>, after: Table)
  {
    && after.Keys == before.Keys + NamesIn(service, newMap.Keys)
    && (forall p :: p in newMap ==>
          var name := ServicePortName(service, p);
          name in after && EntryChanged(OnUpdate, Get(before, name), newMap[p], after[name]))
    && (forall name :: name in before && name !in NamesIn(service, newMap.Keys) ==>
          name in after && after[name] == if name in NamesIn(service, oldMap.Keys) then EMPTY else before[name])
  }

  // ----- the object -----

  class BalancerState {
    var endpoints: seq<string>
    var index: int
    /** The only name this state is ever kept under. */
    ghost const name: ServicePortName

    constructor (ghost name: ServicePortName)
      ensures endpoints == [] && index == 0 && this.name == name
    {
      endpoints, index := [], 0;
      this.name := name;
    }

    predicate Valid()
      reads this
    {
      0 <= index && Entry(endpoints, index).Valid()
    }

    function View(): Entry
      reads this
      requires Valid()
    {
      Entry(endpoints, index)
    }
  }

  datatype NextResult = Next(endpoint: string) | ErrMissingServiceEntry | ErrMissingEndpoints

  class LoadBalancerRR {
    var services: map<ServicePortName, BalancerState>
    ghost var Repr: set<BalancerState>

    ghost predicate Valid()
      reads this, Repr
    {
      forall a :: a in services ==> services[a] in Repr && services[a].name == a && services[a].Valid()
    }

    ghost function View(): Table
      reads this, Repr
      requires Valid()
    {
      map name | name in services :: services[name].View()
    }

    constructor ()
      ensures Valid() && View() == map[] && Repr == {}
    {
      services, Repr := map[], {};
    }

    /** newServiceInternal, without the affinity settings. */
    method NewServiceInternal(name: ServicePortName) returns (state: BalancerState)
      requires Valid()
      modifies this
      ensures Valid() && forall s :: s in Repr ==> s in old(Repr) || fresh(s)
      ensures name in services && services[name] == state
      ensures View() == old(View())[name := if name in old(View()) then old(View())[name] else EMPTY]
    {
      if name !in services {
        state := new BalancerState(name);
        services, Repr := services[name := state], Repr + {state};
      }
      state := services[name];
    }

    method NewService(name: ServicePortName)
      requires Valid()
      modifies this
      ensures Valid() && forall s :: s in Repr ==> s in old(Repr) || fresh(s)
      ensures View() == old(View())[name := if name in old(View()) then old(View())[name] else EMPTY]
    {
      var _ := NewServiceInternal(name);
    }

    method DeleteService(name: ServicePortName)
      requires Valid()
      modifies this
      ensures Valid() && Repr == old(Repr)
      ensures View() == old(View()) - {name}
    {
      services := services - {name};
    }

    /** Assign to the fields of the state kept under a name. */
    method SetState(name: ServicePortName, endpoints: seq<string>, index: nat)
      requires Valid() && name in services && Entry(endpoints, index).Valid()
      modifies services[name]
      ensures Valid()
      ensures View() == old(View())[name := Entry(endpoints, index)]
    {
      var state := services[name];
      state.endpoints := endpoints;
      state.index := index;
    }

    method ResetService(name: ServicePortName)
      requires Valid()
      modifies Repr
      ensures Valid()
      ensures View() == ResetPorts(old(View()), name.service, {name.port})
    {
      if name in services {
        SetState(name, [], 0);
      }
    }

    /** Store a shuffle of the endpoints under the name, from position 0. */
    method SetEndpoints(name: ServicePortName, endpoints: seq<string>)
      requires Valid()
      modifies this, Repr
      ensures Valid() && forall s :: s in Repr ==> s in old(Repr) || fresh(s)
      ensures name in View() && View() == old(View())[name := View()[name]]
      ensures multiset(View()[name].endpoints) == multiset(endpoints) && View()[name].index == 0
    {
      var _ := NewServiceInternal(name);
      var shuffled := ShuffleStrings(endpoints);
      SetState(name, shuffled, 0);
    }

    /** The body of the first loop of OnEndpointsUpdate. */
    method UpdatePort(name: ServicePortName, endpoints: seq<string>)
      requires Valid()
      modifies this, Repr
      ensures Valid() && forall s :: s in Repr ==> s in old(Repr) || fresh(s)
      ensures name in View() && View() == old(View())[name := View()[name]]
      ensures EntryChanged(OnUpdate, Get(old(View()), name), endpoints, View()[name])
    {
      if name !in services {
        SetEndpoints(name, endpoints);
      } else {
        var current := services[name].endpoints;
        assert View()[name].endpoints == current;
        var same, sorted := Equivalent(current, endpoints);
        if !same {
          SetEndpoints(name, sorted);
        }
      }
    }

    method OnEndpointsUpdate(oldEndpoints: Endpoint, endpoints: Endpoint, service: Service)
      requires Valid()
      modifies this, Repr
      ensures Valid() && forall s :: s in Repr ==> s in old(Repr) || fresh(s)
      ensures EndpointsUpdated(old(View()), NameOf(service),
                               PortMap(oldEndpoints, service), PortMap(endpoints, service), View())
    {
      var portsToEndpoints := BuildPortsToEndpointsMap(endpoints, service);
      var oldPortsToEndpoints := BuildPortsToEndpointsMap(oldEndpoints, service);
      ReplaceEndpoints(NameOf(service), oldPortsToEndpoints, portsToEndpoints);
    }

    /** The part of OnEndpointsUpdate that runs under the lock. */
    method ReplaceEndpoints(service: NamespacedName, oldPortsToEndpoints: map<string, seq<string>>,
                            portsToEndpoints: map<string, seq<string>>)
      requires Valid()
      modifies this, Repr
      ensures Valid() && forall s :: s in Repr ==> s in old(Repr) || fresh(s)
      ensures EndpointsUpdated(old(View()), service, oldPortsToEndpoints, portsToEndpoints, View())
    {
      ghost var before := View();
      var registeredEndpoints := UpdatePorts(service, portsToEndpoints);
      ghost var updated := View();
      ResetStale(service, oldPortsToEndpoints.Keys, portsToEndpoints.Keys, registeredEndpoints);
      UpdatedThenReset(before, service, oldPortsToEndpoints, portsToEndpoints, updated, View());
    }

    /** The second loop of OnEndpointsUpdate. */
    method ResetStale(service: NamespacedName, oldPorts: set<string>, ghost newPorts: set<string>,
                      registered: set<ServicePortName>)
      requires Valid() && registered == NamesIn(service, newPorts)
      modifies Repr
      ensures Valid()
      ensures View() == ResetPorts(old(View()), service, oldPorts - newPorts)
    {
      ghost var before, done := View(), {};
      var todo := oldPorts;
      while todo != {}
        invariant done !! todo && done + todo == oldPorts
        invariant Valid()
        invariant View() == ResetPorts(before, service, done - newPorts)
      {
        var port :| port in todo;
        if ServicePortName(service, port) !in registered {
          assert port !in newPorts;
          ResetService(ServicePortName(service, port));
          ResetOneMore(before, service, done - newPorts, port);
          assert done + {port} - newPorts == done - newPorts + {port};
        } else {
          assert port in newPorts;
          assert done + {port} - newPorts == done - newPorts;
        }
        MoveOne(oldPorts, done, todo, port);
        todo, done := todo - {port}, done + {port};
      }
    }

    /** The first loop of OnEndpointsUpdate; the result is registeredEndpoints. */
    method UpdatePorts(service: NamespacedName, portsToEndpoints: map<string, seq<string>>)
      returns (registered: set<ServicePortName>)
      requires Valid()
      modifies this, Repr
      ensures Valid() && forall s :: s in Repr ==> s in old(Repr) || fresh(s)
      ensures PortsChanged(OnUpdate, old(View()), service, portsToEndpoints, portsToEndpoints.Keys, View())
      ensures registered == NamesIn(service, portsToEndpoints.Keys)
    {
      registered := {};
      ghost var before, done := View(), {};
      ghost var table := before;
      var todo := portsToEndpoints.Keys;
      while todo != {}
        invariant done !! todo && done + todo == portsToEndpoints.Keys
        invariant Valid() && forall s :: s in Repr ==> s in old(Repr) || fresh(s)
        invariant View() == table && PortsChanged(OnUpdate, before, service, portsToEndpoints, done, table)
        invariant registered == NamesIn(service, done)
      {
        var port :| port in todo;
        UpdatePort(ServicePortName(service, port), portsToEndpoints[port]);
        OneMorePort(OnUpdate, before, service, portsToEndpoints, done, table, port, View());
        table := View();
        registered := registered + {ServicePortName(service, port)};
        MoveOne(portsToEndpoints.Keys, done, todo, port);
        todo, done := todo - {port}, done + {port};
      }
    }

    method OnEndpointsAdd(endpoint: Endpoint, service: Service)
      requires Valid()
      modifies this, Repr
      ensures Valid() && forall s :: s in Repr ==> s in old(Repr) || fresh(s)
      ensures var m := PortMap(endpoint, service);
        PortsChanged(OnAdd, old(View()), NameOf(service), m, m.Keys, View())
    {
      var portsToEndpoints := BuildPortsToEndpointsMap(endpoint, service);
      AddPorts(NameOf(service), portsToEndpoints);
    }

    /** The loop of OnEndpointsAdd. */
    method AddPorts(service: NamespacedName, portsToEndpoints: map<string, seq<string>>)
      requires Valid()
      requires forall port :: port in portsToEndpoints ==> portsToEndpoints[port] != []
      modifies this, Repr
      ensures Valid() && forall s :: s in Repr ==> s in old(Repr) || fresh(s)
      ensures PortsChanged(OnAdd, old(View()), service, portsToEndpoints, portsToEndpoints.Keys, View())
    {
      ghost var before, done := View(), {};
      ghost var table := before;
      var todo := portsToEndpoints.Keys;
      while todo != {}
        invariant done !! todo && done + todo == portsToEndpoints.Keys
        invariant Valid() && forall s :: s in Repr ==> s in old(Repr) || fresh(s)
        invariant View() == table && PortsChanged(OnAdd, before, service, portsToEndpoints, done, table)
      {
        var port :| port in todo;
        if ServicePortName(service, port) !in services || |portsToEndpoints[port]| > 0 {
          SetEndpoints(ServicePortName(service, port), portsToEndpoints[port]);
        }
        OneMorePort(OnAdd, before, service, portsToEndpoints, done, table, port, View());
        table := View();
        MoveOne(portsToEndpoints.Keys, done, todo, port);
        todo, done := todo - {port}, done + {port};
      }
    }

    method OnEndpointsDelete(endpoint: Endpoint, service: Service)
      requires Valid()
      modifies Repr
      ensures Valid()
      ensures View() == ResetPorts(old(View()), NameOf(service), PortMap(endpoint, service).Keys)
    {
      var portsToEndpoints := BuildPortsToEndpointsMap(endpoint, service);
      ghost var before, done := View(), {};
      var todo := portsToEndpoints.Keys;
      while todo != {}
        invariant done !! todo && done + todo == portsToEndpoints.Keys
        invariant Valid()
        invariant View() == ResetPorts(before, NameOf(service), done)
      {
        var port :| port in todo;
        ResetService(ServicePortName(NameOf(service), port));
        ResetOneMore(before, NameOf(service), done, port);
        MoveOne(portsToEndpoints.Keys, done, todo, port);
        todo, done := todo - {port}, done + {port};
      }
    }

    /** Never indexes out of range, and errs exactly when the entry is missing or empty. */
    method NextEndpoint(name: ServicePortName) returns (result: NextResult)
      requires Valid()
      modifies Repr
      ensures Valid()
      ensures View() == Advance(old(View()), name)
      ensures result == Upcoming(old(View()), name)
      ensures result.ErrMissingServiceEntry? <==> name !in old(View())
      ensures result.ErrMissingEndpoints? <==> name in old(View()) && old(View())[name].endpoints == []
      ensures result.Next? ==>
        var e := old(View())[name];
        e.index < |e.endpoints| && result.endpoint == e.endpoints[e.index]
    {
      if name !in services {
        return ErrMissingServiceEntry;
      }
      var state := services[name];
      assert View()[name] == state.View();
      if |state.endpoints| == 0 {
        return ErrMissingEndpoints;
      }
      result := Next(state.endpoints[state.index]);
      SetState(name, state.endpoints, (state.index + 1) % |state.endpoints|);
    }
  }

  /** The answer NextEndpoint gives in a table of valid entries. */
  function Upcoming(t: Table, name: ServicePortName): NextResult {
    if name !in t then ErrMissingServiceEntry
    else if t[name].endpoints == [] then ErrMissingEndpoints
    else if t[name].index < |t[name].endpoints| then Next(t[name].endpoints[t[name].index])
    else ErrMissingEndpoints
  }

  function Advance(t: Table, name: ServicePortName): Table {
    if name in t && t[name].endpoints != []
    then t[name := Entry(t[name].endpoints, (t[name].index + 1) % |t[name].endpoints|)]
    else t
  }

  /** The comparison in OnEndpointsUpdate: a clone of the current list against the new one,
      which comes back sorted when the lengths agree. */
  method Equivalent(current: seq<string>, endpoints: seq<string>) returns (same: bool, sorted: seq<string>)
    ensures same <==> multiset(current) == multiset(endpoints)
    ensures multiset(sorted) == multiset(endpoints)
  {
    if |current| != |endpoints| {
      assert |multiset(current)| == |current| && |multiset(endpoints)| == |endpoints|;
      return false, endpoints;
    }
    var clone := new string[|current|](i requires 0 <= i < |current| => current[i]);
    var newEndpoints := new string[|endpoints|](i requires 0 <= i < |endpoints| => endpoints[i]);
    assert clone[..] == current && newEndpoints[..] == endpoints;
    same := SlicesEquiv(clone, newEndpoints);
    sorted := newEndpoints[..];
  }

  lemma MoveOne<T>(all: set<T>, done: set<T>, todo: set<T>, x: T)
    requires x in todo && done !! todo && done + todo == all
    ensures (done + {x}) !! (todo - {x}) && (done + {x}) + (todo - {x}) == all
  {
  }

  lemma UpdatedThenReset(before: Table, service: NamespacedName, oldMap: map<string, seq<string>>,
                         newMap: map<string, seq<string>>, updated: Table, after: Table)
    requires PortsChanged(OnUpdate, before, service, newMap, newMap.Keys, updated)
    requires after == ResetPorts(updated, service, oldMap.Keys - newMap.Keys)
    ensures EndpointsUpdated(before, service, oldMap, newMap, after)
  {
  }

  lemma ResetOneMore(t: Table, service: NamespacedName, ports: set<string>, port: string)
    ensures ResetPorts(ResetPorts(t, service, ports), service, {port}) == ResetPorts(t, service, ports + {port})
  {
  }

  lemma OneMorePort(handler: Handler, before: Table, service: NamespacedName, m: map<string, seq<string>>,
                    done: set<string>, between: Table, port: string, after: Table)
    requires port in m && port !in done
    requires PortsChanged(handler, before, service, m, done, between)
    requires var name := ServicePortName(service, port);
      && name in after && after == between[name := after[name]]
      && EntryChanged(handler, Get(between, name), m[port], after[name])
    ensures PortsChanged(handler, before, service, m, done + {port}, after)
    ensures NamesIn(service, done + {port}) == NamesIn(service, done) + {ServicePortName(service, port)}
  {
    var name := ServicePortName(service, port);
    assert name !in NamesIn(service, done);
    assert NamesIn(service, done + {port}) == NamesIn(service, done) + {name};
    assert Get(before, name) == Get(between, name);
  }
}
