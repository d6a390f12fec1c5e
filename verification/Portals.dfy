/** The userspace Proxier: one listening portal per (service, port name, listen IP). */
module Portals {
  import opened Basics
  import opened LocalNet
  import opened Balancer

  /** ServicePortPortalName */
  datatype PortalName = PortalName(service: NamespacedName, port: string, ip: string)

  const ALL_INTERFACES := ""

  /** getListenIPPortMap reads the first cluster IP for every port. */
  predicate HasClusterIP(service: Service) {
    service.ports != [] ==> service.clusterV4 != []
  }

  // ----- the portals a service asks for -----

  function ListenIPs(clusterIP: string, externalIPs: seq<string>): set<string> {
    {clusterIP} + (set ip | ip in externalIPs)
  }

  function ListenTable(service: Service, listenPort: int, nodePort: int): map<string, int>
    requires service.clusterV4 != []
  {
    var ips := map ip | ip in ListenIPs(service.clusterV4[0], service.externalV4) :: listenPort;
    if nodePort != 0 then ips[ALL_INTERFACES := nodePort] else ips
  }

  function PortalsOn(service: NamespacedName, port: string, ips: set<string>): set<PortalName> {
    set ip | ip in ips :: PortalName(service, port, ip)
  }

  function PortTable(service: NamespacedName, port: string, protocol: Protocol, listen: map<string, int>): Portals {
    map name | name in PortalsOn(service, port, listen.Keys) :: Listener(listen[name.ip], protocol)
  }

  /** The IPs one port of a service listens on. */
  function IPsOfPort(service: Service, port: PortMapping): seq<string>
    requires service.clusterV4 != []
  {
    [service.clusterV4[0]] + service.externalV4 + if port.nodePort != 0 then [ALL_INTERFACES] else []
  }

  function ListenerOn(port: PortMapping, ip: string): Listener {
    Listener(if ip == ALL_INTERFACES && port.nodePort != 0 then port.nodePort else port.port, port.protocol)
  }

  /** The portals of one port on some IPs. */
  function TableOn(service: NamespacedName, port: PortMapping, ips: seq<string>): Portals {
    if ips == [] then map[]
    else TableOn(service, port, ips[1..])[PortalName(service, port.name, ips[0]) := ListenerOn(port, ips[0])]
  }

  function TableOfPort(service: Service, port: PortMapping): Portals
    requires service.clusterV4 != []
  {
    TableOn(NameOf(service), port, IPsOfPort(service, port))
  }

  lemma {:induction false} TableLookup(service: NamespacedName, port: PortMapping, ips: seq<string>, name: PortalName)
    ensures Get(TableOn(service, port, ips), name) ==
      if name.service == service && name.port == port.name && name.ip in ips then Some(ListenerOn(port, name.ip))
      else None
  {
    if ips != [] {
      TableLookup(service, port, ips[1..], name);
    }
  }

  lemma SameTable(a: Portals, b: Portals)
    requires forall name: PortalName :: Get(a, name) == Get(b, name)
    ensures a == b
  {
    forall name: PortalName ensures name in a <==> name in b
      ensures name in a ==> a[name] == b[name]
    {
      assert Get(a, name) == Get(b, name);
    }
  }

  lemma TableFromListenTable(service: Service, port: PortMapping)
    requires service.clusterV4 != []
    ensures PortTable(NameOf(service), port.name, port.protocol, ListenTable(service, port.port, port.nodePort)) ==
      TableOfPort(service, port)
  {
    var listen := ListenTable(service, port.port, port.nodePort);
    var table := PortTable(NameOf(service), port.name, port.protocol, listen);
    forall name: PortalName ensures Get(table, name) == Get(TableOfPort(service, port), name) {
      TableLookup(NameOf(service), port, IPsOfPort(service, port), name);
      assert name.ip in listen <==> name.ip in IPsOfPort(service, port);
    }
    SameTable(table, TableOfPort(service, port));
  }

  lemma KeysFromListenTable(service: Service, port: PortMapping)
    requires service.clusterV4 != []
    ensures PortalsOn(NameOf(service), port.name, ListenTable(service, port.port, port.nodePort).Keys) ==
      TableOfPort(service, port).Keys
  {
    TableFromListenTable(service, port);
    var listen := ListenTable(service, port.port, port.nodePort);
    assert PortTable(NameOf(service), port.name, port.protocol, listen).Keys ==
      PortalsOn(NameOf(service), port.name, listen.Keys);
  }

  /** Portals and listen ports asked for by the first k ports; a later port with the same
      name overrides an earlier one. */
  function PortalsOfFirst(service: Service, k: nat): Portals
    requires k <= |service.ports| && HasClusterIP(service)
  {
    if k == 0 then map[]
    else
      PortalsOfFirst(service, k - 1) + TableOfPort(service, service.ports[k - 1])
  }

  function PortalTable(service: Service): Portals
    requires HasClusterIP(service)
  {
    PortalsOfFirst(service, |service.ports|)
  }

  /** The portals belong to the service, and each of these port names has one. */
  ghost predicate BelongTo(table: Portals, service: NamespacedName, ports: set<string>) {
    && (forall name :: name in table ==> name.service == service && name.port in ports)
    && (forall p :: p in ports ==> exists name :: name in table && name.port == p)
  }

  lemma TableBelongsToPort(service: Service, port: PortMapping)
    requires service.clusterV4 != []
    ensures BelongTo(TableOfPort(service, port), NameOf(service), {port.name})
  {
    forall name: PortalName ensures name in TableOfPort(service, port) <==>
      name.service == NameOf(service) && name.port == port.name && name.ip in IPsOfPort(service, port)
    {
      TableLookup(NameOf(service), port, IPsOfPort(service, port), name);
    }
    assert PortalName(NameOf(service), port.name, service.clusterV4[0]) in TableOfPort(service, port);
  }

  lemma BelongTogether(a: Portals, b: Portals, service: NamespacedName, ports: set<string>, more: set<string>)
    requires BelongTo(a, service, ports) && BelongTo(b, service, more)
    ensures BelongTo(a + b, service, ports + more)
  {
  }

  lemma {:induction false} PortalsBelongToPorts(service: Service, k: nat)
    requires k <= |service.ports| && HasClusterIP(service)
    ensures BelongTo(PortalsOfFirst(service, k), NameOf(service), Names(service.ports[..k]))
  {
    if k == 0 {
      assert PortalsOfFirst(service, 0) == map[];
    } else {
      PortalsBelongToPorts(service, k - 1);
      NextPortBelongs(service, k, PortalsOfFirst(service, k - 1), PortalsOfFirst(service, k));
    }
  }

  lemma NextPortBelongs(service: Service, k: nat, before: Portals, after: Portals)
    requires 0 < k <= |service.ports| && HasClusterIP(service)
    requires after == before + TableOfPort(service, service.ports[k - 1])
    requires BelongTo(before, NameOf(service), Names(service.ports[..k - 1]))
    ensures BelongTo(after, NameOf(service), Names(service.ports[..k]))
  {
    var port := service.ports[k - 1];
    NamesOneMore(service.ports, k - 1);
    TableBelongsToPort(service, port);
    BelongTogether(before, TableOfPort(service, port), NameOf(service), Names(service.ports[..k - 1]), {port.name});
  }

  // ----- what merging does to the portals -----

  /** What a portal listens on. */
  datatype Listener = Listener(port: int, protocol: Protocol)

  type Portals = map<PortalName, Listener>

  type Offers = set<(PortalName, Listener)>

  predicate OnPort(listener: Option<Listener>, port: int) {
    listener.Some? && listener.value.port == port
  }

  /** Each asked-for portal was set to a listener on offer or, if it could not be opened,
      left alone; unless one failed, all of them are on their port. */
  ghost predicate Merged(before: Portals, table: Portals, offers: Offers, succeeded: bool, after: Portals) {
    && (forall name: PortalName {:trigger Get(after, name)} {:trigger Get(before, name)} ::
          Get(after, name) != Get(before, name) ==>
            name in table && name in after && (name, after[name]) in offers)
    && (succeeded ==> AllSet(table, after))
  }

  /** Every asked-for portal is mapped on the listen port asked for. */
  ghost predicate AllSet(table: Portals, portals: Portals) {
    forall name: PortalName {:trigger Get(portals, name)} ::
      name in table ==> OnPort(Get(portals, name), table[name].port)
  }

  /** A portal that was on the asked-for port already is left alone, whatever its protocol. */
  ghost predicate SameConfigKept(before: Portals, table: Portals, after: Portals) {
    forall name: PortalName {:trigger Get(after, name)} {:trigger Get(before, name)} ::
      name in table && OnPort(Get(before, name), table[name].port) ==> Get(after, name) == Get(before, name)
  }

  predicate UniquePortNames(ports: seq<PortMapping>) {
    forall i, j :: 0 <= i < j < |ports| ==> ports[i].name != ports[j].name
  }

  /** What the ports of a service offer; ports with the same name may offer different listen
      ports for the same portal. */
  function OffersOfFirst(service: Service, k: nat): Offers
    requires k <= |service.ports| && HasClusterIP(service)
  {
    if k == 0 then {} else OffersOfFirst(service, k - 1) + TableOfPort(service, service.ports[k - 1]).Items
  }

  function OffersOf(service: Service): Offers
    requires HasClusterIP(service)
  {
    OffersOfFirst(service, |service.ports|)
  }

  /** For one port, every portal on its own is set to its listener unless it is on that port already
      or, if that fails, left alone, and a portal that fails is not on its port. */
  ghost predicate MergedTable(before: Portals, table: Portals, succeeded: bool, after: Portals) {
    && Merged(before, table, table.Items, succeeded, after) && (succeeded <==> AllSet(table, after))
    && SameConfigKept(before, table, after)
  }

  /** For a service the same holds if no later port overrides an earlier one. */
  ghost predicate MergedFully(service: Service, before: Portals, succeeded: bool, after: Portals)
    requires HasClusterIP(service)
  {
    UniquePortNames(service.ports) ==>
      (succeeded <==> AllSet(PortalTable(service), after)) && SameConfigKept(before, PortalTable(service), after)
  }

  lemma MergedInTurn(before: Portals, table1: Portals, offers1: Offers, ok1: bool, between: Portals, table2: Portals,
                     offers2: Offers, ok2: bool, after: Portals)
    requires Merged(before, table1, offers1, ok1, between) && Merged(between, table2, offers2, ok2, after)
    ensures Merged(before, table1 + table2, offers1 + offers2, ok1 && ok2, after)
  {
  }

  /** One portal is opened unless it is on that port already or fails to open. */
  function AfterMerge(portals: Portals, name: PortalName, listener: Listener, ok: bool): Portals {
    if ok && !OnPort(Get(portals, name), listener.port) then portals[name := listener] else portals
  }

  /** NewService for each of the names: missing entries appear empty, present ones stay. */
  function WithEntries(t: Table, names: set<ServicePortName>): Table {
    (map name | name in names :: EMPTY) + t
  }

  // ----- the object -----

  class ServiceInfo {
    var isAlive: bool
    /** Whether its proxy socket has not been closed. */
    var socketOpen: bool
    const portalIP: string
    const portalPort: int
    const protocol: Protocol
    /** The only name this info is ever mapped under. */
    ghost const name: PortalName

    constructor (ghost name: PortalName, ip: string, port: int, protocol: Protocol)
      ensures isAlive && socketOpen && this.name == name
      ensures portalIP == ip && portalPort == port && this.protocol == protocol
    {
      isAlive, socketOpen := true, true;
      this.name := name;
      portalIP, portalPort, this.protocol := ip, port, protocol;
    }

    ghost predicate Serves(portal: PortalName)
      reads this
    {
      isAlive && socketOpen && name == portal && portalIP == portal.ip
    }
  }

  class Proxier {
    const loadBalancer: LoadBalancerRR
    var serviceMap: map<PortalName, ServiceInfo>
    ghost var Repr: set<ServiceInfo>
    /** The portals that failed to open so far. */
    ghost var failed: seq<PortalName>

    /** Every mapped info is alive, with its socket open, on the IP of its name, and mapped under
        this name only. */
    ghost predicate Valid()
      reads this, Repr
    {
      forall a :: a in serviceMap ==> serviceMap[a] in Repr && serviceMap[a].Serves(a)
    }

    /** What every mapped portal listens on. */
    ghost function View(): Portals
      reads this
    {
      map name | name in serviceMap :: Listener(serviceMap[name].portalPort, serviceMap[name].protocol)
    }

    constructor (loadBalancer: LoadBalancerRR)
      ensures Valid() && this.loadBalancer == loadBalancer && Repr == {} && View() == map[]
      ensures failed == []
    {
      this.loadBalancer := loadBalancer;
      serviceMap, Repr, failed := map[], {}, [];
    }

    method GetListenIPPortMap(service: Service, listenPort: int, nodePort: int) returns (listen: map<string, int>)
      requires service.clusterV4 != []
      ensures listen == ListenTable(service, listenPort, nodePort)
    {
      listen := map[service.clusterV4[0] := listenPort];
      for i := 0 to |service.externalV4|
        invariant listen == map ip | ip in ListenIPs(service.clusterV4[0], service.externalV4[..i]) :: listenPort
      {
        listen := listen[service.externalV4[i] := listenPort];
      }
      assert service.externalV4[..|service.externalV4|] == service.externalV4;
      if nodePort != 0 {
        listen := listen[ALL_INTERFACES := nodePort];
      }
    }

    /** addServicePortPortal: the address, netsh and socket calls may fail. */
    method AddServicePortPortal(name: PortalName, protocol: Protocol, ip: string, port: int) returns (ok: bool)
      requires Valid() && ip == name.ip
      modifies this
      ensures ok ==> name in serviceMap && fresh(serviceMap[name]) && serviceMap[name].protocol == protocol
      ensures Valid() && forall s :: s in Repr ==> s in old(Repr) || fresh(s)
      ensures View() == if ok then old(View())[name := Listener(port, protocol)] else old(View())
      ensures failed == old(failed) + if ok then [] else [name]
    {
      ok := *;
      if !ok {
        failed := failed + [name];
        return;
      }
      var info := new ServiceInfo(name, ip, port, protocol);
      serviceMap, Repr := serviceMap[name := info], Repr + {info};
    }

    /** The body of the inner loop of mergeService. */
    method MergePortal(name: PortalName, protocol: Protocol, listenPort: int) returns (ok: bool)
      requires Valid()
      modifies this
      ensures Valid() && forall s :: s in Repr ==> s in old(Repr) || fresh(s)
      ensures View() == AfterMerge(old(View()), name, Listener(listenPort, protocol), ok)
      ensures failed == old(failed) + if ok then [] else [name]
      ensures !ok ==> !OnPort(Get(View(), name), listenPort)
    {
      if name in serviceMap && serviceMap[name].portalPort == listenPort {
        return true;
      }
      ok := AddServicePortPortal(name, protocol, name.ip, listenPort);
    }

    /** The inner loop of mergeService. */
    method MergePort(service: NamespacedName, port: string, protocol: Protocol, listen: map<string, int>)
      returns (existing: set<PortalName>, ghost succeeded: bool)
      requires Valid()
      modifies this
      ensures Valid() && forall s :: s in Repr ==> s in old(Repr) || fresh(s)
      ensures MergedTable(old(View()), PortTable(service, port, protocol, listen), succeeded, View())
      ensures old(failed) <= failed && (succeeded <==> failed == old(failed))
      ensures existing == PortalsOn(service, port, listen.Keys)
    {
      existing, succeeded := {}, true;
      ghost var before, view := View(), View();
      var todo := listen.Keys;
      StartPort(before, service, port, protocol, listen);
      while todo != {}
        invariant todo <= listen.Keys
        invariant Valid() && forall s :: s in Repr ==> s in old(Repr) || fresh(s)
        invariant old(failed) <= failed && (succeeded <==> failed == old(failed))
        invariant View() == view
        invariant MergedExcept(before, service, port, protocol, listen, todo, existing, succeeded, view)
      {
        var ip :| ip in todo;
        var ok := MergePortal(PortalName(service, port, ip), protocol, listen[ip]);
        MergedOnePortal(before, service, port, protocol, listen, todo, existing, succeeded, view, ip, ok, View());
        existing := existing + {PortalName(service, port, ip)};
        succeeded := succeeded && ok;
        view := View();
        todo := todo - {ip};
      }
      EndPort(before, service, port, protocol, listen, existing, succeeded, view);
    }

    method MergeService(service: Service) returns (existing: set<PortalName>, ghost succeeded: bool)
      requires Valid() && loadBalancer.Valid() && HasClusterIP(service)
      modifies this, loadBalancer
      ensures Valid() && forall s :: s in Repr ==> s in old(Repr) || fresh(s)
      ensures loadBalancer.Valid() && forall s :: s in loadBalancer.Repr ==> s in old(loadBalancer.Repr) || fresh(s)
      ensures existing == PortalTable(service).Keys
      ensures Merged(old(View()), PortalTable(service), OffersOf(service), succeeded, View())
      ensures old(failed) <= failed && (succeeded <==> failed == old(failed))
      ensures MergedFully(service, old(View()), succeeded, View())
      ensures loadBalancer.View() == WithEntries(old(loadBalancer.View()), NamesIn(NameOf(service), PortNames(service)))
    {
      ghost var before, table := View(), loadBalancer.View();
      ghost var portals, entries := MergingPortals(before, service), OfferingEntries(table, service);
      ghost var keeps := Both(portals, entries);
      StartPorts(service, before, table);
      PortalsKept(before, service);
      EntriesKept(table, service);
      BothKept(service, portals, entries);
      existing, succeeded := MergePorts(service, keeps);
      EndPorts(before, table, service, existing, succeeded, View(), loadBalancer.View());
    }

    /** The loop of mergeService ends in what holds at the start and every turn keeps. */
    method MergePorts(service: Service, ghost keeps: (nat, Progress) -> bool)
      returns (existing: set<PortalName>, ghost succeeded: bool)
      requires Valid() && loadBalancer.Valid() && HasClusterIP(service)
      requires EveryTurnKeeps(service, keeps) && keeps(0, Progress({}, true, View(), loadBalancer.View()))
      modifies this, loadBalancer
      ensures Valid() && forall s :: s in Repr ==> s in old(Repr) || fresh(s)
      ensures loadBalancer.Valid() && forall s :: s in loadBalancer.Repr ==> s in old(loadBalancer.Repr) || fresh(s)
      ensures old(failed) <= failed && (succeeded <==> failed == old(failed))
      ensures keeps(|service.ports|, Progress(existing, succeeded, View(), loadBalancer.View()))
    {
      existing, succeeded := {}, true;
      for i := 0 to |service.ports|
        invariant Valid() && forall s :: s in Repr ==> s in old(Repr) || fresh(s)
        invariant loadBalancer.Valid() && forall s :: s in loadBalancer.Repr ==> s in old(loadBalancer.Repr) || fresh(s)
        invariant old(failed) <= failed && (succeeded <==> failed == old(failed))
        invariant keeps(i, Progress(existing, succeeded, View(), loadBalancer.View()))
      {
        existing, succeeded := MergeNextPort(service, i, existing, succeeded, keeps);
      }
    }

    /** One turn of that loop. */
    method MergeNextPort(service: Service, i: nat, portals: set<PortalName>, ghost ok: bool,
                         ghost keeps: (nat, Progress) -> bool)
      returns (existing: set<PortalName>, ghost succeeded: bool)
      requires Valid() && loadBalancer.Valid() && HasClusterIP(service) && i < |service.ports|
      requires EveryTurnKeeps(service, keeps) && keeps(i, Progress(portals, ok, View(), loadBalancer.View()))
      modifies this, loadBalancer
      ensures Valid() && forall s :: s in Repr ==> s in old(Repr) || fresh(s)
      ensures loadBalancer.Valid() && forall s :: s in loadBalancer.Repr ==> s in old(loadBalancer.Repr) || fresh(s)
      ensures old(failed) <= failed && (succeeded <==> ok && failed == old(failed))
      ensures keeps(i + 1, Progress(existing, succeeded, View(), loadBalancer.View()))
    {
      ghost var before := Progress(portals, ok, View(), loadBalancer.View());
      var more, allOpen := MergeOnePort(service, service.ports[i]);
      existing, succeeded := portals + more, ok && allOpen;
      TurnKeeps(service, keeps, i, before, allOpen, Progress(existing, succeeded, View(), loadBalancer.View()));
    }

    /** The portals of one port, then its load balancer entry. */
    method MergeOnePort(service: Service, port: PortMapping) returns (existing: set<PortalName>, ghost succeeded: bool)
      requires Valid() && loadBalancer.Valid() && service.clusterV4 != []
      modifies this, loadBalancer
      ensures Valid() && forall s :: s in Repr ==> s in old(Repr) || fresh(s)
      ensures loadBalancer.Valid() && forall s :: s in loadBalancer.Repr ==> s in old(loadBalancer.Repr) || fresh(s)
      ensures existing == TableOfPort(service, port).Keys
      ensures MergedTable(old(View()), TableOfPort(service, port), succeeded, View())
      ensures old(failed) <= failed && (succeeded <==> failed == old(failed))
      ensures var name, t := ServicePortName(NameOf(service), port.name), old(loadBalancer.View());
        loadBalancer.View() == t[name := if name in t then t[name] else EMPTY]
    {
      var listenIPs;
      listenIPs, existing, succeeded := MergePortalsOf(service, port);
      label merged:
      if listenIPs > 0 {
        loadBalancer.NewService(ServicePortName(NameOf(service), port.name));
      }
      assert unchanged@merged(this) && unchanged@merged(Repr);
    }

    method MergePortalsOf(service: Service, port: PortMapping)
      returns (listenIPs: nat, existing: set<PortalName>, ghost succeeded: bool)
      requires Valid() && loadBalancer.Valid() && service.clusterV4 != []
      modifies this
      ensures Valid() && forall s :: s in Repr ==> s in old(Repr) || fresh(s)
      ensures listenIPs > 0 && existing == TableOfPort(service, port).Keys
      ensures MergedTable(old(View()), TableOfPort(service, port), succeeded, View())
      ensures old(failed) <= failed && (succeeded <==> failed == old(failed))
      ensures loadBalancer.Valid() && loadBalancer.Repr == old(loadBalancer.Repr)
      ensures loadBalancer.View() == old(loadBalancer.View())
    {
      var listen := GetListenIPPortMap(service, port.port, port.nodePort);
      TableFromListenTable(service, port);
      KeysFromListenTable(service, port);
      existing, succeeded := MergePort(NameOf(service), port.name, port.protocol, listen);
      assert unchanged(loadBalancer) && unchanged(loadBalancer.Repr);
      SomewhereToListen(service, port);
      listenIPs := |listen|;
    }

    /** stopProxyInternal, which every closeServicePortPortal reaches before it can fail; `closed`
        says that closing the socket did not report an error. */
    method StopProxyInternal(name: PortalName) returns (closed: bool)
      requires Valid() && name in serviceMap
      modifies this, serviceMap[name]
      ensures Valid() && Repr == old(Repr) && !old(serviceMap[name]).isAlive && !old(serviceMap[name]).socketOpen
      ensures View() == old(View()) - {name} && failed == old(failed)
    {
      var info := serviceMap[name];
      serviceMap := serviceMap - {name};
      info.isAlive := false;
      info.socketOpen := false;
      closed := *;
    }

    /** The inner loop of unmergeService. */
    method UnmergePort(service: NamespacedName, port: string, listen: map<string, int>, existing: set<PortalName>)
      requires Valid()
      modifies this, Repr
      ensures Valid() && Repr == old(Repr) && failed == old(failed)
      ensures View() == Without(old(View()), PortalsOn(service, port, listen.Keys), existing)
    {
      ghost var before, view := View(), View();
      var todo := listen.Keys;
      StartRemoval(before, service, port, listen, existing);
      while todo != {}
        invariant todo <= listen.Keys
        invariant Valid() && Repr == old(Repr) && failed == old(failed)
        invariant View() == view && RemovedExcept(before, service, port, listen, todo, existing, view)
      {
        var ip :| ip in todo;
        UnmergePortal(PortalName(service, port, ip), existing);
        RemovedOnePortal(before, service, port, listen, todo, existing, view, ip, View());
        view := View();
        todo := todo - {ip};
      }
      EndRemoval(before, service, port, listen, existing, view);
    }

    method UnmergePortal(name: PortalName, existing: set<PortalName>)
      requires Valid()
      modifies this, Repr
      ensures Valid() && Repr == old(Repr) && failed == old(failed)
      ensures View() == Without(old(View()), {name}, existing)
    {
      if name in existing {
        return;
      }
      if name !in serviceMap {
        return;
      }
      var _ := StopProxyInternal(name);
    }

    /** The body of the unmergeService loop: drop the port's portals that are not in `existing`,
        and its load balancer entry when none of its portals is. */
    method UnmergeOnePort(service: Service, port: PortMapping, existing: set<PortalName>, kept: set<ServicePortName>)
      requires Valid() && loadBalancer.Valid() && service.clusterV4 != []
      modifies this, Repr, loadBalancer
      ensures Valid() && Repr == old(Repr) && failed == old(failed)
      ensures loadBalancer.Valid() && loadBalancer.Repr == old(loadBalancer.Repr)
      ensures View() == Without(old(View()), TableOfPort(service, port).Keys, existing)
      ensures loadBalancer.View() ==
        Without(old(loadBalancer.View()), {ServicePortName(NameOf(service), port.name)}, kept)
    {
      UnmergePortalsOf(service, port, existing);
      DropUnlessKept(ServicePortName(NameOf(service), port.name), kept);
    }

    method UnmergePortalsOf(service: Service, port: PortMapping, existing: set<PortalName>)
      requires Valid() && loadBalancer.Valid() && service.clusterV4 != []
      modifies this, Repr
      ensures Valid() && Repr == old(Repr) && failed == old(failed)
      ensures View() == Without(old(View()), TableOfPort(service, port).Keys, existing)
      ensures loadBalancer.Valid() && loadBalancer.Repr == old(loadBalancer.Repr)
      ensures loadBalancer.View() == old(loadBalancer.View())
    {
      var listen := GetListenIPPortMap(service, port.port, port.nodePort);
      KeysFromListenTable(service, port);
      UnmergePort(NameOf(service), port.name, listen, existing);
      assert unchanged(loadBalancer) && unchanged(loadBalancer.Repr);
    }

    method DropUnlessKept(name: ServicePortName, kept: set<ServicePortName>)
      requires loadBalancer.Valid()
      modifies loadBalancer
      ensures loadBalancer.Valid() && loadBalancer.Repr == old(loadBalancer.Repr)
      ensures loadBalancer.View() == Without(old(loadBalancer.View()), {name}, kept)
    {
      if name !in kept {
        loadBalancer.DeleteService(name);
      }
    }

    method UnmergeService(service: Service, existing: set<PortalName>)
      requires Valid() && loadBalancer.Valid() && HasClusterIP(service)
      modifies this, Repr, loadBalancer
      ensures Valid() && Repr == old(Repr) && failed == old(failed)
      ensures loadBalancer.Valid() && loadBalancer.Repr == old(loadBalancer.Repr)
      ensures View() == Without(old(View()), PortalTable(service).Keys, existing)
      ensures loadBalancer.View() == Without(old(loadBalancer.View()), NamesIn(NameOf(service), PortNames(service)),
        KeptNames(service, existing))
    {
      var kept := KeptNames(service, existing);
      ghost var before, table := View(), loadBalancer.View();
      assert PortalsOfFirst(service, 0).Keys - existing == {};
      assert NamesIn(NameOf(service), Names(service.ports[..0])) - kept == {};
      for i := 0 to |service.ports|
        invariant Valid() && Repr == old(Repr) && failed == old(failed)
        invariant loadBalancer.Valid() && loadBalancer.Repr == old(loadBalancer.Repr)
        invariant View() == Without(before, PortalsOfFirst(service, i).Keys, existing)
        invariant loadBalancer.View() == Without(table, NamesIn(NameOf(service), Names(service.ports[..i])), kept)
      {
        UnmergeOnePort(service, service.ports[i], existing, kept);
        RemovedOnePort(before, table, service, i, existing, kept);
      }
      assert service.ports[..|service.ports|] == service.ports;
    }

    method OnServiceAdd(service: Service) returns (ghost succeeded: bool)
      requires Valid() && loadBalancer.Valid() && HasClusterIP(service)
      modifies this, loadBalancer
      ensures Valid() && forall s :: s in Repr ==> s in old(Repr) || fresh(s)
      ensures loadBalancer.Valid() && forall s :: s in loadBalancer.Repr ==> s in old(loadBalancer.Repr) || fresh(s)
      ensures Merged(old(View()), PortalTable(service), OffersOf(service), succeeded, View())
      ensures old(failed) <= failed && (succeeded <==> failed == old(failed))
      ensures MergedFully(service, old(View()), succeeded, View())
      ensures loadBalancer.View() == WithEntries(old(loadBalancer.View()), NamesIn(NameOf(service), PortNames(service)))
    {
      var _, ok := MergeService(service);
      succeeded := ok;
    }

    /** First the new version is merged, then what only the old one had is removed. */
    method OnServiceUpdate(oldService: Service, service: Service) returns (ghost succeeded: bool)
      requires Valid() && loadBalancer.Valid() && HasClusterIP(oldService) && HasClusterIP(service)
      requires NameOf(oldService) == NameOf(service)
      modifies this, Repr, loadBalancer
      ensures Valid() && forall s :: s in Repr ==> s in old(Repr) || fresh(s)
      ensures loadBalancer.Valid() && forall s :: s in loadBalancer.Repr ==> s in old(loadBalancer.Repr) || fresh(s)
      ensures Updated(old(View()), PortalTable(oldService), PortalTable(service), OffersOf(service), succeeded, View())
      ensures old(failed) <= failed && (succeeded <==> failed == old(failed))
      ensures MergedFully(service, old(View()), succeeded, View())
      ensures loadBalancer.View() == WithEntries(old(loadBalancer.View()), NamesIn(NameOf(service), PortNames(service)))
        - NamesIn(NameOf(service), PortNames(oldService) - PortNames(service))
    {
      var existing, ok := MergeService(service);
      succeeded := ok;
      ghost var merged, table := View(), loadBalancer.View();
      UnmergeService(oldService, existing);
      KeptNamesAreNew(oldService, service);
      assert Merged(old(View()), PortalTable(service), OffersOf(service), succeeded, merged);
      UnmergedElsewhere(merged, PortalTable(oldService), PortalTable(service), View());
    }

    method OnServiceDelete(service: Service)
      requires Valid() && loadBalancer.Valid() && HasClusterIP(service)
      modifies this, Repr, loadBalancer
      ensures Valid() && Repr == old(Repr) && failed == old(failed)
      ensures loadBalancer.Valid() && loadBalancer.Repr == old(loadBalancer.Repr)
      ensures View() == old(View()) - PortalTable(service).Keys
      ensures loadBalancer.View() == old(loadBalancer.View()) - NamesIn(NameOf(service), PortNames(service))
    {
      UnmergeService(service, {});
      assert KeptNames(service, {}) == {};
    }
  }

  /** `m` without the keys in `gone`, except those in `kept`. */
  function Without<K, V>(m: map<K, V>, gone: set<K>, kept: set<K>): map<K, V> {
    m - (gone - kept)
  }

  /** servicePortNameMap of unmergeService: the port names that still have a portal. */
  function KeptNames(service: Service, existing: set<PortalName>): set<ServicePortName> {
    set name | name in existing :: ServicePortName(NameOf(service), name.port)
  }

  /** A service update: portals only the old version asked for are gone, the others merged. */
  ghost predicate Updated(before: Portals, oldTable: Portals, newTable: Portals, offers: Offers, succeeded: bool,
                          after: Portals) {
    exists merged ::
      Merged(before, newTable, offers, succeeded, merged) && after == merged - (oldTable.Keys - newTable.Keys)
  }

  /** What is removed after a merge leaves the portals asked for alone. */
  lemma UnmergedElsewhere(merged: Portals, oldTable: Portals, newTable: Portals, after: Portals)
    requires after == merged - (oldTable.Keys - newTable.Keys)
    ensures AllSet(newTable, after) <==> AllSet(newTable, merged)
  {
    forall name: PortalName | name in newTable ensures Get(after, name) == Get(merged, name) {
    }
  }

  lemma KeptNamesAreNew(oldService: Service, service: Service)
    requires HasClusterIP(service) && NameOf(oldService) == NameOf(service)
    ensures NamesIn(NameOf(service), PortNames(oldService)) - KeptNames(oldService, PortalTable(service).Keys) ==
      NamesIn(NameOf(service), PortNames(oldService) - PortNames(service))
  {
    PortalsBelongToPorts(service, |service.ports|);
    assert service.ports[..|service.ports|] == service.ports;
    var kept := KeptNames(oldService, PortalTable(service).Keys);
    forall p ensures ServicePortName(NameOf(service), p) in kept <==> p in PortNames(service) {
      if p in PortNames(service) {
        var name :| name in PortalTable(service) && name.port == p;
        assert ServicePortName(NameOf(service), name.port) in KeptNames(oldService, PortalTable(service).Keys);
      }
    }
  }

  /** Half-way through one port of an unmerge. */
  ghost predicate RemovedExcept(before: Portals, service: NamespacedName, port: string, listen: map<string, int>,
                                todo: set<string>, existing: set<PortalName>, view: Portals) {
    view == Without(before, PortalsOn(service, port, listen.Keys - todo), existing)
  }

  lemma StartRemoval(before: Portals, service: NamespacedName, port: string, listen: map<string, int>,
                     existing: set<PortalName>)
    ensures RemovedExcept(before, service, port, listen, listen.Keys, existing, before)
  {
  }

  lemma RemovedOnePortal(before: Portals, service: NamespacedName, port: string, listen: map<string, int>,
                         todo: set<string>, existing: set<PortalName>, view: Portals, ip: string, view': Portals)
    requires ip in todo && todo <= listen.Keys
    requires RemovedExcept(before, service, port, listen, todo, existing, view)
    requires view' == Without(view, {PortalName(service, port, ip)}, existing)
    ensures RemovedExcept(before, service, port, listen, todo - {ip}, existing, view')
  {
  }

  lemma EndRemoval(before: Portals, service: NamespacedName, port: string, listen: map<string, int>,
                   existing: set<PortalName>, view: Portals)
    requires RemovedExcept(before, service, port, listen, {}, existing, view)
    ensures view == Without(before, PortalsOn(service, port, listen.Keys), existing)
  {
  }

  lemma RemovedTwice<K, V>(m: map<K, V>, a: set<K>, b: set<K>, kept: set<K>)
    ensures Without(Without(m, a, kept), b, kept) == Without(m, a + b, kept)
  {
  }

  lemma RemovedOnePort(before: Portals, table: Table, service: Service, i: nat, existing: set<PortalName>,
                       kept: set<ServicePortName>)
    requires i < |service.ports| && HasClusterIP(service)
    ensures Without(Without(before, PortalsOfFirst(service, i).Keys, existing),
      TableOfPort(service, service.ports[i]).Keys, existing)
      == Without(before, PortalsOfFirst(service, i + 1).Keys, existing)
    ensures Without(Without(table, NamesIn(NameOf(service), Names(service.ports[..i])), kept),
      {ServicePortName(NameOf(service), service.ports[i].name)}, kept)
      == Without(table, NamesIn(NameOf(service), Names(service.ports[..i + 1])), kept)
  {
    NamesOneMore(service.ports, i);
    NamesInOneMore(NameOf(service), Names(service.ports[..i]), service.ports[i].name);
    RemovedTwice(before, PortalsOfFirst(service, i).Keys, TableOfPort(service, service.ports[i]).Keys, existing);
    RemovedTwice(table, NamesIn(NameOf(service), Names(service.ports[..i])),
      {ServicePortName(NameOf(service), service.ports[i].name)}, kept);
    assert PortalsOfFirst(service, i + 1).Keys ==
      PortalsOfFirst(service, i).Keys + TableOfPort(service, service.ports[i]).Keys;
  }

  lemma NamesInOneMore(service: NamespacedName, ports: set<string>, port: string)
    ensures NamesIn(service, ports + {port}) == NamesIn(service, ports) + {ServicePortName(service, port)}
  {
  }

  lemma SomewhereToListen(service: Service, port: PortMapping)
    requires service.clusterV4 != []
    ensures |ListenTable(service, port.port, port.nodePort)| > 0
  {
    assert service.clusterV4[0] in ListenTable(service, port.port, port.nodePort);
  }

  // ----- the merging loops on values -----

  /** Half-way through one port: the listen IPs in `todo` are still to come. */
  ghost predicate MergedExcept(before: Portals, service: NamespacedName, port: string, protocol: Protocol,
                               listen: map<string, int>, todo: set<string>, existing: set<PortalName>,
                               succeeded: bool, view: Portals) {
    var asked := PortTable(service, port, protocol, listen - todo);
    MergedTable(before, asked, succeeded, view) && existing == asked.Keys
  }

  lemma StartPort(before: Portals, service: NamespacedName, port: string, protocol: Protocol, listen: map<string, int>)
    ensures MergedExcept(before, service, port, protocol, listen, listen.Keys, {}, true, before)
  {
  }

  lemma MergedOneMore(before: Portals, table: Portals, succeeded: bool, view: Portals, name: PortalName,
                      listener: Listener, ok: bool, view': Portals)
    requires MergedTable(before, table, succeeded, view) && name !in table
    requires view' == AfterMerge(view, name, listener, ok) && (!ok ==> !OnPort(Get(view, name), listener.port))
    ensures MergedTable(before, table + map[name := listener], succeeded && ok, view')
  {
    assert Get(view, name) == Get(before, name);
    assert forall n: PortalName :: n != name ==> Get(view', n) == Get(view, n);
  }

  lemma MergedOnePortal(before: Portals, service: NamespacedName, port: string, protocol: Protocol,
                        listen: map<string, int>, todo: set<string>, existing: set<PortalName>, succeeded: bool,
                        view: Portals, ip: string, ok: bool, view': Portals)
    requires ip in todo && todo <= listen.Keys
    requires MergedExcept(before, service, port, protocol, listen, todo, existing, succeeded, view)
    requires view' == AfterMerge(view, PortalName(service, port, ip), Listener(listen[ip], protocol), ok)
    requires !ok ==> !OnPort(Get(view, PortalName(service, port, ip)), listen[ip])
    ensures MergedExcept(before, service, port, protocol, listen, todo - {ip},
      existing + {PortalName(service, port, ip)}, succeeded && ok, view')
  {
    var asked, name := PortTable(service, port, protocol, listen - todo), PortalName(service, port, ip);
    assert listen - (todo - {ip}) == (listen - todo)[ip := listen[ip]];
    TableOneMore(service, port, protocol, listen - todo, ip, listen[ip]);
    MergedOneMore(before, asked, succeeded, view, name, Listener(listen[ip], protocol), ok, view');
  }

  lemma EndPort(before: Portals, service: NamespacedName, port: string, protocol: Protocol, listen: map<string, int>,
                existing: set<PortalName>, succeeded: bool, view: Portals)
    requires MergedExcept(before, service, port, protocol, listen, {}, existing, succeeded, view)
    ensures MergedTable(before, PortTable(service, port, protocol, listen), succeeded, view)
    ensures existing == PortalsOn(service, port, listen.Keys)
  {
    assert listen - {} == listen;
  }

  /** After some ports: their tables summed, and failures show if no table overrides another. */
  ghost predicate MergedSum(before: Portals, table: Portals, offers: Offers, apart: bool, existing: set<PortalName>,
                            succeeded: bool, view: Portals) {
    && Merged(before, table, offers, succeeded, view) && existing == table.Keys
    && (apart ==> (succeeded <==> AllSet(table, view)) && SameConfigKept(before, table, view))
  }

  ghost predicate MergedFirst(before: Portals, service: Service, k: nat, existing: set<PortalName>, succeeded: bool,
                              view: Portals)
    requires k <= |service.ports| && HasClusterIP(service)
  {
    MergedSum(before, PortalsOfFirst(service, k), OffersOfFirst(service, k), UniquePortNames(service.ports[..k]),
              existing, succeeded, view)
  }

  ghost predicate OfferedFirst(table: Table, service: Service, k: nat, entries: Table)
    requires k <= |service.ports|
  {
    entries == WithEntries(table, NamesIn(NameOf(service), Names(service.ports[..k])))
  }

  /** How far a loop of mergeService has come. */
  datatype Progress = Progress(existing: set<PortalName>, succeeded: bool, portals: Portals, entries: Table)

  /** One turn of the loop, whose portals all open or not. */
  ghost predicate Turn(service: Service, port: PortMapping, before: Progress, ok: bool, after: Progress)
    requires service.clusterV4 != []
  {
    var name := ServicePortName(NameOf(service), port.name);
    && MergedTable(before.portals, TableOfPort(service, port), ok, after.portals)
    && after.existing == before.existing + TableOfPort(service, port).Keys
    && after.succeeded == (before.succeeded && ok)
    && after.entries == before.entries[name := if name in before.entries then before.entries[name] else EMPTY]
  }

  ghost predicate EveryTurnKeeps(service: Service, keeps: (nat, Progress) -> bool)
    requires HasClusterIP(service)
  {
    forall i: nat, before, ok, after :: i < |service.ports| && keeps(i, before) ==>
      Turn(service, service.ports[i], before, ok, after) ==> keeps(i + 1, after)
  }

  lemma TurnKeeps(service: Service, keeps: (nat, Progress) -> bool, i: nat, before: Progress, ok: bool,
                  after: Progress)
    requires HasClusterIP(service) && EveryTurnKeeps(service, keeps) && i < |service.ports| && keeps(i, before)
    requires Turn(service, service.ports[i], before, ok, after)
    ensures keeps(i + 1, after)
  {
  }

  ghost function Both(one: (nat, Progress) -> bool, other: (nat, Progress) -> bool): (nat, Progress) -> bool {
    (k: nat, p: Progress) => one(k, p) && other(k, p)
  }

  lemma BothKept(service: Service, one: (nat, Progress) -> bool, other: (nat, Progress) -> bool)
    requires HasClusterIP(service) && EveryTurnKeeps(service, one) && EveryTurnKeeps(service, other)
    ensures EveryTurnKeeps(service, Both(one, other))
  {
  }

  ghost function MergingPortals(before: Portals, service: Service): (nat, Progress) -> bool
    requires HasClusterIP(service)
  {
    (k: nat, p: Progress) =>
      k <= |service.ports| && MergedFirst(before, service, k, p.existing, p.succeeded, p.portals)
  }

  ghost function OfferingEntries(table: Table, service: Service): (nat, Progress) -> bool {
    (k: nat, p: Progress) => k <= |service.ports| && OfferedFirst(table, service, k, p.entries)
  }

  lemma PortalsKept(before: Portals, service: Service)
    requires HasClusterIP(service)
    ensures EveryTurnKeeps(service, MergingPortals(before, service))
  {
    var keeps := MergingPortals(before, service);
    forall i: nat, p: Progress, ok, p': Progress |
      i < |service.ports| && keeps(i, p) && Turn(service, service.ports[i], p, ok, p')
      ensures keeps(i + 1, p')
    {
      TurnMerges(before, service, i, p, ok, p');
    }
  }

  lemma EntriesKept(table: Table, service: Service)
    requires HasClusterIP(service)
    ensures EveryTurnKeeps(service, OfferingEntries(table, service))
  {
    var keeps := OfferingEntries(table, service);
    forall i: nat, p: Progress, ok, p': Progress |
      i < |service.ports| && keeps(i, p) && Turn(service, service.ports[i], p, ok, p')
      ensures keeps(i + 1, p')
    {
      OfferedOnePort(table, service, i, p.entries, p'.entries);
    }
  }

  lemma TurnMerges(before: Portals, service: Service, i: nat, p: Progress, ok: bool, p': Progress)
    requires HasClusterIP(service) && i < |service.ports| && Turn(service, service.ports[i], p, ok, p')
    requires MergedFirst(before, service, i, p.existing, p.succeeded, p.portals)
    ensures MergedFirst(before, service, i + 1, p'.existing, p'.succeeded, p'.portals)
  {
    MergedOnePort(before, service, i, p.existing, p.succeeded, p.portals, TableOfPort(service, service.ports[i]).Keys,
                  ok, p'.portals);
  }

  lemma StartPorts(service: Service, view: Portals, entries: Table)
    requires HasClusterIP(service)
    ensures MergedFirst(view, service, 0, {}, true, view) && OfferedFirst(entries, service, 0, entries)
  {
  }

  /** Tables of different ports do not overlap. */
  lemma PortsApart(service: Service, i: nat)
    requires i < |service.ports| && HasClusterIP(service) && UniquePortNames(service.ports[..i + 1])
    ensures PortalsOfFirst(service, i).Keys !! TableOfPort(service, service.ports[i]).Keys
    ensures UniquePortNames(service.ports[..i])
  {
    var ports := service.ports[..i + 1];
    assert ports[..i] == service.ports[..i] && ports[i] == service.ports[i];
    assert service.ports[i].name !in Names(service.ports[..i]);
    PortalsBelongToPorts(service, i);
    TableBelongsToPort(service, service.ports[i]);
  }

  lemma AllSetInTurn(table1: Portals, table2: Portals, offers: Offers, between: Portals, ok: bool, after: Portals)
    requires table1.Keys !! table2.Keys && Merged(between, table2, offers, ok, after)
    ensures AllSet(table1 + table2, after) <==> AllSet(table1, between) && AllSet(table2, after)
  {
    var sum := table1 + table2;
    if AllSet(sum, after) {
      forall name: PortalName | name in table1 ensures OnPort(Get(between, name), table1[name].port) {
        assert OnPort(Get(after, name), sum[name].port) && name !in table2;
      }
      forall name: PortalName | name in table2 ensures OnPort(Get(after, name), table2[name].port) {
        assert name in sum && sum[name] == table2[name];
      }
    } else {
      var name: PortalName :| name in sum && !OnPort(Get(after, name), sum[name].port);
      assert name in table2 || Get(after, name) == Get(between, name);
    }
  }

  lemma KeptInTurn(before: Portals, table1: Portals, offers1: Offers, ok1: bool, between: Portals, table2: Portals,
                   offers2: Offers, ok2: bool, after: Portals)
    requires table1.Keys !! table2.Keys
    requires Merged(before, table1, offers1, ok1, between) && SameConfigKept(before, table1, between)
    requires Merged(between, table2, offers2, ok2, after) && SameConfigKept(between, table2, after)
    ensures SameConfigKept(before, table1 + table2, after)
  {
    var sum := table1 + table2;
    forall name: PortalName | name in sum && OnPort(Get(before, name), sum[name].port)
      ensures Get(after, name) == Get(before, name)
    {
      if name in table2 {
        assert name !in table1 && Get(between, name) == Get(before, name);
      } else {
        assert Get(after, name) == Get(between, name);
      }
    }
  }

  lemma MergedSumOneMore(before: Portals, table1: Portals, offers: Offers, apart1: bool, existing: set<PortalName>,
                         succeeded: bool, view: Portals, table2: Portals, apart2: bool, ok: bool, view': Portals)
    requires MergedSum(before, table1, offers, apart1, existing, succeeded, view)
    requires MergedTable(view, table2, ok, view')
    requires apart2 ==> apart1 && table1.Keys !! table2.Keys
    ensures MergedSum(before, table1 + table2, offers + table2.Items, apart2, existing + table2.Keys,
                      succeeded && ok, view')
  {
    MergedInTurn(before, table1, offers, succeeded, view, table2, table2.Items, ok, view');
    if apart2 {
      AllSetInTurn(table1, table2, table2.Items, view, ok, view');
      KeptInTurn(before, table1, offers, succeeded, view, table2, table2.Items, ok, view');
    }
  }

  lemma OnePortMore(service: Service, i: nat)
    requires i < |service.ports| && HasClusterIP(service)
    ensures PortalsOfFirst(service, i + 1) == PortalsOfFirst(service, i) + TableOfPort(service, service.ports[i])
    ensures OffersOfFirst(service, i + 1) == OffersOfFirst(service, i) + TableOfPort(service, service.ports[i]).Items
  {
  }

  lemma MergedOnePort(before: Portals, service: Service, i: nat, existing: set<PortalName>, succeeded: bool,
                      view: Portals, portals: set<PortalName>, ok: bool, view': Portals)
    requires i < |service.ports| && HasClusterIP(service)
    requires MergedFirst(before, service, i, existing, succeeded, view)
    requires portals == TableOfPort(service, service.ports[i]).Keys
    requires MergedTable(view, TableOfPort(service, service.ports[i]), ok, view')
    ensures MergedFirst(before, service, i + 1, existing + portals, succeeded && ok, view')
  {
    var apart := UniquePortNames(service.ports[..i + 1]);
    if apart {
      PortsApart(service, i);
    }
    MergedSumOneMore(before, PortalsOfFirst(service, i), OffersOfFirst(service, i), UniquePortNames(service.ports[..i]),
                     existing, succeeded, view, TableOfPort(service, service.ports[i]), apart, ok, view');
    OnePortMore(service, i);
  }

  lemma OfferedOnePort(table: Table, service: Service, i: nat, entries: Table, entries': Table)
    requires i < |service.ports| && OfferedFirst(table, service, i, entries)
    requires var name := ServicePortName(NameOf(service), service.ports[i].name);
      entries' == entries[name := if name in entries then entries[name] else EMPTY]
    ensures OfferedFirst(table, service, i + 1, entries')
  {
    NamesOneMore(service.ports, i);
    EntriesOneMore(table, NameOf(service), Names(service.ports[..i]), service.ports[i].name);
  }

  lemma EndPorts(before: Portals, table: Table, service: Service, existing: set<PortalName>, succeeded: bool,
                 view: Portals, entries: Table)
    requires HasClusterIP(service) && MergedFirst(before, service, |service.ports|, existing, succeeded, view)
    requires OfferedFirst(table, service, |service.ports|, entries)
    ensures existing == PortalTable(service).Keys && MergedFully(service, before, succeeded, view)
    ensures Merged(before, PortalTable(service), OffersOf(service), succeeded, view)
    ensures entries == WithEntries(table, NamesIn(NameOf(service), PortNames(service)))
  {
    assert service.ports[..|service.ports|] == service.ports;
  }

  lemma TableOneMore(service: NamespacedName, port: string, protocol: Protocol, listen: map<string, int>, ip: string,
                     listenPort: int)
    ensures PortTable(service, port, protocol, listen[ip := listenPort]) ==
      PortTable(service, port, protocol, listen) +
      map[PortalName(service, port, ip) := Listener(listenPort, protocol)]
  {
  }

  lemma EntriesOneMore(t: Table, service: NamespacedName, ports: set<string>, port: string)
    ensures var name := ServicePortName(service, port);
      var less := WithEntries(t, NamesIn(service, ports));
      WithEntries(t, NamesIn(service, ports + {port})) == less[name := if name in less then less[name] else EMPTY]
  {
    assert NamesIn(service, ports + {port}) == NamesIn(service, ports) + {ServicePortName(service, port)};
  }
}
