/** ServiceChangeTracker: the net change of each service since the rules were last synced. */
module ServiceTracker {
  import opened Basics
  import opened LocalNet
  import opened ServicePorts

  /** The fields newBaseServiceInfo sets; an IP is what ParseIPSloppy makes of a string. */
  datatype BaseServiceInfo = BaseServiceInfo(clusterIP: IP, port: int, protocol: Protocol, nodePort: int,
    hintsAnnotation: string)

  type IP = seq<int>

  /** What a service map stores: the base info, or what a proxier's factory makes of it. */
  datatype ServicePort =
    | Base(info: BaseServiceInfo)
    | HnsServiceInfo(info: BaseServiceInfo, targetPort: int, preserveDIP: bool)

  type ServiceMap = map<ServicePortName, ServicePort>

  /** Calls into code outside the tracker: the cluster IP of its family ("" if none), the IP
      parser, and the factory, if one was given. */
  datatype Settings = Settings(
    clusterIP: Service -> string, parseIP: string -> IP,
    makeServiceInfo: Option<(PortMapping, Service, BaseServiceInfo) -> ServicePort>)

  const HINTS := "service.kubernetes.io/topology-aware-hints"

  function NewBaseServiceInfo(settings: Settings, port: PortMapping, service: Service): BaseServiceInfo {
    BaseServiceInfo(settings.parseIP(settings.clusterIP(service)), port.port, port.protocol, port.nodePort,
                    if HINTS in service.annotations then service.annotations[HINTS] else "")
  }

  function PortInfo(settings: Settings, port: PortMapping, service: Service): ServicePort {
    var info := NewBaseServiceInfo(settings, port, service);
    if settings.makeServiceInfo.Some? then settings.makeServiceInfo.value(port, service, info) else Base(info)
  }

  function PortKey(service: Service, port: PortMapping): ServicePortName {
    ServicePortName(NameOf(service), port.name, port.protocol)
  }

  function FirstPorts(settings: Settings, service: Service, n: nat): ServiceMap
    requires n <= |service.ports|
  {
    if n == 0 then map[]
    else
      var port := service.ports[n - 1];
      FirstPorts(settings, service, n - 1)[PortKey(service, port) := PortInfo(settings, port, service)]
  }

  /** The service map of a service, if it has one: none for no service or without a cluster IP,
      which DeepEqual keeps apart from the empty map of a service without ports. */
  function Translation(settings: Settings, service: Option<Service>): Option<ServiceMap> {
    if service.None? || settings.clusterIP(service.value) == "" then None
    else Some(FirstPorts(settings, service.value, |service.value.ports|))
  }

  method ServiceToServiceMap(settings: Settings, service: Option<Service>) returns (serviceMap: Option<ServiceMap>)
    ensures serviceMap == Translation(settings, service)
    ensures serviceMap.None? <==> service.None? || settings.clusterIP(service.value) == ""
  {
    if service.None? {
      return None;
    }
    var svc := service.value;
    if settings.clusterIP(svc) == "" {
      return None;
    }
    var m: ServiceMap := map[];
    for i := 0 to |svc.ports|
      invariant m == FirstPorts(settings, svc, i)
    {
      m := m[PortKey(svc, svc.ports[i]) := PortInfo(settings, svc.ports[i], svc)];
    }
    return Some(m);
  }

  /** Whether port i is the last one with its name and protocol. */
  predicate LastOfKey(ports: seq<PortMapping>, n: nat, i: nat)
    requires i < n <= |ports|
  {
    forall j :: i < j < n ==> ports[j].name != ports[i].name || ports[j].protocol != ports[i].protocol
  }

  /** The key has the namespace and name of the service and the name and protocol of the port. */
  predicate IsKeyOf(service: Service, port: PortMapping, k: ServicePortName) {
    IsCalled(service, k.service) && k.port == port.name && k.protocol == port.protocol
  }

  /** A service map holds exactly the keys of the service's ports. */
  lemma {:induction false} ServiceMapKeys(settings: Settings, service: Service, n: nat, k: ServicePortName)
    requires n <= |service.ports|
    ensures k in FirstPorts(settings, service, n) <==> exists i :: 0 <= i < n && IsKeyOf(service, service.ports[i], k)
  {
    if n > 0 {
      ServiceMapKeys(settings, service, n - 1, k);
      var last := service.ports[n - 1];
      if IsKeyOf(service, last, k) {
        assert k == PortKey(service, last);
        assert k in FirstPorts(settings, service, n);
      } else {
        assert k != PortKey(service, last);
        assert k in FirstPorts(settings, service, n) <==> k in FirstPorts(settings, service, n - 1);
      }
    }
  }

  /** Each key holds the info of the last port that has it. */
  lemma {:induction false} ServiceMapValues(settings: Settings, service: Service, n: nat, i: nat)
    requires i < n <= |service.ports| && LastOfKey(service.ports, n, i)
    ensures var port := service.ports[i];
      var k := ServicePortName(NamespacedName(service.namespace, service.name), port.name, port.protocol);
      k in FirstPorts(settings, service, n) && IsInfoOf(settings, port, service, FirstPorts(settings, service, n)[k])
  {
    if i < n - 1 {
      ServiceMapValues(settings, service, n - 1, i);
      assert PortKey(service, service.ports[i]) != PortKey(service, service.ports[n - 1]);
    }
  }

  /** The base info has the numbers and the protocol of the port, and the IP and hints of the service. */
  predicate IsBaseInfo(settings: Settings, port: PortMapping, service: Service, info: BaseServiceInfo) {
    && info.clusterIP == settings.parseIP(settings.clusterIP(service))
    && info.port == port.port && info.nodePort == port.nodePort && info.protocol == port.protocol
    && info.hintsAnnotation == HintsOf(service)
  }

  function HintsOf(service: Service): string {
    match Get(service.annotations, "service.kubernetes.io/topology-aware-hints")
    case None => ""
    case Some(hints) => hints
  }

  /** The stored info is that base info, or what the factory makes of it. */
  ghost predicate IsInfoOf(settings: Settings, port: PortMapping, service: Service, stored: ServicePort) {
    exists info :: IsBaseInfo(settings, port, service, info) &&
      stored == if settings.makeServiceInfo.None? then Base(info)
                else settings.makeServiceInfo.value(port, service, info)
  }

  /** The last port with a key, if any. */
  function LastPort(service: Service, n: nat, k: ServicePortName): Option<PortMapping>
    requires n <= |service.ports|
  {
    if n == 0 then None
    else if IsKeyOf(service, service.ports[n - 1], k) then Some(service.ports[n - 1])
    else LastPort(service, n - 1, k)
  }

  lemma {:induction false} FirstPortsLookup(settings: Settings, service: Service, n: nat, k: ServicePortName)
    requires n <= |service.ports|
    ensures Get(FirstPorts(settings, service, n), k) == match LastPort(service, n, k)
                                                        case None => None
                                                        case Some(port) => Some(PortInfo(settings, port, service))
  {
    if n > 0 {
      FirstPortsLookup(settings, service, n - 1, k);
      assert IsKeyOf(service, service.ports[n - 1], k) <==> k == PortKey(service, service.ports[n - 1]);
    }
  }

  /** Under one key, both versions have no port, or ports that rules cannot tell apart. */
  predicate SamePort(settings: Settings, a: Service, b: Service, k: ServicePortName) {
    var p, q := LastPort(a, |a.ports|, k), LastPort(b, |b.ports|, k);
    if p.None? || q.None? then p == q
    else
      && p.value.port == q.value.port && p.value.nodePort == q.value.nodePort && p.value.protocol == q.value.protocol
      && HintsOf(a) == HintsOf(b)
      && settings.parseIP(settings.clusterIP(a)) == settings.parseIP(settings.clusterIP(b))
  }

  /** Without a factory, two versions with a cluster IP translate to the same map exactly when, under
      every key, they agree on the numbers of the port, the parsed cluster IP and the hints. */
  lemma SameTranslation(settings: Settings, a: Service, b: Service)
    requires settings.makeServiceInfo.None? && settings.clusterIP(a) != "" && settings.clusterIP(b) != ""
    ensures Translation(settings, Some(a)) == Translation(settings, Some(b)) <==>
      forall k :: SamePort(settings, a, b, k)
  {
    var m, n := FirstPorts(settings, a, |a.ports|), FirstPorts(settings, b, |b.ports|);
    forall k ensures SamePort(settings, a, b, k) <==> Get(m, k) == Get(n, k) {
      SamePortSameInfo(settings, a, b, k);
    }
    if forall k :: SamePort(settings, a, b, k) {
      forall k ensures k in m <==> k in n
        ensures k in m ==> m[k] == n[k]
      {
        assert Get(m, k) == Get(n, k);
      }
      assert m == n;
    }
  }

  lemma SamePortSameInfo(settings: Settings, a: Service, b: Service, k: ServicePortName)
    requires settings.makeServiceInfo.None?
    ensures SamePort(settings, a, b, k) <==>
      Get(FirstPorts(settings, a, |a.ports|), k) == Get(FirstPorts(settings, b, |b.ports|), k)
  {
    FirstPortsLookup(settings, a, |a.ports|, k);
    FirstPortsLookup(settings, b, |b.ports|, k);
  }

  // ----- the tracker on values -----

  datatype Change = Change(previous: Option<ServiceMap>, current: Option<ServiceMap>)

  datatype TrackerState = TrackerState(items: map<NamespacedName, Change>, persistent: map<NamespacedName, Service>)

  /** Update for a (previous, current) pair, neither of which need be there. */
  function Updated(settings: Settings, st: TrackerState, previous: Option<Service>,
                   current: Option<Service>): TrackerState {
    if previous.None? && current.None? then st
    else
      var svc := if current.Some? then current.value else previous.value;
      var name := NameOf(svc);
      TrackerState(ItemSet(st.items, name, Translation(settings, previous), Translation(settings, current)),
        st.persistent[name := svc])
  }

  /** A change starts where an earlier one did, and is dropped once it leads back there. */
  function ItemSet(items: map<NamespacedName, Change>, name: NamespacedName, previous: Option<ServiceMap>,
                   latest: Option<ServiceMap>): map<NamespacedName, Change>
  {
    var start := if name in items then items[name].previous else previous;
    if start == latest then items - {name} else items[name := Change(start, latest)]
  }

  function Started(items: map<NamespacedName, Change>, name: NamespacedName,
                   previous: Option<ServiceMap>): map<NamespacedName, Change> {
    if name in items then items else items[name := Change(previous, None)]
  }

  lemma StartedThenSet(items: map<NamespacedName, Change>, name: NamespacedName, previous: Option<ServiceMap>,
                       latest: Option<ServiceMap>)
    ensures ItemSet(Started(items, name, previous), name, None, latest) == ItemSet(items, name, previous, latest)
  {
  }

  // ----- the object -----

  class ServiceChange {
    var previous: Option<ServiceMap>
    var current: Option<ServiceMap>
    /** The only service this change is ever kept for. */
    ghost const name: NamespacedName

    constructor (ghost name: NamespacedName, previous: Option<ServiceMap>)
      ensures this.previous == previous && current == None && this.name == name
    {
      this.previous, current, this.name := previous, None, name;
    }
  }

  class ServiceChangeTracker {
    const settings: Settings
    var items: map<NamespacedName, ServiceChange>
    var PersistentServices: map<NamespacedName, Service>
    ghost var Repr: set<ServiceChange>

    ghost predicate Valid()
      reads `items, `Repr, Repr
    {
      forall a :: a in items ==> items[a] in Repr && items[a].name == a
    }

    ghost function Items(): map<NamespacedName, Change>
      reads `items, `Repr, Repr
      requires Valid()
    {
      map a | a in items :: Change(items[a].previous, items[a].current)
    }

    ghost function State(): TrackerState
      reads this, Repr
      requires Valid()
    {
      TrackerState(Items(), PersistentServices)
    }

    constructor (settings: Settings)
      ensures Valid() && Repr == {} && this.settings == settings && State() == TrackerState(map[], map[])
    {
      this.settings := settings;
      items, PersistentServices, Repr := map[], map[], {};
    }

    /** Start a change from the previous version, unless one is kept already. */
    method StartChange(name: NamespacedName, previous: Option<Service>)
      requires Valid()
      modifies this
      ensures Valid() && forall s :: s in Repr ==> s in old(Repr) || fresh(s)
      ensures PersistentServices == old(PersistentServices)
      ensures name in items
      ensures Items() == Started(old(Items()), name, Translation(settings, previous))
    {
      if name !in items {
        var start := ServiceToServiceMap(settings, previous);
        var change := new ServiceChange(name, start);
        items, Repr := items[name := change], Repr + {change};
      }
    }

    /** Set where the change leads, and drop it when that is where it started. */
    method SetCurrent(name: NamespacedName, current: Option<Service>)
      requires Valid() && name in items
      modifies `items, items[name]
      ensures Valid()
      ensures Items() == ItemSet(old(Items()), name, None, Translation(settings, current))
    {
      var change := items[name];
      change.current := ServiceToServiceMap(settings, current);
      if change.previous == change.current {
        items := items - {name};
      }
    }

    method Update(previous: Option<Service>, current: Option<Service>) returns (pending: bool)
      requires Valid()
      modifies this, Repr
      ensures Valid() && forall s :: s in Repr ==> s in old(Repr) || fresh(s)
      ensures State() == Updated(settings, old(State()), previous, current)
      ensures pending <==> (previous.Some? || current.Some?) && Items() != map[]
    {
      if previous.None? && current.None? {
        return false;
      }
      var svc := if current.Some? then current.value else previous.value;
      var name := NameOf(svc);
      StartedThenSet(Items(), name, Translation(settings, previous), Translation(settings, current));
      StartChange(name, previous);
      ghost var between := Items();
      PersistentServices := PersistentServices[name := svc];
      assert Items() == between && items[name] in Repr;
      SetCurrent(name, current);
      assert items == map[] <==> Items() == map[];
      pending := |items| > 0;
    }
  }
}

/** The winkernel sink: services are set and deleted, and the tracker accumulates. */
module WinkernelSink {
  import opened Basics
  import opened LocalNet
  import opened ServiceTracker

  datatype SinkCall = SetService(service: Service) | DeleteService(name: NamespacedName)

  /** Each persistent service is kept under its own name. */
  ghost predicate Named(persistent: map<NamespacedName, Service>) {
    forall name :: name in persistent ==> IsCalled(persistent[name], name)
  }

  function Step(settings: Settings, st: TrackerState, call: SinkCall): TrackerState {
    match call
    case SetService(service) => Updated(settings, st, Get(st.persistent, NameOf(service)), Some(service))
    case DeleteService(name) =>
      var after := Updated(settings, st, Get(st.persistent, name), None);
      after.(persistent := after.persistent - {name})
  }

  class Proxier {
    const serviceChanges: ServiceChangeTracker
    var initialized: bool

    constructor (serviceChanges: ServiceChangeTracker)
      ensures this.serviceChanges == serviceChanges && !initialized
    {
      this.serviceChanges := serviceChanges;
      initialized := false;
    }

    /** `sync` says whether the sync runner is woken. */
    method OnServiceUpdate(oldService: Option<Service>, service: Option<Service>) returns (sync: bool)
      requires serviceChanges.Valid()
      modifies serviceChanges, serviceChanges.Repr
      ensures serviceChanges.Valid()
      ensures forall s :: s in serviceChanges.Repr ==> s in old(serviceChanges.Repr) || fresh(s)
      ensures serviceChanges.State() ==
        Updated(serviceChanges.settings, old(serviceChanges.State()), oldService, service)
      ensures sync <==> (oldService.Some? || service.Some?) && serviceChanges.State().items != map[] && initialized
    {
      var pending := serviceChanges.Update(oldService, service);
      sync := pending && initialized;
    }
  }

  class Backend {
    const proxier: Proxier

    constructor (proxier: Proxier)
      ensures this.proxier == proxier
    {
      this.proxier := proxier;
    }

    method SetService(service: Service) returns (sync: bool)
      requires proxier.serviceChanges.Valid()
      modifies proxier.serviceChanges, proxier.serviceChanges.Repr
      ensures proxier.serviceChanges.Valid()
      ensures forall s :: s in proxier.serviceChanges.Repr ==> s in old(proxier.serviceChanges.Repr) || fresh(s)
      ensures proxier.serviceChanges.State() == Step(proxier.serviceChanges.settings,
        old(proxier.serviceChanges.State()), SinkCall.SetService(service))
      ensures sync <==> proxier.serviceChanges.State().items != map[] && proxier.initialized
    {
      var tracker := proxier.serviceChanges;
      if NameOf(service) !in tracker.PersistentServices {
        sync := proxier.OnServiceUpdate(None, Some(service));
        return;
      }
      sync := proxier.OnServiceUpdate(Some(tracker.PersistentServices[NameOf(service)]), Some(service));
    }

    method DeleteService(name: NamespacedName) returns (sync: bool)
      requires proxier.serviceChanges.Valid()
      modifies proxier.serviceChanges, proxier.serviceChanges.Repr
      ensures proxier.serviceChanges.Valid()
      ensures forall s :: s in proxier.serviceChanges.Repr ==> s in old(proxier.serviceChanges.Repr) || fresh(s)
      ensures proxier.serviceChanges.State() == Step(proxier.serviceChanges.settings,
        old(proxier.serviceChanges.State()), SinkCall.DeleteService(name))
      ensures sync <==>
        && name in old(proxier.serviceChanges.PersistentServices)
        && proxier.serviceChanges.State().items != map[] && proxier.initialized
    {
      var tracker := proxier.serviceChanges;
      sync := proxier.OnServiceUpdate(Get(tracker.PersistentServices, name), None);
      label updated:
      tracker.PersistentServices := tracker.PersistentServices - {name};
      assert tracker.State().items == old@updated(tracker.State().items);
    }
  }

  // ----- whole runs -----

  /** The state after a run of sink calls. */
  function After(settings: Settings, start: TrackerState, calls: seq<SinkCall>): TrackerState {
    if calls == [] then start
    else Step(settings, After(settings, start, calls[..|calls| - 1]), calls[|calls| - 1])
  }

  /** The backend follows the run through any sequence of calls. */
  method Drive(backend: Backend, calls: seq<SinkCall>)
    requires backend.proxier.serviceChanges.Valid()
    modifies backend.proxier.serviceChanges, backend.proxier.serviceChanges.Repr
    ensures backend.proxier.serviceChanges.Valid()
    ensures backend.proxier.serviceChanges.State() ==
      After(backend.proxier.serviceChanges.settings, old(backend.proxier.serviceChanges.State()), calls)
  {
    var tracker := backend.proxier.serviceChanges;
    for i := 0 to |calls|
      invariant tracker.Valid() && forall s :: s in tracker.Repr ==> s in old(tracker.Repr) || fresh(s)
      invariant tracker.State() == After(tracker.settings, old(tracker.State()), calls[..i])
    {
      assert calls[..i + 1][..i] == calls[..i];
      var _ := Perform(backend, calls[i]);
    }
    assert calls[..|calls|] == calls;
  }

  method Perform(backend: Backend, call: SinkCall) returns (sync: bool)
    requires backend.proxier.serviceChanges.Valid()
    modifies backend.proxier.serviceChanges, backend.proxier.serviceChanges.Repr
    ensures backend.proxier.serviceChanges.Valid()
    ensures forall s :: s in backend.proxier.serviceChanges.Repr ==>
      s in old(backend.proxier.serviceChanges.Repr) || fresh(s)
    ensures backend.proxier.serviceChanges.State() ==
      Step(backend.proxier.serviceChanges.settings, old(backend.proxier.serviceChanges.State()), call)
  {
    match call
    case SetService(service) => sync := backend.SetService(service);
    case DeleteService(name) => sync := backend.DeleteService(name);
  }

  /** The latest version of a service, read off the calls alone. */
  function Latest(start: map<NamespacedName, Service>, calls: seq<SinkCall>, name: NamespacedName): Option<Service> {
    if calls == [] then Get(start, name)
    else
      match calls[|calls| - 1]
      case SetService(service) =>
        if IsCalled(service, name) then Some(service) else Latest(start, calls[..|calls| - 1], name)
      case DeleteService(n) => if n == name then None else Latest(start, calls[..|calls| - 1], name)
  }

  /** The item that a net change from one version to another calls for, if any. */
  function NetChange(settings: Settings, before: Option<Service>, latest: Option<Service>): Option<Change> {
    var previous, current := Translation(settings, before), Translation(settings, latest);
    if previous == current then None else Some(Change(previous, current))
  }

  lemma {:induction false} PersistentServicesAreLive(settings: Settings, start: TrackerState, calls: seq<SinkCall>)
    requires Named(start.persistent)
    ensures Named(After(settings, start, calls).persistent)
    ensures forall name :: Get(After(settings, start, calls).persistent, name) == Latest(start.persistent, calls, name)
  {
    if calls != [] {
      PersistentServicesAreLive(settings, start, calls[..|calls| - 1]);
    }
  }

  /** Along any run that starts without items, a service has an item exactly when its latest
      version translates differently from its starting version, and the item holds those two. */
  lemma {:induction false} ItemsAreNetChanges(settings: Settings, start: TrackerState, calls: seq<SinkCall>,
                                              name: NamespacedName)
    requires Named(start.persistent) && start.items == map[]
    ensures Get(After(settings, start, calls).items, name)
         == NetChange(settings, Get(start.persistent, name), Latest(start.persistent, calls, name))
  {
    if calls != [] {
      var before := calls[..|calls| - 1];
      ItemsAreNetChanges(settings, start, before, name);
      PersistentServicesAreLive(settings, start, before);
      StepTracksNetChange(settings, After(settings, start, before), calls[|calls| - 1], name,
                          Get(start.persistent, name));
      PersistentServicesAreLive(settings, start, calls);
    }
  }

  lemma StepTracksNetChange(settings: Settings, st: TrackerState, call: SinkCall, name: NamespacedName,
                            first: Option<Service>)
    requires Named(st.persistent) && Get(st.items, name) == NetChange(settings, first, Get(st.persistent, name))
    ensures Get(Step(settings, st, call).items, name) ==
      NetChange(settings, first, Get(Step(settings, st, call).persistent, name))
  {
  }

  /** After a sink call the tracker holds an item, and so reports changes, exactly when some
      service has a net change. */
  lemma PendingIffNetChange(settings: Settings, start: TrackerState, calls: seq<SinkCall>)
    requires Named(start.persistent) && start.items == map[]
    ensures After(settings, start, calls).items != map[] <==>
      exists name :: NetChange(settings, Get(start.persistent, name), Latest(start.persistent, calls, name)).Some?
  {
    var items := After(settings, start, calls).items;
    forall name
      ensures Get(items, name)
           == NetChange(settings, Get(start.persistent, name), Latest(start.persistent, calls, name))
    {
      ItemsAreNetChanges(settings, start, calls, name);
    }
    if items != map[] {
      var name :| name in items;
      assert Get(items, name).Some?;
    } else {
      assert forall name :: Get(items, name).None?;
    }
  }
}
