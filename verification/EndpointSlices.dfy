/** EndpointSlices as they arrive, and the small normalised records the cache keeps. */
module EndpointSlices {
  import opened Basics

  datatype EndpointPort = EndpointPort(name: Option<string>, protocol: Option<string>, port: Option<int>,
    appProtocol: Option<string>)

  datatype SliceEndpoint = SliceEndpoint(
    addresses: seq<string>, nodeName: Option<string>, zone: Option<string>,
    ready: Option<bool>, serving: Option<bool>, terminating: Option<bool>)

  datatype EndpointSlice = EndpointSlice(
    namespace: string, name: string, serviceLabel: Option<string>,
    ports: seq<EndpointPort>, endpoints: seq<SliceEndpoint>)

  /** endpointInfo */
  datatype EndpointInfo = EndpointInfo(
    addresses: seq<string>, nodeName: Option<string>, zone: Option<string>,
    ready: bool, serving: bool, terminating: bool)

  /** endpointSliceInfo; `remove` makes it a tombstone. It is never changed once built. */
  datatype SliceInfo = SliceInfo(ports: seq<EndpointPort>, endpoints: seq<EndpointInfo>, remove: bool)

  datatype CacheKeys = CacheKeys(service: NamespacedName, slice: string)

  /** endpointSliceCacheKeys: None when the slice names no service or has no name. */
  function KeysOf(slice: EndpointSlice): (keys: Option<CacheKeys>)
    ensures keys.Some? <==>
      slice.serviceLabel.Some? && slice.serviceLabel.value != "" && slice.namespace != "" && slice.name != ""
    ensures keys.Some? ==>
      && keys.value.service.namespace == slice.namespace && Some(keys.value.service.name) == slice.serviceLabel
      && keys.value.slice == slice.name
  {
    match slice.serviceLabel
    case None => None
    case Some(service) =>
      if service == "" || slice.namespace == "" || slice.name == "" then None
      else Some(CacheKeys(NamespacedName(slice.namespace, service), slice.name))
  }

  function Join(words: seq<string>): string {
    if words == [] then "" else if |words| == 1 then words[0] else words[0] + "," + Join(words[1..])
  }

  function PortNumber(p: EndpointPort): int { if p.port.Some? then p.port.value else 0 }

  /** byPort.Less reads both port numbers, so two or more ports must all have one. */
  ghost predicate Sortable(ports: seq<EndpointPort>) {
    |ports| >= 2 ==> forall i :: 0 <= i < |ports| ==> ports[i].port.Some?
  }

  const BY_PORT := (p: EndpointPort, q: EndpointPort) => PortNumber(p) < PortNumber(q)

  const BY_ADDRESS := (a: EndpointInfo, b: EndpointInfo) => StringLess(Join(a.addresses), Join(b.addresses))

  function CopyEndpoint(ep: SliceEndpoint): EndpointInfo {
    EndpointInfo(ep.addresses, ep.nodeName, ep.zone,
                 ep.ready != Some(false), ep.serving != Some(false), ep.terminating == Some(true))
  }

  function CopyEndpoints(eps: seq<SliceEndpoint>): seq<EndpointInfo> {
    seq(|eps|, i requires 0 <= i < |eps| => CopyEndpoint(eps[i]))
  }

  /** What newEndpointSliceInfo may return: both sorts leave the order of ties open. */
  ghost predicate InfoOf(slice: EndpointSlice, remove: bool, info: SliceInfo) {
    && info.remove == remove
    && SortOf(slice.ports, BY_PORT, info.ports)
    && SortOf(if remove then [] else CopyEndpoints(slice.endpoints), BY_ADDRESS, info.endpoints)
  }

  method NewEndpointSliceInfo(slice: EndpointSlice, remove: bool) returns (info: SliceInfo)
    requires Sortable(slice.ports)
    ensures InfoOf(slice, remove, info)
  {
    SortOrders();
    var ports := Sort(slice.ports, BY_PORT);
    var endpoints: seq<EndpointInfo> := [];
    if !remove {
      for i := 0 to |slice.endpoints|
        invariant endpoints == CopyEndpoints(slice.endpoints)[..i]
      {
        endpoints := endpoints + [CopyEndpoint(slice.endpoints[i])];
      }
      assert endpoints == CopyEndpoints(slice.endpoints);
      endpoints := Sort(endpoints, BY_ADDRESS);
    }
    info := SliceInfo(ports, endpoints, remove);
  }

  /** A record endpoint says the same as an endpoint of the slice. Conditions that are missing count
      as ready and serving, but not as terminating. */
  predicate Copied(ep: SliceEndpoint, info: EndpointInfo) {
    && info.addresses == ep.addresses && info.nodeName == ep.nodeName && info.zone == ep.zone
    && (info.ready <==> ep.ready.None? || ep.ready.value)
    && (info.serving <==> ep.serving.None? || ep.serving.value)
    && (info.terminating <==> ep.terminating.Some? && ep.terminating.value)
  }

  /** Words are separated by one comma each. */
  lemma {:induction false} JoinOfSum(a: seq<string>, b: seq<string>)
    requires a != [] && b != []
    ensures Join([a[0]]) == a[0] && Join(a + b) == Join(a) + "," + Join(b)
  {
    assert (a + b)[1..] == a[1..] + b;
    if |a| > 1 {
      JoinOfSum(a[1..], b);
      Associative(a[0] + ",", Join(a[1..]), "," + Join(b));
      assert Join(a) + "," + Join(b) == a[0] + "," + (Join(a[1..]) + "," + Join(b));
    }
  }

  lemma SamePort(slice: EndpointSlice, info: SliceInfo, p: EndpointPort)
    requires multiset(info.ports) == multiset(slice.ports)
    ensures p in slice.ports <==> p in info.ports
  {
    assert p in slice.ports <==> p in multiset(slice.ports);
    assert p in info.ports <==> p in multiset(info.ports);
  }

  lemma CopyIn(slice: EndpointSlice, info: SliceInfo, ep: SliceEndpoint) returns (e: EndpointInfo)
    requires InfoOf(slice, false, info) && ep in slice.endpoints
    ensures e in info.endpoints && Copied(ep, e)
  {
    var k :| 0 <= k < |slice.endpoints| && slice.endpoints[k] == ep;
    e := CopyEndpoints(slice.endpoints)[k];
    assert e in multiset(info.endpoints);
  }

  lemma SourceIn(slice: EndpointSlice, info: SliceInfo, e: EndpointInfo) returns (ep: SliceEndpoint)
    requires InfoOf(slice, false, info) && e in info.endpoints
    ensures ep in slice.endpoints && Copied(ep, e)
  {
    assert e in multiset(info.endpoints);
    var k :| 0 <= k < |slice.endpoints| && CopyEndpoints(slice.endpoints)[k] == e;
    ep := slice.endpoints[k];
  }

  /** The record on the fields of the slice: the same ports, in the order of their numbers, and, unless
      the slice is removed, one endpoint for each of its own, in the order of their addresses. */
  lemma InfoMeaning(slice: EndpointSlice, remove: bool, info: SliceInfo)
    requires InfoOf(slice, remove, info)
    ensures info.remove == remove && multiset(info.ports) == multiset(slice.ports)
    ensures |info.endpoints| == if remove then 0 else |slice.endpoints|
    ensures forall i, j :: 0 <= i < j < |info.ports| && info.ports[i].port.Some? && info.ports[j].port.Some? ==>
      info.ports[i].port.value <= info.ports[j].port.value
    ensures forall ep :: ep in slice.endpoints && !remove ==> exists e :: e in info.endpoints && Copied(ep, e)
    ensures forall e :: e in info.endpoints ==> exists ep :: ep in slice.endpoints && Copied(ep, e)
    ensures forall i, j :: 0 <= i < j < |info.endpoints| ==>
      !StringLess(Join(info.endpoints[j].addresses), Join(info.endpoints[i].addresses))
  {
    var copies := CopyEndpoints(slice.endpoints);
    assert |multiset(info.endpoints)| == |info.endpoints|;
    forall i, j | 0 <= i < j < |info.ports| ensures !BY_PORT(info.ports[j], info.ports[i]) {
    }
    forall i, j | 0 <= i < j < |info.endpoints| ensures !BY_ADDRESS(info.endpoints[j], info.endpoints[i]) {
    }
    if remove {
      assert info.endpoints == [];
    } else {
      assert |multiset(copies)| == |copies|;
      forall ep | ep in slice.endpoints ensures exists e :: e in info.endpoints && Copied(ep, e) {
        var e := CopyIn(slice, info, ep);
      }
      forall e | e in info.endpoints ensures exists ep :: ep in slice.endpoints && Copied(ep, e) {
        var ep := SourceIn(slice, info, e);
      }
    }
  }

  lemma SortOrders()
    ensures WeakOrder(BY_PORT) && WeakOrder(BY_ADDRESS)
  {
    StringOrderIsWeak();
    forall x, y: EndpointInfo | BY_ADDRESS(x, y) ensures !BY_ADDRESS(y, x) {
      assert !StringLess(Join(y.addresses), Join(x.addresses));
    }
    forall x, y, z: EndpointInfo | !BY_ADDRESS(x, y) && !BY_ADDRESS(y, z) ensures !BY_ADDRESS(x, z) {
      assert !StringLess(Join(x.addresses), Join(z.addresses));
    }
  }
}
