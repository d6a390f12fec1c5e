/** From the cached slices of one service to its EndpointsMap. Go iterates maps in an
    unspecified order, so the loops below pick names in any order; the specification
    IsEndpointsMap does not mention order, and OrderIndependent shows that it leaves
    no choice up to Endpoint.Equal. */
module Aggregation {
  import opened Basics
  import opened HostPort
  import opened EndpointSlices
  import opened ServicePorts
  import LocalNet

  /** BaseEndpointInfo. The default factory returns it unchanged, so it is the Endpoint. */
  datatype Endpoint = BaseEndpointInfo(
    endpoint: string, isLocal: bool, ready: bool, serving: bool, terminating: bool,
    nodeName: string, zone: string)
  {
    predicate Equal(other: Endpoint) {
      endpoint == other.endpoint && isLocal == other.isLocal
    }
  }

  type EndpointsMap = map<ServicePortName, seq<Endpoint>>

  type EndpointSet = map<string, Endpoint>

  /** The immutable fields of EndpointSliceCache; `isIPv6` stands for IsIPv6String. */
  datatype Config = Config(hostname: string, ipv6: bool, isIPv6: string -> bool) {
    predicate IsLocal(nodeName: string) {
      |hostname| > 0 && nodeName == hostname
    }
  }

  // ----- what each slice contributes -----

  predicate Usable(port: EndpointPort) {
    port.name.Some? && port.port.Some? && port.port.value != 0
  }

  /** The endpoint one address contributes under a port: none without a first address
      of the cache's family. */
  function Contribution(cfg: Config, portNum: int, ep: EndpointInfo): Option<Endpoint> {
    if |ep.addresses| == 0 || cfg.ipv6 != cfg.isIPv6(ep.addresses[0]) then None
    else
      Some(BaseEndpointInfo(
             EndpointString(ep.addresses[0], portNum),
             ep.nodeName.Some? && cfg.IsLocal(ep.nodeName.value),
             ep.ready, ep.serving, ep.terminating,
             if ep.nodeName.Some? then ep.nodeName.value else "",
             if ep.zone.Some? then ep.zone.value else ""))
  }

  ghost function ContributionUnder(cfg: Config, portNum: int): EndpointInfo -> Option<Endpoint> {
    (ep: EndpointInfo) => Contribution(cfg, portNum, ep)
  }

  /** The values some function has at the elements of a list. */
  ghost function Values<S, T>(f: S -> Option<T>, list: seq<S>): set<T> {
    set j | 0 <= j < |list| && f(list[j]).Some? :: f(list[j]).value
  }

  ghost function EndpointContributions(cfg: Config, portNum: int, eps: seq<EndpointInfo>): set<Endpoint> {
    Values(ContributionUnder(cfg, portNum), eps)
  }

  /** (port name, endpoint) pairs contributed by a slice under one port. */
  ghost function AddedByPort(cfg: Config, port: EndpointPort, eps: seq<EndpointInfo>): set<(string, Endpoint)> {
    if Usable(port) then Tagged(port.name.value, EndpointContributions(cfg, port.port.value, eps)) else {}
  }

  ghost function Tagged(port: string, endpoints: set<Endpoint>): set<(string, Endpoint)> {
    set e | e in endpoints :: (port, e)
  }

  ghost function AddedUnder(cfg: Config, eps: seq<EndpointInfo>): EndpointPort -> set<(string, Endpoint)> {
    (port: EndpointPort) => AddedByPort(cfg, port, eps)
  }

  ghost function UnionOver<S, T>(f: S -> set<T>, list: seq<S>): set<T> {
    set j, v | 0 <= j < |list| && v in f(list[j]) :: v
  }

  /** Those contributed under all ports of the slice. */
  ghost function PortContributions(cfg: Config, ports: seq<EndpointPort>,
                                   eps: seq<EndpointInfo>): set<(string, Endpoint)> {
    UnionOver(AddedUnder(cfg, eps), ports)
  }

  ghost function Contributions(cfg: Config, slices: map<string, SliceInfo>): set<(string, Endpoint)> {
    set n, c | n in slices && c in PortContributions(cfg, slices[n].ports, slices[n].endpoints) :: c
  }

  // ----- the deduplicated sets -----

  /** `found` holds one contributor per endpoint string, a local one whenever there is one. */
  ghost predicate Deduplicates(found: EndpointSet, contributors: set<Endpoint>) {
    && (forall s :: s in found ==> found[s] in contributors && found[s].endpoint == s)
    && (forall e :: e in contributors ==> e.endpoint in found && (e.isLocal ==> found[e.endpoint].isLocal))
  }

  ghost function ForPort(pairs: set<(string, Endpoint)>, port: string): set<Endpoint> {
    set c | c in pairs && c.0 == port :: c.1
  }

  function SetFor(groups: map<ServicePortName, EndpointSet>, name: ServicePortName): EndpointSet {
    if name in groups then groups[name] else map[]
  }

  ghost predicate GroupOf(service: NamespacedName, groups: map<ServicePortName, EndpointSet>,
                          pairs: set<(string, Endpoint)>, port: string) {
    Deduplicates(SetFor(groups, ServicePortName(service, port, LocalNet.TCP)), ForPort(pairs, port))
  }

  /** Every port name has the deduplicated set of what was contributed under it. */
  ghost predicate Groups(service: NamespacedName, groups: map<ServicePortName, EndpointSet>,
                         pairs: set<(string, Endpoint)>) {
    && (forall name :: name in groups ==> name == ServicePortName(service, name.port, LocalNet.TCP))
    && (forall port :: GroupOf(service, groups, pairs, port))
  }

  /** What adding the contribution of one endpoint may do to the contributors. */
  ghost function Added(cfg: Config, portNum: int, ep: EndpointInfo): set<Endpoint> {
    match Contribution(cfg, portNum, ep)
    case None => {}
    case Some(e) => {e}
  }

  /** The body of the addEndpoints loop. */
  method AddEndpoint(cfg: Config, portNum: int, endpointSet: EndpointSet, endpoint: EndpointInfo,
                     ghost known: set<Endpoint>)
    returns (result: EndpointSet)
    requires Deduplicates(endpointSet, known)
    ensures Deduplicates(result, known + Added(cfg, portNum, endpoint))
  {
    result := endpointSet;
    if |endpoint.addresses| == 0 {
      return;
    }
    if cfg.ipv6 != cfg.isIPv6(endpoint.addresses[0]) {
      return;
    }
    var isLocal := false;
    var nodeName := "";
    if endpoint.nodeName.Some? {
      isLocal := cfg.IsLocal(endpoint.nodeName.value);
      nodeName := endpoint.nodeName.value;
    }
    var zone := "";
    if endpoint.zone.Some? {
      zone := endpoint.zone.value;
    }
    var info := BaseEndpointInfo(EndpointString(endpoint.addresses[0], portNum), isLocal,
                                 endpoint.ready, endpoint.serving, endpoint.terminating, nodeName, zone);
    if info.endpoint !in result || isLocal {
      result := result[info.endpoint := info];
    }
  }

  method AddEndpoints(cfg: Config, portNum: int, endpointSet: EndpointSet, endpoints: seq<EndpointInfo>,
                      ghost before: set<Endpoint>)
    returns (result: EndpointSet)
    requires Deduplicates(endpointSet, before)
    ensures Deduplicates(result, before + EndpointContributions(cfg, portNum, endpoints))
  {
    result := endpointSet;
    ghost var known := before;
    NoContributions(cfg, portNum, endpoints[..0]);
    for i := 0 to |endpoints|
      invariant known == before + EndpointContributions(cfg, portNum, endpoints[..i])
      invariant Deduplicates(result, known)
    {
      ContributionsOfOneMore(cfg, portNum, endpoints, i);
      result := AddEndpoint(cfg, portNum, result, endpoints[i], known);
      known := known + Added(cfg, portNum, endpoints[i]);
    }
    assert endpoints[..|endpoints|] == endpoints;
  }

  lemma NoContributions(cfg: Config, portNum: int, eps: seq<EndpointInfo>)
    requires eps == []
    ensures EndpointContributions(cfg, portNum, eps) == {}
  {
  }

  lemma ContributionsOfOneMore(cfg: Config, portNum: int, eps: seq<EndpointInfo>, i: nat)
    requires i < |eps|
    ensures EndpointContributions(cfg, portNum, eps[..i + 1]) ==
      EndpointContributions(cfg, portNum, eps[..i]) + Added(cfg, portNum, eps[i])
  {
    ValuesOfOneMore(ContributionUnder(cfg, portNum), eps, i);
  }

  lemma ValuesOfOneMore<S, T>(f: S -> Option<T>, list: seq<S>, i: nat)
    requires i < |list|
    ensures Values(f, list[..i + 1]) == Values(f, list[..i]) + if f(list[i]).Some? then {f(list[i]).value} else {}
  {
    var less, more := list[..i], list[..i + 1];
    assert more[i] == list[i];
    forall v | v in Values(f, less) ensures v in Values(f, more) {
      var j :| 0 <= j < |less| && f(less[j]) == Some(v);
      assert more[j] == less[j];
    }
    forall v | v in Values(f, more) ensures v in Values(f, less) || f(list[i]) == Some(v) {
      var j :| 0 <= j < |more| && f(more[j]) == Some(v);
      if j < i {
        assert more[j] == less[j];
      }
    }
  }

  /** endpointInfoByServicePort */
  method EndpointInfoByServicePort(cfg: Config, service: NamespacedName, slices: map<string, SliceInfo>)
    returns (groups: map<ServicePortName, EndpointSet>)
    ensures Groups(service, groups, Contributions(cfg, slices))
  {
    groups := map[];
    var todo := slices.Keys;
    ghost var pairs: set<(string, Endpoint)> := {};
    while todo != {}
      invariant todo <= slices.Keys
      invariant pairs == Contributions(cfg, slices - todo)
      invariant Groups(service, groups, pairs)
    {
      var name :| name in todo;
      groups := AddSlice(cfg, service, slices[name], groups, pairs);
      ContributionsOfOneMoreSlice(cfg, slices, todo, name);
      pairs := pairs + PortContributions(cfg, slices[name].ports, slices[name].endpoints);
      todo := todo - {name};
    }
    assert slices - todo == slices;
  }

  lemma ContributionsOfOneMoreSlice(cfg: Config, slices: map<string, SliceInfo>, todo: set<string>, name: string)
    requires name in todo && todo <= slices.Keys
    ensures Contributions(cfg, slices - (todo - {name})) ==
      Contributions(cfg, slices - todo) + PortContributions(cfg, slices[name].ports, slices[name].endpoints)
  {
    var less, more := slices - todo, slices - (todo - {name});
    assert more == less[name := slices[name]];
    assert name !in less;
    forall c | c in Contributions(cfg, less) ensures c in Contributions(cfg, more) {
      var n :| n in less && c in PortContributions(cfg, less[n].ports, less[n].endpoints);
      assert n in more && more[n] == less[n];
    }
    forall c | c in PortContributions(cfg, slices[name].ports, slices[name].endpoints)
      ensures c in Contributions(cfg, more) {
      assert more[name] == slices[name];
    }
  }

  /** The body of the port loop in endpointInfoByServicePort. */
  method AddPort(cfg: Config, service: NamespacedName, port: EndpointPort, eps: seq<EndpointInfo>,
                 groups: map<ServicePortName, EndpointSet>, ghost known: set<(string, Endpoint)>)
    returns (result: map<ServicePortName, EndpointSet>)
    requires Groups(service, groups, known)
    ensures Groups(service, result, known + AddedByPort(cfg, port, eps))
  {
    result := groups;
    if port.name.None? || port.port.None? || port.port.value == 0 {
      assert known + AddedByPort(cfg, port, eps) == known;
      return;
    }
    var name := ServicePortName(service, port.name.value, LocalNet.TCP);
    assert GroupOf(service, groups, known, port.name.value);
    var found := AddEndpoints(cfg, port.port.value, SetFor(groups, name), eps, ForPort(known, port.name.value));
    GroupsUpdated(service, groups, known, port.name.value, found, EndpointContributions(cfg, port.port.value, eps));
    result := groups[name := found];
  }

  /** The inner loop of endpointInfoByServicePort: all ports of one slice. */
  method AddSlice(cfg: Config, service: NamespacedName, info: SliceInfo, groups: map<ServicePortName, EndpointSet>,
                  ghost pairs: set<(string, Endpoint)>)
    returns (result: map<ServicePortName, EndpointSet>)
    requires Groups(service, groups, pairs)
    ensures Groups(service, result, pairs + PortContributions(cfg, info.ports, info.endpoints))
  {
    result := groups;
    ghost var added := PortContributions(cfg, info.ports[..0], info.endpoints);
    assert pairs + added == pairs;
    for i := 0 to |info.ports|
      invariant added == PortContributions(cfg, info.ports[..i], info.endpoints)
      invariant Groups(service, result, pairs + added)
    {
      result := AddPort(cfg, service, info.ports[i], info.endpoints, result, pairs + added);
      UnionAssociative(pairs, added, AddedByPort(cfg, info.ports[i], info.endpoints));
      PortContributionsOfOneMore(cfg, info.ports, info.endpoints, i);
      added := added + AddedByPort(cfg, info.ports[i], info.endpoints);
    }
    assert info.ports[..|info.ports|] == info.ports;
  }

  lemma UnionAssociative<T>(a: set<T>, b: set<T>, c: set<T>)
    ensures (a + b) + c == a + (b + c)
  {
  }

  lemma PortContributionsOfOneMore(cfg: Config, ports: seq<EndpointPort>, eps: seq<EndpointInfo>, i: nat)
    requires i < |ports|
    ensures PortContributions(cfg, ports[..i + 1], eps) ==
      PortContributions(cfg, ports[..i], eps) + AddedByPort(cfg, ports[i], eps)
  {
    UnionOverOneMore(AddedUnder(cfg, eps), ports, i);
  }

  lemma UnionOverOneMore<S, T>(f: S -> set<T>, list: seq<S>, i: nat)
    requires i < |list|
    ensures UnionOver(f, list[..i + 1]) == UnionOver(f, list[..i]) + f(list[i])
  {
    var less, more := list[..i], list[..i + 1];
    assert more[i] == list[i];
    forall v | v in UnionOver(f, less) ensures v in UnionOver(f, more) {
      var j :| 0 <= j < |less| && v in f(less[j]);
      assert more[j] == less[j];
    }
    forall v | v in UnionOver(f, more) ensures v in UnionOver(f, less) || v in f(list[i]) {
      var j :| 0 <= j < |more| && v in f(more[j]);
      if j < i {
        assert more[j] == less[j];
      }
    }
  }

  lemma GroupsUpdated(service: NamespacedName, groups: map<ServicePortName, EndpointSet>,
                      pairs: set<(string, Endpoint)>, port: string, found: EndpointSet, added: set<Endpoint>)
    requires Groups(service, groups, pairs)
    requires Deduplicates(found, ForPort(pairs, port) + added)
    ensures Groups(service, groups[ServicePortName(service, port, LocalNet.TCP) := found], pairs + Tagged(port, added))
  {
    var name := ServicePortName(service, port, LocalNet.TCP);
    var groups' := groups[name := found];
    var pairs' := pairs + Tagged(port, added);
    forall p ensures GroupOf(service, groups', pairs', p) {
      if p == port {
        assert forall e :: e in added ==> (port, e) in Tagged(port, added);
        assert ForPort(pairs', p) == ForPort(pairs, port) + added;
      } else {
        assert ForPort(pairs', p) == ForPort(pairs, p);
        assert GroupOf(service, groups, pairs, p);
      }
    }
  }

  // ----- the EndpointsMap -----

  /** Sorted and free of duplicates: strictly increasing by endpoint string. */
  ghost predicate Increasing(eps: seq<Endpoint>) {
    forall i, j :: 0 <= i < j < |eps| ==> StringLess(eps[i].endpoint, eps[j].endpoint)
  }

  ghost predicate HasLocal(contributors: set<Endpoint>, s: string) {
    exists e :: e in contributors && e.endpoint == s && e.isLocal
  }

  ghost predicate Listed(eps: seq<Endpoint>, s: string) {
    exists i :: 0 <= i < |eps| && eps[i].endpoint == s
  }

  /** One list of an EndpointsMap: each contributed endpoint string once, in order, held by
      one of its contributors, and local iff some contributor of that string is local. */
  ghost predicate ListOf(eps: seq<Endpoint>, contributors: set<Endpoint>) {
    && Increasing(eps)
    && (forall i :: 0 <= i < |eps| ==>
          eps[i] in contributors && (eps[i].isLocal <==> HasLocal(contributors, eps[i].endpoint)))
    && (forall e :: e in contributors ==> Listed(eps, e.endpoint))
  }

  ghost predicate PortListed(service: NamespacedName, m: EndpointsMap, pairs: set<(string, Endpoint)>, port: string) {
    var name := ServicePortName(service, port, LocalNet.TCP);
    if name in m then m[name] != [] && ListOf(m[name], ForPort(pairs, port)) else ForPort(pairs, port) == {}
  }

  ghost predicate MapOf(service: NamespacedName, m: EndpointsMap, pairs: set<(string, Endpoint)>) {
    && (forall name :: name in m ==> name == ServicePortName(service, name.port, LocalNet.TCP))
    && (forall port :: PortListed(service, m, pairs, port))
  }

  /** What getEndpointsMap computes, with no mention of any iteration order. */
  ghost predicate IsEndpointsMap(cfg: Config, service: NamespacedName, slices: map<string, SliceInfo>,
                                 m: EndpointsMap) {
    MapOf(service, m, Contributions(cfg, slices))
  }

  const BY_ENDPOINT := (a: Endpoint, b: Endpoint) => StringLess(a.endpoint, b.endpoint)

  lemma ByEndpointIsWeak()
    ensures WeakOrder(BY_ENDPOINT)
  {
    StringOrderIsWeak();
    forall x, y: Endpoint | BY_ENDPOINT(x, y) ensures !BY_ENDPOINT(y, x) {
      assert !StringLess(y.endpoint, x.endpoint);
    }
    forall x, y, z: Endpoint | !BY_ENDPOINT(x, y) && !BY_ENDPOINT(y, z) ensures !BY_ENDPOINT(x, z) {
      assert !StringLess(x.endpoint, z.endpoint);
    }
  }

  /** The values of a deduplicated set, in any order. */
  ghost predicate ValuesOf(values: seq<Endpoint>, found: EndpointSet) {
    && (forall e :: e in values ==> e.endpoint in found && found[e.endpoint] == e)
    && (forall s :: s in found ==> multiset(values)[found[s]] == 1)
  }

  method SortedValues(found: EndpointSet) returns (eps: seq<Endpoint>)
    requires forall s :: s in found ==> found[s].endpoint == s
    ensures ValuesOf(eps, found) && Increasing(eps)
  {
    eps := [];
    var todo := found.Keys;
    while todo != {}
      invariant todo <= found.Keys
      invariant ValuesOf(eps, found - todo)
    {
      var s :| s in todo;
      AddValue(eps, found - todo, found[s]);
      assert found - (todo - {s}) == (found - todo)[s := found[s]];
      eps := eps + [found[s]];
      todo := todo - {s};
    }
    assert found - todo == found;
    ByEndpointIsWeak();
    ghost var unsorted := eps;
    eps := Sort(eps, BY_ENDPOINT);
    SortKeepsValues(unsorted, eps, found);
    SortedValuesIncrease(eps, found);
  }

  lemma AddValue(values: seq<Endpoint>, found: EndpointSet, e: Endpoint)
    requires ValuesOf(values, found) && e.endpoint !in found
    requires forall s :: s in found ==> found[s].endpoint == s
    ensures ValuesOf(values + [e], found[e.endpoint := e])
  {
  }

  lemma SortKeepsValues(unsorted: seq<Endpoint>, sorted: seq<Endpoint>, found: EndpointSet)
    requires multiset(unsorted) == multiset(sorted) && ValuesOf(unsorted, found)
    ensures ValuesOf(sorted, found)
  {
    forall e | e in sorted ensures e.endpoint in found && found[e.endpoint] == e {
      assert e in multiset(unsorted);
    }
  }

  /** Sorting gives strict increase because no two values share an endpoint string. */
  lemma SortedValuesIncrease(eps: seq<Endpoint>, found: EndpointSet)
    requires ValuesOf(eps, found) && SortedBy(eps, BY_ENDPOINT)
    ensures Increasing(eps)
  {
    forall i, j | 0 <= i < j < |eps| ensures StringLess(eps[i].endpoint, eps[j].endpoint) {
      StringLessTotal(eps[i].endpoint, eps[j].endpoint);
      assert !BY_ENDPOINT(eps[j], eps[i]);
      if eps[i].endpoint == eps[j].endpoint {
        assert eps[i] in eps && eps[j] in eps;
        Twice(eps, i, j);
      }
    }
  }

  lemma Twice(eps: seq<Endpoint>, i: nat, j: nat)
    requires i < j < |eps| && eps[i] == eps[j]
    ensures multiset(eps)[eps[i]] >= 2
  {
    assert eps == eps[..j] + [eps[j]] + eps[j + 1..];
    assert eps[..j][i] == eps[j];
  }

  /** endpointsMapFromEndpointInfo */
  method EndpointsMapFromEndpointInfo(service: NamespacedName, groups: map<ServicePortName, EndpointSet>,
                                      ghost pairs: set<(string, Endpoint)>)
    returns (m: EndpointsMap)
    requires Groups(service, groups, pairs)
    ensures MapOf(service, m, pairs)
    ensures m.Keys == NonEmpty(groups)
    ensures forall name :: name in m ==> ValuesOf(m[name], groups[name])
  {
    m := map[];
    var todo := groups.Keys;
    assert groups - todo == map[];
    while todo != {}
      invariant todo <= groups.Keys && m.Keys == NonEmpty(groups - todo)
      invariant forall name :: name in m ==> SortedListOf(m[name], groups[name])
    {
      var name :| name in todo;
      NonEmptyOneMore(groups, todo, name);
      if |groups[name]| > 0 {
        assert GroupOf(service, groups, pairs, name.port);
        var eps := SortedValues(groups[name]);
        assert SortedListOf(eps, groups[name]);
        m := m[name := eps];
      }
      todo := todo - {name};
    }
    assert groups - todo == groups;
    ValuesAreListed(service, groups, pairs, m);
  }

  ghost predicate SortedListOf(eps: seq<Endpoint>, found: EndpointSet) {
    ValuesOf(eps, found) && Increasing(eps)
  }

  ghost function NonEmpty(groups: map<ServicePortName, EndpointSet>): set<ServicePortName> {
    set name | name in groups && groups[name] != map[]
  }

  lemma NonEmptyOneMore(groups: map<ServicePortName, EndpointSet>, todo: set<ServicePortName>, name: ServicePortName)
    requires name in todo && todo <= groups.Keys
    ensures NonEmpty(groups - (todo - {name})) ==
      NonEmpty(groups - todo) + if groups[name] == map[] then {} else {name}
  {
    var less, more := groups - todo, groups - (todo - {name});
    assert forall n :: n in more <==> n in less || n == name;
  }

  lemma ValuesAreListed(service: NamespacedName, groups: map<ServicePortName, EndpointSet>,
                        pairs: set<(string, Endpoint)>, m: EndpointsMap)
    requires Groups(service, groups, pairs) && m.Keys == NonEmpty(groups)
    requires forall name :: name in m ==> SortedListOf(m[name], groups[name])
    ensures MapOf(service, m, pairs)
  {
    forall port ensures PortListed(service, m, pairs, port) {
      assert GroupOf(service, groups, pairs, port);
      var name := ServicePortName(service, port, LocalNet.TCP);
      if name in m {
        ListOfValues(m[name], groups[name], ForPort(pairs, port));
      } else {
        assert SetFor(groups, name) == map[];
      }
    }
  }

  lemma ListOfValues(eps: seq<Endpoint>, found: EndpointSet, contributors: set<Endpoint>)
    requires Deduplicates(found, contributors) && ValuesOf(eps, found) && Increasing(eps)
    ensures ListOf(eps, contributors)
    ensures found != map[] ==> eps != []
  {
    forall i | 0 <= i < |eps|
      ensures eps[i] in contributors && (eps[i].isLocal <==> HasLocal(contributors, eps[i].endpoint))
    {
      assert eps[i] in eps;
      assert found[eps[i].endpoint] == eps[i];
    }
    forall s | s in found ensures Listed(eps, s) {
      assert multiset(eps)[found[s]] == 1;
      assert found[s] in multiset(eps) && found[s] in eps;
    }
  }

  /** getEndpointsMap */
  method GetEndpointsMap(cfg: Config, service: NamespacedName, slices: map<string, SliceInfo>) returns (m: EndpointsMap)
    ensures IsEndpointsMap(cfg, service, slices, m)
  {
    var groups := EndpointInfoByServicePort(cfg, service, slices);
    m := EndpointsMapFromEndpointInfo(service, groups, Contributions(cfg, slices));
  }

  // ----- what is listed, on the fields of the slices -----

  /** A port and an endpoint of a slice that have the endpoint string `s` listed under the port name. */
  predicate Exposes(cfg: Config, p: EndpointPort, ep: EndpointInfo, port: string, s: string) {
    && p.name == Some(port) && p.port.Some? && p.port.value != 0
    && ep.addresses != [] && cfg.isIPv6(ep.addresses[0]) == cfg.ipv6
    && s == EndpointString(ep.addresses[0], p.port.value)
  }

  predicate OnHost(cfg: Config, ep: EndpointInfo) {
    cfg.hostname != "" && ep.nodeName == Some(cfg.hostname)
  }

  /** The endpoint says what the endpoint of the slice says, and is local exactly on this host. */
  predicate Describes(cfg: Config, ep: EndpointInfo, e: Endpoint) {
    && (e.isLocal <==> OnHost(cfg, ep))
    && e.ready == ep.ready && e.serving == ep.serving && e.terminating == ep.terminating
    && (e.nodeName == match ep.nodeName case None => "" case Some(nodeName) => nodeName)
    && (e.zone == match ep.zone case None => "" case Some(zone) => zone)
  }

  /** Port i and endpoint j of the slice have `s` listed under the port name. */
  ghost predicate ExposedBy(cfg: Config, slices: map<string, SliceInfo>, n: string, i: int, j: int, port: string,
                            s: string) {
    && n in slices && 0 <= i < |slices[n].ports| && 0 <= j < |slices[n].endpoints|
    && Exposes(cfg, slices[n].ports[i], slices[n].endpoints[j], port, s)
  }

  ghost predicate IsExposed(cfg: Config, slices: map<string, SliceInfo>, port: string, s: string) {
    exists n, i, j :: ExposedBy(cfg, slices, n, i, j, port, s)
  }

  ghost predicate IsExposedOnHost(cfg: Config, slices: map<string, SliceInfo>, port: string, s: string) {
    exists n, i, j :: ExposedBy(cfg, slices, n, i, j, port, s) && OnHost(cfg, slices[n].endpoints[j])
  }

  ghost predicate DescribesExposed(cfg: Config, slices: map<string, SliceInfo>, port: string, e: Endpoint) {
    exists n, i, j :: ExposedBy(cfg, slices, n, i, j, port, e.endpoint) && Describes(cfg, slices[n].endpoints[j], e)
  }

  lemma ContributionMeaning(cfg: Config, p: EndpointPort, ep: EndpointInfo, port: string, e: Endpoint)
    ensures Exposes(cfg, p, ep, port, e.endpoint) && Describes(cfg, ep, e) <==>
      Usable(p) && p.name.value == port && Contribution(cfg, p.port.value, ep) == Some(e)
  {
  }

  lemma PairMeaning(cfg: Config, slices: map<string, SliceInfo>, port: string, e: Endpoint)
    ensures (port, e) in Contributions(cfg, slices) <==> DescribesExposed(cfg, slices, port, e)
  {
    if (port, e) in Contributions(cfg, slices) {
      var n :| n in slices && (port, e) in PortContributions(cfg, slices[n].ports, slices[n].endpoints);
      var ports, eps := slices[n].ports, slices[n].endpoints;
      var i :| 0 <= i < |ports| && (port, e) in AddedByPort(cfg, ports[i], eps);
      var j := ContributorOf(cfg, ports[i].port.value, eps, e);
      ContributionMeaning(cfg, ports[i], eps[j], port, e);
      assert ExposedBy(cfg, slices, n, i, j, port, e.endpoint);
    }
    if n, i, j :| ExposedBy(cfg, slices, n, i, j, port, e.endpoint) && Describes(cfg, slices[n].endpoints[j], e) {
      var ports, eps := slices[n].ports, slices[n].endpoints;
      ContributionMeaning(cfg, ports[i], eps[j], port, e);
      ContributorCounts(cfg, ports[i].port.value, eps, j, e);
      assert (port, e) in AddedByPort(cfg, ports[i], eps);
      assert AddedUnder(cfg, eps)(ports[i]) == AddedByPort(cfg, ports[i], eps);
      assert (port, e) in PortContributions(cfg, ports, eps);
    }
  }

  lemma ContributorOf(cfg: Config, portNum: int, eps: seq<EndpointInfo>, e: Endpoint) returns (j: nat)
    requires e in EndpointContributions(cfg, portNum, eps)
    ensures j < |eps| && Contribution(cfg, portNum, eps[j]) == Some(e)
  {
    var f := ContributionUnder(cfg, portNum);
    j :| 0 <= j < |eps| && f(eps[j]) == Some(e);
  }

  lemma ContributorCounts(cfg: Config, portNum: int, eps: seq<EndpointInfo>, j: nat, e: Endpoint)
    requires j < |eps| && Contribution(cfg, portNum, eps[j]) == Some(e)
    ensures e in EndpointContributions(cfg, portNum, eps)
  {
    assert ContributionUnder(cfg, portNum)(eps[j]) == Some(e);
  }

  /** An endpoint string is listed under a port name exactly when some slice has it exposed, and the
      endpoint listed describes one that is exposed, on this host if there is one. The list is in
      strictly increasing order. */
  lemma EndpointsMapMeaning(cfg: Config, service: NamespacedName, slices: map<string, SliceInfo>, m: EndpointsMap,
                            port: string, s: string)
    requires IsEndpointsMap(cfg, service, slices, m)
    ensures var name := ServicePortName(service, port, LocalNet.TCP);
      && ((name in m && Listed(m[name], s)) <==> IsExposed(cfg, slices, port, s))
      && (name in m ==> forall k :: 0 <= k < |m[name]| && m[name][k].endpoint == s ==>
            && (m[name][k].isLocal <==> IsExposedOnHost(cfg, slices, port, s))
            && DescribesExposed(cfg, slices, port, m[name][k]))
      && (name in m ==> forall a, b :: 0 <= a < b < |m[name]| ==>
            StringLess(m[name][a].endpoint, m[name][b].endpoint))
  {
    var name, pairs := ServicePortName(service, port, LocalNet.TCP), Contributions(cfg, slices);
    assert PortListed(service, m, pairs, port);
    if n, i, j :| ExposedBy(cfg, slices, n, i, j, port, s) {
      var e := Exposed(cfg, slices, n, i, j, port, s);
      assert e in ForPort(pairs, port);
    }
    if name in m {
      forall k | 0 <= k < |m[name]| && m[name][k].endpoint == s
        ensures m[name][k].isLocal <==> IsExposedOnHost(cfg, slices, port, s)
        ensures DescribesExposed(cfg, slices, port, m[name][k])
      {
        assert m[name][k] in ForPort(pairs, port);
        PairMeaning(cfg, slices, port, m[name][k]);
        LocalMeaning(cfg, slices, port, s);
      }
    }
  }

  /** What an exposed endpoint contributes. */
  lemma Exposed(cfg: Config, slices: map<string, SliceInfo>, n: string, i: int, j: int, port: string, s: string)
    returns (e: Endpoint)
    requires ExposedBy(cfg, slices, n, i, j, port, s)
    ensures (port, e) in Contributions(cfg, slices) && e.endpoint == s && Describes(cfg, slices[n].endpoints[j], e)
  {
    e := Contribution(cfg, slices[n].ports[i].port.value, slices[n].endpoints[j]).value;
    ContributionMeaning(cfg, slices[n].ports[i], slices[n].endpoints[j], port, e);
    PairMeaning(cfg, slices, port, e);
  }

  lemma LocalMeaning(cfg: Config, slices: map<string, SliceInfo>, port: string, s: string)
    ensures HasLocal(ForPort(Contributions(cfg, slices), port), s) <==> IsExposedOnHost(cfg, slices, port, s)
  {
    var contributors := ForPort(Contributions(cfg, slices), port);
    if e :| e in contributors && e.endpoint == s && e.isLocal {
      PairMeaning(cfg, slices, port, e);
    }
    if n, i, j :| ExposedBy(cfg, slices, n, i, j, port, s) && OnHost(cfg, slices[n].endpoints[j]) {
      var e := Exposed(cfg, slices, n, i, j, port, s);
      assert e in contributors;
    }
  }

  // ----- order independence -----

  /** Equal up to Endpoint.Equal, the comparison the program itself uses on endpoints. */
  ghost predicate SameEndpoints(m1: EndpointsMap, m2: EndpointsMap) {
    && m1.Keys == m2.Keys
    && forall name :: name in m1 ==> SameList(m1[name], m2[name])
  }

  ghost predicate SameList(a: seq<Endpoint>, b: seq<Endpoint>) {
    |a| == |b| && forall i :: 0 <= i < |a| ==> a[i].Equal(b[i])
  }

  lemma ListUnique(a: seq<Endpoint>, b: seq<Endpoint>, contributors: set<Endpoint>)
    requires ListOf(a, contributors) && ListOf(b, contributors)
    ensures SameList(a, b)
  {
    forall s ensures Listed(a, s) <==> Listed(b, s) {
    }
    SameStrings(a, b);
  }

  lemma {:induction false} SameStrings(a: seq<Endpoint>, b: seq<Endpoint>)
    requires Increasing(a) && Increasing(b)
    requires forall s :: Listed(a, s) <==> Listed(b, s)
    ensures |a| == |b| && forall i :: 0 <= i < |a| ==> a[i].endpoint == b[i].endpoint
  {
    if a == [] {
      if b != [] {
        assert Listed(b, b[0].endpoint);
      }
    } else {
      assert Listed(a, a[0].endpoint);
      SameFirst(a, b);
      forall s ensures Listed(a[1..], s) <==> Listed(b[1..], s) {
        ListedTail(a, s);
        ListedTail(b, s);
      }
      SameStrings(a[1..], b[1..]);
      assert forall i :: 0 < i < |a| ==> a[i] == a[1..][i - 1] && b[i] == b[1..][i - 1];
    }
  }

  lemma SameFirst(a: seq<Endpoint>, b: seq<Endpoint>)
    requires Increasing(a) && Increasing(b) && a != []
    requires forall s :: Listed(a, s) <==> Listed(b, s)
    ensures b != [] && a[0].endpoint == b[0].endpoint
  {
    assert Listed(a, a[0].endpoint);
    FirstIsLeast(b, a[0].endpoint);
    assert Listed(b, b[0].endpoint);
    FirstIsLeast(a, b[0].endpoint);
    StringLessTotal(a[0].endpoint, b[0].endpoint);
  }

  lemma FirstIsLeast(eps: seq<Endpoint>, s: string)
    requires Increasing(eps) && Listed(eps, s)
    ensures eps != [] && (eps[0].endpoint == s || StringLess(eps[0].endpoint, s))
  {
  }

  lemma ListedTail(a: seq<Endpoint>, s: string)
    requires Increasing(a) && a != []
    ensures Listed(a[1..], s) <==> Listed(a, s) && s != a[0].endpoint
  {
    StringLessIrreflexive(s);
    if Listed(a, s) && s != a[0].endpoint {
      var i :| 0 <= i < |a| && a[i].endpoint == s;
      assert a[1..][i - 1].endpoint == s;
    }
    if Listed(a[1..], s) {
      var i :| 0 <= i < |a[1..]| && a[1..][i].endpoint == s;
      assert a[i + 1].endpoint == s;
    }
  }

  /** Whatever orders the map iterations and sorts chose, the result is the same. */
  lemma OrderIndependent(cfg: Config, service: NamespacedName, slices: map<string, SliceInfo>, m1: EndpointsMap,
                         m2: EndpointsMap)
    requires IsEndpointsMap(cfg, service, slices, m1) && IsEndpointsMap(cfg, service, slices, m2)
    ensures SameEndpoints(m1, m2)
  {
    var pairs := Contributions(cfg, slices);
    forall name | name in m1 || name in m2 ensures name in m1 && name in m2 && SameList(m1[name], m2[name]) {
      KeyIffContributed(service, m1, pairs, name.port);
      KeyIffContributed(service, m2, pairs, name.port);
      ListUnique(m1[name], m2[name], ForPort(pairs, name.port));
    }
  }

  lemma KeyIffContributed(service: NamespacedName, m: EndpointsMap, pairs: set<(string, Endpoint)>, port: string)
    requires MapOf(service, m, pairs)
    ensures PortListed(service, m, pairs, port)
    ensures ServicePortName(service, port, LocalNet.TCP) in m <==> ForPort(pairs, port) != {}
  {
    assert PortListed(service, m, pairs, port);
    var name := ServicePortName(service, port, LocalNet.TCP);
    if name in m {
      assert m[name][0] in ForPort(pairs, port);
    }
  }

  /** Deduplication by endpoint string never merges endpoints that differ in address or port. */
  lemma DeduplicationMergesOnlyEquals(cfg: Config, port1: int, ep1: EndpointInfo, port2: int, ep2: EndpointInfo)
    requires InInt(port1) && InInt(port2)
    requires Contribution(cfg, port1, ep1).Some? && Contribution(cfg, port2, ep2).Some?
    requires Contribution(cfg, port1, ep1).value.endpoint == Contribution(cfg, port2, ep2).value.endpoint
    ensures ep1.addresses[0] == ep2.addresses[0] && port1 == port2
  {
    EndpointStringInjective(ep1.addresses[0], port1, ep2.addresses[0], port2);
  }
}
