/** Winkernel services: the load balancers of their policies, and the changes of the endpoints
    map that clean both services and endpoints up. */
module HnsServices {
  import opened Basics
  import opened ServicePorts
  import opened Releases
  import opened HnsEndpoints

  // ----- deleting load balancers -----

  /** externalIPInfo and loadBalancerIngressInfo: an address with its load balancer. */
  class IPInfo {
    var hnsID: string

    constructor (hnsID: string)
      ensures this.hnsID == hnsID
    {
      this.hnsID := hnsID;
    }
  }

  type IPIDs = map<IPInfo, string>

  ghost function IDsNow(ips: seq<IPInfo>): IPIDs
    reads ips
  {
    map x | x in ips :: x.hnsID
  }

  /** What deleting in this order asks for: each load balancer where it comes up first, and none
      ("") where it was forgotten before. */
  ghost function Issued(ids: IPIDs, ips: seq<IPInfo>): seq<string>
    requires forall x :: x in ips ==> x in ids
  {
    if ips == [] then []
    else
      var n := |ips| - 1;
      Issued(ids, ips[..n]) + [if ips[n] in ips[..n] then "" else ids[ips[n]]]
  }

  ghost function Forgotten(ids: IPIDs, ips: seq<IPInfo>): IPIDs {
    map x | x in ids :: if x in ips then "" else ids[x]
  }

  lemma {:induction false} IssuedInSteps(ids: IPIDs, a: seq<IPInfo>, b: seq<IPInfo>)
    requires forall x :: x in a || x in b ==> x in ids
    ensures Issued(ids, a + b) == Issued(ids, a) + Issued(Forgotten(ids, a), b)
  {
    if b == [] {
      assert a + b == a;
    } else {
      var n := |b| - 1;
      IssuedInSteps(ids, a, b[..n]);
      assert (a + b)[..|a| + n] == a + b[..n] && (a + b)[|a| + n] == b[n];
    }
  }

  /** Each address is asked for in turn, with none where it came up before. */
  lemma {:induction false} IssuedAt(ids: IPIDs, ips: seq<IPInfo>, i: nat)
    requires (forall x :: x in ips ==> x in ids) && i < |ips|
    ensures |Issued(ids, ips)| == |ips| && Issued(ids, ips)[i] == if ips[i] in ips[..i] then "" else ids[ips[i]]
  {
    var n := |ips| - 1;
    if i < n {
      IssuedAt(ids, ips[..n], i);
      assert ips[..n][..i] == ips[..i];
    } else if n > 0 {
      IssuedAt(ids, ips[..n], n - 1);
    }
  }

  /** Exactly the known load balancers are asked for, besides none. */
  lemma {:induction false} IssuedAreKnown(ids: IPIDs, ips: seq<IPInfo>)
    requires forall x :: x in ips ==> x in ids
    ensures forall x :: x in ips ==> ids[x] in Issued(ids, ips)
    ensures forall id :: id in Issued(ids, ips) ==> id == "" || exists x :: x in ips && ids[x] == id
  {
    if ips != [] {
      var n := |ips| - 1;
      IssuedAreKnown(ids, ips[..n]);
      assert ips == ips[..n] + [ips[n]];
    }
  }

  lemma {:induction false} IssuedAgrees(ids: IPIDs, ids': IPIDs, ips: seq<IPInfo>)
    requires forall x :: x in ips ==> x in ids && x in ids' && ids[x] == ids'[x]
    ensures Issued(ids, ips) == Issued(ids', ips)
  {
    if ips != [] {
      IssuedAgrees(ids, ids', ips[..|ips| - 1]);
    }
  }

  /** Delete the load balancer of each address and forget it. */
  method DeleteLoadBalancersOf(ips: seq<IPInfo>, hns: HostNetworkService, ghost ids: IPIDs)
    requires forall x :: x in ips ==> x in ids && ids[x] == x.hnsID
    modifies ips, hns`deletedLoadBalancers
    ensures forall x :: x in ips ==> x.hnsID == ""
    ensures hns.deletedLoadBalancers == old(hns.deletedLoadBalancers) + Issued(ids, ips)
  {
    for i := 0 to |ips|
      invariant forall x :: x in ips ==> x.hnsID == if x in ips[..i] then "" else ids[x]
      invariant hns.deletedLoadBalancers == old(hns.deletedLoadBalancers) + Issued(ids, ips[..i])
    {
      IssuedOneMore(ids, ips, i);
      hns.DeleteLoadBalancer(ips[i].hnsID);
      ips[i].hnsID := "";
    }
    assert ips[..|ips|] == ips;
  }

  lemma IssuedOneMore(ids: IPIDs, ips: seq<IPInfo>, i: nat)
    requires i < |ips| && forall x :: x in ips ==> x in ids
    ensures Issued(ids, ips[..i + 1]) == Issued(ids, ips[..i]) + [if ips[i] in ips[..i] then "" else ids[ips[i]]]
    ensures forall x :: x in ips[..i + 1] <==> x in ips[..i] || x == ips[i]
  {
    assert ips[..i + 1][..i] == ips[..i] && ips[..i + 1] == ips[..i] + [ips[i]];
  }

  class ServiceInfo {
    const hns: HostNetworkService
    const externalIPs: seq<IPInfo>
    const loadBalancerIngressIPs: seq<IPInfo>
    const remoteEndpoint: EndpointInfo?
    var hnsID: string
    var nodePorthnsID: string
    var policyApplied: bool

    constructor (hns: HostNetworkService)
      ensures this.hns == hns && externalIPs == [] && loadBalancerIngressIPs == [] && remoteEndpoint == null
      ensures hnsID == "" && nodePorthnsID == "" && !policyApplied
    {
      this.hns := hns;
      externalIPs, loadBalancerIngressIPs, remoteEndpoint := [], [], null;
      hnsID, nodePorthnsID, policyApplied := "", "", false;
    }

    ghost function IPs(): seq<IPInfo> {
      externalIPs + loadBalancerIngressIPs
    }

    ghost function IPSet(): set<IPInfo> {
      Elements(IPs())
    }

    /** What deleteAllHnsLoadBalancerPolicy asks the host network service to delete, in order. */
    ghost function ToDelete(): seq<string>
      reads this, IPSet()
    {
      [hnsID, nodePorthnsID] + Issued(IDsNow(IPs()), IPs())
    }

    /** Neither the service nor an address of it knows a load balancer. */
    ghost predicate NoLoadBalancers()
      reads this, IPSet(), externalIPs, loadBalancerIngressIPs
    {
      && hnsID == nodePorthnsID == ""
      && (forall x :: x in externalIPs ==> x.hnsID == "") && (forall x :: x in loadBalancerIngressIPs ==> x.hnsID == "")
    }

    /** A load balancer known to the service itself or to one of its addresses. */
    ghost predicate Knows(id: string)
      reads this, externalIPs, loadBalancerIngressIPs
    {
      || hnsID == id || nodePorthnsID == id
      || (exists x :: x in externalIPs && x.hnsID == id) || (exists x :: x in loadBalancerIngressIPs && x.hnsID == id)
    }

    /** Exactly the load balancers that are known are asked for, besides none. */
    lemma ToDeleteIsKnown(id: string)
      requires id != ""
      ensures id in ToDelete() <==> Knows(id)
    {
      IssuedAreKnown(IDsNow(IPs()), IPs());
      assert forall x :: x in IPs() <==> x in externalIPs || x in loadBalancerIngressIPs;
      if Knows(id) && id != hnsID && id != nodePorthnsID {
        var x :| x in IPs() && x.hnsID == id;
        assert IDsNow(IPs())[x] in Issued(IDsNow(IPs()), IPs());
      }
      if id in Issued(IDsNow(IPs()), IPs()) {
        var x :| x in IPs() && IDsNow(IPs())[x] == id;
      }
    }

    /** Every known load balancer is deleted, in order, and none stays known. */
    method DeleteAllHnsLoadBalancerPolicy()
      modifies `hnsID, `nodePorthnsID, IPSet(), hns`deletedLoadBalancers
      ensures NoLoadBalancers()
      ensures var ips := externalIPs + loadBalancerIngressIPs;
        hns.deletedLoadBalancers ==
          old(hns.deletedLoadBalancers) + ([old(hnsID), old(nodePorthnsID)] + Issued(old(IDsNow(ips)), ips))
    {
      hns.DeleteLoadBalancer(hnsID);
      hnsID := "";
      hns.DeleteLoadBalancer(nodePorthnsID);
      nodePorthnsID := "";
      DeleteLoadBalancersOfIPs();
    }

    /** The two loops of deleteAllHnsLoadBalancerPolicy. */
    method DeleteLoadBalancersOfIPs()
      modifies IPSet(), hns`deletedLoadBalancers
      ensures forall x :: x in IPs() ==> x.hnsID == ""
      ensures hns.deletedLoadBalancers == old(hns.deletedLoadBalancers) + Issued(old(IDsNow(IPs())), IPs())
    {
      ghost var ids, log := IDsNow(IPs()), hns.deletedLoadBalancers;
      DeleteLoadBalancersOf(externalIPs, hns, ids);
      DeleteLoadBalancersOf(loadBalancerIngressIPs, hns, Forgotten(ids, externalIPs));
      assert hns.deletedLoadBalancers == log + Issued(ids, IPs()) by {
        IssuedInSteps(ids, externalIPs, loadBalancerIngressIPs);
        Associative(log, Issued(ids, externalIPs), Issued(Forgotten(ids, externalIPs), loadBalancerIngressIPs));
      }
      assert forall x :: x in IPs() ==> x in externalIPs || x in loadBalancerIngressIPs;
    }

    /** What cleanupAllPolicies cleans up, in order. */
    ghost function CleanedUp(endpoints: seq<EndpointInfo>): seq<EndpointInfo> {
      endpoints + if remoteEndpoint != null then [remoteEndpoint] else []
    }

    /** The load balancers that were known are deleted and forgotten, and the endpoints and the remote
        endpoint let go of their counters. */
    method CleanupAllPolicies(endpoints: seq<EndpointInfo>, ghost all: set<EndpointInfo>, ghost counters: set<Counter>)
      requires Counted(all, counters, hns) && (forall e :: e in endpoints ==> e in all)
      requires remoteEndpoint != null ==> remoteEndpoint in all
      modifies `hnsID, `nodePorthnsID, `policyApplied, IPSet(), hns, all, counters
      ensures Counted(all, counters, hns)
      ensures Cleaned(all, hns, endpoints + if remoteEndpoint != null then [remoteEndpoint] else [])
      ensures forall e :: e in endpoints ==> !e.Holds()
      ensures remoteEndpoint != null ==> !remoteEndpoint.Holds()
      ensures !policyApplied && NoLoadBalancers()
      ensures hns.deletedLoadBalancers == old(hns.deletedLoadBalancers) + old(ToDelete())
    {
      DropPolicies(all, counters);
      label dropped:
      CleanupReferences(endpoints, all, counters);
      assert unchanged@dropped(this) && unchanged@dropped(IPSet());
      label cleaned:
      policyApplied := false;
      assert unchanged@cleaned(all) && unchanged@cleaned(counters) && unchanged@cleaned(IPSet());
    }

    /** The part of cleanupAllPolicies that leaves endpoints alone. */
    method DropPolicies(ghost all: set<EndpointInfo>, ghost counters: set<Counter>)
      requires Counted(all, counters, hns)
      modifies `hnsID, `nodePorthnsID, IPSet(), hns`deletedLoadBalancers
      ensures Counted(all, counters, hns) && Held(all) == old(Held(all)) && NoLoadBalancers()
      ensures hns.deletedLoadBalancers == old(hns.deletedLoadBalancers) + old(ToDelete())
    {
      DeleteAllHnsLoadBalancerPolicy();
      assert unchanged(all) && unchanged(counters);
    }

    /** The part of cleanupAllPolicies that lets go of endpoints. */
    method CleanupReferences(endpoints: seq<EndpointInfo>, ghost all: set<EndpointInfo>, ghost counters: set<Counter>)
      requires Counted(all, counters, hns) && (forall e :: e in endpoints ==> e in all)
      requires remoteEndpoint != null ==> remoteEndpoint in all
      modifies hns`deletedEndpoints, all, counters
      ensures Counted(all, counters, hns) && Cleaned(all, hns, CleanedUp(endpoints))
      ensures forall e :: e in endpoints ==> !e.Holds()
      ensures remoteEndpoint != null ==> !remoteEndpoint.Holds()
    {
      ghost var held: map<EndpointInfo, Counter> := Held(all);
      CleanupEndpoints(endpoints, all, counters, hns);
      if remoteEndpoint != null {
        CleanedInSteps(held, endpoints, [remoteEndpoint]);
        CleanupEndpoints([remoteEndpoint], all, counters, hns);
      } else {
        assert endpoints + [] == endpoints;
      }
      NoneHeld(all, held, CleanedUp(endpoints));
    }
  }

  /** Endpoints that were cleaned up hold no counter. */
  lemma NoneHeld(all: set<EndpointInfo>, held: map<EndpointInfo, Counter>, order: seq<EndpointInfo>)
    requires Held(all) == held - Elements(order)
    ensures forall e :: e in order && e in all ==> !e.Holds()
  {
    forall e | e in order && e in all ensures !e.Holds() {
      assert e !in Held(all);
    }
  }

  // ----- changes of the endpoints map -----

  /** The load balancers known at some point, the services with a policy applied, and what had
      been deleted by then. */
  datatype Snapshot = Snapshot(ips: IPIDs, own: map<ServiceInfo, (string, string)>, applied: set<ServiceInfo>,
                               log: seq<string>)

  ghost predicate Covers(snap: Snapshot, svc: ServiceInfo) {
    svc in snap.own && forall x :: x in svc.IPs() ==> x in snap.ips
  }

  ghost function KnownTo(snap: Snapshot, svc: ServiceInfo): set<string>
    requires Covers(snap, svc)
  {
    {snap.own[svc].0, snap.own[svc].1} + set x | x in svc.IPs() :: snap.ips[x]
  }

  /** One service deletes and forgets all it knows. */
  ghost function AfterForgetting(snap: Snapshot, svc: ServiceInfo): Snapshot
    requires Covers(snap, svc)
  {
    Snapshot(Forgotten(snap.ips, svc.IPs()), snap.own[svc := ("", "")], snap.applied - {svc},
             snap.log + ([snap.own[svc].0, snap.own[svc].1] + Issued(snap.ips, svc.IPs())))
  }

  /** A load balancer id that is still known, or forgotten and deleted. */
  predicate Gone(before: string, now: string, issued: seq<string>) {
    now == before || (now == "" && before in issued)
  }

  /** What was known and no longer is has been deleted in between. */
  ghost predicate GoneIsDeleted(start: Snapshot, now: Snapshot) {
    && start.ips.Keys == now.ips.Keys && start.own.Keys == now.own.Keys && start.log <= now.log
    && (forall x :: x in start.ips ==> Gone(start.ips[x], now.ips[x], now.log[|start.log|..]))
    && (forall svc :: svc in start.own ==>
          && Gone(start.own[svc].0, now.own[svc].0, now.log[|start.log|..])
          && Gone(start.own[svc].1, now.own[svc].1, now.log[|start.log|..]))
  }

  ghost predicate KnownAmong(snap: Snapshot, svcs: set<ServiceInfo>, id: string) {
    exists svc :: svc in svcs && Covers(snap, svc) && id in KnownTo(snap, svc)
  }

  /** Nothing was deleted in between that none of these services knew. */
  ghost predicate OnlyKnownDeleted(start: Snapshot, now: Snapshot, svcs: set<ServiceInfo>) {
    start.log <= now.log && forall id :: id in now.log[|start.log|..] ==> id == "" || KnownAmong(start, svcs, id)
  }

  /** None of these services knows a load balancer or has a policy applied. */
  ghost predicate Cleared(now: Snapshot, svcs: set<ServiceInfo>) {
    forall svc :: svc in svcs ==> svc !in now.applied && Covers(now, svc) && KnownTo(now, svc) == {""}
  }

  /** What became of the load balancers of some services, all of them cleaned up. */
  ghost predicate Forgot(start: Snapshot, now: Snapshot, svcs: set<ServiceInfo>) {
    GoneIsDeleted(start, now) && OnlyKnownDeleted(start, now, svcs) && Cleared(now, svcs)
  }

  lemma LogAfterForgetting(start: Snapshot, now: Snapshot, svc: ServiceInfo)
    requires start.log <= now.log && Covers(now, svc)
    ensures var after := AfterForgetting(now, svc);
      && start.log <= after.log
      && (forall id :: id in now.log[|start.log|..] || id in KnownTo(now, svc) ==> id in after.log[|start.log|..])
      && (forall id :: id in after.log[|start.log|..] ==>
            id == "" || id in now.log[|start.log|..] || id in KnownTo(now, svc))
  {
    IssuedAreKnown(now.ips, svc.IPs());
    var more := [now.own[svc].0, now.own[svc].1] + Issued(now.ips, svc.IPs());
    assert AfterForgetting(now, svc).log[|start.log|..] == now.log[|start.log|..] + more;
  }

  lemma GoneAfterForgetting(start: Snapshot, now: Snapshot, svc: ServiceInfo)
    requires GoneIsDeleted(start, now) && Covers(now, svc)
    ensures GoneIsDeleted(start, AfterForgetting(now, svc))
  {
    LogAfterForgetting(start, now, svc);
    var after := AfterForgetting(now, svc);
    var issued := after.log[|start.log|..];
    forall x | x in start.ips ensures Gone(start.ips[x], after.ips[x], issued) {
      assert Gone(start.ips[x], now.ips[x], now.log[|start.log|..]);
      assert x in svc.IPs() ==> now.ips[x] in KnownTo(now, svc);
    }
  }

  lemma KnownWasKnown(start: Snapshot, now: Snapshot, svc: ServiceInfo)
    requires GoneIsDeleted(start, now) && Covers(now, svc)
    ensures Covers(start, svc) && KnownTo(now, svc) <= KnownTo(start, svc) + {""}
  {
  }

  lemma OnlyKnownAfterForgetting(start: Snapshot, now: Snapshot, svcs: set<ServiceInfo>, svc: ServiceInfo)
    requires GoneIsDeleted(start, now) && OnlyKnownDeleted(start, now, svcs) && Covers(now, svc)
    ensures OnlyKnownDeleted(start, AfterForgetting(now, svc), svcs + {svc})
  {
    LogAfterForgetting(start, now, svc);
    KnownWasKnown(start, now, svc);
    forall id | id in AfterForgetting(now, svc).log[|start.log|..]
      ensures id == "" || KnownAmong(start, svcs + {svc}, id)
    {
      if id in now.log[|start.log|..] && KnownAmong(start, svcs, id) {
        var other :| other in svcs && Covers(start, other) && id in KnownTo(start, other);
        assert other in svcs + {svc};
      }
    }
  }

  lemma ClearedAfterForgetting(now: Snapshot, svcs: set<ServiceInfo>, svc: ServiceInfo)
    requires Cleared(now, svcs) && Covers(now, svc)
    ensures Cleared(AfterForgetting(now, svc), svcs + {svc})
  {
    var after := AfterForgetting(now, svc);
    forall s | s in svcs + {svc} ensures s !in after.applied && Covers(after, s) && KnownTo(after, s) == {""} {
      if s != svc {
        assert forall x :: x in s.IPs() ==> now.ips[x] in KnownTo(now, s);
      }
    }
  }

  lemma ForgetOneMore(start: Snapshot, now: Snapshot, svcs: set<ServiceInfo>, svc: ServiceInfo)
    requires Forgot(start, now, svcs) && Covers(now, svc)
    ensures Forgot(start, AfterForgetting(now, svc), svcs + {svc})
  {
    GoneAfterForgetting(start, now, svc);
    OnlyKnownAfterForgetting(start, now, svcs, svc);
    ClearedAfterForgetting(now, svcs, svc);
  }

  /** Every load balancer one of these services knew has been deleted. */
  ghost predicate AllDeleted(start: Snapshot, now: Snapshot, svcs: set<ServiceInfo>) {
    start.log <= now.log && forall id :: KnownAmong(start, svcs, id) && id != "" ==> id in now.log[|start.log|..]
  }

  lemma ForgottenAreDeleted(start: Snapshot, now: Snapshot, svcs: set<ServiceInfo>)
    requires Forgot(start, now, svcs)
    ensures AllDeleted(start, now, svcs)
  {
    forall id | KnownAmong(start, svcs, id) && id != "" ensures id in now.log[|start.log|..] {
      var svc :| svc in svcs && Covers(start, svc) && id in KnownTo(start, svc);
      assert KnownTo(now, svc) == {""};
      assert forall x :: x in svc.IPs() ==> now.ips[x] in KnownTo(now, svc);
    }
  }

  class Proxier {
    const hns: HostNetworkService
    var serviceMap: map<ServicePortName, ServiceInfo>
    var endpointsMap: map<ServicePortName, seq<EndpointInfo>>
    /** All endpoints that may hold a shared counter, and these counters. */
    ghost var endpoints: set<EndpointInfo>
    ghost var counters: set<Counter>
    /** The service infos and their addresses. */
    ghost var services: set<ServiceInfo>
    ghost var ips: set<IPInfo>

    ghost predicate Valid()
      reads this, endpoints, counters
    {
      Counted(endpoints, counters, hns) && Linked()
    }

    /** Everything reachable from the two maps is known. */
    ghost predicate Linked()
      reads this
    {
      && (forall name :: name in endpointsMap ==> forall e :: e in endpointsMap[name] ==> e in endpoints)
      && (forall name :: name in serviceMap ==> Reachable(serviceMap[name]))
    }

    ghost predicate Reachable(svc: ServiceInfo)
      reads this
    {
      && svc in services && svc.hns == hns && (svc.remoteEndpoint != null ==> svc.remoteEndpoint in endpoints)
      && (forall x :: x in svc.externalIPs ==> x in ips) && (forall x :: x in svc.loadBalancerIngressIPs ==> x in ips)
    }

    constructor (hns: HostNetworkService)
      ensures Valid() && this.hns == hns && serviceMap == map[] && endpointsMap == map[]
    {
      this.hns := hns;
      serviceMap, endpointsMap := map[], map[];
      endpoints, counters, services, ips := {}, {}, {}, {};
    }

    /** The endpoints a change of this service port cleans up, in order. */
    ghost function CleanedUpFor(name: ServicePortName): seq<EndpointInfo>
      reads this
    {
      var eps := if name in endpointsMap then endpointsMap[name] else [];
      if name in serviceMap then serviceMap[name].CleanedUp(eps) else eps
    }

    /** The endpoints listed for a service port, and the remote endpoint of its service. */
    ghost predicate IsUnder(name: ServicePortName, e: EndpointInfo)
      reads this
    {
      || (name in endpointsMap && e in endpointsMap[name])
      || (name in serviceMap && serviceMap[name].remoteEndpoint == e)
    }

    ghost function ServicesOf(names: set<ServicePortName>): set<ServiceInfo>
      reads this
    {
      set name | name in names && name in serviceMap :: serviceMap[name]
    }

    ghost function IPsNow(): IPIDs
      reads this, ips
    {
      map x | x in ips :: x.hnsID
    }

    ghost function OwnNow(): map<ServiceInfo, (string, string)>
      reads this, services
    {
      map svc | svc in services :: (svc.hnsID, svc.nodePorthnsID)
    }

    ghost function AppliedNow(): set<ServiceInfo>
      reads this, services
    {
      set svc | svc in services && svc.policyApplied
    }

    /** The load balancers and policies as they are. */
    ghost function Now(): Snapshot
      reads this, services, ips, hns
    {
      Snapshot(IPsNow(), OwnNow(), AppliedNow(), hns.deletedLoadBalancers)
    }

    method OnEndpointsMapChange(name: ServicePortName)
      requires Valid()
      modifies services, ips, hns, endpoints, counters
      ensures Valid() && Cleaned(endpoints, hns, CleanedUpFor(name))
      ensures forall e :: IsUnder(name, e) ==> !e.Holds()
      ensures name in serviceMap ==>
        Covers(old(Now()), serviceMap[name]) && Now() == AfterForgetting(old(Now()), serviceMap[name])
      ensures name !in serviceMap ==> Now() == old(Now())
    {
      ghost var held: map<EndpointInfo, Counter> := Held(endpoints);
      if name in serviceMap {
        var eps := if name in endpointsMap then endpointsMap[name] else [];
        CleanupService(serviceMap[name], eps);
      } else if name in endpointsMap {
        CleanupEndpoints(endpointsMap[name], endpoints, counters, hns);
      }
      assert unchanged(this);
      UnderIsCleanedUp(name);
      NoneHeld(endpoints, held, CleanedUpFor(name));
    }

    lemma ToDeleteNow(svc: ServiceInfo)
      requires Reachable(svc)
      ensures svc.ToDelete() == [svc.hnsID, svc.nodePorthnsID] + Issued(IPsNow(), svc.IPs())
    {
      IssuedAgrees(IPsNow(), IDsNow(svc.IPs()), svc.IPs());
    }

    method CleanupService(svc: ServiceInfo, eps: seq<EndpointInfo>)
      requires Counted(endpoints, counters, hns) && Reachable(svc) && forall e :: e in eps ==> e in endpoints
      modifies services, ips, hns, endpoints, counters
      ensures Counted(endpoints, counters, hns) && Cleaned(endpoints, hns, svc.CleanedUp(eps))
      ensures Covers(old(Now()), svc) && Now() == AfterForgetting(old(Now()), svc)
    {
      ghost var ids, own, applied := IPsNow(), OwnNow(), AppliedNow();
      ToDeleteNow(svc);
      CleanupOnly(svc, eps);
      assert IPsNow() == Forgotten(ids, svc.IPs());
      assert OwnNow() == own[svc := ("", "")];
      assert AppliedNow() == applied - {svc};
    }

    /** cleanupAllPolicies on one service, which leaves all others alone. */
    method CleanupOnly(svc: ServiceInfo, eps: seq<EndpointInfo>)
      requires Counted(endpoints, counters, hns) && Reachable(svc) && forall e :: e in eps ==> e in endpoints
      modifies services, ips, hns, endpoints, counters
      ensures Counted(endpoints, counters, hns) && Cleaned(endpoints, hns, svc.CleanedUp(eps))
      ensures hns.deletedLoadBalancers == old(hns.deletedLoadBalancers) + old(svc.ToDelete())
      ensures svc.hnsID == svc.nodePorthnsID == "" && !svc.policyApplied
      ensures forall x :: x in ips ==> x.hnsID == if x in svc.IPs() then "" else old(x.hnsID)
      ensures forall other :: other in services && other != svc ==>
        other.hnsID == old(other.hnsID) && other.nodePorthnsID == old(other.nodePorthnsID)
      ensures forall other :: other in services && other != svc ==> other.policyApplied == old(other.policyApplied)
    {
      svc.CleanupAllPolicies(eps, endpoints, counters);
      assert unchanged(ips - svc.IPSet()) && unchanged(services - {svc});
      forall x | x in ips ensures x.hnsID == if x in svc.IPs() then "" else old(x.hnsID) {
        assert x in svc.IPSet() || x in ips - svc.IPSet();
      }
      assert forall other :: other in services && other != svc ==> other in services - {svc};
    }

    ghost function CleanedUpForAll(names: set<ServicePortName>): set<EndpointInfo>
      reads this
    {
      set name, e | name in names && e in CleanedUpFor(name) :: e
    }

    lemma OneMoreName(names: set<ServicePortName>, name: ServicePortName)
      ensures CleanedUpForAll(names + {name}) == CleanedUpForAll(names) + Elements(CleanedUpFor(name))
    {
    }

    /** What has been cleaned up since the counters were held as in `held`. */
    ghost predicate CleanedSoFar(held: map<EndpointInfo, Counter>, log: seq<string>, order: seq<EndpointInfo>)
      reads this, endpoints, hns
    {
      Held(endpoints) == held - Elements(order) && hns.deletedEndpoints == log + DeletedIDs(held, order)
    }

    lemma OneMoreService(start: Snapshot, now: Snapshot, names: set<ServicePortName>, name: ServicePortName)
      requires Forgot(start, now, ServicesOf(names)) && (name in serviceMap ==> Covers(now, serviceMap[name]))
      ensures var after := if name in serviceMap then AfterForgetting(now, serviceMap[name]) else now;
        Forgot(start, after, ServicesOf(names + {name}))
    {
      if name in serviceMap {
        ForgetOneMore(start, now, ServicesOf(names), serviceMap[name]);
        assert ServicesOf(names + {name}) == ServicesOf(names) + {serviceMap[name]};
      } else {
        assert ServicesOf(names + {name}) == ServicesOf(names);
      }
    }

    /** One iteration of either loop. */
    method ChangeOne(name: ServicePortName, ghost names: set<ServicePortName>, ghost start: Snapshot,
                     ghost held: map<EndpointInfo, Counter>, ghost log: seq<string>, ghost order: seq<EndpointInfo>)
      requires Valid() && CleanedSoFar(held, log, order) && Forgot(start, Now(), ServicesOf(names))
      modifies services, ips, hns, endpoints, counters
      ensures Valid() && CleanedSoFar(held, log, order + CleanedUpFor(name))
      ensures Forgot(start, Now(), ServicesOf(names + {name}))
    {
      CleanedInSteps(held, order, CleanedUpFor(name));
      if name in serviceMap {
        assert Covers(Now(), serviceMap[name]);
      }
      OneMoreService(start, Now(), names, name);
      OnEndpointsMapChange(name);
    }

    /** The loop over the keys of one map, in any order, after the names in `before`. */
    method ChangeAll(names: set<ServicePortName>, ghost before: set<ServicePortName>, ghost start: Snapshot,
                     ghost held: map<EndpointInfo, Counter>, ghost log: seq<string>, ghost earlier: seq<EndpointInfo>)
      returns (ghost order: seq<EndpointInfo>)
      requires Valid() && CleanedSoFar(held, log, earlier) && Forgot(start, Now(), ServicesOf(before))
      requires Elements(earlier) == CleanedUpForAll(before)
      modifies services, ips, hns, endpoints, counters
      ensures Valid() && CleanedSoFar(held, log, order) && Forgot(start, Now(), ServicesOf(before + names))
      ensures Elements(order) == CleanedUpForAll(before + names)
    {
      order := earlier;
      ghost var done := before;
      var todo := names;
      while todo != {}
        invariant done + todo == before + names && Valid() && CleanedSoFar(held, log, order)
        invariant Elements(order) == CleanedUpForAll(done) && Forgot(start, Now(), ServicesOf(done))
      {
        var name :| name in todo;
        ElementsOfSum(order, CleanedUpFor(name));
        OneMoreName(done, name);
        ChangeOne(name, done, start, held, log, order);
        order := order + CleanedUpFor(name);
        todo, done := todo - {name}, done + {name};
      }
      assert done == before + names;
    }

    /** Both loops clean up through the current map, so a name in both is handled twice. Every
        service under one of the names forgets its load balancers and policy; these load
        balancers are deleted and no others are. */
    method EndpointsMapChange(oldEndpointsMap: map<ServicePortName, seq<EndpointInfo>>,
                              newEndpointsMap: map<ServicePortName, seq<EndpointInfo>>)
      returns (ghost order: seq<EndpointInfo>)
      requires Valid()
      modifies services, ips, hns, endpoints, counters
      ensures Valid() && Cleaned(endpoints, hns, order)
      ensures forall e :: e in order <==>
        exists name :: (name in oldEndpointsMap || name in newEndpointsMap) && IsUnder(name, e)
      ensures forall e :: e in order ==> !e.Holds()
      ensures forall name :: (name in oldEndpointsMap || name in newEndpointsMap) && name in serviceMap ==>
        !serviceMap[name].policyApplied && serviceMap[name].NoLoadBalancers()
      ensures Forgot(old(Now()), Now(), ServicesOf(oldEndpointsMap.Keys + newEndpointsMap.Keys))
      ensures AllDeleted(old(Now()), Now(), ServicesOf(oldEndpointsMap.Keys + newEndpointsMap.Keys))
    {
      ghost var start := Now();
      ghost var held: map<EndpointInfo, Counter>, names := Held(endpoints), oldEndpointsMap.Keys + newEndpointsMap.Keys;
      order := ChangeBoth(oldEndpointsMap.Keys, newEndpointsMap.Keys);
      ForgottenAreDeleted(start, Now(), ServicesOf(names));
      CleanedUpMeaning(names, order);
      NoneHeld(endpoints, held, order);
      ClearedMeaning(names);
    }

    lemma UnderIsCleanedUp(name: ServicePortName)
      requires Linked()
      ensures forall e :: IsUnder(name, e) <==> e in CleanedUpFor(name)
      ensures forall e :: e in CleanedUpFor(name) ==> e in endpoints
    {
    }

    lemma CleanedUpMeaning(names: set<ServicePortName>, order: seq<EndpointInfo>)
      requires Valid() && Elements(order) == CleanedUpForAll(names)
      ensures forall e :: e in order <==> exists name :: name in names && IsUnder(name, e)
      ensures forall e :: e in order ==> e in endpoints
    {
      forall e ensures e in order <==> exists name :: name in names && IsUnder(name, e) {
        assert e in order <==> e in CleanedUpForAll(names);
        if name :| name in names && IsUnder(name, e) {
          UnderIsCleanedUp(name);
        }
        if name :| name in names && e in CleanedUpFor(name) {
          UnderIsCleanedUp(name);
        }
      }
    }

    lemma ClearedMeaning(names: set<ServicePortName>)
      requires Valid() && Cleared(Now(), ServicesOf(names))
      ensures forall name :: name in names && name in serviceMap ==>
        !serviceMap[name].policyApplied && serviceMap[name].NoLoadBalancers()
    {
      forall name | name in names && name in serviceMap
        ensures !serviceMap[name].policyApplied && serviceMap[name].NoLoadBalancers()
      {
        var svc := serviceMap[name];
        assert svc in ServicesOf(names) && KnownTo(Now(), svc) == {""};
        forall x | x in svc.IPs() ensures x.hnsID == "" {
          assert Now().ips[x] in KnownTo(Now(), svc);
        }
        assert forall x :: x in svc.externalIPs || x in svc.loadBalancerIngressIPs ==> x in svc.IPs();
      }
    }

    /** The loops one after the other. */
    method ChangeBoth(oldNames: set<ServicePortName>, newNames: set<ServicePortName>)
      returns (ghost order: seq<EndpointInfo>)
      requires Valid()
      modifies services, ips, hns, endpoints, counters
      ensures Valid() && Cleaned(endpoints, hns, order)
      ensures Elements(order) == CleanedUpForAll(oldNames + newNames)
      ensures Forgot(old(Now()), Now(), ServicesOf(oldNames + newNames))
    {
      ghost var held: map<EndpointInfo, Counter>, log, start := Held(endpoints), hns.deletedEndpoints, Now();
      NothingCleaned(held, log);
      ghost var first := ChangeAll(oldNames, {}, start, held, log, []);
      assert {} + oldNames == oldNames;
      order := ChangeAll(newNames, oldNames, start, held, log, first);
    }

    lemma NothingCleaned(held: map<EndpointInfo, Counter>, log: seq<string>)
      ensures held - Elements([]) == held && log + DeletedIDs(held, []) == log && CleanedUpForAll({}) == {}
    {
    }
  }
}
