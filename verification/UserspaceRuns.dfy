/** Whole runs of the userspace sink, with proxied connections served in between. */
module UserspaceRuns {
  import opened Basics
  import opened LocalNet
  import opened Balancer
  import opened Portals
  import opened UserspaceSink
  import BalancerRuns

  const INITIAL := SinkState(map[], map[], map[])

  /** The call may be made in this state, and leads to the other one. */
  ghost predicate Taken(st: SinkState, call: SinkCall, st': SinkState) {
    Recorded(st.records) && Callable(st.records, call) && Step(st, call, st')
  }

  ghost predicate IsRun(states: seq<SinkState>, calls: seq<SinkCall>) {
    && |states| == |calls| + 1 && states[0] == INITIAL
    && forall i :: 0 <= i < |calls| ==> Taken(states[i], calls[i], states[i + 1])
  }

  // ----- the invariant -----

  /** Every portal is one that its service's latest version asks for. */
  ghost predicate PortalsAskedFor(st: SinkState)
    requires Recorded(st.records)
  {
    forall k :: k in st.portals ==> k.service in st.records && k in PortalTable(st.records[k.service].service)
  }

  /** The balancer's keys are exactly the (service, port name) pairs of the live services. */
  ghost predicate BalancerAgrees(st: SinkState) {
    forall k :: k in st.balancer <==> k.service in st.records && k.port in PortNames(st.records[k.service].service)
  }

  /** A service without an endpoint object has only empty lists. */
  ghost predicate NoEndpointNoLists(st: SinkState) {
    forall k :: k in st.balancer && k.service in st.records && st.records[k.service].endpoint.None? ==>
      st.balancer[k] == EMPTY
  }

  ghost predicate Invariant(st: SinkState) {
    && Recorded(st.records) && PortalsAskedFor(st) && BalancerAgrees(st)
    && NoEndpointNoLists(st) && BalancerRuns.AllValid(st.balancer)
  }

  lemma TableOfService(service: Service)
    requires HasClusterIP(service)
    ensures forall k :: k in PortalTable(service) ==> k.service == NameOf(service)
  {
    PortalsBelongToPorts(service, |service.ports|);
  }

  /** The portals of one service after an update, seen apart from all others. */
  lemma UpdatedPortals(name: NamespacedName, before: Portals, oldTable: Portals, newTable: Portals, offers: Offers,
                       succeeded: bool, after: Portals)
    requires Updated(before, oldTable, newTable, offers, succeeded, after)
    requires forall k :: k in oldTable || k in newTable ==> k.service == name
    requires forall k :: k in before && k.service == name ==> k in oldTable
    ensures forall k :: k in after && k.service == name ==> k in newTable
    ensures succeeded ==> forall k :: k in newTable ==> OnPort(Get(after, k), newTable[k].port)
    ensures forall k: PortalName :: k.service != name ==> Get(after, k) == Get(before, k)
    ensures forall k :: k in after ==> Get(before, k) == Some(after[k]) || (k, after[k]) in offers
  {
    var merged :|
      Merged(before, newTable, offers, succeeded, merged) && after == merged - (oldTable.Keys - newTable.Keys);
    forall k: PortalName
      ensures Get(after, k) == if k in oldTable && k !in newTable then None else Get(merged, k)
      ensures Get(merged, k) != Get(before, k) ==> k in newTable && k in merged && (k, merged[k]) in offers
      ensures succeeded && k in newTable ==> OnPort(Get(merged, k), newTable[k].port)
    {
    }
  }

  lemma AddedIsUpdated(before: Portals, table: Portals, offers: Offers, succeeded: bool, after: Portals)
    requires Merged(before, table, offers, succeeded, after)
    ensures Updated(before, map[], table, offers, succeeded, after)
  {
  }

  lemma PortalsAfterSetService(st: SinkState, service: Service, succeeded: bool, st': SinkState)
    requires Recorded(st.records) && PortalsAskedFor(st)
    requires HasClusterIP(service) && ServiceSet(st, service, succeeded, st')
    ensures forall k :: k in st'.portals && k.service == NameOf(service) ==> k in PortalTable(service)
    ensures succeeded ==> forall k :: k in PortalTable(service) ==>
      OnPort(Get(st'.portals, k), PortalTable(service)[k].port)
    ensures forall k: PortalName :: k.service != NameOf(service) ==> Get(st'.portals, k) == Get(st.portals, k)
    ensures forall k :: k in st'.portals ==>
      Get(st.portals, k) == Some(st'.portals[k]) || (k, st'.portals[k]) in OffersOf(service)
  {
    var name := NameOf(service);
    TableOfService(service);
    if name in st.records {
      var before := st.records[name].service;
      TableOfService(before);
      UpdatedPortals(name, st.portals, PortalTable(before), PortalTable(service), OffersOf(service), succeeded,
                     st'.portals);
    } else {
      AddedIsUpdated(st.portals, PortalTable(service), OffersOf(service), succeeded, st'.portals);
      UpdatedPortals(name, st.portals, map[], PortalTable(service), OffersOf(service), succeeded, st'.portals);
    }
  }

  lemma WithServiceRecords(records: Records, service: Service)
    requires Recorded(records) && HasClusterIP(service)
    ensures var records' := WithService(records, service);
      && Recorded(records') && records'.Keys == records.Keys + {NameOf(service)}
      && records'[NameOf(service)].service == service
      && forall name :: name in records && name != NameOf(service) ==> records'[name] == records[name]
  {
  }

  lemma SetServiceKeepsPortals(st: SinkState, service: Service, succeeded: bool, st': SinkState)
    requires Recorded(st.records) && PortalsAskedFor(st)
    requires HasClusterIP(service) && ServiceSet(st, service, succeeded, st')
    ensures Recorded(st'.records) && PortalsAskedFor(st')
  {
    WithServiceRecords(st.records, service);
    PortalsAfterSetService(st, service, succeeded, st');
    forall k | k in st'.portals ensures k.service in st'.records && k in PortalTable(st'.records[k.service].service) {
      if k.service != NameOf(service) {
        assert Get(st'.portals, k) == Get(st.portals, k);
        assert k in PortalTable(st.records[k.service].service);
      }
    }
  }

  /** A service update keeps the order and the position of every surviving port name, starts new
      names empty, deletes vanished ones and leaves other services alone. */
  lemma ServiceUpdateKeepsLists(st: SinkState, service: Service, k: ServicePortName)
    requires Recorded(st.records) && BalancerAgrees(st)
    ensures var after := EntriesAfterSet(st.records, st.balancer, service);
      if k.service != NameOf(service) then Get(after, k) == Get(st.balancer, k)
      else if k.port !in PortNames(service) then k !in after
      else Get(after, k) == Some(if k in st.balancer then st.balancer[k] else EMPTY)
  {
    assert k == ServicePortName(k.service, k.port);
    assert k in NamesIn(NameOf(service), PortNames(service)) <==>
      k.service == NameOf(service) && k.port in PortNames(service);
  }

  lemma SetServiceKeepsBalancer(st: SinkState, service: Service, st': SinkState)
    requires Recorded(st.records) && BalancerAgrees(st)
    requires st'.records == WithService(st.records, service)
    requires st'.balancer == EntriesAfterSet(st.records, st.balancer, service)
    ensures BalancerAgrees(st')
    ensures NoEndpointNoLists(st) ==> NoEndpointNoLists(st')
    ensures BalancerRuns.AllValid(st.balancer) ==> BalancerRuns.AllValid(st'.balancer)
  {
    forall k
      ensures k in st'.balancer <==> k.service in st'.records && k.port in PortNames(st'.records[k.service].service)
      ensures k in st'.balancer ==> st'.balancer[k] == if k in st.balancer then st.balancer[k] else EMPTY
    {
      ServiceUpdateKeepsLists(st, service, k);
    }
  }

  lemma DeleteServiceKeepsPortals(st: SinkState, name: NamespacedName, st': SinkState)
    requires Recorded(st.records) && PortalsAskedFor(st) && Step(st, DeleteService(name), st')
    ensures Recorded(st'.records) && PortalsAskedFor(st')
    ensures forall k: PortalName :: k.service != name ==> Get(st'.portals, k) == Get(st.portals, k)
    ensures forall k :: k in st'.portals ==> k.service != name
  {
    if name in st.records {
      TableOfService(st.records[name].service);
    }
    forall k | k in st'.portals ensures k.service != name {
      assert k.service in st.records && k in PortalTable(st.records[k.service].service);
    }
  }

  lemma DeleteServiceKeepsBalancer(st: SinkState, name: NamespacedName, st': SinkState)
    requires Recorded(st.records) && BalancerAgrees(st) && Step(st, DeleteService(name), st')
    ensures BalancerAgrees(st')
    ensures NoEndpointNoLists(st) ==> NoEndpointNoLists(st')
    ensures BalancerRuns.AllValid(st.balancer) ==> BalancerRuns.AllValid(st'.balancer)
  {
    forall k
      ensures k in st'.balancer <==> k.service in st'.records && k.port in PortNames(st'.records[k.service].service)
    {
      assert k == ServicePortName(k.service, k.port);
    }
  }

  lemma SetEndpointKeeps(st: SinkState, name: NamespacedName, endpoint: Endpoint, st': SinkState)
    requires Invariant(st) && name in st.records && EndpointSet(st, name, endpoint, st')
    ensures Invariant(st')
  {
    BalancerSetKeepsKeys(st, name, endpoint, st'.balancer);
    WithEndpointKeepsServices(st.records, name, endpoint);
    forall k | k in st'.balancer ensures st'.balancer[k].Valid() {
      BalancerStepKeepsValid(st.balancer, st.records[name], endpoint, st'.balancer, k);
    }
  }

  lemma WithEndpointKeepsServices(records: Records, name: NamespacedName, endpoint: Endpoint)
    requires Recorded(records) && name in records
    ensures var records' := WithEndpoint(records, records[name].service, endpoint);
      && records'.Keys == records.Keys && records'[name].endpoint.Some?
      && (forall n :: n in records ==> records'[n].service == records[n].service)
      && (forall n :: n in records && n != name ==> records'[n] == records[n])
  {
  }

  lemma BalancerSetKeepsKeys(st: SinkState, name: NamespacedName, endpoint: Endpoint, after: Table)
    requires Recorded(st.records) && BalancerAgrees(st) && name in st.records
      && BalancerSet(st.balancer, st.records[name], endpoint, after)
    ensures after.Keys == st.balancer.Keys
    ensures forall k :: k in after && k.service != name ==> after[k] == st.balancer[k]
  {
    var m := PortMap(endpoint, st.records[name].service);
    forall k | k in NamesIn(name, m.Keys) ensures k in st.balancer {
    }
    assert forall k :: k in NamesIn(name, m.Keys) ==> k.service == name;
  }

  lemma BalancerStepKeepsValid(before: Table, record: Record, endpoint: Endpoint, after: Table, k: ServicePortName)
    requires BalancerSet(before, record, endpoint, after) && BalancerRuns.AllValid(before) && k in after
    ensures after[k].Valid()
  {
  }

  lemma StepKeepsInvariant(st: SinkState, call: SinkCall, st': SinkState)
    requires Invariant(st) && Callable(st.records, call) && Step(st, call, st')
    ensures Invariant(st')
  {
    match call
    case SetService(service, succeeded) =>
      SetServiceKeepsPortals(st, service, succeeded, st');
      SetServiceKeepsBalancer(st, service, st');
    case DeleteService(name) =>
      DeleteServiceKeepsPortals(st, name, st');
      DeleteServiceKeepsBalancer(st, name, st');
    case SetEndpoint(name, endpoint) => SetEndpointKeeps(st, name, endpoint, st');
    case DeleteEndpoint(name) => ResetKeeps(st, name, st');
    case Serve(port) => BalancerRuns.StepKeepsValid(st.balancer, BalancerRuns.NextEndpoint(port), st'.balancer);
  }

  lemma ResetKeeps(st: SinkState, name: NamespacedName, st': SinkState)
    requires Invariant(st) && Callable(st.records, DeleteEndpoint(name)) && Step(st, DeleteEndpoint(name), st')
    ensures Invariant(st')
  {
  }

  lemma {:induction false} InvariantInEveryRun(states: seq<SinkState>, calls: seq<SinkCall>, i: nat)
    requires IsRun(states, calls) && i <= |calls|
    ensures Invariant(states[i])
  {
    if i > 0 {
      InvariantInEveryRun(states, calls, i - 1);
      StepKeepsInvariant(states[i - 1], calls[i - 1], states[i]);
    }
  }
}
