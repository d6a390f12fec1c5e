/** Every sequence of calls the backend may be given makes a run: of the object, and of values. */
module UserspaceDriver {
  import opened Basics
  import opened LocalNet
  import opened Balancer
  import opened Portals
  import opened UserspaceSink
  import opened UserspaceRuns

  /** The records after some calls, whichever portals fail to open. */
  function RecordsAfter(calls: seq<SinkCall>): Records {
    if calls == [] then map[] else NextRecords(RecordsAfter(calls[..|calls| - 1]), calls[|calls| - 1])
  }

  function NextRecords(records: Records, call: SinkCall): Records {
    match call
    case SetService(service, _) => WithService(records, service)
    case DeleteService(name) => records - {name}
    case SetEndpoint(name, endpoint) =>
      if name in records then WithEndpoint(records, records[name].service, endpoint) else records
    case _ => records
  }

  ghost predicate CallableInTurn(calls: seq<SinkCall>) {
    forall i :: 0 <= i < |calls| ==> Callable(RecordsAfter(calls[..i]), calls[i])
  }

  /** The same call, up to whether its portals open. */
  predicate SameCall(a: SinkCall, b: SinkCall) {
    if a.SetService? && b.SetService? then a.service == b.service else a == b
  }

  lemma StepRecords(st: SinkState, call: SinkCall, st': SinkState, request: SinkCall)
    requires Taken(st, call, st') && SameCall(request, call)
    ensures st'.records == NextRecords(st.records, request) && Recorded(st'.records)
  {
  }

  /** The calls answer the first requests, which leave these records. */
  ghost predicate Answer(calls: seq<SinkCall>, requests: seq<SinkCall>, records: Records) {
    && |calls| <= |requests| && (forall i :: 0 <= i < |calls| ==> SameCall(requests[i], calls[i]))
    && Recorded(records) && records == RecordsAfter(requests[..|calls|])
  }

  lemma AnswerOneMore(calls: seq<SinkCall>, requests: seq<SinkCall>, records: Records, call: SinkCall,
                      records': Records)
    requires Answer(calls, requests, records) && |calls| < |requests| && SameCall(requests[|calls|], call)
    requires records' == NextRecords(records, requests[|calls|]) && Recorded(records')
    ensures Answer(calls + [call], requests, records')
  {
    var i := |calls|;
    assert requests[..i + 1][..i] == requests[..i];
    assert RecordsAfter(requests[..i + 1]) == NextRecords(RecordsAfter(requests[..i]), requests[i]);
    assert forall j :: 0 <= j < i ==> (calls + [call])[j] == calls[j];
  }

  lemma RunOneMore(states: seq<SinkState>, calls: seq<SinkCall>, call: SinkCall, st': SinkState)
    requires IsRun(states, calls) && Taken(states[|calls|], call, st')
    ensures IsRun(states + [st'], calls + [call])
  {
    var states', calls' := states + [st'], calls + [call];
    forall i | 0 <= i < |calls'| ensures Taken(states'[i], calls'[i], states'[i + 1]) {
      if i < |calls| {
        assert Taken(states[i], calls[i], states[i + 1]);
      }
    }
  }

  /** Whether every portal asked for in the call could be opened. */
  predicate AllOpened(call: SinkCall) {
    call.SetService? ==> call.succeeded
  }

  /** What a call adds to the log of portals that failed to open: something unless all opened. */
  ghost predicate Logged(before: seq<PortalName>, call: SinkCall, after: seq<PortalName>) {
    before <= after && (after == before <==> AllOpened(call))
  }

  /** The log of failed portals before, between and after some calls. */
  ghost predicate AllLogged(logs: seq<seq<PortalName>>, calls: seq<SinkCall>) {
    |logs| == |calls| + 1 && forall i :: 0 <= i < |calls| ==> Logged(logs[i], calls[i], logs[i + 1])
  }

  lemma LogOneMore(logs: seq<seq<PortalName>>, calls: seq<SinkCall>, call: SinkCall, log: seq<PortalName>)
    requires AllLogged(logs, calls) && Logged(logs[|calls|], call, log)
    ensures AllLogged(logs + [log], calls + [call])
  {
    var logs', calls' := logs + [log], calls + [call];
    forall i | 0 <= i < |calls'| ensures Logged(logs'[i], calls'[i], logs'[i + 1]) {
      if i < |calls| {
        assert Logged(logs[i], calls[i], logs[i + 1]);
      }
    }
  }

  /** The log has not grown exactly when every portal of every call could be opened. */
  lemma {:induction false} LogTellsFailures(logs: seq<seq<PortalName>>, calls: seq<SinkCall>)
    requires AllLogged(logs, calls)
    ensures logs[0] <= logs[|calls|]
    ensures logs[0] == logs[|calls|] <==> forall i :: 0 <= i < |calls| ==> AllOpened(calls[i])
  {
    if calls != [] {
      var n := |calls| - 1;
      assert Logged(logs[n], calls[n], logs[n + 1]);
      assert forall i :: 0 <= i < n ==> calls[..n][i] == calls[i] && logs[..n + 1][i] == logs[i];
      LogTellsFailures(logs[..n + 1], calls[..n]);
      assert (forall i :: 0 <= i < |calls| ==> AllOpened(calls[i])) <==>
        (forall i :: 0 <= i < n ==> AllOpened(calls[..n][i])) && AllOpened(calls[n]);
    }
  }

  // ----- the object -----

  /** One call on the backend, or on the balancer for a proxied connection. */
  method Perform(backend: Backend, request: SinkCall) returns (ghost call: SinkCall)
    requires backend.Valid() && Callable(backend.State().records, request)
    modifies backend, backend.Repr, backend.proxier, backend.proxier.Repr
    modifies backend.proxier.loadBalancer, backend.proxier.loadBalancer.Repr
    ensures forall s :: s in backend.Repr ==> s in old(backend.Repr) || fresh(s)
    ensures forall s :: s in backend.proxier.Repr ==> s in old(backend.proxier.Repr) || fresh(s)
    ensures forall s :: s in backend.proxier.loadBalancer.Repr ==>
      s in old(backend.proxier.loadBalancer.Repr) || fresh(s)
    ensures backend.Valid() && SameCall(request, call)
    ensures Taken(old(backend.State()), call, backend.State())
    ensures Logged(old(backend.proxier.failed), call, backend.proxier.failed)
  {
    call := request;
    match request {
      case SetService(service, _) =>
        ghost var succeeded := backend.SetService(service);
        call := SetService(service, succeeded);
      case DeleteService(name) => backend.DeleteService(name);
      case SetEndpoint(name, endpoint) => backend.SetEndpoint(name, endpoint);
      case DeleteEndpoint(name) => backend.DeleteEndpoint(name);
      case Serve(port) => Serve(backend, port);
    }
  }

  method Serve(backend: Backend, port: ServicePortName)
    requires backend.Valid()
    modifies backend.proxier.loadBalancer.Repr
    ensures backend.Valid() && Taken(old(backend.State()), SinkCall.Serve(port), backend.State())
    ensures backend.proxier.failed == old(backend.proxier.failed)
  {
    var _ := backend.proxier.loadBalancer.NextEndpoint(port);
    assert unchanged(backend) && unchanged(backend.Repr);
    assert unchanged(backend.proxier) && unchanged(backend.proxier.Repr);
  }

  /** A new backend follows a run through any sequence of calls, in which a SetService counts as
      failed exactly when it adds to the log of portals that failed to open. */
  method Drive(backend: Backend, requests: seq<SinkCall>)
    returns (ghost states: seq<SinkState>, ghost calls: seq<SinkCall>, ghost logs: seq<seq<PortalName>>)
    requires backend.Valid() && backend.State() == INITIAL && CallableInTurn(requests)
    modifies backend, backend.Repr, backend.proxier, backend.proxier.Repr
    modifies backend.proxier.loadBalancer, backend.proxier.loadBalancer.Repr
    ensures backend.Valid() && IsRun(states, calls) && backend.State() == states[|calls|]
    ensures Invariant(backend.State())
    ensures |calls| == |requests| && forall i :: 0 <= i < |calls| ==> SameCall(requests[i], calls[i])
    ensures AllLogged(logs, calls) && logs[0] == old(backend.proxier.failed)
    ensures logs[|calls|] == backend.proxier.failed
  {
    states, calls, logs := [INITIAL], [], [backend.proxier.failed];
    for i := 0 to |requests|
      invariant forall s :: s in backend.Repr ==> s in old(backend.Repr) || fresh(s)
      invariant forall s :: s in backend.proxier.Repr ==> s in old(backend.proxier.Repr) || fresh(s)
      invariant forall s :: s in backend.proxier.loadBalancer.Repr ==>
        s in old(backend.proxier.loadBalancer.Repr) || fresh(s)
      invariant |calls| == i && IsRun(states, calls) && Answer(calls, requests, states[i].records)
      invariant backend.Valid() && backend.State() == states[i]
      invariant AllLogged(logs, calls) && logs[0] == old(backend.proxier.failed) && logs[i] == backend.proxier.failed
    {
      ghost var call := Perform(backend, requests[i]);
      RunOneMore(states, calls, call, backend.State());
      StepRecords(states[i], call, backend.State(), requests[i]);
      AnswerOneMore(calls, requests, states[i].records, call, backend.State().records);
      LogOneMore(logs, calls, call, backend.proxier.failed);
      logs := logs + [backend.proxier.failed];
      states, calls := states + [backend.State()], calls + [call];
    }
    InvariantInEveryRun(states, calls, |calls|);
  }

  // ----- the values -----

  lemma {:induction false} TableIsOnOffer(service: Service, n: nat)
    requires HasClusterIP(service) && n <= |service.ports|
    ensures forall k :: k in PortalsOfFirst(service, n) ==>
      (k, PortalsOfFirst(service, n)[k]) in OffersOfFirst(service, n)
  {
    if n > 0 {
      TableIsOnOffer(service, n - 1);
      SumIsOnOffer(PortalsOfFirst(service, n - 1), OffersOfFirst(service, n - 1),
                   TableOfPort(service, service.ports[n - 1]));
    }
  }

  lemma SumIsOnOffer(table: Portals, offers: Offers, more: Portals)
    requires forall k :: k in table ==> (k, table[k]) in offers
    ensures forall k :: k in table + more ==> (k, (table + more)[k]) in offers + more.Items
  {
  }

  /** All portals open. */
  lemma SomePortals(records: Records, before: Portals, service: Service) returns (after: Portals)
    requires Recorded(records) && HasClusterIP(service)
    ensures PortalsAfterSet(records, before, service, true, after) && MergedFully(service, before, true, after)
  {
    var table := PortalTable(service);
    var merged := map k | k in before.Keys + table.Keys ::
      if k in table && !OnPort(Get(before, k), table[k].port) then table[k] else before[k];
    TableIsOnOffer(service, |service.ports|);
    assert Merged(before, table, OffersOf(service), true, merged) && SameConfigKept(before, table, merged);
    if NameOf(service) in records {
      var oldTable := PortalTable(records[NameOf(service)].service);
      after := merged - (oldTable.Keys - table.Keys);
      UnmergedElsewhere(merged, oldTable, table, after);
    } else {
      after := merged;
    }
  }

  /** The entry a handler leaves when it shuffles nothing. */
  function Unshuffled(handler: Handler, before: Option<Entry>, endpoints: seq<string>): Entry {
    if handler == OnUpdate && before.Some? && multiset(before.value.endpoints) == multiset(endpoints) then before.value
    else Entry(endpoints, 0)
  }

  lemma SomeAddition(before: Table, service: NamespacedName, m: map<string, seq<string>>) returns (after: Table)
    ensures PortsChanged(OnAdd, before, service, m, m.Keys, after)
  {
    var updated := NamesIn(service, m.Keys);
    after := map k | k in before.Keys + updated ::
      if k in updated then Unshuffled(OnAdd, Get(before, k), m[k.port]) else before[k];
  }

  lemma SomeUpdate(before: Table, service: NamespacedName, oldMap: map<string, seq<string>>,
                   newMap: map<string, seq<string>>)
    returns (after: Table)
    ensures EndpointsUpdated(before, service, oldMap, newMap, after)
  {
    var updated, stale := NamesIn(service, newMap.Keys), NamesIn(service, oldMap.Keys);
    after := map k | k in before.Keys + updated ::
      if k in updated then Unshuffled(OnUpdate, Get(before, k), newMap[k.port])
      else if k in stale then EMPTY
      else before[k];
  }

  /** No list is shuffled. */
  lemma SomeTable(before: Table, record: Record, endpoint: Endpoint) returns (after: Table)
    ensures BalancerSet(before, record, endpoint, after)
  {
    var m := PortMap(endpoint, record.service);
    match record.endpoint
    case None => after := SomeAddition(before, NameOf(record.service), m);
    case Some(first) => after := SomeUpdate(before, NameOf(record.service), PortMap(first, record.service), m);
  }

  lemma SomeStep(st: SinkState, call: SinkCall) returns (st': SinkState)
    requires Recorded(st.records) && Callable(st.records, call) && AllOpened(call)
    ensures Taken(st, call, st')
  {
    match call
    case SetService(service, _) =>
      var portals := SomePortals(st.records, st.portals, service);
      st' := SinkState(WithService(st.records, service), portals, EntriesAfterSet(st.records, st.balancer, service));
    case DeleteService(name) =>
      if name in st.records {
        var service := st.records[name].service;
        st' := SinkState(st.records - {name}, st.portals - PortalTable(service).Keys,
                         st.balancer - NamesIn(name, PortNames(service)));
      } else {
        st' := st;
      }
    case SetEndpoint(name, endpoint) =>
      var record := st.records[name];
      var balancer := SomeTable(st.balancer, record, endpoint);
      st' := SinkState(WithEndpoint(st.records, record.service, endpoint), st.portals, balancer);
    case DeleteEndpoint(name) =>
      if name in st.records {
        var record := st.records[name];
        st' := st.(balancer := ResetPorts(st.balancer, name, PortMap(record.endpoint.value, record.service).Keys));
      } else {
        st' := st;
      }
    case Serve(port) => st' := st.(balancer := Advance(st.balancer, port));
  }

  /** The call as it goes when all its portals open. */
  function AllOpen(call: SinkCall): SinkCall {
    if call.SetService? then call.(succeeded := true) else call
  }

  /** No sequence of callable calls gets stuck: the theorems about runs are about something. */
  lemma SomeRun(requests: seq<SinkCall>) returns (states: seq<SinkState>, calls: seq<SinkCall>)
    requires CallableInTurn(requests)
    ensures IsRun(states, calls)
    ensures |calls| == |requests| && forall i :: 0 <= i < |calls| ==> calls[i] == AllOpen(requests[i])
  {
    states, calls := [INITIAL], [];
    for i := 0 to |requests|
      invariant |calls| == i && IsRun(states, calls) && Answer(calls, requests, states[i].records)
      invariant forall j :: 0 <= j < i ==> calls[j] == AllOpen(requests[j])
    {
      var call := AllOpen(requests[i]);
      var st' := SomeStep(states[i], call);
      RunOneMore(states, calls, call, st');
      StepRecords(states[i], call, st', requests[i]);
      AnswerOneMore(calls, requests, states[i].records, call, st'.records);
      states, calls := states + [st'], calls + [call];
    }
  }
}
