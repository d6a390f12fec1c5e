/** Round-robin over whole runs of the load balancer, whatever other calls are interleaved. */
module BalancerRuns {
  import opened Basics
  import opened LocalNet
  import opened Balancer

  datatype Call =
    | NextEndpoint(name: ServicePortName)
    | NewService(name: ServicePortName)
    | DeleteService(name: ServicePortName)
    | EndpointsAdd(endpoint: Endpoint, service: Service)
    | EndpointsUpdate(before: Endpoint, endpoint: Endpoint, service: Service)
    | EndpointsDelete(endpoint: Endpoint, service: Service)

  /** What each call may do to the table: the contracts of LoadBalancerRR. */
  ghost predicate Step(t: Table, call: Call, t': Table) {
    match call
    case NextEndpoint(name) => t' == Advance(t, name)
    case NewService(name) => t' == t[name := if name in t then t[name] else EMPTY]
    case DeleteService(name) => t' == t - {name}
    case EndpointsAdd(e, service) =>
      var m := PortMap(e, service);
      PortsChanged(OnAdd, t, NameOf(service), m, m.Keys, t')
    case EndpointsUpdate(e0, e, service) =>
      EndpointsUpdated(t, NameOf(service), PortMap(e0, service), PortMap(e, service), t')
    case EndpointsDelete(e, service) => t' == ResetPorts(t, NameOf(service), PortMap(e, service).Keys)
  }

  ghost predicate IsRun(tables: seq<Table>, calls: seq<Call>) {
    && |tables| == |calls| + 1
    && forall i :: 0 <= i < |calls| ==> Step(tables[i], calls[i], tables[i + 1])
  }

  /** The load balancer follows a run through any sequence of calls. */
  method Drive(lb: LoadBalancerRR, calls: seq<Call>) returns (ghost tables: seq<Table>)
    requires lb.Valid()
    modifies lb, lb.Repr
    ensures lb.Valid() && IsRun(tables, calls)
    ensures tables[0] == old(lb.View()) && tables[|calls|] == lb.View()
  {
    tables := [lb.View()];
    for i := 0 to |calls|
      invariant lb.Valid() && forall s :: s in lb.Repr ==> s in old(lb.Repr) || fresh(s)
      invariant IsRun(tables, calls[..i]) && tables[0] == old(lb.View()) && tables[i] == lb.View()
    {
      Perform(lb, calls[i]);
      RunOneMore(tables, calls[..i], calls[i], lb.View());
      assert calls[..i + 1] == calls[..i] + [calls[i]];
      tables := tables + [lb.View()];
    }
    assert calls[..|calls|] == calls;
  }

  method Perform(lb: LoadBalancerRR, call: Call)
    requires lb.Valid()
    modifies lb, lb.Repr
    ensures lb.Valid() && forall s :: s in lb.Repr ==> s in old(lb.Repr) || fresh(s)
    ensures Step(old(lb.View()), call, lb.View())
  {
    match call
    case NextEndpoint(name) => var _ := lb.NextEndpoint(name);
    case NewService(name) => lb.NewService(name);
    case DeleteService(name) => lb.DeleteService(name);
    case EndpointsAdd(endpoint, service) => lb.OnEndpointsAdd(endpoint, service);
    case EndpointsUpdate(before, endpoint, service) => lb.OnEndpointsUpdate(before, endpoint, service);
    case EndpointsDelete(endpoint, service) => lb.OnEndpointsDelete(endpoint, service);
  }

  lemma RunOneMore(tables: seq<Table>, calls: seq<Call>, call: Call, t': Table)
    requires IsRun(tables, calls) && Step(tables[|calls|], call, t')
    ensures IsRun(tables + [t'], calls + [call])
  {
    var tables', calls' := tables + [t'], calls + [call];
    forall i | 0 <= i < |calls'| ensures Step(tables'[i], calls'[i], tables'[i + 1]) {
      if i < |calls| {
        assert Step(tables[i], calls[i], tables[i + 1]);
      }
    }
  }

  ghost predicate AllValid(t: Table) {
    forall name :: name in t ==> t[name].Valid()
  }

  /** Every reachable table keeps each index 0 for an empty list and within bounds otherwise. */
  lemma {:induction false} ReachableTablesValid(tables: seq<Table>, calls: seq<Call>, i: nat)
    requires IsRun(tables, calls) && AllValid(tables[0]) && i <= |calls|
    ensures AllValid(tables[i])
  {
    if i > 0 {
      ReachableTablesValid(tables, calls, i - 1);
      StepKeepsValid(tables[i - 1], calls[i - 1], tables[i]);
    }
  }

  lemma StepKeepsValid(t: Table, call: Call, t': Table)
    requires Step(t, call, t') && AllValid(t)
    ensures AllValid(t')
  {
  }

  // ----- what the handlers do, on the fields of the objects -----

  /** The key is for a port name of this service. */
  predicate IsPortOf(service: Service, k: ServicePortName) {
    IsCalled(service, k.service) && exists q :: q in service.ports && q.name == k.port
  }

  /** The entry lists exactly the strings that an address of the object and a port print to. */
  ghost predicate ListsAddresses(entry: Entry, e: Endpoint, service: Service, k: ServicePortName) {
    forall s :: s in entry.endpoints <==> IsAddress(e.v4, service.ports, k.port, s)
  }

  lemma KeyMeaning(service: Service, e: Endpoint, k: ServicePortName)
    ensures k in NamesIn(NameOf(service), PortMap(e, service).Keys) <==> IsPortOf(service, k) && e.v4 != []
  {
    assert k == ServicePortName(k.service, k.port);
    if q :| q in service.ports && q.name == k.port {
      var j :| 0 <= j < |service.ports| && service.ports[j] == q;
      assert k.port in PortNames(service);
    }
  }

  lemma ShuffleMeaning(entry: Entry, e: Endpoint, service: Service, k: ServicePortName)
    requires multiset(entry.endpoints) == multiset(Addresses(e.v4, service.ports, k.port))
    ensures ListsAddresses(entry, e, service, k)
  {
    forall s ensures s in entry.endpoints <==> IsAddress(e.v4, service.ports, k.port, s) {
      AddressesMeaning(e.v4, service.ports, k.port, s);
      assert s in entry.endpoints <==> s in multiset(entry.endpoints);
      assert s in Addresses(e.v4, service.ports, k.port) <==> s in multiset(Addresses(e.v4, service.ports, k.port));
    }
  }

  /** Adding an endpoint object gives the port names of its service its addresses, from position 0. */
  lemma AddOnFields(t: Table, e: Endpoint, service: Service, t': Table, k: ServicePortName)
    requires Step(t, EndpointsAdd(e, service), t')
    ensures IsPortOf(service, k) && e.v4 != [] ==>
      k in t' && t'[k].index == 0 && ListsAddresses(t'[k], e, service, k)
    ensures !(IsPortOf(service, k) && e.v4 != []) ==> Get(t', k) == Get(t, k)
  {
    KeyMeaning(service, e, k);
    if IsPortOf(service, k) && e.v4 != [] {
      ShuffleMeaning(t'[k], e, service, k);
    }
  }

  /** Updating does so unless the list stays as it was; without a new address it clears the names the
      old object had addresses for. */
  lemma UpdateOnFields(t: Table, old0: Endpoint, e: Endpoint, service: Service, t': Table, k: ServicePortName)
    requires Step(t, EndpointsUpdate(old0, e, service), t')
    ensures IsPortOf(service, k) && e.v4 != [] ==>
      && k in t' && ListsAddresses(t'[k], e, service, k) && (t'[k].index == 0 || Get(t, k) == Some(t'[k]))
    ensures IsPortOf(service, k) && e.v4 == [] && old0.v4 != [] ==>
      Get(t', k) == if k in t then Some(Entry([], 0)) else None
    ensures !IsPortOf(service, k) || (e.v4 == [] && old0.v4 == []) ==> Get(t', k) == Get(t, k)
  {
    KeyMeaning(service, e, k);
    KeyMeaning(service, old0, k);
    if IsPortOf(service, k) && e.v4 != [] {
      ShuffleMeaning(t'[k], e, service, k);
    }
  }

  /** Deleting clears the names the object had addresses for. */
  lemma DeleteOnFields(t: Table, e: Endpoint, service: Service, t': Table, k: ServicePortName)
    requires Step(t, EndpointsDelete(e, service), t')
    ensures Get(t', k) ==
      if k in t && IsPortOf(service, k) && e.v4 != [] then Some(Entry([], 0)) else Get(t, k)
  {
    KeyMeaning(service, e, k);
  }

  // ----- which calls leave a port's list alone -----

  /** The call keeps the endpoint list of `name`: it concerns another port, or repeats the
      multiset of endpoints the port already has. */
  ghost predicate Keeps(t: Table, call: Call, name: ServicePortName) {
    match call
    case NextEndpoint(_) => true
    case NewService(_) => true
    case DeleteService(n) => n != name
    case EndpointsAdd(e, service) => NameOf(service) != name.service || name.port !in PortMap(e, service)
    case EndpointsDelete(e, service) => NameOf(service) != name.service || name.port !in PortMap(e, service)
    case EndpointsUpdate(e0, e, service) =>
      || NameOf(service) != name.service
      || (if name.port in PortMap(e, service)
          then name in t && multiset(PortMap(e, service)[name.port]) == multiset(t[name].endpoints)
          else name.port !in PortMap(e0, service))
  }

  lemma KeptEntry(t: Table, call: Call, t': Table, name: ServicePortName)
    requires Step(t, call, t') && Keeps(t, call, name) && name in t
    ensures name in t' && t'[name] == if call == NextEndpoint(name) then Advance(t, name)[name] else t[name]
  {
  }

  // ----- fairness -----

  /** The positions NextEndpoint returned for `name`, in order. */
  function Served(tables: seq<Table>, calls: seq<Call>, name: ServicePortName): seq<nat>
    requires |tables| == |calls| + 1
  {
    if calls == [] then []
    else
      var m := |calls| - 1;
      Served(tables[..m + 1], calls[..m], name) +
      if calls[m] == NextEndpoint(name) && name in tables[m] then [tables[m][name].index] else []
  }

  function Count(positions: seq<nat>, k: nat): nat {
    if positions == [] then 0
    else Count(positions[..|positions| - 1], k) + if positions[|positions| - 1] == k then 1 else 0
  }

  /** The position `steps` calls after `start`, in a list of n. */
  function Rotation(start: nat, n: nat, steps: nat): (r: nat)
    requires start < n
    ensures r < n
  {
    var r := steps % n;
    if start + r < n then start + r else start + r - n
  }

  /** How often the first m positions of a rotation hit k. */
  function Hits(start: nat, n: nat, m: nat, k: nat): nat
    requires start < n && k < n
  {
    var offset := if k >= start then k - start else k + n - start;
    m / n + if offset < m % n then 1 else 0
  }

  lemma MultiplesApart(a: nat, b: nat, n: nat)
    requires a < b
    ensures a * n + n <= b * n
  {
    var d := b - a - 1;
    assert d * n >= 0;
    assert b * n == (a + 1 + d) * n == a * n + n + d * n;
  }

  lemma DivModUnique(m: nat, n: nat, q: nat, r: nat)
    requires r < n && m == q * n + r
    ensures m / n == q && m % n == r
  {
    var q', r' := m / n, m % n;
    assert m == q' * n + r' && 0 <= r' < n;
    if q' > q {
      MultiplesApart(q, q', n);
    } else if q' < q {
      MultiplesApart(q', q, n);
    }
  }

  lemma NextDivMod(m: nat, n: nat)
    requires n > 0
    ensures if m % n + 1 < n then (m + 1) / n == m / n && (m + 1) % n == m % n + 1
            else (m + 1) / n == m / n + 1 && (m + 1) % n == 0
  {
    var q, r := m / n, m % n;
    assert m == q * n + r;
    if r + 1 < n {
      DivModUnique(m + 1, n, q, r + 1);
    } else {
      assert (q + 1) * n == q * n + n;
      DivModUnique(m + 1, n, q + 1, 0);
    }
  }

  lemma RotationAdvances(start: nat, n: nat, m: nat)
    requires start < n
    ensures Rotation(start, n, 0) == start
    ensures Rotation(start, n, m + 1) == (Rotation(start, n, m) + 1) % n
  {
    NextDivMod(m, n);
    DivModUnique(0, n, 0, 0);
    var r := Rotation(start, n, m);
    if r + 1 < n {
      DivModUnique(r + 1, n, 0, r + 1);
    } else {
      DivModUnique(n, n, 1, 0);
    }
  }

  ghost predicate Rotates(positions: seq<nat>, start: nat, n: nat)
    requires start < n
  {
    forall t :: 0 <= t < |positions| ==> positions[t] == Rotation(start, n, t)
  }

  lemma RotatesOneMore(positions: seq<nat>, start: nat, n: nat)
    requires start < n && Rotates(positions, start, n)
    ensures Rotates(positions + [Rotation(start, n, |positions|)], start, n)
  {
  }

  /** The run serves a rotation of the list, and leaves the list and position accordingly. */
  lemma {:induction false} ServedIsRotation(tables: seq<Table>, calls: seq<Call>, name: ServicePortName)
    requires IsRun(tables, calls) && name in tables[0]
    requires tables[0][name].Valid() && tables[0][name].endpoints != []
    requires forall i :: 0 <= i < |calls| ==> Keeps(tables[i], calls[i], name)
    ensures var e, served := tables[0][name], Served(tables, calls, name);
      && name in tables[|calls|]
      && tables[|calls|][name] == Entry(e.endpoints, Rotation(e.index, |e.endpoints|, |served|))
      && Rotates(served, e.index, |e.endpoints|)
  {
    var e := tables[0][name];
    if calls == [] {
      RotationAdvances(e.index, |e.endpoints|, 0);
    } else {
      var m := |calls| - 1;
      ServedIsRotation(tables[..m + 1], calls[..m], name);
      ServedOneMore(e, Served(tables[..m + 1], calls[..m], name), tables[m], calls[m], tables[m + 1], name);
    }
  }

  lemma ServedOneMore(e: Entry, served: seq<nat>, t: Table, call: Call, t': Table, name: ServicePortName)
    requires Step(t, call, t') && Keeps(t, call, name) && name in t
    requires e.Valid() && e.endpoints != [] && Rotates(served, e.index, |e.endpoints|)
    requires t[name] == Entry(e.endpoints, Rotation(e.index, |e.endpoints|, |served|))
    ensures var served' := served + if call == NextEndpoint(name) then [t[name].index] else [];
      && Rotates(served', e.index, |e.endpoints|)
      && name in t' && t'[name] == Entry(e.endpoints, Rotation(e.index, |e.endpoints|, |served'|))
  {
    KeptEntry(t, call, t', name);
    RotationAdvances(e.index, |e.endpoints|, |served|);
    RotatesOneMore(served, e.index, |e.endpoints|);
  }

  lemma {:induction false} CountOfRotation(positions: seq<nat>, start: nat, n: nat, k: nat)
    requires start < n && k < n && Rotates(positions, start, n)
    ensures Count(positions, k) == Hits(start, n, |positions|, k)
  {
    var m := |positions|;
    if m == 0 {
      DivModUnique(0, n, 0, 0);
    } else {
      CountOfRotation(positions[..m - 1], start, n, k);
      NextDivMod(m - 1, n);
    }
  }

  /** Fairness: over any run that keeps the list of a port, each of its n positions is served
      floor(m/n) or ceil(m/n) times in m calls - the extra one going to the first m mod n
      positions after the starting one. */
  lemma RoundRobinIsFair(tables: seq<Table>, calls: seq<Call>, name: ServicePortName, k: nat)
    requires IsRun(tables, calls) && name in tables[0]
    requires tables[0][name].Valid() && k < |tables[0][name].endpoints|
    requires forall i :: 0 <= i < |calls| ==> Keeps(tables[i], calls[i], name)
    ensures var n, served := |tables[0][name].endpoints|, Served(tables, calls, name);
      && Count(served, k) == Hits(tables[0][name].index, n, |served|, k)
      && |served| / n <= Count(served, k) <= (|served| + n - 1) / n
  {
    var n, served := |tables[0][name].endpoints|, Served(tables, calls, name);
    ServedIsRotation(tables, calls, name);
    CountOfRotation(served, tables[0][name].index, n, k);
    FairShare(tables[0][name].index, n, |served|, k);
  }

  lemma FairShare(start: nat, n: nat, m: nat, k: nat)
    requires start < n && k < n
    ensures m / n <= Hits(start, n, m, k) <= (m + n - 1) / n
  {
    Ceiling(m, n);
  }

  lemma Ceiling(m: nat, n: nat)
    requires n > 0
    ensures (m + n - 1) / n == m / n + if m % n > 0 then 1 else 0
  {
    var q, r := m / n, m % n;
    assert m == q * n + r;
    if r == 0 {
      DivModUnique(m + n - 1, n, q, n - 1);
    } else {
      assert (q + 1) * n == q * n + n;
      DivModUnique(m + n - 1, n, q + 1, r - 1);
    }
  }

  // ----- how many different positions m calls reach -----

  function Reached(start: nat, n: nat, m: nat): set<nat>
    requires start < n
  {
    set t | 0 <= t < m :: Rotation(start, n, t)
  }

  lemma ReachedOneMore(start: nat, n: nat, m: nat)
    requires start < n && m > 0
    ensures Reached(start, n, m) == Reached(start, n, m - 1) + {Rotation(start, n, m - 1)}
    ensures m <= n ==> Rotation(start, n, m - 1) !in Reached(start, n, m - 1)
  {
    if m <= n {
      forall t: nat | t < m - 1 ensures Rotation(start, n, t) != Rotation(start, n, m - 1) {
        DivModUnique(t, n, 0, t);
        DivModUnique(m - 1, n, 0, m - 1);
      }
    }
  }

  lemma {:induction false} ReachedIsMinimum(start: nat, n: nat, m: nat)
    requires start < n
    ensures |Reached(start, n, m)| == if m < n then m else n
    ensures m >= n ==> forall k: nat :: k < n ==> k in Reached(start, n, m)
  {
    if m == 0 {
      assert Reached(start, n, 0) == {};
    } else {
      ReachedIsMinimum(start, n, m - 1);
      ReachedOneMore(start, n, m);
      if m == n {
        AllBelow(Reached(start, n, m), n);
      } else if m > n {
        assert Reached(start, n, m) == Reached(start, n, m - 1);
      }
    }
  }

  lemma AllBelow(s: set<nat>, n: nat)
    requires |s| == n && forall k :: k in s ==> k < n
    ensures forall k: nat :: k < n ==> k in s
  {
    BelowIsBelow(n);
    if k: nat :| k < n && k !in s {
      assert s <= Below(n) - {k};
      Smaller(s, Below(n) - {k});
    }
  }

  function Below(n: nat): set<nat> {
    if n == 0 then {} else Below(n - 1) + {n - 1}
  }

  lemma {:induction false} BelowIsBelow(n: nat)
    ensures |Below(n)| == n && forall k: nat :: k in Below(n) <==> k < n
  {
    if n > 0 {
      BelowIsBelow(n - 1);
    }
  }

  lemma Smaller<T>(a: set<T>, b: set<T>)
    requires a <= b
    ensures |a| <= |b|
  {
    assert b == a + (b - a);
  }
}
