/** Winkernel endpoints and service policies: counters shared between remote endpoints, and
    what Cleanup tells the host network service to delete. */
module HnsEndpoints {
  import opened HostPort
  import opened Releases
  import Aggregation

  newtype uint16 = x: int | 0 <= x < 0x1_0000

  /** A reference count; those shared by several endpoints count holders of one HNS endpoint. */
  class Counter {
    var value: uint16
    /** The HNS endpoint whose holders a shared counter counts. */
    ghost const hnsID: string

    constructor (ghost hnsID: string)
      ensures value == 0 && this.hnsID == hnsID
    {
      value := 0;
      this.hnsID := hnsID;
    }
  }

  /** The host network service: only the log of what it was asked to delete. */
  class HostNetworkService {
    var deletedEndpoints: seq<string>
    var deletedLoadBalancers: seq<string>

    constructor ()
      ensures deletedEndpoints == [] && deletedLoadBalancers == []
    {
      deletedEndpoints, deletedLoadBalancers := [], [];
    }

    method DeleteEndpoint(hnsID: string) returns (ok: bool)
      modifies `deletedEndpoints
      ensures deletedEndpoints == old(deletedEndpoints) + [hnsID]
    {
      deletedEndpoints := deletedEndpoints + [hnsID];
      ok := *;
    }

    method DeleteLoadBalancer(hnsID: string)
      modifies `deletedLoadBalancers
      ensures deletedLoadBalancers == old(deletedLoadBalancers) + [hnsID]
    {
      deletedLoadBalancers := deletedLoadBalancers + [hnsID];
    }
  }

  /** Go's conversion of an int to uint16. */
  function Truncated(n: int): uint16 {
    (n % 0x1_0000) as uint16
  }

  class EndpointInfo {
    const port: uint16
    const isLocal: bool
    const ready: bool
    const serving: bool
    const terminating: bool
    const hns: HostNetworkService
    var hnsID: string
    var refCount: Counter?

    /** newEndpointInfo: a counter of its own, at 0, and no HNS endpoint yet. */
    constructor (base: Aggregation.Endpoint, hns: HostNetworkService)
      ensures port as int == (var p := PortPart(base.endpoint); if p.Port? then p.number % 0x1_0000 else 0)
      ensures isLocal == base.isLocal && ready == base.ready
      ensures serving == base.serving && terminating == base.terminating
      ensures this.hns == hns && hnsID == ""
      ensures refCount != null && fresh(refCount) && refCount.value == 0
    {
      var p := PortPart(base.endpoint);
      port := if p.Port? then Truncated(p.number) else 0;
      isLocal, ready, serving, terminating := base.isLocal, base.ready, base.serving, base.terminating;
      this.hns := hns;
      hnsID := "";
      refCount := new Counter("");
    }

    /** Whether the endpoint is counted by the counter it points to. */
    predicate Holds()
      reads this
    {
      !isLocal && refCount != null
    }

    /** Deletes the HNS endpoint exactly when the counter was 1. A counter at 0 wraps around. */
    method Cleanup()
      modifies this, if isLocal then null else refCount, hns`deletedEndpoints
      ensures !isLocal && old(refCount) != null ==>
        && refCount == null
        && old(refCount).value == (if old(refCount.value) == 0 then 0xFFFF else old(refCount.value) - 1)
        && hns.deletedEndpoints == old(hns.deletedEndpoints) + (if old(refCount.value) == 1 then [old(hnsID)] else [])
        && (hnsID == old(hnsID) || (hnsID == "" && old(refCount.value) == 1))
      ensures isLocal || old(refCount) == null ==>
        unchanged(this) && unchanged(hns) && (old(refCount) != null ==> unchanged(old(refCount)))
    {
      if !isLocal && refCount != null {
        refCount.value := if refCount.value == 0 then 0xFFFF else refCount.value - 1;
        if refCount.value <= 0 && !isLocal {
          var ok := hns.DeleteEndpoint(hnsID);
          if ok {
            hnsID := "";
          }
        }
        refCount := null;
      }
    }
  }

  /** A remote endpoint that never got a shared counter: cleaning it up wraps its own counter
      around and deletes nothing. */
  method CleanupFresh(base: Aggregation.Endpoint, hns: HostNetworkService) returns (counter: Counter)
    requires !base.isLocal
    modifies hns`deletedEndpoints
    ensures fresh(counter) && counter.value == 0xFFFF
    ensures hns.deletedEndpoints == old(hns.deletedEndpoints)
  {
    var e := new EndpointInfo(base, hns);
    counter := e.refCount;
    e.Cleanup();
  }

  // ----- shared counters -----

  /** Which counter each remote endpoint holds. */
  ghost function Held(endpoints: set<EndpointInfo>): map<EndpointInfo, Counter>
    reads endpoints
  {
    map e | e in endpoints && e.Holds() :: e.refCount
  }

  ghost function Counts(counters: set<Counter>): map<Counter, int>
    reads counters
  {
    map c | c in counters :: c.value as int
  }

  /** Endpoints that hold the same counter share the HNS id it counts. */
  ghost predicate Shared(endpoints: set<EndpointInfo>, hns: HostNetworkService)
    reads endpoints
  {
    forall e :: e in endpoints ==> e.hns == hns && (e.Holds() ==> e.hnsID == e.refCount.hnsID)
  }

  /** Each counter equals the number of endpoints that hold it, and these share its HNS id. */
  ghost predicate Counted(endpoints: set<EndpointInfo>, counters: set<Counter>, hns: HostNetworkService)
    reads endpoints, counters
  {
    && Shared(endpoints, hns) && Agrees<EndpointInfo, Counter>(Held(endpoints), Counts(counters))
  }

  ghost function IDs(counters: seq<Counter>): seq<string> {
    seq(|counters|, i requires 0 <= i < |counters| => counters[i].hnsID)
  }

  /** The HNS ids whose last holder lets go when endpoints are cleaned up in this order. */
  ghost function DeletedIDs(held: map<EndpointInfo, Counter>, order: seq<EndpointInfo>): seq<string> {
    IDs(Unheld<EndpointInfo, Counter>(held, order))
  }

  /** What cleaning up these endpoints in this order leaves held and has deleted. */
  twostate predicate Cleaned(endpoints: set<EndpointInfo>, hns: HostNetworkService, new order: seq<EndpointInfo>)
    reads endpoints, hns
  {
    && Held(endpoints) == old(Held(endpoints)) - Elements(order)
    && hns.deletedEndpoints == old(hns.deletedEndpoints) + DeletedIDs(old(Held(endpoints)), order)
  }

  /** One iteration: the counters stay right, and a delete is issued exactly for a last holder. */
  method CleanupOne(e: EndpointInfo, ghost endpoints: set<EndpointInfo>, ghost counters: set<Counter>,
                    ghost hns: HostNetworkService)
    requires Counted(endpoints, counters, hns) && e in endpoints
    modifies endpoints, counters, hns`deletedEndpoints
    ensures Counted(endpoints, counters, hns)
    ensures Held(endpoints) == old(Held(endpoints)) - {e}
    ensures hns.deletedEndpoints == old(hns.deletedEndpoints) +
      if LastHolder<EndpointInfo, Counter>(old(Held(endpoints)), e) then [old(Held(endpoints))[e].hnsID] else []
  {
    ghost var held: map<EndpointInfo, Counter>, counts: map<Counter, int> := Held(endpoints), Counts(counters);
    if e in held {
      ReleaseKeepsAgreement<EndpointInfo, Counter>(held, counts, e);
    }
    CleanupAmong(e, endpoints, counters, hns);
    if e !in held {
      assert held - {e} == held;
    }
  }

  /** The same iteration in terms of the counters: the one e holds counts down. */
  method CleanupAmong(e: EndpointInfo, ghost endpoints: set<EndpointInfo>, ghost counters: set<Counter>,
                      ghost hns: HostNetworkService)
    requires Shared(endpoints, hns) && e in endpoints && (e.Holds() ==> e.refCount in counters && e.refCount.value > 0)
    modifies endpoints, counters, hns`deletedEndpoints
    ensures Shared(endpoints, hns) && Held(endpoints) == old(Held(endpoints)) - {e}
    ensures Counts(counters) == Released(old(Held(endpoints)), old(Counts(counters)), e)
    ensures hns.deletedEndpoints == old(hns.deletedEndpoints) +
      if old(e.Holds()) && old(e.refCount.value) == 1 then [old(e.refCount.hnsID)] else []
  {
    e.Cleanup();
    assert forall x :: x in endpoints && x != e ==> x.refCount == old(x.refCount) && x.hnsID == old(x.hnsID);
  }

  ghost function Released(held: map<EndpointInfo, Counter>, counts: map<Counter, int>, e: EndpointInfo)
    : map<Counter, int>
  {
    if e in held && held[e] in counts then counts[held[e] := counts[held[e]] - 1] else counts
  }

  lemma OneMoreUnheld(held: map<EndpointInfo, Counter>, eps: seq<EndpointInfo>, i: nat, log: seq<string>)
    requires i < |eps|
    ensures var rest := held - Elements(eps[..i]);
      && held - Elements(eps[..i + 1]) == rest - {eps[i]}
      && log + DeletedIDs(held, eps[..i + 1]) ==
         log + DeletedIDs(held, eps[..i]) +
         if LastHolder<EndpointInfo, Counter>(rest, eps[i]) then [rest[eps[i]].hnsID] else []
  {
    assert eps[..i + 1] == eps[..i] + [eps[i]] && eps[..i + 1][..i] == eps[..i];
    assert Elements(eps[..i + 1]) == Elements(eps[..i]) + {eps[i]};
  }

  /** The loop over a list of endpoints. */
  method CleanupEndpoints(eps: seq<EndpointInfo>, ghost endpoints: set<EndpointInfo>, ghost counters: set<Counter>,
                          ghost hns: HostNetworkService)
    requires Counted(endpoints, counters, hns) && forall e :: e in eps ==> e in endpoints
    modifies endpoints, counters, hns`deletedEndpoints
    ensures Counted(endpoints, counters, hns) && Cleaned(endpoints, hns, eps)
  {
    ghost var held: map<EndpointInfo, Counter>, log := Held(endpoints), hns.deletedEndpoints;
    for i := 0 to |eps|
      invariant Counted(endpoints, counters, hns)
      invariant Held(endpoints) == held - Elements(eps[..i])
      invariant hns.deletedEndpoints == log + DeletedIDs(held, eps[..i])
    {
      CleanupOne(eps[i], endpoints, counters, hns);
      OneMoreUnheld(held, eps, i, log);
    }
    assert eps[..|eps|] == eps;
  }

  // ----- several lists of cleanups -----

  lemma IDsOfSum(a: seq<Counter>, b: seq<Counter>)
    ensures IDs(a + b) == IDs(a) + IDs(b)
  {
  }

  lemma CleanedInSteps(held: map<EndpointInfo, Counter>, a: seq<EndpointInfo>, b: seq<EndpointInfo>)
    ensures held - Elements(a) - Elements(b) == held - Elements(a + b)
    ensures DeletedIDs(held, a) + DeletedIDs(held - Elements(a), b) == DeletedIDs(held, a + b)
  {
    UnheldInSteps<EndpointInfo, Counter>(held, a, b);
    IDsOfSum(Unheld<EndpointInfo, Counter>(held, a), Unheld<EndpointInfo, Counter>(held - Elements(a), b));
    ElementsOfSum(a, b);
  }

  // ----- what gets deleted -----

  ghost predicate OnePerID(held: map<EndpointInfo, Counter>) {
    forall c, d :: c in held.Values && d in held.Values && c.hnsID == d.hnsID ==> c == d
  }

  /** With one counter per HNS id: an HNS endpoint is deleted once if all its holders are cleaned
      up, in whatever order and however often, and otherwise not at all. */
  lemma DeletedOnceAllCleanedUp(held: map<EndpointInfo, Counter>, order: seq<EndpointInfo>, c: Counter)
    requires OnePerID(held) && c in held.Values
    ensures multiset(DeletedIDs(held, order))[c.hnsID] ==
      if forall e :: e in held && held[e] == c ==> e in order then 1 else 0
  {
    UnheldAreHeld(held, order);
    UnheldOnceAllRelease<EndpointInfo, Counter>(held, order, c);
    CountIDs(held, Unheld<EndpointInfo, Counter>(held, order), c);
  }

  lemma {:induction false} UnheldAreHeld(held: map<EndpointInfo, Counter>, order: seq<EndpointInfo>)
    ensures forall c :: c in Unheld<EndpointInfo, Counter>(held, order) ==> c in held.Values
  {
    if order != [] {
      UnheldAreHeld(held, order[..|order| - 1]);
    }
  }

  lemma {:induction false} CountIDs(held: map<EndpointInfo, Counter>, cs: seq<Counter>, c: Counter)
    requires OnePerID(held) && c in held.Values
    requires forall d :: d in cs ==> d in held.Values
    ensures multiset(IDs(cs))[c.hnsID] == multiset(cs)[c]
  {
    if cs == [] {
      assert IDs(cs) == [];
    } else {
      var n := |cs| - 1;
      CountIDs(held, cs[..n], c);
      assert cs[n] in cs;
      assert cs == cs[..n] + [cs[n]] && IDs(cs) == IDs(cs[..n]) + [cs[n].hnsID];
    }
  }
}
