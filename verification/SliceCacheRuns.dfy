/** Whole runs of the cache: any sequence of updatePending and checkoutChanges calls. */
module SliceCacheRuns {
  import opened Basics
  import opened HostPort
  import opened EndpointSlices
  import opened Aggregation
  import opened ServicePorts
  import opened SliceCache
  import LocalNet

  /** A call with what it chose freely: the record built, or the changes emitted. */
  datatype Event =
    | Updated(slice: EndpointSlice, remove: bool, info: SliceInfo)
    | CheckedOut(emitted: seq<Emission>)

  function Next(st: CacheState, ev: Event): CacheState {
    match ev
    case Updated(slice, _, info) => if KeysOf(slice).None? then st else StorePending(st, KeysOf(slice).value, info)
    case CheckedOut(_) => CommitAll(st)
  }

  ghost predicate Legal(cfg: Config, st: CacheState, ev: Event) {
    match ev
    case Updated(slice, remove, info) => KeysOf(slice).Some? ==> InfoOf(slice, remove, info)
    case CheckedOut(emitted) => Checkout(cfg, st, emitted)
  }

  function StateAfter(run: seq<Event>): CacheState {
    if run == [] then map[] else Next(StateAfter(run[..|run| - 1]), run[|run| - 1])
  }

  ghost predicate LegalRun(cfg: Config, run: seq<Event>) {
    run == [] || (LegalRun(cfg, run[..|run| - 1]) && Legal(cfg, StateAfter(run[..|run| - 1]), run[|run| - 1]))
  }

  /** The object follows the runs: what a call does to State() is the Next of a legal event. */
  method UpdateFollowsRun(cache: EndpointSliceCache, slice: EndpointSlice, remove: bool, ghost run: seq<Event>)
    returns (changed: bool, ghost ev: Event)
    requires cache.Valid() && LegalRun(cache.cfg, run) && cache.State() == StateAfter(run)
    requires KeysOf(slice).Some? ==> Sortable(slice.ports)
    modifies cache, cache.trackerByServiceMap.Values
    ensures cache.Valid() && fresh(cache.trackerByServiceMap.Values - old(cache.trackerByServiceMap.Values))
    ensures ev.Updated? && ev.slice == slice && ev.remove == remove
    ensures LegalRun(cache.cfg, run + [ev]) && cache.State() == StateAfter(run + [ev])
    ensures changed == Reported(run, ev)
  {
    ghost var info;
    changed, info := cache.UpdatePending(slice, remove);
    ev := Updated(slice, remove, info);
    LegalOneMore(cache.cfg, run, ev);
  }

  method CheckoutFollowsRun(cache: EndpointSliceCache, ghost run: seq<Event>)
    returns (changes: seq<EndpointsChange>, ghost ev: Event)
    requires cache.Valid() && LegalRun(cache.cfg, run) && cache.State() == StateAfter(run)
    modifies cache.trackerByServiceMap.Values
    ensures cache.Valid() && ev.CheckedOut? && changes == ChangesOf(ev.emitted)
    ensures LegalRun(cache.cfg, run + [ev]) && cache.State() == StateAfter(run + [ev])
  {
    ghost var emitted;
    changes, emitted := cache.CheckoutChanges();
    ev := CheckedOut(emitted);
    LegalOneMore(cache.cfg, run, ev);
  }

  datatype Request = UpdateSlice(slice: EndpointSlice, remove: bool) | CheckOut

  /** A request needs sortable ports, as updatePending does. */
  ghost predicate Acceptable(request: Request) {
    request.UpdateSlice? && KeysOf(request.slice).Some? ==> Sortable(request.slice.ports)
  }

  predicate Answers(ev: Event, request: Request) {
    match request
    case UpdateSlice(slice, remove) => ev.Updated? && ev.slice == slice && ev.remove == remove
    case CheckOut => ev.CheckedOut?
  }

  /** A new cache follows a run through any sequence of requests. */
  method Drive(cache: EndpointSliceCache, requests: seq<Request>) returns (ghost run: seq<Event>)
    requires cache.Valid() && cache.State() == map[] && forall i :: 0 <= i < |requests| ==> Acceptable(requests[i])
    modifies cache, cache.trackerByServiceMap.Values
    ensures cache.Valid() && LegalRun(cache.cfg, run) && cache.State() == StateAfter(run)
    ensures |run| == |requests| && forall i :: 0 <= i < |run| ==> Answers(run[i], requests[i])
  {
    run := [];
    for i := 0 to |requests|
      invariant cache.Valid() && fresh(cache.trackerByServiceMap.Values - old(cache.trackerByServiceMap.Values))
      invariant |run| == i && LegalRun(cache.cfg, run) && cache.State() == StateAfter(run)
      invariant forall j :: 0 <= j < i ==> Answers(run[j], requests[j])
    {
      ghost var ev := Perform(cache, requests[i]);
      LegalOneMore(cache.cfg, run, ev);
      run := run + [ev];
    }
  }

  /** One request is answered by a legal event, and leads to the state after it. */
  method Perform(cache: EndpointSliceCache, request: Request) returns (ghost ev: Event)
    requires cache.Valid() && Acceptable(request)
    modifies cache, cache.trackerByServiceMap.Values
    ensures cache.Valid() && fresh(cache.trackerByServiceMap.Values - old(cache.trackerByServiceMap.Values))
    ensures Legal(cache.cfg, old(cache.State()), ev) && cache.State() == Next(old(cache.State()), ev)
    ensures Answers(ev, request)
  {
    match request {
      case UpdateSlice(slice, remove) =>
        var _, info := cache.UpdatePending(slice, remove);
        ev := Updated(slice, remove, info);
      case CheckOut =>
        var _, emitted := cache.CheckoutChanges();
        ev := CheckedOut(emitted);
    }
  }

  lemma LegalOneMore(cfg: Config, run: seq<Event>, ev: Event)
    requires LegalRun(cfg, run) && Legal(cfg, StateAfter(run), ev)
    ensures LegalRun(cfg, run + [ev]) && StateAfter(run + [ev]) == Next(StateAfter(run), ev)
  {
    assert (run + [ev])[..|run|] == run;
  }

  /** The result of the updatePending call `ev` made after `run`. */
  function Reported(run: seq<Event>, ev: Event): bool
    requires ev.Updated?
  {
    match KeysOf(ev.slice)
    case None => false
    case Some(keys) => Changes(TrackerOf(StateAfter(run), keys.service), keys.slice, ev.info)
  }

  // ----- the plain last-write-wins map -----

  /** Whether a call with this slice object is about the slice of this name under this service. */
  predicate WritesTo(slice: EndpointSlice, service: NamespacedName, name: string) {
    && slice.serviceLabel == Some(service.name) && slice.namespace == service.namespace && slice.name == name
    && service.name != "" && service.namespace != "" && name != ""
  }

  /** The record written by the latest valid call for this slice, unless that was a removal. */
  function LastWrite(run: seq<Event>, service: NamespacedName, slice: string): Option<SliceInfo> {
    if run == [] then None
    else
      var ev := run[|run| - 1];
      if ev.Updated? && WritesTo(ev.slice, service, slice)
      then if ev.remove then None else Some(ev.info)
      else LastWrite(run[..|run| - 1], service, slice)
  }

  function Applied(run: seq<Event>, service: NamespacedName): SliceInfos {
    TrackerOf(StateAfter(run), service).applied
  }

  /** Two-level cache refines one-level map: pending overlaid on applied is the
      last-write-wins map, in every reachable state. */
  lemma {:induction false} OverlayIsLastWrite(cfg: Config, run: seq<Event>, service: NamespacedName, slice: string)
    requires LegalRun(cfg, run)
    ensures Get(Overlay(TrackerOf(StateAfter(run), service)), slice) == LastWrite(run, service, slice)
  {
    if run != [] {
      var before := run[..|run| - 1];
      OverlayIsLastWrite(cfg, before, service, slice);
      AppliedHasNoTombstones(before, service);
      var st := StateAfter(before);
      match run[|run| - 1]
      case CheckedOut(_) =>
        OverlayOfCommit(TrackerOf(st, service));
      case Updated(s, remove, info) =>
        if KeysOf(s).Some? {
          OverlayOfStore(st, KeysOf(s).value, info, service, slice);
        }
    }
  }

  /** After an accepted update the service it is labelled with, in its own namespace, has the record
      under the slice's name (none after a removal), and no other slice of any service changes. */
  lemma UpdateWritesSlice(cfg: Config, run: seq<Event>, ev: Event, service: NamespacedName, name: string)
    requires LegalRun(cfg, run + [ev]) && ev.Updated?
    ensures Get(Overlay(TrackerOf(StateAfter(run + [ev]), service)), name) ==
      if WritesTo(ev.slice, service, name) then if ev.remove then None else Some(ev.info)
      else Get(Overlay(TrackerOf(StateAfter(run), service)), name)
  {
    assert (run + [ev])[..|run|] == run;
    OverlayIsLastWrite(cfg, run + [ev], service, name);
    OverlayIsLastWrite(cfg, run, service, name);
  }

  lemma OverlayOfCommit(t: TrackerState)
    ensures Overlay(Commit(t)) == Overlay(t)
    ensures Commit(t).applied == Overlay(t) && Commit(t).pending == map[]
  {
  }

  lemma OverlayOfStore(st: CacheState, keys: CacheKeys, info: SliceInfo, service: NamespacedName, slice: string)
    requires NoTombstone(TrackerOf(st, service))
    ensures Get(Overlay(TrackerOf(StorePending(st, keys, info), service)), slice) ==
      if keys == CacheKeys(service, slice) then (if info.remove then None else Some(info))
      else Get(Overlay(TrackerOf(st, service)), slice)
  {
  }

  ghost predicate NoTombstone(t: TrackerState) {
    forall n :: n in t.applied ==> !t.applied[n].remove
  }

  lemma {:induction false} AppliedHasNoTombstones(run: seq<Event>, service: NamespacedName)
    ensures NoTombstone(TrackerOf(StateAfter(run), service))
  {
    if run != [] {
      AppliedHasNoTombstones(run[..|run| - 1], service);
    }
  }

  /** What the returned flag means. For an update it says exactly whether the
      last-write-wins map changes; for a removal it is also true when only the tombstone's
      own record differs. */
  lemma ResultTellsChange(cfg: Config, run: seq<Event>, ev: Event)
    requires LegalRun(cfg, run) && ev.Updated? && KeysOf(ev.slice).Some? && Legal(cfg, StateAfter(run), ev)
    ensures var keys := KeysOf(ev.slice).value;
      var current := LastWrite(run, keys.service, keys.slice);
      var pending := TrackerOf(StateAfter(run), keys.service).pending;
      && (!ev.remove ==> (Reported(run, ev) <==> current != Some(ev.info)))
      && (ev.remove ==>
            (Reported(run, ev) <==> current.Some? || (keys.slice in pending && pending[keys.slice] != ev.info)))
      && (!Reported(run, ev) ==> StateAfter(run + [ev]) == StateAfter(run)[keys.service := TrackerOf(StateAfter(run),
         keys.service)])
  {
    var keys := KeysOf(ev.slice).value;
    OverlayIsLastWrite(cfg, run, keys.service, keys.slice);
    AppliedHasNoTombstones(run, keys.service);
    FlagTellsChange(TrackerOf(StateAfter(run), keys.service), keys.slice, ev.info);
    if !Reported(run, ev) {
      UnreportedKeepsState(run, ev);
    }
  }

  lemma FlagTellsChange(t: TrackerState, slice: string, info: SliceInfo)
    requires NoTombstone(t)
    ensures !info.remove ==> (Changes(t, slice, info) <==> Get(Overlay(t), slice) != Some(info))
    ensures info.remove ==>
      (Changes(t, slice, info) <==> Get(Overlay(t), slice).Some? || (slice in t.pending && t.pending[slice] != info))
  {
  }

  lemma UnreportedKeepsState(run: seq<Event>, ev: Event)
    requires ev.Updated? && KeysOf(ev.slice).Some? && !Reported(run, ev)
    ensures var service := KeysOf(ev.slice).value.service;
      StateAfter(run + [ev]) == StateAfter(run)[service := TrackerOf(StateAfter(run), service)]
  {
    assert (run + [ev])[..|run|] == run;
  }

  /** The slice is written once and then removed twice, the second time with a port. */
  function RemovedTwice(port: EndpointPort): seq<Event> {
    var slice := EndpointSlice("n", "x", Some("s"), [], []);
    [Updated(slice, false, SliceInfo([], [], false)), Updated(slice, true, SliceInfo([], [], true)),
     Updated(slice.(ports := [port]), true, SliceInfo([port], [], true))]
  }

  /** This is a legal run, and its last removal is reported although nothing visible changes. */
  lemma RepeatedRemovalReported(cfg: Config, port: EndpointPort)
    ensures var run := RemovedTwice(port);
      && LegalRun(cfg, run) && Reported(run[..2], run[2])
      && forall service, slice :: LastWrite(run, service, slice) == LastWrite(run[..2], service, slice)
  {
    var run := RemovedTwice(port);
    assert run[..1][..0] == [] && run[..2][..1] == run[..1];
    assert LegalRun(cfg, run[..0]) && StateAfter(run[..0]) == map[];
    assert LegalRun(cfg, run[..1]) && LegalRun(cfg, run[..2]);
    var service := NamespacedName("n", "s");
    assert StateAfter(run[..1])[service] == TrackerState(map[], map["x" := SliceInfo([], [], false)]);
    assert StateAfter(run[..2])[service] == TrackerState(map[], map["x" := SliceInfo([], [], true)]);
    forall n, slice ensures LastWrite(run, n, slice) == LastWrite(run[..2], n, slice) {
    }
  }

  /** A checkout makes applied equal to the last-write-wins map and leaves nothing pending,
      without changing any overlay. */
  lemma CheckoutAppliesLastWrites(cfg: Config, run: seq<Event>, emitted: seq<Emission>, service: NamespacedName,
                                  slice: string)
    requires LegalRun(cfg, run + [CheckedOut(emitted)])
    ensures var after := run + [CheckedOut(emitted)];
      && Get(Applied(after, service), slice) == LastWrite(run, service, slice)
      && TrackerOf(StateAfter(after), service).pending == map[]
      && Overlay(TrackerOf(StateAfter(after), service)) == Overlay(TrackerOf(StateAfter(run), service))
  {
    assert (run + [CheckedOut(emitted)])[..|run|] == run;
    OverlayIsLastWrite(cfg, run, service, slice);
    OverlayOfCommit(TrackerOf(StateAfter(run), service));
  }

  /** A second checkout straight after the first finds nothing to report. */
  lemma SecondCheckoutIsEmpty(cfg: Config, run: seq<Event>, first: seq<Emission>, second: seq<Emission>)
    requires LegalRun(cfg, run + [CheckedOut(first)] + [CheckedOut(second)])
    ensures second == []
    ensures StateAfter(run + [CheckedOut(first)] + [CheckedOut(second)]) == StateAfter(run + [CheckedOut(first)])
  {
    var after := run + [CheckedOut(first)];
    assert after[..|run|] == run;
    assert (after + [CheckedOut(second)])[..|after|] == after;
    forall service | service in StateAfter(run) ensures Commit(StateAfter(run)[service]).pending == map[] {
      OverlayOfCommit(StateAfter(run)[service]);
    }
    assert Dirty(StateAfter(after)) == {};
    SomeService(second);
  }

  lemma SomeService(emitted: seq<Emission>)
    ensures emitted != [] ==> EmittedServices(emitted) != {}
  {
    if emitted != [] {
      assert emitted[0].service in EmittedServices(emitted);
    }
  }

  // ----- consecutive checkouts -----

  /** The endpoints last reported for a service: `current` of its latest change. */
  ghost function LastReported(run: seq<Event>, service: NamespacedName): Option<EndpointsMap> {
    if run == [] then None
    else
      var ev := run[|run| - 1];
      if ev.CheckedOut? && service in EmittedServices(ev.emitted)
      then Some(ChangeFor(ev.emitted, service).current)
      else LastReported(run[..|run| - 1], service)
  }

  ghost function ChangeFor(emitted: seq<Emission>, service: NamespacedName): EndpointsChange
    requires service in EmittedServices(emitted)
  {
    var i :| 0 <= i < |emitted| && emitted[i].service == service;
    emitted[i].change
  }

  /** Applied slices only move in a checkout that reports them. */
  lemma {:induction false} AppliedWasReported(cfg: Config, run: seq<Event>, service: NamespacedName)
    requires LegalRun(cfg, run)
    ensures match LastReported(run, service)
            case None => Applied(run, service) == map[]
            case Some(m) => IsEndpointsMap(cfg, service, Applied(run, service), m)
  {
    if run != [] {
      var before, ev := run[..|run| - 1], run[|run| - 1];
      AppliedWasReported(cfg, before, service);
      if ev.CheckedOut? && service in EmittedServices(ev.emitted) {
        var i :| 0 <= i < |ev.emitted| && ev.emitted[i].service == service
          && ev.emitted[i].change == ChangeFor(ev.emitted, service);
        assert Emits(cfg, StateAfter(before), ev.emitted[i]);
        OverlayOfCommit(StateAfter(before)[service]);
      } else {
        AppliedUnmoved(cfg, before, ev, service);
      }
    }
  }

  lemma AppliedUnmoved(cfg: Config, before: seq<Event>, ev: Event, service: NamespacedName)
    requires Legal(cfg, StateAfter(before), ev)
    requires ev.CheckedOut? ==> service !in EmittedServices(ev.emitted)
    ensures TrackerOf(Next(StateAfter(before), ev), service).applied == Applied(before, service)
  {
  }

  /** Every run, every checkout: `previous` of a change agrees with `current` of the same
      service's latest earlier change (or is empty when there was none), although both were
      recomputed from the slices under whatever iteration orders. */
  lemma PreviousIsLastReported(cfg: Config, run: seq<Event>, emitted: seq<Emission>, i: nat)
    requires LegalRun(cfg, run + [CheckedOut(emitted)]) && i < |emitted|
    ensures match LastReported(run, emitted[i].service)
            case None => emitted[i].change.previous == map[]
            case Some(m) => SameEndpoints(m, emitted[i].change.previous)
  {
    var service := emitted[i].service;
    assert (run + [CheckedOut(emitted)])[..|run|] == run;
    AppliedWasReported(cfg, run, service);
    assert Emits(cfg, StateAfter(run), emitted[i]);
    match LastReported(run, service)
    case None => NothingFromNoSlices(cfg, service, emitted[i].change.previous);
    case Some(m) => OrderIndependent(cfg, service, Applied(run, service), m, emitted[i].change.previous);
  }

  lemma NothingFromNoSlices(cfg: Config, service: NamespacedName, m: EndpointsMap)
    requires IsEndpointsMap(cfg, service, map[], m)
    ensures m == map[]
  {
    forall name | name in m ensures false {
      KeyIffContributed(service, m, Contributions(cfg, map[]), name.port);
    }
  }

  // ----- what a change says about the slices -----

  /** `m` lists endpoint string `s` under the port named `port`. */
  ghost predicate Reports(m: EndpointsMap, service: NamespacedName, port: string, s: string) {
    var name := ServicePortName(service, port, LocalNet.TCP);
    name in m && Listed(m[name], s)
  }

  /** The slice object of the latest valid call for this slice, unless that was a removal. */
  function LastSlice(run: seq<Event>, service: NamespacedName, name: string): Option<EndpointSlice> {
    if run == [] then None
    else
      var ev := run[|run| - 1];
      if ev.Updated? && WritesTo(ev.slice, service, name)
      then if ev.remove then None else Some(ev.slice)
      else LastSlice(run[..|run| - 1], service, name)
  }

  lemma {:induction false} LastWriteOfLastSlice(cfg: Config, run: seq<Event>, service: NamespacedName, name: string)
    requires LegalRun(cfg, run)
    ensures LastWrite(run, service, name).Some? <==> LastSlice(run, service, name).Some?
    ensures LastSlice(run, service, name).Some? ==>
      InfoOf(LastSlice(run, service, name).value, false, LastWrite(run, service, name).value)
  {
    if run != [] {
      LastWriteOfLastSlice(cfg, run[..|run| - 1], service, name);
    }
  }

  /** A port and an endpoint of a slice object that have `s` listed under the port name: a named port
      with a number, and an address of the cache's family. */
  predicate SliceExposes(cfg: Config, p: EndpointPort, ep: SliceEndpoint, port: string, s: string) {
    && p.name == Some(port) && p.port.Some? && p.port.value != 0
    && ep.addresses != [] && cfg.isIPv6(ep.addresses[0]) == cfg.ipv6
    && s == EndpointString(ep.addresses[0], p.port.value)
  }

  /** The last-written slice of this name lists `s` under `port`. */
  ghost predicate WrittenBy(cfg: Config, run: seq<Event>, service: NamespacedName, port: string, name: string,
                            s: string) {
    var slice := LastSlice(run, service, name);
    slice.Some? && SliceLists(cfg, slice.value, port, s)
  }

  ghost predicate SliceLists(cfg: Config, slice: EndpointSlice, port: string, s: string) {
    exists p, ep :: p in slice.ports && ep in slice.endpoints && SliceExposes(cfg, p, ep, port, s)
  }

  /** Some last-written slice of the service lists `s` under `port`. */
  ghost predicate Written(cfg: Config, run: seq<Event>, service: NamespacedName, port: string, s: string) {
    exists name :: WrittenBy(cfg, run, service, port, name, s)
  }

  ghost predicate RecordLists(cfg: Config, info: SliceInfo, port: string, s: string) {
    exists p, e :: p in info.ports && e in info.endpoints && Exposes(cfg, p, e, port, s)
  }

  lemma ExposedOnSlice(cfg: Config, slice: EndpointSlice, info: SliceInfo, port: string, s: string)
    requires InfoOf(slice, false, info)
    ensures SliceLists(cfg, slice, port, s) <==> RecordLists(cfg, info, port, s)
  {
    if SliceLists(cfg, slice, port, s) {
      var p, ep :| p in slice.ports && ep in slice.endpoints && SliceExposes(cfg, p, ep, port, s);
      SamePort(slice, info, p);
      var e := CopyIn(slice, info, ep);
      CopiedExposes(cfg, p, ep, e, port, s);
    }
    if RecordLists(cfg, info, port, s) {
      var p, e :| p in info.ports && e in info.endpoints && Exposes(cfg, p, e, port, s);
      SamePort(slice, info, p);
      var ep := SourceIn(slice, info, e);
      CopiedExposes(cfg, p, ep, e, port, s);
    }
  }

  lemma CopiedExposes(cfg: Config, p: EndpointPort, ep: SliceEndpoint, e: EndpointInfo, port: string, s: string)
    requires Copied(ep, e)
    ensures SliceExposes(cfg, p, ep, port, s) <==> Exposes(cfg, p, e, port, s)
  {
  }

  lemma ExposedIffRecord(cfg: Config, slices: SliceInfos, port: string, s: string)
    ensures IsExposed(cfg, slices, port, s) <==> exists n :: n in slices && RecordLists(cfg, slices[n], port, s)
  {
    if n, i, j :| ExposedBy(cfg, slices, n, i, j, port, s) {
      assert slices[n].ports[i] in slices[n].ports && slices[n].endpoints[j] in slices[n].endpoints;
      assert RecordLists(cfg, slices[n], port, s);
    }
    if n :| n in slices && RecordLists(cfg, slices[n], port, s) {
      var p, e :| p in slices[n].ports && e in slices[n].endpoints && Exposes(cfg, p, e, port, s);
      var i :| 0 <= i < |slices[n].ports| && slices[n].ports[i] == p;
      var j :| 0 <= j < |slices[n].endpoints| && slices[n].endpoints[j] == e;
      assert ExposedBy(cfg, slices, n, i, j, port, s);
    }
  }

  lemma ReportsIffWritten(cfg: Config, run: seq<Event>, service: NamespacedName, slices: SliceInfos, m: EndpointsMap,
                          port: string, s: string)
    requires LegalRun(cfg, run) && IsEndpointsMap(cfg, service, slices, m)
    requires forall n :: Get(slices, n) == LastWrite(run, service, n)
    ensures Reports(m, service, port, s) <==> Written(cfg, run, service, port, s)
  {
    EndpointsMapMeaning(cfg, service, slices, m, port, s);
    ExposedIffRecord(cfg, slices, port, s);
    forall n ensures n in slices && RecordLists(cfg, slices[n], port, s) <==>
      WrittenBy(cfg, run, service, port, n, s)
    {
      LastWriteOfLastSlice(cfg, run, service, n);
      assert Get(slices, n) == LastWrite(run, service, n);
      if n in slices {
        ExposedOnSlice(cfg, LastSlice(run, service, n).value, slices[n], port, s);
      }
    }
  }

  /** Position `start` opens the interval that ends with `run`: nothing was checked out since. */
  ghost predicate IntervalStart(run: seq<Event>, start: nat) {
    && start <= |run|
    && (start == 0 || run[start - 1].CheckedOut?)
    && forall j :: start <= j < |run| ==> run[j].Updated?
  }

  lemma {:induction false} AppliedIsIntervalStart(cfg: Config, run: seq<Event>, start: nat, service: NamespacedName,
                                                  slice: string)
    requires LegalRun(cfg, run) && IntervalStart(run, start)
    ensures Get(Applied(run, service), slice) == LastWrite(run[..start], service, slice)
    decreases |run|
  {
    if start == |run| {
      assert run[..start] == run;
      if run != [] {
        var before := run[..|run| - 1];
        assert before + [run[|run| - 1]] == run;
        CheckoutAppliesLastWrites(cfg, before, run[|run| - 1].emitted, service, slice);
      }
    } else {
      var before := run[..|run| - 1];
      AppliedIsIntervalStart(cfg, before, start, service, slice);
      AppliedUnmoved(cfg, before, run[|run| - 1], service);
      assert before[..start] == run[..start];
    }
  }

  /** The two ends of every change: `previous` lists exactly what the last-written slices
      contributed when the interval opened, `current` exactly what they contribute when it closes. */
  lemma ChangeSpansInterval(cfg: Config, run: seq<Event>, start: nat, emitted: seq<Emission>, i: nat, port: string,
                            s: string)
    requires LegalRun(cfg, run + [CheckedOut(emitted)]) && i < |emitted| && IntervalStart(run, start)
    ensures Reports(emitted[i].change.previous, emitted[i].service, port, s) <==> Written(cfg, run[..start],
      emitted[i].service, port, s)
    ensures Reports(emitted[i].change.current, emitted[i].service, port, s) <==>
      Written(cfg, run, emitted[i].service, port, s)
  {
    var service := emitted[i].service;
    assert (run + [CheckedOut(emitted)])[..|run|] == run;
    assert Emits(cfg, StateAfter(run), emitted[i]);
    PrefixIsLegal(cfg, run, start);
    forall n ensures Get(Applied(run, service), n) == LastWrite(run[..start], service, n) {
      AppliedIsIntervalStart(cfg, run, start, service, n);
    }
    forall n ensures Get(Overlay(TrackerOf(StateAfter(run), service)), n) == LastWrite(run, service, n) {
      OverlayIsLastWrite(cfg, run, service, n);
    }
    ReportsIffWritten(cfg, run[..start], service, Applied(run, service), emitted[i].change.previous, port, s);
    ReportsIffWritten(cfg, run, service, Overlay(TrackerOf(StateAfter(run), service)), emitted[i].change.current,
                      port, s);
  }

  /** An endpoint that moved from one slice to another within the interval is never reported
      as gone: it is in both `previous` and `current`. */
  lemma MovedEndpointStays(cfg: Config, run: seq<Event>, start: nat, emitted: seq<Emission>, i: nat, port: string,
                           s: string, oldSlice: string, newSlice: string)
    requires LegalRun(cfg, run + [CheckedOut(emitted)]) && i < |emitted| && IntervalStart(run, start)
    requires WrittenBy(cfg, run[..start], emitted[i].service, port, oldSlice, s)
    requires WrittenBy(cfg, run, emitted[i].service, port, newSlice, s)
    ensures Reports(emitted[i].change.previous, emitted[i].service, port, s)
    ensures Reports(emitted[i].change.current, emitted[i].service, port, s)
  {
    ChangeSpansInterval(cfg, run, start, emitted, i, port, s);
  }

  lemma {:induction false} PrefixIsLegal(cfg: Config, run: seq<Event>, n: nat)
    requires LegalRun(cfg, run) && n <= |run|
    ensures LegalRun(cfg, run[..n])
    decreases |run|
  {
    if n < |run| {
      PrefixIsLegal(cfg, run[..|run| - 1], n);
      assert run[..|run| - 1][..n] == run[..n];
    } else {
      assert run[..n] == run;
    }
  }

  // ----- which services a checkout reports -----

  /** Whether an update of one of the service's slices was reported since the latest checkout. */
  ghost predicate ReportedSince(run: seq<Event>, service: NamespacedName) {
    run != [] &&
    var before, ev := run[..|run| - 1], run[|run| - 1];
    && ev.Updated?
    && ((Reported(before, ev) && WritesTo(ev.slice, service, ev.slice.name)) || ReportedSince(before, service))
  }

  lemma {:induction false} DirtyIffReported(cfg: Config, run: seq<Event>, service: NamespacedName)
    requires LegalRun(cfg, run)
    ensures service in Dirty(StateAfter(run)) <==> ReportedSince(run, service)
  {
    if run != [] {
      var before, ev := run[..|run| - 1], run[|run| - 1];
      DirtyIffReported(cfg, before, service);
      if ev.CheckedOut? && service in StateAfter(before) {
        OverlayOfCommit(StateAfter(before)[service]);
      }
    }
  }

  /** A checkout reports exactly the services for which updatePending returned true since the
      checkout before. */
  lemma CheckoutReportsUpdated(cfg: Config, run: seq<Event>, emitted: seq<Emission>, service: NamespacedName)
    requires LegalRun(cfg, run + [CheckedOut(emitted)])
    ensures (exists i :: 0 <= i < |emitted| && emitted[i].service == service) <==> ReportedSince(run, service)
  {
    assert (run + [CheckedOut(emitted)])[..|run|] == run;
    DirtyIffReported(cfg, run, service);
    assert service in EmittedServices(emitted) <==> service in Dirty(StateAfter(run));
  }
}
