/** EndpointSliceCache: per service, the slices a proxier has applied and the updates
    (tombstones included) that are pending for it. */
module SliceCache {
  import opened Basics
  import opened EndpointSlices
  import opened Aggregation

  type SliceInfos = map<string, SliceInfo>

  // ----- the cache as a value -----

  datatype TrackerState = TrackerState(applied: SliceInfos, pending: SliceInfos)

  type CacheState = map<NamespacedName, TrackerState>

  datatype EndpointsChange = EndpointsChange(previous: EndpointsMap, current: EndpointsMap)

  function TrackerOf(st: CacheState, service: NamespacedName): TrackerState {
    if service in st then st[service] else TrackerState(map[], map[])
  }

  /** Would storing `info` as pending change anything? */
  function Changes(t: TrackerState, slice: string, info: SliceInfo): bool {
    if slice in t.pending then info != t.pending[slice]
    else if slice in t.applied then info != t.applied[slice]
    else !info.remove
  }

  function StorePending(st: CacheState, keys: CacheKeys, info: SliceInfo): CacheState {
    var t := TrackerOf(st, keys.service);
    st[keys.service := if Changes(t, keys.slice, info) then t.(pending := t.pending[keys.slice := info]) else t]
  }

  function Removed(pending: SliceInfos): set<string> { set n | n in pending && pending[n].remove }

  /** Pending overlaid on applied; a tombstone means absent. */
  function Overlay(t: TrackerState): SliceInfos {
    (t.applied + t.pending) - Removed(t.pending)
  }

  function Commit(t: TrackerState): TrackerState {
    if t.pending == map[] then t else TrackerState(Overlay(t), map[])
  }

  function CommitAll(st: CacheState): CacheState {
    map service | service in st :: Commit(st[service])
  }

  /** Half-way through a checkout: the services in `todo` still have their old state. */
  ghost function CommitExcept(st: CacheState, todo: set<NamespacedName>): CacheState {
    map service | service in st :: if service in todo then st[service] else Commit(st[service])
  }

  function Dirty(st: CacheState): set<NamespacedName> {
    set service | service in st && st[service].pending != map[]
  }

  datatype Emission = Emission(service: NamespacedName, change: EndpointsChange)

  /** The change reported for one service: its applied slices before and after. */
  ghost predicate Emits(cfg: Config, st: CacheState, e: Emission) {
    && e.service in st
    && IsEndpointsMap(cfg, e.service, st[e.service].applied, e.change.previous)
    && IsEndpointsMap(cfg, e.service, Overlay(st[e.service]), e.change.current)
  }

  function ChangesOf(emitted: seq<Emission>): seq<EndpointsChange> {
    seq(|emitted|, i requires 0 <= i < |emitted| => emitted[i].change)
  }

  function EmittedServices(emitted: seq<Emission>): set<NamespacedName> {
    set i | 0 <= i < |emitted| :: emitted[i].service
  }

  ghost predicate OnePerService(emitted: seq<Emission>) {
    forall i, j :: 0 <= i < j < |emitted| ==> emitted[i].service != emitted[j].service
  }

  /** A checkout reports exactly one change for each service with pending slices. */
  ghost predicate Checkout(cfg: Config, st: CacheState, emitted: seq<Emission>) {
    && OnePerService(emitted)
    && EmittedServices(emitted) == Dirty(st)
    && forall i :: 0 <= i < |emitted| ==> Emits(cfg, st, emitted[i])
  }

  // ----- the cache as an object -----

  class EndpointSliceTracker {
    var applied: SliceInfos
    var pending: SliceInfos
    /** The only service this tracker is ever kept for. */
    ghost const service: NamespacedName

    constructor (ghost service: NamespacedName)
      ensures applied == map[] && pending == map[] && this.service == service
    {
      applied, pending := map[], map[];
      this.service := service;
    }

    ghost function State(): TrackerState
      reads this
    {
      TrackerState(applied, pending)
    }
  }

  class EndpointSliceCache {
    const cfg: Config
    var trackerByServiceMap: map<NamespacedName, EndpointSliceTracker>

    /** No two services share a tracker. */
    ghost predicate Valid()
      reads this
    {
      forall a :: a in trackerByServiceMap ==> trackerByServiceMap[a].service == a
    }

    ghost function State(): CacheState
      reads this, trackerByServiceMap.Values
    {
      map service | service in trackerByServiceMap :: trackerByServiceMap[service].State()
    }

    constructor (cfg: Config)
      ensures Valid() && this.cfg == cfg && State() == map[]
    {
      this.cfg := cfg;
      trackerByServiceMap := map[];
    }

    /** `info` is the record that was built, whose ties the sorts ordered as they liked. */
    method UpdatePending(slice: EndpointSlice, remove: bool) returns (changed: bool, ghost info: SliceInfo)
      requires Valid()
      requires KeysOf(slice).Some? ==> Sortable(slice.ports)
      modifies this, trackerByServiceMap.Values
      ensures Valid() && fresh(trackerByServiceMap.Values - old(trackerByServiceMap.Values))
      ensures KeysOf(slice).None? ==> !changed && State() == old(State())
      ensures KeysOf(slice).Some? ==>
        && InfoOf(slice, remove, info)
        && State() == StorePending(old(State()), KeysOf(slice).value, info)
        && changed == Changes(TrackerOf(old(State()), KeysOf(slice).value.service), KeysOf(slice).value.slice, info)
    {
      info := SliceInfo([], [], remove);
      if KeysOf(slice).None? {
        return false, info;
      }
      var esInfo := NewEndpointSliceInfo(slice, remove);
      info := esInfo;
      changed := Store(KeysOf(slice).value, esInfo);
    }

    /** The part of updatePending that runs under the lock. */
    method Store(keys: CacheKeys, esInfo: SliceInfo) returns (changed: bool)
      requires Valid()
      modifies this, trackerByServiceMap.Values
      ensures Valid() && fresh(trackerByServiceMap.Values - old(trackerByServiceMap.Values))
      ensures State() == StorePending(old(State()), keys, esInfo)
      ensures changed == Changes(TrackerOf(old(State()), keys.service), keys.slice, esInfo)
    {
      AddTracker(keys.service);
      changed := EsInfoChanged(keys.service, keys.slice, esInfo);
      if changed {
        StoreIn(keys.service, keys.slice, esInfo);
      }
    }

    /** An empty tracker for a service that has none. */
    method AddTracker(service: NamespacedName)
      requires Valid()
      modifies this
      ensures Valid() && fresh(trackerByServiceMap.Values - old(trackerByServiceMap.Values))
      ensures service in trackerByServiceMap
      ensures State() == old(State())[service := TrackerOf(old(State()), service)]
    {
      if service !in trackerByServiceMap {
        var tracker := new EndpointSliceTracker(service);
        trackerByServiceMap := trackerByServiceMap[service := tracker];
      }
    }

    method StoreIn(service: NamespacedName, slice: string, info: SliceInfo)
      requires Valid() && service in trackerByServiceMap
      modifies trackerByServiceMap[service]
      ensures Valid()
      ensures var t := old(State())[service];
        State() == old(State())[service := t.(pending := t.pending[slice := info])]
    {
      var tracker := trackerByServiceMap[service];
      tracker.pending := tracker.pending[slice := info];
    }

    method EsInfoChanged(service: NamespacedName, slice: string, esInfo: SliceInfo) returns (changed: bool)
      ensures changed == Changes(TrackerOf(State(), service), slice, esInfo)
    {
      if service in trackerByServiceMap {
        var tracker := trackerByServiceMap[service];
        if slice in tracker.pending {
          return esInfo != tracker.pending[slice];
        }
        if slice in tracker.applied {
          return esInfo != tracker.applied[slice];
        }
      }
      if esInfo.remove {
        return false;
      }
      return true;
    }

    /** The change list, with the service each change is for. */
    method CheckoutChanges() returns (changes: seq<EndpointsChange>, ghost emitted: seq<Emission>)
      requires Valid()
      modifies trackerByServiceMap.Values
      ensures Valid()
      ensures State() == CommitAll(old(State()))
      ensures Checkout(cfg, old(State()), emitted)
      ensures changes == ChangesOf(emitted)
    {
      changes, emitted := [], [];
      ghost var before := State();
      var todo := trackerByServiceMap.Keys;
      while todo != {}
        invariant todo <= before.Keys && Valid()
        invariant State() == CommitExcept(before, todo)
        invariant PartialCheckout(cfg, before, todo, emitted)
        invariant changes == ChangesOf(emitted)
      {
        var service :| service in todo;
        assert State()[service] == before[service];
        if |trackerByServiceMap[service].pending| != 0 {
          var change := CheckoutService(service);
          EmitOne(cfg, before, todo, emitted, Emission(service, change));
          changes := changes + [change];
          emitted := emitted + [Emission(service, change)];
        } else {
          SkipOne(cfg, before, todo, emitted, service);
        }
        todo := todo - {service};
      }
    }

    /** The body of the checkoutChanges loop for a service with pending slices. */
    method CheckoutService(service: NamespacedName) returns (change: EndpointsChange)
      requires Valid() && service in trackerByServiceMap && trackerByServiceMap[service].pending != map[]
      modifies trackerByServiceMap[service]
      ensures Valid()
      ensures State() == old(State())[service := Commit(old(State())[service])]
      ensures Emits(cfg, old(State()), Emission(service, change))
    {
      var tracker := trackerByServiceMap[service];
      var previous := GetEndpointsMap(cfg, service, tracker.applied);
      CommitTracker(tracker);
      var current := GetEndpointsMap(cfg, service, tracker.applied);
      change := EndpointsChange(previous, current);
    }

    /** The inner loop of checkoutChanges, deleting from pending while it iterates. */
    method CommitTracker(tracker: EndpointSliceTracker)
      modifies tracker
      ensures tracker.State() == TrackerState(Overlay(old(tracker.State())), map[])
    {
      while tracker.pending != map[]
        invariant Overlay(tracker.State()) == Overlay(old(tracker.State()))
        decreases |tracker.pending|
      {
        var name :| name in tracker.pending;
        CommitOne(tracker, name);
      }
      OverlayOfApplied(tracker.applied);
    }

    method CommitOne(tracker: EndpointSliceTracker, name: string)
      requires name in tracker.pending
      modifies tracker
      ensures tracker.pending == old(tracker.pending) - {name}
      ensures |tracker.pending| < |old(tracker.pending)|
      ensures Overlay(tracker.State()) == Overlay(old(tracker.State()))
    {
      SmallerWithout(tracker.pending, name);
      OverlayKeptByOneCommit(tracker.State(), name);
      var sliceInfo := tracker.pending[name];
      if sliceInfo.remove {
        tracker.applied := tracker.applied - {name};
      } else {
        tracker.applied := tracker.applied[name := sliceInfo];
      }
      tracker.pending := tracker.pending - {name};
    }
  }

  lemma OverlayOfApplied(applied: SliceInfos)
    ensures Overlay(TrackerState(applied, map[])) == applied
  {
  }

  lemma SmallerWithout<K, V>(m: map<K, V>, k: K)
    requires k in m
    ensures |m - {k}| < |m|
  {
  }

  lemma OverlayKeptByOneCommit(t: TrackerState, name: string)
    requires name in t.pending
    ensures var info := t.pending[name];
      var applied := if info.remove then t.applied - {name} else t.applied[name := info];
      Overlay(TrackerState(applied, t.pending - {name})) == Overlay(t)
  {
  }

  ghost predicate PartialCheckout(cfg: Config, st: CacheState, todo: set<NamespacedName>, emitted: seq<Emission>) {
    && OnePerService(emitted)
    && EmittedServices(emitted) == Dirty(st) - todo
    && forall i :: 0 <= i < |emitted| ==> Emits(cfg, st, emitted[i])
  }

  lemma SkipOne(cfg: Config, st: CacheState, todo: set<NamespacedName>, emitted: seq<Emission>, service: NamespacedName)
    requires todo <= st.Keys && service in todo && st[service].pending == map[]
    requires PartialCheckout(cfg, st, todo, emitted)
    ensures PartialCheckout(cfg, st, todo - {service}, emitted)
    ensures CommitExcept(st, todo) == CommitExcept(st, todo - {service})
  {
  }

  lemma EmitOne(cfg: Config, st: CacheState, todo: set<NamespacedName>, emitted: seq<Emission>, e: Emission)
    requires todo <= st.Keys && e.service in todo && st[e.service].pending != map[]
    requires PartialCheckout(cfg, st, todo, emitted)
    requires Emits(cfg, CommitExcept(st, todo), e)
    ensures PartialCheckout(cfg, st, todo - {e.service}, emitted + [e])
    ensures CommitExcept(st, todo)[e.service := Commit(st[e.service])] == CommitExcept(st, todo - {e.service})
    ensures ChangesOf(emitted + [e]) == ChangesOf(emitted) + [e.change]
  {
    ExtendEmitted(emitted, e);
    assert CommitExcept(st, todo)[e.service] == st[e.service];
  }

  lemma ExtendEmitted(emitted: seq<Emission>, e: Emission)
    requires OnePerService(emitted) && e.service !in EmittedServices(emitted)
    ensures OnePerService(emitted + [e])
    ensures EmittedServices(emitted + [e]) == EmittedServices(emitted) + {e.service}
  {
    var more := emitted + [e];
    assert more[|emitted|] == e;
    assert forall i :: 0 <= i < |emitted| ==> more[i] == emitted[i] && emitted[i].service in EmittedServices(emitted);
    forall s | s in EmittedServices(emitted) ensures s in EmittedServices(more) {
      var i :| 0 <= i < |emitted| && emitted[i].service == s;
      assert more[i].service == s;
    }
    assert more[|emitted|].service in EmittedServices(more);
  }
}
