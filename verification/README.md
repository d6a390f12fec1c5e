# A verified model of the Windows proxy backends

A Dafny 4.11 model of the stateful parts of the Windows proxy backends under `pkg/proxy`: the
EndpointSlice cache, the userspace load balancer, portals, sink and UDP clients, and the
winkernel service tracker and endpoint reference counts. `dafny verify dfyconfig.toml` checks
the whole project.

Objects the program updates in place are classes here, with the same fields; each has a ghost
function (`State`, `View`, `Items`) giving its value, and its methods state the whole new value.
What is proved about runs is proved about these values: a run is a sequence of values and calls
in which every step is what the method contracts allow. For the slice cache, the
load balancer and both sinks a `Drive` method makes any sequence of calls on the object and ends in
the last value of such a run, so the theorems about runs are theorems about the objects.

- **EndpointSlice cache** (`EndpointSlices`, `Aggregation`, `SliceCache`, `SliceCacheRuns`,
  `HostPort`). Go's map iteration is a free choice of the next key and `sort.Sort` is any
  permutation without inversions. The two-level cache refines a plain last-write-wins map; every
  change spans exactly one checkout interval; consecutive changes of a service fit together; and
  none of this depends on iteration order. Endpoint strings determine address and port.
- **Userspace load balancer** (`Shuffling`, `Balancer`, `BalancerRuns`, `Connecting`). What the
  endpoint handlers do to every entry, that positions stay in range, that round-robin is fair
  over whole runs with other calls interleaved, and that a `tryConnect` that gives up has dialled
  enough endpoints.
- **Userspace portals and sink** (`Portals`, `UserspaceSink`, `UserspaceRuns`, `UserspaceDriver`,
  `UserspaceGuarantees`). Over every run of the sink, portals and load balancer entries agree with
  the live services, whichever portals fail to open. Failures are logged, and a service has exactly
  the portals it asks for once none failed in its latest SetService. From a SetEndpoint whose object
  has an address until the next call about its service, connections are sent to that object's
  addresses; what every other call leaves in the lists is given exactly.
- **UDP clients** (`UdpClients`). The dispatcher and the reader goroutines as interleaved atomic
  steps over the client cache.
- **Service change tracker** (`ServiceTracker`, `WinkernelSink`). Items are net changes between
  the first and the latest version of a service.
- **Winkernel endpoints and services** (`Releases`, `HnsEndpoints`, `HnsServices`). Counters shared
  by endpoints agree with their holders through any sequence of cleanups, and each HNS endpoint is
  deleted exactly when its last holder lets go. Services that are cleaned up forget exactly the
  load balancers that get deleted.

Six findings came out of the proofs; each is stated exactly and shown at an input.

1. The userspace backend keeps the first endpoint object of a service for ever
   (`pkg/proxy/userspace/sink.go:55`) and passes it as the old version of every later one.
   When both it and the new object have no V4 address, nothing is cleared and stale addresses keep
   being served. `SetEndpointReplaces` and `DeleteEndpointEmpties` give the exact condition,
   `StaleListRun` a run.
2. A service update keeps the list of a surviving port name even when the port number changes
   (`pkg/proxy/userspace/proxier.go:246-260`), so connections go to the old number until the next
   SetEndpoint. `SetServiceKeepsPorts` says that a list stays right exactly when the number does,
   `StalePortRun` gives a run after which it is not.
3. `Cleanup` on a remote endpoint that still has the counter it was built with (0, at
   `pkg/proxy/winkernel/endpoints.go:116`) wraps the counter to 65535 and deletes nothing. The
   contract of `EndpointInfo.Cleanup` says that a delete happens exactly for a counter at 1;
   `CleanupFresh` builds such an endpoint and cleans it up.
4. `Port()` does not read back the port of every endpoint string: `PortRoundTrip` says for exactly
   which hosts it does, `BracketHostLosesPort` names one for which it does not. The strings are
   nevertheless distinct for distinct endpoints, whatever the hosts look like
   (`EndpointStringInjective`).
5. `updatePending` reports a change for a repeated removal whose record differs from the pending
   tombstone, although nothing visible changes: `ResultTellsChange` for when,
   `RepeatedRemovalReported` for a run.
6. A portal whose service changes the protocol but not the port keeps its old protocol, because
   `sameConfig` compares ports only (`pkg/proxy/userspace/proxier.go:322-324`).
   `SetServiceProtocol` says for which portals, `StaleProtocolRun` gives a run.

## Model

| member | source | states |
|---|---|---|
| EndpointSlices.KeysOf | pkg/proxy/endpointslicecache.go:376-385 | keys exist exactly for a non-empty service label, namespace and name; they are the service of that label in the slice's namespace, and the slice's name |
| EndpointSlices.NewEndpointSliceInfo | pkg/proxy/endpointslicecache.go:119-159 | the record holds the slice's ports and its copied endpoints (none for a removal), each a permutation sorted up to ties |
| EndpointSlices.InfoMeaning | pkg/proxy/endpointslicecache.go:119-159 | on the slice's fields: the same ports by increasing number; unless removed, one endpoint for each of its own with the same addresses, node and zone, ready and serving unless said otherwise, terminating only if said so, in the order of their joined addresses |
| EndpointSlices.JoinOfSum | pkg/proxy/endpointslicecache.go:396-398 | the joined addresses are separated by one comma each |
| EndpointSlices.SortOrders | pkg/proxy/endpointslicecache.go:388-424 | the port and address comparisons are weak orders, as sorting needs |
| Basics.Sort | pkg/proxy/endpointslicecache.go:128 | sort.Sort as a permutation without inversions, for any weak order |
| Basics.StringLessMeaning | pkg/proxy/endpointslicecache.go:396-412 | strings compare by their first difference, a proper prefix being less |
| HostPort.PortRoundTrip | pkg/proxy/util/endpoints.go:52-65 | PortPart gives back the port exactly for hosts without brackets (or one bracketed, colon-free word); always for bracket-free hosts |
| HostPort.HostRoundTrip | pkg/proxy/endpoints.go:120-132 | a host without brackets comes back with the printed port |
| HostPort.PrintedEndpoints | pkg/proxy/endpoints.go:120-132 | an IPv4 endpoint prints as "10.0.0.1:80", an IPv6 one as "[fe80::1]:443" |
| HostPort.BracketHostLosesPort | pkg/proxy/util/endpoints.go:52-65 | the port of host "a[" does not come back |
| HostPort.EndpointStringInjective | pkg/proxy/endpoints.go:120-132 | distinct (address, port) pairs print to distinct endpoint strings, for all hosts |
| HostPort.AtoiOfItoa | pkg/proxy/util/endpoints.go:59-63 | parsing a printed number gives it back |
| Aggregation.AddEndpoint | pkg/proxy/endpointslicecache.go:268-304 | one endpoint more keeps the set deduplicated by endpoint string, with a local holder whenever one contributed |
| Aggregation.AddEndpoints | pkg/proxy/endpointslicecache.go:262-307 | the set deduplicates what it did before plus what these endpoints contribute |
| Aggregation.AddPort | pkg/proxy/endpointslicecache.go:237-255 | only a named, non-zero port adds contributions, and only under its own name |
| Aggregation.AddSlice | pkg/proxy/endpointslicecache.go:237-256 | the grouping gains exactly the contributions of one slice |
| Aggregation.EndpointInfoByServicePort | pkg/proxy/endpointslicecache.go:233-259 | every port name has the deduplicated set of all contributions under it, whatever the order of slices |
| Aggregation.SortedValues | pkg/proxy/endpointslicecache.go:349-357 | the list has each value of the set exactly once and strictly increases by endpoint string |
| Aggregation.EndpointsMapFromEndpointInfo | pkg/proxy/endpointslicecache.go:345-364 | only non-empty sets are listed, each list a permutation of its set's values, strictly increasing, local iff a contributor of that string is local |
| Aggregation.GetEndpointsMap | pkg/proxy/endpointslicecache.go:227-230 | the result meets an order-free description in terms of the slices |
| Aggregation.EndpointsMapMeaning | pkg/proxy/endpointslicecache.go:227-364 | on the fields of the slices: an endpoint string is listed under a port name exactly when some slice has a port of that name with a non-zero number and an endpoint whose first address is of the cache's family and prints to it; the endpoint listed is local iff one of these is on this host, and has the conditions, node and zone of one of them; lists strictly increase |
| Aggregation.OrderIndependent | pkg/proxy/endpointslicecache.go:227-364 | two results for the same slices are the same up to Endpoint.Equal, whatever iteration orders and sorts chose |
| Aggregation.KeyIffContributed | pkg/proxy/endpointslicecache.go:233-364 | a port name is listed exactly when something was contributed under it |
| Aggregation.DeduplicationMergesOnlyEquals | pkg/proxy/endpointslicecache.go:295-303 | endpoints merged by string have the same address and port |
| SliceCache.EndpointSliceCache.UpdatePending | pkg/proxy/endpointslicecache.go:167-190 | invalid keys change nothing and return false; otherwise the pending slice is replaced exactly when the flag returned is true |
| SliceCache.EndpointSliceCache.EsInfoChanged | pkg/proxy/endpointslicecache.go:315-341 | the three-way comparison against pending, then applied, then nothing |
| SliceCache.EndpointSliceCache.CheckoutChanges | pkg/proxy/endpointslicecache.go:194-224 | terminates; exactly one change per service with pending slices, from its applied slices before and after; every tracker committed, nothing pending |
| SliceCache.EndpointSliceCache.CommitTracker | pkg/proxy/endpointslicecache.go:208-216 | deleting while iterating empties pending and makes applied the overlay of pending on applied |
| SliceCache.OverlayKeptByOneCommit | pkg/proxy/endpointslicecache.go:208-216 | committing one pending slice, tombstone or not, leaves the overlay unchanged |
| SliceCacheRuns.UpdateFollowsRun | pkg/proxy/endpointslicecache.go:167-190 | calling the method extends a run by a legal update event with the flag the run predicts; trackers are only added fresh, so calls can follow one another |
| SliceCacheRuns.CheckoutFollowsRun | pkg/proxy/endpointslicecache.go:194-224 | calling the method extends a run by a legal checkout event |
| SliceCacheRuns.Drive | pkg/proxy/endpointslicecache.go:167-224 | any sequence of updates and checkouts on a new cache ends in the last state of a legal run of these calls |
| SliceCacheRuns.OverlayIsLastWrite | pkg/proxy/endpointslicecache.go:167-224 | in every reachable state pending overlaid on applied is the last-write-wins map of all valid calls, by namespace, service label and name of the slice |
| SliceCacheRuns.UpdateWritesSlice | pkg/proxy/endpointslicecache.go:167-190 | after an update the service of the slice's label, in its namespace, has the record under the slice's name (none after a removal), and nothing else changes |
| SliceCacheRuns.AppliedHasNoTombstones | pkg/proxy/endpointslicecache.go:208-216 | applied never holds a tombstone |
| SliceCacheRuns.ResultTellsChange | pkg/proxy/endpointslicecache.go:167-190 | an update returns true iff the last-write-wins map changes; a removal iff the slice was there or only the pending tombstone differs; false leaves the state as it was |
| SliceCacheRuns.RepeatedRemovalReported | pkg/proxy/endpointslicecache.go:315-341 | a legal run whose last removal is reported although no last-written slice changes |
| SliceCacheRuns.CheckoutAppliesLastWrites | pkg/proxy/endpointslicecache.go:194-224 | a checkout makes applied the last-write-wins map, empties pending and changes no overlay |
| SliceCacheRuns.SecondCheckoutIsEmpty | pkg/proxy/endpointslicecache.go:194-224 | an immediate second checkout reports nothing and changes nothing |
| SliceCacheRuns.CheckoutReportsUpdated | pkg/proxy/endpointslicecache.go:194-224 | a checkout reports exactly the services for which updatePending returned true since the checkout before |
| SliceCacheRuns.PreviousIsLastReported | pkg/proxy/endpointslicecache.go:194-307 | in every run each change's previous agrees with the current of the same service's latest earlier change, empty if there was none, although both are recomputed |
| SliceCacheRuns.ChangeSpansInterval | pkg/proxy/endpointslicecache.go:194-224 | previous lists exactly what the slice objects last written when the interval opened expose, current what those last written when it closes expose, on the fields of these objects |
| SliceCacheRuns.MovedEndpointStays | pkg/proxy/endpointslicecache.go:44-50 | an endpoint string exposed by one slice when the interval opens and by another when it closes is in both previous and current |
| Shuffling.ShuffleStrings | pkg/proxy/util/utils.go:282-292 | the shuffled copy is a permutation of its argument |
| Shuffling.SlicesEquiv | pkg/proxy/userspace/roundrobin.go:100-107 | true iff the multisets are equal; both arrays are only permuted |
| Shuffling.SortedStringsUnique | pkg/proxy/userspace/roundrobin.go:104-106 | two sorted lists of the same strings are equal |
| Balancer.BuildPortsToEndpointsMap | pkg/proxy/userspace/utils.go:320-331 | the endpoint strings per port name, in order; a name is present only with a non-empty list |
| Balancer.AddressesMeaning | pkg/proxy/userspace/utils.go:320-331 | a string is listed under a port name iff some address and some port of that name print to it |
| UserspaceGuarantees.UniquePortAddresses | pkg/proxy/userspace/utils.go:320-331 | for a port name that no other port has, the list is one string per address, in order |
| Balancer.LoadBalancerRR.NewService | pkg/proxy/userspace/roundrobin.go:61-67 | a missing entry appears empty, a present one keeps list and position, nothing else changes |
| Balancer.LoadBalancerRR.NewServiceInternal | pkg/proxy/userspace/roundrobin.go:180-189 | the same, returning the state kept under the name |
| Balancer.LoadBalancerRR.DeleteService | pkg/proxy/userspace/roundrobin.go:191-196 | exactly the one entry is gone |
| Balancer.LoadBalancerRR.OnEndpointsAdd | pkg/proxy/userspace/roundrobin.go:69-96 | every port name of the new map holds a permutation of its endpoints from position 0; no other entry changes |
| Balancer.LoadBalancerRR.OnEndpointsUpdate | pkg/proxy/userspace/roundrobin.go:109-152 | names in the new map hold a permutation of their endpoints, keeping order and position when the multiset already matched; names only in the old map are empty with position 0; no other entry changes |
| Balancer.LoadBalancerRR.ResetService | pkg/proxy/userspace/roundrobin.go:154-164 | a present entry becomes empty with position 0 |
| Balancer.LoadBalancerRR.OnEndpointsDelete | pkg/proxy/userspace/roundrobin.go:166-177 | exactly the port names of the object are reset |
| Balancer.LoadBalancerRR.NextEndpoint | pkg/proxy/userspace/roundrobin.go:215-268 | never indexes out of range; one error exactly when the entry is missing, another exactly when it is empty; otherwise returns the endpoint at the current position and moves to the next, wrapping |
| BalancerRuns.ReachableTablesValid | pkg/proxy/userspace/roundrobin.go:69-268 | in every reachable table an index is 0 for an empty list and within bounds otherwise |
| BalancerRuns.AddOnFields | pkg/proxy/userspace/roundrobin.go:69-96 | on the fields of the objects: the port names of the service list exactly the addresses of the object, from position 0; every other entry stays |
| BalancerRuns.UpdateOnFields | pkg/proxy/userspace/roundrobin.go:109-152 | the same unless the entry stays as it was; without a new address exactly the names the old object had addresses for are cleared; every other entry stays |
| BalancerRuns.DeleteOnFields | pkg/proxy/userspace/roundrobin.go:166-177 | exactly the port names of the service are cleared, if the object has an address |
| BalancerRuns.Drive | pkg/proxy/userspace/roundrobin.go:61-268 | any sequence of calls on a load balancer ends in the last table of a run of these calls |
| BalancerRuns.KeptEntry | pkg/proxy/userspace/roundrobin.go:61-268 | calls about other ports, NewService and updates with the same multiset keep list and position |
| BalancerRuns.ServedIsRotation | pkg/proxy/userspace/roundrobin.go:215-268 | whatever is interleaved, the served positions are a rotation from the starting one |
| BalancerRuns.RoundRobinIsFair | pkg/proxy/userspace/roundrobin.go:215-268 | each of n positions is served floor(m/n) or ceil(m/n) times in m calls, and which of the two |
| BalancerRuns.ReachedIsMinimum | pkg/proxy/userspace/roundrobin.go:215-268 | m calls reach min(m, n) different positions |
| Connecting.TryConnect | pkg/proxy/userspace/utils.go:171-203 | fails without dialling, with the error of the balancer, iff the balancer errs; otherwise the log of dials grows by one to four dials to the endpoints in rotation, with timeouts of 250, 500, 1000 and 2000 milliseconds, of which all but the last failed; the outcome is that of the last dial, and giving up takes all four |
| Connecting.FailureTriesEnough | pkg/proxy/userspace/utils.go:171-203 | four dials that all failed have tried every endpoint of a list of at most four, each as often as it is listed, and four different positions of a longer list |
| Portals.Proxier.GetListenIPPortMap | pkg/proxy/userspace/utils.go:268-287 | first cluster IP and external IPs on the port, all interfaces on the node port if there is one |
| Portals.Proxier.AddServicePortPortal | pkg/proxy/userspace/proxier.go:328-373 | on success a live info of its own, with an open socket, is mapped with the IP, the listen port and the protocol, on failure nothing changes but the log of failures; every mapped info stays alive, with an open socket, and under one name |
| Portals.Proxier.MergeService | pkg/proxy/userspace/proxier.go:195-265 | each asked-for portal gets an offered port and protocol or is left alone; the flag tells whether nothing was added to the log of failures, and then all are on their ports; if no port overrides another, only then, and portals that were on their port already keep their protocol; missing load balancer entries appear empty |
| Portals.Proxier.StopProxyInternal | pkg/proxy/userspace/proxier.go:400-405 | the portal is unmapped, its info no longer alive and its socket closed, whether or not closing reports an error; every info still mapped is alive, with an open socket, and under one name |
| Portals.Proxier.UnmergeService | pkg/proxy/userspace/proxier.go:267-320 | exactly the service's portals outside the existing ones go, and the load balancer entries of port names without an existing portal |
| Portals.Proxier.OnServiceAdd | pkg/proxy/userspace/proxier.go:140-143 | merges the service, with the flag and the log of failures as for MergeService |
| Portals.Proxier.OnServiceUpdate | pkg/proxy/userspace/proxier.go:147-151 | the new version is merged, with flag and log as for MergeService; what only the old version asked for is gone, entries of surviving port names stay |
| Portals.Proxier.OnServiceDelete | pkg/proxy/userspace/proxier.go:155-158 | all portals and load balancer entries of the service are gone, no others |
| Portals.KeptNamesAreNew | pkg/proxy/userspace/proxier.go:278-319 | the port names an update keeps in the load balancer are those of the new version |
| UserspaceGuarantees.PortalTableMeaning | pkg/proxy/userspace/utils.go:268-287 | a service asks for a portal exactly if some port of it does, on the first cluster IP, an external IP or, with a node port, all interfaces; the last port that does sets protocol and listen port: its node port on all interfaces, and its own port otherwise |
| UserspaceSink.Backend.AddService | pkg/proxy/userspace/sink.go:39-50 | the service is recorded, keeping the endpoint object |
| UserspaceSink.Backend.AddEndpoint | pkg/proxy/userspace/sink.go:52-63 | only the first endpoint object of a service is recorded |
| UserspaceSink.Backend.SetService | pkg/proxy/userspace/sink.go:107-114 | records, portals and load balancer after an add or an update from the recorded version; the call counts as succeeded iff nothing was added to the log of failures; only fresh objects are added |
| UserspaceSink.Backend.DeleteService | pkg/proxy/userspace/sink.go:116-122 | a recorded service loses its record, portals and entries; an unknown one changes nothing; no object is added |
| UserspaceSink.Backend.SetEndpoint | pkg/proxy/userspace/sink.go:124-132 | the load balancer is told an addition for the first object and an update from the first object otherwise; only fresh objects are added |
| UserspaceSink.Backend.DeleteEndpoint | pkg/proxy/userspace/sink.go:134-138 | the ports of the recorded object are reset |
| UserspaceRuns.InvariantInEveryRun | pkg/proxy/userspace/sink.go:107-138 | after every run, whichever adds fail: portals are among those the live services ask for; the balancer's keys are exactly the (service, port name) pairs of live services; services without an endpoint object have empty lists; all positions are in range |
| UserspaceDriver.Drive | pkg/proxy/userspace/sink.go:107-138 | any sequence of calls a new backend may be given ends in the last state of a run of these calls, with that invariant; a SetService of the run counts as succeeded iff it added nothing to the log of failures |
| UserspaceDriver.SomeRun | pkg/proxy/userspace/sink.go:107-138 | every sequence of calls that may be made in turn has a run in which all its portals open: none gets stuck |
| UserspaceDriver.LogTellsFailures | pkg/proxy/userspace/proxier.go:328-373 | over any sequence of calls the log of failures stays as it was iff every portal of every call could be opened |
| UserspaceGuarantees.PortalsOfLiveServices | pkg/proxy/userspace/sink.go:107-122 | once every portal could be opened in its latest SetService since it was last deleted, a service has exactly the portals it asks for with their listen ports; if no port of it overrides another, only then; one that is gone has none |
| UserspaceGuarantees.SetServiceExact | pkg/proxy/userspace/proxier.go:195-265 | after a SetService of a version in which no port overrides another, the portals are exactly those it asks for iff none failed to open |
| UserspaceGuarantees.SetServiceStaysInName | pkg/proxy/userspace/sink.go:107-114 | SetService records the service under its own namespace and name; records, portals and load balancer entries under any other namespace or name stay |
| UserspaceGuarantees.SetServiceProtocol | pkg/proxy/userspace/proxier.go:210-247 | if no port overrides another, a portal that is on its port already keeps its protocol whatever the new version says, and any other that opens gets the protocol asked for |
| UserspaceGuarantees.StaleProtocolRun | pkg/proxy/userspace/proxier.go:210-247 | there is a run after which a portal has a protocol its service no longer declares, although nothing failed |
| UserspaceGuarantees.DrivePortals | pkg/proxy/userspace/sink.go:107-138 | whatever calls a new backend is given: if nothing was added to the log of failures, every service ends up with exactly the portals it asks for, and otherwise each service whose latest SetService did not fail |
| UserspaceGuarantees.PortalPortsWereOffered | pkg/proxy/userspace/proxier.go:195-265 | whatever fails, a mapped portal has a port and protocol that some port of some version of its service set so far asked for |
| UserspaceRuns.ServiceUpdateKeepsLists | pkg/proxy/userspace/proxier.go:246-319 | SetService keeps order and position of surviving port names, starts new ones empty, deletes vanished ones, leaves other services alone |
| UserspaceGuarantees.SetEndpointReplaces | pkg/proxy/userspace/sink.go:124-132 | a list is replaced by the new object's addresses iff that object has one, or the first object had one, or there is nothing to clear |
| UserspaceGuarantees.DeleteEndpointEmpties | pkg/proxy/userspace/sink.go:134-138 | the lists are emptied iff the first object had an address or they were empty |
| UserspaceGuarantees.SetServiceKeepsAddresses | pkg/proxy/userspace/proxier.go:246-319 | a new port name has an empty list; a surviving list that held an object's addresses still does iff the new version gives the port the same ones, in some order |
| UserspaceGuarantees.SetServiceKeepsPorts | pkg/proxy/userspace/proxier.go:246-319 | for unique port names, a list that held an object's addresses still does after SetService iff the object has none or the port kept its number |
| UserspaceGuarantees.StalePortRun | pkg/proxy/userspace/proxier.go:246-319 | there is a run after which a list holds an address with a port number its service no longer declares |
| UserspaceGuarantees.StaleListRun | pkg/proxy/userspace/sink.go:52-63 | there is a run after which an address that the latest object does not have is still listed |
| UserspaceGuarantees.ServedFromLatestEndpoint | pkg/proxy/userspace/sink.go:124-132 | while the latest call about a service is a SetEndpoint with an address, every port's list is a permutation of exactly its addresses |
| UserspaceGuarantees.ConnectionsReachLatestEndpoint | pkg/proxy/userspace/roundrobin.go:215-268 | a connection is then sent to one of them |
| UdpClients.StepKeepsInvariant | pkg/proxy/userspace/utils.go:96-153 | every atomic step keeps the agreement between the map and the readers that have not deleted |
| UdpClients.MappedIffOneReader | pkg/proxy/userspace/utils.go:96-153 | under every interleaving an address is mapped iff exactly one reader for it has not deleted, to that reader's own connection, which is not closed |
| UdpClients.DeleteRemovesOwnConnection | pkg/proxy/userspace/utils.go:150-152 | a delete removes the deleting reader's own connection and never a newer one |
| UdpClients.MappedUntilOwnDelete | pkg/proxy/userspace/utils.go:96-153 | a mapped connection stays until its own reader deletes it |
| UdpClients.OpensIsRecorded | pkg/proxy/userspace/utils.go:96-120 | opening maps the address to a connection of its own and starts its reader; nothing else changes |
| UdpClients.MappedIffLatestOpens | pkg/proxy/userspace/utils.go:96-153 | under every interleaving the map is given by the steps alone: an address is mapped exactly while its latest Opens is later than the latest delete by a reader for it, and to that connection |
| UdpClients.ReadersFollowSteps | pkg/proxy/userspace/utils.go:114-153 | there is a reader exactly for each connection that was recorded, for its address, as far as its own steps have taken it |
| UdpClients.DeletedBetweenOpens | pkg/proxy/userspace/utils.go:96-153 | between two Opens of one address the first connection's reader has deleted |
| UdpClients.ClosesOnceAfterDelete | pkg/proxy/userspace/utils.go:127-153 | a reader closes its connection only after its delete, and only once |
| ServiceTracker.ServiceToServiceMap | pkg/proxy/service.go:169-197 | no map for no service or no cluster IP, kept apart from an empty map |
| ServiceTracker.ServiceMapKeys | pkg/proxy/service.go:182-196 | the keys are exactly the namespace and name of the service with the name and protocol of each port |
| ServiceTracker.ServiceMapValues | pkg/proxy/service.go:182-196 | each key holds the info of the last port with it: its port and node port, the service's parsed cluster IP and hints, or what the factory makes of them |
| ServiceTracker.SameTranslation | pkg/proxy/service.go:169-197 | without a factory two versions translate to the same map exactly when, under every key, they agree on port, node port, parsed cluster IP and hints |
| ServiceTracker.ServiceChangeTracker.Update | pkg/proxy/service.go:211-242 | nothing for no service; otherwise the item keeps its first previous, takes the new current and goes when they agree; true iff an item is left |
| WinkernelSink.Proxier.OnServiceUpdate | pkg/proxy/winkernel/proxier.go:240-256 | adds, updates and deletions are Update calls; a sync is asked for iff an item is left and the proxier is initialized |
| WinkernelSink.Backend.SetService | pkg/proxy/winkernel/sink.go:81-93 | one step of a run, from the persistent version if there is one; only fresh objects are added |
| WinkernelSink.Backend.DeleteService | pkg/proxy/winkernel/sink.go:95-102 | one step of a run; the persistent version goes; only fresh objects are added |
| WinkernelSink.Drive | pkg/proxy/winkernel/sink.go:81-102 | any sequence of calls takes the tracker to the state after the run of these calls |
| WinkernelSink.PersistentServicesAreLive | pkg/proxy/winkernel/sink.go:81-102 | after every run PersistentServices holds exactly the latest versions of the live services |
| WinkernelSink.ItemsAreNetChanges | pkg/proxy/service.go:211-242 | after every run that starts without items, a service has an item iff its starting and latest versions translate differently, and the item holds these two translations |
| WinkernelSink.PendingIffNetChange | pkg/proxy/service.go:229-241 | an item is left iff some service has a net change |
| HnsEndpoints.EndpointInfo.constructor | pkg/proxy/winkernel/endpoints.go:103-126 | the parsed port modulo 65536 (0 if it does not parse), locality and conditions of the base info, no HNS endpoint, and a counter of its own at 0 |
| HnsEndpoints.EndpointInfo.Cleanup | pkg/proxy/winkernel/endpoints.go:128-148 | a remote endpoint with a counter lets go of it, counts it down with 16-bit wrap-around and deletes its HNS endpoint iff the counter was 1; otherwise nothing changes |
| HnsEndpoints.CleanupFresh | pkg/proxy/winkernel/endpoints.go:103-148 | a remote endpoint cleaned up right after it was built leaves its counter at 65535 and deletes nothing |
| HnsEndpoints.CleanupOne | pkg/proxy/winkernel/endpoints.go:128-148 | with counters equal to holders, a cleanup keeps that and deletes iff it was the last holder's |
| HnsEndpoints.CleanupEndpoints | pkg/proxy/winkernel/endpoints.go:182-189 | a list of cleanups keeps the agreement and deletes, in order, what becomes unheld |
| Releases.ReleaseKeepsAgreement | pkg/proxy/winkernel/endpoints.go:128-148 | counting down never starts at 0 and reaches 0 exactly at the last holder |
| Releases.UnheldOnceAllRelease | pkg/proxy/winkernel/endpoints.go:128-148 | what all holders release becomes unheld exactly once, anything else never |
| Releases.UnheldInAnyOrder | pkg/proxy/winkernel/endpoints.go:150-158 | order and repetitions of cleanups do not matter |
| Releases.RepeatsAddNothing | pkg/proxy/winkernel/endpoints.go:150-158 | cleaning up again deletes nothing more |
| HnsEndpoints.DeletedOnceAllCleanedUp | pkg/proxy/winkernel/endpoints.go:128-192 | with one counter per HNS id, an HNS endpoint is deleted once iff all its holders are cleaned up, and otherwise not at all |
| HnsServices.ServiceInfo.DeleteAllHnsLoadBalancerPolicy | pkg/proxy/winkernel/hns.go:120-137 | the load balancers the service knows are deleted in order, its own first and then each address's, and none stays known |
| HnsServices.ServiceInfo.ToDeleteIsKnown | pkg/proxy/winkernel/hns.go:120-137 | besides empty ids, exactly those known to the service itself, its external or its ingress addresses are deleted |
| HnsServices.IssuedAt | pkg/proxy/winkernel/hns.go:129-136 | each address is asked for once, in turn |
| HnsServices.IssuedAreKnown | pkg/proxy/winkernel/hns.go:129-136 | what the two loops delete is exactly what the addresses know, besides empty ids |
| HnsServices.ServiceInfo.CleanupAllPolicies | pkg/proxy/winkernel/hns.go:139-155 | the load balancers deleted as above; the listed endpoints and the remote endpoint, in this order, let go of their counters; no policy applied |
| HnsServices.Proxier.OnEndpointsMapChange | pkg/proxy/winkernel/endpoints.go:160-192 | the current endpoints of the port, and the remote endpoint of a known service, are cleaned up and hold no counter; a known service deletes and forgets its load balancers and policy, other services stay as they are; counters stay equal to holders |
| HnsServices.Proxier.EndpointsMapChange | pkg/proxy/winkernel/endpoints.go:150-158 | exactly the endpoints listed for the ports in either map and the remote endpoints of their services are cleaned up, and none holds a counter; exactly the load balancers known to these services are deleted, and these services know none and have no policy applied; counters stay equal to holders |
| HnsServices.ForgetOneMore | pkg/proxy/winkernel/endpoints.go:150-158 | one more service cleaned up keeps that what was known and is forgotten has been deleted, that nothing else was, and that all cleaned up so far know none |

## Left out

- Basics.Sort: stands for sort.Sort on copied sequences, not for its algorithm or its work in place; only SlicesEquiv sorts arrays in place.
- EndpointSlices.NewEndpointSliceInfo: DeepEqual's distinction between nil and empty address slices is not modelled, and zone hints are always nil in the code.
- SliceCache.EndpointSliceCache.CheckoutChanges: the factory is the default one, which returns the base info itself; the winkernel factory is modelled only in HnsEndpoints.
- Aggregation.AddEndpoint: the IP family test is a parameter, and the event for a wrong family is not emitted.
- HostPort.PortRoundTrip: the character classes of SplitHostPort are modelled; IPPart and its validation are not.
- Balancer.BuildPortsToEndpointsMap: an endpoint object without any IP set makes the code dereference nil; here it has a possibly empty list.
- Balancer.LoadBalancerRR.NextEndpoint: session affinity is commented out in the code, so affinity state is not modelled.
- Connecting.TryConnect: a dial is a free choice of outcome, logged with its arguments; the time it takes is not modelled; running out of file handles, which panics, is an outcome here.
- Portals.Proxier.AddServicePortPortal: address parsing, netsh and socket outcomes are one free choice; the info a re-added portal replaces, whose socket stays open, and the proxy loops started here are not modelled.
- Portals.Proxier.StopProxyInternal: the error closing the socket may report is a free choice; deleting the IP address afterwards, which may also fail, has no further effect on the maps.
- UserspaceSink.Backend.SetEndpoint: an unknown service makes the code dereference nil, so the service must be recorded; DeleteEndpoint likewise needs a recorded endpoint object.
- UdpClients.StepKeepsInvariant: the cache is taken to exist, although its construction is commented out; a connection whose deadline cannot be set is never recorded or closed, as in the code; buffers and writes are not modelled.
- ServiceTracker.ServiceToServiceMap: the cluster IP lookup, which is a stub returning "", the IP parser and the factory are parameters; fields newBaseServiceInfo leaves at their zero values are omitted.
- WinkernelSink.Proxier.OnServiceUpdate: waking the sync runner is only the flag returned; syncProxyRules is commented out in the code.
- HnsEndpoints.EndpointInfo.constructor: IP and MAC address of the endpoint, which need an IP parser, are not modelled.
- HnsServices.Proxier.EndpointsMapChange: acquiring shared counters happens only in commented-out code, so agreement of counters and holders is where the runs start; a service's remote endpoint is constant.
- HnsServices.ServiceInfo.DeleteAllHnsLoadBalancerPolicy: deletions are a log; their results are ignored as in the code.
- Locks, logging, metrics, events, flags and process set-up.
- hnsV1, hnsV2 and netsh: foreign calls, seen only through free outcomes and logs.
- Session affinity clean-up, CIDR and IP-family helpers, line writers: easy members only.
