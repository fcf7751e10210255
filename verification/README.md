# free5GC SMF: a verified model of the session management core

A Dafny model of the stateful algorithms of the free5GC Session Management Function, with proofs
about every run of them. A module models one component; classes have the fields that the source
updates in place, and every method is proved against a function or a property of its inputs.

**UE addresses.** `LazyReusePool` is the linked list of free intervals, rewritten in place; each
method computes an operation on lists (`PoolList`), of which `PoolOrder` says what it does to the order
of the free values. `PoolRuns` proves about whole runs of these operations that the list refines a plain
set and a plain list of free integers, although it is not sorted, in which order values are reused, and
exactly when a value that is already free is accepted again.
`IpAddresses` has masks and ranges bit by bit. `UeAddresses` has the pools of the UPFs, how they are
configured and deleted, and sessions that take and give back addresses: no dynamic address is held
twice while configurations are harmless, every address of a pool is free or held, and a release
reaches the pool that issued the address.

**Topology.** `Topology` proves the depth-first search exact, `UserPlaneInformation` keeps links and
path cache in agreement over any run of edits, `AllPaths` enumerates simple paths, `UlclAnchors` and
`AnchorSelection` are the two breadth-first searches with the order in which they visit nodes,
`BranchingPoints` picks the branching point.

**Data paths.** `DataPaths` builds the doubly linked list and sets up tunnels, PDRs, FARs and QERs on
it, and says exactly when that completes, gives up or panics; `Tunnels` has the pool of a session and
the update of the access network's address; `PacketRoutes` follows a packet over the rules of an
activated path, with the headers each node strips and adds, end to end in both directions.

**Policy and PFCP.** `PolicyRules` merges a policy decision into the installed rules and replaces their
paths in two phases; `PolicyMerges` has what such a merge may end with, rule by rule, and `PolicyQfis` the
QFIs that the rules get. `PfcpRequests` and
`PfcpSessions` decide from rule states what enters a request of 3GPP TS 29.244 (sections 7.5.2 and
7.5.4). A request is clean if it creates only new rules, PDRs and FARs under ids not in use at the UPF,
and touches and refers to only what is there; over any run of changes and requests that meets the stated
conditions all requests are clean, and QER ids are free until a path with QERs is removed. `UrrTable`
counts the references that PDR objects hold, though their ids recur.

**Filters and charging.** `PacketFilters` proves that NAS packet filters (section 9.11.4.13 of 3GPP
TS 24.501) match what the flow matches, and when they do not. `Charging` proves that usage reports
are neither lost nor counted twice.

`Wrappers` has `Option` and the choice of an arbitrary element, which stands for the iteration over
a map. `RuleStates` has the states of a rule. `IdGenerators` gives any unused id of a range, or none.
Locks are modelled as atomic steps.

## Where the code falls short

- A value that is already free is accepted by `Free` in one position of the list
  (`PoolRuns.DuplicateFreeAccepted`; `PoolRuns.DuplicateFree` says exactly when).
- A port range 0-0 becomes a filter for every port (`PacketFilters.ZeroRangeWidens`; exact condition
  in `PacketFilters.PreservedExactly`). An SPI from 80000000 up is refused, since it is parsed as a
  signed number of 32 bits. After an error the identifiers already taken stay taken.
- Volumes from 2^31 up are reported too low, the total as well as the uplink and downlink volumes
  (`Charging.VolumeConserved`, `Charging.LargeVolumeLost`).
- Activation of a path reads through a missing N9 interface, through the session rule when none is
  selected, and through its AMBR when it has none. `DataPaths.DataPath.ActivateTunnelAndPDR` and
  `DataPaths.NodePanics` say exactly when; `DataPaths.MissingN9Panics` and `DataPaths.MissingAmbrPanics`
  are such paths.
- If activation leaves a node of a new rule's path without PDRs, the rule's flow description is written
  into them all the same, which panics (`PolicyRules.WithoutPdrsRun`). It does so exactly if a UPF had no
  room for the rules (`DataPaths.DataPath.ActivateTunnelAndPDR`).
- Finding the branching point reads past the end of an activated path that is a proper prefix of the
  activating one (`BranchingPoints.BPManager.FindULCL`, `BranchingPoints.OverrunRun`).
- A path that is marked for removal before its PDRs and FARs were created, at a UPF where the session
  already exists, makes the next request ask for the removal of what is not there
  (`PfcpSessions.PfcpSession.RemoveAndSend` says exactly when, `PfcpSessions.MarkedTooEarlyRun` is a
  run). Where the session does not exist yet the next request is an establishment, which removes nothing.
- An access network update before the downlink FAR was created makes the next request refer to a FAR
  that does not exist, and no later one creates it (`PfcpSessions.PfcpSession.UpdateAndSend`,
  `PfcpSessions.PfcpSession.Run`, `PfcpSessions.UpdatedTooEarlyRun`).
- QERs are never removed from a UPF, but their ids are given back with the paths, so a new QER can be
  created under an id still in use there: exactly after a round that dropped a path with QERs at that UPF
  (`PfcpSessions.LooseExactly`; `PfcpSessions.QerIdReusedRun` is such a run).
- If a UPF is deleted while a session holds one of its addresses, a UPF configured later may issue that
  address again. `UeAddresses.UserPlane.UpNodesFromConfiguration` says exactly for which topologies,
  `UeAddresses.UserPlane.DeleteConfigureEstablish` is a run that ends with two sessions on one address.
  The handler that deletes also starts to release the UPF's sessions in the background
  (internal/sbi/processor/association.go lines 163 to 181): the run is the window before a session has
  been released, and it is open for sessions in the states that are skipped there.
- A policy decision that fails is not undone. An installed rule keeps a path that is marked to be dropped
  exactly if it was tried and either the decision names it or its own new path could not be made; else
  it has moved to its new path (`PolicyRules.SMContext.ApplyPccRules`, `PolicyRules.MarkedRun`,
  `PolicyRules.MovedRun`).
- A rule that is kept while its QoS data are nulled keeps its QFI, which is free to be given to other QoS
  data (`PolicyRules.NulledQfiRun`). Else rules keep the QFI of their QoS data (`PolicyQfis.StaysCurrent`,
  `PolicyQfis.StaleIsNotCurrent`).
- Deleting the access network leaves cached paths that started next to it. They are walks from another
  one exactly if they start next to that (`UserPlaneInformation.WalkFromSource`,
  `UserPlaneInformation.StalePathRun`).
- `PDRReleaseURRs` is defined and keeps the counts right, but nothing in the repository calls it, so
  no URR is ever marked for removal by it.

## Model

| member | source | states |
|---|---|---|
| LazyReusePool.Pool.New | internal/context/pool/lazyReusePool.go:33-44 | a new pool has exactly its range free, an empty range gives none |
| LazyReusePool.Pool.Allocate | internal/context/pool/lazyReusePool.go:46-60 | the linked list, its counter and the answer are those of taking the first free value; the other free values keep their order |
| LazyReusePool.Pool.Use | internal/context/pool/lazyReusePool.go:62-87 | it answers whether the value was free; the list of free values loses it and keeps the order of the others, and ascending segments stay ascending |
| LazyReusePool.Pool.Free | internal/context/pool/lazyReusePool.go:89-161 | the rewritten list is that of the list operation in every position, the value goes behind every value of the head and moves no other, the answer is false exactly when that refuses, and the counter follows |
| LazyReusePool.Pool.Reserve | internal/context/pool/lazyReusePool.go:163-202 | the list of free values loses exactly an interval of the range and keeps the order of the others, ascending segments stay ascending; anything else is refused |
| LazyReusePool.Segment.Split | internal/context/pool/lazyReusePool.go:247-269 | the values of the segment, and of the new one linked behind it, are those before without the value and in the same order |
| LazyReusePool.Segment.CutOut | internal/context/pool/lazyReusePool.go:168-187 | what is left of a segment when an interval is cut out of it, in the same order |
| PoolOrder.UseKeepsOrder | internal/context/pool/lazyReusePool.go:62-87 | the list of free values loses the first occurrence of the value that is used, and no other value moves |
| PoolOrder.ReserveKeepsOrder | internal/context/pool/lazyReusePool.go:163-202 | the list of free values loses exactly those of the reserved interval, and no other value moves |
| PoolOrder.FreePuts | internal/context/pool/lazyReusePool.go:89-161 | a value that is given back is put into the list of free values once, behind every value of the head |
| PoolOrder.UseKeepsAscending | internal/context/pool/lazyReusePool.go:62-87 | ascending segments with gaps between them stay so when a value is used |
| PoolOrder.ReserveKeepsAscending | internal/context/pool/lazyReusePool.go:163-202 | and when an interval is reserved |
| PoolRuns.PoolRefinesSet | internal/context/pool/lazyReusePool.go:46-202 | in every run that frees only values not free, the pool answers as a set of free integers would, segments stay disjoint and in range, and the counter is the set's size |
| PoolRuns.StepIsSetStep | internal/context/pool/lazyReusePool.go:46-202 | each call changes the free set by exactly its value or interval |
| PoolRuns.PoolRefinesList | internal/context/pool/lazyReusePool.go:46-202 | in every run, whatever is given back, the pool answers as a list of free integers would: taken from the front, put back behind the head, and in order otherwise |
| PoolRuns.LeastFirst | internal/context/pool/lazyReusePool.go:46-202 | until something is given back, every run of a new pool allocates the least value that is free |
| PoolRuns.StepKeepsTailSorted | internal/context/pool/lazyReusePool.go:105-161 | Allocate and valid Free keep the segments behind the head ascending and apart |
| PoolRuns.DuplicateFree | internal/context/pool/lazyReusePool.go:89-161 | exactly when giving back a free value is refused without effect, for any pool and position |
| PoolRuns.DuplicateFreeInRun | internal/context/pool/lazyReusePool.go:89-161 | after any run of Allocate and valid Free a free value is accepted again exactly if it follows the head |
| PoolRuns.DuplicateFreeAccepted | internal/context/pool/lazyReusePool.go:127-133 | a concrete run after which a free value is accepted and is then in two segments |
| PoolRuns.HeadFirst | internal/context/pool/lazyReusePool.go:46-60 | until the head is used up, allocation hands out its values in ascending order whatever is given back |
| PoolRuns.FreedValueWaits | internal/context/pool/lazyReusePool.go:105-126 | a value given back is not reused before every value that was then in the head |
| PoolRuns.DrainInListOrder | internal/context/pool/lazyReusePool.go:46-60 | draining yields as many values as the counter says, in list order, and then fails |
| PoolRuns.DrainedAreDistinct | internal/context/pool/lazyReusePool.go:46-60 | the drained values are distinct and exactly the free ones |
| PoolList.SizeCountsFree | internal/context/pool/lazyReusePool.go:216-218 | the summed segment lengths are the size of the free set |
| IpAddresses.ContainsIsRange | internal/context/ue_ip_pool.go:136-146 | under a prefix mask a subnet contains exactly the addresses between the first and last that are computed |
| IpAddresses.OnlyPrefixMasks | internal/context/ue_ip_pool.go:136-146 | for any other mask some address in the range is not contained |
| IpAddresses.RangeNotEmpty | internal/context/ue_ip_pool.go:142-145 | the error for an invalid mask cannot occur |
| IpAddresses.PrefixMaskShape | internal/context/ue_ip_pool.go:136-141 | a prefix mask is a power of two less than the full word, and conversely |
| IpAddresses.ToIPUint32 | internal/context/ue_ip_pool.go:85-92 | an address comes back from its number |
| IpAddresses.Uint32ToIP | internal/context/ue_ip_pool.go:85-89 | a number comes back from its address, reduced to 32 bits |
| UeAddresses.UeIPPool.Allocate | internal/context/ue_ip_pool.go:46-70 | it returns nil exactly if the requested address, or every address, is not free; without a request it takes the first free address of the list, with one just that address, and the others keep their order |
| UeAddresses.UeIPPool.Release | internal/context/ue_ip_pool.go:91-98 | the pool is left as `Free` leaves its list, whatever the address; a held address of the range becomes free and nothing else |
| UeAddresses.UeIPPool.Serve | internal/context/ue_ip_pool.go:46-98 | a run of allocations and releases hands out the addresses that the run of the pool hands out |
| UeAddresses.UeIPPool.ReleaseAndServe | internal/context/ue_ip_pool.go:46-98 | lazy reuse of addresses: one that is given back, not next to the back of the head, waits until every address of the head has been handed out, in ascending order |
| UeAddresses.UeIPPool.Exclude | internal/context/ue_ip_pool.go:72-79 | the static range leaves the free set, or the call fails because it sticks out |
| UeAddresses.NewDnnItem | internal/context/user_plane_information.go:137-181 | it is built exactly if every CIDR parses and no static pool sticks out; each pool can hand out its range without the static pools that start in it and, at the start, without network and broadcast address |
| UeAddresses.IsOverlap | internal/context/ue_ip_pool.go:121-134 | true exactly if the ranges of two pools in the list meet |
| UeAddresses.GetUEIPPool | internal/context/user_plane_information.go:987-1026 | the loops compute the offer that `OfferedMeans` characterises |
| UeAddresses.OfferedMeans | internal/context/user_plane_information.go:987-1026 | nothing is offered without a matching item; else all dynamic pools of the first one, or for a requested address just the first of its pools that contains it, a static one if there is any |
| UeAddresses.FindPoolByAddr | internal/context/user_plane_information.go:1039-1058 | it returns the first pool of the asked kind that contains the address, and nil only if there is none |
| UeAddresses.UserPlane.SelectUPFAndAllocUEIP | internal/context/user_plane_information.go:928-974 | an address comes from an offered pool of an associated candidate, the first one of its list if none was requested; none only if every offered pool refuses, and then no pool has changed |
| UeAddresses.UserPlane.AllocUeIP | internal/context/sm_context.go:558-605 | the new session's address was free and held by nobody, the first one of its pool's list if none was requested; the pool loses it alone, and every address stays free or held |
| UeAddresses.UserPlane.ReleaseUEIP | internal/context/user_plane_information.go:1028-1037 | a dynamic address goes back to the pool that issued it, a static one to the first static pool that contains it, and no other pool changes |
| UeAddresses.UserPlane.N1Release | internal/sbi/processor/pdu_session.go:403-408 | the address is given back once: the session holds none afterwards |
| UeAddresses.UserPlane.RemoveSMContext | internal/context/sm_context.go:398-425 | a session that still holds an address gives it back, and the session is gone |
| UeAddresses.UserPlane.EstablishAndRemove | internal/context/sm_context.go:398-425 | setting up a session and removing it restores every dynamic pool's free set |
| UeAddresses.UserPlane.UpNodesFromConfiguration | internal/context/user_plane_information.go:362-534 | it succeeds exactly if every new UPF can be built and no two dynamic pools overlap, and then adds exactly those, as configured; uniqueness survives exactly if no new pool could issue an address that a session holds, which is so while the holders' UPFs are configured |
| UeAddresses.UserPlane.ConfigureHarmfully | internal/context/user_plane_information.go:362-534 | whenever that condition fails, sessions set up after the configuration come to share an address |
| UeAddresses.UserPlane.DeleteConfigureEstablish | internal/context/user_plane_information.go:553-588 | for any subnet with a usable address: a UPF is deleted while a session holds an address of it and configured again, and two sessions hold one address |
| UeAddresses.UserPlane.UpNodeDelete | internal/context/user_plane_information.go:553-588 | deleting a UPF keeps its sessions in order: they give their addresses back to the pools that issued them |
| UeAddresses.UserPlane.Run | internal/context/user_plane_information.go:362-588 | over any run of establishing, releasing, removing, deleting UPFs and adding them harmlessly, no dynamic address is held twice and every address of a pool stays free or held |
| Topology.GetPathBetween | internal/context/user_plane_information.go:823-857 | it terminates and finds a path exactly if a walk exists through unvisited nodes with the slice; the path is such a walk and simple |
| Topology.NoWalkEscapes | internal/context/user_plane_information.go:823-857 | nodes visited without success cut off every walk to the destination |
| UserPlaneInformation.UserPlane.GenerateDefaultPathToUPF | internal/context/user_plane_information.go:765-800 | it files a simple path of linked UPFs that support the slice, from next to the access network to the destination, exactly if one exists |
| UserPlaneInformation.UserPlane.GetDefaultUserPlanePathByDNNAndUPF | internal/context/user_plane_information.go:645-663 | a cached or new path is good in the present graph, supports the slice and starts next to the access network if all cached ones did; it is nil only if no path exists |
| UserPlaneInformation.UserPlane.LinksFromConfiguration | internal/context/user_plane_information.go:536-551 | exactly the configured links between present nodes are added, links stay mutual and without repetition |
| UserPlaneInformation.UserPlane.UpNodeDelete | internal/context/user_plane_information.go:553-588 | the node leaves tables and links, exactly the cached paths through it are dropped, the others stay good |
| UserPlaneInformation.WalkFromSource | internal/context/user_plane_information.go:645-663 | a cached path is a walk from an access network exactly if it starts next to it |
| UserPlaneInformation.StalePathRun | internal/context/user_plane_information.go:553-663 | a run in which a path cached for a deleted access network is returned for a new one that it does not start next to |
| UserPlaneInformation.UserPlane.Run | internal/context/user_plane_information.go:536-663 | over any run of edits and path requests, tables, links and cache agree, and cached paths start next to the access network as long as it stays |
| AllPaths.GetAllPathByNodeName | internal/context/ue_defaultPath.go:147-180 | it returns exactly the simple directed paths, each once for links without repetition, and their number |
| AllPaths.PathSearch.FindPath | internal/context/ue_defaultPath.go:151-176 | the backtracking search appends exactly the paths from here and restores the visited set |
| AllPaths.PathsFromExact | internal/context/ue_defaultPath.go:147-180 | the enumeration contains a path exactly if it is simple, linked and avoids visited nodes |
| AllPaths.PathsFromOnce | internal/context/ue_defaultPath.go:147-180 | the enumeration repeats no path if the links repeat none |
| UlclAnchors.ExtractAnchorUPFForULCL | internal/context/ue_defaultPath.go:66-115 | each node is queued at most once; the sorted result is exactly the nodes whose neighbours were all taken out before them, and is not empty |
| UlclAnchors.AnchorsMeaning | internal/context/ue_defaultPath.go:66-115 | the anchors are distinct, reachable and no two of them linked |
| UlclAnchors.LeavesNotAdjacent | internal/context/ue_defaultPath.go:87-108 | of two linked nodes only one can be an anchor |
| AnchorSelection.SelectAnchorUPF | internal/context/user_plane_information.go:860-898 | it terminates though nodes are queued repeatedly, visits in breadth-first order exactly the nodes reachable through matching ones, and returns exactly those UPFs that put nothing in the queue and match the whole selection |
| AnchorSelection.SomeAnchor | internal/context/user_plane_information.go:860-898 | without a DNAI an anchor is found exactly if the search gets beyond the source or the source matches |
| DataPaths.GenerateDataPath | internal/context/user_plane_information.go:670-702 | next and previous are inverse along the new list and its UPFs are the given path |
| DataPaths.FirstForMeans | internal/context/upf.go:274-299 | the interface of a data network is the first one that serves it |
| DataPaths.DataPath.ActivateTunnelAndPDR | internal/context/datapath.go:560-857 | it completes exactly if every UPF has room for the rules and QERs, the session rule and its AMBR are there where they are read, its rates convert and every address exists, else it ends as its first failing step; when it completes, every node runs the rules that its neighbours ask for and holds new ids, and both its PDRs have the given precedence and list exactly the QER of the session AMBR unless the path is a GBR flow, and that of the default flow on the default path, as far as the UPF holds them; every node has PDRs exactly if there was room |
| DataPaths.FirstOfMeans | internal/context/datapath.go:590-853 | activation is done if every node is, and returns or panics as the first node that is not |
| DataPaths.FitsMeans | internal/context/datapath.go:567-576 | the nodes get their rules one after the other exactly if each UPF has two PDR and two FAR ids left for each of its nodes |
| DataPaths.NodeDone | internal/context/datapath.go:660-851 | a node is set up exactly if every address exists that its rules are built from |
| DataPaths.NodePanics | internal/context/datapath.go:726-851 | setting up a node panics exactly if the first address that cannot be had is that of a missing N9 interface |
| DataPaths.MissingN9Panics | internal/context/datapath.go:726-729 | for every data network and session rule with rates there is a path on which activation panics |
| DataPaths.MissingAmbrPanics | internal/context/datapath.go:588-612 | without a session rule, or with one without AMBR, activation panics already on a path of one UPF |
| DataPaths.DataPathNode.SetupUpLink | internal/context/datapath.go:611-724 | the uplink rule of a node leads to the next node's address and TEID, and the last node sends plain packets; the PDR gains the QERs and has the precedence; it gives up or panics exactly at the first address that is missing |
| DataPaths.DataPathNode.SetupDownLink | internal/context/datapath.go:726-851 | the downlink rule of a node leads to the previous node's address and TEID, and the first one to the access network; the PDR gains the QERs and has the precedence; it gives up or panics exactly at the first address that is missing |
| DataPaths.DataPath.DeactivateTunnelAndPDR | internal/context/datapath.go:1153-1167 | every associated UPF gets back exactly the PDR and FAR ids that the path took there |
| Tunnels.UPTunnel.UpdateANInformation | internal/context/upf.go:35-57 | every activated path then leads to the new address and is to be updated, with an end marker exactly if it led to one before; all else keeps running |
| Tunnels.UPTunnel.SetupResponse | internal/sbi/processor/pdu_session.go:612-648 | after the answer to the resource setup every activated path forwards downlink packets to the access network's new address, without an end marker |
| Tunnels.UPTunnel.AddDataPath | internal/context/upf.go:221-230 | the path gets an unused id, or is left out only if there is none |
| PacketRoutes.EndToEnd | internal/context/datapath.go:560-857 | over an activated path a packet passes every node in order both ways, each of which strips the header it came with, and leaves without header, or with the access network's once the first node forwards; before that it is kept there |
| PacketRoutes.UplinkStitched | internal/context/datapath.go:684-720 | each node's uplink header is received by the next node's uplink rule and by no other |
| PacketRoutes.DownlinkStitched | internal/context/datapath.go:789-851 | each later node's downlink header is received by the previous node's downlink rule and by no other |
| PolicyRules.SMContext.ApplyPccRules | internal/context/sm_context_policy.go:72-249 | it succeeds exactly if each rule to create can be; rule ids are old plus set minus nulled, data maps hold exactly what the rules refer to, untouched rules keep their paths, paths of no rule stay; every created rule has the QFI that the table holds for its QoS data, or 0 if they have none because all are in use, and a kept rule keeps its own; else it ends as the first rule that is refused or panics, flow level rules after all others, and an installed rule keeps a marked path exactly if it was tried and is named by the decision or got no new path, and has its own new path if it was tried otherwise |
| PolicyRules.MovedRun | internal/context/sm_context_policy.go:109-157 | a run with a refused decision after which an installed rule has moved to its new path |
| PolicyRules.MarkedRun | internal/context/sm_context_policy.go:109-157 | a run with a refused decision after which an installed rule that it names keeps a path that is to be dropped |
| PolicyRules.WithoutPdrsRun | internal/context/datapath.go:1448-1468 | a run in which a rule is set whose path has no PDRs, which panics |
| PolicyRules.NulledQfiRun | internal/context/sm_context_policy.go:86-90 | a run with an accepted decision after which an installed rule has a QFI that is free to be given to other QoS data |
| PolicyRules.SMContext.UpdatePolicy | internal/context/sm_context_policy.go:484-490 | after the removal the pool is the paths of no rule plus exactly one path for each rule |
| PolicyRules.SMContext.CreatePccRuleDataPath | internal/context/sm_context.go:668-717 | a rule gets a new path of its own exactly if its route exists and activation does not panic; the path is the default one exactly if there was none and the rule has precedence 255, and a GBR flow exactly if its QoS data are |
| PolicyRules.SMContext.PreRemoveDataPath | internal/context/sm_context_policy.go:475-482 | the path is marked and noted for removal and stays in the pool |
| PolicyRules.SMContext.PostRemoveDataPath | internal/context/sm_context_policy.go:484-490 | exactly the noted paths leave the pool |
| PolicyRules.SMContext.AssignQFI | internal/context/sm_context.go:987-998 | QoS data that have a QFI keep it, others get one that was not in use, or 0 exactly if all are; different QoS data keep different QFIs |
| PolicyQfis.DifferentQfis | internal/context/sm_context_policy.go:116-118 | two created rules with QoS data have the same QFI exactly if they have the same QoS data or both have none |
| PolicyQfis.StaysCurrent | internal/context/sm_context_policy.go:86-249 | a decision keeps every rule on the QFI that the table holds for its QoS data, unless it nulls the QoS data of a rule that is kept |
| PolicyQfis.StaleIsNotCurrent | internal/context/sm_context_policy.go:86-90 | such a rule has a QFI that the table no longer holds for its QoS data, but if a created rule refers to the same data and happens to get it again |
| PolicyQfis.CurrentDiffer | internal/context/sm_context.go:987-1007 | rules on the QFIs of the table share one only if they share their QoS data |
| PolicyMerges.HistoryMerges | internal/context/sm_context_policy.go:86-249 | whatever the order of the rules, every merge keeps data and paths exact at each step |
| PfcpRequests.BuildPfcpSessionEstablishmentRequest | internal/pfcp/message/build.go:374-463 | exactly the rules in state INITIAL enter Create lists, each once, and of QERs with one id the last; every rule looked at is then in state CREATE, and nothing is updated or removed |
| PfcpRequests.BuildPfcpSessionModificationRequest | internal/pfcp/message/build.go:503-610 | rules enter the Create, Update or Remove list that their state says, each once, and states follow |
| PfcpSessions.RequestClean | internal/pfcp/message/build.go:374-610 | every request built while the session is in order creates only new rules, PDRs and FARs under ids not in use at that UPF, updates, queries and removes only what is there, and refers only to what exists afterwards |
| PfcpSessions.QerIdsExactly | internal/pfcp/message/build.go:425-573 | its QERs have ids not in use at the UPF exactly if no new QER of the paths there shares its id with another or an earlier one |
| PfcpSessions.TightIsNew | internal/context/datapath.go:1153-1167 | while no QER that a path or the UPF has was given back, new QERs have ids not in use at the UPF |
| PfcpSessions.LooseExactly | internal/context/sm_context_policy.go:484-490 | over any run in order such a QER has been given back exactly if a round dropped a path with a QER at that UPF |
| PfcpSessions.LooseIsReused | internal/context/sm_context_policy.go:484-490 | from then on a path with a new QER under its id is possible and creates it under an id in use |
| PfcpSessions.QerIdReusedRun | internal/context/sm_context_policy.go:484-490 | a run in which the id of a removed path's QER, still at the UPF, is given to a new QER and created again |
| PfcpSessions.PfcpSession.ActivateUPFSession | internal/sbi/processor/datapath.go:34-87 | every UPF of an activated path gets one request, built from the rule states, and all are clean while the session is in order |
| PfcpSessions.PfcpSession.Round | internal/sbi/processor/datapath.go:34-87 | after a round every rule of the paths that stay is installed, every PDR and FAR of those dropped was removed, and the session is in order |
| PfcpSessions.PfcpSession.PreRemoveDataPath | internal/context/sm_context_policy.go:475-482 | the session stays in order if the path's PDRs and FARs were created at each UPF where the session exists |
| PfcpSessions.PfcpSession.RemoveAndSend | internal/sbi/processor/datapath.go:34-87 | the requests that follow a removal are all clean exactly if the path's PDRs and FARs were created at each UPF where the session exists |
| PfcpSessions.MarkedTooEarlyRun | internal/context/sm_context_policy.go:475-482 | a run in which a path is marked too early and a UPF is asked to remove what is not there |
| PfcpSessions.PfcpSession.RemovePDR | internal/context/datapath.go:1185-1196 | exactly the PDRs and FARs of the path are set to RULE_REMOVE |
| PfcpSessions.PfcpSession.UpdateFAR | internal/context/upf.go:35-57 | marking a created FAR of a path that stays keeps the session in order |
| PfcpSessions.PfcpSession.SetUrrState | internal/context/pfcp_rules.go:122-135 | setting a URR's state keeps the session in order if it suits the URR: updated or queried while at the UPF, released when no path that stays lists it |
| PfcpSessions.PfcpSession.UpdateAndSend | internal/sbi/processor/datapath.go:34-87 | the requests that follow an update are all clean exactly if the FAR was created; else the FAR is stuck |
| PfcpSessions.UpdatedTooEarlyRun | internal/context/upf.go:35-57 | a run in which the update comes before the first request, which is then not clean |
| PfcpSessions.PfcpSession.Run | internal/sbi/processor/datapath.go:34-87 | over any run of new paths, removals, updates, URR states and rounds a stuck FAR is never created, and if each event meets its condition the session stays in order and all requests are clean in turn |
| PfcpSessions.OnceInLog | internal/pfcp/message/build.go:374-610 | in such a run no rule is created twice or removed twice, and none is removed before it was created |
| PfcpSessions.UrrOnceInLog | internal/pfcp/message/build.go:576-606 | in such a run no URR is created twice, removed before it was created, or touched after its removal |
| UrrTable.SMContext.RegisterUrr | internal/context/pfcp_rules.go:105-120 | an entry is added once, without references |
| UrrTable.SMContext.PDRAppendURRs | internal/context/pfcp_rules.go:161-176 | each entry gains the PDR as often as it is listed; counts stay right exactly if all URRs are registered |
| UrrTable.SMContext.PDRReleaseURRs | internal/context/pfcp_rules.go:181-209 | counts stay right exactly if nothing the PDR lists that is in the table was given back before |
| UrrTable.SMContext.Step | internal/context/pfcp_rules.go:105-219 | an operation keeps the counts right exactly if it is allowed: registered URRs attached, an attachment given back at most once, only unreferenced URRs freed |
| UrrTable.MarksLastReference | internal/context/pfcp_rules.go:200-203 | such a release marks for removal exactly the entries whose last reference it dropped |
| UrrTable.SMContext.DeactivateNode | internal/context/datapath.go:257-266 | the marked URRs of a node's two PDRs are freed once each; counts stay right exactly if none is still referenced |
| UrrTable.SMContext.Run | internal/context/pfcp_rules.go:105-219 | over any run of allowed operations counts are the references held by PDR objects, whose ids may recur after a release |
| PacketFilters.SMContext.BuildNASPacketFiltersFromFlowInformation | internal/context/pcc_rule.go:305-360 | it succeeds exactly if every field is acceptable and ids suffice; there is one filter per pair of port ranges with distinct ids, and an error keeps the ids taken |
| PacketFilters.SMContext.CreateNasPacketFilter | internal/context/pcc_rule.go:188-303 | a filter matches exactly the packets that meet the flow's conditions and the two port ranges, 0-0 counting as any port |
| PacketFilters.MeaningPreserved | internal/context/pcc_rule.go:188-360 | without a range 0-0 a packet matches some filter exactly if it matches the flow |
| PacketFilters.PreservedExactly | internal/context/pcc_rule.go:252-288 | the meaning is kept exactly if each list with a range 0-0 names every port, or one list admits no port |
| PacketFilters.ZeroRangeWidens | internal/context/pcc_rule.go:252-258 | the flow for port range 0-0 alone is a concrete counterexample |
| Charging.SMContext.BuildMultiUnitUsageFromUsageReport | internal/sbi/processor/charging_trigger.go:157-272 | each rating group with a charged report appears once, with its first report's UPF and a request for units exactly if that report's URR is charged online; its containers tell its reports in order: trigger, method and volumes are theirs, and exactly a volume limit of a flow level URR is deferred; the buffer ends empty |
| Charging.EveryReportOnce | internal/sbi/processor/charging_trigger.go:166-271 | there are as many containers as charged reports |
| Charging.GroupOrder | internal/sbi/processor/charging_trigger.go:166-271 | a report is preceded in its group by just the reports of the group that came before it |
| Charging.VolumeConserved | internal/sbi/processor/charging_trigger.go:229-236 | a group's total, uplink and downlink volumes are each reported in full exactly if every one is below 2^31, and never too high |
| Charging.LargeVolumeLost | internal/sbi/processor/charging_trigger.go:229-236 | a report of 2^31 octets is told as a negative volume |
| BranchingPoints.BPManager.FindULCL | internal/context/bp_manager.go:76-104 | it records exactly the UPFs up to the longest prefix shared with any activated path, with their positions, and picks the deepest; it fails exactly if a path is overrun |
| BranchingPoints.OverrunRun | internal/context/bp_manager.go:82-93 | it fails for an activated path that ends where the activating one goes on |
| BranchingPoints.PositionsAreFirst | internal/context/bp_manager.go:82-93 | a recorded depth is the first position of the UPF on the path |
| BranchingPoints.DeepestIsUnique | internal/context/bp_manager.go:96-102 | the choice does not depend on the order of paths or map entries and is the last shared UPF |
| BranchingPoints.BPManager.SelectPSA2 | internal/context/bp_manager.go:52-74 | all activated paths are collected, and a usable other path is picked if there is one |

## Left out

- HTTP handlers, the consumer package, UDP, NAS and NGAP encoding, configuration files, logging and metrics: input and output, or wrappers over libraries.
- Locks and races: every call is one step. `Reserve` takes no lock in the source.
- Dual-connectivity copies of functions: the same shape as the originals.
- The full update state machine of a PDU session: its state checks only log.
- `DefaultUserPlanePath`: it is not invalidated when a node is deleted, so it is not a coherent cache.
- Topologies with a second access network: the search reads through the UPF pointer of every node but the source.
- Uniqueness of static addresses: overlap is checked for dynamic pools only. A duplicate release may even damage a static pool, so nothing is claimed of its free set after that.
- UeAddresses.UeIPPool.Release: of an address that is already free it says only what `Free` does to the list, because `PoolRuns.DuplicateFree` says when that has an effect.
- UeAddresses.UserPlane.SelectUPFAndAllocUEIP: the candidates are an argument, not tied to the anchor search; a list in any order covers the sorting by name and the rotation by a random offset.
- The pool inside a UE address pool is the value that `PoolRuns` describes; that the linked list computes it is proved in `LazyReusePool`.
- S-NSSAI and DNN lists of a UPF are one list in the same order; the Sd of an S-NSSAI is compared as folded text.
- IPv6: addresses are IPv4 addresses.
- DNS: an interface has a fixed address or none.
- Comparison by reflect.DeepEqual is comparison of objects or of NodeIDs, which are unique.
- Tunnels.UPTunnel.SetupResponse: the state of the PDR, a transfer that fails and the second tunnel of dual connectivity.
- AnchorSelection.SelectAnchorUPF: UPFs that match but put neighbours in the queue are not returned by the source either.
- DataPaths.DataPath.ActivateTunnelAndPDR: a QER is its id, without gate status and bit rates. URRs are not added to the path, and putting PDRs into the PFCP contexts cannot fail because the contexts were just made for every UPF of the path.
- DataPaths.DataPath.DeactivateTunnelAndPDR: QER ids are not claimed to be conserved, because uplink and downlink PDRs share QERs and both deactivations free them. PDRs and FARs are values of their node there, so that a PFCP context points to the same objects is not captured. BARs and URRs are left out of it.
- PolicyRules.SMContext.ApplyPccRules: path ids are assumed not to run out. The table of additional QoS flows, which holds the QoS data of each QFI, is left out.
- PolicyQfis.StaleIsNotCurrent: which of the free QFIs is given is left open, so whether nulled data get the same QFI again is too.
- PolicyRules.SMContext.CreatePccRuleDataPath: what setting up the new path comes to is given for each rule, from its activation over forwarding parameters and charging rules to QoS; it ends with PDRs on all nodes, without some, or in a panic.
- PolicyRules.SMContext.PostRemoveDataPath: the deactivation of the dropped paths' tunnels is that of `DataPaths`, not repeated here.
- PolicyRules.SMContext.UpdatePolicy: existence of a default path is not claimed, because the old one is still in the pool when the new one is made.
- PfcpRequests.BuildPfcpSessionModificationRequest: no BAR lists, because the collection of a path's rules collects no BARs.
- PfcpSessions.PfcpSession.ActivateUPFSession: every request is delivered and accepted; rejections and timeouts are left out. New paths come with new rule objects.
- PfcpSessions.PfcpSession.UpdateFAR: the answer to the resource setup request also marks the PDR, and its request has only the marked rules.
- PfcpSessions.PfcpSession.Run: an update of a path that is already marked takes the removal back, and is not among the events that keep a session in order.
- PacketFilters.CreateNasPacketFilter and the decoder: flowdesc is not part of this model; a flow description is a decoded rule, and an empty one a rule without conditions.
- Charging: timestamps, packet counts and the timers of charging information; a report without volume repeats the previous one when it is received.
- AddChargingRules: it reads through a missing rule for data that are neither online nor offline, and through missing data for a flow level rule without any while the whole session is charged. Both count as a panic after activation.
- BranchingPoints: a path is the sequence of its UPFs; the lists of nodes are those of `DataPaths`.
