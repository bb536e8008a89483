# A model of the OVN network agent

The agent runs on every gateway chassis of an OVN deployment. In each reconcile cycle it
derives, from the OVN databases, the external addresses this chassis must serve, and makes
several outside tables agree with them: kernel routes, FRR statics, an FRR prefix-list, OVS
flow planes and rows of the OVN northbound database. Several chassis run the same code
against one database. This project models that code in Dafny 4.11 and proves what it keeps
while commands fail, writes are delivered in part, daemons restart and chassis interleave.
`dafny verify dfyconfig.toml` checks all of it.

| module | what it models |
|---|---|
| PriorityLead, Failover | the writers of the gateway priorities, and the protocol they form with OVN's election over any number of chassis |
| Takeover, TakeoverProtocol | the drain takeover handshake on the northbound default routes, its loops and its runs |
| RouteSync | kernel routes and FRR statics: list, diff, apply, verify, tear down |
| NexthopRepair | the streak of cycles that re-added routes and the repair it leads to, against the history of cycles |
| DesiredState | what one cycle derives before it touches anything |
| RouteWatch | which kernel notifications are drift, against the agent's own commands |
| PrefixList | the FRR prefix-list and its two daemon copies |
| FlowMatch, FlowPlane | the text form of OpenFlow entries, and the make-before-break reconcile of one plane |
| RefreshLoop | the concurrent path of an OVN change from the cache to a reconcile |
| RefreshJoin | the five-table join of a refresh, against its relational meaning |
| CacheGuard | the consistency check of the monitor cache and its content keys |
| FrrWatch, DriftWatch | the watch state machines, against the history of polls and over all subscriptions |
| NftRules | the port-forward configuration compiled to nftables rules, with an interpreter |
| StaleChassis | the stale-chassis tracker and what its cleanup may delete |
| Text, Common | strings, sorting and small types |

External commands are methods whose outcome is nondeterministic; DriftWatch takes a script of what
happens instead. A method that runs several
of them returns, as a ghost trace, each command with its outcome and the state it left, so
that the order of commands can be stated and not only the final state. Where the code is
concurrent (RefreshLoop) or distributed (Failover, TakeoverProtocol), one atomic action is one
step of a state machine and the theorems are about every run of it.

## Where a property needs a condition

- No reverse failover needs the southbound binding read before a boost. The code boosts anyway
  when that read fails, and then the failover can be reversed (Failover.BlindBoostUnseats).
- A change in OVN is never lost unless a refresh fails. At rest, a reconcile has seen it exactly if
  some refresh pass that began after it succeeded (RefreshLoop.SeenAtRestIff); one failed pass can
  lose it until the next change (RefreshLoop.FailedRefreshLoses).
- agent.go:299-333 reaches the cleanup not only through the takeover handshake. It does without a
  release exactly when one of six steps cut the handshake short
  (TakeoverProtocol.CleanupWithoutReleaseIff). A wait set whose routes another chassis stamped
  before releases at once (TakeoverProtocol.ReleasedAtOnce).
- drift_watch.go:29-30 calls the minimum interval the shortest time between two triggers. It is
  not exactly in the runs in which a subscription closes with a trigger pending while the interval
  since the last trigger still runs (DriftWatch.EarlyIff, DriftWatch.TwoMayBeClose); three triggers
  never fall into one interval (DriftWatch.RateBound).
- route_watch.go:100-103 says the agent's own writes never match. They do when a kernel add is
  rolled back, and when one table serves both planes (RouteWatch.SelfDriftIff).
- ovn_cache.go:104-106 says distinct tuples always yield distinct keys. Go's rendering of maps
  breaks that for every map with two entries or a colon (CacheGuard.GoFormatUniqueIff,
  CacheGuard.StaticRouteKeysCollide), and the set of the empty string for the empty set
  (CacheGuard.EmptyMemberCollides). Without separators in the columns it holds
  (CacheGuard.KeyInjective); a row shares its key with another one exactly when one of its columns
  is ambiguous (CacheGuard.KeyUniqueIff).
- nftables.go:82-86 asks for masquerade per rule. Entries are matched by backend address,
  protocol and port, so a rule that shares them is masqueraded too (NftRules.MasqueradeLeaksIff,
  NftRules.MasqueradeLeaks).
- The prefix-list reconcile keeps bgpd's desired entries only if no number it hands out collides
  with one that bgpd holds and did not list (PrefixList.PartialListingIff,
  PrefixList.PartialListingLosesDesired), and the numbers one-to-one only if no new number or key
  conflicts with an entry that was not listed (PrefixList.OneToOneIff).
- A flow plane settles only if no key is wanted with two action lists
  (FlowPlane.RouteManager.ReconcileTwice); two spellings of one address on one port make such a
  pair (FlowMatch.DesiredHairpinFlows).

## Model

| member | source | states |
|---|---|---|
| PriorityLead.GroupMeaning | ovn_gateway.go:206-228 | the collected HA group is the last local row and the exact maximum over the peers' priorities, -1 without peers |
| PriorityLead.NorthboundDB.IndexRouters | ovn_gateway.go:187-198 | the reference-column join: the active ports, and for each Gateway_Chassis row the last router port that references it |
| PriorityLead.NorthboundDB.CollectGroups | ovn_gateway.go:199-229 | the loop's group per port is the fold over exactly the listed rows that belong to the port, by reference column or by name |
| PriorityLead.GatheredGroup | ovn_gateway.go:164-185 | when the cache shows no row of this chassis, its rows selected from the server and put behind the cached ones give exactly the groups of the whole table |
| PriorityLead.NorthboundDB.Gather | ovn_gateway.go:164-185 | the listing the boost works on, with the select as fallback, gives every group of the table; otherwise the boost fails |
| PriorityLead.NorthboundDB.BoostOps | ovn_gateway.go:231-270 | the pass updates exactly the local rows without a lead that the southbound database does not show bound elsewhere, to max(peer+1, 2) |
| PriorityLead.NorthboundDB.EnsureActivePriorityLead | ovn_gateway.go:158-276 | committed: every row is as the boost of its group says, also when the cache hid the chassis's own rows; otherwise no row changed; never past the schema bound |
| PriorityLead.NorthboundDB.FilterDrainCandidates | ovn_gateway.go:1287-1298 | exactly the listed local rows above 0, and whether the listing has any local row |
| PriorityLead.NorthboundDB.SoleCandidates | ovn_gateway.go:1309-1326 | exactly the rows, the chassisredirect ports and the router ports of local routers that reference one Gateway_Chassis row |
| PriorityLead.NorthboundDB.DrainPriorities | ovn_gateway.go:830-909 | reports whether there is a local row above 0 with a standby, also when the cache hid it; lowers exactly those rows to 0 in one transaction or none, and only when there are any |
| PriorityLead.NorthboundDB.RestoreDrainedGateways | ovn_gateway.go:1192-1256 | committed: exactly the local rows at 0 are 1, also when the cache hid them; otherwise no row changed |
| PriorityLead.BoostRaises | ovn_gateway.go:247-263 | a row that a boost rewrites is the booster's own and gets a strictly higher priority, above every peer and at least 2 |
| Failover.BoostTakesLead | ovn_gateway.go:158-276 | the committed boost of the live bound chassis makes it the unique maximum with at least 2, exactly when it already holds the lead or the schema has a priority left above the peers |
| Failover.LeadKept | ovn_gateway.go:244-259 | one step of anybody other than the leader's drain, its death and an unchecked boost keeps the lead, and a boost writes nothing then |
| Failover.NoReverseFailover | ovn_gateway.go:130-157 | in every run over any number of chassis the leader stays the unique maximum and bound, elections confirm it and blocked boosts write nothing, until it drains, dies or a peer boosts with a failed binding read |
| Failover.BoostRaisesOwnRow | ovn_gateway.go:247-263 | a boost never lowers a priority and changes only the booster's own row |
| Failover.BlindBoostUnseats | ovn_gateway.go:231-238 | a boost after a failed binding read unseats the leader whenever the schema leaves a priority above it, and only then commits |
| Failover.ReverseFailoverWithoutCheck | ovn_gateway.go:231-238 | a concrete run in which a failed binding read reverses a failover |
| Failover.DrainHandsOver | ovn_gateway.go:830-909 | after its drain a chassis can win the port back exactly when no other live chassis is above 0 |
| Failover.MaxPeerAgrees | ovn_gateway.go:223-227 | the code's maximum over joined rows is the maximum over the group |
| Failover.BoostRefines | ovn_gateway.go:158-276 | the committed boost of the code is the boost step of the protocol, for every group at once |
| Failover.DrainRefines | ovn_gateway.go:889-909 | the committed drain of the code is the drain step of every group whose rows have a standby |
| Failover.RestoreRefines | ovn_gateway.go:1217-1236 | the committed restore of the code is the restore step of every group |
| Takeover.LocalManagedDefaultRoutes | ovn_gateway.go:1107-1142 | exactly the managed 0.0.0.0/0 routes of routers that are active here, in listing order |
| Takeover.MarkersMean | ovn_gateway.go:1160-1163 | the reader's index holds exactly the listed rows, each with its own marker |
| Takeover.TakeoverMarkersReady | ovn_gateway.go:1154-1174 | ready exactly when every awaited route is gone or its marker names another chassis |
| Takeover.AwaitTakeoverReady | ovn_gateway.go:969-1046 | released by the first poll that shows every awaited route handed over, held for the margin only when nothing is awaited, cut off only if no poll did |
| Takeover.NorthboundRoutes.MarkTakeoverReady | ovn_gateway.go:443-479 | one transaction that stamps the local name on exactly the awaited-kind routes of the given routers that lack it, and touches nothing else |
| TakeoverProtocol.ReadyMeansSynced | agent.go:582-612 | a chassis may mark only in a cycle whose own route sync was ready |
| TakeoverProtocol.MarkersSince | ovn_gateway.go:943-968 | from any moment on, a marker that comes to name another chassis was stamped since then by that chassis after a ready sync |
| TakeoverProtocol.StoppedIsSilent | agent.go:282-299 | from the moment its main loop ends until its process starts anew a chassis marks nothing |
| TakeoverProtocol.ReleaseIsVouched | ovn_gateway.go:943-1046 | on every run with any number of restarts a stopped chassis is released only when each awaited route is gone or was stamped by another chassis after the stop, while the ports migrate or later, and after a ready ensureRoutes |
| TakeoverProtocol.CleanupIsVouched | agent.go:296-334 | if no step cut the handshake short, the cleanup is reached only after such a release |
| TakeoverProtocol.ReleasedAtOnce | ovn_gateway.go:1154-1174 | the first poll releases exactly when no awaited route is unstamped or the chassis's own when the wait set is resolved |
| TakeoverProtocol.CleanupWithoutReleaseIff | agent.go:296-334 | the cleanup is reached without a release exactly when draining was off, a read or the priority write failed, nothing was to be lowered, the handshake was disabled, no route was awaited, or the deadline passed |
| TakeoverProtocol.MarkRefines | ovn_gateway.go:443-479 | the writer's transaction is the protocol's mark of the rows it wrote |
| TakeoverProtocol.ReconcileCycle | agent.go:447-612 | a cycle is the protocol's Begin, Sync and, only after a ready sync, Mark; when it marks, every FRR static and every desired kernel route is in place |
| TakeoverProtocol.ReleaseRefines | ovn_gateway.go:969-1046 | the code's wait takes the protocol's steps, and each of them is released by the same read |
| TakeoverProtocol.ShutDown | agent.go:282-334 | the shutdown branch with its drain takes the protocol's steps only and is released exactly when the protocol is, by the markers of the routes whose port has a standby and only after its own rows were lowered |
| RouteSync.RouteManager.ListFRRRoutes | routing.go:334-390 | the memoized listing is FRR's state: a memo answers without a query, and stays coherent |
| RouteSync.RouteManager.AddFRRRoutes | routing.go:226-274 | the chunks cover exactly the valid IPs in order, each at most 500; success means all of them are configured; a failed chunk neither stops the others nor adds anything else |
| RouteSync.RouteManager.DelFRRRoutes | routing.go:276-313 | one invalid IP rejects the call; success withdraws exactly the list in order; the first failed chunk ends it |
| RouteSync.RouteManager.AddMissing | agent.go:974-1003 | kernel routes are added for exactly the unskipped desired IPs not listed on their device; skipped and undesired ones stay as found |
| RouteSync.RouteManager.CollectStale | agent.go:1014-1049 | stale kernel routes are those of undesired IPs; withdrawn statics are theirs and the orphaned ones, each once |
| RouteSync.RouteManager.EnsureRoutes | agent.go:931-1092 | for any pattern of failures: only permitted commands, flags that report exactly how they ended, ready implies every static and every unskipped kernel route in place, convergence without failures, no desired route withdrawn, deliverable throughout, quiet when in sync |
| RouteSync.PassReports | agent.go:1065-1091 | a pass adds only desired and removes only undesired routes, in batches; ready, changed and announced say exactly how the commands they stand for ended |
| RouteSync.PassReadySound | agent.go:1079-1091 | ready implies every FRR static is configured and every unskipped desired IP has its kernel route on its device, under any failures |
| RouteSync.PassConverges | agent.go:931-1092 | without a failure the statics are exactly frrStaticIPs and the kernel routes exactly each desired IP on its device, skipped ones as found |
| RouteSync.PassKeepsDesired | agent.go:1014-1063 | in no state on the way is a still-desired static withdrawn, nor a desired kernel route while kernel adds succeed |
| RouteSync.PassDeliverable | agent.go:974-1063 | kernel adds precede FRR adds and FRR withdrawals precede kernel deletes, so every announced IP has its kernel route in every state on the way |
| RouteSync.PassQuiet | agent.go:931-1092 | a pass over a state in sync writes nothing and is ready |
| RouteSync.RouteManager.VerifyRoutes | agent.go:1218-1346 | re-adds exactly what is missing, deletes nothing, keeps the streak and decides on the next-hop repair as the history says; zero and no write when the state is in sync |
| RouteSync.RouteManager.CheckAfterSync | agent.go:629-641 | the end of a cycle extends the history of checks: a pass that changed an FRR static is verified, any other one ends the streak, and the next hop is repaired exactly when that history calls for it |
| NexthopRepair.StreakIff | agent.go:1187-1291 | the streak is at least k exactly when k checks re-added routes and no clean or unchanged cycle came since the first of them, failed listings aside |
| NexthopRepair.RepairIff | agent.go:1301-1346 | a check repairs exactly when it and two before it re-added routes with no clean or unchanged cycle in between, the next hop is known not to resolve, and the last repair is a minute past |
| NexthopRepair.RepairsAreApart | agent.go:1191-1195 | any two repairs of a history are at least a minute apart |
| RouteSync.RouteManager.RemoveAllRoutes | agent.go:1094-1137 | FRR is emptied first, so no state on the way announces an IP without its kernel route; without failures both planes end empty |
| RouteSync.RouteManager.SyncVerifySync | agent.go:931-1291 | when nothing fails, the verification and the next pass write nothing and the streak is zero |
| DesiredState.BuildHairpinTargets | desired_state.go:85-105 | a target for exactly the NAT addresses and the gateway addresses of routers with a MAC; the last such router wins over earlier ones and over the NAT owner |
| DesiredState.BuildDesiredSegments | desired_state.go:111-132 | one segment per name in use, as its first router has it, sorted by name |
| DesiredState.UniqueIPs | agent.go:1373-1385 | exactly the non-empty trimmed texts, once each, sorted |
| DesiredState.SplitIPv4 | desired_state.go:142-154 | partitions the targets by IPv4, each side sorted and without duplicates |
| DesiredState.ComputeDesiredState | desired_state.go:167-200 | FRR statics are exactly the IPv4 targets, desired IPs exactly those and the announced VIPs, dormant and announced VIPs complement each other, and the result meets what ensureRoutes needs |
| RouteWatch.NewRouteOwnership | route_watch.go:63-79 | the published ownership holds exactly the given kernel IPs, FRR IPs and leak networks |
| RouteWatch.DeletionIsDriftIffOwned | route_watch.go:81-117 | a deletion is drift exactly when it removed a route the last cycle wanted |
| RouteWatch.AdditionIsDriftIffForeign | route_watch.go:119-129 | an addition is drift exactly when a foreign route replaced an owned one, in the VRF table with a known other gateway |
| RouteWatch.SelfDriftIff | route_watch.go:100-103 | exactly when an own command can look like drift: a kernel add whose route was rolled back, or one table for both planes with an FRR add that left a static in place or a completed removal of a /32 leak network |
| RouteWatch.RouteWatcher.ReconcileRoutes | agent.go:447-646 | within one cycle and with two tables no change made by its own pass and verification is drift unless a kernel add was rolled back, while every deletion of an owned route is; the cycle extends the history of checks by its own |
| PrefixList.ParsePrefixListDocs | routing.go:579-638 | each agent-shaped entry under a number no earlier one had, and only those |
| PrefixList.AnswersShown | routing.go:579-638 | while the copies agree, the listing is exactly what the daemons that answer hold |
| PrefixList.WritesKeep | routing.go:736-744 | any sequence of writes that fit one assignment, each reaching any subset of the daemons with losses in between, keeps the numbers one-to-one and every desired entry in bgpd |
| PrefixList.Daemons.ListBGPDEntries | routing.go:640-663 | bgpd's own copy, or no answer |
| PrefixList.Daemons.AddMissing | routing.go:720-734 | one line per missing key under the next numbers above the highest listed one, stopping at the first reported failure |
| PrefixList.Daemons.RepairBGPD | routing.go:736-772 | re-applies under its own number exactly the listed desired entries that bgpd's copy lacks, nothing when bgpd does not answer |
| PrefixList.Daemons.RemoveStale | routing.go:774-787 | one removal per listed entry that is not desired, stopping at the first reported failure |
| PrefixList.Daemons.ReconcileFRRPrefixList | routing.go:683-790 | over lost writes, failures and restarts, whoever answers the listing, the union stays one-to-one and no command takes a desired entry out of bgpd unless something the listing hid conflicts, which nothing does when both daemons answer; the latter holds without a colliding number; one fully delivered cycle makes bgpd's entries exactly the desired ones |
| PrefixList.CycleHeals | routing.go:683-790 | a cycle delivered in full leaves exactly the desired entries in bgpd and no others in zebra |
| PrefixList.CycleIsQuiet | routing.go:720-787 | over a healed list a cycle without failures writes nothing |
| PrefixList.SecondCycleIsQuiet | routing.go:683-790 | after one fully delivered cycle the next delivered cycle writes nothing |
| PrefixList.PartialListingIff | routing.go:683-734 | whichever daemons answered the listing, every cycle keeps every desired entry in bgpd exactly if bgpd holds no desired entry under a number that the cycle can hand out to another unlisted key |
| PrefixList.OneToOneIff | routing.go:683-734 | whichever daemons answered the listing, every cycle keeps the numbers one-to-one exactly if no number it can hand out carries another key and no key it can add has another number |
| PrefixList.CyclesAreSafe | routing.go:683-790 | over any sequence of cycles, with full and partial listings mixed, in which nothing conflicts the numbers stay one-to-one and no command takes a desired entry out of bgpd |
| PrefixList.ListedNumbersAreSafe | routing.go:697-709 | when bgpd answers the listing no number collides |
| PrefixList.PartialListingLosesDesired | routing.go:587-598 | a concrete cycle over a listing that only zebra answered, in which a new entry replaces a desired one in bgpd |
| FlowMatch.ParseFlowMatch | ovs.go:734-773 | the fold over the fields, and what its verdict means: trusted exactly with a protocol, a port, and no malformed port or address |
| FlowMatch.DeleteMatchRoundTrip | ovs.go:640-650 | parsing a printed strict delete returns the key it deletes |
| FlowMatch.DeleteMatchInjective | ovs.go:636-650 | distinct keys print distinct strict deletes |
| FlowMatch.MACTweakRoundTrip | ovs.go:72-80 | the match part of a MAC-tweak spec parses back to the diff's key, and its actions are cut exactly |
| FlowMatch.HairpinRoundTrip | ovs.go:443-450 | the match part of a hairpin spec parses back to the diff's key with the canonical address, and its actions are cut exactly |
| FlowMatch.CutActions | ovs.go:665-671 | a spec is cut at the comma before its actions and nowhere else |
| FlowMatch.NormalizeActions | ovs.go:673-692 | the in-place rewrite of the parts is the normal form of the action list |
| FlowMatch.ActionsCompare | ovs.go:673-692 | dumped and desired actions compare equal in every spelling ovs-ofctl echoes, exactly when both MACs agree up to case |
| FlowMatch.DesiredMACTweakFlows | ovs.go:171-191 | both flows of every patch port in use, once per port, with distinct keys |
| FlowMatch.DesiredHairpinFlows | ovs.go:507-530 | one flow per target that can be rendered; keys are distinct exactly unless two texts spell one address on one port |
| FlowPlane.RouteManager.BundleSupported | ovs.go:960-978 | only a positive verdict is remembered |
| FlowPlane.RouteManager.ApplyFlowAdds | ovs.go:867-911 | nothing disappears and only asked-for entries change; success installs every add; a failed bundle drops the remembered verdict |
| FlowPlane.RouteManager.ReconcileFlowPlane | ovs.go:792-858 | no desired entry that was installed is missing in any state, other cookies' entries stay, a failed add deletes nothing, success leaves exactly the desired keys, and it writes exactly when the dump shows a difference |
| FlowPlane.PassNeverBlanks | ovs.go:775-783 | each desired key that was installed stays installed in every state on the way, as it was or as desired |
| FlowPlane.PassFailedAdd | ovs.go:784-785 | a failed add phase deletes nothing |
| FlowPlane.PassExact | ovs.go:792-858 | success leaves exactly the desired keys, and the desired map exactly when no key is wanted with two action lists |
| FlowPlane.PassWrites | ovs.go:827-830 | a pass writes exactly when the plane differed from the desired set |
| FlowPlane.RouteManager.ReconcileTwice | ovs.go:780-783 | after a successful run the next one writes nothing exactly when no key is wanted with two action lists |
| FlowPlane.OtherPlaneUntouched | ovs.go:30-37 | a plane installed at another priority is unchanged by the reconcile |
| RefreshLoop.NoLostWakeup | ovn.go:979-1086 | in every interleaving of both clients' handlers, timers and loops without a failing refresh, each change of either database not yet seen by a reconcile is covered by its handler, a queued signal, a timer, a refresh begun after it, or a reconcile still to take its snapshot |
| RefreshLoop.OnlyFailureUncovers | ovn.go:893-944 | with failing refreshes a change is uncovered only while the last pass is one that failed |
| RefreshLoop.SeenAtRestIff | ovn.go:893-944 | at rest a change has been seen by a reconcile exactly if a refresh pass that began after it was in the cache succeeded |
| RefreshLoop.OnlyFailureLoses | ovn.go:893-944 | a change that is lost at rest was in the cache when some pass began that failed, and every pass that began after it failed |
| RefreshLoop.FailedRefreshLoses | ovn.go:893-944 | a concrete run in which one failed refresh loses a change for good |
| RefreshLoop.InternalStepsEnd | ovn.go:989-991 | every internal step lowers a bounded measure, so a storm of events produces bounded work |
| RefreshLoop.NotQuiescentMoves | ovn.go:992-1047 | the loops can move exactly until they are at rest |
| RefreshLoop.QuiescentHasSeenAll | ovn.go:992-1047 | at rest, without failures, the last reconcile has seen every change and no observation is pending |
| RefreshLoop.ConsumedOnlyByItsSnapshot | ovn.go:1106-1135 | an observation is consumed exactly by a reconcile with a newer snapshot, which then reflects the observed change |
| RefreshLoop.OVNClient.DebounceStateRefresh | ovn.go:1049-1060 | for either client a full channel drops the send; the step is the protocol's |
| RefreshLoop.OVNClient.CompareAndSwapObserved | ovn.go:1071-1080 | keeps the earliest observation with the counter loaded before the swap |
| RefreshLoop.OVNClient.OnDebounceSignal | ovn.go:1011-1015 | the debounce timer is armed once per window |
| RefreshLoop.OVNClient.OnImmediateSignal | ovn.go:1033-1041 | an immediate signal cancels a pending debounce and starts a refresh |
| RefreshLoop.OVNClient.BeginRefresh | ovn.go:885-890 | a pass is numbered before its first read |
| RefreshLoop.OVNClient.TakeFailoverObservedAt | ovn.go:1128-1135 | returns the observation exactly when the snapshot is newer, and clears it then |
| RefreshJoin.LookupIsHosted | ovn.go:536-548 | with unique references the index lookup decides exactly whether the chassis row is this host's |
| RefreshJoin.LocalCRPorts | ovn.go:556-579 | exactly the router ports whose chassisredirect port is bound to this chassis |
| RefreshJoin.SegmentsByLRP | ovn.go:605-647 | a segment for exactly the local ports that join a localnet row over a patch row's datapath |
| RefreshJoin.LocalLRPUUIDSet | ovn.go:668-678 | exactly the references of local router ports |
| RefreshJoin.MatchedPort | ovn.go:696-706 | the first local port of the router, or none |
| RefreshJoin.CollectLocalRouters | ovn.go:686-729 | one entry per router with a local port, and NAT indexes whose keys are exactly the owned rows with a MAC |
| RefreshJoin.NATIndexIsOwnership | ovn.go:719-726 | the NAT index is the ownership relation |
| RefreshJoin.DiscoverLRPNetworks | ovn.go:734-746 | exactly the parsable networks of the local routers' ports, sorted, once each |
| RefreshJoin.NATCollection.AddNBNATs | ovn.go:770-813 | exactly the valid, filter-passing external addresses of indexed NAT rows, with the MAC and the segment indexed for such a row, and the IPv4 ones of snat rows |
| RefreshJoin.NATCollection.AddSBGatewayNATAddresses | ovn.go:821-869 | adds exactly the filter-passing addresses of gateway patch ports of local ports: with the MAC and with the segment of such a port where it has one, and the IPv4 ones to the SNAT list |
| RefreshJoin.RefreshState | ovn.go:885-961 | the addresses with a MAC are exactly those owned through a NAT row or a gateway patch port, each with the MAC of an owning port; those with a segment are exactly those an owning port reaches over a localnet port; the SNAT addresses are exactly the IPv4 ones of snat rows and gateway patch ports |
| FrrWatch.ParseFRRModules | frr_watch.go:58-88 | exactly the daemon sections whose first pid line holds a positive number; an answer without one is an error |
| FrrWatch.ChangedDaemons | frr_watch.go:216-233 | sorted and distinct: exactly the changed, new and gone daemons but for a new one with process ID 0; with positive ones it is empty only for equal incarnations |
| FrrWatch.FrrWatchState.PrimeWith | frr_watch.go:163-169 | the poll before the startup reconcile is the baseline, or a failure seen before it |
| FrrWatch.FrrWatchState.Step | frr_watch.go:172-214 | each decision is what the history of polls says, and the restart list is non-empty exactly on a restart and lists exactly the changed daemons |
| FrrWatch.KnownMeans | frr_watch.go:130-133 | the known incarnation is the last settled answer, or the primed one before any |
| FrrWatch.SawFailureMeans | frr_watch.go:136-140 | a failure counts exactly if it came before the first settled answer and nothing was primed |
| FrrWatch.RestartIff | frr_watch.go:190-204 | a restart is reported exactly when an answer settles that differs from the last settled or primed one, or is the first settled one after a failure |
| FrrWatch.WarnIff | frr_watch.go:179-185 | the warning comes once per run of failures, at its first poll that is late enough |
| FrrWatch.WarnAndBackAlternate | frr_watch.go:182-188 | warnings and recoveries strictly alternate, a warning first |
| FrrWatch.FollowUpIff | frr_watch.go:205-212 | a follow-up answers the latest restart at least the delay after it, and no restart is answered twice |
| DriftWatch.RateBound | drift_watch.go:29-33 | no three triggers fall into less than the minimum interval, across all subscriptions |
| DriftWatch.EarlyIff | drift_watch.go:98-237 | over every run some trigger comes sooner than the minimum interval after the one before it exactly when some subscription of the run closes, without a shutdown, with a trigger pending while the interval since the last trigger still runs; the condition is read off the watcher before it handles the close |
| DriftWatch.TurnIsEarlyIff | drift_watch.go:174-237 | one turn of the event loop triggers early exactly when it takes such a close |
| DriftWatch.EarlyTrigger | drift_watch.go:212-231 | an early trigger ended its subscription before its timer was due, and the trigger before it ended none |
| DriftWatch.TwoMayBeClose | drift_watch.go:29-33 | a concrete run, for any settings, that takes such a close and triggers twice at the same instant |
| DriftWatch.BackoffClosedForm | drift_watch.go:158-172 | after n short-lived or failed subscriptions in a row the wait is min(lo*2^(n-1), hi) |
| DriftWatch.DriftWatcher.OnDrift | drift_watch.go:226-231 | one drift event arms the timer for the debounce or the rest of the interval; later ones ride along |
| DriftWatch.DriftWatcher.OnClosed | drift_watch.go:212-221 | a closed subscription fires its pending trigger at once |
| DriftWatch.DriftWatcher.Consume | drift_watch.go:174-237 | every drift event taken is in the counts of a trigger or still pending, nothing is pending after a subscription that ended without a shutdown, and timer triggers keep the interval |
| DriftWatch.DriftWatcher.Run | drift_watch.go:98-156 | over all subscriptions of every script the triggers are spaced, prompt and armed as the settings say, one is early exactly when a close was, every drift event is accounted for, and the waits follow the backoff |
| NftRules.WriteCTZoneRules | nftables.go:195-214 | interpreted, the chain sets the zone of exactly the requests and the backends' replies of the configuration |
| NftRules.WriteDNATChain | nftables.go:235-270 | interpreted, a request goes to the backend its source hashes to at the rule's port, any other packet passes |
| NftRules.CollectSNATEntries | nftables.go:114-127 | one entry for exactly the backends of rules with masquerade in effect |
| NftRules.WriteSNATChain | nftables.go:356-393 | present exactly when one of the three cases applies; interpreted, it masquerades exactly the DNATed packets of an entry, a hairpin VIP or a router-masquerade VIP |
| NftRules.WriteFwmarkChains | nftables.go:289-302 | interpreted, tracked packets of our VIPs get the mark of their direction and no other packet does |
| NftRules.WriteVethGuardChain | nftables.go:307-320 | interpreted, only provider-network sources and marked replies pass through the veth pair |
| NftRules.BuildNftRuleset | nftables.go:418-439 | every chain of the compiled ruleset means its part of the configuration |
| NftRules.RequestsOne | config.go:954-1014 | in a validated configuration a packet requests one rule at most |
| NftRules.RequestIsForwarded | nftables.go:231-270 | a request goes to exactly one configured backend at the rule's destination port, chosen by its source alone, and it and that backend's reply get the same zone in both hooks |
| NftRules.OthersAreLeftAlone | nftables.go:195-270 | only requests are redirected and only forwarded flows change their zone |
| NftRules.MasqueradedIff | nftables.go:334-393 | a forwarded flow is masqueraded exactly when some masquerading rule has its backend address, protocol and port, or its VIP masquerades its source |
| NftRules.SNATOfConfiguration | nftables.go:111-161 | the collected entries and VIP lists mean the configuration, and the chain is present exactly when some packet could be masqueraded |
| NftRules.MasqueradeLeaksIff | nftables.go:82-91 | a rule without masquerade is masqueraded anyway exactly when another, masquerading rule shares its backend address, protocol and port |
| NftRules.MasqueradeLeaks | nftables.go:82-91 | a concrete valid configuration of two VIPs and a request to the one that does not masquerade |
| NftRules.ReplyPassesVeth | nftables.go:272-332 | a tracked reply is marked, passes the veth guard and leaves without its mark; an unmarked packet passes only from a provider network |
| StaleChassis.Agent.ListManagedRouteChassis | ovn_gateway.go:631-649 | exactly the non-empty chassis tags of managed routes, none after a failed listing |
| StaleChassis.Agent.UpdateMissing | agent.go:681-704 | tracks exactly the referenced, absent chassis, each since it was first tracked |
| StaleChassis.SinceUnique | agent.go:681-704 | a chassis is tracked since the first scan of the current unbroken run of absences |
| StaleChassis.DueIff | agent.go:708-718 | due exactly when the run of absences is at least grace plus jitter long |
| StaleChassis.Agent.CleanupStaleChassis | agent.go:665-735 | a chassis is handed to cleanup exactly when it was referenced and absent at every completed scan since a time at least grace plus jitter ago; of the rows the cleanup reads, those of no other chassis are deleted, and without a failure all of the handed ones |
| StaleChassis.Agent.DeleteStaleRoutes | ovn_gateway.go:684-757 | only attached managed routes tagged with a stale chassis go, and the binding keys are exactly theirs where no live chassis holds the port |
| StaleChassis.Agent.CleanupStaleChassisManagedEntries | ovn_gateway.go:658-787 | deletes only managed routes of stale chassis and only MAC bindings that match such a route where no live chassis holds the port; all of them without a failure |
| CacheGuard.OvsSetToStrings | ovn_cache.go:407-436 | a set-valued column in either encoding as the list of its strings and references |
| CacheGuard.ColumnRoundTrip | ovn_cache.go:327-370 | decoding a column of strings or of references, an optional one, a map or an optional number gives back what was encoded |
| CacheGuard.SortedJoinInjective | ovn_cache.go:111-118 | order-blind, and injective on sets of non-empty members without commas |
| CacheGuard.EmptyMemberCollides | ovn_cache.go:111-118 | two different sets of members without commas render alike exactly if one is empty and the other holds the empty string only |
| CacheGuard.GoFormatInjective | ovn_cache.go:69-73 | Go's rendering is injective on maps whose keys hold no colon and which hold no spaces |
| CacheGuard.GoFormatUniqueIff | ovn_cache.go:69-73 | no other map prints like a given one exactly when it has at most one entry and no colon in it |
| CacheGuard.KeyInjective | ovn_cache.go:104-109 | two rows whose columns hold no separators have the same key exactly when their check columns agree |
| CacheGuard.KeyUniqueIff | ovn_cache.go:60-118 | among rows that render without the unit separator another row of the table has the same key exactly when some column of the row is ambiguous: an empty or absent optional, a set that is empty, has two members or splits in order at a comma, or a map with two entries or a colon |
| CacheGuard.StaticRouteKeyUniqueIff | ovn_cache.go:91-98 | other external IDs give a static route the same key exactly when its own have two entries or a colon |
| CacheGuard.StaticRouteKeysCollide | ovn_cache.go:104-109 | two concrete static routes with different external IDs and one key |
| CacheGuard.KeysSurviveProjection | ovn_cache.go:46-58 | no key reads more than its check columns, so the cheap select decides as the full one would |
| CacheGuard.KeySetsEqual | ovn_cache.go:248-260 | true exactly for equal sets |
| CacheGuard.ServerKeySet | ovn_cache.go:191-208 | the keys of a successful check select are exactly the keys of the server's rows |
| CacheGuard.KeysDetermineTuples | ovn_cache.go:34-43 | equal key sets give every row a row with the same check columns on the other side |
| CacheGuard.AuthoritativeList | ovn_cache.go:140-186 | with a successful check, and a successful full select after a mismatch, the rows carry exactly the server's check-column tuples; otherwise the cache is returned |
| CacheGuard.ListPortBindings | ovn_cache.go:60-73 | when the selects it needed succeed and no column holds a separator, the port bindings carry exactly the server's types, chassis, NAT addresses, datapaths, tags, options and external IDs; when one fails, the cache is returned |
| CacheGuard.ListChassis | ovn_cache.go:75-77 | when the selects it needed succeed and no column holds a separator, the chassis rows carry exactly the server's hostnames; when one fails, the cache is returned |
| CacheGuard.ListLogicalRouters | ovn_cache.go:79-81 | when the selects it needed succeed and no column holds a separator, the logical routers carry exactly the server's ports, NAT rows and static routes; when one fails, the cache is returned |
| CacheGuard.ListRouterPorts | ovn_cache.go:83-85 | when the selects it needed succeed and no column holds a separator, the router ports carry exactly the server's MACs, networks and gateway chassis; when one fails, the cache is returned |
| CacheGuard.ListNATs | ovn_cache.go:87-89 | when the selects it needed succeed and no column holds a separator, the NAT rows carry exactly the server's types and external addresses; when one fails, the cache is returned |
| CacheGuard.ListStaticRoutes | ovn_cache.go:91-98 | when the selects it needed succeed and no column holds a separator, the static routes carry exactly the server's prefixes, next hops, output ports and external IDs; when one fails, the cache is returned |
| CacheGuard.ListMACBindings | ovn_cache.go:100-102 | when the selects it needed succeed and no column holds a separator, the static MAC bindings carry exactly the server's ports, addresses and MACs; when one fails, the cache is returned |

## Left out

- PriorityLead.NorthboundDB.EnsureActivePriorityLead: a cache may hide the rows of this chassis, but otherwise shows current rows; a lagging read can produce ties. A boost's read and write are one step.
- Failover.NoReverseFailover: chassis are one abstract identity. The code compares raw names in one place and shortened ones in another.
- TakeoverProtocol.ReleaseIsVouched: assumes that the awaited markers were empty or named the stopping chassis when its main loop ended; markers another chassis left before that release without a new stamp. A poll reads the current markers. Which gateway port returns during the wait is only logged and is not modelled.
- RouteSync.RouteManager.EnsureRoutes: listings are faithful when they succeed. The memo never holds an empty reply, as in the code; FRR's listing order and the dry-run branches are not modelled.
- RouteSync.RouteManager.VerifyRoutes: decides on the repair of an unresolvable next hop; what flapping the veth address does to the routes is not part of this model.
- DesiredState.ComputeDesiredState: net.ParseIP and net.ParseCIDR are parameters with the laws used.
- PrefixList.Daemons.ReconcileFRRPrefixList: starts from copies that agree; they stay so as long as nothing conflicts. The copies hold agent-shaped entries only; foreign entries of the same list are not modelled.
- FlowMatch.NormalizeActions: lower-casing is that of ASCII text. The rendering of addresses by net.IP.String is a parameter with its laws.
- FlowMatch.DesiredHairpinFlows: the discovery of patch ports and their OpenFlow numbers is a given table of bindings.
- FlowPlane.RouteManager.ReconcileFlowPlane: a dump is faithful when it succeeds; foreign flows with the agent's own match and priority are not modelled.
- RefreshLoop.NoLostWakeup: runs start after startup, where signals are discarded on purpose. Changes of tables that no handler signals are not changes here. The atomic actions are those of the Go memory model's synchronised operations; the metrics use of an observation is not modelled.
- RefreshJoin.RefreshState: the SNAT list is specified as a set of addresses, the code may repeat one; the count of floating addresses, which is only logged, is not specified.
- FrrWatch.FrrWatchState.Step: the polling goroutine and its ticker are not modelled, polls come with their times.
- DriftWatch.DriftWatcher.Run: the clock is read once per event; a retry wait that a shutdown cuts short counts in full.
- NftRules.BuildNftRuleset: produces rules, not their text; addresses are compared as texts, and the source hash and the containment in a network are parameters.
- StaleChassis.Agent.CleanupStaleChassis: the fallback of a listing to a lagging cache is not modelled; short and full hostnames are one identity.
- CacheGuard.AuthoritativeList: the server does not change between the two selects. Columns outside the check columns (names, logical ports) may still be stale, as in the code.
- CacheGuard.KeyUniqueIff: rows that render with the unit separator in a column are not characterised.
- The monitor process of the flow watch, netlink, vtysh, nft and libovsdb themselves: only the resulting table change and the outcome are modelled.
- Configuration decoding, TLS, metrics, logging, readiness, documentation generation and the generated database models: no property that spans operations.
- The other database writers (EnsureGatewayRouting, removal of the local managed entries) and the veth-leak rules.
