# A verified model of netd's routing policy, socket marks, tethering and helper protocols

netd is the Android daemon that turns network policy into kernel state. This project models the
parts of it that decide where packets go and proves what they promise.

* **Rules.** The kernel's policy rules are a multiset of entries (priority, action or table,
  mark/mask, input and output interface, uid range), walked in priority order; a table lookup may
  miss and fall on to the next rule. Duplicate rules count, a deletion removes one equal rule or
  fails, and any request may fail before or after it took effect.
* **Controller.** `RouteController` and `NetworkController` are classes with the fields the program
  updates in place: networks, interfaces, uid ranges by subpriority, permissions, the default
  network, the interface-to-table cache. A ghost `trace` keeps every kernel state on the way, a
  ghost `aborted` flag says that an operation gave up after it had begun to change something, and a
  ghost `refused` flag that the kernel itself refused a request it had no reason to refuse. While
  `refused` is down, `Proper` requests (names that fit, ranges that can be added or are there to be
  removed) never give up.
* **Socket marks.** `FwmarkServers` is the mark state machine, `Policies` the questions it asks.
* **Filter program, tethering chains and counters, iptables-restore protocol, netlink messages** are
  modelled in their own files, each with the interpreter, evaluator, environment or decoder needed
  to say what it means.

`Expected` in `RuleSet.dfy` is the specification of the kernel's rules: what the in-memory state
calls for, on top of the start-up rules and the reject rules of the history (`FixedRules`). `Steers` in
`Steering.dfy` is the routing policy itself, a table stated on packets alone: which packets are sent
where, and with what precedence. The main results are that the rules equal `Expected` after every run
(`Runs.Run`), that rules which equal it do exactly what the table says, for every packet
(`Steering.RulesAreTable`, `Steering.WalkIsTable`), and that this gives delivery to the default network
and capture by VPNs (`Steering`), lockdown, isolation and stable connections (`RoutingTheorems`) and the
default that the rules rank best (`PerAppDefaults`), hence in every reachable state
(`ReachableStates.RunIsSafe`).
`RuleMessages` follows each rule down to the bytes of its netlink message.

| file | contents |
|---|---|
| `Fwmark.dfy`, `IpRules.dfy`, `RuleSet.dfy` | marks and masks, rules and their evaluation, what each operation asks for |
| `UidRanges.dfy`, `Sums.dfy` | sorted range lists; order-free sums of multisets |
| `RouteController.dfy`, `NetworkController.dfy`, `Runs.dfy`, `ReachableStates.dfy` | the two controllers, whole runs, and what every reachable state guarantees |
| `NetworkStates.dfy`, `RuleMembers.dfy`, `SyncSteps.dfy`, `PermissionSteps.dfy`, `Progress.dfy` | how state and rules move together, and why requests in agreement cannot fail by themselves |
| `Policies.dfy`, `FwmarkServer.dfy`, `RoutingTheorems.dfy`, `PerAppDefault.dfy`, `Steering.dfy` | users, marks and what happens to packets |
| `SockDiag.dfy`, `TetherChains.dfy`, `TetherController.dfy`, `TetherStats.dfy`, `IptablesRestore.dfy`, `Netlink.dfy` | the other components |
| `RuleMessages.dfy` | from the rules of the routing policy to netlink messages |

`dafny verify dfyconfig.toml` checks the project.

## Where the program does not do what one would expect

Each of these is stated by a lemma, next to the exact condition under which the program does meet it.

* `hasUid` misses uids when ranges nest or are inverted (`HasUidMisses`). On a sorted list it is
  membership for every uid if and only if the list is `Searchable`: no range reaches past the end of a
  later one, unless the range after that one has already started there (`HasUidExactly`).
* The kernel sends a uid to the network whose rules for it are ranked strictly best, whatever ranges
  the networks hold (`KernelDefault`, `Wins`). The controller looks for the uid with `hasUid` instead,
  so after two additions of ranges that nest, each accepted by itself, it chooses no network while the
  kernel uses the one that holds them (`NestedRanges`, `NestedDisagrees`). Where ranges are searchable
  and have no negative end, the controller's choice is the kernel's if and only if it is `Undisputed`:
  the chosen network has rules, no other physical network with interfaces ties with it, and, if it is
  the unreachable network, no physical network with interfaces competes (`PerAppDefaultAgrees`).
* A protected, implicit mark on a VPN's netId can arise without SELECT_FOR_USER, by PROTECT after the
  VPN is gone and before its netId is used again (`RecyclingFools`); `ProxyLookExactly` says which
  single command does it, and `NoProxyLookWithoutRecycling` that it never happens otherwise.
* `destroyNetwork` accepts the netId of the dummy network. Once `dummy0` is then in a restricted
  network, an app without the permission reaches it by binding to that interface (`DummyLeaks`), and
  once it has left again, rules name a table that is gone (`DummyDangles`). An intruder reaches a table
  of a network if and only if it is bound to `dummy0` and the rule made for it at start-up names that
  table (`RestrictedIsolation`); a rule names an unknown table if and only if the start-up rules of
  `dummy0` do (`NoDanglingTable`). Neither happens while the dummy network exists (`DummyKeepsOut`).
* Disabling a pair that is not active takes away another pair's raw rules, in both families, exactly
  when an active pair has the same downstream interface (`DisableInactive`).
* The acknowledgement is found in its place exactly when the text before it contains none
  (`AckFoundInPlace`); two harmless answers can make one where they meet (`AnswersMayCross`), and an
  answer left unread after a failed poll is given to the next command (`StaleAnswer`).
* The loopback test reads IPv4-mapped addresses without converting them to host order
  (`MappedLoopback`).
* The attribute walk leaves a message whose last attribute is unpadded if and only if padding was due
  and no attribute is of the kind looked for (`UnpaddedWalkFaults`); assembled requests are padded
  (`RuleRoundTrip`).

One more fact shapes the statements. `setDefaultNetwork` can leave the new network flagged as default
when removing the old one fails (`SwitchDefault` states both outcomes), so agreement with the kernel is
claimed of runs in which nothing was given up half-way.

## Model

| member | source | states |
|---|---|---|
| `Fwmarks.BitsRoundTrip` | include/Fwmark.h:24-35 | a number that fits its field is read back unchanged |
| `Fwmarks.EncodeInjective` | include/Fwmark.h:24-35 | the record of fields and the 32-bit word determine each other |
| `Fwmarks.MaskTestIsFieldTest` | include/Fwmark.h:24-44 | the kernel's (mark & mask) == fwmark test on words is the field-by-field test of a rule, for every mark |
| `Fwmarks.MarkWithinMask` | server/RouteController.cpp:274-278 | every mark a builder makes passes the check that no bit lies outside the mask |
| `UidRangeLists.LowerBound` | server/UidRanges.cpp:62-66 | the search position splits the list into ranges below and not below (uid, uid) |
| `UidRangeLists.HasUidSound` | server/UidRanges.cpp:62-73 | on every sorted list, a uid that hasUid reports is in some range |
| `UidRangeLists.HasUidExactly` | server/UidRanges.cpp:62-73 | on a sorted list hasUid is membership for every uid if and only if no range reaches past the end of a later one, unless the range after that one has already started there |
| `UidRangeLists.HasUidIsMember` | server/UidRanges.cpp:62-73 | a list whose stops do not decrease is searched correctly, derived from the exact condition |
| `UidRangeLists.NoOverlapSearchable` | server/UidRanges.cpp:62-73 | well-formed lists that overlapsSelf accepts are searched correctly, derived from the exact condition |
| `UidRangeLists.HasUidMisses` | server/UidRanges.cpp:62-73 | nested and inverted ranges hide uids |
| `UidRangeLists.MergeCorrect` | server/UidRanges.cpp:125-128 | merging sorted lists gives a sorted list holding the multiset sum |
| `UidRangeLists.DifferenceCorrect` | server/UidRanges.cpp:130-134 | the difference of sorted lists is sorted and is the multiset difference |
| `UidRangeLists.SortedUnique` | server/UidRanges.cpp:120-134 | a sorted list is determined by its multiset |
| `UidRangeLists.AddThenRemove` | server/UidRanges.cpp:125-134 | removing what was just added restores the exact list |
| `UidRangeLists.UidRanges.constructor` | server/UidRanges.cpp:120-123 | sorts the given ranges, keeping each as often as given |
| `UidRangeLists.UidRanges.HasUidSearch` | server/UidRanges.cpp:62-73 | the binary search computes HasUid and only claims members |
| `UidRangeLists.UidRanges.Add` | server/UidRanges.cpp:125-128 | the list becomes the sorted multiset sum |
| `UidRangeLists.UidRanges.Remove` | server/UidRanges.cpp:130-134 | the difference, written over the list itself, is the sorted multiset difference |
| `UidRangeLists.UidRanges.OverlapsSelf` | server/UidRanges.cpp:136-146 | answers whether any two ranges overlap |
| `UidRangeLists.OverlapMeans` | server/UidRanges.cpp:41-43 | ranges that are not inverted overlap if and only if they have a uid in common |
| `IpRules.WalkSelects` | server/RouteController.h:34-85 | whatever the order among equal priorities, the walk returns a deciding rule of least priority number, and none exactly when no rule decides |
| `RouteControllers.RouteController.constructor` | server/RouteController.cpp:1298-1316 | start-up installs the initial rules and the first none, one or two of the dummy interface's rules, and nothing else |
| `RouteControllers.RouteController.Request` | server/RouteController.cpp:265-351 | success means the request passed the checks and the multiset gained the rule or lost one copy it had; failure leaves either state, and a failure of a request that passes its checks and finds its rule is the kernel's refusal |
| `RouteControllers.RouteController.Issue` | server/RouteController.cpp:887-969 | a list of requests has its whole effect or fails, and every state on the way lies between the ends |
| `RouteControllers.EffectThen` | server/RouteController.cpp:887-969 | two batches in a row make one batch for the multiset sum |
| `RouteControllers.RouteController.TableFor` | server/RouteController.cpp:146-172 | a cached interface keeps its table; an unknown one is learned from its index; tables of distinct interfaces stay distinct |
| `RouteControllers.RouteController.InterfaceChanges` | server/RouteController.cpp:146-172 | the kernel may rename and renumber interfaces without disturbing cached tables |
| `RouteControllers.RouteController.IssueUids` | server/RouteController.cpp:894-929 | the requests of a whole uid range map, over subpriorities in no particular order |
| `RouteControllers.RouteController.ModifyPhysicalNetwork` | server/RouteController.cpp:887-969 | adds or deletes exactly the entries of one interface of a physical network, built for its cached table |
| `RouteControllers.RouteController.ModifyVirtualNetwork` | server/RouteController.cpp:1087-1128 | the same for a VPN |
| `RouteControllers.RouteController.ModifyUnreachableNetwork` | server/RouteController.cpp:1048-1068 | the same for the unreachable network's ranges |
| `RouteControllers.RouteController.ModifyDefaultNetwork` | server/RouteController.cpp:1130-1148 | one default-network rule |
| `RouteControllers.RouteController.ModifyFallthrough` | server/RouteController.cpp:1517-1534 | one fallthrough and one local-exclusion rule |
| `RouteControllers.RouteController.FlushRoutes` | server/RouteController.cpp:1266-1296 | the interface leaves the cache when its main table was flushed, and always if both were |
| `RouteControllers.RouteController.ClearTetheringRules` | server/RouteController.cpp:1228-1240 | on success no tethering rule of the input is left; nothing outside the tethering band changes |
| `RouteControllers.RouteController.AddInterfaceToPhysicalNetwork` | server/RouteController.cpp:1336-1352 | adds the interface's entries |
| `RouteControllers.RouteController.RemoveInterfaceFromPhysicalNetwork` | server/RouteController.cpp:1354-1374 | takes away exactly what the same arguments added, then forgets the table |
| `RouteControllers.RouteController.AddInterfaceToVirtualNetwork` | server/RouteController.cpp:1376-1385 | adds the interface's entries |
| `RouteControllers.RouteController.RemoveInterfaceFromVirtualNetwork` | server/RouteController.cpp:1387-1399 | takes away exactly what the same arguments added, then forgets the table |
| `RouteControllers.RouteController.AddInterfaceToLocalNetwork` | server/RouteController.cpp:1318-1325 | adds the local rules and caches the fixed table |
| `RouteControllers.RouteController.RemoveInterfaceFromLocalNetwork` | server/RouteController.cpp:1327-1334 | removes them and forgets the interface |
| `RouteControllers.MakeBeforeBreak` | server/RouteController.cpp:1401-1414 | adding first keeps every state above the old rules or above the final ones |
| `RouteControllers.RouteController.ModifyPhysicalNetworkPermission` | server/RouteController.cpp:1401-1414 | swaps the permission-based rules of an interface, make before break at every kernel state |
| `RouteControllers.RouteController.ModifyReject` | server/RouteController.cpp:1070-1085 | one prohibit rule per range |
| `RouteControllers.FixedApplied` | server/RouteController.cpp:1070-1085 | adding or deleting reject rules among the fixed ones changes the reject rules and no other |
| `RouteControllers.RouteController.ModifyTetheredNetwork` | server/RouteController.cpp:1150-1161 | one tethering rule |
| `NetworkStates.AddToSum` | server/Network.cpp:106-113 | adding ranges at a subpriority adds exactly their rules |
| `NetworkStates.RemoveFromSum` | server/Network.cpp:115-125 | removing ranges that are there removes exactly their rules, also when the entry disappears |
| `NetworkStates.AddVpn` | server/NetworkController.cpp:984-1005 | a further VPN adds one fallthrough and one exclusion rule per interface of the default network |
| `RuleMembers.ExpectedMember` | server/RouteController.cpp:887-1128 | an entry is expected exactly if it is fixed, or a network, or the default network's role, calls for it |
| `RuleMembers.MarkerExpectedCount` | server/RouteController.cpp:836-862 | the expected rules hold a range's own rule exactly as often as the range is listed |
| `SyncSteps.RemovedWerePresent` | server/PhysicalNetwork.cpp:187-200 | if a kernel in agreement gave up the rules of some ranges, the network had those ranges that often |
| `SyncSteps.SyncDefault` | server/NetworkController.cpp:173-208 | switching the default moves rules and expectation together |
| `SyncSteps.SyncCreateVirtual` | server/NetworkController.cpp:444-468 | creating a VPN moves rules and expectation together |
| `SyncSteps.SyncErase` | server/NetworkController.cpp:470-520 | destroying an empty network moves rules and expectation together |
| `SyncSteps.SyncJoin` | server/PhysicalNetwork.cpp:202-218 | an interface joining moves rules and expectation together |
| `SyncSteps.SyncLeave` | server/PhysicalNetwork.cpp:220-240 | an interface leaving moves rules and expectation together, the cache forgetting it |
| `SyncSteps.SyncAddUsers` | server/PhysicalNetwork.cpp:170-185 | added ranges move rules and expectation together |
| `SyncSteps.SyncRemoveUsers` | server/PhysicalNetwork.cpp:187-200 | removed ranges move rules and expectation together, whatever was asked to be removed |
| `SyncSteps.SyncPermission` | server/PhysicalNetwork.cpp:107-142 | a permission change moves rules and expectation together |
| `SyncSteps.SyncReject` | server/RouteController.cpp:1070-1085 | reject ranges only ever touch the reject rules |
| `Progress.PartInstalled` | server/RouteController.cpp:887-1128 | in agreement, every part of what is expected is in the kernel, as often as expected |
| `Progress.IfaceInstalled` | server/PhysicalNetwork.cpp:220-240 | in agreement, all rules of an interface, its part in the default network included, are there to be deleted |
| `Progress.LinkInstalled` | server/NetworkController.cpp:984-1005 | in agreement, all rules that tie a VPN to the default network are there to be deleted |
| `Progress.IfaceSendable` | server/RouteController.cpp:274-296 | the rules of an interface with a name that fits, in a network with good ranges, pass their checks |
| `Progress.UsersSendable` | server/RouteController.cpp:836-884 | the rules of good ranges pass their checks on every interface of the network |
| `Progress.UsersInstalled` | server/PhysicalNetwork.cpp:187-200 | in agreement, the rules of ranges that a network has are there to be deleted, as often as they are listed |
| `NetworkControllers.NetworkController.constructor` | server/NetworkController.cpp:144-166 | starts with the local, dummy and unreachable networks, in agreement with the kernel |
| `NetworkControllers.NetworkController.ModifyDefault` | server/PhysicalNetwork.cpp:30-53 | the default rule of an interface and the fallthrough rules of every VPN |
| `NetworkControllers.NetworkController.ForEach` | server/PhysicalNetwork.cpp:144-185 | a change made on each interface has the sum of the changes as its effect |
| `NetworkControllers.NetworkController.SetAsDefault` | server/PhysicalNetwork.cpp:144-168 | becoming or ceasing to be the default; nothing happens if it already is |
| `NetworkControllers.NetworkController.SwitchDefault` | server/NetworkController.cpp:186-207 | with interfaces on both sides, no kernel state on the way is without a default-network rule, even if requests fail; in agreement it fails only if the kernel refuses |
| `NetworkControllers.NetworkController.SetDefaultNetwork` | server/NetworkController.cpp:173-208 | the same, with the error answers; in agreement and without refusals it succeeds exactly for an unset, or an existing physical, network |
| `NetworkControllers.NetworkController.CreatePhysicalNetwork` | server/NetworkController.cpp:386-416 | the error for every kind of bad netId, and the new state |
| `NetworkControllers.NetworkController.ModifyFallthroughLocked` | server/NetworkController.cpp:984-1005 | one VPN's fallthrough rules over the default network |
| `NetworkControllers.NetworkController.CreateVirtualNetwork` | server/NetworkController.cpp:444-468 | the error answers, the new state, and agreement with the kernel; unless the kernel refuses it succeeds exactly for a free, valid netId and VPN type |
| `NetworkControllers.NetworkController.AddInterface` | server/PhysicalNetwork.cpp:202-218 | the three kinds of network that take interfaces; in agreement, unless given up half-way, it succeeds exactly if the network has the interface or can find its table; with a name that fits and good ranges only the kernel's refusal makes it give up |
| `NetworkControllers.NetworkController.RemoveInterface` | server/PhysicalNetwork.cpp:220-240 | the same for leaving; in agreement it succeeds unless the kernel refuses |
| `NetworkControllers.NetworkController.AddInterfaceToNetwork` | server/NetworkController.cpp:522-555 | refuses an interface of another network, so interface sets stay disjoint; records the last netId; succeeds exactly if the interface is free and can join |
| `NetworkControllers.NetworkController.RemoveInterfaceFromNetwork` | server/NetworkController.cpp:557-566 | keeps invariants and agreement, given up only if the kernel refuses |
| `NetworkControllers.NetworkController.ClearInterfaces` | server/Network.cpp:48-58 | empties the network unless a removal failed, which in agreement is the kernel's refusal |
| `NetworkControllers.NetworkController.DestroyNetwork` | server/NetworkController.cpp:470-520 | the network is gone whatever failed, no last-netId entry names it, and the default is unset if it was it; in agreement it succeeds exactly for physical and virtual networks unless the kernel refuses |
| `NetworkControllers.NetworkController.AddUsersToNetwork` | server/NetworkController.cpp:624-632 | error answers, the merged ranges, agreement; ranges whose rules pass their checks are given up only if the kernel refuses |
| `NetworkControllers.NetworkController.RemoveUsersFromNetwork` | server/NetworkController.cpp:634-642 | error answers, the remaining ranges, agreement; ranges that the network has are given up only if the kernel refuses |
| `NetworkControllers.NetworkController.SetPermission` | server/PhysicalNetwork.cpp:107-142 | in every kernel state on the way each interface has an explicit-network rule and the uid-based rules are the original ones; in agreement it fails only if the kernel refuses |
| `NetworkControllers.NetworkController.SetPermissionForNetworks` | server/NetworkController.cpp:586-605 | the listed networks have the permission, all of them on success and a prefix otherwise, and no other changes; unless the kernel refuses it succeeds exactly if all are physical |
| `PermissionSteps.StepIsSafe` | server/RouteController.cpp:1401-1414 | one interface's change never uncovers any interface nor touches a uid-based rule |
| `PermissionSteps.PermissionInstalled` | server/PhysicalNetwork.cpp:107-142 | in agreement, all permission-based rules of a network are there to be exchanged |
| `NetworkControllers.NetworkController.RejectNonSecureVpn` | server/RouteController.cpp:1416-1422 | on success every range has its prohibit rule, and the reject rules are those before with the ranges' rules added or removed; good ranges fail only if the kernel refuses |
| `NetworkControllers.NetworkController.ModifyTethering` | server/RouteController.cpp:1509-1515 | tethering never disturbs agreement; on success every packet from the input is forwarded to the table of the output |
| `NetworkControllers.TetheringForwards` | server/RouteController.cpp:1150-1161 | a tethering rule matches exactly the packets from its input interface |
| `NetworkControllers.NetworkController.AddInterfaceAddress` | server/NetworkController.cpp:659-666 | records the address; index 0 is ignored |
| `NetworkControllers.NetworkController.RemoveInterfaceAddress` | server/NetworkController.cpp:669-705 | sockets are kept if and only if the address is still on another interface of the same live VPN; no address is left with an empty set |
| `Runs.Apply` | server/NetworkController.cpp:144-705 | any one request keeps the bookkeeping invariants and moves networks, default and reject rules as its answer tells; agreement is kept unless it gives up after changing something; a proper one, unless the kernel refuses, does not give up and succeeds if and only if it should |
| `Runs.Run` | server/NetworkController.cpp:144-705 | after any run from start-up the bookkeeping invariants hold, networks, default and reject rules follow from requests and answers, and unless some operation gave up half-way the rules outside the tethering band are exactly the start-up rules, the reject rules of the history and what the networks call for; if all requests are proper and none is refused nothing is given up and each succeeds if and only if it should |
| `ReachableStates.RunIsSafe` | server/NetworkController.cpp:144-705 | in every state reached by a run in which nothing was given up half-way, in particular by proper requests that are not refused: the rules are the policy table, every packet is decided by its best entry, the default network and VPNs get what is theirs, lockdown, exact isolation, no rule for unknown tables, stable connections and the exact per-app defaults, for every packet, every set of routes and every order of equal-priority rules |
| `ReachableStates.SyncedLocksDown` | server/RouteController.cpp:517-569 | agreement with the kernel implies lockdown, quantified over packets, routes and rule orders |
| `ReachableStates.SyncedIsolates` | server/RouteController.cpp:578-696 | agreement implies that an intruder reaches a restricted network only through the start-up rule of the dummy interface, if and only if it names that network's table, and never while the dummy network exists |
| `ReachableStates.SyncedKeepsConnections` | server/RouteController.cpp:655-676 | agreement implies that connected sockets keep their network |
| `ReachableStates.SyncedHonoursDefaults` | server/RouteController.cpp:864-884 | agreement implies that the kernel's per-app default is the network ranked best, whatever the ranges, and on searchable ranges the controller's choice exactly if undisputed |
| `ReachableStates.SyncedDecidesAll` | server/RouteController.cpp:817-824 | agreement implies that the walk decides every packet, because the final unreachable rule is installed |
| `ReachableStates.SyncedNamesCachedTables` | server/RouteController.cpp:1266-1296 | agreement implies that a rule names a table which is neither constant nor cached exactly if the start-up rules of the dummy interface do |
| `ReachableStates.RunningFollowsTable` | server/RouteController.cpp:480-1148 | agreement implies that rules and incoming marks are exactly those of the policy table |
| `ReachableStates.RunningDecidesByTable` | server/RouteController.h:34-85 | agreement implies that every packet is decided by the best entry of the table |
| `ReachableStates.RunningDelivers` | server/RouteController.cpp:1130-1148 | agreement implies delivery to the default network |
| `ReachableStates.RunningCaptures` | server/RouteController.cpp:512-541 | agreement implies capture by VPNs |
| `ReachableStates.SyncedIsSafe` | server/NetworkController.cpp:144-705 | agreement implies all of these together |
| `Runs.UndoPhysical` | server/RouteController.cpp:887-969 | deleting with the same arguments restores the rules although names and indices changed in between, and fails only if the kernel refuses |
| `Runs.UndoVirtual` | server/RouteController.cpp:1087-1128 | the same for a VPN, including when the deletion fails |
| `Runs.UndoUnreachable` | server/RouteController.cpp:1048-1068 | the same for the unreachable network, including when the deletion fails |
| `Policies.FirstSub` | server/Network.cpp:96-104 | the least subpriority whose ranges hold the uid |
| `Policies.GetVirtualNetworkForUser` | server/NetworkController.cpp:845-853 | the VPN of least netId that applies, or none applies |
| `Policies.BestBelowIsBest` | server/NetworkController.cpp:855-881 | the search keeps the least subpriority, then the least netId, and skips ranges without a default |
| `Policies.GetPhysicalOrUnreachableNetworkForUser` | server/NetworkController.cpp:859-881 | the loop finds the best default of the uid |
| `Policies.NetworkForConnect` | server/NetworkController.cpp:297-306 | the bypassable VPN of least netId that applies, if the first that applies is one; else the best per-app default of the uid; else the default network; never a secure VPN |
| `Policies.NetworkForUser` | server/NetworkController.cpp:264-273 | the VPN of least netId that applies; else the best per-app default of the uid; else the default network |
| `Policies.AccessExactly` | server/NetworkController.cpp:891-937 | for a user without SYSTEM, which networks of each kind may be selected, if and only if, and the error otherwise: physical networks by range, or by allow list and permission, unless a secure VPN holds the user |
| `Policies.AccessAtAll` | server/NetworkController.cpp:891-907 | a missing network, an unknown user, and SYSTEM users |
| `Policies.SystemUsers` | server/NetworkController.cpp:883-889 | who has the SYSTEM permission, and what permission every other user has |
| `Policies.AccessUnderSecureVpn` | server/NetworkController.cpp:891-937 | under a secure VPN an unprivileged user may select exactly the VPNs that apply to it |
| `Policies.OwnNetworksNeedSystem` | server/LocalNetwork.h:27 | the local and the dummy network can be selected with the SYSTEM permission only |
| `FwmarkServers.ProcessClient` | server/FwmarkServer.cpp:99-325 | the edited mark is the one the specification gives, field by field, or the mark is untouched and the error is the specified one |
| `FwmarkServers.EffectOf` | server/FwmarkServer.cpp:160-317 | what each command makes of each field of the mark, the chosen netId being the first VPN that applies to the commanded user, its best per-app default or the default network |
| `FwmarkServers.StaysConfined` | server/FwmarkServer.cpp:160-317 | whatever a user who may not protect does, a fresh socket stays unprotected and without SYSTEM |
| `FwmarkServers.ProtectionEarned` | server/FwmarkServer.cpp:249-291 | the protect bit first appears at a command from a user who may protect at that moment |
| `FwmarkServers.ProxyLookExactly` | server/FwmarkServer.cpp:168-282 | which single command can produce a protected implicit mark on a VPN netId, if and only if |
| `FwmarkServers.NeverProxyLook` | server/FwmarkServer.cpp:168-282 | no run produces one if PROTECT is only used while the socket's VPN exists |
| `FwmarkServers.NoProxyLookWithoutRecycling` | server/FwmarkServer.cpp:168-282 | no run produces one if netIds are not recycled |
| `FwmarkServers.RecyclingFools` | server/FwmarkServer.cpp:266-282 | with recycling one arises, for every VPN and user |
| `RoutingTheorems.RuleOrigin` | server/RouteController.cpp:480-1148 | every installed rule outside the tethering band has one of the listed shapes and an owner |
| `RoutingTheorems.Lockdown` | server/RouteController.cpp:517-569 | with a prohibit rule for its uid, an ordinary packet is prohibited or taken by a secure VPN that holds the uid |
| `RoutingTheorems.VpnLockdown` | server/FwmarkServer.cpp:160-325 | the same end to end, after any run of the user's own commands on a fresh socket |
| `RoutingTheorems.RestrictedIsolation` | server/RouteController.cpp:578-696 | a packet that selected a physical network without its permission, not root and outside its ranges, matches a rule to a table of that network if and only if it is bound to the dummy interface and the start-up rule for that interface names the table |
| `RoutingTheorems.DummyKeepsOut` | server/RouteController.cpp:797-803 | as long as the dummy network exists, that start-up rule names no table of a physical network |
| `RoutingTheorems.DummyLeaks` | server/NetworkController.cpp:470-520 | once it is destroyed and its interface joins a restricted network, an ordinary app reaches that network |
| `RoutingTheorems.ConnectedStaysPut` | server/RouteController.cpp:655-676 | from the implicit bands on, a socket marked with a permission-free network is routed to one of its interfaces |
| `RoutingTheorems.ConnectThenStay` | server/FwmarkServer.cpp:168-210 | the same starting from the connect command that marked it |
| `RoutingTheorems.NoDanglingTable` | server/RouteController.cpp:1266-1296 | a rule leads to a table that is neither constant nor cached if and only if the start-up rules of the dummy interface do, and never while the dummy network exists |
| `RoutingTheorems.DummyDangles` | server/NetworkController.cpp:470-520 | once the dummy network is destroyed and its interface joins and leaves another network, rules name a table that has left the cache |
| `RoutingTheorems.AlwaysDecided` | server/RouteController.cpp:817-824 | some rule decides every packet, whatever the tables hold |
| `Steering.RulesAreTable` | server/RouteController.cpp:480-1148 | in agreement, for every packet, precedence and action, some rule outside the tethering band does it if and only if the policy table, stated on packets, has it |
| `Steering.WalkIsTable` | server/RouteController.h:34-85 | the kernel's decision for every packet is the entry of the table, or the tethering rule, with the best precedence that has a route |
| `Steering.DefaultDelivers` | server/RouteController.cpp:1130-1148 | a packet without a chosen network that nothing before decides goes to an interface of the default network, if it has the permission and there is a route |
| `Steering.VpnCaptures` | server/RouteController.cpp:512-541 | from a VPN's band on, a packet that is subject to it goes into a VPN that it is subject to or, with SYSTEM, the one of its own netId |
| `Steering.IncomingExactly` | server/RouteController.cpp:480-500 | exactly the packets that arrive on a network's interfaces are marked, each with the netId and permission of its network, explicit and protected |
| `PerAppDefaults.SearchIsSelector` | server/UidRanges.cpp:62-73 | on searchable lists without negative ends the search agrees with the uid selectors of the rules |
| `PerAppDefaults.KernelDefault` | server/RouteController.cpp:864-884 | whatever the ranges, the first per-uid default rules that match lead to a network if and only if its rules for the uid are ranked strictly best, and none matches if and only if no network has rules for the uid |
| `PerAppDefaults.UndisputedWins` | server/NetworkController.cpp:855-881 | on searchable ranges the controller's choice is the one ranked best if and only if it is undisputed |
| `PerAppDefaults.PerAppDefaultAgrees` | server/NetworkController.cpp:855-881 | on searchable ranges controller and kernel agree on a uid's default exactly when the choice is undisputed; with no choice, no per-uid default rule matches |
| `PerAppDefaults.UnreachableDisagrees` | server/RouteController.h:69-83 | the unreachable network is never the kernel's default of a uid for which a physical network has rules |
| `PerAppDefaults.NestedRanges` | server/Network.cpp:139-146 | two ranges, each accepted when added, merge into a list whose search misses a uid that it holds |
| `PerAppDefaults.NestedDisagrees` | server/NetworkController.cpp:855-881 | with those ranges the controller chooses no default for the uid, although undisputed, and the kernel uses the network |
| `SockDiags.ProgramMeaning` | server/SockDiag.cpp:468-523 | for every mark the program accepts exactly the sockets on the network without explicit bit and all permission bits |
| `SockDiags.ProgramAudited` | server/SockDiag.cpp:499-523 | jumps are in bounds and aligned, and every no-target is on the yes-path |
| `SockDiags.AuditedNeverFails` | server/SockDiag.cpp:499-523 | a program that passes the kernel's audit gives an answer for every mark, wherever its jumps lead |
| `SockDiags.JumpNeeded` | server/SockDiag.cpp:514-519 | without the final jump the same filter would be refused |
| `SockDiags.SurvivorsMatchRule` | server/RouteController.cpp:578-596 | a socket on the network survives exactly when its explicit-network rule admits the mark |
| `SockDiags.MappedLoopback` | server/SockDiag.cpp:263-282 | when the loopback test agrees with its IPv4 form on mapped addresses |
| `SockDiags.SockDiag.DestroySocketsLackingPermission` | server/SockDiag.cpp:468-549 | closes only the doomed sockets, all of them unless the kernel refused, counts them, and answers with the first error of the two dumps |
| `TetherChains.AddForwardMeans` | server/TetherController.cpp:742-748 | adding a pair puts its rules before the single DROP, which stays last |
| `TetherChains.RemoveForwardMeans` | server/TetherController.cpp:714-736 | removing a pair's rules leaves the other pairs' rules in place and order |
| `TetherChains.ForwardMeaning` | server/TetherController.cpp:714-748 | the chain passes a packet exactly when an active pair permits it |
| `TetherControllers.TetherController.constructor` | server/TetherController.cpp:495-529 | the chains after the hooks are set up |
| `TetherControllers.CheckIfaceName` | server/NetdConstants.cpp:57-76 | the loop accepts exactly the names of 1 to 16 characters that start with a letter or digit and go on with these or one of four signs |
| `TetherControllers.TetherController.SetDefaults` | server/TetherController.cpp:531-560 | what a reset leaves in each chain |
| `TetherControllers.TetherController.SetForwardRules` | server/TetherController.cpp:714-781 | adds or removes one pair's rules in every chain, counting rules only once per unordered pair; an addition answers 0 exactly if no command failed |
| `TetherControllers.TetherController.SetupUpstream` | server/TetherController.cpp:581-597 | masquerading for the upstream, and the alert and IPv6 counting rules for the first pair |
| `TetherControllers.TetherController.EnableNat` | server/TetherController.cpp:563-608 | error answers; with valid names it answers 0 exactly if no command failed, and then the pair becomes active and no other changes; no command fails unless iptables itself refuses |
| `TetherControllers.TetherController.DisableNat` | server/TetherController.cpp:783-792 | if no command failed the pair was active, and no other changes; for an active pair no command fails unless iptables itself refuses |
| `TetherControllers.AddWorks` | server/TetherController.cpp:714-781 | the chain invariant lets every command that adds a pair find what it refers to |
| `TetherControllers.RemoveWorks` | server/TetherController.cpp:714-781 | the chain invariant lets every command that removes an active pair find the rules it deletes |
| `TetherControllers.ReadyIsSound` | server/TetherController.cpp:652-781 | what the chain invariant means for packets of both families, masquerading and counting rules |
| `TetherControllers.RunNat` | server/TetherController.cpp:563-792 | over any history, unless iptables refuses, a command fails if and only if a pair is disabled that is not active; if none failed the active pairs are those of the history and the chains mean what they should |
| `TetherControllers.DisableInactive` | server/TetherController.cpp:714-768 | disabling an inactive pair removes raw rules, in IPv4 and in IPv6, exactly when an active pair shares the downstream; every other chain stays as it was |
| `TetherStatistics.AddStats` | server/TetherController.cpp:794-802 | merges into the entry of the same pair or appends |
| `TetherStatistics.AddForwardChainStats` | server/TetherController.cpp:819-906 | succeeds exactly when neither header line is blank, every further line is understood and no couple is half-read; the list is the one the specification gives |
| `TetherStatistics.ParsesListing` | server/TetherController.cpp:819-906 | it succeeds on every listing of adjacent mirrored rules, one entry per couple |
| `TetherStatistics.GetTetherStats` | server/TetherController.cpp:908-927 | each pair gets the sum of both families, one entry per pair, totals conserved |
| `TetherStatistics.AddedAt` | server/TetherController.h:119-128 | adding changes one pair's amount by exactly what was added |
| `TetherStatistics.StatsByInterface` | server/NetdNativeService.cpp:429-444 | one parcel per upstream, in sorted order, holding the sum over its pairs, totals conserved |
| `TetherStatistics.ReportAfterHistory` | server/NetdNativeService.cpp:408-444 | after any successful history the report succeeds and adds up to both families' counters |
| `IptablesRestores.AckFoundInPlace` | server/IptablesRestoreController.cpp:292-303 | the first acknowledgement is the command's own if and only if the text before it has none |
| `IptablesRestores.StaleAnswer` | server/IptablesRestoreController.cpp:316-323 | why a child with unread output must not be reused |
| `IptablesRestores.AnswersMayCross` | server/IptablesRestoreController.cpp:330-349 | two answers without acknowledgement can make one together |
| `IptablesRestores.Child.Stop` | server/IptablesRestoreController.cpp:75-86 | a child is stopped at most once |
| `IptablesRestores.DrainAndWaitForAck` | server/IptablesRestoreController.cpp:254-328 | with any chunking, delay or death, an acknowledged drain returns exactly the command's answer and leaves nothing unread; otherwise the child is stopped unless polling failed; and it is acknowledged unless polling fails, the child dies or keeps output back |
| `IptablesRestores.Converse` | server/IptablesRestoreController.cpp:220-236 | an acknowledged exchange wrote the command and the ping to the child and returns exactly the child's reply to it, with nothing left unread; a failed one returns a proper part of the reply |
| `IptablesRestores.Slot.Ready` | server/IptablesRestoreController.cpp:199-218 | a child that is gone is replaced, after being stopped, or forking failed |
| `IptablesRestores.Slot.SendCommand` | server/IptablesRestoreController.cpp:189-236 | success means that the present child received the command and then the ping; unless polling failed or an acknowledgement was garbled, its reply is what was appended, and failure appends a proper part and leaves a child that the next command will not use |
| `IptablesRestores.IptablesRestoreController.Execute` | server/IptablesRestoreController.cpp:330-349 | for clean replies and no failed poll, success returns the IPv4 reply to this command followed by the IPv6 reply, and success is reported unless a child is in trouble |
| `IptablesRestores.RunCommands` | server/IptablesRestoreController.cpp:189-349 | over any run with clean replies and no failed poll, the k-th command, if it reports success, returned its own replies, whatever became of the commands before it, and all succeed unless a child is in trouble; no child is stopped twice, replaced children were stopped |
| `Netlinks.RoundTripLE` | server/NetlinkCommands.cpp:214-224 | little-endian fields are read back unchanged |
| `Netlinks.WalkFinds` | server/NetlinkCommands.cpp:214-224 | on assembled attributes the walk stays in the message, does not wrap around, and finds the first attribute of the kind |
| `Netlinks.GetRtmU32Attribute` | server/NetlinkCommands.cpp:214-224 | the loop computes that walk |
| `Netlinks.Assemble` | server/NetlinkCommands.cpp:85-103 | the length field is the length of header and parts, modulo its width |
| `Netlinks.NoMaskNoMark` | server/RouteController.cpp:274-278 | an accepted request without a mask has no mark |
| `Netlinks.PadInterfaceName` | server/RouteController.cpp:238-251 | a name is refused exactly if it does not fit with its terminating zero |
| `Netlinks.ModifyIpRule` | server/RouteController.cpp:265-351 | the checks in the source's order give the specified refusal; an accepted request is sent as the specified message |
| `Netlinks.RuleRoundTrip` | server/RouteController.cpp:316-336 | the message (header of section 2.3.2 of RFC 3549) states its length, is aligned, and each field decodes to what was asked, 0 or missing if left out |
| `Netlinks.DecodedFields` | server/RouteController.cpp:1242-1248 | priority, table, mark and mask survive the trip |
| `Netlinks.DecodeEncode` | server/NetlinkCommands.cpp:214-224 | attributes are read back as they were written, whatever their payloads |
| `Netlinks.MessageDecodes` | server/RouteController.cpp:316-336 | the message of an accepted request holds its attributes and nothing else |
| `Netlinks.RulePayloads` | server/RouteController.cpp:313-336 | the uid range decodes to start and end in this order, the names to their bytes and a terminating zero, or they are missing |
| `Netlinks.HeaderDecodes` | server/RouteController.cpp:300-345 | the fixed part of the message holds the request, its flags, the address family and the action |
| `Netlinks.UnpaddedWalkFaults` | server/NetlinkCommands.cpp:214-224 | for every prefix, attribute list and unpadded last attribute: the unsigned length wraps around and the walk leaves the message if and only if padding was due and no attribute is of the kind; otherwise it answers as if padded |
| `RuleMessages.SendableIsAccepted` | server/RouteController.cpp:265-310 | a rule of the routing model passes the checks of its request if and only if its names fit and its uid arguments are both valid or both absent; the mask check never refuses |
| `RuleMessages.MessageMeansEntry` | server/RouteController.cpp:316-336 | the message of a rule decodes to its priority and table, and to a mark and a mask that select exactly the socket marks the rule admits |
| `RuleMessages.MessageSelects` | server/RouteController.cpp:313-336 | the message of a rule decodes to exactly its uid range and its interface names |
| `RuleMessages.InstalledFits` | server/RouteController.cpp:300-310 | in every state in agreement with the kernel the numbers of every rule fit the fields of its message, and no rule names table 0 |

## Left out

- RouteControllers.RouteController.Request: follows the rules of one address family; that a request can reach IPv4 and fail for IPv6 appears only as "failed, but took effect".
- Routes themselves: adding, updating and flushing routes either works or fails and has no further meaning; `isLocalRoute` and the fixed local routes are not modelled.
- The kernel's own priority-0 local rule, which netd leaves alone when it flushes rules at start-up.
- Interface indices: an index whose table is still cached is not given to another interface, and no VPN interface or tethering input is named "lo".
- Per-network allow lists: `setNetworkAllowlist` is not an operation of the runs, although the access check consults the list.
- DNS: `getNetworkForDnsLocked` and `getNetworkContext`.
- OEM networks: `createPhysicalOemNetwork` picks a free netId and then does what `CreatePhysicalNetwork` does.
- Which sockets a permission change closes is proved for the closing itself; `SetPermission` does not call it, because sockets have no bearing on rules.
- The address filter program of `sendDumpRequest`, the TCP-info dump and the other socket-closing loops.
- FwmarkServers.ProcessClient: message layout, credentials and the connect event are reduced to whether the message was well formed and the socket readable and writable.
- TetherControllers.TetherController.SetForwardRules: after a failed iptables command nothing is claimed of the chains, because a failed table commit is not observed.
- TetherStatistics.AddForwardChainStats: lines are structured values, so the regular expression is not modelled, and counters are unbounded instead of 64-bit.
- Tethering daemons, forwarding requests and DNS forwarders.
- IptablesRestores.DrainAndWaitForAck: standard error is only logged by the program and is left out; time is counted in polls.
- Netlinks: dumps, acknowledgements and the flush loop.
- BandwidthController, MDnsSdListener, FirewallController, StrictController, IdletimerController, the binder services and the client library.
- Locks: each public method is one atomic step; states on the way are exposed where make-before-break needs them.
