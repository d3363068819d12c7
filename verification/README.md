# Proved models of cfab's hard core

This project models four parts of cfab in Dafny and proves what they are for:

- **the derived cost model**: wire orders, ladder costs, the universal segment, the zone graph and the
  equal-cost gate (`Fabrics`, `Derive`, `Preferences`, `PathGraph`, `EqualCostGate`, `BroadcastGraph`,
  `ZoneGraph`, `CostModel`, `CostLaws`, `Validation`);
- **the peer-witness configuration protocol**: publishers under an expiring lock and N members over a
  shared store, with crashes at any step (`ConfMember`, `ConfProtocol`, `ConfInvariants`, `ConfSafety`,
  `ConfGuarantees`, `ConfStatus`, `ConfRuns`, `ConfOrphans`), and the two programs that take its steps
  (`ConfSync`, `ConfPublish`);
- **policy routing**: a lookup semantics for rules and tables, the rule generators, and installing, syncing
  and removing the host default one command at a time (`RoutingRules`, `HostDefault`, `ReturnPath`,
  `RuleStore`, `HostRules`);
- **smaller cores**: IPv4 prefixes and the address plan (`Prefixes`, `AddressPlan`, `AddressSharing`), bond
  legs (`BondLeg`), the iptables ceiling (`Ceiling`, `CeilingHost`) and the fail-closed order of apply (`ApplyOrder`).

`Wrappers`, `Seqs` and `Bytes` hold an Option, distinct sequences and a few plain facts.
`dafny verify dfyconfig.toml` verifies everything; no file needs another project.

## How the parts fit

*Costs.* `ZoneGraph.GraphOf` is the directed multigraph the gate builds, arc for arc; the loops that push the
arcs are methods proved equal to it. `EqualCostGate.CountShortest` is the Dijkstra with counts, over counts
that wrap modulo 2^32, proved against `PathGraph.Ways`, which counts walks; `PathGraph.PathsCounted`,
`Listed` and `ListedOnce` show that this number is the number of distinct paths. `BroadcastGraph` proves the
two global facts for any graph of broadcast segments, and `CostModel` shows that a zone graph is one.
`CostLaws` says what the derived numbers mean there: what a hop costs, what the universal cost is the sum of,
and which hosts the rank gate is about.
`Validation.Validate` runs the declaration checks and the gate, and accepts exactly the fabrics all of that
relies on.

*Configuration.* `ConfMember.Step` splits one tick into the steps other processes can see between;
`ConfProtocol.Next` interleaves members, publishers, time and crashes. `ConfSafety.ReachableIsInv` carries one
invariant over every run, and `ConfGuarantees` reads the promises off it. `ConfSync.ConfSync.Tick` is the
daemon with its fields and files: it is proved to take only member steps, each of them a move of the protocol
where it finds what it was told, and to leave exactly the files its outcome says.

*Routing.* A rule decides a packet or passes it on, as the kernel does: no match, a `throw` route and a
suppressed match all go on to the next rule. Every theorem is about all packets and all contents of main;
`HostRules` keeps the list of every kernel state its commands leave and proves the packet-level claim of each.

## Where the code differs from its own words

Each is proved as a lemma, with the exact condition or a concrete run.

- A pin at 2099 does not hold a packet when main has no route for it: the lookup falls through to table 250
  (`HostDefault.PinNeedsMain`). The comment at `src/commands/common.rs:541` says such a packet reaches nothing.
- The host default does not leave everything else untouched (`src/commands/common.rs:200-203`): its rules stand in
  front of later rules of others. `RuleStore.EmptyChangesAPacket` is such a packet, with table 250 empty.
  `HostDefault.EmptyChangesExactly`, `PinnedChangesExactly`, `SkipChangesExactly` and `InstalledChangesExactly` say
  for which packets the result changes while no other rule at 2099 to 2103 decides the packet, and
  `RuleStore.ChangesOnlyByOwn` says it for any list, by the rule that decides the packet and the others past it.
- The delete of the 250 route is not checked (`src/commands/common.rs:626`), so the pins can go while the route
  stays. `HostRules.HostRules.RemoveHostDefault` keeps the floor safe on the runs that leave the table empty;
  `HostRules.RemoveWithRouteLeft` is what happens on the others, and `HostRules.RouteLeftRun` is one of them.
- An address listed twice on the floor device, under two prefix lengths, and not yet pinned makes the pin sync
  fail, and with it the whole install, although every command works: the second add is refused
  (`HostRules.HostRules.SyncFloorRules`, whose `CanSync` is the exact condition).
- A zone numbered 254 has main as its table (`ReturnPath.Zone254TakesMain`). `src/model.rs:926-931` says ids go
  to 254 and refuses only 0, so 255 is accepted too.
- A publisher that dies between its two renames leaves a text of no generation, and a member still on its way
  commits it for the generation before (`ConfRuns.OrphanTextIsCommitted`). `ConfOrphans.CommittedTextExactly` says
  which members hold the generation's text, by what was stored as they read; `ConfOrphans.AgreementExactly` says
  it ahead: before anybody has tried a generation, every run of the members ends in its text exactly when that is
  what is stored, or nobody can commit what is.
- A status command killed by a signal reports -1 (`src/sys.rs:140`), which is not above 1 and so passes
  (`ConfRuns.KilledStatusCommits`). A commit by applying rests on a status of 0 or 1 exactly when the command was
  not killed (`ConfStatus.CommitRestsOnItsStatus`), and an ack of -1 says that it was (`ConfStatus.AckTellsKilled`).
  A status that fails to run its checks exits 1 (`src/main.rs:159`) and passes too, although
  `src/commands/conf_sync.rs:247` reads 1 as UP-DEGRADED.
- A crash, or a status command that cannot be started, leaves the new text as the local file with no witness and
  no commit (`ConfRuns.CrashKeepsUnwitnessedText`); what a local file can be at all is `ConfStatus.LocalComesFrom`.
- A reverted tick restores the bytes from before it exactly when there was a local file
  (`ConfSync.RevertedRestores`, `ConfRuns.NoRevertTargetKeepsFailedText`).
- Workload addresses are kept apart within one row only, so an accepted plan may give one address to two members
  (`AddressSharing.WorkloadsMayShareAddresses`). The same members can come to that exactly when two workloads leave
  one address to members and two members are hosts (`ClashPossibleExactly`); for prefixes of at most 29 bits the
  former is overlap (`ClashPossibleIsOverlap`). Disjoint prefixes always keep the addresses apart.
- The comment at `src/model.rs:336-338` says two overlapping prefixes need not contain each other's network
  address; the shorter one always contains the longer one's (`Prefixes.OverlapsUnderShorter`).

## Model

| member | source | states |
|---|---|---|
| Preferences.OrderIsComplete | src/derive.rs:333-367 | derived or overridden, the order of a valid member and zone lists exactly its candidate wires, each once |
| Preferences.OverrideIsUsed | src/derive.rs:337-344 | where a prefs row names the member and zone the first such row is the order |
| Preferences.DerivedOrder | src/derive.rs:346-365 | where none does, the order has the wire on the zone's primary domain first and the rest by speed, equally fast ones as the member declares them |
| Preferences.LadderLaw | src/derive.rs:121-130 | rank 0 costs 10, rank 1 one step and each further rank one step more, so two hops at rank 0 are below one at any other |
| Preferences.RowNeverPanics | src/derive.rs:369-411 | in a valid fabric neither panic of the row derivation can happen, and a row's cost is the ladder cost of its wire's rank |
| Preferences.CostsApart | src/derive.rs:399-408 | two rows of one member in one zone never cost the same |
| Preferences.HomeIsFirst | src/derive.rs:432-443 | exactly one row of the zone costs 10, it is on the first wire of the order, and the cheapest scan finds it |
| Derive.HomeWire | src/derive.rs:432-443 | the running minimum is the wire of the first cheapest row of the zone |
| Derive.ScanForCheapest | src/derive.rs:433-442 | the loop over all rows gives the cheapest row of the zone, first on a tie |
| ZoneGraph.BuildEdges | src/derive.rs:640-687 | the loops push exactly the arcs of the zone graph, in order |
| ZoneGraph.PushPair | src/derive.rs:660-685 | one ordered pair gets an arc per shared domain segment and one per universal segment, each with the sender's leaf offset |
| ZoneGraph.ListedArc | src/derive.rs:660-686 | every arc of a pair is of a domain segment both carry or of a universal one, at the sender's cost plus its offset |
| ZoneGraph.JoinedIsArc | src/derive.rs:656-686 | two members that carry a segment are joined by its arc |
| PathGraph.PathsCounted | src/derive.rs:631-638 | the counting recursion gives the number of enumerated walks of a cost |
| PathGraph.Listed | src/derive.rs:631-638 | a walk is enumerated exactly when it goes from the source to the node through no leaf, at that cost |
| PathGraph.ListedOnce | src/derive.rs:631-638 | no walk is enumerated twice |
| PathGraph.TieMeansMany | src/derive.rs:631-634 | two minimum-cost paths exist exactly when the number of ways at the distance is above one |
| PathGraph.UniqueWhenUntied | src/derive.rs:631-634 | without a tie the shortest path is one path |
| EqualCostGate.RelaxKeeps | src/derive.rs:711-730 | relaxing an arc of a settled node keeps the loop's invariant: each open node's distance is its least over the arcs relaxed so far, and its count their number of ways modulo 2^32 |
| EqualCostGate.CountShortest | src/derive.rs:689-731 | every reached node ends with its true distance and its number of shortest paths modulo 2^32, whatever the tie-break |
| EqualCostGate.WrapHidesNothing | src/derive.rs:721-733 | if any node has two shortest paths then some node has a count that is above one even after wrapping |
| EqualCostGate.CheckNoEqualCostPaths | src/derive.rs:688-746 | accepts exactly when no ordered pair has two minimum-cost paths avoiding leaves in between, and a refusal names a pair that has |
| EqualCostGate.AcceptedIsUnique | src/derive.rs:639-747 | in an accepted graph every reachable pair has exactly one shortest path |
| BroadcastGraph.Straighten | src/derive.rs:445-447 | every path over domain segments has one between the same nodes that crosses each segment at most once and costs no more |
| BroadcastGraph.ShortestCrossesOnce | src/derive.rs:445-468 | a shortest path crosses each domain segment at most once, and the universal one only as a single hop |
| BroadcastGraph.UniversalIsLastResort | src/derive.rs:445-468 | for any graph of broadcast segments, joined over domains means no shortest path uses the universal segment |
| BroadcastGraph.UniversalIsDirect | src/derive.rs:445-468 | not joined over domains, the one shortest path is the direct universal hop |
| BroadcastGraph.LeafTransitNeverPays | src/derive.rs:556-564 | below the leaf offset, letting leaves forward changes no shortest path and none passes a leaf |
| CostModel.ZoneIsLayered | src/derive.rs:639-687 | the zone graph of a valid fabric is such a graph, with the derived universal cost |
| CostModel.UniversalLegIsLastResort | src/derive.rs:448-468 | the universal leg is never on a shortest path between members joined over domain segments |
| CostModel.UniversalLegIsDirect | src/derive.rs:448-468 | otherwise the unique shortest path is the single hop over the universal segment |
| CostModel.LeafIsNeverTransited | src/derive.rs:546-566 | with the checked offset the shortest paths of the graph where leaves forward are the same paths |
| CostModel.ValidateDerived | src/derive.rs:546-572 | accepts exactly when every universal cost is below the offset, no rank 0 is unshared and no zone has equal-cost paths |
| CostModel.CheckRankZeroIsShared | src/derive.rs:586-629 | on every declared fabric accepts exactly when no host ranks first a wire that reaches nobody while another reaches a peer |
| CostModel.RanksSharedFirst | src/derive.rs:593-620 | on one member, and neither lookup of a ranked wire can panic |
| Preferences.OrderNamesWires | src/derive.rs:603-615 | every name in a derived or overridden order is a wire of the member |
| CostModel.ShortestPathsCrossOnce | src/derive.rs:445-468 | in the zone graph of a declared fabric a shortest path crosses each broadcast segment at most once, and the universal one only alone |
| CostModel.ZoneIsSmall | src/derive.rs:641-686 | a valid fabric's zone graph has fewer than 2^32 arcs |
| CostModel.AcceptedPathsAreUnique | src/derive.rs:546-572 | in an accepted fabric with a universal segment every pair has exactly one shortest path, the same if leaves forwarded |
| CostModel.CheapestReachesPeer | src/derive.rs:574-586 | a host that reaches a peer in a zone has an arc of cost 10 |
| CostLaws.HopCost | src/derive.rs:399-408 | an arc over a domain segment costs the ladder cost of its wire's rank in the sender's order, above the leaf offset on a leaf |
| CostLaws.TwoFirstHopsBeatOne | src/derive.rs:121-124 | in a zone graph two hops over the first wires of hosts cost less than any one hop over a later wire |
| CostLaws.UniversalIsOneStepAbove | src/derive.rs:445-468 | the universal cost is one step above the sum, over all segments, of the highest cost some member gives a domain segment of the zone, and nothing for the others |
| CostLaws.UniversalIsHomedFirst | src/derive.rs:430-443 | a member has a row on every universal segment, homed on the first wire of its order, or on its first wire when the order is empty |
| CostLaws.RanksOkExactly | src/derive.rs:574-629 | the rank gate of a zone accepts exactly when every host with an arc to a peer over a domain segment has one of cost 10 |
| Validation.Dup | src/model.rs:788-791 | the seen-set loop finds nothing exactly when all items are apart |
| Validation.CheckSegmentsApart | src/model.rs:889-907 | accepts exactly when vids, ifnames, and numbers and scopes within a zone are apart |
| Validation.CheckZones | src/model.rs:921-944 | accepts exactly when ids are apart and not 0 and every primary domain has a segment of its zone |
| Validation.CheckWirePrefs | src/model.rs:1285-1328 | accepts exactly when every override is the complete order of its member and zone, each wire once |
| Validation.CheckNamesFit | src/model.rs:911-919 | accepts exactly when every universal segment leaves room in its name for a port suffix |
| Validation.CheckForward | src/model.rs:955-963 | accepts exactly when both zones of every forward pair are declared |
| Validation.CheckGateways | src/model.rs:1239-1268 | accepts exactly when no gateway vid is a segment vid, no router octet is a node, and (`src/model.rs:868-877`) every gateway domain is declared |
| Validation.Validate | src/model.rs:787-962 | accepts exactly the fabrics that meet every declaration check of members, domains, segments, zones, orders, names, gateways and forward pairs, and the derived gate |
| ConfInvariants.PubMoveKeeps | src/commands/cluster.rs:171-181 | every publisher step keeps mutual exclusion and the tie between texts and generations |
| ConfInvariants.MoveKeepsHanded | src/commands/conf_sync.rs:185-187 | every member step keeps the generations handed forward strictly increasing and below the attempt |
| ConfInvariants.MoveKeepsLocal | src/commands/conf_sync.rs:207-337 | every member step keeps the local file tied to the last committed text |
| ConfSafety.MemberMoveKeepsInv | src/commands/conf_sync.rs:159-339 | every member step, crashes included, keeps the whole invariant |
| ConfSafety.ReachableIsInv | src/commands/conf_sync.rs:1-16 | the invariant holds in every reachable state of any number of members and publishers |
| ConfGuarantees.OnePublisherInside | src/cluster.rs:245-279 | two publishers are never inside together, and the one inside holds the lock it made |
| ConfGuarantees.CounterMovesByOne | src/commands/cluster.rs:172-177 | the generation changes only at a counter rename, by exactly one, and then the store holds that generation's text |
| ConfGuarantees.OpenOnlyBetweenRenames | src/commands/cluster.rs:174-175 | text and generation part exactly at the first rename and meet again exactly at the second |
| ConfGuarantees.AckIsEarned | src/commands/conf_sync.rs:208-270 | an ack exists only for a gated text its member held byte for byte or re-applied with the status in the ack, at most 1 |
| ConfGuarantees.AppliedIsGated | src/commands/conf_sync.rs:198-205 | nothing is handed to an applier that its member's gate refuses |
| ConfGuarantees.AppliedCommitIsWitnessed | src/commands/conf_sync.rs:264-288 | a commit by applying in a cluster of two or more rests on an own pass, an own ack and a fresh ack of another member |
| ConfGuarantees.LoneApplierNeverCommits | src/commands/conf_sync.rs:5-9 | a generation nobody else held or passed is never committed by applying it |
| ConfGuarantees.HandledTextIsNoOlder | src/commands/conf_sync.rs:163-189 | the text handled for a generation was renamed in for that generation or a later one, and is its text when for that one |
| ConfGuarantees.SettledClusterAgrees | src/commands/cluster.rs:171-176 | while the stored text is its generation's, every member committed at the newest generation holds exactly that text |
| ConfOrphans.ReadIsOne | src/commands/conf_sync.rs:185-199 | a member reads one text for a generation, crashes and restarts included |
| ConfOrphans.CommittedTextExactly | src/commands/conf_sync.rs:185-199 | a member committed at the newest generation holds that generation's text exactly when it was stored as the member read |
| ConfOrphans.TextCanBeCommitted | src/commands/cluster.rs:171-176 | in any reachable state a stored text that one member can read and hold, or read alone, or read beside a second one, is committed at the newest generation in some run without publishers, against agreement when it is another text |
| ConfOrphans.AgreementExactly | src/commands/cluster.rs:171-176 | before anybody has tried the newest generation, all runs of the members keep to its text exactly when it is the stored one, or no member's gate passes the stored one in a way that can be committed |
| ConfGuarantees.CountersAreOrdered | src/commands/conf_sync.rs:144-187 | committed, attempted and the generation are ordered across crashes and restarts |
| ConfGuarantees.HandedForwardOnce | src/commands/conf_sync.rs:185-235 | each generation is handed to a member's applier at most once, in order |
| ConfGuarantees.LocalIsLastCommitted | src/commands/conf_sync.rs:187-339 | between ticks the local file is the last committed text unless an attempt was left unsettled |
| ConfGuarantees.CommittedIsSettled | src/commands/conf_sync.rs:164-176 | a member whose two counters agree has nothing unsettled |
| ConfStatus.PassIsOne | src/commands/conf_sync.rs:185-255 | a member passes a generation once: with one text and one status |
| ConfStatus.CommitRestsOnItsStatus | src/commands/conf_sync.rs:247-288 | a commit by applying rests on one status of its generation, a completed 0 or 1 exactly when the command was not killed |
| ConfStatus.AckTellsKilled | src/commands/conf_sync.rs:247-260 | an ack holds -1, 0 or 1, and -1 exactly when its member's status was killed |
| ConfStatus.LocalComesFrom | src/commands/conf_sync.rs:187-339 | in every state, crashes and errors included, the local file is the first or saved one the member started with or a gated text it read for a generation |
| ConfRuns.OrphanTextIsCommitted | src/commands/cluster.rs:174-175 | a run in which a publisher dies after its first rename and, with no publisher inside, a member commits a text that is not the one of its generation |
| ConfRuns.KilledStatusCommits | src/commands/conf_sync.rs:247-255 | a run in which a status of -1 is acked and committed |
| ConfRuns.NoRevertTargetKeepsFailedText | src/commands/conf_sync.rs:332-336 | a run in which a failed attempt stays the local file |
| ConfRuns.CrashKeepsUnwitnessedText | src/commands/conf_sync.rs:207-250 | a run of two members in which a crash after the install leaves an uncommitted text nobody vouched for as the local file |
| ConfSync.PeerAck | src/commands/conf_sync.rs:359-373 | finds a peer exactly when some listed ack is fresh, not temporary and another member's, and finds such a one |
| ConfSync.PeerAckIsAllowed | src/commands/conf_sync.rs:353-373 | over the store's own directory the scan succeeds exactly when the protocol allows a witness step, and only with such a witness |
| ConfSync.ConfSync.constructor | src/commands/conf_sync.rs:116-136 | a restart takes both counters back from their files, an absent one as 0 |
| ConfSync.ConfSync.Revert | src/commands/conf_sync.rs:302-339 | withdraws the ack, restores the saved text and re-applies once more, as a run of member steps |
| ConfSync.ConfSync.AwaitWitness | src/commands/conf_sync.rs:261-297 | within 60 polls finds a witness exactly when there is one at a poll from the first written ack on |
| ConfSync.ConfSync.Apply | src/commands/conf_sync.rs:224-297 | ending without an error, commits exactly when the re-apply and the status pass and a witness is found, and otherwise puts the files back |
| ConfSync.ConfSync.Tick | src/commands/conf_sync.rs:159-298 | every tick is a run of the member's steps on what it was told, leaves exactly the files of its outcome, and fails exactly on the listed errors, at the files of the step that failed |
| ConfSync.AppliedCommitsExactly | src/commands/conf_sync.rs:240-288 | a text put in place is committed exactly when the re-apply worked, the status was 0, 1 or a kill, the ack was written within 60 polls, and by then a fresh ack of another member was listed, or the member list could be read and has one member |
| ConfSync.TickIsProtocolMoves | src/commands/conf_sync.rs:159-298 | where each step of a tick finds what the tick was told, it is a move of the protocol |
| ConfSync.RegressionLoggedPerStretch | src/commands/conf_sync.rs:386-400 | over a run of ticks a regression is logged exactly when the regression before it, if any, was to another generation |
| ConfSync.RevertedRestores | src/commands/conf_sync.rs:300-339 | a reverted tick has the pre-tick bytes exactly when there were any, keeps committed, re-applies exactly once more and has no ack |
| ConfSync.WhatOutcomesChange | src/commands/conf_sync.rs:73-102 | only refused, committed and reverted change anything, refused only the attempt, and only a commit moves committed |
| ConfSync.AttemptedOnce | src/commands/conf_sync.rs:173-175 | a handled generation is not handled again while the counter stays |
| ConfPublish.Pmxcfs.Lock | src/cluster.rs:245-279 | at most ten tries, each on the store it finds: a free directory is made, a stale one is asked to be unlocked, and success exactly when a try makes it |
| ConfPublish.StaleIsBreakable | src/cluster.rs:253-272 | the age test of the lock loop is the one the protocol breaks a lock by |
| ConfPublish.TriesAreRun | src/cluster.rs:245-279 | the tries, with whatever the others do in between, are a run of the protocol |
| ConfPublish.LockExcludes | src/cluster.rs:245-279 | a lock made by a try is held against every other publisher |
| ConfPublish.Pmxcfs.Publish | src/commands/cluster.rs:171-187 | a publish is a run of publisher moves: text then counter, release whatever failed, sweep only after success, and the steps it takes inside leave what it returns |
| ConfPublish.PublishIsProtocolRun | src/commands/cluster.rs:171-187 | whatever members, time and other publishers do between its steps, each of them is a move of the protocol, and up to the release counter, text and lock are as it left them |
| ConfPublish.OthersLeaveSection | src/cluster.rs:245-279 | while a publisher is inside, no run of the others changes the counter, the text or the lock |
| ConfPublish.Pmxcfs.CleanOldAcks | src/commands/cluster.rs:194-212 | removes exactly the listed, removable acks older than the previous generation |
| Prefixes.ParsedIsLeast | src/model.rs:311-334 | accepts exactly the lengths up to 32 and the addresses no larger than any that shares their prefix bits, and the prefix then contains exactly those |
| Prefixes.OverlapsIsCommonAddress | src/model.rs:339-342 | two prefixes overlap exactly when some address is in both |
| Prefixes.OverlapsUnderShorter | src/model.rs:336-342 | they overlap exactly when the shorter contains the network address of the longer |
| Prefixes.BroadcastIsLargest | src/model.rs:350-352 | the broadcast address is the largest address of its prefix |
| Prefixes.BlocksAreDisjoint | src/model.rs:257-259 | no address is in the blocks of two zones |
| AddressPlan.DerivedAddressesAreApart | src/derive.rs:316-327 | in a valid fabric with segments numbered from 1 all identity and segment addresses of all members are apart |
| AddressPlan.IdentityIsSegmentZero | src/derive.rs:316-327 | a segment address is an identity address exactly when the segment is numbered 0 |
| AddressPlan.SegmentAddrBytes | src/derive.rs:316-320 | the bytes of a derived address are 10, the zone, the segment and the node |
| AddressPlan.CheckPlan | src/model.rs:964-1238 | accepts exactly when names, legs, bridges and tags, prefixes, gateways, relays, zones and member rows meet every check |
| AddressPlan.OnlyDeclaredCollide | src/model.rs:1004-1036 | a workload leg collides exactly with a declared wire or segment or a port of a declared bond; no name generated for a zone is one |
| AddressPlan.LegsMeet | src/model.rs:396-414 | two workload names have one leg exactly when they are equal or share their first five characters |
| AddressPlan.ZoneLegsTell | src/model.rs:265-275 | the gateway and identity legs of zones tell the zone |
| AddressPlan.AcceptedWorkload | src/model.rs:1044-1147 | in an accepted plan a gateway is on its prefix and no edge of it, a prefix has at least 22 bits, a relay sends off it, allowed names are zones and no workloads, and some member carries it |
| AddressPlan.WorkloadAddressIsFree | src/model.rs:1104-1238 | an accepted workload address has its prefix's mask, is no edge of it, no derived address of any zone, not its gateway and no other member's on that row, and no leaf writes one |
| AddressSharing.EqualAddressesAreTwoWorkloads | src/model.rs:1221-1238 | in an accepted plan two rows with one address are of two workloads with overlapping prefixes, each of which leaves the address to members |
| AddressSharing.DisjointPrefixesKeepApart | src/model.rs:1221-1238 | pairwise disjoint workload prefixes keep the addresses of all members apart |
| AddressSharing.ClashPossibleExactly | src/model.rs:1154-1238 | what the members write can be changed, with the plan still accepted, so that two of them write one address, exactly when two workloads leave one address to members and two members are hosts |
| AddressSharing.ClashPossibleIsOverlap | src/model.rs:1154-1238 | on prefixes of at most 29 bits, exactly when two prefixes overlap and two members are hosts |
| AddressSharing.WorkloadsMayShareAddresses | src/model.rs:1221-1238 | an accepted plan in which two members write one address for two workloads |
| RoutingRules.BestMatch | src/commands/common.rs:318-322 | the longest matching prefix of a table, or none |
| RoutingRules.LookupConcat | src/commands/common.rs:227-238 | a lookup goes on to later rules exactly when no earlier one decides |
| HostDefault.HostDefaultRulesHave | src/commands/common.rs:307-425 | the generated rules are exactly the five shapes for the given addresses and prefixes |
| HostDefault.EmptyChangesExactly | src/commands/common.rs:196-207 | with table 250 empty, whichever of the shapes are in, a result changes exactly when nothing in front decides the packet, a shape does, and the rules past them say otherwise than main |
| HostDefault.AdditiveWhenEmpty | src/commands/common.rs:196-207 | with table 250 empty no packet changes that no other rule up to main's own decides |
| RuleStore.EmptyChangesAPacket | src/commands/common.rs:196-207 | a list, an empty table 250 and a pinned packet that goes to main instead of where another rule sends it |
| HostDefault.SkipChangesExactly | src/commands/common.rs:315-368 | a local or workload packet with a specific route in main changes exactly when nothing in front decides it and the rules past the five say otherwise than main |
| HostDefault.PinnedChangesExactly | src/commands/common.rs:304-313 | a pinned packet that main decides, whatever table 250 holds, changes exactly when nothing in front decides it and the rules past the five say otherwise than main |
| HostDefault.PinnedStays | src/commands/common.rs:304-313 | a pinned packet that main decides and no other rule up to main's own does keeps its result, whatever table 250 holds |
| HostDefault.InstalledDecides | src/commands/common.rs:304-425 | what the whole set says of a packet: main for a pinned one, main where it is specific, else table 250 for local and workload packets, else nothing |
| HostDefault.InstalledChangesExactly | src/commands/common.rs:196-207 | with all of it in, a result changes exactly when nothing in front decides the packet, the set does and the rules past it say otherwise, and then to what the set says |
| HostDefault.PinNeedsMain | src/commands/common.rs:533-545 | a floor packet keeps its result exactly when main has a route for it |
| ReturnPath.OwnReturnRule | src/commands/common.rs:93-136 | a return-path rule that matches a packet of a zone block is one of that zone's own four kinds |
| ReturnPath.ReturnDecides | src/commands/common.rs:88-136 | a packet of a zone block goes by main to an allowed workload, by main's best route other than a default inside the block, else by the zone's table, and else is refused |
| ReturnPath.NeverMainDefault | src/commands/common.rs:71-136 | on a host or a leaf a packet of a zone block takes main's default only to a workload its zone may reach, over all mains |
| ReturnPath.GuardIsNoDefault | src/commands/apply.rs:544-555 | with the blocks' unreachable routes in main, the leaf guard's own lookups of main never give its default |
| ReturnPath.Zone254TakesMain | src/commands/common.rs:126-130 | a zone numbered 254 sends its packets to main, its default included |
| ReturnPath.GuardDecidesExactly | src/commands/common.rs:67-86 | on a leaf a packet for a zone block goes by main when the leaf sends it and main has a route, and else is refused |
| ReturnPath.LeafRefusesTransit | src/commands/common.rs:71-86 | on a leaf a packet for a zone block arriving on another interface is refused |
| ReturnPath.LeafLocalStaysInside | src/commands/apply.rs:544-555 | on a leaf a local packet for a zone block never takes a route shorter than the block |
| RuleStore.SitsOnRest | src/commands/common.rs:616-624 | any ordered rule list sits on the list with the five shapes taken out |
| RuleStore.RemoveLeavesRest | src/commands/common.rs:692-703 | deleting one of them leaves the other rules and their order |
| RuleStore.ChangesOnlyByOwn | src/commands/common.rs:196-207 | on any rule list a result differs from the one without the five shapes exactly when the rule that decides the packet is one of them and the other rules past it say otherwise |
| HostRules.HostRules.EnsureRule | src/commands/common.rs:681-690 | succeeds exactly when the rule is there or its one command works; the rule is there after, and one already there costs no command |
| HostRules.HostRules.DropRules | src/commands/common.rs:692-703 | ends with no copy of the rule and every other rule in place |
| HostRules.HostRules.SyncFloorRules | src/commands/common.rs:590-614 | on success exactly the wanted and the still configured pins are there; a pin goes only when neither wanted nor configured; other rules stay; with every command working it succeeds exactly when no unpinned address is listed twice and a stale pin's addresses could be read |
| HostRules.HostRules.SyncTwice | src/commands/common.rs:580-614 | after a sync that succeeds a second one on the same readings succeeds, changes nothing and issues no command |
| HostRules.HostRules.InstallUnit | src/commands/apply.rs:820-834 | pins, lookups, route: every state on the way is safe for the floor, wherever it stops, and with every command working it succeeds exactly when the sync does |
| HostRules.HostRules.InstallHostDefault | src/commands/apply.rs:809-818 | everything in, which it is when every command works and the sync can succeed, or everything taken back out, safe throughout when the table ends empty |
| HostRules.HostRules.RemoveHostDefault | src/commands/common.rs:625-651 | leaves exactly the other rules, and is safe throughout when the route's delete takes effect or there was none |
| HostRules.SafeChangesExactly | src/commands/apply.rs:786-790 | in a safe state a floor packet that main decides is routed differently than with cfab absent exactly when nothing in front decides it, a shape does, and the rules past the five say otherwise than main |
| HostRules.FloorKeptThroughout | src/commands/apply.rs:786-834 | through every state of a safe run such a packet keeps its result |
| HostRules.RouteLeftUnpinnedTakesFloor | src/commands/common.rs:626-641 | with the route left and the pins gone a floor packet leaves by the gateway |
| HostRules.RemoveWithRouteLeft | src/commands/common.rs:625-651 | a removal whose first command fails, on any host with all of it in, passes a state in which a floor packet only main's default would take leaves by the gateway |
| HostRules.RouteLeftRun | src/commands/common.rs:625-651 | such a run on a concrete host |
| BondLeg.PresentPortsAreBuildable | src/commands/apply.rs:220-239 | a leg is built exactly when some wire is there, on exactly those wires, with a home that carries a port |
| BondLeg.Host.MkVlan | src/commands/apply.rs:893-931 | ends with the right tagged child, replaces a wrong one, does nothing to a right one, and with every command working fails only without a wire that survives it |
| BondLeg.Host.AddBondPort | src/commands/apply.rs:1137-1165 | the port ends enslaved, up and not forwarding; with every command working exactly a port of another bond, or one without its wire, is refused |
| BondLeg.Host.MkBondLeg | src/commands/apply.rs:1084-1131 | converges on the declared leg, refuses a foreign netdev untouched, over a built leg adds, deletes and enslaves nothing, and with every command working succeeds on any host that has the wires and holds no port or bond of that name for others |
| Ceiling.Generate | src/emit/ceiling_ipt.rs:82-123 | pushes exactly the rendered lines in order |
| Ceiling.RestoreFromAny | src/emit/ceiling_ipt.rs:77-93 | restored without a flush over any contents, the chains hold exactly the render and every other chain is as it was |
| Ceiling.DropsOnlyOverTheLimit | src/emit/ceiling_ipt.rs:94-120 | a packet is dropped exactly when it is OSPF on a fallback bond whose own limiter is empty; no other packet takes a token |
| CeilingHost.Mangle.Install | src/commands/apply.rs:142-196 | succeeds exactly when the restore and the hook it may need do; then the chains are the rendered ones, hooked once, and a stale chain nobody jumps to is gone |
| CeilingHost.Mangle.Remove | src/commands/common.rs:913-940 | no jumped-to chain goes, nobody else's chain changes but for one hook, and only chains others jump to are left |
| ApplyOrder.Apply.SysctlPass | src/commands/apply.rs:377-382 | after it no netdev of cfab's forwards and none will by default |
| ApplyOrder.Apply.BuildPass | src/commands/apply.rs:537-646 | on a host or a leaf every netdev that forwarding is later written on has been built, a bond before its ports, and everything built is off, whatever the default flag |
| ApplyOrder.Apply.EnableForwarding | src/commands/apply.rs:1324-1391 | forwarding goes on only under a policy read back as drop, on exactly the built transit netdevs, and does so when every effect takes place |
| ApplyOrder.Apply.Run | src/commands/apply.rs:364-702 | on a host every state after the sysctl pass fails closed, wherever the run stops; on a leaf nothing is ever switched on and what was built ends off; when every effect takes place a run ends well exactly on a leaf, without forwarding, or with the policy read back as drop |

## Left out

Assumptions, each a fact the code does not check:

- wire names are distinct within a member, and segments are numbered from 1 where addresses are compared;
- the u32 sums of costs at `src/derive.rs:466`, `669`, `682` and `715` do not overflow: costs are unbounded here;
- duplicate keys that validation builds as `zone:seg` and `zone:scope` text are compared as pairs;
- a member's prefs are declared inside it, so `PrefsNested` is required of the input of validation;
- the generation counter is never rewound in `ConfProtocol`, and one clock serves all processes; `ConfSync` does
  have the rewound case;
- publishers stay inside no longer than the lock's expiry, and an unlock request is honoured only after it;
- file writes are atomic: a torn `fabric.toml`, `.prev` or state file is not modelled, and the run directory
  survives a crash;
- no other rule at the preferences 2099 to 2103 decides the packet (`RuleStore.ChangesOnlyByOwn` does without);
  the lemmas over `HostRules` states also take it that no other rule looks table 250 up;
- other rules carry only from, to and iif selectors; fwmark, uid and goto rules are not part of the model;
- each `ip rule` needle identifies its own rule, and `ip rule show` itself does not fail.

Not modelled:

- EqualCostGate.CountShortest: the tie-break by name among equally near nodes is left open, and the adjacency is
  one arc list instead of a map of lists; the `via` text of the message is left out.
- Validation.Validate: the name-length check of a gateway's bond (`src/model.rs:1244-1250`) is not there, because
  `cfab-gw` and an id of at most three digits never exceed 13 characters; workloads are checked in `AddressPlan`.
- AddressPlan.CheckPlan: a name is cut by characters, which is by bytes for ASCII names.
- ConfOrphans.AgreementExactly: starts where nobody has tried the generation; members already on their way are
  covered by `ConfOrphans.CommittedTextExactly`, by what they read, and by `ConfOrphans.TextCanBeCommitted`.
- ConfGuarantees.LocalIsLastCommitted: a crash or an error between installing a text and settling it leaves the
  member unsettled until its next commit, as in the code; `ConfStatus.LocalComesFrom` covers those states.
- BondLeg.Host.MkBondLeg: netdevs stacked more than one deep on a deleted netdev stay, and the qos map is not
  modelled.
- ApplyOrder.Apply.Run: the sysctls other than forwarding, the admin interfaces' own `forwarding=0` writes and the
  preconditions are not modelled; the return-path rules, the host default and the leaf's guard rules are steps
  that change nothing this module looks at.
- HostRules.HostRules.RemoveHostDefault: routes of others in table 250 are not modelled.
- HostRules.RemoveWithRouteLeft: packets that rules of others between 2099 and main's own decide are left to
  `HostDefault.InstalledChangesExactly`.
- agreement between members in general, which the protocol does not promise: a member may commit on a witness
  that later reverts.
- the ingress return default per zone, the watchdog and the teardown around these functions.
- the nftables mark and policy text, the drift readback of the ceiling and its counters.
- TOML, JSON and command-line parsing, message wording, process execution, sockets and netlink, measurement,
  status rendering.
