# A verified model of the NDTwin P4 control plane

NDTwin keeps a digital twin of a network. This project models, in Dafny, the part of it that turns a
changing graph into forwarding rules, keeps its own view of the network honest, and carries
telemetry to the kernel, and proves what that part is for. Nothing here is executed; the claims are
statements for all inputs, all runs or all interleavings, for `dafny verify dfyconfig.toml` to check.

| module | what it models |
|---|---|
| `Net` | the network graph, walks, distances and shortest paths |
| `P4Routing` | shortest-path routes for bmv2 switches, and the walker that replays the installed rules |
| `RouteWrites` | table writes against a switch with ambiguous errors, and the record of installed routes |
| `OvsRouting` | the breadth-first route walk of the OVS side, and its path report |
| `LinkWatchdog` | beacon evidence, beliefs, and the report/acknowledge protocol with the kernel |
| `DownEndpoints` | which failed endpoints move traffic and which are withheld from the kernel |
| `ReinstallWorker`, `TopologyWorker` | the debounced and the coalescing background workers |
| `Readopt` | re-adopting a restarted switch under P4Runtime arbitration |
| `CloneSession` | programming the telemetry clone session |
| `RuleCompiler` | OpenFlow matches compiled to P4 entries and rendered back as Ryu flow statistics |
| `KeyedFailureLog` | the failure log that reports edges, not repetitions |
| `SFlow`, `Collector`, `Emitter` | sFlow v5 encoding, the kernel's fixed-offset reader, per-switch batching |
| `FlowDiff` | the difference of two sets of flow tables |
| `Bytes`, `Common` | byte strings, canonical form, duplicate-free sequences |

Main results:

* Each switch's rule comes from its own, independently tie-broken shortest path, and still the rules
  of all switches compose to loop-free delivery in exactly the shortest distance
  (`P4Routing.RulesDeliver`); the walker that replays the rules answers exactly when they deliver
  (`P4Routing.InstalledPath`). Routes move around fewer endpoints than the report refuses, so a
  connected pair is reported if and only if its journey uses no withheld endpoint
  (`P4Routing.PassThenReport`, `DownEndpoints.PassThenReportDuringFaults`).
* The breadth-first walk with duplicate queue entries and one-way broken links yields minimum-hop
  rules on exactly the reachable switches, and what it reports is what a packet does, if and only if
  the attachment switch is connected (`OvsRouting.InstallToward`, `OvsRouting.InstallAndReport`).
* What a caller's match asks, what the pipeline does and what the kernel is told agree for every
  packet (`RuleCompiler.CompileRule`, `RuleCompiler.RenderingIsFaithful`), except for a destination
  named twice, for which the exact condition is given (`RuleCompiler.DestinationMeansMatchIff`).
* Datagrams read back to their samples by their own length fields (`SFlow.DatagramRoundTrip`). The
  kernel's fixed word offsets read every sample if and only if no sample but the last is a fragment
  that it drops, and every frame is long enough (`Collector.KernelReads`,
  `Collector.KernelReadsAllIff`). Every accepted sample is, in order, in exactly one batch of its own
  switch or still buffered (`Emitter.SFlowEmitter.Emit`), and a batch is on the wire exactly when it
  can be encoded and the socket takes it (`Emitter.OnTheWireIff`, `Emitter.SentBatchReadsBack`,
  `Emitter.NumbersContinue`).
* Protocol safety over every interleaving: `LinkWatchdog.AckedIsTold`, `LinkWatchdog.DetectionWindow`,
  `LinkWatchdog.PassReportsOfRun`, `ReinstallWorker.WalksAfterQuiet`, `Readopt.DeadSwitchComesBack`,
  `ReinstallWorker.NoChangeIsLost`, `TopologyWorker.NothingIsLost`, `RouteWrites.Replay`,
  `Readopt.HealthySwitchIsNeverDisturbed`, `KeyedFailureLog.NewFiresExactly`.

Some things the code does differently from what one might expect are kept as they are, with the exact
condition: a pipeline commit strands records of routes that are not written again
(`RouteWrites.ShadowAfterRefillIff`); a reinstall worker that raises loses its change unless the
wait for the initial install absorbed it (`ReinstallWorker.StoppedIsCurrentIff`); a rebuild that
ends before its drain strands the switches that entered since the last one
(`TopologyWorker.StrandedIff`); a working pair is not reported while a forgiven link, or one whose reverse was never heard, is on
its way (`DownEndpoints.HiddenNotMovedIff`); the record of installed routes is keyed by how a destination was
written, the switch by what it stands for, so a second spelling strands or outdates a record
(`RouteWrites.PutKeepsShadowIff`, `RouteWrites.DropKeepsShadowIff`); after a dropped fragment the
kernel goes on inside the same sample (`Collector.AfterAFragment`); a rule's reported priority is one
above the one its caller sent (`RuleCompiler.ReportedPriorityIsShifted`). The comment on `endPass` (KeyedFailureLog.hpp lines
108-119) says a second call in a pass reports everything as recovered; with a forget window the
code does so only once the window has passed, and `KeyedFailureLog.SecondCloseRecoversIff` states
the exact condition.

## Model

| member | source | states |
|---|---|---|
| `P4Routing.CalculateAllPaths` | p4_proxy/proxy_agent/topology_manager.py:685-740 | the path table holds a shortest path over the edges not excluded for exactly the ordered pairs that have one |
| `P4Routing.PathsTo` | p4_proxy/proxy_agent/topology_manager.py:715-738 | one destination's share of that table; an unreachable source is absent, not an error |
| `P4Routing.FirstHopUsable` | p4_proxy/proxy_agent/topology_manager.py:1010-1026 | the first hop of a chosen path is a live edge one hop nearer to the destination |
| `P4Routing.RuleIsCloser` | p4_proxy/proxy_agent/topology_manager.py:996-1032 | after an accepted pass each rule moves the packet one hop closer, out of a usable endpoint, never into another host |
| `P4Routing.RulesDeliver` | p4_proxy/proxy_agent/topology_manager.py:685-740 | from any switch that can reach the host the rules of all switches together deliver in exactly the distance, without a loop and without an excluded endpoint |
| `P4Routing.DeliveryUnique` | p4_proxy/proxy_agent/ryu_topology.py:164-188 | two journeys from one node under the same rules are the same journey |
| `P4Routing.DeliveryIsSimple` | p4_proxy/proxy_agent/ryu_topology.py:160-188 | a journey that arrives visits no node twice |
| `P4Routing.InstalledPath` | p4_proxy/proxy_agent/ryu_topology.py:147-188 | a path is returned exactly when the installed rules deliver from the source's first switch; it is that journey, and the node-count bound never cuts one off |
| `P4Routing.StuckOrLooping` | p4_proxy/proxy_agent/ryu_topology.py:175-187 | where the walker gives up, no journey arrives at all |
| `P4Routing.DeliversAvoiding` | p4_proxy/proxy_agent/ryu_topology.py:175-187 | refusing more endpoints keeps exactly the journeys that do not leave by them |
| `P4Routing.WorkingPairReportedIff` | p4_proxy/proxy_agent/ryu_topology.py:164-188 | under any rules, a pair whose packets arrive is reported exactly when they use no withheld endpoint, and then with the journey they take |
| `P4Routing.PassThenReport` | p4_proxy/proxy_agent/topology_manager.py:996-1032 | install around one set of endpoints, report around a larger one: every pair that can be connected has a loop-free shortest journey, reported exactly when it avoids what is withheld |
| `RouteWrites.RoutePresent` | p4_proxy/proxy_agent/p4_client.py:870-890 | the read-back finds a destination exactly when the switch lists it, although addresses come back stripped of leading zero bytes |
| `RouteWrites.TopologyManager.ModifyIpv4Route` | p4_proxy/proxy_agent/p4_client.py:941-983 | success exactly when a served write found the entry, and then only that entry moved |
| `RouteWrites.TopologyManager.InsertIpv4Route` | p4_proxy/proxy_agent/p4_client.py:812-868 | success means the entry is there with its port, failure that the table is untouched; served writes never fail, duplicate or not |
| `RouteWrites.TopologyManager.DeleteIpv4Route` | p4_proxy/proxy_agent/p4_client.py:892-939 | success means the entry is gone, failure that the table is untouched, although missing entries and refusals share a code |
| `RouteWrites.TopologyManager.WriteAndRecord` | p4_proxy/proxy_agent/topology_manager.py:1019-1031 | table and record move together or not at all |
| `RouteWrites.TopologyManager.InsertFive` | p4_proxy/proxy_agent/p4_client.py:718-758 | success means the 5-tuple entry is there with its port, failure that the table is untouched; served writes never fail |
| `RouteWrites.TopologyManager.ModifyFive` | p4_proxy/proxy_agent/p4_client.py:760-785 | success exactly when a served write found the entry under its priority |
| `RouteWrites.TopologyManager.DeleteFive` | p4_proxy/proxy_agent/p4_client.py:787-810 | success exactly when a served delete found the entry under its priority |
| `RouteWrites.TopologyManager.RouteFlow` | p4_proxy/proxy_agent/topology_manager.py:793-876 | the whole call, both tables: it writes what the match asks for or nothing; a destination rule is recorded under the text it was named by, 5-tuple rules are not recorded, and an acceptable rule the switch serves is always taken |
| `RouteWrites.TopologyManager.UnrouteFlow` | p4_proxy/proxy_agent/topology_manager.py:878-922 | the whole call: a served and readable delete of a destination always succeeds, one of a 5-tuple rule exactly when the entry was there; the entry goes with the record of that text, or nothing changes |
| `RouteWrites.TopologyManager.ModifyFlow` | p4_proxy/proxy_agent/topology_manager.py:924-972 | the whole call: success exactly when the rule is acceptable, served and its entry present; the entry moves with the record of that text, or nothing changes |
| `RouteWrites.TopologyManager.CommitPipeline` | p4_proxy/proxy_agent/topology_manager.py:1130 | a commit empties one switch's table and leaves the record alone |
| `RouteWrites.TopologyManager.InstallInitialRoutes` | p4_proxy/proxy_agent/topology_manager.py:996-1032 | a pass is a run of writes for wanted pairs under their dotted names; it counts attempts and acceptances exactly, and a pair the switch serves on a port that fits is always written |
| `RouteWrites.PutKeepsShadowIff` | p4_proxy/proxy_agent/topology_manager.py:874-876 | an accepted write keeps the record exact if and only if every other text recorded for its address names the same port |
| `RouteWrites.DropKeepsShadowIff` | p4_proxy/proxy_agent/topology_manager.py:917-922 | an accepted delete keeps it exact if and only if no other text is recorded for its address |
| `RouteWrites.SpellingsCollide` | p4_proxy/proxy_agent/p4_client.py:827 | two texts the calls accept that stand for one address |
| `RouteWrites.TwoSpellingsStrandARecord` | p4_proxy/proxy_agent/topology_manager.py:917-922 | added under one spelling and deleted under another, a rule is gone and its record stays |
| `RouteWrites.TwoSpellingsLeaveAStalePort` | p4_proxy/proxy_agent/topology_manager.py:874-876 | installed under one spelling and moved under another, the path report reads the old port |
| `RouteWrites.LookupIsRight` | p4_proxy/proxy_agent/ryu_topology.py:175 | where the record is right, what the path report looks up by a host's dotted name is the port on the switch |
| `RouteWrites.ShadowForever` | p4_proxy/proxy_agent/topology_manager.py:865-972 | with one spelling per address, over every run of resolved effects without commits the record equals the switches' tables |
| `RouteWrites.RecordedForever` | p4_proxy/proxy_agent/topology_manager.py:1078-1195 | with commits among the effects every rule on a switch is still recorded, and only with its right port |
| `RouteWrites.PerformOp` | p4_proxy/proxy_agent/topology_manager.py:793-1032 | every call, under every RPC outcome and read-back, amounts to such effects, wipes nothing unless it is a commit, and spells as its arguments do |
| `RouteWrites.Replay` | p4_proxy/proxy_agent/topology_manager.py:793-1032 | one proxy driven through any calls with any RPC outcomes: its tables always have the shape rendering relies on; with one spelling per address the record equals the destination tables without commits, and no rule goes unrecorded or is recorded wrongly with them |
| `RouteWrites.SameRules` | p4_proxy/proxy_agent/p4_client.py:821-829 | the pipeline's destination table holds each recorded address under its own four octets, with its port |
| `RouteWrites.RenderedIsDone` | p4_proxy/proxy_agent/ryu_flow_stats.py:141-199 | for every such proxy, what is rendered for a switch is what its pipeline does, for every packet |
| `RouteWrites.PutsGrow` | p4_proxy/proxy_agent/topology_manager.py:1157 | a refill leaves the old entries and exactly the texts it wrote |
| `RouteWrites.ShadowAfterRefillIff` | p4_proxy/proxy_agent/topology_manager.py:1130-1157 | with one spelling per address, after a commit and a refill the record is exact if and only if every recorded text of that switch was written again |
| `RouteWrites.WipeStrandsRecord` | p4_proxy/proxy_agent/topology_manager.py:1130 | a concrete run in which a record outlives its rule |
| `RouteWrites.AcceptedPassIsWritten` | p4_proxy/proxy_agent/topology_manager.py:1019-1032 | a fully accepted pass leaves, under the hosts' dotted names, what delivery needs, from any earlier record |
| `OvsRouting.EnqueueNeighbours` | intelligent_router.py:1741-1744 | the queue grows by exactly the unvisited connected neighbours with a link in the return direction |
| `OvsRouting.PoppedAtDistance` | intelligent_router.py:1620-1624 | a switch taken for the first time is taken at its exact distance, duplicates in the queue notwithstanding |
| `OvsRouting.AllReachableTaken` | intelligent_router.py:1620-1744 | when the queue runs empty every reachable switch has been taken |
| `OvsRouting.InstallToward` | intelligent_router.py:1608-1664 | rules on exactly the connected switches reachable over two-way links, each to a neighbour one hop nearer; an unconnected attachment switch gets a parent and no rule |
| `OvsRouting.PathFrom` | intelligent_router.py:1749-1772 | following parents terminates in the path from the switch to the destination |
| `OvsRouting.ReportedDistances` | intelligent_router.py:1749-1772 | a reported path is a minimum-hop path: its length is the distance from every switch on it |
| `OvsRouting.ReportedIsTrace` | intelligent_router.py:1749-1772 | a reported path is exactly what the installed rules do to a packet |
| `OvsRouting.TraceUnique` | intelligent_router.py:1640-1664 | the rules do only one thing to a packet |
| `OvsRouting.ReportHonestIff` | intelligent_router.py:1640-1660 | the report for the attachment switch is what its rules do if and only if the switch is connected |
| `OvsRouting.Report` | intelligent_router.py:1749-1788 | one entry for every other host behind a switch the walk reached, each with that switch's path, and none besides |
| `OvsRouting.InstallAndReport` | intelligent_router.py:1608-1788 | install then report for one destination: with the attachment switch connected, exactly the hosts that can reach it are listed, each with what its packets do, in the fewest hops; without, exactly the hosts on that switch are listed and no line is true |
| `LinkWatchdog.Watchdog.HandleBeacon` | p4_proxy/proxy_agent/topology_manager.py:1257-1305 | a beacon refreshes exactly its own link and no belief |
| `LinkWatchdog.Watchdog.SeedExpectedLinks` | p4_proxy/proxy_agent/topology_manager.py:1506-1541 | unheard links enter with the startup grace; links already known keep their evidence |
| `LinkWatchdog.Watchdog.Sweep` | p4_proxy/proxy_agent/topology_manager.py:1563-1576 | every belief is revised, and collected are exactly the verdicts that change a belief or that the kernel has not accepted |
| `LinkWatchdog.Watchdog.CheckLinkBeacons` | p4_proxy/proxy_agent/topology_manager.py:1547-1603 | a pass reports, once each, exactly the verdicts that change a belief or that the kernel has not accepted, and separates what the kernel took from what it refused |
| `LinkWatchdog.StepKeepsInv` | p4_proxy/proxy_agent/topology_manager.py:1578-1616 | each beacon, seed, pass start and report keeps acknowledged beliefs equal to what the kernel was told |
| `LinkWatchdog.AckedIsTold` | p4_proxy/proxy_agent/topology_manager.py:1534-1616 | so in every interleaving, refused reports that took effect included |
| `LinkWatchdog.EvidenceOfRun` | p4_proxy/proxy_agent/topology_manager.py:1257-1305 | over every run the table holds exactly the links ever heard or expected, dated by the last beacon or else the first expectation |
| `LinkWatchdog.BeliefOfRun` | p4_proxy/proxy_agent/topology_manager.py:1543-1576 | over every run, after a pass a link is believed down exactly when silent for more than three intervals since it last spoke, or six since it was expected if it never did |
| `LinkWatchdog.BeliefAlways` | p4_proxy/proxy_agent/topology_manager.py:1564-1600 | at every moment of every run a belief is the verdict of the last pass that knew the link, unacknowledged exactly when a verdict changed and no report about it was accepted since |
| `LinkWatchdog.PassReportsOfRun` | p4_proxy/proxy_agent/topology_manager.py:1563-1576 | which links a pass reports, said on the events: those whose silence verdict changes the last one, and those with a change the kernel has not accepted; an accepted belief that stands is left alone |
| `LinkWatchdog.NextPassReportsDifferences` | p4_proxy/proxy_agent/topology_manager.py:1547-1603 | after a pass accepted in full the next one reports exactly the links whose silence verdict differs from what the kernel holds |
| `LinkWatchdog.DetectionWindow` | p4_proxy/proxy_agent/topology_manager.py:382-395 | a link that falls silent is declared down later than its allowance and at most one pass interval after it |
| `LinkWatchdog.DrainKeepsInv` | p4_proxy/proxy_agent/topology_manager.py:1578-1603 | an undisturbed pass ends with nothing pending and every acknowledged belief told |
| `LinkWatchdog.AcceptedPassAgrees` | p4_proxy/proxy_agent/topology_manager.py:1578-1603 | a pass whose reports are all accepted leaves the kernel's picture equal to the beliefs, whatever beacons arrived meanwhile |
| `DownEndpoints.DownLinkEndpoints` | p4_proxy/proxy_agent/topology_manager.py:1761-1784 | withheld are the ends of down links, the far end only without live evidence of its own |
| `DownEndpoints.ReroutableDownEndpoints` | p4_proxy/proxy_agent/topology_manager.py:666-683 | rerouted are the sending ends of down links that a stalled receiver does not explain |
| `DownEndpoints.SuspectSwitches` | p4_proxy/proxy_agent/topology_manager.py:666-676 | suspect are the probe-answering switches whose every inbound link, and at least one, is quiet |
| `DownEndpoints.ReroutedAreWithheld` | p4_proxy/proxy_agent/topology_manager.py:666-683 | whatever moves traffic is also withheld from the kernel |
| `DownEndpoints.DeadBothWaysIsRerouted` | p4_proxy/proxy_agent/topology_manager.py:673-683 | a link dead both ways is rerouted from both ends, stalled switch or not |
| `DownEndpoints.ReroutedIff` | p4_proxy/proxy_agent/topology_manager.py:666-683 | with one link per endpoint, an endpoint is rerouted exactly when its link is down and unforgiven |
| `DownEndpoints.WithheldIff` | p4_proxy/proxy_agent/topology_manager.py:1763-1784 | with one link per endpoint, exactly when an endpoint is withheld |
| `DownEndpoints.StallAddsNothing` | p4_proxy/proxy_agent/topology_manager.py:666-683 | a switch going deaf adds no rerouted endpoint |
| `DownEndpoints.StallMovesNothingIff` | p4_proxy/proxy_agent/topology_manager.py:666-683 | a switch going deaf leaves the rerouted endpoints alone exactly when it was suspect before or every inbound link already quiet was dead both ways |
| `DownEndpoints.StallMovesNothing` | p4_proxy/proxy_agent/topology_manager.py:626-683 | and then every path searched over the same graph stays what it was |
| `DownEndpoints.HiddenNotMovedIff` | p4_proxy/proxy_agent/topology_manager.py:1763-1784 | withheld but not rerouted are exactly the sending ends of forgiven links and the far ends of down links whose reverse was never heard |
| `DownEndpoints.PassThenReportDuringFaults` | p4_proxy/proxy_agent/topology_manager.py:1697-1729 | a pass and a report from one beacon table: a connected pair is reported, with its journey, exactly when the journey uses no withheld endpoint |
| `DownEndpoints.DeafSwitchHidesAWorkingPair` | p4_proxy/proxy_agent/topology_manager.py:1697-1729 | a concrete table and network in which the rules deliver and the pair cannot be reported |
| `ReinstallWorker.StepKeepsInv` | intelligent_router.py:750-830 | every step of spawning, waiting, walking and returning keeps one worker at most and no change behind it |
| `ReinstallWorker.NoChangeIsLost` | intelligent_router.py:767-830 | in every interleaving a worker that returned normally began its last walk after the latest change |
| `ReinstallWorker.StoppedIsCurrentIff` | intelligent_router.py:767-830 | whenever no worker runs, routes are from the current graph exactly when the last finished walk began after the last change; after an exception only if that walk absorbed a change that arrived in the initial-install wait |
| `ReinstallWorker.RaiseAlwaysLosesOnceInstalled` | intelligent_router.py:789-830 | once the initial install is done an exception always leaves a change unwalked |
| `ReinstallWorker.RaiseLosesTheChange` | intelligent_router.py:767-830 | a concrete run in which no finished walk covers the change |
| `ReinstallWorker.RaiseNeedNotLose` | intelligent_router.py:789-830 | a concrete run in which a worker raises and nothing is lost |
| `ReinstallWorker.QuietRunIsBounded` | intelligent_router.py:775-826 | once changes stop, a worker returns within a bounded number of its own steps |
| `ReinstallWorker.WalksAfterQuiet` | intelligent_router.py:779-826 | over every run a worker walks, or waits for the initial install, only after sleeping one whole quiet period in which no change came |
| `ReinstallWorker.ChangeRestartsQuiet` | intelligent_router.py:781-787 | a sleeping worker goes back to sleep when it wakes if and only if a change came since it lay down |
| `ReinstallWorker.WaitIsBounded` | intelligent_router.py:789-813 | over every run a worker waits for the initial install until it wakes with it done or has woken `limit` times, and then walks |
| `TopologyWorker.StepKeepsInv` | intelligent_router.py:932-967 | every step keeps entered switches drained, being drained or queued, and every event followed by a rebuild or a set flag |
| `TopologyWorker.NothingIsLost` | intelligent_router.py:932-1076 | so in every interleaving of enters, rebuilds, aborts and exceptions |
| `TopologyWorker.QueuedIsSinceDrain` | intelligent_router.py:932-1076 | over every run, queued are exactly the switches that entered since the last drain |
| `TopologyWorker.StrandedIff` | intelligent_router.py:986-1040 | an idle worker with a clear flag leaves switches queued exactly when its last rebuild ended before its drain and some switch entered after the drain before that |
| `TopologyWorker.FailingAfterDrainStrandsNothing` | intelligent_router.py:1059-1064 | a rebuild that fails after its drain strands nobody |
| `TopologyWorker.SettledMeansNotified` | intelligent_router.py:1059-1076 | otherwise an idle worker with a clear flag has notified every entry |
| `TopologyWorker.AbortStrands` | intelligent_router.py:986-990 | a concrete run in which an abort strands a switch |
| `TopologyWorker.AbortNeedNotStrand` | intelligent_router.py:986-990 | a concrete run in which an aborted rebuild strands nobody |
| `Readopt.Proxy.ReadoptSwitch` | p4_proxy/proxy_agent/topology_manager.py:1078-1195 | the whole call as one transition of one switch, whose outcome `SwapIff` and `SwapLeaves` give for every surroundings; an unknown switch changes nothing |
| `Readopt.Process.InstallRoutes` | p4_proxy/proxy_agent/topology_manager.py:1157 | writes land exactly while some stream is primary, whoever sends them |
| `Readopt.LiveIncumbentIsSafe` | p4_proxy/proxy_agent/topology_manager.py:1119-1130 | with the incumbent's stream up the call fails and changes neither tables nor client |
| `Readopt.SwapMeansPushedAsPrimary` | p4_proxy/proxy_agent/topology_manager.py:1130-1157 | client and tables change together, and only when the new client itself was primary at the push |
| `Readopt.SuccessIsHonest` | p4_proxy/proxy_agent/topology_manager.py:1159-1195 | success means some route was accepted, or the answer says routes are pending and the table is empty |
| `Readopt.SwapIff` | p4_proxy/proxy_agent/topology_manager.py:1078-1157 | the client is replaced exactly when no stream held the switch, the new client was built, started and answered in time and its stream lived through the push, and the push worked; which step every other case fails at, and that it changes neither client nor table |
| `Readopt.SwapLeaves` | p4_proxy/proxy_agent/topology_manager.py:1145-1195 | after a swap the table holds exactly the addresses of the routes the switch took, each with its last port, the answer counts them, and only a refusal of everything offered is a failure |
| `Readopt.WritesHold` | p4_proxy/proxy_agent/topology_manager.py:1019-1032 | a run of writes leaves exactly the unrefused addresses, the last write of each winning |
| `Readopt.CountsUnrefused` | p4_proxy/proxy_agent/topology_manager.py:1031-1032 | the count is the number of unrefused routes |
| `Readopt.DeadSwitchComesBack` | p4_proxy/proxy_agent/topology_manager.py:1078-1195 | after any run, a readopt in working surroundings brings a switch without a live stream back, under a client never used before, and affects no other switch |
| `Readopt.RunKeepsInv` | p4_proxy/proxy_agent/p4_client.py:131-156 | over every run no discarded client keeps mastership of any switch |
| `Readopt.HealthySwitchIsNeverDisturbed` | p4_proxy/proxy_agent/topology_manager.py:1078-1130 | over every run a switch whose incumbent stays up keeps its client and tables, however often it is readopted |
| `Readopt.RulesChangeOnlyWithTheClient` | p4_proxy/proxy_agent/topology_manager.py:1130-1157 | over every run without a power cycle, tables change only by a client newer than all before it taking over |
| `CloneSession.Target.WriteCloneSession` | p4_proxy/proxy_agent/p4_client.py:378-424 | True means one replica, under any failures; without genuine failures it is always True |
| `CloneSession.TrueMeansSingle` | p4_proxy/proxy_agent/p4_client.py:378-424 | exactly when True is returned, in terms of the starting state and the fate of the five writes, and that one replica is left |
| `CloneSession.PlainRestartsStack` | p4_proxy/proxy_agent/p4_client.py:321-345 | with only the leading DELETE and INSERT every restart adds a replica |
| `CloneSession.SettledRestartsStaySingle` | p4_proxy/proxy_agent/p4_client.py:337-350 | with the settle pair any number of restarts ends at one replica |
| `RuleCompiler.FiveTupleKeys` | p4_proxy/proxy_agent/topology_manager.py:312-330 | spellings collapse to one key with one value each, and a match is refused exactly when it contradicts itself |
| `RuleCompiler.SpellingsMean` | p4_proxy/proxy_agent/topology_manager.py:168-182 | what each of the thirteen accepted field names asks of a packet's own field, for every number |
| `RuleCompiler.AsksMeans` | p4_proxy/proxy_agent/topology_manager.py:168-182 | a match asks for exactly the packets that meet every criterion it names, field by field |
| `RuleCompiler.ConsistentIff` | p4_proxy/proxy_agent/topology_manager.py:312-330 | a match does not contradict itself exactly when no two of its names for one field say different values |
| `RuleCompiler.FiveTupleAcceptedIff` | p4_proxy/proxy_agent/topology_manager.py:277-330 | which matches the 5-tuple table takes, said on field names, literal bounds and the priority |
| `RuleCompiler.DestinationAcceptedIff` | p4_proxy/proxy_agent/topology_manager.py:793-865 | which matches the destination table takes, said on field names and addresses |
| `RuleCompiler.SupportedIff` | p4_proxy/proxy_agent/topology_manager.py:243-274 | which fields are understood at all, and the one ethertype that is, in decimal or hexadecimal |
| `RuleCompiler.Encode` | p4_proxy/proxy_agent/p4_client.py:676-701 | the bytes have the key's width, say what the operand says and fit the key's bits |
| `RuleCompiler.EncodeIff` | p4_proxy/proxy_agent/p4_client.py:676-701 | a value can be encoded exactly when it is a number or decimal numeral below the bound of its key (512, 2^32, 2^32, 256, 65536, 65536) or a dotted quad for an address key |
| `RuleCompiler.FullMask` | p4_proxy/proxy_agent/p4_client.py:701 | the mask is all ones over the key's bits, not its bytes |
| `RuleCompiler.BuildEntry` | p4_proxy/proxy_agent/p4_client.py:703-716 | an entry comes out exactly when every key encodes, with one full-mask field per key |
| `RuleCompiler.CompileMatch` | p4_proxy/proxy_agent/topology_manager.py:793-865 | which entry a match names, if any, priorities too large for their field included; a 5-tuple entry matches exactly the packets the match asks for |
| `RuleCompiler.CompileRule` | p4_proxy/proxy_agent/topology_manager.py:793-865 | exactly which rules are accepted, into which table and with which port |
| `RuleCompiler.DestinationMeansMatchIff` | p4_proxy/proxy_agent/topology_manager.py:815 | a destination entry matches what was asked exactly when every destination named says the same |
| `RuleCompiler.TwoDestinationsAreNotKept` | p4_proxy/proxy_agent/topology_manager.py:815 | a match with two destinations that is accepted and not honoured |
| `RuleCompiler.HitsIsEquality` | p4_proxy/proxy_agent/p4_client.py:676-701 | under the written masks a ternary match is equality |
| `RuleCompiler.MatchToRyu` | p4_proxy/proxy_agent/ryu_flow_stats.py:82-112 | the criteria name exactly the keys whose mask is not zero, under Ryu's names, and `dl_type` 0x0800 is among them exactly when they name an address, protocol or port |
| `RuleCompiler.RyuMatchSays` | p4_proxy/proxy_agent/ryu_flow_stats.py:82-112 | key by key, the name it is rendered under and its value: addresses as dotted quads padded from the left, everything else as a number, wildcarded keys not at all |
| `RuleCompiler.RenderFlowStats` | p4_proxy/proxy_agent/ryu_flow_stats.py:187-199 | reported are exactly the reportable entries, in order |
| `RuleCompiler.FiveMeansRule` | p4_proxy/proxy_agent/ryu_flow_stats.py:141-184 | a 5-tuple entry read back in canonical bytes renders to a rule asking for the same packets, at its priority and port |
| `RuleCompiler.LpmMeansRule` | p4_proxy/proxy_agent/ryu_flow_stats.py:66-112 | a destination entry renders to a priority-zero rule for exactly that address |
| `RuleCompiler.RenderingIsFaithful` | p4_proxy/p4_src/ndtwin_switch.p4:329-395 | for every packet the pipeline's possible ports are exactly those of the highest-priority matching rendered rules, in any read order |
| `RuleCompiler.SomethingIsPicked` | p4_proxy/p4_src/ndtwin_switch.p4:383-395 | the pipeline always decides |
| `RuleCompiler.PickIsDetermined` | p4_proxy/p4_src/ndtwin_switch.p4:383-395 | without overlap at equal priority the kernel's answer is the switch's only answer |
| `RuleCompiler.CompiledRuleIsReported` | p4_proxy/proxy_agent/ryu_flow_stats.py:141-184 | compile then render keeps the meaning of a match for every packet |
| `RuleCompiler.ReportedPriorityIsShifted` | p4_proxy/proxy_agent/topology_manager.py:277-296 | a reported priority sent back is mapped past the entry it came from |
| `Bytes.PadUndoesStrip` | p4_proxy/proxy_agent/ryu_flow_stats.py:66-69 | padding the canonical form restores the bytes written |
| `KeyedFailureLog.Log.Record` | include/utils/KeyedFailureLog.hpp:103-106 | repeats within a pass count once and the last message stays |
| `KeyedFailureLog.Log.EndPass` | include/utils/KeyedFailureLog.hpp:120-203 | closing a pass treats every key by expire, record, forget in that order, and reports exactly the edges |
| `KeyedFailureLog.StateIsExpected` | include/utils/KeyedFailureLog.hpp:120-203 | a key's state after any run is read off its recordings alone |
| `KeyedFailureLog.NewFiresExactly` | include/utils/KeyedFailureLog.hpp:155-180 | "new" fires exactly on the first recording of a chain that has lasted the hold-off |
| `KeyedFailureLog.RecoveredFiresExactly` | include/utils/KeyedFailureLog.hpp:139-203 | "recovered" fires exactly when a reported chain is forgotten, with its number of recordings |
| `KeyedFailureLog.ReportsAlternate` | include/utils/KeyedFailureLog.hpp:103-203 | over every run a key's reports alternate, "new" first |
| `KeyedFailureLog.AbsentPassesDoNotMatter` | include/utils/KeyedFailureLog.hpp:124-153 | with a forget window a key's "new" reports depend only on the passes that recorded it |
| `KeyedFailureLog.EmptyPassesChangeNothing` | include/utils/KeyedFailureLog.hpp:124-199 | empty passes inserted or removed anywhere change no "new" report |
| `KeyedFailureLog.EmptyPassMattersWithoutWindow` | include/utils/KeyedFailureLog.hpp:182-199 | without a forget window, for every hold-off, some empty pass does |
| `KeyedFailureLog.EmptyPassesIrrelevantIff` | include/utils/KeyedFailureLog.hpp:120-203 | empty passes are irrelevant to every key of every run exactly when there is a forget window |
| `KeyedFailureLog.SecondCloseRecoversIff` | include/utils/KeyedFailureLog.hpp:110-120 | a second close reports a recovery exactly when the window has passed |
| `KeyedFailureLog.Replay` | include/utils/KeyedFailureLog.hpp:103-203 | one log object driven through any run gives every key the reports of its own run |
| `SFlow.SwitchAgent.NextDatagramSequence` | p4_proxy/proxy_agent/sflow_emitter.py:141-148 | the counter advances by one in 32 bits and nothing else moves |
| `SFlow.SwitchAgent.NextSampleSequence` | p4_proxy/proxy_agent/sflow_emitter.py:150-152 | likewise |
| `SFlow.SwitchAgent.AdvancePool` | p4_proxy/proxy_agent/sflow_emitter.py:154-163 | the pool advances by the rate in 32 bits and nothing else moves |
| `SFlow.PadToWord` | p4_proxy/proxy_agent/sflow_emitter.py:96-99 | padding keeps the data as a prefix, adds zero bytes only, fewer than four, and reaches a word boundary |
| `SFlow.Captured` | p4_proxy/proxy_agent/sflow_emitter.py:174 | what is captured is the front of the frame, as much as the header limit lets through |
| `SFlow.BuildFlowSample` | p4_proxy/proxy_agent/sflow_emitter.py:166-217 | bytes and agent counters, including how far the counters get when a field does not fit |
| `SFlow.BuildDatagram` | p4_proxy/proxy_agent/sflow_emitter.py:220-246 | the datagram and the agent's new counters; the first sample that does not fit ends it |
| `SFlow.SampleShape` | p4_proxy/proxy_agent/sflow_emitter.py:176-217 | a sample is built exactly when every field fits, and its length field counts its body |
| `SFlow.DatagramBuiltIff` | p4_proxy/proxy_agent/sflow_emitter.py:220-246 | exactly when a datagram comes out, in terms of the samples, the address and the uptime |
| `SFlow.SampleReadsBack` | p4_proxy/proxy_agent/sflow_emitter.py:176-217 | following the length fields recovers a sample's fields, original length and the front of its frame up to the header limit, and stops at its end |
| `SFlow.DatagramRoundTrip` | p4_proxy/proxy_agent/sflow_emitter.py:166-246 | a datagram read by its own lengths yields agent, counters and every sample in order, with nothing left over |
| `SFlow.CountedKeepsIdentity` | p4_proxy/proxy_agent/sflow_emitter.py:141-163 | sample numbers are consecutive in 32 bits and the agent's identity stays |
| `Collector.SkipLandsOnRawHeader` | src/ndt_core/collection/FlowLinkUsageCollector.cpp:1230-1236 | skipping record 0 by its length lands on the raw-header record and the original frame length |
| `Collector.DropsIff` | src/ndt_core/collection/FlowLinkUsageCollector.cpp:1258-1441 | a reading is dropped exactly when the frame's own bytes say IPv4, ICMP, TCP or UDP, and a fragment offset other than zero |
| `Collector.ReadsSample` | src/ndt_core/collection/FlowLinkUsageCollector.cpp:1197-1441 | for every sample the offsets, shifts and masks read its own fixed fields and take everything behind them for its frame; it is lost exactly when that is too short; the index moves exactly past it, or stays inside it for a fragment that is dropped |
| `Collector.WalkFrom` | src/ndt_core/collection/FlowLinkUsageCollector.cpp:1001-1646 | from each sample on, the guarded loop gives the answer said on bytes, up to a view too short or a fragment |
| `Collector.HeaderAccepted` | src/ndt_core/collection/FlowLinkUsageCollector.cpp:927-1001 | every emitted datagram passes the header checks |
| `Collector.KernelReads` | src/ndt_core/collection/FlowLinkUsageCollector.cpp:927-1646 | the kernel's answer to every datagram the emitter can build, short frames and fragments included |
| `Collector.LongerViewSameReading` | src/ndt_core/collection/FlowLinkUsageCollector.cpp:1230-1300 | bytes behind a frame that holds all the kernel looks at change nothing |
| `Collector.PaddedLegibleIff` | src/ndt_core/collection/FlowLinkUsageCollector.cpp:1236-1300 | when a captured frame holds all the kernel looks at, as a condition on its length |
| `Collector.KernelReadsEverySample` | src/ndt_core/collection/FlowLinkUsageCollector.cpp:927-1646 | if all do, and none but perhaps the last is a fragment that is dropped, the kernel reads every sample's own frame, in order |
| `Collector.AfterAFragment` | src/ndt_core/collection/FlowLinkUsageCollector.cpp:1432-1646 | after a dropped fragment the next turn takes that sample's drop counter for an unknown type and its input port for a length: it breaks off or jumps by the port number, having read nothing |
| `Collector.KernelReadsAllIff` | src/ndt_core/collection/FlowLinkUsageCollector.cpp:927-1646 | for any datagram of an agent that drops nothing, the kernel gets a reading from every sample if and only if every view can be read and none but perhaps the last is a fragment it drops |
| `Collector.KernelKeepsItsPlaceIff` | src/ndt_core/collection/FlowLinkUsageCollector.cpp:927-1646 | for frames long enough, it reads every sample's own frame if and only if the bytes of no sample but the last say IPv4, ICMP, TCP or UDP, and a fragment offset other than zero |
| `Collector.TwoFragmentsAreSent` | p4_proxy/proxy_agent/sflow_emitter.py:220-246 | the emitter does build that datagram |
| `Collector.TwoFragmentsLoseOne` | src/ndt_core/collection/FlowLinkUsageCollector.cpp:1432-1441 | a concrete datagram of two fragments of which the kernel never reads the second |
| `Collector.LastSampleLostIff` | src/ndt_core/collection/FlowLinkUsageCollector.cpp:1236-1441 | where the kernel gets to the last sample, it is lost exactly when its frame is too short, and none before it is |
| `Emitter.SFlowEmitter.Emit` | p4_proxy/proxy_agent/sflow_emitter.py:325-370 | conservation, counters and buffer bounds kept for any clock and socket; a full buffer is cut and the answer is about that batch, aged buffers of others are flushed and counted, younger ones stay; every batch made meets the socket's answer for its switch |
| `Emitter.SFlowEmitter.Ship` | p4_proxy/proxy_agent/sflow_emitter.py:378-392 | a batch is built by its own switch's agent, which alone advances; it is sent exactly when there is an agent, the datagram builds and the socket takes it, and each failure has its own fate and counter |
| `Emitter.SFlowEmitter.FlushOne` | p4_proxy/proxy_agent/sflow_emitter.py:372-392 | the buffer becomes exactly one batch, under its own switch's agent, with the fate that agent and the socket decide |
| `Emitter.SFlowEmitter.Flush` | p4_proxy/proxy_agent/sflow_emitter.py:394-405 | afterwards every accepted sample of every switch is in its flushed batches |
| `Emitter.SFlowEmitter.RegisterSwitch` | p4_proxy/proxy_agent/sflow_emitter.py:311-320 | registering again resets that switch's agent and address and loses no sample |
| `Emitter.TakeConserves` | p4_proxy/proxy_agent/sflow_emitter.py:339-340 | buffering keeps every switch's accepted samples equal to its batches followed by its buffer |
| `Emitter.FlushConserves` | p4_proxy/proxy_agent/sflow_emitter.py:374-375 | so does turning a buffer into a batch |
| `Emitter.ChainFlush` | p4_proxy/proxy_agent/sflow_emitter.py:372-392 | flushing keeps every batch under the agent its switch's own registrations and batches had left |
| `Emitter.AgentHasLastAddress` | p4_proxy/proxy_agent/sflow_emitter.py:311-320 | whatever was sent since, a switch's agent carries the address it was last registered with |
| `Emitter.SentBatchReadsBack` | p4_proxy/proxy_agent/sflow_emitter.py:372-392 | a sent datagram holds its own switch's samples in order, each with the front of its frame up to the header limit, under the address that switch was registered with at that moment |
| `Emitter.OnTheWireIff` | p4_proxy/proxy_agent/sflow_emitter.py:372-392 | a batch's samples are on the wire if and only if its switch has an address, uptime and count fit, every sample of it can be encoded and the socket took it |
| `Emitter.NumbersContinue` | p4_proxy/proxy_agent/sflow_emitter.py:141-163 | two batches of a switch with nothing of it in between continue each other's datagram, sample and pool numbers, whatever other switches did |
| `Emitter.SamplesSentIsWhatArrives` | p4_proxy/proxy_agent/sflow_emitter.py:389-391 | the counter equals the number of samples a collector decodes from everything sent |
| `FlowDiff.BuildMap` | include/common_types/SFlowType.hpp:586-597 | the index of a rule list, later duplicates winning |
| `FlowDiff.LastIsIndexed` | include/common_types/SFlowType.hpp:586-597 | the last rule of each key is in the index |
| `FlowDiff.IndexedIsLast` | include/common_types/SFlowType.hpp:586-597 | and nothing else is |
| `FlowDiff.GetFlowTableDiff` | include/common_types/SFlowType.hpp:573-666 | one exact entry per differing switch; applied to the old tables it gives the new ones, and it is empty exactly when they agree |
| `FlowDiff.PatchOne` | include/common_types/SFlowType.hpp:613-640 | applying one switch's lists turns its old table into its new one |
| `FlowDiff.ReverseRestores` | include/common_types/SFlowType.hpp:522-529 | the ports carried in the lists undo it |
| `FlowDiff.KeysAreDisjoint` | include/common_types/SFlowType.hpp:613-640 | no key is listed twice, within a list or across lists |
| `FlowDiff.PatchLaw` | include/common_types/SFlowType.hpp:573-666 | the patch law for all switches, up to switches without rules |

## Left out

- gRPC, protobuf, HTTP, sockets, threads and processes: RPC and socket outcomes, clocks and the order of dict and set iteration are parameters or arbitrary choices.
- `networkx`: the path search is a parameter with the shortest-path contract; node and neighbour order are arbitrary.
- Changes of the graph in the middle of a route walk: both route computations are proved on a snapshot, so the branches for a vanished edge are not modelled; later changes are the reinstall worker's subject.
- The ECMP-biased branch of the OVS walk (switched off by a constant) and the SHA-256 neighbour order (any order is covered).
- Multi-homed hosts and two neighbours behind one port: excluded by hypothesis in the delivery results; a host is identified with its address.
- Writes that were refused and still landed: a refused table write leaves the table unchanged. For the clone session and the kernel reports such failures are modelled.
- The interval between a table write and its record: the two are one step.
- KeyedFailureLog.Log.EndPass: does not model the order of keys within a report; the pass counter is unbounded.
- ReinstallWorker.NoChangeIsLost, TopologyWorker.NothingIsLost: the workers are step machines between their yield points, not objects with fields.
- ReinstallWorker.StoppedIsCurrentIff: counts changes that schedule a reinstall and walks of the worker. In dynamic mode a topology rebuild (intelligent_router.py:1048-1049) and a packet-in (intelligent_router.py:1891-1894) add edges without scheduling one, and what the initial install covers is not counted.
- Collector.KernelReads: the kernel's loop is a recursive function over the words of the datagram; the testbed mode is not modelled, nor what the kernel does with a reading. Counter and expanded samples, which the emitter never sends, are modelled only as what the loop may run into after a dropped fragment.
- Emitter.SFlowEmitter.Emit: agents are values in a map rather than shared objects, so that a batch can name the agent it was built by; `SFlow.SwitchAgent`, `SFlow.BuildFlowSample` and `SFlow.BuildDatagram` are the in-place form, proved equal to the functions the emitter uses.
- RuleCompiler.CompileRule: text is a dotted quad, a decimal or a hexadecimal numeral, identified by its value; `inet_aton` also takes octal numerals and shortened addresses such as 10.1, which are further spellings. Booleans, next-hop addresses and error texts are not modelled; a port above 511 counts as refused wherever it is refused.
- RuleCompiler.RenderingIsFaithful: rendered counters and the L2 table are not modelled.
- `render_links`, `render_hosts`, `AutoRefreshQueue`, `counterDelta`, `sample_from_packet_in`, address and number parsers, host-layout generators, JSON copying, CLI, logging and vendored libraries: field copies, single arithmetic expressions or other projects' code; no result here depends on them.
