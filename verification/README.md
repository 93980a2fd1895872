# Verification of the in-network orchestration

The repository deploys in-network tenant functions (OTFs) into a programmable data
plane: a P4 program keeps per-flow statistics and dispatches packets to tenant functions, and a
set of Python services generates that program, keeps its runtime rules and schedules
reconfigurations. This project models the parts with the most state and branching and proves what
they are relied on for. `dafny verify dfyconfig.toml` checks everything.

| part | files |
|---|---|
| flow monitoring in the BMv2 data plane | `EtherTypes`, `MovingAverage`, `FlowStatistics`, `FlowMonitor`, `FlowAdmission`, `FlowProperties`, `FlowSwitch`, `Biflows` |
| packet parser and deparser | `BitFields`, `PacketParser`, `PacketRoundTrip`, `PacketStacks`, `PacketAcceptance`, `PacketShapes`, `PacketPorts`, `PacketPlaces`, `PacketErrors`, `PacketFrames`, `ParserMachine` |
| generator of the tenant controller | `Decimals`, `OtfProgram`, `OtfParsing`, `OtfDispatch`, `OtfGenerator` |
| tenant ids, runtime rules, rule synchronisation | `TenantIds`, `RuleTables`, `RulesUpdater`, `RuleSync`, `RuleSynchronizer` |
| tenant definitions of the in-network updater | `TenantDefinitions`, `TenantLifecycle`, `FunctionIds`, `StatusAnswers`, `InNetworkUpdater` |
| reconfiguration scheduler | `Scheduler`, `SchedulerCalls`, `SchedulerSafety`, `SchedulerOutcomes`, `SchedulerRounds`, `SchedulerStatuses`, `SchedulerDeliveries`, `SchedulerRecords`, `SchedulerTiming`, `SchedulerRuns`, `SchedulerLoop` |

How the parts are modelled:

- **Flow monitoring.** `FlowSwitch.FlowTable` is the register machine: every register array of
  length `FLOW_MONITORING_SLOTS`, for any number of slots and any hash function, updated in place by
  packets, idle-timeout messages and exports. Its ghost log ties it to `FlowMonitor.Run`, the state
  machine on values, and all statements about runs are proved there. The build is FLOWS with
  `USE_PM`, dynamic routing (the TTL gate) and the inactive-timeout mechanism; shift width 2, timeout
  16 s. The arithmetic lemmas hold for any width and shift.
- **Parser.** States extract from a bit string, with every error the P4 architecture raises.
  `ParserMachine.Machine` is the parser as it runs, `PacketParser.Parse` what it computes.
- **Generator.** The generated text is a string; a scanner and recursive-descent parser read it back,
  and an evaluator gives it meaning on a packet's VNI.
- **Rules and definitions.** The services are classes over their dictionaries, tied to functions on
  maps. A remote call that fails or an exception raised part-way is an input, so aborted requests
  are covered.
- **Scheduler.** Several threads interleave, so the protocol is a state machine of atomic steps: every
  critical section under `rss_lock` is one step, `deployment_lock` is held across steps. The
  deployment loop itself is also a class (`SchedulerLoop.SchedulerThread`) whose critical sections
  and whole round are proved to be such steps.

What the code does that its documentation does not say (each is a lemma below):

- TCP inside VXLAN is never monitored beyond its first packet: the collision check compares the outer
  protocol with the registered inner one (`TunnelledTcpCollides`, exact condition
  `RegisteredFlowRejectedIff`).
- An export frees a slot but keeps its statistics, so an inter-arrival time above the inactive timeout
  can be recorded afterwards (`ExportLetsLongGapIn`; over runs it stays out exactly if no packet
  registers late, `BoundKeptInRunIff`).
- Packets of length zero reset minima (`MinimumIsTrueIff`). The bidirectional minimum stays the smaller of
  the two directions exactly if no packet of length zero is recorded while the other direction has a minimum
  (`MinimaMeetInRunIff`, a run of three packets in `ZeroLengthSplitsMinima`).
- The two directions of a flow share a hash input unless both addresses are equal and the ports
  differ (`DirectionsShareHashInputIff`).
- The option length behind an inner IPv4 header is taken from the outer header (`ParseThenEmit`). The inner
  transport header is read where it stands exactly if both IPv4 headers have the same length
  (`InnerHeaderPlaceIff`); in `OptionsAreTakenForPorts` inner options are taken for the ports of a flow.
- One function with an empty VNI list makes the whole controller text unreadable
  (`ControllerParsesIff`).
- An update for a tenant without rules stores them, but sends nothing to the switch and answers 404
  (`RulesUpdater.Updater.UpdateRules`).
- The rule synchronisation leaves stale rules in place when all desired ones are applied
  (`SetsMeetIff`), and for function names with a dash it works on another entry
  (`SynchronizedIdIff`).
- A cleanup only reaches the first enabled accelerator and leaves the maps from tenants to accelerators
  as they are, so a status query can return nothing at all (`CleanIsLocal`, `StatusLostByCleanup`). Over
  runs that happens exactly to tenants a cleanup reached where the query looks, until a config defines
  them on an accelerator where they are not defined (`UnansweredIffLost`).
- Function ids are not unique (`IdsCanCollide`). They stay unique exactly if every number drawn was free
  (`IdsStayDistinctIff`).
- A raising in-network call keeps the collected configs, which head the next call
  (`RaisedConfigsAreSentAgain`, a run in `RaisedConfigIsSentTwice`). Each accepted config is sent once
  exactly if no call follows one that raised (`AcceptedConfigsAreSentOnceIff`).
- A tenant accepted without an in-network config makes every later in-network call raise
  (`MissingConfigRaisesForever`).
- A committed Schedule call leaves a timing entry without an end. Until a round answered with 200 has its
  tenant in the batch, also when it was refused or deleted, every other such round ends in an exception
  (`PostprocessingSucceedsIff`, `ScheduledTenantFailsLaterRounds`); in `DeletionFailsAnotherTenant` a tenant
  both updaters accepted ends as failed for that reason.
- A 200 answer of the in-network updater marks the whole batch processed, also the tenants whose NOS
  update failed in the same round: such a tenant ends as processed exactly if the round's call was answered
  with 200 and the round did not then fail on it as its last (`FailedTenantIsProcessedIff`, a run in
  `RefusedTenantIsProcessed`). A call that raises leaves all accepted tenants but the last in processing
  (`RoundEndsIn`).
- Plain TCP and ICMP packets never carry the pm header that monitoring reads (`PmIsCarriedIff`).

## Model

| member | source | states |
|---|---|---|
| MovingAverage.WeightedIsExact | inc_template/bmv2/include/define.p4:204-207 | for every register width and shift the extended width is enough: no operator of the weighted sum wraps, and the shifted result is the division on naturals |
| MovingAverage.AverageIsExact | inc_template/bmv2/include/controls/flow_data_update.p4:65-80 | the cast back to the register width loses nothing and the new mean lies between the old mean and the current value |
| FlowStatistics.AbsorbSummarises | inc_template/bmv2/include/controls/flow_data_update.p4:40-80 | minimum, maximum and moving average registers keep describing the sequence of values seen, with zero as the empty mark |
| FlowStatistics.MinimumIsTrueIff | inc_template/bmv2/include/controls/flow_data_update.p4:44-52 | the minimum register is the true minimum exactly if the last value is zero or none is |
| FlowStatistics.AddLengthCounts | inc_template/bmv2/include/controls/flow_data_update.p4:13-80 | packet and byte registers are the count and sum modulo 2^32, the length registers summarise the lengths |
| FlowStatistics.AddArrivalCounts | inc_template/bmv2/include/controls/flow_data_update.p4:84-129 | the inter-arrival registers summarise exactly the 56-bit gaps between neighbouring packets |
| FlowStatistics.ExtendCounts | inc_template/bmv2/include/controls/flow_data_update.p4:379-393 | one packet extends all statistics of a slot by that packet |
| FlowMonitor.RunFollows | inc_template/bmv2/tenant_inc.p4.j2:307-390 | in every run of packets, idle timeouts and exports each slot's registers are the statistics of the packets accepted there since its last reset, and those since its registration belong to the registered conversation |
| FlowAdmission.FreeSlotIsTaken | inc_template/bmv2/tenant_inc.p4.j2:359-364 | the next counted packet takes a free slot under its own 5-tuple, on top of what was counted there, and is a registration |
| FlowAdmission.TimedOutFlowIsReplacedIff | inc_template/bmv2/tenant_inc.p4.j2:366-375 | for every occupied slot and packet of any 5-tuple: exactly if it comes more than 16 s after the last one, on the wrapping clock, the slot is registered for it and counts it alone; that is a registration and never a collision |
| FlowAdmission.InTimePacketIsCountedIff | inc_template/bmv2/tenant_inc.p4.j2:376-390 | within the 16 s a packet with the registered hosts, ports in any order and outer protocol is counted in the slot; any other one is a collision that changes no slot |
| FlowAdmission.OtherPacketsResetIff | inc_template/bmv2/tenant_inc.p4.j2:307-358 | every packet that is not counted leaves all registers alone, but for an idle-timeout message, which frees and empties the slot it names |
| FlowAdmission.CollidesIff | inc_template/bmv2/tenant_inc.p4.j2:133-180 | what the nested comparisons call a collision, as unordered pairs of hosts and ports |
| FlowProperties.SlotReports | inc_template/bmv2/include/controls/flow_data_update.p4:13-129 | spelled out for positive lengths: exact counters modulo 2^32, true extremes, the recursively defined average between them, first and last timestamps |
| FlowProperties.OnlyOwnSlotChanges | inc_template/bmv2/tenant_inc.p4.j2:359-390 | an event changes the registers of no slot but the one it hashes to or names |
| FlowProperties.PacketsAreConserved | inc_template/bmv2/tenant_inc.p4.j2:344-390 | packets past the TTL gate equal the per-slot packet counters plus the collision counter, and the flow counter equals the registrations |
| FlowProperties.GapsAreOrdered | inc_template/bmv2/include/controls/flow_data_update.p4:84-129 | in every run, exports included, inter-arrival minimum and mean never exceed the maximum |
| FlowProperties.GapsStayBelowTimeout | inc_template/bmv2/tenant_inc.p4.j2:366-375 | without exports no recorded inter-arrival time exceeds 16,000,000, whatever the timestamps |
| FlowProperties.BoundKeptIff | inc_template/bmv2/include/controls/flow_data_update.p4:84-129 | a packet recorded on any registers keeps the bound exactly if it came within the timeout of the last one, or no last timestamp and no gap are recorded |
| FlowProperties.BoundKeptInRunIff | inc_template/bmv2/tenant_inc.p4.j2:359-375 | at every prefix of a run, exports included, all recorded gaps stay within the timeout exactly if no packet registers on a free slot whose leftover registers it does not suit |
| FlowProperties.ExportLetsLongGapIn | inc_template/bmv2/include/controls/flow_data_export.p4:216-218 | a run with an export that records a gap of 17 s |
| FlowProperties.FreedSlotIsTakenNext | inc_template/bmv2/tenant_inc.p4.j2:307-363 | after an idle timeout or an export the next packet hashing to the slot registers there, and its repetition is not rejected |
| FlowProperties.RegisteredFlowRejectedIff | inc_template/bmv2/tenant_inc.p4.j2:133-180 | a packet with the registered 5-tuple inside the timeout is rejected exactly under VXLAN with different inner and outer protocols |
| FlowProperties.TunnelledTcpCollides | inc_template/bmv2/tenant_inc.p4.j2:133-180 | for any hash the second packet of a TCP flow inside VXLAN counts as a collision |
| FlowProperties.CountedPacketsAgree | inc_template/bmv2/tenant_inc.p4.j2:223-249 | every packet counted since the registration agrees with the registered address pair and port pair |
| FlowProperties.DurationIsSumOfGaps | inc_template/bmv2/include/controls/flow_data_update.p4:131-133 | for increasing timestamps the reported duration is the sum of all gaps, between the packet distance times their minimum and times their maximum |
| FlowProperties.RunDurationIsSumOfGaps | inc_template/bmv2/include/controls/flow_data_update.p4:131-133 | the same after every accepted packet of a run that extends an epoch, registrations after an export included, for the packets counted in the slot since its last reset |
| FlowSwitch.FlowTable.constructor | inc_template/bmv2/include/controls/flow_data_reset.p4:14-41 | a new table is the empty run |
| FlowSwitch.FlowTable.ResetFlowData | inc_template/bmv2/include/controls/flow_data_reset.p4:14-41 | 5-tuple and all statistics of one slot become zero, nothing else changes |
| FlowSwitch.FlowTable.RegisterFlow5Tuple | inc_template/bmv2/tenant_inc.p4.j2:223-249 | the slot takes the inner 5-tuple under VXLAN, the outer one otherwise |
| FlowSwitch.FlowTable.UpdateExtremes | inc_template/bmv2/include/controls/flow_data_update.p4:40-80 | the three branches compute what the lemmas on summaries are about |
| FlowSwitch.FlowTable.UpdateLengths | inc_template/bmv2/include/controls/flow_data_update.p4:13-80 | counters and length registers of one slot take in one length |
| FlowSwitch.FlowTable.UpdateGaps | inc_template/bmv2/include/controls/flow_data_update.p4:84-129 | inter-arrival registers and last timestamp of one slot take in one timestamp |
| FlowSwitch.FlowTable.UpdateFlowData | inc_template/bmv2/include/controls/flow_data_update.p4:379-393 | all statistics of one slot, the first timestamp when the packet register is one, and the reported duration |
| FlowSwitch.FlowTable.CheckFlowHashCollision | inc_template/bmv2/tenant_inc.p4.j2:133-180 | the nested comparisons find exactly the tuples that collide |
| FlowSwitch.FlowTable.Admit | inc_template/bmv2/tenant_inc.p4.j2:361-386 | register, time out, collide or continue, with the counters each branch bumps |
| FlowSwitch.FlowTable.Monitor | inc_template/bmv2/tenant_inc.p4.j2:359-390 | one monitored packet changes the device as the state machine says |
| FlowSwitch.FlowTable.Ingress | inc_template/bmv2/tenant_inc.p4.j2:307-390 | the table stays the run of all events received, so every statement about runs holds for it |
| FlowSwitch.FlowTable.ExportFlow | inc_template/bmv2/include/controls/flow_data_export.p4:39-218 | the record is a snapshot of the slot; only its occupancy bit is cleared, and not even that for an active timeout |
| Biflows.DirectionsShareHashInputIff | inc_template/bmv2/tenant_inc.p4.j2:53-131 | a flow and its reverse are hashed alike exactly if the addresses differ or the ports are equal |
| Biflows.DirectionsAddUp | inc_template/bmv2/include/controls/flow_data_update.p4:144-335 | in every reachable state forward plus backward packets and bytes of a slot equal the bidirectional registers modulo 2^32 and the maxima agree; so do the minima as long as the packets counted there since its last reset have positive length |
| Biflows.RecordedMinimaIff | inc_template/bmv2/include/controls/flow_data_update.p4:154-180 | one packet keeps the minima together exactly if its length is positive or the other direction has no minimum |
| Biflows.MinimaMeetInRunIff | inc_template/bmv2/include/controls/flow_data_update.p4:154-335 | in every run the minima of a slot agree, at every prefix and ever since its last reset, exactly if no packet of length zero was recorded while the other direction had a minimum |
| Biflows.ZeroLengthSplitsMinima | inc_template/bmv2/include/controls/flow_data_update.p4:154-180 | a run of three packets, for any hash, after which the bidirectional minimum is not the smaller of the two |
| Biflows.RegisteringPacketIsForwardIff | inc_template/bmv2/include/controls/flow_data_update.p4:144-152 | the packet that registers a slot counts as forward exactly without VXLAN or with the same addresses inside and outside |
| Biflows.TotalsAreShared | inc_template/bmv2/include/controls/flow_data_update.p4:379-427 | the bidirectional registers of the BIFLOWS build are those of the FLOWS build |
| Biflows.BiflowTable.UpdateBiflowData | inc_template/bmv2/include/controls/flow_data_update.p4:379-427 | one packet is added to the totals and to exactly one direction |
| Biflows.BiflowTable.Follow | inc_template/bmv2/include/controls/flow_data_reset.p4:45-91 | the direction registers stay the replay of all verdicts, resets included |
| Biflows.Ingress | inc_template/bmv2/tenant_inc.p4.j2:307-390 | packet after packet, with the verdict the registers themselves lead to, the directions of every slot add up, minima included while its packets have positive length |
| BitFields.PackUnpack | inc_template/bmv2/include/header.p4:52-265 | packing the fields read from a header gives its bits back |
| BitFields.UnpackPack | inc_template/bmv2/include/header.p4:52-265 | reading packed fields gives their values back when they fit their widths |
| BitFields.FieldBits | inc_template/bmv2/include/header.p4:52-300 | every field is made of the bits behind those of the fields before it |
| PacketRoundTrip.EmitAppends | inc_template/bmv2/include/parser.p4:218-247 | adding the next header in emit order appends exactly its bits |
| PacketRoundTrip.ParseThenEmit | inc_template/bmv2/include/parser.p4:13-247 | for every accepted packet, emitting the headers before the unparsed rest gives the packet minus exactly the outer option bits, and minus as many again behind an inner IPv4 header |
| PacketRoundTrip.AcceptedTcpOffsets | inc_template/bmv2/include/parser.p4:78-86 | no accepted packet has a TCP data offset below five, outer or inner |
| PacketStacks.WireThenParse | inc_template/bmv2/include/parser.p4:13-213 | parsing the packet of a well-formed stack, IPv4 options of any length included, returns that stack and stops before the payload |
| PacketStacks.WireEmits | inc_template/bmv2/include/parser.p4:218-247 | the packet of a stack without options is the emitted one |
| PacketAcceptance.AcceptedIsWellFormed | inc_template/bmv2/include/parser.p4:13-213 | what any accepting run extracts is a well-formed stack, and the packet is that stack with the options behind its IPv4 headers and the payload last |
| PacketAcceptance.RoundTripIffWellFormed | inc_template/bmv2/include/parser.p4:13-213 | parsing the packet of a stack returns the stack, its outer options and its payload if and only if it is well formed |
| PacketShapes.WellFormedIffAdmissible | inc_template/bmv2/include/parser.p4:13-213 | the well-formed stacks are those whose headers are exactly the ones announced by ether types, protocols, the VXLAN port and a header length of five to fifteen words, with options of the announced lengths and 32 bits of payload behind a bare IPv4 header |
| PacketShapes.RoundTripIffAdmissible | inc_template/bmv2/include/parser.p4:13-213 | parsing the packet of a stack returns the stack, options included, if and only if it is on that list |
| PacketShapes.AcceptedIffAdmissible | inc_template/bmv2/include/parser.p4:13-213 | a packet is accepted with some headers and payload if and only if it is the packet of those headers, on the list with some outer options |
| PacketShapes.EmittedIsParsed | inc_template/bmv2/include/parser.p4:13-247 | a stack without options on the list is parsed back after it was emitted |
| PacketPorts.FirstFields | inc_template/bmv2/include/parser.p4:51-52 | a lookahead of two ports shows the ports of the TCP or UDP header that follows |
| PacketPorts.NotedPortsAreThePorts | inc_template/bmv2/include/parser.p4:51-182 | for every accepted packet the ports and tenant id noted in metadata, which identify its flow, are those of its outer and inner TCP or UDP header and its VXLAN header |
| PacketPlaces.InnerHeaderPlaceIff | inc_template/bmv2/include/parser.p4:117-182 | for every accepted packet the inner transport header is read at bit 672 plus twice the outer options, which is where the inner IPv4 header says its payload starts exactly if both IPv4 headers have the same length |
| PacketPlaces.OptionsAreTakenForPorts | inc_template/bmv2/include/parser.p4:122-130 | an accepted packet, with any payload, whose noted inner ports are bits of the inner IPv4 options while its UDP ports stand 32 bits later |
| PacketPlaces.AcceptedBits | inc_template/bmv2/include/parser.p4:18-182 | for every accepted packet the bits its ether types, versions, lengths, TTL, protocols, addresses, noted ports and tenant id are read from, outer options counted once outside a tunnel and twice inside |
| PacketPlaces.AcceptedPm | inc_template/bmv2/include/parser.p4:88-205 | the bits a pm header is read from, behind the last UDP header or TCP options |
| PacketErrors.Ipv4ErrorsIff | inc_template/bmv2/include/parser.p4:30-43 | for every packet, by its bits: rejected for the version exactly if it is not four, for the header length exactly if that is below five |
| PacketErrors.RejectedFor | inc_template/bmv2/include/parser.p4:13-213 | which of the four errors every rejected packet has |
| PacketFrames.PmIsCarriedIff | inc_template/bmv2/include/parser.p4:88-200 | an accepted packet has a pm header exactly if it is plain UDP, or TCP or UDP inside VXLAN |
| PacketFrames.FrameShowsPacket | inc_template/bmv2/tenant_inc.p4.j2:223-249 | the frame monitoring sees of an accepted packet has its ports, its pm values when it carries them, and a valid IPv4 header exactly with the IPv4 ether type |
| PacketFrames.FrameIsRead | inc_template/bmv2/tenant_inc.p4.j2:223-249 | ether type, TTL, addresses, protocols, control fields and pm values of the frame are the named bits of the packet |
| ParserMachine.Machine.Fixed | inc_template/bmv2/include/parser.p4:17-18 | a fixed-size extract stores the next bits and advances, or rejects a short packet |
| ParserMachine.Machine.Variable | inc_template/bmv2/include/parser.p4:44-46 | a variable-size extract fails first on its maximum, then on the packet length |
| ParserMachine.Machine.Lookahead | inc_template/bmv2/include/parser.p4:51-52 | two ports are read without advancing |
| ParserMachine.Machine.RunEthernet | inc_template/bmv2/include/parser.p4:17-27 | extracts Ethernet and takes the branch of its ether type, as the parser function does |
| ParserMachine.Machine.RunIpv4 | inc_template/bmv2/include/parser.p4:29-60 | checks version and header length, extracts the options, reads the ports and branches on the protocol |
| ParserMachine.Machine.RunTransport | inc_template/bmv2/include/parser.p4:62-100 | extracts ICMP, TCP with its options or UDP and leads on to VXLAN or pm |
| ParserMachine.Machine.RunTunnel | inc_template/bmv2/include/parser.p4:102-138 | extracts VXLAN, the inner Ethernet and IPv4 headers and options of the outer length, and notes the VNI |
| ParserMachine.Machine.RunInnerTransport | inc_template/bmv2/include/parser.p4:150-182 | extracts the inner TCP options, UDP or ICMP header and notes the UDP ports |
| ParserMachine.Machine.RunInnerTcp | inc_template/bmv2/include/parser.p4:140-148 | extracts the inner TCP header and notes its ports |
| ParserMachine.Machine.RunLast | inc_template/bmv2/include/parser.p4:184-211 | extracts the pm header or one of the flow messages and accepts |
| ParserMachine.Machine.Run | inc_template/bmv2/include/parser.p4:13-213 | the states in sequence compute what the round trips are about |
| ParserMachine.Deparse | inc_template/bmv2/include/parser.p4:218-247 | the sequence of emits builds the packet the round trips are about |
| OtfParsing.ControllerParsesIff | updater/otf_management/otf_generator.py:35-45 | the generated text parses exactly if every function has a VNI, and then to the table's branches in order |
| OtfDispatch.GeneratedTextDispatches | updater/otf_management/otf_generator.py:84-132 | run on any VNI the generated text sets the id and applies the ingress of the first registered function with that VNI, and does nothing otherwise |
| OtfDispatch.DispatchIsFirst | updater/otf_management/otf_generator.py:107-111 | dispatch on the table is the first match in insertion order |
| OtfDispatch.OrderDoesNotMatter | updater/otf_management/otf_generator.py:107-111 | with disjoint VNI sets insertion order does not matter |
| OtfDispatch.OperationIsLocal | updater/otf_management/otf_generator.py:149-212 | adding, updating or deleting a function changes the dispatch of no VNI outside its old and new sets |
| OtfDispatch.OperationsAreLocal | updater/otf_management/otf_generator.py:149-212 | nor does any sequence of operations, failing ones included |
| OtfDispatch.AddedFunctionIsReached | updater/otf_management/otf_generator.py:149-171 | a new function gets exactly those of its VNIs nobody had |
| OtfDispatch.UpdateKeepsOrder | updater/otf_management/otf_generator.py:191-196 | an update exchanges one function where it stands: same keys in the same order, all other entries as before |
| OtfDispatch.UpdatedFunctionIsReachedIff | updater/otf_management/otf_generator.py:191-196 | an updated function gets a VNI of its new list exactly if no function registered before it has that VNI |
| OtfDispatch.DeleteKeepsOrder | updater/otf_management/otf_generator.py:209-212 | a deletion takes one function out and keeps the others in order |
| OtfDispatch.FailedOperationsChangeNothing | updater/otf_management/otf_generator.py:160-212 | adding a known key, updating or deleting an unknown one changes nothing |
| OtfDispatch.VniIsListedIff | updater/otf_management/otf_generator.py:114-147 | a 24-bit VNI matches a list exactly if it is in the list, cut to 24 bits |
| OtfDispatch.AfterKeepsKeysUnique | updater/otf_management/otf_generator.py:149-212 | no operation registers a key twice |
| OtfGenerator.SeparatedIsTerms | updater/otf_management/otf_generator.py:126-130 | the grown disjunction with its trailing separator is the disjunction over the list followed by that separator |
| OtfGenerator.Generator.constructor | updater/otf_management/otf_generator.py:16-33 | a new generator has no functions |
| OtfGenerator.Generator.IsOtfInGenerator | updater/otf_management/otf_generator.py:134-147 | finds exactly the registered keys |
| OtfGenerator.Generator.AddOtfByCode | updater/otf_management/otf_generator.py:149-171 | appends a new key, refuses a known one |
| OtfGenerator.Generator.UpdateOtfByCode | updater/otf_management/otf_generator.py:173-197 | replaces a function in its place, refuses an unknown key |
| OtfGenerator.Generator.DeleteOtf | updater/otf_management/otf_generator.py:199-212 | removes one function and keeps the order of the others, also when its file cannot be removed and the call raises; refuses an unknown key |
| OtfGenerator.Generator.VnisCondition | updater/otf_management/otf_generator.py:114-132 | cutting the last four characters leaves exactly the disjunction over the list |
| OtfGenerator.Generator.FormatBranch | updater/otf_management/otf_generator.py:97-111 | one branch of the text that is parsed back |
| OtfGenerator.Generator.SwitchClause | updater/otf_management/otf_generator.py:84-112 | the code paths for no, one and many functions build the text that is parsed back |
| OtfGenerator.Generator.Controller | updater/otf_management/otf_generator.py:35-45 | the controller text is that of the registered functions in insertion order |
| TenantIds.JoinUndoesSplit | updater/rules_updater.py:53-64 | joining the dash-separated parts restores the text |
| TenantIds.SplitUndoesBuild | updater/rules_updater.py:36-64 | splitting a built id returns number and name for every name, dashes included |
| TenantIds.BuildIsInjective | updater/rules_updater.py:36-50 | different tenants or names never share an id |
| TenantIds.InNetworkSplitIff | updater/in_network_updater.py:116-124 | the in-network updater's split returns the name exactly if it has no dash |
| RuleTables.CreateAndUpdateKeepNoEmptyList | updater/rules_updater.py:198-213 | no create or update, raising ones included, leaves a tenant with an empty rule list |
| RuleTables.DeleteKeepsNoEmptyList | updater/rules_updater.py:455-464 | nor does a deletion, and it touches no other tenant |
| RuleTables.DeletingAllForgetsTenant | updater/rules_updater.py:455-464 | deleting all rules of a tenant in any order forgets the tenant |
| RuleTables.DeleteUndoesCreate | updater/rules_updater.py:455-464 | creating rules for a new tenant and deleting them restores the tables |
| RuleTables.DeletionDoneIff | updater/rules_updater.py:455-464 | a deletion gets through exactly if the tenant has every rule as often as it is deleted, and then leaves the others |
| RuleTables.WithoutKeepsOrder | updater/rules_updater.py:457 | removing a rule takes out its first occurrence and keeps the order |
| RuleTables.AppendKeysDoneIff | updater/rules_updater.py:333-343 | an update for a new tenant gets through exactly if no key comes in two versions, and then stores every rule once |
| RuleTables.SameKeyIff | updater/rules_updater.py:103-119 | two rules have the same key exactly if they differ in nothing but the action |
| RulesUpdater.Updater.constructor | updater/rules_updater.py:66-78 | a fresh service has no tenant rules |
| RulesUpdater.Updater.RuleInTable | updater/rules_updater.py:103-119 | finds exactly the rules with the same table and matches |
| RulesUpdater.Updater.CreateRules | updater/rules_updater.py:198-213 | the new tables, and 404 exactly when nothing was added |
| RulesUpdater.Updater.UpdateKnownTenant | updater/rules_updater.py:344-353 | replaces by key, skips unknown keys, and says whether any key was known |
| RulesUpdater.Updater.UpdateNewTenant | updater/rules_updater.py:332-343 | appends new keys and raises on a second version of a key |
| RulesUpdater.Updater.UpdateRules | updater/rules_updater.py:325-431 | the new tables; 200 exactly if an applied rule was updated and the call to the switch succeeds, 404 exactly if none was and nothing raised, also for a new tenant with different keys, 500 otherwise |
| RulesUpdater.Updater.DeleteRules | updater/rules_updater.py:455-464 | the tables up to the first unknown rule, and the answer in every case |
| RulesUpdater.Updater.GetRules | updater/rules_updater.py:586-612 | 404 exactly for a tenant without rules, 500 exactly when provider tables are missing |
| RulesUpdater.Updater.Cleanup | updater/rules_updater.py:545-570 | all tenants forgotten, or none if a call to the switch fails |
| RuleSync.ReplaceAllExchanges | updater/rules_updater.py:344-353 | an update with known keys exchanges exactly those keys and keeps keys unique |
| RuleSync.InsertAllJoins | updater/rules_updater.py:205-213 | a creation joins the two sets and keeps keys unique |
| RuleSync.DeletedKeepsOthers | updater/rules_updater.py:455-464 | a deletion removes exactly the requested rules |
| RuleSync.DifferentRulesConverge | updater/in_network_updater.py:604-656 | if some desired rule is missing, exactly the desired rules are applied afterwards, each key once, and no other tenant changes |
| RuleSync.NewTenantConverges | updater/in_network_updater.py:622-646 | the same for a tenant without rules |
| RuleSync.SynchronisationConverges | updater/in_network_updater.py:590-656 | afterwards every desired rule is applied, keys are unique, nothing changes if all were applied before, and a second run changes nothing |
| RuleSync.SetsMeetIff | updater/in_network_updater.py:590-656 | applied equals desired exactly if a desired rule was missing or no applied one was stale |
| RuleSync.PlanIff | updater/in_network_updater.py:590-656 | which rules are sent to be updated, created and deleted |
| RuleSynchronizer.CompleteRuleInRules | updater/in_network_updater.py:560-583 | finds exactly the equal rules |
| RuleSynchronizer.RuleInRules | updater/in_network_updater.py:569-589 | finds exactly the rules with the same key |
| RuleSynchronizer.EqualCompleteRules | updater/in_network_updater.py:551-558 | true exactly if every desired rule is applied |
| RuleSynchronizer.Plan | updater/in_network_updater.py:608-621 | the three lists the loops fill |
| RuleSynchronizer.SynchronizeRules | updater/in_network_updater.py:590-656 | the requests sent to the rules updater do to its tables what convergence is proved of |
| RuleSynchronizer.SynchronizedIdIff | updater/in_network_updater.py:593 | the synchronised entry is the tenant's own exactly if its name has no dash |
| TenantDefinitions.ConfigureKeepsInv | updater/in_network_updater.py:389-481 | one config, completed or aborted anywhere, keeps definitions, ids, generator and accelerator maps consistent |
| TenantDefinitions.PreprocessKeepsInv | updater/in_network_updater.py:378-483 | so does a whole request |
| TenantDefinitions.CleanKeepsInv | updater/in_network_updater.py:816-826 | so does a cleanup that stops anywhere |
| TenantDefinitions.RunKeepsInv | updater/in_network_updater.py:162-185 | from a fresh start, in every sequence of requests and cleanups: registered functions are defined, definitions and ids have the same tenants, function ids agree, and each defined tenant is in exactly one of the live and old maps |
| TenantLifecycle.RequestKeepsIds | updater/in_network_updater.py:162-185 | no update request takes a function id away or changes it, so a tenant deleted and created again keeps its id |
| TenantLifecycle.IdsCanCollide | updater/in_network_updater.py:163-167 | two tenants that draw the same number share a function id: the search for a free number compares with the wrong level |
| FunctionIds.ConfigureDistinctIff | updater/in_network_updater.py:163-167 | one config keeps the ids of every accelerator different exactly if it defines no new tenant or its draw was free |
| FunctionIds.RequestDistinctIff | updater/in_network_updater.py:378-483 | a request does exactly if every draw up to its abort was free |
| FunctionIds.IdsStayDistinctIff | updater/in_network_updater.py:162-185 | ids are different throughout a run exactly if every draw in it was free; cleanups never make them equal |
| TenantLifecycle.GeneratedIdIsTheTenants | updater/in_network_updater.py:409-410 | in every reachable state the generated program gives a packet the id under which the updater knows the first matching tenant |
| TenantLifecycle.CleanIsLocal | updater/in_network_updater.py:812-826 | a cleanup changes one accelerator only and neither accelerator map |
| TenantLifecycle.CleanForgets | updater/in_network_updater.py:816-826 | a cleanup that gets through forgets all definitions, ids and functions of its accelerator |
| TenantLifecycle.StatusKnownIffDefined | updater/in_network_updater.py:756-779 | without cleanups a status query answers 200 exactly for defined tenants and 404 for all others |
| TenantLifecycle.StatusLostByCleanup | updater/in_network_updater.py:756-779 | one config and a cleanup after which the query returns nothing |
| StatusAnswers.CleanRemovesReached | updater/in_network_updater.py:816-826 | a cleanup removes exactly the keys up to the first registered one whose file cannot be removed |
| StatusAnswers.CleanupLosesIff | updater/in_network_updater.py:756-779 | after any cleanup a query gets no answer exactly if it got none before or the cleanup reached the tenant where the query looks; other answers stay |
| StatusAnswers.ConfigAnswers | updater/in_network_updater.py:389-404 | a config gives the answer back exactly by defining the tenant on an accelerator where it is not defined |
| StatusAnswers.UnansweredIffLost | updater/in_network_updater.py:756-779 | in every run a query gets no answer exactly for tenants a cleanup lost and no later config defined anew |
| TenantLifecycle.ConfigSucceedsIff | updater/in_network_updater.py:389-481 | a config succeeds exactly if generator and services allow it: no lookup in the updater's own dictionaries ever fails |
| TenantLifecycle.SuccessfulConfig | updater/in_network_updater.py:409-461 | afterwards the tenant is defined, registered and live exactly if it was not deleted, and old exactly if it was |
| TenantLifecycle.SuccessfulConfigIsStored | updater/in_network_updater.py:395-410 | the definition holds what was sent under the tenant's old or freshly drawn id, and the generator has the same function under the same id |
| TenantLifecycle.ConfigLeavesTenantIff | updater/in_network_updater.py:389-481 | where a config leaves its tenant even if it aborts: defined as sent, in the generator unless it got as far as deleting it, retired exactly if it was registered, to be deleted, and its file could be removed |
| InNetworkUpdater.Updater.constructor | updater/in_network_updater.py:66-84 | a fresh updater |
| InNetworkUpdater.Updater.CreateTenantDefinition | updater/in_network_updater.py:162-185 | the new definition, its id and the moves between the accelerator maps |
| InNetworkUpdater.Updater.RenewTenantDefinition | updater/in_network_updater.py:397-404 | new fields under the old id, and the way back from the old map |
| InNetworkUpdater.Updater.Operate | updater/in_network_updater.py:409-456 | an operation on one accelerator's generator, refused or not |
| InNetworkUpdater.Updater.ApplyAction | updater/in_network_updater.py:409-481 | the branches on the action, including updates of unregistered functions |
| InNetworkUpdater.Updater.Preprocess | updater/in_network_updater.py:378-481 | the loop over the configs up to the first abort keeps the invariant and does what the lemmas are about |
| InNetworkUpdater.Updater.Cleanup | updater/in_network_updater.py:816-826 | the loop over the keys up to the first missing file keeps the invariant and does what the lemmas are about |
| SchedulerCalls.ScheduleCallWaitsIff | reconfig_scheduler.py:456-475 | in every state a Schedule call is refused exactly for a tenant in processing or unspecified or a held deployment_lock, becomes a deletion exactly for a scheduled tenant and action DELETE, and waits with its own parts otherwise |
| SchedulerCalls.OtherCallsWait | reconfig_scheduler.py:591-650 | deletions and cleanups wait in any case |
| SchedulerCalls.CallWaitsUntilAcquired | reconfig_scheduler.py:476-503 | in every interleaving an admitted call waits until it gets deployment_lock |
| SchedulerCalls.CommitTakesEffect | reconfig_scheduler.py:492-503 | what a call with the lock does to every tenant's row: the given parts replace the stored ones, the rest stays |
| SchedulerCalls.AdmittedCallTakesEffect | reconfig_scheduler.py:456-503 | in every interleaving a call that was not refused, once it gets the lock, leaves its tenant scheduled with the parts given, or deleted |
| SchedulerCalls.MonitorWritesOneStatus | reconfig_scheduler.py:73-149 | a monitor step writes one status and nothing else |
| SchedulerCalls.RowsLeaveInCleanups | reconfig_scheduler.py:604-650 | a tenant's row only disappears while a cleanup holds the lock |
| SchedulerSafety.StatusesSet | reconfig_scheduler.py:288-290 | marking a batch sets exactly those statuses and changes no config or action |
| SchedulerSafety.OutsidersLeaveTheRound | reconfig_scheduler.py:73-149 | during a round no RPC or monitor step changes a config, makes a tenant scheduled or touches the loop's variables |
| SchedulerSafety.MarkingUnschedules | reconfig_scheduler.py:286-301 | once a batch is marked no tenant is scheduled |
| SchedulerOutcomes.StepKeepsInv | reconfig_scheduler.py:226-311 | every atomic step of every thread keeps the protocol invariant |
| SchedulerOutcomes.RunKeepsInv | reconfig_scheduler.py:226-311 | so every interleaving does |
| SchedulerOutcomes.RoundsExcludeCalls | reconfig_scheduler.py:231-309 | deployment_lock is with the loop exactly during a round, and a call holds it only between rounds |
| SchedulerDeliveries.AcceptedConfigsAreSentOnceIff | reconfig_scheduler.py:251-285 | in every interleaving whatever is sent was accepted by the NOS updater; between rounds the accepted configs are those sent for the first time, in order, and all that was sent, once each, exactly if no call followed one that raised |
| SchedulerDeliveries.PendingIffLastCallRaised | reconfig_scheduler.py:273-307 | between rounds configs are pending exactly if the last in-network call raised, and they are what it was given |
| SchedulerDeliveries.RaisedConfigsAreSentAgain | reconfig_scheduler.py:303-307 | in every run what a raising call was given is not empty and heads the next call |
| SchedulerRuns.RaisedConfigIsSentTwice | reconfig_scheduler.py:231-309 | a run that sends one accepted config twice and ends with its tenant failed although the second call was answered with 200 |
| SchedulerDeliveries.MissingConfigRaisesForever | reconfig_scheduler.py:273-285 | in every run an accepted tenant without in-network config stays pending between rounds, and the call that first contains it and all later ones raise |
| SchedulerOutcomes.LookupsSucceed | reconfig_scheduler.py:242-307 | in every interleaving the lookups of timing entries and of the loop variable succeed |
| SchedulerOutcomes.NothingStaysScheduled | reconfig_scheduler.py:231-309 | a round with a batch releases the lock with no tenant scheduled |
| SchedulerOutcomes.AnswerMarksBatch | reconfig_scheduler.py:286-307 | a non-200 answer marks every batch tenant failed, a 200 answer every one processed, and the handler of a failed round its last tenant failed |
| SchedulerRounds.TenantsAreAcceptedOrFailed | reconfig_scheduler.py:239-272 | in every interleaved round each tenant the loop is done with was either accepted by the NOS updater in this round or marked failed by the loop, never both; at the end that is the whole batch |
| SchedulerRounds.RoundBeginsIff | reconfig_scheduler.py:229-237 | a round works on its batch exactly if it is due and anything is stored; another one only gives the lock back |
| SchedulerRounds.TenantIsAcceptedIff | reconfig_scheduler.py:239-272 | in every run a tenant is accepted exactly if a config for the NOS updater is stored and is answered with 200; its stored in-network config is collected next |
| SchedulerStatuses.RoundEndsIn | reconfig_scheduler.py:239-307 | for every round without monitor steps, however interleaved with calls: exactly which of its tenants end processed, processing and failed, by the answer of its call, their own update and their place in the batch |
| SchedulerStatuses.FailedTenantIsProcessedIff | reconfig_scheduler.py:268-307 | a tenant whose own update failed ends as processed exactly if the round's call was answered with 200 and the round did not then fail on it as its last, and as failed otherwise |
| SchedulerRuns.RefusedTenantIsProcessed | reconfig_scheduler.py:231-309 | a run in which the NOS updater refuses a tenant that ends as processed, its config never sent |
| SchedulerRounds.RoundSendsItsConfigs | reconfig_scheduler.py:239-285 | a round hands over in one call what was pending at its snapshot and what it had accepted, and makes no call if that is nothing |
| SchedulerRecords.StoredConfigsAreLastGiven | reconfig_scheduler.py:492-499 | in every interleaving the action and configs stored for a tenant are each the last given by the Schedule calls committed since its last removal |
| SchedulerRecords.DeletedIsNotDeployed | reconfig_scheduler.py:197-224 | after a committed deletion or cleanup no interleaving schedules the tenant, takes it into a batch or gets its config accepted, until another Schedule call for it commits |
| SchedulerTiming.PostprocessingSucceedsIff | reconfig_scheduler.py:686-704 | in every run a 200 round closes without exception exactly if no entry outside its batch lacks a time and the data can be saved |
| SchedulerTiming.RaisedRoundLeavesTimes | reconfig_scheduler.py:686-704 | which times every entry has left after a raising postprocessing |
| SchedulerTiming.UnfinishedFailsLaterRounds | reconfig_scheduler.py:686-704 | an entry without an end stays, and fails every round answered with 200, until its tenant is in the batch of such a round |
| SchedulerTiming.ScheduleLeavesUnfinishedIff | reconfig_scheduler.py:492-499 | committing a Schedule call leaves an entry without an end unless an end was left over |
| SchedulerTiming.ScheduledTenantFailsLaterRounds | reconfig_scheduler.py:686-704 | in every run, from such a commit on and whatever becomes of the tenant, rounds answered with 200 end in an exception until one has the tenant in its batch |
| SchedulerRuns.DeletionFailsAnotherTenant | reconfig_scheduler.py:231-309 | a run in which a tenant is deleted before its round and another one, accepted by both updaters, ends as failed |
| SchedulerOutcomes.RoundFollowsSnapshot | reconfig_scheduler.py:231-309 | from the snapshot to the release no stored config or action changes, and only configs stored then are accepted |
| SchedulerLoop.SchedulerThread.constructor | reconfig_scheduler.py:50-57 | a fresh start |
| SchedulerLoop.SchedulerThread.Mark | reconfig_scheduler.py:245 | one status write |
| SchedulerLoop.SchedulerThread.BeginNext | reconfig_scheduler.py:239-247 | the first critical section for a tenant is a step of the protocol |
| SchedulerLoop.SchedulerThread.FailTenant | reconfig_scheduler.py:268-272 | the handler of a failed tenant is a step |
| SchedulerLoop.SchedulerThread.CollectInTConfig | reconfig_scheduler.py:151-163 | collecting a config is a step |
| SchedulerLoop.SchedulerThread.MarkFailed | reconfig_scheduler.py:286-291 | the loop over a refused batch is a step |
| SchedulerLoop.SchedulerThread.MarkBatch | reconfig_scheduler.py:294-298 | the loop over an accepted batch, with its lookups, up to the first missing entry |
| SchedulerLoop.SchedulerThread.Postprocess | reconfig_scheduler.py:686-704 | pops the times entry by entry, raises exactly if one lacks a time or the data cannot be saved, and clears the structure otherwise |
| SchedulerLoop.SchedulerThread.MarkProcessed | reconfig_scheduler.py:293-300 | both together are a step of the protocol |
| SchedulerLoop.SchedulerThread.HandleException | reconfig_scheduler.py:304-307 | the handler of a failed round is a step |
| SchedulerLoop.SchedulerThread.Rollout | reconfig_scheduler.py:239-272 | the body for one tenant is a run of steps |
| SchedulerLoop.SchedulerThread.Deploy | reconfig_scheduler.py:273-307 | the in-network call and its outcome is a run of steps |
| SchedulerLoop.SchedulerThread.CollectScheduled | reconfig_scheduler.py:235 | the batch is exactly the scheduled tenants, each once |
| SchedulerLoop.SchedulerThread.RunBatch | reconfig_scheduler.py:237-307 | the body of a due round is a run of steps |
| SchedulerLoop.SchedulerThread.Round | reconfig_scheduler.py:229-309 | a round without interruption, with the batch it collects itself, is a run of the protocol that gives the lock back, for any answers |

## Left out

- Flow monitoring: CRC (any hash function), byte half of `flow_packets_bytes_counter`, routing tables, port counters, the malware register and feature metadata other than the duration; the fields of a missing pm header, which the target leaves unspecified, are read as zero; register writes past the end of an array have no effect.
- FlowSwitch.FlowTable.ResetFlowData: does not clear the malware register, which no modelled part reads.
- FlowSwitch.FlowTable.UpdateLengths: does not count the byte half of `flow_packets_bytes_counter`, which measures the packet on the wire.
- FlowSwitch.FlowTable.Ingress: leaves out routing, the acknowledgement of an idle timeout and the call of the tenant controller.
- FlowSwitch.FlowTable.ExportFlow: when an export is triggered and the headers around the record are not modelled, only the snapshot and the occupancy bit.
- Biflows.BiflowTable.UpdateBiflowData: leaves out the inter-arrival registers and timestamps of the directions.
- Biflows.BiflowTable.Follow: leaves out the resets of those registers.
- BIFLOWS: forward and backward inter-arrival times, first timestamps and the export, because they name registers and fields that are not declared; the subflow variants.
- The data plane for Tofino: the same parser shape with less state.
- Parser: checksums and what the ingress does with a packet whose parser error is set; a parser error is a rejection.
- Generator: OTF bodies, files and includes, Jinja rendering, and the single-value variants of the clause builders, which no caller uses.
- P4 integer literals: a literal is cut to the width of the field it meets (24-bit VNI, 8-bit id); compile-time warnings about that are not modelled.
- RulesUpdater: provider tables only as initialised or not, `ListRules`, persistence; a call to the switch is an input that succeeds or fails.
- RulesUpdater.Updater.GetRules: the provider entries in the answer are not modelled.
- Rule fields are assumed present; a rule with an omitted field is a different dictionary shape.
- In-network updater: compilation, the switch update, message lists, statuses inside definitions, persisted start-up state; the order of a dictionary's keys in a cleanup is an input.
- `find_python_acceleratorTypeEnum` is not part of this model: a request names an accelerator and says whether its type was unspecified.
- `ReconfigSchedulerStorage` is not part of this model: adding is assumed to overwrite only the parts that are given and to create a missing key in all maps.
- Scheduler: acquiring `deployment_lock` never times out (the RPC ignores the result of its timed acquire), `SetScheduleStatus` and restarts of the loop are excluded, and the storage starts empty.
- Scheduler monitor: any status it may write at any time, and failures at any time; remote status values are not modelled.
- Scheduler clocks: measured times, sleep times and the time frame; whether a round is due, the order of the timing dictionary and whether its data can be saved are inputs.
- SchedulerLoop.SchedulerThread.Rollout: no other thread steps inside the body; the interleavings are those of the protocol.
- SchedulerLoop.SchedulerThread.Deploy: no other thread steps inside the body.
- SchedulerLoop.SchedulerThread.RunBatch: no other thread steps inside the body.
- SchedulerLoop.SchedulerThread.Round: no other thread steps inside the body.
- SchedulerStatuses.RoundEndsIn: rounds without monitor steps only, because the monitor may write any of its statuses over those of the round at any time.
- SchedulerStatuses.FailedTenantIsProcessedIff: rounds without monitor steps only, for the same reason.
- SchedulerDeliveries.AcceptedConfigsAreSentOnceIff: a raising in-network call counts as a hand-over even when it fails before anything was transmitted.
- The orchestrator's request building, the TIF updater's tables, and all gRPC, persistence, subprocess and container handling.
