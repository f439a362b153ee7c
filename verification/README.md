# mqvpn: the reorder shim, the path lifecycle and the checksums, modelled and proved in Dafny

mqvpn tunnels IP packets in QUIC datagrams over several network paths at once. Packets of one inner UDP flow overtake
each other on the way, so a *reorder shim* stamps them with per-flow numbers at one end and puts them back in order at
the other. This project models that shim, the state machine that follows each network path from the moment its socket
is added until its slot can be used again, and the checksum arithmetic the tunnel ends do on forwarded and generated
packets. It proves what the code promises about them, over every input and every run.

`dafny verify dfyconfig.toml` checks the whole project.

How the parts are modelled:

- Code that updates objects in place is modelled by classes with the same fields, loops and branches: the elastic ring
  (`Ring`), one flow (`FlowObject`), the chained hash table (`FlowTable`), the receiver (`Receiver`), the sender
  (`Sender`), a path entry (`PathObject`), the client's array of path entries (`ClientPaths`). Each method is proved
  equal to a function on plain values (`ReorderModel`, `ReceiverModel`, `SenderModel`, `PathFsm`, `PathSlots`).
- About those functions the theorems are proved: invariants (`FlowInvariants`, `FlowLimits`), admission (`FlowBudget`),
  whole runs of one flow (`FlowHistory`, `FlowProgress`, `FlowRestoration`), its resets and demotions (`FlowModes`), its
  timers (`FlowTiming`) and its histogram (`FlowResidence`), whole runs of receiver, sender and path, what the states of a
  path mean (`PathHistory`), which flows a receiver forgets and what it may free uncounted (`ReceiverLoss`), which packets
  the parser accepts (`WireInverse`), and sender and receiver together (`EndToEnd`, `Lockstep`, `Egress`).
- History is kept in fields and ghost variables that no branch reads: the delivery log of a flow with its FLOW_RESET
  epoch, what entered it, what it dropped; the stamped packets the sender has sent; the notices a path has sent.
- Clock readings, socket results, transport results and the hash function are parameters. Which of several equally old
  flows gives way depends on the hash, so it appears as a `victim` that must satisfy the source's criterion.

Where the code and the documentation beside it disagree, the model follows the code:

- The gap identity of `src/reorder_rx.h:64-69` holds only with a term for periods still open and periods open when their
  flow was destroyed; `SnapshotBalanced` has that term and says exactly when the plain identity holds, and
  `OpenPeriodCounts` is an instance where it does not.
- The counters account for every packet only while no flow is destroyed with packets in its buffer: those are freed
  uncounted (`src/reorder_rx.c:531-545`). `ReceiverConserves` has the term for them; `RunLosesIff` and
  `CountersSufficeIff` say by which events the counters cease to suffice, `EvictionLoses` is an instance. As long as the
  clock does not step back and no flow waits for a gap longer than it may be idle, ticks never do that, only datagrams for
  a full table can (`OnlyFullTablesLose`).
- The per-flow byte limit can be overstepped: the flush of `src/reorder_rx.c:893-904` is not followed by a second check.
  `DatagramKeepsBudgetIff` gives the exact condition for a datagram, `RunKeepsBudgetIff` for a run, and
  `FlowBudgetOverstepped` is an instance.
- Rotation on reconnect is meant to reach a live path if there is one (`src/mqvpn_client.c:3687-3698`). With a dropped
  primary and exactly one live path it keeps the dropped one (`ChoosesPrimaryIff`, instance `LoneSurvivorMissed`); the
  guard at `src/mqvpn_client.c:2459-2466` then refuses to connect, so no connection is started (`ReconnectStartsIff`),
  and none will be, however often it is tried, until a path is added (`StuckUntilAdded`).
- The primary bootstrap (`src/mqvpn_client.c:2598-2604`) does not clear an armed retry. After the reset that precedes a
  reconnect none is armed (`ReconnectKeepsInv`). A connection asked for through the API while a reconnect is pending
  (`src/mqvpn_client.c:2789-2817`; the state table allows it) comes without that reset, whatever state the primary is in.
  The asserted table holds at every moment of a run exactly if no such connection comes up on a primary that waits for a
  retry (`TableSoundIff`, for one path `TableHoldsIff`; instance `ConnectBreaksTable`). What every run does keep, these
  ones included, is the invariant of `RunKeepsPathInv` and `RunKeepsSlotsInv`.
- Notices of a path's class (`src/path_state_machine.c:309-325`) never reach the peer, since a path ceases to be live
  before it is demoted; `RunKeepsPathInv` proves that none is ever sent.
- The stability tick subtracts in 64 bits without sign, so a clock that stepped back also renews the retry budget
  (`StableFiresIff`, instance `BackwardsClockRenewsBudget`).
- The incremental checksum is valid but not always what a recomputation gives (`IncrementalIsRecomputedIff`, instance
  `IncrementalDiffers`).
- For IPv6 the classifier counts extension headers as payload (`PayloadOfV6Iff`). The comment at
  `src/reorder_rx.c:714-717` says that this never turns a small packet into a large one; it does so exactly when the
  headers make up the difference to the threshold (`FlipsIff`, instance `SmallTakenForLarge`), and a flow of such packets
  is never demoted (`FlippedFlowStays`).
- Two peeks of one flow before either is committed give the same number, and committing both puts it on the wire twice
  (`CommitKeepsInvIff`, `TwoPeeksRepeat`); the callers commit before they peek again.

Rows marked "helper" follow from the definitions without an argument of their own, though some of them pin a whole
operation; they are there to be cited.

## Model

| member | source | states |
|---|---|---|
| Ring.IndexIsMod | src/reorder_rx.c:101-109 | for a power-of-two size, masking the number gives its residue modulo the size |
| Ring.IndexInjective | src/reorder_rx.c:128-163 | two numbers within one window of `size` consecutive numbers never share a slot |
| Ring.SlotRing.Contains | src/reorder_rx.c:101-109 | true exactly for the numbers in the map the ring stands for |
| Ring.SlotRing.GrowToCover | src/reorder_rx.c:128-163 | doubling and moving every packet keeps the map and the byte count; the size covers the span, never shrinks and stays within the capacity |
| Ring.SlotRing.Insert | src/reorder_rx.c:167-187 | an in-window number not yet held is added to the map and nothing else moves |
| Ring.SlotRing.Remove | src/reorder_rx.c:190-215 | returns and removes exactly the packet of that number, with its length off the byte count; nothing if it is not held |
| Ring.SlotRing.LowestSeq | src/reorder_rx.c:219-232 | the bounded scan finds the least key of the map; the cursor itself when empty |
| Bits.CapIsValidIffPow2 | src/reorder.h:450-454 | the bit test accepts exactly the non-zero powers of two |
| ReorderConfig.MatchRule | src/reorder.h:438-447 | the first matching rule, found by the loop |
| ReorderConfig.Finalize | src/reorder.h:463-494 | every rule is resolved in place by the order explicit, global-explicit, preset, built-in |
| ReorderConfig.FinalizeSound | src/reorder.h:463-494 | after validation and finalizing, every ring capacity in use is a power of two |
| ReorderConfig.FinalizeIdempotent | src/reorder.h:456-462 | helper: finalizing once more changes nothing |
| ReorderConfig.Precedence | src/reorder.h:463-494 | which wait and which capacity a finalized rule has, in numbers: default_udp none; else its own, a global one, 50 ms and 1024 or 2048 for the reordering profiles, the built-in ones, in this order; invalid capacities count as unset |
| ReorderConfig.DirectionIrrelevant | src/reorder.h:438-447 | helper: the same rule decides for both directions of a conversation |
| ReorderConfig.WaitsIff | src/reorder.h:463-494 | a flow of the reordering profiles waits at the receiver exactly unless a zero wait was set for every flow and its rule sets none |
| ReorderConfig.DefaultUdpIsOff | src/reorder.h:472-476 | a flow whose deciding rule is default_udp never waits and is none to reorder, whatever waits are set |
| FlowObject.FlowState.RecordResidence | src/reorder_rx.c:452-466 | the loop counts the packet in the bucket of its residence and tracks the maximum |
| FlowObject.FlowState.DrainContiguous | src/reorder_rx.c:549-560 | delivers the run that starts at the cursor, giving its bytes back to the pool |
| FlowObject.FlowState.OnGapTimeout | src/reorder_rx.c:586-604 | counts the timeout, skips to the lowest number, drains, stops or re-arms |
| FlowObject.FlowState.FlushOverflow | src/reorder_rx.c:616-630 | skips and drains; ends the armed period only if that empties the buffer |
| FlowObject.FlowState.DiscardBufferForReset | src/reorder_rx.c:646-664 | drops the whole buffer undelivered, counts it, and frees the ring |
| FlowObject.FlowState.FlushBufferForDemote | src/reorder_rx.c:765-786 | delivering run by run equals delivering the lowest packet until none is left |
| FlowObject.FlowState.InsertCommitted | src/reorder_rx.c:819-843 | buffers and charges the packet; the first one in an empty buffer opens a period |
| FlowObject.FlowState.ReclassifyAfterFlush | src/reorder_rx.c:848-878 | late, in order, far ahead, duplicate, or still to be admitted |
| FlowObject.FlowState.AdmitAhead | src/reorder_rx.c:883-924 | duplicate, flow limits, pool limits, each with its flush, drop or insertion |
| FlowObject.FlowState.ProcessPacket | src/reorder_rx.c:928-964 | cold start, in order, late, far ahead, or admission |
| FlowObject.FlowState.OnReorderedPacket | src/reorder_rx.c:972-1029 | one datagram, from the FLOW_RESET test to demotion; pool shares of other flows untouched |
| FlowInvariants.OnReorderedKeeps | src/reorder_rx.c:972-1029 | every datagram keeps conservation, gap accounting, ordering, the window, timer iff non-empty; the log only grows, and within an epoch nothing buffered is lost |
| FlowInvariants.GapTimeoutKeeps | src/reorder_rx.c:586-604 | a timeout strictly raises the cursor and strictly shrinks the buffer; a new period runs one full wait |
| FlowInvariants.TickFlowKeeps | src/reorder_rx.c:1143-1153 | a tick keeps the invariant and leaves no armed deadline in the past |
| FlowInvariants.RunKeeps | src/reorder_rx.c:928-1029 | the flow invariant in every run, under any change of configuration and pool load |
| FlowModes.ResetStartsEpoch | src/reorder_rx.c:984-999 | helper: a reset mark on a new flow, or more than the grace period after the last progress, hands out exactly its own packet, as the first of the next epoch, whatever its number and whatever the flow had become; the old buffer is dropped and counted, and ordering and classification begin anew |
| FlowModes.ResetIgnored | src/reorder_rx.c:984-1001 | any other reset mark, also one after the clock stepped back, changes nothing: the datagram is treated as one without, and the epoch stays |
| FlowModes.ResetBit | src/reorder_rx.c:984 | helper: the mark is the lowest bit of the flags |
| FlowModes.OrdinaryModes | src/reorder_rx.c:1012-1028 | a datagram that starts no epoch demotes the flow exactly if its packet was not refused and closes the window with few enough large ones, and then the flow is passed through and holds nothing back; the classifier is shown exactly what was not refused; progress is what is handed out, taken in, or a demotion; which counters may rise, and when |
| FlowModes.PassedThrough | src/reorder_rx.c:1006-1010 | helper: a flow passed through hands out each packet at once, itself and nothing else, whatever its number |
| FlowModes.DemotedRunPassesOn | src/reorder_rx.c:1001-1010 | in any run after a demotion in which no epoch starts, read off the events alone: exactly what arrives comes out, in order of arrival, nothing is held back or waited for, and the flow is not judged again |
| FlowModes.DemotedOncePerEpoch | src/reorder_rx.c:972-1029 | in every run each epoch sees at most one demotion, after which the flow is passed through |
| FlowModes.TickModes | src/reorder_rx.c:1143-1153 | a tick counts a timeout, which is progress, exactly for a flow whose deadline has come; it ends periods in no other way and leaves mode and classifier alone |
| FlowResidence.TickTruthful | src/reorder_rx.c:452-466 | at a tick every packet that comes out of the buffer is counted in the bucket of its own wait, and the maximum is the longest wait of any |
| FlowResidence.DatagramTruthful | src/reorder_rx.c:452-466 | the same for whatever a datagram causes to be handed out, by drain, flush or demotion; its own packet has not waited; an epoch start counts only the packet that starts it |
| FlowHistory.RunConservesPackets | src/reorder_rx.c:766-924 | packets in equal delivered, each counted drop, reset discards and buffered, as multisets and as counters |
| FlowHistory.RunBalancesGaps | src/reorder_rx.c:586-664 | each period ends in exactly one way, or is the open one; the histogram adds up to the deliveries |
| FlowHistory.RunDeliversInOrder | src/reorder_rx.c:928-1029 | within an epoch, up to demotion, numbers strictly increase, so none comes out twice; what comes out came in during that epoch |
| FlowHistory.RunNeverLoses | src/reorder_rx.c:646-676 | within an epoch the cursor never falls and a buffered packet stays unaltered until delivered; no packet of an older epoch is delivered after a reset |
| FlowProgress.AscendingIsSorted | src/reorder_rx.c:218-232 | handing out the buffer lowest first is strictly ascending and exact |
| FlowProgress.GapTimeoutOutput | src/reorder_rx.c:586-604 | a timeout neither reorders, loses nor repeats anything |
| FlowProgress.OverflowFlushOutput | src/reorder_rx.c:616-630 | nor does an overflow flush |
| FlowProgress.DemoteFlushOutput | src/reorder_rx.c:765-786 | a demotion hands out the whole buffer in ascending order |
| FlowProgress.TimeoutsDeliverAll | src/reorder_rx.c:586-604 | with no arrivals, as many expired periods as buffered packets deliver everything in ascending order |
| FlowLimits.CountBelowCap | src/reorder_rx.c:795-806 | fewer packets are buffered than the capacity, so the count limit is never the one that trips |
| FlowLimits.OnReorderedWithinPool | src/reorder_rx.c:883-924 | no datagram takes the shared pool over its budget |
| FlowBudget.FlushReaches | src/reorder_rx.c:616-630 | an overflow flush moves the cursor to the first number missing above the lowest one buffered and keeps exactly the packets behind it |
| FlowBudget.ReclassifyDeadArms | src/reorder_rx.c:848-878 | at any admission: after a flush the packet is late, in order or still ahead, by where it stands to that number; far-ahead and duplicate cannot occur |
| FlowBudget.FlowBudgetKeptIff | src/reorder_rx.c:883-924 | an early packet keeps the flow within its byte limit exactly unless it stands behind the first gap, the pool takes it beside what is left there (or behind the next gap), and that is too much; read off the buffer before the call |
| FlowBudget.RefusalsInRun | src/reorder_rx.c:848-1029 | in every state of every run: far-ahead is counted exactly for a packet beyond the window, duplicate exactly for a number found buffered, the flow limit exactly for an early packet too large for an empty buffer |
| FlowBudget.DatagramKeepsBudgetIff | src/reorder_rx.c:972-1029 | a datagram keeps the limit exactly unless that case arises and the classifier does not demote the flow at the same packet |
| FlowBudget.RunKeepsBudgetIff | src/reorder_rx.c:893-904 | a run stays within the limit at every moment exactly if that never happens |
| FlowBudget.FlowBudgetOverstepped | src/reorder_rx.c:893-904 | an instance from a new flow on: limit 100, numbers 0, 2, 4, 6, and the flow holds 150 |
| FlowRestoration.Restoration | src/reorder_rx.c:928-999 | any order of arrival, repeats included, of a run whose first packet comes first yields exactly that run, behind what the flow had handed out before, an empty buffer and only filled periods, while each arrival is in the window, within the limits, inside the reset grace and not demoted; from a new flow, or from one in any state that has been silent for longer than the grace, the first packet then carrying a reset mark |
| FlowRestoration.RestorationOfRoomyRun | src/reorder_rx.c:883-999 | the same from conditions on the inputs alone, for runs of any length and every incarnation: window and budgets measured from the first packet still missing, and no demotion by the packets the classifier is shown |
| Demotion.DemotedIff | src/reorder_rx.c:734-757 | a flow is judged once, at the packet completing the window, and demoted exactly if at most the allowed number were large |
| Demotion.PayloadOfV4 | src/reorder_rx.c:699-724 | helper: the measure is the UDP payload of any IPv4 packet, whatever its options |
| Demotion.PayloadOfV6Iff | src/reorder_rx.c:699-724 | helper: for IPv6 it is exact if and only if there is no extension header |
| Demotion.FlipsIff | src/reorder_rx.c:714-717 | helper: a packet with a small payload counts as large exactly when its extension headers, of any number and length, make up the difference to the threshold |
| Demotion.SmallTakenForLarge | src/reorder_rx.c:714-717 | helper: an instance: threshold 200, a payload of 192 octets behind one destination-options header of 8 |
| Demotion.FlippedFlowStays | src/reorder_rx.c:734-757 | a flow of packets that count as large is never demoted, whatever its payloads are |
| FlowTable.ChainTable.Lookup | src/reorder_rx.c:339-354 | for any hash, walking one chain finds exactly the map's entry |
| FlowTable.ChainTable.Prepend | src/reorder_rx.c:419-421 | adds one key to the map, without duplicates and with an exact count |
| FlowTable.ChainTable.Unlink | src/reorder_rx.c:378-383 | removes exactly that key |
| Receiver.ReorderRx.New | src/reorder_rx.c:1033-1062 | no receiver for an invalid configuration, else an empty one with resolved rules |
| Receiver.ReorderRx.FindLeastRecent | src/reorder_rx.c:364-376 | the scan finds a flow with minimal last progress |
| Receiver.ReorderRx.EvictAt | src/reorder_rx.c:531-545 | destroying a flow gives its bytes back, folds its counters into the total and leaves the other flows alone |
| Receiver.ReorderRx.FlowFor | src/reorder_rx.c:387-423 | finds or creates the flow; a full table gives up a least recent one, only then |
| Receiver.ReorderRx.Route | src/reorder_rx.c:1087-1134 | ignored, passed on directly, or reordered under its key |
| Receiver.ReorderRx.OnPacket | src/reorder_rx.c:1082-1141 | the whole new state after any datagram, with the receiver invariant and the exact pool counter |
| Receiver.ReorderRx.FireTimers | src/reorder_rx.c:1146-1153 | every flow is ticked once, whatever chain it is in |
| Receiver.ReorderRx.SweepIdle | src/reorder_rx.c:1155-1175 | unlinking while walking destroys exactly the idle flows; a clock that stepped back destroys none |
| Receiver.ReorderRx.Tick | src/reorder_rx.c:1143-1176 | timeouts, then the sweep; afterwards every armed deadline lies ahead |
| Receiver.ReorderRx.GetStats | src/reorder_rx.c:1178-1192 | the lifetime snapshot of destroyed and live flows |
| Receiver.AddStats | src/reorder_rx.c:307-329 | accumulation of counters and histogram |
| ReceiverModel.AccumulateAllSums | src/reorder_rx.c:1178-1192 | each counter of the snapshot is the sum over the flows, its maximum the largest |
| ReceiverModel.EvictKeepsSnapshot | src/reorder_rx.c:531-545 | destroying a flow changes nothing in the snapshot |
| ReceiverModel.SweepKeepsSnapshot | src/reorder_rx.c:1155-1175 | nor does an idle sweep |
| ReceiverModel.RunKeepsRxInv | src/reorder_rx.c:1082-1176 | in every run: each flow's invariant, at most max_flows flows, the pool within its budget |
| ReceiverModel.TickKeepsInv | src/reorder_rx.c:1143-1176 | a tick keeps all that and leaves every deadline ahead |
| ReceiverModel.SnapshotBalanced | src/reorder_rx.h:64-69 | the gap identity with its open term; the plain one exactly when no period is or was left open; buckets add up to deliveries |
| ReceiverModel.ReceiverConserves | src/reorder_rx.c:531-545 | packets that entered any flow equal those delivered, refused for a counted reason, waiting, and freed with their flow |
| ReceiverLoss.StepLosesIff | src/reorder_rx.c:1082-1176 | an event frees packets uncounted, and destroys a flow inside a gap period, exactly if it is a datagram whose victim has packets waiting, or a tick after whose timeouts an idle flow still has some |
| ReceiverLoss.RunLosesIff | src/reorder_rx.c:531-545 | in any run of a new receiver nothing has been freed uncounted exactly if no event was one of those |
| ReceiverLoss.CountersSufficeIff | src/reorder_rx.h:64-69 | in any run: the counters account for every packet exactly if there was no such event, and the plain gap identity holds exactly if moreover no period is open |
| ReceiverLoss.TickLosesNothing | src/reorder_rx.c:1143-1176 | where waits are no longer than the idle limit and the clock does not step back, a tick destroys only flows with nothing in their buffer |
| ReceiverLoss.OnlyFullTablesLose | src/reorder_rx.c:1082-1176 | from configuration and clock alone, for any run: then only a datagram for a full table can free packets, and without a limit on flows nothing is ever freed |
| ReceiverLoss.SurvivesTickIff | src/reorder_rx.c:1143-1176 | a flow in any state survives a tick exactly if its gap timer fires, or its last progress is no longer ago than the idle limit in seconds, or lies ahead of the clock |
| ReceiverLoss.SurvivesDatagram | src/reorder_rx.c:364-423 | helper: a datagram takes the place of a flow only in a full table, and of one that has gone longest without progress |
| FlowTiming.OnReorderedTimely | src/reorder_rx.c:972-1029 | through every path a datagram can take, an armed deadline stays at most one wait after the last progress |
| FlowTiming.IdleIsEmpty | src/reorder_rx.c:1143-1176 | helper: hence a flow without progress for longer than its wait has an empty buffer and no timer once its timeout has been looked at |
| Wire.WireEncode | src/reorder.h:86-97 | fills the eight bytes of the header |
| Wire.DecodeEncode | src/reorder.h:86-116 | decoding an encoded header gives it back, the number modulo 2^48 |
| Wire.EncodeDecode | src/reorder.h:86-116 | encoding what was decoded gives the bytes back, and the number is below 2^48 |
| Wire.ParsePacket | src/reorder.h:251-351 | the loop over extension headers equals the recursive walk |
| Wire.BuiltV4Parses | src/reorder.h:259-297 | every IPv4 packet built for a 5-tuple, with any header and options, parses back to it, unless it has an offset or more fragments to come; then it is a fragment |
| Wire.BuiltV6Parses | src/reorder.h:299-348 | so does every IPv6 packet with up to fifteen extension headers; from sixteen on it is Other |
| WireInverse.ParsesIff | src/reorder.h:251-351 | the parser gives a packet a UDP or TCP 5-tuple if and only if it is a whole segment built for that 5-tuple: unfragmented IPv4 with any header, or IPv6 with at most fifteen extension headers, the transport header complete |
| WireInverse.FragmentIff | src/reorder.h:269-326 | it calls a packet a fragment if and only if it is IPv4 with a non-zero offset or more fragments to come, of any protocol and with any payload, or IPv6 with a fragment header behind at most fifteen others |
| Wire.ParseIgnoresForwarding | src/mqvpn_server.c:2287-2292 | the 5-tuple does not depend on TTL, hop limit or header checksum |
| Sender.PickBuckets | src/reorder_tx.c:38-46 | the least power of two from 16 to 2^20 that holds the flows, or the cap |
| Sender.ReorderTx.FindOldestIdle | src/reorder_tx.c:125-147 | finds an oldest flow idle beyond the limit, exactly when one exists |
| Sender.ReorderTx.EvictOneIdle | src/reorder_tx.c:125-153 | frees its place and no other; false exactly when every flow is active |
| Sender.ReorderTx.GetOrCreate | src/reorder_tx.c:157-186 | finds, creates, or refuses when the table is full of active flows |
| Sender.ReorderTx.PeekPacket | src/reorder_tx.c:188-234 | the decision and the stamp, with the whole new state |
| Sender.ReorderTx.CommitPeek | src/reorder_tx.c:236-251 | consumes one number and one reset mark of that flow only; the numbering survives exactly if the stamp was still the next one |
| SenderModel.StampsIff | src/reorder_tx.c:88-234 | helper: a packet is stamped exactly when the gate is on, it is UDP of a flow whose first matching rule has one of the three reordering profiles, or there are no rules, the flow has or gets a place, and packet and eight octets fit; a smaller one is asked for exactly if only the last is missing; with the next number |
| SenderModel.PeekConsumesNothing | src/reorder_tx.c:224-233 | helper: a peek changes no flow it leaves in place, sends nothing, and asking again gives the same stamp |
| SenderModel.OnlyIdleGiveWay | src/reorder_tx.c:118-153 | helper: only a flow silent for longer than the limit in seconds, and the one silent longest, ever loses its place in a full table |
| SenderModel.RunKeepsTxInv | src/reorder_tx.c:157-251 | over any interleaving of flows, failed sends and evictions, each incarnation has sent numbers 0, 1, 2, ... with FLOW_RESET on exactly the first marks; created flows are live or evicted idle |
| SenderModel.ActivityIs | src/reorder_tx.c:236-251 | helper: a flow was last active when it last sent, or when it was created |
| SenderModel.ActiveKeepsPlace | src/reorder_tx.c:118-153 | in any run a flow that has sent keeps its place and its numbering until it has been silent for longer than the limit |
| SenderModel.CommitKeepsInvIff | src/reorder_tx.c:236-251 | a commit keeps the numbering if and only if it commits the stamp the flow would give now |
| SenderModel.TwoPeeksRepeat | src/reorder_tx.c:236-251 | two peeks committed one after the other put one number on the wire twice |
| EndToEnd.StampedIsDispatched | src/reorder_rx.c:1082-1141 | a stamped datagram is recognised, and decodes to the same number, flags, key and inner bytes |
| EndToEnd.BareIsNotStamped | src/reorder.h:59-70 | helper: a bare IP packet is never taken for a stamped one |
| EndToEnd.FirstIsMarked | src/reorder_tx.c:224-228 | helper: a sender that marks at all marks the first packet of every incarnation, and the receiver reads the mark |
| EndToEnd.OpenPeriodCounts | src/reorder_rx.h:64-69 | an instance against the plain gap identity: numbers 0 and 2, and nothing more |
| EndToEnd.EvictionLoses | src/reorder_rx.c:531-545 | an instance of a loss: room for one flow, numbers 0 and 2 of it, then a datagram of another flow |
| EndToEnd.ForwardedIsFaithful | src/mqvpn_server.c:2357-2405 | the TTL decrement between peek and send does not change the flow of the packet |
| EndToEnd.SentIsSendable | src/reorder_tx.c:188-251 | what one incarnation has sent at any point of any run is one flow's, numbered from zero, and readable |
| EndToEnd.FlowIsFed | src/reorder_rx.c:1082-1176 | in any run the state of an undisturbed flow, new or left over, depends on what it was and on its own arrivals only |
| EndToEnd.EndToEndDelivery | src/reorder_rx.c:1082-1141 | if every packet stamped for an incarnation arrives at least once, the first one first, in a roomy undisturbed run from any state of the receiver, exactly those packets are delivered in the order they were sent; also if the flow is left over from an earlier incarnation, silent for longer than the grace, and the first packet is marked |
| Lockstep.OnlySegmentsAreStamped | src/reorder_tx.c:201-208 | what is no whole UDP segment, TCP and fragments included, is sent raw and leaves no trace in the table |
| Lockstep.FragmentsGoRaw | src/reorder.h:269-326 | no fragment is ever stamped, nor reordered behind a stamp |
| Lockstep.StampedIsReordered | src/reorder_tx.c:88-100 | under one finalized configuration, each packet the sender stamps in any run belongs to a flow to reorder and is reordered by the receiver, except exactly where a zero wait was set for every flow and its rule sets none; then it is passed on at once |
| Lockstep.DefaultUdpStaysRaw | src/reorder.h:472-476 | in every run, whatever is stamped is decided by a rule with one of the three reordering profiles, never default_udp |
| Lockstep.DispatchIff | src/reorder_rx.c:1082-1141 | the receiver reorders a datagram if and only if it is a stamped whole UDP segment of a flow that waits, and passes its packet on if and only if nothing waits or its flow does not |
| Lockstep.SilentFlowIsForgotten | src/reorder.h:571-582 | why the receiver's idle limit is the shorter one: when the sender may start a flow's numbers over, a tick of the receiver forgets the flow, if no packet was under way for more than a second |
| Egress.ServerDelivery | src/mqvpn_server.c:2287-2430 | the same from the server's TUN device on, for every run of peek, TTL decrement, stamp and commit, whichever sends fail |
| Egress.OnTunPacket | src/mqvpn_server.c:2287-2430 | peek, size checks, TTL, stamp, and a commit only if the transport took the datagram, as one step of the sender model |
| Egress.TunRunSends | src/mqvpn_server.c:2287-2430 | any run of such steps is a run of the sender, and what it sends parses as what came in |
| Egress.FrameFits | src/mqvpn_server.c:2309-2355 | helper: whatever goes out fits the datagram, stamped or not |
| Egress.OutcomeIff | src/mqvpn_server.c:2298-2405 | helper: a packet goes out exactly if it is no longer than what the source of a longer one is told, which is the limit for just this flow, fits the buffer and has hops left |
| Egress.ConsumesIff | src/mqvpn_server.c:2357-2430 | a number is consumed exactly by a packet that goes out stamped and that the transport takes |
| PathObject.PathEntry.Dispatch | src/path_state_machine.c:421-452 | the ten event handlers, field by field |
| PathObject.PathEntry.ApplyFailure | src/path_state_machine.c:380-397 | counts the failure, arms the backoff or gives up |
| PathObject.PathEntry.TickConfirmStable | src/path_state_machine.c:710-722 | renews the budget after thirty stable seconds |
| PathObject.RecreateBackoff | src/path_state_machine.c:345-353 | the doubling loop |
| PathFsm.StepKeepsPathInv | src/path_state_machine.c:421-722 | every event, the stability tick and a bootstrap in whatever state the path is keep the invariant |
| PathFsm.RunKeepsPathInv | src/path_state_machine.c:139-225 | in every run, bootstraps of any attached path included: the asserted table but for a retry left armed beside a live binding, and no class notice is ever sent |
| PathFsm.CheckedIff | src/path_state_machine.c:139-225 | helper: the asserted table is that invariant together with no retry left armed beside a live binding |
| PathFsm.TableHoldsIff | src/path_state_machine.c:139-225 | in every run the asserted table holds at every moment exactly if no bootstrap finds a retry armed |
| PathFsm.BootstrapKeepsTableIff | src/mqvpn_client.c:2598-2604 | helper: the bootstrap's own writes keep the table exactly for attached paths that wait for no retry |
| PathFsm.StableFiresIff | src/path_state_machine.c:710-716 | helper: the tick fires after thirty seconds, or when the clock has stepped back |
| PathFsm.BackwardsClockRenewsBudget | src/path_state_machine.c:710-722 | helper: an instance: one failure, active since 10, looked at when the clock shows 5 |
| PathFsm.BackoffValue | src/path_state_machine.c:345-353 | five seconds doubled per further failure, at most sixty |
| PathFsm.BackoffMonotone | src/path_state_machine.c:345-353 | more failures never shorten the delay |
| PathFsm.FailureExhaustsIff | src/path_state_machine.c:380-397 | a failure gives the path up exactly when it is at least the sixth counted, else a retry is armed |
| PathFsm.RetryBudget | src/path_state_machine.c:454-563 | in any run that does not renew the budget the counter is the number of failures, and the armed delays are the first backoffs, at most 135 seconds in all |
| PathFsm.SixthFailureGivesUp | src/path_state_machine.c:454-563 | from a fresh budget the sixth failure, and no earlier one, gives the path up |
| PathFsm.CleanupIsConfluent | src/path_state_machine.c:536-703 | after a drop the slot is free exactly when the socket was closed and the transport let go, in any order, and the path is never attached again |
| PathHistory.StateIsMeant | src/path_state_machine.c:421-722 | in every run from the addition on: a bound path is Validating until it is validated, and then what it was validated for, stable since then; a path waiting for a retry is Degraded exactly if the binding that ended last had been validated, else CreateWait; it is closed for recovery exactly if it was given up |
| PathHistory.WaitingShows | src/path_state_machine.c:536-552 | so the public status of a waiting path is degraded exactly if it had been usable, else pending |
| PathHistory.StatusShows | src/path_state_machine.c:421-722 | the public status in full, from what has happened to the path |
| PathHistory.BoundIff | src/path_state_machine.c:454-610 | the steps that bind a path, by which attempt in which state and to which number, and the two that unbind it |
| PathHistory.ManualKeepsBudget | src/path_state_machine.c:564-610 | helper: reactivation by hand never touches the budget, and takes effect exactly if it succeeds on a path that is waiting or given up |
| PathHistory.RetriesAre | src/path_state_machine.c:380-397 | in every run the counter is the number of failures since the budget was last renewed, by a connection reset or by thirty stable seconds |
| PathHistory.SixthSinceRenewal | src/path_state_machine.c:380-397 | so in every run a failure gives the path up exactly if it is the sixth since then, and else arms the backoff for that many |
| PathHistory.StableRenews | src/path_state_machine.c:705-722 | the thirty seconds count from the validation or the last renewal, whichever is later |
| PathSlots.RunKeepsSlotsInv | src/mqvpn_client.c:2447-3084 | in every run of additions, removals, events, reconnects and connections asked for in any state, each path keeps its invariant and handles are distinct |
| PathSlots.DroppedHandleStaysUnusable | src/mqvpn_client.c:533-540 | in every such run the handle of a gone path never resolves to a usable path again |
| PathSlots.DropMakesUnusable | src/mqvpn_client.c:2992-3071 | helper: removing or dropping a path makes its handle unusable at once |
| PathSlots.AddPathSparesOthers | src/mqvpn_client.c:2890-2952 | helper: a new path gets a handle never given before and its own flags, and leaves every attached or transport-live slot alone; it is refused exactly for a bad socket or when all eight slots are such |
| PathSlots.FdForPathSound | src/mqvpn_client.c:586-597 | the socket is that of the first path with the number, if attached, else of the primary, if attached, else of the first attached path; there is none exactly when no path is attached |
| PathSlots.ReconnectKeepsInv | src/mqvpn_client.c:3684-3712 | a reconnect keeps every path's invariant and leaves the asserted table sound, even if it was not sound before |
| PathSlots.ReconnectClears | src/mqvpn_client.c:798-810 | helper: after a reconnect no path is bound but the new primary's, every budget is whole, and every slot without a socket can be taken again |
| PathSlots.ReconnectStartsIff | src/mqvpn_client.c:2447-2466 | it starts a connection exactly when the transport comes up and two attached non-backup paths exist or the old primary is attached; then on an attached path |
| PathSlots.StartKeepsTableIff | src/mqvpn_client.c:2447-2604 | started without that reset, a connection keeps a sound table sound exactly unless it comes up on an attached primary that waits for a retry |
| PathSlots.TableSoundIff | src/mqvpn_client.c:2789-2817 | in every run the table is sound at every moment exactly if no connection asked for through the API comes up on such a primary |
| PathSlots.ConnectBreaksTable | src/mqvpn_client.c:2598-2604 | an instance: a path is added, its activation fails, a connection is asked for before the retry |
| PathSlots.StuckUntilAdded | src/mqvpn_client.c:3673-3712 | with a dropped primary and at most one attached non-backup path, no number of reconnects and connections asked for, amid any other events, starts a connection or changes the primary until a path is added |
| ClientPaths.ClientPaths.AddPathFd | src/mqvpn_client.c:2890-2967 | the first reusable slot, else a new one, in the array |
| ClientPaths.ClientPaths.EventForHandle | src/mqvpn_client.c:3045-3084 | the event reaches the entry with that handle, and only it |
| ClientPaths.ClientPaths.RemovePath | src/mqvpn_client.c:2992-3035 | removal by handle |
| ClientPaths.ClientPaths.ResetPathsForReconnect | src/mqvpn_client.c:798-810 | every slot is reset |
| ClientPaths.ClientPaths.StartOn | src/mqvpn_client.c:2447-2604 | the guard on the primary path, then the bootstrap |
| ClientPaths.ClientPaths.ReconnectPaths | src/mqvpn_client.c:3673-3712 | reset, rotate, start |
| ClientPaths.ClientPaths.GetFdForPath | src/mqvpn_client.c:586-597 | path number, else primary, else first attached |
| Rotation.RotatePrimaryPath | src/path_rotation.c:7-25 | the counting and wrapping loops find the next non-backup path cyclically |
| Rotation.RotationMoves | src/path_rotation.c:17-24 | with two non-backup paths the result is another non-backup path |
| Rotation.ChoosesPrimaryIff | src/path_rotation.c:17 | a non-backup path is chosen exactly when there are two, or the current one is one |
| Rotation.LoneSurvivorMissed | src/path_rotation.c:17 | an instance: the current path counts as a backup, the other one does not, and the current one is kept |
| Rotation.RoundRobin | src/path_rotation.c:19-24 | t rotations lead from the j-th non-backup path to the (j + t)-th, cyclically |
| Rotation.CycleVisitsAll | src/path_rotation.c:19-24 | one cycle visits every non-backup path exactly once |
| Checksum.FoldIsMod | src/icmp.c:17-18 | folding terminates, keeps the sum modulo 65535, and gives zero only for zero |
| Checksum.ForwardInPlace | src/mqvpn_client.c:1868-1889 | the TTL or hop-limit step in the packet buffer |
| Checksum.ForwardingKeepsValidity | src/mqvpn_client.c:1875-1879 | for every header length the updated IPv4 checksum verifies exactly when the old one did |
| Checksum.IncrementalIsRecomputedIff | src/mqvpn_client.c:1875-1879 | it equals a recomputation exactly when the old checksum was not 0xFEFF; then it is 0xFFFF instead of zero |
| Checksum.IncrementalDiffers | src/mqvpn_client.c:1875-1879 | an instance: a header with checksum 0xFEFF |
| Checksum.SumRange | src/icmp.c:92-97 | the word loop, odd lengths included, in 32 bits without overflow |
| Checksum.FilledVerifies | src/icmp.c:79-102 | the complement of the folded sum, written into the cleared word, makes the whole verify |
| Icmp.SendV4 | src/icmp.c:50-105 | sent exactly for a packet holding the header it announces; both checksums verify and every field is as it should be |
| Icmp.SendV6 | src/icmp.c:107-150 | sent exactly for a packet with a whole IPv6 header; fits the minimum MTU and verifies over the pseudo-header |

## Left out

- RunDeliversInOrder: speaks of each flow's own log; the interleaving of deliveries of different flows is not modelled.
- DecodeEncode: a number of 2^48 or more comes back reduced; like the code, the receiver does not reconstruct it, so `EndToEndDelivery` is stated for at most 2^48 packets of one incarnation.
- EndToEndDelivery: asks that no gap timeout, eviction, demotion or, behind its first packet, honoured reset falls into the run; what holds otherwise is in `FlowHistory`, `FlowProgress` and `FlowModes`.
- StampedIsReordered: speaks of one configuration at both ends; nothing in the protocol makes them agree.
- CommitPeek: asks that the flow of the peek is still in the table; the source would touch freed memory otherwise.
- GrowToCover: allocation failure, which leaves the ring as it was.
- Insert: allocation failure, which refuses the packet.
- InsertCommitted: allocation failure of the packet copy or the ring, which is counted as a pool drop.
- FlowFor: allocation failure after an eviction, which drops the packet.
- GetOrCreate: allocation failure after an eviction, which sends the packet unstamped.
- Receiver.ReorderRx.New: a missing callback, and allocation failure.
- OnTunPacket: a framing failure is one more way in which the transport does not accept the datagram; the lookup of the session by inner address comes before it and is not modelled.
- AddPathFd: the activation attempt that may follow at once is a separate activation event.
- RemovePath: the close of the transport's path before the removal is not modelled; its outcome arrives as an event.
- EventForHandle: the close of the transport's path before a drop or removal is not modelled; its outcome arrives as an event.
- StartOn: only the slot is modelled, not the connection; whether the transport comes up is a parameter.
- SumRange: one loop for the even-length IPv4 header sum and the ICMP sums.
- Icmp.SendV4: the callback and the rate limit of the callers; the path MTU is a parameter.
- Hash chains are sequences of entries instead of next pointers; order within a chain and unlinking while walking are kept.
- The flow hash is an arbitrary function of the key.
- Wrap-around of 64-bit clocks and counters, except in the stability tick where the subtraction relies on it.
- Latency percentiles: floating-point rounding.
- Entry time of a path state, residence warnings, names, addresses, weights and log lines: nothing modelled depends on them.
- The client state table and its transitions, so that a connection may be asked for at any moment; standby switching outside the path state machine, and reconnect timing.
- The TCP lane and its egress relay, sessions, leases and pinned users, the address pool, option and JSON handling.
- QUIC, HTTP/3, MASQUE, TLS, sockets and the TUN device.
