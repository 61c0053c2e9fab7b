# Verified model of the cellular data path

This project models, in Dafny, the vendor drivers that carry cellular data on the router: the
PCIe/MHI host driver with its power state machine, the UCI character device on top of it, the
QMAP and MBIM framings of the network devices, uplink aggregation over USB, the firmware
download and the shim in front of the NSS network accelerator. It proves what these parts
promise together, over every run and every input.

`dafny verify dfyconfig.toml` checks the whole project.

## How it is built

| file | what it holds |
|---|---|
| `Octets.dfy` | the byte type |
| `Ring.dfy` | the circular rings as byte pointers into a block, proved to be bounded queues |
| `PowerStates.dfy` | the power state word, its transition table and runs of it |
| `HostSpec.dfy` | the MHI host as a machine over values: queue, complete, reset, start, wake |
| `HostLaws.dfy` | what each of these operations keeps: order, doorbells, votes |
| `HostRuns.dfy` | host and device together: steps, the joint invariant, whole runs |
| `HostOutcomes.dfy` | what they achieve: accepted and refused calls, what a report hands back, starts and stops |
| `Doorbells.dfy` | the doorbell protocol over whole runs: when one is written, and that no wake-up is lost |
| `Host.dfy` | the driver's own form: channels and controller updated in place, proved equal to `HostSpec` |
| `EventRing.dfy` | event rings in memory: arming, recycling, stale marking, the data event loop |
| `ControlRing.dfy` | the control event loop: state changes mixed with transfer events |
| `Uci.dfy`, `UciWrite.dfy` | the character device: buffer rotation, the byte stream of reads, chunked writes |
| `UciSlots.dfy` | which buffers the node holds, expects and requeues on every sequence, also after a loss |
| `QmapStreams.dfy` | good frames in front of anything, frames that are passed over or end the input, padding |
| `Qmap.dfy`, `QmapDecoders.dfy` | QMAP frames, the decode loop on every input, the USB and PCIe receive loops |
| `Aggregator.dfy` | the uplink aggregator with its timer and worker, and its round trip through the decoder |
| `Mbim.dfy` | MBIM blocks: the NDP walk, the round trip, sequence numbers |
| `MbimBlocks.dfy` | blocks with several datagrams and NDPs: order of delivery and round trip |
| `Firmware.dfy` | the BHIe segment table and the firmware scatter |
| `Nss.dfy` | header relocation and the path of a packet past the accelerator |

Code that changes state is modelled as classes and loops; each method's contract equates the new
state with a function of the old one, and the laws are proved about those functions. Steps are
atomic at the granularity of the driver's critical sections. Parameters stand for what the code
cannot decide itself: DMA mapping results, allocation results, clock comparisons, the device's
behaviour and the queue calls that clients make from completion callbacks.

Starting and stopping a channel takes two steps each, because the driver drops its locks while it
waits for the device: in between the device still posts events, the host consumes them, clients
queue and the power state changes. Only other starts and stops of the same channel are kept out, by
its mutex.

The device's obligations are the guards of the device steps in `HostRuns.IsStep`: it completes
transfers of a started channel, in ring order, and points at an outstanding element.
`HostRuns.HeadIsReady` shows that every event such a device has posted still names an outstanding
element when the host gets to it.

## Findings

Where the code does not do what one would expect, the exact condition is a theorem:

- QMAP: a frame for an unregistered device that claims more bytes than are left is skipped before
  its length is checked; the loop then repeats the same turn for ever, and it hangs for no other
  reason (`Qmap.HangsIff`; `Qmap.FiveBytesHang` is an input). With every device registered it
  always ends.
- QMAP: the version test reads one byte past the input exactly when the loop comes to a data frame
  for a registered device that has no payload and ends the input (`Qmap.ReadsPastIff`;
  `Qmap.BareHeaderReadsPast` is an input).
- QMAP: the length field has 16 bits; a packet survives the round trip exactly when it and its
  padding are shorter than 64 KiB (`Qmap.RoundTripIff`).
- QMAP aggregation: the first frame of an aggregate is not compared with the maximal size, and any
  size is accepted as a setting. A send overruns its buffer exactly when it starts an aggregate with
  a frame longer than that size (`Aggregators.OverrunsIff`; `Aggregators.SmallLimitOverruns` is a
  run). It never does when each frame alone fits (`Aggregators.NeverOverrun`).
- MBIM: the handler faults in exactly two ways (`Mbim.NdpFaultIff`, for whole blocks
  `Mbim.WalkEndsIff`). With several sessions, the session number equal to `mbim_mux_id` passes the
  range check but has an index outside the array of devices (`Mbim.BaseSessionFaults`;
  `Mbim.BaseSessionBlockFaults` is a block). And a good datagram for a child that is not registered
  dereferences a null device (`Mbim.NullDeviceFaults` is a block).
- MBIM: the walk along the NDPs hangs exactly when it comes back to one with nothing delivered in
  between (`Mbim.HangsIffCycle`; `Mbim.LoopingHangs` is a block).
- MBIM: the check on the number of table entries ignores where the table starts; the table is read
  past the end of the block exactly when an entry that is reached lies there
  (`Mbim.NdpPastEndIff`, for whole blocks `Mbim.WalkEndsIff`; `Mbim.CutTableReadsPast` is a block).
- UCI: on a channel whose reader requeues, a completion that is not passed on, or a requeue that
  fails, loses a buffer for good, and nothing else does (`Uci.UciDev.Serve`). One discarded
  completion is enough to raise the error that makes every later read fail, for any number of
  buffers from three on (`UciSlots.OneDiscardRaisesAnError`, `UciSlots.OneDiscardStopsTheNode`).
- UCI: a channel that copies makes up for discarded completions at the next acceptable one
  (`Uci.CopyingRecovers`), but if they are discarded until the ring is empty nothing comes any more
  (`Uci.CopyingStarves`).
- NSS: when some bytes of a packet are linear, 40 of them pass with TCP and 28 with UDP whatever the
  headers take. In IPv4 without options that is exactly when both headers are linear
  (`Nss.HeadAcceptedIff`); with options or in IPv6 it is not (`Nss.ShortHeadAccepted`).
- NSS: a packet whose device has no context is neither sent, passed up nor freed
  (`Nss.Shim.NssTx` counts it as lost).
- Firmware: when a segment cannot be allocated the coherent memory is given back but the array of
  segment descriptors is not (`Firmware.Controller.AllocTable`).
- MHI: a channel that shares the control event ring may leave stale events there when it is reset;
  the control loop has no case for them and raises its assertion about an unsupported type
  (`ControlRings.StaleIsUnsupported`, `ControlRings.ProcessControl`). The data loop skips them.
- `enum MHI_FLAGS` gives MHI_EOB the value 0, so the EOB bit of a transfer element is never set.
- QMAP v1 over USB pads the length including the link-layer header, v5 without it.

## Model

| member | source | states |
|---|---|---|
| `Rings.Ring.Add` | pcie_mhi/src/core/mhi_main.c:237-247 | moving the write pointer, wrapping by byte comparison, appends the slot's element to the queue the ring represents |
| `Rings.Ring.Del` | pcie_mhi/src/core/mhi_main.c:249-259 | moving the read pointer takes exactly the oldest element off the queue |
| `Rings.Ring.NrAvail` | pcie_mhi/src/core/mhi_main.c:261-274 | the byte arithmetic of both pointer orders gives elements - 1 - used |
| `Rings.Ring.IsFull` | pcie_mhi/src/core/mhi_main.c:325-334 | full if and only if elements - 1 are queued, that is, if and only if none is available |
| `Rings.Ring.ToVirtual` | pcie_mhi/src/core/mhi_main.c:289-297 | inverse of the translation to bus addresses |
| `PowerStates.FindLastBit` | pcie_mhi/src/core/mhi_pm.c:107-120 | position of the highest set bit: the largest power of two not above the word; 32 for an empty word |
| `PowerStates.TrySet` | pcie_mhi/src/core/mhi_pm.c:107-141 | for any word and request, the word that then holds; a one-hot word stays one-hot and moves exactly along the table, any other word is never left |
| `PowerStates.OnlyThrough` | pcie_mhi/src/core/mhi_pm.c:41-105 | on every run, a set of states with a single exit is left only through it |
| `PowerStates.ErrorToM0PassesPor` | pcie_mhi/src/core/mhi_pm.c:41-105 | every path from an error state to M0 passes POR |
| `PowerStates.ShutdownToM0PassesDisable` | pcie_mhi/src/core/mhi_pm.c:41-105 | every path from SHUTDOWN_PROCESS or LD_ERR_FATAL_DETECT to M0 passes DISABLE and after it POR |
| `PowerStates.M3ExitHistory` | pcie_mhi/src/core/mhi_pm.c:41-105 | every M3_EXIT is preceded, without interruption, by M0, then M3_ENTER, then M3 |
| `PowerStates.WordsOrdered` | pcie_mhi/src/core/mhi_internal.h:738-776 | the word of each state; different states have different words, and the error states are those from 0x80 on |
| `PowerStates.GrantedFrom` | pcie_mhi/src/core/mhi_pm.c:41-105 | for every state, exactly the states from which it is granted |
| `PowerStates.WayToM0` | pcie_mhi/src/core/mhi_pm.c:41-105 | from every state granted requests lead to M0; from a working one through no error state, DISABLE or POR |
| `PowerStates.NoDeadEnd` | pcie_mhi/src/core/mhi_pm.c:41-105 | granted requests lead from any state to any other |
| `HostSpec.EotBit` | pcie_mhi/src/core/mhi_main.c:665-673 | the interrupt bit of a generated element is set exactly for skb and dma transfers and for buffers flagged EOT |
| `HostSpec.DeviceReads` | pcie_mhi/src/core/mhi_main.c:660-673 | the packed words of an element read back as the buffer's address and 16-bit length, the transfer type, chain and interrupt-blocking bits; the EOB bit is never set |
| `HostImpl.Channel.RingChanDb` | pcie_mhi/src/core/mhi_main.c:139-200 | context write pointer, doorbell value, register write and db_mode after a doorbell in either burst mode, computed from byte pointers |
| `HostImpl.Channel.Fill` | pcie_mhi/src/core/mhi_main.c:638-690 | transfer ring and buffer ring advance in lockstep; space in the first is space in the second |
| `HostImpl.Channel.Take` | pcie_mhi/src/core/mhi_main.c:1144-1179 | both rings give up their oldest element and its buffer is recorded as returned |
| `HostImpl.Controller.Queue` | pcie_mhi/src/core/mhi_main.c:428-762 | the three queue calls on in-place rings do what the abstract queue does, with the same return value in the same order of checks, also when the mapping fails |
| `HostImpl.Controller.RunCallback` | pcie_mhi/src/core/mhi_main.c:1176-1179 | queue calls from a callback, in order |
| `HostImpl.Controller.FinishUntil` | pcie_mhi/src/core/mhi_main.c:1120-1209 | the completion loop over byte pointers ends whatever the callbacks queue and completes exactly the elements up to dev_rp |
| `HostImpl.Controller.ParseXfer` | pcie_mhi/src/core/mhi_main.c:1090-1248 | a transfer event: completions, OOB and DB_MODE doorbells, and events for a disabled channel |
| `HostImpl.Controller.ResetData` | pcie_mhi/src/core/mhi_main.c:2079-2112 | the reset loop drains the channel and lowers the pending count for each uplink transfer |
| `HostImpl.Controller.BeginStopping` | pcie_mhi/src/core/mhi_main.c:2164-2190 | disabling a channel, and the vote taken with the reset command unless the host is in an error state |
| `HostImpl.Controller.ResetAnswered` | pcie_mhi/src/core/mhi_main.c:2190-2208 | a failed send, a timeout, a refusal and a success all give the vote back once; none is given back when none was taken |
| `HostImpl.Controller.EndStopping` | pcie_mhi/src/core/mhi_main.c:2190-2220 | the reset, whatever the device answered |
| `HostImpl.Controller.BeginStarting` | pcie_mhi/src/core/mhi_main.c:1906-1950 | the checks of a start in their order, rewound rings, and the vote taken with the start command |
| `HostImpl.Controller.EndStarting` | pcie_mhi/src/core/mhi_main.c:1952-2020 | each way a start command can end, with its own exit, gives the vote back once; only a confirmed start enables the channel |
| `HostImpl.Controller.TrySetPm` | pcie_mhi/src/core/mhi_pm.c:107-141 | the request on the state word moves the state along the table |
| `HostImpl.Controller.M0Transition` | pcie_mhi/src/core/mhi_pm.c:308-375 | the M0 handler over all channels, and its failure when the table refuses M0 |
| `HostLaws.QueueKeeps` | pcie_mhi/src/core/mhi_main.c:428-534 | a queue call keeps FIFO order, the doorbell law, the slot of every position, the pending count and the vote |
| `HostLaws.CompleteKeeps` | pcie_mhi/src/core/mhi_main.c:1120-1209 | so does a whole batch of completions with callbacks that queue again |
| `HostLaws.CompleteEffect` | pcie_mhi/src/core/mhi_main.c:1120-1209 | a batch hands back exactly the oldest transfers in queue order with their status and length; what was queued later stays behind the rest |
| `HostLaws.CompleteElsewhere` | pcie_mhi/src/core/mhi_main.c:1120-1209 | other channels only see the callbacks' queue calls |
| `HostLaws.XferKeeps` | pcie_mhi/src/core/mhi_main.c:1090-1248 | every kind of transfer event keeps the invariant |
| `HostLaws.DrainEffect` | pcie_mhi/src/core/mhi_main.c:2079-2112 | a reset hands back everything outstanding, in order, with -ENOTCONN, and touches no other channel |
| `HostLaws.BeginStopKeeps` | pcie_mhi/src/core/mhi_main.c:2164-2190 | disabling a channel keeps the invariant, with one more vote for the command in flight |
| `HostLaws.EndStopKeeps` | pcie_mhi/src/core/mhi_main.c:2190-2220 | so does resetting it, with that vote given back |
| `HostLaws.BeginStartKeeps` | pcie_mhi/src/core/mhi_main.c:1906-1950 | so does beginning a start, also when it is refused |
| `HostLaws.EndStartKeeps` | pcie_mhi/src/core/mhi_main.c:1952-2020 | so does ending one, however the command ended |
| `HostLaws.M0Keeps` | pcie_mhi/src/core/mhi_pm.c:308-375 | after the M0 handler the device knows of all outstanding work on every channel |
| `HostRuns.PointerNamesPosition` | pcie_mhi/src/core/mhi_main.c:1120-1140 | although pointers wrap round the ring, an event pointer identifies one position of the channel's log, and completes exactly up to it |
| `HostRuns.HeadIsReady` | pcie_mhi/src/core/mhi_main.c:1090-1140 | in every reachable state the next event of every ring names an outstanding transfer, the one the device meant |
| `HostRuns.StepKeeps` | pcie_mhi/src/core/mhi_main.c:428-2220 | every step of host or device keeps the joint invariant |
| `HostRuns.EveryRunIsSafe` | pcie_mhi/src/core/mhi_main.c:139-2220 | on every run, also while channels are being started and stopped: the accepted buffers are those returned, each once and in queue order, followed by those outstanding; no doorbell is lost in M0; pending_pkts is the number of outstanding uplink transfers; one vote is held exactly while it is positive, and one for each command in flight |
| `HostRuns.LogsGrow` | pcie_mhi/src/core/mhi_main.c:1120-1209 | between any two states of a run the accepted and returned logs only grow |
| `HostRuns.PmRun` | pcie_mhi/src/core/mhi_pm.c:107-141 | the power states along any run of the system are a run of the power state machine |
| `HostRuns.RecoveryPassesPor` | pcie_mhi/src/core/mhi_pm.c:41-105 | on any run of the system, doorbells are legal again after an error only through POR |
| `HostRuns.NothingReturnedWhileStopping` | pcie_mhi/src/core/mhi_main.c:1117-1118 | while a stop waits for the device, events of the channel are consumed but no buffer of it is returned |
| `HostRuns.NoReportSurvivesStop` | pcie_mhi/src/core/mhi_main.c:2138-2162 | after the reset no completion event on the channel is pending, however many were posted during the wait, so none can complete a buffer queued after a restart; everything outstanding came back with -ENOTCONN |
| `HostRuns.RunContinues` | pcie_mhi/src/core/mhi_main.c:1347-1591 | a path of steps from the last state of a run continues the run |
| `HostOutcomes.AcceptedIff` | pcie_mhi/src/core/mhi_main.c:428-762 | a buffer is accepted exactly when an element is free, the host is not in an error state and the buffer is mapped; which refusal is given otherwise |
| `HostOutcomes.QueueAllInOrder` | pcie_mhi/src/core/mhi_main.c:1176-1179 | the queue calls of a callback take effect one after the other |
| `HostOutcomes.NothingAcceptedInError` | pcie_mhi/src/core/mhi_main.c:428-762 | on every run, no step taken in an error state takes a buffer from a client, also not from a callback |
| `HostOutcomes.ReportDelivers` | pcie_mhi/src/core/mhi_main.c:1104-1190 | in every reachable state the report at the head of a ring hands back exactly the buffers up to the one the device meant, each with the event's 16-bit length and with -EOVERFLOW exactly if the device says so; no other channel gets anything |
| `HostOutcomes.StartSentIff` | pcie_mhi/src/core/mhi_main.c:1906-1950 | exactly when a start is sent, the vote it takes and the empty ring it leaves |
| `HostOutcomes.EnabledByAnswer` | pcie_mhi/src/core/mhi_main.c:1952-2020 | a channel becomes enabled by a confirmed start and by no other step |
| `HostOutcomes.StopSentIff` | pcie_mhi/src/core/mhi_main.c:2164-2190 | a stop disables at once; the command and its vote are omitted exactly in an error state |
| `Doorbells.QueueRings` | pcie_mhi/src/core/mhi_main.c:139-200 | an accepted queue call in M0 publishes and writes the new write pointer, unless a burst doorbell is not due |
| `Doorbells.DbEventRings` | pcie_mhi/src/core/mhi_main.c:1211-1231 | an OOB or DB_MODE event on a channel with work does so too |
| `Doorbells.M0Rings` | pcie_mhi/src/core/mhi_pm.c:347-368 | so does the return to M0, where reset_req makes a doorbell due |
| `Doorbells.FirstQueueRings` | pcie_mhi/src/core/mhi_main.c:139-200 | on every run, the first queue call after a start writes the doorbell |
| `Doorbells.NoWakeUpLost` | pcie_mhi/src/core/mhi_main.c:139-200 | no lost wake-up, on every run with a device that stops watching a burst ring whenever it says so, or outside M0 when reset_req is set: in M0 a channel with work has published all of it, and its device was told just that, or is watching, or has said in a pending event that it is not |
| `Doorbells.DoorbellsOnlyInM0` | pcie_mhi/src/core/mhi_internal.h:770-790 | on every run, doorbells are written in M0 only, and none is forgotten |
| `EventRings.EventRing.Arm` | pcie_mhi/src/core/mhi_pm.c:277-294 | from rp = base, the write pointer ends one slot behind and ctxt_wp is its bus address |
| `EventRings.EventRing.Recycle` | pcie_mhi/src/core/mhi_main.c:299-323 | keeps wp one slot behind rp and ctxt_wp its image, and consumes exactly the oldest pending event |
| `EventRings.EventRing.MarkStaleEvents` | pcie_mhi/src/core/mhi_main.c:2045-2077 | in place and across the wrap, rewrites exactly the channel's transfer events in [rp, dev_rp) and leaves every other slot as it was |
| `EventRings.MarkedDecodes` | pcie_mhi/src/core/mhi_main.c:2060-2076 | the rewritten words decode as a stale event of the same channel |
| `EventRings.EventOnWire` | pcie_mhi/src/core/mhi_internal.h:637-643 | a transfer event as the device writes it is the one the host reads |
| `EventRings.CodeDoes` | pcie_mhi/src/core/mhi_main.c:1104-1248 | what each completion code on the wire does: which status and length the client gets, when a doorbell becomes due or is written, and that other codes do nothing |
| `EventRings.EventRing.MarkPending` | pcie_mhi/src/core/mhi_main.c:2045-2077 | the in-place rewrite is the stale marking that the joint runs use |
| `EventRings.EventRing.ResetChannel` | pcie_mhi/src/core/mhi_main.c:2138-2220 | in memory, the reset is the reset step of the joint runs: events marked, everything outstanding handed back |
| `EventRings.TakenBounds` | pcie_mhi/src/core/mhi_main.c:1540-1591 | a call dispatches at most quota transfer events, and stops short only when it dispatched exactly that many |
| `EventRings.EventRing.ProcessData` | pcie_mhi/src/core/mhi_main.c:1520-1591 | consumes a prefix of the pending events in order, returns how many it recycled, or -EIO with nothing changed |
| `EventRings.PendingIsReady` | pcie_mhi/src/core/mhi_main.c:1520-1591 | in every reachable state all pending events of a ring are ready when their turn comes |
| `EventRings.BatchIsPath` | pcie_mhi/src/core/mhi_main.c:1520-1591 | dispatching a batch of events is a path of steps of the joint system that keeps its invariant |
| `EventRings.ProcessInRun` | pcie_mhi/src/core/mhi_main.c:1520-1591 | in any reachable state the data loop needs nothing but the invariant, and takes the system along such a path to the state the memory then shows, by exactly as many events as the quota allows, or none when events are out of reach |
| `ControlRings.StaleIsUnsupported` | pcie_mhi/src/core/mhi_main.c:1487-1490 | a stale event reaches the default case of the control loop |
| `ControlRings.StateOnWire` | pcie_mhi/src/core/mhi_internal.h:637-645 | a state change event as the device writes it is the one the host reads |
| `ControlRings.EventMoves` | pcie_mhi/src/core/mhi_main.c:1393-1440 | where each state change event leads from every power state; events that do not fit change nothing |
| `ControlRings.SuspendAndResume` | pcie_mhi/src/core/mhi_pm.c:308-375 | a suspend and resume ends in M0 with the outstanding work untouched and every channel told whose device does not watch |
| `ControlRings.ControlKeeps` | pcie_mhi/src/core/mhi_main.c:1393-1490 | every control event, M0 to system error and transfer events, keeps order, doorbells and votes |
| `ControlRings.HandlesKeeps` | pcie_mhi/src/core/mhi_main.c:1370-1505 | so does any batch of them |
| `ControlRings.ControlElement` | pcie_mhi/src/core/mhi_main.c:1393-1490 | the switch on one element over the in-place host |
| `ControlRings.ProcessControl` | pcie_mhi/src/core/mhi_main.c:1347-1518 | consumes all pending events in order and returns their number, or -EIO with nothing changed; it ends when the device is quiet, and says exactly when the assertion is raised |
| `ControlRings.ControlIsPath` | pcie_mhi/src/core/mhi_main.c:1347-1518 | in every reachable state a batch of control events is a path of event, M0 and power-request steps; each event is ready when its turn comes, and the invariant holds at the end |
| `ControlRings.ControlInRun` | pcie_mhi/src/core/mhi_main.c:1347-1518 | the control loop takes the system along that path to the state the memory then shows, over all pending events, or none when events are out of reach; and exactly when its assertion is raised |
| `Uci.HeadIsExpected` | pcie_mhi/src/devices/mhi_uci.c:828-862 | from the ring engine's FIFO law: the next buffer to complete is uci_buf[rp_trb] |
| `Uci.DmaApart` | pcie_mhi/src/devices/mhi_uci.c:828-922 | the device never writes into a page that waits to be read |
| `Uci.RefillAgrees` | pcie_mhi/src/devices/mhi_uci.c:896-922 | requeueing at wp_trb keeps the rotation of a copying channel |
| `Uci.GiveBackAgrees` | pcie_mhi/src/devices/mhi_uci.c:527-545 | requeueing index k-1 keeps the rotation of a reader-driven channel |
| `Uci.UciDev.QueueInbound` | pcie_mhi/src/devices/mhi_uci.c:149-210 | opening fills the ring with buffers 0, 1, ... in order |
| `Uci.UciDev.Refill` | pcie_mhi/src/devices/mhi_uci.c:903-918 | the callback of a copying channel queues buffers from wp_trb on until the ring is full or one cannot be queued |
| `Uci.UciDev.DlXferCb` | pcie_mhi/src/devices/mhi_uci.c:828-922 | the callback: mismatch branch, discarded completions, copies and pages, the entry appended, the buffers requeued |
| `Uci.UciDev.Complete` | pcie_mhi/src/devices/mhi_uci.c:828-922 | while no buffer was lost, the completed buffer is the expected one and rx_error is not raised; the packet joins the unread entries; on a reader-driven channel a buffer is lost exactly when the completion is a reset or has an unacceptable length; a copying channel refills its ring |
| `Uci.UciDev.Read` | pcie_mhi/src/devices/mhi_uci.c:440-569 | returns the next unread bytes, as many as asked for unless the entry ends first; an unfinished entry stays current; a finished one is left, and a reader-driven channel gives the buffer before it back, or loses one exactly when that fails |
| `Uci.UciDev.Serve` | pcie_mhi/src/devices/mhi_uci.c:440-922 | over any sequence of completions, reads and power state changes the node stays sound if and only if every completion is passed on and every requeue succeeds, and then does exactly what a queue of unread packets does |
| `Uci.OpenAndServe` | pcie_mhi/src/devices/mhi_uci.c:440-922 | from opening on: no error is raised; the packets that came and the bytes read are determined by the sequence; what came is what was read followed by what is unread |
| `Uci.NothingLost` | pcie_mhi/src/devices/mhi_uci.c:491-545 | on any sequence that queue loses, repeats and reorders no byte |
| `Uci.FineIsSafe` | pcie_mhi/src/devices/mhi_uci.c:491-545 | transfers within the MTU and mapped requeues are always safe |
| `Uci.PowerDecides` | pcie_mhi/src/devices/mhi_uci.c:520-570 | a reader-driven channel keeps its buffer exactly if the power state allows the requeue and it is mapped |
| `Uci.ReadsDrain` | pcie_mhi/src/devices/mhi_uci.c:440-587 | large enough reads return one unread entry each until all have been read |
| `Uci.BurstComesThrough` | pcie_mhi/src/devices/mhi_uci.c:440-870 | a burst that the host has buffers for arrives whole, is read packet by packet and byte for byte, and leaves the node as it was opened |
| `Uci.CopyingRecovers` | pcie_mhi/src/devices/mhi_uci.c:903-918 | one acceptable completion refills the ring of a copying channel |
| `Uci.CopyingStarves` | pcie_mhi/src/devices/mhi_uci.c:854-863 | with an empty ring a copying channel never gets anything again |
| `UciSlots.Play` | pcie_mhi/src/devices/mhi_uci.c:440-922 | on any sequence a reader-driven node, sound or damaged, holds, expects and requeues exactly the slots that a machine over slots says, raises exactly its errors and answers each read as it says |
| `UciSlots.ErrorsStay` | pcie_mhi/src/devices/mhi_uci.c:440-470 | once rx_error was raised it never falls, and every later read is refused, one refusal for each |
| `UciSlots.OneDiscardRaisesAnError` | pcie_mhi/src/devices/mhi_uci.c:842-848 | for any number of buffers from three on, one completion without data, one packet read and the rest of the ring, whatever it carries, raise exactly one error |
| `UciSlots.OneDiscardStopsTheNode` | pcie_mhi/src/devices/mhi_uci.c:842-848 | on a freshly opened node: after that run the error count is 1, and every later read is refused |
| `UciSlots.OpenShows` | pcie_mhi/src/devices/mhi_uci.c:149-210 | opening a node leaves it in that initial state |
| `UciUplink.Writer.QueueChunk` | pcie_mhi/src/devices/mhi_uci.c:405-422 | a chunk queued into the last free descriptor carries the EOT bit, whatever completes in between; the accepted log and the ring grow by exactly this buffer |
| `UciUplink.Writer.Write` | pcie_mhi/src/devices/mhi_uci.c:347-438 | whatever ends the write, exactly the buffers of the queued chunks were queued, in order, each holding its chunk with its length and EOT bit; the chunks concatenate to a prefix of the user's bytes, on success to all of them, each within the MTU, the last flagged EOT; a writer that finds the ring full has a completion coming. Every queued chunk met nothing that ends a write, and a write that ends early names what the next chunk met: a full ring, an error state, a failed mapping or a hazard; without those it writes everything or finds the ring full |
| `Qmap.AddHeader` | qmi_wwan_q/src/qmi_wwan_q.c:712-782 | header and padded packet form one frame: length, mux id, pad count and the v5 extension |
| `Qmap.SliceInFrame` | qmi_wwan_q/src/qmi_wwan_q.c:1797-1913 | the unsigned length test keeps a delivered datagram inside its frame |
| `Qmap.SlicesOrdered` | qmi_wwan_q/src/qmi_wwan_q.c:1797-1913 | on every input the delivered datagrams are disjoint, increasing slices of it for registered devices and within their MTU |
| `Qmap.ReceiveIsDecode` | qmi_wwan_q/src/qmi_wwan_q.c:1797-1913 | the delivered bytes are exactly those slices |
| `Qmap.StuckIff` | qmi_wwan_q/src/qmi_wwan_q.c:1822-1836 | exactly when a turn of the loop makes no progress |
| `Qmap.RegisteredNeverHangs` | qmi_wwan_q/src/qmi_wwan_q.c:1797-1913 | with every device below qmap_mode registered the loop ends on every input |
| `Qmap.HangsIff` | qmi_wwan_q/src/qmi_wwan_q.c:1797-1913 | the loop hangs if and only if it comes to a frame for an unregistered device that is longer than the rest of the input |
| `Qmap.FiveBytesHang` | qmi_wwan_q/src/qmi_wwan_q.c:1822-1836 | such an input |
| `Qmap.HangIsForever` | qmi_wwan_q/src/qmi_wwan_q.c:1797-1913 | a reported hang is one: after any number of turns the loop still runs |
| `Qmap.OtherwiseLeaves` | qmi_wwan_q/src/qmi_wwan_q.c:1797-1913 | otherwise it leaves after at most one turn per byte |
| `Qmap.PastEndIff` | qmi_wwan_q/src/qmi_wwan_q.c:1833-1868 | exactly when one turn reads past the input |
| `Qmap.ReadsPastIff` | qmi_wwan_q/src/qmi_wwan_q.c:1797-1913 | the decoder reads past the input if and only if it comes to such a frame |
| `Qmap.BareHeaderReadsPast` | qmi_wwan_q/src/qmi_wwan_q.c:1833-1868 | such an input |
| `Qmap.DecodeFrames` | qmi_wwan_q/src/qmi_wwan_q.c:1783-1917 | any concatenation of frames decodes to exactly its packets, in order |
| `Qmap.RoundTripIff` | qmi_wwan_q/src/qmi_wwan_q.c:712-782 | a packet survives framing and decoding if and only if its padded length fits 16 bits |
| `QmapStreams.PaddingExact` | qmi_wwan_q/src/qmi_wwan_q.c:712-739 | padding reaches a multiple of four whenever some padding that fits the tailroom does, with as few bytes as that takes |
| `QmapStreams.FramesAligned` | qmi_wwan_q/src/qmi_wwan_q.c:712-770 | with tailroom for it every framed length is a multiple of four: v1 with the link-layer header, v5 without |
| `QmapStreams.HeaderOnWire` | qmi_wwan_q/src/qmi_wwan_q.c:712-770 | the fields of both headers as they lie in the frame |
| `QmapStreams.TurnIff` | qmi_wwan_q/src/qmi_wwan_q.c:1796-1860 | exactly which frames end the input and which are passed over |
| `QmapStreams.PassedOverHidesNothing` | qmi_wwan_q/src/qmi_wwan_q.c:1818-1840 | behind a frame that is passed over, decoding goes on as if it were not there |
| `QmapStreams.DeliveredAreIp` | qmi_wwan_q/src/qmi_wwan_q.c:1843-1860 | on every input each delivered datagram starts with IP version 4 or 6 |
| `QmapStreams.GoodPrefix` | qmi_wwan_q/src/qmi_wwan_q.c:1783-1917 | good frames are delivered in order whatever follows them, and what follows is decoded by itself |
| `QmapStreams.BadFrameEnds` | qmi_wwan_q/src/qmi_wwan_q.c:1783-1917 | a bad frame costs everything behind it and nothing before it |
| `QmapStreams.DownlinkDecodes` | qmi_wwan_q/src/qmi_wwan_q.c:1796-1816 | with dl_minimum_padding agreed, the device gets exactly the datagram and the next frame is found behind all padding |
| `QmapDecoders.UsbTurn` | qmi_wwan_q/src/qmi_wwan_q.c:1797-1908 | the loop body in C's signed and unsigned arithmetic |
| `QmapDecoders.PcieTurn` | pcie_mhi/src/devices/mhi_netdev_quectel.c:1415-1540 | the PCIe body, with its absolute value and command branch, takes the same decisions |
| `QmapDecoders.UsbDecode` | qmi_wwan_q/src/qmi_wwan_q.c:1783-1917 | the USB loop, which pulls frames off the front, delivers the (device, datagram) list of the specification on every input |
| `QmapDecoders.PcieDecode` | pcie_mhi/src/devices/mhi_netdev_quectel.c:1402-1555 | the PCIe loop delivers the same list, and notes each command frame that it passes exactly once |
| `Aggregators.Aggregator.StoreSettings` | qmi_wwan_q/src/qmi_wwan_q.c:1517-1544 | limits change only from one datagram per buffer, when nothing is held |
| `Aggregators.Aggregator.Pass` | qmi_wwan_q/src/qmi_wwan_q.c:1091-1174 | one pass of new_packet as a function of the packets held, the limits and the outcome of each test: what is held, what is sent and whether another pass follows |
| `Aggregators.Aggregator.Tick` | qmi_wwan_q/src/qmi_wwan_q.c:1001-1039 | timer and worker as functions of the packets held and the two flags |
| `Aggregators.Aggregator.Passes` | qmi_wwan_q/src/qmi_wwan_q.c:1091-1190 | new_packet runs at most twice, whatever the timer and the worker do in between, and what the passes do together |
| `Aggregators.Aggregator.TxAgg` | qmi_wwan_q/src/qmi_wwan_q.c:1050-1199 | a send as a function of the packets held, the flags and the limits: which packets are held, which groups were sent, which flags are set |
| `Aggregators.SentKeeps` | qmi_wwan_q/src/qmi_wwan_q.c:1050-1199 | after a send a held aggregate has its timer or worker pending, and the packet was kept unless an allocation failed |
| `Aggregators.SendJoins` | qmi_wwan_q/src/qmi_wwan_q.c:1091-1132 | a packet that fits behind what is held: everything goes out in one buffer exactly when the aggregate is too old, the packet urgent or the limit reached; otherwise it waits |
| `Aggregators.SendStarts` | qmi_wwan_q/src/qmi_wwan_q.c:1133-1168 | a packet that finds nothing held goes out alone after a pause, when urgent or without memory; otherwise it starts an aggregate |
| `Aggregators.SendFlushes` | qmi_wwan_q/src/qmi_wwan_q.c:1120-1190 | a packet that does not fit sends what is held first, as one buffer, and is then treated as one that finds nothing |
| `Aggregators.SendPlain` | qmi_wwan_q/src/qmi_wwan_q.c:1069-1089 | without aggregation every packet goes out by itself |
| `Aggregators.SettlingFlushes` | qmi_wwan_q/src/qmi_wwan_q.c:1001-1039 | after the timer and the worker what was held has gone out as one buffer and neither is pending |
| `Aggregators.LimitsStay` | qmi_wwan_q/src/qmi_wwan_q.c:1517-1544 | over any run, limits are set once and never change after that |
| `Aggregators.Aggregator.StartXmit` | qmi_wwan_q/src/qmi_wwan_q.c:1202-1252 | framing and aggregation of one packet: the packet with its padding, and where it goes |
| `Aggregators.Aggregator.Drive` | qmi_wwan_q/src/qmi_wwan_q.c:1001-1199 | over any run the aggregator is in the state that the machine over packets says; agg_skb is null exactly when agg_count is 0, agg_count is the number of held frames and below the limit, no buffer is overrun when each frame alone fits, that is, fits some bound below which no maximal size is set |
| `Aggregators.OverrunsIff` | qmi_wwan_q/src/qmi_wwan_q.c:1097-1162 | a send overruns its buffer exactly when it starts an aggregate with a frame longer than the maximal size, in the first pass or, after a flush, in the second |
| `Aggregators.NeverOverrun` | qmi_wwan_q/src/qmi_wwan_q.c:1097-1162 | over any run no buffer is overrun when each frame alone fits; while aggregation is off the maximal size does not matter |
| `Aggregators.SmallLimitOverruns` | qmi_wwan_q/src/qmi_wwan_q.c:1517-1544 | a maximal size of 10 bytes is accepted, and the packet that starts the next aggregate overruns it |
| `Aggregators.DecodeEmitted` | qmi_wwan_q/src/qmi_wwan_q.c:1783-1917 | decoding the emitted buffers in the order they were detached gives back the packets in them |
| `Aggregators.DecodeKept` | qmi_wwan_q/src/qmi_wwan_q.c:1001-1199 | decoded packets followed by the held ones are the packets kept |
| `Aggregators.SharedLink` | qmi_wwan_q/src/qmi_wwan_q.c:1001-1199 | when buffers of several devices interleave on the link, each device's packets still come back in order |
| `Aggregators.AggregateThenDecode` | qmi_wwan_q/src/qmi_wwan_q.c:1001-1252 | for every run without failed allocations that overruns no buffer, aggregation followed by decoding is the identity on the (device, packet) list, up to what is held; no run overruns when each frame alone fits |
| `Aggregators.AggregateAndSettle` | qmi_wwan_q/src/qmi_wwan_q.c:1001-1252 | and after the timer and the worker nothing is held, so it is the identity |
| `Mbim.MbimContext.Transmit` | pcie_mhi/src/devices/mhi_netdev_quectel.c:649-705 | the block for child i with its sequence number, or nothing without headroom |
| `Mbim.OneNdp` | pcie_mhi/src/devices/mhi_netdev_quectel.c:1265-1315 | the checks on one NDP in their order |
| `Mbim.Frames` | pcie_mhi/src/devices/mhi_netdev_quectel.c:1317-1383 | the datagram table loop |
| `Mbim.WalkNdps` | pcie_mhi/src/devices/mhi_netdev_quectel.c:1264-1388 | the walk along the chain, with the exact point where it starts to repeat itself |
| `Mbim.MbimContext.Handle` | pcie_mhi/src/devices/mhi_netdev_quectel.c:1230-1394 | the handler: what is delivered, also after an error, and the sequence counter |
| `Mbim.TablePastEndIff` | pcie_mhi/src/devices/mhi_netdev_quectel.c:1286-1330 | exactly when a datagram table is read past the end of the block |
| `Mbim.NdpPastEndIff` | pcie_mhi/src/devices/mhi_netdev_quectel.c:1265-1330 | exactly when an NDP reads past the end of the block |
| `Mbim.NdpFaultIff` | pcie_mhi/src/devices/mhi_netdev_quectel.c:1265-1375 | exactly when an NDP faults: a session with an index outside the array, or a good first datagram for an unregistered child |
| `Mbim.WalkEndsIff` | pcie_mhi/src/devices/mhi_netdev_quectel.c:1264-1388 | for a whole block: the walk ends with a verdict if and only if it comes to a place that has it |
| `Mbim.CutTableReadsPast` | pcie_mhi/src/devices/mhi_netdev_quectel.c:1286-1330 | a block whose table is read past its end |
| `Mbim.BaseSessionBlockFaults` | pcie_mhi/src/devices/mhi_netdev_quectel.c:1308-1313 | a block for the session that equals mbim_mux_id |
| `Mbim.NullDeviceFaults` | pcie_mhi/src/devices/mhi_netdev_quectel.c:1332-1375 | a block for an unregistered child |
| `Mbim.EndsIff` | pcie_mhi/src/devices/mhi_netdev_quectel.c:1264-1388 | the walk is reported to hang if and only if it never ends |
| `Mbim.HangsIffCycle` | pcie_mhi/src/devices/mhi_netdev_quectel.c:1264-1388 | it hangs if and only if it comes back to an NDP with nothing delivered in between |
| `Mbim.LoopingHangs` | pcie_mhi/src/devices/mhi_netdev_quectel.c:1264-1388 | a block that makes it hang |
| `Mbim.AcyclicEnds` | pcie_mhi/src/devices/mhi_netdev_quectel.c:1264-1388 | every acyclic chain is walked to an end |
| `Mbim.WalkSound` | pcie_mhi/src/devices/mhi_netdev_quectel.c:1317-1383 | from any block only non-empty IP slices inside it are delivered, to registered devices |
| `MbimBlocks.EntryIff` | pcie_mhi/src/devices/mhi_netdev_quectel.c:1318-1390 | exactly which entries of a table are delivered, and which end it without an error |
| `MbimBlocks.TableInOrder` | pcie_mhi/src/devices/mhi_netdev_quectel.c:1316-1390 | the k-th datagram of a table is the one its k-th entry names, all before the first bad entry are delivered, and exactly when the walk goes on |
| `MbimBlocks.WalkInOrder` | pcie_mhi/src/devices/mhi_netdev_quectel.c:1264-1393 | a block is delivered NDP by NDP along the chain, up to and including the one where the walk is left |
| `MbimBlocks.PlacesAreChain` | pcie_mhi/src/devices/mhi_netdev_quectel.c:1264-1393 | the places of the walk are the NDPs that the next indices name |
| `MbimBlocks.ChainDelivers` | pcie_mhi/src/devices/mhi_netdev_quectel.c:1264-1393 | a block whose NDPs carry datagrams for any children delivers all of them, in chain and table order, each unchanged on its child |
| `MbimBlocks.ManyRoundTripIff` | pcie_mhi/src/devices/mhi_netdev_quectel.c:1224-1399 | a block with any number of datagrams comes out unchanged and in order if and only if each is IP, the block is within rx_max and the session number fits its byte |
| `MbimBlocks.OneIsMany` | pcie_mhi/src/devices/mhi_netdev_quectel.c:649-690 | the transmitted block is such a block with one datagram |
| `MbimBlocks.OnlyBlocks` | pcie_mhi/src/devices/mhi_netdev_quectel.c:1238-1253 | nothing is delivered without a valid NTH16 header |
| `MbimBlocks.StreamsApart` | pcie_mhi/src/devices/mhi_netdev_quectel.c:1291-1307 | IP and device service streams never share a session number |
| `Mbim.MuxIff` | pcie_mhi/src/devices/mhi_netdev_quectel.c:1308-1313 | for any mbim_mux_id base, child i's session number is accepted and leads back to child i exactly when it fits its byte |
| `Mbim.BaseSessionFaults` | pcie_mhi/src/devices/mhi_netdev_quectel.c:1308-1313 | of the accepted sessions exactly the one equal to mbim_mux_id has an index outside the array |
| `Mbim.RoundTripIff` | pcie_mhi/src/devices/mhi_netdev_quectel.c:649-1394 | a framed datagram is delivered unchanged on its child if and only if it is IP, within rx_max and its session number fits |
| `Mbim.Exchange` | pcie_mhi/src/devices/mhi_netdev_quectel.c:1255-1260 | over any in-order run every packet travels in its own block with the next sequence number, that block delivers exactly that packet, every packet arrives in order and the sequence counters agree, also across the 16-bit wrap |
| `Firmware.CeilExact` | pcie_mhi/src/core/mhi_boot.c:503 | the rounded division is the least number of segments that holds the image |
| `Firmware.Controller.AllocTable` | pcie_mhi/src/core/mhi_boot.c:497-558 | succeeds exactly when every allocation does; a failure anywhere restores alloc_size |
| `Firmware.Controller.FreeTable` | pcie_mhi/src/core/mhi_boot.c:483-495 | gives back exactly what the allocation of the table took |
| `Firmware.TotalOfTable` | pcie_mhi/src/core/mhi_boot.c:521-528 | the size of a table in closed form |
| `Firmware.FirmwareCopy` | pcie_mhi/src/core/mhi_boot.c:560-589 | for any image and segment length the filled entries number ceil(size/seg), exactly fill the table, gather to the image, and leave the table's own segment alone; the assertion never fires |
| `Nss.Skb.AdjustHeader` | rmnet-nss/src/rmnet_nss.c:193-268 | linear bytes followed by fragment bytes, and the length fields, are unchanged on every path; when it succeeds, exactly; it needs as much headroom as it moves bytes |
| `Nss.HeadersExact` | rmnet-nss/src/rmnet_nss.c:208-237 | for any packet with TCP or UDP headers, options included, the bytes brought forward are exactly the two headers |
| `Nss.OthersLinearized` | rmnet-nss/src/rmnet_nss.c:238-247 | any other transport protocol makes the packet linear as a whole |
| `Nss.HeadAcceptedIff` | rmnet-nss/src/rmnet_nss.c:153-190 | exactly when a linear head is accepted, and that in IPv4 without options this is when it holds both headers |
| `Nss.ShortHeadAccepted` | rmnet-nss/src/rmnet_nss.c:153-190 | a head of an IPv6 packet that passes without any byte of its TCP header |
| `Nss.Skb.Relocate` | rmnet-nss/src/rmnet_nss.c:244-266 | moving the headers keeps the packet and the consistency of len and data_len |
| `Nss.Shim.NssReceive` | rmnet-nss/src/rmnet_nss.c:275-318 | when an exception packet is passed up and with which bytes and protocol; each exception is counted once by its outcome |
| `Nss.Shim.NssTx` | rmnet-nss/src/rmnet_nss.c:329-393 | every offered packet ends in exactly one place, which the outcome of each check decides |
| `Nss.FateIff` | rmnet-nss/src/rmnet_nss.c:310-400 | exactly when an offered packet is lost, taken or passed up |
| `Nss.Shim.RxHandler` | pcie_mhi/src/devices/mhi_netdev_quectel.c:1196-1221 | which packets are passed, and that the mark set by the shim is used up |
| `Nss.Shim.NetifReceive` | pcie_mhi/src/devices/mhi_netdev_quectel.c:1196-1221 | a valid packet refused with NOT_ENABLED comes back with its bytes and protocol and is passed up once instead of being offered again |

## Left out

- RSC and offload channels, pre-allocated buffers: no configured channel uses them, and RSC breaks the lockstep of the two rings by design.
- The command and timesync rings: commands appear as the votes held around them and as whether the device answered; doorbells of the command and event rings are not modelled.
- ControlRings.ProcessControl: command completions and execution environment changes only wake other code, so they leave the host as it is; the device adds no event during the call.
- The `dev_wake` counters: the code that would count is unreachable.
- HostImpl.Controller.ResetData: clients queue nothing from a callback with -ENOTCONN; the clients of this repository free the buffer there.
- Doorbells.NoWakeUpLost: says nothing of a burst channel between an emptying of the event rings and its next start; the driver empties them after it has removed the channels' devices.
- EventRings.EventRing.ProcessData: the device adds no event during the call; it may do so between calls.
- Uci.UciDev.QueueInbound: no completion is handled while the node is being opened.
- Uci.OpenAndServe: the bytes that a reader-driven node delivers after it has lost a buffer are not described; which buffers it then holds and how its reads end is `UciSlots.Play`.
- Aggregators.Aggregator.Drive: one network device's aggregator; `Aggregators.SharedLink` speaks of several. The clock and the skip test are arbitrary booleans.
- QmapDecoders.PcieDecode: what a flow-control command does is not modelled, only that it is skipped.
- Mbim.MbimContext.Handle: a little-endian host; some fields are read and written without conversion.
- Nss.Shim.NssTx: the lookup of a context in the hash table is a set membership; statistics other than those of the exception path are left out.
- Firmware.Controller.AllocTable: sizes are unbounded integers; the 32-bit segment count is not modelled.
- Concurrency below critical sections, memory ordering and lock-level races; one queuer per channel is assumed.
- PCI probing, interrupts, register access, DMA mapping, debugfs, sysfs, ioctls, statistics, bridge mode, ARP and MAC rewriting.
