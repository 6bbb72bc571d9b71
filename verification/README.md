# Amber, modelled in Dafny

Amber is a micro virtual machine monitor for arm64, written in Rust. This project models the parts of it where
correctness is hardest to see and proves what they keep over whole runs.

Stateful code is a class whose methods are proved against functions on values; what those functions keep is then
proved over every run, by induction on the list of events. Threads are a state machine whose runs are all
interleavings of its actions.

| files | part of Amber | main results |
|---|---|---|
| GicSpec, GicCodec, GicRuns, GicRegisters, GicV2 | software GICv2 | arbitration, every register by address, bounded stacks, lossless snapshots, one-CPU delivery, nesting |
| VsockSpec, VsockWire, VsockCredit, VsockRuns, VsockBoot, VsockLife, VsockTable, VsockPump, VsockPolls, VsockDevice | virtio-vsock device | byte conservation, credit safety in both directions, opening and closing, frame sizes, port allocation |
| GuestRam, RingIndex, Virtqueue, VirtqueueRuns, DriverChains, VirtioMmio | virtqueues | chains as the driver laid them out, in-order publication and delivery, frames conserved |
| Quiesce, Psci | vcpu threads | snapshot barrier, pause gate, stop, CPU_ON |
| Fleet, Limiter | daemon, rate limiter | admission budget, warm pool, rate bound from both sides |
| Nat, Console, Cpio | netstack, PL011, initramfs writer | NAT inverse, console marker, archive round trip |
| Words | shared arithmetic | wrap-around, little-endian fields |

`dafny verify dfyconfig.toml` checks everything.

## Where code and documentation disagree

The model follows the code.

- `poll_rx` promises a frame that fits the posted buffer (crates/amber-core/src/vsock.rs:471-474). A packet queued for
  a larger buffer is returned as it is: `VsockPolls.StaleFrameTooLarge`. `VsockPolls.FitsIff` says for which buffer
  sizes the promise holds, `VsockPolls.GrowingBuffersFit` that buffers which never shrink are safe.
- `pump_rx` is documented to drop frames without a buffer (crates/amber-core/src/virtio.rs:310-312). It holds one back.
- `reserve` is documented to protect the budget (crates/amber/src/daemon.rs:147-151). Its 64-bit sums wrap in a release
  build: `Fleet.AdmissionCanWrap`, with the exact condition in `Fleet.BudgetKeptIff`.
- The token count is documented to go negative (crates/amber-core/src/limiter.rs:14-15). `debit` sets it to zero and
  moves `last` ahead instead; `Limiter.RateBound` needs the waits to be slept off, as
  `Limiter.UnhonouredDebitsExceed` shows; `Limiter.DebitsBoundIff` is the exact condition without.
- `restore` is documented never to panic and, for the versioned layout, never to shrink the banks
  (crates/amber-hvf/src/gicv2.rs:278-300). The older layout leaves one bank, however many the GIC had:
  `GicCodec.LegacyMigrates`.
- End of file on the control channel is documented to stop the vcpu so that the run unwinds
  (crates/amber-core/src/vm.rs:930-938). A primary that waits at the pause gate does not look at the flag:
  `Quiesce.StoppedNeverEnds`, with the exact condition in `Quiesce.StopUnwindsIff`. A secondary does, and runs the guest
  once more: `Quiesce.PausedGuestRuns`.
- An EOIR write pops a priority even if the INTID it names is not active: `GicRuns.SpuriousIffIdle`.

## Assumptions in the models

- What host sockets answer, dial and accept results, the egress policy, clock readings and device handlers are
  parameters or nondeterministic choices.
- A device handler writes only the writable buffers of its chain. The block device also writes its status byte at the
  last descriptor, whatever its flags (crates/amber-core/src/virtio.rs:655), and the model allows it to. The run theorems
  of the virtqueue ask the driver to keep at most queue-size buffers outstanding, the queue size a power of two and what
  its device may write off the rings.
- `VsockRuns` follows one connection while the device meets no second REQUEST for its ports; `VsockTable` covers those.
- A thread that has loaded the snapshot request as true does not load false later; it may load false for any time
  after the store. The clock of the rate limiter does not go backwards.
- Fixed-size Rust arrays and vectors are sequence fields.

## Model

| member | source | states |
|---|---|---|
| `GicSpec.Reset` | crates/amber-hvf/src/gicv2.rs:137-150 | power-on state: the CPU count is clamped to 1..8 and every array has its size |
| `GicSpec.LeastExists` | crates/amber-hvf/src/gicv2.rs:193-214 | whenever some INTID is deliverable, a deliverable INTID least in (priority, INTID) order exists |
| `GicSpec.BestIsLeast` | crates/amber-hvf/src/gicv2.rs:193-214 | arbitration is total and unambiguous: nothing is chosen exactly when nothing is deliverable, and an INTID is chosen exactly when it is the least deliverable one |
| `GicSpec.DistWriteFrame` | crates/amber-hvf/src/gicv2.rs:466-534 | no distributor write changes a running stack, and only the active registers change an active bit |
| `GicSpec.ApplyFrame` | crates/amber-hvf/src/gicv2.rs:466-622 | every access keeps all sizes; only IAR reads and EOIR writes touch the stacks, only those and active-register writes touch the active bits |
| `GicDevice.GicV2.constructor` | crates/amber-hvf/src/gicv2.rs:137-150 | a new GIC is in the power-on state |
| `GicDevice.GicV2.HighestPending` | crates/amber-hvf/src/gicv2.rs:193-214 | the scan returns the declaratively least deliverable INTID and its priority, or none |
| `GicDevice.GicV2.IrqPending` | crates/amber-hvf/src/gicv2.rs:218-220 | the IRQ line of a CPU is up exactly when its interface is enabled and an INTID is deliverable |
| `GicDevice.GicV2.SetLevel` | crates/amber-hvf/src/gicv2.rs:232-241 | a line change sets the level and makes the INTID level-triggered in its own bank or block; out-of-range INTIDs do nothing |
| `GicDevice.GicV2.Acknowledge` | crates/amber-hvf/src/gicv2.rs:586-611 | an IAR read returns the best INTID with the sender of an SGI in bits 10 and up, activates it, consumes its edge latch and stacks its priority; 1023 and no change when idle |
| `GicDevice.GicV2.EndOfInterrupt` | crates/amber-hvf/src/gicv2.rs:614-622 | an EOIR write clears the active bit it names, if any, and pops one priority whatever it names |
| `GicDevice.GicV2.CpuRead` | crates/amber-hvf/src/gicv2.rs:559-571 | only a read of IAR changes state; the value is that of the register, cut to the access |
| `GicDevice.GicV2.CpuWrite` | crates/amber-hvf/src/gicv2.rs:573-581 | CTLR, PMR and EOIR writes, by word-aligned offset |
| `GicDevice.GicV2.SetBits` | crates/amber-hvf/src/gicv2.rs:636-651 | a set/clear register write changes exactly the INTIDs whose bit is set, private ones in the bank and shared ones in the shared block |
| `GicDevice.GicV2.SetPriorities` | crates/amber-hvf/src/gicv2.rs:466-534 | a priority write of any size stores its bytes at consecutive INTIDs, each in its own block |
| `GicDevice.GicV2.SetTargets` | crates/amber-hvf/src/gicv2.rs:466-534 | a target write stores its bytes for shared INTIDs only, masked to the CPUs that exist |
| `GicDevice.GicV2.SetConfig` | crates/amber-hvf/src/gicv2.rs:466-534 | an edge/level configuration write affects INTIDs from 16 up, by the odd bit of each field |
| `GicDevice.GicV2.Sgir` | crates/amber-hvf/src/gicv2.rs:539-554 | an SGI write pends the SGI with its sender on exactly the CPUs that the filter and list select |
| `GicDevice.GicV2.DistWrite` | crates/amber-hvf/src/gicv2.rs:466-534 | the whole distributor write map |
| `GicDevice.GicV2.Capture` | crates/amber-hvf/src/gicv2.rs:253-276 | the blob is the encoding of the state, stacks cut at 255 entries |
| `GicDevice.GicV2.Restore` | crates/amber-hvf/src/gicv2.rs:281-399 | loads a blob of any bytes, its first byte telling the layout |
| `GicDevice.GicV2.RestoreV2` | crates/amber-hvf/src/gicv2.rs:289-352 | the versioned layout: missing bytes read as zero, never fewer banks than before, extra banks reset |
| `GicDevice.GicV2.RestoreLegacy` | crates/amber-hvf/src/gicv2.rs:356-399 | the flat single-CPU layout: private INTIDs into the one bank, the others into the shared block, all routed to it |
| `GicCodec.LoadOfCapture` | crates/amber-hvf/src/gicv2.rs:253-287 | a captured blob is never taken for the older layout and loads as its state, stacks capped and extra banks at reset |
| `GicCodec.LegacyMigrates` | crates/amber-hvf/src/gicv2.rs:356-399 | CPU 0 sees every INTID as the single-CPU snapshot had it; the GIC is left with one bank, however many it had |
| `GicCodec.RestoreOfCapture` | crates/amber-hvf/src/gicv2.rs:253-352 | restore after capture, for every state and every bank count of the target, gives back the state with stacks capped and extra banks at reset |
| `GicCodec.LosslessIff` | crates/amber-hvf/src/gicv2.rs:253-352 | the round trip is exact if and only if no running stack is longer than 255 |
| `GicRuns.AckThenEoi` | crates/amber-hvf/src/gicv2.rs:586-622 | writing to EOIR what IAR returned undoes the acknowledge, source bits or not, except for the consumed edge latch |
| `GicRuns.SpuriousIffIdle` | crates/amber-hvf/src/gicv2.rs:586-622 | IAR is 1023 exactly when nothing is deliverable and then changes nothing; an EOIR of 1023 pops a level all the same |
| `GicRuns.PrivateAckIsLocal` | crates/amber-hvf/src/gicv2.rs:586-611 | acknowledging a private INTID leaves every other bank and the shared block alone |
| `GicRuns.SgiNamesSender` | crates/amber-hvf/src/gicv2.rs:539-611 | an SGI write changes only the CPUs it selects; there the SGI is pending and, once delivered, IAR names it and its sender |
| `GicRuns.StepDescends` | crates/amber-hvf/src/gicv2.rs:586-622 | every access keeps each running stack strictly decreasing and below the idle priority |
| `GicRuns.StacksAlwaysDescend` | crates/amber-hvf/src/gicv2.rs:586-622 | in every state reachable by boots, accesses and restores each running stack is strictly decreasing, hence at most 255 long |
| `GicRuns.SnapshotLossless` | crates/amber-hvf/src/gicv2.rs:253-352 | so the snapshot of any reachable GIC restores exactly, into any reachable GIC |
| `GicRuns.StepKeepsActive` | crates/amber-hvf/src/gicv2.rs:466-622 | an active shared INTID stays active unless an access names it in EOIR or ICACTIVER |
| `GicRuns.SharedDeliveredOnce` | crates/amber-hvf/src/gicv2.rs:586-622 | over every run, from the IAR read that returns a shared INTID to its deactivation no CPU is handed it again |
| `GicRuns.StepNests` | crates/amber-hvf/src/gicv2.rs:586-622 | one access of a disciplined driver keeps the nesting invariant |
| `GicRuns.RunNests` | crates/amber-hvf/src/gicv2.rs:586-622 | over every run in which each CPU ends its interrupts in reverse order, the held INTIDs are distinct and active and each stack is its initial stack followed by the held priorities in order |
| `GicRuns.BalancedRunRestores` | crates/amber-hvf/src/gicv2.rs:586-622 | a run that ends every interrupt it took gives back the running stacks it started from |
| `GicRegisters.WriteSetEnable` | crates/amber-hvf/src/gicv2.rs:500-502 | a write to 0x100 on sets exactly the enable bits its value has, of the private INTIDs in the bank of the CPU and of the others in the shared block, and changes nothing else |
| `GicRegisters.WriteClearEnable` | crates/amber-hvf/src/gicv2.rs:503-505 | a write to 0x180 on clears exactly the enable bits its value has |
| `GicRegisters.WriteSetPending` | crates/amber-hvf/src/gicv2.rs:506-508 | a write to 0x200 on latches exactly the INTIDs its value has |
| `GicRegisters.WriteClearPending` | crates/amber-hvf/src/gicv2.rs:509-511 | a write to 0x280 on clears exactly their latches |
| `GicRegisters.WriteSetActive` | crates/amber-hvf/src/gicv2.rs:512-514 | a write to 0x300 on sets exactly the active bits its value has |
| `GicRegisters.WriteClearActive` | crates/amber-hvf/src/gicv2.rs:515-517 | a write to 0x380 on clears exactly them |
| `GicRegisters.WritePriority` | crates/amber-hvf/src/gicv2.rs:470-482 | a write to 0x400 on makes its bytes the priorities of consecutive INTIDs |
| `GicRegisters.WriteTargets` | crates/amber-hvf/src/gicv2.rs:483-497 | a write to 0x800 on routes a shared INTID to exactly the CPUs its byte names that exist, and leaves the private ones |
| `GicRegisters.WriteConfig` | crates/amber-hvf/src/gicv2.rs:518-530 | a write to 0xc00 on makes INTIDs from 16 up edge- or level-triggered by the upper of their two bits |
| `GicRegisters.WriteDistControl` | crates/amber-hvf/src/gicv2.rs:499-499 | bit 0 of a write to 0x000 switches the distributor |
| `GicRegisters.WriteSgi` | crates/amber-hvf/src/gicv2.rs:539-554 | a write to 0xf00 posts the SGI with its sender to exactly the CPUs that list or filter select |
| `GicRegisters.DriveLine` | crates/amber-hvf/src/gicv2.rs:232-241 | a driven line changes the level of its INTID, makes it level-triggered and changes nothing else |
| `GicRegisters.LevelDeliveredIff` | crates/amber-hvf/src/gicv2.rs:193-611 | from power-on, for any values a driver writes: IAR returns an INTID whose line is driven if and only if the distributor is on and it is enabled, routed here, above the mask and high; ICENABLER withdraws it if and only if it has its bit |
| `GicRegisters.EdgeDeliveredIff` | crates/amber-hvf/src/gicv2.rs:193-611 | the same for an INTID latched through ISPENDR: if and only if it is configured edge-triggered, SGIs always; ICPENDR withdraws it |
| `GicRegisters.AfterHandling` | crates/amber-hvf/src/gicv2.rs:586-622 | while an interrupt is handled nothing is delivered; afterwards a line still high is delivered again and a consumed edge is not |
| `GicDevice.CpuReadsBack` | crates/amber-hvf/src/gicv2.rs:559-571 | CTLR and PMR read back what was written, RPR is 0xff or the priority being handled, HPPIR names what IAR would take |
| `GicCodec.BlobOffsets` | crates/amber-hvf/src/gicv2.rs:289-352 | where every field of a versioned one-CPU blob is read from |
| `GicCodec.CapturedHead` | crates/amber-hvf/src/gicv2.rs:253-258 | a captured blob starts with 0xa2, 2, the CPU count and the distributor state |
| `GicCodec.LegacyOffsets` | crates/amber-hvf/src/gicv2.rs:356-399 | where every field of the older layout is read from |
| `VsockSpec.Find` | crates/amber-core/src/vsock.rs:204-206 | lookup returns a connection with these ports, and none exactly when no connection has them |
| `VsockSpec.ScanFindsFirst` | crates/amber-core/src/vsock.rs:175-184 | the port scan stops at the first port, in cyclic order from the cursor, not in use with this guest port |
| `VsockSpec.FullScanCovers` | crates/amber-core/src/vsock.rs:175-184 | a full scan meets every port of the range exactly once |
| `VsockSpec.AllocateFindsFree` | crates/amber-core/src/vsock.rs:175-184 | the allocator returns an unused pair if and only if one exists, and stays in the range |
| `VsockSpec.PortNotReusedEarly` | crates/amber-core/src/vsock.rs:175-184 | over any run of allocations, whatever the tables, between two calls that find the same port the cursor passes over every other port |
| `VsockDevice.Device.constructor` | crates/amber-core/src/vsock.rs:163-171 | an empty device, its cursor at 1024 |
| `VsockDevice.Device.FindConn` | crates/amber-core/src/vsock.rs:204-206 | the loop finds the first connection with these ports |
| `VsockDevice.Device.AllocHostPort` | crates/amber-core/src/vsock.rs:175-184 | port handed out and cursor left by the bounded scan |
| `VsockDevice.Device.Send` | crates/amber-core/src/vsock.rs:188-202 | queues the encoded bytes of one packet with the device window and the given counter |
| `VsockDevice.Device.OnGuestPacket` | crates/amber-core/src/vsock.rs:209-291 | for any bytes: short or misaddressed packets do nothing, others have the effect of their operation on the one matching connection |
| `VsockDevice.Device.Dispatch` | crates/amber-core/src/vsock.rs:226-291 | the effect of each operation on table and queue |
| `VsockDevice.Device.OnConnection` | crates/amber-core/src/vsock.rs:257-289 | RESPONSE, RW with its overflow reset, SHUTDOWN and RST on their own connection |
| `VsockDevice.Device.DrainToHost` | crates/amber-core/src/vsock.rs:316-344 | for any answers of the host socket: the connection afterwards and whether bytes moved |
| `VsockDevice.Device.Settle` | crates/amber-core/src/vsock.rs:316-349 | a credit update follows exactly when bytes moved on an open connection |
| `VsockDevice.Device.FillFromHost` | crates/amber-core/src/vsock.rs:351-382 | for any answers: the connection and packets made, within credit window and buffer; it ends because the window shrinks |
| `VsockDevice.Device.Service` | crates/amber-core/src/vsock.rs:316-383 | one connection has its whole turn |
| `VsockDevice.Device.ServiceAll` | crates/amber-core/src/vsock.rs:316-383 | every connection has its turn, packets in table order |
| `VsockDevice.Device.AcceptWaiting` | crates/amber-core/src/vsock.rs:297-314 | each waiting host peer gets a fresh connection and a REQUEST |
| `VsockDevice.Device.ReapFinished` | crates/amber-core/src/vsock.rs:384-396 | drops exactly the finished connections and tells the guest of each |
| `VsockDevice.Device.Pump` | crates/amber-core/src/vsock.rs:296-397 | for any answers of the host: the whole new state; it is reached by permitted steps ending in a reap and no finished connection survives |
| `VsockPump.PumpedReached` | crates/amber-core/src/vsock.rs:296-397 | whatever the host answers, a pump is a sequence of permitted device steps ending in a reap |
| `VsockPump.PumpedWithin` | crates/amber-core/src/vsock.rs:296-397 | no packet a pump makes carries more than it was given, nor more than a 32-bit window |
| `VsockPump.WillingHostFlushes` | crates/amber-core/src/vsock.rs:316-344 | a host that keeps taking bytes gets everything that waited, in order |
| `VsockPump.FillStops` | crates/amber-core/src/vsock.rs:351-382 | a host that always has data is read until its answers or the credit are used up |
| `VsockDevice.Device.PollRx` | crates/amber-core/src/vsock.rs:475-480 | returns the bytes of the oldest packet, after a pump if none was queued; a guest reader decodes them to that packet |
| `VsockPolls.FrameWithinMade` | crates/amber-core/src/vsock.rs:475-480 | over every run of polls and guest packets from boot, a polled frame is no larger than the buffer of the poll whose pump made it |
| `VsockPolls.GrowingBuffersFit` | crates/amber-core/src/vsock.rs:471-480 | over every run from boot, a poll whose buffer is no smaller than any before it gets a frame that fits |
| `VsockPolls.FitsIff` | crates/amber-core/src/vsock.rs:471-480 | for any two buffer sizes, frames made for the one always fit the other if and only if it is no smaller or holds the largest frame there is |
| `VsockDevice.WindowShrinks` | crates/amber-core/src/vsock.rs:138-143 | sending within the window takes exactly that much off it, across counter wrap |
| `VsockPolls.StaleFrameTooLarge` | crates/amber-core/src/vsock.rs:471-480 | the documented promise fails: a run from boot after which a poll with a 1000-byte buffer gets a frame of 4096 bytes |
| `VsockWire.HeaderRoundTrip` | crates/amber-core/src/vsock.rs:188-202 | the 44-byte little-endian header decodes to the fields that were encoded |
| `VsockWire.PacketRoundTrip` | crates/amber-core/src/vsock.rs:188-222 | packets survive the trip in both directions: what a guest encodes is what the device parses, what the device queues is what a guest reads |
| `VsockWire.HeaderLayout` | crates/amber-core/src/vsock.rs:188-202 | the place of each of the ten header fields |
| `VsockWire.GuestFrameBytes` | crates/amber-core/src/vsock.rs:188-202 | the bytes of a packet for the guest: from CID 2, host port first, stream type, no flags, then the payload |
| `VsockWire.ParsedBytes` | crates/amber-core/src/vsock.rs:209-222 | any bytes that hold a header for CID 2 are taken, each field from its place, the payload cut to what is there |
| `VsockCredit.StepConserves` | crates/amber-core/src/vsock.rs:209-397 | every step of device, guest and host keeps, for one connection, both byte streams in order and both counters equal to the totals modulo 2^32 |
| `VsockCredit.NoOverflow` | crates/amber-core/src/vsock.rs:209-291 | under the credit invariant the next guest packet fits the device buffer |
| `VsockCredit.StepCredited` | crates/amber-core/src/vsock.rs:209-397 | each step of a guest that keeps to its credit keeps the credit invariant, acknowledgements in flight included |
| `VsockCredit.WindowExact` | crates/amber-core/src/vsock.rs:138-143 | the 32-bit window equals the true window, however often the counters have wrapped |
| `VsockCredit.StepWindowed` | crates/amber-core/src/vsock.rs:209-397 | each step of a guest that reports truthfully keeps the window invariant |
| `VsockCredit.UnconsumedBounded` | crates/amber-core/src/vsock.rs:138-143 | bytes given to the guest and not consumed never exceed the buffer it offers |
| `VsockRuns.StepSimulates` | crates/amber-core/src/vsock.rs:209-397 | each step of the whole device, with any number of connections, is a step or no step of any one connection seen alone |
| `VsockRuns.RunGuarantees` | crates/amber-core/src/vsock.rs:209-397 | so the one-connection invariants hold over every run of the whole system, conservation from any opening state |
| `VsockRuns.BytesConserved` | crates/amber-core/src/vsock.rs:209-397 | over every run of a connection, whatever the guest does, has queued or is owed when it opens: the buffer is bounded, bytes to the host are exactly those accepted and in order, bytes to the guest grow by exactly those the host gave and in order |
| `VsockBoot.OpensBegins` | crates/amber-core/src/vsock.rs:233-256 | every connection opened in any run from boot, by accept or by a dialed REQUEST, begins where the run theorems start |
| `VsockBoot.BytesConservedFromBoot` | crates/amber-core/src/vsock.rs:209-397 | the same conservation for every connection opened in any run from boot |
| `VsockBoot.CreditKeptFromBoot` | crates/amber-core/src/vsock.rs:209-397 | for every connection opened from boot on ports not used before, a guest that keeps to its credit is sent no RST and nothing it sent is lost |
| `VsockBoot.WindowKeptFromBoot` | crates/amber-core/src/vsock.rs:296-397 | for every such connection, a guest that reports truthfully is never sent more than it can hold |
| `VsockLife.PeerOffered` | crates/amber-core/src/vsock.rs:296-315 | from boot a waiting host peer becomes a connection that is down on port 1024, offered by a REQUEST |
| `VsockLife.ResponseOpens` | crates/amber-core/src/vsock.rs:257-261 | a RESPONSE brings its connection up with the credit it offers, touches no other and is not answered |
| `VsockLife.PumpCarries` | crates/amber-core/src/vsock.rs:352-381 | on any device a pump queues for the guest what the host has for an open connection with credit |
| `VsockLife.OpensFromBoot` | crates/amber-core/src/vsock.rs:257-381 | from boot: accept, RESPONSE with credit, and the next pump carries the host bytes |
| `VsockLife.DownIsSilent` | crates/amber-core/src/vsock.rs:344-352 | nothing is sent to the guest on a connection that is not up |
| `VsockLife.PumpReaps` | crates/amber-core/src/vsock.rs:384-397 | whatever else a pump does, a connection its turn leaves finished is dropped with exactly one SHUTDOWN, another is kept with none |
| `VsockLife.GuestCloses` | crates/amber-core/src/vsock.rs:282-288 | a SHUTDOWN or RST takes its connection down and marks it done |
| `VsockLife.CloseReaped` | crates/amber-core/src/vsock.rs:282-397 | after it, and while the host takes what waits, the next pump drops the connection and says so once |
| `VsockLife.EndOfStreamReaped` | crates/amber-core/src/vsock.rs:351-397 | end of stream on an open connection with nothing waiting does the same |
| `VsockLife.SilentHostKeeps` | crates/amber-core/src/vsock.rs:316-397 | a connection whose host says nothing is kept as it is |
| `VsockLife.RequestAnswered` | crates/amber-core/src/vsock.rs:234-256 | a REQUEST is answered by RESPONSE and an open connection if the dial succeeded, by RST if not |
| `VsockLife.DataTaken` | crates/amber-core/src/vsock.rs:262-276 | data within 256 KiB of buffer waits for the host, more ends the connection with RST |
| `VsockLife.CreditAnswered` | crates/amber-core/src/vsock.rs:277-280 | a credit request is answered by the bytes the host has taken |
| `VsockLife.OthersIgnored` | crates/amber-core/src/vsock.rs:209-291 | packets without a connection and unknown operations do nothing but refresh credit |
| `VsockLife.PumpTellsCredit` | crates/amber-core/src/vsock.rs:317-348 | when the host takes the bytes of an open connection the pump tells the guest the new total |
| `VsockLife.TurnTellsCredit` | crates/amber-core/src/vsock.rs:317-381 | and tells it before any data of that turn |
| `VsockLife.FailureEnds` | crates/amber-core/src/vsock.rs:337-381 | a failing write, a failing read and end of stream mark the connection done |
| `VsockTable.StepSound` | crates/amber-core/src/vsock.rs:209-397 | any guest packet and any host step keeps the account of every connection in the table |
| `VsockTable.EveryConnectionAccounted` | crates/amber-core/src/vsock.rs:209-397 | over every run from boot, second REQUESTs for live ports included: no connection buffers more than it advertises, each host socket has the beginning of what was accepted, both counters are exact modulo 2^32, and none was dropped with accepted bytes undelivered |
| `VsockRuns.CreditKeeperNeverReset` | crates/amber-core/src/vsock.rs:209-291 | over every run a guest that keeps to the credit it was told is never sent RST and loses nothing |
| `VsockRuns.GuestNeverOverrun` | crates/amber-core/src/vsock.rs:138-143 | over every run a guest that reports truthfully is never sent more than its buffer holds |
| `GuestMemory.GuestRam.InRange` | crates/amber-core/src/memory.rs:134-143 | a range is accepted exactly when it lies inside RAM, without address overflow |
| `GuestMemory.GuestRam.Read` | crates/amber-core/src/memory.rs:152-160 | copies an in-range region into the buffer, or fails and leaves the buffer as it was |
| `GuestMemory.GuestRam.Write` | crates/amber-core/src/memory.rs:162-170 | writes an in-range region and nothing else, or fails and changes nothing |
| `GuestMemory.GuestRam.ReadTyped` | crates/amber-core/src/memory.rs:172-188 | little-endian value of an in-range field, zero out of range |
| `GuestMemory.GuestRam.WriteTyped` | crates/amber-core/src/memory.rs:190-196 | stores a little-endian field if in range |
| `Words.TwoBytes` | crates/amber-core/src/memory.rs:172-196 | the least significant byte comes first |
| `Words.FourBytes` | crates/amber-core/src/memory.rs:172-196 | the same for four bytes |
| `GuestMemory.ReadWritten` | crates/amber-core/src/memory.rs:172-196 | a field written in range reads back |
| `GuestMemory.ReadOther` | crates/amber-core/src/memory.rs:152-196 | a read apart from a write is unaffected by it |
| `RingIndex.SlotStableIff` | crates/amber-core/src/virtio.rs:347-381 | the ring slot of a 16-bit index is that of the true count, across every wrap, if and only if the queue size divides 65536 |
| `RingIndex.Low16Distance` | crates/amber-core/src/virtio.rs:347-381 | 16-bit indices give the true distance of two counts less than 65536 apart |
| `RingIndex.SlotIsMod` | crates/amber-core/src/virtio.rs:347-381 | a ring slot is the index modulo the queue size |
| `Virtqueue.BufAt` | crates/amber-core/src/virtio.rs:388-413 | a descriptor becomes a buffer of at most 16 MiB lying in RAM, or of length zero, whatever the table holds |
| `Virtqueue.Chain` | crates/amber-core/src/virtio.rs:388-413 | a chain has at most queue-size buffers, all sound, for any RAM contents |
| `Virtqueue.ScatterGather` | crates/amber-core/src/virtio.rs:451-475 | a frame spilled over a chain of disjoint writable buffers reads back whole if it fits and as its beginning otherwise |
| `Virtqueue.ScatterKeeps` | crates/amber-core/src/virtio.rs:451-475 | spilling a frame touches nothing outside the writable buffers |
| `Virtqueue.StoreConfinedIff` | crates/amber-core/src/virtio.rs:655-655 | the block device's status byte stays within the writable buffers of a chain, whatever its value, if and only if one of them covers its address or it is not in RAM |
| `Virtqueue.StatusConfined` | crates/amber-core/src/virtio.rs:593-656 | in particular when the last descriptor is writable and nonempty |
| `Virtqueue.StatusPlace` | crates/amber-core/src/virtio.rs:593-656 | the block device may also write the status byte of a chain of two or more; no other device and no shorter chain gets that |
| `DriverChains.ChainReadsBack` | crates/amber-core/src/virtio.rs:388-413 | a chain a driver lays out, as 16-byte descriptors linked by next with flag bits 0 and 1, is collected descriptor by descriptor, cut at the queue size, lengths at 16 MiB and to nothing outside RAM |
| `DriverChains.ChainIsList` | crates/amber-core/src/virtio.rs:388-413 | so buffers in RAM and of sane length arrive exactly as laid out |
| `DriverChains.LaysOut` | crates/amber-core/src/virtio.rs:388-413 | a driver that writes its descriptors at distinct indices has laid the chain out |
| `DriverChains.PostedIsTaken` | crates/amber-core/src/virtio.rs:347-413 | at any point of any run, a chain laid out and posted on an idle queue is the one the device takes next |
| `VirtqueueRuns.PushUsedOwn` | crates/amber-core/src/virtio.rs:415-424 | publishing stores the head in the slot of the used index |
| `VirtqueueRuns.PushUsedLength` | crates/amber-core/src/virtio.rs:415-424 | publishing stores the byte count beside it |
| `VirtqueueRuns.PushUsedIndex` | crates/amber-core/src/virtio.rs:415-424 | publishing increments the used index modulo 2^16 |
| `VirtqueueRuns.PushUsedApart` | crates/amber-core/src/virtio.rs:415-424 | publishing touches nothing outside the used ring |
| `VirtqueueRuns.UsedElementWritten` | crates/amber-core/src/virtio.rs:415-424 | id, length and index at the addresses a driver reads them from |
| `VirtqueueRuns.HeadIsNext` | crates/amber-core/src/virtio.rs:347-381 | the head the device reads is the oldest posted and not yet published, across index wraps |
| `VirtqueueRuns.StepKeeps` | crates/amber-core/src/virtio.rs:347-381 | posting, guest writes off the rings, a notify and an injection keep the rings in step with the history |
| `VirtqueueRuns.PublishedInOrder` | crates/amber-core/src/virtio.rs:347-424 | over every run: the published ids are the posted heads, each once and in posting order, all of them after a notify, and the used ring shows the last queue-size of them |
| `VirtqueueRuns.PublishedFromReady` | crates/amber-core/src/virtio.rs:347-424 | the same from any queue just made ready, both indices zero: the published ids are a prefix of the heads the driver posted over the run |
| `VirtqueueRuns.ReceivableIff` | crates/amber-core/src/virtio.rs:451-458 | across index wraps the device sees a buffer exactly if one was posted and not yet published |
| `VirtqueueRuns.InjectDelivers` | crates/amber-core/src/virtio.rs:451-475 | an injected frame is read back by the guest from the published chain, with its head and the byte count in the used ring |
| `VirtqueueRuns.DeliveredInOrder` | crates/amber-core/src/virtio.rs:451-475 | over every run of posts, guest writes and injections, across index wraps, the k-th frame went into the chain at the k-th posted head and the used ring lists those heads in order |
| `VirtqueueRuns.DeliveredFromReady` | crates/amber-core/src/virtio.rs:451-475 | the same from any receive queue just made ready |
| `VirtqueueRuns.FrameStays` | crates/amber-core/src/virtio.rs:451-475 | an injected frame is readable at once and stays so over every run whose steps spare its chain |
| `VirtioTransport.VirtioMmio.CollectChain` | crates/amber-core/src/virtio.rs:388-413 | the walk computes the bounded chain |
| `VirtioTransport.VirtioMmio.PublishUsed` | crates/amber-core/src/virtio.rs:415-424 | RAM after one used element is pushed |
| `VirtioTransport.VirtioMmio.Process` | crates/amber-core/src/virtio.rs:347-381 | a notify handles exactly the pending chains, never more than the queue size, in order, publishing each; other queues are left alone and the interrupt is raised if and only if something was served or it was up |
| `VirtioTransport.VirtioMmio.ServeAll` | crates/amber-core/src/virtio.rs:361-377 | the serving loop: pending chains in order, at most the queue size |
| `VirtioTransport.VirtioMmio.ServeHead` | crates/amber-core/src/virtio.rs:365-372 | one chain: the device writes only its writable buffers and, if it is the block device, one byte at the last descriptor; then head and byte count are published |
| `VirtioTransport.VirtioMmio.NextRxCapacity` | crates/amber-core/src/virtio.rs:429-446 | the writable capacity of the next posted chain, none if there is none |
| `VirtioTransport.VirtioMmio.InjectOne` | crates/amber-core/src/virtio.rs:451-475 | delivers one frame into the next chain, or reports that there is none and changes nothing |
| `VirtioTransport.VirtioMmio.PumpFresh` | crates/amber-core/src/virtio.rs:313-345 | polls and injects until the device has no more or no chain is posted; the one frame then undeliverable is held |
| `VirtioTransport.VirtioMmio.PumpRx` | crates/amber-core/src/virtio.rs:313-345 | held and polled frames are injected in order or the last is held, even if the guest rewrites RAM in between; it stops early only for want of a posted chain |
| `VirtioTransport.VirtioMmio.PumpRounds` | crates/amber-core/src/virtio.rs:313-345 | over any number of pumps, the guest running in between, every polled frame is injected once and in poll order, except at most one still held |
| `Quiesce.StepKeeps` | crates/amber-core/src/vm.rs:533-651 | every action of every vcpu thread and of the control reader keeps the barrier invariant, stale loads of the request and a stop at any moment included |
| `Quiesce.BarrierSafe` | crates/amber-core/src/vm.rs:552-600 | over every interleaving: once the primary has the deposits no secondary is in the guest or a device, and the image is the live registers, RAM and devices, and the live GIC unless a host thread has set a line since its capture |
| `Quiesce.SnapshotTaken` | crates/amber-core/src/vm.rs:552-600 | for any number of vcpus some run from boot writes the image of the whole machine |
| `Quiesce.LateInputMissed` | crates/amber-core/src/vm.rs:585-600 | a run from boot in which a line set after the GIC capture is missing from the image |
| `Quiesce.LastDepositFreezes` | crates/amber-core/src/vm.rs:779-803 | the last deposit freezes the machine if the primary still waits for it |
| `Quiesce.FrozenUntilDump` | crates/amber-core/src/vm.rs:552-600 | from then on no action changes registers, RAM or devices, and only host threads the GIC, so the image holds what they were |
| `Quiesce.QuietReached` | crates/amber-core/src/vm.rs:533-543 | a run from boot to a paused VM with every vcpu at its gate |
| `Quiesce.PauseHolds` | crates/amber-core/src/vm.rs:533-543 | once every vcpu is at its gate a pause keeps registers, RAM and devices still over every run without a resume or a stop |
| `Quiesce.StopOpensGate` | crates/amber-core/src/vm.rs:804-811 | a stop lets a paused secondary at its gate run the guest once more |
| `Quiesce.PausedGuestRuns` | crates/amber-core/src/vm.rs:804-811 | a run from boot in which the control channel closes while the VM is paused and a secondary then changes RAM |
| `Quiesce.StopUnwindsIff` | crates/amber-core/src/vm.rs:533-651 | once the VM is stopped and its control channel closed, the loop of the primary can end if and only if the primary is not waiting at its gate in a pause |
| `Quiesce.StoppedNeverEnds` | crates/amber-core/src/vm.rs:925-938 | a run from boot in which the control channel of a paused VM closes and from which no run ends the primary |
| `Quiesce.EndStops` | crates/amber-core/src/vm.rs:637-651 | over every run the VM is stopped once the primary has left its loop |
| `Quiesce.StopStays` | crates/amber-core/src/vm.rs:779-835 | a stop is never undone; a failed capture and a guest shutdown are stops |
| `Quiesce.StopReaches` | crates/amber-core/src/vm.rs:779-835 | in a stopped VM every secondary, wherever it is and paused or not, can leave its loop |
| `Psci.FirstCallWins` | crates/amber-hvf/src/lib.rs:744-770 | over every interleaving CPU_ON for the vcpu in the low byte of the affinity returns 0 exactly for the first call to a secondary, -4 for others and vcpu 0, -2 for one that does not exist; AFFINITY_INFO agrees |
| `Psci.LowByteNames` | crates/amber-hvf/src/lib.rs:744-770 | on a fresh boot the low byte alone names the vcpu: the first call posts its slot and no other, a second one changes nothing, whatever the higher bits |
| `Psci.CalledStarts` | crates/amber-hvf/src/lib.rs:663-680 | a called vcpu comes up with the entry and context of the call |
| `Psci.StartsAsFirstCalled` | crates/amber-hvf/src/lib.rs:663-680 | a secondary starts only after a call, with the entry point and context of the first one |
| `Psci.NeverBack` | crates/amber-hvf/src/lib.rs:42-46 | a slot only moves from off to posted to on |
| `Fleet.AdmissionSafeIff` | crates/amber/src/daemon.rs:152-167 | an admission that passes the check keeps the budget if and only if the sum fits 64 bits |
| `Fleet.AdmittedIffFits` | crates/amber/src/daemon.rs:152-167 | without a wrap a request is admitted exactly if it fits |
| `Fleet.AdmissionCanWrap` | crates/amber/src/daemon.rs:152-167 | a request for which the wrapping check passes and the budget is exceeded |
| `Fleet.WrapReached` | crates/amber/src/daemon.rs:152-190 | two admissions from an empty registry that end above the budget |
| `Fleet.BudgetKept` | crates/amber/src/daemon.rs:152-190 | over every interleaving of admissions, evictions and exits without a wrapped sum the registered RAM is within the budget |
| `Fleet.BudgetKeptIff` | crates/amber/src/daemon.rs:152-190 | over every interleaving the registered RAM is within the budget at every moment if and only if no admission made a sum of 64 bits or more |
| `Fleet.WrapExceeds` | crates/amber/src/daemon.rs:152-167 | a run with a wrapped sum exceeds the budget at some moment |
| `Fleet.StepKeeps` | crates/amber/src/daemon.rs:196-208 | every step keeps each VM id in at most one place: staged, pooled once, forked, evicted or scrubbed |
| `Fleet.LeavesPoolOnce` | crates/amber/src/daemon.rs:407-418 | over every interleaving a pooled worker is forked or evicted at most once and never both |
| `Fleet.ReleaseFrees` | crates/amber/src/daemon.rs:196-208 | a VM that ends, fails to start or is evicted gives back exactly its charge |
| `Fleet.WarmestFirst` | crates/amber/src/daemon.rs:407-418 | a fork takes the worker warmed last and leaves the others |
| `Fleet.ScrubTakesOne` | crates/amber/src/daemon.rs:352-355 | scrubbing an id takes out that id and no other |
| `Fleet.WarmedAndForked` | crates/amber/src/daemon.rs:407-418 | a run in which a worker is admitted, warmed and taken by a fork |
| `Fleet.WarmedAndEvicted` | crates/amber/src/daemon.rs:196-208 | a run in which it is evicted and its memory given back |
| `Fleet.Supervisor.Reserve` | crates/amber/src/daemon.rs:152-190 | admits by the wrapping check over the whole registry and inserts under a fresh id, or changes nothing |
| `Fleet.Supervisor.EvictOnePooled` | crates/amber/src/daemon.rs:196-208 | takes one worker out of pool and registry; none exactly when the pool is empty |
| `Fleet.Supervisor.ReserveWithEvict` | crates/amber/src/daemon.rs:213-229 | evicts only while the VM does not fit, ends, and refuses only with an empty pool |
| `Limiter.TokenBucket.constructor` | crates/amber-core/src/limiter.rs:21-24 | a full bucket with a rate of at least one |
| `Limiter.TokenBucket.Refill` | crates/amber-core/src/limiter.rs:41-46 | tokens grow with the time since the last refill, never above a second of rate |
| `Limiter.TokenBucket.TryTake` | crates/amber-core/src/limiter.rs:49-57 | takes exactly when the refilled bucket covers it |
| `Limiter.TokenBucket.Debit` | crates/amber-core/src/limiter.rs:63-74 | the wait that clears the deficit, charged ahead of time |
| `Limiter.TokensBounded` | crates/amber-core/src/limiter.rs:41-74 | over every run of calls the tokens stay between zero and one second of rate |
| `Limiter.FreshBurst` | crates/amber-core/src/limiter.rs:21-24 | a fresh bucket lets through at once exactly one second of its rate, which is at least one |
| `Limiter.TokensEarned` | crates/amber-core/src/limiter.rs:41-57 | over every run, however often it was asked in vain, a bucket holds what it held after the last admission plus the rate times the time since, up to one second of rate |
| `Limiter.NeverStarved` | crates/amber-core/src/limiter.rs:41-57 | so a request of at most what the time since the last admission earned, and a second of rate, is never refused |
| `Limiter.FullAfterASecond` | crates/amber-core/src/limiter.rs:41-74 | a bucket left alone for a second after its last wait is full |
| `Limiter.RateBound` | crates/amber-core/src/limiter.rs:41-82 | over every run, from the start of any call to the end of any later one at most rate times elapsed time plus one second of burst is let through |
| `Limiter.DebitsBoundIff` | crates/amber-core/src/limiter.rs:41-74 | over any debits at any times, waits slept off or not, the bound holds if and only if the debt written off is covered by the tokens dropped, missing at the start and left at the end |
| `Limiter.SecondDebitIff` | crates/amber-core/src/limiter.rs:63-74 | from a full bucket two debits keep the bound if and only if the second comes after the wait of the first |
| `Limiter.UnhonouredDebitsExceed` | crates/amber-core/src/limiter.rs:63-74 | without sleeping the waits off the bound fails: two debits at one instant |
| `Nat.Netstack.constructor` | crates/amber-net/src/lib.rs:287-300 | no connection, the port counter at 40000 |
| `Nat.Netstack.MaybeOpenFlow` | crates/amber-net/src/lib.rs:386-433 | only a fresh SYN of the guest to a new, permitted destination below the flow cap takes a port; it is added if the listen succeeds |
| `Nat.Netstack.AcceptInbound` | crates/amber-net/src/lib.rs:303-321 | each forwarded connection takes a port whether or not the dial succeeds |
| `Nat.Netstack.ReapFlows` | crates/amber-net/src/lib.rs:459-466 | keeps exactly the flows whose socket is open, in order |
| `Nat.Netstack.ReapInbound` | crates/amber-net/src/lib.rs:329-336 | keeps exactly the forwarded connections whose socket is open, in order |
| `Nat.Netstack.DnatIn` | crates/amber-net/src/lib.rs:471-479 | a guest frame of a flow is sent to the gateway at the flow port; others are unchanged |
| `Nat.Netstack.DnatOut` | crates/amber-net/src/lib.rs:483-492 | a gateway frame of a flow is made to come from the external host; others are unchanged |
| `Nat.RewrittenTuple` | crates/amber-net/src/lib.rs:471-479 | each guest frame is rewritten by its own flow and no other |
| `Nat.InverseIff` | crates/amber-net/src/lib.rs:471-492 | rewriting a guest frame and its reply gives back the swapped tuple for every flow if and only if no two flows share guest port and ephemeral port |
| `Nat.NextEphAt` | crates/amber-net/src/lib.rs:307-308 | the counter steps through 40000..65535 cyclically |
| `Nat.EphEqualIff` | crates/amber-net/src/lib.rs:413-414 | two allocations give the same port exactly when they are a multiple of 25536 apart |
| `Nat.EphDistinct` | crates/amber-net/src/lib.rs:413-414 | any 25536 consecutive allocations are distinct |
| `Nat.StepDated` | crates/amber-net/src/lib.rs:303-466 | every event keeps flow keys distinct and each port that of its allocation |
| `Nat.NatInverse` | crates/amber-net/src/lib.rs:391-492 | over every run, while no live connection is older than a port cycle: rewrites invert for every flow, no two flows share a rewritten tuple, and no gateway frame of a forwarded connection is taken for a reply of a flow |
| `Nat.SynOpensIff` | crates/amber-net/src/lib.rs:386-433 | over every run at most 256 flows are open; a SYN opens one if and only if it is a first one of the guest with a new key, permitted, listened for, and fewer than 256 are open, and its frames then go to the gateway at the new port |
| `Nat.ForwardedUnchangedIff` | crates/amber-net/src/lib.rs:471-492 | over every such run frames of a forwarded connection pass unchanged towards the guest, and towards the gateway if and only if the guest has no flow from that port to the gateway at that port |
| `Nat.ForwardedUnchanged` | crates/amber-net/src/lib.rs:402-406 | so both ways while the egress policy refuses the gateway address, as it does by default |
| `Nat.ForwardedDiverted` | crates/amber-net/src/lib.rs:471-479 | a run, private egress allowed, after which frames of a forwarded connection are rewritten |
| `Nat.RunInverseIff` | crates/amber-net/src/lib.rs:391-492 | over every run the rewrites invert exactly when no two flows of one guest port were allocated a multiple of 25536 apart |
| `Nat.OldFlowCollides` | crates/amber-net/src/lib.rs:413-492 | a run of 25537 allocations after which a flow no longer gets its replies |
| `Nat.StrangersUnchanged` | crates/amber-net/src/lib.rs:471-492 | frames of no flow pass both ways unchanged |
| `Console.MarkerLatchesIff` | crates/amber-core/src/bus.rs:154-172 | for every marker and output the window latches exactly when a nonempty marker has occurred, overlapping partial matches included |
| `Console.WindowTracks` | crates/amber-core/src/bus.rs:157-171 | until it latches the window is the last bytes sent, as many as the marker has |
| `Console.MarkedIff` | crates/amber-core/src/bus.rs:81-90 | over every run of the device the latch is set exactly when the marker armed last occurs in what was sent since |
| `Console.InputConserved` | crates/amber-core/src/bus.rs:94-130 | over every run the bytes read followed by the bytes waiting are the bytes pushed |
| `Console.LineOnlyForInput` | crates/amber-core/src/bus.rs:94-132 | over every run the interrupt line is up only while a byte waits |
| `Console.InputWakes` | crates/amber-core/src/bus.rs:94-120 | a received byte raises the line exactly if a receive bit is unmasked; after a restore the snapshot's mask decides |
| `Console.ConfigReadsBack` | crates/amber-core/src/bus.rs:144-182 | a configuration register reads back what was last written to it and no other register changes it |
| `Console.EmptyFlagIff` | crates/amber-core/src/bus.rs:126-141 | over every run the flag register says empty exactly when everything received was read, and else the data register holds the next byte |
| `Console.InterruptRegisters` | crates/amber-core/src/bus.rs:94-182 | input raises bits 4 and 6, ICR clears exactly those written, MIS is RIS under IMSC, and the line is up exactly while MIS is not zero |
| `Console.RestoredRegisters` | crates/amber-core/src/bus.rs:108-120 | the six snapshot values are CR, IMSC, IBRD, FBRD, LCR_H and IFLS in that order |
| `Console.Identifies` | crates/amber-core/src/bus.rs:55-60 | the eight identification bytes |
| `Console.Pl011.constructor` | crates/amber-core/src/bus.rs:62-77 | an idle device with nothing armed |
| `Console.Pl011.ArmMarker` | crates/amber-core/src/bus.rs:81-85 | arming forgets the window and the latch |
| `Console.Pl011.PushRx` | crates/amber-core/src/bus.rs:94-97 | a byte joins the FIFO and raises both receive bits |
| `Console.Pl011.IrqLevel` | crates/amber-core/src/bus.rs:100-102 | the line is up only while a byte waits, and with both receive bits raised exactly if one is unmasked |
| `Console.Pl011.Read` | crates/amber-core/src/bus.rs:122-152 | the value of every register; only the data register changes state |
| `Console.Pl011.ReadDataRegister` | crates/amber-core/src/bus.rs:126-132 | the oldest byte or zero; emptying the FIFO clears the receive bits |
| `Console.Pl011.Write` | crates/amber-core/src/bus.rs:154-182 | the effect of a write to every register |
| `Console.Pl011.Regs` | crates/amber-core/src/bus.rs:108-110 | the configuration in snapshot order |
| `Console.Pl011.SetRegs` | crates/amber-core/src/bus.rs:113-120 | restores exactly the configuration |
| `Console.Pl011.Transmit` | crates/amber-core/src/bus.rs:157-171 | the byte reaches the host and slides the window; it latches when the window is the marker |
| `Cpio.HexRoundTrip` | crates/amber-image/src/cpio.rs:74-96 | a field of n hexadecimal digits decodes to the value written |
| `Cpio.HexText` | crates/amber-image/src/cpio.rs:74-96 | digits are lower case, most significant first |
| `Cpio.RecordText` | crates/amber-image/src/cpio.rs:62-96 | the text of a record: magic, the thirteen fields in newc order, the terminated name |
| `Cpio.InodesCount` | crates/amber-image/src/cpio.rs:62-72 | records follow one another and their inode numbers count up from one |
| `Cpio.FixedText` | crates/amber-image/src/cpio.rs:51-92 | the magic is 070701 and the last name TRAILER!!! |
| `Cpio.RecordAligned` | crates/amber-image/src/cpio.rs:62-72 | a record that starts aligned ends aligned to four bytes |
| `Cpio.ReadBackIff` | crates/amber-image/src/cpio.rs:50-72 | a reader of the format recovers exactly the entries written, in order, if and only if each has a NUL-free name other than the trailer and sizes below 2^32 |
| `Cpio.ReadBackCarried` | crates/amber-image/src/cpio.rs:62-96 | an entry read back equal to what was written was one the format carries |
| `Cpio.Writer.constructor` | crates/amber-image/src/cpio.rs:26-31 | an empty archive |
| `Cpio.Writer.Pad4` | crates/amber-image/src/cpio.rs:98-102 | appends the zeros up to a multiple of four |
| `Cpio.Writer.HeaderText` | crates/amber-image/src/cpio.rs:74-96 | magic and the thirteen fields |
| `Cpio.Writer.Add` | crates/amber-image/src/cpio.rs:62-72 | appends one aligned record under the next inode number |
| `Cpio.Writer.Finish` | crates/amber-image/src/cpio.rs:50-55 | appends the trailer record |
| `Cpio.Build` | crates/amber-image/src/cpio.rs:33-72 | an archive built record by record reads back as its entries exactly when the format carries each |

## Left out

- Reads of GICD registers: they report fields of the modelled state.
- Register writes, reset, snapshot and restore of the virtio transport; what the block, rng and balloon devices do beyond
  where they may write.
- HVF and KVM bindings, data-abort decoding, the device tree, the loader, CPU templates.
- smoltcp itself, Ethernet and IP parsing, checksums, DNS forwarding, the egress policy's address ranges: the NAT
  is modelled on address and port tuples.
- OCI images, flattening, squashfs, JSON, size parsing, the command line, logs and the guest agent.
- gzip around the cpio archive, and the or-ing of file type bits into modes.
- The bodies of `dial` and `accept`, and the refill loop of the warm pool: each of its admissions is a `Reserve` step.
- Guest vcpus that write the rings while another vcpu's notify is being served.
- Liveness and scheduling latency of threads; timeouts are actions that may happen.
- Rounding of f64 in the rate limiter, and the deferred debit of the network transmit path.
- Wrap of the 64-bit VM id counter.
- Limiter.TokenBucket.Debit: over `real`, so it does not model f64 rounding or the nanosecond grain of durations.
- Quiesce.BarrierSafe: registers, RAM, devices and the GIC are opaque values, and the UART's receive FIFO, which no
  snapshot keeps, is not among them.
- Fleet.BudgetKept: for runs in which no admission wraps 64 bits, which Fleet.BudgetKeptIff shows to be the exact condition.
