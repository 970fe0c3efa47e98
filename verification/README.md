# Verified models of driver algorithms

A Dafny project that models the parts of this repository that hold real algorithms or
protocols, and proves what they are for. `dafny verify dfyconfig.toml` checks it.

| files | what they model |
|---|---|
| `PrdTable.dfy`, `PrdBuilder.dfy` | the compiler from memory segments to the descriptor table of the bus-master IDE engine, and an interpreter for the engine |
| `Ps2Stream.dfy`, `Ps2Requests.dfy`, `Ps2Controller.dfy`, `RequestQueue.dfy` | the PS/2 controller: arriving bytes, the interrupt-time keyboard queue, both readers, the request interpreter and the request queue |
| `CommandByte.dfy` | the test-and-set loop that drivers build on atomic requests |
| `PiixTiming.dfy`, `PiixChannel.dfy`, `PciConfig.dfy` | timing selection, shadow registers, and the locked masked writes of two channels to shared registers |
| `DsdtRenamer.dfy` | the fresh-prefix search and the renaming of `_T_` |
| `AudioTimers.dfy`, `AudioDevice.dfy`, `AudioDriver.dfy` | timers and power states of an audio device |
| `Keyboard.dfy` | the scan-code state machine and its bit vector |

Code that changes state is modelled as classes and loops (`PataChannel`, `KeyboardQueue`,
`Ps2Controller`, `PS2RequestQueue`, `CommandBytePort`, `PciRoot`, `PataTimings`, `Driver`,
`KeyboardDriver`, and the methods of `DsdtRenamer`); each method is proved equal to a
function, and the properties are proved about that function, for all inputs and all runs.

Hardware is what the model cannot see. A PS/2 port is a finite list of events: a byte of a
device arrives, or a status poll finds nothing. A clock is a number that only grows. Memory
segments are a list. The engine follows the Physical Region Descriptor format of
"Programming Interface for Bus Master IDE Controller, Revision 1.0", section "Physical
Region Descriptor Table": a 16-bit byte count in which 0 means 64 KB, and an end-of-table
flag.

## Where the code does not do what it is meant to

* A segment that starts below the last 64 KB block of the address space and ends at its very
  top wraps the end pointer to 0. The build then succeeds with a table that transfers less
  than was asked for (`PrdPlan.TruncatedExample`); this is the only such case
  (`PrdPlan.EngineTransfersRequest`). A segment that ends inside the last block is refused
  (`PrdPlan.RunawayRefused`).
* A mouse read hands keys that arrive on the port to the keyboard driver ahead of older keys
  that wait in the queue (`Ps2Stream.MouseReaderOvertakesQueue`); when exactly it keeps their
  order is `Ps2Stream.MouseReadKeepsKeyOrderIff`.
* The composite mouse command is documented as equivalent to three primitives. It is, unless
  a transmit-to-mouse prefix is pending, which it leaves pending
  (`Ps2Requests.CompositeIsThreePrimitives`, `Ps2Requests.PendingPrefixDiffers`).
* Selecting an Ultra DMA mode takes the highest requested bit once any requested bit is
  supported, so it can select a mode the controller does not have
  (`PiixTiming.UnsupportedModeExample`), or run past its table
  (`PiixTiming.UltraOverrunExample`); `PiixTiming.UltraModeSupportedIff` says exactly when it
  does neither.
* `_T_T_` is rewritten to a line that still contains `_T_` (`DsdtRenamer.SharedUnderscore`);
  `DsdtRenamer.IssueRemainsExactly` says when that happens.
* The comment on the Pause key says that its sequence gives two key events. It gives none
  (`Keyboard.PauseReportsNothing`).
* A wake request that finds the audio device awake cuts an idle delay short
  (`AudioDevice.AwakeRequestSkipsDelay`; `AudioDevice.DelayEndsExactly` lists all that end it),
  and a delay whose 64-bit sum with the clock wraps around is over at once
  (`AudioDevice.WrappedDelayExample`, with the exact condition in
  `AudioDevice.IdleAlarmIsNotEarly`).
* Controllers with shared drive timings give drive 1 rows that enable fast timing for drive 0
  only (`PiixTiming.SharedRows`).
* A newly registered timer can be served late (`AudioTimers.LateFirstFireExample`), exactly
  when `AudioTimers.FirstFireOnTimeIff` says.
* Segments of odd length are accepted, and give descriptors with counts that the format
  reserves; no others do (`PrdPlan.CountsEvenIff`).

## Model

| member | source | states |
|---|---|---|
| `PrdPlan.EngineTransfersRequest` | Kext Sources/AppleIntelPIIXATA/AppleIntelPIIXPATA.cpp:1294-1437 | After any successful build, whatever stale entries follow, the engine transfers exactly the first `byteCount` bytes of the segment list in order, if and only if no visited segment starts below the last 64 KB block and ends at the top of the address space |
| `PrdPlan.ExactCapacity` | Kext Sources/AppleIntelPIIXATA/AppleIntelPIIXPATA.cpp:1336-1437 | A non-zero request is built if and only if the segments supply it, every visited one is even, none ends inside the last 64 KB block, and the blocks they touch number at most 512 |
| `PrdPlan.FailsAt` | Kext Sources/AppleIntelPIIXATA/AppleIntelPIIXPATA.cpp:1352-1411 | A build ends at the first visited segment that does not fit: as not aligned if its address is odd, else as exhausted |
| `PrdPlan.ShortSupplyPanics` | Kext Sources/AppleIntelPIIXATA/AppleIntelPIIXPATA.cpp:1294-1371 | A request for nothing is refused as such, and one whose segments fit but are too few panics |
| `PrdPlan.SplitOptimal` | Kext Sources/AppleIntelPIIXATA/AppleIntelPIIXPATA.cpp:1374-1422 | No division of a segment into pieces that stay within 64 KB blocks is shorter than the builder's |
| `PrdPlan.SplitAcceptable` | Kext Sources/AppleIntelPIIXATA/AppleIntelPIIXPATA.cpp:1374-1422 | Every descriptor has an even base and lies within one 64 KB block |
| `PrdPlan.SplitMeaning` | Kext Sources/AppleIntelPIIXATA/AppleIntelPIIXPATA.cpp:1374-1422 | Decoding the truncated 16-bit counts gives back the bytes of the segment, and loses some exactly when its end wrapped |
| `PrdPlan.CountsEvenIff` | Kext Sources/AppleIntelPIIXATA/AppleIntelPIIXPATA.cpp:1352-1422 | Every count written is even, as the format requires, if and only if every visited length is; odd ones are only logged |
| `PrdPlan.SplitFlags` | Kext Sources/AppleIntelPIIXATA/AppleIntelPIIXPATA.cpp:1388-1411 | Only the final descriptor of the final segment carries the end flag |
| `PrdPlan.SplitCost` | Kext Sources/AppleIntelPIIXATA/AppleIntelPIIXPATA.cpp:1374-1422 | The number of descriptors of a segment is the number of 64 KB blocks it touches |
| `PrdPlan.CompileWellFormed` | Kext Sources/AppleIntelPIIXATA/AppleIntelPIIXPATA.cpp:1336-1437 | The list built for a request is not empty, acceptable to the engine, and flagged at its end only |
| `PrdPlan.RunStopsAtLast` | Kext Sources/AppleIntelPIIXATA/AppleIntelPIIXPATA.cpp:1489-1502 | The engine stops at the first flagged entry, whatever follows it in the table |
| `PrdPlan.VisitedFlatten` | Kext Sources/AppleIntelPIIXATA/AppleIntelPIIXPATA.cpp:1336-1371 | The segments a build visits, the last one clamped, are the first `byteCount` bytes of the list |
| `PrdPlan.HalfTableSegmentsNeverExhaust` | Kext Sources/AppleIntelPIIXATA/AppleIntelPIIXPATA.cpp:304-316 | With the advertised 256 segments of at most 64 KB each the table is never exhausted |
| `PrdPlan.LongSegmentExhausts` | Kext Sources/AppleIntelPIIXATA/AppleIntelPIIXPATA.cpp:1383-1422 | The 64 KB limit is needed: one longer segment can exhaust the table |
| `PrdPlan.TruncatedExample` | Kext Sources/AppleIntelPIIXATA/AppleIntelPIIXPATA.cpp:1374-1411 | 128 KB that end at the top of the address space are accepted, and only 64 KB are transferred |
| `PrdPlan.RunawayRefused` | Kext Sources/AppleIntelPIIXATA/AppleIntelPIIXPATA.cpp:1374-1422 | A request that visits a segment ending inside the last 64 KB block is never built |
| `PrdBuilder.FillIsSplit` | Kext Sources/AppleIntelPIIXATA/AppleIntelPIIXPATA.cpp:1374-1422 | The inner loop in 32-bit pointer arithmetic writes the split of the segment when that fits, and otherwise runs out of entries |
| `PrdBuilder.EngineAfterBuild` | Kext Sources/AppleIntelPIIXATA/AppleIntelPIIXPATA.cpp:1294-1437 | What is left in the table after a successful build makes the engine transfer the request |
| `PrdBuilder.PataChannel.InitATADMAChains` | Kext Sources/AppleIntelPIIXATA/AppleIntelPIIXPATA.cpp:1489-1502 | Fills all 512 entries with ones that each stop the engine |
| `PrdBuilder.PataChannel.EmitSegment` | Kext Sources/AppleIntelPIIXATA/AppleIntelPIIXPATA.cpp:1374-1422 | In place: overwrites exactly the segment's entries, or fails when they do not fit |
| `PrdBuilder.PataChannel.CreateChannelCommands` | Kext Sources/AppleIntelPIIXATA/AppleIntelPIIXPATA.cpp:1294-1437 | In place: the outcome, the entries written and those kept, the state of the channel, and the engine's run over the table |
| `Ps2Stream.PlainReader` | Kext Sources/ApplePS2Controller/ApplePS2Controller.cpp:833-925 | The reader returns the first byte of its device before the time-out, else 0, and dispatches exactly the other bytes before it |
| `Ps2Stream.SecondChanceReader` | Kext Sources/ApplePS2Controller/ApplePS2Controller.cpp:931-1099 | Unless no byte comes in time, the expected byte is returned if and only if it is one of the first two of the device; otherwise the first is; the other of the two is dispatched |
| `Ps2Stream.ReadConserves` | Kext Sources/ApplePS2Controller/ApplePS2Controller.cpp:833-925 | Every byte in the queue or on the port is afterwards still there, lost to a full queue, dispatched, or returned, once |
| `Ps2Stream.ReadExpectedConserves` | Kext Sources/ApplePS2Controller/ApplePS2Controller.cpp:931-1099 | The same for the second-chance reader |
| `Ps2Stream.MouseBytesInOrder` | Kext Sources/ApplePS2Controller/ApplePS2Controller.cpp:833-1099 | Mouse bytes are taken in the order of arrival, by either reader |
| `Ps2Stream.KeyboardBytesInOrder` | Kext Sources/ApplePS2Controller/ApplePS2Controller.cpp:854-902 | While the queue drops nothing, a keyboard reader takes queued keys and then arriving ones, in order of arrival |
| `Ps2Stream.PortKeysInOrder` | Kext Sources/ApplePS2Controller/ApplePS2Controller.cpp:833-1099 | The keys that a mouse reader dispatches come in order of arrival, apart from those the interrupt handler queues meanwhile |
| `Ps2Stream.KeyOrderUnlessOvertaken` | Kext Sources/ApplePS2Controller/ApplePS2Controller.cpp:833-1099 | Over any number of bytes a mouse reader takes: keys stay in order of arrival unless one is taken from the port while others are queued; queued keys stay queued |
| `Ps2Stream.MouseReadKeepsKeyOrderIff` | Kext Sources/ApplePS2Controller/ApplePS2Controller.cpp:833-925 | While no key is dropped and the keys differ, a mouse read keeps their order if and only if it overtakes none; with keys queued, that is, if and only if it dispatches none |
| `Ps2Stream.ExpectedReadKeepsKeyOrderIff` | Kext Sources/ApplePS2Controller/ApplePS2Controller.cpp:931-1099 | The same for the second-chance reader |
| `Ps2Stream.OvertakingForetold` | Kext Sources/ApplePS2Controller/ApplePS2Controller.cpp:854-902 | With an empty queue and no key to come that the interrupt handler could take, nothing is overtaken; with keys queued, any key dispatched overtakes |
| `Ps2Stream.MouseReaderOvertakesQueue` | Kext Sources/ApplePS2Controller/ApplePS2Controller.cpp:854-902 | An input for which a mouse read dispatches a key from the port ahead of an older key in the queue |
| `Ps2Stream.DrainMouseInOrder` | Kext Sources/ApplePS2Controller/ApplePS2Controller.cpp:608-666 | Servicing an interrupt empties the queue and dispatches the mouse bytes in order of arrival; the rest are still to come |
| `Ps2Stream.DrainKeysInOrder` | Kext Sources/ApplePS2Controller/ApplePS2Controller.cpp:608-666 | While no key is dropped, servicing an interrupt dispatches the keys in order of arrival |
| `Ps2Stream.DrainServices` | Kext Sources/ApplePS2Controller/ApplePS2Controller.cpp:608-666 | Servicing an interrupt goes on until no queued key and no waiting mouse byte is left, and takes no event after that |
| `Ps2Stream.QueueKeepsThirtyTwo` | Kext Sources/ApplePS2Controller/ApplePS2Controller.cpp:1256-1275 | Interrupts keep keys in order while fewer than 32 are queued, and lose those that come after |
| `Ps2Stream.ReadGivesUp` | Kext Sources/ApplePS2Controller/ApplePS2Controller.cpp:833-925 | The plain reader gives up after 10000 polls that find nothing, over all its turns together, and a byte it returns came before that |
| `Ps2Stream.ReadExpectedGivesUp` | Kext Sources/ApplePS2Controller/ApplePS2Controller.cpp:931-1099 | The same for the second-chance reader, which also gives up so with a first byte in hand |
| `Ps2Controller.KeyboardQueue.EnqueueKeyboardData` | Kext Sources/ApplePS2Controller/ApplePS2Controller.cpp:1256-1275 | In place: a key goes to the end, and is dropped if all 32 elements are used; each element stays on exactly one list |
| `Ps2Controller.KeyboardQueue.DequeueKeyboardData` | Kext Sources/ApplePS2Controller/ApplePS2Controller.cpp:1277-1299 | In place: the first key is taken off, and its element goes back to the unused list |
| `Ps2Controller.PartitionRotates` | Kext Sources/ApplePS2Controller/ApplePS2Controller.cpp:1277-1299 | Taking an element from one list to the other keeps each of the 32 elements on exactly one of them |
| `Ps2Controller.Ps2Controller.InterruptHandlerKeyboard` | Kext Sources/ApplePS2Controller/ApplePS2Controller.cpp:83-136 | The interrupt handler, which cannot run while the lock is held, moves the byte from the port to the queue, or loses it to a full queue |
| `Ps2Controller.Ps2Controller.LockController` | Kext Sources/ApplePS2Controller/ApplePS2Controller.cpp:1301-1309 | Interrupts come in until the lock is taken |
| `Ps2Controller.Ps2Controller.ReadDataPort` | Kext Sources/ApplePS2Controller/ApplePS2Controller.cpp:833-925 | The loop has the result, the dispatches and the new queue of the plain reader; it ends, and the lock is free at every dispatch and return |
| `Ps2Controller.Ps2Controller.ReadDataPortExpecting` | Kext Sources/ApplePS2Controller/ApplePS2Controller.cpp:931-1099 | The same for the second-chance reader |
| `Ps2Controller.Ps2Controller.InterruptOccurred` | Kext Sources/ApplePS2Controller/ApplePS2Controller.cpp:608-666 | Drains the queue and the waiting mouse bytes; does nothing while the hardware is offline |
| `Ps2Controller.Ps2Controller.ProcessRequest` | Kext Sources/ApplePS2Controller/ApplePS2Controller.cpp:696-800 | Rewrites the commands in place and lowers the count to the failing index, as executed one by one (what each does is stated by the next rows); offline, it fails at 0 and touches nothing |
| `Ps2Requests.ModeIsAddressee` | Kext Sources/ApplePS2Controller/ApplePS2Controller.cpp:738-769 | The device that reads are from is the mouse exactly if the last data byte was written after a transmit-to-mouse prefix, or by a composite |
| `Ps2Requests.PlainReadInRequest` | Kext Sources/ApplePS2Controller/ApplePS2Controller.cpp:721-727 | In a request, a plain read answers the first byte that the addressee delivers before the time-out, else 0; it dispatches the other device's bytes before that, and never fails |
| `Ps2Requests.CompareInRequest` | Kext Sources/ApplePS2Controller/ApplePS2Controller.cpp:729-777 | In a request, a comparing read, or a composite for the mouse and its acknowledgement, fails exactly if the byte is not among the first two of the addressee; without any, unless it is 0 |
| `Ps2Requests.WriteInRequest` | Kext Sources/ApplePS2Controller/ApplePS2Controller.cpp:738-755 | In a request, a write puts its byte on its port, and does nothing else |
| `Ps2Controller.Ps2Controller.SetPowerStateGated` | Kext Sources/ApplePS2Controller/ApplePS2Controller.cpp:1374-1466 | Sleep takes the hardware offline; leaving sleep wakes the port first; the power state becomes the one asked for; offline means asleep |
| `Ps2Requests.ExecJoin` | Kext Sources/ApplePS2Controller/ApplePS2Controller.cpp:721-787 | A list of commands executes as its front and then, unless that fails, its back |
| `Ps2Requests.FirstFailure` | Kext Sources/ApplePS2Controller/ApplePS2Controller.cpp:721-787 | Index i is reported exactly when the commands before it succeed and the i-th fails; nothing after it is executed or changed |
| `Ps2Requests.CompositeIsThreePrimitives` | Kext Sources/ApplePS2Controller/ApplePS2Controller.cpp:757-777 | The composite mouse command and its three primitives give the same port writes, reads, dispatches, mode and failure; also the same pending prefix if and only if none was pending |
| `Ps2Requests.DesugaringPreservesRequests` | Kext Sources/ApplePS2Controller/ApplePS2Controller.cpp:719-787 | Replacing every composite in a request preserves everything the request does, and the failing index maps back |
| `Ps2Requests.PendingPrefixDiffers` | Kext Sources/ApplePS2Controller/ApplePS2Controller.cpp:739-777 | With a prefix pending, a composite that succeeds and its primitives differ in the next device mode |
| `Ps2Requests.PendingPrefixDiffersExample` | Kext Sources/ApplePS2Controller/ApplePS2Controller.cpp:739-777 | A mouse that acknowledges is an input for which they do |
| `Ps2Requests.PrefixFreeAtEndIff` | Kext Sources/ApplePS2Controller/ApplePS2Controller.cpp:719-787 | A request that ends in a composite, with no prefix pending before others, ends alike both ways if and only if it fails earlier or none is pending at the end |
| `RequestQueue.CarryAllJoin` | Kext Sources/ApplePS2Controller/ApplePS2Controller.cpp:804-829 | Two batches of requests executed one after the other are the batch of both |
| `RequestQueue.RequestsInSubmissionOrder` | Kext Sources/ApplePS2Controller/ApplePS2Controller.cpp:542-555 | However submissions, passes of the work loop and power changes interleave, requests are executed one at a time in submission order, each once, with the power state of that moment |
| `RequestQueue.PassIsOneByOne` | Kext Sources/ApplePS2Controller/ApplePS2Controller.cpp:804-829 | A pass is the execution of what it takes over, request by request |
| `RequestQueue.OnlyLeavingSleepWakes` | Kext Sources/ApplePS2Controller/ApplePS2Controller.cpp:1374-1466 | Changes among the working power states do nothing; the first one after sleep wakes the port, once |
| `RequestQueue.PS2RequestQueue.ProcessRequestQueue` | Kext Sources/ApplePS2Controller/ApplePS2Controller.cpp:804-829 | In place: takes the queue over and executes its requests from the front, leaving it empty |
| `CommandByte.ReadRequestReturnsRegister` | Kext Sources/ApplePS2Controller/ApplePS2Mouse.cpp:707-721 | The read request returns the command byte and writes nothing that could change it |
| `CommandByte.TestAndSetIsAtomic` | Kext Sources/ApplePS2Controller/ApplePS2Mouse.cpp:723-734 | The second request stores the new byte if the register still holds the old one, and otherwise stops at the comparison |
| `CommandByte.RequestsAreAtomic` | Kext Sources/ApplePS2Controller/ApplePS2Mouse.cpp:705-741 | Served by the request interpreter, whenever the port answers, the two requests of the loop are a read and a compare-and-set of the register, and a wake-up is an update |
| `CommandByte.NoLostUpdate` | Kext Sources/ApplePS2Controller/ApplePS2Mouse.cpp:692-743 | Under every interleaving of callers' requests, sleeps and wake-ups the register is the initial byte with the logged updates applied in order, each clearing its clear bits, setting its set bits and leaving the others; each finished call is logged once |
| `CommandByte.LastUpdateShows` | Kext Sources/ApplePS2Controller/ApplePS2Mouse.cpp:717-721 | At the end of any run, the bits an update clears are 0, and those it only sets are 1, if no later update touches them; bits that no update touches are as at the start |
| `CommandByte.CallsFinishAsMade` | Kext Sources/ApplePS2Controller/ApplePS2Mouse.cpp:692-743 | In every run the calls a caller has made are those it has finished, in that order and with the bits it asked for, and the one it is in |
| `CommandByte.UpdatedIsUnique` | Kext Sources/ApplePS2Controller/ApplePS2Mouse.cpp:717-721 | Clear bits 0, set bits 1 unless also cleared, other bits unchanged: this holds of the new byte and of no other |
| `CommandByte.CommitIsAtomic` | Kext Sources/ApplePS2Controller/ApplePS2Keyboard.cpp:555-606 | A call whose second request is answered finishes if and only if the register still holds what was read; it then clears and sets its bits in the current value and leaves the others; otherwise it changes nothing |
| `CommandByte.FailureMeansOvertaken` | Kext Sources/ApplePS2Controller/ApplePS2Mouse.cpp:736-741 | An attempt that fails online was overtaken by a committed update |
| `CommandByte.OfflineNeverFinishes` | Kext Sources/ApplePS2Controller/ApplePS2Controller.cpp:712-717 | Offline the interpreter fails both requests of the loop, so no attempt finishes or reaches the register |
| `CommandByte.WakingIsOneUpdate` | Kext Sources/ApplePS2Controller/ApplePS2Controller.cpp:1432-1439 | Waking the port is one update of the command byte: both interrupts on, both clocks on |
| `CommandByte.BitsPersist` | Kext Sources/ApplePS2Controller/ApplePS2Mouse.cpp:717-721 | Bits a call sets and does not clear stay set until an update clears them |
| `CommandByte.ClearedBitsPersist` | Kext Sources/ApplePS2Controller/ApplePS2Mouse.cpp:717-721 | Bits a call clears stay clear until an update sets them |
| `CommandByte.CommandBytePort.SetCommandByte` | Kext Sources/ApplePS2Controller/ApplePS2Mouse.cpp:692-743 | With a port that answers at any time, the loop ends once nobody overtakes it; then the bits to clear are 0, those to set and not clear are 1, and the others are what the overtakers left |
| `PiixTiming.SelectionIsGreatest` | Kext Sources/AppleIntelPIIXATA/AppleIntelPIIXPATA.cpp:864-948 | The PIO mode before reconciliation is the greatest supported one not above the request whose cycle time is at least the drive's, else 0; the DMA mode likewise, or none |
| `PiixTiming.SelectedModes` | Kext Sources/AppleIntelPIIXATA/AppleIntelPIIXPATA.cpp:842-998 | Of the result: DMA is its greatest suiting mode wherever it is asked for; PIO is its greatest suiting mode if no DMA mode is selected or the two have one cycle time, and 0 otherwise; Ultra is the highest asked for, cut to 2 without the cable |
| `PiixTiming.GreatestExists` | Kext Sources/AppleIntelPIIXATA/AppleIntelPIIXPATA.cpp:864-948 | Such modes exist for every request, so the selection is determined |
| `PiixTiming.EqualCycleTimesExample` | Kext Sources/AppleIntelPIIXATA/AppleIntelPIIXPATA.cpp:990-998 | A drive asking PIO 4 and DMA 2, both of 120 ns, gets both |
| `PiixTiming.DowngradeMode` | Kext Sources/AppleIntelPIIXATA/AppleIntelPIIXPATA.cpp:883-899 | The downgrade loop finds that mode, and no table lookup is out of range |
| `PiixTiming.ChoicesInTables` | Kext Sources/AppleIntelPIIXATA/AppleIntelPIIXPATA.cpp:41-48 | Masks cut to the size of the tables keep every PIO and DMA lookup inside them |
| `PiixTiming.SelectionKeepsLimits` | Kext Sources/AppleIntelPIIXATA/AppleIntelPIIXPATA.cpp:842-998 | Exactly when a request is refused; PIO keeps its own timing only if DMA has the same; no mode above 2 without its cable |
| `PiixTiming.UltraModeSupportedIff` | Kext Sources/AppleIntelPIIXATA/AppleIntelPIIXPATA.cpp:905-988 | A supported Ultra mode is selected if and only if the DMA modes asked for, if any, and the Ultra modes each include a supported one, and the highest Ultra mode, after the cable's cut, is supported; when exactly the lookup runs past the table |
| `PiixTiming.UnsupportedModeExample` | Kext Sources/AppleIntelPIIXATA/AppleIntelPIIXPATA.cpp:958-987 | A controller without mode 5 is given mode 5, because mode 0 is asked for as well |
| `PiixTiming.UltraOverrunExample` | Kext Sources/AppleIntelPIIXATA/AppleIntelPIIXPATA.cpp:958-987 | A request for modes 0 and 6 passes the check and looks up mode 6 |
| `PiixTiming.SelectingAgain` | Kext Sources/AppleIntelPIIXATA/AppleIntelPIIXPATA.cpp:798-834 | Selecting what was reported selects the same if and only if no Ultra mode was asked for or the highest, after the cable's cut, is supported; else it is refused |
| `PiixTiming.ReportNamesSelection` | Kext Sources/AppleIntelPIIXATA/AppleIntelPIIXPATA.cpp:798-834 | The reported masks hold the selected modes and no other, with the cycle times of the selection |
| `PiixTiming.RowsGiveCycleTimes` | Kext Sources/AppleIntelPIIXATA/AppleIntelPIIXATATiming.h:52-113 | With separate drive timings the row of every PIO and DMA mode gives each drive clocks of 30 ns that add up to the mode's cycle time, or no fast timing for the slowest row |
| `PiixTiming.SharedRows` | Kext Sources/AppleIntelPIIXATA/AppleIntelPIIXATATiming.h:39-113 | With shared timings the clocks are right, but the rows of drive 1 enable fast timing for drive 0 only |
| `PiixTiming.UltraRowsGiveCycleTimes` | Kext Sources/AppleIntelPIIXATA/AppleIntelPIIXATATiming.h:121-140 | The cycle field and clock bit of every Ultra row give the mode's cycle time |
| `PiixTiming.IdetimRowsMerge` | Kext Sources/AppleIntelPIIXATA/AppleIntelPIIXATATiming.h:52-60 | The values of both drives can share a register: each mask row picks out its own drive's value |
| `PiixTiming.UdmaBitsOfOneDrive` | Kext Sources/AppleIntelPIIXATA/AppleIntelPIIXPATA.cpp:1110-1150 | Computing a drive's Ultra timing changes its own enable, cycle and clock bits only, and those show the selected row |
| `PiixTiming.TimingOfOneDrive` | Kext Sources/AppleIntelPIIXATA/AppleIntelPIIXPATA.cpp:1158-1209 | Computing a drive's timing leaves the other drive and the Ultra registers alone, shows the selected row in IDETIM and SIDETIM, and with separate timings enables WR_PP_EN |
| `PiixTiming.SlowPioClearsNothing` | Kext Sources/AppleIntelPIIXATA/AppleIntelPIIXPATA.cpp:1202-1208 | Clearing the DMA-only bit for slow PIO has no effect on any row, shared or separate |
| `PiixChannel.SelectionReachesHardware` | Kext Sources/AppleIntelPIIXATA/AppleIntelPIIXPATA.cpp:1026-1209 | End to end: after a selection is computed and written, registers 0x40-0x55 give the drive the selected cycle times and Ultra mode, and are as before for the other channel's drives and, if the shadow was shown, for the other drive |
| `PiixChannel.SequenceShowsDrives` | Kext Sources/AppleIntelPIIXATA/AppleIntelPIIXPATA.cpp:1036-1096 | After a write sequence the registers show both drives of the channel what the shadow says, and both of the other channel what they did before |
| `PiixChannel.SharedTimingReachesHardware` | Kext Sources/AppleIntelPIIXATA/AppleIntelPIIXPATA.cpp:1080-1087 | With shared timings, a drive's row stands in the channel's register when the drive is used, whatever was computed for the other meanwhile |
| `PiixChannel.CableBitsOfDrives` | Kext Sources/AppleIntelPIIXATA/AppleIntelPIIXATAHW.h:221-233 | A drive's cable-report bit is the one four places above its clock bit, and outside every mask that is written |
| `PiixChannel.PataTimings.CableDetected` | Kext Sources/AppleIntelPIIXATA/AppleIntelPIIXPATA.cpp:969-983 | The shifts find the drive's own cable-report bit |
| `PiixChannel.PataTimings.SelectIOTiming` | Kext Sources/AppleIntelPIIXATA/AppleIntelPIIXPATA.cpp:1217-1224 | With shared timings, switches the channel's register to the drive's value and changes no other |
| `PiixChannel.ReselectingChangesNothing` | Kext Sources/AppleIntelPIIXATA/AppleIntelPIIXPATA.cpp:842-1018 | With shared or separate drive timings, selecting again what was reported changes no timing, shadow or register, if and only if no Ultra mode was asked for or the highest, after the cable's cut, is supported; else it is refused |
| `PiixChannel.CableReportKept` | Kext Sources/AppleIntelPIIXATA/AppleIntelPIIXPATA.cpp:969-983 | Computing timings never changes what the shadow says about the cables |
| `PiixChannel.RecomputeAgain` | Kext Sources/AppleIntelPIIXATA/AppleIntelPIIXPATA.cpp:1110-1209 | Computing the same selection twice is computing it once |
| `PiixChannel.PataTimings.ComputeTimingRegisters` | Kext Sources/AppleIntelPIIXATA/AppleIntelPIIXPATA.cpp:1158-1209 | In place: the shadow becomes the computed one |
| `PiixChannel.PataTimings.ComputeUDMATimingRegisters` | Kext Sources/AppleIntelPIIXATA/AppleIntelPIIXPATA.cpp:1110-1150 | In place: the shadow becomes the computed one |
| `PiixChannel.PataTimings.WriteTimingRegisters` | Kext Sources/AppleIntelPIIXATA/AppleIntelPIIXPATA.cpp:1026-1102 | Writes the five masked fields, or with shared timings one drive's IDETIM, and nothing else |
| `PiixChannel.PataTimings.ResetTimingsForDevice` | Kext Sources/AppleIntelPIIXATA/AppleIntelPIIXPATA.cpp:576-590 | Selects PIO mode 0 without DMA, and computes and writes its registers, which then show the drive so |
| `PiixChannel.PataTimings.GetConfig` | Kext Sources/AppleIntelPIIXATA/AppleIntelPIIXPATA.cpp:798-834 | Reports the selected modes and cycle times; refuses an unknown unit |
| `PiixChannel.PataTimings.SelectConfig` | Kext Sources/AppleIntelPIIXATA/AppleIntelPIIXPATA.cpp:842-1018 | In place: the selection, the shadow and the reported modes; with separate timings the registers give the drive the selected cycle times and leave the other drives as they were; a refused request changes nothing |
| `PiixChannel.PciRoot.PciConfigWrite8` | Kext Sources/AppleIntelPIIXATA/AppleIntelPIIXATARoot.cpp:633-647 | In place: a locked masked write of one byte |
| `PiixChannel.PciRoot.PciConfigWrite16` | Kext Sources/AppleIntelPIIXATA/AppleIntelPIIXATARoot.cpp:649-663 | In place: a locked masked write of one little-endian word |
| `PciConfig.WritesCommute` | Kext Sources/AppleIntelPIIXATA/AppleIntelPIIXATARoot.cpp:633-663 | Two masked writes commute when they touch different bytes, or one register with no bit written differently |
| `PciConfig.InterleavingIsSerial` | Kext Sources/AppleIntelPIIXATA/AppleIntelPIIXATARoot.cpp:633-663 | Any interleaving of two compatible write sequences leaves the space of one sequence after the other |
| `PciConfig.ChannelsCompatible` | Kext Sources/AppleIntelPIIXATA/AppleIntelPIIXPATA.cpp:1036-1074 | The two channels' masks overlap only in WR_PP_EN, which both always set, so their writes commute |
| `PciConfig.MasksAreTheDrivesBits` | Kext Sources/AppleIntelPIIXATA/AppleIntelPIIXPATA.cpp:1036-1074 | Each mask is made of exactly the bits that the computations fill for the channel's two drives, and WR_PP_EN in IDECONFIG |
| `PciConfig.SequenceRegisters` | Kext Sources/AppleIntelPIIXATA/AppleIntelPIIXPATA.cpp:1087-1096 | What each register holds after a write sequence, by its address |
| `PciConfig.SequenceWritesFields` | Kext Sources/AppleIntelPIIXATA/AppleIntelPIIXPATA.cpp:1087-1096 | After a write sequence the channel's fields equal its shadow |
| `PciConfig.OtherChannelKeepsFields` | Kext Sources/AppleIntelPIIXATA/AppleIntelPIIXPATA.cpp:1036-1074 | No write of the other channel disturbs them |
| `PciConfig.WritesKeepCableBits` | Kext Sources/AppleIntelPIIXATA/AppleIntelPIIXPATA.cpp:1095-1096 | No write changes a cable-report bit |
| `PciConfig.WritingAgain` | Kext Sources/AppleIntelPIIXATA/AppleIntelPIIXPATA.cpp:1087-1096 | Writing the same shadow again changes no register |
| `PciConfig.ChannelIsolation` | Kext Sources/AppleIntelPIIXATA/AppleIntelPIIXPATA.cpp:1026-1102 | Over whole runs, every interleaving of the two channels' writes equals both serial orders, leaves each channel's fields equal to its last shadow, and keeps the cable bits |
| `DsdtRenamer.CmpStr` | DSDT_Patcher/main.c:309-318 | Finds the needle exactly when it occurs |
| `DsdtRenamer.TakenNamesNeedT` | DSDT_Patcher/main.c:647-661 | If the first n names are all taken, the file has at least n letters T |
| `DsdtRenamer.FindFreshPrefix` | DSDT_Patcher/main.c:647-661 | The search ends on every file, with the least n whose name occurs in no line, at most the number of letters T |
| `DsdtRenamer.RenamedLength` | DSDT_Patcher/main.c:760-777 | A rewritten line is at most four times as long |
| `DsdtRenamer.RewriteLine` | DSDT_Patcher/main.c:755-782 | The loop writes the renamed line and its terminators inside the allocated buffer |
| `DsdtRenamer.RenamingIsReversible` | DSDT_Patcher/main.c:755-782 | If the name does not occur in a line, replacing it by `_T_` in the rewritten line gives the line back |
| `DsdtRenamer.RenamingKeepsLinesApart` | DSDT_Patcher/main.c:647-661 | With the prefix found, lines of the file that differ stay different |
| `DsdtRenamer.OccurrencesAreInsertions` | DSDT_Patcher/main.c:763-776 | The name occurs in the rewritten line exactly where it was inserted |
| `DsdtRenamer.IssueRemainsExactly` | DSDT_Patcher/main.c:755-777 | A rewritten line still contains `_T_` if and only if a replaced `_T_` shares its last underscore with the next |
| `DsdtRenamer.SharedUnderscore` | DSDT_Patcher/main.c:755-777 | `_T_T_` is such a line |
| `DsdtRenamer.PatchLines` | DSDT_Patcher/main.c:663-782 | Every line is renamed with the one prefix the search finds |
| `AudioTimers.AddKeepsSane` | Kext Sources/IOAudioFamily/IOAudioDevice.cpp:1037-1131 | Registering keeps minimumInterval at most every interval, previousTimerFire at most the clock, and the alarm set and not before the next round |
| `AudioTimers.RemoveKeepsSane` | Kext Sources/IOAudioFamily/IOAudioDevice.cpp:1133-1204 | Removing keeps the same |
| `AudioTimers.FireKeepsSane` | Kext Sources/IOAudioFamily/IOAudioDevice.cpp:1219-1297 | A round keeps the same; asleep there is no round |
| `AudioTimers.ResyncKeepsSane` | Kext Sources/IOAudioFamily/IOAudioDevice.cpp:630-636 | Waking resynchronises: the round that follows is reckoned from now, and the alarm set one interval on |
| `AudioTimers.AddKeepsExactIff` | Kext Sources/IOAudioFamily/IOAudioDevice.cpp:1076-1112 | Registering keeps minimumInterval exact if and only if it does not lengthen the only shortest of several timers |
| `AudioTimers.StaleStaysStale` | Kext Sources/IOAudioFamily/IOAudioDevice.cpp:1150-1168 | Once too low, removing timers does not correct it while one is left |
| `AudioTimers.FirstFireOnTimeIff` | Kext Sources/IOAudioFamily/IOAudioDevice.cpp:1101-1128 | Exactly when a newly registered timer is served within its interval; the alarm is then its time or the one that was set |
| `AudioTimers.LateFirstFireExample` | Kext Sources/IOAudioFamily/IOAudioDevice.cpp:1101-1128 | Two additions of ever smaller intervals after which the third is served late |
| `AudioTimers.OnlyTimerOnTime` | Kext Sources/IOAudioFamily/IOAudioDevice.cpp:1076-1100 | A timer that is the only one is first served after exactly its interval |
| `AudioTimers.AddKeepsGridIff` | Kext Sources/IOAudioFamily/IOAudioDevice.cpp:1101-1128 | Registering keeps the alarm one least interval after the last round if and only if it does not lower that interval, or comes at the time of the round |
| `AudioTimers.RemoveKeepsGrid` | Kext Sources/IOAudioFamily/IOAudioDevice.cpp:1133-1204 | Removing keeps it there |
| `AudioTimers.OthersKeepDue` | Kext Sources/IOAudioFamily/IOAudioDevice.cpp:1037-1204 | A target that is due by a deadline stays so when others are registered or removed |
| `AudioTimers.RoundIsPunctual` | Kext Sources/IOAudioFamily/IOAudioDevice.cpp:1272-1293 | A round makes every registered target due again within its interval |
| `AudioDevice.RunKeepsInvariant` | Kext Sources/IOAudioFamily/IOAudioDevice.cpp:440-736 | Over every run: the power states fit the running engines, an outstanding idle change has its alarm set, transitions chain, and the timers are sane |
| `AudioDevice.StateFollowsFromHistory` | Kext Sources/IOAudioFamily/IOAudioDevice.cpp:481-736 | After any run the device sleeps exactly if the last counting request asked for it, and is active whenever it is awake with an engine running, whatever the idle delay |
| `AudioDevice.StateIsExactly` | Kext Sources/IOAudioFamily/IOAudioDevice.cpp:129-736 | The power state of any run from its history alone: asleep if sent to sleep, else active exactly while an engine runs or an idle delay is left; with the clock, the delay and its start |
| `AudioDevice.ChangesAreRecorded` | Kext Sources/IOAudioFamily/IOAudioDevice.cpp:555-587 | The transitions are exactly the changes of state, with the engines and the time |
| `AudioDevice.TransitionsSuitEngines` | Kext Sources/IOAudioFamily/IOAudioDevice.cpp:555-587 | No run takes the device to Idle while an engine runs, or to Active while none does; each transition starts where the last ended |
| `AudioDevice.DelayEndsExactly` | Kext Sources/IOAudioFamily/IOAudioDevice.cpp:129-196 | The steps that take an active device with no engine running to Idle are exactly: its alarm, a delay of 0 being set, and a wake request that counts |
| `AudioDevice.IdleAlarmIsNotEarly` | Kext Sources/IOAudioFamily/IOAudioDevice.cpp:147-196 | The idle alarm takes the device to Idle exactly if it is active with no engine running, and not before the delay is over if and, while the clock is in range, only if the 64-bit sum does not wrap |
| `AudioDevice.AwakeRequestSkipsDelay` | Kext Sources/IOAudioFamily/IOAudioDevice.cpp:513-531 | A wake request to an awake device completes an outstanding idle change at once |
| `AudioDevice.WrappedDelayExample` | Kext Sources/IOAudioFamily/IOAudioDevice.cpp:168-175 | A run in which a delay near 2^64 is over at the time at which it starts |
| `AudioDevice.RegisteringOnceIsExact` | Kext Sources/IOAudioFamily/IOAudioDevice.cpp:1037-1204 | If no registered target is registered again, minimumInterval is the least interval throughout the run |
| `AudioDevice.RoundServesInTime` | Kext Sources/IOAudioFamily/IOAudioDevice.cpp:1230-1297 | In every run, a round while awake makes each registered target due within its interval |
| `AudioDevice.RegistrationsFollowFromHistory` | Kext Sources/IOAudioFamily/IOAudioDevice.cpp:1037-1204 | After any run a target is registered, with its interval, exactly as the last registration or removal says |
| `AudioDevice.PowerStepsLeaveTimers` | Kext Sources/IOAudioFamily/IOAudioDevice.cpp:440-736 | Power steps leave the registered intervals alone, and all of the timers unless they wake the device |
| `AudioDevice.NoRoundsAsleep` | Kext Sources/IOAudioFamily/IOAudioDevice.cpp:1230-1297 | An alarm that goes off asleep is spent without a round |
| `AudioDevice.WakingServesInTime` | Kext Sources/IOAudioFamily/IOAudioDevice.cpp:630-636 | After waking, every registered target is due within its interval |
| `AudioDevice.RoundsDoNotDrift` | Kext Sources/IOAudioFamily/IOAudioDevice.cpp:1262-1293 | However late each alarm is handled, over any run without registrations or sleep the rounds are reckoned one least interval apart |
| `AudioDriver.Driver.AddTimerEvent` | Kext Sources/IOAudioFamily/IOAudioDevice.cpp:1037-1131 | In place; refuses a missing callback |
| `AudioDriver.Driver.LeastInterval` | Kext Sources/IOAudioFamily/IOAudioDevice.cpp:1158-1168 | The loop finds the least of the intervals that are left |
| `AudioDriver.Driver.RemoveTimerEvent` | Kext Sources/IOAudioFamily/IOAudioDevice.cpp:1133-1204 | In place, with the loop for a new minimum |
| `AudioDriver.Driver.DispatchTimerEvents` | Kext Sources/IOAudioFamily/IOAudioDevice.cpp:1230-1297 | Calls every registered target once, then sets the next alarm; asleep only when forced |
| `AudioDriver.Driver.TimerFired` | Kext Sources/IOAudioFamily/IOAudioDevice.cpp:1219-1297 | In place: each registered target is called once, none asleep, and the next alarm is set |
| `AudioDriver.Driver.InitiatePowerStateChange` | Kext Sources/IOAudioFamily/IOAudioDevice.cpp:555-587 | In place: one transition to the pending state, if there is any to make |
| `AudioDriver.Driver.ProtectedCompletePowerStateChange` | Kext Sources/IOAudioFamily/IOAudioDevice.cpp:618-674 | In place: takes on the pending state, after resynchronising the timers when waking |
| `AudioDriver.Driver.AudioEngineStarting` | Kext Sources/IOAudioFamily/IOAudioDevice.cpp:693-717 | In place: the first engine makes an idle device active, or calls off an outstanding idle change |
| `AudioDriver.Driver.AudioEngineStopped` | Kext Sources/IOAudioFamily/IOAudioDevice.cpp:719-736 | In place: the last engine schedules idle sleep |
| `AudioDriver.Driver.SetIdleAudioSleepTime` | Kext Sources/IOAudioFamily/IOAudioDevice.cpp:129-144 | In place: a changed delay reschedules, no delay at all cancels |
| `AudioDriver.Driver.IdleAudioSleepHandlerTimer` | Kext Sources/IOAudioFamily/IOAudioDevice.cpp:181-196 | In place: goes idle only if that is still pending |
| `AudioDriver.Driver.SetPowerState` | Kext Sources/IOAudioFamily/IOAudioDevice.cpp:440-534 | In place: ignores the first request, refuses an unknown ordinal, else sleeps or wakes |
| `KeyBits.HeldIsASet` | Kext Sources/ApplePS2Controller/ApplePS2Keyboard.h:42-56 | The four-word bit vector refines a set of key codes: setting, clearing and looking up a bit are those of a set |
| `KeyBits.OneKeyChanges` | Kext Sources/ApplePS2Controller/ApplePS2Keyboard.h:49-56 | A key's bit is changed without changing any other key's |
| `Keyboard.StreamKeepsKeyState` | Kext Sources/ApplePS2Controller/ApplePS2Keyboard.cpp:230-471 | After any stream of scan codes the keys held are those whose last event from the common dispatch was a press, all in 1..127 |
| `Keyboard.KeysFollowCodes` | Kext Sources/ApplePS2Controller/ApplePS2Keyboard.cpp:230-471 | From any state and for every stream: each code below 0x80 presses and each other releases the keys it stands for, a key is held exactly if its last stroke was a press, and the events are those strokes without repeated presses |
| `Keyboard.OwnKeyFollowsItsCodes` | Kext Sources/ApplePS2Controller/ApplePS2Keyboard.cpp:299-471 | A key with a code of its own is held exactly if the last of its codes, outside extended sequences, was the make code below 0x80 |
| `Keyboard.OwnCodeReports` | Kext Sources/ApplePS2Controller/ApplePS2Keyboard.cpp:437-471 | Its make code reports a press, or nothing while it is held; its break code reports a release |
| `Keyboard.SpecialKeys` | Kext Sources/ApplePS2Controller/ApplePS2Keyboard.cpp:340-378 | The eject key reports its combination, and the sleep key asks for sleep when pressed; neither is held |
| `Keyboard.NamedKeysReachTheSystem` | Kext Sources/ApplePS2Controller/ApplePS2ToADBMap.h:109-241 | Each modifier and each key with an extended code reaches the system under its own code, under every option |
| `Keyboard.NoDoublePress` | Kext Sources/ApplePS2Controller/ApplePS2Keyboard.cpp:437-471 | No key is reported pressed twice without a release in between |
| `Keyboard.KeysStayApart` | Kext Sources/ApplePS2Controller/ApplePS2Keyboard.cpp:307-433 | Two different keys have one key code exactly for Caps Lock as control with the right control key, and the menu key with the right command key |
| `Keyboard.PauseReportsNothing` | Kext Sources/ApplePS2Controller/ApplePS2Keyboard.cpp:277-297 | From any state, the six bytes of the Pause key give no event and change no key |
| `Keyboard.PrintScreenReleases` | Kext Sources/ApplePS2Controller/ApplePS2Keyboard.cpp:391-414 | Print Screen pressed and released leaves the keys it stands for up, also those the user holds, and no other key changed |
| `Keyboard.KeyboardDriver.DispatchKeyboardEventWithScancode` | Kext Sources/ApplePS2Controller/ApplePS2Keyboard.cpp:248-471 | In place, with the recursion for Print Screen, which is one level deep; what each code does is stated by `KeysFollowCodes` |
| `Keyboard.KeyboardDriver.InterruptOccurred` | Kext Sources/ApplePS2Controller/ApplePS2Keyboard.cpp:230-244 | Acknowledge and resend codes are ignored; all others are dispatched |

## Left out

- Ps2Controller.Ps2Controller.SetPowerStateGated: the handlers notified before sleep and after waking are not called, because they submit requests from inside the power change.
- CommandByte.NoLostUpdate: holds for requests executed one at a time with no asynchronous keyboard byte between a question and its answer; a handler that submits a blocking request while one is being processed nests requests and is not modelled.
- CommandByte.CommandBytePort.SetCommandByte: for the loop itself other callers are a finite list of interruptions, so the loop ends; with the hardware offline it would not, which `OfflineNeverFinishes` states.
- DsdtRenamer.PatchLines: lines are taken to fit the read buffer and to match none of the earlier fixes, and `fprintf` of the line to copy it, although it reads the line as a format.
- DsdtRenamer.RewriteLine: the number in the prefix is below 2^31, the width of the C variable.
- PiixChannel.PataTimings.SelectConfig: a lookup past the Ultra table is an outcome of its own that changes nothing; the C code reads whatever follows the table.
- The values a channel driver keeps per drive are sequences of length two rather than arrays in place.
- PrdPlan.EngineTransfersRequest: the engine is taken to transfer an odd count as it stands.
- AudioDevice.RunKeepsInvariant: drivers complete a power-state change at once and successfully; asynchronous and failing changes, which wait once without looking again, are not modelled.
- AudioTimers.RoundIsPunctual: callbacks do not register or remove timers; clock readings do not wrap around.
- Keyboard.NamedKeysReachTheSystem: only modifiers and keys with extended codes are named; for the other keys the table of system codes is data.
- PrdBuilder.PataChannel.CreateChannelCommands: how the superclass generates segments and stores a descriptor (`IOPCIATA` is not part of this model); segments are a list, and running out of it or meeting an empty one is a panic.
- PciConfig.ChannelIsolation: `turnOffDrive` and `turnOnDrive` rewrite IDECONFIG as 32 bits without the lock and are outside the claim.
- The debugger's escape keys (`doEscape` of the PS/2 controller), which are off by default: interrupts always queue the byte.
- Completion routines of requests, and waiting for them.
- The rest of `DSDT_Patcher/main.c`: shell commands, configuration, alias and bracket-counting fixes.
- IOKit object life cycle, registry properties, probing and matching, logging, delays and memory allocation.
- The Synaptics and ALPS drivers, battery reporting, the ACPI nub, display headers and audio controls: they would add only easy members.
