# Driver proofs for the STM32H755 support library

This project models the stateful and the arithmetic core of the STM32H755 device layer and proves it correct: the Ethernet
descriptor rings behind a write-back data cache, the clock-tree transition, the DMA stream allocator and its transfer state,
the polled and DMA-driven SPI engines, the polled I2C engine, the timer, PWM and I2C divider arithmetic, and the wrapping
millisecond time base under all of them. `dafny verify dfyconfig.toml` checks everything.

## How the hardware is modelled

A driver method is written in the order of the C code, register access by register access. Between two accesses to shared
state it calls a method (`Interfere`, `Drift`, `Hardware`, `OtherTasks`, `RunOut`) that performs any number of
environment steps in any order, so a proof about the method is a proof about every interleaving. Each environment is a
datatype of events with a total function that applies one event; an event that is impossible in the current state changes
nothing. The rings, the SPI link and the I2C bus are values, their invariants are predicates on those values, and one lemma
per module says that no event breaks the invariant.

| file | contents |
|---|---|
| `Results.dfy`, `Division.dfy` | result codes and words; products and rounded quotients |
| `Cache.dfy` | line cover of a byte range, one write-back cache line |
| `EthDescriptors.dfy`, `EthRxRing.dfy`, `EthTxRing.dfy` | descriptors and buffers in cache and memory, what DMA does to them, the ring invariants |
| `EthDriver.dfy` | the Ethernet driver: init, send, receive, link state |
| `Clock.dfy`, `ClockTransition.dfy` | promised and decoded frequencies; the register sequence that moves the system clock |
| `DmaHandle.dfy`, `DmaAllocator.dfy` | generation-tagged handles; acquire and release under interleaving, over whole runs |
| `DmaFlags.dfy`, `DmaController.dfy` | packed flag groups; stream configuration, start, poll, wait, abort |
| `TimeBase.dfy` | intervals, deadlines, delays and operation-wide waits against an unbounded clock |
| `SpiPolled.dfy`, `SpiDma.dfy` | SPI transfers by polling and by a pair of DMA streams |
| `I2cBus.dfy`, `I2cTransfer.dfy`, `I2cTiming.dfy` | the I2C controller as a producer of bus traces, the transfers, the timing register |
| `TimerDividers.dfy` | periodic and PWM dividers, duty |

Polled calls return `Returned(status)`, or `Polling` when the last poll that is observed is over and the call is still
waiting: `budget` says how many polls are observed, so every finite prefix of a call that never ends is covered too. On a
steady clock (one that advances by 1 to 2^31 ms between readings) a finite wait never outlasts as many polls as its timeout
has milliseconds.

A refusal, an error and a timeout are answers too, and their contracts are as exact as those of success: each call says for
which arguments and states it may refuse, and a wait that gives up says how often it has looked and that the last look did not
show what it waits for. The looks are counted where the register is read (`unready`, `spins`, `polls`, `looks`). The fields of
descriptors, flags and PHY registers are stated once more by their bit positions (`EthDescriptors.StatusBits`,
`EthTxRing.FrameBits`, `DmaController.FlagPlaces`).

Six limits of the code are part of the model, each with the input that shows it:

- A bus fault raised after a send's last look at DMACSR is not reported by that send (`EthTxRing.LateFaultCanLoseFrame`, and
  the `fault` alternative in `EthDriver.Driver.Send`). Without a fault no published frame is lost
  (`EthTxRing.FaultFreeFlightDelivers`).
- A stream that does not stop within the spin limit stays claimed. `stuck` in `DmaController` counts such timeouts, and a call
  gives its claims back whenever the count did not grow during that call.
- A byte that comes in between the last poll of a timed-out I2C read and its STOP stays in RXDR, and the next read delivers it
  first (`I2cBus.AbortCanLeaveByte`). For every read, all bytes delivered are the target's own exactly when RXDR was empty
  (`I2cBus.OwnBytesExactlyWhenEmpty`).
- A byte written while the previous one is refused stays in TXDR, and the next write sends it first
  (`I2cBus.NackCanLeaveByte`). For every write, the bus shows a beginning of what was asked exactly when TXDR was empty
  (`I2cBus.OwnPrefixExactlyWhenEmpty`); a write that finds TXDR full, and no
  START waiting, never returns Ok.
- An SPI transfer whose `rx` begins inside `tx` sends bytes it has just received in place of the caller's
  (`SpiPolled.OriginalExactlyUnlessLapped`); for every other pair of buffers the original goes out in every schedule
  (`SpiPolled.Spi.Transfer`).
- A START commanded while another master holds the bus outlives the call's timeout and goes out later
  (`I2cBus.AbortCanLeaveStart`), and can make the next phase look finished before it began
  (`I2cBus.WaitingStartCanFeignEnd`). On a bus found free, a phase is the only thing that goes out exactly when no such START
  was waiting (`I2cBus.OwnPhaseExactlyWhenNonePending`). The I2C calls start from any state; what they claim of the bus holds
  when no START was waiting at the moment they found it free, and a call whose own START has gone out leaves none waiting.

## Model

| member | source | states |
|---|---|---|
| Cache.RangeIsSmallestCover | src/mcu/cortex_m/cache.c:22-54 | the computed range covers the bytes with whole lines, and every other line-aligned cover contains it |
| Cache.RangeRefusedExactly | src/mcu/cortex_m/cache.c:31-49 | a nonempty range is refused exactly when it is null, wraps the address space, or has no cover the maintenance primitives can take |
| Cache.RangeOfAlignedArray | src/mcu/cortex_m/cache.c:35-53 | on a line-aligned array the range is exactly its first lines, so no neighbour's line is touched and the call is never refused |
| Cache.AbsentLineNeedsNoMaintenance | src/mcu/cortex_m/cache.c:65-71 | with the cache off, skipping the operations equals doing them |
| EthDescriptors.BlocksAtSlot | src/device/stm32h755/eth.c:107-115 | DMA that follows a descriptor's buffer address reads that slot's buffer and nothing else |
| EthDescriptors.StatusBits | src/device/stm32h755/eth.c:46-57 | every bit of a descriptor's status word that the driver reads, by its place in the word: OWN, FD, LD, ES and the length |
| EthRxRing.EnvironmentKeepsInv | src/device/stm32h755/eth.c:368-388 | no order of line fetches, evictions, DMA stores and descriptor completions breaks what the receive path relies on, at any point of a call |
| EthRxRing.StoreLandsInSlot | src/device/stm32h755/eth.c:296-299 | DMA stores through an armed descriptor land in its own buffer line |
| EthRxRing.CloseKeepsRing | src/device/stm32h755/eth.c:594-602 | a completed descriptor joins the end of the arrival order with the buffer the DMA wrote, every other slot unchanged |
| EthRxRing.ProbeStep | src/device/stm32h755/eth.c:263-269 | invalidating the descriptor loses no store and makes an arrived completion visible |
| EthRxRing.SeenStep | src/device/stm32h755/eth.c:600-604 | a descriptor read without OWN is the completion next in order, and its status word is the one the DMA wrote |
| EthRxRing.ReadStep | src/device/stm32h755/eth.c:623-627 | every byte read after the invalidation is the one the DMA wrote |
| EthRxRing.RewriteStep | src/device/stm32h755/eth.c:376-379 | whatever is evicted between the stores, OWN reaches memory only with the other words |
| EthRxRing.PublishStep | src/device/stm32h755/eth.c:380-386 | after the clean the slot is armed and the consumed run has moved by one |
| EthRxRing.CpuOwnedRunIsContiguous | src/device/stm32h755/eth.c:594-636 | at every moment, between calls and in all six phases of one, the OWN-clear descriptors are the contiguous cyclic run that starts at the driver's index, or at its successor once the consumed slot has been given back |
| EthRxRing.OwnedMeansRearmed | src/device/stm32h755/eth.c:368-388 | whenever memory shows OWN, the rest of that descriptor is in memory and no dirty line can overwrite it or its buffer |
| EthRxRing.ArmedBits | src/device/stm32h755/eth.c:375-379 | a re-armed descriptor holds its own buffer's address, OWN and BUF1V, and no other bit |
| EthTxRing.EnvironmentKeepsInv | src/device/stm32h755/eth.c:522-549 | no order of cache and DMA events breaks what a send relies on, at any point of a send |
| EthTxRing.WireGetsFrame | src/device/stm32h755/eth.c:531-548 | what DMA reads through a published descriptor is the caller's frame, byte for byte |
| EthTxRing.FlyingKept | src/device/stm32h755/eth.c:544-571 | until the DMA gives the descriptor back, it and the frame in memory stay as published; after that the frame is on the wire unless a fault was raised |
| EthTxRing.HoldStep | src/device/stm32h755/eth.c:522-529 | invalidating the next descriptor drops no dirty line |
| EthTxRing.CopyStep | src/device/stm32h755/eth.c:531 | each copied byte is what the CPU reads back, whatever the cache fetched or evicted before |
| EthTxRing.CompleteStep | src/device/stm32h755/eth.c:566-567 | a descriptor read without OWN has been given back and the whole ring is CPU-owned again |
| EthTxRing.OwnedMeansPublished | src/device/stm32h755/eth.c:537-549 | whenever memory shows OWN, memory holds that whole descriptor and every byte of the frame |
| EthTxRing.FrameBits | src/device/stm32h755/eth.c:537-544 | a published descriptor hands over its own buffer as one whole frame whose length both length fields hold |
| EthTxRing.LateFaultCanLoseFrame | src/device/stm32h755/eth.c:561-568 | a fault raised after the DMACSR read can end a send with the frame not on the wire and the descriptor given back |
| EthTxRing.FaultFreeFlightDelivers | src/device/stm32h755/eth.c:544-571 | without a fault, after any sequence of cache and DMA events, a published frame is still published or it is on the wire, once |
| EthDriver.Driver.Interfere | src/device/stm32h755/eth.c:107-119 | any amount of cache, DMA and fault activity keeps both ring invariants; arrivals, wire and fault only grow |
| EthDriver.Driver.EnterFaultState | src/device/stm32h755/eth.c:359-366 | ends the initialization with TE, RE, ST and SR clear |
| EthDriver.DeliverableByBits | src/device/stm32h755/eth.c:604-612 | by the bits of the status word alone: a completion is delivered exactly with FD and LD set, ES clear and 14 to 1518 bytes |
| EthDriver.Driver.LinesTouched | src/mcu/cortex_m/cache.c:103-135 | a maintenance call on a descriptor or buffer covers exactly its own lines |
| EthDriver.Driver.InvalidateRxDescriptor | src/device/stm32h755/eth.c:594-599 | a completion that had arrived when the call began is seen |
| EthDriver.Driver.ReadRxStatus | src/device/stm32h755/eth.c:600-604 | a status without OWN belongs to the next completion in order |
| EthDriver.Driver.RecycleRxDescriptor | src/device/stm32h755/eth.c:368-388 | gives exactly the consumed slot back and moves the consumed count by one |
| EthDriver.Driver.CopyFrame | src/device/stm32h755/eth.c:623-628 | the caller's buffer receives the DMA-written bytes, the rest of it is unchanged, while the environment runs |
| EthDriver.Driver.TakeFrame | src/device/stm32h755/eth.c:604-636 | one completion is answered once: delivered whole, dropped as malformed, or dropped as too long for the buffer, each with its result code; every completion that had arrived is kept, so the one answered is the one that was next |
| EthDriver.Driver.Receive | src/device/stm32h755/eth.c:575-638 | call outcomes match completions one to one and in order, and those of before the call are kept; a frame present at the start is never missed; a fault ends the initialization; refused calls change nothing |
| EthDriver.Driver.ReadLinkState | src/device/stm32h755/eth.c:390-450 | the result and the link are exactly what the PHY's registers give: bit 2 of the second BSR, and for a set bit the mode in PHYSCSR; a timeout only after a million busy looks; MACCR speed and duplex follow a reported link, TE and RE survive, nothing else changes |
| EthDriver.Driver.LinkState | src/device/stm32h755/eth.c:640-657 | refused exactly for a wrong handle or before init, else exactly the answer of the PHY; link queries and link loss never end the initialization and touch no ring |
| EthDriver.Driver.CopyIn | src/device/stm32h755/eth.c:531 | the buffer holds the caller's frame when the copy ends |
| EthDriver.Driver.CleanTxBuffer | src/device/stm32h755/eth.c:532-535 | every line of the frame is in memory before the descriptor is described |
| EthDriver.Driver.DescribeAndPublish | src/device/stm32h755/eth.c:537-549 | descriptor words first, OWN last, clean afterwards |
| EthDriver.Driver.WaitSent | src/device/stm32h755/eth.c:556-571 | Ok only when the DMA gave the descriptor back and the DMACSR read one environment turn earlier showed no fault; Timeout only after a million looks that all showed OWN; IoError only after a fault; otherwise the driver has stopped |
| EthDriver.Driver.PublishFrame | src/device/stm32h755/eth.c:522-549 | the ring is never full between sends, and the published frame is the caller's |
| EthDriver.Driver.Send | src/device/stm32h755/eth.c:496-573 | frames of successful sends are on the wire in call order and byte for byte, save one lost to a fault after the last DMACSR read, which is the last access but one; NotReady from an initialized driver exactly when the PHY shows no link, and with a link the answer is Ok, IoError after a fault seen, or Timeout after a million looks at OWN; completions that arrived before or during the call are kept; refused calls change nothing |
| EthDriver.OutcomesAnswerArrivalsInOrder | src/device/stm32h755/eth.c:575-638 | over every sequence of receives, sends and link queries, the n-th outcome is the answer to the n-th arrival, whenever either happened: none skipped, none answered twice |
| EthDriver.EveryArrivalIsAnswered | src/device/stm32h755/eth.c:594-636 | over every such sequence, as many polls as there were unanswered arrivals answer them all |
| EthDriver.Driver.Session | src/device/stm32h755/eth.c:496-657 | the calls of any script, made one after the other, produce such a sequence |
| EthDriver.Driver.ResetMacDma | src/device/stm32h755/eth.c:140-152 | both engines stopped and the history of the last initialization closed |
| EthDriver.Driver.SoftwareReset | src/device/stm32h755/eth.c:467-471 | the polled reset keeps both ring invariants while it runs; Ok means the MAC and DMA registers and the fault are clear, Timeout that a million looks showed it unfinished |
| EthDriver.Driver.DiscoverPhy | src/device/stm32h755/eth.c:224-256 | the first address at which a PHY with a plausible identity answers; NotReady only when all 32 have been asked and none did |
| EthDriver.Driver.ConfigurePhy | src/device/stm32h755/eth.c:258-268 | Ok means BCR is rewritten with auto-negotiation on and restarted, power-down and isolation off and every other bit as read |
| EthDriver.Driver.ClearTxDescriptors | src/device/stm32h755/eth.c:275-287 | all transmit descriptors end CPU-owned in memory |
| EthDriver.Driver.ArmRxDescriptors | src/device/stm32h755/eth.c:289-307 | all receive descriptors end armed in memory with no dirty line over them |
| EthDriver.Driver.StartMacDma | src/device/stm32h755/eth.c:348-354 | TE, RE, ST and SR set, both rings running with nothing consumed or sent |
| EthDriver.Driver.Init | src/device/stm32h755/eth.c:454-494 | from any earlier state, with the environment active throughout: refused exactly for a wrong handle, a group address or the zero address; initialized exactly when the result is Ok, with both rings rebuilt and the first PHY that answers set up; NotReady only when no PHY answers, Timeout only after a million looks of one wait |
| Clock.DividersRoundTrip | src/device/stm32h755/clock.c:32-49 | every encodable divider decodes to itself, and every field value decodes to an encodable divider |
| Clock.AcceptedExactly | src/device/stm32h755/clock.c:190-280 | which configurations are accepted, which are invalid and which ask too much, and what is promised, in plain numbers |
| Clock.ProfilesKeepTheirRate | src/board/nucleo_h755zi_q/clock.c:27-90 | every profile of the board is accepted and promises CM7 the rate it is named for |
| Clock.ScaledQuotient | src/device/stm32h755/clock.c:100-110 | the 8192-scaled 64-bit quotient equals (source / m) * n / p |
| Clock.PllReadback | src/device/stm32h755/clock.c:86-112 | the readback of an installed PLL is the quotient of its fields over the reference the tree selects |
| Clock.PllDecodesAsPromised | src/device/stm32h755/clock.c:86-112 | the readback of an installed PLL is the promised system frequency |
| Clock.ReadbackEqualsPromise | src/device/stm32h755/clock.c:445-457 | for every accepted configuration the decoded registers give the promise in all eight fields |
| ClockTransition.DriftKeepsEnvelope | src/device/stm32h755/clock.c:151-160 | a flag that follows late, or SWS following SW after a timeout was returned, never leaves the envelope |
| ClockTransition.HsiIsAlwaysSafe | src/device/stm32h755/clock.c:360-382 | on undivided HSI no divider setting leaves the envelope, so dividers may go in first |
| ClockTransition.EnablingHsiIsSafe | src/device/stm32h755/clock.c:287 | turning HSI on leaves the running clock alone |
| ClockTransition.AskingForHsiIsSafe | src/device/stm32h755/clock.c:291-294 | the switch request is safe for the old clock and for HSI |
| ClockTransition.TargetIsSafe | src/device/stm32h755/clock.c:384-403 | once all its writes are in, the target is within 400/200/100 MHz and above 64 MHz only with VOS1 and four wait states |
| ClockTransition.ClockTree.Write | src/device/stm32h755/clock.c:286-403 | a register write is accepted only if the state it leaves is inside the envelope, it neither stops nor reprograms a clock in use, and HSE bypass and PLL fields change only while their clock is off and not ready |
| ClockTransition.ClockTree.Drift | src/device/stm32h755/clock.c:151-160 | any amount of hardware progress extends the trace of states inside the envelope |
| ClockTransition.ClockTree.WaitFlag | src/device/stm32h755/clock.c:151-160 | Ok only with the flag seen; Timeout only after as many looks as the limit, none of which showed it |
| ClockTransition.ClockTree.WaitSwitched | src/device/stm32h755/clock.c:291-295 | the same for SWS |
| ClockTransition.ClockTree.SwitchToHsi | src/device/stm32h755/clock.c:286-296 | Ok means HSI drives the tree, from wherever an earlier call left it; Timeout that it did not within the limit |
| ClockTransition.ClockTree.PrepareFastClock | src/device/stm32h755/clock.c:419-430 | Ok means VOS1 is ready and the FLASH delays read back; Unsupported means the write of four wait states was made and refused, FLASH kept its old delays and they are not enough |
| ClockTransition.ClockTree.ConfigureBusDividers | src/device/stm32h755/clock.c:360-382 | exactly the encoded divider fields change, whatever the hardware does between the three register writes |
| ClockTransition.ClockTree.ConfigureSource | src/device/stm32h755/clock.c:298-316 | HSE is stopped, given the configured bypass and restarted only while HSI drives the tree; the PLL stays as it was |
| ClockTransition.ClockTree.ConfigurePll | src/device/stm32h755/clock.c:318-358 | the PLL is stopped, programmed as configured with the input range of its reference, and restarted only while HSI drives the tree, whatever flag moves between its writes; HSE stays as it was |
| ClockTransition.ClockTree.SwitchToTarget | src/device/stm32h755/clock.c:384-403 | the switch happens with everything in place, and then the readback equals the promise |
| ClockTransition.ClockTree.Apply | src/device/stm32h755/clock.c:407-462 | over any sequence of calls, any hardware progress between any two writes and any timeout exit, every intermediate state is inside the envelope and leaves live clocks alone; a refused configuration writes nothing; Timeout only while some flag or SWS has not followed within the limit, so never on a settled tree; Unsupported only when FLASH refused the wait states; the closing comparison cannot fail |
| DmaHandle.IssuedHandleDecodes | src/device/stm32h755/dma_handle_internal.h:31-50 | an issued handle decodes to its index and generation, matches while claimed, not after, and is never the invalid handle |
| DmaHandle.GenerationAdvances | src/device/stm32h755/dma_handle_internal.h:25-29 | the k-th allocation has generation 1 + (k - 1) mod 536870910 |
| DmaHandle.MatchesOwnGenerationOnly | src/device/stm32h755/dma_handle_internal.h:41-50 | the handle of allocation k fits allocation n of its stream exactly when n - k is a whole number of periods |
| DmaAllocator.AcquireOutcome | src/device/stm32h755/dma.c:180-196 | refused exactly when all eight streams are claimed; otherwise an unclaimed stream and a handle that is accepted |
| DmaAllocator.RunKeepsBook | src/device/stm32h755/dma.c:170-221 | in every run generations and claims agree with the counts of allocations and ends |
| DmaAllocator.Conservation | src/device/stm32h755/dma.c:170-221 | in every run the claimed streams are the successful acquires minus the successful releases |
| DmaAllocator.HandleAcceptedExactly | src/device/stm32h755/dma.c:76-85 | at any later moment a handle is accepted exactly when its stream is claimed whole periods after it |
| DmaAllocator.HandleLivesExactlyAsLongAsItsAllocation | src/device/stm32h755/dma.c:76-85 | through 536870909 further acquisitions of its stream a handle is accepted exactly until its allocation ends |
| DmaAllocator.StaleHandleReturnsAfterPeriod | src/device/stm32h755/dma_handle_internal.h:38-40 | one acquisition more and the stale handle is accepted again |
| DmaAllocator.EachAllocationEndsOnce | src/device/stm32h755/dma.c:208-220 | two releases that both succeed on a stream, racing or not, end different allocations |
| DmaAllocator.NoGrantBeforeEnd | src/device/stm32h755/dma.c:180-192 | a stream is not granted again while its allocation lives |
| DmaAllocator.UnreleasedHandlesAreDistinct | src/device/stm32h755/dma.c:180-192 | unreleased handles name distinct streams |
| DmaAllocator.Bookkeeping.AcquireCritical | src/device/stm32h755/dma.c:178-196 | the in-place search over the shared arrays is one atomic acquire step |
| DmaAllocator.Bookkeeping.ReleaseCritical | src/device/stm32h755/dma.c:210-219 | the second handle check and the update are one atomic release step |
| DmaAllocator.Bookkeeping.Acquire | src/device/stm32h755/dma.c:170-197 | under any interleaving with other tasks the call takes effect once, at a moment inside the call |
| DmaAllocator.Bookkeeping.Release | src/device/stm32h755/dma.c:199-221 | under any interleaving Ok ends exactly one allocation; a timeout executes no section and means the stream did not stop; a refusal changes nothing and means the handle was not valid at a moment inside the call |
| DmaFlags.ClearingIsLocal | src/device/stm32h755/dma.c:97-105 | clearing one stream's packed flags empties that group alone |
| DmaFlags.RaisingIsLocal | src/device/stm32h755/dma.c:87-95 | raising one stream's flags is seen in that group alone |
| DmaController.RegisterKeepsGroups | src/device/stm32h755/dma.c:92-105 | across both flag registers no stream's access disturbs another stream's flags |
| DmaController.FlagPlaces | src/device/stm32h755/dma.c:87-95 | the bits of LISR and HISR that belong to a stream, by number |
| DmaController.Controller.Hardware | src/device/stm32h755/dma.c:144-152 | the hardware stops streams, counts down and raises flags, and keeps every stream's account of them |
| DmaController.Controller.StopStream | src/device/stm32h755/dma.c:144-152 | Ok means the stream is disabled; Timeout that 100000 looks all showed it enabled, and only that makes the count of stuck streams grow |
| DmaController.Controller.Acquire | src/device/stm32h755/dma.c:170-197 | the granted stream was free, is idle, unconfigured, without flags or request line, and no other stream is disturbed |
| DmaController.Controller.Release | src/device/stm32h755/dma.c:199-221 | Ok leaves the stream stopped, idle and free; a stale handle changes nothing |
| DmaController.Controller.SetRequest | src/device/stm32h755/dma.c:154-168 | the request line changes only on a stopped stream of a live handle, and only if it fits the field |
| DmaController.Controller.Configure | src/device/stm32h755/dma.c:227-273 | refused exactly for a stale handle or unequal or impossible widths, or while the stream is enabled; Ok leaves the stream stopped and holding the configuration's register fields |
| DmaController.Controller.LoadStream | src/device/stm32h755/dma.c:298-314 | whichever registers the direction selects, the stream's flow is from source to destination |
| DmaController.Controller.ClearForStart | src/device/stm32h755/dma.c:297 | the flags a transfer will be judged by are exactly those raised after its own clear |
| DmaController.Controller.Start | src/device/stm32h755/dma.c:275-321 | refused exactly for a stale handle, an unconfigured stream, or an address or count that is zero, unaligned or too large; Ok exactly when the stream is not busy, and then the whole count moves from source to destination in units of the configured width, with flags cleared first |
| DmaController.Controller.GetState | src/device/stm32h755/dma.c:323-346 | a started transfer is never idle; complete and error come exactly from bits 5 and 3 of the stream's flags, raised since its start; a terminal report stays terminal; other streams are untouched |
| DmaController.Controller.GetRemaining | src/device/stm32h755/dma.c:348-355 | the count left of the caller's own stream, never more than it was before the read; a stale handle is refused and changes nothing |
| DmaController.Controller.GetIrq | src/device/stm32h755/dma.c:396-403 | the interrupt line of the caller's own stream; a stale handle is refused |
| DmaController.Controller.WaitTimeout | src/device/stm32h755/dma.c:357-380 | InvalidArgument exactly for a stale handle or a timeout out of range; success and failure from this transfer's flags alone; a timeout only after its time and a last report of busy; NotReady only without a time source or for a stream found idle; after a timeout the stream is idle unless it failed to stop during this call |
| DmaController.Controller.Abort | src/device/stm32h755/dma.c:386-394 | Ok leaves the stream idle and its handle live; Timeout only when the stream will not stop; a stale handle changes nothing |
| TimeBase.IntervalIsExact | src/common/time.c:36-47 | against true time an interval never ends early, and ends unless unread for a whole 2^31 ms window |
| TimeBase.DeadlineIsExact | src/common/time.c:49-69 | a deadline is unreached until its true time and then reached for exactly 2^31 ms of every turn |
| TimeBase.TimeSource.SetSource | src/common/time.c:14-26 | a source, once installed, stays installed |
| TimeBase.TimeSource.ElapsedMs | src/common/time.c:36-41 | the true elapsed time up to turns of the source |
| TimeBase.TimeSource.IntervalElapsed | src/common/time.c:43-47 | true only after the interval has truly passed |
| TimeBase.TimeSource.DeadlineAfter | src/common/time.c:49-60 | argument and readiness errors in order; the deadline is the true due time |
| TimeBase.TimeSource.DeadlineReached | src/common/time.c:62-69 | false before the due time, true for the next 2^31 ms |
| TimeBase.TimeSource.Delay | src/common/time.c:71-87 | terminates on a steady source, never early |
| TimeBase.PrepareWait | src/device/stm32h755/spi.c:120-141 | the wait's arguments are refused exactly as coded; the wait starts at the reading taken |
| TimeBase.Expired | src/device/stm32h755/spi.c:143-146 | a wait expires only after its true time, and on a steady clock within as many polls as milliseconds |
| SpiPolled.HappenKeepsLinked | src/device/stm32h755/spi.c:169-194 | bytes in flight, overruns and faults in any order keep the account of what was written and read |
| SpiPolled.ReadingTrailsWriting | src/device/stm32h755/spi.c:176-188 | a byte can be read only after one more was written |
| SpiPolled.LinkedMeansExchanged | src/device/stm32h755/spi.c:196-209 | at every moment the wires carry a prefix of the written bytes, and when all have come in, exactly them |
| SpiPolled.NextIsSentFrom | src/device/stm32h755/spi.c:177-186 | the byte the code writes next is the caller's original one, or, only where `rx` begins inside `tx`, a byte received earlier |
| SpiPolled.SentJoins | src/device/stm32h755/spi.c:431-442 | the same over several chunks, whose buffers earlier chunks have already written to |
| SpiPolled.OriginalExactlyUnlessLapped | src/device/stm32h755/spi.c:166-194 | for buffers in one block, the schedule that reads each byte before it writes the next sends the original, whatever it is and whatever comes in, exactly unless `rx` begins inside `tx` behind its first byte |
| SpiPolled.Spi.BeginChunk | src/device/stm32h755/spi.c:159-164 | a chunk starts with empty FIFOs, clear flags and its size set |
| SpiPolled.Spi.WriteIfSpace | src/device/stm32h755/spi.c:176-180 | exactly if there is space and a byte left, the byte at the caller's next place, or the fill byte, is written |
| SpiPolled.Spi.ReadIfCome | src/device/stm32h755/spi.c:182-188 | a byte that has come in goes to the next place of the caller's buffer, and reading never overtakes writing |
| SpiPolled.Spi.DataPhase | src/device/stm32h755/spi.c:166-194 | ends with all bytes written and read, or with an error, or after the timeout; a byte is written at every look that shows space and read at every look that shows one; an error in SR is never overlooked for more than one further read |
| SpiPolled.Spi.AwaitEnd | src/device/stm32h755/spi.c:196-209 | Ok exactly when a look showed EOT, with the chunk exchanged; every return leaves SPE off |
| SpiPolled.Spi.TransferChunk | src/device/stm32h755/spi.c:153-210 | on Ok the wires carried exactly as many bytes as the chunk has, from the caller's buffer, and rx their answer; else only the received prefix of rx changed |
| SpiPolled.Spi.Transfer | src/device/stm32h755/spi.c:412-444 | the same over all chunks and for any pair of pointers: in place, apart, or overlapping with `rx` not inside `tx` the wires carry the original bytes, else each byte sent is the original or the one received in its place; Ok exactly when the last look for EOT showed it, IoError only after an overrun or mode fault, Timeout only after the time; until then a byte is written at every look that shows space and read at every look that shows one; refused exactly as coded, and no other result exists |
| SpiDma.PairGivesBack | src/device/stm32h755/spi.c:212-226 | releasing both streams of a pair restores the claims |
| SpiDma.PartitionCoversEachByteOnce | src/device/stm32h755/spi.c:468-477 | in a partition every byte of both buffers is moved by exactly one chunk |
| SpiDma.SpiDma.GiveBack | src/device/stm32h755/spi.c:218-225 | abort then release frees the stream unless it fails to stop during this call |
| SpiDma.SpiDma.Cleanup | src/device/stm32h755/spi.c:212-226 | gates closed, SPE off, both claims restored unless a stream fails to stop during this call |
| SpiDma.SpiDma.AcquirePair | src/device/stm32h755/spi.c:234-242 | two different free streams, exactly when two are free; a failed second acquire gives the first back unless it fails to stop during this call |
| SpiDma.SpiDma.ConfigurePair | src/device/stm32h755/spi.c:244-270 | both streams stopped, configured for their direction and wired to request lines 37 and 38; this cannot fail on streams just acquired |
| SpiDma.SpiDma.OpenRxGate | src/device/stm32h755/spi.c:272-286 | the receive gate opens only towards a started stream |
| SpiDma.SpiDma.OpenTxGate | src/device/stm32h755/spi.c:288-298 | the transmit gate opens only towards a started stream |
| SpiDma.SpiDma.ArmPair | src/device/stm32h755/spi.c:272-302 | both streams run with the buffer addresses and the whole count, then the gates and SPE are on |
| SpiDma.SpiDma.PollPair | src/device/stm32h755/spi.c:304-329 | Ok exactly when one look showed both streams complete without error since their start and EOT; IoError only when one showed an error |
| SpiDma.SpiDma.TransferChunk | src/device/stm32h755/spi.c:228-333 | NotReady exactly when fewer than two streams are free; on every return the claims are what they were, unless a stream fails to stop during this call, and closed gates are closed; a successful chunk is recorded |
| SpiDma.SpiDma.Transfer | src/device/stm32h755/spi.c:453-479 | the same over the whole call, whatever happened in earlier ones: NotReady without a time source or with fewer than two streams free, and then only, or after a stream of this call failed to stop; the completed chunks partition a prefix of the buffers, on Ok all of them |
| I2cBus.HappenKeepsTracks | src/device/stm32h755/i2c.c:266-304 | nothing the controller does by itself, after an error, an abort or a return included, leaves the commanded phase |
| I2cBus.FeedKeepsTracks | src/device/stm32h755/i2c.c:276-278 | a byte written on TXIS leaves in order |
| I2cBus.DrainKeepsTracks | src/device/stm32h755/i2c.c:296-298 | a byte read on RXNE is the oldest one come in |
| I2cBus.FinishedWriteIsExact | src/device/stm32h755/i2c.c:266-284 | a write phase that ran to its end carried exactly the caller's bytes, all acknowledged |
| I2cBus.FinishedReadIsExact | src/device/stm32h755/i2c.c:286-304 | a read phase that ran to its end delivered the target's bytes, behind at most one left in RXDR |
| I2cBus.AbortCanLeaveByte | src/device/stm32h755/i2c.c:193-198 | a run of a read by which an abort leaves a byte in RXDR, after which every later read has a run that delivers that byte instead of the target's |
| I2cBus.OwnBytesExactlyWhenEmpty | src/device/stm32h755/i2c.c:286-299 | in every run of a read that comes to its end the bytes delivered are those on the bus, exactly when RXDR was empty at the command |
| I2cBus.NackCanLeaveByte | src/device/stm32h755/i2c.c:200-204 | a run of a write by which a NACK leaves a byte in TXDR, after which every later write has a run that sends that byte |
| I2cBus.OwnPrefixExactlyWhenEmpty | src/device/stm32h755/i2c.c:266-284 | at every moment of every run of a write the bus shows a beginning of START, address and the caller's bytes, then at most a NACK and a STOP, exactly when TXDR was empty at the command |
| I2cBus.AbortCanLeaveStart | src/device/stm32h755/i2c.c:193-198 | a call that times out while another master holds the bus leaves its START waiting; it goes out later, and no later phase is safe from it |
| I2cBus.WaitingStartCanFeignEnd | src/device/stm32h755/i2c.c:388-390 | a waiting START of a probe that runs between ICR and CR2 leaves the next phase with STOPF and no error before its own START |
| I2cBus.OwnPhaseExactlyWhenNonePending | src/device/stm32h755/i2c.c:266-304 | on a bus found free, at every moment of every run of a phase nothing but that phase has gone out, exactly when no earlier START was waiting |
| I2cBus.PlayKeepsTracks | src/device/stm32h755/i2c.c:193-304 | every run of a phase, of hardware events and driver accesses in any order, stays within the account of the phase |
| I2cBus.PhaseIsCutShort | src/device/stm32h755/i2c.c:193-229 | a phase that did not end well shows a prefix of what was asked, then at most a NACK and a STOP |
| I2cTransfer.I2c.AbortTransfer | src/device/stm32h755/i2c.c:193-198 | an abort clears flags without leaving the phase, and a controller that had sent its START is off the bus or has a STOP asked for |
| I2cTransfer.I2c.StatusError | src/device/stm32h755/i2c.c:200-210 | IoError exactly for NACK or a bus error |
| I2cTransfer.I2c.WaitForSet | src/device/stm32h755/i2c.c:212-229 | Ok only with the awaited flag and no error; IoError only after a NACK or bus error; a timeout only after its time and a last look without the flag, with a STOP asked for |
| I2cTransfer.I2c.WaitBusIdle | src/device/stm32h755/i2c.c:231-242 | Ok only when this controller is off the bus; an idle controller puts nothing on it; no START becomes waiting |
| I2cTransfer.I2c.WritePhase | src/device/stm32h755/i2c.c:266-284 | Ok means the phase ran to its end with all bytes written; otherwise its account is closed as given up |
| I2cTransfer.I2c.ReadPhase | src/device/stm32h755/i2c.c:286-304 | the buffer holds the bytes read so far in order and is otherwise unchanged |
| I2cTransfer.I2c.ProbeTimeout | src/device/stm32h755/i2c.c:373-391 | refused exactly for a bad handle, address or timeout, or without power or time source; from any state: Ok means START, address and write, STOP, acknowledged; otherwise a prefix of that; both unless a START was waiting when the bus was found free, and none is waiting afterwards once this call's has gone out |
| I2cTransfer.I2c.WriteTimeout | src/device/stm32h755/i2c.c:397-417 | the same for a write: Ok means exactly START, address and write, the caller's bytes, STOP, and TXDR empty at the start; otherwise a prefix of START, address, the byte left in TXDR if there is one, and the caller's bytes |
| I2cTransfer.I2c.ReadTimeout | src/device/stm32h755/i2c.c:426-446 | the same for a read: Ok means exactly START, address and read, size bytes, STOP, and the buffer holds them behind at most one left in RXDR; the rest of the buffer is unchanged on every return |
| I2cTransfer.I2c.WriteReadTimeout | src/device/stm32h755/i2c.c:455-500 | from any state, unless a START was waiting when the bus was found free: Ok means the combined format with a repeated START and no STOP inside, and the buffer holds the target's bytes if RXDR was empty; otherwise a prefix of it, behind a byte left in TXDR if there is one, and at most a NACK and a STOP. In every case the arguments refused are exactly those the code refuses, IoError comes only after a NACK or bus error, Timeout only after its time and a last look without the awaited flag |
| I2cTiming.SearchSucceedsExactly | src/device/stm32h755/i2c.c:114-128 | a workable prescaler exists exactly for 2 * bus < kernel <= 8192 * bus, and the least is ceil(kernel / (512 * bus)) |
| I2cTiming.FindPrescaler | src/device/stm32h755/i2c.c:114-128 | the search finds that least one and its half period |
| I2cTiming.UnpackGivesBack | src/device/stm32h755/i2c.c:153-158 | unpacking TIMINGR gives back all five fields |
| I2cTiming.CalculateTiming | src/device/stm32h755/i2c.c:106-160 | each result exactly when its condition holds; on Ok the fields fit and meet the half period, the setup time of 500 or 125 ns and the hold time of 100 ns, tightly |
| I2cTiming.HsiAlwaysSupported | src/device/stm32h755/i2c.c:48-55 | every HSI setting works at both bus rates |
| I2cTiming.ReportedRateIsWithinRequest | src/device/stm32h755/i2c.c:347-371 | the rate read back is positive and at most the request, and one tick less per half period would exceed it |
| TimerDividers.PeriodicDividersAreTight | src/device/stm32h755/timer.c:73-92 | for all 1 <= requested <= clock the period is available and nearest |
| TimerDividers.PwmDividersAreTight | src/device/stm32h755/timer.c:94-132 | never unsupported; both registers fit 16 bits; nearest period for the prescaler; at least 32768 counts once a prescaler is used |
| TimerDividers.PeriodFits | src/device/stm32h755/timer.c:110-127 | with the chosen prescaler the rounded period lies in 1..65536, and in its upper half from prescaler 2 on |
| TimerDividers.RateReadsBack | src/device/stm32h755/timer.c:203-215 | a rate below the counts of its period is read back exactly |
| TimerDividers.CompareIsMonotoneAndBounded | src/device/stm32h755/timer.c:134-141 | more duty never shortens the pulse, and it never exceeds the period |
| TimerDividers.DutyIsNearest | src/device/stm32h755/timer.c:134-141 | up to the 16-bit clamp the pulse is the nearest to the duty asked for, and the duty read the nearest to the pulse |
| TimerDividers.DutyRoundTrips | src/device/stm32h755/timer.c:322-341 | for periods 1000..65536 and duty 0..1000 reading gives back what was set, through the clamp |
| TimerDividers.DutyRoundTripsExactly | src/device/stm32h755/timer.c:322-341 | the round trip holds for every duty exactly from 1000 counts on |
| TimerDividers.Pwm.Init | src/device/stm32h755/timer.c:263-298 | Ok programs the nearest period and the duty; every refusal leaves the timer alone |
| TimerDividers.Pwm.SetDuty | src/device/stm32h755/timer.c:322-329 | only the compare value changes, and it reads back as set from 1000 counts on |

## Left out

- EthDriver.Driver.Send: an Ok is not a promise against a fault raised between the last DMACSR read and the descriptor read, because the code does not look again.
- EthDriver.Driver.Init: MTL, DMA burst and MAC address registers are not modelled.
- EthDriver.Driver.ReadLinkState: the PHY may answer anything; the fields of the MDIO address register are not modelled, only which PHY and register each attempt asks.
- DmaController.Controller.Release: one owner per live handle; a racing double release can touch the stream registers of a new owner, and only the bookkeeping is shown safe against it (`DmaAllocator`).
- SpiDma.SpiDma.Transfer: the bytes DMA moves are described by the stream's programmed flow and its completion flags, not by array contents; addresses are words; the restored claims are promised for calls during which no stream fails to stop.
- I2cTransfer.I2c.WriteReadTimeout: a STOP request is taken to count only while the controller holds the bus; nothing is claimed of the bus in a call that finds a START of an earlier call waiting (`I2cBus.OwnPhaseExactlyWhenNonePending` says why).
- TimeBase.TimeSource.Delay: needs a source that advances by 1 to 2^31 ms per reading, as the code's comment demands of it; on a stopped source the loop does not end.
- ClockTransition.ClockTree.Apply: HSE is taken to run at the frequency the configuration tells; frequencies are whole hertz as the code computes them; the CM4 build, which refuses the call, is not modelled.
- The CMSIS device header is not part of this model: register fields appear under their own names, and the two SPI data register addresses are constants here.
- Barriers are no-ops in program order, cache primitives act line by line on aligned arrays, and the cache-off path is covered by the argument that an absent line needs no maintenance.
- The DMA tail pointers only wake the engine; the model lets it run whenever its current descriptor shows OWN.
- Error returns of cache maintenance inside the Ethernet driver are shown impossible for its aligned arrays instead of being modelled.
- Null out-pointers, which are refused before anything else happens, have no counterpart in methods that return values.
- `das_spi_init`, `das_i2c_init`, prescaler selection and kernel clock selection: single-branch register writes.
- The timer kernel clock (timer.c 44-71) and TIM2's start, stop, counter and interrupt calls: field reads and writes.
- UART: the same wait loop with simpler data flow.
- GPIO, EXTI, NVIC, vector table, startup, power, board tables, examples, scripts and linker files: constant maps and plumbing.
