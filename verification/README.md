# Cortex-M co-simulation stack: a verified model

The repository couples QEMU to a SystemC system-on-chip.  A guest load or store enters
`remote_mmio_transact`, crosses a Unix stream socket as a 20-byte message, is executed by `CosimServer` as a
TLM transaction, is routed through an AHB decoder, an AHB-to-APB bridge and an APB decoder, and reaches one of
six devices: Timer (behind a pin-level bridge), SRAM, GPIO, UART, SysCtrl and watchdog.  The devices also move
on clock edges.  Their interrupt levels are packed into one word that travels back in the response and drives
QEMU's interrupt lines.

The model is built bottom-up, one module per component, and the main results compose the layers:

* **Devices** (`Timer`, `Watchdog`, `Gpio`, `Uart`, `SysCtrl`, `Sram`, `Clock`): a class per SystemC module whose
  methods are proved against functions on register values, and theorems about runs of those functions.
* **Fabric** (`MemoryMap`, `Decoder`, `PinBridge`, `Soc`): the imperative decoders and bridges, nested as the
  constructor wires them, are proved to do exactly what one flat memory map says.
* **Machine**: the SoC as an atomic machine over bus accesses, clock edges and reset changes, with theorems that
  span devices (memory, FIFO conservation, watchdog to reset cause).
* **The guest's view** (`Registers`, `TimerView`, `UartView`, `GpioView`, `SysCtrlView`, `WatchdogView`): for every
  register at its numeric address, what a read returns as a function of the bus accesses, clock edges and resets there
  have been, with no reference to the devices' own code.
* **Kernel** (`Kernel`, `KernelInvariants`, `KernelRefinement`, `KernelSettling`, `KernelTrace`, `KernelFreshness`,
  `KernelReset`): the same SoC under SystemC's evaluate/update scheduler (IEEE Std 1666-2011, section 4.2.1), with
  every process, signal and notification.  A run is any sequence of scheduler choices.  It is proved that the scheduler refines the
  atomic machine, the Timer included; that every time step ends; that the order in which processes run makes no
  difference; and that the wait the server makes after an access is what makes its sample of `irq_bits` show it.
* **Protocol** (`Protocol`, `ProtocolInvariants`, `ProtocolProgress`): client and server as two processes over byte
  queues with short transfers, failures at any moment, reconnection and a backlog, in front of a SoC that may answer
  anything.  A run is any interleaving.  Besides safety there is progress: client and server never deadlock.
* **Loops** (`Sockets`, `RemoteMmio`, `CosimServer`, `LoopRefinement`, `Polling`): the imperative code of both ends, and
  the firmware's polling loop, over sockets and registers whose behaviour is an arbitrary script; the transfers and calls
  of both ends are proved to be runs of the protocol.
* **Both sides** (`CoSim`, `CoSimInvariants`, `GuestProgress`, `EndToEnd`, `GuestView`): the protocol in front of the
  SoC under its scheduler.  A run interleaves network actions with scheduler choices; the server replies with what it
  has read from the pins and with `irq_bits` as it stands.  `EndToEnd` and `GuestView` say what the guest can rely on:
  they apply the protocol's invariants to the network half, and `KernelTrace`, `KernelFreshness` and the guest's view
  of the devices to the SoC half of every run.

A `uint32_t` is a natural number below 2^32, with wrap-around written out.  A register that the source only masks and
tests bit by bit is the set of its one bits; `Words` proves that view to be a bijection.

Where the code and the documentation disagree the code is followed: the README's message layout is version 1 of the
protocol, the header's and the code's is version 2, with 20-byte responses that carry `irq_bits`.

## Results that correct a natural reading

* RIS.RX is not "RX FIFO not empty": `Uart.RxStatusExactly` gives the exact condition and
  `Uart.RxStatusClearedWithDataQueued` an input.
* A read-modify-write clear of one of the Timer's status bits can lose the other event, or a second one of its own:
  `Timer.ClearLosesEvent` says exactly when, for every register state, mask and bit, and `Timer.LostEventExamples`
  gives an input of each kind.
* The SRAM's own bound check passes for the offset 0xFFFFFFFC (`Sram.GuardMissesTheTopWord`); accesses are in bounds
  because of the decoder's range.
* A refused read of the UART's DR still pops a byte (`Uart.RefusedReadPops`); no byte is lost to a refusal because
  every payload the server issues that selects DR is accepted (`Machine.FifoShrinksOnlyByReads`).
* A misaligned access is refused everywhere but in the Timer's window, where it is accepted, reads 0 and changes nothing
  (`Registers.AcceptedExactly`, `TimerView.TimerReads`); QEMU does not forward one (`GuestView.ForwardedAccesses`).
* A call that returned -1 because its reply was lost may or may not have been executed
  (`ProtocolInvariants.LostReplyIsAmbiguous`); after a failed connect or send it has not been.

## Model

| member | source | states |
|---|---|---|
| Words.BitsOfWord | peripherals/timer/timer.h:78-97 | a register kept as a set of bits goes through its 32-bit word unchanged |
| Words.WordOfBits | peripherals/timer/timer.h:111-165 | and a word through its set of bits |
| Words.BytesRoundTrip | include/tlm_helpers.h:26-44 | a word copied out as little-endian bytes and back is unchanged |
| Words.BytesUnique | transactor/cosim_server.cpp:277-278 | and so are four bytes read as a word |
| Words.BytesAreLittleEndian | include/tlm_helpers.h:26-44 | bit i of a word is bit i mod 8 of byte i / 8 |
| Tlm.CheckU32 | include/tlm_helpers.h:13-24 | refuses a payload that is not 4 bytes wide (burst error) or not aligned (address error), and changes nothing else |
| Tlm.ServerTxnIsWellFormed | transactor/cosim_server.cpp:254-306 | the server's payloads pass the check exactly when their address is aligned |
| Timer.TimerIp.ClockEdge | peripherals/timer/timer.h:167-192 | one rising edge: count, post compare and overflow together, clear on overflow, notify a changed INTR |
| Timer.TimerIp.CommitIntr | peripherals/timer/timer.h:85-92 | INTR takes the value; irq_changed_ev is notified iff it changed |
| Timer.TimerIp.BusRead | peripherals/timer/timer.h:111-138 | data_out gets the addressed register while the strobe is high |
| Timer.TimerIp.BusWrite | peripherals/timer/timer.h:140-165 | the addressed register is written, whatever reset is; `TimerView.TimerReads` says which register that is |
| Timer.TimerIp.ResetMethod | peripherals/timer/timer.h:99-109 | all registers are cleared while reset is high |
| Timer.CountsModulo255 | peripherals/timer/timer.h:167-192 | from VALUE below 255 the counter runs modulo 255 and n edges post an overflow iff VALUE + n reaches 255 |
| Timer.RunsThrough32Bits | peripherals/timer/timer.h:177-186 | from VALUE at or above 255 the first overflow is posted by exactly the (2^32 - VALUE + 255)-th edge |
| Timer.FreeRuns | peripherals/timer/timer.h:177-186 | with OV_EN off the counter is a 32-bit counter and never posts an overflow |
| Timer.ComparesAtFirstMatch | peripherals/timer/timer.h:177-190 | a compare is posted within n edges iff 1 <= CMP <= 255 and the first match is among them |
| Timer.ComparesEventually | peripherals/timer/timer.h:177-190 | from VALUE below 255 a compare is posted at some time iff 1 <= CMP <= 255 |
| Timer.BothOnOneEdge | peripherals/timer/timer.h:177-190 | with CMP = 255 one edge posts both bits and clears the counter, and none before it posts anything |
| Timer.StatusIsSticky | peripherals/timer/timer.h:85-109 | a pending INTR bit is lost only to an INTR write without it or to reset |
| Timer.OverflowsWhenDue | peripherals/timer/timer.h:167-192 | for every register state, n edges post an overflow iff n has reached FirstOverflow: 255 - VALUE, or that much past the 32-bit wrap-around, or never |
| Timer.ComparesWhenDue | peripherals/timer/timer.h:167-192 | for every register state, n edges post a compare iff n has reached FirstCompare: by CMP and VALUE, through the wrap-around from 255 up, or never |
| Timer.ClearLosesEvent | peripherals/timer/timer.h:159-161 | whatever the registers, the mask and the bit, a read-modify-write clear loses an event iff it comes due before the write, unless its bit was pending and is not being cleared |
| Timer.LostEventExamples | peripherals/timer/timer.h:159-161 | a compare clear that loses an overflow, and an overflow clear that loses a compare |
| Watchdog.WdtApb.ClockTick | peripherals/wdt_apb.h:73-85 | one rising pclk edge: nothing in reset or disabled, expire and reload at zero, else count down; an expiry notifies drive |
| Watchdog.WdtApb.BTransport | peripherals/wdt_apb.h:89-139 | the whole effect of a bus access on registers, payload and delay; `WatchdogView.WatchdogReads` says what the registers come to |
| Watchdog.LevelsChangeOnlyWithNotice | peripherals/wdt_apb.h:89-139 | irq and rst_req cannot change without irq_ev being notified |
| Watchdog.TicksInClosedForm | peripherals/wdt_apb.h:73-85 | n enabled ticks expire (n + LOAD - VALUE) / (LOAD + 1) times and leave VALUE at LOAD - (n + LOAD - VALUE) mod (LOAD + 1) |
| Watchdog.SetsAfterValuePlusOne | peripherals/wdt_apb.h:73-85 | n enabled ticks set RIS iff n exceeds VALUE |
| Watchdog.ValueWithinLoad | peripherals/wdt_apb.h:61-131 | VALUE never exceeds LOAD |
| Watchdog.RisIffNotKicked | peripherals/wdt_apb.h:112-131 | after a kick RIS is set iff more than LOAD ticks have passed since the last kick |
| Watchdog.KickedInTimeNeverSets | peripherals/wdt_apb.h:112-131 | RIS stays clear throughout a run iff kicks are never more than LOAD ticks apart |
| Watchdog.LoadCountsDown | peripherals/wdt_apb.h:112-131 | an unlocked write of v to LOAD reloads VALUE: undisturbed ticks set RIS iff there are more than v |
| Watchdog.LockHolds | peripherals/wdt_apb.h:87-131 | without an unlock or reset LOAD and CONTROL are constant and RIS never falls |
| Watchdog.SilentUntilUnlocked | peripherals/wdt_apb.h:61-87 | from reset, without an unlock, irq and rst_req are never asserted |
| Gpio.GpioApb.NoteEdges | peripherals/gpio_apb.h:66-89 | the 32-step loop equals the bit-vector formula inten & ~(new ^ intpol) & (~inttype or (old ^ new)) |
| Gpio.GpioApb.BTransport | peripherals/gpio_apb.h:91-135 | the whole effect of a bus access on registers, payload and delay |
| Gpio.LevelChangesOnlyWithNotice | peripherals/gpio_apb.h:52-55 | irq cannot change without irq_ev being notified |
| Gpio.ActiveLevelsPend | peripherals/gpio_apb.h:66-127 | in every reachable state an enabled level-type pin at its polarity is pending, even right after INTCLR |
| Gpio.StatusIsSticky | peripherals/gpio_apb.h:66-127 | a pending bit is lost only to an INTCLR naming it or to reset |
| Gpio.PendingHistory | peripherals/gpio_apb.h:66-127 | bit i is pending iff some write raised it and every later acknowledgement raised it again |
| Uart.UartPl011.BTransport | peripherals/uart_pl011.h:133-188 | the whole effect of a bus access on registers, FIFOs, payload and delay |
| Uart.UartPl011.ReadFlags | peripherals/uart_pl011.h:85-101 | TXFE always and TXFF never, RXFE iff no byte waits, RXFF iff 16 do, and no other bit |
| Uart.LevelChangesOnlyWithNotice | peripherals/uart_pl011.h:80-83 | irq cannot change without irq_ev being notified |
| Uart.AlwaysSane | peripherals/uart_pl011.h:85-131 | at most 16 bytes, only RX and TX in RIS, RX only with a byte waiting, FR always TX empty |
| Uart.FifoHistory | peripherals/uart_pl011.h:119-180 | the bytes accepted since reset are the bytes popped followed by the FIFO's contents |
| Uart.RxStatusExactly | peripherals/uart_pl011.h:119-180 | RIS.RX is set iff a byte waits and RX has not been cleared through ICR since the last byte came in |
| Uart.RxStatusClearedWithDataQueued | peripherals/uart_pl011.h:178-178 | RIS.RX clear with a byte waiting |
| Uart.LoopbackDelivers | peripherals/uart_pl011.h:119-180 | in loopback, with at most 16 bytes ever unread, reads return exactly the written bytes in order |
| Uart.RefusedReadPops | peripherals/uart_pl011.h:140-163 | a DR read pops even when its payload is refused |
| SysCtrl.SysCtrlApb.OnWdt | peripherals/sysctrl_apb.h:67-72 | the cause is latched when rst_req is high |
| SysCtrl.SysCtrlApb.BTransport | peripherals/sysctrl_apb.h:74-110 | the whole effect of a bus access; `SysCtrlView.SysCtrlReads` says what each address reads |
| Sram.SramAhb.BTransport | peripherals/sram_ahb.h:41-62 | an aligned word is copied in or out in place, every byte index in bounds, or the payload is refused |
| Sram.WriteThenRead | peripherals/sram_ahb.h:41-62 | a written word reads back, every other aligned word is untouched |
| Sram.GuardMissesTheTopWord | peripherals/sram_ahb.h:41-62 | the device's own check lets exactly one out-of-bounds offset through, by 32-bit wrap-around |
| Clock.RisesInClosedForm | clocks/clock_reset.h:41-45 | n sys_clk edges give (n + 1) / 2 rising pclk edges from low and n / 2 from high |
| Clock.ClockReset.ResetSeq | clocks/clock_reset.h:47-55 | reset is high until the configured number of edges has been waited for |
| Decoder.TlmDecoder.MapSlave | interconnect/tlm_decoder.h:68-77 | a slot is filled in place and no other changes |
| Decoder.TlmDecoder.Decode | interconnect/tlm_decoder.h:84-94 | the first slot whose region contains the address, or -1 if none does |
| Decoder.OrderDoesNotMatter | interconnect/tlm_decoder.h:84-109 | for disjoint non-wrapping regions the answer is unique and independent of slot order |
| Decoder.OverlapMakesOrderMatter | interconnect/tlm_decoder.h:84-94 | for overlapping regions it is not |
| Decoder.TlmAddressMap.Enter | interconnect/tlm_address_map.h:65-79 | forwards exactly the addresses of its one region, rebased |
| MemoryMap.FlatMapIsTheOneSlot | include/soc_memory_map.h:34-43 | an address belongs to a device's slot iff the flat map gives that device and the local offset |
| MemoryMap.WindowsInNumbers | include/soc_memory_map.h:34-43 | the six windows as numeric address ranges, each with its local offset |
| PinBridge.TlmPinBridge.BusRead | bridges/tlm_pin_bridge.h:89-105 | a read returns the register at one instant among the clock edges, both strobes low again and the pins at INTR |
| PinBridge.TlmPinBridge.BusWrite | bridges/tlm_pin_bridge.h:107-117 | a write takes effect at one instant among the clock edges, both strobes low again and the pins at INTR |
| PinBridge.TlmPinBridge.BTransport | bridges/tlm_pin_bridge.h:56-87 | the bridge's transaction: offset and data as given, refusals before any pin moves |
| Soc.WiringIsSeparated | Soc/cortexm_pl.h:107-126 | both decoders are wired with disjoint non-wrapping regions |
| Soc.AhbDecodingIsFlat | Soc/cortexm_pl.h:107-117 | the AHB decoder's choice, for every address, against the flat map |
| Soc.ApbDecodingIsFlat | Soc/cortexm_pl.h:119-129 | the APB decoder's choice behind the bridge, for every address, against the flat map |
| Soc.CortexMPlSoc.BridgeTransport | bridges/ahb_apb_bridge.h:33-46 | SETUP and ENABLE are charged and the payload forwarded |
| Soc.CortexMPlSoc.BTransport | interconnect/tlm_decoder.h:96-109 | decoders, bridge and devices together do what the flat map says; the payload address is restored on every path; an unmapped address is refused and changes nothing |
| Machine.SramHoldsLastWrite | peripherals/sram_ahb.h:34-62 | every aligned SRAM word holds the last value written to it since reset, else 0, whatever else happens |
| Machine.SramReadReturnsLastWrite | transactor/cosim_server.cpp:254-306 | a read of it through server and decoder succeeds with that value |
| Machine.SuccessTakesTime | transactor/cosim_server.cpp:269-272 | every access answered OK costs at least two clock periods |
| Machine.FifoShrinksOnlyByReads | peripherals/uart_pl011.h:140-163 | along the full path the UART FIFO shrinks only by reset or by a DR read answered OK with the byte at its head |
| Machine.EdgesTickTheWatchdog | clocks/clock_reset.h:41-45 | over n sys_clk edges the watchdog ticks once per rising pclk edge |
| Machine.ExpiresOnTime | peripherals/wdt_apb.h:73-85 | a freshly loaded watchdog expires on the 2(LOAD + 1)-th sys_clk edge, or one earlier, by the phase of pclk |
| Machine.ExpiryReachesSysCtrl | peripherals/sysctrl_apb.h:67-72 | and SysCtrl latches the cause on that very edge iff RESEN is set |
| Machine.CauseIsHistory | peripherals/sysctrl_apb.h:56-102 | the cause is latched iff rst_req rose since the later of its last clear and the last reset; `SysCtrlView.SysCtrlReads` carries it to the read |
| Machine.LockedSystemIsSafe | peripherals/wdt_apb.h:61-131 | no run without an unlock raises the watchdog's irq or reset request or sets SYS_WDT_RST |
| Registers.AcceptedExactly | transactor/cosim_server.cpp:254-306 | a read or write is accepted by its address alone, by numeric ranges, and costs 20, 60 or 70 ns; a refused one changes nothing, in every state and for every clock |
| Registers.SramReads | peripherals/sram_ahb.h:41-62 | every aligned address from 0x8000 to 0x8FFC reads the last word written to it since reset, else 0 |
| TimerView.TimerReads | peripherals/timer/timer.h:111-165 | offsets 0 and 8 read the last words written there since reset, 4 and 0xC as well while the counter has stood still since; every other offset reads 0 |
| TimerView.CompareComesDue | peripherals/timer/timer.h:167-192 | after starting the counter at v with CMP = c, INTR reads the compare from exactly the (c - v)-th clock edge on and the overflow from the (255 - v)-th, whatever else happens |
| TimerView.ProgrammedCompare | peripherals/timer/timer.h:140-192 | the same from the history of writes to VALUE, CMP and INTR, in any order and however far apart |
| TimerView.WritesProgramTheTimer | platforms/basic_cortexM/firmware/main.c:166-174 | and for the three writes in a row |
| UartView.UartReads | peripherals/uart_pl011.h:133-188 | what each of the ten registers reads after any history: DR the oldest byte of the FIFO, FR 0x90, 0xC0 or 0x80, RIS and MIS by the bytes, reads and clears there have been |
| UartView.OtherUartReads | peripherals/uart_pl011.h:133-163 | every other aligned address of the window reads 0 |
| GpioView.GpioReads | peripherals/gpio_apb.h:66-135 | what each register reads after any history, bit by bit: DATA the pins driven through DATA, SET and CLR and enabled by DIR, INTSTAT what has been raised and not acknowledged |
| SysCtrlView.SysCtrlReads | peripherals/sysctrl_apb.h:74-110 | what each address reads after any history: constants, scratch, whether reset is released, and 1 at 0x18 iff the reset request rose since the last clear and reset |
| WatchdogView.WatchdogReads | peripherals/wdt_apb.h:73-139 | what each register reads after any history: LOAD and CONTROL by the writes the lock let through, VALUE in closed form by the ticks since the last reload, RIS and MIS by the rounds completed |
| WatchdogView.LoadStartsCountdown | peripherals/wdt_apb.h:112-131 | after a write of any v to LOAD of an unlocked, enabled watchdog, RIS reads 1 from exactly the 2(v + 1)-th clock edge on, or one earlier by the phase of pclk |
| WatchdogView.RequestIsHistory | peripherals/wdt_apb.h:52-58 | the reset request is high iff an expiry stands and bit 1 of CONTROL is set |
| Kernel.PackIrqs | Soc/cortexm_pl.h:133-152 | bit i is set iff wire i is high, and nothing above bit 4 |
| KernelInvariants.AlwaysHolds | bridges/tlm_pin_bridge.h:89-117 | in every reachable scheduler state no notification is lost, the server runs alone between accesses, the handshake is in phase and the Timer's history accounts for it |
| KernelInvariants.QuiescentIrqIsPure | Soc/cortexm_pl.h:128-152 | once quiescent, bits 0 and 1 of irq_bits are bits 1 and 2 of the Timer's INTR, bit 2 an unmasked UART status, bit 3 an enabled pending pin, bit 4 an expiry with the interrupt enabled, and nothing lies above |
| KernelInvariants.ServerSamplesFreshIrq | transactor/cosim_server.cpp:205-237 | whenever the server runs between accesses irq_bits shows just that of the current registers |
| KernelInvariants.HandshakeIsExact | bridges/tlm_pin_bridge.h:89-117 | every pin access caused exactly one Timer activation with its offset and data; reads return the register at that instant; nothing else writes the registers; strobes are low before the server goes on |
| KernelInvariants.MappedAccessTakesTime | transactor/cosim_server.cpp:269-272 | an access to any device, refused or not, adds at least one AHB cycle to the delay, so the server waits |
| KernelRefinement.EdgeIsAnEvent | clocks/clock_reset.h:41-45 | a clock edge in a delta cycle is one event of the atomic machine |
| KernelRefinement.AccessIsAnEvent | transactor/cosim_server.cpp:254-306 | an access by the server is one event of the atomic machine; a Timer access only moves pins |
| KernelRefinement.ReleaseIsAnEvent | clocks/clock_reset.h:47-55 | the end of reset is one event of the atomic machine, although its methods run one by one |
| KernelRefinement.DeviceRunKeepsHeading | Soc/cortexm_pl.h:56-131 | no device process changes the machine state the scheduler is heading for |
| KernelSettling.QuiescentStateIsTheMachines | Soc/cortexm_pl.h:56-131 | in every quiescent state every device but the Timer is the atomic machine's after the same accesses and edges; `KernelTrace.TraceRunsTheMachine` adds the Timer |
| KernelSettling.TimeStepEnds | peripherals/timer/timer.h:78-97 | without the server a time step has a bounded number of scheduler choices |
| KernelSettling.TimeStepSettles | Soc/cortexm_pl.h:56-131 | and it can always be run to quiescence |
| KernelSettling.ServerWakes | transactor/cosim_server.cpp:269-272 | with the server in a timed wait, every schedule of the devices that cannot be extended is quiescent, time can then wake the server, with or without a clock edge, and it runs with the levels of the registers on irq_bits |
| KernelSettling.OrderDoesNotMatter | Soc/cortexm_pl.h:128-152 | from any reachable state with the server in a timed wait, all schedules of the devices that run to quiescence end with the same registers, clock phase and irq_bits |
| KernelTrace.BlankRun | bridges/tlm_pin_bridge.h:89-117 | a run of the atomic machine without its Timer accesses reaches the same state, the Timer apart |
| KernelTrace.AlwaysTraced | bridges/tlm_pin_bridge.h:89-117 | in every reachable scheduler state the Timer is the atomic machine's after the trace, up to an edge it has yet to see, and each activation stands in the trace behind the edges the Timer had seen |
| KernelTrace.TraceRunsTheMachine | Soc/cortexm_pl.h:56-131 | whenever the SoC is quiescent or the server between accesses, the whole state, Timer included, is the atomic machine's after the SoC's events with each pin access inserted at its activation, in order, where it had the value it returned; and irq_bits is the pure packing of it |
| KernelFreshness.ReplyShowsItsAccess | transactor/cosim_server.cpp:205-237 | after any access, whatever the scheduler does until the server is back, the UART and GPIO bits it then samples are the levels of the registers as that access left them |
| KernelFreshness.EarlySampleIsOld | transactor/cosim_server.cpp:269-272 | a sample taken before the wait would show the levels from before the access |
| KernelReset.ResetLastsFourEdges | clocks/clock_reset.h:47-55 | whenever the SoC is quiescent, reset is high iff it has seen fewer than four clock edges |
| Protocol.RequestRoundTrip | include/cosim_protocol.h:27-34 | decoding inverts encoding of requests, both ways |
| Protocol.ResponseRoundTrip | include/cosim_protocol.h:36-42 | and of responses |
| Protocol.MessageLayout | include/cosim_protocol.h:27-42 | the fields lie at byte offsets 0, 4, 8, 12 and 16 of both messages |
| Protocol.ClientSendsCompose | bridges/remote_mmio.c:109-120 | two sends in a row are one: how a request is cut up does not matter |
| Protocol.ClientReceivesCompose | bridges/remote_mmio.c:122-133 | nor how a response is read |
| Protocol.ServerReceivesCompose | transactor/cosim_server.cpp:129-145 | the same for the server's receives |
| Protocol.ServerSendsCompose | transactor/cosim_server.cpp:107-123 | the same for the server's sends |
| ProtocolInvariants.AlwaysInv | transactor/cosim_server.cpp:175-248 | the invariants hold in every state of every interleaving |
| ProtocolInvariants.ExecutesAtMostOnceInOrder | bridges/remote_mmio.c:88-161 | executed transactions are issued ones in strictly increasing order; a call that returned 0 ran exactly once with the returned data and interrupt word; one that failed to connect or send never ran |
| ProtocolInvariants.LostReplyIsAmbiguous | bridges/remote_mmio.c:122-131 | after a lost reply both are possible |
| ProtocolInvariants.ConnectionsStayAligned | bridges/remote_mmio.c:109-139 | framing in every reachable state: nothing travels back while a request is sent, queued and received bytes add up, a reply belongs to its request, and nothing is left between calls, error replies included |
| ProtocolInvariants.CollectedRequestsAreIssued | transactor/cosim_server.cpp:197-213 | a request the server has collected is the one issued, so it never meets a bad magic or version |
| ProtocolInvariants.QueuesNeverOverrun | transactor/cosim_server.cpp:129-145 | what is queued behind an incomplete message never exceeds that message |
| ProtocolInvariants.LinesMirrorTheLatestReply | bridges/remote_mmio.c:135-159 | each of the 8 lines equals its bit of irq_last, which is the irq_bits of the latest accepted response, 0 before the first |
| ProtocolProgress.CallCanFinish | bridges/remote_mmio.c:88-161 | no deadlock at any moment of a call whose connection the server is on or will come to: without failures it can be carried to the reply to its own request, whichever the SoC gives |
| ProtocolProgress.NewCallCanFinish | transactor/cosim_server.cpp:175-248 | so in every reachable state between calls whose server is available, a new call can be carried to the reply to that very request, through any backlog |
| Sockets.RetryingIsTransparent | transactor/cosim_server.cpp:107-145 | a retrying transfer moves all it wants iff that much is supplied before a failure; EAGAINs make no difference |
| Sockets.StopsAtFailure | bridges/remote_mmio.c:109-133 | a transfer ends with the first failure, for QEMU the first EAGAIN too |
| RemoteMmio.SendMessage | bridges/remote_mmio.c:109-120 | the send loop hands over a prefix of the request and succeeds iff it is all of it |
| RemoteMmio.ReceiveMessage | bridges/remote_mmio.c:122-133 | the receive loop fills the buffer with a prefix of what arrived and succeeds iff it is full |
| RemoteMmio.ChangedLinesSuffice | bridges/remote_mmio.c:149-159 | driving only the changed lines leaves every line at its bit |
| RemoteMmio.WholeResponsesAreJudged | bridges/remote_mmio.c:122-139 | a response that arrives whole is accepted iff its magic, version and status are the right numbers, however it is cut up |
| RemoteMmio.RemoteMmioState.Connect | bridges/remote_mmio.c:41-78 | connects lazily: an open descriptor is kept |
| RemoteMmio.RemoteMmioState.DriveIrqs | bridges/remote_mmio.c:149-159 | the loop over the lines: irq_last and every line follow the new word |
| RemoteMmio.RemoteMmioState.Transact | bridges/remote_mmio.c:88-161 | return code, data, descriptor, interrupt word, lines and bytes sent and consumed, for every behaviour of the socket |
| RemoteMmio.RemoteMmioState.Read | bridges/remote_mmio.c:169-185 | only aligned 32-bit reads go out; a refused or failed one reads as 0 |
| RemoteMmio.RemoteMmioState.Write | bridges/remote_mmio.c:192-206 | only aligned 32-bit writes go out, with the low 32 bits of offset and value |
| RemoteMmio.RemoteMmioState.Unrealize | bridges/remote_mmio.c:256-265 | QUIT is sent and the descriptor closed |
| CosimServer.SendAll | transactor/cosim_server.cpp:107-123 | sends a prefix and returns true iff it is the whole message |
| CosimServer.RecvAll | transactor/cosim_server.cpp:129-145 | fills the buffer and returns true iff it is full |
| CosimServer.CosimServer.TlmRead | transactor/cosim_server.cpp:254-279 | the flat map's answer, data only on success |
| CosimServer.CosimServer.TlmWrite | transactor/cosim_server.cpp:285-306 | the flat map's effect |
| CosimServer.CosimServer.Execute | transactor/cosim_server.cpp:205-237 | the reply and the registers after the dispatch of any request; `CosimServer.AnswersExactly` says what the status is |
| CosimServer.AnswersExactly | transactor/cosim_server.cpp:205-237 | status 0 for an accepted READ or WRITE, TICK and QUIT, 1 for a refused access, an unknown op and a bad header; only a successful read carries data, a request that does not succeed changes nothing |
| CosimServer.ServeKeepsLength | transactor/cosim_server.cpp:254-279 | no device changes the payload's length, so the server's 4-byte copy is in bounds |
| CosimServer.CosimServer.Respond | transactor/cosim_server.cpp:205-242 | a complete request runs once and as much of its reply as the socket takes is sent; the connection is dropped if that is not all |
| CosimServer.CosimServer.HandleRequest | transactor/cosim_server.cpp:197-246 | an incomplete request leaves no trace but a closed connection; a complete one runs once and is answered as far as the socket allows |
| CosimServer.CosimServer.Round | transactor/cosim_server.cpp:175-248 | one round of the service loop, with and without a client |
| CosimServer.EffectIsTheMachines | transactor/cosim_server.cpp:212-234 | a request's effect on the registers is that of its bus access as an event of the atomic machine |
| LoopRefinement.SendingIsARun | bridges/remote_mmio.c:109-120 | the client's send loop, for every script of send, is a run of the protocol |
| LoopRefinement.ReceivingIsARun | bridges/remote_mmio.c:122-133 | and so is its receive loop |
| LoopRefinement.CallGoesOut | bridges/remote_mmio.c:88-120 | the first half of a call is a run: connecting or not, sending all or part, giving up |
| LoopRefinement.CallComesBack | bridges/remote_mmio.c:122-161 | the second half is a run that ends with the return, descriptor, data, irq_last and lines of the verdict Transact comes to |
| LoopRefinement.CollectingIsARun | transactor/cosim_server.cpp:129-145 | the server's receive loop, EAGAINs included, is a run of the protocol |
| LoopRefinement.AnsweringIsARun | transactor/cosim_server.cpp:107-123 | and so is its send loop |
| Polling.LogWaitBit | platforms/basic_cortexM/firmware/log.h:45-85 | returns 0 iff one of the first `spins` reads shares a one bit with the mask, and then at the first of them |
| Polling.PollingRunsTheClock | transactor/cosim_server.cpp:269-272 | polling only lets the clock run, at least three edges a read of INTR and seven a read of WDT_RIS |
| Polling.TimerReadHits | peripherals/timer/timer.h:167-192 | a poll of INTR sees the compare bit iff the edges to the first match have passed |
| Polling.TimerPollSucceeds | platforms/basic_cortexM/firmware/log.h:45-85 | a poll of INTR sees the bit within one more read than a third of the edges that remain, rounded up |
| Polling.TimerPollIsTight | platforms/basic_cortexM/firmware/log.h:45-85 | and no sooner when each read takes its three edges |
| Polling.WaitForCompare | platforms/basic_cortexM/firmware/log.h:45-85 | so log_wait_bit on INTR returns 0, within that many reads |
| Polling.WdtReadHits | peripherals/wdt_apb.h:73-85 | a poll of WDT_RIS sees the bit iff more than VALUE ticks have passed |
| Polling.WdtPollSucceeds | platforms/basic_cortexM/firmware/log.h:45-85 | a poll of WDT_RIS sees the bit within one more read than a seventh of the edges that remain, rounded up |
| Polling.WaitForExpiry | platforms/basic_cortexM/firmware/log.h:45-85 | so log_wait_bit on WDT_RIS returns 0, within that many reads |
| CoSimInvariants.AlwaysHoldsTogether | transactor/cosim_server.cpp:175-248 | in every state of every run of both sides the SoC is in a state of its scheduler, the protocol's invariants hold, and every executed transaction was served by exactly its bus access, from one moment between accesses to a later one |
| CoSimInvariants.NetIsARun | bridges/remote_mmio.c:88-161 | the network half of a run of both sides is a run of the protocol |
| GuestProgress.GuestCallCanFinish | transactor/cosim_server.cpp:175-248 | at any moment of a call whose connection the server is on or will come to, network and scheduler together can carry it, without failures, to the SoC's own reply to it |
| GuestProgress.NewGuestCallCanFinish | bridges/remote_mmio.c:88-161 | so from every reachable state between calls whose server is available a new call can be carried to the SoC's reply to that very request, through any backlog, a request still in hand, and every wait of the server |
| EndToEnd.SuccessfulReadReturnsItsData | bridges/remote_mmio.c:135-143 | a read that returned 0 was answered OK by the device behind its address, in the state in which the access reached it, and returned its data |
| EndToEnd.GuestReadsLastWrite | peripherals/sram_ahb.h:41-62 | over any interleaving, failures and reconnections included, a successful read of an SRAM word returns the last value written there by an access that reached the SoC |
| EndToEnd.ReturnTellsTheStatus | transactor/cosim_server.cpp:205-237 | in every run, a call that returned 0 asked for an accepted access, a tick or a quit; one answered with an error for a refused address or an unknown op |
| EndToEnd.RepliesTellTheStatus | transactor/cosim_server.cpp:205-237 | every reply made has status 0 or 1 by that rule |
| EndToEnd.SuccessfulWriteWasAccepted | transactor/cosim_server.cpp:285-306 | a write that returned 0 is in the SoC's history with its address and data, and was answered OK by the device in the state in which it reached it |
| EndToEnd.RefusedAccessChangesNothing | transactor/cosim_server.cpp:254-306 | a refused access leaves the whole SoC as it was |
| EndToEnd.LinesAreFreshOnReturn | bridges/remote_mmio.c:145-159 | when a call returns 0, under any schedule of the SoC, the lines are the levels on irq_bits when its reply was made, which show the registers of that moment, register by register |
| EndToEnd.LinesShowTheAccessItself | peripherals/uart_pl011.h:186-187 | in particular line 2 is high iff that very access has left some status of the UART pending and unmasked, and line 3 iff it has left an enabled pin pending |
| EndToEnd.SocSeesExecutedAccesses | transactor/cosim_server.cpp:205-237 | the bus accesses in the SoC's history are those of the executed transactions, in order, each once, and that of a request in hand |
| EndToEnd.ServerCanReply | transactor/cosim_server.cpp:205-242 | back from the bus the server can always reply |
| GuestView.GuestReadsLastWord | transactor/cosim_server.cpp:254-279 | a guest read of any plain register, SRAM included, that returned 0 has returned the last word written to that address since reset, cut to the register's width |
| GuestView.ForwardedAccesses | bridges/remote_mmio.c:169-206 | of the accesses QEMU forwards the SoC refuses only those outside its windows, and those it does not forward name no register |
| GuestView.LinesShowHistory | bridges/remote_mmio.c:145-159 | when a call returns 0 all eight lines are functions of the SoC's history up to its reply |
| GuestView.MaskedUartIsSilent | peripherals/uart_pl011.h:80-83 | line 2 is low while the last word written to IMSC is 0 |
| GuestView.LoopbackByteRaisesTheLine | peripherals/uart_pl011.h:119-131 | when the write of a byte in loopback, with room and RX unmasked, returns 0, line 2 is high |

## Left out

* Real sockets, `poll`, `fcntl`, `unlink` and process lifetime: sends, receives, connects and accepts have their possible outcomes and nothing else; a socket's end of stream is one of them.
* QEMU's object model, machine construction, CPU and interrupt controllers: an interrupt line is a boolean.
* Console output and log text: no state depends on them. The extra read of a register for the timeout message of `log_wait_bit` is not modelled either.
* TLM extensions, DMI, byte enables and `ApbExtension` fields: no routed device reads them.
* Absolute time: waits are numbers of clock edges. `Machine`, `Kernel` and `CoSim` let any number of edges pass while the server waits; only `Polling` uses how long a delay is. A `COSIM_OP_TICK` may therefore take any number of waits, not the requested number of cycles.
* The scheduler model starts with no client connected and the server in its first polling slice, after initialization; the activations of `reset_seq` and `timer_thread` up to their first wait are part of its start state.
* KernelSettling.QuiescentStateIsTheMachines: leaves the Timer out, because a pin access straddles clock edges; `KernelTrace.TraceRunsTheMachine` is the statement with the Timer.
* When a pin access coincides with a clock edge, either may come first: the trace of `KernelTrace` records which did.
* ProtocolProgress.CallCanFinish: that a call can be carried on does not say that it will be; no fairness of the operating system is assumed. The same holds for the results of `GuestProgress`.
* `CoSim` lets the server attend to its socket at any moment between accesses; its polling interval is not modelled.
* A socket on which both ends fail is modelled as two independent failures; a client that issues on a connection the server has closed may still hand bytes to it, which nobody reads.
* Decoder.TlmAddressMap.Enter: does not model the assignment that restores the address after the call through `device_socket`, because no device is modelled behind it.
* Decoder.TlmDecoder.Enter: does not model the restoring assignment either; it is part of `Soc.CortexMPlSoc.ApbTransport` and `Soc.CortexMPlSoc.BTransport`.
* `TlmSink` is bound to port 3 of the AHB decoder, which no region selects; it has no model.
* The Cortex-A platform beyond `TlmAddressMap`, the template platform, `timer_tb.cpp` and `Register32`.
* The optional asynchronous channel of `CosimIrqEvent`, which no code uses.
