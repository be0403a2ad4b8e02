// The SoC under SystemC's evaluate/update scheduler (IEEE Std 1666-2011, section 4.2.1): every process,
// every signal with its current and next value, immediate notification, delta notification, zero-time
// and timed waits.  A run is any sequence of scheduler choices.
module Kernel {
  import opened Words
  import opened Tlm
  import opened MemoryMap
  import opened Soc
  import opened Machine
  import Timer
  import Sram
  import Gpio
  import Uart
  import SysCtrl
  import Watchdog
  import Clock

  datatype Proc =
    | TimerThread | TimerIrq | TimerRead | TimerWrite | TimerReset
    | PclkDiv | ResetSeq
    | WdtTick | WdtDrive | WdtReset
    | UartDrive | UartReset | GpioDrive | GpioReset | SramReset
    | OnWdt | SysReset
    | Pack
    | Server

  /** Every sc_signal of the SoC but sys_clk, whose rising edge is an event of its own. */
  datatype Wires = Wires(
    reset: bool, pclk: bool,
    readEn: bool, writeEn: bool, address: Word, dataIn: Word, dataOut: Word,
    intr1: bool, intr2: bool, uartIrq: bool, gpioIrq: bool, wdtIrq: bool, wdtRst: bool,
    irqBits: Bits)

  /** A register access through the pin bridge; reads drive 0 on data_in. */
  datatype PinReq = PinReq(write: bool, offset: Word, data: Word)

  /** One activation of a Timer bus process: what it was asked and, for a read, the register it sampled. */
  datatype PinAct = PinAct(req: PinReq, value: Word)

  /** Where server_thread stands: between accesses, in a timed wait (its polling slice, the bridge's settling
      time, or the bus delay of an access), or in one of the pin bridge's two zero-time waits. */
  datatype ServerPc = Ready | Polling | Settling | Delaying | Strobe1(req: PinReq) | Strobe2(req: PinReq)

  datatype Sim = Sim(
    regs: SocRegs,
    pclkState: bool,        // ClockReset::pclk_state_
    cyclesLeft: nat,        // edges reset_seq still waits for
    cur: Wires,
    next: Wires,
    runnable: set<Proc>,
    zeroWait: bool,         // the server waits for the next delta
    clockDue: bool,         // a rising sys_clk edge arrives in the next delta
    pc: ServerPc,
    acts: seq<PinAct>,      // history: Timer bus activations
    marks: seq<nat>,        // history: how much had happened to the Timer registers at each of them
    done: seq<PinAct>,      // history: pin accesses as the bridge saw them
    timerOps: seq<Timer.Op>,  // history: what happened to the Timer registers
    events: seq<Event>,     // history: accesses, edges and reset changes, without the Timer's accesses
    trace: seq<Event>,      // history: the same with each Timer access where the Timer saw it
    places: seq<nat>        // history: where in the trace each activation is
  )

  /** One scheduler choice.  When Run picks the server between accesses, act says what it does next. */
  datatype Choice = Run(p: Proc, act: ServerAct) | Update | Advance(edge: bool, wake: bool)

  datatype ServerAct = Serve(command: Command, address: Word, value: Word) | Poll

  // ----- the levels the registers stand for

  function Level(b: bool, i: nat): set<nat> {
    if b then {i} else {}
  }

  /** What pack_irqs computes from the five interrupt wires. */
  function PackWires(w: Wires): Bits {
    Level(w.intr1, PL_IRQ_TIMER_CMP) + Level(w.intr2, PL_IRQ_TIMER_OV) + Level(w.uartIrq, PL_IRQ_UART)
    + Level(w.gpioIrq, PL_IRQ_GPIO) + Level(w.wdtIrq, PL_IRQ_WDT)
  }

  /** pack_irqs, up to the write to irq_bits. */
  method PackIrqs(w: Wires) returns (bits: Bits)
    ensures PL_IRQ_TIMER_CMP in bits <==> w.intr1
    ensures PL_IRQ_TIMER_OV in bits <==> w.intr2
    ensures PL_IRQ_UART in bits <==> w.uartIrq
    ensures PL_IRQ_GPIO in bits <==> w.gpioIrq
    ensures PL_IRQ_WDT in bits <==> w.wdtIrq
    ensures forall i | i in bits :: i < PL_IRQ_COUNT
    ensures bits == PackWires(w)
  {
    bits := {};
    if w.intr1 {
      bits := bits + {PL_IRQ_TIMER_CMP};
    }
    if w.intr2 {
      bits := bits + {PL_IRQ_TIMER_OV};
    }
    if w.uartIrq {
      bits := bits + {PL_IRQ_UART};
    }
    if w.gpioIrq {
      bits := bits + {PL_IRQ_GPIO};
    }
    if w.wdtIrq {
      bits := bits + {PL_IRQ_WDT};
    }
  }

  /** The packed interrupt word as a function of the registers alone. */
  function PureIrq(s: SocRegs): Bits {
    Level(Timer.Intr1Level(s.timer), PL_IRQ_TIMER_CMP) + Level(Timer.Intr2Level(s.timer), PL_IRQ_TIMER_OV)
    + Level(Uart.IrqLevel(s.uart), PL_IRQ_UART) + Level(Gpio.IrqLevel(s.gpio), PL_IRQ_GPIO)
    + Level(Watchdog.IrqLevel(s.wdt), PL_IRQ_WDT)
  }

  /** What each line stands for, register by register: 0 the Timer's compare, 1 its overflow, 2 any unmasked status of
      the UART, 3 any enabled pin pending, 4 an expiry with the watchdog's interrupt enabled. */
  ghost predicate Shows(irqBits: Bits, s: SocRegs) {
    && (0 in irqBits <==> 1 in s.timer.intr)
    && (1 in irqBits <==> 2 in s.timer.intr)
    && (2 in irqBits <==> exists i :: i in s.uart.ris && i in s.uart.imsc)
    && (3 in irqBits <==> exists i :: i in s.gpio.intstat && i in s.gpio.inten)
    && (4 in irqBits <==> s.wdt.ris && 0 in s.wdt.ctrl)
    && forall i | i in irqBits :: i < 5
  }

  lemma Meet(s: Bits, t: Bits)
    ensures s * t != {} <==> exists i :: i in s && i in t
  {
    if i :| i in s && i in t {
      assert i in s * t;
    }
    if s * t != {} {
      var i :| i in s * t;
    }
  }

  lemma PureIrqShows(s: SocRegs)
    ensures Shows(PureIrq(s), s)
  {
    Meet(s.uart.ris, s.uart.imsc);
    Meet(s.gpio.intstat, s.gpio.inten);
  }

  // ----- processes

  function Notify(k: Sim, changed: bool, p: Proc): Sim {
    if changed then k.(runnable := k.runnable + {p}) else k
  }

  /** The Timer registers move by op; a changed INTR notifies irq_changed_ev. */
  function TimerOp(k: Sim, op: Timer.Op): Sim {
    var r := Timer.Step(k.regs.timer, op);
    Notify(k.(regs := k.regs.(timer := r), timerOps := k.timerOps + [op]), r.intr != k.regs.timer.intr, TimerIrq)
  }

  function RunReset(k: Sim, p: Proc): Sim {
    var high := k.cur.reset;
    match p
    case TimerReset => if high then TimerOp(k, Timer.Reset) else k
    case WdtReset =>
      if high then k.(regs := k.regs.(wdt := Watchdog.AT_RESET), runnable := k.runnable + {WdtDrive}) else k
    case UartReset =>
      if high then k.(regs := k.regs.(uart := Uart.AT_RESET), runnable := k.runnable + {UartDrive}) else k
    case GpioReset =>
      if high then k.(regs := k.regs.(gpio := Gpio.AT_RESET), runnable := k.runnable + {GpioDrive}) else k
    case SramReset => if high then k.(regs := k.regs.(sram := Sram.ZEROED)) else k
    case SysReset => k.(regs := k.regs.(sys := SysCtrl.ResetTo(k.regs.sys, high)))
    case _ => k
  }

  function RunDriver(k: Sim, p: Proc): Sim {
    match p
    case TimerIrq =>
      k.(next := k.next.(intr1 := Timer.Intr1Level(k.regs.timer), intr2 := Timer.Intr2Level(k.regs.timer)))
    case UartDrive => k.(next := k.next.(uartIrq := Uart.IrqLevel(k.regs.uart)))
    case GpioDrive => k.(next := k.next.(gpioIrq := Gpio.IrqLevel(k.regs.gpio)))
    case WdtDrive =>
      k.(next := k.next.(wdtIrq := Watchdog.IrqLevel(k.regs.wdt), wdtRst := Watchdog.RstLevel(k.regs.wdt)))
    case Pack => k.(next := k.next.(irqBits := PackWires(k.cur)))
    case _ => k
  }

  function RunClocked(k: Sim, p: Proc): Sim {
    match p
    case TimerThread => TimerOp(k, Timer.Tick)
    case PclkDiv => k.(pclkState := !k.pclkState, next := k.next.(pclk := !k.pclkState))
    case ResetSeq =>
      if k.cyclesLeft == 0 then k
      else k.(cyclesLeft := k.cyclesLeft - 1, next := k.next.(reset := k.cyclesLeft > 1))
    case WdtTick =>
      if k.cur.reset then k
      else Notify(k.(regs := k.regs.(wdt := Watchdog.Tick(k.regs.wdt))), Watchdog.Expires(k.regs.wdt), WdtDrive)
    case OnWdt => k.(regs := k.regs.(sys := SysCtrl.WdtTo(k.regs.sys, k.cur.wdtRst)))
    case _ => k
  }

  /** The bus access behind an activation. */
  function TimerEvent(req: PinReq): Event {
    Access(if req.write then Write else Read, req.offset, req.data)
  }

  /** An activation comes before the clock edge that timer_thread has yet to see, if there is one. */
  function Place(k: Sim): nat {
    if TimerThread in k.runnable && k.trace != [] then |k.trace| - 1 else |k.trace|
  }

  function Log(k: Sim, a: PinAct): Sim {
    var at := Place(k);
    k.(acts := k.acts + [a], marks := k.marks + [|k.timerOps|], places := k.places + [at],
       trace := k.trace[..at] + [TimerEvent(a.req)] + k.trace[at..])
  }

  function LogWrite(k: Sim): Sim {
    Log(k, PinAct(PinReq(true, k.cur.address, k.cur.dataIn), k.cur.dataIn))
  }

  function RunBus(k: Sim, p: Proc): Sim {
    match p
    case TimerRead =>
      if !k.cur.readEn then k else
        var v := Timer.ReadReg(k.regs.timer, k.cur.address);
        Log(k.(next := k.next.(dataOut := v)), PinAct(PinReq(false, k.cur.address, k.cur.dataIn), v))
    case TimerWrite =>
      if !k.cur.writeEn then k else
        TimerOp(LogWrite(k), Timer.BusWrite(k.cur.address, k.cur.dataIn))
    case _ => k
  }

  /** The irq_ev_ notifications of a bus transaction. */
  function Notified(s: SocRegs, d: Device, t: Txn): set<Proc> {
    match d
    case GpioPort => if Gpio.Notifies(t) then {GpioDrive} else {}
    case UartPort => if Uart.Notifies(s.uart, t) then {UartDrive} else {}
    case WdtPort => if Watchdog.Notifies(s.wdt, t) then {WdtDrive} else {}
    case _ => {}
  }

  /** The server starts an access: the Timer through its pins, any other device within this evaluation.
      Back from b_transport it waits if, and only if, the access has added to the delay. */
  function StartAccess(k: Sim, e: Event): Sim
    requires e.Access?
  {
    match FlatMap(e.address)
    case None => k.(runnable := k.runnable + {Server}, events := k.events + [e], trace := k.trace + [e])
    case Some(Target(TimerPort, offset)) =>
      if e.command == Ignore then k.(runnable := k.runnable + {Server}) else
        var req := if e.command == Write then PinReq(true, offset, e.value) else PinReq(false, offset, 0);
        k.(next := k.next.(address := offset, dataIn := req.data, readEn := !req.write, writeEn := req.write),
           zeroWait := true, pc := Strobe1(req))
    case Some(Target(d, offset)) =>
      var t := ServerTxn(e.command, e.address, e.value).(address := offset);
      var (regs, o) := AccessEffect(k.regs, e);
      var waits := o.cost > 0;
      k.(regs := regs, events := k.events + [e], trace := k.trace + [e],
         runnable := k.runnable + Notified(k.regs, d, t) + (if waits then {} else {Server}),
         pc := if waits then Delaying else Ready)
  }

  function RunServer(k: Sim, act: ServerAct): Sim {
    match k.pc
    case Ready =>
      (match act
       case Poll => k.(pc := Polling)
       case Serve(c, a, v) => StartAccess(k, Access(c, a, v)))
    case Polling => k.(pc := Ready, runnable := k.runnable + {Server})
    case Delaying => k.(pc := Ready, runnable := k.runnable + {Server})
    case Settling => k.(pc := Delaying)
    case Strobe1(req) => k.(pc := Strobe2(req), zeroWait := true)
    case Strobe2(req) =>
      k.(pc := Settling, next := k.next.(readEn := if req.write then k.next.readEn else false,
                                         writeEn := if req.write then false else k.next.writeEn),
         done := k.done + [PinAct(req, if req.write then req.data else k.cur.dataOut)])
  }

  function RunProc(k: Sim, p: Proc, act: ServerAct): Sim {
    var j := k.(runnable := k.runnable - {p});
    if p == Server then RunServer(j, act)
    else if p in {TimerRead, TimerWrite} then RunBus(j, p)
    else if p in {TimerThread, PclkDiv, ResetSeq, WdtTick, OnWdt} then RunClocked(j, p)
    else if p in {TimerIrq, UartDrive, GpioDrive, WdtDrive, Pack} then RunDriver(j, p)
    else RunReset(j, p)
  }

  // ----- the scheduler

  /** The processes whose sensitivity list a change of signal values hits. */
  function Triggered(a: Wires, b: Wires): set<Proc> {
    (if a.reset != b.reset then {TimerReset, WdtReset, UartReset, GpioReset, SramReset, SysReset} else {})
    + (if !a.pclk && b.pclk then {WdtTick} else {})
    + (if !a.readEn && b.readEn then {TimerRead} else {})
    + (if !a.writeEn && b.writeEn then {TimerWrite} else {})
    + (if a.wdtRst != b.wdtRst then {OnWdt} else {})
    + (if a.intr1 != b.intr1 || a.intr2 != b.intr2 || a.uartIrq != b.uartIrq || a.gpioIrq != b.gpioIrq
          || a.wdtIrq != b.wdtIrq then {Pack} else {})
  }

  /** The processes waiting for the rising edge of sys_clk. */
  function Clocked(k: Sim): set<Proc> {
    {TimerThread, TimerIrq, PclkDiv} + (if k.cyclesLeft > 0 then {ResetSeq} else {})
  }

  /** What an update phase brings about: the edge of sys_clk, the end of reset. */
  function UpdateEvents(k: Sim): seq<Event> {
    (if k.clockDue then [SysEdge] else []) + (if k.cur.reset && !k.next.reset then [ReleaseReset] else [])
  }

  function UpdatePhase(k: Sim): Sim {
    k.(cur := k.next,
       runnable := Triggered(k.cur, k.next) + (if k.zeroWait then {Server} else {})
                   + (if k.clockDue then Clocked(k) else {}),
       zeroWait := false, clockDue := false,
       events := k.events + UpdateEvents(k), trace := k.trace + UpdateEvents(k))
  }

  predicate Quiescent(k: Sim) {
    k.runnable == {} && k.cur == k.next && !k.zeroWait && !k.clockDue
  }

  predicate Timed(pc: ServerPc) {
    pc.Polling? || pc.Settling? || pc.Delaying?
  }

  predicate Strobing(pc: ServerPc) {
    pc.Strobe1? || pc.Strobe2?
  }

  predicate Enabled(k: Sim, c: Choice) {
    match c
    case Run(p, _) => p in k.runnable
    case Update => k.runnable == {} && !Quiescent(k)
    case Advance(edge, wake) => Quiescent(k) && (edge || wake) && (wake ==> Timed(k.pc))
  }

  function Next(k: Sim, c: Choice): Sim {
    match c
    case Run(p, act) => RunProc(k, p, act)
    case Update => UpdatePhase(k)
    case Advance(edge, wake) => k.(clockDue := edge, runnable := if wake then {Server} else {})
  }

  const WIRES_AT_START := Wires(true, false, false, false, 0, 0, 0, false, false, false, false, false, false, {})

  /** After initialization: reset has been driven high, every process without dont_initialize is runnable,
      and the server has found no client and begun its first polling slice. */
  const START := Sim(
    AT_START, false, Clock.RESET_CYCLES, WIRES_AT_START, WIRES_AT_START,
    {TimerReset, WdtReset, UartReset, GpioReset, SramReset, SysReset, Pack}, false, false, Polling,
    [], [], [], [], [], [], [])

  predicate Schedule(k: Sim, cs: seq<Choice>) {
    cs == [] || (Schedule(k, cs[..|cs| - 1]) && Enabled(After(k, cs[..|cs| - 1]), cs[|cs| - 1]))
  }

  function After(k: Sim, cs: seq<Choice>): Sim {
    if cs == [] then k else Next(After(k, cs[..|cs| - 1]), cs[|cs| - 1])
  }
}
