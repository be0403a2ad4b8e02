// What every scheduler choice keeps, and what that means for interrupts, the pin handshake and the
// order in which processes run.
module KernelInvariants {
  import opened Words
  import opened Tlm
  import opened MemoryMap
  import opened Soc
  import opened Kernel
  import Machine
  import Timer
  import Sram
  import Gpio
  import Uart
  import SysCtrl
  import Watchdog
  import PinBridge

  // ----- notifications are never lost

  /** A driver whose output is stale is about to run. */
  predicate DriversFollow(k: Sim) {
    && (TimerIrq in k.runnable ||
        (k.next.intr1 == Timer.Intr1Level(k.regs.timer) && k.next.intr2 == Timer.Intr2Level(k.regs.timer)))
    && (UartDrive in k.runnable || k.next.uartIrq == Uart.IrqLevel(k.regs.uart))
    && (GpioDrive in k.runnable || k.next.gpioIrq == Gpio.IrqLevel(k.regs.gpio))
    && (WdtDrive in k.runnable ||
        (k.next.wdtIrq == Watchdog.IrqLevel(k.regs.wdt) && k.next.wdtRst == Watchdog.RstLevel(k.regs.wdt)))
    && (Pack in k.runnable || k.next.irqBits == PackWires(k.cur))
  }

  function Local(e: Machine.Event, offset: Address): Txn
    requires e.Access?
  {
    ServerTxn(e.command, e.address, e.value).(address := offset)
  }

  /** An access behind the decoders changes its device's registers and no others. */
  lemma AccessIsLocal(s: SocRegs, e: Machine.Event, d: Device, offset: Address)
    requires e.Access? && FlatMap(e.address) == Some(Target(d, offset)) && !d.TimerPort?
    ensures offset < PL_SLOT_SIZE
    ensures var s', t := Machine.AccessEffect(s, e).0, Local(e, offset);
      match d
      case SramPort => s' == s.(sram := Sram.Transport(s.sram, t).0)
      case GpioPort => s' == s.(gpio := Gpio.Transport(s.gpio, t).0)
      case UartPort => s' == s.(uart := Uart.Transport(s.uart, t).0)
      case SysCtrlPort => s' == s.(sys := SysCtrl.Transport(s.sys, t).0)
      case WdtPort => s' == s.(wdt := Watchdog.Transport(s.wdt, t).0)
      case TimerPort => true
  {
    hide Sram.Transport, Gpio.Transport, Uart.Transport, SysCtrl.Transport, Watchdog.Transport;
    FlatMapIsTheOneSlot(e.address, d);
  }

  lemma TimerOpKeepsDrivers(k: Sim, op: Timer.Op)
    requires DriversFollow(k)
    ensures DriversFollow(TimerOp(k, op))
  {
    hide Timer.Step, Gpio.IrqLevel, Uart.IrqLevel, Watchdog.IrqLevel, Watchdog.RstLevel;
  }

  lemma BusKeepsDrivers(k: Sim, p: Proc)
    requires DriversFollow(k)
    ensures DriversFollow(RunBus(k, p))
  {
    hide TimerOp, Timer.ReadReg;
    if p == TimerWrite && k.cur.writeEn {
      TimerOpKeepsDrivers(LogWrite(k), Timer.BusWrite(k.cur.address, k.cur.dataIn));
    }
  }

  lemma ClockedKeepsDrivers(k: Sim, p: Proc)
    requires DriversFollow(k)
    ensures DriversFollow(RunClocked(k, p))
  {
    if p == TimerThread {
      hide TimerOp, DriversFollow;
      TimerOpKeepsDrivers(k, Timer.Tick);
    } else if p == WdtTick {
      TickKeepsDrivers(k);
    } else {
      hide Gpio.IrqLevel, Uart.IrqLevel, Watchdog.IrqLevel, Watchdog.RstLevel, Watchdog.Tick, PackWires,
           Timer.Intr1Level, Timer.Intr2Level, TimerOp;
    }
  }

  /** A tick that moves an output level is an expiry, and notifies drive. */
  lemma TickKeepsDrivers(k: Sim)
    requires DriversFollow(k)
    ensures DriversFollow(RunClocked(k, WdtTick))
  {
    hide Gpio.IrqLevel, Uart.IrqLevel, PackWires, Timer.Intr1Level, Timer.Intr2Level;
  }

  lemma ResetKeepsDrivers(k: Sim, p: Proc)
    requires DriversFollow(k)
    ensures DriversFollow(RunReset(k, p))
  {
    hide TimerOp;
    if p == TimerReset {
      TimerOpKeepsDrivers(k, Timer.Reset);
    }
  }

  /** Running p makes p's own output fresh, so it may leave the runnable set. */
  lemma DriverKeepsDrivers(k: Sim, p: Proc)
    requires DriversFollow(k.(runnable := k.runnable + {p}))
    requires p in {TimerIrq, UartDrive, GpioDrive, WdtDrive, Pack}
    ensures DriversFollow(RunDriver(k, p))
  {
    hide Gpio.IrqLevel, Uart.IrqLevel, Watchdog.IrqLevel, Watchdog.RstLevel, PackWires, Timer.Intr1Level,
         Timer.Intr2Level;
    var j := k.(runnable := k.runnable + {p});
    assert forall q | q in j.runnable && q != p :: q in k.runnable;
    match p {
      case TimerIrq =>
      case UartDrive =>
      case GpioDrive =>
      case WdtDrive =>
      case Pack =>
    }
  }

  /** j differs from k in nothing DriversFollow speaks of, except that more may be runnable. */
  predicate SameOutputs(k: Sim, j: Sim) {
    && j.regs == k.regs && j.cur == k.cur && k.runnable <= j.runnable
    && j.next.intr1 == k.next.intr1 && j.next.intr2 == k.next.intr2
    && j.next.uartIrq == k.next.uartIrq && j.next.gpioIrq == k.next.gpioIrq
    && j.next.wdtIrq == k.next.wdtIrq && j.next.wdtRst == k.next.wdtRst && j.next.irqBits == k.next.irqBits
  }

  lemma SameOutputsKeepDrivers(k: Sim, j: Sim)
    requires DriversFollow(k) && SameOutputs(k, j)
    ensures DriversFollow(j)
  {
    hide Gpio.IrqLevel, Uart.IrqLevel, Watchdog.IrqLevel, Watchdog.RstLevel, PackWires;
  }

  /** A device access either notifies its driver or leaves its level alone. */
  lemma DeviceAccessKeepsDrivers(k: Sim, e: Machine.Event, d: Device, offset: Address)
    requires DriversFollow(k) && e.Access? && FlatMap(e.address) == Some(Target(d, offset)) && !d.TimerPort?
    ensures DriversFollow(StartAccess(k, e))
  {
    hide Machine.AccessEffect, Gpio.IrqLevel, Uart.IrqLevel, Watchdog.IrqLevel, Watchdog.RstLevel,
         Sram.Transport, Gpio.Transport, Uart.Transport, SysCtrl.Transport, Watchdog.Transport,
         Gpio.Notifies, Uart.Notifies, Watchdog.Notifies, PackWires, Timer.Intr1Level, Timer.Intr2Level;
    AccessIsLocal(k.regs, e, d, offset);
    hide FlatMap;
    var t := Local(e, offset);
    if d.GpioPort? && !Gpio.Notifies(t) {
      Gpio.LevelChangesOnlyWithNotice(k.regs.gpio, t);
    }
    if d.UartPort? && !Uart.Notifies(k.regs.uart, t) {
      Uart.LevelChangesOnlyWithNotice(k.regs.uart, t);
    }
    if d.WdtPort? && !Watchdog.Notifies(k.regs.wdt, t) {
      Watchdog.LevelsChangeOnlyWithNotice(k.regs.wdt, t);
    }
  }

  lemma AccessKeepsDrivers(k: Sim, e: Machine.Event)
    requires DriversFollow(k) && e.Access?
    ensures DriversFollow(StartAccess(k, e))
  {
    hide DriversFollow, Machine.AccessEffect, Notified, FlatMap;
    match FlatMap(e.address) {
      case None => SameOutputsKeepDrivers(k, StartAccess(k, e));
      case Some(Target(TimerPort, _)) => SameOutputsKeepDrivers(k, StartAccess(k, e));
      case Some(Target(d, offset)) => DeviceAccessKeepsDrivers(k, e, d, offset);
    }
  }

  /** A server that starts no access changes only its own position, and the strobes when it lets go of them. */
  predicate OnlyWaits(k: Sim, j: Sim) {
    && j == k.(pc := j.pc, zeroWait := j.zeroWait, done := j.done, runnable := j.runnable,
               next := k.next.(readEn := j.next.readEn, writeEn := j.next.writeEn))
    && (j.runnable == k.runnable || (j.runnable == k.runnable + {Server} && !Strobing(k.pc)))
  }

  lemma WaitShape(k: Sim, act: ServerAct)
    requires !(k.pc.Ready? && act.Serve?)
    ensures OnlyWaits(k, RunServer(k, act))
  {
    hide StartAccess;
    var j := RunServer(k, act);
    match k.pc {
      case Ready => assert j == k.(pc := Polling);
      case Polling => assert j == k.(pc := Ready, runnable := k.runnable + {Server});
      case Delaying => assert j == k.(pc := Ready, runnable := k.runnable + {Server});
      case Settling => assert j == k.(pc := Delaying);
      case Strobe1(req) => assert j == k.(pc := Strobe2(req), zeroWait := true);
      case Strobe2(req) => assert j.runnable == k.runnable;
    }
  }

  lemma WaitSameOutputs(k: Sim, j: Sim)
    requires OnlyWaits(k, j)
    ensures SameOutputs(k, j)
  {
  }

  lemma ServerKeepsDrivers(k: Sim, act: ServerAct)
    requires DriversFollow(k)
    ensures DriversFollow(RunServer(k, act))
  {
    hide StartAccess, DriversFollow, SameOutputs;
    if k.pc.Ready? && act.Serve? {
      AccessKeepsDrivers(k, Machine.Access(act.command, act.address, act.value));
    } else {
      hide RunServer, OnlyWaits;
      WaitShape(k, act);
      WaitSameOutputs(k, RunServer(k, act));
      SameOutputsKeepDrivers(k, RunServer(k, act));
    }
  }

  lemma RunKeepsDrivers(k: Sim, p: Proc, act: ServerAct)
    requires DriversFollow(k) && p in k.runnable
    ensures DriversFollow(RunProc(k, p, act))
  {
    hide RunServer, RunBus, RunClocked, RunDriver, RunReset;
    var j := k.(runnable := k.runnable - {p});
    if p in {TimerIrq, UartDrive, GpioDrive, WdtDrive, Pack} {
      assert j.runnable + {p} == k.runnable;
      DriverKeepsDrivers(j, p);
    } else {
      assert DriversFollow(j);
      if p == Server {
        ServerKeepsDrivers(j, act);
      } else if p in {TimerRead, TimerWrite} {
        BusKeepsDrivers(j, p);
      } else if p in {TimerThread, PclkDiv, ResetSeq, WdtTick, OnWdt} {
        ClockedKeepsDrivers(j, p);
      } else {
        ResetKeepsDrivers(j, p);
      }
    }
  }

  lemma ChoiceKeepsDrivers(k: Sim, c: Choice)
    requires DriversFollow(k) && Enabled(k, c)
    ensures DriversFollow(Next(k, c))
  {
    hide RunProc;
    match c {
      case Run(p, act) => RunKeepsDrivers(k, p, act);
      case Update =>
      case Advance(_, _) =>
    }
  }

  // ----- who can be runnable when

  /** Between accesses the server runs alone, on settled signals; a zero-time wait belongs to a strobe. */
  predicate ServerAlone(k: Sim) {
    && (k.pc.Ready? ==> Server in k.runnable)
    && (Server in k.runnable && !Strobing(k.pc) ==> k.runnable == {Server} && k.cur == k.next)
    && (k.zeroWait ==> Strobing(k.pc) && Server !in k.runnable)
    && (Strobing(k.pc) && !k.zeroWait ==> Server in k.runnable)
  }

  /** j differs from k only in what device processes may change. */
  predicate SameServerSide(k: Sim, j: Sim) {
    && j.pc == k.pc && j.zeroWait == k.zeroWait && j.clockDue == k.clockDue && j.cur == k.cur
    && j.done == k.done && j.events == k.events
    && j.next.readEn == k.next.readEn && j.next.writeEn == k.next.writeEn
    && j.next.address == k.next.address && j.next.dataIn == k.next.dataIn
    && k.runnable <= j.runnable <= k.runnable + {TimerIrq, UartDrive, GpioDrive, WdtDrive}
  }

  /** Nor does it touch the bus side of the handshake. */
  predicate SameAnswers(k: Sim, j: Sim) {
    j.acts == k.acts && j.marks == k.marks && j.next.dataOut == k.next.dataOut
    && j.trace == k.trace && j.places == k.places
  }

  lemma TimerOpIsLocal(k: Sim, op: Timer.Op)
    ensures SameServerSide(k, TimerOp(k, op)) && SameAnswers(k, TimerOp(k, op))
  {
    hide Timer.Step;
  }

  lemma BusIsLocal(k: Sim, p: Proc)
    ensures SameServerSide(k, RunBus(k, p))
  {
    hide TimerOp, Timer.ReadReg;
    if p == TimerWrite && k.cur.writeEn {
      TimerOpIsLocal(LogWrite(k), Timer.BusWrite(k.cur.address, k.cur.dataIn));
    }
  }

  lemma TickIsLocal(k: Sim)
    ensures SameServerSide(k, RunClocked(k, WdtTick)) && SameAnswers(k, RunClocked(k, WdtTick))
  {
    hide Watchdog.Tick, Watchdog.Expires;
  }

  lemma ClockedIsLocal(k: Sim, p: Proc)
    ensures SameServerSide(k, RunClocked(k, p)) && SameAnswers(k, RunClocked(k, p))
  {
    hide TimerOp, Watchdog.Tick, Watchdog.Expires;
    match p {
      case TimerThread => TimerOpIsLocal(k, Timer.Tick);
      case WdtTick => TickIsLocal(k);
      case PclkDiv =>
      case ResetSeq =>
      case OnWdt =>
      case _ =>
    }
  }

  lemma ResetIsLocal(k: Sim, p: Proc)
    ensures SameServerSide(k, RunReset(k, p)) && SameAnswers(k, RunReset(k, p))
  {
    hide TimerOp;
    TimerOpIsLocal(k, Timer.Reset);
  }

  lemma DriverIsLocal(k: Sim, p: Proc)
    ensures SameServerSide(k, RunDriver(k, p)) && SameAnswers(k, RunDriver(k, p))
  {
  }

  lemma DeviceRunIsLocal(k: Sim, p: Proc, act: ServerAct)
    requires p != Server
    ensures SameServerSide(k.(runnable := k.runnable - {p}), RunProc(k, p, act))
    ensures p !in {TimerRead, TimerWrite} ==> SameAnswers(k, RunProc(k, p, act))
  {
    hide RunServer, RunBus, RunClocked, RunDriver, RunReset;
    var j := k.(runnable := k.runnable - {p});
    if p in {TimerIrq, UartDrive, GpioDrive, WdtDrive, Pack} {
      DriverIsLocal(j, p);
    } else if p in {TimerRead, TimerWrite} {
      BusIsLocal(j, p);
    } else if p in {TimerThread, PclkDiv, ResetSeq, WdtTick, OnWdt} {
      ClockedIsLocal(j, p);
    } else {
      ResetIsLocal(j, p);
    }
  }

  /** An access to any device takes time, whether the device accepts it or not. */
  lemma MappedAccessTakesTime(s: SocRegs, e: Machine.Event)
    requires e.Access? && FlatMap(e.address).Some?
    ensures Machine.AccessEffect(s, e).1.cost >= AHB_CYCLE
  {
    hide Sram.Transport, Gpio.Transport, Uart.Transport, SysCtrl.Transport, Watchdog.Transport, PinBridge.Access;
    FlatMapIsTheOneSlot(e.address, FlatMap(e.address).value.device);
  }

  lemma NotifiedAreDrivers(s: SocRegs, d: Device, t: Txn)
    ensures Notified(s, d, t) <= {GpioDrive, UartDrive, WdtDrive}
  {
    hide Gpio.Notifies, Uart.Notifies, Watchdog.Notifies;
  }

  lemma WaitKeepsServerAlone(k: Sim, act: ServerAct)
    requires ServerAlone(k) && Server in k.runnable && !(k.pc.Ready? && act.Serve?)
    ensures ServerAlone(RunProc(k, Server, act))
  {
    hide StartAccess;
    assert k.runnable == {Server} || Strobing(k.pc);
    match k.pc {
      case Ready =>
      case Polling =>
      case Settling =>
      case Delaying =>
      case Strobe1(_) =>
      case Strobe2(_) =>
    }
  }

  lemma StartKeepsServerAlone(k: Sim, e: Machine.Event)
    requires e.Access? && k.pc.Ready? && k.runnable == {} && k.cur == k.next && !k.zeroWait
    ensures ServerAlone(StartAccess(k, e))
  {
    hide Machine.AccessEffect;
    match FlatMap(e.address) {
      case None => hide FlatMap;
      case Some(Target(TimerPort, _)) => hide FlatMap;
      case Some(Target(d, offset)) =>
        MappedAccessTakesTime(k.regs, e);
        NotifiedAreDrivers(k.regs, d, Local(e, offset));
        hide FlatMap, Notified;
    }
  }

  lemma ServerRunKeepsServerAlone(k: Sim, act: ServerAct)
    requires ServerAlone(k) && Server in k.runnable
    ensures ServerAlone(RunProc(k, Server, act))
  {
    if k.pc.Ready? && act.Serve? {
      assert k.runnable == {Server} && k.cur == k.next;
      var j := k.(runnable := k.runnable - {Server});
      assert j.runnable == {};
      hide ServerAlone, StartAccess;
      StartKeepsServerAlone(j, Machine.Access(act.command, act.address, act.value));
    } else {
      hide ServerAlone, RunProc;
      WaitKeepsServerAlone(k, act);
    }
  }

  lemma DeviceKeepsServerAlone(k: Sim, p: Proc, act: ServerAct)
    requires ServerAlone(k) && p in k.runnable && p != Server
    ensures ServerAlone(RunProc(k, p, act))
  {
    hide RunProc;
    DeviceRunIsLocal(k, p, act);
    assert k.runnable != {Server};
  }

  lemma UpdateKeepsServerAlone(k: Sim)
    requires ServerAlone(k) && k.runnable == {}
    ensures ServerAlone(UpdatePhase(k))
  {
    hide Triggered, Clocked;
    ServerIsNotTriggered(k);
  }

  lemma ServerIsNotTriggered(k: Sim)
    ensures Server !in Triggered(k.cur, k.next) && Server !in Clocked(k)
  {
  }

  lemma ChoiceKeepsServerAlone(k: Sim, c: Choice)
    requires ServerAlone(k) && Enabled(k, c)
    ensures ServerAlone(Next(k, c))
  {
    match c {
      case Run(p, act) =>
        hide RunProc, ServerAlone;
        if p == Server {
          ServerRunKeepsServerAlone(k, act);
        } else {
          DeviceKeepsServerAlone(k, p, act);
        }
      case Update =>
        hide UpdatePhase, ServerAlone;
        UpdateKeepsServerAlone(k);
      case Advance(_, _) =>
    }
  }

  // ----- the pin handshake

  /** The bridge is driving req onto the bus. */
  predicate Drives(w: Wires, req: PinReq) {
    w.readEn == !req.write && w.writeEn == req.write && w.address == req.offset && w.dataIn == req.data
  }

  predicate Idle(w: Wires) {
    !w.readEn && !w.writeEn
  }

  predicate NoBusProcess(k: Sim) {
    TimerRead !in k.runnable && TimerWrite !in k.runnable
  }

  /** The bus process for req is about to run. */
  predicate Asked(k: Sim, req: PinReq) {
    && k.acts == k.done
    && (TimerRead in k.runnable <==> !req.write) && (TimerWrite in k.runnable <==> req.write)
  }

  /** It has run, once, and its answer is on its way. */
  predicate Answered(k: Sim, req: PinReq, dataOut: Word) {
    && k.acts == k.done + [PinAct(req, if req.write then req.data else dataOut)]
    && NoBusProcess(k)
  }

  predicate Handshake(k: Sim) {
    match k.pc
    case Strobe1(req) =>
      Drives(k.next, req) &&
      if k.zeroWait then Idle(k.cur) && k.acts == k.done && NoBusProcess(k)
      else Drives(k.cur, req) && (Asked(k, req) || Answered(k, req, k.next.dataOut))
    case Strobe2(req) =>
      Drives(k.next, req) && Drives(k.cur, req) &&
      if k.zeroWait then Asked(k, req) || Answered(k, req, k.next.dataOut)
      else Answered(k, req, k.cur.dataOut) && Answered(k, req, k.next.dataOut)
    case _ => Idle(k.next) && k.acts == k.done && NoBusProcess(k)
  }

  lemma WaitKeepsHandshake(k: Sim, act: ServerAct)
    requires Handshake(k) && ServerAlone(k) && Server in k.runnable && !(k.pc.Ready? && act.Serve?)
    ensures Handshake(RunProc(k, Server, act))
  {
    hide StartAccess;
    match k.pc {
      case Ready =>
      case Polling =>
      case Settling =>
      case Delaying =>
      case Strobe1(_) =>
      case Strobe2(_) =>
    }
  }

  /** No access starts but on an idle bus. */
  lemma StartKeepsHandshake(k: Sim, e: Machine.Event)
    requires e.Access? && k.pc.Ready? && Handshake(k) && k.runnable == {} && k.cur == k.next
    ensures Handshake(StartAccess(k, e))
  {
    hide Machine.AccessEffect;
    match FlatMap(e.address) {
      case None => hide FlatMap;
      case Some(Target(TimerPort, _)) => hide FlatMap;
      case Some(Target(d, offset)) =>
        NotifiedAreDrivers(k.regs, d, Local(e, offset));
        hide FlatMap, Notified;
    }
  }

  lemma ServerKeepsHandshake(k: Sim, act: ServerAct)
    requires Handshake(k) && ServerAlone(k) && Server in k.runnable
    ensures Handshake(RunProc(k, Server, act))
  {
    if k.pc.Ready? && act.Serve? {
      assert k.runnable == {Server} && k.cur == k.next;
      var j := k.(runnable := k.runnable - {Server});
      assert j.runnable == {} && Handshake(j);
      hide Handshake, ServerAlone, StartAccess;
      StartKeepsHandshake(j, Machine.Access(act.command, act.address, act.value));
    } else {
      hide Handshake, ServerAlone, RunProc;
      WaitKeepsHandshake(k, act);
    }
  }

  lemma ReadKeepsHandshake(k: Sim, act: ServerAct)
    requires Handshake(k) && TimerRead in k.runnable
    ensures Handshake(RunProc(k, TimerRead, act))
  {
    hide Timer.ReadReg;
  }

  lemma WriteKeepsHandshake(k: Sim, act: ServerAct)
    requires Handshake(k) && TimerWrite in k.runnable
    ensures Handshake(RunProc(k, TimerWrite, act))
  {
    hide TimerOp;
    var j := LogWrite(k.(runnable := k.runnable - {TimerWrite}));
    TimerOpIsLocal(j, Timer.BusWrite(j.cur.address, j.cur.dataIn));
  }

  lemma BusKeepsHandshake(k: Sim, p: Proc, act: ServerAct)
    requires Handshake(k) && p in {TimerRead, TimerWrite} && p in k.runnable
    ensures Handshake(RunProc(k, p, act))
  {
    hide RunProc, Handshake;
    if p == TimerRead {
      ReadKeepsHandshake(k, act);
    } else {
      WriteKeepsHandshake(k, act);
    }
  }

  lemma DeviceKeepsHandshake(k: Sim, p: Proc, act: ServerAct)
    requires Handshake(k) && p in k.runnable && p !in {Server, TimerRead, TimerWrite}
    ensures Handshake(RunProc(k, p, act))
  {
    hide RunProc;
    DeviceRunIsLocal(k, p, act);
  }

  lemma UpdateKeepsHandshake(k: Sim)
    requires Handshake(k) && ServerAlone(k) && k.runnable == {} && !Quiescent(k)
    ensures Handshake(UpdatePhase(k))
  {
  }

  lemma ChoiceKeepsHandshake(k: Sim, c: Choice)
    requires Handshake(k) && ServerAlone(k) && Enabled(k, c)
    ensures Handshake(Next(k, c))
  {
    match c {
      case Run(p, act) =>
        hide RunProc, Handshake;
        if p == Server {
          ServerKeepsHandshake(k, act);
        } else if p in {TimerRead, TimerWrite} {
          BusKeepsHandshake(k, p, act);
        } else {
          DeviceKeepsHandshake(k, p, act);
        }
      case Update =>
        hide Handshake, UpdatePhase;
        UpdateKeepsHandshake(k);
      case Advance(_, _) =>
    }
  }

  // ----- the Timer registers as a history

  predicate TimerHistory(k: Sim) {
    k.regs.timer == Timer.Run(Timer.AT_RESET, k.timerOps) && Accounted(k.acts, k.marks, k.timerOps)
  }

  /** The bus writes among the operations on the Timer registers, and among the activations. */
  function WriteOps(ops: seq<Timer.Op>): seq<PinReq> {
    if ops == [] then [] else
      var op := ops[|ops| - 1];
      WriteOps(ops[..|ops| - 1]) + (if op.BusWrite? then [PinReq(true, op.offset, op.wdata)] else [])
  }

  function WriteActs(acts: seq<PinAct>): seq<PinReq> {
    if acts == [] then [] else
      var req := acts[|acts| - 1].req;
      WriteActs(acts[..|acts| - 1]) + (if req.write then [req] else [])
  }

  /** a sampled, or wrote, the registers just after the first m operations. */
  predicate ActAt(a: PinAct, m: nat, ops: seq<Timer.Op>) {
    if a.req.write then m < |ops| && ops[m] == Timer.BusWrite(a.req.offset, a.req.data)
    else m <= |ops| && a.value == Timer.ReadReg(Timer.Run(Timer.AT_RESET, ops[..m]), a.req.offset)
  }

  /** The registers were written by the activations alone, and each activation acted at its mark. */
  predicate Accounted(acts: seq<PinAct>, marks: seq<nat>, ops: seq<Timer.Op>) {
    && WriteOps(ops) == WriteActs(acts)
    && |marks| == |acts|
    && forall i | 0 <= i < |acts| :: ActAt(acts[i], marks[i], ops)
  }

  lemma ActAtLater(a: PinAct, m: nat, ops: seq<Timer.Op>, op: Timer.Op)
    requires ActAt(a, m, ops)
    ensures ActAt(a, m, ops + [op])
  {
    hide Timer.ReadReg;
    if m <= |ops| {
      assert (ops + [op])[..m] == ops[..m];
    }
  }

  lemma AccountedAfterOp(acts: seq<PinAct>, marks: seq<nat>, ops: seq<Timer.Op>, op: Timer.Op)
    requires Accounted(acts, marks, ops) && !op.BusWrite?
    ensures Accounted(acts, marks, ops + [op])
  {
    hide ActAt;
    assert (ops + [op])[..|ops|] == ops;
    forall i | 0 <= i < |acts| {
      ActAtLater(acts[i], marks[i], ops, op);
    }
  }

  lemma AccountedAfterRead(acts: seq<PinAct>, marks: seq<nat>, ops: seq<Timer.Op>, a: PinAct)
    requires Accounted(acts, marks, ops) && !a.req.write && ActAt(a, |ops|, ops)
    ensures Accounted(acts + [a], marks + [|ops|], ops)
  {
    hide ActAt;
    assert (acts + [a])[..|acts|] == acts;
  }

  lemma AccountedAfterWrite(acts: seq<PinAct>, marks: seq<nat>, ops: seq<Timer.Op>, a: PinAct)
    requires Accounted(acts, marks, ops) && a.req.write
    ensures Accounted(acts + [a], marks + [|ops|], ops + [Timer.BusWrite(a.req.offset, a.req.data)])
  {
    var op := Timer.BusWrite(a.req.offset, a.req.data);
    assert (ops + [op])[..|ops|] == ops;
    assert (acts + [a])[..|acts|] == acts;
    assert ActAt(a, |ops|, ops + [op]);
    hide ActAt;
    forall i | 0 <= i < |acts| {
      ActAtLater(acts[i], marks[i], ops, op);
    }
  }

  lemma TimerOpIsOneStep(k: Sim, op: Timer.Op)
    requires k.regs.timer == Timer.Run(Timer.AT_RESET, k.timerOps)
    ensures var j := TimerOp(k, op);
      && j.regs.timer == Timer.Run(Timer.AT_RESET, j.timerOps)
      && j.timerOps == k.timerOps + [op] && j.acts == k.acts && j.marks == k.marks
  {
    hide Timer.Step;
    assert (k.timerOps + [op])[..|k.timerOps|] == k.timerOps;
  }

  lemma OpKeepsTimerHistory(k: Sim, op: Timer.Op)
    requires TimerHistory(k) && !op.BusWrite?
    ensures TimerHistory(TimerOp(k, op))
  {
    hide Accounted, TimerOp;
    TimerOpIsOneStep(k, op);
    AccountedAfterOp(k.acts, k.marks, k.timerOps, op);
  }

  lemma BusKeepsTimerHistory(k: Sim, p: Proc)
    requires TimerHistory(k)
    ensures TimerHistory(RunBus(k, p))
  {
    hide Accounted, TimerOp, Timer.ReadReg;
    if p == TimerRead && k.cur.readEn {
      var a := PinAct(PinReq(false, k.cur.address, k.cur.dataIn), Timer.ReadReg(k.regs.timer, k.cur.address));
      assert k.timerOps[..|k.timerOps|] == k.timerOps;
      AccountedAfterRead(k.acts, k.marks, k.timerOps, a);
    } else if p == TimerWrite && k.cur.writeEn {
      var a := PinAct(PinReq(true, k.cur.address, k.cur.dataIn), k.cur.dataIn);
      TimerOpIsOneStep(LogWrite(k), Timer.BusWrite(k.cur.address, k.cur.dataIn));
      AccountedAfterWrite(k.acts, k.marks, k.timerOps, a);
    }
  }

  /** The parts of a state that the Timer's history speaks of. */
  predicate SameTimer(k: Sim, j: Sim) {
    j.regs.timer == k.regs.timer && j.timerOps == k.timerOps && j.acts == k.acts && j.marks == k.marks
  }

  lemma ServerKeepsTimer(k: Sim, act: ServerAct)
    ensures SameTimer(k, RunServer(k, act))
  {
    hide Machine.AccessEffect, Notified;
    if k.pc.Ready? && act.Serve? {
      var e := Machine.Access(act.command, act.address, act.value);
      var t := FlatMap(e.address);
      if t.Some? && !t.value.device.TimerPort? {
        AccessIsLocal(k.regs, e, t.value.device, t.value.offset);
      }
    }
  }

  lemma SameTimerKeepsHistory(k: Sim, j: Sim)
    requires TimerHistory(k) && SameTimer(k, j)
    ensures TimerHistory(j)
  {
  }

  lemma LeavingKeepsTimerHistory(k: Sim, p: Proc)
    requires TimerHistory(k)
    ensures TimerHistory(k.(runnable := k.runnable - {p}))
  {
  }

  lemma ResetKeepsTimerHistory(k: Sim, p: Proc)
    requires TimerHistory(k)
    ensures TimerHistory(RunReset(k, p))
  {
    hide TimerOp, TimerHistory;
    if p == TimerReset && k.cur.reset {
      OpKeepsTimerHistory(k, Timer.Reset);
    } else {
      SameTimerKeepsHistory(k, RunReset(k, p));
    }
  }

  lemma ClockedKeepsTimerHistory(k: Sim, p: Proc)
    requires TimerHistory(k)
    ensures TimerHistory(RunClocked(k, p))
  {
    hide TimerOp, TimerHistory, Watchdog.Tick, Watchdog.Expires;
    if p == TimerThread {
      OpKeepsTimerHistory(k, Timer.Tick);
    } else {
      SameTimerKeepsHistory(k, RunClocked(k, p));
    }
  }

  lemma DriverSameTimer(k: Sim, p: Proc)
    ensures SameTimer(k, RunDriver(k, p))
  {
    hide PackWires, Gpio.IrqLevel, Uart.IrqLevel, Watchdog.IrqLevel, Watchdog.RstLevel;
  }

  lemma RunKeepsTimerHistory(k: Sim, p: Proc, act: ServerAct)
    requires TimerHistory(k)
    ensures TimerHistory(RunProc(k, p, act))
  {
    hide RunServer, RunBus, RunDriver, RunReset, RunClocked, TimerHistory, SameTimer;
    var j := k.(runnable := k.runnable - {p});
    LeavingKeepsTimerHistory(k, p);
    if p == Server {
      ServerKeepsTimer(j, act);
      SameTimerKeepsHistory(j, RunServer(j, act));
    } else if p in {TimerRead, TimerWrite} {
      BusKeepsTimerHistory(j, p);
    } else if p in {TimerThread, PclkDiv, ResetSeq, WdtTick, OnWdt} {
      ClockedKeepsTimerHistory(j, p);
    } else if p in {TimerIrq, UartDrive, GpioDrive, WdtDrive, Pack} {
      DriverSameTimer(j, p);
      SameTimerKeepsHistory(j, RunDriver(j, p));
    } else {
      ResetKeepsTimerHistory(j, p);
    }
  }

  lemma ChoiceKeepsTimerHistory(k: Sim, c: Choice)
    requires TimerHistory(k)
    ensures TimerHistory(Next(k, c))
  {
    hide RunProc, Accounted;
    match c {
      case Run(p, act) => RunKeepsTimerHistory(k, p, act);
      case Update =>
      case Advance(_, _) =>
    }
  }

  // ----- every reachable state

  lemma {:induction false} AlwaysHolds(cs: seq<Choice>)
    requires Schedule(START, cs)
    ensures var k := After(START, cs);
      DriversFollow(k) && ServerAlone(k) && Handshake(k) && TimerHistory(k)
  {
    if cs != [] {
      var k, c := After(START, cs[..|cs| - 1]), cs[|cs| - 1];
      AlwaysHolds(cs[..|cs| - 1]);
      hide Next, Enabled, DriversFollow, ServerAlone, Handshake, TimerHistory;
      ChoiceKeepsDrivers(k, c);
      ChoiceKeepsServerAlone(k, c);
      ChoiceKeepsHandshake(k, c);
      ChoiceKeepsTimerHistory(k, c);
    }
  }

  /** Whatever the order of processes, once the SoC is quiescent irq_bits is a function of the registers:
      five levels in bits 0 to 4 and nothing above. */
  lemma QuiescentIrqIsPure(cs: seq<Choice>)
    requires Schedule(START, cs) && Quiescent(After(START, cs))
    ensures var k := After(START, cs); k.cur.irqBits == PureIrq(k.regs) && Shows(k.cur.irqBits, k.regs)
  {
    hide PureIrq, DriversFollow, ServerAlone, Handshake, TimerHistory;
    AlwaysHolds(cs);
    SettledIrqIsPure(After(START, cs));
    PureIrqShows(After(START, cs).regs);
  }

  lemma SettledIrqIsPure(k: Sim)
    requires DriversFollow(k) && k.cur == k.next && k.runnable <= {Server}
    ensures k.cur.irqBits == PureIrq(k.regs)
  {
  }

  /** Whenever server_thread runs between accesses, in particular when a bus delay has just elapsed, the
      irq_bits it samples are those of the registers at that moment. */
  lemma ServerSamplesFreshIrq(cs: seq<Choice>)
    requires Schedule(START, cs)
    requires Server in After(START, cs).runnable && !Strobing(After(START, cs).pc)
    ensures var k := After(START, cs); k.cur.irqBits == PureIrq(k.regs) && Shows(k.cur.irqBits, k.regs)
  {
    hide PureIrq, DriversFollow, ServerAlone, Handshake, TimerHistory;
    AlwaysHolds(cs);
    AloneIsSettled(After(START, cs));
    SettledIrqIsPure(After(START, cs));
    PureIrqShows(After(START, cs).regs);
  }

  lemma AloneIsSettled(k: Sim)
    requires ServerAlone(k) && Server in k.runnable && !Strobing(k.pc)
    ensures k.runnable == {Server} && k.cur == k.next
  {
  }

  /** Outside the two zero-time waits every pin access so far has caused exactly one activation, with its
      offset and data; the Timer registers were written by these and nothing else; each read returned the
      register as it was at the instant of its activation; and the strobes are low before the server does
      anything else. */
  lemma HandshakeIsExact(cs: seq<Choice>)
    requires Schedule(START, cs) && !Strobing(After(START, cs).pc)
    ensures var k := After(START, cs);
      && k.done == k.acts
      && k.regs.timer == Timer.Run(Timer.AT_RESET, k.timerOps)
      && WriteOps(k.timerOps) == WriteActs(k.done)
      && |k.marks| == |k.done|
      && (forall i | 0 <= i < |k.done| :: ActAt(k.done[i], k.marks[i], k.timerOps))
      && (Server in k.runnable ==> Idle(k.cur) && Idle(k.next))
  {
    AlwaysHolds(cs);
  }
}
