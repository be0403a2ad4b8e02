// The scheduler refines the atomic machine: whatever the interleaving of processes and delta cycles, the
// registers of every device but the Timer move as the Machine module says, one event at a time.  Hence the
// order of processes within a time step is irrelevant; and every time step ends.
module KernelRefinement {
  import opened Tlm
  import opened MemoryMap
  import opened Soc
  import opened Kernel
  import opened KernelInvariants
  import Machine
  import Timer
  import Sram
  import Gpio
  import Uart
  import SysCtrl
  import Watchdog

  const RESETS: set<Proc> := {TimerReset, WdtReset, UartReset, GpioReset, SramReset, SysReset}
  const DRIVERS: set<Proc> := {TimerIrq, UartDrive, GpioDrive, WdtDrive, Pack}

  // ----- the clock and reset signals

  /** pclk_state_ and the remaining reset cycles once this delta's clocked processes have run. */
  predicate PclkSoon(k: Sim) {
    if PclkDiv in k.runnable then !k.pclkState else k.pclkState
  }

  function CyclesSoon(k: Sim): int {
    if ResetSeq in k.runnable then k.cyclesLeft - 1 else k.cyclesLeft
  }

  /** A watchdog tick has been caused but has not happened. */
  predicate TickComing(k: Sim) {
    WdtTick in k.runnable || (k.next.pclk && !k.cur.pclk) || (PclkDiv in k.runnable && !k.pclkState)
  }

  /** pclk is on its way from the divider to the watchdog. */
  predicate PclkMoving(k: Sim) {
    PclkDiv in k.runnable || k.next.pclk != k.cur.pclk || WdtTick in k.runnable
  }

  /** The reset methods of the initialization phase, before anything has touched a register. */
  predicate Initial(k: Sim) {
    k.cur.reset && k.runnable * RESETS != {}
  }

  predicate ClockPhases(k: Sim) {
    && k.next.pclk == k.pclkState
    && k.next.reset == (k.cyclesLeft > 0)
    && (k.next.reset ==> k.cur.reset)
    && (k.clockDue ==> k.runnable <= DRIVERS + {Server} && k.cur.pclk == k.next.pclk && k.cur.reset == k.next.reset)
    && (PclkDiv in k.runnable ==> k.cur.pclk == k.next.pclk && WdtTick !in k.runnable)
    && (WdtTick in k.runnable ==> k.cur.pclk == k.next.pclk)
    && (ResetSeq in k.runnable ==> k.cur.reset == k.next.reset && k.cyclesLeft > 0)
    // reset ends on a falling pclk edge, so no tick can slip in with it
    && (k.cur.reset ==> PclkSoon(k) == (CyclesSoon(k) % 2 == 1))
    && (PclkMoving(k) ==> WdtDrive !in k.runnable && k.cur.wdtRst == k.next.wdtRst)
    && (Initial(k) ==> k.regs == AT_START && k.runnable <= RESETS + DRIVERS && !PclkMoving(k))
  }

  /** j differs from k in nothing ClockPhases speaks of, except that drivers may have been notified. */
  predicate SameClocks(k: Sim, j: Sim) {
    && j.pclkState == k.pclkState && j.cyclesLeft == k.cyclesLeft && j.clockDue == k.clockDue && j.cur == k.cur
    && j.next.pclk == k.next.pclk && j.next.reset == k.next.reset && j.next.wdtRst == k.next.wdtRst
    && (PclkDiv in j.runnable <==> PclkDiv in k.runnable)
    && (ResetSeq in j.runnable <==> ResetSeq in k.runnable)
    && (WdtTick in j.runnable <==> WdtTick in k.runnable)
    && j.runnable <= k.runnable + DRIVERS + {Server}
    && (WdtDrive in j.runnable ==> WdtDrive in k.runnable || !PclkMoving(k))
    && (Initial(k) ==> j.regs == k.regs && (Server in j.runnable ==> Server in k.runnable))
  }

  lemma SameClocksKeepPhases(k: Sim, j: Sim)
    requires ClockPhases(k) && SameClocks(k, j)
    ensures ClockPhases(j)
  {
  }

  lemma TimerOpSameClocks(k: Sim, op: Timer.Op)
    requires !Initial(k) || op == Timer.Reset
    requires Initial(k) ==> k.regs == AT_START
    ensures SameClocks(k, TimerOp(k, op))
  {
    if Initial(k) {
      assert Timer.Step(k.regs.timer, op) == k.regs.timer;
    }
    hide Timer.Step;
  }

  lemma BusSameClocks(k: Sim, p: Proc)
    requires !Initial(k)
    ensures SameClocks(k, RunBus(k, p))
  {
    hide TimerOp, Timer.ReadReg;
    if p == TimerWrite && k.cur.writeEn {
      TimerOpSameClocks(LogWrite(k), Timer.BusWrite(k.cur.address, k.cur.dataIn));
    }
  }

  lemma TimerResetSameClocks(k: Sim)
    requires k.cur.reset ==> k.regs == AT_START
    ensures SameClocks(k, RunReset(k, TimerReset))
  {
    hide TimerOp, PclkMoving;
    if k.cur.reset {
      TimerOpSameClocks(k, Timer.Reset);
    }
  }

  lemma HighResetSameClocks(k: Sim, p: Proc)
    requires p in RESETS - {TimerReset} && k.cur.reset && k.regs == AT_START && !PclkMoving(k)
    ensures SameClocks(k, RunReset(k, p))
  {
    hide PclkMoving, Initial;
    match p {
      case WdtReset =>
      case UartReset =>
      case GpioReset =>
      case SramReset =>
      case SysReset =>
    }
  }

  lemma LowResetSameClocks(k: Sim, p: Proc)
    requires p in RESETS - {TimerReset} && !k.cur.reset
    ensures SameClocks(k, RunReset(k, p))
  {
    assert !Initial(k);
    hide PclkMoving, Initial;
  }

  lemma ResetSameClocks(k: Sim, p: Proc)
    requires p in RESETS
    requires k.cur.reset ==> k.regs == AT_START && !PclkMoving(k)
    ensures SameClocks(k, RunReset(k, p))
  {
    hide RunReset, SameClocks, PclkMoving;
    if p == TimerReset {
      TimerResetSameClocks(k);
    } else if k.cur.reset {
      HighResetSameClocks(k, p);
    } else {
      LowResetSameClocks(k, p);
    }
  }

  lemma ResetKeepsClockPhases(k: Sim, p: Proc, act: ServerAct)
    requires ClockPhases(k) && p in k.runnable && p in RESETS
    ensures ClockPhases(RunProc(k, p, act))
  {
    hide RunReset, ClockPhases, SameClocks, PclkMoving;
    var j := k.(runnable := k.runnable - {p});
    if k.cur.reset {
      assert p in k.runnable * RESETS;
      ReadInitial(k);
      LeavingKeepsPclk(k, p);
    }
    LeavingSameClocks(k, p);
    SameClocksKeepPhases(k, j);
    ResetSameClocks(j, p);
    SameClocksKeepPhases(j, RunReset(j, p));
  }

  lemma LeavingKeepsPclk(k: Sim, p: Proc)
    requires p !in {PclkDiv, WdtTick}
    ensures PclkMoving(k.(runnable := k.runnable - {p})) == PclkMoving(k)
  {
  }

  lemma ReadInitial(k: Sim)
    requires ClockPhases(k) && Initial(k)
    ensures k.regs == AT_START && !PclkMoving(k) && k.runnable <= RESETS + DRIVERS
  {
  }

  lemma DriverSameClocks(k: Sim, p: Proc)
    requires p in DRIVERS - {WdtDrive}
    ensures SameClocks(k, RunDriver(k, p))
  {
    hide Gpio.IrqLevel, Uart.IrqLevel, PackWires;
  }

  lemma DriverKeepsClockPhases(k: Sim, p: Proc, act: ServerAct)
    requires ClockPhases(k) && p in k.runnable && p in DRIVERS
    ensures ClockPhases(RunProc(k, p, act))
  {
    hide RunDriver, ClockPhases, SameClocks;
    if p != WdtDrive {
      var j := k.(runnable := k.runnable - {p});
      LeavingSameClocks(k, p);
      SameClocksKeepPhases(k, j);
      DriverSameClocks(j, p);
      SameClocksKeepPhases(j, RunDriver(j, p));
    } else {
      WdtDriveKeepsClockPhases(k, act);
    }
  }

  lemma LeavingSameClocks(k: Sim, p: Proc)
    requires p !in {PclkDiv, ResetSeq, WdtTick}
    ensures SameClocks(k, k.(runnable := k.runnable - {p}))
  {
    hide PclkMoving, Initial;
  }

  lemma WdtDriveKeepsClockPhases(k: Sim, act: ServerAct)
    requires ClockPhases(k) && WdtDrive in k.runnable
    ensures ClockPhases(RunProc(k, WdtDrive, act))
  {
    hide Watchdog.RstLevel, Watchdog.IrqLevel;
    assert !PclkMoving(k);
  }

  lemma BusKeepsClockPhases(k: Sim, p: Proc, act: ServerAct)
    requires ClockPhases(k) && p in k.runnable && p in {TimerRead, TimerWrite}
    ensures ClockPhases(RunProc(k, p, act))
  {
    hide RunBus, PclkMoving;
    var j := k.(runnable := k.runnable - {p});
    assert !Initial(k);
    SameClocksKeepPhases(k, j);
    BusSameClocks(j, p);
    hide ClockPhases;
    SameClocksKeepPhases(j, RunBus(j, p));
  }

  lemma NoticeSameClocks(k: Sim, j: Sim, notified: set<Proc>)
    requires !PclkMoving(k) && !Initial(k) && notified <= DRIVERS + {Server}
    requires j.pclkState == k.pclkState && j.cyclesLeft == k.cyclesLeft && j.clockDue == k.clockDue
    requires j.cur == k.cur
    requires j.next.pclk == k.next.pclk && j.next.reset == k.next.reset && j.next.wdtRst == k.next.wdtRst
    requires j.runnable == k.runnable + notified
    ensures SameClocks(k, j)
  {
    hide PclkMoving, Initial;
  }

  lemma StartSameClocks(k: Sim, e: Machine.Event)
    requires e.Access? && !PclkMoving(k) && !Initial(k)
    ensures SameClocks(k, StartAccess(k, e))
  {
    hide Machine.AccessEffect, Notified, FlatMap, Initial, PclkMoving, SameClocks;
    var j := StartAccess(k, e);
    match FlatMap(e.address) {
      case None => NoticeSameClocks(k, j, {Server});
      case Some(Target(TimerPort, _)) => NoticeSameClocks(k, j, if e.command == Ignore then {Server} else {});
      case Some(Target(d, offset)) =>
        NotifiedAreDrivers(k.regs, d, Local(e, offset));
        MappedAccessTakesTime(k.regs, e);
        NoticeSameClocks(k, j, Notified(k.regs, d, Local(e, offset)));
    }
  }

  lemma WaitSameClocks(k: Sim, j: Sim)
    requires OnlyWaits(k, j) && !Initial(k)
    requires !Strobing(k.pc) ==> !PclkMoving(k)
    ensures SameClocks(k, j)
  {
    hide PclkMoving, Initial;
  }

  lemma ServerSameClocks(k: Sim, act: ServerAct)
    requires !Strobing(k.pc) ==> !PclkMoving(k)
    requires !Initial(k)
    ensures SameClocks(k, RunServer(k, act))
  {
    hide StartAccess, Initial, PclkMoving, SameClocks, OnlyWaits;
    if k.pc.Ready? && act.Serve? {
      StartSameClocks(k, Machine.Access(act.command, act.address, act.value));
    } else {
      hide RunServer;
      WaitShape(k, act);
      WaitSameClocks(k, RunServer(k, act));
    }
  }

  lemma ServerKeepsClockPhases(k: Sim, act: ServerAct)
    requires ClockPhases(k) && ServerAlone(k) && Server in k.runnable
    ensures ClockPhases(RunProc(k, Server, act))
  {
    var j := k.(runnable := k.runnable - {Server});
    assert !Initial(k) && !Initial(j);
    assert !Strobing(k.pc) ==> !PclkMoving(j);
    SameClocksKeepPhases(k, j);
    hide RunServer, ClockPhases, ServerAlone;
    ServerSameClocks(j, act);
    SameClocksKeepPhases(j, RunServer(j, act));
  }

  lemma DividerKeepsClockPhases(k: Sim, act: ServerAct)
    requires ClockPhases(k) && PclkDiv in k.runnable
    ensures ClockPhases(RunProc(k, PclkDiv, act))
  {
    assert !Initial(k);
  }

  lemma ResetSeqKeepsClockPhases(k: Sim, act: ServerAct)
    requires ClockPhases(k) && ResetSeq in k.runnable
    ensures ClockPhases(RunProc(k, ResetSeq, act))
  {
    assert !Initial(k);
  }

  /** A tick that has run is no longer on its way. */
  lemma TickKeepsClockPhases(k: Sim, act: ServerAct)
    requires ClockPhases(k) && WdtTick in k.runnable
    ensures ClockPhases(RunProc(k, WdtTick, act))
  {
    assert !Initial(k) && PclkDiv !in k.runnable && k.cur.pclk == k.next.pclk && !k.clockDue;
    hide Watchdog.Tick, Watchdog.Expires;
    var j := RunProc(k, WdtTick, act);
    assert !PclkMoving(j);
  }

  lemma OtherSameClocks(k: Sim, p: Proc)
    requires !Initial(k) && p in {TimerThread, OnWdt}
    ensures SameClocks(k, RunClocked(k, p))
  {
    hide TimerOp;
    if p == TimerThread {
      TimerOpSameClocks(k, Timer.Tick);
    }
  }

  lemma OtherKeepsClockPhases(k: Sim, p: Proc, act: ServerAct)
    requires ClockPhases(k) && p in k.runnable && p in {TimerThread, OnWdt}
    ensures ClockPhases(RunProc(k, p, act))
  {
    hide RunClocked, SameClocks, PclkMoving;
    assert !Initial(k);
    var j := k.(runnable := k.runnable - {p});
    hide ClockPhases;
    LeavingSameClocks(k, p);
    SameClocksKeepPhases(k, j);
    OtherSameClocks(j, p);
    SameClocksKeepPhases(j, RunClocked(j, p));
  }

  lemma ChoiceKeepsClockPhases(k: Sim, c: Choice)
    requires ClockPhases(k) && ServerAlone(k) && Enabled(k, c)
    ensures ClockPhases(Next(k, c))
  {
    match c {
      case Run(p, act) =>
        hide RunProc, ClockPhases, ServerAlone;
        if p == Server {
          ServerKeepsClockPhases(k, act);
        } else if p == PclkDiv {
          DividerKeepsClockPhases(k, act);
        } else if p == ResetSeq {
          ResetSeqKeepsClockPhases(k, act);
        } else if p == WdtTick {
          TickKeepsClockPhases(k, act);
        } else if p in {TimerThread, OnWdt} {
          OtherKeepsClockPhases(k, p, act);
        } else if p in {TimerRead, TimerWrite} {
          BusKeepsClockPhases(k, p, act);
        } else if p in DRIVERS {
          DriverKeepsClockPhases(k, p, act);
        } else {
          ResetKeepsClockPhases(k, p, act);
        }
      case Update => UpdateKeepsClockPhases(k);
      case Advance(_, _) =>
    }
  }

  /** What an update phase makes runnable, as far as clock and reset are concerned. */
  predicate Updated(k: Sim, j: Sim) {
    && j.regs == k.regs && j.pclkState == k.pclkState && j.cyclesLeft == k.cyclesLeft
    && j.cur == k.next && j.next == k.next && !j.clockDue
    && (PclkDiv in j.runnable <==> k.clockDue)
    && (ResetSeq in j.runnable <==> k.clockDue && k.cyclesLeft > 0)
    && (WdtTick in j.runnable <==> !k.cur.pclk && k.next.pclk)
    && (OnWdt in j.runnable <==> k.cur.wdtRst != k.next.wdtRst)
    && (SysReset in j.runnable <==> k.cur.reset != k.next.reset)
    && WdtDrive !in j.runnable
    && (k.cur.reset == k.next.reset ==> j.runnable * RESETS == {})
  }

  lemma TriggeredShape(a: Wires, b: Wires)
    ensures var t := Triggered(a, b);
      && PclkDiv !in t && ResetSeq !in t && WdtDrive !in t
      && (WdtTick in t <==> !a.pclk && b.pclk)
      && (OnWdt in t <==> a.wdtRst != b.wdtRst)
      && (forall p | p in RESETS :: p in t <==> a.reset != b.reset)
  {
  }

  lemma UpdateShape(k: Sim)
    ensures Updated(k, UpdatePhase(k))
  {
    TriggeredShape(k.cur, k.next);
    hide Triggered;
    var server := if k.zeroWait then {Server} else {};
    var clocked := if k.clockDue then Clocked(k) else {};
    assert UpdatePhase(k).runnable == Triggered(k.cur, k.next) + server + clocked;
    assert clocked * (RESETS + {WdtTick, OnWdt, WdtDrive}) == {};
  }

  lemma UpdatedKeepsClockPhases(k: Sim, j: Sim)
    requires ClockPhases(k) && k.runnable == {} && Updated(k, j)
    ensures ClockPhases(j)
  {
    assert !Initial(j);
  }

  lemma UpdateKeepsClockPhases(k: Sim)
    requires ClockPhases(k) && k.runnable == {}
    ensures ClockPhases(UpdatePhase(k))
  {
    hide ClockPhases, UpdatePhase, Updated;
    UpdateShape(k);
    UpdatedKeepsClockPhases(k, UpdatePhase(k));
  }

  // ----- the machine state a kernel state is heading for

  /** The watchdog registers once a coming tick has happened. */
  function WdtSoon(k: Sim): Watchdog.Regs {
    if TickComing(k) && !k.cur.reset then Watchdog.Tick(k.regs.wdt) else k.regs.wdt
  }

  /** The reset cause once every rise of rst_req already caused has reached on_wdt. */
  predicate LatchedSoon(k: Sim) {
    || k.regs.sys.latched
    || (OnWdt in k.runnable && k.cur.wdtRst)
    || (Watchdog.RstLevel(k.regs.wdt) && !k.cur.wdtRst)
    || (Watchdog.RstLevel(WdtSoon(k)) && !Watchdog.RstLevel(k.regs.wdt))
  }

  predicate ReleasedSoon(k: Sim) {
    k.regs.sys.released || (SysReset in k.runnable && !k.cur.reset)
  }

  /** The atomic machine's state; the Timer, whose pin accesses may straddle clock edges, is left at reset. */
  function Heading(k: Sim): Machine.State {
    Machine.State(
      SocRegs(Timer.AT_RESET, k.regs.sram, k.regs.gpio, k.regs.uart,
              SysCtrl.Regs(k.regs.sys.scratch, ReleasedSoon(k), LatchedSoon(k)), WdtSoon(k)),
      PclkSoon(k), k.cur.reset)
  }

  predicate Refines(k: Sim) {
    Heading(k) == Machine.Run(Machine.POWER_ON, k.events)
  }

  lemma RunSnoc(es: seq<Machine.Event>, e: Machine.Event)
    ensures Machine.Run(Machine.POWER_ON, es + [e]) == Machine.Step(Machine.Run(Machine.POWER_ON, es), e)
  {
    hide Machine.Step;
    assert (es + [e])[..|es|] == es;
  }

  // ----- device processes do not change where the state is heading

  /** j differs from k in nothing Heading looks at. */
  predicate SameHeading(k: Sim, j: Sim) {
    && j.regs.(timer := k.regs.timer) == k.regs && j.pclkState == k.pclkState
    && j.cur == k.cur && j.next.pclk == k.next.pclk
    && (PclkDiv in j.runnable <==> PclkDiv in k.runnable)
    && (WdtTick in j.runnable <==> WdtTick in k.runnable)
    && (OnWdt in j.runnable <==> OnWdt in k.runnable)
    && (!k.cur.reset ==> (SysReset in j.runnable <==> SysReset in k.runnable))
  }

  lemma SameHeadingSuffices(k: Sim, j: Sim)
    requires SameHeading(k, j)
    ensures Heading(j) == Heading(k)
  {
    hide Watchdog.Tick, Watchdog.RstLevel;
  }

  lemma TimerOpSameHeading(k: Sim, op: Timer.Op)
    ensures SameHeading(k, TimerOp(k, op))
  {
    hide Timer.Step;
  }

  lemma BusSameHeading(k: Sim, p: Proc)
    ensures SameHeading(k, RunBus(k, p))
  {
    hide Timer.ReadReg, TimerOp;
    TimerOpSameHeading(LogWrite(k), Timer.BusWrite(k.cur.address, k.cur.dataIn));
  }

  lemma DriverSameHeading(k: Sim, p: Proc)
    requires p in DRIVERS
    ensures SameHeading(k, RunDriver(k, p))
  {
    hide Watchdog.RstLevel, Watchdog.IrqLevel, Gpio.IrqLevel, Uart.IrqLevel, PackWires;
  }

  lemma HighResetSameHeading(k: Sim, p: Proc)
    requires k.cur.reset && k.regs == AT_START && p in RESETS
    ensures SameHeading(k, RunReset(k, p))
  {
    hide TimerOp;
    TimerOpSameHeading(k, Timer.Reset);
  }

  lemma ReleaseKeepsHeading(k: Sim)
    requires SysReset in k.runnable && !k.cur.reset
    ensures Heading(RunReset(k.(runnable := k.runnable - {SysReset}), SysReset)) == Heading(k)
  {
    hide Watchdog.Tick, Watchdog.RstLevel;
  }

  lemma LowResetDoesNothing(k: Sim, p: Proc)
    requires !k.cur.reset && p in RESETS - {SysReset}
    ensures RunReset(k, p) == k
  {
    hide TimerOp;
  }

  lemma ResetKeepsHeading(k: Sim, p: Proc)
    requires ClockPhases(k) && p in RESETS && p in k.runnable
    ensures Heading(RunReset(k.(runnable := k.runnable - {p}), p)) == Heading(k)
  {
    var j := k.(runnable := k.runnable - {p});
    hide Heading, RunReset;
    if k.cur.reset {
      assert p in k.runnable * RESETS;
      ReadInitial(k);
      hide ClockPhases;
      HighResetSameHeading(j, p);
      SameHeadingSuffices(k, RunReset(j, p));
    } else if p == SysReset {
      hide ClockPhases;
      ReleaseKeepsHeading(k);
    } else {
      hide ClockPhases;
      LowResetDoesNothing(j, p);
      SameHeadingSuffices(k, j);
    }
  }

  lemma DividerKeepsHeading(k: Sim)
    requires ClockPhases(k) && PclkDiv in k.runnable
    ensures Heading(RunClocked(k.(runnable := k.runnable - {PclkDiv}), PclkDiv)) == Heading(k)
  {
    var j := RunClocked(k.(runnable := k.runnable - {PclkDiv}), PclkDiv);
    assert TickComing(j) == TickComing(k);
    hide ClockPhases, Watchdog.Tick, Watchdog.RstLevel, TickComing;
  }

  lemma TickIsMonotone(r: Watchdog.Regs)
    ensures Watchdog.RstLevel(r) ==> Watchdog.RstLevel(Watchdog.Tick(r))
  {
  }

  lemma TickIsTheOnlyOne(k: Sim)
    requires ClockPhases(k) && DriversFollow(k) && WdtTick in k.runnable
    ensures !TickComing(RunClocked(k.(runnable := k.runnable - {WdtTick}), WdtTick)) && TickComing(k)
    ensures k.cur.wdtRst == Watchdog.RstLevel(k.regs.wdt)
  {
    hide Watchdog.Tick, Watchdog.Expires, Watchdog.RstLevel, Watchdog.IrqLevel, Gpio.IrqLevel, Uart.IrqLevel, PackWires;
  }

  lemma TickKeepsHeading(k: Sim)
    requires ClockPhases(k) && DriversFollow(k) && WdtTick in k.runnable
    ensures Heading(RunClocked(k.(runnable := k.runnable - {WdtTick}), WdtTick)) == Heading(k)
  {
    hide ClockPhases, DriversFollow, Watchdog.Tick, Watchdog.RstLevel, Watchdog.Expires, TickComing;
    TickIsTheOnlyOne(k);
    TickIsMonotone(k.regs.wdt);
  }

  lemma OnWdtKeepsHeading(k: Sim)
    requires OnWdt in k.runnable
    ensures Heading(RunClocked(k.(runnable := k.runnable - {OnWdt}), OnWdt)) == Heading(k)
  {
    hide Watchdog.Tick, Watchdog.RstLevel;
  }

  lemma ClockedKeepsHeading(k: Sim, p: Proc)
    requires ClockPhases(k) && DriversFollow(k) && p in k.runnable
    requires p in {TimerThread, PclkDiv, ResetSeq, WdtTick, OnWdt}
    ensures Heading(RunClocked(k.(runnable := k.runnable - {p}), p)) == Heading(k)
  {
    var j := k.(runnable := k.runnable - {p});
    hide Heading, ClockPhases, DriversFollow;
    if p == PclkDiv {
      hide RunClocked;
      DividerKeepsHeading(k);
    } else if p == WdtTick {
      hide RunClocked;
      TickKeepsHeading(k);
    } else if p == OnWdt {
      hide RunClocked;
      OnWdtKeepsHeading(k);
    } else if p == TimerThread {
      hide TimerOp;
      TimerOpSameHeading(j, Timer.Tick);
      SameHeadingSuffices(k, TimerOp(j, Timer.Tick));
    } else {
      SameHeadingSuffices(k, RunClocked(j, p));
    }
  }

  lemma DeviceRunKeepsHeading(k: Sim, p: Proc, act: ServerAct)
    requires ClockPhases(k) && DriversFollow(k) && p in k.runnable && p != Server
    ensures Heading(RunProc(k, p, act)) == Heading(k)
  {
    var j := k.(runnable := k.runnable - {p});
    hide Heading, ClockPhases, DriversFollow, RunBus, RunDriver, RunReset, RunClocked;
    if p in DRIVERS {
      DriverSameHeading(j, p);
      SameHeadingSuffices(k, RunDriver(j, p));
    } else if p in {TimerRead, TimerWrite} {
      BusSameHeading(j, p);
      SameHeadingSuffices(k, RunBus(j, p));
    } else if p in RESETS {
      ResetKeepsHeading(k, p);
    } else {
      ClockedKeepsHeading(k, p);
    }
  }

  // ----- server accesses and update phases are the machine's events

  function Blank(s: SocRegs): SocRegs {
    s.(timer := Timer.AT_RESET)
  }

  /** With nothing on its way, the state is heading for itself. */
  lemma SettledHeading(k: Sim)
    requires DriversFollow(k) && k.cur == k.next && k.runnable <= {Server} && k.cur.pclk == k.pclkState
    ensures Heading(k) == Machine.State(Blank(k.regs), k.pclkState, k.cur.reset)
  {
    assert !TickComing(k) && OnWdt !in k.runnable && SysReset !in k.runnable && WdtDrive !in k.runnable;
    hide Watchdog.Tick, Watchdog.RstLevel, Watchdog.IrqLevel, Gpio.IrqLevel, Uart.IrqLevel, PackWires;
  }

  /** With only drivers runnable, all that can still move is the reset cause. */
  lemma NearlySettledHeading(k: Sim)
    requires k.cur.pclk == k.next.pclk && k.runnable <= DRIVERS + {Server}
    ensures Heading(k) ==
      Machine.State(
        Blank(k.regs).(sys := k.regs.sys.(
          latched := k.regs.sys.latched || (Watchdog.RstLevel(k.regs.wdt) && !k.cur.wdtRst))),
        k.pclkState, k.cur.reset)
  {
    assert !TickComing(k) && OnWdt !in k.runnable && SysReset !in k.runnable && PclkDiv !in k.runnable;
    hide Watchdog.Tick, Watchdog.RstLevel;
  }

  lemma AccessOnBlank(s: SocRegs, e: Machine.Event)
    requires e.Access?
    requires var t := FlatMap(e.address); t.None? || !t.value.device.TimerPort?
    ensures Machine.AccessEffect(Blank(s), e).0 == Blank(Machine.AccessEffect(s, e).0)
  {
    match FlatMap(e.address) {
      case None =>
      case Some(Target(d, offset)) =>
        AccessIsLocal(s, e, d, offset);
        AccessIsLocal(Blank(s), e, d, offset);
        hide Machine.AccessEffect, Sram.Transport, Gpio.Transport, Uart.Transport, SysCtrl.Transport,
             Watchdog.Transport, FlatMap;
    }
  }

  lemma StrobeSameHeading(k: Sim, e: Machine.Event)
    requires e.Access? && FlatMap(e.address).Some? && FlatMap(e.address).value.device.TimerPort?
    ensures SameHeading(k, StartAccess(k, e)) && StartAccess(k, e).events == k.events
  {
    hide FlatMap, Machine.AccessEffect, Notified;
  }

  /** What the server's access has changed by the time the server waits. */
  lemma AccessShape(k: Sim, e: Machine.Event)
    requires e.Access? && k.runnable == {} && k.cur == k.next
    requires var t := FlatMap(e.address); t.None? || !t.value.device.TimerPort?
    ensures var j := StartAccess(k, e);
      && j.regs == Machine.AccessEffect(k.regs, e).0 && j.events == k.events + [e]
      && j.cur == k.cur && j.next == k.next && j.pclkState == k.pclkState && j.runnable <= DRIVERS + {Server}
  {
    match FlatMap(e.address) {
      case None =>
      case Some(Target(d, offset)) =>
        NotifiedAreDrivers(k.regs, d, Local(e, offset));
        hide Machine.AccessEffect, Notified, FlatMap;
    }
  }

  lemma MachineAccess(m: Machine.State, e: Machine.Event)
    requires e.Access?
    ensures var s := Machine.AccessEffect(m.regs, e).0;
      Machine.Step(m, e) == m.(regs := s.(sys := s.sys.(
        latched := s.sys.latched || (Watchdog.RstLevel(s.wdt) && !Watchdog.RstLevel(m.regs.wdt)))))
  {
    hide Machine.AccessEffect, Watchdog.RstLevel;
  }

  /** An access by the server is one event of the machine. */
  lemma TimerAccessIsNoEvent(k: Sim, e: Machine.Event)
    requires Refines(k) && e.Access? && FlatMap(e.address).Some? && FlatMap(e.address).value.device.TimerPort?
    ensures Refines(StartAccess(k, e))
  {
    hide StartAccess, FlatMap, Heading;
    StrobeSameHeading(k, e);
    SameHeadingSuffices(k, StartAccess(k, e));
  }

  lemma OtherAccessIsAnEvent(k: Sim, e: Machine.Event)
    requires Refines(k) && e.Access?
    requires k.runnable == {} && k.cur == k.next && DriversFollow(k) && k.cur.pclk == k.pclkState
    requires var t := FlatMap(e.address); t.None? || !t.value.device.TimerPort?
    ensures Refines(StartAccess(k, e))
  {
    assert k.next.wdtRst == Watchdog.RstLevel(k.regs.wdt);
    hide StartAccess, FlatMap, Watchdog.RstLevel, Machine.AccessEffect, DriversFollow, Heading, Machine.Step;
    RunSnoc(k.events, e);
    SettledHeading(k);
    AccessShape(k, e);
    AccessOnBlank(k.regs, e);
    MachineAccess(Heading(k), e);
    NearlySettledHeading(StartAccess(k, e));
  }

  lemma AccessIsAnEvent(k: Sim, e: Machine.Event)
    requires Refines(k) && e.Access?
    requires k.runnable == {} && k.cur == k.next && DriversFollow(k) && k.cur.pclk == k.pclkState
    ensures Refines(StartAccess(k, e))
  {
    hide StartAccess, FlatMap, DriversFollow, Refines;
    var t := FlatMap(e.address);
    if t.Some? && t.value.device.TimerPort? {
      TimerAccessIsNoEvent(k, e);
    } else {
      OtherAccessIsAnEvent(k, e);
    }
  }

  lemma ServerWaitSameHeading(k: Sim, act: ServerAct)
    requires !(k.pc.Ready? && act.Serve?)
    ensures SameHeading(k, RunServer(k, act)) && RunServer(k, act).events == k.events
  {
    hide RunServer;
    WaitShape(k, act);
  }

  /** Between accesses everything is settled. */
  lemma ReadyIsSettled(k: Sim)
    requires ServerAlone(k) && DriversFollow(k) && ClockPhases(k) && Server in k.runnable && k.pc.Ready?
    ensures var j := k.(runnable := k.runnable - {Server});
      j.runnable == {} && j.cur == j.next && DriversFollow(j) && j.cur.pclk == j.pclkState
  {
    assert k.runnable == {Server} && k.cur == k.next;
    assert k.next.pclk == k.pclkState;
    hide ClockPhases, Gpio.IrqLevel, Uart.IrqLevel, Watchdog.IrqLevel, Watchdog.RstLevel, PackWires;
  }

  lemma LeavingTheQueueRefines(k: Sim)
    requires Refines(k)
    ensures Refines(k.(runnable := k.runnable - {Server}))
  {
    hide Heading;
    SameHeadingSuffices(k, k.(runnable := k.runnable - {Server}));
  }

  lemma ServerStepRefines(k: Sim, act: ServerAct)
    requires Refines(k) && ServerAlone(k) && DriversFollow(k) && ClockPhases(k) && Server in k.runnable
    ensures Refines(RunProc(k, Server, act))
  {
    var j := k.(runnable := k.runnable - {Server});
    hide ServerAlone, ClockPhases, DriversFollow, Heading, StartAccess;
    LeavingTheQueueRefines(k);
    if k.pc.Ready? && act.Serve? {
      hide Refines;
      ReadyIsSettled(k);
      AccessIsAnEvent(j, Machine.Access(act.command, act.address, act.value));
    } else {
      hide RunServer;
      ServerWaitSameHeading(j, act);
      SameHeadingSuffices(j, RunServer(j, act));
    }
  }

  // ----- update phases

  lemma MachineEdge(m: Machine.State)
    requires m.regs.timer == Timer.AT_RESET
    ensures var wdt := if !m.pclk && !m.reset then Watchdog.Tick(m.regs.wdt) else m.regs.wdt;
      Machine.Step(m, Machine.SysEdge) == m.(pclk := !m.pclk, regs := m.regs.(wdt := wdt, sys := m.regs.sys.(
        latched := m.regs.sys.latched || (Watchdog.RstLevel(wdt) && !Watchdog.RstLevel(m.regs.wdt)))))
  {
    TickIsMonotone(m.regs.wdt);
    hide Watchdog.Tick, Watchdog.RstLevel;
  }

  /** What is settled when an update phase begins. */
  lemma BeforeUpdate(k: Sim)
    requires DriversFollow(k) && ClockPhases(k) && k.runnable == {}
    ensures k.next.wdtRst == Watchdog.RstLevel(k.regs.wdt) && k.next.pclk == k.pclkState
    ensures k.next.reset ==> k.cur.reset
    ensures k.clockDue ==> k.cur.pclk == k.next.pclk && k.cur.reset == k.next.reset
    ensures k.cur.pclk != k.next.pclk ==> k.cur.wdtRst == k.next.wdtRst
    ensures k.cur.reset && !k.next.reset ==> !k.next.pclk
  {
    hide Watchdog.RstLevel, Watchdog.IrqLevel, Gpio.IrqLevel, Uart.IrqLevel, PackWires;
  }

  lemma UpdatedByAnEdge(k: Sim, j: Sim)
    requires k.runnable == {} && k.clockDue && Updated(k, j)
    requires k.next.wdtRst == Watchdog.RstLevel(k.regs.wdt)
    requires k.cur.pclk == k.next.pclk == k.pclkState && k.cur.reset == k.next.reset
    ensures Heading(j) == Machine.Step(Heading(k), Machine.SysEdge)
  {
    hide Watchdog.Tick, Watchdog.RstLevel, Machine.Step;
    NearlySettledHeading(k);
    MachineEdge(Heading(k));
    TickIsMonotone(k.regs.wdt);
  }

  /** A clock edge arriving in a delta is one event of the machine. */
  lemma EdgeIsAnEvent(k: Sim)
    requires DriversFollow(k) && ClockPhases(k) && k.runnable == {} && k.clockDue
    ensures Heading(UpdatePhase(k)) == Machine.Step(Heading(k), Machine.SysEdge)
    ensures UpdatePhase(k).events == k.events + [Machine.SysEdge]
  {
    BeforeUpdate(k);
    UpdateShape(k);
    hide ClockPhases, DriversFollow, Triggered, Clocked, Updated, Heading, Machine.Step;
    UpdatedByAnEdge(k, UpdatePhase(k));
  }

  lemma UpdatedByTheRelease(k: Sim, j: Sim)
    requires k.runnable == {} && !k.clockDue && Updated(k, j) && k.cur.reset && !k.next.reset && !k.next.pclk
    requires k.next.wdtRst == Watchdog.RstLevel(k.regs.wdt) && k.next.pclk == k.pclkState
    ensures Heading(j) == Machine.Step(Heading(k), Machine.ReleaseReset)
  {
    hide Watchdog.Tick, Watchdog.RstLevel;
  }

  /** The end of reset is one event of the machine. */
  lemma ReleaseIsAnEvent(k: Sim)
    requires DriversFollow(k) && ClockPhases(k) && k.runnable == {} && !k.clockDue
    requires k.cur.reset && !k.next.reset
    ensures Heading(UpdatePhase(k)) == Machine.Step(Heading(k), Machine.ReleaseReset)
    ensures UpdatePhase(k).events == k.events + [Machine.ReleaseReset]
  {
    BeforeUpdate(k);
    UpdateShape(k);
    hide ClockPhases, DriversFollow, Triggered, Clocked, Updated, Heading, Machine.Step;
    UpdatedByTheRelease(k, UpdatePhase(k));
  }

  lemma UpdatedQuietly(k: Sim, j: Sim)
    requires k.runnable == {} && !k.clockDue && Updated(k, j) && k.cur.reset == k.next.reset
    requires k.next.wdtRst == Watchdog.RstLevel(k.regs.wdt) && k.next.pclk == k.pclkState
    requires k.cur.pclk != k.next.pclk ==> k.cur.wdtRst == k.next.wdtRst
    ensures Heading(j) == Heading(k)
  {
    hide Watchdog.Tick, Watchdog.RstLevel;
  }

  /** Any other update phase moves nothing. */
  lemma UpdateKeepsHeading(k: Sim)
    requires DriversFollow(k) && ClockPhases(k) && k.runnable == {} && !k.clockDue
    requires !(k.cur.reset && !k.next.reset)
    ensures Heading(UpdatePhase(k)) == Heading(k)
    ensures UpdatePhase(k).events == k.events
  {
    BeforeUpdate(k);
    UpdateShape(k);
    hide ClockPhases, DriversFollow, Triggered, Clocked, Updated, Heading;
    UpdatedQuietly(k, UpdatePhase(k));
  }

  lemma ChoiceKeepsRefinement(k: Sim, c: Choice)
    requires Refines(k) && ServerAlone(k) && DriversFollow(k) && ClockPhases(k) && Enabled(k, c)
    ensures Refines(Next(k, c))
  {
    match c {
      case Run(p, act) =>
        hide ServerAlone, ClockPhases, DriversFollow, Heading, RunProc;
        if p == Server {
          ServerStepRefines(k, act);
        } else {
          DeviceRunIsLocal(k, p, act);
          DeviceRunKeepsHeading(k, p, act);
        }
      case Update =>
        hide ServerAlone, ClockPhases, DriversFollow, Heading, UpdatePhase, Machine.Step;
        if k.clockDue {
          EdgeIsAnEvent(k);
          RunSnoc(k.events, Machine.SysEdge);
        } else if k.cur.reset && !k.next.reset {
          ReleaseIsAnEvent(k);
          RunSnoc(k.events, Machine.ReleaseReset);
        } else {
          UpdateKeepsHeading(k);
        }
      case Advance(edge, wake) =>
        hide ServerAlone, ClockPhases, DriversFollow, Heading;
        SameHeadingSuffices(k, Next(k, c));
    }
  }
}
