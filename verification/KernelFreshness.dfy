// Why server_thread waits before it samples irq_bits: the reply to an access carries the interrupt levels
// which that very access has brought about, and a sample taken without the wait would not.
module KernelFreshness {
  import opened Words
  import opened Tlm
  import opened MemoryMap
  import opened Soc
  import opened Kernel
  import opened KernelInvariants
  import opened KernelRefinement
  import opened KernelSettling
  import Machine
  import PinBridge
  import Timer
  import Gpio
  import Uart
  import Watchdog

  /** The server does not start an access. */
  predicate NoStart(k: Sim, c: Choice) {
    c.Run? && c.p == Server && k.pc.Ready? ==> c.act.Poll?
  }

  /** What only the server, and reset, can change. */
  predicate SameUartAndGpio(s: SocRegs, t: SocRegs) {
    s.uart == t.uart && s.gpio == t.gpio
  }

  lemma BusSameUartAndGpio(k: Sim, p: Proc)
    ensures SameUartAndGpio(k.regs, RunBus(k, p).regs)
  {
    hide Timer.Step, Timer.ReadReg;
  }

  lemma ClockedSameUartAndGpio(k: Sim, p: Proc)
    ensures SameUartAndGpio(k.regs, RunClocked(k, p).regs)
  {
    hide Timer.Step, Watchdog.Tick, Watchdog.Expires;
  }

  lemma ResetSameUartAndGpio(k: Sim, p: Proc)
    requires k.cur.reset ==> k.regs == AT_START
    ensures SameUartAndGpio(k.regs, RunReset(k, p).regs)
  {
    hide Timer.Step;
  }

  lemma RunSameUartAndGpio(k: Sim, p: Proc, act: ServerAct)
    requires ClockPhases(k) && p in k.runnable && NoStart(k, Run(p, act))
    ensures SameUartAndGpio(k.regs, RunProc(k, p, act).regs)
  {
    var j := k.(runnable := k.runnable - {p});
    hide RunBus, RunClocked, RunReset, RunServer, SameUartAndGpio, ClockPhases;
    if p == Server {
      WaitShape(j, act);
      WaitSameUartAndGpio(j, RunServer(j, act));
    } else if p in {TimerRead, TimerWrite} {
      BusSameUartAndGpio(j, p);
    } else if p in DRIVERS {
      DriverSameRegs(j, p);
    } else if p in RESETS {
      if k.cur.reset {
        assert p in k.runnable * RESETS;
        ReadInitial(k);
      }
      ResetSameUartAndGpio(j, p);
    } else {
      ClockedSameUartAndGpio(j, p);
    }
  }

  lemma WaitSameUartAndGpio(k: Sim, j: Sim)
    requires OnlyWaits(k, j)
    ensures SameUartAndGpio(k.regs, j.regs)
  {
  }

  lemma DriverSameRegs(k: Sim, p: Proc)
    ensures SameUartAndGpio(k.regs, RunDriver(k, p).regs)
  {
    hide Gpio.IrqLevel, Uart.IrqLevel, Watchdog.IrqLevel, Watchdog.RstLevel, PackWires;
  }

  lemma ChoiceSameUartAndGpio(k: Sim, c: Choice)
    requires ClockPhases(k) && Enabled(k, c) && NoStart(k, c)
    ensures SameUartAndGpio(k.regs, Next(k, c).regs)
  {
    match c {
      case Run(p, act) =>
        hide RunProc, ClockPhases, SameUartAndGpio;
        RunSameUartAndGpio(k, p, act);
      case Update => hide Triggered, Clocked;
      case Advance(_, _) =>
    }
  }

  /** In none of the states of a run but perhaps the last has the server come back to take up an access. */
  predicate Away(k: Sim, cs: seq<Choice>) {
    forall n | 0 <= n < |cs| :: !After(k, cs[..n]).pc.Ready?
  }

  lemma {:induction false} AwayKeepsUartAndGpio(before: seq<Choice>, cs: seq<Choice>)
    requires Schedule(START, before) && Schedule(After(START, before), cs) && Away(After(START, before), cs)
    ensures SameUartAndGpio(After(START, before).regs, After(After(START, before), cs).regs)
  {
    if cs != [] {
      var k, front := After(START, before), cs[..|cs| - 1];
      assert forall n | 0 <= n < |front| :: front[..n] == cs[..n];
      AwayKeepsUartAndGpio(before, front);
      ThenChoices(START, before, front);
      AlwaysRefines(before + front);
      assert !After(k, cs[..|front|]).pc.Ready?;
      hide Next, Enabled, ClockPhases, Refines;
      ChoiceSameUartAndGpio(After(k, front), cs[|cs| - 1]);
    }
  }

  /** Bits 2 and 3 of irq_bits say whether an unmasked status of the UART, and an enabled pin, is pending. */
  ghost predicate ShowsUartAndGpio(irqBits: Bits, s: SocRegs) {
    && (2 in irqBits <==> exists i :: i in s.uart.ris && i in s.uart.imsc)
    && (3 in irqBits <==> exists i :: i in s.gpio.intstat && i in s.gpio.inten)
  }

  lemma LaterIrqShows(s: SocRegs, t: SocRegs)
    requires SameUartAndGpio(s, t)
    ensures ShowsUartAndGpio(PureIrq(t), s)
  {
    hide PureIrq;
    PureIrqShows(t);
  }

  function Start(e: Machine.Event): Choice
    requires e.Access?
  {
    Run(Server, Serve(e.command, e.address, e.value))
  }

  lemma StartedRegs(k: Sim, e: Machine.Event)
    requires k.pc.Ready? && e.Access?
    ensures SameUartAndGpio(Machine.AccessEffect(k.regs, e).0, Next(k, Start(e)).regs)
  {
    var t := FlatMap(e.address);
    if t.Some? && t.value.device.TimerPort? {
      TimerAccessIsLocal(k.regs, e);
    }
    hide Machine.AccessEffect, FlatMap, Notified;
    if t.None? {
      UnmappedDoesNothing(k.regs, e);
    }
  }

  lemma UnmappedDoesNothing(s: SocRegs, e: Machine.Event)
    requires e.Access? && FlatMap(e.address).None?
    ensures Machine.AccessEffect(s, e).0 == s
  {
  }

  lemma TimerAccessIsLocal(s: SocRegs, e: Machine.Event)
    requires e.Access? && FlatMap(e.address).Some? && FlatMap(e.address).value.device.TimerPort?
    ensures SameUartAndGpio(Machine.AccessEffect(s, e).0, s)
  {
    hide PinBridge.Access;
  }

  /** Same-access freshness.  Let the server take up any access and let everything else run as it may until the
      server is back to reply: the UART and GPIO bits it then samples are the levels of the registers as the
      access left them. */
  lemma ReplyShowsItsAccess(before: seq<Choice>, e: Machine.Event, during: seq<Choice>)
    requires Schedule(START, before) && e.Access?
    requires var k := After(START, before); k.pc.Ready? && Server in k.runnable
    requires var j := Next(After(START, before), Start(e));
      Schedule(j, during) && Away(j, during) && After(j, during).pc.Ready?
    ensures var t := After(Next(After(START, before), Start(e)), during);
      && ShowsUartAndGpio(t.cur.irqBits, Machine.AccessEffect(After(START, before).regs, e).0)
      && t.cur.irqBits == PureIrq(t.regs)
  {
    var k := After(START, before);
    var started := before + [Start(e)];
    assert started[..|before|] == before;
    assert Schedule(START, started) && After(START, started) == Next(k, Start(e));
    hide Next, Enabled, Away, ShowsUartAndGpio, SameUartAndGpio, PureIrq, Machine.AccessEffect;
    StartedRegs(k, e);
    AwayKeepsUartAndGpio(started, during);
    ThenChoices(START, started, during);
    var t := After(Next(k, Start(e)), during);
    BackIsRunnable(started + during);
    ServerSamplesFreshIrq(started + during);
    SameThroughout(Machine.AccessEffect(k.regs, e).0, Next(k, Start(e)).regs, t.regs);
    LaterIrqShows(Machine.AccessEffect(k.regs, e).0, t.regs);
  }

  lemma SameThroughout(s: SocRegs, t: SocRegs, u: SocRegs)
    requires SameUartAndGpio(s, t) && SameUartAndGpio(t, u)
    ensures SameUartAndGpio(s, u)
  {
  }

  lemma BackIsRunnable(cs: seq<Choice>)
    requires Schedule(START, cs) && After(START, cs).pc.Ready?
    ensures Server in After(START, cs).runnable
  {
    AlwaysHolds(cs);
  }

  /** Without its wait the server would still see the levels from before the access. */
  lemma EarlySampleIsOld(before: seq<Choice>, e: Machine.Event)
    requires Schedule(START, before) && e.Access?
    requires var k := After(START, before); k.pc.Ready? && Server in k.runnable
    ensures var k := After(START, before);
      Next(k, Start(e)).cur.irqBits == PureIrq(k.regs) && ShowsUartAndGpio(Next(k, Start(e)).cur.irqBits, k.regs)
  {
    var k := After(START, before);
    ServerSamplesFreshIrq(before);
    hide Next, PureIrq, ShowsUartAndGpio;
    StartingKeepsSignals(k, e);
    LaterIrqShows(k.regs, k.regs);
  }

  lemma StartingKeepsSignals(k: Sim, e: Machine.Event)
    requires e.Access? && k.pc.Ready?
    ensures Next(k, Start(e)).cur == k.cur
  {
    hide Machine.AccessEffect, Notified;
  }
}
