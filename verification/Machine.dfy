// The SoC as one state machine whose steps run to quiescence: a bus access by the server, a sys_clk
// edge, or a change of the reset line.  Properties here span devices: memory, the UART FIFO, and the
// path from the watchdog through its reset request to the latched cause in SysCtrl.
module Machine {
  import opened Words
  import opened Tlm
  import opened MemoryMap
  import opened PinBridge
  import opened Soc
  import Timer
  import Sram
  import Gpio
  import Uart
  import SysCtrl
  import Watchdog
  import Clock

  datatype State = State(regs: SocRegs, pclk: bool, reset: bool)

  const POWER_ON := State(AT_START, false, true)

  /** Access is one tlm_read or tlm_write; the edges that pass meanwhile are SysEdge steps of their own. */
  datatype Event = Access(command: Command, address: Word, value: Word) | SysEdge | AssertReset | ReleaseReset

  const NO_EDGES := Schedule(Beat(false, false), Beat(false, false), 0)

  function AccessEffect(s: SocRegs, e: Event): (SocRegs, Outcome)
    requires e.Access?
  {
    Serve(s, ServerTxn(e.command, e.address, e.value), NO_EDGES)
  }

  /** Every reset method with reset high. */
  function ResetAll(s: SocRegs): SocRegs {
    SocRegs(Timer.AT_RESET, Sram.ZEROED, Gpio.AT_RESET, Uart.AT_RESET,
            SysCtrl.ResetTo(s.sys, true), Watchdog.AT_RESET)
  }

  /** What the event does before the watchdog's reset request has travelled to SysCtrl. */
  function Direct(m: State, e: Event): State {
    match e
    case Access(_, _, _) => m.(regs := AccessEffect(m.regs, e).0)
    case SysEdge =>
      var wdt := if !m.pclk && !m.reset then Watchdog.Tick(m.regs.wdt) else m.regs.wdt;
      m.(regs := m.regs.(timer := Timer.Edge(m.regs.timer), wdt := wdt), pclk := !m.pclk)
    case AssertReset => if m.reset then m else m.(regs := ResetAll(m.regs), reset := true)
    case ReleaseReset =>
      if m.reset then m.(regs := m.regs.(sys := SysCtrl.ResetTo(m.regs.sys, false)), reset := false) else m
  }

  predicate RstLine(m: State) {
    Watchdog.RstLevel(m.regs.wdt)
  }

  /** One event, run to quiescence: a change of rst_req activates on_wdt. */
  function Step(m: State, e: Event): State {
    var d := Direct(m, e);
    if RstLine(d) != RstLine(m) then d.(regs := d.regs.(sys := SysCtrl.WdtTo(d.regs.sys, RstLine(d)))) else d
  }

  function Run(m: State, es: seq<Event>): State {
    if es == [] then m else Step(Run(m, es[..|es| - 1]), es[|es| - 1])
  }

  function EdgesIn(es: seq<Event>): nat {
    if es == [] then 0 else EdgesIn(es[..|es| - 1]) + (if es[|es| - 1].SysEdge? then 1 else 0)
  }

  lemma EdgesInSnoc(es: seq<Event>, e: Event)
    ensures EdgesIn(es + [e]) == EdgesIn(es) + (if e.SysEdge? then 1 else 0)
  {
    assert (es + [e])[..|es|] == es;
  }

  // ----- memory

  /** e is a reset edge when taken from m. */
  predicate Resets(m: State, e: Event) {
    e.AssertReset? && !m.reset
  }

  predicate WritesSram(e: Event, offset: Word) {
    e.Access? && e.command == Write && e.address == PL_SRAM_OFFSET + offset
  }

  /** The last value the run wrote to an SRAM word since reset, or 0. */
  function LastWritten(m: State, es: seq<Event>, offset: Word): Word {
    if es == [] then 0 else
      var front, e := es[..|es| - 1], es[|es| - 1];
      if Resets(Run(m, front), e) then 0
      else if WritesSram(e, offset) then e.value
      else LastWritten(m, front, offset)
  }

  predicate NamesSramWord(e: Event) {
    e.Access? && Occupies(SramPort, e.address) && (e.address - PL_SRAM_OFFSET) % 4 == 0
  }

  /** What an access does to the SRAM, and what an SRAM read answers. */
  lemma SramAccess(s: SocRegs, e: Event)
    requires e.Access?
    ensures NamesSramWord(e) && e.command == Write ==>
      AccessEffect(s, e).0.sram == Sram.WriteWord(s.sram, e.address - PL_SRAM_OFFSET, ToBytes(e.value))
    ensures !(NamesSramWord(e) && e.command == Write) ==> AccessEffect(s, e).0.sram == s.sram
    ensures NamesSramWord(e) && e.command == Read ==>
      && AccessEffect(s, e).1.txn.status == Okay
      && AccessEffect(s, e).1.txn.data == Sram.ReadWord(s.sram, e.address - PL_SRAM_OFFSET)
  {
    hide Gpio.Transport, Uart.Transport, SysCtrl.Transport, Watchdog.Transport, PinBridge.Access;
    FlatMapIsTheOneSlot(e.address, SramPort);
  }

  lemma SramStep(s: SocRegs, e: Event, offset: Word)
    requires e.Access? && offset % 4 == 0 && offset < PL_SRAM_BYTES
    ensures Sram.WordAt(AccessEffect(s, e).0.sram, offset)
         == if WritesSram(e, offset) then e.value else Sram.WordAt(s.sram, offset)
  {
    hide AccessEffect;
    SramAccess(s, e);
    if NamesSramWord(e) && e.command == Write {
      Sram.WriteThenRead(s.sram, e.address - PL_SRAM_OFFSET, ToBytes(e.value), offset);
      BytesRoundTrip(e.value);
    }
  }

  /** Every aligned SRAM word holds the last value written to it since reset, whatever else happens. */
  lemma {:induction false} SramHoldsLastWrite(es: seq<Event>, offset: Word)
    requires offset % 4 == 0 && offset < PL_SRAM_BYTES
    ensures Sram.WordAt(Run(POWER_ON, es).regs.sram, offset) == LastWritten(POWER_ON, es, offset)
  {
    hide AccessEffect, Sram.WordAt, Timer.Edge, Watchdog.Tick, RstLine;
    Sram.ZeroedReadsZero(offset);
    if es != [] {
      var front, e := es[..|es| - 1], es[|es| - 1];
      SramHoldsLastWrite(front, offset);
      if e.Access? {
        SramStep(Run(POWER_ON, front).regs, e, offset);
      }
    }
  }

  /** So a read through server, decoder and SRAM succeeds with that value. */
  lemma SramReadReturnsLastWrite(es: seq<Event>, offset: Word)
    requires offset % 4 == 0 && offset < PL_SRAM_BYTES
    ensures var o := AccessEffect(Run(POWER_ON, es).regs, Access(Read, PL_SRAM_OFFSET + offset, 0)).1;
      && o.txn.status == Okay
      && o.txn.data == ToBytes(LastWritten(POWER_ON, es, offset))
  {
    hide AccessEffect;
    var sram := Run(POWER_ON, es).regs.sram;
    SramHoldsLastWrite(es, offset);
    SramAccess(Run(POWER_ON, es).regs, Access(Read, PL_SRAM_OFFSET + offset, 0));
    BytesUnique(Sram.ReadWord(sram, offset));
  }

  // ----- bus accesses and the UART FIFO

  /** Addresses outside every slot are refused, change nothing and take no time; everything the server
      gets an OK for costs at least one AHB cycle. */
  lemma SuccessTakesTime(s: SocRegs, e: Event)
    requires e.Access?
    ensures AccessEffect(s, e).1.txn.status == Okay ==> AccessEffect(s, e).1.cost >= AHB_CYCLE + 10
    ensures FlatMap(e.address).None? ==>
      AccessEffect(s, e) == (s, Refuse(ServerTxn(e.command, e.address, e.value), AddressError))
  {
  }

  /** No FIFO byte is lost to a failed read: the FIFO shrinks only by a reset, or by a read of DR that
      succeeds and returns the byte that left. */
  lemma FifoShrinksOnlyByReads(m: State, e: Event)
    requires |Step(m, e).regs.uart.rx| < |m.regs.uart.rx|
    ensures Resets(m, e) ||
      (&& e.Access? && e.command == Read && e.address == PL_UART_OFFSET + Uart.UART_DR
       && AccessEffect(m.regs, e).1.txn.status == Okay
       && AccessEffect(m.regs, e).1.txn.data == ToBytes(m.regs.uart.rx[0])
       && Step(m, e).regs.uart.rx == m.regs.uart.rx[1..])
  {
    if e.Access? {
      FlatMapIsTheOneSlot(e.address, UartPort);
    }
  }

  // ----- from the watchdog to SysCtrl

  function Edges(m: State, n: nat): State {
    if n == 0 then m else Step(Edges(m, n - 1), SysEdge)
  }

  lemma OneEdge(m: State)
    requires !m.reset
    ensures var s := Step(m, SysEdge);
      && s.regs.wdt == (if m.pclk then m.regs.wdt else Watchdog.Tick(m.regs.wdt))
      && s.regs.timer == Timer.Edge(m.regs.timer)
      && s.pclk == !m.pclk && !s.reset
  {
  }

  lemma {:induction false} EdgesRunTheClock(m: State, n: nat)
    requires !m.reset
    ensures Edges(m, n).pclk == Clock.Divided(m.pclk, n) && !Edges(m, n).reset
  {
    if n > 0 {
      EdgesRunTheClock(m, n - 1);
      OneEdge(Edges(m, n - 1));
    }
  }

  /** Over n sys_clk edges the Timer counts every one of them. */
  lemma {:induction false} EdgesRunTheTimer(m: State, n: nat)
    requires !m.reset
    ensures Edges(m, n).regs.timer == Timer.Edges(m.regs.timer, n)
  {
    hide Step, Timer.Edge, Watchdog.Tick, Clock.Divided;
    if n > 0 {
      EdgesRunTheTimer(m, n - 1);
      EdgesRunTheClock(m, n - 1);
      OneEdge(Edges(m, n - 1));
    }
  }

  lemma TickOnEdge(m: State, r: Watchdog.Regs, k: nat)
    requires !m.reset && m.regs.wdt == Watchdog.Ticks(r, k)
    ensures Step(m, SysEdge).regs.wdt == Watchdog.Ticks(r, if m.pclk then k else k + 1)
  {
    hide Step, Watchdog.Tick;
    OneEdge(m);
  }

  /** The watchdog ticks on every rising pclk edge among n sys_clk edges. */
  lemma {:induction false} EdgesTickTheWatchdog(m: State, n: nat)
    requires !m.reset
    ensures Edges(m, n).regs.wdt == Watchdog.Ticks(m.regs.wdt, Clock.Rises(m.pclk, n))
  {
    hide Step;
    if n > 0 {
      hide Watchdog.Ticks, Clock.Divided, Clock.Rises;
      EdgesTickTheWatchdog(m, n - 1);
      EdgesRunTheClock(m, n - 1);
      Clock.RisesGrows(m.pclk, n);
      TickOnEdge(Edges(m, n - 1), m.regs.wdt, Clock.Rises(m.pclk, n - 1));
    }
  }

  /** sys_clk edges from a reload to the expiry of an enabled watchdog, for either phase of pclk. */
  function EdgesToExpiry(m: State): nat {
    if m.pclk then 2 * (m.regs.wdt.load + 1) else 2 * (m.regs.wdt.load + 1) - 1
  }

  predicate FreshlyLoaded(m: State) {
    && !m.reset
    && Watchdog.Enabled(m.regs.wdt) && m.regs.wdt.value == m.regs.wdt.load && !m.regs.wdt.ris
  }

  /** With no further writes the watchdog expires on exactly that edge. */
  lemma ExpiresOnTime(m: State, n: nat)
    requires FreshlyLoaded(m)
    ensures Edges(m, n).regs.wdt.ris <==> n >= EdgesToExpiry(m)
    ensures Edges(m, n).regs.wdt.ctrl == m.regs.wdt.ctrl
  {
    EdgesTickTheWatchdog(m, n);
    Watchdog.SetsAfterValuePlusOne(m.regs.wdt, Clock.Rises(m.pclk, n));
    Watchdog.TicksInClosedForm(m.regs.wdt, Clock.Rises(m.pclk, n));
    Clock.EdgesForRises(m.pclk, n, m.regs.wdt.load);
  }

  lemma LatchOnEdge(m: State)
    requires !m.reset
    ensures var n := Step(m, SysEdge);
      n.regs.sys.latched <==> m.regs.sys.latched || (RstLine(n) && !RstLine(m))
  {
    hide Watchdog.Tick, Watchdog.RstLevel, Timer.Edge;
  }

  /** If reset requests are enabled, SysCtrl has latched the cause once that edge has run to quiescence. */
  lemma {:induction false} ExpiryReachesSysCtrl(m: State, n: nat)
    requires FreshlyLoaded(m)
    ensures Edges(m, n).regs.sys.latched <==>
      m.regs.sys.latched || (Watchdog.RESEN in m.regs.wdt.ctrl && n >= EdgesToExpiry(m))
  {
    hide Step;
    if n > 0 {
      ExpiryReachesSysCtrl(m, n - 1);
      ExpiresOnTime(m, n - 1);
      ExpiresOnTime(m, n);
      EdgesRunTheClock(m, n - 1);
      LatchOnEdge(Edges(m, n - 1));
    }
  }

  predicate ClearsCause(e: Event) {
    e.Access? && e.command == Write && e.address == PL_SYSCTRL_OFFSET + SysCtrl.SYS_WDT_RST
  }

  /** rst_req goes from low to high in the k-th event. */
  predicate Rises(es: seq<Event>, k: nat)
    requires k < |es|
  {
    !RstLine(Run(POWER_ON, es[..k])) && RstLine(Run(POWER_ON, es[..k + 1]))
  }

  predicate Forgets(es: seq<Event>, j: nat)
    requires j < |es|
  {
    ClearsCause(es[j]) || Resets(Run(POWER_ON, es[..j]), es[j])
  }

  /** rst_req rose in event k, and neither a clear nor a reset came later. */
  predicate RoseLastAt(es: seq<Event>, k: nat) {
    k < |es| && Rises(es, k) && forall j | k < j < |es| :: !Forgets(es, j)
  }

  /** What an access does to the watchdog and to SysCtrl's latch. */
  lemma WdtAccess(s: SocRegs, e: Event)
    requires e.Access?
    ensures AccessEffect(s, e).0.wdt ==
      if e.command == Write && Occupies(WdtPort, e.address) && e.address % 4 == 0
      then Watchdog.WriteReg(s.wdt, e.address - PL_WDT_OFFSET, e.value) else s.wdt
    ensures AccessEffect(s, e).0.sys.latched == (s.sys.latched && !ClearsCause(e))
  {
    hide Gpio.Transport, Uart.Transport, Sram.Transport, PinBridge.Access, Watchdog.WriteReg, Watchdog.ReadReg,
         SysCtrl.ReadReg, ToBytes, FromBytes;
    FlatMapIsTheOneSlot(e.address, WdtPort);
    FlatMapIsTheOneSlot(e.address, SysCtrlPort);
    BytesRoundTrip(e.value);
  }

  lemma LatchStep(m: State, e: Event)
    ensures Step(m, e).regs.sys.latched <==>
      (m.regs.sys.latched && !ClearsCause(e) && !Resets(m, e)) || (!RstLine(m) && RstLine(Step(m, e)))
    ensures ClearsCause(e) || Resets(m, e) ==> !(!RstLine(m) && RstLine(Step(m, e)))
  {
    if e.Access? {
      hide AccessEffect;
      WdtAccess(m.regs, e);
    }
  }

  lemma RoseLastAtExtends(es: seq<Event>, k: nat)
    requires es != []
    ensures var last := |es| - 1;
      RoseLastAt(es, k) <==>
        if k == last then Rises(es, last) else RoseLastAt(es[..last], k) && !Forgets(es, last)
  {
    hide Run, ClearsCause, Resets, RstLine;
    var last := |es| - 1;
    var front := es[..last];
    assert forall j | 0 <= j <= last :: front[..j] == es[..j];
    assert forall j | 0 <= j < last :: Forgets(front, j) == Forgets(es, j);
    assert k < last ==> Rises(front, k) == Rises(es, k);
  }

  /** SYS_WDT_RST reads 1 iff rst_req has risen since the later of its last clear and the last reset. */
  lemma {:induction false} CauseIsHistory(es: seq<Event>)
    ensures Run(POWER_ON, es).regs.sys.latched <==> exists k: nat :: RoseLastAt(es, k)
  {
    if es != [] {
      var last := |es| - 1;
      var front := es[..last];
      CauseIsHistory(front);
      LatchStep(Run(POWER_ON, front), es[last]);
      assert es[..last + 1] == es;
      RoseLastAtExtends(es, last);
      if k: nat :| RoseLastAt(front, k) {
        RoseLastAtExtends(es, k);
      }
      if k: nat :| RoseLastAt(es, k) {
        RoseLastAtExtends(es, k);
      }
    }
  }

  predicate Unlocks(e: Event) {
    && e.Access? && e.command == Write
    && e.address == PL_WDT_OFFSET + Watchdog.WDT_LOCK && e.value == Watchdog.UNLOCK
  }

  lemma LockedStep(m: State, e: Event)
    requires m.regs.wdt == Watchdog.AT_RESET && !m.regs.sys.latched && !Unlocks(e)
    ensures Step(m, e).regs.wdt == Watchdog.AT_RESET && !Step(m, e).regs.sys.latched
  {
    if e.Access? {
      hide AccessEffect;
      WdtAccess(m.regs, e);
    }
  }

  /** Without an unlock through the bus no run from power-on raises the watchdog's irq or reset request,
      or sets SYS_WDT_RST. */
  lemma {:induction false} LockedSystemIsSafe(es: seq<Event>)
    requires forall e | e in es :: !Unlocks(e)
    ensures var m := Run(POWER_ON, es);
      && !Watchdog.IrqLevel(m.regs.wdt) && !RstLine(m) && !m.regs.sys.latched
      && m.regs.wdt == Watchdog.AT_RESET
  {
    if es != [] {
      assert es[|es| - 1] in es;
      LockedSystemIsSafe(es[..|es| - 1]);
      LockedStep(Run(POWER_ON, es[..|es| - 1]), es[|es| - 1]);
    }
  }
}
