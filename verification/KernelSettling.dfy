// Every time step of the SoC ends, and ends the same way whatever order its processes run in.
module KernelSettling {
  import opened Words
  import opened Soc
  import opened Kernel
  import opened KernelInvariants
  import opened KernelRefinement
  import Machine
  import Timer
  import Watchdog

  // ----- every reachable state

  lemma {:induction false} AlwaysRefines(cs: seq<Choice>)
    requires Schedule(START, cs)
    ensures ClockPhases(After(START, cs)) && Refines(After(START, cs))
  {
    if cs == [] {
      assert Heading(START) == Machine.POWER_ON;
    } else {
      var front := cs[..|cs| - 1];
      AlwaysRefines(front);
      AlwaysHolds(front);
      hide Next, Enabled, DriversFollow, ServerAlone, Handshake, TimerHistory, ClockPhases, Refines;
      ChoiceKeepsClockPhases(After(START, front), cs[|cs| - 1]);
      ChoiceKeepsRefinement(After(START, front), cs[|cs| - 1]);
    }
  }

  /** In every quiescent state the devices' registers are those of the atomic machine after the same
      accesses, clock edges and reset changes; the Timer's are the replay of its own operations. */
  lemma QuiescentStateIsTheMachines(cs: seq<Choice>)
    requires Schedule(START, cs) && Quiescent(After(START, cs))
    ensures var k := After(START, cs);
      && Machine.Run(Machine.POWER_ON, k.events) == Machine.State(Blank(k.regs), k.pclkState, k.cur.reset)
      && k.regs.timer == Timer.Run(Timer.AT_RESET, k.timerOps)
  {
    AlwaysHolds(cs);
    AlwaysRefines(cs);
    SettledHeading(After(START, cs));
  }

  // ----- a time step: the choices of everything but the server

  predicate DeviceChoice(c: Choice) {
    c.Update? || (c.Run? && c.p != Server)
  }

  predicate DeviceChoices(cs: seq<Choice>) {
    forall c | c in cs :: DeviceChoice(c)
  }

  /** The work a time step still has before it: a process outweighs the signals it may change and the
      processes it may notify, a changing signal weighs at least twice the processes that watch it. */
  function Cost(p: Proc): nat {
    match p
    case OnWdt => 1
    case Pack => 2
    case UartDrive => 5
    case GpioDrive => 5
    case WdtDrive => 7
    case TimerIrq => 9
    case WdtTick => 8
    case TimerThread => 10
    case PclkDiv => 17
    case ResetSeq => 65
    case TimerRead => 2
    case TimerWrite => 10
    case TimerReset => 10
    case WdtReset => 8
    case UartReset => 6
    case GpioReset => 6
    case SramReset => 1
    case SysReset => 1
    case Server => 0
  }

  /** The signals, in four groups. */
  datatype Signal =
    | Reset | Pclk | WdtRst | IrqBits
    | Intr1 | Intr2 | UartIrq | GpioIrq | WdtIrq
    | ReadEn | WriteEn | Addr | DataIn | DataOut

  predicate Moves(f: Signal, a: Wires, b: Wires) {
    match f
    case Reset => a.reset != b.reset
    case Pclk => a.pclk != b.pclk
    case WdtRst => a.wdtRst != b.wdtRst
    case IrqBits => a.irqBits != b.irqBits
    case Intr1 => a.intr1 != b.intr1
    case Intr2 => a.intr2 != b.intr2
    case UartIrq => a.uartIrq != b.uartIrq
    case GpioIrq => a.gpioIrq != b.gpioIrq
    case WdtIrq => a.wdtIrq != b.wdtIrq
    case ReadEn => a.readEn != b.readEn
    case WriteEn => a.writeEn != b.writeEn
    case Addr => a.address != b.address
    case DataIn => a.dataIn != b.dataIn
    case DataOut => a.dataOut != b.dataOut
  }

  function Gap(f: Signal, a: Wires, b: Wires): nat {
    if !Moves(f, a, b) then 0
    else match f
      case Reset => 64
      case Pclk => 16
      case WdtRst => 2
      case IrqBits => 1
      case ReadEn => 4
      case WriteEn => 20
      case Addr => 1
      case DataIn => 1
      case DataOut => 1
      case _ => 4
  }

  function IrqGap(a: Wires, b: Wires): nat {
    Gap(Intr1, a, b) + Gap(Intr2, a, b) + Gap(UartIrq, a, b) + Gap(GpioIrq, a, b) + Gap(WdtIrq, a, b)
  }

  function BusGap(a: Wires, b: Wires): nat {
    Gap(ReadEn, a, b) + Gap(WriteEn, a, b) + Gap(Addr, a, b) + Gap(DataIn, a, b) + Gap(DataOut, a, b)
  }

  function WireWeight(a: Wires, b: Wires): nat {
    Gap(Reset, a, b) + Gap(Pclk, a, b) + Gap(WdtRst, a, b) + Gap(IrqBits, a, b) + IrqGap(a, b) + BusGap(a, b)
  }

  const ALL: seq<Proc> := [
    TimerThread, TimerIrq, TimerRead, TimerWrite, TimerReset, PclkDiv, ResetSeq, WdtTick, WdtDrive, WdtReset,
    UartDrive, UartReset, GpioDrive, GpioReset, SramReset, OnWdt, SysReset, Pack, Server]

  function Sum(ps: seq<Proc>, s: set<Proc>): nat {
    if ps == [] then 0 else (if ps[0] in s then Cost(ps[0]) else 0) + Sum(ps[1..], s)
  }

  function Weight(k: Sim): nat {
    Sum(ALL, k.runnable) + WireWeight(k.cur, k.next) + (if k.clockDue then 102 else 0) + (if k.zeroWait then 1 else 0)
  }

  lemma {:induction false} SumWithout(ps: seq<Proc>, s: set<Proc>, p: Proc)
    requires p in s && forall i, j | 0 <= i < j < |ps| :: ps[i] != ps[j]
    ensures Sum(ps, s) == Sum(ps, s - {p}) + (if p in ps then Cost(p) else 0)
  {
    hide Cost;
    if ps != [] {
      SumWithout(ps[1..], s, p);
      if ps[0] == p {
        assert p !in ps[1..];
      }
    }
  }

  lemma {:induction false} SumOfUnion(ps: seq<Proc>, s: set<Proc>, t: set<Proc>)
    ensures Sum(ps, s + t) <= Sum(ps, s) + Sum(ps, t)
  {
    hide Cost;
    if ps != [] {
      SumOfUnion(ps[1..], s, t);
    }
  }

  lemma {:induction false} SumOfNone(ps: seq<Proc>)
    ensures Sum(ps, {}) == 0
  {
    if ps != [] {
      SumOfNone(ps[1..]);
    }
  }

  lemma AllAreListedOnce(p: Proc)
    ensures p in ALL
    ensures forall i, j | 0 <= i < j < |ALL| :: ALL[i] != ALL[j]
  {
    match p {
      case TimerThread => assert ALL[0] == p;
      case TimerIrq => assert ALL[1] == p;
      case TimerRead => assert ALL[2] == p;
      case TimerWrite => assert ALL[3] == p;
      case TimerReset => assert ALL[4] == p;
      case PclkDiv => assert ALL[5] == p;
      case ResetSeq => assert ALL[6] == p;
      case WdtTick => assert ALL[7] == p;
      case WdtDrive => assert ALL[8] == p;
      case WdtReset => assert ALL[9] == p;
      case UartDrive => assert ALL[10] == p;
      case UartReset => assert ALL[11] == p;
      case GpioDrive => assert ALL[12] == p;
      case GpioReset => assert ALL[13] == p;
      case SramReset => assert ALL[14] == p;
      case OnWdt => assert ALL[15] == p;
      case SysReset => assert ALL[16] == p;
      case Pack => assert ALL[17] == p;
      case Server => assert ALL[18] == p;
    }
  }

  lemma Removing(s: set<Proc>, p: Proc)
    requires p in s
    ensures Sum(ALL, s) == Sum(ALL, s - {p}) + Cost(p)
  {
    hide Sum, Cost;
    AllAreListedOnce(p);
    SumWithout(ALL, s, p);
  }

  lemma Adding(s: set<Proc>, p: Proc)
    ensures Sum(ALL, s + {p}) <= Sum(ALL, s) + Cost(p)
  {
    hide Sum, Cost;
    if p in s {
      assert s + {p} == s;
    } else {
      Removing(s + {p}, p);
      assert s + {p} - {p} == s;
    }
  }

  // ----- running a process

  lemma TimerOpWeighs(k: Sim, op: Timer.Op)
    ensures Weight(TimerOp(k, op)) <= Weight(k) + 9
  {
    hide Sum, WireWeight, Timer.Step;
    Adding(k.runnable, TimerIrq);
  }

  lemma GapTriangle(f: Signal, a: Wires, b: Wires, c: Wires)
    ensures Gap(f, a, c) <= Gap(f, a, b) + Gap(f, b, c)
  {
  }

  lemma WireTriangle(a: Wires, b: Wires, c: Wires)
    ensures WireWeight(a, c) <= WireWeight(a, b) + WireWeight(b, c)
  {
    hide Gap;
    GapTriangle(Reset, a, b, c);
    GapTriangle(Pclk, a, b, c);
    GapTriangle(WdtRst, a, b, c);
    GapTriangle(IrqBits, a, b, c);
    GapTriangle(Intr1, a, b, c);
    GapTriangle(Intr2, a, b, c);
    GapTriangle(UartIrq, a, b, c);
    GapTriangle(GpioIrq, a, b, c);
    GapTriangle(WdtIrq, a, b, c);
    GapTriangle(ReadEn, a, b, c);
    GapTriangle(WriteEn, a, b, c);
    GapTriangle(Addr, a, b, c);
    GapTriangle(DataIn, a, b, c);
    GapTriangle(DataOut, a, b, c);
  }

  /** Writing to signals adds at most their weight. */
  lemma WritingWeighs(k: Sim, j: Sim, w: nat)
    requires WireWeight(k.next, j.next) <= w
    requires j.cur == k.cur && j.runnable == k.runnable && j.clockDue == k.clockDue && j.zeroWait == k.zeroWait
    ensures Weight(j) <= Weight(k) + w
  {
    hide Sum, WireWeight;
    WireTriangle(k.cur, k.next, j.next);
  }

  lemma ClockWrites(b: Wires, pclk: bool, reset: bool)
    ensures WireWeight(b, b.(pclk := pclk)) <= 16 && WireWeight(b, b.(reset := reset)) <= 64
  {
  }

  lemma TimerIrqWrites(b: Wires, x: bool, y: bool)
    ensures WireWeight(b, b.(intr1 := x, intr2 := y)) <= 8
  {
  }

  lemma UartIrqWrites(b: Wires, x: bool)
    ensures WireWeight(b, b.(uartIrq := x)) <= 4
  {
  }

  lemma GpioIrqWrites(b: Wires, x: bool)
    ensures WireWeight(b, b.(gpioIrq := x)) <= 4
  {
  }

  lemma WdtIrqWrites(b: Wires, x: bool, y: bool)
    ensures WireWeight(b, b.(wdtIrq := x, wdtRst := y)) <= 6
  {
  }

  lemma WordWrites(b: Wires, bits: Bits, w: Word)
    ensures WireWeight(b, b.(irqBits := bits)) <= 1 && WireWeight(b, b.(dataOut := w)) <= 1
  {
  }

  lemma DriverWeighs(k: Sim, p: Proc)
    requires p in DRIVERS
    ensures Weight(RunDriver(k, p)) < Weight(k) + Cost(p)
  {
    hide Weight, WireWeight, Gpio.IrqLevel, Uart.IrqLevel, Watchdog.RstLevel, Watchdog.IrqLevel, PackWires;
    var b, r := k.next, k.regs;
    match p {
      case TimerIrq =>
        TimerIrqWrites(b, Timer.Intr1Level(r.timer), Timer.Intr2Level(r.timer));
        WritingWeighs(k, RunDriver(k, p), 8);
      case UartDrive =>
        UartIrqWrites(b, Uart.IrqLevel(r.uart));
        WritingWeighs(k, RunDriver(k, p), 4);
      case GpioDrive =>
        GpioIrqWrites(b, Gpio.IrqLevel(r.gpio));
        WritingWeighs(k, RunDriver(k, p), 4);
      case WdtDrive =>
        WdtIrqWrites(b, Watchdog.IrqLevel(r.wdt), Watchdog.RstLevel(r.wdt));
        WritingWeighs(k, RunDriver(k, p), 6);
      case Pack =>
        WordWrites(b, PackWires(k.cur), 0);
        WritingWeighs(k, RunDriver(k, p), 1);
    }
  }

  lemma BusWeighs(k: Sim, p: Proc)
    requires p in {TimerRead, TimerWrite}
    ensures Weight(RunBus(k, p)) < Weight(k) + Cost(p)
  {
    hide WireWeight, Sum, TimerOp, Timer.ReadReg;
    if p == TimerWrite {
      TimerOpWeighs(LogWrite(k), Timer.BusWrite(k.cur.address, k.cur.dataIn));
    } else if k.cur.readEn {
      WordWrites(k.next, {}, Timer.ReadReg(k.regs.timer, k.cur.address));
      WritingWeighs(k, RunBus(k, p), 1);
    }
  }

  lemma ClockedWeighs(k: Sim, p: Proc)
    requires p in {TimerThread, PclkDiv, ResetSeq, WdtTick, OnWdt}
    ensures Weight(RunClocked(k, p)) < Weight(k) + Cost(p)
  {
    hide WireWeight, Sum, TimerOp, Watchdog.Tick, Watchdog.Expires;
    match p {
      case TimerThread => TimerOpWeighs(k, Timer.Tick);
      case WdtTick => Adding(k.runnable, WdtDrive);
      case PclkDiv =>
        ClockWrites(k.next, !k.pclkState, false);
        WritingWeighs(k, RunClocked(k, p), 16);
      case ResetSeq =>
        if k.cyclesLeft > 0 {
          ClockWrites(k.next, false, k.cyclesLeft > 1);
          WritingWeighs(k, RunClocked(k, p), 64);
        }
      case OnWdt =>
    }
  }

  lemma ResetWeighs(k: Sim, p: Proc)
    requires p in RESETS
    ensures Weight(RunReset(k, p)) < Weight(k) + Cost(p)
  {
    hide Sum, WireWeight, TimerOp;
    match p {
      case TimerReset => TimerOpWeighs(k, Timer.Reset);
      case WdtReset => Adding(k.runnable, WdtDrive);
      case UartReset => Adding(k.runnable, UartDrive);
      case GpioReset => Adding(k.runnable, GpioDrive);
      case _ =>
    }
  }

  lemma RunWeighsLess(k: Sim, p: Proc, act: ServerAct)
    requires p in k.runnable && p != Server
    ensures Weight(RunProc(k, p, act)) < Weight(k)
  {
    hide Cost, WireWeight, RunBus, RunDriver, RunReset, RunClocked;
    var j := k.(runnable := k.runnable - {p});
    Removing(k.runnable, p);
    assert Weight(j) + Cost(p) == Weight(k);
    if p in DRIVERS {
      DriverWeighs(j, p);
    } else if p in {TimerRead, TimerWrite} {
      BusWeighs(j, p);
    } else if p in RESETS {
      ResetWeighs(j, p);
    } else {
      ClockedWeighs(j, p);
    }
  }

  // ----- an update phase

  lemma OneWeighs(p: Proc)
    ensures Sum(ALL, {p}) == Cost(p)
  {
    hide Cost;
    Removing({p}, p);
    SumOfNone(ALL);
    assert {p} - {p} == {};
  }

  lemma ResetsWeigh()
    ensures Sum(ALL, RESETS) <= 32
  {
    OneWeighs(TimerReset);
    hide Sum;
    var s1 := {TimerReset} + {WdtReset};
    var s2 := s1 + {UartReset};
    var s3 := s2 + {GpioReset};
    var s4 := s3 + {SramReset};
    Adding({TimerReset}, WdtReset);
    Adding(s1, UartReset);
    Adding(s2, GpioReset);
    Adding(s3, SramReset);
    Adding(s4, SysReset);
    assert RESETS == s4 + {SysReset};
  }

  lemma ClockedSetWeighs(k: Sim)
    ensures Sum(ALL, Clocked(k)) <= 101
  {
    OneWeighs(TimerThread);
    hide Sum;
    var s1 := {TimerThread} + {TimerIrq};
    var s2 := s1 + {PclkDiv};
    Adding({TimerThread}, TimerIrq);
    Adding(s1, PclkDiv);
    Adding(s2, ResetSeq);
    assert Clocked(k) == s2 + (if k.cyclesLeft > 0 then {ResetSeq} else {});
    assert s2 + {} == s2;
  }

  function When(c: bool, s: set<Proc>): set<Proc> {
    if c then s else {}
  }

  lemma WhenWeighs(c: bool, s: set<Proc>)
    ensures Sum(ALL, When(c, s)) == if c then Sum(ALL, s) else 0
  {
    hide Sum;
    SumOfNone(ALL);
  }

  lemma UnionWeighs(s0: set<Proc>, s1: set<Proc>, s2: set<Proc>, s3: set<Proc>, s4: set<Proc>, s5: set<Proc>)
    ensures Sum(ALL, s0 + s1 + s2 + s3 + s4 + s5)
         <= Sum(ALL, s0) + Sum(ALL, s1) + Sum(ALL, s2) + Sum(ALL, s3) + Sum(ALL, s4) + Sum(ALL, s5)
  {
    hide Sum;
    SumOfUnion(ALL, s0, s1);
    SumOfUnion(ALL, s0 + s1, s2);
    SumOfUnion(ALL, s0 + s1 + s2, s3);
    SumOfUnion(ALL, s0 + s1 + s2 + s3, s4);
    SumOfUnion(ALL, s0 + s1 + s2 + s3 + s4, s5);
  }

  predicate IrqWireMoves(a: Wires, b: Wires) {
    a.intr1 != b.intr1 || a.intr2 != b.intr2 || a.uartIrq != b.uartIrq || a.gpioIrq != b.gpioIrq
    || a.wdtIrq != b.wdtIrq
  }

  /** The six kinds of change that trigger something, and what each triggers. */
  lemma TriggeredIsThis(a: Wires, b: Wires)
    ensures Triggered(a, b)
         == When(a.reset != b.reset, RESETS) + When(!a.pclk && b.pclk, {WdtTick})
            + When(!a.readEn && b.readEn, {TimerRead}) + When(!a.writeEn && b.writeEn, {TimerWrite})
            + When(a.wdtRst != b.wdtRst, {OnWdt}) + When(IrqWireMoves(a, b), {Pack})
  {
  }

  lemma TriggerWeighs(c: bool, s: set<Proc>, w: nat, gap: nat)
    requires 2 * Sum(ALL, s) <= w && (c ==> gap >= w)
    ensures 2 * Sum(ALL, When(c, s)) <= gap
  {
    hide Sum;
    WhenWeighs(c, s);
  }

  lemma OneTriggerWeighs(c: bool, p: Proc, w: nat, gap: nat)
    requires 2 * Cost(p) <= w && (c ==> gap >= w)
    ensures 2 * Sum(ALL, When(c, {p})) <= gap
  {
    hide Sum, Cost, When;
    OneWeighs(p);
    TriggerWeighs(c, {p}, w, gap);
  }

  lemma ClockChangesWeigh(a: Wires, b: Wires)
    ensures 2 * Sum(ALL, When(a.reset != b.reset, RESETS)) <= Gap(Reset, a, b)
    ensures 2 * Sum(ALL, When(!a.pclk && b.pclk, {WdtTick})) <= Gap(Pclk, a, b)
    ensures 2 * Sum(ALL, When(a.wdtRst != b.wdtRst, {OnWdt})) <= Gap(WdtRst, a, b)
  {
    ResetsWeigh();
    hide Sum, When;
    TriggerWeighs(a.reset != b.reset, RESETS, 64, Gap(Reset, a, b));
    OneTriggerWeighs(!a.pclk && b.pclk, WdtTick, 16, Gap(Pclk, a, b));
    OneTriggerWeighs(a.wdtRst != b.wdtRst, OnWdt, 2, Gap(WdtRst, a, b));
  }

  lemma BusChangesWeigh(a: Wires, b: Wires)
    ensures 2 * Sum(ALL, When(!a.readEn && b.readEn, {TimerRead})) <= Gap(ReadEn, a, b)
    ensures 2 * Sum(ALL, When(!a.writeEn && b.writeEn, {TimerWrite})) <= Gap(WriteEn, a, b)
    ensures 2 * Sum(ALL, When(IrqWireMoves(a, b), {Pack})) <= IrqGap(a, b)
  {
    hide Sum, When;
    OneTriggerWeighs(!a.readEn && b.readEn, TimerRead, 4, Gap(ReadEn, a, b));
    OneTriggerWeighs(!a.writeEn && b.writeEn, TimerWrite, 20, Gap(WriteEn, a, b));
    OneTriggerWeighs(IrqWireMoves(a, b), Pack, 4, IrqGap(a, b));
  }

  /** The wires outweigh, twice over, what their changes trigger. */
  lemma TriggeredWeighs(a: Wires, b: Wires)
    ensures 2 * Sum(ALL, Triggered(a, b)) <= WireWeight(a, b)
  {
    hide Triggered, When, Sum, IrqGap, Gap, Cost, IrqWireMoves;
    TriggeredIsThis(a, b);
    ClockChangesWeigh(a, b);
    BusChangesWeigh(a, b);
    UnionWeighs(When(a.reset != b.reset, RESETS), When(!a.pclk && b.pclk, {WdtTick}),
                When(!a.readEn && b.readEn, {TimerRead}), When(!a.writeEn && b.writeEn, {TimerWrite}),
                When(a.wdtRst != b.wdtRst, {OnWdt}), When(IrqWireMoves(a, b), {Pack}));
  }

  lemma MovingWiresWeigh(a: Wires, b: Wires)
    ensures WireWeight(a, b) > 0 <==> a != b
  {
  }

  lemma NextRunnableWeighs(k: Sim)
    ensures Sum(ALL, UpdatePhase(k).runnable)
         <= Sum(ALL, Triggered(k.cur, k.next)) + (if k.clockDue then 101 else 0)
  {
    var s := Triggered(k.cur, k.next);
    var server := When(k.zeroWait, {Server});
    var clocked := When(k.clockDue, Clocked(k));
    assert UpdatePhase(k).runnable == s + server + clocked by {
      hide Triggered, Clocked;
    }
    hide Triggered, Clocked, UpdatePhase, Sum, When;
    OneTriggerWeighs(k.zeroWait, Server, 0, 0);
    WhenWeighs(k.clockDue, Clocked(k));
    ClockedSetWeighs(k);
    SumOfUnion(ALL, s, server);
    SumOfUnion(ALL, s + server, clocked);
  }

  lemma UpdateWeighsLess(k: Sim)
    requires k.runnable == {} && !Quiescent(k)
    ensures Weight(UpdatePhase(k)) < Weight(k)
  {
    TriggeredWeighs(k.cur, k.next);
    NextRunnableWeighs(k);
    SumOfNone(ALL);
    MovingWiresWeigh(k.cur, k.next);
    MovingWiresWeigh(k.next, k.next);
    hide Sum, Triggered, Clocked, WireWeight;
  }

  /** Without the server, a time step has at most Weight(k) choices left: it cannot go on for ever. */
  lemma {:induction false} TimeStepEnds(k: Sim, cs: seq<Choice>)
    requires Schedule(k, cs) && DeviceChoices(cs)
    ensures |cs| + Weight(After(k, cs)) <= Weight(k)
  {
    if cs != [] {
      var front, c := cs[..|cs| - 1], cs[|cs| - 1];
      assert forall d | d in front :: d in cs;
      TimeStepEnds(k, front);
      assert c in cs && DeviceChoice(c);
      var j := After(k, front);
      hide Weight, RunProc, UpdatePhase, Quiescent;
      match c {
        case Run(p, act) => RunWeighsLess(j, p, act);
        case Update => UpdateWeighsLess(j);
        case Advance(_, _) =>
      }
    }
  }

  // ----- a time step: order independence

  /** The end of reset is already on its way. */
  predicate ReleaseComing(k: Sim) {
    k.cur.reset && (!k.next.reset || (k.cyclesLeft == 1 && (k.clockDue || ResetSeq in k.runnable)))
  }

  /** Where this time step ends, if the server does not run: for every device but the Timer ... */
  function Final(k: Sim): Machine.State {
    var m := if k.clockDue then Machine.Step(Heading(k), Machine.SysEdge) else Heading(k);
    if ReleaseComing(k) then Machine.Step(m, Machine.ReleaseReset) else m
  }

  /** ... and for the Timer. */
  function FinalTimer(k: Sim): Timer.Regs {
    if k.clockDue || TimerThread in k.runnable then Timer.Edge(k.regs.timer) else k.regs.timer
  }

  /** The invariants a time step without the server relies on. */
  predicate InStep(k: Sim) {
    ClockPhases(k) && DriversFollow(k) && ServerAlone(k) && Handshake(k) && Timed(k.pc) && Server !in k.runnable
  }

  lemma DeviceChoiceStaysInStep(k: Sim, c: Choice)
    requires InStep(k) && Enabled(k, c) && DeviceChoice(c)
    ensures InStep(Next(k, c))
  {
    hide ClockPhases, DriversFollow, Handshake, RunProc;
    ChoiceKeepsClockPhases(k, c);
    ChoiceKeepsDrivers(k, c);
    ChoiceKeepsServerAlone(k, c);
    ChoiceKeepsHandshake(k, c);
    if c.Run? {
      DeviceRunIsLocal(k, c.p, c.act);
    }
  }

  /** j differs from k in nothing ReleaseComing looks at. */
  predicate SameReset(k: Sim, j: Sim) {
    && j.cur == k.cur && j.next.reset == k.next.reset && j.cyclesLeft == k.cyclesLeft && j.clockDue == k.clockDue
    && (ResetSeq in j.runnable <==> ResetSeq in k.runnable)
  }

  /** Nor in anything FinalTimer looks at. */
  predicate SameTimerAhead(k: Sim, j: Sim) {
    j.regs.timer == k.regs.timer && j.clockDue == k.clockDue
    && (TimerThread in j.runnable <==> TimerThread in k.runnable)
  }

  lemma TimerOpSameReset(k: Sim, op: Timer.Op)
    ensures SameReset(k, TimerOp(k, op))
  {
    hide Timer.Step;
  }

  lemma DriverSameAhead(k: Sim, p: Proc)
    ensures SameReset(k, RunDriver(k, p)) && SameTimerAhead(k, RunDriver(k, p))
  {
    hide Watchdog.RstLevel, Watchdog.IrqLevel, Gpio.IrqLevel, Uart.IrqLevel, PackWires;
  }

  lemma BusSameReset(k: Sim, p: Proc)
    ensures SameReset(k, RunBus(k, p))
  {
    hide TimerOp, Timer.ReadReg;
    TimerOpSameReset(LogWrite(k), Timer.BusWrite(k.cur.address, k.cur.dataIn));
  }

  lemma ResetSameAhead(k: Sim, p: Proc)
    ensures SameReset(k, RunReset(k, p))
    ensures p != TimerReset ==> SameTimerAhead(k, RunReset(k, p))
  {
    hide TimerOp;
    TimerOpSameReset(k, Timer.Reset);
  }

  lemma ThreadSameReset(k: Sim)
    ensures SameReset(k, RunClocked(k, TimerThread))
  {
    hide TimerOp;
    TimerOpSameReset(k, Timer.Tick);
  }

  lemma TickSameAhead(k: Sim)
    ensures SameReset(k, RunClocked(k, WdtTick)) && SameTimerAhead(k, RunClocked(k, WdtTick))
  {
    hide Watchdog.Tick, Watchdog.Expires;
  }

  lemma ClockedSameAhead(k: Sim, p: Proc)
    ensures p != ResetSeq ==> SameReset(k, RunClocked(k, p))
    ensures p != TimerThread ==> SameTimerAhead(k, RunClocked(k, p))
  {
    match p {
      case TimerThread => ThreadSameReset(k);
      case WdtTick => TickSameAhead(k);
      case _ => hide TimerOp, Watchdog.Tick, Watchdog.Expires;
    }
  }

  lemma RunSameAhead(k: Sim, p: Proc, act: ServerAct)
    requires p != Server
    ensures p != ResetSeq ==> SameReset(k.(runnable := k.runnable - {p}), RunProc(k, p, act))
    ensures p !in {TimerThread, TimerReset, TimerRead, TimerWrite} ==>
      SameTimerAhead(k.(runnable := k.runnable - {p}), RunProc(k, p, act))
  {
    var j := k.(runnable := k.runnable - {p});
    hide RunBus, RunDriver, RunReset, RunClocked, SameReset, SameTimerAhead;
    if p in DRIVERS {
      DriverSameAhead(j, p);
    } else if p in {TimerRead, TimerWrite} {
      BusSameReset(j, p);
    } else if p in RESETS {
      ResetSameAhead(j, p);
    } else {
      ClockedSameAhead(j, p);
    }
  }

  lemma RunKeepsReleaseComing(k: Sim, p: Proc, act: ServerAct)
    requires ClockPhases(k) && p in k.runnable && p != Server
    ensures ReleaseComing(RunProc(k, p, act)) == ReleaseComing(k)
    ensures RunProc(k, p, act).clockDue == k.clockDue
  {
    if p != ResetSeq {
      RunSameAhead(k, p, act);
      hide RunProc, ClockPhases;
    }
  }

  lemma ThreadKeepsFinalTimer(k: Sim, act: ServerAct)
    requires ClockPhases(k) && TimerThread in k.runnable
    ensures FinalTimer(RunProc(k, TimerThread, act)) == FinalTimer(k)
  {
    assert !k.clockDue;
    hide ClockPhases, Timer.Edge;
  }

  /** An operation that leaves the Timer as it is. */
  lemma IdleTimerOp(k: Sim, op: Timer.Op)
    requires Timer.Step(k.regs.timer, op) == k.regs.timer
    ensures SameTimerAhead(k, TimerOp(k, op))
  {
    hide Timer.Step;
  }

  lemma TimerResetKeepsFinalTimer(k: Sim, act: ServerAct)
    requires ClockPhases(k) && TimerReset in k.runnable
    ensures FinalTimer(RunProc(k, TimerReset, act)) == FinalTimer(k)
  {
    hide TimerOp, Timer.Edge;
    if k.cur.reset {
      assert TimerReset in k.runnable * RESETS;
      ReadInitial(k);
      IdleTimerOp(k.(runnable := k.runnable - {TimerReset}), Timer.Reset);
    }
    hide ClockPhases;
  }

  lemma NoBusRunsMeanwhile(k: Sim)
    requires Timed(k.pc) && Handshake(k)
    ensures TimerRead !in k.runnable && TimerWrite !in k.runnable
  {
  }

  lemma RunKeepsFinalTimer(k: Sim, p: Proc, act: ServerAct)
    requires InStep(k) && p in k.runnable && p != Server
    ensures FinalTimer(RunProc(k, p, act)) == FinalTimer(k)
  {
    hide DriversFollow, ServerAlone, ClockPhases, Handshake, RunProc;
    NoBusRunsMeanwhile(k);
    if p == TimerThread {
      hide FinalTimer;
      ThreadKeepsFinalTimer(k, act);
    } else if p == TimerReset {
      hide FinalTimer;
      TimerResetKeepsFinalTimer(k, act);
    } else {
      hide Timer.Edge;
      RunSameAhead(k, p, act);
    }
  }

  lemma RunKeepsFinal(k: Sim, p: Proc, act: ServerAct)
    requires InStep(k) && p in k.runnable && p != Server
    ensures Final(RunProc(k, p, act)) == Final(k)
  {
    hide DriversFollow, ServerAlone, ClockPhases, Handshake, Heading, ReleaseComing, RunProc, Machine.Step;
    DeviceRunKeepsHeading(k, p, act);
    RunKeepsReleaseComing(k, p, act);
  }

  lemma UpdateKeepsFinal(k: Sim)
    requires InStep(k) && k.runnable == {}
    ensures Final(UpdatePhase(k)) == Final(k) && FinalTimer(UpdatePhase(k)) == FinalTimer(k)
  {
    hide ServerAlone, Handshake, Heading, Machine.Step, Timer.Edge;
    if k.clockDue {
      EdgeIsAnEvent(k);
    } else if k.cur.reset && !k.next.reset {
      ReleaseIsAnEvent(k);
    } else {
      UpdateKeepsHeading(k);
    }
    hide DriversFollow;
  }

  /** Every choice of a time step keeps where the step ends. */
  lemma {:induction false} StepsKeepFinal(k: Sim, cs: seq<Choice>)
    requires InStep(k) && Schedule(k, cs) && DeviceChoices(cs)
    ensures var j := After(k, cs); InStep(j) && Final(j) == Final(k) && FinalTimer(j) == FinalTimer(k)
  {
    if cs != [] {
      var front, c := cs[..|cs| - 1], cs[|cs| - 1];
      assert forall d | d in front :: d in cs;
      StepsKeepFinal(k, front);
      assert c in cs && DeviceChoice(c);
      var j := After(k, front);
      hide InStep, Final, FinalTimer, RunProc, UpdatePhase, Quiescent;
      DeviceChoiceStaysInStep(j, c);
      match c {
        case Run(p, act) =>
          RunKeepsFinal(j, p, act);
          RunKeepsFinalTimer(j, p, act);
        case Update => UpdateKeepsFinal(j);
        case Advance(_, _) =>
      }
    }
  }

  lemma QuiescentIsFinal(k: Sim)
    requires InStep(k) && Quiescent(k)
    ensures k.regs == Final(k).regs.(timer := FinalTimer(k))
    ensures k.pclkState == Final(k).pclk && k.cur.irqBits == PureIrq(k.regs)
  {
    hide ServerAlone, Handshake;
    SettledHeading(k);
  }

  /** Order independence.  Take any reachable state in which the server is in a timed wait, with whatever
      notifications and signal changes are pending.  However the scheduler orders the processes, it stops
      (TimeStepEnds), and every schedule that runs to quiescence ends with the same registers, the same clock
      phase and the same irq_bits, the pure packing of those registers. */
  lemma OrderDoesNotMatter(before: seq<Choice>, ds: seq<Choice>, es: seq<Choice>)
    requires Schedule(START, before)
    requires var k := After(START, before);
      && Timed(k.pc) && Server !in k.runnable
      && Schedule(k, ds) && DeviceChoices(ds) && Quiescent(After(k, ds))
      && Schedule(k, es) && DeviceChoices(es) && Quiescent(After(k, es))
    ensures var k := After(START, before);
      var d, e := After(k, ds), After(k, es);
      && d.regs == e.regs && d.pclkState == e.pclkState
      && d.cur.irqBits == e.cur.irqBits == PureIrq(d.regs)
  {
    var k := After(START, before);
    AlwaysHolds(before);
    AlwaysRefines(before);
    StepsKeepFinal(k, ds);
    StepsKeepFinal(k, es);
    hide InStep, Final, FinalTimer, Quiescent, PureIrq;
    QuiescentIsFinal(After(k, ds));
    QuiescentIsFinal(After(k, es));
  }

  // ----- a time step: every one has an outcome

  /** One choice in front of a schedule. */
  lemma {:induction false} FirstChoice(k: Sim, c: Choice, cs: seq<Choice>)
    requires Enabled(k, c) && Schedule(Next(k, c), cs)
    ensures Schedule(k, [c] + cs) && After(k, [c] + cs) == After(Next(k, c), cs)
  {
    hide Next, Enabled;
    if cs == [] {
      assert [c] + cs == [c] && [c][..0] == [];
    } else {
      FirstChoice(k, c, cs[..|cs| - 1]);
      assert ([c] + cs)[..|[c] + cs| - 1] == [c] + cs[..|cs| - 1];
    }
  }

  lemma {:induction false} ThenChoices(k: Sim, before: seq<Choice>, cs: seq<Choice>)
    requires Schedule(k, before) && Schedule(After(k, before), cs)
    ensures Schedule(k, before + cs) && After(k, before + cs) == After(After(k, before), cs)
  {
    hide Next, Enabled;
    if cs == [] {
      assert before + cs == before;
    } else {
      ThenChoices(k, before, cs[..|cs| - 1]);
      assert (before + cs)[..|before + cs| - 1] == before + cs[..|cs| - 1];
    }
  }

  predicate Progress(k: Sim, c: Choice) {
    Enabled(k, c) && DeviceChoice(c) && InStep(Next(k, c)) && Weight(Next(k, c)) < Weight(k)
  }

  lemma RunIsProgress(k: Sim, p: Proc)
    requires InStep(k) && p in k.runnable
    ensures Progress(k, Run(p, Poll))
  {
    assert p != Server;
    hide InStep, RunProc, Weight;
    RunWeighsLess(k, p, Poll);
    DeviceChoiceStaysInStep(k, Run(p, Poll));
  }

  lemma UpdateIsProgress(k: Sim)
    requires InStep(k) && k.runnable == {} && !Quiescent(k)
    ensures Progress(k, Update)
  {
    hide InStep, UpdatePhase, Weight, Quiescent;
    UpdateWeighsLess(k);
    DeviceChoiceStaysInStep(k, Update);
  }

  /** As long as a time step has not settled, the scheduler has a choice that brings it closer. */
  lemma SomeChoice(k: Sim) returns (c: Choice)
    requires InStep(k) && !Quiescent(k)
    ensures Progress(k, c)
  {
    hide InStep, Progress, Quiescent;
    if p :| p in k.runnable {
      c := Run(p, Poll);
      RunIsProgress(k, p);
    } else {
      c := Update;
      UpdateIsProgress(k);
    }
  }

  lemma {:induction false} TimeStepSettles(k: Sim)
    requires InStep(k)
    ensures exists cs :: Schedule(k, cs) && DeviceChoices(cs) && Quiescent(After(k, cs))
    decreases Weight(k)
  {
    hide InStep, Weight, Next, Enabled, Quiescent;
    if Quiescent(k) {
      assert Schedule(k, []) && DeviceChoices([]) && Quiescent(After(k, []));
    } else {
      var c := SomeChoice(k);
      TimeStepSettles(Next(k, c));
      var cs :| Schedule(Next(k, c), cs) && DeviceChoices(cs) && Quiescent(After(Next(k, c), cs));
      FirstChoice(k, c, cs);
      assert DeviceChoices([c] + cs);
    }
  }

  /** Nothing but time and the server can go on. */
  ghost predicate Exhausted(k: Sim) {
    forall c | DeviceChoice(c) :: !Enabled(k, c)
  }

  lemma ExhaustedIsQuiescent(k: Sim)
    requires InStep(k) && Exhausted(k)
    ensures Quiescent(k)
  {
    hide InStep, Enabled, Next, Weight;
    if !Quiescent(k) {
      var c := SomeChoice(k);
    }
  }

  /** In every run a server in a timed wait gets to run again.  However the scheduler spends the time step, it
      comes to an end (TimeStepEnds); whenever it does, the SoC is quiescent, the wait can elapse, with or
      without a clock edge, and the server then runs and reads the levels of the registers on irq_bits. */
  lemma ServerWakes(before: seq<Choice>, cs: seq<Choice>, edge: bool)
    requires Schedule(START, before)
    requires var k := After(START, before);
      && Timed(k.pc) && Server !in k.runnable
      && Schedule(k, cs) && DeviceChoices(cs) && Exhausted(After(k, cs))
    ensures var j := After(After(START, before), cs);
      && Quiescent(j) && Enabled(j, Advance(edge, true))
    ensures var t := Next(After(After(START, before), cs), Advance(edge, true));
      && Server in t.runnable && t.pc == After(START, before).pc && t.cur.irqBits == PureIrq(t.regs)
  {
    var k, wake := After(START, before), Advance(edge, true);
    AlwaysHolds(before);
    AlwaysRefines(before);
    StepsKeepFinal(k, cs);
    StepsKeepPc(k, cs);
    hide InStep, Next, Enabled, Refines, TimerHistory, PureIrq, Exhausted, Quiescent, Final, FinalTimer;
    ExhaustedIsQuiescent(After(k, cs));
    WakingUp(After(k, cs), edge);
    OneMore(k, cs, wake);
    ThenChoices(START, before, cs + [wake]);
    ServerSamplesFreshIrq(before + (cs + [wake]));
  }

  lemma OneMore(k: Sim, cs: seq<Choice>, c: Choice)
    requires Schedule(k, cs) && Enabled(After(k, cs), c)
    ensures Schedule(k, cs + [c]) && After(k, cs + [c]) == Next(After(k, cs), c)
  {
    hide Next, Enabled;
    assert (cs + [c])[..|cs|] == cs;
  }

  lemma WakingUp(k: Sim, edge: bool)
    requires Quiescent(k) && Timed(k.pc)
    ensures Enabled(k, Advance(edge, true))
    ensures Server in Next(k, Advance(edge, true)).runnable && Next(k, Advance(edge, true)).pc == k.pc
  {
  }

  lemma {:induction false} StepsKeepPc(k: Sim, cs: seq<Choice>)
    requires Schedule(k, cs) && DeviceChoices(cs)
    ensures After(k, cs).pc == k.pc
  {
    if cs != [] {
      var front, c := cs[..|cs| - 1], cs[|cs| - 1];
      assert forall d | d in front :: d in cs;
      StepsKeepPc(k, front);
      assert c in cs && DeviceChoice(c);
      hide RunProc, UpdatePhase;
      if c.Run? {
        DeviceRunIsLocal(After(k, front), c.p, c.act);
      } else {
        UpdateKeepsPc(After(k, front));
      }
    }
  }

  lemma UpdateKeepsPc(k: Sim)
    ensures UpdatePhase(k).pc == k.pc
  {
    hide Triggered, Clocked;
  }
}
