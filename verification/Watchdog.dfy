// The APB watchdog: a reload counter with a lock (peripherals/wdt_apb.h).
module Watchdog {
  import opened Words
  import opened Tlm

  const WDT_LOAD: Word := 0x00
  const WDT_VALUE: Word := 0x04
  const WDT_CONTROL: Word := 0x08
  const WDT_INTCLR: Word := 0x0C
  const WDT_RIS: Word := 0x10
  const WDT_MIS: Word := 0x14
  const WDT_LOCK: Word := 0xC00

  const INTEN: nat := 0
  const RESEN: nat := 1
  const CTRL_MASK: Bits := {INTEN, RESEN}
  const UNLOCK: Word := 0x1ACCE551
  const RELOAD_AT_RESET: Word := 0xFFFF

  const ACCESS_TIME: nat := 20

  /** ris_ only ever holds 0 or 1. */
  datatype Regs = Regs(load: Word, value: Word, ctrl: Bits, ris: bool, locked: bool)

  const AT_RESET := Regs(RELOAD_AT_RESET, RELOAD_AT_RESET, {}, false, true)

  predicate Enabled(r: Regs) { INTEN in r.ctrl }

  /** The levels drive() puts on irq and rst_req. */
  predicate IrqLevel(r: Regs) { r.ris && INTEN in r.ctrl }
  predicate RstLevel(r: Regs) { r.ris && RESEN in r.ctrl }

  /** One rising pclk edge with reset low. */
  function Tick(r: Regs): Regs {
    if !Enabled(r) then r
    else if r.value == 0 then r.(ris := true, value := r.load)
    else r.(value := r.value - 1)
  }

  function ReadReg(r: Regs, offset: Word): Word {
    if offset == WDT_LOAD then r.load
    else if offset == WDT_VALUE then r.value
    else if offset == WDT_CONTROL then ToWord(r.ctrl)
    else if offset == WDT_RIS then Flag(r.ris)
    else if offset == WDT_MIS then Flag(r.ris && INTEN in r.ctrl)
    else if offset == WDT_LOCK then Flag(r.locked)
    else 0
  }

  function WriteReg(r: Regs, offset: Word, v: Word): Regs {
    if offset == WDT_LOCK then r.(locked := v != UNLOCK)
    else if r.locked then r
    else if offset == WDT_LOAD then r.(load := v, value := v)
    else if offset == WDT_CONTROL then r.(ctrl := ToBits(v) * CTRL_MASK)
    else if offset == WDT_INTCLR then r.(ris := false, value := r.load)
    else r
  }

  /** The whole effect of one bus transaction. */
  function Transport(r: Regs, t: Txn): (Regs, Outcome) {
    match t.command
    case Read => (r, ReadReply(t, ReadReg(r, Offset(t)), ACCESS_TIME))
    case Write =>
      (if Fault(t).None? then WriteReg(r, Offset(t), FromBytes(t.data)) else r, WriteReply(t, ACCESS_TIME))
    case Ignore => (r, Refuse(t, CommandError))
  }

  /** Does the transaction notify irq_ev_? */
  predicate Notifies(r: Regs, t: Txn) {
    t.command == Write && Fault(t).None? && Offset(t) != WDT_LOCK && !r.locked
  }

  /** The output levels cannot change behind drive()'s back. */
  lemma LevelsChangeOnlyWithNotice(r: Regs, t: Txn)
    requires !Notifies(r, t)
    ensures IrqLevel(Transport(r, t).0) == IrqLevel(r) && RstLevel(Transport(r, t).0) == RstLevel(r)
  {
  }

  // ----- the SystemC module

  class WdtApb {
    var load: Word
    var value: Word
    var ctrl: Bits
    var ris: bool
    var locked: bool
    var irqEvent: bool  // irq_ev_ was notified

    constructor ()
      ensures View() == AT_RESET && !irqEvent
    {
      load, value, ctrl, ris, locked, irqEvent := RELOAD_AT_RESET, RELOAD_AT_RESET, {}, false, true, false;
    }

    function View(): Regs
      reads this
    {
      Regs(load, value, ctrl, ris, locked)
    }

    method Drive() returns (irq: bool, rstReq: bool)
      ensures irq == IrqLevel(View()) && rstReq == RstLevel(View())
    {
      irq := ris && INTEN in ctrl;
      rstReq := ris && RESEN in ctrl;
    }

    method OnReset(reset: bool)
      modifies this
      ensures View() == if reset then AT_RESET else old(View())
      ensures irqEvent == (old(irqEvent) || reset)
    {
      if !reset {
        return;
      }
      load, value := RELOAD_AT_RESET, RELOAD_AT_RESET;
      ctrl, ris, locked := {}, false, true;
      irqEvent := true;
    }

    method ClockTick(reset: bool)
      modifies this
      ensures View() == if reset then old(View()) else Tick(old(View()))
      ensures irqEvent == (old(irqEvent) || (!reset && Expires(old(View()))))
    {
      if reset || INTEN !in ctrl {
        return;
      }
      if value == 0 {
        ris := true;
        value := load;
        irqEvent := true;
        return;
      }
      value := value - 1;
    }

    method BTransport(p: Payload, delay: nat) returns (delay': nat)
      modifies this, p
      ensures delay' >= delay
      ensures (View(), Outcome(p.View(), delay' - delay)) == Transport(old(View()), old(p.View()))
      ensures irqEvent == (old(irqEvent) || Notifies(old(View()), old(p.View())))
    {
      delay' := delay;
      var off: Word := p.address % WORD_LIMIT;
      if p.command == Read {
        var v: Word := 0;
        if off == WDT_LOAD { v := load; }
        else if off == WDT_VALUE { v := value; }
        else if off == WDT_CONTROL { v := ToWord(ctrl); }
        else if off == WDT_RIS { v := Flag(ris); }
        else if off == WDT_MIS { v := Flag(ris && INTEN in ctrl); }
        else if off == WDT_LOCK { v := Flag(locked); }
        var ok := PackU32(p, v);
        if !ok {
          return;
        }
      } else if p.command == Write {
        var ok, v := UnpackU32(p);
        if !ok {
          return;
        }
        BytesRoundTrip(v);
        if off == WDT_LOCK {
          locked := v != UNLOCK;
        } else if !locked {
          if off == WDT_LOAD {
            load := v;
            value := v;
          } else if off == WDT_CONTROL {
            ctrl := ToBits(v) * CTRL_MASK;
          } else if off == WDT_INTCLR {
            ris := false;
            value := load;
          }
          irqEvent := true;
        }
      } else {
        p.status := CommandError;
        return;
      }
      p.status := Okay;
      delay' := delay + ACCESS_TIME;
    }
  }

  // ----- counting ticks

  function Ticks(r: Regs, n: nat): Regs {
    if n == 0 then r else Tick(Ticks(r, n - 1))
  }

  predicate Expires(r: Regs) {
    Enabled(r) && r.value == 0
  }

  /** How many of the next n ticks expire. */
  function Expiries(r: Regs, n: nat): nat {
    if n == 0 then 0 else Expiries(r, n - 1) + (if Expires(Ticks(r, n - 1)) then 1 else 0)
  }

  /** Enabled and undisturbed, the watchdog expires every LOAD + 1 ticks. */
  lemma {:induction false} TicksInClosedForm(r: Regs, n: nat)
    requires Enabled(r) && r.value <= r.load
    ensures var s, phase := Ticks(r, n), n + r.load - r.value;
      && s == r.(value := r.load - phase % (r.load + 1), ris := r.ris || Expiries(r, n) > 0)
      && Expiries(r, n) == phase / (r.load + 1)
  {
    var phase := n + r.load - r.value;
    if n == 0 {
      ModuloIs(phase, r.load + 1, 0, phase);
    } else {
      TicksInClosedForm(r, n - 1);
      NextModulo(phase - 1, r.load + 1);
    }
  }

  /** RIS is set by n enabled ticks iff they number more than VALUE. */
  lemma SetsAfterValuePlusOne(r: Regs, n: nat)
    requires Enabled(r) && r.value <= r.load && !r.ris
    ensures Ticks(r, n).ris <==> n > r.value
  {
    var phase := n + r.load - r.value;
    TicksInClosedForm(r, n);
    if n <= r.value {
      ModuloIs(phase, r.load + 1, 0, phase);
    } else {
      QuotientPositive(phase, r.load + 1);
    }
  }

  // ----- runs

  datatype Op = ClockTick | BusRead(offset: Word) | BusWrite(offset: Word, v: Word) | Reset

  function Step(r: Regs, op: Op): Regs {
    match op
    case ClockTick => Tick(r)
    case BusRead(_) => r
    case BusWrite(offset, v) => WriteReg(r, offset, v)
    case Reset => AT_RESET
  }

  function Run(r: Regs, ops: seq<Op>): Regs {
    if ops == [] then r else Step(Run(r, ops[..|ops| - 1]), ops[|ops| - 1])
  }

  /** VALUE never exceeds LOAD. */
  lemma {:induction false} ValueWithinLoad(ops: seq<Op>)
    ensures Run(AT_RESET, ops).value <= Run(AT_RESET, ops).load
  {
    if ops != [] {
      ValueWithinLoad(ops[..|ops| - 1]);
    }
  }

  /** Everything but a reconfiguration: ticks, reads, kicks and writes without effect. */
  predicate Routine(op: Op) {
    !op.Reset? && (op.BusWrite? ==> op.offset !in {WDT_LOAD, WDT_CONTROL, WDT_LOCK})
  }

  predicate Kick(op: Op) {
    op.BusWrite? && op.offset == WDT_INTCLR
  }

  function TicksSinceKick(ops: seq<Op>): nat {
    if ops == [] then 0 else
      var op := ops[|ops| - 1];
      if Kick(op) then 0
      else TicksSinceKick(ops[..|ops| - 1]) + (if op.ClockTick? then 1 else 0)
  }

  /** An unlocked, enabled, freshly kicked watchdog has RIS set at the end of a run iff more than
      LOAD ticks have passed since the last kick. */
  lemma {:induction false} RisIffNotKicked(r: Regs, ops: seq<Op>)
    requires Enabled(r) && !r.locked && !r.ris && r.value == r.load
    requires forall op | op in ops :: Routine(op)
    ensures Run(r, ops) == Ticks(r, TicksSinceKick(ops))
    ensures Run(r, ops).ris <==> TicksSinceKick(ops) > r.load
  {
    if ops != [] {
      var front, op := ops[..|ops| - 1], ops[|ops| - 1];
      assert op in ops;
      RisIffNotKicked(r, front);
      TicksInClosedForm(r, TicksSinceKick(front));
    }
    SetsAfterValuePlusOne(r, TicksSinceKick(ops));
  }

  /** Kicks at most LOAD ticks apart keep RIS clear at every moment of the run. */
  lemma KickedInTimeNeverSets(r: Regs, ops: seq<Op>)
    requires Enabled(r) && !r.locked && !r.ris && r.value == r.load
    requires forall op | op in ops :: Routine(op)
    ensures (forall k | 0 <= k <= |ops| :: !Run(r, ops[..k]).ris)
       <==> (forall k | 0 <= k <= |ops| :: TicksSinceKick(ops[..k]) <= r.load)
  {
    forall k | 0 <= k <= |ops|
      ensures Run(r, ops[..k]).ris <==> TicksSinceKick(ops[..k]) > r.load
    {
      RisIffNotKicked(r, ops[..k]);
    }
  }

  /** Neither a reset nor a write to LOAD, CONTROL, INTCLR or LOCK. */
  predicate Undisturbing(op: Op) {
    !op.Reset? && (op.BusWrite? ==> op.offset !in {0x00, 0x08, 0x0C, 0xC00})
  }

  function TicksIn(ops: seq<Op>): nat {
    if ops == [] then 0 else TicksIn(ops[..|ops| - 1]) + (if ops[|ops| - 1].ClockTick? then 1 else 0)
  }

  lemma UndisturbedStep(r: Regs, op: Op)
    requires Undisturbing(op)
    ensures Step(r, op) == if op.ClockTick? then Tick(r) else r
  {
    hide Tick;
  }

  lemma {:induction false} UndisturbedRun(r: Regs, first: Op, ops: seq<Op>)
    requires forall op | op in ops :: Undisturbing(op)
    ensures Run(r, [first] + ops) == Ticks(Step(r, first), TicksIn(ops))
  {
    hide Step, Tick, Undisturbing;
    var all := [first] + ops;
    if ops == [] {
      assert all == [first] && all[..0] == [];
    } else {
      var front, op := ops[..|ops| - 1], ops[|ops| - 1];
      assert op in ops;
      UndisturbedRun(r, first, front);
      UndisturbedStep(Run(r, [first] + front), op);
      assert all[..|all| - 1] == [first] + front;
    }
  }

  /** An unlocked write of v to LOAD reloads VALUE with it: undisturbed, more than v ticks set RIS. */
  lemma LoadCountsDown(r: Regs, v: Word, ops: seq<Op>)
    requires !r.locked && 0 in r.ctrl && !r.ris && forall op | op in ops :: Undisturbing(op)
    ensures var s := Run(r, [BusWrite(0x00, v)] + ops);
      && (s.ris <==> TicksIn(ops) > v)
      && (TicksIn(ops) <= v ==> s.value == v - TicksIn(ops))
  {
    var loaded := r.(load := v, value := v);
    assert Step(r, BusWrite(0x00, v)) == loaded;
    hide Step, Run, Undisturbing, Ticks;
    UndisturbedRun(r, BusWrite(0x00, v), ops);
    SetsAfterValuePlusOne(loaded, TicksIn(ops));
    FirstRound(loaded, TicksIn(ops));
  }

  lemma FirstRound(r: Regs, n: nat)
    requires Enabled(r) && r.value == r.load
    ensures n <= r.load ==> Ticks(r, n).value == r.load - n
  {
    TicksInClosedForm(r, n);
    if n <= r.load {
      ModuloIs(n, r.load + 1, 0, n);
    }
  }

  predicate Unlocks(op: Op) {
    op.BusWrite? && op.offset == WDT_LOCK && op.v == UNLOCK
  }

  /** A locked watchdog keeps LOAD and CONTROL, and RIS never falls. */
  lemma {:induction false} LockHolds(r: Regs, ops: seq<Op>)
    requires r.locked
    requires forall op | op in ops :: !op.Reset? && !Unlocks(op)
    ensures var s := Run(r, ops); s.locked && s.load == r.load && s.ctrl == r.ctrl && (r.ris ==> s.ris)
  {
    if ops != [] {
      assert ops[|ops| - 1] in ops;
      LockHolds(r, ops[..|ops| - 1]);
    }
  }

  /** Until it is unlocked after reset the watchdog cannot raise its irq or ask for a reset. */
  lemma {:induction false} SilentUntilUnlocked(ops: seq<Op>)
    requires forall op | op in ops :: !Unlocks(op)
    ensures Run(AT_RESET, ops) == AT_RESET
    ensures !IrqLevel(Run(AT_RESET, ops)) && !RstLevel(Run(AT_RESET, ops))
  {
    if ops != [] {
      assert ops[|ops| - 1] in ops;
      SilentUntilUnlocked(ops[..|ops| - 1]);
    }
  }
}
