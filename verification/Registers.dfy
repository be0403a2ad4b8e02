// What the guest can know of a device is the history of its bus accesses.  The modules built on this one say, for
// every register at its numeric address, what a read returns as a function of that history alone.
module Registers {
  import opened Words
  import opened Tlm
  import opened MemoryMap
  import opened PinBridge
  import opened Soc
  import opened Machine
  import Timer
  import Gpio
  import Uart
  import SysCtrl
  import Watchdog

  // ----- histories

  /** The state after a history that begins at power-on. */
  function Now(es: seq<Event>): State {
    Run(POWER_ON, es)
  }

  /** Reset is held: from power-on or an assertion up to the next release. */
  predicate Held(es: seq<Event>) {
    es == [] ||
    match es[|es| - 1]
    case AssertReset => true
    case ReleaseReset => false
    case _ => Held(es[..|es| - 1])
  }

  /** The last event is a rising edge of reset. */
  predicate Cleared(es: seq<Event>) {
    es != [] && es[|es| - 1].AssertReset? && !Held(es[..|es| - 1])
  }

  predicate Writes(e: Event, address: Word) {
    e.Access? && e.command == Write && e.address == address
  }

  /** The last word written to the address since reset, or else the initial one. */
  function LastWord(es: seq<Event>, address: Word, initial: Word): Word {
    if es == [] || Cleared(es) then initial
    else if Writes(es[|es| - 1], address) then es[|es| - 1].value
    else LastWord(es[..|es| - 1], address, initial)
  }

  /** A read of the address is answered OK with this word. */
  predicate Reads(m: State, address: Word, value: Word) {
    var o := AccessEffect(m.regs, Access(Read, address, 0)).1;
    o.txn.status == Okay && o.txn.data == ToBytes(value)
  }

  lemma {:induction false} HeldIsReset(es: seq<Event>)
    ensures Now(es).reset == Held(es)
  {
    hide AccessEffect, ResetAll, Watchdog.Tick, Timer.Edge, RstLine;
    if es != [] {
      HeldIsReset(es[..|es| - 1]);
    }
  }

  // ----- which accesses are accepted, and what they cost

  /** The accesses the SoC accepts.  Only the Timer's window does without alignment. */
  predicate Accepted(address: Word) {
    || address < 0x1000
    || (address % 4 == 0 && (0x8000 <= address < 0x9000 || 0x1_0000 <= address < 0x1_4000))
  }

  /** The nanoseconds an accepted access adds to the delay. */
  function Cost(address: Word): nat {
    if address < 0x1_0000 then 20 else if 0x1_2000 <= address < 0x1_3000 then 60 else 70
  }

  function DeviceCost(d: Device): nat {
    match d
    case TimerPort => 10
    case SramPort => 10
    case SysCtrlPort => 10
    case _ => 20
  }

  /** Wherever a Timer access falls among the clock edges. */
  lemma DeviceAccepts(s: SocRegs, d: Device, t: Txn, sch: Schedule)
    requires !t.command.Ignore? && |t.data| == 4 && t.width == 4 && t.address < PL_SLOT_SIZE
    ensures var (s', o) := DeviceAccess(s, d, t, sch);
      && o.txn.status == (if d.TimerPort? || t.address % 4 == 0 then Okay else AddressError)
      && (o.txn.status == Okay ==> o.cost == DeviceCost(d))
      && (o.txn.status != Okay ==> s' == s)
  {
    hide Timer.Edges, Timer.ReadReg, Timer.WriteReg, Gpio.ReadReg, Gpio.WriteReg, Uart.ReadReg, Uart.WriteReg,
         SysCtrl.ReadReg, SysCtrl.WriteReg, Watchdog.ReadReg, Watchdog.WriteReg, ToBytes, FromBytes;
  }

  lemma MappedAccess(s: SocRegs, t: Txn, sch: Schedule)
    requires !t.command.Ignore? && |t.data| == 4 && t.width == 4
    ensures FlatMap(t.address).None? ==> Serve(s, t, sch).0 == s && Serve(s, t, sch).1.txn.status == AddressError
    ensures FlatMap(t.address).Some? ==>
      var (s', o), target := Serve(s, t, sch), FlatMap(t.address).value;
      && o.txn.status == (if target.device.TimerPort? || target.offset % 4 == 0 then Okay else AddressError)
      && (o.txn.status == Okay ==> o.cost == RouteCost(target.device) + DeviceCost(target.device))
      && (o.txn.status != Okay ==> s' == s)
  {
    hide DeviceAccess, RouteCost, DeviceCost;
    if FlatMap(t.address).Some? {
      var target := FlatMap(t.address).value;
      FlatMapIsTheOneSlot(t.address, target.device);
      DeviceAccepts(s, target.device, t.(address := target.offset), sch);
    }
  }

  /** A read or write is accepted by its address alone; a refused one changes nothing. */
  lemma AcceptedExactly(s: SocRegs, command: Command, address: Word, value: Word, sch: Schedule)
    requires !command.Ignore?
    ensures var (s', o) := Serve(s, ServerTxn(command, address, value), sch);
      && (o.txn.status == Okay <==> Accepted(address))
      && (Accepted(address) ==> o.cost == Cost(address))
      && (!Accepted(address) ==> s' == s)
  {
    hide FlatMap, DeviceAccess, Serve;
    WindowsInNumbers(address);
    MappedAccess(s, ServerTxn(command, address, value), sch);
  }

  // ----- memory

  lemma {:induction false} LastWrittenIsLastWord(es: seq<Event>, offset: Word)
    requires offset < 0x1000
    ensures LastWritten(POWER_ON, es, offset) == LastWord(es, 0x8000 + offset, 0)
  {
    hide Run;
    if es != [] {
      LastWrittenIsLastWord(es[..|es| - 1], offset);
      HeldIsReset(es[..|es| - 1]);
    }
  }

  /** Every word of the SRAM reads the last word written to it since reset. */
  lemma SramReads(es: seq<Event>, a: Word)
    requires 0x8000 <= a < 0x9000 && a % 4 == 0
    ensures Reads(Now(es), a, LastWord(es, a, 0))
  {
    hide AccessEffect, Run, LastWord, LastWritten, ToBytes;
    SramReadReturnsLastWrite(es, a - 0x8000);
    LastWrittenIsLastWord(es, a - 0x8000);
  }
}
