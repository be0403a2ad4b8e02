// The GPIO block as the guest sees it (peripherals/gpio_apb.h): pins and pending interrupts, bit by bit.
module GpioView {
  import opened Words
  import opened Tlm
  import opened MemoryMap
  import opened Soc
  import opened Machine
  import opened Registers
  import Timer
  import Gpio
  import Watchdog

  // ----- histories

  /** Bit i of the last word written to the address. */
  predicate BitOf(es: seq<Event>, address: Word, i: nat) {
    i in ToBits(LastWord(es, address, 0))
  }

  predicate Names(e: Event, address: Word, i: nat) {
    Writes(e, address) && i in ToBits(e.value)
  }

  /** The output latch: written by DATA, set by SET, cleared by CLR. */
  predicate Driven(es: seq<Event>, i: nat) {
    es != [] && !Cleared(es) &&
    var e := es[|es| - 1];
    if Writes(e, 0x1_0000) then i in ToBits(e.value)
    else Names(e, 0x1_0008, i) || (!Names(e, 0x1_000C, i) && Driven(es[..|es| - 1], i))
  }

  /** The pin is high: driven, and an output by DIR. */
  predicate High(es: seq<Event>, i: nat) {
    Driven(es, i) && BitOf(es, 0x1_0004, i)
  }

  /** The last event is a write to the block. */
  predicate Touches(es: seq<Event>) {
    es != [] && es[|es| - 1].Access? && es[|es| - 1].command == Write
    && 0x1_0000 <= es[|es| - 1].address < 0x1_1000 && es[|es| - 1].address % 4 == 0
  }

  /** It leaves pin i enabled and at its polarity, and has just moved it there if the pin is edge-type. */
  predicate Raises(es: seq<Event>, i: nat) {
    && Touches(es)
    && BitOf(es, 0x1_0010, i) && (High(es, i) <==> BitOf(es, 0x1_0018, i))
    && (BitOf(es, 0x1_0014, i) ==> High(es, i) != High(es[..|es| - 1], i))
  }

  /** INTSTAT: raised, and not acknowledged through INTCLR since. */
  predicate Pends(es: seq<Event>, i: nat) {
    es != [] && !Cleared(es) &&
    (Raises(es, i) || (Pends(es[..|es| - 1], i) && !Names(es[|es| - 1], 0x1_0020, i)))
  }

  /** The registers r are what the history stands for. */
  ghost predicate Matches(es: seq<Event>, r: Gpio.Regs) {
    && r.dir == ToBits(LastWord(es, 0x1_0004, 0)) && r.inten == ToBits(LastWord(es, 0x1_0010, 0))
    && r.inttype == ToBits(LastWord(es, 0x1_0014, 0)) && r.intpol == ToBits(LastWord(es, 0x1_0018, 0))
    && (forall i :: i in r.out <==> Driven(es, i))
    && (forall i :: i in r.intstat <==> Pends(es, i))
  }

  // ----- one event

  lemma GpioAt(s: SocRegs, d: Device, t: Txn)
    requires |t.data| == 4 && t.width == 4 && t.address < PL_SLOT_SIZE
    ensures DeviceAccess(s, d, t, NO_EDGES).0.gpio ==
      if d.GpioPort? && t.command == Write && t.address % 4 == 0
      then Gpio.WriteReg(s.gpio, t.address, ToBits(FromBytes(t.data))) else s.gpio
    ensures d.GpioPort? && t.command == Read && t.address % 4 == 0 ==>
      var o := DeviceAccess(s, d, t, NO_EDGES).1;
      o.txn.status == Okay && o.txn.data == ToBytes(Gpio.ReadReg(s.gpio, t.address))
  {
    hide ToBytes, FromBytes, ToBits, Gpio.ReadReg, Gpio.WriteReg;
  }

  lemma GpioAccess(s: SocRegs, e: Event)
    requires e.Access?
    ensures AccessEffect(s, e).0.gpio ==
      if 0x1_0000 <= e.address < 0x1_1000 && e.command == Write && e.address % 4 == 0
      then Gpio.WriteReg(s.gpio, e.address - 0x1_0000, ToBits(e.value)) else s.gpio
    ensures 0x1_0000 <= e.address < 0x1_1000 && e.command == Read && e.address % 4 == 0 ==>
      && AccessEffect(s, e).1.txn.status == Okay
      && AccessEffect(s, e).1.txn.data == ToBytes(Gpio.ReadReg(s.gpio, e.address - 0x1_0000))
  {
    hide DeviceAccess, FlatMap, ToBytes, FromBytes, ToBits, Gpio.ReadReg, Gpio.WriteReg;
    WindowsInNumbers(e.address);
    if FlatMap(e.address).Some? {
      var t := FlatMap(e.address).value;
      FlatMapIsTheOneSlot(e.address, t.device);
      GpioAt(s, t.device, ServerTxn(e.command, e.address, e.value).(address := t.offset));
      BytesRoundTrip(e.value);
    }
  }

  lemma GpioStep(m: State, e: Event)
    ensures Step(m, e).regs.gpio ==
      if Resets(m, e) then Gpio.AT_RESET
      else if e.Access? && 0x1_0000 <= e.address < 0x1_1000 && e.command == Write && e.address % 4 == 0
      then Gpio.WriteReg(m.regs.gpio, e.address - 0x1_0000, ToBits(e.value))
      else m.regs.gpio
  {
    hide AccessEffect, ToBits, Gpio.WriteReg, Watchdog.Tick, Timer.Edge, RstLine;
    if e.Access? {
      GpioAccess(m.regs, e);
    }
  }

  // ----- every history

  /** What a write leaves in the registers other than INTSTAT. */
  lemma StoreInHistory(es: seq<Event>, r: Gpio.Regs)
    requires Touches(es) && Matches(es[..|es| - 1], r)
    ensures var e := es[|es| - 1];
      var s := Gpio.Store(r, e.address - 0x1_0000, ToBits(e.value));
      && s.dir == ToBits(LastWord(es, 0x1_0004, 0)) && s.inten == ToBits(LastWord(es, 0x1_0010, 0))
      && s.inttype == ToBits(LastWord(es, 0x1_0014, 0)) && s.intpol == ToBits(LastWord(es, 0x1_0018, 0))
      && (forall i :: i in s.out <==> Driven(es, i))
      && (forall i :: i in s.intstat <==> Pends(es[..|es| - 1], i) && !Names(e, 0x1_0020, i))
  {
    hide ToBits, Held, Pends;
  }

  lemma WriteInHistory(es: seq<Event>)
    requires Touches(es) && Matches(es[..|es| - 1], Now(es[..|es| - 1]).regs.gpio)
    ensures Matches(es, Now(es).regs.gpio)
  {
    hide Step, ToBits, Held, Driven, LastWord;
    var front, e := es[..|es| - 1], es[|es| - 1];
    var r := Now(front).regs.gpio;
    GpioStep(Now(front), e);
    StoreInHistory(es, r);
    var s := Gpio.Store(r, e.address - 0x1_0000, ToBits(e.value));
    hide Gpio.Store;
    forall i
      ensures i in Gpio.Pending(s, Gpio.PinState(r), Gpio.PinState(s)) <==> Raises(es, i)
    {
      PinsInHistory(front, r, i);
      PinsInHistory(es, s, i);
    }
  }

  lemma PinsInHistory(es: seq<Event>, r: Gpio.Regs, i: nat)
    requires r.dir == ToBits(LastWord(es, 0x1_0004, 0)) && (i in r.out <==> Driven(es, i))
    ensures i in Gpio.PinState(r) <==> High(es, i)
  {
    hide ToBits, LastWord, Driven;
  }

  /** All registers, bit by bit, as functions of the history. */
  lemma {:induction false} GpioHistory(es: seq<Event>)
    ensures Matches(es, Now(es).regs.gpio)
  {
    ZeroHasNoBits();
    hide Step, Held, ToBits, Gpio.WriteReg;
    if es != [] {
      var front, e := es[..|es| - 1], es[|es| - 1];
      GpioHistory(front);
      HeldIsReset(front);
      if Touches(es) {
        WriteInHistory(es);
      } else {
        GpioStep(Now(front), e);
      }
    }
  }

  // ----- what the guest reads

  /** A read of the address shows exactly the bits for which p holds. */
  ghost predicate ReadsBits(m: State, address: Word, p: nat -> bool) {
    exists w :: Reads(m, address, w) && forall i | 0 <= i < 32 :: i in ToBits(w) <==> p(i)
  }

  lemma ReadsReg(es: seq<Event>, a: Word)
    requires 0x1_0000 <= a < 0x1_1000 && a % 4 == 0
    ensures Reads(Now(es), a, Gpio.ReadReg(Now(es).regs.gpio, a - 0x1_0000))
  {
    hide AccessEffect, Run, ToBytes, Gpio.ReadReg;
    GpioAccess(Now(es).regs, Access(Read, a, 0));
    assert ServerTxn(Read, a, 0).command == Read;
  }

  lemma BitsRead(m: State, a: Word, s: Bits, p: nat -> bool)
    requires Reads(m, a, ToWord(s)) && forall i | 0 <= i < 32 :: i in s <==> p(i)
    ensures ReadsBits(m, a, p)
  {
    hide Reads, ToWord, ToBits;
    BitsOfWord(s);
  }

  lemma GpioRegs(r: Gpio.Regs)
    ensures Gpio.ReadReg(r, 0x00) == ToWord(Gpio.PinState(r)) && Gpio.ReadReg(r, 0x04) == ToWord(r.dir)
    ensures Gpio.ReadReg(r, 0x10) == ToWord(r.inten) && Gpio.ReadReg(r, 0x14) == ToWord(r.inttype)
    ensures Gpio.ReadReg(r, 0x18) == ToWord(r.intpol) && Gpio.ReadReg(r, 0x1C) == ToWord(r.intstat)
    ensures Gpio.ReadReg(r, 0x24) == 0x4750_494F
    ensures forall o: Word | o !in {0x00, 0x04, 0x10, 0x14, 0x18, 0x1C, 0x24} :: Gpio.ReadReg(r, o) == 0
  {
    hide ToWord, Gpio.PinState;
  }

  /** The registers that hold the last word written. */
  lemma PlainReads(es: seq<Event>, a: Word)
    requires a in {0x1_0004, 0x1_0010, 0x1_0014, 0x1_0018}
    ensures Reads(Now(es), a, LastWord(es, a, 0))
  {
    hide Reads, Run, Gpio.ReadReg, ToBits, ToWord, LastWord, Driven, Pends;
    ReadsReg(es, a);
    GpioHistory(es);
    GpioRegs(Now(es).regs.gpio);
    WordOfBits(LastWord(es, a, 0));
  }

  /** Every register of the block, read after any history: DATA shows the pins, INTSTAT what pends. */
  lemma GpioReads(es: seq<Event>)
    ensures ReadsBits(Now(es), 0x1_0000, (i: nat) => High(es, i))
    ensures forall a: Word | a in {0x1_0004, 0x1_0010, 0x1_0014, 0x1_0018} :: Reads(Now(es), a, LastWord(es, a, 0))
    ensures ReadsBits(Now(es), 0x1_001C, (i: nat) => Pends(es, i))
    ensures Reads(Now(es), 0x1_0024, 0x4750_494F)
    ensures forall a: Word | 0x1_0000 <= a < 0x1_1000 && a % 4 == 0
                             && a !in {0x1_0000, 0x1_0004, 0x1_0010, 0x1_0014, 0x1_0018, 0x1_001C, 0x1_0024} ::
              Reads(Now(es), a, 0)
  {
    hide Reads, ReadsBits, Run, Gpio.ReadReg, Gpio.PinState, ToBits, ToWord, LastWord, Driven, Pends, High;
    var r := Now(es).regs.gpio;
    GpioHistory(es);
    GpioRegs(r);
    ReadsReg(es, 0x1_0000);
    ReadsReg(es, 0x1_001C);
    ReadsReg(es, 0x1_0024);
    forall i: nat
      ensures i in Gpio.PinState(r) <==> High(es, i)
    {
      PinsInHistory(es, r, i);
    }
    BitsRead(Now(es), 0x1_0000, Gpio.PinState(r), (i: nat) => High(es, i));
    BitsRead(Now(es), 0x1_001C, r.intstat, (i: nat) => Pends(es, i));
    forall a: Word | a in {0x1_0004, 0x1_0010, 0x1_0014, 0x1_0018}
      ensures Reads(Now(es), a, LastWord(es, a, 0))
    {
      PlainReads(es, a);
    }
    forall a: Word | 0x1_0000 <= a < 0x1_1000 && a % 4 == 0
                     && a !in {0x1_0000, 0x1_0004, 0x1_0010, 0x1_0014, 0x1_0018, 0x1_001C, 0x1_0024}
      ensures Reads(Now(es), a, 0)
    {
      ReadsReg(es, a);
    }
  }
}
