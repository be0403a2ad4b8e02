// The UART as the guest sees it (peripherals/uart_pl011.h): loopback, FIFO, status.
module UartView {
  import opened Words
  import opened Tlm
  import opened MemoryMap
  import opened Soc
  import opened Machine
  import opened Registers
  import Timer
  import Uart
  import Watchdog

  // ----- histories

  predicate ReadsDr(e: Event) {
    e.Access? && e.command == Read && e.address == 0x1_1000
  }

  /** The last event is a write to DR that finds loopback and the receiver on and less than 16 bytes waiting. */
  predicate Receives(es: seq<Event>)
    decreases |es|, 0
  {
    es != [] && Writes(es[|es| - 1], 0x1_1000) &&
    var front := es[..|es| - 1];
    {7, 9} <= ToBits(LastWord(front, 0x1_1030, 0x301)) && |Queue(front)| < 16
  }

  /** The bytes waiting, oldest first. */
  function Queue(es: seq<Event>): seq<Byte>
    decreases |es|, 1
  {
    if es == [] || Cleared(es) then [] else
      var front, e := es[..|es| - 1], es[|es| - 1];
      if Receives(es) then Queue(front) + [e.value % 256]
      else if ReadsDr(e) && Queue(front) != [] then Queue(front)[1..]
      else Queue(front)
  }

  /** Status RX: a byte has come in since it was last cleared, and there is still one waiting. */
  predicate RxPends(es: seq<Event>) {
    es != [] && !Cleared(es) &&
    var front, e := es[..|es| - 1], es[|es| - 1];
    Receives(es) || (RxPends(front) && Queue(es) != [] && !(Writes(e, 0x1_1044) && 4 in ToBits(e.value)))
  }

  /** Status TX: not cleared since the last write to DR, or reset. */
  predicate TxPends(es: seq<Event>) {
    es == [] || Cleared(es) ||
    var e := es[|es| - 1];
    Writes(e, 0x1_1000) || (TxPends(es[..|es| - 1]) && !(Writes(e, 0x1_1044) && 5 in ToBits(e.value)))
  }

  function RisOf(es: seq<Event>): Bits {
    (if RxPends(es) then {4} else {}) + (if TxPends(es) then {5} else {})
  }

  function ImscOf(es: seq<Event>): Bits {
    ToBits(LastWord(es, 0x1_1038, 0))
  }

  /** The registers that the history stands for. */
  function UartOf(es: seq<Event>): Uart.Regs {
    Uart.Regs(ToBits(LastWord(es, 0x1_1030, 0x301)), LastWord(es, 0x1_102C, 0x10),
              LastWord(es, 0x1_1024, 1) % 0x1_0000, LastWord(es, 0x1_1028, 0) % 0x40,
              ImscOf(es), RisOf(es), [], Queue(es))
  }

  // ----- one event

  lemma UartAt(s: SocRegs, d: Device, t: Txn)
    requires |t.data| == 4 && t.width == 4 && t.address < PL_SLOT_SIZE
    ensures DeviceAccess(s, d, t, NO_EDGES).0.uart ==
      if d.UartPort? && t.command == Write && t.address % 4 == 0
      then Uart.WriteReg(s.uart, t.address, FromBytes(t.data))
      else if d.UartPort? && t.command == Read then Uart.ReadEffect(s.uart, t.address)
      else s.uart
    ensures d.UartPort? && t.command == Read && t.address % 4 == 0 ==>
      var o := DeviceAccess(s, d, t, NO_EDGES).1;
      o.txn.status == Okay && o.txn.data == ToBytes(Uart.ReadReg(s.uart, t.address))
  {
    hide ToBytes, FromBytes, Uart.ReadReg, Uart.WriteReg, Uart.ReadEffect;
  }

  lemma UartAccess(s: SocRegs, e: Event)
    requires e.Access?
    ensures AccessEffect(s, e).0.uart ==
      if 0x1_1000 <= e.address < 0x1_2000 && e.command == Write && e.address % 4 == 0
      then Uart.WriteReg(s.uart, e.address - 0x1_1000, e.value)
      else if 0x1_1000 <= e.address < 0x1_2000 && e.command == Read
      then Uart.ReadEffect(s.uart, e.address - 0x1_1000)
      else s.uart
    ensures 0x1_1000 <= e.address < 0x1_2000 && e.command == Read && e.address % 4 == 0 ==>
      && AccessEffect(s, e).1.txn.status == Okay
      && AccessEffect(s, e).1.txn.data == ToBytes(Uart.ReadReg(s.uart, e.address - 0x1_1000))
  {
    hide DeviceAccess, FlatMap, ToBytes, FromBytes, Uart.ReadReg, Uart.WriteReg, Uart.ReadEffect;
    WindowsInNumbers(e.address);
    if FlatMap(e.address).Some? {
      var t := FlatMap(e.address).value;
      FlatMapIsTheOneSlot(e.address, t.device);
      UartAt(s, t.device, ServerTxn(e.command, e.address, e.value).(address := t.offset));
      BytesRoundTrip(e.value);
    }
  }

  lemma UartStep(m: State, e: Event)
    ensures Step(m, e).regs.uart ==
      if Resets(m, e) then Uart.AT_RESET
      else if e.Access? && 0x1_1000 <= e.address < 0x1_2000 && e.command == Write && e.address % 4 == 0
      then Uart.WriteReg(m.regs.uart, e.address - 0x1_1000, e.value)
      else if ReadsDr(e) then Uart.ReadEffect(m.regs.uart, 0)
      else m.regs.uart
  {
    hide AccessEffect, Uart.WriteReg, Watchdog.Tick, Timer.Edge, RstLine;
    if e.Access? {
      UartAccess(m.regs, e);
    }
  }

  // ----- every history

  lemma InitialControl()
    ensures ToBits(0x301) == {0, 8, 9}
  {
    BitsAreThese(0x301, {0, 8, 9}, 10);
  }

  lemma WriteInHistory(es: seq<Event>)
    requires es != [] && es[|es| - 1].Access? && es[|es| - 1].command == Write
    requires Now(es[..|es| - 1]).regs.uart == UartOf(es[..|es| - 1])
    ensures Now(es).regs.uart == UartOf(es)
  {
    hide Step, ToBits, Held;
    UartStep(Now(es[..|es| - 1]), es[|es| - 1]);
  }

  lemma ReadInHistory(es: seq<Event>)
    requires es != [] && es[|es| - 1].Access? && es[|es| - 1].command == Read
    requires Now(es[..|es| - 1]).regs.uart == UartOf(es[..|es| - 1])
    requires RxPends(es[..|es| - 1]) ==> Queue(es[..|es| - 1]) != []
    ensures Now(es).regs.uart == UartOf(es)
  {
    hide Step, ToBits, Held;
    UartStep(Now(es[..|es| - 1]), es[|es| - 1]);
  }

  /** All registers, as functions of the history; at most 16 bytes wait. */
  lemma {:induction false} UartHistory(es: seq<Event>)
    ensures Now(es).regs.uart == UartOf(es) && |Queue(es)| <= 16 && (RxPends(es) ==> Queue(es) != [])
  {
    InitialControl();
    ZeroHasNoBits();
    hide Step, Held, ToBits;
    if es != [] {
      var front, e := es[..|es| - 1], es[|es| - 1];
      UartHistory(front);
      HeldIsReset(front);
      if e.Access? && e.command == Write {
        WriteInHistory(es);
      } else if e.Access? && e.command == Read {
        ReadInHistory(es);
      } else {
        UartStep(Now(front), e);
      }
    }
  }

  // ----- what the guest reads

  lemma FlagWords()
    ensures ToWord({7, 4}) == 0x90 && ToWord({7, 6}) == 0xC0 && ToWord({7}) == 0x80
  {
    hide ToBits, ToWord;
    BitsAreThese(0x90, {7, 4}, 8);
    BitsAreThese(0xC0, {7, 6}, 8);
    BitsAreThese(0x80, {7}, 8);
  }

  function FlagsOf(queue: seq<Byte>): Word {
    if queue == [] then 0x90 else if |queue| == 16 then 0xC0 else 0x80
  }

  lemma FlagsInNumbers(r: Uart.Regs)
    requires r.tx == [] && |r.rx| <= 16
    ensures ToWord(Uart.Flags(r)) == FlagsOf(r.rx)
  {
    hide ToWord;
    FlagWords();
    assert Uart.Flags(r) == if r.rx == [] then {7, 4} else if |r.rx| == 16 then {7, 6} else {7};
  }

  lemma StatusWords(es: seq<Event>)
    ensures ToWord(RisOf(es)) == (if RxPends(es) then 0x10 else 0) + (if TxPends(es) then 0x20 else 0)
  {
    hide ToBits, ToWord, RxPends, TxPends;
    BitsAreThese(0x30, {4, 5}, 6);
    BitsAreThese(0x10, {4}, 6);
    BitsAreThese(0x20, {5}, 6);
    BitsAreThese(0, {}, 6);
    assert RisOf(es) == if RxPends(es) then (if TxPends(es) then {4, 5} else {4}) else if TxPends(es) then {5} else {};
  }

  lemma ReadsReg(es: seq<Event>, a: Word)
    requires 0x1_1000 <= a < 0x1_2000 && a % 4 == 0
    ensures Reads(Now(es), a, Uart.ReadReg(UartOf(es), a - 0x1_1000))
  {
    hide AccessEffect, Run, ToBytes, UartOf, Uart.ReadReg;
    UartHistory(es);
    UartAccess(Now(es).regs, Access(Read, a, 0));
  }

  lemma DataRegs(r: Uart.Regs)
    ensures Uart.ReadReg(r, 0x00) == if r.rx == [] then 0 else r.rx[0]
    ensures Uart.ReadReg(r, 0x24) == r.ibrd && Uart.ReadReg(r, 0x28) == r.fbrd && Uart.ReadReg(r, 0x2C) == r.lcrh
    ensures Uart.ReadReg(r, 0x30) == ToWord(r.cr) && Uart.ReadReg(r, 0x38) == ToWord(r.imsc)
    ensures Uart.ReadReg(r, 0xFE0) == 0x11
  {
    hide ToWord, Uart.Flags;
  }

  lemma PlainRegs(es: seq<Event>)
    ensures Uart.ReadReg(UartOf(es), 0x00) == if Queue(es) == [] then 0 else Queue(es)[0]
    ensures Uart.ReadReg(UartOf(es), 0x24) == LastWord(es, 0x1_1024, 1) % 0x1_0000
    ensures Uart.ReadReg(UartOf(es), 0x28) == LastWord(es, 0x1_1028, 0) % 0x40
    ensures Uart.ReadReg(UartOf(es), 0x2C) == LastWord(es, 0x1_102C, 0x10)
    ensures Uart.ReadReg(UartOf(es), 0x30) == LastWord(es, 0x1_1030, 0x301)
    ensures Uart.ReadReg(UartOf(es), 0x38) == LastWord(es, 0x1_1038, 0)
    ensures Uart.ReadReg(UartOf(es), 0xFE0) == 0x11
  {
    hide ToBits, ToWord, LastWord, Queue, RisOf, Uart.ReadReg;
    DataRegs(UartOf(es));
    WordOfBits(LastWord(es, 0x1_1030, 0x301));
    WordOfBits(LastWord(es, 0x1_1038, 0));
  }

  lemma StatusRegs(es: seq<Event>)
    requires |Queue(es)| <= 16
    ensures Uart.ReadReg(UartOf(es), 0x18) == FlagsOf(Queue(es))
    ensures Uart.ReadReg(UartOf(es), 0x3C) == (if RxPends(es) then 0x10 else 0) + (if TxPends(es) then 0x20 else 0)
    ensures Uart.ReadReg(UartOf(es), 0x40) == ToWord(RisOf(es) * ImscOf(es))
  {
    hide ToBits, ToWord, Queue, RisOf, RxPends, TxPends, FlagsOf, Uart.Flags;
    FlagsInNumbers(UartOf(es));
    StatusWords(es);
  }

  /** Every register of the block, read after any history: DR gives the oldest byte, FR empty and full, RIS and MIS
      what pends. */
  lemma UartReads(es: seq<Event>)
    ensures Reads(Now(es), 0x1_1000, if Queue(es) == [] then 0 else Queue(es)[0])
    ensures Reads(Now(es), 0x1_1018, FlagsOf(Queue(es)))
    ensures Reads(Now(es), 0x1_1024, LastWord(es, 0x1_1024, 1) % 0x1_0000)
    ensures Reads(Now(es), 0x1_1028, LastWord(es, 0x1_1028, 0) % 0x40)
    ensures Reads(Now(es), 0x1_102C, LastWord(es, 0x1_102C, 0x10))
    ensures Reads(Now(es), 0x1_1030, LastWord(es, 0x1_1030, 0x301))
    ensures Reads(Now(es), 0x1_1038, LastWord(es, 0x1_1038, 0))
    ensures Reads(Now(es), 0x1_103C, (if RxPends(es) then 0x10 else 0) + (if TxPends(es) then 0x20 else 0))
    ensures Reads(Now(es), 0x1_1040, ToWord(RisOf(es) * ImscOf(es)))
    ensures Reads(Now(es), 0x1_1FE0, 0x11)
  {
    hide Reads, Now, UartOf, Uart.ReadReg, LastWord, Queue, FlagsOf, RxPends, TxPends, RisOf, ImscOf, ToWord;
    UartHistory(es);
    PlainRegs(es);
    StatusRegs(es);
    ReadsReg(es, 0x1_1000);
    ReadsReg(es, 0x1_1018);
    ReadsReg(es, 0x1_1024);
    ReadsReg(es, 0x1_1028);
    ReadsReg(es, 0x1_102C);
    ReadsReg(es, 0x1_1030);
    ReadsReg(es, 0x1_1038);
    ReadsReg(es, 0x1_103C);
    ReadsReg(es, 0x1_1040);
    ReadsReg(es, 0x1_1FE0);
  }

  /** The other addresses of the window read 0. */
  lemma OtherUartReads(es: seq<Event>, a: Word)
    requires 0x1_1000 <= a < 0x1_2000 && a % 4 == 0
    requires a !in {0x1_1000, 0x1_1018, 0x1_1024, 0x1_1028, 0x1_102C, 0x1_1030, 0x1_1038, 0x1_103C, 0x1_1040, 0x1_1FE0}
    ensures Reads(Now(es), a, 0)
  {
    hide Reads, Now, UartOf, ToWord, Uart.Flags;
    ReadsReg(es, a);
  }
}
