// The PL011-lite UART: loopback FIFO and raw/masked interrupt status (peripherals/uart_pl011.h).
module Uart {
  import opened Words
  import opened Tlm

  const UART_DR: Word := 0x00
  const UART_FR: Word := 0x18
  const UART_IBRD: Word := 0x24
  const UART_FBRD: Word := 0x28
  const UART_LCRH: Word := 0x2C
  const UART_CR: Word := 0x30
  const UART_IMSC: Word := 0x38
  const UART_RIS: Word := 0x3C
  const UART_MIS: Word := 0x40
  const UART_ICR: Word := 0x44
  const UART_PID0: Word := 0xFE0

  const FR_TXFE: nat := 7
  const FR_RXFF: nat := 6
  const FR_TXFF: nat := 5
  const FR_RXFE: nat := 4

  const CR_UARTEN: nat := 0
  const CR_LBE: nat := 7
  const CR_TXE: nat := 8
  const CR_RXE: nat := 9

  const LCRH_FEN: Word := 0x10
  const INT_RX: nat := 4
  const INT_TX: nat := 5

  const FIFO_DEPTH: nat := 16
  const PID0_VALUE: Word := 0x11
  const ACCESS_TIME: nat := 20

  datatype Regs = Regs(
    cr: Bits, lcrh: Word, ibrd: Word, fbrd: Word, imsc: Bits, ris: Bits, tx: seq<Byte>, rx: seq<Byte>)

  const AT_RESET := Regs({CR_UARTEN, CR_TXE, CR_RXE}, LCRH_FEN, 1, 0, {}, {INT_TX}, [], [])

  predicate IrqLevel(r: Regs) {
    r.ris * r.imsc != {}
  }

  function Flags(r: Regs): Bits {
    (if r.tx == [] then {FR_TXFE} else {})
    + (if |r.tx| >= FIFO_DEPTH then {FR_TXFF} else {})
    + (if r.rx == [] then {FR_RXFE} else {})
    + (if |r.rx| >= FIFO_DEPTH then {FR_RXFF} else {})
  }

  /** A byte written to DR is looped back into the RX FIFO. */
  predicate LoopsBack(r: Regs) {
    CR_LBE in r.cr && CR_RXE in r.cr
  }

  predicate Accepts(r: Regs) {
    LoopsBack(r) && |r.rx| < FIFO_DEPTH
  }

  function Transmit(r: Regs, ch: Byte): Regs {
    if Accepts(r) then r.(rx := r.rx + [ch], ris := r.ris + {INT_RX, INT_TX})
    else r.(ris := r.ris + {INT_TX})
  }

  /** A DR read takes the oldest byte; every other read leaves the registers alone. */
  function ReadEffect(r: Regs, offset: Word): Regs {
    if offset == UART_DR && r.rx != [] then
      r.(rx := r.rx[1..], ris := if |r.rx| == 1 then r.ris - {INT_RX} else r.ris)
    else r
  }

  function ReadReg(r: Regs, offset: Word): Word {
    if offset == UART_DR then (if r.rx == [] then 0 else r.rx[0])
    else if offset == UART_FR then ToWord(Flags(r))
    else if offset == UART_IBRD then r.ibrd
    else if offset == UART_FBRD then r.fbrd
    else if offset == UART_LCRH then r.lcrh
    else if offset == UART_CR then ToWord(r.cr)
    else if offset == UART_IMSC then ToWord(r.imsc)
    else if offset == UART_RIS then ToWord(r.ris)
    else if offset == UART_MIS then ToWord(r.ris * r.imsc)
    else if offset == UART_PID0 then PID0_VALUE
    else 0
  }

  function WriteReg(r: Regs, offset: Word, v: Word): Regs {
    if offset == UART_DR then Transmit(r, v % 256)
    else if offset == UART_IBRD then r.(ibrd := v % 0x1_0000)
    else if offset == UART_FBRD then r.(fbrd := v % 0x40)
    else if offset == UART_LCRH then r.(lcrh := v)
    else if offset == UART_CR then r.(cr := ToBits(v))
    else if offset == UART_IMSC then r.(imsc := ToBits(v))
    else if offset == UART_ICR then r.(ris := r.ris - ToBits(v))
    else r
  }

  /** Note that a read takes effect before the payload is checked. */
  function Transport(r: Regs, t: Txn): (Regs, Outcome) {
    match t.command
    case Read => (ReadEffect(r, Offset(t)), ReadReply(t, ReadReg(r, Offset(t)), ACCESS_TIME))
    case Write =>
      (if Fault(t).None? then WriteReg(r, Offset(t), FromBytes(t.data)) else r, WriteReply(t, ACCESS_TIME))
    case Ignore => (r, Refuse(t, CommandError))
  }

  /** Does the transaction notify irq_ev_? */
  predicate Notifies(r: Regs, t: Txn) {
    match t.command
    case Read => Offset(t) == UART_DR && r.rx != []
    case Write => Fault(t).None? && Offset(t) in {UART_DR, UART_IMSC, UART_ICR}
    case Ignore => false
  }

  /** The output level cannot change behind drive_irq()'s back. */
  lemma LevelChangesOnlyWithNotice(r: Regs, t: Txn)
    requires !Notifies(r, t)
    ensures IrqLevel(Transport(r, t).0) == IrqLevel(r)
  {
  }

  // ----- the SystemC module

  class UartPl011 {
    var cr: Bits
    var lcrh: Word
    var ibrd: Word
    var fbrd: Word
    var imsc: Bits
    var ris: Bits
    var tx: seq<Byte>
    var rx: seq<Byte>
    var irqEvent: bool  // irq_ev_ was notified

    constructor ()
      ensures View() == AT_RESET && !irqEvent
    {
      cr, lcrh, ibrd, fbrd := {CR_UARTEN, CR_TXE, CR_RXE}, LCRH_FEN, 1, 0;
      imsc, ris, tx, rx, irqEvent := {}, {INT_TX}, [], [], false;
    }

    function View(): Regs
      reads this
    {
      Regs(cr, lcrh, ibrd, fbrd, imsc, ris, tx, rx)
    }

    method DriveIrq() returns (irq: bool)
      ensures irq == IrqLevel(View())
    {
      irq := ris * imsc != {};
    }

    method ReadFlags() returns (fr: Bits)
      ensures Sane(View()) ==> FR_TXFE in fr && FR_TXFF !in fr
      ensures FR_RXFE in fr <==> rx == []
      ensures Sane(View()) ==> (FR_RXFF in fr <==> |rx| == FIFO_DEPTH)
      ensures fr <= {FR_TXFE, FR_TXFF, FR_RXFE, FR_RXFF}
      ensures fr == Flags(View())
    {
      fr := {};
      if tx == [] { fr := fr + {FR_TXFE}; }
      if |tx| >= FIFO_DEPTH { fr := fr + {FR_TXFF}; }
      if rx == [] { fr := fr + {FR_RXFE}; }
      if |rx| >= FIFO_DEPTH { fr := fr + {FR_RXFF}; }
    }

    method OnReset(reset: bool)
      modifies this
      ensures View() == if reset then AT_RESET else old(View())
      ensures irqEvent == (old(irqEvent) || reset)
    {
      if !reset {
        return;
      }
      cr, lcrh, ibrd, fbrd := {CR_UARTEN, CR_TXE, CR_RXE}, LCRH_FEN, 1, 0;
      imsc, ris, tx, rx := {}, {INT_TX}, [], [];
      irqEvent := true;
    }

    method TransmitByte(ch: Byte)
      modifies this
      ensures View() == Transmit(old(View()), ch) && irqEvent
    {
      if CR_LBE in cr && CR_RXE in cr && |rx| < FIFO_DEPTH {
        rx := rx + [ch];
        ris := ris + {INT_RX};
      }
      ris := ris + {INT_TX};
      irqEvent := true;
    }

    method BTransport(p: Payload, delay: nat) returns (delay': nat)
      modifies this, p
      ensures delay' >= delay
      ensures (View(), Outcome(p.View(), delay' - delay)) == Transport(old(View()), old(p.View()))
      ensures irqEvent == (old(irqEvent) || Notifies(old(View()), old(p.View())))
    {
      delay' := delay;
      var off: Word := p.address % WORD_LIMIT;
      if p.command == Read {
        var v: Word := 0;
        if off == UART_DR {
          if rx != [] {
            v := rx[0];
            rx := rx[1..];
            if rx == [] {
              ris := ris - {INT_RX};
            }
            irqEvent := true;
          }
        } else if off == UART_FR {
          var fr := ReadFlags();
          v := ToWord(fr);
        } else if off == UART_IBRD { v := ibrd; }
        else if off == UART_FBRD { v := fbrd; }
        else if off == UART_LCRH { v := lcrh; }
        else if off == UART_CR { v := ToWord(cr); }
        else if off == UART_IMSC { v := ToWord(imsc); }
        else if off == UART_RIS { v := ToWord(ris); }
        else if off == UART_MIS { v := ToWord(ris * imsc); }
        else if off == UART_PID0 { v := PID0_VALUE; }
        var ok := PackU32(p, v);
        if !ok {
          return;
        }
      } else if p.command == Write {
        var ok, v := UnpackU32(p);
        if !ok {
          return;
        }
        BytesRoundTrip(v);
        if off == UART_DR { TransmitByte(v % 256); }
        else if off == UART_IBRD { ibrd := v % 0x1_0000; }
        else if off == UART_FBRD { fbrd := v % 0x40; }
        else if off == UART_LCRH { lcrh := v; }
        else if off == UART_CR { cr := ToBits(v); }
        else if off == UART_IMSC { imsc := ToBits(v); irqEvent := true; }
        else if off == UART_ICR { ris := ris - ToBits(v); irqEvent := true; }
      } else {
        p.status := CommandError;
        return;
      }
      p.status := Okay;
      delay' := delay + ACCESS_TIME;
    }
  }

  // ----- runs

  datatype Op = BusRead(offset: Word) | BusWrite(offset: Word, v: Word) | Reset

  function Step(r: Regs, op: Op): Regs {
    match op
    case BusRead(offset) => ReadEffect(r, offset)
    case BusWrite(offset, v) => WriteReg(r, offset, v)
    case Reset => AT_RESET
  }

  function Run(r: Regs, ops: seq<Op>): Regs {
    if ops == [] then r else Step(Run(r, ops[..|ops| - 1]), ops[|ops| - 1])
  }

  lemma RunSnoc(r: Regs, ops: seq<Op>, op: Op)
    ensures Run(r, ops + [op]) == Step(Run(r, ops), op)
  {
    assert (ops + [op])[..|ops|] == ops;
  }

  predicate DrWrite(op: Op) { op.BusWrite? && op.offset == UART_DR }
  predicate DrRead(op: Op) { op.BusRead? && op.offset == UART_DR }

  /** What one operation puts into the RX FIFO, and what it returns from it. */
  function AcceptedBy(r: Regs, op: Op): seq<Byte> {
    if DrWrite(op) && Accepts(r) then [op.v % 256] else []
  }

  function PoppedBy(r: Regs, op: Op): seq<Byte> {
    if DrRead(op) && r.rx != [] then [ReadReg(r, UART_DR)] else []
  }

  /** The bytes that entered the RX FIFO since the last reset, oldest first. */
  function Accepted(r: Regs, ops: seq<Op>): seq<Byte> {
    if ops == [] then [] else
      var front, op := ops[..|ops| - 1], ops[|ops| - 1];
      if op.Reset? then [] else Accepted(r, front) + AcceptedBy(Run(r, front), op)
  }

  /** The bytes DR reads have returned from a non-empty FIFO since the last reset, oldest first. */
  function Popped(r: Regs, ops: seq<Op>): seq<Byte> {
    if ops == [] then [] else
      var front, op := ops[..|ops| - 1], ops[|ops| - 1];
      if op.Reset? then [] else Popped(r, front) + PoppedBy(Run(r, front), op)
  }

  /** The low bytes of all DR writes, in order. */
  function Written(ops: seq<Op>): seq<Byte> {
    if ops == [] then [] else
      var op := ops[|ops| - 1];
      Written(ops[..|ops| - 1]) + (if DrWrite(op) then [op.v % 256] else [])
  }

  /** The FIFO never overfills, nothing ever waits to be sent, and RIS holds only RX, then with a byte
      to read, and TX. */
  predicate Sane(r: Regs) {
    && |r.rx| <= FIFO_DEPTH
    && r.tx == []
    && r.ris <= {INT_RX, INT_TX}
    && (INT_RX in r.ris ==> r.rx != [])
  }

  lemma StepKeepsSane(r: Regs, op: Op)
    requires Sane(r)
    ensures Sane(Step(r, op))
  {
  }

  /** No operation but a reset loses or invents a byte. */
  lemma StepConserves(r: Regs, op: Op)
    requires !op.Reset?
    ensures r.rx + AcceptedBy(r, op) == PoppedBy(r, op) + Step(r, op).rx
  {
    if DrRead(op) && r.rx != [] {
      assert r.rx == [r.rx[0]] + r.rx[1..];
    }
  }

  lemma {:induction false} AlwaysSane(ops: seq<Op>)
    ensures var r := Run(AT_RESET, ops); Sane(r) && FR_TXFE in Flags(r) && FR_TXFF !in Flags(r)
  {
    if ops != [] {
      AlwaysSane(ops[..|ops| - 1]);
      StepKeepsSane(Run(AT_RESET, ops[..|ops| - 1]), ops[|ops| - 1]);
    }
  }

  /** Over any run the bytes accepted are the bytes popped followed by the FIFO's contents. */
  lemma {:induction false} FifoHistory(ops: seq<Op>)
    ensures Accepted(AT_RESET, ops) == Popped(AT_RESET, ops) + Run(AT_RESET, ops).rx
  {
    if ops != [] && !ops[|ops| - 1].Reset? {
      var front, op := ops[..|ops| - 1], ops[|ops| - 1];
      var r := Run(AT_RESET, front);
      FifoHistory(front);
      StepConserves(r, op);
      QueueMoves(Accepted(AT_RESET, front), Popped(AT_RESET, front), r.rx,
                 AcceptedBy(r, op), PoppedBy(r, op), Step(r, op).rx);
    }
  }

  /** Is the latest of {byte accepted, RX cleared through ICR} a clear? */
  predicate RxCleared(r: Regs, ops: seq<Op>) {
    ops == [] ||
    var front, op := ops[..|ops| - 1], ops[|ops| - 1];
    if op.Reset? then true
    else if DrWrite(op) && Accepts(Run(r, front)) then false
    else (op.BusWrite? && op.offset == UART_ICR && INT_RX in ToBits(op.v)) || RxCleared(r, front)
  }

  /** RIS.RX means "bytes waiting" only while no ICR write has cleared it since the last byte came in. */
  lemma {:induction false} RxStatusExactly(ops: seq<Op>)
    ensures var r := Run(AT_RESET, ops); INT_RX in r.ris <==> r.rx != [] && !RxCleared(AT_RESET, ops)
  {
    if ops != [] {
      RxStatusExactly(ops[..|ops| - 1]);
    }
  }

  /** The natural reading of RIS.RX is false: enable loopback, send a byte, clear RX through ICR, and the
      byte waits with the bit clear. */
  lemma RxStatusClearedWithDataQueued(cr: Word, b: Byte, icr: Word)
    requires {CR_LBE, CR_RXE} <= ToBits(cr) && INT_RX in ToBits(icr)
    ensures var r := Run(AT_RESET, [BusWrite(UART_CR, cr), BusWrite(UART_DR, b), BusWrite(UART_ICR, icr)]);
      r.rx == [b] && INT_RX !in r.ris
  {
    var ops := [BusWrite(UART_CR, cr), BusWrite(UART_DR, b), BusWrite(UART_ICR, icr)];
    assert ops[..2] + [ops[2]] == ops && ops[..1] + [ops[1]] == ops[..2] && [] + [ops[0]] == ops[..1];
    RunSnoc(AT_RESET, ops[..2], ops[2]);
    RunSnoc(AT_RESET, ops[..1], ops[1]);
    RunSnoc(AT_RESET, [], ops[0]);
    assert Run(AT_RESET, ops[..1]) == AT_RESET.(cr := ToBits(cr));
    assert Run(AT_RESET, ops[..2]).rx == [b];
  }

  /** Loopback stays configured: no reset, and every CR write keeps LBE and RXE. */
  predicate KeepsLoopback(op: Op) {
    !op.Reset? && (op.BusWrite? && op.offset == UART_CR ==> CR_LBE in ToBits(op.v) && CR_RXE in ToBits(op.v))
  }

  /** At no moment of the run are more than 16 written bytes unread. */
  predicate NeverOverfull(r: Regs, ops: seq<Op>) {
    |Written(ops)| <= |Popped(r, ops)| + FIFO_DEPTH && (ops == [] || NeverOverfull(r, ops[..|ops| - 1]))
  }

  lemma LoopbackStep(r: Regs, op: Op)
    requires LoopsBack(r) && KeepsLoopback(op)
    requires DrWrite(op) ==> |r.rx| < FIFO_DEPTH
    ensures LoopsBack(Step(r, op))
    ensures AcceptedBy(r, op) == if DrWrite(op) then [op.v % 256] else []
  {
  }

  /** In loopback, as long as at most 16 bytes are ever unread, reads return exactly the written bytes in order. */
  lemma {:induction false} LoopbackDelivers(r: Regs, ops: seq<Op>)
    requires LoopsBack(r) && r.rx == []
    requires forall op | op in ops :: KeepsLoopback(op)
    requires NeverOverfull(r, ops)
    ensures LoopsBack(Run(r, ops))
    ensures Written(ops) == Popped(r, ops) + Run(r, ops).rx
  {
    if ops != [] {
      var front, op := ops[..|ops| - 1], ops[|ops| - 1];
      assert op in ops;
      LoopbackDelivers(r, front);
      var s := Run(r, front);
      StepConserves(s, op);
      assert Popped(r, ops) == Popped(r, front) + PoppedBy(s, op);
      LoopbackStep(s, op);
      QueueMoves(Written(front), Popped(r, front), s.rx, AcceptedBy(s, op), PoppedBy(s, op), Step(s, op).rx);
    }
  }

  /** A refused read of DR still loses a byte, so the guarantee must come from the payloads that reach DR. */
  lemma RefusedReadPops(r: Regs, t: Txn)
    requires t.command == Read && Offset(t) == UART_DR && r.rx != []
    ensures Transport(r, t).0.rx == r.rx[1..]
    ensures Transport(r, t).1.txn.status.Okay? <==> |t.data| == 4 && t.width >= 4 && t.address % 4 == 0
  {
  }
}
