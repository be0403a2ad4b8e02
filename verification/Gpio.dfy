// The APB GPIO block with per-pin edge and level interrupts (peripherals/gpio_apb.h).
module Gpio {
  import opened Words
  import opened Tlm

  const GPIO_DATA: Word := 0x00
  const GPIO_DIR: Word := 0x04
  const GPIO_SET: Word := 0x08
  const GPIO_CLR: Word := 0x0C
  const GPIO_INTEN: Word := 0x10
  const GPIO_INTTYPE: Word := 0x14
  const GPIO_INTPOL: Word := 0x18
  const GPIO_INTSTAT: Word := 0x1C
  const GPIO_INTCLR: Word := 0x20
  const GPIO_ID: Word := 0x24
  const GPIO_ID_VAL: Word := 0x4750494F

  const ACCESS_TIME: nat := 20

  datatype Regs = Regs(dir: Bits, out: Bits, inten: Bits, inttype: Bits, intpol: Bits, intstat: Bits)

  const AT_RESET := Regs({}, {}, {}, {}, {}, {})

  function PinState(r: Regs): Bits {
    r.out * r.dir
  }

  predicate IrqLevel(r: Regs) {
    r.intstat * r.inten != {}
  }

  /** inten & ~(now ^ intpol) & (~inttype | (before ^ now)): an enabled pin at its polarity pends,
      and an edge-type pin only if it has just moved. */
  function Pending(r: Regs, before: Bits, now: Bits): Bits {
    r.inten * Complement(Xor(now, r.intpol)) * (Complement(r.inttype) + Xor(before, now))
  }

  function ReadReg(r: Regs, offset: Word): Word {
    if offset == GPIO_DATA then ToWord(PinState(r))
    else if offset == GPIO_DIR then ToWord(r.dir)
    else if offset == GPIO_INTEN then ToWord(r.inten)
    else if offset == GPIO_INTTYPE then ToWord(r.inttype)
    else if offset == GPIO_INTPOL then ToWord(r.intpol)
    else if offset == GPIO_INTSTAT then ToWord(r.intstat)
    else if offset == GPIO_ID then GPIO_ID_VAL
    else 0
  }

  /** The register a write lands in, before the interrupt logic looks at the pins. */
  function Store(r: Regs, offset: Word, v: Bits): Regs {
    if offset == GPIO_DATA then r.(out := v)
    else if offset == GPIO_DIR then r.(dir := v)
    else if offset == GPIO_SET then r.(out := r.out + v)
    else if offset == GPIO_CLR then r.(out := r.out - v)
    else if offset == GPIO_INTEN then r.(inten := v)
    else if offset == GPIO_INTTYPE then r.(inttype := v)
    else if offset == GPIO_INTPOL then r.(intpol := v)
    else if offset == GPIO_INTCLR then r.(intstat := r.intstat - v)
    else r
  }

  function WriteReg(r: Regs, offset: Word, v: Bits): Regs {
    var s := Store(r, offset, v);
    s.(intstat := s.intstat + Pending(s, PinState(r), PinState(s)))
  }

  function Transport(r: Regs, t: Txn): (Regs, Outcome) {
    match t.command
    case Read => (r, ReadReply(t, ReadReg(r, Offset(t)), ACCESS_TIME))
    case Write =>
      (if Fault(t).None? then WriteReg(r, Offset(t), ToBits(FromBytes(t.data))) else r, WriteReply(t, ACCESS_TIME))
    case Ignore => (r, Refuse(t, CommandError))
  }

  /** Does the transaction notify irq_ev_? */
  predicate Notifies(t: Txn) {
    t.command == Write && Fault(t).None?
  }

  lemma LevelChangesOnlyWithNotice(r: Regs, t: Txn)
    requires !Notifies(t)
    ensures IrqLevel(Transport(r, t).0) == IrqLevel(r)
  {
  }

  // ----- the SystemC module

  class GpioApb {
    var dir: Bits
    var out: Bits
    var inten: Bits
    var inttype: Bits
    var intpol: Bits
    var intstat: Bits
    var irqEvent: bool  // irq_ev_ was notified

    constructor ()
      ensures View() == AT_RESET && !irqEvent
    {
      dir, out, inten, inttype, intpol, intstat, irqEvent := {}, {}, {}, {}, {}, {}, false;
    }

    function View(): Regs
      reads this
    {
      Regs(dir, out, inten, inttype, intpol, intstat)
    }

    method DriveIrq() returns (irq: bool)
      ensures irq == IrqLevel(View())
    {
      irq := intstat * inten != {};
    }

    method OnReset(reset: bool)
      modifies this
      ensures View() == if reset then AT_RESET else old(View())
      ensures irqEvent == (old(irqEvent) || reset)
    {
      if !reset {
        return;
      }
      dir, out, inten, inttype, intpol, intstat := {}, {}, {}, {}, {}, {};
      irqEvent := true;
    }

    /** The 32-step loop computes the bit-vector formula. */
    method NoteEdges(before: Bits, now: Bits)
      modifies this`intstat, this`irqEvent
      ensures View() == old(View()).(intstat := old(intstat) + Pending(old(View()), before, now))
      ensures irqEvent
    {
      var changed := Xor(before, now);
      var pend: Bits := {};
      for b := 0 to 32
        invariant forall i | i in pend :: i < b
        invariant forall i: nat | i < b :: i in pend <==> i in Pending(View(), before, now)
      {
        if b !in inten {
          continue;
        }
        if b in inttype {
          var rise := b in intpol;
          if b in changed {
            var high := b in now;
            if high == rise {
              pend := pend + {b};
            }
          }
        } else if (b in now) == (b in intpol) {
          pend := pend + {b};
        }
      }
      assert pend == Pending(View(), before, now);
      intstat := intstat + pend;
      irqEvent := true;
    }

    method BTransport(p: Payload, delay: nat) returns (delay': nat)
      modifies this, p
      ensures delay' >= delay
      ensures (View(), Outcome(p.View(), delay' - delay)) == Transport(old(View()), old(p.View()))
      ensures irqEvent == (old(irqEvent) || Notifies(old(p.View())))
    {
      delay' := delay;
      var off: Word := p.address % WORD_LIMIT;
      var before: Bits := out * dir;
      if p.command == Read {
        var v: Word := 0;
        if off == GPIO_DATA { v := ToWord(out * dir); }
        else if off == GPIO_DIR { v := ToWord(dir); }
        else if off == GPIO_INTEN { v := ToWord(inten); }
        else if off == GPIO_INTTYPE { v := ToWord(inttype); }
        else if off == GPIO_INTPOL { v := ToWord(intpol); }
        else if off == GPIO_INTSTAT { v := ToWord(intstat); }
        else if off == GPIO_ID { v := GPIO_ID_VAL; }
        var ok := PackU32(p, v);
        if !ok {
          return;
        }
      } else if p.command == Write {
        var ok, word := UnpackU32(p);
        if !ok {
          return;
        }
        BytesRoundTrip(word);
        var v := ToBits(word);
        if off == GPIO_DATA { out := v; }
        else if off == GPIO_DIR { dir := v; }
        else if off == GPIO_SET { out := out + v; }
        else if off == GPIO_CLR { out := out - v; }
        else if off == GPIO_INTEN { inten := v; }
        else if off == GPIO_INTTYPE { inttype := v; }
        else if off == GPIO_INTPOL { intpol := v; }
        else if off == GPIO_INTCLR { intstat := intstat - v; }
        NoteEdges(before, out * dir);
      } else {
        p.status := CommandError;
        return;
      }
      p.status := Okay;
      delay' := delay + ACCESS_TIME;
    }
  }

  // ----- runs

  datatype Op = BusRead(offset: Word) | BusWrite(offset: Word, v: Bits) | Reset

  function Step(r: Regs, op: Op): Regs {
    match op
    case BusRead(_) => r
    case BusWrite(offset, v) => WriteReg(r, offset, v)
    case Reset => AT_RESET
  }

  function Run(r: Regs, ops: seq<Op>): Regs {
    if ops == [] then r else Step(Run(r, ops[..|ops| - 1]), ops[|ops| - 1])
  }

  /** A level-type pin that is enabled and at its polarity. */
  predicate LevelActive(r: Regs, i: nat) {
    i in r.inten && i !in r.inttype && ((i in PinState(r)) == (i in r.intpol))
  }

  /** An active level cannot be acknowledged away: in every reachable state it is pending, INTCLR or not. */
  lemma {:induction false} ActiveLevelsPend(ops: seq<Op>, i: nat)
    requires LevelActive(Run(AT_RESET, ops), i)
    ensures i in Run(AT_RESET, ops).intstat
  {
    if ops != [] {
      var r, op := Run(AT_RESET, ops[..|ops| - 1]), ops[|ops| - 1];
      match op {
        case BusRead(_) => ActiveLevelsPend(ops[..|ops| - 1], i);
        case BusWrite(offset, v) =>
          var s := Store(r, offset, v);
          assert i in Pending(s, PinState(r), PinState(s));
        case Reset =>
      }
    }
  }

  predicate Acknowledges(op: Op, i: nat) {
    op.Reset? || (op.BusWrite? && op.offset == GPIO_INTCLR && i in op.v)
  }

  /** A pending bit that does not survive a run was acknowledged by a reset or an INTCLR naming it. */
  lemma {:induction false} StatusIsSticky(r: Regs, ops: seq<Op>, i: nat)
    requires i in r.intstat && i !in Run(r, ops).intstat
    ensures exists k :: 0 <= k < |ops| && Acknowledges(ops[k], i)
  {
    if ops != [] {
      var front := ops[..|ops| - 1];
      if i in Run(r, front).intstat {
        assert Acknowledges(ops[|ops| - 1], i);
      } else {
        StatusIsSticky(r, front, i);
        var k :| 0 <= k < |front| && Acknowledges(front[k], i);
        assert Acknowledges(ops[k], i);
      }
    }
  }

  /** A write that leaves pin i enabled at its polarity, and freshly moved there if it is edge-type. */
  predicate Raised(r: Regs, op: Op, i: nat) {
    op.BusWrite? &&
    var s := Store(r, op.offset, op.v);
    && i in s.inten
    && ((i in PinState(s)) == (i in s.intpol))
    && (i in s.inttype ==> (i in PinState(s)) != (i in PinState(r)))
  }

  lemma StatusBitAfter(r: Regs, op: Op, i: nat)
    ensures i in Step(r, op).intstat <==> Raised(r, op, i) || (i in r.intstat && !Acknowledges(op, i))
  {
    if op.BusWrite? {
      var s := Store(r, op.offset, op.v);
      assert i in s.inten ==> i < 32;
      assert i in Pending(s, PinState(r), PinState(s)) <==> Raised(r, op, i);
    }
  }

  predicate KeptBy(ops: seq<Op>, j: nat, i: nat)
    requires j < |ops|
  {
    !Acknowledges(ops[j], i) || Raised(Run(AT_RESET, ops[..j]), ops[j], i)
  }

  /** Operation k raised bit i and nothing after it acknowledged the bit without raising it again. */
  predicate RaisedLastAt(ops: seq<Op>, k: nat, i: nat) {
    k < |ops| && Raised(Run(AT_RESET, ops[..k]), ops[k], i) && forall j | k < j < |ops| :: KeptBy(ops, j, i)
  }

  lemma RaisedLastAtExtends(ops: seq<Op>, k: nat, i: nat)
    requires ops != []
    ensures var last := |ops| - 1;
      RaisedLastAt(ops, k, i) <==>
        if k == last then Raised(Run(AT_RESET, ops[..last]), ops[last], i)
        else RaisedLastAt(ops[..last], k, i) && KeptBy(ops, last, i)
  {
    var last := |ops| - 1;
    var front := ops[..last];
    forall j | 0 <= j < last
      ensures front[..j] == ops[..j] && KeptBy(front, j, i) == KeptBy(ops, j, i)
    {
      assert front[..j] == ops[..j];
    }
  }

  /** INTSTAT is exactly history: bit i is pending iff some write raised it and it has been kept since. */
  lemma {:induction false} PendingHistory(ops: seq<Op>, i: nat)
    ensures i in Run(AT_RESET, ops).intstat <==> exists k: nat :: RaisedLastAt(ops, k, i)
  {
    if ops != [] {
      var last := |ops| - 1;
      var front := ops[..last];
      PendingHistory(front, i);
      StatusBitAfter(Run(AT_RESET, front), ops[last], i);
      RaisedLastAtExtends(ops, last, i);
      if k: nat :| RaisedLastAt(front, k, i) {
        RaisedLastAtExtends(ops, k, i);
      }
      if k: nat :| RaisedLastAt(ops, k, i) {
        RaisedLastAtExtends(ops, k, i);
      }
    }
  }
}
