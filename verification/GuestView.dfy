// What the guest sees of the devices through QEMU: reads return the history of its registers, and interrupt lines
// show the history of the devices' status, over every run of both sides.
module GuestView {
  import opened Words
  import opened Tlm
  import opened Soc
  import opened Kernel
  import opened CosimServer
  import opened CoSim
  import opened CoSimInvariants
  import opened Registers
  import opened EndToEnd
  import Protocol
  import RemoteMmio
  import Machine
  import Uart
  import TimerView
  import UartView
  import GpioView
  import SysCtrlView
  import WatchdogView

  // ----- reads

  /** The registers that read back the last word written to them: the word they hold after reset, and the number of
      values they can hold. */
  function PlainRegister(a: Word): Option<(Word, nat)> {
    if a in {0x0, 0x8, 0x1_0004, 0x1_0010, 0x1_0014, 0x1_0018, 0x1_1038, 0x1_2008} then Some((0, WORD_LIMIT))
    else if 0x8000 <= a < 0x9000 && a % 4 == 0 then Some((0, WORD_LIMIT))
    else if a == 0x1_1030 then Some((0x301, WORD_LIMIT))
    else if a == 0x1_102C then Some((0x10, WORD_LIMIT))
    else if a == 0x1_1024 then Some((1, 0x1_0000))
    else if a == 0x1_1028 then Some((0, 0x40))
    else None
  }

  /** What such a register reads after any history. */
  function Held(es: seq<Machine.Event>, a: Word): Word
    requires PlainRegister(a).Some?
  {
    var (initial, limit) := PlainRegister(a).value;
    LastWord(es, a, initial) % limit
  }

  lemma PlainReads(es: seq<Machine.Event>, a: Word)
    requires PlainRegister(a).Some?
    ensures Reads(Now(es), a, Held(es, a))
  {
    hide Reads, Now, LastWord;
    if a < 0x1000 {
      TimerView.TimerReads(es);
    } else if a < 0x9000 {
      SramReads(es, a);
    } else if a < 0x1_1000 {
      GpioView.GpioReads(es);
    } else if a < 0x1_2000 {
      UartView.UartReads(es);
    } else {
      SysCtrlView.SysCtrlReads(es);
    }
  }

  lemma OneAnswer(es: seq<Machine.Event>, at: nat, addr: Word, data: Word, w: Word)
    requires AnsweredAt(es, at, Machine.Access(Read, addr, 0), data) && Reads(Now(es[..at]), addr, w)
    ensures data == w
  {
    hide Machine.AccessEffect, ToBytes, FromBytes;
    BytesRoundTrip(data);
    BytesRoundTrip(w);
  }

  /** A read of such a register that returned 0 has returned the last word written to it since reset, when the read
      reached the SoC: whatever else the guest and the devices have done, and however often calls have failed. */
  lemma GuestReadsLastWord(moves: seq<Move>, t: Sys, i: nat, addr: Word)
    requires CoSim.Reaches(CoSim.START, moves, t) && Succeeded(t.net, i, 1, addr) && PlainRegister(addr).Some?
    ensures t.net.returned[i].slot < |t.served|
    ensures var v := t.served[t.net.returned[i].slot];
      && v.from.trace <= v.to.trace <= t.soc.trace
      && exists at | |v.from.trace| <= at < |v.to.trace| ::
           v.to.trace[at] == Machine.Access(Read, addr, 0) && t.net.returned[i].data == Held(v.to.trace[..at], addr)
  {
    hide CoSim.Reaches, Held, PlainRegister, Machine.AccessEffect, Machine.Run;
    SuccessfulReadReturnsItsData(moves, t, i, addr);
    var v := t.served[t.net.returned[i].slot];
    var at :| |v.from.trace| <= at < |v.to.trace|
              && AnsweredAt(v.to.trace, at, Machine.Access(Read, addr, 0), t.net.returned[i].data);
    PlainReads(v.to.trace[..at], addr);
    OneAnswer(v.to.trace, at, addr, t.net.returned[i].data, Held(v.to.trace[..at], addr));
  }

  /** QEMU forwards just what the SoC can accept: of the accesses it forwards the SoC refuses only those outside the
      windows, and an access that it does not forward names no register. */
  lemma ForwardedAccesses(offset: Word, size: nat)
    ensures RemoteMmio.Forwarded(offset, size) ==>
      (Accepted(offset) <==> offset < 0x1000 || 0x8000 <= offset < 0x9000 || 0x1_0000 <= offset < 0x1_4000)
    ensures size == 4 && (PlainRegister(offset).Some? || (offset >= 0x1000 && Accepted(offset))) ==>
      RemoteMmio.Forwarded(offset, size)
    ensures RemoteMmio.Forwarded(offset, size) ==> size == 4
  {
  }

  // ----- interrupt lines

  /** The five lines as functions of the history; the Timer's by what INTR would read. */
  ghost predicate LinesAre(lines: seq<bool>, es: seq<Machine.Event>)
    requires |lines| == 8
  {
    && TimerView.IntrReads(Now(es), lines[0], lines[1])
    && (lines[2] <==> exists i :: i in UartView.RisOf(es) && i in UartView.ImscOf(es))
    && (lines[3] <==> exists i :: GpioView.Pends(es, i) && GpioView.BitOf(es, 0x1_0010, i))
    && (lines[4] <==> WatchdogView.Expired(es) && 0 in WatchdogView.ControlOf(es))
    && !lines[5] && !lines[6] && !lines[7]
  }

  lemma ShownHistory(irqBits: Bits, es: seq<Machine.Event>)
    requires Shows(irqBits, Now(es).regs)
    ensures TimerView.IntrReads(Now(es), 0 in irqBits, 1 in irqBits)
    ensures 2 in irqBits <==> exists i :: i in UartView.RisOf(es) && i in UartView.ImscOf(es)
    ensures 3 in irqBits <==> exists i :: GpioView.Pends(es, i) && GpioView.BitOf(es, 0x1_0010, i)
    ensures 4 in irqBits <==> WatchdogView.Expired(es) && 0 in WatchdogView.ControlOf(es)
  {
    hide Now, UartView.RisOf, UartView.ImscOf, UartView.Queue, GpioView.Pends, WatchdogView.Expired,
         WatchdogView.ControlOf, WatchdogView.LoadOf, LastWord, ToBits, TimerView.IntrReads, GpioView.Driven;
    TimerView.IntrRead(Now(es));
    UartView.UartHistory(es);
    GpioView.GpioHistory(es);
    WatchdogView.WatchdogHistory(es);
    var g := Now(es).regs.gpio;
    assert forall i :: GpioView.Pends(es, i) <==> i in g.intstat;
    assert forall i :: GpioView.BitOf(es, 0x1_0010, i) <==> i in g.inten;
  }

  /** When a call returns 0, the lines are those of the devices' histories up to the moment of its reply. */
  lemma LinesShowHistory(moves: seq<Move>, t: Sys)
    requires CoSim.Reaches(CoSim.START, moves, t)
    requires t.net.returned != [] && t.net.returned[|t.net.returned| - 1].Good?
    ensures t.net.returned[|t.net.returned| - 1].slot < |t.served| && |t.net.client.lines| == 8
    ensures LinesAre(t.net.client.lines, t.served[t.net.returned[|t.net.returned| - 1].slot].to.trace)
  {
    hide CoSim.Reaches, PureIrq, Machine.Run;
    LinesAreFreshOnReturn(moves, t);
    var v := t.served[t.net.returned[|t.net.returned| - 1].slot];
    ShownHistory(v.to.cur.irqBits, v.to.trace);
    hide TimerView.IntrReads;
  }

  /** The UART's line is low while everything is masked. */
  lemma MaskedUartIsSilent(moves: seq<Move>, t: Sys)
    requires CoSim.Reaches(CoSim.START, moves, t)
    requires t.net.returned != [] && t.net.returned[|t.net.returned| - 1].Good?
    requires var slot := t.net.returned[|t.net.returned| - 1].slot;
      slot < |t.served| && LastWord(t.served[slot].to.trace, 0x1_1038, 0) == 0
    ensures |t.net.client.lines| == 8 && !t.net.client.lines[2]
  {
    hide CoSim.Reaches, LastWord, UartView.RisOf, TimerView.IntrReads, GpioView.Pends, WatchdogView.Expired;
    LinesShowHistory(moves, t);
    ZeroHasNoBits();
  }

  lemma ByteComesIn(k: Soc.SocRegs, q: Protocol.Request)
    requires Protocol.HeaderOk(q) && q.op == 2 && q.addr == 0x1_1000
    requires {7, 9} <= k.uart.cr && |k.uart.rx| < 16
    ensures var left := Effect(k, q, Machine.NO_EDGES).uart;
      4 in left.ris && left.imsc == k.uart.imsc && left.rx == k.uart.rx + [q.data % 256]
  {
    assert Effect(k, q, Machine.NO_EDGES).uart == Uart.WriteReg(k.uart, 0, q.data) by {
      hide Machine.AccessEffect, Uart.WriteReg;
      EffectOfAccess(k, q);
      UartView.UartAccess(k, Machine.Access(Write, q.addr, q.data));
    }
    hide Effect;
  }

  /** A byte sent in loopback with room in the FIFO and the receive interrupt unmasked: when the write returns 0, the
      UART's line is high. */
  lemma LoopbackByteRaisesTheLine(moves: seq<Move>, t: Sys)
    requires CoSim.Reaches(CoSim.START, moves, t)
    requires t.net.returned != [] && t.net.returned[|t.net.returned| - 1].Good?
    requires Succeeded(t.net, |t.net.returned| - 1, 2, 0x1_1000)
    requires var slot := t.net.returned[|t.net.returned| - 1].slot;
      && slot < |t.served|
      && var before := t.served[slot].from.trace;
         && {7, 9} <= ToBits(LastWord(before, 0x1_1030, 0x301)) && |UartView.Queue(before)| < 16
         && 4 in UartView.ImscOf(before)
    ensures |t.net.client.lines| == 8 && t.net.client.lines[2]
  {
    var i := |t.net.returned| - 1;
    var slot := t.net.returned[i].slot;
    var v := t.served[slot];
    GoodCall(moves, t, i);
    assert Protocol.HeaderOk(v.q);
    hide CoSim.Reaches, Effect, UartView.RisOf, UartView.ImscOf, UartView.Queue, LastWord, ToBits, Machine.Run,
         Scheduled, KernelFacts, InHand, AtHand, Begins, ReplyTo, PureIrq;
    ServedStates(v, t.net.executed[slot], t.net.issued, t.soc);
    UartView.UartHistory(v.from.trace);
    ByteComesIn(v.from.regs, v.q);
    LinesShowTheAccessItself(moves, t);
  }
}
