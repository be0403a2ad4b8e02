// The TLM-to-pin bridge in front of the Timer (bridges/tlm_pin_bridge.h).  The two zero-time waits are
// two delta cycles: signals take their new values, then the Timer processes they trigger run.  A clock
// edge may fall into either delta, before or after the bus process.
module PinBridge {
  import opened Words
  import opened Tlm
  import opened Timer

  const CLOCK_PERIOD: nat := 10

  /** Does a clock edge fall into this delta cycle, and does timer_thread then run before the bus process? */
  datatype Beat = Beat(edge: bool, edgeFirst: bool)

  /** The clock during one bus access: the two strobe deltas, then the settling period. */
  datatype Schedule = Schedule(first: Beat, second: Beat, settle: nat)

  function Count(b: bool): nat {
    if b then 1 else 0
  }

  /** Clock edges that precede the bus process, and edges that follow it. */
  function EdgesBefore(s: Schedule): nat {
    Count(s.first.edge && s.first.edgeFirst)
  }

  function EdgesAfter(s: Schedule): nat {
    Count(s.first.edge && !s.first.edgeFirst) + Count(s.second.edge) + s.settle
  }

  /** The register access happens at one instant among the clock edges. */
  function Access(r: Regs, t: Txn, s: Schedule): (Regs, Outcome) {
    var mid := Edges(r, EdgesBefore(s));
    match t.command
    case Read =>
      if |t.data| != 4 then (r, Refuse(t, BurstError))
      else (Edges(mid, EdgesAfter(s)),
            Outcome(t.(data := ToBytes(ReadReg(mid, Offset(t))), status := Okay), CLOCK_PERIOD))
    case Write =>
      if |t.data| != 4 then (r, Refuse(t, BurstError))
      else (Edges(WriteReg(mid, Offset(t), FromBytes(t.data)), EdgesAfter(s)),
            Outcome(t.(status := Okay), CLOCK_PERIOD))
    case Ignore => (r, Refuse(t, CommandError))
  }

  class TlmPinBridge {
    const bus: PinBus
    const timer: TimerIp

    constructor (bus: PinBus, timer: TimerIp)
      ensures this.bus == bus && this.timer == timer
    {
      this.bus, this.timer := bus, timer;
    }

    /** Strobes are low and the interrupt pins show INTR, in the current and the next values alike. */
    ghost predicate Quiet()
      reads this, bus, timer
    {
      && bus.cur == bus.next
      && !bus.cur.readEn && !bus.cur.writeEn
      && !timer.irqChanged
      && bus.cur.intr1 == Intr1Level(timer.View()) && bus.cur.intr2 == Intr2Level(timer.View())
    }

    /** The interrupt pins are about to show INTR. */
    ghost predicate PinsFollow()
      reads this, bus, timer
    {
      && !timer.irqChanged
      && bus.next.intr1 == Intr1Level(timer.View()) && bus.next.intr2 == Intr2Level(timer.View())
    }

    /** timer_thread and irq_output_method on a clock edge, if there is one. */
    method RunClock(edge: bool)
      requires PinsFollow()
      modifies bus`next, timer
      ensures PinsFollow() && timer.View() == Edges(old(timer.View()), Count(edge))
      ensures bus.next == old(bus.next).(intr1 := bus.next.intr1, intr2 := bus.next.intr2)
    {
      if edge {
        timer.ClockEdge();
        timer.IrqOutput(bus);
        timer.irqChanged := false;
      }
    }

    /** bus_read_method or bus_write_method, whichever strobe has just risen. */
    method RunBus(before: Pins)
      requires PinsFollow()
      modifies bus`next, timer
      ensures PinsFollow()
      ensures timer.View() == if !before.writeEn && bus.cur.writeEn
                              then WriteReg(old(timer.View()), bus.cur.address, bus.cur.dataIn) else old(timer.View())
      ensures bus.next == old(bus.next).(
        intr1 := bus.next.intr1, intr2 := bus.next.intr2,
        dataOut := if !before.readEn && bus.cur.readEn then ReadReg(old(timer.View()), bus.cur.address)
                   else old(bus.next.dataOut))
    {
      if !before.readEn && bus.cur.readEn {
        timer.BusRead(bus);
      }
      if !before.writeEn && bus.cur.writeEn {
        timer.BusWrite(bus);
        timer.IrqOutput(bus);
        timer.irqChanged := false;
      }
    }

    /** Update phase, then every Timer process it triggers. */
    method DeltaCycle(beat: Beat)
      requires PinsFollow()
      modifies bus, timer
      ensures PinsFollow() && bus.cur == old(bus.next)
      ensures
        var mid := Edges(old(timer.View()), Count(beat.edge && beat.edgeFirst));
        && timer.View() == Edges(if !old(bus.cur.writeEn) && bus.cur.writeEn
                                 then WriteReg(mid, bus.cur.address, bus.cur.dataIn) else mid,
                                 Count(beat.edge && !beat.edgeFirst))
        && bus.next == bus.cur.(
             dataOut := if !old(bus.cur.readEn) && bus.cur.readEn then ReadReg(mid, bus.cur.address)
                        else bus.cur.dataOut,
             intr1 := bus.next.intr1, intr2 := bus.next.intr2)
    {
      var before := bus.cur;
      bus.cur := bus.next;
      RunClock(beat.edge && beat.edgeFirst);
      RunBus(before);
      RunClock(beat.edge && !beat.edgeFirst);
    }

    /** wait(clock_period): signals settle and n clock edges pass. */
    method Settle(n: nat)
      requires !bus.next.readEn && !bus.next.writeEn && PinsFollow()
      modifies bus, timer
      ensures Quiet() && timer.View() == Edges(old(timer.View()), n)
    {
      DeltaCycle(Beat(false, false));
      for i := 0 to n
        invariant !bus.next.readEn && !bus.next.writeEn && !bus.cur.readEn && !bus.cur.writeEn
        invariant PinsFollow()
        invariant timer.View() == Edges(old(timer.View()), i)
      {
        DeltaCycle(Beat(true, true));
      }
      DeltaCycle(Beat(false, false));
    }

    method BusRead(offset: Word, s: Schedule) returns (value: Word)
      requires Quiet()
      modifies bus, timer
      ensures Quiet()
      ensures value == ReadReg(Edges(old(timer.View()), EdgesBefore(s)), offset)
      ensures timer.View() == Edges(Edges(old(timer.View()), EdgesBefore(s)), EdgesAfter(s))
    {
      hide Edge, ReadReg, WriteReg;
      ghost var r := timer.View();
      bus.next := bus.next.(address := offset, dataIn := 0, writeEn := false, readEn := true);
      DeltaCycle(s.first);
      DeltaCycle(s.second);
      value := bus.cur.dataOut;
      bus.next := bus.next.(readEn := false);
      Settle(s.settle);
      EdgesComposeThrice(Edges(r, EdgesBefore(s)),
                         Count(s.first.edge && !s.first.edgeFirst), Count(s.second.edge), s.settle);
    }

    method BusWrite(offset: Word, value: Word, s: Schedule)
      requires Quiet()
      modifies bus, timer
      ensures Quiet()
      ensures timer.View() == Edges(WriteReg(Edges(old(timer.View()), EdgesBefore(s)), offset, value), EdgesAfter(s))
    {
      hide Edge, ReadReg, WriteReg;
      ghost var w := WriteReg(Edges(timer.View(), EdgesBefore(s)), offset, value);
      bus.next := bus.next.(address := offset, dataIn := value, readEn := false, writeEn := true);
      DeltaCycle(s.first);
      DeltaCycle(s.second);
      bus.next := bus.next.(writeEn := false);
      Settle(s.settle);
      EdgesComposeThrice(w, Count(s.first.edge && !s.first.edgeFirst), Count(s.second.edge), s.settle);
    }

    method BTransport(p: Payload, delay: nat, s: Schedule) returns (delay': nat)
      requires Quiet()
      modifies bus, timer, p
      ensures Quiet() && delay' >= delay
      ensures (timer.View(), Outcome(p.View(), delay' - delay)) == Access(old(timer.View()), old(p.View()), s)
    {
      delay' := delay;
      var offset: Word := p.address % WORD_LIMIT;
      if p.command == Read {
        if |p.data| != 4 {
          p.status := BurstError;
          return;
        }
        var value := BusRead(offset, s);
        p.data := ToBytes(value);
      } else if p.command == Write {
        if |p.data| != 4 {
          p.status := BurstError;
          return;
        }
        BusWrite(offset, FromBytes(p.data), s);
      } else {
        p.status := CommandError;
        return;
      }
      p.status := Okay;
      delay' := delay + CLOCK_PERIOD;
    }
  }
}
