// What the guest can rely on, in every run of both sides together.
module EndToEnd {
  import opened Words
  import opened Tlm
  import opened MemoryMap
  import opened Soc
  import opened Kernel
  import opened KernelTrace
  import opened KernelFreshness
  import opened CosimServer
  import opened CoSim
  import opened CoSimInvariants
  import opened Registers
  import Protocol
  import ProtocolInvariants
  import Machine
  import Timer

  /** Call i was the given request and returned 0. */
  predicate Succeeded(n: Protocol.Sys, i: nat, op: Word, addr: Word) {
    && i < |n.returned| && i < |n.issued| && n.returned[i].Good?
    && n.issued[i].op == op && n.issued[i].addr == addr
  }

  /** How the SoC has served a call that returned 0. */
  lemma GoodCall(moves: seq<Move>, t: Sys, i: nat)
    requires CoSim.Reaches(CoSim.START, moves, t) && i < |t.net.returned| && t.net.returned[i].Good?
    ensures var r := t.net.returned[i];
      && r.slot < |t.served| && r.slot < |t.net.executed| && i < |t.net.issued| && t.served[r.slot].q == t.net.issued[i]
      && ServedRight(t.served[r.slot], t.net.executed[r.slot], t.net.issued, t.soc)
      && ReplyTo(t.served[r.slot]).status == Protocol.COSIM_OK
      && ReplyTo(t.served[r.slot]).data == r.data && ReplyTo(t.served[r.slot]).irqBits == r.irq
  {
    hide CoSim.Reaches, Scheduled, JobRight, ReplyTo, InHand, AtHand, Begins, ProtocolInvariants.Framed,
         ProtocolInvariants.IrqMirrored, ProtocolInvariants.HeadersOk, Protocol.HeaderOk;
    AlwaysHoldsTogether(moves, t);
    assert ProtocolInvariants.Told(t.net.executed, i, t.net.returned[i]);
  }

  /** Served from rest to rest. */
  lemma ServedStates(v: Served, x: Protocol.Exec, issued: seq<Protocol.Request>, k: Sim)
    requires ServedRight(v, x, issued, k)
    ensures KernelFacts(v.from) && KernelFacts(v.to) && v.to.trace <= k.trace
    ensures MachineAfter(v.from.trace).regs == v.from.regs && MachineAfter(v.to.trace).regs == v.to.regs
    ensures v.to.cur.irqBits == PureIrq(v.to.regs)
    ensures v.from.trace + AtOnce(v.q) <= v.to.trace
  {
    hide KernelFacts, Scheduled, MachineAfter, PureIrq, AtOnce, Progress, AccessesIn, Effect, AtHand, ReplyTo;
    ScheduledFacts(v.from);
    ScheduledFacts(v.to);
    AtHandIsTheMachine(v.from);
    AtHandIsTheMachine(v.to);
  }

  // ----- reads

  lemma OkReadAnswer(s: SocRegs, q: Protocol.Request)
    requires Protocol.HeaderOk(q) && q.op == Protocol.COSIM_OP_READ
    requires Answer(s, q, Machine.NO_EDGES).0 == Protocol.COSIM_OK
    ensures var o := Machine.AccessEffect(s, Machine.Access(Read, q.addr, 0)).1;
      o.txn.status == Okay && o.txn.data == ToBytes(Answer(s, q, Machine.NO_EDGES).1)
  {
    hide Soc.Serve, ToBytes, FromBytes;
    var t := ServerTxn(Read, q.addr, 0);
    ServeKeepsLength(s, t, Machine.NO_EDGES);
    BytesUnique(Soc.Serve(s, t, Machine.NO_EDGES).1.txn.data);
  }

  /** The event e of the trace was answered OK with this word. */
  predicate AnsweredAt(trace: seq<Machine.Event>, at: nat, e: Machine.Event, data: Word)
    requires e.Access?
  {
    && at < |trace| && trace[at] == e
    && var o := Machine.AccessEffect(MachineAfter(trace[..at]).regs, e).1;
       o.txn.status == Okay && o.txn.data == ToBytes(data)
  }

  /** A read from anything but the Timer is answered on the spot. */
  lemma OtherRead(v: Served, e: Machine.Event)
    requires Protocol.HeaderOk(v.q) && v.q.op == Protocol.COSIM_OP_READ && e == Machine.Access(Read, v.q.addr, 0)
    requires !ForTimer(e) && ReplyTo(v).status == Protocol.COSIM_OK
    requires v.from.trace + [e] <= v.to.trace && MachineAfter(v.from.trace).regs == v.from.regs
    ensures AnsweredAt(v.to.trace, |v.from.trace|, e, ReplyTo(v).data)
  {
    assert Accesses(v.q) == [e];
    hide ForTimer, Answer, Machine.AccessEffect, MachineAfter, ToWord, ToBytes;
    OkReadAnswer(v.from.regs, v.q);
    assert v.to.trace[..|v.from.trace|] == v.from.trace;
    assert v.to.trace[|v.from.trace|] == (v.from.trace + [e])[|v.from.trace|];
  }

  /** The pin access of a request stands in the trace at its activation. */
  lemma TimerPlace(v: Served, e: Machine.Event)
    requires Accesses(v.q) == [e] && e.Access? && ForTimer(e) && InHand(v.q, v.from, v.to)
    requires AtHand(v.to) && TracePlaces(v.to) && v.to.acts == v.to.done && v.from.acts == v.from.done
    ensures |v.from.done| < |v.to.places|
    ensures var at := v.to.places[|v.from.done|]; |v.from.trace| <= at < |v.to.trace| && v.to.trace[at] == e
  {
    var n := |v.from.done|;
    AccessesAreTame(v.q);
    hide Accesses, ForTimer, MachineAfter, Machine.AccessEffect, Effect, AccessesIn, Machine.EdgesIn, TicksIn,
         Timer.ReadReg, TimerEvent;
    assert Made(v.from, PinReqOf(e), v.to);
    assert PlacedAt(v.to.acts[n], v.to.marks[n], v.to.places[n], v.to.timerOps, v.to.trace);
    assert v.to.done[n].req == PinReqOf(e);
  }

  /** A Timer read returns the register at its activation. */
  lemma TimerRead(v: Served, e: Machine.Event)
    requires Accesses(v.q) == [e] && e.Access? && e.command == Read && ForTimer(e) && InHand(v.q, v.from, v.to)
    requires AtHand(v.to) && TracePlaces(v.to) && v.to.acts == v.to.done && v.from.acts == v.from.done
    ensures |v.from.done| < |v.to.places| && |v.from.trace| <= v.to.places[|v.from.done|]
    ensures AnsweredAt(v.to.trace, v.to.places[|v.from.done|], e, ReplyTo(v).data)
  {
    var n := |v.from.done|;
    hide Accesses, ForTimer, MachineAfter, Machine.AccessEffect, Effect, AccessesIn, Machine.EdgesIn, TicksIn,
         Timer.ReadReg, ToWord, ToBytes;
    assert Made(v.from, PinReqOf(e), v.to);
    assert PlacedAt(v.to.acts[n], v.to.marks[n], v.to.places[n], v.to.timerOps, v.to.trace);
    TimerPlace(v, e);
    TimerEffect(MachineAfter(v.to.trace[..v.to.places[n]]).regs, e);
  }

  /** A read served with OK. */
  lemma ServedRead(v: Served, x: Protocol.Exec, issued: seq<Protocol.Request>, k: Sim, e: Machine.Event)
    requires ServedRight(v, x, issued, k) && ReplyTo(v).status == Protocol.COSIM_OK
    requires v.q.op == Protocol.COSIM_OP_READ && e == Machine.Access(Read, v.q.addr, 0)
    ensures v.from.trace <= v.to.trace <= k.trace
    ensures exists at | |v.from.trace| <= at < |v.to.trace| :: AnsweredAt(v.to.trace, at, e, ReplyTo(v).data)
  {
    hide Scheduled, KernelFacts, MachineAfter, PureIrq, AnsweredAt, InHand, TracePlaces, AtHand, ReplyTo, Begins;
    ServedStates(v, x, issued, k);
    assert Accesses(v.q) == [e];
    assert v.from.trace <= v.from.trace + AtOnce(v.q);
    hide Accesses, AnswerNow;
    if ForTimer(e) {
      AtHandBegins(v.from);
      AtHandBegins(v.to);
      PlacesHold(v.to);
      TimerRead(v, e);
      AnsweredInside(v.to.trace, v.to.places[|v.from.done|], e, ReplyTo(v).data);
    } else {
      OtherRead(v, e);
      AnsweredInside(v.to.trace, |v.from.trace|, e, ReplyTo(v).data);
    }
  }

  lemma PlacesHold(k: Sim)
    requires KernelFacts(k)
    ensures TracePlaces(k)
  {
  }

  /** A read that returned 0 was answered OK by the device behind its address, in the state in which the access
      reached it, and returned its data; the access is in the history of the SoC for good. */
  lemma SuccessfulReadReturnsItsData(moves: seq<Move>, t: Sys, i: nat, addr: Word)
    requires CoSim.Reaches(CoSim.START, moves, t) && Succeeded(t.net, i, Protocol.COSIM_OP_READ, addr)
    ensures t.net.returned[i].slot < |t.served|
    ensures var v := t.served[t.net.returned[i].slot];
      && v.from.trace <= v.to.trace <= t.soc.trace
      && exists at | |v.from.trace| <= at < |v.to.trace| ::
           AnsweredAt(v.to.trace, at, Machine.Access(Read, addr, 0), t.net.returned[i].data)
  {
    hide CoSim.Reaches, ServedRight, AnsweredAt, ReplyTo;
    GoodCall(moves, t, i);
    var slot := t.net.returned[i].slot;
    ServedRead(t.served[slot], t.net.executed[slot], t.net.issued, t.soc, Machine.Access(Read, addr, 0));
  }

  lemma AnsweredInside(trace: seq<Machine.Event>, at: nat, e: Machine.Event, data: Word)
    requires e.Access? && AnsweredAt(trace, at, e, data)
    ensures at < |trace|
  {
  }

  lemma SramIsNotTheTimer(offset: Word)
    requires offset < PL_SRAM_BYTES
    ensures !ForTimer(Machine.Access(Read, PL_SRAM_OFFSET + offset, 0))
  {
    FlatMapIsTheOneSlot(PL_SRAM_OFFSET + offset, SramPort);
  }

  /** Memory, as the guest sees it over any number of lost replies and reconnections, and any schedule of the
      SoC: a read of an aligned SRAM word that returned 0 yields the value last written there by an access
      that reached the SoC before it, or 0 if there has been none since reset. */
  lemma GuestReadsLastWrite(moves: seq<Move>, t: Sys, i: nat, offset: Word)
    requires CoSim.Reaches(CoSim.START, moves, t) && offset % 4 == 0 && offset < PL_SRAM_BYTES
    requires Succeeded(t.net, i, Protocol.COSIM_OP_READ, PL_SRAM_OFFSET + offset)
    ensures t.net.returned[i].slot < |t.served|
    ensures var past := t.served[t.net.returned[i].slot].from.trace;
      past <= t.soc.trace && t.net.returned[i].data == Machine.LastWritten(Machine.POWER_ON, past, offset)
  {
    hide CoSim.Reaches, ServedRight, ReplyTo, Machine.LastWritten;
    GoodCall(moves, t, i);
    var slot := t.net.returned[i].slot;
    ServedSramRead(t.served[slot], t.net.executed[slot], t.net.issued, t.soc, offset);
  }

  lemma ServedSramRead(v: Served, x: Protocol.Exec, issued: seq<Protocol.Request>, k: Sim, offset: Word)
    requires ServedRight(v, x, issued, k) && ReplyTo(v).status == Protocol.COSIM_OK
    requires offset % 4 == 0 && offset < PL_SRAM_BYTES
    requires v.q.op == Protocol.COSIM_OP_READ && v.q.addr == PL_SRAM_OFFSET + offset
    ensures v.from.trace <= k.trace
    ensures ReplyTo(v).data == Machine.LastWritten(Machine.POWER_ON, v.from.trace, offset)
  {
    hide Scheduled, KernelFacts, Machine.Run, PureIrq, InHand, AtHand, ReplyTo, Begins, Machine.LastWritten,
         Machine.AccessEffect, ToBytes, FromBytes;
    var e := Machine.Access(Read, PL_SRAM_OFFSET + offset, 0);
    ServedStates(v, x, issued, k);
    SramIsNotTheTimer(offset);
    assert Accesses(v.q) == [e];
    hide Accesses, AnswerNow, ForTimer;
    OtherRead(v, e);
    Machine.SramReadReturnsLastWrite(v.from.trace, offset);
    assert v.to.trace[..|v.from.trace|] == v.from.trace;
    BytesRoundTrip(ReplyTo(v).data);
    BytesRoundTrip(Machine.LastWritten(Machine.POWER_ON, v.from.trace, offset));
  }

  // ----- writes, and what is refused

  /** A call that was answered with an error. */
  lemma RefusedCall(moves: seq<Move>, t: Sys, i: nat)
    requires CoSim.Reaches(CoSim.START, moves, t) && i < |t.net.returned| && t.net.returned[i].BadReply?
    ensures var slot := t.net.returned[i].slot;
      && slot < |t.served| && slot < |t.net.executed| && i < |t.net.issued| && t.served[slot].q == t.net.issued[i]
      && ServedRight(t.served[slot], t.net.executed[slot], t.net.issued, t.soc)
      && ReplyTo(t.served[slot]).status == Protocol.COSIM_ERROR
  {
    hide CoSim.Reaches, Scheduled, JobRight, ReplyTo, InHand, AtHand, Begins, ProtocolInvariants.Framed,
         ProtocolInvariants.IrqMirrored, ProtocolInvariants.HeadersOk, Protocol.HeaderOk;
    AlwaysHoldsTogether(moves, t);
    assert ProtocolInvariants.Told(t.net.executed, i, t.net.returned[i]);
  }

  /** The status of a reply, for every access, the Timer's included. */
  lemma ReplyStatus(v: Served)
    ensures ReplyTo(v).status == if Succeeds(v.q) then 0 else 1
  {
    AnswersExactly(v.from.regs, v.q, Machine.NO_EDGES);
    var es := Accesses(v.q);
    if es != [] && ForTimer(es[0]) {
      WindowsInNumbers(es[0].address);
    }
    hide Answer, FlatMap, ToWord;
  }

  /** What a return code tells.  A call that returned 0 asked for something the SoC accepts; a call that was answered
      and returned -1 asked for something it refuses: a read or write outside the windows, a misaligned one outside
      the Timer's, or an unknown operation. */
  lemma ReturnTellsTheStatus(moves: seq<Move>, t: Sys, i: nat)
    requires CoSim.Reaches(CoSim.START, moves, t) && i < |t.net.returned|
    ensures i < |t.net.issued|
    ensures t.net.returned[i].Good? ==> Succeeds(t.net.issued[i])
    ensures t.net.returned[i].BadReply? ==> !Succeeds(t.net.issued[i])
  {
    hide CoSim.Reaches, ServedRight, ReplyTo, Succeeds;
    CallsAreIssued(moves, t);
    if t.net.returned[i].Good? {
      GoodCall(moves, t, i);
      ReplyStatus(t.served[t.net.returned[i].slot]);
    } else if t.net.returned[i].BadReply? {
      RefusedCall(moves, t, i);
      ReplyStatus(t.served[t.net.returned[i].slot]);
    }
  }

  lemma CallsAreIssued(moves: seq<Move>, t: Sys)
    requires CoSim.Reaches(CoSim.START, moves, t)
    ensures |t.net.returned| <= |t.net.issued|
  {
    hide CoSim.Reaches, Scheduled, JobRight, AllServed, ProtocolInvariants.Truthful, ProtocolInvariants.IrqMirrored,
         ProtocolInvariants.HeadersOk, ProtocolInvariants.InOrder, ProtocolInvariants.Waiting,
         ProtocolInvariants.ServerFrame, ProtocolInvariants.ClientFrame, ProtocolInvariants.ConnsInOrder;
    AlwaysHoldsTogether(moves, t);
  }

  /** Every reply the SoC has made says whether its request succeeded. */
  lemma RepliesTellTheStatus(moves: seq<Move>, t: Sys, j: nat)
    requires CoSim.Reaches(CoSim.START, moves, t) && j < |t.net.executed|
    ensures t.net.executed[j].txn < |t.net.issued|
    ensures t.net.executed[j].reply.status == if Succeeds(t.net.issued[t.net.executed[j].txn]) then 0 else 1
  {
    hide CoSim.Reaches, Scheduled, JobRight, ReplyTo, InHand, AtHand, Begins, ProtocolInvariants.Inv, Protocol.HeaderOk,
         Succeeds;
    AlwaysHoldsTogether(moves, t);
    assert ServedRight(t.served[j], t.net.executed[j], t.net.issued, t.soc);
    ReplyStatus(t.served[j]);
  }

  /** The bus access of a request served is in the trace, between its taking up and its reply. */
  lemma AccessIsInTheTrace(v: Served, x: Protocol.Exec, issued: seq<Protocol.Request>, k: Sim, e: Machine.Event)
    requires ServedRight(v, x, issued, k) && Accesses(v.q) == [e]
    ensures v.from.trace <= v.to.trace <= k.trace
    ensures exists at | |v.from.trace| <= at < |v.to.trace| :: v.to.trace[at] == e
  {
    AccessesAreTame(v.q);
    hide Scheduled, KernelFacts, MachineAfter, PureIrq, InHand, TracePlaces, AtHand, ReplyTo, Begins;
    ServedStates(v, x, issued, k);
    assert v.from.trace <= v.from.trace + AtOnce(v.q);
    hide Accesses, ForTimer;
    if ForTimer(e) {
      AtHandBegins(v.from);
      AtHandBegins(v.to);
      PlacesHold(v.to);
      TimerPlace(v, e);
    } else {
      assert v.to.trace[|v.from.trace|] == (v.from.trace + [e])[|v.from.trace|];
    }
  }

  /** A write that returned 0 was accepted by the device behind its address, in the state in which it reached it. */
  lemma SuccessfulWriteWasAccepted(moves: seq<Move>, t: Sys, i: nat, addr: Word)
    requires CoSim.Reaches(CoSim.START, moves, t) && Succeeded(t.net, i, 2, addr)
    ensures t.net.returned[i].slot < |t.served|
    ensures var v := t.served[t.net.returned[i].slot];
      var e := Machine.Access(Write, addr, t.net.issued[i].data);
      && Accepted(addr) && v.from.trace <= v.to.trace <= t.soc.trace
      && exists at | |v.from.trace| <= at < |v.to.trace| ::
           v.to.trace[at] == e && Machine.AccessEffect(MachineAfter(v.to.trace[..at]).regs, e).1.txn.status == Okay
  {
    ReturnTellsTheStatus(moves, t, i);
    GoodCall(moves, t, i);
    var slot := t.net.returned[i].slot;
    var v := t.served[slot];
    var e := Machine.Access(Write, addr, t.net.issued[i].data);
    assert Accepted(addr) && Accesses(v.q) == [e] by {
      assert Protocol.HeaderOk(v.q);
    }
    hide CoSim.Reaches, ServedRight, ReplyTo, Accesses, MachineAfter, Machine.AccessEffect, Accepted;
    AccessIsInTheTrace(v, t.net.executed[slot], t.net.issued, t.soc, e);
    var at :| |v.from.trace| <= at < |v.to.trace| && v.to.trace[at] == e;
    EventAccepted(MachineAfter(v.to.trace[..at]).regs, e);
  }

  lemma EventAccepted(s: SocRegs, e: Machine.Event)
    requires e.Access? && !e.command.Ignore?
    ensures Machine.AccessEffect(s, e).1.txn.status == Okay <==> Accepted(e.address)
    ensures !Accepted(e.address) ==> Machine.AccessEffect(s, e).0 == s
  {
    hide Soc.Serve, Accepted;
    AcceptedExactly(s, e.command, e.address, e.value, Machine.NO_EDGES);
  }

  /** A refused read or write reaches the bus and leaves the SoC as it was. */
  lemma RefusedAccessChangesNothing(moves: seq<Move>, t: Sys, i: nat)
    requires CoSim.Reaches(CoSim.START, moves, t) && i < |t.net.returned| && t.net.returned[i].BadReply?
    requires i < |t.net.issued| && t.net.issued[i].op in {1, 2}
    ensures t.net.returned[i].slot < |t.served|
    ensures var v := t.served[t.net.returned[i].slot];
      && !Accepted(t.net.issued[i].addr)
      && v.from.trace + Accesses(t.net.issued[i]) <= v.to.trace
      && MachineAfter(v.from.trace + Accesses(t.net.issued[i])) == MachineAfter(v.from.trace)
  {
    ReturnTellsTheStatus(moves, t, i);
    RefusedCall(moves, t, i);
    var slot := t.net.returned[i].slot;
    var v := t.served[slot];
    assert Protocol.HeaderOk(v.q) && !Accepted(v.q.addr);
    RefusedTakeUp(v.q);
    hide CoSim.Reaches, ReplyTo, Accesses, AtOnce, Accepted, Machine.AccessEffect, ServedRight, Succeeds;
    ServedStates(v, t.net.executed[slot], t.net.issued, t.soc);
    RefusedStep(v.from.trace, Accesses(v.q)[0]);
    assert Accesses(v.q) == [Accesses(v.q)[0]];
  }

  lemma RefusedTakeUp(q: Protocol.Request)
    requires Protocol.HeaderOk(q) && q.op in {1, 2} && !Accepted(q.addr)
    ensures AtOnce(q) == Accesses(q) && |Accesses(q)| == 1
    ensures var e := Accesses(q)[0]; e.Access? && !e.command.Ignore? && e.address == q.addr
  {
    WindowsInNumbers(q.addr);
    hide FlatMap;
  }

  lemma RefusedStep(es: seq<Machine.Event>, e: Machine.Event)
    requires e.Access? && !e.command.Ignore? && !Accepted(e.address)
    ensures MachineAfter(es + [e]) == MachineAfter(es)
  {
    hide Machine.AccessEffect, Accepted;
    assert (es + [e])[..|es|] == es;
    EventAccepted(MachineAfter(es).regs, e);
  }

  // ----- interrupts

  /** When a call returns 0, every line is the level on irq_bits when its reply was made, and that is what the
      registers of the SoC stood for at that moment. */
  lemma LinesAreFreshOnReturn(moves: seq<Move>, t: Sys)
    requires CoSim.Reaches(CoSim.START, moves, t)
    requires t.net.returned != [] && t.net.returned[|t.net.returned| - 1].Good?
    ensures t.net.returned[|t.net.returned| - 1].slot < |t.served|
    ensures |t.net.client.lines| == Protocol.REMOTE_MMIO_MAX_IRQ
    ensures var v := t.served[t.net.returned[|t.net.returned| - 1].slot];
      && (forall b | 0 <= b < Protocol.REMOTE_MMIO_MAX_IRQ :: t.net.client.lines[b] <==> b in v.to.cur.irqBits)
      && v.to.cur.irqBits == PureIrq(v.to.regs) && Shows(v.to.cur.irqBits, v.to.regs)
      && v.to.regs == MachineAfter(v.to.trace).regs
  {
    hide CoSim.Reaches, ServedRight, MachineAfter, PureIrq, ToBits, ToWord, ReplyTo, Holds, Shows;
    var i := |t.net.returned| - 1;
    GoodCall(moves, t, i);
    var slot := t.net.returned[i].slot;
    var v := t.served[slot];
    ServedIrq(v, t.net.executed[slot], t.net.issued, t.soc);
    AlwaysHoldsTogether(moves, t);
    LinesShowLast(t);
    BitsOfWord(v.to.cur.irqBits);
    PureIrqShows(v.to.regs);
  }

  lemma ServedIrq(v: Served, x: Protocol.Exec, issued: seq<Protocol.Request>, k: Sim)
    requires ServedRight(v, x, issued, k)
    ensures ReplyTo(v).irqBits == ToWord(v.to.cur.irqBits) && v.to.cur.irqBits == PureIrq(v.to.regs)
    ensures MachineAfter(v.to.trace).regs == v.to.regs
  {
    hide Scheduled, KernelFacts, MachineAfter, PureIrq, InHand, AtHand, Begins, AnswerNow, ToWord, Accesses;
    ServedStates(v, x, issued, k);
  }

  lemma LinesShowLast(t: Sys)
    requires Holds(t) && t.net.returned != [] && t.net.returned[|t.net.returned| - 1].Good?
    ensures |t.net.client.lines| == Protocol.REMOTE_MMIO_MAX_IRQ
    ensures forall b | 0 <= b < Protocol.REMOTE_MMIO_MAX_IRQ ::
              t.net.client.lines[b] <==> b in ToBits(t.net.returned[|t.net.returned| - 1].irq)
  {
    hide Scheduled, JobRight, AllServed, ToBits, ProtocolInvariants.Framed, ProtocolInvariants.Truthful,
         ProtocolInvariants.HeadersOk;
  }

  /** Same-access freshness: when a read or write returns 0, the UART and GPIO lines already show what that very
      access has made of their registers. */
  lemma LinesShowTheAccessItself(moves: seq<Move>, t: Sys)
    requires CoSim.Reaches(CoSim.START, moves, t)
    requires t.net.returned != [] && t.net.returned[|t.net.returned| - 1].Good?
    ensures t.net.returned[|t.net.returned| - 1].slot < |t.served|
    ensures |t.net.client.lines| == Protocol.REMOTE_MMIO_MAX_IRQ
    ensures var v := t.served[t.net.returned[|t.net.returned| - 1].slot];
      var left := Effect(v.from.regs, v.q, Machine.NO_EDGES);
      && (t.net.client.lines[2] <==> exists i :: i in left.uart.ris && i in left.uart.imsc)
      && (t.net.client.lines[3] <==> exists i :: i in left.gpio.intstat && i in left.gpio.inten)
  {
    hide CoSim.Reaches, MachineAfter, PureIrq, Shows, Effect, Progress, GrownBy, Scheduled, ReplyTo;
    LinesAreFreshOnReturn(moves, t);
    var i := |t.net.returned| - 1;
    GoodCall(moves, t, i);
    var v := t.served[t.net.returned[i].slot];
    assert SameUartAndGpio(Effect(v.from.regs, v.q, Machine.NO_EDGES), v.to.regs);
    LaterIrqShows(Effect(v.from.regs, v.q, Machine.NO_EDGES), v.to.regs);
  }

  // ----- conservation

  /** The bus accesses that have reached the SoC are those of the requests served, in the order of the
      executions of the protocol, and of the request in hand once it has got that far. */
  lemma SocSeesExecutedAccesses(moves: seq<Move>, t: Sys)
    requires CoSim.Reaches(CoSim.START, moves, t) && AtHand(t.soc)
    ensures |t.served| == |t.net.executed|
    ensures forall j | 0 <= j < |t.served| ::
              t.net.executed[j].txn < |t.net.issued| && t.served[j].q == t.net.issued[t.net.executed[j].txn]
    ensures AccessesIn(t.soc.trace)
         == AccessesOf(t.served) + (if t.job.Some? then Accesses(t.job.value.q) else [])
    ensures MachineAfter(t.soc.trace) == Machine.State(t.soc.regs, t.soc.pclkState, t.soc.cur.reset)
  {
    AlwaysHoldsTogether(moves, t);
    hide CoSim.Reaches, ServedRight, JobRight, AtHand, Scheduled, KernelFacts, PureIrq, MachineAfter,
         ProtocolInvariants.Inv, AccessesIn, AccessesOf, Accesses;
    ServedTransactions(t);
    ScheduledFacts(t.soc);
    AtHandIsTheMachine(t.soc);
    if t.job.Some? {
      NewlyServed(t);
    } else {
      IdleAccesses(t);
    }
  }

  lemma ServedTransactions(t: Sys)
    requires AllServed(t)
    ensures forall j | 0 <= j < |t.served| ::
              t.net.executed[j].txn < |t.net.issued| && t.served[j].q == t.net.issued[t.net.executed[j].txn]
  {
    forall j | 0 <= j < |t.served|
      ensures t.net.executed[j].txn < |t.net.issued| && t.served[j].q == t.net.issued[t.net.executed[j].txn]
    {
      assert ServedRight(t.served[j], t.net.executed[j], t.net.issued, t.soc);
    }
  }

  /** The server is never stuck with a request: back from the bus it can reply. */
  lemma ServerCanReply(moves: seq<Move>, t: Sys)
    requires CoSim.Reaches(CoSim.START, moves, t) && t.job.Some? && AtHand(t.soc)
    ensures CoSim.Enabled(t, End)
  {
    hide CoSim.Reaches, Holds, ReplyNow, Protocol.Enabled;
    AlwaysHoldsTogether(moves, t);
    ReplyIsPossible(t);
  }
}
