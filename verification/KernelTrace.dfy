// The whole machine behind the scheduler, Timer included: the trace, in which every Timer access stands
// where the Timer saw it among the clock edges, runs the atomic machine to the registers of the SoC.
module KernelTrace {
  import opened Words
  import opened Tlm
  import opened MemoryMap
  import opened Soc
  import opened Kernel
  import opened KernelInvariants
  import opened KernelRefinement
  import opened KernelSettling
  import Machine
  import Timer
  import Sram
  import Gpio
  import Uart
  import SysCtrl
  import Watchdog

  // ----- events of the Timer and of everything else

  predicate ForTimer(e: Machine.Event) {
    e.Access? && FlatMap(e.address).Some? && FlatMap(e.address).value.device.TimerPort?
  }

  function WithoutTimer(es: seq<Machine.Event>): seq<Machine.Event> {
    if es == [] then [] else
      var e := es[|es| - 1];
      WithoutTimer(es[..|es| - 1]) + (if ForTimer(e) then [] else [e])
  }

  function TimerOnly(es: seq<Machine.Event>): seq<Machine.Event> {
    if es == [] then [] else
      var e := es[|es| - 1];
      TimerOnly(es[..|es| - 1]) + (if ForTimer(e) then [e] else [])
  }

  function EventsOf(acts: seq<PinAct>): seq<Machine.Event> {
    if acts == [] then [] else EventsOf(acts[..|acts| - 1]) + [TimerEvent(acts[|acts| - 1].req)]
  }

  /** What happens in the SoC: reset is never asserted again, and the Timer is only read and written. */
  predicate Usual(es: seq<Machine.Event>) {
    forall e | e in es :: !e.AssertReset? && (ForTimer(e) ==> !e.command.Ignore?)
  }

  function MachineAfter(es: seq<Machine.Event>): Machine.State {
    Machine.Run(Machine.POWER_ON, es)
  }

  function BlankState(m: Machine.State): Machine.State {
    m.(regs := Blank(m.regs))
  }

  // ----- the machine does not mix the Timer with the rest

  lemma EdgeOnBlank(m: Machine.State)
    ensures BlankState(Machine.Step(m, Machine.SysEdge)) == Machine.Step(BlankState(m), Machine.SysEdge)
    ensures Machine.Step(m, Machine.SysEdge).regs.timer == Timer.Edge(m.regs.timer)
  {
    hide Watchdog.Tick, Watchdog.RstLevel;
  }

  lemma AccessOnBlankState(m: Machine.State, e: Machine.Event)
    requires e.Access? && !ForTimer(e)
    ensures BlankState(Machine.Step(m, e)) == Machine.Step(BlankState(m), e)
    ensures Machine.Step(m, e).regs.timer == m.regs.timer
  {
    AccessOnBlank(m.regs, e);
    AccessKeepsTimer(m.regs, e);
    MachineAccess(m, e);
    MachineAccess(BlankState(m), e);
    hide Machine.Step, Machine.AccessEffect, Watchdog.RstLevel, FlatMap;
  }

  lemma AccessKeepsTimer(s: SocRegs, e: Machine.Event)
    requires e.Access? && !ForTimer(e)
    ensures Machine.AccessEffect(s, e).0.timer == s.timer
  {
    var t := FlatMap(e.address);
    if t.Some? {
      AccessIsLocal(s, e, t.value.device, t.value.offset);
      hide Machine.AccessEffect, FlatMap;
    }
  }

  /** A Timer access touches the Timer alone, and succeeds. */
  lemma TimerAccess(m: Machine.State, e: Machine.Event)
    requires ForTimer(e) && !e.command.Ignore?
    ensures FlatMap(e.address) == Some(Target(TimerPort, e.address))
    ensures Machine.Step(m, e)
         == m.(regs := m.regs.(timer := if e.command == Write then Timer.WriteReg(m.regs.timer, e.address, e.value)
                                        else m.regs.timer))
    ensures var o := Machine.AccessEffect(m.regs, e).1;
      o.txn.status == Okay && (e.command == Read ==> o.txn.data == ToBytes(Timer.ReadReg(m.regs.timer, e.address)))
  {
    TimerEffect(m.regs, e);
    hide Machine.AccessEffect, FlatMap, Timer.WriteReg, Timer.ReadReg, Watchdog.RstLevel, ToBytes;
  }

  lemma TimerEffect(s: SocRegs, e: Machine.Event)
    requires ForTimer(e) && !e.command.Ignore?
    ensures FlatMap(e.address) == Some(Target(TimerPort, e.address))
    ensures var (s', o) := Machine.AccessEffect(s, e);
      && s' == s.(timer := if e.command == Write then Timer.WriteReg(s.timer, e.address, e.value) else s.timer)
      && o.txn.status == Okay
      && (e.command == Read ==> o.txn.data == ToBytes(Timer.ReadReg(s.timer, e.address)))
  {
    FlatMapIsTheOneSlot(e.address, TimerPort);
    BytesRoundTrip(e.value);
    hide ToBytes, FromBytes, Timer.WriteReg, Timer.ReadReg, Sram.Transport, Gpio.Transport, Uart.Transport,
         SysCtrl.Transport, Watchdog.Transport;
  }

  /** Without the Timer's accesses the machine runs to the same state, the Timer apart. */
  lemma {:induction false} BlankRun(es: seq<Machine.Event>)
    requires Usual(es)
    ensures BlankState(MachineAfter(es)) == MachineAfter(WithoutTimer(es))
  {
    if es != [] {
      var front, e := es[..|es| - 1], es[|es| - 1];
      var m := MachineAfter(front);
      assert e in es && Usual(front);
      BlankRun(front);
      OneEventOnBlank(m, e);
      hide Machine.Step, ForTimer;
      if ForTimer(e) {
        assert WithoutTimer(es) == WithoutTimer(front);
      } else {
        assert WithoutTimer(es) == WithoutTimer(front) + [e];
        RunSnoc(WithoutTimer(front), e);
      }
    }
  }

  lemma OneEventOnBlank(m: Machine.State, e: Machine.Event)
    requires !e.AssertReset? && (ForTimer(e) ==> !e.command.Ignore?)
    ensures BlankState(Machine.Step(m, e))
         == if ForTimer(e) then BlankState(m) else Machine.Step(BlankState(m), e)
  {
    match e {
      case Access(_, _, _) =>
        hide Machine.Step;
        if ForTimer(e) {
          TimerAccess(m, e);
          hide ForTimer, FlatMap;
        } else {
          AccessOnBlankState(m, e);
        }
      case SysEdge => EdgeOnBlank(m);
      case ReleaseReset => hide Watchdog.RstLevel;
    }
  }

  // ----- where an activation goes

  /** timer_thread has yet to see the edge of this delta. */
  predicate EdgePending(k: Sim) {
    TimerThread in k.runnable
  }

  /** The trace runs the machine's Timer to where the Timer will be once it has seen that edge; that edge is
      then the last event, and before it the Timer is as it is. */
  predicate TraceTimer(k: Sim) {
    if EdgePending(k) then
      && k.trace != [] && k.trace[|k.trace| - 1].SysEdge?
      && MachineAfter(k.trace[..|k.trace| - 1]).regs.timer == k.regs.timer
    else MachineAfter(k.trace).regs.timer == k.regs.timer
  }

  predicate TraceEvents(k: Sim) {
    Usual(k.trace) && WithoutTimer(k.trace) == k.events && TimerOnly(k.trace) == EventsOf(k.acts)
  }

  function TicksIn(ops: seq<Timer.Op>): nat {
    if ops == [] then 0 else TicksIn(ops[..|ops| - 1]) + (if ops[|ops| - 1].Tick? then 1 else 0)
  }

  /** Activation a, which acted before operation m of the Timer, is event `at` of the trace: behind as many
      clock edges, and a read found the value that the machine's Timer has there. */
  predicate PlacedAt(a: PinAct, m: nat, at: nat, ops: seq<Timer.Op>, trace: seq<Machine.Event>) {
    && m <= |ops| && at < |trace| && trace[at] == TimerEvent(a.req)
    && Machine.EdgesIn(trace[..at]) == TicksIn(ops[..m])
    && (!a.req.write ==> a.value == Timer.ReadReg(MachineAfter(trace[..at]).regs.timer, a.req.offset))
  }

  predicate TracePlaces(k: Sim) {
    && Machine.EdgesIn(k.trace) == TicksIn(k.timerOps) + (if EdgePending(k) then 1 else 0)
    && |k.places| == |k.acts| == |k.marks|
    && (forall i | 0 <= i < |k.acts| :: PlacedAt(k.acts[i], k.marks[i], k.places[i], k.timerOps, k.trace))
    && forall i, j | 0 <= i < j < |k.places| :: k.places[i] < k.places[j]
  }

  /** A pin access is one to the Timer's slot. */
  predicate InSlot(offset: Word) {
    FlatMap(offset) == Some(Target(TimerPort, offset))
  }

  predicate Slotted(k: Sim) {
    Strobing(k.pc) ==> InSlot(k.pc.req.offset)
  }

  predicate TraceHolds(k: Sim) {
    TraceTimer(k) && TraceEvents(k) && TracePlaces(k)
  }

  // ----- steps that are none of the trace's business

  predicate SameTrace(k: Sim, j: Sim) {
    && j.regs.timer == k.regs.timer && j.trace == k.trace && j.events == k.events && j.acts == k.acts
    && j.marks == k.marks && j.places == k.places && j.timerOps == k.timerOps
    && (EdgePending(j) <==> EdgePending(k))
  }

  lemma SameTraceHolds(k: Sim, j: Sim)
    requires TraceHolds(k) && SameTrace(k, j)
    ensures TraceHolds(j)
  {
    hide EdgePending;
  }

  // ----- more operations and more events

  lemma TicksInSnoc(ops: seq<Timer.Op>, op: Timer.Op)
    ensures TicksIn(ops + [op]) == TicksIn(ops) + (if op.Tick? then 1 else 0)
  {
    assert (ops + [op])[..|ops|] == ops;
  }

  lemma SplitSnoc(es: seq<Machine.Event>, e: Machine.Event)
    ensures WithoutTimer(es + [e]) == WithoutTimer(es) + (if ForTimer(e) then [] else [e])
    ensures TimerOnly(es + [e]) == TimerOnly(es) + (if ForTimer(e) then [e] else [])
  {
    hide ForTimer;
    assert (es + [e])[..|es|] == es;
  }

  lemma PlacedLater(a: PinAct, m: nat, at: nat, ops: seq<Timer.Op>, trace: seq<Machine.Event>,
                    ops': seq<Timer.Op>, trace': seq<Machine.Event>)
    requires PlacedAt(a, m, at, ops, trace) && ops <= ops' && |trace| <= |trace'|
    requires at < |trace'| && trace'[..at + 1] == trace[..at + 1]
    ensures PlacedAt(a, m, at, ops', trace')
  {
    hide Timer.ReadReg, MachineAfter, Machine.EdgesIn, TicksIn;
    assert ops'[..m] == ops[..m];
    assert trace'[..at + 1][at] == trace'[at] && trace[..at + 1][at] == trace[at];
    assert trace'[..at] == trace'[..at + 1][..at] && trace[..at] == trace[..at + 1][..at];
  }

  /** Everything placed so far stays placed when operations and events are added behind. */
  lemma AllPlacedLater(k: Sim, j: Sim)
    requires TracePlaces(k) && j.acts == k.acts && j.marks == k.marks && j.places == k.places
    requires k.timerOps <= j.timerOps && k.trace <= j.trace
    ensures forall i | 0 <= i < |k.acts| :: PlacedAt(k.acts[i], k.marks[i], k.places[i], j.timerOps, j.trace)
  {
    hide PlacedAt, Machine.EdgesIn, TicksIn;
    forall i | 0 <= i < |k.acts|
      ensures PlacedAt(k.acts[i], k.marks[i], k.places[i], j.timerOps, j.trace)
    {
      assert PlacedAt(k.acts[i], k.marks[i], k.places[i], k.timerOps, k.trace);
      PlacedInside(k, i);
      assert k.trace[..k.places[i] + 1] == j.trace[..k.places[i] + 1];
      PlacedLater(k.acts[i], k.marks[i], k.places[i], k.timerOps, k.trace, j.timerOps, j.trace);
    }
  }

  lemma PlacedInside(k: Sim, i: nat)
    requires TracePlaces(k) && i < |k.acts|
    ensures k.places[i] < |k.trace|
  {
    assert PlacedAt(k.acts[i], k.marks[i], k.places[i], k.timerOps, k.trace);
  }

  // ----- an activation

  /** The trace in front of the place of an activation, and behind it. */
  lemma PlaceSplits(k: Sim)
    requires TraceTimer(k)
    ensures Place(k) <= |k.trace| && k.trace == k.trace[..Place(k)] + k.trace[Place(k)..]
    ensures k.trace[Place(k)..] == if EdgePending(k) then [Machine.SysEdge] else []
    ensures MachineAfter(k.trace[..Place(k)]).regs.timer == k.regs.timer
  {
    hide MachineAfter;
    if !EdgePending(k) {
      assert k.trace[..|k.trace|] == k.trace;
    }
  }

  /** Operation op of the Timer is what event e of the machine does to it. */
  function TimerAfter(r: Timer.Regs, a: PinAct): Timer.Regs {
    if a.req.write then Timer.WriteReg(r, a.req.offset, a.req.data) else r
  }

  lemma ActivationIsAnEvent(m: Machine.State, a: PinAct)
    requires InSlot(a.req.offset)
    ensures ForTimer(TimerEvent(a.req)) && !TimerEvent(a.req).command.Ignore?
    ensures Machine.Step(m, TimerEvent(a.req)).regs.timer == TimerAfter(m.regs.timer, a)
  {
    TimerAccess(m, TimerEvent(a.req));
    hide Machine.Step, FlatMap, Timer.WriteReg;
  }

  lemma LogKeepsTraceTimer(k: Sim, a: PinAct, r: SocRegs)
    requires TraceTimer(k) && InSlot(a.req.offset) && r.timer == TimerAfter(k.regs.timer, a)
    ensures TraceTimer(Log(k, a).(regs := r))
  {
    var at, e, j := Place(k), TimerEvent(a.req), Log(k, a);
    PlaceSplits(k);
    ActivationIsAnEvent(MachineAfter(k.trace[..at]), a);
    RunSnoc(k.trace[..at], e);
    hide TimerEvent, Timer.WriteReg, Machine.Run, Machine.Step, InSlot, ForTimer;
    if EdgePending(k) {
      assert j.trace[..|j.trace| - 1] == k.trace[..at] + [e];
    } else {
      assert j.trace == k.trace[..at] + [e];
    }
  }

  lemma InsertBeforeEdge(base: seq<Machine.Event>, e: Machine.Event, tail: seq<Machine.Event>)
    requires ForTimer(e) && (tail == [] || tail == [Machine.SysEdge])
    ensures WithoutTimer(base + [e] + tail) == WithoutTimer(base + tail)
    ensures TimerOnly(base + [e] + tail) == TimerOnly(base + tail) + [e]
  {
    SplitSnoc(base, e);
    hide FlatMap, WithoutTimer, TimerOnly;
    if tail == [] {
      assert base + [e] + tail == base + [e] && base + tail == base;
      assert WithoutTimer(base) + [] == WithoutTimer(base);
    } else {
      SplitSnoc(base, Machine.SysEdge);
      SplitSnoc(base + [e], Machine.SysEdge);
      assert TimerOnly(base) + [] == TimerOnly(base) && TimerOnly(base) + [e] + [] == TimerOnly(base) + [e];
      assert WithoutTimer(base) + [] == WithoutTimer(base);
    }
  }

  lemma InsertUsual(base: seq<Machine.Event>, e: Machine.Event, tail: seq<Machine.Event>)
    requires Usual(base + tail) && !e.AssertReset? && !(ForTimer(e) && e.command.Ignore?)
    ensures Usual(base + [e] + tail)
  {
    hide FlatMap;
    assert forall f | f in base + [e] + tail :: f == e || f in base + tail;
  }

  lemma LogKeepsTraceEvents(k: Sim, a: PinAct)
    requires TraceTimer(k) && TraceEvents(k) && InSlot(a.req.offset)
    ensures TraceEvents(Log(k, a))
  {
    var at, e, j := Place(k), TimerEvent(a.req), Log(k, a);
    PlaceSplits(k);
    ActivationIsAnEvent(Machine.POWER_ON, a);
    assert j.acts[..|j.acts| - 1] == k.acts;
    assert e.Access?;
    hide TimerEvent, TraceTimer, InSlot, ForTimer, TimerOnly, WithoutTimer, Usual;
    InsertBeforeEdge(k.trace[..at], e, k.trace[at..]);
    InsertUsual(k.trace[..at], e, k.trace[at..]);
  }

  /** The activation itself is where it belongs. */
  lemma InsertedEdges(base: seq<Machine.Event>, e: Machine.Event, tail: seq<Machine.Event>)
    requires !e.SysEdge? && (tail == [] || tail == [Machine.SysEdge])
    ensures Machine.EdgesIn(base + [e] + tail) == Machine.EdgesIn(base + tail)
  {
    Machine.EdgesInSnoc(base, e);
    Machine.EdgesInSnoc(base, Machine.SysEdge);
    Machine.EdgesInSnoc(base + [e], Machine.SysEdge);
    hide Machine.EdgesIn;
    if tail == [] {
      assert base + [e] + tail == base + [e] && base + tail == base;
    }
  }

  /** As many edges before the place as operations so far. */
  lemma EdgesBeforePlace(k: Sim)
    requires TraceTimer(k) && TracePlaces(k)
    ensures Place(k) <= |k.trace| && Machine.EdgesIn(k.trace[..Place(k)]) == TicksIn(k.timerOps)
  {
    PlaceSplits(k);
    Machine.EdgesInSnoc(k.trace[..Place(k)], Machine.SysEdge);
    hide Machine.EdgesIn, TicksIn, MachineAfter, PlacedAt, EdgePending, TraceTimer, Place;
    if !EdgePending(k) {
      assert k.trace[..Place(k)] + [] == k.trace[..Place(k)];
    }
  }

  /** The activation itself is where it belongs. */
  lemma NewPlace(k: Sim, a: PinAct)
    requires TraceTimer(k) && TracePlaces(k)
    requires !a.req.write ==> a.value == Timer.ReadReg(k.regs.timer, a.req.offset)
    ensures PlacedAt(a, |k.timerOps|, Place(k), k.timerOps, Log(k, a).trace)
    ensures Machine.EdgesIn(Log(k, a).trace) == Machine.EdgesIn(k.trace)
  {
    var at, e, j := Place(k), TimerEvent(a.req), Log(k, a);
    PlaceSplits(k);
    EdgesBeforePlace(k);
    NotAnEdge(a);
    hide TimerEvent, MachineAfter, Machine.EdgesIn, TicksIn, Timer.ReadReg, EdgePending, TraceTimer, TracePlaces, Place;
    InsertedEdges(k.trace[..at], e, k.trace[at..]);
    assert j.trace[..at] == k.trace[..at];
    assert k.timerOps[..|k.timerOps|] == k.timerOps;
  }

  lemma LogPlaces(k: Sim, a: PinAct)
    requires TraceTimer(k) && TracePlaces(k)
    requires !a.req.write ==> a.value == Timer.ReadReg(k.regs.timer, a.req.offset)
    ensures TracePlaces(Log(k, a))
  {
    hide PlacedAt, Machine.EdgesIn, TicksIn, Place, TimerEvent, TraceTimer, Timer.ReadReg;
    NewPlace(k, a);
    EarlierPlacesStay(k, a);
  }

  lemma NotAnEdge(a: PinAct)
    ensures !TimerEvent(a.req).SysEdge?
  {
  }

  /** An activation never goes in front of an earlier one. */
  lemma EarlierPlacesStay(k: Sim, a: PinAct)
    requires TraceTimer(k) && TracePlaces(k)
    ensures forall i | 0 <= i < |k.acts| ::
              PlacedAt(k.acts[i], k.marks[i], k.places[i], k.timerOps, Log(k, a).trace)
    ensures forall i | 0 <= i < |k.acts| :: k.places[i] < Place(k)
  {
    var at, j := Place(k), Log(k, a);
    PlaceSplits(k);
    hide TimerEvent, MachineAfter, Machine.EdgesIn, TicksIn;
    forall i | 0 <= i < |k.acts|
      ensures PlacedAt(k.acts[i], k.marks[i], k.places[i], k.timerOps, j.trace) && k.places[i] < at
    {
      assert PlacedAt(k.acts[i], k.marks[i], k.places[i], k.timerOps, k.trace);
      NotAnEdge(k.acts[i]);
      var p := k.places[i];
      assert p < at;
      assert j.trace[..p + 1] == k.trace[..p + 1];
      hide PlacedAt;
      PlacedLater(k.acts[i], k.marks[i], p, k.timerOps, k.trace, k.timerOps, j.trace);
    }
  }

  // ----- choices of the scheduler

  /** A bus process runs for the access the bridge is driving, which is to the Timer's slot. */
  lemma BusRunIsStrobe(k: Sim, p: Proc)
    requires Handshake(k) && Slotted(k) && p in k.runnable && p in {TimerRead, TimerWrite}
    ensures InSlot(k.cur.address) && k.cur.readEn == (p == TimerRead) && k.cur.writeEn == (p == TimerWrite)
  {
    hide InSlot;
  }

  lemma OpKeepsPlaces(k: Sim, op: Timer.Op)
    requires TracePlaces(k) && !op.Tick?
    ensures TracePlaces(TimerOp(k, op))
  {
    hide PlacedAt, Machine.EdgesIn, TicksIn, Timer.Step;
    TicksInSnoc(k.timerOps, op);
    AllPlacedLater(k, TimerOp(k, op));
  }

  /** The registers play no part in the sequence of events and its places. */
  lemma OtherRegs(k: Sim, r: SocRegs)
    requires TraceEvents(k) && TracePlaces(k)
    ensures TraceEvents(k.(regs := r)) && TracePlaces(k.(regs := r))
  {
    hide PlacedAt, Machine.EdgesIn, TicksIn, Usual, WithoutTimer, TimerOnly, EventsOf;
  }

  lemma LogKeepsTrace(k: Sim, a: PinAct, r: SocRegs)
    requires TraceHolds(k) && InSlot(a.req.offset) && r.timer == TimerAfter(k.regs.timer, a)
    requires !a.req.write ==> a.value == Timer.ReadReg(k.regs.timer, a.req.offset)
    ensures TraceHolds(Log(k, a).(regs := r))
  {
    hide TimerAfter, InSlot, Timer.ReadReg, TraceTimer, TraceEvents, TracePlaces, Log;
    LogKeepsTraceTimer(k, a, r);
    LogKeepsTraceEvents(k, a);
    LogPlaces(k, a);
    OtherRegs(Log(k, a), r);
  }

  lemma ReadKeepsTrace(k: Sim)
    requires TraceHolds(k) && InSlot(k.cur.address)
    ensures TraceHolds(RunBus(k, TimerRead))
  {
    hide TraceHolds, InSlot, Timer.ReadReg;
    if k.cur.readEn {
      var v := Timer.ReadReg(k.regs.timer, k.cur.address);
      var a := PinAct(PinReq(false, k.cur.address, k.cur.dataIn), v);
      var j := k.(next := k.next.(dataOut := v));
      SameTraceHolds(k, j);
      LogKeepsTrace(j, a, j.regs);
    }
  }

  /** The registers have moved by a write whose activation is already in the trace. */
  lemma WrittenKeepsTrace(k: Sim, op: Timer.Op)
    requires TraceHolds(k.(regs := k.regs.(timer := Timer.Step(k.regs.timer, op)))) && !op.Tick?
    ensures TraceHolds(TimerOp(k, op))
  {
    var r := k.regs.(timer := Timer.Step(k.regs.timer, op));
    hide TraceHolds, Timer.Step;
    TimerWritten(k, r, op);
    assert TracePlaces(k.(regs := r)) by {
      PartsOfTrace(k.(regs := r));
    }
    WrittenPlaces(k, r, op);
    hide TraceTimer, TraceEvents, TracePlaces, TimerOp;
    PartsOfTrace(TimerOp(k, op));
  }

  lemma PartsOfTrace(k: Sim)
    ensures TraceHolds(k) <==> TraceTimer(k) && TraceEvents(k) && TracePlaces(k)
  {
    hide TraceTimer, TraceEvents, TracePlaces;
  }

  lemma TimerWritten(k: Sim, r: SocRegs, op: Timer.Op)
    requires TraceHolds(k.(regs := r)) && r == k.regs.(timer := Timer.Step(k.regs.timer, op))
    ensures TraceTimer(TimerOp(k, op)) && TraceEvents(TimerOp(k, op))
  {
    hide Timer.Step, TracePlaces, MachineAfter, Usual, WithoutTimer, TimerOnly, EventsOf;
  }

  lemma WrittenPlaces(k: Sim, r: SocRegs, op: Timer.Op)
    requires TracePlaces(k.(regs := r)) && !op.Tick?
    ensures TracePlaces(TimerOp(k, op))
  {
    hide Timer.Step, PlacedAt, Machine.EdgesIn, TicksIn;
    OpKeepsPlaces(k, op);
  }

  lemma WriteKeepsTrace(k: Sim)
    requires TraceHolds(k) && InSlot(k.cur.address)
    ensures TraceHolds(RunBus(k, TimerWrite))
  {
    hide TraceHolds, InSlot, Timer.WriteReg, TimerOp;
    if k.cur.writeEn {
      var a := PinAct(PinReq(true, k.cur.address, k.cur.dataIn), k.cur.dataIn);
      var op := Timer.BusWrite(k.cur.address, k.cur.dataIn);
      LogKeepsTrace(k, a, k.regs.(timer := Timer.Step(k.regs.timer, op)));
      WrittenKeepsTrace(LogWrite(k), op);
    }
  }

  lemma TickIsTheEdge(k: Sim)
    requires TraceTimer(k) && EdgePending(k)
    ensures MachineAfter(k.trace).regs.timer == Timer.Edge(k.regs.timer)
  {
    var front := k.trace[..|k.trace| - 1];
    assert k.trace == front + [Machine.SysEdge];
    hide Machine.Run, Machine.Step, Timer.Edge;
    RunSnoc(front, Machine.SysEdge);
    EdgeOnBlank(MachineAfter(front));
  }

  lemma TickKeepsPlaces(k: Sim, j: Sim)
    requires TracePlaces(k) && EdgePending(k) && !EdgePending(j)
    requires j.timerOps == k.timerOps + [Timer.Tick] && j.trace == k.trace
    requires j.acts == k.acts && j.marks == k.marks && j.places == k.places
    ensures TracePlaces(j)
  {
    hide PlacedAt, Machine.EdgesIn, TicksIn;
    TicksInSnoc(k.timerOps, Timer.Tick);
    AllPlacedLater(k, j);
  }

  lemma TickKeepsTrace(k: Sim)
    requires TraceHolds(k) && EdgePending(k)
    ensures TraceHolds(TimerOp(k.(runnable := k.runnable - {TimerThread}), Timer.Tick))
  {
    hide TracePlaces, Usual, WithoutTimer, TimerOnly, Timer.Edge, MachineAfter;
    TickIsTheEdge(k);
    TickKeepsPlaces(k, TimerOp(k.(runnable := k.runnable - {TimerThread}), Timer.Tick));
  }

  lemma HighResetKeepsTrace(k: Sim)
    requires TraceHolds(k) && k.regs.timer == Timer.AT_RESET
    ensures TraceHolds(TimerOp(k, Timer.Reset))
  {
    hide TraceHolds;
    assert k.(regs := k.regs.(timer := Timer.AT_RESET)) == k;
    WrittenKeepsTrace(k, Timer.Reset);
  }

  lemma DriverSameTrace(k: Sim, p: Proc)
    ensures SameTrace(k, RunDriver(k, p))
  {
    hide Watchdog.RstLevel, Watchdog.IrqLevel, Gpio.IrqLevel, Uart.IrqLevel, PackWires;
  }

  lemma ClockedSameTrace(k: Sim, p: Proc)
    requires p != TimerThread
    ensures SameTrace(k, RunClocked(k, p))
  {
    hide Watchdog.Tick, Watchdog.Expires;
  }

  lemma ResetSameTrace(k: Sim, p: Proc)
    requires p != TimerReset
    ensures SameTrace(k, RunReset(k, p))
  {
  }

  lemma OtherRunSameTrace(k: Sim, p: Proc, act: ServerAct)
    requires p !in {Server, TimerThread, TimerReset, TimerRead, TimerWrite}
    ensures SameTrace(k.(runnable := k.runnable - {p}), RunProc(k, p, act))
  {
    hide RunDriver, RunClocked, RunReset, SameTrace;
    var j := k.(runnable := k.runnable - {p});
    if p in DRIVERS {
      DriverSameTrace(j, p);
    } else if p in RESETS {
      ResetSameTrace(j, p);
    } else {
      ClockedSameTrace(j, p);
    }
  }

  lemma DeviceRunKeepsTrace(k: Sim, p: Proc, act: ServerAct)
    requires TraceHolds(k) && Slotted(k) && Handshake(k) && ClockPhases(k) && p in k.runnable && p != Server
    ensures TraceHolds(RunProc(k, p, act))
  {
    var j := k.(runnable := k.runnable - {p});
    hide TraceHolds, RunBus, TimerOp;
    if p == TimerThread {
      TickKeepsTrace(k);
    } else if p == TimerReset {
      SameTraceHolds(k, j);
      if k.cur.reset {
        assert p in k.runnable * RESETS;
        ReadInitial(k);
        HighResetKeepsTrace(j);
      }
    } else if p in {TimerRead, TimerWrite} {
      hide ClockPhases;
      BusRunIsStrobe(k, p);
      SameTraceHolds(k, j);
      hide InSlot, Handshake;
      ReadKeepsTrace(j);
      WriteKeepsTrace(j);
    } else {
      SameTraceHolds(k, j);
      hide RunProc, ClockPhases, Handshake, SameTrace;
      OtherRunSameTrace(k, p, act);
      SameTraceHolds(j, RunProc(k, p, act));
    }
  }

  /** One more event while no edge is pending. */
  lemma NextEvent(k: Sim, j: Sim, e: Machine.Event)
    requires TraceHolds(k) && !EdgePending(k) && !ForTimer(e) && !e.AssertReset?
    requires j.trace == k.trace + [e] && j.events == k.events + [e] && j.timerOps == k.timerOps
    requires j.acts == k.acts && j.marks == k.marks && j.places == k.places && j.regs.timer == k.regs.timer
    requires EdgePending(j) <==> e.SysEdge?
    ensures TraceHolds(j)
  {
    if !e.SysEdge? {
      RunSnoc(k.trace, e);
      QuietForTimer(MachineAfter(k.trace), e);
    }
    SplitSnoc(k.trace, e);
    Machine.EdgesInSnoc(k.trace, e);
    AllPlacedLater(k, j);
    hide EdgePending, PlacedAt, Machine.EdgesIn, TicksIn, Machine.Step, Machine.Run, ForTimer, TimerOnly, WithoutTimer;
    assert j.trace[..|j.trace| - 1] == k.trace;
    assert TimerOnly(k.trace) + [] == TimerOnly(k.trace);
  }

  lemma QuietForTimer(m: Machine.State, e: Machine.Event)
    requires !ForTimer(e) && (e.Access? || e.ReleaseReset?)
    ensures Machine.Step(m, e).regs.timer == m.regs.timer
  {
    if e.Access? {
      AccessOnBlankState(m, e);
      hide Machine.Step;
    }
  }

  lemma UpdateKeepsTrace(k: Sim)
    requires TraceHolds(k) && ClockPhases(k) && k.runnable == {}
    ensures TraceHolds(UpdatePhase(k))
  {
    var j := UpdatePhase(k);
    TriggeredShape(k.cur, k.next);
    assert TimerThread !in Triggered(k.cur, k.next) by {
      ThreadIsNotTriggered(k.cur, k.next);
    }
    assert k.clockDue ==> k.cur.reset == k.next.reset;
    hide TraceHolds, Triggered, ClockPhases;
    if k.clockDue {
      NextEvent(k, j, Machine.SysEdge);
    } else if k.cur.reset && !k.next.reset {
      NextEvent(k, j, Machine.ReleaseReset);
    } else {
      assert k.trace + [] == k.trace && k.events + [] == k.events;
      SameTraceHolds(k, j);
    }
  }

  lemma ThreadIsNotTriggered(a: Wires, b: Wires)
    ensures TimerThread !in Triggered(a, b)
  {
  }

  lemma ServerKeepsTrace(k: Sim, act: ServerAct)
    requires TraceHolds(k) && (k.pc.Ready? ==> !EdgePending(k))
    ensures TraceHolds(RunServer(k, act))
  {
    hide TraceHolds;
    if k.pc.Ready? && act.Serve? {
      hide StartAccess;
      StartKeepsTrace(k, Machine.Access(act.command, act.address, act.value));
    } else {
      hide RunServer;
      WaitShape(k, act);
      SameTraceHolds(k, RunServer(k, act));
    }
  }

  lemma NotifiedIsNoEdge(s: SocRegs, d: Device, t: Txn)
    ensures TimerThread !in Notified(s, d, t)
  {
    NotifiedAreDrivers(s, d, t);
  }

  lemma StartKeepsTrace(k: Sim, e: Machine.Event)
    requires TraceHolds(k) && !EdgePending(k) && e.Access?
    ensures TraceHolds(StartAccess(k, e))
  {
    hide TraceHolds, Machine.AccessEffect, Notified;
    var j := StartAccess(k, e);
    match FlatMap(e.address) {
      case None => NextEvent(k, j, e);
      case Some(Target(TimerPort, _)) => SameTraceHolds(k, j);
      case Some(Target(d, offset)) =>
        AccessKeepsTimer(k.regs, e);
        NotifiedIsNoEdge(k.regs, d, Local(e, offset));
        NextEvent(k, j, e);
    }
  }

  lemma ServerRunKeepsTrace(k: Sim, act: ServerAct)
    requires TraceHolds(k) && ServerAlone(k) && Server in k.runnable
    ensures TraceHolds(RunProc(k, Server, act))
  {
    var j := k.(runnable := k.runnable - {Server});
    assert k.pc.Ready? ==> !EdgePending(j);
    hide TraceHolds, RunServer, ServerAlone;
    SameTraceHolds(k, j);
    ServerKeepsTrace(j, act);
  }

  lemma ServerKeepsSlotted(k: Sim, act: ServerAct)
    requires Slotted(k)
    ensures Slotted(RunServer(k, act))
  {
    hide Machine.AccessEffect, Notified, InSlot;
    if k.pc.Ready? && act.Serve? {
      var t := FlatMap(act.address);
      if t.Some? && t.value.device.TimerPort? {
        TimerSlotIsInPlace(act.address);
      }
    }
  }

  /** The Timer's slot is the first of the window. */
  lemma TimerSlotIsInPlace(addr: Word)
    requires FlatMap(addr).Some? && FlatMap(addr).value.device.TimerPort?
    ensures FlatMap(addr).value.offset == addr && InSlot(addr)
  {
    FlatMapIsTheOneSlot(addr, TimerPort);
  }

  lemma ChoiceKeepsSlotted(k: Sim, c: Choice)
    requires Slotted(k)
    ensures Slotted(Next(k, c))
  {
    hide InSlot, RunServer;
    match c {
      case Run(p, act) =>
        if p == Server {
          ServerKeepsSlotted(k.(runnable := k.runnable - {Server}), act);
        } else {
          hide RunProc;
          DeviceRunIsLocal(k, p, act);
        }
      case Update => hide Triggered, Clocked;
      case Advance(_, _) =>
    }
  }

  lemma ChoiceKeepsTrace(k: Sim, c: Choice)
    requires TraceHolds(k) && Slotted(k) && Handshake(k) && ServerAlone(k) && ClockPhases(k) && Enabled(k, c)
    ensures TraceHolds(Next(k, c))
  {
    match c {
      case Run(p, act) =>
        hide TraceHolds, RunProc, Handshake, ServerAlone, ClockPhases, Slotted;
        if p == Server {
          ServerRunKeepsTrace(k, act);
        } else {
          DeviceRunKeepsTrace(k, p, act);
        }
      case Update =>
        hide TraceHolds, UpdatePhase, Handshake, ServerAlone, ClockPhases, Slotted;
        UpdateKeepsTrace(k);
      case Advance(_, _) =>
        hide TraceHolds, Handshake, ServerAlone, ClockPhases, Slotted;
        SameTraceHolds(k, Next(k, c));
    }
  }

  lemma {:induction false} AlwaysTraced(cs: seq<Choice>)
    requires Schedule(START, cs)
    ensures TraceHolds(After(START, cs)) && Slotted(After(START, cs))
  {
    if cs != [] {
      var front := cs[..|cs| - 1];
      AlwaysTraced(front);
      AlwaysHolds(front);
      AlwaysRefines(front);
      hide Next, Enabled, DriversFollow, ServerAlone, Handshake, TimerHistory, ClockPhases, Refines, TraceHolds,
           Slotted;
      ChoiceKeepsTrace(After(START, front), cs[|cs| - 1]);
      ChoiceKeepsSlotted(After(START, front), cs[|cs| - 1]);
    }
  }

  // ----- theorems

  /** Nothing is on its way: the SoC is quiescent, or the server is running between accesses. */
  predicate AtRest(k: Sim) {
    Quiescent(k) || (Server in k.runnable && !Strobing(k.pc))
  }

  lemma AtRestIsTheMachine(k: Sim)
    requires AtRest(k) && DriversFollow(k) && ServerAlone(k) && ClockPhases(k) && Refines(k) && TraceHolds(k)
    ensures MachineAfter(k.trace) == Machine.State(k.regs, k.pclkState, k.cur.reset)
    ensures k.cur.irqBits == PureIrq(k.regs)
  {
    assert k.cur == k.next && k.runnable <= {Server} && k.cur.pclk == k.pclkState;
    BlankRun(k.trace);
    hide Machine.Run, ClockPhases, ServerAlone, PureIrq;
    SettledHeading(k);
    assert MachineAfter(k.trace).regs.timer == k.regs.timer;
    hide Heading, TracePlaces;
    SettledIrqIsPure(k);
  }

  /** The scheduler refines the atomic machine, Timer included.  Whenever nothing is on its way, the registers
      of every device, the clock and reset are those of the machine after the trace, and irq_bits is the pure
      packing of the machine's registers.  The trace is the accesses, edges and reset changes in the order in
      which they came about, with the Timer accesses the bridge has made, in order, each at its activation:
      behind as many clock edges as the Timer had seen, and where a read finds the value it returned. */
  lemma TraceRunsTheMachine(cs: seq<Choice>)
    requires Schedule(START, cs) && AtRest(After(START, cs))
    ensures var k := After(START, cs);
      && MachineAfter(k.trace) == Machine.State(k.regs, k.pclkState, k.cur.reset)
      && k.cur.irqBits == PureIrq(MachineAfter(k.trace).regs)
    ensures var k := After(START, cs);
      && WithoutTimer(k.trace) == k.events && TimerOnly(k.trace) == EventsOf(k.done)
      && |k.places| == |k.done| == |k.marks|
      && (forall i, j | 0 <= i < j < |k.places| :: k.places[i] < k.places[j])
      && forall i | 0 <= i < |k.done| :: PlacedAt(k.done[i], k.marks[i], k.places[i], k.timerOps, k.trace)
  {
    var k := After(START, cs);
    AlwaysHolds(cs);
    AlwaysRefines(cs);
    AlwaysTraced(cs);
    RestIsNoStrobe(k);
    hide Machine.Run, DriversFollow, ServerAlone, Handshake, TimerHistory, ClockPhases, Refines, AtRest, TraceTimer,
         PlacedAt, WithoutTimer, TimerOnly, EventsOf, PureIrq;
    AtRestIsTheMachine(k);
  }

  lemma RestIsNoStrobe(k: Sim)
    requires AtRest(k) && ServerAlone(k) && Handshake(k)
    ensures k.done == k.acts
  {
  }
}
