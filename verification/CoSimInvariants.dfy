// What holds in every state of every run of both sides together.
module CoSimInvariants {
  import opened Words
  import opened Tlm
  import opened MemoryMap
  import opened Soc
  import opened Kernel
  import opened KernelInvariants
  import opened KernelRefinement
  import opened KernelSettling
  import opened KernelTrace
  import opened KernelFreshness
  import opened CosimServer
  import opened CoSim
  import Protocol
  import ProtocolInvariants
  import ProtocolProgress
  import Machine
  import Timer

  // ----- the SoC side is a run of the scheduler, the other side one of the protocol

  ghost predicate Scheduled(k: Sim) {
    exists cs :: Schedule(Kernel.START, cs) && After(Kernel.START, cs) == k
  }

  lemma ScheduledOn(k: Sim, c: Choice)
    requires Scheduled(k) && Kernel.Enabled(k, c)
    ensures Scheduled(Kernel.Next(k, c))
  {
    hide Kernel.Next, Kernel.Enabled;
    var cs :| Schedule(Kernel.START, cs) && After(Kernel.START, cs) == k;
    assert (cs + [c])[..|cs|] == cs;
    assert Schedule(Kernel.START, cs + [c]) && After(Kernel.START, cs + [c]) == Kernel.Next(k, c);
  }

  /** Everything known of the states of the scheduler. */
  predicate KernelFacts(k: Sim) {
    && DriversFollow(k) && ServerAlone(k) && Handshake(k) && ClockPhases(k) && Refines(k)
    && TraceHolds(k) && Slotted(k)
  }

  lemma ScheduledFacts(k: Sim)
    requires Scheduled(k)
    ensures KernelFacts(k)
  {
    var cs :| Schedule(Kernel.START, cs) && After(Kernel.START, cs) == k;
    hide DriversFollow, ServerAlone, Handshake, TimerHistory, ClockPhases, Refines, TraceHolds, Slotted;
    AlwaysHolds(cs);
    AlwaysRefines(cs);
    AlwaysTraced(cs);
  }

  /** When the server is at hand, the SoC is the machine after the trace, and irq_bits stands for it. */
  lemma AtHandIsTheMachine(k: Sim)
    requires KernelFacts(k) && AtHand(k)
    ensures MachineAfter(k.trace) == Machine.State(k.regs, k.pclkState, k.cur.reset)
    ensures k.cur.irqBits == PureIrq(k.regs) && k.acts == k.done && |k.places| == |k.acts| && !EdgePending(k)
  {
    assert k.acts == k.done && k.runnable == {Server} && |k.places| == |k.acts|;
    hide DriversFollow, ServerAlone, Handshake, ClockPhases, Refines, TraceHolds, Slotted, PureIrq, Machine.Run;
    AtRestIsTheMachine(k);
  }

  // ----- accesses in the trace

  function AccessesIn(es: seq<Machine.Event>): seq<Machine.Event> {
    if es == [] then [] else
      var e := es[|es| - 1];
      AccessesIn(es[..|es| - 1]) + (if e.Access? then [e] else [])
  }

  lemma AccessesInSnoc(es: seq<Machine.Event>, e: Machine.Event)
    ensures AccessesIn(es + [e]) == AccessesIn(es) + (if e.Access? then [e] else [])
  {
    assert (es + [e])[..|es|] == es;
  }

  lemma EventsOfSnoc(acts: seq<PinAct>, a: PinAct)
    ensures EventsOf(acts + [a]) == EventsOf(acts) + [TimerEvent(a.req)]
  {
    assert (acts + [a])[..|acts|] == acts;
  }

  /** The trace begins with past, and will go on to: nothing is inserted but in front of a pending edge. */
  predicate Begins(past: seq<Machine.Event>, k: Sim) {
    past <= k.trace && (EdgePending(k) ==> |past| < |k.trace|)
  }

  /** What has happened to the trace since it was `from`: nothing in it has moved, `own` has come right behind,
      and the accesses that have come since are those of activations. */
  predicate GrownBy(from: Sim, own: seq<Machine.Event>, k: Sim) {
    && Begins(from.trace + own, k)
    && from.acts <= k.acts && |k.places| == |k.acts|
    && (forall i | |from.acts| <= i < |k.places| :: k.places[i] >= |from.trace + own|)
    && AccessesIn(k.trace) == AccessesIn(from.trace) + own + EventsOf(k.acts[|from.acts|..])
  }

  lemma GrownByNothing(from: Sim, own: seq<Machine.Event>, k: Sim, j: Sim)
    requires GrownBy(from, own, k) && j.trace == k.trace && j.acts == k.acts && j.places == k.places
    requires EdgePending(j) ==> EdgePending(k)
    ensures GrownBy(from, own, j)
  {
  }

  lemma AccessesInInserted(base: seq<Machine.Event>, e: Machine.Event, tail: seq<Machine.Event>)
    requires e.Access? && (tail == [] || tail == [Machine.SysEdge])
    ensures AccessesIn(base + [e] + tail) == AccessesIn(base + tail) + [e]
  {
    AccessesInSnoc(base, e);
    AccessesInSnoc(base, Machine.SysEdge);
    AccessesInSnoc(base + [e], Machine.SysEdge);
    hide AccessesIn;
    if tail == [] {
      assert base + [e] + tail == base + [e] && base + tail == base;
    }
  }

  /** The trace and the activations grow by one access, behind everything there was in `from`. */
  lemma OneMoreGrows(from: Sim, own: seq<Machine.Event>, k: Sim, j: Sim, base: seq<Machine.Event>,
                     a: PinAct, tail: seq<Machine.Event>)
    requires GrownBy(from, own, k) && k.trace == base + tail && |from.trace + own| <= |base|
    requires tail == [] || tail == [Machine.SysEdge]
    requires j.trace == base + [TimerEvent(a.req)] + tail && j.acts == k.acts + [a] && j.places == k.places + [|base|]
    ensures GrownBy(from, own, j)
  {
    var e := TimerEvent(a.req);
    assert e.Access?;
    hide AccessesIn, EventsOf, TimerEvent;
    AccessesInInserted(base, e, tail);
    EventsOfSnoc(k.acts[|from.acts|..], a);
    assert j.acts[|from.acts|..] == k.acts[|from.acts|..] + [a];
    assert from.trace + own <= base;
    assert |from.trace + own| < |j.trace|;
  }

  lemma LogGrows(from: Sim, own: seq<Machine.Event>, k: Sim, a: PinAct)
    requires GrownBy(from, own, k) && TraceTimer(k)
    ensures GrownBy(from, own, Log(k, a))
  {
    PlaceSplits(k);
    assert |from.trace + own| <= Place(k);
    hide GrownBy, TraceTimer, TimerEvent;
    OneMoreGrows(from, own, k, Log(k, a), k.trace[..Place(k)], a, k.trace[Place(k)..]);
  }

  lemma AppendingGrows(from: Sim, own: seq<Machine.Event>, k: Sim, j: Sim, e: Machine.Event)
    requires GrownBy(from, own, k) && !e.Access? && j.trace == k.trace + [e]
    requires j.acts == k.acts && j.places == k.places
    ensures GrownBy(from, own, j)
  {
    AccessesInSnoc(k.trace, e);
    hide AccessesIn, EventsOf;
  }

  lemma SameTraceGrows(from: Sim, own: seq<Machine.Event>, k: Sim, j: Sim)
    requires GrownBy(from, own, k) && SameTrace(k, j)
    ensures GrownBy(from, own, j)
  {
    hide AccessesIn, EventsOf;
  }

  lemma BusGrows(from: Sim, own: seq<Machine.Event>, k: Sim, p: Proc)
    requires GrownBy(from, own, k) && TraceTimer(k)
    ensures GrownBy(from, own, RunBus(k, p))
  {
    hide GrownBy, TraceTimer, Timer.Step, Timer.ReadReg, Log;
    if p == TimerRead && k.cur.readEn {
      var v := Timer.ReadReg(k.regs.timer, k.cur.address);
      var j := k.(next := k.next.(dataOut := v));
      SamePlace(k, j);
      GrownByNothing(from, own, k, j);
      LogGrows(from, own, j, PinAct(PinReq(false, k.cur.address, k.cur.dataIn), v));
    } else if p == TimerWrite && k.cur.writeEn {
      LogGrows(from, own, k, PinAct(PinReq(true, k.cur.address, k.cur.dataIn), k.cur.dataIn));
      GrownByNothing(from, own, LogWrite(k), RunBus(k, p));
    }
  }

  lemma DeviceRunGrows(from: Sim, own: seq<Machine.Event>, k: Sim, p: Proc, act: ServerAct)
    requires GrownBy(from, own, k) && TraceTimer(k) && p in k.runnable && p != Server
    ensures GrownBy(from, own, RunProc(k, p, act))
  {
    var j := k.(runnable := k.runnable - {p});
    hide GrownBy, TraceTimer, RunBus, RunDriver, RunReset, RunClocked;
    if p in {TimerThread, TimerReset} {
      TimerProcessKeepsTrace(k, p, act);
      GrownByNothing(from, own, k, RunProc(k, p, act));
    } else {
      GrownByNothing(from, own, k, j);
      if p in {TimerRead, TimerWrite} {
        SamePlace(k, j);
        BusGrows(from, own, j, p);
      } else {
        OtherRunSameTrace(k, p, act);
        SameTraceGrows(from, own, j, RunProc(k, p, act));
      }
    }
  }

  lemma SamePlace(k: Sim, j: Sim)
    requires TraceTimer(k) && j.trace == k.trace && j.regs == k.regs && (EdgePending(j) <==> EdgePending(k))
    ensures TraceTimer(j)
  {
    hide MachineAfter;
  }

  lemma TimerOpKeepsTheTrace(k: Sim, op: Timer.Op)
    ensures var j := TimerOp(k, op);
      j.trace == k.trace && j.acts == k.acts && j.places == k.places && (EdgePending(j) <==> EdgePending(k))
  {
    hide Timer.Step;
  }

  lemma TimerProcessKeepsTrace(k: Sim, p: Proc, act: ServerAct)
    requires p in {TimerThread, TimerReset}
    ensures var j := RunProc(k, p, act);
      j.trace == k.trace && j.acts == k.acts && j.places == k.places && (EdgePending(j) ==> EdgePending(k))
  {
    hide TimerOp;
    TimerOpKeepsTheTrace(k.(runnable := k.runnable - {p}), if p == TimerThread then Timer.Tick else Timer.Reset);
  }

  lemma UpdateGrows(from: Sim, own: seq<Machine.Event>, k: Sim)
    requires GrownBy(from, own, k) && k.runnable == {} && ClockPhases(k)
    ensures GrownBy(from, own, UpdatePhase(k))
  {
    ThreadIsNotTriggered(k.cur, k.next);
    assert k.clockDue ==> k.cur.reset == k.next.reset;
    hide Triggered, ClockPhases, GrownBy;
    var j := UpdatePhase(k);
    if k.clockDue {
      AppendingGrows(from, own, k, j, Machine.SysEdge);
    } else if k.cur.reset && !k.next.reset {
      AppendingGrows(from, own, k, j, Machine.ReleaseReset);
    } else {
      assert k.trace + [] == k.trace;
      GrownByNothing(from, own, k, j);
    }
  }

  lemma ChoiceGrows(from: Sim, own: seq<Machine.Event>, k: Sim, c: Choice)
    requires GrownBy(from, own, k) && TraceTimer(k) && ClockPhases(k) && Kernel.Enabled(k, c) && NoStart(k, c)
    ensures GrownBy(from, own, Kernel.Next(k, c))
  {
    hide GrownBy, TraceTimer, ClockPhases;
    match c {
      case Run(p, act) =>
        if p == Server {
          hide RunServer;
          var j := k.(runnable := k.runnable - {Server});
          GrownByNothing(from, own, k, j);
          WaitShape(j, act);
          GrownByNothing(from, own, j, RunServer(j, act));
        } else {
          hide RunProc;
          DeviceRunGrows(from, own, k, p, act);
        }
      case Update =>
        hide UpdatePhase;
        UpdateGrows(from, own, k);
      case Advance(_, _) => GrownByNothing(from, own, k, Kernel.Next(k, c));
    }
  }

  // ----- a request in hand

  /** The pin access behind an event of the Timer. */
  function PinReqOf(e: Machine.Event): PinReq
    requires e.Access?
  {
    PinReq(e.command == Write, e.address, e.value)
  }

  /** One more pin access has been made, the given one. */
  predicate Made(from: Sim, req: PinReq, k: Sim) {
    |k.done| == |from.done| + 1 && k.done[..|from.done|] == from.done && k.done[|from.done|].req == req
  }

  /** How far the server has got with the bus access of its request. */
  predicate Progress(q: Protocol.Request, from: Sim, k: Sim) {
    var es := Accesses(q);
    if es == [] then (k.pc.Ready? || k.pc.Polling?) && k.done == from.done
    else if ForTimer(es[0]) then
      match k.pc
      case Strobe1(req) => req == PinReqOf(es[0]) && k.done == from.done
      case Strobe2(req) => req == PinReqOf(es[0]) && k.done == from.done
      case Polling => false
      case _ => Made(from, PinReqOf(es[0]), k)
    else (k.pc.Delaying? || k.pc.Ready?) && k.done == from.done
  }

  /** The bus accesses of a request that are made at once. */
  function AtOnce(q: Protocol.Request): seq<Machine.Event> {
    if Accesses(q) != [] && ForTimer(Accesses(q)[0]) then [] else Accesses(q)
  }

  /** From the moment a request was taken up to the reply. */
  predicate InHand(q: Protocol.Request, from: Sim, k: Sim) {
    && Progress(q, from, k)
    && GrownBy(from, AtOnce(q), k)
    && SameUartAndGpio(Effect(from.regs, q, Machine.NO_EDGES), k.regs)
  }

  lemma AccessesAreTame(q: Protocol.Request)
    ensures |Accesses(q)| <= 1
    ensures Accesses(q) != [] ==> Accesses(q)[0].Access? && !Accesses(q)[0].command.Ignore?
    ensures Accesses(q) != [] ==> TimerEvent(PinReqOf(Accesses(q)[0])) == Accesses(q)[0]
  {
  }

  /** Progress, one choice of the scheduler later. */
  lemma ServerProgress(q: Protocol.Request, from: Sim, k: Sim, act: ServerAct)
    requires Progress(q, from, k) && (k.pc.Ready? ==> act.Poll? && Accesses(q) == [])
    ensures Progress(q, from, RunServer(k, act))
  {
    hide Accesses, ForTimer, StartAccess;
  }

  lemma SameProgress(q: Protocol.Request, from: Sim, k: Sim, j: Sim)
    requires Progress(q, from, k) && j.pc == k.pc && j.done == k.done
    ensures Progress(q, from, j)
  {
    hide Accesses, ForTimer;
  }

  lemma ChoiceKeepsProgress(q: Protocol.Request, from: Sim, k: Sim, c: Choice)
    requires Progress(q, from, k) && Kernel.Enabled(k, c)
    requires c.Run? && c.p == Server && k.pc.Ready? ==> c.act.Poll? && Accesses(q) == []
    ensures Progress(q, from, Kernel.Next(k, c))
  {
    hide Accesses, Progress;
    match c {
      case Run(p, act) =>
        if p == Server {
          hide RunServer;
          var j := k.(runnable := k.runnable - {Server});
          SameProgress(q, from, k, j);
          ServerProgress(q, from, j, act);
        } else {
          hide RunProc;
          DeviceRunIsLocal(k, p, act);
          SameProgress(q, from, k, RunProc(k, p, act));
        }
      case Update =>
        hide Triggered, Clocked;
        SameProgress(q, from, k, UpdatePhase(k));
      case Advance(_, _) => SameProgress(q, from, k, Kernel.Next(k, c));
    }
  }

  lemma ChoiceKeepsInHand(q: Protocol.Request, from: Sim, k: Sim, c: Choice)
    requires InHand(q, from, k) && TraceTimer(k) && ClockPhases(k) && Kernel.Enabled(k, c)
    requires c.Run? && c.p == Server && k.pc.Ready? ==> c.act.Poll? && Accesses(q) == []
    ensures InHand(q, from, Kernel.Next(k, c))
  {
    hide Progress, GrownBy, TraceTimer, ClockPhases, Kernel.Next, Kernel.Enabled, Accesses, Effect, AtOnce;
    var j := Kernel.Next(k, c);
    ChoiceKeepsProgress(q, from, k, c);
    ChoiceGrows(from, AtOnce(q), k, c);
    ChoiceSameUartAndGpio(k, c);
  }

  /** Taking up a request: nothing is pending, and the bus access is made or under way. */
  lemma NoAccessTakeUp(q: Protocol.Request, k: Sim)
    requires Accesses(q) == [] && k.pc.Ready? && !EdgePending(k) && |k.places| == |k.acts|
    ensures InHand(q, k, k)
  {
    EffectOfAccess(k.regs, q);
    hide Effect, AccessesIn, Accesses;
    assert k.trace + [] == k.trace && k.acts[|k.acts|..] == [];
    assert AccessesIn(k.trace) + [] + [] == AccessesIn(k.trace);
  }

  lemma AccessTakeUp(q: Protocol.Request, k: Sim, e: Machine.Event)
    requires AtHand(k) && !EdgePending(k) && |k.places| == |k.acts|
    requires Accesses(q) == [e] && e.Access? && !e.command.Ignore?
    ensures InHand(q, k, TakeUp(k, q))
  {
    EffectOfAccess(k.regs, q);
    assert TakeUp(k, q) == Kernel.Next(k, Start(e));
    hide Accesses, Effect, SameUartAndGpio, ForTimer, Machine.AccessEffect, Progress, GrownBy, TakeUp, Kernel.Next,
         AtHand;
    ReadyAtHand(k);
    StartedRegs(k, e);
    if ForTimer(e) {
      TimerTakeUp(q, k, e);
    } else {
      OtherTakeUp(q, k, e);
    }
  }

  lemma TakeUpIsInHand(q: Protocol.Request, k: Sim)
    requires KernelFacts(k) && AtHand(k)
    ensures InHand(q, k, TakeUp(k, q))
  {
    ReadyAtHand(k);
    hide KernelFacts, MachineAfter, PureIrq, InHand, AtHand, Kernel.Next;
    AtHandIsTheMachine(k);
    AccessesAreTame(q);
    hide Accesses;
    if Accesses(q) == [] {
      NoAccessTakeUp(q, k);
    } else {
      assert Accesses(q) == [Accesses(q)[0]];
      AccessTakeUp(q, k, Accesses(q)[0]);
    }
  }

  lemma EffectOfAccess(s: SocRegs, q: Protocol.Request)
    ensures Effect(s, q, Machine.NO_EDGES)
         == if Accesses(q) == [] then s else Machine.AccessEffect(s, Accesses(q)[0]).0
  {
    hide Soc.Serve;
  }

  lemma TimerTakeUp(q: Protocol.Request, k: Sim, e: Machine.Event)
    requires AtHand(k) && !EdgePending(k) && |k.places| == |k.acts|
    requires Accesses(q) == [e] && ForTimer(e) && e.Access? && !e.command.Ignore?
    ensures Progress(q, k, TakeUp(k, q)) && GrownBy(k, [], TakeUp(k, q))
  {
    TimerSlotIsInPlace(e.address);
    assert e.command == Read ==> e.value == 0;
    hide Accesses, FlatMap, AccessesIn;
    assert k.trace + [] == k.trace && k.acts[|k.acts|..] == [];
    assert AccessesIn(k.trace) + [] == AccessesIn(k.trace);
  }

  lemma OtherTakeUp(q: Protocol.Request, k: Sim, e: Machine.Event)
    requires AtHand(k) && !EdgePending(k) && |k.places| == |k.acts|
    requires Accesses(q) == [e] && !ForTimer(e) && e.Access?
    ensures Progress(q, k, TakeUp(k, q)) && GrownBy(k, [e], TakeUp(k, q))
  {
    OtherStart(k.(runnable := k.runnable - {Server}), e);
    AccessesInSnoc(k.trace, e);
    hide Accesses, ForTimer, AccessesIn, StartAccess;
    assert k.acts[|k.acts|..] == [];
    assert AccessesIn(k.trace) + [e] + [] == AccessesIn(k.trace) + [e];
  }

  /** An access to anything but the Timer is made at once. */
  lemma OtherStart(k: Sim, e: Machine.Event)
    requires !EdgePending(k) && !ForTimer(e) && e.Access? && k.pc.Ready?
    ensures var j := StartAccess(k, e);
      && (j.pc.Ready? || j.pc.Delaying?) && j.trace == k.trace + [e]
      && j.done == k.done && j.acts == k.acts && j.places == k.places
      && !EdgePending(j)
  {
    var t := FlatMap(e.address);
    if t.Some? {
      NotifiedIsNoEdge(k.regs, t.value.device, Local(e, t.value.offset));
    }
    hide FlatMap, Machine.AccessEffect, Notified;
  }

  /** The activations since the request was taken up. */
  lemma MadeIsOneAct(from: Sim, req: PinReq, k: Sim)
    requires Made(from, req, k) && k.acts == k.done && from.acts == from.done
    ensures EventsOf(k.acts[|from.acts|..]) == [TimerEvent(req)]
  {
    var a := k.done[|from.done|];
    assert k.acts[|from.acts|..] == [] + [a];
    EventsOfSnoc([], a);
    hide TimerEvent;
  }

  /** Back from its access, the server has made exactly the bus accesses of the request. */
  lemma ServedAccesses(q: Protocol.Request, from: Sim, k: Sim)
    requires InHand(q, from, k) && k.pc.Ready? && k.acts == k.done && from.acts == from.done
    ensures AccessesIn(k.trace) == AccessesIn(from.trace) + Accesses(q)
  {
    AccessesAreTame(q);
    var past, es := AccessesIn(from.trace), Accesses(q);
    assert past + [] == past && past + es + [] == past + es;
    if es != [] && ForTimer(es[0]) {
      hide Accesses, AccessesIn, EventsOf, Effect, ForTimer, Made;
      MadeIsOneAct(from, PinReqOf(es[0]), k);
      assert es == [es[0]];
    } else {
      hide Accesses, AccessesIn, Effect, ForTimer;
      assert k.acts[|from.acts|..] == [];
    }
  }

  // ----- both sides together

  /** The reply to a request served. */
  function ReplyTo(v: Served): Protocol.Response {
    var (status, data) := AnswerNow(Job(v.q, v.from), v.to);
    Protocol.Response(Protocol.COSIM_MAGIC, Protocol.COSIM_VERSION, status, data, ToWord(v.to.cur.irqBits))
  }

  /** An execution of the protocol, and how the SoC has served it. */
  ghost predicate ServedRight(v: Served, x: Protocol.Exec, issued: seq<Protocol.Request>, k: Sim) {
    && Scheduled(v.from) && AtHand(v.from) && Scheduled(v.to) && AtHand(v.to) && InHand(v.q, v.from, v.to)
    && x.txn < |issued| && issued[x.txn] == v.q && Protocol.HeaderOk(v.q) && x.reply == ReplyTo(v)
    && Begins(v.to.trace, k)
  }

  /** The bus accesses of the requests served, in order. */
  function AccessesOf(served: seq<Served>): seq<Machine.Event> {
    if served == [] then [] else AccessesOf(served[..|served| - 1]) + Accesses(served[|served| - 1].q)
  }

  /** The SoC when the last request had been served. */
  function LastSeen(s: Sys): Sim {
    if s.served == [] then Kernel.START else s.served[|s.served| - 1].to
  }

  /** Between requests the server only waits, as in a request that needs no access. */
  ghost predicate JobRight(s: Sys) {
    match s.job
    case None =>
      && InHand(NO_REQUEST, LastSeen(s), s.soc)
      && LastSeen(s).acts == LastSeen(s).done && AccessesIn(LastSeen(s).trace) == AccessesOf(s.served)
    case Some(Job(q, from)) =>
      && Collected(s.net) && q == Protocol.DecodeRequest(s.net.server.got) && Protocol.HeaderOk(q)
      && Scheduled(from) && AtHand(from) && InHand(q, from, s.soc) && AccessesIn(from.trace) == AccessesOf(s.served)
  }

  ghost predicate AllServed(s: Sys) {
    && |s.served| == |s.net.executed|
    && forall j | 0 <= j < |s.served| :: ServedRight(s.served[j], s.net.executed[j], s.net.issued, s.soc)
  }

  ghost predicate Holds(s: Sys) {
    Scheduled(s.soc) && ProtocolInvariants.Inv(s.net) && JobRight(s) && AllServed(s)
  }

  // ----- the network moves

  lemma NetKeepsTheJob(n: Protocol.Sys, a: Protocol.Action)
    requires Protocol.Enabled(n, a) && !a.Dispatch?
    ensures var m := Protocol.Next(n, a);
      && m.executed == n.executed && n.issued <= m.issued
      && (!ByServer(a) ==> m.server == n.server && m.accepted == n.accepted && |m.conns| >= |n.conns|)
  {
    hide Protocol.EncodeRequest, Protocol.EncodeResponse, Protocol.DecodeResponse, Protocol.DriveLines;
  }

  lemma NetKeepsHolds(s: Sys, a: Protocol.Action)
    requires Holds(s) && CoSim.Enabled(s, Net(a))
    ensures Holds(CoSim.Next(s, Net(a)))
  {
    hide Scheduled, InHand, AtHand, AccessesIn, AccessesOf, ProtocolInvariants.Inv, Protocol.Enabled, Protocol.Next,
         Protocol.HeaderOk, ReplyTo, Protocol.DecodeRequest;
    ProtocolProgress.OneMoreKeepsInv(s.net, a);
    NetKeepsTheJob(s.net, a);
  }

  // ----- the scheduler's moves

  lemma SameTraceBegins(past: seq<Machine.Event>, k: Sim, j: Sim)
    requires Begins(past, k) && j.trace == k.trace && (EdgePending(j) ==> EdgePending(k))
    ensures Begins(past, j)
  {
  }

  lemma LongerTraceBegins(past: seq<Machine.Event>, k: Sim, j: Sim)
    requires Begins(past, k) && k.trace <= j.trace && |k.trace| < |j.trace|
    ensures Begins(past, j)
  {
  }

  lemma LogBegins(past: seq<Machine.Event>, k: Sim, a: PinAct)
    requires Begins(past, k) && TraceTimer(k)
    ensures Begins(past, Log(k, a))
  {
    PlaceSplits(k);
    hide TraceTimer, TimerEvent;
    assert past <= k.trace[..Place(k)];
  }

  lemma BusBegins(past: seq<Machine.Event>, k: Sim, p: Proc)
    requires Begins(past, k) && TraceTimer(k)
    ensures Begins(past, RunBus(k, p))
  {
    hide Begins, TraceTimer, Timer.Step, Timer.ReadReg, Log;
    if p == TimerRead && k.cur.readEn {
      var v := Timer.ReadReg(k.regs.timer, k.cur.address);
      var j := k.(next := k.next.(dataOut := v));
      SamePlace(k, j);
      SameTraceBegins(past, k, j);
      LogBegins(past, j, PinAct(PinReq(false, k.cur.address, k.cur.dataIn), v));
    } else if p == TimerWrite && k.cur.writeEn {
      LogBegins(past, k, PinAct(PinReq(true, k.cur.address, k.cur.dataIn), k.cur.dataIn));
      SameTraceBegins(past, LogWrite(k), RunBus(k, p));
    }
  }

  lemma DeviceRunBegins(past: seq<Machine.Event>, k: Sim, p: Proc, act: ServerAct)
    requires Begins(past, k) && TraceTimer(k) && p in k.runnable && p != Server
    ensures Begins(past, RunProc(k, p, act))
  {
    var j := k.(runnable := k.runnable - {p});
    hide Begins, TraceTimer, RunBus, RunDriver, RunReset, RunClocked;
    if p in {TimerThread, TimerReset} {
      TimerProcessKeepsTrace(k, p, act);
      SameTraceBegins(past, k, RunProc(k, p, act));
    } else {
      SameTraceBegins(past, k, j);
      if p in {TimerRead, TimerWrite} {
        SamePlace(k, j);
        BusBegins(past, j, p);
      } else {
        OtherRunSameTrace(k, p, act);
        SameTraceBegins(past, j, RunProc(k, p, act));
      }
    }
  }

  lemma StartBegins(past: seq<Machine.Event>, k: Sim, e: Machine.Event)
    requires Begins(past, k) && e.Access?
    ensures Begins(past, StartAccess(k, e))
  {
    var t := FlatMap(e.address);
    if t.Some? {
      NotifiedIsNoEdge(k.regs, t.value.device, Local(e, t.value.offset));
    }
    hide Begins, FlatMap, Machine.AccessEffect, Notified;
    var j := StartAccess(k, e);
    if |j.trace| > |k.trace| {
      LongerTraceBegins(past, k, j);
    } else {
      SameTraceBegins(past, k, j);
    }
  }

  lemma UpdateBegins(past: seq<Machine.Event>, k: Sim)
    requires Begins(past, k) && k.runnable == {}
    ensures Begins(past, UpdatePhase(k))
  {
    ThreadIsNotTriggered(k.cur, k.next);
    hide Triggered, Begins;
    var j := UpdatePhase(k);
    if |j.trace| > |k.trace| {
      LongerTraceBegins(past, k, j);
    } else {
      assert k.trace + [] == k.trace;
      SameTraceBegins(past, k, j);
    }
  }

  lemma ChoiceBegins(past: seq<Machine.Event>, k: Sim, c: Choice)
    requires Begins(past, k) && TraceTimer(k) && Kernel.Enabled(k, c)
    ensures Begins(past, Kernel.Next(k, c))
  {
    hide Begins, TraceTimer;
    match c {
      case Run(p, act) =>
        if p == Server {
          hide StartAccess;
          var j := k.(runnable := k.runnable - {Server});
          SameTraceBegins(past, k, j);
          if k.pc.Ready? && act.Serve? {
            StartBegins(past, j, Machine.Access(act.command, act.address, act.value));
          } else {
            hide RunServer;
            WaitShape(j, act);
            SameTraceBegins(past, j, RunServer(j, act));
          }
        } else {
          hide RunProc;
          DeviceRunBegins(past, k, p, act);
        }
      case Update =>
        hide UpdatePhase;
        UpdateBegins(past, k);
      case Advance(_, _) => SameTraceBegins(past, k, Kernel.Next(k, c));
    }
  }

  lemma ChoiceKeepsServed(s: Sys, c: Choice)
    requires AllServed(s) && TraceTimer(s.soc) && Kernel.Enabled(s.soc, c)
    ensures AllServed(s.(soc := Kernel.Next(s.soc, c)))
  {
    hide Begins, Scheduled, AtHand, InHand, ReplyTo, TraceTimer, Kernel.Next, Kernel.Enabled, Protocol.HeaderOk;
    forall j | 0 <= j < |s.served|
      ensures ServedRight(s.served[j], s.net.executed[j], s.net.issued, Kernel.Next(s.soc, c))
    {
      assert ServedRight(s.served[j], s.net.executed[j], s.net.issued, s.soc);
      ChoiceBegins(s.served[j].to.trace, s.soc, c);
    }
  }

  lemma RunKeepsHolds(s: Sys, c: Choice)
    requires Holds(s) && CoSim.Enabled(s, Move.Run(c))
    ensures Holds(CoSim.Next(s, Move.Run(c)))
  {
    ScheduledFacts(s.soc);
    ScheduledOn(s.soc, c);
    assert TraceTimer(s.soc) && ClockPhases(s.soc);
    hide KernelFacts, TraceTimer, ClockPhases, Scheduled, Kernel.Next, Kernel.Enabled, ProtocolInvariants.Inv, AtHand,
         AllServed, AccessesIn, AccessesOf, InHand;
    ChoiceKeepsServed(s, c);
    NeedsNothing(s.job, c);
    hide Accesses;
    match s.job {
      case None => ChoiceKeepsInHand(NO_REQUEST, LastSeen(s), s.soc, c);
      case Some(Job(q, from)) => ChoiceKeepsInHand(q, from, s.soc, c);
    }
  }

  lemma NeedsNothing(job: Option<Job>, c: Choice)
    ensures Accesses(NO_REQUEST) == []
    ensures job.Some? && Protocol.HeaderOk(job.value.q) && job.value.q.op == Protocol.COSIM_OP_TICK ==>
      Accesses(job.value.q) == []
  {
  }

  // ----- taking up a request, and replying

  /** Between requests nothing has reached the bus. */
  lemma IdleIsServed(from: Sim, k: Sim)
    requires KernelFacts(k) && AtHand(k) && InHand(NO_REQUEST, from, k) && from.acts == from.done
    ensures AccessesIn(k.trace) == AccessesIn(from.trace)
  {
    NeedsNothing(None, Update);
    ReadyAtHand(k);
    hide KernelFacts, AtHand, InHand, Accesses, AccessesIn;
    AtHandBegins(k);
    ServedAccesses(NO_REQUEST, from, k);
    assert AccessesIn(from.trace) + [] == AccessesIn(from.trace);
  }

  /** Between requests nothing has reached the bus. */
  lemma IdleAccesses(s: Sys)
    requires Holds(s) && s.job.None? && AtHand(s.soc)
    ensures AccessesIn(s.soc.trace) == AccessesOf(s.served)
  {
    hide KernelFacts, Scheduled, ProtocolInvariants.Inv, AllServed, AccessesIn, AccessesOf, InHand, AtHand;
    ScheduledFacts(s.soc);
    IdleIsServed(LastSeen(s), s.soc);
  }

  lemma TakeUpIsScheduled(k: Sim, q: Protocol.Request)
    requires Scheduled(k) && AtHand(k)
    ensures Scheduled(TakeUp(k, q))
  {
    hide Scheduled, Kernel.Next, Accesses;
    if Accesses(q) != [] {
      ScheduledOn(k, StartOf(Accesses(q)[0]));
    }
  }

  lemma TakeUpKeepsServed(s: Sys, q: Protocol.Request)
    requires AllServed(s) && TraceTimer(s.soc) && AtHand(s.soc)
    ensures AllServed(s.(soc := TakeUp(s.soc, q)))
  {
    hide AllServed, TraceTimer, Kernel.Next, Accesses;
    if Accesses(q) != [] {
      ChoiceKeepsServed(s, StartOf(Accesses(q)[0]));
    } else {
      assert s.(soc := s.soc) == s;
    }
  }

  lemma CollectedHeader(n: Protocol.Sys)
    requires ProtocolInvariants.Inv(n) && Collected(n)
    ensures n.conns[n.accepted - 1].txn < |n.issued|
    ensures Protocol.DecodeRequest(n.server.got) == n.issued[n.conns[n.accepted - 1].txn]
    ensures Protocol.HeaderOk(Protocol.DecodeRequest(n.server.got))
  {
    ProtocolInvariants.CollectedIsIssued(n);
  }

  lemma SameButJob(s: Sys, j: Sys)
    requires AllServed(s) && j.net == s.net && j.served == s.served && j.soc == s.soc
    ensures AllServed(j)
  {
  }

  /** The states in which a request is taken up. */
  lemma BeginsAtRest(s: Sys)
    requires s.job.None? && AtHand(s.soc) && Collected(s.net) && Holds(s)
    ensures AllServed(s) && Scheduled(s.soc) && KernelFacts(s.soc) && TraceTimer(s.soc) && AtHand(s.soc)
    ensures AccessesIn(s.soc.trace) == AccessesOf(s.served)
  {
    hide Scheduled, ProtocolInvariants.Inv, AtHand, AllServed, AccessesIn, AccessesOf, InHand, Protocol.HeaderOk,
         Protocol.DecodeRequest;
    ScheduledFacts(s.soc);
    IdleAccesses(s);
  }

  lemma TakenUpHolds(s: Sys, q: Protocol.Request, k: Sim)
    requires Collected(s.net) && q == Protocol.DecodeRequest(s.net.server.got) && Protocol.HeaderOk(q)
    requires ProtocolInvariants.Inv(s.net) && Scheduled(s.soc) && AtHand(s.soc) && Scheduled(k) && InHand(q, s.soc, k)
    requires AccessesIn(s.soc.trace) == AccessesOf(s.served) && AllServed(s.(soc := k))
    ensures Holds(s.(soc := k, job := Some(Job(q, s.soc))))
  {
    hide Scheduled, ProtocolInvariants.Inv, AtHand, AllServed, AccessesIn, AccessesOf, InHand, TakeUp,
         Protocol.HeaderOk, Protocol.DecodeRequest;
    SameButJob(s.(soc := k), s.(soc := k, job := Some(Job(q, s.soc))));
  }

  lemma NetHolds(s: Sys)
    requires Holds(s)
    ensures ProtocolInvariants.Inv(s.net)
  {
    hide Scheduled, ProtocolInvariants.Inv, JobRight, AllServed;
  }

  lemma BeginKeepsHolds(s: Sys)
    requires Holds(s) && CoSim.Enabled(s, Begin)
    ensures Holds(CoSim.Next(s, Begin))
  {
    var q := Protocol.DecodeRequest(s.net.server.got);
    BeginIsTakingUp(s);
    NetHolds(s);
    CollectedHeader(s.net);
    hide *;
    BeginsAtRest(s);
    TakeUpIsScheduled(s.soc, q);
    TakeUpIsInHand(q, s.soc);
    TakeUpKeepsServed(s, q);
    TakenUpHolds(s, q, TakeUp(s.soc, q));
  }

  lemma BeginIsTakingUp(s: Sys)
    requires CoSim.Enabled(s, Begin)
    ensures s.job.None? && AtHand(s.soc) && Collected(s.net)
    ensures var q := Protocol.DecodeRequest(s.net.server.got);
      CoSim.Next(s, Begin) == s.(soc := TakeUp(s.soc, q), job := Some(Job(q, s.soc)))
  {
    hide TakeUp, AtHand, Protocol.DecodeRequest;
  }

  /** The reply can always be made. */
  lemma ReplyIsPossible(s: Sys)
    requires Holds(s) && s.job.Some? && AtHand(s.soc)
    ensures Protocol.Enabled(s.net, ReplyNow(s.job.value, s.soc))
  {
    hide Scheduled, ProtocolInvariants.Inv, AllServed, InHand, AccessesIn, AccessesOf, ForTimer, Soc.Serve,
         Protocol.DecodeRequest;
  }

  lemma AtHandBegins(k: Sim)
    requires KernelFacts(k) && AtHand(k)
    ensures k.acts == k.done && Begins(k.trace, k)
  {
    AtHandIsTheMachine(k);
    hide KernelFacts, MachineAfter, PureIrq;
  }

  lemma JobIsServedRight(q: Protocol.Request, from: Sim, k: Sim, x: Protocol.Exec, issued: seq<Protocol.Request>)
    requires Scheduled(from) && AtHand(from) && Scheduled(k) && AtHand(k) && InHand(q, from, k)
    requires x.txn < |issued| && issued[x.txn] == q && Protocol.HeaderOk(q) && x.reply == ReplyTo(Served(q, from, k))
    ensures ServedRight(Served(q, from, k), x, issued, k)
    ensures AccessesIn(k.trace) == AccessesIn(from.trace) + Accesses(q)
  {
    hide KernelFacts, Scheduled, InHand, AtHand, AccessesIn, Accesses, ReplyTo, Protocol.HeaderOk, Begins;
    ScheduledFacts(from);
    AtHandBegins(from);
    ScheduledFacts(k);
    AtHandBegins(k);
    assert k.pc.Ready? by {
      ReadyAtHand(k);
    }
    ServedAccesses(q, from, k);
  }

  lemma ReadyAtHand(k: Sim)
    requires AtHand(k)
    ensures k.pc.Ready?
  {
  }

  /** What has just been served is served right. */
  lemma NewlyServed(s: Sys)
    requires Holds(s) && s.job.Some? && AtHand(s.soc)
    ensures var v := Served(s.job.value.q, s.job.value.from, s.soc);
      var x := Protocol.Exec(s.net.conns[s.net.accepted - 1].txn, ReplyTo(v));
      && Collected(s.net) && ServedRight(v, x, s.net.issued, s.soc)
      && AccessesIn(s.soc.trace) == AccessesOf(s.served) + Accesses(v.q)
  {
    hide Scheduled, ProtocolInvariants.Inv, AllServed, AccessesIn, AccessesOf, Accesses, InHand, AtHand, ReplyTo,
         Protocol.HeaderOk, Protocol.DecodeRequest, ServedRight;
    CollectedHeader(s.net);
    var v := Served(s.job.value.q, s.job.value.from, s.soc);
    JobIsServedRight(v.q, v.from, s.soc, Protocol.Exec(s.net.conns[s.net.accepted - 1].txn, ReplyTo(v)), s.net.issued);
  }

  lemma ReplyIsDispatch(s: Sys)
    requires Holds(s) && s.job.Some? && AtHand(s.soc)
    requires Protocol.Enabled(s.net, ReplyNow(s.job.value, s.soc))
    ensures var v := Served(s.job.value.q, s.job.value.from, s.soc);
      var n := Protocol.Next(s.net, ReplyNow(s.job.value, s.soc));
      && 0 < s.net.accepted <= |s.net.conns|
      && n.executed == s.net.executed + [Protocol.Exec(s.net.conns[s.net.accepted - 1].txn, ReplyTo(v))]
      && n.issued == s.net.issued
  {
    hide Scheduled, ProtocolInvariants.Inv, AllServed, InHand, AccessesIn, AccessesOf, AnswerNow, ToWord,
         Protocol.EncodeResponse, Protocol.DecodeRequest;
  }

  lemma OneMoreServed(s: Sys, j: Sys, v: Served, x: Protocol.Exec)
    requires AllServed(s) && ServedRight(v, x, s.net.issued, s.soc)
    requires j.soc == s.soc && j.net.issued == s.net.issued
    requires j.served == s.served + [v] && j.net.executed == s.net.executed + [x]
    ensures AllServed(j)
  {
    hide ServedRight;
  }

  /** After a reply the server is between requests again. */
  lemma IdleAfterReply(s: Sys, j: Sys, v: Served)
    requires Scheduled(s.soc) && AtHand(s.soc) && AccessesIn(s.soc.trace) == AccessesOf(s.served) + Accesses(v.q)
    requires j.soc == s.soc && j.job == None && j.served == s.served + [v] && v.to == s.soc
    ensures JobRight(j)
  {
    hide KernelFacts, Scheduled, AtHand, AccessesIn, InHand, Accesses, Begins;
    ScheduledFacts(s.soc);
    AtHandBegins(s.soc);
    IdleAgain(s.soc);
    assert j.served[..|j.served| - 1] == s.served;
  }

  lemma EndKeepsHolds(s: Sys)
    requires Holds(s) && CoSim.Enabled(s, End)
    ensures Holds(CoSim.Next(s, End))
  {
    hide Scheduled, AtHand, AccessesIn, AccessesOf, ReplyTo, ReplyNow, Accesses, ProtocolInvariants.Inv, JobRight,
         AllServed, ServedRight, Protocol.Enabled, Protocol.Next;
    var v, j := Served(s.job.value.q, s.job.value.from, s.soc), CoSim.Next(s, End);
    NewlyServed(s);
    ReplyIsDispatch(s);
    ProtocolProgress.OneMoreKeepsInv(s.net, ReplyNow(s.job.value, s.soc));
    OneMoreServed(s, j, v, Protocol.Exec(s.net.conns[s.net.accepted - 1].txn, ReplyTo(v)));
    IdleAfterReply(s, j, v);
  }

  lemma IdleAgain(k: Sim)
    requires KernelFacts(k) && AtHand(k)
    ensures InHand(NO_REQUEST, k, k)
  {
    NeedsNothing(None, Update);
    hide KernelFacts, InHand, Accesses;
    TakeUpIsInHand(NO_REQUEST, k);
  }

  // ----- every reachable state

  lemma MoveKeepsHolds(s: Sys, m: Move)
    requires Holds(s) && CoSim.Enabled(s, m)
    ensures Holds(CoSim.Next(s, m))
  {
    hide Holds, CoSim.Enabled, CoSim.Next;
    match m {
      case Net(a) => NetKeepsHolds(s, a);
      case Run(c) => RunKeepsHolds(s, c);
      case Begin => BeginKeepsHolds(s);
      case End => EndKeepsHolds(s);
    }
  }

  lemma {:induction false} HoldsOn(s: Sys, moves: seq<Move>, t: Sys)
    requires Holds(s) && CoSim.Reaches(s, moves, t)
    ensures Holds(t)
    decreases |moves|
  {
    hide Holds, CoSim.Enabled, CoSim.Next;
    if moves != [] {
      MoveKeepsHolds(s, moves[0]);
      HoldsOn(CoSim.Next(s, moves[0]), moves[1..], t);
    }
  }

  lemma HoldsAtStart()
    ensures Holds(CoSim.START)
  {
    assert Schedule(Kernel.START, []) && After(Kernel.START, []) == Kernel.START;
    ProtocolInvariants.ReachesNothing(Protocol.START);
    ProtocolInvariants.AlwaysInv([], Protocol.START);
    NeedsNothing(None, Update);
    hide ProtocolInvariants.Inv, Accesses;
    assert Scheduled(Kernel.START);
    assert EventsOf([]) == [] && AccessesIn([]) == [];
    assert InHand(NO_REQUEST, Kernel.START, Kernel.START);
  }

  lemma AlwaysHoldsTogether(moves: seq<Move>, t: Sys)
    requires CoSim.Reaches(CoSim.START, moves, t)
    ensures Holds(t)
  {
    hide Holds, CoSim.Enabled, CoSim.Next, CoSim.START;
    HoldsAtStart();
    HoldsOn(CoSim.START, moves, t);
  }

  /** The protocol half of a run is a run of the protocol, so all that is proved of those holds here. */
  lemma {:induction false} NetIsARun(s: Sys, moves: seq<Move>, t: Sys)
    requires CoSim.Reaches(s, moves, t)
    ensures exists actions :: Protocol.Reaches(s.net, actions, t.net)
    decreases |moves|
  {
    hide Protocol.Enabled, Protocol.Next, ReplyNow, Kernel.Next, Kernel.Enabled;
    if moves == [] {
      ProtocolInvariants.ReachesNothing(s.net);
    } else {
      var j := CoSim.Next(s, moves[0]);
      NetIsARun(j, moves[1..], t);
      var actions :| Protocol.Reaches(j.net, actions, t.net);
      hide Protocol.Reaches;
      match moves[0] {
        case Net(a) => ProtocolInvariants.ReachesFirst(s.net, a, actions, t.net);
        case Run(_) =>
        case Begin =>
        case End => ProtocolInvariants.ReachesFirst(s.net, ReplyNow(s.job.value, s.soc), actions, t.net);
      }
    }
  }
}
