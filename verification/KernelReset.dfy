// The power-on reset under the scheduler (clocks/clock_reset.h): it lasts exactly four clock edges.
module KernelReset {
  import opened MemoryMap
  import opened Soc
  import opened Kernel
  import opened KernelInvariants
  import opened KernelRefinement
  import opened KernelSettling
  import Machine

  /** reset_seq counts the edges the SoC has seen; it runs, once, after each of the first four. */
  predicate CountsEdges(k: Sim) {
    var seen := Machine.EdgesIn(k.events);
    if ResetSeq in k.runnable then 1 <= seen <= 4 && k.cyclesLeft + seen == 5
    else k.cyclesLeft == if seen <= 4 then 4 - seen else 0
  }

  lemma SameCount(k: Sim, j: Sim)
    requires CountsEdges(k) && j.events == k.events && j.cyclesLeft == k.cyclesLeft
    requires ResetSeq in j.runnable <==> ResetSeq in k.runnable
    ensures CountsEdges(j)
  {
    hide Machine.EdgesIn;
  }

  lemma SequenceCounts(k: Sim, act: ServerAct)
    requires CountsEdges(k) && ResetSeq in k.runnable
    ensures CountsEdges(RunProc(k, ResetSeq, act))
  {
    hide Machine.EdgesIn;
  }

  lemma DeviceKeepsCount(k: Sim, p: Proc, act: ServerAct)
    requires CountsEdges(k) && p in k.runnable && p !in {Server, ResetSeq}
    ensures CountsEdges(RunProc(k, p, act))
  {
    hide CountsEdges, RunProc;
    RunSameAhead(k, p, act);
    DeviceRunIsLocal(k, p, act);
    var j := k.(runnable := k.runnable - {p});
    SameCount(k, j);
    SameCount(j, RunProc(k, p, act));
  }

  lemma AccessKeepsCount(k: Sim, e: Machine.Event)
    requires CountsEdges(k) && e.Access?
    ensures CountsEdges(StartAccess(k, e))
  {
    Machine.EdgesInSnoc(k.events, e);
    hide Machine.EdgesIn, Machine.AccessEffect, Notified, FlatMap;
    var t := FlatMap(e.address);
    if t.Some? {
      NotifiedAreDrivers(k.regs, t.value.device, Local(e, t.value.offset));
    }
  }

  lemma ServerKeepsCount(k: Sim, act: ServerAct)
    requires CountsEdges(k)
    ensures CountsEdges(RunServer(k, act))
  {
    hide CountsEdges, StartAccess;
    if k.pc.Ready? && act.Serve? {
      AccessKeepsCount(k, Machine.Access(act.command, act.address, act.value));
    } else {
      hide RunServer;
      WaitShape(k, act);
      SameCount(k, RunServer(k, act));
    }
  }

  lemma UpdateKeepsCount(k: Sim)
    requires CountsEdges(k) && k.runnable == {} && ClockPhases(k)
    ensures CountsEdges(UpdatePhase(k))
  {
    Machine.EdgesInSnoc(k.events, Machine.SysEdge);
    Machine.EdgesInSnoc(k.events, Machine.ReleaseReset);
    assert k.events + [] == k.events;
    assert k.clockDue ==> k.cur.reset == k.next.reset;
    SequenceIsNotTriggered(k.cur, k.next);
    hide Machine.EdgesIn, Triggered, ClockPhases;
    if k.clockDue {
      assert k.events + ([Machine.SysEdge] + []) == k.events + [Machine.SysEdge];
    } else if k.cur.reset && !k.next.reset {
      assert k.events + ([] + [Machine.ReleaseReset]) == k.events + [Machine.ReleaseReset];
    }
  }

  lemma SequenceIsNotTriggered(a: Wires, b: Wires)
    ensures ResetSeq !in Triggered(a, b)
  {
  }

  lemma ChoiceKeepsCount(k: Sim, c: Choice)
    requires CountsEdges(k) && ClockPhases(k) && ServerAlone(k) && Enabled(k, c)
    ensures CountsEdges(Next(k, c))
  {
    hide CountsEdges, ClockPhases;
    match c {
      case Run(p, act) =>
        if p == Server {
          hide RunServer;
          var j := k.(runnable := k.runnable - {Server});
          SameCount(k, j);
          ServerKeepsCount(j, act);
        } else {
          hide RunProc;
          if p == ResetSeq {
            SequenceCounts(k, act);
          } else {
            DeviceKeepsCount(k, p, act);
          }
        }
      case Update =>
        hide UpdatePhase;
        UpdateKeepsCount(k);
      case Advance(_, _) => SameCount(k, Next(k, c));
    }
  }

  lemma {:induction false} AlwaysCounts(cs: seq<Choice>)
    requires Schedule(START, cs)
    ensures CountsEdges(After(START, cs))
  {
    hide Next, Enabled, DriversFollow, ServerAlone, Handshake, TimerHistory, ClockPhases, Refines, CountsEdges;
    if cs == [] {
      CountsAtStart();
    } else {
      var front := cs[..|cs| - 1];
      AlwaysCounts(front);
      AlwaysHolds(front);
      AlwaysRefines(front);
      ChoiceKeepsCount(After(START, front), cs[|cs| - 1]);
    }
  }

  lemma CountsAtStart()
    ensures CountsEdges(START)
  {
  }

  /** Whenever the SoC is quiescent, reset is high iff it has seen fewer than four clock edges. */
  lemma ResetLastsFourEdges(cs: seq<Choice>)
    requires Schedule(START, cs) && Quiescent(After(START, cs))
    ensures var k := After(START, cs); k.cur.reset <==> Machine.EdgesIn(k.events) < 4
  {
    hide DriversFollow, ServerAlone, Handshake, Refines, Machine.EdgesIn;
    AlwaysRefines(cs);
    AlwaysCounts(cs);
  }
}
