// No deadlock with the SoC in the loop: from every reachable state in which the server is available, a new call
// of the guest can be carried to the SoC's reply to it, through every wait of the scheduler.
module GuestProgress {
  import opened Words
  import opened Kernel
  import opened KernelInvariants
  import opened KernelRefinement
  import opened KernelSettling
  import opened KernelTrace
  import opened CoSim
  import opened CoSimInvariants
  import Protocol
  import ProtocolInvariants
  import PP = ProtocolProgress

  // ----- the server comes to hand

  function PcRank(pc: ServerPc): nat {
    match pc
    case Ready => 0
    case Polling => 1
    case Delaying => 1
    case Settling => 2
    case Strobe2(_) => 3
    case Strobe1(_) => 4
  }

  /** A server in a wait gets through it, is woken, or has less to wait for. */
  predicate Nearer(k: Sim, j: Sim) {
    || PcRank(j.pc) < PcRank(k.pc)
    || (j.pc == k.pc && Server !in k.runnable && (Server in j.runnable || Weight(j) < Weight(k)))
  }

  lemma GoingOnIsNearer(k: Sim)
    requires Server in k.runnable && !k.pc.Ready?
    ensures PcRank(Kernel.Next(k, Choice.Run(Server, Poll)).pc) < PcRank(k.pc)
  {
  }

  lemma DeviceIsNearer(k: Sim, p: Proc)
    requires p in k.runnable && Server !in k.runnable
    ensures Nearer(k, Kernel.Next(k, Choice.Run(p, Poll)))
  {
    hide Weight, RunProc;
    RunWeighsLess(k, p, Poll);
    DeviceRunIsLocal(k, p, Poll);
  }

  lemma UpdateIsNearer(k: Sim)
    requires k.runnable == {} && !Quiescent(k)
    ensures Nearer(k, Kernel.Next(k, Update))
  {
    hide Weight, UpdatePhase, Quiescent;
    UpdateWeighsLess(k);
    UpdateKeepsPc(k);
  }

  /** A server that is not at hand is on its way. */
  lemma OnItsWay(k: Sim) returns (c: Choice)
    requires ServerAlone(k) && !AtHand(k)
    ensures Kernel.Enabled(k, c) && Nearer(k, Kernel.Next(k, c))
    ensures !k.pc.Ready?
  {
    hide Weight, RunProc, UpdatePhase;
    if Server in k.runnable {
      c := Choice.Run(Server, Poll);
      GoingOnIsNearer(k);
    } else if p :| p in k.runnable {
      c := Choice.Run(p, Poll);
      DeviceIsNearer(k, p);
    } else if Quiescent(k) {
      c := Advance(false, true);
      WakingUp(k, false);
    } else {
      c := Update;
      UpdateIsNearer(k);
    }
  }

  // ----- runs without failures

  predicate Smooth(s: CoSim.Sys, m: Move) {
    m.Net? ==> PP.Harmless(s.net, m.a)
  }

  ghost predicate Proceeds(s: CoSim.Sys, moves: seq<Move>, t: CoSim.Sys)
    decreases |moves|
  {
    if moves == [] then s == t
    else CoSim.Enabled(s, moves[0]) && Smooth(s, moves[0]) && Proceeds(CoSim.Next(s, moves[0]), moves[1..], t)
  }

  ghost predicate CanProceed(s: CoSim.Sys, t: CoSim.Sys) {
    exists moves :: Proceeds(s, moves, t)
  }

  lemma Stays(s: CoSim.Sys)
    ensures CanProceed(s, s)
  {
    assert Proceeds(s, [], s);
  }

  lemma First(s: CoSim.Sys, m: Move, t: CoSim.Sys)
    requires CoSim.Enabled(s, m) && Smooth(s, m) && CanProceed(CoSim.Next(s, m), t)
    ensures CanProceed(s, t)
  {
    hide CoSim.Enabled, CoSim.Next;
    var moves :| Proceeds(CoSim.Next(s, m), moves, t);
    assert ([m] + moves)[1..] == moves;
    assert Proceeds(s, [m] + moves, t);
  }

  lemma {:induction false} ThenMoves(s: CoSim.Sys, moves: seq<Move>, t: CoSim.Sys, u: CoSim.Sys)
    requires Proceeds(s, moves, t) && CanProceed(t, u)
    ensures CanProceed(s, u)
    decreases |moves|
  {
    hide CoSim.Enabled, CoSim.Next, CanProceed, Smooth;
    if moves != [] {
      ThenMoves(CoSim.Next(s, moves[0]), moves[1..], t, u);
      First(s, moves[0], u);
    }
  }

  lemma Then(s: CoSim.Sys, t: CoSim.Sys, u: CoSim.Sys)
    requires CanProceed(s, t) && CanProceed(t, u)
    ensures CanProceed(s, u)
  {
    hide Proceeds;
    var moves :| Proceeds(s, moves, t);
    ThenMoves(s, moves, t, u);
  }

  lemma ScheduledAlone(k: Sim)
    requires Scheduled(k)
    ensures ServerAlone(k)
  {
    hide Scheduled, DriversFollow, ServerAlone, Handshake, ClockPhases, Refines, TraceHolds, Slotted;
    ScheduledFacts(k);
  }

  /** The scheduler alone brings the server back from wherever it is: t is s with a later SoC. */
  lemma {:induction false} ComesToHand(s: CoSim.Sys) returns (t: CoSim.Sys)
    requires Holds(s)
    ensures CanProceed(s, t) && Holds(t) && AtHand(t.soc) && t == s.(soc := t.soc)
    decreases PcRank(s.soc.pc), Server !in s.soc.runnable, Weight(s.soc)
  {
    ScheduledAlone(s.soc);
    hide Scheduled, ProtocolInvariants.Inv, JobRight, AllServed, ServerAlone, CanProceed, Kernel.Enabled, Kernel.Next,
         Weight;
    if AtHand(s.soc) {
      t := s;
      Stays(s);
    } else {
      var c := OnItsWay(s.soc);
      RunKeepsHolds(s, c);
      t := ComesToHand(CoSim.Next(s, Move.Run(c)));
      First(s, Move.Run(c), t);
    }
  }

  // ----- a call in progress

  /** Closer to the end of the call in progress. */
  predicate Onward(n: Protocol.Sys, m: Protocol.Sys) {
    && PP.Alive(m) && m.returned == n.returned && m.issued == n.issued && PP.Backlog(m) <= PP.Backlog(n)
    && (PP.Backlog(m) < PP.Backlog(n)
        || PP.ServerRank(m) + PP.PhaseRank(m.client.phase) < PP.ServerRank(n) + PP.PhaseRank(n.client.phase))
  }

  lemma CloserIsOnward(n: Protocol.Sys, m: Protocol.Sys, p: Protocol.Response)
    requires PP.Closer(n, m, p)
    ensures Onward(n, m)
  {
    hide PP.Alive, PP.Expected, ProtocolInvariants.Framed;
  }

  /** The reply to a Dispatch. */
  function ReplyOf(a: Protocol.Action): Protocol.Response
    requires a.Dispatch?
  {
    Protocol.Response(Protocol.COSIM_MAGIC, Protocol.COSIM_VERSION, a.status, a.data, a.irq)
  }

  const ANY_REPLY := Protocol.Response(Protocol.COSIM_MAGIC, Protocol.COSIM_VERSION, Protocol.COSIM_OK, 0, 0)

  lemma AnyReplyIsPossible()
    ensures PP.Possible(ANY_REPLY)
  {
  }

  /** One network step. */
  lemma NetIsOnward(s: CoSim.Sys, a: Protocol.Action) returns (t: CoSim.Sys)
    requires Holds(s) && !a.Dispatch? && Protocol.Enabled(s.net, a) && PP.Harmless(s.net, a)
    requires ByServer(a) ==> AtHand(s.soc) && s.job.None?
    requires Onward(s.net, Protocol.Next(s.net, a))
    ensures CanProceed(s, t) && Holds(t) && Onward(s.net, t.net)
  {
    hide Holds, Onward, CanProceed, Protocol.Enabled, Protocol.Next, AtHand;
    t := CoSim.Next(s, Net(a));
    NetKeepsHolds(s, a);
    Stays(t);
    First(s, Net(a), t);
  }

  /** The network half of a state. */
  lemma NetHalf(s: CoSim.Sys)
    requires Holds(s)
    ensures ProtocolInvariants.Shape(s.net) && ProtocolInvariants.Framed(s.net)
    ensures ProtocolInvariants.HeadersOk(s.net.executed)
  {
    hide Scheduled, JobRight, AllServed, ProtocolInvariants.HeadersOk, ProtocolInvariants.Truthful,
         ProtocolInvariants.IrqMirrored;
  }

  lemma ClientActs(n: Protocol.Sys)
    requires ProtocolInvariants.Framed(n) && PP.Alive(n) && !PP.Waits(n)
    requires !(n.client.phase.Receiving? && |n.client.phase.rcvd| == Protocol.MESSAGE_BYTES)
    ensures !PP.NextAction(n, ANY_REPLY).Dispatch? && !ByServer(PP.NextAction(n, ANY_REPLY))
  {
    PP.ReceivedAtMost(n);
    hide ProtocolInvariants.Framed, PP.ServerChoice;
  }

  lemma ClientIsOnward(s: CoSim.Sys) returns (t: CoSim.Sys)
    requires Holds(s) && PP.Alive(s.net) && !PP.Waits(s.net)
    requires !(s.net.client.phase.Receiving? && |s.net.client.phase.rcvd| == Protocol.MESSAGE_BYTES)
    ensures CanProceed(s, t) && Holds(t) && Onward(s.net, t.net)
  {
    NetHalf(s);
    hide PP.Alive, PP.Waits, PP.Closer, PP.NextAction, ProtocolInvariants.Framed, Holds, Onward, CanProceed,
         Protocol.Enabled, Protocol.Next, PP.Harmless;
    var a := PP.NextAction(s.net, ANY_REPLY);
    ClientActs(s.net);
    PP.ActionIsCloser(s.net, ANY_REPLY);
    CloserIsOnward(s.net, Protocol.Next(s.net, a), ANY_REPLY);
    t := NetIsOnward(s, a);
  }

  /** The server back from the SoC replies. */
  lemma ReplyIsOnward(s: CoSim.Sys) returns (t: CoSim.Sys)
    requires Holds(s) && PP.Alive(s.net) && s.job.Some? && AtHand(s.soc)
    ensures CanProceed(s, t) && Holds(t) && Onward(s.net, t.net)
  {
    hide *;
    var a := ReplyNow(s.job.value, s.soc);
    NetHalf(s);
    JobIsCollected(s);
    ReplyIsPossible(s);
    AReplyIsDispatched(s.job.value, s.soc);
    EndIsDispatch(s);
    EndKeepsHolds(s);
    t := CoSim.Next(s, End);
    PP.DispatchIsCloser(s.net, ReplyOf(a), a);
    CloserIsOnward(s.net, t.net, ReplyOf(a));
    Stays(t);
    First(s, End, t);
  }

  lemma EndIsDispatch(s: CoSim.Sys)
    requires s.job.Some? && AtHand(s.soc) && Protocol.Enabled(s.net, ReplyNow(s.job.value, s.soc))
    ensures CoSim.Enabled(s, End) && Smooth(s, End)
    ensures CoSim.Next(s, End).net == Protocol.Next(s.net, ReplyNow(s.job.value, s.soc))
  {
    hide ReplyNow, Protocol.Enabled, Protocol.Next, AtHand, ReplyTo;
  }

  lemma AReplyIsDispatched(job: Job, k: Sim)
    ensures var a := ReplyNow(job, k);
      && a.Dispatch?
      && ReplyOf(a) == Protocol.Response(Protocol.COSIM_MAGIC, Protocol.COSIM_VERSION, a.status, a.data, a.irq)
  {
    hide AnswerNow, Protocol.HeaderOk, ToWord;
  }

  lemma JobIsCollected(s: CoSim.Sys)
    requires Holds(s) && s.job.Some?
    ensures s.net.server.Collecting? && |s.net.server.got| == Protocol.MESSAGE_BYTES
  {
    hide Scheduled, ProtocolInvariants.Inv, AllServed, InHand, AccessesIn, AccessesOf, Protocol.DecodeRequest;
  }

  /** A request the server has, or takes up now, is served. */
  lemma ServingIsOnward(s: CoSim.Sys) returns (t: CoSim.Sys)
    requires Holds(s) && PP.Alive(s.net) && AtHand(s.soc) && (s.job.Some? || Collected(s.net))
    ensures CanProceed(s, t) && Holds(t) && Onward(s.net, t.net)
  {
    hide PP.Alive, Holds, Onward, CanProceed, AtHand, Collected, TakeUp;
    if s.job.Some? {
      t := ReplyIsOnward(s);
    } else {
      var j := CoSim.Next(s, Begin);
      BeginKeepsHolds(s);
      var k := ComesToHand(j);
      t := ReplyIsOnward(k);
      Then(j, k, t);
      First(s, Begin, t);
    }
  }

  lemma ServerActs(n: Protocol.Sys)
    requires ProtocolInvariants.Framed(n)
    ensures if PP.ServerChoice(n, ANY_REPLY).Dispatch? then Collected(n) else ByServer(PP.ServerChoice(n, ANY_REPLY))
  {
    ProtocolInvariants.FramedNeverOverruns(n);
    hide ProtocolInvariants.InOrder, ProtocolInvariants.Waiting, ProtocolInvariants.ServerFrame,
         ProtocolInvariants.ClientFrame, ProtocolInvariants.ConnsInOrder, Protocol.HeaderOk;
  }

  lemma ServerIsOnward(s: CoSim.Sys) returns (t: CoSim.Sys)
    requires Holds(s) && PP.Alive(s.net) && PP.Waits(s.net) && AtHand(s.soc)
    ensures CanProceed(s, t) && Holds(t) && Onward(s.net, t.net)
  {
    AnyReplyIsPossible();
    hide *;
    NetHalf(s);
    var a := PP.ServerChoice(s.net, ANY_REPLY);
    ServerActs(s.net);
    if s.job.Some? || a.Dispatch? {
      t := ServingIsOnward(s);
    } else {
      PP.ServerIsCloser(s.net, ANY_REPLY);
      CloserIsOnward(s.net, Protocol.Next(s.net, a), ANY_REPLY);
      t := NetIsOnward(s, a);
    }
  }

  // ----- theorems

  function Asking(op: Word, addr: Word, data: Word): Protocol.Request {
    Protocol.Request(Protocol.COSIM_MAGIC, Protocol.COSIM_VERSION, op, addr, data)
  }

  /** The call has ended with the reply to its own request q, the last one the SoC has made. */
  predicate Concluded(s: CoSim.Sys, q: Protocol.Request, t: CoSim.Sys) {
    && t.net.client.phase.Idle? && t.net.client.open && t.served != [] && t.served[|t.served| - 1].q == q
    && t.net.returned == s.net.returned + [PP.Ended(|t.served| - 1, ReplyTo(t.served[|t.served| - 1]))]
  }

  lemma LastServed(s: CoSim.Sys)
    requires AllServed(s) && s.net.executed != []
    ensures s.served != []
    ensures var v, x := s.served[|s.served| - 1], s.net.executed[|s.net.executed| - 1];
      |s.served| == |s.net.executed| && x.reply == ReplyTo(v) && x.txn < |s.net.issued| && s.net.issued[x.txn] == v.q
  {
    assert ServedRight(s.served[|s.served| - 1], s.net.executed[|s.net.executed| - 1], s.net.issued, s.soc);
  }

  lemma FinishConcludes(s: CoSim.Sys) returns (t: CoSim.Sys)
    requires Holds(s) && PP.Alive(s.net) && s.net.client.phase.Receiving?
    requires |s.net.client.phase.rcvd| == Protocol.MESSAGE_BYTES
    ensures s.net.issued != [] && CanProceed(s, t) && Concluded(s, s.net.issued[|s.net.issued| - 1], t)
  {
    NetHalf(s);
    PP.FinishEndsTheCall(s.net, ANY_REPLY);
    hide Scheduled, JobRight, AllServed, CanProceed, ReplyTo, PP.Alive, ProtocolInvariants.Inv, Protocol.Next,
         Protocol.Enabled;
    LastServed(s);
    t := CoSim.Next(s, Net(Protocol.Finish));
    Stays(t);
    First(s, Net(Protocol.Finish), t);
  }

  /** No deadlock, at any moment of a call: it can be carried on, without failures, to the SoC's reply to it. */
  lemma {:induction false} GuestCallCanFinish(s: CoSim.Sys) returns (t: CoSim.Sys)
    requires Holds(s) && PP.Alive(s.net)
    ensures s.net.issued != [] && CanProceed(s, t) && Concluded(s, s.net.issued[|s.net.issued| - 1], t)
    decreases PP.Backlog(s.net), PP.ServerRank(s.net) + PP.PhaseRank(s.net.client.phase)
  {
    hide PP.Alive, Holds, CanProceed, AtHand, ReplyTo, PP.Waits;
    if s.net.client.phase.Receiving? && |s.net.client.phase.rcvd| == Protocol.MESSAGE_BYTES {
      t := FinishConcludes(s);
    } else {
      var j;
      if PP.Waits(s.net) {
        var k := ComesToHand(s);
        j := ServerIsOnward(k);
        Then(s, k, j);
      } else {
        j := ClientIsOnward(s);
      }
      t := GuestCallCanFinish(j);
      Then(s, j, t);
    }
  }

  /** From every reachable state in which the server is available, a new call can be carried to the SoC's reply
      to that very request: through any backlog of abandoned connections, a request still in hand, and every
      wait of the server. */
  lemma NewGuestCallCanFinish(before: seq<Move>, s: CoSim.Sys, op: Word, addr: Word, data: Word)
    requires CoSim.Reaches(CoSim.START, before, s) && PP.Available(s.net)
    ensures exists t :: CanProceed(s, t) && Concluded(s, Asking(op, addr, data), t)
  {
    AlwaysHoldsTogether(before, s);
    var j := IssueKeepsHolds(s, op, addr, data);
    hide CoSim.Reaches, Holds, PP.Alive, CanProceed, ReplyTo, PP.Available;
    var t := GuestCallCanFinish(j);
    Then(s, j, t);
  }

  lemma IssueAsks(n: Protocol.Sys, op: Word, addr: Word, data: Word)
    requires Protocol.Enabled(n, Protocol.Issue(op, addr, data, true))
    ensures Protocol.Next(n, Protocol.Issue(op, addr, data, true)).issued == n.issued + [Asking(op, addr, data)]
  {
    hide Protocol.EncodeRequest;
  }

  lemma IssueKeepsHolds(s: CoSim.Sys, op: Word, addr: Word, data: Word) returns (j: CoSim.Sys)
    requires Holds(s) && PP.Available(s.net)
    ensures CanProceed(s, j) && Holds(j) && PP.Alive(j.net) && j.net.returned == s.net.returned
    ensures j.net.issued == s.net.issued + [Asking(op, addr, data)]
  {
    NetHalf(s);
    hide Holds, PP.Alive, CanProceed, PP.Available, Protocol.Next, Protocol.Enabled, ProtocolInvariants.Framed, Asking;
    var issue := Protocol.Issue(op, addr, data, true);
    PP.IssueIsAlive(s.net, op, addr, data);
    IssueAsks(s.net, op, addr, data);
    j := CoSim.Next(s, Net(issue));
    NetKeepsHolds(s, issue);
    Stays(j);
    First(s, Net(issue), j);
  }
}
