// Both sides together: the protocol of QEMU and server_thread in front of the SoC under its scheduler.
// The server takes up a collected request when the scheduler runs it, makes the bus access, comes back after
// the waits the access costs, samples irq_bits and replies.  A run is any interleaving.
module CoSim {
  import opened Words
  import opened Tlm
  import opened Soc
  import opened Kernel
  import opened KernelTrace
  import opened CosimServer
  import Protocol
  import Machine

  /** A request in hand, and the SoC when the server took it up. */
  datatype Job = Job(q: Protocol.Request, from: Sim)

  /** History: a request served, and the SoC when it was taken up and when the reply was made. */
  datatype Served = Served(q: Protocol.Request, from: Sim, to: Sim)

  datatype Sys = Sys(soc: Sim, net: Protocol.Sys, job: Option<Job>, served: seq<Served>)

  const START := Sys(Kernel.START, Protocol.START, None, [])

  /** Net: bytes move, connections come and go.  Run: the scheduler goes on.  Begin: the server takes up the
      request it has collected.  End: it replies. */
  datatype Move = Net(a: Protocol.Action) | Run(c: Choice) | Begin | End

  /** server_thread is running, between accesses. */
  predicate AtHand(k: Sim) {
    k.pc.Ready? && Server in k.runnable
  }

  predicate ByServer(a: Protocol.Action) {
    a.Accept? || a.ServerRecv? || a.ServerRecvFail? || a.ServerSend? || a.ServerSendFail?
  }

  /** The server waits between requests, for its socket, and within a request to advance time; it starts bus
      accesses only to serve one. */
  predicate Allowed(job: Option<Job>, k: Sim, c: Choice) {
    c.Run? && c.p == Server && k.pc.Ready? ==>
      c.act.Poll? && (job.None? || (Protocol.HeaderOk(job.value.q) && job.value.q.op == Protocol.COSIM_OP_TICK))
  }

  /** tlm_read, tlm_write: the scheduler's next step of the server, if the request needs the bus. */
  function TakeUp(k: Sim, q: Protocol.Request): Sim {
    var es := Accesses(q);
    if es == [] then k else Kernel.Next(k, StartOf(es[0]))
  }

  function StartOf(e: Machine.Event): Choice {
    Choice.Run(Server, if e.Access? then Serve(e.command, e.address, e.value) else Poll)
  }

  /** Status and data of the reply.  A Timer read returns what the bridge has read from the pins; any other
      access is over when b_transport returns. */
  function AnswerNow(job: Job, k: Sim): (Word, Word) {
    var es := Accesses(job.q);
    if es != [] && ForTimer(es[0]) then
      (Protocol.COSIM_OK, if es[0].command == Read && k.done != [] then k.done[|k.done| - 1].value else 0)
    else Answer(job.from.regs, job.q, Machine.NO_EDGES)
  }

  /** The reply, with irq_bits as it reads now; on a bad header, as it read when the request came in. */
  function ReplyNow(job: Job, k: Sim): Protocol.Action {
    var (status, data) := AnswerNow(job, k);
    Protocol.Dispatch(status, data, ToWord(if Protocol.HeaderOk(job.q) then k.cur.irqBits else job.from.cur.irqBits))
  }

  predicate Collected(n: Protocol.Sys) {
    && n.server.Collecting? && 0 < n.accepted <= |n.conns| && |n.server.got| == Protocol.MESSAGE_BYTES
  }

  predicate Enabled(s: Sys, m: Move) {
    match m
    case Net(a) => !a.Dispatch? && Protocol.Enabled(s.net, a) && (ByServer(a) ==> AtHand(s.soc) && s.job.None?)
    case Run(c) => Kernel.Enabled(s.soc, c) && Allowed(s.job, s.soc, c)
    case Begin => s.job.None? && AtHand(s.soc) && Collected(s.net)
    case End => s.job.Some? && AtHand(s.soc) && Protocol.Enabled(s.net, ReplyNow(s.job.value, s.soc))
  }

  function Next(s: Sys, m: Move): Sys
    requires Enabled(s, m)
  {
    match m
    case Net(a) => s.(net := Protocol.Next(s.net, a))
    case Run(c) => s.(soc := Kernel.Next(s.soc, c))
    case Begin =>
      var q := Protocol.DecodeRequest(s.net.server.got);
      s.(soc := TakeUp(s.soc, q), job := Some(Job(q, s.soc)))
    case End =>
      var job := s.job.value;
      s.(net := Protocol.Next(s.net, ReplyNow(job, s.soc)), job := None,
         served := s.served + [Served(job.q, job.from, s.soc)])
  }

  ghost predicate Reaches(s: Sys, moves: seq<Move>, t: Sys)
    decreases |moves|
  {
    if moves == [] then s == t
    else Enabled(s, moves[0]) && Reaches(Next(s, moves[0]), moves[1..], t)
  }
}
