// The SystemC side of the bridge: server_thread, its transfer loops, and the bus accesses it makes on the
// SoC.  What the environment decides is passed in: how sockets behave, where a Timer access falls among the
// clock edges, and the values irq_bits has when it is read.
module CosimServer {
  import opened Words
  import opened Tlm
  import opened MemoryMap
  import opened PinBridge
  import opened Sockets
  import opened Soc
  import opened Protocol
  import opened Registers
  import Machine

  /** send_all: EAGAIN only costs time. */
  method SendAll(s: Socket, message: seq<Byte>) returns (ok: bool)
    modifies s`sends, s`outgoing
    ensures var k := Moved(old(s.sends), |message|, true);
      k <= |message| && s.outgoing == old(s.outgoing) + message[..k] && (ok <==> k == |message|)
  {
    var sent := 0;
    while sent < |message|
      invariant sent <= |message|
      invariant s.outgoing == old(s.outgoing) + message[..sent]
      invariant sent + Moved(s.sends, |message| - sent, true) == Moved(old(s.sends), |message|, true)
      decreases |s.sends|, |message| - sent
    {
      var n, again := s.Send(message[sent..]);
      if n < 0 && again {
        continue;
      }
      if n <= 0 {
        return false;
      }
      assert message[..sent] + message[sent..][..n] == message[..sent + n];
      sent := sent + n;
    }
    return true;
  }

  /** recv_all. */
  method RecvAll(s: Socket, buf: array<Byte>) returns (ok: bool)
    modifies s`recvs, s`incoming, buf
    ensures var k := Moved(old(s.recvs), Least(buf.Length, |old(s.incoming)|), true);
      && k <= |old(s.incoming)| && k <= buf.Length && s.incoming == old(s.incoming)[k..]
      && buf[..k] == old(s.incoming)[..k] && (ok <==> k == buf.Length)
  {
    var got := 0;
    while got < buf.Length
      invariant got <= buf.Length && got <= |old(s.incoming)|
      invariant s.incoming == old(s.incoming)[got..] && buf[..got] == old(s.incoming)[..got]
      invariant got + Moved(s.recvs, Least(buf.Length - got, |s.incoming|), true)
             == Moved(old(s.recvs), Least(buf.Length, |old(s.incoming)|), true)
      decreases |s.recvs|, buf.Length - got
    {
      var n, again := s.Recv(buf, got);
      if n < 0 && again {
        continue;
      }
      if n <= 0 {
        return false;
      }
      assert buf[..got + n] == buf[..got] + buf[got..got + n];
      got := got + n;
    }
    return true;
  }

  /** The bus accesses a request makes: one or none. */
  function Accesses(q: Request): seq<Machine.Event> {
    if !HeaderOk(q) then []
    else if q.op == COSIM_OP_READ then [Machine.Access(Read, q.addr, 0)]
    else if q.op == COSIM_OP_WRITE then [Machine.Access(Write, q.addr, q.data)]
    else []
  }

  /** No device changes the length of a payload. */
  lemma ServeKeepsLength(s: SocRegs, t: Txn, sch: Schedule)
    ensures |Serve(s, t, sch).1.txn.data| == |t.data|
  {
    match FlatMap(t.address) {
      case None =>
      case Some(Target(d, offset)) =>
        FlatMapIsTheOneSlot(t.address, d);
    }
  }

  /** Status and data of the reply to q when the SoC's registers are s; sch places a Timer access among the
      clock edges. */
  function Answer(s: SocRegs, q: Request, sch: Schedule): (Word, Word) {
    if !HeaderOk(q) then (COSIM_ERROR, 0)
    else if q.op == COSIM_OP_READ then
      var t := ServerTxn(Read, q.addr, 0);
      ServeKeepsLength(s, t, sch);
      var t' := Serve(s, t, sch).1.txn;
      if t'.status.IsError() then (COSIM_ERROR, 0) else (COSIM_OK, FromBytes(t'.data))
    else if q.op == COSIM_OP_WRITE then
      (if Serve(s, ServerTxn(Write, q.addr, q.data), sch).1.txn.status.IsError() then COSIM_ERROR else COSIM_OK, 0)
    else if q.op == COSIM_OP_TICK || q.op == COSIM_OP_QUIT then (COSIM_OK, 0)
    else (COSIM_ERROR, 0)
  }

  /** The registers after a request: those of a bus access for READ and WRITE, unchanged otherwise. */
  function Effect(s: SocRegs, q: Request, sch: Schedule): SocRegs {
    if HeaderOk(q) && q.op == COSIM_OP_READ then Serve(s, ServerTxn(Read, q.addr, 0), sch).0
    else if HeaderOk(q) && q.op == COSIM_OP_WRITE then Serve(s, ServerTxn(Write, q.addr, q.data), sch).0
    else s
  }

  /** The reply when irq_bits reads irqBefore before the access and irqAfter after it. */
  function ReplyWith(s: SocRegs, q: Request, sch: Schedule, irqBefore: Word, irqAfter: Word): Response {
    var (status, data) := Answer(s, q, sch);
    Response(COSIM_MAGIC, COSIM_VERSION, status, data, if HeaderOk(q) then irqAfter else irqBefore)
  }

  /** The requests that are answered with status 0: an accepted read or write, a tick, a quit. */
  predicate Succeeds(q: Request) {
    && q.magic == 0x5343_4D31 && q.version == 2
    && ((q.op in {1, 2} && Accepted(q.addr)) || q.op in {3, 4})
  }

  /** The status of the reply to any request, with the SoC in any state: 0 or 1.  Only a read that succeeds carries
      data, and a request that does not succeed changes nothing. */
  lemma AnswersExactly(s: SocRegs, q: Request, sch: Schedule)
    ensures Answer(s, q, sch).0 == if Succeeds(q) then 0 else 1
    ensures !(Succeeds(q) && q.op == 1) ==> Answer(s, q, sch).1 == 0
    ensures !(Succeeds(q) && q.op in {1, 2}) ==> Effect(s, q, sch) == s
  {
    hide Serve, Accepted, FromBytes;
    AcceptedExactly(s, Read, q.addr, 0, sch);
    AcceptedExactly(s, Write, q.addr, q.data, sch);
  }

  /** Without clock edges inside the access, a request does to the registers what its bus accesses do as
      events of the atomic machine. */
  lemma EffectIsTheMachines(m: Machine.State, q: Request)
    ensures var es := Accesses(q);
      es == [] ==> Effect(m.regs, q, Machine.NO_EDGES) == m.regs
    ensures var es := Accesses(q);
      es != [] ==> |es| == 1 && es[0].Access?
                   && Machine.Direct(m, es[0]).regs == Effect(m.regs, q, Machine.NO_EDGES)
  {
    hide Serve;
  }

  class CosimServer {
    const soc: CortexMPlSoc
    var client: Socket?
    var quit: bool

    constructor (soc: CortexMPlSoc)
      ensures this.soc == soc && client == null && !quit
    {
      this.soc, client, quit := soc, null, false;
    }

    /** tlm_read; data keeps its 0 on an error. */
    method TlmRead(addr: Word, sch: Schedule) returns (ok: bool, data: Word)
      requires soc.Valid()
      modifies soc.timerBus, soc.timer, soc.sram.mem, soc.gpio, soc.uart, soc.sysctrl, soc.wdt
      ensures soc.Valid()
      ensures var (s, o) := Serve(old(soc.View()), ServerTxn(Read, addr, 0), sch);
        && soc.View() == s && ok == !o.txn.status.IsError() && |o.txn.data| == 4
        && data == if ok then FromBytes(o.txn.data) else 0
    {
      hide Serve;
      var t := ServerTxn(Read, addr, 0);
      ServeKeepsLength(soc.View(), t, sch);
      var trans := new Payload(t);
      var _ := soc.BTransport(trans, 0, sch);
      if trans.status.IsError() {
        return false, 0;
      }
      return true, FromBytes(trans.data);
    }

    /** tlm_write. */
    method TlmWrite(addr: Word, data: Word, sch: Schedule) returns (ok: bool)
      requires soc.Valid()
      modifies soc.timerBus, soc.timer, soc.sram.mem, soc.gpio, soc.uart, soc.sysctrl, soc.wdt
      ensures soc.Valid()
      ensures var (s, o) := Serve(old(soc.View()), ServerTxn(Write, addr, data), sch);
        soc.View() == s && ok == !o.txn.status.IsError()
    {
      hide Serve;
      var trans := new Payload(ServerTxn(Write, addr, data));
      var _ := soc.BTransport(trans, 0, sch);
      return !trans.status.IsError();
    }

    /** The dispatch of one request. */
    method Execute(q: Request, sch: Schedule, irqBefore: Word, irqAfter: Word) returns (resp: Response)
      requires soc.Valid()
      modifies this`quit, soc.timerBus, soc.timer, soc.sram.mem, soc.gpio, soc.uart, soc.sysctrl, soc.wdt
      ensures soc.Valid() && soc.View() == Effect(old(soc.View()), q, sch)
      ensures quit == (old(quit) || (HeaderOk(q) && q.op == COSIM_OP_QUIT))
      ensures resp == ReplyWith(old(soc.View()), q, sch, irqBefore, irqAfter)
    {
      hide Serve;
      resp := Response(COSIM_MAGIC, COSIM_VERSION, COSIM_OK, 0, irqBefore);
      if q.magic != COSIM_MAGIC || q.version != COSIM_VERSION {
        resp := resp.(status := COSIM_ERROR);
      } else {
        if q.op == COSIM_OP_READ {
          var ok, data := TlmRead(q.addr, sch);
          resp := resp.(data := data, status := if ok then COSIM_OK else COSIM_ERROR);
        } else if q.op == COSIM_OP_WRITE {
          var ok := TlmWrite(q.addr, q.data, sch);
          resp := resp.(status := if ok then COSIM_OK else COSIM_ERROR);
        } else if q.op == COSIM_OP_TICK {
          // only simulated time passes
        } else if q.op == COSIM_OP_QUIT {
          quit := true;
        } else {
          resp := resp.(status := COSIM_ERROR);
        }
        resp := resp.(irqBits := irqAfter);
      }
    }

    /** Run a request and reply, as far as the socket allows. */
    method Respond(s: Socket, q: Request, sch: Schedule, irqBefore: Word, irqAfter: Word)
      requires soc.Valid() && !quit && client == s
      modifies this`client, this`quit, s`sends, s`outgoing,
               soc.timerBus, soc.timer, soc.sram.mem, soc.gpio, soc.uart, soc.sysctrl, soc.wdt
      ensures soc.Valid() && soc.View() == Effect(old(soc.View()), q, sch)
      ensures quit == (HeaderOk(q) && q.op == COSIM_OP_QUIT)
      ensures var sent := ReplyBytes(old(s.sends));
        && s.outgoing == old(s.outgoing)
                         + EncodeResponse(ReplyWith(old(soc.View()), q, sch, irqBefore, irqAfter))[..sent]
        && client == if sent == MESSAGE_BYTES then s else null
    {
      hide Serve, Effect, ReplyWith, HeaderOk, EncodeResponse;
      var resp := Execute(q, sch, irqBefore, irqAfter);
      var sent := SendAll(s, EncodeResponse(resp));
      if !sent {
        client := null;
      }
    }

    /** Read one request, run it, reply.  An incomplete request is dropped with its connection and leaves
        no trace; a complete one is run once, and answered as far as the socket allows. */
    method HandleRequest(s: Socket, sch: Schedule, irqBefore: Word, irqAfter: Word)
      requires soc.Valid() && !quit && client == s
      modifies this`client, this`quit, s,
               soc.timerBus, soc.timer, soc.sram.mem, soc.gpio, soc.uart, soc.sysctrl, soc.wdt
      ensures soc.Valid()
      ensures RequestBytes(old(s.recvs), old(s.incoming)) < MESSAGE_BYTES ==>
        client == null && !quit && soc.View() == old(soc.View()) && s.outgoing == old(s.outgoing)
      ensures RequestBytes(old(s.recvs), old(s.incoming)) == MESSAGE_BYTES ==>
        var q := DecodeRequest(old(s.incoming)[..MESSAGE_BYTES]);
        var sent := ReplyBytes(old(s.sends));
        && soc.View() == Effect(old(soc.View()), q, sch)
        && quit == (HeaderOk(q) && q.op == COSIM_OP_QUIT)
        && s.incoming == old(s.incoming)[MESSAGE_BYTES..]
        && s.outgoing == old(s.outgoing)
                         + EncodeResponse(ReplyWith(old(soc.View()), q, sch, irqBefore, irqAfter))[..sent]
        && client == if sent == MESSAGE_BYTES then s else null
    {
      hide Serve, Effect, ReplyWith, HeaderOk, EncodeResponse, DecodeRequest;
      var buf := new Byte[MESSAGE_BYTES];
      var received := RecvAll(s, buf);
      if !received {
        client := null;
        return;
      }
      assert buf[..] == old(s.incoming)[..MESSAGE_BYTES];
      Respond(s, DecodeRequest(buf[..]), sch, irqBefore, irqAfter);
    }

    /** One round of server_thread: accept if there is no client, and handle a request if one is there.
        offer is what accept(2) gives, null for none. */
    method Round(offer: Socket?, readable: bool, sch: Schedule, irqBefore: Word, irqAfter: Word)
      requires soc.Valid() && !quit
      modifies this`client, this`quit, client, offer,
               soc.timerBus, soc.timer, soc.sram.mem, soc.gpio, soc.uart, soc.sysctrl, soc.wdt
      ensures soc.Valid()
      ensures var s := if old(client) != null then old(client) else offer;
        s == null || !readable ==> client == s && !quit && soc.View() == old(soc.View())
      ensures var s := if old(client) != null then old(client) else offer;
        s != null && readable ==>
          var whole := RequestBytes(old(s.recvs), old(s.incoming)) == MESSAGE_BYTES;
          var q := if whole then DecodeRequest(old(s.incoming)[..MESSAGE_BYTES]) else NO_REQUEST;
          var reply := EncodeResponse(ReplyWith(old(soc.View()), q, sch, irqBefore, irqAfter));
          var sent := if whole then ReplyBytes(old(s.sends)) else 0;
          && soc.View() == (if whole then Effect(old(soc.View()), q, sch) else old(soc.View()))
          && s.outgoing == old(s.outgoing) + reply[..sent]
          && quit == (HeaderOk(q) && q.op == COSIM_OP_QUIT)
          && client == if sent == MESSAGE_BYTES then s else null
    {
      hide Serve, Effect, ReplyWith, Pack, WordNumber, RequestBytes, ReplyBytes, DecodeRequest;
      if client == null {
        if offer == null {
          return;
        }
        client := offer;
      }
      if readable {
        HandleRequest(client, sch, irqBefore, irqAfter);
      }
    }
  }

  const NO_REQUEST := Request(0, 0, 0, 0, 0)

  function RequestBytes(recvs: seq<IoResult>, incoming: seq<Byte>): (n: nat)
    ensures n <= MESSAGE_BYTES && n <= |incoming|
  {
    MovedAtMost(recvs, Least(MESSAGE_BYTES, |incoming|), true);
    Moved(recvs, Least(MESSAGE_BYTES, |incoming|), true)
  }

  function ReplyBytes(sends: seq<IoResult>): (n: nat)
    ensures n <= MESSAGE_BYTES
  {
    MovedAtMost(sends, MESSAGE_BYTES, true);
    Moved(sends, MESSAGE_BYTES, true)
  }
}
