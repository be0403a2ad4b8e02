// What holds in every state of every run of the protocol, and what follows for the guest.
module ProtocolInvariants {
  import opened Words
  import opened Protocol

  // ----- the invariants

  /** The last transaction the server has executed. */
  function Latest(s: Sys): int {
    if s.executed == [] then -1 else s.executed[|s.executed| - 1].txn
  }

  function LatestReply(s: Sys): seq<Byte>
    requires s.executed != []
  {
    EncodeResponse(s.executed[|s.executed| - 1].reply)
  }

  /** The request bytes sent so far for the transaction on c. */
  function SentOn(issued: seq<Request>, c: Conn): seq<Byte>
    requires c.txn < |issued| && c.sent <= MESSAGE_BYTES
  {
    EncodeRequest(issued[c.txn])[..c.sent]
  }

  predicate ConnsInOrder(conns: seq<Conn>, issued: seq<Request>) {
    && (forall c | 0 <= c < |conns| :: conns[c].txn < |issued| && conns[c].sent <= MESSAGE_BYTES)
    && (forall b, c | 0 <= b < c < |conns| :: conns[b].txn < conns[c].txn)
  }

  predicate Shape(s: Sys) {
    && s.accepted <= |s.conns|
    && (s.server.Collecting? || s.server.Answering? ==> s.accepted > 0)
    && (s.client.open ==> s.conns != [])
    && (!s.client.phase.Idle? ==> s.client.open && s.issued != [] && s.conns[Last(s)].txn == |s.issued| - 1)
    && |s.returned| + (if s.client.phase.Idle? then 0 else 1) == |s.issued|
    && |s.client.lines| == REMOTE_MMIO_MAX_IRQ
    && ConnsInOrder(s.conns, s.issued)
    && forall i | 0 <= i < |s.issued| :: HeaderOk(s.issued[i])
  }

  /** Executions follow the order of issue, connection by connection. */
  predicate InOrder(s: Sys)
    requires Shape(s)
  {
    && (forall j | 0 <= j < |s.executed| :: s.executed[j].txn < |s.issued|)
    && (forall i, j | 0 <= i < j < |s.executed| :: s.executed[i].txn < s.executed[j].txn)
    && (if s.accepted == 0 then s.executed == [] else Latest(s) <= s.conns[s.accepted - 1].txn)
  }

  /** A connection waiting in the backlog carries what the client has sent and nothing else. */
  predicate Waiting(s: Sys)
    requires Shape(s)
  {
    forall i | s.accepted <= i < |s.conns| ::
      var c := s.conns[i]; c.up == SentOn(s.issued, c) && c.down == [] && c.pushed == []
  }

  /** Between the server and its connection: before the execution of a transaction the bytes received and
      queued are the bytes sent; from its execution on there are none, and the reply is what remains. */
  predicate ServerFrame(s: Sys)
    requires Shape(s)
  {
    match s.server
    case Collecting(got) =>
      var c := s.conns[s.accepted - 1];
      && |got| <= MESSAGE_BYTES
      && if Latest(s) == c.txn then got == [] && c.up == [] && |c.pushed| == MESSAGE_BYTES
         else got + c.up == SentOn(s.issued, c) && c.pushed == []
    case Answering(rest, _) =>
      var c := s.conns[s.accepted - 1];
      rest != [] && Latest(s) == c.txn && c.up == [] && c.pushed + rest == LatestReply(s)
    case _ => true
  }

  /** Between the client and its connection: no reply byte before the request is complete, and reply bytes
      received and queued are bytes of the reply to this very transaction. */
  predicate ClientFrame(s: Sys)
    requires Shape(s)
  {
    s.client.open ==>
      var c := s.conns[Last(s)];
      match s.client.phase
      case Idle => Latest(s) == c.txn && |c.pushed| == MESSAGE_BYTES && c.down == []
      case Sending(n) => n == c.sent < MESSAGE_BYTES && c.down == [] && c.pushed == [] && Latest(s) < c.txn
      case Receiving(rcvd) =>
        && c.sent == MESSAGE_BYTES && |rcvd| <= MESSAGE_BYTES && c.pushed == rcvd + c.down
        && (c.pushed != [] ==> Latest(s) == c.txn && c.pushed <= LatestReply(s))
  }

  /** What each finished call was told is what happened. */
  predicate Told(executed: seq<Exec>, i: nat, r: Return) {
    match r
    case NotSent => forall j | 0 <= j < |executed| :: executed[j].txn != i
    case NoReply => true
    case BadReply(slot) => slot < |executed| && executed[slot].txn == i && executed[slot].reply.status == COSIM_ERROR
    case Good(slot, data, irq) =>
      && slot < |executed| && executed[slot].txn == i && executed[slot].reply.status == COSIM_OK
      && executed[slot].reply.data == data && executed[slot].reply.irqBits == irq
  }

  predicate Truthful(s: Sys) {
    && (forall i | 0 <= i < |s.returned| :: Told(s.executed, i, s.returned[i]))
    && (forall c | 0 <= c < |s.conns| ::
          s.conns[c].txn < |s.returned| && s.returned[s.conns[c].txn].NotSent? ==> s.conns[c].sent < MESSAGE_BYTES)
  }

  /** The irq_bits of the latest accepted response; 0 before the first. */
  function LatestIrq(returned: seq<Return>): Word {
    if returned == [] then 0 else
      var r := returned[|returned| - 1];
      if r.Good? then r.irq else LatestIrq(returned[..|returned| - 1])
  }

  predicate LinesFollow(client: Client) {
    |client.lines| == REMOTE_MMIO_MAX_IRQ
    && forall i | 0 <= i < REMOTE_MMIO_MAX_IRQ :: client.lines[i] <==> i in ToBits(client.irqLast)
  }

  predicate IrqMirrored(s: Sys) {
    LinesFollow(s.client) && s.client.irqLast == LatestIrq(s.returned)
  }

  predicate Framed(s: Sys) {
    Shape(s) && InOrder(s) && Waiting(s) && ServerFrame(s) && ClientFrame(s)
  }

  // ----- framing

  lemma MoreIssued(s: Sys, q: Request, r: seq<Return>)
    requires Framed(s) && HeaderOk(q)
    ensures var j := s.(issued := s.issued + [q], returned := r);
      && ConnsInOrder(j.conns, j.issued)
      && (forall i | 0 <= i < |j.issued| :: HeaderOk(j.issued[i]))
      && (forall c | c in s.conns :: c.txn < |s.issued| && SentOn(j.issued, c) == SentOn(s.issued, c))
  {
    hide EncodeRequest, HeaderOk;
  }

  lemma FailedConnectKeepsFramed(s: Sys, q: Request)
    requires Framed(s) && HeaderOk(q) && s.client.phase.Idle? && !s.client.open
    ensures Framed(s.(issued := s.issued + [q], returned := s.returned + [NotSent]))
  {
    hide SentOn, HeaderOk, ConnsInOrder, EncodeResponse, EncodeRequest;
    MoreIssued(s, q, s.returned + [NotSent]);
  }

  lemma NewConnInOrder(s: Sys, q: Request, c: Conn)
    requires Shape(s) && c.txn == |s.issued| && c.sent == 0
    ensures ConnsInOrder(s.conns + [c], s.issued + [q])
  {
    hide HeaderOk;
  }

  /** Adding a connection behind the others. */
  lemma MoreConnsKeepServerSide(s: Sys, j: Sys)
    requires Shape(s) && Shape(j) && InOrder(s) && ServerFrame(s)
    requires j.executed == s.executed && j.server == s.server && j.accepted == s.accepted
    requires s.conns <= j.conns && s.issued <= j.issued
    requires forall c | c in s.conns :: SentOn(j.issued, c) == SentOn(s.issued, c)
    ensures InOrder(j) && ServerFrame(j)
  {
    hide SentOn, HeaderOk, ConnsInOrder, EncodeResponse;
  }

  lemma NewConnKeepsFramed(s: Sys, q: Request)
    requires Framed(s) && HeaderOk(q) && s.client.phase.Idle? && !s.client.open
    ensures Framed(s.(issued := s.issued + [q], conns := s.conns + [Conn([], [], |s.issued|, 0, [])],
                      client := s.client.(open := true, phase := Sending(0))))
  {
    var c := Conn([], [], |s.issued|, 0, []);
    assert SentOn(s.issued + [q], c) == [];
    hide SentOn, HeaderOk, EncodeResponse, EncodeRequest;
    MoreIssued(s, q, s.returned);
    NewConnInOrder(s, q, c);
    hide ConnsInOrder, ServerFrame;
    MoreConnsKeepServerSide(s, s.(issued := s.issued + [q], conns := s.conns + [c],
                                  client := s.client.(open := true, phase := Sending(0))));
  }

  lemma ReusedConnKeepsFramed(s: Sys, q: Request)
    requires Framed(s) && HeaderOk(q) && s.client.phase.Idle? && s.client.open
    ensures var c := s.conns[Last(s)].(txn := |s.issued|, sent := 0, pushed := []);
      Framed(s.(issued := s.issued + [q], conns := s.conns[Last(s) := c],
                client := s.client.(phase := Sending(0))))
  {
    var c := s.conns[Last(s)].(txn := |s.issued|, sent := 0, pushed := []);
    assert Last(s) < s.accepted;
    MoreIssued(s, q, s.returned);
    assert [] + [] == SentOn(s.issued + [q], c);
    hide SentOn, HeaderOk, EncodeResponse;
  }

  lemma IssueKeepsFramed(s: Sys, op: Word, addr: Word, data: Word, connects: bool)
    requires Framed(s) && s.client.phase.Idle?
    ensures Framed(IssueStep(s, op, addr, data, connects))
  {
    var q := Request(COSIM_MAGIC, COSIM_VERSION, op, addr, data);
    assert HeaderOk(q);
    hide Framed, HeaderOk;
    if s.client.open {
      ReusedConnKeepsFramed(s, q);
    } else if connects {
      NewConnKeepsFramed(s, q);
    } else {
      FailedConnectKeepsFramed(s, q);
    }
  }

  /** The bytes of one send extend what has been sent. */
  lemma SentMore(s: Sys, n: nat)
    requires Framed(s) && Enabled(s, ClientSend(n))
    ensures var c, c' := s.conns[Last(s)], ClientSendStep(s, n).conns[Last(s)];
      exists bytes :: c'.up == c.up + bytes && SentOn(s.issued, c') == SentOn(s.issued, c) + bytes
  {
    hide InOrder, Waiting, ServerFrame, EncodeRequest;
    var all, from := EncodeRequest(s.issued[|s.issued| - 1]), s.client.phase.sent;
    assert all[..from] + all[from..from + n] == all[..from + n];
    assert ClientSendStep(s, n).conns[Last(s)].up == s.conns[Last(s)].up + all[from..from + n];
  }

  /** More request bytes of a transaction that has not been executed. */
  lemma SentMoreKeepsFrames(s: Sys, j: Sys, bytes: seq<Byte>)
    requires Framed(s) && Shape(j) && s.conns != [] && Latest(s) < s.conns[Last(s)].txn
    requires |j.conns| == |s.conns|
    requires var c, c' := s.conns[Last(s)], j.conns[Last(s)];
      && c' == c.(up := c'.up, sent := c'.sent) && j.conns == s.conns[Last(s) := c']
      && c'.up == c.up + bytes && SentOn(s.issued, c') == SentOn(s.issued, c) + bytes
    requires j.issued == s.issued && j.executed == s.executed && j.server == s.server && j.accepted == s.accepted
    ensures InOrder(j) && Waiting(j) && ServerFrame(j)
  {
    hide SentOn, ConnsInOrder, HeaderOk, EncodeResponse, ClientFrame;
    if s.server.Collecting? && s.accepted == |s.conns| {
      assert s.server.got + (s.conns[Last(s)].up + bytes) == s.server.got + s.conns[Last(s)].up + bytes;
    }
  }

  lemma ClientSendKeepsFramed(s: Sys, n: nat)
    requires Framed(s) && Enabled(s, ClientSend(n))
    ensures Framed(ClientSendStep(s, n))
  {
    hide EncodeRequest, EncodeResponse, HeaderOk, InOrder, Waiting, ServerFrame, SentOn;
    var c, j := s.conns[Last(s)], ClientSendStep(s, n);
    SentMore(s, n);
    var bytes :| j.conns[Last(s)].up == c.up + bytes
      && SentOn(s.issued, j.conns[Last(s)]) == SentOn(s.issued, c) + bytes;
    SentMoreKeepsFrames(s, j, bytes);
  }

  lemma ClientRecvKeepsFramed(s: Sys, n: nat)
    requires Framed(s) && Enabled(s, ClientRecv(n))
    ensures Framed(ClientRecvStep(s, n))
  {
    hide EncodeRequest, EncodeResponse;
    var c := s.conns[Last(s)];
    assert s.client.phase.rcvd + c.down == (s.client.phase.rcvd + c.down[..n]) + c.down[n..];
  }

  lemma FinishKeepsFramed(s: Sys)
    requires Framed(s) && Enabled(s, Finish)
    ensures Framed(FinishStep(s))
  {
    hide EncodeRequest, EncodeResponse, DecodeResponse, DriveLines;
    var c := s.conns[Last(s)];
    assert |c.pushed| >= MESSAGE_BYTES;
  }

  /** A request collected in full has not been executed, and nothing else is on its connection. */
  lemma CollectedIsFresh(s: Sys)
    requires Framed(s) && s.server.Collecting? && |s.server.got| == MESSAGE_BYTES
    ensures var c := s.conns[s.accepted - 1];
      Latest(s) < c.txn && c.sent == MESSAGE_BYTES && c.up == [] && c.pushed == []
  {
    hide Waiting, ClientFrame, EncodeRequest, EncodeResponse;
    var c := s.conns[s.accepted - 1];
    assert |s.server.got + c.up| == |SentOn(s.issued, c)|;
  }

  lemma ExecutedInOrder(s: Sys, j: Sys, x: Exec)
    requires Shape(s) && Shape(j) && InOrder(s) && 0 < s.accepted && x.txn == s.conns[s.accepted - 1].txn
    requires Latest(s) < x.txn
    requires j.executed == s.executed + [x] && j.issued == s.issued && j.conns == s.conns && j.accepted == s.accepted
    ensures InOrder(j)
  {
  }

  /** The client cannot be between calls on a connection whose transaction is still to be executed. */
  lemma ExecutedClientFrame(s: Sys, j: Sys, x: Exec)
    requires Framed(s) && Shape(j) && 0 < s.accepted
    requires var c := s.conns[s.accepted - 1];
      x.txn == c.txn && Latest(s) < x.txn && c.sent == MESSAGE_BYTES && c.pushed == []
    requires j.executed == s.executed + [x] && j.conns == s.conns && j.client == s.client
    ensures ClientFrame(j)
  {
    hide Waiting, ServerFrame, EncodeRequest, EncodeResponse;
    if s.client.open && s.accepted - 1 < Last(s) {
      assert s.conns[s.accepted - 1].txn < s.conns[Last(s)].txn;
    }
  }

  lemma DispatchKeepsFramed(s: Sys, status: Word, data: Word, irq: Word)
    requires Framed(s) && Enabled(s, Dispatch(status, data, irq))
    ensures Framed(DispatchStep(s, status, data, irq))
  {
    hide EncodeRequest, EncodeResponse, DecodeRequest, ConnsInOrder, InOrder, ClientFrame, SentOn, HeaderOk;
    var j := DispatchStep(s, status, data, irq);
    var x := j.executed[|s.executed|];
    CollectedIsFresh(s);
    ExecutedInOrder(s, j, x);
    ExecutedClientFrame(s, j, x);
    assert [] + LatestReply(j) == LatestReply(j);
  }

  lemma ServerRecvKeepsFramed(s: Sys, n: nat)
    requires Framed(s) && Enabled(s, ServerRecv(n))
    ensures Framed(ServerRecvStep(s, n))
  {
    hide EncodeRequest, EncodeResponse;
  }

  lemma ServerSendKeepsFramed(s: Sys, n: nat)
    requires Framed(s) && Enabled(s, ServerSend(n))
    ensures Framed(ServerSendStep(s, n))
  {
    hide EncodeRequest, EncodeResponse;
    var c, rest := s.conns[s.accepted - 1], s.server.rest;
    assert rest == rest[..n] + rest[n..];
    assert c.pushed + rest == (c.pushed + rest[..n]) + rest[n..];
  }

  lemma GivingUpKeepsFramed(s: Sys, r: Return)
    requires Framed(s) && !s.client.phase.Idle?
    ensures Framed(GiveUp(s, r))
  {
    hide SentOn, ConnsInOrder, EncodeResponse, HeaderOk;
  }

  lemma HangingUpKeepsFramed(s: Sys)
    requires Framed(s) && s.client.phase.Idle?
    ensures Framed(s.(client := s.client.(open := false)))
  {
    hide SentOn, ConnsInOrder, EncodeResponse, HeaderOk;
  }

  lemma AcceptKeepsFramed(s: Sys)
    requires Framed(s) && Enabled(s, Accept)
    ensures Framed(s.(accepted := s.accepted + 1, server := Collecting([])))
  {
    assert [] + s.conns[s.accepted].up == s.conns[s.accepted].up;
    hide SentOn, EncodeResponse, HeaderOk;
  }

  lemma ClosingKeepsFramed(s: Sys, server: Server)
    requires Framed(s) && (server.Listening? || server.Stopped?)
    ensures Framed(s.(server := server))
  {
    hide SentOn, ConnsInOrder, EncodeResponse, HeaderOk;
  }

  lemma ChoiceKeepsFramed(s: Sys, a: Action)
    requires Framed(s) && Enabled(s, a)
    ensures Framed(Next(s, a))
  {
    hide Framed, IssueStep, ClientSendStep, ClientRecvStep, FinishStep, GiveUp, DispatchStep, ServerRecvStep,
         ServerSendStep;
    match a {
      case Issue(op, addr, data, connects) => IssueKeepsFramed(s, op, addr, data, connects);
      case ClientSend(n) => ClientSendKeepsFramed(s, n);
      case ClientSendFail => GivingUpKeepsFramed(s, NotSent);
      case ClientRecv(n) => ClientRecvKeepsFramed(s, n);
      case ClientRecvFail => GivingUpKeepsFramed(s, NoReply);
      case Finish => FinishKeepsFramed(s);
      case Hangup => HangingUpKeepsFramed(s);
      case Accept => AcceptKeepsFramed(s);
      case ServerRecv(n) => ServerRecvKeepsFramed(s, n);
      case ServerRecvFail => ClosingKeepsFramed(s, Listening);
      case Dispatch(status, data, irq) => DispatchKeepsFramed(s, status, data, irq);
      case ServerSend(n) => ServerSendKeepsFramed(s, n);
      case ServerSendFail => ClosingKeepsFramed(s, if s.server.quit then Stopped else Listening);
    }
  }

  // ----- what calls are told

  lemma ToldLater(executed: seq<Exec>, x: Exec, i: nat, r: Return)
    requires Told(executed, i, r) && (r.NotSent? ==> x.txn != i)
    ensures Told(executed + [x], i, r)
  {
  }

  /** A request that arrives was sent: its call was not told otherwise. */
  lemma DispatchKeepsTruthful(s: Sys, status: Word, data: Word, irq: Word)
    requires Framed(s) && Truthful(s) && Enabled(s, Dispatch(status, data, irq))
    ensures Truthful(DispatchStep(s, status, data, irq))
  {
    var j, c := DispatchStep(s, status, data, irq), s.conns[s.accepted - 1];
    CollectedIsFresh(s);
    hide InOrder, Waiting, ServerFrame, ClientFrame, ConnsInOrder, HeaderOk, DecodeRequest, EncodeRequest,
         EncodeResponse, Told;
    forall i | 0 <= i < |s.returned|
      ensures Told(j.executed, i, s.returned[i])
    {
      ToldLater(s.executed, j.executed[|s.executed|], i, s.returned[i]);
    }
  }

  /** The response the client has read is the reply to its own request. */
  lemma FinishedReply(s: Sys)
    requires Framed(s) && Enabled(s, Finish)
    ensures var x := s.executed[|s.executed| - 1];
      x.txn == |s.issued| - 1 && DecodeResponse(s.client.phase.rcvd) == x.reply
  {
    var x, c := s.executed[|s.executed| - 1], s.conns[Last(s)];
    assert |c.pushed| >= MESSAGE_BYTES;
    assert c.down == [] && s.client.phase.rcvd == LatestReply(s);
    ResponseRoundTrip(x.reply, []);
  }

  /** Every reply carries the right magic and version. */
  predicate HeadersOk(executed: seq<Exec>) {
    forall j | 0 <= j < |executed| ::
      && executed[j].reply.magic == COSIM_MAGIC && executed[j].reply.version == COSIM_VERSION
      && executed[j].reply.status in {COSIM_OK, COSIM_ERROR}
  }

  lemma FinishKeepsTruthful(s: Sys)
    requires Framed(s) && Truthful(s) && HeadersOk(s.executed) && Enabled(s, Finish)
    ensures Truthful(FinishStep(s))
  {
    FinishedReply(s);
    hide Framed, DecodeResponse, DriveLines;
    hide InOrder, Waiting, ServerFrame, ClientFrame;
  }

  /** A call that failed to connect or to send leaves an incomplete request behind, if any. */
  lemma UnsentKeepsTruthful(s: Sys)
    requires Framed(s) && Truthful(s) && s.client.phase.Sending?
    ensures Truthful(GiveUp(s, NotSent))
  {
    assert Told(s.executed, |s.returned|, NotSent);
    hide Told;
  }

  lemma IssueKeepsTruthful(s: Sys, op: Word, addr: Word, data: Word, connects: bool)
    requires Framed(s) && Truthful(s) && s.client.phase.Idle?
    ensures Truthful(IssueStep(s, op, addr, data, connects))
  {
    assert Told(s.executed, |s.returned|, NotSent);
    hide Told, Waiting, ServerFrame, ClientFrame, HeaderOk;
  }

  lemma NoReplyKeepsTruthful(s: Sys)
    requires Framed(s) && Truthful(s) && s.client.phase.Receiving?
    ensures Truthful(GiveUp(s, NoReply))
  {
    assert Told(s.executed, |s.returned|, NoReply);
    hide Told, InOrder, Waiting, ServerFrame, ClientFrame, HeaderOk;
  }

  /** Moving bytes towards the server on c: at most the client's own call completes its request. */
  lemma SendingKeepsTruthful(s: Sys, n: nat)
    requires Framed(s) && Truthful(s) && Enabled(s, ClientSend(n))
    ensures Truthful(ClientSendStep(s, n))
  {
    hide Told, InOrder, Waiting, ServerFrame, EncodeRequest, HeaderOk;
  }

  /** Steps that finish no call, run no request and send no request byte. */
  lemma SameStory(s: Sys, j: Sys)
    requires Shape(s) && Truthful(s) && j.returned == s.returned && j.executed == s.executed
    requires |j.conns| == |s.conns|
    requires forall c | 0 <= c < |s.conns| :: j.conns[c].txn == s.conns[c].txn && j.conns[c].sent == s.conns[c].sent
    ensures Truthful(j)
  {
    hide Told;
  }

  lemma ChoiceKeepsTruthful(s: Sys, a: Action)
    requires Framed(s) && Truthful(s) && HeadersOk(s.executed) && Enabled(s, a)
    ensures Truthful(Next(s, a))
  {
    hide InOrder, Waiting, ServerFrame, ClientFrame, Truthful, HeadersOk, IssueStep, ClientSendStep,
         FinishStep, GiveUp, DispatchStep, ConnsInOrder;
    match a {
      case Issue(op, addr, data, connects) => IssueKeepsTruthful(s, op, addr, data, connects);
      case ClientSend(n) => SendingKeepsTruthful(s, n);
      case ClientSendFail => UnsentKeepsTruthful(s);
      case ClientRecvFail => NoReplyKeepsTruthful(s);
      case Dispatch(status, data, irq) => DispatchKeepsTruthful(s, status, data, irq);
      case Finish => FinishKeepsTruthful(s);
      case _ => SameStory(s, Next(s, a));
    }
  }

  // ----- interrupt lines

  /** Driving only the lines whose bit has changed, if any has, leaves every line at its bit. */
  lemma DrivenLinesFollow(client: Client, irq: Word)
    requires LinesFollow(client)
    ensures var lines := if irq != client.irqLast then DriveLines(client.lines, client.irqLast, irq) else client.lines;
      LinesFollow(client.(phase := Idle, lines := lines, irqLast := irq))
  {
    hide ToBits;
  }

  lemma LatestIrqSnoc(returned: seq<Return>, r: Return)
    ensures LatestIrq(returned + [r]) == if r.Good? then r.irq else LatestIrq(returned)
  {
    assert (returned + [r])[..|returned|] == returned;
  }

  lemma RejectingKeepsLines(client: Client)
    requires LinesFollow(client)
    ensures LinesFollow(client.(phase := Idle))
  {
  }

  lemma FinishKeepsIrqMirrored(s: Sys)
    requires IrqMirrored(s) && Enabled(s, Finish)
    ensures IrqMirrored(FinishStep(s))
  {
    hide LatestIrq, LinesFollow, DriveLines, DecodeResponse;
    var p, j := DecodeResponse(s.client.phase.rcvd), FinishStep(s);
    LatestIrqSnoc(s.returned, j.returned[|s.returned|]);
    RejectingKeepsLines(s.client);
    DrivenLinesFollow(s.client, p.irqBits);
  }

  lemma TellingKeepsIrqMirrored(s: Sys, r: Return)
    requires IrqMirrored(s) && !r.Good?
    ensures LatestIrq(s.returned + [r]) == s.client.irqLast
  {
    LatestIrqSnoc(s.returned, r);
  }

  lemma ChoiceKeepsIrqMirrored(s: Sys, a: Action)
    requires IrqMirrored(s) && Enabled(s, a)
    ensures IrqMirrored(Next(s, a))
  {
    hide LatestIrq, FinishStep, EncodeRequest, EncodeResponse, DecodeRequest;
    match a {
      case Finish => FinishKeepsIrqMirrored(s);
      case _ =>
        TellingKeepsIrqMirrored(s, NotSent);
        TellingKeepsIrqMirrored(s, NoReply);
        assert Next(s, a).client.irqLast == s.client.irqLast && Next(s, a).client.lines == s.client.lines;
    }
  }

  /** What the server collects is what the client issued. */
  lemma CollectedIsIssued(s: Sys)
    requires Framed(s) && s.server.Collecting? && |s.server.got| == MESSAGE_BYTES
    ensures DecodeRequest(s.server.got) == s.issued[s.conns[s.accepted - 1].txn]
    ensures HeaderOk(DecodeRequest(s.server.got))
  {
    var c := s.conns[s.accepted - 1];
    assert s.server.got == EncodeRequest(s.issued[c.txn]);
    RequestRoundTrip(s.issued[c.txn], []);
  }

  lemma ChoiceKeepsHeaders(s: Sys, a: Action)
    requires HeadersOk(s.executed) && Enabled(s, a)
    ensures HeadersOk(Next(s, a).executed)
  {
    hide EncodeRequest, EncodeResponse, DecodeResponse, DecodeRequest, DriveLines;
  }

  // ----- every reachable state

  predicate Inv(s: Sys) {
    Framed(s) && Truthful(s) && IrqMirrored(s) && HeadersOk(s.executed)
  }

  lemma {:induction false} InvPreserved(s: Sys, actions: seq<Action>, t: Sys)
    requires Inv(s) && Reaches(s, actions, t)
    ensures Inv(t)
    decreases |actions|
  {
    if actions != [] {
      hide Framed, Truthful, IrqMirrored, HeadersOk, Next, Enabled;
      ChoiceKeepsFramed(s, actions[0]);
      ChoiceKeepsTruthful(s, actions[0]);
      ChoiceKeepsIrqMirrored(s, actions[0]);
      ChoiceKeepsHeaders(s, actions[0]);
      InvPreserved(Next(s, actions[0]), actions[1..], t);
    }
  }

  lemma AlwaysInv(actions: seq<Action>, t: Sys)
    requires Reaches(START, actions, t)
    ensures Inv(t)
  {
    assert Inv(START) by {
      assert forall i | 0 <= i < REMOTE_MMIO_MAX_IRQ :: !ALL_LOW[i] && i !in ToBits(0) by {
        ZeroHasNoBits();
      }
    }
    hide Inv;
    InvPreserved(START, actions, t);
  }

  // ----- theorems

  /** At most once, in order: however sends, receives, failures and reconnections interleave, the executed
      transactions are issued transactions in strictly increasing order of issue.  A call that failed to
      connect or to send has not been executed and one that returned 0 has been, exactly once, with an OK
      reply whose data and interrupt word are the ones it returned. */
  lemma ExecutesAtMostOnceInOrder(actions: seq<Action>, t: Sys)
    requires Reaches(START, actions, t)
    ensures forall j | 0 <= j < |t.executed| :: t.executed[j].txn < |t.issued|
    ensures forall i, j | 0 <= i < j < |t.executed| :: t.executed[i].txn < t.executed[j].txn
    ensures |t.returned| + (if t.client.phase.Idle? then 0 else 1) == |t.issued|
    ensures forall i | 0 <= i < |t.returned| :: Told(t.executed, i, t.returned[i])
  {
    AlwaysInv(actions, t);
    hide Told, Waiting, ServerFrame, ClientFrame, IrqMirrored, HeadersOk;
  }

  /** The state after the client has connected and sent a whole request. */
  function Requested(q: Request): Sys {
    START.(issued := [q], conns := [Conn(EncodeRequest(q), [], 0, MESSAGE_BYTES, [])],
           client := START.client.(open := true, phase := Receiving([])))
  }

  lemma RequestedIsReached(op: Word, addr: Word, data: Word, rest: seq<Action>, t: Sys)
    requires Reaches(Requested(Request(COSIM_MAGIC, COSIM_VERSION, op, addr, data)), rest, t)
    ensures Reaches(START, [Issue(op, addr, data, true)] + ([ClientSend(MESSAGE_BYTES)] + rest), t)
  {
    hide EncodeRequest, Reaches;
    var q, issue := Request(COSIM_MAGIC, COSIM_VERSION, op, addr, data), Issue(op, addr, data, true);
    assert [] + EncodeRequest(q)[0..MESSAGE_BYTES] == EncodeRequest(q);
    assert Next(Next(START, issue), ClientSend(MESSAGE_BYTES)) == Requested(q);
    ReachesFirst(Next(START, issue), ClientSend(MESSAGE_BYTES), rest, t);
    ReachesFirst(START, issue, [ClientSend(MESSAGE_BYTES)] + rest, t);
  }

  /** The state once the server has collected it. */
  function Collected(q: Request): Sys {
    Requested(q).(conns := [Conn([], [], 0, MESSAGE_BYTES, [])], accepted := 1, server := Collecting(EncodeRequest(q)))
  }

  lemma CollectedIsReached(q: Request, rest: seq<Action>, t: Sys)
    requires Reaches(Collected(q), rest, t)
    ensures Reaches(Requested(q), [Accept] + ([ServerRecv(MESSAGE_BYTES)] + rest), t)
  {
    hide EncodeRequest, Reaches;
    var s := Next(Requested(q), Accept);
    assert EncodeRequest(q)[MESSAGE_BYTES..] == [];
    assert [] + EncodeRequest(q)[..MESSAGE_BYTES] == EncodeRequest(q);
    assert Next(s, ServerRecv(MESSAGE_BYTES)) == Collected(q);
    ReachesFirst(s, ServerRecv(MESSAGE_BYTES), rest, t);
    ReachesFirst(Requested(q), Accept, [ServerRecv(MESSAGE_BYTES)] + rest, t);
  }

  lemma ExecutedThenLost(q: Request)
    ensures exists rest, t ::
              Reaches(Requested(q), rest, t) && t.returned == [NoReply] && |t.executed| == 1 && t.executed[0].txn == 0
  {
    hide EncodeRequest, EncodeResponse, DecodeRequest, Reaches;
    var run := Dispatch(COSIM_ERROR, 0, 0);
    var s := Next(Collected(q), run);
    var t := Next(s, ClientRecvFail);
    ReachesNothing(t);
    ReachesFirst(s, ClientRecvFail, [], t);
    ReachesFirst(Collected(q), run, [ClientRecvFail] + [], t);
    CollectedIsReached(q, [run] + ([ClientRecvFail] + []), t);
  }

  /** A lost reply leaves both possibilities open. */
  lemma LostReplyIsAmbiguous(op: Word, addr: Word, data: Word)
    ensures exists ran: seq<Action>, t: Sys ::
              Reaches(START, ran, t) && t.returned == [NoReply] && |t.executed| == 1 && t.executed[0].txn == 0
    ensures exists lost: seq<Action>, t: Sys ::
              Reaches(START, lost, t) && t.returned == [NoReply] && t.executed == []
  {
    hide EncodeRequest, Reaches;
    var q := Request(COSIM_MAGIC, COSIM_VERSION, op, addr, data);
    ExecutedThenLost(q);
    var rest, t :| Reaches(Requested(q), rest, t)
      && t.returned == [NoReply] && |t.executed| == 1 && t.executed[0].txn == 0;
    RequestedIsReached(op, addr, data, rest, t);
    var u := Next(Requested(q), ClientRecvFail);
    ReachesNothing(u);
    ReachesFirst(Requested(q), ClientRecvFail, [], u);
    RequestedIsReached(op, addr, data, [ClientRecvFail] + [], u);
  }

  lemma ReachesNothing(s: Sys)
    ensures Reaches(s, [], s)
  {
    hide Next, Enabled;
  }

  lemma ReachesFirst(s: Sys, a: Action, rest: seq<Action>, t: Sys)
    requires Enabled(s, a) && Reaches(Next(s, a), rest, t)
    ensures Reaches(s, [a] + rest, t)
  {
    hide Next, Enabled;
    assert ([a] + rest)[1..] == rest;
  }

  /** The server is reading requests from the client's own connection. */
  predicate Serving(s: Sys) {
    s.accepted == |s.conns| && s.server.Collecting?
  }

  /** While the client has sent n of 20 bytes nothing travels back, and the bytes queued and received by the
      server are those n; while it receives, either all 20 bytes are still on their way or a reply to this
      very request is; between calls no byte is left in either direction. */
  predicate Aligned(s: Sys)
    requires s.conns != []
  {
    var c := s.conns[Last(s)];
    match s.client.phase
    case Idle => c.down == [] && (Serving(s) ==> s.server.got == [] && c.up == [])
    case Sending(n) => c.down == [] && (Serving(s) ==> |s.server.got| + |c.up| == n)
    case Receiving(rcvd) =>
      if rcvd + c.down == [] then Serving(s) ==> |s.server.got| + |c.up| == MESSAGE_BYTES
      else
        && s.executed != [] && s.executed[|s.executed| - 1].txn == |s.issued| - 1
        && rcvd + c.down <= LatestReply(s) && (Serving(s) ==> s.server.got == [] && c.up == [])
  }

  lemma FramedIsAligned(s: Sys)
    requires Shape(s) && ServerFrame(s) && ClientFrame(s) && s.client.open
    ensures Aligned(s)
  {
    hide EncodeRequest, EncodeResponse, ConnsInOrder, HeaderOk;
    var c := s.conns[Last(s)];
    if Serving(s) && Latest(s) != c.txn {
      assert |s.server.got + c.up| == c.sent by {
        assert |SentOn(s.issued, c)| == c.sent by {
          assert ConnsInOrder(s.conns, s.issued);
        }
      }
    }
  }

  /** Framing: so it is in every reachable state, hence whenever a call ends with its connection open, after
      an error reply as after an OK one. */
  lemma ConnectionsStayAligned(actions: seq<Action>, t: Sys)
    requires Reaches(START, actions, t) && t.client.open
    ensures t.conns != [] && Aligned(t)
  {
    AlwaysInv(actions, t);
    hide Truthful, IrqMirrored, HeadersOk, InOrder, Waiting, ServerFrame, ClientFrame, Aligned;
    FramedIsAligned(t);
  }

  /** The server never meets a bad magic or version, and what it collects is what was issued. */
  lemma CollectedRequestsAreIssued(actions: seq<Action>, t: Sys)
    requires Reaches(START, actions, t) && t.server.Collecting? && |t.server.got| == MESSAGE_BYTES
    ensures 0 < t.accepted <= |t.conns| && t.conns[t.accepted - 1].txn < |t.issued|
    ensures DecodeRequest(t.server.got) == t.issued[t.conns[t.accepted - 1].txn]
    ensures HeaderOk(DecodeRequest(t.server.got))
  {
    AlwaysInv(actions, t);
    hide Truthful, IrqMirrored, HeadersOk;
    CollectedIsIssued(t);
  }

  lemma FramedNeverOverruns(s: Sys)
    requires Shape(s) && ServerFrame(s) && ClientFrame(s)
    ensures s.client.phase.Receiving? ==> |s.client.phase.rcvd| + |s.conns[Last(s)].down| <= MESSAGE_BYTES
    ensures s.server.Collecting? ==> |s.server.got| + |s.conns[s.accepted - 1].up| <= MESSAGE_BYTES
  {
    hide EncodeRequest, EncodeResponse, HeaderOk;
    if s.client.phase.Receiving? {
      var c := s.conns[Last(s)];
      assert |c.pushed| == |s.client.phase.rcvd| + |c.down|;
    }
    if s.server.Collecting? {
      var c := s.conns[s.accepted - 1];
      if Latest(s) != c.txn {
        assert |s.server.got + c.up| == |SentOn(s.issued, c)|;
      }
    }
  }

  /** Reading never overruns: as long as a message is incomplete, all that is queued belongs to it. */
  lemma QueuesNeverOverrun(actions: seq<Action>, t: Sys)
    requires Reaches(START, actions, t)
    ensures t.client.phase.Receiving? ==> t.conns != []
    ensures t.client.phase.Receiving? ==> |t.client.phase.rcvd| + |t.conns[Last(t)].down| <= MESSAGE_BYTES
    ensures t.server.Collecting? ==> 0 < t.accepted <= |t.conns|
    ensures t.server.Collecting? ==> |t.server.got| + |t.conns[t.accepted - 1].up| <= MESSAGE_BYTES
  {
    AlwaysInv(actions, t);
    FramedNeverOverruns(t);
    hide Reaches, Truthful, HeadersOk, InOrder, Waiting, ServerFrame, ClientFrame, ConnsInOrder,
         IrqMirrored;
  }

  /** Every output line equals its bit of irq_last, which is the irq_bits of the latest accepted response. */
  lemma LinesMirrorTheLatestReply(actions: seq<Action>, t: Sys)
    requires Reaches(START, actions, t)
    ensures t.client.irqLast == LatestIrq(t.returned)
    ensures |t.client.lines| == REMOTE_MMIO_MAX_IRQ
    ensures forall i | 0 <= i < REMOTE_MMIO_MAX_IRQ :: t.client.lines[i] <==> i in ToBits(LatestIrq(t.returned))
  {
    AlwaysInv(actions, t);
    hide Framed, Truthful, HeadersOk, LatestIrq;
  }
}
