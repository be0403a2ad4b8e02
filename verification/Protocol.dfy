// The co-simulation protocol (version 2) as two processes over byte streams: the QEMU side issues one
// request at a time, connecting when it must; the SystemC side accepts one connection at a time, reads a
// request, has the SoC run it and replies.  Sends and receives move any number of bytes, and either side
// may find its connection broken at any moment.  A call that would block leaves the state as it is.
module Protocol {
  import opened Words

  const COSIM_MAGIC: Word := 0x5343_4D31
  const COSIM_VERSION: Word := 2

  const COSIM_OP_READ: Word := 1
  const COSIM_OP_WRITE: Word := 2
  const COSIM_OP_TICK: Word := 3
  const COSIM_OP_QUIT: Word := 4

  const COSIM_OK: Word := 0
  const COSIM_ERROR: Word := 1

  const REMOTE_MMIO_MAX_IRQ := 8

  // ----- messages

  datatype Request = Request(magic: Word, version: Word, op: Word, addr: Word, data: Word)

  datatype Response = Response(magic: Word, version: Word, status: Word, data: Word, irqBits: Word)

  const MESSAGE_BYTES := 20

  /** Five packed little-endian words. */
  function Pack(a: Word, b: Word, c: Word, d: Word, e: Word): (s: seq<Byte>)
    ensures |s| == MESSAGE_BYTES
  {
    ToBytes(a) + ToBytes(b) + ToBytes(c) + ToBytes(d) + ToBytes(e)
  }

  function WordNumber(s: seq<Byte>, i: nat): Word
    requires |s| == MESSAGE_BYTES && i < 5
  {
    FromBytes(s[4 * i..4 * i + 4])
  }

  function EncodeRequest(q: Request): (s: seq<Byte>)
    ensures |s| == MESSAGE_BYTES
  {
    Pack(q.magic, q.version, q.op, q.addr, q.data)
  }

  function DecodeRequest(s: seq<Byte>): Request
    requires |s| == MESSAGE_BYTES
  {
    Request(WordNumber(s, 0), WordNumber(s, 1), WordNumber(s, 2), WordNumber(s, 3), WordNumber(s, 4))
  }

  function EncodeResponse(p: Response): (s: seq<Byte>)
    ensures |s| == MESSAGE_BYTES
  {
    Pack(p.magic, p.version, p.status, p.data, p.irqBits)
  }

  function DecodeResponse(s: seq<Byte>): Response
    requires |s| == MESSAGE_BYTES
  {
    Response(WordNumber(s, 0), WordNumber(s, 1), WordNumber(s, 2), WordNumber(s, 3), WordNumber(s, 4))
  }

  lemma PackedWords(a: Word, b: Word, c: Word, d: Word, e: Word)
    ensures var s := Pack(a, b, c, d, e);
      && WordNumber(s, 0) == a && WordNumber(s, 1) == b && WordNumber(s, 2) == c
      && WordNumber(s, 3) == d && WordNumber(s, 4) == e
  {
    BytesRoundTrip(a);
    BytesRoundTrip(b);
    BytesRoundTrip(c);
    BytesRoundTrip(d);
    BytesRoundTrip(e);
    hide ToBytes, FromBytes;
    var s := Pack(a, b, c, d, e);
    assert s[0..4] == ToBytes(a);
    assert s[4..8] == ToBytes(b);
    assert s[8..12] == ToBytes(c);
    assert s[12..16] == ToBytes(d);
    assert s[16..20] == ToBytes(e);
  }

  lemma UnpackedBytes(s: seq<Byte>)
    requires |s| == MESSAGE_BYTES
    ensures Pack(WordNumber(s, 0), WordNumber(s, 1), WordNumber(s, 2), WordNumber(s, 3), WordNumber(s, 4)) == s
  {
    BytesUnique(s[0..4]);
    BytesUnique(s[4..8]);
    BytesUnique(s[8..12]);
    BytesUnique(s[12..16]);
    BytesUnique(s[16..20]);
    hide ToBytes, FromBytes;
    assert s == s[0..4] + s[4..8] + s[8..12] + s[12..16] + s[16..20];
  }

  /** Every request survives the wire, and every 20 bytes are the encoding of what they decode to. */
  lemma RequestRoundTrip(q: Request, s: seq<Byte>)
    ensures DecodeRequest(EncodeRequest(q)) == q
    ensures |s| == MESSAGE_BYTES ==> EncodeRequest(DecodeRequest(s)) == s
  {
    hide Pack, WordNumber;
    PackedWords(q.magic, q.version, q.op, q.addr, q.data);
    if |s| == MESSAGE_BYTES {
      UnpackedBytes(s);
    }
  }

  lemma ResponseRoundTrip(p: Response, s: seq<Byte>)
    ensures DecodeResponse(EncodeResponse(p)) == p
    ensures |s| == MESSAGE_BYTES ==> EncodeResponse(DecodeResponse(s)) == s
  {
    hide Pack, WordNumber;
    PackedWords(p.magic, p.version, p.status, p.data, p.irqBits);
    if |s| == MESSAGE_BYTES {
      UnpackedBytes(s);
    }
  }

  /** The layout of both messages: five words at byte offsets 0, 4, 8, 12 and 16. */
  lemma MessageLayout(q: Request, p: Response)
    ensures var b := EncodeRequest(q);
      && FromBytes(b[0..4]) == q.magic && FromBytes(b[4..8]) == q.version && FromBytes(b[8..12]) == q.op
      && FromBytes(b[12..16]) == q.addr && FromBytes(b[16..20]) == q.data
    ensures var b := EncodeResponse(p);
      && FromBytes(b[0..4]) == p.magic && FromBytes(b[4..8]) == p.version && FromBytes(b[8..12]) == p.status
      && FromBytes(b[12..16]) == p.data && FromBytes(b[16..20]) == p.irqBits
  {
    hide Pack, FromBytes;
    PackedWords(q.magic, q.version, q.op, q.addr, q.data);
    PackedWords(p.magic, p.version, p.status, p.data, p.irqBits);
  }

  // ----- the state of a run

  /** One connection: the bytes on their way to the server and to the client.  History: the transaction the
      client last used it for, how many request bytes of that it has sent, and the reply bytes the server
      has sent for it. */
  datatype Conn = Conn(up: seq<Byte>, down: seq<Byte>, txn: nat, sent: nat, pushed: seq<Byte>)

  /** Where remote_mmio_transact stands. */
  datatype Phase = Idle | Sending(sent: nat) | Receiving(rcvd: seq<Byte>)

  /** RemoteMmioState.  The file descriptor, when open, is the last connection made. */
  datatype Client = Client(open: bool, phase: Phase, irqLast: Word, lines: seq<bool>)

  /** server_thread.  The client descriptor, when open, is the last connection accepted. */
  datatype Server = Listening | Collecting(got: seq<Byte>) | Answering(rest: seq<Byte>, quit: bool) | Stopped

  /** One request run by the server: the transaction and the reply. */
  datatype Exec = Exec(txn: nat, reply: Response)

  /** How remote_mmio_transact ended: only Good returns 0.  slot is the execution a reply came from. */
  datatype Return = NotSent | NoReply | BadReply(slot: nat) | Good(slot: nat, data: Word, irq: Word)

  datatype Sys = Sys(
    conns: seq<Conn>,
    accepted: nat,
    client: Client,
    server: Server,
    // history
    issued: seq<Request>,
    executed: seq<Exec>,
    returned: seq<Return>)

  const ALL_LOW := [false, false, false, false, false, false, false, false]

  const START := Sys([], 0, Client(false, Idle, 0, ALL_LOW), Listening, [], [], [])

  datatype Action =
    | Issue(op: Word, addr: Word, data: Word, connects: bool)
    | ClientSend(n: nat) | ClientSendFail
    | ClientRecv(n: nat) | ClientRecvFail
    | Finish
    | Hangup
    | Accept
    | ServerRecv(n: nat) | ServerRecvFail
    | Dispatch(status: Word, data: Word, irq: Word)   // what the SoC makes of the request
    | ServerSend(n: nat) | ServerSendFail

  function Last(s: Sys): nat
    requires s.conns != []
  {
    |s.conns| - 1
  }

  // ----- the client

  /** qemu_set_irq for every line whose bit has changed. */
  function DriveLines(lines: seq<bool>, irqLast: Word, irq: Word): (r: seq<bool>)
    requires |lines| == REMOTE_MMIO_MAX_IRQ
    ensures |r| == REMOTE_MMIO_MAX_IRQ
  {
    var changed := Xor(ToBits(irq), ToBits(irqLast));
    seq(REMOTE_MMIO_MAX_IRQ, i requires 0 <= i < REMOTE_MMIO_MAX_IRQ =>
      if i in changed then i in ToBits(irq) else lines[i])
  }

  /** A response the client rejects. */
  predicate Bad(p: Response) {
    p.magic != COSIM_MAGIC || p.version != COSIM_VERSION || p.status != COSIM_OK
  }

  function IssueStep(s: Sys, op: Word, addr: Word, data: Word, connects: bool): Sys
    requires s.client.open ==> s.conns != []
  {
    var j := s.(issued := s.issued + [Request(COSIM_MAGIC, COSIM_VERSION, op, addr, data)]);
    var txn := |s.issued|;
    if !s.client.open && !connects then
      j.(returned := s.returned + [NotSent])
    else if !s.client.open then
      j.(conns := s.conns + [Conn([], [], txn, 0, [])], client := s.client.(open := true, phase := Sending(0)))
    else
      var c := s.conns[Last(s)].(txn := txn, sent := 0, pushed := []);
      j.(conns := s.conns[Last(s) := c], client := s.client.(phase := Sending(0)))
  }

  function ClientSendStep(s: Sys, n: nat): Sys
    requires s.conns != [] && s.issued != [] && s.client.phase.Sending?
    requires s.client.phase.sent + n <= MESSAGE_BYTES
  {
    var from := s.client.phase.sent;
    var bytes := EncodeRequest(s.issued[|s.issued| - 1])[from..from + n];
    var c := s.conns[Last(s)];
    s.(conns := s.conns[Last(s) := c.(up := c.up + bytes, sent := from + n)],
       client := s.client.(phase := if from + n == MESSAGE_BYTES then Receiving([]) else Sending(from + n)))
  }

  function ClientRecvStep(s: Sys, n: nat): Sys
    requires s.conns != [] && s.client.phase.Receiving? && n <= |s.conns[Last(s)].down|
  {
    var c := s.conns[Last(s)];
    s.(conns := s.conns[Last(s) := c.(down := c.down[n..])],
       client := s.client.(phase := Receiving(s.client.phase.rcvd + c.down[..n])))
  }

  /** Close the descriptor and return -1. */
  function GiveUp(s: Sys, r: Return): Sys {
    s.(client := s.client.(open := false, phase := Idle), returned := s.returned + [r])
  }

  function FinishStep(s: Sys): Sys
    requires s.client.phase.Receiving? && |s.client.phase.rcvd| == MESSAGE_BYTES
    requires s.executed != [] && |s.client.lines| == REMOTE_MMIO_MAX_IRQ
  {
    var p := DecodeResponse(s.client.phase.rcvd);
    var slot := |s.executed| - 1;
    if Bad(p) then
      s.(client := s.client.(phase := Idle), returned := s.returned + [BadReply(slot)])
    else
      var lines := if p.irqBits != s.client.irqLast then DriveLines(s.client.lines, s.client.irqLast, p.irqBits)
                   else s.client.lines;
      s.(client := s.client.(phase := Idle, lines := lines, irqLast := p.irqBits),
         returned := s.returned + [Good(slot, p.data, p.irqBits)])
  }

  // ----- the server

  predicate HeaderOk(q: Request) {
    q.magic == COSIM_MAGIC && q.version == COSIM_VERSION
  }

  /** The switch of server_thread, run by a SoC that answers with any status, data and interrupt word. */
  function DispatchStep(s: Sys, status: Word, data: Word, irq: Word): Sys
    requires 0 < s.accepted <= |s.conns| && s.server.Collecting? && |s.server.got| == MESSAGE_BYTES
  {
    var q := DecodeRequest(s.server.got);
    var p := Response(COSIM_MAGIC, COSIM_VERSION, status, data, irq);
    s.(server := Answering(EncodeResponse(p), HeaderOk(q) && q.op == COSIM_OP_QUIT),
       executed := s.executed + [Exec(s.conns[s.accepted - 1].txn, p)])
  }

  function ServerRecvStep(s: Sys, n: nat): Sys
    requires 0 < s.accepted <= |s.conns| && s.server.Collecting? && n <= |s.conns[s.accepted - 1].up|
  {
    var c := s.conns[s.accepted - 1];
    s.(conns := s.conns[s.accepted - 1 := c.(up := c.up[n..])], server := Collecting(s.server.got + c.up[..n]))
  }

  function ServerSendStep(s: Sys, n: nat): Sys
    requires 0 < s.accepted <= |s.conns| && s.server.Answering? && n <= |s.server.rest|
  {
    var c := s.conns[s.accepted - 1];
    var bytes, rest := s.server.rest[..n], s.server.rest[n..];
    s.(conns := s.conns[s.accepted - 1 := c.(down := c.down + bytes, pushed := c.pushed + bytes)],
       server := if rest != [] then s.server.(rest := rest) else if s.server.quit then Stopped else Collecting([]))
  }

  // ----- steps and runs

  predicate Enabled(s: Sys, a: Action) {
    match a
    case Issue(_, _, _, _) => s.client.phase.Idle? && (s.client.open ==> s.conns != [])
    case ClientSend(n) =>
      && s.client.phase.Sending? && s.conns != [] && s.issued != []
      && 0 < n && s.client.phase.sent + n <= MESSAGE_BYTES
    case ClientSendFail => s.client.phase.Sending?
    case ClientRecv(n) =>
      && s.client.phase.Receiving? && s.conns != []
      && 0 < n <= |s.conns[Last(s)].down| && |s.client.phase.rcvd| + n <= MESSAGE_BYTES
    case ClientRecvFail => s.client.phase.Receiving? && |s.client.phase.rcvd| < MESSAGE_BYTES
    case Finish =>
      && s.client.phase.Receiving? && |s.client.phase.rcvd| == MESSAGE_BYTES
      && s.executed != [] && |s.client.lines| == REMOTE_MMIO_MAX_IRQ
    case Hangup => s.client.phase.Idle? && s.client.open
    case Accept => s.server.Listening? && s.accepted < |s.conns|
    case ServerRecv(n) =>
      && s.server.Collecting? && 0 < s.accepted <= |s.conns|
      && 0 < n <= |s.conns[s.accepted - 1].up| && |s.server.got| + n <= MESSAGE_BYTES
    case ServerRecvFail => s.server.Collecting? && |s.server.got| < MESSAGE_BYTES
    case Dispatch(status, _, _) =>
      && s.server.Collecting? && 0 < s.accepted <= |s.conns| && |s.server.got| == MESSAGE_BYTES
      && status in {COSIM_OK, COSIM_ERROR} && (!HeaderOk(DecodeRequest(s.server.got)) ==> status == COSIM_ERROR)
    case ServerSend(n) => s.server.Answering? && 0 < s.accepted <= |s.conns| && 0 < n <= |s.server.rest|
    case ServerSendFail => s.server.Answering?
  }

  function Next(s: Sys, a: Action): Sys
    requires Enabled(s, a)
  {
    match a
    case Issue(op, addr, data, connects) => IssueStep(s, op, addr, data, connects)
    case ClientSend(n) => ClientSendStep(s, n)
    case ClientSendFail => GiveUp(s, NotSent)
    case ClientRecv(n) => ClientRecvStep(s, n)
    case ClientRecvFail => GiveUp(s, NoReply)
    case Finish => FinishStep(s)
    case Hangup => s.(client := s.client.(open := false))
    case Accept => s.(accepted := s.accepted + 1, server := Collecting([]))
    case ServerRecv(n) => ServerRecvStep(s, n)
    case ServerRecvFail => s.(server := Listening)
    case Dispatch(status, data, irq) => DispatchStep(s, status, data, irq)
    case ServerSend(n) => ServerSendStep(s, n)
    case ServerSendFail => s.(server := if s.server.quit then Stopped else Listening)
  }

  /** The states of a run, one action after another. */
  ghost predicate Reaches(s: Sys, actions: seq<Action>, t: Sys)
    decreases |actions|
  {
    if actions == [] then s == t
    else Enabled(s, actions[0]) && Reaches(Next(s, actions[0]), actions[1..], t)
  }

  // ----- short transfers

  /** Two sends of the client in a row are one, and so for every kind of transfer: the loops over send and
      recv may be cut up in any way. */
  lemma ClientSendsCompose(s: Sys, n: nat, m: nat)
    requires Enabled(s, ClientSend(n)) && 0 < m && s.client.phase.sent + n + m <= MESSAGE_BYTES
    ensures Enabled(Next(s, ClientSend(n)), ClientSend(m)) && Enabled(s, ClientSend(n + m))
    ensures Next(Next(s, ClientSend(n)), ClientSend(m)) == Next(s, ClientSend(n + m))
  {
    hide EncodeRequest;
    var all, from, up := EncodeRequest(s.issued[|s.issued| - 1]), s.client.phase.sent, s.conns[Last(s)].up;
    assert up + all[from..from + n] + all[from + n..from + n + m] == up + all[from..from + n + m];
  }

  lemma ClientReceivesCompose(s: Sys, n: nat, m: nat)
    requires Enabled(s, ClientRecv(n)) && Enabled(s, ClientRecv(n + m)) && 0 < m
    ensures Enabled(Next(s, ClientRecv(n)), ClientRecv(m))
    ensures Next(Next(s, ClientRecv(n)), ClientRecv(m)) == Next(s, ClientRecv(n + m))
  {
    var down, rcvd := s.conns[Last(s)].down, s.client.phase.rcvd;
    assert down[n..][m..] == down[n + m..];
    assert rcvd + down[..n] + down[n..][..m] == rcvd + down[..n + m];
  }

  lemma ServerReceivesCompose(s: Sys, n: nat, m: nat)
    requires Enabled(s, ServerRecv(n)) && Enabled(s, ServerRecv(n + m)) && 0 < m
    ensures Enabled(Next(s, ServerRecv(n)), ServerRecv(m))
    ensures Next(Next(s, ServerRecv(n)), ServerRecv(m)) == Next(s, ServerRecv(n + m))
  {
    var up, got := s.conns[s.accepted - 1].up, s.server.got;
    assert up[n..][m..] == up[n + m..];
    assert got + up[..n] + up[n..][..m] == got + up[..n + m];
  }

  lemma ServerSendsCompose(s: Sys, n: nat, m: nat)
    requires Enabled(s, ServerSend(n)) && Enabled(s, ServerSend(n + m)) && 0 < m
    ensures Enabled(Next(s, ServerSend(n)), ServerSend(m))
    ensures Next(Next(s, ServerSend(n)), ServerSend(m)) == Next(s, ServerSend(n + m))
  {
    var rest, c := s.server.rest, s.conns[s.accepted - 1];
    assert rest[n..][m..] == rest[n + m..];
    assert c.down + rest[..n] + rest[n..][..m] == c.down + rest[..n + m];
    assert c.pushed + rest[..n] + rest[n..][..m] == c.pushed + rest[..n + m];
  }
}
