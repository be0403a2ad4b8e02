// The QEMU side of the bridge: one request and one response per guest access, over a connection made when
// first needed, and the interrupt lines driven from each accepted response.
module RemoteMmio {
  import opened Words
  import opened Sockets
  import opened Protocol

  /** The loop over send: QEMU's socket blocks, so anything but progress is failure. */
  method SendMessage(s: Socket, message: seq<Byte>) returns (ok: bool)
    modifies s`sends, s`outgoing
    ensures var k := Moved(old(s.sends), |message|, false);
      k <= |message| && s.outgoing == old(s.outgoing) + message[..k] && (ok <==> k == |message|)
  {
    var got := 0;
    while got < |message|
      invariant got <= |message|
      invariant s.outgoing == old(s.outgoing) + message[..got]
      invariant got + Moved(s.sends, |message| - got, false) == Moved(old(s.sends), |message|, false)
    {
      var n, _ := s.Send(message[got..]);
      if n <= 0 {
        return false;
      }
      assert message[..got] + message[got..][..n] == message[..got + n];
      got := got + n;
    }
    return true;
  }

  /** The loop over recv, into the response buffer. */
  method ReceiveMessage(s: Socket, buf: array<Byte>) returns (ok: bool)
    modifies s`recvs, s`incoming, buf
    ensures var k := Moved(old(s.recvs), Least(buf.Length, |old(s.incoming)|), false);
      && k <= |old(s.incoming)| && k <= buf.Length && s.incoming == old(s.incoming)[k..]
      && buf[..k] == old(s.incoming)[..k] && (ok <==> k == buf.Length)
  {
    var got := 0;
    while got < buf.Length
      invariant got <= buf.Length && got <= |old(s.incoming)|
      invariant s.incoming == old(s.incoming)[got..] && buf[..got] == old(s.incoming)[..got]
      invariant got + Moved(s.recvs, Least(buf.Length - got, |s.incoming|), false)
             == Moved(old(s.recvs), Least(buf.Length, |old(s.incoming)|), false)
    {
      var n, _ := s.Recv(buf, got);
      if n <= 0 {
        return false;
      }
      assert buf[..got + n] == buf[..got] + buf[got..got + n];
      got := got + n;
    }
    return true;
  }

  /** Driving only the lines whose bit has changed leaves every line at its bit. */
  lemma ChangedLinesSuffice(lines: seq<bool>, last: Word, irq: Word)
    requires |lines| == REMOTE_MMIO_MAX_IRQ
    requires forall i | 0 <= i < REMOTE_MMIO_MAX_IRQ :: lines[i] <==> i in ToBits(last)
    ensures forall i | 0 <= i < REMOTE_MMIO_MAX_IRQ :: DriveLines(lines, last, irq)[i] <==> i in ToBits(irq)
  {
    hide ToBits;
  }

  /** What a transaction comes to: no connection, a connection lost on the way, a response refused, or one
      accepted. */
  datatype Verdict = Unreachable | Dropped | Rejected | Accepted(p: Response)

  function SentBytes(sends: seq<IoResult>): (n: nat)
    ensures n <= MESSAGE_BYTES
  {
    MovedAtMost(sends, MESSAGE_BYTES, false);
    Moved(sends, MESSAGE_BYTES, false)
  }

  function GotBytes(sends: seq<IoResult>, recvs: seq<IoResult>, incoming: seq<Byte>): (n: nat)
    ensures n <= MESSAGE_BYTES && n <= |incoming|
  {
    MovedAtMost(recvs, Least(MESSAGE_BYTES, |incoming|), false);
    if SentBytes(sends) < MESSAGE_BYTES then 0 else Moved(recvs, Least(MESSAGE_BYTES, |incoming|), false)
  }

  function VerdictOn(sends: seq<IoResult>, recvs: seq<IoResult>, incoming: seq<Byte>): Verdict {
    if GotBytes(sends, recvs, incoming) < MESSAGE_BYTES then Dropped
    else
      var p := DecodeResponse(incoming[..MESSAGE_BYTES]);
      if Bad(p) then Rejected else Accepted(p)
  }

  lemma {:induction false} SupplyAtLeast(outcomes: seq<IoResult>)
    requires Smooth(outcomes)
    ensures Supply(outcomes) >= |outcomes|
  {
    if outcomes != [] {
      assert outcomes[0].Moves?;
      SupplyAtLeast(outcomes[1..]);
    }
  }

  lemma SmoothMovesAll(outcomes: seq<IoResult>, want: nat)
    requires Smooth(outcomes) && |outcomes| >= want
    ensures Moved(outcomes, want, false) == want
  {
    SmoothSupply(outcomes, want);
    SupplyAtLeast(outcomes);
  }

  /** However the bytes are cut up, a response that arrives whole is judged by its magic, version and status alone,
      and any bytes behind it are not looked at. */
  lemma WholeResponsesAreJudged(sends: seq<IoResult>, recvs: seq<IoResult>, p: Response, behind: seq<Byte>)
    requires Smooth(sends) && Smooth(recvs) && |sends| >= MESSAGE_BYTES && |recvs| >= MESSAGE_BYTES
    ensures VerdictOn(sends, recvs, EncodeResponse(p) + behind) ==
      if p.magic == 0x5343_4D31 && p.version == 2 && p.status == 0 then Accepted(p) else Rejected
  {
    hide Pack, WordNumber, Moved;
    SmoothMovesAll(sends, MESSAGE_BYTES);
    SmoothMovesAll(recvs, MESSAGE_BYTES);
    ResponseRoundTrip(p, []);
    assert (EncodeResponse(p) + behind)[..MESSAGE_BYTES] == EncodeResponse(p);
  }

  const QUIT := Request(COSIM_MAGIC, COSIM_VERSION, COSIM_OP_QUIT, 0, 0)

  /** The accesses the bridge forwards. */
  predicate Forwarded(offset: Address, size: nat) {
    size == 4 && offset % 4 == 0
  }

  class RemoteMmioState {
    var fd: Socket?
    var irqLast: Word
    const irqs: array<bool>

    /** Each output line is at its bit of irq_last. */
    ghost predicate Valid()
      reads this, irqs
    {
      irqs.Length == REMOTE_MMIO_MAX_IRQ
      && forall i | 0 <= i < REMOTE_MMIO_MAX_IRQ :: irqs[i] <==> i in ToBits(irqLast)
    }

    constructor ()
      ensures Valid() && fd == null && irqLast == 0 && fresh(irqs)
    {
      ZeroHasNoBits();
      fd, irqLast := null, 0;
      irqs := new bool[REMOTE_MMIO_MAX_IRQ](_ => false);
    }

    /** Connect if there is no connection; offer is what connect(2) would give, null if it would fail. */
    method Connect(offer: Socket?) returns (rc: int)
      modifies this`fd
      ensures fd == if old(fd) != null then old(fd) else offer
      ensures rc == if fd != null then 0 else -1
    {
      if fd != null {
        return 0;
      }
      if offer == null {
        return -1;
      }
      fd := offer;
      return 0;
    }

    /** The interrupt half of an accepted response. */
    method DriveIrqs(irqBits: Word)
      requires Valid()
      modifies this`irqLast, irqs
      ensures Valid() && irqLast == irqBits && irqs[..] == DriveLines(old(irqs[..]), old(irqLast), irqBits)
    {
      hide ToBits;
      ghost var lines := irqs[..];
      ghost var driven := DriveLines(lines, irqLast, irqBits);
      ChangedLinesSuffice(lines, irqLast, irqBits);
      if irqBits != irqLast {
        var changed := Xor(ToBits(irqBits), ToBits(irqLast));
        for i := 0 to REMOTE_MMIO_MAX_IRQ
          invariant forall j | 0 <= j < i :: irqs[j] == driven[j]
          invariant forall j | i <= j < REMOTE_MMIO_MAX_IRQ :: irqs[j] == lines[j]
        {
          if i in changed {
            irqs[i] := i in ToBits(irqBits);
          }
          assert irqs[i] == driven[i];
        }
        irqLast := irqBits;
      }
      assert irqs[..] == driven;
    }

    /** What this transaction will come to. */
    ghost function Judge(offer: Socket?): Verdict
      reads this, fd, offer
    {
      var s := if fd != null then fd else offer;
      if s == null then Unreachable else VerdictOn(s.sends, s.recvs, s.incoming)
    }

    /** One request, one response. */
    method Transact(op: Word, addr: Word, wdata: Word, offer: Socket?) returns (rc: int, rdata: Word)
      requires Valid()
      modifies this, irqs, fd, offer
      ensures Valid()
      ensures rc == if old(Judge(offer)).Accepted? then 0 else -1
      ensures rdata == if old(Judge(offer)).Accepted? then old(Judge(offer)).p.data else 0
      ensures irqLast == if old(Judge(offer)).Accepted? then old(Judge(offer)).p.irqBits else old(irqLast)
      ensures irqs[..] == if rc == 0 then DriveLines(old(irqs[..]), old(irqLast), irqLast) else old(irqs[..])
      ensures fd == if old(Judge(offer)).Unreachable? || old(Judge(offer)).Dropped? then null
                    else if old(fd) != null then old(fd) else offer
      ensures var s := if old(fd) != null then old(fd) else offer;
        s != null ==>
          var message := EncodeRequest(Request(COSIM_MAGIC, COSIM_VERSION, op, addr, wdata));
          var sent, got := SentBytes(old(s.sends)), GotBytes(old(s.sends), old(s.recvs), old(s.incoming));
          s.outgoing == old(s.outgoing) + message[..sent] && s.incoming == old(s.incoming)[got..]
    {
      hide Pack, WordNumber, DriveLines, ToBits;
      rdata := 0;
      var connected := Connect(offer);
      if connected < 0 {
        return -1, 0;
      }
      var s: Socket := fd;
      var sent := SendMessage(s, EncodeRequest(Request(COSIM_MAGIC, COSIM_VERSION, op, addr, wdata)));
      if !sent {
        fd := null;
        return -1, 0;
      }
      var buf := new Byte[MESSAGE_BYTES];
      var received := ReceiveMessage(s, buf);
      if !received {
        fd := null;
        return -1, 0;
      }
      assert buf[..] == old(s.incoming)[..MESSAGE_BYTES];
      var p := DecodeResponse(buf[..]);
      if Bad(p) {
        return -1, 0;
      }
      DriveIrqs(p.irqBits);
      return 0, p.data;
    }

    /** MemoryRegion read: only aligned 32-bit accesses go out, and one that fails reads as 0. */
    method Read(offset: Address, size: nat, offer: Socket?) returns (value: Word)
      requires Valid()
      modifies this, irqs, fd, offer
      ensures Valid()
      ensures value == if Forwarded(offset, size) && old(Judge(offer)).Accepted? then old(Judge(offer)).p.data else 0
      ensures !Forwarded(offset, size) ==> fd == old(fd) && irqLast == old(irqLast) && irqs[..] == old(irqs[..])
      ensures Forwarded(offset, size) ==>
        && fd == (if old(Judge(offer)).Unreachable? || old(Judge(offer)).Dropped? then null
                  else if old(fd) != null then old(fd) else offer)
        && irqLast == if old(Judge(offer)).Accepted? then old(Judge(offer)).p.irqBits else old(irqLast)
      ensures var s := if old(fd) != null then old(fd) else offer;
        s != null ==>
          var q := Request(COSIM_MAGIC, COSIM_VERSION, COSIM_OP_READ, offset % WORD_LIMIT, 0);
          s.outgoing == old(s.outgoing)
                        + if Forwarded(offset, size) then EncodeRequest(q)[..SentBytes(old(s.sends))] else []
    {
      if size != 4 || offset % 4 != 0 {
        return 0;
      }
      var rc, data := Transact(COSIM_OP_READ, offset % WORD_LIMIT, 0, offer);
      return if rc < 0 then 0 else data;
    }

    /** MemoryRegion write: the low 32 bits go out; nothing comes back but the interrupt levels. */
    method Write(offset: Address, value: Address, size: nat, offer: Socket?)
      requires Valid()
      modifies this, irqs, fd, offer
      ensures Valid()
      ensures !Forwarded(offset, size) ==> fd == old(fd) && irqLast == old(irqLast) && irqs[..] == old(irqs[..])
      ensures Forwarded(offset, size) ==>
        && fd == (if old(Judge(offer)).Unreachable? || old(Judge(offer)).Dropped? then null
                  else if old(fd) != null then old(fd) else offer)
        && irqLast == if old(Judge(offer)).Accepted? then old(Judge(offer)).p.irqBits else old(irqLast)
      ensures var s := if old(fd) != null then old(fd) else offer;
        s != null ==>
          var q := Request(COSIM_MAGIC, COSIM_VERSION, COSIM_OP_WRITE, offset % WORD_LIMIT, value % WORD_LIMIT);
          s.outgoing == old(s.outgoing)
                        + if Forwarded(offset, size) then EncodeRequest(q)[..SentBytes(old(s.sends))] else []
    {
      if size != 4 || offset % 4 != 0 {
        return;
      }
      var _, _ := Transact(COSIM_OP_WRITE, offset % WORD_LIMIT, value % WORD_LIMIT, offer);
    }

    /** Device unrealize: ask the server to stop, then close whatever is left. */
    method Unrealize()
      requires Valid()
      modifies this, irqs, fd
      ensures Valid() && fd == null
      ensures old(fd) != null ==>
        old(fd).outgoing == old(fd.outgoing) + EncodeRequest(QUIT)[..SentBytes(old(fd.sends))]
    {
      if fd != null {
        var _, _ := Transact(COSIM_OP_QUIT, 0, 0, null);
        fd := null;
      }
    }
  }
}
