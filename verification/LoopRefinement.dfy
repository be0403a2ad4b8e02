// The transfer loops and the calls built from them are runs of the protocol: what the imperative code of both ends
// does on a scripted socket is what the protocol's actions do to the connection.
module LoopRefinement {
  import opened Words
  import opened Sockets
  import opened Protocol
  import opened RemoteMmio

  ghost predicate CanReach(s: Sys, t: Sys) {
    exists actions :: Reaches(s, actions, t)
  }

  lemma ReachesItself(s: Sys)
    ensures CanReach(s, s)
  {
    assert Reaches(s, [], s);
  }

  lemma OneAction(s: Sys, a: Action, t: Sys)
    requires Enabled(s, a) && CanReach(Next(s, a), t)
    ensures CanReach(s, t)
  {
    hide Enabled, Next;
    var actions :| Reaches(Next(s, a), actions, t);
    assert ([a] + actions)[1..] == actions;
    assert Reaches(s, [a] + actions, t);
  }

  // ----- the client's loops

  /** The send loop: all of the rest of the request goes out, or part of it and the call gives up. */
  function AfterSending(s: Sys, k: nat): Sys
    requires s.conns != [] && s.issued != [] && s.client.phase.Sending? && s.client.phase.sent + k <= MESSAGE_BYTES
  {
    var j := ClientSendStep(s, k);
    if s.client.phase.sent + k == MESSAGE_BYTES then j else GiveUp(j, NotSent)
  }

  lemma {:induction false} SendingIsARun(s: Sys, sends: seq<IoResult>)
    requires s.conns != [] && s.issued != [] && s.client.phase.Sending? && s.client.phase.sent < MESSAGE_BYTES
    requires s.conns[Last(s)].sent == s.client.phase.sent
    ensures var k := Moved(sends, MESSAGE_BYTES - s.client.phase.sent, false);
      s.client.phase.sent + k <= MESSAGE_BYTES && CanReach(s, AfterSending(s, k))
    decreases |sends|
  {
    hide CanReach, EncodeRequest;
    var want := MESSAGE_BYTES - s.client.phase.sent;
    MovedAtMost(sends, want, false);
    if sends != [] && sends[0].Moves? {
      var n := Clip(sends[0].n, want);
      var j := Next(s, ClientSend(n));
      var k := Moved(sends[1..], want - n, false);
      if n == want {
        assert k == 0 && AfterSending(s, n) == j;
        ReachesItself(j);
      } else {
        SendingIsARun(j, sends[1..]);
        SendsAdd(s, n, k);
      }
      OneAction(s, ClientSend(n), AfterSending(s, n + k));
    } else {
      NothingSent(s);
      ReachesItself(GiveUp(s, NotSent));
      OneAction(s, ClientSendFail, AfterSending(s, 0));
    }
  }

  lemma NothingSent(s: Sys)
    requires s.conns != [] && s.issued != [] && s.client.phase.Sending? && s.client.phase.sent < MESSAGE_BYTES
    requires s.conns[Last(s)].sent == s.client.phase.sent
    ensures ClientSendStep(s, 0) == s
  {
    hide EncodeRequest;
    var c, from := s.conns[Last(s)], s.client.phase.sent;
    assert c.up + EncodeRequest(s.issued[|s.issued| - 1])[from..from + 0] == c.up;
    assert s.conns[Last(s) := c] == s.conns;
  }

  lemma SendsAdd(s: Sys, n: nat, k: nat)
    requires s.conns != [] && s.issued != [] && s.client.phase.Sending?
    requires 0 < n && s.client.phase.sent + n < MESSAGE_BYTES && s.client.phase.sent + n + k <= MESSAGE_BYTES
    ensures AfterSending(Next(s, ClientSend(n)), k) == AfterSending(s, n + k)
  {
    hide EncodeRequest;
    var j := Next(s, ClientSend(n));
    assert j == ClientSendStep(s, n) && j.client.phase == Sending(s.client.phase.sent + n);
    if k == 0 {
      NothingSent(j);
    } else {
      ClientSendsCompose(s, n, k);
      assert ClientSendStep(j, k) == ClientSendStep(s, n + k);
    }
  }

  /** The receive loop: 20 bytes come in, or fewer and the call gives up. */
  function AfterReceiving(s: Sys, k: nat): Sys
    requires s.conns != [] && s.client.phase.Receiving? && k <= |s.conns[Last(s)].down|
  {
    var j := ClientRecvStep(s, k);
    if |s.client.phase.rcvd| + k == MESSAGE_BYTES then j else GiveUp(j, NoReply)
  }

  lemma {:induction false} ReceivingIsARun(s: Sys, recvs: seq<IoResult>)
    requires s.conns != [] && s.client.phase.Receiving? && |s.client.phase.rcvd| < MESSAGE_BYTES
    ensures var down := s.conns[Last(s)].down;
      var k := Moved(recvs, Least(MESSAGE_BYTES - |s.client.phase.rcvd|, |down|), false);
      k <= |down| && |s.client.phase.rcvd| + k <= MESSAGE_BYTES && CanReach(s, AfterReceiving(s, k))
    decreases |recvs|
  {
    hide CanReach;
    var down := s.conns[Last(s)].down;
    var want := Least(MESSAGE_BYTES - |s.client.phase.rcvd|, |down|);
    MovedAtMost(recvs, want, false);
    if recvs != [] && recvs[0].Moves? && want > 0 {
      var n := Clip(recvs[0].n, want);
      var j := Next(s, ClientRecv(n));
      var k := Moved(recvs[1..], want - n, false);
      if |s.client.phase.rcvd| + n == MESSAGE_BYTES {
        assert k == 0 && AfterReceiving(s, n) == j;
        ReachesItself(j);
      } else {
        ReceivingIsARun(j, recvs[1..]);
        ReceivesAdd(s, n, k);
      }
      OneAction(s, ClientRecv(n), AfterReceiving(s, n + k));
    } else {
      NothingReceived(s);
      ReachesItself(GiveUp(s, NoReply));
      OneAction(s, ClientRecvFail, AfterReceiving(s, 0));
    }
  }

  lemma NothingReceived(s: Sys)
    requires s.conns != [] && s.client.phase.Receiving?
    ensures ClientRecvStep(s, 0) == s
  {
  }

  lemma ReceivesAdd(s: Sys, n: nat, k: nat)
    requires s.conns != [] && s.client.phase.Receiving? && 0 < n
    requires n + k <= |s.conns[Last(s)].down| && |s.client.phase.rcvd| + n + k <= MESSAGE_BYTES
    requires |s.client.phase.rcvd| + n < MESSAGE_BYTES
    ensures AfterReceiving(Next(s, ClientRecv(n)), k) == AfterReceiving(s, n + k)
  {
    if k == 0 {
      NothingReceived(Next(s, ClientRecv(n)));
    } else {
      ClientReceivesCompose(s, n, k);
    }
  }

  // ----- a whole call

  /** t is s with a request for the given access gone out, as far as the scripted sends let it. */
  predicate GoneOut(s: Sys, t: Sys, q: Request, connects: bool, sends: seq<IoResult>)
    requires s.client.open ==> s.conns != []
  {
    && t.issued == s.issued + [q]
    && t.client.irqLast == s.client.irqLast && t.client.lines == s.client.lines
    && if !s.client.open && !connects then
         t.client.phase.Idle? && !t.client.open && t.returned == s.returned + [NotSent] && t.conns == s.conns
       else
         && t.conns != [] && t.client.open == (SentBytes(sends) == MESSAGE_BYTES)
         && t.conns[Last(t)].up
            == (if s.client.open then s.conns[Last(s)].up else []) + EncodeRequest(q)[..SentBytes(sends)]
         && if SentBytes(sends) == MESSAGE_BYTES then t.client.phase == Receiving([]) && t.returned == s.returned
            else t.client.phase.Idle? && t.returned == s.returned + [NotSent]
  }

  /** The first half of a call is a run of the protocol: on a socket that will behave as scripted it connects or not,
      and sends the request or part of it.  It is over if Transact does not get to its receive loop. */
  lemma CallGoesOut(s: Sys, op: Word, addr: Word, data: Word, connects: bool, sends: seq<IoResult>)
    requires s.client.phase.Idle? && (s.client.open ==> s.conns != [])
    ensures var q := Request(COSIM_MAGIC, COSIM_VERSION, op, addr, data);
      exists t | CanReach(s, t) :: GoneOut(s, t, q, connects, sends)
  {
    hide CanReach, EncodeRequest;
    var issue := Issue(op, addr, data, connects);
    var j := Next(s, issue);
    if !s.client.open && !connects {
      ReachesItself(j);
      OneAction(s, issue, j);
    } else {
      SendingIsARun(j, sends);
      var t := AfterSending(j, SentBytes(sends));
      var message := EncodeRequest(j.issued[|j.issued| - 1]);
      assert message[0..SentBytes(sends)] == message[..SentBytes(sends)];
      OneAction(s, issue, t);
    }
  }

  /** t is s with the call ended by the verdict that Transact comes to. */
  predicate EndedBy(s: Sys, t: Sys, verdict: Verdict)
    requires s.executed != [] && |s.client.lines| == REMOTE_MMIO_MAX_IRQ
  {
    var slot := |s.executed| - 1;
    match verdict
    case Unreachable => false
    case Dropped => t.client == s.client.(open := false, phase := Idle) && t.returned == s.returned + [NoReply]
    case Rejected => t.client == s.client.(phase := Idle) && t.returned == s.returned + [BadReply(slot)]
    case Accepted(p) =>
      var lines := DriveLines(s.client.lines, s.client.irqLast, p.irqBits);
      && t.client == s.client.(phase := Idle, irqLast := p.irqBits, lines := lines)
      && t.returned == s.returned + [Good(slot, p.data, p.irqBits)]
  }

  /** The second half, once the server has done what it does: descriptor, data, irq_last and lines become in a run of
      the protocol what Transact makes of them, by its verdict on the bytes that have arrived. */
  lemma CallComesBack(s: Sys, sends: seq<IoResult>, recvs: seq<IoResult>)
    requires s.conns != [] && s.client.phase == Receiving([]) && s.executed != []
    requires |s.client.lines| == REMOTE_MMIO_MAX_IRQ && SentBytes(sends) == MESSAGE_BYTES
    ensures exists t | CanReach(s, t) :: EndedBy(s, t, VerdictOn(sends, recvs, s.conns[Last(s)].down))
  {
    hide CanReach, DecodeResponse, ToBits;
    var down := s.conns[Last(s)].down;
    var got := GotBytes(sends, recvs, down);
    ReceivingIsARun(s, recvs);
    var j := AfterReceiving(s, got);
    if got == MESSAGE_BYTES {
      assert j.client.phase.rcvd == down[..MESSAGE_BYTES];
      var t := Next(j, Finish);
      ReachesItself(t);
      OneAction(j, Finish, t);
      CanReachOn(s, j, t);
      var p := DecodeResponse(down[..MESSAGE_BYTES]);
      if !Bad(p) && p.irqBits == s.client.irqLast {
        NothingToDrive(s.client.lines, p.irqBits);
      }
    }
  }

  lemma NothingToDrive(lines: seq<bool>, irq: Word)
    requires |lines| == REMOTE_MMIO_MAX_IRQ
    ensures DriveLines(lines, irq, irq) == lines
  {
    hide ToBits;
  }

  lemma {:induction false} ReachesOn(s: Sys, actions: seq<Action>, t: Sys, u: Sys)
    requires Reaches(s, actions, t) && CanReach(t, u)
    ensures CanReach(s, u)
    decreases |actions|
  {
    hide Enabled, Next, CanReach;
    if actions != [] {
      ReachesOn(Next(s, actions[0]), actions[1..], t, u);
      OneAction(s, actions[0], u);
    }
  }

  lemma CanReachOn(s: Sys, t: Sys, u: Sys)
    requires CanReach(s, t) && CanReach(t, u)
    ensures CanReach(s, u)
  {
    var actions :| Reaches(s, actions, t);
    ReachesOn(s, actions, t, u);
  }

  // ----- the server's loops

  predicate OnConnection(s: Sys) {
    0 < s.accepted <= |s.conns|
  }

  /** recv_all: the request is complete, or the connection is dropped. */
  function AfterCollecting(s: Sys, k: nat): Sys
    requires OnConnection(s) && s.server.Collecting? && k <= |s.conns[s.accepted - 1].up|
  {
    var j := ServerRecvStep(s, k);
    if |s.server.got| + k == MESSAGE_BYTES then j else j.(server := Listening)
  }

  lemma {:induction false} CollectingIsARun(s: Sys, recvs: seq<IoResult>)
    requires OnConnection(s) && s.server.Collecting? && |s.server.got| < MESSAGE_BYTES
    ensures var up := s.conns[s.accepted - 1].up;
      var k := Moved(recvs, Least(MESSAGE_BYTES - |s.server.got|, |up|), true);
      k <= |up| && |s.server.got| + k <= MESSAGE_BYTES && CanReach(s, AfterCollecting(s, k))
    decreases |recvs|
  {
    hide CanReach;
    var want := Least(MESSAGE_BYTES - |s.server.got|, |s.conns[s.accepted - 1].up|);
    MovedAtMost(recvs, want, true);
    if recvs != [] && recvs[0].WouldBlock? && want > 0 {
      CollectingIsARun(s, recvs[1..]);
    } else if recvs != [] && recvs[0].Moves? && want > 0 {
      var n := Clip(recvs[0].n, want);
      var j := Next(s, ServerRecv(n));
      var k := Moved(recvs[1..], want - n, true);
      if |s.server.got| + n == MESSAGE_BYTES {
        assert k == 0 && AfterCollecting(s, n) == j;
        ReachesItself(j);
      } else {
        CollectingIsARun(j, recvs[1..]);
        CollectsAdd(s, n, k);
      }
      OneAction(s, ServerRecv(n), AfterCollecting(s, n + k));
    } else {
      NothingCollected(s);
      ReachesItself(s.(server := Listening));
      OneAction(s, ServerRecvFail, AfterCollecting(s, 0));
    }
  }

  lemma NothingCollected(s: Sys)
    requires OnConnection(s) && s.server.Collecting?
    ensures ServerRecvStep(s, 0) == s
  {
    assert s.conns[s.accepted - 1 := s.conns[s.accepted - 1]] == s.conns;
  }

  lemma CollectsAdd(s: Sys, n: nat, k: nat)
    requires OnConnection(s) && s.server.Collecting? && 0 < n
    requires n + k <= |s.conns[s.accepted - 1].up| && |s.server.got| + n + k <= MESSAGE_BYTES
    requires |s.server.got| + n < MESSAGE_BYTES
    ensures AfterCollecting(Next(s, ServerRecv(n)), k) == AfterCollecting(s, n + k)
  {
    if k == 0 {
      NothingCollected(Next(s, ServerRecv(n)));
    } else {
      ServerReceivesCompose(s, n, k);
    }
  }

  /** send_all: the reply is out, or the connection is dropped; a server told to quit stops either way. */
  function AfterAnswering(s: Sys, k: nat): Sys
    requires OnConnection(s) && s.server.Answering? && k <= |s.server.rest|
  {
    var j := ServerSendStep(s, k);
    if k == |s.server.rest| then j else j.(server := if s.server.quit then Stopped else Listening)
  }

  lemma {:induction false} AnsweringIsARun(s: Sys, sends: seq<IoResult>)
    requires OnConnection(s) && s.server.Answering? && s.server.rest != []
    ensures var k := Moved(sends, |s.server.rest|, true);
      k <= |s.server.rest| && CanReach(s, AfterAnswering(s, k))
    decreases |sends|
  {
    hide CanReach;
    var want := |s.server.rest|;
    MovedAtMost(sends, want, true);
    if sends != [] && sends[0].WouldBlock? {
      AnsweringIsARun(s, sends[1..]);
    } else if sends != [] && sends[0].Moves? {
      var n := Clip(sends[0].n, want);
      var j := Next(s, ServerSend(n));
      var k := Moved(sends[1..], want - n, true);
      if n == want {
        assert k == 0 && AfterAnswering(s, n) == j;
        ReachesItself(j);
      } else {
        AnsweringIsARun(j, sends[1..]);
        AnswersAdd(s, n, k);
      }
      OneAction(s, ServerSend(n), AfterAnswering(s, n + k));
    } else {
      NothingAnswered(s);
      ReachesItself(s.(server := if s.server.quit then Stopped else Listening));
      OneAction(s, ServerSendFail, AfterAnswering(s, 0));
    }
  }

  lemma NothingAnswered(s: Sys)
    requires OnConnection(s) && s.server.Answering? && s.server.rest != []
    ensures ServerSendStep(s, 0) == s
  {
    var c := s.conns[s.accepted - 1];
    assert c.down + s.server.rest[..0] == c.down && c.pushed + s.server.rest[..0] == c.pushed;
    assert s.server.rest[0..] == s.server.rest && s.conns[s.accepted - 1 := c] == s.conns;
  }

  lemma AnswersAdd(s: Sys, n: nat, k: nat)
    requires OnConnection(s) && s.server.Answering? && 0 < n < |s.server.rest| && n + k <= |s.server.rest|
    ensures AfterAnswering(Next(s, ServerSend(n)), k) == AfterAnswering(s, n + k)
  {
    if k == 0 {
      NothingAnswered(Next(s, ServerSend(n)));
    } else {
      ServerSendsCompose(s, n, k);
    }
  }
}
