// No deadlock: a call whose connection the server is on, or can still accept, can be carried to its end
// without any failure, whatever else the server has to work off first.
module ProtocolProgress {
  import opened Words
  import opened Protocol
  import opened ProtocolInvariants

  /** Not a failure; the end of the stream is met only on a connection the client has abandoned. */
  predicate Harmless(s: Sys, a: Action) {
    match a
    case ClientSendFail => false
    case ClientRecvFail => false
    case ServerSendFail => false
    case Hangup => false
    case ServerRecvFail => !s.client.open || s.accepted < |s.conns|
    case _ => true
  }

  /** A run without failures. */
  ghost predicate Proceeds(s: Sys, actions: seq<Action>, t: Sys)
    decreases |actions|
  {
    if actions == [] then s == t
    else Enabled(s, actions[0]) && Harmless(s, actions[0]) && Proceeds(Next(s, actions[0]), actions[1..], t)
  }

  lemma {:induction false} ProceedingIsReaching(s: Sys, actions: seq<Action>, t: Sys)
    requires Proceeds(s, actions, t)
    ensures Reaches(s, actions, t)
    decreases |actions|
  {
    hide Next, Enabled;
    if actions != [] {
      ProceedingIsReaching(Next(s, actions[0]), actions[1..], t);
    }
  }

  lemma ProceedsFirst(s: Sys, a: Action, rest: seq<Action>, t: Sys)
    requires Enabled(s, a) && Harmless(s, a) && Proceeds(Next(s, a), rest, t)
    ensures Proceeds(s, [a] + rest, t)
  {
    hide Next, Enabled;
    assert ([a] + rest)[1..] == rest;
  }

  // ----- what can keep a call from being answered

  /** A whole request to quit that has not been run. */
  predicate QuitOn(s: Sys, c: Conn) {
    c.sent == MESSAGE_BYTES && Latest(s) < c.txn < |s.issued| && s.issued[c.txn].op == COSIM_OP_QUIT
  }

  /** The server is done, or will be before it comes to a further connection. */
  predicate Quitting(s: Sys) {
    || s.server.Stopped?
    || (s.server.Answering? && s.server.quit)
    || (s.server.Collecting? && 0 < s.accepted <= |s.conns| && QuitOn(s, s.conns[s.accepted - 1]))
  }

  predicate QuitBefore(s: Sys, n: nat)
    requires n <= |s.conns|
  {
    exists i | s.accepted <= i < n :: QuitOn(s, s.conns[i])
  }

  /** The call in progress can still be answered: the server is at its connection, or all of the reply is
      under way, or the server will come to it. */
  predicate Alive(s: Sys) {
    && s.conns != [] && !s.client.phase.Idle?
    && if s.accepted == |s.conns|
       then s.server.Collecting? || s.server.Answering? || |s.conns[Last(s)].pushed| == MESSAGE_BYTES
       else s.accepted < |s.conns| && !Quitting(s) && !QuitBefore(s, Last(s))
  }

  // ----- one step closer

  function ServerRank(s: Sys): nat {
    match s.server
    case Collecting(got) =>
      if 0 < s.accepted <= |s.conns| && s.conns[s.accepted - 1].up != [] then 4
      else if |got| == MESSAGE_BYTES then 3
      else 1
    case Answering(_, _) => 2
    case _ => 0
  }

  /** What the server does next, or tries to; the reply to the call in progress is p. */
  function ServerChoice(s: Sys, p: Response): Action
    requires Shape(s)
  {
    match s.server
    case Collecting(got) =>
      var c := s.conns[s.accepted - 1];
      if c.up != [] then ServerRecv(|c.up|)
      else if |got| < MESSAGE_BYTES then ServerRecvFail
      else if s.accepted == |s.conns| then Dispatch(p.status, p.data, p.irqBits)
      else Dispatch(COSIM_ERROR, 0, 0)
    case Answering(rest, _) => ServerSend(|rest|)
    case _ => Accept
  }

  function NextAction(s: Sys, p: Response): Action
    requires Framed(s) && Alive(s)
  {
    match s.client.phase
    case Sending(n) => ClientSend(MESSAGE_BYTES - n)
    case Receiving(rcvd) =>
      if |rcvd| == MESSAGE_BYTES then Finish
      else if s.conns[Last(s)].down != [] then ClientRecv(|s.conns[Last(s)].down|)
      else ServerChoice(s, p)
    case Idle => Finish
  }

  /** A reply the server may give. */
  predicate Possible(p: Response) {
    p.magic == COSIM_MAGIC && p.version == COSIM_VERSION && p.status in {COSIM_OK, COSIM_ERROR}
  }

  /** The reply to the call in progress: the one already given, or p. */
  function Expected(s: Sys, p: Response): Response {
    if s.executed != [] && Latest(s) == |s.issued| - 1 then s.executed[|s.executed| - 1].reply else p
  }

  /** How a call ends that is given the reply p. */
  function Ended(slot: nat, p: Response): Return {
    if Bad(p) then BadReply(slot) else Good(slot, p.data, p.irqBits)
  }

  function PhaseRank(phase: Phase): nat {
    match phase
    case Sending(_) => MESSAGE_BYTES + 4
    case Receiving(rcvd) => if |rcvd| < MESSAGE_BYTES then MESSAGE_BYTES - |rcvd| else 0
    case Idle => 0
  }

  function Backlog(s: Sys): nat {
    if s.accepted <= |s.conns| then |s.conns| - s.accepted else 0
  }

  /** One step of a call that is not yet complete. */
  predicate Closer(s: Sys, j: Sys, p: Response) {
    && Framed(j) && Alive(j) && Expected(j, p) == Expected(s, p)
    && j.returned == s.returned && j.issued == s.issued
    && PhaseRank(j.client.phase) <= PhaseRank(s.client.phase) && Backlog(j) <= Backlog(s)
    && (Backlog(j) < Backlog(s)
        || ServerRank(j) + PhaseRank(j.client.phase) < ServerRank(s) + PhaseRank(s.client.phase))
  }

  /** Bytes have moved, or the client's phase has changed, on its own connection only. */
  lemma ClientMoves(s: Sys, j: Sys, p: Response)
    requires Framed(s) && Framed(j) && Alive(s) && !j.client.phase.Idle?
    requires j.server == s.server && j.accepted == s.accepted && j.executed == s.executed && j.issued == s.issued
    requires |j.conns| == |s.conns| && forall i | 0 <= i < Last(s) :: j.conns[i] == s.conns[i]
    requires j.conns[Last(s)].pushed == s.conns[Last(s)].pushed
    ensures Alive(j) && Expected(j, p) == Expected(s, p)
  {
    hide InOrder, Waiting, ServerFrame, ClientFrame, EncodeRequest, EncodeResponse, ConnsInOrder, HeaderOk;
    if s.accepted < |s.conns| {
      assert forall i | s.accepted <= i < Last(s) :: QuitOn(j, j.conns[i]) == QuitOn(s, s.conns[i]);
    }
  }

  lemma SendIsCloser(s: Sys, p: Response)
    requires Framed(s) && Alive(s) && s.client.phase.Sending?
    ensures var a := NextAction(s, p); Enabled(s, a) && Harmless(s, a) && Closer(s, Next(s, a), p)
  {
    SentLess(s);
    var n := MESSAGE_BYTES - s.client.phase.sent;
    var j := ClientSendStep(s, n);
    assert Enabled(s, ClientSend(n)) && Next(s, ClientSend(n)) == j;
    assert ServerRank(j) <= ServerRank(s) + 3;
    hide Framed, Alive, Enabled, Next, Expected, EncodeRequest;
    ChoiceKeepsFramed(s, ClientSend(n));
    ClientMoves(s, j, p);
  }

  lemma SentLess(s: Sys)
    requires Framed(s) && s.client.phase.Sending?
    ensures s.conns != [] && s.issued != [] && s.client.phase.sent < MESSAGE_BYTES
  {
    hide InOrder, Waiting, ServerFrame, ConnsInOrder, HeaderOk;
  }

  lemma ReceiveIsCloser(s: Sys, p: Response)
    requires Framed(s) && Alive(s) && s.client.phase.Receiving? && |s.client.phase.rcvd| < MESSAGE_BYTES
    requires s.conns[Last(s)].down != []
    ensures var a := NextAction(s, p); Enabled(s, a) && Harmless(s, a) && Closer(s, Next(s, a), p)
  {
    FramedNeverOverruns(s);
    var n := |s.conns[Last(s)].down|;
    var j := ClientRecvStep(s, n);
    assert Enabled(s, ClientRecv(n)) && Next(s, ClientRecv(n)) == j;
    hide Framed, Alive, Enabled, Next, Expected;
    ChoiceKeepsFramed(s, ClientRecv(n));
    ClientMoves(s, j, p);
  }

  /** The client is waiting for bytes that the server has not sent. */
  predicate Waits(s: Sys) {
    && s.conns != [] && s.client.phase.Receiving? && |s.client.phase.rcvd| < MESSAGE_BYTES
    && s.conns[Last(s)].down == []
  }

  lemma AcceptIsCloser(s: Sys, p: Response)
    requires Framed(s) && Alive(s) && Waits(s) && s.server.Listening? && s.accepted < |s.conns|
    ensures Enabled(s, Accept) && Closer(s, Next(s, Accept), p)
  {
    hide InOrder, Waiting, ServerFrame, ClientFrame, EncodeRequest, EncodeResponse, ConnsInOrder, HeaderOk;
    ChoiceKeepsFramed(s, Accept);
    var j := Next(s, Accept);
    if j.accepted < |j.conns| {
      assert !QuitOn(s, s.conns[s.accepted]);
    }
    assert Alive(j);
  }

  lemma CollectIsCloser(s: Sys, p: Response)
    requires Framed(s) && Alive(s) && Waits(s) && s.server.Collecting? && s.conns[s.accepted - 1].up != []
    ensures var a := ServerRecv(|s.conns[s.accepted - 1].up|); Enabled(s, a) && Closer(s, Next(s, a), p)
  {
    var a := ServerRecv(|s.conns[s.accepted - 1].up|);
    FramedNeverOverruns(s);
    hide InOrder, Waiting, ServerFrame, ClientFrame, EncodeRequest, EncodeResponse, ConnsInOrder, HeaderOk;
    ChoiceKeepsFramed(s, a);
    var j := Next(s, a);
    assert forall i | 0 <= i < |s.conns| && i != s.accepted - 1 :: j.conns[i] == s.conns[i];
    assert Alive(j);
  }

  /** On the client's own connection the rest of an incomplete request is under way. */
  lemma RestIsUnderWay(s: Sys)
    requires Framed(s) && Waits(s) && s.server.Collecting? && s.accepted == |s.conns|
    ensures |s.server.got| + |s.conns[Last(s)].up| == MESSAGE_BYTES
  {
    hide InOrder, Waiting, EncodeRequest, EncodeResponse, ConnsInOrder, HeaderOk;
    var c := s.conns[Last(s)];
    assert |s.server.got + c.up| == |SentOn(s.issued, c)|;
  }

  lemma EofIsCloser(s: Sys, p: Response)
    requires Framed(s) && Alive(s) && Waits(s) && s.server.Collecting? && s.conns[s.accepted - 1].up == []
    requires |s.server.got| < MESSAGE_BYTES
    ensures Enabled(s, ServerRecvFail) && Harmless(s, ServerRecvFail) && Closer(s, Next(s, ServerRecvFail), p)
  {
    if s.accepted == |s.conns| {
      RestIsUnderWay(s);
    }
    hide InOrder, Waiting, ServerFrame, ClientFrame, EncodeRequest, EncodeResponse, ConnsInOrder, HeaderOk;
    ChoiceKeepsFramed(s, ServerRecvFail);
    assert Alive(Next(s, ServerRecvFail));
  }

  lemma AnswerIsCloser(s: Sys, p: Response)
    requires Framed(s) && Alive(s) && Waits(s) && s.server.Answering?
    ensures var a := ServerSend(|s.server.rest|); Enabled(s, a) && Closer(s, Next(s, a), p)
  {
    var a, c := ServerSend(|s.server.rest|), s.conns[s.accepted - 1];
    assert c.pushed + s.server.rest == LatestReply(s) && s.server.rest != [];
    hide InOrder, Waiting, ServerFrame, ClientFrame, EncodeRequest, ConnsInOrder, HeaderOk;
    ChoiceKeepsFramed(s, a);
    var j := Next(s, a);
    assert |j.conns[s.accepted - 1].pushed| == |c.pushed| + |s.server.rest|;
    assert forall i | 0 <= i < |s.conns| && i != s.accepted - 1 :: j.conns[i] == s.conns[i];
    assert Alive(j);
  }

  /** Running a collected request, with any reply; the reply to the call in progress is p. */
  lemma DispatchIsCloser(s: Sys, p: Response, a: Action)
    requires Framed(s) && Alive(s) && s.server.Collecting? && |s.server.got| == MESSAGE_BYTES
    requires a.Dispatch? && Enabled(s, a)
    requires s.accepted == |s.conns| ==> Response(COSIM_MAGIC, COSIM_VERSION, a.status, a.data, a.irq) == p
    ensures Closer(s, Next(s, a), p)
  {
    DispatchIsARun(s, a);
    ChoiceKeepsFramed(s, a);
    var c, j := s.conns[s.accepted - 1], Next(s, a);
    hide InOrder, Waiting, ServerFrame, ClientFrame, ConnsInOrder, HeaderOk, Next, Enabled;
    if s.accepted < |s.conns| {
      assert !QuitOn(s, c);
      assert forall i | s.accepted <= i < Last(s) :: !QuitOn(s, s.conns[i]);
      assert forall i | s.accepted <= i < Last(s) :: !QuitOn(j, j.conns[i]);
    }
  }

  lemma DispatchIsARun(s: Sys, a: Action)
    requires Framed(s) && s.server.Collecting? && |s.server.got| == MESSAGE_BYTES
    requires a.Dispatch? && Enabled(s, a)
    ensures var c, j := s.conns[s.accepted - 1], Next(s, a);
      && j.conns == s.conns && j.accepted == s.accepted && j.client == s.client
      && j.issued == s.issued && j.returned == s.returned
      && c.sent == MESSAGE_BYTES && Latest(s) < c.txn < |s.issued|
      && (s.accepted < |s.conns| ==> c.txn < s.conns[Last(s)].txn)
      && j.executed
         == s.executed + [Exec(c.txn, Response(COSIM_MAGIC, COSIM_VERSION, a.status, a.data, a.irq))]
      && j.server.Answering? && (j.server.quit <==> s.issued[c.txn].op == COSIM_OP_QUIT)
  {
    CollectedIsFresh(s);
    CollectedIsIssued(s);
    hide InOrder, Waiting, ServerFrame, ClientFrame, EncodeRequest, EncodeResponse, HeaderOk, DecodeRequest;
  }

  lemma ServerIsCloser(s: Sys, p: Response)
    requires Framed(s) && Alive(s) && Waits(s) && Possible(p)
    ensures var a := ServerChoice(s, p); Enabled(s, a) && Harmless(s, a) && Closer(s, Next(s, a), p)
  {
    MoreToCome(s);
    hide Framed, Closer, Alive, Waits, QuitOn, Quitting, QuitBefore, Enabled, Next, Possible;
    match s.server {
      case Collecting(got) =>
        if s.conns[s.accepted - 1].up != [] {
          CollectIsCloser(s, p);
        } else if |got| < MESSAGE_BYTES {
          EofIsCloser(s, p);
        } else {
          DispatchIsEnabled(s, p);
          DispatchIsCloser(s, p, ServerChoice(s, p));
        }
      case Answering(_, _) => AnswerIsCloser(s, p);
      case _ => AcceptIsCloser(s, p);
    }
  }

  /** The reply not being on its way, the server is still at a connection or has one to accept. */
  lemma MoreToCome(s: Sys)
    requires Framed(s) && Alive(s) && Waits(s)
    ensures s.server.Collecting? ==> |s.server.got| <= MESSAGE_BYTES
    ensures s.server.Collecting? || s.server.Answering? || (s.server.Listening? && s.accepted < |s.conns|)
  {
    AllSentIsAllReceived(s);
    FramedNeverOverruns(s);
    hide InOrder, Waiting, ServerFrame, ClientFrame, ConnsInOrder, HeaderOk, QuitOn, QuitBefore;
  }

  lemma DispatchIsEnabled(s: Sys, p: Response)
    requires Framed(s) && s.server.Collecting? && |s.server.got| == MESSAGE_BYTES && Possible(p)
    ensures Enabled(s, Dispatch(p.status, p.data, p.irqBits)) && Enabled(s, Dispatch(COSIM_ERROR, 0, 0))
  {
    CollectedIsIssued(s);
    hide InOrder, Waiting, ServerFrame, ClientFrame, ConnsInOrder, HeaderOk, DecodeRequest;
  }

  lemma AllSentIsAllReceived(s: Sys)
    requires Framed(s) && Waits(s)
    ensures |s.conns[Last(s)].pushed| < MESSAGE_BYTES
  {
    hide InOrder, Waiting, ServerFrame, ConnsInOrder, HeaderOk;
  }

  lemma ActionIsCloser(s: Sys, p: Response)
    requires Framed(s) && Alive(s) && Possible(p)
    requires !(s.client.phase.Receiving? && |s.client.phase.rcvd| == MESSAGE_BYTES)
    ensures var a := NextAction(s, p); Enabled(s, a) && Harmless(s, a) && Closer(s, Next(s, a), p)
  {
    ReceivedAtMost(s);
    hide Framed, Closer, Enabled, Next, Harmless, ServerChoice;
    match s.client.phase {
      case Sending(_) => SendIsCloser(s, p);
      case Receiving(_) =>
        if s.conns[Last(s)].down != [] {
          ReceiveIsCloser(s, p);
        } else {
          ServerIsCloser(s, p);
        }
    }
  }

  lemma ReceivedAtMost(s: Sys)
    requires Framed(s)
    ensures s.client.phase.Receiving? ==> |s.client.phase.rcvd| <= MESSAGE_BYTES
  {
    hide InOrder, Waiting, ServerFrame, ConnsInOrder, HeaderOk;
  }

  // ----- theorems

  /** How a call that has received 20 bytes ends. */
  lemma FinishEndsTheCall(s: Sys, p: Response)
    requires Framed(s) && HeadersOk(s.executed) && s.client.phase.Receiving?
    requires |s.client.phase.rcvd| == MESSAGE_BYTES
    ensures Enabled(s, Finish)
    ensures var t := Next(s, Finish);
      && t.client.phase.Idle? && t.client.open && t.executed == s.executed && Latest(s) == |s.issued| - 1
      && t.returned == s.returned + [Ended(|s.executed| - 1, Expected(s, p))]
  {
    assert |s.conns[Last(s)].pushed| >= MESSAGE_BYTES;
    FinishedReply(s);
    hide InOrder, Waiting, ServerFrame, DecodeResponse, EncodeResponse, DriveLines, ConnsInOrder, HeaderOk;
  }

  /** How far a run that starts at s and reaches t has got with the call in progress. */
  ghost predicate Answered(s: Sys, p: Response, t: Sys) {
    && t.client.phase.Idle? && t.client.open && t.executed != [] && Latest(t) == |s.issued| - 1
    && t.returned == s.returned + [Ended(|t.executed| - 1, Expected(s, p))]
  }

  /** No deadlock, at any moment of a call: it can be carried on, without failures, to the reply to its own
      request: the one the server has given already, or whatever the SoC will answer. */
  lemma {:induction false} CallCanFinish(s: Sys, p: Response)
    requires Inv(s) && Alive(s) && Possible(p)
    ensures exists actions, t :: Proceeds(s, actions, t) && Answered(s, p, t)
    decreases Backlog(s), ServerRank(s) + PhaseRank(s.client.phase)
  {
    hide Truthful, IrqMirrored, HeadersOk, Framed, Alive, Enabled, Next, Expected, Proceeds;
    var a := if s.client.phase.Receiving? && |s.client.phase.rcvd| == MESSAGE_BYTES then Finish else NextAction(s, p);
    if a.Finish? && s.client.phase.Receiving? && |s.client.phase.rcvd| == MESSAGE_BYTES {
      FinishEndsTheCall(s, p);
      var t := Next(s, Finish);
      ProceedsNowhere(t);
      ProceedsFirst(s, Finish, [], t);
    } else {
      ActionIsCloser(s, p);
      var j := Next(s, a);
      OneMoreKeepsInv(s, a);
      CallCanFinish(j, p);
      var actions, t :| Proceeds(j, actions, t) && Answered(j, p, t);
      ProceedsFirst(s, a, actions, t);
    }
  }

  lemma ProceedsNowhere(s: Sys)
    ensures Proceeds(s, [], s)
  {
    hide Next, Enabled;
  }

  lemma OneMoreKeepsInv(s: Sys, a: Action)
    requires Inv(s) && Enabled(s, a)
    ensures Inv(Next(s, a))
  {
    hide Framed, Truthful, IrqMirrored, HeadersOk, Next, Enabled;
    ChoiceKeepsFramed(s, a);
    ChoiceKeepsTruthful(s, a);
    ChoiceKeepsIrqMirrored(s, a);
    ChoiceKeepsHeaders(s, a);
  }

  /** Between calls: a new one can be answered.  On an open connection the server must not have left it; without
      one it must not be quitting, and nobody in the backlog may have told it to. */
  predicate Available(s: Sys) {
    s.client.phase.Idle? &&
    if s.client.open then s.server.Collecting? else !Quitting(s) && !QuitBefore(s, |s.conns|)
  }

  lemma IssueIsAlive(s: Sys, op: Word, addr: Word, data: Word)
    requires Framed(s) && Available(s)
    ensures Enabled(s, Issue(op, addr, data, true))
    ensures var j := Next(s, Issue(op, addr, data, true));
      && Alive(j) && j.returned == s.returned && |j.issued| == |s.issued| + 1 && Latest(j) < |s.issued|
  {
    hide Waiting, ServerFrame, EncodeRequest, EncodeResponse, HeaderOk;
    var j := Next(s, Issue(op, addr, data, true));
    assert Latest(s) < |s.issued|;
    if s.client.open {
      assert s.accepted == |s.conns|;
    } else {
      assert forall i | 0 <= i < |s.conns| ::
          j.conns[i] == s.conns[i] && QuitOn(j, j.conns[i]) == QuitOn(s, s.conns[i]);
    }
  }

  /** So in every reachable state in which the server is available, a new call can be carried to the reply to
      that very request, through any backlog of abandoned connections and whatever the SoC answers. */
  lemma NewCallCanFinish(before: seq<Action>, s: Sys, op: Word, addr: Word, data: Word, p: Response)
    requires Reaches(START, before, s) && Available(s) && Possible(p)
    ensures exists actions, t :: Proceeds(s, actions, t) && t.client.phase.Idle? && t.executed != []
              && t.executed[|t.executed| - 1].txn == |s.issued|
              && t.returned == s.returned + [Ended(|t.executed| - 1, p)]
  {
    AlwaysInv(before, s);
    var issue := Issue(op, addr, data, true);
    hide Reaches, Truthful, IrqMirrored, HeadersOk, Framed, Alive, Available, Enabled, Next, Proceeds;
    IssueIsAlive(s, op, addr, data);
    OneMoreKeepsInv(s, issue);
    var j := Next(s, issue);
    CallCanFinish(j, p);
    var actions, t :| Proceeds(j, actions, t) && Answered(j, p, t);
    ProceedsFirst(s, issue, actions, t);
  }
}
