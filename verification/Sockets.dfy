// A stream socket as seen by one process: what each coming send or recv will do is scripted, so a proof
// over all scripts is a proof over all behaviours of the kernel and the peer.
module Sockets {
  import opened Words

  /** One call to send or recv: it moves some bytes, says EAGAIN, or fails. */
  datatype IoResult = Moves(n: nat) | WouldBlock | Breaks

  /** A call moves at least one byte and at most the bytes asked for. */
  function Clip(n: nat, limit: nat): (k: nat)
    requires limit > 0
    ensures 0 < k <= limit
  {
    if n == 0 then 1 else if n <= limit then n else limit
  }

  class Socket {
    var sends: seq<IoResult>
    var recvs: seq<IoResult>
    var incoming: seq<Byte>   // sent by the peer, not yet read
    var outgoing: seq<Byte>   // history: handed to the peer

    /** n <= 0 is failure; again says that it was EAGAIN. */
    method Send(buf: seq<Byte>) returns (n: int, again: bool)
      requires buf != []
      modifies this`sends, this`outgoing
      ensures old(sends) == [] ==> n < 0 && !again && outgoing == old(outgoing) && sends == []
      ensures old(sends) != [] ==> sends == old(sends)[1..]
      ensures old(sends) != [] && old(sends)[0].Breaks? ==> n < 0 && !again && outgoing == old(outgoing)
      ensures old(sends) != [] && old(sends)[0].WouldBlock? ==> n < 0 && again && outgoing == old(outgoing)
      ensures old(sends) != [] && old(sends)[0].Moves? ==>
        n == Clip(old(sends)[0].n, |buf|) && outgoing == old(outgoing) + buf[..n]
    {
      if sends == [] {
        return -1, false;
      }
      var o := sends[0];
      sends := sends[1..];
      match o {
        case Breaks => return -1, false;
        case WouldBlock => return -1, true;
        case Moves(m) =>
          n, again := Clip(m, |buf|), false;
          outgoing := outgoing + buf[..n];
      }
    }

    /** Into buf from index `from` on.  0 is the end of the stream. */
    method Recv(buf: array<Byte>, from: nat) returns (n: int, again: bool)
      requires from < buf.Length
      modifies this`recvs, this`incoming, buf
      ensures n > 0 ==> n <= |old(incoming)| && from + n <= buf.Length
      ensures n <= 0 ==> buf[..] == old(buf[..]) && incoming == old(incoming)
      ensures n > 0 ==> buf[..from] == old(buf[..from]) && buf[from..from + n] == old(incoming)[..n]
      ensures n > 0 ==> incoming == old(incoming)[n..]
      ensures old(recvs) == [] ==> n < 0 && !again && recvs == []
      ensures old(recvs) != [] ==> recvs == old(recvs)[1..]
      ensures old(recvs) != [] && old(recvs)[0].Breaks? ==> n < 0 && !again
      ensures old(recvs) != [] && old(recvs)[0].WouldBlock? ==> n < 0 && again
      ensures old(recvs) != [] && old(recvs)[0].Moves? && old(incoming) == [] ==> n == 0 && !again
      ensures old(recvs) != [] && old(recvs)[0].Moves? && old(incoming) != [] ==>
        n == Clip(old(recvs)[0].n, Least(buf.Length - from, |old(incoming)|))
    {
      if recvs == [] {
        return -1, false;
      }
      var o := recvs[0];
      recvs := recvs[1..];
      match o {
        case Breaks => return -1, false;
        case WouldBlock => return -1, true;
        case Moves(m) =>
          if incoming == [] {
            return 0, false;
          }
          n, again := Clip(m, Least(buf.Length - from, |incoming|)), false;
          forall i | 0 <= i < n {
            buf[from + i] := incoming[i];
          }
          incoming := incoming[n..];
      }
    }
  }

  function Least(a: nat, b: nat): nat {
    if a <= b then a else b
  }

  // ----- whole transfers

  /** The bytes a loop over send or recv moves before it has `want` or meets a failure.  A loop that retries
      goes on after EAGAIN. */
  function Moved(outcomes: seq<IoResult>, want: nat, retries: bool): nat {
    if want == 0 || outcomes == [] then 0
    else match outcomes[0]
      case Breaks => 0
      case WouldBlock => if retries then Moved(outcomes[1..], want, retries) else 0
      case Moves(n) => var k := Clip(n, want); k + Moved(outcomes[1..], want - k, retries)
  }

  lemma {:induction false} MovedAtMost(outcomes: seq<IoResult>, want: nat, retries: bool)
    ensures Moved(outcomes, want, retries) <= want
  {
    if want > 0 && outcomes != [] {
      match outcomes[0] {
        case Breaks =>
        case WouldBlock => MovedAtMost(outcomes[1..], want, retries);
        case Moves(n) => MovedAtMost(outcomes[1..], want - Clip(n, want), retries);
      }
    }
  }

  /** The script without its EAGAINs. */
  function Prompt(outcomes: seq<IoResult>): seq<IoResult> {
    if outcomes == [] then []
    else (if outcomes[0].WouldBlock? then [] else [outcomes[0]]) + Prompt(outcomes[1..])
  }

  /** All that the kernel is willing to move before it fails. */
  function Supply(outcomes: seq<IoResult>): nat {
    if outcomes == [] then 0
    else match outcomes[0]
      case Breaks => 0
      case WouldBlock => Supply(outcomes[1..])
      case Moves(n) => (if n == 0 then 1 else n) + Supply(outcomes[1..])
  }

  /** A transfer that retries moves all it wants exactly if the kernel supplies that much before it fails,
      in pieces of whatever sizes, and EAGAINs make no difference. */
  lemma {:induction false} RetryingIsTransparent(outcomes: seq<IoResult>, want: nat)
    ensures Moved(outcomes, want, true) == Least(want, Supply(outcomes))
    ensures Moved(outcomes, want, true) == Moved(Prompt(outcomes), want, false)
  {
    if outcomes != [] {
      var rest := outcomes[1..];
      match outcomes[0] {
        case Breaks =>
        case WouldBlock =>
          RetryingIsTransparent(rest, want);
          assert Prompt(outcomes) == Prompt(rest);
        case Moves(n) =>
          if want > 0 {
            RetryingIsTransparent(rest, want - Clip(n, want));
            assert Prompt(outcomes)[1..] == Prompt(rest);
          }
      }
    }
  }

  /** A transfer ends with the first call that breaks, and one that does not retry also with the first EAGAIN:
      nothing behind it matters. */
  lemma {:induction false} StopsAtFailure(before: seq<IoResult>, o: IoResult, behind: seq<IoResult>, want: nat,
                                          retries: bool)
    requires o.Breaks? || (o.WouldBlock? && !retries)
    ensures Moved(before + [o] + behind, want, retries) == Moved(before, want, retries)
  {
    var all := before + [o] + behind;
    if before == [] {
      assert all[0] == o;
    } else if want > 0 {
      assert all[0] == before[0] && all[1..] == before[1..] + [o] + behind;
      match before[0] {
        case Breaks =>
        case WouldBlock => StopsAtFailure(before[1..], o, behind, want, retries);
        case Moves(n) => StopsAtFailure(before[1..], o, behind, want - Clip(n, want), retries);
      }
    }
  }

  /** Calls that only move bytes. */
  predicate Smooth(outcomes: seq<IoResult>) {
    forall o | o in outcomes :: o.Moves?
  }

  /** A transfer that does not retry moves what the calls up to the first failure supply. */
  lemma {:induction false} SmoothSupply(outcomes: seq<IoResult>, want: nat)
    requires Smooth(outcomes)
    ensures Moved(outcomes, want, false) == Least(want, Supply(outcomes))
  {
    if outcomes != [] && want > 0 {
      assert outcomes[0].Moves?;
      SmoothSupply(outcomes[1..], want - Clip(outcomes[0].n, want));
    }
  }
}
