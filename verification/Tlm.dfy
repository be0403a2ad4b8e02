// The parts of a TLM-2.0 generic payload that the SoC uses, and the 32-bit access
// checks shared by the APB devices.
module Tlm {
  import opened Words

  datatype Command = Read | Write | Ignore

  datatype Status = Incomplete | Okay | AddressError | CommandError | BurstError {
    /** is_response_error(): anything that is not a positive status. */
    predicate IsError() {
      !Okay?
    }
  }

  /** The value of a payload; |data| is its data length. */
  datatype Txn = Txn(command: Command, address: Address, data: seq<Byte>, width: nat, status: Status)

  /** What a target does to a transaction: the payload it leaves and the nanoseconds it adds to the delay. */
  datatype Outcome = Outcome(txn: Txn, cost: nat)

  /** The status a 32-bit register access is refused with, if any. */
  function Fault(t: Txn): Option<Status> {
    if |t.data| != 4 || t.width < 4 then Some(BurstError)
    else if t.address % 4 != 0 then Some(AddressError)
    else None
  }

  /** A 32-bit offset: static_cast<uint32_t>(trans.get_address()). */
  function Offset(t: Txn): Word {
    t.address % WORD_LIMIT
  }

  function ReadReply(t: Txn, value: Word, cost: nat): Outcome {
    match Fault(t)
    case Some(s) => Outcome(t.(status := s), 0)
    case None => Outcome(t.(data := ToBytes(value), status := Okay), cost)
  }

  function WriteReply(t: Txn, cost: nat): Outcome {
    match Fault(t)
    case Some(s) => Outcome(t.(status := s), 0)
    case None => Outcome(t.(status := Okay), cost)
  }

  function Refuse(t: Txn, s: Status): Outcome {
    Outcome(t.(status := s), 0)
  }

  /** The transaction CosimServer::tlm_read or tlm_write hands to the bus. */
  function ServerTxn(command: Command, address: Word, value: Word): Txn {
    Txn(command, address, ToBytes(value), 4, Incomplete)
  }

  class Payload {
    const command: Command
    const width: nat
    var address: Address
    var data: seq<Byte>
    var status: Status

    constructor (t: Txn)
      ensures View() == t
    {
      command, width := t.command, t.width;
      address, data, status := t.address, t.data, t.status;
    }

    function View(): Txn
      reads this
    {
      Txn(command, address, data, width, status)
    }
  }

  method CheckU32(p: Payload) returns (ok: bool)
    modifies p`status
    ensures ok == Fault(old(p.View())).None?
    ensures p.View() == if ok then old(p.View()) else old(p.View()).(status := Fault(old(p.View())).value)
  {
    if |p.data| != 4 || p.width < 4 {
      p.status := BurstError;
      return false;
    }
    if p.address % 4 != 0 {
      p.status := AddressError;
      return false;
    }
    return true;
  }

  method UnpackU32(p: Payload) returns (ok: bool, value: Word)
    modifies p`status
    ensures ok == Fault(old(p.View())).None?
    ensures p.View() == if ok then old(p.View()) else old(p.View()).(status := Fault(old(p.View())).value)
    ensures ok ==> |p.data| == 4 && ToBytes(value) == p.data
  {
    ok := CheckU32(p);
    value := 0;
    if ok {
      value := FromBytes(p.data);
      BytesUnique(p.data);
    }
  }

  method PackU32(p: Payload, value: Word) returns (ok: bool)
    modifies p`status, p`data
    ensures ok == Fault(old(p.View())).None?
    ensures p.View() == if ok then old(p.View()).(data := ToBytes(value))
                        else old(p.View()).(status := Fault(old(p.View())).value)
  {
    ok := CheckU32(p);
    if ok {
      p.data := ToBytes(value);
    }
  }

  /** Every transaction the server builds for an aligned address passes the register check. */
  lemma ServerTxnIsWellFormed(command: Command, address: Word, value: Word)
    ensures Fault(ServerTxn(command, address, value)) == (if address % 4 == 0 then None else Some(AddressError))
    ensures FromBytes(ServerTxn(command, address, value).data) == value
  {
    BytesRoundTrip(value);
  }
}
