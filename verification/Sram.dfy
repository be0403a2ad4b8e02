// The AHB SRAM: a byte vector accessed as aligned words (peripherals/sram_ahb.h).
module Sram {
  import opened Words
  import opened Tlm

  const SRAM_BYTES: nat := 0x1000
  const ACCESS_TIME: nat := 10
  const LENGTH: nat := 4

  function Zeroes(n: nat): (z: seq<Byte>)
    ensures |z| == n && forall i | 0 <= i < n :: z[i] == 0
  {
    if n == 0 then [] else Zeroes(n - 1) + [0]
  }

  type Memory = m: seq<Byte> | |m| == SRAM_BYTES witness Zeroes(SRAM_BYTES)

  const ZEROED: Memory := Zeroes(SRAM_BYTES)

  /** The guard of b_transport; the sum is a uint32_t sum. */
  predicate Admits(t: Txn) {
    && |t.data| == LENGTH
    && Offset(t) % 4 == 0
    && (Offset(t) + LENGTH) % WORD_LIMIT <= SRAM_BYTES
  }

  predicate InBounds(offset: Word) {
    offset + LENGTH <= SRAM_BYTES
  }

  /** The guard alone does not keep accesses in bounds: exactly one aligned offset gets past it. */
  lemma GuardMissesTheTopWord(t: Txn)
    requires |t.data| == LENGTH && Offset(t) % 4 == 0
    ensures Admits(t) && !InBounds(Offset(t)) <==> Offset(t) == 0xFFFF_FFFC
  {
  }

  function ReadWord(m: Memory, offset: Word): seq<Byte>
    requires InBounds(offset)
  {
    m[offset..offset + LENGTH]
  }

  function WriteWord(m: Memory, offset: Word, b: seq<Byte>): Memory
    requires InBounds(offset) && |b| == LENGTH
  {
    m[..offset] + b + m[offset + LENGTH..]
  }

  /** The decoder's range is what excludes the one bad offset. */
  function Transport(m: Memory, t: Txn): (Memory, Outcome)
    requires Offset(t) != 0xFFFF_FFFC
  {
    if !Admits(t) then (m, Refuse(t, AddressError)) else
      match t.command
      case Read => (m, Outcome(t.(data := ReadWord(m, Offset(t)), status := Okay), ACCESS_TIME))
      case Write => (WriteWord(m, Offset(t), t.data), Outcome(t.(status := Okay), ACCESS_TIME))
      case Ignore => (m, Refuse(t, CommandError))
  }

  class SramAhb {
    const mem: array<Byte>

    ghost predicate Valid()
      reads this
    {
      mem.Length == SRAM_BYTES
    }

    constructor ()
      ensures Valid() && fresh(mem) && View() == ZEROED
    {
      mem := new Byte[SRAM_BYTES](_ => 0);
      new;
      assert mem[..] == ZEROED;
    }

    function View(): Memory
      requires Valid()
      reads this, mem
    {
      mem[..]
    }

    method OnReset(level: bool)
      requires Valid()
      modifies mem
      ensures Valid() && View() == if level then ZEROED else old(View())
    {
      if level {
        for i := 0 to mem.Length
          invariant forall k | 0 <= k < i :: mem[k] == 0
        {
          mem[i] := 0;
        }
        assert mem[..] == ZEROED;
      }
    }

    method BTransport(p: Payload, delay: nat) returns (delay': nat)
      requires Valid()
      requires p.address % WORD_LIMIT != 0xFFFF_FFFC
      modifies mem, p
      ensures Valid() && delay' >= delay
      ensures (View(), Outcome(p.View(), delay' - delay)) == Transport(old(View()), old(p.View()))
    {
      delay' := delay;
      var addr: Word, len := p.address % WORD_LIMIT, |p.data|;
      if len != 4 || addr % 4 != 0 || (addr + len) % WORD_LIMIT > mem.Length {
        p.status := AddressError;
        return;
      }
      GuardMissesTheTopWord(p.View());
      if p.command == Read {
        p.data := [mem[addr], mem[addr + 1], mem[addr + 2], mem[addr + 3]];
        assert p.data == mem[addr..addr + 4];
      } else if p.command == Write {
        ghost var before := mem[..];
        mem[addr], mem[addr + 1], mem[addr + 2], mem[addr + 3] := p.data[0], p.data[1], p.data[2], p.data[3];
        assert mem[..] == before[..addr] + p.data + before[addr + 4..];
      } else {
        p.status := CommandError;
        return;
      }
      p.status := Okay;
      delay' := delay + ACCESS_TIME;
    }
  }

  /** The word at an aligned offset. */
  function WordAt(m: Memory, offset: Word): Word
    requires InBounds(offset)
  {
    FromBytes(ReadWord(m, offset))
  }

  /** An aligned write changes the word it names and no other. */
  lemma WriteThenRead(m: Memory, at: Word, b: seq<Byte>, offset: Word)
    requires InBounds(at) && InBounds(offset) && at % 4 == 0 && offset % 4 == 0 && |b| == LENGTH
    ensures WordAt(WriteWord(m, at, b), offset) == if offset == at then FromBytes(b) else WordAt(m, offset)
  {
    var m' := WriteWord(m, at, b);
    if offset == at {
      assert ReadWord(m', offset) == b;
    } else {
      assert ReadWord(m', offset) == ReadWord(m, offset);
    }
  }

  lemma ZeroedReadsZero(offset: Word)
    requires InBounds(offset)
    ensures WordAt(ZEROED, offset) == 0
  {
    assert ReadWord(ZEROED, offset) == [0, 0, 0, 0];
  }
}
