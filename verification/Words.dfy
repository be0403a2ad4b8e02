// Machine words.  A uint32_t is a natural number below 2^32; a register that the
// source only ever masks, sets and tests bit by bit is the set of its one bits, so
// `&`, `|`, `^` and `~` become set operations.  ToBits and ToWord convert between the
// two views and are inverse bijections.
module Words {

  const WORD_LIMIT := 0x1_0000_0000
  const ADDRESS_LIMIT := 0x1_0000_0000_0000_0000

  type Byte = n: nat | n < 256
  type Word = n: nat | n < WORD_LIMIT
  type Address = n: nat | n < ADDRESS_LIMIT
  type Bits = s: set<nat> | forall i | i in s :: i < 32 witness {}

  datatype Option<+T> = None | Some(value: T)

  /** A flag read as a register. */
  function Flag(b: bool): Word {
    if b then 1 else 0
  }

  /** All 32 bits: the complement of x is ALL_ONES - x. */
  const ALL_ONES: Bits := set i: nat | i < 32

  function Complement(x: Bits): Bits {
    ALL_ONES - x
  }

  function Xor(x: Bits, y: Bits): Bits {
    (x - y) + (y - x)
  }

  /** Bit i of n, bit 0 being the least significant. */
  predicate Bit(n: nat, i: nat) {
    if i == 0 then n % 2 == 1 else Bit(n / 2, i - 1)
  }

  function ToBits(n: Word): Bits {
    set i: nat | i < 32 && Bit(n, i)
  }

  /** The number whose bit j is bit i + j of s. */
  function ValueFrom(s: Bits, i: nat): nat
    requires i <= 32
    decreases 32 - i
  {
    if i == 32 then 0 else (if i in s then 1 else 0) + 2 * ValueFrom(s, i + 1)
  }

  function Pow2(n: nat): (p: nat)
    ensures p > 0
  {
    if n == 0 then 1 else 2 * Pow2(n - 1)
  }

  lemma {:induction false} ValueBound(s: Bits, i: nat)
    requires i <= 32
    ensures ValueFrom(s, i) < Pow2(32 - i)
    decreases 32 - i
  {
    if i < 32 {
      ValueBound(s, i + 1);
    }
  }

  lemma Pow2Of32()
    ensures Pow2(32) == WORD_LIMIT
  {
    assert Pow2(8) == 256;
    assert Pow2(16) == 0x1_0000;
    assert Pow2(24) == 0x100_0000;
  }

  function ToWord(s: Bits): Word {
    ValueBound(s, 0);
    Pow2Of32();
    ValueFrom(s, 0)
  }

  lemma LowBitOfValue(s: Bits, i: nat)
    requires i < 32
    ensures ValueFrom(s, i) % 2 == (if i in s then 1 else 0) && ValueFrom(s, i) / 2 == ValueFrom(s, i + 1)
  {
  }

  lemma {:induction false} BitOfValue(s: Bits, i: nat, j: nat)
    requires i + j < 32
    ensures Bit(ValueFrom(s, i), j) <==> i + j in s
    decreases j
  {
    LowBitOfValue(s, i);
    hide ValueFrom;
    if j > 0 {
      BitOfValue(s, i + 1, j - 1);
    }
  }

  lemma BitsOfWord(s: Bits)
    ensures ToBits(ToWord(s)) == s
  {
    forall i: nat | i < 32
      ensures i in ToBits(ToWord(s)) <==> i in s
    {
      BitOfValue(s, 0, i);
    }
  }

  lemma {:induction false} ValueOfBits(s: Bits, i: nat, m: nat)
    requires i <= 32 && m < Pow2(32 - i)
    requires forall j: nat | i + j < 32 :: Bit(m, j) <==> i + j in s
    ensures ValueFrom(s, i) == m
    decreases 32 - i
  {
    if i < 32 {
      assert Bit(m, 0) <==> i + 0 in s;
      forall j: nat | i + 1 + j < 32
        ensures Bit(m / 2, j) <==> i + 1 + j in s
      {
        assert Bit(m, j + 1) <==> i + (j + 1) in s;
      }
      ValueOfBits(s, i + 1, m / 2);
    }
  }

  lemma WordOfBits(n: Word)
    ensures ToWord(ToBits(n)) == n
  {
    Pow2Of32();
    ValueOfBits(ToBits(n), 0, n);
  }

  lemma ZeroHasNoBits()
    ensures ToBits(0) == {}
  {
    BitsOfWord({});
    assert ValueFrom({}, 0) == 0 by {
      forall j: nat | j < 32
        ensures !Bit(0, j)
      {
        ZeroBit(j);
      }
      ValueOfBits({}, 0, 0);
    }
  }

  lemma {:induction false} ZeroBit(j: nat)
    ensures !Bit(0, j)
  {
    if j > 0 {
      ZeroBit(j - 1);
    }
  }

  lemma {:induction false} NoHighBits(n: nat, k: nat, j: nat)
    requires n < Pow2(k) && j >= k
    ensures !Bit(n, j)
  {
    if k == 0 {
      ZeroBit(j);
    } else {
      NoHighBits(n / 2, k - 1, j - 1);
    }
  }

  /** A number below 2^k by its k low bits. */
  lemma BitsAreThese(n: Word, s: Bits, k: nat)
    requires k <= 32 && n < Pow2(k) && forall j: nat :: j in s <==> j < k && Bit(n, j)
    ensures ToBits(n) == s && ToWord(s) == n
  {
    forall j: nat | k <= j < 32
      ensures !Bit(n, j)
    {
      NoHighBits(n, k, j);
    }
    assert ToBits(n) == s;
    WordOfBits(n);
  }

  /** Moving a boundary inside a queue: what was added behind it and taken in front of it balance out. */
  lemma QueueMoves<T>(all: seq<T>, taken: seq<T>, queue: seq<T>, added: seq<T>, popped: seq<T>, queue': seq<T>)
    requires all == taken + queue && queue + added == popped + queue'
    ensures all + added == (taken + popped) + queue'
  {
    assert all + added == taken + (queue + added);
  }

  /** memcpy of a uint32_t on a little-endian host. */
  function ToBytes(n: Word): (b: seq<Byte>)
    ensures |b| == 4
  {
    [n % 256, n / 0x100 % 256, n / 0x1_0000 % 256, n / 0x100_0000]
  }

  function FromBytes(b: seq<Byte>): Word
    requires |b| == 4
  {
    var b0: nat, b1: nat, b2: nat, b3: nat := b[0], b[1], b[2], b[3];
    b0 + 0x100 * b1 + 0x1_0000 * b2 + 0x100_0000 * b3
  }

  lemma BytesRoundTrip(n: Word)
    ensures FromBytes(ToBytes(n)) == n
  {
    var n1, n2, n3 := n / 0x100, n / 0x1_0000, n / 0x100_0000;
    assert n == n % 0x100 + 0x100 * n1;
    assert n1 == n1 % 0x100 + 0x100 * n2;
    assert n2 == n2 % 0x100 + 0x100 * n3;
  }

  lemma ByteInFront(b: nat, m: nat)
    requires b < 256
    ensures (b + 0x100 * m) % 256 == b && (b + 0x100 * m) / 0x100 == m
  {
  }

  lemma ByteByByte(n: nat)
    ensures n / 0x1_0000 == n / 0x100 / 0x100 && n / 0x100_0000 == n / 0x100 / 0x100 / 0x100
  {
  }

  lemma BytesUnique(b: seq<Byte>)
    requires |b| == 4
    ensures ToBytes(FromBytes(b)) == b
  {
    var b0: nat, b1: nat, b2: nat, b3: nat := b[0], b[1], b[2], b[3];
    var m2 := b2 + 0x100 * b3;
    var m1 := b1 + 0x100 * m2;
    assert FromBytes(b) == b0 + 0x100 * m1;
    ByteInFront(b0, m1);
    ByteInFront(b1, m2);
    ByteInFront(b2, b3);
    ByteByByte(b0 + 0x100 * m1);
  }

  /** q shifted left by k bits. */
  function Shifted(q: nat, k: nat): nat {
    if k == 0 then q else 2 * Shifted(q, k - 1)
  }

  /** The bits of a stay below those of q, and those of q lie above. */
  lemma {:induction false} BitsInFront(a: nat, q: nat, k: nat, j: nat)
    ensures j < k ==> (Bit(a + Shifted(q, k), j) <==> Bit(a, j))
    ensures a < Pow2(k) ==> (Bit(a + Shifted(q, k), k + j) <==> Bit(q, j))
  {
    if k > 0 {
      assert (a + Shifted(q, k)) / 2 == a / 2 + Shifted(q, k - 1);
      BitsInFront(a / 2, q, k - 1, j);
      if 0 < j {
        BitsInFront(a / 2, q, k - 1, j - 1);
      }
    }
  }

  lemma ShiftedByte(q: nat)
    ensures Shifted(q, 8) == 256 * q && Pow2(8) == 256
  {
    assert Shifted(q, 1) == 2 * q && Shifted(q, 2) == 4 * q;
    assert Shifted(q, 3) == 8 * q && Shifted(q, 4) == 16 * q;
    assert Shifted(q, 5) == 32 * q && Shifted(q, 6) == 64 * q;
    assert Shifted(q, 7) == 128 * q;
  }

  lemma ByteOfWord(n: nat, j: nat)
    ensures j < 8 ==> (Bit(n, j) <==> Bit(n % 256, j))
    ensures Bit(n, 8 + j) <==> Bit(n / 256, j)
  {
    hide Bit;
    ShiftedByte(n / 256);
    BitsInFront(n % 256, n / 256, 8, j);
    assert n == n % 256 + 256 * (n / 256);
  }

  /** Bytes go out little-endian: bit i of the word is bit i % 8 of byte i / 8. */
  lemma BytesAreLittleEndian(n: Word, i: nat)
    requires i < 32
    ensures i in ToBits(n) <==> Bit(ToBytes(n)[i / 8], i % 8)
  {
    hide Bit;
    var n1, n2, j := n / 256, n / 256 / 256, i % 8;
    ByteByByte(n);
    if i < 8 {
      ByteOfWord(n, j);
    } else if i < 16 {
      ByteOfWord(n, i - 8);
      ByteOfWord(n1, j);
    } else if i < 24 {
      ByteOfWord(n, i - 8);
      ByteOfWord(n1, i - 16);
      ByteOfWord(n2, j);
    } else {
      ByteOfWord(n, i - 8);
      ByteOfWord(n1, i - 16);
      ByteOfWord(n2, j);
      ByteOfWord(n2, i - 24);
    }
  }

  // ----- division by a variable

  lemma AtLeastOnce(k: int, d: nat)
    requires k > 0
    ensures k * d >= d
  {
    assert (k - 1) * d >= 0;
    assert k * d == (k - 1) * d + d;
  }

  lemma Distribute(p: int, q: int, d: nat)
    ensures (p - q) * d == p * d - q * d
  {
  }

  lemma ModuloIs(a: nat, d: nat, q: nat, m: nat)
    requires m < d && a == q * d + m
    ensures a % d == m && a / d == q
  {
    var q', m' := a / d, a % d;
    assert a == q' * d + m';
    if q > q' {
      AtLeastOnce(q - q', d);
      Distribute(q, q', d);
    } else if q < q' {
      AtLeastOnce(q' - q, d);
      Distribute(q', q, d);
    }
  }

  lemma QuotientPositive(a: nat, d: nat)
    requires 0 < d <= a
    ensures a / d > 0
  {
    assert a == (a / d) * d + a % d;
  }

  lemma NextModulo(a: nat, d: nat)
    requires d > 0
    ensures (a + 1) % d == if a % d == d - 1 then 0 else a % d + 1
    ensures (a + 1) / d == if a % d == d - 1 then a / d + 1 else a / d
  {
    var q, m := a / d, a % d;
    if m == d - 1 {
      Distribute(q, -1, d);
      ModuloIs(a + 1, d, q + 1, 0);
    } else {
      ModuloIs(a + 1, d, q, m + 1);
    }
  }
}
