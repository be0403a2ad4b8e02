// Address decoding: the four-port decoder used for AHB and APB (interconnect/tlm_decoder.h) and the
// single-region map of the Cortex-A platform (interconnect/tlm_address_map.h).
module Decoder {
  import opened Words
  import opened Tlm

  const MAX_SLAVES: nat := 4

  datatype Region = Region(base: Address, size: Address, used: bool)

  const UNUSED := Region(0, 0, false)

  /** The comparison of decode(); base + size is a uint64_t sum. */
  predicate Hits(r: Region, addr: Address) {
    r.used && r.base <= addr < (r.base + r.size) % ADDRESS_LIMIT
  }

  /** slot is the first one that hits. */
  predicate FirstHit(rs: seq<Region>, addr: Address, slot: nat) {
    slot < |rs| && Hits(rs[slot], addr) && forall i | 0 <= i < slot :: !Hits(rs[i], addr)
  }

  predicate NoHit(rs: seq<Region>, addr: Address) {
    forall i | 0 <= i < |rs| :: !Hits(rs[i], addr)
  }

  class TlmDecoder {
    const regions: array<Region>
    const cycle: nat

    ghost predicate Valid()
      reads this
    {
      regions.Length == MAX_SLAVES
    }

    constructor (cycle: nat)
      ensures Valid() && fresh(regions) && this.cycle == cycle
      ensures Map() == [UNUSED, UNUSED, UNUSED, UNUSED]
    {
      this.cycle := cycle;
      regions := new Region[MAX_SLAVES](_ => UNUSED);
      new;
      assert regions[..] == [UNUSED, UNUSED, UNUSED, UNUSED];
    }

    function Map(): seq<Region>
      reads this, regions
    {
      regions[..]
    }

    method MapSlave(idx: nat, base: Address, size: Address)
      requires Valid() && idx < MAX_SLAVES && size > 0
      modifies regions
      ensures Valid() && Map() == old(Map())[idx := Region(base, size, true)]
    {
      regions[idx] := Region(base, size, true);
    }

    method Decode(addr: Address) returns (idx: int)
      requires Valid()
      ensures idx == -1 || 0 <= idx < MAX_SLAVES
      ensures idx == -1 <==> NoHit(Map(), addr)
      ensures idx >= 0 ==> FirstHit(Map(), addr, idx)
    {
      for i := 0 to MAX_SLAVES
        invariant forall k | 0 <= k < i :: !Hits(regions[k], addr)
      {
        if regions[i].used && addr >= regions[i].base && addr < (regions[i].base + regions[i].size) % ADDRESS_LIMIT {
          return i;
        }
      }
      return -1;
    }

    /** b_transport up to the call through the selected port. */
    method Enter(p: Payload, delay: nat) returns (idx: int, delay': nat)
      requires Valid()
      modifies p`address, p`status
      ensures idx == -1 || 0 <= idx < MAX_SLAVES
      ensures idx == -1 <==> NoHit(Map(), old(p.address))
      ensures idx >= 0 ==> FirstHit(Map(), old(p.address), idx)
      ensures p.View() == if idx == -1 then old(p.View()).(status := AddressError)
                          else old(p.View()).(address := old(p.address) - Map()[idx].base)
      ensures delay' == if idx == -1 then delay else delay + cycle
    {
      idx := Decode(p.address);
      delay' := delay;
      if idx < 0 {
        p.status := AddressError;
        return;
      }
      p.address := p.address - regions[idx].base;
      delay' := delay + cycle;
    }
  }

  // ----- what decoding means

  /** The region an address belongs to, whatever slot it sits in. */
  ghost predicate Selects(rs: seq<Region>, addr: Address, r: Option<Region>) {
    match r
    case None => NoHit(rs, addr)
    case Some(region) => exists slot: nat :: FirstHit(rs, addr, slot) && rs[slot] == region
  }

  predicate NonWrapping(r: Region) {
    r.base + r.size < ADDRESS_LIMIT
  }

  predicate Disjoint(r: Region, s: Region) {
    r.base + r.size <= s.base || s.base + s.size <= r.base
  }

  predicate WellSeparated(rs: seq<Region>) {
    && (forall i | 0 <= i < |rs| :: rs[i].used ==> NonWrapping(rs[i]))
    && (forall i, j | 0 <= i < j < |rs| :: rs[i].used && rs[j].used ==> Disjoint(rs[i], rs[j]))
  }

  lemma {:induction false} SomeSelection(rs: seq<Region>, addr: Address, n: nat)
    requires n <= |rs| && forall i | 0 <= i < n :: !Hits(rs[i], addr)
    ensures exists r :: Selects(rs, addr, r)
    decreases |rs| - n
  {
    if n == |rs| {
      assert Selects(rs, addr, None);
    } else if Hits(rs[n], addr) {
      assert FirstHit(rs, addr, n);
      assert Selects(rs, addr, Some(rs[n]));
    } else {
      SomeSelection(rs, addr, n + 1);
    }
  }

  /** For separated regions the answer is the one region containing the address, so a decoder holding the
      same regions in any other order gives the same answer. */
  lemma OrderDoesNotMatter(rs: seq<Region>, rs': seq<Region>, addr: Address, r: Option<Region>, r': Option<Region>)
    requires WellSeparated(rs)
    requires multiset(rs) == multiset(rs')
    requires Selects(rs, addr, r) && Selects(rs', addr, r')
    ensures r == r'
  {
    forall x: Region
      ensures x in rs <==> x in rs'
    {
      assert x in multiset(rs) <==> x in multiset(rs');
    }
    if r'.Some? {
      assert r'.value in rs;
      var j :| 0 <= j < |rs| && rs[j] == r'.value;
      assert Hits(rs[j], addr);
    }
    if r.Some? {
      assert r.value in rs';
      var k :| 0 <= k < |rs'| && rs'[k] == r.value;
      assert Hits(rs'[k], addr);
    }
  }

  /** Overlapping regions make the order visible. */
  lemma OverlapMakesOrderMatter(r: Region, s: Region, addr: Address)
    requires Hits(r, addr) && Hits(s, addr) && r != s
    ensures Selects([r, s], addr, Some(r)) && !Selects([s, r], addr, Some(r))
  {
    assert FirstHit([r, s], addr, 0);
    assert FirstHit([s, r], addr, 0);
  }

  // ----- the single-region map

  class TlmAddressMap {
    var regionBase: Address
    var regionSize: Address

    constructor ()
      ensures regionBase == 0 && regionSize == 0
    {
      regionBase, regionSize := 0, 0;
    }

    method MapRegion(base: Address, size: Address)
      modifies this
      ensures regionBase == base && regionSize == size
    {
      regionBase, regionSize := base, size;
    }

    /** b_transport up to the call through device_socket. */
    method Enter(p: Payload) returns (forwarded: bool)
      modifies p`address, p`status
      ensures forwarded == Hits(Region(regionBase, regionSize, regionSize > 0), old(p.address))
      ensures p.View() == if forwarded then old(p.View()).(address := old(p.address) - regionBase)
                          else old(p.View()).(status := AddressError)
    {
      if regionSize == 0 || p.address < regionBase || p.address >= (regionBase + regionSize) % ADDRESS_LIMIT {
        p.status := AddressError;
        return false;
      }
      p.address := p.address - regionBase;
      return true;
    }
  }
}
