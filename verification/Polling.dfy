// The firmware's bounded polling loop (log_wait_bit), and why it succeeds on the Timer and on the watchdog:
// every read that the SoC answers costs it several clock edges.
module Polling {
  import opened Words
  import opened Tlm
  import opened MemoryMap
  import opened PinBridge
  import opened Soc
  import opened Machine
  import Timer
  import Watchdog
  import Clock

  /** (v & mask) != 0. */
  predicate Hit(v: Word, mask: Word) {
    ToBits(v) * ToBits(mask) != {}
  }

  lemma HitIsAnyBit(v: Word, mask: Word)
    ensures Hit(v, mask) <==> exists b :: b in ToBits(v) && b in ToBits(mask)
  {
    hide ToBits;
    if b :| b in ToBits(v) && b in ToBits(mask) {
      assert b in ToBits(v) * ToBits(mask);
    }
    if Hit(v, mask) {
      var b :| b in ToBits(v) * ToBits(mask);
    }
  }

  /** One of the first n reads has a masked bit. */
  ghost predicate HitWithin(sample: nat -> Word, mask: Word, n: nat) {
    exists i: nat :: i < n && Hit(sample(i), mask)
  }

  /** sample(i) is what the i-th read of the register yields.  Returns 0 at the first hit and -1 if none of
      the first `spins` reads has one; polls counts the reads made in the loop. */
  method LogWaitBit(sample: nat -> Word, mask: Word, spins: Word) returns (rc: int, polls: nat)
    ensures rc == if HitWithin(sample, mask, spins) then 0 else -1
    ensures rc == 0 <==> exists i: nat, b: nat | i < spins :: b in ToBits(sample(i)) && b in ToBits(mask)
    ensures rc == 0 ==> 0 < polls <= spins && Hit(sample(polls - 1), mask) && !HitWithin(sample, mask, polls - 1)
    ensures rc != 0 ==> polls == spins
  {
    var left := spins;
    polls := 0;
    while left != 0
      invariant polls + left == spins
      invariant !HitWithin(sample, mask, polls)
      invariant forall i: nat, b: nat | i < polls :: !(b in ToBits(sample(i)) && b in ToBits(mask))
    {
      left := left - 1;
      polls := polls + 1;
      var v := sample(polls - 1);
      HitIsAnyBit(v, mask);
      if Hit(v, mask) {
        return 0, polls;
      }
    }
    return -1, polls;
  }

  // ----- reads of one register, with the clock edges of each access between them

  function ReadOf(addr: Word): Event {
    Access(Read, addr, 0)
  }

  /** The SoC at the i-th read, when `edges(i)` sys_clk edges pass from read i to read i + 1. */
  function AtRead(m: State, addr: Word, edges: nat -> nat, i: nat): State {
    if i == 0 then m
    else Edges(Step(AtRead(m, addr, edges, i - 1), ReadOf(addr)), edges(i - 1))
  }

  /** The time a read spends inside b_transport: the pin bridge lets the Timer's bus settle for a clock. */
  function SettlingTime(addr: Word): nat {
    match FlatMap(addr)
    case Some(Target(TimerPort, _)) => CLOCK_PERIOD
    case _ => 0
  }

  /** That time and the bus delay of a successful read pass before the next one. */
  predicate Waits(m: State, addr: Word, edges: nat -> nat, i: nat) {
    var o := AccessEffect(AtRead(m, addr, edges, i).regs, ReadOf(addr)).1;
    o.txn.status == Okay ==> edges(i) >= (SettlingTime(addr) + o.cost) / Clock.SYS_PERIOD
  }

  /** The value the i-th read yields: the register, or 0 when the bus reports an error. */
  function Sample(m: State, addr: Word, edges: nat -> nat, i: nat): Word {
    var o := AccessEffect(AtRead(m, addr, edges, i).regs, ReadOf(addr)).1;
    if o.txn.status == Okay && |o.txn.data| == 4 then FromBytes(o.txn.data) else 0
  }

  function EdgesUpTo(edges: nat -> nat, i: nat): nat {
    if i == 0 then 0 else EdgesUpTo(edges, i - 1) + edges(i - 1)
  }

  lemma {:induction false} EdgesAdd(m: State, a: nat, b: nat)
    ensures Edges(Edges(m, a), b) == Edges(m, a + b)
  {
    hide Step;
    if b > 0 {
      EdgesAdd(m, a, b - 1);
    }
  }

  predicate WaitsUpTo(m: State, addr: Word, edges: nat -> nat, n: nat) {
    forall i: nat | i < n :: Waits(m, addr, edges, i)
  }

  const TIMER_INTR: Word := PL_TIMER_OFFSET + Timer.REG_INTR
  const RIS: Word := PL_WDT_OFFSET + Watchdog.WDT_RIS

  /** What polled registers hold. */
  function Polled(s: SocRegs, addr: Word): Word {
    if addr == TIMER_INTR then ToWord(s.timer.intr) else if s.wdt.ris then 1 else 0
  }

  /** The clock edges that a read of the register takes. */
  function Pace(addr: Word): nat {
    if addr == TIMER_INTR then 3 else 7
  }

  /** Reading them succeeds, leaves the SoC as it is, and takes its time. */
  lemma PollReadsOnly(m: State, addr: Word)
    requires addr in {TIMER_INTR, RIS}
    ensures Step(m, ReadOf(addr)) == m
    ensures var o := AccessEffect(m.regs, ReadOf(addr)).1;
      && o.txn.status == Okay && o.txn.data == ToBytes(Polled(m.regs, addr))
      && SettlingTime(addr) + o.cost == Pace(addr) * Clock.SYS_PERIOD
  {
    FlatMapIsTheOneSlot(addr, if addr == TIMER_INTR then TimerPort else WdtPort);
  }

  lemma NextRead(m: State, addr: Word, edges: nat -> nat, i: nat)
    requires addr in {TIMER_INTR, RIS} && Waits(m, addr, edges, i)
    ensures AtRead(m, addr, edges, i + 1) == Edges(AtRead(m, addr, edges, i), edges(i)) && edges(i) >= Pace(addr)
  {
    PollReadsOnly(AtRead(m, addr, edges, i), addr);
    hide Step, AccessEffect, Edges, SettlingTime;
  }

  /** Polling is letting the clock run, at least three edges a read of the Timer and seven of the watchdog. */
  lemma {:induction false} PollingRunsTheClock(m: State, addr: Word, edges: nat -> nat, i: nat)
    requires addr in {TIMER_INTR, RIS} && WaitsUpTo(m, addr, edges, i)
    ensures AtRead(m, addr, edges, i) == Edges(m, EdgesUpTo(edges, i))
    ensures EdgesUpTo(edges, i) >= Pace(addr) * i
  {
    hide Waits, Step;
    if i > 0 {
      hide Edges, AtRead;
      PollingRunsTheClock(m, addr, edges, i - 1);
      NextRead(m, addr, edges, i - 1);
      EdgesAdd(m, EdgesUpTo(edges, i - 1), edges(i - 1));
    }
  }

  lemma SampleIsRegister(m: State, addr: Word, edges: nat -> nat, i: nat)
    requires addr in {TIMER_INTR, RIS} && WaitsUpTo(m, addr, edges, i)
    ensures Sample(m, addr, edges, i) == Polled(Edges(m, EdgesUpTo(edges, i)).regs, addr)
  {
    hide AccessEffect, Step, Edges, ToBytes, FromBytes, Polled;
    PollingRunsTheClock(m, addr, edges, i);
    var now := Edges(m, EdgesUpTo(edges, i));
    PollReadsOnly(now, addr);
    BytesRoundTrip(Polled(now.regs, addr));
  }

  lemma HitsOneBit(v: Word, mask: Word, b: nat)
    requires ToBits(mask) == {b}
    ensures Hit(v, mask) <==> b in ToBits(v)
  {
    hide ToBits;
    if b in ToBits(v) {
      assert b in ToBits(v) * ToBits(mask);
    }
  }

  // ----- the Timer

  /** Counting towards a compare that has not happened. */
  predicate ComparePending(m: State) {
    var r := m.regs.timer;
    && !m.reset && Timer.Counting(r) && Timer.CMP_BIT in r.ctrl
    && r.value < Timer.OVF_COUNT && 1 <= r.cmp <= Timer.OVF_COUNT && Timer.INTR_CMP_BIT !in r.intr
  }

  /** The edges that remain until the compare is posted: CMP - VALUE if CMP lies ahead. */
  function EdgesToCompare(m: State): nat
    requires ComparePending(m)
  {
    Timer.FirstMatch(m.regs.timer.value, m.regs.timer.cmp)
  }

  const CMP_MASK: Word := 2

  lemma CompareMask()
    ensures ToBits(CMP_MASK) == {Timer.INTR_CMP_BIT}
  {
    BitsOfWord({Timer.INTR_CMP_BIT});
    assert ToWord({Timer.INTR_CMP_BIT}) == 2 by {
      TwoIsBitOne();
    }
  }

  lemma TwoIsBitOne()
    ensures ToWord({1}) == 2
  {
    NoBitsAbove({1}, 2);
  }

  lemma {:induction false} NoBitsAbove(s: Bits, i: nat)
    requires i <= 32 && forall j | j in s :: j < i
    ensures ValueFrom(s, i) == 0
    decreases 32 - i
  {
    if i < 32 {
      NoBitsAbove(s, i + 1);
    }
  }

  /** The i-th read of INTR shows the compare bit iff that many edges have passed. */
  lemma TimerReadHits(m: State, edges: nat -> nat, i: nat)
    requires ComparePending(m)
    requires WaitsUpTo(m, TIMER_INTR, edges, i)
    ensures Hit(Sample(m, TIMER_INTR, edges, i), CMP_MASK)
       <==> EdgesUpTo(edges, i) >= EdgesToCompare(m)
  {
    var r, n := m.regs.timer, EdgesUpTo(edges, i);
    SampleIsRegister(m, TIMER_INTR, edges, i);
    hide AccessEffect, Step, Edges, ToBits, ToWord, AtRead, Sample, Timer.Edges;
    EdgesRunTheTimer(m, n);
    Timer.ComparesAtFirstMatch(r, n);
    BitsOfWord(Timer.Edges(r, n).intr);
    CompareMask();
    hide Hit;
    HitsOneBit(ToWord(Timer.Edges(r, n).intr), CMP_MASK, Timer.INTR_CMP_BIT);
  }

  /** The reads after which the compare bit is sure to show: as many as cover the remaining edges, and one. */
  function ReadsToCompare(m: State): nat
    requires ComparePending(m)
  {
    (EdgesToCompare(m) + 2) / 3 + 1
  }

  lemma TimerPollSucceeds(m: State, edges: nat -> nat, spins: nat)
    requires ComparePending(m) && spins >= ReadsToCompare(m)
    requires WaitsUpTo(m, TIMER_INTR, edges, spins)
    ensures HitWithin(i => Sample(m, TIMER_INTR, edges, i), CMP_MASK, ReadsToCompare(m))
  {
    var i: nat := ReadsToCompare(m) - 1;
    assert WaitsUpTo(m, TIMER_INTR, edges, i);
    assert 3 * i >= EdgesToCompare(m);
    hide Sample, AtRead, Waits, Hit, Edges, ReadsToCompare, EdgesToCompare, ComparePending;
    PollingRunsTheClock(m, TIMER_INTR, edges, i);
    TimerReadHits(m, edges, i);
    var sample := (k: nat) => Sample(m, TIMER_INTR, edges, k);
    assert Hit(sample(i), CMP_MASK);
  }

  /** Bounded liveness: log_wait_bit on INTR returns 0, and within so many reads. */
  method WaitForCompare(m: State, edges: nat -> nat, spins: Word) returns (rc: int, polls: nat)
    requires ComparePending(m) && spins >= ReadsToCompare(m)
    requires WaitsUpTo(m, TIMER_INTR, edges, spins)
    ensures rc == 0 && polls <= ReadsToCompare(m)
  {
    var sample := (i: nat) => Sample(m, TIMER_INTR, edges, i);
    TimerPollSucceeds(m, edges, spins);
    rc, polls := LogWaitBit(sample, CMP_MASK, spins);
  }

  /** When every read takes no longer than it must, so many reads are needed. */
  lemma TimerPollIsTight(m: State, edges: nat -> nat)
    requires ComparePending(m) && forall j: nat :: edges(j) == 3
    requires WaitsUpTo(m, TIMER_INTR, edges, ReadsToCompare(m))
    ensures !HitWithin(i => Sample(m, TIMER_INTR, edges, i), CMP_MASK, ReadsToCompare(m) - 1)
  {
    var sample := (k: nat) => Sample(m, TIMER_INTR, edges, k);
    forall i: nat | i < ReadsToCompare(m) - 1
      ensures !Hit(sample(i), CMP_MASK)
    {
      assert WaitsUpTo(m, TIMER_INTR, edges, i);
      ThreeEach(edges, i);
      TimerReadHits(m, edges, i);
    }
  }

  lemma {:induction false} ThreeEach(edges: nat -> nat, i: nat)
    requires forall j: nat :: edges(j) == 3
    ensures EdgesUpTo(edges, i) == 3 * i
  {
    if i > 0 {
      ThreeEach(edges, i - 1);
    }
  }

  // ----- the watchdog

  predicate ExpiryPending(m: State) {
    && !m.reset && Watchdog.Enabled(m.regs.wdt) && m.regs.wdt.value <= m.regs.wdt.load && !m.regs.wdt.ris
  }

  lemma LowBit()
    ensures ToBits(1) == {0} && ToBits(0) == {}
  {
    BitsOfWord({0});
    NoBitsAbove({0}, 1);
    assert ToWord({0}) == 1;
    ZeroHasNoBits();
  }

  /** The i-th read of WDT_RIS shows the bit iff more than VALUE ticks have passed. */
  lemma WdtReadHits(m: State, edges: nat -> nat, i: nat)
    requires ExpiryPending(m)
    requires WaitsUpTo(m, RIS, edges, i)
    ensures Hit(Sample(m, RIS, edges, i), 1)
       <==> Clock.Rises(m.pclk, EdgesUpTo(edges, i)) > m.regs.wdt.value
  {
    var n := EdgesUpTo(edges, i);
    SampleIsRegister(m, RIS, edges, i);
    hide AccessEffect, Step, Edges, ToBits, AtRead, Sample, Watchdog.Ticks;
    EdgesTickTheWatchdog(m, n);
    Watchdog.SetsAfterValuePlusOne(m.regs.wdt, Clock.Rises(m.pclk, n));
    LowBit();
    hide Hit;
    HitsOneBit(0, 1, 0);
    HitsOneBit(1, 1, 0);
  }

  /** The reads after which the bit is sure to show, seven edges and so three ticks and a half each. */
  function ReadsToExpiry(m: State): nat {
    (2 * (m.regs.wdt.value + 1) + 6) / 7 + 1
  }

  lemma WdtPollSucceeds(m: State, edges: nat -> nat, spins: nat)
    requires ExpiryPending(m) && spins >= ReadsToExpiry(m)
    requires WaitsUpTo(m, RIS, edges, spins)
    ensures HitWithin(i => Sample(m, RIS, edges, i), 1, ReadsToExpiry(m))
  {
    var i: nat := ReadsToExpiry(m) - 1;
    assert WaitsUpTo(m, RIS, edges, i);
    assert 7 * i >= 2 * (m.regs.wdt.value + 1);
    hide Sample, AtRead, Waits, Hit, Edges, ReadsToExpiry, ExpiryPending, Clock.Rises, Clock.Divided;
    PollingRunsTheClock(m, RIS, edges, i);
    Clock.RisesInClosedForm(m.pclk, EdgesUpTo(edges, i));
    WdtReadHits(m, edges, i);
    var sample := (k: nat) => Sample(m, RIS, edges, k);
    assert Hit(sample(i), 1);
  }

  /** Bounded liveness: log_wait_bit on WDT_RIS returns 0, and within so many reads. */
  method WaitForExpiry(m: State, edges: nat -> nat, spins: Word) returns (rc: int, polls: nat)
    requires ExpiryPending(m) && spins >= ReadsToExpiry(m)
    requires WaitsUpTo(m, RIS, edges, spins)
    ensures rc == 0 && polls <= ReadsToExpiry(m)
  {
    var sample := (i: nat) => Sample(m, RIS, edges, i);
    WdtPollSucceeds(m, edges, spins);
    rc, polls := LogWaitBit(sample, 1, spins);
  }
}
