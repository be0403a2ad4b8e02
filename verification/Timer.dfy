// The Timer: a counter with compare and overflow events, sticky interrupt status and
// a pin-level register interface (peripherals/timer/timer.h).
module Timer {
  import opened Words

  const REG_CTRL: Word := 0x00
  const REG_VALUE: Word := 0x04
  const REG_CMP: Word := 0x08
  const REG_INTR: Word := 0x0C

  const ENABLE_BIT: nat := 0
  const CMP_BIT: nat := 1
  const OV_BIT: nat := 2

  const INTR_CMP_BIT: nat := 1
  const INTR_OV_BIT: nat := 2

  const OVF_COUNT: Word := 0xFF

  /** PeripheralBusSignals: the wires between the pin bridge and the Timer. */
  datatype Pins = Pins(
    reset: bool, readEn: bool, writeEn: bool, dataIn: Word, address: Word,
    dataOut: Word, intr1: bool, intr2: bool)

  const PINS_AT_ZERO := Pins(false, false, false, 0, 0, 0, false, false)

  /** One sc_signal bundle: reads see cur, writes go to next until the update phase. */
  class PinBus {
    var cur: Pins
    var next: Pins

    constructor ()
      ensures cur == next == PINS_AT_ZERO
    {
      cur, next := PINS_AT_ZERO, PINS_AT_ZERO;
    }
  }

  datatype Regs = Regs(ctrl: Bits, intr: Bits, value: Word, cmp: Word)

  const AT_RESET := Regs({}, {}, 0, 0)

  // ----- what one activation of each process does to the registers

  /** The counter after one enabled edge, before an overflow clears it; a uint32_t increment. */
  function Advanced(r: Regs): Word {
    if r.value == WORD_LIMIT - 1 then 0 else r.value + 1
  }

  predicate Compares(r: Regs) {
    ENABLE_BIT in r.ctrl && CMP_BIT in r.ctrl && Advanced(r) == r.cmp
  }

  predicate Overflows(r: Regs) {
    ENABLE_BIT in r.ctrl && OV_BIT in r.ctrl && Advanced(r) == OVF_COUNT
  }

  function Posted(r: Regs): Bits {
    (if Compares(r) then {INTR_CMP_BIT} else {}) + (if Overflows(r) then {INTR_OV_BIT} else {})
  }

  /** One rising clock edge. */
  function Edge(r: Regs): Regs {
    if ENABLE_BIT !in r.ctrl then r
    else r.(value := if Overflows(r) then 0 else Advanced(r), intr := r.intr + Posted(r))
  }

  function ReadReg(r: Regs, offset: Word): Word {
    if offset == REG_CTRL then ToWord(r.ctrl)
    else if offset == REG_VALUE then r.value
    else if offset == REG_CMP then r.cmp
    else if offset == REG_INTR then ToWord(r.intr)
    else 0
  }

  function WriteReg(r: Regs, offset: Word, wdata: Word): Regs {
    if offset == REG_CTRL then r.(ctrl := ToBits(wdata))
    else if offset == REG_VALUE then r.(value := wdata)
    else if offset == REG_CMP then r.(cmp := wdata)
    else if offset == REG_INTR then r.(intr := ToBits(wdata))
    else r
  }

  /** The levels of intr1 and intr2 that the registers stand for. */
  predicate Intr1Level(r: Regs) { INTR_CMP_BIT in r.intr }
  predicate Intr2Level(r: Regs) { INTR_OV_BIT in r.intr }

  // ----- the SystemC module

  class TimerIp {
    var ctrl: Bits
    var intr: Bits
    var value: Word
    var cmp: Word
    var irqChanged: bool  // irq_changed_ev was notified

    constructor ()
      ensures View() == AT_RESET && !irqChanged
    {
      ctrl, intr, value, cmp, irqChanged := {}, {}, 0, 0, false;
    }

    function View(): Regs
      reads this
    {
      Regs(ctrl, intr, value, cmp)
    }

    method CommitIntr(v: Bits)
      modifies this`intr, this`irqChanged
      ensures intr == v
      ensures irqChanged == (old(irqChanged) || v != old(intr))
    {
      if intr == v {
        return;
      }
      intr := v;
      irqChanged := true;
    }

    method PostInterrupt(mask: Bits)
      modifies this`intr, this`irqChanged
      ensures intr == old(intr) + mask
      ensures irqChanged == (old(irqChanged) || intr != old(intr))
    {
      CommitIntr(intr + mask);
    }

    method IrqOutput(bus: PinBus)
      modifies bus`next
      ensures bus.next == old(bus.next).(intr1 := Intr1Level(View()), intr2 := Intr2Level(View()))
    {
      bus.next := bus.next.(intr1 := INTR_CMP_BIT in intr, intr2 := INTR_OV_BIT in intr);
    }

    method ResetMethod(bus: PinBus)
      modifies this
      ensures View() == if bus.cur.reset then AT_RESET else old(View())
      ensures irqChanged == (old(irqChanged) || intr != old(intr))
    {
      if !bus.cur.reset {
        return;
      }
      ctrl, value, cmp := {}, 0, 0;
      CommitIntr({});
    }

    method BusRead(bus: PinBus)
      modifies bus`next
      ensures bus.next == if bus.cur.readEn then old(bus.next).(dataOut := ReadReg(View(), bus.cur.address))
                          else old(bus.next)
    {
      if !bus.cur.readEn {
        return;
      }
      var offset, rdata := bus.cur.address, 0;
      if offset == REG_CTRL {
        rdata := ToWord(ctrl);
      } else if offset == REG_VALUE {
        rdata := value;
      } else if offset == REG_CMP {
        rdata := cmp;
      } else if offset == REG_INTR {
        rdata := ToWord(intr);
      }
      bus.next := bus.next.(dataOut := rdata);
    }

    method BusWrite(bus: PinBus)
      modifies this
      ensures View() == if bus.cur.writeEn then WriteReg(old(View()), bus.cur.address, bus.cur.dataIn)
                        else old(View())
      ensures irqChanged == (old(irqChanged) || intr != old(intr))
    {
      if !bus.cur.writeEn {
        return;
      }
      var offset, wdata := bus.cur.address, bus.cur.dataIn;
      if offset == REG_CTRL {
        ctrl := ToBits(wdata);
      } else if offset == REG_VALUE {
        value := wdata;
      } else if offset == REG_CMP {
        cmp := wdata;
      } else if offset == REG_INTR {
        CommitIntr(ToBits(wdata));
      }
    }

    /** One turn of timer_thread's loop. */
    method ClockEdge()
      modifies this
      ensures View() == Edge(old(View()))
      ensures irqChanged == (old(irqChanged) || intr != old(intr))
    {
      var c := ctrl;
      if ENABLE_BIT !in c {
        return;
      }
      value := (value + 1) % WORD_LIMIT;
      var pending: Bits := {};
      if CMP_BIT in c && value == cmp {
        pending := pending + {INTR_CMP_BIT};
      }
      if OV_BIT in c && value == OVF_COUNT {
        value := 0;
        pending := pending + {INTR_OV_BIT};
      }
      if pending != {} {
        PostInterrupt(pending);
      }
    }
  }

  // ----- runs of edges

  function Edges(r: Regs, n: nat): Regs {
    if n == 0 then r else Edge(Edges(r, n - 1))
  }

  lemma {:induction false} EdgesCompose(r: Regs, m: nat, n: nat)
    ensures Edges(r, m + n) == Edges(Edges(r, m), n)
  {
    if n > 0 {
      EdgesCompose(r, m, n - 1);
    }
  }

  lemma EdgesComposeThrice(r: Regs, k: nat, m: nat, n: nat)
    ensures Edges(Edges(Edges(r, k), m), n) == Edges(r, k + m + n)
  {
    hide Edge;
    EdgesCompose(r, k, m);
    EdgesCompose(r, k + m, n);
  }

  predicate Counting(r: Regs) {
    ENABLE_BIT in r.ctrl && OV_BIT in r.ctrl
  }

  /** Below the overflow count the counter runs modulo 255, and n edges post an overflow iff they reach 255. */
  lemma {:induction false} CountsModulo255(r: Regs, n: nat)
    requires Counting(r) && r.value < OVF_COUNT
    ensures var s := Edges(r, n);
      && s.ctrl == r.ctrl && s.cmp == r.cmp
      && s.value == (r.value + n) % 255
      && (INTR_OV_BIT in s.intr <==> INTR_OV_BIT in r.intr || r.value + n >= 255)
  {
    if n > 0 {
      CountsModulo255(r, n - 1);
      NextModulo(r.value + n - 1, 255);
    }
  }

  lemma {:induction false} ClimbsTo32Bits(r: Regs, n: nat)
    requires Counting(r) && r.value >= OVF_COUNT && n < WORD_LIMIT - r.value
    ensures var s := Edges(r, n);
      && s.ctrl == r.ctrl && s.cmp == r.cmp && s.value == r.value + n
      && (INTR_OV_BIT in s.intr <==> INTR_OV_BIT in r.intr)
  {
    if n > 0 {
      ClimbsTo32Bits(r, n - 1);
    }
  }

  lemma WrapsToZero(r: Regs)
    requires Counting(r) && r.value == WORD_LIMIT - 1
    ensures Edge(r).value == 0 && Edge(r).ctrl == r.ctrl
    ensures INTR_OV_BIT in Edge(r).intr <==> INTR_OV_BIT in r.intr
  {
  }

  /** The counter passes through zero without an overflow and then counts modulo 255. */
  lemma AfterTheClimb(r: Regs, m: nat)
    requires Counting(r) && r.value >= OVF_COUNT
    ensures var s := Edges(r, WORD_LIMIT - r.value + m);
      s.value == m % 255 && (INTR_OV_BIT in s.intr <==> INTR_OV_BIT in r.intr || m >= 255)
  {
    var climb := WORD_LIMIT - r.value;
    ClimbsTo32Bits(r, climb - 1);
    WrapsToZero(Edges(r, climb - 1));
    EdgesCompose(r, climb, m);
    CountsModulo255(Edges(r, climb), m);
  }

  /** From 255 or more the counter must first run out its 32 bits: the first overflow is posted by
      exactly the (2^32 - VALUE + 255)-th edge. */
  lemma RunsThrough32Bits(r: Regs, n: nat)
    requires Counting(r) && r.value >= OVF_COUNT
    ensures var s, climb := Edges(r, n), WORD_LIMIT - r.value;
      && s.value == (if n < climb then r.value + n else (n - climb) % 255)
      && (INTR_OV_BIT in s.intr <==> INTR_OV_BIT in r.intr || n >= climb + 255)
  {
    if n < WORD_LIMIT - r.value {
      ClimbsTo32Bits(r, n);
    } else {
      AfterTheClimb(r, n - (WORD_LIMIT - r.value));
    }
  }

  /** With overflow off the counter is a plain 32-bit counter and never posts an overflow. */
  lemma {:induction false} FreeRuns(r: Regs, n: nat)
    requires ENABLE_BIT in r.ctrl && OV_BIT !in r.ctrl
    ensures var s := Edges(r, n);
      && s.ctrl == r.ctrl && s.cmp == r.cmp
      && s.value == (r.value + n) % WORD_LIMIT
      && (INTR_OV_BIT in s.intr <==> INTR_OV_BIT in r.intr)
  {
    if n > 0 {
      FreeRuns(r, n - 1);
      NextModulo(r.value + n - 1, WORD_LIMIT);
    }
  }

  /** The edge, counting from 1, on which a counter at v < 255 first meets cmp. */
  function FirstMatch(v: Word, cmp: Word): nat
    requires v < OVF_COUNT && 1 <= cmp <= OVF_COUNT
  {
    if v < cmp then cmp - v else cmp + 255 - v
  }

  /** The n-th edge compares iff n is the first match, as long as n does not exceed it. */
  lemma NextMatch(r: Regs, n: nat)
    requires Counting(r) && CMP_BIT in r.ctrl && r.value < OVF_COUNT
    ensures !(1 <= r.cmp <= OVF_COUNT) ==> !Compares(Edges(r, n))
    ensures 1 <= r.cmp <= OVF_COUNT && n < FirstMatch(r.value, r.cmp) ==>
      (Compares(Edges(r, n)) <==> n + 1 == FirstMatch(r.value, r.cmp))
  {
    CountsModulo255(r, n);
    FoldInto255(r.value + n);
  }

  /** A compare is posted within n edges iff 1 <= CMP <= 255 and the first match is among them. */
  lemma {:induction false} ComparesAtFirstMatch(r: Regs, n: nat)
    requires Counting(r) && CMP_BIT in r.ctrl && r.value < OVF_COUNT
    ensures INTR_CMP_BIT in Edges(r, n).intr <==>
      INTR_CMP_BIT in r.intr || (1 <= r.cmp <= OVF_COUNT && n >= FirstMatch(r.value, r.cmp))
  {
    if n > 0 {
      var prev := Edges(r, n - 1);
      ComparesAtFirstMatch(r, n - 1);
      NextMatch(r, n - 1);
      assert prev.ctrl == r.ctrl by {
        CountsModulo255(r, n - 1);
      }
      assert INTR_CMP_BIT in Edge(prev).intr <==> INTR_CMP_BIT in prev.intr || Compares(prev);
    }
  }

  lemma FoldInto255(w: nat)
    ensures 0 <= w % 255 < 255
    ensures w < 255 ==> w % 255 == w
    ensures 255 <= w < 510 ==> w % 255 == w - 255
  {
  }

  /** The compare eventually fires iff CMP is in 1..255. */
  lemma ComparesEventually(r: Regs)
    requires Counting(r) && CMP_BIT in r.ctrl && r.value < OVF_COUNT && INTR_CMP_BIT !in r.intr
    ensures (exists n: nat :: INTR_CMP_BIT in Edges(r, n).intr) <==> 1 <= r.cmp <= OVF_COUNT
  {
    if 1 <= r.cmp <= OVF_COUNT {
      ComparesAtFirstMatch(r, FirstMatch(r.value, r.cmp));
    }
    forall n: nat | INTR_CMP_BIT in Edges(r, n).intr
      ensures 1 <= r.cmp <= OVF_COUNT
    {
      ComparesAtFirstMatch(r, n);
    }
  }

  /** CMP = 255: compare and overflow are posted by the same edge, and that edge clears the counter. */
  lemma BothOnOneEdge(r: Regs)
    requires Counting(r) && CMP_BIT in r.ctrl && r.value < OVF_COUNT && r.cmp == OVF_COUNT
    ensures var last := Edges(r, 254 - r.value);
      && Posted(last) == {INTR_CMP_BIT, INTR_OV_BIT}
      && Edge(last).value == 0
    ensures forall n: nat | n < 254 - r.value :: Posted(Edges(r, n)) == {}
  {
    forall n: nat | n <= 254 - r.value
      ensures Edges(r, n).value == r.value + n && Edges(r, n).ctrl == r.ctrl && Edges(r, n).cmp == r.cmp
    {
      CountsModulo255(r, n);
    }
  }

  // ----- runs of edges, bus accesses and resets

  datatype Op = Tick | BusRead(offset: Word) | BusWrite(offset: Word, wdata: Word) | Reset

  function Step(r: Regs, op: Op): Regs {
    match op
    case Tick => Edge(r)
    case BusRead(_) => r
    case BusWrite(offset, wdata) => WriteReg(r, offset, wdata)
    case Reset => AT_RESET
  }

  function Run(r: Regs, ops: seq<Op>): Regs {
    if ops == [] then r else Step(Run(r, ops[..|ops| - 1]), ops[|ops| - 1])
  }

  predicate MayClear(op: Op, i: nat) {
    op.Reset? || (op.BusWrite? && op.offset == REG_INTR && i !in ToBits(op.wdata))
  }

  /** Interrupt status is sticky: over any run a pending bit is lost only to a reset or an INTR write without it. */
  lemma {:induction false} StatusIsSticky(r: Regs, ops: seq<Op>, i: nat)
    requires i in r.intr && i !in Run(r, ops).intr
    ensures exists k :: 0 <= k < |ops| && MayClear(ops[k], i)
  {
    if ops != [] {
      var front := ops[..|ops| - 1];
      if i in Run(r, front).intr {
        assert MayClear(ops[|ops| - 1], i);
      } else {
        StatusIsSticky(r, front, i);
        var k :| 0 <= k < |front| && MayClear(front[k], i);
        assert MayClear(ops[k], i);
      }
    }
  }

  // ----- when events come

  /** The status bits that n edges post. */
  function PostedBy(r: Regs, n: nat): Bits {
    if n == 0 then {} else PostedBy(r, n - 1) + Posted(Edges(r, n - 1))
  }

  /** Status bits accumulate, and do not matter to counting. */
  lemma {:induction false} StatusAccumulates(r: Regs, n: nat)
    ensures Edges(r, n).intr == r.intr + PostedBy(r, n)
    ensures Edges(r, n) == Edges(r.(intr := {}), n).(intr := Edges(r, n).intr)
    ensures PostedBy(r, n) == Edges(r.(intr := {}), n).intr
  {
    if n > 0 {
      StatusAccumulates(r, n - 1);
      var a, b := Edges(r, n - 1), Edges(r.(intr := {}), n - 1);
      assert Posted(a) == Posted(b);
      assert a.intr + Posted(a) == r.intr + (PostedBy(r, n - 1) + Posted(a));
    }
  }

  lemma {:induction false} DisabledStands(r: Regs, n: nat)
    requires ENABLE_BIT !in r.ctrl
    ensures Edges(r, n) == r
  {
    if n > 0 {
      DisabledStands(r, n - 1);
    }
  }

  /** The first edge that posts an overflow, if any ever does. */
  function FirstOverflow(r: Regs): Option<nat> {
    if !Counting(r) then None
    else if r.value < OVF_COUNT then Some(255 - r.value)
    else Some(WORD_LIMIT - r.value + 255)
  }

  /** The first edge that posts a compare, if any ever does. */
  function FirstCompare(r: Regs): Option<nat> {
    if ENABLE_BIT !in r.ctrl || CMP_BIT !in r.ctrl then None
    else if OV_BIT !in r.ctrl then
      Some(if r.cmp > r.value then r.cmp - r.value else WORD_LIMIT - r.value + r.cmp)
    else if r.value < OVF_COUNT then
      if 1 <= r.cmp <= OVF_COUNT then Some(FirstMatch(r.value, r.cmp)) else None
    else if r.cmp > r.value then Some(r.cmp - r.value)
    else if r.cmp <= OVF_COUNT then Some(WORD_LIMIT - r.value + r.cmp)
    else None
  }

  /** n edges have brought the event that comes first on the given edge. */
  predicate Due(first: Option<nat>, n: nat) {
    first.Some? && n >= first.value
  }

  /** Overflows, for every register state. */
  lemma OverflowsWhenDue(r: Regs, n: nat)
    ensures INTR_OV_BIT in PostedBy(r, n) <==> Due(FirstOverflow(r), n)
  {
    var z := r.(intr := {});
    StatusAccumulates(r, n);
    hide Edges, PostedBy;
    if ENABLE_BIT !in r.ctrl {
      DisabledStands(z, n);
    } else if OV_BIT !in r.ctrl {
      FreeRuns(z, n);
    } else if r.value < OVF_COUNT {
      CountsModulo255(z, n);
    } else {
      RunsThrough32Bits(z, n);
    }
  }

  /** What the n-th edge compares with, on a counter that runs free of overflows so far. */
  lemma {:induction false} ClimbingCompares(r: Regs, n: nat)
    requires ENABLE_BIT in r.ctrl && CMP_BIT in r.ctrl && r.intr == {}
    requires OV_BIT in r.ctrl ==> r.value >= OVF_COUNT
    requires n <= WORD_LIMIT - r.value
    ensures INTR_CMP_BIT in Edges(r, n).intr <==>
      (r.cmp > r.value && n >= r.cmp - r.value) || (r.cmp == 0 && n == WORD_LIMIT - r.value)
    ensures Edges(r, n).value == (if n == WORD_LIMIT - r.value then 0 else r.value + n)
    ensures Edges(r, n).ctrl == r.ctrl && Edges(r, n).cmp == r.cmp
  {
    if n > 0 {
      ClimbingCompares(r, n - 1);
    }
  }

  /** Beyond the wrap-around the counter starts again from zero. */
  lemma {:induction false} FreeCompares(r: Regs, n: nat)
    requires ENABLE_BIT in r.ctrl && CMP_BIT in r.ctrl && OV_BIT !in r.ctrl && r.intr == {}
    ensures INTR_CMP_BIT in Edges(r, n).intr <==> Due(FirstCompare(r), n)
  {
    var climb := WORD_LIMIT - r.value;
    if n <= climb {
      ClimbingCompares(r, n);
    } else {
      var s, m := Edges(r, climb), n - climb;
      ClimbingCompares(r, climb);
      hide Edges, PostedBy;
      EdgesCompose(r, climb, m);
      StatusAccumulates(s, m);
      if INTR_CMP_BIT !in s.intr {
        FromZeroCompares(s.(intr := {}), m, r.cmp);
      }
    }
  }

  /** From zero a non-zero CMP is met after CMP edges, and stays met. */
  lemma {:induction false} FromZeroCompares(r: Regs, n: nat, cmp: Word)
    requires ENABLE_BIT in r.ctrl && CMP_BIT in r.ctrl && OV_BIT !in r.ctrl && r.intr == {}
    requires r.value == 0 && r.cmp == cmp && cmp > 0
    ensures INTR_CMP_BIT in Edges(r, n).intr <==> n >= cmp
  {
    if n <= WORD_LIMIT {
      ClimbingCompares(r, n);
    } else {
      ClimbingCompares(r, WORD_LIMIT);
      EdgesCompose(r, WORD_LIMIT, n - WORD_LIMIT);
      StatusAccumulates(Edges(r, WORD_LIMIT), n - WORD_LIMIT);
    }
  }

  /** From 255 or more, with overflow enabled: on the climb, at the wrap-around or in the first round below 255. */
  lemma HighCompares(r: Regs, n: nat)
    requires Counting(r) && CMP_BIT in r.ctrl && r.value >= OVF_COUNT && r.intr == {}
    ensures INTR_CMP_BIT in Edges(r, n).intr <==> Due(FirstCompare(r), n)
  {
    var climb := WORD_LIMIT - r.value;
    if n <= climb {
      ClimbingCompares(r, n);
    } else {
      ClimbingCompares(r, climb);
      EdgesCompose(r, climb, n - climb);
      var s := Edges(r, climb);
      ComparesAtFirstMatch(s, n - climb);
      hide Edges;
    }
  }

  /** Compares, for every register state. */
  lemma ComparesWhenDue(r: Regs, n: nat)
    ensures INTR_CMP_BIT in PostedBy(r, n) <==> Due(FirstCompare(r), n)
  {
    var z := r.(intr := {});
    StatusAccumulates(r, n);
    assert FirstCompare(z) == FirstCompare(r);
    hide PostedBy;
    if ENABLE_BIT !in r.ctrl {
      DisabledStands(z, n);
    } else if CMP_BIT !in r.ctrl {
      NeverCompares(z, n);
    } else if OV_BIT !in r.ctrl {
      FreeCompares(z, n);
    } else if r.value < OVF_COUNT {
      ComparesAtFirstMatch(z, n);
    } else {
      HighCompares(z, n);
    }
  }

  lemma {:induction false} NeverCompares(r: Regs, n: nat)
    requires CMP_BIT !in r.ctrl && r.intr == {}
    ensures INTR_CMP_BIT !in Edges(r, n).intr && Edges(r, n).ctrl == r.ctrl
  {
    if n > 0 {
      NeverCompares(r, n - 1);
    }
  }

  // ----- firmware's read-modify-write clear of INTR

  /** The clear, with n edges between the read and the write. */
  function ReadModifyClear(r: Regs, mask: Bits, n: nat): Regs {
    var seen := ToBits(ReadReg(r, REG_INTR));
    WriteReg(Edges(r, n), REG_INTR, ToWord(seen - mask))
  }

  /** The edge on which status bit i next comes up. */
  function FirstEvent(r: Regs, i: nat): Option<nat> {
    if i == INTR_CMP_BIT then FirstCompare(r)
    else if i == INTR_OV_BIT then FirstOverflow(r)
    else None
  }

  lemma {:induction false} OnlyTwoBitsPosted(r: Regs, n: nat)
    ensures PostedBy(r, n) <= {INTR_CMP_BIT, INTR_OV_BIT}
  {
    if n > 0 {
      OnlyTwoBitsPosted(r, n - 1);
    }
  }

  lemma EventsWhenDue(r: Regs, n: nat, i: nat)
    ensures i in PostedBy(r, n) <==> Due(FirstEvent(r, i), n)
  {
    hide PostedBy, FirstCompare, FirstOverflow;
    ComparesWhenDue(r, n);
    OverflowsWhenDue(r, n);
    OnlyTwoBitsPosted(r, n);
  }

  lemma ClearedStatus(r: Regs, mask: Bits, n: nat)
    ensures ReadModifyClear(r, mask, n).intr == r.intr - mask
  {
    BitsOfWord(r.intr);
    BitsOfWord(r.intr - mask);
    hide ToBits, ToWord, Edges;
  }

  /** Event i is posted between the read and the write, and INTR does not show it after the write. */
  predicate Loses(r: Regs, mask: Bits, n: nat, i: nat) {
    i in PostedBy(r, n) && i !in ReadModifyClear(r, mask, n).intr
  }

  /** Whatever the registers, the mask and the bit: an event is lost iff it comes due before the write, unless
      its bit was pending already and is not being cleared. */
  lemma ClearLosesEvent(r: Regs, mask: Bits, n: nat, i: nat)
    ensures Loses(r, mask, n, i) <==> Due(FirstEvent(r, i), n) && !(i in r.intr && i !in mask)
  {
    hide PostedBy, FirstEvent, ReadModifyClear;
    EventsWhenDue(r, n, i);
    ClearedStatus(r, mask, n);
  }

  /** So a compare clear can lose an overflow, and an overflow clear a compare. */
  lemma LostEventExamples()
    ensures Loses(Regs({ENABLE_BIT, OV_BIT}, {INTR_CMP_BIT}, 254, 0), {INTR_CMP_BIT}, 1, INTR_OV_BIT)
    ensures Loses(Regs({ENABLE_BIT, CMP_BIT, OV_BIT}, {INTR_OV_BIT}, 9, 10), {INTR_OV_BIT}, 1, INTR_CMP_BIT)
  {
    hide Loses;
    ClearLosesEvent(Regs({ENABLE_BIT, OV_BIT}, {INTR_CMP_BIT}, 254, 0), {INTR_CMP_BIT}, 1, INTR_OV_BIT);
    ClearLosesEvent(Regs({ENABLE_BIT, CMP_BIT, OV_BIT}, {INTR_OV_BIT}, 9, 10), {INTR_OV_BIT}, 1, INTR_CMP_BIT);
  }
}
