// The Timer as the guest sees it (peripherals/timer/timer.h).
module TimerView {
  import opened Words
  import opened Tlm
  import opened MemoryMap
  import opened Soc
  import opened PinBridge
  import opened Machine
  import opened Registers
  import Timer
  import Watchdog

  // ----- one event

  lemma TimerReadAt(s: SocRegs, t: Txn)
    requires |t.data| == 4 && t.width == 4 && t.address < PL_SLOT_SIZE && t.command == Read
    ensures var o := DeviceAccess(s, TimerPort, t, NO_EDGES).1;
      o.txn.status == Okay && o.txn.data == ToBytes(Timer.ReadReg(s.timer, t.address))
  {
    hide ToBytes, FromBytes, Timer.ReadReg;
  }

  lemma TimerRead(s: SocRegs, a: Word)
    requires a < 0x1000
    ensures var o := AccessEffect(s, Access(Read, a, 0)).1;
      o.txn.status == Okay && o.txn.data == ToBytes(Timer.ReadReg(s.timer, a))
  {
    hide DeviceAccess, FlatMap, ToBytes, FromBytes, Timer.ReadReg;
    WindowsInNumbers(a);
    TimerReadAt(s, ServerTxn(Read, a, 0));
  }

  lemma TimerAt(s: SocRegs, d: Device, t: Txn)
    requires |t.data| == 4 && t.width == 4 && t.address < PL_SLOT_SIZE
    ensures DeviceAccess(s, d, t, NO_EDGES).0.timer ==
      if d.TimerPort? && t.command == Write then Timer.WriteReg(s.timer, t.address, FromBytes(t.data)) else s.timer
  {
    hide ToBytes, FromBytes, Timer.ReadReg, Timer.WriteReg;
  }

  lemma TimerAccess(s: SocRegs, e: Event)
    requires e.Access?
    ensures AccessEffect(s, e).0.timer ==
      if e.command == Write && e.address < 0x1000 then Timer.WriteReg(s.timer, e.address, e.value) else s.timer
  {
    hide DeviceAccess, FlatMap, ToBytes, FromBytes, Timer.WriteReg;
    WindowsInNumbers(e.address);
    if FlatMap(e.address).Some? {
      var t := FlatMap(e.address).value;
      FlatMapIsTheOneSlot(e.address, t.device);
      TimerAt(s, t.device, ServerTxn(e.command, e.address, e.value).(address := t.offset));
      BytesRoundTrip(e.value);
    }
  }

  lemma TimerStep(m: State, e: Event)
    ensures Step(m, e).regs.timer ==
      if Resets(m, e) then Timer.AT_RESET
      else if e.SysEdge? then Timer.Edge(m.regs.timer)
      else if e.Access? && e.command == Write && e.address < 0x1000
      then Timer.WriteReg(m.regs.timer, e.address, e.value)
      else m.regs.timer
  {
    hide AccessEffect, Timer.Edge, Timer.WriteReg, Watchdog.Tick, RstLine;
    if e.Access? {
      TimerAccess(m.regs, e);
    }
  }

  // ----- every history

  /** The last event is a clock edge that finds the counter enabled. */
  predicate Counts(es: seq<Event>) {
    es != [] && es[|es| - 1].SysEdge? && 0 in ToBits(LastWord(es[..|es| - 1], 0x0, 0))
  }

  /** The counter has stood still since the last write to the address, or reset. */
  predicate StoodStill(es: seq<Event>, address: Word) {
    es == [] || Cleared(es) || Writes(es[|es| - 1], address) || (!Counts(es) && StoodStill(es[..|es| - 1], address))
  }

  lemma DisabledEdge(r: Timer.Regs)
    ensures 0 !in r.ctrl ==> Timer.Edge(r) == r
    ensures Timer.Edge(r).ctrl == r.ctrl && Timer.Edge(r).cmp == r.cmp
  {
  }

  /** CTRL and CMP hold the last word written to them; so do VALUE and INTR as long as the counter stands. */
  lemma {:induction false} TimerHistory(es: seq<Event>)
    ensures var r := Now(es).regs.timer;
      && r.ctrl == ToBits(LastWord(es, 0x0, 0)) && r.cmp == LastWord(es, 0x8, 0)
      && (StoodStill(es, 0x4) ==> r.value == LastWord(es, 0x4, 0))
      && (StoodStill(es, 0xC) ==> r.intr == ToBits(LastWord(es, 0xC, 0)))
  {
    ZeroHasNoBits();
    hide Step, ToBits, Held, Timer.Edge;
    if es != [] {
      var front, e := es[..|es| - 1], es[|es| - 1];
      TimerHistory(front);
      HeldIsReset(front);
      TimerStep(Now(front), e);
      DisabledEdge(Now(front).regs.timer);
    }
  }

  /** Every register of the block, read after any history. */
  lemma TimerReads(es: seq<Event>)
    ensures Reads(Now(es), 0x0, LastWord(es, 0x0, 0))
    ensures Reads(Now(es), 0x8, LastWord(es, 0x8, 0))
    ensures StoodStill(es, 0x4) ==> Reads(Now(es), 0x4, LastWord(es, 0x4, 0))
    ensures StoodStill(es, 0xC) ==> Reads(Now(es), 0xC, LastWord(es, 0xC, 0))
    ensures forall a: Word | a < 0x1000 && a !in {0x0, 0x4, 0x8, 0xC} :: Reads(Now(es), a, 0)
  {
    TimerHistory(es);
    WordOfBits(LastWord(es, 0x0, 0));
    WordOfBits(LastWord(es, 0xC, 0));
    hide AccessEffect, Run, ToBytes, ToBits, ToWord, LastWord, StoodStill;
    var s := Now(es).regs;
    TimerRead(s, 0x0);
    TimerRead(s, 0x4);
    TimerRead(s, 0x8);
    TimerRead(s, 0xC);
    forall a: Word | a < 0x1000 && a !in {0x0, 0x4, 0x8, 0xC}
      ensures Reads(Now(es), a, 0)
    {
      TimerRead(s, a);
    }
  }

  // ----- a programmed compare

  /** Neither a reset nor a write to a register of the Timer. */
  predicate Undisturbing(e: Event) {
    !e.AssertReset? && (e.Access? && e.command == Write ==> e.address !in {0x0, 0x4, 0x8, 0xC})
  }

  lemma QuietStep(m: State, e: Event)
    requires Undisturbing(e)
    ensures Step(m, e).regs.timer == if e.SysEdge? then Timer.Edge(m.regs.timer) else m.regs.timer
  {
    hide Step, Timer.Edge;
    TimerStep(m, e);
  }

  /** The Timer moves by the clock edges alone. */
  lemma {:induction false} QuietRun(es: seq<Event>, more: seq<Event>)
    requires forall e | e in more :: Undisturbing(e)
    ensures Now(es + more).regs.timer == Timer.Edges(Now(es).regs.timer, EdgesIn(more))
  {
    hide Step, Timer.Edge, Undisturbing;
    if more == [] {
      assert es + more == es;
    } else {
      var front, e := more[..|more| - 1], more[|more| - 1];
      assert e in more;
      QuietRun(es, front);
      QuietStep(Now(es + front), e);
      assert (es + more)[..|es + more| - 1] == es + front;
    }
  }

  /** What INTR reads. */
  ghost predicate IntrReads(m: State, compare: bool, overflow: bool) {
    exists w :: Reads(m, 0xC, w) && (1 in ToBits(w) <==> compare) && (2 in ToBits(w) <==> overflow)
  }

  lemma IntrRead(m: State)
    ensures IntrReads(m, 1 in m.regs.timer.intr, 2 in m.regs.timer.intr)
  {
    hide AccessEffect, ToBytes, ToBits, ToWord;
    TimerRead(m.regs, 0xC);
    BitsOfWord(m.regs.timer.intr);
    assert Reads(m, 0xC, ToWord(m.regs.timer.intr));
  }

  /** VALUE reads v, CMP reads c, v < c <= 255, and INTR is clear.  From the moment the guest starts the counter with
      compare and overflow enabled, INTR reads the compare from exactly the (c - v)-th clock edge on, and the overflow
      from exactly the (255 - v)-th, whatever else happens short of a reset or a write to the Timer. */
  lemma CompareComesDue(es: seq<Event>, v: Word, c: Word, ctrl: Word, more: seq<Event>)
    requires Now(es).regs.timer.value == v && Now(es).regs.timer.cmp == c && Now(es).regs.timer.intr == {}
    requires v < c <= 255 && {0, 1, 2} <= ToBits(ctrl) && forall e | e in more :: Undisturbing(e)
    ensures IntrReads(Now(es + [Access(Write, 0x0, ctrl)] + more), EdgesIn(more) >= c - v, EdgesIn(more) >= 255 - v)
  {
    var start := Access(Write, 0x0, ctrl);
    assert (es + [start])[..|es|] == es;
    TimerStep(Now(es), start);
    var r := Now(es + [start]).regs.timer;
    assert r == Timer.Regs(ToBits(ctrl), {}, v, c);
    hide Run, Step, ToBits, Undisturbing, IntrReads, Timer.Edges, Timer.Edge;
    QuietRun(es + [start], more);
    Timer.ComparesAtFirstMatch(r, EdgesIn(more));
    Timer.CountsModulo255(r, EdgesIn(more));
    IntrRead(Now(es + [start] + more));
  }

  /** The same from the history of the registers: the last words written to VALUE and CMP, INTR cleared since the
      counter last moved, however far apart and in whatever order. */
  lemma ProgrammedCompare(es: seq<Event>, v: Word, c: Word, ctrl: Word, more: seq<Event>)
    requires LastWord(es, 0x4, 0) == v && StoodStill(es, 0x4) && LastWord(es, 0x8, 0) == c
    requires LastWord(es, 0xC, 0) == 0 && StoodStill(es, 0xC)
    requires v < c <= 255 && {0, 1, 2} <= ToBits(ctrl) && forall e | e in more :: Undisturbing(e)
    ensures IntrReads(Now(es + [Access(Write, 0x0, ctrl)] + more), EdgesIn(more) >= c - v, EdgesIn(more) >= 255 - v)
  {
    ZeroHasNoBits();
    hide Run, ToBits, Undisturbing, IntrReads, LastWord, StoodStill;
    TimerHistory(es);
    CompareComesDue(es, v, c, ctrl, more);
  }

  /** Three writes and a count: VALUE, CMP, CTRL. */
  lemma WritesProgramTheTimer(es: seq<Event>, v: Word, c: Word, ctrl: Word, more: seq<Event>)
    requires Now(es).regs.timer.intr == {}
    requires v < c <= 255 && {0, 1, 2} <= ToBits(ctrl) && forall e | e in more :: Undisturbing(e)
    ensures var ready := es + [Access(Write, 0x4, v)] + [Access(Write, 0x8, c)];
      IntrReads(Now(ready + [Access(Write, 0x0, ctrl)] + more), EdgesIn(more) >= c - v, EdgesIn(more) >= 255 - v)
  {
    var first := es + [Access(Write, 0x4, v)];
    var ready := first + [Access(Write, 0x8, c)];
    assert first[..|es|] == es && ready[..|first|] == first;
    TimerStep(Now(es), Access(Write, 0x4, v));
    TimerStep(Now(first), Access(Write, 0x8, c));
    hide Step, ToBits, Undisturbing, IntrReads;
    CompareComesDue(ready, v, c, ctrl, more);
  }
}
