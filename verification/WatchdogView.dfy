// The watchdog as the guest sees it (peripherals/wdt_apb.h): lock, reload, countdown, expiry.
module WatchdogView {
  import opened Words
  import opened Tlm
  import opened MemoryMap
  import opened Soc
  import opened Machine
  import opened Registers
  import Timer
  import Watchdog
  import Clock

  // ----- histories

  /** The last word written to LOCK was not the key, or none has been written since reset. */
  predicate Locked(es: seq<Event>) {
    es == [] || Cleared(es) ||
    var e := es[|es| - 1];
    if Writes(e, 0x1_3C00) then e.value != 0x1ACC_E551 else Locked(es[..|es| - 1])
  }

  /** The last event is a write to the address that the lock lets through. */
  predicate Takes(es: seq<Event>, address: Word) {
    es != [] && Writes(es[|es| - 1], address) && !Locked(es[..|es| - 1])
  }

  function LoadOf(es: seq<Event>): Word {
    if es == [] || Cleared(es) then 0xFFFF
    else if Takes(es, 0x1_3000) then es[|es| - 1].value
    else LoadOf(es[..|es| - 1])
  }

  function ControlOf(es: seq<Event>): Bits {
    if es == [] || Cleared(es) then {}
    else if Takes(es, 0x1_3008) then ToBits(es[|es| - 1].value) * {0, 1}
    else ControlOf(es[..|es| - 1])
  }

  /** pclk is high after an odd number of sys_clk edges. */
  predicate PclkHigh(es: seq<Event>) {
    es != [] && (if es[|es| - 1].SysEdge? then !PclkHigh(es[..|es| - 1]) else PclkHigh(es[..|es| - 1]))
  }

  /** The last event is a rising pclk edge that finds reset low and the watchdog enabled. */
  predicate Counts(es: seq<Event>) {
    es != [] && es[|es| - 1].SysEdge? &&
    var front := es[..|es| - 1];
    !PclkHigh(front) && !Held(front) && 0 in ControlOf(front)
  }

  /** Counted edges since VALUE was last reloaded by a LOAD or INTCLR write or by reset. */
  function SinceReload(es: seq<Event>): nat {
    if es == [] || Cleared(es) || Takes(es, 0x1_3000) || Takes(es, 0x1_300C) then 0
    else SinceReload(es[..|es| - 1]) + (if Counts(es) then 1 else 0)
  }

  /** The last event completes a round of LOAD + 1 counted edges. */
  predicate Completes(es: seq<Event>) {
    Counts(es) && SinceReload(es) % (LoadOf(es) + 1) == 0
  }

  /** A round has been completed since the last INTCLR write and reset. */
  predicate Expired(es: seq<Event>) {
    es != [] && !Cleared(es) && !Takes(es, 0x1_300C) && (Completes(es) || Expired(es[..|es| - 1]))
  }

  /** The registers that the history stands for. */
  function WdtOf(es: seq<Event>): Watchdog.Regs {
    var load := LoadOf(es);
    Watchdog.Regs(load, load - SinceReload(es) % (load + 1), ControlOf(es), Expired(es), Locked(es))
  }

  // ----- one event

  lemma WdtReadAt(s: SocRegs, d: Device, t: Txn)
    requires |t.data| == 4 && t.width == 4 && t.address < PL_SLOT_SIZE && t.command == Read && t.address % 4 == 0
    ensures d.WdtPort? ==>
      var o := DeviceAccess(s, d, t, NO_EDGES).1;
      o.txn.status == Okay && o.txn.data == ToBytes(Watchdog.ReadReg(s.wdt, t.address))
  {
    hide ToBytes, FromBytes, Watchdog.ReadReg;
  }

  lemma WdtRead(s: SocRegs, a: Word)
    requires 0x1_3000 <= a < 0x1_4000 && a % 4 == 0
    ensures var o := AccessEffect(s, Access(Read, a, 0)).1;
      o.txn.status == Okay && o.txn.data == ToBytes(Watchdog.ReadReg(s.wdt, a - 0x1_3000))
  {
    hide DeviceAccess, FlatMap, ToBytes, FromBytes, Watchdog.ReadReg;
    WindowsInNumbers(a);
    WdtReadAt(s, WdtPort, ServerTxn(Read, a, 0).(address := a - 0x1_3000));
  }

  lemma WdtStep(m: State, e: Event)
    ensures Step(m, e).regs.wdt ==
      if Resets(m, e) then Watchdog.AT_RESET
      else if e.SysEdge? && !m.pclk && !m.reset then Watchdog.Tick(m.regs.wdt)
      else if e.Access? && e.command == Write && 0x1_3000 <= e.address < 0x1_4000 && e.address % 4 == 0
      then Watchdog.WriteReg(m.regs.wdt, e.address - 0x1_3000, e.value)
      else m.regs.wdt
    ensures Step(m, e).pclk == if e.SysEdge? then !m.pclk else m.pclk
  {
    hide AccessEffect, Watchdog.Tick, Watchdog.WriteReg, Timer.Edge, RstLine;
    if e.Access? {
      WdtAccess(m.regs, e);
    }
  }

  // ----- every history

  /** A counted edge. */
  lemma CountedEdge(r: Watchdog.Regs, t: nat, load: Word)
    requires 0 in r.ctrl && r.load == load && r.value == load - t % (load + 1)
    ensures Watchdog.Tick(r) ==
      r.(value := load - (t + 1) % (load + 1), ris := r.ris || (t + 1) % (load + 1) == 0)
  {
    NextModulo(t, load + 1);
  }

  lemma NoRemainder(d: nat)
    requires d > 0
    ensures 0 % d == 0
  {
    ModuloIs(0, d, 0, 0);
  }

  lemma AccessInHistory(es: seq<Event>)
    requires es != [] && es[|es| - 1].Access?
    requires Now(es[..|es| - 1]).regs.wdt == WdtOf(es[..|es| - 1])
    ensures Now(es).regs.wdt == WdtOf(es)
  {
    hide Step, Held;
    WdtStep(Now(es[..|es| - 1]), es[|es| - 1]);
    NoRemainder(LoadOf(es) + 1);
  }

  /** What a clock edge does to the histories. */
  lemma EdgeHistory(es: seq<Event>)
    requires es != [] && es[|es| - 1].SysEdge?
    ensures var front := es[..|es| - 1];
      && LoadOf(es) == LoadOf(front) && ControlOf(es) == ControlOf(front) && Locked(es) == Locked(front)
      && SinceReload(es) == SinceReload(front) + (if Counts(es) then 1 else 0)
      && (Expired(es) <==> Completes(es) || Expired(front))
  {
    hide Held;
  }

  lemma NowIsAStep(es: seq<Event>)
    requires es != []
    ensures Now(es) == Step(Now(es[..|es| - 1]), es[|es| - 1])
  {
    hide Step;
  }

  lemma EdgeInHistory(es: seq<Event>)
    requires es != [] && es[|es| - 1].SysEdge?
    requires var m, front := Now(es[..|es| - 1]), es[..|es| - 1];
      m.regs.wdt == WdtOf(front) && m.pclk == PclkHigh(front) && m.reset == Held(front)
    ensures Now(es).regs.wdt == WdtOf(es)
  {
    hide Step, Now, Held, PclkHigh, LoadOf, ControlOf, Locked, SinceReload, Expired, Watchdog.Tick;
    var front := es[..|es| - 1];
    EdgeHistory(es);
    NowIsAStep(es);
    WdtStep(Now(front), es[|es| - 1]);
    if Counts(es) {
      CountedEdge(WdtOf(front), SinceReload(front), LoadOf(front));
    } else if 0 !in ControlOf(front) {
      DisabledTick(WdtOf(front));
    }
  }

  lemma DisabledTick(r: Watchdog.Regs)
    requires 0 !in r.ctrl
    ensures Watchdog.Tick(r) == r
  {
  }

  /** LOAD, VALUE, CONTROL, RIS and the lock, as functions of the history. */
  lemma {:induction false} WatchdogHistory(es: seq<Event>)
    ensures Now(es).regs.wdt == WdtOf(es) && Now(es).pclk == PclkHigh(es)
  {
    hide Step, Held, AccessEffect;
    if es == [] {
      NoRemainder(0x1_0000);
    } else {
      var front, e := es[..|es| - 1], es[|es| - 1];
      WatchdogHistory(front);
      HeldIsReset(front);
      WdtStep(Now(front), e);
      if e.Access? {
        AccessInHistory(es);
      } else if e.SysEdge? {
        EdgeInHistory(es);
      } else {
        NoRemainder(LoadOf(es) + 1);
      }
    }
  }

  // ----- what the guest reads

  /** Every register of the block, read after any history. */
  lemma WatchdogReads(es: seq<Event>)
    ensures Reads(Now(es), 0x1_3000, LoadOf(es))
    ensures Reads(Now(es), 0x1_3004, LoadOf(es) - SinceReload(es) % (LoadOf(es) + 1))
    ensures Reads(Now(es), 0x1_3008, ToWord(ControlOf(es)))
    ensures Reads(Now(es), 0x1_3010, if Expired(es) then 1 else 0)
    ensures Reads(Now(es), 0x1_3014, if Expired(es) && 0 in ControlOf(es) then 1 else 0)
    ensures Reads(Now(es), 0x1_3C00, if Locked(es) then 1 else 0)
    ensures forall a: Word | 0x1_3000 <= a < 0x1_4000 && a % 4 == 0
                             && a !in {0x1_3000, 0x1_3004, 0x1_3008, 0x1_3010, 0x1_3014, 0x1_3C00} ::
              Reads(Now(es), a, 0)
  {
    WatchdogHistory(es);
    hide AccessEffect, Run, ToBytes, ToWord, LoadOf, SinceReload, ControlOf, Expired, Locked;
    var s := Now(es).regs;
    WdtRead(s, 0x1_3000);
    WdtRead(s, 0x1_3004);
    WdtRead(s, 0x1_3008);
    WdtRead(s, 0x1_3010);
    WdtRead(s, 0x1_3014);
    WdtRead(s, 0x1_3C00);
    forall a: Word | 0x1_3000 <= a < 0x1_4000 && a % 4 == 0
                     && a !in {0x1_3000, 0x1_3004, 0x1_3008, 0x1_3010, 0x1_3014, 0x1_3C00}
      ensures Reads(Now(es), a, 0)
    {
      WdtRead(s, a);
    }
  }

  /** The reset request asks for an expiry that stands and bit 1 of CONTROL. */
  lemma RequestIsHistory(es: seq<Event>)
    ensures RstLine(Now(es)) <==> Expired(es) && 1 in ControlOf(es)
  {
    WatchdogHistory(es);
  }

  // ----- a reload starts a countdown

  /** Out of reset, unlocked, enabled and not expired. */
  predicate Armed(m: State) {
    var r := m.regs.wdt;
    !m.reset && !r.locked && 0 in r.ctrl && !r.ris
  }

  /** Neither a reset nor a write to LOAD, CONTROL, INTCLR or LOCK. */
  predicate Undisturbing(e: Event) {
    !e.AssertReset? && (e.Access? && e.command == Write ==> e.address !in {0x1_3000, 0x1_3008, 0x1_300C, 0x1_3C00})
  }

  /** Where a reload to v has got after n further clock edges, starting from the given level of pclk. */
  predicate CountingDown(es: seq<Event>, v: Word, high: bool, n: nat) {
    && !Held(es) && !Locked(es) && 0 in ControlOf(es) && LoadOf(es) == v
    && SinceReload(es) == Clock.Rises(high, n) && PclkHigh(es) == Clock.Divided(high, n)
    && (Expired(es) <==> SinceReload(es) > v)
  }

  lemma SmallRemainder(a: nat, v: nat)
    requires a <= v + 1
    ensures a % (v + 1) == 0 <==> a == 0 || a == v + 1
  {
    if a <= v {
      ModuloIs(a, v + 1, 0, a);
    }
  }

  lemma OneMoreDown(front: seq<Event>, e: Event, v: Word, high: bool, n: nat)
    requires CountingDown(front, v, high, n) && Undisturbing(e)
    ensures CountingDown(front + [e], v, high, if e.SysEdge? then n + 1 else n)
  {
    var es := front + [e];
    assert es[..|es| - 1] == front && es[|es| - 1] == e;
    hide Clock.Divided, Clock.Rises;
    Clock.RisesGrows(high, n + 1);
    Clock.RisesInClosedForm(high, n);
    Clock.RisesInClosedForm(high, n + 1);
    if Counts(es) && SinceReload(front) <= v {
      SmallRemainder(SinceReload(es), v);
    }
  }

  lemma {:induction false} CountsDown(es: seq<Event>, v: Word, high: bool, more: seq<Event>)
    requires CountingDown(es, v, high, 0) && forall e | e in more :: Undisturbing(e)
    ensures CountingDown(es + more, v, high, EdgesIn(more))
  {
    hide CountingDown, Undisturbing;
    if more == [] {
      assert es + more == es;
    } else {
      var front, e := more[..|more| - 1], more[|more| - 1];
      assert e in more;
      CountsDown(es, v, high, front);
      OneMoreDown(es + front, e, v, high, EdgesIn(front));
      assert es + more == es + front + [e];
    }
  }

  lemma ReloadBegins(es: seq<Event>, v: Word)
    requires Armed(Now(es))
    ensures CountingDown(es + [Access(Write, 0x1_3000, v)], v, Now(es).pclk, 0)
  {
    WatchdogHistory(es);
    HeldIsReset(es);
    var j := es + [Access(Write, 0x1_3000, v)];
    assert j[..|j| - 1] == es;
    hide Run;
  }

  /** Let the guest write any v to LOAD of an unlocked, enabled watchdog that has not expired.  Whatever happens then
      short of a reset and of a write that would disturb it, RIS reads 1 from exactly the 2(v + 1)-th clock edge on,
      or one earlier if pclk was low. */
  lemma LoadStartsCountdown(es: seq<Event>, v: Word, more: seq<Event>)
    requires Armed(Now(es)) && forall e | e in more :: Undisturbing(e)
    ensures var due := if Now(es).pclk then 2 * (v + 1) else 2 * (v + 1) - 1;
      Reads(Now(es + [Access(Write, 0x1_3000, v)] + more), 0x1_3010, if EdgesIn(more) >= due then 1 else 0)
  {
    hide Armed, Undisturbing, Reads, Now;
    ReloadBegins(es, v);
    var j := es + [Access(Write, 0x1_3000, v)];
    CountsDown(j, v, Now(es).pclk, more);
    Clock.EdgesForRises(Now(es).pclk, EdgesIn(more), v);
    WatchdogReads(j + more);
  }
}
