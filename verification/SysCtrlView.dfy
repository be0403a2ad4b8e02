// System control as the guest sees it (peripherals/sysctrl_apb.h).
module SysCtrlView {
  import opened Words
  import opened Tlm
  import opened MemoryMap
  import opened Soc
  import opened Machine
  import opened Registers
  import Timer
  import SysCtrl
  import Watchdog

  /** What an access does to the block, and what a read answers. */
  lemma SysCtrlAccess(s: SocRegs, e: Event)
    requires e.Access?
    ensures AccessEffect(s, e).0.sys ==
      if e.command == Write && Occupies(SysCtrlPort, e.address) && e.address % 4 == 0
      then SysCtrl.WriteReg(s.sys, e.address - 0x1_2000, e.value) else s.sys
    ensures e.command == Read && Occupies(SysCtrlPort, e.address) && e.address % 4 == 0 ==>
      && AccessEffect(s, e).1.txn.status == Okay
      && AccessEffect(s, e).1.txn.data == ToBytes(SysCtrl.ReadReg(s.sys, e.address - 0x1_2000))
  {
    hide DeviceAccess, FlatMap, ToBytes, FromBytes, SysCtrl.ReadReg, SysCtrl.WriteReg;
    FlatMapIsTheOneSlot(e.address, SysCtrlPort);
    if FlatMap(e.address).Some? {
      var t := FlatMap(e.address).value;
      FlatMapIsTheOneSlot(e.address, t.device);
      AtDevice(s, t.device, ServerTxn(e.command, e.address, e.value).(address := t.offset));
      BytesRoundTrip(e.value);
    }
  }

  lemma AtDevice(s: SocRegs, d: Device, t: Txn)
    requires |t.data| == 4 && t.width == 4 && t.address < PL_SLOT_SIZE
    ensures DeviceAccess(s, d, t, NO_EDGES).0.sys ==
      if d.SysCtrlPort? && t.command == Write && t.address % 4 == 0
      then SysCtrl.WriteReg(s.sys, t.address, FromBytes(t.data)) else s.sys
    ensures d.SysCtrlPort? && t.command == Read && t.address % 4 == 0 ==>
      var o := DeviceAccess(s, d, t, NO_EDGES).1;
      o.txn.status == Okay && o.txn.data == ToBytes(SysCtrl.ReadReg(s.sys, t.address))
  {
    hide ToBytes, FromBytes, SysCtrl.ReadReg, SysCtrl.WriteReg;
  }

  lemma SysCtrlStep(m: State, e: Event)
    ensures Step(m, e).regs.sys.scratch ==
      if Resets(m, e) then 0 else if Writes(e, 0x1_2008) then e.value else m.regs.sys.scratch
    ensures Step(m, e).regs.sys.released ==
      if Resets(m, e) then false else if e.ReleaseReset? && m.reset then true else m.regs.sys.released
  {
    hide AccessEffect, Watchdog.Tick, Timer.Edge, RstLine;
    if e.Access? {
      SysCtrlAccess(m.regs, e);
    }
  }

  /** SYS_SCRATCH is the last word written; SYS_STATUS tells whether reset has been released. */
  lemma {:induction false} SysCtrlHistory(es: seq<Event>)
    ensures Now(es).regs.sys.scratch == LastWord(es, 0x1_2008, 0)
    ensures Now(es).regs.sys.released == !Held(es)
  {
    hide Step;
    if es != [] {
      var front, e := es[..|es| - 1], es[|es| - 1];
      SysCtrlHistory(front);
      HeldIsReset(front);
      SysCtrlStep(Now(front), e);
    }
  }

  /** Every register of the block, read after any history.  The cause reads 1 iff the reset request has risen
      since the later of its last clear and the last reset. */
  lemma SysCtrlReads(es: seq<Event>)
    ensures Reads(Now(es), 0x1_2000, 0x534F_4332)
    ensures Reads(Now(es), 0x1_2004, 0x0002_0000)
    ensures Reads(Now(es), 0x1_2008, LastWord(es, 0x1_2008, 0))
    ensures Reads(Now(es), 0x1_200C, 100_000_000)
    ensures Reads(Now(es), 0x1_2010, 50_000_000)
    ensures Reads(Now(es), 0x1_2014, if Held(es) then 0 else 1)
    ensures Reads(Now(es), 0x1_2018, if exists k: nat :: RoseLastAt(es, k) then 1 else 0)
    ensures forall a: Word | 0x1_201C <= a < 0x1_3000 && a % 4 == 0 :: Reads(Now(es), a, 0)
  {
    SysCtrlHistory(es);
    CauseIsHistory(es);
    hide AccessEffect, Run, RoseLastAt, ToBytes;
    var s := Now(es).regs;
    SysCtrlAccess(s, Access(Read, 0x1_2000, 0));
    SysCtrlAccess(s, Access(Read, 0x1_2004, 0));
    SysCtrlAccess(s, Access(Read, 0x1_2008, 0));
    SysCtrlAccess(s, Access(Read, 0x1_200C, 0));
    SysCtrlAccess(s, Access(Read, 0x1_2010, 0));
    SysCtrlAccess(s, Access(Read, 0x1_2014, 0));
    SysCtrlAccess(s, Access(Read, 0x1_2018, 0));
    forall a: Word | 0x1_201C <= a < 0x1_3000 && a % 4 == 0
      ensures Reads(Now(es), a, 0)
    {
      SysCtrlAccess(s, Access(Read, a, 0));
    }
  }
}
