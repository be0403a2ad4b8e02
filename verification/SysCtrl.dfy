// System control: identification, scratch and the latched watchdog-reset cause (peripherals/sysctrl_apb.h).
module SysCtrl {
  import opened Words
  import opened Tlm

  const SYS_MAGIC: Word := 0x00
  const SYS_VERSION: Word := 0x04
  const SYS_SCRATCH: Word := 0x08
  const SYS_SYS_HZ: Word := 0x0C
  const SYS_PCLK_HZ: Word := 0x10
  const SYS_STATUS: Word := 0x14
  const SYS_WDT_RST: Word := 0x18
  const MAGIC_VALUE: Word := 0x534F4332
  const VERSION_VALUE: Word := 0x00020000
  const SYS_HZ: Word := 100_000_000
  const PCLK_HZ: Word := 50_000_000

  const ACCESS_TIME: nat := 10

  datatype Regs = Regs(scratch: Word, released: bool, latched: bool)

  const AT_START := Regs(0, false, false)

  /** on_reset, run on either edge of reset. */
  function ResetTo(r: Regs, level: bool): Regs {
    if level then AT_START else r.(released := true)
  }

  /** on_wdt, run on either edge of the watchdog's reset request. */
  function WdtTo(r: Regs, level: bool): Regs {
    if level then r.(latched := true) else r
  }

  function ReadReg(r: Regs, offset: Word): Word {
    if offset == SYS_MAGIC then MAGIC_VALUE
    else if offset == SYS_VERSION then VERSION_VALUE
    else if offset == SYS_SCRATCH then r.scratch
    else if offset == SYS_SYS_HZ then SYS_HZ
    else if offset == SYS_PCLK_HZ then PCLK_HZ
    else if offset == SYS_STATUS then Flag(r.released)
    else if offset == SYS_WDT_RST then Flag(r.latched)
    else 0
  }

  function WriteReg(r: Regs, offset: Word, v: Word): Regs {
    if offset == SYS_SCRATCH then r.(scratch := v)
    else if offset == SYS_WDT_RST then r.(latched := false)
    else r
  }

  function Transport(r: Regs, t: Txn): (Regs, Outcome) {
    match t.command
    case Read => (r, ReadReply(t, ReadReg(r, Offset(t)), ACCESS_TIME))
    case Write =>
      (if Fault(t).None? then WriteReg(r, Offset(t), FromBytes(t.data)) else r, WriteReply(t, ACCESS_TIME))
    case Ignore => (r, Refuse(t, CommandError))
  }

  class SysCtrlApb {
    var scratch: Word
    var released: bool
    var latched: bool

    constructor ()
      ensures View() == AT_START
    {
      scratch, released, latched := 0, false, false;
    }

    function View(): Regs
      reads this
    {
      Regs(scratch, released, latched)
    }

    method OnReset(level: bool)
      modifies this
      ensures View() == ResetTo(old(View()), level)
    {
      if level {
        scratch, released, latched := 0, false, false;
      } else {
        released := true;
      }
    }

    method OnWdt(level: bool)
      modifies this
      ensures View() == WdtTo(old(View()), level)
    {
      if level {
        latched := true;
      }
    }

    method BTransport(p: Payload, delay: nat) returns (delay': nat)
      modifies this, p
      ensures delay' >= delay
      ensures (View(), Outcome(p.View(), delay' - delay)) == Transport(old(View()), old(p.View()))
    {
      delay' := delay;
      var off: Word := p.address % WORD_LIMIT;
      if p.command == Read {
        var v: Word := 0;
        if off == SYS_MAGIC { v := MAGIC_VALUE; }
        else if off == SYS_VERSION { v := VERSION_VALUE; }
        else if off == SYS_SCRATCH { v := scratch; }
        else if off == SYS_SYS_HZ { v := SYS_HZ; }
        else if off == SYS_PCLK_HZ { v := PCLK_HZ; }
        else if off == SYS_STATUS { v := Flag(released); }
        else if off == SYS_WDT_RST { v := Flag(latched); }
        var ok := PackU32(p, v);
        if !ok {
          return;
        }
      } else if p.command == Write {
        var ok, v := UnpackU32(p);
        if !ok {
          return;
        }
        BytesRoundTrip(v);
        if off == SYS_SCRATCH { scratch := v; }
        else if off == SYS_WDT_RST { latched := false; }
      } else {
        p.status := CommandError;
        return;
      }
      p.status := Okay;
      delay' := delay + ACCESS_TIME;
    }
  }
}
