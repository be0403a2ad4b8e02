// The Cortex-M PL SoC: an AHB decoder, an AHB-to-APB bridge and an APB decoder in front of six devices
// (Soc/cortexm_pl.h, bridges/ahb_apb_bridge.h), and the proof that together they are one flat memory map.
module Soc {
  import opened Words
  import opened Tlm
  import opened MemoryMap
  import opened Decoder
  import opened PinBridge
  import Timer
  import Sram
  import Gpio
  import Uart
  import SysCtrl
  import Watchdog

  const AHB_CYCLE: nat := 10
  const APB_CYCLE: nat := 0
  const PCLK_PERIOD: nat := 20

  /** The registers of every device. */
  datatype SocRegs = SocRegs(
    timer: Timer.Regs, sram: Sram.Memory, gpio: Gpio.Regs, uart: Uart.Regs, sys: SysCtrl.Regs, wdt: Watchdog.Regs)

  const AT_START := SocRegs(
    Timer.AT_RESET, Sram.ZEROED, Gpio.AT_RESET, Uart.AT_RESET, SysCtrl.AT_START, Watchdog.AT_RESET)

  // ----- the flat specification

  /** One transaction at a device, the payload address being the local offset. */
  function DeviceAccess(s: SocRegs, d: Device, t: Txn, sch: Schedule): (SocRegs, Outcome)
    requires d.SramPort? ==> t.address < PL_SLOT_SIZE
  {
    match d
    case TimerPort => var (r, o) := Access(s.timer, t, sch); (s.(timer := r), o)
    case SramPort => var (r, o) := Sram.Transport(s.sram, t); (s.(sram := r), o)
    case GpioPort => var (r, o) := Gpio.Transport(s.gpio, t); (s.(gpio := r), o)
    case UartPort => var (r, o) := Uart.Transport(s.uart, t); (s.(uart := r), o)
    case SysCtrlPort => var (r, o) := SysCtrl.Transport(s.sys, t); (s.(sys := r), o)
    case WdtPort => var (r, o) := Watchdog.Transport(s.wdt, t); (s.(wdt := r), o)
  }

  /** Delay added on the way: one AHB cycle, and SETUP and ENABLE for the devices behind the APB bridge. */
  function RouteCost(d: Device): nat {
    if OnApb(d) then AHB_CYCLE + 2 * PCLK_PERIOD + APB_CYCLE else AHB_CYCLE
  }

  /** A transaction at an offset within the window, by the flat map alone.  The Timer's bus process runs
      at the instant among the clock edges that sch gives; no other device uses sch. */
  function Serve(s: SocRegs, t: Txn, sch: Schedule): (SocRegs, Outcome) {
    match FlatMap(t.address)
    case None => (s, Refuse(t, AddressError))
    case Some(Target(d, offset)) =>
      var (s', o) := DeviceAccess(s, d, t.(address := offset), sch);
      (s', Outcome(o.txn.(address := t.address), RouteCost(d) + o.cost))
  }

  // ----- the nested decoders

  const AHB_MAP := [
    Region(PL_TIMER_OFFSET, PL_SLOT_SIZE, true),
    Region(PL_SRAM_OFFSET, PL_SRAM_BYTES, true),
    Region(PL_APB_OFFSET, PL_APB_WINDOW_SIZE, true),
    UNUSED]

  const APB_MAP := [
    Region(PL_GPIO_OFFSET - PL_APB_OFFSET, PL_SLOT_SIZE, true),
    Region(PL_UART_OFFSET - PL_APB_OFFSET, PL_SLOT_SIZE, true),
    Region(PL_SYSCTRL_OFFSET - PL_APB_OFFSET, PL_SLOT_SIZE, true),
    Region(PL_WDT_OFFSET - PL_APB_OFFSET, PL_SLOT_SIZE, true)]

  /** Both wirings satisfy the condition under which slot order is irrelevant. */
  lemma WiringIsSeparated()
    ensures WellSeparated(AHB_MAP) && WellSeparated(APB_MAP)
  {
  }

  function AhbPort(port: nat): Device
    requires port < 2
  {
    if port == 0 then TimerPort else SramPort
  }

  function ApbPort(port: nat): Device
    requires port < MAX_SLAVES
  {
    if port == 0 then GpioPort else if port == 1 then UartPort else if port == 2 then SysCtrlPort else WdtPort
  }

  function Rebased(t: Txn, r: Region): Txn
    requires r.base <= t.address
  {
    t.(address := t.address - r.base)
  }

  predicate InApbWindow(addr: Address) {
    PL_APB_OFFSET <= addr < PL_APB_OFFSET + PL_APB_WINDOW_SIZE
  }

  lemma AhbHits(addr: Address)
    ensures Hits(AHB_MAP[0], addr) <==> Occupies(TimerPort, addr)
    ensures Hits(AHB_MAP[1], addr) <==> Occupies(SramPort, addr)
    ensures Hits(AHB_MAP[2], addr) <==> InApbWindow(addr)
    ensures !Hits(AHB_MAP[3], addr)
  {
  }

  /** The AHB decoder misses exactly the unmapped addresses; ports 0 and 1 are the Timer and the SRAM at
      their local offsets, port 2 is the APB window and port 3 is never selected. */
  lemma AhbDecodingIsFlat(addr: Address, port: nat)
    ensures NoHit(AHB_MAP, addr) <==> FlatMap(addr).None?
    ensures FirstHit(AHB_MAP, addr, port) ==> port < 3 && (port == 2 <==> InApbWindow(addr))
    ensures FirstHit(AHB_MAP, addr, port) && port < 2 ==>
      && FlatMap(addr) == Some(Target(AhbPort(port), addr - AHB_MAP[port].base))
      && addr - AHB_MAP[port].base < PL_SLOT_SIZE
      && RouteCost(AhbPort(port)) == AHB_CYCLE
  {
    AhbHits(addr);
    assert NoHit(AHB_MAP, addr) <==> !Hits(AHB_MAP[0], addr) && !Hits(AHB_MAP[1], addr) && !Hits(AHB_MAP[2], addr);
  }

  /** Behind the bridge the APB decoder never misses, and its answer with both subtractions is the flat map's. */
  lemma ApbDecodingIsFlat(addr: Address, port: nat)
    requires InApbWindow(addr)
    ensures var local: Address := addr - PL_APB_OFFSET;
      && !NoHit(APB_MAP, local)
      && (FirstHit(APB_MAP, local, port) ==>
           FlatMap(addr) == Some(Target(ApbPort(port), local - APB_MAP[port].base))
           && RouteCost(ApbPort(port)) == AHB_CYCLE + 2 * PCLK_PERIOD + APB_CYCLE)
  {
    var local: Address := addr - PL_APB_OFFSET;
    assert Hits(APB_MAP[0], local) <==> Occupies(GpioPort, addr);
    assert Hits(APB_MAP[1], local) <==> Occupies(UartPort, addr);
    assert Hits(APB_MAP[2], local) <==> Occupies(SysCtrlPort, addr);
    assert Hits(APB_MAP[3], local) <==> Occupies(WdtPort, addr);
  }

  method WireAhb() returns (d: TlmDecoder)
    ensures fresh(d) && fresh(d.regions) && d.Valid() && d.Map() == AHB_MAP && d.cycle == AHB_CYCLE
  {
    d := new TlmDecoder(AHB_CYCLE);
    d.MapSlave(0, PL_TIMER_OFFSET, PL_SLOT_SIZE);
    d.MapSlave(1, PL_SRAM_OFFSET, PL_SRAM_BYTES);
    d.MapSlave(2, PL_APB_OFFSET, PL_APB_WINDOW_SIZE);
  }

  method WireApb() returns (d: TlmDecoder)
    ensures fresh(d) && fresh(d.regions) && d.Valid() && d.Map() == APB_MAP && d.cycle == APB_CYCLE
  {
    d := new TlmDecoder(APB_CYCLE);
    d.MapSlave(0, PL_GPIO_OFFSET - PL_APB_OFFSET, PL_SLOT_SIZE);
    d.MapSlave(1, PL_UART_OFFSET - PL_APB_OFFSET, PL_SLOT_SIZE);
    d.MapSlave(2, PL_SYSCTRL_OFFSET - PL_APB_OFFSET, PL_SLOT_SIZE);
    d.MapSlave(3, PL_WDT_OFFSET - PL_APB_OFFSET, PL_SLOT_SIZE);
  }

  class CortexMPlSoc {
    const ahb: TlmDecoder
    const apb: TlmDecoder
    const timerBus: Timer.PinBus
    const timer: Timer.TimerIp
    const timerBridge: TlmPinBridge
    const sram: Sram.SramAhb
    const gpio: Gpio.GpioApb
    const uart: Uart.UartPl011
    const sysctrl: SysCtrl.SysCtrlApb
    const wdt: Watchdog.WdtApb

    ghost predicate Valid()
      reads this, ahb, ahb.regions, apb, apb.regions, timerBridge, timerBridge.bus, timerBridge.timer, sram
    {
      && ahb.Valid() && ahb.Map() == AHB_MAP && ahb.cycle == AHB_CYCLE
      && apb.Valid() && apb.Map() == APB_MAP && apb.cycle == APB_CYCLE
      && timerBridge.bus == timerBus && timerBridge.timer == timer && timerBridge.Quiet()
      && sram.Valid()
    }

    function View(): SocRegs
      requires Valid()
      reads this, ahb, ahb.regions, apb, apb.regions, timerBridge, timerBridge.bus, timerBridge.timer,
            timer, sram, sram.mem, gpio, uart, sysctrl, wdt
    {
      SocRegs(timer.View(), sram.View(), gpio.View(), uart.View(), sysctrl.View(), wdt.View())
    }

    /** The address-map half of the module constructor. */
    constructor ()
      ensures Valid() && View() == AT_START
      ensures fresh(timerBus) && fresh(timer) && fresh(sram) && fresh(sram.mem)
      ensures fresh(gpio) && fresh(uart) && fresh(sysctrl) && fresh(wdt)
    {
      var a := WireAhb();
      var b := WireApb();
      ahb, apb := a, b;
      var bus := new Timer.PinBus();
      var ip := new Timer.TimerIp();
      timerBus, timer := bus, ip;
      timerBridge := new TlmPinBridge(bus, ip);
      sram := new Sram.SramAhb();
      gpio := new Gpio.GpioApb();
      uart := new Uart.UartPl011();
      sysctrl := new SysCtrl.SysCtrlApb();
      wdt := new Watchdog.WdtApb();
    }

    /** The call through AHB port 0 or 1. */
    method AhbDevice(port: nat, p: Payload, delay: nat, sch: Schedule) returns (delay': nat)
      requires Valid() && port < 2 && p.address < PL_SLOT_SIZE
      modifies p, timerBus, timer, sram.mem
      ensures Valid() && delay' >= delay
      ensures (View(), Outcome(p.View(), delay' - delay))
           == DeviceAccess(old(View()), AhbPort(port), old(p.View()), sch)
    {
      if port == 0 {
        delay' := timerBridge.BTransport(p, delay, sch);
      } else {
        delay' := sram.BTransport(p, delay);
      }
    }

    /** The call through an APB port. */
    method ApbDevice(port: nat, p: Payload, delay: nat, ghost sch: Schedule) returns (delay': nat)
      requires Valid() && port < MAX_SLAVES
      modifies p, gpio, uart, sysctrl, wdt
      ensures Valid() && delay' >= delay
      ensures (View(), Outcome(p.View(), delay' - delay))
           == DeviceAccess(old(View()), ApbPort(port), old(p.View()), sch)
    {
      if port == 0 {
        delay' := gpio.BTransport(p, delay);
      } else if port == 1 {
        delay' := uart.BTransport(p, delay);
      } else if port == 2 {
        delay' := sysctrl.BTransport(p, delay);
      } else {
        delay' := wdt.BTransport(p, delay);
      }
    }

    /** The APB decoder's b_transport: pick the slave, forward, restore the address.  The port it went
        through is also returned, as a ghost; MAX_SLAVES stands for none. */
    method ApbTransport(p: Payload, delay: nat, ghost sch: Schedule) returns (delay': nat, ghost port: nat)
      requires Valid()
      modifies p, gpio, uart, sysctrl, wdt
      ensures Valid() && delay' >= delay
      ensures port == MAX_SLAVES ==>
        && NoHit(APB_MAP, old(p.address))
        && View() == old(View()) && p.View() == old(p.View()).(status := AddressError) && delay' == delay
      ensures port != MAX_SLAVES ==>
        && FirstHit(APB_MAP, old(p.address), port)
        && var (s, o) := DeviceAccess(old(View()), ApbPort(port), Rebased(old(p.View()), APB_MAP[port]), sch);
        && View() == s && p.View() == o.txn.(address := old(p.address)) && delay' - delay == APB_CYCLE + o.cost
    {
      hide DeviceAccess, FirstHit, NoHit;
      var addr := p.address;
      var idx, d := apb.Enter(p, delay);
      if idx < 0 {
        return d, MAX_SLAVES;
      }
      port := idx;
      delay' := ApbDevice(idx, p, d, sch);
      p.address := addr;
    }

    /** AhbApbBridge::b_transport: SETUP and ENABLE, then forward. */
    method BridgeTransport(p: Payload, delay: nat, ghost sch: Schedule) returns (delay': nat, ghost port: nat)
      requires Valid()
      modifies p, gpio, uart, sysctrl, wdt
      ensures Valid() && delay' >= delay
      ensures port == MAX_SLAVES ==>
        && NoHit(APB_MAP, old(p.address))
        && View() == old(View()) && p.View() == old(p.View()).(status := AddressError)
        && delay' == delay + 2 * PCLK_PERIOD
      ensures port != MAX_SLAVES ==>
        && FirstHit(APB_MAP, old(p.address), port)
        && var (s, o) := DeviceAccess(old(View()), ApbPort(port), Rebased(old(p.View()), APB_MAP[port]), sch);
        && View() == s && p.View() == o.txn.(address := old(p.address))
        && delay' - delay == 2 * PCLK_PERIOD + APB_CYCLE + o.cost
    {
      delay', port := ApbTransport(p, delay + (PCLK_PERIOD + PCLK_PERIOD), sch);
    }

    /** The AHB decoder's b_transport, the whole fabric behind it: for every address and payload it does
        exactly what the flat map says, and the payload address is restored on every path. */
    method BTransport(p: Payload, delay: nat, sch: Schedule) returns (delay': nat)
      requires Valid()
      modifies p, timerBus, timer, sram.mem, gpio, uart, sysctrl, wdt
      ensures Valid() && delay' >= delay
      ensures (View(), Outcome(p.View(), delay' - delay)) == Serve(old(View()), old(p.View()), sch)
    {
      hide DeviceAccess, FirstHit, NoHit, FlatMap, AhbPort, ApbPort;
      var addr := p.address;
      var idx, d := ahb.Enter(p, delay);
      AhbDecodingIsFlat(addr, if idx < 0 then 0 else idx);
      if idx < 0 {
        return d;
      }
      if idx < 2 {
        delay' := AhbDevice(idx, p, d, sch);
      } else {
        assert idx == 2;  // the TlmSink on port 3 is never selected
        ghost var port;
        delay', port := BridgeTransport(p, d, sch);
        ApbDecodingIsFlat(addr, port);
      }
      p.address := addr;
    }
  }
}
