// The Cortex-M PL window as one flat map (include/soc_memory_map.h).
module MemoryMap {
  import opened Words

  const PL_SLOT_SIZE: Address := 0x1000
  const PL_TIMER_OFFSET: Address := 0x00000
  const PL_SRAM_OFFSET: Address := 0x08000
  const PL_APB_OFFSET: Address := 0x10000
  const PL_APB_WINDOW_SIZE: Address := 0x4000
  const PL_GPIO_OFFSET: Address := 0x10000
  const PL_UART_OFFSET: Address := 0x11000
  const PL_SYSCTRL_OFFSET: Address := 0x12000
  const PL_WDT_OFFSET: Address := 0x13000
  const PL_SRAM_BYTES: Address := 0x1000

  const PL_IRQ_TIMER_CMP: nat := 0
  const PL_IRQ_TIMER_OV: nat := 1
  const PL_IRQ_UART: nat := 2
  const PL_IRQ_GPIO: nat := 3
  const PL_IRQ_WDT: nat := 4
  const PL_IRQ_COUNT: nat := 5

  datatype Device = TimerPort | SramPort | GpioPort | UartPort | SysCtrlPort | WdtPort

  datatype Target = Target(device: Device, offset: Address)

  function BaseOf(d: Device): Address {
    match d
    case TimerPort => PL_TIMER_OFFSET
    case SramPort => PL_SRAM_OFFSET
    case GpioPort => PL_GPIO_OFFSET
    case UartPort => PL_UART_OFFSET
    case SysCtrlPort => PL_SYSCTRL_OFFSET
    case WdtPort => PL_WDT_OFFSET
  }

  /** a lies in the 4 KiB slot of d. */
  predicate Occupies(d: Device, a: Address) {
    BaseOf(d) <= a < BaseOf(d) + PL_SLOT_SIZE
  }

  /** The device and local offset an offset within the window names, if any. */
  function FlatMap(a: Address): Option<Target> {
    if Occupies(TimerPort, a) then Some(Target(TimerPort, a - PL_TIMER_OFFSET))
    else if Occupies(SramPort, a) then Some(Target(SramPort, a - PL_SRAM_OFFSET))
    else if Occupies(GpioPort, a) then Some(Target(GpioPort, a - PL_GPIO_OFFSET))
    else if Occupies(UartPort, a) then Some(Target(UartPort, a - PL_UART_OFFSET))
    else if Occupies(SysCtrlPort, a) then Some(Target(SysCtrlPort, a - PL_SYSCTRL_OFFSET))
    else if Occupies(WdtPort, a) then Some(Target(WdtPort, a - PL_WDT_OFFSET))
    else None
  }

  /** The slots do not overlap: the map answers with the one device whose slot holds the address. */
  lemma FlatMapIsTheOneSlot(a: Address, d: Device)
    ensures Occupies(d, a) <==> FlatMap(a).Some? && FlatMap(a).value.device == d
    ensures Occupies(d, a) ==> FlatMap(a).value.offset == a - BaseOf(d) < PL_SLOT_SIZE
  {
  }

  /** The windows in numbers. */
  lemma WindowsInNumbers(a: Address)
    ensures FlatMap(a) ==
      if a < 0x1000 then Some(Target(TimerPort, a))
      else if 0x8000 <= a < 0x9000 then Some(Target(SramPort, a - 0x8000))
      else if 0x1_0000 <= a < 0x1_1000 then Some(Target(GpioPort, a - 0x1_0000))
      else if 0x1_1000 <= a < 0x1_2000 then Some(Target(UartPort, a - 0x1_1000))
      else if 0x1_2000 <= a < 0x1_3000 then Some(Target(SysCtrlPort, a - 0x1_2000))
      else if 0x1_3000 <= a < 0x1_4000 then Some(Target(WdtPort, a - 0x1_3000))
      else None
  {
  }

  predicate OnApb(d: Device) {
    !d.TimerPort? && !d.SramPort?
  }
}
