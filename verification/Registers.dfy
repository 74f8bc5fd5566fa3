/** The register record that kernel and client share, and the generation word that closes it (sar.h). */
module Registers {
  import opened Arith

  const TWO31: nat := 0x8000_0000
  const CELL: nat := 65536

  /** SarEndpointRegisters. Every field is a 32-bit word. */
  datatype Regs = Regs(generation: nat, position: nat, bufferOffset: nat, bufferSize: nat,
                       notificationCount: nat, activeChannelCount: nat)

  const ZERO_REGS := Regs(0, 0, 0, 0, 0, 0)

  function IsActive(generation: nat): bool {
    generation % 2 == 1
  }

  function MakeGeneration(number: nat, active: bool): nat {
    U32(number * 2 + if active then 1 else 0)
  }

  function Number(generation: nat): nat {
    generation / 2
  }

  /** A generation word is exactly a number modulo 2^31 and an active bit. */
  lemma GenerationRoundTrip(number: nat, active: bool)
    ensures Number(MakeGeneration(number, active)) == number % TWO31
    ensures IsActive(MakeGeneration(number, active)) == active
    ensures MakeGeneration(number, active) < TWO32
  {
    var t := number / TWO31;
    assert number * 2 + (if active then 1 else 0) == t * TWO32 + (number % TWO31 * 2 + if active then 1 else 0);
    DivModUnique(t, number % TWO31 * 2 + (if active then 1 else 0), TWO32);
  }

  // What each kernel operation stores, from what it read.

  /** SarKsPinCreate: next number, inactive, new channel count. */
  function Opened(r: Regs, channels: nat): Regs {
    r.(generation := MakeGeneration(Number(r.generation) + 1, false), activeChannelCount := channels)
  }

  /** SarKsPinClose: next number, inactive. */
  function Closed(r: Regs): Regs {
    r.(generation := MakeGeneration(Number(r.generation) + 1, false))
  }

  /** SarKsPinRtGetBufferCore: the layout; the generation word is stored again unchanged. */
  function Published(r: Regs, offset: nat, size: nat, notifications: nat): Regs {
    r.(bufferOffset := offset, bufferSize := size, notificationCount := notifications)
  }

  datatype KsState = Stop | Acquire | Pause | Run

  function NeedsChange(to: KsState, from: KsState): bool {
    (to.Run? != from.Run?) || (to.Stop? != from.Stop?)
  }

  /** SarKsPinSetDeviceState: active exactly on a change into RUN; position reset on leaving or entering STOP. */
  function StateSet(r: Regs, to: KsState, from: KsState): Regs {
    if !NeedsChange(to, from) then r
    else r.(generation := MakeGeneration(Number(r.generation), to.Run? && !from.Run?),
            position := if to.Stop? != from.Stop? then 0 else r.position)
  }

  /** Following the state changes of a pin, the active bit says whether the pin is running,
      whatever path of states it took, and the number never moves. */
  lemma ActiveMeansRunning(r: Regs, to: KsState, from: KsState)
    requires r.generation < TWO32 && IsActive(r.generation) == from.Run?
    ensures IsActive(StateSet(r, to, from).generation) == to.Run?
    ensures Number(StateSet(r, to, from).generation) == Number(r.generation)
    ensures StateSet(r, to, from).generation < TWO32
  {
    GenerationRoundTrip(Number(r.generation), to.Run? && !from.Run?);
  }
}
