/**
 The kernel side of a pin: opening and closing it, allocating its ring and changing its
 state (pin.cpp, wavert.cpp, control.cpp). Calls into the operating system that can fail
 are parameters of type `Env`; the same steps, interleaved with the client, are in module
 Protocol.
 */
module Kernel {
  import opened Arith
  import opened Registers
  import opened Cells

  datatype Status = Success | NotImplemented | InvalidParameter | InvalidState
                  | ResourceInUse | InsufficientResources | Failed

  /** Which of the operating-system calls of an operation succeed. */
  datatype Env = Env(processOk: bool, readOk: bool, writeOk: bool, mapOk: bool)

  datatype LayoutRequest = LayoutRequest(bufferSize: nat, periodSizeBytes: nat, sampleRate: nat, sampleSize: nat,
                                         minimumFrameCount: nat)

  const MAX_BUFFER_SIZE: nat := 128 * 1024 * 1024
  const PAGE: nat := 4096

  /** ROUND_UP in 32-bit arithmetic. */
  function RoundUp32(n: nat, s: nat): nat
    requires s > 0
  {
    U32(U32(n + s - 1) / s * s)
  }

  /** The 32-bit form is the intended rounding exactly when adding s - 1 does not wrap. */
  lemma RoundUp32Exact(n: nat, s: nat)
    requires 0 < n < TWO32 && 0 < s < TWO32
    ensures RoundUp32(n, s) == RoundUp(n, s) <==> n + s - 1 < TWO32
  {
    RoundUpProps(n, s);
    if n + s - 1 < TWO32 {
      DivModUnique(0, n + s - 1, TWO32);
      DivModIdentity(n + s - 1, s);
      DivModUnique(0, RoundUp(n, s), TWO32);
    } else {
      DivModUnique(1, n + s - 1 - TWO32, TWO32);
      DivModUnique(0, n + s - 1 - TWO32, s);
    }
  }

  /** Size in bytes of the ring a pin gets: at least what it asked for and at least the configured
      number of periods, rounded up to whole frames. */
  function ActualSize(minimumFrames: nat, period: nat, sample: nat, channels: nat, requested: nat): nat
    requires U32(sample * channels) > 0
  {
    var floor := U32(minimumFrames * period * channels);
    RoundUp32(if requested > floor then requested else floor, U32(sample * channels))
  }

  /** Size in bytes of the cells set aside for a ring. */
  function ViewSize(actual: nat): nat {
    RoundUp32(actual, CELL)
  }

  /** Without 32-bit wrap the ring is a whole number of frames, holds the request and the configured
      number of periods, and fits its cells. */
  lemma ActualSizeProps(minimumFrames: nat, period: nat, sample: nat, channels: nat, requested: nat)
    requires sample * channels > 0
    requires requested > 0 || minimumFrames * period * channels > 0
    requires requested + sample * channels + CELL < TWO32
    requires minimumFrames * period * channels + sample * channels + CELL < TWO32
    ensures U32(sample * channels) > 0
    ensures var actual := ActualSize(minimumFrames, period, sample, channels, requested);
            && actual > 0
            && actual % (sample * channels) == 0
            && actual >= requested
            && actual >= minimumFrames * (period * channels)
            && actual < (if requested > minimumFrames * period * channels then requested
                         else minimumFrames * period * channels) + sample * channels
            && ViewSize(actual) % CELL == 0
            && actual <= ViewSize(actual) < actual + CELL
  {
    var frame := sample * channels;
    var floor := minimumFrames * period * channels;
    assert floor == minimumFrames * (period * channels);
    DivModUnique(0, frame, TWO32);
    DivModUnique(0, floor, TWO32);
    RoundedSize(if requested > floor then requested else floor, frame);
    hide RoundUp32, ViewSize;
  }

  /** Rounding to frames and then to cells. */
  lemma RoundedSize(n: nat, frame: nat)
    requires n > 0 && frame > 0 && n + frame + CELL < TWO32
    ensures var actual := RoundUp32(n, frame);
            && n <= actual < n + frame && actual % frame == 0
            && ViewSize(actual) % CELL == 0 && actual <= ViewSize(actual) < actual + CELL
  {
    RoundUp32Exact(n, frame);
    RoundUpProps(n, frame);
    RoundUp32Exact(RoundUp(n, frame), CELL);
    RoundUpProps(RoundUp(n, frame), CELL);
  }

  /** SarEndpointRegisters in the shared section. */
  class RegisterRecord {
    var generation: nat
    var positionRegister: nat
    var bufferOffset: nat
    var bufferSize: nat
    var notificationCount: nat
    var activeChannelCount: nat

    function State(): Regs
      reads this
    {
      Regs(generation, positionRegister, bufferOffset, bufferSize, notificationCount, activeChannelCount)
    }

    /** SarWriteEndpointRegisters: field by field, the generation word last. */
    method Write(regs: Regs)
      modifies this
      ensures State() == regs
    {
      positionRegister := regs.position;
      bufferOffset := regs.bufferOffset;
      bufferSize := regs.bufferSize;
      notificationCount := regs.notificationCount;
      activeChannelCount := regs.activeChannelCount;
      generation := regs.generation;
    }
  }

  class ControlContext {
    var bufferSize: nat
    var periodSizeBytes: nat
    var sampleRate: nat
    var sampleSize: nat
    var minimumFrameCount: nat
    var bufferMap: Bitmap?

    ghost predicate Valid()
      reads this, bufferMap
    {
      && (bufferSize > 0 <==> bufferMap != null)
      && (bufferMap != null ==> bufferMap.Valid() && bufferMap.bits.Length == bufferSize / CELL)
    }

    constructor ()
      ensures Valid() && bufferSize == 0
    {
      bufferSize, periodSizeBytes, sampleRate, sampleSize, minimumFrameCount := 0, 0, 0, 0, 0;
      bufferMap := null;
    }

    /** SarSetBufferLayout: accepted once, for valid sizes; every cell starts free; the register cell
        lies directly behind the cells. */
    method SetBufferLayout(request: LayoutRequest, sectionOk: bool)
      returns (status: Status, actualSize: nat, registerBase: nat)
      requires Valid()
      modifies this
      ensures Valid()
      ensures var valid := 0 < request.bufferSize <= MAX_BUFFER_SIZE && 1 <= request.sampleSize <= 4 &&
                           8000 <= request.sampleRate <= 192000 && 0 < request.periodSizeBytes <= request.bufferSize;
              status == if !valid then InvalidParameter else if !sectionOk then InsufficientResources
                        else if old(bufferSize) > 0 then InvalidState else Success
      ensures status != Success ==> unchanged(this)
      ensures status == Success ==>
                && bufferSize == RoundUp(request.bufferSize, PAGE) && periodSizeBytes == request.periodSizeBytes
                && sampleRate == request.sampleRate && sampleSize == request.sampleSize
                && minimumFrameCount == request.minimumFrameCount
                && fresh(bufferMap) && fresh(bufferMap.bits)
                && (forall b :: 0 <= b < bufferMap.bits.Length ==> !bufferMap.bits[b])
                && bufferMap.bits.Length * CELL <= registerBase == bufferSize && actualSize == registerBase + CELL
    {
      actualSize, registerBase := 0, 0;
      if request.bufferSize == 0 || request.bufferSize > MAX_BUFFER_SIZE ||
         request.sampleSize < 1 || request.sampleSize > 4 ||
         request.sampleRate < 8000 || request.sampleRate > 192000 ||
         request.periodSizeBytes > request.bufferSize || request.periodSizeBytes == 0 {
        return InvalidParameter, 0, 0;
      }
      var size := RoundUp(request.bufferSize, PAGE);
      RoundUpProps(request.bufferSize, PAGE);
      if !sectionOk {
        return InsufficientResources, 0, 0;
      }
      if bufferSize > 0 {
        return InvalidState, 0, 0;
      }
      bufferMap := new Bitmap(size / CELL);
      bufferSize, periodSizeBytes, sampleSize := size, request.periodSizeBytes, request.sampleSize;
      sampleRate, minimumFrameCount := request.sampleRate, request.minimumFrameCount;
      return Success, size + CELL, size;
    }
  }

  /** The fields of SarEndpoint that belong to its open pin. */
  datatype PinState = PinState(pin: bool, cell: nat, view: nat, size: nat, channels: nat)

  class Endpoint {
    const owner: ControlContext
    const registers: RegisterRecord
    const channelCount: nat
    var activePin: bool
    var activeCellIndex: nat
    var activeViewSize: nat
    var activeBufferSize: nat
    var activeChannelCount: nat

    constructor (owner: ControlContext, registers: RegisterRecord, channelCount: nat)
      ensures this.owner == owner && this.registers == registers && this.channelCount == channelCount
      ensures State() == PinState(false, 0, 0, 0, 0)
    {
      this.owner, this.registers, this.channelCount := owner, registers, channelCount;
      activePin, activeCellIndex, activeViewSize, activeBufferSize, activeChannelCount := false, 0, 0, 0, 0;
    }

    function State(): PinState
      reads this
    {
      PinState(activePin, activeCellIndex, activeViewSize, activeBufferSize, activeChannelCount)
    }

    /** SarKsPinCreate. A pin that is open keeps its endpoint; register failures are ignored. */
    method PinCreate(channels: nat, env: Env) returns (status: Status)
      modifies this, registers
      ensures status == if old(activePin) then ResourceInUse else if !env.processOk then Failed else Success
      ensures status != Success ==> State() == old(State()) && registers.State() == old(registers.State())
      ensures status == Success ==>
                && State() == PinState(true, 0, 0, old(activeBufferSize),
                                       if env.readOk then channels else old(activeChannelCount))
                && registers.State() == if env.readOk && env.writeOk then Opened(old(registers.State()), channels)
                   else old(registers.State())
      ensures status == Success && env.readOk && env.writeOk ==>
                && Number(registers.generation) == (Number(old(registers.generation)) + 1) % TWO31
                && !IsActive(registers.generation) && registers.activeChannelCount == channels
                && registers.positionRegister == old(registers.positionRegister)
                && registers.bufferOffset == old(registers.bufferOffset)
                && registers.bufferSize == old(registers.bufferSize)
                && registers.notificationCount == old(registers.notificationCount)
    {
      GenerationRoundTrip(Number(registers.generation) + 1, false);
      if activePin {
        return ResourceInUse;
      }
      activePin := true;
      if !env.processOk {
        activePin := false;
        return Failed;
      }
      activeCellIndex, activeViewSize := 0, 0;
      if env.readOk {
        var regs := registers.State();
        regs := regs.(generation := MakeGeneration(Number(regs.generation) + 1, false), activeChannelCount := channels);
        activeChannelCount := channels;
        if env.writeOk {
          registers.Write(regs);
        }
      }
      return Success;
    }

    /** SarKsPinRtGetBufferCore. After a failed mapping or register access the cells stay with the pin. */
    method GetBuffer(anyAddress: bool, requested: nat, notifications: nat, env: Env)
      returns (status: Status, actualSize: nat)
      requires owner.Valid()
      requires requested < TWO32
      requires U32(owner.sampleSize * (if activeChannelCount == 0 then channelCount else activeChannelCount)) > 0
      modifies this, registers, if owner.bufferMap != null then {owner.bufferMap.bits} else {}
      ensures owner.Valid()
      ensures var channels := if old(activeChannelCount) == 0 then channelCount else old(activeChannelCount);
              var actual := ActualSize(owner.minimumFrameCount, owner.periodSizeBytes, owner.sampleSize, channels,
                                       requested);
              if !anyAddress then
                status == NotImplemented && State() == old(State())
              else if !env.processOk then
                status == Failed && State() == old(State()).(channels := channels)
              else if owner.bufferMap == null then
                status == InsufficientResources && State() == old(State()).(channels := channels)
              else
                || (&& Allocated(old(owner.bufferMap.bits[..]), owner.bufferMap.bits[..], ViewSize(actual) / CELL,
                                 NOT_FOUND)
                    && status == InsufficientResources && State() == old(State()).(channels := channels))
                || (&& Allocated(old(owner.bufferMap.bits[..]), owner.bufferMap.bits[..], ViewSize(actual) / CELL,
                                 activeCellIndex)
                    && activeCellIndex != NOT_FOUND
                    && State() == PinState(old(activePin), activeCellIndex, ViewSize(actual), actual, channels)
                    && status == (if env.mapOk && env.readOk && env.writeOk then Success else Failed)
                    && (status == Success ==>
                          (actualSize == actual &&
                           registers.State() == Published(old(registers.State()), U32(activeCellIndex * CELL), actual,
                                                          notifications))))
      ensures status == Success ==>
                && registers.bufferOffset == activeCellIndex * CELL % TWO32
                && registers.bufferSize == actualSize == activeBufferSize
                && registers.notificationCount == notifications && registers.generation == old(registers.generation)
                && registers.positionRegister == old(registers.positionRegister)
                && registers.activeChannelCount == old(registers.activeChannelCount)
      ensures status != Success ==> registers.State() == old(registers.State())
      ensures !anyAddress || !env.processOk ==> owner.bufferMap != null ==>
              owner.bufferMap.bits[..] == old(owner.bufferMap.bits[..])
    {
      actualSize := 0;
      if !anyAddress {
        return NotImplemented, 0;
      }
      if activeChannelCount == 0 {
        activeChannelCount := channelCount;
      }
      if !env.processOk {
        return Failed, 0;
      }
      var actual := ActualSize(owner.minimumFrameCount, owner.periodSizeBytes, owner.sampleSize, activeChannelCount,
                               requested);
      var view := ViewSize(actual);
      if owner.bufferMap == null {
        return InsufficientResources, 0;
      }
      ghost var was := owner.bufferMap.bits[..];
      var index := owner.bufferMap.FindClearBitsAndSet(view / CELL);
      assert Allocated(was, owner.bufferMap.bits[..], view / CELL, index);
      if index == NOT_FOUND {
        return InsufficientResources, 0;
      }
      activeCellIndex, activeViewSize, activeBufferSize := index, view, actual;
      if !env.mapOk || !env.readOk {
        return Failed, 0;
      }
      var regs := registers.State();
      regs := regs.(bufferOffset := U32(index * CELL), bufferSize := actual, notificationCount := notifications);
      if !env.writeOk {
        return Failed, 0;
      }
      registers.Write(regs);
      return Success, actual;
    }

    /** SarKsPinClose: the generation moves on before the cells are given back. */
    method PinClose(env: Env)
      requires activeViewSize > 0 ==>
               owner.bufferMap != null && activeCellIndex + activeViewSize / CELL <= owner.bufferMap.bits.Length
      modifies this, registers, if owner.bufferMap != null then {owner.bufferMap.bits} else {}
      ensures State() == PinState(false, 0, 0, old(activeBufferSize), 0)
      ensures registers.State() == if env.readOk && env.writeOk then Closed(old(registers.State()))
              else old(registers.State())
      ensures env.readOk && env.writeOk ==>
                && Number(registers.generation) == (Number(old(registers.generation)) + 1) % TWO31
                && !IsActive(registers.generation) && registers.positionRegister == old(registers.positionRegister)
                && registers.bufferOffset == old(registers.bufferOffset)
                && registers.bufferSize == old(registers.bufferSize)
                && registers.notificationCount == old(registers.notificationCount)
                && registers.activeChannelCount == old(registers.activeChannelCount)
      ensures owner.bufferMap != null ==>
                owner.bufferMap.bits[..] ==
                if old(activeViewSize) > 0
                  then SetRange(old(owner.bufferMap.bits[..]), old(activeCellIndex), old(activeViewSize) / CELL, false)
                else old(owner.bufferMap.bits[..])
    {
      GenerationRoundTrip(Number(registers.generation) + 1, false);
      if env.readOk {
        var regs := registers.State();
        regs := regs.(generation := MakeGeneration(Number(regs.generation) + 1, false));
        if env.writeOk {
          registers.Write(regs);
        }
      }
      if activeViewSize > 0 {
        owner.bufferMap.ClearBits(activeCellIndex, activeViewSize / CELL);
      }
      activeCellIndex, activeViewSize, activeChannelCount := 0, 0, 0;
      activePin := false;
    }

    /** SarKsPinSetDeviceState. */
    method SetDeviceState(to: KsState, from: KsState, env: Env) returns (status: Status)
      modifies registers
      ensures status == if NeedsChange(to, from) && !(env.readOk && env.writeOk) then Failed else Success
      ensures registers.State() == if status == Success then StateSet(old(registers.State()), to, from)
              else old(registers.State())
      ensures status == Failed <==> ((to == Run) != (from == Run) || (to == Stop) != (from == Stop)) &&
                                    !(env.readOk && env.writeOk)
      ensures status == Success && ((to == Run) != (from == Run) || (to == Stop) != (from == Stop)) ==>
                && Number(registers.generation) == Number(old(registers.generation)) % TWO31
                && IsActive(registers.generation) == (to == Run)
                && registers.positionRegister == (if (to == Stop) != (from == Stop) then 0
                                                  else old(registers.positionRegister))
      ensures registers.bufferOffset == old(registers.bufferOffset)
      ensures registers.bufferSize == old(registers.bufferSize)
      ensures registers.notificationCount == old(registers.notificationCount)
      ensures registers.activeChannelCount == old(registers.activeChannelCount)
    {
      GenerationRoundTrip(Number(registers.generation), to == Run && from != Run);
      var isActive, needsChange, resetPosition := false, false, false;
      if to == Run && from != Run {
        isActive, needsChange := true, true;
      } else if from == Run && to != Run {
        isActive, needsChange := false, true;
      }
      if to == Stop && from != Stop {
        resetPosition, needsChange := true, true;
      } else if from == Stop && to != Stop {
        resetPosition, needsChange := true, true;
      }
      if needsChange {
        if !env.readOk {
          return Failed;
        }
        var regs := registers.State();
        regs := regs.(generation := MakeGeneration(Number(regs.generation), isActive));
        if resetPosition {
          regs := regs.(position := 0);
        }
        if !env.writeOk {
          return Failed;
        }
        registers.Write(regs);
      }
      return Success;
    }
  }
}
