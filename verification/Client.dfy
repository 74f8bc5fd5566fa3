/**
 One endpoint's share of SarClient::tick: read the record, copy a period between the ring
 and the host's buffers, read the generation again, then move the position and signal.
 The second generation read is a parameter, because the kernel may have changed the word.
 */
module Client {
  import opened Arith
  import opened Registers
  import opened Ring
  import opened Types
  import Kernel
  import Notify
  import Protocol

  /** What the kernel puts on record: a ring of whole frames in the shared section, the position on a frame
      boundary inside it, at least one period long. The kernel's rounding gives the whole frames and the
      period, module Stream the position. */
  ghost predicate RingOnRecord(regs: Regs, g: Geometry, start: nat, frames: nat, sample: nat, shared: nat) {
    && g.Ok() && g.sample == sample && g.channels == regs.activeChannelCount
    && regs.bufferOffset == g.base && regs.bufferSize == g.Size()
    && g.base + g.Size() <= shared < TWO32
    && start < g.frames && regs.position == start * g.Stride()
    && frames <= g.frames
  }

  /** What the code needs of a record that passes its test: the ring lies in the shared section also without
      32-bit wrap-around, and a period fits the ring. */
  ghost predicate RecordFits(regs: Regs, chunk: nat, shared: nat) {
    && 0 < regs.bufferSize && regs.position <= regs.bufferSize
    && regs.bufferOffset + regs.bufferSize <= shared && chunk <= regs.bufferSize
  }

  lemma RingFits(regs: Regs, g: Geometry, start: nat, frames: nat, sample: nat, shared: nat)
    requires RingOnRecord(regs, g, start, frames, sample, shared)
    ensures RecordFits(regs, frames * sample * regs.activeChannelCount, shared)
  {
    MulMono(frames, g.frames, g.Stride());
    MulMono(start, g.frames, g.Stride());
    MulMono(1, g.frames, g.Stride());
    assert frames * (sample * g.channels) == frames * sample * g.channels;
  }

  /** What tick decides: nothing moves if the record is not usable. */
  function Reaction(regs: Regs, chunk: nat, shared: nat, late: nat, handle: Notify.Handle): Notify.Outcome {
    if !Protocol.Usable(regs, shared) then Notify.Stalled
    else Notify.Decide(regs.notificationCount, regs.position, regs.bufferSize, chunk, regs.generation, late, handle)
  }

  /** Every host buffer that exists is silent. */
  ghost function Silenced(targets: seq<Option<seq<Byte>>>, len: nat): seq<Option<seq<Byte>>> {
    seq(|targets|, c requires 0 <= c < |targets| => if targets[c].None? then None else Some(Silence(len)))
  }

  // ---------------------------------------------------------------------------------
  // What one period moves, whatever the record says
  // ---------------------------------------------------------------------------------

  /** The two runs that tick hands to demux or mux, and the whole frames that are moved of each. */
  datatype Plan = Plan(first: nat, firstSize: nat, second: nat, secondSize: nat, f: nat, s: nat)

  function PlanOf(regs: Regs, n: nat, sample: nat): Plan
    requires regs.position <= regs.bufferSize
  {
    var stride := sample * regs.activeChannelCount;
    var chunk := n * sample * regs.activeChannelCount;
    var firstSize := if chunk < regs.bufferSize - regs.position then chunk else regs.bufferSize - regs.position;
    var f := if stride == 0 then 0 else firstSize / stride;
    Plan(regs.position + regs.bufferOffset, firstSize, regs.bufferOffset, chunk - firstSize, f,
         if 0 < f <= n && firstSize == f * stride then n - f else 0)
  }

  lemma PlanIsCut(regs: Regs, n: nat, sample: nat)
    requires regs.position <= regs.bufferSize && sample * regs.activeChannelCount > 0
    ensures var p := PlanOf(regs, n, sample);
            Cut(p.firstSize, p.secondSize, sample * regs.activeChannelCount, n, p.f, p.s)
  {
    var p, stride := PlanOf(regs, n, sample), sample * regs.activeChannelCount;
    assert n * sample * regs.activeChannelCount == n * stride;
    DivModIdentity(p.firstSize, stride);
    QuotientFits(p.f, n, stride);
    assert (n - p.f) * stride == n * stride - p.f * stride;
  }

  /** The plan without its sizes: it begins at the position and goes on at the beginning of the ring; the first run is
      as many whole frames of the period as there is room for before the end of the ring, and the second is the rest of
      the period, unless the first is empty or stops short of the end. */
  lemma PlanIsMaximal(regs: Regs, n: nat, sample: nat)
    requires regs.position <= regs.bufferSize && sample * regs.activeChannelCount > 0
    ensures var p, stride, room := PlanOf(regs, n, sample), sample * regs.activeChannelCount,
                                   regs.bufferSize - regs.position;
            && p.first == regs.bufferOffset + regs.position && p.second == regs.bufferOffset
            && p.firstSize + p.secondSize == n * stride && p.firstSize <= room
            && (p.secondSize > 0 ==> p.firstSize == room)
            && p.f <= n && p.f * stride <= room && (p.f < n ==> room < (p.f + 1) * stride)
            && p.s == if p.f > 0 && p.f * stride == room then n - p.f else 0
  {
    var p, stride := PlanOf(regs, n, sample), sample * regs.activeChannelCount;
    PlanIsCut(regs, n, sample);
    assert n * sample * regs.activeChannelCount == n * stride;
    assert (p.f + 1) * stride == p.f * stride + stride;
    if p.secondSize == 0 {
      DivModUnique(n, 0, stride);
    }
  }

  lemma QuotientFits(f: nat, n: nat, stride: nat)
    requires stride > 0 && f * stride <= n * stride
    ensures f <= n
  {
    if f > n {
      MulMono(n + 1, f, stride);
      assert false;
    }
  }

  lemma PlanIsReady(regs: Regs, n: nat, sample: nat, shared: nat)
    requires sample > 0 && RecordFits(regs, n * sample * regs.activeChannelCount, shared)
    ensures var p, stride := PlanOf(regs, n, sample), sample * regs.activeChannelCount;
            regs.activeChannelCount > 0 ==>
              && Cut(p.firstSize, p.secondSize, stride, n, p.f, p.s)
              && Runs(shared, p.first, p.f, p.second, p.s, p.f + p.s, stride)
  {
    if regs.activeChannelCount > 0 {
      PositiveProduct(sample, regs.activeChannelCount);
      PlanIsCut(regs, n, sample);
      PlanIsRuns(regs, n, sample, shared);
    }
  }

  lemma PlanIsRuns(regs: Regs, n: nat, sample: nat, shared: nat)
    requires sample * regs.activeChannelCount > 0 && RecordFits(regs, n * sample * regs.activeChannelCount, shared)
    ensures var p := PlanOf(regs, n, sample);
            Runs(shared, p.first, p.f, p.second, p.s, p.f + p.s, sample * regs.activeChannelCount)
  {
    var p, stride := PlanOf(regs, n, sample), sample * regs.activeChannelCount;
    PlanIsCut(regs, n, sample);
    assert p.s * stride <= p.secondSize;
  }

  /** Playing a period as planned takes the host buffers from `was` to `now`. */
  ghost predicate Played(regs: Regs, n: nat, sample: nat, mem: seq<Byte>,
                         was: seq<Option<seq<Byte>>>, now: seq<Option<seq<Byte>>>)
    requires regs.position <= regs.bufferSize
  {
    var p := PlanOf(regs, n, sample);
    PlayedPeriod(mem, was, now, p.first, p.second, p.f, p.s, sample, regs.activeChannelCount)
  }

  /** Recording a period as planned takes the memory from `was` to `now`. */
  ghost predicate Recorded(regs: Regs, n: nat, sample: nat, was: seq<Byte>, now: seq<Byte>,
                           targets: seq<Option<seq<Byte>>>)
    requires regs.position <= regs.bufferSize
  {
    var p := PlanOf(regs, n, sample);
    RecordedPeriod(was, now, targets, p.first, p.second, p.f, p.s, sample, regs.activeChannelCount,
                   sample * regs.activeChannelCount)
  }

  /** On a ring of whole frames the plan is the split at the ring's end. */
  lemma PlanIsSplit(regs: Regs, g: Geometry, start: nat, n: nat, sample: nat, shared: nat)
    requires RingOnRecord(regs, g, start, n, sample, shared)
    ensures regs.position <= regs.bufferSize
    ensures var p := PlanOf(regs, n, sample);
            p.first == g.FrameAddr(start) && p.second == g.base && Split(g, start, n, p.f, p.s)
  {
    var f := if n <= g.frames - start then n else g.frames - start;
    SplitSizes(g, start, n, f, n - f);
    var p := PlanOf(regs, n, sample);
    assert p.firstSize == f * g.Stride();
    DivModUnique(f, 0, g.Stride());
  }

  /** A period played from such a ring is what the ring's definition says. */
  lemma PlayedFromRing(regs: Regs, g: Geometry, start: nat, n: nat, sample: nat, mem: seq<Byte>,
                       was: seq<Option<seq<Byte>>>, now: seq<Option<seq<Byte>>>)
    requires RingOnRecord(regs, g, start, n, sample, |mem|) && PeriodBuffers(was, n * sample)
    requires regs.position <= regs.bufferSize && Played(regs, n, sample, mem, was, now)
    ensures now == PlaybackOut(mem, g, start, n, was)
  {
    PlanIsSplit(regs, g, start, n, sample, |mem|);
    var p := PlanOf(regs, n, sample);
    forall c | 0 <= c < |was|
      ensures now[c] == PlaybackOut(mem, g, start, n, was)[c]
    {
      if was[c].Some? && c < g.channels {
        PlayedIsChannelOut(mem, g, start, n, p.f, p.s, c, was[c].value, now[c].value);
      }
    }
  }

  lemma RecordedToRing(regs: Regs, g: Geometry, start: nat, n: nat, sample: nat, was: seq<Byte>, now: seq<Byte>,
                       targets: seq<Option<seq<Byte>>>)
    requires RingOnRecord(regs, g, start, n, sample, |was|) && PeriodBuffers(targets, n * sample)
    requires regs.position <= regs.bufferSize && Recorded(regs, n, sample, was, now, targets)
    ensures now == RecordedMemory(was, g, start, n, targets)
  {
    PlanIsSplit(regs, g, start, n, sample, |was|);
    var p := PlanOf(regs, n, sample);
    RecordedIsMemory(was, now, g, start, n, p.f, p.s, targets);
  }

  lemma PeriodMeetsRing(regs: Regs, playback: bool, g: Geometry, start: nat, n: nat, sample: nat, mem: seq<Byte>,
                        mem': seq<Byte>, was: seq<Option<seq<Byte>>>, now: seq<Option<seq<Byte>>>)
    requires RingOnRecord(regs, g, start, n, sample, |mem|) && PeriodBuffers(was, n * sample) && |mem'| == |mem|
    requires regs.position <= regs.bufferSize
    requires if playback then Played(regs, n, sample, mem', was, now) else Recorded(regs, n, sample, mem, mem', was)
    ensures playback ==> now == PlaybackOut(mem', g, start, n, was)
    ensures !playback ==> mem' == RecordedMemory(mem, g, start, n, was)
  {
    if playback {
      PlayedFromRing(regs, g, start, n, sample, mem', was, now);
    } else {
      RecordedToRing(regs, g, start, n, sample, mem, mem', was);
    }
  }

  /** A position at the very end of the ring passes the test of tick, but nothing is moved then: a playback
      period leaves the shared channels' buffers as the host had them and a recording period leaves the ring. */
  lemma EndOfRingMovesNothing(regs: Regs, n: nat, sample: nat, mem: seq<Byte>, now: seq<Byte>,
                              was: seq<Option<seq<Byte>>>, out: seq<Option<seq<Byte>>>)
    requires regs.position == regs.bufferSize && sample > 0
    ensures Played(regs, n, sample, mem, was, out) <==>
            |out| == |was| && forall c :: 0 <= c < |was| ==>
              out[c] == if was[c].None? then None else if c < regs.activeChannelCount then was[c]
                        else Some(Silence(|was[c].value|))
    ensures Recorded(regs, n, sample, mem, now, was) <==> now == mem
  {
    var p := PlanOf(regs, n, sample);
    if regs.activeChannelCount > 0 { NothingFits(sample * regs.activeChannelCount); }
    assert p.f == 0 && p.s == 0;
    forall c | 0 <= c < |was| && was[c].Some? && |out| == |was| && c < regs.activeChannelCount && out[c].Some?
      ensures PlayedFromRuns(mem, was[c].value, out[c].value, p.first, p.second, p.f, p.s, sample, c,
                             regs.activeChannelCount)
              <==> out[c] == was[c]
    {
      assert KeptFrom(was[c].value, out[c].value, 0) <==> out[c].value == was[c].value;
    }
    forall a: nat
      ensures Spared(was, regs.activeChannelCount, p.first, p.second, p.f, sample * regs.activeChannelCount, sample, 0,
                     a)
    {
    }
  }

  lemma NothingFits(stride: nat)
    ensures stride > 0 ==> 0 / stride == 0
  {
  }

  class SarClient {
    const sharedBuffer: array<Byte>
    const periodFrameSize: nat
    const sampleSize: nat

    constructor (sharedBuffer: array<Byte>, periodFrameSize: nat, sampleSize: nat)
      ensures this.sharedBuffer == sharedBuffer && this.periodFrameSize == periodFrameSize &&
              this.sampleSize == sampleSize
    {
      this.sharedBuffer, this.periodFrameSize, this.sampleSize := sharedBuffer, periodFrameSize, sampleSize;
    }

    method SilenceTargets(targets: seq<array?<Byte>>)
      requires Separate(sharedBuffer, targets, periodFrameSize * sampleSize)
      modifies NonNull(targets)
      ensures Contents(targets) == Silenced(old(Contents(targets)), periodFrameSize * sampleSize)
    {
      for i := 0 to |targets|
        invariant forall c :: 0 <= c < i && targets[c] != null ==>
                  targets[c][..] == Silence(periodFrameSize * sampleSize)
      {
        if targets[i] != null {
          assert targets[i] in targets;
          Zero(targets[i]);
        }
      }
    }

    /** The tick body for one endpoint. A record that is not usable gives silence and changes nothing else. With
        a usable one whole frames move as planned, and on a ring of whole frames that is exactly the ring
        specification, whatever the wrap point. The position moves, and the event is signalled, exactly as
        Notify.Decide says, and a tick that may not move leaves silence. */
    method TickEndpoint(record: Kernel.RegisterRecord, playback: bool, targets: seq<array?<Byte>>,
                        late: nat, handle: Notify.Handle, ghost g: Geometry, ghost start: nat)
      returns (signalled: Option<nat>)
      requires sampleSize > 0 && Separate(sharedBuffer, targets, periodFrameSize * sampleSize)
      requires Protocol.Usable(record.State(), sharedBuffer.Length) ==>
                 RecordFits(record.State(), periodFrameSize * sampleSize * record.activeChannelCount,
                            sharedBuffer.Length)
      modifies NonNull(targets), sharedBuffer, record`positionRegister
      ensures var regs, len := old(record.State()), periodFrameSize * sampleSize;
              var outcome := Reaction(regs, len * regs.activeChannelCount, sharedBuffer.Length, late, handle);
              && record.State() == (if outcome.Stalled? then regs else regs.(position := outcome.position))
              && signalled == (if outcome.Stalled? then None else outcome.signalled)
              && (outcome.Stalled? ==> Contents(targets) == Silenced(old(Contents(targets)), len))
      ensures Protocol.Usable(old(record.State()), sharedBuffer.Length) <==>
              && old(record.generation) % 2 == 1 && old(record.bufferSize) > 0
              && old(record.positionRegister) <= old(record.bufferSize)
              && (old(record.bufferOffset) + old(record.bufferSize)) % TWO32 <= sharedBuffer.Length
      ensures playback || !Protocol.Usable(old(record.State()), sharedBuffer.Length) ==>
                sharedBuffer[..] == old(sharedBuffer[..])
      ensures Protocol.Usable(old(record.State()), sharedBuffer.Length) ==>
                var regs, len := old(record.State()), periodFrameSize * sampleSize;
                var outcome := Reaction(regs, len * regs.activeChannelCount, sharedBuffer.Length, late, handle);
                && (!playback ==> Recorded(regs, periodFrameSize, sampleSize, old(sharedBuffer[..]), sharedBuffer[..],
                                           old(Contents(targets))))
                && (outcome.Moved? && playback ==>
                      Played(regs, periodFrameSize, sampleSize, sharedBuffer[..], old(Contents(targets)),
                             Contents(targets)))
                && (outcome.Moved? && !playback ==> Contents(targets) == old(Contents(targets)))
      ensures Protocol.Usable(old(record.State()), sharedBuffer.Length) &&
              RingOnRecord(old(record.State()), g, start, periodFrameSize, sampleSize, sharedBuffer.Length) ==>
                var regs, len := old(record.State()), periodFrameSize * sampleSize;
                var outcome := Reaction(regs, len * regs.activeChannelCount, sharedBuffer.Length, late, handle);
                && PeriodBuffers(old(Contents(targets)), len)
                && (!playback ==> sharedBuffer[..] == RecordedMemory(old(sharedBuffer[..]), g, start, periodFrameSize,
                                                                     old(Contents(targets))))
                && (outcome.Moved? && playback ==>
                      Contents(targets) == PlaybackOut(sharedBuffer[..], g, start, periodFrameSize,
                                                       old(Contents(targets))))
    {
      var asioBufferSize := periodFrameSize * sampleSize;
      var activeChannelCount := record.activeChannelCount;
      var generation := record.generation;
      var endpointBufferOffset := record.bufferOffset;
      var endpointBufferSize := record.bufferSize;
      var positionRegister := record.positionRegister;
      var frameChunkSize := asioBufferSize * activeChannelCount;
      var notificationCount := record.notificationCount;
      signalled := None;

      if !IsActive(generation) || endpointBufferSize == 0 || positionRegister > endpointBufferSize ||
         U32(endpointBufferOffset + endpointBufferSize) > sharedBuffer.Length {
        SilenceTargets(targets);
        return;
      }

      BuffersAreOnePeriod(sharedBuffer, targets, asioBufferSize);
      CopyPeriod(record.State(), playback, targets);
      if RingOnRecord(record.State(), g, start, periodFrameSize, sampleSize, sharedBuffer.Length) {
        PeriodMeetsRing(record.State(), playback, g, start, periodFrameSize, sampleSize, old(sharedBuffer[..]),
                        sharedBuffer[..], old(Contents(targets)), Contents(targets));
      }
      SilencedAgain(old(Contents(targets)), Contents(targets), asioBufferSize);
      signalled := Conclude(record, targets, generation, endpointBufferSize, positionRegister, frameChunkSize,
                            notificationCount, late, handle);
    }

    /** The end of the tick: compare generations, look for a crossing, move the position or fall silent. */
    method Conclude(record: Kernel.RegisterRecord, targets: seq<array?<Byte>>, generation: nat, size: nat,
                    position: nat, chunk: nat, notificationCount: nat, late: nat, handle: Notify.Handle)
      returns (signalled: Option<nat>)
      requires size > 0 && Separate(sharedBuffer, targets, periodFrameSize * sampleSize)
      modifies NonNull(targets), record`positionRegister
      ensures var outcome := Notify.Decide(notificationCount, position, size, chunk, generation, late, handle);
              if outcome.Stalled? then
                && Contents(targets) == Silenced(old(Contents(targets)), periodFrameSize * sampleSize)
                && record.State() == old(record.State()) && signalled == None
              else
                && Contents(targets) == old(Contents(targets))
                && record.State() == old(record.State()).(position := outcome.position) &&
                   signalled == outcome.signalled
    {
      signalled := None;
      if !IsActive(late) || Number(generation) != Number(late) {
        SilenceTargets(targets);
        return;
      }
      var nextPositionRegister := (position + chunk) % size;
      if (notificationCount >= 1 && position >= size / 2 && nextPositionRegister < size / 2) ||
         (notificationCount >= 2 && nextPositionRegister >= size / 2 && position < size / 2) {
        if handle.event != 0 && Number(handle.generation) == Number(generation) {
          record.positionRegister := nextPositionRegister;
          signalled := Some(handle.event);
        } else {
          SilenceTargets(targets);
        }
      } else {
        record.positionRegister := nextPositionRegister;
      }
    }

    /** The split into two runs and the copy. */
    method CopyPeriod(regs: Regs, playback: bool, targets: seq<array?<Byte>>)
      requires sampleSize > 0 && Separate(sharedBuffer, targets, periodFrameSize * sampleSize)
      requires RecordFits(regs, periodFrameSize * sampleSize * regs.activeChannelCount, sharedBuffer.Length)
      modifies NonNull(targets), sharedBuffer
      ensures if playback then
                && sharedBuffer[..] == old(sharedBuffer[..])
                && Played(regs, periodFrameSize, sampleSize, sharedBuffer[..], old(Contents(targets)),
                          Contents(targets))
              else
                && Contents(targets) == old(Contents(targets))
                && Recorded(regs, periodFrameSize, sampleSize, old(sharedBuffer[..]), sharedBuffer[..],
                            Contents(targets))
    {
      var asioBufferSize := periodFrameSize * sampleSize;
      var frameChunkSize := asioBufferSize * regs.activeChannelCount;
      var first := regs.position + regs.bufferOffset;
      var firstSize := if frameChunkSize < regs.bufferSize - regs.position then frameChunkSize
        else regs.bufferSize - regs.position;
      var secondSize := frameChunkSize - firstSize;
      ghost var p := PlanOf(regs, periodFrameSize, sampleSize);
      PlanIsReady(regs, periodFrameSize, sampleSize, sharedBuffer.Length);
      if playback {
        Demux(sharedBuffer, first, firstSize, regs.bufferOffset, secondSize, targets, regs.activeChannelCount,
              asioBufferSize, sampleSize, periodFrameSize, p.f, p.s);
      } else {
        Mux(sharedBuffer, first, firstSize, regs.bufferOffset, secondSize, targets, regs.activeChannelCount,
            asioBufferSize, sampleSize, periodFrameSize, p.f, p.s);
      }
    }
  }

  lemma BuffersAreOnePeriod(mem: array<Byte>, targets: seq<array?<Byte>>, len: nat)
    requires Separate(mem, targets, len)
    ensures PeriodBuffers(Contents(targets), len)
  {
  }

  lemma PositiveProduct(a: nat, b: nat)
    requires a > 0 && b > 0
    ensures a * b > 0
  {
  }

  lemma SilencedAgain(before: seq<Option<seq<Byte>>>, after: seq<Option<seq<Byte>>>, len: nat)
    requires |before| == |after| && forall c :: 0 <= c < |before| ==> (before[c].None? <==> after[c].None?)
    ensures Silenced(after, len) == Silenced(before, len)
  {
  }

  lemma SplitSizes(g: Geometry, start: nat, n: nat, f: nat, s: nat)
    requires Split(g, start, n, f, s)
    ensures var stride, chunk := g.Stride(), n * g.Stride();
            && start * stride <= g.Size() && chunk == n * g.sample * g.channels
            && f * stride == (if chunk < g.Size() - start * stride then chunk else g.Size() - start * stride)
            && s * stride == chunk - f * stride
  {
    var stride := g.Stride();
    MulMono(start, g.frames, stride);
    assert (g.frames - start) * stride == g.Size() - start * stride;
    if n <= g.frames - start {
      MulMono(n, g.frames - start, stride);
    } else {
      MulMono(g.frames - start, n, stride);
    }
    assert (n - f) * stride == n * stride - f * stride;
    assert n * (g.sample * g.channels) == n * g.sample * g.channels;
  }
}
