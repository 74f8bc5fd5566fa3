/** What the ticks of one endpoint add up to: a continuous stream of frames. */
module Stream {
  import opened Arith
  import opened Ring
  import opened Types
  import Client
  import Kernel
  import Notify
  import Registers

  /** What one playback tick finds: the shared section as it is when the tick copies (the ring may be refilled
      between ticks), the generation at both reads and the handle on file. */
  datatype Tick = Tick(memory: seq<Byte>, meeting: Notify.Meeting)

  /** A ring, the frame at which the stream starts, the frames of one period, the notification count. */
  datatype Setup = Setup(g: Geometry, start: nat, n: nat, count: nat) {
    ghost predicate Ok() {
      g.Ok() && start < g.frames
    }

    function Chunk(): nat {
      n * g.Stride()
    }

    function Len(): nat {
      n * g.sample
    }
  }

  ghost predicate InRing(u: Setup, ticks: seq<Tick>) {
    forall t :: 0 <= t < |ticks| ==> u.g.Fits(ticks[t].memory)
  }

  function Meetings(ticks: seq<Tick>): (ms: seq<Notify.Meeting>)
    ensures |ms| == |ticks|
  {
    seq(|ticks|, t requires 0 <= t < |ticks| => ticks[t].meeting)
  }

  lemma SizePositive(g: Geometry)
    requires g.Ok()
    ensures g.Size() > 0
  {
    MulMono(1, g.frames, g.Stride());
  }

  /** The position on record after a run of ticks, as module Notify has it. */
  ghost function PositionAfter(u: Setup, ticks: seq<Tick>): nat
    requires u.Ok()
  {
    SizePositive(u.g);
    Notify.Ticks(Notify.Progress(u.start * u.g.Stride(), 0, []), u.count, u.g.Size(), u.Chunk(),
                 Meetings(ticks)).position
  }

  ghost function OutcomeAt(u: Setup, position: nat, tick: Tick): Notify.Outcome
    requires u.Ok()
  {
    SizePositive(u.g);
    Notify.OutcomeOf(position, u.count, u.g.Size(), u.Chunk(), tick.meeting)
  }

  /** What the host gets for channel c: silence from a tick that stalls, otherwise the period of the ring that starts
      at the position on record. */
  ghost function Output(u: Setup, position: nat, tick: Tick, c: nat): seq<Byte>
    requires u.Ok() && u.g.Fits(tick.memory) && c < u.g.channels
  {
    if OutcomeAt(u, position, tick).Stalled? then Silence(u.Len())
    else ChannelOut(tick.memory, u.g, position / u.g.Stride(), u.n, c)
  }

  /** Which ticks of a run move, in order. */
  ghost function Moving(u: Setup, ticks: seq<Tick>): seq<nat>
    requires u.Ok()
  {
    if ticks == [] then []
    else
      var before := ticks[..|ticks| - 1];
      Moving(u, before) + if OutcomeAt(u, PositionAfter(u, before), ticks[|ticks| - 1]).Moved? then [|ticks| - 1]
        else []
  }

  /** What the host gets from the ticks that move, put together. */
  ghost function Heard(u: Setup, ticks: seq<Tick>, c: nat): seq<Byte>
    requires u.Ok() && InRing(u, ticks) && c < u.g.channels
  {
    if ticks == [] then []
    else
      var before, last := ticks[..|ticks| - 1], ticks[|ticks| - 1];
      var position := PositionAfter(u, before);
      Heard(u, before, c) + if OutcomeAt(u, position, last).Moved? then Output(u, position, last, c) else []
  }

  lemma LastTick(u: Setup, ticks: seq<Tick>)
    requires u.Ok() && ticks != []
    ensures var before, last := ticks[..|ticks| - 1], ticks[|ticks| - 1];
            var position := PositionAfter(u, before);
            match OutcomeAt(u, position, last)
            case Stalled => PositionAfter(u, ticks) == position
            case Moved(next, _) => PositionAfter(u, ticks) == next == (position + u.Chunk()) % u.g.Size()
  {
    SizePositive(u.g);
    assert Meetings(ticks)[..|ticks| - 1] == Meetings(ticks[..|ticks| - 1]);
  }

  /** The position register after any run of ticks points at the frame where the stream continues: as many periods
      further on as ticks have moved. In particular it stays on a frame boundary. */
  lemma {:induction false} PositionIsStreamFrame(u: Setup, ticks: seq<Tick>)
    requires u.Ok()
    ensures PositionAfter(u, ticks) == u.g.FrameAt(u.start, |Moving(u, ticks)| * u.n) * u.g.Stride()
    decreases |ticks|
  {
    if ticks == [] {
      NoTicks(u);
    } else {
      var before := ticks[..|ticks| - 1];
      PositionIsStreamFrame(u, before);
      LastTick(u, ticks);
      PeriodLater(u, |Moving(u, before)|);
    }
  }

  lemma NoTicks(u: Setup)
    requires u.Ok()
    ensures PositionAfter(u, []) == u.start * u.g.Stride() && u.g.FrameAt(u.start, 0) == u.start
  {
    DivModUnique(0, u.start, u.g.frames);
  }

  lemma PeriodLater(u: Setup, j: nat)
    requires u.Ok()
    ensures (u.g.FrameAt(u.start, j * u.n) * u.g.Stride() + u.Chunk()) % u.g.Size()
            == u.g.FrameAt(u.start, (j + 1) * u.n) * u.g.Stride()
  {
    var q := u.g.FrameAt(u.start, j * u.n);
    assert (q + u.n) * u.g.Stride() == q * u.g.Stride() + u.Chunk();
    ModScale(q + u.n, u.g.frames, u.g.Stride());
    ModAdd(u.start + j * u.n, u.n, u.g.frames);
    assert (j + 1) * u.n == j * u.n + u.n;
  }

  /** Byte b of frame k of the j-th period of the stream, in a tick's memory. */
  ghost predicate IsStreamByte(u: Setup, out: seq<Byte>, m: nat, tick: Tick, c: nat, j: nat, k: nat, b: nat)
    requires u.Ok()
  {
    Same(out, m, tick.memory, u.g.Addr(u.g.FrameAt(u.start, j * u.n + k), c) + b)
  }

  /** A buffer holds the j-th period of the stream, as it is in the memory that the tick finds. */
  ghost predicate IsPeriod(u: Setup, out: seq<Byte>, tick: Tick, c: nat, j: nat)
    requires u.Ok()
  {
    && |out| == u.Len()
    && forall k, b :: 0 <= k < u.n && 0 <= b < u.g.sample ==>
       IsStreamByte(u, out, SampleAt(u.g.sample, k, b), tick, c, j, k, b)
  }

  lemma PeriodByte(u: Setup, tick: Tick, c: nat, j: nat, k: nat, b: nat)
    requires u.Ok() && u.g.Fits(tick.memory) && c < u.g.channels && k < u.n && b < u.g.sample
    ensures IsStreamByte(u, ChannelOut(tick.memory, u.g, u.g.FrameAt(u.start, j * u.n), u.n, c),
                         SampleAt(u.g.sample, k, b), tick, c, j, k, b)
  {
    ChannelOutAt(tick.memory, u.g, u.g.FrameAt(u.start, j * u.n), u.n, c, k, b);
    ModAdd(u.start + j * u.n, k, u.g.frames);
    assert u.g.FrameAt(u.g.FrameAt(u.start, j * u.n), k) == u.g.FrameAt(u.start, j * u.n + k);
  }

  /** A tick that moves plays the period at the frame where the stream continues. */
  lemma MovedOutput(u: Setup, ticks: seq<Tick>, tick: Tick, c: nat)
    requires u.Ok() && u.g.Fits(tick.memory) && c < u.g.channels
    requires OutcomeAt(u, PositionAfter(u, ticks), tick).Moved?
    ensures IsPeriod(u, Output(u, PositionAfter(u, ticks), tick, c), tick, c, |Moving(u, ticks)|)
  {
    var j := |Moving(u, ticks)|;
    PositionIsStreamFrame(u, ticks);
    DivModUnique(u.g.FrameAt(u.start, j * u.n), 0, u.g.Stride());
    forall k, b | 0 <= k < u.n && 0 <= b < u.g.sample
      ensures IsStreamByte(u, Output(u, PositionAfter(u, ticks), tick, c), SampleAt(u.g.sample, k, b), tick, c, j, k, b)
    {
      PeriodByte(u, tick, c, j, k, b);
    }
  }

  /** Byte b of frame k of the j-th period of a stream. */
  function StreamIndex(u: Setup, j: nat, k: nat, b: nat): nat {
    j * u.Len() + SampleAt(u.g.sample, k, b)
  }

  ghost predicate HeardRight(u: Setup, heard: seq<Byte>, ticks: seq<Tick>, moving: seq<nat>, c: nat, j: nat, k: nat,
                             b: nat)
    requires u.Ok() && j < |moving|
  {
    moving[j] < |ticks| && IsStreamByte(u, heard, StreamIndex(u, j, k, b), ticks[moving[j]], c, j, k, b)
  }

  /** The samples in `heard` are channel c of the frames start, start + 1, start + 2, ... of the ring taken round and
      round, without gap or repetition: one period for each moving tick, as the ring was when that tick copied. */
  ghost predicate IsStream(u: Setup, heard: seq<Byte>, ticks: seq<Tick>, moving: seq<nat>, c: nat)
    requires u.Ok()
  {
    && |heard| == |moving| * u.Len()
    && forall j, k, b :: 0 <= j < |moving| && 0 <= k < u.n && 0 <= b < u.g.sample ==>
         HeardRight(u, heard, ticks, moving, c, j, k, b)
  }

  /** Over any run of ticks, whatever generations and handles they meet and whatever is written to the ring in
      between, the samples that the moving ticks deliver are, put together, one periodic stream. */
  lemma {:induction false} HeardIsPeriodicStream(u: Setup, ticks: seq<Tick>, c: nat)
    requires u.Ok() && InRing(u, ticks) && c < u.g.channels
    ensures IsStream(u, Heard(u, ticks, c), ticks, Moving(u, ticks), c)
    decreases |ticks|
  {
    if ticks != [] {
      var before, last := ticks[..|ticks| - 1], ticks[|ticks| - 1];
      assert InRing(u, before) by {
        assert forall t :: 0 <= t < |before| ==> before[t] == ticks[t];
      }
      assert ticks == before + [last];
      HeardIsPeriodicStream(u, before, c);
      if OutcomeAt(u, PositionAfter(u, before), last).Moved? {
        MovedOutput(u, before, last, c);
        OneMorePeriod(u, Heard(u, before, c), Output(u, PositionAfter(u, before), last, c), before, last,
                      Moving(u, before), c);
      } else {
        OneMoreTick(u, Heard(u, before, c), before, last, Moving(u, before), c);
      }
    }
  }

  lemma OneMoreTick(u: Setup, heard: seq<Byte>, before: seq<Tick>, last: Tick, moving: seq<nat>, c: nat)
    requires u.Ok() && IsStream(u, heard, before, moving, c)
    ensures IsStream(u, heard + [], before + [last], moving + [], c)
  {
    assert heard + [] == heard && moving + [] == moving;
    forall j, k, b | 0 <= j < |moving| && 0 <= k < u.n && 0 <= b < u.g.sample
      ensures HeardRight(u, heard, before + [last], moving, c, j, k, b)
    {
      assert HeardRight(u, heard, before, moving, c, j, k, b);
    }
  }

  /** One period put behind what was heard before. */
  lemma OneMorePeriod(u: Setup, heard: seq<Byte>, out: seq<Byte>, before: seq<Tick>, last: Tick, moving: seq<nat>,
                      c: nat)
    requires u.Ok() && IsStream(u, heard, before, moving, c) && IsPeriod(u, out, last, c, |moving|)
    ensures IsStream(u, heard + out, before + [last], moving + [|before|], c)
  {
    assert (|moving| + 1) * u.Len() == |moving| * u.Len() + u.Len();
    forall j, k, b | 0 <= j < |moving| + 1 && 0 <= k < u.n && 0 <= b < u.g.sample
      ensures HeardRight(u, heard + out, before + [last], moving + [|before|], c, j, k, b)
    {
      if j < |moving| {
        assert HeardRight(u, heard, before, moving, c, j, k, b);
      } else {
        assert IsStreamByte(u, out, SampleAt(u.g.sample, k, b), last, c, j, k, b);
      }
    }
  }

  /** What the host gets from tick t of a run: its period of that stream if it moves, and silence, without any
      change of the position, if it does not. */
  ghost predicate TickRight(u: Setup, ticks: seq<Tick>, moving: seq<nat>, c: nat, t: nat)
    requires u.Ok() && c < u.g.channels && t < |ticks| && u.g.Fits(ticks[t].memory)
  {
    var j, out := |Moving(u, ticks[..t])|, Output(u, PositionAfter(u, ticks[..t]), ticks[t], c);
    if t in moving then
      j < |moving| && moving[j] == t && IsPeriod(u, out, ticks[t], c, j)
    else
      out == Silence(u.Len()) && PositionAfter(u, ticks[..t + 1]) == PositionAfter(u, ticks[..t])
  }

  lemma {:induction false} EachTick(u: Setup, ticks: seq<Tick>, c: nat, t: nat)
    requires u.Ok() && InRing(u, ticks) && c < u.g.channels && t < |ticks|
    ensures TickRight(u, ticks, Moving(u, ticks), c, t)
    decreases |ticks|
  {
    var before, last := ticks[..|ticks| - 1], ticks[|ticks| - 1];
    assert ticks == before + [last];
    if t < |before| {
      EachTick(u, before, c, t);
      TickStaysRight(u, before, last, c, t);
    } else {
      LastTickRight(u, before, last, c);
    }
  }

  lemma TickStaysRight(u: Setup, before: seq<Tick>, last: Tick, c: nat, t: nat)
    requires u.Ok() && c < u.g.channels && t < |before| && u.g.Fits(before[t].memory)
    requires TickRight(u, before, Moving(u, before), c, t)
    ensures TickRight(u, before + [last], Moving(u, before + [last]), c, t)
  {
    var ticks := before + [last];
    assert ticks[..|ticks| - 1] == before;
    assert before[..t] == ticks[..t] && before[..t + 1] == ticks[..t + 1];
  }

  lemma LastTickRight(u: Setup, before: seq<Tick>, last: Tick, c: nat)
    requires u.Ok() && u.g.Fits(last.memory) && c < u.g.channels
    ensures TickRight(u, before + [last], Moving(u, before + [last]), c, |before|)
  {
    var ticks := before + [last];
    assert ticks[..|ticks| - 1] == before && ticks[..|ticks|] == ticks;
    MovingInRange(u, before);
    LastTick(u, ticks);
    if OutcomeAt(u, PositionAfter(u, before), last).Moved? {
      MovedOutput(u, before, last, c);
    }
  }

  lemma {:induction false} MovingInRange(u: Setup, ticks: seq<Tick>)
    requires u.Ok()
    ensures forall t :: t in Moving(u, ticks) ==> t < |ticks|
    decreases |ticks|
  {
    if ticks != [] {
      MovingInRange(u, ticks[..|ticks| - 1]);
    }
  }

  /** Output is what SarClient.TickEndpoint promises to leave in a playback buffer, and its decision is the one
      made there. */
  lemma OutputIsWhatTickLeaves(u: Setup, regs: Registers.Regs, q: nat, tick: Tick, c: nat,
                               was: seq<Option<seq<Byte>>>, now: seq<Option<seq<Byte>>>)
    requires u.Ok() && Client.RingOnRecord(regs, u.g, q, u.n, u.g.sample, |tick.memory|)
    requires regs.notificationCount == u.count && regs.generation == tick.meeting.generation
    requires c < u.g.channels && c < |was| && was[c].Some?
    requires var outcome := Client.Reaction(regs, u.Len() * regs.activeChannelCount, |tick.memory|, tick.meeting.late,
                                            tick.meeting.handle);
             now == if outcome.Stalled? then Client.Silenced(was, u.Len())
                    else PlaybackOut(tick.memory, u.g, q, u.n, was)
    ensures Client.Reaction(regs, u.Len() * regs.activeChannelCount, |tick.memory|, tick.meeting.late,
                            tick.meeting.handle)
            == OutcomeAt(u, regs.position, tick)
    ensures now[c] == Some(Output(u, regs.position, tick, c))
  {
    Client.RingFits(regs, u.g, q, u.n, u.g.sample, |tick.memory|);
    DivModUnique(q, 0, u.g.Stride());
    DivModUnique(0, regs.bufferOffset + regs.bufferSize, TWO32);
    assert u.n * (u.g.sample * u.g.channels) == u.n * u.g.sample * u.g.channels;
  }

  /** Any run of ticks leaves the record describing the same ring, with the position where the stream continues; so
      the next tick finds what SarClient.TickEndpoint is proved for. */
  lemma RecordFollowsStream(u: Setup, regs: Registers.Regs, shared: nat, ticks: seq<Tick>)
    requires Client.RingOnRecord(regs, u.g, u.start, u.n, u.g.sample, shared)
    ensures u.Ok()
    ensures Client.RingOnRecord(regs.(position := PositionAfter(u, ticks)), u.g,
                                u.g.FrameAt(u.start, |Moving(u, ticks)| * u.n), u.n, u.g.sample, shared)
  {
    PositionIsStreamFrame(u, ticks);
  }

  /** Tick t of a run moves if and only if its endpoint is live and either no notification place lies on the period at
      which the stream has arrived or there is a current handle to signal. */
  lemma MovingExactlyWhen(u: Setup, ticks: seq<Tick>, t: nat)
    requires u.Ok() && 2 * u.Chunk() <= u.g.Size() && t < |ticks|
    ensures var m := ticks[t].meeting;
            var position := u.g.FrameAt(u.start, |Moving(u, ticks[..t])| * u.n) * u.g.Stride();
            t in Moving(u, ticks) <==>
            Notify.Live(m) && (Notify.Due(u.count, position, u.Chunk(), u.g.Size()) == 0 || Notify.HasHandle(m))
    decreases |ticks|
  {
    var before := ticks[..|ticks| - 1];
    MovingInRange(u, before);
    if t < |before| {
      assert before[..t] == ticks[..t];
      MovingExactlyWhen(u, before, t);
    } else {
      MovedExactlyWhen(u, before, ticks[t]);
    }
  }

  lemma MovedExactlyWhen(u: Setup, ticks: seq<Tick>, tick: Tick)
    requires u.Ok() && 2 * u.Chunk() <= u.g.Size()
    ensures var m := tick.meeting;
            var position := u.g.FrameAt(u.start, |Moving(u, ticks)| * u.n) * u.g.Stride();
            OutcomeAt(u, PositionAfter(u, ticks), tick).Moved? <==>
            Notify.Live(m) && (Notify.Due(u.count, position, u.Chunk(), u.g.Size()) == 0 || Notify.HasHandle(m))
  {
    StreamFrameInRing(u, |Moving(u, ticks)|);
    PositionIsStreamFrame(u, ticks);
    SizePositive(u.g);
    hide Notify.Due, Notify.OutcomeOf, Moving, PositionAfter;
    Notify.OutcomeExactlyWhen(PositionAfter(u, ticks), u.count, u.g.Size(), u.Chunk(), tick.meeting);
  }

  lemma StreamFrameInRing(u: Setup, j: nat)
    requires u.Ok()
    ensures u.g.FrameAt(u.start, j * u.n) * u.g.Stride() < u.g.Size()
  {
    MulMono(u.g.FrameAt(u.start, j * u.n) + 1, u.g.frames, u.g.Stride());
  }

  /** Ticks that meet a live generation and current handles all move. */
  lemma {:induction false} SteadyTicksAllMove(u: Setup, ticks: seq<Tick>)
    requires u.Ok() && forall t :: 0 <= t < |ticks| ==> Notify.Steady(ticks[t].meeting)
    ensures Moving(u, ticks) == seq(|ticks|, t => t)
    decreases |ticks|
  {
    if ticks != [] {
      var before := ticks[..|ticks| - 1];
      assert forall t :: 0 <= t < |before| ==> before[t] == ticks[t];
      SteadyTicksAllMove(u, before);
      assert Notify.Steady(ticks[|ticks| - 1].meeting);
    }
  }

  /** The endpoint as the client configured it: bytes of one channel per period, of one frame, and of one period. */
  datatype Request = Request(minimumFrames: nat, period: nat, sample: nat, channels: nat, stride: nat, chunk: nat,
                             size: nat) {
    /** Nothing wraps around in 32 bits on the way to the size, and one period comes from the configured minimum or,
        without one, from the request. */
    ghost predicate Fits() {
      && stride == sample * channels && stride > 0 && chunk == period * channels && size > 0
      && size + stride + Registers.CELL < TWO32
      && minimumFrames * period * channels + stride + Registers.CELL < TWO32
      && (minimumFrames >= 1 || size >= chunk)
    }
  }

  /** Size of the ring that the kernel makes of the request. */
  ghost function RingSize(r: Request): nat
    requires r.Fits()
  {
    Kernel.ActualSizeProps(r.minimumFrames, r.period, r.sample, r.channels, r.size);
    Kernel.ActualSize(r.minimumFrames, r.period, r.sample, r.channels, r.size)
  }

  /** A request for at least one period gets a ring of two periods. */
  ghost predicate TwoPeriods(r: Request) {
    r.Fits() && r.chunk <= r.size ==> 2 * r.chunk <= RingSize(r)
  }

  /** For a given configuration every request of at least one period gets a ring of two periods if and only if at
      least two were configured; with fewer, the request of exactly one period gets exactly that. */
  lemma TwoPeriodsExactlyWhen(r: Request, frames: nat)
    requires r.Fits() && r.size == r.chunk == frames * r.stride
    ensures (forall size: nat :: TwoPeriods(r.(size := size))) <==> r.minimumFrames >= 2
    ensures r.minimumFrames < 2 ==> RingSize(r) == r.chunk
  {
    if r.minimumFrames >= 2 {
      forall size: nat
        ensures TwoPeriods(r.(size := size))
      {
        if r.(size := size).Fits() { SizeOfRing(r.(size := size)); }
      }
    } else {
      OnePeriodStays(r, frames);
      assert !TwoPeriods(r.(size := r.size));
    }
  }

  lemma OnePeriodStays(r: Request, frames: nat)
    requires r.Fits() && r.size == r.chunk == frames * r.stride && r.minimumFrames < 2
    ensures RingSize(r) == r.chunk
  {
    Kernel.ActualSizeProps(r.minimumFrames, r.period, r.sample, r.channels, r.size);
    AtMostOne(r.minimumFrames, r.period, r.channels);
    NextMultiple(RingSize(r), frames, r.stride);
  }

  lemma AtMostOne(m: nat, period: nat, channels: nat)
    requires m < 2
    ensures m * period * channels <= period * channels
  {
    MulMono(m, 1, period);
    MulMono(m * period, period, channels);
  }

  /** The only multiple of s in [k * s, k * s + s) is k * s. */
  lemma NextMultiple(x: nat, k: nat, s: nat)
    requires s > 0 && x % s == 0 && k * s <= x < k * s + s
    ensures x == k * s
  {
    DivModUnique(k, x - k * s, s);
  }

  lemma SizeOfRing(r: Request)
    requires r.Fits()
    ensures RingSize(r) % r.stride == 0 && RingSize(r) > 0 && r.chunk <= RingSize(r)
    ensures r.minimumFrames >= 2 ==> 2 * r.chunk <= RingSize(r)
  {
    Kernel.ActualSizeProps(r.minimumFrames, r.period, r.sample, r.channels, r.size);
    EnoughPeriods(r.minimumFrames, r.chunk, RingSize(r), r.size);
  }

  /** The kernel's rounding provides what the client relies on: a whole number of frames with room for a period, which
      has to come from the request where no minimum is configured. */
  lemma KernelRingSuitsClient(r: Request, frames: nat, base: nat, shared: nat) returns (g: Geometry, size: nat)
    requires r.Fits() && frames > 0 && r.sample > 0 && r.channels > 0 && r.chunk == frames * r.stride
    ensures base + size <= shared < TWO32 ==>
              Client.RingOnRecord(Registers.Regs(0, 0, base, size, 0, r.channels), g, 0, frames, r.sample, shared)
    ensures r.minimumFrames >= 2 ==> 2 * r.chunk <= size
    ensures g == Geometry(base, FramesIn(size, r.stride), r.channels, r.sample) && size == RingSize(r)
  {
    SizeOfRing(r);
    size := RingSize(r);
    g := RingOf(size, r, frames, base, shared);
  }

  function FramesIn(size: nat, stride: nat): nat
    requires stride > 0
  {
    size / stride
  }

  lemma RingOf(size: nat, r: Request, frames: nat, base: nat, shared: nat) returns (g: Geometry)
    requires frames > 0 && r.sample > 0 && r.channels > 0 && r.stride == r.sample * r.channels && r.stride > 0
    requires size % r.stride == 0 && frames * r.stride <= size
    ensures g == Geometry(base, FramesIn(size, r.stride), r.channels, r.sample)
    ensures base + size <= shared < TWO32 ==>
              Client.RingOnRecord(Registers.Regs(0, 0, base, size, 0, r.channels), g, 0, frames, r.sample, shared)
  {
    g := Geometry(base, FramesIn(size, r.stride), r.channels, r.sample);
    WholeFrames(size, r.stride, frames);
    assert g.Stride() == r.stride;
  }

  lemma EnoughPeriods(minimumFrames: nat, chunk: nat, size: nat, requested: nat)
    requires size >= minimumFrames * chunk && size >= requested && (minimumFrames >= 1 || requested >= chunk)
    ensures chunk <= size && (minimumFrames >= 2 ==> 2 * chunk <= size)
  {
    if minimumFrames >= 1 { MulMono(1, minimumFrames, chunk); }
    if minimumFrames >= 2 { MulMono(2, minimumFrames, chunk); }
  }

  lemma WholeFrames(size: nat, stride: nat, frames: nat)
    requires stride > 0 && size % stride == 0 && frames > 0 && frames * stride <= size
    ensures size / stride * stride == size && frames <= size / stride
  {
    DivModIdentity(size, stride);
    var q := size / stride;
    MulMono(if q < frames then q + 1 else frames, frames, stride);
  }
}
