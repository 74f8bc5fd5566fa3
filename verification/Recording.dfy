/** What the recording ticks of one endpoint add up to: the ring holds the last frames recorded, in order. */
module Recording {
  import opened Arith
  import opened Ring
  import opened Stream
  import opened Types
  import Client
  import Protocol
  import Registers

  /** What one recording tick finds, and the host's buffers. */
  datatype Take = Take(tick: Tick, targets: seq<Option<seq<Byte>>>)

  function TicksOf(takes: seq<Take>): (ticks: seq<Tick>)
    ensures |ticks| == |takes|
  {
    seq(|takes|, t requires 0 <= t < |takes| => takes[t].tick)
  }

  /** The ring holds a period, and the host has a buffer for channel c. */
  ghost predicate TakeOk(u: Setup, take: Take, c: nat) {
    && u.Ok() && u.n <= u.g.frames && u.g.Fits(take.tick.memory) && PeriodBuffers(take.targets, u.Len())
    && c < u.g.channels && c < |take.targets| && take.targets[c].Some?
  }

  ghost predicate AllOk(u: Setup, takes: seq<Take>, c: nat) {
    u.Ok() && u.n <= u.g.frames && c < u.g.channels && forall t :: 0 <= t < |takes| ==> TakeOk(u, takes[t], c)
  }

  /** A tick writes if its first look at the generation finds the endpoint active, also if it stalls afterwards. */
  predicate Writes(take: Take) {
    Registers.IsActive(take.tick.meeting.generation)
  }

  /** The frames of a number of periods. */
  function Frames(u: Setup, periods: nat): nat {
    periods * u.n
  }

  lemma FramesStep(u: Setup, j: nat, k: nat)
    requires j < k
    ensures Frames(u, j + 1) == Frames(u, j) + u.n <= Frames(u, k)
  {
    MulMono(j + 1, k, u.n);
  }

  /** The shared section behind a tick that finds this position on record. */
  ghost function LeftAt(u: Setup, position: nat, take: Take, c: nat): (mem: seq<Byte>)
    requires TakeOk(u, take, c) && position < u.g.Size()
    ensures |mem| == |take.tick.memory|
  {
    FrameInRing(u.g, position);
    if Writes(take) then RecordedMemory(take.tick.memory, u.g, position / u.g.Stride(), u.n, take.targets)
    else take.tick.memory
  }

  lemma FrameInRing(g: Geometry, position: nat)
    requires g.Ok() && position < g.Size()
    ensures position / g.Stride() < g.frames
  {
    DivModIdentity(position, g.Stride());
    if position / g.Stride() >= g.frames { MulMono(g.frames, position / g.Stride(), g.Stride()); }
  }

  lemma FrameStartsInRing(g: Geometry, q: nat)
    requires g.Ok() && q < g.frames
    ensures q * g.Stride() < g.Size() && q * g.Stride() / g.Stride() == q
  {
    MulMono(q + 1, g.frames, g.Stride());
    DivModUnique(q, 0, g.Stride());
  }

  lemma PositionInRing(u: Setup, ticks: seq<Tick>)
    requires u.Ok()
    ensures PositionAfter(u, ticks) < u.g.Size()
    ensures PositionAfter(u, ticks) / u.g.Stride() == u.g.FrameAt(u.start, Frames(u, |Moving(u, ticks)|))
  {
    hide PositionAfter, Moving;
    PositionIsStreamFrame(u, ticks);
    FrameStartsInRing(u.g, u.g.FrameAt(u.start, Frames(u, |Moving(u, ticks)|)));
  }

  /** The shared section behind a run of ticks. */
  ghost function Left(u: Setup, takes: seq<Take>, c: nat): seq<Byte>
    requires takes != [] && AllOk(u, takes, c)
  {
    var ticks := TicksOf(takes[..|takes| - 1]);
    PositionInRing(u, ticks);
    LeftAt(u, PositionAfter(u, ticks), takes[|takes| - 1], c)
  }

  ghost predicate SameRing(g: Geometry, a: seq<Byte>, b: seq<Byte>) {
    g.Fits(a) && g.Fits(b) && forall i :: g.base <= i < g.base + g.Size() ==> a[i] == b[i]
  }

  /** Between the ticks nobody writes to the ring; the rest of the section may change. */
  ghost predicate Undisturbed(u: Setup, takes: seq<Take>, c: nat)
    requires AllOk(u, takes, c)
  {
    forall t :: 0 < t < |takes| ==> SameRing(u.g, Left(u, takes[..t], c), takes[t].tick.memory)
  }

  /** How many frames further on than the start the last period written ends. */
  ghost function WrittenTo(u: Setup, takes: seq<Take>): nat
    requires u.Ok()
  {
    if takes == [] then 0
    else
      var before := takes[..|takes| - 1];
      if Writes(takes[|takes| - 1]) then Frames(u, |Moving(u, TicksOf(before))|) + u.n else WrittenTo(u, before)
  }

  /** Byte b of frame k of the j-th period that moved the position is where the stream has it. */
  ghost predicate InPlace(u: Setup, mem: seq<Byte>, takes: seq<Take>, moving: seq<nat>, c: nat, j: nat, k: nat, b: nat)
    requires u.Ok() && j < |moving|
  {
    && moving[j] < |takes| && c < |takes[moving[j]].targets| && takes[moving[j]].targets[c].Some?
    && Same(takes[moving[j]].targets[c].value, SampleAt(u.g.sample, k, b), mem,
            u.g.Addr(u.g.FrameAt(u.start, Frames(u, j) + k), c) + b)
  }

  /** Frame k of period j is no further back from `end` than the ring is long. */
  predicate IsLate(u: Setup, j: nat, k: nat, end: nat) {
    end <= Frames(u, j) + k + u.g.frames
  }

  ghost predicate HoldsLast(u: Setup, mem: seq<Byte>, takes: seq<Take>, moving: seq<nat>, c: nat, end: nat)
    requires u.Ok()
  {
    forall j, k, b :: 0 <= j < |moving| && 0 <= k < u.n && 0 <= b < u.g.sample && IsLate(u, j, k, end) ==>
      InPlace(u, mem, takes, moving, c, j, k, b)
  }

  // ---------------------------------------------------------------------------------
  // One tick
  // ---------------------------------------------------------------------------------

  /** A frame that lies behind the period written, and not by more than the ring, is kept. */
  lemma EarlierFrameKept(u: Setup, mem: seq<Byte>, targets: seq<Option<seq<Byte>>>, written: nat, f: nat, c: nat,
                         b: nat)
    requires u.Ok() && u.g.Fits(mem) && u.n <= u.g.frames && PeriodBuffers(targets, u.Len())
    requires c < u.g.channels && b < u.g.sample && f < written && written + u.n <= f + u.g.frames
    ensures var a := u.g.Addr(u.g.FrameAt(u.start, f), c) + b;
            a < |mem| && RecordedMemory(mem, u.g, u.g.FrameAt(u.start, written), u.n, targets)[a] == mem[a]
  {
    var g, q, k := u.g, u.g.FrameAt(u.start, written), f + u.g.frames - written;
    g.Decode(g.FrameAt(u.start, f), c, b);
    ModAdd(u.start + written, k, g.frames);
    ModAddMultiple(u.start + f, 1, g.frames);
    FrameAgeInverse(g, q, g.FrameAt(u.start, f), k);
  }

  lemma NewFrameWritten(u: Setup, mem: seq<Byte>, targets: seq<Option<seq<Byte>>>, written: nat, k: nat, c: nat, b: nat)
    requires u.Ok() && u.g.Fits(mem) && u.n <= u.g.frames && PeriodBuffers(targets, u.Len())
    requires c < u.g.channels && b < u.g.sample && k < u.n && c < |targets| && targets[c].Some?
    ensures Same(targets[c].value, SampleAt(u.g.sample, k, b),
                 RecordedMemory(mem, u.g, u.g.FrameAt(u.start, written), u.n, targets),
                 u.g.Addr(u.g.FrameAt(u.start, written + k), c) + b)
  {
    var q := u.g.FrameAt(u.start, written);
    RecordedSample(mem, u.g, q, u.n, targets, c, k, b);
    ModAdd(u.start + written, k, u.g.frames);
    assert u.g.FrameAt(q, k) == u.g.FrameAt(u.start, written + k);
  }

  /** Writing a period keeps the frames before it that are still wanted. */
  lemma WritingKeepsFrame(u: Setup, mem: seq<Byte>, takes: seq<Take>, last: Take, moving: seq<nat>, c: nat, j: nat,
                          k: nat, b: nat)
    requires TakeOk(u, last, c) && u.g.Fits(mem) && j < |moving| && k < u.n && b < u.g.sample
    requires IsLate(u, j, k, Frames(u, |moving|) + u.n) && InPlace(u, mem, takes, moving, c, j, k, b)
    ensures InPlace(u, RecordedMemory(mem, u.g, u.g.FrameAt(u.start, Frames(u, |moving|)), u.n, last.targets),
                    takes + [last], moving, c, j, k, b)
  {
    FramesStep(u, j, |moving|);
    hide Frames;
    EarlierFrameKept(u, mem, last.targets, Frames(u, |moving|), Frames(u, j) + k, c, b);
  }

  lemma WritingKeeps(u: Setup, mem: seq<Byte>, takes: seq<Take>, last: Take, moving: seq<nat>, c: nat, end: nat)
    requires TakeOk(u, last, c) && u.g.Fits(mem) && end <= Frames(u, |moving|) + u.n
    requires HoldsLast(u, mem, takes, moving, c, end)
    ensures HoldsLast(u, RecordedMemory(mem, u.g, u.g.FrameAt(u.start, Frames(u, |moving|)), u.n, last.targets),
                      takes + [last], moving, c, Frames(u, |moving|) + u.n)
  {
    hide Frames, InPlace;
    var now := RecordedMemory(mem, u.g, u.g.FrameAt(u.start, Frames(u, |moving|)), u.n, last.targets);
    forall j, k, b | 0 <= j < |moving| && 0 <= k < u.n && 0 <= b < u.g.sample &&
                     IsLate(u, j, k, Frames(u, |moving|) + u.n)
      ensures InPlace(u, now, takes + [last], moving, c, j, k, b)
    {
      assert IsLate(u, j, k, end);
      WritingKeepsFrame(u, mem, takes, last, moving, c, j, k, b);
    }
  }

  /** And if the position moves on, the period written is the next one of the stream. */
  lemma PeriodAdded(u: Setup, now: seq<Byte>, mem: seq<Byte>, takes: seq<Take>, last: Take, moving: seq<nat>, c: nat,
                    end: nat)
    requires TakeOk(u, last, c) && u.g.Fits(mem)
    requires now == RecordedMemory(mem, u.g, u.g.FrameAt(u.start, Frames(u, |moving|)), u.n, last.targets)
    requires HoldsLast(u, now, takes + [last], moving, c, end)
    ensures HoldsLast(u, now, takes + [last], moving + [|takes|], c, end)
  {
    hide Frames;
    var all, moved := takes + [last], moving + [|takes|];
    forall j, k, b | 0 <= j < |moved| && 0 <= k < u.n && 0 <= b < u.g.sample && IsLate(u, j, k, end)
      ensures InPlace(u, now, all, moved, c, j, k, b)
    {
      if j < |moving| {
        assert InPlace(u, now, all, moving, c, j, k, b);
      } else {
        NewFrameWritten(u, mem, last.targets, Frames(u, |moving|), k, c, b);
      }
    }
  }

  lemma OtherMemoryHolds(u: Setup, mem: seq<Byte>, other: seq<Byte>, takes: seq<Take>, moving: seq<nat>, c: nat,
                         end: nat)
    requires u.Ok() && c < u.g.channels && SameRing(u.g, mem, other) && HoldsLast(u, mem, takes, moving, c, end)
    ensures HoldsLast(u, other, takes, moving, c, end)
  {
    hide Frames;
    forall j, k, b | 0 <= j < |moving| && 0 <= k < u.n && 0 <= b < u.g.sample && IsLate(u, j, k, end)
      ensures InPlace(u, other, takes, moving, c, j, k, b)
    {
      assert InPlace(u, mem, takes, moving, c, j, k, b);
      u.g.AddrInRing(u.g.FrameAt(u.start, Frames(u, j) + k), c);
    }
  }

  lemma OneMoreTakeHolds(u: Setup, mem: seq<Byte>, takes: seq<Take>, last: Take, moving: seq<nat>, c: nat, end: nat)
    requires u.Ok() && HoldsLast(u, mem, takes, moving, c, end)
    ensures HoldsLast(u, mem, takes + [last], moving, c, end)
  {
    hide Frames;
    forall j, k, b | 0 <= j < |moving| && 0 <= k < u.n && 0 <= b < u.g.sample && IsLate(u, j, k, end)
      ensures InPlace(u, mem, takes + [last], moving, c, j, k, b)
    {
      assert InPlace(u, mem, takes, moving, c, j, k, b);
    }
  }

  // ---------------------------------------------------------------------------------
  // Runs of ticks
  // ---------------------------------------------------------------------------------

  /** What the last tick adds. */
  lemma LastTake(u: Setup, takes: seq<Take>)
    requires u.Ok() && takes != []
    ensures var before, last := takes[..|takes| - 1], takes[|takes| - 1];
            var moving, moved := Moving(u, TicksOf(before)),
                                 OutcomeAt(u, PositionAfter(u, TicksOf(before)), last.tick).Moved?;
            && Moving(u, TicksOf(takes)) == (if moved then moving + [|before|] else moving)
            && WrittenTo(u, takes) == (if Writes(last) then Frames(u, |moving|) + u.n else WrittenTo(u, before))
            && (moved ==> Writes(last))
  {
    hide Frames, PositionAfter;
    assert TicksOf(takes)[..|takes| - 1] == TicksOf(takes[..|takes| - 1]);
  }

  /** The last period written ends where the stream does, or one period further on if the tick that wrote it did not
      move the position. */
  lemma {:induction false} WrittenBound(u: Setup, takes: seq<Take>)
    requires u.Ok()
    ensures var done := Frames(u, |Moving(u, TicksOf(takes))|);
            WrittenTo(u, takes) == done || WrittenTo(u, takes) == done + u.n
    decreases |takes|
  {
    if takes == [] {
      NothingTaken(u);
    } else {
      var before := takes[..|takes| - 1];
      hide Moving, WrittenTo, OutcomeAt, PositionAfter, Frames, TicksOf, Writes;
      WrittenBound(u, before);
      var m, moved := LastCounts(u, takes);
      FramesStep(u, m, m + 1);
    }
  }

  lemma LastCounts(u: Setup, takes: seq<Take>) returns (m: nat, moved: bool)
    requires u.Ok() && takes != []
    ensures m == |Moving(u, TicksOf(takes[..|takes| - 1]))|
    ensures |Moving(u, TicksOf(takes))| == if moved then m + 1 else m
    ensures moved ==> Writes(takes[|takes| - 1])
    ensures WrittenTo(u, takes) ==
            if Writes(takes[|takes| - 1]) then Frames(u, m) + u.n else WrittenTo(u, takes[..|takes| - 1])
  {
    var before, last := takes[..|takes| - 1], takes[|takes| - 1];
    LastTake(u, takes);
    m, moved := |Moving(u, TicksOf(before))|, OutcomeAt(u, PositionAfter(u, TicksOf(before)), last.tick).Moved?;
    hide Moving, WrittenTo, OutcomeAt, PositionAfter, Frames, TicksOf, Writes;
  }

  lemma NothingTaken(u: Setup)
    requires u.Ok()
    ensures Frames(u, |Moving(u, TicksOf([]))|) == 0 && WrittenTo(u, []) == 0
  {
  }

  /** The frame that a tick writes to. */
  lemma LeftIsNextPeriod(u: Setup, takes: seq<Take>, c: nat)
    requires takes != [] && AllOk(u, takes, c) && Writes(takes[|takes| - 1])
    ensures var before, last := takes[..|takes| - 1], takes[|takes| - 1];
            var written := Frames(u, |Moving(u, TicksOf(before))|);
            Left(u, takes, c) == RecordedMemory(last.tick.memory, u.g, u.g.FrameAt(u.start, written), u.n, last.targets)
  {
    PositionInRing(u, TicksOf(takes[..|takes| - 1]));
  }

  /** Over any run of recording ticks, whatever generations and handles they meet, the ring holds the last frames of
      the stream that the moving ticks recorded, each at its place: all of them that are no further back than the ring
      is long from the end of the last period written. That is the end of the stream, or one period further on where
      the last writing tick was discarded. */
  lemma {:induction false} RingHoldsLastFrames(u: Setup, takes: seq<Take>, c: nat)
    requires takes != [] && AllOk(u, takes, c) && Undisturbed(u, takes, c)
    ensures HoldsLast(u, Left(u, takes, c), takes, Moving(u, TicksOf(takes)), c, WrittenTo(u, takes))
    decreases |takes|
  {
    var before, last := takes[..|takes| - 1], takes[|takes| - 1];
    assert takes == before + [last];
    FoundByLast(u, takes, c);
    WrittenBound(u, before);
    LastTake(u, takes);
    hide Moving, WrittenTo, OutcomeAt, PositionAfter, Frames, HoldsLast, TicksOf, Undisturbed;
    var moving := Moving(u, TicksOf(before));
    if Writes(last) {
      LeftIsNextPeriod(u, takes, c);
      WritingKeeps(u, last.tick.memory, before, last, moving, c, WrittenTo(u, before));
      PeriodAdded(u, Left(u, takes, c), last.tick.memory, before, last, moving, c, WrittenTo(u, takes));
    } else {
      OneMoreTakeHolds(u, last.tick.memory, before, last, moving, c, WrittenTo(u, before));
    }
  }

  /** The last tick finds the ring as the ticks before it have left it. */
  lemma {:induction false} FoundByLast(u: Setup, takes: seq<Take>, c: nat)
    requires takes != [] && AllOk(u, takes, c) && Undisturbed(u, takes, c)
    ensures var before := takes[..|takes| - 1];
            HoldsLast(u, takes[|takes| - 1].tick.memory, before, Moving(u, TicksOf(before)), c, WrittenTo(u, before))
    decreases |takes|, 0
  {
    var before := takes[..|takes| - 1];
    if before != [] {
      BeforeIsUndisturbed(u, takes, c);
      RingHoldsLastFrames(u, before, c);
      assert takes[..|before|] == before;
      OtherMemoryHolds(u, Left(u, before, c), takes[|takes| - 1].tick.memory, before, Moving(u, TicksOf(before)), c,
                       WrittenTo(u, before));
    }
  }

  lemma BeforeIsUndisturbed(u: Setup, takes: seq<Take>, c: nat)
    requires takes != [] && AllOk(u, takes, c) && Undisturbed(u, takes, c)
    ensures AllOk(u, takes[..|takes| - 1], c) && Undisturbed(u, takes[..|takes| - 1], c)
  {
    var before := takes[..|takes| - 1];
    forall t | 0 < t < |before|
      ensures SameRing(u.g, Left(u, before[..t], c), before[t].tick.memory)
    {
      assert before[..t] == takes[..t];
    }
  }

  /** If the last tick moved, the stream ends where the last period written does, so the ring holds its last frames
      up to the length of the ring. */
  lemma WrittenToEnd(u: Setup, takes: seq<Take>)
    requires u.Ok() && takes != []
    requires OutcomeAt(u, PositionAfter(u, TicksOf(takes[..|takes| - 1])), takes[|takes| - 1].tick).Moved?
    ensures WrittenTo(u, takes) == Frames(u, |Moving(u, TicksOf(takes))|)
  {
    var before := takes[..|takes| - 1];
    LastTake(u, takes);
    FramesStep(u, |Moving(u, TicksOf(before))|, |Moving(u, TicksOf(before))| + 1);
  }

  /** LeftAt is what SarClient.TickEndpoint promises to leave in the section. */
  lemma LeftIsWhatTickLeaves(u: Setup, regs: Registers.Regs, q: nat, take: Take, c: nat, now: seq<Byte>)
    requires TakeOk(u, take, c)
    requires Client.RingOnRecord(regs, u.g, q, u.n, u.g.sample, |take.tick.memory|)
    requires regs.generation == take.tick.meeting.generation
    requires now == if Protocol.Usable(regs, |take.tick.memory|)
                    then RecordedMemory(take.tick.memory, u.g, q, u.n, take.targets) else take.tick.memory
    ensures regs.position < u.g.Size() && now == LeftAt(u, regs.position, take, c)
  {
    MulMono(q + 1, u.g.frames, u.g.Stride());
    DivModUnique(q, 0, u.g.Stride());
    DivModUnique(0, regs.bufferOffset + regs.bufferSize, TWO32);
  }
}
