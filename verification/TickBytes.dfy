/** The bytes of the shared section that the copy of a tick moves, and who owns them while the kernel goes on. */
module TickBytes {
  import opened Arith
  import opened Cells
  import opened Client
  import opened Protocol
  import opened Registers
  import opened Ring
  import opened Types

  /** Byte a lies in one of the whole frames that a period moves. */
  predicate Moves(regs: Regs, n: nat, sample: nat, a: nat)
    requires regs.position <= regs.bufferSize
  {
    var p, stride := PlanOf(regs, n, sample), sample * regs.activeChannelCount;
    p.first <= a < p.first + p.f * stride || p.second <= a < p.second + p.s * stride
  }

  /** A period that is no longer than the ring. */
  predicate PeriodFits(regs: Regs, n: nat, sample: nat) {
    sample > 0 && regs.position <= regs.bufferSize && n * sample * regs.activeChannelCount <= regs.bufferSize
  }

  // ---------------------------------------------------------------------------------
  // What CopyPeriod touches
  // ---------------------------------------------------------------------------------

  lemma MovesInRing(regs: Regs, n: nat, sample: nat, a: nat)
    requires PeriodFits(regs, n, sample) && Moves(regs, n, sample, a)
    ensures regs.bufferOffset <= a < regs.bufferOffset + regs.bufferSize
  {
    var p, stride := PlanOf(regs, n, sample), sample * regs.activeChannelCount;
    if regs.activeChannelCount > 0 {
      PositiveProduct(sample, regs.activeChannelCount);
      PlanIsCut(regs, n, sample);
    }
  }

  lemma TouchedMoves(regs: Regs, n: nat, sample: nat, c: nat, a: nat)
    requires PeriodFits(regs, n, sample) && c < regs.activeChannelCount && regs.bufferSize > 0
    requires var p, stride := PlanOf(regs, n, sample), sample * regs.activeChannelCount;
             Touched(p.first, p.second, p.f, stride, sample, Offset(sample, c), p.f + p.s, a)
    ensures Moves(regs, n, sample, a)
  {
    var p, stride := PlanOf(regs, n, sample), sample * regs.activeChannelCount;
    var len := regs.bufferOffset + regs.bufferSize;
    PlanIsReady(regs, n, sample, len);
    var off := Offset(sample, c);
    var k :| 0 <= k < p.f + p.s &&
      RunAddr(p.first, p.second, p.f, stride, k) + off <= a < RunAddr(p.first, p.second, p.f, stride, k) + off + sample;
    OffsetFits(c, regs.activeChannelCount, sample);
    RunAddrInside(len, p.first, p.f, p.second, p.s, p.f + p.s, stride, k);
  }

  /** A recording period changes no other byte of the section. */
  lemma RecordedWritesMoved(regs: Regs, n: nat, sample: nat, was: seq<Byte>, now: seq<Byte>,
                            targets: seq<Option<seq<Byte>>>, a: nat)
    requires PeriodFits(regs, n, sample) && regs.bufferSize > 0 && Recorded(regs, n, sample, was, now, targets)
    requires a < |was|
    ensures now[a] != was[a] ==> Moves(regs, n, sample, a)
  {
    var p, stride := PlanOf(regs, n, sample), sample * regs.activeChannelCount;
    if !Moves(regs, n, sample, a) {
      forall c | 0 <= c < regs.activeChannelCount && c < |targets| && targets[c].Some?
        ensures !Touched(p.first, p.second, p.f, stride, sample, Offset(sample, c), p.f + p.s, a)
      {
        if Touched(p.first, p.second, p.f, stride, sample, Offset(sample, c), p.f + p.s, a) {
          TouchedMoves(regs, n, sample, c, a);
        }
      }
      assert Spared(targets, regs.activeChannelCount, p.first, p.second, p.f, stride, sample, p.f + p.s, a);
    }
  }

  /** What a playback period delivers depends on no other byte of the section. */
  lemma PlayedReadsMoved(regs: Regs, n: nat, sample: nat, mem: seq<Byte>, other: seq<Byte>,
                         was: seq<Option<seq<Byte>>>, now: seq<Option<seq<Byte>>>)
    requires PeriodFits(regs, n, sample) && regs.bufferSize > 0 && |other| == |mem|
    requires forall a: nat :: a < |mem| && Moves(regs, n, sample, a) ==> other[a] == mem[a]
    requires Played(regs, n, sample, mem, was, now)
    ensures Played(regs, n, sample, other, was, now)
  {
    var p, channels := PlanOf(regs, n, sample), regs.activeChannelCount;
    forall c | 0 <= c < |was| && was[c].Some? && c < channels
      ensures PlayedFromRuns(other, was[c].value, now[c].value, p.first, p.second, p.f, p.s, sample, c, channels)
    {
      CopiedFromOther(regs, n, sample, mem, other, now[c].value, c);
    }
  }

  lemma CopiedFromOther(regs: Regs, n: nat, sample: nat, mem: seq<Byte>, other: seq<Byte>, target: seq<Byte>, c: nat)
    requires PeriodFits(regs, n, sample) && regs.bufferSize > 0 && |other| == |mem| && c < regs.activeChannelCount
    requires forall a: nat :: a < |mem| && Moves(regs, n, sample, a) ==> other[a] == mem[a]
    requires var p, stride := PlanOf(regs, n, sample), sample * regs.activeChannelCount;
             AllCopied(mem, target, p.first, p.second, p.f, stride, sample, Offset(sample, c), p.f + p.s)
    ensures var p, stride := PlanOf(regs, n, sample), sample * regs.activeChannelCount;
            AllCopied(other, target, p.first, p.second, p.f, stride, sample, Offset(sample, c), p.f + p.s)
  {
    var p, stride, off := PlanOf(regs, n, sample), sample * regs.activeChannelCount, Offset(sample, c);
    forall k, b | 0 <= k < p.f + p.s && 0 <= b < sample
      ensures SampleCopied(other, target, p.first, p.second, p.f, stride, sample, off, k, b)
    {
      var a := RunAddr(p.first, p.second, p.f, stride, k) + off + b;
      assert SampleCopied(mem, target, p.first, p.second, p.f, stride, sample, off, k, b);
      assert Touched(p.first, p.second, p.f, stride, sample, off, p.f + p.s, a);
      TouchedMoves(regs, n, sample, c, a);
    }
  }

  // ---------------------------------------------------------------------------------
  // Confirmed ticks
  // ---------------------------------------------------------------------------------

  /** The cell of byte a is in use, by endpoint e and nobody else. */
  ghost predicate OwnsByte(s: State, e: nat, a: nat)
    requires e < |s.eps|
  {
    var c := a / CELL;
    c < |s.bits| && s.bits[c] && s.eps[e].Holds(c) && forall d :: 0 <= d < |s.eps| && d != e ==> !s.eps[d].Holds(c)
  }

  lemma OwnsItsBytes(s: State, e: nat, offset: nat, size: nat, a: nat)
    requires e < |s.eps| && Owns(s, e, offset, size) && offset <= a < offset + size
    ensures OwnsByte(s, e, a)
  {
    DivModIdentity(a, CELL);
    assert Touches(a / CELL, offset, size);
  }

  /** A record that the tick took is one that passed its test. */
  lemma TickIsUsable(states: seq<State>, actions: seq<Action>, e: nat, i: nat)
    requires Protocol.Run(states, actions) && i < |states| && e < |states[i].eps|
    ensures |states[i].bits| == |states[0].bits| && |states[i].eps| == |states[0].eps|
    ensures states[i].eps[e].tick.Copying? || states[i].eps[e].tick.Confirmed? ==>
              Usable(states[i].eps[e].tick.seen, SharedSize(states[0]))
  {
    if i == 0 {
      assert states[0].eps[e] == INITIAL_EP;
    } else {
      assert StepAt(states, actions, i - 1);
      TickIsUsable(states, actions, e, i - 1);
    }
  }

  /** A confirmed tick as in ConfirmedTickUsedOneRing, from its read of the generation at step i to its check at l. */
  ghost predicate ConfirmedTick(states: seq<State>, actions: seq<Action>, e: nat, i: nat, l: nat) {
    && Protocol.Run(states, actions) && i < l < |actions|
    && actions[i] == TRead(e) && e < |states[i].eps| && states[i].eps[e].tick.Fetching?
    && states[i].eps[e].tick.next == 1
    && OneTick(states, e, i + 1, l + 1)
    && actions[l] == TLate(e) && e < |states[l + 1].eps| && states[l + 1].eps[e].tick.Confirmed?
    && |states[l].eps| == |states[i].eps| && states[l].eps[e].opens - states[i].eps[e].opens < TWO31
  }

  /** Every byte that the copy of a confirmed tick moves was the endpoint's own at every moment from the read of the
      generation to the check. */
  lemma MovedBytesAreOwn(states: seq<State>, actions: seq<Action>, e: nat, i: nat, l: nat, n: nat, sample: nat, a: nat)
    requires ConfirmedTick(states, actions, e, i, l)
    requires var seen := states[l + 1].eps[e].tick.seen;
             PeriodFits(seen, n, sample) && Moves(seen, n, sample, a)
    ensures forall m :: i <= m <= l ==> e < |states[m].eps| && OwnsByte(states[m], e, a)
  {
    var seen := states[l + 1].eps[e].tick.seen;
    ConfirmedTickUsedOneRing(states, actions, e, i, l);
    MovesInRing(seen, n, sample, a);
    var ring := states[i].eps[e].alloc.value;
    forall m | i <= m <= l
      ensures e < |states[m].eps| && OwnsByte(states[m], e, a)
    {
      OwnsItsBytes(states[m], e, ring.offset, ring.size, a);
    }
  }

  /** With what CopyPeriod does: a byte that a confirmed recording tick changed belonged to its endpoint all along. */
  lemma RecordingTickWritesOwnBytes(states: seq<State>, actions: seq<Action>, e: nat, i: nat, l: nat, n: nat,
                                    sample: nat, was: seq<Byte>, now: seq<Byte>, targets: seq<Option<seq<Byte>>>)
    requires ConfirmedTick(states, actions, e, i, l)
    requires var seen := states[l + 1].eps[e].tick.seen;
             PeriodFits(seen, n, sample) && Recorded(seen, n, sample, was, now, targets)
    ensures forall a, m :: 0 <= a < |was| && now[a] != was[a] && i <= m <= l ==>
              e < |states[m].eps| && OwnsByte(states[m], e, a)
  {
    var seen := states[l + 1].eps[e].tick.seen;
    TickIsUsable(states, actions, e, l + 1);
    forall a, m | 0 <= a < |was| && now[a] != was[a] && i <= m <= l
      ensures e < |states[m].eps| && OwnsByte(states[m], e, a)
    {
      RecordedWritesMoved(seen, n, sample, was, now, targets, a);
      MovedBytesAreOwn(states, actions, e, i, l, n, sample, a);
    }
  }

  /** And what a confirmed playback tick delivered is decided by bytes that belonged to its endpoint all along. */
  lemma PlayingTickReadsOwnBytes(states: seq<State>, actions: seq<Action>, e: nat, i: nat, l: nat, n: nat, sample: nat,
                                 mem: seq<Byte>, other: seq<Byte>, was: seq<Option<seq<Byte>>>,
                                 now: seq<Option<seq<Byte>>>)
    requires ConfirmedTick(states, actions, e, i, l) && |other| == |mem|
    requires forall a: nat :: a < |mem| && OwnedThroughout(states, e, i, l, a) ==> other[a] == mem[a]
    requires var seen := states[l + 1].eps[e].tick.seen;
             PeriodFits(seen, n, sample) && Played(seen, n, sample, mem, was, now)
    ensures Played(states[l + 1].eps[e].tick.seen, n, sample, other, was, now)
  {
    var seen := states[l + 1].eps[e].tick.seen;
    TickIsUsable(states, actions, e, l + 1);
    forall a: nat | a < |mem| && Moves(seen, n, sample, a)
      ensures other[a] == mem[a]
    {
      MovedBytesAreOwn(states, actions, e, i, l, n, sample, a);
      assert OwnedThroughout(states, e, i, l, a);
    }
    PlayedReadsMoved(seen, n, sample, mem, other, was, now);
  }

  ghost predicate OwnedThroughout(states: seq<State>, e: nat, i: nat, l: nat, a: nat)
    requires l < |states|
  {
    forall m :: i <= m <= l ==> e < |states[m].eps| && OwnsByte(states[m], e, a)
  }

  // ---------------------------------------------------------------------------------
  // Ticks that have not been checked yet
  // ---------------------------------------------------------------------------------

  /** Bytes [from, from + size) lie in the cells that the endpoint has now. */
  predicate InsideCells(ep: Ep, from: nat, size: nat) {
    size == 0 || (ep.cell * CELL <= from && from + size <= (ep.cell + ep.cells) * CELL)
  }

  lemma HeldExactlyWhen(ep: Ep, a: nat)
    ensures ep.Holds(a / CELL) <==> ep.cell * CELL <= a < (ep.cell + ep.cells) * CELL
  {
    DivModIdentity(a, CELL);
  }

  /** The copy comes before the check of the generation. All the bytes it moves belong to its endpoint if and only if
      both runs lie in the cells that the endpoint has at that moment. They do if no open or close was stored since the
      tick read the generation; module Races has a run in which they do not. */
  lemma CopyIsOwnExactlyWhen(s: State, e: nat, n: nat, sample: nat)
    requires Inv(s) && e < |s.eps| && s.eps[e].tick.Copying? && PeriodFits(s.eps[e].tick.seen, n, sample)
    ensures var ep, seen := s.eps[e], s.eps[e].tick.seen;
            var p, stride := PlanOf(seen, n, sample), sample * seen.activeChannelCount;
            (forall a: nat :: Moves(seen, n, sample, a) ==> OwnsByte(s, e, a)) <==>
            InsideCells(ep, p.first, p.f * stride) && InsideCells(ep, p.second, p.s * stride)
    ensures s.eps[e].tick.start == s.eps[e].opens ==>
              forall a: nat :: Moves(s.eps[e].tick.seen, n, sample, a) ==> OwnsByte(s, e, a)
  {
    var ep, seen := s.eps[e], s.eps[e].tick.seen;
    var p, stride := PlanOf(seen, n, sample), sample * seen.activeChannelCount;
    var first, second := p.f * stride, p.s * stride;
    forall a: nat
      ensures OwnsByte(s, e, a) <==> ep.Holds(a / CELL)
      ensures ep.Holds(a / CELL) <==> ep.cell * CELL <= a < (ep.cell + ep.cells) * CELL
    {
      HeldExactlyWhen(ep, a);
    }
    if forall a: nat :: Moves(seen, n, sample, a) ==> OwnsByte(s, e, a) {
      if first > 0 { assert Moves(seen, n, sample, p.first) && Moves(seen, n, sample, p.first + first - 1); }
      if second > 0 { assert Moves(seen, n, sample, p.second) && Moves(seen, n, sample, p.second + second - 1); }
    }
    if ep.tick.start == ep.opens {
      CurrentCopyIsOwn(s, e, n, sample);
    }
  }

  lemma CurrentCopyIsOwn(s: State, e: nat, n: nat, sample: nat)
    requires Inv(s) && e < |s.eps| && s.eps[e].tick.Copying? && PeriodFits(s.eps[e].tick.seen, n, sample)
    requires s.eps[e].tick.start == s.eps[e].opens
    ensures forall a: nat :: Moves(s.eps[e].tick.seen, n, sample, a) ==> OwnsByte(s, e, a)
  {
    var seen := s.eps[e].tick.seen;
    assert InOrder(s.eps[e], |s.bits|);
    AllocIsOwned(s, e);
    forall a: nat | Moves(seen, n, sample, a)
      ensures OwnsByte(s, e, a)
    {
      MovesInRing(seen, n, sample, a);
      OwnsItsBytes(s, e, seen.bufferOffset, seen.bufferSize, a);
    }
  }
}
