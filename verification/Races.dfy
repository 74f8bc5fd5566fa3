/** Two runs of the kernel and the client in which a tick acts for a pin that is no longer there. */
module Races {
  import opened Cells
  import opened Protocol
  import opened Registers
  import opened Types

  ghost predicate Reachable(s: State) {
    exists states, actions :: Protocol.Run(states, actions) && states[|actions|] == s
  }

  lemma ReachInitial(s: State)
    requires Init(s)
    ensures Reachable(s)
  {
    var none: seq<Action> := [];
    assert Protocol.Run([s], none) && [s][|none|] == s;
  }

  lemma ReachStep(s: State, a: Action, s': State)
    requires Reachable(s) && Possible(s, a) && Disciplined(s, a) && s' == Apply(s, a)
    ensures Reachable(s')
  {
    var states, actions :| Protocol.Run(states, actions) && states[|actions|] == s;
    var states', actions' := states + [s'], actions + [a];
    forall i | 0 <= i < |actions'|
      ensures StepAt(states', actions', i)
    {
      if i < |actions| { assert StepAt(states, actions, i); }
    }
    assert Protocol.Run(states', actions') && states'[|actions'|] == s';
  }

  /** A state in which endpoint e is `ep` and the others are as in `eps`. */
  function With(bits: seq<bool>, eps: seq<Ep>, e: nat, ep: Ep): State
    requires e < |eps|
  {
    State(bits, eps[e := ep])
  }

  lemma ReachNext(bits: seq<bool>, eps: seq<Ep>, e: nat, ep: Ep, a: Action, bits': seq<bool>, ep': Ep)
    requires e < |eps| && a.e == e && Reachable(With(bits, eps, e, ep))
    requires Possible(With(bits, eps, e, ep), a) && Disciplined(With(bits, eps, e, ep), a)
    requires ep' == EpStep(ep, a, |bits| * CELL + CELL) && bits' == Apply(With(bits, eps, e, ep), a).bits
    ensures Reachable(With(bits', eps, e, ep'))
  {
    ReachStep(With(bits, eps, e, ep), a, With(bits', eps, e, ep'));
  }

  // ---------------------------------------------------------------------------------
  // Operations of the kernel, and the first part of a tick, without steps in between
  // ---------------------------------------------------------------------------------

  /** A kernel operation from its read to its last store. */
  function Completed(ep: Ep): Ep
    requires ep.pc.Reading?
  {
    Stored(ep.(regs := Target(ep, ep.pc.op).(generation := ep.regs.generation),
               pc := Storing(ep.pc.op, Target(ep, ep.pc.op), 5)))
  }

  lemma ReachCompleted(bits: seq<bool>, eps: seq<Ep>, e: nat, ep: Ep)
    requires e < |eps| && Reachable(With(bits, eps, e, ep)) && ep.pc.Reading?
    ensures Reachable(With(bits, eps, e, Completed(ep)))
  {
    var e0 := ep.(pc := Storing(ep.pc.op, Target(ep, ep.pc.op), 0));
    ReachNext(bits, eps, e, ep, KRead(e), bits, e0);
    var e1 := Stored(e0);
    ReachNext(bits, eps, e, e0, KStore(e), bits, e1);
    var e2 := Stored(e1);
    ReachNext(bits, eps, e, e1, KStore(e), bits, e2);
    var e3 := Stored(e2);
    ReachNext(bits, eps, e, e2, KStore(e), bits, e3);
    var e4 := Stored(e3);
    ReachNext(bits, eps, e, e3, KStore(e), bits, e4);
    var e5 := Stored(e4);
    ReachNext(bits, eps, e, e4, KStore(e), bits, e5);
    ReachNext(bits, eps, e, e5, KStore(e), bits, Stored(e5));
    assert Stored(e5) == Completed(ep);
  }

  /** Open a pin. */
  lemma ReachOpened(eps: seq<Ep>, e: nat, ep: Ep) returns (after: Ep)
    requires e < |eps| && Reachable(With([false], eps, e, ep)) && ep.pc.Idle? && !ep.pin && ep.alloc.None?
    requires ep.regs.generation == 0 || ep.regs.generation == 4
    ensures Reachable(With([false], eps, e, after))
    ensures after == ep.(regs := Regs(if ep.regs.generation == 0 then 2 else 6, ep.regs.position, ep.regs.bufferOffset,
                                      ep.regs.bufferSize, ep.regs.notificationCount, 1),
                         pin := true, cell := 0, cells := 0, opens := ep.opens + 1)
  {
    var open := EpStep(ep, KOpen(e, 1), 2 * CELL);
    ReachNext([false], eps, e, ep, KOpen(e, 1), [false], open);
    ReachCompleted([false], eps, e, open);
    after := Completed(open);
  }

  /** Give an open pin one ring in the only cell. */
  lemma ReachPublished(eps: seq<Ep>, e: nat, ep: Ep, size: nat) returns (published: Ep)
    requires e < |eps| && Reachable(With([false], eps, e, ep))
    requires ep.pc.Idle? && ep.pin && ep.cells == 0 && ep.alloc.None? && 0 < size <= CELL
    ensures Reachable(With([true], eps, e, published))
    ensures published == ep.(regs := Published(ep.regs, 0, size, 0), cell := 0, cells := 1, size := size,
                             alloc := Some(Alloc(0, size, 0)))
  {
    var get := KGetBuffer(e, 0, 1, size, 0, true);
    var taken := EpStep(ep, get, 2 * CELL);
    assert SetRange([false], 0, 1, true) == [true];
    ReachNext([false], eps, e, ep, get, [true], taken);
    ReachCompleted([true], eps, e, taken);
    published := Completed(taken);
  }

  /** Open a pin, give it one ring and run it. */
  lemma ReachRunning(eps: seq<Ep>, e: nat, ep: Ep, size: nat) returns (running: Ep)
    requires e < |eps| && Reachable(With([false], eps, e, ep))
    requires ep.pc.Idle? && !ep.pin && ep.alloc.None? && 0 < size <= CELL
    requires ep.regs.generation == 0 || ep.regs.generation == 4
    ensures Reachable(With([true], eps, e, running))
    ensures running == ep.(regs := Regs(if ep.regs.generation == 0 then 3 else 7, 0, 0, size, 0, 1),
                           pin := true, cell := 0, cells := 1, size := size, opens := ep.opens + 1,
                           alloc := Some(Alloc(0, size, 0)))
  {
    var created := ReachOpened(eps, e, ep);
    var published := ReachPublished(eps, e, created, size);
    var change := EpStep(published, KChange(e, Registers.Run, Stop), 2 * CELL);
    ReachNext([true], eps, e, published, KChange(e, Registers.Run, Stop), [true], change);
    ReachCompleted([true], eps, e, change);
    running := Completed(change);
  }

  /** Close the running pin of ReachRunning. */
  lemma ReachClosed(eps: seq<Ep>, e: nat, ep: Ep) returns (closed: Ep)
    requires e < |eps| && Reachable(With([true], eps, e, ep))
    requires ep.pc.Idle? && ep.pin && ep.cell == 0 && ep.cells == 1 && ep.regs.generation == 3
    ensures Reachable(With([false], eps, e, closed))
    ensures closed == ep.(regs := ep.regs.(generation := 4), pin := false, cells := 0, opens := ep.opens + 1,
                          alloc := None)
  {
    var c1 := ep.(pc := Reading(Close));
    ReachNext([true], eps, e, ep, KClose(e), [true], c1);
    ReachCompleted([true], eps, e, c1);
    var c2 := Completed(c1);
    var c3 := EpStep(c2, KClear(e), 2 * CELL);
    assert SetRange([true], 0, 1, false) == [false];
    ReachNext([true], eps, e, c2, KClear(e), [false], c3);
    closed := EpStep(c3, KRelease(e), 2 * CELL);
    ReachNext([false], eps, e, c3, KRelease(e), [false], closed);
  }

  /** A tick up to its copy, on a record that does not change meanwhile. */
  lemma ReachCopying(bits: seq<bool>, eps: seq<Ep>, e: nat, ep: Ep) returns (copying: Ep)
    requires e < |eps| && Reachable(With(bits, eps, e, ep)) && ep.tick.Waiting? && ep.regs.position == 0
    requires Usable(ep.regs, |bits| * CELL + CELL)
    ensures copying == ep.(tick := Copying(ep.regs, ep.opens)) && Reachable(With(bits, eps, e, copying))
  {
    var now := ep.(tick := Fetching(ZERO_REGS, 0, 0));
    ReachNext(bits, eps, e, ep, TStart(e), bits, now);
    var k := 0;
    while k < 6
      invariant k <= 6 && Reachable(With(bits, eps, e, now))
      invariant now.tick.Fetching? && now.tick.next == k && now == ep.(tick := now.tick)
      invariant now.tick.start == if k < 2 then 0 else ep.opens
      invariant k > 0 ==> now.tick.seen.activeChannelCount == ep.regs.activeChannelCount
      invariant k > 1 ==> now.tick.seen.generation == ep.regs.generation
      invariant k > 2 ==> now.tick.seen.bufferOffset == ep.regs.bufferOffset
      invariant k > 3 ==> now.tick.seen.bufferSize == ep.regs.bufferSize
      invariant k > 4 ==> now.tick.seen.position == ep.regs.position
      invariant k > 5 ==> now.tick.seen.notificationCount == ep.regs.notificationCount
    {
      var next := EpStep(now, TRead(e), |bits| * CELL + CELL);
      ReachNext(bits, eps, e, now, TRead(e), bits, next);
      now, k := next, k + 1;
    }
    assert now.tick.seen == ep.regs;
    copying := ep.(tick := Copying(ep.regs, ep.opens));
    ReachNext(bits, eps, e, now, TDecide(e), bits, copying);
  }

  // ---------------------------------------------------------------------------------
  // Main results
  // ---------------------------------------------------------------------------------

  /** The position is stored after the generation was checked and nothing guards that store: if the pin is
      closed and another one is opened, given a smaller ring and run in between, the new pin's record ends up
      active with a position beyond its ring, and every later tick takes it for unusable. */
  lemma LateCommitStallsNextPin() returns (s: State)
    ensures Reachable(s) && |s.eps| == 1 && s.eps[0].alloc.Some? && IsActive(s.eps[0].regs.generation)
    ensures s.eps[0].regs.position > s.eps[0].regs.bufferSize > 0 && !Usable(s.eps[0].regs, SharedSize(s))
  {
    var eps := [INITIAL_EP];
    ReachInitial(State([false], eps));
    assert With([false], eps, 0, INITIAL_EP) == State([false], eps);
    var running := ReachRunning(eps, 0, INITIAL_EP, CELL);
    var copying := ReachCopying([true], eps, 0, running);
    var confirmed := copying.(tick := Confirmed(copying.tick.seen, copying.tick.start));
    ReachNext([true], eps, 0, copying, TLate(0), [true], confirmed);
    var closed := ReachClosed(eps, 0, confirmed);
    var next := ReachRunning(eps, 0, closed, 4);
    var stored := EpStep(next, TCommit(0, 100), 2 * CELL);
    ReachNext([true], eps, 0, next, TCommit(0, 100), [true], stored);
    s := With([true], eps, 0, stored);
  }

  /** The copy comes before that check: if the pin is closed after the tick took its record for usable, and its cell
      goes to a pin of another endpoint, the copy still goes to the old ring, every cell of which now belongs to the
      ring of the other one; only then does the check refuse the tick. */
  lemma CopyIntoNextPin() returns (s: State)
    ensures Reachable(s) && |s.eps| == 2 && Possible(s, TCopy(0))
    ensures s.eps[1].alloc.Some? && IsActive(s.eps[1].regs.generation)
    ensures var seen := s.eps[0].tick.seen;
            && seen.bufferSize > 0 && seen.bufferOffset == s.eps[1].alloc.value.offset
            && seen.bufferSize == s.eps[1].alloc.value.size && Owns(s, 1, seen.bufferOffset, seen.bufferSize)
    ensures Possible(s, TLate(0)) && Apply(s, TLate(0)).eps[0].tick.Waiting?
  {
    var first := [INITIAL_EP, INITIAL_EP];
    ReachInitial(State([false], first));
    assert With([false], first, 0, INITIAL_EP) == State([false], first);
    var running := ReachRunning(first, 0, INITIAL_EP, CELL);
    var copying := ReachCopying([true], first, 0, running);
    var closed := ReachClosed(first, 0, copying);
    var second := [closed, INITIAL_EP];
    assert With([false], second, 1, INITIAL_EP) == With([false], first, 0, closed);
    var next := ReachRunning(second, 1, INITIAL_EP, CELL);
    s := With([true], second, 1, next);
    ReachableIsInOrder(s);
    AllocIsOwned(s, 1);
  }

  lemma ReachableIsInOrder(s: State)
    requires Reachable(s)
    ensures Inv(s)
  {
    var states, actions :| Protocol.Run(states, actions) && states[|actions|] == s;
    InvAlongRun(states, actions, |actions|);
  }
}
