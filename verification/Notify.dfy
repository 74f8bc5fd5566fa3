/**
 When a tick moves the position and when it signals the client: the decisions at the end
 of SarClient::tick, and what they add up to over whole runs.
 */
module Notify {
  import opened Arith
  import opened Registers
  import opened Types

  /** An entry of _notificationHandles; event 0 is the null handle. */
  datatype Handle = Handle(event: nat, generation: nat)

  function NextPosition(position: nat, chunk: nat, size: nat): nat
    requires size > 0
  {
    (position + chunk) % size
  }

  /** The crossing test on two positions inside the ring. */
  predicate Crosses(count: nat, position: nat, next: nat, size: nat) {
    || (count >= 1 && position >= size / 2 && next < size / 2)
    || (count >= 2 && next >= size / 2 && position < size / 2)
  }

  datatype Outcome = Stalled | Moved(position: nat, signalled: Option<nat>)

  /** What tick does once the samples are copied. */
  function Decide(count: nat, position: nat, size: nat, chunk: nat, generation: nat, late: nat, handle: Handle): Outcome
    requires size > 0
  {
    var next := NextPosition(position, chunk, size);
    if !IsActive(late) || Number(generation) != Number(late) then Stalled
    else if !Crosses(count, position, next, size) then Moved(next, None)
    else if handle.event != 0 && Number(handle.generation) == Number(generation) then Moved(next, Some(handle.event))
    else Stalled
  }

  // ---------------------------------------------------------------------------------
  // Which places of the ring a move passes
  // ---------------------------------------------------------------------------------

  /** How many positions of the form mark + k * size lie in (from, from + distance]. */
  function Passes(from: nat, distance: nat, size: nat, mark: nat): int
    requires size > 0 && mark <= size
  {
    (from + distance + size - mark) / size - (from + size - mark) / size
  }

  /** The places at which the client wants to be told: the end of the ring, and with count 2 its middle. */
  function Due(count: nat, from: nat, distance: nat, size: nat): int
    requires size > 0
  {
    (if count >= 1 then Passes(from, distance, size, 0) else 0) +
      (if count >= 2 then Passes(from, distance, size, size / 2) else 0)
  }

  /** Passes really counts: it is additive, and a single unit step passes a mark exactly when it lands on one. */
  lemma PassesCounts(from: nat, a: nat, size: nat, mark: nat)
    requires size > 0 && mark <= size
    ensures Passes(from, 0, size, mark) == 0
    ensures Passes(from, a + 1, size, mark)
            == Passes(from, a, size, mark) + if (from + a + 1) % size == mark % size then 1 else 0
  {
    var x := from + a + size - mark;
    var q, r := x / size, x % size;
    DivModIdentity(x, size);
    ModAdd(from + a + 1, size - mark, size);
    ModAdd(mark, size - mark, size);
    if r + 1 == size {
      DivModUnique(q + 1, 0, size);
      assert x + 1 == (q + 1) * size;
      LandsOnMark(from + a + 1, size, mark);
    } else {
      DivModUnique(q, r + 1, size);
      assert x + 1 == q * size + (r + 1);
      LandsOnMark(from + a + 1, size, mark);
    }
  }

  lemma LandsOnMark(y: nat, size: nat, mark: nat)
    requires size > 0 && mark <= size
    ensures y % size == mark % size <==> (y + size - mark) % size == 0
  {
    var d := y + size - mark;
    DivModIdentity(d, size);
    if d % size == 0 {
      ModAddMultiple(mark, d / size - 1, size);
      assert (d / size - 1) * size == d / size * size - size;
      assert y == mark + (d / size - 1) * size;
    }
    if y % size == mark % size {
      DivModIdentity(y, size);
      DivModIdentity(mark, size);
      var t := y / size - mark / size + 1;
      assert t * size == y / size * size - mark / size * size + size;
      DivModUnique(t, 0, size);
    }
  }

  /** Reducing the starting point modulo the ring size does not change what is passed. */
  lemma PassesFromRing(u: nat, chunk: nat, size: nat, mark: nat)
    requires size > 0 && mark <= size
    ensures Passes(u, chunk, size, mark) == Passes(u % size, chunk, size, mark)
  {
    var k, p := u / size, u % size;
    DivModIdentity(u, size);
    ShiftDiv(p + chunk + size - mark, k, size);
    ShiftDiv(p + size - mark, k, size);
  }

  lemma ShiftDiv(x: int, k: int, size: nat)
    requires size > 0
    ensures (x + k * size) / size == x / size + k
  {
    DivModIdentity(x, size);
    assert x + k * size == (x / size + k) * size + x % size by {
      assert (x / size + k) * size == x / size * size + k * size;
    }
    DivModUnique(x / size + k, x % size, size);
  }

  lemma PassesAdd(u: nat, a: nat, b: nat, size: nat, mark: nat)
    requires size > 0 && mark <= size
    ensures Passes(u, a, size, mark) + Passes(u + a, b, size, mark) == Passes(u, a + b, size, mark)
  {
  }

  /** One move of at most half a ring passes the end (the middle) at most once, and the position test sees it. */
  lemma MoveDetected(position: nat, chunk: nat, size: nat)
    requires position < size && 2 * chunk <= size
    ensures var next, half := NextPosition(position, chunk, size), size / 2;
            && Passes(position, chunk, size, 0) == (if position >= half && next < half then 1 else 0)
            && Passes(position, chunk, size, half) == (if position < half && next >= half then 1 else 0)
  {
    var half := size / 2;
    DivModUnique(1, position, size);
    if position + chunk < size {
      DivModUnique(0, position + chunk, size);
      DivModUnique(1, position + chunk, size);
    } else {
      DivModUnique(1, position + chunk - size, size);
      DivModUnique(2, position + chunk - size, size);
    }
    if position < half {
      DivModUnique(0, position + size - half, size);
    } else {
      DivModUnique(1, position - half, size);
    }
    if position + chunk < half {
      DivModUnique(0, position + chunk + size - half, size);
    } else if position + chunk < size + half {
      DivModUnique(1, position + chunk - half, size);
    }
  }

  /** The position test is right about every position of the ring exactly when two periods fit the ring. */
  lemma DetectionExact(chunk: nat, size: nat)
    requires 0 < chunk <= size
    ensures (forall position :: 0 <= position < size ==> EndDetected(position, chunk, size)) <==> 2 * chunk <= size
  {
    if 2 * chunk <= size {
      forall position | 0 <= position < size
        ensures EndDetected(position, chunk, size)
      {
        MoveDetected(position, chunk, size);
      }
    } else {
      // A move from here reaches or passes the end, yet the test does not see it.
      var position := if size - chunk < size / 2 then size - chunk else size - 1;
      DivModUnique(1, position, size);
      DivModUnique(1, position + chunk - size, size);
      DivModUnique(2, position + chunk - size, size);
      assert !EndDetected(position, chunk, size);
    }
  }

  ghost predicate EndDetected(position: nat, chunk: nat, size: nat)
    requires size > 0
  {
    Passes(position, chunk, size, 0) > 0 <==> position >= size / 2 && NextPosition(position, chunk, size) < size / 2
  }

  // ---------------------------------------------------------------------------------
  // Runs of ticks
  // ---------------------------------------------------------------------------------

  /** What one tick meets: the generation at its first and at its second read, and the handle on file. */
  datatype Meeting = Meeting(generation: nat, late: nat, handle: Handle)

  /** Position, distance travelled since the start (not reduced modulo the ring), and events signalled. */
  datatype Progress = Progress(position: nat, travelled: nat, events: seq<nat>)

  /** A tick that finds the endpoint inactive at its first read does not get as far as deciding. */
  function OutcomeOf(position: nat, count: nat, size: nat, chunk: nat, m: Meeting): Outcome
    requires size > 0
  {
    if !IsActive(m.generation) then Stalled
    else Decide(count, position, size, chunk, m.generation, m.late, m.handle)
  }

  function TickOnce(p: Progress, count: nat, size: nat, chunk: nat, m: Meeting): Progress
    requires size > 0
  {
    match OutcomeOf(p.position, count, size, chunk, m)
    case Stalled => p
    case Moved(next, signalled) =>
      Progress(next, p.travelled + chunk, if signalled.Some? then p.events + [signalled.value] else p.events)
  }

  function Ticks(p: Progress, count: nat, size: nat, chunk: nat, ms: seq<Meeting>): Progress
    requires size > 0
    decreases |ms|
  {
    if ms == [] then p
    else TickOnce(Ticks(p, count, size, chunk, ms[..|ms| - 1]), count, size, chunk, ms[|ms| - 1])
  }

  /** The position is the distance travelled modulo the ring, and there were as many events as places passed. */
  ghost predicate Counted(p: Progress, p0: nat, count: nat, size: nat)
    requires size > 0
  {
    p.position == (p0 + p.travelled) % size && |p.events| == Due(count, p0, p.travelled, size)
  }

  lemma OneTickCounts(p: Progress, p0: nat, count: nat, size: nat, chunk: nat, m: Meeting)
    requires 2 * chunk <= size && size > 0 && p0 < size
    requires Counted(p, p0, count, size)
    ensures Counted(TickOnce(p, count, size, chunk, m), p0, count, size)
  {
    OneTickMoves(p, count, size, chunk, m);
    if TickOnce(p, count, size, chunk, m) != p {
      MovingCounts(p, TickOnce(p, count, size, chunk, m), p0, count, size, chunk);
    }
  }

  lemma MovingCounts(p: Progress, p': Progress, p0: nat, count: nat, size: nat, chunk: nat)
    requires size > 0 && Counted(p, p0, count, size)
    requires p'.travelled == p.travelled + chunk && p'.position == (p.position + chunk) % size
    requires |p'.events| == |p.events| + Due(count, p.position, chunk, size)
    ensures Counted(p', p0, count, size)
  {
    DueAdds(count, p0, p.travelled, chunk, size);
    ModAdd(p0 + p.travelled, chunk, size);
  }

  lemma DueAdds(count: nat, p0: nat, travelled: nat, chunk: nat, size: nat)
    requires size > 0
    ensures Due(count, p0, travelled + chunk, size)
            == Due(count, p0, travelled, size) + Due(count, (p0 + travelled) % size, chunk, size)
  {
    PassesFromRing(p0 + travelled, chunk, size, 0);
    PassesFromRing(p0 + travelled, chunk, size, size / 2);
    PassesAdd(p0, travelled, chunk, size, 0);
    PassesAdd(p0, travelled, chunk, size, size / 2);
  }

  lemma OneTickMoves(p: Progress, count: nat, size: nat, chunk: nat, m: Meeting)
    requires 2 * chunk <= size && size > 0 && p.position < size
    ensures var p' := TickOnce(p, count, size, chunk, m);
            || p' == p
            || (p'.travelled == p.travelled + chunk && p'.position == (p.position + chunk) % size
                && |p'.events| == |p.events| + Due(count, p.position, chunk, size))
  {
    MoveDetected(p.position, chunk, size);
  }

  lemma NothingDue(count: nat, p0: nat, size: nat)
    requires p0 < size
    ensures Due(count, p0, 0, size) == 0 && (p0 + 0) % size == p0
  {
    DivModUnique(0, p0, size);
  }

  /** Over any run of ticks, whatever generations and handles they meet: the position is the distance
      travelled modulo the ring, and exactly as many events were signalled as notification places were
      passed. So no crossing is missed or doubled, and no place is ever passed without a signal. */
  lemma {:induction false} EventsAreCrossings(p0: nat, count: nat, size: nat, chunk: nat, ms: seq<Meeting>)
    requires 2 * chunk <= size && p0 < size
    ensures Counted(Ticks(Progress(p0, 0, []), count, size, chunk, ms), p0, count, size)
    decreases |ms|
  {
    if ms == [] {
      NothingDue(count, p0, size);
    } else {
      EventsAreCrossings(p0, count, size, chunk, ms[..|ms| - 1]);
      OneTickCounts(Ticks(Progress(p0, 0, []), count, size, chunk, ms[..|ms| - 1]), p0, count, size, chunk,
                    ms[|ms| - 1]);
    }
  }

  /** A tick that passes a notification place has signalled a non-null handle registered under the
      generation number it ran with, and the pin was still active under that number; a tick that could not
      do so left the position where it was. */
  lemma PassingNeedsCurrentHandle(p: Progress, count: nat, size: nat, chunk: nat, m: Meeting)
    requires size > 0 && 2 * chunk <= size && p.position < size
    ensures var p' := TickOnce(p, count, size, chunk, m);
            || p' == p
            || (&& p'.travelled == p.travelled + chunk
                && IsActive(m.generation) && IsActive(m.late) && Number(m.late) == Number(m.generation)
                && if Due(count, p.position, chunk, size) > 0 then
                     && m.handle.event != 0 && Number(m.handle.generation) == Number(m.generation)
                     && p'.events == p.events + [m.handle.event]
                   else p'.events == p.events)
  {
    MoveDetected(p.position, chunk, size);
  }

  /** The endpoint is active under one number at both reads. */
  predicate Live(m: Meeting) {
    IsActive(m.generation) && IsActive(m.late) && Number(m.late) == Number(m.generation)
  }

  /** There is a handle on file, and it was registered under the number of the first read. */
  predicate HasHandle(m: Meeting) {
    m.handle.event != 0 && Number(m.handle.generation) == Number(m.generation)
  }

  /** A tick moves if and only if the endpoint is live and either no notification place lies on the way or there is
      a current handle to signal. Without places on the way, and so always with a count of zero, no handle is needed.
      What a moving tick does, and that any other does nothing, is given completely. */
  lemma MovesExactlyWhen(p: Progress, count: nat, size: nat, chunk: nat, m: Meeting)
    requires size > 0 && 2 * chunk <= size && p.position < size
    ensures var p', due := TickOnce(p, count, size, chunk, m), Due(count, p.position, chunk, size);
            && p' == (if Live(m) && (due == 0 || HasHandle(m)) then
                        Progress((p.position + chunk) % size, p.travelled + chunk,
                                 if due == 0 then p.events else p.events + [m.handle.event])
                      else p)
            && (chunk > 0 ==> (p'.travelled > p.travelled <==> Live(m) && (due == 0 || HasHandle(m))))
    ensures count == 0 ==> Due(count, p.position, chunk, size) == 0
  {
    MoveDetected(p.position, chunk, size);
  }

  lemma OutcomeExactlyWhen(position: nat, count: nat, size: nat, chunk: nat, m: Meeting)
    requires size > 0 && 2 * chunk <= size && position < size
    ensures OutcomeOf(position, count, size, chunk, m).Moved? <==>
            Live(m) && (Due(count, position, chunk, size) == 0 || HasHandle(m))
  {
    MoveDetected(position, chunk, size);
  }

  /** The half of the ring that a position lies in; the second half has the middle, and the odd byte. */
  function HalfOf(position: nat, size: nat): nat {
    if position < size / 2 then 1 else 2
  }

  /** For a period of any length the places are told from the halves: the end from the second half to the first, with a
      count of one or more, and the middle the other way round, with two or more. */
  lemma MovesByHalves(p: Progress, count: nat, size: nat, chunk: nat, m: Meeting)
    requires size > 0
    ensures var next := (p.position + chunk) % size;
            var told := match (HalfOf(p.position, size), HalfOf(next, size))
                        case (2, 1) => count >= 1
                        case (1, 2) => count >= 2
                        case _ => false;
            TickOnce(p, count, size, chunk, m) ==
            if Live(m) && (told ==> HasHandle(m)) then
              Progress(next, p.travelled + chunk, if told then p.events + [m.handle.event] else p.events)
            else p
  {
  }

  /** n periods on from p0. */
  ghost predicate Reached(p: Progress, p0: nat, n: nat, size: nat, chunk: nat)
    requires size > 0
  {
    p.travelled == n * chunk && p.position == (p0 + n * chunk) % size
  }

  /** Ticks that meet a live generation and a current handle all move: after n of them the position is
      (p0 + n * chunk) mod size. */
  lemma {:induction false} SteadyPosition(p0: nat, count: nat, size: nat, chunk: nat, ms: seq<Meeting>)
    requires size > 0 && p0 < size
    requires forall i :: 0 <= i < |ms| ==> Steady(ms[i])
    ensures Reached(Ticks(Progress(p0, 0, []), count, size, chunk, ms), p0, |ms|, size, chunk)
    decreases |ms|
  {
    if ms == [] {
      DivModUnique(0, p0, size);
    } else {
      var n := |ms| - 1;
      var before := ms[..n];
      assert forall i :: 0 <= i < n ==> before[i] == ms[i];
      SteadyPosition(p0, count, size, chunk, before);
      SteadyReaches(Ticks(Progress(p0, 0, []), count, size, chunk, before), p0, n, count, size, chunk, ms[n]);
    }
  }

  lemma SteadyReaches(p: Progress, p0: nat, n: nat, count: nat, size: nat, chunk: nat, m: Meeting)
    requires size > 0 && Steady(m) && Reached(p, p0, n, size, chunk)
    ensures Reached(TickOnce(p, count, size, chunk, m), p0, n + 1, size, chunk)
  {
    ModAdd(p0 + n * chunk, chunk, size);
    assert (n + 1) * chunk == n * chunk + chunk;
  }

  predicate Steady(m: Meeting) {
    Live(m) && HasHandle(m)
  }
}
