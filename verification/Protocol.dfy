/**
 Kernel and client running against each other on the shared register records.

 Every read and every store of a register field is a step of its own, and steps of the
 kernel and of the client interleave in any order. On one endpoint the kernel runs one
 operation at a time and the client one tick at a time; different endpoints are
 independent except for the cell bitmap, which changes under the context's mutex.
 A kernel read of the record is one step: only the client writes the record between two
 kernel operations, and it writes only the position.
 */
module Protocol {
  import opened Arith
  import opened Registers
  import opened Cells
  import opened Types

  /** A ring that was published for a pin. */
  datatype Alloc = Alloc(offset: nat, size: nat, notifications: nat)

  datatype KernelOp = Open(channels: nat) | Publish(notifications: nat) | Change(to: KsState, from: KsState) | Close

  /** Where the kernel is: `Reading` will read the record, `Storing` has stored the first `next` fields of
      `regs`, `Clearing` and `Releasing` are the end of SarKsPinClose. */
  datatype KernelPc = Idle | Reading(op: KernelOp) | Storing(op: KernelOp, regs: Regs, next: nat) | Clearing | Releasing

  /** Where the client is. `seen` holds the fields read so far, `start` counts the opens and closes that
      had been stored when the generation was read (no program variable: it is there to state premises). */
  datatype TickPc =
    | Waiting
    | Fetching(seen: Regs, next: nat, start: nat)
    | Copying(seen: Regs, start: nat)
    | Confirmed(seen: Regs, start: nat)

  /** One endpoint: its register record, the fields of its pin, and both program counters. `opens` counts
      the stores that moved the generation number, `alloc` is the ring published for the open pin; neither
      is a program variable. */
  datatype Ep = Ep(regs: Regs, pin: bool, cell: nat, cells: nat, size: nat, pc: KernelPc, tick: TickPc, opens: nat,
                   alloc: Option<Alloc>) {
    predicate Holds(c: nat) {
      cell <= c < cell + cells
    }
  }

  datatype State = State(bits: seq<bool>, eps: seq<Ep>)

  const INITIAL_EP := Ep(ZERO_REGS, false, 0, 0, 0, Idle, Waiting, 0, None)

  ghost predicate Init(s: State) {
    && |s.bits| * CELL < TWO32
    && (forall c :: 0 <= c < |s.bits| ==> !s.bits[c])
    && forall e :: 0 <= e < |s.eps| ==> s.eps[e] == INITIAL_EP
  }

  datatype Action =
    | KOpen(e: nat, channels: nat)
    | KGetBuffer(e: nat, index: nat, count: nat, actual: nat, notifications: nat, mapped: bool)
    | KChange(e: nat, to: KsState, from: KsState)
    | KClose(e: nat)
    | KRead(e: nat)
    | KStore(e: nat)
    | KClear(e: nat)
    | KRelease(e: nat)
    | TStart(e: nat)
    | TRead(e: nat)
    | TDecide(e: nat)
    | TCopy(e: nat)
    | TLate(e: nat)
    | TCommit(e: nat, chunk: nat)
    | TStall(e: nat)

  /** The five plain stores of SarWriteEndpointRegisters, then the generation. */
  function StoreField(regs: Regs, from: Regs, field: nat): Regs {
    match field
    case 0 => regs.(position := from.position)
    case 1 => regs.(bufferOffset := from.bufferOffset)
    case 2 => regs.(bufferSize := from.bufferSize)
    case 3 => regs.(notificationCount := from.notificationCount)
    case 4 => regs.(activeChannelCount := from.activeChannelCount)
    case _ => regs.(generation := from.generation)
  }

  /** The reads of SarClient::tick, in program order. */
  function FetchField(seen: Regs, regs: Regs, field: nat): Regs {
    match field
    case 0 => seen.(activeChannelCount := regs.activeChannelCount)
    case 1 => seen.(generation := regs.generation)
    case 2 => seen.(bufferOffset := regs.bufferOffset)
    case 3 => seen.(bufferSize := regs.bufferSize)
    case 4 => seen.(position := regs.position)
    case _ => seen.(notificationCount := regs.notificationCount)
  }

  /** What the kernel operation will store, from what it reads. */
  function Target(ep: Ep, op: KernelOp): Regs {
    match op
    case Open(channels) => Opened(ep.regs, channels)
    case Publish(notifications) => Published(ep.regs, U32(ep.cell * CELL), ep.size, notifications)
    case Change(to, from) => StateSet(ep.regs, to, from)
    case Close => Closed(ep.regs)
  }

  /** The silence test of tick. */
  predicate Usable(seen: Regs, sharedSize: nat) {
    && IsActive(seen.generation)
    && seen.bufferSize != 0
    && seen.position <= seen.bufferSize
    && U32(seen.bufferOffset + seen.bufferSize) <= sharedSize
  }

  function SharedSize(s: State): nat {
    |s.bits| * CELL + CELL
  }

  predicate Possible(s: State, a: Action) {
    && a.e < |s.eps|
    && var ep := s.eps[a.e];
       match a
       case KOpen(_, _) => ep.pc.Idle? && !ep.pin
       case KGetBuffer(_, index, count, actual, _, _) =>
         ep.pc.Idle? && ep.pin && index + count <= |s.bits| &&
           (forall c :: index <= c < index + count ==> !s.bits[c]) && actual <= count * CELL
       case KChange(_, to, from) => ep.pc.Idle? && ep.pin && NeedsChange(to, from)
       case KClose(_) => ep.pc.Idle? && ep.pin
       case KRead(_) => ep.pc.Reading?
       case KStore(_) => ep.pc.Storing?
       case KClear(_) => ep.pc.Clearing? && ep.cell + ep.cells <= |s.bits|
       case KRelease(_) => ep.pc.Releasing?
       case TStart(_) => ep.tick.Waiting?
       case TRead(_) => ep.tick.Fetching? && ep.tick.next < 6
       case TDecide(_) => ep.tick.Fetching? && ep.tick.next == 6
       case TCopy(_) => ep.tick.Copying?
       case TLate(_) => ep.tick.Copying?
       case TCommit(_, _) => ep.tick.Confirmed? && ep.tick.seen.bufferSize > 0
       case TStall(_) => ep.tick.Confirmed?
  }

  /** How the endpoint named by the action changes. */
  function EpStep(ep: Ep, a: Action, sharedSize: nat): Ep {
    match a
    case KOpen(_, channels) => ep.(pin := true, cell := 0, cells := 0, pc := Reading(Open(channels)))
    case KGetBuffer(_, index, count, actual, notifications, mapped) =>
      ep.(cell := index, cells := count, size := actual, pc := if mapped then Reading(Publish(notifications)) else Idle)
    case KChange(_, to, from) => ep.(pc := Reading(Change(to, from)))
    case KClose(_) => ep.(pc := Reading(Close))
    case KRead(_) => if ep.pc.Reading? then ep.(pc := Storing(ep.pc.op, Target(ep, ep.pc.op), 0)) else ep
    case KStore(_) => if ep.pc.Storing? then Stored(ep) else ep
    case KClear(_) => ep.(cell := 0, cells := 0, pc := Releasing)
    case KRelease(_) => ep.(pin := false, pc := Idle)
    case TStart(_) => ep.(tick := Fetching(ZERO_REGS, 0, 0))
    case TRead(_) =>
      if ep.tick.Fetching? then
        ep.(tick := Fetching(FetchField(ep.tick.seen, ep.regs, ep.tick.next), ep.tick.next + 1,
                             if ep.tick.next == 1 then ep.opens else ep.tick.start))
      else ep
    case TDecide(_) =>
      if ep.tick.Fetching? && Usable(ep.tick.seen, sharedSize) then ep.(tick := Copying(ep.tick.seen, ep.tick.start))
      else ep.(tick := Waiting)
    case TCopy(_) => ep
    case TLate(_) =>
      if ep.tick.Copying? && IsActive(ep.regs.generation) &&
        Number(ep.regs.generation) == Number(ep.tick.seen.generation) then
        ep.(tick := Confirmed(ep.tick.seen, ep.tick.start))
      else ep.(tick := Waiting)
    case TCommit(_, chunk) =>
      if ep.tick.Confirmed? && ep.tick.seen.bufferSize > 0 then
        ep.(regs := ep.regs.(position := (ep.tick.seen.position + chunk) % ep.tick.seen.bufferSize), tick := Waiting)
      else ep
    case TStall(_) => ep.(tick := Waiting)
  }

  /** One store of the record; storing the generation ends the operation. */
  function Stored(ep: Ep): Ep
    requires ep.pc.Storing?
  {
    var op, regs, next := ep.pc.op, ep.pc.regs, ep.pc.next;
    var ep' := ep.(regs := StoreField(ep.regs, regs, next));
    if next < 5 then ep'.(pc := Storing(op, regs, next + 1))
    else match op
      case Open(_) => ep'.(pc := Idle, opens := ep.opens + 1)
      case Publish(_) => ep'.(pc := Idle, alloc := Some(Alloc(ep.cell * CELL, ep.size, regs.notificationCount)))
      case Change(_, _) => ep'.(pc := Idle)
      case Close => ep'.(pc := if ep.cells > 0 then Clearing else Releasing, opens := ep.opens + 1, alloc := None)
  }

  function Apply(s: State, a: Action): State
    requires Possible(s, a)
  {
    var bits := if a.KGetBuffer? then SetRange(s.bits, a.index, a.count, true)
                else if a.KClear? then SetRange(s.bits, s.eps[a.e].cell, s.eps[a.e].cells, false)
                else s.bits;
    State(bits, s.eps[a.e := EpStep(s.eps[a.e], a, SharedSize(s))])
  }

  /** What the audio engine is trusted to do with a pin: ask for one buffer, of positive size, and only run
      it after it got the buffer. */
  predicate Disciplined(s: State, a: Action) {
    && (a.KGetBuffer? && a.e < |s.eps| ==> s.eps[a.e].cells == 0 && s.eps[a.e].alloc.None? && a.actual > 0)
    && (a.KChange? && a.e < |s.eps| && a.to.Run? ==> s.eps[a.e].alloc.Some?)
  }

  ghost predicate Run(states: seq<State>, actions: seq<Action>) {
    && |states| == |actions| + 1
    && Init(states[0])
    && forall i :: 0 <= i < |actions| ==> StepAt(states, actions, i)
  }

  ghost predicate StepAt(states: seq<State>, actions: seq<Action>, i: nat)
    requires i < |actions| < |states|
  {
    Possible(states[i], actions[i]) && Disciplined(states[i], actions[i]) &&
      states[i + 1] == Apply(states[i], actions[i])
  }

  // ---------------------------------------------------------------------------------
  // Who owns a cell
  // ---------------------------------------------------------------------------------

  /** The set bits are exactly the cells of the endpoints, and no cell has two endpoints. */
  ghost predicate Partition(s: State) {
    && (forall e: nat, c: nat {:trigger s.eps[e].Holds(c)} :: e < |s.eps| && s.eps[e].Holds(c) ==>
        c < |s.bits| && s.bits[c])
    && (forall c :: 0 <= c < |s.bits| && s.bits[c] ==> HasHolder(s, c))
    && (forall e: nat, d: nat, c: nat {:trigger s.eps[e].Holds(c), s.eps[d].Holds(c)} ::
          e < |s.eps| && d < |s.eps| && e != d && s.eps[e].Holds(c) ==> !s.eps[d].Holds(c))
  }

  ghost predicate HasHolder(s: State, c: nat) {
    exists e :: 0 <= e < |s.eps| && s.eps[e].Holds(c)
  }

  predicate Touches(c: nat, offset: nat, size: nat) {
    c * CELL < offset + size && offset < (c + 1) * CELL
  }

  /** Every cell that bytes [offset, offset + size) touch is in use, by endpoint e and nobody else. */
  ghost predicate Owns(s: State, e: nat, offset: nat, size: nat)
    requires e < |s.eps|
  {
    forall c: nat :: Touches(c, offset, size) ==>
      c < |s.bits| && s.bits[c] && s.eps[e].Holds(c) && forall d :: 0 <= d < |s.eps| && d != e ==> !s.eps[d].Holds(c)
  }

  // ---------------------------------------------------------------------------------
  // The invariant of one endpoint
  // ---------------------------------------------------------------------------------

  ghost predicate SameLayout(r: Regs, regs: Regs) {
    r.bufferOffset == regs.bufferOffset && r.bufferSize == regs.bufferSize &&
      r.notificationCount == regs.notificationCount
  }

  ghost predicate InOrder(ep: Ep, bound: nat) {
    && ep.regs.generation < TWO32
    && Number(ep.regs.generation) == ep.opens % TWO31
    && (IsActive(ep.regs.generation) ==> ep.alloc.Some?)
    && ep.cell + ep.cells <= bound
    && (ep.alloc.Some? ==>
          && ep.pin && ep.cells > 0 && !ep.pc.Clearing? && !ep.pc.Releasing?
          && ep.alloc == Some(Alloc(ep.regs.bufferOffset, ep.regs.bufferSize, ep.regs.notificationCount))
          && ep.regs.bufferOffset == ep.cell * CELL
          && 0 < ep.regs.bufferSize <= ep.cells * CELL)
    && (!ep.pin ==> ep.cells == 0 && ep.pc.Idle?)
    && KernelInOrder(ep)
    && TickInOrder(ep)
  }

  ghost predicate KernelInOrder(ep: Ep) {
    match ep.pc
    case Idle => true
    case Reading(op) => OpInOrder(ep, op)
    case Storing(op, r, next) =>
      && next < 6 && OpInOrder(ep, op) && r.generation < TWO32
      && (match op
          case Open(_) =>
            SameLayout(r, ep.regs) && Number(r.generation) == (ep.opens + 1) % TWO31 && !IsActive(r.generation)
          case Publish(n) =>
            && r.generation == ep.regs.generation && r.bufferOffset == ep.cell * CELL && r.bufferSize == ep.size
            && (next > 1 ==> ep.regs.bufferOffset == r.bufferOffset)
            && (next > 2 ==> ep.regs.bufferSize == r.bufferSize)
            && (next > 3 ==> ep.regs.notificationCount == r.notificationCount)
          case Change(_, _) =>
            && SameLayout(r, ep.regs) && Number(r.generation) == ep.opens % TWO31
            && (IsActive(r.generation) ==> ep.alloc.Some?)
          case Close =>
            SameLayout(r, ep.regs) && Number(r.generation) == (ep.opens + 1) % TWO31 && !IsActive(r.generation))
    case Clearing => ep.alloc.None?
    case Releasing => ep.alloc.None? && ep.cells == 0
  }

  ghost predicate OpInOrder(ep: Ep, op: KernelOp) {
    match op
    case Open(_) => ep.alloc.None? && ep.cells == 0
    case Publish(_) => ep.alloc.None? && ep.cells > 0 && 0 < ep.size <= ep.cells * CELL
    case Change(to, from) => to.Run? ==> ep.alloc.Some?
    case Close => true
  }

  /** As long as the generation number the client saw is still current, what it has read so far is the
      layout of the open pin's ring. */
  ghost predicate TickInOrder(ep: Ep) {
    match ep.tick
    case Waiting => true
    case Fetching(seen, next, start) => next <= 6 && (next >= 2 ==> SeenInOrder(ep, seen, next, start))
    case Copying(seen, start) => IsActive(seen.generation) && SeenInOrder(ep, seen, 6, start)
    case Confirmed(seen, start) => IsActive(seen.generation) && SeenInOrder(ep, seen, 6, start)
  }

  ghost predicate SeenInOrder(ep: Ep, seen: Regs, next: nat, start: nat) {
    && start <= ep.opens
    && Number(seen.generation) == start % TWO31
    && (ep.opens == start && IsActive(seen.generation) ==>
          && ep.alloc.Some?
          && (next > 2 ==> seen.bufferOffset == ep.alloc.value.offset)
          && (next > 3 ==> seen.bufferSize == ep.alloc.value.size)
          && (next > 5 ==> seen.notificationCount == ep.alloc.value.notifications))
  }

  ghost predicate Inv(s: State) {
    && |s.bits| * CELL < TWO32
    && Partition(s)
    && forall e :: 0 <= e < |s.eps| ==> InOrder(s.eps[e], |s.bits|)
  }

  lemma OpenReadKeeps(ep: Ep, bound: nat)
    requires InOrder(ep, bound) && ep.pc.Reading? && (ep.pc.op.Open? || ep.pc.op.Close?)
    ensures InOrder(ep.(pc := Storing(ep.pc.op, Target(ep, ep.pc.op), 0)), bound)
  {
    GenerationRoundTrip(Number(ep.regs.generation) + 1, false);
    ModAdd(ep.opens, 1, TWO31);
  }

  lemma PublishReadKeeps(ep: Ep, bound: nat)
    requires InOrder(ep, bound) && ep.pc.Reading? && ep.pc.op.Publish? && bound * CELL < TWO32
    ensures InOrder(ep.(pc := Storing(ep.pc.op, Target(ep, ep.pc.op), 0)), bound)
  {
    MulMono(ep.cell, bound, CELL);
    DivModUnique(0, ep.cell * CELL, TWO32);
  }

  lemma ChangeReadKeeps(ep: Ep, bound: nat)
    requires InOrder(ep, bound) && ep.pc.Reading? && ep.pc.op.Change?
    ensures InOrder(ep.(pc := Storing(ep.pc.op, Target(ep, ep.pc.op), 0)), bound)
  {
    GenerationRoundTrip(Number(ep.regs.generation), ep.pc.op.to.Run? && !ep.pc.op.from.Run?);
  }

  lemma KernelReadKeeps(ep: Ep, a: Action, bound: nat)
    requires InOrder(ep, bound) && a.KRead? && ep.pc.Reading? && bound * CELL < TWO32
    ensures InOrder(EpStep(ep, a, bound * CELL + CELL), bound)
  {
    match ep.pc.op
    case Open(_) => OpenReadKeeps(ep, bound);
    case Close => OpenReadKeeps(ep, bound);
    case Publish(_) => PublishReadKeeps(ep, bound);
    case Change(_, _) => ChangeReadKeeps(ep, bound);
  }

  lemma FieldStoreKeeps(ep: Ep, bound: nat)
    requires InOrder(ep, bound) && ep.pc.Storing? && ep.pc.next < 5
    ensures InOrder(Stored(ep), bound)
  {
    match ep.pc.op
    case Open(_) =>
    case Close =>
    case Publish(_) =>
    case Change(_, _) =>
  }

  lemma GenerationStoreKeeps(ep: Ep, bound: nat)
    requires InOrder(ep, bound) && ep.pc.Storing? && ep.pc.next == 5
    ensures InOrder(Stored(ep), bound)
  {
    match ep.pc.op
    case Open(_) =>
    case Close =>
    case Publish(_) =>
    case Change(_, _) =>
  }

  lemma TickReadKeeps(ep: Ep, bound: nat, sharedSize: nat)
    requires InOrder(ep, bound) && ep.tick.Fetching? && ep.tick.next < 6
    ensures forall e: nat :: InOrder(EpStep(ep, TRead(e), sharedSize), bound)
  {
  }

  lemma TickStepKeeps(ep: Ep, a: Action, bound: nat, sharedSize: nat)
    requires InOrder(ep, bound) && (a.TDecide? ==> ep.tick.Fetching? && ep.tick.next == 6)
    requires a.TStart? || a.TDecide? || a.TCopy? || a.TLate? || a.TCommit? || a.TStall?
    ensures InOrder(EpStep(ep, a, sharedSize), bound)
  {
  }

  lemma KernelStartKeeps(s: State, a: Action)
    requires Inv(s) && Possible(s, a) && Disciplined(s, a)
    requires a.KOpen? || a.KGetBuffer? || a.KChange? || a.KClose? || a.KClear? || a.KRelease?
    ensures InOrder(EpStep(s.eps[a.e], a, SharedSize(s)), |s.bits|)
  {
  }

  lemma EpStepKeeps(s: State, a: Action)
    requires Inv(s) && Possible(s, a) && Disciplined(s, a)
    ensures InOrder(EpStep(s.eps[a.e], a, SharedSize(s)), |s.bits|)
  {
    var ep := s.eps[a.e];
    match a
    case KRead(_) => KernelReadKeeps(ep, a, |s.bits|);
    case KStore(_) => if ep.pc.next < 5 { FieldStoreKeeps(ep, |s.bits|); } else { GenerationStoreKeeps(ep, |s.bits|); }
    case TRead(_) => TickReadKeeps(ep, |s.bits|, SharedSize(s));
    case TStart(_) => TickStepKeeps(ep, a, |s.bits|, SharedSize(s));
    case TDecide(_) => TickStepKeeps(ep, a, |s.bits|, SharedSize(s));
    case TCopy(_) => TickStepKeeps(ep, a, |s.bits|, SharedSize(s));
    case TLate(_) => TickStepKeeps(ep, a, |s.bits|, SharedSize(s));
    case TCommit(_, _) => TickStepKeeps(ep, a, |s.bits|, SharedSize(s));
    case TStall(_) => TickStepKeeps(ep, a, |s.bits|, SharedSize(s));
    case _ => KernelStartKeeps(s, a);
  }

  /** An endpoint without cells takes a clear run. */
  lemma TakingKeepsPartition(s: State, s': State, e: nat, index: nat, count: nat)
    requires Partition(s) && e < |s.eps| == |s'.eps| && s.eps[e].cells == 0
    requires index + count <= |s.bits| && (forall c :: index <= c < index + count ==> !s.bits[c])
    requires s'.bits == SetRange(s.bits, index, count, true) && s'.eps[e].cell == index && s'.eps[e].cells == count
    requires forall d :: 0 <= d < |s.eps| && d != e ==> s'.eps[d] == s.eps[d]
    ensures Partition(s')
  {
    forall c | 0 <= c < |s'.bits| && s'.bits[c]
      ensures HasHolder(s', c)
    {
      if index <= c < index + count {
        assert s'.eps[e].Holds(c);
      } else {
        assert HasHolder(s, c);
        var d :| 0 <= d < |s.eps| && s.eps[d].Holds(c);
        assert s'.eps[d].Holds(c);
      }
    }
    forall x: nat, d: nat, c: nat | x < |s.eps| && d < |s.eps| && x != d && s'.eps[x].Holds(c)
      ensures !s'.eps[d].Holds(c)
    {
      if x != e && d != e {
        assert s.eps[x].Holds(c);
      } else if x == e {
        assert !s.bits[c] && !s.eps[d].Holds(c);
      } else {
        assert s.eps[x].Holds(c) && s.bits[c];
      }
    }
  }

  /** An endpoint gives back exactly its cells. */
  lemma GivingKeepsPartition(s: State, s': State, e: nat)
    requires Partition(s) && e < |s.eps| == |s'.eps| && s.eps[e].cell + s.eps[e].cells <= |s.bits|
    requires s'.bits == SetRange(s.bits, s.eps[e].cell, s.eps[e].cells, false) && s'.eps[e].cells == 0
    requires forall d :: 0 <= d < |s.eps| && d != e ==> s'.eps[d] == s.eps[d]
    ensures Partition(s')
  {
    forall c | 0 <= c < |s'.bits| && s'.bits[c]
      ensures HasHolder(s', c)
    {
      assert HasHolder(s, c);
      var d :| 0 <= d < |s.eps| && s.eps[d].Holds(c);
      assert s'.eps[d].Holds(c);
    }
    forall d: nat, c: nat | d < |s'.eps| && s'.eps[d].Holds(c)
      ensures c < |s'.bits| && s'.bits[c]
    {
      assert s.eps[d].Holds(c);
      assert !s.eps[e].Holds(c);
    }
    forall x: nat, d: nat, c: nat | x < |s.eps| && d < |s.eps| && x != d && s'.eps[x].Holds(c)
      ensures !s'.eps[d].Holds(c)
    {
      assert s.eps[x].Holds(c) && !s.eps[d].Holds(c);
    }
  }

  /** Steps that move no cells keep the partition. */
  lemma SameCellsKeepPartition(s: State, s': State)
    requires Partition(s) && |s.eps| == |s'.eps| && s'.bits == s.bits
    requires forall d: nat, c: nat :: d < |s.eps| ==> (s'.eps[d].Holds(c) <==> s.eps[d].Holds(c))
    ensures Partition(s')
  {
    forall c | 0 <= c < |s'.bits| && s'.bits[c]
      ensures HasHolder(s', c)
    {
      assert HasHolder(s, c);
      var d :| 0 <= d < |s.eps| && s.eps[d].Holds(c);
      assert s'.eps[d].Holds(c);
    }
  }

  lemma PartitionKept(s: State, a: Action)
    requires Inv(s) && Possible(s, a) && Disciplined(s, a)
    ensures Partition(Apply(s, a))
  {
    if a.KGetBuffer? {
      TakingKeepsPartition(s, Apply(s, a), a.e, a.index, a.count);
    } else if a.KClear? {
      GivingKeepsPartition(s, Apply(s, a), a.e);
    } else {
      SameCellsKeepPartition(s, Apply(s, a));
    }
  }

  lemma StepKeepsInv(s: State, a: Action)
    requires Inv(s) && Possible(s, a) && Disciplined(s, a)
    ensures Inv(Apply(s, a))
  {
    EpStepKeeps(s, a);
    PartitionKept(s, a);
  }

  lemma InvAlongRun(states: seq<State>, actions: seq<Action>, i: nat)
    requires Run(states, actions) && i < |states|
    ensures Inv(states[i])
  {
    if i == 0 {
      forall e, c: nat | 0 <= e < |states[0].eps|
        ensures !states[0].eps[e].Holds(c)
      {
        assert states[0].eps[e] == INITIAL_EP;
      }
    } else {
      InvAlongRun(states, actions, i - 1);
      assert StepAt(states, actions, i - 1);
      StepKeepsInv(states[i - 1], actions[i - 1]);
    }
  }

  // ---------------------------------------------------------------------------------
  // Main results
  // ---------------------------------------------------------------------------------

  /** In every reachable state, also after failed mappings, the set bits are the disjoint union of the
      endpoints' cells, and a ring on record lies inside the cells of its own endpoint, in front of the
      register cell, which starts at or after |bits| * CELL. */
  lemma RingIsInside(states: seq<State>, actions: seq<Action>, i: nat, e: nat)
    requires Run(states, actions) && i < |states| && e < |states[i].eps|
    ensures Partition(states[i])
    ensures var s, ep := states[i], states[i].eps[e];
            ep.alloc.Some? ==>
              && ep.alloc.value.offset == ep.regs.bufferOffset && ep.alloc.value.size == ep.regs.bufferSize > 0
              && ep.regs.bufferOffset + ep.regs.bufferSize <= |s.bits| * CELL < SharedSize(s)
              && Owns(s, e, ep.regs.bufferOffset, ep.regs.bufferSize)
  {
    InvAlongRun(states, actions, i);
    var s := states[i];
    assert InOrder(s.eps[e], |s.bits|);
    if s.eps[e].alloc.Some? {
      AllocIsOwned(s, e);
      MulMono(s.eps[e].cell + s.eps[e].cells, |s.bits|, CELL);
    }
  }

  /** Two rings on record never share a byte. */
  lemma RingsAreDisjoint(states: seq<State>, actions: seq<Action>, i: nat, e: nat, d: nat)
    requires Run(states, actions) && i < |states|
    requires var s := states[i];
             e < |s.eps| && d < |s.eps| && e != d && s.eps[e].alloc.Some? && s.eps[d].alloc.Some?
    ensures var r, q := states[i].eps[e].regs, states[i].eps[d].regs;
            r.bufferOffset + r.bufferSize <= q.bufferOffset || q.bufferOffset + q.bufferSize <= r.bufferOffset
  {
    InvAlongRun(states, actions, i);
    var ep, dp := states[i].eps[e], states[i].eps[d];
    assert InOrder(ep, |states[i].bits|) && InOrder(dp, |states[i].bits|);
    if ep.cell + ep.cells > dp.cell && dp.cell + dp.cells > ep.cell {
      var c := if ep.cell < dp.cell then dp.cell else ep.cell;
      assert ep.Holds(c) && dp.Holds(c);
      assert false;
    } else if ep.cell + ep.cells <= dp.cell {
      MulMono(ep.cell + ep.cells, dp.cell, CELL);
    } else {
      MulMono(dp.cell + dp.cells, ep.cell, CELL);
    }
  }

  lemma AllocIsOwned(s: State, e: nat)
    requires Inv(s) && e < |s.eps| && s.eps[e].alloc.Some?
    ensures Owns(s, e, s.eps[e].alloc.value.offset, s.eps[e].alloc.value.size)
  {
    var ep := s.eps[e];
    forall c: nat | Touches(c, ep.alloc.value.offset, ep.alloc.value.size)
      ensures ep.Holds(c)
    {
      if c >= ep.cell + ep.cells { MulMono(ep.cell + ep.cells, c, CELL); }
      if c + 1 <= ep.cell { MulMono(c + 1, ep.cell, CELL); }
    }
  }

  /** Without the one-buffer-per-pin discipline the bitmap leaks: taking cells for a pin keeps the set bits
      equal to the endpoints' cells if and only if the pin had none. */
  lemma SecondBufferLeaks(s: State, a: Action)
    requires Inv(s) && Possible(s, a) && a.KGetBuffer? && a.count > 0
    ensures Partition(Apply(s, a)) <==> s.eps[a.e].cells == 0
  {
    var s' := Apply(s, a);
    if s.eps[a.e].cells == 0 {
      TakingKeepsPartition(s, s', a.e, a.index, a.count);
    } else {
      var c := s.eps[a.e].cell;
      assert s.eps[a.e].Holds(c) && s'.bits[c];
      forall d: nat | d < |s'.eps|
        ensures !s'.eps[d].Holds(c)
      {
      }
    }
  }

  lemma OpensNeverShrink(states: seq<State>, actions: seq<Action>, e: nat, i: nat, j: nat)
    requires Run(states, actions) && i <= j < |states| && e < |states[i].eps|
    ensures |states[j].eps| == |states[i].eps| && states[i].eps[e].opens <= states[j].eps[e].opens
    decreases j - i
  {
    if i < j {
      OpensNeverShrink(states, actions, e, i, j - 1);
      assert StepAt(states, actions, j - 1);
    }
  }

  /** While no open or close is stored, the ring published for the endpoint does not change. */
  lemma AllocStable(states: seq<State>, actions: seq<Action>, e: nat, i: nat, j: nat)
    requires Run(states, actions) && i <= j < |states| && e < |states[i].eps| && |states[j].eps| == |states[i].eps|
    requires states[i].eps[e].opens == states[j].eps[e].opens && states[i].eps[e].alloc.Some?
    ensures states[j].eps[e].alloc == states[i].eps[e].alloc
    decreases j - i
  {
    if i < j {
      OpensNeverShrink(states, actions, e, i, j - 1);
      OpensNeverShrink(states, actions, e, j - 1, j);
      AllocStable(states, actions, e, i, j - 1);
      InvAlongRun(states, actions, j - 1);
      assert StepAt(states, actions, j - 1);
    }
  }

  /** The client is in one tick on endpoint e, past its generation read, at every state in [i, j]. */
  ghost predicate OneTick(states: seq<State>, e: nat, i: nat, j: nat)
    requires j < |states|
  {
    forall m :: i <= m <= j ==> InTick(states[m], e)
  }

  ghost predicate InTick(s: State, e: nat) {
    && e < |s.eps|
    && match s.eps[e].tick
       case Waiting => false
       case Fetching(_, next, _) => next >= 2
       case Copying(_, _) => true
       case Confirmed(_, _) => true
  }

  function TickStart(t: TickPc): nat {
    match t
    case Waiting => 0
    case Fetching(_, _, start) => start
    case Copying(_, start) => start
    case Confirmed(_, start) => start
  }

  lemma TickKeepsStart(states: seq<State>, actions: seq<Action>, e: nat, i: nat, j: nat)
    requires Run(states, actions) && i <= j < |states| && OneTick(states, e, i, j)
    ensures TickStart(states[j].eps[e].tick) == TickStart(states[i].eps[e].tick)
    ensures states[j].eps[e].tick.seen.generation == states[i].eps[e].tick.seen.generation
    decreases j - i
  {
    if i < j {
      TickKeepsStart(states, actions, e, i, j - 1);
      assert InTick(states[j - 1], e) && InTick(states[j], e);
      assert StepAt(states, actions, j - 1);
    }
  }

  /** The central safety property. A tick reads the generation at step i and finds it unchanged at step l,
      after its copy; fewer than 2^31 opens and closes were stored in between. Then the offset, size and
      notification count it used are those of one and the same published ring, the ring of the pin that was
      open all along, and the endpoint owned every cell of that ring at every moment from i to l. */
  lemma ConfirmedTickUsedOneRing(states: seq<State>, actions: seq<Action>, e: nat, i: nat, l: nat)
    requires Run(states, actions) && i < l < |actions|
    requires actions[i] == TRead(e) && e < |states[i].eps| && states[i].eps[e].tick.Fetching? &&
             states[i].eps[e].tick.next == 1
    requires OneTick(states, e, i + 1, l + 1)
    requires actions[l] == TLate(e) && states[l + 1].eps[e].tick.Confirmed?
    requires |states[l].eps| == |states[i].eps| && states[l].eps[e].opens - states[i].eps[e].opens < TWO31
    ensures states[i].eps[e].alloc.Some?
    ensures var ring, seen := states[i].eps[e].alloc.value, states[l + 1].eps[e].tick.seen;
            && seen.bufferOffset == ring.offset && seen.bufferSize == ring.size
            && seen.notificationCount == ring.notifications
            && forall m :: i <= m <= l ==>
                 e < |states[m].eps| && states[m].eps[e].alloc == Some(ring) &&
                   Owns(states[m], e, ring.offset, ring.size)
  {
    assert StepAt(states, actions, i);
    assert StepAt(states, actions, l);
    TickKeepsStart(states, actions, e, i + 1, l);
    OpensNeverShrink(states, actions, e, i, l);
    InvAlongRun(states, actions, i);
    InvAlongRun(states, actions, i + 1);
    InvAlongRun(states, actions, l);
    assert InTick(states[l], e);
    SameNumberSameOpens(states[i].eps[e].opens, states[l].eps[e].opens);
    var ring := states[l].eps[e].alloc.value;
    forall m | i <= m <= l
      ensures e < |states[m].eps| && states[m].eps[e].alloc == Some(ring) && Owns(states[m], e, ring.offset, ring.size)
    {
      OpensNeverShrink(states, actions, e, i, m);
      OpensNeverShrink(states, actions, e, m, l);
      InvAlongRun(states, actions, m);
      AllocStable(states, actions, e, i, m);
      AllocStable(states, actions, e, i, l);
      AllocIsOwned(states[m], e);
    }
  }

  lemma SameNumberSameOpens(a: nat, b: nat)
    requires a <= b && b - a < TWO31 && a % TWO31 == b % TWO31
    ensures a == b
  {
  }

  // ---------------------------------------------------------------------------------
  // Published is what was asked for
  // ---------------------------------------------------------------------------------

  /** Step j is the last of the first i at which endpoint e took cells. */
  ghost predicate LastRequest(actions: seq<Action>, e: nat, i: nat, j: nat)
    requires i <= |actions|
  {
    && j < i && IsRequest(actions[j], e)
    && forall k :: j < k < i ==> !IsRequest(actions[k], e)
  }

  predicate IsRequest(a: Action, e: nat) {
    a.KGetBuffer? && a.e == e
  }

  predicate IsPublishing(ep: Ep) {
    (ep.pc.Reading? || ep.pc.Storing?) && ep.pc.op.Publish?
  }

  /** What is being published, or is published, is what that step asked for. */
  predicate IsAsRequested(ep: Ep, a: Action) {
    && a.KGetBuffer?
    && (IsPublishing(ep) ==>
          a.mapped && ep.pc.op.notifications == a.notifications && ep.cell == a.index && ep.size == a.actual)
    && (IsPublishing(ep) && ep.pc.Storing? ==>
          ep.pc.regs.notificationCount == a.notifications && ep.pc.regs.bufferSize == a.actual)
    && (ep.alloc.Some? ==> a.mapped && ep.alloc.value == Alloc(a.index * CELL, a.actual, a.notifications))
  }

  lemma RequestIsKept(s: State, a: Action, e: nat, request: Action)
    requires Inv(s) && Possible(s, a) && Disciplined(s, a) && e < |s.eps|
    requires var ep' := Apply(s, a).eps[e]; IsPublishing(ep') || ep'.alloc.Some?
    ensures IsRequest(a, e) ==> IsAsRequested(Apply(s, a).eps[e], a)
    ensures !IsRequest(a, e) ==>
              && (IsPublishing(s.eps[e]) || s.eps[e].alloc.Some?)
              && (IsAsRequested(s.eps[e], request) ==> IsAsRequested(Apply(s, a).eps[e], request))
  {
    assert InOrder(s.eps[e], |s.bits|);
  }

  lemma NothingAtStart(states: seq<State>, actions: seq<Action>, i: nat, e: nat)
    requires Run(states, actions) && i < |states| && e < |states[i].eps|
    ensures IsPublishing(states[i].eps[e]) || states[i].eps[e].alloc.Some? ==> i > 0
  {
    if i == 0 { assert states[0].eps[e] == INITIAL_EP; }
  }

  /** On every run, the ring on record of an endpoint is the one for which the cells were taken last: with the size and
      the notification count of that request, at the cells that were found for it. */
  lemma PublishedAsRequested(states: seq<State>, actions: seq<Action>, i: nat, e: nat) returns (j: nat)
    requires Run(states, actions) && i < |states| && e < |states[i].eps|
    requires IsPublishing(states[i].eps[e]) || states[i].eps[e].alloc.Some?
    ensures LastRequest(actions, e, i, j) && IsAsRequested(states[i].eps[e], actions[j])
    ensures states[i].eps[e].alloc.Some? ==>
              var regs := states[i].eps[e].regs;
              && regs.bufferOffset == actions[j].index * CELL && regs.bufferSize == actions[j].actual
              && regs.notificationCount == actions[j].notifications
  {
    NothingAtStart(states, actions, i, e);
    assert StepAt(states, actions, i - 1);
    InvAlongRun(states, actions, i - 1);
    InvAlongRun(states, actions, i);
    assert InOrder(states[i].eps[e], |states[i].bits|);
    if IsRequest(actions[i - 1], e) {
      j := i - 1;
      RequestIsKept(states[i - 1], actions[i - 1], e, actions[i - 1]);
    } else {
      RequestIsKept(states[i - 1], actions[i - 1], e, actions[i - 1]);
      j := PublishedAsRequested(states, actions, i - 1, e);
      RequestIsKept(states[i - 1], actions[i - 1], e, actions[j]);
    }
  }

  // ---------------------------------------------------------------------------------
  // The one store that the check does not cover
  // ---------------------------------------------------------------------------------

  /** If no open or close was stored since the generation was read, the committed position lies inside the
      ring on record. */
  lemma CommitStaysInRing(s: State, e: nat, chunk: nat)
    requires Inv(s) && Possible(s, TCommit(e, chunk)) && s.eps[e].tick.start == s.eps[e].opens
    ensures var regs := Apply(s, TCommit(e, chunk)).eps[e].regs;
            regs.position < regs.bufferSize && regs.position == (s.eps[e].tick.seen.position + chunk) % regs.bufferSize
  {
    assert InOrder(s.eps[e], |s.bits|);
  }

  /** The position that a commit leaves on record. */
  function Committed(seen: Regs, chunk: nat): nat
    requires seen.bufferSize > 0
  {
    (seen.position + chunk) % seen.bufferSize
  }

  /** For a tick that passed its check, the position it commits lies in the ring on record, whatever the period, if
      and only if that ring is no smaller than the one the tick read. The case of CommitStaysInRing, a generation
      that is still current, is the one of equal sizes. */
  lemma CommitSafeExactlyWhen(s: State, e: nat)
    requires e < |s.eps| && s.eps[e].tick.Confirmed? && s.eps[e].tick.seen.bufferSize > 0
    ensures (forall chunk: nat :: PositionInside(s, e, chunk)) <==>
            s.eps[e].tick.seen.bufferSize <= s.eps[e].regs.bufferSize
    ensures Inv(s) && s.eps[e].tick.start == s.eps[e].opens ==>
              s.eps[e].tick.seen.bufferSize == s.eps[e].regs.bufferSize
  {
    var seen, size := s.eps[e].tick.seen, s.eps[e].regs.bufferSize;
    if seen.bufferSize > size {
      var last := LastByte(seen.position, seen.bufferSize);
      assert Committed(seen, last) == seen.bufferSize - 1;
      assert !PositionInside(s, e, last);
    } else {
      forall chunk: nat
        ensures PositionInside(s, e, chunk)
      {
      }
    }
    if Inv(s) { assert InOrder(s.eps[e], |s.bits|); }
  }

  /** What is on record after the tick of endpoint e stored its position. */
  predicate PositionInside(s: State, e: nat, chunk: nat)
    requires e < |s.eps| && s.eps[e].tick.Confirmed? && s.eps[e].tick.seen.bufferSize > 0
  {
    var regs := Apply(s, TCommit(e, chunk)).eps[e].regs;
    regs.position < regs.bufferSize
  }

  /** A distance that leads from a position to the last byte of a ring. */
  lemma LastByte(position: nat, size: nat) returns (distance: nat)
    requires size > 0
    ensures (position + distance) % size == size - 1
  {
    distance := position * size - position + size - 1;
    DivModUnique(position, size - 1, size);
  }
}
