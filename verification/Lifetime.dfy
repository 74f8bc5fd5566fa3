/**
 Who keeps endpoints and control contexts alive: the two reference counts of sar.h, the
 lookup of utility.cpp, the worker of control.cpp and the orphaning of entry.cpp, in every
 interleaving. Each step is one stretch of code under a lock or one interlocked operation.
 */
module Lifetime {

  /** The one list (or thread) that an endpoint's list entry belongs to. Orphaned: on none any more, but the orphaning
      thread will still read its count for a trace message. */
  datatype Place = PendingList | Worker | EndpointList | Orphaning | Orphaned | Nowhere {
    function References(): nat {
      if Orphaned? || Nowhere? then 0 else 1
    }
  }

  /** `frees` counts how often the memory was freed. */
  datatype Endpoint = Endpoint(owner: nat, refs: int, place: Place, frees: nat)

  /** InTable: reachable by file object. Removed, Spliced: the orphaning thread is between its steps and owns the
      table's reference. Released: that reference was released while others were left, and the thread will still read
      the count for a trace message. Gone: nothing of this is left. */
  datatype Phase = InTable | Removed | Spliced | Released | Gone {
    function References(): nat {
      if Released? || Gone? then 0 else 1
    }
  }

  /** `workers`: work items queued or running; `leaving`: workers that found nothing more to do and have yet
      to release their reference. */
  datatype Context = Context(refs: int, phase: Phase, workers: nat, leaving: nat, frees: nat)

  /** A caller of SarGetEndpointFromIrp: holding both references, then after SarReleaseEndpoint only the
      context's, then none. */
  datatype Lookup = Both(e: nat, c: nat) | ContextOnly(c: nat) | Finished

  datatype State = State(eps: seq<Endpoint>, ctxs: seq<Context>, lookups: seq<Lookup>)

  const START := State([], [], [])

  datatype Step =
    | CreateContext
    | CreateEndpoint(c: nat)
    | LookUp(e: nat)
    | ReleaseEndpoint(i: nat)
    | ReleaseContext(i: nat)
    | WorkerPop(e: nat)
    | WorkerDone(e: nat, ok: bool)
    | WorkerLeave(c: nat)
    | WorkerRelease(c: nat)
    | OrphanRemove(c: nat)
    | OrphanSplice(c: nat)
    | OrphanOne(e: nat)
    | TraceEndpoint(e: nat)
    | OrphanRelease(c: nat)
    | TraceContext(c: nat)

  // ---------------------------------------------------------------------------------
  // The code
  // ---------------------------------------------------------------------------------

  predicate NoneAt(s: State, c: nat, place: Place) {
    forall e :: 0 <= e < |s.eps| ==> !(s.eps[e].owner == c && s.eps[e].place == place)
  }

  /** What control flow permits; nothing here looks at reference counts. One worker of a context runs at a time. */
  predicate Possible(s: State, step: Step) {
    match step
    case CreateContext => true
    case CreateEndpoint(c) => c < |s.ctxs| && s.ctxs[c].phase.InTable?
    case LookUp(e) =>
      && e < |s.eps| && s.eps[e].owner < |s.ctxs|
      && s.ctxs[s.eps[e].owner].phase.InTable? && s.eps[e].place.EndpointList?
    case ReleaseEndpoint(i) => i < |s.lookups| && s.lookups[i].Both? && s.lookups[i].e < |s.eps|
    case ReleaseContext(i) => i < |s.lookups| && s.lookups[i].ContextOnly? && s.lookups[i].c < |s.ctxs|
    case WorkerPop(e) =>
      && e < |s.eps| && s.eps[e].owner < |s.ctxs| && s.eps[e].place.PendingList?
      && s.ctxs[s.eps[e].owner].workers > 0 && NoneAt(s, s.eps[e].owner, Worker)
    case WorkerDone(e, _) => e < |s.eps| && s.eps[e].place.Worker?
    case WorkerLeave(c) =>
      c < |s.ctxs| && s.ctxs[c].workers > 0 && NoneAt(s, c, Worker) && NoneAt(s, c, PendingList)
    case WorkerRelease(c) => c < |s.ctxs| && s.ctxs[c].leaving > 0
    case OrphanRemove(c) => c < |s.ctxs| && s.ctxs[c].phase.InTable?
    case OrphanSplice(c) => c < |s.ctxs| && s.ctxs[c].phase.Removed?
    case OrphanOne(e) => e < |s.eps| && s.eps[e].place.Orphaning? && NoneAt(s, s.eps[e].owner, Orphaned)
    case TraceEndpoint(e) => e < |s.eps| && s.eps[e].place.Orphaned?
    case OrphanRelease(c) =>
      c < |s.ctxs| && s.ctxs[c].phase.Spliced? && NoneAt(s, c, Orphaning) && NoneAt(s, c, Orphaned)
    case TraceContext(c) => c < |s.ctxs| && s.ctxs[c].phase.Released?
  }

  /** SarReleaseEndpoint by the list or thread that the endpoint was on. */
  function Unlinked(ep: Endpoint): Endpoint {
    Dropped(ep).(place := Nowhere)
  }

  function Dropped(ep: Endpoint): Endpoint {
    ep.(refs := ep.refs - 1, frees := if ep.refs == 1 then ep.frees + 1 else ep.frees)
  }

  /** SarDeleteControlContext releases what is still on the two lists. */
  function Drained(eps: seq<Endpoint>, c: nat): (out: seq<Endpoint>)
    ensures |out| == |eps|
  {
    seq(|eps|, e requires 0 <= e < |eps| =>
      if eps[e].owner == c && (eps[e].place.EndpointList? || eps[e].place.PendingList?) then Unlinked(eps[e])
        else eps[e])
  }

  /** SarReleaseControlContext. */
  function DropContext(s: State, c: nat): State
    requires c < |s.ctxs|
  {
    var ctx := s.ctxs[c];
    if ctx.refs == 1 then
      s.(eps := Drained(s.eps, c), ctxs := s.ctxs[c := ctx.(refs := 0, frees := ctx.frees + 1)])
    else
      s.(ctxs := s.ctxs[c := ctx.(refs := ctx.refs - 1)])
  }

  /** A list holds exactly the endpoints of c at a place, each once. */
  ghost predicate ListOf(eps: seq<Endpoint>, c: nat, place: Place, list: seq<nat>) {
    && (forall i :: 0 <= i < |list| ==> list[i] < |eps| && eps[list[i]].owner == c && eps[list[i]].place == place)
    && (forall e: nat :: e < |eps| && eps[e].owner == c && eps[e].place == place ==> e in list)
    && (forall i, j :: 0 <= i < j < |list| ==> list[i] != list[j])
  }

  /** The draining loop of SarDeleteControlContext for one list: unlink the head and release it. */
  method DrainList(eps: array<Endpoint>, c: nat, place: Place, list: seq<nat>)
    requires !place.Nowhere? && ListOf(eps[..], c, place, list)
    modifies eps
    ensures forall e :: 0 <= e < eps.Length ==>
              eps[e] == if old(eps[e]).owner == c && old(eps[e]).place == place then Unlinked(old(eps[e]))
                        else old(eps[e])
  {
    var rest := list;
    while rest != []
      invariant ListOf(eps[..], c, place, rest)
      invariant forall e: nat :: e < eps.Length ==>
                  eps[e] == if old(eps[e]).owner == c && old(eps[e]).place == place && e !in rest
                    then Unlinked(old(eps[e])) else old(eps[e])
      decreases |rest|
    {
      var e := rest[0];
      assert e !in rest[1..];
      assert forall d :: d in rest <==> d == e || d in rest[1..];
      rest := rest[1..];
      eps[e] := Unlinked(eps[e]);
    }
  }

  /** SarDeleteControlContext: both lists, one after the other. */
  method DeleteControlContext(eps: array<Endpoint>, c: nat, endpointList: seq<nat>, pendingList: seq<nat>)
    requires ListOf(eps[..], c, EndpointList, endpointList) && ListOf(eps[..], c, PendingList, pendingList)
    modifies eps
    ensures eps[..] == Drained(old(eps[..]), c)
    ensures forall e :: 0 <= e < eps.Length ==>
              var was := old(eps[e]);
              eps[e] == if was.owner == c && (was.place == EndpointList || was.place == PendingList)
                then Endpoint(c, was.refs - 1, Nowhere, if was.refs == 1 then was.frees + 1 else was.frees)
                else was
  {
    DrainList(eps, c, EndpointList, endpointList);
    DrainList(eps, c, PendingList, pendingList);
  }

  function Splice(eps: seq<Endpoint>, c: nat): (out: seq<Endpoint>)
    ensures |out| == |eps|
  {
    seq(|eps|, e requires 0 <= e < |eps| =>
      if eps[e].owner == c && eps[e].place.EndpointList? then eps[e].(place := Orphaning) else eps[e])
  }

  function Apply(s: State, step: Step): State
    requires Possible(s, step)
  {
    match step
    case CreateContext => s.(ctxs := s.ctxs + [Context(1, InTable, 0, 0, 0)])
    case CreateEndpoint(c) =>
      var s' := s.(eps := s.eps + [Endpoint(c, 1, PendingList, 0)]);
      var ctx := s.ctxs[c];
      if NoneAt(s, c, PendingList)
        then s'.(ctxs := s.ctxs[c := ctx.(refs := ctx.refs + 1, workers := ctx.workers + 1)]) else s'
    case LookUp(e) =>
      var c := s.eps[e].owner;
      s.(eps := s.eps[e := s.eps[e].(refs := s.eps[e].refs + 1)],
         ctxs := s.ctxs[c := s.ctxs[c].(refs := s.ctxs[c].refs + 1)],
         lookups := s.lookups + [Both(e, c)])
    case ReleaseEndpoint(i) =>
      var e := s.lookups[i].e;
      s.(eps := s.eps[e := Dropped(s.eps[e])], lookups := s.lookups[i := ContextOnly(s.lookups[i].c)])
    case ReleaseContext(i) =>
      DropContext(s.(lookups := s.lookups[i := Finished]), s.lookups[i].c)
    case WorkerPop(e) => s.(eps := s.eps[e := s.eps[e].(place := Worker)])
    case WorkerDone(e, ok) => s.(eps := s.eps[e := if ok then s.eps[e].(place := EndpointList) else Unlinked(s.eps[e])])
    case WorkerLeave(c) =>
      var ctx := s.ctxs[c];
      s.(ctxs := s.ctxs[c := ctx.(workers := ctx.workers - 1, leaving := ctx.leaving + 1)])
    case WorkerRelease(c) => DropContext(s.(ctxs := s.ctxs[c := s.ctxs[c].(leaving := s.ctxs[c].leaving - 1)]), c)
    case OrphanRemove(c) => s.(ctxs := s.ctxs[c := s.ctxs[c].(phase := Removed)])
    case OrphanSplice(c) => s.(eps := Splice(s.eps, c), ctxs := s.ctxs[c := s.ctxs[c].(phase := Spliced)])
    case OrphanOne(e) =>
      s.(eps := s.eps[e := Dropped(s.eps[e]).(place := if s.eps[e].refs == 1 then Nowhere else Orphaned)])
    case TraceEndpoint(e) => s.(eps := s.eps[e := s.eps[e].(place := Nowhere)])
    case OrphanRelease(c) =>
      DropContext(s.(ctxs := s.ctxs[c := s.ctxs[c].(phase := if s.ctxs[c].refs == 1 then Gone else Released)]), c)
    case TraceContext(c) => s.(ctxs := s.ctxs[c := s.ctxs[c].(phase := Gone)])
  }

  /** The endpoints and contexts whose memory a step reads or writes. */
  function UsedEndpoints(s: State, step: Step): set<nat> {
    match step
    case LookUp(e) => {e}
    case ReleaseEndpoint(i) => if i < |s.lookups| && s.lookups[i].Both? then {s.lookups[i].e} else {}
    case WorkerPop(e) => {e}
    case WorkerDone(e, _) => {e}
    case OrphanOne(e) => {e}
    case TraceEndpoint(e) => {e}
    case _ => {}
  }

  function UsedContexts(s: State, step: Step): set<nat> {
    match step
    case CreateContext => {}
    case CreateEndpoint(c) => {c}
    case LookUp(e) => if e < |s.eps| then {s.eps[e].owner} else {}
    case ReleaseEndpoint(i) => {}
    case ReleaseContext(i) => if i < |s.lookups| && s.lookups[i].ContextOnly? then {s.lookups[i].c} else {}
    case WorkerPop(e) => if e < |s.eps| then {s.eps[e].owner} else {}
    case WorkerDone(e, _) => if e < |s.eps| then {s.eps[e].owner} else {}
    case WorkerLeave(c) => {c}
    case WorkerRelease(c) => {c}
    case OrphanRemove(c) => {c}
    case OrphanSplice(c) => {c}
    case OrphanOne(_) => {}
    case TraceEndpoint(_) => {}
    case OrphanRelease(c) => {c}
    case TraceContext(c) => {c}
  }

  predicate PossibleRun(s: State, steps: seq<Step>)
    decreases |steps|
  {
    steps == [] || (Possible(s, steps[0]) && PossibleRun(Apply(s, steps[0]), steps[1..]))
  }

  function After(s: State, steps: seq<Step>): State
    requires PossibleRun(s, steps)
    decreases |steps|
  {
    if steps == [] then s else After(Apply(s, steps[0]), steps[1..])
  }

  // ---------------------------------------------------------------------------------
  // What the counts mean
  // ---------------------------------------------------------------------------------

  function EndpointHolds(ls: seq<Lookup>, e: nat): nat {
    if ls == [] then 0
    else EndpointHolds(ls[..|ls| - 1], e) + HoldsEndpoint(ls[|ls| - 1], e)
  }

  function HoldsEndpoint(l: Lookup, e: nat): nat {
    if l.Both? && l.e == e then 1 else 0
  }

  function ContextHolds(ls: seq<Lookup>, c: nat): nat {
    if ls == [] then 0
    else ContextHolds(ls[..|ls| - 1], c) + HoldsContext(ls[|ls| - 1], c)
  }

  function HoldsContext(l: Lookup, c: nat): nat {
    if (l.Both? || l.ContextOnly?) && l.c == c then 1 else 0
  }

  lemma {:induction false} HoldsAppend(ls: seq<Lookup>, l: Lookup)
    ensures forall e: nat :: EndpointHolds(ls + [l], e) == EndpointHolds(ls, e) + HoldsEndpoint(l, e)
    ensures forall c: nat :: ContextHolds(ls + [l], c) == ContextHolds(ls, c) + HoldsContext(l, c)
  {
    assert (ls + [l])[..|ls|] == ls;
  }

  lemma {:induction false} HoldsUpdate(ls: seq<Lookup>, i: nat, l: Lookup)
    requires i < |ls|
    ensures forall e: nat ::
            EndpointHolds(ls[i := l], e) == EndpointHolds(ls, e) - HoldsEndpoint(ls[i], e) + HoldsEndpoint(l, e)
    ensures forall c: nat ::
            ContextHolds(ls[i := l], c) == ContextHolds(ls, c) - HoldsContext(ls[i], c) + HoldsContext(l, c)
    ensures forall e: nat :: EndpointHolds(ls, e) >= HoldsEndpoint(ls[i], e)
    ensures forall c: nat :: ContextHolds(ls, c) >= HoldsContext(ls[i], c)
  {
    var n := |ls| - 1;
    if i == n {
      assert ls[i := l][..n] == ls[..n];
    } else {
      assert ls[i := l][..n] == ls[..n][i := l];
      HoldsUpdate(ls[..n], i, l);
    }
  }

  /** A lookup that still holds an endpoint of c also holds c. */
  lemma {:induction false} EndpointHoldImpliesContextHold(s: State, ls: seq<Lookup>, e: nat)
    requires e < |s.eps| && LookupsMatch(s, ls)
    ensures EndpointHolds(ls, e) <= ContextHolds(ls, s.eps[e].owner)
  {
    if ls != [] {
      var n := |ls| - 1;
      assert forall i :: 0 <= i < n ==> ls[..n][i] == ls[i];
      EndpointHoldImpliesContextHold(s, ls[..n], e);
    }
  }

  ghost predicate LookupsMatch(s: State, ls: seq<Lookup>) {
    forall i :: 0 <= i < |ls| ==>
      match ls[i]
      case Both(e, c) => e < |s.eps| && c < |s.ctxs| && s.eps[e].owner == c
      case ContextOnly(c) => c < |s.ctxs|
      case Finished => true
  }

  /** An endpoint's count is one for its current holder plus one per outstanding lookup, and it was freed
      exactly when that is zero. */
  ghost predicate EndpointCounted(s: State, e: nat)
    requires e < |s.eps|
  {
    var ep := s.eps[e];
    && ep.refs == ep.place.References() + EndpointHolds(s.lookups, e)
    && ep.frees == if ep.refs == 0 then 1 else 0
  }

  /** A context's count is one for the table (or the thread orphaning it), one per outstanding lookup and one
      per worker. */
  ghost predicate ContextCounted(s: State, c: nat)
    requires c < |s.ctxs|
  {
    var ctx := s.ctxs[c];
    && ctx.refs == ctx.phase.References() + ContextHolds(s.lookups, c) + ctx.workers + ctx.leaving
    && ctx.frees == if ctx.refs == 0 then 1 else 0
  }

  /** Where an endpoint can be, given its context. */
  ghost predicate Placed(s: State, e: nat)
    requires e < |s.eps|
  {
    var ep := s.eps[e];
    && ep.owner < |s.ctxs|
    && var ctx := s.ctxs[ep.owner];
       match ep.place
       case PendingList => ctx.workers > 0
       case Worker => ctx.workers > 0
       case EndpointList => ctx.refs > 0
       case Orphaning => ctx.phase.Spliced?
       case Orphaned => ctx.phase.Spliced?
       case Nowhere => true
  }

  ghost predicate Inv(s: State) {
    && LookupsMatch(s, s.lookups)
    && (forall e :: 0 <= e < |s.eps| ==> EndpointCounted(s, e) && Placed(s, e))
    && (forall c :: 0 <= c < |s.ctxs| ==> ContextCounted(s, c))
    && (forall e: nat :: e >= |s.eps| ==> EndpointHolds(s.lookups, e) == 0)
    && (forall c: nat :: c >= |s.ctxs| ==> ContextHolds(s.lookups, c) == 0)
  }

  lemma HoldersCount(s: State, c: nat)
    requires LookupsMatch(s, s.lookups) && ContextHolds(s.lookups, c) == 0
    ensures forall e :: 0 <= e < |s.eps| && s.eps[e].owner == c ==> EndpointHolds(s.lookups, e) == 0
  {
    forall e | 0 <= e < |s.eps| && s.eps[e].owner == c
      ensures EndpointHolds(s.lookups, e) == 0
    {
      EndpointHoldImpliesContextHold(s, s.lookups, e);
    }
  }

  /** Everything that has to hold of a state in which one reference of c is about to be released: its count is
      one more than its holders. */
  ghost predicate Surplus(s: State, c: nat) {
    && c < |s.ctxs|
    && LookupsMatch(s, s.lookups)
    && (forall e :: 0 <= e < |s.eps| ==> EndpointCounted(s, e) && Placed(s, e))
    && (forall d :: 0 <= d < |s.ctxs| && d != c ==> ContextCounted(s, d))
    && (var ctx := s.ctxs[c];
        ctx.refs == 1 + ctx.phase.References() + ContextHolds(s.lookups, c) + ctx.workers + ctx.leaving &&
          ctx.frees == 0)
    && (forall e: nat :: e >= |s.eps| ==> EndpointHolds(s.lookups, e) == 0)
    && (forall d: nat :: d >= |s.ctxs| ==> ContextHolds(s.lookups, d) == 0)
  }

  lemma DropContextRestores(s: State, c: nat)
    requires Surplus(s, c)
    ensures Inv(DropContext(s, c))
    ensures s.ctxs[c].refs == 1 ==>
              forall e :: 0 <= e < |s.eps| && s.eps[e].owner == c ==>
                DropContext(s, c).eps[e].refs == 0 && DropContext(s, c).eps[e].frees == 1
  {
    var s' := DropContext(s, c);
    if s.ctxs[c].refs == 1 {
      HoldersCount(s, c);
      forall e | 0 <= e < |s'.eps|
        ensures EndpointCounted(s', e) && Placed(s', e)
        ensures s.eps[e].owner == c ==> s'.eps[e].refs == 0 && s'.eps[e].frees == 1
      {
        assert EndpointCounted(s, e) && Placed(s, e);
      }
      forall d | 0 <= d < |s'.ctxs|
        ensures ContextCounted(s', d)
      {
        if d != c { assert ContextCounted(s, d); }
      }
    } else {
      forall e | 0 <= e < |s'.eps|
        ensures EndpointCounted(s', e) && Placed(s', e)
      {
        assert EndpointCounted(s, e) && Placed(s, e);
      }
      forall d | 0 <= d < |s'.ctxs|
        ensures ContextCounted(s', d)
      {
        if d != c { assert ContextCounted(s, d); }
      }
    }
  }

  /** When the last reference goes, nothing is pending: a pending endpoint has a worker, which has a reference. */
  lemma NothingPendingAtDeletion(s: State, c: nat)
    requires Surplus(s, c) && s.ctxs[c].refs == 1
    ensures NoneAt(s, c, PendingList) && NoneAt(s, c, Worker)
  {
    forall e | 0 <= e < |s.eps| && s.eps[e].owner == c
      ensures !s.eps[e].place.PendingList? && !s.eps[e].place.Worker?
    {
      assert Placed(s, e);
    }
  }

  /** Steps that leave the lookups alone and do not release a context. */
  lemma CreationKeeps(s: State, step: Step)
    requires Inv(s) && Possible(s, step) && (step.CreateContext? || step.CreateEndpoint?)
    ensures Inv(Apply(s, step))
  {
    var s' := Apply(s, step);
    if step.CreateEndpoint? {
      assert ContextCounted(s, step.c);
      if !NoneAt(s, step.c, PendingList) {
        var p :| 0 <= p < |s.eps| && s.eps[p].owner == step.c && s.eps[p].place == PendingList;
        assert Placed(s, p);
      }
    }
    forall e | 0 <= e < |s'.eps|
      ensures EndpointCounted(s', e) && Placed(s', e)
    {
      if e < |s.eps| { assert EndpointCounted(s, e) && Placed(s, e); }
    }
    forall c | 0 <= c < |s'.ctxs|
      ensures ContextCounted(s', c)
    {
      if c < |s.ctxs| { assert ContextCounted(s, c); }
    }
  }

  lemma WorkerKeeps(s: State, step: Step)
    requires Inv(s) && Possible(s, step) && (step.WorkerPop? || step.WorkerDone? || step.WorkerLeave?)
    ensures Inv(Apply(s, step))
  {
    var s' := Apply(s, step);
    if step.WorkerDone? {
      assert Placed(s, step.e) && ContextCounted(s, s.eps[step.e].owner);
    }
    forall e | 0 <= e < |s'.eps|
      ensures EndpointCounted(s', e) && Placed(s', e)
    {
      assert EndpointCounted(s, e) && Placed(s, e);
    }
    forall c | 0 <= c < |s'.ctxs|
      ensures ContextCounted(s', c)
    {
      assert ContextCounted(s, c);
    }
  }

  lemma OrphanKeeps(s: State, step: Step)
    requires Inv(s) && Possible(s, step)
    requires step.OrphanRemove? || step.OrphanSplice? || step.OrphanOne? || step.TraceEndpoint? || step.TraceContext?
    ensures Inv(Apply(s, step))
  {
    var s' := Apply(s, step);
    forall e | 0 <= e < |s'.eps|
      ensures EndpointCounted(s', e) && Placed(s', e)
    {
      assert EndpointCounted(s, e) && Placed(s, e);
    }
    forall c | 0 <= c < |s'.ctxs|
      ensures ContextCounted(s', c)
    {
      assert ContextCounted(s, c);
    }
  }

  lemma LookUpKeeps(s: State, e: nat)
    requires Inv(s) && Possible(s, LookUp(e))
    ensures Inv(Apply(s, LookUp(e)))
  {
    var s' := Apply(s, LookUp(e));
    HoldsAppend(s.lookups, Both(e, s.eps[e].owner));
    assert EndpointCounted(s, e) && ContextCounted(s, s.eps[e].owner);
    forall d | 0 <= d < |s'.eps|
      ensures EndpointCounted(s', d) && Placed(s', d)
    {
      assert EndpointCounted(s, d) && Placed(s, d);
    }
    forall c | 0 <= c < |s'.ctxs|
      ensures ContextCounted(s', c)
    {
      assert ContextCounted(s, c);
    }
  }

  lemma ReleaseEndpointKeeps(s: State, i: nat)
    requires Inv(s) && Possible(s, ReleaseEndpoint(i))
    ensures Inv(Apply(s, ReleaseEndpoint(i)))
  {
    var s' := Apply(s, ReleaseEndpoint(i));
    HoldsUpdate(s.lookups, i, ContextOnly(s.lookups[i].c));
    assert LookupsMatch(s', s'.lookups);
    forall e: nat | e >= |s.eps|
      ensures EndpointHolds(s'.lookups, e) == 0
    {
      assert EndpointHolds(s.lookups, e) == 0;
    }
    forall c: nat
      ensures ContextHolds(s'.lookups, c) == ContextHolds(s.lookups, c)
    {
    }
    forall d | 0 <= d < |s'.eps|
      ensures EndpointCounted(s', d) && Placed(s', d)
    {
      assert EndpointCounted(s, d) && Placed(s, d);
    }
    forall c | 0 <= c < |s'.ctxs|
      ensures ContextCounted(s', c)
    {
      assert ContextCounted(s, c);
    }
  }

  /** Taking one holder of c away leaves a surplus of one. */
  lemma HolderLeaves(s: State, t: State, c: nat)
    requires Inv(s) && c < |s.ctxs| && |t.ctxs| == |s.ctxs| && t.eps == s.eps && LookupsMatch(t, t.lookups)
    requires forall e: nat :: EndpointHolds(t.lookups, e) == EndpointHolds(s.lookups, e)
    requires forall d: nat :: d != c ==> ContextHolds(t.lookups, d) == ContextHolds(s.lookups, d)
    requires forall d :: 0 <= d < |s.ctxs| && d != c ==> t.ctxs[d] == s.ctxs[d]
    requires var a, b := s.ctxs[c], t.ctxs[c];
             && b.refs == a.refs > 0 && b.frees == a.frees && b.workers == a.workers
             && (a.phase.Spliced? && !b.phase.Spliced? ==> NoneAt(s, c, Orphaning) && NoneAt(s, c, Orphaned))
             && (!a.phase.Spliced? ==> b.phase == a.phase)
             && b.phase.References() + ContextHolds(t.lookups, c) + b.leaving + 1
                == a.phase.References() + ContextHolds(s.lookups, c) + a.leaving
    ensures Surplus(t, c)
  {
    assert ContextCounted(s, c);
    forall e | 0 <= e < |t.eps|
      ensures EndpointCounted(t, e) && Placed(t, e)
    {
      assert EndpointCounted(s, e) && Placed(s, e);
    }
    forall d | 0 <= d < |t.ctxs| && d != c
      ensures ContextCounted(t, d)
    {
      assert ContextCounted(s, d);
    }
  }

  lemma ReleaseContextKeeps(s: State, i: nat)
    requires Inv(s) && Possible(s, ReleaseContext(i))
    ensures Inv(Apply(s, ReleaseContext(i)))
  {
    var c := s.lookups[i].c;
    var t := s.(lookups := s.lookups[i := Finished]);
    HoldsUpdate(s.lookups, i, Finished);
    assert ContextCounted(s, c);
    HolderLeaves(s, t, c);
    DropContextRestores(t, c);
  }

  lemma WorkerReleaseKeeps(s: State, c: nat)
    requires Inv(s) && Possible(s, WorkerRelease(c))
    ensures Inv(Apply(s, WorkerRelease(c)))
  {
    var t := s.(ctxs := s.ctxs[c := s.ctxs[c].(leaving := s.ctxs[c].leaving - 1)]);
    assert ContextCounted(s, c);
    HolderLeaves(s, t, c);
    DropContextRestores(t, c);
  }

  lemma OrphanReleaseKeeps(s: State, c: nat)
    requires Inv(s) && Possible(s, OrphanRelease(c))
    ensures Inv(Apply(s, OrphanRelease(c)))
  {
    var t := s.(ctxs := s.ctxs[c := s.ctxs[c].(phase := if s.ctxs[c].refs == 1 then Gone else Released)]);
    assert ContextCounted(s, c);
    HolderLeaves(s, t, c);
    DropContextRestores(t, c);
  }

  lemma StepKeepsInv(s: State, step: Step)
    requires Inv(s) && Possible(s, step)
    ensures Inv(Apply(s, step))
  {
    match step
    case LookUp(e) => LookUpKeeps(s, e);
    case ReleaseEndpoint(i) => ReleaseEndpointKeeps(s, i);
    case ReleaseContext(i) => ReleaseContextKeeps(s, i);
    case WorkerRelease(c) => WorkerReleaseKeeps(s, c);
    case OrphanRelease(c) => OrphanReleaseKeeps(s, c);
    case CreateContext => CreationKeeps(s, step);
    case CreateEndpoint(_) => CreationKeeps(s, step);
    case WorkerPop(_) => WorkerKeeps(s, step);
    case WorkerDone(_, _) => WorkerKeeps(s, step);
    case WorkerLeave(_) => WorkerKeeps(s, step);
    case _ => OrphanKeeps(s, step);
  }

  lemma {:induction false} InvAlongRun(s: State, steps: seq<Step>)
    requires Inv(s) && PossibleRun(s, steps)
    ensures Inv(After(s, steps))
    decreases |steps|
  {
    if steps != [] {
      StepKeepsInv(s, steps[0]);
      InvAlongRun(Apply(s, steps[0]), steps[1..]);
    }
  }

  // ---------------------------------------------------------------------------------
  // Main results
  // ---------------------------------------------------------------------------------

  /** Over every run the counts mean what they should, and nothing is freed twice. */
  lemma CountsAreHolders(steps: seq<Step>)
    requires PossibleRun(START, steps)
    ensures var s := After(START, steps);
            && (forall e :: 0 <= e < |s.eps| ==> EndpointCounted(s, e) && s.eps[e].frees <= 1)
            && (forall c :: 0 <= c < |s.ctxs| ==> ContextCounted(s, c) && s.ctxs[c].frees <= 1)
  {
    InvAlongRun(START, steps);
    var s := After(START, steps);
    forall e | 0 <= e < |s.eps|
      ensures EndpointCounted(s, e) && s.eps[e].frees <= 1
    {
    }
    forall c | 0 <= c < |s.ctxs|
      ensures ContextCounted(s, c) && s.ctxs[c].frees <= 1
    {
    }
  }

  /** No step that control flow permits uses memory that was freed, except for the two trace messages of the orphaning
      thread, which read a count after the reference for it was released. */
  lemma NothingUsedAfterFree(steps: seq<Step>, step: Step)
    requires PossibleRun(START, steps) && Possible(After(START, steps), step) && !step.TraceEndpoint? &&
             !step.TraceContext?
    ensures var s := After(START, steps);
            && (forall e :: e in UsedEndpoints(s, step) ==> e < |s.eps| && s.eps[e].frees == 0)
            && (forall c :: c in UsedContexts(s, step) ==> c < |s.ctxs| && s.ctxs[c].frees == 0)
  {
    InvAlongRun(START, steps);
    var s := After(START, steps);
    if step.ReleaseEndpoint? || step.ReleaseContext? {
      HoldsUpdate(s.lookups, step.i, Finished);
    }
    forall e | e in UsedEndpoints(s, step)
      ensures e < |s.eps| && s.eps[e].frees == 0
    {
      assert EndpointCounted(s, e);
    }
    forall c | c in UsedContexts(s, step)
      ensures c < |s.ctxs| && s.ctxs[c].frees == 0
    {
      if step.WorkerPop? || step.WorkerDone? { assert Placed(s, step.e); }
      assert ContextCounted(s, c);
    }
  }

  /** The two messages read live memory if and only if somebody else still holds the object at that moment: a lookup for
      an endpoint, a lookup or a worker for a context. */
  lemma TraceIsSafeExactlyWhen(steps: seq<Step>)
    requires PossibleRun(START, steps)
    ensures var s := After(START, steps);
            && (forall e: nat :: Possible(s, TraceEndpoint(e)) ==>
                (s.eps[e].frees == 0 <==> EndpointHolds(s.lookups, e) > 0))
            && (forall c: nat :: Possible(s, TraceContext(c)) ==>
                  (s.ctxs[c].frees == 0 <==> ContextHolds(s.lookups, c) + s.ctxs[c].workers + s.ctxs[c].leaving > 0))
  {
    InvAlongRun(START, steps);
    var s := After(START, steps);
    forall e: nat | Possible(s, TraceEndpoint(e))
      ensures s.eps[e].frees == 0 <==> EndpointHolds(s.lookups, e) > 0
    {
      assert EndpointCounted(s, e);
    }
    forall c: nat | Possible(s, TraceContext(c))
      ensures s.ctxs[c].frees == 0 <==> ContextHolds(s.lookups, c) + s.ctxs[c].workers + s.ctxs[c].leaving > 0
    {
      assert ContextCounted(s, c);
    }
  }

  lemma {:induction false} OneMoreStep(s: State, steps: seq<Step>, step: Step)
    requires PossibleRun(s, steps) && Possible(After(s, steps), step)
    ensures PossibleRun(s, steps + [step]) && After(s, steps + [step]) == Apply(After(s, steps), step)
    decreases |steps|
  {
    if steps == [] {
      assert ([] + [step])[1..] == [];
    } else {
      assert (steps + [step])[1..] == steps[1..] + [step];
      OneMoreStep(Apply(s, steps[0]), steps[1..], step);
    }
  }

  /** A context with one endpoint on its list. */
  lemma Listed() returns (steps: seq<Step>)
    ensures PossibleRun(START, steps)
    ensures After(START, steps) == State([Endpoint(0, 1, EndpointList, 0)], [Context(1, InTable, 0, 0, 0)], [])
  {
    steps := [];
    OneMoreStep(START, steps, CreateContext);
    steps := steps + [CreateContext];
    OneMoreStep(START, steps, CreateEndpoint(0));
    steps := steps + [CreateEndpoint(0)];
    OneMoreStep(START, steps, WorkerPop(0));
    steps := steps + [WorkerPop(0)];
    OneMoreStep(START, steps, WorkerDone(0, true));
    steps := steps + [WorkerDone(0, true)];
    OneMoreStep(START, steps, WorkerLeave(0));
    steps := steps + [WorkerLeave(0)];
    OneMoreStep(START, steps, WorkerRelease(0));
    steps := steps + [WorkerRelease(0)];
  }

  /** A lookup found the endpoint, then the context was taken out of the table and its list spliced off. */
  lemma LookedUpAndSpliced() returns (steps: seq<Step>)
    ensures PossibleRun(START, steps)
    ensures After(START, steps) == State([Endpoint(0, 2, Orphaning, 0)], [Context(2, Spliced, 0, 0, 0)], [Both(0, 0)])
  {
    steps := Listed();
    OneMoreStep(START, steps, LookUp(0));
    steps := steps + [LookUp(0)];
    OneMoreStep(START, steps, OrphanRemove(0));
    steps := steps + [OrphanRemove(0)];
    OneMoreStep(START, steps, OrphanSplice(0));
    steps := steps + [OrphanSplice(0)];
  }

  /** A run in which the lookup lets go between the orphaning thread's release and its message about the endpoint. */
  lemma EndpointReadAfterFree() returns (steps: seq<Step>)
    ensures PossibleRun(START, steps) && Possible(After(START, steps), TraceEndpoint(0))
    ensures After(START, steps).eps[0].frees == 1
  {
    steps := LookedUpAndSpliced();
    OneMoreStep(START, steps, OrphanOne(0));
    steps := steps + [OrphanOne(0)];
    OneMoreStep(START, steps, ReleaseEndpoint(0));
    steps := steps + [ReleaseEndpoint(0)];
  }

  /** The lookup lets go of the endpoint before the orphaning thread does, and keeps the context. */
  lemma ContextStillHeld() returns (steps: seq<Step>)
    ensures PossibleRun(START, steps)
    ensures After(START, steps) == State([Endpoint(0, 0, Nowhere, 1)], [Context(2, Spliced, 0, 0, 0)], [ContextOnly(0)])
  {
    steps := LookedUpAndSpliced();
    OneMoreStep(START, steps, ReleaseEndpoint(0));
    steps := steps + [ReleaseEndpoint(0)];
    OneMoreStep(START, steps, OrphanOne(0));
    steps := steps + [OrphanOne(0)];
  }

  /** A run in which it lets go of the context between the orphaning thread's release and its message about it. */
  lemma ContextReadAfterFree() returns (steps: seq<Step>)
    ensures PossibleRun(START, steps) && Possible(After(START, steps), TraceContext(0))
    ensures After(START, steps).ctxs[0].frees == 1
  {
    steps := ContextStillHeld();
    OneMoreStep(START, steps, OrphanRelease(0));
    steps := steps + [OrphanRelease(0)];
    OneMoreStep(START, steps, ReleaseContext(0));
    steps := steps + [ReleaseContext(0)];
  }

  /** Freeing a context leaks no endpoint: whenever a context has been freed, each of its endpoints has been
      freed, once. In particular its pending list was already empty. */
  lemma FreedContextLeavesNothing(steps: seq<Step>, c: nat, e: nat)
    requires PossibleRun(START, steps)
    requires var s := After(START, steps); c < |s.ctxs| && s.ctxs[c].frees > 0 && e < |s.eps| && s.eps[e].owner == c
    ensures After(START, steps).eps[e].frees == 1 && After(START, steps).eps[e].place.Nowhere?
  {
    InvAlongRun(START, steps);
    var s := After(START, steps);
    assert ContextCounted(s, c) && Placed(s, e) && EndpointCounted(s, e);
    HoldersCount(s, c);
  }

  // ---------------------------------------------------------------------------------
  // The life of an endpoint and of a context
  // ---------------------------------------------------------------------------------

  /** The step freed the context. */
  predicate Frees(s: State, step: Step, c: nat)
    requires Possible(s, step) && c < |s.ctxs| && c < |Apply(s, step).ctxs|
  {
    Apply(s, step).ctxs[c].frees > s.ctxs[c].frees
  }

  /** Which steps move an endpoint, and where to: all others leave it where it is. */
  lemma EndpointMovesExactly(s: State, step: Step, e: nat)
    requires Possible(s, step) && e < |s.eps| && s.eps[e].owner < |s.ctxs|
    ensures var s' := Apply(s, step);
            && |s'.eps| >= |s.eps| && |s'.ctxs| >= |s.ctxs| && s'.eps[e].owner == s.eps[e].owner
            && var freed := Frees(s, step, s.eps[e].owner);
               s'.eps[e].place ==
               match s.eps[e].place
               case PendingList => if step == WorkerPop(e) then Worker else if freed then Nowhere else PendingList
               case Worker =>
                 if step == WorkerDone(e, true) then EndpointList else if step == WorkerDone(e, false) then Nowhere
                 else Worker
               case EndpointList =>
                 if step == OrphanSplice(s.eps[e].owner) then Orphaning else if freed then Nowhere else EndpointList
               case Orphaning =>
                 if step != OrphanOne(e) then Orphaning else if s.eps[e].refs == 1 then Nowhere else Orphaned
               case Orphaned => if step == TraceEndpoint(e) then Nowhere else Orphaned
               case Nowhere => Nowhere
  {
  }

  /** The same for a context; and a worker starts exactly when an endpoint is put on an empty pending list. */
  lemma ContextMovesExactly(s: State, step: Step, c: nat)
    requires Possible(s, step) && c < |s.ctxs|
    ensures var s' := Apply(s, step);
            && |s'.ctxs| >= |s.ctxs|
            && s'.ctxs[c].phase == (
                 match s.ctxs[c].phase
                 case InTable => if step == OrphanRemove(c) then Removed else InTable
                 case Removed => if step == OrphanSplice(c) then Spliced else Removed
                 case Spliced =>
                   if step != OrphanRelease(c) then Spliced else if Frees(s, step, c) then Gone else Released
                 case Released => if step == TraceContext(c) then Gone else Released
                 case Gone => Gone)
            && (s'.ctxs[c].workers > s.ctxs[c].workers <==>
                step == CreateEndpoint(c) &&
                forall e :: 0 <= e < |s.eps| ==> s.eps[e].owner != c || s.eps[e].place != PendingList)
            && s'.ctxs[c].workers <= s.ctxs[c].workers + 1
            && (s'.ctxs[c].workers < s.ctxs[c].workers <==> step == WorkerLeave(c))
  {
  }

  function Rank(place: Place): nat {
    match place
    case PendingList => 0
    case Worker => 1
    case EndpointList => 2
    case Orphaning => 3
    case Orphaned => 4
    case Nowhere => 5
  }

  /** Over every run from a state that keeps the counting, endpoints only go forward, from the pending list through the
      worker and the list of endpoints to the orphaning thread; they keep their context, and none is lost. */
  lemma {:induction false} EndpointsGoForward(s: State, steps: seq<Step>, e: nat)
    requires Inv(s) && PossibleRun(s, steps) && e < |s.eps|
    ensures var t := After(s, steps);
            && e < |t.eps| && t.eps[e].owner == s.eps[e].owner && Rank(s.eps[e].place) <= Rank(t.eps[e].place)
            && (t.eps[e].frees > 0 ==> Rank(t.eps[e].place) >= Rank(Orphaned))
    decreases |steps|
  {
    assert EndpointCounted(s, e) && Placed(s, e);
    if steps != [] {
      hide Inv;
      EndpointMovesExactly(s, steps[0], e);
      StepKeepsInv(s, steps[0]);
      EndpointsGoForward(Apply(s, steps[0]), steps[1..], e);
    }
  }
}
