/**
 The queue that carries notification handles from the kernel to the client (utility.cpp):
 items wait for requests or requests wait for items. What happens under the queue's spin
 lock is one step; completing a request that was unlinked there is a later step of its
 own, so that cancellation may run in between.
 */
module HandleQueue {
  import opened Arith
  import opened Types
  import opened Notify

  /** A posted handle with its associated data. */
  datatype Item = Item(handle: nat, data: nat)

  /** The two lists. Requests (IRPs) are named by numbers. */
  datatype Queue = Queue(items: seq<Item>, irps: seq<nat>)

  datatype Status = Success | Pending | BufferTooSmall | InsufficientResources | Failed

  // ---------------------------------------------------------------------------------
  // What each operation does to the lists while it holds the lock
  // ---------------------------------------------------------------------------------

  function PostLocked(q: Queue, item: Item): Queue {
    if q.irps != [] then q.(irps := q.irps[1..]) else q.(items := q.items + [item])
  }

  function BatchSize(q: Queue, maxItems: nat): nat {
    if |q.items| < maxItems then |q.items| else maxItems
  }

  function WaitLocked(q: Queue, irp: nat, maxItems: nat): Queue {
    var n := BatchSize(q, maxItems);
    if n == 0 then q.(irps := q.irps + [irp]) else q.(items := q.items[n..])
  }

  function Without(irps: seq<nat>, irp: nat): seq<nat> {
    if irps == [] then [] else if irps[0] == irp then irps[1..] else [irps[0]] + Without(irps[1..], irp)
  }

  lemma {:induction false} WithoutSplit(before: seq<nat>, irp: nat, after: seq<nat>)
    requires irp !in before
    ensures Without(before + [irp] + after, irp) == before + after
  {
    var all := before + [irp] + after;
    if before == [] {
      assert all[1..] == after;
      assert before + after == after;
    } else {
      assert all[1..] == before[1..] + [irp] + after;
      WithoutSplit(before[1..], irp, after);
      assert before + after == [before[0]] + (before[1..] + after);
    }
  }

  ghost predicate Distinct(irps: seq<nat>) {
    forall i, j :: 0 <= i < j < |irps| ==> irps[i] != irps[j]
  }

  lemma {:induction false} WithoutMembers(irps: seq<nat>, irp: nat)
    requires Distinct(irps)
    ensures forall x :: x in Without(irps, irp) <==> x in irps && x != irp
    ensures Distinct(Without(irps, irp))
  {
    if irps != [] {
      assert forall x :: x in irps <==> x == irps[0] || x in irps[1..];
      if irps[0] != irp {
        WithoutMembers(irps[1..], irp);
        var rest := Without(irps[1..], irp);
        assert irps[0] !in rest;
        assert forall j :: 0 <= j < |rest| ==> rest[j] in rest;
      }
    }
  }

  /** Items were taken from the front, and none was left that there was room for. */
  ghost predicate TakenInFront(was: seq<Item>, now: seq<Item>, taken: seq<Item>, room: nat) {
    && |taken| <= |was| && taken == was[..|taken|] && now == was[|taken|..]
    && |taken| <= room && (now == [] || |taken| == room)
  }

  lemma NothingTaken(was: seq<Item>, now: seq<Item>, room: nat)
    requires TakenInFront(was, now, [], room) && room > 0
    ensures was == [] && now == []
  {
  }

  lemma TakenIsBatch(was: seq<Item>, now: seq<Item>, taken: seq<Item>, room: nat, irps: seq<nat>)
    requires TakenInFront(was, now, taken, room)
    ensures var n := BatchSize(Queue(was, irps), room); taken == was[..n] && now == was[n..]
  {
  }

  /** All items of a batch are answered, or those before the first whose handle cannot be duplicated, and that one with
      a null handle. */
  ghost predicate Answers(batch: seq<Item>, goodTransfers: nat, status: Status, responses: seq<Item>) {
    if goodTransfers >= |batch| then status == Success && responses == batch
    else status == Failed && responses == batch[..goodTransfers] + [Item(0, batch[goodTransfers].data)]
  }

  class SarHandleQueue {
    var pendingItems: seq<Item>
    var pendingIrps: seq<nat>

    constructor ()
      ensures Lists() == Queue([], [])
    {
      pendingItems, pendingIrps := [], [];
    }

    function Lists(): Queue
      reads this
    {
      Queue(pendingItems, pendingIrps)
    }

    /** SarPostHandleQueue. If a request was waiting it is returned together with the status it completes
        with; the item is handed to it whether or not the handle could be duplicated. */
    method Post(item: Item, openOk: bool, allocOk: bool, dupOk: bool) returns (status: Status, completed: Option<nat>)
      modifies this
      ensures !openOk ==> status == Failed && completed == None && Lists() == old(Lists())
      ensures openOk && old(pendingIrps) != [] ==>
                && completed == Some(old(pendingIrps)[0]) && status == (if dupOk then Success else Failed)
                && Lists() == PostLocked(old(Lists()), item)
      ensures openOk && old(pendingIrps) == [] && allocOk ==>
                completed == None && status == Success && Lists() == PostLocked(old(Lists()), item)
      ensures openOk && old(pendingIrps) != [] ==>
                pendingIrps == old(pendingIrps)[1..] && pendingItems == old(pendingItems)
      ensures openOk && old(pendingIrps) == [] && allocOk ==>
                pendingIrps == [] && pendingItems == old(pendingItems) + [item]
      ensures openOk && old(pendingIrps) == [] && !allocOk ==>
                completed == None && status == InsufficientResources && Lists() == old(Lists())
    {
      completed := None;
      if !openOk {
        return Failed, None;
      }
      if pendingIrps != [] {
        completed := Some(pendingIrps[0]);
        pendingIrps := pendingIrps[1..];
      }
      if completed == None {
        if !allocOk {
          return InsufficientResources, None;
        }
        pendingItems := pendingItems + [item];
      }
      status := if completed != None && !dupOk then Failed else Success;
    }

    /** The part of SarWaitHandleQueue under the lock: up to `maxItems` items are unlinked. */
    method TakeBatch(maxItems: nat) returns (batch: seq<Item>)
      modifies `pendingItems
      ensures TakenInFront(old(pendingItems), pendingItems, batch, maxItems)
    {
      batch := [];
      while pendingItems != [] && |batch| < maxItems
        invariant |batch| <= maxItems && |batch| <= |old(pendingItems)|
        invariant batch == old(pendingItems)[..|batch|] && pendingItems == old(pendingItems)[|batch|..]
        decreases |pendingItems|
      {
        batch, pendingItems := batch + [pendingItems[0]], pendingItems[1..];
      }
    }

    /** SarTransferQueuedHandle: the slot is filled with the associated data and with a null handle if the handle
        cannot be duplicated. */
    method TransferOne(item: Item, dupOk: bool) returns (status: Status, response: Item)
      ensures status == if dupOk then Success else Failed
      ensures response == if dupOk then item else Item(0, item.data)
    {
      response := Item(0, item.data);
      status := if dupOk then Success else Failed;
      response := response.(handle := if dupOk then item.handle else 0);
    }

    /** The transfer loop behind the lock: it stops at the first handle that cannot be duplicated, whose slot is counted
        as well. */
    method Transfer(batch: seq<Item>, goodTransfers: nat) returns (status: Status, responses: seq<Item>)
      ensures Answers(batch, goodTransfers, status, responses)
      ensures status == Failed || (status == Success && responses == batch)
    {
      responses := [];
      status := Success;
      while |responses| < |batch|
        invariant |responses| <= |batch| && |responses| <= goodTransfers
        invariant status == Success && responses == batch[..|responses|]
      {
        var response: Item;
        status, response := TransferOne(batch[|responses|], |responses| < goodTransfers);
        responses := responses + [response];
        if status != Success {
          break;
        }
      }
    }

    /** SarWaitHandleQueue. `goodTransfers` is how many handles can be duplicated before one fails; `information` is the
        size reported with the request, in responses. The batch leaves the queue in any case. */
    method Wait(irp: nat, maxItems: nat, openOk: bool, allocOk: bool, goodTransfers: nat)
      returns (status: Status, responses: seq<Item>, information: nat)
      modifies this
      ensures maxItems == 0 ==>
              status == BufferTooSmall && responses == [] && information == 1 && Lists() == old(Lists())
      ensures maxItems > 0 ==> information == |responses|
      ensures maxItems > 0 && !openOk ==> status == Failed && responses == [] && Lists() == old(Lists())
      ensures maxItems > 0 && openOk && old(pendingItems) == [] ==>
                && responses == []
                && if allocOk then status == Pending && Lists() == WaitLocked(old(Lists()), irp, maxItems)
                   else status == InsufficientResources && Lists() == old(Lists())
      ensures maxItems > 0 && openOk && old(pendingItems) != [] ==>
                var n := BatchSize(old(Lists()), maxItems);
                && Lists() == WaitLocked(old(Lists()), irp, maxItems)
                && Answers(old(pendingItems)[..n], goodTransfers, status, responses)
      ensures status == Success ==> TakenInFront(old(pendingItems), pendingItems, responses, maxItems)
      ensures pendingIrps == old(pendingIrps) + if status == Pending then [irp] else []
    {
      hide Answers, TakenInFront;
      if maxItems == 0 {
        return BufferTooSmall, [], 1;
      }
      if !openOk {
        return Failed, [], 0;
      }
      var toComplete := TakeBatch(maxItems);
      TakenIsBatch(old(pendingItems), pendingItems, toComplete, maxItems, pendingIrps);
      if toComplete == [] {
        NothingTaken(old(pendingItems), pendingItems, maxItems);
        if !allocOk {
          return InsufficientResources, [], 0;
        }
        pendingIrps := pendingIrps + [irp];
        return Pending, [], 0;
      }
      status, responses := Transfer(toComplete, goodTransfers);
      information := |responses|;
    }

    /** SarCancelHandleQueueIrp: the request is completed here only if it was still on the list. */
    method Cancel(irp: nat) returns (cancelled: bool)
      modifies this`pendingIrps
      ensures cancelled <==> irp in old(pendingIrps)
      ensures pendingIrps == Without(old(pendingIrps), irp)
    {
      var i := 0;
      while i < |pendingIrps|
        invariant 0 <= i <= |pendingIrps| && irp !in pendingIrps[..i] && pendingIrps == old(pendingIrps)
      {
        if pendingIrps[i] == irp {
          WithoutSplit(pendingIrps[..i], irp, pendingIrps[i + 1..]);
          assert pendingIrps == pendingIrps[..i] + [irp] + pendingIrps[i + 1..];
          pendingIrps := pendingIrps[..i] + pendingIrps[i + 1..];
          return true;
        }
        i := i + 1;
      }
      WithoutAbsent(pendingIrps, irp);
      return false;
    }

    /** SarCancelAllHandleQueueIrps: the list is spliced off and every request on it is completed. */
    method CancelAll() returns (cancelled: seq<nat>)
      modifies this`pendingIrps
      ensures pendingIrps == [] && cancelled == old(pendingIrps)
    {
      var toCancel := pendingIrps;
      pendingIrps := [];
      cancelled := [];
      while toCancel != []
        invariant cancelled + toCancel == old(pendingIrps)
        decreases |toCancel|
      {
        cancelled, toCancel := cancelled + [toCancel[0]], toCancel[1..];
      }
    }
  }

  lemma {:induction false} WithoutAbsent(irps: seq<nat>, irp: nat)
    requires irp !in irps
    ensures Without(irps, irp) == irps
  {
    if irps != [] {
      WithoutAbsent(irps[1..], irp);
    }
  }

  // ---------------------------------------------------------------------------------
  // Every interleaving of posts, waits, cancellations and completions
  // ---------------------------------------------------------------------------------

  /** What a request that was unlinked will be completed with, by whoever unlinked it. */
  datatype Claim = Deliver(items: seq<Item>) | Cancelled

  datatype Delivery = Delivery(irp: nat, item: Item)

  datatype Completion = Completion(irp: nat, claim: Claim)

  /** `posted` and `delivered` are the histories of both ends, in the order of the lock. */
  datatype System = System(q: Queue, submitted: set<nat>, claims: map<nat, Claim>, completed: seq<Completion>,
                           posted: seq<Item>, delivered: seq<Delivery>)

  const START := System(Queue([], []), {}, map[], [], [], [])

  datatype Step =
    | PostItem(item: Item)
    | WaitFor(irp: nat, maxItems: nat)
    | CancelOne(irp: nat)
    | CancelAll
    | Complete(irp: nat)

  predicate Possible(s: System, step: Step) {
    match step
    case PostItem(_) => true
    case WaitFor(irp, maxItems) => irp !in s.submitted && maxItems > 0
    case CancelOne(_) => true
    case CancelAll => true
    case Complete(irp) => irp in s.claims
  }

  function Assign(irp: nat, items: seq<Item>): (ds: seq<Delivery>)
    ensures |ds| == |items| && forall i :: 0 <= i < |items| ==> ds[i] == Delivery(irp, items[i])
  {
    seq(|items|, i requires 0 <= i < |items| => Delivery(irp, items[i]))
  }

  function Apply(s: System, step: Step): System
    requires Possible(s, step)
  {
    match step
    case PostItem(item) =>
      var s' := s.(q := PostLocked(s.q, item), posted := s.posted + [item]);
      if s.q.irps == [] then s'
      else s'.(claims := s.claims[s.q.irps[0] := Deliver([item])],
               delivered := s.delivered + [Delivery(s.q.irps[0], item)])
    case WaitFor(irp, maxItems) =>
      var n := BatchSize(s.q, maxItems);
      var s' := s.(q := WaitLocked(s.q, irp, maxItems), submitted := s.submitted + {irp});
      if n == 0 then s'
      else s'.(claims := s.claims[irp := Deliver(s.q.items[..n])],
               delivered := s.delivered + Assign(irp, s.q.items[..n]))
    case CancelOne(irp) =>
      if irp in s.q.irps then s.(q := s.q.(irps := Without(s.q.irps, irp)), claims := s.claims[irp := Cancelled]) else s
    case CancelAll =>
      s.(q := s.q.(irps := []), claims := s.claims + map irp | irp in s.q.irps :: Cancelled)
    case Complete(irp) =>
      s.(claims := map x | x in s.claims && x != irp :: s.claims[x],
         completed := s.completed + [Completion(irp, s.claims[irp])])
  }

  /** A wait that finds items takes them from the front, as many as there are or as there is room for, and is claimed
      with just these; one that finds none goes behind the waiting ones. */
  lemma WaitTakesAll(s: System, irp: nat, maxItems: nat)
    requires Possible(s, WaitFor(irp, maxItems))
    ensures var s' := Apply(s, WaitFor(irp, maxItems));
            && s'.submitted == s.submitted + {irp} && s'.completed == s.completed && s'.posted == s.posted
            && if s.q.items == [] then
                 s'.q == Queue([], s.q.irps + [irp]) && s'.claims == s.claims && s'.delivered == s.delivered
               else
                 && irp in s'.claims && s'.claims[irp].Deliver? && s'.q.irps == s.q.irps
                 && TakenInFront(s.q.items, s'.q.items, s'.claims[irp].items, maxItems)
                 && Items(s'.delivered) == Items(s.delivered) + s'.claims[irp].items
  {
    if s.q.items != [] {
      ItemsAppend(s.delivered, irp, s.q.items[..BatchSize(s.q, maxItems)]);
    }
  }

  /** A posted item goes to the request that has waited longest, and behind the pending items if none waits. */
  lemma PostServesFirst(s: System, item: Item)
    ensures var s' := Apply(s, PostItem(item));
            && s'.posted == s.posted + [item] && s'.submitted == s.submitted && s'.completed == s.completed
            && if s.q.irps == [] then
                 s'.q == Queue(s.q.items + [item], []) && s'.claims == s.claims && s'.delivered == s.delivered
               else
                 && [s.q.irps[0]] + s'.q.irps == s.q.irps && s'.q.items == s.q.items
                 && s'.claims == s.claims[s.q.irps[0] := Deliver([item])]
                 && s'.delivered == s.delivered + [Delivery(s.q.irps[0], item)]
  {
  }

  /** Requests are served in the order in which they came: what waits after a step is what waited before, without those
      that were served or cancelled, and with a new one at the end. */
  lemma RequestsInOrder(s: System, step: Step)
    requires Possible(s, step) && Distinct(s.q.irps)
    ensures match step
            case PostItem(_) => Apply(s, step).q.irps == if s.q.irps == [] then [] else s.q.irps[1..]
            case WaitFor(irp, _) => Apply(s, step).q.irps == s.q.irps + if s.q.items == [] then [irp] else []
            case CancelOne(irp) =>
              (irp in s.q.irps ==>
                 exists i :: 0 <= i < |s.q.irps| && s.q.irps[i] == irp &&
                             Apply(s, step).q.irps == s.q.irps[..i] + s.q.irps[i + 1..]) &&
              (irp !in s.q.irps ==> Apply(s, step) == s)
            case CancelAll => Apply(s, step).q == Queue(s.q.items, [])
            case Complete(_) => Apply(s, step).q == s.q
  {
    if step.CancelOne? && step.irp in s.q.irps {
      var i :| 0 <= i < |s.q.irps| && s.q.irps[i] == step.irp;
      WithoutSplit(s.q.irps[..i], step.irp, s.q.irps[i + 1..]);
      assert s.q.irps == s.q.irps[..i] + [step.irp] + s.q.irps[i + 1..];
    }
  }

  predicate PossibleRun(s: System, steps: seq<Step>)
    decreases |steps|
  {
    steps == [] || (Possible(s, steps[0]) && PossibleRun(Apply(s, steps[0]), steps[1..]))
  }

  function After(s: System, steps: seq<Step>): System
    requires PossibleRun(s, steps)
    decreases |steps|
  {
    if steps == [] then s else After(Apply(s, steps[0]), steps[1..])
  }

  function Items(ds: seq<Delivery>): (items: seq<Item>)
    ensures |items| == |ds|
  {
    seq(|ds|, i requires 0 <= i < |ds| => ds[i].item)
  }

  /** The items handed to one request, in order. */
  function For(ds: seq<Delivery>, irp: nat): seq<Item> {
    if ds == [] then []
    else For(ds[..|ds| - 1], irp) + if ds[|ds| - 1].irp == irp then [ds[|ds| - 1].item] else []
  }

  lemma {:induction false} ForAssign(ds: seq<Delivery>, irp: nat, items: seq<Item>, other: nat)
    ensures For(ds + Assign(irp, items), other) == For(ds, other) + if other == irp then items else []
    decreases |items|
  {
    var all := ds + Assign(irp, items);
    if items == [] {
      assert all == ds;
    } else {
      var n := |items| - 1;
      assert all[..|all| - 1] == ds + Assign(irp, items[..n]);
      ForAssign(ds, irp, items[..n], other);
      assert items == items[..n] + [items[n]];
    }
  }

  ghost predicate CompletedOnce(cs: seq<Completion>) {
    forall i, j :: 0 <= i < j < |cs| ==> cs[i].irp != cs[j].irp
  }

  ghost predicate IsCompleted(s: System, irp: nat) {
    exists i :: 0 <= i < |s.completed| && s.completed[i].irp == irp
  }

  /** A claim is honest: a delivery is exactly what was handed to the request, and a cancelled request was
      handed nothing. */
  ghost predicate Honest(s: System, irp: nat, claim: Claim) {
    For(s.delivered, irp) == if claim.Deliver? then claim.items else []
  }

  /** A request is in one place at a time, and what it was handed agrees with that place. */
  ghost predicate RequestOk(s: System, irp: nat) {
    && (irp in s.q.irps ==>
        irp in s.submitted && irp !in s.claims && !IsCompleted(s, irp) && For(s.delivered, irp) == [])
    && (irp in s.claims ==> irp in s.submitted && !IsCompleted(s, irp) && Honest(s, irp, s.claims[irp]))
    && (irp in s.submitted ==> irp in s.q.irps || irp in s.claims || IsCompleted(s, irp))
    && (irp !in s.submitted ==> For(s.delivered, irp) == [])
  }

  ghost predicate CompletionOk(s: System, c: Completion) {
    c.irp in s.submitted && Honest(s, c.irp, c.claim)
  }

  ghost predicate Inv(s: System) {
    && (s.q.items == [] || s.q.irps == [])
    && Items(s.delivered) + s.q.items == s.posted
    && Distinct(s.q.irps) && CompletedOnce(s.completed)
    && (forall irp: nat :: RequestOk(s, irp))
    && (forall i :: 0 <= i < |s.completed| ==> CompletionOk(s, s.completed[i]))
  }

  lemma SameCompleted(s: System, s': System, irp: nat)
    requires s'.completed == s.completed
    ensures IsCompleted(s', irp) <==> IsCompleted(s, irp)
  {
  }

  /** A completed request is neither waiting nor claimed, so a delivery to another one does not concern it. */
  lemma CompletionsKeep(s: System, s': System, other: nat)
    requires Inv(s) && s'.completed == s.completed && s.submitted <= s'.submitted && !IsCompleted(s, other)
    requires forall irp: nat :: irp != other ==> For(s'.delivered, irp) == For(s.delivered, irp)
    ensures forall i :: 0 <= i < |s'.completed| ==> CompletionOk(s', s'.completed[i])
  {
    forall i | 0 <= i < |s.completed|
      ensures CompletionOk(s', s.completed[i])
    {
      assert CompletionOk(s, s.completed[i]);
      assert IsCompleted(s, s.completed[i].irp);
    }
  }

  lemma PostKeeps(s: System, item: Item)
    requires Inv(s)
    ensures Inv(Apply(s, PostItem(item)))
  {
    var s' := Apply(s, PostItem(item));
    if s.q.irps != [] {
      var first := s.q.irps[0];
      assert RequestOk(s, first);
      HandOver(s.delivered, first, item);
      assert Items(s'.delivered) == Items(s.delivered) + [item];
      CompletionsKeep(s, s', first);
      forall irp: nat
        ensures RequestOk(s', irp)
      {
        SameCompleted(s, s', irp);
        assert RequestOk(s, irp);
        FirstOnce(s.q.irps, irp);
      }
    } else {
      forall irp: nat
        ensures RequestOk(s', irp)
      {
        SameCompleted(s, s', irp);
        assert RequestOk(s, irp);
      }
      forall i | 0 <= i < |s.completed|
        ensures CompletionOk(s', s.completed[i])
      {
        assert CompletionOk(s, s.completed[i]);
      }
    }
  }

  lemma FirstOnce(irps: seq<nat>, irp: nat)
    requires Distinct(irps) && irps != []
    ensures irp in irps[1..] <==> irp in irps && irp != irps[0]
  {
    assert irps == [irps[0]] + irps[1..];
  }

  lemma HandOver(ds: seq<Delivery>, irp: nat, item: Item)
    requires For(ds, irp) == []
    ensures For(ds + [Delivery(irp, item)], irp) == [item]
    ensures forall x: nat :: x != irp ==> For(ds + [Delivery(irp, item)], x) == For(ds, x)
  {
    assert Assign(irp, [item]) == [Delivery(irp, item)];
    BatchFor(ds, irp, [item]);
  }

  lemma WaitKeeps(s: System, irp: nat, maxItems: nat)
    requires Inv(s) && Possible(s, WaitFor(irp, maxItems))
    ensures Inv(Apply(s, WaitFor(irp, maxItems)))
  {
    var n := BatchSize(s.q, maxItems);
    if n > 0 {
      BatchKeeps(s, irp, n);
    } else {
      QueuedKeeps(s, irp);
    }
  }

  lemma NotCompletedYet(s: System, irp: nat)
    requires Inv(s) && irp !in s.submitted
    ensures !IsCompleted(s, irp) && irp !in s.q.irps && irp !in s.claims && For(s.delivered, irp) == []
  {
    assert RequestOk(s, irp);
    forall i | 0 <= i < |s.completed|
      ensures s.completed[i].irp != irp
    {
      assert CompletionOk(s, s.completed[i]);
    }
  }

  lemma QueuedKeeps(s: System, irp: nat)
    requires Inv(s) && irp !in s.submitted && s.q.items == []
    ensures Inv(s.(q := s.q.(irps := s.q.irps + [irp]), submitted := s.submitted + {irp}))
  {
    var s' := s.(q := s.q.(irps := s.q.irps + [irp]), submitted := s.submitted + {irp});
    NotCompletedYet(s, irp);
    CompletionsKeep(s, s', irp);
    forall x: nat
      ensures RequestOk(s', x)
    {
      SameCompleted(s, s', x);
      assert RequestOk(s, x);
    }
  }

  function Batched(s: System, irp: nat, n: nat): System
    requires n <= |s.q.items|
  {
    s.(q := s.q.(items := s.q.items[n..]), submitted := s.submitted + {irp},
       claims := s.claims[irp := Deliver(s.q.items[..n])], delivered := s.delivered + Assign(irp, s.q.items[..n]))
  }

  lemma BatchKeeps(s: System, irp: nat, n: nat)
    requires Inv(s) && irp !in s.submitted && 0 < n <= |s.q.items|
    ensures Inv(Batched(s, irp, n))
  {
    NotCompletedYet(s, irp);
    BatchFor(s.delivered, irp, s.q.items[..n]);
    BatchHistory(s.delivered, irp, s.q.items, n);
    CompletionsKeep(s, Batched(s, irp, n), irp);
    forall x: nat
      ensures RequestOk(Batched(s, irp, n), x)
    {
      BatchKeepsRequest(s, irp, n, x);
    }
  }

  lemma BatchKeepsRequest(s: System, irp: nat, n: nat, x: nat)
    requires Inv(s) && irp !in s.submitted && 0 < n <= |s.q.items|
    ensures RequestOk(Batched(s, irp, n), x)
  {
    NotCompletedYet(s, irp);
    BatchFor(s.delivered, irp, s.q.items[..n]);
    SameCompleted(s, Batched(s, irp, n), x);
    assert RequestOk(s, x);
  }

  lemma BatchFor(ds: seq<Delivery>, irp: nat, items: seq<Item>)
    requires For(ds, irp) == []
    ensures For(ds + Assign(irp, items), irp) == items
    ensures forall x: nat :: x != irp ==> For(ds + Assign(irp, items), x) == For(ds, x)
  {
    ForAssign(ds, irp, items, irp);
    forall x: nat | x != irp
      ensures For(ds + Assign(irp, items), x) == For(ds, x)
    {
      ForAssign(ds, irp, items, x);
    }
  }

  lemma BatchHistory(ds: seq<Delivery>, irp: nat, items: seq<Item>, n: nat)
    requires n <= |items|
    ensures Items(ds + Assign(irp, items[..n])) + items[n..] == Items(ds) + items
  {
    assert Items(ds + Assign(irp, items[..n])) == Items(ds) + items[..n];
    assert items[..n] + items[n..] == items;
  }

  /** Requests that are unlinked without a delivery become cancelled claims. */
  lemma UnlinkKeeps(s: System, s': System, gone: set<nat>)
    requires Inv(s) && (forall irp :: irp in gone ==> irp in s.q.irps)
    requires s' == s.(q := s.q.(irps := s'.q.irps), claims := s'.claims)
    requires Distinct(s'.q.irps) && (forall irp: nat :: irp in s'.q.irps <==> irp in s.q.irps && irp !in gone)
    requires forall irp: nat :: irp in s'.claims <==> irp in s.claims || irp in gone
    requires forall irp :: irp in s'.claims ==> s'.claims[irp] == if irp in gone then Cancelled else s.claims[irp]
    ensures Inv(s')
  {
    assert s'.q.irps != [] ==> s'.q.irps[0] in s'.q.irps;
    forall irp: nat
      ensures RequestOk(s', irp)
    {
      SameCompleted(s, s', irp);
      assert RequestOk(s, irp);
    }
    forall i | 0 <= i < |s.completed|
      ensures CompletionOk(s', s.completed[i])
    {
      assert CompletionOk(s, s.completed[i]);
    }
  }

  lemma CancelKeeps(s: System, step: Step)
    requires Inv(s) && (step.CancelOne? || step.CancelAll?)
    ensures Inv(Apply(s, step))
  {
    var s' := Apply(s, step);
    if step.CancelAll? {
      UnlinkKeeps(s, s', set irp | irp in s.q.irps);
    } else if step.irp in s.q.irps {
      WithoutMembers(s.q.irps, step.irp);
      UnlinkKeeps(s, s', {step.irp});
    }
  }

  lemma CompleteKeeps(s: System, irp: nat)
    requires Inv(s) && irp in s.claims
    ensures Inv(Apply(s, Complete(irp)))
  {
    var s' := Apply(s, Complete(irp));
    assert RequestOk(s, irp);
    CompletedOnceMore(s.completed, Completion(irp, s.claims[irp]));
    forall x: nat
      ensures RequestOk(s', x)
    {
      CompleteKeepsRequest(s, irp, x);
    }
    forall i | 0 <= i < |s'.completed|
      ensures CompletionOk(s', s'.completed[i])
    {
      if i < |s.completed| {
        assert CompletionOk(s, s.completed[i]);
      }
    }
  }

  lemma CompleteKeepsRequest(s: System, irp: nat, x: nat)
    requires Inv(s) && irp in s.claims
    ensures RequestOk(Apply(s, Complete(irp)), x)
  {
    assert RequestOk(s, x) && RequestOk(s, irp);
    OneMoreCompleted(s, Apply(s, Complete(irp)), irp, x);
  }

  lemma CompletedOnceMore(cs: seq<Completion>, c: Completion)
    requires CompletedOnce(cs) && forall i :: 0 <= i < |cs| ==> cs[i].irp != c.irp
    ensures CompletedOnce(cs + [c])
  {
  }

  lemma OneMoreCompleted(s: System, s': System, irp: nat, x: nat)
    requires |s'.completed| == |s.completed| + 1 && s'.completed[..|s.completed|] == s.completed &&
             s'.completed[|s.completed|].irp == irp
    ensures IsCompleted(s', x) <==> IsCompleted(s, x) || x == irp
  {
    if IsCompleted(s, x) {
      var i :| 0 <= i < |s.completed| && s.completed[i].irp == x;
      assert s'.completed[..|s.completed|][i].irp == x;
    }
    if IsCompleted(s', x) && x != irp {
      var i :| 0 <= i < |s'.completed| && s'.completed[i].irp == x;
      assert s'.completed[..|s.completed|][i].irp == x;
    }
  }

  lemma StepKeepsInv(s: System, step: Step)
    requires Inv(s) && Possible(s, step)
    ensures Inv(Apply(s, step))
  {
    match step
    case PostItem(item) => PostKeeps(s, item);
    case WaitFor(irp, maxItems) => WaitKeeps(s, irp, maxItems);
    case CancelOne(_) => CancelKeeps(s, step);
    case CancelAll => CancelKeeps(s, step);
    case Complete(irp) => CompleteKeeps(s, irp);
  }

  lemma {:induction false} InvAlongRun(s: System, steps: seq<Step>)
    requires Inv(s) && PossibleRun(s, steps)
    ensures Inv(After(s, steps))
    decreases |steps|
  {
    if steps != [] {
      StepKeepsInv(s, steps[0]);
      InvAlongRun(Apply(s, steps[0]), steps[1..]);
    }
  }

  /** On every run: items and requests never wait at the same time; what was delivered followed by what is
      pending is what was posted, in order; no request is completed twice, and each completed one got exactly
      the items handed to it, a cancelled one none. */
  lemma QueueIsFaithful(steps: seq<Step>)
    requires PossibleRun(START, steps)
    ensures var s := After(START, steps);
            && (s.q.items == [] || s.q.irps == [])
            && Items(s.delivered) + s.q.items == s.posted
            && CompletedOnce(s.completed)
            && forall i :: 0 <= i < |s.completed| ==> CompletionOk(s, s.completed[i]) && s.completed[i].irp !in s.q.irps
  {
    assert For([], 0) == [];
    InvAlongRun(START, steps);
    var s := After(START, steps);
    forall i | 0 <= i < |s.completed|
      ensures s.completed[i].irp !in s.q.irps
    {
      assert RequestOk(s, s.completed[i].irp) && IsCompleted(s, s.completed[i].irp);
    }
  }

  // ---------------------------------------------------------------------------------
  // The client's table of handles
  // ---------------------------------------------------------------------------------

  /** associatedData: the endpoint in the upper half, the generation word in the lower. */
  function Pack(index: nat, generation: nat): nat {
    index * TWO32 + generation
  }

  function IndexOf(data: nat): nat {
    data / TWO32
  }

  function GenerationOf(data: nat): nat {
    data % TWO32
  }

  lemma PackRoundTrip(index: nat, generation: nat)
    requires generation < TWO32
    ensures IndexOf(Pack(index, generation)) == index && GenerationOf(Pack(index, generation)) == generation
    ensures Pack(index, generation) - generation == index * 0x1_0000_0000
  {
    DivModUnique(index, generation, TWO32);
  }

  ghost predicate InTable(items: seq<Item>, n: nat) {
    forall i :: 0 <= i < |items| ==> IndexOf(items[i].data) < n
  }

  /** The last item for an endpoint, if any. */
  function LastFor(items: seq<Item>, e: nat): Option<Handle> {
    if items == [] then None
    else if IndexOf(items[|items| - 1].data) == e
      then Some(Handle(items[|items| - 1].handle, GenerationOf(items[|items| - 1].data)))
    else LastFor(items[..|items| - 1], e)
  }

  ghost predicate IsLastFor(items: seq<Item>, e: nat, i: nat) {
    i < |items| && IndexOf(items[i].data) == e && forall j :: i < j < |items| ==> IndexOf(items[j].data) != e
  }

  /** There is one exactly if some item is for the endpoint, and it is then the item behind which no other is. */
  lemma {:induction false} LastForExactly(items: seq<Item>, e: nat)
    ensures LastFor(items, e).None? <==> forall i :: 0 <= i < |items| ==> IndexOf(items[i].data) != e
    ensures forall i: nat :: IsLastFor(items, e, i) ==>
              LastFor(items, e) == Some(Handle(items[i].handle, items[i].data % 0x1_0000_0000))
    decreases |items|
  {
    if items != [] {
      var before := items[..|items| - 1];
      LastForExactly(before, e);
      forall i: nat | IsLastFor(items, e, i) && i < |before|
        ensures IsLastFor(before, e, i)
      {
      }
    }
  }

  lemma {:induction false} LastForAppend(a: seq<Item>, b: seq<Item>, e: nat)
    ensures LastFor(a + b, e) == if LastFor(b, e).Some? then LastFor(b, e) else LastFor(a, e)
    decreases |b|
  {
    if b == [] {
      assert a + b == a;
    } else {
      assert (a + b)[..|a + b| - 1] == a + b[..|b| - 1];
      LastForAppend(a, b[..|b| - 1], e);
    }
  }

  function Events(handles: seq<Handle>): (events: seq<nat>)
    ensures |events| == |handles|
  {
    seq(|handles|, i requires 0 <= i < |handles| => handles[i].event)
  }

  function Received(items: seq<Item>): (events: seq<nat>)
    ensures |events| == |items|
  {
    seq(|items|, i requires 0 <= i < |items| => items[i].handle)
  }

  /** Every handle is accounted for: it is on file or was closed, as often as it was on file or received before. */
  ghost predicate Accounted(closed: seq<nat>, handles: seq<Handle>, before: seq<Handle>, received: seq<nat>) {
    forall x: nat :: x != 0 ==>
      multiset(closed)[x] + multiset(Events(handles))[x] == multiset(Events(before))[x] + multiset(received)[x]
  }

  lemma ReplaceAccounted(closed: seq<nat>, handles: seq<Handle>, before: seq<Handle>, received: seq<nat>, e: nat,
                         h: Handle)
    requires e < |handles| && Accounted(closed, handles, before, received)
    ensures Accounted(closed + if handles[e].event != 0 then [handles[e].event] else [], handles[e := h], before,
                      received + [h.event])
  {
    assert Events(handles[e := h]) == Events(handles)[e := h.event];
  }

  /** Each entry is the last update for its endpoint; an endpoint without update keeps its entry. */
  ghost predicate Updated(before: seq<Handle>, now: seq<Handle>, updates: seq<Item>) {
    && |now| == |before|
    && forall e :: 0 <= e < |now| ==>
         now[e] == if LastFor(updates, e).Some? then LastFor(updates, e).value else before[e]
  }

  lemma UpdatedStep(before: seq<Handle>, now: seq<Handle>, updates: seq<Item>, item: Item)
    requires Updated(before, now, updates) && IndexOf(item.data) < |now|
    ensures Updated(before, now[IndexOf(item.data) := Handle(item.handle, GenerationOf(item.data))], updates + [item])
  {
    assert (updates + [item])[..|updates|] == updates;
  }

  /** One update: a handle that was on file is closed, and the new one takes its place. */
  method Enter(table: array<Handle>, update: Item) returns (closes: seq<nat>)
    requires IndexOf(update.data) < table.Length
    modifies table
    ensures var e := IndexOf(update.data);
            && closes == (if old(table[e]).event != 0 then [old(table[e]).event] else [])
            && table[..] == old(table[..])[e := Handle(update.handle, GenerationOf(update.data))]
  {
    var index := IndexOf(update.data);
    closes := if table[index].event != 0 then [table[index].event] else [];
    table[index] := Handle(update.handle, GenerationOf(update.data));
  }

  ghost predicate Entered(before: seq<Handle>, now: seq<Handle>, closed: seq<nat>, updates: seq<Item>) {
    Updated(before, now, updates) && Accounted(closed, now, before, Received(updates))
  }

  lemma EnteredStep(before: seq<Handle>, was: seq<Handle>, closed: seq<nat>, updates: seq<Item>, item: Item)
    requires Entered(before, was, closed, updates) && IndexOf(item.data) < |was|
    ensures var e := IndexOf(item.data);
            Entered(before, was[e := Handle(item.handle, GenerationOf(item.data))],
                    closed + (if was[e].event != 0 then [was[e].event] else []), updates + [item])
  {
    UpdatedStep(before, was, updates, item);
    ReplaceAccounted(closed, was, before, Received(updates), IndexOf(item.data),
                     Handle(item.handle, GenerationOf(item.data)));
    assert Received(updates + [item]) == Received(updates) + [item.handle];
  }

  /** processNotificationHandleUpdates. Each entry ends up as the last update for its endpoint; an endpoint
      without update keeps its entry; every handle ever received is either on file or was closed exactly once. */
  method ProcessUpdates(table: array<Handle>, updates: seq<Item>) returns (closed: seq<nat>)
    requires InTable(updates, table.Length)
    modifies table
    ensures Updated(old(table[..]), table[..], updates)
    ensures Accounted(closed, table[..], old(table[..]), Received(updates))
  {
    closed := [];
    ghost var before := table[..];
    for i := 0 to |updates|
      invariant Entered(before, table[..], closed, updates[..i])
    {
      assert updates[..i + 1] == updates[..i] + [updates[i]];
      EnteredStep(before, table[..], closed, updates[..i], updates[i]);
      var closes := Enter(table, updates[i]);
      closed := closed + closes;
    }
    assert updates[..|updates|] == updates;
  }

  // ---------------------------------------------------------------------------------
  // The table after a run
  // ---------------------------------------------------------------------------------

  /** What a completion brings to the client; a cancelled request brings nothing. */
  function Brought(claim: Claim): seq<Item> {
    if claim.Deliver? then claim.items else []
  }

  function AllBrought(cs: seq<Completion>): seq<Item> {
    if cs == [] then [] else AllBrought(cs[..|cs| - 1]) + Brought(cs[|cs| - 1].claim)
  }

  /** updateNotificationHandles has one request under way at a time: it asks again only when the one before was
      completed. */
  predicate OneAtATime(s: System, steps: seq<Step>)
    requires PossibleRun(s, steps)
    decreases |steps|
  {
    steps == [] ||
      ((steps[0].WaitFor? ==> s.q.irps == [] && s.claims == map[]) && OneAtATime(Apply(s, steps[0]), steps[1..]))
  }

  /** What was unlinked for a request that is not completed yet. */
  ghost predicate Carries(claims: map<nat, Claim>, items: seq<Item>) {
    && (claims == map[] ==> items == [])
    && forall irp :: irp in claims ==> Brought(claims[irp]) == items
  }

  /** At most one request is under way, and what the completions brought, followed by what is on its way, is what
      was handed over under the lock. */
  ghost predicate InTurn(s: System, way: seq<Item>) {
    && |s.q.irps| <= 1 && (s.q.irps != [] ==> s.claims == map[])
    && (forall x, y :: x in s.claims && y in s.claims ==> x == y)
    && Carries(s.claims, way) && AllBrought(s.completed) + way == Items(s.delivered)
  }

  lemma ItemsAppend(ds: seq<Delivery>, irp: nat, items: seq<Item>)
    ensures Items(ds + Assign(irp, items)) == Items(ds) + items
  {
  }

  lemma HandedOver(s: System, irp: nat, items: seq<Item>)
    requires InTurn(s, []) && s.claims == map[]
    ensures forall q: Queue, submitted: set<nat>, posted: seq<Item> :: q.irps == [] ==>
              InTurn(System(q, submitted, map[irp := Deliver(items)], s.completed, posted,
                            s.delivered + Assign(irp, items)), items)
  {
    ItemsAppend(s.delivered, irp, items);
    assert AllBrought(s.completed) + [] == AllBrought(s.completed);
    assert map[irp := Deliver(items)] != map[] by { assert irp in map[irp := Deliver(items)]; }
  }

  lemma PostInTurn(s: System, item: Item, way: seq<Item>) returns (way': seq<Item>)
    requires InTurn(s, way)
    ensures InTurn(Apply(s, PostItem(item)), way')
  {
    way' := way;
    if s.q.irps != [] {
      var irp := s.q.irps[0];
      HandedOver(s, irp, [item]);
      assert Assign(irp, [item]) == [Delivery(irp, item)];
      assert s.claims[irp := Deliver([item])] == map[irp := Deliver([item])];
      way' := [item];
    }
  }

  lemma WaitInTurn(s: System, irp: nat, maxItems: nat, way: seq<Item>) returns (way': seq<Item>)
    requires InTurn(s, way) && Possible(s, WaitFor(irp, maxItems)) && s.q.irps == [] && s.claims == map[]
    ensures InTurn(Apply(s, WaitFor(irp, maxItems)), way')
  {
    way' := way;
    var n := BatchSize(s.q, maxItems);
    if n > 0 {
      HandedOver(s, irp, s.q.items[..n]);
      assert s.claims[irp := Deliver(s.q.items[..n])] == map[irp := Deliver(s.q.items[..n])];
      way' := s.q.items[..n];
    }
  }

  lemma CancelInTurn(s: System, step: Step, way: seq<Item>)
    requires InTurn(s, way) && (step.CancelOne? || step.CancelAll?)
    ensures InTurn(Apply(s, step), way)
  {
    var s' := Apply(s, step);
    if s.q.irps != [] {
      var irp := s.q.irps[0];
      assert s.q.irps == [irp] && s.q.irps[1..] == [];
      if step.CancelAll? || step.irp == irp {
        assert s'.claims == map[irp := Cancelled];
        assert irp in s'.claims;
      }
    } else if step.CancelAll? {
      assert s'.claims == s.claims;
    }
  }

  lemma CompleteInTurn(s: System, irp: nat, way: seq<Item>)
    requires InTurn(s, way) && irp in s.claims
    ensures InTurn(Apply(s, Complete(irp)), [])
  {
    var s' := Apply(s, Complete(irp));
    assert s'.claims == map[];
    assert s'.completed[..|s.completed|] == s.completed;
    assert AllBrought(s'.completed) == AllBrought(s.completed) + way;
  }

  lemma {:induction false} RunInTurn(s: System, steps: seq<Step>, way: seq<Item>) returns (way': seq<Item>)
    requires PossibleRun(s, steps) && OneAtATime(s, steps) && InTurn(s, way)
    ensures InTurn(After(s, steps), way')
    decreases |steps|
  {
    way' := way;
    if steps != [] {
      match steps[0] {
        case PostItem(item) => way' := PostInTurn(s, item, way);
        case WaitFor(irp, maxItems) => way' := WaitInTurn(s, irp, maxItems, way);
        case CancelOne(_) => CancelInTurn(s, steps[0], way);
        case CancelAll => CancelInTurn(s, steps[0], way);
        case Complete(irp) => CompleteInTurn(s, irp, way); way' := [];
      }
      way' := RunInTurn(Apply(s, steps[0]), steps[1..], way');
    }
  }

  /** The client feeds each completion to ProcessUpdates in turn: tables[i] is its table before the i-th. */
  ghost predicate Feeding(tables: seq<seq<Handle>>, cs: seq<Completion>) {
    && |tables| == |cs| + 1
    && forall i :: 0 <= i < |cs| ==> Updated(tables[i], tables[i + 1], Brought(cs[i].claim))
  }

  lemma UpdatedTwice(a: seq<Handle>, b: seq<Handle>, c: seq<Handle>, first: seq<Item>, second: seq<Item>)
    requires Updated(a, b, first) && Updated(b, c, second)
    ensures Updated(a, c, first + second)
  {
    forall e: nat | e < |c|
      ensures c[e] == if LastFor(first + second, e).Some? then LastFor(first + second, e).value else a[e]
    {
      LastForAppend(first, second, e);
    }
  }

  lemma {:induction false} FedTable(tables: seq<seq<Handle>>, cs: seq<Completion>)
    requires Feeding(tables, cs)
    ensures Updated(tables[0], tables[|cs|], AllBrought(cs))
    decreases |cs|
  {
    if cs != [] {
      var n := |cs| - 1;
      assert Feeding(tables[..n + 1], cs[..n]) by {
        forall i | 0 <= i < n
          ensures Updated(tables[..n + 1][i], tables[..n + 1][i + 1], Brought(cs[..n][i].claim))
        {
          assert Updated(tables[i], tables[i + 1], Brought(cs[i].claim));
        }
      }
      FedTable(tables[..n + 1], cs[..n]);
      UpdatedTwice(tables[0], tables[n], tables[n + 1], AllBrought(cs[..n]), Brought(cs[n].claim));
    }
  }

  /** The client's table after any run with one request under way at a time, its completions processed in the order
      in which they arrive, whatever cancellations came between: each entry is the last handle registered for its
      endpoint among the items brought, which are the items posted up to some moment, in order. When no item is pending
      and no request is being completed, it is the last handle registered at all, with the generation word it was
      registered under; an endpoint without any keeps its first entry. */
  lemma DeliveredTableIsCurrent(steps: seq<Step>, tables: seq<seq<Handle>>)
    requires PossibleRun(START, steps) && OneAtATime(START, steps)
    requires Feeding(tables, After(START, steps).completed)
    ensures var s := After(START, steps);
            && Updated(tables[0], tables[|s.completed|], AllBrought(s.completed))
            && AllBrought(s.completed) <= s.posted
            && (s.claims == map[] && s.q.items == [] ==> Updated(tables[0], tables[|s.completed|], s.posted))
  {
    assert Items(START.delivered) == [];
    var way := RunInTurn(START, steps, []);
    HistoryOf(steps);
    BroughtIsPosted(After(START, steps), way);
    FedTable(tables, After(START, steps).completed);
  }

  lemma HistoryOf(steps: seq<Step>)
    requires PossibleRun(START, steps)
    ensures var s := After(START, steps); Items(s.delivered) + s.q.items == s.posted
  {
    QueueIsFaithful(steps);
  }

  lemma BroughtIsPosted(s: System, way: seq<Item>)
    requires InTurn(s, way) && Items(s.delivered) + s.q.items == s.posted
    ensures AllBrought(s.completed) <= s.posted
    ensures s.claims == map[] && s.q.items == [] ==> AllBrought(s.completed) == s.posted
  {
    var brought := AllBrought(s.completed);
    assert s.posted == brought + (way + s.q.items);
    if s.claims == map[] && s.q.items == [] {
      assert way + s.q.items == [] && brought + [] == brought;
    }
  }
}
