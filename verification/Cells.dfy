/** The bitmap that hands out 64 KiB cells of the shared section (RTL_BITMAP bufferMap). */
module Cells {
  import opened Arith

  const NOT_FOUND: nat := 0xFFFF_FFFF

  /** Bits [start, start + count) all have the value v. */
  ghost predicate RangeIs(bits: seq<bool>, start: nat, count: nat, v: bool) {
    start + count <= |bits| && forall b :: start <= b < start + count ==> bits[b] == v
  }

  /** The bitmap with bits [start, start + count) set to v. */
  function SetRange(bits: seq<bool>, start: nat, count: nat, v: bool): (out: seq<bool>)
    requires start + count <= |bits|
    ensures |out| == |bits|
    ensures forall b :: 0 <= b < |bits| ==> out[b] == if start <= b < start + count then v else bits[b]
  {
    seq(|bits|, b requires 0 <= b < |bits| => if start <= b < start + count then v else bits[b])
  }

  /** What a caller may rely on: a clear run was found and is now set, or there was none. */
  ghost predicate Allocated(bits: seq<bool>, bits': seq<bool>, count: nat, index: nat) {
    if index == NOT_FOUND then
      && bits' == bits
      && forall i :: 0 <= i < |bits| ==> !RangeIs(bits, i, count, false)
    else
      && RangeIs(bits, index, count, false)
      && bits' == SetRange(bits, index, count, true)
  }

  class Bitmap {
    const bits: array<bool>

    ghost predicate Valid()
      reads this
    {
      bits.Length < NOT_FOUND
    }

    /** RtlInitializeBitMap over zeroed storage. */
    constructor (entries: nat)
      requires entries < NOT_FOUND
      ensures Valid() && fresh(bits) && bits.Length == entries
      ensures forall b :: 0 <= b < entries ==> !bits[b]
    {
      bits := new bool[entries](_ => false);
    }

    /** RtlFindClearBitsAndSet with hint 0, as a first-fit scan. */
    method FindClearBitsAndSet(count: nat) returns (index: nat)
      requires Valid()
      modifies bits
      ensures Allocated(old(bits[..]), bits[..], count, index)
      ensures index != NOT_FOUND ==> forall i :: 0 <= i < index ==> !RangeIs(old(bits[..]), i, count, false)
    {
      var start, run := 0, 0;
      while run < count && start + run < bits.Length
        invariant start + run <= bits.Length
        invariant RangeIs(bits[..], start, run, false)
        invariant forall i :: 0 <= i < start ==> !RangeIs(bits[..], i, count, false)
        invariant run <= count
        decreases bits.Length - start - run
      {
        if bits[start + run] {
          forall i | 0 <= i < start + run + 1
            ensures !RangeIs(bits[..], i, count, false)
          {
            assert i >= start ==> bits[..][start + run];
          }
          start, run := start + run + 1, 0;
        } else {
          run := run + 1;
        }
      }
      if run < count {
        return NOT_FOUND;
      }
      index := start;
      var b := 0;
      while b < count
        invariant 0 <= b <= count
        invariant bits[..] == SetRange(old(bits[..]), start, b, true)
      {
        bits[start + b] := true;
        b := b + 1;
      }
    }

    /** RtlClearBits. */
    method ClearBits(start: nat, count: nat)
      requires start + count <= bits.Length
      modifies bits
      ensures bits[..] == SetRange(old(bits[..]), start, count, false)
    {
      var b := 0;
      while b < count
        invariant 0 <= b <= count
        invariant bits[..] == SetRange(old(bits[..]), start, b, false)
      {
        bits[start + b] := false;
        b := b + 1;
      }
    }
  }

  /** Releasing what was allocated restores the bitmap exactly. */
  lemma AllocateThenClear(bits: seq<bool>, bits': seq<bool>, count: nat, index: nat)
    requires Allocated(bits, bits', count, index) && index != NOT_FOUND
    ensures SetRange(bits', index, count, false) == bits
  {
    var out := SetRange(bits', index, count, false);
    forall b | 0 <= b < |bits|
      ensures out[b] == bits[b]
    {
    }
  }
}
