/** Which buffer slots reserve destroys and constructs, and what reserve(0)
    leaves in the handle: the code as written beside the behaviour its
    comments describe. */
module Lifecycle {
  import opened ArrayModel

  predicate Within(lo: nat, i: nat, hi: nat) {
    lo <= i < hi
  }

  /** The slots `[lo, hi)`: those a shrink from `hi` to `lo` clips, and
      those a growth from `lo` to `hi` adds. */
  function Slots(lo: nat, hi: nat): (r: set<nat>)
    ensures forall i: nat :: i in r <==> lo <= i < hi
  {
    set i: nat | i < hi && Within(lo, i, hi)
  }

  /** The destructor loop of reserve as written: the counter is incremented
      before its first test, so slot `length` is passed over. */
  method DestroyClippedAsWritten(length: nat, width: nat) returns (destroyed: set<nat>)
    ensures destroyed == Slots(length, width) - {length}
    ensures length < width ==> length in Slots(length, width) && length !in destroyed
  {
    destroyed := {};
    var ptr := length;
    while ptr + 1 < width
      invariant length <= ptr
      invariant ptr == length || ptr < width
      invariant destroyed == Slots(length + 1, ptr + 1)
    {
      ptr := ptr + 1;
      destroyed := destroyed + {ptr};
    }
  }

  /** The destructor loop as intended: every clipped slot, from `length` on. */
  method DestroyClipped(length: nat, width: nat) returns (destroyed: set<nat>)
    ensures destroyed == Slots(length, width)
  {
    destroyed := {};
    var ptr := length;
    while ptr < width
      invariant length <= ptr
      invariant ptr <= width || ptr == length
      invariant destroyed == Slots(length, ptr)
    {
      destroyed := destroyed + {ptr};
      ptr := ptr + 1;
    }
  }

  /** The slots placement new constructs as written: `length - width` of
      them from the start of the buffer. */
  function ConstructedAsWritten(width: nat, length: nat): (r: set<nat>)
    requires width < length
    ensures forall i: nat :: i in r <==> i < length - width
    ensures |r| == length - width
  {
    SlotsSize(0, length - width);
    Slots(0, length - width)
  }

  /** `[lo, hi)` has `hi - lo` slots. */
  lemma {:induction false} SlotsSize(lo: nat, hi: nat)
    requires lo <= hi
    ensures |Slots(lo, hi)| == hi - lo
    decreases hi - lo
  {
    if lo < hi {
      SlotsSize(lo + 1, hi);
      assert Slots(lo, hi) == {lo} + Slots(lo + 1, hi);
    }
  }

  /** As written, growing a non-empty array constructs over its first live
      element, and every added slot is missed when the array at most
      doubles. */
  lemma PlacementMisses(width: nat, length: nat)
    requires 0 < width < length
    ensures 0 in ConstructedAsWritten(width, length) && 0 !in Slots(width, length)
    ensures length <= 2 * width ==> ConstructedAsWritten(width, length) !! Slots(width, length)
  {
  }

  /** Intended lifecycle of a successful reserve(n): the slots that lose
      their element are exactly the clipped ones, the slots that get a
      default value are exactly the added ones, and no added slot already
      held a live element. */
  lemma ReserveLifecycle<T>(m: Model<T>, n: nat, zero: T)
    requires ArrayModel.Valid(m) && n > 0
    ensures var r := ArrayModel.Reserve(m, n, true, zero);
      (forall i: nat :: i < |m.elems| ==> (i in Slots(n, |m.elems|) <==> i >= |r.elems|))
      && (forall i: nat :: i in Slots(|m.elems|, n) ==> i < |r.elems| && r.elems[i] == zero)
      && (forall i: nat :: i < |r.elems| && i !in Slots(|m.elems|, n) ==> i < |m.elems| && r.elems[i] == m.elems[i])
  {
  }

  /** The buffer handle as the source keeps it. */
  datatype Handle = NullHandle | LiveBuffer | FreedBuffer

  datatype RawState = RawState(handle: Handle, width: nat)

  /** What a step as written does: a new state, or a second `free` of a
      buffer already freed, which is undefined behaviour. */
  datatype RawOutcome = Defined(state: RawState) | DoubleFree

  /** reserve(0) as written: a live buffer is freed but the handle keeps
      pointing at it, and the count is never assigned. A handle already
      freed passes `if (arr)` again and is freed a second time. */
  function ReserveZeroAsWritten(s: RawState): (r: RawOutcome)
    ensures r.Defined? ==> r.state.width == s.width
    ensures r.Defined? ==> (r.state.handle.NullHandle? <==> s.handle.NullHandle?)
    ensures r.DoubleFree? <==> s.handle.FreedBuffer?
  {
    match s.handle
    case NullHandle => Defined(s)
    case LiveBuffer => Defined(RawState(FreedBuffer, s.width))
    case FreedBuffer => DoubleFree
  }

  /** operator bool as written: a non-null handle. */
  function IsAllocatedAsWritten(s: RawState): (r: bool)
    ensures s.handle.FreedBuffer? ==> r
  {
    !s.handle.NullHandle?
  }

  /** After reserve(0) as written the array still reports a buffer and the
      old count, though no element is live; a second reserve(0) frees the
      buffer again. Copy-assign from an empty array and make_smart(nullptr)
      are this first reserve(0), and the destructor is the second. */
  lemma ReserveZeroLeavesStaleState(width: nat)
    requires width > 0
    ensures var r := ReserveZeroAsWritten(RawState(LiveBuffer, width));
      r.Defined? && IsAllocatedAsWritten(r.state) && r.state.width == width
      && r.state.handle.FreedBuffer? && ReserveZeroAsWritten(r.state).DoubleFree?
  {
  }
}
