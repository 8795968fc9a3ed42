/** Clients that rely on the contracts of SmartArr alone. */
module Usage {
  import opened ArrayModel
  import opened SmartArray

  /** Three pushes give [1, 2, 3]; a copy compares equal and is independent
      of its source. */
  method PushThenCopy() {
    var a := new SmartArr<int>.Empty(0);
    a.Push(1, true);
    a.Push(2, true);
    a.Push(3, true);
    assert a.Size() == 3 && a.Abs().elems == [1, 2, 3];
    var b := new SmartArr<int>.Copy(a, true);
    var same := b.Equals(a);
    assert same;
    b.SetAt(0, 9);
    assert a.At(0) == 1 && b.At(0) == 9;
    var unequal := b.Equals(a);
    assert !unequal;
  }

  /** make_smart from a raw buffer, then searching it. */
  method FromRawThenFind() {
    var p := new int[3];
    p[0], p[1], p[2] := 5, 6, 7;
    assert p[..] == [5, 6, 7];
    var a := new SmartArr<int>.FromRawBuffer(0, p, 3, true);
    assert a.Abs().elems == [5, 6, 7];
    var six := a.Find(6);
    var nine := a.Find(9);
    assert six == 1 && nine == 3;
  }

  /** A move-assign leaves the source without a buffer but with its old
      count; two arrays without a buffer compare equal. */
  method MoveThenCompare() {
    var a := new SmartArr<int>.Sized(0, 2, true);
    var b := new SmartArr<int>.Empty(0);
    b.MoveAssign(a);
    assert !a.IsAllocated() && a.Size() == 2;
    // `zero` stands in for the slots that default-initialisation leaves indeterminate.
    assert b.Abs().elems == [0, 0];
    var c := new SmartArr<int>.Empty(0);
    var same := a.Equals(c);
    assert same;
    var missing := a.Find(0);
    assert missing == 2;
  }
}
