/** The abstract state of a smart_arr<T> and the effect of each of its
    operations on that state. The class in module SmartArray is proved to
    move between these states; the lemmas here state what the states mean. */
module ArrayModel {

  datatype Option<T> = None | Some(value: T)

  /** `hasBuffer` stands for `arr != 0`, `width` for the element count and
      `elems` for the live elements of the buffer. */
  datatype Model<T> = Model(hasBuffer: bool, width: nat, elems: seq<T>)

  /** No buffer and a count of zero: what the default constructor builds. */
  function Empty<T>(): Model<T> {
    Model(false, 0, [])
  }

  /** What every operation keeps: a buffer holds exactly `width` live
      elements, at least one; without a buffer there are no elements. The
      count may be stale without a buffer, as move-assign leaves it. */
  predicate Valid<T>(m: Model<T>) {
    if m.hasBuffer then m.width == |m.elems| > 0 else m.elems == []
  }

  /** `n` default-constructed values. */
  function Defaults<T>(n: nat, zero: T): (r: seq<T>)
    ensures |r| == n
  {
    seq(n, _ => zero)
  }

  /** The live elements after resizing to `n`: a prefix kept, the rest
      default-constructed. */
  function Resized<T>(s: seq<T>, n: nat, zero: T): (r: seq<T>)
    ensures |r| == n
    ensures forall i :: 0 <= i < n && i < |s| ==> r[i] == s[i]
    ensures forall i :: |s| <= i < n ==> r[i] == zero
  {
    if n <= |s| then s[..n] else s + Defaults(n - |s|, zero)
  }

  /** reserve(n), with `grant` standing for the outcome of realloc. */
  function Reserve<T>(m: Model<T>, n: nat, grant: bool, zero: T): (r: Model<T>)
    requires Valid(m)
    ensures Valid(r)
    ensures n == 0 ==> !r.hasBuffer && r.width == 0
    ensures n > 0 && !grant ==> r == m
    ensures n > 0 && grant ==> r.hasBuffer && r.width == n
    ensures n > 0 && grant ==> forall i :: 0 <= i < n && i < |m.elems| ==> r.elems[i] == m.elems[i]
    ensures n > 0 && grant ==> forall i :: |m.elems| <= i < n ==> r.elems[i] == zero
  {
    if n == 0 then Empty()
    else if !grant then m
    else Model(true, n, Resized(m.elems, n, zero))
  }

  /** push(v): grow by one, then assign the last slot. When the resize fails
      the last slot of the old buffer is overwritten. */
  function Push<T>(m: Model<T>, v: T, grant: bool, zero: T): (r: Model<T>)
    requires Valid(m) && (grant || m.hasBuffer)
    ensures Valid(r) && r.hasBuffer
    ensures grant ==> r.width == m.width + 1 && r.elems[m.width] == v
    ensures grant ==> forall i :: 0 <= i < |m.elems| ==> r.elems[i] == m.elems[i]
    ensures grant ==> forall i :: |m.elems| <= i < m.width ==> r.elems[i] == zero
    ensures !grant ==> r.width == m.width && r.elems == m.elems[m.width - 1 := v]
  {
    var s := Reserve(m, m.width + 1, grant, zero);
    s.(elems := s.elems[s.width - 1 := v])
  }

  /** The copy loop reads `b`'s buffer up to `a`'s count when the resize
      fails, which is past its end if `a` is the longer one. */
  predicate CopyDefined<T>(a: Model<T>, b: Model<T>, grant: bool) {
    !grant && a.hasBuffer && b.hasBuffer ==> a.width <= b.width
  }

  /** a = b (copy): resize `a` to `b`'s count, then copy element by element
      when both have a buffer. */
  function CopyAssign<T>(a: Model<T>, b: Model<T>, grant: bool, zero: T): (r: Model<T>)
    requires Valid(a) && Valid(b) && CopyDefined(a, b, grant)
    ensures Valid(r)
    ensures grant || b.width == 0 ==> r.width == b.width
    ensures grant && b.hasBuffer ==> r == b
    ensures !grant && b.width > 0 ==> r.width == a.width && r.hasBuffer == a.hasBuffer
    ensures !grant && b.width > 0 && a.hasBuffer && b.hasBuffer ==> r.elems == b.elems[..a.width]
    ensures !b.hasBuffer ==> r == Reserve(a, b.width, grant, zero)
  {
    var s := Reserve(a, b.width, grant, zero);
    if s.hasBuffer && b.hasBuffer then s.(elems := b.elems[..s.width]) else s
  }

  /** make_smart(p, n): release the buffer, then, if `p` is not null,
      resize to `n` and copy `p[0 .. n)`. */
  function FromRaw<T>(p: Option<seq<T>>, n: nat, grant: bool, zero: T): (r: Model<T>)
    requires p.Some? ==> n <= |p.value|
    ensures Valid(r)
    ensures p.None? ==> r == Empty()
    ensures p.Some? && (grant || n == 0) ==> r.width == n && r.elems == p.value[..n]
    ensures p.Some? && !grant && n > 0 ==> r == Empty()
  {
    if p.None? then Empty()
    else
      var s := Reserve(Empty(), n, grant, zero);
      if s.hasBuffer then s.(elems := p.value[..n]) else s
  }

  /** operator==: the same allocation state and, with buffers, the same
      count and the same elements. T's own equality is taken to be Dafny's
      equality on values. */
  predicate Equal<T(==)>(a: Model<T>, b: Model<T>): (r: bool)
    ensures a.hasBuffer != b.hasBuffer ==> !r
    ensures Valid(a) && Valid(b) ==> (r <==> a.hasBuffer == b.hasBuffer && a.elems == b.elems)
  {
    a.hasBuffer == b.hasBuffer && (a.hasBuffer ==> a.width == b.width && a.elems == b.elems)
  }

  lemma EqualIsEquivalence<T>(a: Model<T>, b: Model<T>, c: Model<T>)
    ensures Equal(a, a)
    ensures Equal(a, b) ==> Equal(b, a)
    ensures Equal(a, b) && Equal(b, c) ==> Equal(a, c)
  {
  }

  /** Two arrays without a buffer compare equal whatever their counts. */
  lemma NoBufferEqual<T>(a: Model<T>, b: Model<T>)
    requires !a.hasBuffer && !b.hasBuffer
    ensures Equal(a, b)
  {
  }

  /** Growing and then shrinking back to the old count restores the array. */
  lemma GrowShrinkRoundTrip<T>(m: Model<T>, n: nat, zero: T)
    requires Valid(m) && m.hasBuffer && m.width <= n
    ensures Reserve(Reserve(m, n, true, zero), m.width, true, zero) == m
  {
  }

  /** Shrinking keeps exactly the prefix. */
  lemma ShrinkKeepsPrefix<T>(m: Model<T>, n: nat, zero: T)
    requires Valid(m) && 0 < n <= |m.elems|
    ensures Reserve(m, n, true, zero).elems == m.elems[..n]
  {
  }

  /** A copy compares equal to its source. */
  lemma CopyCompareEqual<T>(a: Model<T>, b: Model<T>, zero: T)
    requires Valid(a) && Valid(b) && b.hasBuffer
    ensures Equal(CopyAssign(a, b, true, zero), b)
  {
  }

  /** Pushing the elements one at a time onto `m`, every resize succeeding. */
  function PushAll<T>(m: Model<T>, xs: seq<T>, zero: T): (r: Model<T>)
    requires Valid(m)
    ensures Valid(r)
    decreases |xs|
  {
    if xs == [] then m else Push(PushAll(m, xs[..|xs| - 1], zero), xs[|xs| - 1], true, zero)
  }

  /** Pushing `xs` onto an empty array leaves exactly `xs`. */
  lemma {:induction false} PushAllFromEmpty<T>(xs: seq<T>, zero: T)
    ensures PushAll(Empty(), xs, zero) == if xs == [] then Empty() else Model(true, |xs|, xs)
  {
    if xs != [] {
      var ys, x := xs[..|xs| - 1], xs[|xs| - 1];
      PushAllFromEmpty(ys, zero);
      var r := PushAll(Empty(), xs, zero);
      assert r.elems == ys + [x] by {
        assert forall i :: 0 <= i < |ys| ==> r.elems[i] == ys[i];
      }
      assert ys + [x] == xs;
    }
  }

  /** The same contents built two ways, by pushes and by make_smart, give the
      same array, so they compare equal. */
  lemma {:induction false} PushesMatchFromRaw<T>(xs: seq<T>, zero: T)
    ensures PushAll(Empty(), xs, zero) == FromRaw(Some(xs), |xs|, true, zero)
    ensures Equal(PushAll(Empty(), xs, zero), FromRaw(Some(xs), |xs|, true, zero))
  {
    PushAllFromEmpty(xs, zero);
    assert xs[..|xs|] == xs;
  }
}
