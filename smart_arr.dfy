/** smart_arr<T>: an owning, exactly-sized dynamic array whose two fields,
    the element count and the buffer, every operation updates in place. */
module SmartArray {
  import opened ArrayModel

  class SmartArr<T(==)> {
    /** The value T's default constructor produces. */
    const zero: T
    /** The element count. */
    var width: nat
    /** The buffer; null when nothing is allocated. */
    var arr: array?<T>

    ghost predicate Valid()
      reads this
    {
      arr != null ==> arr.Length == width > 0
    }

    /** The abstract state this object stands for. */
    ghost function Abs(): (m: Model<T>)
      reads this, arr
      requires Valid()
      ensures ArrayModel.Valid(m)
    {
      Model(arr != null, width, if arr != null then arr[..] else [])
    }

    /** smart_arr(): no buffer, no elements. */
    constructor Empty(zero: T)
      ensures Valid() && Abs() == ArrayModel.Empty() && this.zero == zero
    {
      this.zero := zero;
      width := 0;
      arr := null;
    }

    /** smart_arr(length): `length` default-constructed elements. */
    constructor Sized(zero: T, length: nat, grant: bool)
      ensures Valid() && this.zero == zero
      ensures Abs() == ArrayModel.Reserve(ArrayModel.Empty(), length, grant, zero)
      ensures arr != null ==> fresh(arr)
    {
      this.zero := zero;
      width := 0;
      arr := null;
      new;
      Reserve(length, grant);
    }

    /** smart_arr(const smart_arr&): copy-assign into an empty array. */
    constructor Copy(other: SmartArr<T>, grant: bool)
      requires other.Valid()
      ensures Valid() && other.Valid() && zero == other.zero
      ensures Abs() == CopyAssign(ArrayModel.Empty(), old(other.Abs()), grant, zero)
      ensures other.Abs() == old(other.Abs())
      ensures arr != null ==> fresh(arr)
    {
      zero := other.zero;
      width := 0;
      arr := null;
      new;
      Assign(other, grant);
    }

    /** smart_arr(smart_arr&&): the named rvalue reference is an lvalue, so
        this too copies and leaves `other` as it was. */
    constructor Moved(other: SmartArr<T>, grant: bool)
      requires other.Valid()
      ensures Valid() && other.Valid() && zero == other.zero
      ensures Abs() == CopyAssign(ArrayModel.Empty(), old(other.Abs()), grant, zero)
      ensures other.Abs() == old(other.Abs())
      ensures arr != null ==> fresh(arr)
    {
      zero := other.zero;
      width := 0;
      arr := null;
      new;
      Assign(other, grant);
    }

    /** smart_arr(const T*, length): make_smart on an empty array. */
    constructor FromRawBuffer(zero: T, p: array?<T>, length: nat, grant: bool)
      requires p != null ==> length <= p.Length
      ensures Valid() && this.zero == zero
      ensures Abs() == FromRaw(if p == null then None else Some(p[..]), length, grant, zero)
      ensures arr != null ==> fresh(arr)
    {
      this.zero := zero;
      width := 0;
      arr := null;
      new;
      MakeSmart(p, length, grant);
    }

    /** reserve(length), `grant` standing for whether realloc succeeds. A
        fresh buffer keeps the old prefix and default-constructs the added
        slots. Resizing to zero clears the handle and the count. */
    method Reserve(length: nat, grant: bool)
      requires Valid()
      modifies this
      ensures Valid()
      ensures Abs() == ArrayModel.Reserve(old(Abs()), length, grant, zero)
      ensures length > 0 && grant ==> fresh(arr)
      ensures length == 0 ==> arr == null
      ensures length > 0 && !grant ==> arr == old(arr)
    {
      if length == 0 {
        arr := null;
        width := 0;
      } else if grant {
        var kept := if arr == null then [] else if width < length then arr[..] else arr[..length];
        var buffer := new T[length](i => if 0 <= i < |kept| then kept[i] else zero);
        ghost var before := old(Abs());
        assert buffer[..] == Resized(before.elems, length, zero);
        arr := buffer;
        width := length;
      }
    }

    /** operator=(const smart_arr&): resize to `other`'s count, then copy
        each element when both have a buffer. */
    method Assign(other: SmartArr<T>, grant: bool)
      requires Valid() && other.Valid()
      requires this != other && arr != null ==> arr != other.arr
      requires CopyDefined(Abs(), other.Abs(), grant)
      modifies this, arr
      ensures Valid() && other.Valid()
      ensures Abs() == CopyAssign(old(Abs()), old(other.Abs()), grant, zero)
      ensures other != this ==> other.Abs() == old(other.Abs())
      ensures arr == null || fresh(arr) || arr == old(arr)
    {
      ghost var source := other.Abs();
      Reserve(other.width, grant);
      ghost var resized := Abs();
      if other.arr != null && arr != null {
        ghost var from := other.arr[..];
        assert other != this ==> from == source.elems;
        var ptr := 0;
        while ptr < width
          modifies arr
          invariant 0 <= ptr <= width == arr.Length <= other.arr.Length == |from|
          invariant forall i :: 0 <= i < ptr ==> arr[i] == from[i]
          invariant forall i :: ptr <= i < |from| ==> other.arr[i] == from[i]
          invariant other != this ==> other.arr[..] == from
        {
          arr[ptr] := other.arr[ptr];
          ptr := ptr + 1;
        }
        assert arr[..] == from[..width];
        assert other == this ==> from == resized.elems;
      }
    }

    /** operator=(smart_arr&&): release the own buffer, take `other`'s buffer
        and count, and null `other`'s buffer. `other` keeps its count. */
    method MoveAssign(other: SmartArr<T>)
      requires Valid() && other.Valid()
      modifies this, other
      ensures Valid() && other.Valid()
      ensures other != this ==> arr == old(other.arr) && width == old(other.width)
      ensures other != this ==> Abs() == old(other.Abs())
      ensures other != this ==> other.arr == null && other.width == old(other.width)
      ensures other != this ==> other.Abs() == Model(false, old(other.width), [])
      ensures other == this ==> Abs() == ArrayModel.Empty()
    {
      Reserve(0, true);
      arr := other.arr;
      width := other.width;
      other.arr := null;
    }

    /** make_smart(p, length): release the buffer and, when `p` is not
        null, resize to `length` and copy `p[0 .. length)`. */
    method MakeSmart(p: array?<T>, length: nat, grant: bool)
      requires Valid()
      requires p != null ==> length <= p.Length && p != arr
      modifies this
      ensures Valid()
      ensures Abs() == FromRaw(if p == null then None else Some(p[..]), length, grant, zero)
      ensures arr != null ==> fresh(arr)
    {
      Reserve(0, grant);
      if p != null {
        Reserve(length, grant);
        var ptr := 0;
        while ptr < width
          modifies arr
          invariant width == 0 || (arr != null && fresh(arr) && arr.Length == width <= length)
          invariant 0 <= ptr <= width
          invariant forall i :: 0 <= i < ptr ==> arr[i] == p[i]
        {
          arr[ptr] := p[ptr];
          ptr := ptr + 1;
        }
        assert arr != null ==> arr[..] == p[..][..length];
      }
    }

    /** push(instance): grow by one and assign the new last slot. If the
        resize fails, the last slot of the old buffer is overwritten. */
    method Push(instance: T, grant: bool)
      requires Valid() && (grant || arr != null)
      modifies this, arr
      ensures Valid()
      ensures Abs() == ArrayModel.Push(old(Abs()), instance, grant, zero)
      ensures grant ==> fresh(arr)
      ensures !grant ==> arr == old(arr)
    {
      Reserve(width + 1, grant);
      arr[width - 1] := instance;
    }

    /** operator[] read: the element at index `i`. */
    function At(i: nat): (r: T)
      reads this, arr
      requires Valid() && arr != null && i < width
      ensures r == Abs().elems[i]
    {
      arr[i]
    }

    /** operator[] write through the returned reference. */
    method SetAt(i: nat, v: T)
      requires Valid() && arr != null && i < width
      modifies arr
      ensures Valid()
      ensures Abs() == old(Abs()).(elems := old(Abs()).elems[i := v])
    {
      arr[i] := v;
    }

    /** size(): the element count, also when it is stale without a buffer;
        it is the buffer's length when there is one. */
    function Size(): (r: nat)
      reads this, arr
      requires Valid()
      ensures r == Abs().width
      ensures arr != null ==> r == arr.Length
    {
      width
    }

    /** operator bool: whether a buffer is allocated, which is whether the
        array holds any live element. */
    function IsAllocated(): (r: bool)
      reads this, arr
      requires Valid()
      ensures r <==> |Abs().elems| > 0
    {
      arr != null
    }

    /** operator==: compares allocation states, then counts, then elements. */
    method Equals(other: SmartArr<T>) returns (r: bool)
      requires Valid() && other.Valid()
      ensures r == Equal(Abs(), other.Abs())
    {
      if (arr != null) == (other.arr != null) {
        if arr == null {
          return true;
        } else if width == other.width {
          var ptr := 0;
          while ptr < width
            invariant 0 <= ptr <= width
            invariant forall i :: 0 <= i < ptr ==> arr[i] == other.arr[i]
          {
            if arr[ptr] != other.arr[ptr] {
              return false;
            }
            ptr := ptr + 1;
          }
          assert arr[..] == other.arr[..];
          return true;
        }
      }
      return false;
    }

    /** find(instance): the lowest index holding `instance`, or the count
        when there is none or no buffer. */
    method Find(instance: T) returns (r: nat)
      requires Valid()
      ensures r <= width
      ensures r < width <==> instance in Abs().elems
      ensures r < width ==> Abs().elems[r] == instance && instance !in Abs().elems[..r]
    {
      var ptr := if arr != null then 0 else width;
      while ptr < width
        invariant 0 <= ptr <= width
        invariant arr != null ==> instance !in arr[..ptr]
      {
        if arr[ptr] == instance {
          return ptr;
        }
        ptr := ptr + 1;
      }
      return width;
    }
  }
}
