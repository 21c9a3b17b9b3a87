/** `Array<T>`: a growable buffer of `capacity` slots of which the first
    `size` are live, with capacity doubling, order-preserving removal and
    bounds-checked access. */
module Containers {
  import opened Failures

  /** The capacity of a new array. */
  const InitialCapacity: nat := 4

  /** The capacities the growth policy can reach: 4, 8, 16, ... */
  predicate IsGrowthCapacity(c: nat)
  {
    c == InitialCapacity || (c > InitialCapacity && c % 2 == 0 && IsGrowthCapacity(c / 2))
  }

  /** The capacity after one `add` to an array holding `size` elements in
      `capacity` slots: doubled when full, unchanged otherwise. */
  function GrownCapacity(size: nat, capacity: nat): nat
  {
    if size >= capacity then 2 * capacity else capacity
  }

  /** The capacity after `k` successive `add`s to a new array. */
  function CapacityAfterAdds(k: nat): nat
  {
    if k == 0 then InitialCapacity else GrownCapacity(k - 1, CapacityAfterAdds(k - 1))
  }

  /** After `k` adds the capacity is the least of 4, 8, 16, ... that holds
      `k` elements: it is in the doubling sequence, it is at least `k`, and
      either it is the initial capacity or its predecessor in the sequence is
      too small. */
  lemma {:induction false} CapacityAfterAddsIsLeast(k: nat)
    ensures IsGrowthCapacity(CapacityAfterAdds(k))
    ensures k <= CapacityAfterAdds(k)
    ensures CapacityAfterAdds(k) == InitialCapacity || CapacityAfterAdds(k) / 2 < k
  {
    if k > 0 {
      CapacityAfterAddsIsLeast(k - 1);
      var c := CapacityAfterAdds(k - 1);
      if k - 1 >= c {
        assert CapacityAfterAdds(k) == 2 * c;
        assert (2 * c) / 2 == c;
      }
    }
  }

  /** The sum of `area` over the elements of `s`, added in order. */
  function SumOf<T>(area: T -> real, s: seq<T>): real
  {
    if s == [] then 0.0 else SumOf(area, s[..|s| - 1]) + area(s[|s| - 1])
  }

  lemma {:induction false} SumOfConcat<T>(area: T -> real, a: seq<T>, b: seq<T>)
    ensures SumOf(area, a + b) == SumOf(area, a) + SumOf(area, b)
  {
    if b != [] {
      SumOfConcat(area, a, b[..|b| - 1]);
      assert (a + b)[..|a + b| - 1] == a + b[..|b| - 1];
    } else {
      assert a + b == a;
    }
  }

  /** Removing element `i` lowers the total by exactly that element's area. */
  lemma SumOfRemoved<T>(area: T -> real, s: seq<T>, i: nat)
    requires i < |s|
    ensures SumOf(area, s[..i] + s[i + 1..]) + area(s[i]) == SumOf(area, s)
  {
    SumOfConcat(area, s[..i], s[i + 1..]);
    SumOfConcat(area, s[..i], [s[i]]);
    SumOfConcat(area, s[..i] + [s[i]], s[i + 1..]);
    assert s[..i] + [s[i]] + s[i + 1..] == s;
    assert SumOf(area, [s[i]]) == area(s[i]) by {
      assert [s[i]][..0] == [];
    }
  }

  /** The total of two elements is the sum of their areas. */
  lemma SumOfPair<T>(area: T -> real, a: T, b: T)
    ensures SumOf(area, [a, b]) == area(a) + area(b)
  {
    assert [a, b][..1] == [a] && [a][..0] == [];
    assert SumOf(area, [a]) == SumOf(area, []) + area(a);
  }

  /** The total of three elements is the sum of their areas. */
  lemma SumOfTriple<T>(area: T -> real, a: T, b: T, c: T)
    ensures SumOf(area, [a, b, c]) == area(a) + area(b) + area(c)
  {
    SumOfPair(area, a, b);
    assert [a, b, c][..2] == [a, b];
  }

  /** With non-negative areas the total is non-negative. */
  lemma {:induction false} SumOfNonNegative<T>(area: T -> real, s: seq<T>)
    requires forall x :: area(x) >= 0.0
    ensures SumOf(area, s) >= 0.0
  {
    if s != [] {
      SumOfNonNegative(area, s[..|s| - 1]);
    }
  }

  /** `T(0)`: the buffer is allocated with default-constructed slots. */
  class Array<T(0)> {
    var data: array<T>
    var size: nat
    var capacity: nat

    ghost predicate Valid()
      reads this
    {
      size <= capacity && capacity == data.Length && IsGrowthCapacity(capacity)
    }

    /** The live elements, in order. */
    function Elements(): seq<T>
      reads this, data
      requires Valid()
    {
      data[..size]
    }

    /** A new array is empty with capacity 4. */
    constructor ()
      ensures Valid() && fresh(data)
      ensures size == 0 && capacity == InitialCapacity && Elements() == []
    {
      size := 0;
      capacity := InitialCapacity;
      data := new T[InitialCapacity];
    }

    /** `add` (every overload): a full array first grows; the element then
        goes in the first free slot. */
    method Add(x: T)
      requires Valid()
      modifies this, data
      ensures Valid()
      ensures Elements() == old(Elements()) + [x]
      ensures capacity == GrownCapacity(old(size), old(capacity)) && capacity >= old(capacity)
      ensures old(size) < old(capacity) ==> data == old(data)
      ensures old(size) >= old(capacity) ==> fresh(data)
    {
      if size >= capacity {
        Resize();
      }
      data[size] := x;
      size := size + 1;
    }

    /** `resize`: doubles the capacity and moves the live elements into a new
        buffer of that size, keeping their positions. */
    method Resize()
      requires Valid()
      modifies this
      ensures Valid() && fresh(data)
      ensures capacity == 2 * old(capacity) && size == old(size)
      ensures Elements() == old(Elements())
    {
      var newData := new T[2 * capacity];
      for i := 0 to size
        invariant unchanged(this) && newData.Length == 2 * capacity
        invariant newData[..i] == data[..i]
      {
        newData[i] := data[i];
      }
      capacity := 2 * capacity;
      data := newData;
    }

    /** `remove(index)`: an index past the live elements fails with
        `OutOfRange` and changes nothing; otherwise the later elements shift
        left one place and the size drops by one. The buffer and the slots
        past the old live region are left as they were, so removing the last
        element leaves its slot untouched. */
    method Remove(index: nat) returns (r: Outcome)
      requires Valid()
      modifies this, data
      ensures Valid() && data == old(data) && capacity == old(capacity)
      ensures r == if index < old(size) then Pass else Fail(OutOfRange)
      ensures index >= old(size) ==> size == old(size) && data[..] == old(data[..])
      ensures index < old(size) ==> Elements() == old(Elements()[..index] + Elements()[index + 1..])
      ensures data[old(size)..] == old(data[size..])
      ensures index + 1 == old(size) ==> data[index] == old(data[index])
    {
      if index >= size {
        r := Fail(OutOfRange);
        return;
      }
      var i := index;
      while i + 1 < size
        invariant Valid() && data == old(data) && size == old(size)
        invariant index <= i < size
        invariant forall k :: 0 <= k < index ==> data[k] == old(data[k])
        invariant forall k :: index <= k < i ==> data[k] == old(data[k + 1])
        invariant forall k :: i <= k < data.Length ==> data[k] == old(data[k])
      {
        data[i] := data[i + 1];
        i := i + 1;
      }
      ghost var before := old(data[..size]);
      assert data[..size - 1] == before[..index] + before[index + 1..];
      size := size - 1;
      r := Pass;
    }

    /** `operator[]` (const form): the element at `index`, or `OutOfRange`
        when `index` is not below the size, an empty array included. */
    method Get(index: nat) returns (r: Result<T>)
      requires Valid()
      ensures r == if index < |Elements()| then Success(Elements()[index]) else Failure(OutOfRange)
    {
      if index >= size {
        return Failure(OutOfRange);
      }
      r := Success(data[index]);
    }

    /** `operator[]` (mutable form) used to assign through the returned
        reference: the element at `index` is replaced, or `OutOfRange` and no
        change. */
    method Set(index: nat, x: T) returns (r: Outcome)
      requires Valid()
      modifies data
      ensures Valid()
      ensures r == if index < size then Pass else Fail(OutOfRange)
      ensures Elements() == if index < size then old(Elements())[index := x] else old(Elements())
    {
      if index >= size {
        return Fail(OutOfRange);
      }
      data[index] := x;
      r := Pass;
    }

    /** `getSize`: the number of live elements. */
    method GetSize() returns (n: nat)
      requires Valid()
      ensures n == |Elements()|
    {
      n := size;
    }

    /** `getCapacity`: the number of slots, never below the size. */
    method GetCapacity() returns (c: nat)
      requires Valid()
      ensures c == data.Length && |Elements()| <= c && IsGrowthCapacity(c)
    {
      c := capacity;
    }

    /** `totalSurface` for elements held by value: the areas of the live
        elements added in order, `area` being `double(x)`. */
    method TotalSurface(area: T -> real) returns (total: real)
      requires Valid()
      ensures total == SumOf(area, Elements())
    {
      total := 0.0;
      for i := 0 to size
        invariant total == SumOf(area, data[..i])
      {
        assert data[..i + 1][..i] == data[..i];
        total := total + area(data[i]);
      }
      assert data[..size] == Elements();
    }
  }
}
