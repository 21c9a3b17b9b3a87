/** `Array<std::shared_ptr<Figure<int>>>`: an array of figure handles, where
    `totalSurface` reads each figure through its handle (`double(*data_[i])`). */
module Handles {
  import opened Polygons
  import opened Figures
  import opened Containers

  /** The surface of a figure value, the `area` that `totalSurface` adds. */
  function ShapeSurface(s: Shape): (a: real)
    ensures a >= 0.0
  {
    Surface(s.vertices)
  }

  /** The handles in `s` are all non-null: each live element owns a figure. */
  predicate AllHeld(s: seq<Figure?>)
  {
    forall i :: 0 <= i < |s| ==> s[i] != null
  }

  /** The values of the figures the handles in `s` point to, in order. */
  function Values(s: seq<Figure?>): (r: seq<Shape>)
    requires AllHeld(s)
    reads set f | f in s && f != null :: f.vertices
    ensures |r| == |s|
    ensures forall i :: 0 <= i < |s| ==> r[i] == s[i].Value()
  {
    if s == [] then [] else Values(s[..|s| - 1]) + [s[|s| - 1].Value()]
  }

  /** `totalSurface` over handles: each live handle is followed to its
      figure and the figure's `surface()` is added, in order. The total is
      that of the same figures held by value, and is never negative. */
  method TotalSurfaceOfHandles(arr: Array<Figure?>) returns (total: real)
    requires arr.Valid() && AllHeld(arr.Elements())
    requires forall f :: f in arr.Elements() && f != null ==> f.Valid()
    ensures total == SumOf(ShapeSurface, Values(arr.Elements()))
    ensures total >= 0.0
  {
    ghost var vs := Values(arr.Elements());
    total := 0.0;
    for i := 0 to arr.size
      invariant total == SumOf(ShapeSurface, vs[..i])
    {
      var f := arr.data[i];
      assert f == arr.Elements()[i] && f in arr.Elements();
      var a := f.Surface();
      assert vs[..i + 1][..i] == vs[..i];
      total := total + a;
    }
    assert vs[..arr.size] == vs;
    SumOfNonNegative(ShapeSurface, vs);
  }

  /** Position `k` of `s` with element `i` deleted. */
  lemma RemovedAt<T>(s: seq<T>, i: nat, k: nat)
    requires i < |s| && k < |s| - 1
    ensures |s[..i] + s[i + 1..]| == |s| - 1
    ensures (s[..i] + s[i + 1..])[k] == if k < i then s[k] else s[k + 1]
  {
    if k >= i {
      assert (s[..i] + s[i + 1..])[k] == s[i + 1..][k - i];
    }
  }

  /** Dropping handle `i` drops the value of the figure it points to, and
      keeps the others in order. */
  lemma ValuesOfRemoved(s: seq<Figure?>, i: nat)
    requires AllHeld(s) && i < |s|
    ensures AllHeld(s[..i] + s[i + 1..])
    ensures Values(s[..i] + s[i + 1..]) == Values(s)[..i] + Values(s)[i + 1..]
  {
    var t := s[..i] + s[i + 1..];
    forall k | 0 <= k < |t|
      ensures t[k] != null
    {
      RemovedAt(s, i, k);
    }
    var v, w := Values(s), Values(t);
    forall k | 0 <= k < |w|
      ensures w[k] == (v[..i] + v[i + 1..])[k]
    {
      RemovedAt(s, i, k);
      RemovedAt(v, i, k);
    }
  }

  /** Dropping handle `i` lowers the total by exactly the surface of the
      figure it points to. */
  lemma RemovedHandleTotal(s: seq<Figure?>, i: nat)
    requires AllHeld(s) && i < |s|
    ensures AllHeld(s[..i] + s[i + 1..])
    ensures SumOf(ShapeSurface, Values(s[..i] + s[i + 1..])) + Surface(s[i].vertices[..])
      == SumOf(ShapeSurface, Values(s))
  {
    ValuesOfRemoved(s, i);
    SumOfRemoved(ShapeSurface, Values(s), i);
  }

  /** `totalSurface` after `remove(i)` on an array that held the handles `s`:
      the old total less the surface of the removed figure. */
  method TotalAfterRemove(arr: Array<Figure?>, s: seq<Figure?>, i: nat) returns (total: real)
    requires AllHeld(s) && i < |s|
    requires arr.Valid() && arr.Elements() == s[..i] + s[i + 1..]
    requires forall f :: f in s && f != null ==> f.Valid()
    ensures total + Surface(s[i].vertices[..]) == SumOf(ShapeSurface, Values(s))
  {
    ghost var t := s[..i] + s[i + 1..];
    forall f | f in t && f != null
      ensures f.Valid()
    {
      var k :| 0 <= k < |t| && t[k] == f;
      assert f == (if k < i then s[k] else s[k + 1]);
    }
    total := TotalSurfaceOfHandles(arr);
    assert total == SumOf(ShapeSurface, Values(t));
    RemovedHandleTotal(s, i);
  }

  /** The total over three handles is the three figures' surfaces added. */
  lemma TotalOfThreeHandles(a: Figure, b: Figure, c: Figure)
    ensures SumOf(ShapeSurface, Values([a, b, c]))
      == Surface(a.vertices[..]) + Surface(b.vertices[..]) + Surface(c.vertices[..])
  {
    assert Values([a, b, c]) == [a.Value(), b.Value(), c.Value()];
    SumOfTriple(ShapeSurface, a.Value(), b.Value(), c.Value());
  }
}
