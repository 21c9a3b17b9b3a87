/** The figure classes as objects: each owns a fixed-length array of
    vertices that its constructors, `operator=` and `read` overwrite in place.
    Its queries walk the array in loops and are proved against the functions
    of `Polygons`. */
module Figures {
  import opened Points
  import opened Failures
  import Polygons

  class Figure {
    /** Which of `Trapezoid`, `Rhombus` and `Pentagon` this object is. */
    const kind: Polygons.Kind
    /** The vertex array, `n` slots long, in traversal order. */
    const vertices: array<Point>

    ghost predicate Valid()
    {
      vertices.Length == Polygons.VertexCount(kind)
    }

    /** The figure's current value. */
    function Value(): Polygons.Shape
      reads vertices
    {
      Polygons.Shape(kind, vertices[..])
    }

    /** The default constructor: every vertex is the origin. */
    constructor Default(k: Polygons.Kind)
      ensures Valid() && fresh(vertices) && kind == k
      ensures vertices[..] == seq(Polygons.VertexCount(k), _ => Origin())
    {
      kind := k;
      vertices := new Point[Polygons.VertexCount(k)](_ => Origin());
    }

    /** The constructor from `n` points (four `Point`s for the quadrilaterals,
        a `std::array` of five for the pentagon): vertex `i` is `pts[i]`. */
    constructor (k: Polygons.Kind, pts: seq<Point>)
      requires |pts| == Polygons.VertexCount(k)
      ensures Valid() && fresh(vertices)
      ensures Value() == Polygons.Shape(k, pts)
    {
      kind := k;
      vertices := new Point[|pts|](i requires 0 <= i < |pts| => pts[i]);
    }

    /** The copy constructor: a new vertex array holding the same points. */
    constructor Copy(other: Figure)
      requires other.Valid()
      ensures Valid() && fresh(vertices)
      ensures Value() == other.Value()
    {
      var a := new Point[other.vertices.Length];
      var i := 0;
      while i < a.Length
        invariant 0 <= i <= a.Length
        invariant a[..i] == other.vertices[..i]
      {
        a[i] := other.vertices[i];
        i := i + 1;
      }
      kind := other.kind;
      vertices := a;
    }

    /** Copy assignment from a figure of the same class: every vertex is
        overwritten with the other figure's, self-assignment leaving it as it
        is. */
    method Assign(other: Figure)
      requires Valid() && other.Valid() && other.kind == kind
      modifies vertices
      ensures vertices[..] == old(other.vertices[..])
    {
      if other == this {
        return;
      }
      var i := 0;
      while i < vertices.Length
        invariant 0 <= i <= vertices.Length
        invariant forall k :: 0 <= k < i ==> vertices[k] == old(other.vertices[k])
        invariant forall k :: i <= k < vertices.Length ==> other.vertices[k] == old(other.vertices[k])
      {
        vertices[i] := other.vertices[i];
        i := i + 1;
      }
    }

    /** `read`: the `n` points read from the stream overwrite the vertices,
        then the figure fails with `InvalidShape` if it does not validate.
        The overwrite stays in place on failure. */
    method Read(input: seq<Point>) returns (r: Outcome)
      requires Valid() && |input| == vertices.Length
      modifies vertices
      ensures vertices[..] == input
      ensures r == if Polygons.Validate(input) then Pass else Fail(InvalidShape)
    {
      var i := 0;
      while i < vertices.Length
        invariant 0 <= i <= vertices.Length
        invariant vertices[..i] == input[..i]
      {
        vertices[i] := input[i];
        i := i + 1;
      }
      assert vertices[..] == input;
      var ok := Validate();
      r := if ok then Pass else Fail(InvalidShape);
    }

    /** `validate()`: scans every pair of vertices for a coincidence, then
        compares the surface with the threshold. */
    method Validate() returns (ok: bool)
      requires Valid()
      ensures ok == Polygons.Validate(vertices[..])
      ensures ok <==> Polygons.AllDistinct(vertices[..]) && Polygons.TwiceSignedArea(vertices[..]) != 0
    {
      var n := vertices.Length;
      for i := 0 to n
        invariant forall p, q :: 0 <= p < i && p < q < n ==> vertices[p] != vertices[q]
      {
        for j := i + 1 to n
          invariant forall q :: i < q < j ==> vertices[i] != vertices[q]
        {
          if Equal(vertices[i], vertices[j]) {
            assert !Polygons.AllDistinct(vertices[..]) by {
              assert vertices[..][i] == vertices[..][j];
            }
            return false;
          }
        }
      }
      var a := Surface();
      ok := a > Polygons.Epsilon;
    }

    /** `center()`: sums the coordinates, then divides each sum by `n`
        rounding toward zero. */
    method Center() returns (c: Point)
      requires Valid()
      ensures c == Polygons.Center(vertices[..])
    {
      var n := vertices.Length;
      var cx, cy := 0, 0;
      for i := 0 to n
        invariant cx == Polygons.SumX(vertices[..i]) && cy == Polygons.SumY(vertices[..i])
      {
        assert vertices[..i + 1][..i] == vertices[..i];
        cx := cx + vertices[i].x;
        cy := cy + vertices[i].y;
      }
      assert vertices[..n] == vertices[..];
      c := Point(Polygons.TruncDiv(cx, n), Polygons.TruncDiv(cy, n));
    }

    /** `surface()`: accumulates the shoelace terms, each vertex paired with
        the next one cyclically, and halves the absolute sum. */
    method Surface() returns (a: real)
      requires Valid()
      ensures a == Polygons.Surface(vertices[..])
    {
      var n := vertices.Length;
      var s := 0;
      for i := 0 to n
        invariant s == Polygons.CrossSum(vertices[..], i)
      {
        var j := (i + 1) % n;
        s := s + (vertices[i].x * vertices[j].y - vertices[j].x * vertices[i].y);
      }
      a := Polygons.Abs(s) as real / 2.0;
    }

    /** `operator double`: the surface. */
    method ToReal() returns (a: real)
      requires Valid()
      ensures a == Polygons.Surface(vertices[..]) && a >= 0.0
    {
      a := Surface();
    }

    /** `operator==`: false for a figure of another class, otherwise compares
        the vertices pairwise in stored order. */
    method Equals(other: Figure) returns (eq: bool)
      requires Valid() && other.Valid()
      ensures eq <==> Value() == other.Value()
      ensures eq == Polygons.Equals(Value(), other.Value())
    {
      if other.kind != kind {
        return false;
      }
      for i := 0 to vertices.Length
        invariant forall p :: 0 <= p < i ==> vertices[p] == other.vertices[p]
      {
        if NotEqual(vertices[i], other.vertices[i]) {
          return false;
        }
      }
      assert vertices[..] == other.vertices[..];
      eq := true;
    }

    /** `operator!=`: the negation of `operator==`. */
    method NotEquals(other: Figure) returns (ne: bool)
      requires Valid() && other.Valid()
      ensures ne <==> Value() != other.Value()
    {
      var eq := Equals(other);
      ne := !eq;
    }

    /** `clone()`: a new, independently owned figure equal to this one. */
    method Clone() returns (c: Figure)
      requires Valid()
      ensures fresh(c) && fresh(c.vertices) && c.Valid()
      ensures c.Value() == Value()
    {
      c := new Figure.Copy(this);
    }
  }
}
