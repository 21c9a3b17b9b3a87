/** `Point<int>`: a coordinate pair, copied freely as a value. */
module Points {

  /** The two-argument constructor is the datatype constructor: it stores
      `x` and `y` unchanged. */
  datatype Point = Point(x: int, y: int)

  /** The default constructor. */
  function Origin(): (o: Point)
    ensures forall p :: Sub(p, o) == p
  {
    Point(0, 0)
  }

  /** `operator==`: coordinate-wise comparison, which is exactly identity of
      points, hence an equivalence. */
  function Equal(a: Point, b: Point): (r: bool)
    ensures r <==> a == b
  {
    a.x == b.x && a.y == b.y
  }

  /** `operator!=`: the negation of `operator==`. */
  function NotEqual(a: Point, b: Point): (r: bool)
    ensures r <==> a != b
  {
    !Equal(a, b)
  }

  /** `operator-`: component-wise difference; adding `b` back gives `a`,
      and the difference is the origin exactly when the points coincide. */
  function Sub(a: Point, b: Point): (r: Point)
    ensures Point(r.x + b.x, r.y + b.y) == a
    ensures r == Point(0, 0) <==> a == b
  {
    Point(a.x - b.x, a.y - b.y)
  }

  /** `dot` over integer coordinates; a point dotted with itself is its
      squared length, zero only at the origin. */
  function Dot(a: Point, b: Point): (r: int)
    ensures a == b ==> r >= 0 && (r == 0 <==> a == Origin())
  {
    a.x * b.x + a.y * b.y
  }

  lemma DotSymmetric(a: Point, b: Point)
    ensures Dot(a, b) == Dot(b, a)
  {
  }
}
