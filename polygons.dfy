/** The algorithm shared by `Trapezoid<int>`, `Rhombus<int>` and
    `Pentagon<int>`, stated as pure functions over a vertex sequence, and the
    value a figure holds (its kind and its vertices). */
module Polygons {
  import opened Points

  /** The closed set of figure classes. The tag takes the place of the
      `dynamic_cast` that `operator==` performs. */
  datatype Kind = Trapezoid | Rhombus | Pentagon

  /** The class constant `n`: how many vertices each class owns. */
  function VertexCount(k: Kind): nat
  {
    match k
    case Trapezoid => 4
    case Rhombus => 4
    case Pentagon => 5
  }

  /** The value of a figure: its class and its vertices in traversal order. */
  datatype Shape = Shape(kind: Kind, vertices: seq<Point>)
  {
    predicate WellFormed()
    {
      |vertices| == VertexCount(kind)
    }
  }

  /** The threshold `validate()` compares the surface against. */
  const Epsilon: real := 0.000000001

  function Abs(a: int): nat
  {
    if a < 0 then -a else a
  }

  /** One shoelace term: the cross product of vertex `p` and the next vertex `q`. */
  function Cross(p: Point, q: Point): int
  {
    p.x * q.y - q.x * p.y
  }

  /** The vertex after vertex `i` in traversal order, `(i + 1) % n`: the last
      vertex is followed by the first. */
  function Next(i: nat, n: nat): (j: nat)
    requires i < n
    ensures j == if i + 1 < n then i + 1 else 0
  {
    (i + 1) % n
  }

  /** The first `k` shoelace terms, each vertex paired with the next one,
      summed in the order `surface()` accumulates them. */
  function CrossSum(vs: seq<Point>, k: nat): int
    requires k <= |vs|
  {
    if k == 0 then 0 else CrossSum(vs, k - 1) + Cross(vs[k - 1], vs[Next(k - 1, |vs|)])
  }

  /** Twice the signed area: the whole cyclic shoelace sum. */
  function TwiceSignedArea(vs: seq<Point>): int
  {
    CrossSum(vs, |vs|)
  }

  /** `surface()` (and `operator double`): half the absolute shoelace sum.
      It is never negative, and it is zero exactly when the signed sum is. */
  function Surface(vs: seq<Point>): (a: real)
    ensures a >= 0.0
    ensures a == 0.0 <==> TwiceSignedArea(vs) == 0
  {
    Abs(TwiceSignedArea(vs)) as real / 2.0
  }

  /** For four vertices the shoelace sum is the four-term formula written out
      over the coordinates. */
  lemma {:induction false} ShoelaceOfFour(x0: int, y0: int, x1: int, y1: int,
                                          x2: int, y2: int, x3: int, y3: int)
    ensures var vs := [Point(x0, y0), Point(x1, y1), Point(x2, y2), Point(x3, y3)];
            TwiceSignedArea(vs) == (x0 * y1 - x1 * y0) + (x1 * y2 - x2 * y1)
                                   + (x2 * y3 - x3 * y2) + (x3 * y0 - x0 * y3)
  {
    var vs := [Point(x0, y0), Point(x1, y1), Point(x2, y2), Point(x3, y3)];
    assert CrossSum(vs, 1) == Cross(vs[0], vs[1]);
    assert CrossSum(vs, 2) == CrossSum(vs, 1) + Cross(vs[1], vs[2]);
    assert CrossSum(vs, 3) == CrossSum(vs, 2) + Cross(vs[2], vs[3]);
    assert CrossSum(vs, 4) == CrossSum(vs, 3) + Cross(vs[3], vs[0]);
  }

  /** For five vertices the shoelace sum is the five-term formula written out
      over the coordinates. */
  lemma {:induction false} ShoelaceOfFive(x0: int, y0: int, x1: int, y1: int, x2: int, y2: int,
                                          x3: int, y3: int, x4: int, y4: int)
    ensures var vs := [Point(x0, y0), Point(x1, y1), Point(x2, y2), Point(x3, y3), Point(x4, y4)];
            TwiceSignedArea(vs) == (x0 * y1 - x1 * y0) + (x1 * y2 - x2 * y1) + (x2 * y3 - x3 * y2)
                                   + (x3 * y4 - x4 * y3) + (x4 * y0 - x0 * y4)
  {
    var vs := [Point(x0, y0), Point(x1, y1), Point(x2, y2), Point(x3, y3), Point(x4, y4)];
    assert CrossSum(vs, 1) == Cross(vs[0], vs[1]);
    assert CrossSum(vs, 2) == CrossSum(vs, 1) + Cross(vs[1], vs[2]);
    assert CrossSum(vs, 3) == CrossSum(vs, 2) + Cross(vs[2], vs[3]);
    assert CrossSum(vs, 4) == CrossSum(vs, 3) + Cross(vs[3], vs[4]);
    assert CrossSum(vs, 5) == CrossSum(vs, 4) + Cross(vs[4], vs[0]);
  }

  /** The same polygon listed from its second vertex onwards. */
  function Rotate(vs: seq<Point>): (r: seq<Point>)
    requires |vs| > 0
  {
    vs[1..] + [vs[0]]
  }

  lemma {:induction false} CrossSumRotated(vs: seq<Point>, k: nat)
    requires 0 < |vs| && k < |vs|
    ensures CrossSum(Rotate(vs), k) + Cross(vs[0], vs[Next(0, |vs|)]) == CrossSum(vs, k + 1)
  {
    var r := Rotate(vs);
    var n := |vs|;
    if k > 0 {
      CrossSumRotated(vs, k - 1);
      assert r[k - 1] == vs[k];
      assert r[Next(k - 1, n)] == vs[Next(k, n)];
    }
  }

  /** The surface does not depend on which vertex the list starts from. */
  lemma {:induction false} SurfaceRotationInvariant(vs: seq<Point>)
    requires |vs| > 0
    ensures TwiceSignedArea(Rotate(vs)) == TwiceSignedArea(vs)
    ensures Surface(Rotate(vs)) == Surface(vs)
  {
    var r := Rotate(vs);
    var n := |vs|;
    CrossSumRotated(vs, n - 1);
    assert CrossSum(r, n) == CrossSum(r, n - 1) + Cross(r[n - 1], r[Next(n - 1, n)]);
    assert r[n - 1] == vs[0];
    assert r[Next(n - 1, n)] == vs[Next(0, n)];
  }

  /** Every vertex moved by `operator-` against the same point `d`. */
  function Translate(vs: seq<Point>, d: Point): (r: seq<Point>)
    ensures |r| == |vs|
    ensures forall i :: 0 <= i < |vs| ==> r[i] == Sub(vs[i], d)
  {
    seq(|vs|, i requires 0 <= i < |vs| => Sub(vs[i], d))
  }

  lemma CrossOfTranslated(p: Point, q: Point, d: Point)
    ensures Cross(Sub(p, d), Sub(q, d)) == Cross(p, q) - d.y * (p.x - q.x) - d.x * (q.y - p.y)
  {
    var a, b := Sub(p, d), Sub(q, d);
    calc {
      Cross(a, b);
      (p.x - d.x) * (q.y - d.y) - (q.x - d.x) * (p.y - d.y);
      { assert (p.x - d.x) * (q.y - d.y) == p.x * q.y - p.x * d.y - d.x * q.y + d.x * d.y;
        assert (q.x - d.x) * (p.y - d.y) == q.x * p.y - q.x * d.y - d.x * p.y + d.x * d.y; }
      Cross(p, q) - d.y * (p.x - q.x) - d.x * (q.y - p.y);
    }
  }

  /** The partial shoelace sums of a translated polygon differ from the
      originals by terms that telescope. */
  lemma {:induction false} CrossSumTranslated(vs: seq<Point>, d: Point, k: nat)
    requires 0 < |vs| && k <= |vs|
    ensures var e := if k < |vs| then vs[k] else vs[0];
            CrossSum(Translate(vs, d), k) == CrossSum(vs, k) - d.y * (vs[0].x - e.x) - d.x * (e.y - vs[0].y)
  {
    var t := Translate(vs, d);
    var n := |vs|;
    if k > 0 {
      CrossSumTranslated(vs, d, k - 1);
      var a, b, c := vs[0], vs[k - 1], vs[Next(k - 1, n)];
      CrossOfTranslated(b, c, d);
      assert t[k - 1] == Sub(b, d) && t[Next(k - 1, n)] == Sub(c, d);
      Telescope(d.y, a.x, b.x, c.x);
      Telescope(d.x, c.y, b.y, a.y);
    }
  }

  lemma Telescope(m: int, a: int, b: int, c: int)
    ensures m * (a - b) + m * (b - c) == m * (a - c)
  {
  }

  /** The surface does not depend on where the polygon lies: moving every
      vertex by the same offset leaves it unchanged. This rests on the
      wrap-around term that pairs the last vertex with the first. */
  lemma SurfaceTranslationInvariant(vs: seq<Point>, d: Point)
    ensures TwiceSignedArea(Translate(vs, d)) == TwiceSignedArea(vs)
    ensures Surface(Translate(vs, d)) == Surface(vs)
  {
    if |vs| > 0 {
      CrossSumTranslated(vs, d, |vs|);
    }
  }

  /** Running sums of the coordinates, in the order `center()` adds them. */
  function SumX(vs: seq<Point>): int
  {
    if vs == [] then 0 else SumX(vs[..|vs| - 1]) + vs[|vs| - 1].x
  }

  function SumY(vs: seq<Point>): int
  {
    if vs == [] then 0 else SumY(vs[..|vs| - 1]) + vs[|vs| - 1].y
  }

  lemma SumsStep(vs: seq<Point>, k: nat)
    requires k < |vs|
    ensures SumX(vs[..k + 1]) == SumX(vs[..k]) + vs[k].x
    ensures SumY(vs[..k + 1]) == SumY(vs[..k]) + vs[k].y
  {
    assert vs[..k + 1][..k] == vs[..k];
  }

  lemma {:induction false} SumsOfFour(vs: seq<Point>)
    requires |vs| == 4
    ensures SumX(vs) == vs[0].x + vs[1].x + vs[2].x + vs[3].x
    ensures SumY(vs) == vs[0].y + vs[1].y + vs[2].y + vs[3].y
  {
    SumsStep(vs, 0);
    SumsStep(vs, 1);
    SumsStep(vs, 2);
    SumsStep(vs, 3);
    assert vs[..0] == [] && vs[..4] == vs;
  }

  lemma {:induction false} SumsOfFive(vs: seq<Point>)
    requires |vs| == 5
    ensures SumX(vs) == vs[0].x + vs[1].x + vs[2].x + vs[3].x + vs[4].x
    ensures SumY(vs) == vs[0].y + vs[1].y + vs[2].y + vs[3].y + vs[4].y
  {
    SumsStep(vs, 0);
    SumsStep(vs, 1);
    SumsStep(vs, 2);
    SumsStep(vs, 3);
    SumsStep(vs, 4);
    assert vs[..0] == [] && vs[..5] == vs;
  }

  lemma EuclideanDivision(a: nat, n: nat)
    requires n > 0
    ensures 0 <= a / n && (a / n) * n <= a < (a / n) * n + n
  {
  }

  /** Integer division as C++ performs it: the exact quotient rounded toward
      zero, so `q * n` lies between zero and `a`, less than `n` away from `a`. */
  function TruncDiv(a: int, n: int): (q: int)
    requires n > 0
    ensures a >= 0 ==> 0 <= q && q * n <= a < q * n + n
    ensures a < 0 ==> q <= 0 && a <= q * n < a + n
  {
    if a >= 0 then
      EuclideanDivision(a, n);
      a / n
    else
      EuclideanDivision(-a, n);
      var m := (-a) / n;
      assert (-m) * n == -(m * n);
      -m
  }

  /** A real number rounded toward zero. */
  function Truncate(r: real): int
  {
    if r >= 0.0 then r.Floor else -((-r).Floor)
  }

  lemma RealQuotientBounds(a: real, n: real, q: real)
    requires n > 0.0 && q * n <= a < q * n + n
    ensures q <= a / n < q + 1.0
  {
    var r := a / n;
    assert r * n == a;
    assert (q + 1.0) * n == q * n + n;
    var d := r - (q + 1.0);
    assert d * n == r * n - (q + 1.0) * n;
    if d >= 0.0 {
      ProductNonNegative(d, n);
      assert false;
    }
  }

  lemma ProductNonNegative(x: real, y: real)
    requires x >= 0.0 && y >= 0.0
    ensures x * y >= 0.0
  {
  }

  lemma FloorOfQuotient(a: nat, n: nat)
    requires n > 0
    ensures (a as real / n as real).Floor == a / n
  {
    var q := a / n;
    assert q * n <= a < q * n + n;
    assert (q as real) * (n as real) == (q * n) as real;
    RealQuotientBounds(a as real, n as real, q as real);
  }

  /** Truncating integer division agrees with truncating the exact quotient. */
  lemma TruncDivIsTruncatedQuotient(a: int, n: int)
    requires n > 0
    ensures TruncDiv(a, n) == Truncate(a as real / n as real)
  {
    if a >= 0 {
      FloorOfQuotient(a, n);
    } else {
      FloorOfQuotient(-a, n);
      assert -(a as real / n as real) == (-a) as real / n as real;
    }
  }

  /** A point with real coordinates: what `center()` returns when the scalar
      type is floating point. */
  datatype RealPoint = RealPoint(x: real, y: real)

  /** The arithmetic mean of the vertices, computed exactly. */
  function MeanCenter(vs: seq<Point>): RealPoint
    requires |vs| > 0
  {
    RealPoint(SumX(vs) as real / |vs| as real, SumY(vs) as real / |vs| as real)
  }

  /** `center()`: the per-coordinate sum divided by `n` with the scalar
      type's division. For `int` that is the exact mean of the vertices
      rounded toward zero. */
  function Center(vs: seq<Point>): (c: Point)
    requires |vs| > 0
    ensures c.x == Truncate(MeanCenter(vs).x) && c.y == Truncate(MeanCenter(vs).y)
  {
    TruncDivIsTruncatedQuotient(SumX(vs), |vs|);
    TruncDivIsTruncatedQuotient(SumY(vs), |vs|);
    Point(TruncDiv(SumX(vs), |vs|), TruncDiv(SumY(vs), |vs|))
  }

  /** No two vertices coincide. */
  predicate AllDistinct(vs: seq<Point>)
  {
    forall i, j :: 0 <= i < j < |vs| ==> vs[i] != vs[j]
  }

  /** `validate()`: false as soon as two vertices coincide, otherwise whether
      the surface exceeds `Epsilon`. With integer coordinates the latter means
      the shoelace sum is not zero. */
  function Validate(vs: seq<Point>): (ok: bool)
    ensures ok <==> AllDistinct(vs) && TwiceSignedArea(vs) != 0
  {
    AllDistinct(vs) && Surface(vs) > Epsilon
  }

  /** `operator==`: false when the other figure is of another class, otherwise
      vertex-by-vertex comparison in stored order. It is exactly equality of
      the figures' values. */
  function Equals(a: Shape, b: Shape): (r: bool)
    requires a.WellFormed() && b.WellFormed()
    ensures r <==> a == b
  {
    a.kind == b.kind && forall i :: 0 <= i < |a.vertices| ==> Equal(a.vertices[i], b.vertices[i])
  }

  /** `operator!=`: the negation of `operator==`. */
  function NotEquals(a: Shape, b: Shape): (r: bool)
    requires a.WellFormed() && b.WellFormed()
    ensures r <==> a != b
  {
    !Equals(a, b)
  }

  /** Equality does not normalise the starting vertex: a valid figure
      listed from its second vertex has the same surface but is not equal to
      the original. */
  lemma {:induction false} RotationChangesEqualityNotSurface(s: Shape)
    requires s.WellFormed() && Validate(s.vertices)
    ensures Shape(s.kind, Rotate(s.vertices)).WellFormed()
    ensures !Equals(s, Shape(s.kind, Rotate(s.vertices)))
    ensures Surface(Rotate(s.vertices)) == Surface(s.vertices)
  {
    var vs := s.vertices;
    SurfaceRotationInvariant(vs);
    assert Rotate(vs)[0] == vs[1] != vs[0];
  }
}
