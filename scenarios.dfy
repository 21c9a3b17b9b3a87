/** The behaviour the repository's tests and demo driver exercise, stated
    about the model: concrete figures, copies and clones, and arrays holding
    figures by value and by reference. */
module Scenarios {
  import opened Points
  import opened Failures
  import opened Polygons
  import opened Figures
  import opened Containers
  import opened Handles

  function SampleTrapezoid(): seq<Point>
  {
    [Point(0, 0), Point(4, 0), Point(3, 2), Point(0, 2)]
  }

  function SampleRhombus(): seq<Point>
  {
    [Point(0, 0), Point(1, 1), Point(2, 0), Point(1, -1)]
  }

  function SamplePentagon(): seq<Point>
  {
    [Point(0, 0), Point(1, 0), Point(2, 1), Point(1, 2), Point(0, 1)]
  }

  /** The trapezoid (0,0),(4,0),(3,2),(0,2) has surface 7. */
  lemma TrapezoidSurface()
    ensures Surface(SampleTrapezoid()) == 7.0
  {
    ShoelaceOfFour(0, 0, 4, 0, 3, 2, 0, 2);
  }

  /** Its mean vertex is (1.75, 1); with integer coordinates the centre
      truncates that to (1, 1). */
  lemma TrapezoidCenter()
    ensures MeanCenter(SampleTrapezoid()) == RealPoint(1.75, 1.0)
    ensures Center(SampleTrapezoid()) == Point(1, 1)
  {
    SumsOfFour(SampleTrapezoid());
  }

  lemma TrapezoidIsValid()
    ensures Validate(SampleTrapezoid())
  {
    ShoelaceOfFour(0, 0, 4, 0, 3, 2, 0, 2);
    assert AllDistinct(SampleTrapezoid());
  }

  /** A trapezoid equals one built from the same vertex list. */
  lemma TrapezoidEqualsItself()
    ensures Equals(Shape(Trapezoid, SampleTrapezoid()), Shape(Trapezoid, SampleTrapezoid()))
    ensures !NotEquals(Shape(Trapezoid, SampleTrapezoid()), Shape(Trapezoid, SampleTrapezoid()))
  {
  }

  /** The collinear list (0,0),(1,0),(2,0),(3,0) differs from the sample. */
  lemma CollinearTrapezoidDiffers()
    ensures !Equals(Shape(Trapezoid, SampleTrapezoid()), Shape(Trapezoid, CollinearFour()))
  {
    assert CollinearFour()[1] != SampleTrapezoid()[1];
  }

  /** ... and is not a valid trapezoid: it encloses nothing. */
  lemma CollinearTrapezoidIsInvalid()
    ensures Surface(CollinearFour()) == 0.0
    ensures !Validate(CollinearFour())
  {
    ShoelaceOfFour(0, 0, 1, 0, 2, 0, 3, 0);
  }

  function CollinearFour(): seq<Point>
  {
    [Point(0, 0), Point(1, 0), Point(2, 0), Point(3, 0)]
  }

  /** The rhombus (0,0),(1,1),(2,0),(1,-1) has surface 2. */
  lemma RhombusSurface()
    ensures Surface(SampleRhombus()) == 2.0
  {
    ShoelaceOfFour(0, 0, 1, 1, 2, 0, 1, -1);
  }

  /** Its centre is (1, 0). */
  lemma RhombusCenter()
    ensures Center(SampleRhombus()) == Point(1, 0)
  {
    SumsOfFour(SampleRhombus());
  }

  lemma RhombusIsValid()
    ensures Validate(SampleRhombus())
  {
    ShoelaceOfFour(0, 0, 1, 1, 2, 0, 1, -1);
    assert AllDistinct(SampleRhombus());
  }

  /** Four collinear vertices (0,0),(1,1),(2,2),(3,3) enclose nothing, so the
      rhombus is invalid. */
  lemma CollinearRhombusIsInvalid()
    ensures Surface([Point(0, 0), Point(1, 1), Point(2, 2), Point(3, 3)]) == 0.0
    ensures !Validate([Point(0, 0), Point(1, 1), Point(2, 2), Point(3, 3)])
  {
    ShoelaceOfFour(0, 0, 1, 1, 2, 2, 3, 3);
  }

  /** The pentagon (0,0),(1,0),(2,1),(1,2),(0,1) has surface 2.5. */
  lemma PentagonSurface()
    ensures Surface(SamplePentagon()) == 2.5
  {
    ShoelaceOfFive(0, 0, 1, 0, 2, 1, 1, 2, 0, 1);
  }

  /** Its mean vertex is (0.8, 0.8), which truncates to the origin. */
  lemma PentagonCenter()
    ensures MeanCenter(SamplePentagon()) == RealPoint(0.8, 0.8)
    ensures Center(SamplePentagon()) == Point(0, 0)
  {
    SumsOfFive(SamplePentagon());
  }

  lemma PentagonIsValid()
    ensures Validate(SamplePentagon())
  {
    ShoelaceOfFive(0, 0, 1, 0, 2, 1, 1, 2, 0, 1);
    assert AllDistinct(SamplePentagon());
  }

  /** Five collinear vertices (0,0)...(4,0) make an invalid pentagon. */
  lemma CollinearPentagonIsInvalid()
    ensures Surface([Point(0, 0), Point(1, 0), Point(2, 0), Point(3, 0), Point(4, 0)]) == 0.0
    ensures !Validate([Point(0, 0), Point(1, 0), Point(2, 0), Point(3, 0), Point(4, 0)])
  {
    ShoelaceOfFive(0, 0, 1, 0, 2, 0, 3, 0, 4, 0);
  }

  /** A figure never equals a figure of another class, whatever their
      vertices. */
  lemma OtherClassNeverEqual(a: Shape, b: Shape)
    requires a.WellFormed() && b.WellFormed() && a.kind != b.kind
    ensures !Equals(a, b) && NotEquals(a, b)
  {
  }

  /** Copy construction, copy assignment and cloning each give a figure equal
      to the source. */
  method CopiesAreEqual(k: Kind, pts: seq<Point>) returns (viaCopy: bool, viaAssign: bool, viaClone: bool)
    requires |pts| == VertexCount(k)
    ensures viaCopy && viaAssign && viaClone
  {
    var f := new Figure(k, pts);
    var g := new Figure.Copy(f);
    viaCopy := g.Equals(f);
    var h := new Figure.Default(k);
    h.Assign(f);
    viaAssign := h.Equals(f);
    var c := f.Clone();
    viaClone := c.Equals(f);
  }

  /** Reading new vertices into a clone leaves the original as it was: this
      method changes nothing it was given. */
  method CloneIsIndependent(f: Figure, input: seq<Point>) returns (r: Outcome, surface: real, center: Point)
    requires f.Valid() && |input| == f.vertices.Length
    ensures r == if Validate(input) then Pass else Fail(InvalidShape)
    ensures surface == Surface(f.vertices[..]) && center == Center(f.vertices[..])
  {
    var c := f.Clone();
    r := c.Read(input);
    surface := f.Surface();
    center := f.Center();
  }

  function SecondTrapezoid(): seq<Point>
  {
    [Point(1, 1), Point(5, 1), Point(4, 3), Point(2, 3)]
  }

  /** The trapezoid (1,1),(5,1),(4,3),(2,3) has surface 6. */
  lemma SecondTrapezoidSurface()
    ensures Surface(SecondTrapezoid()) == 6.0
  {
    ShoelaceOfFour(1, 1, 5, 1, 4, 3, 2, 3);
  }

  /** Two figures added by value to a new array: the size is 2 and the total
      is the sum of their surfaces. */
  method TotalOfTwo(a: Shape, b: Shape) returns (size: nat, total: real)
    ensures size == 2 && total == Surface(a.vertices) + Surface(b.vertices)
  {
    var arr := new Array<Shape>();
    arr.Add(a);
    arr.Add(b);
    size := arr.GetSize();
    var area := (s: Shape) => Surface(s.vertices);
    total := arr.TotalSurface(area);
    assert arr.Elements() == [a, b];
    SumOfPair(area, a, b);
  }

  /** Two trapezoids held by value total 13. */
  method TrapezoidsByValue() returns (size: nat, total: real)
    ensures size == 2 && total == 13.0
  {
    size, total := TotalOfTwo(Shape(Trapezoid, SampleTrapezoid()), Shape(Trapezoid, SecondTrapezoid()));
    TrapezoidSurface();
    SecondTrapezoidSurface();
  }

  /** Three handles added one by one to a new array, in order. */
  method HoldThree(a: Figure?, b: Figure?, c: Figure?) returns (arr: Array<Figure?>)
    ensures fresh(arr) && fresh(arr.data) && arr.Valid() && arr.Elements() == [a, b, c]
  {
    arr := new Array<Figure?>();
    arr.Add(a);
    arr.Add(b);
    arr.Add(c);
  }

  /** A trapezoid, a rhombus and a pentagon added by handle are found at
      indices 0, 1 and 2, each still of its own class. */
  method FiguresByReference() returns (first: Kind, second: Kind, third: Kind)
    ensures first == Trapezoid && second == Rhombus && third == Pentagon
  {
    var t := new Figure(Trapezoid, SampleTrapezoid());
    var r := new Figure(Rhombus, SampleRhombus());
    var p := new Figure(Pentagon, SamplePentagon());
    var arr := HoldThree(t, r, p);
    var a := arr.Get(0);
    var b := arr.Get(1);
    var c := arr.Get(2);
    first, second, third := a.value.kind, b.value.kind, c.value.kind;
  }

  /** Three figures held by handle; the total surface, then `remove(1)`,
      then the total again. The first and the third are left, in that order,
      index 2 is out of range, and the total has lost exactly the middle
      figure's surface. */
  method RemoveMiddle(a: Figure, b: Figure, c: Figure)
    returns (before: real, after: real, first: Result<Figure?>, second: Result<Figure?>, third: Result<Figure?>)
    requires a.Valid() && b.Valid() && c.Valid()
    ensures before == Surface(a.vertices[..]) + Surface(b.vertices[..]) + Surface(c.vertices[..])
    ensures after == Surface(a.vertices[..]) + Surface(c.vertices[..])
    ensures first == Success(a) && second == Success(c) && third == Failure(OutOfRange)
  {
    var arr := HoldThree(a, b, c);
    before := HeldTotalOfThree(arr, a, b, c);
    var removed := arr.Remove(1);
    assert [a, b, c][..1] + [a, b, c][2..] == [a, c];
    first := arr.Get(0);
    second := arr.Get(1);
    third := arr.Get(2);
    after := TotalAfterRemove(arr, [a, b, c], 1);
    TotalOfThreeHandles(a, b, c);
  }

  /** `totalSurface` of an array holding exactly the handles `a`, `b`, `c`. */
  method HeldTotalOfThree(arr: Array<Figure?>, a: Figure, b: Figure, c: Figure) returns (total: real)
    requires arr.Valid() && arr.Elements() == [a, b, c]
    requires a.Valid() && b.Valid() && c.Valid()
    ensures total == Surface(a.vertices[..]) + Surface(b.vertices[..]) + Surface(c.vertices[..])
  {
    total := TotalSurfaceOfHandles(arr);
    TotalOfThreeHandles(a, b, c);
  }

  /** The demo driver on a trapezoid, a rhombus and a pentagon built from
      `tv`, `rv` and `pv`: the totals before and after `remove(1)`, the classes
      left at indices 0 and 1, index 2 out of range, and the removed rhombus
      held outside the array, unchanged. */
  method DemoDriverOn(tv: seq<Point>, rv: seq<Point>, pv: seq<Point>)
    returns (before: real, after: real, first: Kind, second: Kind, third: Result<Figure?>, removed: Figure)
    requires |tv| == 4 && |rv| == 4 && |pv| == 5
    ensures before == Surface(tv) + Surface(rv) + Surface(pv) && after == Surface(tv) + Surface(pv)
    ensures first == Trapezoid && second == Pentagon && third == Failure(OutOfRange)
    ensures removed.Value() == Shape(Rhombus, rv)
  {
    var t := new Figure(Trapezoid, tv);
    removed := new Figure(Rhombus, rv);
    var p := new Figure(Pentagon, pv);
    var a, b;
    before, after, a, b, third := RemoveMiddle(t, removed, p);
    first, second := a.value.kind, b.value.kind;
  }

  /** The demo driver: a trapezoid, a rhombus and a pentagon by handle total
      11.5; removing index 1 leaves the trapezoid and the pentagon, totalling
      9.5. */
  method DemoDriver() returns (before: real, after: real, first: Kind, second: Kind, third: Result<Figure?>, removed: Figure)
    ensures before == 11.5 && after == 9.5
    ensures first == Trapezoid && second == Pentagon && third == Failure(OutOfRange)
    ensures removed.Value() == Shape(Rhombus, SampleRhombus())
  {
    before, after, first, second, third, removed := DemoDriverOn(SampleTrapezoid(), SampleRhombus(), SamplePentagon());
    DemoTotals();
  }

  /** The demo figures' surfaces, 7, 2 and 2.5, total 11.5, and 9.5 without
      the rhombus. */
  lemma DemoTotals()
    ensures Surface(SampleTrapezoid()) + Surface(SampleRhombus()) + Surface(SamplePentagon()) == 11.5
    ensures Surface(SampleTrapezoid()) + Surface(SamplePentagon()) == 9.5
  {
    TrapezoidSurface();
    RhombusSurface();
    PentagonSurface();
  }

  /** Indexing an empty array fails, even at index 0. */
  method EmptyIndexFails<T(0)>() returns (r: Result<T>)
    ensures r == Failure(OutOfRange)
  {
    var arr := new Array<T>();
    r := arr.Get(0);
  }

  /** Adding the elements of `xs` one by one to a new array holds them in
      order, with the capacity the growth policy predicts for that many. */
  method AddAll<T(0)>(xs: seq<T>) returns (arr: Array<T>)
    ensures arr.Valid() && arr.Elements() == xs
    ensures arr.capacity == CapacityAfterAdds(|xs|)
  {
    arr := new Array<T>();
    for i := 0 to |xs|
      invariant fresh(arr) && fresh(arr.data) && arr.Valid()
      invariant arr.Elements() == xs[..i]
      invariant arr.capacity == CapacityAfterAdds(i)
    {
      arr.Add(xs[i]);
      assert xs[..i + 1] == xs[..i] + [xs[i]];
    }
    assert xs[..|xs|] == xs;
  }
}
