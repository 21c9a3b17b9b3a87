# Figures and a growable array, modelled in Dafny

The repository is a small C++ library of plane figures and a container that holds them:

- `Point<T>` is a pair of scalar coordinates.
- `Trapezoid<T>`, `Rhombus<T>` and `Pentagon<T>` each own a fixed number of vertices: 4, 4 and 5. Each computes:
  - its surface, with the shoelace formula over cyclic vertex pairs;
  - its centre, as the per-coordinate sum divided by the vertex count;
  - its validity: the vertices are pairwise distinct and the surface exceeds 1e-9.
- Each figure also has class-checked, order-sensitive `==` and `!=`, deep copy, `clone`, and `read`. `read` overwrites the vertices and then throws if the result is invalid.
- `Array<T>` is a growable buffer. It starts with capacity 4 and doubles the capacity when full. `remove` shifts the later elements left, `operator[]` is bounds-checked, and `totalSurface` adds up the elements' areas.

The scalar is fixed to `int`, the instantiation the repository's integer tests and its polymorphic array use.

The project has seven modules, one per file:

- `Failures` (`failures.dfy`): the two exceptions the core throws, `std::out_of_range` and `std::invalid_argument`, become the `Error` values `OutOfRange` and `InvalidShape`. A throwing operation returns an `Outcome` or a `Result` instead.
- `Points` (`points.dfy`): `Point<int>` as a datatype.
- `Polygons` (`polygons.dfy`): the algorithm the three figure classes share, as pure functions over a vertex sequence. A figure's class is a `Kind` tag, which replaces `dynamic_cast` and virtual dispatch. This file also holds the lemmas about the shoelace sum, C++ truncating division and the centre.
- `Figures` (`figures.dfy`): the three figure classes as one class `Figure`.
  - Its fields are a constant `kind` and a fixed-length `array<Point>` of vertices.
  - The constructors, `Assign` (copy `operator=`) and `Read` overwrite that array in place.
  - `Surface`, `Center`, `Validate` and `Equals` are loops, each proved equal to the matching `Polygons` function.
- `Containers` (`containers.dfy`): `Array<T>` as a class with a `data` buffer, `size` and `capacity`, and the functions that specify it.
- `Handles` (`handles.dfy`): `totalSurface` over an array of `shared_ptr` handles, which follows each handle to its figure.
- `Scenarios` (`scenarios.dfy`): the concrete figures and arrays of the repository's tests and of its demo driver, with their surfaces, centres, validity and equality proved. The demo driver is read as an array of `shared_ptr` handles (see "## Left out").

The figures can be held two ways:

- **By value:** an `Array<Shape>`, where `Shape` is the datatype value of a figure.
- **By `shared_ptr`:** an `Array<Figure?>`, where a reference stands for the shared pointer.

## Model

| member | source | states |
|---|---|---|
| Points.Origin | include/Point.h:15-18 | the default point subtracts as the identity: `p - Origin() == p` for every `p` |
| Points.Equal | include/Point.h:21-23 | `==` holds exactly when both coordinates agree, i.e. it is value equality, hence an equivalence |
| Points.NotEqual | include/Point.h:25-27 | `!=` holds exactly when the points differ |
| Points.Sub | include/Point.h:29-31 | `a - b` adds back to `a` componentwise, and is the origin exactly when `a == b` |
| Points.Dot | include/Point.h:33-36 | a point dotted with itself is non-negative, and zero only for the origin |
| Points.DotSymmetric | include/Point.h:33-36 | `a.dot(b) == b.dot(a)` |
| Polygons.Next | include/Trapezoid.h:87 | `(i + 1) % n` is `i + 1`, except that the last vertex is followed by vertex 0 |
| Polygons.Surface | include/Trapezoid.h:84-92 | the surface is never negative, and it is zero exactly when the shoelace sum is zero |
| Polygons.ShoelaceOfFour | include/Trapezoid.h:84-92 | for four vertices, twice the signed area is the four-term cyclic shoelace formula |
| Polygons.ShoelaceOfFive | include/Pentagon.h:82-90 | for five vertices, twice the signed area is the five-term cyclic shoelace formula |
| Polygons.CrossSumRotated | include/Rhombus.h:84-92 | the shoelace prefix of a rotated vertex list, plus the first term, is the next prefix of the original |
| Polygons.SurfaceRotationInvariant | include/Rhombus.h:84-92 | starting the traversal at the next vertex leaves the signed area and the surface unchanged |
| Polygons.CrossSumTranslated | include/Trapezoid.h:84-92 | the shoelace prefix of a translated polygon differs from the original's by terms that telescope |
| Polygons.SurfaceTranslationInvariant | include/Trapezoid.h:84-92 | moving every vertex by the same offset leaves the signed area and the surface unchanged |
| Polygons.SumsStep | include/Trapezoid.h:76-80 | each step of the coordinate accumulation adds the next vertex's coordinates |
| Polygons.SumsOfFour | include/Trapezoid.h:75-82 | for four vertices, the coordinate sums are the four coordinates added |
| Polygons.SumsOfFive | include/Pentagon.h:73-80 | for five vertices, the coordinate sums are the five coordinates added |
| Polygons.TruncDiv | include/Trapezoid.h:81 | C++ `int` division by a positive `n` rounds toward zero: a non-negative dividend gives the largest `q` with `q * n <= a`, a negative one the smallest `q` with `q * n >= a` |
| Polygons.FloorOfQuotient | include/Trapezoid.h:81 | the floor of the exact quotient of naturals is their Euclidean quotient |
| Polygons.TruncDivIsTruncatedQuotient | include/Trapezoid.h:81 | truncating division agrees with the exact quotient rounded toward zero |
| Polygons.Center | include/Trapezoid.h:75-82 | `center()` is the exact mean of the vertices, each coordinate rounded toward zero |
| Polygons.Validate | include/Trapezoid.h:67-73 | `validate()` holds exactly when the vertices are pairwise distinct and the shoelace sum is non-zero (the surface exceeds 1e-9) |
| Polygons.Equals | include/Trapezoid.h:98-105 | `==` holds exactly when the classes agree and the vertices agree in stored order |
| Polygons.NotEquals | include/Trapezoid.h:107-109 | `!=` holds exactly when the figures differ |
| Polygons.RotationChangesEqualityNotSurface | include/Rhombus.h:98-105 | a valid figure with its traversal started one vertex later has the same surface but is not `==` to it |
| Figures.Figure.Default | include/Trapezoid.h:18-21 | the default constructor gives `n` vertices, all at the origin |
| Figures.Figure.constructor | include/Trapezoid.h:23-28 | vertex `i` of the new figure is the `i`-th given point: four points for the quadrilaterals, the five elements of the array for the pentagon (include/Pentagon.h:23-26) |
| Figures.Figure.Copy | include/Trapezoid.h:30-33 | the copy has a fresh vertex array and the same value as its source |
| Figures.Figure.Assign | include/Trapezoid.h:40-45 | after copy assignment the vertices are the other figure's, self-assignment included |
| Figures.Figure.Read | include/Trapezoid.h:60-65 | the vertices become the input; the result is `InvalidShape` exactly when the input does not validate, and the overwrite stays |
| Figures.Figure.Validate | include/Rhombus.h:67-73 | the pairwise scan and surface test compute `Polygons.Validate`: distinct vertices and a non-zero area |
| Figures.Figure.Center | include/Pentagon.h:73-80 | the accumulation loop computes `Polygons.Center` of the vertices |
| Figures.Figure.Surface | include/Pentagon.h:82-90 | the accumulation loop computes `Polygons.Surface` of the vertices |
| Figures.Figure.ToReal | include/Trapezoid.h:94-96 | `operator double` is the surface, and is non-negative |
| Figures.Figure.Equals | include/Pentagon.h:96-103 | the class check and per-vertex loop give true exactly when the two values are equal |
| Figures.Figure.NotEquals | include/Pentagon.h:105-107 | true exactly when the two values differ |
| Figures.Figure.Clone | include/Trapezoid.h:111-113 | the clone is a new object with its own vertex array and an equal value |
| Containers.CapacityAfterAddsIsLeast | include/Array.h:19-21 | after `k` adds from empty, the capacity is one of 4, 8, 16, ..., holds `k`, and is either 4 or has a predecessor in that sequence below `k` |
| Containers.SumOfConcat | include/Array.h:91-101 | the total over a concatenation is the sum of the totals |
| Containers.SumOfRemoved | include/Array.h:49-54 | removing element `i` lowers the total by exactly that element's area |
| Containers.SumOfPair | include/Array.h:91-101 | the total over two elements is their two areas added |
| Containers.SumOfTriple | include/Array.h:91-101 | the total over three elements is their three areas added |
| Containers.SumOfNonNegative | include/Array.h:91-101 | with non-negative areas the total is non-negative |
| Containers.Array.constructor | include/Array.h:19-21 | a new array is empty, with capacity 4 |
| Containers.Array.Add | include/Array.h:30-47 | the element is appended after the old elements; the capacity doubles exactly when the array was full and never decreases |
| Containers.Array.Resize | include/Array.h:107-113 | the capacity doubles into a fresh buffer, and the live elements keep their positions and values |
| Containers.Array.Remove | include/Array.h:49-54 | an index at or past the size gives `OutOfRange` and no change; otherwise the elements become the old ones with position `index` deleted, the capacity and buffer stay, and removing the last element leaves its slot as it was |
| Containers.Array.Get | include/Array.h:61-64 | element `index` when `index < size`, otherwise `OutOfRange` (an empty array included) |
| Containers.Array.Set | include/Array.h:56-59 | assigning through the reference replaces element `index`, or gives `OutOfRange` and no change |
| Containers.Array.GetSize | include/Array.h:103 | the number of live elements |
| Containers.Array.GetCapacity | include/Array.h:104 | the buffer length: at least the size, and one of 4, 8, 16, ... |
| Containers.Array.TotalSurface | include/Array.h:91-101 | by value (`double(data_[i])`): the areas of the live elements added in order |
| Handles.ShapeSurface | include/Array.h:96-97 | the area `totalSurface` reads through a handle is the figure's surface, never negative |
| Handles.Values | include/Array.h:96-97 | following each handle gives the figure it points to, in order, one value per handle |
| Handles.TotalSurfaceOfHandles | include/Array.h:91-101 | through `shared_ptr` handles (`double(*data_[i])`): the loop calling each figure's `surface()` gives the total of the same figures held by value, and it is never negative |
| Handles.ValuesOfRemoved | include/Array.h:49-54 | removing handle `i` removes exactly the value of the figure it points to, and keeps the other figures' values in order |
| Handles.RemovedHandleTotal | include/Array.h:49-54 | after removing handle `i`, the total plus the removed figure's surface is the old total |
| Handles.TotalAfterRemove | include/Array.h:91-101 | `totalSurface` after `remove(i)` is the total before it less the surface of the figure handle `i` pointed to |
| Handles.TotalOfThreeHandles | include/Array.h:91-101 | the total over three handles is the three figures' surfaces added |
| Scenarios.TrapezoidSurface | tests/test_figures.cpp:15-18 | the trapezoid (0,0),(4,0),(3,2),(0,2) has surface 7 |
| Scenarios.TrapezoidCenter | tests/test_figures.cpp:20-22 | its exact mean is (1.75, 1); the `int` centre is (1, 1) |
| Scenarios.TrapezoidIsValid | include/Trapezoid.h:67-73 | that trapezoid validates |
| Scenarios.TrapezoidEqualsItself | tests/test_figures.cpp:25-30 | two trapezoids built from the same points are `==` and not `!=` |
| Scenarios.CollinearTrapezoidDiffers | tests/test_figures.cpp:28-31 | the collinear (0,0),(1,0),(2,0),(3,0) is not `==` to the sample |
| Scenarios.CollinearTrapezoidIsInvalid | tests/test_figures.cpp:28 | the collinear trapezoid has surface 0 and does not validate |
| Scenarios.RhombusSurface | tests/test_figures.cpp:63-66 | the rhombus (0,0),(1,1),(2,0),(1,-1) has surface 2 |
| Scenarios.RhombusCenter | tests/test_figures.cpp:68-70 | its centre is (1, 0) |
| Scenarios.RhombusIsValid | include/Rhombus.h:67-73 | that rhombus validates |
| Scenarios.CollinearRhombusIsInvalid | tests/test_figures.cpp:93-96 | (0,0),(1,1),(2,2),(3,3) has surface 0 and does not validate |
| Scenarios.PentagonSurface | include/Pentagon.h:82-90 | the `int` pentagon of the tests, (0,0),(1,0),(2,1),(1,2),(0,1), has surface 2.5 |
| Scenarios.PentagonCenter | include/Pentagon.h:73-80 | its exact mean is (0.8, 0.8); the `int` centre is (0, 0) |
| Scenarios.PentagonIsValid | include/Pentagon.h:65-71 | that pentagon validates |
| Scenarios.CollinearPentagonIsInvalid | tests/test_figures.cpp:134-141 | (0,0),(1,0),(2,0),(3,0),(4,0) has surface 0 and does not validate |
| Scenarios.OtherClassNeverEqual | tests/test_figures.cpp:161-169 | figures of different classes are never `==`, and always `!=`, whatever their vertices |
| Scenarios.CopiesAreEqual | tests/test_figures.cpp:34-49 | a copy-constructed, a copy-assigned and a cloned figure are each `==` to the source |
| Scenarios.CloneIsIndependent | include/Trapezoid.h:111-113 | reading new vertices into a clone fails or not by validation, and leaves the original's surface and centre unchanged |
| Scenarios.SecondTrapezoidSurface | tests/test_figures.cpp:176 | the trapezoid (1,1),(5,1),(4,3),(2,3) has surface 6 |
| Scenarios.TotalOfTwo | tests/test_figures.cpp:172-184 | two figures added by value give size 2 and the sum of their surfaces as the total |
| Scenarios.TrapezoidsByValue | tests/test_figures.cpp:172-184 | the two test trapezoids by value give size 2 and total 13 |
| Scenarios.FiguresByReference | tests/test_figures.cpp:187-204 | a trapezoid, a rhombus and a pentagon added by handle are found at indices 0, 1 and 2, each of its own class |
| Scenarios.HeldTotalOfThree | src/main.cpp:49 | in the demo driver, read as an array of handles: `totalSurface` of an array holding three handles is the three figures' surfaces added |
| Scenarios.RemoveMiddle | src/main.cpp:39-55 | the demo driver, read as an array of handles, for any three figures: the total, then `remove(1)`, leaves the first and third at indices 0 and 1 and index 2 out of range, and the total loses exactly the middle figure's surface |
| Scenarios.DemoDriverOn | src/main.cpp:16-55 | the demo driver, read as an array of handles, on any trapezoid, rhombus and pentagon: the totals before and after `remove(1)`, a trapezoid then a pentagon left, index 2 out of range, the removed rhombus unchanged |
| Scenarios.DemoTotals | src/main.cpp:49-55 | in the demo driver, read as an array of handles, the demo figures' surfaces 7, 2 and 2.5 total 11.5, and 9.5 without the rhombus |
| Scenarios.DemoDriver | src/main.cpp:11-58 | the demo driver, read as an array of handles: its figures total 11.5; after `remove(1)` a trapezoid then a pentagon remain, totalling 9.5 |
| Scenarios.EmptyIndexFails | include/Array.h:61-64 | indexing an empty array fails, even at index 0 |
| Scenarios.AddAll | include/Array.h:30-47 | adding `xs` one by one to a new array holds exactly `xs` in order, with the capacity `CapacityAfterAdds(|xs|)` |

## Left out

- `Point::distanceTo` is left out: it computes a square root in floating point.
- The following are exact in the model, with no rounding:
  - the `long double` accumulator and the `double` cast in `surface()`;
  - the `double` that `dot` returns;
  - the `1e-9` comparison.
  
  With `int` coordinates the surface is a multiple of 0.5, so `surface() > 1e-9` is the same as a non-zero shoelace sum.
- The scalar is fixed to `int`:
  - The `double` instantiations of the tests are not modelled. These are the trapezoid centre test, whose exact mean (1.75, 1) is stated by `Scenarios.TrapezoidCenter`, and the pentagon at tests/test_figures.cpp:99-111, whose coordinates are not integers.
  - Integer width is not modelled. The centre sums `cx += v->x; cy += v->y` (include/Trapezoid.h:78-79, include/Pentagon.h:76-77) are `int` and can overflow, which is undefined behaviour in C++; the model uses unbounded integers. The shoelace products cast one factor to `long double` first (include/Trapezoid.h:88-89), so they do not overflow; the model computes them exactly.
- Stream I/O is not modelled: `print`, `operator<<`, `operator>>`, `printSurfaces` and `printCenters`. `Figures.Figure.Read` takes the already-parsed points; a stream that fails to parse is not modelled.
- The move constructor and move assignment are not modelled. Their target ends up holding the source's vertices, the same as `Copy` and `Assign`; the moved-from object's null vertex pointers are not modelled.
- Ownership is not modelled: `unique_ptr` vertices and `shared_ptr` reference counting. The vertices are one array owned by the figure. A `shared_ptr` handle in an `Array` is a Dafny reference, so the removed figure is still reachable while the array no longer holds it.
- `totalSurface` has two forms, as the `if constexpr` at include/Array.h:94-98 selects. `Containers.Array.TotalSurface` is the by-value form, taking the element's area as a function parameter. `Handles.TotalSurfaceOfHandles` is the `shared_ptr` form over an `Array<Figure?>`; it requires every live handle to be non-null, since dereferencing an empty handle is undefined behaviour in C++.
- The template plumbing (`is_shared_ptr`, `enable_if`, `requires`) is not modelled. The three `add` overloads become one `Add`: the lvalue overload copies the element (include/Array.h:39) and the handle and rvalue overloads move it (include/Array.h:32, 46). Either way the same element is stored, so the copy/move difference is not modelled.
- The abstract base class of include/Figure.h is not part of this model; its one piece of logic, `!=` as the negation of `==`, is in `NotEquals`.
- `Containers.Array.Remove`: the shift at include/Array.h:52 moves each later element one place left. After removing any index but the last, the vacated slot `data_[size-1]` is left in its moved-from state; for a `shared_ptr` handle that is an empty handle. The model's shift copies instead, so its vacated slot holds a duplicate of the last element. The contract says nothing about that slot except when the last element is removed: then nothing is moved, and the slot keeps its element, as in the code.
- The demo driver's array type: src/main.cpp:14 declares `Array< Figure<I> >`. That array cannot be constructed, since `std::make_shared<T[]>` of the abstract `Figure<int>` is ill-formed (include/Array.h:20). No `add` overload accepts the `shared_ptr`s added at src/main.cpp:39-41 either (include/Array.h:29, 37, 44). The `Scenarios` demo members read it as `Array<std::shared_ptr<Figure<I>>>`, the evident intent, under which `totalSurface` takes the handle branch at include/Array.h:96-97.
