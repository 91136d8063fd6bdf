/**
 * What the subdivision engine observes of the geometry library it calls.
 *
 * Every polygon operation (buffer, difference, intersection, split, within,
 * touches, distance) is foreign code.  The model never computes geometry: a
 * geometry object is a `Shape` record holding exactly the attributes the engine
 * reads (`area`, `is_valid`, `is_empty`, its class, `bounds`, the exterior ring),
 * and each library call is a function-typed parameter of the operation that
 * makes it.  Coordinates are exact reals; floating-point rounding is not modelled.
 */
module Geometry {

  datatype Option<T> = None | Some(value: T)

  datatype Point = Point(x: real, y: real)

  /** A bounding box, as the `bounds` tuple (minx, miny, maxx, maxy). */
  datatype Box = Box(minX: real, minY: real, maxX: real, maxY: real)
  {
    function Width(): real { maxX - minX }
    function Height(): real { maxY - minY }
  }

  /** The class an `isinstance` test distinguishes. */
  datatype Kind = PolygonKind | MultiPolygonKind | OtherKind

  type Area = r: real | 0.0 <= r

  /**
   * A geometry object.  `id` stands for Python object identity: two distinct
   * objects carry distinct ids.  `ring` is the exterior ring without its
   * closing point.
   */
  datatype Shape = Shape(id: nat, kind: Kind, area: Area, valid: bool, empty: bool, bounds: Box, ring: seq<Point>)

  predicate IsPolygon(s: Shape) { s.kind == PolygonKind }

  /**
   * The polygons a difference or buffer result is read as: the parts of a
   * MultiPolygon, a non-empty Polygon alone, and nothing otherwise.  `geoms`
   * is the library's list of parts.
   */
  function Pieces(g: Shape, geoms: Shape -> seq<Shape>): (ps: seq<Shape>)
    ensures IsPolygon(g) && !g.empty ==> ps == [g]
    ensures g.kind == OtherKind || (IsPolygon(g) && g.empty) ==> ps == []
  {
    if g.kind == MultiPolygonKind then geoms(g)
    else if IsPolygon(g) && !g.empty then [g]
    else []
  }

  /** Sum of the `area` attributes of a list of geometries (`sum(g.area for g in gs)`). */
  function SumAreas(gs: seq<Shape>): (total: real)
    ensures 0.0 <= total
    ensures gs == [] ==> total == 0.0
  {
    if gs == [] then 0.0 else SumAreas(gs[..|gs| - 1]) + gs[|gs| - 1].area
  }

  lemma {:induction false} SumAreasAppend(gs: seq<Shape>, more: seq<Shape>)
    ensures SumAreas(gs + more) == SumAreas(gs) + SumAreas(more)
    decreases |more|
  {
    if more == [] {
      assert gs + more == gs;
    } else {
      var last := |more| - 1;
      assert (gs + more)[..|gs + more| - 1] == gs + more[..last];
      SumAreasAppend(gs, more[..last]);
    }
  }

  /**
   * Python's `int(x)` on a float: truncation toward zero.
   */
  function Trunc(x: real): (n: int)
    ensures 0.0 <= x ==> 0 <= n && n as real <= x < n as real + 1.0
    ensures x < 0.0 ==> n <= 0 && n as real - 1.0 < x <= n as real
  {
    if 0.0 <= x then x.Floor else -((-x).Floor)
  }

  function MaxInt(a: int, b: int): int { if a >= b then a else b }
  function MinInt(a: int, b: int): int { if a <= b then a else b }
  function MaxReal(a: real, b: real): real { if a >= b then a else b }
  function MinReal(a: real, b: real): real { if a <= b then a else b }

  /** Twice the signed area of the triangle abc (the shoelace cross product). */
  function Cross(a: Point, b: Point, c: Point): real
  {
    (b.x - a.x) * (c.y - a.y) - (b.y - a.y) * (c.x - a.x)
  }

  function Abs(r: real): real { if r < 0.0 then -r else r }

  /** Area of the triangle abc, as the library reports it (never negative). */
  function TriangleArea(a: Point, b: Point, c: Point): (area: real)
    ensures 0.0 <= area
    ensures area > 0.0 <==> Cross(a, b, c) != 0.0
  {
    Abs(Cross(a, b, c)) / 2.0
  }

  /** Signed area of a ring by the shoelace formula, twice over. */
  function ShoelaceFrom(ring: seq<Point>, i: nat): real
    requires i <= |ring|
    decreases |ring| - i
  {
    if i == |ring| then 0.0
    else
      var p := ring[i];
      var q := ring[(i + 1) % |ring|];
      p.x * q.y - q.x * p.y + ShoelaceFrom(ring, i + 1)
  }

  function Shoelace(ring: seq<Point>): real { ShoelaceFrom(ring, 0) }

  /** Normalised position k/n along an edge, as `i / n` in the source. */
  function Fraction(k: int, n: int): real
    requires n > 0
  {
    k as real / n as real
  }

  /** The unit interval is cut into n contiguous pieces [j/n, (j+1)/n]. */
  lemma FractionsTile(n: int, j: int)
    requires n > 0 && 0 <= j < n
    ensures Fraction(0, n) == 0.0 && Fraction(n, n) == 1.0
    ensures 0.0 <= Fraction(j, n) < Fraction(j + 1, n) <= 1.0
    ensures Fraction(j + 1, n) - Fraction(j, n) == 1.0 / n as real
  {
  }

  /** Concatenation is associative; loops that append call this to regroup their invariant. */
  lemma AppendAssoc<T>(a: seq<T>, b: seq<T>, c: seq<T>)
    ensures a + (b + c) == (a + b) + c
  {
  }
}
