/**
 * The advanced processor's triangulation by vertex removal and its grouping of
 * triangles into lots.
 *
 * The triangulation looks, in index order, for the first vertex i whose triangle
 * (v[i], v[i+1], v[i+2]) (indices wrapping) has non-zero area, emits it and
 * removes the middle vertex.  Convexity and containment are never checked, so a
 * reflex vertex can be cut off.  The grouping pops the first triangle, and when
 * it is too small merges it with the touching triangles that follow while it
 * enumerates the very list it pops from, which skips the element after each
 * merged one.
 */
module Triangulation {
  import opened Geometry

  datatype Triangle = Triangle(a: Point, b: Point, c: Point)

  /** The area the geometry library reports for a triangle: half the absolute cross product. */
  function PolygonArea(): Triangle -> real
  {
    (t: Triangle) => TriangleArea(t.a, t.b, t.c)
  }

  function RemoveAt<T>(s: seq<T>, k: nat): (r: seq<T>)
    requires k < |s|
    ensures |r| == |s| - 1
    ensures forall j :: 0 <= j < |r| ==> r[j] == if j < k then s[j] else s[j + 1]
  {
    s[..k] + s[k + 1..]
  }

  /** `k % n` for 0 <= k < 2n. */
  function Wrap(k: nat, n: nat): (r: nat)
    requires k < 2 * n
    ensures r < n
  {
    if k < n then k else k - n
  }

  /** The triangle the loop forms at index i. */
  function TriangleAt(vs: seq<Point>, i: nat): Triangle
    requires |vs| >= 2 && i < |vs|
  {
    Triangle(vs[i], vs[Wrap(i + 1, |vs|)], vs[Wrap(i + 2, |vs|)])
  }

  /** `Polygon([v1, v2, v3]).area > 0`, the area being reported by `area`. */
  predicate Emits(vs: seq<Point>, i: nat, area: Triangle -> real)
    requires |vs| >= 2 && i < |vs|
  {
    area(TriangleAt(vs, i)) > 0.0
  }

  /** The index the inner `for` loop breaks at, scanning from i. */
  function FirstEar(vs: seq<Point>, i: nat, area: Triangle -> real): (r: Option<nat>)
    requires |vs| >= 2 && i <= |vs|
    ensures r.Some? ==> i <= r.value < |vs| && Emits(vs, r.value, area)
    ensures r.Some? ==> forall j :: i <= j < r.value ==> !Emits(vs, j, area)
    ensures r.None? <==> forall j :: i <= j < |vs| ==> !Emits(vs, j, area)
    decreases |vs| - i
  {
    if i == |vs| then None
    else if Emits(vs, i, area) then Some(i)
    else FirstEar(vs, i + 1, area)
  }

  /** `_triangular_poligono` on the list of ring vertices. */
  function Triangulate(vs: seq<Point>, area: Triangle -> real): seq<Triangle>
    decreases |vs|
  {
    if |vs| < 3 then []
    else if |vs| == 3 then (if Emits(vs, 0, area) then [TriangleAt(vs, 0)] else [])
    else
      match FirstEar(vs, 0, area)
      case None => []
      case Some(i) => [TriangleAt(vs, i)] + Triangulate(RemoveAt(vs, Wrap(i + 1, |vs|)), area)
  }

  /** Each outer iteration removes one vertex or stops; the triangle is judged by its area. */
  method TriangulatePolygon(coords: seq<Point>, area: Triangle -> real) returns (tris: seq<Triangle>)
    ensures tris == Triangulate(coords, area)
  {
    tris := [];
    if |coords| < 3 {
      return;
    }
    var vs := coords;
    while |vs| > 3
      invariant |vs| >= 3
      invariant tris + Triangulate(vs, area) == Triangulate(coords, area)
      decreases |vs|
    {
      var found := false;
      var i := 0;
      ghost var before := vs;
      ghost var done := tris;
      while i < |vs|
        invariant vs == before && tris == done && !found
        invariant 0 <= i <= |vs|
        invariant forall j :: 0 <= j < i ==> !Emits(vs, j, area)
      {
        var t := TriangleAt(vs, i);
        if area(t) > 0.0 {
          var next := RemoveAt(vs, Wrap(i + 1, |vs|));
          EarRemoved(tris, vs, area, i, Triangulate(coords, area));
          tris := tris + [t];
          vs := next;
          found := true;
          break;
        }
        i := i + 1;
      }
      if !found {
        TriangulateStuck(vs, area);
        break;
      }
    }
    if |vs| == 3 {
      var last := TriangleAt(vs, 0);
      if area(last) > 0.0 {
        tris := tris + [last];
      }
    }
  }

  /** Cutting the ear at i keeps the loop invariant of `TriangulatePolygon`. */
  lemma EarRemoved(tris: seq<Triangle>, vs: seq<Point>, area: Triangle -> real, i: nat, whole: seq<Triangle>)
    requires |vs| > 3 && i < |vs| && Emits(vs, i, area)
    requires forall j :: 0 <= j < i ==> !Emits(vs, j, area)
    requires tris + Triangulate(vs, area) == whole
    ensures (tris + [TriangleAt(vs, i)]) + Triangulate(RemoveAt(vs, Wrap(i + 1, |vs|)), area) == whole
  {
    TriangulateStep(vs, area, i);
    AppendAssoc(tris, [TriangleAt(vs, i)], Triangulate(RemoveAt(vs, Wrap(i + 1, |vs|)), area));
  }

  lemma TriangulateStep(vs: seq<Point>, area: Triangle -> real, i: nat)
    requires |vs| > 3 && i < |vs| && Emits(vs, i, area)
    requires forall j :: 0 <= j < i ==> !Emits(vs, j, area)
    ensures Triangulate(vs, area) == [TriangleAt(vs, i)] + Triangulate(RemoveAt(vs, Wrap(i + 1, |vs|)), area)
  {
    assert FirstEar(vs, 0, area) == Some(i);
  }

  lemma TriangulateStuck(vs: seq<Point>, area: Triangle -> real)
    requires |vs| > 3
    requires forall j :: 0 <= j < |vs| ==> !Emits(vs, j, area)
    ensures Triangulate(vs, area) == []
  {
    assert FirstEar(vs, 0, area) == None;
  }

  /** Every emitted triangle has a positive reported area. */
  lemma {:induction false} TrianglesNonDegenerate(vs: seq<Point>, area: Triangle -> real)
    ensures forall t :: t in Triangulate(vs, area) ==> area(t) > 0.0
    decreases |vs|
  {
    if |vs| > 3 {
      match FirstEar(vs, 0, area)
      case None =>
      case Some(i) => TrianglesNonDegenerate(RemoveAt(vs, Wrap(i + 1, |vs|)), area);
    }
  }

  /** With the library's area, a triangle is emitted only when its cross product is non-zero. */
  lemma EmittedCrossNonZero(vs: seq<Point>)
    ensures forall t :: t in Triangulate(vs, PolygonArea()) ==> Cross(t.a, t.b, t.c) != 0.0
  {
    TrianglesNonDegenerate(vs, PolygonArea());
  }

  /** At most n - 2 triangles come out of n vertices. */
  lemma {:induction false} TriangleCount(vs: seq<Point>, area: Triangle -> real)
    requires |vs| >= 3
    ensures |Triangulate(vs, area)| <= |vs| - 2
    decreases |vs|
  {
    if |vs| > 3 {
      match FirstEar(vs, 0, area)
      case None =>
      case Some(i) => TriangleCount(RemoveAt(vs, Wrap(i + 1, |vs|)), area);
    }
  }

  /** The triangles use only vertices of the input ring. */
  lemma {:induction false} TrianglesUseInputVertices(vs: seq<Point>, area: Triangle -> real)
    ensures forall t :: t in Triangulate(vs, area) ==> t.a in vs && t.b in vs && t.c in vs
    decreases |vs|
  {
    if |vs| > 3 {
      match FirstEar(vs, 0, area)
      case None =>
      case Some(i) =>
        var rest := RemoveAt(vs, Wrap(i + 1, |vs|));
        TrianglesUseInputVertices(rest, area);
        assert forall p :: p in rest ==> p in vs;
    }
  }

  /**
   * No convexity test: on the counter-clockwise ring (4,0), (2,1), (2,4), (0,0),
   * whose vertex (2,1) turns clockwise (a reflex vertex), the first triangle cut
   * off is the one at that reflex vertex, which lies outside the polygon.
   */
  lemma ReflexVertexIsCut()
    ensures var vs := [Point(4.0, 0.0), Point(2.0, 1.0), Point(2.0, 4.0), Point(0.0, 0.0)];
      && Shoelace(vs) > 0.0
      && Cross(vs[0], vs[1], vs[2]) < 0.0
      && Triangulate(vs, PolygonArea()) != []
      && Triangulate(vs, PolygonArea())[0] == Triangle(vs[0], vs[1], vs[2])
  {
    var vs := [Point(4.0, 0.0), Point(2.0, 1.0), Point(2.0, 4.0), Point(0.0, 0.0)];
    assert TriangleAt(vs, 0) == Triangle(vs[0], vs[1], vs[2]);
    assert Cross(vs[0], vs[1], vs[2]) == -6.0;
    assert Emits(vs, 0, PolygonArea());
    assert FirstEar(vs, 0, PolygonArea()) == Some(0);
  }

  /** Collinear vertices give no triangle at all. */
  lemma CollinearGivesNothing()
    ensures Triangulate([Point(0.0, 0.0), Point(1.0, 0.0), Point(2.0, 0.0), Point(3.0, 0.0)], PolygonArea()) == []
  {
    var vs := [Point(0.0, 0.0), Point(1.0, 0.0), Point(2.0, 0.0), Point(3.0, 0.0)];
    assert TriangleAt(vs, 0) == Triangle(vs[0], vs[1], vs[2]);
    assert TriangleAt(vs, 1) == Triangle(vs[1], vs[2], vs[3]);
    assert TriangleAt(vs, 2) == Triangle(vs[2], vs[3], vs[0]);
    assert TriangleAt(vs, 3) == Triangle(vs[3], vs[0], vs[1]);
    forall j | 0 <= j < |vs|
      ensures !Emits(vs, j, PolygonArea())
    {
      var t := TriangleAt(vs, j);
      assert t.a.y == 0.0 && t.b.y == 0.0 && t.c.y == 0.0;
      assert Cross(t.a, t.b, t.c) == 0.0;
    }
    TriangulateStuck(vs, PolygonArea());
  }

  /* ---------- grouping ---------- */

  /**
   * The inner `for i, outro in enumerate(restantes)` that pops what it merges:
   * after a pop at index i the next element examined is the one at index i + 1
   * of the shortened list.  Returns the merged geometry and the list left.
   */
  function Absorb<T>(g: T, rest: seq<T>, i: nat, minArea: real,
                     area: T -> real, touches: (T, T) -> bool, union: (T, T) -> T): (r: (T, seq<T>))
    ensures |r.1| <= |rest|
    decreases |rest| - i
  {
    if i >= |rest| then (g, rest)
    else if touches(g, rest[i]) then
      var merged := union(g, rest[i]);
      var left := RemoveAt(rest, i);
      if area(merged) >= minArea then (merged, left)
      else Absorb(merged, left, i + 1, minArea, area, touches, union)
    else Absorb(g, rest, i + 1, minArea, area, touches, union)
  }

  /** `_agrupar_triangulos`: a lot per large triangle or per group reaching 80% of the minimum. */
  function Group<T>(rest: seq<T>, minArea: real,
                    area: T -> real, touches: (T, T) -> bool, union: (T, T) -> T): seq<T>
    decreases |rest|
  {
    if rest == [] then []
    else if area(rest[0]) >= minArea then [rest[0]] + Group(rest[1..], minArea, area, touches, union)
    else
      var (g, left) := Absorb(rest[0], rest[1..], 0, minArea, area, touches, union);
      (if area(g) >= minArea * 0.8 then [g] else []) + Group(left, minArea, area, touches, union)
  }

  lemma GroupKeeps<T>(rest: seq<T>, minArea: real, area: T -> real, touches: (T, T) -> bool, union: (T, T) -> T)
    requires rest != [] && area(rest[0]) >= minArea
    ensures Group(rest, minArea, area, touches, union) == [rest[0]] + Group(rest[1..], minArea, area, touches, union)
  {
  }

  lemma GroupMerges<T>(rest: seq<T>, minArea: real, area: T -> real, touches: (T, T) -> bool, union: (T, T) -> T,
                       g: T, left: seq<T>)
    requires rest != [] && area(rest[0]) < minArea
    requires Absorb(rest[0], rest[1..], 0, minArea, area, touches, union) == (g, left)
    ensures Group(rest, minArea, area, touches, union)
            == (if area(g) >= minArea * 0.8 then [g] else []) + Group(left, minArea, area, touches, union)
  {
  }

  /** The inner loop of the grouping: merge touching triangles until the group is large enough. */
  method AbsorbNeighbours<T>(current: T, rest: seq<T>, minArea: real,
                             area: T -> real, touches: (T, T) -> bool, union: (T, T) -> T)
    returns (grouped: T, left: seq<T>)
    ensures (grouped, left) == Absorb(current, rest, 0, minArea, area, touches, union)
  {
    grouped := current;
    left := rest;
    var i := 0;
    while i < |left|
      invariant Absorb(grouped, left, i, minArea, area, touches, union)
                == Absorb(current, rest, 0, minArea, area, touches, union)
      decreases |left| - i
    {
      var other := left[i];
      if touches(grouped, other) {
        grouped := union(grouped, other);
        left := RemoveAt(left, i);
        if area(grouped) >= minArea {
          break;
        }
      }
      i := i + 1;
    }
  }

  method GroupTriangles<T>(tris: seq<T>, minArea: real,
                           area: T -> real, touches: (T, T) -> bool, union: (T, T) -> T)
    returns (lots: seq<T>)
    ensures lots == Group(tris, minArea, area, touches, union)
  {
    lots := [];
    var rest := tris;
    while rest != []
      invariant lots + Group(rest, minArea, area, touches, union) == Group(tris, minArea, area, touches, union)
      decreases |rest|
    {
      var current := rest[0];
      var taken, left;
      if area(current) >= minArea {
        GroupKeeps(rest, minArea, area, touches, union);
        taken, left := [current], rest[1..];
      } else {
        var grouped;
        grouped, left := AbsorbNeighbours(current, rest[1..], minArea, area, touches, union);
        GroupMerges(rest, minArea, area, touches, union, grouped, left);
        taken := if area(grouped) >= minArea * 0.8 then [grouped] else [];
      }
      AppendAssoc(lots, taken, Group(left, minArea, area, touches, union));
      lots, rest := lots + taken, left;
    }
  }

  /**
   * Every group kept reaches 80% of the minimum area, and a triangle that
   * alone reaches the minimum is kept as it is.
   */
  lemma {:induction false} GroupsReachTolerance<T>(rest: seq<T>, minArea: real,
                                                   area: T -> real, touches: (T, T) -> bool, union: (T, T) -> T)
    requires minArea >= 0.0
    ensures forall g :: g in Group(rest, minArea, area, touches, union) ==> area(g) >= minArea * 0.8
    ensures |Group(rest, minArea, area, touches, union)| <= |rest|
    ensures rest != [] && area(rest[0]) >= minArea ==>
              Group(rest, minArea, area, touches, union)[0] == rest[0]
    decreases |rest|
  {
    if rest != [] {
      if area(rest[0]) >= minArea {
        GroupsReachTolerance(rest[1..], minArea, area, touches, union);
      } else {
        var (g, left) := Absorb(rest[0], rest[1..], 0, minArea, area, touches, union);
        GroupsReachTolerance(left, minArea, area, touches, union);
      }
    }
  }

  /**
   * The skip caused by popping while enumerating.  With areas [1, 1, 5, 1],
   * everything touching and union adding areas, a minimum of 6: the first
   * triangle absorbs the second, the pop shifts 5 into the examined slot's
   * predecessor, so 5 is skipped and the last 1 is merged instead; the group of
   * 3 is below 4.8 and is dropped, and 5 alone becomes the only lot.  Scanning
   * every remaining triangle would have merged 1 + 1 + 5 = 7.
   */
  lemma PopWhileEnumeratingSkips()
    ensures Group([1.0, 1.0, 5.0, 1.0], 6.0, (x: real) => x, (x: real, y: real) => true, (x: real, y: real) => x + y) == [5.0]
  {
    var area := (x: real) => x;
    var touches := (x: real, y: real) => true;
    var union := (x: real, y: real) => x + y;
    assert SumOfParts(area, touches, union);
    AbsorbSkips(area, touches, union);
    var s := [1.0, 1.0, 5.0, 1.0];
    assert s[1..] == [1.0, 5.0, 1.0];
    GroupMerges(s, 6.0, area, touches, union, 3.0, [5.0]);
    assert [5.0][1..] == [];
    GroupMerges([5.0], 6.0, area, touches, union, 5.0, []);
  }

  /** The pieces of the list example: a piece's area is its number, all touch, and union adds. */
  ghost predicate SumOfParts(area: real -> real, touches: (real, real) -> bool, union: (real, real) -> real)
  {
    (forall x :: area(x) == x) && (forall x, y :: touches(x, y)) && (forall x, y :: union(x, y) == x + y)
  }

  /**
   * The first piece absorbs the second (now at index 0), the loop index moves
   * to 1 and skips the 5.0 there, absorbs the last piece, and stops at a total
   * of 3.0 with only 5.0 left.
   */
  lemma AbsorbSkips(area: real -> real, touches: (real, real) -> bool, union: (real, real) -> real)
    requires SumOfParts(area, touches, union)
    ensures Absorb(1.0, [1.0, 5.0, 1.0], 0, 6.0, area, touches, union) == (3.0, [5.0])
  {
    assert RemoveAt([1.0, 5.0, 1.0], 0) == [5.0, 1.0];
    assert Absorb(1.0, [1.0, 5.0, 1.0], 0, 6.0, area, touches, union) == Absorb(2.0, [5.0, 1.0], 1, 6.0, area, touches, union);
    assert RemoveAt([5.0, 1.0], 1) == [5.0];
    assert Absorb(2.0, [5.0, 1.0], 1, 6.0, area, touches, union) == Absorb(3.0, [5.0], 2, 6.0, area, touches, union);
  }
}
