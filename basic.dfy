/**
 * The first processor (loteamento_processor.py): one pass per stage, each
 * appending to the processor's lists.  The perimeter is eroded by the road
 * half-width (one retry at 80%), an axis is chosen (a named orientation or the
 * direction of the longest edge), two families of lines are cut every
 * `profundidade_max_quadra`, each block is fronted on its longest side with
 * lots of the standard width, and blocks whose lots cover little of them
 * become green or institutional areas.
 *
 * The options are taken as given (this processor does not clean them).  Every
 * geometry call a stage makes is a function parameter of that stage.
 */
module Basic {
  import opened Geometry
  import opened ParamCleaning
  import opened Selection
  import Advanced

  /* ---------- internalisation ---------- */

  /** The inward offset: half the road plus both sidewalks. */
  function InwardOffset(road: real, sidewalk: real): real
  {
    (road + 2.0 * sidewalk) / 2.0
  }

  predicate Usable(g: Shape)
  {
    g.valid && !g.empty
  }

  /**
   * `internalizar_perimetro`: erode by the offset; an invalid or empty result
   * is replaced by one erosion at 80% of the offset, which is kept whatever it
   * is.  `erode(d)` is the original perimeter buffered by -d.
   */
  function BasicInternal(erode: real -> Shape, road: real, sidewalk: real): (r: Shape)
    ensures var d := InwardOffset(road, sidewalk);
      r == erode(d) || r == erode(0.8 * d)
    ensures Usable(erode(InwardOffset(road, sidewalk))) ==> r == erode(InwardOffset(road, sidewalk))
    ensures !Usable(erode(InwardOffset(road, sidewalk))) ==> r == erode(0.8 * InwardOffset(road, sidewalk))
  {
    var d := InwardOffset(road, sidewalk);
    var first := erode(d);
    if !first.valid || first.empty then erode(d * 0.8) else first
  }

  /** The retry is not checked: an unusable second erosion is still the result. */
  lemma InternalRetryUnchecked(erode: real -> Shape, road: real, sidewalk: real)
    requires !Usable(erode(InwardOffset(road, sidewalk)))
    requires !Usable(erode(0.8 * InwardOffset(road, sidewalk)))
    ensures !Usable(BasicInternal(erode, road, sidewalk))
  {
  }

  /* ---------- the principal axis ---------- */

  /**
   * An angle: `PiTimes(k)` is k·π radians; `Along(dx, dy)` is `atan2(dy, dx)`,
   * the direction of an edge (the arctangent itself is not modelled).
   */
  datatype Axis = PiTimes(k: real) | Along(dx: real, dy: real)

  /** The named orientations; an unknown name is 0 radians.  None is the automatic choice. */
  function OrientationOf(l: Label): (a: Option<Axis>)
    ensures a.Some? ==> a.value.PiTimes? && 0.0 <= a.value.k < 1.0
    ensures a.None? <==> l == Literal("Automática")
  {
    if l == Literal("Automática") then None
    else if l == Literal("Norte-Sul") then Some(PiTimes(0.0))
    else if l == Literal("Leste-Oeste") then Some(PiTimes(0.5))
    else if l == Literal("Nordeste-Sudoeste") then Some(PiTimes(0.25))
    else if l == Literal("Noroeste-Sudeste") then Some(PiTimes(0.75))
    else Some(PiTimes(0.0))
  }

  /** The orientation table, and the default for any other name. */
  lemma OrientationTable(s: string)
    ensures OrientationOf(Literal("Norte-Sul")) == Some(PiTimes(0.0))
    ensures OrientationOf(Literal("Leste-Oeste")) == Some(PiTimes(0.5))
    ensures OrientationOf(Literal("Nordeste-Sudoeste")) == Some(PiTimes(0.25))
    ensures OrientationOf(Literal("Noroeste-Sudeste")) == Some(PiTimes(0.75))
    ensures s !in {"Automática", "Norte-Sul", "Leste-Oeste", "Nordeste-Sudoeste", "Noroeste-Sudeste"} ==>
              OrientationOf(Literal(s)) == Some(PiTimes(0.0))
  {
  }

  /** Length of edge i of a ring (from vertex i to the next, the last closing on the first), by `len`. */
  function EdgeLength(ring: seq<Point>, len: (Point, Point) -> real, i: nat): real
    requires i < |ring|
  {
    len(ring[i], ring[(i + 1) % |ring|])
  }

  /** The best edge so far and its length (`max_length`, starting at 0). */
  datatype Longest = Longest(best: Option<nat>, max: real)

  /**
   * The scan of the first k edges that keeps an edge only when it is strictly
   * longer than the longest so far.  The result is the first of the longest
   * edges, or none when no edge is longer than 0.
   */
  function FirstLongest(ring: seq<Point>, len: (Point, Point) -> real, k: nat): (r: Longest)
    requires k <= |ring|
    ensures r.best.None? ==> r.max == 0.0 && forall i :: 0 <= i < k ==> EdgeLength(ring, len, i) <= 0.0
    ensures r.best.Some? ==> && r.best.value < k && r.max == EdgeLength(ring, len, r.best.value) && r.max > 0.0
                             && (forall i :: 0 <= i < k ==> EdgeLength(ring, len, i) <= r.max)
                             && (forall i :: 0 <= i < r.best.value ==> EdgeLength(ring, len, i) < r.max)
  {
    if k == 0 then Longest(None, 0.0)
    else
      var r := FirstLongest(ring, len, k - 1);
      var l := EdgeLength(ring, len, k - 1);
      if l > r.max then Longest(Some(k - 1), l) else r
  }

  /** The loop over the edges of a ring that tracks the longest one. */
  method LongestEdge(ring: seq<Point>, len: (Point, Point) -> real) returns (r: Longest)
    ensures r == FirstLongest(ring, len, |ring|)
  {
    r := Longest(None, 0.0);
    for i := 0 to |ring|
      invariant r == FirstLongest(ring, len, i)
    {
      var length := len(ring[i], ring[(i + 1) % |ring|]);
      if length > r.max {
        r := Longest(Some(i), length);
      }
    }
  }

  /** Square of the Euclidean length; comparing squares orders edges as their lengths do. */
  function SquaredLength(p: Point, q: Point): real
  {
    (q.x - p.x) * (q.x - p.x) + (q.y - p.y) * (q.y - p.y)
  }

  /** The automatic axis: the direction of the first longest edge, 0 radians with no edge. */
  function AutoAxis(ring: seq<Point>): Axis
  {
    match FirstLongest(ring, SquaredLength, |ring|).best
    case None => PiTimes(0.0)
    case Some(j) => Along(ring[(j + 1) % |ring|].x - ring[j].x, ring[(j + 1) % |ring|].y - ring[j].y)
  }

  /** `definir_eixo_principal`: a named orientation, or the automatic axis of the internal perimeter. */
  function AxisOf(l: Label, ring: seq<Point>): Axis
  {
    match OrientationOf(l)
    case Some(a) => a
    case None => AutoAxis(ring)
  }

  /** Edge j is longer than 0, at least as long as every edge and strictly longer than every earlier one. */
  predicate IsFirstLongest(ring: seq<Point>, len: (Point, Point) -> real, j: nat)
  {
    && j < |ring|
    && EdgeLength(ring, len, j) > 0.0
    && (forall i :: 0 <= i < |ring| ==> EdgeLength(ring, len, i) <= EdgeLength(ring, len, j))
    && (forall i :: 0 <= i < j ==> EdgeLength(ring, len, i) < EdgeLength(ring, len, j))
  }

  /** No edge of the ring is longer than 0. */
  predicate NoPositiveEdge(ring: seq<Point>, len: (Point, Point) -> real)
  {
    forall i :: 0 <= i < |ring| ==> EdgeLength(ring, len, i) <= 0.0
  }

  /**
   * The automatic axis runs along an edge that is at least as long as every
   * other and strictly longer than every earlier one; with no edge of
   * positive length it is 0 radians.
   */
  lemma AutoAxisMeaning(ring: seq<Point>)
    ensures AutoAxis(ring).Along? ==>
      exists j: nat :: IsFirstLongest(ring, SquaredLength, j)
        && AutoAxis(ring) == Along(ring[(j + 1) % |ring|].x - ring[j].x, ring[(j + 1) % |ring|].y - ring[j].y)
    ensures AutoAxis(ring).PiTimes? ==> AutoAxis(ring) == PiTimes(0.0) && NoPositiveEdge(ring, SquaredLength)
  {
    var r := FirstLongest(ring, SquaredLength, |ring|);
    if r.best.Some? {
      var j := r.best.value;
      assert IsFirstLongest(ring, SquaredLength, j);
    } else {
      assert NoPositiveEdge(ring, SquaredLength);
    }
  }

  /* ---------- road lines ---------- */

  /**
   * The line counts of `criar_malha_viaria`: the extent over the block depth,
   * truncated, plus one, for the longer and the shorter side.  A positive
   * depth gives at least one line count per family, the longer side's count
   * the larger; a negative depth gives counts of at most 1, the longer
   * side's the smaller.
   */
  function LineCounts(width: real, height: real, depth: real): (r: (int, int))
    requires depth != 0.0
    ensures width >= 0.0 && height >= 0.0 && depth > 0.0 ==> r.0 >= r.1 >= 1
    ensures width >= 0.0 && height >= 0.0 && depth < 0.0 ==> r.0 <= r.1 <= 1
  {
    var hi, lo := MaxReal(width, height), MinReal(width, height);
    if depth > 0.0 then
      DivMonotone(hi, lo, depth);
      (Trunc(hi / depth) + 1, Trunc(lo / depth) + 1)
    else
      DivAntitone(hi, lo, depth);
      TruncMonotone(hi / depth, lo / depth);
      (Trunc(hi / depth) + 1, Trunc(lo / depth) + 1)
  }

  lemma DivAntitone(a: real, b: real, d: real)
    requires a >= b && d < 0.0
    ensures a / d <= b / d
    ensures b >= 0.0 ==> b / d <= 0.0
  {
    DivMonotone(a, b, -d);
    assert a / d == -(a / -d) && b / d == -(b / -d);
  }

  lemma TruncMonotone(x: real, y: real)
    requires x <= y
    ensures Trunc(x) <= Trunc(y)
  {
  }

  lemma DivMonotone(a: real, b: real, d: real)
    requires a >= b && d > 0.0
    ensures a / d >= b / d
    ensures b >= 0.0 ==> b / d >= 0.0
  {
    assert (a / d) * d == a && (b / d) * d == b;
  }

  lemma MulMonotone(a: real, b: real, d: real)
    requires a <= b && d > 0.0
    ensures a * d <= b * d
  {
  }

  lemma MulStrict(a: real, b: real, d: real)
    requires a < b && d > 0.0
    ensures a * d < b * d
  {
  }

  /**
   * The offsets i·D of a family run over i = 0 .. count: the one before last
   * lies within the extent and the last one beyond it.
   */
  lemma LineCountsSpan(width: real, height: real, depth: real)
    requires depth > 0.0 && width >= 0.0 && height >= 0.0
    ensures var (p, q) := LineCounts(width, height, depth);
      && (p - 1) as real * depth <= MaxReal(width, height) < p as real * depth
      && (q - 1) as real * depth <= MinReal(width, height) < q as real * depth
  {
    SpanOf(MaxReal(width, height), depth);
    SpanOf(MinReal(width, height), depth);
  }

  lemma SpanOf(extent: real, depth: real)
    requires depth > 0.0 && extent >= 0.0
    ensures var n := Trunc(extent / depth) + 1;
      (n - 1) as real * depth <= extent < n as real * depth
  {
    var q := extent / depth;
    DivMonotone(extent, 0.0, depth);
    var n := Trunc(q);
    assert n as real <= q < (n + 1) as real;
    Scale(n as real, q, (n + 1) as real, depth, extent);
  }

  /** a <= q < b scaled by a positive d, with q·d = e. */
  lemma Scale(a: real, q: real, b: real, d: real, e: real)
    requires a <= q < b && d > 0.0 && e == q * d
    ensures a * d <= e < b * d
  {
    MulMonotone(a, q, d);
    MulStrict(q, b, d);
  }

  /**
   * The first k lines of a family at offsets i·D.  `clip(axis, parallel, offset)`
   * is the intersection of the line with the internal perimeter when the line
   * meets it and the intersection is a single line, None otherwise.
   */
  function FamilyLines(clip: (Axis, bool, real) -> Option<Shape>, axis: Axis, parallel: bool, depth: real, k: nat)
    : (ls: seq<Shape>)
    ensures |ls| <= k
  {
    if k == 0 then []
    else
      var c := clip(axis, parallel, (k - 1) as real * depth);
      FamilyLines(clip, axis, parallel, depth, k - 1) + (if c.Some? then [c.value] else [])
  }

  /** One family's loop: `for i in range(count + 1)`. */
  method DrawFamily(clip: (Axis, bool, real) -> Option<Shape>, axis: Axis, parallel: bool, depth: real, count: int)
    returns (ls: seq<Shape>)
    ensures ls == FamilyLines(clip, axis, parallel, depth, MaxInt(0, count + 1))
  {
    ls := [];
    for i := 0 to MaxInt(0, count + 1)
      invariant ls == FamilyLines(clip, axis, parallel, depth, i)
    {
      var c := clip(axis, parallel, i as real * depth);
      assert ((i + 1) - 1) as real * depth == i as real * depth;
      assert FamilyLines(clip, axis, parallel, depth, i + 1) == ls + (if c.Some? then [c.value] else []);
      if c.Some? {
        ls := ls + [c.value];
      }
    }
  }

  /**
   * The lines of `criar_malha_viaria`: the parallel family, then the
   * perpendicular one.  A depth of 0 raises ZeroDivisionError in the counts,
   * before any line is drawn (None).
   */
  function RoadLines(b: Box, depth: real, axis: Axis, clip: (Axis, bool, real) -> Option<Shape>): Option<seq<Shape>>
  {
    if depth == 0.0 then None
    else
      var (p, q) := LineCounts(b.Width(), b.Height(), depth);
      Some(FamilyLines(clip, axis, true, depth, MaxInt(0, p + 1)) + FamilyLines(clip, axis, false, depth, MaxInt(0, q + 1)))
  }

  /** `criar_malha_viaria` without the storing: the parallel family, then the perpendicular one, or None when it raises. */
  method DrawRoadLines(b: Box, depth: real, axis: Axis, clip: (Axis, bool, real) -> Option<Shape>)
    returns (lines: Option<seq<Shape>>)
    ensures lines == RoadLines(b, depth, axis, clip)
  {
    if depth == 0.0 {
      return None;
    }
    var (parallelCount, perpendicularCount) := LineCounts(b.Width(), b.Height(), depth);
    var parallel := DrawFamily(clip, axis, true, depth, parallelCount);
    var perpendicular := DrawFamily(clip, axis, false, depth, perpendicularCount);
    lines := Some(parallel + perpendicular);
  }

  /**
   * Only a depth of 0 raises; otherwise there are at most count + 1 lines
   * per family, and no line at all for a deep negative depth that makes
   * both counts below 0.
   */
  lemma RoadLinesBound(b: Box, depth: real, axis: Axis, clip: (Axis, bool, real) -> Option<Shape>)
    ensures RoadLines(b, depth, axis, clip).None? <==> depth == 0.0
    ensures depth != 0.0 ==>
      var (p, q) := LineCounts(b.Width(), b.Height(), depth);
      && |RoadLines(b, depth, axis, clip).value| <= MaxInt(0, p + 1) + MaxInt(0, q + 1)
      && (p < 0 && q < 0 ==> RoadLines(b, depth, axis, clip).value == [])
    ensures depth > 0.0 && b.Width() >= 0.0 && b.Height() >= 0.0 ==>
      var (p, q) := LineCounts(b.Width(), b.Height(), depth);
      |RoadLines(b, depth, axis, clip).value| <= p + q + 2
  {
  }

  /* ---------- lots ---------- */

  /** The point at fraction t of the segment pq (`interpolate(t, normalized=True)`). */
  function Interpolate(p: Point, q: Point, t: real): (r: Point)
    ensures t == 0.0 ==> r == p
    ensures t == 1.0 ==> r == q
  {
    Point(p.x + t * (q.x - p.x), p.y + t * (q.y - p.y))
  }

  /**
   * The lot polygon on the front from `s` to `e`, extended inward by a depth
   * (the perpendicular needs a square root and is left to the library).
   */
  type Quad = (Point, Point, real) -> Shape

  /** The acceptance test: inside the block, of the minimum area, and a lot width of the minimum frontage. */
  predicate Accepted(lot: Shape, block: Shape, within: (Shape, Shape) -> bool, width: real, o: Options)
  {
    within(lot, block) && lot.area >= o.minLotArea && width >= o.minFrontage
  }

  /**
   * The first k lots along the front from p to q, cut into n equal pieces;
   * a piece of zero length (`length > 0` fails) gives no lot.
   */
  function FrontLots(quad: Quad, within: (Shape, Shape) -> bool, block: Shape, p: Point, q: Point,
                     n: int, width: real, depth: real, o: Options, k: nat): (lots: seq<Shape>)
    requires n >= 1
    ensures |lots| <= k
    ensures forall lot :: lot in lots ==> Accepted(lot, block, within, width, o)
  {
    if k == 0 then []
    else
      var s := Interpolate(p, q, Fraction(k - 1, n));
      var e := Interpolate(p, q, Fraction(k, n));
      var lot := quad(s, e, depth);
      FrontLots(quad, within, block, p, q, n, width, depth, o, k - 1)
        + (if s != e && Accepted(lot, block, within, width, o) then [lot] else [])
  }

  /** The loop over the lots of one front. */
  method CreateFrontLots(quad: Quad, within: (Shape, Shape) -> bool, block: Shape, p: Point, q: Point,
                         n: int, width: real, depth: real, o: Options) returns (lots: seq<Shape>)
    requires n >= 1
    ensures lots == FrontLots(quad, within, block, p, q, n, width, depth, o, n)
  {
    lots := [];
    for i := 0 to n
      invariant lots == FrontLots(quad, within, block, p, q, n, width, depth, o, i)
    {
      var s := Interpolate(p, q, i as real / n as real);
      var e := Interpolate(p, q, (i + 1) as real / n as real);
      if s != e {
        var lot := quad(s, e, depth);
        if within(lot, block) && lot.area >= o.minLotArea && width >= o.minFrontage {
          lots := lots + [lot];
        }
      }
    }
  }

  /**
   * The lots of one block: none for an empty block or one under the minimum
   * area, none when the block shrunk by 2 m is empty or no side has positive
   * length.  Otherwise the front is the first longest side, cut by the count
   * rule, and the lots are as deep as the standard depth or the height of the
   * shrunk block, whichever is less.  A standard lot width of 0 raises
   * ZeroDivisionError there (None).  `shrink` buffers by -2 and `dist` is the
   * distance between two points.
   */
  function BlockLots(block: Shape, o: Options, shrink: Shape -> Shape, dist: (Point, Point) -> real,
                     quad: Quad, within: (Shape, Shape) -> bool): Option<seq<Shape>>
  {
    if block.empty || block.area < o.minLotArea then Some([])
    else
      var inner := shrink(block);
      if inner.empty then Some([])
      else
        var side := FirstLongest(block.ring, dist, |block.ring|);
        match side.best
        case None => Some([])
        case Some(j) =>
          SideLots(block, block.ring[j], block.ring[(j + 1) % |block.ring|], side.max,
                   MinReal(o.lotDepth, inner.bounds.Height()), o, quad, within)
  }

  /** The block gets as far as cutting its front: it is kept, its shrunk copy is not empty and a side is longer than 0. */
  predicate ReachesFront(block: Shape, o: Options, shrink: Shape -> Shape, dist: (Point, Point) -> real)
  {
    && !block.empty && block.area >= o.minLotArea
    && !shrink(block).empty
    && FirstLongest(block.ring, dist, |block.ring|).best.Some?
  }

  /**
   * The lots on a front from p to q of the given length: the count rule,
   * then one lot per piece.  A standard width of 0 raises (None).  Otherwise
   * there are at most as many lots as the count, the lot widths fill the
   * front exactly, lots are only made at least the minimum frontage wide,
   * and each lies within the block with the minimum area.
   */
  function SideLots(block: Shape, p: Point, q: Point, length: real, depth: real, o: Options,
                    quad: Quad, within: (Shape, Shape) -> bool): (lots: Option<seq<Shape>>)
    requires length > 0.0
    ensures lots.None? <==> o.lotWidth == 0.0
    ensures lots.Some? ==>
      var (n, width) := Advanced.BorderCount(length, o.lotWidth, o.minFrontage).value;
      && n >= 1 && |lots.value| <= n && n as real * width == length
      && (lots.value != [] ==> width >= o.minFrontage)
      && forall lot :: lot in lots.value ==> within(lot, block) && lot.area >= o.minLotArea
  {
    Advanced.BorderCountMeaning(length, o.lotWidth, o.minFrontage);
    match Advanced.BorderCount(length, o.lotWidth, o.minFrontage)
    case None => None
    case Some((n, width)) =>
      var lots := FrontLots(quad, within, block, p, q, n, width, depth, o, n);
      assert lots != [] ==> Accepted(lots[0], block, within, width, o);
      Some(lots)
  }

  /**
   * A negative standard width does not raise: `int(L/w)` is at most 0, so
   * the front is one lot as long as the front itself.
   */
  lemma NegativeWidthSingleLot(block: Shape, p: Point, q: Point, length: real, depth: real, o: Options,
                               quad: Quad, within: (Shape, Shape) -> bool)
    requires length > 0.0 && o.lotWidth < 0.0
    ensures Advanced.BorderCount(length, o.lotWidth, o.minFrontage) == Some((1, length))
    ensures var lots := SideLots(block, p, q, length, depth, o, quad, within);
      lots.Some? && |lots.value| <= 1 && (lots.value != [] ==> length >= o.minFrontage)
  {
    assert length / o.lotWidth < 0.0;
    assert MaxInt(1, Trunc(length / o.lotWidth)) == 1;
    if length < o.minFrontage {
      var r := length / o.minFrontage;
      assert r * o.minFrontage == length;
      if r >= 1.0 {
        MulMonotone(1.0, r, o.minFrontage);
      }
      assert 0.0 < r < 1.0;
    }
  }

  /**
   * A block that is empty, under the minimum area, empty once shrunk or
   * without a side of positive length gives no lot.  A block that gets to
   * its front raises exactly when the standard width is 0, and otherwise
   * every lot lies within the block and has the minimum area.
   */
  lemma BlockLotsAccepted(block: Shape, o: Options, shrink: Shape -> Shape, dist: (Point, Point) -> real,
                          quad: Quad, within: (Shape, Shape) -> bool)
    ensures !ReachesFront(block, o, shrink, dist) ==> BlockLots(block, o, shrink, dist, quad, within) == Some([])
    ensures BlockLots(block, o, shrink, dist, quad, within).None?
            <==> ReachesFront(block, o, shrink, dist) && o.lotWidth == 0.0
    ensures BlockLots(block, o, shrink, dist, quad, within).Some? ==>
              forall lot :: lot in BlockLots(block, o, shrink, dist, quad, within).value ==>
                within(lot, block) && lot.area >= o.minLotArea
  {
  }

  /**
   * A block with lots is fronted on its first longest side, a side of
   * positive length at least as long as every other.
   */
  lemma BlockLotsFront(block: Shape, o: Options, shrink: Shape -> Shape, dist: (Point, Point) -> real,
                       quad: Quad, within: (Shape, Shape) -> bool)
    requires BlockLots(block, o, shrink, dist, quad, within) != Some([])
    ensures var side := FirstLongest(block.ring, dist, |block.ring|);
      && side.best.Some? && side.max > 0.0
      && (forall i :: 0 <= i < |block.ring| ==> EdgeLength(block.ring, dist, i) <= side.max)
      && BlockLots(block, o, shrink, dist, quad, within)
         == SideLots(block, block.ring[side.best.value], block.ring[(side.best.value + 1) % |block.ring|], side.max,
                     MinReal(o.lotDepth, shrink(block).bounds.Height()), o, quad, within)
  {
  }

  /** The count rule and the lot loop of one front; None when the standard width is 0. */
  method CreateSideLots(block: Shape, p: Point, q: Point, length: real, depth: real, o: Options,
                        quad: Quad, within: (Shape, Shape) -> bool) returns (lots: Option<seq<Shape>>)
    requires length > 0.0
    ensures lots == SideLots(block, p, q, length, depth, o, quad, within)
  {
    if o.lotWidth == 0.0 {
      return None;
    }
    var n := MaxInt(1, Trunc(length / o.lotWidth));
    var width := length / n as real;
    if width < o.minFrontage {
      n := MaxInt(1, Trunc(length / o.minFrontage));
      width := length / n as real;
    }
    assert Advanced.BorderCount(length, o.lotWidth, o.minFrontage) == Some((n, width));
    var front := CreateFrontLots(quad, within, block, p, q, n, width, depth, o);
    return Some(front);
  }

  /** One block's lots, as the loop body of `subdividir_quadras_em_lotes` computes them; None when it raises. */
  method CreateBlockLots(block: Shape, o: Options, shrink: Shape -> Shape, dist: (Point, Point) -> real,
                         quad: Quad, within: (Shape, Shape) -> bool) returns (lots: Option<seq<Shape>>)
    ensures lots == BlockLots(block, o, shrink, dist, quad, within)
  {
    if block.empty || block.area < o.minLotArea {
      return Some([]);
    }
    var inner := shrink(block);
    if inner.empty {
      return Some([]);
    }
    var side := LongestEdge(block.ring, dist);
    if side.best.None? {
      return Some([]);
    }
    var j := side.best.value;
    lots := CreateSideLots(block, block.ring[j], block.ring[(j + 1) % |block.ring|], side.max,
                           MinReal(o.lotDepth, inner.bounds.Height()), o, quad, within);
  }

  /** The lots of the first k blocks, in block order, up to a block that raises. */
  function AllBlockLots(blocks: seq<Shape>, o: Options, shrink: Shape -> Shape, dist: (Point, Point) -> real,
                        quad: Quad, within: (Shape, Shape) -> bool, k: nat): Run
    requires k <= |blocks|
  {
    if k == 0 then Run([], false)
    else Next(AllBlockLots(blocks, o, shrink, dist, quad, within, k - 1), BlockLots(blocks[k - 1], o, shrink, dist, quad, within))
  }

  lemma AllBlockLotsNext(blocks: seq<Shape>, o: Options, shrink: Shape -> Shape, dist: (Point, Point) -> real,
                         quad: Quad, within: (Shape, Shape) -> bool, k: nat)
    requires k < |blocks|
    ensures AllBlockLots(blocks, o, shrink, dist, quad, within, k + 1)
            == Next(AllBlockLots(blocks, o, shrink, dist, quad, within, k), BlockLots(blocks[k], o, shrink, dist, quad, within))
  {
  }

  /** Once a block raises, the later blocks are not processed. */
  lemma {:induction false} RaisedStays(blocks: seq<Shape>, o: Options, shrink: Shape -> Shape,
                                       dist: (Point, Point) -> real, quad: Quad, within: (Shape, Shape) -> bool,
                                       j: nat, k: nat)
    requires j <= k <= |blocks| && AllBlockLots(blocks, o, shrink, dist, quad, within, j).raised
    ensures AllBlockLots(blocks, o, shrink, dist, quad, within, k) == AllBlockLots(blocks, o, shrink, dist, quad, within, j)
    decreases k
  {
    if k > j {
      RaisedStays(blocks, o, shrink, dist, quad, within, j, k - 1);
      AllBlockLotsNext(blocks, o, shrink, dist, quad, within, k - 1);
    }
  }

  /** The loop over the blocks, stopping at the first that raises. */
  method CreateAllLots(blocks: seq<Shape>, o: Options, shrink: Shape -> Shape, dist: (Point, Point) -> real,
                       quad: Quad, within: (Shape, Shape) -> bool) returns (run: Run)
    ensures run == AllBlockLots(blocks, o, shrink, dist, quad, within, |blocks|)
  {
    run := Run([], false);
    for k := 0 to |blocks|
      invariant run == AllBlockLots(blocks, o, shrink, dist, quad, within, k) && !run.raised
    {
      var more := CreateBlockLots(blocks[k], o, shrink, dist, quad, within);
      AllBlockLotsNext(blocks, o, shrink, dist, quad, within, k);
      if more.None? {
        run := Run(run.lots, true);
        RaisedStays(blocks, o, shrink, dist, quad, within, k + 1, |blocks|);
        return;
      }
      run := Run(run.lots + more.value, false);
    }
  }

  /**
   * Every lot of every block has the minimum area and lies within some
   * block; the run raises exactly when the standard width is 0 and some
   * block gets as far as its front.
   */
  lemma AllBlockLotsMeaning(blocks: seq<Shape>, o: Options, shrink: Shape -> Shape,
                            dist: (Point, Point) -> real, quad: Quad,
                            within: (Shape, Shape) -> bool, k: nat)
    requires k <= |blocks|
    ensures forall lot :: lot in AllBlockLots(blocks, o, shrink, dist, quad, within, k).lots ==>
              lot.area >= o.minLotArea && exists i :: 0 <= i < k && within(lot, blocks[i])
    ensures AllBlockLots(blocks, o, shrink, dist, quad, within, k).raised
            <==> o.lotWidth == 0.0 && exists i :: 0 <= i < k && ReachesFront(blocks[i], o, shrink, dist)
  {
    AllLotsFit(blocks, o, shrink, dist, quad, within, k);
    AllLotsRaised(blocks, o, shrink, dist, quad, within, k);
  }

  lemma {:induction false} AllLotsFit(blocks: seq<Shape>, o: Options, shrink: Shape -> Shape,
                                      dist: (Point, Point) -> real, quad: Quad,
                                      within: (Shape, Shape) -> bool, k: nat)
    requires k <= |blocks|
    ensures forall lot :: lot in AllBlockLots(blocks, o, shrink, dist, quad, within, k).lots ==>
              lot.area >= o.minLotArea && exists i :: 0 <= i < k && within(lot, blocks[i])
  {
    if k > 0 {
      AllLotsFit(blocks, o, shrink, dist, quad, within, k - 1);
      var prev := AllBlockLots(blocks, o, shrink, dist, quad, within, k - 1);
      var more := BlockLots(blocks[k - 1], o, shrink, dist, quad, within);
      AllBlockLotsNext(blocks, o, shrink, dist, quad, within, k - 1);
      BlockLotsAccepted(blocks[k - 1], o, shrink, dist, quad, within);
      if !prev.raised && more.Some? {
        forall lot | lot in prev.lots + more.value
          ensures lot.area >= o.minLotArea && exists i :: 0 <= i < k && within(lot, blocks[i])
        {
          if lot !in prev.lots {
            assert within(lot, blocks[k - 1]);
          }
        }
      }
    }
  }

  lemma {:induction false} AllLotsRaised(blocks: seq<Shape>, o: Options, shrink: Shape -> Shape,
                                         dist: (Point, Point) -> real, quad: Quad,
                                         within: (Shape, Shape) -> bool, k: nat)
    requires k <= |blocks|
    ensures AllBlockLots(blocks, o, shrink, dist, quad, within, k).raised
            <==> o.lotWidth == 0.0 && exists i :: 0 <= i < k && ReachesFront(blocks[i], o, shrink, dist)
  {
    if k > 0 {
      AllLotsRaised(blocks, o, shrink, dist, quad, within, k - 1);
      AllBlockLotsNext(blocks, o, shrink, dist, quad, within, k - 1);
      var prev := AllBlockLots(blocks, o, shrink, dist, quad, within, k - 1);
      var raises := BlockLots(blocks[k - 1], o, shrink, dist, quad, within).None?;
      assert raises <==> o.lotWidth == 0.0 && ReachesFront(blocks[k - 1], o, shrink, dist) by {
        BlockLotsAccepted(blocks[k - 1], o, shrink, dist, quad, within);
      }
      assert AllBlockLots(blocks, o, shrink, dist, quad, within, k).raised <==> prev.raised || raises;
      if raises {
        assert ReachesFront(blocks[k - 1], o, shrink, dist);
      }
    }
  }

  /* ---------- common areas ---------- */

  /** A block whose lots cover under the given share of it. */
  function CoverageBelow(lots: seq<Shape>, within: (Shape, Shape) -> bool, share: real): Shape -> bool
  {
    (q: Shape) => CoveredArea(q, lots, within) < q.area * share
  }

  /** A block not already green whose lots cover under 30% of it. */
  function FreeBelow(green: seq<Shape>, lots: seq<Shape>, within: (Shape, Shape) -> bool): Shape -> bool
  {
    (q: Shape) => q !in green && CoveredArea(q, lots, within) < q.area * 0.3
  }

  /** The green loop: blocks under 50% coverage, in block order, until the need is met. */
  function GreenFor(blocks: seq<Shape>, lots: seq<Shape>, within: (Shape, Shape) -> bool, need: real): seq<Shape>
  {
    Greedy(Filter(blocks, CoverageBelow(lots, within, 0.5)), need, 0.0)
  }

  /** The institutional loop: blocks not green and under 30% coverage, in block order, until the need is met. */
  function InstitutionalFor(blocks: seq<Shape>, lots: seq<Shape>, within: (Shape, Shape) -> bool,
                            green: seq<Shape>, need: real): seq<Shape>
  {
    Greedy(Filter(blocks, FreeBelow(green, lots, within)), need, 0.0)
  }

  /**
   * Green takes, in block order, blocks whose lots cover under half of
   * them, and stops once the need is met: nothing with no need, every block
   * but the last taken while below it, and all eligible blocks when the
   * need is never met.
   */
  lemma GreenMeaning(blocks: seq<Shape>, lots: seq<Shape>, within: (Shape, Shape) -> bool, need: real)
    ensures var g := GreenFor(blocks, lots, within, need);
      && Subsequence(g, blocks)
      && (forall q :: q in g ==> CoveredArea(q, lots, within) < q.area * 0.5)
      && (need <= 0.0 ==> g == [])
      && (g != [] ==> SumAreas(g[..|g| - 1]) < need)
      && (|g| < |Filter(blocks, CoverageBelow(lots, within, 0.5))| ==> SumAreas(g) >= need)
  {
    var p := CoverageBelow(lots, within, 0.5);
    GreedyFilterMeaning(blocks, p, need);
    forall q | q in GreenFor(blocks, lots, within, need) ensures CoveredArea(q, lots, within) < q.area * 0.5 {
      assert p(q);
    }
  }

  /**
   * Institutional takes, in block order, blocks that are not green and whose
   * lots cover under 30% of them, with the same stop at the need; so it
   * shares no block with green.
   */
  lemma InstitutionalMeaning(blocks: seq<Shape>, lots: seq<Shape>, within: (Shape, Shape) -> bool,
                             green: seq<Shape>, need: real)
    ensures var inst := InstitutionalFor(blocks, lots, within, green, need);
      && Subsequence(inst, blocks)
      && (forall q :: q in inst ==> q !in green && CoveredArea(q, lots, within) < q.area * 0.3)
      && (need <= 0.0 ==> inst == [])
      && (inst != [] ==> SumAreas(inst[..|inst| - 1]) < need)
      && (|inst| < |Filter(blocks, FreeBelow(green, lots, within))| ==> SumAreas(inst) >= need)
  {
    var p := FreeBelow(green, lots, within);
    GreedyFilterMeaning(blocks, p, need);
    forall q | q in InstitutionalFor(blocks, lots, within, green, need)
      ensures q !in green && CoveredArea(q, lots, within) < q.area * 0.3
    {
      assert p(q);
    }
  }

  /** The two loops of `alocar_areas_comuns`, over the blocks, with `green0` already green. */
  method Allocate(blocks: seq<Shape>, lots: seq<Shape>, within: (Shape, Shape) -> bool, green0: seq<Shape>,
                  needGreen: real, needInstitutional: real) returns (green: seq<Shape>, institutional: seq<Shape>)
    ensures green == GreenFor(blocks, lots, within, needGreen)
    ensures institutional == InstitutionalFor(blocks, lots, within, green0 + green, needInstitutional)
  {
    green := TakeEligible(blocks, CoverageBelow(lots, within, 0.5), needGreen);
    institutional := TakeEligible(blocks, FreeBelow(green0 + green, lots, within), needInstitutional);
  }

  /* ---------- statistics ---------- */

  datatype Statistics = Statistics(
    totalArea: real, lotCount: nat, lotArea: real, roadArea: real, greenArea: real, institutionalArea: real,
    lotPercent: real, roadPercent: real, greenPercent: real, institutionalPercent: real)

  /** `(part / total) * 100`, the percentages of the report. */
  function Percent(part: real, total: real): (r: real)
    requires total != 0.0
    ensures r * total == part * 100.0
  {
    PercentTimesTotal(part, total);
    (part / total) * 100.0
  }

  lemma PercentTimesTotal(part: real, total: real)
    requires total != 0.0
    ensures (part / total) * 100.0 * total == part * 100.0
  {
    assert (part / total) * total == part;
  }

  /**
   * The figures `processar_loteamento` reports.  The percentages divide by
   * the total area unguarded: a total of 0 raises, and the run reports a
   * failure (None).
   */
  function StatisticsOf(total: real, lots: seq<Shape>, roads: seq<Shape>, green: seq<Shape>,
                        institutional: seq<Shape>): (r: Option<Statistics>)
    ensures r.None? <==> total == 0.0
    ensures r.Some? ==> && r.value.lotCount == |lots| && r.value.lotArea == SumAreas(lots)
                        && r.value.roadArea == SumAreas(roads) && r.value.greenArea == SumAreas(green)
                        && r.value.institutionalArea == SumAreas(institutional)
                        && r.value.lotPercent == Percent(SumAreas(lots), total)
                        && r.value.roadPercent == Percent(SumAreas(roads), total)
                        && r.value.greenPercent == Percent(SumAreas(green), total)
                        && r.value.institutionalPercent == Percent(SumAreas(institutional), total)
  {
    if total == 0.0 then None
    else
      var l, r, g, i := SumAreas(lots), SumAreas(roads), SumAreas(green), SumAreas(institutional);
      Some(Statistics(total, |lots|, l, r, g, i, Percent(l, total), Percent(r, total), Percent(g, total), Percent(i, total)))
  }

  /* ---------- the processor ---------- */

  class BasicProcessor {
    var options: Options
    var original: Shape
    var internal: Shape
    var roadLines: seq<Shape>
    var roads: seq<Shape>
    var blocks: seq<Shape>
    var lots: seq<Shape>
    var green: seq<Shape>
    var institutional: seq<Shape>

    /** The processor over a loaded perimeter; the internal perimeter is the original until internalised. */
    constructor (o: Options, perimeter: Shape)
      ensures options == o && original == perimeter && internal == perimeter
      ensures roadLines == [] && roads == [] && blocks == [] && lots == [] && green == [] && institutional == []
    {
      options := o;
      original := perimeter;
      internal := perimeter;
      roadLines := [];
      roads := [];
      blocks := [];
      lots := [];
      green := [];
      institutional := [];
    }

    /** `internalizar_perimetro`; `erode(d)` buffers the original by -d. */
    method Internalize(erode: real -> Shape)
      modifies this`internal
      ensures internal == BasicInternal(erode, options.roadWidth, options.sidewalkWidth)
    {
      var offset := (options.roadWidth + 2.0 * options.sidewalkWidth) / 2.0;
      internal := erode(offset);
      if !internal.valid || internal.empty {
        offset := offset * 0.8;
        internal := erode(offset);
      }
    }

    /** `definir_eixo_principal`. */
    method PrincipalAxis() returns (axis: Axis)
      ensures axis == AxisOf(options.orientation, internal.ring)
    {
      var named := OrientationOf(options.orientation);
      if named.Some? {
        return named.value;
      }
      var ring := internal.ring;
      var longest := LongestEdge(ring, SquaredLength);
      if longest.best.None? {
        return PiTimes(0.0);
      }
      var j := longest.best.value;
      axis := Along(ring[(j + 1) % |ring|].x - ring[j].x, ring[(j + 1) % |ring|].y - ring[j].y);
    }

    /**
     * `criar_malha_viaria` along an axis: the clipped lines are added to the
     * road lines; a block depth of 0 raises before any line is added.
     */
    method CreateRoadGrid(axis: Axis, clip: (Axis, bool, real) -> Option<Shape>) returns (raised: bool)
      modifies this`roadLines
      ensures var r := RoadLines(internal.bounds, options.maxBlockDepth, axis, clip);
        && raised == r.None?
        && roadLines == old(roadLines) + (if r.Some? then r.value else [])
    {
      var lines := DrawRoadLines(internal.bounds, options.maxBlockDepth, axis, clip);
      if lines.None? {
        return true;
      }
      roadLines := roadLines + lines.value;
      raised := false;
    }

    /**
     * `dividir_em_quadras`: with road lines, the roads are their buffer and
     * the blocks the parts of the internal perimeter minus it (left as they
     * were when the difference is neither a MultiPolygon nor a non-empty
     * Polygon); with none, the internal perimeter is the one block.
     * `streets(lines, r)` buffers the union of the lines by r.
     */
    method DivideIntoBlocks(streets: (seq<Shape>, real) -> Shape, difference: (Shape, Shape) -> Shape,
                            geoms: Shape -> seq<Shape>)
      modifies this`roads, this`blocks
      ensures old(roadLines) == [] ==> blocks == [internal] && roads == old(roads)
      ensures old(roadLines) != [] ==>
        var buffer := streets(roadLines, options.roadWidth / 2.0);
        var rest := difference(internal, buffer);
        && roads == [buffer]
        && blocks == (if rest.kind == MultiPolygonKind || (IsPolygon(rest) && !rest.empty)
                      then Pieces(rest, geoms) else old(blocks))
    {
      if roadLines == [] {
        blocks := [internal];
        return;
      }
      var buffer := streets(roadLines, options.roadWidth / 2.0);
      var rest := difference(internal, buffer);
      roads := [buffer];
      if rest.kind == MultiPolygonKind {
        blocks := geoms(rest);
      } else if IsPolygon(rest) && !rest.empty {
        blocks := [rest];
      }
    }

    /**
     * `subdividir_quadras_em_lotes`: the lots of each block are added to the
     * lots, up to a block that raises ZeroDivisionError.
     */
    method SubdivideBlocks(shrink: Shape -> Shape, dist: (Point, Point) -> real, quad: Quad,
                           within: (Shape, Shape) -> bool) returns (raised: bool)
      modifies this`lots
      ensures var run := AllBlockLots(blocks, options, shrink, dist, quad, within, |blocks|);
        lots == old(lots) + run.lots && raised == run.raised
    {
      var run := CreateAllLots(blocks, options, shrink, dist, quad, within);
      lots := lots + run.lots;
      raised := run.raised;
    }

    /**
     * `alocar_areas_comuns`: the needs are percentages of the original area;
     * green blocks are chosen first, then institutional ones among the
     * blocks not green.
     */
    method AllocateCommonAreas(within: (Shape, Shape) -> bool)
      modifies this`green, this`institutional
      ensures green == old(green) + GreenFor(blocks, lots, within, Need(original.area, options.greenPercent))
      ensures institutional == old(institutional) + InstitutionalFor(blocks, lots, within, green,
                                 Need(original.area, options.institutionalPercent))
    {
      var needGreen := Need(original.area, options.greenPercent);
      var needInstitutional := Need(original.area, options.institutionalPercent);
      var moreGreen, moreInstitutional := Allocate(blocks, lots, within, green, needGreen, needInstitutional);
      green, institutional := green + moreGreen, institutional + moreInstitutional;
    }

    /** The statistics of the run. */
    function Report(): Option<Statistics>
      reads this
    {
      StatisticsOf(original.area, lots, roads, green, institutional)
    }
  }
}
