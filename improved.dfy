/**
 * The improved processor (`LoteamentoProcessorMelhorado`): the inward offset
 * retried at four shrinking distances, a grid of straight cut lines across
 * the internal perimeter with no cap on their number, blocks as the larger
 * parts of the perimeter minus the roads, each block cut into a grid of
 * rectangular lots facing its longer side, and the lightly used blocks
 * turned into green and institutional areas.
 */
module Improved {
  import opened Geometry
  import opened ParamCleaning
  import opened Selection
  import Robust
  import Basic

  /* ---------- internalisation ---------- */

  /** The factors the offset is scaled by, in order, after a first attempt at the full offset fails. */
  const Reductions: seq<real> := [0.8, 0.6, 0.4, 0.2]

  /** The five erosions tried: the full offset d, then d scaled by each reduction. */
  function Attempts(erode: real -> Shape, d: real): seq<Shape>
  {
    [erode(d), erode(d * 0.8), erode(d * 0.6), erode(d * 0.4), erode(d * 0.2)]
  }

  /**
   * The internal perimeter for offset d: the first attempt that is valid and
   * non-empty; when none is, the last one (at 0.2 d) is kept unusable.
   */
  function InternalAt(erode: real -> Shape, d: real): (r: Shape)
    ensures r in Attempts(erode, d)
    ensures var a := Attempts(erode, d);
      forall i :: 0 <= i < 5 && Basic.Usable(a[i]) && (forall j :: 0 <= j < i ==> !Basic.Usable(a[j])) ==> r == a[i]
    ensures (forall i :: 0 <= i < 5 ==> !Basic.Usable(Attempts(erode, d)[i])) ==> r == erode(d * 0.2)
  {
    var a := Attempts(erode, d);
    match FirstAccepted(a, Basic.Usable)
    case Some(i) => a[i]
    case None => a[4]
  }

  /** `internalizar_perimetro`: the offset is half the road plus both sidewalks. */
  function ImprovedInternal(erode: real -> Shape, road: real, sidewalk: real): Shape
  {
    InternalAt(erode, Basic.InwardOffset(road, sidewalk))
  }

  /** The retry loop: stops at the first valid, non-empty erosion. */
  method ShrinkUntilUsable(erode: real -> Shape, d: real) returns (r: Shape)
    ensures r == InternalAt(erode, d)
  {
    ghost var a := Attempts(erode, d);
    r := erode(d);
    if !r.valid || r.empty {
      var i := 0;
      while i < 4
        invariant 0 <= i <= 4
        invariant r == a[i]
        invariant forall j :: 0 <= j <= i ==> !Basic.Usable(a[j])
      {
        r := erode(d * Reductions[i]);
        assert r == a[i + 1];
        if r.valid && !r.empty {
          return;
        }
        i := i + 1;
      }
    }
  }

  /* ---------- road grid ---------- */

  /** Parts of an extent per block depth, at least one. */
  function LineCount(ext: real, depth: real): (n: int)
    requires depth != 0.0
    ensures n >= 1
  {
    MaxInt(1, Trunc(ext / depth))
  }

  /**
   * The count is the whole number of depths across the extent, with no
   * upper bound; it is one, and then no cut is drawn, exactly when the extent
   * is under twice the depth.
   */
  lemma LineCountMeaning(ext: real, depth: real)
    requires depth > 0.0 && ext >= 0.0
    ensures LineCount(ext, depth) == 1 <==> ext < 2.0 * depth
    ensures LineCount(ext, depth) >= 2 ==>
              LineCount(ext, depth) as real <= ext / depth < LineCount(ext, depth) as real + 1.0
  {
    var q := ext / depth;
    assert q * depth == ext;
    if ext < 2.0 * depth {
      assert q < 2.0;
    } else {
      assert q >= 2.0;
    }
  }

  /** Unlike the robust processor's grid, a wide perimeter gets more than ten parts. */
  lemma LineCountUncapped()
    ensures LineCount(1000.0, 10.0) == 100
  {
    assert 1000.0 / 10.0 == 100.0;
  }

  /**
   * `criar_malha_viaria_simples`: the vertical then the horizontal cut
   * lines across the bounds b of the internal perimeter; `clip` keeps the
   * intersection of a cut with the perimeter when it is a line of positive
   * length.
   */
  function RoadLines(b: Box, depth: real, clip: (bool, real) -> Option<Shape>): seq<Shape>
    requires depth != 0.0
  {
    var nv := LineCount(b.Width(), depth);
    var nh := LineCount(b.Height(), depth);
    Robust.CutLines(clip, true, b.minX, b.Width(), nv, nv) + Robust.CutLines(clip, false, b.minY, b.Height(), nh, nh)
  }

  /**
   * At most one line per inner cut each way, each the clip of a cut at
   * `min + i * ext / n` with 0 < i < n, and none across a direction under
   * twice the depth.
   */
  lemma RoadLinesMeaning(b: Box, depth: real, clip: (bool, real) -> Option<Shape>)
    requires depth > 0.0 && b.Width() >= 0.0 && b.Height() >= 0.0
    ensures var nv := LineCount(b.Width(), depth);
            var nh := LineCount(b.Height(), depth);
      && |RoadLines(b, depth, clip)| <= (nv - 1) + (nh - 1)
      && (forall l :: l in RoadLines(b, depth, clip) ==>
            (exists i :: 1 <= i < nv && clip(true, Robust.CutPosition(b.minX, b.Width(), nv, i)) == Some(l))
            || (exists i :: 1 <= i < nh && clip(false, Robust.CutPosition(b.minY, b.Height(), nh, i)) == Some(l)))
    ensures b.Width() < 2.0 * depth && b.Height() < 2.0 * depth ==> RoadLines(b, depth, clip) == []
  {
    var nv := LineCount(b.Width(), depth);
    var nh := LineCount(b.Height(), depth);
    LineCountMeaning(b.Width(), depth);
    LineCountMeaning(b.Height(), depth);
    Robust.CutLinesFacts(clip, true, b.minX, b.Width(), nv, nv);
    Robust.CutLinesFacts(clip, false, b.minY, b.Height(), nh, nh);
  }

  /* ---------- blocks ---------- */

  /** Parts of the difference at or under this area are dropped. */
  const MinBlockArea: real := 100.0

  function LargerThanMinimum(g: Shape): bool
  {
    g.area > MinBlockArea
  }

  /**
   * The blocks read off the internal perimeter minus the roads: the parts of
   * a MultiPolygon larger than 100, a non-empty Polygon alone, and otherwise
   * the blocks as they were.
   */
  function SplitBlocks(rest: Shape, geoms: Shape -> seq<Shape>, previous: seq<Shape>): (bs: seq<Shape>)
    ensures rest.kind == MultiPolygonKind ==>
              forall b :: b in bs <==> b in geoms(rest) && b.area > MinBlockArea
    ensures IsPolygon(rest) && !rest.empty ==> bs == [rest]
    ensures rest.kind == OtherKind || (IsPolygon(rest) && rest.empty) ==> bs == previous
  {
    FilterKeepsAll(geoms(rest), LargerThanMinimum);
    if rest.kind == MultiPolygonKind then Filter(geoms(rest), LargerThanMinimum)
    else if IsPolygon(rest) && !rest.empty then [rest]
    else previous
  }

  /* ---------- lots ---------- */

  /**
   * The grid of one block along its two axes: `nf` lots of extent `front`
   * along the frontage axis and `nd` rows of extent `depth` along the other.
   */
  datatype Plan = Plan(nf: int, nd: int, front: real, depth: real)

  /** The counts fill both extents F and D exactly. */
  predicate Fills(p: Plan, F: real, D: real)
  {
    p.nf >= 1 && p.nd >= 1 && p.front == Robust.Share(F, p.nf) && p.depth == Robust.Share(D, p.nd)
  }

  /** `max(1, int(E / c))` parts of E are each at least c long when E >= c > 0. */
  lemma PartsAtLeast(E: real, c: real)
    requires c != 0.0
    ensures E >= c > 0.0 ==> Robust.Share(E, MaxInt(1, Trunc(E / c))) >= c
  {
    if E >= c > 0.0 {
      Robust.QuotientAtLeastOne(E, c);
      var n := Trunc(E / c);
      Robust.DivSwapAtLeast(E, n as real, c);
    }
  }

  /**
   * The first counts: the extent F over the standard width, the extent D over
   * the standard depth, at least one each; the lots are then at least the
   * standard size along an extent that holds one.
   */
  function Initial(F: real, D: real, width: real, depth: real): (p: Plan)
    requires width != 0.0 && depth != 0.0
    ensures Fills(p, F, D)
    ensures F >= width > 0.0 ==> p.front >= width
    ensures D >= depth > 0.0 ==> p.depth >= depth
  {
    PartsAtLeast(F, width);
    PartsAtLeast(D, depth);
    var nf := MaxInt(1, Trunc(F / width));
    var nd := MaxInt(1, Trunc(D / depth));
    Plan(nf, nd, Robust.Share(F, nf), Robust.Share(D, nd))
  }

  /**
   * A front under the minimum frontage t recounts the lots along F by t
   * (a zero t then raises ZeroDivisionError: None); the result reaches t
   * whenever F does.
   */
  function Recount(p: Plan, F: real, D: real, t: real): (r: Option<Plan>)
    requires Fills(p, F, D)
    ensures r.None? <==> p.front < t && t == 0.0
    ensures r.Some? ==> Fills(r.value, F, D) && r.value.nd == p.nd && r.value.depth == p.depth
    ensures r.Some? && p.front >= t ==> r.value == p
    ensures r.Some? && 0.0 < t <= F ==> r.value.front >= t
  {
    if p.front < t then
      if t == 0.0 then None
      else
        PartsAtLeast(F, t);
        var n := MaxInt(1, Trunc(F / t));
        Some(p.(nf := n, front := Robust.Share(F, n)))
    else Some(p)
  }

  /** The lot is under the minimum area and the block holds at least one minimum lot. */
  predicate Adjusted(p: Plan, F: real, D: real, min: real)
  {
    p.front * p.depth < min && min != 0.0 && Trunc(F * D / min) > 0
  }

  /**
   * A lot under the minimum area caps the count along F by the number of
   * minimum lots the block's bounding area holds, and sets the depth to the
   * whole extent D, but keeps the number of rows.  A zero minimum raises
   * ZeroDivisionError: None.
   */
  function Adjust(p: Plan, F: real, D: real, min: real): (r: Option<Plan>)
    requires Fills(p, F, D)
    ensures r.None? <==> p.front * p.depth < min && min == 0.0
    ensures r.Some? ==> r.value.nd == p.nd && 1 <= r.value.nf <= p.nf && r.value.front == Robust.Share(F, r.value.nf)
    ensures r.Some? && !Adjusted(p, F, D, min) ==> r.value == p
    ensures r.Some? && Adjusted(p, F, D, min) ==> r.value.depth == D && r.value.nf <= Trunc(F * D / min)
  {
    if p.front * p.depth < min then
      if min == 0.0 then None
      else
        var m := Trunc(F * D / min);
        if m > 0 then
          var n := MinInt(p.nf, m);
          Some(Plan(n, p.nd, Robust.Share(F, n), D))
        else Some(p)
    else Some(p)
  }

  /** A share of a nonnegative extent is nonnegative. */
  lemma ShareNonnegative(E: real, n: int)
    requires E >= 0.0 && n >= 1
    ensures Robust.Share(E, n) >= 0.0
  {
  }

  lemma ProductNonnegative(a: real, b: real)
    requires a >= 0.0 && b >= 0.0
    ensures a * b >= 0.0
  {
  }

  /** The number of minimum lots an area holds, `int(A / min)`, is at most A / min and, when zero, A is under min. */
  lemma MinimumLots(A: real, min: real)
    requires A >= 0.0 && min > 0.0
    ensures 0 <= Trunc(A / min) && Trunc(A / min) as real <= A / min
    ensures Trunc(A / min) <= 0 ==> A < min
  {
    if A >= min {
      Robust.QuotientAtLeastOne(A, min);
    }
  }

  /** With n at most A / min, the n-th part of the area A = F * D is at least min. */
  lemma PartOfAreaAtLeast(F: real, D: real, n: int, min: real)
    requires F >= 0.0 && D >= 0.0 && min > 0.0 && n >= 1 && n as real <= F * D / min
    ensures Robust.Share(F, n) * D >= min
  {
    Robust.DivSwapAtLeast(F * D, n as real, min);
    var s := Robust.Share(F, n);
    assert n as real * (s * D) == F * D;
    assert s * D == (F * D) / n as real;
  }

  /** Fewer parts of a nonnegative extent are no narrower. */
  lemma FewerNoNarrower(E: real, m: int, n: int)
    requires E >= 0.0 && 1 <= m <= n
    ensures Robust.Share(E, m) >= Robust.Share(E, n)
  {
    if E > 0.0 {
      Robust.FewerIsWider(E, m, n);
    } else {
      assert m as real * Robust.Share(E, m) == 0.0;
      assert n as real * Robust.Share(E, n) == 0.0;
    }
  }

  /**
   * After the adjustment every lot reaches the minimum area and is no narrower
   * than before; the depth is then the whole extent D.
   */
  lemma AdjustMeaning(p: Plan, F: real, D: real, min: real)
    requires Fills(p, F, D) && F >= 0.0 && D >= 0.0 && Adjusted(p, F, D, min)
    ensures Adjust(p, F, D, min).Some?
    ensures var r := Adjust(p, F, D, min).value;
      r.front * r.depth >= min && r.front >= p.front && r.depth == D
  {
    var r := Adjust(p, F, D, min).value;
    ShareNonnegative(F, p.nf);
    ShareNonnegative(D, p.nd);
    ProductNonnegative(p.front, p.depth);
    assert min > 0.0;
    MinimumLots(F * D, min);
    PartOfAreaAtLeast(F, D, r.nf, min);
    FewerNoNarrower(F, r.nf, p.nf);
  }

  /**
   * The adjustment keeps the row count: with two rows or more, the rows of
   * full depth D reach past the extent D of the block.
   */
  lemma AdjustKeepsRows(p: Plan, F: real, D: real, min: real)
    requires Fills(p, F, D) && F >= 0.0 && D > 0.0 && Adjusted(p, F, D, min) && p.nd >= 2
    ensures var r := Adjust(p, F, D, min);
      r.Some? && r.value.nd == p.nd && r.value.depth == D && r.value.nd as real * r.value.depth > D
  {
    var r := Adjust(p, F, D, min).value;
    RowsPastExtent(p.nd, D);
  }

  lemma RowsPastExtent(n: int, D: real)
    requires n >= 2 && D > 0.0
    ensures n as real * D > D
  {
  }

  /**
   * The three steps for a block of extents F along the frontage and D
   * across it: counts from the standard width and depth (a zero one raises
   * ZeroDivisionError: None), the frontage recount, the area adjustment.
   */
  function PlanOf(F: real, D: real, width: real, depth: real, t: real, min: real): (r: Option<Plan>)
    ensures r.Some? ==> r.value.nf >= 1 && r.value.nd >= 1
  {
    if width == 0.0 || depth == 0.0 then None
    else
      match Recount(Initial(F, D, width, depth), F, D, t)
      case None => None
      case Some(q) => Adjust(q, F, D, min)
  }

  /** Over nonnegative extents the plan raises exactly when the standard width or depth is zero. */
  lemma PlanDefined(F: real, D: real, width: real, depth: real, t: real, min: real)
    requires F >= 0.0 && D >= 0.0
    ensures PlanOf(F, D, width, depth, t, min).Some? <==> width != 0.0 && depth != 0.0
  {
    if width != 0.0 && depth != 0.0 {
      var p := Initial(F, D, width, depth);
      ShareNonnegative(F, p.nf);
      var q := Recount(p, F, D, t).value;
      ShareNonnegative(F, q.nf);
      ShareNonnegative(D, q.nd);
      ProductNonnegative(q.front, q.depth);
    }
  }

  /**
   * What a plan promises over extents F and D: its lots fill F exactly,
   * reach the minimum frontage t whenever F does, and reach the minimum area
   * unless the whole bounding area F * D is under it; their depth is a share
   * of D or, after the adjustment, D itself.
   */
  predicate Sound(r: Plan, F: real, D: real, t: real, min: real)
  {
    && r.nf >= 1 && r.nd >= 1 && r.front == Robust.Share(F, r.nf)
    && (r.depth == Robust.Share(D, r.nd) || r.depth == D)
    && (t <= F ==> r.front >= t)
    && (r.front * r.depth >= min || F * D < min)
  }

  /**
   * Over nonnegative extents the planned lots fill F exactly, reach the
   * minimum frontage t whenever F does, and reach the minimum area unless the
   * whole bounding area F * D is under it; their depth is a share of D or, after
   * the adjustment, D itself.
   */
  lemma PlanMeaning(F: real, D: real, width: real, depth: real, t: real, min: real)
    requires F >= 0.0 && D >= 0.0 && PlanOf(F, D, width, depth, t, min).Some?
    ensures Sound(PlanOf(F, D, width, depth, t, min).value, F, D, t, min)
  {
    var p := Initial(F, D, width, depth);
    var q := Recount(p, F, D, t).value;
    assert PlanOf(F, D, width, depth, t, min) == Adjust(q, F, D, min);
    if t <= 0.0 {
      ShareNonnegative(F, q.nf);
    }
    AdjustFacts(q, F, D, t, min);
  }

  /** The adjustment step of PlanMeaning, from a recounted plan. */
  lemma AdjustFacts(q: Plan, F: real, D: real, t: real, min: real)
    requires Fills(q, F, D) && F >= 0.0 && D >= 0.0 && (t <= F ==> q.front >= t)
    ensures Adjust(q, F, D, min).Some?
    ensures Sound(Adjust(q, F, D, min).value, F, D, t, min)
  {
    if Adjusted(q, F, D, min) {
      AdjustMeaning(q, F, D, min);
    } else {
      KeptFacts(q, F, D, min);
    }
  }

  /** Without the adjustment the plan is kept, and its lots reach the minimum area unless the whole area is under it. */
  lemma KeptFacts(q: Plan, F: real, D: real, min: real)
    requires Fills(q, F, D) && F >= 0.0 && D >= 0.0 && !Adjusted(q, F, D, min)
    ensures Adjust(q, F, D, min) == Some(q)
    ensures q.front * q.depth >= min || F * D < min
  {
    ShareNonnegative(F, q.nf);
    ShareNonnegative(D, q.nd);
    ProductNonnegative(q.front, q.depth);
    ProductNonnegative(F, D);
    KeptArea(q.front * q.depth, F * D, min);
  }

  /** A lot area a that the adjustment left alone reaches min unless the bounding area A is under it. */
  lemma KeptArea(a: real, A: real, min: real)
    requires a >= 0.0 && A >= 0.0 && !(a < min && min != 0.0 && Trunc(A / min) > 0)
    ensures a >= min || A < min
  {
    if a < min {
      MinimumLots(A, min);
    }
  }

  /**
   * An instance of the row-count quirk: a 30 by 20 block with standard 12 by
   * 8 lots, frontage 10 and minimum area 300 gets 2 by 2 lots of 15 by 20,
   * so the second row lies wholly beyond the block.
   */
  lemma AdjustmentExample()
    ensures PlanOf(30.0, 20.0, 12.0, 8.0, 10.0, 300.0) == Some(Plan(2, 2, 15.0, 20.0))
  {
    assert 30.0 / 12.0 == 2.5;
    assert 20.0 / 8.0 == 2.5;
    assert 30.0 * 20.0 / 300.0 == 2.0;
    var p := Initial(30.0, 20.0, 12.0, 8.0);
    assert p == Plan(2, 2, 15.0, 10.0);
  }

  /** The lots face the longer side: the x axis when the block is at least as wide as tall. */
  predicate Horizontal(block: Shape)
  {
    block.bounds.Width() >= block.bounds.Height()
  }

  /** The block's grid in x/y terms, from its plan along its longer side. */
  function BlockGrid(block: Shape, o: Options): (g: Option<Robust.Grid>)
    ensures g.Some? ==> g.value.nx >= 1 && g.value.ny >= 1
  {
    var W := block.bounds.Width();
    var H := block.bounds.Height();
    if Horizontal(block) then
      match PlanOf(W, H, o.lotWidth, o.lotDepth, o.minFrontage, o.minLotArea)
      case None => None
      case Some(p) => Some(Robust.Grid(p.nf, p.nd, p.front, p.depth))
    else
      match PlanOf(H, W, o.lotWidth, o.lotDepth, o.minFrontage, o.minLotArea)
      case None => None
      case Some(p) => Some(Robust.Grid(p.nd, p.nf, p.depth, p.front))
  }

  /**
   * For a block with proper bounds the grid fails only on a zero standard
   * width or depth; it has at least one column and row; the lots fill the
   * longer side exactly and reach the minimum frontage along it whenever the
   * side does.
   */
  lemma BlockGridMeaning(block: Shape, o: Options)
    requires block.bounds.Width() >= 0.0 && block.bounds.Height() >= 0.0
    ensures BlockGrid(block, o).Some? <==> o.lotWidth != 0.0 && o.lotDepth != 0.0
    ensures BlockGrid(block, o).Some? ==> var g := BlockGrid(block, o).value;
      && (Horizontal(block) ==> g.w == Robust.Share(block.bounds.Width(), g.nx)
                                && (o.minFrontage <= block.bounds.Width() ==> g.w >= o.minFrontage))
      && (!Horizontal(block) ==> g.d == Robust.Share(block.bounds.Height(), g.ny)
                                 && (o.minFrontage <= block.bounds.Height() ==> g.d >= o.minFrontage))
  {
    var W := block.bounds.Width();
    var H := block.bounds.Height();
    PlanDefined(W, H, o.lotWidth, o.lotDepth, o.minFrontage, o.minLotArea);
    PlanDefined(H, W, o.lotWidth, o.lotDepth, o.minFrontage, o.minLotArea);
    if BlockGrid(block, o).Some? {
      if Horizontal(block) {
        PlanMeaning(W, H, o.lotWidth, o.lotDepth, o.minFrontage, o.minLotArea);
      } else {
        PlanMeaning(H, W, o.lotWidth, o.lotDepth, o.minFrontage, o.minLotArea);
      }
    }
  }

  /**
   * A tile is kept when it lies within the block (`within` stands for the
   * containment in the block buffered by 0.1), has at least the minimum area,
   * and its frontage (the width facing x, else the shorter side) reaches the
   * minimum.
   */
  predicate Accepted(lot: Shape, block: Shape, within: (Shape, Shape) -> bool, g: Robust.Grid, o: Options)
  {
    && within(lot, block) && lot.area >= o.minLotArea
    && (if Horizontal(block) then g.w else MinReal(g.w, g.d)) >= o.minFrontage
  }

  /** The kept tiles of column x, rows 0 .. k-1. */
  function ColumnLots(rect: Robust.Rect, within: (Shape, Shape) -> bool, block: Shape, g: Robust.Grid, o: Options,
                      x: int, k: nat): seq<Shape>
  {
    if k == 0 then []
    else
      var lot := Robust.Tile(rect, block.bounds, g, x, k - 1);
      ColumnLots(rect, within, block, g, o, x, k - 1) + (if Accepted(lot, block, within, g, o) then [lot] else [])
  }

  /** The kept tiles of columns 0 .. k-1, column by column. */
  function GridLots(rect: Robust.Rect, within: (Shape, Shape) -> bool, block: Shape, g: Robust.Grid, o: Options,
                    k: nat): seq<Shape>
    requires g.ny >= 0
  {
    if k == 0 then [] else GridLots(rect, within, block, g, o, k - 1) + ColumnLots(rect, within, block, g, o, k - 1, g.ny)
  }

  lemma GridLotsNext(rect: Robust.Rect, within: (Shape, Shape) -> bool, block: Shape, g: Robust.Grid, o: Options, k: nat)
    requires g.ny >= 0
    ensures GridLots(rect, within, block, g, o, k + 1) == GridLots(rect, within, block, g, o, k) + ColumnLots(rect, within, block, g, o, k, g.ny)
  {
  }

  /**
   * The lots of one block: none for an empty block or one under twice the
   * minimum area; None when counting its grid raises ZeroDivisionError.
   */
  function BlockLots(rect: Robust.Rect, within: (Shape, Shape) -> bool, block: Shape, o: Options): Option<seq<Shape>>
  {
    LotsOfGrid(rect, within, block, o, BlockGrid(block, o))
  }

  /** The lots of a block for the outcome `grid` of counting its grid. */
  function LotsOfGrid(rect: Robust.Rect, within: (Shape, Shape) -> bool, block: Shape, o: Options,
                      grid: Option<Robust.Grid>): Option<seq<Shape>>
    requires grid.Some? ==> grid.value.nx >= 1 && grid.value.ny >= 1
  {
    if block.empty || block.area < o.minLotArea * 2.0 then Some([])
    else
      match grid
      case None => None
      case Some(g) => Some(GridLots(rect, within, block, g, o, g.nx))
  }

  lemma BlockLotsCases(rect: Robust.Rect, within: (Shape, Shape) -> bool, block: Shape, o: Options)
    ensures block.empty || block.area < o.minLotArea * 2.0 ==> BlockLots(rect, within, block, o) == Some([])
    ensures !(block.empty || block.area < o.minLotArea * 2.0) ==>
              BlockLots(rect, within, block, o)
              == match BlockGrid(block, o)
                 case None => None
                 case Some(g) => Some(GridLots(rect, within, block, g, o, g.nx))
  {
  }

  lemma {:induction false} ColumnLotsFit(rect: Robust.Rect, within: (Shape, Shape) -> bool, block: Shape, g: Robust.Grid,
                                         o: Options, x: int, k: nat)
    ensures |ColumnLots(rect, within, block, g, o, x, k)| <= k
    ensures forall lot :: lot in ColumnLots(rect, within, block, g, o, x, k) ==> Accepted(lot, block, within, g, o)
  {
    if k > 0 {
      ColumnLotsFit(rect, within, block, g, o, x, k - 1);
    }
  }

  lemma {:induction false} GridLotsFit(rect: Robust.Rect, within: (Shape, Shape) -> bool, block: Shape, g: Robust.Grid,
                                       o: Options, k: nat)
    requires g.ny >= 0
    ensures |GridLots(rect, within, block, g, o, k)| <= k * g.ny
    ensures forall lot :: lot in GridLots(rect, within, block, g, o, k) ==> Accepted(lot, block, within, g, o)
  {
    if k > 0 {
      GridLotsFit(rect, within, block, g, o, k - 1);
      ColumnLotsFit(rect, within, block, g, o, k - 1, g.ny);
      assert (k - 1) * g.ny + g.ny == k * g.ny;
    }
  }

  /**
   * A block that is empty or under twice the minimum area gives no lot; every
   * lot of a block lies within it, has at least the minimum area and its
   * grid's frontage, and there is at most one per grid cell.
   */
  lemma BlockLotsMeaning(rect: Robust.Rect, within: (Shape, Shape) -> bool, block: Shape, o: Options)
    ensures block.empty || block.area < o.minLotArea * 2.0 ==> BlockLots(rect, within, block, o) == Some([])
    ensures BlockLots(rect, within, block, o).None? ==> BlockGrid(block, o).None?
    ensures BlockLots(rect, within, block, o).Some? && BlockGrid(block, o).Some? ==>
      var g := BlockGrid(block, o).value;
      var lots := BlockLots(rect, within, block, o).value;
      && |lots| <= g.nx * g.ny
      && forall lot :: lot in lots ==> Accepted(lot, block, within, g, o)
  {
    LotsOfGridMeaning(rect, within, block, o, BlockGrid(block, o));
  }

  /** BlockLotsMeaning for any outcome of the grid count. */
  lemma LotsOfGridMeaning(rect: Robust.Rect, within: (Shape, Shape) -> bool, block: Shape, o: Options,
                          grid: Option<Robust.Grid>)
    requires grid.Some? ==> grid.value.nx >= 1 && grid.value.ny >= 1
    ensures block.empty || block.area < o.minLotArea * 2.0 ==> LotsOfGrid(rect, within, block, o, grid) == Some([])
    ensures LotsOfGrid(rect, within, block, o, grid).None? ==> grid.None?
    ensures LotsOfGrid(rect, within, block, o, grid).Some? && grid.Some? ==>
      var g := grid.value;
      var lots := LotsOfGrid(rect, within, block, o, grid).value;
      && |lots| <= g.nx * g.ny
      && forall lot :: lot in lots ==> Accepted(lot, block, within, g, o)
  {
    if !(block.empty || block.area < o.minLotArea * 2.0) && grid.Some? {
      var g := grid.value;
      GridLotsFit(rect, within, block, g, o, g.nx);
    }
  }

  /** The lots of the first k blocks, in block order. */
  function AllBlockLots(rect: Robust.Rect, within: (Shape, Shape) -> bool, blocks: seq<Shape>, o: Options, k: nat): Run
    requires k <= |blocks|
  {
    if k == 0 then Run([], false)
    else Next(AllBlockLots(rect, within, blocks, o, k - 1), BlockLots(rect, within, blocks[k - 1], o))
  }

  /**
   * Every lot lies within one of the blocks and has at least the minimum
   * area; the run raises only at a block whose grid cannot be counted.
   */
  lemma {:induction false} AllBlockLotsMeaning(rect: Robust.Rect, within: (Shape, Shape) -> bool, blocks: seq<Shape>,
                                               o: Options, k: nat)
    requires k <= |blocks|
    ensures forall lot :: lot in AllBlockLots(rect, within, blocks, o, k).lots ==>
              lot.area >= o.minLotArea && exists i :: 0 <= i < k && within(lot, blocks[i])
    ensures AllBlockLots(rect, within, blocks, o, k).raised ==> exists i :: 0 <= i < k && BlockGrid(blocks[i], o).None?
  {
    if k > 0 {
      AllBlockLotsMeaning(rect, within, blocks, o, k - 1);
      var prev := AllBlockLots(rect, within, blocks, o, k - 1);
      assert AllBlockLots(rect, within, blocks, o, k) == Next(prev, BlockLots(rect, within, blocks[k - 1], o));
      if !prev.raised {
        BlockLotsMeaning(rect, within, blocks[k - 1], o);
        match BlockLots(rect, within, blocks[k - 1], o)
        case None =>
        case Some(ls) =>
          forall lot | lot in ls ensures lot.area >= o.minLotArea && within(lot, blocks[k - 1]) {
            assert BlockGrid(blocks[k - 1], o).Some? || ls == [];
          }
      }
    }
  }

  lemma AllBlockLotsNext(rect: Robust.Rect, within: (Shape, Shape) -> bool, blocks: seq<Shape>, o: Options, k: nat)
    requires k < |blocks|
    ensures AllBlockLots(rect, within, blocks, o, k + 1)
            == Next(AllBlockLots(rect, within, blocks, o, k), BlockLots(rect, within, blocks[k], o))
  {
  }

  /** Once a block raises, the later blocks are not processed. */
  lemma {:induction false} RaisedStays(rect: Robust.Rect, within: (Shape, Shape) -> bool, blocks: seq<Shape>,
                                       o: Options, j: nat, k: nat)
    requires j <= k <= |blocks| && AllBlockLots(rect, within, blocks, o, j).raised
    ensures AllBlockLots(rect, within, blocks, o, k) == AllBlockLots(rect, within, blocks, o, j)
    decreases k
  {
    if k > j {
      RaisedStays(rect, within, blocks, o, j, k - 1);
    }
  }

  /** The inner loop over the rows of column x. */
  method CreateColumn(rect: Robust.Rect, within: (Shape, Shape) -> bool, block: Shape, g: Robust.Grid, o: Options, x: int)
    returns (lots: seq<Shape>)
    requires g.ny >= 0
    ensures lots == ColumnLots(rect, within, block, g, o, x, g.ny)
  {
    lots := [];
    for y := 0 to g.ny
      invariant lots == ColumnLots(rect, within, block, g, o, x, y)
    {
      var lot := Robust.Tile(rect, block.bounds, g, x, y);
      assert ColumnLots(rect, within, block, g, o, x, y + 1)
             == lots + (if Accepted(lot, block, within, g, o) then [lot] else []);
      if within(lot, block) {
        var frontage := if Horizontal(block) then g.w else MinReal(g.w, g.d);
        if lot.area >= o.minLotArea && frontage >= o.minFrontage {
          lots := lots + [lot];
        }
      }
    }
  }

  /** The lot loops of one block; None when counting its grid raises. */
  method CreateBlockLots(rect: Robust.Rect, within: (Shape, Shape) -> bool, block: Shape, o: Options)
    returns (lots: Option<seq<Shape>>)
    ensures lots == BlockLots(rect, within, block, o)
  {
    BlockLotsCases(rect, within, block, o);
    if block.empty || block.area < o.minLotArea * 2.0 {
      return Some([]);
    }
    var grid := BlockGrid(block, o);
    if grid.None? {
      return None;
    }
    var g := grid.value;
    var acc := [];
    for x := 0 to g.nx
      invariant acc == GridLots(rect, within, block, g, o, x)
    {
      var column := CreateColumn(rect, within, block, g, o, x);
      GridLotsNext(rect, within, block, g, o, x);
      acc := acc + column;
    }
    return Some(acc);
  }

  /** `subdividir_quadras_em_lotes_melhorado`: the loop over the blocks, stopping at one that raises. */
  method CreateAllLots(rect: Robust.Rect, within: (Shape, Shape) -> bool, blocks: seq<Shape>, o: Options)
    returns (run: Run)
    ensures run == AllBlockLots(rect, within, blocks, o, |blocks|)
  {
    run := Run([], false);
    for k := 0 to |blocks|
      invariant run == AllBlockLots(rect, within, blocks, o, k) && !run.raised
    {
      var more := CreateBlockLots(rect, within, blocks[k], o);
      AllBlockLotsNext(rect, within, blocks, o, k);
      if more.None? {
        run := Run(run.lots, true);
        RaisedStays(rect, within, blocks, o, k + 1, |blocks|);
        return;
      }
      run := Run(run.lots + more.value, false);
    }
  }

  /* ---------- common areas ---------- */

  /** A block whose lots (those `inside` it, within it buffered by 1) cover under 30% of it. */
  predicate LightlyUsed(block: Shape, lots: seq<Shape>, inside: (Shape, Shape) -> bool)
  {
    CoveredArea(block, lots, inside) < block.area * 0.3
  }

  /**
   * The test has no explicit area condition, but a block of zero area is
   * never under 30% covered: the candidates are exactly the robust
   * processor's.
   */
  lemma LightlyUsedIsEligible(block: Shape, lots: seq<Shape>, inside: (Shape, Shape) -> bool)
    ensures LightlyUsed(block, lots, inside) <==> Robust.Eligible(block, lots, inside)
  {
    var covered := CoveredArea(block, lots, inside);
    assert covered >= 0.0;
  }

  /**
   * `alocar_areas_comuns`: a lightly used block goes green while the green
   * total is below its need, else institutional while that total is below
   * its need, else nowhere; both totals start at zero.
   */
  method AllocateLightlyUsed(blocks: seq<Shape>, lots: seq<Shape>, inside: (Shape, Shape) -> bool,
                             green0: seq<Shape>, institutional0: seq<Shape>, needG: real, needI: real)
    returns (green: seq<Shape>, institutional: seq<Shape>)
    ensures var r := Robust.Allocated(blocks, lots, inside, green0, institutional0, needG, needI);
      green == r.green && institutional == r.institutional
  {
    green, institutional := green0, institutional0;
    ghost var p := Robust.EligibleIn(lots, inside);
    ghost var goal := Robust.Allocated(blocks, lots, inside, green0, institutional0, needG, needI);
    var greenTotal, institutionalTotal := 0.0, 0.0;
    ghost var discarded: seq<Shape> := [];
    for k := 0 to |blocks|
      invariant PlaceAll(Allocation(green, institutional, discarded, greenTotal, institutionalTotal),
                         Filter(blocks[k..], p), needG, needI, Discard) == goal
    {
      var q := blocks[k];
      FilterFrom(blocks, k, p);
      LightlyUsedIsEligible(q, lots, inside);
      ghost var s := Allocation(green, institutional, discarded, greenTotal, institutionalTotal);
      ghost var rest := Filter(blocks[k + 1..], p);
      if CoveredArea(q, lots, inside) < q.area * 0.3 {
        assert p(q);
        PlaceAllCons(s, q, rest, needG, needI, Discard);
        if greenTotal < needG {
          green := green + [q];
          greenTotal := greenTotal + q.area;
        } else if institutionalTotal < needI {
          institutional := institutional + [q];
          institutionalTotal := institutionalTotal + q.area;
        } else {
          discarded := discarded + [q];
        }
        assert Allocation(green, institutional, discarded, greenTotal, institutionalTotal) == Place(s, q, needG, needI, Discard);
      } else {
        assert !p(q);
        assert [] + rest == rest;
      }
    }
    assert blocks[|blocks|..] == [];
  }

  /* ---------- the processor ---------- */

  class ImprovedProcessor {
    var options: Options
    var original: Shape
    var internal: Shape
    var roadLines: seq<Shape>
    var roads: seq<Shape>
    var blocks: seq<Shape>
    var lots: seq<Shape>
    var green: seq<Shape>
    var institutional: seq<Shape>

    /** The processor over a loaded perimeter; the internal perimeter is the original until internalised. */
    constructor (o: Options, perimeter: Shape)
      ensures options == o && original == perimeter && internal == perimeter
      ensures roadLines == [] && roads == [] && blocks == [] && lots == [] && green == [] && institutional == []
    {
      options := o;
      original := perimeter;
      internal := perimeter;
      roadLines := [];
      roads := [];
      blocks := [];
      lots := [];
      green := [];
      institutional := [];
    }

    /** `internalizar_perimetro`; `erode(d)` buffers the original by -d. */
    method Internalize(erode: real -> Shape)
      modifies this`internal
      ensures internal == ImprovedInternal(erode, options.roadWidth, options.sidewalkWidth)
    {
      var offset := Basic.InwardOffset(options.roadWidth, options.sidewalkWidth);
      internal := ShrinkUntilUsable(erode, offset);
    }

    /** `criar_malha_viaria_simples`: the clipped cut lines are added to the road lines. */
    method CreateRoadGrid(clip: (bool, real) -> Option<Shape>)
      requires options.maxBlockDepth != 0.0
      modifies this`roadLines
      ensures roadLines == old(roadLines) + RoadLines(internal.bounds, options.maxBlockDepth, clip)
    {
      var b := internal.bounds;
      var depth := options.maxBlockDepth;
      var nv := MaxInt(1, Trunc(b.Width() / depth));
      var vertical := Robust.DrawCuts(clip, true, b.minX, b.Width(), nv);
      var nh := MaxInt(1, Trunc(b.Height() / depth));
      var horizontal := Robust.DrawCuts(clip, false, b.minY, b.Height(), nh);
      roadLines := roadLines + vertical + horizontal;
    }

    /**
     * `dividir_em_quadras_simples`: with no road lines the internal perimeter
     * is the one block; otherwise the roads are the buffer of the lines by
     * half the road width and the blocks are split off the rest.
     * `streets(lines, r)` buffers the union of the lines by r.
     */
    method DivideIntoBlocks(streets: (seq<Shape>, real) -> Shape, difference: (Shape, Shape) -> Shape,
                            geoms: Shape -> seq<Shape>)
      modifies this`roads, this`blocks
      ensures old(roadLines) == [] ==> blocks == [internal] && roads == old(roads)
      ensures old(roadLines) != [] ==>
        var buffer := streets(roadLines, options.roadWidth / 2.0);
        && roads == [buffer]
        && blocks == SplitBlocks(difference(internal, buffer), geoms, old(blocks))
    {
      if roadLines == [] {
        blocks := [internal];
        return;
      }
      var buffer := streets(roadLines, options.roadWidth / 2.0);
      roads := [buffer];
      var rest := difference(internal, buffer);
      if rest.kind == MultiPolygonKind {
        blocks := Filter(geoms(rest), LargerThanMinimum);
      } else if IsPolygon(rest) && !rest.empty {
        blocks := [rest];
      }
    }

    /**
     * `subdividir_quadras_em_lotes_melhorado`: the lots of each block are
     * added to the lots, up to a block that raises ZeroDivisionError.
     */
    method SubdivideBlocks(rect: Robust.Rect, within: (Shape, Shape) -> bool) returns (raised: bool)
      modifies this`lots
      ensures var run := AllBlockLots(rect, within, blocks, options, |blocks|);
        lots == old(lots) + run.lots && raised == run.raised
    {
      var run := CreateAllLots(rect, within, blocks, options);
      lots := lots + run.lots;
      raised := run.raised;
    }

    /** `alocar_areas_comuns`: the needs are percentages of the original area. */
    method AllocateCommonAreas(inside: (Shape, Shape) -> bool)
      modifies this`green, this`institutional
      ensures var r := Robust.Allocated(blocks, lots, inside, old(green), old(institutional),
                                        Need(original.area, options.greenPercent),
                                        Need(original.area, options.institutionalPercent));
        green == r.green && institutional == r.institutional
    {
      var needGreen := Need(original.area, options.greenPercent);
      var needInstitutional := Need(original.area, options.institutionalPercent);
      green, institutional := AllocateLightlyUsed(blocks, lots, inside, green, institutional, needGreen, needInstitutional);
    }
  }
}
