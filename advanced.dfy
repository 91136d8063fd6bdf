/**
 * The advanced processor (loteamento_processor_avancado.py): the decision and
 * bookkeeping logic around its geometry calls.
 *
 * The processor object holds the cleaned options, the original and the
 * internalised perimeter, the road lines, roads and sidewalks, the blocks,
 * lots and the two lists of common areas.  Its stages update those fields;
 * every geometry call a stage makes is a function parameter of that stage.
 */
module Advanced {
  import opened Geometry
  import opened PyValues
  import opened ParamCleaning
  import opened Selection
  import opened Triangulation

  /* ---------- internalisation ---------- */

  /** Usable result: valid, non-empty and of positive area. */
  predicate Usable(g: Shape)
  {
    g.valid && !g.empty && g.area > 0.0
  }

  /** The progressive reductions of the inward offset, in the order they are tried. */
  const RetryFactors: seq<real> := [0.8, 0.6, 0.4, 0.2]

  /** The buffer at the k-th reduction. */
  function Attempt(erode: real -> Option<Shape>, offset: real, k: nat): Option<Shape>
    requires k < |RetryFactors|
  {
    erode(offset * RetryFactors[k])
  }

  /** The outcome of the reduction loop: an exception, the usable result at a factor, or none usable. */
  datatype Retry = Raised | Hit(g: Shape, index: nat) | Missed

  /**
   * The reduction loop from factor k on.  `erode(d)` is the original perimeter
   * buffered by -d, None when the library raises.  A hit is the first usable
   * result in factor order; a miss means every factor gave an unusable result.
   */
  function RetryFrom(erode: real -> Option<Shape>, offset: real, k: nat): (r: Retry)
    requires k <= |RetryFactors|
    ensures r.Hit? ==> k <= r.index < |RetryFactors| && Attempt(erode, offset, r.index) == Some(r.g) && Usable(r.g)
    ensures r.Hit? || r.Missed? ==>
              forall i :: k <= i < (if r.Hit? then r.index else |RetryFactors|) ==>
                Attempt(erode, offset, i).Some? && !Usable(Attempt(erode, offset, i).value)
    ensures r.Raised? ==> exists i :: k <= i < |RetryFactors| && Attempt(erode, offset, i).None?
    decreases |RetryFactors| - k
  {
    if k == |RetryFactors| then Missed
    else
      match Attempt(erode, offset, k)
      case None => Raised
      case Some(g) => if Usable(g) then Hit(g, k) else RetryFrom(erode, offset, k + 1)
  }

  /** The last resort: a buffer by half the road width, or the original if that raises. */
  function RoadFallback(original: Shape, erode: real -> Option<Shape>, road: real): Shape
  {
    match erode(road / 2.0)
    case None => original
    case Some(g) => g
  }

  /** `internalizar_perimetro_com_calcadas`. */
  function AdvancedInternal(original: Shape, erode: real -> Option<Shape>, road: real, sidewalk: real): Shape
  {
    var offset := (road + 2.0 * sidewalk) / 2.0;
    match erode(offset)
    case None => original
    case Some(first) =>
      if first.valid && !first.empty then
        (if Usable(first) then first else RoadFallback(original, erode, road))
      else
        match RetryFrom(erode, offset, 0)
        case Raised => original
        case Hit(g, _) => g
        case Missed => RoadFallback(original, erode, road)
  }

  /**
   * The inward offset is (road + 2 sidewalk) / 2, and its result is kept when
   * it is usable; an exception in that first buffer yields the original.
   */
  lemma InternalFirstTry(original: Shape, erode: real -> Option<Shape>, road: real, sidewalk: real)
    ensures var offset := (road + 2.0 * sidewalk) / 2.0;
      erode(offset).None? ==> AdvancedInternal(original, erode, road, sidewalk) == original
    ensures var offset := (road + 2.0 * sidewalk) / 2.0;
      erode(offset).Some? && Usable(erode(offset).value) ==>
        AdvancedInternal(original, erode, road, sidewalk) == erode(offset).value
  {
  }

  /**
   * When the first result is invalid or empty, the reductions are tried in the
   * order 0.8, 0.6, 0.4, 0.2 and the first usable result is kept.
   */
  lemma InternalRetryHit(original: Shape, erode: real -> Option<Shape>, road: real, sidewalk: real)
    ensures var offset := (road + 2.0 * sidewalk) / 2.0;
      var r := RetryFrom(erode, offset, 0);
      erode(offset).Some? && !(erode(offset).value.valid && !erode(offset).value.empty) && r.Hit? ==>
        && AdvancedInternal(original, erode, road, sidewalk) == Attempt(erode, offset, r.index).value
        && Usable(AdvancedInternal(original, erode, road, sidewalk))
        && forall i :: 0 <= i < r.index ==>
             Attempt(erode, offset, i).Some? && !Usable(Attempt(erode, offset, i).value)
  {
    var offset := (road + 2.0 * sidewalk) / 2.0;
    var r := RetryFrom(erode, offset, 0);
    if erode(offset).Some? && !(erode(offset).value.valid && !erode(offset).value.empty) && r.Hit? {
      assert Attempt(erode, offset, r.index) == Some(r.g);
      assert AdvancedInternal(original, erode, road, sidewalk) == r.g;
      assert Usable(r.g);
      assert forall i :: 0 <= i < r.index ==>
             Attempt(erode, offset, i).Some? && !Usable(Attempt(erode, offset, i).value);
    }
  }

  lemma {:induction false} RetryFromMissed(erode: real -> Option<Shape>, offset: real, k: nat)
    requires k <= |RetryFactors|
    requires forall i :: k <= i < |RetryFactors| ==>
               Attempt(erode, offset, i).Some? && !Usable(Attempt(erode, offset, i).value)
    ensures RetryFrom(erode, offset, k) == Missed
    decreases |RetryFactors| - k
  {
    if k < |RetryFactors| {
      RetryFromMissed(erode, offset, k + 1);
    }
  }

  /** When no reduction gives a usable result, the result is the buffer by half the road width. */
  lemma InternalAllMissed(original: Shape, erode: real -> Option<Shape>, road: real, sidewalk: real)
    requires var offset := (road + 2.0 * sidewalk) / 2.0;
      && erode(offset).Some? && !(erode(offset).value.valid && !erode(offset).value.empty)
      && (forall i :: 0 <= i < |RetryFactors| ==>
            Attempt(erode, offset, i).Some? && !Usable(Attempt(erode, offset, i).value))
    ensures erode(road / 2.0).Some? ==> AdvancedInternal(original, erode, road, sidewalk) == erode(road / 2.0).value
    ensures erode(road / 2.0).None? ==> AdvancedInternal(original, erode, road, sidewalk) == original
  {
    RetryFromMissed(erode, (road + 2.0 * sidewalk) / 2.0, 0);
  }

  /** A first result that is valid and non-empty but of zero area skips the reductions. */
  lemma InternalZeroArea(original: Shape, erode: real -> Option<Shape>, road: real, sidewalk: real)
    requires var offset := (road + 2.0 * sidewalk) / 2.0;
      erode(offset).Some? && erode(offset).value.valid && !erode(offset).value.empty && erode(offset).value.area <= 0.0
    ensures erode(road / 2.0).Some? ==> AdvancedInternal(original, erode, road, sidewalk) == erode(road / 2.0).value
  {
  }

  /* ---------- road lines ---------- */

  /**
   * The numbers of vertical and horizontal road lines `criar_sistema_viario_com_calcadas`
   * draws: the whole number of block depths across each extent (at least
   * one), a single family on sites under 5000 m2 (the vertical lines when
   * the site is wider than high), at most six of each.  A negative depth
   * gives at most one line per family.
   */
  function LineCounts(width: real, height: real, depth: real, siteArea: real): (r: (int, int))
    requires depth != 0.0
    ensures 0 <= r.0 <= 6 && 0 <= r.1 <= 6
    ensures siteArea < 5000.0 ==> (r.0 == 0 <==> r.1 != 0)
    ensures siteArea < 5000.0 ==> (r.1 == 0 <==> width > height)
    ensures siteArea >= 5000.0 ==> r.0 >= 1 && r.1 >= 1
    ensures siteArea >= 5000.0 && width >= 0.0 && depth > 0.0 ==>
              r.0 == MinInt(MaxInt(1, (width / depth).Floor), 6)
    ensures siteArea >= 5000.0 && height >= 0.0 && depth > 0.0 ==>
              r.1 == MinInt(MaxInt(1, (height / depth).Floor), 6)
    ensures siteArea < 5000.0 && width > height && width >= 0.0 && depth > 0.0 ==>
              r.0 == MinInt(MaxInt(1, (width / depth).Floor), 6)
    ensures siteArea < 5000.0 && !(width > height) && height >= 0.0 && depth > 0.0 ==>
              r.1 == MinInt(MaxInt(1, (height / depth).Floor), 6)
    ensures width >= 0.0 && height >= 0.0 && depth < 0.0 ==> r.0 <= 1 && r.1 <= 1
  {
    var nv := MaxInt(1, Trunc(width / depth));
    var nh := MaxInt(1, Trunc(height / depth));
    var (v, h) := if siteArea < 5000.0 then (if width > height then (MaxInt(1, nv), 0) else (0, MaxInt(1, nh))) else (nv, nh);
    (MinInt(v, 6), MinInt(h, 6))
  }

  /** Line i of n across an extent: `min + i * ext / (n + 1)`. */
  function LinePosition(min: real, ext: real, n: nat, i: int): real
  {
    min + i as real * ext / (n + 1) as real
  }

  /**
   * The lines sit strictly inside the extent, in increasing order, with equal
   * gaps of ext / (n + 1), including from each edge to the nearest line.
   */
  lemma LinePositionsInside(min: real, ext: real, n: nat, i: int)
    requires ext > 0.0 && 1 <= i <= n
    ensures min < LinePosition(min, ext, n, i) < min + ext
    ensures LinePosition(min, ext, n, i) - LinePosition(min, ext, n, i - 1) == ext / (n + 1) as real
    ensures LinePosition(min, ext, n, 0) == min && LinePosition(min, ext, n, n + 1) == min + ext
  {
    var k := (n + 1) as real;
    assert i as real * ext / k - (i - 1) as real * ext / k == ext / k;
    assert 0.0 < i as real * ext / k;
    assert i as real * ext / k < ext by {
      assert i as real < k;
      assert i as real * ext < k * ext;
    }
  }

  /** The unions of the clipped lines 1..k of a family, as the loop collects them. */
  function ClippedLines(clip: (bool, real) -> seq<Shape>, vertical: bool, min: real, ext: real, n: nat, k: nat): seq<Shape>
    requires k <= n
  {
    if k == 0 then [] else ClippedLines(clip, vertical, min, ext, n, k - 1) + clip(vertical, LinePosition(min, ext, n, k))
  }

  /** One family of road lines: line i at min + i * ext / (n + 1), for i from 1 to n. */
  method DrawFamily(clip: (bool, real) -> seq<Shape>, vertical: bool, min: real, ext: real, n: nat)
    returns (lines: seq<Shape>)
    ensures lines == ClippedLines(clip, vertical, min, ext, n, n)
  {
    lines := [];
    var i := 1;
    while i <= n
      invariant 1 <= i <= n + 1
      invariant lines == ClippedLines(clip, vertical, min, ext, n, i - 1)
    {
      lines := lines + clip(vertical, LinePosition(min, ext, n, i));
      i := i + 1;
    }
  }

  /**
   * The road lines: the clipped vertical lines, then the horizontal ones, and
   * when there are none a single central line across the longer side.  A zero
   * block depth raises and leaves no lines.  `clip(v, c)` is the list of
   * non-empty line pieces of the line at coordinate c inside the perimeter,
   * `central(v, c)` the piece of the central line, if it is a line.
   */
  function RoadLines(b: Box, siteArea: real, depth: real,
                     clip: (bool, real) -> seq<Shape>, central: (bool, real) -> Option<Shape>): seq<Shape>
  {
    if depth == 0.0 then []
    else
      var (nv, nh) := LineCounts(b.Width(), b.Height(), depth, siteArea);
      var lines := ClippedLines(clip, true, b.minX, b.Width(), nv, nv) + ClippedLines(clip, false, b.minY, b.Height(), nh, nh);
      if lines != [] then lines
      else
        var c := if b.Width() > b.Height() then central(true, b.minX + b.Width() / 2.0)
                 else central(false, b.minY + b.Height() / 2.0);
        if c.Some? then [c.value] else []
  }

  /** The line drawing of `criar_sistema_viario_avancado`: both families, else the central line. */
  method DrawRoadLines(b: Box, siteArea: real, depth: real,
                       clip: (bool, real) -> seq<Shape>, central: (bool, real) -> Option<Shape>)
    returns (lines: seq<Shape>)
    ensures lines == RoadLines(b, siteArea, depth, clip, central)
  {
    if depth == 0.0 {
      return [];
    }
    var counts := LineCounts(b.Width(), b.Height(), depth, siteArea);
    var nv := counts.0;
    var nh := counts.1;
    var vertical := DrawFamily(clip, true, b.minX, b.Width(), nv);
    var horizontal := DrawFamily(clip, false, b.minY, b.Height(), nh);
    lines := vertical + horizontal;
    if lines == [] {
      var c := if b.Width() > b.Height() then central(true, b.minX + b.Width() / 2.0)
               else central(false, b.minY + b.Height() / 2.0);
      if c.Some? {
        lines := [c.value];
      }
    }
  }

  /* ---------- lots along a border ---------- */

  /**
   * The count of lots along a border of length L: L / w rounded down (at
   * least one), recounted with the minimum frontage t when the resulting width
   * is below t.  Returns the count and the lot width; None when w is zero (the
   * division raises and the border gets no lots).
   */
  function BorderCount(length: real, w: real, t: real): (r: Option<(int, real)>)
    requires length >= 0.0
  {
    if w == 0.0 then None
    else
      var n0 := MaxInt(1, Trunc(length / w));
      var w0 := length / n0 as real;
      if w0 < t then
        var n1 := MaxInt(1, Trunc(length / t));
        Some((n1, length / n1 as real))
      else Some((n0, w0))
  }

  lemma RecountWidth(length: real, t: real)
    requires length >= t > 0.0
    ensures length / MaxInt(1, Trunc(length / t)) as real >= t
  {
    var n := Trunc(length / t);
    assert length / t >= 1.0;
    assert n >= 1;
    assert n as real <= length / t;
    assert n as real * t <= length;
  }

  /**
   * At least one lot; the lots exactly fill the border; and a border at least
   * as long as the minimum frontage gives lots at least that wide.
   */
  lemma BorderCountMeaning(length: real, w: real, t: real)
    requires length >= 0.0
    ensures BorderCount(length, w, t).None? <==> w == 0.0
    ensures BorderCount(length, w, t).Some? ==> FillsBorder(BorderCount(length, w, t).value, length)
    ensures BorderCount(length, w, t).Some? && length >= t ==> BorderCount(length, w, t).value.1 >= t
  {
    if w != 0.0 {
      if length / MaxInt(1, Trunc(length / w)) as real < t {
        BorderCountRecounted(length, w, t);
      } else {
        BorderCountKept(length, w, t);
      }
    }
  }

  /** `n` lots of width `width`, at least one, exactly fill a border of the given length. */
  predicate FillsBorder(count: (int, real), length: real)
  {
    count.0 >= 1 && count.0 as real * count.1 == length && count.1 >= 0.0
  }

  /** When the first width is too narrow, the lots are recounted from the minimum frontage. */
  lemma BorderCountRecounted(length: real, w: real, t: real)
    requires length >= 0.0 && w != 0.0
    requires length / MaxInt(1, Trunc(length / w)) as real < t
    ensures BorderCount(length, w, t).Some? && FillsBorder(BorderCount(length, w, t).value, length)
    ensures length >= t ==> BorderCount(length, w, t).value.1 >= t
  {
    var n1 := MaxInt(1, Trunc(length / t));
    var width := length / n1 as real;
    assert BorderCount(length, w, t) == Some((n1, width));
    DivideEvenly(length, n1);
    if length >= t {
      RecountWidth(length, t);
      assert width >= t;
    }
  }

  /** Otherwise the first count stands, and its width is at least the minimum frontage. */
  lemma BorderCountKept(length: real, w: real, t: real)
    requires length >= 0.0 && w != 0.0
    requires length / MaxInt(1, Trunc(length / w)) as real >= t
    ensures BorderCount(length, w, t).Some? && FillsBorder(BorderCount(length, w, t).value, length)
    ensures BorderCount(length, w, t).value.1 >= t
  {
    var n0 := MaxInt(1, Trunc(length / w));
    assert BorderCount(length, w, t) == Some((n0, length / n0 as real));
    DivideEvenly(length, n0);
  }

  lemma DivideEvenly(length: real, n: int)
    requires length >= 0.0 && n >= 1
    ensures n as real * (length / n as real) == length && length / n as real >= 0.0
  {
  }

  /** The depths `_criar_lote_retangular_adaptativo` tries, in order. */
  function AdaptiveDepths(depth: real): seq<real>
  {
    [depth, depth * 0.8, depth * 0.6, depth * 1.2]
  }

  /**
   * The first depth whose rectangle, intersected with the block, is a polygon
   * of at least the minimum area.  `clip(s, e, d)` is that intersection for the
   * rectangle over the normalised stretch [s, e] of the border at depth d.
   */
  /** The acceptance test of one depth: the clip is a polygon of at least the minimum area. */
  function DepthFits(clip: (real, real, real) -> Shape, s: real, e: real, minArea: real): real -> bool
  {
    (d: real) => IsPolygon(clip(s, e, d)) && clip(s, e, d).area >= minArea
  }

  function AdaptiveLot(clip: (real, real, real) -> Shape, j: nat, n: nat, depth: real, minArea: real): Option<Shape>
    requires n > 0
  {
    var s := Fraction(j, n);
    var e := Fraction(j + 1, n);
    match FirstAccepted(AdaptiveDepths(depth), DepthFits(clip, s, e, minArea))
    case None => None
    case Some(k) => Some(clip(s, e, AdaptiveDepths(depth)[k]))
  }

  method CreateAdaptiveLot(clip: (real, real, real) -> Shape, j: nat, n: nat, depth: real, minArea: real)
    returns (lot: Option<Shape>)
    requires n > 0
    ensures lot == AdaptiveLot(clip, j, n, depth, minArea)
  {
    var s := j as real / n as real;
    var e := (j + 1) as real / n as real;
    var depths := [depth, depth * 0.8, depth * 0.6, depth * 1.2];
    ghost var ok := DepthFits(clip, s, e, minArea);
    var k := 0;
    while k < |depths|
      invariant 0 <= k <= |depths|
      invariant forall i :: 0 <= i < k ==> !ok(depths[i])
    {
      var g := clip(s, e, depths[k]);
      if IsPolygon(g) && g.area >= minArea {
        assert FirstAccepted(depths, ok) == Some(k);
        return Some(g);
      }
      k := k + 1;
    }
    assert FirstAccepted(depths, ok) == None;
    return None;
  }

  /** The lot found is a polygon of at least the minimum area. */
  lemma AdaptiveLotFits(clip: (real, real, real) -> Shape, j: nat, n: nat, depth: real, minArea: real)
    requires n > 0
    ensures AdaptiveLot(clip, j, n, depth, minArea).Some? ==>
              IsPolygon(AdaptiveLot(clip, j, n, depth, minArea).value)
              && AdaptiveLot(clip, j, n, depth, minArea).value.area >= minArea
  {
  }

  /**
   * Lot j covers the normalised stretch [j/n, (j+1)/n] and is cut at the first
   * depth of d, 0.8d, 0.6d, 1.2d whose clip fits; there is none only when no
   * depth fits.
   */
  lemma AdaptiveLotFirst(clip: (real, real, real) -> Shape, j: nat, n: nat, depth: real, minArea: real)
    requires n > 0
    ensures var fits := DepthFits(clip, Fraction(j, n), Fraction(j + 1, n), minArea);
      AdaptiveLot(clip, j, n, depth, minArea).None? <==> forall i :: 0 <= i < 4 ==> !fits(AdaptiveDepths(depth)[i])
    ensures var fits := DepthFits(clip, Fraction(j, n), Fraction(j + 1, n), minArea);
      var k := FirstAccepted(AdaptiveDepths(depth), fits);
      k.Some? ==>
        && AdaptiveLot(clip, j, n, depth, minArea) == Some(clip(Fraction(j, n), Fraction(j + 1, n), AdaptiveDepths(depth)[k.value]))
        && (forall i :: 0 <= i < k.value ==> !fits(AdaptiveDepths(depth)[i]))
  {
  }

  /** Whether a lot returned is kept: `if lote and lote.area >= area_minima`. */
  predicate Kept(lot: Option<Shape>, minArea: real)
  {
    lot.Some? && !lot.value.empty && lot.value.area >= minArea
  }

  /** The lots found for the first k stretches of a border. */
  function BorderLots(clip: (real, real, real) -> Shape, n: nat, depth: real, minArea: real, k: nat): seq<Shape>
    requires 0 < n && k <= n
  {
    if k == 0 then []
    else
      var lot := AdaptiveLot(clip, k - 1, n, depth, minArea);
      BorderLots(clip, n, depth, minArea, k - 1) + (if Kept(lot, minArea) then [lot.value] else [])
  }

  lemma BorderLotsNext(clip: (real, real, real) -> Shape, n: nat, depth: real, minArea: real, k: nat, lot: Option<Shape>)
    requires k < n && lot == AdaptiveLot(clip, k, n, depth, minArea)
    ensures BorderLots(clip, n, depth, minArea, k + 1)
            == BorderLots(clip, n, depth, minArea, k) + (if Kept(lot, minArea) then [lot.value] else [])
  {
  }

  /** `_criar_lotes_ao_longo_da_borda`. */
  function LotsAlongBorder(clip: (real, real, real) -> Shape, length: real,
                           lotWidth: real, minFrontage: real, depth: real, minArea: real): seq<Shape>
    requires length >= 0.0
  {
    match BorderCount(length, lotWidth, minFrontage)
    case None => []
    case Some((n, _)) => if n > 0 then BorderLots(clip, n, depth, minArea, n) else []
  }

  method CreateLotsAlongBorder(clip: (real, real, real) -> Shape, length: real,
                               lotWidth: real, minFrontage: real, depth: real, minArea: real)
    returns (lots: seq<Shape>)
    requires length >= 0.0
    ensures lots == LotsAlongBorder(clip, length, lotWidth, minFrontage, depth, minArea)
  {
    lots := [];
    var count := BorderCount(length, lotWidth, minFrontage);
    if count.None? || count.value.0 <= 0 {
      return;
    }
    lots := CreateBorderLots(clip, count.value.0, depth, minArea);
  }

  /** The loop over the n stretches of a border, keeping each lot found. */
  method CreateBorderLots(clip: (real, real, real) -> Shape, n: nat, depth: real, minArea: real)
    returns (lots: seq<Shape>)
    requires n > 0
    ensures lots == BorderLots(clip, n, depth, minArea, n)
  {
    lots := [];
    for j := 0 to n
      invariant lots == BorderLots(clip, n, depth, minArea, j)
    {
      var lot := CreateAdaptiveLot(clip, j, n, depth, minArea);
      BorderLotsNext(clip, n, depth, minArea, j, lot);
      var more := if Kept(lot, minArea) then [lot.value] else [];
      lots := lots + more;
    }
  }

  /** Every lot along a border has the minimum area, and there is at most one per stretch. */
  lemma {:induction false} BorderLotsBounds(clip: (real, real, real) -> Shape, n: nat, depth: real, minArea: real, k: nat)
    requires 0 < n && k <= n
    ensures |BorderLots(clip, n, depth, minArea, k)| <= k
    ensures forall g :: g in BorderLots(clip, n, depth, minArea, k) ==> IsPolygon(g) && g.area >= minArea
  {
    if k > 0 {
      BorderLotsBounds(clip, n, depth, minArea, k - 1);
      AdaptiveLotFits(clip, k - 1, n, depth, minArea);
    }
  }

  /* ---------- irregular lots ---------- */

  /**
   * `_dividir_por_cortes_inteligentes`.  `split(g, vertical)` cuts g along its
   * vertical or horizontal mid-line of the bounding box and returns the parts,
   * or None when the library raises.  `fuel` is the interpreter's remaining
   * recursion depth: at zero the call raises (None), and the caller's handler
   * then adds the whole area it was cutting.
   */
  function Cuts(g: Shape, minArea: real, split: (Shape, bool) -> Option<seq<Shape>>, fuel: nat): Option<seq<Shape>>
    decreases fuel, 0
  {
    if fuel == 0 then None
    else if g.area < minArea * 2.0 then Some(if g.area >= minArea then [g] else [])
    else
      var vertical := g.bounds.Width() > g.bounds.Height() * 1.5;
      match split(g, vertical)
      case None => Some(if g.area >= minArea then [g] else [])
      case Some(parts) => Some(CutParts(g, parts, minArea, split, fuel - 1, []))
  }

  /** The loop over the parts of one cut, `acc` holding the lots found so far. */
  function CutParts(g: Shape, parts: seq<Shape>, minArea: real, split: (Shape, bool) -> Option<seq<Shape>>,
                    fuel: nat, acc: seq<Shape>): seq<Shape>
    decreases fuel, |parts|
  {
    if parts == [] then acc
    else
      var p := parts[0];
      if IsPolygon(p) && p.area >= minArea then
        if p.area < minArea * 3.0 then CutParts(g, parts[1..], minArea, split, fuel, acc + [p])
        else
          match Cuts(p, minArea, split, fuel)
          case None => acc + (if g.area >= minArea then [g] else [])
          case Some(sub) => CutParts(g, parts[1..], minArea, split, fuel, acc + sub)
      else CutParts(g, parts[1..], minArea, split, fuel, acc)
  }

  /**
   * The loop `for parte in partes_lista` of one cut: small parts are kept,
   * large ones are cut again, and a failed recursive cut ends the loop with
   * the whole area added.
   */
  method CutEachPart(g: Shape, parts: seq<Shape>, minArea: real, split: (Shape, bool) -> Option<seq<Shape>>, fuel: nat)
    returns (lots: seq<Shape>)
    ensures lots == CutParts(g, parts, minArea, split, fuel, [])
    ensures AllAtLeast(lots, minArea)
  {
    CutPartsAtLeastMin(g, parts, minArea, split, fuel, []);
    lots := [];
    for i := 0 to |parts|
      invariant CutParts(g, parts, minArea, split, fuel, []) == CutParts(g, parts[i..], minArea, split, fuel, lots)
    {
      var p := parts[i];
      assert parts[i..][1..] == parts[i + 1..];
      if IsPolygon(p) && p.area >= minArea {
        if p.area < minArea * 3.0 {
          lots := lots + [p];
        } else {
          var sub := Cuts(p, minArea, split, fuel);
          if sub.None? {
            return lots + (if g.area >= minArea then [g] else []);
          }
          lots := lots + sub.value;
        }
      }
    }
    assert parts[|parts|..] == [];
  }

  predicate AllAtLeast(gs: seq<Shape>, minArea: real)
  {
    forall i :: 0 <= i < |gs| ==> gs[i].area >= minArea
  }

  /** Every lot the cuts produce has the minimum area. */
  lemma {:induction false} CutsAtLeastMin(g: Shape, minArea: real, split: (Shape, bool) -> Option<seq<Shape>>, fuel: nat)
    ensures Cuts(g, minArea, split, fuel).Some? ==> AllAtLeast(Cuts(g, minArea, split, fuel).value, minArea)
    decreases fuel, 0
  {
    if fuel > 0 && g.area >= minArea * 2.0 {
      var vertical := g.bounds.Width() > g.bounds.Height() * 1.5;
      match split(g, vertical)
      case None =>
      case Some(parts) => CutPartsAtLeastMin(g, parts, minArea, split, fuel - 1, []);
    }
  }

  lemma {:induction false} CutPartsAtLeastMin(g: Shape, parts: seq<Shape>, minArea: real,
                                               split: (Shape, bool) -> Option<seq<Shape>>, fuel: nat, acc: seq<Shape>)
    requires AllAtLeast(acc, minArea)
    ensures AllAtLeast(CutParts(g, parts, minArea, split, fuel, acc), minArea)
    decreases fuel, |parts|
  {
    if parts != [] {
      var p := parts[0];
      if IsPolygon(p) && p.area >= minArea {
        if p.area < minArea * 3.0 {
          CutPartsAtLeastMin(g, parts[1..], minArea, split, fuel, acc + [p]);
        } else {
          CutsAtLeastMin(p, minArea, split, fuel);
          match Cuts(p, minArea, split, fuel)
          case None =>
          case Some(sub) => CutPartsAtLeastMin(g, parts[1..], minArea, split, fuel, acc + sub);
        }
      } else {
        CutPartsAtLeastMin(g, parts[1..], minArea, split, fuel, acc);
      }
    }
  }

  /**
   * The library calls the irregular-lot stage makes.  `polygon(t)` builds a
   * triangle's polygon; `touches` and `union` are the library's predicates on
   * polygons; `split` cuts along a mid-line.
   */
  datatype IrregularOracle = IrregularOracle(
    polygon: Triangle -> Shape, touches: (Shape, Shape) -> bool, union: (Shape, Shape) -> Shape,
    split: (Shape, bool) -> Option<seq<Shape>>)

  function ShapeArea(): Shape -> real
  {
    (g: Shape) => g.area
  }

  function MapPolygons(ts: seq<Triangle>, polygon: Triangle -> Shape): (r: seq<Shape>)
    ensures |r| == |ts|
  {
    if ts == [] then [] else [polygon(ts[0])] + MapPolygons(ts[1..], polygon)
  }

  /** `_dividir_por_triangulacao_adaptativa`: group the triangles of rings of up to six vertices, cut larger ones. */
  function AdaptiveTriangulation(g: Shape, minArea: real, o: IrregularOracle, fuel: nat): seq<Shape>
  {
    if |g.ring| < 3 then []
    else if |g.ring| <= 6 then
      Group(MapPolygons(Triangulate(g.ring, (t: Triangle) => o.polygon(t).area), o.polygon), minArea, ShapeArea(), o.touches, o.union)
    else
      match Cuts(g, minArea, o.split, fuel)
      case None => []
      case Some(lots) => lots
  }

  /**
   * The three branches of the adaptive triangulation: a ring of fewer than
   * three vertices gives no lot; one of three to six vertices gives at most
   * n - 2 groups of triangles, each reaching 80% of the minimum area; a
   * larger one gives the cut parts, each of at least the minimum area, or
   * nothing when the cuts fail.
   */
  lemma AdaptiveTriangulationMeaning(g: Shape, minArea: real, o: IrregularOracle, fuel: nat)
    requires minArea >= 0.0
    ensures |g.ring| < 3 ==> AdaptiveTriangulation(g, minArea, o, fuel) == []
    ensures 3 <= |g.ring| <= 6 ==>
      var lots := AdaptiveTriangulation(g, minArea, o, fuel);
      && |lots| <= |g.ring| - 2
      && forall lot :: lot in lots ==> lot.area >= minArea * 0.8
    ensures |g.ring| > 6 ==>
      var lots := AdaptiveTriangulation(g, minArea, o, fuel);
      && (Cuts(g, minArea, o.split, fuel).None? ==> lots == [])
      && (Cuts(g, minArea, o.split, fuel).Some? ==> lots == Cuts(g, minArea, o.split, fuel).value)
      && forall lot :: lot in lots ==> lot.area >= minArea
  {
    if 3 <= |g.ring| <= 6 {
      var area := (t: Triangle) => o.polygon(t).area;
      var tris := Triangulate(g.ring, area);
      TriangleCount(g.ring, area);
      var polys := MapPolygons(tris, o.polygon);
      GroupsReachTolerance(polys, minArea, ShapeArea(), o.touches, o.union);
      forall lot | lot in AdaptiveTriangulation(g, minArea, o, fuel) ensures lot.area >= minArea * 0.8 {
        assert ShapeArea()(lot) >= minArea * 0.8;
      }
    } else if |g.ring| > 6 {
      CutsAtLeastMin(g, minArea, o.split, fuel);
    }
  }

  function AtLeast(minArea: real): Shape -> bool
  {
    (g: Shape) => g.area >= minArea
  }

  /** `_criar_lotes_irregulares`: triangulation first, cuts when it gives nothing, then the area filter. */
  function IrregularLots(rest: Shape, minArea: real, o: IrregularOracle, fuel: nat): seq<Shape>
  {
    if rest.empty || rest.area < minArea then []
    else
      var byTriangles := AdaptiveTriangulation(rest, minArea, o, fuel);
      if byTriangles != [] then Filter(byTriangles, AtLeast(minArea))
      else
        match Cuts(rest, minArea, o.split, fuel)
        case None => []
        case Some(lots) => Filter(lots, AtLeast(minArea))
  }

  method CreateIrregularLots(rest: Shape, minArea: real, o: IrregularOracle, fuel: nat) returns (lots: seq<Shape>)
    ensures lots == IrregularLots(rest, minArea, o, fuel)
  {
    if rest.empty || rest.area < minArea {
      return [];
    }
    var byTriangles: seq<Shape> := [];
    if |rest.ring| >= 3 {
      if |rest.ring| <= 6 {
        var tris := TriangulatePolygon(rest.ring, (t: Triangle) => o.polygon(t).area);
        var polygons := MapPolygons(tris, o.polygon);
        byTriangles := GroupTriangles(polygons, minArea, ShapeArea(), o.touches, o.union);
      } else {
        var cut := Cuts(rest, minArea, o.split, fuel);
        byTriangles := if cut.Some? then cut.value else [];
      }
    }
    if byTriangles == [] {
      var cut := Cuts(rest, minArea, o.split, fuel);
      if cut.None? {
        return [];
      }
      byTriangles := cut.value;
    }
    lots := Filter(byTriangles, AtLeast(minArea));
  }

  /** Every irregular lot returned has at least the minimum area. */
  lemma IrregularLotsAtLeastMin(rest: Shape, minArea: real, o: IrregularOracle, fuel: nat)
    ensures forall g :: g in IrregularLots(rest, minArea, o, fuel) ==> g.area >= minArea
    ensures rest.empty || rest.area < minArea ==> IrregularLots(rest, minArea, o, fuel) == []
  {
  }

  /* ---------- statistics ---------- */

  function Positive(): Shape -> bool
  {
    (g: Shape) => g.area > 0.0
  }

  /** `sum(g.area for g in gs if g.area > 0)`. */
  function PositiveArea(gs: seq<Shape>): real
  {
    SumAreas(Filter(gs, Positive()))
  }

  /** Dropping the zero-area geometries does not change the sum. */
  lemma {:induction false} PositiveAreaIsSum(gs: seq<Shape>)
    ensures PositiveArea(gs) == SumAreas(gs)
  {
    if gs != [] {
      PositiveAreaIsSum(gs[1..]);
      assert gs == [gs[0]] + gs[1..];
      SumAreasCons(gs[0], gs[1..]);
      FilterAppend([gs[0]], gs[1..], Positive());
      FilterOne(gs[0], Positive());
      if gs[0].area > 0.0 {
        assert Filter(gs, Positive()) == [gs[0]] + Filter(gs[1..], Positive());
        SumAreasCons(gs[0], Filter(gs[1..], Positive()));
      } else {
        assert Filter(gs, Positive()) == Filter(gs[1..], Positive());
      }
    }
  }

  /** A share of the total area in percent, 0 when the total is not positive. */
  function Percent(part: real, total: real): real
  {
    if total > 0.0 then part / total * 100.0 else 0.0
  }

  lemma PercentMeaning(part: real, total: real)
    ensures total <= 0.0 ==> Percent(part, total) == 0.0
    ensures total > 0.0 ==> Percent(part, total) * total == part * 100.0
    ensures total > 0.0 && 0.0 <= part <= total ==> 0.0 <= Percent(part, total) <= 100.0
  {
    if total > 0.0 {
      assert part / total * 100.0 * total == part * 100.0;
      if 0.0 <= part <= total {
        assert part / total <= 1.0;
      }
    }
  }

  datatype Statistics = Statistics(
    totalArea: real, lotCount: nat,
    lotArea: real, roadArea: real, sidewalkArea: real, greenArea: real, institutionalArea: real,
    lotPercent: real, roadPercent: real, sidewalkPercent: real, greenPercent: real, institutionalPercent: real)

  /** The statistics `processar_loteamento_avancado` reports, from the final lists. */
  function StatisticsOf(total: real, lots: seq<Shape>, roads: seq<Shape>, sidewalks: seq<Shape>,
                        green: seq<Shape>, institutional: seq<Shape>): Statistics
  {
    var l := PositiveArea(lots);
    var r := PositiveArea(roads);
    var s := PositiveArea(sidewalks);
    var g := PositiveArea(green);
    var i := PositiveArea(institutional);
    Statistics(total, |lots|, l, r, s, g, i,
               Percent(l, total), Percent(r, total), Percent(s, total), Percent(g, total), Percent(i, total))
  }

  /**
   * The reported areas are the sums of the areas of each list, and each
   * percentage is that area over the total area; with a total area that is
   * not positive every percentage is zero.
   */
  lemma StatisticsMeaning(total: real, lots: seq<Shape>, roads: seq<Shape>, sidewalks: seq<Shape>,
                          green: seq<Shape>, institutional: seq<Shape>)
    ensures var st := StatisticsOf(total, lots, roads, sidewalks, green, institutional);
      && st.lotCount == |lots|
      && st.lotArea == SumAreas(lots) && st.greenArea == SumAreas(green)
      && st.institutionalArea == SumAreas(institutional)
      && st.roadArea == SumAreas(roads) && st.sidewalkArea == SumAreas(sidewalks)
      && (total <= 0.0 ==> st.lotPercent == 0.0 && st.roadPercent == 0.0 && st.sidewalkPercent == 0.0
                           && st.greenPercent == 0.0 && st.institutionalPercent == 0.0)
  {
    PositiveAreaIsSum(lots);
    PositiveAreaIsSum(roads);
    PositiveAreaIsSum(sidewalks);
    PositiveAreaIsSum(green);
    PositiveAreaIsSum(institutional);
  }

  /* ---------- common areas ---------- */

  function AtLeastReal(bound: real): Shape -> bool
  {
    (g: Shape) => g.area >= bound
  }

  function Below(bound: real): Shape -> bool
  {
    (g: Shape) => g.area < bound
  }

  /** A `for` loop that appends each item in turn. */
  method AppendEach(s: seq<Shape>, items: seq<Shape>) returns (r: seq<Shape>)
    ensures r == s + items
  {
    r := s;
    for k := 0 to |items|
      invariant r == s + items[..k]
    {
      assert items[..k + 1] == items[..k] + [items[k]];
      r := r + [items[k]];
    }
    assert items[..|items|] == items;
  }

  /** The loop dividing the blocks into those below a bound and the others, order kept. */
  method SplitBySize(blocks: seq<Shape>, bound: real) returns (small: seq<Shape>, kept: seq<Shape>)
    ensures small == Filter(blocks, Below(bound)) && kept == Filter(blocks, AtLeastReal(bound))
  {
    small, kept := [], [];
    var k := 0;
    while k < |blocks|
      invariant 0 <= k <= |blocks|
      invariant small == Filter(blocks[..k], Below(bound))
      invariant kept == Filter(blocks[..k], AtLeastReal(bound))
    {
      var q := blocks[k];
      assert blocks[..k + 1] == blocks[..k] + [q];
      FilterAppend(blocks[..k], [q], Below(bound));
      FilterAppend(blocks[..k], [q], AtLeastReal(bound));
      FilterOne(q, Below(bound));
      FilterOne(q, AtLeastReal(bound));
      if q.area < bound {
        small := small + [q];
      } else {
        kept := kept + [q];
      }
      k := k + 1;
    }
    assert blocks[..k] == blocks;
  }

  /* ---------- the processor ---------- */

  class AdvancedProcessor {
    const options: Options
    const original: Shape
    var internal: Shape
    var roadLines: seq<Shape>
    var roads: seq<Shape>
    var sidewalks: seq<Shape>
    var blocks: seq<Shape>
    var lots: seq<Shape>
    var green: seq<Shape>
    var institutional: seq<Shape>

    /**
     * The processor over a loaded perimeter, with the given options cleaned.
     * The internalised perimeter starts as the original until the
     * internalisation stage sets it.
     */
    constructor (params: map<string, Raw>, perimeter: Shape)
      ensures options == OptionsOf(Cleaned(params)) && AllAtLeastTenth(options)
      ensures original == perimeter && internal == perimeter
      ensures roadLines == [] && roads == [] && sidewalks == [] && blocks == [] && lots == []
      ensures green == [] && institutional == []
    {
      var clean := ValidateAndClean(params);
      CleanedOptionsAtLeastTenth(params);
      options := OptionsOf(clean);
      original := perimeter;
      internal := perimeter;
      roadLines := [];
      roads := [];
      sidewalks := [];
      blocks := [];
      lots := [];
      green := [];
      institutional := [];
    }

    /** `internalizar_perimetro_com_calcadas`; `erode(d)` buffers the original by -d. */
    method Internalize(erode: real -> Option<Shape>)
      modifies this`internal
      ensures internal == AdvancedInternal(original, erode, options.roadWidth, options.sidewalkWidth)
    {
      var road := options.roadWidth;
      var offset := (road + 2.0 * options.sidewalkWidth) / 2.0;
      var first := erode(offset);
      if first.None? {
        internal := original;
        return;
      }
      var r := first.value;
      if !r.valid || r.empty {
        var k := 0;
        while k < |RetryFactors|
          invariant 0 <= k <= |RetryFactors|
          invariant RetryFrom(erode, offset, k) == RetryFrom(erode, offset, 0)
          invariant k > 0 ==> !Usable(r)
          invariant k == |RetryFactors| ==> RetryFrom(erode, offset, k) == Missed
        {
          var g := erode(offset * RetryFactors[k]);
          if g.None? {
            assert RetryFrom(erode, offset, k) == Raised;
            internal := original;
            return;
          }
          r := g.value;
          if r.valid && !r.empty && r.area > 0.0 {
            assert RetryFrom(erode, offset, k) == Hit(r, k);
            break;
          }
          assert RetryFrom(erode, offset, k) == RetryFrom(erode, offset, k + 1);
          k := k + 1;
        }
      }
      if !r.valid || r.empty || r.area <= 0.0 {
        var last := erode(road / 2.0);
        if last.None? {
          internal := original;
          return;
        }
        r := last.value;
      }
      internal := r;
    }

    /**
     * The line-drawing part of `criar_sistema_viario_com_calcadas`.  `roadsOf`
     * and `sidewalksOf` are the polygon parts of the buffers of the lines by
     * half the road width and by half the road-plus-sidewalks width, minus the
     * roads.
     */
    method CreateRoadSystem(clip: (bool, real) -> seq<Shape>, central: (bool, real) -> Option<Shape>,
                            roadsOf: seq<Shape> -> seq<Shape>, sidewalksOf: seq<Shape> -> seq<Shape>)
      modifies this`roadLines, this`roads, this`sidewalks
      ensures roadLines == RoadLines(internal.bounds, internal.area, options.maxBlockDepth, clip, central)
      ensures roads == if roadLines == [] then [] else roadsOf(roadLines)
      ensures sidewalks == if roads == [] then [] else sidewalksOf(roadLines)
    {
      var lines := DrawRoadLines(internal.bounds, internal.area, options.maxBlockDepth, clip, central);
      roadLines := lines;
      roads := if lines == [] then [] else roadsOf(lines);
      sidewalks := if roads == [] then [] else sidewalksOf(lines);
    }

    /**
     * `_alocar_areas_sobras`: when any lot, road or sidewalk exists, the parts
     * of the internal perimeter they leave (`leftover` of the used geometries)
     * of at least 50 m2 join the green list, largest first.
     */
    method AllocateLeftovers(leftover: seq<Shape> -> Shape, geoms: Shape -> seq<Shape>)
      modifies this`green
      ensures var used := lots + roads + sidewalks;
        green == old(green) + Leftovers(leftover, geoms, used)
    {
      var used := lots + roads + sidewalks;
      if used != [] {
        var available := Filter(Pieces(leftover(used), geoms), AtLeastReal(50.0));
        available := SortByArea(available);
        green := AppendEach(green, available);
      }
    }

    /**
     * `_converter_quadras_pequenas_em_areas_comuns`: blocks under four minimum
     * lots leave the block list and are placed green / institutional / green.
     */
    method ConvertSmallBlocks(needGreen: real, needInstitutional: real)
      modifies this`blocks, this`green, this`institutional
      ensures var r := PlaceSmall(old(green), old(institutional), Filter(old(blocks), Below(options.minLotArea * 4.0)),
                                  needGreen, needInstitutional);
        && blocks == Filter(old(blocks), AtLeastReal(options.minLotArea * 4.0))
        && green == r.green && institutional == r.institutional
    {
      var small, kept := SplitBySize(blocks, options.minLotArea * 4.0);
      blocks := kept;
      green, institutional := PlaceEach(Allocation(green, institutional, [], SumAreas(green), SumAreas(institutional)),
                                        small, needGreen, needInstitutional, ToGreen);
    }

    /**
     * `_criar_areas_em_irregularidades`: the parts of at least 100 m2 of the
     * strip between the original and the internal perimeter (`fringe`) are
     * placed green / institutional, and left out once both needs are met.
     */
    method AllocateFringe(fringe: Shape, geoms: Shape -> seq<Shape>, needGreen: real, needInstitutional: real)
      modifies this`green, this`institutional
      ensures var parts := Filter(Pieces(fringe, geoms), AtLeastReal(100.0));
        var r := PlaceFringe(old(green), old(institutional), parts, needGreen, needInstitutional);
        green == r.green && institutional == r.institutional
    {
      var parts := Filter(Pieces(fringe, geoms), AtLeastReal(100.0));
      green, institutional := PlaceEach(Allocation(green, institutional, [], SumAreas(green), SumAreas(institutional)),
                                        parts, needGreen, needInstitutional, Discard);
    }

    /** `alocar_areas_comuns_estrategicamente`: the three strategies in order, against the same needs. */
    method AllocateCommonAreas(leftover: seq<Shape> -> Shape, fringe: Shape, geoms: Shape -> seq<Shape>)
      modifies this`blocks, this`green, this`institutional
      ensures blocks == Filter(old(blocks), AtLeastReal(options.minLotArea * 4.0))
      ensures var used := old(lots + roads + sidewalks);
        var r := Strategies(old(green), old(institutional), Leftovers(leftover, geoms, used),
                            Filter(old(blocks), Below(options.minLotArea * 4.0)),
                            Filter(Pieces(fringe, geoms), AtLeastReal(100.0)),
                            Need(original.area, options.greenPercent), Need(original.area, options.institutionalPercent));
        green == r.green && institutional == r.institutional
    {
      var needGreen := Need(original.area, options.greenPercent);
      var needInstitutional := Need(original.area, options.institutionalPercent);
      AllocateLeftovers(leftover, geoms);
      ConvertSmallBlocks(needGreen, needInstitutional);
      AllocateFringe(fringe, geoms, needGreen, needInstitutional);
    }

    function Report(): Statistics
      reads this
    {
      StatisticsOf(original.area, lots, roads, sidewalks, green, institutional)
    }
  }

  /**
   * Each small block ends in exactly one of the two lists, green being served
   * while below its need and institutional next; once both needs are met the
   * remaining small blocks still go green.
   */
  lemma SmallBlocksPlaced(small: seq<Shape>, green: seq<Shape>, institutional: seq<Shape>,
                          needGreen: real, needInstitutional: real)
    ensures var s := Allocation(green, institutional, [], SumAreas(green), SumAreas(institutional));
      var r := PlaceAll(s, small, needGreen, needInstitutional, ToGreen);
      && multiset(r.green) + multiset(r.institutional) == multiset(green) + multiset(institutional) + multiset(small)
      && green <= r.green && institutional <= r.institutional
      && (r.greenTotal < needGreen ==> r.green == green + small && r.institutional == institutional)
      && (|r.institutional| > |institutional| ==> r.greenTotal >= needGreen)
  {
    var s := Allocation(green, institutional, [], SumAreas(green), SumAreas(institutional));
    PlaceAllPartition(s, small, needGreen, needInstitutional, ToGreen);
    PlaceAllGreenFirst(s, small, needGreen, needInstitutional, ToGreen);
    var r := PlaceAll(s, small, needGreen, needInstitutional, ToGreen);
    assert r.discarded == [] && s.discarded == [];
    assert multiset(r.discarded) == multiset{} && multiset(s.discarded) == multiset{};
    calc {
      multiset(r.green) + multiset(r.institutional);
      multiset(r.green) + multiset(r.institutional) + multiset(r.discarded);
      multiset(s.green) + multiset(s.institutional) + multiset(s.discarded) + multiset(small);
      multiset(green) + multiset(institutional) + multiset(small);
    }
    assert green <= r.green && institutional <= r.institutional;
    assert r.greenTotal < needGreen ==> r.green == green + small && r.institutional == institutional;
    assert |r.institutional| > |institutional| ==> r.greenTotal >= needGreen;
  }

  /** The split by size keeps every block once: the small ones and the kept ones together are the blocks. */
  lemma SplitBySizeIsPartition(blocks: seq<Shape>, bound: real)
    ensures multiset(Filter(blocks, Below(bound))) + multiset(Filter(blocks, AtLeastReal(bound))) == multiset(blocks)
    ensures Subsequence(Filter(blocks, Below(bound)), blocks) && Subsequence(Filter(blocks, AtLeastReal(bound)), blocks)
  {
    FilterSplit(blocks, Below(bound), AtLeastReal(bound));
    FilterIsSubsequence(blocks, Below(bound));
    FilterIsSubsequence(blocks, AtLeastReal(bound));
  }

  /** Fringe parts are left out only when both needs are met. */
  lemma FringePlaced(parts: seq<Shape>, green: seq<Shape>, institutional: seq<Shape>,
                     needGreen: real, needInstitutional: real)
    ensures var s := Allocation(green, institutional, [], SumAreas(green), SumAreas(institutional));
      var r := PlaceAll(s, parts, needGreen, needInstitutional, Discard);
      && multiset(r.green) + multiset(r.institutional) + multiset(r.discarded)
         == multiset(green) + multiset(institutional) + multiset(parts)
      && (r.discarded != [] ==> r.greenTotal >= needGreen && r.institutionalTotal >= needInstitutional)
      && (r.greenTotal < needGreen ==> r.green == green + parts)
  {
    var s := Allocation(green, institutional, [], SumAreas(green), SumAreas(institutional));
    PlaceAllPartition(s, parts, needGreen, needInstitutional, Discard);
    PlaceAllGreenFirst(s, parts, needGreen, needInstitutional, Discard);
    PlaceAllDiscardsOnlyWhenFull(s, parts, needGreen, needInstitutional);
  }

  /** The leftover parts of at least 50 m2 that join green, largest first; none when nothing is used. */
  function Leftovers(leftover: seq<Shape> -> Shape, geoms: Shape -> seq<Shape>, used: seq<Shape>): seq<Shape>
  {
    if used == [] then [] else SortByArea(Filter(Pieces(leftover(used), geoms), AtLeastReal(50.0)))
  }

  /** The small blocks placed on the given lists, green being the overflow. */
  function PlaceSmall(green: seq<Shape>, institutional: seq<Shape>, small: seq<Shape>,
                      needGreen: real, needInstitutional: real): Allocation
  {
    PlaceAll(Allocation(green, institutional, [], SumAreas(green), SumAreas(institutional)),
             small, needGreen, needInstitutional, ToGreen)
  }

  /** The fringe parts placed on the given lists, left out once both needs are met. */
  function PlaceFringe(green: seq<Shape>, institutional: seq<Shape>, parts: seq<Shape>,
                       needGreen: real, needInstitutional: real): Allocation
  {
    PlaceAll(Allocation(green, institutional, [], SumAreas(green), SumAreas(institutional)),
             parts, needGreen, needInstitutional, Discard)
  }

  /**
   * The green and institutional lists after the three strategies, in order:
   * the leftovers join green, the small blocks are placed with green as the
   * overflow, and then the fringe parts are placed with nothing as the overflow.
   */
  function Strategies(green: seq<Shape>, institutional: seq<Shape>, leftovers: seq<Shape>,
                      small: seq<Shape>, parts: seq<Shape>, needGreen: real, needInstitutional: real): Allocation
  {
    var r := PlaceSmall(green + leftovers, institutional, small, needGreen, needInstitutional);
    PlaceFringe(r.green, r.institutional, parts, needGreen, needInstitutional)
  }

  /**
   * Across the three strategies nothing is lost or duplicated, the lists only
   * grow at the end (green first by the leftovers), and a fringe part is left
   * out only when both needs are met.
   */
  lemma StrategiesMeaning(green: seq<Shape>, institutional: seq<Shape>, leftovers: seq<Shape>,
                          small: seq<Shape>, parts: seq<Shape>, needGreen: real, needInstitutional: real)
    ensures var r := Strategies(green, institutional, leftovers, small, parts, needGreen, needInstitutional);
      && multiset(r.green) + multiset(r.institutional) + multiset(r.discarded)
         == multiset(green) + multiset(leftovers) + multiset(institutional) + multiset(small) + multiset(parts)
      && green + leftovers <= r.green && institutional <= r.institutional
      && (r.discarded != [] ==> r.greenTotal >= needGreen && r.institutionalTotal >= needInstitutional)
  {
    var green1 := green + leftovers;
    SmallBlocksPlaced(small, green1, institutional, needGreen, needInstitutional);
    var r2 := PlaceAll(Allocation(green1, institutional, [], SumAreas(green1), SumAreas(institutional)),
                       small, needGreen, needInstitutional, ToGreen);
    FringePlaced(parts, r2.green, r2.institutional, needGreen, needInstitutional);
    var s3 := Allocation(r2.green, r2.institutional, [], SumAreas(r2.green), SumAreas(r2.institutional));
    PlaceAllPartition(s3, parts, needGreen, needInstitutional, Discard);
    assert multiset(green1) == multiset(green) + multiset(leftovers);
  }

  /** The leftovers added to green are the parts of at least 50 m2, largest first, none lost. */
  lemma LeftoversOrdered(pieces: seq<Shape>)
    ensures var ls := SortByArea(Filter(pieces, AtLeastReal(50.0)));
      && SortedByAreaDesc(ls)
      && multiset(ls) == multiset(Filter(pieces, AtLeastReal(50.0)))
      && forall g :: g in ls ==> g.area >= 50.0
  {
    var f := Filter(pieces, AtLeastReal(50.0));
    SortByAreaCorrect(f);
    forall g | g in SortByArea(f) ensures g.area >= 50.0 {
      assert g in multiset(f);
    }
  }
}
