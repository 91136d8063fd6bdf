/**
 * The ultra-advanced processor (`LoteamentoProcessorUltraAvancado`): strategy
 * factors read from option labels, the corner rule on a block's ring, corner
 * lots sized by the corner strategy, lots along the road borders with ordered
 * depth candidates, strip division of what remains, and the greedy green and
 * institutional allocation.
 *
 * The options are a total record: every key the processor reads is present.
 * Geometry calls are the oracles of `UltraOracle`.
 */
module Ultra {
  import opened Geometry
  import opened Selection

  /* ---------- strategy factors ---------- */

  /** Python's `sub in s` on strings: sub occurs at some position of s. */
  predicate Occurs(sub: string, s: string)
    decreases |s|
  {
    sub <= s || (s != [] && Occurs(sub, s[1..]))
  }

  /** sub is the slice of s starting at index i. */
  predicate SliceAt(sub: string, s: string, i: nat)
  {
    i + |sub| <= |s| && s[i..i + |sub|] == sub
  }

  /** The recursive test is the substring test: sub is the slice of s at some index. */
  lemma {:induction false} OccursIffSlice(sub: string, s: string)
    ensures Occurs(sub, s) <==> exists i: nat :: SliceAt(sub, s, i)
    decreases |s|
  {
    SliceAtZero(sub, s);
    if sub <= s {
      assert SliceAt(sub, s, 0);
    } else if s != [] {
      OccursIffSlice(sub, s[1..]);
      if exists i: nat :: SliceAt(sub, s[1..], i) {
        var i: nat :| SliceAt(sub, s[1..], i);
        SliceShift(sub, s, i);
      }
      if exists i: nat :: SliceAt(sub, s, i) {
        var i: nat :| SliceAt(sub, s, i);
        SliceShift(sub, s, i - 1);
      }
    } else {
      assert forall i: nat :: !SliceAt(sub, s, i);
    }
  }

  lemma SliceAtZero(sub: string, s: string)
    ensures SliceAt(sub, s, 0) <==> sub <= s
  {
  }

  /** Dropping the first character of s moves every slice one index down. */
  lemma SliceShift(sub: string, s: string, i: nat)
    requires s != []
    ensures SliceAt(sub, s[1..], i) <==> SliceAt(sub, s, i + 1)
  {
    if i + 1 + |sub| <= |s| {
      assert s[i + 1..i + 1 + |sub|] == s[1..][i..i + |sub|];
    }
  }

  /** A character of sub that s lacks rules the occurrence out. */
  lemma {:induction false} AbsentCharNoOccurrence(sub: string, s: string, k: nat)
    requires k < |sub| && sub[k] !in s
    ensures !Occurs(sub, s)
    decreases |s|
  {
    if s != [] {
      assert forall c :: c in s[1..] ==> c in s;
      AbsentCharNoOccurrence(sub, s[1..], k);
    }
  }

  /** `options.get(key, default)` for a label option. */
  function LabelOr(labels: map<string, string>, key: string, default: string): string
  {
    if key in labels then labels[key] else default
  }

  /** Shape tolerance, by substring: 'Baixa' before 'Média', anything else is high. */
  function IrregularityFactor(tolerance: string): real
  {
    if Occurs("Baixa", tolerance) then 0.2
    else if Occurs("Média", tolerance) then 0.5
    else 0.8
  }

  /** Creative freedom, by exact label. */
  function CreativityFactor(freedom: string): real
  {
    if freedom == "Conservadora" then 0.2
    else if freedom == "Moderada" then 0.4
    else if freedom == "Criativa" then 0.7
    else 1.0
  }

  /** Lot density, by exact label. */
  function DensityFactor(density: string): real
  {
    if density == "Baixa" then 0.6
    else if density == "Média" then 0.8
    else if density == "Alta" then 1.0
    else 1.3
  }

  /**
   * Each factor names its level: the tolerance is low exactly when 'Baixa'
   * occurs in the label and medium exactly when only 'Média' does; creativity
   * and density are matched against whole labels, any other label giving the
   * top level.
   */
  lemma FactorLevels(tolerance: string, freedom: string, density: string)
    ensures IrregularityFactor(tolerance) == 0.2 <==> Occurs("Baixa", tolerance)
    ensures IrregularityFactor(tolerance) == 0.5 <==> !Occurs("Baixa", tolerance) && Occurs("Média", tolerance)
    ensures IrregularityFactor(tolerance) == 0.8 <==> !Occurs("Baixa", tolerance) && !Occurs("Média", tolerance)
    ensures CreativityFactor(freedom) == 1.0 <==> freedom !in {"Conservadora", "Moderada", "Criativa"}
    ensures DensityFactor(density) == 1.3 <==> density !in {"Baixa", "Média", "Alta"}
    ensures 0.2 <= CreativityFactor(freedom) <= 1.0 && 0.6 <= DensityFactor(density) <= 1.3
  {
  }

  /** The form's three tolerance labels give the three levels. */
  lemma FormToleranceLabels()
    ensures IrregularityFactor("Baixa (Mais Regular)") == 0.2
    ensures IrregularityFactor("Média") == 0.5
    ensures IrregularityFactor("Alta (Mais Irregular)") == 0.8
  {
    assert "Baixa" <= "Baixa (Mais Regular)";
    MediumLabel();
    HighLabel();
  }

  lemma MediumLabel()
    ensures !Occurs("Baixa", "Média") && Occurs("Média", "Média")
  {
    AbsentCharNoOccurrence("Baixa", "Média", 0);
    assert "Média" <= "Média";
  }

  lemma HighLabel()
    ensures !Occurs("Baixa", "Alta (Mais Irregular)") && !Occurs("Média", "Alta (Mais Irregular)")
  {
    HighLabelNotLow();
    HighLabelNotMedium();
  }

  lemma HighLabelNotLow()
    ensures !Occurs("Baixa", "Alta (Mais Irregular)")
  {
    AbsentCharNoOccurrence("Baixa", "Alta (Mais Irregular)", 0);
  }

  lemma HighLabelNotMedium()
    ensures !Occurs("Média", "Alta (Mais Irregular)")
  {
    AbsentCharNoOccurrence("Média", "Alta (Mais Irregular)", 1);
  }

  /** The test is by substring: a label merely containing 'Baixa' counts as low. */
  lemma ContainedLabelIsLow()
    ensures IrregularityFactor("Muito Baixa") == 0.2
  {
    var s := "Muito Baixa";
    assert SliceAt("Baixa", s, 6);
    OccursIffSlice("Baixa", s);
  }

  /** The options the processor reads, all present. */
  datatype UltraOptions = UltraOptions(
    minLotArea: real, preferredFrontage: real, minFrontage: real, maxFrontage: real,
    defaultDepth: real, minDepth: real, maxDepth: real,
    greenPercent: real, institutionalPercent: real)

  /* ---------- block analysis ---------- */

  datatype Orientation = Horizontal | Vertical | Square

  /** The orientation of `_analisar_geometria_quadra`: a side 1.5 times the other decides it. */
  function BlockOrientation(width: real, height: real): Orientation
  {
    if width > height * 1.5 then Horizontal
    else if height > width * 1.5 then Vertical
    else Square
  }

  /**
   * A horizontal block is wider than high and a vertical one higher than
   * wide; a square one has neither side over 1.5 times the other; and swapping
   * the sides swaps horizontal and vertical.
   */
  lemma OrientationMeaning(width: real, height: real)
    requires width >= 0.0 && height >= 0.0
    ensures BlockOrientation(width, height) == Horizontal ==> width > height
    ensures BlockOrientation(width, height) == Vertical ==> height > width
    ensures BlockOrientation(width, height) == Square <==> width <= height * 1.5 && height <= width * 1.5
    ensures BlockOrientation(height, width) ==
              match BlockOrientation(width, height)
              case Horizontal => Vertical
              case Vertical => Horizontal
              case Square => Square
  {
  }

  /* ---------- corners ---------- */

  /** A corner: the vertex, its angle in degrees, its index and whether it is convex. */
  datatype Corner = Corner(point: Point, angle: real, index: nat, convex: bool)

  /** Index of the previous vertex: `coords[i - 1]` wraps from 0 to the last vertex. */
  function Prev(i: nat, n: nat): nat
    requires i < n
  {
    if i == 0 then n - 1 else i - 1
  }

  /** `(i + 1) % n` for i < n. */
  function Next(i: nat, n: nat): nat
    requires i < n
  {
    if i + 1 == n then 0 else i + 1
  }

  /** The vector from p to q. */
  function Vector(p: Point, q: Point): Point
  {
    Point(q.x - p.x, q.y - p.y)
  }

  /** A vector of positive length (`sqrt(x*x + y*y) > 0` in exact reals). */
  predicate NonZero(v: Point) { v.x != 0.0 || v.y != 0.0 }

  function Dot(u: Point, v: Point): real { u.x * v.x + u.y * v.y }

  /**
   * The corner rule of `_identificar_esquinas` at vertex i: both edges have
   * positive length and the angle between them (the library's degrees of the
   * arc cosine, `angle(v1, v2)`) is under 150; it is convex under 90.
   */
  function CornerAt(coords: seq<Point>, i: nat, angle: (Point, Point) -> real): Option<Corner>
    requires i < |coords|
  {
    var p := coords[i];
    var v1 := Vector(p, coords[Prev(i, |coords|)]);
    var v2 := Vector(p, coords[Next(i, |coords|)]);
    if NonZero(v1) && NonZero(v2) && angle(v1, v2) < 150.0 then
      Some(Corner(p, angle(v1, v2), i, angle(v1, v2) < 90.0))
    else None
  }

  /** The corners among the first k vertices, in vertex order. */
  function CornersUpTo(coords: seq<Point>, angle: (Point, Point) -> real, k: nat): seq<Corner>
    requires k <= |coords|
  {
    if k == 0 then []
    else
      var c := CornerAt(coords, k - 1, angle);
      CornersUpTo(coords, angle, k - 1) + (if c.Some? then [c.value] else [])
  }

  function Corners(coords: seq<Point>, angle: (Point, Point) -> real): seq<Corner>
  {
    CornersUpTo(coords, angle, |coords|)
  }

  /** `_identificar_esquinas`: the index loop appending each corner found. */
  method IdentifyCorners(coords: seq<Point>, angle: (Point, Point) -> real) returns (corners: seq<Corner>)
    ensures corners == Corners(coords, angle)
  {
    corners := [];
    var n := |coords|;
    for i := 0 to n
      invariant corners == CornersUpTo(coords, angle, i)
    {
      var p1 := coords[if i == 0 then n - 1 else i - 1];
      var p2 := coords[i];
      var p3 := coords[if i + 1 == n then 0 else i + 1];
      var v1 := Point(p1.x - p2.x, p1.y - p2.y);
      var v2 := Point(p3.x - p2.x, p3.y - p2.y);
      if (v1.x != 0.0 || v1.y != 0.0) && (v2.x != 0.0 || v2.y != 0.0) {
        var degrees := angle(v1, v2);
        if degrees < 150.0 {
          corners := corners + [Corner(p2, degrees, i, degrees < 90.0)];
        }
      }
    }
  }

  predicate IndicesIncreasing(r: seq<Corner>)
  {
    forall a, b :: 0 <= a < b < |r| ==> r[a].index < r[b].index
  }

  /**
   * The corners are listed in vertex order, each is the corner its vertex
   * yields, and every vertex that yields a corner is listed: vertex i is a
   * corner exactly when the rule holds at i.
   */
  lemma {:induction false} CornersListed(coords: seq<Point>, angle: (Point, Point) -> real, k: nat)
    requires k <= |coords|
    ensures IndicesIncreasing(CornersUpTo(coords, angle, k))
    ensures forall c :: c in CornersUpTo(coords, angle, k) ==>
              c.index < k && CornerAt(coords, c.index, angle) == Some(c)
    ensures forall i :: 0 <= i < k && CornerAt(coords, i, angle).Some? ==>
              CornerAt(coords, i, angle).value in CornersUpTo(coords, angle, k)
  {
    if k > 0 {
      CornersListed(coords, angle, k - 1);
      var prev := CornersUpTo(coords, angle, k - 1);
      var c := CornerAt(coords, k - 1, angle);
      if c.Some? {
        var r := prev + [c.value];
        assert CornersUpTo(coords, angle, k) == r;
        assert c.value.index == k - 1;
        forall a, b | 0 <= a < b < |r| ensures r[a].index < r[b].index {
          assert r[a] == prev[a];
          assert prev[a] in prev;
          if b < |prev| {
            assert r[b] == prev[b];
          }
        }
      }
    }
  }

  /** The angle oracle agrees with geometry on acuteness: under 90 degrees exactly when the dot product is positive. */
  ghost predicate AcuteIffPositiveDot(angle: (Point, Point) -> real)
  {
    forall u, v :: NonZero(u) && NonZero(v) ==> (angle(u, v) < 90.0 <==> Dot(u, v) > 0.0)
  }

  /**
   * A corner is convex exactly when its two edge vectors have a positive dot
   * product; the first vertex is judged against the last one.
   */
  lemma CornerConvexIffDot(coords: seq<Point>, i: nat, angle: (Point, Point) -> real)
    requires i < |coords| && AcuteIffPositiveDot(angle)
    ensures var c := CornerAt(coords, i, angle);
      c.Some? ==> (c.value.convex <==>
        Dot(Vector(coords[i], coords[Prev(i, |coords|)]), Vector(coords[i], coords[Next(i, |coords|)])) > 0.0)
    ensures i == 0 ==> Prev(i, |coords|) == |coords| - 1
  {
  }

  /* ---------- corner lots ---------- */

  /** (frontage, depth) of a corner lot by strategy; an unknown strategy is the automatic one. */
  function CornerDimensions(strategy: string, o: UltraOptions): (real, real)
  {
    if strategy == "Testada Maior" then (o.maxFrontage, o.minDepth)
    else if strategy == "Testada Menor" then (o.minFrontage, o.maxDepth)
    else if strategy == "Área Maior" then (o.preferredFrontage, o.maxDepth)
    else (o.preferredFrontage, o.defaultDepth)
  }

  /**
   * The strategies: 'Testada Maior' makes the widest and shallowest corner lot,
   * 'Testada Menor' the narrowest and deepest, 'Área Maior' the preferred
   * frontage at the largest depth, and every other label the preferred frontage
   * at the default depth.
   */
  lemma CornerStrategyTable(strategy: string, o: UltraOptions)
    requires o.minFrontage <= o.maxFrontage && o.minDepth <= o.maxDepth
    ensures CornerDimensions("Testada Maior", o).0 >= CornerDimensions("Testada Menor", o).0
    ensures CornerDimensions("Testada Maior", o).1 <= CornerDimensions("Testada Menor", o).1
    ensures CornerDimensions("Área Maior", o) == (o.preferredFrontage, o.maxDepth)
    ensures strategy !in {"Testada Maior", "Testada Menor", "Área Maior"} ==>
              CornerDimensions(strategy, o) == (o.preferredFrontage, o.defaultDepth)
    ensures CornerDimensions(strategy, o).1 in {o.minDepth, o.maxDepth, o.defaultDepth}
  {
  }

  /**
   * `_criar_lote_esquina_individual`: the corner rectangle of the strategy's
   * frontage and depth, clipped to the block by `clip`, kept when it is a
   * polygon of at least the minimum area.
   */
  function CornerLot(block: Shape, c: Corner, strategy: string, o: UltraOptions,
                     clip: (Shape, Corner, real, real) -> Shape): Option<Shape>
  {
    var (frontage, depth) := CornerDimensions(strategy, o);
    var g := clip(block, c, frontage, depth);
    if IsPolygon(g) && g.area >= o.minLotArea then Some(g) else None
  }

  /** `if lote:` on a result that may be None: a geometry is true when it is not empty. */
  predicate Present(lot: Option<Shape>)
  {
    lot.Some? && !lot.value.empty
  }

  /** The corner lots of the first k corners: only corners under 120 degrees are tried. */
  function CornerLots(corners: seq<Corner>, strategy: string, o: UltraOptions,
                      block: Shape, clip: (Shape, Corner, real, real) -> Shape, k: nat): seq<Shape>
    requires k <= |corners|
  {
    if k == 0 then []
    else
      var c := corners[k - 1];
      var lot := CornerLot(block, c, strategy, o, clip);
      CornerLots(corners, strategy, o, block, clip, k - 1)
        + (if c.angle < 120.0 && Present(lot) then [lot.value] else [])
  }

  /** `_criar_lotes_esquina_otimizados`. */
  method CreateCornerLots(corners: seq<Corner>, strategy: string, o: UltraOptions,
                          block: Shape, clip: (Shape, Corner, real, real) -> Shape)
    returns (lots: seq<Shape>)
    ensures lots == CornerLots(corners, strategy, o, block, clip, |corners|)
  {
    lots := [];
    for k := 0 to |corners|
      invariant lots == CornerLots(corners, strategy, o, block, clip, k)
    {
      var c := corners[k];
      if c.angle < 120.0 {
        var lot := CornerLot(block, c, strategy, o, clip);
        if lot.Some? && !lot.value.empty {
          lots := lots + [lot.value];
        }
      }
    }
  }

  /** Each corner lot is a polygon of at least the minimum area, from a corner under 120 degrees. */
  lemma {:induction false} CornerLotsFit(corners: seq<Corner>, strategy: string, o: UltraOptions,
                                         block: Shape, clip: (Shape, Corner, real, real) -> Shape, k: nat)
    requires k <= |corners|
    ensures |CornerLots(corners, strategy, o, block, clip, k)| <= k
    ensures forall g :: g in CornerLots(corners, strategy, o, block, clip, k) ==>
              IsPolygon(g) && !g.empty && g.area >= o.minLotArea
              && exists j :: 0 <= j < k && corners[j].angle < 120.0 && CornerLot(block, corners[j], strategy, o, clip) == Some(g)
    ensures forall j :: 0 <= j < k && corners[j].angle >= 120.0 ==>
              CornerLots(corners, strategy, o, block, clip, j + 1) == CornerLots(corners, strategy, o, block, clip, j)
  {
    if k > 0 {
      CornerLotsFit(corners, strategy, o, block, clip, k - 1);
    }
  }

  /* ---------- lots along a border ---------- */

  /**
   * `_subdividir_borda_inteligente`'s count: L / preferred frontage rounded
   * down (at least one), scaled by the density factor and rounded down again
   * (at least one).  None when the preferred frontage is zero: the division
   * raises and the border gets no lots.
   */
  function BorderCount(length: real, preferred: real, density: real): Option<int>
  {
    if preferred == 0.0 then None
    else Some(MaxInt(1, Trunc(MaxInt(1, Trunc(length / preferred)) as real * density)))
  }

  /**
   * There is at least one lot; the lots of width L / n fill the border; at
   * density 1 the count is the plain count; and a density above 1 never
   * lowers it.
   */
  lemma BorderCountMeaning(length: real, preferred: real, density: real)
    requires length >= 0.0 && density >= 0.0
    ensures BorderCount(length, preferred, density).None? <==> preferred == 0.0
    ensures BorderCount(length, preferred, density).Some? ==>
              var n := BorderCount(length, preferred, density).value;
              n >= 1 && n as real * (length / n as real) == length
    ensures preferred != 0.0 && density == 1.0 ==>
              BorderCount(length, preferred, density) == Some(MaxInt(1, Trunc(length / preferred)))
    ensures preferred != 0.0 && density >= 1.0 ==>
              BorderCount(length, preferred, density).value >= MaxInt(1, Trunc(length / preferred))
  {
    if preferred != 0.0 {
      var n0 := MaxInt(1, Trunc(length / preferred));
      ScaledCountAtLeast(n0, density);
      CountFills(length, BorderCount(length, preferred, density).value);
    }
  }

  lemma ScaledCountAtLeast(n0: int, density: real)
    requires n0 >= 1 && density >= 0.0
    ensures density == 1.0 ==> MaxInt(1, Trunc(n0 as real * density)) == n0
    ensures density >= 1.0 ==> MaxInt(1, Trunc(n0 as real * density)) >= n0
  {
    if density >= 1.0 {
      assert n0 as real * density >= n0 as real;
    }
  }

  lemma CountFills(length: real, n: int)
    requires n >= 1
    ensures n as real * (length / n as real) == length
  {
  }

  /** The depths `_criar_lote_ao_longo_borda` tries, in order: the minimum depth scaled, capped at the maximum. */
  function DepthCandidates(o: UltraOptions): seq<real>
  {
    [MinReal(o.maxDepth, o.minDepth * 1.0), MinReal(o.maxDepth, o.minDepth * 0.8), MinReal(o.maxDepth, o.minDepth * 0.6),
     MinReal(o.maxDepth, o.minDepth * 1.2), MinReal(o.maxDepth, o.minDepth * 1.5)]
  }

  /** The acceptance test of one depth: the clipped rectangle is a polygon of at least the minimum area. */
  function DepthFits(clip: (real, real, real) -> Shape, s: real, e: real, minArea: real): real -> bool
  {
    (d: real) => IsPolygon(clip(s, e, d)) && clip(s, e, d).area >= minArea
  }

  /**
   * `_criar_lote_ao_longo_borda`: `clip(s, e, d)` is the rectangle over the
   * normalised stretch [s, e] of the border at depth d, clipped to the area.
   */
  function BorderLot(clip: (real, real, real) -> Shape, s: real, e: real, o: UltraOptions): Option<Shape>
  {
    match FirstAccepted(DepthCandidates(o), DepthFits(clip, s, e, o.minLotArea))
    case None => None
    case Some(k) => Some(clip(s, e, DepthCandidates(o)[k]))
  }

  method CreateBorderLot(clip: (real, real, real) -> Shape, j: nat, n: nat, o: UltraOptions)
    returns (lot: Option<Shape>)
    requires n > 0
    ensures lot == BorderLot(clip, Fraction(j, n), Fraction(j + 1, n), o)
  {
    var s := j as real / n as real;
    var e := (j + 1) as real / n as real;
    var factors := [1.0, 0.8, 0.6, 1.2, 1.5];
    ghost var ok := DepthFits(clip, s, e, o.minLotArea);
    ghost var depths := DepthCandidates(o);
    var k := 0;
    while k < |factors|
      invariant 0 <= k <= |factors|
      invariant forall i :: 0 <= i < k ==> !ok(depths[i])
    {
      var depth := MinReal(o.maxDepth, o.minDepth * factors[k]);
      assert depth == depths[k];
      var g := clip(s, e, depth);
      if IsPolygon(g) && g.area >= o.minLotArea {
        assert FirstAccepted(depths, ok) == Some(k);
        return Some(g);
      }
      k := k + 1;
    }
    assert FirstAccepted(depths, ok) == None;
    return None;
  }

  /** The first depth candidate whose clip fits is used; there is no lot only when none fits. */
  lemma BorderLotFirst(clip: (real, real, real) -> Shape, s: real, e: real, o: UltraOptions)
    ensures var fits := DepthFits(clip, s, e, o.minLotArea);
      BorderLot(clip, s, e, o).None? <==> forall i :: 0 <= i < 5 ==> !fits(DepthCandidates(o)[i])
    ensures var fits := DepthFits(clip, s, e, o.minLotArea);
      var k := FirstAccepted(DepthCandidates(o), fits);
      k.Some? ==>
        && BorderLot(clip, s, e, o) == Some(clip(s, e, DepthCandidates(o)[k.value]))
        && (forall i :: 0 <= i < k.value ==> !fits(DepthCandidates(o)[i]))
        && IsPolygon(BorderLot(clip, s, e, o).value) && BorderLot(clip, s, e, o).value.area >= o.minLotArea
    ensures forall i :: 0 <= i < 5 ==> DepthCandidates(o)[i] <= o.maxDepth
  {
  }

  /** `if lote and lote.area >= area_minima`. */
  predicate KeptLot(lot: Option<Shape>, minArea: real)
  {
    Present(lot) && lot.value.area >= minArea
  }

  /** The lots of the first k of n stretches [j/n, (j+1)/n] of a border. */
  function StretchLots(clip: (real, real, real) -> Shape, n: nat, o: UltraOptions, k: nat): seq<Shape>
    requires 0 < n && k <= n
  {
    if k == 0 then []
    else
      var lot := BorderLot(clip, Fraction(k - 1, n), Fraction(k, n), o);
      StretchLots(clip, n, o, k - 1) + (if KeptLot(lot, o.minLotArea) then [lot.value] else [])
  }

  lemma StretchLotsNext(clip: (real, real, real) -> Shape, n: nat, o: UltraOptions, k: nat)
    requires k < n
    ensures var lot := BorderLot(clip, Fraction(k, n), Fraction(k + 1, n), o);
            StretchLots(clip, n, o, k + 1)
            == StretchLots(clip, n, o, k) + (if KeptLot(lot, o.minLotArea) then [lot.value] else [])
  {
  }

  /** The lots along one border of the given length. */
  function BorderLots(clip: (real, real, real) -> Shape, length: real, o: UltraOptions, density: real): seq<Shape>
  {
    match BorderCount(length, o.preferredFrontage, density)
    case None => []
    case Some(n) => if n > 0 then StretchLots(clip, n, o, n) else []
  }

  /** `_subdividir_borda_inteligente`. */
  method SubdivideBorder(clip: (real, real, real) -> Shape, length: real, o: UltraOptions, density: real)
    returns (lots: seq<Shape>)
    ensures lots == BorderLots(clip, length, o, density)
  {
    lots := [];
    var count := BorderCount(length, o.preferredFrontage, density);
    if count.None? || count.value <= 0 {
      return;
    }
    lots := CreateStretchLots(clip, count.value, o);
  }

  /** The loop over the n stretches of a border. */
  method CreateStretchLots(clip: (real, real, real) -> Shape, n: nat, o: UltraOptions) returns (lots: seq<Shape>)
    requires n > 0
    ensures lots == StretchLots(clip, n, o, n)
  {
    lots := [];
    for i := 0 to n
      invariant lots == StretchLots(clip, n, o, i)
    {
      var lot := CreateBorderLot(clip, i, n, o);
      StretchLotsNext(clip, n, o, i);
      var more := if KeptLot(lot, o.minLotArea) then [lot.value] else [];
      lots := lots + more;
    }
  }

  /** Every border lot is a polygon of at least the minimum area, at most one per stretch. */
  lemma {:induction false} StretchLotsFit(clip: (real, real, real) -> Shape, n: nat, o: UltraOptions, k: nat)
    requires 0 < n && k <= n
    ensures |StretchLots(clip, n, o, k)| <= k
    ensures forall g :: g in StretchLots(clip, n, o, k) ==> IsPolygon(g) && g.area >= o.minLotArea
  {
    if k > 0 {
      StretchLotsFit(clip, n, o, k - 1);
      BorderLotFirst(clip, Fraction(k - 1, n), Fraction(k, n), o);
    }
  }

  /* ---------- strip division ---------- */

  /**
   * Strip i of `_dividir_verticalmente`, as [x0, x1]: strip 0 is the first
   * slice, and every later i takes the slice before it, so the first slice
   * comes twice and the last never.
   */
  function VerticalStrip(minX: real, w: real, i: nat): (real, real)
  {
    if i == 0 then (minX, minX + w)
    else (minX + (i - 1) as real * w, minX + i as real * w)
  }

  /** Strip i of `_dividir_horizontalmente`, as [y0, y1]. */
  function HorizontalStrip(minY: real, h: real, i: nat): (real, real)
  {
    (minY + i as real * h, minY + (i + 1) as real * h)
  }

  /**
   * With two strips or more the first two are the same slice, and no strip
   * ends beyond minX + (n - 1) w, short of the right edge minX + n w: the last
   * slice is never produced.
   */
  lemma VerticalStripsQuirk(minX: real, w: real, n: nat)
    requires n >= 2 && w > 0.0
    ensures VerticalStrip(minX, w, 0) == VerticalStrip(minX, w, 1)
    ensures forall i :: 0 <= i < n ==> VerticalStrip(minX, w, i).1 <= minX + (n - 1) as real * w
    ensures minX + (n - 1) as real * w < minX + n as real * w
  {
    forall i | 0 <= i < n
      ensures VerticalStrip(minX, w, i).1 <= minX + (n - 1) as real * w
    {
      StripEndMonotone(minX, w, i, n - 1);
    }
  }

  lemma StripEndMonotone(minX: real, w: real, i: nat, m: nat)
    requires w > 0.0 && 1 <= m && i <= m
    ensures VerticalStrip(minX, w, i).1 <= minX + m as real * w
  {
    if i > 0 {
      assert i as real * w <= m as real * w;
    }
  }

  /** The horizontal strips tile the height: each starts where the previous ends, from minY to minY + n h. */
  lemma HorizontalStripsTile(minY: real, h: real, n: nat, i: nat)
    requires n >= 1 && i + 1 < n
    ensures HorizontalStrip(minY, h, 0).0 == minY
    ensures HorizontalStrip(minY, h, n - 1).1 == minY + n as real * h
    ensures HorizontalStrip(minY, h, i).1 == HorizontalStrip(minY, h, i + 1).0
  {
  }

  /** The lot of one strip: its rectangle clipped to the area, if a polygon of the minimum area. */
  function StripLot(stripClip: (bool, real, real) -> Shape, vertical: bool, strip: (real, real), minArea: real): seq<Shape>
  {
    var g := stripClip(vertical, strip.0, strip.1);
    if IsPolygon(g) && g.area >= minArea then [g] else []
  }

  /** The lots of the first k strips of a division. */
  function StripLots(stripClip: (bool, real, real) -> Shape, vertical: bool, start: real, step: real,
                     minArea: real, k: nat): seq<Shape>
  {
    if k == 0 then []
    else
      var strip := if vertical then VerticalStrip(start, step, k - 1) else HorizontalStrip(start, step, k - 1);
      StripLots(stripClip, vertical, start, step, minArea, k - 1) + StripLot(stripClip, vertical, strip, minArea)
  }

  /**
   * A division across `extent` into max(1, int(extent / size)) strips; None
   * when size is zero (the division raises).
   */
  function Division(stripClip: (bool, real, real) -> Shape, vertical: bool, start: real, extent: real,
                    size: real, minArea: real): Option<seq<Shape>>
  {
    if size == 0.0 then None
    else
      var n := MaxInt(1, Trunc(extent / size));
      Some(StripLots(stripClip, vertical, start, extent / n as real, minArea, n))
  }

  /** `_dividir_verticalmente` (vertical) and `_dividir_horizontalmente`: the strip loop. */
  method Divide(stripClip: (bool, real, real) -> Shape, vertical: bool, start: real, extent: real,
                size: real, minArea: real)
    returns (lots: Option<seq<Shape>>)
    ensures lots == Division(stripClip, vertical, start, extent, size, minArea)
  {
    if size == 0.0 {
      return None;
    }
    var n := MaxInt(1, Trunc(extent / size));
    var step := extent / n as real;
    var acc: seq<Shape> := [];
    for i := 0 to n
      invariant acc == StripLots(stripClip, vertical, start, step, minArea, i)
    {
      var strip := if vertical then VerticalStrip(start, step, i) else HorizontalStrip(start, step, i);
      var g := stripClip(vertical, strip.0, strip.1);
      if IsPolygon(g) && g.area >= minArea {
        acc := acc + [g];
      }
    }
    return Some(acc);
  }

  /** Every strip lot reaches the minimum area; in a vertical division the second strip repeats the first lot. */
  lemma {:induction false} StripLotsFit(stripClip: (bool, real, real) -> Shape, vertical: bool, start: real, step: real,
                                        minArea: real, k: nat)
    ensures |StripLots(stripClip, vertical, start, step, minArea, k)| <= k
    ensures forall g :: g in StripLots(stripClip, vertical, start, step, minArea, k) ==> IsPolygon(g) && g.area >= minArea
    ensures vertical && k >= 2 ==>
              StripLots(stripClip, vertical, start, step, minArea, 2)
              == StripLot(stripClip, true, VerticalStrip(start, step, 0), minArea)
                 + StripLot(stripClip, true, VerticalStrip(start, step, 0), minArea)
  {
    if k > 0 {
      StripLotsFit(stripClip, vertical, start, step, minArea, k - 1);
    }
  }

  /* ---------- the remaining area of a block ---------- */

  /**
   * The library calls the block subdivision makes.
   *  - angle(v1, v2): degrees between two edge vectors (arc cosine of the clamped cosine)
   *  - cornerClip(block, c, f, d): the corner rectangle clipped to the block
   *  - difference(g, parts): g minus the union of parts
   *  - roadEdges(g): lengths of the ring edges within 5 m of a road, in ring order
   *  - edgeClip(g, j): the clip for the j-th road edge, as `BorderLot` takes it
   *  - stripClip(g): the strip clip for g, as `StripLot` takes it
   *  - triangulate(g): `_triangular_area_adaptativa`
   *  - hasAccess(g): some road is within 2 m of g
   */
  datatype UltraOracle = UltraOracle(
    angle: (Point, Point) -> real,
    cornerClip: (Shape, Corner, real, real) -> Shape,
    difference: (Shape, seq<Shape>) -> Shape,
    roadEdges: Shape -> seq<real>,
    edgeClip: (Shape, nat) -> (real, real, real) -> Shape,
    stripClip: Shape -> (bool, real, real) -> Shape,
    triangulate: Shape -> seq<Shape>,
    hasAccess: Shape -> bool)

  /** The lots along the first k road edges of an area, in edge order (`_criar_lotes_bordas_otimizados`). */
  function EdgeLots(g: Shape, edges: seq<real>, k: nat, o: UltraOptions, density: real, u: UltraOracle): seq<Shape>
    requires k <= |edges|
  {
    if k == 0 then []
    else EdgeLots(g, edges, k - 1, o, density, u) + BorderLots(u.edgeClip(g, k - 1), edges[k - 1], o, density)
  }

  /** `_criar_lotes_bordas_otimizados`: the loop over the road edges, extending the list. */
  method CreateEdgeLots(g: Shape, edges: seq<real>, o: UltraOptions, density: real, u: UltraOracle)
    returns (lots: seq<Shape>)
    ensures lots == EdgeLots(g, edges, |edges|, o, density, u)
  {
    lots := [];
    for j := 0 to |edges|
      invariant lots == EdgeLots(g, edges, j, o, density, u)
    {
      var more := SubdivideBorder(u.edgeClip(g, j), edges[j], o, density);
      lots := lots + more;
    }
  }

  /** `_criar_lotes_centro_adaptativos`: one lot, a strip division by the longer side, or the triangulation. */
  function CenterLots(g: Shape, o: UltraOptions, u: UltraOracle): seq<Shape>
  {
    if g.area < o.minLotArea * 2.0 then (if g.area >= o.minLotArea then [g] else [])
    else
      var b := g.bounds;
      if b.Width() > b.Height() * 2.0 then
        match Division(u.stripClip(g), true, b.minX, b.Width(), o.preferredFrontage, o.minLotArea)
        case None => []
        case Some(lots) => lots
      else if b.Height() > b.Width() * 2.0 then
        match Division(u.stripClip(g), false, b.minY, b.Height(), o.defaultDepth, o.minLotArea)
        case None => []
        case Some(lots) => lots
      else u.triangulate(g)
  }

  /** The method form of `_criar_lotes_centro_adaptativos`. */
  method CreateCenterLots(g: Shape, o: UltraOptions, u: UltraOracle) returns (lots: seq<Shape>)
    ensures lots == CenterLots(g, o, u)
  {
    if g.area < o.minLotArea * 2.0 {
      lots := [];
      if g.area >= o.minLotArea {
        lots := [g];
      }
      return;
    }
    var b := g.bounds;
    var width := b.maxX - b.minX;
    var height := b.maxY - b.minY;
    var division: Option<seq<Shape>>;
    if width > height * 2.0 {
      division := Divide(u.stripClip(g), true, b.minX, width, o.preferredFrontage, o.minLotArea);
    } else if height > width * 2.0 {
      division := Divide(u.stripClip(g), false, b.minY, height, o.defaultDepth, o.minLotArea);
    } else {
      return u.triangulate(g);
    }
    lots := if division.Some? then division.value else [];
  }

  /** Whether the remaining area is worth another stage: a polygon above the minimum area. */
  predicate Worth(g: Shape, o: UltraOptions)
  {
    IsPolygon(g) && g.area > o.minLotArea
  }

  function PolygonAtLeast(minArea: real): Shape -> bool
  {
    (g: Shape) => IsPolygon(g) && g.area >= minArea
  }

  lemma PolygonAtLeastAt(minArea: real, g: Shape)
    ensures PolygonAtLeast(minArea)(g) <==> IsPolygon(g) && g.area >= minArea
  {
  }

  /**
   * `_subdividir_quadra_otimizada`: corner lots, then lots along the road
   * edges of what remains, then lots in the centre of what still remains,
   * keeping in the end only the polygons of at least the minimum area.
   */
  function OptimisedLots(block: Shape, strategy: string, o: UltraOptions, density: real, u: UltraOracle): seq<Shape>
  {
    var corners := Corners(block.ring, u.angle);
    var cornerLots := CornerLots(corners, strategy, o, block, u.cornerClip, |corners|);
    var rest := if cornerLots != [] then u.difference(block, cornerLots) else block;
    var borderLots := if Worth(rest, o) then EdgeLots(rest, u.roadEdges(rest), |u.roadEdges(rest)|, o, density, u) else [];
    var rest2 := if Worth(rest, o) && borderLots != [] then u.difference(rest, borderLots) else rest;
    var centerLots := if Worth(rest2, o) then CenterLots(rest2, o, u) else [];
    Filter(cornerLots + borderLots + centerLots, PolygonAtLeast(o.minLotArea))
  }

  /** Every lot of an optimised block is a polygon of at least the minimum area. */
  lemma OptimisedLotsFit(block: Shape, strategy: string, o: UltraOptions, density: real, u: UltraOracle)
    ensures forall g :: g in OptimisedLots(block, strategy, o, density, u) ==> IsPolygon(g) && g.area >= o.minLotArea
  {
  }

  /** The final loop keeping the polygons of at least the minimum area, in order. */
  method KeepLarge(lots: seq<Shape>, minArea: real) returns (kept: seq<Shape>)
    ensures kept == Filter(lots, PolygonAtLeast(minArea))
  {
    kept := [];
    ghost var p := PolygonAtLeast(minArea);
    for i := 0 to |lots|
      invariant kept + Filter(lots[i..], p) == Filter(lots, p)
    {
      var lot := lots[i];
      FilterLoopStep(lots, i, p, kept);
      PolygonAtLeastAt(minArea, lot);
      var here := if IsPolygon(lot) && lot.area >= minArea then [lot] else [];
      kept := kept + here;
    }
    assert lots[|lots|..] == [];
    assert kept + [] == kept;
  }

  /** `_subdividir_quadra_otimizada`: the three stages and the final filter, step by step. */
  method SubdivideBlock(block: Shape, strategy: string, o: UltraOptions, density: real, u: UltraOracle)
    returns (lots: seq<Shape>)
    ensures lots == OptimisedLots(block, strategy, o, density, u)
  {
    var corners := IdentifyCorners(block.ring, u.angle);
    var cornerLots := CreateCornerLots(corners, strategy, o, block, u.cornerClip);
    var rest := block;
    if cornerLots != [] {
      rest := u.difference(block, cornerLots);
    }
    var borderLots := [];
    var rest2 := rest;
    if IsPolygon(rest) && rest.area > o.minLotArea {
      borderLots := CreateEdgeLots(rest, u.roadEdges(rest), o, density, u);
      if borderLots != [] {
        rest2 := u.difference(rest, borderLots);
      }
    }
    var centerLots := [];
    if IsPolygon(rest2) && rest2.area > o.minLotArea {
      centerLots := CreateCenterLots(rest2, o, u);
    }
    lots := KeepLarge(cornerLots + borderLots + centerLots, o.minLotArea);
  }

  /** The lots of one block: a small block is a single lot when it reaches a road, a larger one is subdivided. */
  function BlockLots(block: Shape, strategy: string, o: UltraOptions, density: real, u: UltraOracle): seq<Shape>
  {
    if block.area < o.minLotArea * 2.0 then (if u.hasAccess(block) then [block] else [])
    else OptimisedLots(block, strategy, o, density, u)
  }

  /** The lots of the first k blocks, in block order. */
  function UltraLots(blocks: seq<Shape>, strategy: string, o: UltraOptions, density: real, u: UltraOracle, k: nat): seq<Shape>
    requires k <= |blocks|
  {
    if k == 0 then [] else UltraLots(blocks, strategy, o, density, u, k - 1) + BlockLots(blocks[k - 1], strategy, o, density, u)
  }

  lemma UltraLotsNext(blocks: seq<Shape>, strategy: string, o: UltraOptions, density: real, u: UltraOracle, k: nat)
    requires k < |blocks|
    ensures UltraLots(blocks, strategy, o, density, u, k + 1)
            == UltraLots(blocks, strategy, o, density, u, k) + BlockLots(blocks[k], strategy, o, density, u)
  {
  }

  lemma BlockLotsCases(block: Shape, strategy: string, o: UltraOptions, density: real, u: UltraOracle)
    ensures block.area < o.minLotArea * 2.0 ==>
              BlockLots(block, strategy, o, density, u) == if u.hasAccess(block) then [block] else []
    ensures block.area >= o.minLotArea * 2.0 ==>
              BlockLots(block, strategy, o, density, u) == OptimisedLots(block, strategy, o, density, u)
  {
  }

  /** The block loop of `subdividir_quadras_ultra_otimizado`. */
  method CreateUltraLots(blocks: seq<Shape>, strategy: string, o: UltraOptions, density: real, u: UltraOracle)
    returns (found: seq<Shape>)
    ensures found == UltraLots(blocks, strategy, o, density, u, |blocks|)
  {
    found := [];
    for k := 0 to |blocks|
      invariant found == UltraLots(blocks, strategy, o, density, u, k)
    {
      var block := blocks[k];
      UltraLotsNext(blocks, strategy, o, density, u, k);
      BlockLotsCases(block, strategy, o, density, u);
      var more := [];
      if block.area < o.minLotArea * 2.0 {
        if u.hasAccess(block) {
          more := [block];
        }
      } else {
        more := SubdivideBlock(block, strategy, o, density, u);
      }
      found := found + more;
    }
  }

  /**
   * A block under twice the minimum area becomes exactly itself as a lot when
   * it has road access and nothing otherwise; from larger blocks only
   * polygons of at least the minimum area come out.
   */
  lemma BlockLotsMeaning(block: Shape, strategy: string, o: UltraOptions, density: real, u: UltraOracle)
    ensures block.area < o.minLotArea * 2.0 ==>
              (BlockLots(block, strategy, o, density, u) == [block] <==> u.hasAccess(block))
              && (BlockLots(block, strategy, o, density, u) == [] <==> !u.hasAccess(block))
    ensures block.area >= o.minLotArea * 2.0 ==>
              forall g :: g in BlockLots(block, strategy, o, density, u) ==> IsPolygon(g) && g.area >= o.minLotArea
  {
    if block.area >= o.minLotArea * 2.0 {
      OptimisedLotsFit(block, strategy, o, density, u);
    }
  }

  /** A lot of at least the minimum area, or a whole small block of `blocks` with road access. */
  predicate UltraLotFits(g: Shape, blocks: seq<Shape>, o: UltraOptions, u: UltraOracle)
  {
    (IsPolygon(g) && g.area >= o.minLotArea) || (g in blocks && u.hasAccess(g) && g.area < o.minLotArea * 2.0)
  }

  /** Every lot is at least the minimum area, or is a whole small block with road access. */
  lemma {:induction false} UltraLotsFit(blocks: seq<Shape>, strategy: string, o: UltraOptions, density: real,
                                        u: UltraOracle, k: nat)
    requires k <= |blocks|
    ensures forall g :: g in UltraLots(blocks, strategy, o, density, u, k) ==> UltraLotFits(g, blocks[..k], o, u)
  {
    if k > 0 {
      UltraLotsFit(blocks, strategy, o, density, u, k - 1);
      UltraLotsFitStep(blocks, strategy, o, density, u, k, UltraLots(blocks, strategy, o, density, u, k - 1), blocks[..k - 1]);
    }
  }

  /** The lots of block k - 1 fit, and the earlier ones still fit against the longer prefix. */
  lemma UltraLotsFitStep(blocks: seq<Shape>, strategy: string, o: UltraOptions, density: real, u: UltraOracle, k: nat,
                         before: seq<Shape>, prefix: seq<Shape>)
    requires 0 < k <= |blocks|
    requires before == UltraLots(blocks, strategy, o, density, u, k - 1) && prefix == blocks[..k - 1]
    requires forall g :: g in before ==> UltraLotFits(g, prefix, o, u)
    ensures forall g :: g in UltraLots(blocks, strategy, o, density, u, k) ==> UltraLotFits(g, blocks[..k], o, u)
  {
    var block := blocks[k - 1];
    var here := BlockLots(block, strategy, o, density, u);
    assert UltraLots(blocks, strategy, o, density, u, k) == before + here;
    BlockLotsMeaning(block, strategy, o, density, u);
    assert block in blocks[..k];
    forall g | g in before + here
      ensures UltraLotFits(g, blocks[..k], o, u)
    {
      if g in before {
        assert UltraLotFits(g, prefix, o, u);
        assert g in prefix ==> g in blocks[..k];
      } else {
        assert g in here;
        if block.area < o.minLotArea * 2.0 {
          assert here == [block];
        }
      }
    }
  }

  /* ---------- common areas ---------- */

  /** The greedy loop shared by both allocators: append until the running area reaches the need. */
  method TakeUntil(items: seq<Shape>, need: real) returns (taken: seq<Shape>)
    ensures taken == Greedy(items, need, 0.0)
  {
    taken := [];
    var runningArea := 0.0;
    var i := 0;
    while i < |items|
      invariant 0 <= i <= |items|
      invariant taken + Greedy(items[i..], need, runningArea) == Greedy(items, need, 0.0)
    {
      GreedyLoopStep(items, i, need, runningArea, taken);
      if runningArea >= need {
        break;
      }
      taken := taken + [items[i]];
      runningArea := runningArea + items[i].area;
      i := i + 1;
    }
    if i == |items| {
      assert items[i..] == [];
    }
  }

  /** One step of TakeUntil's loop: below the need the item is taken, otherwise the loop is done. */
  lemma GreedyLoopStep(items: seq<Shape>, i: nat, need: real, acc: real, taken: seq<Shape>)
    requires i < |items| && taken + Greedy(items[i..], need, acc) == Greedy(items, need, 0.0)
    ensures acc >= need ==> taken == Greedy(items, need, 0.0)
    ensures acc < need ==>
      (taken + [items[i]]) + Greedy(items[i + 1..], need, acc + items[i].area) == Greedy(items, need, 0.0)
  {
    GreedyStep(items, i, need, acc);
    if acc < need {
      AppendAssoc(taken, [items[i]], Greedy(items[i + 1..], need, acc + items[i].area));
    } else {
      assert taken + [] == taken;
    }
  }

  function GreenFor(available: seq<Shape>, need: real): seq<Shape>
  {
    Greedy(SortByArea(available), need, 0.0)
  }

  function IdsOf(gs: seq<Shape>): set<nat>
  {
    set g | g in gs :: g.id
  }

  function NotIn(ids: set<nat>): Shape -> bool
  {
    (g: Shape) => g.id !in ids
  }

  function InstitutionalFor(available: seq<Shape>, green: seq<Shape>, need: real): seq<Shape>
  {
    Greedy(Filter(available, NotIn(IdsOf(green))), need, 0.0)
  }

  /** `_alocar_areas_verdes`: the largest areas first, until the need is met. */
  method AllocateGreen(available: seq<Shape>, need: real) returns (green: seq<Shape>)
    ensures green == GreenFor(available, need)
  {
    var ordered := SortByArea(available);
    green := TakeUntil(ordered, need);
  }

  /** `_alocar_areas_institucionais`: the areas not taken as green, in input order, until the need is met. */
  method AllocateInstitutional(available: seq<Shape>, green: seq<Shape>, need: real) returns (institutional: seq<Shape>)
    ensures institutional == InstitutionalFor(available, green, need)
  {
    var used := set g | g in green :: g.id;
    var remaining := Filter(available, NotIn(used));
    institutional := TakeUntil(remaining, need);
  }

  /**
   * Green is a largest-first prefix of the available areas: nothing is taken
   * when the need is not positive, and every area but the last was taken while
   * the running total was below the need.
   */
  lemma GreenAllocation(available: seq<Shape>, need: real)
    ensures var green := GreenFor(available, need);
      && SortedByAreaDesc(green)
      && (forall g :: g in green ==> g in available)
      && (need <= 0.0 ==> green == [])
      && (green != [] ==> SumAreas(green[..|green| - 1]) < need)
      && (|green| < |available| ==> SumAreas(green) >= need)
  {
    GreedyQuota(SortByArea(available), need, 0.0);
    GreenIsSortedPrefix(available, need);
  }

  lemma GreenIsSortedPrefix(available: seq<Shape>, need: real)
    ensures var green := GreenFor(available, need);
      SortedByAreaDesc(green) && forall g :: g in green ==> g in available
  {
    var sorted := SortByArea(available);
    SortByAreaCorrect(available);
    var green := Greedy(sorted, need, 0.0);
    assert green == sorted[..|green|];
    forall g | g in green ensures g in available {
      assert g in sorted;
      assert g in multiset(sorted);
    }
  }

  /**
   * The institutional areas come from the available ones in input order, none
   * of them shares an identity with a green area, and the same greedy stop
   * applies.
   */
  lemma InstitutionalAllocation(available: seq<Shape>, green: seq<Shape>, need: real)
    ensures var inst := InstitutionalFor(available, green, need);
      && Subsequence(inst, available)
      && (forall g :: g in inst ==> g !in green && g.id !in IdsOf(green))
      && (need <= 0.0 ==> inst == [])
      && (inst != [] ==> SumAreas(inst[..|inst| - 1]) < need)
  {
    var remaining := Filter(available, NotIn(IdsOf(green)));
    FilterIsSubsequence(available, NotIn(IdsOf(green)));
    GreedyQuota(remaining, need, 0.0);
    var inst := Greedy(remaining, need, 0.0);
    assert inst == remaining[..|inst|];
    PrefixIsSubsequence(inst, remaining, available);
    forall g | g in inst ensures g !in green && g.id !in IdsOf(green) {
      assert g in remaining;
      assert NotIn(IdsOf(green))(g);
    }
  }

  /* ---------- the processor ---------- */

  class UltraProcessor {
    var options: UltraOptions
    var labels: map<string, string>
    var irregularity: real
    var creativity: real
    var density: real
    var lots: seq<Shape>
    var green: seq<Shape>
    var institutional: seq<Shape>

    /** `__init__`: nothing produced yet, and the strategy factors configured from the labels. */
    constructor(options: UltraOptions, labels: map<string, string>)
      ensures this.options == options && this.labels == labels
      ensures lots == [] && green == [] && institutional == []
      ensures irregularity == IrregularityFactor(LabelOr(labels, "tolerancia_forma", "Alta (Mais Irregular)"))
      ensures creativity == CreativityFactor(LabelOr(labels, "liberdade_criativa", "Máxima"))
      ensures density == DensityFactor(LabelOr(labels, "densidade_lotes", "Alta"))
    {
      this.options := options;
      this.labels := labels;
      irregularity, creativity, density := 0.0, 0.0, 0.0;
      lots, green, institutional := [], [], [];
      new;
      ConfigureStrategies();
    }

    /** `configurar_estrategias_avancadas`. */
    method ConfigureStrategies()
      modifies this`irregularity, this`creativity, this`density
      ensures irregularity == IrregularityFactor(LabelOr(labels, "tolerancia_forma", "Alta (Mais Irregular)"))
      ensures creativity == CreativityFactor(LabelOr(labels, "liberdade_criativa", "Máxima"))
      ensures density == DensityFactor(LabelOr(labels, "densidade_lotes", "Alta"))
    {
      var tolerance := LabelOr(labels, "tolerancia_forma", "Alta (Mais Irregular)");
      var freedom := LabelOr(labels, "liberdade_criativa", "Máxima");
      var level := LabelOr(labels, "densidade_lotes", "Alta");
      irregularity := IrregularityFactor(tolerance);
      creativity := CreativityFactor(freedom);
      density := DensityFactor(level);
    }

    /** The corner strategy option, 'Automático' when it is not given. */
    function Strategy(): (s: string)
      reads this`labels
      ensures "estrategia_esquina" in labels ==> s == labels["estrategia_esquina"]
      ensures "estrategia_esquina" !in labels ==> s == "Automático"
    {
      LabelOr(labels, "estrategia_esquina", "Automático")
    }

    /** `subdividir_quadras_ultra_otimizado`: the block loop extending the lot list. */
    method SubdivideBlocks(blocks: seq<Shape>, u: UltraOracle)
      modifies this`lots
      ensures lots == UltraLots(blocks, Strategy(), options, density, u, |blocks|)
    {
      lots := CreateUltraLots(blocks, Strategy(), options, density, u);
    }

    /**
     * `alocar_areas_comuns_estrategicamente`: the needs are the percentages of
     * the original area; `available` is the list of candidate areas.
     */
    method AllocateCommonAreas(available: seq<Shape>, totalArea: real)
      modifies this`green, this`institutional
      ensures green == GreenFor(available, options.greenPercent / 100.0 * totalArea)
      ensures institutional == InstitutionalFor(available, green, options.institutionalPercent / 100.0 * totalArea)
    {
      var needGreen := options.greenPercent / 100.0 * totalArea;
      var needInstitutional := options.institutionalPercent / 100.0 * totalArea;
      green := AllocateGreen(available, needGreen);
      institutional := AllocateInstitutional(available, green, needInstitutional);
      assert needGreen == options.greenPercent / 100.0 * totalArea;
      assert needInstitutional == options.institutionalPercent / 100.0 * totalArea;
    }
  }
}
