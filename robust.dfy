/**
 * The robust processor (loteamento_processor_robusto.py): every number a stage
 * uses passes a strict range check first, and a failed check abandons the
 * stage (or the block) instead of propagating NaN.
 *
 * The processor holds the cleaned options, the original and internalised
 * perimeter, the road lines, the blocks, the lots and the two lists of common
 * areas; each stage is a method proved against a function of the old state.
 * Geometry calls are function parameters of the stage that makes them.
 */
module Robust {
  import opened Geometry
  import opened PyValues
  import opened ParamCleaning
  import opened Selection

  /* ---------- the strict number check ---------- */

  /** The outcome of `_validar_numero`: the float, or the ValueError every failure is re-raised as. */
  datatype Checked = Valid(x: real) | Rejected

  /** `_validar_numero(valor, nome, minimo, maximo)`: convert, refuse NaN and infinities, then both bounds (inclusive). */
  function CheckNumber(v: Raw, min: real, max: real): (c: Checked)
    ensures c.Valid? ==> min <= c.x <= max
  {
    match ToFloat(v)
    case Converted(Finite(r)) => if r < min then Rejected else if r > max then Rejected else Valid(r)
    case _ => Rejected
  }

  /** The check applied to a number the processor holds as a float. */
  function CheckReal(x: real, min: real, max: real): (c: Checked)
    ensures c.Valid? ==> min <= c.x <= max
  {
    if x < min then Rejected else if x > max then Rejected else Valid(x)
  }

  /** On a float the check is `_validar_numero` itself. */
  lemma CheckRealIsCheckNumber(x: real, min: real, max: real)
    ensures CheckReal(x, min, max) == CheckNumber(Num(x), min, max)
    ensures CheckReal(x, min, max).Valid? <==> min <= x <= max
    ensures CheckReal(x, min, max).Valid? ==> CheckReal(x, min, max).x == x
  {
  }

  /**
   * A value passes exactly when it converts to a finite float within the
   * bounds, and then it is returned unchanged; None, NaN, the infinities,
   * unparseable text and out-of-range numbers are all rejected.
   */
  lemma CheckNumberMeaning(v: Raw, min: real, max: real)
    ensures v.Num? ==> (CheckNumber(v, min, max) == Valid(v.value) <==> min <= v.value <= max)
    ensures v.Num? ==> (CheckNumber(v, min, max).Rejected? <==> v.value < min || v.value > max)
    ensures v.NoneVal? || v.NaN? || v.Inf? ==> CheckNumber(v, min, max) == Rejected
    ensures v.Text? ==> (CheckNumber(v, min, max).Valid? <==>
              exists r :: ParseText(v.s) == Some(Finite(r)) && min <= r <= max)
    ensures v.Text? && CheckNumber(v, min, max).Valid? ==> ParseText(v.s) == Some(Finite(CheckNumber(v, min, max).x))
  {
    if v.Text? && CheckNumber(v, min, max).Valid? {
      assert ParseText(v.s) == Some(Finite(CheckNumber(v, min, max).x));
    }
  }

  /** The validation table of the robustness tests, numeric cases, with the default bounds 0.1 and 1000. */
  lemma ValidationTableNumbers()
    ensures CheckNumber(Num(5.0), 0.1, 1000.0) == Valid(5.0)
    ensures CheckNumber(NaN, 0.1, 1000.0) == Rejected
    ensures CheckNumber(Inf(false), 0.1, 1000.0) == Rejected
    ensures CheckNumber(Num(-5.0), 0.1, 1000.0) == Rejected
    ensures CheckNumber(NoneVal, 0.1, 1000.0) == Rejected
    ensures CheckNumber(Num(0.0), 0.1, 1000.0) == Rejected
    ensures CheckNumber(Num(10000.0), 0.1, 1000.0) == Rejected
  {
  }

  /** The validation table of the robustness tests: the numeral text passes. */
  lemma ValidationTableNumeral()
    ensures CheckNumber(Text("5.5"), 0.1, 1000.0) == Valid(5.5)
  {
    ParseFivePointFive();
    ToFloatParsed("5.5", Finite(5.5));
    CheckConverted(Text("5.5"), 5.5, 0.1, 1000.0);
  }

  /** The validation table of the robustness tests: a word and the empty text fail. */
  lemma ValidationTableWords()
    ensures CheckNumber(Text("abc"), 0.1, 1000.0) == Rejected
    ensures CheckNumber(Text(""), 0.1, 1000.0) == Rejected
  {
    ParseRejectsWords();
    CheckUnconverted(Text("abc"), 0.1, 1000.0);
    CheckUnconverted(Text(""), 0.1, 1000.0);
  }

  /** A value that converts to a finite float within the bounds passes. */
  lemma CheckConverted(v: Raw, r: real, min: real, max: real)
    requires ToFloat(v) == Converted(Finite(r)) && min <= r <= max
    ensures CheckNumber(v, min, max) == Valid(r)
  {
  }

  /** A value that does not convert is rejected. */
  lemma CheckUnconverted(v: Raw, min: real, max: real)
    requires ToFloat(v) == ValueErr
    ensures CheckNumber(v, min, max) == Rejected
  {
  }

  /* ---------- internalisation ---------- */

  /** A result the stage keeps: valid, non-empty and of positive area. */
  predicate Usable(g: Shape)
  {
    g.valid && !g.empty && g.area > 0.0
  }

  /** The reductions of the inward offset, in the order they are tried. */
  const RobustFactors: seq<real> := [0.8, 0.6, 0.4, 0.2, 0.1]

  /** The buffer at the k-th reduction; None when the library raises. */
  function Reduced(erode: real -> Option<Shape>, offset: real, k: nat): Option<Shape>
    requires k < |RobustFactors|
  {
    erode(offset * RobustFactors[k])
  }

  /**
   * The reduction loop from factor k on: the index of the first usable
   * result, or None when the loop runs out or a buffer raises first.
   */
  function FirstUsable(erode: real -> Option<Shape>, offset: real, k: nat): (r: Option<nat>)
    requires k <= |RobustFactors|
    ensures r.Some? ==> k <= r.value < |RobustFactors|
    decreases |RobustFactors| - k
  {
    if k == |RobustFactors| then None
    else
      match Reduced(erode, offset, k)
      case None => None
      case Some(g) => if Usable(g) then Some(k) else FirstUsable(erode, offset, k + 1)
  }

  lemma {:induction false} FirstUsableMeaning(erode: real -> Option<Shape>, offset: real, k: nat)
    requires k <= |RobustFactors|
    ensures var r := FirstUsable(erode, offset, k);
      r.Some? ==> && Reduced(erode, offset, r.value).Some? && Usable(Reduced(erode, offset, r.value).value)
                  && forall i :: k <= i < r.value ==> Reduced(erode, offset, i).Some? && !Usable(Reduced(erode, offset, i).value)
    ensures (forall i :: k <= i < |RobustFactors| ==> Reduced(erode, offset, i).Some? && !Usable(Reduced(erode, offset, i).value))
            ==> FirstUsable(erode, offset, k).None?
    decreases |RobustFactors| - k
  {
    if k < |RobustFactors| {
      FirstUsableMeaning(erode, offset, k + 1);
    }
  }

  /** The outcome of the reduction loop: the first usable reduced buffer, None on a miss or an exception. */
  function Retried(erode: real -> Option<Shape>, offset: real): (r: Option<Shape>)
    ensures r.Some? ==> Usable(r.value)
  {
    match FirstUsable(erode, offset, 0)
    case None => None
    case Some(k) =>
      FirstUsableMeaning(erode, offset, 0);
      Reduced(erode, offset, k)
  }

  /**
   * The loop `for reducao in [0.8, 0.6, 0.4, 0.2, 0.1]`, stopping at the first
   * usable buffer; an exception ends it with nothing.
   */
  method TryReductions(erode: real -> Option<Shape>, offset: real) returns (r: Option<Shape>)
    ensures r == Retried(erode, offset)
  {
    var k := 0;
    while k < |RobustFactors|
      invariant 0 <= k <= |RobustFactors|
      invariant FirstUsable(erode, offset, k) == FirstUsable(erode, offset, 0)
    {
      var g := erode(offset * RobustFactors[k]);
      if g.None? {
        return None;
      }
      if g.value.valid && !g.value.empty && g.value.area > 0.0 {
        return g;
      }
      k := k + 1;
    }
    return None;
  }

  /**
   * `internalizar_perimetro`.  The widths are checked (road in [0.1, 100],
   * sidewalk in [0, 50], the offset (road + 2 sidewalk) / 2 in [0.1, 200]);
   * the buffer by -offset is kept when usable; when it is invalid or empty the
   * reductions are tried; whatever is not usable in the end, and any
   * exception, gives the original perimeter.
   */
  function RobustInternal(original: Shape, erode: real -> Option<Shape>, road: real, sidewalk: real): (r: Shape)
    ensures r == original || Usable(r)
  {
    match (CheckReal(road, 0.1, 100.0), CheckReal(sidewalk, 0.0, 50.0))
    case (Valid(rw), Valid(sw)) =>
      (match CheckReal((rw + 2.0 * sw) / 2.0, 0.1, 200.0)
       case Rejected => original
       case Valid(offset) =>
         match erode(offset)
         case None => original
         case Some(first) =>
           if first.valid && !first.empty then (if first.area > 0.0 then first else original)
           else
             match Retried(erode, offset)
             case None => original
             case Some(g) => g)
    case _ => original
  }

  /** The offset used when both widths and the offset pass their checks. */
  function Offset(road: real, sidewalk: real): real
  {
    (road + 2.0 * sidewalk) / 2.0
  }

  predicate WidthsPass(road: real, sidewalk: real)
  {
    0.1 <= road <= 100.0 && 0.0 <= sidewalk <= 50.0 && 0.1 <= Offset(road, sidewalk) <= 200.0
  }

  /** A width outside its range abandons the stage: the result is the original perimeter. */
  lemma InternalRejectsWidths(original: Shape, erode: real -> Option<Shape>, road: real, sidewalk: real)
    requires !WidthsPass(road, sidewalk)
    ensures RobustInternal(original, erode, road, sidewalk) == original
  {
  }

  /** With passing widths, a usable first buffer is the result, and a valid non-empty one of zero area is not. */
  lemma InternalFirstTry(original: Shape, erode: real -> Option<Shape>, road: real, sidewalk: real)
    requires WidthsPass(road, sidewalk)
    ensures var first := erode(Offset(road, sidewalk));
      first.Some? && Usable(first.value) ==> RobustInternal(original, erode, road, sidewalk) == first.value
    ensures var first := erode(Offset(road, sidewalk));
      first.Some? && first.value.valid && !first.value.empty && first.value.area <= 0.0 ==>
        RobustInternal(original, erode, road, sidewalk) == original
    ensures erode(Offset(road, sidewalk)).None? ==> RobustInternal(original, erode, road, sidewalk) == original
  {
  }

  /**
   * When the first buffer is invalid or empty, the reductions 0.8, 0.6, 0.4,
   * 0.2, 0.1 are tried in that order and the first usable one is the result;
   * when every reduction is unusable the result is the original perimeter.
   */
  lemma InternalRetries(original: Shape, erode: real -> Option<Shape>, road: real, sidewalk: real)
    requires WidthsPass(road, sidewalk)
    requires var first := erode(Offset(road, sidewalk)); first.Some? && !(first.value.valid && !first.value.empty)
    ensures var d := Offset(road, sidewalk);
      var k := FirstUsable(erode, d, 0);
      k.Some? ==>
        && Reduced(erode, d, k.value).Some?
        && RobustInternal(original, erode, road, sidewalk) == Reduced(erode, d, k.value).value
        && Usable(RobustInternal(original, erode, road, sidewalk))
        && forall i :: 0 <= i < k.value ==> Reduced(erode, d, i).Some? && !Usable(Reduced(erode, d, i).value)
    ensures var d := Offset(road, sidewalk);
      (forall i :: 0 <= i < |RobustFactors| ==> Reduced(erode, d, i).Some? && !Usable(Reduced(erode, d, i).value))
        ==> RobustInternal(original, erode, road, sidewalk) == original
  {
    FirstUsableMeaning(erode, Offset(road, sidewalk), 0);
  }

  /* ---------- road grid ---------- */

  /** Lines one way: one per block depth across the extent, at least one, at most ten. */
  function RoadCount(ext: real, depth: real): (n: int)
    requires depth > 0.0
    ensures 1 <= n <= 10
  {
    MinInt(MaxInt(1, Trunc(ext / depth)), 10)
  }

  /**
   * Below the cap the count is the whole number of depths across the extent;
   * the count is one, and then no line is drawn, exactly when the extent is
   * under twice the depth.
   */
  lemma RoadCountMeaning(ext: real, depth: real)
    requires depth > 0.0 && ext >= 0.0
    ensures RoadCount(ext, depth) < 10 ==> RoadCount(ext, depth) == MaxInt(1, (ext / depth).Floor)
    ensures RoadCount(ext, depth) == 1 <==> ext < 2.0 * depth
  {
    var q := ext / depth;
    assert q * depth == ext;
    if ext < 2.0 * depth {
      assert q < 2.0;
    } else {
      assert q >= 2.0;
    }
  }

  /** Position of cut i of n across [min, min + ext]: `min + i * ext / n`. */
  function CutPosition(min: real, ext: real, n: nat, i: int): real
    requires n > 0
  {
    min + (i as real * ext) / n as real
  }

  /** Cuts 1 .. n-1 lie strictly inside the extent, in increasing order; cuts 0 and n would be its ends. */
  lemma CutPositionsInside(min: real, ext: real, n: nat, i: int)
    requires n > 0 && ext > 0.0
    ensures CutPosition(min, ext, n, 0) == min && CutPosition(min, ext, n, n) == min + ext
    ensures 1 <= i < n ==> min < CutPosition(min, ext, n, i) < min + ext
    ensures CutPosition(min, ext, n, i) < CutPosition(min, ext, n, i + 1)
  {
    var step := ext / n as real;
    assert (i as real * ext) / n as real == i as real * step;
    assert ((i + 1) as real * ext) / n as real == (i + 1) as real * step;
    assert (n as real * ext) / n as real == ext;
    if 1 <= i < n {
      assert i as real * step < n as real * step;
    }
  }

  /**
   * The lines of cuts 1 .. k-1: each cut line is clipped to the internal
   * perimeter by `clip`, which gives the intersection when it is a line of
   * positive length and None otherwise.
   */
  function CutLines(clip: (bool, real) -> Option<Shape>, vertical: bool, min: real, ext: real, n: nat, k: nat): seq<Shape>
    requires n > 0
  {
    if k <= 1 then []
    else
      CutLines(clip, vertical, min, ext, n, k - 1)
      + (match clip(vertical, CutPosition(min, ext, n, k - 1)) case None => [] case Some(l) => [l])
  }

  /** At most one line per cut, each the clip of a cut strictly after the first end. */
  lemma {:induction false} CutLinesFacts(clip: (bool, real) -> Option<Shape>, vertical: bool, min: real, ext: real,
                                         n: nat, k: nat)
    requires n > 0
    ensures |CutLines(clip, vertical, min, ext, n, k)| <= if k == 0 then 0 else k - 1
    ensures forall l :: l in CutLines(clip, vertical, min, ext, n, k) ==>
              exists i :: 1 <= i < k && clip(vertical, CutPosition(min, ext, n, i)) == Some(l)
  {
    if k > 1 {
      CutLinesFacts(clip, vertical, min, ext, n, k - 1);
    }
  }

  /** The loop over cuts 1 .. n-1. */
  method DrawCuts(clip: (bool, real) -> Option<Shape>, vertical: bool, min: real, ext: real, n: nat)
    returns (lines: seq<Shape>)
    requires n > 0
    ensures lines == CutLines(clip, vertical, min, ext, n, n)
  {
    lines := [];
    for i := 1 to n
      invariant lines == CutLines(clip, vertical, min, ext, n, i)
    {
      var pos := min + (i as real * ext) / n as real;
      var l := clip(vertical, pos);
      if l.Some? {
        lines := lines + [l.value];
      }
    }
  }

  /**
   * `criar_malha_viaria_robusta`: the width and height of the bounds must lie
   * in [1, 10000] and the block depth in [10, 1000], or the stage fails;
   * otherwise the vertical then the horizontal cut lines.
   */
  function RoadGrid(b: Box, depth: real, clip: (bool, real) -> Option<Shape>): Option<seq<Shape>>
  {
    match (CheckReal(b.Width(), 1.0, 10000.0), CheckReal(b.Height(), 1.0, 10000.0), CheckReal(depth, 10.0, 1000.0))
    case (Valid(w), Valid(h), Valid(d)) =>
      var nv := RoadCount(w, d);
      var nh := RoadCount(h, d);
      Some(CutLines(clip, true, b.minX, w, nv, nv) + CutLines(clip, false, b.minY, h, nh, nh))
    case _ => None
  }

  /**
   * `criar_grid_ruas_robusto` without the storing: the three checks, then the
   * vertical cuts followed by the horizontal ones; None when a check rejects.
   */
  method DrawRoadGrid(b: Box, depth: real, clip: (bool, real) -> Option<Shape>) returns (grid: Option<seq<Shape>>)
    ensures grid == RoadGrid(b, depth, clip)
  {
    var w := CheckReal(b.maxX - b.minX, 1.0, 10000.0);
    var h := CheckReal(b.maxY - b.minY, 1.0, 10000.0);
    var d := CheckReal(depth, 10.0, 1000.0);
    if w.Rejected? || h.Rejected? || d.Rejected? {
      return None;
    }
    var nv := RoadCount(w.x, d.x);
    var nh := RoadCount(h.x, d.x);
    var vertical := DrawCuts(clip, true, b.minX, w.x, nv);
    var horizontal := DrawCuts(clip, false, b.minY, h.x, nh);
    grid := Some(vertical + horizontal);
  }

  /** The grid has at most nine lines each way, none in a direction under twice the depth. */
  lemma RoadGridBounds(b: Box, depth: real, clip: (bool, real) -> Option<Shape>)
    ensures var g := RoadGrid(b, depth, clip); g.Some? ==> |g.value| <= 18
    ensures var g := RoadGrid(b, depth, clip);
      g.Some? && b.Width() < 2.0 * depth && b.Height() < 2.0 * depth ==> g.value == []
  {
    if RoadGrid(b, depth, clip).Some? {
      var w, h := b.Width(), b.Height();
      var nv, nh := RoadCount(w, depth), RoadCount(h, depth);
      CutLinesFacts(clip, true, b.minX, w, nv, nv);
      CutLinesFacts(clip, false, b.minY, h, nh, nh);
      RoadCountMeaning(w, depth);
      RoadCountMeaning(h, depth);
    }
  }

  /* ---------- blocks ---------- */

  function LargeValid(): Shape -> bool
  {
    (g: Shape) => g.area > 100.0 && g.valid
  }

  /**
   * `dividir_em_quadras_robusta`: without road lines the internal perimeter is
   * the one block; otherwise the internal perimeter minus the roads (`streets`
   * buffers the lines by half the road width) gives its polygon parts of more
   * than 100 m2, and the internal perimeter when that leaves nothing usable.
   */
  function BlocksOf(internal: Shape, lines: seq<Shape>, road: real, streets: (seq<Shape>, real) -> Shape,
                    difference: (Shape, Shape) -> Shape, geoms: Shape -> seq<Shape>): (bs: seq<Shape>)
    ensures bs == [internal] || forall q :: q in bs ==> q.area > 100.0
  {
    if lines == [] then [internal]
    else
      match CheckReal(road, 0.1, 100.0)
      case Rejected => [internal]
      case Valid(w) =>
        var rest := difference(internal, streets(lines, w / 2.0));
        if rest.kind == MultiPolygonKind then Filter(geoms(rest), LargeValid())
        else if IsPolygon(rest) && !rest.empty && rest.area > 100.0 then [rest]
        else [internal]
  }

  /* ---------- lots ---------- */

  /** The four lot options after their checks. */
  datatype Limits = Limits(minArea: real, minFrontage: real, width: real, depth: real)

  predicate ValidLimits(l: Limits)
  {
    l.minArea >= 50.0 && l.minFrontage >= 3.0 && l.width >= 5.0 && l.depth >= 10.0
  }

  /** The checks at the start of `subdividir_quadras_robusta`; None abandons the stage. */
  function LimitsOf(o: Options): (l: Option<Limits>)
    ensures l.Some? <==> && 50.0 <= o.minLotArea <= 10000.0 && 3.0 <= o.minFrontage <= 200.0
                         && 5.0 <= o.lotWidth <= 200.0 && 10.0 <= o.lotDepth <= 500.0
    ensures l.Some? ==> ValidLimits(l.value) && l.value == Limits(o.minLotArea, o.minFrontage, o.lotWidth, o.lotDepth)
  {
    match (CheckReal(o.minLotArea, 50.0, 10000.0), CheckReal(o.minFrontage, 3.0, 200.0),
           CheckReal(o.lotWidth, 5.0, 200.0), CheckReal(o.lotDepth, 10.0, 500.0))
    case (Valid(a), Valid(t), Valid(w), Valid(d)) => Some(Limits(a, t, w, d))
    case _ => None
  }

  /** The lot grid of a block: nx columns of width w, ny rows of depth d. */
  datatype Grid = Grid(nx: int, ny: int, w: real, d: real)

  /** Columns from the standard lot width and rows from the standard depth: at least one, at most 20. */
  function GridCount(extent: real, size: real): (n: int)
    requires size > 0.0
    ensures 1 <= n <= 20
  {
    MinInt(MaxInt(1, Trunc(extent / size)), 20)
  }

  /** A lot width under the minimum frontage recounts the columns by the frontage. */
  function FrontageRecount(width: real, n: int, t: real): (m: int)
    requires n >= 1 && t > 0.0
    ensures m >= 1
  {
    if width / n as real < t then MaxInt(1, Trunc(width / t)) else n
  }

  /** A lot under the minimum area caps the columns by the number of minimum lots the block holds. */
  function AreaRecount(width: real, height: real, d: real, n: int, a: real): (m: int)
    requires n >= 1 && a > 0.0
    ensures 1 <= m <= n
  {
    if (width / n as real) * d < a then MinInt(n, MaxInt(1, Trunc(width * height / a))) else n
  }

  /**
   * The column count: from the standard lot width, then the frontage and the
   * area re-adjustments.  Between 1 and 20, and wide enough for the minimum
   * frontage whenever the block is that wide.
   */
  function ColumnCount(width: real, d: real, height: real, l: Limits): (nx: int)
    requires ValidLimits(l) && width > 0.0
    ensures 1 <= nx <= 20
    ensures width >= l.minFrontage ==> width / nx as real >= l.minFrontage
  {
    var nx0 := GridCount(width, l.width);
    var nx1 := FrontageRecount(width, nx0, l.minFrontage);
    var nx2 := AreaRecount(width, height, d, nx1, l.minArea);
    FrontageRecountMeaning(width, nx0, l.minFrontage);
    FewerIsWider(width, nx2, nx1);
    nx2
  }

  /**
   * The grid arithmetic: counts from the standard width and depth, capped at
   * 20; the lot width and depth must lie in [1, 500] before the column count
   * is re-adjusted.  The columns fill the width and the rows the height
   * exactly, and the lot width reaches the minimum frontage whenever the
   * block is that wide.
   */
  function GridOf(width: real, height: real, l: Limits): (g: Option<Grid>)
    requires ValidLimits(l) && width > 0.0 && height > 0.0
    ensures g.Some? ==> 1 <= g.value.nx <= 20 && 1 <= g.value.ny <= 20
    ensures g.Some? ==> g.value.w == Share(width, g.value.nx) && g.value.d == Share(height, g.value.ny)
    ensures g.Some? && width >= l.minFrontage ==> g.value.w >= l.minFrontage
  {
    var ny := GridCount(height, l.depth);
    var w0 := Share(width, GridCount(width, l.width));
    var d := Share(height, ny);
    if CheckReal(w0, 1.0, 500.0).Rejected? || CheckReal(d, 1.0, 500.0).Rejected? then None
    else
      var nx := ColumnCount(width, d, height, l);
      Some(Grid(nx, ny, Share(width, nx), d))
  }

  /** a / b < c with positive b and c means a / c < b. */
  lemma DivSwapLess(a: real, b: real, c: real)
    requires b > 0.0 && c > 0.0 && a / b < c
    ensures a / c < b
  {
    assert (a / b) * b == a;
    assert a < c * b;
    assert (a / c) * c == a;
  }

  /** a >= c > 0 means a / c >= 1. */
  lemma QuotientAtLeastOne(a: real, c: real)
    requires c > 0.0 && a >= c
    ensures a / c >= 1.0
  {
    assert (a / c) * c == a;
  }

  /** m <= a / c with positive m and c means a / m >= c. */
  lemma DivSwapAtLeast(a: real, m: real, c: real)
    requires m > 0.0 && c > 0.0 && m <= a / c
    ensures a / m >= c
  {
    assert (a / c) * c == a;
    assert m * c <= a;
    assert (a / m) * m == a;
  }

  /**
   * The frontage recount never adds columns (a width under t means fewer than
   * width / t columns fit), and when the block is at least t wide the
   * recounted lots are at least t wide.
   */
  lemma FrontageRecountMeaning(width: real, n: int, t: real)
    requires width > 0.0 && t > 0.0 && n >= 1
    ensures FrontageRecount(width, n, t) <= n
    ensures width >= t ==> width / FrontageRecount(width, n, t) as real >= t
  {
    if width / n as real < t {
      DivSwapLess(width, n as real, t);
      if width >= t {
        QuotientAtLeastOne(width, t);
        var m := Trunc(width / t);
        assert m >= 1;
        DivSwapAtLeast(width, m as real, t);
      }
    }
  }

  /** Dividing by fewer columns gives wider lots. */
  lemma FewerIsWider(width: real, m: int, n: int)
    requires width > 0.0 && 1 <= m <= n
    ensures width / m as real >= width / n as real
  {
    var a := width / m as real;
    var b := width / n as real;
    assert a * m as real == width && b * n as real == width;
    assert b * m as real <= b * n as real;
  }

  /** One of n equal parts of an extent: n of them fill it exactly. */
  function Share(extent: real, n: int): (s: real)
    requires n >= 1
    ensures n as real * s == extent
  {
    extent / n as real
  }

  /** `Polygon([(x1, y1), (x2, y1), (x2, y2), (x1, y2)])`. */
  type Rect = (real, real, real, real) -> Shape

  /** The tile in column x, row y of a block's grid, from the lower-left corner of its bounds. */
  function Tile(rect: Rect, b: Box, g: Grid, x: int, y: int): Shape
  {
    var x1 := b.minX + x as real * g.w;
    var y1 := b.minY + y as real * g.d;
    rect(x1, y1, x1 + g.w, y1 + g.d)
  }

  /** The columns tile the bounds: column x + 1 starts where x ends, and the last one ends at the right edge. */
  lemma TilesAbut(b: Box, g: Grid, x: int)
    requires g.nx >= 1 && g.nx as real * g.w == b.Width()
    ensures b.minX + x as real * g.w + g.w == b.minX + (x + 1) as real * g.w
    ensures b.minX + g.nx as real * g.w == b.maxX
  {
  }

  /**
   * The acceptance test: a valid tile inside the block (`within` stands for
   * the containment in the block buffered by 0.1) of at least the minimum area,
   * with both sides at least the minimum frontage.
   */
  predicate Accepted(lot: Shape, block: Shape, within: (Shape, Shape) -> bool, g: Grid, l: Limits)
  {
    lot.valid && within(lot, block) && lot.area >= l.minArea && MinReal(g.w, g.d) >= l.minFrontage
  }

  /** The accepted tiles of column x, rows 0 .. k-1. */
  function ColumnLots(rect: Rect, within: (Shape, Shape) -> bool, block: Shape, g: Grid, l: Limits, x: int, k: nat): seq<Shape>
  {
    if k == 0 then []
    else
      var lot := Tile(rect, block.bounds, g, x, k - 1);
      ColumnLots(rect, within, block, g, l, x, k - 1) + (if Accepted(lot, block, within, g, l) then [lot] else [])
  }

  /** The accepted tiles of columns 0 .. k-1, column by column. */
  function GridLots(rect: Rect, within: (Shape, Shape) -> bool, block: Shape, g: Grid, l: Limits, k: nat): seq<Shape>
    requires g.ny >= 0
  {
    if k == 0 then [] else GridLots(rect, within, block, g, l, k - 1) + ColumnLots(rect, within, block, g, l, k - 1, g.ny)
  }

  lemma GridLotsNext(rect: Rect, within: (Shape, Shape) -> bool, block: Shape, g: Grid, l: Limits, k: nat)
    requires g.ny >= 0
    ensures GridLots(rect, within, block, g, l, k + 1) == GridLots(rect, within, block, g, l, k) + ColumnLots(rect, within, block, g, l, k, g.ny)
  {
  }

  /** The grid of a block whose bounds pass the checks (width and height in [1, 10000]). */
  function BlockGrid(block: Shape, l: Limits): (g: Option<Grid>)
    requires ValidLimits(l)
    ensures g.Some? ==> 1 <= g.value.nx <= 20 && 1 <= g.value.ny <= 20
  {
    match (CheckReal(block.bounds.Width(), 1.0, 10000.0), CheckReal(block.bounds.Height(), 1.0, 10000.0))
    case (Valid(w), Valid(h)) => GridOf(w, h, l)
    case _ => None
  }

  /** The lots of one block: none for an empty block, one under twice the minimum area, or one failing a check. */
  function BlockLots(rect: Rect, within: (Shape, Shape) -> bool, block: Shape, l: Limits): seq<Shape>
    requires ValidLimits(l)
  {
    if block.empty || block.area < l.minArea * 2.0 then []
    else
      match BlockGrid(block, l)
      case None => []
      case Some(g) => GridLots(rect, within, block, g, l, g.nx)
  }

  /** The lots of the first k blocks, in block order. */
  function AllBlockLots(rect: Rect, within: (Shape, Shape) -> bool, blocks: seq<Shape>, l: Limits, k: nat): seq<Shape>
    requires ValidLimits(l) && k <= |blocks|
  {
    if k == 0 then [] else AllBlockLots(rect, within, blocks, l, k - 1) + BlockLots(rect, within, blocks[k - 1], l)
  }

  /** `subdividir_quadras_robusta`: nothing when a lot option fails its check. */
  function Subdivision(rect: Rect, within: (Shape, Shape) -> bool, blocks: seq<Shape>, o: Options): seq<Shape>
  {
    match LimitsOf(o)
    case None => []
    case Some(l) => AllBlockLots(rect, within, blocks, l, |blocks|)
  }

  lemma {:induction false} ColumnLotsFit(rect: Rect, within: (Shape, Shape) -> bool, block: Shape, g: Grid, l: Limits,
                                         x: int, k: nat)
    ensures |ColumnLots(rect, within, block, g, l, x, k)| <= k
    ensures forall lot :: lot in ColumnLots(rect, within, block, g, l, x, k) ==> Accepted(lot, block, within, g, l)
  {
    if k > 0 {
      ColumnLotsFit(rect, within, block, g, l, x, k - 1);
    }
  }

  lemma {:induction false} GridLotsFit(rect: Rect, within: (Shape, Shape) -> bool, block: Shape, g: Grid, l: Limits, k: nat)
    requires g.ny >= 0
    ensures |GridLots(rect, within, block, g, l, k)| <= k * g.ny
    ensures forall lot :: lot in GridLots(rect, within, block, g, l, k) ==> Accepted(lot, block, within, g, l)
  {
    if k > 0 {
      GridLotsFit(rect, within, block, g, l, k - 1);
      ColumnLotsFit(rect, within, block, g, l, k - 1, g.ny);
      assert (k - 1) * g.ny + g.ny == k * g.ny;
    }
  }

  /** The block's grid passes its checks and both sides of its tiles reach the minimum frontage. */
  predicate FrontageReached(block: Shape, l: Limits)
    requires ValidLimits(l)
  {
    BlockGrid(block, l).Some? && MinReal(BlockGrid(block, l).value.w, BlockGrid(block, l).value.d) >= l.minFrontage
  }

  /**
   * A block that is empty or under twice the minimum area gives no lot; every
   * lot of a block is a valid tile inside it, of at least the minimum area,
   * and a block has lots only when both sides of its tiles reach the minimum
   * frontage; there are at most 400.
   */
  lemma BlockLotsFit(rect: Rect, within: (Shape, Shape) -> bool, block: Shape, l: Limits)
    requires ValidLimits(l)
    ensures block.empty || block.area < l.minArea * 2.0 ==> BlockLots(rect, within, block, l) == []
    ensures |BlockLots(rect, within, block, l)| <= 400
    ensures forall lot :: lot in BlockLots(rect, within, block, l) ==>
              lot.valid && within(lot, block) && lot.area >= l.minArea
    ensures BlockLots(rect, within, block, l) != [] ==> FrontageReached(block, l)
  {
    if !(block.empty || block.area < l.minArea * 2.0) {
      var g := BlockGrid(block, l);
      if g.Some? {
        var grid := g.value;
        GridLotsFit(rect, within, block, grid, l, grid.nx);
        CountProduct(grid.nx, grid.ny);
        assert BlockLots(rect, within, block, l) == GridLots(rect, within, block, grid, l, grid.nx);
        if BlockLots(rect, within, block, l) != [] {
          assert Accepted(BlockLots(rect, within, block, l)[0], block, within, grid, l);
        }
      }
    }
  }

  lemma CountProduct(a: int, b: int)
    requires 0 <= a <= 20 && 0 <= b <= 20
    ensures a * b <= 400
  {
    assert a * b <= 20 * b;
  }

  /**
   * Every lot of the first k blocks is valid, of at least the minimum area,
   * and inside one of those blocks, whose tiles reach the minimum frontage.
   */
  lemma {:induction false} AllBlockLotsFit(rect: Rect, within: (Shape, Shape) -> bool, blocks: seq<Shape>, l: Limits, k: nat)
    requires ValidLimits(l) && k <= |blocks|
    ensures forall lot :: lot in AllBlockLots(rect, within, blocks, l, k) ==>
              && lot.valid && lot.area >= l.minArea
              && exists i :: 0 <= i < k && within(lot, blocks[i]) && FrontageReached(blocks[i], l)
  {
    if k > 0 {
      AllBlockLotsFit(rect, within, blocks, l, k - 1);
      BlockLotsFit(rect, within, blocks[k - 1], l);
    }
  }

  /** The inner loop over the rows of column x. */
  method CreateColumn(rect: Rect, within: (Shape, Shape) -> bool, block: Shape, g: Grid, l: Limits, x: int)
    returns (lots: seq<Shape>)
    requires g.ny >= 0
    ensures lots == ColumnLots(rect, within, block, g, l, x, g.ny)
  {
    lots := [];
    for y := 0 to g.ny
      invariant lots == ColumnLots(rect, within, block, g, l, x, y)
    {
      var lot := Tile(rect, block.bounds, g, x, y);
      assert ColumnLots(rect, within, block, g, l, x, y + 1)
             == lots + (if Accepted(lot, block, within, g, l) then [lot] else []);
      if lot.valid && within(lot, block) && lot.area >= l.minArea && MinReal(g.w, g.d) >= l.minFrontage {
        lots := lots + [lot];
      }
    }
  }

  lemma BlockLotsCases(rect: Rect, within: (Shape, Shape) -> bool, block: Shape, l: Limits)
    requires ValidLimits(l)
    ensures block.empty || block.area < l.minArea * 2.0 ==> BlockLots(rect, within, block, l) == []
    ensures !(block.empty || block.area < l.minArea * 2.0) ==>
              BlockLots(rect, within, block, l)
              == match BlockGrid(block, l)
                 case None => []
                 case Some(g) => GridLots(rect, within, block, g, l, g.nx)
  {
  }

  /** The lot loops of one block. */
  method CreateBlockLots(rect: Rect, within: (Shape, Shape) -> bool, block: Shape, l: Limits) returns (lots: seq<Shape>)
    requires ValidLimits(l)
    ensures lots == BlockLots(rect, within, block, l)
  {
    lots := [];
    BlockLotsCases(rect, within, block, l);
    if block.empty || block.area < l.minArea * 2.0 {
      return;
    }
    var g := BlockGrid(block, l);
    if g.None? {
      return;
    }
    var grid := g.value;
    for x := 0 to grid.nx
      invariant lots == GridLots(rect, within, block, grid, l, x)
    {
      var column := CreateColumn(rect, within, block, grid, l, x);
      GridLotsNext(rect, within, block, grid, l, x);
      lots := lots + column;
    }
  }

  /* ---------- common areas ---------- */

  /* The lots inside a block are those `within` the block buffered by 1: the `inside` oracle. */

  /** A block is a candidate common area when it has area and its lots cover under 30% of it. */
  predicate Eligible(block: Shape, lots: seq<Shape>, inside: (Shape, Shape) -> bool)
  {
    block.area > 0.0 && CoveredArea(block, lots, inside) < block.area * 0.3
  }

  function EligibleIn(lots: seq<Shape>, inside: (Shape, Shape) -> bool): Shape -> bool
  {
    (block: Shape) => Eligible(block, lots, inside)
  }

  /**
   * The needs of `alocar_areas_comuns_robusta`: the total in [100, 10^6] and
   * both percentages in [0, 100] pass their checks; the shares are capped at
   * 50% for green and 30% for institutional.
   */
  function Needs(o: Options, total: real): (r: Option<(real, real)>)
    ensures r.Some? <==> && 100.0 <= total <= 1000000.0
                         && 0.0 <= o.greenPercent <= 100.0 && 0.0 <= o.institutionalPercent <= 100.0
    ensures r.Some? ==> && 0.0 <= r.value.0 <= total * 0.5 && 0.0 <= r.value.1 <= total * 0.3
                        && r.value.0 == total * MinReal(o.greenPercent / 100.0, 0.5)
                        && r.value.1 == total * MinReal(o.institutionalPercent / 100.0, 0.3)
  {
    match (CheckReal(total, 100.0, 1000000.0), CheckReal(o.greenPercent, 0.0, 100.0), CheckReal(o.institutionalPercent, 0.0, 100.0))
    case (Valid(t), Valid(g), Valid(i)) =>
      ScaleAtMost(t, MinReal(g / 100.0, 0.5), 0.5);
      ScaleAtMost(t, MinReal(i / 100.0, 0.3), 0.3);
      Some((t * MinReal(g / 100.0, 0.5), t * MinReal(i / 100.0, 0.3)))
    case _ => None
  }

  lemma ScaleAtMost(t: real, a: real, b: real)
    requires 0.0 <= t && 0.0 <= a <= b
    ensures 0.0 <= t * a <= t * b
  {
  }

  /** The allocation of the candidate blocks, green first, nothing once both needs are met. */
  function Allocated(blocks: seq<Shape>, lots: seq<Shape>, inside: (Shape, Shape) -> bool,
                     green: seq<Shape>, institutional: seq<Shape>, needG: real, needI: real): Allocation
  {
    PlaceAll(Allocation(green, institutional, [], 0.0, 0.0), Filter(blocks, EligibleIn(lots, inside)), needG, needI, Discard)
  }

  /**
   * Only candidate blocks (under 30% covered by lots) are added; green takes
   * them while its running total is below its need and institutional only
   * after that; a candidate is left out only when both needs are met.
   */
  lemma AllocationMeaning(blocks: seq<Shape>, lots: seq<Shape>, inside: (Shape, Shape) -> bool,
                          green: seq<Shape>, institutional: seq<Shape>, needG: real, needI: real)
    ensures var r := Allocated(blocks, lots, inside, green, institutional, needG, needI);
      && green <= r.green && institutional <= r.institutional
      && (forall i :: |green| <= i < |r.green| ==> r.green[i] in blocks && Eligible(r.green[i], lots, inside))
      && (forall i :: |institutional| <= i < |r.institutional| ==>
            r.institutional[i] in blocks && Eligible(r.institutional[i], lots, inside))
      && (r.greenTotal < needG ==> r.green == green + Filter(blocks, EligibleIn(lots, inside)) && r.institutional == institutional)
      && (|r.institutional| > |institutional| ==> r.greenTotal >= needG)
      && (|r.discarded| > 0 ==> r.greenTotal >= needG && r.institutionalTotal >= needI)
  {
    var items := Filter(blocks, EligibleIn(lots, inside));
    var s := Allocation(green, institutional, [], 0.0, 0.0);
    var r := PlaceAll(s, items, needG, needI, Discard);
    PlaceAllPartition(s, items, needG, needI, Discard);
    PlaceAllGreenFirst(s, items, needG, needI, Discard);
    PlaceAllDiscardsOnlyWhenFull(s, items, needG, needI);
    PlaceAllDrawsFromItems(s, items, needG, needI, Discard);
    forall x | x in items ensures x in blocks && Eligible(x, lots, inside) {
      var j :| 0 <= j < |items| && items[j] == x;
      assert EligibleIn(lots, inside)(items[j]);
    }
  }

  /**
   * The allocation loop over the blocks: a candidate goes green while the
   * green total is below its need, else institutional while that total is
   * below its need; both totals start at zero.
   */
  method AllocateEligible(blocks: seq<Shape>, lots: seq<Shape>, inside: (Shape, Shape) -> bool,
                          green0: seq<Shape>, institutional0: seq<Shape>, needG: real, needI: real)
    returns (green: seq<Shape>, institutional: seq<Shape>)
    ensures var r := Allocated(blocks, lots, inside, green0, institutional0, needG, needI);
      green == r.green && institutional == r.institutional
  {
    green, institutional := green0, institutional0;
    ghost var p := EligibleIn(lots, inside);
    ghost var goal := Allocated(blocks, lots, inside, green0, institutional0, needG, needI);
    var greenTotal, institutionalTotal := 0.0, 0.0;
    ghost var discarded: seq<Shape> := [];
    for k := 0 to |blocks|
      invariant PlaceAll(Allocation(green, institutional, discarded, greenTotal, institutionalTotal),
                         Filter(blocks[k..], p), needG, needI, Discard) == goal
    {
      var q := blocks[k];
      FilterFrom(blocks, k, p);
      ghost var s := Allocation(green, institutional, discarded, greenTotal, institutionalTotal);
      ghost var rest := Filter(blocks[k + 1..], p);
      if q.area > 0.0 && CoveredArea(q, lots, inside) < q.area * 0.3 {
        assert p(q);
        PlaceAllCons(s, q, rest, needG, needI, Discard);
        if greenTotal < needG {
          green := green + [q];
          greenTotal := greenTotal + q.area;
        } else if institutionalTotal < needI {
          institutional := institutional + [q];
          institutionalTotal := institutionalTotal + q.area;
        } else {
          discarded := discarded + [q];
        }
        assert Allocation(green, institutional, discarded, greenTotal, institutionalTotal) == Place(s, q, needG, needI, Discard);
      } else {
        assert !p(q);
        assert [] + rest == rest;
      }
    }
    assert blocks[|blocks|..] == [];
  }

  /* ---------- the processor ---------- */

  class RobustProcessor {
    var options: Options
    var original: Shape
    var internal: Shape
    var roadLines: seq<Shape>
    var blocks: seq<Shape>
    var lots: seq<Shape>
    var green: seq<Shape>
    var institutional: seq<Shape>

    /** The processor over a loaded perimeter, with its options cleaned. */
    constructor (params: map<string, Raw>, perimeter: Shape)
      ensures options == OptionsOf(Cleaned(params)) && AllAtLeastTenth(options)
      ensures original == perimeter && internal == perimeter
      ensures roadLines == [] && blocks == [] && lots == [] && green == [] && institutional == []
    {
      var clean := ValidateAndClean(params);
      CleanedOptionsAtLeastTenth(params);
      options := OptionsOf(clean);
      original := perimeter;
      internal := perimeter;
      roadLines := [];
      blocks := [];
      lots := [];
      green := [];
      institutional := [];
    }

    /** `internalizar_perimetro`; `erode(d)` buffers the original by -d, None when it raises. */
    method Internalize(erode: real -> Option<Shape>)
      modifies this`internal
      ensures internal == RobustInternal(original, erode, options.roadWidth, options.sidewalkWidth)
    {
      var road := CheckReal(options.roadWidth, 0.1, 100.0);
      var sidewalk := CheckReal(options.sidewalkWidth, 0.0, 50.0);
      if road.Rejected? || sidewalk.Rejected? {
        internal := original;
        return;
      }
      var offset := CheckReal((road.x + 2.0 * sidewalk.x) / 2.0, 0.1, 200.0);
      if offset.Rejected? {
        internal := original;
        return;
      }
      var d := offset.x;
      var first := erode(d);
      if first.None? {
        internal := original;
        return;
      }
      var r := first.value;
      if !r.valid || r.empty {
        var retried := TryReductions(erode, d);
        r := if retried.Some? then retried.value else original;
      } else if r.area <= 0.0 {
        r := original;
      }
      internal := r;
    }

    /**
     * `criar_malha_viaria_robusta`: lines are added to the road lines; a
     * failed check empties them.  `clip` intersects a cut line with the
     * internal perimeter.
     */
    method CreateRoadGrid(clip: (bool, real) -> Option<Shape>)
      modifies this`roadLines
      ensures roadLines == match RoadGrid(internal.bounds, options.maxBlockDepth, clip)
                           case None => []
                           case Some(ls) => old(roadLines) + ls
    {
      var grid := DrawRoadGrid(internal.bounds, options.maxBlockDepth, clip);
      if grid.None? {
        roadLines := [];
      } else {
        roadLines := roadLines + grid.value;
      }
    }

    /** `dividir_em_quadras_robusta`, with the road buffer, difference and parts as library calls. */
    method DivideIntoBlocks(streets: (seq<Shape>, real) -> Shape, difference: (Shape, Shape) -> Shape,
                            geoms: Shape -> seq<Shape>)
      modifies this`blocks
      ensures blocks == BlocksOf(internal, roadLines, options.roadWidth, streets, difference, geoms)
    {
      if roadLines == [] {
        blocks := [internal];
        return;
      }
      var road := CheckReal(options.roadWidth, 0.1, 100.0);
      if road.Rejected? {
        blocks := [internal];
        return;
      }
      var rest := difference(internal, streets(roadLines, road.x / 2.0));
      if rest.kind == MultiPolygonKind {
        blocks := Filter(geoms(rest), LargeValid());
      } else if IsPolygon(rest) && !rest.empty && rest.area > 100.0 {
        blocks := [rest];
      } else {
        blocks := [internal];
      }
    }

    /** `subdividir_quadras_robusta`: the lots of each block are added to the lots. */
    method SubdivideBlocks(rect: Rect, within: (Shape, Shape) -> bool)
      modifies this`lots
      ensures lots == old(lots) + Subdivision(rect, within, blocks, options)
    {
      var limits := LimitsOf(options);
      if limits.None? {
        return;
      }
      var l := limits.value;
      ghost var start := lots;
      for k := 0 to |blocks|
        invariant lots == start + AllBlockLots(rect, within, blocks, l, k)
      {
        var more := CreateBlockLots(rect, within, blocks[k], l);
        lots := lots + more;
      }
    }

    /**
     * `alocar_areas_comuns_robusta`: the needs are shares of the original area;
     * the running totals start at zero and the lists are extended.
     */
    method AllocateCommonAreas(inside: (Shape, Shape) -> bool)
      modifies this`green, this`institutional
      ensures match Needs(options, original.area)
              case None => green == old(green) && institutional == old(institutional)
              case Some(needs) =>
                var r := Allocated(blocks, lots, inside, old(green), old(institutional), needs.0, needs.1);
                green == r.green && institutional == r.institutional
    {
      var needs := Needs(options, original.area);
      if needs.None? {
        return;
      }
      green, institutional := AllocateEligible(blocks, lots, inside, green, institutional, needs.value.0, needs.value.1);
    }
  }
}
