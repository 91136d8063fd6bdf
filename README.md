# Land-subdivision processors, modelled in Dafny

The repository turns a site perimeter into a subdivision plan ("loteamento"):
it insets the perimeter by the perimeter roads and sidewalks, lays a road
grid, cuts the remaining area into blocks ("quadras"), cuts blocks into lots
("lotes") and sets aside green ("áreas verdes") and institutional areas. The
repository holds five processor classes that do this in different ways. All
the geometry is done by the Shapely library. This project models the
decision and bookkeeping logic around those geometry calls, and proves what
that logic guarantees.

The modules follow the sources:

| module | models |
|---|---|
| `Geometry` | the geometry record used by all the processors: id, kind, area, validity, emptiness, bounds and exterior ring; Python's `int()` on floats; sums of areas |
| `PyValues` | Python values as the options dictionaries hold them: None, numbers, NaN, the infinities and text; `float()` on each of them; `str.strip()` and truthiness |
| `ParamCleaning` | `_validar_e_limpar_parametros`, which is the same in the advanced and the robust processor |
| `Selection` | list operations the allocators share: the filter, the stable sort by decreasing area, the greedy fill of an area quota, and the green/institutional placement loop |
| `Triangulation` | the vertex-removal triangulation and the triangle grouping of the advanced processor |
| `Advanced` | `loteamento_processor_avancado.py` |
| `Ultra` | `loteamento_processor_ultra_avancado.py` |
| `Robust` | `loteamento_processor_robusto.py` |
| `Basic` | `loteamento_processor.py` |
| `Improved` | `loteamento_processor_melhorado.py` |
| `GuiValidation` | `validar_numero_seguro` and `validar_parametros` of `main_gui.py` |

Every Shapely call is a parameter of function type: a buffer, a clip, a
difference, a split or a containment test. The model assumes nothing about
these calls beyond what the processors themselves check (validity,
emptiness, area, kind). Where a handler reacts to an exception of a library
call, that call returns an `Option` and None stands for the exception; the
handlers that are not modelled this way are listed under "## Left out".
Numbers are exact reals. Python's `int()` becomes truncation toward zero.
Each processor class is a Dafny class, and its fields are the lists that the
class mutates. The loops of the source are methods with a `while` or `for`
loop, proved equal to recursive specification functions; the recursion of the
intelligent cuts stays a recursive function, which the loop over the parts of
one cut calls. The properties are proved as lemmas about those functions. Each
processor keeps its own constants (caps of 6, 10 or 20, reductions, depth
factors, thresholds).

Several quirks of the code are kept as they are written, and each one is
stated by a lemma:
- the triangulation checks neither convexity nor containment
  (`Triangulation.ReflexVertexIsCut`);
- the triangle grouping pops from the list it is enumerating
  (`Triangulation.PopWhileEnumeratingSkips`);
- the ultra processor's vertical division emits the first strip twice and
  never emits the last one (`Ultra.VerticalStripsQuirk`);
- the improved processor's area adjustment sets the depth to the whole
  extent but keeps the row count (`Improved.AdjustKeepsRows`,
  `Improved.AdjustmentExample`);
- the basic processor's internalisation retry is never checked
  (`Basic.InternalRetryUnchecked`);
- the basic statistics divide by the total area without a guard
  (`Basic.StatisticsOf`).

## Model

| member | source | states |
|---|---|---|
| Geometry.Trunc | loteamento_processor_robusto.py:362-363 | `int(x)` rounds toward zero: for x >= 0 the result is a non-negative integer n with n <= x < n + 1, and for x < 0 a non-positive n with n - 1 < x <= n |
| Geometry.SumAreasAppend | loteamento_processor_avancado.py:1088-1092 | the area sum of two concatenated lists is the sum of their sums |
| Geometry.FractionsTile | loteamento_processor_avancado.py:460-461 | the normalised stretches [j/n, (j+1)/n] are contiguous and increasing, and cover [0, 1] |
| PyValues.Strip | loteamento_processor_avancado.py:61-62 | `strip()` gives a text no longer than its input that is empty or neither starts nor ends with white space, white space being every character of Python's `isspace` set, Unicode spaces included |
| PyValues.StripMeaning | loteamento_processor_avancado.py:61-62 | the stripped text is the input's part between a run of white space at the start and a run at the end, kept unchanged, for `str.strip`'s white space and for `float()`'s alike |
| PyValues.FloatStrip | loteamento_processor_avancado.py:66-74 | the strip inside `float()` gives a text no longer than its input that neither starts nor ends with TAB to CR, the space or a non-ASCII `isspace` character; FS to US are not white space here |
| PyValues.ToFloat | loteamento_processor_avancado.py:66-74 | `float(v)`: TypeError exactly for None, a number converts to itself as a finite float, and text raises ValueError exactly when it does not parse: after an underscore check, the underscores are dropped, `float()`'s own white space is stripped and the rest is a signed decimal numeral or nan/inf/infinity |
| PyValues.ToFloatGrouping | loteamento_processor_avancado.py:66-74 | text in which an underscore lacks a digit right before it or right after it is a ValueError |
| PyValues.UngroupMeaning | loteamento_processor_avancado.py:66-74 | the underscore rule of `float()`: removing the digit-group underscores succeeds exactly when every underscore has a digit right before it and right after it |
| PyValues.ParseTextOfDigitString | loteamento_processor_avancado.py:66 | parsing inverts decimal writing: `float(str(n))` is n |
| PyValues.ParseFivePointFive | teste_robustez.py:125-136 | the text "5.5" converts to 5.5 |
| PyValues.ParseRejectsWords | teste_robustez.py:125-136 | "abc" and "" do not convert |
| PyValues.ParseRejectsComma | main_gui.py:426-432 | `float` refuses a decimal comma, which is why the form check replaces it first |
| PyValues.ParseNotANumber | loteamento_processor_avancado.py:67-69 | the texts "nan" and "inf" convert to NaN and to positive infinity |
| PyValues.ParseDigitGroups | loteamento_processor_avancado.py:66-74 | "1_000" converts to 1000, while "1__0", "_1" and "1_" are ValueErrors |
| PyValues.FloatKeepsSeparators | loteamento_processor_avancado.py:66-74 | FS (U+001C) is stripped by `str.strip` but not by `float()`: "\x1c5" strips to "5" but does not convert |
| PyValues.ParseUnicodeSpace | loteamento_processor_avancado.py:66-74 | NO-BREAK SPACE and IDEOGRAPHIC SPACE around "5.5" are stripped and the text converts to 5.5 |
| ParamCleaning.CleanValue | loteamento_processor_avancado.py:59-74 | a label option stays a label and a numeric option a number; a cleaned number is the default or at least 0.1, and it differs from the default only when `float(v)` gave a finite float |
| ParamCleaning.ValidateAndClean | loteamento_processor_avancado.py:37-76 | the loop over the defaults yields exactly the cleaned dictionary |
| ParamCleaning.CleanedHasDefaultKeys | loteamento_processor_avancado.py:44-58 | the cleaned dictionary has exactly the ten default keys: unknown keys are dropped and missing keys are added |
| ParamCleaning.CleanedAt | loteamento_processor_avancado.py:59-74 | the value under each default key is that key's input, cleaned against its default |
| ParamCleaning.MissingKeyGetsDefault | loteamento_processor_avancado.py:60 | a missing key receives its default value |
| ParamCleaning.CleanedNumbersAtLeastTenth | loteamento_processor_avancado.py:64-74 | every numeric option comes out as a number of at least 0.1, and the label option comes out as a label |
| ParamCleaning.CleanNumberCases | loteamento_processor_avancado.py:64-74 | a numeric option takes its default for NaN, an infinity or a failed conversion; a finite float below 0.1 becomes 0.1 and one of at least 0.1 is kept |
| ParamCleaning.CleanLabelCases | loteamento_processor_avancado.py:61-62 | a label option is `str(v)` exactly when v is truthy, and a canonical default stays canonical, so text is always a literal label |
| ParamCleaning.StrValue | loteamento_processor_avancado.py:62 | `str(v)` of text is that text as a literal label, and of any other value a rendered label, never a text one |
| ParamCleaning.ProblematicParamsAreRepaired | teste_robustez.py:21-56 | cleaning NaN, infinity, negatives, None and 0 leaves every numeric value finite and non-negative |
| ParamCleaning.RepairedRoadWidths | teste_robustez.py:21-56 | a NaN road width and an infinite sidewalk width fall back to their defaults |
| ParamCleaning.RepairedNegatives | teste_robustez.py:21-56 | negative values are raised to 0.1 |
| ParamCleaning.RepairedOrientation | teste_robustez.py:21-56 | a None orientation keeps its default label |
| ParamCleaning.RepairedLotOptions | teste_robustez.py:21-56 | 0 becomes 0.1, and NaN or infinity becomes the default, for the lot options |
| ParamCleaning.CleanedOptionsAtLeastTenth | loteamento_processor_robusto.py:59-78 | whatever the input, every numeric option a processor reads after cleaning is at least 0.1 |
| Selection.FirstAccepted | loteamento_processor_avancado.py:165-173 | the index returned is that of the first candidate passing the test, in list order; None means no candidate passes |
| Selection.FilterKeeps | loteamento_processor_avancado.py:546 | every element that passes the test is kept by the list comprehension |
| Selection.FilterIsSubsequence | loteamento_processor_avancado.py:546 | the filter keeps the relative order of what it keeps |
| Selection.FilterSplit | loteamento_processor_avancado.py:914-918 | splitting by a test and by its negation loses nothing and duplicates nothing |
| Selection.SortByAreaCorrect | loteamento_processor_ultra_avancado.py:1058 | `sorted(key=area, reverse=True)` is ordered by decreasing area and is a permutation of its input |
| Selection.SortByAreaStable | loteamento_processor_avancado.py:895 | the sort is stable: geometries of equal area keep their input order |
| Selection.GreedyQuota | loteamento_processor_ultra_avancado.py:1060-1065 | the greedy fill takes nothing when the need is already met; every item but the last was taken while below the need; it stops before the end only once the need is met |
| Selection.TakeEligible | loteamento_processor_avancado.py:869-902 | a loop that skips failing items and stops at the need takes the greedy prefix of the passing items |
| Selection.EligibleFromIsGreedy | loteamento_processor.py:357-367 | the loop that skips failing items and stops once the need is met takes the greedy prefix of the passing items, from any index and running total |
| Selection.GreedyFilterMeaning | loteamento_processor.py:357-367 | the greedy prefix of the passing items is a subsequence of the items, all of them passing, taken while below the need, and is short of all passing items only once the need is met |
| Selection.FilterSumAtMost | loteamento_processor_robusto.py:447-449 | the area of the lots inside a block is at most the area of all the lots |
| Selection.PlaceAllPartition | loteamento_processor_avancado.py:927-936 | every item placed ends in exactly one list (green, institutional or left out), the lists only grow at their ends, and with the green overflow nothing is left out |
| Selection.PlaceAllGreenFirst | loteamento_processor_robusto.py:451-457 | green is served first: while its total is below its need every item goes green, and institutional receives items only after green's need is met |
| Selection.PlaceAllDiscardsOnlyWhenFull | loteamento_processor_melhorado.py:346-352 | an item is left out only when both needs are met |
| Selection.PlaceAllDrawsFromItems | loteamento_processor_melhorado.py:346-352 | everything added to a list comes from the items placed |
| Selection.PlaceEach | loteamento_processor_avancado.py:927-936 | the placement loop with running totals computes the placement function |
| Triangulation.FirstEar | loteamento_processor_avancado.py:598-610 | the inner loop breaks at the first index from i whose triangle has a positive area, or runs out |
| Triangulation.TriangulatePolygon | loteamento_processor_avancado.py:582-623 | the vertex-removal loop computes the triangulation function |
| Triangulation.TriangulateStep | loteamento_processor_avancado.py:595-612 | each outer iteration removes exactly one vertex and emits one triangle, or stops |
| Triangulation.TriangulateStuck | loteamento_processor_avancado.py:612 | when no triangle from the start index has positive area, the loop stops with the triangles so far |
| Triangulation.TrianglesNonDegenerate | loteamento_processor_avancado.py:604-606 | every triangle emitted has a positive reported area |
| Triangulation.EmittedCrossNonZero | loteamento_processor_avancado.py:604-606 | with the library's area, a triangle is emitted only when its cross product is non-zero |
| Triangulation.TriangleCount | loteamento_processor_avancado.py:595-618 | at most n - 2 triangles come out of n vertices |
| Triangulation.TrianglesUseInputVertices | loteamento_processor_avancado.py:599-618 | every triangle uses vertices of the input ring only |
| Triangulation.ReflexVertexIsCut | loteamento_processor_avancado.py:595-612 | no convexity test: on a ring with a reflex vertex, the triangle at that vertex, which lies outside the polygon, is cut off |
| Triangulation.CollinearGivesNothing | loteamento_processor_avancado.py:595-618 | collinear vertices give no triangle |
| Triangulation.Absorb | loteamento_processor_avancado.py:640-649 | absorbing the neighbours of a triangle never lengthens the list of triangles left |
| Triangulation.AbsorbNeighbours | loteamento_processor_avancado.py:640-649 | the merging loop computes the absorption function |
| Triangulation.GroupTriangles | loteamento_processor_avancado.py:625-657 | the grouping loop computes the grouping function |
| Triangulation.GroupKeeps | loteamento_processor_avancado.py:636-638 | a triangle that alone reaches the minimum area is kept as a lot |
| Triangulation.GroupMerges | loteamento_processor_avancado.py:640-653 | a smaller triangle is merged with its neighbours, and the group is kept only when it reaches 80% of the minimum |
| Triangulation.GroupsReachTolerance | loteamento_processor_avancado.py:651 | every group kept reaches 80% of the minimum area |
| Triangulation.PopWhileEnumeratingSkips | loteamento_processor_avancado.py:643-649 | popping while enumerating skips the neighbour after each merged triangle: a concrete list where only the skipped large triangle survives |
| Advanced.RetryFrom | loteamento_processor_avancado.py:165-173 | the reduction loop returns the first usable buffer in factor order, and a miss means every factor gave an unusable result |
| Advanced.InternalFirstTry | loteamento_processor_avancado.py:157-163 | the inward offset is (road + 2 sidewalk) / 2 and a valid, non-empty first buffer is kept; an exception in it yields the original perimeter |
| Advanced.InternalRetryHit | loteamento_processor_avancado.py:163-173 | on an invalid or empty first buffer, the reductions 0.8, 0.6, 0.4, 0.2 are tried in order and the first usable result is kept |
| Advanced.InternalAllMissed | loteamento_processor_avancado.py:175-179 | when no reduction is usable the result is the buffer by half the road width |
| Advanced.InternalZeroArea | loteamento_processor_avancado.py:163 | a valid, non-empty first buffer of zero area skips the reductions |
| Advanced.LineCounts | loteamento_processor_avancado.py:202-217 | each count is between 0 and 6. A site of at least 5000 m2 gets at least one line each way: the whole number of depths across the width for the vertical lines and across the height for the horizontal ones, each at least 1 and capped at 6. A smaller site keeps exactly one family, the vertical one exactly when it is wider than tall, with the whole number of depths across that side, at least 1 and capped at 6. A negative depth gives at most one line per family |
| Advanced.LinePositionsInside | loteamento_processor_avancado.py:222-237 | line i lies strictly inside the extent at min + i · ext / (n + 1), in increasing order with equal gaps |
| Advanced.DrawFamily | loteamento_processor_avancado.py:222-233 | the line loop collects the clipped pieces of lines 1 to n |
| Advanced.DrawRoadLines | loteamento_processor_avancado.py:201-260 | the line loops draw exactly the model's road lines: no line for a zero block depth, otherwise the vertical family followed by the horizontal one, and the central line along the longer side only when both families are empty |
| Advanced.AdvancedProcessor.CreateRoadSystem | loteamento_processor_avancado.py:187-301 | the road lines are the vertical then the horizontal family, or the central line when both are empty; roads and sidewalks come from their buffers; a zero block depth leaves no lines |
| Advanced.BorderCountMeaning | loteamento_processor_avancado.py:430-439 | at least one lot; the lots fill the border exactly; a border at least as long as the minimum frontage gets lots at least that wide |
| Advanced.BorderCountRecounted | loteamento_processor_avancado.py:436-439 | when the width under the standard count is below the minimum frontage, the recount by the frontage still fills the border exactly, and its lots are at least the frontage wide when the border is that long |
| Advanced.BorderCountKept | loteamento_processor_avancado.py:430-435 | when the width under the standard count reaches the minimum frontage, that count fills the border with lots at least the frontage wide |
| Advanced.CreateAdaptiveLot | loteamento_processor_avancado.py:452-500 | the depth loop returns the adaptive lot |
| Advanced.AdaptiveLotFits | loteamento_processor_avancado.py:486-494 | the lot found is a polygon of at least the minimum area |
| Advanced.AdaptiveLotFirst | loteamento_processor_avancado.py:460-496 | lot j covers [j/n, (j+1)/n] and is cut at the first of d, 0.8d, 0.6d, 1.2d whose clip fits; None only when no depth fits |
| Advanced.CreateLotsAlongBorder | loteamento_processor_avancado.py:421-450 | the border method returns the border's lots, none when the standard width is zero |
| Advanced.CreateBorderLots | loteamento_processor_avancado.py:442-445 | the stretch loop keeps each lot found |
| Advanced.BorderLotsBounds | loteamento_processor_avancado.py:442-445 | every border lot has the minimum area, at most one per stretch |
| Advanced.CutsAtLeastMin | loteamento_processor_avancado.py:659-715 | every lot the recursive cuts produce has the minimum area |
| Advanced.CutEachPart | loteamento_processor_avancado.py:696-709 | the loop over the parts of one cut collects the lots of the cut function, each of at least the minimum area |
| Advanced.CutPartsAtLeastMin | loteamento_processor_avancado.py:696-704 | every lot collected from the parts of one cut has the minimum area |
| Advanced.CreateIrregularLots | loteamento_processor_avancado.py:525-551 | the irregular-lot method returns the irregular lots |
| Advanced.AdaptiveTriangulationMeaning | loteamento_processor_avancado.py:553-580 | a ring of fewer than 3 vertices gives no lot; 3 to 6 vertices give at most n - 2 triangle groups, each reaching 80% of the minimum area; more vertices give the cut parts, each of at least the minimum area, or nothing when the cuts fail |
| Advanced.IrregularLotsAtLeastMin | loteamento_processor_avancado.py:546 | every irregular lot returned has at least the minimum area |
| Advanced.PositiveAreaIsSum | loteamento_processor_avancado.py:1088-1092 | dropping zero-area geometries does not change the sum |
| Advanced.PercentMeaning | loteamento_processor_avancado.py:1103-1107 | each percentage times the total is the part; with a total that is not positive it is 0 |
| Advanced.StatisticsMeaning | loteamento_processor_avancado.py:1085-1108 | the reported areas are the sums of each list, and each percentage is that area over the total |
| Advanced.SplitBySize | loteamento_processor_avancado.py:914-918 | the loop splits the blocks into those under the bound and the others, in order |
| Advanced.SplitBySizeIsPartition | loteamento_processor_avancado.py:914-918 | the small and the kept blocks together are the blocks, none lost or duplicated |
| Advanced.SmallBlocksPlaced | loteamento_processor_avancado.py:927-936 | each small block ends in exactly one list: green while below its need, institutional next, and green again once both needs are met |
| Advanced.FringePlaced | loteamento_processor_avancado.py:960-971 | a fringe part is left out only when both needs are met |
| Advanced.LeftoversOrdered | loteamento_processor_avancado.py:892-899 | the leftovers added to green are the parts of at least 50 m2, largest first, none lost |
| Advanced.AdvancedProcessor.constructor | loteamento_processor_avancado.py:22-35 | the processor starts with the cleaned options and empty lists |
| Advanced.AdvancedProcessor.Internalize | loteamento_processor_avancado.py:150-185 | the internal perimeter becomes the result of the internalisation chain |
| Advanced.AdvancedProcessor.AllocateLeftovers | loteamento_processor_avancado.py:869-902 | green is extended by the leftover parts of at least 50 m2, largest first, when any lot, road or sidewalk exists |
| Advanced.AppendEach | loteamento_processor_avancado.py:897-898 | appending each item in turn adds all the items at the end, in order |
| Advanced.AdvancedProcessor.ConvertSmallBlocks | loteamento_processor_avancado.py:904-939 | the blocks under four minimum lots leave the block list and are placed green, then institutional, then green |
| Advanced.AdvancedProcessor.AllocateFringe | loteamento_processor_avancado.py:941-974 | the fringe parts of at least 100 m2 are placed green, then institutional, and left out once both needs are met |
| Advanced.AdvancedProcessor.AllocateCommonAreas | loteamento_processor_avancado.py:835-867 | the needs are the percentages of the original area; the kept blocks are those of at least four minimum lots; green and institutional become the leftovers, small-block and fringe strategies applied in that order against the same needs |
| Advanced.StrategiesMeaning | loteamento_processor_avancado.py:849-856 | across the three strategies no area is lost or duplicated, the lists only grow at the end with green first extended by the leftovers, and a fringe part is left out only when both needs are met |
| Ultra.OccursIffSlice | loteamento_processor_ultra_avancado.py:41-43 | the substring test `sub in s` holds exactly when sub is a slice of s |
| Ultra.FactorLevels | loteamento_processor_ultra_avancado.py:40-68 | tolerance is low exactly when 'Baixa' occurs and medium when only 'Média' does; creativity and density match whole labels, any other label giving the top level |
| Ultra.FormToleranceLabels | loteamento_processor_ultra_avancado.py:40-46 | the form's three tolerance labels give 0.2, 0.5 and 0.8 |
| Ultra.ContainedLabelIsLow | loteamento_processor_ultra_avancado.py:41 | a label that merely contains 'Baixa' counts as low |
| Ultra.UltraProcessor.constructor | loteamento_processor_ultra_avancado.py:20-33 | nothing is produced yet, and the strategy factors are configured from the labels |
| Ultra.UltraProcessor.ConfigureStrategies | loteamento_processor_ultra_avancado.py:35-68 | the three factors are set by the tolerance, creativity and density rules |
| Ultra.UltraProcessor.Strategy | loteamento_processor_ultra_avancado.py:612 | the corner strategy is the `estrategia_esquina` option when given, and 'Automático' otherwise |
| Ultra.OrientationMeaning | loteamento_processor_ultra_avancado.py:546-551 | a horizontal block is more than 1.5 times wider than high, a vertical one the reverse, a square one neither, and swapping the sides swaps the two |
| Ultra.IdentifyCorners | loteamento_processor_ultra_avancado.py:569-605 | the index loop lists the corners of the ring |
| Ultra.CornersListed | loteamento_processor_ultra_avancado.py:576-603 | corners are in vertex order, and vertex i is listed exactly when both edges are non-zero and the angle is under 150, with the previous vertex of 0 the last one |
| Ultra.CornerConvexIffDot | loteamento_processor_ultra_avancado.py:582-602 | a corner is convex exactly when its edge vectors have a positive dot product |
| Ultra.CornerStrategyTable | loteamento_processor_ultra_avancado.py:640-651 | 'Testada Maior' gives a lot at least as wide and no deeper than 'Testada Menor'; 'Área Maior' gives (preferred frontage, maximum depth) and any other label (preferred frontage, default depth); the depth is always the minimum, the maximum or the default |
| Ultra.CreateCornerLots | loteamento_processor_ultra_avancado.py:607-627 | the corner loop collects the corner lots |
| Ultra.CornerLotsFit | loteamento_processor_ultra_avancado.py:617-621 | every corner lot is a polygon of at least the minimum area from a corner under 120 degrees |
| Ultra.BorderCountMeaning | loteamento_processor_ultra_avancado.py:721-728 | no count exactly when the preferred width is zero; otherwise at least one lot, the lots fill the border, density 1 gives the plain count and a density of 1 or more never lowers it |
| Ultra.CreateBorderLot | loteamento_processor_ultra_avancado.py:745-795 | the depth loop returns the border lot |
| Ultra.BorderLotFirst | loteamento_processor_ultra_avancado.py:770-791 | the depths min(max, min · f) for f in 1.0, 0.8, 0.6, 1.2, 1.5 are tried in order and the first fitting clip is used; none only when none fits |
| Ultra.SubdivideBorder | loteamento_processor_ultra_avancado.py:711-743 | the border method returns the border's lots |
| Ultra.CreateStretchLots | loteamento_processor_ultra_avancado.py:731-737 | the stretch loop keeps each lot found |
| Ultra.StretchLotsFit | loteamento_processor_ultra_avancado.py:731-737 | every border lot is a polygon of at least the minimum area, at most one per stretch |
| Ultra.VerticalStripsQuirk | loteamento_processor_ultra_avancado.py:844-874 | with two strips or more the first two are the same slice, and no strip reaches the right edge |
| Ultra.HorizontalStripsTile | loteamento_processor_ultra_avancado.py:887-892 | the horizontal strips are contiguous and tile the height |
| Ultra.Divide | loteamento_processor_ultra_avancado.py:832-903 | the strip loop returns the division's lots |
| Ultra.StripLotsFit | loteamento_processor_ultra_avancado.py:844-901 | every strip lot reaches the minimum area, and in a vertical division the second lot repeats the first |
| Ultra.CreateEdgeLots | loteamento_processor_ultra_avancado.py:691-709 | the edge loop extends the list with each edge's lots |
| Ultra.CreateCenterLots | loteamento_processor_ultra_avancado.py:797-830 | the centre method returns one lot, a strip division by the longer side, or the triangulation |
| Ultra.OptimisedLotsFit | loteamento_processor_ultra_avancado.py:518-524 | every lot of an optimised block is a polygon of at least the minimum area |
| Ultra.KeepLarge | loteamento_processor_ultra_avancado.py:519-522 | the final loop keeps the polygons of at least the minimum area, in order |
| Ultra.SubdivideBlock | loteamento_processor_ultra_avancado.py:479-528 | the three stages and the final filter compute the optimised lots |
| Ultra.BlockLotsMeaning | loteamento_processor_ultra_avancado.py:459-471 | a block under twice the minimum area is a single lot exactly when it has road access; a larger block gives only polygons of at least the minimum area |
| Ultra.UltraLotsFit | loteamento_processor_ultra_avancado.py:452-477 | every lot has the minimum area or is a whole small block with road access |
| Ultra.CreateUltraLots | loteamento_processor_ultra_avancado.py:459-471 | the block loop yields the lots of every block in block order: a block under twice the minimum area is one lot when it has road access and none otherwise, a larger one gives its optimised lots |
| Ultra.UltraProcessor.SubdivideBlocks | loteamento_processor_ultra_avancado.py:452-477 | the lot list becomes the lots of the blocks, in block order |
| Ultra.TakeUntil | loteamento_processor_ultra_avancado.py:1060-1065 | the loop appends until the running area reaches the need, the greedy prefix |
| Ultra.AllocateGreen | loteamento_processor_ultra_avancado.py:1052-1067 | green is the greedy prefix of the areas sorted largest first |
| Ultra.AllocateInstitutional | loteamento_processor_ultra_avancado.py:1069-1085 | institutional is the greedy prefix of the areas not taken as green, in input order |
| Ultra.GreenAllocation | loteamento_processor_ultra_avancado.py:1052-1067 | nothing is taken when the need is not positive, and every area but the last is taken while below the need |
| Ultra.GreenIsSortedPrefix | loteamento_processor_ultra_avancado.py:1058-1065 | the green areas are in decreasing order of area and come from the available ones |
| Ultra.InstitutionalAllocation | loteamento_processor_ultra_avancado.py:1074-1083 | institutional areas come from the available ones in input order, share no identity with a green area, and follow the same greedy stop |
| Ultra.UltraProcessor.AllocateCommonAreas | loteamento_processor_ultra_avancado.py:984-1017 | the needs are the percentages of the total area; green then institutional are allocated from the candidate areas |
| Robust.CheckNumber | loteamento_processor_robusto.py:80-103 | a passing value lies within the inclusive bounds |
| Robust.CheckRealIsCheckNumber | loteamento_processor_robusto.py:93-101 | on a float the check is `_validar_numero` itself |
| Robust.CheckNumberMeaning | loteamento_processor_robusto.py:93-103 | a passing value is returned unchanged; None, NaN, the infinities, unparseable text and out-of-range numbers are all rejected |
| Robust.ValidationTableNumbers | teste_robustez.py:125-136 | 5.0 passes; NaN, inf, -5, None, 0 and 10000 fail with the default bounds |
| Robust.ValidationTableNumeral | teste_robustez.py:125-136 | the text "5.5" passes |
| Robust.ValidationTableWords | teste_robustez.py:125-136 | "abc" and "" fail |
| Robust.FirstUsableMeaning | loteamento_processor_robusto.py:238-244 | the index found is the first usable reduction in order 0.8, 0.6, 0.4, 0.2, 0.1, and no earlier one is |
| Robust.TryReductions | loteamento_processor_robusto.py:238-244 | the reduction loop returns the first usable reduced buffer, nothing on a miss or an exception |
| Robust.RobustInternal | loteamento_processor_robusto.py:221-254 | the result is always either a usable buffer or the original perimeter |
| Robust.InternalRejectsWidths | loteamento_processor_robusto.py:226-230 | a road or sidewalk width, or an offset, outside its range gives the original perimeter |
| Robust.InternalFirstTry | loteamento_processor_robusto.py:229-236 | with passing widths a usable first buffer is the result, and a valid non-empty one of zero area is replaced by the original |
| Robust.InternalRetries | loteamento_processor_robusto.py:236-250 | on an invalid or empty first buffer the reductions are tried in order and the first usable one is the result; otherwise the original |
| Robust.RoadCount | loteamento_processor_robusto.py:274-279 | the count is between 1 and 10 |
| Robust.RoadCountMeaning | loteamento_processor_robusto.py:274-283 | below the cap the count is the whole number of depths across the extent; it is one, so that no line is drawn, exactly when the extent is under twice the depth |
| Robust.CutPositionsInside | loteamento_processor_robusto.py:284 | cuts 1 .. n-1 at min + i · ext / n lie strictly inside the extent, in increasing order |
| Robust.CutLinesFacts | loteamento_processor_robusto.py:282-299 | at most one line per cut, each the clip of a cut strictly inside the extent |
| Robust.DrawCuts | loteamento_processor_robusto.py:283-289 | the cut loop collects the clipped cut lines |
| Robust.RoadGridBounds | loteamento_processor_robusto.py:256-303 | a grid has at most 18 lines, and none when both directions are under twice the depth |
| Robust.DrawRoadGrid | loteamento_processor_robusto.py:269-299 | the drawing gives exactly the model's grid: no grid when a range check fails, otherwise the clipped vertical cuts followed by the horizontal ones |
| Robust.RobustProcessor.CreateRoadGrid | loteamento_processor_robusto.py:256-303 | the lines are added to the road lines, and a failed check empties them |
| Robust.BlocksOf | loteamento_processor_robusto.py:305-333 | the blocks are the internal perimeter alone, or parts each of more than 100 m2 |
| Robust.RobustProcessor.DivideIntoBlocks | loteamento_processor_robusto.py:305-333 | the blocks become the result of the block division |
| Robust.LimitsOf | loteamento_processor_robusto.py:340-343 | the lot options pass their ranges or the stage is abandoned |
| Robust.GridCount | loteamento_processor_robusto.py:362-367 | the counts are between 1 and 20 |
| Robust.FrontageRecountMeaning | loteamento_processor_robusto.py:377-379 | the frontage recount never adds columns, and on a block at least the frontage wide the lots reach the frontage |
| Robust.ColumnCount | loteamento_processor_robusto.py:362-387 | the column count is between 1 and 20 and wide enough for the minimum frontage whenever the block is |
| Robust.GridOf | loteamento_processor_robusto.py:358-387 | nx, ny <= 20, nx · w = W and ny · d = H, and the lot width reaches the frontage whenever the block does |
| Robust.TilesAbut | loteamento_processor_robusto.py:390-396 | the columns tile the bounds: column x + 1 starts where x ends, and the last one ends at the right edge |
| Robust.BlockLotsFit | loteamento_processor_robusto.py:345-410 | a block that is empty or under twice the minimum area gives no lot; a block gives at most 400 lots, each valid, within the block and of at least the minimum area, and it has lots only when its grid passes the checks and both sides of the tiles reach the minimum frontage |
| Robust.AllBlockLotsFit | loteamento_processor_robusto.py:345-418 | every lot of the blocks is valid, has at least the minimum area and lies within one of the blocks, whose grid passes the checks and whose tiles reach the minimum frontage on both sides |
| Robust.CreateColumn | loteamento_processor_robusto.py:391-414 | the row loop collects the accepted tiles of a column |
| Robust.CreateBlockLots | loteamento_processor_robusto.py:390-414 | the nested loops collect the accepted tiles of a block |
| Robust.RobustProcessor.SubdivideBlocks | loteamento_processor_robusto.py:335-421 | the lots of each block are added to the lots, none when a lot option fails its check |
| Robust.Needs | loteamento_processor_robusto.py:428-437 | the needs are shares of the total capped at 50% (green) and 30% (institutional), or none when a check fails |
| Robust.AllocationMeaning | loteamento_processor_robusto.py:442-457 | only blocks of positive area under 30% covered by lots are added; green is served while below its need and institutional after it; a candidate is left out only when both needs are met |
| Robust.AllocateEligible | loteamento_processor_robusto.py:439-461 | the allocation loop with running totals computes the allocation |
| Robust.RobustProcessor.AllocateCommonAreas | loteamento_processor_robusto.py:423-465 | the green and institutional lists are extended by the allocation against the capped needs, and stay as they were when a need check fails |
| Robust.RobustProcessor.constructor | loteamento_processor_robusto.py:16-31 | the processor starts with the cleaned options and empty lists |
| Robust.RobustProcessor.Internalize | loteamento_processor_robusto.py:221-254 | the internal perimeter becomes the robust internalisation |
| Basic.BasicInternal | loteamento_processor.py:96-113 | the offset is (road + 2 sidewalk) / 2; a valid, non-empty result is kept, and otherwise the erosion at 80% of the offset |
| Basic.InternalRetryUnchecked | loteamento_processor.py:110-113 | the retry is not checked: an unusable second erosion is still the result |
| Basic.OrientationTable | loteamento_processor.py:123-131 | 'Norte-Sul' is 0, 'Leste-Oeste' π/2, 'Nordeste-Sudoeste' π/4, 'Noroeste-Sudeste' 3π/4, and any other name but 'Automática' 0 |
| Basic.FirstLongest | loteamento_processor.py:137-152 | the edge kept is at least as long as every scanned edge and strictly longer than every earlier one; none when no edge is longer than 0 |
| Basic.LongestEdge | loteamento_processor.py:134-154 | the edge loop computes the first longest edge |
| Basic.AutoAxisMeaning | loteamento_processor.py:134-154 | the automatic axis runs along the first longest edge, and is 0 with no edge of positive length |
| Basic.BasicProcessor.PrincipalAxis | loteamento_processor.py:115-154 | the axis is the named orientation or the automatic axis of the internal perimeter |
| Basic.LineCounts | loteamento_processor.py:178-179 | with a positive depth, the count across the longer extent is at least the count across the shorter one, and both are at least one; with a negative depth both are at most one, the longer extent's the smaller |
| Basic.LineCountsSpan | loteamento_processor.py:182-201 | offsets i · D for i = 0 .. count: the one before last lies within the extent and the last one beyond |
| Basic.DrawFamily | loteamento_processor.py:182-197 | the family loop collects the clipped lines at offsets i · D, i = 0 .. count |
| Basic.DrawRoadLines | loteamento_processor.py:164-213 | the two loops draw exactly the model's road lines: the clipped parallel family followed by the clipped perpendicular family, or nothing and a raise for a depth of 0 |
| Basic.RoadLinesBound | loteamento_processor.py:178-213 | only a depth of 0 raises; otherwise there are at most count + 1 lines per family (p + q + 2 for a positive depth), and none when both counts are negative |
| Basic.BasicProcessor.CreateRoadGrid | loteamento_processor.py:156-215 | the clipped lines of both families are added to the road lines; a depth of 0 raises and leaves them unchanged |
| Basic.BasicProcessor.DivideIntoBlocks | loteamento_processor.py:217-246 | with lines, the roads are their buffer and the blocks the parts of the difference, or unchanged; without lines the internal perimeter is the one block |
| Basic.Interpolate | loteamento_processor.py:302-303 | the point at fraction 0 is p and at fraction 1 is q |
| Basic.FrontLots | loteamento_processor.py:296-335 | there is at most one lot per piece of the front, each accepted |
| Basic.CreateFrontLots | loteamento_processor.py:296-335 | the lot loop computes the front's lots |
| Basic.SideLots | loteamento_processor.py:287-335 | a standard width of 0 raises; otherwise there are at most as many lots as the border count, whose n pieces fill the front exactly, lots are made only when the lot width reaches the minimum frontage, and each lies within the block and has the minimum area |
| Basic.NegativeWidthSingleLot | loteamento_processor.py:287-293 | a negative standard width does not raise: the count is 1 and the one lot, if made, runs along the whole front, which reaches the minimum frontage |
| Basic.BlockLotsAccepted | loteamento_processor.py:258-335 | an empty block, one under the minimum area, one empty once shrunk or one without a side of positive length gives no lot; a block that gets to its front raises exactly when the standard width is 0; otherwise every lot lies within the block and has the minimum area |
| Basic.BlockLotsFront | loteamento_processor.py:270-287 | a block with lots, or one that raises, is fronted on its first longest side, of positive length and at least as long as every other |
| Basic.CreateBlockLots | loteamento_processor.py:258-335 | the loop body computes one block's lots, or the raise |
| Basic.CreateSideLots | loteamento_processor.py:287-335 | the count rule and the lot loop compute the front's lots, or the raise for a standard width of 0 |
| Basic.CreateAllLots | loteamento_processor.py:258-335 | the block loop computes the lots up to the first block that raises, and whether one did |
| Basic.RaisedStays | loteamento_processor.py:258-335 | once a block raises, the later blocks add no lots |
| Basic.AllBlockLotsMeaning | loteamento_processor.py:258-335 | every lot has the minimum area and lies within some block; the run raises exactly when the standard width is 0 and some block gets as far as its front |
| Basic.BasicProcessor.SubdivideBlocks | loteamento_processor.py:248-335 | the lots of each block are added to the lots, up to a block that raises, and the raise is reported |
| Basic.GreenMeaning | loteamento_processor.py:357-367 | green takes, in block order, blocks under half covered by lots, stopping once the need is met |
| Basic.InstitutionalMeaning | loteamento_processor.py:370-380 | institutional takes non-green blocks under 30% covered, with the same stop, and shares no block with green |
| Basic.Allocate | loteamento_processor.py:357-380 | the two loops compute the green and the institutional lists |
| Basic.BasicProcessor.AllocateCommonAreas | loteamento_processor.py:337-380 | the needs are percentages of the original area; green is chosen first, then institutional among the blocks not green |
| Basic.PercentTimesTotal | loteamento_processor.py:489-492 | a percentage times the total, over 100, is the part |
| Basic.StatisticsOf | loteamento_processor.py:474-498 | the figures are the sums of each list and their percentages; a total of 0 raises and the run reports a failure |
| Basic.BasicProcessor.constructor | loteamento_processor.py:17-32 | the processor starts over the loaded perimeter with empty lists |
| Basic.BasicProcessor.Internalize | loteamento_processor.py:96-113 | the internal perimeter becomes the basic internalisation |
| Improved.InternalAt | loteamento_processor_melhorado.py:106-115 | the result is one of the five erosions: the first valid, non-empty one, and the one at 0.2 of the offset when none is |
| Improved.ShrinkUntilUsable | loteamento_processor_melhorado.py:106-115 | the retry loop computes that result |
| Improved.ImprovedProcessor.Internalize | loteamento_processor_melhorado.py:95-115 | the internal perimeter becomes the improved internalisation, with offset (road + 2 sidewalk) / 2 |
| Improved.LineCount | loteamento_processor_melhorado.py:275 | the count is at least one |
| Improved.LineCountMeaning | loteamento_processor_melhorado.py:275-287 | the count is the whole number of depths across the extent; it is one, so that no cut is drawn, exactly when the extent is under twice the depth |
| Improved.LineCountUncapped | loteamento_processor_melhorado.py:275 | no cap: an extent of 1000 with depth 10 gives 100 |
| Improved.RoadLinesMeaning | loteamento_processor_melhorado.py:263-294 | at most one line per inner cut each way, each the clip of a cut at min + i · ext / n with 0 < i < n, none across a direction under twice the depth |
| Improved.ImprovedProcessor.CreateRoadGrid | loteamento_processor_melhorado.py:263-294 | the clipped cut lines are added to the road lines |
| Improved.SplitBlocks | loteamento_processor_melhorado.py:317-323 | a MultiPolygon gives exactly its parts of more than 100 m2, a non-empty polygon is the one block, and anything else leaves the blocks as they were |
| Improved.ImprovedProcessor.DivideIntoBlocks | loteamento_processor_melhorado.py:296-323 | without lines the internal perimeter is the one block; otherwise the roads are the buffer and the blocks are split off the difference |
| Improved.Initial | loteamento_processor_melhorado.py:183-187 | the counts are at least one, the lots fill both extents, and reach the standard size along an extent that holds one |
| Improved.Recount | loteamento_processor_melhorado.py:190-192 | a front under the minimum frontage recounts by it; a zero frontage raises; the front then reaches the frontage whenever the extent does |
| Improved.Adjust | loteamento_processor_melhorado.py:194-203 | under the minimum area the count is capped by the number of minimum lots and the depth becomes the whole extent, rows kept; a zero minimum raises |
| Improved.AdjustMeaning | loteamento_processor_melhorado.py:194-203 | after the adjustment every lot reaches the minimum area, is no narrower, and is as deep as the whole extent |
| Improved.AdjustKeepsRows | loteamento_processor_melhorado.py:202 | the row count is kept: with two rows or more, rows of full depth reach past the block |
| Improved.AdjustmentExample | loteamento_processor_melhorado.py:183-203 | a 30 by 20 block with 12 by 8 lots, frontage 10 and minimum 300 gets 2 by 2 lots of 15 by 20 |
| Improved.PlanOf | loteamento_processor_melhorado.py:181-203 | the plan has at least one lot each way |
| Improved.PlanDefined | loteamento_processor_melhorado.py:183-184 | over non-negative extents the plan raises exactly when the standard width or depth is zero |
| Improved.PlanMeaning | loteamento_processor_melhorado.py:181-203 | the lots fill the frontage extent, reach the minimum frontage when it does, and the minimum area unless the whole bounding area is under it; the depth is a share of the other extent or the whole of it |
| Improved.BlockGrid | loteamento_processor_melhorado.py:181-245 | a block's grid has at least one column and row |
| Improved.BlockGridMeaning | loteamento_processor_melhorado.py:181-245 | the grid faces x when the block is at least as wide as tall and y otherwise, fails only on a zero standard width or depth, fills the longer side and reaches the frontage along it when the side does |
| Improved.BlockLotsMeaning | loteamento_processor_melhorado.py:167-260 | a block that is empty or under twice the minimum area gives no lot; the block raises only when its grid cannot be counted; every lot lies within the block, has the minimum area and the frontage, one per grid cell at most |
| Improved.AllBlockLotsMeaning | loteamento_processor_melhorado.py:167-260 | every lot lies within one of the blocks and has the minimum area; the run raises only at a block whose grid cannot be counted |
| Improved.RaisedStays | loteamento_processor_melhorado.py:167-260 | once a block raises, later blocks are not processed |
| Improved.CreateColumn | loteamento_processor_melhorado.py:207-219 | the row loop collects the kept tiles of a column |
| Improved.CreateBlockLots | loteamento_processor_melhorado.py:206-219 | the nested loops collect the kept tiles of a block, or raise |
| Improved.CreateAllLots | loteamento_processor_melhorado.py:158-260 | the block loop computes all lots, stopping at a block that raises |
| Improved.ImprovedProcessor.SubdivideBlocks | loteamento_processor_melhorado.py:158-260 | the lots of each block are added to the lots, up to a block that raises |
| Improved.LightlyUsedIsEligible | loteamento_processor_melhorado.py:342-346 | a block under 30% covered by its lots is exactly a robust candidate: a block of zero area never qualifies |
| Improved.AllocateLightlyUsed | loteamento_processor_melhorado.py:337-352 | the loop places lightly used blocks green while below need, then institutional, then nowhere |
| Improved.ImprovedProcessor.AllocateCommonAreas | loteamento_processor_melhorado.py:325-352 | the needs are the percentages of the original area and the lists are extended by the allocation |
| GuiValidation.ValidateNumberSafeMeaning | main_gui.py:409-452 | a value is returned exactly when the stripped text, with ',' replaced by '.', converts to a finite float inside the inclusive range; blank text, NaN and the infinities each get their own error, and None lets its TypeError through |
| GuiValidation.AcceptsDecimalComma | main_gui.py:426-432 | a decimal comma is accepted |
| GuiValidation.RejectsBlank | main_gui.py:429-432 | text of only spaces is rejected as an empty field |
| GuiValidation.RejectsWords | main_gui.py:429-450 | the word "abc" is rejected as an invalid number that carries the normalised text |
| GuiValidation.RangeBoundsInclusive | main_gui.py:441-446 | both bounds are inclusive, and None's TypeError escapes |
| GuiValidation.CheckField | main_gui.py:469-472 | one try block appends the field's message exactly when its check rejects |
| GuiValidation.CheckDimensions | main_gui.py:469-502 | the seven dimension checks append their messages in order, or the first raising one aborts |
| GuiValidation.ValidateParameters | main_gui.py:454-520 | the form check yields the messages of every failing check in order, or the escaping TypeError |
| GuiValidation.RaisedAt | main_gui.py:469-514 | one field that raises decides the outcome of the whole check |
| GuiValidation.NoneRaisedOutcome | main_gui.py:469-520 | when no check raises, the outcome is the messages of the dimension checks, then of the two percentage checks, then of the sum check |
| GuiValidation.CollectedEmpty | main_gui.py:456-502 | the messages collected up to a check are empty exactly when a file is chosen and exists, the project is named and none of the checks so far rejects |
| GuiValidation.ValidFormIffAllChecksPass | main_gui.py:454-520 | the form is valid exactly when a file is chosen and exists, the project is named, every field passes and the two percentages add up to at most 100 |
| GuiValidation.NoneFieldRaises | main_gui.py:448-452 | a None field aborts the check with the TypeError |
| GuiValidation.PercentSumOnlyError | main_gui.py:504-518 | with a file, a project name and every field valid, percentages adding up to more than 100 give the sum error as the only message |

## Left out

- Shapely: buffer, difference, intersection, union, split, touches, within, distance, centroid and area are oracles passed as parameters. The model proves nothing about the shapes they return beyond what the processors test.
- Trigonometry and square roots (`acos`, `degrees`, `atan2`, `cos`, `sin`, `sqrt`): the corner angle is an oracle. The axis of the basic processor is kept as a direction vector (dx, dy) or a named constant, not as radians. Edge lengths are compared by their squares.
- ToFloat: decimal digits outside ASCII (other scripts' digits, which `float()` reads as their values) are not recognised; such text is a ValueError in the model.
- IEEE floating point: all arithmetic is on exact reals. NaN and the infinities exist only as input values.
- Random roads (`_criar_malha_totalmente_livre`) and the other creative road meshes of the ultra processor: they are random or pure geometry.
- File I/O: DXF and KML loading, DXF export, `os.path` checks. The GUI's "file exists" test is an input of the form.
- The GUI widgets, the progress window and the worker thread.
- The `print` narration, and catch-all handlers whose only effect is to print.
- Missing-key KeyErrors in the ultra processor: the options are a total record.
- Ultra: the compactness figure and `calcular_estatisticas_detalhadas` are not modelled. The corner analysis records it but no decision uses it.
- Ultra: the areas offered to the allocators (`_encontrar_areas_para_areas_comuns`) are an input list, since its result is pure geometry.
- Ultra.CreateCenterLots: `_triangular_area_adaptativa` is an oracle with no contract, so the model says nothing about the shapes it returns; the final filter of the block lots is what makes every lot a polygon of the minimum area.
- Robust: the loop `for coord in bounds: if isnan(coord): continue` does nothing, so it is left out. The NaN checks on the cut and tile coordinates always pass on exact reals.
- Robust.TryReductions: an exception inside the reduction loop ends the stage with the original perimeter. The model returns "no result", and the caller maps that to the original perimeter.
- Advanced.CreateAdaptiveLot: the clip oracle cannot raise, so the handler of loteamento_processor_avancado.py:498-500, which turns an exception of the intersection into "no lot", is not modelled; None means only that no depth fits.
- Ultra.SubdivideBlock: the difference and union oracles cannot raise, so the handler of loteamento_processor_ultra_avancado.py:526-528, which turns an exception into no lots for the whole block, is not modelled.
- Basic.BasicProcessor.PrincipalAxis, Basic.BlockLots: `.exterior` raises AttributeError on a MultiPolygon or another non-polygon (loteamento_processor.py:134 and 270); the model reads the ring of any shape, so neither raises for a perimeter or block of another kind.
- Advanced.Cuts: the recursion of `_dividir_por_cortes_inteligentes` carries a fuel bound that stands for the interpreter's recursion limit. When the fuel runs out the call fails and the caller keeps the whole area that was being cut, as the source's handler does.
- Advanced: the road and sidewalk buffers of `criar_sistema_viario_com_calcadas` are oracles. The first part of block subdivision, `_criar_lotes_regulares_com_acesso` with `_quadra_tem_acesso_rua`, is geometry and is not part of this model.
- Selection.SortByArea: `sorted` is modelled on values, as a stable insertion sort, not as the library's in-place sort.
- Statistics: the statistics of the improved processor and of the ultra processor are not modelled.
- Basic and Improved: the options are used as given. Neither processor cleans them.
- Basic: a ZeroDivisionError in `BasicProcessor.SubdivideBlocks` or `BasicProcessor.CreateRoadGrid` is reported as a flag, and the lots of the blocks before it stay in the list; `processar_loteamento` turning it into an error report is not modelled.
- GuiValidation: a message is modelled as the pair of its field and its problem, and `Label` gives the field's Portuguese name. The formatted message text is not built.
- Basic: `quadra not in self.areas_verdes` is list membership by value equality.
- Basic: the lot front's `length > 0` test becomes a test that its end points differ.
- Improved.ImprovedProcessor.CreateRoadGrid: requires a non-zero block depth, because a zero depth raises ZeroDivisionError.
- Improved.ImprovedProcessor.SubdivideBlocks: when a block raises ZeroDivisionError, the lots of the earlier blocks stay in the list and the exception is reported as a flag.
- Improved: `definir_eixo_principal` is never called by the improved pipeline. `processar_loteamento` is left out.
