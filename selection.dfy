/**
 * The list disciplines the processors share: scanning candidates in order
 * for the first acceptable one, keeping the elements that pass a test,
 * sorting geometries by decreasing area (Python's sort is stable), taking a
 * prefix until a running total reaches a quota, and distributing a list
 * between the green and the institutional lists by their running totals.
 */
module Selection {
  import opened Geometry

  /* ---------- first acceptable candidate ---------- */

  /** Index of the first candidate that passes `ok`, scanning in list order. */
  function FirstAccepted<T>(cands: seq<T>, ok: T -> bool): (r: Option<nat>)
    ensures r.Some? ==> r.value < |cands| && ok(cands[r.value])
    ensures r.Some? ==> forall j :: 0 <= j < r.value ==> !ok(cands[j])
    ensures r.None? <==> forall j :: 0 <= j < |cands| ==> !ok(cands[j])
  {
    if cands == [] then None
    else if ok(cands[0]) then Some(0)
    else
      match FirstAccepted(cands[1..], ok)
      case None => None
      case Some(k) => Some(k + 1)
  }

  /* ---------- filtering ---------- */

  /** `[x for x in s if p(x)]`. */
  function Filter<T>(s: seq<T>, p: T -> bool): (r: seq<T>)
    ensures |r| <= |s|
    ensures forall i :: 0 <= i < |r| ==> p(r[i])
    ensures forall x :: x in r ==> x in s
  {
    if s == [] then [] else (if p(s[0]) then [s[0]] else []) + Filter(s[1..], p)
  }

  lemma {:induction false} FilterAppend<T>(a: seq<T>, b: seq<T>, p: T -> bool)
    ensures Filter(a + b, p) == Filter(a, p) + Filter(b, p)
  {
    if a != [] {
      assert (a + b)[1..] == a[1..] + b;
      FilterAppend(a[1..], b, p);
    } else {
      assert a + b == b;
    }
  }

  lemma FilterOne<T>(x: T, p: T -> bool)
    ensures Filter([x], p) == if p(x) then [x] else []
  {
    assert [x][1..] == [];
  }

  /** Every element that passes the test is kept. */
  lemma {:induction false} FilterKeeps<T>(s: seq<T>, p: T -> bool, x: T)
    requires x in s && p(x)
    ensures x in Filter(s, p)
  {
    if s[0] != x {
      FilterKeeps(s[1..], p, x);
    }
  }

  /** FilterKeeps for every element at once. */
  lemma FilterKeepsAll<T>(s: seq<T>, p: T -> bool)
    ensures forall x :: x in s && p(x) ==> x in Filter(s, p)
  {
    forall x | x in s && p(x) ensures x in Filter(s, p) {
      FilterKeeps(s, p, x);
    }
  }

  lemma {:induction false} FilterMultiset<T>(s: seq<T>, p: T -> bool)
    ensures multiset(Filter(s, p)) <= multiset(s)
  {
    if s != [] {
      FilterMultiset(s[1..], p);
      assert s == [s[0]] + s[1..];
    }
  }

  /** a is obtained from b by deleting elements: the relative order is kept. */
  predicate Subsequence<T(==)>(a: seq<T>, b: seq<T>)
    decreases |b|
  {
    a == [] || (b != [] && (if a[0] == b[0] then Subsequence(a[1..], b[1..]) else Subsequence(a, b[1..])))
  }

  lemma {:induction false} FilterIsSubsequence<T>(s: seq<T>, p: T -> bool)
    ensures Subsequence(Filter(s, p), s)
  {
    if s != [] {
      FilterIsSubsequence(s[1..], p);
      if p(s[0]) {
        assert Filter(s, p) == [s[0]] + Filter(s[1..], p);
        assert Filter(s, p)[1..] == Filter(s[1..], p);
      } else {
        assert Filter(s, p) == Filter(s[1..], p);
      }
    }
  }

  /** A prefix of a subsequence is a subsequence. */
  lemma {:induction false} PrefixIsSubsequence<T>(p: seq<T>, s: seq<T>, t: seq<T>)
    requires p <= s && Subsequence(s, t)
    ensures Subsequence(p, t)
    decreases |t|
  {
    if p != [] {
      if s[0] == t[0] {
        PrefixIsSubsequence(p[1..], s[1..], t[1..]);
      } else {
        PrefixIsSubsequence(p, s, t[1..]);
      }
    }
  }

  /** Splitting by a test and its negation loses and duplicates nothing. */
  lemma {:induction false} FilterSplit<T>(s: seq<T>, p: T -> bool, q: T -> bool)
    requires forall x :: q(x) == !p(x)
    ensures multiset(Filter(s, p)) + multiset(Filter(s, q)) == multiset(s)
  {
    if s != [] {
      FilterSplit(s[1..], p, q);
      FilterSplitStep(s, p, q);
    }
  }

  /** The first element goes to exactly one side of the split. */
  lemma FilterSplitStep<T>(s: seq<T>, p: T -> bool, q: T -> bool)
    requires s != [] && q(s[0]) == !p(s[0])
    requires multiset(Filter(s[1..], p)) + multiset(Filter(s[1..], q)) == multiset(s[1..])
    ensures multiset(Filter(s, p)) + multiset(Filter(s, q)) == multiset(s)
  {
    assert s == [s[0]] + s[1..];
    OneSide(s[0], Filter(s[1..], p), Filter(s[1..], q), s[1..], p(s[0]));
  }

  /** x joins one of two parts that split t: together they split [x] + t. */
  lemma OneSide<T>(x: T, a: seq<T>, b: seq<T>, t: seq<T>, toA: bool)
    requires multiset(a) + multiset(b) == multiset(t)
    ensures multiset((if toA then [x] else []) + a) + multiset((if toA then [] else [x]) + b) == multiset([x] + t)
  {
    if toA {
      assert multiset([x] + a) == multiset{x} + multiset(a);
      assert [] + b == b;
    } else {
      assert multiset([x] + b) == multiset{x} + multiset(b);
      assert [] + a == a;
    }
    assert multiset([x] + t) == multiset{x} + multiset(t);
  }

  /** Needed area for a percentage of the total: `area_total * (pct / 100)`. */
  function Need(total: real, percent: real): real
  {
    total * (percent / 100.0)
  }

  /* ---------- sorting by decreasing area ---------- */

  predicate SortedByAreaDesc(s: seq<Shape>)
  {
    forall i, j :: 0 <= i < j < |s| ==> s[i].area >= s[j].area
  }

  function InsertByArea(x: Shape, s: seq<Shape>): (r: seq<Shape>)
    ensures multiset(r) == multiset(s) + multiset{x}
    ensures |r| == |s| + 1
  {
    if s == [] || x.area >= s[0].area then [x] + s
    else
      assert s == [s[0]] + s[1..];
      [s[0]] + InsertByArea(x, s[1..])
  }

  /** `sorted(s, key=area, reverse=True)`: an insertion sort, stable like Python's. */
  function SortByArea(s: seq<Shape>): (r: seq<Shape>)
    ensures |r| == |s|
  {
    if s == [] then [] else InsertByArea(s[0], SortByArea(s[1..]))
  }

  /** Inserting keeps a common upper bound on the areas. */
  lemma {:induction false} InsertByAreaBounded(x: Shape, s: seq<Shape>, bound: real)
    requires x.area <= bound && forall j :: 0 <= j < |s| ==> s[j].area <= bound
    ensures forall j :: 0 <= j < |InsertByArea(x, s)| ==> InsertByArea(x, s)[j].area <= bound
  {
    if s != [] && x.area < s[0].area {
      InsertByAreaBounded(x, s[1..], bound);
    }
  }

  lemma {:induction false} InsertByAreaSorted(x: Shape, s: seq<Shape>)
    requires SortedByAreaDesc(s)
    ensures SortedByAreaDesc(InsertByArea(x, s))
    ensures InsertByArea(x, s) != [] && (InsertByArea(x, s)[0] == x || (s != [] && InsertByArea(x, s)[0] == s[0]))
  {
    if s != [] && x.area < s[0].area {
      InsertByAreaSorted(x, s[1..]);
      var r := InsertByArea(x, s[1..]);
      assert InsertByArea(x, s) == [s[0]] + r;
      InsertByAreaBounded(x, s[1..], s[0].area);
    }
  }

  /** The sorted list is ordered by decreasing area and is a permutation of the input. */
  lemma SortByAreaCorrect(s: seq<Shape>)
    ensures SortedByAreaDesc(SortByArea(s))
    ensures multiset(SortByArea(s)) == multiset(s)
  {
    SortByAreaSorted(s);
    SortByAreaPermutes(s);
  }

  lemma {:induction false} SortByAreaSorted(s: seq<Shape>)
    ensures SortedByAreaDesc(SortByArea(s))
  {
    if s != [] {
      SortByAreaSorted(s[1..]);
      InsertByAreaSorted(s[0], SortByArea(s[1..]));
    }
  }

  lemma {:induction false} SortByAreaPermutes(s: seq<Shape>)
    ensures multiset(SortByArea(s)) == multiset(s)
  {
    if s != [] {
      SortByAreaPermutes(s[1..]);
      assert s == [s[0]] + s[1..];
    }
  }

  function AreaIs(a: real): Shape -> bool
  {
    (x: Shape) => x.area == a
  }

  /** Inserting puts x ahead of every geometry of its own area and keeps the others' order. */
  lemma {:induction false} InsertByAreaStable(x: Shape, s: seq<Shape>, a: real)
    ensures Filter(InsertByArea(x, s), AreaIs(a)) == Filter([x], AreaIs(a)) + Filter(s, AreaIs(a))
  {
    if s == [] || x.area >= s[0].area {
      FilterAppend([x], s, AreaIs(a));
    } else {
      InsertByAreaStable(x, s[1..], a);
      assert !(AreaIs(a)(s[0]) && AreaIs(a)(x));
      FilterPastOne(s[0], x, InsertByArea(x, s[1..]), s[1..], AreaIs(a));
      assert [s[0]] + s[1..] == s;
    }
  }

  /** Moving x past an element y keeps the filtered order when at most one of the two passes. */
  lemma FilterPastOne<T>(y: T, x: T, r: seq<T>, t: seq<T>, p: T -> bool)
    requires !(p(y) && p(x))
    requires Filter(r, p) == Filter([x], p) + Filter(t, p)
    ensures Filter([y] + r, p) == Filter([x], p) + Filter([y] + t, p)
  {
    FilterCons(y, r, p);
    FilterCons(y, t, p);
    FilterOne(x, p);
    var fy: seq<T> := if p(y) then [y] else [];
    var fx: seq<T> := if p(x) then [x] else [];
    if p(y) {
      assert fx == [];
      assert fx + Filter(t, p) == Filter(t, p);
      assert fx + (fy + Filter(t, p)) == fy + Filter(t, p);
    } else {
      assert fy + (fx + Filter(t, p)) == fx + Filter(t, p);
      assert fy + Filter(t, p) == Filter(t, p);
    }
  }

  lemma FilterCons<T>(y: T, r: seq<T>, p: T -> bool)
    ensures Filter([y] + r, p) == (if p(y) then [y] else []) + Filter(r, p)
  {
    assert ([y] + r)[1..] == r;
  }

  /**
   * Stability: the geometries of any one area keep their input order in the
   * sorted list.
   */
  lemma {:induction false} SortByAreaStable(s: seq<Shape>, a: real)
    ensures Filter(SortByArea(s), AreaIs(a)) == Filter(s, AreaIs(a))
  {
    if s != [] {
      SortByAreaStable(s[1..], a);
      InsertStable(s[0], s[1..], SortByArea(s[1..]), a);
      assert [s[0]] + s[1..] == s;
    }
  }

  /** Inserting x into a list that keeps t's order per area keeps the order of `[x] + t` per area. */
  lemma InsertStable(x: Shape, t: seq<Shape>, sorted: seq<Shape>, a: real)
    requires Filter(sorted, AreaIs(a)) == Filter(t, AreaIs(a))
    ensures Filter(InsertByArea(x, sorted), AreaIs(a)) == Filter([x] + t, AreaIs(a))
  {
    InsertByAreaStable(x, sorted, a);
    FilterAppend([x], t, AreaIs(a));
  }

  /* ---------- greedy prefix up to a quota ---------- */

  lemma SumAreasCons(x: Shape, t: seq<Shape>)
    ensures SumAreas([x] + t) == x.area + SumAreas(t)
  {
    SumAreasAppend([x], t);
    assert [x][..0] == [];
  }

  /**
   * The loop "stop once the allocated total reaches the need, otherwise take
   * the next item and add its area", started with `acc` already allocated.
   */
  function Greedy(items: seq<Shape>, need: real, acc: real): (r: seq<Shape>)
    ensures |r| <= |items| && r == items[..|r|]
    decreases |items|
  {
    if items == [] || acc >= need then []
    else [items[0]] + Greedy(items[1..], need, acc + items[0].area)
  }

  /** One step of the greedy loop at index i: below the need the item is taken, otherwise the loop stops. */
  lemma GreedyStep(items: seq<Shape>, i: nat, need: real, acc: real)
    requires i < |items|
    ensures acc < need ==> Greedy(items[i..], need, acc) == [items[i]] + Greedy(items[i + 1..], need, acc + items[i].area)
    ensures acc >= need ==> Greedy(items[i..], need, acc) == []
  {
    assert items[i..][1..] == items[i + 1..];
  }

  /**
   * The greedy prefix takes nothing when the need is already met; every item
   * but the last was taken while the total was below the need; and it stops
   * short of the whole list only once the need is met.
   */
  lemma {:induction false} GreedyQuota(items: seq<Shape>, need: real, acc: real)
    ensures acc >= need ==> Greedy(items, need, acc) == []
    ensures var r := Greedy(items, need, acc);
      r != [] ==> acc + SumAreas(r[..|r| - 1]) < need
    ensures var r := Greedy(items, need, acc);
      |r| < |items| ==> acc + SumAreas(r) >= need
    decreases |items|
  {
    if items != [] && acc < need {
      var x := items[0];
      var t := Greedy(items[1..], need, acc + x.area);
      GreedyQuota(items[1..], need, acc + x.area);
      assert Greedy(items, need, acc) == [x] + t;
      GreedyQuotaStep(x, items[1..], t, need, acc);
    }
  }

  /** The step of GreedyQuota: taking x below the need keeps both bounds. */
  lemma GreedyQuotaStep(x: Shape, rest: seq<Shape>, t: seq<Shape>, need: real, acc: real)
    requires acc < need
    requires t != [] ==> acc + x.area + SumAreas(t[..|t| - 1]) < need
    requires |t| < |rest| ==> acc + x.area + SumAreas(t) >= need
    ensures var r := [x] + t; acc + SumAreas(r[..|r| - 1]) < need
    ensures |[x] + t| < |[x] + rest| ==> acc + SumAreas([x] + t) >= need
  {
    var r := [x] + t;
    SumAreasCons(x, t);
    if t != [] {
      assert r[..|r| - 1] == [x] + t[..|t| - 1];
      SumAreasCons(x, t[..|t| - 1]);
    } else {
      assert r[..|r| - 1] == [];
    }
  }

  /**
   * The loop "for each item: stop once the running total reaches the need;
   * take the item if it passes the test".  Skipped items do not change the
   * total, so it takes the greedy prefix of the items that pass.
   */
  method TakeEligible(items: seq<Shape>, p: Shape -> bool, need: real) returns (taken: seq<Shape>)
    ensures taken == Greedy(Filter(items, p), need, 0.0)
  {
    taken := [];
    var runningArea := 0.0;
    var i := 0;
    while i < |items|
      invariant 0 <= i <= |items|
      invariant taken + EligibleFrom(items, p, need, i, runningArea) == EligibleFrom(items, p, need, 0, 0.0)
    {
      if runningArea >= need {
        assert taken + [] == taken;
        break;
      }
      var x := items[i];
      if p(x) {
        ghost var rest := EligibleFrom(items, p, need, i + 1, runningArea + x.area);
        assert (taken + [x]) + rest == taken + ([x] + rest);
        taken := taken + [x];
        runningArea := runningArea + x.area;
      }
      i := i + 1;
    }
    EligibleFromIsGreedy(items, p, need, 0, 0.0);
    assert items[0..] == items;
  }

  /** The loop of `TakeEligible` from index i with `acc` already taken, read off the items directly. */
  function EligibleFrom(items: seq<Shape>, p: Shape -> bool, need: real, i: nat, acc: real): seq<Shape>
    decreases |items| - i
  {
    if i >= |items| || acc >= need then []
    else if p(items[i]) then [items[i]] + EligibleFrom(items, p, need, i + 1, acc + items[i].area)
    else EligibleFrom(items, p, need, i + 1, acc)
  }

  /** Read off the items or as the greedy prefix of the passing ones, the loop takes the same geometries. */
  lemma {:induction false} EligibleFromIsGreedy(items: seq<Shape>, p: Shape -> bool, need: real, i: nat, acc: real)
    requires i <= |items|
    ensures EligibleFrom(items, p, need, i, acc) == Greedy(Filter(items[i..], p), need, acc)
    decreases |items| - i
  {
    if i < |items| {
      FilterFrom(items, i, p);
      var rest := Filter(items[i + 1..], p);
      if p(items[i]) {
        EligibleFromIsGreedy(items, p, need, i + 1, acc + items[i].area);
        assert ([items[i]] + rest)[1..] == rest;
      } else {
        EligibleFromIsGreedy(items, p, need, i + 1, acc);
        assert [] + rest == rest;
      }
    }
  }

  /**
   * The greedy prefix of the items that pass a test: a subsequence of the
   * items, all passing, nothing with no need, every item but the last taken
   * below the need, and short of all passing items only once the need is met.
   */
  lemma GreedyFilterMeaning(items: seq<Shape>, p: Shape -> bool, need: real)
    ensures var g := Greedy(Filter(items, p), need, 0.0);
      && Subsequence(g, items)
      && (forall q :: q in g ==> p(q))
      && (need <= 0.0 ==> g == [])
      && (g != [] ==> SumAreas(g[..|g| - 1]) < need)
      && (|g| < |Filter(items, p)| ==> SumAreas(g) >= need)
  {
    var passing := Filter(items, p);
    GreedyQuota(passing, need, 0.0);
    FilterIsSubsequence(items, p);
    var g := Greedy(passing, need, 0.0);
    PrefixIsSubsequence(g, passing, items);
    forall q | q in g ensures p(q) {
      assert q in passing;
    }
  }

  /** Total area of the lots a test places inside a block (`sum(l.area for l in lots if inside(l, block))`). */
  function CoveredArea(block: Shape, lots: seq<Shape>, inside: (Shape, Shape) -> bool): (total: real)
    ensures 0.0 <= total <= SumAreas(lots)
  {
    FilterSumAtMost(lots, (lot: Shape) => inside(lot, block));
    SumAreas(Filter(lots, (lot: Shape) => inside(lot, block)))
  }

  lemma {:induction false} FilterSumAtMost(lots: seq<Shape>, p: Shape -> bool)
    ensures SumAreas(Filter(lots, p)) <= SumAreas(lots)
    decreases |lots|
  {
    if lots != [] {
      FilterSumAtMost(lots[1..], p);
      assert lots == [lots[0]] + lots[1..];
      SumAreasCons(lots[0], lots[1..]);
      var f := Filter(lots[1..], p);
      if p(lots[0]) {
        SumAreasCons(lots[0], f);
      } else {
        assert [] + f == f;
      }
    }
  }

  /* ---------- distribution between the green and institutional lists ---------- */

  /** What an over-quota item becomes: still green, or left out. */
  datatype Overflow = ToGreen | Discard

  /**
   * The lists being filled and their running totals.  `discarded` records the
   * items left out; the processors keep no such list.
   */
  datatype Allocation = Allocation(
    green: seq<Shape>, institutional: seq<Shape>, discarded: seq<Shape>,
    greenTotal: real, institutionalTotal: real)

  /** One item: green while green is below its need, else institutional while below, else overflow. */
  function Place(s: Allocation, x: Shape, needG: real, needI: real, overflow: Overflow): Allocation
  {
    if s.greenTotal < needG then s.(green := s.green + [x], greenTotal := s.greenTotal + x.area)
    else if s.institutionalTotal < needI then
      s.(institutional := s.institutional + [x], institutionalTotal := s.institutionalTotal + x.area)
    else if overflow == ToGreen then s.(green := s.green + [x])
    else s.(discarded := s.discarded + [x])
  }

  function PlaceAll(s: Allocation, items: seq<Shape>, needG: real, needI: real, overflow: Overflow): Allocation
    decreases |items|
  {
    if items == [] then s else PlaceAll(Place(s, items[0], needG, needI, overflow), items[1..], needG, needI, overflow)
  }

  /**
   * Every item ends in exactly one list (green, institutional or left out),
   * the lists only grow at their ends, and with the ToGreen overflow nothing
   * is left out.
   */
  lemma {:induction false} PlaceAllPartition(s: Allocation, items: seq<Shape>, needG: real, needI: real, overflow: Overflow)
    ensures var r := PlaceAll(s, items, needG, needI, overflow);
      && multiset(r.green) + multiset(r.institutional) + multiset(r.discarded)
         == multiset(s.green) + multiset(s.institutional) + multiset(s.discarded) + multiset(items)
      && s.green <= r.green
      && s.institutional <= r.institutional
      && (overflow == ToGreen ==> r.discarded == s.discarded)
    decreases |items|
  {
    if items != [] {
      var s' := Place(s, items[0], needG, needI, overflow);
      PlacePartition(s, items[0], needG, needI, overflow);
      PlaceAllPartition(s', items[1..], needG, needI, overflow);
      assert items == [items[0]] + items[1..];
      assert multiset(items) == multiset{items[0]} + multiset(items[1..]);
      assert PlaceAll(s, items, needG, needI, overflow) == PlaceAll(s', items[1..], needG, needI, overflow);
    }
  }

  /** One item lands in exactly one list, at its end. */
  lemma PlacePartition(s: Allocation, x: Shape, needG: real, needI: real, overflow: Overflow)
    ensures var t := Place(s, x, needG, needI, overflow);
      && multiset(t.green) + multiset(t.institutional) + multiset(t.discarded)
         == multiset(s.green) + multiset(s.institutional) + multiset(s.discarded) + multiset{x}
      && s.green <= t.green
      && s.institutional <= t.institutional
      && (overflow == ToGreen ==> t.discarded == s.discarded)
  {
  }

  /**
   * Green is served first: while the green total stays below its need every
   * item goes to green, and institutional receives an item only after green's
   * need has been met.
   */
  lemma {:induction false} PlaceAllGreenFirst(s: Allocation, items: seq<Shape>, needG: real, needI: real, overflow: Overflow)
    ensures var r := PlaceAll(s, items, needG, needI, overflow);
      r.greenTotal < needG ==> r.green == s.green + items && r.institutional == s.institutional
    ensures var r := PlaceAll(s, items, needG, needI, overflow);
      |r.institutional| > |s.institutional| ==> r.greenTotal >= needG
    ensures PlaceAll(s, items, needG, needI, overflow).greenTotal >= s.greenTotal
    decreases |items|
  {
    if items != [] {
      var s' := Place(s, items[0], needG, needI, overflow);
      PlaceAllGreenFirst(s', items[1..], needG, needI, overflow);
      assert s.green + items == s.green + [items[0]] + items[1..];
    } else {
      assert s.green + items == s.green;
    }
  }

  /** Items are left out only once both needs are met. */
  lemma {:induction false} PlaceAllDiscardsOnlyWhenFull(s: Allocation, items: seq<Shape>, needG: real, needI: real)
    ensures var r := PlaceAll(s, items, needG, needI, Discard);
      |r.discarded| > |s.discarded| ==> r.greenTotal >= needG && r.institutionalTotal >= needI
    ensures PlaceAll(s, items, needG, needI, Discard).institutionalTotal >= s.institutionalTotal
    ensures PlaceAll(s, items, needG, needI, Discard).greenTotal >= s.greenTotal
    decreases |items|
  {
    if items != [] {
      var s' := Place(s, items[0], needG, needI, Discard);
      PlaceAllDiscardsOnlyWhenFull(s', items[1..], needG, needI);
    }
  }

  /** Everything the allocation adds to one of the lists comes from the items. */
  lemma {:induction false} PlaceAllDrawsFromItems(s: Allocation, items: seq<Shape>, needG: real, needI: real, overflow: Overflow)
    ensures var r := PlaceAll(s, items, needG, needI, overflow);
      && |s.green| <= |r.green| && |s.institutional| <= |r.institutional|
      && (forall i :: |s.green| <= i < |r.green| ==> r.green[i] in items)
      && (forall i :: |s.institutional| <= i < |r.institutional| ==> r.institutional[i] in items)
    decreases |items|
  {
    if items != [] {
      var s' := Place(s, items[0], needG, needI, overflow);
      PlaceAllDrawsFromItems(s', items[1..], needG, needI, overflow);
      PlaceAllPartition(s', items[1..], needG, needI, overflow);
      var r := PlaceAll(s, items, needG, needI, overflow);
      assert r == PlaceAll(s', items[1..], needG, needI, overflow);
      forall i | |s.green| <= i < |r.green| ensures r.green[i] in items {
        if i >= |s'.green| {
          assert r.green[i] in items[1..];
        } else {
          assert r.green[i] == s'.green[i] == items[0];
        }
      }
      forall i | |s.institutional| <= i < |r.institutional| ensures r.institutional[i] in items {
        if i >= |s'.institutional| {
          assert r.institutional[i] in items[1..];
        } else {
          assert r.institutional[i] == s'.institutional[i] == items[0];
        }
      }
    }
  }

  /** One item in front of the rest is placed before the rest. */
  lemma PlaceAllCons(s: Allocation, x: Shape, rest: seq<Shape>, needG: real, needI: real, overflow: Overflow)
    ensures PlaceAll(s, [x] + rest, needG, needI, overflow) == PlaceAll(Place(s, x, needG, needI, overflow), rest, needG, needI, overflow)
  {
    assert ([x] + rest)[1..] == rest;
  }

  /** The filter of a suffix, one element at a time. */
  lemma FilterFrom<T>(s: seq<T>, k: nat, p: T -> bool)
    requires k < |s|
    ensures Filter(s[k..], p) == (if p(s[k]) then [s[k]] else []) + Filter(s[k + 1..], p)
  {
    assert s[k..][1..] == s[k + 1..];
  }

  /** One step of a loop that builds `Filter(s, p)` left to right. */
  lemma FilterLoopStep<T>(s: seq<T>, k: nat, p: T -> bool, kept: seq<T>)
    requires k < |s| && kept + Filter(s[k..], p) == Filter(s, p)
    ensures (kept + if p(s[k]) then [s[k]] else []) + Filter(s[k + 1..], p) == Filter(s, p)
  {
    FilterFrom(s, k, p);
    var here: seq<T> := if p(s[k]) then [s[k]] else [];
    var later := Filter(s[k + 1..], p);
    AppendAssoc(kept, here, later);
  }

  /**
   * The allocation loop: each item is placed by the running totals, which
   * start as given.  Returns the green and institutional lists.
   */
  method PlaceEach(start: Allocation, items: seq<Shape>, needG: real, needI: real, overflow: Overflow)
    returns (green: seq<Shape>, institutional: seq<Shape>)
    requires start.discarded == []
    ensures green == PlaceAll(start, items, needG, needI, overflow).green
    ensures institutional == PlaceAll(start, items, needG, needI, overflow).institutional
  {
    green, institutional := start.green, start.institutional;
    var greenTotal, institutionalTotal := start.greenTotal, start.institutionalTotal;
    ghost var discarded: seq<Shape> := [];
    var k := 0;
    while k < |items|
      invariant 0 <= k <= |items|
      invariant PlaceAll(Allocation(green, institutional, discarded, greenTotal, institutionalTotal),
                         items[k..], needG, needI, overflow) == PlaceAll(start, items, needG, needI, overflow)
    {
      var x := items[k];
      assert items[k..][1..] == items[k + 1..];
      if greenTotal < needG {
        green := green + [x];
        greenTotal := greenTotal + x.area;
      } else if institutionalTotal < needI {
        institutional := institutional + [x];
        institutionalTotal := institutionalTotal + x.area;
      } else if overflow == ToGreen {
        green := green + [x];
      } else {
        discarded := discarded + [x];
      }
      k := k + 1;
    }
  }

  /* ---------- loops over blocks that stop at an exception ---------- */

  /** Lots added so far, and whether a block raised; the loop over the blocks stops at the first that raises. */
  datatype Run = Run(lots: seq<Shape>, raised: bool)

  /** One more block: its lots are added unless an earlier block raised or this one raises. */
  function Next(prev: Run, more: Option<seq<Shape>>): Run
  {
    if prev.raised then prev
    else
      match more
      case None => Run(prev.lots, true)
      case Some(ls) => Run(prev.lots + ls, false)
  }
}
