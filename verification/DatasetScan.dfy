// The accumulation loop of `_scan_dataset` of audit_large_pack.py: reading box by box gives the counts, extremes and
// sums of one pass over the whole array, for boxes that tile it.
module DatasetScan {
  import opened Basics
  import opened Hyperslabs

  // ----- Which cells are read -----

  /** `i` put before every index. */
  function Prefixed(i: nat, tails: seq<Index>): seq<Index> {
    seq(|tails|, k requires 0 <= k < |tails| => [i] + tails[k])
  }

  /** The indices of the cells with first coordinate in `lo..hi`, row by row. */
  function Rows(lo: nat, hi: nat, tails: seq<Index>): seq<Index>
    decreases hi - lo
  {
    if lo >= hi then [] else Prefixed(lo, tails) + Rows(lo + 1, hi, tails)
  }

  /** The cells of a box in the order they are read. */
  function CellsOf(box: Box): seq<Index> {
    if box == [] then [[]] else Rows(box[0].0, box[0].1, CellsOf(box[1..]))
  }

  function Whole(shape: seq<nat>): Box {
    seq(|shape|, i requires 0 <= i < |shape| => (0, shape[i]))
  }

  function Occurs(cells: seq<Index>, index: Index): nat {
    multiset(cells)[index]
  }

  lemma OccursConcat(a: seq<Index>, b: seq<Index>, index: Index)
    ensures Occurs(a + b, index) == Occurs(a, index) + Occurs(b, index)
  {
  }

  lemma {:induction false} PrefixedOccurs(i: nat, tails: seq<Index>, index: Index)
    ensures Occurs(Prefixed(i, tails), index) == if index != [] && index[0] == i then Occurs(tails, index[1..]) else 0
  {
    if tails != [] {
      var n := |tails| - 1;
      PrefixedOccurs(i, tails[..n], index);
      assert Prefixed(i, tails) == Prefixed(i, tails[..n]) + [[i] + tails[n]];
      assert tails == tails[..n] + [tails[n]];
      assert ([i] + tails[n])[1..] == tails[n];
      assert index != [] ==> index == [index[0]] + index[1..];
    }
  }

  lemma {:induction false} RowsOccur(lo: nat, hi: nat, tails: seq<Index>, index: Index)
    ensures Occurs(Rows(lo, hi, tails), index) ==
            if index != [] && lo <= index[0] < hi then Occurs(tails, index[1..]) else 0
    decreases hi - lo
  {
    if lo < hi {
      RowsOccur(lo + 1, hi, tails, index);
      PrefixedOccurs(lo, tails, index);
      OccursConcat(Prefixed(lo, tails), Rows(lo + 1, hi, tails), index);
    }
  }

  /** A box's cells are the indices inside it, each read once. */
  lemma {:induction false} CellsAreInside(box: Box, index: Index)
    ensures Occurs(CellsOf(box), index) == Bit(Inside(index, box))
  {
    if box != [] {
      RowsOccur(box[0].0, box[0].1, CellsOf(box[1..]), index);
      if index != [] {
        CellsAreInside(box[1..], index[1..]);
        InsideSplits(index, box[0], box[1..]);
        assert box == [box[0]] + box[1..];
      }
    }
  }

  /** The cells of all boxes, in reading order. */
  function AllCells(boxes: seq<Box>): seq<Index> {
    if boxes == [] then [] else AllCells(boxes[..|boxes| - 1]) + CellsOf(boxes[|boxes| - 1])
  }

  lemma {:induction false} AllCellsOccur(boxes: seq<Box>, index: Index)
    ensures Occurs(AllCells(boxes), index) == BoxesWith(boxes, index)
  {
    if boxes != [] {
      var init, last := boxes[..|boxes| - 1], boxes[|boxes| - 1];
      AllCellsOccur(init, index);
      CellsAreInside(last, index);
      BoxesWithConcat(init, [last], index);
      assert boxes == init + [last];
      OccursConcat(AllCells(init), CellsOf(last), index);
    }
  }

  predicate Ranked(boxes: seq<Box>, rank: nat) {
    forall k | 0 <= k < |boxes| :: |boxes[k]| == rank
  }

  lemma {:induction false} OtherRank(boxes: seq<Box>, rank: nat, index: Index)
    requires Ranked(boxes, rank) && |index| != rank
    ensures BoxesWith(boxes, index) == 0
  {
    if boxes != [] { OtherRank(boxes[1..], rank, index); }
  }

  /** Reading the boxes reads every cell of the array once: a permutation of one pass over the whole. */
  lemma ReadsEveryCellOnce(shape: seq<nat>, preferred: Option<seq<int>>, maxElements: int)
    requires SlabsOf(shape, preferred, maxElements).Some?
    ensures multiset(AllCells(SlabsOf(shape, preferred, maxElements).value)) == multiset(CellsOf(Whole(shape)))
  {
    var boxes, whole := SlabsOf(shape, preferred, maxElements).value, Whole(shape);
    SlabsAreRanked(shape, preferred, maxElements);
    forall index: Index ensures Occurs(AllCells(boxes), index) == Occurs(CellsOf(whole), index) {
      AllCellsOccur(boxes, index);
      CellsAreInside(whole, index);
      if |index| == |shape| {
        SlabsTile(shape, preferred, maxElements, index);
        assert Inside(index, whole) <==> ValidIndex(index, shape);
      } else {
        OtherRank(boxes, |shape|, index);
      }
    }
    hide SlabsOf, AllCells, CellsOf;
    assert forall index: Index :: multiset(AllCells(boxes))[index] == Occurs(AllCells(boxes), index);
    assert forall index: Index :: multiset(CellsOf(whole))[index] == Occurs(CellsOf(whole), index);
  }

  lemma SlabsAreRanked(shape: seq<nat>, preferred: Option<seq<int>>, maxElements: int)
    requires SlabsOf(shape, preferred, maxElements).Some?
    ensures Ranked(SlabsOf(shape, preferred, maxElements).value, |shape|)
  {
    if shape != [] && 0 !in shape {
      var start: seq<int> := if preferred.Some? then preferred.value else shape;
      BoxesFit(shape, BlockOf(start, shape, maxElements));
    }
  }

  // ----- What is accumulated -----

  datatype Value = Finite(x: real) | NotANumber | PosInfinity | NegInfinity

  datatype Stats = Stats(
    scanned: nat, finite: nat, nan: nat, posInf: nat, negInf: nat,
    min: Option<real>, max: Option<real>, absMin: Option<real>, absMax: Option<real>)

  const EMPTY := Stats(0, 0, 0, 0, 0, None, None, None, None)

  function LeastOf(a: Option<real>, b: Option<real>): Option<real> {
    if a.None? then b else if b.None? then a else if b.value < a.value then b else a
  }

  function GreatestOf(a: Option<real>, b: Option<real>): Option<real> {
    if a.None? then b else if b.None? then a else if b.value > a.value then b else a
  }

  /** The running row with one chunk's counts and extrema. */
  function Merge(a: Stats, b: Stats): Stats {
    Stats(a.scanned + b.scanned, a.finite + b.finite, a.nan + b.nan, a.posInf + b.posInf, a.negInf + b.negInf,
          LeastOf(a.min, b.min), GreatestOf(a.max, b.max), LeastOf(a.absMin, b.absMin), GreatestOf(a.absMax, b.absMax))
  }

  function Abs(x: real): (r: real)
    ensures r >= 0.0 && (r == x || r == -x)
  {
    if x < 0.0 then -x else x
  }

  function One(v: Value): Stats {
    match v
    case Finite(x) => Stats(1, 1, 0, 0, 0, Some(x), Some(x), Some(Abs(x)), Some(Abs(x)))
    case NotANumber => EMPTY.(scanned := 1, nan := 1)
    case PosInfinity => EMPTY.(scanned := 1, posInf := 1)
    case NegInfinity => EMPTY.(scanned := 1, negInf := 1)
  }

  /** One pass over the cells. */
  function StatsOf(data: Index -> Value, cells: seq<Index>): Stats {
    if cells == [] then EMPTY else Merge(StatsOf(data, cells[..|cells| - 1]), One(data(cells[|cells| - 1])))
  }

  lemma MergeUnit(a: Stats)
    ensures Merge(a, EMPTY) == a && Merge(EMPTY, a) == a
  {
  }

  lemma MergeAssociates(a: Stats, b: Stats, c: Stats)
    ensures Merge(Merge(a, b), c) == Merge(a, Merge(b, c))
  {
  }

  lemma MergeCommutes(a: Stats, b: Stats)
    ensures Merge(a, b) == Merge(b, a)
  {
  }

  lemma {:induction false} StatsConcat(data: Index -> Value, a: seq<Index>, b: seq<Index>)
    ensures StatsOf(data, a + b) == Merge(StatsOf(data, a), StatsOf(data, b))
  {
    if b == [] {
      assert a + b == a;
      MergeUnit(StatsOf(data, a));
    } else {
      var init, last := b[..|b| - 1], b[|b| - 1];
      StatsConcat(data, a, init);
      assert (a + b)[..|a + b| - 1] == a + init;
      MergeAssociates(StatsOf(data, a), StatsOf(data, init), One(data(last)));
      hide Merge, One;
    }
  }

  lemma SwapLast(a: Stats, x: Stats, b: Stats)
    ensures Merge(Merge(a, x), b) == Merge(Merge(a, b), x)
  {
    MergeAssociates(a, x, b);
    MergeCommutes(x, b);
    MergeAssociates(a, b, x);
    hide Merge;
  }

  lemma OneCell(data: Index -> Value, x: Index)
    ensures StatsOf(data, [x]) == One(data(x))
  {
    assert [x][..0] == [];
    MergeUnit(One(data(x)));
    hide Merge, One;
  }

  /** The last cell of one order, found and taken out of the other. */
  lemma TakeOut(init: seq<Index>, x: Index, t: seq<Index>) returns (k: nat)
    requires multiset(init + [x]) == multiset(t)
    ensures k < |t| && t == (t[..k] + [x]) + t[k + 1..] && multiset(init) == multiset(t[..k] + t[k + 1..])
  {
    assert x in multiset(init + [x]);
    assert x in t;
    k :| 0 <= k < |t| && t[k] == x;
    var a, b := t[..k], t[k + 1..];
    assert t == (a + [x]) + b;
    assert multiset(t) == multiset(a + b) + multiset{x};
    assert multiset(init + [x]) == multiset(init) + multiset{x};
    assert multiset(init) == (multiset(init) + multiset{x}) - multiset{x};
    assert multiset(a + b) == (multiset(a + b) + multiset{x}) - multiset{x};
  }

  lemma MiddleLast(data: Index -> Value, a: seq<Index>, x: Index, b: seq<Index>)
    ensures StatsOf(data, (a + [x]) + b) == Merge(StatsOf(data, a + b), One(data(x)))
  {
    StatsConcat(data, a + [x], b);
    StatsConcat(data, a, [x]);
    StatsConcat(data, a, b);
    OneCell(data, x);
    SwapLast(StatsOf(data, a), One(data(x)), StatsOf(data, b));
    hide Merge, One, StatsOf;
  }

  /** The order of the cells does not matter. */
  lemma {:induction false} StatsPermute(data: Index -> Value, s: seq<Index>, t: seq<Index>)
    requires multiset(s) == multiset(t)
    ensures StatsOf(data, s) == StatsOf(data, t)
  {
    if s == [] {
      assert |multiset(t)| == |t|;
    } else {
      var init, x := s[..|s| - 1], s[|s| - 1];
      assert s == init + [x];
      var k := TakeOut(init, x, t);
      StatsPermute(data, init, t[..k] + t[k + 1..]);
      MiddleLast(data, t[..k], x, t[k + 1..]);
      hide Merge, One;
    }
  }

  ghost predicate FiniteAt(data: Index -> Value, cells: seq<Index>, i: int, x: real) {
    0 <= i < |cells| && data(cells[i]) == Finite(x)
  }

  /** The least and the greatest finite value, when there is one. */
  ghost predicate Extrema(data: Index -> Value, cells: seq<Index>, least: Option<real>, greatest: Option<real>) {
    && (least.None? <==> greatest.None?)
    && (forall i, x | FiniteAt(data, cells, i, x) :: least.Some? && least.value <= x <= greatest.value)
    && (least.Some? ==> exists i :: FiniteAt(data, cells, i, least.value))
    && (greatest.Some? ==> exists i :: FiniteAt(data, cells, i, greatest.value))
  }

  /** The least and the greatest magnitude of a finite value, when there is one. */
  ghost predicate Magnitudes(data: Index -> Value, cells: seq<Index>, least: Option<real>, greatest: Option<real>) {
    && (least.None? <==> greatest.None?)
    && (forall i, x | FiniteAt(data, cells, i, x) :: least.Some? && least.value <= Abs(x) <= greatest.value)
    && (least.Some? ==> exists i, x :: FiniteAt(data, cells, i, x) && Abs(x) == least.value)
    && (greatest.Some? ==> exists i, x :: FiniteAt(data, cells, i, x) && Abs(x) == greatest.value)
  }

  lemma MagnitudesNext(data: Index -> Value, init: seq<Index>, last: Index)
    requires Magnitudes(data, init, StatsOf(data, init).absMin, StatsOf(data, init).absMax)
    ensures var stats := StatsOf(data, init + [last]); Magnitudes(data, init + [last], stats.absMin, stats.absMax)
  {
    var cells := init + [last];
    assert cells[..|init|] == init;
    var before, after := StatsOf(data, init), StatsOf(data, cells);
    hide StatsOf;
    forall i, x | FiniteAt(data, init, i, x) ensures FiniteAt(data, cells, i, x) {}
    forall i, x | FiniteAt(data, cells, i, x)
      ensures after.absMin.Some? && after.absMin.value <= Abs(x) <= after.absMax.value
    {
      assert i < |init| ==> FiniteAt(data, init, i, x);
    }
    assert data(last).Finite? ==> FiniteAt(data, cells, |init|, data(last).x);
  }

  lemma {:induction false} MagnitudesHold(data: Index -> Value, cells: seq<Index>)
    ensures Magnitudes(data, cells, StatsOf(data, cells).absMin, StatsOf(data, cells).absMax)
  {
    hide *;
    if cells == [] {
      NoMagnitudes(data);
    } else {
      var init, last := cells[..|cells| - 1], cells[|cells| - 1];
      MagnitudesHold(data, init);
      assert cells == init + [last];
      MagnitudesNext(data, init, last);
    }
  }

  lemma NoMagnitudes(data: Index -> Value)
    ensures Magnitudes(data, [], StatsOf(data, []).absMin, StatsOf(data, []).absMax)
  {
  }

  lemma ExtremaNext(data: Index -> Value, init: seq<Index>, last: Index)
    requires Extrema(data, init, StatsOf(data, init).min, StatsOf(data, init).max)
    ensures var stats := StatsOf(data, init + [last]); Extrema(data, init + [last], stats.min, stats.max)
  {
    var cells := init + [last];
    assert cells[..|init|] == init;
    var before, after := StatsOf(data, init), StatsOf(data, cells);
    hide StatsOf;
    forall i, x | FiniteAt(data, init, i, x) ensures FiniteAt(data, cells, i, x) {}
    forall i, x | FiniteAt(data, cells, i, x) ensures after.min.Some? && after.min.value <= x <= after.max.value {
      assert i < |init| ==> FiniteAt(data, init, i, x);
    }
    assert data(last).Finite? ==> FiniteAt(data, cells, |init|, data(last).x);
  }

  lemma {:induction false} ExtremaHold(data: Index -> Value, cells: seq<Index>)
    ensures var stats := StatsOf(data, cells);
            && stats.scanned == |cells| == stats.finite + stats.nan + stats.posInf + stats.negInf
            && Extrema(data, cells, stats.min, stats.max)
  {
    if cells != [] {
      var init, last := cells[..|cells| - 1], cells[|cells| - 1];
      ExtremaHold(data, init);
      ExtremaNext(data, init, last);
      assert cells == init + [last];
      hide Extrema;
    }
  }

  function IsFinite(data: Index -> Value): Index -> bool { (index: Index) => data(index).Finite? }

  function IsNan(data: Index -> Value): Index -> bool { (index: Index) => data(index).NotANumber? }

  function IsPosInf(data: Index -> Value): Index -> bool { (index: Index) => data(index).PosInfinity? }

  function IsNegInf(data: Index -> Value): Index -> bool { (index: Index) => data(index).NegInfinity? }

  lemma {:induction false} StatsCount(data: Index -> Value, cells: seq<Index>)
    ensures var stats := StatsOf(data, cells);
            && stats.finite == CountIf(cells, IsFinite(data)) && stats.nan == CountIf(cells, IsNan(data))
            && stats.posInf == CountIf(cells, IsPosInf(data)) && stats.negInf == CountIf(cells, IsNegInf(data))
            && stats.scanned == |cells|
  {
    if cells != [] {
      StatsCount(data, cells[..|cells| - 1]);
    }
  }

  /** The four classes count the finite cells, those that are no number, and the infinite ones of either sign. */
  ghost predicate ClassesCount(stats: Stats, data: Index -> Value, cells: seq<Index>) {
    && stats.scanned == |cells|
    && stats.finite == |set i | 0 <= i < |cells| && data(cells[i]).Finite?|
    && stats.nan == |set i | 0 <= i < |cells| && data(cells[i]).NotANumber?|
    && stats.posInf == |set i | 0 <= i < |cells| && data(cells[i]).PosInfinity?|
    && stats.negInf == |set i | 0 <= i < |cells| && data(cells[i]).NegInfinity?|
  }

  lemma StatsClasses(data: Index -> Value, cells: seq<Index>)
    ensures ClassesCount(StatsOf(data, cells), data, cells)
  {
    StatsCount(data, cells);
    CountIfIsSize(cells, IsFinite(data), set i | 0 <= i < |cells| && data(cells[i]).Finite?);
    CountIfIsSize(cells, IsNan(data), set i | 0 <= i < |cells| && data(cells[i]).NotANumber?);
    CountIfIsSize(cells, IsPosInf(data), set i | 0 <= i < |cells| && data(cells[i]).PosInfinity?);
    CountIfIsSize(cells, IsNegInf(data), set i | 0 <= i < |cells| && data(cells[i]).NegInfinity?);
    hide StatsOf, CountIf;
  }

  /** What the statistics of some cells say. */
  ghost predicate Tells(stats: Stats, data: Index -> Value, cells: seq<Index>) {
    && ClassesCount(stats, data, cells)
    && Extrema(data, cells, stats.min, stats.max) && Magnitudes(data, cells, stats.absMin, stats.absMax)
  }

  /** Every cell is counted in its class, and the extrema are those of the finite cells and of their magnitudes. */
  lemma StatsMean(data: Index -> Value, cells: seq<Index>)
    ensures Tells(StatsOf(data, cells), data, cells)
  {
    StatsClasses(data, cells);
    ExtremaHold(data, cells);
    MagnitudesHold(data, cells);
    hide StatsOf, ClassesCount, Extrema, Magnitudes;
  }

  /** One chunk: the counts and extrema of its cells. */
  method ScanChunk(data: Index -> Value, cells: seq<Index>) returns (stats: Stats)
    ensures stats == StatsOf(data, cells)
  {
    stats := EMPTY;
    hide Merge, One;
    for i := 0 to |cells|
      invariant stats == StatsOf(data, cells[..i])
    {
      assert cells[..i + 1][..i] == cells[..i];
      stats := Merge(stats, One(data(cells[i])));
    }
    assert cells[..|cells|] == cells;
  }

  /** The loop over the boxes, one chunk each. */
  method ScanBoxes(data: Index -> Value, boxes: seq<Box>) returns (stats: Stats)
    ensures stats == StatsOf(data, AllCells(boxes))
  {
    stats := EMPTY;
    hide Merge, CellsOf;
    for i := 0 to |boxes|
      invariant stats == StatsOf(data, AllCells(boxes[..i]))
    {
      assert boxes[..i + 1][..i] == boxes[..i];
      StatsConcat(data, AllCells(boxes[..i]), CellsOf(boxes[i]));
      var chunk := ScanChunk(data, CellsOf(boxes[i]));
      stats := Merge(stats, chunk);
    }
    assert boxes[..|boxes|] == boxes;
  }

  /** `_scan_dataset`: chunk by chunk, with the result of one pass over the whole array, whatever the blocks. */
  method ScanDataset(data: Index -> Value, shape: seq<nat>, preferred: Option<seq<int>>, maxElements: int)
    returns (r: Result<Stats>)
    ensures r.Failure? <==> SlabsOf(shape, preferred, maxElements).None?
    ensures r.Success? ==> r.value == StatsOf(data, CellsOf(Whole(shape)))
    ensures r.Success? ==> Tells(r.value, data, CellsOf(Whole(shape)))
  {
    hide *;
    var boxes := HyperslabsOf(shape, preferred, maxElements);
    if boxes.Failure? { return Failure(boxes.error); }
    ReadsEveryCellOnce(shape, preferred, maxElements);
    StatsPermute(data, AllCells(boxes.value), CellsOf(Whole(shape)));
    StatsMean(data, CellsOf(Whole(shape)));
    var stats := ScanBoxes(data, boxes.value);
    return Success(stats);
  }
}
