// `_hyperslabs` of audit_large_pack.py: an n-dimensional array cut into boxes of bounded size, which tile it
// whatever its shape.
module Hyperslabs {
  import opened Basics

  type Index = seq<nat>

  /** One half-open range per axis. */
  type Box = seq<(nat, nat)>

  function Product(s: seq<int>): int {
    if s == [] then 1 else s[0] * Product(s[1..])
  }

  predicate Positive(s: seq<int>) {
    forall i | 0 <= i < |s| :: s[i] >= 1
  }

  /** One axis of the block: what is preferred, within the array and within the room the later axes leave. */
  function AxisBlock(preferred: int, size: nat, trailing: int, maxElements: int): (b: nat)
    ensures b >= 1 && (b <= preferred || b == 1) && (b <= size || b == 1)
  {
    Max(1, Min(Min(preferred, size), Max(1, maxElements / Max(1, trailing))))
  }

  /** The block, axis by axis; the room is judged by the preferred sizes of the later axes. */
  function BlockOf(preferred: seq<int>, shape: seq<nat>, maxElements: int): (block: seq<nat>)
    requires |preferred| == |shape|
    ensures |block| == |shape| && forall i | 0 <= i < |block| :: block[i] >= 1
  {
    if preferred == [] then []
    else
      [AxisBlock(preferred[0], shape[0], Product(preferred[1..]), maxElements)]
      + BlockOf(preferred[1..], shape[1..], maxElements)
  }

  // ----- The size bound -----

  lemma {:induction false} ProductPositive(s: seq<int>)
    requires Positive(s)
    ensures Product(s) >= 1
  {
    if s != [] {
      ProductPositive(s[1..]);
      assert s[0] * Product(s[1..]) >= Product(s[1..]);
    }
  }

  lemma MulMono(a: int, b: int, c: int, d: int)
    requires 0 <= a <= b && 0 <= c <= d
    ensures a * c <= b * d
  {
    assert a * c <= b * c && b * c <= b * d;
  }

  lemma {:induction false} BlockBelowPreferred(preferred: seq<int>, shape: seq<nat>, maxElements: int)
    requires |preferred| == |shape| && Positive(preferred)
    ensures 1 <= Product(BlockOf(preferred, shape, maxElements)) <= Product(preferred)
  {
    if preferred != [] {
      BlockBelowPreferred(preferred[1..], shape[1..], maxElements);
      var b := BlockOf(preferred, shape, maxElements);
      assert b[1..] == BlockOf(preferred[1..], shape[1..], maxElements);
      MulMono(b[0], preferred[0], Product(b[1..]), Product(preferred[1..]));
      MulMono(1, b[0], 1, Product(b[1..]));
    }
  }

  lemma QuotientBounds(m: int, t: int, b: int)
    requires t >= 1 && 1 <= b <= m / t
    ensures b * t <= m
  {
    assert m / t * t <= m;
    MulMono(b, m / t, t, t);
  }

  /** For a positive preferred block no box holds more cells than allowed. */
  lemma {:induction false} BlockIsBounded(preferred: seq<int>, shape: seq<nat>, maxElements: int)
    requires |preferred| == |shape| && Positive(preferred)
    ensures Product(BlockOf(preferred, shape, maxElements)) <= Max(1, maxElements)
  {
    if preferred != [] {
      var b, trailing := BlockOf(preferred, shape, maxElements), Product(preferred[1..]);
      var rest := BlockOf(preferred[1..], shape[1..], maxElements);
      assert b[1..] == rest;
      ProductPositive(preferred[1..]);
      BlockBelowPreferred(preferred[1..], shape[1..], maxElements);
      if b[0] == 1 {
        BlockIsBounded(preferred[1..], shape[1..], maxElements);
      } else {
        QuotientBounds(maxElements, trailing, b[0]);
        MulMono(b[0], b[0], Product(rest), trailing);
      }
    }
  }

  // ----- The boxes -----

  /** The ranges of one axis: `range(0, size, step)` with each range cut at the size. */
  function AxisRanges(size: nat, step: nat, start: nat): (ranges: seq<(nat, nat)>)
    requires step >= 1
    decreases size - start
  {
    if start >= size then []
    else [(start, Min(start + step, size))] + AxisRanges(size, step, start + step)
  }

  /** Every box of `tails`, put behind the range. */
  function Behind(range: (nat, nat), tails: seq<Box>): seq<Box> {
    seq(|tails|, i requires 0 <= i < |tails| => [range] + tails[i])
  }

  function Combine(ranges: seq<(nat, nat)>, tails: seq<Box>): seq<Box> {
    if ranges == [] then [] else Behind(ranges[0], tails) + Combine(ranges[1..], tails)
  }

  /** The boxes in the order of `itertools.product`: the last axis moves fastest. */
  function Boxes(shape: seq<nat>, block: seq<nat>): seq<Box>
    requires |block| == |shape| && forall i | 0 <= i < |block| :: block[i] >= 1
  {
    if shape == [] then [[]]
    else Combine(AxisRanges(shape[0], block[0], 0), Boxes(shape[1..], block[1..]))
  }

  predicate InRange(i: nat, range: (nat, nat)) { range.0 <= i < range.1 }

  predicate Inside(index: Index, box: Box) {
    |index| == |box| && forall a | 0 <= a < |box| :: InRange(index[a], box[a])
  }

  predicate ValidIndex(index: Index, shape: seq<nat>) {
    |index| == |shape| && forall a | 0 <= a < |shape| :: index[a] < shape[a]
  }

  function Bit(b: bool): nat {
    if b then 1 else 0
  }

  /** How many of the ranges hold `i`. */
  function RangesWith(ranges: seq<(nat, nat)>, i: nat): nat {
    if ranges == [] then 0 else Bit(InRange(i, ranges[0])) + RangesWith(ranges[1..], i)
  }

  /** How many of the boxes hold the index. */
  function BoxesWith(boxes: seq<Box>, index: Index): nat {
    if boxes == [] then 0 else Bit(Inside(index, boxes[0])) + BoxesWith(boxes[1..], index)
  }

  lemma {:induction false} BoxesWithConcat(a: seq<Box>, b: seq<Box>, index: Index)
    ensures BoxesWith(a + b, index) == BoxesWith(a, index) + BoxesWith(b, index)
  {
    if a == [] {
      assert a + b == b;
    } else {
      BoxesWithConcat(a[1..], b, index);
      assert (a + b)[1..] == a[1..] + b;
    }
  }

  /** The ranges of an axis hold each coordinate once. */
  lemma {:induction false} RangesTile(size: nat, step: nat, start: nat, i: nat)
    requires step >= 1
    ensures RangesWith(AxisRanges(size, step, start), i) == Bit(start <= i < size)
    decreases size - start
  {
    if start < size { RangesTile(size, step, start + step, i); }
  }

  lemma InsideSplits(index: Index, range: (nat, nat), tail: Box)
    requires index != []
    ensures Inside(index, [range] + tail) <==> InRange(index[0], range) && Inside(index[1..], tail)
  {
    var box := [range] + tail;
    if Inside(index, box) {
      assert InRange(index[0], box[0]);
      forall a | 0 <= a < |tail| ensures InRange(index[1..][a], tail[a]) { assert InRange(index[a + 1], box[a + 1]); }
    }
    if InRange(index[0], range) && Inside(index[1..], tail) {
      forall a | 0 <= a < |box| ensures InRange(index[a], box[a]) {
        if a > 0 { assert InRange(index[1..][a - 1], tail[a - 1]); }
      }
    }
  }

  lemma {:induction false} BehindCounts(range: (nat, nat), tails: seq<Box>, index: Index)
    requires index != []
    ensures BoxesWith(Behind(range, tails), index) == Bit(InRange(index[0], range)) * BoxesWith(tails, index[1..])
  {
    if tails != [] {
      BehindCounts(range, tails[1..], index);
      assert Behind(range, tails)[1..] == Behind(range, tails[1..]);
      InsideSplits(index, range, tails[0]);
    }
  }

  lemma DistributeCounts(a: int, b: int, c: int)
    ensures a * c + b * c == (a + b) * c
  {
  }

  /** A product of ranges and boxes holds an index as often as its parts hold the parts. */
  lemma {:induction false} CombineCounts(ranges: seq<(nat, nat)>, tails: seq<Box>, index: Index)
    requires index != []
    ensures BoxesWith(Combine(ranges, tails), index) == RangesWith(ranges, index[0]) * BoxesWith(tails, index[1..])
  {
    if ranges != [] {
      CombineCounts(ranges[1..], tails, index);
      BehindCounts(ranges[0], tails, index);
      BoxesWithConcat(Behind(ranges[0], tails), Combine(ranges[1..], tails), index);
      DistributeCounts(Bit(InRange(index[0], ranges[0])), RangesWith(ranges[1..], index[0]),
                       BoxesWith(tails, index[1..]));
      hide BoxesWith, Behind, InRange;
    }
  }

  /** The boxes tile the array: every index lies in exactly one box, and nothing else lies in any. */
  lemma {:induction false} BoxesTile(shape: seq<nat>, block: seq<nat>, index: Index)
    requires |block| == |shape| && forall i | 0 <= i < |block| :: block[i] >= 1
    requires |index| == |shape|
    ensures BoxesWith(Boxes(shape, block), index) == Bit(ValidIndex(index, shape))
  {
    if shape == [] {
      assert Boxes(shape, block) == [[]] && Inside(index, []);
    } else {
      BoxesTile(shape[1..], block[1..], index[1..]);
      CombineCounts(AxisRanges(shape[0], block[0], 0), Boxes(shape[1..], block[1..]), index);
      RangesTile(shape[0], block[0], 0, index[0]);
      ValidSplits(index, shape);
    }
  }

  lemma ValidSplits(index: Index, shape: seq<nat>)
    requires |index| == |shape| && shape != []
    ensures ValidIndex(index, shape) <==> index[0] < shape[0] && ValidIndex(index[1..], shape[1..])
  {
    if index[0] < shape[0] && ValidIndex(index[1..], shape[1..]) {
      forall a | 0 <= a < |shape| ensures index[a] < shape[a] {
        if a > 0 { assert index[1..][a - 1] < shape[1..][a - 1]; }
      }
    }
  }

  // ----- Cells of a box -----

  function Cells(box: Box): nat {
    if box == [] then 1 else if box[0].1 <= box[0].0 then 0 else (box[0].1 - box[0].0) * Cells(box[1..])
  }

  /** On every axis the box is as long as the block, unless the array ends before. */
  predicate Fits(box: Box, block: seq<nat>, shape: seq<nat>) {
    |box| == |block| == |shape|
    && forall a | 0 <= a < |box| :: box[a].0 < box[a].1 == Min(box[a].0 + block[a], shape[a])
  }

  lemma {:induction false} CellsBelowBlock(box: Box, block: seq<nat>, shape: seq<nat>)
    requires Fits(box, block, shape)
    ensures 1 <= Cells(box) <= Product(block)
  {
    if box != [] {
      CellsBelowBlock(box[1..], block[1..], shape[1..]);
      MulMono(box[0].1 - box[0].0, block[0], Cells(box[1..]), Product(block[1..]));
      MulMono(1, box[0].1 - box[0].0, 1, Cells(box[1..]));
    }
  }

  lemma {:induction false} RangesFit(size: nat, step: nat, start: nat)
    requires step >= 1
    ensures forall k | 0 <= k < |AxisRanges(size, step, start)| ::
              var r := AxisRanges(size, step, start)[k]; r.0 < r.1 == Min(r.0 + step, size)
    decreases size - start
  {
    if start < size { RangesFit(size, step, start + step); }
  }

  lemma {:induction false} CombineFits(ranges: seq<(nat, nat)>, tails: seq<Box>, block: seq<nat>, shape: seq<nat>)
    requires block != [] && shape != []
    requires forall k | 0 <= k < |ranges| :: ranges[k].0 < ranges[k].1 == Min(ranges[k].0 + block[0], shape[0])
    requires |block| == |shape| && forall k | 0 <= k < |tails| :: Fits(tails[k], block[1..], shape[1..])
    ensures forall k | 0 <= k < |Combine(ranges, tails)| :: Fits(Combine(ranges, tails)[k], block, shape)
  {
    if ranges != [] {
      CombineFits(ranges[1..], tails, block, shape);
      var first := Behind(ranges[0], tails);
      forall k | 0 <= k < |tails| ensures Fits(first[k], block, shape) {
        assert first[k] == [ranges[0]] + tails[k] && Fits(tails[k], block[1..], shape[1..]);
        assert forall a | 0 < a < |block| ::
            first[k][a] == tails[k][a - 1] && block[a] == block[1..][a - 1] && shape[a] == shape[1..][a - 1];
      }
    }
  }

  lemma {:induction false} BoxesFit(shape: seq<nat>, block: seq<nat>)
    requires |block| == |shape| && forall i | 0 <= i < |block| :: block[i] >= 1
    ensures AllFit(Boxes(shape, block), block, shape)
  {
    if shape != [] {
      BoxesFit(shape[1..], block[1..]);
      RangesFit(shape[0], block[0], 0);
      CombineFits(AxisRanges(shape[0], block[0], 0), Boxes(shape[1..], block[1..]), block, shape);
    }
  }

  // ----- The block is as large as allowed -----

  /** A length within what is preferred and within the array, with room for the later axes as preferred. */
  predicate Allowed(length: int, preferred: int, size: nat, trailing: int, maxElements: int) {
    length <= preferred && length <= size && length * Max(1, trailing) <= maxElements
  }

  /** The largest allowed length, or one. */
  ghost predicate LargestAllowed(b: nat, preferred: int, size: nat, trailing: int, maxElements: int) {
    && (b == 1 || (b > 1 && Allowed(b, preferred, size, trailing, maxElements)))
    && forall c: int | c > b :: !Allowed(c, preferred, size, trailing, maxElements)
  }

  lemma TimesNonnegative(x: int, t: int)
    requires x >= 0 && t >= 0
    ensures x * t >= 0
  {
  }

  lemma WithinQuotient(m: int, q: int, r: int, t: int, c: int)
    requires m == q * t + r && 0 <= r < t
    ensures c * t <= m <==> c <= q
  {
    if c <= q {
      TimesNonnegative(q - c, t);
      assert (q - c) * t == q * t - c * t;
    } else {
      TimesNonnegative(c - q - 1, t);
      assert (c - q - 1) * t == c * t - q * t - t;
    }
  }

  lemma QuotientIsLargest(m: int, t: int, c: int)
    requires t >= 1
    ensures c * t <= m <==> c <= m / t
  {
    WithinQuotient(m, m / t, m % t, t, c);
  }

  lemma AxisBlockIsLargest(preferred: int, size: nat, trailing: int, maxElements: int)
    ensures LargestAllowed(AxisBlock(preferred, size, trailing, maxElements), preferred, size, trailing, maxElements)
  {
    var b, t := AxisBlock(preferred, size, trailing, maxElements), Max(1, trailing);
    QuotientIsLargest(maxElements, t, b);
    forall c: int | c > b
      ensures !Allowed(c, preferred, size, trailing, maxElements)
    {
      QuotientIsLargest(maxElements, t, c);
    }
  }

  ghost predicate LargestBlock(block: seq<nat>, preferred: seq<int>, shape: seq<nat>, maxElements: int) {
    && |block| == |preferred| == |shape|
    && forall i | 0 <= i < |block| ::
         LargestAllowed(block[i], preferred[i], shape[i], Product(preferred[i + 1..]), maxElements)
  }

  /** Axis by axis the block is as long as the preferred sizes, the array and the limit allow. */
  lemma {:induction false} BlockIsLargest(preferred: seq<int>, shape: seq<nat>, maxElements: int)
    requires |preferred| == |shape|
    ensures LargestBlock(BlockOf(preferred, shape, maxElements), preferred, shape, maxElements)
  {
    if preferred != [] {
      BlockIsLargest(preferred[1..], shape[1..], maxElements);
      AxisBlockIsLargest(preferred[0], shape[0], Product(preferred[1..]), maxElements);
      hide LargestAllowed, AxisBlock, Product;
      var block, rest := BlockOf(preferred, shape, maxElements), BlockOf(preferred[1..], shape[1..], maxElements);
      forall i | 0 <= i < |block|
        ensures LargestAllowed(block[i], preferred[i], shape[i], Product(preferred[i + 1..]), maxElements)
      {
        if i > 0 {
          assert block[i] == rest[i - 1] && preferred[1..][i - 1] == preferred[i] && shape[1..][i - 1] == shape[i];
          assert preferred[1..][i - 1 + 1..] == preferred[i + 1..];
        }
      }
    }
  }

  // ----- The generator -----

  /** What `_hyperslabs` yields; a preferred block of the wrong rank matters only for a nonempty array. */
  function SlabsOf(shape: seq<nat>, preferred: Option<seq<int>>, maxElements: int): Option<seq<Box>> {
    if shape == [] then Some([[]])
    else if 0 in shape then Some([])
    else
      var start := Preferred(shape, preferred);
      if |start| != |shape| then None else Some(Boxes(shape, BlockOf(start, shape, maxElements)))
  }

  /** The block list after `axis` axes: overwritten in front, still as preferred behind. */
  predicate Overwritten(block: seq<int>, done: seq<nat>, preferred: seq<int>, shape: seq<nat>, maxElements: int) {
    && |block| == |preferred| == |shape| && |done| <= |shape|
    && block == done + preferred[|done|..]
    && BlockOf(preferred, shape, maxElements) == done + BlockOf(preferred[|done|..], shape[|done|..], maxElements)
  }

  lemma OverwriteNext(block: seq<int>, done: seq<nat>, preferred: seq<int>, shape: seq<nat>, maxElements: int)
    requires Overwritten(block, done, preferred, shape, maxElements) && |done| < |shape|
    ensures var axis := |done|;
            var one := AxisBlock(block[axis], shape[axis], Product(block[axis + 1..]), maxElements);
            Overwritten(block[axis := one], done + [one], preferred, shape, maxElements)
  {
    var axis := |done|;
    var one := AxisBlock(block[axis], shape[axis], Product(block[axis + 1..]), maxElements);
    assert preferred[axis..][1..] == preferred[axis + 1..] && shape[axis..][1..] == shape[axis + 1..];
    assert block[axis + 1..] == preferred[axis + 1..] && block[axis] == preferred[axis];
    hide Product, AxisBlock;
    assert BlockOf(preferred[axis..], shape[axis..], maxElements) ==
           [one] + BlockOf(preferred[axis + 1..], shape[axis + 1..], maxElements);
    assert block[axis := one] == (done + [one]) + preferred[axis + 1..];
  }

  /** The boxes are cut by a block that is as large as allowed; by default the whole array is preferred. */
  ghost predicate CutByLargest(shape: seq<nat>, preferred: Option<seq<int>>, maxElements: int, boxes: seq<Box>) {
    exists block :: LargestBlock(block, Preferred(shape, preferred), shape, maxElements) && AllFit(boxes, block, shape)
  }

  function Preferred(shape: seq<nat>, preferred: Option<seq<int>>): seq<int> {
    if preferred.Some? then preferred.value else shape
  }

  predicate AllFit(boxes: seq<Box>, block: seq<nat>, shape: seq<nat>) {
    forall k | 0 <= k < |boxes| :: Fits(boxes[k], block, shape)
  }

  /** `_hyperslabs`: the block list is overwritten axis by axis, then every combination of starts is cut out. */
  method HyperslabsOf(shape: seq<nat>, preferred: Option<seq<int>>, maxElements: int) returns (r: Result<seq<Box>>)
    ensures r.Failure? <==> SlabsOf(shape, preferred, maxElements).None?
    ensures r.Success? ==> SlabsOf(shape, preferred, maxElements) == Some(r.value)
    ensures r.Success? && shape != [] && 0 !in shape ==> CutByLargest(shape, preferred, maxElements, r.value)
  {
    if shape == [] { return Success([[]]); }
    if 0 in shape { return Success([]); }
    var start: seq<int> := if preferred.Some? then preferred.value else shape;
    if |start| != |shape| { return Failure("internal scan error: block rank does not match dataset rank"); }
    var block := OverwriteBlock(start, shape, maxElements);
    BlockIsLargest(start, shape, maxElements);
    BoxesFit(shape, block);
    hide LargestBlock, AllFit, BlockOf, Boxes;
    return Success(Boxes(shape, block));
  }

  method OverwriteBlock(preferred: seq<int>, shape: seq<nat>, maxElements: int) returns (block: seq<int>)
    requires |preferred| == |shape|
    ensures block == BlockOf(preferred, shape, maxElements)
  {
    block := preferred;
    ghost var done: seq<nat> := [];
    var axis := 0;
    assert Overwritten(block, done, preferred, shape, maxElements);
    hide Product, AxisBlock, BlockOf;
    while axis < |block|
      invariant axis == |done| && Overwritten(block, done, preferred, shape, maxElements)
    {
      var one := AxisBlock(block[axis], shape[axis], Product(block[axis + 1..]), maxElements);
      OverwriteNext(block, done, preferred, shape, maxElements);
      done, block := done + [one], block[axis := one];
      axis := axis + 1;
    }
    OverwriteEnds(block, done, preferred, shape, maxElements);
  }

  lemma OverwriteEnds(block: seq<int>, done: seq<nat>, preferred: seq<int>, shape: seq<nat>, maxElements: int)
    requires Overwritten(block, done, preferred, shape, maxElements) && |done| == |shape|
    ensures block == BlockOf(preferred, shape, maxElements)
  {
    assert done + [] == done;
  }

  /** Any shape and block: each index of the array lies in exactly one box. */
  lemma SlabsTile(shape: seq<nat>, preferred: Option<seq<int>>, maxElements: int, index: Index)
    requires SlabsOf(shape, preferred, maxElements).Some? && |index| == |shape|
    ensures BoxesWith(SlabsOf(shape, preferred, maxElements).value, index) == Bit(ValidIndex(index, shape))
  {
    if shape == [] {
      assert Inside(index, []);
    } else if 0 in shape {
      var a :| 0 <= a < |shape| && shape[a] == 0;
      assert !ValidIndex(index, shape) by { assert !(index[a] < shape[a]); }
    } else {
      var start: seq<int> := if preferred.Some? then preferred.value else shape;
      BoxesTile(shape, BlockOf(start, shape, maxElements), index);
    }
  }

  /** With positive preferred entries, as the chunk shape of a dataset has, no box is empty or too large. */
  lemma SlabsAreBounded(shape: seq<nat>, preferred: Option<seq<int>>, maxElements: int)
    requires SlabsOf(shape, preferred, maxElements).Some? && maxElements >= 1
    requires preferred.Some? ==> Positive(preferred.value)
    ensures forall k | 0 <= k < |SlabsOf(shape, preferred, maxElements).value| ::
              1 <= Cells(SlabsOf(shape, preferred, maxElements).value[k]) <= maxElements
  {
    if shape != [] && 0 !in shape {
      var start: seq<int> := if preferred.Some? then preferred.value else shape;
      var block := BlockOf(start, shape, maxElements);
      assert Positive(start);
      BlockIsBounded(start, shape, maxElements);
      BoxesFit(shape, block);
      forall k | 0 <= k < |Boxes(shape, block)| ensures 1 <= Cells(Boxes(shape, block)[k]) <= maxElements {
        CellsBelowBlock(Boxes(shape, block)[k], block, shape);
      }
    }
  }
}
