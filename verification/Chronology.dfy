// Record-key chronology of ren_chronology.py: a streaming reduction, its reference over all keys at once,
// and stitching over sheets.
module Chronology {
  import opened Basics
  import opened Clock

  datatype RowKey = RowKey(cycle: int, step: int, status: int, number: int, time: int)

  /** A row whose key cannot be read is `None`. */
  type Keys = seq<Option<RowKey>>

  datatype Transitions = Transitions(
    pairs: int, nonunit: int, repeats: int, backwards: int, gaps: int, missing: int, cycleBackwards: int,
    stepChanges: int, timeDecreases: int, sameStepTimeDecreases: int, duplicates: int)

  const NONE := Transitions(0, 0, 0, 0, 0, 0, 0, 0, 0, 0, 0)

  function Plus(a: Transitions, b: Transitions): Transitions {
    Transitions(
      a.pairs + b.pairs, a.nonunit + b.nonunit, a.repeats + b.repeats, a.backwards + b.backwards, a.gaps + b.gaps,
      a.missing + b.missing, a.cycleBackwards + b.cycleBackwards, a.stepChanges + b.stepChanges,
      a.timeDecreases + b.timeDecreases, a.sameStepTimeDecreases + b.sameStepTimeDecreases, a.duplicates + b.duplicates)
  }

  function Bit(b: bool): int {
    if b then 1 else 0
  }

  predicate SameStep(a: RowKey, b: RowKey) {
    a.cycle == b.cycle && a.step == b.step && a.status == b.status
  }

  /** `edge`: an unreadable side gives no transition. */
  function Edge(left: Option<RowKey>, right: Option<RowKey>): Transitions {
    if left.None? || right.None? then NONE
    else
      var a, b := left.value, right.value;
      var delta, changed := b.number - a.number, !SameStep(a, b);
      Transitions(
        1, Bit(delta != 1), Bit(delta == 0), Bit(delta < 0), Bit(delta > 1), Max(0, delta - 1), Bit(b.cycle < a.cycle),
        Bit(changed), Bit(b.time < a.time), Bit(!changed && b.time < a.time), Bit(a == b))
  }

  datatype Reduction = Reduction(
    rows: nat, invalid: nat, negative: nat, first: Option<RowKey>, last: Option<RowKey>, statuses: map<int, nat>,
    transitions: Transitions)

  // ----- Keys from cells -----

  /** A cell's value: a finite number, a number that is not finite, or text. */
  datatype Value = Number(n: real) | NotFinite | Text(s: string)

  datatype Cell = Cell(ctype: int, value: Value)

  /** A whole number of magnitude at most 2^53. */
  predicate WholeNumber(v: Value) {
    v.Number? && -9007199254740992.0 <= v.n <= 9007199254740992.0 && v.n.Floor as real == v.n
  }

  function Whole(v: Value): int
    requires WholeNumber(v)
  {
    v.n.Floor
  }

  predicate NumberCell(c: Cell) { c.ctype == 2 && WholeNumber(c.value) }

  /** `key_from_cells`: cell by cell; asking a short ragged row for a cell raises. */
  function KeyFromCells(cells: seq<Cell>): Result<Option<RowKey>> {
    if |cells| < 5 then Failure("list index out of range")
    else if !(NumberCell(cells[0]) && NumberCell(cells[1]) && NumberCell(cells[2]) && NumberCell(cells[3])) then
      Success(None)
    else if cells[4].ctype != 1 || !cells[4].value.Text? || ClockUs(cells[4].value.s).None? then Success(None)
    else
      Success(Some(RowKey(Whole(cells[0].value), Whole(cells[1].value), Whole(cells[2].value), Whole(cells[3].value),
                          ClockUs(cells[4].value.s).value)))
  }

  /** `reference_key`: the types of the row first, then the values, and the second clock decoder. */
  function ReferenceKey(kinds: seq<int>, values: seq<Value>): Option<RowKey>
    requires |kinds| == |values|
  {
    if |values| < 5 || kinds[..5] != [2, 2, 2, 2, 1] then None
    else if !(WholeNumber(values[0]) && WholeNumber(values[1]) && WholeNumber(values[2]) && WholeNumber(values[3])) then
      None
    else if !values[4].Text? || ReferenceClock(values[4].s).None? then None
    else
      Some(RowKey(Whole(values[0]), Whole(values[1]), Whole(values[2]), Whole(values[3]),
                  ReferenceClock(values[4].s).value))
  }

  // The two key readers agree on a row exactly when it has five cells; a short one raises in one and is
  // unreadable to the other.
  lemma KeysAgree(cells: seq<Cell>, kinds: seq<int>, values: seq<Value>)
    requires |cells| == |kinds| == |values|
    requires forall i | 0 <= i < |cells| :: cells[i] == Cell(kinds[i], values[i])
    ensures KeyFromCells(cells) == Success(ReferenceKey(kinds, values)) <==> |cells| >= 5
    ensures |cells| < 5 ==> KeyFromCells(cells).Failure? && ReferenceKey(kinds, values) == None
  {
    if |cells| >= 5 {
      if values[4].Text? { ClocksAgree(values[4].s); }
      hide ClockUs, ReferenceClock, WholeNumber, Whole;
      FiveKinds(kinds);
      assert cells[0] == Cell(kinds[0], values[0]) && cells[1] == Cell(kinds[1], values[1]);
      assert cells[2] == Cell(kinds[2], values[2]) && cells[3] == Cell(kinds[3], values[3]);
      assert cells[4] == Cell(kinds[4], values[4]);
    }
  }

  /** The cell holds a whole number, which floating-point numbers of this size represent. */
  predicate HoldsWhole(c: Cell, n: int) {
    c == Cell(2, Number(n as real)) && -9007199254740992 <= n <= 9007199254740992
  }

  lemma WholeIsHeld(c: Cell, n: int)
    ensures HoldsWhole(c, n) <==> NumberCell(c) && Whole(c.value) == n
  {
  }

  // A key is read exactly from five cells of which the first four hold its numbers and the fifth is a text that the
  // clock decodes to its time.
  lemma KeyMeans(cells: seq<Cell>, key: RowKey)
    ensures KeyFromCells(cells) == Success(Some(key)) <==>
              && |cells| >= 5
              && HoldsWhole(cells[0], key.cycle) && HoldsWhole(cells[1], key.step)
              && HoldsWhole(cells[2], key.status) && HoldsWhole(cells[3], key.number)
              && cells[4].ctype == 1 && cells[4].value.Text? && ClockUs(cells[4].value.s) == Some(key.time)
  {
    if |cells| >= 5 {
      WholeIsHeld(cells[0], key.cycle);
      WholeIsHeld(cells[1], key.step);
      WholeIsHeld(cells[2], key.status);
      WholeIsHeld(cells[3], key.number);
    }
    hide HoldsWhole, NumberCell, ClockUs;
  }

  lemma FiveKinds(kinds: seq<int>)
    requires |kinds| >= 5
    ensures kinds[..5] == [2, 2, 2, 2, 1] <==>
            kinds[0] == 2 && kinds[1] == 2 && kinds[2] == 2 && kinds[3] == 2 && kinds[4] == 1
  {
    assert kinds[..5] == [kinds[0], kinds[1], kinds[2], kinds[3], kinds[4]];
  }

  // ----- The reference reduction: comprehensions over the whole list -----

  type Pair = (RowKey, RowKey)

  /** The adjacent pairs of readable rows. */
  function Pairs(keys: Keys): seq<Pair> {
    if |keys| < 2 then []
    else
      var rest, a, b := Pairs(keys[..|keys| - 1]), keys[|keys| - 2], keys[|keys| - 1];
      if a.Some? && b.Some? then rest + [(a.value, b.value)] else rest
  }

  function Delta(p: Pair): int { p.1.number - p.0.number }

  predicate IsNonunit(p: Pair) { Delta(p) != 1 }
  predicate IsRepeat(p: Pair) { Delta(p) == 0 }
  predicate IsBackwards(p: Pair) { Delta(p) < 0 }
  predicate IsGap(p: Pair) { Delta(p) > 1 }
  predicate IsCycleBackwards(p: Pair) { p.1.cycle < p.0.cycle }
  predicate IsStepChange(p: Pair) { !SameStep(p.0, p.1) }
  predicate IsTimeDecrease(p: Pair) { p.1.time < p.0.time }
  predicate IsSameStepTimeDecrease(p: Pair) { SameStep(p.0, p.1) && p.1.time < p.0.time }
  predicate IsDuplicate(p: Pair) { p.0 == p.1 }

  /** `sum(d - 1 for d in delta if d > 1)`. */
  function SumMissing(pairs: seq<Pair>): int {
    if pairs == [] then 0
    else
      var p := pairs[|pairs| - 1];
      SumMissing(pairs[..|pairs| - 1]) + if IsGap(p) then Delta(p) - 1 else 0
  }

  function CountTransitions(pairs: seq<Pair>): Transitions {
    Transitions(
      |pairs|, CountIf(pairs, IsNonunit), CountIf(pairs, IsRepeat), CountIf(pairs, IsBackwards), CountIf(pairs, IsGap),
      SumMissing(pairs), CountIf(pairs, IsCycleBackwards), CountIf(pairs, IsStepChange), CountIf(pairs, IsTimeDecrease),
      CountIf(pairs, IsSameStepTimeDecrease), CountIf(pairs, IsDuplicate))
  }

  predicate IsInvalid(k: Option<RowKey>) { k.None? }
  predicate IsNegative(k: Option<RowKey>) { k.Some? && (k.value.cycle < 0 || k.value.step < 0 || k.value.number < 0) }

  function AddStatus(statuses: map<int, nat>, k: Option<RowKey>): map<int, nat> {
    if k.None? then statuses
    else statuses[k.value.status := 1 + if k.value.status in statuses then statuses[k.value.status] else 0]
  }

  function Statuses(keys: Keys): map<int, nat> {
    if keys == [] then map[] else AddStatus(Statuses(keys[..|keys| - 1]), keys[|keys| - 1])
  }

  /** `reference_reduce`. */
  function ReferenceReduce(keys: Keys): Reduction {
    Reduction(
      |keys|, CountIf(keys, IsInvalid), CountIf(keys, IsNegative),
      if keys == [] then None else keys[0], if keys == [] then None else keys[|keys| - 1],
      Statuses(keys), CountTransitions(Pairs(keys)))
  }

  // ----- The streaming reduction -----

  lemma CountNext<T>(s: seq<T>, x: T, p: T -> bool)
    ensures CountIf(s + [x], p) == CountIf(s, p) + if p(x) then 1 else 0
  {
    assert (s + [x])[..|s|] == s;
  }

  lemma MissingNext(pairs: seq<Pair>, p: Pair)
    ensures SumMissing(pairs + [p]) == SumMissing(pairs) + if IsGap(p) then Delta(p) - 1 else 0
  {
    assert (pairs + [p])[..|pairs|] == pairs;
  }

  /** One more pair adds one edge. */
  lemma TransitionsNext(pairs: seq<Pair>, p: Pair)
    ensures CountTransitions(pairs + [p]) == Plus(CountTransitions(pairs), Edge(Some(p.0), Some(p.1)))
  {
    CountNext(pairs, p, IsNonunit);
    CountNext(pairs, p, IsRepeat);
    CountNext(pairs, p, IsBackwards);
    CountNext(pairs, p, IsGap);
    CountNext(pairs, p, IsCycleBackwards);
    CountNext(pairs, p, IsStepChange);
    CountNext(pairs, p, IsTimeDecrease);
    CountNext(pairs, p, IsSameStepTimeDecrease);
    CountNext(pairs, p, IsDuplicate);
    MissingNext(pairs, p);
    hide CountIf, SumMissing;
  }

  lemma PlusNone(t: Transitions)
    ensures Plus(t, NONE) == t && Plus(NONE, t) == t
  {
  }

  lemma PlusAssociates(a: Transitions, b: Transitions, c: Transitions)
    ensures Plus(Plus(a, b), c) == Plus(a, Plus(b, c))
  {
  }

  function TransitionsOf(keys: Keys): Transitions {
    CountTransitions(Pairs(keys))
  }

  lemma EdgeNext(keys: Keys, k: Option<RowKey>)
    ensures TransitionsOf(keys + [k]) ==
            if keys == [] then NONE else Plus(TransitionsOf(keys), Edge(keys[|keys| - 1], k))
  {
    var more := keys + [k];
    assert more[..|keys|] == keys;
    if keys != [] {
      var a := keys[|keys| - 1];
      assert more[|more| - 2] == a && more[|more| - 1] == k;
      if a.Some? && k.Some? {
        TransitionsNext(Pairs(keys), (a.value, k.value));
      } else {
        PlusNone(TransitionsOf(keys));
      }
      hide CountTransitions, Plus, Edge;
    } else {
      assert CountTransitions([]) == NONE;
    }
  }

  lemma StatusesNext(keys: Keys, k: Option<RowKey>)
    ensures Statuses(keys + [k]) == AddStatus(Statuses(keys), k)
  {
    assert (keys + [k])[..|keys|] == keys;
  }

  /** `reduce_keys`: one pass, remembering one key. It computes what the reference computes. */
  method ReduceKeys(keys: Keys) returns (r: Reduction)
    ensures r == ReferenceReduce(keys) && CountsRows(r, keys)
  {
    var counts, rows, invalid, negative := NONE, 0, 0, 0;
    var previous: Option<RowKey>, first: Option<RowKey>, last: Option<RowKey> := None, None, None;
    var statuses: map<int, nat> := map[];
    assert TransitionsOf([]) == NONE;
    hide CountsRows, TransitionsOf, CountIf, Statuses, AddStatus, Plus, Edge;
    assert CountIf<Option<RowKey>>([], IsInvalid) == 0;
    while rows < |keys|
      invariant rows <= |keys|
      invariant first == (if rows == 0 then None else keys[0]) && last == previous
      invariant previous == (if rows == 0 then None else keys[rows - 1])
      invariant invalid == CountIf(keys[..rows], IsInvalid) && negative == CountIf(keys[..rows], IsNegative)
      invariant statuses == Statuses(keys[..rows])
      invariant counts == TransitionsOf(keys[..rows])
    {
      var key := keys[rows];
      assert keys[..rows + 1] == keys[..rows] + [key];
      CountNext(keys[..rows], key, IsInvalid);
      CountNext(keys[..rows], key, IsNegative);
      StatusesNext(keys[..rows], key);
      EdgeNext(keys[..rows], key);
      if rows == 0 { first := key; }
      rows, last := rows + 1, key;
      if key.None? {
        invalid := invalid + 1;
      } else {
        negative := negative + if IsNegative(key) then 1 else 0;
        statuses := AddStatus(statuses, key);
      }
      if rows > 1 { counts := Plus(counts, Edge(previous, key)); }
      previous := key;
    }
    assert keys[..|keys|] == keys;
    r := Reduction(rows, invalid, negative, first, last, statuses, counts);
    ReferenceCounts(keys);
  }

  // ----- What a reduction says of the rows -----

  /** Rows `i - 1` and `i` can both be read. */
  predicate Readable(keys: Keys, i: int) { 0 < i < |keys| && keys[i - 1].Some? && keys[i].Some? }

  /** The two keys at a readable pair. */
  function Left(keys: Keys, i: int): RowKey requires Readable(keys, i) { keys[i - 1].value }

  function Right(keys: Keys, i: int): RowKey requires Readable(keys, i) { keys[i].value }

  /** Cycle, step and status are those of the row before. */
  predicate StepGoesOn(keys: Keys, i: int)
    requires Readable(keys, i)
  {
    && Left(keys, i).cycle == Right(keys, i).cycle && Left(keys, i).step == Right(keys, i).step
    && Left(keys, i).status == Right(keys, i).status
  }

  // The rows with a readable row before them, and among these the rows whose record number is not the next one, is the
  // same, is smaller, or leaves some out.
  ghost function PairRows(keys: Keys): set<int> {
    set i | 0 < i < |keys| && Readable(keys, i)
  }

  ghost function NonunitRows(keys: Keys): set<int> {
    set i | 0 < i < |keys| && Readable(keys, i) && Right(keys, i).number != Left(keys, i).number + 1
  }

  ghost function RepeatRows(keys: Keys): set<int> {
    set i | 0 < i < |keys| && Readable(keys, i) && Right(keys, i).number == Left(keys, i).number
  }

  ghost function BackwardRows(keys: Keys): set<int> {
    set i | 0 < i < |keys| && Readable(keys, i) && Right(keys, i).number < Left(keys, i).number
  }

  ghost function GapRows(keys: Keys): set<int> {
    set i | 0 < i < |keys| && Readable(keys, i) && Right(keys, i).number > Left(keys, i).number + 1
  }

  /** The record numbers left out between readable neighbours, each with the row after it. */
  ghost function LeftOut(keys: Keys): set<(int, int)> {
    set i, n | 0 < i < |keys| && Readable(keys, i) && Left(keys, i).number < n < Right(keys, i).number :: (i, n)
  }

  // The rows whose cycle is smaller than that of the readable row before them, that change the step, whose time is
  // smaller, without a change of step, and that repeat the whole key.
  ghost function CycleBackwardRows(keys: Keys): set<int> {
    set i | 0 < i < |keys| && Readable(keys, i) && Right(keys, i).cycle < Left(keys, i).cycle
  }

  ghost function StepChangeRows(keys: Keys): set<int> {
    set i | 0 < i < |keys| && Readable(keys, i) && !StepGoesOn(keys, i)
  }

  ghost function TimeDecreaseRows(keys: Keys): set<int> {
    set i | 0 < i < |keys| && Readable(keys, i) && Right(keys, i).time < Left(keys, i).time
  }

  ghost function SameStepTimeDecreaseRows(keys: Keys): set<int> {
    set i | 0 < i < |keys| && Readable(keys, i) && StepGoesOn(keys, i) && Right(keys, i).time < Left(keys, i).time
  }

  ghost function DuplicateRows(keys: Keys): set<int> {
    set i | 0 < i < |keys| && Readable(keys, i) && Right(keys, i) == Left(keys, i)
  }

  /** Every transition count is the number of its rows, or of the record numbers left out. */
  ghost predicate CountsPairs(t: Transitions, keys: Keys) {
    && t.pairs == |PairRows(keys)| && t.nonunit == |NonunitRows(keys)| && t.repeats == |RepeatRows(keys)|
    && t.backwards == |BackwardRows(keys)| && t.gaps == |GapRows(keys)| && t.missing == |LeftOut(keys)|
    && t.cycleBackwards == |CycleBackwardRows(keys)| && t.stepChanges == |StepChangeRows(keys)|
    && t.timeDecreases == |TimeDecreaseRows(keys)|
    && t.sameStepTimeDecreases == |SameStepTimeDecreaseRows(keys)| && t.duplicates == |DuplicateRows(keys)|
  }

  // A reduction counts the rows, the unreadable ones, those with a negative cycle, step or number, and those of every
  // status that occurs; it keeps the first and the last key, and counts the transitions.
  ghost predicate CountsRows(r: Reduction, keys: Keys) {
    && r.rows == |keys|
    && r.invalid == |set i | 0 <= i < |keys| && keys[i].None?|
    && r.negative == |set i | 0 <= i < |keys| && keys[i].Some?
                              && (keys[i].value.cycle < 0 || keys[i].value.step < 0 || keys[i].value.number < 0)|
    && r.first == (if keys == [] then None else keys[0]) && r.last == (if keys == [] then None else keys[|keys| - 1])
    && (forall s :: s in r.statuses <==> StatusRows(keys, s) != {})
    && (forall s | s in r.statuses :: r.statuses[s] == |StatusRows(keys, s)|)
    && CountsPairs(r.transitions, keys)
  }

  /** Counting over the listed pairs is counting positions. */
  lemma {:induction false} PairCount(keys: Keys, p: Pair -> bool, positions: set<int>)
    requires forall i :: i in positions <==> Readable(keys, i) && p((Left(keys, i), Right(keys, i)))
    ensures CountIf(Pairs(keys), p) == |positions|
  {
    if |keys| < 2 {
      assert forall i :: i !in positions;
      assert positions == {};
    } else {
      var init, n := keys[..|keys| - 1], |keys| - 1;
      var rest := Pairs(init);
      assert forall i :: Readable(init, i) <==> Readable(keys, i) && i < n;
      PairCount(init, p, positions - {n});
      if Readable(keys, n) {
        CountNext(rest, (Left(keys, n), Right(keys, n)), p);
      }
      hide CountIf;
    }
  }

  function Between(i: int, lo: int, hi: int): (s: set<(int, int)>) {
    set n | lo < n < hi :: (i, n)
  }

  lemma BetweenSize(i: int, lo: int, hi: int)
    ensures |Between(i, lo, hi)| == Max(0, hi - lo - 1)
    decreases hi - lo
  {
    if hi - lo <= 1 {
      assert Between(i, lo, hi) == {};
    } else {
      BetweenSize(i, lo, hi - 1);
      assert Between(i, lo, hi) == Between(i, lo, hi - 1) + {(i, hi - 1)};
    }
  }

  lemma LeftOutBefore(keys: Keys)
    requires |keys| >= 2
    ensures var n := |keys| - 1;
            var last := if Readable(keys, n) then Between(n, Left(keys, n).number, Right(keys, n).number) else {};
            last <= LeftOut(keys) && LeftOut(keys[..n]) == LeftOut(keys) - last
  {
    var n := |keys| - 1;
    assert forall i :: Readable(keys[..n], i) <==> Readable(keys, i) && i < n;
  }

  lemma SizesAdd<T>(all: set<T>, part: set<T>)
    requires part <= all
    ensures |all| == |all - part| + |part|
  {
    assert all == (all - part) + part;
  }

  lemma {:induction false} MissingCount(keys: Keys)
    ensures SumMissing(Pairs(keys)) == |LeftOut(keys)|
  {
    if |keys| < 2 {
      assert LeftOut(keys) == {};
    } else {
      var n := |keys| - 1;
      LeftOutBefore(keys);
      MissingCount(keys[..n]);
      hide LeftOut, Between, SumMissing;
      if Readable(keys, n) {
        var a, b := Left(keys, n), Right(keys, n);
        MissingNext(Pairs(keys[..n]), (a, b));
        BetweenSize(n, a.number, b.number);
        SizesAdd(LeftOut(keys), Between(n, a.number, b.number));
      }
    }
  }

  lemma PairsCount(keys: Keys)
    ensures |Pairs(keys)| == |PairRows(keys)|
  {
    var always := (p: Pair) => true;
    PairCount(keys, always, PairRows(keys));
    CountIfAll(Pairs(keys), always);
  }

  lemma NumbersCount(keys: Keys)
    ensures CountIf(Pairs(keys), IsNonunit) == |NonunitRows(keys)|
    ensures CountIf(Pairs(keys), IsRepeat) == |RepeatRows(keys)|
    ensures CountIf(Pairs(keys), IsBackwards) == |BackwardRows(keys)|
    ensures CountIf(Pairs(keys), IsGap) == |GapRows(keys)|
  {
    PairCount(keys, IsNonunit, NonunitRows(keys));
    PairCount(keys, IsRepeat, RepeatRows(keys));
    PairCount(keys, IsBackwards, BackwardRows(keys));
    PairCount(keys, IsGap, GapRows(keys));
  }

  lemma TransitionsCount(keys: Keys)
    ensures CountsPairs(TransitionsOf(keys), keys)
  {
    PairsCount(keys);
    NumbersCount(keys);
    PairCount(keys, IsCycleBackwards, CycleBackwardRows(keys));
    PairCount(keys, IsStepChange, StepChangeRows(keys));
    PairCount(keys, IsTimeDecrease, TimeDecreaseRows(keys));
    PairCount(keys, IsSameStepTimeDecrease, SameStepTimeDecreaseRows(keys));
    PairCount(keys, IsDuplicate, DuplicateRows(keys));
    MissingCount(keys);
    hide Pairs, CountIf, SumMissing;
  }

  /** The reference counts what it says. */
  lemma ReferenceCounts(keys: Keys)
    ensures CountsRows(ReferenceReduce(keys), keys)
  {
    TransitionsCount(keys);
    CountIfIsSize(keys, IsInvalid, set i | 0 <= i < |keys| && keys[i].None?);
    CountIfIsSize(keys, IsNegative, set i | 0 <= i < |keys| && keys[i].Some?
                                            && (keys[i].value.cycle < 0 || keys[i].value.step < 0
                                                || keys[i].value.number < 0));
    forall s: int
      ensures s in Statuses(keys) <==> StatusRows(keys, s) != {}
      ensures s in Statuses(keys) ==> Statuses(keys)[s] == |StatusRows(keys, s)|
    {
      StatusCount(keys, s);
    }
    hide StatusRows, CountsPairs, CountTransitions, Pairs, CountIf, Statuses;
  }

  /** The readable rows of a status. */
  ghost function StatusRows(keys: Keys, s: int): set<int> {
    set i | 0 <= i < |keys| && keys[i].Some? && keys[i].value.status == s
  }

  lemma StatusRowsNext(keys: Keys, k: Option<RowKey>, s: int)
    ensures |keys| !in StatusRows(keys, s)
    ensures StatusRows(keys + [k], s) ==
            StatusRows(keys, s) + if k.Some? && k.value.status == s then {|keys|} else {}
  {
  }

  lemma {:induction false} StatusCount(keys: Keys, s: int)
    ensures s in Statuses(keys) <==> StatusRows(keys, s) != {}
    ensures s in Statuses(keys) ==> Statuses(keys)[s] == |StatusRows(keys, s)|
  {
    if keys == [] {
      assert StatusRows(keys, s) == {};
    } else {
      var init, k := keys[..|keys| - 1], keys[|keys| - 1];
      StatusCount(init, s);
      StatusRowsNext(init, k, s);
      StatusesNext(init, k);
      assert keys == init + [k];
      hide StatusRows, Statuses;
      OneMoreStatus(Statuses(init), k, s, StatusRows(init, s), StatusRows(keys, s), |init|);
    }
  }

  lemma OneMoreStatus(statuses: map<int, nat>, k: Option<RowKey>, s: int, before: set<int>, after: set<int>, n: int)
    requires s in statuses <==> before != {}
    requires s in statuses ==> statuses[s] == |before|
    requires n !in before && after == before + if k.Some? && k.value.status == s then {n} else {}
    ensures s in AddStatus(statuses, k) <==> after != {}
    ensures s in AddStatus(statuses, k) ==> AddStatus(statuses, k)[s] == |after|
  {
    assert before == {} ==> |before| == 0;
  }

  // ----- Stitching sheets -----

  datatype Aggregated = Aggregated(
    rows: nat, invalid: nat, negative: nat, transitions: Transitions,
    boundaries: nat, nonunitBoundaries: int, invalidBoundaries: nat)

  function SumSheets(sheets: seq<Reduction>): Transitions {
    if sheets == [] then NONE else Plus(SumSheets(sheets[..|sheets| - 1]), sheets[|sheets| - 1].transitions)
  }

  function Boundaries(sheets: seq<Reduction>): seq<Transitions> {
    if |sheets| < 2 then []
    else Boundaries(sheets[..|sheets| - 1]) + [Edge(sheets[|sheets| - 2].last, sheets[|sheets| - 1].first)]
  }

  function Total(ts: seq<Transitions>): Transitions {
    if ts == [] then NONE else Plus(Total(ts[..|ts| - 1]), ts[|ts| - 1])
  }

  function SumOf(sheets: seq<Reduction>, f: Reduction -> nat): nat {
    if sheets == [] then 0 else SumOf(sheets[..|sheets| - 1], f) + f(sheets[|sheets| - 1])
  }

  function RowsIn(r: Reduction): nat { r.rows }
  function InvalidIn(r: Reduction): nat { r.invalid }
  function NegativeIn(r: Reduction): nat { r.negative }
  predicate NoPair(t: Transitions) { t.pairs == 0 }

  function AggregateOf(sheets: seq<Reduction>): Aggregated {
    var b := Boundaries(sheets);
    Aggregated(SumOf(sheets, RowsIn), SumOf(sheets, InvalidIn), SumOf(sheets, NegativeIn),
               Plus(SumSheets(sheets), Total(b)),
               |b|, Total(b).nonunit, CountIf(b, NoPair))
  }

  /** The sheets whose first key, or the last key of the sheet before, cannot be read. */
  ghost function UnreadableBoundaries(sheets: seq<Reduction>): set<int> {
    set i | 0 < i < |sheets| && (sheets[i - 1].last.None? || sheets[i].first.None?)
  }

  /** The sheets whose first record number is not the one after the last of the sheet before. */
  ghost function NonunitBoundaries(sheets: seq<Reduction>): set<int> {
    set i | 0 < i < |sheets| && sheets[i - 1].last.Some? && sheets[i].first.Some?
            && sheets[i].first.value.number != sheets[i - 1].last.value.number + 1
  }

  lemma BoundaryRowsNext(before: seq<Reduction>, r: Reduction)
    requires before != []
    ensures var last, first := before[|before| - 1].last, r.first;
            && UnreadableBoundaries(before + [r]) ==
               UnreadableBoundaries(before) + (if last.None? || first.None? then {|before|} else {})
            && NonunitBoundaries(before + [r]) ==
               NonunitBoundaries(before)
               + (if last.Some? && first.Some? && first.value.number != last.value.number + 1 then {|before|} else {})
    ensures |before| !in UnreadableBoundaries(before) + NonunitBoundaries(before)
  {
  }

  lemma EdgeBits(a: Option<RowKey>, b: Option<RowKey>)
    ensures NoPair(Edge(a, b)) <==> a.None? || b.None?
    ensures Edge(a, b).nonunit == if a.Some? && b.Some? && b.value.number != a.value.number + 1 then 1 else 0
  {
  }

  lemma BoundariesSnoc(before: seq<Reduction>, r: Reduction)
    requires before != []
    ensures Boundaries(before + [r]) == Boundaries(before) + [Edge(before[|before| - 1].last, r.first)]
  {
    hide Edge;
    assert (before + [r])[..|before|] == before;
  }

  /** What the boundary counters count. */
  lemma {:induction false} BoundariesAreCounted(sheets: seq<Reduction>)
    ensures |Boundaries(sheets)| == (if sheets == [] then 0 else |sheets| - 1)
    ensures CountIf(Boundaries(sheets), NoPair) == |UnreadableBoundaries(sheets)|
    ensures Total(Boundaries(sheets)).nonunit == |NonunitBoundaries(sheets)|
  {
    if |sheets| < 2 {
      FewSheets(sheets);
    } else {
      var before, r := sheets[..|sheets| - 1], sheets[|sheets| - 1];
      var left, right := before[|before| - 1].last, r.first;
      assert sheets == before + [r];
      hide *;
      BoundariesAreCounted(before);
      BoundariesSnoc(before, r);
      BoundaryRowsNext(before, r);
      EdgeBits(left, right);
      CountNext(Boundaries(before), Edge(left, right), NoPair);
      TotalNext(Boundaries(before), Edge(left, right));
    }
  }

  lemma FewSheets(sheets: seq<Reduction>)
    requires |sheets| < 2
    ensures |Boundaries(sheets)| == 0 && CountIf(Boundaries(sheets), NoPair) == 0
    ensures Total(Boundaries(sheets)).nonunit == 0
    ensures UnreadableBoundaries(sheets) == {} && NonunitBoundaries(sheets) == {}
  {
  }

  lemma TotalNext(ts: seq<Transitions>, t: Transitions)
    ensures Total(ts + [t]).nonunit == Total(ts).nonunit + t.nonunit
  {
    assert (ts + [t])[..|ts|] == ts;
  }

  /** A boundary is what the reference says about its two keys, so the comparison never fails. */
  lemma EdgeIsReference(left: Option<RowKey>, right: Option<RowKey>)
    ensures ReferenceReduce([left, right]).transitions == Edge(left, right)
  {
    hide Edge, Plus, Pairs, CountTransitions, CountIf, Statuses;
    EdgeNext([], left);
    EdgeNext([left], right);
    assert [] + [left] == [left] && [left] + [right] == [left, right];
    PlusNone(Edge(left, right));
  }

  /** The second loop of `aggregate`: every boundary by `edge` and by the reference, which must agree. */
  method Stitch(sheets: seq<Reduction>) returns (boundaries: seq<Transitions>, total: Transitions)
    requires sheets != []
    ensures boundaries == Boundaries(sheets) && total == Total(boundaries)
  {
    boundaries, total := [], NONE;
    assert sheets[..1][..0] == [] && Total([]) == NONE;
    hide Plus, Edge, ReferenceReduce;
    var i := 1;
    while i < |sheets|
      invariant 1 <= i <= |sheets| && boundaries == Boundaries(sheets[..i]) && total == Total(boundaries)
    {
      var boundary := Edge(sheets[i - 1].last, sheets[i].first);
      var independent := ReferenceReduce([sheets[i - 1].last, sheets[i].first]);
      EdgeIsReference(sheets[i - 1].last, sheets[i].first);
      assert boundary == independent.transitions;
      assert sheets[..i + 1][..i] == sheets[..i] && (boundaries + [boundary])[..|boundaries|] == boundaries;
      boundaries, total, i := boundaries + [boundary], Plus(total, boundary), i + 1;
    }
    assert sheets[..|sheets|] == sheets;
  }

  /** `aggregate`. */
  method Aggregate(sheets: seq<Reduction>) returns (r: Result<Aggregated>)
    ensures r.Failure? <==> sheets == []
    ensures r.Success? ==> r.value == AggregateOf(sheets)
    ensures r.Success? ==>
              && r.value.boundaries == |sheets| - 1
              && r.value.invalidBoundaries == |UnreadableBoundaries(sheets)|
              && r.value.nonunitBoundaries == |NonunitBoundaries(sheets)|
  {
    if sheets == [] { return Failure("empty chronology group"); }
    BoundariesAreCounted(sheets);
    hide Plus, SumSheets, SumOf, Boundaries, Total, CountIf, UnreadableBoundaries, NonunitBoundaries;
    var sums, rows, invalid, negative := SumSheet(sheets);
    var boundaries, total := Stitch(sheets);
    return Success(Aggregated(rows, invalid, negative, Plus(sums, total), |boundaries|, total.nonunit,
                              CountIf(boundaries, NoPair)));
  }

  method SumSheet(sheets: seq<Reduction>) returns (sums: Transitions, rows: nat, invalid: nat, negative: nat)
    ensures sums == SumSheets(sheets)
    ensures rows == SumOf(sheets, RowsIn) && invalid == SumOf(sheets, InvalidIn)
            && negative == SumOf(sheets, NegativeIn)
  {
    sums, rows, invalid, negative := NONE, 0, 0, 0;
    hide Plus;
    for i := 0 to |sheets|
      invariant sums == SumSheets(sheets[..i]) && rows == SumOf(sheets[..i], RowsIn)
      invariant invalid == SumOf(sheets[..i], InvalidIn) && negative == SumOf(sheets[..i], NegativeIn)
    {
      var s := sheets[i];
      assert sheets[..i + 1][..i] == sheets[..i];
      sums, rows := Plus(sums, s.transitions), rows + s.rows;
      invalid, negative := invalid + s.invalid, negative + s.negative;
    }
    assert sheets[..|sheets|] == sheets;
  }

  /** Two nonempty lists joined: their transitions, and the edge between them. */
  lemma {:induction false} TransitionsConcat(a: Keys, b: Keys)
    requires a != [] && b != []
    ensures TransitionsOf(a + b) == Plus(Plus(TransitionsOf(a), Edge(a[|a| - 1], b[0])), TransitionsOf(b))
  {
    var init, k := b[..|b| - 1], b[|b| - 1];
    assert a + b == (a + init) + [k] && b == init + [k];
    EdgeNext(a + init, k);
    EdgeNext(init, k);
    var ta, e := TransitionsOf(a), Edge(a[|a| - 1], b[0]);
    if init == [] {
      assert a + init == a;
      PlusNone(Plus(ta, e));
    } else {
      TransitionsConcat(a, init);
      PlusAssociates(Plus(ta, e), TransitionsOf(init), Edge(init[|init| - 1], k));
      assert (a + init)[|a + init| - 1] == init[|init| - 1];
    }
    hide TransitionsOf, Plus, Edge;
  }

  function FirstOf(keys: Keys): Option<RowKey> {
    if keys == [] then None else keys[0]
  }

  function LastOf(keys: Keys): Option<RowKey> {
    if keys == [] then None else keys[|keys| - 1]
  }

  /** Two lists joined, empty or not. */
  lemma TransitionsJoin(a: Keys, b: Keys)
    ensures TransitionsOf(a + b) == Plus(Plus(TransitionsOf(a), Edge(LastOf(a), FirstOf(b))), TransitionsOf(b))
  {
    hide TransitionsOf, Plus;
    PlusNone(TransitionsOf(a));
    PlusNone(TransitionsOf(b));
    NoTransitions();
    if a == [] {
      assert a + b == b;
    } else if b == [] {
      assert a + b == a;
    } else {
      TransitionsConcat(a, b);
    }
  }

  lemma NoTransitions()
    ensures TransitionsOf([]) == NONE
  {
  }

  function Reduced(parts: seq<Keys>): seq<Reduction> {
    seq(|parts|, i requires 0 <= i < |parts| => ReferenceReduce(parts[i]))
  }

  /** What the sheets and the boundaries between neighbours add up to. */
  function StitchedTransitions(parts: seq<Keys>): Transitions {
    Plus(SumSheets(Reduced(parts)), Total(Boundaries(Reduced(parts))))
  }

  /** The edge between sheet `i` and the rows before it, when the sheet in between has none. */
  function LostAt(parts: seq<Keys>, i: nat): Transitions
    requires i < |parts|
  {
    if i > 0 && parts[i - 1] == [] then Edge(LastOf(Flatten(parts[..i])), FirstOf(parts[i])) else NONE
  }

  /** The edges that no boundary sees, over the first `n` sheets. */
  function Lost(parts: seq<Keys>, n: nat): Transitions
    requires n <= |parts|
  {
    if n == 0 then NONE else Plus(Lost(parts, n - 1), LostAt(parts, n - 1))
  }

  lemma SumSheetsNext(before: seq<Reduction>, r: Reduction)
    ensures SumSheets(before + [r]) == Plus(SumSheets(before), r.transitions)
    ensures SumOf(before + [r], RowsIn) == SumOf(before, RowsIn) + r.rows
    ensures SumOf(before + [r], InvalidIn) == SumOf(before, InvalidIn) + r.invalid
    ensures SumOf(before + [r], NegativeIn) == SumOf(before, NegativeIn) + r.negative
  {
    assert (before + [r])[..|before|] == before;
  }

  lemma BoundariesNext(before: seq<Reduction>, r: Reduction)
    ensures Total(Boundaries(before + [r])) ==
            if before == [] then NONE else Plus(Total(Boundaries(before)), Edge(before[|before| - 1].last, r.first))
  {
    assert (before + [r])[..|before|] == before;
    if before != [] {
      var b, e := Boundaries(before), Edge(before[|before| - 1].last, r.first);
      assert (b + [e])[..|b|] == b;
    }
  }

  lemma Rearrange(s: Transitions, x: Transitions, b: Transitions, e: Transitions, l: Transitions, m: Transitions)
    ensures Plus(Plus(Plus(s, x), Plus(b, e)), Plus(l, m)) == Plus(Plus(Plus(Plus(s, b), l), Plus(e, m)), x)
  {
  }

  lemma StitchNext(parts: seq<Keys>, n: nat)
    requires n < |parts|
    ensures n == 0 ==> StitchedTransitions(parts[..1]) == TransitionsOf(parts[0])
    ensures n > 0 ==>
              var s, b := SumSheets(Reduced(parts[..n])), Total(Boundaries(Reduced(parts[..n])));
              StitchedTransitions(parts[..n + 1]) ==
              Plus(Plus(s, TransitionsOf(parts[n])), Plus(b, Edge(LastOf(parts[n - 1]), FirstOf(parts[n]))))
  {
    hide Edge, CountIf, CountTransitions, Pairs, Statuses;
    var before, r := Reduced(parts[..n]), ReferenceReduce(parts[n]);
    assert Reduced(parts[..n + 1]) == before + [r];
    SumSheetsNext(before, r);
    BoundariesNext(before, r);
    if n == 0 {
      assert before == [] && SumSheets([]) == NONE;
      PlusNone(r.transitions);
    }
  }

  // The balance: what stitching counts and what it loses are together the transitions of all rows.
  lemma {:induction false} StitchedBalance(parts: seq<Keys>, n: nat)
    requires n <= |parts|
    ensures TransitionsOf(Flatten(parts[..n])) == Plus(StitchedTransitions(parts[..n]), Lost(parts, n))
  {
    hide TransitionsOf, Edge, Plus, Reduced, SumSheets, Total, Boundaries;
    if n == 0 {
      NothingStitched(parts);
    } else {
      StitchedBalance(parts, n - 1);
      FlattenSnoc(parts, n - 1);
      TransitionsJoin(Flatten(parts[..n - 1]), parts[n - 1]);
      StitchNext(parts, n - 1);
      if n == 1 {
        FirstBalance(parts);
      } else {
        NextBalance(parts, n - 1);
      }
    }
  }

  lemma NothingStitched(parts: seq<Keys>)
    ensures TransitionsOf(Flatten(parts[..0])) == Plus(StitchedTransitions(parts[..0]), Lost(parts, 0)) == NONE
  {
    hide TransitionsOf, ReferenceReduce, Edge, Plus;
    NoTransitions();
    PlusNone(NONE);
    assert parts[..0] == [] && Reduced([]) == [];
    assert StitchedTransitions([]) == Plus(SumSheets([]), Total(Boundaries([])));
  }

  lemma FirstBalance(parts: seq<Keys>)
    requires parts != [] && Flatten(parts[..1]) == Flatten(parts[..0]) + parts[0]
    requires StitchedTransitions(parts[..1]) == TransitionsOf(parts[0])
    ensures TransitionsOf(Flatten(parts[..1])) == Plus(StitchedTransitions(parts[..1]), Lost(parts, 1))
  {
    hide TransitionsOf, StitchedTransitions, Plus;
    PlusNone(NONE);
    PlusNone(TransitionsOf(parts[0]));
    assert parts[..0] == [] && Flatten(parts[..1]) == parts[0];
    assert Lost(parts, 0) == NONE && LostAt(parts, 0) == NONE;
  }

  lemma NextBalance(parts: seq<Keys>, m: nat)
    requires 0 < m < |parts| && Flatten(parts[..m + 1]) == Flatten(parts[..m]) + parts[m]
    requires TransitionsOf(Flatten(parts[..m])) == Plus(StitchedTransitions(parts[..m]), Lost(parts, m))
    requires TransitionsOf(Flatten(parts[..m + 1])) ==
             Plus(Plus(TransitionsOf(Flatten(parts[..m])), Edge(LastOf(Flatten(parts[..m])), FirstOf(parts[m]))),
                  TransitionsOf(parts[m]))
    requires StitchedTransitions(parts[..m + 1]) ==
             Plus(Plus(SumSheets(Reduced(parts[..m])), TransitionsOf(parts[m])),
                  Plus(Total(Boundaries(Reduced(parts[..m]))), Edge(LastOf(parts[m - 1]), FirstOf(parts[m]))))
    ensures TransitionsOf(Flatten(parts[..m + 1])) == Plus(StitchedTransitions(parts[..m + 1]), Lost(parts, m + 1))
  {
    hide TransitionsOf, Edge, Plus, Flatten, LostAt, Reduced, SumSheets, Total, Boundaries;
    LastIsNear(parts, m);
    Rearrange(SumSheets(Reduced(parts[..m])), TransitionsOf(parts[m]), Total(Boundaries(Reduced(parts[..m]))),
              Edge(LastOf(parts[m - 1]), FirstOf(parts[m])), Lost(parts, m), LostAt(parts, m));
  }

  /** Behind a sheet with rows the last key of all rows is its last key. */
  lemma LastIsNear(parts: seq<Keys>, m: nat)
    requires 0 < m < |parts|
    ensures Edge(LastOf(Flatten(parts[..m])), FirstOf(parts[m])) ==
            Plus(Edge(LastOf(parts[m - 1]), FirstOf(parts[m])), LostAt(parts, m))
  {
    hide Flatten, Plus, Edge, FirstOf, LastOf;
    FlattenSnoc(parts, m - 1);
    NearEdge(Flatten(parts[..m - 1]), parts[m - 1], FirstOf(parts[m]));
  }

  lemma NearEdge(before: Keys, near: Keys, k: Option<RowKey>)
    ensures var e := Edge(LastOf(before + near), k);
            e == Plus(Edge(LastOf(near), k), if near == [] then e else NONE)
  {
    hide Plus, Edge;
    EdgeOfNone(k);
    PlusNone(Edge(LastOf(before + near), k));
    assert near != [] ==> (before + near)[|before + near| - 1] == near[|near| - 1];
  }

  lemma EdgeOfNone(k: Option<RowKey>)
    ensures Edge(None, k) == NONE
  {
  }

  /** A readable last key and a readable first key face each other at sheet `i`, across sheets without rows. */
  predicate FacesAcross(parts: seq<Keys>, i: nat)
    requires i < |parts|
  {
    i > 0 && parts[i - 1] == [] && LastOf(Flatten(parts[..i])).Some? && FirstOf(parts[i]).Some?
  }

  lemma EdgePairs(a: Option<RowKey>, b: Option<RowKey>)
    ensures Edge(a, b).pairs == if a.Some? && b.Some? then 1 else 0
    ensures Edge(a, b) == NONE <==> Edge(a, b).pairs == 0
  {
  }

  lemma NoneSums(a: Transitions, b: Transitions)
    requires a.pairs >= 0 && b.pairs >= 0 && (a == NONE <==> a.pairs == 0) && (b == NONE <==> b.pairs == 0)
    ensures Plus(a, b).pairs == a.pairs + b.pairs
    ensures Plus(a, b) == NONE <==> a == NONE && b == NONE
    ensures Plus(a, b) == NONE <==> Plus(a, b).pairs == 0
  {
    PairsAdd(a, b);
    PlusNone(a);
    hide Plus;
  }

  lemma PairsAdd(a: Transitions, b: Transitions)
    ensures Plus(a, b).pairs == a.pairs + b.pairs
  {
  }

  lemma {:induction false} LostPairs(parts: seq<Keys>, n: nat)
    requires n <= |parts|
    ensures Lost(parts, n).pairs >= 0 && (Lost(parts, n) == NONE <==> Lost(parts, n).pairs == 0)
    ensures Lost(parts, n) == NONE <==> forall i | 0 <= i < n :: !FacesAcross(parts, i)
  {
    hide Flatten, Edge, Plus;
    if n > 0 {
      var m := n - 1;
      LostPairs(parts, m);
      EdgePairs(LastOf(Flatten(parts[..m])), FirstOf(parts[m]));
      NoneSums(Lost(parts, m), LostAt(parts, m));
      assert FacesAcross(parts, m) <==> LostAt(parts, m) != NONE;
      hide FacesAcross, LostAt;
    }
  }

  lemma {:induction false} SumsOfSheets(parts: seq<Keys>, n: nat)
    requires n <= |parts|
    ensures SumOf(Reduced(parts[..n]), RowsIn) == |Flatten(parts[..n])|
    ensures SumOf(Reduced(parts[..n]), InvalidIn) == CountIf(Flatten(parts[..n]), IsInvalid)
    ensures SumOf(Reduced(parts[..n]), NegativeIn) == CountIf(Flatten(parts[..n]), IsNegative)
  {
    hide CountTransitions, Pairs, Statuses;
    if n > 0 {
      var all, last := Flatten(parts[..n - 1]), parts[n - 1];
      SumsOfSheets(parts, n - 1);
      FlattenSnoc(parts, n - 1);
      assert Reduced(parts[..n]) == Reduced(parts[..n - 1]) + [ReferenceReduce(last)];
      SumSheetsNext(Reduced(parts[..n - 1]), ReferenceReduce(last));
      CountIfConcat(all, last, IsInvalid);
      CountIfConcat(all, last, IsNegative);
      hide CountIf, SumOf, Reduced, Flatten;
    } else {
      assert Reduced(parts[..0]) == [] && parts[..0] == [];
    }
  }

  // What `aggregate` makes of the sheets' reductions, against the reduction of all their rows. Rows, invalid
  // rows and negative identifiers always agree. The transitions agree, boundaries included, exactly when no
  // two readable keys face each other across sheets without rows; otherwise just those pairs are lost.
  lemma AggregateIsWholeReduction(parts: seq<Keys>)
    requires parts != []
    ensures var group, whole := AggregateOf(Reduced(parts)), ReferenceReduce(Flatten(parts));
            && group.rows == whole.rows && group.invalid == whole.invalid && group.negative == whole.negative
            && group.boundaries == |parts| - 1
            && whole.transitions == Plus(group.transitions, Lost(parts, |parts|))
            && (group.transitions == whole.transitions <==> forall i | 0 <= i < |parts| :: !FacesAcross(parts, i))
  {
    var n := |parts|;
    TakeAll(parts);
    StitchedBalance(parts, n);
    LostPairs(parts, n);
    SumsOfSheets(parts, n);
    BoundariesAreCounted(Reduced(parts));
    PlusCancels(StitchedTransitions(parts), Lost(parts, n));
    hide Plus, SumSheets, SumOf, Total, Boundaries, CountIf, CountTransitions, Pairs, Statuses, Flatten, Lost, Reduced,
      FacesAcross;
  }

  lemma PlusCancels(a: Transitions, b: Transitions)
    ensures Plus(a, b) == a <==> b == NONE
  {
  }

  /** Sheets that all have rows, as `workbook` yields them, are stitched without loss. */
  lemma SheetsWithRowsLoseNothing(parts: seq<Keys>)
    requires parts != [] && forall i | 0 <= i < |parts| :: parts[i] != []
    ensures AggregateOf(Reduced(parts)).transitions == ReferenceReduce(Flatten(parts)).transitions
  {
    hide AggregateOf, Reduced, Flatten, ReferenceReduce, Plus;
    AggregateIsWholeReduction(parts);
  }

  /** An empty sheet between two readable keys has no keys to stitch by: the pair across it is lost. */
  lemma EmptySheetLosesPair(k: RowKey)
    ensures var parts := [[Some(k)], [], [Some(k)]];
            AggregateOf(Reduced(parts)).transitions != ReferenceReduce(Flatten(parts)).transitions
  {
    var parts: seq<Keys> := [[Some(k)], [], [Some(k)]];
    hide AggregateOf, Reduced, ReferenceReduce, Plus;
    FlattenSnoc(parts, 0);
    FlattenSnoc(parts, 1);
    assert parts[..0] == [] && Flatten(parts[..2]) == [Some(k)];
    assert FacesAcross(parts, 2);
    hide Flatten;
    AggregateIsWholeReduction(parts);
  }
}
