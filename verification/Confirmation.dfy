/** What confirming a candidate means: the maximal equal span around a seed, and its energies. */
module Confirmation {
  // Shifts are relative to the anchor, so shift `s` compares `left[a + s]` with `right[b + s]`.
  import opened Basics
  import opened Winnowing

  /** One readback: the canonical token and the optional energy. */
  datatype Row = Row(token: Token, energy: Option<real>)

  datatype Match = Match(leftStart: int, rightStart: int, length: int,
                         energyCompared: int, energyMissing: int, energyMismatch: int)

  /** How far the context reaches on either side of an anchor. */
  const REACH := GUARANTEED_LENGTH - K

  predicate InRange(left: seq<Row>, right: seq<Row>, a: int, b: int) {
    0 <= a <= |left| - K && 0 <= b <= |right| - K
  }

  /** First shift of the context: 24 rows back, or the start of either group. */
  function Lo(a: int, b: int): int {
    Max(-REACH, Max(-a, -b))
  }

  /** One past the last shift of the context: 32 rows on, or the end of either group. */
  function Hi(left: seq<Row>, right: seq<Row>, a: int, b: int): int {
    Min(GUARANTEED_LENGTH, Min(|left| - a, |right| - b))
  }

  predicate InContext(left: seq<Row>, right: seq<Row>, a: int, b: int, s: int) {
    Lo(a, b) <= s < Hi(left, right, a, b)
  }

  predicate EqualAt(left: seq<Row>, right: seq<Row>, a: int, b: int, s: int)
    requires InContext(left, right, a, b, s)
  {
    left[a + s].token == right[b + s].token
  }

  predicate ValidAt(left: seq<Row>, right: seq<Row>, a: int, b: int, s: int)
    requires InContext(left, right, a, b, s)
  {
    ValidToken(left[a + s].token) && ValidToken(right[b + s].token)
  }

  predicate EqualOver(left: seq<Row>, right: seq<Row>, a: int, b: int, start: int, end: int) {
    forall s | start <= s < end :: InContext(left, right, a, b, s) && EqualAt(left, right, a, b, s)
  }

  predicate ValidOver(left: seq<Row>, right: seq<Row>, a: int, b: int, start: int, end: int) {
    forall s | start <= s < end :: InContext(left, right, a, b, s) && ValidAt(left, right, a, b, s)
  }

  /** `start..end` holds the seed, is equal throughout, and cannot be extended within the context. */
  predicate MaximalSpan(left: seq<Row>, right: seq<Row>, a: int, b: int, start: int, end: int) {
    && Lo(a, b) <= start <= 0 && K <= end <= Hi(left, right, a, b)
    && EqualOver(left, right, a, b, start, end)
    && (start == Lo(a, b) || !EqualAt(left, right, a, b, start - 1))
    && (end == Hi(left, right, a, b) || !EqualAt(left, right, a, b, end))
  }

  lemma MaximalSpanUnique(left: seq<Row>, right: seq<Row>, a: int, b: int, s: int, e: int, s': int, e': int)
    requires MaximalSpan(left, right, a, b, s, e) && MaximalSpan(left, right, a, b, s', e')
    ensures s == s' && e == e'
  {
  }

  // ----- Energy over a span -----

  predicate MissingAt(left: seq<Row>, right: seq<Row>, a: int, b: int, s: int)
    requires InContext(left, right, a, b, s)
  {
    left[a + s].energy.None? || right[b + s].energy.None?
  }

  predicate MismatchAt(left: seq<Row>, right: seq<Row>, a: int, b: int, s: int)
    requires InContext(left, right, a, b, s)
  {
    !MissingAt(left, right, a, b, s) && left[a + s].energy != right[b + s].energy
  }

  function MissingIn(left: seq<Row>, right: seq<Row>, a: int, b: int, start: int, end: int): (n: int)
    requires Lo(a, b) <= start <= end <= Hi(left, right, a, b)
    ensures 0 <= n <= end - start
    ensures n == 0 <==> forall s | start <= s < end :: !MissingAt(left, right, a, b, s)
    decreases end - start
  {
    if start == end then 0
    else MissingIn(left, right, a, b, start, end - 1) + if MissingAt(left, right, a, b, end - 1) then 1 else 0
  }

  function MismatchIn(left: seq<Row>, right: seq<Row>, a: int, b: int, start: int, end: int): (n: int)
    requires Lo(a, b) <= start <= end <= Hi(left, right, a, b)
    ensures 0 <= n <= end - start - MissingIn(left, right, a, b, start, end)
    ensures n == 0 <==> forall s | start <= s < end :: !MismatchAt(left, right, a, b, s)
    decreases end - start
  {
    if start == end then 0
    else MismatchIn(left, right, a, b, start, end - 1) + if MismatchAt(left, right, a, b, end - 1) then 1 else 0
  }

  // ----- The verdict on one anchor -----

  /** Walking left from `s`, the first shift that cannot be crossed. */
  function SpanStart(left: seq<Row>, right: seq<Row>, a: int, b: int, s: int): (start: int)
    requires Lo(a, b) <= s <= Hi(left, right, a, b)
    ensures Lo(a, b) <= start <= s && EqualOver(left, right, a, b, start, s)
    ensures start == Lo(a, b) || !EqualAt(left, right, a, b, start - 1)
    decreases s - Lo(a, b)
  {
    if s == Lo(a, b) || !EqualAt(left, right, a, b, s - 1) then s else SpanStart(left, right, a, b, s - 1)
  }

  /** Walking right from `s`, the first shift that is not equal. */
  function SpanEnd(left: seq<Row>, right: seq<Row>, a: int, b: int, s: int): (end: int)
    requires Lo(a, b) <= s <= Hi(left, right, a, b)
    ensures s <= end <= Hi(left, right, a, b) && EqualOver(left, right, a, b, s, end)
    ensures end == Hi(left, right, a, b) || !EqualAt(left, right, a, b, end)
    decreases Hi(left, right, a, b) - s
  {
    if s == Hi(left, right, a, b) || !EqualAt(left, right, a, b, s) then s else SpanEnd(left, right, a, b, s + 1)
  }

  function MatchOf(left: seq<Row>, right: seq<Row>, a: int, b: int, start: int, end: int): Match
    requires Lo(a, b) <= start <= end <= Hi(left, right, a, b)
  {
    var missing := MissingIn(left, right, a, b, start, end);
    Match(a + start, b + start, end - start, end - start - missing, missing,
          MismatchIn(left, right, a, b, start, end))
  }

  /** The recorded span of an anchor, or none when the seed or the length fails. */
  function Verdict(left: seq<Row>, right: seq<Row>, a: int, b: int): Option<Match>
    requires InRange(left, right, a, b)
  {
    if !EqualOver(left, right, a, b, 0, K) then None
    else
      var start, end := SpanStart(left, right, a, b, 0), SpanEnd(left, right, a, b, K);
      if end - start < GUARANTEED_LENGTH then None else Some(MatchOf(left, right, a, b, start, end))
  }

  /** The verdict is decided by the maximal span alone, however it was found. */
  lemma VerdictOfSpan(left: seq<Row>, right: seq<Row>, a: int, b: int, start: int, end: int)
    requires InRange(left, right, a, b) && MaximalSpan(left, right, a, b, start, end)
    ensures Verdict(left, right, a, b) ==
            if end - start < GUARANTEED_LENGTH then None else Some(MatchOf(left, right, a, b, start, end))
  {
    var s, e := SpanStart(left, right, a, b, 0), SpanEnd(left, right, a, b, K);
    assert EqualOver(left, right, a, b, s, e);
    MaximalSpanUnique(left, right, a, b, start, end, s, e);
  }

  /** The two walks from an equal seed end in the maximal span. */
  lemma SpanIsMaximal(left: seq<Row>, right: seq<Row>, a: int, b: int)
    requires InRange(left, right, a, b) && EqualOver(left, right, a, b, 0, K)
    ensures MaximalSpan(left, right, a, b, SpanStart(left, right, a, b, 0), SpanEnd(left, right, a, b, K))
  {
  }

  /** The part of the context that `confirm_anchor` reads before it decides. */
  function TouchedFrom(left: seq<Row>, right: seq<Row>, a: int, b: int): int
    requires InRange(left, right, a, b)
  {
    if EqualOver(left, right, a, b, 0, K) then Max(Lo(a, b), SpanStart(left, right, a, b, 0) - 1) else 0
  }

  function TouchedTo(left: seq<Row>, right: seq<Row>, a: int, b: int): int
    requires InRange(left, right, a, b)
  {
    Min(Hi(left, right, a, b), SpanEnd(left, right, a, b, if EqualOver(left, right, a, b, 0, K) then K else 0) + 1)
  }

  /** The touched part, split the way the three loops of `confirm_anchor` read it. */
  lemma TouchedParts(left: seq<Row>, right: seq<Row>, a: int, b: int)
    requires InRange(left, right, a, b)
    ensures EqualOver(left, right, a, b, 0, K) <==> SpanEnd(left, right, a, b, 0) >= K
    ensures var seed := ValidOver(left, right, a, b, 0, Min(K, SpanEnd(left, right, a, b, 0) + 1));
            var back := ValidOver(left, right, a, b, Max(Lo(a, b), SpanStart(left, right, a, b, 0) - 1), 0);
            var on := ValidOver(left, right, a, b, K, Min(Hi(left, right, a, b), SpanEnd(left, right, a, b, K) + 1));
            ValidOver(left, right, a, b, TouchedFrom(left, right, a, b), TouchedTo(left, right, a, b)) <==>
            seed && (EqualOver(left, right, a, b, 0, K) ==> back && on)
  {
  }

  // ----- What a confirmation guarantees -----

  function TokensOf(rows: seq<Row>): (t: seq<Token>)
    ensures |t| == |rows|
  {
    seq(|rows|, i requires 0 <= i < |rows| => rows[i].token)
  }

  /** The match lies in both groups. */
  predicate Inside(left: seq<Row>, right: seq<Row>, m: Match) {
    0 <= m.leftStart <= m.leftStart + m.length <= |left| && 0 <= m.rightStart <= m.rightStart + m.length <= |right|
  }

  /** The rows of a match on the left and on the right. */
  function LeftRows(left: seq<Row>, m: Match): seq<Row>
    requires 0 <= m.leftStart <= m.leftStart + m.length <= |left|
  {
    left[m.leftStart..m.leftStart + m.length]
  }

  function RightRows(right: seq<Row>, m: Match): seq<Row>
    requires 0 <= m.rightStart <= m.rightStart + m.length <= |right|
  {
    right[m.rightStart..m.rightStart + m.length]
  }

  /** The positions of two spans of equal length at which both rows have an energy. */
  ghost function ComparedPositions(x: seq<Row>, y: seq<Row>): set<int>
    requires |x| == |y|
  {
    set i | 0 <= i < |x| && x[i].energy.Some? && y[i].energy.Some?
  }

  /** Those at which one of the two rows has none. */
  ghost function MissingPositions(x: seq<Row>, y: seq<Row>): set<int>
    requires |x| == |y|
  {
    set i | 0 <= i < |x| && (x[i].energy.None? || y[i].energy.None?)
  }

  /** Those at which the two rows have different energies. */
  ghost function DifferingPositions(x: seq<Row>, y: seq<Row>): set<int>
    requires |x| == |y|
  {
    set i | 0 <= i < |x| && x[i].energy.Some? && y[i].energy.Some? && x[i].energy.value != y[i].energy.value
  }

  ghost predicate EnergiesCounted(x: seq<Row>, y: seq<Row>, m: Match)
    requires |x| == |y|
  {
    && m.energyCompared == |ComparedPositions(x, y)|
    && m.energyMissing == |MissingPositions(x, y)|
    && m.energyMismatch == |DifferingPositions(x, y)|
  }

  /** At some position one of the two rows has no energy. */
  ghost predicate SomeMissing(x: seq<Row>, y: seq<Row>)
    requires |x| == |y|
  {
    exists i | 0 <= i < |x| :: x[i].energy.None? || y[i].energy.None?
  }

  /** At some position the two rows have different energies. */
  ghost predicate SomeDiffering(x: seq<Row>, y: seq<Row>)
    requires |x| == |y|
  {
    exists i | 0 <= i < |x| :: x[i].energy.Some? && y[i].energy.Some? && x[i].energy.value != y[i].energy.value
  }

  lemma CountsShowRows(x: seq<Row>, y: seq<Row>, m: Match)
    requires |x| == |y| && EnergiesCounted(x, y, m)
    ensures m.energyMissing > 0 <==> SomeMissing(x, y)
    ensures m.energyMismatch > 0 <==> SomeDiffering(x, y)
  {
    HasElement(MissingPositions(x, y));
    HasElement(DifferingPositions(x, y));
    if i :| 0 <= i < |x| && (x[i].energy.None? || y[i].energy.None?) {
      assert i in MissingPositions(x, y);
    }
    if i :| 0 <= i < |x| && x[i].energy.Some? && y[i].energy.Some? && x[i].energy.value != y[i].energy.value {
      assert i in DifferingPositions(x, y);
    }
  }

  lemma HasElement<T>(s: set<T>)
    ensures |s| > 0 <==> exists x :: x in s
  {
    if |s| > 0 {
      assert s != {};
    }
  }

  /** Two spans that grow by one row each: every set of positions grows by the new one, or stays. */
  lemma PositionsNext(x: seq<Row>, y: seq<Row>, u: Row, v: Row)
    requires |x| == |y|
    ensures ComparedPositions(x + [u], y + [v]) ==
            ComparedPositions(x, y) + if u.energy.Some? && v.energy.Some? then {|x|} else {}
    ensures MissingPositions(x + [u], y + [v]) ==
            MissingPositions(x, y) + if u.energy.None? || v.energy.None? then {|x|} else {}
    ensures DifferingPositions(x + [u], y + [v]) ==
            DifferingPositions(x, y)
            + if u.energy.Some? && v.energy.Some? && u.energy.value != v.energy.value then {|x|} else {}
    ensures |x| !in ComparedPositions(x, y) + MissingPositions(x, y) + DifferingPositions(x, y)
  {
  }

  lemma CountedNext(x: seq<Row>, y: seq<Row>, u: Row, v: Row, m: Match, n: Match)
    requires |x| == |y| && EnergiesCounted(x, y, m) && GrownBy(u, v, m, n)
    ensures EnergiesCounted(x + [u], y + [v], n)
  {
    PositionsNext(x, y, u, v);
    hide ComparedPositions, MissingPositions, DifferingPositions;
  }

  lemma NothingCounted(left: seq<Row>, right: seq<Row>, a: int, b: int, start: int)
    requires Lo(a, b) <= start <= Hi(left, right, a, b)
    ensures EnergiesCounted(left[a + start..a + start], right[b + start..b + start],
                            MatchOf(left, right, a, b, start, start))
  {
  }

  /** `n` is `m` with one more position, at which the rows are `u` and `v`. */
  predicate GrownBy(u: Row, v: Row, m: Match, n: Match) {
    && n.energyCompared == m.energyCompared + (if u.energy.Some? && v.energy.Some? then 1 else 0)
    && n.energyMissing == m.energyMissing + (if u.energy.None? || v.energy.None? then 1 else 0)
    && n.energyMismatch == m.energyMismatch
                           + (if u.energy.Some? && v.energy.Some? && u.energy.value != v.energy.value then 1 else 0)
  }

  lemma MatchGrows(left: seq<Row>, right: seq<Row>, a: int, b: int, start: int, end: int)
    requires Lo(a, b) <= start < end <= Hi(left, right, a, b)
    ensures GrownBy(left[a + end - 1], right[b + end - 1], MatchOf(left, right, a, b, start, end - 1),
                    MatchOf(left, right, a, b, start, end))
  {
    assert a + (end - 1) == a + end - 1 && b + (end - 1) == b + end - 1;
  }

  /** The counts of `MatchOf` are those of the positions, row by row. */
  lemma {:induction false} EnergiesAreCounted(left: seq<Row>, right: seq<Row>, a: int, b: int, start: int, end: int)
    requires Lo(a, b) <= start <= end <= Hi(left, right, a, b)
    ensures EnergiesCounted(left[a + start..a + end], right[b + start..b + end],
                            MatchOf(left, right, a, b, start, end))
    decreases end - start
  {
    hide *;
    ContextInside(left, right, a, b, start, end);
    if start == end {
      NothingCounted(left, right, a, b, start);
    } else {
      EnergiesAreCounted(left, right, a, b, start, end - 1);
      MatchGrows(left, right, a, b, start, end);
      SliceGrows(left, a + start, a + end);
      SliceGrows(right, b + start, b + end);
      CountedNext(left[a + start..a + (end - 1)], right[b + start..b + (end - 1)],
                  left[a + end - 1], right[b + end - 1],
                  MatchOf(left, right, a, b, start, end - 1), MatchOf(left, right, a, b, start, end));
    }
  }

  lemma ContextInside(left: seq<Row>, right: seq<Row>, a: int, b: int, start: int, end: int)
    requires Lo(a, b) <= start <= end <= Hi(left, right, a, b)
    ensures 0 <= a + start <= a + end <= |left| && 0 <= b + start <= b + end <= |right|
  {
  }

  lemma SliceGrows<T>(s: seq<T>, i: nat, j: nat)
    requires i < j <= |s|
    ensures s[i..j] == s[i..j - 1] + [s[j - 1]]
  {
  }

  // A recorded span is token-equal throughout and between 32 and 56 rows long, and its energy counts are the numbers
  // of its positions with two energies, with a missing one, and with two that differ.
  lemma VerdictSound(left: seq<Row>, right: seq<Row>, a: int, b: int)
    requires InRange(left, right, a, b) && Verdict(left, right, a, b).Some?
    ensures var m := Verdict(left, right, a, b).value;
            && GUARANTEED_LENGTH <= m.length <= GUARANTEED_LENGTH + REACH
            && SharedRun(TokensOf(left), TokensOf(right), m.leftStart, m.rightStart, m.length)
            && m.leftStart - a == m.rightStart - b
            && Inside(left, right, m) && EnergiesCounted(LeftRows(left, m), RightRows(right, m), m)
  {
    hide EnergiesCounted, EqualOver, EqualAt, TokensOf, MissingIn, MismatchIn;
    var start, end := SpanStart(left, right, a, b, 0), SpanEnd(left, right, a, b, K);
    SpanIsMaximal(left, right, a, b);
    EqualOverIsSharedRun(left, right, a, b, start, end);
    ContextInside(left, right, a, b, start, end);
    EnergiesAreCounted(left, right, a, b, start, end);
  }

  lemma EqualOverIsSharedRun(left: seq<Row>, right: seq<Row>, a: int, b: int, start: int, end: int)
    requires 0 <= a && 0 <= b && start <= end && EqualOver(left, right, a, b, start, end)
    requires Lo(a, b) <= start && end <= Hi(left, right, a, b)
    ensures SharedRun(TokensOf(left), TokensOf(right), a + start, b + start, end - start)
  {
    var x, y := TokensOf(left)[a + start..a + end], TokensOf(right)[b + start..b + end];
    forall i | 0 <= i < end - start
      ensures x[i] == y[i]
    {
      assert EqualAt(left, right, a, b, start + i);
    }
  }

  /** An anchor anywhere inside a run of 32 equal rows is always confirmed, with a span that contains the run. */
  lemma AnchorInRunIsConfirmed(left: seq<Row>, right: seq<Row>, runLeft: int, runRight: int, a: int, b: int)
    requires SharedRun(TokensOf(left), TokensOf(right), runLeft, runRight, GUARANTEED_LENGTH)
    requires a - runLeft == b - runRight && 0 <= a - runLeft <= GUARANTEED_LENGTH - K
    ensures InRange(left, right, a, b) && Verdict(left, right, a, b).Some?
    ensures var m := Verdict(left, right, a, b).value;
            && m.leftStart <= runLeft && runLeft + GUARANTEED_LENGTH <= m.leftStart + m.length
            && m.leftStart - runLeft == m.rightStart - runRight
  {
    var d := a - runLeft;
    SharedRunIsEqualOver(left, right, runLeft, runRight, a, b);
    var start, end := SpanStart(left, right, a, b, 0), SpanEnd(left, right, a, b, K);
    assert start <= -d && end >= GUARANTEED_LENGTH - d;
  }

  lemma SharedRunIsEqualOver(left: seq<Row>, right: seq<Row>, runLeft: int, runRight: int, a: int, b: int)
    requires SharedRun(TokensOf(left), TokensOf(right), runLeft, runRight, GUARANTEED_LENGTH)
    requires a - runLeft == b - runRight && 0 <= a - runLeft <= GUARANTEED_LENGTH - K
    ensures EqualOver(left, right, a, b, runLeft - a, runLeft - a + GUARANTEED_LENGTH)
  {
    var x := TokensOf(left)[runLeft..runLeft + GUARANTEED_LENGTH];
    var y := TokensOf(right)[runRight..runRight + GUARANTEED_LENGTH];
    forall s | runLeft - a <= s < runLeft - a + GUARANTEED_LENGTH
      ensures InContext(left, right, a, b, s) && EqualAt(left, right, a, b, s)
    {
      assert x[a + s - runLeft] == y[a + s - runLeft];
    }
  }
}
