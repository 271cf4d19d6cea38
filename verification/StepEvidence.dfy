// `iter_step_evidence` of ren_step_evidence.py: one summary for each contiguous run of record rows, against the runs
// themselves.
module StepEvidence {
  import opened Basics

  datatype Key = Key(cycle: int, step: int, status: int)

  /** A canonical record row: the key, the record number, the clock in microseconds, and the measurements. */
  datatype Row = Row(key: Key, number: int, time: int, voltage: real, current: real, charge: real)

  datatype Evidence = Evidence(
    key: Key, first: Row, last: Row, rows: nat, currentMin: real, currentMax: real,
    positive: nat, negative: nat, zero: nat,
    timeDecreases: nat, equalTimes: nat, voltageIncreases: nat, voltageDecreases: nat,
    currentChanges: nat, chargeDecreases: nat)

  predicate Nonnegative(r: Row) {
    r.key.cycle >= 0 && r.key.step >= 0 && r.number >= 0 && r.time >= 0
  }

  predicate Successive(previous: Row, r: Row) {
    r.number == previous.number + 1 && r.key.cycle >= previous.key.cycle
  }

  predicate Chronological(rows: seq<Row>) {
    forall i | 0 < i < |rows| :: Successive(rows[i - 1], rows[i])
  }

  predicate AllNonnegative(rows: seq<Row>) {
    forall i | 0 <= i < |rows| :: Nonnegative(rows[i])
  }

  lemma ChronologyNext(rows: seq<Row>, r: Row)
    ensures Chronological(rows + [r]) <==> Chronological(rows) && (rows != [] ==> Successive(rows[|rows| - 1], r))
  {
    var more := rows + [r];
    if Chronological(more) {
      forall i | 0 < i < |rows| ensures Successive(rows[i - 1], rows[i]) {
        assert Successive(more[i - 1], more[i]);
      }
      assert rows != [] ==> Successive(more[|rows| - 1], more[|rows|]);
    }
  }

  lemma ChronologyOfPrefix(rows: seq<Row>, more: seq<Row>)
    requires rows <= more && Chronological(more)
    ensures Chronological(rows)
  {
    forall i | 0 < i < |rows| ensures Successive(rows[i - 1], rows[i]) {
      assert Successive(more[i - 1], more[i]);
    }
  }

  /** The record numbers count up by one from the first, and no cycle comes back after a later one. */
  ghost predicate Consecutive(rows: seq<Row>) {
    && (forall i | 0 <= i < |rows| :: rows[i].number == rows[0].number + i)
    && forall i, j | 0 <= i <= j < |rows| :: rows[i].key.cycle <= rows[j].key.cycle
  }

  /** What the check between neighbours means for the whole stream. */
  lemma {:induction false} ChronologyMeans(rows: seq<Row>)
    ensures Chronological(rows) <==> Consecutive(rows)
  {
    if rows != [] {
      var init, r := rows[..|rows| - 1], rows[|rows| - 1];
      assert rows == init + [r];
      ChronologyMeans(init);
      ChronologyNext(init, r);
      hide Chronological;
      ConsecutiveNext(init, r);
    }
  }

  lemma ConsecutiveNext(rows: seq<Row>, r: Row)
    ensures Consecutive(rows + [r]) <==> Consecutive(rows) && (rows != [] ==> Successive(rows[|rows| - 1], r))
  {
    var more := rows + [r];
    assert forall i | 0 <= i < |rows| :: more[i] == rows[i];
    if Consecutive(more) && rows != [] {
      assert more[|rows|] == r && more[|rows| - 1].key.cycle <= more[|rows|].key.cycle;
    }
  }

  function Int(b: bool): nat {
    if b then 1 else 0
  }

  predicate IsPositive(r: Row) { r.current > 0.0 }
  predicate IsNegative(r: Row) { r.current < 0.0 }
  predicate IsZero(r: Row) { r.current == 0.0 }

  predicate TimeFalls(p: Row, r: Row) { r.time < p.time }
  predicate TimeStays(p: Row, r: Row) { r.time == p.time }
  predicate VoltageRises(p: Row, r: Row) { r.voltage > p.voltage }
  predicate VoltageFalls(p: Row, r: Row) { r.voltage < p.voltage }
  predicate CurrentChanges(p: Row, r: Row) { r.current != p.current }
  predicate ChargeFalls(p: Row, r: Row) { r.charge < p.charge }

  /** The summary of a run of one row. */
  function Begin(r: Row): Evidence {
    Evidence(r.key, r, r, 1, r.current, r.current, Int(IsPositive(r)), Int(IsNegative(r)), Int(IsZero(r)), 0, 0, 0, 0,
             0, 0)
  }

  /** One more row in the run. */
  function Grow(e: Evidence, r: Row): Evidence {
    var p := e.last;
    Evidence(e.key, e.first, r, e.rows + 1,
             if r.current < e.currentMin then r.current else e.currentMin,
             if e.currentMax < r.current then r.current else e.currentMax,
             e.positive + Int(IsPositive(r)), e.negative + Int(IsNegative(r)), e.zero + Int(IsZero(r)),
             e.timeDecreases + Int(TimeFalls(p, r)), e.equalTimes + Int(TimeStays(p, r)),
             e.voltageIncreases + Int(VoltageRises(p, r)), e.voltageDecreases + Int(VoltageFalls(p, r)),
             e.currentChanges + Int(CurrentChanges(p, r)), e.chargeDecreases + Int(ChargeFalls(p, r)))
  }

  function AddRow(segments: seq<Evidence>, starts: bool, r: Row): seq<Evidence>
    requires segments != [] || starts
  {
    if starts then segments + [Begin(r)]
    else segments[..|segments| - 1] + [Grow(segments[|segments| - 1], r)]
  }

  /** A row starts a run when its key is not the key of the row before. */
  predicate Starts(rows: seq<Row>, r: Row) {
    rows == [] || rows[|rows| - 1].key != r.key
  }

  function Segments(rows: seq<Row>): (s: seq<Evidence>)
    ensures rows != [] ==> s != [] && s[|s| - 1].last == rows[|rows| - 1]
  {
    if rows == [] then []
    else
      var init, r := rows[..|rows| - 1], rows[|rows| - 1];
      AddRow(Segments(init), Starts(init, r), r)
  }

  lemma SegmentsNext(rows: seq<Row>, r: Row)
    ensures Segments(rows + [r]) == AddRow(Segments(rows), Starts(rows, r), r)
  {
    assert (rows + [r])[..|rows|] == rows;
  }

  // ----- What the segments say about the rows -----

  function AddToRuns(runs: seq<seq<Row>>, starts: bool, r: Row): seq<seq<Row>>
    requires runs != [] || starts
  {
    if starts then runs + [[r]] else runs[..|runs| - 1] + [runs[|runs| - 1] + [r]]
  }

  /** The rows cut where the key changes. */
  function Runs(rows: seq<Row>): (runs: seq<seq<Row>>)
    ensures rows != [] ==> runs != []
  {
    if rows == [] then []
    else
      var init, r := rows[..|rows| - 1], rows[|rows| - 1];
      AddToRuns(Runs(init), Starts(init, r), r)
  }

  predicate OneKey(run: seq<Row>) {
    run != [] && forall i | 0 <= i < |run| :: run[i].key == run[0].key
  }

  predicate Apart(left: seq<Row>, right: seq<Row>) {
    left != [] && right != [] && left[0].key != right[0].key
  }

  /** The runs are the rows, cut exactly where the key changes: each is as long as it can be. */
  predicate Cut(rows: seq<Row>, runs: seq<seq<Row>>) {
    && Flatten(runs) == rows
    && (forall k | 0 <= k < |runs| :: OneKey(runs[k]))
    && (forall k | 0 <= k < |runs| - 1 :: Apart(runs[k], runs[k + 1]))
  }

  lemma CutLast(rows: seq<Row>, runs: seq<seq<Row>>)
    requires Cut(rows, runs) && rows != []
    ensures runs != [] && OneKey(runs[|runs| - 1])
    ensures rows[|rows| - 1] == runs[|runs| - 1][|runs[|runs| - 1]| - 1]
    ensures rows[|rows| - 1].key == runs[|runs| - 1][0].key
  {
    var last := runs[|runs| - 1];
    assert OneKey(last);
    assert rows == Flatten(runs[..|runs| - 1]) + last;
  }

  lemma CutStarts(rows: seq<Row>, runs: seq<seq<Row>>, r: Row)
    requires Cut(rows, runs) && Starts(rows, r)
    ensures Cut(rows + [r], runs + [[r]])
  {
    var after := runs + [[r]];
    if rows == [] { NoRows(runs); } else { CutLast(rows, runs); }
    assert after[..|runs|] == runs;
    forall k | 0 <= k < |after| - 1 ensures Apart(after[k], after[k + 1]) {
      assert k < |runs| - 1 ==> Apart(runs[k], runs[k + 1]);
    }
  }

  lemma CutGrows(rows: seq<Row>, runs: seq<seq<Row>>, r: Row)
    requires Cut(rows, runs) && !Starts(rows, r) && runs != []
    ensures var n := |runs| - 1; Cut(rows + [r], runs[..n] + [runs[n] + [r]])
  {
    var n := |runs| - 1;
    var grown := runs[n] + [r];
    var after := runs[..n] + [grown];
    CutLast(rows, runs);
    assert OneKey(grown) && grown[0] == runs[n][0];
    assert after[..n] == runs[..n];
    assert (Flatten(runs[..n]) + runs[n]) + [r] == Flatten(runs[..n]) + grown;
    hide OneKey;
    forall k | 0 <= k < |after| - 1 ensures Apart(after[k], after[k + 1]) {
      assert Apart(runs[k], runs[k + 1]) && after[k] == runs[k];
    }
  }

  lemma NoRows(runs: seq<seq<Row>>)
    requires forall k | 0 <= k < |runs| :: OneKey(runs[k])
    ensures runs != [] ==> Flatten(runs) != []
  {
    if runs != [] {
      assert OneKey(runs[|runs| - 1]);
    }
  }

  lemma {:induction false} RunsAreMaximal(rows: seq<Row>)
    ensures Cut(rows, Runs(rows))
  {
    if rows != [] {
      var init, r := rows[..|rows| - 1], rows[|rows| - 1];
      RunsAreMaximal(init);
      assert init + [r] == rows;
      hide Cut;
      if Starts(init, r) { CutStarts(init, Runs(init), r); } else { CutGrows(init, Runs(init), r); }
    }
  }

  /** How many adjacent pairs satisfy `p`. */
  function CountPairs(run: seq<Row>, p: (Row, Row) -> bool): nat {
    if |run| < 2 then 0
    else CountPairs(run[..|run| - 1], p) + Int(p(run[|run| - 2], run[|run| - 1]))
  }

  /** `e` tells the ends, the key, the extrema and the counts of the run. */
  predicate Summarises(e: Evidence, run: seq<Row>) {
    && run != [] && e.first == run[0] && e.last == run[|run| - 1] && e.rows == |run| && e.key == run[0].key
    && SummarisesCurrent(e, run)
    && e.timeDecreases == CountPairs(run, TimeFalls) && e.equalTimes == CountPairs(run, TimeStays)
    && e.voltageIncreases == CountPairs(run, VoltageRises) && e.voltageDecreases == CountPairs(run, VoltageFalls)
    && e.currentChanges == CountPairs(run, CurrentChanges) && e.chargeDecreases == CountPairs(run, ChargeFalls)
  }

  predicate SummarisesCurrent(e: Evidence, run: seq<Row>) {
    && (forall i | 0 <= i < |run| :: e.currentMin <= run[i].current <= e.currentMax)
    && (exists i | 0 <= i < |run| :: run[i].current == e.currentMin)
    && (exists i | 0 <= i < |run| :: run[i].current == e.currentMax)
    && e.positive == CountIf(run, IsPositive) && e.negative == CountIf(run, IsNegative)
         && e.zero == CountIf(run, IsZero)
    && e.positive + e.negative + e.zero == |run|
  }

  lemma SummaryBegins(r: Row)
    ensures Summarises(Begin(r), [r])
  {
    var run := [r];
    assert run[0] == r && run[..0] == [];
  }

  lemma PairsNext(run: seq<Row>, r: Row, p: (Row, Row) -> bool)
    requires run != []
    ensures CountPairs(run + [r], p) == CountPairs(run, p) + Int(p(run[|run| - 1], r))
  {
    assert (run + [r])[..|run|] == run;
  }

  lemma CountNext(run: seq<Row>, r: Row, p: Row -> bool)
    ensures CountIf(run + [r], p) == CountIf(run, p) + Int(p(r))
  {
    assert (run + [r])[..|run|] == run;
  }

  lemma SummaryGrows(e: Evidence, run: seq<Row>, r: Row)
    requires Summarises(e, run)
    ensures Summarises(Grow(e, r), run + [r])
  {
    CurrentGrows(e, run, r);
    PairsNext(run, r, TimeFalls);
    PairsNext(run, r, TimeStays);
    PairsNext(run, r, VoltageRises);
    PairsNext(run, r, VoltageFalls);
    PairsNext(run, r, CurrentChanges);
    PairsNext(run, r, ChargeFalls);
    hide CountPairs, SummarisesCurrent, Int;
  }

  lemma CurrentGrows(e: Evidence, run: seq<Row>, r: Row)
    requires SummarisesCurrent(e, run)
    ensures SummarisesCurrent(Grow(e, r), run + [r])
  {
    var more := run + [r];
    CountNext(run, r, IsPositive);
    CountNext(run, r, IsNegative);
    CountNext(run, r, IsZero);
    hide CountIf;
    assert forall i | 0 <= i < |run| :: more[i] == run[i];
    assert more[|run|] == r;
  }

  predicate SummariseAll(segments: seq<Evidence>, runs: seq<seq<Row>>) {
    |segments| == |runs| && forall k | 0 <= k < |segments| :: Summarises(segments[k], runs[k])
  }

  lemma SummariseNext(segments: seq<Evidence>, runs: seq<seq<Row>>, starts: bool, r: Row)
    requires SummariseAll(segments, runs) && (segments != [] || starts)
    ensures SummariseAll(AddRow(segments, starts, r), AddToRuns(runs, starts, r))
  {
    SummaryBegins(r);
    if !starts {
      SummaryGrows(segments[|segments| - 1], runs[|runs| - 1], r);
    }
    hide Summarises, Grow, Begin;
  }

  /** Every segment summarises its run. */
  lemma {:induction false} SegmentsSummariseRuns(rows: seq<Row>)
    ensures SummariseAll(Segments(rows), Runs(rows))
  {
    if rows != [] {
      var init, r := rows[..|rows| - 1], rows[|rows| - 1];
      SegmentsSummariseRuns(init);
      hide SummariseAll, AddRow, AddToRuns;
      SummariseNext(Segments(init), Runs(init), Starts(init, r), r);
    }
  }

  /** The rows of a run with a current above, below and at zero. */
  ghost predicate CountsSigns(e: Evidence, run: seq<Row>) {
    && e.positive == |set i | 0 <= i < |run| && run[i].current > 0.0|
    && e.negative == |set i | 0 <= i < |run| && run[i].current < 0.0|
    && e.zero == |set i | 0 <= i < |run| && run[i].current == 0.0|
  }

  /** The row before row `i` of a run. */
  function RowBefore(run: seq<Row>, i: int): Row
    requires 0 < i < |run|
  {
    run[i - 1]
  }

  // The rows of a run whose time is smaller than that of the row before, or the same; whose voltage is larger or
  // smaller; whose current is another; and whose charge is smaller.
  ghost function TimeDecreaseRows(run: seq<Row>): set<int> {
    set i | 0 < i < |run| && run[i].time < RowBefore(run, i).time
  }

  ghost function EqualTimeRows(run: seq<Row>): set<int> {
    set i | 0 < i < |run| && run[i].time == RowBefore(run, i).time
  }

  ghost function VoltageIncreaseRows(run: seq<Row>): set<int> {
    set i | 0 < i < |run| && run[i].voltage > RowBefore(run, i).voltage
  }

  ghost function VoltageDecreaseRows(run: seq<Row>): set<int> {
    set i | 0 < i < |run| && run[i].voltage < RowBefore(run, i).voltage
  }

  ghost function CurrentChangeRows(run: seq<Row>): set<int> {
    set i | 0 < i < |run| && run[i].current != RowBefore(run, i).current
  }

  ghost function ChargeDecreaseRows(run: seq<Row>): set<int> {
    set i | 0 < i < |run| && run[i].charge < RowBefore(run, i).charge
  }

  ghost predicate CountsChanges(e: Evidence, run: seq<Row>) {
    && e.timeDecreases == |TimeDecreaseRows(run)| && e.equalTimes == |EqualTimeRows(run)|
    && e.voltageIncreases == |VoltageIncreaseRows(run)| && e.voltageDecreases == |VoltageDecreaseRows(run)|
    && e.currentChanges == |CurrentChangeRows(run)| && e.chargeDecreases == |ChargeDecreaseRows(run)|
  }

  predicate Related(run: seq<Row>, p: (Row, Row) -> bool, i: int) {
    0 < i < |run| && p(RowBefore(run, i), run[i])
  }

  lemma RelatedInPrefix(run: seq<Row>, p: (Row, Row) -> bool, i: int)
    requires run != []
    ensures Related(run[..|run| - 1], p, i) <==> Related(run, p, i) && i < |run| - 1
    ensures Related(run, p, i) ==> i < |run|
  {
  }

  lemma {:induction false} CountPairsIsSize(run: seq<Row>, p: (Row, Row) -> bool, positions: set<int>)
    requires forall i :: i in positions <==> Related(run, p, i)
    ensures CountPairs(run, p) == |positions|
  {
    if |run| < 2 {
      assert forall i | i in positions :: 0 < i < |run|;
      assert positions == {};
    } else {
      var init, n := run[..|run| - 1], |run| - 1;
      assert CountPairs(run, p) == CountPairs(init, p) + Int(Related(run, p, n));
      hide Related, CountPairs;
      forall i: int
        ensures i in positions - {n} <==> Related(init, p, i)
      {
        RelatedInPrefix(run, p, i);
      }
      CountPairsIsSize(init, p, positions - {n});
    }
  }

  lemma SummaryCountsSigns(e: Evidence, run: seq<Row>)
    requires SummarisesCurrent(e, run)
    ensures CountsSigns(e, run)
  {
    CountIfIsSize(run, IsPositive, set i | 0 <= i < |run| && run[i].current > 0.0);
    CountIfIsSize(run, IsNegative, set i | 0 <= i < |run| && run[i].current < 0.0);
    CountIfIsSize(run, IsZero, set i | 0 <= i < |run| && run[i].current == 0.0);
  }

  lemma SummaryCountsChanges(e: Evidence, run: seq<Row>)
    requires Summarises(e, run)
    ensures CountsChanges(e, run)
  {
    CountPairsIsSize(run, TimeFalls, TimeDecreaseRows(run));
    CountPairsIsSize(run, TimeStays, EqualTimeRows(run));
    CountPairsIsSize(run, VoltageRises, VoltageIncreaseRows(run));
    CountPairsIsSize(run, VoltageFalls, VoltageDecreaseRows(run));
    CountPairsIsSize(run, CurrentChanges, CurrentChangeRows(run));
    CountPairsIsSize(run, ChargeFalls, ChargeDecreaseRows(run));
    hide CountPairs, SummarisesCurrent;
  }

  // What a reduction is to give: one segment for every run, with its ends, its key, its extrema, and counters that are
  // numbers of its rows.
  ghost predicate TellsRuns(segments: seq<Evidence>, runs: seq<seq<Row>>) {
    && SummariseAll(segments, runs)
    && forall k | 0 <= k < |segments| ::
         CountsSigns(segments[k], runs[k]) && CountsChanges(segments[k], runs[k])
  }

  lemma SegmentsTellRuns(rows: seq<Row>)
    ensures TellsRuns(Segments(rows), Runs(rows))
  {
    SegmentsSummariseRuns(rows);
    var segments, runs := Segments(rows), Runs(rows);
    hide Segments, Runs, SummarisesCurrent, CountsSigns, CountsChanges, CountPairs;
    forall k | 0 <= k < |segments|
      ensures CountsSigns(segments[k], runs[k]) && CountsChanges(segments[k], runs[k])
    {
      SummaryCountsSigns(segments[k], runs[k]);
      SummaryCountsChanges(segments[k], runs[k]);
    }
  }

  // ----- The reducer -----

  /** What the reducer demands of row `i`. */
  predicate Acceptable(rows: seq<Row>, i: nat)
    requires i < |rows|
  {
    Nonnegative(rows[i]) && (i > 0 ==> Successive(rows[i - 1], rows[i]))
  }

  lemma AllAcceptable(rows: seq<Row>)
    ensures (forall i | 0 <= i < |rows| :: Acceptable(rows, i)) <==> AllNonnegative(rows) && Chronological(rows)
  {
    if forall i | 0 <= i < |rows| :: Acceptable(rows, i) {
      forall i | 0 <= i < |rows| ensures Nonnegative(rows[i]) && (i > 0 ==> Successive(rows[i - 1], rows[i])) {
        assert Acceptable(rows, i);
      }
    }
  }

  /** What the reducer holds after some rows: the runs closed, and the open one. */
  predicate Reduced(rows: seq<Row>, previous: Option<Row>, done: seq<Evidence>, evidence: Option<Evidence>) {
    if rows == [] then previous.None? && evidence.None? && done == []
    else previous == Some(rows[|rows| - 1]) && evidence.Some? && Segments(rows) == done + [evidence.value]
  }

  /** `iter_step_evidence`: the stream must be nonempty, number its records without gaps and never go back a cycle. */
  method IterStepEvidence(rows: seq<Row>) returns (r: Result<seq<Evidence>>)
    ensures r.Success? <==> rows != [] && AllNonnegative(rows) && Chronological(rows)
    ensures r.Success? <==> rows != [] && AllNonnegative(rows) && Consecutive(rows)
    ensures r.Success? ==> r.value == Segments(rows) && TellsRuns(r.value, Runs(rows))
  {
    ChronologyMeans(rows);
    hide Consecutive;
    AllAcceptable(rows);
    SegmentsTellRuns(rows);
    hide AllNonnegative, Chronological, Segments, TellsRuns, Runs;
    var previous: Option<Row>, evidence: Option<Evidence> := None, None;
    var done: seq<Evidence> := [];
    var i := 0;
    while i < |rows|
      invariant i <= |rows| && Reduced(rows[..i], previous, done, evidence)
      invariant forall j | 0 <= j < i :: Acceptable(rows, j)
    {
      assert rows[..i + 1] == rows[..i] + [rows[i]];
      var ok;
      ok, done, evidence := TakeRow(rows[..i], previous, rows[i], done, evidence);
      if !ok {
        assert !Acceptable(rows, i);
        return Failure("negative identifier or time, discontinuity or cycle reversal");
      }
      previous, i := Some(rows[i]), i + 1;
    }
    assert rows[..|rows|] == rows;
    if evidence.None? { return Failure("empty record stream"); }
    return Success(done + [evidence.value]);
  }

  /** One row, checked against its predecessor and then reduced. */
  method TakeRow(ghost rows: seq<Row>, previous: Option<Row>, row: Row, done: seq<Evidence>, evidence: Option<Evidence>)
    returns (ok: bool, doneNow: seq<Evidence>, evidenceNow: Option<Evidence>)
    requires Reduced(rows, previous, done, evidence)
    ensures ok <==> Nonnegative(row) && (rows != [] ==> Successive(rows[|rows| - 1], row))
    ensures ok ==> Reduced(rows + [row], Some(row), doneNow, evidenceNow)
  {
    ok, doneNow, evidenceNow := false, done, evidence;
    if !Nonnegative(row) { return; }
    if previous.Some? && (row.number != previous.value.number + 1
                          || row.key.cycle < previous.value.key.cycle) { return; }
    ok := true;
    doneNow, evidenceNow := Advance(rows, previous, row, done, evidence);
  }

  /** The first row of a run: its evidence with zero counters, then counted. */
  method OpenRun(row: Row) returns (e: Evidence)
    ensures e == Begin(row)
  {
    e := Evidence(row.key, row, row, 0, row.current, row.current, 0, 0, 0, 0, 0, 0, 0, 0, 0);
    e := CountRow(e, row);
  }

  /** One more row of a run: the changes since the row before, then the row itself. */
  method GrowRun(before: Evidence, p: Row, row: Row) returns (e: Evidence)
    requires p == before.last
    ensures e == Grow(before, row)
  {
    e := before.(timeDecreases := before.timeDecreases + Int(row.time < p.time),
                 equalTimes := before.equalTimes + Int(row.time == p.time),
                 voltageIncreases := before.voltageIncreases + Int(row.voltage > p.voltage),
                 voltageDecreases := before.voltageDecreases + Int(row.voltage < p.voltage),
                 currentChanges := before.currentChanges + Int(row.current != p.current),
                 chargeDecreases := before.chargeDecreases + Int(row.charge < p.charge));
    e := CountRow(e, row);
  }

  /** What every row adds, whether it opens a run or not. */
  method CountRow(before: Evidence, row: Row) returns (e: Evidence)
    ensures e == before.(rows := before.rows + 1, last := row,
                         currentMin := if row.current < before.currentMin then row.current else before.currentMin,
                         currentMax := if before.currentMax < row.current then row.current else before.currentMax,
                         positive := before.positive + Int(IsPositive(row)),
                         negative := before.negative + Int(IsNegative(row)), zero := before.zero + Int(IsZero(row)))
  {
    e := before.(rows := before.rows + 1, last := row);
    if row.current < e.currentMin { e := e.(currentMin := row.current); }
    if row.current > e.currentMax { e := e.(currentMax := row.current); }
    e := e.(positive := e.positive + Int(row.current > 0.0),
            negative := e.negative + Int(row.current < 0.0),
            zero := e.zero + Int(row.current == 0.0));
  }

  /** One accepted row: it closes the open run and starts another, or joins the open run. */
  method Advance(ghost rows: seq<Row>, previous: Option<Row>, row: Row, done: seq<Evidence>, evidence: Option<Evidence>)
    returns (doneNow: seq<Evidence>, evidenceNow: Option<Evidence>)
    requires Reduced(rows, previous, done, evidence)
    ensures Reduced(rows + [row], Some(row), doneNow, evidenceNow)
  {
    SegmentsNext(rows, row);
    hide Begin, Grow;
    doneNow := done;
    if evidence.None? || row.key != previous.value.key {
      if evidence.Some? { doneNow := done + [evidence.value]; }
      var e := OpenRun(row);
      evidenceNow := Some(e);
    } else {
      assert (done + [evidence.value])[..|done|] == done;
      var e := GrowRun(evidence.value, previous.value, row);
      evidenceNow := Some(e);
    }
  }
}
