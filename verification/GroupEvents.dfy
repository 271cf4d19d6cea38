// The event streams of a group's workbooks: the positions a schema promises, the contents that the streams add up to,
// and the result that a group with these contents deserves. Producer and rebuild are both proved against it.
module GroupEvents {
  import opened Basics
  import opened StepEvidence
  import opened GroupObservations

  datatype Kind = RecordKind | StepKind | CycleKind

  datatype Position = Position(sheet: int, name: string, row: int)

  datatype Event =
    | RecordEvent(position: Position, row: Row, energy: Option<real>)
    | StepEvent(position: Position, summary: Summary)
    | CycleEvent(position: Position, cycle: CycleRow)

  function KindOf(e: Event): Kind {
    match e
    case RecordEvent(_, _, _) => RecordKind
    case StepEvent(_, _) => StepKind
    case CycleEvent(_, _) => CycleKind
  }

  datatype Sheet = Sheet(index: int, name: string, nrows: int)

  function SheetKind(name: string): Kind {
    if name == "step" then StepKind else if name == "cycle" then CycleKind else RecordKind
  }

  /** The positions of rows 2 to `last` of a sheet; row 1 is the header. */
  function SheetPositions(sheet: Sheet, last: int): seq<(Kind, Position)>
    decreases last
  {
    if last < 2 then []
    else SheetPositions(sheet, last - 1) + [(SheetKind(sheet.name), Position(sheet.index, sheet.name, last))]
  }

  function Positions(sheets: seq<Sheet>): seq<(Kind, Position)> {
    if sheets == [] then []
    else
      var sheet := sheets[|sheets| - 1];
      Positions(sheets[..|sheets| - 1]) + SheetPositions(sheet, sheet.nrows)
  }

  predicate At(e: Event, expected: (Kind, Position)) {
    KindOf(e) == expected.0 && e.position == expected.1
  }

  /** The stream visits every row of the schema once, in order, and nothing else. */
  predicate Covers(stream: seq<Event>, sheets: seq<Sheet>) {
    && |stream| == |Positions(sheets)|
    && forall i | 0 <= i < |stream| :: At(stream[i], Positions(sheets)[i])
  }

  // `load` stands for opening a member and decoding its workbook; `Failure` for either of them raising.
  // A decoded workbook is its finite sequence of events.
  datatype Sources = Sources(members: seq<string>, schemas: map<string, seq<Sheet>>, load: string -> Result<seq<Event>>)

  predicate ValidSources(s: Sources) {
    && s.members != [] && (forall m | m in s.members :: m != "" && m in s.schemas)
    && forall i, j | 0 <= i < j < |s.members| :: s.members[i] != s.members[j]
  }

  predicate ReadableMember(s: Sources, m: string) {
    m in s.schemas && s.load(m).Success? && Covers(s.load(m).value, s.schemas[m])
  }

  predicate Readable(s: Sources, n: nat)
    requires n <= |s.members|
  {
    forall i | 0 <= i < n :: ReadableMember(s, s.members[i])
  }

  // ----- Contents -----

  datatype Contents = Contents(
    records: seq<Located>, summaries: seq<Summary>, summaryPlaces: seq<Location>,
    cycles: seq<CycleRow>, cyclePlaces: seq<Location>)

  function Place(member: string, p: Position): Location {
    Location(member, p.sheet, p.name, p.row)
  }

  function AddEvent(c: Contents, member: string, e: Event): Contents {
    var place := Place(member, e.position);
    match e
    case RecordEvent(_, row, energy) => c.(records := c.records + [Located(place, row, energy)])
    case StepEvent(_, summary) => c.(summaries := c.summaries + [summary], summaryPlaces := c.summaryPlaces + [place])
    case CycleEvent(_, cycle) => c.(cycles := c.cycles + [cycle], cyclePlaces := c.cyclePlaces + [place])
  }

  function AddStream(c: Contents, member: string, stream: seq<Event>): Contents {
    if stream == [] then c
    else AddEvent(AddStream(c, member, stream[..|stream| - 1]), member, stream[|stream| - 1])
  }

  function ContentsOf(s: Sources, n: nat): Contents
    requires n <= |s.members| && Readable(s, n)
  {
    if n == 0 then Contents([], [], [], [], [])
    else
      var m := s.members[n - 1];
      assert ReadableMember(s, m);
      AddStream(ContentsOf(s, n - 1), m, s.load(m).value)
  }

  datatype Coverage = Coverage(member: string, records: nat, steps: nat, cycles: nat)

  predicate IsRecord(e: Event) { e.RecordEvent? }
  predicate IsStep(e: Event) { e.StepEvent? }
  predicate IsCycle(e: Event) { e.CycleEvent? }

  function CoverageOf(member: string, stream: seq<Event>): Coverage {
    Coverage(member, CountIf(stream, IsRecord), CountIf(stream, IsStep), CountIf(stream, IsCycle))
  }

  function CoverageUpTo(s: Sources, n: nat): seq<Coverage>
    requires n <= |s.members| && Readable(s, n)
  {
    if n == 0 then []
    else
      var m := s.members[n - 1];
      assert ReadableMember(s, m);
      CoverageUpTo(s, n - 1) + [CoverageOf(m, s.load(m).value)]
  }

  // ----- Success and result -----

  /** What both implementations demand: named readable members whose records number without gaps. */
  predicate Rebuildable(s: Sources) {
    && ValidSources(s) && Readable(s, |s.members|)
    && var c := ContentsOf(s, |s.members|);
       c.records != [] && Chronological(RowsOf(c.records))
  }

  /** No identifier or clock is negative; the workbook decoder promises this of its events. */
  predicate NothingNegative(s: Sources)
    requires Readable(s, |s.members|)
  {
    var c := ContentsOf(s, |s.members|);
    AllNonnegative(RowsOf(c.records)) && AllNonnegativeSummaries(c.summaries)
  }

  datatype Group = Group(
    segments: seq<Evidence>, summaries: seq<Summary>, joins: seq<Join>,
    members: seq<string>, coverage: seq<Coverage>, summaryPlaces: seq<Location>, extras: seq<Extra>,
    energyJoins: seq<EnergyJoin>, cycles: seq<CycleRow>, cyclePlaces: seq<Location>,
    observations: seq<Observation>, lastCycle: int)

  function GroupOf(s: Sources): Group
    requires Rebuildable(s)
  {
    var c := ContentsOf(s, |s.members|);
    var segments, extras := Segments(RowsOf(c.records)), Extras(c.records);
    ExtrasMatchSegments(c.records);
    Group(segments, c.summaries, Joins(segments, c.summaries), s.members, CoverageUpTo(s, |s.members|), c.summaryPlaces,
          extras, EnergyJoins(segments, c.summaries, extras), c.cycles, c.cyclePlaces,
          Observations(segments, c.cycles), segments[|segments| - 1].key.cycle)
  }

  lemma ReadableNext(s: Sources, n: nat)
    requires n < |s.members| && Readable(s, n)
    ensures Readable(s, n + 1) <==> ReadableMember(s, s.members[n])
  {
  }

  lemma AddStreamNext(c: Contents, member: string, stream: seq<Event>, i: nat)
    requires i < |stream|
    ensures AddStream(c, member, stream[..i + 1]) == AddEvent(AddStream(c, member, stream[..i]), member, stream[i])
  {
    assert stream[..i + 1][..i] == stream[..i];
  }

  function CountEvent(coverage: Coverage, e: Event): Coverage {
    match KindOf(e)
    case RecordKind => coverage.(records := coverage.records + 1)
    case StepKind => coverage.(steps := coverage.steps + 1)
    case CycleKind => coverage.(cycles := coverage.cycles + 1)
  }

  lemma CoverageNext(member: string, stream: seq<Event>, i: nat)
    requires i < |stream|
    ensures CoverageOf(member, stream[..i + 1]) == CountEvent(CoverageOf(member, stream[..i]), stream[i])
  {
    assert stream[..i + 1][..i] == stream[..i];
  }

  lemma SheetLength(sheet: Sheet, last: int)
    ensures |SheetPositions(sheet, last)| == if last < 2 then 0 else last - 1
    decreases last
  {
  }

  /** How many positions come before row `row` of sheet `k`. */
  function Before(sheets: seq<Sheet>, k: nat, row: int): nat
    requires k < |sheets|
  {
    |Positions(sheets[..k])| + |SheetPositions(sheets[k], row - 1)|
  }

  lemma {:induction false} PositionsPrefix(sheets: seq<Sheet>, k: nat)
    requires k <= |sheets|
    ensures Positions(sheets[..k]) <= Positions(sheets)
  {
    if k == |sheets| {
      assert sheets[..k] == sheets;
    } else {
      var init := sheets[..|sheets| - 1];
      PositionsPrefix(init, k);
      assert init[..k] == sheets[..k];
    }
  }

  lemma {:induction false} SheetPrefix(sheet: Sheet, last: int, more: int)
    requires last <= more
    ensures SheetPositions(sheet, last) <= SheetPositions(sheet, more)
    decreases more
  {
    if last < more && more >= 2 {
      SheetPrefix(sheet, last, more - 1);
    }
  }

  lemma PositionsOfSheet(sheets: seq<Sheet>, k: nat)
    requires k < |sheets|
    ensures Positions(sheets[..k + 1]) == Positions(sheets[..k]) + SheetPositions(sheets[k], sheets[k].nrows)
  {
    assert sheets[..k + 1][..k] == sheets[..k];
  }

  /** The position of row `row` of sheet `k`, among all positions. */
  lemma PositionAt(sheets: seq<Sheet>, k: nat, row: int)
    requires k < |sheets| && 2 <= row <= sheets[k].nrows
    ensures Before(sheets, k, row) < |Positions(sheets)|
    ensures Positions(sheets)[Before(sheets, k, row)] ==
            (SheetKind(sheets[k].name), Position(sheets[k].index, sheets[k].name, row))
    ensures Before(sheets, k, row + 1) == Before(sheets, k, row) + 1
  {
    PositionsPrefix(sheets, k + 1);
    PositionsOfSheet(sheets, k);
    SheetPrefix(sheets[k], row, sheets[k].nrows);
    var here := Positions(sheets[..k]) + SheetPositions(sheets[k], row);
    assert here <= Positions(sheets);
    SheetLength(sheets[k], row - 1);
    assert here[Before(sheets, k, row)] == SheetPositions(sheets[k], row)[row - 2];
  }

  lemma PositionsFrom(sheets: seq<Sheet>, k: nat)
    requires k < |sheets|
    ensures Before(sheets, k, 2) == |Positions(sheets[..k])|
    ensures Before(sheets, k, Max(sheets[k].nrows, 1) + 1) == |Positions(sheets[..k + 1])|
  {
    PositionsOfSheet(sheets, k);
    SheetLength(sheets[k], 1);
    SheetLength(sheets[k], sheets[k].nrows);
  }

  // ----- Growth -----

  lemma {:induction false} StreamGrows(c: Contents, member: string, stream: seq<Event>, i: nat)
    requires i <= |stream|
    ensures AddStream(c, member, stream[..i]).records <= AddStream(c, member, stream).records
  {
    if i == |stream| {
      assert stream[..i] == stream;
    } else {
      var init := stream[..|stream| - 1];
      StreamGrows(c, member, init, i);
      assert init[..i] == stream[..i];
    }
  }

  lemma {:induction false} ContentsGrow(s: Sources, n: nat, m: nat)
    requires n <= m <= |s.members| && Readable(s, m)
    ensures Readable(s, n) && ContentsOf(s, n).records <= ContentsOf(s, m).records
  {
    if n < m {
      ContentsGrow(s, n, m - 1);
      assert ReadableMember(s, s.members[m - 1]);
      var stream := s.load(s.members[m - 1]).value;
      StreamGrows(ContentsOf(s, m - 1), s.members[m - 1], stream, 0);
      assert stream[..0] == [];
    }
  }

  lemma RowsOfPrefix(records: seq<Located>, more: seq<Located>)
    requires records <= more && Chronological(RowsOf(more))
    ensures Chronological(RowsOf(records))
  {
    ChronologyOfPrefix(RowsOf(records), RowsOf(more));
  }

  // ----- Conservation -----

  function RecordTotal(coverage: seq<Coverage>): nat {
    if coverage == [] then 0 else RecordTotal(coverage[..|coverage| - 1]) + coverage[|coverage| - 1].records
  }

  function StepTotal(coverage: seq<Coverage>): nat {
    if coverage == [] then 0 else StepTotal(coverage[..|coverage| - 1]) + coverage[|coverage| - 1].steps
  }

  function CycleTotal(coverage: seq<Coverage>): nat {
    if coverage == [] then 0 else CycleTotal(coverage[..|coverage| - 1]) + coverage[|coverage| - 1].cycles
  }

  lemma {:induction false} StreamIsCounted(c: Contents, member: string, stream: seq<Event>)
    ensures var after, coverage := AddStream(c, member, stream), CoverageOf(member, stream);
            && |after.records| == |c.records| + coverage.records
            && |after.summaries| == |c.summaries| + coverage.steps
            && |after.cycles| == |c.cycles| + coverage.cycles
            && |after.summaryPlaces| == |c.summaryPlaces| + coverage.steps
            && |after.cyclePlaces| == |c.cyclePlaces| + coverage.cycles
  {
    if stream != [] {
      var n := |stream| - 1;
      StreamIsCounted(c, member, stream[..n]);
      assert stream[..n + 1] == stream;
      AddStreamNext(c, member, stream, n);
      CoverageNext(member, stream, n);
    }
  }

  /** The coverage list accounts for every record, every step summary and every cycle row of the group. */
  lemma {:induction false} EventsAreCounted(s: Sources, n: nat)
    requires n <= |s.members| && Readable(s, n)
    ensures |ContentsOf(s, n).records| == RecordTotal(CoverageUpTo(s, n))
    ensures |ContentsOf(s, n).summaries| == StepTotal(CoverageUpTo(s, n))
    ensures |ContentsOf(s, n).cycles| == CycleTotal(CoverageUpTo(s, n))
  {
    if n > 0 {
      var m := s.members[n - 1];
      assert ReadableMember(s, m);
      EventsAreCounted(s, n - 1);
      StreamIsCounted(ContentsOf(s, n - 1), m, s.load(m).value);
      var coverage := CoverageUpTo(s, n);
      assert coverage[..|coverage| - 1] == CoverageUpTo(s, n - 1);
    }
  }

  // ----- What coverage and contents mean -----

  /** The rows below the headers of the first `k` sheets. */
  function RowsBefore(sheets: seq<Sheet>, k: nat): nat
    requires k <= |sheets|
  {
    if k == 0 then 0 else RowsBefore(sheets, k - 1) + Max(sheets[k - 1].nrows - 1, 0)
  }

  // The event for row `row` of sheet `k` stands where that row comes in the schema, and is a step summary, a cycle row
  // or a record as the sheet is named.
  predicate VisitsRow(stream: seq<Event>, sheets: seq<Sheet>, k: nat, row: int)
    requires k < |sheets|
  {
    var i, sheet := RowsBefore(sheets, k) + row - 2, sheets[k];
    && 0 <= i < |stream| && stream[i].position == Position(sheet.index, sheet.name, row)
    && (stream[i].StepEvent? <==> sheet.name == "step") && (stream[i].CycleEvent? <==> sheet.name == "cycle")
    && (stream[i].RecordEvent? <==> sheet.name != "step" && sheet.name != "cycle")
  }

  /** One event for every row from 2 on of every sheet, in order, and no other. */
  ghost predicate VisitsEveryRow(stream: seq<Event>, sheets: seq<Sheet>) {
    && |stream| == RowsBefore(sheets, |sheets|)
    && forall k: nat, row | k < |sheets| && 2 <= row <= sheets[k].nrows :: VisitsRow(stream, sheets, k, row)
  }

  lemma {:induction false} PositionsCount(sheets: seq<Sheet>, k: nat)
    requires k <= |sheets|
    ensures |Positions(sheets[..k])| == RowsBefore(sheets, k)
  {
    if k > 0 {
      PositionsCount(sheets, k - 1);
      PositionsOfSheet(sheets, k - 1);
      SheetLength(sheets[k - 1], sheets[k - 1].nrows);
    } else {
      assert sheets[..0] == [];
    }
  }

  lemma RowStands(sheets: seq<Sheet>, k: nat, row: int)
    requires k < |sheets| && 2 <= row <= sheets[k].nrows
    ensures Before(sheets, k, row) == RowsBefore(sheets, k) + row - 2
  {
    PositionsCount(sheets, k);
    SheetLength(sheets[k], row - 1);
  }

  /** The sheet and the row of a position. */
  lemma {:induction false} RowOfPosition(sheets: seq<Sheet>, n: nat, i: nat) returns (k: nat, row: int)
    requires n <= |sheets| && i < RowsBefore(sheets, n)
    ensures k < n && 2 <= row <= sheets[k].nrows && i == RowsBefore(sheets, k) + row - 2
  {
    if i < RowsBefore(sheets, n - 1) {
      k, row := RowOfPosition(sheets, n - 1, i);
    } else {
      k, row := n - 1, i - RowsBefore(sheets, n - 1) + 2;
    }
  }

  lemma CoveredIsVisited(stream: seq<Event>, sheets: seq<Sheet>, k: nat, row: int)
    requires Covers(stream, sheets) && k < |sheets| && 2 <= row <= sheets[k].nrows
    ensures VisitsRow(stream, sheets, k, row)
  {
    hide Positions, RowsBefore, Before;
    PositionAt(sheets, k, row);
    RowStands(sheets, k, row);
    assert At(stream[Before(sheets, k, row)], Positions(sheets)[Before(sheets, k, row)]);
  }

  lemma VisitedIsCovered(stream: seq<Event>, sheets: seq<Sheet>, i: nat)
    requires VisitsEveryRow(stream, sheets) && i < |stream| == |Positions(sheets)|
    ensures At(stream[i], Positions(sheets)[i])
  {
    hide Positions, RowsBefore, Before;
    var k, row := RowOfPosition(sheets, |sheets|, i);
    assert VisitsRow(stream, sheets, k, row);
    PositionAt(sheets, k, row);
    RowStands(sheets, k, row);
  }

  /** A stream covers a schema exactly when it visits every row. */
  lemma CoversIsVisiting(stream: seq<Event>, sheets: seq<Sheet>)
    ensures Covers(stream, sheets) <==> VisitsEveryRow(stream, sheets)
  {
    PositionsCount(sheets, |sheets|);
    assert sheets[..|sheets|] == sheets;
    hide Positions, RowsBefore, VisitsRow, At;
    if Covers(stream, sheets) {
      forall k: nat, row | k < |sheets| && 2 <= row <= sheets[k].nrows
        ensures VisitsRow(stream, sheets, k, row)
      {
        CoveredIsVisited(stream, sheets, k, row);
      }
    }
    if VisitsEveryRow(stream, sheets) {
      forall i | 0 <= i < |stream|
        ensures At(stream[i], Positions(sheets)[i])
      {
        VisitedIsCovered(stream, sheets, i);
      }
    }
  }

  /** Event `i` of a stream is listed as the last one of its kind among the first events, with its source position. */
  lemma {:induction false} EventIsListed(c: Contents, member: string, stream: seq<Event>, i: nat)
    requires i < |stream|
    ensures var after, e := AddStream(c, member, stream), stream[i];
            var place := Location(member, e.position.sheet, e.position.name, e.position.row);
            match e
            case RecordEvent(_, row, energy) =>
              var k := |c.records| + CountIf(stream[..i], IsRecord);
              k < |after.records| && after.records[k] == Located(place, row, energy)
            case StepEvent(_, summary) =>
              var n := CountIf(stream[..i], IsStep);
              var k, p := |c.summaries| + n, |c.summaryPlaces| + n;
              && k < |after.summaries| && after.summaries[k] == summary
              && p < |after.summaryPlaces| && after.summaryPlaces[p] == place
            case CycleEvent(_, cycle) =>
              var n := CountIf(stream[..i], IsCycle);
              var k, p := |c.cycles| + n, |c.cyclePlaces| + n;
              && k < |after.cycles| && after.cycles[k] == cycle
              && p < |after.cyclePlaces| && after.cyclePlaces[p] == place
  {
    var n := |stream| - 1;
    if i < n {
      EventIsListed(c, member, stream[..n], i);
      assert stream[..n][..i] == stream[..i];
    } else {
      StreamIsCounted(c, member, stream[..n]);
    }
  }
}
