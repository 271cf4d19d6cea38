/** `rebuild` of ren_target_verify.py: the same group result from a second, independent loop. */
module TargetVerify {
  import opened Basics
  import opened KeyIndex
  import opened StepEvidence
  import opened GroupObservations
  import opened GroupEvents
  import opened GroupMeaning
  import opened EqualFields

  /** The lists of the loop: segments and extras are both open at their last entry. */
  datatype Rebuilt = Rebuilt(
    segments: seq<Evidence>, extras: seq<Extra>, previous: Option<Row>, summaries: seq<Summary>,
    summaryPlaces: seq<Location>, cycles: seq<CycleRow>, cyclePlaces: seq<Location>)

  predicate Holds(st: Rebuilt, c: Contents) {
    && st.segments == Segments(RowsOf(c.records)) && st.extras == Extras(c.records)
    && st.previous == (if c.records == [] then None else Some(c.records[|c.records| - 1].row))
    && st.summaries == c.summaries && st.summaryPlaces == c.summaryPlaces
    && st.cycles == c.cycles && st.cyclePlaces == c.cyclePlaces
    && Chronological(RowsOf(c.records))
  }

  /** The segment side of a record row, counter by counter. */
  method TakeRow(segments: seq<Evidence>, previous: Option<Row>, row: Row) returns (after: seq<Evidence>)
    requires previous.Some? ==> segments != [] && segments[|segments| - 1].last == previous.value
    ensures after == AddRow(segments, previous.None? || row.key != previous.value.key, row)
  {
    var opens := previous.None? || row.key != previous.value.key;
    after := segments;
    if opens {
      after := after + [Evidence(row.key, row, row, 0, row.current, row.current, 0, 0, 0, 0, 0, 0, 0, 0, 0)];
    }
    var n := |after| - 1;
    var e := after[n];
    if !opens {
      var p := previous.value;
      e := e.(timeDecreases := e.timeDecreases + Int(row.time < p.time),
              equalTimes := e.equalTimes + Int(row.time == p.time),
              voltageIncreases := e.voltageIncreases + Int(row.voltage > p.voltage),
              voltageDecreases := e.voltageDecreases + Int(row.voltage < p.voltage),
              currentChanges := e.currentChanges + Int(row.current != p.current),
              chargeDecreases := e.chargeDecreases + Int(row.charge < p.charge));
    }
    e := e.(rows := e.rows + 1, last := row,
            currentMin := if row.current < e.currentMin then row.current else e.currentMin,
            currentMax := if e.currentMax < row.current then row.current else e.currentMax);
    if row.current > 0.0 {
      e := e.(positive := e.positive + 1);
    } else if row.current < 0.0 {
      e := e.(negative := e.negative + 1);
    } else {
      e := e.(zero := e.zero + 1);
    }
    after := after[..n] + [e];
    assert opens ==> after == segments + [Begin(row)];
  }

  /** The energy side of a record row. */
  method TakeEnergy(extras: seq<Extra>, opens: bool, place: Location, row: Row, energy: Option<real>)
    returns (after: seq<Extra>)
    requires extras != [] || opens
    ensures after == AddExtra(extras, opens, Located(place, row, energy))
  {
    after := if opens then extras + [Extra(row.key, place, place, 0, energy, energy, 0)] else extras;
    var n := |after| - 1;
    var x := after[n];
    x := x.(rows := x.rows + 1, last := place, lastEnergy := energy, missing := x.missing + Int(energy.None?));
    after := after[..n] + [x];
    assert opens ==> after == extras + [x];
  }

  /** A record row joins the last segment or opens a new one; the chronology is checked before. */
  method TakeRecord(st: Rebuilt, ghost c: Contents, place: Location, row: Row, energy: Option<real>)
    returns (ok: bool, next: Rebuilt)
    requires Holds(st, c)
    ensures var after := c.(records := c.records + [Located(place, row, energy)]);
            (ok <==> Chronological(RowsOf(after.records))) && (ok ==> Holds(next, after))
  {
    ghost var r := Located(place, row, energy);
    RowsNext(c.records, r);
    ExtrasNext(c.records, r);
    SegmentsNext(RowsOf(c.records), row);
    ChronologyNext(RowsOf(c.records), row);
    hide Segments, Extras, Chronological, RowsOf, AddRow, AddExtra;
    next := st;
    if st.previous.Some? && (row.number - st.previous.value.number != 1
                             || row.key.cycle < st.previous.value.key.cycle) {
      return false, next;
    }
    var opens := st.previous.None? || row.key != st.previous.value.key;
    var segments := TakeRow(st.segments, st.previous, row);
    var extras := TakeEnergy(st.extras, opens, place, row, energy);
    next := st.(segments := segments, extras := extras, previous := Some(row));
    ok := true;
  }

  method TakeEvent(st: Rebuilt, ghost c: Contents, member: string, e: Event) returns (ok: bool, next: Rebuilt)
    requires Holds(st, c)
    ensures ok <==> Chronological(RowsOf(AddEvent(c, member, e).records))
    ensures ok ==> Holds(next, AddEvent(c, member, e))
  {
    var place := Place(member, e.position);
    match e
    case StepEvent(_, summary) =>
      ok, next := true, st.(summaries := st.summaries + [summary], summaryPlaces := st.summaryPlaces + [place]);
    case CycleEvent(_, cycle) =>
      ok, next := true, st.(cycles := st.cycles + [cycle], cyclePlaces := st.cyclePlaces + [place]);
    case RecordEvent(_, row, energy) =>
      ok, next := TakeRecord(st, c, place, row, energy);
  }

  predicate HoldsAfter(st: Rebuilt, coverage: Coverage, before: Contents, member: string, stream: seq<Event>, i: nat)
    requires i <= |stream|
  {
    Holds(st, AddStream(before, member, stream[..i])) && coverage == CoverageOf(member, stream[..i])
  }

  /** The stream is covered and leaves the records chronological. */
  predicate GoodStream(before: Contents, member: string, stream: seq<Event>, sheets: seq<Sheet>) {
    Covers(stream, sheets) && Chronological(RowsOf(AddStream(before, member, stream).records))
  }

  /** The first `i` events were read where the schema says, and are in the state. */
  predicate Reads(st: Rebuilt, coverage: Coverage, before: Contents, member: string, stream: seq<Event>,
                  sheets: seq<Sheet>, i: nat) {
    && i <= |stream| && i <= |Positions(sheets)|
    && (forall j | 0 <= j < i :: At(stream[j], Positions(sheets)[j]))
    && HoldsAfter(st, coverage, before, member, stream, i)
  }

  lemma ReadsAtStart(st: Rebuilt, before: Contents, member: string, stream: seq<Event>, sheets: seq<Sheet>)
    requires Holds(st, before)
    ensures Reads(st, Coverage(member, 0, 0, 0), before, member, stream, sheets, 0)
  {
    assert stream[..0] == [];
  }

  lemma ReadsAtEnd(st: Rebuilt, coverage: Coverage, before: Contents, member: string, stream: seq<Event>,
                   sheets: seq<Sheet>)
    requires Reads(st, coverage, before, member, stream, sheets, |Positions(sheets)|)
    ensures |stream| > |Positions(sheets)| ==> !GoodStream(before, member, stream, sheets)
    ensures |stream| == |Positions(sheets)| ==>
              GoodStream(before, member, stream, sheets)
              && Holds(st, AddStream(before, member, stream)) && coverage == CoverageOf(member, stream)
  {
    if |stream| == |Positions(sheets)| {
      assert stream[..|stream|] == stream;
    }
  }

  /** One event, against the row the loop stands at. */
  method TakeNext(st: Rebuilt, coverage: Coverage, ghost before: Contents, member: string, stream: seq<Event>,
                  sheets: seq<Sheet>, k: nat, row: int, i: nat)
    returns (ok: bool, next: Rebuilt, counted: Coverage)
    requires k < |sheets| && 2 <= row <= sheets[k].nrows && i == Before(sheets, k, row)
    requires Reads(st, coverage, before, member, stream, sheets, i)
    ensures !ok ==> !GoodStream(before, member, stream, sheets)
    ensures ok ==> Reads(next, counted, before, member, stream, sheets, i + 1)
  {
    PositionAt(sheets, k, row);
    Unexpected(st, coverage, before, member, stream, sheets, i);
    hide Reads, HoldsAfter, Holds, GoodStream, AddEvent, CoverageOf, CountEvent, AddStream, Positions, Before, At;
    ok, next, counted := false, st, coverage;
    if i == |stream| { return; }
    var expected := (SheetKind(sheets[k].name), Position(sheets[k].index, sheets[k].name, row));
    if !At(stream[i], expected) { return; }
    ok, next, counted := TakeExpected(st, coverage, before, member, stream, sheets, i);
  }

  /** The next event is missing or stands elsewhere: the stream does not cover the schema. */
  lemma Unexpected(st: Rebuilt, coverage: Coverage, before: Contents, member: string, stream: seq<Event>,
                   sheets: seq<Sheet>, i: nat)
    requires Reads(st, coverage, before, member, stream, sheets, i) && i < |Positions(sheets)|
    ensures i <= |stream|
    ensures i == |stream| || !At(stream[i], Positions(sheets)[i]) ==> !GoodStream(before, member, stream, sheets)
  {
  }

  method TakeExpected(st: Rebuilt, coverage: Coverage, ghost before: Contents, member: string, stream: seq<Event>,
                      ghost sheets: seq<Sheet>, i: nat)
    returns (ok: bool, next: Rebuilt, counted: Coverage)
    requires Reads(st, coverage, before, member, stream, sheets, i) && i < |Positions(sheets)|
    requires i < |stream| && At(stream[i], Positions(sheets)[i])
    ensures !ok ==> !GoodStream(before, member, stream, sheets)
    ensures ok ==> Reads(next, counted, before, member, stream, sheets, i + 1)
  {
    AddStreamNext(before, member, stream, i);
    CoverageNext(member, stream, i);
    hide Holds, AddEvent, CoverageOf, CountEvent, AddStream, Positions, At, Covers;
    counted := CountEvent(coverage, stream[i]);
    ok, next := TakeEvent(st, AddStream(before, member, stream[..i]), member, stream[i]);
    if !ok { NotChronological(before, member, stream, i + 1); }
  }

  lemma NotChronological(before: Contents, member: string, stream: seq<Event>, i: nat)
    requires i <= |stream| && !Chronological(RowsOf(AddStream(before, member, stream[..i]).records))
    ensures !Chronological(RowsOf(AddStream(before, member, stream).records))
  {
    StreamGrows(before, member, stream, i);
    hide AddStream, RowsOf, Chronological;
    if Chronological(RowsOf(AddStream(before, member, stream).records)) {
      RowsOfPrefix(AddStream(before, member, stream[..i]).records, AddStream(before, member, stream).records);
    }
  }

  /** One sheet, row by row. */
  method TakeSheet(st: Rebuilt, coverage: Coverage, ghost before: Contents, member: string, stream: seq<Event>,
                   sheets: seq<Sheet>, k: nat, i: nat)
    returns (ok: bool, next: Rebuilt, counted: Coverage, end: nat)
    requires k < |sheets| && i == |Positions(sheets[..k])| && Reads(st, coverage, before, member, stream, sheets, i)
    ensures !ok ==> !GoodStream(before, member, stream, sheets)
    ensures ok ==> end == |Positions(sheets[..k + 1])| && Reads(next, counted, before, member, stream, sheets, end)
  {
    hide Reads, HoldsAfter, Before, Positions, GoodStream;
    PositionsFrom(sheets, k);
    next, counted, end := st, coverage, i;
    var row, last := 2, Max(sheets[k].nrows, 1);
    while row <= sheets[k].nrows
      invariant 2 <= row <= last + 1 && end == Before(sheets, k, row)
      invariant Reads(next, counted, before, member, stream, sheets, end)
    {
      PositionAt(sheets, k, row);
      ok, next, counted := TakeNext(next, counted, before, member, stream, sheets, k, row, end);
      if !ok { return; }
      end, row := end + 1, row + 1;
    }
    ok := true;
  }

  /** The stream, pulled event by event while the loop walks the sheets and their rows. */
  method TakeStream(ghost before: Contents, member: string, stream: seq<Event>, sheets: seq<Sheet>, st: Rebuilt)
    returns (ok: bool, next: Rebuilt, coverage: Coverage)
    requires Holds(st, before)
    ensures ok <==> GoodStream(before, member, stream, sheets)
    ensures ok ==> Holds(next, AddStream(before, member, stream)) && coverage == CoverageOf(member, stream)
  {
    next, coverage := st, Coverage(member, 0, 0, 0);
    ReadsAtStart(st, before, member, stream, sheets);
    var i := 0;
    assert |Positions(sheets[..0])| == 0 && sheets[..|sheets|] == sheets;
    hide Holds, Reads, CoverageOf, AddStream, Positions, GoodStream;
    for k := 0 to |sheets|
      invariant i == |Positions(sheets[..k])| && Reads(next, coverage, before, member, stream, sheets, i)
    {
      ok, next, coverage, i := TakeSheet(next, coverage, before, member, stream, sheets, k, i);
      if !ok { return; }
    }
    ReadsAtEnd(next, coverage, before, member, stream, sheets);
    ReadsInside(next, coverage, before, member, stream, sheets, i);
    ok := i == |stream|;
  }

  lemma ReadsInside(st: Rebuilt, coverage: Coverage, before: Contents, member: string, stream: seq<Event>,
                    sheets: seq<Sheet>, i: nat)
    requires Reads(st, coverage, before, member, stream, sheets, i)
    ensures i <= |stream|
  {
  }

  // ----- All members -----

  predicate HoldsUpTo(s: Sources, st: Rebuilt, coverage: seq<Coverage>, n: nat)
    requires n <= |s.members|
  {
    Readable(s, n) && Holds(st, ContentsOf(s, n)) && coverage == CoverageUpTo(s, n)
  }

  predicate GoodUpTo(s: Sources, n: nat)
    requires n <= |s.members|
  {
    Readable(s, n) && Chronological(RowsOf(ContentsOf(s, n).records))
  }

  method TakeMember(s: Sources, n: nat, st: Rebuilt, coverage: seq<Coverage>)
    returns (ok: bool, next: Rebuilt, more: seq<Coverage>)
    requires n < |s.members| && s.members[n] in s.schemas && HoldsUpTo(s, st, coverage, n)
    ensures ok <==> GoodUpTo(s, n + 1)
    ensures ok ==> HoldsUpTo(s, next, more, n + 1)
  {
    var member := s.members[n];
    ReadableNext(s, n);
    hide Readable, Holds, AddStream, CoverageOf, Covers;
    var loaded := s.load(member);
    if loaded.Failure? { return false, st, coverage; }
    var one;
    ok, next, one := TakeStream(ContentsOf(s, n), member, loaded.value, s.schemas[member], st);
    more := coverage + [one];
  }

  lemma GoodAtAll(s: Sources, n: nat)
    requires n <= |s.members| && GoodUpTo(s, |s.members|)
    ensures GoodUpTo(s, n)
  {
    ContentsGrow(s, n, |s.members|);
    hide ContentsOf, RowsOf, Chronological;
    RowsOfPrefix(ContentsOf(s, n).records, ContentsOf(s, |s.members|).records);
  }

  method TakeMembers(s: Sources) returns (ok: bool, st: Rebuilt, coverage: seq<Coverage>)
    requires ValidSources(s)
    ensures ok <==> GoodUpTo(s, |s.members|)
    ensures ok ==> HoldsUpTo(s, st, coverage, |s.members|)
  {
    st, coverage := Rebuilt([], [], None, [], [], [], []), [];
    var n := 0;
    assert HoldsUpTo(s, st, coverage, n) && GoodUpTo(s, n);
    hide HoldsUpTo, GoodUpTo, ReadableMember;
    while n < |s.members|
      invariant n <= |s.members| && HoldsUpTo(s, st, coverage, n) && GoodUpTo(s, n)
    {
      ok, st, coverage := TakeMember(s, n, st, coverage);
      if !ok {
        assert !GoodUpTo(s, |s.members|) by {
          if GoodUpTo(s, |s.members|) { GoodAtAll(s, n + 1); }
        }
        return;
      }
      n := n + 1;
    }
    ok := true;
  }

  // ----- Joins and cycles, from two dictionaries each -----

  /** Both sides indexed apart: the order of first appearance on the left, then what only the right has. */
  method IndexApart<K(==,!new)>(left: seq<K>, right: seq<K>)
    returns (order: seq<K>, a: map<K, seq<nat>>, b: map<K, seq<nat>>)
    ensures order == FirstSeen(left + right)
    ensures forall k :: Lookup(a, k) == Places(left, k) && Lookup(b, k) == Places(right, k)
  {
    var first, second;
    first, a := Index(left);
    second, b := Index(right);
    order := first + Without(second, first);
    SeenConcat(left, right);
    WithoutFirstSeen(second, left);
  }

  method RebuildJoins(segments: seq<Evidence>, table: seq<Summary>, extras: seq<Extra>)
    returns (joins: seq<Join>, energies: seq<EnergyJoin>)
    requires |extras| == |segments| && forall k | 0 <= k < |extras| :: EnergyKnown(extras[k])
    ensures joins == Joins(segments, table) && energies == EnergyJoins(segments, table, extras)
  {
    var left, right := SegmentKeys(segments), SummaryKeys(table);
    var order, bySegment, bySummary := IndexApart(left, right);
    joins, energies := [], [];
    hide FirstSeen, Places;
    for i := 0 to |order|
      invariant |joins| == i && |energies| == i
      invariant forall j | 0 <= j < i :: joins[j] == JoinOf(segments, table, order[j])
      invariant forall j | 0 <= j < i :: EnergyAt(joins[j], table, extras, energies[j])
    {
      var key := order[i];
      PlacesAreValid(left, key);
      PlacesAreValid(right, key);
      var join, energy := RebuildJoin(segments, table, extras, key, Lookup(bySegment, key), Lookup(bySummary, key));
      joins, energies := joins + [join], energies + [energy];
    }
  }

  predicate EnergyAt(join: Join, table: seq<Summary>, extras: seq<Extra>, energy: EnergyJoin) {
    && ValidIds(join.segments, extras) && ValidIds(join.summaries, table)
    && join.status == StatusOf(join.segments, join.summaries)
    && energy == EnergyOf(join, table, extras)
  }

  method RebuildJoin(segments: seq<Evidence>, table: seq<Summary>, extras: seq<Extra>, key: Key, a: seq<nat>,
                     b: seq<nat>)
    returns (join: Join, energy: EnergyJoin)
    requires |extras| == |segments| && forall k | 0 <= k < |extras| :: EnergyKnown(extras[k])
    requires ValidIds(a, segments) && ValidIds(b, table)
    ensures join == JoinIds(segments, table, key, a, b) && EnergyAt(join, table, extras, energy)
  {
    var comparison: Option<Comparison>, difference: Option<real> := None, None;
    var status;
    if |a| > 1 || |b| > 1 {
      status := Ambiguous;
    } else if a == [] {
      status := SummaryOnly;
    } else if b == [] {
      status := RecordOnly;
    } else {
      status := Unique;
      var segment, row, x := segments[a[0]], table[b[0]], extras[a[0]];
      var first, last := segment.first, segment.last;
      comparison := Some(Comparison(
        row.time - last.time, row.time - last.time + first.time, row.charge - last.charge,
        if row.volts.Some? then Some(row.volts.value.0 - first.voltage) else None,
        if row.volts.Some? then Some(row.volts.value.1 - last.voltage) else None));
      if x.missing == 0 {
        assert EnergyKnown(x);
        difference := Some(row.energy - x.lastEnergy.value);
      }
    }
    join := Join(key, a, b, status, comparison);
    energy := EnergyJoin(key, difference);
  }

  /** The signs, tried in order until one covers the whole segment. */
  method RebuildSigns(segments: seq<Evidence>, ids: seq<nat>) returns (signs: Signs)
    requires ValidIds(ids, segments)
    ensures signs == SignsOf(segments, ids)
  {
    signs := Signs([], [], [], []);
    for k := 0 to |ids|
      invariant signs == SignsOf(segments, ids[..k])
    {
      var e := segments[ids[k]];
      var counts := [e.positive, e.negative, e.zero];
      var sign := 0;
      while sign < 3 && counts[sign] != e.rows
        invariant sign <= 3 && forall j | 0 <= j < sign :: counts[j] != e.rows
      {
        sign := sign + 1;
      }
      assert sign > 0 ==> counts[0] == e.positive != e.rows;
      assert sign > 1 ==> counts[1] == e.negative != e.rows;
      assert sign > 2 ==> counts[2] == e.zero != e.rows;
      assert ids[..k + 1][..k] == ids[..k];
      match sign {
        case 0 => signs := signs.(positive := signs.positive + [ids[k]]);
        case 1 => signs := signs.(negative := signs.negative + [ids[k]]);
        case 2 => signs := signs.(zero := signs.zero + [ids[k]]);
        case _ => signs := signs.(mixed := signs.mixed + [ids[k]]);
      }
    }
    assert ids[..|ids|] == ids;
  }

  method RebuildDifference(segments: seq<Evidence>, ids: seq<nat>, capacity: real) returns (difference: Option<real>)
    requires ValidIds(ids, segments)
    ensures difference == Difference(segments, ids, capacity)
  {
    if ids == [] { return None; }
    var total := 0.0;
    for k := 0 to |ids|
      invariant total == EndpointSum(segments, ids[..k])
    {
      assert ids[..k + 1][..k] == ids[..k];
      total := total + segments[ids[k]].last.charge;
    }
    assert ids[..|ids|] == ids;
    return Some(capacity - total);
  }

  method RebuildObservation(segments: seq<Evidence>, cycles: seq<CycleRow>, cycle: int, a: seq<nat>, b: seq<nat>)
    returns (o: Observation)
    requires ValidIds(a, segments) && ValidIds(b, cycles)
    ensures o == ObservationIds(segments, cycles, cycle, a, b)
  {
    var signs := RebuildSigns(segments, a);
    SignsAreValid(segments, a);
    hide SignsOf, Difference, AllSigns;
    var differences: Option<(Option<real>, Option<real>)> := None;
    if a != [] && |b| == 1 {
      var charge := RebuildDifference(segments, signs.positive, cycles[b[0]].charge);
      var discharge := RebuildDifference(segments, signs.negative, cycles[b[0]].discharge);
      differences := Some((charge, discharge));
    }
    o := Observation(cycle, a, b, signs, differences);
  }

  method RebuildObservations(segments: seq<Evidence>, cycles: seq<CycleRow>) returns (observations: seq<Observation>)
    ensures observations == Observations(segments, cycles)
  {
    var left, right := SegmentCycles(segments), TableCycles(cycles);
    var order, bySegment, byTable := IndexApart(left, right);
    observations := [];
    hide FirstSeen, ObservationIds, Places;
    for i := 0 to |order|
      invariant |observations| == i && forall j | 0 <= j < i ::
                  observations[j] == ObservationOf(segments, cycles, order[j])
    {
      var cycle := order[i];
      PlacesAreValid(left, cycle);
      PlacesAreValid(right, cycle);
      var o := RebuildObservation(segments, cycles, cycle, Lookup(bySegment, cycle), Lookup(byTable, cycle));
      observations := observations + [o];
    }
  }

  /** The joins, energies and cycles of a rebuilt group, once every event is taken. */
  method CompleteRebuild(s: Sources, st: Rebuilt, coverage: seq<Coverage>) returns (g: Group)
    requires Rebuildable(s) && HoldsUpTo(s, st, coverage, |s.members|)
    ensures g == GroupOf(s)
  {
    ghost var c := ContentsOf(s, |s.members|);
    ExtrasMatchSegments(c.records);
    ExtrasKnowEnergy(c.records);
    hide ContentsOf, Segments, Extras, Joins, Observations, CoverageUpTo, EnergyJoins, Chronological;
    var joins, energies := RebuildJoins(st.segments, st.summaries, st.extras);
    var observations := RebuildObservations(st.segments, st.cycles);
    g := Group(
      st.segments, st.summaries, joins, s.members, coverage, st.summaryPlaces, st.extras, energies,
      st.cycles, st.cyclePlaces, observations, st.segments[|st.segments| - 1].key.cycle);
  }

  /** `rebuild`: it succeeds on every readable chronological source and returns the one group result. */
  method Rebuild(s: Sources) returns (r: Result<Group>)
    ensures r.Success? <==> Rebuildable(s)
    ensures r.Success? ==> r.value == GroupOf(s)
    ensures r.Success? ==> Describes(r.value, ContentsOf(s, |s.members|))
  {
    if !ValidSources(s) { return Failure("invalid reference sources"); }
    var ok, st, coverage := TakeMembers(s);
    if !ok { return Failure("reference event coverage or record chronology mismatch"); }
    NoSegments(ContentsOf(s, |s.members|));
    hide ContentsOf, Segments, Extras, CoverageUpTo, Chronological, Describes, GroupOf;
    if st.segments == [] {
      return Failure("reference empty records");
    }
    GroupDescribes(s);
    var g := CompleteRebuild(s, st, coverage);
    return Success(g);
  }

  lemma NoSegments(c: Contents)
    ensures Segments(RowsOf(c.records)) == [] <==> c.records == []
  {
    ExtrasMatchSegments(c.records);
  }

  /** `verify`: a saved value is accepted when it is, field for field, the rebuilt group's JSON form. */
  method Verify(saved: Json, s: Sources, encode: Group -> Json) returns (ok: bool)
    ensures ok <==> Rebuildable(s) && saved == encode(GroupOf(s)) && AllFinite(saved)
  {
    var expected := Rebuild(s);
    if expected.Failure? { return false; }
    EqualIsIdentity(saved, encode(expected.value));
    return Equal(saved, encode(expected.value));
  }

  /** One member with one record row. */
  function OneRecord(row: Row): Sources {
    Sources(["m"], map["m" := [Sheet(0, "record_1", 2)]],
            (m: string) => Success([RecordEvent(Position(0, "record_1", 2), row, None)]))
  }

  lemma OnePosition(sheet: Sheet)
    requires sheet == Sheet(0, "record_1", 2)
    ensures Positions([sheet]) == [(RecordKind, Position(0, "record_1", 2))]
  {
    assert SheetPositions(sheet, 1) == [];
    assert [sheet][..0] == [];
  }

  lemma OneRecordIsReadable(row: Row)
    ensures Readable(OneRecord(row), 1)
  {
    var s := OneRecord(row);
    OnePosition(s.schemas["m"][0]);
    hide Positions;
    assert ReadableMember(s, "m");
  }

  lemma OneRecordContents(row: Row)
    requires Readable(OneRecord(row), 1)
    ensures RowsOf(ContentsOf(OneRecord(row), 1).records) == [row] && ContentsOf(OneRecord(row), 1).summaries == []
  {
    var s := OneRecord(row);
    var stream := s.load("m").value;
    assert stream[..0] == [];
    var c := ContentsOf(s, 0);
    assert ContentsOf(s, 1) == AddStream(c, "m", stream);
    assert AddStream(c, "m", stream) == AddEvent(AddStream(c, "m", []), "m", stream[0]);
  }

  // The rebuild accepts a row with a negative identifier or clock, such as record number -1, that the producer's
  // reducer refuses. No workbook yields such a row: `events` refuses it (ren_target_workbook.py:133-135).
  lemma NegativeNumberIsRebuilt(row: Row)
    requires !Nonnegative(row)
    ensures Rebuildable(OneRecord(row)) && !NothingNegative(OneRecord(row))
    ensures !Nonnegative(Row(Key(0, 0, 0), -1, 0, 0.0, 0.0, 0.0))
  {
    var s := OneRecord(row);
    OneRecordIsReadable(row);
    OneRecordContents(row);
    hide ContentsOf, RowsOf, Readable;
    assert Rebuildable(s);
    assert !Nonnegative(RowsOf(ContentsOf(s, 1).records)[0]);
  }
}
