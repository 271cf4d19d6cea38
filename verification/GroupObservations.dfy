/** What a group of workbooks says, as one function of its events: joins, energies and cycle observations. */
module GroupObservations {
  import opened Basics
  import opened KeyIndex
  import opened StepEvidence

  /** A step summary; the two voltages are present only in the eight-field form. */
  datatype Summary = Summary(key: Key, time: int, charge: real, energy: real, volts: Option<(real, real)>)

  datatype CycleRow = CycleRow(cycle: int, charge: real, discharge: real, energies: Option<(real, real)>)

  predicate NonnegativeSummary(s: Summary) {
    s.key.cycle >= 0 && s.key.step >= 0 && s.time >= 0
  }

  predicate AllNonnegativeSummaries(table: seq<Summary>) {
    forall i | 0 <= i < |table| :: NonnegativeSummary(table[i])
  }

  // ----- Joins of segments and summaries -----

  datatype Status = Ambiguous | SummaryOnly | RecordOnly | Unique

  datatype Comparison = Comparison(
    lastTime: int, elapsed: int, charge: real, firstVoltage: Option<real>, lastVoltage: Option<real>)

  datatype Join = Join(key: Key, segments: seq<nat>, summaries: seq<nat>, status: Status,
                       comparison: Option<Comparison>)

  function SegmentKeys(segments: seq<Evidence>): seq<Key> {
    seq(|segments|, i requires 0 <= i < |segments| => segments[i].key)
  }

  function SummaryKeys(table: seq<Summary>): seq<Key> {
    seq(|table|, i requires 0 <= i < |table| => table[i].key)
  }

  function Compare(e: Evidence, s: Summary): Comparison {
    Comparison(
      s.time - e.last.time, s.time - (e.last.time - e.first.time), s.charge - e.last.charge,
      if s.volts.Some? then Some(s.volts.value.0 - e.first.voltage) else None,
      if s.volts.Some? then Some(s.volts.value.1 - e.last.voltage) else None)
  }

  predicate ValidIds<T>(ids: seq<nat>, table: seq<T>) {
    forall i | 0 <= i < |ids| :: ids[i] < |table|
  }

  function StatusOf(a: seq<nat>, b: seq<nat>): Status {
    if |a| > 1 || |b| > 1 then Ambiguous else if a == [] then SummaryOnly else if b == [] then RecordOnly else Unique
  }

  function JoinIds(segments: seq<Evidence>, table: seq<Summary>, key: Key, a: seq<nat>, b: seq<nat>): Join
    requires ValidIds(a, segments) && ValidIds(b, table)
  {
    Join(key, a, b, StatusOf(a, b),
         if StatusOf(a, b) == Unique then Some(Compare(segments[a[0]], table[b[0]])) else None)
  }

  lemma PlacesAreValid<K>(keys: seq<K>, k: K)
    ensures forall i | 0 <= i < |Places(keys, k)| :: Places(keys, k)[i] < |keys|
  {
    PlacesAreExact(keys, k);
    forall i | 0 <= i < |Places(keys, k)| ensures Places(keys, k)[i] < |keys| {
      assert Places(keys, k)[i] in Places(keys, k);
    }
  }

  /** The join of one key: every position on either side, and a comparison only when both are single. */
  function JoinOf(segments: seq<Evidence>, table: seq<Summary>, key: Key): Join {
    var a, b := Places(SegmentKeys(segments), key), Places(SummaryKeys(table), key);
    PlacesAreValid(SegmentKeys(segments), key);
    PlacesAreValid(SummaryKeys(table), key);
    JoinIds(segments, table, key, a, b)
  }

  function JoinOrder(segments: seq<Evidence>, table: seq<Summary>): seq<Key> {
    FirstSeen(SegmentKeys(segments) + SummaryKeys(table))
  }

  function Joins(segments: seq<Evidence>, table: seq<Summary>): seq<Join> {
    var order := JoinOrder(segments, table);
    seq(|order|, i requires 0 <= i < |order| => JoinOf(segments, table, order[i]))
  }

  /** A join lists exactly the segments and the summaries that have its key. */
  ghost predicate ListsItsKey(join: Join, segments: seq<Evidence>, table: seq<Summary>) {
    && (forall i: nat :: i in join.segments <==> i < |segments| && segments[i].key == join.key)
    && (forall i: nat :: i in join.summaries <==> i < |table| && table[i].key == join.key)
  }

  lemma JoinListsItsKey(segments: seq<Evidence>, table: seq<Summary>, key: Key)
    ensures ListsItsKey(JoinOf(segments, table, key), segments, table)
  {
    PlacesAreExact(SegmentKeys(segments), key);
    PlacesAreExact(SummaryKeys(table), key);
  }

  ghost predicate HasJoin(joins: seq<Join>, key: Key) {
    exists j | 0 <= j < |joins| :: joins[j].key == key
  }

  lemma KeyHasJoin(segments: seq<Evidence>, table: seq<Summary>, key: Key)
    requires key in SegmentKeys(segments) || key in SummaryKeys(table)
    ensures HasJoin(Joins(segments, table), key)
  {
    var keys, order, joins := SegmentKeys(segments) + SummaryKeys(table), JoinOrder(segments, table),
      Joins(segments, table);
    FirstSeenIsDistinct(keys);
    assert key in keys;
    var j :| 0 <= j < |order| && order[j] == key;
    assert joins[j].key == key;
  }

  /** No index is lost or used twice: each one is listed by the one join that has its key. */
  lemma JoinsArePartition(segments: seq<Evidence>, table: seq<Summary>)
    ensures var joins := Joins(segments, table);
            && (forall i, j | 0 <= i < j < |joins| :: joins[i].key != joins[j].key)
            && (forall j | 0 <= j < |joins| :: ListsItsKey(joins[j], segments, table))
            && (forall i | 0 <= i < |segments| :: HasJoin(joins, segments[i].key))
            && (forall i | 0 <= i < |table| :: HasJoin(joins, table[i].key))
  {
    var joins, order := Joins(segments, table), JoinOrder(segments, table);
    FirstSeenIsDistinct(SegmentKeys(segments) + SummaryKeys(table));
    assert forall j | 0 <= j < |joins| :: joins[j].key == order[j];
    forall j | 0 <= j < |joins| ensures ListsItsKey(joins[j], segments, table) {
      JoinListsItsKey(segments, table, order[j]);
    }
    hide JoinOf, FirstSeen, Joins, JoinOrder, HasJoin, ListsItsKey;
    forall i | 0 <= i < |segments| ensures HasJoin(joins, segments[i].key) {
      assert SegmentKeys(segments)[i] == segments[i].key;
      KeyHasJoin(segments, table, segments[i].key);
    }
    forall i | 0 <= i < |table| ensures HasJoin(joins, table[i].key) {
      assert SummaryKeys(table)[i] == table[i].key;
      KeyHasJoin(segments, table, table[i].key);
    }
  }

  // ----- Energy -----

  datatype Location = Location(member: string, sheet: int, name: string, row: int)

  /** A record row with where it was read and its energy, when its sheet has the column. */
  datatype Located = Located(place: Location, row: Row, energy: Option<real>)

  /** The part of a segment that the reducer does not see: its source positions and its energy column. */
  datatype Extra = Extra(key: Key, first: Location, last: Location, rows: nat, firstEnergy: Option<real>,
                         lastEnergy: Option<real>, missing: nat)

  function BeginExtra(r: Located): Extra {
    Extra(r.row.key, r.place, r.place, 1, r.energy, r.energy, Int(r.energy.None?))
  }

  function GrowExtra(x: Extra, r: Located): Extra {
    x.(last := r.place, lastEnergy := r.energy, rows := x.rows + 1, missing := x.missing + Int(r.energy.None?))
  }

  function AddExtra(extras: seq<Extra>, starts: bool, r: Located): seq<Extra>
    requires extras != [] || starts
  {
    if starts then extras + [BeginExtra(r)] else extras[..|extras| - 1] + [GrowExtra(extras[|extras| - 1], r)]
  }

  function RowsOf(records: seq<Located>): (rows: seq<Row>)
    ensures |rows| == |records|
    ensures records != [] ==> rows[|rows| - 1] == records[|records| - 1].row
  {
    seq(|records|, i requires 0 <= i < |records| => records[i].row)
  }

  lemma RowsNext(records: seq<Located>, r: Located)
    ensures RowsOf(records + [r]) == RowsOf(records) + [r.row]
  {
  }

  function Extras(records: seq<Located>): (x: seq<Extra>)
    ensures records != [] ==> x != []
  {
    if records == [] then []
    else
      var init, r := records[..|records| - 1], records[|records| - 1];
      AddExtra(Extras(init), Starts(RowsOf(init), r.row), r)
  }

  lemma ExtrasNext(records: seq<Located>, r: Located)
    ensures Extras(records + [r]) == AddExtra(Extras(records), Starts(RowsOf(records), r.row), r)
  {
    assert (records + [r])[..|records|] == records;
  }

  predicate Matched(segments: seq<Evidence>, extras: seq<Extra>) {
    && |segments| == |extras|
    && forall k | 0 <= k < |segments| :: segments[k].key == extras[k].key && segments[k].rows == extras[k].rows
  }

  lemma MatchedNext(segments: seq<Evidence>, extras: seq<Extra>, starts: bool, r: Located)
    requires Matched(segments, extras) && (segments != [] || starts)
    ensures Matched(AddRow(segments, starts, r.row), AddExtra(extras, starts, r))
  {
  }

  /** Segments and extras are built apart and always match, so the producer's mismatch checks never fire. */
  lemma {:induction false} ExtrasMatchSegments(records: seq<Located>)
    ensures Matched(Segments(RowsOf(records)), Extras(records))
  {
    if records != [] {
      var init, r := records[..|records| - 1], records[|records| - 1];
      ExtrasMatchSegments(init);
      assert records == init + [r];
      RowsNext(init, r);
      SegmentsNext(RowsOf(init), r.row);
      ExtrasNext(init, r);
      hide Segments, Extras, Matched, RowsOf;
      MatchedNext(Segments(RowsOf(init)), Extras(init), Starts(RowsOf(init), r.row), r);
    }
  }

  predicate EnergyKnown(x: Extra) {
    x.missing == 0 ==> x.lastEnergy.Some?
  }

  /** A segment without missing energies ends with an energy. */
  lemma {:induction false} ExtrasKnowEnergy(records: seq<Located>)
    ensures forall k | 0 <= k < |Extras(records)| :: EnergyKnown(Extras(records)[k])
  {
    if records != [] {
      ExtrasKnowEnergy(records[..|records| - 1]);
      hide RowsOf;
    }
  }

  datatype EnergyJoin = EnergyJoin(key: Key, difference: Option<real>)

  /** Compared only for a unique key all of whose rows carry energy. */
  function EnergyOf(join: Join, table: seq<Summary>, extras: seq<Extra>): EnergyJoin
    requires ValidIds(join.segments, extras) && ValidIds(join.summaries, table)
    requires join.status == StatusOf(join.segments, join.summaries)
  {
    EnergyJoin(join.key,
      if join.status == Unique && extras[join.segments[0]].missing == 0 && extras[join.segments[0]].lastEnergy.Some?
      then Some(table[join.summaries[0]].energy - extras[join.segments[0]].lastEnergy.value)
      else None)
  }

  function EnergyJoins(segments: seq<Evidence>, table: seq<Summary>, extras: seq<Extra>): seq<EnergyJoin>
    requires |extras| == |segments|
  {
    var joins := Joins(segments, table);
    JoinIdsAreValid(segments, table);
    seq(|joins|, i requires 0 <= i < |joins| => EnergyOf(joins[i], table, extras))
  }

  lemma JoinIdsAreValid(segments: seq<Evidence>, table: seq<Summary>)
    ensures forall j | 0 <= j < |Joins(segments, table)| ::
              var join := Joins(segments, table)[j];
              ValidIds(join.segments, segments) && ValidIds(join.summaries, table)
              && join.status == StatusOf(join.segments, join.summaries)
  {
    forall j | 0 <= j < |Joins(segments, table)|
      ensures var join := Joins(segments, table)[j];
              ValidIds(join.segments, segments) && ValidIds(join.summaries, table)
              && join.status == StatusOf(join.segments, join.summaries)
    {
      var key := Joins(segments, table)[j].key;
      PlacesAreValid(SegmentKeys(segments), key);
      PlacesAreValid(SummaryKeys(table), key);
    }
  }

  // ----- Cycles -----

  /** The segments of a cycle, by the sign all of their currents have. */
  datatype Signs = Signs(positive: seq<nat>, negative: seq<nat>, zero: seq<nat>, mixed: seq<nat>)

  datatype Observation = Observation(
    cycle: int, segments: seq<nat>, summaries: seq<nat>, signs: Signs,
      differences: Option<(Option<real>, Option<real>)>)

  function AddSign(signs: Signs, e: Evidence, i: nat): Signs {
    if e.positive == e.rows then signs.(positive := signs.positive + [i])
    else if e.negative == e.rows then signs.(negative := signs.negative + [i])
    else if e.zero == e.rows then signs.(zero := signs.zero + [i])
    else signs.(mixed := signs.mixed + [i])
  }

  function SignsOf(segments: seq<Evidence>, ids: seq<nat>): Signs
    requires ValidIds(ids, segments)
  {
    if ids == [] then Signs([], [], [], [])
    else
      var init, i := ids[..|ids| - 1], ids[|ids| - 1];
      AddSign(SignsOf(segments, init), segments[i], i)
  }

  /** The sum of the capacities at the ends of the segments. */
  function EndpointSum(segments: seq<Evidence>, ids: seq<nat>): real
    requires ValidIds(ids, segments)
  {
    if ids == [] then 0.0 else EndpointSum(segments, ids[..|ids| - 1]) + segments[ids[|ids| - 1]].last.charge
  }

  function AllSigns(signs: Signs): multiset<nat> {
    multiset(signs.positive) + multiset(signs.negative) + multiset(signs.zero) + multiset(signs.mixed)
  }

  lemma PushCounts(ids: seq<nat>, i: nat)
    ensures multiset(ids + [i]) == multiset(ids) + multiset{i}
  {
  }

  lemma AddSignKeeps(signs: Signs, e: Evidence, i: nat)
    ensures AllSigns(AddSign(signs, e, i)) == AllSigns(signs) + multiset{i}
  {
    PushCounts(signs.positive, i);
    PushCounts(signs.negative, i);
    PushCounts(signs.zero, i);
    PushCounts(signs.mixed, i);
  }

  lemma PushValid(segments: seq<Evidence>, ids: seq<nat>, i: nat)
    requires ValidIds(ids, segments) && i < |segments|
    ensures ValidIds(ids + [i], segments)
  {
  }

  predicate ValidSigns(signs: Signs, segments: seq<Evidence>) {
    ValidIds(signs.positive, segments) && ValidIds(signs.negative, segments)
  }

  /** Every segment of the cycle falls in exactly one class. */
  lemma {:induction false} SignsAreValid(segments: seq<Evidence>, ids: seq<nat>)
    requires ValidIds(ids, segments)
    ensures ValidSigns(SignsOf(segments, ids), segments)
    ensures AllSigns(SignsOf(segments, ids)) == multiset(ids)
  {
    if ids != [] {
      var init, i := ids[..|ids| - 1], ids[|ids| - 1];
      SignsAreValid(segments, init);
      var signs := SignsOf(segments, init);
      AddSignKeeps(signs, segments[i], i);
      PushValid(segments, signs.positive, i);
      PushValid(segments, signs.negative, i);
      assert ids == init + [i];
      assert SignsOf(segments, ids) == AddSign(signs, segments[i], i);
      hide AllSigns, ValidIds, SignsOf;
    }
  }

  function Difference(segments: seq<Evidence>, ids: seq<nat>, capacity: real): Option<real>
    requires ValidIds(ids, segments)
  {
    if ids == [] then None else Some(capacity - EndpointSum(segments, ids))
  }

  function ObservationIds(segments: seq<Evidence>, cycles: seq<CycleRow>, cycle: int, a: seq<nat>,
                          b: seq<nat>): Observation
    requires ValidIds(a, segments) && ValidIds(b, cycles)
  {
    var signs := SignsOf(segments, a);
    SignsAreValid(segments, a);
    Observation(cycle, a, b, signs,
      if |b| == 1 && a != [] then
        Some((Difference(segments, signs.positive, cycles[b[0]].charge),
              Difference(segments, signs.negative, cycles[b[0]].discharge)))
      else None)
  }

  function SegmentCycles(segments: seq<Evidence>): seq<int> {
    seq(|segments|, i requires 0 <= i < |segments| => segments[i].key.cycle)
  }

  function TableCycles(cycles: seq<CycleRow>): seq<int> {
    seq(|cycles|, i requires 0 <= i < |cycles| => cycles[i].cycle)
  }

  function ObservationOf(segments: seq<Evidence>, cycles: seq<CycleRow>, cycle: int): Observation {
    PlacesAreValid(SegmentCycles(segments), cycle);
    PlacesAreValid(TableCycles(cycles), cycle);
    ObservationIds(segments, cycles, cycle, Places(SegmentCycles(segments), cycle), Places(TableCycles(cycles), cycle))
  }

  function CycleOrder(segments: seq<Evidence>, cycles: seq<CycleRow>): seq<int> {
    FirstSeen(SegmentCycles(segments) + TableCycles(cycles))
  }

  function Observations(segments: seq<Evidence>, cycles: seq<CycleRow>): seq<Observation> {
    var order := CycleOrder(segments, cycles);
    seq(|order|, i requires 0 <= i < |order| => ObservationOf(segments, cycles, order[i]))
  }
}
