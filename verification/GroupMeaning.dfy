// What a group result says about the rows it was made from: segments, joins, energies and cycle observations, each
// stated on the runs of the records, the step summaries and the cycle rows.
module GroupMeaning {
  import opened Basics
  import opened KeyIndex
  import opened StepEvidence
  import opened GroupObservations
  import opened GroupEvents

  // ----- The runs of the records, with their source positions and energies -----

  function AddToParts(parts: seq<seq<Located>>, starts: bool, r: Located): seq<seq<Located>>
    requires parts != [] || starts
  {
    if starts then parts + [[r]] else parts[..|parts| - 1] + [parts[|parts| - 1] + [r]]
  }

  /** The records cut where the key changes. */
  function Parts(records: seq<Located>): (parts: seq<seq<Located>>)
    ensures records != [] ==> parts != []
  {
    if records == [] then []
    else
      var init, r := records[..|records| - 1], records[|records| - 1];
      AddToParts(Parts(init), Starts(RowsOf(init), r.row), r)
  }

  function RunsOf(parts: seq<seq<Located>>): seq<seq<Row>> {
    seq(|parts|, k requires 0 <= k < |parts| => RowsOf(parts[k]))
  }

  lemma RunsOfNext(parts: seq<seq<Located>>, starts: bool, r: Located)
    requires parts != [] || starts
    ensures RunsOf(AddToParts(parts, starts, r)) == AddToRuns(RunsOf(parts), starts, r.row)
    ensures Flatten(AddToParts(parts, starts, r)) == Flatten(parts) + [r]
  {
    var after := AddToParts(parts, starts, r);
    assert after[..|after| - 1] == if starts then parts else parts[..|parts| - 1];
    if starts {
      assert RowsOf([r]) == [r.row];
    } else {
      RowsNext(parts[|parts| - 1], r);
      assert Flatten(parts[..|parts| - 1]) + (parts[|parts| - 1] + [r]) == Flatten(parts) + [r];
    }
    assert RunsOf(after) == AddToRuns(RunsOf(parts), starts, r.row);
  }

  /** The parts are the records, and their rows are the runs: cut exactly where the key changes. */
  lemma {:induction false} PartsAreRuns(records: seq<Located>)
    ensures Flatten(Parts(records)) == records && RunsOf(Parts(records)) == Runs(RowsOf(records))
    ensures Cut(RowsOf(records), RunsOf(Parts(records)))
  {
    RunsAreMaximal(RowsOf(records));
    hide Cut;
    if records != [] {
      var init, r := records[..|records| - 1], records[|records| - 1];
      PartsAreRuns(init);
      RunsOfNext(Parts(init), Starts(RowsOf(init), r.row), r);
      assert records == init + [r];
      RowsNext(init, r);
      assert (RowsOf(init) + [r.row])[..|init|] == RowsOf(init);
    }
  }

  // ----- What each part of the result says -----

  predicate Unmetered(r: Located) { r.energy.None? }

  /** The source positions and the energies at the ends of a run, and how many of its rows have no energy. */
  predicate ExtraDescribes(x: Extra, part: seq<Located>) {
    && part != [] && x.key == part[0].row.key && x.rows == |part|
    && x.first == part[0].place && x.last == part[|part| - 1].place
    && x.firstEnergy == part[0].energy && x.lastEnergy == part[|part| - 1].energy
    && x.missing == CountIf(part, Unmetered)
  }

  ghost predicate ExtrasDescribe(extras: seq<Extra>, parts: seq<seq<Located>>) {
    |extras| == |parts| && forall k | 0 <= k < |parts| :: ExtraDescribes(extras[k], parts[k])
  }

  predicate Increasing(ids: seq<nat>) {
    forall a, b | 0 <= a < b < |ids| :: ids[a] < ids[b]
  }

  /** What the summary says beyond the last row of the run: at the end, and since the first row. */
  predicate Compares(c: Comparison, part: seq<Located>, s: Summary)
    requires part != []
  {
    var first, last := part[0].row, part[|part| - 1].row;
    && c.lastTime == s.time - last.time
    && c.elapsed == s.time - (last.time - first.time)
    && c.charge == s.charge - last.charge
    && match s.volts
       case None => c.firstVoltage.None? && c.lastVoltage.None?
       case Some((v, w)) => c.firstVoltage == Some(v - first.voltage) && c.lastVoltage == Some(w - last.voltage)
  }

  // A join lists the runs and the summaries of its key; it is unique when there is one of each, ambiguous when there
  // are more on some side, and compared exactly when it is unique.
  ghost predicate JoinDescribes(join: Join, parts: seq<seq<Located>>, table: seq<Summary>) {
    && (forall k: nat :: k in join.segments <==> k < |parts| && parts[k] != [] && parts[k][0].row.key == join.key)
    && (forall k: nat :: k in join.summaries <==> k < |table| && table[k].key == join.key)
    && Increasing(join.segments) && Increasing(join.summaries)
    && (join.status == Unique <==> |join.segments| == 1 && |join.summaries| == 1)
    && (join.status == Ambiguous <==> |join.segments| > 1 || |join.summaries| > 1)
    && (join.status == SummaryOnly <==> |join.segments| == 0 && |join.summaries| <= 1)
    && (join.status == RecordOnly <==> |join.segments| == 1 && |join.summaries| == 0)
    && (join.comparison.Some? <==> join.status == Unique)
    && forall k, i | k in join.segments && i in join.summaries && join.status == Unique ::
         Compares(join.comparison.value, parts[k], table[i])
  }

  /** Every row of the run of a join has an energy. */
  predicate Metered(join: Join, parts: seq<seq<Located>>) {
    forall k, r | k in join.segments && k < |parts| && r in parts[k] :: r.energy.Some?
  }

  /** Compared exactly when the key is unique and every row of its run has an energy: the summary less the last row. */
  predicate EnergyDescribes(e: EnergyJoin, join: Join, parts: seq<seq<Located>>, table: seq<Summary>) {
    && e.key == join.key
    && (e.difference.Some? <==> join.status == Unique && Metered(join, parts))
    && forall k, i | e.difference.Some? && k in join.segments && i in join.summaries ::
         && k < |parts| && parts[k] != [] && i < |table| && parts[k][|parts[k]| - 1].energy.Some?
         && e.difference.value == table[i].energy - parts[k][|parts[k]| - 1].energy.value
  }

  predicate Charging(part: seq<Located>) { forall r | r in part :: r.row.current > 0.0 }

  predicate Discharging(part: seq<Located>) { forall r | r in part :: r.row.current < 0.0 }

  predicate Resting(part: seq<Located>) { forall r | r in part :: r.row.current == 0.0 }

  /** The sum of the charges of the last rows of some runs. */
  function EndCharges(parts: seq<seq<Located>>, ids: seq<nat>): real
    requires forall i | 0 <= i < |ids| :: ids[i] < |parts| && parts[ids[i]] != []
  {
    if ids == [] then 0.0
    else
      var part := parts[ids[|ids| - 1]];
      EndCharges(parts, ids[..|ids| - 1]) + part[|part| - 1].row.charge
  }

  /** A capacity less the charges at the ends of some runs, if there are any. */
  predicate Balances(difference: Option<real>, capacity: real, parts: seq<seq<Located>>, ids: seq<nat>) {
    && (difference.Some? <==> ids != [])
    && (forall i | 0 <= i < |ids| :: ids[i] < |parts| && parts[ids[i]] != [])
    && (ids != [] ==> difference.value == capacity - EndCharges(parts, ids))
  }

  // A cycle's runs by the sign that all their currents have, or as mixed; and its one cycle row, if there is one and
  // there are runs, with the charge against the charging runs and the discharge against the discharging ones.
  ghost predicate ObservationDescribes(o: Observation, parts: seq<seq<Located>>, cycles: seq<CycleRow>) {
    && (forall k: nat :: k in o.segments <==> k < |parts| && parts[k] != [] && parts[k][0].row.key.cycle == o.cycle)
    && (forall k: nat :: k in o.summaries <==> k < |cycles| && cycles[k].cycle == o.cycle)
    && Increasing(o.segments) && Increasing(o.summaries)
    && (forall k :: k in o.signs.positive <==> k in o.segments && Charging(parts[k]))
    && (forall k :: k in o.signs.negative <==> k in o.segments && Discharging(parts[k]))
    && (forall k :: k in o.signs.zero <==> k in o.segments && Resting(parts[k]))
    && (forall k :: k in o.signs.mixed <==> k in o.segments && !Charging(parts[k]) && !Discharging(parts[k])
                                            && !Resting(parts[k]))
    && Increasing(o.signs.positive) && Increasing(o.signs.negative)
    && Increasing(o.signs.zero) && Increasing(o.signs.mixed)
    && (o.differences.Some? <==> |o.summaries| == 1 && o.segments != [])
    && forall i | i in o.summaries && o.differences.Some? ::
         && Balances(o.differences.value.0, cycles[i].charge, parts, o.signs.positive)
         && Balances(o.differences.value.1, cycles[i].discharge, parts, o.signs.negative)
  }

  // ----- The whole result -----

  /** The runs of the records, with their positions and energies. */
  ghost predicate DescribesRuns(g: Group, c: Contents) {
    var parts := Parts(c.records);
    && TellsRuns(g.segments, RunsOf(parts))
    && ExtrasDescribe(g.extras, parts)
    && c.records != [] && g.lastCycle == c.records[|c.records| - 1].row.key.cycle
  }

  /** The summaries, and their joins with the runs. */
  ghost predicate DescribesJoins(g: Group, c: Contents) {
    var parts := Parts(c.records);
    && g.summaries == c.summaries && g.summaryPlaces == c.summaryPlaces
    && JoinsDescribe(g.joins, parts, c.summaries)
    && |g.energyJoins| == |g.joins|
    && (forall j | 0 <= j < |g.joins| :: EnergyDescribes(g.energyJoins[j], g.joins[j], parts, c.summaries))
  }

  /** The cycle rows, and what they say of the runs. */
  ghost predicate DescribesCycles(g: Group, c: Contents) {
    && g.cycles == c.cycles && g.cyclePlaces == c.cyclePlaces
    && ObservationsDescribe(g.observations, Parts(c.records), c.cycles)
  }

  /** Every event of the contents, as the group result tells it. */
  ghost predicate Describes(g: Group, c: Contents) {
    DescribesRuns(g, c) && DescribesJoins(g, c) && DescribesCycles(g, c)
  }

  /** One join for every key of a run or a summary, in order of first appearance, runs first. */
  ghost predicate JoinsDescribe(joins: seq<Join>, parts: seq<seq<Located>>, table: seq<Summary>) {
    && (forall k | 0 <= k < |parts| :: parts[k] != [])
    && (forall j | 0 <= j < |joins| :: JoinDescribes(joins[j], parts, table))
    && OneEach(KeysOf(parts) + SummaryKeys(table), seq(|joins|, j requires 0 <= j < |joins| => joins[j].key))
  }

  /** One observation for every cycle of a run or a cycle row, in order of first appearance, runs first. */
  ghost predicate ObservationsDescribe(observations: seq<Observation>, parts: seq<seq<Located>>,
                                       cycles: seq<CycleRow>) {
    && (forall k | 0 <= k < |parts| :: parts[k] != [])
    && (forall j | 0 <= j < |observations| :: ObservationDescribes(observations[j], parts, cycles))
    && OneEach(CyclesOf(parts) + TableCycles(cycles),
               seq(|observations|, j requires 0 <= j < |observations| => observations[j].cycle))
  }

  /** The keys, each once, in the order in which they first appear. */
  ghost predicate OneEach<K(!new)>(keys: seq<K>, listed: seq<K>) {
    && (forall k :: k in listed <==> k in keys)
    && (forall i, j | 0 <= i < j < |listed| :: listed[i] != listed[j])
    && (forall i, j | 0 <= i < j < |listed| :: Earlier(keys, listed[i], listed[j]))
  }

  /** The keys of the runs. */
  function KeysOf(parts: seq<seq<Located>>): seq<Key>
    requires forall k | 0 <= k < |parts| :: parts[k] != []
  {
    seq(|parts|, k requires 0 <= k < |parts| => parts[k][0].row.key)
  }

  /** The cycles of the runs. */
  function CyclesOf(parts: seq<seq<Located>>): seq<int>
    requires forall k | 0 <= k < |parts| :: parts[k] != []
  {
    seq(|parts|, k requires 0 <= k < |parts| => parts[k][0].row.key.cycle)
  }

  // ----- Segments and extras -----

  lemma ExtraBegins(r: Located)
    ensures ExtraDescribes(BeginExtra(r), [r])
  {
    assert [r][..0] == [];
  }

  lemma ExtraGrows(x: Extra, part: seq<Located>, r: Located)
    requires ExtraDescribes(x, part)
    ensures ExtraDescribes(GrowExtra(x, r), part + [r])
  {
    assert (part + [r])[..|part|] == part;
  }

  lemma ExtrasDescribeNext(extras: seq<Extra>, parts: seq<seq<Located>>, starts: bool, r: Located)
    requires ExtrasDescribe(extras, parts) && (parts != [] || starts)
    ensures ExtrasDescribe(AddExtra(extras, starts, r), AddToParts(parts, starts, r))
  {
    ExtraBegins(r);
    if !starts {
      ExtraGrows(extras[|extras| - 1], parts[|parts| - 1], r);
    }
    hide ExtraDescribes, BeginExtra, GrowExtra;
  }

  lemma {:induction false} ExtrasDescribeParts(records: seq<Located>)
    ensures ExtrasDescribe(Extras(records), Parts(records))
  {
    if records != [] {
      var init, r := records[..|records| - 1], records[|records| - 1];
      ExtrasDescribeParts(init);
      hide ExtrasDescribe, AddExtra, AddToParts;
      ExtrasDescribeNext(Extras(init), Parts(init), Starts(RowsOf(init), r.row), r);
    }
  }

  /** What joins and observations read of a segment, on its run. */
  predicate Linked(e: Evidence, part: seq<Located>) {
    && part != [] && e.first == part[0].row && e.last == part[|part| - 1].row && e.key == part[0].row.key
    && (e.positive == e.rows <==> Charging(part)) && (e.negative == e.rows <==> Discharging(part))
    && (e.zero == e.rows <==> Resting(part))
  }

  predicate AllLinked(segments: seq<Evidence>, parts: seq<seq<Located>>) {
    |segments| == |parts| && forall k | 0 <= k < |parts| :: Linked(segments[k], parts[k])
  }

  lemma SummaryLinks(e: Evidence, part: seq<Located>)
    requires Summarises(e, RowsOf(part))
    ensures Linked(e, part)
  {
    var run := RowsOf(part);
    CountIfAll(run, IsPositive);
    CountIfAll(run, IsNegative);
    CountIfAll(run, IsZero);
    hide CountIf, CountPairs;
    assert forall i | 0 <= i < |part| :: run[i] == part[i].row;
    assert Charging(part) <==> forall i | 0 <= i < |run| :: IsPositive(run[i]);
    assert Discharging(part) <==> forall i | 0 <= i < |run| :: IsNegative(run[i]);
    assert Resting(part) <==> forall i | 0 <= i < |run| :: IsZero(run[i]);
  }

  lemma SegmentsLink(records: seq<Located>)
    ensures TellsRuns(Segments(RowsOf(records)), RunsOf(Parts(records)))
    ensures AllLinked(Segments(RowsOf(records)), Parts(records))
  {
    SegmentsTellRuns(RowsOf(records));
    PartsAreRuns(records);
    var segments, parts := Segments(RowsOf(records)), Parts(records);
    hide Segments, Parts, Linked, Summarises, Cut, Runs, CountsSigns, CountsChanges;
    forall k | 0 <= k < |parts|
      ensures Linked(segments[k], parts[k])
    {
      assert RunsOf(parts)[k] == RowsOf(parts[k]);
      SummaryLinks(segments[k], parts[k]);
    }
  }

  // ----- Joins and energies -----

  lemma JoinIsDescribed(segments: seq<Evidence>, parts: seq<seq<Located>>, table: seq<Summary>, key: Key)
    requires AllLinked(segments, parts)
    ensures JoinDescribes(JoinOf(segments, table, key), parts, table)
  {
    var join := JoinOf(segments, table, key);
    PlacesAreExact(SegmentKeys(segments), key);
    PlacesAreExact(SummaryKeys(table), key);
    hide Places, Charging, Discharging, Resting;
    JoinListsItsKey(segments, table, key);
    if join.status == Unique {
      assert join.segments[0] in join.segments && join.summaries[0] in join.summaries;
    }
  }

  lemma KeysAgree(segments: seq<Evidence>, parts: seq<seq<Located>>)
    requires AllLinked(segments, parts)
    ensures forall k | 0 <= k < |parts| :: parts[k] != []
    ensures SegmentKeys(segments) == KeysOf(parts) && SegmentCycles(segments) == CyclesOf(parts)
  {
    hide Charging, Discharging, Resting;
    assert forall k | 0 <= k < |parts| :: Linked(segments[k], parts[k]);
  }

  lemma OrderIsOneEach<K(!new)>(keys: seq<K>)
    ensures OneEach(keys, FirstSeen(keys))
  {
    FirstSeenIsDistinct(keys);
    FirstSeenIsInOrder(keys);
  }

  lemma JoinsAreDescribed(segments: seq<Evidence>, parts: seq<seq<Located>>, table: seq<Summary>)
    requires AllLinked(segments, parts)
    ensures JoinsDescribe(Joins(segments, table), parts, table)
  {
    var joins, order := Joins(segments, table), JoinOrder(segments, table);
    KeysAgree(segments, parts);
    OrderIsOneEach(KeysOf(parts) + SummaryKeys(table));
    hide AllLinked, JoinOf, JoinDescribes, OneEach, FirstSeen;
    forall j | 0 <= j < |joins|
      ensures JoinDescribes(joins[j], parts, table) && joins[j].key == order[j]
    {
      JoinIsDescribed(segments, parts, table, order[j]);
      JoinHasKey(segments, table, order[j]);
    }
    assert seq(|joins|, j requires 0 <= j < |joins| => joins[j].key) == order;
  }

  lemma JoinHasKey(segments: seq<Evidence>, table: seq<Summary>, key: Key)
    ensures JoinOf(segments, table, key).key == key
  {
  }

  lemma MissingMeans(x: Extra, part: seq<Located>)
    requires ExtraDescribes(x, part)
    ensures x.missing == 0 <==> forall r | r in part :: r.energy.Some?
    ensures x.missing == 0 ==> x.lastEnergy.Some? && part[|part| - 1].energy == x.lastEnergy
  {
    CountIfNone(part, Unmetered);
    hide CountIf;
    assert forall i | 0 <= i < |part| :: Unmetered(part[i]) <==> part[i].energy.None?;
    assert part[|part| - 1] in part;
  }

  lemma EnergyIsDescribed(join: Join, parts: seq<seq<Located>>, table: seq<Summary>, extras: seq<Extra>)
    requires JoinDescribes(join, parts, table) && ExtrasDescribe(extras, parts)
    requires ValidIds(join.segments, extras) && ValidIds(join.summaries, table)
    requires join.status == StatusOf(join.segments, join.summaries)
    ensures EnergyDescribes(EnergyOf(join, table, extras), join, parts, table)
  {
    hide Compares, Increasing, ExtraDescribes;
    if join.status == Unique {
      var k := join.segments[0];
      assert join.segments == [k] && join.summaries == [join.summaries[0]];
      assert ExtraDescribes(extras[k], parts[k]);
      MissingMeans(extras[k], parts[k]);
    }
  }

  lemma EnergiesAreDescribed(segments: seq<Evidence>, parts: seq<seq<Located>>, table: seq<Summary>,
                             extras: seq<Extra>)
    requires AllLinked(segments, parts) && ExtrasDescribe(extras, parts)
    ensures var joins, energies := Joins(segments, table), EnergyJoins(segments, table, extras);
            |energies| == |joins|
            && forall j | 0 <= j < |joins| :: EnergyDescribes(energies[j], joins[j], parts, table)
  {
    var joins, energies := Joins(segments, table), EnergyJoins(segments, table, extras);
    JoinsAreDescribed(segments, parts, table);
    JoinIdsAreValid(segments, table);
    hide AllLinked, Joins, EnergyOf, ExtrasDescribe, JoinDescribes, EnergyDescribes, StatusOf, OneEach;
    forall j | 0 <= j < |joins|
      ensures EnergyDescribes(energies[j], joins[j], parts, table)
    {
      EnergyIsDescribed(joins[j], parts, table, extras);
    }
  }

  // ----- Cycles -----

  lemma PushIncreasing(some: seq<nat>, ids: seq<nat>, i: nat)
    requires Increasing(some) && Increasing(ids + [i]) && forall k | k in some :: k in ids
    ensures Increasing(some + [i])
  {
    var more := ids + [i];
    forall a | 0 <= a < |some|
      ensures some[a] < i
    {
      assert some[a] in some;
      var b :| 0 <= b < |ids| && ids[b] == some[a];
      assert more[b] < more[|ids|];
    }
  }

  lemma OneSign(part: seq<Located>)
    requires part != []
    ensures !(Charging(part) && Discharging(part)) && !(Charging(part) && Resting(part))
    ensures !(Discharging(part) && Resting(part))
  {
    assert part[0] in part;
  }

  /** The four classes of some runs. */
  ghost predicate Classes(signs: Signs, ids: seq<nat>, parts: seq<seq<Located>>) {
    && ValidIds(ids, parts)
    && (forall k :: k in signs.positive <==> k in ids && Charging(parts[k]))
    && (forall k :: k in signs.negative <==> k in ids && Discharging(parts[k]))
    && (forall k :: k in signs.zero <==> k in ids && Resting(parts[k]))
    && (forall k :: k in signs.mixed <==> k in ids && !Charging(parts[k]) && !Discharging(parts[k])
                                          && !Resting(parts[k]))
    && Increasing(signs.positive) && Increasing(signs.negative) && Increasing(signs.zero) && Increasing(signs.mixed)
  }

  lemma ClassesNext(signs: Signs, ids: seq<nat>, parts: seq<seq<Located>>, e: Evidence, i: nat)
    requires Classes(signs, ids, parts) && i < |parts| && Linked(e, parts[i]) && Increasing(ids + [i])
    ensures Classes(AddSign(signs, e, i), ids + [i], parts)
  {
    OneSign(parts[i]);
    PushIncreasing(signs.positive, ids, i);
    PushIncreasing(signs.negative, ids, i);
    PushIncreasing(signs.zero, ids, i);
    PushIncreasing(signs.mixed, ids, i);
    hide Charging, Discharging, Resting, Increasing;
    assert forall k :: k in ids + [i] <==> k in ids || k == i;
  }

  lemma {:induction false} SignsAreDescribed(segments: seq<Evidence>, parts: seq<seq<Located>>, ids: seq<nat>)
    requires AllLinked(segments, parts) && ValidIds(ids, segments) && Increasing(ids)
    ensures Classes(SignsOf(segments, ids), ids, parts)
  {
    if ids != [] {
      var init, i := ids[..|ids| - 1], ids[|ids| - 1];
      assert ids == init + [i] && Linked(segments[i], parts[i]);
      SignsAreDescribed(segments, parts, init);
      hide Classes, AddSign, Linked, Increasing;
      ClassesNext(SignsOf(segments, init), init, parts, segments[i], i);
    }
  }

  lemma {:induction false} EndpointsAreCharges(segments: seq<Evidence>, parts: seq<seq<Located>>, ids: seq<nat>)
    requires AllLinked(segments, parts) && ValidIds(ids, segments)
    ensures forall i | 0 <= i < |ids| :: ids[i] < |parts| && parts[ids[i]] != []
    ensures EndpointSum(segments, ids) == EndCharges(parts, ids)
  {
    if ids != [] {
      EndpointsAreCharges(segments, parts, ids[..|ids| - 1]);
      assert Linked(segments[ids[|ids| - 1]], parts[ids[|ids| - 1]]);
      hide Linked, Charging, Discharging, Resting;
    }
  }

  lemma DifferenceBalances(segments: seq<Evidence>, parts: seq<seq<Located>>, ids: seq<nat>, capacity: real)
    requires AllLinked(segments, parts) && ValidIds(ids, segments)
    ensures Balances(Difference(segments, ids, capacity), capacity, parts, ids)
  {
    EndpointsAreCharges(segments, parts, ids);
    hide EndpointSum, EndCharges, AllLinked;
  }

  lemma ObservationFromParts(o: Observation, parts: seq<seq<Located>>, cycles: seq<CycleRow>)
    requires forall k: nat :: k in o.segments <==> k < |parts| && parts[k] != [] && parts[k][0].row.key.cycle == o.cycle
    requires forall k: nat :: k in o.summaries <==> k < |cycles| && cycles[k].cycle == o.cycle
    requires Increasing(o.segments) && Increasing(o.summaries) && Classes(o.signs, o.segments, parts)
    requires o.differences.Some? <==> |o.summaries| == 1 && o.segments != []
    requires forall i | i in o.summaries && o.differences.Some? ::
               && Balances(o.differences.value.0, cycles[i].charge, parts, o.signs.positive)
               && Balances(o.differences.value.1, cycles[i].discharge, parts, o.signs.negative)
    ensures ObservationDescribes(o, parts, cycles)
  {
    hide Increasing, Balances, Charging, Discharging, Resting;
  }

  lemma DifferencesBalance(segments: seq<Evidence>, parts: seq<seq<Located>>, cycles: seq<CycleRow>, cycle: int,
                           a: seq<nat>, b: seq<nat>)
    requires AllLinked(segments, parts) && ValidIds(a, segments) && ValidIds(b, cycles)
    ensures var o := ObservationIds(segments, cycles, cycle, a, b);
            && (o.differences.Some? <==> |b| == 1 && a != [])
            && forall i | i in b && o.differences.Some? ::
                 && Balances(o.differences.value.0, cycles[i].charge, parts, o.signs.positive)
                 && Balances(o.differences.value.1, cycles[i].discharge, parts, o.signs.negative)
  {
    SignsAreValid(segments, a);
    var o := ObservationIds(segments, cycles, cycle, a, b);
    hide AllLinked, Balances, Difference, SignsOf, AllSigns;
    if |b| == 1 && a != [] {
      assert b == [b[0]];
      DifferenceBalances(segments, parts, o.signs.positive, cycles[b[0]].charge);
      DifferenceBalances(segments, parts, o.signs.negative, cycles[b[0]].discharge);
    }
  }

  lemma ObservationIsDescribed(segments: seq<Evidence>, parts: seq<seq<Located>>, cycles: seq<CycleRow>, cycle: int)
    requires AllLinked(segments, parts)
    ensures ObservationDescribes(ObservationOf(segments, cycles, cycle), parts, cycles)
  {
    var left, right := SegmentCycles(segments), TableCycles(cycles);
    var a, b := Places(left, cycle), Places(right, cycle);
    KeysAgree(segments, parts);
    PlacesAreExact(left, cycle);
    PlacesAreExact(right, cycle);
    PlacesAreValid(left, cycle);
    PlacesAreValid(right, cycle);
    hide AllLinked, Places, Classes, Balances, SignsOf, ObservationDescribes;
    SignsAreDescribed(segments, parts, a);
    DifferencesBalance(segments, parts, cycles, cycle, a, b);
    ObservationFromParts(ObservationIds(segments, cycles, cycle, a, b), parts, cycles);
  }

  lemma ObservationsAreDescribed(segments: seq<Evidence>, parts: seq<seq<Located>>, cycles: seq<CycleRow>)
    requires AllLinked(segments, parts)
    ensures ObservationsDescribe(Observations(segments, cycles), parts, cycles)
  {
    var observations, order := Observations(segments, cycles), CycleOrder(segments, cycles);
    KeysAgree(segments, parts);
    OrderIsOneEach(CyclesOf(parts) + TableCycles(cycles));
    hide AllLinked, ObservationOf, ObservationDescribes, OneEach, FirstSeen;
    forall j | 0 <= j < |observations|
      ensures ObservationDescribes(observations[j], parts, cycles) && observations[j].cycle == order[j]
    {
      ObservationIsDescribed(segments, parts, cycles, order[j]);
      ObservationHasCycle(segments, cycles, order[j]);
    }
    assert seq(|observations|, j requires 0 <= j < |observations| => observations[j].cycle) == order;
  }

  lemma ObservationHasCycle(segments: seq<Evidence>, cycles: seq<CycleRow>, cycle: int)
    ensures ObservationOf(segments, cycles, cycle).cycle == cycle
  {
  }

  /** The lists of a group result, each made from the contents. */
  predicate Assembled(g: Group, c: Contents) {
    && c.records != [] && g.segments == Segments(RowsOf(c.records)) && g.segments != []
    && g.summaries == c.summaries && g.cycles == c.cycles
    && g.summaryPlaces == c.summaryPlaces && g.cyclePlaces == c.cyclePlaces
    && g.extras == Extras(c.records) && |g.extras| == |g.segments|
    && g.joins == Joins(g.segments, c.summaries)
    && g.energyJoins == EnergyJoins(g.segments, c.summaries, g.extras)
    && g.observations == Observations(g.segments, c.cycles)
    && g.lastCycle == g.segments[|g.segments| - 1].key.cycle
  }

  lemma AssembledRuns(g: Group, c: Contents)
    requires Assembled(g, c)
    ensures DescribesRuns(g, c)
  {
    hide RowsOf, Segments, Parts, Extras, Joins, EnergyJoins, Observations, AllLinked, TellsRuns, ExtrasDescribe,
      RunsOf;
    SegmentsLink(c.records);
    ExtrasDescribeParts(c.records);
    LastSegment(c.records);
  }

  lemma AssembledJoins(g: Group, c: Contents)
    requires Assembled(g, c)
    ensures DescribesJoins(g, c)
  {
    hide RowsOf, Segments, Parts, Extras, Joins, EnergyJoins, Observations, AllLinked, TellsRuns, JoinsDescribe,
      EnergyDescribes, ExtrasDescribe;
    SegmentsLink(c.records);
    ExtrasDescribeParts(c.records);
    JoinsAreDescribed(g.segments, Parts(c.records), c.summaries);
    EnergiesAreDescribed(g.segments, Parts(c.records), c.summaries, g.extras);
  }

  lemma AssembledCycles(g: Group, c: Contents)
    requires Assembled(g, c)
    ensures DescribesCycles(g, c)
  {
    hide RowsOf, Segments, Parts, Extras, Joins, EnergyJoins, Observations, AllLinked, TellsRuns, ObservationsDescribe;
    SegmentsLink(c.records);
    ObservationsAreDescribed(g.segments, Parts(c.records), c.cycles);
  }

  lemma GroupIsAssembled(s: Sources)
    requires Rebuildable(s)
    ensures Assembled(GroupOf(s), ContentsOf(s, |s.members|))
  {
    ExtrasMatchSegments(ContentsOf(s, |s.members|).records);
    hide RowsOf, Segments, Extras, Joins, EnergyJoins, Observations, ContentsOf, CoverageUpTo, Readable, ValidSources,
      Chronological;
  }

  /** The group result tells its contents. */
  lemma GroupDescribes(s: Sources)
    requires Rebuildable(s)
    ensures Describes(GroupOf(s), ContentsOf(s, |s.members|))
  {
    hide DescribesRuns, DescribesJoins, DescribesCycles, Assembled, GroupOf, ContentsOf;
    GroupIsAssembled(s);
    AssembledRuns(GroupOf(s), ContentsOf(s, |s.members|));
    AssembledJoins(GroupOf(s), ContentsOf(s, |s.members|));
    AssembledCycles(GroupOf(s), ContentsOf(s, |s.members|));
  }

  lemma LastSegment(records: seq<Located>)
    requires records != []
    ensures var segments := Segments(RowsOf(records));
            segments != [] && segments[|segments| - 1].key.cycle == records[|records| - 1].row.key.cycle
  {
    SegmentsLink(records);
    PartsAreRuns(records);
    var segments, parts := Segments(RowsOf(records)), Parts(records);
    var last := parts[|parts| - 1];
    assert Linked(segments[|parts| - 1], last);
    assert OneKey(RunsOf(parts)[|parts| - 1]);
    assert records == Flatten(parts[..|parts| - 1]) + last;
    assert last[|last| - 1] == records[|records| - 1];
  }
}
