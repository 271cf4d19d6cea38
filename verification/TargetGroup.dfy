/** `collect_group` of ren_target_group.py: one pass over the events, then joins, energies and cycles. */
module TargetGroup {
  import opened Basics
  import opened KeyIndex
  import opened StepEvidence
  import opened GroupObservations
  import opened GroupEvents
  import opened GroupMeaning
  import opened RecordGenerator
  import opened StepSummaryJoin

  // ----- The reducer pulls the generator -----

  /** The rows of the group can be reduced: all readable, numbered without gaps, nothing negative. */
  predicate Reducible(s: Sources) {
    && Readable(s, |s.members|)
    && var rows := RowsOf(ContentsOf(s, |s.members|).records);
       rows != [] && AllNonnegative(rows) && Chronological(rows)
  }

  // `list(iter_step_evidence(rows))` over the generator: each pull resumes the event loop, which fills the
  // summaries, cycles and energy entries before the next row comes out. A refused row abandons the generator
  // where it stands; nothing that it would still have filled could have made the group reducible.
  method ReduceRows(g: RecordRows) returns (r: Result<seq<Evidence>>)
    requires g.Valid() && g.Rows() == []
    modifies g
    ensures r.Success? <==> Reducible(g.s)
    ensures r.Success? ==> g.Valid() && Finished(g.s, g.progress) && r.value == Segments(g.Rows())
  {
    hide Segments, Reached, RowsSoFar, EventsLeft, Reducible, Finished;
    var previous: Option<Row>, evidence: Option<Evidence> := None, None;
    var done: seq<Evidence> := [];
    while true
      invariant g.Valid() && Reduced(g.Rows(), previous, done, evidence)
      invariant AllNonnegative(g.Rows()) && Chronological(g.Rows())
      decreases |g.s.members| - g.progress.member, EventsLeft(g.s, g.progress)
    {
      PlacedInside(g.s, g.progress);
      ghost var before := g.Rows();
      var pulled := g.Next();
      match pulled
      case Raised(error) =>
        Unreducible(g.s);
        return Failure(error);
      case Exhausted =>
        assert g.Rows() == before;
        FinishedReduction(g.s, g.progress);
        if evidence.None? { return Failure("empty record stream"); }
        return Success(done + [evidence.value]);
      case Yielded(row) =>
        AcceptedNext(before, row);
        var ok;
        ok, done, evidence := TakeRow(before, previous, row, done, evidence);
        if !ok {
          RefusedRow(g.s, g.progress);
          return Failure("negative identifier or time, discontinuity or cycle reversal");
        }
        previous := Some(row);
    }
  }

  lemma Unreducible(s: Sources)
    requires !Readable(s, |s.members|)
    ensures !Reducible(s)
  {
  }

  /** Rows accepted so far, and one more. */
  lemma AcceptedNext(rows: seq<Row>, row: Row)
    requires AllNonnegative(rows) && Chronological(rows)
    ensures AllNonnegative(rows + [row]) && Chronological(rows + [row]) <==>
            Nonnegative(row) && (rows != [] ==> Successive(rows[|rows| - 1], row))
  {
    ChronologyNext(rows, row);
    assert (rows + [row])[|rows|] == row;
  }

  lemma FinishedReduction(s: Sources, p: Progress)
    requires Reached(s, p) && Finished(s, p)
    requires AllNonnegative(RowsSoFar(s, p)) && Chronological(RowsSoFar(s, p))
    ensures Reducible(s) <==> RowsSoFar(s, p) != []
    ensures Readable(s, |s.members|) && RowsSoFar(s, p) == RowsOf(ContentsOf(s, |s.members|).records)
  {
  }

  /** A refused row stays in whatever the sources go on to hold. */
  lemma RefusedRow(s: Sources, p: Progress)
    requires Reached(s, p) && !(AllNonnegative(RowsSoFar(s, p)) && Chronological(RowsSoFar(s, p)))
    ensures !Reducible(s)
  {
    if Reducible(s) {
      ReadIsPrefix(s, p);
      AcceptedPrefix(RowsSoFar(s, p), RowsOf(ContentsOf(s, |s.members|).records));
    }
  }

  lemma AcceptedPrefix(rows: seq<Row>, all: seq<Row>)
    requires rows <= all && AllNonnegative(all) && Chronological(all)
    ensures AllNonnegative(rows) && Chronological(rows)
  {
    ChronologyOfPrefix(rows, all);
    assert forall i | 0 <= i < |rows| :: rows[i] == all[i];
  }

  // ----- After the generator -----

  /** The reconstruction check between the reducer's segments and the generator's extras. */
  method CheckExtras(segments: seq<Evidence>, extras: seq<Extra>) returns (ok: bool)
    ensures ok <==> Matched(segments, extras)
  {
    if |segments| != |extras| { return false; }
    for i := 0 to |segments|
      invariant forall k | 0 <= k < i :: segments[k].key == extras[k].key && segments[k].rows == extras[k].rows
    {
      if segments[i].key != extras[i].key || segments[i].rows != extras[i].rows { return false; }
    }
    return true;
  }

  method JoinEnergies(segments: seq<Evidence>, table: seq<Summary>, joins: seq<Join>, extras: seq<Extra>)
    returns (energies: seq<EnergyJoin>)
    requires |extras| == |segments| && joins == Joins(segments, table)
    requires forall k | 0 <= k < |extras| :: EnergyKnown(extras[k])
    ensures energies == EnergyJoins(segments, table, extras)
  {
    JoinIdsAreValid(segments, table);
    hide Joins;
    energies := [];
    for i := 0 to |joins|
      invariant |energies| == i && forall j | 0 <= j < i :: energies[j] == EnergyOf(joins[j], table, extras)
    {
      var difference: Option<real> := None;
      if joins[i].status == Unique {
        var segment, summary := extras[joins[i].segments[0]], table[joins[i].summaries[0]];
        if segment.missing == 0 {
          assert EnergyKnown(segment);
          difference := Some(summary.energy - segment.lastEnergy.value);
        }
      }
      energies := energies + [EnergyJoin(joins[i].key, difference)];
    }
  }

  method ClassifySigns(segments: seq<Evidence>, ids: seq<nat>) returns (signs: Signs)
    requires ValidIds(ids, segments)
    ensures signs == SignsOf(segments, ids)
  {
    signs := Signs([], [], [], []);
    for k := 0 to |ids|
      invariant signs == SignsOf(segments, ids[..k])
    {
      var i := ids[k];
      var e := segments[i];
      assert ids[..k + 1][..k] == ids[..k];
      if e.positive == e.rows {
        signs := signs.(positive := signs.positive + [i]);
      } else if e.negative == e.rows {
        signs := signs.(negative := signs.negative + [i]);
      } else if e.zero == e.rows {
        signs := signs.(zero := signs.zero + [i]);
      } else {
        signs := signs.(mixed := signs.mixed + [i]);
      }
    }
    assert ids[..|ids|] == ids;
  }

  method SumEndpoints(segments: seq<Evidence>, ids: seq<nat>) returns (total: real)
    requires ValidIds(ids, segments)
    ensures total == EndpointSum(segments, ids)
  {
    total := 0.0;
    for k := 0 to |ids|
      invariant total == EndpointSum(segments, ids[..k])
    {
      assert ids[..k + 1][..k] == ids[..k];
      total := total + segments[ids[k]].last.charge;
    }
    assert ids[..|ids|] == ids;
  }

  /** A capacity against the sum of a bucket's endpoints; an empty bucket gives no comparison. */
  method CompareBucket(segments: seq<Evidence>, ids: seq<nat>, capacity: real) returns (difference: Option<real>)
    requires ValidIds(ids, segments)
    ensures difference == Difference(segments, ids, capacity)
  {
    if ids == [] { return None; }
    var total := SumEndpoints(segments, ids);
    return Some(capacity - total);
  }

  method ObserveCycle(segments: seq<Evidence>, cycles: seq<CycleRow>, cycle: int, a: seq<nat>, b: seq<nat>)
    returns (o: Observation)
    requires ValidIds(a, segments) && ValidIds(b, cycles)
    ensures o == ObservationIds(segments, cycles, cycle, a, b)
  {
    var signs := ClassifySigns(segments, a);
    SignsAreValid(segments, a);
    hide SignsOf, Difference, AllSigns;
    var differences: Option<(Option<real>, Option<real>)> := None;
    if |b| == 1 && a != [] {
      var row := cycles[b[0]];
      var charge := CompareBucket(segments, signs.positive, row.charge);
      var discharge := CompareBucket(segments, signs.negative, row.discharge);
      differences := Some((charge, discharge));
    }
    o := Observation(cycle, a, b, signs, differences);
  }

  method ObserveCycles(segments: seq<Evidence>, cycles: seq<CycleRow>) returns (observations: seq<Observation>)
    ensures observations == Observations(segments, cycles)
    ensures forall parts | AllLinked(segments, parts) :: ObservationsDescribe(observations, parts, cycles)
  {
    forall parts | AllLinked(segments, parts)
      ensures ObservationsDescribe(Observations(segments, cycles), parts, cycles)
    {
      ObservationsAreDescribed(segments, parts, cycles);
    }
    hide AllLinked, ObservationsDescribe;
    var left, right := SegmentCycles(segments), TableCycles(cycles);
    var order, grouped := IndexBoth(left, right);
    observations := [];
    hide FirstSeen, ObservationIds;
    for i := 0 to |order|
      invariant |observations| == i && forall j | 0 <= j < i ::
                  observations[j] == ObservationOf(segments, cycles, order[j])
    {
      var cycle := order[i];
      PlacesAreValid(left, cycle);
      PlacesAreValid(right, cycle);
      assert LookupBoth(grouped, cycle) == (Places(left, cycle), Places(right, cycle));
      var o := ObserveCycle(segments, cycles, cycle, grouped[cycle].0, grouped[cycle].1);
      observations := observations + [o];
    }
  }

  /** What a finished generator leaves. */
  lemma FinishedLists(s: Sources, p: Progress)
    requires Reached(s, p) && Finished(s, p)
    ensures Readable(s, |s.members|) && Holds(p.collected, ContentsOf(s, |s.members|))
    ensures p.coverage == CoverageUpTo(s, |s.members|)
  {
  }

  lemma ReducibleGroup(s: Sources)
    requires ValidSources(s)
    ensures Reducible(s) && AllNonnegativeSummaries(ContentsOf(s, |s.members|).summaries) <==>
            Rebuildable(s) && NothingNegative(s)
  {
    hide ContentsOf, AllNonnegative, AllNonnegativeSummaries, Chronological;
  }

  /** `collect_group`: it succeeds exactly on readable chronological sources without negative identifiers. */
  method CollectGroup(s: Sources) returns (r: Result<Group>)
    ensures r.Success? <==> Rebuildable(s) && NothingNegative(s)
    ensures r.Success? ==> r.value == GroupOf(s)
    ensures r.Success? ==> Describes(r.value, ContentsOf(s, |s.members|))
  {
    if !ValidSources(s) { return Failure("empty or duplicate source members, or a missing schema"); }
    var g := new RecordRows(s);
    ReducibleGroup(s);
    hide Reached, Finished, Reducible, RowsSoFar, Rebuildable, NothingNegative, Segments, Joins, Observations,
      Describes;
    var segments := ReduceRows(g);
    if segments.Failure? { return Failure(segments.error); }
    FinishedReduction(s, g.progress);
    FinishedLists(s, g.progress);
    r := CompleteGroup(s, segments.value, g.progress.collected, g.progress.coverage);
    if r.Success? { GroupDescribes(s); }
  }

  /** The joins, energies and cycles of a group, once its rows are reduced and its lists are full. */
  method CompleteGroup(s: Sources, segments: seq<Evidence>, st: Collected, coverage: seq<Coverage>)
    returns (r: Result<Group>)
    requires ValidSources(s) && Reducible(s) && Holds(st, ContentsOf(s, |s.members|))
    requires coverage == CoverageUpTo(s, |s.members|) && segments ==
               Segments(RowsOf(ContentsOf(s, |s.members|).records))
    ensures r.Success? <==> AllNonnegativeSummaries(ContentsOf(s, |s.members|).summaries)
    ensures r.Success? ==> Rebuildable(s) && r.value == GroupOf(s)
  {
    ghost var c := ContentsOf(s, |s.members|);
    ExtrasMatchSegments(c.records);
    ExtrasKnowEnergy(c.records);
    hide ContentsOf, Segments, Extras, AllNonnegative, AllNonnegativeSummaries, Chronological, Joins, Observations,
      CoverageUpTo;
    var joined := JoinSegments(segments, st.summaries);
    if joined.Failure? { return Failure(joined.error); }
    var matched := CheckExtras(segments, st.extras);
    if !matched {
      assert false;
      return Failure("group segment reconstruction mismatch");
    }
    var energies := JoinEnergies(segments, st.summaries, joined.value.joins, st.extras);
    var observations := ObserveCycles(segments, st.cycles);
    return Success(Group(
      segments, joined.value.summaries, joined.value.joins, s.members, coverage, st.summaryPlaces, st.extras, energies,
      st.cycles, st.cyclePlaces, observations, segments[|segments| - 1].key.cycle));
  }
}
