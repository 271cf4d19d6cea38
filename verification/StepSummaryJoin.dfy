/** `join_step_summaries` of ren_step_summary_join.py. */
module StepSummaryJoin {
  import opened Basics
  import opened KeyIndex
  import opened StepEvidence
  import opened GroupObservations
  import opened GroupMeaning

  datatype Joined = Joined(segments: seq<Evidence>, summaries: seq<Summary>, joins: seq<Join>)

  /** One entry: a key seen twice on a side is ambiguous, and only a key seen once on both is compared. */
  method JoinEntry(segments: seq<Evidence>, table: seq<Summary>, key: Key, a: seq<nat>, b: seq<nat>)
    returns (entry: Join)
    requires ValidIds(a, segments) && ValidIds(b, table)
    ensures entry == JoinIds(segments, table, key, a, b)
  {
    if |a| > 1 || |b| > 1 {
      entry := Join(key, a, b, Ambiguous, None);
    } else if a == [] {
      entry := Join(key, a, b, SummaryOnly, None);
    } else if b == [] {
      entry := Join(key, a, b, RecordOnly, None);
    } else {
      var segment, summary := segments[a[0]], table[b[0]];
      var first, last := segment.first, segment.last;
      var comparison := Comparison(
        summary.time - last.time, summary.time - (last.time - first.time), summary.charge - last.charge, None, None);
      if summary.volts.Some? {
        comparison := comparison.(firstVoltage := Some(summary.volts.value.0 - first.voltage),
                                  lastVoltage := Some(summary.volts.value.1 - last.voltage));
      }
      entry := Join(key, a, b, Unique, Some(comparison));
    }
  }

  /** The joins, from one dictionary over both sides. */
  method JoinTables(segments: seq<Evidence>, table: seq<Summary>) returns (joins: seq<Join>)
    ensures joins == Joins(segments, table)
  {
    var left, right := SegmentKeys(segments), SummaryKeys(table);
    var order, groups := IndexBoth(left, right);
    joins := [];
    hide FirstSeen, JoinIds;
    for i := 0 to |order|
      invariant |joins| == i && forall j | 0 <= j < i :: joins[j] == JoinOf(segments, table, order[j])
    {
      var key := order[i];
      PlacesAreValid(left, key);
      PlacesAreValid(right, key);
      assert LookupBoth(groups, key) == (Places(left, key), Places(right, key));
      var entry := JoinEntry(segments, table, key, groups[key].0, groups[key].1);
      joins := joins + [entry];
    }
  }

  method CheckSummaries(table: seq<Summary>) returns (ok: bool)
    ensures ok <==> AllNonnegativeSummaries(table)
  {
    for i := 0 to |table|
      invariant forall j | 0 <= j < i :: NonnegativeSummary(table[j])
    {
      if !NonnegativeSummary(table[i]) { return false; }
    }
    return true;
  }

  /** The part of `join_step_summaries` after the segments are listed. */
  method JoinSegments(segments: seq<Evidence>, summaries: seq<Summary>) returns (r: Result<Joined>)
    ensures r.Success? <==> AllNonnegativeSummaries(summaries)
    ensures r.Success? ==> r.value == Joined(segments, summaries, Joins(segments, summaries))
    ensures r.Success? ==>
              forall parts | AllLinked(segments, parts) :: JoinsDescribe(r.value.joins, parts, summaries)
  {
    forall parts | AllLinked(segments, parts)
      ensures JoinsDescribe(Joins(segments, summaries), parts, summaries)
    {
      JoinsAreDescribed(segments, parts, summaries);
    }
    hide AllLinked, JoinsDescribe;
    var ok := CheckSummaries(summaries);
    if !ok { return Failure("negative summary identifier/time"); }
    var joins := JoinTables(segments, summaries);
    return Success(Joined(segments, summaries, joins));
  }

  method JoinStepSummaries(rows: seq<Row>, summaries: seq<Summary>) returns (r: Result<Joined>)
    ensures r.Success? <==>
            rows != [] && AllNonnegative(rows) && Chronological(rows) && AllNonnegativeSummaries(summaries)
    ensures r.Success? ==> r.value == Joined(Segments(rows), summaries, Joins(Segments(rows), summaries))
    ensures r.Success? ==> TellsRuns(r.value.segments, Runs(rows))
    ensures r.Success? ==>
              forall parts | AllLinked(r.value.segments, parts) :: JoinsDescribe(r.value.joins, parts, summaries)
  {
    hide AllLinked, JoinsDescribe, TellsRuns, Runs, Segments, Joins;
    var segments := IterStepEvidence(rows);
    if segments.Failure? { return Failure(segments.error); }
    r := JoinSegments(segments.value, summaries);
  }
}
