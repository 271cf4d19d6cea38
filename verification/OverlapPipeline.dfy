/** `run_pipeline` of ren_overlap_pipeline.py over sequences instead of files. */
module OverlapPipeline {
  import opened Basics
  import opened Winnowing
  import opened Overlap
  import opened Confirmation
  import opened OverlapIndex
  import opened PipelinePlan

  datatype Summary = Summary(groups: nat, rows: nat, counts: Counts)

  /** The rows of one span, from source row `base` on. */
  method SpoolSpan(span: Span, source: seq<SourceRow>, base: nat, ghost planned: seq<Position>,
                   decodable: Token -> bool)
    returns (r: Result<seq<Row>>)
    requires span.rows >= 1 && base + span.rows <= |planned| && planned[base..base + span.rows] == SpanPositions(span)
    requires CoveredUpTo(planned, source, decodable, base)
    ensures r.Success? <==> CoveredUpTo(planned, source, decodable, base + span.rows)
    ensures r.Success? ==> r.value == RowsOf(source[base..base + span.rows])
  {
    var spool: seq<Row> := [];
    for row := 2 to span.rows + 2
      invariant base + row - 2 <= |source| && spool == RowsOf(source[base..base + row - 2])
      invariant CoveredUpTo(planned, source, decodable, base + row - 2)
    {
      var next, expected := base + row - 2, Position(span.member, span.sheet, span.name, row);
      assert planned[next] == planned[base..base + span.rows][row - 2] == expected;
      if next >= |source| || source[next].position != expected {
        return Failure("source row coverage mismatch");
      }
      var token, energy := source[next].token, source[next].energy;
      if !ValidToken(token) { return Failure("invalid source token"); }
      if !decodable(token) { return Failure("invalid measurement spool"); }
      spool := spool + [Row(token, energy)];
    }
    return Success(spool);
  }

  /** The generator `tokens`: exhaust the spans, check every source row, spool it. */
  method SpoolGroup(spans: seq<Span>, source: seq<SourceRow>, decodable: Token -> bool) returns (r: Result<seq<Row>>)
    requires SpansOk(spans)
    ensures r.Success? <==> Covered(spans, source, decodable)
    ensures r.Success? ==> r.value == RowsOf(source)
  {
    var next, spool: seq<Row> := 0, [];
    ghost var planned := Positions(spans);
    for i := 0 to |spans|
      invariant 0 <= next <= |source| && next <= |planned| && spool == RowsOf(source[..next])
      invariant planned[next..] == Positions(spans[i..])
      invariant CoveredUpTo(planned, source, decodable, next)
    {
      var span := spans[i];
      assert spans[i..][0] == span && spans[i..][1..] == spans[i + 1..];
      SplitPlan(planned, next, SpanPositions(span), Positions(spans[i + 1..]));
      var part := SpoolSpan(span, source, next, planned, decodable);
      if part.Failure? { return Failure(part.error); }
      RowsConcat(source, next, next + span.rows);
      spool := spool + part.value;
      next := next + span.rows;
    }
    if next < |source| { return Failure("extra source rows"); }
    assert source[..next] == source;
    return Success(spool);
  }

  lemma SplitPlan(planned: seq<Position>, n: nat, head: seq<Position>, tail: seq<Position>)
    requires n <= |planned| && planned[n..] == head + tail
    ensures n + |head| <= |planned| && planned[n..n + |head|] == head && planned[n + |head|..] == tail
  {
    assert planned[n..][..|head|] == planned[n..n + |head|];
    assert planned[n..][|head|..] == planned[n + |head|..];
  }

  lemma RowsConcat(source: seq<SourceRow>, a: nat, b: nat)
    requires a <= b <= |source|
    ensures RowsOf(source[..b]) == RowsOf(source[..a]) + RowsOf(source[a..b])
  {
  }

  /** The independent index check accepts a group exactly when its stored rows are the winnowing of its spool. */
  method VerifyIndex(hash: ShingleHash, stored: seq<Fingerprint>, spool: seq<Row>, rows: int) returns (ok: bool)
    ensures ok <==> |spool| == rows && stored == Fingerprints(hash, TokensOf(spool))
  {
    if |spool| != rows { return false; }
    var expected := ReferenceFingerprints(hash, TokensOf(spool));
    WinnowedIsFingerprints(hash, TokensOf(spool), expected);
    var i := 0;
    while i < |expected| || i < |stored|
      invariant 0 <= i <= |expected| && i <= |stored| && expected[..i] == stored[..i]
      decreases |expected| + |stored| - i
    {
      if i >= |expected| || i >= |stored| || expected[i] != stored[i] { return false; }
      assert expected[..i + 1] == expected[..i] + [expected[i]] && stored[..i + 1] == stored[..i] + [stored[i]];
      i := i + 1;
    }
    assert expected == expected[..i] && stored == stored[..i];
    return true;
  }

  /** `reference_match`: all context rows first, then the two walks. An absent seed row is a `KeyError`. */
  method ReferenceMatch(left: seq<Row>, right: seq<Row>, a: int, b: int) returns (r: Result<Option<Match>>)
    ensures r.Failure? <==>
            !InRange(left, right, a, b) && (a < 0 || b < 0 || EqualOver(left, right, a, b, 0, Hi(left, right, a, b)))
    ensures r.Success? && InRange(left, right, a, b) ==> r.value == Verdict(left, right, a, b)
    ensures r.Success? && !InRange(left, right, a, b) ==> r.value == None
  {
    var lo, hi := Lo(a, b), Hi(left, right, a, b);
    var shift := 0;
    while shift < K
      invariant 0 <= shift <= K && (shift > 0 ==> lo <= 0 && shift <= hi)
      invariant EqualOver(left, right, a, b, 0, shift)
    {
      if !(lo <= shift < hi) { return Failure("missing seed row"); }
      if !EqualAt(left, right, a, b, shift) { return Success(None); }
      shift := shift + 1;
    }
    var verdict := ReferenceSpan(left, right, a, b);
    return Success(verdict);
  }

  /** The two walks and the energy comparison of `reference_match`, after the seed. */
  method ReferenceSpan(left: seq<Row>, right: seq<Row>, a: int, b: int) returns (verdict: Option<Match>)
    requires InRange(left, right, a, b) && EqualOver(left, right, a, b, 0, K)
    ensures verdict == Verdict(left, right, a, b)
  {
    var lo, hi := Lo(a, b), Hi(left, right, a, b);
    var start, end := 0, K;
    while start > lo && EqualAt(left, right, a, b, start - 1)
      invariant lo <= start <= 0 && EqualOver(left, right, a, b, start, K)
    {
      start := start - 1;
    }
    while end < hi && EqualAt(left, right, a, b, end)
      invariant K <= end <= hi && EqualOver(left, right, a, b, start, end)
    {
      end := end + 1;
    }
    VerdictOfSpan(left, right, a, b, start, end);
    if end - start < GUARANTEED_LENGTH { return None; }
    var m := ReferenceEnergy(left, right, a, b, start, end);
    return Some(m);
  }

  /** The two sums of `reference_match` over the rows of a span. */
  method ReferenceEnergy(left: seq<Row>, right: seq<Row>, a: int, b: int, start: int, end: int) returns (m: Match)
    requires Lo(a, b) <= start <= end <= Hi(left, right, a, b)
    ensures m == MatchOf(left, right, a, b, start, end)
  {
    var missing, mismatches := 0, 0;
    for s := start to end
      invariant missing == MissingIn(left, right, a, b, start, s)
      invariant mismatches == MismatchIn(left, right, a, b, start, s)
    {
      var x, y := left[a + s].energy, right[b + s].energy;
      missing := missing + if x.None? || y.None? then 1 else 0;
      mismatches := mismatches + if x.Some? && y.Some? && x != y then 1 else 0;
    }
    return Match(a + start, b + start, end - start, end - start - missing, missing, mismatches);
  }

  // ----- The run -----

  /** Enumerates the cross-group equal-digest pairs of an index, in some fixed order. */
  type Join = seq<Entry> -> seq<Candidate>

  /** Spool, fingerprint and index one group, and check its index slice against its spool. */
  method IndexGroup(hash: ShingleHash, gid: nat, spans: seq<Span>, source: seq<SourceRow>, decodable: Token -> bool,
                    index: DiskIndex)
    returns (r: Result<seq<Row>>)
    requires SpansOk(spans) && gid !in index.groups && Stored(index.entries, gid) == []
    modifies index
    ensures r.Success? <==> Covered(spans, source, decodable)
    ensures r.Success? ==> r.value == RowsOf(source) && index.groups == old(index.groups)[gid := |source|]
    ensures r.Success? ==>
              index.entries == old(index.entries) + Tagged(gid, Fingerprints(hash, TokensOf(RowsOf(source))))
    ensures r.Failure? ==> index.groups == old(index.groups) && index.entries == old(index.entries)
  {
    var spooled := SpoolGroup(spans, source, decodable);
    if spooled.Failure? { return Failure(spooled.error); }
    var spool := spooled.value;
    var fingerprints := FingerprintSpool(hash, spool);
    var added := index.Add(gid, |spool|, fingerprints);
    StoredAfterAdd(old(index.entries), gid, fingerprints, gid);
    var verified := VerifyIndex(hash, Stored(index.entries, gid), spool, |spool|);
    if !verified { return Failure("independent index mismatch"); }
    return Success(spool);
  }

  method FingerprintSpool(hash: ShingleHash, spool: seq<Row>) returns (out: seq<Fingerprint>)
    requires ValidTokens(TokensOf(spool))
    ensures out == Fingerprints(hash, TokensOf(spool)) && Indexable(|spool|, out)
  {
    var r := Winnow(hash, TokensOf(spool), K, WINDOW);
    out := r.value;
    WinnowedIsFingerprints(hash, TokensOf(spool), out);
    FingerprintsIndexable(hash, TokensOf(spool));
  }

  /** Index every group, in order. */
  method IndexGroups(hash: ShingleHash, groups: seq<Group>, sources: seq<seq<SourceRow>>, decodable: Token -> bool,
                     index: DiskIndex)
    returns (r: Result<seq<seq<Row>>>)
    requires |groups| == |sources| && forall g | 0 <= g < |groups| :: SpansOk(groups[g].spans)
    requires index.groups == map[] && index.entries == []
    modifies index
    ensures r.Success? <==> AllCovered(groups, sources, decodable)
    ensures r.Success? ==> r.value == Spools(sources) && index.entries == IndexOf(hash, Spools(sources))
    ensures r.Success? ==> index.groups == GroupsOf(Spools(sources))
  {
    var spools: seq<seq<Row>> := [];
    for gid := 0 to |groups|
      invariant spools == Spools(sources[..gid])
      invariant AllCovered(groups[..gid], sources[..gid], decodable)
      invariant index.entries == IndexOf(hash, spools) && index.groups == GroupsOf(spools)
    {
      StoredInIndex(hash, spools, gid);
      AllCoveredSnoc(groups, sources, decodable, gid);
      SpoolsSnoc(sources, gid);
      var spooled := IndexGroup(hash, gid, groups[gid].spans, sources[gid], decodable, index);
      if spooled.Failure? { return Failure(spooled.error); }
      IndexSnoc(hash, spools, spooled.value);
      spools := spools + [spooled.value];
    }
    assert groups[..|groups|] == groups && sources[..|groups|] == sources;
    return Success(spools);
  }

  /** `match_document`: both endpoints of a match mapped back to their source rows. */
  method MatchLine(groups: seq<Group>, spools: seq<seq<Row>>, c: Candidate, m: Match) returns (doc: MatchDocument)
    requires SpoolsFit(groups, spools) && c.ga < |groups| && c.gb < |groups|
    requires 0 <= m.leftStart < |spools[c.ga]| && 0 <= m.rightStart < |spools[c.gb]|
    ensures doc == Document(groups, spools, c, m)
  {
    OffsetsReachable(groups[c.ga].spans, m.leftStart);
    OffsetsReachable(groups[c.gb].spans, m.rightStart);
    var left := SourcePosition(groups[c.ga].spans, m.leftStart);
    var right := SourcePosition(groups[c.gb].spans, m.rightStart);
    doc := MatchDocument(groups[c.ga].name, groups[c.gb].name, left.value, right.value, m);
  }

  predicate TokensValid(spools: seq<seq<Row>>) {
    forall g | 0 <= g < |spools| :: ValidTokens(TokensOf(spools[g]))
  }

  /** Spooled tokens are valid, so a confirmation never rejects a readback. */
  lemma TouchedIsValid(left: seq<Row>, right: seq<Row>, a: int, b: int)
    requires InRange(left, right, a, b) && ValidTokens(TokensOf(left)) && ValidTokens(TokensOf(right))
    ensures ValidOver(left, right, a, b, TouchedFrom(left, right, a, b), TouchedTo(left, right, a, b))
  {
    var tl, tr := TokensOf(left), TokensOf(right);
    forall s | InContext(left, right, a, b, s)
      ensures ValidAt(left, right, a, b, s)
    {
      assert ValidToken(tl[a + s]) && ValidToken(tr[b + s]);
    }
  }

  /** Confirm one candidate and write its ledger line, if any. */
  method ConfirmCandidate(groups: seq<Group>, spools: seq<seq<Row>>, c: Candidate) returns (line: seq<MatchDocument>)
    requires SpoolsFit(groups, spools) && CandidateOk(spools, c) && TokensValid(spools)
    ensures line == LineOf(groups, spools, c)
  {
    TouchedIsValid(spools[c.ga], spools[c.gb], c.a, c.b);
    var confirmed := ConfirmAnchor(spools[c.ga], spools[c.gb], c.a, c.b);
    if confirmed.value.None? { return []; }
    VerdictSound(spools[c.ga], spools[c.gb], c.a, c.b);
    var doc := MatchLine(groups, spools, c, confirmed.value.value);
    return [doc];
  }

  /** The same line, by the independent matcher. */
  method RebuildCandidate(groups: seq<Group>, spools: seq<seq<Row>>, c: Candidate) returns (line: seq<MatchDocument>)
    requires SpoolsFit(groups, spools) && CandidateOk(spools, c)
    ensures line == LineOf(groups, spools, c)
  {
    var found := ReferenceMatch(spools[c.ga], spools[c.gb], c.a, c.b);
    if found.value.None? { return []; }
    VerdictSound(spools[c.ga], spools[c.gb], c.a, c.b);
    var doc := MatchLine(groups, spools, c, found.value.value);
    return [doc];
  }

  /** The production pass over the candidates: confirm, map, record, count. */
  method MatchPass(groups: seq<Group>, spools: seq<seq<Row>>, pairs: seq<Candidate>, pairBudget: int)
    returns (r: Result<(seq<MatchDocument>, Counts)>)
    requires SpoolsFit(groups, spools) && CandidatesOk(spools, pairs) && TokensValid(spools)
    ensures r.Success? <==> |pairs| <= pairBudget || pairs == []
    ensures r.Success? ==> r.value == (LedgerOf(groups, spools, pairs),
                                       CountsOf(|pairs|, LedgerOf(groups, spools, pairs)))
  {
    var ledger: seq<MatchDocument>, counts := [], Counts(0, 0, 0, 0);
    for i := 0 to |pairs|
      invariant ledger == LedgerOf(groups, spools, pairs[..i]) && counts == CountsOf(i, ledger)
      invariant i > 0 ==> i <= pairBudget
    {
      if counts.candidates + 1 > pairBudget { return Failure("candidate budget exceeded, no completion"); }
      LedgerExtends(groups, spools, pairs, i);
      var line := ConfirmCandidate(groups, spools, pairs[i]);
      CountsExtend(i, ledger, line);
      counts := Tally(counts, line);
      ledger := ledger + line;
    }
    assert pairs[..|pairs|] == pairs;
    return Success((ledger, counts));
  }

  /** The independent pass accepts exactly the true ledger with the true counts. */
  method VerifyPass(groups: seq<Group>, spools: seq<seq<Row>>, pairs: seq<Candidate>, pairBudget: int,
                    ledger: seq<MatchDocument>, counts: Counts) returns (ok: bool)
    requires SpoolsFit(groups, spools) && CandidatesOk(spools, pairs)
    ensures ok <==> (|pairs| <= pairBudget || pairs == [])
                    && ledger == LedgerOf(groups, spools, pairs) && counts == CountsOf(|pairs|, ledger)
  {
    var next, rebuilt := 0, Counts(0, 0, 0, 0);
    for i := 0 to |pairs|
      invariant 0 <= next <= |ledger| && ledger[..next] == LedgerOf(groups, spools, pairs[..i])
      invariant rebuilt == CountsOf(i, ledger[..next])
      invariant i > 0 ==> i <= pairBudget
    {
      if rebuilt.candidates + 1 > pairBudget { return false; }
      LedgerExtends(groups, spools, pairs, i);
      var line := RebuildCandidate(groups, spools, pairs[i]);
      PrefixContinues(ledger, next, line);
      if !(line <= ledger[next..]) {
        return false;
      }
      CountsExtend(i, ledger[..next], line);
      next := next + |line|;
      rebuilt := Tally(rebuilt, line);
    }
    assert pairs[..|pairs|] == pairs;
    if next < |ledger| { return false; }
    assert ledger[..next] == ledger;
    return counts == rebuilt;
  }

  lemma PrefixContinues<T>(s: seq<T>, n: nat, line: seq<T>)
    requires n <= |s|
    ensures s[..n] + line <= s ==> line <= s[n..]
    ensures line <= s[n..] ==> n + |line| <= |s| && s[..n + |line|] == s[..n] + line
  {
    if s[..n] + line <= s {
      assert line == (s[..n] + line)[n..];
    }
  }

  /** Every group is verified again before completion. */
  method Reconcile(hash: ShingleHash, spools: seq<seq<Row>>, index: DiskIndex) returns (ok: bool)
    ensures ok <==>
            (forall g | 0 <= g < |spools| :: Stored(index.entries, g) == Fingerprints(hash, TokensOf(spools[g])))
                    && index.groups == GroupsOf(spools)
  {
    for gid := 0 to |spools|
      invariant forall g | 0 <= g < gid :: Stored(index.entries, g) == Fingerprints(hash, TokensOf(spools[g]))
    {
      var verified := VerifyIndex(hash, Stored(index.entries, gid), spools[gid], |spools[gid]|);
      if !verified { return false; }
    }
    return index.groups == GroupsOf(spools);
  }

  /** `sum(e["rows"] for e in evidence)`. */
  method CountRows(spools: seq<seq<Row>>) returns (rows: nat)
    ensures rows == |Flatten(spools)|
  {
    rows := 0;
    for g := 0 to |spools|
      invariant rows == |Flatten(spools[..g])|
    {
      FlattenSnoc(spools, g);
      rows := rows + |spools[g]|;
    }
    TakeAll(spools);
  }

  // A run completes exactly when the plan is sound, every source covers its plan and the
  // candidates fit the budget. A completed run's ledger contains every run of 32 equal
  // consecutive tokens between two groups, and each of its lines is true of the rows the
  // sources emitted. The hash is arbitrary.
  method RunPipeline(hash: ShingleHash, join: Join, groups: seq<Group>, sources: seq<seq<SourceRow>>,
                     decodable: Token -> bool, pairBudget: int)
    returns (r: Result<Summary>, ledger: seq<MatchDocument>)
    requires |groups| == |sources|
    requires forall entries :: Enumerates(entries, join(entries))
    ensures r.Success? <==>
            pairBudget >= 1 && groups != []
            && (forall i, j | 0 <= i < j < |groups| :: groups[i].name != groups[j].name)
            && (forall g | 0 <= g < |groups| :: groups[g].spans != [])
            && (forall g, i | 0 <= g < |groups| && 0 <= i < |groups[g].spans| :: groups[g].spans[i].rows >= 1)
            && AllCovered(groups, sources, decodable)
            && |join(IndexOf(hash, Spools(sources)))| <= pairBudget
    ensures r.Success? ==> FindsEveryRun(groups, Spools(sources), ledger)
    ensures r.Success? ==> RecordsOnlyRuns(groups, sources, ledger)
    ensures r.Success? ==> r.value.groups == |groups| && r.value.rows == |Flatten(Spools(sources))|
    ensures r.Success? ==> r.value.counts.candidates == |join(IndexOf(hash, Spools(sources)))|
    ensures r.Success? ==> LinesCounted(groups, sources, ledger, r.value.counts)
  {
    ledger := [];
    if !PlanOk(groups, pairBudget) { return Failure("invalid pipeline plan"), ledger; }
    var index := new DiskIndex();
    var indexed := IndexGroups(hash, groups, sources, decodable, index);
    if indexed.Failure? { return Failure(indexed.error), ledger; }
    var spools := indexed.value;
    CoverageFits(groups, sources, decodable);
    IndexInRange(hash, spools);
    CandidatesInRange(spools, index.entries, join(index.entries));
    var pairs := join(index.entries);
    var matched := MatchPass(groups, spools, pairs, pairBudget);
    if matched.Failure? { return Failure(matched.error), ledger; }
    ledger := matched.value.0;
    var verified := VerifyPass(groups, spools, join(index.entries), pairBudget, ledger, matched.value.1);
    StoredInWholeIndex(hash, spools);
    var reconciled := Reconcile(hash, spools, index);
    if !verified || !reconciled { return Failure("independent match ledger mismatch"), ledger; }
    LedgerFindsEveryRun(hash, groups, spools, pairs);
    LedgerRecordsOnlyRuns(groups, sources, decodable, pairs);
    CountsAreTrue(groups, sources, ledger, |pairs|);
    var rows := CountRows(spools);
    r := Success(Summary(|groups|, rows, matched.value.1));
  }

  lemma StoredInWholeIndex(hash: ShingleHash, spools: seq<seq<Row>>)
    ensures forall g | 0 <= g < |spools| ::
              Stored(IndexOf(hash, spools), g) == Fingerprints(hash, TokensOf(spools[g]))
  {
    forall g | 0 <= g < |spools|
      ensures Stored(IndexOf(hash, spools), g) == Fingerprints(hash, TokensOf(spools[g]))
    {
      StoredInIndex(hash, spools, g);
    }
  }

  lemma CoverageFits(groups: seq<Group>, sources: seq<seq<SourceRow>>, decodable: Token -> bool)
    requires AllCovered(groups, sources, decodable) && forall g | 0 <= g < |groups| :: SpansOk(groups[g].spans)
    ensures SpoolsFit(groups, Spools(sources)) && TokensValid(Spools(sources))
  {
    var spools := Spools(sources);
    forall g | 0 <= g < |spools|
      ensures |spools[g]| == |Positions(groups[g].spans)| && ValidTokens(TokensOf(spools[g]))
    {
      assert Covered(groups[g].spans, sources[g], decodable);
    }
  }
}
