/** What a run of ren_overlap_pipeline.py must produce: planned coverage, index, span ledger. */
module PipelinePlan {
  // The lemmas show that the ledger misses no shared run and records nothing else.
  import opened Basics
  import opened Winnowing
  import opened Confirmation
  import opened OverlapIndex

  datatype Group = Group(name: string, spans: seq<Span>)

  /** One emitted source row. */
  datatype SourceRow = SourceRow(position: Position, token: Token, energy: Option<real>)

  datatype MatchDocument = MatchDocument(leftGroup: string, rightGroup: string,
                                         leftPosition: Position, rightPosition: Position, span: Match)

  datatype Counts = Counts(candidates: nat, confirmed: nat, withMissing: nat, withMismatch: nat)

  predicate PlanOk(groups: seq<Group>, pairBudget: int) {
    && pairBudget >= 1 && groups != []
    && (forall i, j | 0 <= i < j < |groups| :: groups[i].name != groups[j].name)
    && (forall g | 0 <= g < |groups| :: SpansOk(groups[g].spans))
  }

  predicate SpansOk(spans: seq<Span>) {
    spans != [] && forall i | 0 <= i < |spans| :: spans[i].rows >= 1
  }

  /** The source emits exactly the planned rows, in order, each with a token that survives packing and unpacking. */
  predicate Covered(spans: seq<Span>, source: seq<SourceRow>, decodable: Token -> bool) {
    |source| == |Positions(spans)| && CoveredUpTo(Positions(spans), source, decodable, |source|)
  }

  predicate CoveredUpTo(planned: seq<Position>, source: seq<SourceRow>, decodable: Token -> bool, n: int) {
    && 0 <= n <= |source| && n <= |planned|
    && forall i | 0 <= i < n ::
         source[i].position == planned[i] && ValidToken(source[i].token) && decodable(source[i].token)
  }

  /** The spool of a group: its tokens and energies, without positions. */
  function RowsOf(source: seq<SourceRow>): (rows: seq<Row>)
    ensures |rows| == |source|
    ensures forall i | 0 <= i < |rows| :: rows[i] == Row(source[i].token, source[i].energy)
  {
    seq(|source|, i requires 0 <= i < |source| => Row(source[i].token, source[i].energy))
  }

  // ----- The index of a run -----

  /** The index entries of a sequence of groups. */
  function IndexOf(hash: ShingleHash, spools: seq<seq<Row>>): seq<Entry> {
    if spools == [] then []
    else
      var n := |spools| - 1;
      IndexOf(hash, spools[..n]) + Tagged(n, Fingerprints(hash, TokensOf(spools[n])))
  }

  /** The `groups` table of a sequence of groups. */
  function GroupsOf(spools: seq<seq<Row>>): (m: map<nat, nat>)
    ensures forall g: nat :: g in m <==> g < |spools|
  {
    if spools == [] then map[]
    else
      var rest := GroupsOf(spools[..|spools| - 1]);
      rest[|spools| - 1 := |spools[|spools| - 1]|]
  }

  lemma {:induction false} StoredInIndex(hash: ShingleHash, spools: seq<seq<Row>>, gid: nat)
    ensures Stored(IndexOf(hash, spools), gid) ==
            if gid < |spools| then Fingerprints(hash, TokensOf(spools[gid])) else []
  {
    if spools != [] {
      var n := |spools| - 1;
      var fingerprints := Fingerprints(hash, TokensOf(spools[n]));
      StoredInIndex(hash, spools[..n], gid);
      StoredAfterAdd(IndexOf(hash, spools[..n]), n, fingerprints, gid);
    }
  }

  lemma IndexEntry(hash: ShingleHash, spools: seq<seq<Row>>, e: Entry)
    ensures e in IndexOf(hash, spools) <==>
            e.gid < |spools| && Fingerprint(e.offset, e.digest) in Fingerprints(hash, TokensOf(spools[e.gid]))
  {
    StoredInIndex(hash, spools, e.gid);
    StoredMember(IndexOf(hash, spools), e.gid, Fingerprint(e.offset, e.digest));
  }

  /** A winnowing is always accepted by the index. */
  lemma FingerprintsIndexable(hash: ShingleHash, tokens: seq<Token>)
    ensures Indexable(|tokens|, Fingerprints(hash, tokens))
  {
    WinnowedIsFingerprints(hash, tokens, Fingerprints(hash, tokens));
    WinnowingIsIndexable(hash, tokens, K, WINDOW, Fingerprints(hash, tokens));
  }

  /** A candidate of the index names two groups in order and an in-range anchor in each. */
  predicate CandidateOk(spools: seq<seq<Row>>, c: Candidate) {
    c.ga < c.gb < |spools| && InRange(spools[c.ga], spools[c.gb], c.a, c.b)
  }

  predicate CandidatesOk(spools: seq<seq<Row>>, pairs: seq<Candidate>) {
    forall i | 0 <= i < |pairs| :: CandidateOk(spools, pairs[i])
  }

  predicate EntriesInRange(spools: seq<seq<Row>>, entries: seq<Entry>) {
    forall e | e in entries :: e.gid < |spools| && 0 <= e.offset <= |spools[e.gid]| - K
  }

  lemma IndexInRange(hash: ShingleHash, spools: seq<seq<Row>>)
    ensures EntriesInRange(spools, IndexOf(hash, spools))
  {
    forall e | e in IndexOf(hash, spools)
      ensures e.gid < |spools| && 0 <= e.offset <= |spools[e.gid]| - K
    {
      IndexEntry(hash, spools, e);
      var tokens := TokensOf(spools[e.gid]);
      WinnowedIsFingerprints(hash, tokens, Fingerprints(hash, tokens));
      WinnowingIsIndexable(hash, tokens, K, WINDOW, Fingerprints(hash, tokens));
    }
  }

  /** Every candidate the index joins can be confirmed without leaving either spool. */
  lemma CandidatesInRange(spools: seq<seq<Row>>, entries: seq<Entry>, pairs: seq<Candidate>)
    requires EntriesInRange(spools, entries) && Enumerates(entries, pairs)
    ensures CandidatesOk(spools, pairs)
  {
    forall i | 0 <= i < |pairs|
      ensures CandidateOk(spools, pairs[i])
    {
      var c := pairs[i];
      assert Joins(entries, c);
      var digest :| Entry(digest, c.ga, c.a) in entries && Entry(digest, c.gb, c.b) in entries;
    }
  }

  // ----- The match ledger -----

  /** The groups and spools of a run whose coverage was established. */
  predicate SpoolsFit(groups: seq<Group>, spools: seq<seq<Row>>) {
    |groups| == |spools|
    && forall g | 0 <= g < |groups| :: SpansOk(groups[g].spans) && |spools[g]| == |Positions(groups[g].spans)|
  }

  function Document(groups: seq<Group>, spools: seq<seq<Row>>, c: Candidate, m: Match): MatchDocument
    requires SpoolsFit(groups, spools) && c.ga < |groups| && c.gb < |groups|
    requires 0 <= m.leftStart < |spools[c.ga]| && 0 <= m.rightStart < |spools[c.gb]|
  {
    MatchDocument(groups[c.ga].name, groups[c.gb].name,
                  Positions(groups[c.ga].spans)[m.leftStart], Positions(groups[c.gb].spans)[m.rightStart], m)
  }

  /** The ledger line of one candidate, if it is confirmed. */
  function LineOf(groups: seq<Group>, spools: seq<seq<Row>>, c: Candidate): seq<MatchDocument>
    requires SpoolsFit(groups, spools) && CandidateOk(spools, c)
  {
    var v := Verdict(spools[c.ga], spools[c.gb], c.a, c.b);
    if v.None? then [] else [Document(groups, spools, c, v.value)]
  }

  function LinesOf(groups: seq<Group>, spools: seq<seq<Row>>, pairs: seq<Candidate>): (lines: seq<seq<MatchDocument>>)
    requires SpoolsFit(groups, spools) && CandidatesOk(spools, pairs)
    ensures |lines| == |pairs|
  {
    seq(|pairs|, i requires 0 <= i < |pairs| => LineOf(groups, spools, pairs[i]))
  }

  /** The ledger of a sequence of candidates. */
  function LedgerOf(groups: seq<Group>, spools: seq<seq<Row>>, pairs: seq<Candidate>): seq<MatchDocument>
    requires SpoolsFit(groups, spools) && CandidatesOk(spools, pairs)
  {
    Flatten(LinesOf(groups, spools, pairs))
  }

  predicate EnergyMissing(doc: MatchDocument) { doc.span.energyMissing > 0 }

  predicate EnergyMismatch(doc: MatchDocument) { doc.span.energyMismatch > 0 }

  /** The published counts of a ledger. */
  function CountsOf(candidates: nat, ledger: seq<MatchDocument>): Counts {
    Counts(candidates, |ledger|, CountIf(ledger, EnergyMissing), CountIf(ledger, EnergyMismatch))
  }

  /** The counters after one more candidate. */
  function Tally(counts: Counts, line: seq<MatchDocument>): Counts {
    Counts(counts.candidates + 1, counts.confirmed + |line|,
           counts.withMissing + CountIf(line, EnergyMissing), counts.withMismatch + CountIf(line, EnergyMismatch))
  }

  lemma CountsExtend(candidates: nat, ledger: seq<MatchDocument>, line: seq<MatchDocument>)
    ensures CountsOf(candidates + 1, ledger + line) == Tally(CountsOf(candidates, ledger), line)
  {
    CountIfConcat(ledger, line, EnergyMissing);
    CountIfConcat(ledger, line, EnergyMismatch);
  }

  lemma LinesPrefix(groups: seq<Group>, spools: seq<seq<Row>>, pairs: seq<Candidate>, n: nat)
    requires SpoolsFit(groups, spools) && CandidatesOk(spools, pairs) && n <= |pairs|
    ensures CandidatesOk(spools, pairs[..n]) && LinesOf(groups, spools, pairs[..n]) ==
              LinesOf(groups, spools, pairs)[..n]
  {
  }

  lemma LedgerExtends(groups: seq<Group>, spools: seq<seq<Row>>, pairs: seq<Candidate>, i: nat)
    requires SpoolsFit(groups, spools) && CandidatesOk(spools, pairs) && i < |pairs|
    ensures LedgerOf(groups, spools, pairs[..i + 1]) == LedgerOf(groups, spools, pairs[..i]) +
            LineOf(groups, spools, pairs[i])
    ensures LedgerOf(groups, spools, pairs[..i + 1]) <= LedgerOf(groups, spools, pairs)
  {
    var lines := LinesOf(groups, spools, pairs);
    LinesPrefix(groups, spools, pairs, i);
    LinesPrefix(groups, spools, pairs, i + 1);
    FlattenSnoc(lines, i);
    FlattenPrefix(lines, i + 1);
  }

  // ----- The end-to-end property -----

  /** A recorded span of groups `ga` and `gb` contains the run at `a` and `b`, with the same alignment. */
  predicate Contains(doc: MatchDocument, left: string, right: string, a: int, b: int) {
    && doc.leftGroup == left && doc.rightGroup == right
    && doc.span.leftStart <= a && a + 32 <= doc.span.leftStart + doc.span.length
    && doc.span.leftStart - a == doc.span.rightStart - b
  }

  predicate Found(groups: seq<Group>, ledger: seq<MatchDocument>, ga: nat, gb: nat, a: int, b: int)
    requires ga < |groups| && gb < |groups|
  {
    exists doc :: doc in ledger && Contains(doc, groups[ga].name, groups[gb].name, a, b)
  }

  /** Every run of 32 equal consecutive tokens in two groups, at any offsets, lies in a recorded span. */
  ghost predicate FindsEveryRun(groups: seq<Group>, spools: seq<seq<Row>>, ledger: seq<MatchDocument>)
    requires |groups| == |spools|
  {
    forall ga: nat, gb: nat, a, b | ga < gb < |groups|
      && SharedRun(TokensOf(spools[ga]), TokensOf(spools[gb]), a, b, 32) ::
      Found(groups, ledger, ga, gb, a, b)
  }

  /** What one ledger line claims about the emitted rows of groups `ga` and `gb`. */
  ghost predicate TrueOf(groups: seq<Group>, sources: seq<seq<SourceRow>>, doc: MatchDocument, ga: nat, gb: nat)
    requires |groups| == |sources|
  {
    var m := doc.span;
    && ga < gb < |groups| && doc.leftGroup == groups[ga].name && doc.rightGroup == groups[gb].name
    && 32 <= m.length <= 56
    && SharedRun(TokensOf(RowsOf(sources[ga])), TokensOf(RowsOf(sources[gb])), m.leftStart, m.rightStart, m.length)
    && doc.leftPosition == sources[ga][m.leftStart].position
    && doc.rightPosition == sources[gb][m.rightStart].position
    && Inside(RowsOf(sources[ga]), RowsOf(sources[gb]), m)
    && EnergiesCounted(LeftRows(RowsOf(sources[ga]), m), RightRows(RowsOf(sources[gb]), m), m)
  }

  /** Somewhere in a recorded span one of the two emitted rows has no energy. */
  ghost predicate LacksEnergy(groups: seq<Group>, sources: seq<seq<SourceRow>>, doc: MatchDocument)
    requires |groups| == |sources|
  {
    exists ga: nat, gb: nat | TrueOf(groups, sources, doc, ga, gb) ::
      SomeMissing(LeftRows(RowsOf(sources[ga]), doc.span), RightRows(RowsOf(sources[gb]), doc.span))
  }

  /** Somewhere in a recorded span the two emitted rows have different energies. */
  ghost predicate DiffersInEnergy(groups: seq<Group>, sources: seq<seq<SourceRow>>, doc: MatchDocument)
    requires |groups| == |sources|
  {
    exists ga: nat, gb: nat | TrueOf(groups, sources, doc, ga, gb) ::
      SomeDiffering(LeftRows(RowsOf(sources[ga]), doc.span), RightRows(RowsOf(sources[gb]), doc.span))
  }

  /** The published counts are numbers of ledger lines: all, those that lack an energy, those with two that differ. */
  ghost predicate LinesCounted(groups: seq<Group>, sources: seq<seq<SourceRow>>, ledger: seq<MatchDocument>,
                               counts: Counts)
    requires |groups| == |sources|
  {
    && counts.confirmed == |ledger|
    && counts.withMissing == |set k | 0 <= k < |ledger| && LacksEnergy(groups, sources, ledger[k])|
    && counts.withMismatch == |set k | 0 <= k < |ledger| && DiffersInEnergy(groups, sources, ledger[k])|
  }

  ghost predicate RecordsOnlyRuns(groups: seq<Group>, sources: seq<seq<SourceRow>>, ledger: seq<MatchDocument>)
    requires |groups| == |sources|
  {
    forall doc | doc in ledger :: exists ga: nat, gb: nat :: TrueOf(groups, sources, doc, ga, gb)
  }

  function Spools(sources: seq<seq<SourceRow>>): (s: seq<seq<Row>>)
    ensures |s| == |sources| && forall g | 0 <= g < |s| :: s[g] == RowsOf(sources[g])
  {
    seq(|sources|, g requires 0 <= g < |sources| => RowsOf(sources[g]))
  }

  predicate AllCovered(groups: seq<Group>, sources: seq<seq<SourceRow>>, decodable: Token -> bool) {
    |groups| == |sources| && forall g | 0 <= g < |groups| :: Covered(groups[g].spans, sources[g], decodable)
  }

  lemma AllCoveredSnoc(groups: seq<Group>, sources: seq<seq<SourceRow>>, decodable: Token -> bool, n: nat)
    requires |groups| == |sources| && n < |groups|
    ensures AllCovered(groups[..n + 1], sources[..n + 1], decodable) <==>
            AllCovered(groups[..n], sources[..n], decodable) && Covered(groups[n].spans, sources[n], decodable)
    ensures AllCovered(groups, sources, decodable) ==> Covered(groups[n].spans, sources[n], decodable)
  {
    var gs, ss := groups[..n + 1], sources[..n + 1];
    forall g | 0 <= g < n ensures gs[g] == groups[..n][g] && ss[g] == sources[..n][g] {}
  }

  lemma SpoolsSnoc(sources: seq<seq<SourceRow>>, n: nat)
    requires n < |sources|
    ensures Spools(sources[..n + 1]) == Spools(sources[..n]) + [RowsOf(sources[n])]
  {
  }

  lemma IndexSnoc(hash: ShingleHash, spools: seq<seq<Row>>, spool: seq<Row>)
    ensures IndexOf(hash, spools + [spool]) == IndexOf(hash, spools) +
            Tagged(|spools|, Fingerprints(hash, TokensOf(spool)))
    ensures GroupsOf(spools + [spool]) == GroupsOf(spools)[|spools| := |spool|]
  {
    assert (spools + [spool])[..|spools|] == spools;
    hide Tagged, Fingerprints, TokensOf;
  }

  /** A shared run makes the index join two fingerprints at one relative position inside the run. */
  lemma RunHasCandidate(hash: ShingleHash, spools: seq<seq<Row>>, ga: nat, gb: nat, a: int, b: int)
    returns (c: Candidate)
    requires ga < gb < |spools|
    requires SharedRun(TokensOf(spools[ga]), TokensOf(spools[gb]), a, b, GUARANTEED_LENGTH)
    ensures Joins(IndexOf(hash, spools), c) && c.ga == ga && c.gb == gb
    ensures c.a - a == c.b - b && 0 <= c.a - a <= GUARANTEED_LENGTH - K
  {
    var tl, tr := TokensOf(spools[ga]), TokensOf(spools[gb]);
    var fl, fr := Fingerprints(hash, tl), Fingerprints(hash, tr);
    WinnowedIsFingerprints(hash, tl, fl);
    WinnowedIsFingerprints(hash, tr, fr);
    var i, j := WinnowingGuarantee(hash, tl, tr, a, b, K, WINDOW, fl, fr);
    c := Candidate(ga, fl[i].offset, gb, fr[j].offset);
    IndexEntry(hash, spools, Entry(fl[i].digest, c.ga, c.a));
    IndexEntry(hash, spools, Entry(fl[i].digest, c.gb, c.b));
  }

  /** Completeness, for any hash: the ledger of every candidate contains every shared run. */
  lemma LedgerFindsEveryRun(hash: ShingleHash, groups: seq<Group>, spools: seq<seq<Row>>, pairs: seq<Candidate>)
    requires SpoolsFit(groups, spools)
    requires Enumerates(IndexOf(hash, spools), pairs)
    requires CandidatesOk(spools, pairs)
    ensures FindsEveryRun(groups, spools, LedgerOf(groups, spools, pairs))
  {
    var ledger := LedgerOf(groups, spools, pairs);
    forall ga: nat, gb: nat, a, b | ga < gb < |groups|
      && SharedRun(TokensOf(spools[ga]), TokensOf(spools[gb]), a, b, GUARANTEED_LENGTH)
      ensures Found(groups, ledger, ga, gb, a, b)
    {
      var c := RunHasCandidate(hash, spools, ga, gb, a, b);
      var i :| 0 <= i < |pairs| && pairs[i] == c;
      AnchorInRunIsConfirmed(spools[ga], spools[gb], a, b, c.a, c.b);
      var doc := LineOf(groups, spools, c)[0];
      assert doc in LinesOf(groups, spools, pairs)[i];
      FlattenMember(LinesOf(groups, spools, pairs), doc);
      assert doc in ledger && Contains(doc, groups[ga].name, groups[gb].name, a, b);
    }
  }

  lemma LineIsTrue(groups: seq<Group>, sources: seq<seq<SourceRow>>, decodable: Token -> bool, c: Candidate,
                   doc: MatchDocument)
    requires AllCovered(groups, sources, decodable) && SpoolsFit(groups, Spools(sources))
    requires CandidateOk(Spools(sources), c) && doc in LineOf(groups, Spools(sources), c)
    ensures TrueOf(groups, sources, doc, c.ga, c.gb)
  {
    VerdictSound(Spools(sources)[c.ga], Spools(sources)[c.gb], c.a, c.b);
  }

  /** Soundness, for any hash: every ledger line is true of the rows the sources emitted. */
  lemma LedgerRecordsOnlyRuns(groups: seq<Group>, sources: seq<seq<SourceRow>>, decodable: Token -> bool,
                              pairs: seq<Candidate>)
    requires AllCovered(groups, sources, decodable) && SpoolsFit(groups, Spools(sources))
    requires CandidatesOk(Spools(sources), pairs)
    ensures RecordsOnlyRuns(groups, sources, LedgerOf(groups, Spools(sources), pairs))
  {
    var spools := Spools(sources);
    forall doc | doc in LedgerOf(groups, spools, pairs)
      ensures exists ga: nat, gb: nat :: TrueOf(groups, sources, doc, ga, gb)
    {
      var lines := LinesOf(groups, spools, pairs);
      FlattenMember(lines, doc);
      var i :| 0 <= i < |lines| && doc in lines[i];
      LineIsTrue(groups, sources, decodable, pairs[i], doc);
    }
  }

  /** On a line that is true of its rows, a positive count is a row with the property. */
  lemma CountsShow(groups: seq<Group>, sources: seq<seq<SourceRow>>, doc: MatchDocument, ga: nat, gb: nat)
    requires |groups| == |sources| && TrueOf(groups, sources, doc, ga, gb)
    ensures EnergyMissing(doc) <==> LacksEnergy(groups, sources, doc)
    ensures EnergyMismatch(doc) <==> DiffersInEnergy(groups, sources, doc)
  {
    hide SharedRun, EnergiesCounted, SomeMissing, SomeDiffering;
    forall ga: nat, gb: nat | TrueOf(groups, sources, doc, ga, gb)
      ensures EnergyMissing(doc) <==>
              SomeMissing(LeftRows(RowsOf(sources[ga]), doc.span), RightRows(RowsOf(sources[gb]), doc.span))
      ensures EnergyMismatch(doc) <==>
              SomeDiffering(LeftRows(RowsOf(sources[ga]), doc.span), RightRows(RowsOf(sources[gb]), doc.span))
    {
      CountsShowRows(LeftRows(RowsOf(sources[ga]), doc.span), RightRows(RowsOf(sources[gb]), doc.span), doc.span);
    }
  }

  /** The counters of a true ledger count what they say, on the rows the sources emitted. */
  lemma CountsAreTrue(groups: seq<Group>, sources: seq<seq<SourceRow>>, ledger: seq<MatchDocument>, candidates: nat)
    requires |groups| == |sources| && RecordsOnlyRuns(groups, sources, ledger)
    ensures LinesCounted(groups, sources, ledger, CountsOf(candidates, ledger))
  {
    hide TrueOf, LacksEnergy, DiffersInEnergy;
    forall k | 0 <= k < |ledger|
      ensures EnergyMissing(ledger[k]) <==> LacksEnergy(groups, sources, ledger[k])
      ensures EnergyMismatch(ledger[k]) <==> DiffersInEnergy(groups, sources, ledger[k])
    {
      assert ledger[k] in ledger;
      var ga: nat, gb: nat :| TrueOf(groups, sources, ledger[k], ga, gb);
      CountsShow(groups, sources, ledger[k], ga, gb);
    }
    CountIfIsSize(ledger, EnergyMissing, set k | 0 <= k < |ledger| && LacksEnergy(groups, sources, ledger[k]));
    CountIfIsSize(ledger, EnergyMismatch, set k | 0 <= k < |ledger| && DiffersInEnergy(groups, sources, ledger[k]));
  }
}
