/** `resolve_context_markers` of ren_static_context_resolution.py, and when it resolves the CONTINUE marker. */
module ContextResolution {
  import opened Basics
  import opened BiffRecords
  import opened ContinueChains
  import opened StaticScan
  import opened GuardRefinement

  datatype OldEntry = OldEntry(path: string, kind: int, classification: string)

  datatype NewEntry = NewEntry(path: string, kind: int, marker: string)

  datatype StaticReport = StaticReport(
    member: string, sha: string, blockers: seq<Blocker>, entries: seq<OldEntry>, scans: seq<Report>)

  /** `flags` are the six authority flags; an absent one is `None`. */
  datatype Diagnostic = Diagnostic(
    member: string, sha: string, status: string, flags: seq<Option<bool>>, entries: seq<NewEntry>,
    context: Option<Context>, payloadsDecoded: bool)

  datatype Resolution = Resolution(original: seq<Blocker>, resolved: seq<Blocker>, remaining: seq<Blocker>)

  const EMBEDDED := Container("ole_embedded_object_entry")
  const CONTINUE_MARKER := ActiveOrContext(CONTINUE)

  /** The diagnosis is of another member, claims an authority, or lists another directory. */
  predicate Mismatch(prior: StaticReport, d: Diagnostic) {
    || d.member != prior.member || d.sha != prior.sha || d.status != "DIAGNOSTIC_ONLY_NO_GATE_CHANGE"
    || (exists i | 0 <= i < |d.flags| :: d.flags[i] != Some(false))
    || !SameDirectory(prior.entries, d.entries)
  }

  /** Distinct paths on both sides, the same paths, and the same entry type for each. */
  predicate SameDirectory(entries: seq<OldEntry>, others: seq<NewEntry>) {
    && (forall i, j | 0 <= i < j < |entries| :: entries[i].path != entries[j].path)
    && (forall i, j | 0 <= i < j < |others| :: others[i].path != others[j].path)
    && (forall e | e in entries :: exists f | f in others :: f.path == e.path)
    && (forall f | f in others :: exists e | e in entries :: e.path == f.path)
    && (forall e | e in entries :: forall f | f in others && f.path == e.path :: f.kind == e.kind)
  }

  /** Every entry taken for an embedded object is the root CompObj stream. */
  predicate EmbeddedIsMetadata(prior: StaticReport, d: Diagnostic) {
    && EMBEDDED in prior.blockers
    && (exists e | e in prior.entries :: e.classification == "embedded_object")
    && (forall e | e in prior.entries && e.classification == "embedded_object" ::
          e.kind == 2 && forall f | f in d.entries && f.path == e.path :: f.marker == "root_compobj_metadata_marker")
  }

  predicate PrintChain(c: Chain) {
    c.records > 0 && c.predecessor == Some(PLS) && c.following == Some(SETUP)
  }

  /** The two framings agree, and every chain is a PLS record's continuation before a SETUP record. */
  predicate ContinueIsPrintContext(prior: StaticReport, d: Diagnostic) {
    && CONTINUE_MARKER in prior.blockers && d.context.Some? && |prior.scans| == 1
    && var scan, context := prior.scans[0], d.context.value;
       && !d.payloadsDecoded && scan.complete && scan.stream - scan.framed == 0
       && CountOf(scan.types, CONTINUE) > 0 && context.chains != []
       && context.bytesFramed == scan.stream && context.recordsFramed == scan.records
       && RecordsIn(context.chains) == CountOf(scan.types, CONTINUE)
       && forall i | 0 <= i < |context.chains| :: PrintChain(context.chains[i])
  }

  /** The list without the first occurrence of `b`. */
  function RemoveFirst(s: seq<Blocker>, b: Blocker): (r: seq<Blocker>)
    ensures multiset(r) + (if b in s then multiset{b} else multiset{}) == multiset(s)
  {
    if s == [] then []
    else if s[0] == b then
      assert s == [b] + s[1..];
      s[1..]
    else
      assert s == [s[0]] + s[1..];
      [s[0]] + RemoveFirst(s[1..], b)
  }

  /** Move a marker from the remaining to the resolved ones. */
  function Settle(r: Resolution, marker: Blocker, settled: bool): Resolution {
    if settled then r.(resolved := r.resolved + [marker], remaining := RemoveFirst(r.remaining, marker)) else r
  }

  function ResolutionOf(prior: StaticReport, d: Option<Diagnostic>): Resolution {
    var start := Resolution(prior.blockers, [], prior.blockers);
    if d.None? then start
    else
      Settle(Settle(start, EMBEDDED, EmbeddedIsMetadata(prior, d.value)),
             CONTINUE_MARKER, ContinueIsPrintContext(prior, d.value))
  }

  method ResolveContextMarkers(prior: StaticReport, d: Option<Diagnostic>) returns (r: Result<Resolution>)
    ensures r.Failure? <==> d.Some? && Mismatch(prior, d.value)
    ensures r.Success? ==> r.value == ResolutionOf(prior, d)
  {
    var result := Resolution(prior.blockers, [], prior.blockers);
    if d.None? { return Success(result); }
    if d.value.member != prior.member || d.value.sha != prior.sha
      || d.value.status != "DIAGNOSTIC_ONLY_NO_GATE_CHANGE" {
      return Failure("diagnostic identity mismatch");
    }
    var i := 0;
    while i < |d.value.flags|
      invariant i <= |d.value.flags| && forall j | 0 <= j < i :: d.value.flags[j] == Some(false)
    {
      if d.value.flags[i] != Some(false) { return Failure("diagnostic authority mismatch"); }
      i := i + 1;
    }
    if !SameDirectory(prior.entries, d.value.entries) { return Failure("OLE directory evidence mismatch"); }
    if EmbeddedIsMetadata(prior, d.value) {
      result := result.(remaining := RemoveFirst(result.remaining, EMBEDDED), resolved := result.resolved + [EMBEDDED]);
    }
    if ContinueIsPrintContext(prior, d.value) {
      result := result.(remaining := RemoveFirst(result.remaining, CONTINUE_MARKER),
                        resolved := result.resolved + [CONTINUE_MARKER]);
    }
    return Success(result);
  }

  /** No blocker is lost or invented: each one is either resolved or remains, and only two kinds can be resolved. */
  lemma BlockersAreConserved(prior: StaticReport, d: Option<Diagnostic>, r: Resolution)
    requires r == ResolutionOf(prior, d)
    ensures Conserves(prior.blockers, r)
    ensures forall b | b in r.resolved :: b == EMBEDDED || b == CONTINUE_MARKER
    ensures d.Some? ==> (CONTINUE_MARKER in r.resolved <==> ContinueIsPrintContext(prior, d.value))
  {
    if d.Some? {
      EmbeddedPresent(prior, d.value);
      ContinuePresent(prior, d.value);
      ResolutionOfSome(prior, d.value);
      var embedded, context := EmbeddedIsMetadata(prior, d.value), ContinueIsPrintContext(prior, d.value);
      hide *;
      SettleTwice(prior, embedded, context, r);
      ResolvedMembers(embedded, context, r.resolved);
    }
  }

  lemma ResolutionOfSome(prior: StaticReport, d: Diagnostic)
    ensures ResolutionOf(prior, Some(d)) ==
            Settle(Settle(Resolution(prior.blockers, [], prior.blockers), EMBEDDED, EmbeddedIsMetadata(prior, d)),
                   CONTINUE_MARKER, ContinueIsPrintContext(prior, d))
  {
    hide Settle, EmbeddedIsMetadata, ContinueIsPrintContext;
  }

  lemma ResolvedMembers(embedded: bool, context: bool, resolved: seq<Blocker>)
    requires resolved == (if embedded then [EMBEDDED] else []) + (if context then [CONTINUE_MARKER] else [])
    ensures forall b | b in resolved :: b == EMBEDDED || b == CONTINUE_MARKER
    ensures CONTINUE_MARKER in resolved <==> context
  {
  }

  predicate Conserves(blockers: seq<Blocker>, r: Resolution) {
    multiset(r.resolved) + multiset(r.remaining) == multiset(blockers)
  }

  lemma SettleTwice(prior: StaticReport, embedded: bool, context: bool, r: Resolution)
    requires embedded ==> EMBEDDED in prior.blockers
    requires context ==> CONTINUE_MARKER in prior.blockers
    requires r == Settle(Settle(Resolution(prior.blockers, [], prior.blockers), EMBEDDED, embedded), CONTINUE_MARKER,
                         context)
    ensures Conserves(prior.blockers, r)
    ensures r.resolved == (if embedded then [EMBEDDED] else []) + (if context then [CONTINUE_MARKER] else [])
  {
    var start := Resolution(prior.blockers, [], prior.blockers);
    assert Conserves(prior.blockers, start);
    var middle := Settle(start, EMBEDDED, embedded);
    assert EMBEDDED != CONTINUE_MARKER;
    hide Settle, Conserves;
    SettleConserves(prior.blockers, start, EMBEDDED, embedded, CONTINUE_MARKER);
    SettleConserves(prior.blockers, middle, CONTINUE_MARKER, context, EMBEDDED);
  }

  lemma EmbeddedPresent(prior: StaticReport, d: Diagnostic)
    ensures EmbeddedIsMetadata(prior, d) ==> EMBEDDED in prior.blockers
  {
  }

  lemma ContinuePresent(prior: StaticReport, d: Diagnostic)
    ensures ContinueIsPrintContext(prior, d) ==> CONTINUE_MARKER in prior.blockers
  {
  }

  lemma SettleConserves(blockers: seq<Blocker>, r: Resolution, marker: Blocker, settled: bool, other: Blocker)
    requires Conserves(blockers, r) && (settled ==> marker in r.remaining) && other != marker
    ensures var after := Settle(r, marker, settled);
            && Conserves(blockers, after)
            && (other in after.remaining <==> other in r.remaining)
            && after.resolved == r.resolved + if settled then [marker] else []
  {
    if settled {
      var rest := RemoveFirst(r.remaining, marker);
      hide RemoveFirst;
      assert multiset(rest)[other] + multiset{marker}[other] == multiset(r.remaining)[other];
      assert other in rest <==> multiset(rest)[other] > 0;
    } else {
      assert r.resolved + [] == r.resolved;
    }
  }

  // ----- What resolving the embedded-object marker means -----

  /** The diagnosis lists the entry as a stream with the metadata marker of the root CompObj. */
  predicate DiagnosedAsMetadata(e: OldEntry, d: Diagnostic) {
    exists f | f in d.entries :: f.path == e.path && f.kind == 2 && f.marker == "root_compobj_metadata_marker"
  }

  // With matching reports the marker is resolved exactly when it was raised, some entry was taken for an embedded
  // object, and every such entry is diagnosed as metadata.
  lemma EmbeddedResolvedIff(prior: StaticReport, d: Diagnostic)
    requires !Mismatch(prior, d)
    ensures EMBEDDED in ResolutionOf(prior, Some(d)).resolved <==>
              && Container("ole_embedded_object_entry") in prior.blockers
              && (exists e | e in prior.entries :: e.classification == "embedded_object")
              && forall e | e in prior.entries && e.classification == "embedded_object" :: DiagnosedAsMetadata(e, d)
  {
    EmbeddedIsResolved(prior, d);
    forall e | e in prior.entries
      ensures DiagnosedAsMetadata(e, d) <==>
              e.kind == 2 && forall f | f in d.entries && f.path == e.path :: f.marker == "root_compobj_metadata_marker"
    {
      OneTwin(prior, d, e);
    }
    hide ResolutionOf, Mismatch, DiagnosedAsMetadata;
  }

  lemma EmbeddedIsResolved(prior: StaticReport, d: Diagnostic)
    ensures EMBEDDED in ResolutionOf(prior, Some(d)).resolved <==> EmbeddedIsMetadata(prior, d)
  {
    ResolutionOfSome(prior, d);
    hide EmbeddedIsMetadata, ContinueIsPrintContext, RemoveFirst;
  }

  /** An entry has exactly one entry of its path in the diagnosis, and of its kind. */
  lemma OneTwin(prior: StaticReport, d: Diagnostic, e: OldEntry)
    requires !Mismatch(prior, d) && e in prior.entries
    ensures exists f | f in d.entries && f.path == e.path ::
              f.kind == e.kind && forall g | g in d.entries && g.path == e.path :: g == f
  {
    var f :| f in d.entries && f.path == e.path;
    var i :| 0 <= i < |d.entries| && d.entries[i] == f;
    forall g | g in d.entries && g.path == e.path
      ensures g == f
    {
      var j :| 0 <= j < |d.entries| && d.entries[j] == g;
    }
  }

  // ----- What resolving the CONTINUE marker means for the bytes -----

  /** CONTINUE records only continue a PLS record, and only a SETUP record ends such a run. */
  predicate PrintContextAt(records: seq<Record>, i: nat)
    requires i < |records|
  {
    var before := KindBefore(records, i);
    if records[i].kind == CONTINUE then before == Some(CONTINUE) || before == Some(PLS)
    else before == Some(CONTINUE) ==> records[i].kind == SETUP
  }

  predicate PrintContext(records: seq<Record>) {
    forall i | 0 <= i < |records| :: PrintContextAt(records, i)
  }

  /** A chain that is right as far as it goes. */
  predicate PrintSoFar(c: Chain) {
    c.predecessor == Some(PLS) && (c.following.None? || c.following == Some(SETUP))
  }

  predicate AllPrintSoFar(chains: seq<Chain>) {
    forall j | 0 <= j < |chains| :: PrintSoFar(chains[j])
  }

  /** The chains look right exactly when the records do. */
  lemma {:induction false} ChainsShowPrintContext(records: seq<Record>)
    ensures AllPrintSoFar(Chains(records)) <==> PrintContext(records)
  {
    if records != [] {
      var init, r := records[..|records| - 1], records[|records| - 1];
      assert records == init + [r];
      ChainsShowPrintContext(init);
      ChainsAreMaximalRuns(init);
      if KindBefore(init, |init|) != Some(CONTINUE) { PredecessorIsLast(init); }
      ChainsNext(init, r);
      PrintContextNext(init, r);
      hide Chains, PrintContext, Predecessor, AllPrintSoFar;
      PrintSoFarNext(init, Chains(init), Predecessor(init), r);
    }
  }

  lemma PrintContextNext(init: seq<Record>, r: Record)
    ensures PrintContext(init + [r]) <==> PrintContext(init) && PrintContextAt(init + [r], |init|)
  {
    var records := init + [r];
    forall i | 0 <= i < |init| ensures PrintContextAt(records, i) == PrintContextAt(init, i) {
      assert records[i] == init[i] && KindBefore(records, i) == KindBefore(init, i);
    }
  }

  lemma PrintSoFarNext(init: seq<Record>, chains: seq<Chain>, predecessor: Option<int>, r: Record)
    requires AllDescribed(init, chains) && (KindBefore(init, |init|) == Some(CONTINUE) ==> chains != [])
    requires KindBefore(init, |init|) != Some(CONTINUE) ==> predecessor == KindBefore(init, |init|)
    ensures AllPrintSoFar(NextChains(chains, KindBefore(init, |init|), predecessor, r)) <==>
            AllPrintSoFar(chains) && PrintContextAt(init + [r], |init|)
  {
    var next := NextChains(chains, KindBefore(init, |init|), predecessor, r);
    assert KindBefore(init + [r], |init|) == KindBefore(init, |init|);
    assert |chains| <= |next| <= |chains| + 1;
    assert forall j | 0 <= j < |chains| - 1 :: next[j] == chains[j];
    if AllPrintSoFar(next) {
      forall j | 0 <= j < |chains| ensures PrintSoFar(chains[j]) {
        assert PrintSoFar(next[j]);
      }
      assert |next| > |chains| ==> PrintSoFar(next[|chains|]);
      assert chains != [] ==> PrintSoFar(next[|chains| - 1]);
    }
  }

  /** The chains are all print chains exactly when the records say so and the last one is closed. */
  lemma ChainsArePrintChains(records: seq<Record>)
    ensures (forall i | 0 <= i < |Chains(records)| :: PrintChain(Chains(records)[i])) <==>
            PrintContext(records) && KindBefore(records, |records|) != Some(CONTINUE)
  {
    var chains := Chains(records);
    ChainsShowPrintContext(records);
    ChainsAreMaximalRuns(records);
    hide Chains, PrintContext;
    forall i | 0 <= i < |chains| ensures chains[i].records > 0 {
      assert Described(records, chains[i]);
    }
    if forall i | 0 <= i < |chains| :: PrintChain(chains[i]) {
      forall j | 0 <= j < |chains| ensures PrintSoFar(chains[j]) {
        assert PrintChain(chains[j]);
      }
      assert chains != [] ==> PrintChain(chains[|chains| - 1]);
    }
    if PrintContext(records) && KindBefore(records, |records|) != Some(CONTINUE) {
      forall i | 0 <= i < |chains| ensures PrintChain(chains[i]) {
        assert PrintSoFar(chains[i]);
      }
    }
  }

  predicate HasContinue(records: seq<Record>) {
    exists i | 0 <= i < |records| :: records[i].kind == CONTINUE
  }

  /** Both reports are about these bytes, and the marker list repeats what the scan says about CONTINUE. */
  predicate ReportsOf(data: Bytes, prior: StaticReport, d: Diagnostic) {
    && prior.scans == [ReportOf(data, GATE_LIMITS)]
    && (CONTINUE_MARKER in prior.blockers <==> CONTINUE_MARKER in prior.scans[0].blockers)
    && !ContextFails(data) && d.context == Some(ContextOf(data)) && !d.payloadsDecoded
  }

  // Exactly when the marker is resolved, for two honest reports of one byte string: the scan was complete,
  // and in the bytes every run of CONTINUE records stands between a PLS and a SETUP record.
  lemma ContinueResolvedIff(data: Bytes, prior: StaticReport, d: Diagnostic)
    requires ReportsOf(data, prior, d) && !Mismatch(prior, d)
    ensures var f := Frames(data, 0).value;
            CONTINUE_MARKER in ResolutionOf(prior, Some(d)).resolved <==>
              && 0 < |data| <= MAX_STREAM && HasContinue(f)
              && PrintContext(f) && KindBefore(f, |f|) != Some(CONTINUE)
  {
    var f := Frames(data, 0).value;
    BlockersAreConserved(prior, Some(d), ResolutionOf(prior, Some(d)));
    FramesCount(data, 0);
    CompleteScanFrames(data, GATE_LIMITS);
    ContextIsPlain(data);
    ChainsArePrintChains(f);
    if 0 < |data| <= MAX_STREAM {
      CompleteReport(data, GATE_LIMITS, f);
      CountsAgree(data, f);
      hide ReportOf, ResolutionOf, Frames, Chains, PrintContext, RecordsIn, BlockersOf, Types, EndBlockers;
    } else {
      hide ReportOf, ResolutionOf, Frames, Chains, PrintContext, RecordsIn, BlockersOf, Types;
    }
  }

  lemma ContextIsPlain(data: Bytes)
    requires !ContextFails(data)
    ensures Frames(data, 0).Some? && Plain(Frames(data, 0).value)
  {
    var f := Frames(data, 0).value;
    forall i | 0 <= i < |f| ensures f[i].kind != FILEPASS {
      assert Readable(f[i]);
    }
  }

  /** The scan's type table, the chains and the blocker all say whether there are CONTINUE records, and how many. */
  lemma CountsAgree(data: Bytes, f: seq<Record>)
    requires AllFit(data, f)
    ensures RecordsIn(Chains(f)) == CountOf(Types(f), CONTINUE)
    ensures HasContinue(f) <==> CountOf(Types(f), CONTINUE) > 0
    ensures HasContinue(f) <==> ActiveOrContext(CONTINUE) in BlockersOf(data, f)
    ensures HasContinue(f) ==> Chains(f) != []
  {
    ChainsCountContinues(f);
    TypesCount(f, CONTINUE);
    SamePredicate(f);
    CountPositive(f);
    ContinueBlocker(data, f);
    hide Types, BlockersOf, CountIf;
  }

  lemma {:induction false} SamePredicate(f: seq<Record>)
    ensures CountIf(f, IsContinue) == CountIf(f, (r: Record) => r.kind == CONTINUE)
  {
    if f != [] { SamePredicate(f[..|f| - 1]); }
  }

  lemma {:induction false} CountPositive(f: seq<Record>)
    ensures CountIf(f, IsContinue) > 0 <==> HasContinue(f)
  {
    if f != [] {
      var init := f[..|f| - 1];
      CountPositive(init);
      assert forall i | 0 <= i < |init| :: init[i] == f[i];
    }
  }

  lemma ContinueBlocker(data: Bytes, f: seq<Record>)
    requires AllFit(data, f)
    ensures ActiveOrContext(CONTINUE) in BlockersOf(data, f) <==> HasContinue(f)
  {
    hide BlockersOf, BlockersAt;
    if HasContinue(f) {
      var i :| 0 <= i < |f| && f[i].kind == CONTINUE;
      ContinueIsReported(data, f, i);
    }
    if ActiveOrContext(CONTINUE) in BlockersOf(data, f) {
      BlockerComesFromRecord(data, f, ActiveOrContext(CONTINUE));
      var i :| 0 <= i < |f| && ActiveOrContext(CONTINUE) in BlockersAt(data, f, i);
      ContinueBlockerAt(data, f, i);
    }
  }

  lemma ContinueBlockerAt(data: Bytes, f: seq<Record>, i: nat)
    requires AllFit(data, f) && i < |f| && ActiveOrContext(CONTINUE) in BlockersAt(data, f, i)
    ensures f[i].kind == CONTINUE
  {
    hide U16, OpenAfter;
    assert ActiveOrContext(CONTINUE) in KindBlockers(data, i == 0, OpenAfter(f[..i]), f[i]);
  }

  /** The guard implies the resolution: for guarded bytes the marker is resolved whenever it is present. */
  lemma GuardedMarkerIsResolved(data: Bytes, allowed: set<int>, prior: StaticReport, d: Diagnostic)
    requires Guarded(data, allowed) && ReportsOf(data, prior, d) && !Mismatch(prior, d)
    ensures CONTINUE_MARKER in prior.blockers <==> HasContinue(Frames(data, 0).value)
    ensures CONTINUE_MARKER in prior.blockers ==> CONTINUE_MARKER in ResolutionOf(prior, Some(d)).resolved
  {
    var f := Frames(data, 0).value;
    GuardedScanCompletes(data, allowed);
    GuardedPrintContext(data, allowed, f);
    ContinueResolvedIff(data, prior, d);
    hide ReportOf, ResolutionOf, Frames, PrintContext, GuardAll;
  }

  lemma GuardedPrintContext(data: Bytes, allowed: set<int>, f: seq<Record>)
    requires AllFit(data, f) && GuardAll(data, allowed, f)
    ensures PrintContext(f)
  {
    forall i | 0 <= i < |f| ensures PrintContextAt(f, i) {
      assert GuardAt(data, allowed, f, i);
    }
  }
}
