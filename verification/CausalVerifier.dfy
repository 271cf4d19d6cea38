/** The loops of replay.py that verify logs and the causal barrier, proved against CausalBarrier. */
module CausalVerifier {
  import opened Basics
  import opened HashChain
  import opened SealedLedger
  import opened ReplayLogs
  import opened CausalBarrier

  datatype Evidence = Evidence(rowCount: nat, finalHash: string, fileHash: string)

  /** The lineage entries of the prediction seal that bind the two logs; an absent entry reads as none. */
  datatype Lineage = Lineage(checkpointLog: Option<string>, checkpointEvidence: Option<Evidence>,
                             accessLog: Option<string>, accessEvidence: Option<Evidence>)

  /** Whole-file digests. */
  datatype FileHashes = FileHashes(ledger: File<Prediction> -> string,
                                   checkpoints: seq<Line<Checkpoint>> -> string, accesses: seq<Line<Access>> -> string)

  /** The four files handed to the verifier, with the names of the two logs. */
  datatype Artifacts = Artifacts(ledger: File<Prediction>, seal: Seal, lineage: Lineage,
                                 checkpointName: string, checkpoints: seq<Line<Checkpoint>>,
                                 accessName: string, accesses: seq<Line<Access>>)

  predicate LogVerifies<P>(sha: Sha, text: P -> string, lines: seq<Line<P>>) {
    Chained(sha, LineLinks(text, lines))
  }

  function EvidenceOf<P>(fileHash: seq<Line<P>> -> string, lines: seq<Line<P>>): Evidence {
    Evidence(|lines|, LastLineHash(lines), fileHash(lines))
  }

  /** The seal names the two logs it was made for and carries their evidence. */
  predicate LineageBinds(hashes: FileHashes, a: Artifacts) {
    && a.lineage.checkpointLog == Some(a.checkpointName)
    && a.lineage.accessLog == Some(a.accessName)
    && a.lineage.checkpointEvidence == Some(EvidenceOf(hashes.checkpoints, a.checkpoints))
    && a.lineage.accessEvidence == Some(EvidenceOf(hashes.accesses, a.accesses))
  }

  /** What the verifier accepts. */
  ghost predicate Accepted(e: Encoding, hashes: FileHashes, a: Artifacts) {
    && Sealed(e.sha, hashes.ledger, a.ledger, a.seal)
    && LogVerifies(e.sha, e.checkpointText, a.checkpoints)
    && LogVerifies(e.sha, e.accessText, a.accesses)
    && LineageBinds(hashes, a)
    && BarrierHolds(a.ledger.rows, a.checkpoints, a.accesses)
  }

  /** `verify_jsonl_chain`. */
  method VerifyJsonlChain<P>(sha: Sha, text: P -> string, fileHash: seq<Line<P>> -> string, lines: seq<Line<P>>)
    returns (r: Result<Evidence>)
    ensures r.Success? <==> LogVerifies(sha, text, lines)
    ensures r.Success? ==> r.value == EvidenceOf(fileHash, lines)
  {
    var chain := VerifyLinks(sha, LineLinks(text, lines));
    if chain.Failure? { return Failure(chain.error); }
    return Success(Evidence(chain.value.0, chain.value.1, fileHash(lines)));
  }

  /** The checkpoint dictionary, refused when a key repeats. */
  method IndexCheckpoints(checkpoints: seq<Line<Checkpoint>>) returns (r: Option<map<(string, int), Line<Checkpoint>>>)
    ensures r.Some? <==> DistinctKeys(checkpoints)
    ensures r.Some? ==>
              forall unit, origin :: Lookup(r.value, unit, origin) == FindCheckpoint(checkpoints, unit, origin)
  {
    var index: map<(string, int), Line<Checkpoint>> := map[];
    for i := 0 to |checkpoints|
      invariant DistinctKeys(checkpoints[..i])
      invariant forall unit, origin :: Lookup(index, unit, origin) == FindCheckpoint(checkpoints[..i], unit, origin)
    {
      var line := checkpoints[i];
      var key := Key(line.payload);
      var found := Lookup(index, key.0, key.1);
      if key in index { return None; }
      assert checkpoints[..i + 1][..i] == checkpoints[..i];
      index := index[key := line];
    }
    assert checkpoints[..|checkpoints|] == checkpoints;
    return Some(index);
  }

  function Lookup(index: map<(string, int), Line<Checkpoint>>, unit: string, origin: int): Option<Line<Checkpoint>> {
    if (unit, origin) in index then Some(index[(unit, origin)]) else None
  }

  /** Contiguous row ranges, each owned by one unit and origin and bound to its last row hash. */
  method CheckBlocks(ledger: seq<LedgerRow>, checkpoints: seq<Line<Checkpoint>>) returns (ok: bool)
    ensures ok <==> BlocksTile(ledger, checkpoints)
  {
    var previousLast := 0;
    for i := 0 to |checkpoints|
      invariant previousLast == LastRowBefore(checkpoints, i) >= 0
      invariant forall k | 0 <= k < i :: OwnsBlock(ledger, checkpoints, k)
    {
      var c := checkpoints[i].payload;
      ghost var owns := OwnsBlock(ledger, checkpoints, i);
      if c.firstRow != previousLast + 1 || c.lastRow < c.firstRow { return false; }
      if c.totalRows != c.lastRow || c.lastRow > |ledger| { return false; }
      for r := c.firstRow - 1 to c.lastRow
        invariant forall q | c.firstRow - 1 <= q < r ::
                    ledger[q].data.unit == c.unit && ledger[q].data.origin == c.origin
      {
        if ledger[r].data.unit != c.unit || ledger[r].data.origin != c.origin { return false; }
      }
      if c.finalHash != ledger[c.lastRow - 1].link.hash { return false; }
      previousLast := c.lastRow;
    }
    return previousLast == |ledger|;
  }

  /** Every reveal that requires an origin names its checkpoint and both hashes. */
  method CheckBindings(checkpoints: seq<Line<Checkpoint>>, index: map<(string, int), Line<Checkpoint>>,
                       accesses: seq<Line<Access>>)
    returns (ok: bool)
    requires forall unit, origin :: Lookup(index, unit, origin) == FindCheckpoint(checkpoints, unit, origin)
    ensures ok <==> AllBound(checkpoints, accesses)
  {
    for i := 0 to |accesses|
      invariant forall k | 0 <= k < i :: Bound(checkpoints, accesses[k].payload)
    {
      var a := accesses[i].payload;
      if a.required.None? { continue; }
      var line := Lookup(index, a.unit, a.required.value);
      if line.None? || a.checkpointHash != Some(line.value.hash)
         || a.predictionHash != Some(line.value.payload.finalHash)
      {
        assert !Bound(checkpoints, a);
        return false;
      }
    }
    return true;
  }

  method CheckContext(ledger: seq<LedgerRow>) returns (ok: bool)
    ensures ok <==> OneContext(ledger)
  {
    if ledger == [] { return false; }
    for r := 0 to |ledger|
      invariant forall q | 0 <= q < r :: ledger[q].data.context == ledger[0].data.context
    {
      if ledger[r].data.context != ledger[0].data.context { return false; }
    }
    return true;
  }

  method CheckCommits(ledger: seq<LedgerRow>) returns (ok: bool)
    ensures ok <==> CommitsPrecedeLabels(ledger)
  {
    for r := 0 to |ledger|
      invariant forall q | 0 <= q < r :: ledger[q].data.commitSeq < ledger[q].data.labelSeq
    {
      if ledger[r].data.commitSeq >= ledger[r].data.labelSeq { return false; }
    }
    return true;
  }

  // ----- One predicted unit -----

  predicate Increasing(s: seq<int>) {
    forall i, j | 0 <= i < j < |s| :: s[i] < s[j]
  }

  /** Insert a value into an increasing sequence, unless it is there. */
  method InsertSorted(s: seq<int>, x: int) returns (t: seq<int>)
    requires Increasing(s)
    ensures Increasing(t) && forall y :: y in t <==> y in s || y == x
  {
    var k := 0;
    while k < |s| && s[k] < x
      invariant 0 <= k <= |s| && forall i | 0 <= i < k :: s[i] < x
    {
      k := k + 1;
    }
    if k < |s| && s[k] == x { return s; }
    t := s[..k] + [x] + s[k..];
    forall y ensures y in t <==> y in s || y == x {
      assert s == s[..k] + s[k..];
    }
  }

  /** `sorted` over the distinct origins of one unit. */
  method SortedOrigins(ledger: seq<LedgerRow>, unit: string) returns (origins: seq<int>)
    ensures Increasing(origins) && forall o :: o in origins <==> HasOrigin(ledger, unit, o)
  {
    origins := [];
    for r := 0 to |ledger|
      invariant Increasing(origins)
      invariant forall o :: o in origins <==> HasOrigin(ledger[..r], unit, o)
    {
      forall o
        ensures HasOrigin(ledger[..r + 1], unit, o) <==>
                HasOrigin(ledger[..r], unit, o) || (ledger[r].data.unit == unit && ledger[r].data.origin == o)
      {
        assert ledger[..r + 1] == ledger[..r] + [ledger[r]];
      }
      if ledger[r].data.unit == unit {
        origins := InsertSorted(origins, ledger[r].data.origin);
      }
    }
    assert ledger[..|ledger|] == ledger;
  }

  /** The reveals after the bootstrap authorise exactly the predicted origins, in order. */
  method CheckPostOrigins(ledger: seq<LedgerRow>, unit: string, post: seq<Access>) returns (ok: bool)
    ensures ok <==> ListsOrigins(ledger, unit, post)
  {
    var origins := SortedOrigins(ledger, unit);
    var required: seq<int> := [];
    for k := 0 to |post|
      invariant |required| == k && forall j | 0 <= j < k :: post[j].required == Some(required[j])
    {
      if post[k].required.None? { return false; }
      required := required + [post[k].required.value];
    }
    ListsMatchesSorted(ledger, unit, post, required, origins);
    return required == origins;
  }

  lemma ListsMatchesSorted(ledger: seq<LedgerRow>, unit: string, post: seq<Access>, required: seq<int>,
                           origins: seq<int>)
    requires |required| == |post| && forall j | 0 <= j < |post| :: post[j].required == Some(required[j])
    requires Increasing(origins) && forall o :: o in origins <==> HasOrigin(ledger, unit, o)
    ensures ListsOrigins(ledger, unit, post) <==> required == origins
  {
    if required == origins {
      forall o | HasOrigin(ledger, unit, o) ensures Requires(post, o) {
        var k :| 0 <= k < |origins| && origins[k] == o;
        assert post[k].required == Some(o);
      }
      assert forall k | 0 <= k < |post| :: required[k] in origins;
    }
    if ListsOrigins(ledger, unit, post) {
      assert Increasing(required);
      forall o ensures o in required <==> o in origins {
        if o in origins {
          assert Requires(post, o);
          var k :| 0 <= k < |post| && post[k].required == Some(o);
          assert required[k] == o;
        }
        if o in required {
          var k :| 0 <= k < |required| && required[k] == o;
          assert HasOrigin(ledger, unit, post[k].required.value);
        }
      }
      IncreasingUnique(required, origins);
    }
  }

  /** An increasing sequence is determined by its elements. */
  lemma {:induction false} IncreasingUnique(s: seq<int>, t: seq<int>)
    requires Increasing(s) && Increasing(t) && forall x :: x in s <==> x in t
    ensures s == t
  {
    assert (s != [] ==> s[0] in s) && (t != [] ==> t[0] in t);
    if s != [] && t != [] {
      forall x ensures x in s[1..] <==> x in t[1..] {
        IncreasingTail(s, x);
        IncreasingTail(t, x);
      }
      IncreasingUnique(s[1..], t[1..]);
      assert s == [s[0]] + s[1..] && t == [t[0]] + t[1..];
    }
  }

  lemma IncreasingTail(s: seq<int>, x: int)
    requires Increasing(s) && s != []
    ensures x in s[1..] <==> x in s && x > s[0]
  {
    assert s == [s[0]] + s[1..];
  }

  method CheckConsecutive(seen: seq<Access>) returns (ok: bool)
    ensures ok <==> forall k | 0 <= k < |seen| :: seen[k].revealed == k
  {
    for k := 0 to |seen|
      invariant forall j | 0 <= j < k :: seen[j].revealed == j
    {
      if seen[k].revealed != k { return false; }
    }
    return true;
  }

  method CheckBootstrap(seen: seq<Access>, cut: nat) returns (ok: bool)
    requires cut <= |seen|
    ensures ok <==> forall k | 0 <= k < cut :: BootstrapRow(seen[k])
  {
    for k := 0 to cut
      invariant forall j | 0 <= j < k :: BootstrapRow(seen[j])
    {
      if !BootstrapRow(seen[k]) { return false; }
    }
    return true;
  }

  method CheckPostRows(seen: seq<Access>, cut: nat) returns (ok: bool)
    requires cut <= |seen|
    ensures ok <==> forall k | cut <= k < |seen| :: PostRow(seen[k])
  {
    for k := cut to |seen|
      invariant forall j | cut <= j < k :: PostRow(seen[j])
    {
      if !PostRow(seen[k]) { return false; }
    }
    return true;
  }

  /** Every target of the unit was revealed. */
  method CheckTargets(ledger: seq<LedgerRow>, unit: string, revealed: nat) returns (ok: bool)
    ensures ok <==> forall r | 0 <= r < |ledger| && ledger[r].data.unit == unit ::
              0 <= ledger[r].data.expectedTarget < revealed
  {
    for r := 0 to |ledger|
      invariant forall q | 0 <= q < r && ledger[q].data.unit == unit :: 0 <= ledger[q].data.expectedTarget < revealed
    {
      if ledger[r].data.unit == unit && !(0 <= ledger[r].data.expectedTarget < revealed) { return false; }
    }
    return true;
  }

  /** The checks on the reveals of one predicted unit. */
  method CheckUnit(ledger: seq<LedgerRow>, unit: string, context: int, seen: seq<Access>) returns (ok: bool)
    ensures ok <==> UnitRevealsOk(ledger, unit, context, seen)
  {
    hide ListsOrigins, BootstrapRow, PostRow;
    var cut := SliceAt(|seen|, context);
    var consecutive := CheckConsecutive(seen);
    if !consecutive || cut != Max(0, context) { return false; }
    var bootstrap := CheckBootstrap(seen, cut);
    if !bootstrap { return false; }
    var authorised := CheckPostOrigins(ledger, unit, seen[cut..]);
    if !authorised { return false; }
    var post := CheckPostRows(seen, cut);
    if !post { return false; }
    ok := CheckTargets(ledger, unit, |seen|);
  }

  /** `unit_access`: the access rows of one unit, in log order. */
  method FilterUnit(accesses: seq<Line<Access>>, unit: string) returns (seen: seq<Access>)
    ensures seen == UnitAccesses(accesses, unit)
  {
    seen := [];
    for i := 0 to |accesses|
      invariant seen == UnitAccesses(accesses[..i], unit)
    {
      assert accesses[..i + 1][..i] == accesses[..i];
      if accesses[i].payload.unit == unit { seen := seen + [accesses[i].payload]; }
    }
    assert accesses[..|accesses|] == accesses;
  }

  /** Every predicted unit, each checked once. */
  method CheckUnits(ledger: seq<LedgerRow>, accesses: seq<Line<Access>>, context: int) returns (ok: bool)
    ensures ok <==> forall r | 0 <= r < |ledger| ::
                      UnitRevealsOk(ledger, ledger[r].data.unit, context, UnitAccesses(accesses, ledger[r].data.unit))
  {
    var done: set<string> := {};
    for r := 0 to |ledger|
      invariant forall q | 0 <= q < r :: ledger[q].data.unit in done
      invariant forall u | u in done :: UnitRevealsOk(ledger, u, context, UnitAccesses(accesses, u))
    {
      var unit := ledger[r].data.unit;
      if unit !in done {
        var seen := FilterUnit(accesses, unit);
        var good := CheckUnit(ledger, unit, context, seen);
        if !good { return false; }
        done := done + {unit};
      }
    }
    return true;
  }

  /** The check that every predicted origin has a checkpoint. */
  method CheckOrigins(ledger: seq<LedgerRow>, checkpoints: seq<Line<Checkpoint>>,
                      index: map<(string, int), Line<Checkpoint>>)
    returns (ok: bool)
    requires BlocksTile(ledger, checkpoints)
    requires forall unit, origin :: Lookup(index, unit, origin) == FindCheckpoint(checkpoints, unit, origin)
    ensures ok
  {
    for r := 0 to |ledger| {
      OriginCheckIsRedundant(ledger, checkpoints, r);
      if Lookup(index, ledger[r].data.unit, ledger[r].data.origin).None? { return false; }
    }
    return true;
  }

  /** The barrier over the three parsed logs. */
  method CheckBarrier(ledger: seq<LedgerRow>, checkpoints: seq<Line<Checkpoint>>, accesses: seq<Line<Access>>)
    returns (ok: bool)
    ensures ok <==> BarrierHolds(ledger, checkpoints, accesses)
  {
    hide CommitsPrecedeLabels, UnitRevealsOk, BlocksTile, AllBound, DistinctKeys, FindCheckpoint;
    var index := IndexCheckpoints(checkpoints);
    if index.None? { return false; }
    var blocks := CheckBlocks(ledger, checkpoints);
    if !blocks { return false; }
    var origins := CheckOrigins(ledger, checkpoints, index.value);
    var bindings := CheckBindings(checkpoints, index.value, accesses);
    if !origins || !bindings { return false; }
    var oneContext := CheckContext(ledger);
    if !oneContext { return false; }
    var units := CheckUnits(ledger, accesses, ledger[0].data.context);
    if !units { return false; }
    ok := CheckCommits(ledger);
  }

  /** `verify_causal_barrier`: chains, seal, lineage, then the barrier. */
  method VerifyCausalBarrier(e: Encoding, hashes: FileHashes, a: Artifacts) returns (ok: bool)
    ensures ok <==> Accepted(e, hashes, a)
  {
    var sealed := VerifySealedLedger(e.sha, hashes.ledger, a.ledger, a.seal);
    if !sealed { return false; }
    var checkpointEvidence := VerifyJsonlChain(e.sha, e.checkpointText, hashes.checkpoints, a.checkpoints);
    if checkpointEvidence.Failure? { return false; }
    var accessEvidence := VerifyJsonlChain(e.sha, e.accessText, hashes.accesses, a.accesses);
    if accessEvidence.Failure? { return false; }
    if a.lineage.checkpointLog != Some(a.checkpointName) || a.lineage.accessLog != Some(a.accessName)
       || a.lineage.checkpointEvidence != Some(checkpointEvidence.value)
       || a.lineage.accessEvidence != Some(accessEvidence.value)
    {
      return false;
    }
    ok := CheckBarrier(a.ledger.rows, a.checkpoints, a.accesses);
  }
}
