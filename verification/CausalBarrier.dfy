/** `verify_causal_barrier` of replay.py: what it accepts, and what that implies for arbitrary logs. */
module CausalBarrier {
  import opened Basics
  import opened HashChain
  import opened SealedLedger
  import opened ReplayLogs

  // ----- Python slices -----

  /** Where `s[:n]` ends and `s[n:]` starts; a negative `n` counts from the end. */
  function SliceAt(length: nat, n: int): (k: nat)
    ensures k <= length
  {
    if n >= 0 then Min(n, length) else Max(0, length + n)
  }

  // ----- The parts of the verdict -----

  /** No two checkpoints share a unit and origin. */
  predicate DistinctKeys(checkpoints: seq<Line<Checkpoint>>) {
    forall i, j | 0 <= i < j < |checkpoints| :: Key(checkpoints[i].payload) != Key(checkpoints[j].payload)
  }

  function LastRowBefore(checkpoints: seq<Line<Checkpoint>>, i: nat): int
    requires i <= |checkpoints|
  {
    if i == 0 then 0 else checkpoints[i - 1].payload.lastRow
  }

  /** Checkpoint `i` seals the nonempty block of ledger rows right after its predecessor's with its last hash. */
  predicate SealsBlock(ledger: seq<LedgerRow>, checkpoints: seq<Line<Checkpoint>>, i: nat)
    requires i < |checkpoints|
  {
    var c := checkpoints[i].payload;
    && c.firstRow == LastRowBefore(checkpoints, i) + 1
    && 1 <= c.firstRow <= c.lastRow == c.totalRows <= |ledger|
    && c.finalHash == ledger[c.lastRow - 1].link.hash
  }

  /** Checkpoint `i` seals its block, and every row of the block is of its unit and origin. */
  predicate OwnsBlock(ledger: seq<LedgerRow>, checkpoints: seq<Line<Checkpoint>>, i: nat)
    requires i < |checkpoints|
  {
    var c := checkpoints[i].payload;
    && SealsBlock(ledger, checkpoints, i)
    && forall r | c.firstRow - 1 <= r < c.lastRow :: ledger[r].data.unit == c.unit && ledger[r].data.origin == c.origin
  }

  /** The blocks of the checkpoints tile the ledger. */
  predicate BlocksTile(ledger: seq<LedgerRow>, checkpoints: seq<Line<Checkpoint>>) {
    && (forall i | 0 <= i < |checkpoints| :: OwnsBlock(ledger, checkpoints, i))
    && LastRowBefore(checkpoints, |checkpoints|) == |ledger|
  }

  /** A row that requires a checkpoint names one that exists, with both its hashes. */
  predicate Bound(checkpoints: seq<Line<Checkpoint>>, a: Access) {
    a.required.Some? ==>
      var line := FindCheckpoint(checkpoints, a.unit, a.required.value);
      && line.Some? && a.checkpointHash == Some(line.value.hash)
      && a.predictionHash == Some(line.value.payload.finalHash)
  }

  predicate AllBound(checkpoints: seq<Line<Checkpoint>>, accesses: seq<Line<Access>>) {
    forall i | 0 <= i < |accesses| :: Bound(checkpoints, accesses[i].payload)
  }

  /** The accesses of one unit, in log order. */
  function UnitAccesses(accesses: seq<Line<Access>>, unit: string): (r: seq<Access>)
    ensures forall a | a in r :: a.unit == unit
  {
    if accesses == [] then []
    else
      var last := accesses[|accesses| - 1].payload;
      UnitAccesses(accesses[..|accesses| - 1], unit) + if last.unit == unit then [last] else []
  }

  predicate BootstrapRow(a: Access) {
    a.accessType == BOOTSTRAP && a.required.None? && a.checkpointHash.None? && a.predictionHash.None?
  }

  predicate PostRow(a: Access) {
    a.accessType == POST_ORIGIN && a.required.Some? && a.revealed == a.required.value + 1
  }

  predicate HasOrigin(ledger: seq<LedgerRow>, unit: string, origin: int) {
    exists r | 0 <= r < |ledger| :: ledger[r].data.unit == unit && ledger[r].data.origin == origin
  }

  /** `required` lists, in increasing order and once each, exactly the predicted origins of the unit. */
  ghost predicate ListsOrigins(ledger: seq<LedgerRow>, unit: string, post: seq<Access>) {
    && (forall k | 0 <= k < |post| :: post[k].required.Some? && HasOrigin(ledger, unit, post[k].required.value))
    && (forall j, k | 0 <= j < k < |post| :: post[j].required.value < post[k].required.value)
    && (forall o | HasOrigin(ledger, unit, o) :: Requires(post, o))
  }

  predicate Requires(post: seq<Access>, origin: int) {
    exists k | 0 <= k < |post| :: post[k].required == Some(origin)
  }

  /** The reveals of one predicted unit. */
  ghost predicate UnitRevealsOk(ledger: seq<LedgerRow>, unit: string, context: int, seen: seq<Access>) {
    var cut := SliceAt(|seen|, context);
    && (forall k | 0 <= k < |seen| :: seen[k].revealed == k)
    && cut == Max(0, context)
    && (forall k | 0 <= k < cut :: BootstrapRow(seen[k]))
    && ListsOrigins(ledger, unit, seen[cut..])
    && (forall k | cut <= k < |seen| :: PostRow(seen[k]))
    && (forall r | 0 <= r < |ledger| && ledger[r].data.unit == unit :: 0 <= ledger[r].data.expectedTarget < |seen|)
  }

  predicate OneContext(ledger: seq<LedgerRow>) {
    ledger != [] && forall r | 0 <= r < |ledger| :: ledger[r].data.context == ledger[0].data.context
  }

  predicate CommitsPrecedeLabels(ledger: seq<LedgerRow>) {
    forall r | 0 <= r < |ledger| :: ledger[r].data.commitSeq < ledger[r].data.labelSeq
  }

  /** The barrier over the three parsed logs, once their hash chains and seals have been checked. */
  ghost predicate BarrierHolds(ledger: seq<LedgerRow>, checkpoints: seq<Line<Checkpoint>>,
                               accesses: seq<Line<Access>>) {
    && DistinctKeys(checkpoints)
    && BlocksTile(ledger, checkpoints)
    && AllBound(checkpoints, accesses)
    && OneContext(ledger)
    && (forall r | 0 <= r < |ledger| ::
          UnitRevealsOk(ledger, ledger[r].data.unit, ledger[0].data.context,
                        UnitAccesses(accesses, ledger[r].data.unit)))
    && CommitsPrecedeLabels(ledger)
  }

  // ----- What acceptance implies -----

  /** First origin of every predicted unit. It is `context - 1` exactly when the context is not negative. */
  function FirstOrigin(context: int): int {
    Max(0, context) - 1
  }

  /** The origins of a predicted unit are consecutive, starting at `FirstOrigin`; each is bound to the next reveal. */
  lemma OriginsAreConsecutive(ledger: seq<LedgerRow>, unit: string, context: int, seen: seq<Access>, origin: int)
    requires UnitRevealsOk(ledger, unit, context, seen)
    ensures HasOrigin(ledger, unit, origin) <==> FirstOrigin(context) <= origin < |seen| - 1
  {
    var cut := SliceAt(|seen|, context);
    var post := seen[cut..];
    forall k | 0 <= k < |post|
      ensures post[k].required == Some(cut + k - 1)
    {
      assert PostRow(seen[cut + k]);
    }
    if HasOrigin(ledger, unit, origin) {
      assert Requires(post, origin);
    }
    if FirstOrigin(context) <= origin < |seen| - 1 {
      var k := origin + 1 - cut;
      assert post[k].required == Some(origin);
    }
  }

  /** The checkpoint whose block holds ledger row `r`. */
  lemma {:induction false} BlockOfRow(ledger: seq<LedgerRow>, checkpoints: seq<Line<Checkpoint>>, n: nat, r: int)
    returns (i: nat)
    requires n <= |checkpoints| && forall k | 0 <= k < |checkpoints| :: OwnsBlock(ledger, checkpoints, k)
    requires 0 <= r < LastRowBefore(checkpoints, n)
    ensures i < n && checkpoints[i].payload.firstRow - 1 <= r < checkpoints[i].payload.lastRow
  {
    assert OwnsBlock(ledger, checkpoints, n - 1);
    if checkpoints[n - 1].payload.firstRow - 1 <= r {
      i := n - 1;
    } else {
      i := BlockOfRow(ledger, checkpoints, n - 1, r);
    }
  }

  /** Each predicted origin is one contiguous block of the ledger, owned by the one checkpoint of that origin. */
  lemma OriginIsOneBlock(ledger: seq<LedgerRow>, checkpoints: seq<Line<Checkpoint>>, r: nat) returns (i: nat)
    requires DistinctKeys(checkpoints) && BlocksTile(ledger, checkpoints) && r < |ledger|
    ensures i < |checkpoints| && Key(checkpoints[i].payload) == (ledger[r].data.unit, ledger[r].data.origin)
    ensures 1 <= checkpoints[i].payload.firstRow <= checkpoints[i].payload.lastRow <= |ledger|
    ensures forall q | 0 <= q < |ledger| ::
              ledger[q].data.unit == ledger[r].data.unit && ledger[q].data.origin == ledger[r].data.origin <==>
              checkpoints[i].payload.firstRow - 1 <= q < checkpoints[i].payload.lastRow
    ensures checkpoints[i].payload.finalHash == ledger[checkpoints[i].payload.lastRow - 1].link.hash
  {
    i := BlockOfRow(ledger, checkpoints, |checkpoints|, r);
    assert OwnsBlock(ledger, checkpoints, i);
    forall q | 0 <= q < |ledger| && ledger[q].data.unit == ledger[r].data.unit
      && ledger[q].data.origin == ledger[r].data.origin
      ensures checkpoints[i].payload.firstRow - 1 <= q < checkpoints[i].payload.lastRow
    {
      var j := BlockOfRow(ledger, checkpoints, |checkpoints|, q);
      assert OwnsBlock(ledger, checkpoints, j);
      SameKeySameIndex(checkpoints, i, j);
    }
  }

  /** The reveal right after a predicted origin names that origin and carries both hashes of its checkpoint. */
  lemma RevealNamesItsBlock(ledger: seq<LedgerRow>, checkpoints: seq<Line<Checkpoint>>, accesses: seq<Line<Access>>,
                            unit: string, context: int, origin: int, i: nat)
    requires DistinctKeys(checkpoints) && AllBound(checkpoints, accesses)
    requires UnitRevealsOk(ledger, unit, context, UnitAccesses(accesses, unit)) && HasOrigin(ledger, unit, origin)
    requires i < |checkpoints| && Key(checkpoints[i].payload) == (unit, origin)
    ensures 0 <= origin + 1 < |UnitAccesses(accesses, unit)|
    ensures UnitAccesses(accesses, unit)[origin + 1] ==
            Access(POST_ORIGIN, unit, origin + 1, Some(origin), Some(checkpoints[i].hash),
                   Some(checkpoints[i].payload.finalHash))
  {
    var seen := UnitAccesses(accesses, unit);
    OriginsAreConsecutive(ledger, unit, context, seen, origin);
    assert seen[origin + 1] in seen && PostRow(seen[origin + 1]);
    RevealIsBound(checkpoints, accesses, unit, origin + 1);
    var found := FindCheckpoint(checkpoints, unit, origin);
    var j :| 0 <= j < |checkpoints| && checkpoints[j] == found.value;
    SameKeySameIndex(checkpoints, i, j);
  }

  /** Event `k` of a unit was revealed by bootstrap up to the context, and after origin `k - 1` past it. */
  predicate RevealedInTurn(a: Access, unit: string, context: int, k: nat) {
    && a.unit == unit && a.revealed == k
    && (k < context ==> a == Access("bootstrap_context_reveal", unit, k, None, None, None))
    && (k >= context ==> a.accessType == "post_origin_checkpoint_reveal" && a.required == Some(k - 1))
  }

  lemma RevealsInTurn(ledger: seq<LedgerRow>, unit: string, context: int, seen: seq<Access>)
    requires UnitRevealsOk(ledger, unit, context, seen) && forall a | a in seen :: a.unit == unit
    ensures forall k: nat | k < |seen| :: RevealedInTurn(seen[k], unit, context, k)
  {
    hide ListsOrigins;
    forall k: nat | k < |seen|
      ensures RevealedInTurn(seen[k], unit, context, k)
    {
      assert seen[k] in seen;
      if k < SliceAt(|seen|, context) {
        assert BootstrapRow(seen[k]);
      } else {
        assert PostRow(seen[k]);
      }
    }
  }

  // Soundness for arbitrary logs. Every predicted row lies in the block of exactly one checkpoint
  // `i`; that block holds exactly the rows of its unit and origin; origins run consecutively from
  // `FirstOrigin`; the reveal after an origin carries the hash of its checkpoint and the final
  // hash of its block; no target lies past the event after the last origin; the row has the one
  // frozen context and was committed before its label; and the events of its unit were revealed
  // in order, by bootstrap up to the context and after the origin before them past it.
  lemma AcceptanceImplies(ledger: seq<LedgerRow>, checkpoints: seq<Line<Checkpoint>>, accesses: seq<Line<Access>>,
                          r: nat)
    returns (i: nat)
    requires BarrierHolds(ledger, checkpoints, accesses) && r < |ledger|
    ensures i < |checkpoints| && 1 <= checkpoints[i].payload.firstRow <= checkpoints[i].payload.lastRow <= |ledger|
    ensures forall q | 0 <= q < |ledger| ::
              ledger[q].data.unit == ledger[r].data.unit && ledger[q].data.origin == ledger[r].data.origin <==>
              checkpoints[i].payload.firstRow - 1 <= q < checkpoints[i].payload.lastRow
    ensures forall o ::
              HasOrigin(ledger, ledger[r].data.unit, o) <==>
              FirstOrigin(ledger[r].data.context) <= o < |UnitAccesses(accesses, ledger[r].data.unit)| - 1
    ensures 0 <= ledger[r].data.origin + 1 < |UnitAccesses(accesses, ledger[r].data.unit)|
    ensures UnitAccesses(accesses, ledger[r].data.unit)[ledger[r].data.origin + 1] ==
            Access(POST_ORIGIN, ledger[r].data.unit, ledger[r].data.origin + 1, Some(ledger[r].data.origin),
                   Some(checkpoints[i].hash), Some(ledger[checkpoints[i].payload.lastRow - 1].link.hash))
    ensures 0 <= ledger[r].data.expectedTarget < |UnitAccesses(accesses, ledger[r].data.unit)|
    ensures ledger[r].data.commitSeq < ledger[r].data.labelSeq && ledger[r].data.context == ledger[0].data.context
    ensures var unit, context := ledger[r].data.unit, ledger[r].data.context;
            var seen := UnitAccesses(accesses, unit);
            forall k: nat | k < |seen| :: RevealedInTurn(seen[k], unit, context, k)
  {
    var p := ledger[r].data;
    var seen := UnitAccesses(accesses, p.unit);
    assert UnitRevealsOk(ledger, p.unit, p.context, seen) && p.expectedTarget < |seen|;
    assert p.commitSeq < p.labelSeq && p.context == ledger[0].data.context;
    RevealsInTurn(ledger, p.unit, p.context, seen);
    hide *;
    i := OriginIsOneBlock(ledger, checkpoints, r);
    forall o
      ensures HasOrigin(ledger, p.unit, o) <==> FirstOrigin(p.context) <= o < |seen| - 1
    {
      OriginsAreConsecutive(ledger, p.unit, p.context, seen, o);
    }
    RevealNamesItsBlock(ledger, checkpoints, accesses, p.unit, p.context, p.origin, i);
  }

  lemma SameKeySameIndex(checkpoints: seq<Line<Checkpoint>>, i: nat, j: nat)
    requires DistinctKeys(checkpoints) && i < |checkpoints| && j < |checkpoints|
    requires Key(checkpoints[i].payload) == Key(checkpoints[j].payload)
    ensures i == j
  {
  }

  lemma {:induction false} RevealIsBound(checkpoints: seq<Line<Checkpoint>>, accesses: seq<Line<Access>>, unit: string,
                                         k: nat)
    requires AllBound(checkpoints, accesses) && k < |UnitAccesses(accesses, unit)|
    ensures Bound(checkpoints, UnitAccesses(accesses, unit)[k])
  {
    var n := |accesses| - 1;
    assert Bound(checkpoints, accesses[n].payload);
    if k < |UnitAccesses(accesses[..n], unit)| {
      RevealIsBound(checkpoints, accesses[..n], unit, k);
    }
  }

  /** The separate check that every predicted origin has a checkpoint can never fail once the blocks tile. */
  lemma OriginCheckIsRedundant(ledger: seq<LedgerRow>, checkpoints: seq<Line<Checkpoint>>, r: nat)
    requires BlocksTile(ledger, checkpoints) && r < |ledger|
    ensures FindCheckpoint(checkpoints, ledger[r].data.unit, ledger[r].data.origin).Some?
  {
    var i := BlockOfRow(ledger, checkpoints, |checkpoints|, r);
    assert OwnsBlock(ledger, checkpoints, i);
  }

  /** A predicted unit starts at the origin its context asks for exactly when the context is not negative. */
  lemma FirstOriginMeetsContext(ledger: seq<LedgerRow>, checkpoints: seq<Line<Checkpoint>>, accesses: seq<Line<Access>>,
                                r: nat)
    requires BarrierHolds(ledger, checkpoints, accesses) && r < |ledger|
    ensures var context, unit := ledger[r].data.context, ledger[r].data.unit;
            && ledger[0].data.context == context
            && HasOrigin(ledger, unit, FirstOrigin(context))
            && (forall o | HasOrigin(ledger, unit, o) :: o >= FirstOrigin(context))
            && (context >= 0 <==> HasOrigin(ledger, unit, context - 1))
  {
    var context, unit, origin := ledger[r].data.context, ledger[r].data.unit, ledger[r].data.origin;
    assert UnitRevealsOk(ledger, unit, context, UnitAccesses(accesses, unit));
    assert HasOrigin(ledger, unit, origin);
    hide UnitRevealsOk, UnitAccesses, AllBound, BlocksTile;
    forall o
      ensures HasOrigin(ledger, unit, o) <==> FirstOrigin(context) <= o < |UnitAccesses(accesses, unit)| - 1
    {
      OriginsAreConsecutive(ledger, unit, context, UnitAccesses(accesses, unit), o);
    }
    hide HasOrigin;
  }
}
