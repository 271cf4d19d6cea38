// The logs of every honest run are accepted by the barrier: what each operation keeps of the facts the verifier
// checks, and what the kept facts add up to at the end of the run.
module BarrierCompleteness {
  import opened Basics
  import opened HashChain
  import opened SealedLedger
  import opened ReplayLogs
  import opened CausalBarrier
  import opened CausalVerifier

  // ----- What every operation keeps -----

  predicate ChainsOk(e: Encoding, logs: Logs) {
    && Chained(e.sha, Links(logs.ledger))
    && LogVerifies(e.sha, e.checkpointText, logs.checkpoints)
    && LogVerifies(e.sha, e.accessText, logs.accesses)
  }

  predicate RowsOk(plan: Plan, ledger: seq<LedgerRow>) {
    forall r | 0 <= r < |ledger| ::
      RowOf(plan, ledger[r].data.unit, |plan.series(ledger[r].data.unit)|, ledger[r].data.origin, ledger[r].data)
  }

  /** The files agree with each other, whatever has been revealed so far. */
  predicate Consistent(e: Encoding, plan: Plan, logs: Logs) {
    && ChainsOk(e, logs)
    && RowsOk(plan, logs.ledger)
    && DistinctKeys(logs.checkpoints)
    && BlocksTile(logs.ledger, logs.checkpoints)
    && AllBound(logs.checkpoints, logs.accesses)
  }

  /** The reveals of a unit are bootstrap rows up to the context, then one row per committed origin. */
  ghost predicate Shape(context: int, ledger: seq<LedgerRow>, unit: string, seen: seq<Access>) {
    && (forall k | 0 <= k < |seen| :: seen[k].revealed == k)
    && (forall k | 0 <= k < |seen| && k < context :: BootstrapRow(seen[k]))
    && (forall k | 0 <= k < |seen| && k >= context :: PostRow(seen[k]))
    && (forall o :: HasOrigin(ledger, unit, o) <==> context - 1 <= o < |seen| - 1)
  }

  ghost predicate AllShapes(context: int, logs: Logs) {
    forall unit :: Shape(context, logs.ledger, unit, UnitAccesses(logs.accesses, unit))
  }

  // ----- Hash chains -----

  lemma LineLinksSnoc<P>(sha: Sha, text: P -> string, lines: seq<Line<P>>, payload: P)
    requires LogVerifies(sha, text, lines)
    ensures LogVerifies(sha, text, lines + [NextLine(sha, text, lines, payload)])
  {
    var links := LineLinks(text, lines);
    ChainedSnoc(sha, links, text(payload));
    assert LineLinks(text, lines + [NextLine(sha, text, lines, payload)]) == links +
      [NextLink(sha, LastHash(links), text(payload))];
  }

  lemma LinksSnoc(ledger: seq<LedgerRow>, row: LedgerRow)
    ensures Links(ledger + [row]) == Links(ledger) + [row.link]
  {
  }

  lemma RowChains(e: Encoding, ledger: seq<LedgerRow>, row: Prediction)
    requires Chained(e.sha, Links(ledger))
    ensures Chained(e.sha, Links(ledger + [Row(row, NextLink(e.sha, LastRowHash(ledger), e.rowText(row)))]))
  {
    hide Chained;
    ChainedSnoc(e.sha, Links(ledger), e.rowText(row));
    LinksSnoc(ledger, Row(row, NextLink(e.sha, LastRowHash(ledger), e.rowText(row))));
  }

  lemma {:induction false} RowsChain(e: Encoding, logs: Logs, rows: seq<Prediction>)
    requires Chained(e.sha, Links(logs.ledger))
    ensures Chained(e.sha, Links(AppendRows(e, logs, rows).ledger))
  {
    hide Chained;
    if rows != [] {
      var init, row := rows[..|rows| - 1], rows[|rows| - 1];
      RowsChain(e, logs, init);
      RowChains(e, AppendRows(e, logs, init).ledger, row);
    }
  }

  // ----- Blocks and keys -----

  /** A checkpoint exists only for an origin with rows. */
  lemma CheckpointHasRows(ledger: seq<LedgerRow>, checkpoints: seq<Line<Checkpoint>>, i: nat)
    requires BlocksTile(ledger, checkpoints) && i < |checkpoints|
    ensures HasOrigin(ledger, checkpoints[i].payload.unit, checkpoints[i].payload.origin)
  {
    assert OwnsBlock(ledger, checkpoints, i);
    var r := checkpoints[i].payload.firstRow - 1;
    assert ledger[r].data.unit == checkpoints[i].payload.unit;
  }

  /** Appending one batch and its checkpoint keeps the blocks tiling. */
  lemma BatchTiles(ledger: seq<LedgerRow>, checkpoints: seq<Line<Checkpoint>>, more: seq<LedgerRow>,
                   line: Line<Checkpoint>)
    requires BlocksTile(ledger, checkpoints) && ledger <= more && |ledger| < |more|
    requires forall r | |ledger| <= r < |more| ::
               more[r].data.unit == line.payload.unit && more[r].data.origin == line.payload.origin
    requires line.payload == Checkpoint(line.payload.unit, line.payload.origin, |ledger| + 1, |more|, |more|,
                                        more[|more| - 1].link.hash)
    ensures BlocksTile(more, checkpoints + [line])
  {
    var next := checkpoints + [line];
    forall i | 0 <= i < |checkpoints|
      ensures OwnsBlock(more, next, i)
    {
      assert OwnsBlock(ledger, checkpoints, i);
      BlockStays(ledger, checkpoints, more, next, i);
    }
    assert LastRowBefore(next, |checkpoints|) == LastRowBefore(checkpoints, |checkpoints|) == |ledger|;
  }

  lemma BlockStays(ledger: seq<LedgerRow>, checkpoints: seq<Line<Checkpoint>>, more: seq<LedgerRow>,
                   next: seq<Line<Checkpoint>>, i: nat)
    requires i < |checkpoints| && ledger <= more && checkpoints <= next && OwnsBlock(ledger, checkpoints, i)
    ensures OwnsBlock(more, next, i)
  {
    assert LastRowBefore(next, i) == LastRowBefore(checkpoints, i);
    assert forall r | 0 <= r < |ledger| :: more[r] == ledger[r];
  }

  /** A new key does not disturb the lookups that already succeed. */
  lemma BoundStays(checkpoints: seq<Line<Checkpoint>>, line: Line<Checkpoint>, accesses: seq<Line<Access>>)
    requires AllBound(checkpoints, accesses)
    requires forall i | 0 <= i < |checkpoints| :: Key(checkpoints[i].payload) != Key(line.payload)
    ensures AllBound(checkpoints + [line], accesses)
  {
    assert (checkpoints + [line])[..|checkpoints|] == checkpoints;
    forall i | 0 <= i < |accesses|
      ensures Bound(checkpoints + [line], accesses[i].payload)
    {
      assert Bound(checkpoints, accesses[i].payload);
    }
  }

  /** Committing a new origin keeps the files consistent. */
  lemma CommitKeeps(e: Encoding, plan: Plan, logs: Logs, unit: string, origin: int, rows: seq<Prediction>)
    requires Consistent(e, plan, logs) && !HasOrigin(logs.ledger, unit, origin) && rows != []
    requires forall r | r in rows :: RowOf(plan, unit, |plan.series(unit)|, origin, r)
    ensures Consistent(e, plan, CommitOrigin(e, logs, unit, origin, rows))
  {
    hide RowOf, OwnsBlock, Bound, Chained, FindCheckpoint, AppendRows;
    var filled := AppendRows(e, logs, rows);
    var c := BatchCheckpoint(filled, unit, origin, |logs.ledger|);
    var line := NextLine(e.sha, e.checkpointText, filled.checkpoints, c);
    RowsChain(e, logs, rows);
    LineLinksSnoc(e.sha, e.checkpointText, logs.checkpoints, c);
    BatchRowsOk(e, plan, logs, unit, origin, rows);
    BatchTiles(logs.ledger, logs.checkpoints, filled.ledger, line);
    forall i | 0 <= i < |logs.checkpoints|
      ensures Key(logs.checkpoints[i].payload) != Key(c)
    {
      CheckpointHasRows(logs.ledger, logs.checkpoints, i);
    }
    BoundStays(logs.checkpoints, line, logs.accesses);
  }

  lemma BatchRowsOk(e: Encoding, plan: Plan, logs: Logs, unit: string, origin: int, rows: seq<Prediction>)
    requires RowsOk(plan, logs.ledger)
    requires forall r | r in rows :: RowOf(plan, unit, |plan.series(unit)|, origin, r)
    ensures var ledger := AppendRows(e, logs, rows).ledger;
            && RowsOk(plan, ledger)
            && forall r | |logs.ledger| <= r < |ledger| ::
                 ledger[r].data.unit == unit && ledger[r].data.origin == origin
  {
    var ledger := AppendRows(e, logs, rows).ledger;
    forall r | |logs.ledger| <= r < |ledger|
      ensures ledger[r].data in rows
    {
      assert ledger[|logs.ledger| + (r - |logs.ledger|)].data == rows[r - |logs.ledger|];
    }
  }

  /** Authorising a reveal keeps the files consistent when the required checkpoint exists. */
  lemma RevealKeeps(e: Encoding, plan: Plan, logs: Logs, unit: string, index: int, required: Option<int>)
    requires Consistent(e, plan, logs)
    requires required.Some? ==> FindCheckpoint(logs.checkpoints, unit, required.value).Some?
    ensures Consistent(e, plan, Reveal(e, logs, unit, index, required))
  {
    var checkpoint := if required.None? then None else FindCheckpoint(logs.checkpoints, unit, required.value);
    LineLinksSnoc(e.sha, e.accessText, logs.accesses, Authorisation(unit, index, required, checkpoint));
  }

  // ----- Shapes -----

  lemma AccessesSnoc(accesses: seq<Line<Access>>, line: Line<Access>, unit: string)
    ensures UnitAccesses(accesses + [line], unit) ==
            UnitAccesses(accesses, unit) + if line.payload.unit == unit then [line.payload] else []
  {
    assert (accesses + [line])[..|accesses|] == accesses;
  }

  /** A bootstrap reveal adds one event to its unit and changes no other. */
  lemma BootstrapShapes(e: Encoding, context: int, logs: Logs, unit: string)
    requires AllShapes(context, logs) && |UnitAccesses(logs.accesses, unit)| < context
    ensures var next := Reveal(e, logs, unit, |UnitAccesses(logs.accesses, unit)|, None);
            AllShapes(context, next) && |UnitAccesses(next.accesses, unit)| == |UnitAccesses(logs.accesses, unit)| + 1
    ensures var next := Reveal(e, logs, unit, |UnitAccesses(logs.accesses, unit)|, None);
            forall v | v != unit :: UnitAccesses(next.accesses, v) == UnitAccesses(logs.accesses, v)
  {
    var n := |UnitAccesses(logs.accesses, unit)|;
    var next := Reveal(e, logs, unit, n, None);
    var line := next.accesses[|logs.accesses|];
    forall v
      ensures UnitAccesses(next.accesses, v) ==
              UnitAccesses(logs.accesses, v) + if v == unit then [line.payload] else []
      ensures Shape(context, next.ledger, v, UnitAccesses(next.accesses, v))
    {
      AccessesSnoc(logs.accesses, line, v);
      assert Shape(context, logs.ledger, v, UnitAccesses(logs.accesses, v));
    }
  }

  /** Committing the newest revealed event of a unit and revealing the next one extends its shape by one. */
  lemma OriginShapes(e: Encoding, plan: Plan, logs: Logs, unit: string, origin: nat)
    requires PlanOk(plan) && AllShapes(plan.context, logs) && origin + 1 < |plan.series(unit)|
    requires plan.context <= |UnitAccesses(logs.accesses, unit)| == origin + 1
    ensures var next := OriginStep(e, plan, logs, unit, origin);
            AllShapes(plan.context, next) && |UnitAccesses(next.accesses, unit)| == origin + 2
    ensures var next := OriginStep(e, plan, logs, unit, origin);
            forall v | v != unit :: UnitAccesses(next.accesses, v) == UnitAccesses(logs.accesses, v)
  {
    var prefix, length := plan.series(unit)[..origin + 1], |plan.series(unit)|;
    var rows := OriginRows(plan, unit, prefix, length, origin);
    OriginRowsFit(plan, unit, prefix, length, origin);
    hide OriginRows, AppendRows, FindCheckpoint, UnitAccesses;
    var next := OriginStep(e, plan, logs, unit, origin);
    var line := next.accesses[|logs.accesses|];
    forall v
      ensures UnitAccesses(next.accesses, v) ==
              UnitAccesses(logs.accesses, v) + if v == unit then [line.payload] else []
      ensures Shape(plan.context, next.ledger, v, UnitAccesses(next.accesses, v))
    {
      AccessesSnoc(logs.accesses, line, v);
      assert Shape(plan.context, logs.ledger, v, UnitAccesses(logs.accesses, v));
      BatchOrigins(e, logs, rows, unit, origin, v);
      ShapeGrows(plan.context, logs.ledger, next.ledger, v, UnitAccesses(logs.accesses, v), line.payload, unit);
    }
  }

  /** One unit gains its next origin and the reveal after it; every other unit keeps its shape. */
  lemma ShapeGrows(context: int, ledger: seq<LedgerRow>, next: seq<LedgerRow>, v: string, seen: seq<Access>, a: Access,
                   unit: string)
    requires context >= 0 && Shape(context, ledger, v, seen)
    requires v == unit ==> context <= |seen| && a.revealed == |seen| && PostRow(a)
    requires forall o :: HasOrigin(next, v, o) <==> HasOrigin(ledger, v, o) || (v == unit && o == |seen| - 1)
    ensures Shape(context, next, v, seen + if v == unit then [a] else [])
  {
  }

  lemma BatchOrigins(e: Encoding, logs: Logs, rows: seq<Prediction>, unit: string, origin: int, v: string)
    requires rows != [] && forall r | r in rows :: r.unit == unit && r.origin == origin
    ensures forall o :: HasOrigin(AppendRows(e, logs, rows).ledger, v, o) <==>
                        HasOrigin(logs.ledger, v, o) || (v == unit && o == origin)
  {
    var ledger := AppendRows(e, logs, rows).ledger;
    assert ledger[|logs.ledger| + 0].data == rows[0] && rows[0] in rows;
    forall o
      ensures HasOrigin(ledger, v, o) <==> HasOrigin(logs.ledger, v, o) || (v == unit && o == origin)
    {
      if HasOrigin(ledger, v, o) {
        var r :| 0 <= r < |ledger| && ledger[r].data.unit == v && ledger[r].data.origin == o;
        if r >= |logs.ledger| {
          assert ledger[|logs.ledger| + (r - |logs.ledger|)].data == rows[r - |logs.ledger|];
        } else {
          assert ledger[r] == logs.ledger[r];
        }
      }
      if HasOrigin(logs.ledger, v, o) {
        var r :| 0 <= r < |logs.ledger| && logs.ledger[r].data.unit == v && logs.ledger[r].data.origin == o;
        assert ledger[r] == logs.ledger[r];
      }
    }
  }

  // ----- The whole run -----

  lemma FindsLast(checkpoints: seq<Line<Checkpoint>>)
    requires checkpoints != []
    ensures var c := checkpoints[|checkpoints| - 1];
            FindCheckpoint(checkpoints, c.payload.unit, c.payload.origin) == Some(c)
  {
  }

  /** One more origin of a unit keeps the files consistent. */
  lemma OriginKeeps(e: Encoding, plan: Plan, logs: Logs, unit: string, origin: nat)
    requires PlanOk(plan) && Consistent(e, plan, logs) && AllShapes(plan.context, logs)
    requires origin + 1 < |plan.series(unit)| && plan.context <= |UnitAccesses(logs.accesses, unit)| == origin + 1
    ensures Consistent(e, plan, OriginStep(e, plan, logs, unit, origin))
  {
    hide Consistent, OriginRows, AppendRows;
    var prefix, length := plan.series(unit)[..origin + 1], |plan.series(unit)|;
    var rows := OriginRows(plan, unit, prefix, length, origin);
    OriginRowsFit(plan, unit, prefix, length, origin);
    assert Shape(plan.context, logs.ledger, unit, UnitAccesses(logs.accesses, unit));
    CommitKeeps(e, plan, logs, unit, origin, rows);
    var committed := CommitOrigin(e, logs, unit, origin, rows);
    FindsLast(committed.checkpoints);
    RevealKeeps(e, plan, committed, unit, origin + 1, Some(origin));
  }

  lemma {:induction false} UnitKeeps(e: Encoding, plan: Plan, logs: Logs, unit: string, n: nat)
    requires PlanOk(plan) && n <= |plan.series(unit)|
    requires Consistent(e, plan, logs) && AllShapes(plan.context, logs) && UnitAccesses(logs.accesses, unit) == []
    ensures var next := UnitRun(e, plan, logs, unit, n);
            && Consistent(e, plan, next) && AllShapes(plan.context, next) && |UnitAccesses(next.accesses, unit)| == n
            && forall v | v != unit :: UnitAccesses(next.accesses, v) == UnitAccesses(logs.accesses, v)
  {
    hide Consistent, AllShapes, OriginStep, Reveal, UnitAccesses;
    if n > 0 {
      UnitKeeps(e, plan, logs, unit, n - 1);
      var before := UnitRun(e, plan, logs, unit, n - 1);
      if n <= plan.context {
        RevealKeeps(e, plan, before, unit, n - 1, None);
        BootstrapShapes(e, plan.context, before, unit);
      } else {
        OriginKeeps(e, plan, before, unit, n - 2);
        OriginShapes(e, plan, before, unit, n - 2);
      }
    }
  }

  /** The origin has rows and no checkpoint yet, and will have one once committed. */
  predicate OriginIsOpen(e: Encoding, plan: Plan, logs: Logs, unit: string, origin: nat)
    requires origin < |plan.series(unit)|
  {
    var rows := OriginRows(plan, unit, plan.series(unit)[..origin + 1], |plan.series(unit)|, origin);
    && rows != []
    && FindCheckpoint(logs.checkpoints, unit, origin) == None
    && FindCheckpoint(CommitOrigin(e, logs, unit, origin, rows).checkpoints, unit, origin).Some?
  }

  /** Neither the commit nor the reveal of the next origin is ever refused in a run. */
  lemma OriginStaysOpen(e: Encoding, plan: Plan, logs: Logs, unit: string, origin: nat)
    requires PlanOk(plan) && origin < |plan.series(unit)| - 1
    requires Consistent(e, plan, logs) && AllShapes(plan.context, logs)
             && |UnitAccesses(logs.accesses, unit)| == origin + 1
    ensures OriginIsOpen(e, plan, logs, unit, origin)
  {
    var prefix, length := plan.series(unit)[..origin + 1], |plan.series(unit)|;
    var rows := OriginRows(plan, unit, prefix, length, origin);
    OriginRowsFit(plan, unit, prefix, length, origin);
    hide OriginRows, AppendRows;
    assert Shape(plan.context, logs.ledger, unit, UnitAccesses(logs.accesses, unit));
    NoCheckpointWithoutRows(logs.ledger, logs.checkpoints, unit, origin);
    FindsLast(CommitOrigin(e, logs, unit, origin, rows).checkpoints);
  }

  lemma NoCheckpointWithoutRows(ledger: seq<LedgerRow>, checkpoints: seq<Line<Checkpoint>>, unit: string, origin: int)
    requires BlocksTile(ledger, checkpoints) && !HasOrigin(ledger, unit, origin)
    ensures FindCheckpoint(checkpoints, unit, origin) == None
  {
    var found := FindCheckpoint(checkpoints, unit, origin);
    if found.Some? {
      var i :| 0 <= i < |checkpoints| && checkpoints[i] == found.value;
      CheckpointHasRows(ledger, checkpoints, i);
    }
  }

  lemma EmptyKeeps(e: Encoding, plan: Plan)
    requires PlanOk(plan)
    ensures Consistent(e, plan, EMPTY) && AllShapes(plan.context, EMPTY)
    ensures forall v :: UnitAccesses(EMPTY.accesses, v) == []
  {
  }

  lemma UnitsSoFar(plan: Plan, k: nat)
    requires PlanOk(plan) && 0 < k <= |plan.units|
    ensures plan.units[k - 1] !in plan.units[..k - 1]
    ensures forall v :: v in plan.units[..k] <==> v in plan.units[..k - 1] || v == plan.units[k - 1]
    ensures forall i | 0 <= i < k - 1 :: plan.units[i] != plan.units[k - 1]
  {
    assert plan.units[..k] == plan.units[..k - 1] + [plan.units[k - 1]];
  }

  /** After `k` units: consistent files, and every unit revealed to its end or not at all. */
  lemma {:induction false} RunKeeps(e: Encoding, plan: Plan, k: nat)
    requires PlanOk(plan) && k <= |plan.units|
    ensures var logs := HonestRun(e, plan, k);
            && Consistent(e, plan, logs) && AllShapes(plan.context, logs)
            && (forall i | 0 <= i < k :: |UnitAccesses(logs.accesses, plan.units[i])| == |plan.series(plan.units[i])|)
            && (forall v | v !in plan.units[..k] :: UnitAccesses(logs.accesses, v) == [])
  {
    hide Consistent, AllShapes, UnitRun, UnitAccesses;
    if k == 0 {
      EmptyKeeps(e, plan);
    } else {
      RunKeeps(e, plan, k - 1);
      var unit := plan.units[k - 1];
      UnitsSoFar(plan, k);
      UnitKeeps(e, plan, HonestRun(e, plan, k - 1), unit, |plan.series(unit)|);
    }
  }

  /** What the kept facts add up to once every predicted unit has been revealed to its end. */
  lemma ShapeRevealsOk(plan: Plan, ledger: seq<LedgerRow>, unit: string, seen: seq<Access>)
    requires PlanOk(plan) && RowsOk(plan, ledger) && Shape(plan.context, ledger, unit, seen)
    requires plan.context <= |seen| == |plan.series(unit)|
    ensures UnitRevealsOk(ledger, unit, plan.context, seen)
  {
    var post := seen[plan.context..];
    forall k | 0 <= k < |post|
      ensures post[k].required == Some(plan.context + k - 1)
    {
      assert PostRow(seen[plan.context + k]);
    }
    forall o | HasOrigin(ledger, unit, o)
      ensures Requires(post, o)
    {
      assert post[o + 1 - plan.context].required == Some(o);
    }
    forall r | 0 <= r < |ledger| && ledger[r].data.unit == unit
      ensures 0 <= ledger[r].data.expectedTarget < |seen|
    {
      assert HasOrigin(ledger, unit, ledger[r].data.origin);
    }
  }

  /** Every planned unit was revealed to its end, and nothing else was revealed. */
  ghost predicate Finished(plan: Plan, logs: Logs) {
    && (forall i | 0 <= i < |plan.units| ::
          |UnitAccesses(logs.accesses, plan.units[i])| == |plan.series(plan.units[i])|)
    && (forall v | v !in plan.units :: UnitAccesses(logs.accesses, v) == [])
  }

  predicate LongEnough(plan: Plan) {
    forall i | 0 <= i < |plan.units| :: |plan.series(plan.units[i])| >= plan.context
  }

  predicate SomeLonger(plan: Plan) {
    exists i | 0 <= i < |plan.units| :: |plan.series(plan.units[i])| > plan.context
  }

  lemma RowsAgree(plan: Plan, ledger: seq<LedgerRow>)
    requires RowsOk(plan, ledger)
    ensures OneContext(ledger) <==> ledger != []
    ensures CommitsPrecedeLabels(ledger)
    ensures ledger != [] ==> ledger[0].data.context == plan.context
  {
  }

  /** A predicted unit is a planned one, revealed to its end. */
  lemma PredictedUnitIsPlanned(plan: Plan, logs: Logs, r: nat)
    requires PlanOk(plan) && AllShapes(plan.context, logs) && Finished(plan, logs) && r < |logs.ledger|
    ensures logs.ledger[r].data.unit in plan.units
    ensures |UnitAccesses(logs.accesses, logs.ledger[r].data.unit)| ==
              |plan.series(logs.ledger[r].data.unit)| > plan.context
  {
    var unit := logs.ledger[r].data.unit;
    assert Shape(plan.context, logs.ledger, unit, UnitAccesses(logs.accesses, unit));
    assert HasOrigin(logs.ledger, unit, logs.ledger[r].data.origin);
  }

  /** Predictions exist exactly when some stream is longer than the context. */
  lemma LedgerNonempty(plan: Plan, logs: Logs)
    requires PlanOk(plan) && AllShapes(plan.context, logs) && Finished(plan, logs)
    ensures logs.ledger != [] <==> SomeLonger(plan)
  {
    if logs.ledger != [] {
      PredictedUnitIsPlanned(plan, logs, 0);
    }
    if SomeLonger(plan) {
      var i :| 0 <= i < |plan.units| && |plan.series(plan.units[i])| > plan.context;
      assert Shape(plan.context, logs.ledger, plan.units[i], UnitAccesses(logs.accesses, plan.units[i]));
      assert HasOrigin(logs.ledger, plan.units[i], plan.context - 1);
    }
  }

  lemma FinishedBarrier(e: Encoding, plan: Plan, logs: Logs)
    requires PlanOk(plan) && LongEnough(plan)
    requires Consistent(e, plan, logs) && AllShapes(plan.context, logs) && Finished(plan, logs)
    ensures BarrierHolds(logs.ledger, logs.checkpoints, logs.accesses) <==> SomeLonger(plan)
  {
    LedgerNonempty(plan, logs);
    RowsAgree(plan, logs.ledger);
    hide ChainsOk, DistinctKeys, BlocksTile, AllBound, UnitRevealsOk, Shape, UnitAccesses, OneContext,
      CommitsPrecedeLabels;
    forall r | 0 <= r < |logs.ledger|
      ensures UnitRevealsOk(logs.ledger, logs.ledger[r].data.unit, plan.context,
                            UnitAccesses(logs.accesses, logs.ledger[r].data.unit))
    {
      var unit := logs.ledger[r].data.unit;
      assert Shape(plan.context, logs.ledger, unit, UnitAccesses(logs.accesses, unit));
      PredictedUnitIsPlanned(plan, logs, r);
      ShapeRevealsOk(plan, logs.ledger, unit, UnitAccesses(logs.accesses, unit));
    }
  }

  // Completeness. For any distinct units whose streams are at least as long as the context, the
  // barrier holds over the logs of the honest run exactly when some stream is longer than the context.
  lemma HonestBarrierHolds(e: Encoding, plan: Plan)
    requires PlanOk(plan) && LongEnough(plan)
    ensures var logs := HonestRun(e, plan, |plan.units|);
            && ChainsOk(e, logs)
            && (BarrierHolds(logs.ledger, logs.checkpoints, logs.accesses) <==> SomeLonger(plan))
  {
    var logs := HonestRun(e, plan, |plan.units|);
    HonestFinished(e, plan);
    hide HonestRun, BarrierHolds, AllShapes, Finished, BlocksTile, AllBound, DistinctKeys, RowsOk, ChainsOk;
    FinishedBarrier(e, plan, logs);
  }

  lemma HonestFinished(e: Encoding, plan: Plan)
    requires PlanOk(plan)
    ensures var logs := HonestRun(e, plan, |plan.units|);
            Consistent(e, plan, logs) && AllShapes(plan.context, logs) && Finished(plan, logs)
  {
    hide HonestRun, AllShapes, UnitAccesses, Consistent;
    RunKeeps(e, plan, |plan.units|);
    assert plan.units[..|plan.units|] == plan.units;
  }
}
