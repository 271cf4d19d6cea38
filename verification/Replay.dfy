/** The classes and the run loop of replay.py. An `append` stands for write, flush and fsync of a record. */
module Replay {
  import opened Basics
  import opened HashChain
  import opened SealedLedger
  import opened ReplayLogs
  import opened CausalBarrier
  import opened CausalVerifier
  import opened BarrierCompleteness
  import opened KeyParity
  import opened RunLedger

  /** The order in which effects became durable, across all files. */
  class Journal {
    ghost var steps: seq<Step>

    constructor ()
      ensures steps == []
    {
      steps := [];
    }
  }

  /** An append-only JSONL log with a running hash; between calls its chain verifies. */
  class DurableJsonlChain<P> {
    const sha: Sha
    const text: P -> string
    var lines: seq<Line<P>>
    var previousHash: string
    var rowCount: nat

    ghost predicate Valid()
      reads this
    {
      previousHash == LastLineHash(lines) && rowCount == |lines| && LogVerifies(sha, text, lines)
    }

    constructor (sha: Sha, text: P -> string)
      ensures Valid() && lines == [] && this.sha == sha && this.text == text
    {
      this.sha, this.text := sha, text;
      lines, previousHash, rowCount := [], GENESIS, 0;
    }

    method Append(payload: P) returns (record: Line<P>)
      requires Valid()
      modifies this
      ensures Valid() && record == NextLine(sha, text, old(lines), payload) && lines == old(lines) + [record]
    {
      var rowHash := sha(LinkInput(previousHash, text(payload)));
      record := Line(payload, previousHash, rowHash);
      LineLinksSnoc(sha, text, lines, payload);
      lines := lines + [record];
      previousHash, rowCount := rowHash, rowCount + 1;
    }
  }

  lemma AppendNone(e: Encoding, logs: Logs, rows: seq<Prediction>)
    ensures AppendRows(e, logs, rows[..0]) == logs
  {
  }

  lemma AppendOne(e: Encoding, logs: Logs, rows: seq<Prediction>, i: nat)
    requires i < |rows|
    ensures AppendRows(e, logs, rows[..i + 1]) == AppendRow(e, AppendRows(e, logs, rows[..i]), rows[i])
  {
    TakeTake(rows, i, i + 1);
    hide AppendRow;
  }

  /** Appends prediction batches and their checkpoints. */
  class DurablePredictionWriter {
    const e: Encoding
    const journal: Journal
    const checkpoints: DurableJsonlChain<Checkpoint>
    var ledger: seq<LedgerRow>
    var previousHash: string
    var rowCount: nat
    var checkpointIndex: map<(string, int), Line<Checkpoint>>

    ghost predicate Valid()
      reads this, checkpoints
    {
      && checkpoints.Valid() && checkpoints.sha == e.sha && checkpoints.text == e.checkpointText
      && previousHash == LastRowHash(ledger) && rowCount == |ledger| && Chained(e.sha, Links(ledger))
      && forall unit, origin :: Lookup(checkpointIndex, unit, origin) == FindCheckpoint(checkpoints.lines, unit, origin)
    }

    /** The durable state, next to a given access log. */
    ghost function State(accesses: seq<Line<Access>>): Logs
      reads this, checkpoints, journal
    {
      Logs(ledger, checkpoints.lines, accesses, journal.steps)
    }

    constructor (e: Encoding, journal: Journal)
      ensures Valid() && ledger == [] && checkpoints.lines == [] && fresh(checkpoints)
      ensures this.e == e && this.journal == journal
    {
      this.e, this.journal := e, journal;
      checkpoints := new DurableJsonlChain(e.sha, e.checkpointText);
      ledger, previousHash, rowCount := [], GENESIS, 0;
      checkpointIndex := map[];
    }

    /** One row written and synced. */
    method AppendPrediction(row: Prediction, ghost accesses: seq<Line<Access>>)
      requires Valid()
      modifies this, journal
      ensures Valid() && State(accesses) == AppendRow(e, old(State(accesses)), row)
      ensures checkpointIndex == old(checkpointIndex)
    {
      var rowHash := e.sha(LinkInput(previousHash, e.rowText(row)));
      RowChains(e, ledger, row);
      ledger := ledger + [Row(row, Link(e.rowText(row), previousHash, rowHash))];
      journal.steps := journal.steps + [RowSynced(row)];
      previousHash, rowCount := rowHash, rowCount + 1;
    }

    /** The checkpoint of the batch that starts at `firstRow`, written and synced. */
    method AppendCheckpointLine(unit: string, origin: int, firstRow: nat, ghost accesses: seq<Line<Access>>)
      returns (line: Line<Checkpoint>)
      requires Valid() && firstRow >= 1
      modifies this, checkpoints, journal
      ensures Valid()
      ensures State(accesses) ==
              AppendCheckpoint(e, old(State(accesses)),
                               BatchCheckpoint(old(State(accesses)), unit, origin, firstRow - 1))
    {
      var checkpoint := Checkpoint(unit, origin, firstRow, rowCount, rowCount, previousHash);
      ghost var before := checkpoints.lines;
      line := checkpoints.Append(checkpoint);
      journal.steps := journal.steps + [CheckpointSynced(checkpoint)];
      checkpointIndex := checkpointIndex[(unit, origin) := line];
      assert checkpoints.lines[..|before|] == before;
    }

    /** Every row of the batch, then its checkpoint; nothing is written when the batch is refused. */
    method AppendOrigin(unit: string, origin: int, rows: seq<Prediction>, ghost accesses: seq<Line<Access>>)
      returns (r: Result<Line<Checkpoint>>)
      requires Valid()
      modifies this, checkpoints, journal
      ensures Valid()
      ensures r.Success? <==> Appendable(old(State(accesses)), unit, origin, rows)
      ensures r.Success? ==> State(accesses) == CommitOrigin(e, old(State(accesses)), unit, origin, rows)
      ensures r.Failure? ==> State(accesses) == old(State(accesses))
    {
      if rows == [] { return Failure("origin checkpoint requires at least one prediction"); }
      var duplicate := Lookup(checkpointIndex, unit, origin);
      if duplicate.Some? { return Failure("duplicate origin checkpoint"); }
      var firstRow := rowCount + 1;
      ghost var before := State(accesses);
      AppendNone(e, before, rows);
      hide FindCheckpoint, Lookup, AppendRow, AppendRows, LogVerifies, Chained;
      for i := 0 to |rows|
        invariant Valid() && State(accesses) == AppendRows(e, before, rows[..i])
      {
        AppendPrediction(rows[i], accesses);
        AppendOne(e, before, rows, i);
      }
      TakeAll(rows);
      var line := AppendCheckpointLine(unit, origin, firstRow, accesses);
      return Success(line);
    }

    /** `require_checkpoint`: the reveal of a future event is refused before its origin is committed. */
    method RequireCheckpoint(unit: string, origin: int) returns (r: Result<Line<Checkpoint>>)
      requires Valid()
      ensures r.Success? <==> FindCheckpoint(checkpoints.lines, unit, origin).Some?
      ensures r.Success? ==> Some(r.value) == FindCheckpoint(checkpoints.lines, unit, origin)
    {
      var found := Lookup(checkpointIndex, unit, origin);
      if found.None? { return Failure("future event reveal forbidden before durable origin checkpoint"); }
      return Success(found.value);
    }
  }

  /** The only component that owns held-out labels. */
  class EventLabelService {
    const data: seq<Event>
    const unit: string
    const writer: DurablePredictionWriter
    const accessLog: DurableJsonlChain<Access>
    var nextIndex: nat
    var prefix: seq<Event>

    ghost predicate Valid()
      reads this, writer, writer.checkpoints, accessLog
    {
      && writer.Valid() && accessLog.Valid()
      && accessLog.sha == writer.e.sha && accessLog.text == writer.e.accessText
      && nextIndex <= |data| && prefix == data[..nextIndex]
    }

    ghost function State(): Logs
      reads writer, writer.checkpoints, writer.journal, accessLog
    {
      writer.State(accessLog.lines)
    }

    constructor (data: seq<Event>, unit: string, writer: DurablePredictionWriter, accessLog: DurableJsonlChain<Access>)
      requires writer.Valid() && accessLog.Valid()
      requires accessLog.sha == writer.e.sha && accessLog.text == writer.e.accessText
      ensures Valid() && nextIndex == 0
      ensures this.data == data && this.unit == unit && this.writer == writer && this.accessLog == accessLog
    {
      this.data, this.unit, this.writer, this.accessLog := data, unit, writer, accessLog;
      nextIndex, prefix := 0, [];
    }

    /** The authorisation is durable before the event is read; a refused reveal leaves no trace. */
    method RevealNext(required: Option<int>) returns (r: Result<()>)
      requires Valid()
      modifies this, accessLog, writer.journal
      ensures Valid()
      ensures r.Success? <==> Revealable(old(State()), unit, old(nextIndex), |data|, required)
      ensures r.Success? ==>
                && nextIndex == old(nextIndex) + 1
                && State() == Reveal(writer.e, old(State()), unit, old(nextIndex), required)
      ensures r.Failure? ==> nextIndex == old(nextIndex) && State() == old(State())
    {
      hide FindCheckpoint, Lookup, LogVerifies, Chained;
      if nextIndex >= |data| { return Failure("stop iteration"); }
      var checkpoint: Option<Line<Checkpoint>> := None;
      if required.Some? {
        var found := writer.RequireCheckpoint(unit, required.value);
        if found.Failure? { return Failure(found.error); }
        checkpoint := Some(found.value);
      }
      var index := nextIndex;
      var access := Access(if required.None? then BOOTSTRAP else POST_ORIGIN, unit, index, required,
                           if checkpoint.None? then None else Some(checkpoint.value.hash),
                           if checkpoint.None? then None else Some(checkpoint.value.payload.finalHash));
      var record := accessLog.Append(access);
      writer.journal.steps := writer.journal.steps + [AccessSynced(access)];
      prefix := prefix + [data[index]];
      writer.journal.steps := writer.journal.steps + [EventRead(unit, index)];
      nextIndex := nextIndex + 1;
      return Success(());
    }
  }

  /** The rows of one revealed origin; the prefix must have exactly `origin + 1` events. */
  method PredictRevealedOrigin(plan: Plan, unit: string, prefix: seq<Event>, length: int, origin: int)
    returns (r: Result<seq<Prediction>>)
    ensures r.Failure? <==> |prefix| != origin + 1
    ensures r.Success? ==> r.value == OriginRows(plan, unit, prefix, length, origin)
    ensures r.Success? ==> forall p :: p in r.value <==> Planned(plan, unit, prefix, length, origin, p)
  {
    OriginRowsArePlanned(plan, unit, prefix, length, origin);
    hide Planned, TargetRows;
    if |prefix| != origin + 1 { return Failure("event service exposed an invalid prefix length"); }
    var capacity := PredictTarget(plan, unit, prefix, length, origin, TARGETS[0]);
    var esr := PredictTarget(plan, unit, prefix, length, origin, TARGETS[1]);
    return Success(capacity + esr);
  }

  method PredictTarget(plan: Plan, unit: string, prefix: seq<Event>, length: int, origin: int, target: string)
    returns (rows: seq<Prediction>)
    ensures rows == TargetRows(plan, unit, prefix, length, origin, target, |plan.horizons|)
  {
    rows := [];
    hide HorizonRows;
    for i := 0 to |plan.horizons|
      invariant rows == TargetRows(plan, unit, prefix, length, origin, target, i)
    {
      var more := PredictHorizon(plan, unit, prefix, length, origin, target, plan.horizons[i]);
      rows := rows + more;
    }
  }

  /** One target and horizon: every model, unless the target event lies past the stream. */
  method PredictHorizon(plan: Plan, unit: string, prefix: seq<Event>, length: int, origin: int, target: string,
                        horizon: int)
    returns (rows: seq<Prediction>)
    ensures rows == HorizonRows(plan, unit, prefix, length, origin, target, horizon)
  {
    rows := [];
    if origin + horizon >= length { return; }
    hide PredictionAt;
    for m := 0 to |plan.models|
      invariant |rows| == m
      invariant forall i | 0 <= i < m ::
                  rows[i] == PredictionAt(plan, unit, prefix, origin, target, horizon, plan.models[i])
    {
      rows := rows + [PredictionAt(plan, unit, prefix, origin, target, horizon, plan.models[m])];
    }
  }

  /** One iteration of the origin loop: predict, commit, and only then reveal the next event. */
  method AdvanceOrigin(plan: Plan, unit: string, service: EventLabelService, origin: nat)
    requires PlanOk(plan) && service.Valid() && service.nextIndex == origin + 1 < |service.data|
    requires service.unit == unit && service.data == plan.series(unit)
    requires OriginIsOpen(service.writer.e, plan, service.State(), unit, origin)
    modifies service, service.accessLog, service.writer, service.writer.checkpoints, service.writer.journal
    ensures service.Valid() && service.nextIndex == origin + 2
    ensures service.State() == OriginStep(service.writer.e, plan, old(service.State()), unit, origin)
  {
    hide FindCheckpoint, OriginRows, AppendRows, Lookup, LogVerifies, Chained;
    var rows := PredictRevealedOrigin(plan, unit, service.prefix, |service.data|, origin);
    var committed := service.writer.AppendOrigin(unit, origin, rows.value, service.accessLog.lines);
    var revealed := service.RevealNext(Some(origin));
  }

  /** The fold of one unit: bootstrap the context, then commit and reveal origin by origin. */
  method RunUnit(plan: Plan, unit: string, service: EventLabelService)
    requires PlanOk(plan) && service.Valid() && service.nextIndex == 0
    requires service.unit == unit && service.data == plan.series(unit) && |service.data| >= plan.context
    requires Consistent(service.writer.e, plan, service.State()) && AllShapes(plan.context, service.State())
    requires UnitAccesses(service.accessLog.lines, unit) == []
    modifies service, service.accessLog, service.writer, service.writer.checkpoints, service.writer.journal
    ensures service.Valid()
    ensures service.State() == UnitRun(service.writer.e, plan, old(service.State()), unit, |plan.series(unit)|)
  {
    hide Consistent, AllShapes, UnitAccesses, Reveal, OriginStep, OriginIsOpen, Distinct, LogVerifies, Chained, Lookup;
    ghost var e, start := service.writer.e, service.State();
    for n := 0 to plan.context
      invariant service.Valid() && service.nextIndex == n && service.State() == UnitRun(e, plan, start, unit, n)
    {
      var revealed := service.RevealNext(None);
    }
    for origin := plan.context - 1 to |service.data| - 1
      invariant service.Valid() && service.nextIndex == origin + 1
      invariant service.State() == UnitRun(e, plan, start, unit, origin + 1)
    {
      UnitKeeps(e, plan, start, unit, origin + 1);
      OriginStaysOpen(e, plan, service.State(), unit, origin);
      AdvanceOrigin(plan, unit, service, origin);
    }
  }

  const PREDICTION_COLUMNS := ["prediction_id", "protocol_hash", "data_zip_hash", "data_mat_hash",
    "verification_status", "code_hash", "split_hash", "train_set_hash", "training_snapshot_hash", "prefix_hash",
    "outer_test_unit", "model", "target", "horizon_event_steps", "context_event_steps",
    "origin_event_index_0based", "origin_time_h", "causal_cutoff_event_index_0based",
    "expected_target_event_index_0based", "prediction_commit_seq", "expected_label_available_seq", "config_json",
    "config_hash", "point_prediction", "interval_status", "status", "failure_stage", "error", "seed"]

  const SEAL_STATUS := "SEALED_AFTER_VERIFIED_PER_ORIGIN_CAUSAL_COMMITS"

  /** The artifacts that `finalize` seals over the logs of a finished run. */
  function SealedArtifacts(hashes: FileHashes, logs: Logs, checkpointName: string, accessName: string): Artifacts {
    var file := File(PREDICTION_COLUMNS + CHAIN_COLUMNS, logs.ledger);
    Artifacts(file,
              Seal(hashes.ledger(file), |logs.ledger|, LastRowHash(logs.ledger), file.columns, SEAL_STATUS),
              Lineage(Some(checkpointName), Some(EvidenceOf(hashes.checkpoints, logs.checkpoints)),
                      Some(accessName), Some(EvidenceOf(hashes.accesses, logs.accesses))),
              checkpointName, logs.checkpoints, accessName, logs.accesses)
  }

  /** A seal made over chained logs passes every check up to the barrier. */
  lemma SealedArtifactsAccepted(e: Encoding, hashes: FileHashes, logs: Logs, checkpointName: string, accessName: string)
    requires ChainsOk(e, logs)
    ensures Accepted(e, hashes, SealedArtifacts(hashes, logs, checkpointName, accessName)) <==>
            BarrierHolds(logs.ledger, logs.checkpoints, logs.accesses)
  {
    hide BarrierHolds, Chained;
  }

  // ----- A negative context -----

  /** One prediction row of origin -1 with context -1, whatever its other columns are. */
  predicate EarlyRow(row: Prediction) {
    row.context == -1 && row.origin == -1 && row.expectedTarget == 0 && row.commitSeq < row.labelSeq
  }

  /** What the writer and the service leave for this row: its batch, and the reveal of event 0 that requires it. */
  function EarlyLogs(e: Encoding, row: Prediction): Logs {
    Reveal(e, CommitOrigin(e, EMPTY, row.unit, -1, [row]), row.unit, 0, Some(-1))
  }

  // For every encoding and every such row the sealed logs are accepted by the whole verifier, chains, seal and
  // lineage included, and the origin that the context asks for is missing.
  lemma NegativeContextIsAccepted(e: Encoding, hashes: FileHashes, row: Prediction, checkpointName: string,
                                  accessName: string)
    requires EarlyRow(row)
    ensures Accepted(e, hashes, SealedArtifacts(hashes, EarlyLogs(e, row), checkpointName, accessName))
    ensures var ledger := EarlyLogs(e, row).ledger;
            |ledger| == 1 && ledger[0].data == row && !HasOrigin(ledger, row.unit, row.context - 1)
  {
    var logs := EarlyLogs(e, row);
    EarlyChains(e, row);
    EarlyBarrier(e, row);
    hide BarrierHolds, ChainsOk, EarlyLogs;
    SealedArtifactsAccepted(e, hashes, logs, checkpointName, accessName);
  }

  lemma EarlyChains(e: Encoding, row: Prediction)
    ensures ChainsOk(e, EarlyLogs(e, row))
  {
    hide FindCheckpoint;
    var filled := AppendRows(e, EMPTY, [row]);
    var c := BatchCheckpoint(filled, row.unit, -1, 0);
    var committed := CommitOrigin(e, EMPTY, row.unit, -1, [row]);
    RowsChain(e, EMPTY, [row]);
    LineLinksSnoc(e.sha, e.checkpointText, [], c);
    LineLinksSnoc(e.sha, e.accessText, [], RevealAccess(committed, row.unit, 0, Some(-1)));
    hide Chained, LogVerifies;
  }

  lemma EarlyBarrier(e: Encoding, row: Prediction)
    requires EarlyRow(row)
    ensures var logs := EarlyLogs(e, row);
            && BarrierHolds(logs.ledger, logs.checkpoints, logs.accesses)
            && |logs.ledger| == 1 && logs.ledger[0].data == row && !HasOrigin(logs.ledger, row.unit, -2)
  {
    var logs := EarlyLogs(e, row);
    var line, access := logs.checkpoints[0], logs.accesses[0].payload;
    assert [row][..0] == [] && AppendRows(e, EMPTY, [row]) == AppendRow(e, EMPTY, row);
    assert UnitAccesses(logs.accesses, row.unit) == [access] by { assert logs.accesses[..0] == []; }
    assert OwnsBlock(logs.ledger, logs.checkpoints, 0);
    OneRevealOk(logs.ledger, row, access);
    hide UnitRevealsOk, UnitAccesses, OwnsBlock;
  }

  lemma OneRevealOk(ledger: seq<LedgerRow>, row: Prediction, a: Access)
    requires |ledger| == 1 && ledger[0].data == row && EarlyRow(row) && PostRow(a) && a.required == Some(-1)
    ensures UnitRevealsOk(ledger, row.unit, -1, [a])
    ensures forall o :: HasOrigin(ledger, row.unit, o) <==> o == -1
  {
    assert ledger[0].data.unit == row.unit && ledger[0].data.origin == -1;
    assert [a][0..] == [a] && [a][0].required == Some(-1);
  }

  // ----- The run -----

  /** The next unit, with a fresh label service. */
  method RunNextUnit(e: Encoding, plan: Plan, k: nat, writer: DurablePredictionWriter,
                     accessLog: DurableJsonlChain<Access>)
    requires PlanOk(plan) && k < |plan.units| && |plan.series(plan.units[k])| >= plan.context
    requires writer.Valid() && accessLog.Valid() && writer.e == e && accessLog.sha == e.sha
             && accessLog.text == e.accessText
    requires writer.State(accessLog.lines) == HonestRun(e, plan, k)
    modifies writer, writer.checkpoints, writer.journal, accessLog
    ensures writer.Valid() && accessLog.Valid()
    ensures writer.State(accessLog.lines) == HonestRun(e, plan, k + 1)
  {
    hide Consistent, AllShapes, UnitAccesses, UnitRun, FindCheckpoint, Lookup, Distinct;
    var unit := plan.units[k];
    RunKeeps(e, plan, k);
    UnitIsNew(plan, k);
    var service := new EventLabelService(plan.series(unit), unit, writer, accessLog);
    RunUnit(plan, unit, service);
  }

  /** Every unit, one fold after the other, over one writer and one access log; a short stream stops the run. */
  method RunUnits(e: Encoding, plan: Plan)
    returns (ok: bool, writer: DurablePredictionWriter, accessLog: DurableJsonlChain<Access>)
    requires PlanOk(plan) && plan.context >= 2
    ensures ok <==> LongEnough(plan)
    ensures ok ==> writer.State(accessLog.lines) == HonestRun(e, plan, |plan.units|)
  {
    hide PlanOk, UnitRun, Lookup, FindCheckpoint, LogVerifies, Chained;
    var journal := new Journal();
    writer := new DurablePredictionWriter(e, journal);
    accessLog := new DurableJsonlChain(e.sha, e.accessText);
    for k := 0 to |plan.units|
      invariant fresh(writer) && fresh(writer.checkpoints) && fresh(writer.journal) && fresh(accessLog)
      invariant writer.Valid() && accessLog.Valid() && writer.e == e
      invariant accessLog.sha == e.sha && accessLog.text == e.accessText
      invariant writer.State(accessLog.lines) == HonestRun(e, plan, k)
      invariant forall i | 0 <= i < k :: |plan.series(plan.units[i])| >= plan.context
    {
      if |plan.series(plan.units[k])| < plan.context { return false, writer, accessLog; }
      RunNextUnit(e, plan, k, writer, accessLog);
    }
    ok := true;
  }

  lemma UnitIsNew(plan: Plan, k: nat)
    requires PlanOk(plan) && k < |plan.units|
    ensures plan.units[k] !in plan.units[..k]
  {
  }

  /** `_assert_common_key_parity`: the keys of every model against those of the first, then no repeated row. */
  method AssertCommonKeyParity(rows: seq<Prediction>, models: seq<string>) returns (ok: bool)
    ensures ok <==> CommonKeys(models, rows) && Unrepeated(rows)
  {
    var reference: Option<set<EvaluationKey>> := None;
    for m := 0 to |models|
      invariant reference == if m == 0 then None else Some(KeysOf(rows, models[0]))
      invariant forall i | 0 <= i < m :: KeysOf(rows, models[i]) == KeysOf(rows, models[0])
    {
      var keys := set r | r in rows && r.model == models[m] :: KeyOf(r);
      if reference.None? {
        reference := Some(keys);
      } else if keys != reference.value {
        assert models[m] in models;
        return false;
      }
    }
    ok := UniqueRows(rows);
  }

  method UniqueRows(rows: seq<Prediction>) returns (ok: bool)
    ensures ok <==> Unrepeated(rows)
  {
    var seen: set<(EvaluationKey, string)> := {};
    for i := 0 to |rows|
      invariant seen == set j | 0 <= j < i :: (KeyOf(rows[j]), rows[j].model)
      invariant forall j, k | 0 <= j < k < i :: !Repeats(rows[j], rows[k])
    {
      if (KeyOf(rows[i]), rows[i].model) in seen {
        ghost var j :| 0 <= j < i && (KeyOf(rows[j]), rows[j].model) == (KeyOf(rows[i]), rows[i].model);
        assert Repeats(rows[j], rows[i]);
        return false;
      }
      seen := seen + {(KeyOf(rows[i]), rows[i].model)};
    }
    ok := true;
  }

  // `_run_online_generation` and its final verification. With sound parameters and streams at least
  // as long as the context, no reveal or commit is ever refused, the files are those of the honest
  // run, and the run is accepted by the barrier exactly when some stream is longer than the context.
  method RunOnlineGeneration(e: Encoding, hashes: FileHashes, plan: Plan, checkpointName: string, accessName: string)
    returns (r: Result<Artifacts>)
    ensures r.Success? <==> PlanOk(plan) && LongEnough(plan) && SomeLonger(plan)
    ensures r.Success? ==>
              && r.value == SealedArtifacts(hashes, HonestRun(e, plan, |plan.units|), checkpointName, accessName)
              && Accepted(e, hashes, r.value)
    ensures r.Success? ==> forall p :: p in Data(r.value.ledger.rows) <==> PlannedInRun(plan, p)
  {
    hide PlannedInRun, Distinct, Accepted, BarrierHolds, HonestRun, ChainsOk, CommonKeys, Unrepeated;
    if !PlanOk(plan) { return Failure("invalid generation parameters"); }
    var longEnough, writer, accessLog := RunUnits(e, plan);
    if !longEnough { return Failure("held-out stream shorter than context"); }
    ghost var logs := HonestRun(e, plan, |plan.units|);
    HonestBarrierHolds(e, plan);
    SealedArtifactsAccepted(e, hashes, logs, checkpointName, accessName);
    var artifacts := Finalize(hashes, writer, accessLog, checkpointName, accessName);
    var accepted := VerifyCausalBarrier(e, hashes, artifacts);
    if !accepted { return Failure("causal barrier requires one frozen context length"); }
    RunHasCommonKeys(e, plan);
    RunPredictsThePlan(e, plan);
    var parity := AssertCommonKeyParity(Data(artifacts.ledger.rows), plan.models);
    if !parity {
      assert false;
      return Failure("models do not share all planned common evaluation keys");
    }
    return Success(artifacts);
  }

  /** `finalize`: the seal binds the ledger and the evidence of both logs. */
  method Finalize(hashes: FileHashes, writer: DurablePredictionWriter, accessLog: DurableJsonlChain<Access>,
                  checkpointName: string, accessName: string) returns (a: Artifacts)
    ensures a == SealedArtifacts(hashes, writer.State(accessLog.lines), checkpointName, accessName)
  {
    a := SealedArtifacts(hashes, Logs(writer.ledger, writer.checkpoints.lines, accessLog.lines, []), checkpointName,
                         accessName);
  }
}
