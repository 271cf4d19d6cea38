/** The durable files of replay.py, and the operations that extend them one durable step at a time. */
module ReplayLogs {
  // Every operation also records its durable effects as steps, one per fsync or label read, so a crash
  // leaves exactly a prefix of the steps.
  import opened Basics
  import opened HashChain
  import opened SealedLedger

  /** One prediction row, with the columns the barrier reads. `point` is absent when the model failed. */
  datatype Prediction = Prediction(unit: string, model: string, target: string, horizon: int, context: int, origin: int,
                                   expectedTarget: int, commitSeq: int, labelSeq: int, point: Option<real>)

  datatype Checkpoint = Checkpoint(unit: string, origin: int, firstRow: int, lastRow: int, totalRows: int,
                                   finalHash: string)

  datatype Access = Access(accessType: string, unit: string, revealed: int, required: Option<int>,
                           checkpointHash: Option<string>, predictionHash: Option<string>)

  const BOOTSTRAP := "bootstrap_context_reveal"
  const POST_ORIGIN := "post_origin_checkpoint_reveal"

  /** A ledger row: its columns, and the link over its stored payload text. */
  type LedgerRow = Row<Prediction>

  /** A line of an append-only JSONL log; its text is recomputed from the payload. */
  datatype Line<P> = Line(payload: P, prev: string, hash: string)

  /** The digest and the canonical texts of the three kinds of record. */
  datatype Encoding = Encoding(sha: Sha, rowText: Prediction -> string,
                               checkpointText: Checkpoint -> string, accessText: Access -> string)

  /** One durable effect: an fsync of one record, or the read of one held-out event. */
  datatype Step =
    | RowSynced(row: Prediction)
    | CheckpointSynced(checkpoint: Checkpoint)
    | AccessSynced(access: Access)
    | EventRead(unit: string, index: int)

  datatype Logs = Logs(ledger: seq<LedgerRow>, checkpoints: seq<Line<Checkpoint>>, accesses: seq<Line<Access>>,
                       steps: seq<Step>)

  const EMPTY := Logs([], [], [], [])

  function LineLinks<P>(text: P -> string, lines: seq<Line<P>>): (l: seq<Link>)
    ensures |l| == |lines|
    ensures forall i | 0 <= i < |l| :: l[i] == Link(text(lines[i].payload), lines[i].prev, lines[i].hash)
  {
    seq(|lines|, i requires 0 <= i < |lines| => Link(text(lines[i].payload), lines[i].prev, lines[i].hash))
  }

  function LastRowHash(ledger: seq<LedgerRow>): string {
    if ledger == [] then GENESIS else ledger[|ledger| - 1].link.hash
  }

  function LastLineHash<P>(lines: seq<Line<P>>): string {
    if lines == [] then GENESIS else lines[|lines| - 1].hash
  }

  /** `_DurableJsonlChain.append` as a value. */
  function NextLine<P>(sha: Sha, text: P -> string, lines: seq<Line<P>>, payload: P): Line<P> {
    Line(payload, LastLineHash(lines), sha(LinkInput(LastLineHash(lines), text(payload))))
  }

  /** One prediction row written and synced. */
  function AppendRow(e: Encoding, logs: Logs, row: Prediction): Logs {
    logs.(ledger := logs.ledger + [Row(row, NextLink(e.sha, LastRowHash(logs.ledger), e.rowText(row)))],
          steps := logs.steps + [RowSynced(row)])
  }

  function AppendRows(e: Encoding, logs: Logs, rows: seq<Prediction>): (r: Logs)
    ensures r.checkpoints == logs.checkpoints && r.accesses == logs.accesses && logs.steps <= r.steps
    ensures |r.ledger| == |logs.ledger| + |rows| && logs.ledger <= r.ledger
    ensures forall i | 0 <= i < |rows| :: r.ledger[|logs.ledger| + i].data == rows[i]
  {
    if rows == [] then logs
    else AppendRow(e, AppendRows(e, logs, rows[..|rows| - 1]), rows[|rows| - 1])
  }

  /** The checkpoint of a batch that starts after row `before` and ends with the ledger. */
  function BatchCheckpoint(logs: Logs, unit: string, origin: int, before: nat): Checkpoint {
    Checkpoint(unit, origin, before + 1, |logs.ledger|, |logs.ledger|, LastRowHash(logs.ledger))
  }

  function AppendCheckpoint(e: Encoding, logs: Logs, checkpoint: Checkpoint): Logs {
    logs.(checkpoints := logs.checkpoints + [NextLine(e.sha, e.checkpointText, logs.checkpoints, checkpoint)],
          steps := logs.steps + [CheckpointSynced(checkpoint)])
  }

  /** `append_origin`: every row of the batch synced, then its checkpoint. */
  function CommitOrigin(e: Encoding, logs: Logs, unit: string, origin: int, rows: seq<Prediction>): Logs {
    var filled := AppendRows(e, logs, rows);
    AppendCheckpoint(e, filled, BatchCheckpoint(filled, unit, origin, |logs.ledger|))
  }

  function Key(c: Checkpoint): (string, int) {
    (c.unit, c.origin)
  }

  /** The checkpoint line of an origin, as the writer's index remembers it. */
  function FindCheckpoint(lines: seq<Line<Checkpoint>>, unit: string, origin: int): (r: Option<Line<Checkpoint>>)
    ensures r.Some? ==> r.value in lines && Key(r.value.payload) == (unit, origin)
    ensures r.None? ==> forall i | 0 <= i < |lines| :: Key(lines[i].payload) != (unit, origin)
  {
    if lines == [] then None
    else if Key(lines[|lines| - 1].payload) == (unit, origin) then Some(lines[|lines| - 1])
    else FindCheckpoint(lines[..|lines| - 1], unit, origin)
  }

  /** The authorisation record of one reveal. */
  function Authorisation(unit: string, index: int, required: Option<int>,
                         checkpoint: Option<Line<Checkpoint>>): Access {
    match checkpoint
    case None => Access(if required.None? then BOOTSTRAP else POST_ORIGIN, unit, index, required, None, None)
    case Some(line) =>
      Access(if required.None? then BOOTSTRAP else POST_ORIGIN, unit, index, required, Some(line.hash),
             Some(line.payload.finalHash))
  }

  function AppendAccess(e: Encoding, logs: Logs, access: Access): Logs {
    logs.(accesses := logs.accesses + [NextLine(e.sha, e.accessText, logs.accesses, access)],
          steps := logs.steps + [AccessSynced(access)])
  }

  function ReadEvent(logs: Logs, unit: string, index: int): Logs {
    logs.(steps := logs.steps + [EventRead(unit, index)])
  }

  /** What `reveal_next` writes before it reads. */
  function RevealAccess(logs: Logs, unit: string, index: int, required: Option<int>): Access {
    Authorisation(unit, index, required,
                  if required.None? then None else FindCheckpoint(logs.checkpoints, unit, required.value))
  }

  /** `reveal_next`: the authorisation synced, then the event read. */
  function Reveal(e: Encoding, logs: Logs, unit: string, index: int, required: Option<int>): Logs {
    ReadEvent(AppendAccess(e, logs, RevealAccess(logs, unit, index, required)), unit, index)
  }

  // ----- What the writer and the label service check -----

  /** `append_origin` refuses an empty batch and a committed origin, and looks at nothing else. */
  predicate Appendable(logs: Logs, unit: string, origin: int, rows: seq<Prediction>) {
    rows != [] && FindCheckpoint(logs.checkpoints, unit, origin).None?
  }

  /** `reveal_next` refuses to go past the stream, and a required origin that is not committed. */
  predicate Revealable(logs: Logs, unit: string, index: int, length: int, required: Option<int>) {
    index < length && (required.Some? ==> FindCheckpoint(logs.checkpoints, unit, required.value).Some?)
  }

  // ----- The plan of a run -----

  const TARGETS := ["capacity_ratio", "esr_ratio"]

  /** One held-out event: its time and its two label values. */
  datatype Event = Event(time: real, capacity: real, esr: real)

  /** What a fitted model returns for one revealed prefix; absent when any stage failed. */
  type Forecast = (string, string, string, int, seq<Event>) -> Option<real>

  datatype Plan = Plan(units: seq<string>, series: string -> seq<Event>, context: int,
                       horizons: seq<int>, models: seq<string>, forecast: Forecast)

  function PredictionAt(plan: Plan, unit: string, prefix: seq<Event>, origin: int, target: string, horizon: int,
                        model: string): Prediction {
    Prediction(unit, model, target, horizon, plan.context, origin, origin + horizon, origin, origin + horizon,
               plan.forecast(unit, target, model, horizon, prefix))
  }

  /** The rows of one target and horizon: one for every model, unless the target event lies past the stream. */
  function HorizonRows(plan: Plan, unit: string, prefix: seq<Event>, length: int, origin: int, target: string,
                       horizon: int): (rows: seq<Prediction>)
    ensures |rows| == if origin + horizon >= length then 0 else |plan.models|
    ensures forall i | 0 <= i < |rows| ::
              rows[i] == PredictionAt(plan, unit, prefix, origin, target, horizon, plan.models[i])
  {
    if origin + horizon >= length then []
    else
      seq(|plan.models|, i requires 0 <= i < |plan.models| =>
        PredictionAt(plan, unit, prefix, origin, target, horizon, plan.models[i]))
  }

  function TargetRows(plan: Plan, unit: string, prefix: seq<Event>, length: int, origin: int, target: string,
                      n: nat): seq<Prediction>
    requires n <= |plan.horizons|
  {
    if n == 0 then []
    else TargetRows(plan, unit, prefix, length, origin, target, n - 1)
         + HorizonRows(plan, unit, prefix, length, origin, target, plan.horizons[n - 1])
  }

  /** `_predict_revealed_origin`: targets, then horizons, then models. */
  function OriginRows(plan: Plan, unit: string, prefix: seq<Event>, length: int, origin: int): seq<Prediction> {
    TargetRows(plan, unit, prefix, length, origin, TARGETS[0], |plan.horizons|)
    + TargetRows(plan, unit, prefix, length, origin, TARGETS[1], |plan.horizons|)
  }

  const MODEL_ORDER := ["last_value", "global_drift", "local_linear", "exponential", "local_trend_kf", "ridge"]

  predicate KnownModels(models: seq<string>) {
    forall m | m in models :: m in MODEL_ORDER
  }

  /** The checks that precede a run. */
  predicate PlanOk(plan: Plan) {
    && plan.context >= 2
    && (forall h | h in plan.horizons :: h >= 1) && 1 in plan.horizons && Distinct(plan.horizons)
    && plan.models != [] && Distinct(plan.models) && KnownModels(plan.models)
    && |plan.units| >= 3 && Distinct(plan.units)
  }

  predicate Distinct<T(==)>(s: seq<T>) {
    forall i, j | 0 <= i < j < |s| :: s[i] != s[j]
  }

  /** What every row of an origin says about itself. */
  predicate RowOf(plan: Plan, unit: string, length: int, origin: int, r: Prediction) {
    && r.unit == unit && r.origin == origin && r.context == plan.context
    && origin < r.expectedTarget < length
    && r.commitSeq == origin && r.labelSeq == r.expectedTarget
  }

  // ----- What an origin predicts -----

  // The row belongs to the origin: one of the two targets, a planned horizon whose event lies in the stream, a planned
  // model; it targets the event `horizon` steps on and waits for that event's label, and its point is the forecast.
  predicate Planned(plan: Plan, unit: string, prefix: seq<Event>, length: int, origin: int, r: Prediction) {
    && (r.target == "capacity_ratio" || r.target == "esr_ratio")
    && r.horizon in plan.horizons && origin + r.horizon < length
    && r.model in plan.models
    && r.unit == unit && r.context == plan.context && r.origin == origin && r.commitSeq == origin
    && r.expectedTarget == origin + r.horizon && r.labelSeq == origin + r.horizon
    && r.point == plan.forecast(unit, r.target, r.model, r.horizon, prefix)
  }

  lemma HorizonRowsArePlanned(plan: Plan, unit: string, prefix: seq<Event>, length: int, origin: int, target: string,
                              horizon: int, r: Prediction)
    requires target in TARGETS && horizon in plan.horizons
    ensures r in HorizonRows(plan, unit, prefix, length, origin, target, horizon) <==>
            Planned(plan, unit, prefix, length, origin, r) && r.target == target && r.horizon == horizon
  {
    var rows := HorizonRows(plan, unit, prefix, length, origin, target, horizon);
    if Planned(plan, unit, prefix, length, origin, r) && r.target == target && r.horizon == horizon {
      var m :| 0 <= m < |plan.models| && plan.models[m] == r.model;
      assert rows[m] == r;
    }
  }

  lemma {:induction false} TargetRowsArePlanned(plan: Plan, unit: string, prefix: seq<Event>, length: int, origin: int,
                                                target: string, n: nat, r: Prediction)
    requires target in TARGETS && n <= |plan.horizons|
    ensures r in TargetRows(plan, unit, prefix, length, origin, target, n) <==>
            Planned(plan, unit, prefix, length, origin, r) && r.target == target && r.horizon in plan.horizons[..n]
  {
    hide Planned, HorizonRows;
    if n > 0 {
      var horizon := plan.horizons[n - 1];
      TargetRowsArePlanned(plan, unit, prefix, length, origin, target, n - 1, r);
      HorizonRowsArePlanned(plan, unit, prefix, length, origin, target, horizon, r);
      assert plan.horizons[..n] == plan.horizons[..n - 1] + [horizon];
    }
  }

  /** The rows of an origin are exactly the planned ones. */
  lemma OriginRowsArePlanned(plan: Plan, unit: string, prefix: seq<Event>, length: int, origin: int)
    ensures forall r :: r in OriginRows(plan, unit, prefix, length, origin) <==>
                        Planned(plan, unit, prefix, length, origin, r)
  {
    forall r: Prediction
      ensures r in OriginRows(plan, unit, prefix, length, origin) <==> Planned(plan, unit, prefix, length, origin, r)
    {
      TargetRowsArePlanned(plan, unit, prefix, length, origin, TARGETS[0], |plan.horizons|, r);
      TargetRowsArePlanned(plan, unit, prefix, length, origin, TARGETS[1], |plan.horizons|, r);
      assert plan.horizons[..|plan.horizons|] == plan.horizons;
    }
  }

  /** Every row of an origin targets a later event of the stream, and an origin before the last event has rows. */
  lemma OriginRowsFit(plan: Plan, unit: string, prefix: seq<Event>, length: int, origin: int)
    requires PlanOk(plan)
    ensures forall r | r in OriginRows(plan, unit, prefix, length, origin) :: RowOf(plan, unit, length, origin, r)
    ensures origin + 1 < length ==> OriginRows(plan, unit, prefix, length, origin) != []
  {
    OriginRowsArePlanned(plan, unit, prefix, length, origin);
    hide OriginRows;
    if origin + 1 < length {
      var model := plan.models[0];
      assert Planned(plan, unit, prefix, length, origin,
                     Prediction(unit, model, TARGETS[0], 1, plan.context, origin, origin + 1, origin, origin + 1,
                                plan.forecast(unit, TARGETS[0], model, 1, prefix)));
    }
  }

  // ----- The honest run -----

  function RowsAt(plan: Plan, unit: string, origin: nat): seq<Prediction>
    requires origin < |plan.series(unit)|
  {
    OriginRows(plan, unit, plan.series(unit)[..origin + 1], |plan.series(unit)|, origin)
  }

  /** One origin of a unit: its batch committed, then the next event revealed. */
  function OriginStep(e: Encoding, plan: Plan, logs: Logs, unit: string, origin: nat): Logs
    requires origin < |plan.series(unit)|
  {
    Reveal(e, CommitOrigin(e, logs, unit, origin, RowsAt(plan, unit, origin)), unit, origin + 1, Some(origin))
  }

  /** The files after `n` events of a unit have been revealed. */
  function UnitRun(e: Encoding, plan: Plan, logs: Logs, unit: string, n: nat): Logs
    requires n <= |plan.series(unit)| && plan.context >= 2
  {
    if n == 0 then logs
    else if n <= plan.context then Reveal(e, UnitRun(e, plan, logs, unit, n - 1), unit, n - 1, None)
    else OriginStep(e, plan, UnitRun(e, plan, logs, unit, n - 1), unit, n - 2)
  }

  /** The files after the first `k` units. */
  function HonestRun(e: Encoding, plan: Plan, k: nat): Logs
    requires k <= |plan.units| && plan.context >= 2
  {
    if k == 0 then EMPTY
    else UnitRun(e, plan, HonestRun(e, plan, k - 1), plan.units[k - 1], |plan.series(plan.units[k - 1])|)
  }
}
