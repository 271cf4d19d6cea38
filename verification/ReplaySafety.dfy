/** The run of replay.py as a client: always causal, and sound on disk at every crash point. */
module ReplaySafety {
  import opened Basics
  import opened HashChain
  import opened SealedLedger
  import opened ReplayLogs
  import opened ReplayClients
  import opened CausalBarrier
  import opened CausalVerifier
  import opened BarrierCompleteness

  // ----- What a crash leaves on disk, for every client -----

  /** The files hang together: chained, keys distinct, every checkpoint over complete rows, every reveal bound. */
  predicate SoundFiles(e: Encoding, logs: Logs) {
    && ChainsOk(e, logs)
    && DistinctKeys(logs.checkpoints)
    && AllBound(logs.checkpoints, logs.accesses)
    && (forall i | 0 <= i < |logs.checkpoints| :: SealsBlock(logs.ledger, logs.checkpoints, i))
    && 0 <= LastRowBefore(logs.checkpoints, |logs.checkpoints|) <= |logs.ledger|
  }

  lemma StepKeepsChains(e: Encoding, logs: Logs, s: Step)
    requires ChainsOk(e, logs)
    ensures ChainsOk(e, Apply(e, logs, s))
  {
    hide Chained, LogVerifies;
    match s
    case RowSynced(row) => RowChains(e, logs.ledger, row);
    case CheckpointSynced(checkpoint) => LineLinksSnoc(e.sha, e.checkpointText, logs.checkpoints, checkpoint);
    case AccessSynced(access) => LineLinksSnoc(e.sha, e.accessText, logs.accesses, access);
    case EventRead(_, _) =>
  }

  lemma SealStays(ledger: seq<LedgerRow>, checkpoints: seq<Line<Checkpoint>>, more: seq<LedgerRow>,
                  next: seq<Line<Checkpoint>>, i: nat)
    requires i < |checkpoints| && ledger <= more && checkpoints <= next && SealsBlock(ledger, checkpoints, i)
    ensures SealsBlock(more, next, i)
  {
    assert LastRowBefore(next, i) == LastRowBefore(checkpoints, i);
  }

  lemma StepKeepsFiles(e: Encoding, logs: Logs, s: Step)
    requires SoundFiles(e, logs) && Guarded(logs, s)
    ensures SoundFiles(e, Apply(e, logs, s))
  {
    StepKeepsChains(e, logs, s);
    var next := Apply(e, logs, s);
    hide ChainsOk, SealsBlock, DistinctKeys, AllBound, FindCheckpoint;
    forall i | 0 <= i < |logs.checkpoints|
      ensures SealsBlock(next.ledger, next.checkpoints, i)
    {
      SealStays(logs.ledger, logs.checkpoints, next.ledger, next.checkpoints, i);
    }
    KeysAndBounds(e, logs, s);
    LastSealStays(e, logs, s);
    hide Guarded, Apply, LastRowBefore;
  }

  lemma KeysAndBounds(e: Encoding, logs: Logs, s: Step)
    requires SoundFiles(e, logs) && Guarded(logs, s)
    ensures var next := Apply(e, logs, s);
            && DistinctKeys(next.checkpoints) && AllBound(next.checkpoints, next.accesses)
            && (|next.checkpoints| > |logs.checkpoints| ==>
                SealsBlock(next.ledger, next.checkpoints, |logs.checkpoints|))
  {
    hide ChainsOk, SealsBlock, DistinctKeys, AllBound, FindCheckpoint;
    match s
    case RowSynced(row) =>
    case CheckpointSynced(checkpoint) => NewCheckpoint(e, logs, checkpoint);
    case AccessSynced(access) => NewAccess(e, logs, access);
    case EventRead(_, _) =>
  }

  lemma LastSealStays(e: Encoding, logs: Logs, s: Step)
    requires Guarded(logs, s)
    requires 0 <= LastRowBefore(logs.checkpoints, |logs.checkpoints|) <= |logs.ledger|
    ensures var next := Apply(e, logs, s);
            && 0 <= LastRowBefore(next.checkpoints, |next.checkpoints|) <= |next.ledger|
            && |next.checkpoints| <= |logs.checkpoints| + 1
  {
    hide FindCheckpoint;
  }

  lemma NewAccess(e: Encoding, logs: Logs, access: Access)
    requires AllBound(logs.checkpoints, logs.accesses) && Guarded(logs, AccessSynced(access))
    ensures AllBound(logs.checkpoints, AppendAccess(e, logs, access).accesses)
  {
    hide FindCheckpoint;
    assert Bound(logs.checkpoints, access);
    hide Bound;
  }

  lemma NewCheckpoint(e: Encoding, logs: Logs, c: Checkpoint)
    requires SoundFiles(e, logs) && Guarded(logs, CheckpointSynced(c))
    ensures var next := AppendCheckpoint(e, logs, c);
            && DistinctKeys(next.checkpoints) && AllBound(next.checkpoints, next.accesses)
            && SealsBlock(next.ledger, next.checkpoints, |logs.checkpoints|)
  {
    hide ChainsOk, Bound, FindCheckpoint;
    var line := NextLine(e.sha, e.checkpointText, logs.checkpoints, c);
    assert forall i | 0 <= i < |logs.checkpoints| :: Key(logs.checkpoints[i].payload) != Key(line.payload);
    BoundStays(logs.checkpoints, line, logs.accesses);
    var next := logs.checkpoints + [line];
    assert LastRowBefore(next, |logs.checkpoints|) == LastRowBefore(logs.checkpoints, |logs.checkpoints|);
  }

  lemma {:induction false} ServedIsSound(e: Encoding, h: seq<Step>)
    requires Served(e, h)
    ensures SoundFiles(e, Disk(e, h))
  {
    if h != [] {
      var n := |h| - 1;
      CrashIsServed(e, h, n);
      ServedIsSound(e, h[..n]);
      assert Guarded(Disk(e, h[..n]), h[n]);
      hide SoundFiles, Guarded, Served;
      StepKeepsFiles(e, Disk(e, h[..n]), h[n]);
    }
  }

  // Whatever a client calls and wherever it crashes, the three files verify as chains, no origin has two
  // checkpoints, every durable checkpoint seals a complete block of durable rows, and every durable
  // authorisation that requires an origin carries the hashes of its durable checkpoint.
  lemma CrashLeavesSoundFiles(e: Encoding, length: string -> nat, calls: seq<Call>, n: nat)
    requires n <= |ClientRun(e, length, calls).steps|
    ensures SoundFiles(e, Disk(e, ClientRun(e, length, calls).steps[..n]))
  {
    hide SoundFiles, Served;
    var h := ClientRun(e, length, calls).steps;
    ClientIsServed(e, length, calls);
    CrashIsServed(e, h, n);
    ServedIsSound(e, h[..n]);
  }

  predicate FilesExtend(a: Logs, b: Logs) {
    a.ledger <= b.ledger && a.checkpoints <= b.checkpoints && a.accesses <= b.accesses
  }

  /** Every file only grows: a crash leaves a prefix of each. */
  lemma {:induction false} FilesGrow(e: Encoding, h: seq<Step>, n: nat)
    requires n <= |h|
    ensures FilesExtend(Disk(e, h[..n]), Disk(e, h))
  {
    hide Disk, Apply;
    if n == |h| {
      TakeAll(h);
    } else {
      FilesGrow(e, h[..|h| - 1], n);
      TakeTake(h, n, |h| - 1);
      ApplyExtends(e, Disk(e, h[..|h| - 1]), h[|h| - 1]);
      DiskSnoc(e, h[..|h| - 1], h[|h| - 1]);
      assert h == h[..|h| - 1] + [h[|h| - 1]];
    }
  }

  lemma ApplyExtends(e: Encoding, logs: Logs, s: Step)
    ensures FilesExtend(logs, Apply(e, logs, s))
  {
  }

  // ----- The driver is a disciplined client -----

  function Lengths(plan: Plan): string -> nat {
    unit => |plan.series(unit)|
  }

  /** The calls of one unit that reveal its first `n` events. */
  function UnitCalls(plan: Plan, unit: string, n: nat): seq<Call>
    requires n <= |plan.series(unit)| && plan.context >= 2
  {
    if n == 0 then []
    else if n <= plan.context then UnitCalls(plan, unit, n - 1) + [RevealNext(unit, None)]
    else
      UnitCalls(plan, unit, n - 1)
      + [AppendOrigin(unit, n - 2, RowsAt(plan, unit, n - 2)), RevealNext(unit, Some(n - 2))]
  }

  function HonestCalls(plan: Plan, k: nat): seq<Call>
    requires k <= |plan.units| && plan.context >= 2
  {
    if k == 0 then []
    else HonestCalls(plan, k - 1) + UnitCalls(plan, plan.units[k - 1], |plan.series(plan.units[k - 1])|)
  }

  /** Every call was accepted, and disciplined. */
  predicate AllGood(e: Encoding, plan: Plan, calls: seq<Call>) {
    forall k | 0 <= k < |calls| ::
      var logs := ClientRun(e, Lengths(plan), calls[..k]);
      Allowed(Lengths(plan), logs, calls[k]) && Disciplined(plan.context, logs, calls[k])
  }

  lemma OneMoreCall(e: Encoding, plan: Plan, calls: seq<Call>, call: Call)
    requires AllGood(e, plan, calls)
    requires var logs := ClientRun(e, Lengths(plan), calls);
             Allowed(Lengths(plan), logs, call) && Disciplined(plan.context, logs, call)
    ensures AllGood(e, plan, calls + [call])
    ensures ClientRun(e, Lengths(plan), calls + [call]) ==
            Perform(e, Lengths(plan), ClientRun(e, Lengths(plan), calls), call)
  {
    hide Allowed, Disciplined, Perform;
    NextCall(e, Lengths(plan), calls, call);
    var next := calls + [call];
    forall k | 0 <= k < |next|
      ensures var logs := ClientRun(e, Lengths(plan), next[..k]);
              Allowed(Lengths(plan), logs, next[k]) && Disciplined(plan.context, logs, next[k])
    {
      if k < |calls| {
        assert next[..k] == calls[..k] && next[k] == calls[k];
      } else {
        assert next[..k] == calls;
      }
    }
  }

  lemma {:induction false} BatchReads(h: seq<Step>, rows: seq<Prediction>, unit: string)
    ensures Reads(h + RowSteps(rows), unit) == Reads(h, unit)
  {
    hide Reads;
    RowStepsNext(h, rows);
    if rows != [] {
      BatchReads(h, rows[..|rows| - 1], unit);
      ReadsSnoc(h + RowSteps(rows[..|rows| - 1]), RowSynced(rows[|rows| - 1]), unit);
    }
  }

  lemma CommitReads(e: Encoding, logs: Logs, unit: string, origin: int, rows: seq<Prediction>, v: string)
    requires logs == Disk(e, logs.steps)
    ensures Reads(CommitOrigin(e, logs, unit, origin, rows).steps, v) == Reads(logs.steps, v)
  {
    hide Reads, Disk;
    CommitOnDisk(e, logs, unit, origin, rows);
    BatchReads(logs.steps, rows, v);
    ReadsSnoc(logs.steps + RowSteps(rows), CheckpointSynced(CommitCheckpoint(e, logs, unit, origin, rows)), v);
  }

  lemma RevealReads(e: Encoding, logs: Logs, unit: string, index: int, required: Option<int>, v: string)
    ensures Reads(Reveal(e, logs, unit, index, required).steps, v) == Reads(logs.steps, v) + if v == unit then 1 else 0
  {
    hide Reads;
    var access := AccessSynced(RevealAccess(logs, unit, index, required));
    ReadsSnoc(logs.steps, access, v);
    ReadsSnoc(logs.steps + [access], EventRead(unit, index), v);
  }

  /** The files after `calls`, with `n` events of the unit read, all calls good, and the files consistent. */
  ghost predicate Standing(e: Encoding, plan: Plan, calls: seq<Call>, logs: Logs, unit: string, n: nat) {
    && AllGood(e, plan, calls)
    && logs == ClientRun(e, Lengths(plan), calls)
    && Reads(logs.steps, unit) == n == |UnitAccesses(logs.accesses, unit)|
    && Consistent(e, plan, logs) && AllShapes(plan.context, logs)
  }

  lemma BootstrapStands(e: Encoding, plan: Plan, calls: seq<Call>, logs: Logs, unit: string, n: nat)
    requires PlanOk(plan) && Standing(e, plan, calls, logs, unit, n) && n < plan.context && n < |plan.series(unit)|
    ensures Standing(e, plan, calls + [RevealNext(unit, None)], Reveal(e, logs, unit, n, None), unit, n + 1)
    ensures forall v | v != unit :: Reads(Reveal(e, logs, unit, n, None).steps, v) == Reads(logs.steps, v)
  {
    forall v
      ensures Reads(Reveal(e, logs, unit, n, None).steps, v) == Reads(logs.steps, v) + if v == unit then 1 else 0
    {
      RevealReads(e, logs, unit, n, None, v);
    }
    hide Consistent, AllShapes, AllGood, UnitAccesses, Reads, Reveal;
    OneMoreCall(e, plan, calls, RevealNext(unit, None));
    RevealKeeps(e, plan, logs, unit, n, None);
    BootstrapShapes(e, plan.context, logs, unit);
  }

  function OriginCalls(plan: Plan, calls: seq<Call>, unit: string, origin: nat): seq<Call>
    requires origin < |plan.series(unit)|
  {
    (calls + [AppendOrigin(unit, origin, RowsAt(plan, unit, origin))]) + [RevealNext(unit, Some(origin))]
  }

  lemma OriginReads(e: Encoding, plan: Plan, logs: Logs, unit: string, origin: nat, v: string)
    requires origin < |plan.series(unit)| && logs == Disk(e, logs.steps)
    ensures Reads(OriginStep(e, plan, logs, unit, origin).steps, v) == Reads(logs.steps, v) + if v == unit then 1 else 0
    ensures Reads(CommitOrigin(e, logs, unit, origin, RowsAt(plan, unit, origin)).steps, v) == Reads(logs.steps, v)
  {
    hide Reads, Disk, Reveal, CommitOrigin, OriginRows;
    var rows := RowsAt(plan, unit, origin);
    CommitReads(e, logs, unit, origin, rows, v);
    RevealReads(e, CommitOrigin(e, logs, unit, origin, rows), unit, origin + 1, Some(origin), v);
  }

  /** Both calls of an origin are accepted and disciplined. */
  lemma OriginCallsAreGood(e: Encoding, plan: Plan, calls: seq<Call>, logs: Logs, unit: string, origin: nat)
    requires PlanOk(plan) && AllGood(e, plan, calls) && logs == ClientRun(e, Lengths(plan), calls)
    requires origin + 1 < |plan.series(unit)| && OriginIsOpen(e, plan, logs, unit, origin)
    requires Reads(logs.steps, unit) == origin + 1
    ensures AllGood(e, plan, OriginCalls(plan, calls, unit, origin))
    ensures ClientRun(e, Lengths(plan), OriginCalls(plan, calls, unit, origin)) ==
              OriginStep(e, plan, logs, unit, origin)
  {
    var rows := RowsAt(plan, unit, origin);
    ClientIsServed(e, Lengths(plan), calls);
    CommitIsGood(plan, logs, unit, origin);
    hide PlanOk, AllGood, Reads, Reveal, OriginRows, Served, Disk, FindCheckpoint, CommitOrigin, ClientRun, Disciplined;
    OneMoreCall(e, plan, calls, AppendOrigin(unit, origin, rows));
    OriginReads(e, plan, logs, unit, origin, unit);
    RevealIsGood(e, plan, CommitOrigin(e, logs, unit, origin, rows), unit, origin);
    OneMoreCall(e, plan, calls + [AppendOrigin(unit, origin, rows)], RevealNext(unit, Some(origin)));
  }

  lemma CommitIsGood(plan: Plan, logs: Logs, unit: string, origin: nat)
    requires PlanOk(plan) && origin + 1 < |plan.series(unit)| && Reads(logs.steps, unit) == origin + 1
    ensures Disciplined(plan.context, logs, AppendOrigin(unit, origin, RowsAt(plan, unit, origin)))
  {
    hide OriginRows;
    OriginRowsFit(plan, unit, plan.series(unit)[..origin + 1], |plan.series(unit)|, origin);
  }

  lemma RevealIsGood(e: Encoding, plan: Plan, logs: Logs, unit: string, origin: nat)
    requires origin + 1 < |plan.series(unit)| && Reads(logs.steps, unit) == origin + 1
    requires FindCheckpoint(logs.checkpoints, unit, origin).Some?
    ensures var call := RevealNext(unit, Some(origin));
            && Allowed(Lengths(plan), logs, call) && Disciplined(plan.context, logs, call)
            && Perform(e, Lengths(plan), logs, call) == Reveal(e, logs, unit, origin + 1, Some(origin))
  {
  }

  lemma OriginStands(e: Encoding, plan: Plan, calls: seq<Call>, logs: Logs, unit: string, origin: nat)
    requires PlanOk(plan) && Standing(e, plan, calls, logs, unit, origin + 1)
    requires plan.context <= origin + 1 < |plan.series(unit)|
    ensures Standing(e, plan, OriginCalls(plan, calls, unit, origin), OriginStep(e, plan, logs, unit, origin), unit,
                     origin + 2)
    ensures forall v | v != unit :: Reads(OriginStep(e, plan, logs, unit, origin).steps, v) == Reads(logs.steps, v)
  {
    OriginStaysOpen(e, plan, logs, unit, origin);
    ClientIsServed(e, Lengths(plan), calls);
    hide PlanOk, Consistent, AllShapes, AllGood, UnitAccesses, Reads, OriginCalls, OriginStep, OriginIsOpen, Served,
      Disk, ClientRun;
    forall v
      ensures Reads(OriginStep(e, plan, logs, unit, origin).steps, v) ==
              Reads(logs.steps, v) + if v == unit then 1 else 0
    {
      OriginReads(e, plan, logs, unit, origin, v);
    }
    OriginCallsAreGood(e, plan, calls, logs, unit, origin);
    OriginKeeps(e, plan, logs, unit, origin);
    OriginShapes(e, plan, logs, unit, origin);
  }

  lemma {:induction false} UnitIsClient(e: Encoding, plan: Plan, calls: seq<Call>, logs: Logs, unit: string, n: nat)
    requires PlanOk(plan) && n <= |plan.series(unit)| && Standing(e, plan, calls, logs, unit, 0)
    ensures Standing(e, plan, calls + UnitCalls(plan, unit, n), UnitRun(e, plan, logs, unit, n), unit, n)
    ensures forall v | v != unit :: Reads(UnitRun(e, plan, logs, unit, n).steps, v) == Reads(logs.steps, v)
  {
    hide Standing, OriginStep, Reveal, Reads, RowsAt;
    if n == 0 {
      assert calls + [] == calls;
    } else {
      UnitIsClient(e, plan, calls, logs, unit, n - 1);
      var before, prior := UnitRun(e, plan, logs, unit, n - 1), calls + UnitCalls(plan, unit, n - 1);
      if n <= plan.context {
        BootstrapStands(e, plan, prior, before, unit, n - 1);
        assert calls + UnitCalls(plan, unit, n) == prior + [RevealNext(unit, None)];
      } else {
        OriginStands(e, plan, prior, before, unit, n - 2);
        assert calls + UnitCalls(plan, unit, n) == OriginCalls(plan, prior, unit, n - 2);
      }
    }
  }

  /** The driver is the client that makes `HonestCalls`; each is accepted when made, and each is disciplined. */
  lemma {:induction false} HonestRuns(e: Encoding, plan: Plan, k: nat)
    requires PlanOk(plan) && k <= |plan.units|
    ensures HonestRun(e, plan, k) == ClientRun(e, Lengths(plan), HonestCalls(plan, k))
    ensures AllGood(e, plan, HonestCalls(plan, k))
    ensures forall i | k <= i < |plan.units| :: Reads(HonestRun(e, plan, k).steps, plan.units[i]) == 0
  {
    hide *;
    PlanHasContext(plan);
    if k == 0 {
      NothingRun(e, plan);
    } else {
      HonestRuns(e, plan, k - 1);
      HonestRunNext(e, plan, k);
      FreshUnit(e, plan, k);
      NextUnitIsClient(e, plan, k, HonestCalls(plan, k - 1), HonestRun(e, plan, k - 1));
    }
  }

  lemma PlanHasContext(plan: Plan)
    requires PlanOk(plan)
    ensures plan.context >= 2
  {
  }

  lemma NothingRun(e: Encoding, plan: Plan)
    requires plan.context >= 2
    ensures HonestRun(e, plan, 0) == ClientRun(e, Lengths(plan), HonestCalls(plan, 0))
            && AllGood(e, plan, HonestCalls(plan, 0))
    ensures forall v :: Reads(HonestRun(e, plan, 0).steps, v) == 0
  {
  }

  lemma HonestRunNext(e: Encoding, plan: Plan, k: nat)
    requires plan.context >= 2 && 0 < k <= |plan.units|
    ensures var unit, n := plan.units[k - 1], |plan.series(plan.units[k - 1])|;
            && HonestRun(e, plan, k) == UnitRun(e, plan, HonestRun(e, plan, k - 1), unit, n)
            && HonestCalls(plan, k) == HonestCalls(plan, k - 1) + UnitCalls(plan, unit, n)
  {
  }

  lemma NextUnitIsClient(e: Encoding, plan: Plan, k: nat, calls: seq<Call>, logs: Logs)
    requires PlanOk(plan) && plan.context >= 2 && 0 < k <= |plan.units|
    requires AllGood(e, plan, calls) && logs == ClientRun(e, Lengths(plan), calls)
    requires forall i | k - 1 <= i < |plan.units| :: Reads(logs.steps, plan.units[i]) == 0
    requires UnitAccesses(logs.accesses, plan.units[k - 1]) == []
    requires Consistent(e, plan, logs) && AllShapes(plan.context, logs)
    ensures var unit, n := plan.units[k - 1], |plan.series(plan.units[k - 1])|;
            var next, after := UnitRun(e, plan, logs, unit, n), calls + UnitCalls(plan, unit, n);
            && next == ClientRun(e, Lengths(plan), after) && AllGood(e, plan, after)
            && forall i | k <= i < |plan.units| :: Reads(next.steps, plan.units[i]) == 0
  {
    hide *;
    var unit, n := plan.units[k - 1], |plan.series(plan.units[k - 1])|;
    ReadyForUnit(e, plan, calls, logs, unit);
    UnitIsClient(e, plan, calls, logs, unit, n);
    StandingIsClient(e, plan, calls + UnitCalls(plan, unit, n), UnitRun(e, plan, logs, unit, n), unit, n);
    LaterUnitsDiffer(plan, k);
  }

  lemma LaterUnitsDiffer(plan: Plan, k: nat)
    requires PlanOk(plan) && 0 < k <= |plan.units|
    ensures forall i | k <= i < |plan.units| :: plan.units[i] != plan.units[k - 1]
  {
  }

  /** Before its turn a unit has no reveal. */
  lemma FreshUnit(e: Encoding, plan: Plan, k: nat)
    requires PlanOk(plan) && 0 < k <= |plan.units|
    ensures UnitAccesses(HonestRun(e, plan, k - 1).accesses, plan.units[k - 1]) == []
    ensures Consistent(e, plan, HonestRun(e, plan, k - 1)) && AllShapes(plan.context, HonestRun(e, plan, k - 1))
  {
    hide Consistent, AllShapes, HonestRun, UnitAccesses;
    UnitsSoFar(plan, k);
    RunKeeps(e, plan, k - 1);
  }

  lemma ReadyForUnit(e: Encoding, plan: Plan, calls: seq<Call>, logs: Logs, unit: string)
    requires AllGood(e, plan, calls) && logs == ClientRun(e, Lengths(plan), calls) && Reads(logs.steps, unit) == 0
    requires UnitAccesses(logs.accesses, unit) == [] && Consistent(e, plan, logs) && AllShapes(plan.context, logs)
    ensures Standing(e, plan, calls, logs, unit, 0)
  {
  }

  lemma StandingIsClient(e: Encoding, plan: Plan, calls: seq<Call>, logs: Logs, unit: string, n: nat)
    requires Standing(e, plan, calls, logs, unit, n)
    ensures AllGood(e, plan, calls) && logs == ClientRun(e, Lengths(plan), calls)
  {
  }

  /** The run is causal, and so is every crash of it. */
  lemma HonestIsCausal(e: Encoding, plan: Plan, k: nat, n: nat)
    requires PlanOk(plan) && k <= |plan.units| && n <= |HonestRun(e, plan, k).steps|
    ensures Causal(plan.context, HonestRun(e, plan, k).steps) && Causal(plan.context, HonestRun(e, plan, k).steps[..n])
    ensures Served(e, HonestRun(e, plan, k).steps) && HonestRun(e, plan, k) == Disk(e, HonestRun(e, plan, k).steps)
  {
    hide Causal, Allowed, Disciplined, Served, Disk, HonestRun;
    var calls := HonestCalls(plan, k);
    HonestRuns(e, plan, k);
    CausalIffDisciplined(e, Lengths(plan), plan.context, calls);
    ClientIsServed(e, Lengths(plan), calls);
    CrashIsCausal(plan.context, HonestRun(e, plan, k).steps, n);
  }

  // ----- Reveals of the driver -----

  /** The row synced at `p` stands in the ledger where the ledger ended at `p`. */
  lemma RowPosition(e: Encoding, h: seq<Step>, p: nat)
    requires p < |h| && h[p].RowSynced?
    ensures |Disk(e, h[..p]).ledger| < |Disk(e, h).ledger|
    ensures Disk(e, h).ledger[|Disk(e, h[..p]).ledger|].data == h[p].row
  {
    hide Disk;
    FilesGrow(e, h, p + 1);
    DiskSnoc(e, h[..p], h[p]);
    assert h[..p + 1] == h[..p] + [h[p]];
  }

  lemma CheckpointPosition(e: Encoding, h: seq<Step>, c: nat)
    requires c < |h| && h[c].CheckpointSynced? && Served(e, h)
    ensures exists j | 0 <= j < |Disk(e, h).checkpoints| :: Disk(e, h).checkpoints[j].payload == h[c].checkpoint
    ensures h[c].checkpoint.lastRow == |Disk(e, h[..c]).ledger|
  {
    hide Disk, FindCheckpoint;
    FilesGrow(e, h, c + 1);
    DiskSnoc(e, h[..c], h[c]);
    assert h[..c + 1] == h[..c] + [h[c]];
    assert Guarded(Disk(e, h[..c]), h[c]);
    hide Served, Guarded;
    assert Disk(e, h).checkpoints[|Disk(e, h[..c]).checkpoints|].payload == h[c].checkpoint;
  }

  /** In consistent files no row of an origin follows its checkpoint. */
  lemma RowsPrecedeCheckpoint(e: Encoding, plan: Plan, h: seq<Step>, c: nat, p: nat)
    requires Served(e, h) && Consistent(e, plan, Disk(e, h)) && c < |h| && p < |h|
    requires h[c].CheckpointSynced? && IsRow(h[p], h[c].checkpoint.unit, h[c].checkpoint.origin)
    ensures p < c
  {
    hide ChainsOk, AllBound, RowsOk, Served, Disk, FindCheckpoint, Guarded;
    var logs := Disk(e, h);
    RowPosition(e, h, p);
    CheckpointPosition(e, h, c);
    var j :| 0 <= j < |logs.checkpoints| && logs.checkpoints[j].payload == h[c].checkpoint;
    var i := OriginIsOneBlock(logs.ledger, logs.checkpoints, |Disk(e, h[..p]).ledger|);
    SameKeySameIndex(logs.checkpoints, i, j);
    if c <= p {
      FilesGrow(e, h[..p], c);
      TakeTake(h, c, p);
    }
  }

  lemma TargetIsLater(plan: Plan, ledger: seq<LedgerRow>, r: nat)
    requires RowsOk(plan, ledger) && r < |ledger|
    ensures ledger[r].data.expectedTarget > ledger[r].data.origin
  {
  }

  /** In consistent files every prediction of an event read, or of an earlier one, precedes the read. */
  lemma RowsPrecedeRead(e: Encoding, plan: Plan, h: seq<Step>, i: nat, p: nat)
    requires Served(e, h) && Causal(plan.context, h) && plan.context >= 0 && i < |h| && p < |h| && h[i].EventRead?
    requires RowsOk(plan, Disk(e, h).ledger) && h[p].RowSynced? && h[p].row.unit == h[i].unit
    requires 0 <= h[p].row.origin && h[p].row.expectedTarget <= h[i].index
    ensures p < i
  {
    hide Disk, Served, Reads, RowOf;
    RowPosition(e, h, p);
    TargetIsLater(plan, Disk(e, h).ledger, |Disk(e, h[..p]).ledger|);
    var t := h[p].row.expectedTarget;
    ReadsAreInOrder(e, h, i);
    if t < h[i].index {
      CrashIsServed(e, h, i);
      FirstEventsAreRead(e, h[..i], h[i].unit, t);
      var j :| 0 <= j < i && h[..i][j] == EventRead(h[i].unit, t);
      assert Targets(h[p], h[j]);
    } else {
      assert Targets(h[p], h[i]);
    }
  }

  // Causality of the program itself, at every crash point `n`: whatever held-out event past the
  // context a run has read, the checkpoint of the origin before it was already durable (at `c`), every row of
  // that origin lies before the checkpoint, and no row that targets the event, or an earlier one, is missing
  // from before the read.
  lemma HonestRevealIsCausal(e: Encoding, plan: Plan, k: nat, n: nat, i: nat) returns (c: nat)
    requires PlanOk(plan) && plan.context >= 2 && k <= |plan.units| && i < n <= |HonestRun(e, plan, k).steps|
    requires HonestRun(e, plan, k).steps[i].EventRead? && HonestRun(e, plan, k).steps[i].index >= plan.context
    ensures var h := HonestRun(e, plan, k).steps;
            && Causal(plan.context, h[..n])
            && c < i - 1 && IsCheckpoint(h[c], h[i].unit, h[i].index - 1)
            && h[i - 1].AccessSynced? && h[i - 1].access.required == Some(h[i].index - 1)
            && (forall p | 0 <= p < |h| && IsRow(h[p], h[i].unit, h[i].index - 1) :: p < c)
            && (forall p | 0 <= p < |h| && h[p].RowSynced? && h[p].row.unit == h[i].unit
                  && h[p].row.expectedTarget <= h[i].index :: p < i)
  {
    hide *;
    HonestIsCausal(e, plan, k, n);
    RunIsSound(e, plan, k);
    c := CausalReveal(e, plan, HonestRun(e, plan, k).steps, i);
  }

  lemma RunIsSound(e: Encoding, plan: Plan, k: nat)
    requires PlanOk(plan) && k <= |plan.units|
    ensures Consistent(e, plan, HonestRun(e, plan, k)) && AllShapes(plan.context, HonestRun(e, plan, k))
  {
    hide Consistent, AllShapes, HonestRun, UnitAccesses;
    RunKeeps(e, plan, k);
  }

  /** The causal history of consistent files: where the checkpoint before a reveal is, and what precedes it. */
  lemma CausalReveal(e: Encoding, plan: Plan, h: seq<Step>, i: nat) returns (c: nat)
    requires Served(e, h) && Causal(plan.context, h) && plan.context >= 2
    requires Consistent(e, plan, Disk(e, h)) && AllShapes(plan.context, Disk(e, h))
    requires i < |h| && h[i].EventRead? && h[i].index >= plan.context
    ensures c < i - 1 && IsCheckpoint(h[c], h[i].unit, h[i].index - 1)
    ensures h[i - 1].AccessSynced? && h[i - 1].access.required == Some(h[i].index - 1)
    ensures forall p | 0 <= p < |h| && IsRow(h[p], h[i].unit, h[i].index - 1) :: p < c
    ensures forall p | 0 <= p < |h| && h[p].RowSynced? && h[p].row.unit == h[i].unit
              && h[p].row.expectedTarget <= h[i].index :: p < i
  {
    hide Disk, Served, AllShapes, ChainsOk, DistinctKeys, BlocksTile, AllBound, RowsOk;
    assert FollowsItsOrigin(h, i);
    var j :| 0 <= j < i - 1 && IsCheckpoint(h[..i - 1][j], h[i].unit, h[i].index - 1);
    c := j;
    hide Causal;
    forall p | 0 <= p < |h| && IsRow(h[p], h[i].unit, h[i].index - 1)
      ensures p < c
    {
      RowsPrecedeCheckpoint(e, plan, h, c, p);
    }
    forall p | 0 <= p < |h| && h[p].RowSynced? && h[p].row.unit == h[i].unit && h[p].row.expectedTarget <= h[i].index
      ensures p < i
    {
      RowPosition(e, h, p);
      OriginsAreNatural(plan, Disk(e, h), |Disk(e, h[..p]).ledger|);
      RowsPrecedeRead(e, plan, h, i, p);
    }
  }

  lemma OriginsAreNatural(plan: Plan, logs: Logs, r: nat)
    requires AllShapes(plan.context, logs) && plan.context >= 1 && r < |logs.ledger|
    ensures logs.ledger[r].data.origin >= 0
  {
    var row := logs.ledger[r].data;
    assert Shape(plan.context, logs.ledger, row.unit, UnitAccesses(logs.accesses, row.unit));
    assert HasOrigin(logs.ledger, row.unit, row.origin);
  }

  // A crash of the program at any point `n`: the files are sound prefixes of those of the finished run, and
  // every durable checkpoint owns a complete durable block whose rows are all those of its unit and origin.
  lemma HonestCrash(e: Encoding, plan: Plan, k: nat, n: nat)
    requires PlanOk(plan) && k <= |plan.units| && n <= |HonestRun(e, plan, k).steps|
    ensures var disk := Disk(e, HonestRun(e, plan, k).steps[..n]);
            && SoundFiles(e, disk) && FilesExtend(disk, HonestRun(e, plan, k))
            && forall i | 0 <= i < |disk.checkpoints| :: OwnsBlock(disk.ledger, disk.checkpoints, i)
  {
    var logs := HonestRun(e, plan, k);
    var disk := Disk(e, logs.steps[..n]);
    HonestIsCausal(e, plan, k, n);
    CrashIsServed(e, logs.steps, n);
    ServedIsSound(e, logs.steps[..n]);
    FilesGrow(e, logs.steps, n);
    RunKeeps(e, plan, k);
    hide HonestRun, Disk, Served, Causal, ChainsOk, AllBound, RowsOk, DistinctKeys, AllShapes, SealsBlock, UnitAccesses;
    forall i | 0 <= i < |disk.checkpoints|
      ensures OwnsBlock(disk.ledger, disk.checkpoints, i)
    {
      OwnershipCut(logs.ledger, logs.checkpoints, disk.ledger, disk.checkpoints, i);
    }
  }

  lemma OwnershipCut(ledger: seq<LedgerRow>, checkpoints: seq<Line<Checkpoint>>, rows: seq<LedgerRow>,
                     lines: seq<Line<Checkpoint>>, i: nat)
    requires rows <= ledger && lines <= checkpoints && i < |lines|
    requires OwnsBlock(ledger, checkpoints, i) && SealsBlock(rows, lines, i)
    ensures OwnsBlock(rows, lines, i)
  {
    assert lines[i] == checkpoints[i];
    assert forall r | 0 <= r < |rows| :: rows[r] == ledger[r];
  }
}
