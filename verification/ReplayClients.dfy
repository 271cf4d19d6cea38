/** Every client of the writer and the label services of replay.py, and when it is causal. */
module ReplayClients {
  // A client is any sequence of calls, for any units in any order. The writer and the services refuse
  // some calls; the others leave durable steps, and a crash cuts the steps anywhere.
  import opened Basics
  import opened HashChain
  import opened SealedLedger
  import opened ReplayLogs
  import opened CausalBarrier

  // ----- Calls -----

  /** A call of `append_origin` or of `reveal_next`. */
  datatype Call =
    | AppendOrigin(unit: string, origin: int, rows: seq<Prediction>)
    | RevealNext(unit: string, required: Option<int>)

  /** How many events of the unit have been read; its service reveals the next one. */
  function Reads(h: seq<Step>, unit: string): nat {
    if h == [] then 0
    else
      var last := h[|h| - 1];
      Reads(h[..|h| - 1], unit) + if last.EventRead? && last.unit == unit then 1 else 0
  }

  predicate Allowed(length: string -> nat, logs: Logs, call: Call) {
    match call
    case AppendOrigin(unit, origin, rows) => Appendable(logs, unit, origin, rows)
    case RevealNext(unit, required) => Revealable(logs, unit, Reads(logs.steps, unit), length(unit), required)
  }

  /** A refused call leaves no trace. */
  function Perform(e: Encoding, length: string -> nat, logs: Logs, call: Call): Logs {
    if !Allowed(length, logs, call) then logs
    else
      match call
      case AppendOrigin(unit, origin, rows) => CommitOrigin(e, logs, unit, origin, rows)
      case RevealNext(unit, required) => Reveal(e, logs, unit, Reads(logs.steps, unit), required)
  }

  function ClientRun(e: Encoding, length: string -> nat, calls: seq<Call>): Logs {
    if calls == [] then EMPTY
    else Perform(e, length, ClientRun(e, length, calls[..|calls| - 1]), calls[|calls| - 1])
  }

  // ----- The disk after a history -----

  /** One durable effect on the files. */
  function Apply(e: Encoding, logs: Logs, s: Step): Logs {
    match s
    case RowSynced(row) => AppendRow(e, logs, row)
    case CheckpointSynced(checkpoint) => AppendCheckpoint(e, logs, checkpoint)
    case AccessSynced(access) => AppendAccess(e, logs, access)
    case EventRead(unit, index) => ReadEvent(logs, unit, index)
  }

  /** The files that a history leaves: what a crash right after it finds on disk. */
  function Disk(e: Encoding, h: seq<Step>): (logs: Logs)
    ensures logs.steps == h
  {
    if h == [] then EMPTY else Apply(e, Disk(e, h[..|h| - 1]), h[|h| - 1])
  }

  lemma DiskSnoc(e: Encoding, h: seq<Step>, s: Step)
    ensures Disk(e, h + [s]) == Apply(e, Disk(e, h), s)
  {
    assert (h + [s])[..|h|] == h;
  }

  function RowSteps(rows: seq<Prediction>): (h: seq<Step>)
    ensures |h| == |rows| && forall i | 0 <= i < |h| :: h[i] == RowSynced(rows[i])
  {
    seq(|rows|, i requires 0 <= i < |rows| => RowSynced(rows[i]))
  }

  lemma RowStepsNext(h: seq<Step>, rows: seq<Prediction>)
    ensures rows == [] ==> h + RowSteps(rows) == h
    ensures rows != [] ==>
              h + RowSteps(rows) == (h + RowSteps(rows[..|rows| - 1])) + [RowSynced(rows[|rows| - 1])]
  {
    if rows != [] {
      assert RowSteps(rows) == RowSteps(rows[..|rows| - 1]) + [RowSynced(rows[|rows| - 1])];
    }
  }

  lemma {:induction false} BatchOnDisk(e: Encoding, logs: Logs, rows: seq<Prediction>)
    requires logs == Disk(e, logs.steps)
    ensures AppendRows(e, logs, rows) == Disk(e, logs.steps + RowSteps(rows))
  {
    hide Disk, AppendRow;
    RowStepsNext(logs.steps, rows);
    if rows != [] {
      var init, last := rows[..|rows| - 1], rows[|rows| - 1];
      BatchOnDisk(e, logs, init);
      DiskSnoc(e, logs.steps + RowSteps(init), RowSynced(last));
    }
  }

  /** The checkpoint of a batch of rows appended to `logs`. */
  function CommitCheckpoint(e: Encoding, logs: Logs, unit: string, origin: int, rows: seq<Prediction>): Checkpoint {
    BatchCheckpoint(AppendRows(e, logs, rows), unit, origin, |logs.ledger|)
  }

  lemma CommitOnDisk(e: Encoding, logs: Logs, unit: string, origin: int, rows: seq<Prediction>)
    requires logs == Disk(e, logs.steps)
    ensures CommitOrigin(e, logs, unit, origin, rows) ==
            Disk(e, (logs.steps + RowSteps(rows)) + [CheckpointSynced(CommitCheckpoint(e, logs, unit, origin, rows))])
  {
    BatchOnDisk(e, logs, rows);
    DiskSnoc(e, logs.steps + RowSteps(rows), CheckpointSynced(CommitCheckpoint(e, logs, unit, origin, rows)));
  }

  lemma RevealOnDisk(e: Encoding, logs: Logs, unit: string, index: int, required: Option<int>)
    requires logs == Disk(e, logs.steps)
    ensures var access := RevealAccess(logs, unit, index, required);
            Reveal(e, logs, unit, index, required) ==
            Disk(e, (logs.steps + [AccessSynced(access)]) + [EventRead(unit, index)])
  {
    var access := RevealAccess(logs, unit, index, required);
    DiskSnoc(e, logs.steps, AccessSynced(access));
    DiskSnoc(e, logs.steps + [AccessSynced(access)], EventRead(unit, index));
  }

  // ----- What the checks give at every step -----

  /** What the writer and the services guarantee of the next step, from the files before it. */
  predicate Guarded(logs: Logs, s: Step) {
    match s
    case RowSynced(_) => true
    case CheckpointSynced(c) =>
      var before := LastRowBefore(logs.checkpoints, |logs.checkpoints|);
      && FindCheckpoint(logs.checkpoints, c.unit, c.origin).None?
      && 0 <= before < |logs.ledger| && c == BatchCheckpoint(logs, c.unit, c.origin, before)
    case AccessSynced(a) =>
      && a == RevealAccess(logs, a.unit, Reads(logs.steps, a.unit), a.required)
      && (a.required.Some? ==> FindCheckpoint(logs.checkpoints, a.unit, a.required.value).Some?)
    case EventRead(unit, index) =>
      logs.steps != [] &&
      var last := logs.steps[|logs.steps| - 1];
      last.AccessSynced? && last.access.unit == unit && last.access.revealed == index
  }

  predicate Served(e: Encoding, h: seq<Step>) {
    forall i | 0 <= i < |h| :: Guarded(Disk(e, h[..i]), h[i])
  }

  lemma ServedSnoc(e: Encoding, h: seq<Step>, s: Step)
    requires Served(e, h) && Guarded(Disk(e, h), s)
    ensures Served(e, h + [s])
  {
    hide Guarded, Disk;
    forall i | 0 <= i <= |h|
      ensures Guarded(Disk(e, (h + [s])[..i]), (h + [s])[i])
    {
      if i < |h| {
        assert (h + [s])[..i] == h[..i];
        assert Guarded(Disk(e, h[..i]), h[i]);
      } else {
        assert (h + [s])[..i] == h;
      }
    }
  }

  /** A crash leaves a served history. */
  lemma CrashIsServed(e: Encoding, h: seq<Step>, n: nat)
    requires Served(e, h) && n <= |h|
    ensures Served(e, h[..n])
  {
    hide Guarded, Disk;
    forall i | 0 <= i < n
      ensures Guarded(Disk(e, h[..n][..i]), h[..n][i])
    {
      TakeTake(h, i, n);
      assert Guarded(Disk(e, h[..i]), h[i]);
    }
  }

  lemma {:induction false} BatchIsServed(e: Encoding, h: seq<Step>, rows: seq<Prediction>)
    requires Served(e, h)
    ensures Served(e, h + RowSteps(rows))
  {
    hide Served, Disk;
    RowStepsNext(h, rows);
    if rows != [] {
      var init := rows[..|rows| - 1];
      BatchIsServed(e, h, init);
      ServedSnoc(e, h + RowSteps(init), RowSynced(rows[|rows| - 1]));
    }
  }

  /** Between calls every ledger row belongs to a checkpointed batch. */
  predicate Settled(logs: Logs) {
    LastRowBefore(logs.checkpoints, |logs.checkpoints|) == |logs.ledger|
  }

  lemma CallIsServed(e: Encoding, length: string -> nat, logs: Logs, call: Call)
    requires logs == Disk(e, logs.steps) && Served(e, logs.steps) && Settled(logs) && Allowed(length, logs, call)
    ensures var next := Perform(e, length, logs, call);
            next == Disk(e, next.steps) && Served(e, next.steps) && Settled(next) && logs.steps <= next.steps
  {
    hide Served, Disk, AppendRow, FindCheckpoint;
    match call
    case AppendOrigin(unit, origin, rows) =>
      var c := CommitCheckpoint(e, logs, unit, origin, rows);
      CommitOnDisk(e, logs, unit, origin, rows);
      BatchOnDisk(e, logs, rows);
      BatchIsServed(e, logs.steps, rows);
      ServedSnoc(e, logs.steps + RowSteps(rows), CheckpointSynced(c));
    case RevealNext(unit, required) =>
      var index := Reads(logs.steps, unit);
      var access := RevealAccess(logs, unit, index, required);
      RevealOnDisk(e, logs, unit, index, required);
      ServedSnoc(e, logs.steps, AccessSynced(access));
      ServedSnoc(e, logs.steps + [AccessSynced(access)], EventRead(unit, index));
  }

  /** Whatever a client calls, its files are the disk of its history, and every step was guarded. */
  lemma {:induction false} ClientIsServed(e: Encoding, length: string -> nat, calls: seq<Call>)
    ensures var logs := ClientRun(e, length, calls);
            logs == Disk(e, logs.steps) && Served(e, logs.steps) && Settled(logs)
  {
    if calls != [] {
      var init := calls[..|calls| - 1];
      ClientIsServed(e, length, init);
      var logs, call := ClientRun(e, length, init), calls[|calls| - 1];
      if Allowed(length, logs, call) {
        hide Served, Disk, Allowed;
        CallIsServed(e, length, logs, call);
      }
    }
  }

  // ----- Reveals follow commits -----

  predicate IsRow(s: Step, unit: string, origin: int) {
    s.RowSynced? && s.row.unit == unit && s.row.origin == origin
  }

  predicate IsCheckpoint(s: Step, unit: string, origin: int) {
    s.CheckpointSynced? && s.checkpoint.unit == unit && s.checkpoint.origin == origin
  }

  predicate HasCheckpoint(h: seq<Step>, unit: string, origin: int) {
    exists j | 0 <= j < |h| :: IsCheckpoint(h[j], unit, origin)
  }

  lemma FindNext(e: Encoding, h: seq<Step>, s: Step, unit: string, origin: int)
    ensures var before := FindCheckpoint(Disk(e, h).checkpoints, unit, origin);
            var after := FindCheckpoint(Disk(e, h + [s]).checkpoints, unit, origin);
            if IsCheckpoint(s, unit, origin) then after.Some? && after.value.payload == s.checkpoint
            else after == before
  {
    DiskSnoc(e, h, s);
    hide Disk;
    var before, after := Disk(e, h).checkpoints, Disk(e, h + [s]).checkpoints;
    assert s.CheckpointSynced? ==> after[..|after| - 1] == before;
  }

  /** A checkpoint is found on disk exactly when it was synced, and as it was synced. */
  lemma {:induction false} FoundIsSynced(e: Encoding, h: seq<Step>, unit: string, origin: int)
    ensures FindCheckpoint(Disk(e, h).checkpoints, unit, origin).Some? <==> HasCheckpoint(h, unit, origin)
    ensures FindCheckpoint(Disk(e, h).checkpoints, unit, origin).Some? ==>
              exists j | 0 <= j < |h| :: IsCheckpoint(h[j], unit, origin)
                && h[j].checkpoint == FindCheckpoint(Disk(e, h).checkpoints, unit, origin).value.payload
  {
    if h != [] {
      var init, s := h[..|h| - 1], h[|h| - 1];
      FoundIsSynced(e, init, unit, origin);
      FindNext(e, init, s, unit, origin);
      assert h == init + [s];
      hide Disk, FindCheckpoint;
      assert forall j | 0 <= j < |init| :: init[j] == h[j];
    }
  }

  /** In a served history every event of a unit is read in its turn. */
  lemma ReadsAreInOrder(e: Encoding, h: seq<Step>, i: nat)
    requires Served(e, h) && i < |h| && h[i].EventRead?
    ensures i > 0 && h[i - 1].AccessSynced? && h[i - 1].access.unit == h[i].unit
            && h[i - 1].access.revealed == h[i].index
    ensures h[i].index == Reads(h[..i], h[i].unit)
  {
    assert Guarded(Disk(e, h[..i]), h[i]) && Guarded(Disk(e, h[..i - 1]), h[i - 1]);
    assert h[..i][..i - 1] == h[..i - 1];
  }

  predicate WasRead(h: seq<Step>, unit: string, t: int) {
    exists i | 0 <= i < |h| :: h[i] == EventRead(unit, t)
  }

  lemma WasReadNext(h: seq<Step>, n: nat, unit: string, t: int)
    requires |h| == n + 1
    ensures WasRead(h, unit, t) <==> WasRead(h[..n], unit, t) || h[n] == EventRead(unit, t)
  {
    assert forall i | 0 <= i < n :: h[..n][i] == h[i];
  }

  /** The events read of a unit are the first ones. */
  lemma {:induction false} FirstEventsAreRead(e: Encoding, h: seq<Step>, unit: string, t: int)
    requires Served(e, h)
    ensures WasRead(h, unit, t) <==> 0 <= t < Reads(h, unit)
  {
    if h != [] {
      var n := |h| - 1;
      CrashIsServed(e, h, n);
      FirstEventsAreRead(e, h[..n], unit, t);
      WasReadNext(h, n, unit, t);
      if h[n].EventRead? {
        ReadsAreInOrder(e, h, n);
      }
      hide Served, WasRead;
    }
  }

  // Unconditional safety, over every client and every crash point. An event is read only right after
  // its authorisation is durable, and events are read in order. A reveal that requires origin `o` follows
  // the one checkpoint of `o` (at `c`) and carries its final hash, which is the hash of the last of the
  // rows durable at `c`.
  lemma RevealFollowsCommit(e: Encoding, length: string -> nat, calls: seq<Call>, i: nat) returns (c: nat)
    requires i < |ClientRun(e, length, calls).steps| && ClientRun(e, length, calls).steps[i].EventRead?
    ensures var h := ClientRun(e, length, calls).steps;
            && i > 0 && h[i - 1].AccessSynced? && h[i - 1].access.unit == h[i].unit
            && h[i - 1].access.revealed == h[i].index == Reads(h[..i], h[i].unit)
    ensures var h := ClientRun(e, length, calls).steps;
            var access := h[i - 1].access;
            access.required.Some? ==>
              && c < i - 1 && IsCheckpoint(h[c], h[i].unit, access.required.value)
              && (forall d | 0 <= d < |h| && IsCheckpoint(h[d], h[i].unit, access.required.value) :: d == c)
              && access.predictionHash == Some(h[c].checkpoint.finalHash)
              && 1 <= h[c].checkpoint.firstRow <= h[c].checkpoint.lastRow == |Disk(e, h[..c]).ledger|
              && h[c].checkpoint.finalHash == LastRowHash(Disk(e, h[..c]).ledger)
  {
    var h := ClientRun(e, length, calls).steps;
    ClientIsServed(e, length, calls);
    c := GuardedReveal(e, h, i);
  }

  lemma GuardedReveal(e: Encoding, h: seq<Step>, i: nat) returns (c: nat)
    requires Served(e, h) && i < |h| && h[i].EventRead?
    ensures && i > 0 && h[i - 1].AccessSynced? && h[i - 1].access.unit == h[i].unit
            && h[i - 1].access.revealed == h[i].index == Reads(h[..i], h[i].unit)
    ensures var access := h[i - 1].access;
            access.required.Some? ==>
              && c < i - 1 && IsCheckpoint(h[c], h[i].unit, access.required.value)
              && (forall d | 0 <= d < |h| && IsCheckpoint(h[d], h[i].unit, access.required.value) :: d == c)
              && access.predictionHash == Some(h[c].checkpoint.finalHash)
              && 1 <= h[c].checkpoint.firstRow <= h[c].checkpoint.lastRow == |Disk(e, h[..c]).ledger|
              && h[c].checkpoint.finalHash == LastRowHash(Disk(e, h[..c]).ledger)
  {
    ReadsAreInOrder(e, h, i);
    assert Guarded(Disk(e, h[..i - 1]), h[i - 1]);
    var access := h[i - 1].access;
    c := 0;
    if access.required.Some? {
      hide Disk, FindCheckpoint;
      FoundIsSynced(e, h[..i - 1], access.unit, access.required.value);
      var j :| 0 <= j < i - 1 && IsCheckpoint(h[..i - 1][j], access.unit, access.required.value)
               && h[..i - 1][j].checkpoint ==
                  FindCheckpoint(Disk(e, h[..i - 1]).checkpoints, access.unit, access.required.value).value.payload;
      c := j;
      assert Guarded(Disk(e, h[..c]), h[c]);
      forall d | 0 <= d < |h| && IsCheckpoint(h[d], access.unit, access.required.value)
        ensures d == c
      {
        OneCheckpoint(e, h, c, d, access.unit, access.required.value);
      }
    }
  }

  lemma OneCheckpoint(e: Encoding, h: seq<Step>, c: nat, d: nat, unit: string, origin: int)
    requires Served(e, h) && c < |h| && d < |h| && IsCheckpoint(h[c], unit, origin) && IsCheckpoint(h[d], unit, origin)
    ensures c == d
  {
    var low, high := Min(c, d), Max(c, d);
    assert Guarded(Disk(e, h[..high]), h[high]);
    FoundIsSynced(e, h[..high], unit, origin);
    assert low < high ==> IsCheckpoint(h[..high][low], unit, origin);
  }

  // ----- When a client is causal -----

  /** Step `s` is a prediction of the very event that step `r` reads. */
  predicate Targets(s: Step, r: Step) {
    s.RowSynced? && r.EventRead? && s.row.unit == r.unit && s.row.expectedTarget == r.index
  }

  /** The read at `i` was authorised by the durable checkpoint of the origin before it. */
  predicate FollowsItsOrigin(h: seq<Step>, i: nat)
    requires i < |h| && h[i].EventRead?
  {
    && i > 0 && h[i - 1].AccessSynced? && h[i - 1].access.required == Some(h[i].index - 1)
    && HasCheckpoint(h[..i - 1], h[i].unit, h[i].index - 1)
  }

  // No prediction is durable after the event it targets was read, and every reveal past the context follows
  // its origin.
  predicate Causal(context: int, h: seq<Step>) {
    && (forall p, i | 0 <= p < |h| && 0 <= i < |h| && Targets(h[p], h[i]) :: p < i)
    && (forall i | 0 <= i < |h| && h[i].EventRead? && h[i].index >= context :: FollowsItsOrigin(h, i))
  }

  // What a caller checks before a call: past the context require the newest event, and predict only
  // unrevealed ones.
  predicate Disciplined(context: int, logs: Logs, call: Call) {
    match call
    case AppendOrigin(_, _, rows) => forall r | r in rows :: !(0 <= r.expectedTarget < Reads(logs.steps, r.unit))
    case RevealNext(unit, required) =>
      var next := Reads(logs.steps, unit);
      next >= context ==> required == Some(next - 1)
  }

  /** A crash leaves a causal history. */
  lemma CrashIsCausal(context: int, h: seq<Step>, n: nat)
    requires Causal(context, h) && n <= |h|
    ensures Causal(context, h[..n])
  {
    var g := h[..n];
    forall i | 0 <= i < n && g[i].EventRead? && g[i].index >= context
      ensures FollowsItsOrigin(g, i)
    {
      assert FollowsItsOrigin(h, i) && g[i] == h[i];
      assert g[..i - 1] == h[..i - 1];
    }
    forall p, i | 0 <= p < n && 0 <= i < n && Targets(g[p], g[i])
      ensures p < i
    {
      assert Targets(h[p], h[i]);
    }
  }

  /** The event that `s` predicts has already been read. */
  predicate TargetsRead(h: seq<Step>, s: Step) {
    exists i | 0 <= i < |h| :: Targets(s, h[i])
  }

  /** Steps that read nothing keep a history causal exactly when they predict nothing already read. */
  lemma CausalAppend(context: int, h: seq<Step>, block: seq<Step>)
    requires forall s | s in block :: !s.EventRead?
    ensures Causal(context, h + block) <==>
            Causal(context, h) && forall s | s in block :: !TargetsRead(h, s)
  {
    var g := h + block;
    assert g[..|h|] == h;
    assert forall i | |h| <= i < |g| :: g[i] in block;
    if Causal(context, g) {
      CrashIsCausal(context, g, |h|);
      forall s | s in block
        ensures !TargetsRead(h, s)
      {
        var b :| 0 <= b < |block| && block[b] == s;
        assert g[|h| + b] == s && forall i | 0 <= i < |h| :: g[i] == h[i];
      }
    }
    if Causal(context, h) && forall s | s in block :: !TargetsRead(h, s) {
      forall p, i | 0 <= p < |g| && 0 <= i < |g| && Targets(g[p], g[i])
        ensures p < i
      {
        assert i < |h| && Targets(g[p], h[i]) && p < |h|;
      }
      forall i | 0 <= i < |g| && g[i].EventRead? && g[i].index >= context
        ensures FollowsItsOrigin(g, i)
      {
        assert i < |h| && FollowsItsOrigin(h, i) && g[..i - 1] == h[..i - 1];
      }
    }
  }

  /** One authorised read keeps a history causal exactly when it follows its origin or lies below the context. */
  lemma CausalRead(context: int, h: seq<Step>, access: Access, unit: string, index: int)
    ensures Causal(context, (h + [AccessSynced(access)]) + [EventRead(unit, index)]) <==>
            && Causal(context, h)
            && (index >= context ==> access.required == Some(index - 1) && HasCheckpoint(h, unit, index - 1))
  {
    var f := h + [AccessSynced(access)];
    var g := f + [EventRead(unit, index)];
    var n := |f|;
    CausalAppend(context, h, [AccessSynced(access)]);
    assert g[n - 1] == AccessSynced(access) && g[n] == EventRead(unit, index) && g[..n - 1] == h && g[..n] == f;
    if Causal(context, g) {
      CrashIsCausal(context, g, n);
      assert index >= context ==> FollowsItsOrigin(g, n);
    }
    if Causal(context, f)
      && (index >= context ==> access.required == Some(index - 1) && HasCheckpoint(h, unit, index - 1)) {
      forall p, i | 0 <= p < |g| && 0 <= i < |g| && Targets(g[p], g[i])
        ensures p < i
      {
        assert p < n && (i < n ==> Targets(f[p], f[i]));
      }
      forall i | 0 <= i < |g| && g[i].EventRead? && g[i].index >= context
        ensures FollowsItsOrigin(g, i)
      {
        if i < n {
          assert g[i] == f[i] && FollowsItsOrigin(f, i) && g[..i - 1] == f[..i - 1];
        }
      }
    }
  }

  /** A call keeps a history causal exactly when it is disciplined. */
  lemma CallIsCausal(e: Encoding, length: string -> nat, context: int, logs: Logs, call: Call)
    requires logs == Disk(e, logs.steps) && Served(e, logs.steps) && Allowed(length, logs, call)
    ensures Causal(context, Perform(e, length, logs, call).steps) <==>
            Causal(context, logs.steps) && Disciplined(context, logs, call)
  {
    hide Causal, Served, Disk, Guarded;
    var h := logs.steps;
    match call
    case AppendOrigin(unit, origin, rows) =>
      var last := CheckpointSynced(CommitCheckpoint(e, logs, unit, origin, rows));
      var block := RowSteps(rows) + [last];
      CommitOnDisk(e, logs, unit, origin, rows);
      assert (h + RowSteps(rows)) + [last] == h + block;
      forall r | r in rows
        ensures RowSynced(r) in block
      {
        var k :| 0 <= k < |rows| && rows[k] == r;
        assert block[k] == RowSynced(r);
      }
      CausalAppend(context, h, block);
      BlockIsUnread(e, h, rows, block);
    case RevealNext(unit, required) =>
      var index: int := Reads(h, unit);
      RevealOnDisk(e, logs, unit, index, required);
      CausalRead(context, h, RevealAccess(logs, unit, index, required), unit, index);
      FoundIsSynced(e, h, unit, index - 1);
  }

  lemma RowIsUnread(e: Encoding, h: seq<Step>, r: Prediction)
    requires Served(e, h)
    ensures TargetsRead(h, RowSynced(r)) <==> 0 <= r.expectedTarget < Reads(h, r.unit)
  {
    FirstEventsAreRead(e, h, r.unit, r.expectedTarget);
    assert forall i | 0 <= i < |h| :: Targets(RowSynced(r), h[i]) <==> h[i] == EventRead(r.unit, r.expectedTarget);
  }

  /** No row of a batch predicts an event already read exactly when all targets lie outside the events read. */
  lemma BlockIsUnread(e: Encoding, h: seq<Step>, rows: seq<Prediction>, block: seq<Step>)
    requires Served(e, h)
    requires forall s | s in block && s.RowSynced? :: s.row in rows
    requires forall r | r in rows :: RowSynced(r) in block
    ensures (forall s | s in block :: !TargetsRead(h, s)) <==>
            forall r | r in rows :: !(0 <= r.expectedTarget < Reads(h, r.unit))
  {
    forall r: Prediction
      ensures TargetsRead(h, RowSynced(r)) <==> 0 <= r.expectedTarget < Reads(h, r.unit)
    {
      RowIsUnread(e, h, r);
    }
    forall s | s in block && TargetsRead(h, s)
      ensures s.RowSynced? && s == RowSynced(s.row)
    {
    }
    hide TargetsRead, Served, Reads;
  }

  /** Call `k` of a client was refused or disciplined. */
  predicate CallOk(e: Encoding, length: string -> nat, context: int, calls: seq<Call>, k: nat)
    requires k < |calls|
  {
    var logs := ClientRun(e, length, calls[..k]);
    Allowed(length, logs, calls[k]) ==> Disciplined(context, logs, calls[k])
  }

  lemma SameCall(e: Encoding, length: string -> nat, context: int, calls: seq<Call>, n: nat, k: nat)
    requires k < n <= |calls|
    ensures CallOk(e, length, context, calls, k) == CallOk(e, length, context, calls[..n], k)
  {
    TakeTake(calls, k, n);
  }

  // Causality is the client's duty, and this is exactly its duty: a client's history is causal, at the end
  // and at every crash point, if and only if every call it had accepted was disciplined.
  lemma {:induction false} CausalIffDisciplined(e: Encoding, length: string -> nat, context: int, calls: seq<Call>)
    ensures Causal(context, ClientRun(e, length, calls).steps) <==>
            forall k | 0 <= k < |calls| :: CallOk(e, length, context, calls, k)
  {
    if calls != [] {
      var n := |calls| - 1;
      var init := calls[..n];
      CausalIffDisciplined(e, length, context, init);
      ClientIsServed(e, length, init);
      var logs := ClientRun(e, length, init);
      hide Causal, Served, Disk, Allowed, Disciplined;
      if Allowed(length, logs, calls[n]) {
        CallIsCausal(e, length, context, logs, calls[n]);
      }
      assert CallOk(e, length, context, calls, n) <==>
             (Allowed(length, logs, calls[n]) ==> Disciplined(context, logs, calls[n]));
      hide CallOk;
      forall k | 0 <= k < n
        ensures CallOk(e, length, context, calls, k) == CallOk(e, length, context, init, k)
      {
        SameCall(e, length, context, calls, n, k);
      }
    }
  }

  /** A batch of one origin that predicts the next event is disciplined exactly when no later event has been read. */
  lemma BatchIsDisciplined(context: int, logs: Logs, unit: string, origin: nat, rows: seq<Prediction>)
    requires forall r | r in rows :: r.unit == unit && r.expectedTarget > origin
    requires exists r :: r in rows && r.expectedTarget == origin + 1
    ensures Disciplined(context, logs, AppendOrigin(unit, origin, rows)) <==> Reads(logs.steps, unit) <= origin + 1
  {
  }

  lemma NextCall(e: Encoding, length: string -> nat, calls: seq<Call>, call: Call)
    ensures ClientRun(e, length, calls + [call]) == Perform(e, length, ClientRun(e, length, calls), call)
  {
    assert (calls + [call])[..|calls|] == calls;
  }

  lemma ReadsSnoc(h: seq<Step>, s: Step, unit: string)
    ensures Reads(h + [s], unit) == Reads(h, unit) + if s.EventRead? && s.unit == unit then 1 else 0
  {
    assert (h + [s])[..|h|] == h;
  }

  lemma TargetReadIsNotCausal(context: int, h: seq<Step>, p: nat, i: nat)
    requires i <= p < |h| && Targets(h[p], h[i])
    ensures !Causal(context, h)
  {
  }

  lemma OneRowCommit(e: Encoding, length: string -> nat, logs: Logs, unit: string, origin: int, row: Prediction)
    requires logs.checkpoints == []
    ensures var next := Perform(e, length, logs, AppendOrigin(unit, origin, [row]));
            |next.steps| == |logs.steps| + 2 && logs.steps <= next.steps && next.steps[|logs.steps|] == RowSynced(row)
  {
    assert [row][..0] == [];
    assert AppendRows(e, logs, [row]) == AppendRow(e, logs, row);
  }

  lemma BootstrapCall(e: Encoding, length: string -> nat, logs: Logs, unit: string)
    requires Reads(logs.steps, unit) < length(unit)
    ensures var index := Reads(logs.steps, unit);
            var next := Perform(e, length, logs, RevealNext(unit, None));
            && next == Reveal(e, logs, unit, index, None) && next.checkpoints == logs.checkpoints
            && next.steps == (logs.steps + [AccessSynced(Authorisation(unit, index, None, None))]) +
                 [EventRead(unit, index)]
            && Reads(next.steps, unit) == index + 1
  {
    var access := AccessSynced(Authorisation(unit, Reads(logs.steps, unit), None, None));
    ReadsSnoc(logs.steps, access, unit);
    ReadsSnoc(logs.steps + [access], EventRead(unit, Reads(logs.steps, unit)), unit);
  }

  /** The writer accepts a batch whose target was already read: bootstrap two events, then predict the second. */
  lemma LateBatchIsAccepted(e: Encoding, length: string -> nat, row: Prediction)
    requires length(row.unit) >= 2 && row.expectedTarget == 1
    ensures var calls := [RevealNext(row.unit, None), RevealNext(row.unit, None), AppendOrigin(row.unit, 0, [row])];
            var h := ClientRun(e, length, calls).steps;
            |h| == 6 && h[3] == EventRead(row.unit, 1) && h[4] == RowSynced(row) && !Causal(2, h)
  {
    hide Perform, Causal, ClientRun;
    var next, late := RevealNext(row.unit, None), AppendOrigin(row.unit, 0, [row]);
    NextCall(e, length, [], next);
    NextCall(e, length, [next], next);
    NextCall(e, length, [next, next], late);
    assert [] + [next] == [next];
    assert [next] + [next] == [next, next];
    assert [next, next] + [late] == [next, next, late];
    NothingCalled(e, length);
    BootstrapCall(e, length, EMPTY, row.unit);
    var one := ClientRun(e, length, [next]);
    BootstrapCall(e, length, one, row.unit);
    var two := ClientRun(e, length, [next, next]);
    OneRowCommit(e, length, two, row.unit, 0, row);
    var h := ClientRun(e, length, [next, next, late]).steps;
    assert Targets(h[4], h[3]);
    TargetReadIsNotCausal(2, h, 4, 3);
  }

  /** The service reads past the context without an origin: with context 2, three bootstrap reveals in a row. */
  lemma UnboundRevealIsAccepted(e: Encoding, length: string -> nat, unit: string)
    requires length(unit) >= 3
    ensures var next := RevealNext(unit, None);
            var h := ClientRun(e, length, [next, next, next]).steps;
            |h| == 6 && h[5] == EventRead(unit, 2) && !Causal(2, h)
  {
    hide Perform, Causal, ClientRun;
    var next := RevealNext(unit, None);
    NextCall(e, length, [], next);
    NextCall(e, length, [next], next);
    NextCall(e, length, [next, next], next);
    assert [] + [next] == [next];
    assert [next] + [next] == [next, next];
    assert [next, next] + [next] == [next, next, next];
    NothingCalled(e, length);
    BootstrapCall(e, length, EMPTY, unit);
    BootstrapCall(e, length, ClientRun(e, length, [next]), unit);
    var two := ClientRun(e, length, [next, next]);
    BootstrapCall(e, length, two, unit);
    CausalRead(2, two.steps, Authorisation(unit, 2, None, None), unit, 2);
  }

  lemma NothingCalled(e: Encoding, length: string -> nat)
    ensures ClientRun(e, length, []) == EMPTY
  {
  }
}
