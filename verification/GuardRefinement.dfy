/** How guard and static scan see one byte string: each refines the other, with stated differences. */
module GuardRefinement {
  import opened Basics
  import opened BiffRecords
  import opened StaticScan

  /** The scan is complete exactly when the data frames without an encrypted record, within the limits. */
  lemma CompleteScanFrames(data: Bytes, limits: Limits)
    ensures ReportOf(data, limits).complete <==>
            0 < |data| <= limits.maxStream
            && var f := Frames(data, 0);
               f.Some? && Plain(f.value) && |f.value| <= limits.maxRecords
  {
    if |data| <= limits.maxStream {
      var s := Scan(data, 0, limits.maxRecords);
      ScanReachesEnd(data, 0, limits.maxRecords);
      ScanStopsShort(data, 0, limits.maxRecords);
      FramesEnd(data, 0);
    }
  }

  /** A scan that stops early, and not at an encrypted record, leaves bytes behind it. */
  lemma {:induction false} ScanStopsShort(data: Bytes, cursor: nat, room: int)
    requires cursor <= |data|
    ensures var s := Scan(data, cursor, room);
            var end := if s.records == [] then cursor else End(s.records[|s.records| - 1]);
            end <= |data| && (s.stop !in {AtEnd, Encrypted} ==> end < |data|) && (s.stop == AtEnd ==> end == |data|)
    decreases |data| - cursor
  {
    if cursor < |data| && room > 0 && HasHeader(data, cursor) && End(RecordAt(data, cursor)) <= |data| {
      var r := RecordAt(data, cursor);
      ScanStopsShort(data, End(r), room - 1);
      var s, rest := Scan(data, cursor, room), Scan(data, End(r), room - 1);
      if r.kind != FILEPASS && rest.records != [] {
        assert s.records[|s.records| - 1] == rest.records[|rest.records| - 1];
      }
    }
  }

  lemma {:induction false} FramesEnd(data: Bytes, cursor: nat)
    requires cursor <= |data|
    ensures var f := Frames(data, cursor);
            f.Some? && f.value != [] ==> End(f.value[|f.value| - 1]) == |data|
    ensures Frames(data, cursor) == Some([]) ==> cursor == |data|
    decreases |data| - cursor
  {
    if cursor < |data| && HasHeader(data, cursor) && End(RecordAt(data, cursor)) <= |data| {
      FramesEnd(data, End(RecordAt(data, cursor)));
    }
  }

  /** The report of a scan that reaches the end. */
  lemma CompleteReport(data: Bytes, limits: Limits, f: seq<Record>)
    requires |data| <= limits.maxStream && Frames(data, 0) == Some(f) && f != []
    requires Plain(f) && |f| <= limits.maxRecords
    ensures AllFit(data, f)
    ensures var report := ReportOf(data, limits);
            && report.complete && report.records == |f| && report.framed == |data| && report.truncated.None?
            && report.types == Types(f)
            && report.blockers == BlockersOf(data, f) + EndBlockers(|f|, OpenAfter(f), Bofs(data, f), Bounds(data, f))
  {
    hide BlockersOf, EndBlockers, Bofs, Bounds, Types, OpenAfter, Scan, Frames;
    ScanReachesEnd(data, 0, limits.maxRecords);
    ScanFits(data, 0, limits.maxRecords);
    FramesEnd(data, 0);
  }

  // ----- The guard implies the scan -----

  /** Under the guard a substream is open exactly when the record before is not an EOF. */
  lemma {:induction false} GuardedOpen(data: Bytes, allowed: set<int>, records: seq<Record>, n: nat)
    requires AllFit(data, records) && GuardAll(data, allowed, records) && n <= |records|
    ensures OpenAfter(records[..n]) <==> n > 0 && records[n - 1].kind != EOF
  {
    assert !OpenAfter(records[..0]);
    hide OpenAfter, BofOk;
    if n > 0 {
      GuardedOpen(data, allowed, records, n - 1);
      OpenNext(records, n - 1);
      assert GuardAt(data, allowed, records, n - 1);
    }
  }

  /** The only blockers a guarded stream can raise: unknown or merely contextual records, and the sheet directory. */
  predicate Residual(b: Blocker) {
    || b in {UnclassifiedType, TruncatedBoundsheet, MalformedBoundsheet, UnclassifiedSheet, MacroSheet,
             TargetMismatch, UnlistedSubstream}
    || (b.ActiveOrContext? && b.kind in {0x0207, CONTINUE, 0x00EB, 0x00EC, 0x00ED})
  }

  lemma GuardedRecordIsResidual(data: Bytes, allowed: set<int>, previous: Option<int>, r: Record, b: Blocker)
    requires End(r) <= |data| && GuardStep(data, allowed, previous, r) && (previous.None? <==> r.offset == 0)
    requires b in RecordBlockers(data, previous.None?, previous.Some? && previous != Some(EOF), r)
    ensures Residual(b)
    ensures b == ActiveOrContext(CONTINUE) ==> r.kind == CONTINUE
  {
    hide U16, U8;
    var k := KindBlockers(data, previous.None?, previous.Some? && previous != Some(EOF), r);
    assert b in k || b == UnclassifiedType;
  }

  /** Guard refinement: everything is framed and scanned, and no framing, BOF or EOF blocker is raised. */
  lemma GuardedScanCompletes(data: Bytes, allowed: set<int>)
    requires Guarded(data, allowed)
    ensures var f, report := Frames(data, 0).value, ReportOf(data, GATE_LIMITS);
            && report.complete && report.records == |f| && report.framed == |data| && report.truncated.None?
            && report.types == Types(f)
            && (forall b <- report.blockers :: Residual(b))
            && (ActiveOrContext(CONTINUE) in report.blockers <==> exists i | 0 <= i < |f| :: f[i].kind == CONTINUE)
  {
    var f, report := Frames(data, 0).value, ReportOf(data, GATE_LIMITS);
    GuardedIsPlain(data, allowed);
    FramesCount(data, 0);
    CompleteReport(data, GATE_LIMITS, f);
    GuardedOpen(data, allowed, f, |f|);
    TakeAll(f);
    GuardedBlockers(data, allowed, f);
    hide Frames, ReportOf, BlockersOf, OpenAfter, GuardAll;
  }

  lemma GuardedBlockers(data: Bytes, allowed: set<int>, f: seq<Record>)
    requires Frames(data, 0) == Some(f) && AllFit(data, f) && GuardAll(data, allowed, f)
    ensures forall b <- BlockersOf(data, f) :: Residual(b)
    ensures ActiveOrContext(CONTINUE) in BlockersOf(data, f) <==> exists i | 0 <= i < |f| :: f[i].kind == CONTINUE
  {
    hide Frames, BlockersOf, BlockersAt, GuardAll, Residual;
    forall b <- BlockersOf(data, f)
      ensures Residual(b) && (b == ActiveOrContext(CONTINUE) ==> exists i | 0 <= i < |f| :: f[i].kind == CONTINUE)
    {
      BlockerComesFromRecord(data, f, b);
      var i :| 0 <= i < |f| && b in BlockersAt(data, f, i);
      GuardedBlockerAt(data, allowed, f, i, b);
    }
    if i :| 0 <= i < |f| && f[i].kind == CONTINUE {
      ContinueIsReported(data, f, i);
    }
  }

  lemma ContinueIsReported(data: Bytes, f: seq<Record>, i: nat)
    requires AllFit(data, f) && i < |f| && f[i].kind == CONTINUE
    ensures ActiveOrContext(CONTINUE) in BlockersOf(data, f)
  {
    assert ActiveOrContext(CONTINUE) in BlockersAt(data, f, i);
    hide BlockersAt;
    BlockerComesFromRecord(data, f, ActiveOrContext(CONTINUE));
  }

  lemma GuardedIsPlain(data: Bytes, allowed: set<int>)
    requires Guarded(data, allowed)
    ensures Plain(Frames(data, 0).value)
  {
    var f := Frames(data, 0).value;
    forall i | 0 <= i < |f| ensures f[i].kind != FILEPASS {
      assert GuardAt(data, allowed, f, i);
    }
  }

  lemma GuardedBlockerAt(data: Bytes, allowed: set<int>, f: seq<Record>, i: nat, b: Blocker)
    requires Frames(data, 0) == Some(f) && AllFit(data, f) && GuardAll(data, allowed, f)
    requires i < |f| && b in BlockersAt(data, f, i)
    ensures Residual(b) && (b == ActiveOrContext(CONTINUE) ==> f[i].kind == CONTINUE)
  {
    GuardedOpen(data, allowed, f, i);
    FramesFit(data, 0, i);
    assert GuardAt(data, allowed, f, i);
    GuardedRecordIsResidual(data, allowed, KindBefore(f, i), f[i], b);
  }

  // ----- A clean scan implies the guard -----

  predicate ChartBof(data: Bytes, r: Record)
    requires End(r) <= |data|
  {
    r.kind == BOF && r.size >= 4 && U16(data, r.offset + 6) == 32
  }

  lemma CleanBof(data: Bytes, first: bool, isOpen: bool, r: Record)
    requires End(r) <= |data| && BofBlockers(data, first, isOpen, r) == {}
    ensures !isOpen && r.size == 16 && U16(data, r.offset + 4) == 0x0600
    ensures U16(data, r.offset + 6) in {5, 16, 32} && (first ==> U16(data, r.offset + 6) == 5)
  {
    hide U16;
    var b := BofBlockers(data, first, isOpen, r);
    assert NestedBof !in b && MalformedBof !in b && UnsupportedVersion !in b && UnclassifiedBof !in b;
    assert MacroSubstream !in b && MissingGlobals !in b;
  }

  lemma CleanKind(data: Bytes, first: bool, isOpen: bool, r: Record)
    requires End(r) <= |data| && RecordBlockers(data, first, isOpen, r) == {}
    ensures r.size <= MAX_PAYLOAD && !Forbidden(r.kind) && r.kind != CONTINUE
    ensures (r.kind != BOF ==> isOpen && !first) && (r.kind == EOF ==> r.size == 0)
    ensures r.kind == BOF ==> BofBlockers(data, first, isOpen, r) == {}
  {
    var b, k := RecordBlockers(data, first, isOpen, r), KindBlockers(data, first, isOpen, r);
    assert k <= b && UnclassifiedType !in b && OutsideSubstream !in b && Oversize !in b && MissingInitialBof !in b by {
      hide KindBlockers;
    }
    hide RecordBlockers, BofBlockers, BoundsheetBlockers;
    assert k == {};
  }

  /** One record that raises no blocker meets the guard's local conditions, unless it opens a chart. */
  lemma CleanRecordIsGuarded(data: Bytes, allowed: set<int>, previous: Option<int>, isOpen: bool, r: Record)
    requires End(r) <= |data| && RecordBlockers(data, previous.None?, isOpen, r) == {}
    requires isOpen <==> previous.Some? && previous != Some(EOF)
    requires previous != Some(CONTINUE) && (previous.None? <==> r.offset == 0) && r.kind in allowed
    ensures r.kind != CONTINUE && (r.kind != BOF ==> isOpen)
    ensures GuardStep(data, allowed, previous, r) <==> !ChartBof(data, r)
  {
    CleanKind(data, previous.None?, isOpen, r);
    if r.kind == BOF { CleanBof(data, previous.None?, isOpen, r); }
    hide RecordBlockers, U16;
  }

  predicate KindsIn(records: seq<Record>, allowed: set<int>) {
    forall i | 0 <= i < |records| :: records[i].kind in allowed
  }

  predicate HasChart(data: Bytes, records: seq<Record>)
    requires AllFit(data, records)
  {
    exists i | 0 <= i < |records| :: ChartBof(data, records[i])
  }

  // A scan without blockers differs from the guard in one respect only: it lets chart substreams pass.
  // `allowed` is any vocabulary with the kinds that occur.
  lemma CleanScanIsGuarded(data: Bytes, allowed: set<int>)
    requires ReportOf(data, GATE_LIMITS).blockers == {}
    requires Frames(data, 0).Some? ==> KindsIn(Frames(data, 0).value, allowed)
    ensures Frames(data, 0).Some? && AllFit(data, Frames(data, 0).value)
    ensures Guarded(data, allowed) <==> !HasChart(data, Frames(data, 0).value)
  {
    CleanScanFrames(data);
    FramesAllFit(data);
    var f := Frames(data, 0).value;
    TakeAll(f);
    hide OpenAfter, BlockersOf, GuardStep, Frames, ReportOf, ChartBof;
    if HasChart(data, f) {
      var i :| 0 <= i < |f| && ChartBof(data, f[i]);
      ChartIsNotGuarded(data, allowed, KindBefore(f, i), f[i]);
      assert !GuardAt(data, allowed, f, i);
    } else {
      CleanIsGuardAll(data, allowed, f);
      CleanPrefix(data, allowed, f, |f|);
    }
  }

  lemma CleanIsGuardAll(data: Bytes, allowed: set<int>, f: seq<Record>)
    requires Frames(data, 0) == Some(f) && AllFit(data, f) && BlockersOf(data, f) == {} && KindsIn(f, allowed)
    requires !HasChart(data, f)
    ensures GuardAll(data, allowed, f)
  {
    hide OpenAfter, BlockersOf, GuardStep, Frames, ChartBof;
    forall i | 0 <= i < |f| ensures GuardAt(data, allowed, f, i) {
      CleanPrefix(data, allowed, f, i + 1);
    }
  }

  lemma ChartIsNotGuarded(data: Bytes, allowed: set<int>, previous: Option<int>, r: Record)
    requires End(r) <= |data| && ChartBof(data, r)
    ensures !GuardStep(data, allowed, previous, r)
  {
  }

  /** No blocker: the scan went to the end of a nonempty stream, and the last substream is closed. */
  lemma CleanScanFrames(data: Bytes)
    requires ReportOf(data, GATE_LIMITS).blockers == {}
    ensures 0 < |data| <= MAX_STREAM && Frames(data, 0).Some? && Frames(data, 0).value != []
    ensures var f := Frames(data, 0).value; AllFit(data, f) && BlockersOf(data, f) == {} && !OpenAfter(f)
  {
    CleanScanStops(data);
    var f, report := Frames(data, 0).value, ReportOf(data, GATE_LIMITS);
    CompleteReport(data, GATE_LIMITS, f);
    hide ReportOf, BlockersOf, Frames;
    assert MissingEof !in report.blockers;
  }

  lemma CleanScanStops(data: Bytes)
    requires ReportOf(data, GATE_LIMITS).blockers == {}
    ensures 0 < |data| <= MAX_STREAM
    ensures var f := Frames(data, 0); f.Some? && f.value != [] && Plain(f.value) && |f.value| <= GATE_LIMITS.maxRecords
  {
    var report := ReportOf(data, GATE_LIMITS);
    ScanFits(data, 0, GATE_LIMITS.maxRecords);
    ScanReachesEnd(data, 0, GATE_LIMITS.maxRecords);
    assert StreamLimit !in report.blockers;
    var s := Scan(data, 0, GATE_LIMITS.maxRecords);
    assert report.blockers >= StopBlockers(s.stop) + BlockersOf(data, s.records) by {
      hide BlockersOf, StopBlockers, Scan;
    }
    assert |s.records| == 0 ==> NoRecords in report.blockers by { hide BlockersOf, StopBlockers, Scan; }
    EncryptedIsBlocked(data, GATE_LIMITS.maxRecords);
    hide ReportOf, BlockersOf, Scan, Frames;
  }

  lemma {:induction false} EncryptedIsFilepass(data: Bytes, cursor: nat, room: int)
    requires cursor <= |data| && Scan(data, cursor, room).stop == Encrypted
    ensures var s := Scan(data, cursor, room); s.records != [] && s.records[|s.records| - 1].kind == FILEPASS
    decreases |data| - cursor
  {
    var r := RecordAt(data, cursor);
    if r.kind != FILEPASS {
      EncryptedIsFilepass(data, End(r), room - 1);
    }
  }

  lemma CleanAt(data: Bytes, f: seq<Record>, i: nat)
    requires AllFit(data, f) && BlockersOf(data, f) == {} && i < |f|
    ensures BlockersAt(data, f, i) == {}
  {
    hide BlockersAt, BlockersOf;
    forall b <- BlockersAt(data, f, i) ensures false {
      BlockerComesFromRecord(data, f, b);
    }
  }

  lemma EncryptedIsBlocked(data: Bytes, room: int)
    requires AllFit(data, Scan(data, 0, room).records)
    ensures var s := Scan(data, 0, room); s.stop == Encrypted ==> FilepassPresent in BlockersOf(data, s.records)
  {
    var s := Scan(data, 0, room);
    if s.stop == Encrypted {
      EncryptedIsFilepass(data, 0, room);
      hide *;
      FilepassIsReported(data, s.records, |s.records| - 1);
    }
  }

  lemma FilepassIsReported(data: Bytes, f: seq<Record>, i: nat)
    requires AllFit(data, f) && i < |f| && f[i].kind == FILEPASS
    ensures FilepassPresent in BlockersOf(data, f)
  {
    assert FilepassPresent in BlockersAt(data, f, i);
    hide BlockersAt;
    BlockerComesFromRecord(data, f, FilepassPresent);
  }

  /** Record by record: the substream flag is the last kind, and the guard's condition holds. */
  lemma {:induction false} CleanPrefix(data: Bytes, allowed: set<int>, f: seq<Record>, n: nat)
    requires Frames(data, 0) == Some(f) && AllFit(data, f) && BlockersOf(data, f) == {} && KindsIn(f, allowed)
    requires n <= |f| && !HasChart(data, f)
    ensures OpenAfter(f[..n]) <==> n > 0 && f[n - 1].kind != EOF
    ensures n > 0 ==> f[n - 1].kind != CONTINUE && GuardAt(data, allowed, f, n - 1)
  {
    if n > 0 {
      CleanPrefix(data, allowed, f, n - 1);
      OpenNext(f, n - 1);
      FramesFit(data, 0, n - 1);
      CleanAt(data, f, n - 1);
      hide Frames, BlockersOf, RecordBlockers, GuardStep, ChartBof, OpenAfter;
      CleanRecordIsGuarded(data, allowed, KindBefore(f, n - 1), OpenAfter(f[..n - 1]), f[n - 1]);
    }
  }
}
