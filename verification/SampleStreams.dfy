/** Small streams, byte by byte: what scan and guard say of a worksheet, of a chart, and of a print chain. */
module SampleStreams {
  import opened Basics
  import opened BiffRecords
  import opened StaticScan
  import opened GuardRefinement

  // ----- One sheet -----

  const SHEET_RECORDS := [
    Record(0, BOF, 16), Record(20, BOUNDSHEET, 9), Record(33, EOF, 0), Record(37, BOF, 16), Record(57, EOF, 0)]

  /** Globals that list one sheet of a type at offset 37, and a substream there. */
  predicate SheetStream(data: Bytes, sheet: int, substream: int) {
    && |data| == 61
    && RecordAt(data, 0) == Record(0, BOF, 16) && U16(data, 4) == 0x0600 && U16(data, 6) == 5
    && RecordAt(data, 20) == Record(20, BOUNDSHEET, 9) && U32(data, 24) == 37
    && U8(data, 28) == 0 && U8(data, 29) == sheet && U8(data, 30) == 1 && U8(data, 31) == 0
    && RecordAt(data, 33) == Record(33, EOF, 0)
    && RecordAt(data, 37) == Record(37, BOF, 16) && U16(data, 41) == 0x0600 && U16(data, 43) == substream
    && RecordAt(data, 57) == Record(57, EOF, 0)
  }

  /** One such stream; all bytes not named are zero. */
  function SheetByte(sheet: byte, substream: byte, i: nat): byte {
    if i in {0, 37} then 0x09 else if i in {1, 38} then 0x08 else if i in {2, 39} then 0x10
    else if i in {5, 42} then 0x06
    else if i == 6 then 0x05 else if i == 20 then 0x85 else if i == 22 then 0x09 else if i == 24 then 37
    else if i == 29 then sheet else if i == 30 then 0x01 else if i == 32 then 0x43 else if i in {33, 57} then 0x0A
    else if i == 43 then substream else 0x00
  }

  function SheetData(sheet: byte, substream: byte): (data: Bytes)
    ensures |data| == 61 && forall i | 0 <= i < 61 :: data[i] == SheetByte(sheet, substream, i)
  {
    seq(61, i requires 0 <= i < 61 => SheetByte(sheet, substream, i))
  }

  lemma SheetStreamExists(sheet: byte, substream: byte)
    ensures SheetStream(SheetData(sheet, substream), sheet as int, substream as int)
  {
    var data := SheetData(sheet, substream);
    assert data[0] == 0x09 && data[1] == 0x08 && data[2] == 0x10 && data[3] == 0 && data[4] == 0 && data[5] == 0x06;
    assert data[6] == 0x05 && data[7] == 0 && data[20] == 0x85 && data[21] == 0 && data[22] == 0x09 && data[23] == 0;
    assert data[24] == 37 && data[25] == 0 && data[26] == 0 && data[27] == 0;
    assert data[28] == 0 && data[29] == sheet && data[30] == 0x01 && data[31] == 0;
    assert data[33] == 0x0A && data[34] == 0 && data[35] == 0 && data[36] == 0;
    assert data[37] == 0x09 && data[38] == 0x08 && data[39] == 0x10 && data[40] == 0 && data[41] == 0;
    assert data[42] == 0x06 && data[43] == substream && data[44] == 0;
    assert data[57] == 0x0A && data[58] == 0 && data[59] == 0 && data[60] == 0;
  }

  lemma SheetFrames(data: Bytes, sheet: int, substream: int)
    requires SheetStream(data, sheet, substream)
    ensures Frames(data, 0) == Some(SHEET_RECORDS) && AllFit(data, SHEET_RECORDS)
  {
    hide U16, U32, U8;
    var f := SHEET_RECORDS;
    assert |data| == 61 && Frames(data, 61) == Some([]);
    assert RecordAt(data, 57) == f[4] && RecordAt(data, 37) == f[3] && RecordAt(data, 33) == f[2];
    assert RecordAt(data, 20) == f[1] && RecordAt(data, 0) == f[0];
    hide Frames, RecordAt, SheetStream;
    FrameFirst(data, f[4], []);
    assert [f[4]] + [] == [f[4]];
    FrameFirst(data, f[3], [f[4]]);
    FrameFirst(data, f[2], [f[3]] + [f[4]]);
    FrameFirst(data, f[1], [f[2]] + ([f[3]] + [f[4]]));
    FrameFirst(data, f[0], [f[1]] + ([f[2]] + ([f[3]] + [f[4]])));
    assert [f[0]] + ([f[1]] + ([f[2]] + ([f[3]] + [f[4]]))) == f;
    forall i | 0 <= i < |f| ensures End(f[i]) <= 61 {}
  }

  lemma FrameFirst(data: Bytes, r: Record, rest: seq<Record>)
    requires HasHeader(data, r.offset) && RecordAt(data, r.offset) == r && End(r) <= |data|
    requires Frames(data, End(r)) == Some(rest)
    ensures Frames(data, r.offset) == Some([r] + rest)
  {
  }

  lemma FivePrefixes<T>(f: seq<T>)
    requires |f| == 5
    ensures && f[..0] == [] && f[..1] == f[..0] + [f[0]] && f[..2] == f[..1] + [f[1]] && f[..3] == f[..2] + [f[2]]
            && f[..4] == f[..3] + [f[3]] && f == f[..4] + [f[4]]
  {
  }

  lemma SheetTables(data: Bytes, sheet: int, substream: int)
    requires SheetStream(data, sheet, substream) && AllFit(data, SHEET_RECORDS)
    ensures Bofs(data, SHEET_RECORDS) == map[0 := Globals, 37 := BofLabel(substream)]
    ensures Bounds(data, SHEET_RECORDS) == [(SheetLabel(sheet), 37)]
  {
    hide U16, U8, U32, Types, SheetLabel;
    var f := SHEET_RECORDS;
    FivePrefixes(f);
    TablesNext(data, f[..0], f[0]);
    TablesNext(data, f[..1], f[1]);
    TablesNext(data, f[..2], f[2]);
    TablesNext(data, f[..3], f[3]);
    TablesNext(data, f[..4], f[4]);
  }

  lemma SheetRecordsAreClean(data: Bytes, sheet: int, substream: int)
    requires SheetStream(data, sheet, substream) && sheet in {0, 2} && substream in {16, 32}
    ensures var f := SHEET_RECORDS;
            && RecordBlockers(data, true, false, f[0]) == {} && RecordBlockers(data, false, true, f[1]) == {}
            && RecordBlockers(data, false, true, f[2]) == {} && RecordBlockers(data, false, false, f[3]) == {}
            && RecordBlockers(data, false, true, f[4]) == {}
  {
    hide U16, U8, U32, SubrecordBlockers, FormulaBlockers;
  }

  lemma SheetBlockers(data: Bytes, sheet: int, substream: int)
    requires SheetStream(data, sheet, substream) && sheet in {0, 2} && substream in {16, 32}
    requires AllFit(data, SHEET_RECORDS)
    ensures BlockersOf(data, SHEET_RECORDS) == {} && !OpenAfter(SHEET_RECORDS)
  {
    SheetRecordsAreClean(data, sheet, substream);
    hide SheetStream, RecordBlockers;
    var f := SHEET_RECORDS;
    FivePrefixes(f);
    assert BlockersOf(data, []) == {} && !OpenAfter([]);
    hide OpenAfter, BlockersOf;
    BlockersNext(data, f[..0], f[0]);
    BlockersNext(data, f[..1], f[1]);
    BlockersNext(data, f[..2], f[2]);
    BlockersNext(data, f[..3], f[3]);
    BlockersNext(data, f[..4], f[4]);
  }

  lemma SheetEnd(sheet: int, substream: int)
    requires sheet in {0, 2} && substream in {16, 32}
    ensures EndBlockers(5, false, map[0 := Globals, 37 := BofLabel(substream)], [(SheetLabel(sheet), 37)]) ==
            if (sheet == 0 && substream == 16) || (sheet == 2 && substream == 32) then {} else {TargetMismatch}
  {
    var bounds := [(SheetLabel(sheet), 37)];
    assert bounds[0] in bounds;
  }

  // Every such stream whose type and substream agree, a worksheet or a chart, is scanned without a blocker; one whose
  // type and substream differ has the mismatch as its only one.
  lemma SheetScan(data: Bytes, sheet: int, substream: int)
    requires SheetStream(data, sheet, substream) && sheet in {0, 2} && substream in {16, 32}
    ensures ReportOf(data, GATE_LIMITS).complete
    ensures ReportOf(data, GATE_LIMITS).blockers ==
            if (sheet == 0 && substream == 16) || (sheet == 2 && substream == 32) then {} else {TargetMismatch}
  {
    SheetFrames(data, sheet, substream);
    SheetTables(data, sheet, substream);
    SheetBlockers(data, sheet, substream);
    SheetEnd(sheet, substream);
    hide BlockersOf, Bofs, Bounds, Frames, U16, U32, U8, ReportOf, OpenAfter, Types, EndBlockers;
    CompleteReport(data, GATE_LIMITS, SHEET_RECORDS);
  }

  /** The guard accepts the worksheet and refuses the chart, whatever vocabulary holds their three kinds. */
  lemma SheetGuard(data: Bytes, sheet: int, substream: int, allowed: set<int>)
    requires SheetStream(data, sheet, substream) && {BOF, EOF, BOUNDSHEET} <= allowed
    requires (sheet, substream) in {(0, 16), (2, 32)}
    ensures Guarded(data, allowed) <==> sheet == 0
  {
    SheetScan(data, sheet, substream);
    SheetFrames(data, sheet, substream);
    assert ChartBof(data, SHEET_RECORDS[3]) <==> sheet == 2;
    assert !ChartBof(data, SHEET_RECORDS[0]);
    hide ReportOf, Frames, Guarded;
    CleanScanIsGuarded(data, allowed);
  }

  // A worksheet stream and a chart stream exist: both are scanned without a blocker, the first is accepted by the guard
  // and the second refused.
  lemma SamplesAreClean(allowed: set<int>)
    requires {BOF, EOF, BOUNDSHEET} <= allowed
    ensures var worksheet, chart := SheetData(0, 16), SheetData(2, 32);
            && SheetStream(worksheet, 0, 16) && SheetStream(chart, 2, 32)
            && ReportOf(worksheet, GATE_LIMITS).complete && ReportOf(worksheet, GATE_LIMITS).blockers == {}
            && ReportOf(chart, GATE_LIMITS).complete && ReportOf(chart, GATE_LIMITS).blockers == {}
            && Guarded(worksheet, allowed) && !Guarded(chart, allowed)
  {
    SheetStreamExists(0, 16);
    SheetStreamExists(2, 32);
    hide *;
    SheetScan(SheetData(0, 16), 0, 16);
    SheetScan(SheetData(2, 32), 2, 32);
    SheetGuard(SheetData(0, 16), 0, 16, allowed);
    SheetGuard(SheetData(2, 32), 2, 32, allowed);
  }

  // ----- A print chain -----

  const CHAIN_RECORDS := [
    Record(0, BOF, 16), Record(20, PLS, 0), Record(24, CONTINUE, 0), Record(28, SETUP, 0), Record(32, EOF, 0)]

  /** Globals with one printer record, its continuation and the page setup; all bytes not named are zero. */
  function ChainByte(i: nat): byte {
    if i == 0 then 0x09 else if i == 1 then 0x08 else if i == 2 then 0x10 else if i == 5 then 0x06
    else if i == 6 then 0x05 else if i == 20 then 0x4D else if i == 24 then 0x3C else if i == 28 then 0xA1
    else if i == 32 then 0x0A else 0x00
  }

  function ChainData(): (data: Bytes)
    ensures |data| == 36 && forall i | 0 <= i < 36 :: data[i] == ChainByte(i)
  {
    seq(36, i requires 0 <= i < 36 => ChainByte(i))
  }

  predicate ChainStream(data: Bytes) {
    && |data| == 36
    && RecordAt(data, 0) == Record(0, BOF, 16) && U16(data, 4) == 0x0600 && U16(data, 6) == 5
    && RecordAt(data, 20) == Record(20, PLS, 0) && RecordAt(data, 24) == Record(24, CONTINUE, 0)
    && RecordAt(data, 28) == Record(28, SETUP, 0) && RecordAt(data, 32) == Record(32, EOF, 0)
  }

  lemma ChainStreamExists()
    ensures ChainStream(ChainData())
  {
    var data := ChainData();
    assert data[0] == 0x09 && data[1] == 0x08 && data[2] == 0x10 && data[3] == 0 && data[4] == 0 && data[5] == 0x06;
    assert data[6] == 0x05 && data[7] == 0 && data[20] == 0x4D && data[21] == 0 && data[22] == 0 && data[23] == 0;
    assert data[24] == 0x3C && data[25] == 0 && data[26] == 0 && data[27] == 0;
    assert data[28] == 0xA1 && data[29] == 0 && data[30] == 0 && data[31] == 0;
    assert data[32] == 0x0A && data[33] == 0 && data[34] == 0 && data[35] == 0;
  }

  lemma ChainFrames(data: Bytes)
    requires ChainStream(data)
    ensures Frames(data, 0) == Some(CHAIN_RECORDS) && AllFit(data, CHAIN_RECORDS)
  {
    hide U16;
    var f := CHAIN_RECORDS;
    assert |data| == 36 && Frames(data, 36) == Some([]);
    assert RecordAt(data, 32) == f[4] && RecordAt(data, 28) == f[3] && RecordAt(data, 24) == f[2];
    assert RecordAt(data, 20) == f[1] && RecordAt(data, 0) == f[0];
    hide Frames, RecordAt, ChainStream;
    FrameFirst(data, f[4], []);
    assert [f[4]] + [] == [f[4]];
    FrameFirst(data, f[3], [f[4]]);
    FrameFirst(data, f[2], [f[3]] + [f[4]]);
    FrameFirst(data, f[1], [f[2]] + ([f[3]] + [f[4]]));
    FrameFirst(data, f[0], [f[1]] + ([f[2]] + ([f[3]] + [f[4]])));
    assert [f[0]] + ([f[1]] + ([f[2]] + ([f[3]] + [f[4]]))) == f;
    forall i | 0 <= i < |f| ensures End(f[i]) <= 36 {}
  }

  /** A continuation between a printer record and the page setup is accepted. */
  lemma PrintChainIsGuarded(allowed: set<int>)
    requires {BOF, PLS, CONTINUE, SETUP, EOF} <= allowed
    ensures Guarded(ChainData(), allowed)
    ensures Frames(ChainData(), 0) == Some(CHAIN_RECORDS) && CHAIN_RECORDS[2].kind == CONTINUE
  {
    ChainStreamExists();
    ChainFrames(ChainData());
    ChainGuardAll(ChainData(), allowed);
    hide GuardAll, Frames, ChainStream;
  }

  lemma ChainGuardAll(data: Bytes, allowed: set<int>)
    requires ChainStream(data) && {BOF, PLS, CONTINUE, SETUP, EOF} <= allowed && AllFit(data, CHAIN_RECORDS)
    ensures GuardAll(data, allowed, CHAIN_RECORDS)
  {
    hide U16;
    assert BofOk(data, CHAIN_RECORDS[0]);
    hide BofOk, ChainStream;
    assert GuardAt(data, allowed, CHAIN_RECORDS, 0);
    assert GuardAt(data, allowed, CHAIN_RECORDS, 1);
    assert GuardAt(data, allowed, CHAIN_RECORDS, 2);
    assert GuardAt(data, allowed, CHAIN_RECORDS, 3);
    assert GuardAt(data, allowed, CHAIN_RECORDS, 4);
    hide GuardAt;
  }
}
