/** `scan_biff8_records` of ren_p1r1_xls_static.py: every record is counted, every surprise is a blocker. */
module StaticScan {
  import opened Basics
  import opened BiffRecords

  datatype Limits = Limits(maxStream: int, maxRecords: int)

  /** The limits of the static gate: 256 MiB and 64 Mi records. */
  const GATE_LIMITS := Limits(256 * 1024 * 1024, 64 * 1024 * 1024)

  datatype Blocker =
    | StreamLimit | RecordLimitExceeded | TruncatedHeader | TruncatedPayload | NoRecords
    | MissingInitialBof | UnclassifiedType | OutsideSubstream | Oversize
    | NestedBof | MalformedBof | UnsupportedVersion | UnclassifiedBof | MacroSubstream | MissingGlobals
    | MalformedEof | MissingEof
    | TruncatedBoundsheet | MalformedBoundsheet | UnclassifiedSheet | MacroSheet | TargetMismatch | UnlistedSubstream
    | FormulaPresent | TruncatedFormula | UnclassifiedFormulaCache | NonfiniteFormulaCache
    | ObjectPresent | TruncatedObject | MalformedObject
    | SupbookPresent | ExternSheetPresent | MalformedExternSheet | FilepassPresent
    | ActiveOrContext(kind: int)
    | Container(name: string)

  datatype Label = Globals | Worksheet | Chart | XlmMacro | VbModule | UnknownLabel | MalformedLabel

  datatype TypeRow = TypeRow(count: nat, first: nat, last: nat)

  datatype Report = Report(
    blockers: set<Blocker>, complete: bool, records: nat, framed: nat, stream: nat,
    truncated: Option<Record>, encrypted: bool, types: map<int, TypeRow>)

  const FORMULA := 0x0006
  const OBJ := 0x005D
  const SUPBOOK := 0x01AE
  const EXTERNSHEET := 0x0017

  predicate Passive(kind: int) {
    kind in {
      0x000A, 0x0031, 0x003D, 0x0042, 0x005C, 0x008C, 0x0092, 0x00BD, 0x00BE, 0x00D7, 0x00E0, 0x00E1, 0x00E2, 0x00FC,
      0x00FD, 0x00FF, 0x0200, 0x0201, 0x0203, 0x0204, 0x0205, 0x0208, 0x020B, 0x023E, 0x027E, 0x0293, 0x041E, 0x0022}
  }

  predicate Special(kind: int) {
    kind in {
      0x0809, 0x0085, 0x002F, 0x0017, 0x01AE, 0x005D, 0x0006, 0x0207, 0x003C, 0x0018, 0x0023, 0x01B8, 0x0221, 0x04BC,
      0x0236, 0x00EB, 0x00EC, 0x00ED}
  }

  // ----- One record -----

  function BofLabel(substream: int): Label {
    if substream == 5 then Globals else if substream == 6 then VbModule else if substream == 16 then Worksheet
    else if substream == 32 then Chart else if substream == 64 then XlmMacro else UnknownLabel
  }

  function SheetLabel(sheet: int): Label {
    if sheet == 0 then Worksheet else if sheet == 1 then XlmMacro else if sheet == 2 then Chart
    else if sheet == 6 then VbModule else UnknownLabel
  }

  function When(condition: bool, b: Blocker): set<Blocker> {
    if condition then {b} else {}
  }

  function BofBlockers(data: Bytes, first: bool, isOpen: bool, r: Record): set<Blocker>
    requires End(r) <= |data|
  {
    When(isOpen, NestedBof) + When(r.size != 16, MalformedBof)
    + if r.size < 4 then {}
      else
        var version, substream := U16(data, r.offset + 4), U16(data, r.offset + 6);
        When(version != 0x0600, UnsupportedVersion) + When(BofLabel(substream) == UnknownLabel, UnclassifiedBof)
        + When(substream in {6, 64}, MacroSubstream) + When(first && substream != 5, MissingGlobals)
  }

  /** A BOUNDSHEET name takes one or two bytes a character, as bit 0 of its options says. */
  function BoundsheetBlockers(data: Bytes, r: Record): set<Blocker>
    requires End(r) <= |data|
  {
    if r.size < 8 then {TruncatedBoundsheet}
    else
      var body := r.offset + 4;
      var visibility, sheet := U8(data, body + 4), U8(data, body + 5);
      var chars, options := U8(data, body + 6), U8(data, body + 7);
      When(visibility > 2 || options > 1 || r.size != 8 + chars * (1 + options % 2) || chars == 0, MalformedBoundsheet)
      + When(SheetLabel(sheet) == UnknownLabel, UnclassifiedSheet) + When(sheet in {1, 6}, MacroSheet)
  }

  /** The cached result is bytes 6 to 13 of the payload: a marked special value, or a floating-point number. */
  function FormulaBlockers(data: Bytes, r: Record): (found: set<Blocker>)
    requires End(r) <= |data|
    ensures FormulaPresent in found
  {
    var body := r.offset + 4;
    {FormulaPresent}
    + if r.size < 22 || U16(data, body + 20) > r.size - 22 then {TruncatedFormula}
      else if U8(data, body + 12) == 0xFF && U8(data, body + 13) == 0xFF then
        When(U8(data, body + 6) > 3, UnclassifiedFormulaCache)
      else When(U8(data, body + 13) % 128 == 127 && U8(data, body + 12) / 16 == 15, NonfiniteFormulaCache)
  }

  const FT_CMO := 0x0015

  /** The subrecords of an object from `cursor`; `seen` tells whether its FtCmo was met. */
  function SubrecordBlockers(data: Bytes, cursor: nat, end: nat, seen: bool): (found: set<Blocker>)
    requires cursor <= end <= |data|
    ensures found <= {TruncatedObject, MalformedObject}
    decreases end - cursor
  {
    if cursor == end then {}
    else if end - cursor < 4 || U16(data, cursor + 2) > end - cursor - 4 then {TruncatedObject}
    else
      var isCmo, size := U16(data, cursor) == FT_CMO, U16(data, cursor + 2);
      When(isCmo && (size != 18 || seen), MalformedObject)
      + SubrecordBlockers(data, cursor + 4 + size, end, seen || (isCmo && size == 18))
  }

  // ----- What the blockers of a formula and of an object mean -----

  lemma ExponentBits(low: int, high: int)
    requires 0 <= low < 256 && 0 <= high < 256
    ensures (low + 256 * high) / 16 % 2048 == 2047 <==> high % 128 == 127 && low / 16 == 15
    ensures low + 256 * high == 0xFFFF <==> low == 0xFF && high == 0xFF
  {
    assert (low + 256 * high) / 16 % 2048 == low / 16 + 16 * (high % 128);
  }

  /** The cached number is not finite exactly when the eleven exponent bits of its binary64 form are all set. */
  lemma FormulaCacheIsNonfinite(data: Bytes, r: Record)
    requires End(r) <= |data|
    ensures NonfiniteFormulaCache in FormulaBlockers(data, r) <==>
            && r.size >= 22 && U16(data, r.offset + 24) <= r.size - 22
            && U16(data, r.offset + 16) != 0xFFFF && U16(data, r.offset + 16) / 16 % 2048 == 2047
  {
    if r.size >= 22 {
      var low, high := U8(data, r.offset + 16), U8(data, r.offset + 17);
      assert U16(data, r.offset + 16) == low + 256 * high;
      ExponentBits(low, high);
    }
    hide U16, U8;
  }

  /** The subrecords from `cursor` to `end`, as identifier and size, if they fill it exactly. */
  function Subrecords(data: Bytes, cursor: nat, end: nat): (subs: Option<seq<(int, int)>>)
    requires cursor <= end <= |data|
    decreases end - cursor
  {
    if cursor == end then Some([])
    else if end - cursor < 4 || U16(data, cursor + 2) > end - cursor - 4 then None
    else
      var rest := Subrecords(data, cursor + 4 + U16(data, cursor + 2), end);
      if rest.None? then None else Some([(U16(data, cursor), U16(data, cursor + 2))] + rest.value)
  }

  /** A common-object subrecord of a wrong size, or after a sound one. */
  ghost predicate BadCmoAt(subs: seq<(int, int)>, seen: bool, i: nat)
    requires i < |subs|
  {
    subs[i].0 == 0x0015 && (subs[i].1 != 18 || seen || exists j | 0 <= j < i :: subs[j] == (0x0015, 18))
  }

  ghost predicate BadCmo(subs: seq<(int, int)>, seen: bool) {
    exists i | 0 <= i < |subs| :: BadCmoAt(subs, seen, i)
  }

  lemma BadCmoLater(sub: (int, int), rest: seq<(int, int)>, seen: bool, i: nat)
    requires i < |rest|
    ensures BadCmoAt([sub] + rest, seen, i + 1) <==> BadCmoAt(rest, seen || sub == (0x0015, 18), i)
  {
    var subs := [sub] + rest;
    if j :| 0 <= j < i && rest[j] == (0x0015, 18) {
      assert subs[j + 1] == (0x0015, 18);
    }
    if j :| 0 <= j < i + 1 && subs[j] == (0x0015, 18) {
      assert j > 0 ==> rest[j - 1] == (0x0015, 18);
    }
    assert sub == (0x0015, 18) ==> subs[0] == (0x0015, 18);
  }

  lemma BadCmoNext(sub: (int, int), rest: seq<(int, int)>, seen: bool)
    ensures BadCmo([sub] + rest, seen) <==>
            (sub.0 == 0x0015 && (sub.1 != 18 || seen)) || BadCmo(rest, seen || sub == (0x0015, 18))
  {
    var subs, seenNow := [sub] + rest, seen || sub == (0x0015, 18);
    assert BadCmoAt(subs, seen, 0) <==> sub.0 == 0x0015 && (sub.1 != 18 || seen);
    hide BadCmoAt;
    forall i: nat | i < |rest|
      ensures BadCmoAt(subs, seen, i + 1) <==> BadCmoAt(rest, seenNow, i)
    {
      BadCmoLater(sub, rest, seen, i);
    }
    if i: nat :| i < |subs| && BadCmoAt(subs, seen, i) {
      assert i > 0 ==> BadCmoAt(rest, seenNow, i - 1);
    }
    if i: nat :| i < |rest| && BadCmoAt(rest, seenNow, i) {
      assert BadCmoAt(subs, seen, i + 1);
    }
  }

  // An object is truncated exactly when its payload is not filled by subrecords; otherwise it is malformed exactly when
  // a common-object subrecord has a wrong size or comes a second time.
  lemma {:induction false} ObjectBlockersMean(data: Bytes, cursor: nat, end: nat, seen: bool)
    requires cursor <= end <= |data|
    ensures TruncatedObject in SubrecordBlockers(data, cursor, end, seen) <==> Subrecords(data, cursor, end).None?
    ensures Subrecords(data, cursor, end).Some? ==>
              (MalformedObject in SubrecordBlockers(data, cursor, end, seen) <==>
               BadCmo(Subrecords(data, cursor, end).value, seen))
    decreases end - cursor
  {
    hide U16;
    if cursor < end && end - cursor >= 4 && U16(data, cursor + 2) <= end - cursor - 4 {
      var sub := (U16(data, cursor), U16(data, cursor + 2));
      var next, seenNow := cursor + 4 + sub.1, seen || sub == (0x0015, 18);
      ObjectBlockersMean(data, next, end, seenNow);
      var rest := Subrecords(data, next, end);
      if rest.Some? {
        BadCmoNext(sub, rest.value, seen);
      }
      hide BadCmo;
    }
  }

  function ExternSheetBlockers(data: Bytes, r: Record): set<Blocker>
    requires End(r) <= |data|
  {
    {ExternSheetPresent} + When(r.size < 2 || r.size != 2 + 6 * U16(data, r.offset + 4), MalformedExternSheet)
  }

  function KindBlockers(data: Bytes, first: bool, isOpen: bool, r: Record): set<Blocker>
    requires End(r) <= |data|
  {
    if r.kind == BOF then BofBlockers(data, first, isOpen, r)
    else if r.kind == EOF then When(r.size != 0, MalformedEof)
    else if r.kind == BOUNDSHEET then BoundsheetBlockers(data, r)
    else if r.kind == FORMULA then FormulaBlockers(data, r)
    else if r.kind == OBJ then {ObjectPresent} + SubrecordBlockers(data, r.offset + 4, End(r), false)
    else if r.kind == SUPBOOK then {SupbookPresent}
    else if r.kind == EXTERNSHEET then ExternSheetBlockers(data, r)
    else if r.kind == FILEPASS then {FilepassPresent}
    else When(Special(r.kind), ActiveOrContext(r.kind))
  }

  function RecordBlockers(data: Bytes, first: bool, isOpen: bool, r: Record): set<Blocker>
    requires End(r) <= |data|
  {
    When(first && r.kind != BOF, MissingInitialBof) + When(!Passive(r.kind) && !Special(r.kind), UnclassifiedType)
    + When(!isOpen && r.kind != BOF, OutsideSubstream) + When(r.size > MAX_PAYLOAD, Oversize)
    + KindBlockers(data, first, isOpen, r)
  }

  // ----- The records scanned -----

  datatype Stop = AtEnd | RecordLimit | ShortHeader | ShortPayload | Encrypted

  datatype Scanned = Scanned(records: seq<Record>, stop: Stop)

  /** The records scanned from `cursor`, with room for `room` of them, and why the scan stops. */
  function Scan(data: Bytes, cursor: nat, room: int): (s: Scanned)
    requires cursor <= |data|
    decreases |data| - cursor
  {
    if cursor == |data| then Scanned([], AtEnd)
    else if room <= 0 then Scanned([], RecordLimit)
    else if !HasHeader(data, cursor) then Scanned([], ShortHeader)
    else
      var r := RecordAt(data, cursor);
      if End(r) > |data| then Scanned([], ShortPayload)
      else if r.kind == FILEPASS then Scanned([r], Encrypted)
      else
        var rest := Scan(data, End(r), room - 1);
        Scanned([r] + rest.records, rest.stop)
  }

  predicate Plain(records: seq<Record>) {
    forall i | 0 <= i < |records| :: records[i].kind != FILEPASS
  }

  /** The scan reaches the end exactly when the data frames, within the limit, and nothing is encrypted. */
  lemma {:induction false} ScanReachesEnd(data: Bytes, cursor: nat, room: int)
    requires cursor <= |data|
    ensures var s, f := Scan(data, cursor, room), Frames(data, cursor);
            && (s.stop == AtEnd ==> f == Some(s.records) && Plain(s.records) && |s.records| <= Max(room, 0))
            && (f.Some? && Plain(f.value) && |f.value| <= room ==> s == Scanned(f.value, AtEnd))
    decreases |data| - cursor
  {
    if cursor < |data| && HasHeader(data, cursor) && End(RecordAt(data, cursor)) <= |data| {
      var r := RecordAt(data, cursor);
      ScanReachesEnd(data, End(r), room - 1);
      var f := Frames(data, cursor);
      if f.Some? {
        assert f.value[0] == r && f.value[1..] == Frames(data, End(r)).value;
        assert forall i | 0 <= i < |f.value[1..]| :: f.value[1..][i] == f.value[i + 1];
      }
    }
  }

  /** The records scanned are adjacent and lie inside the data. */
  lemma {:induction false} ScanFits(data: Bytes, cursor: nat, room: int)
    requires cursor <= |data|
    ensures AllFit(data, Scan(data, cursor, room).records)
    decreases |data| - cursor
  {
    if cursor < |data| && HasHeader(data, cursor) && End(RecordAt(data, cursor)) <= |data| {
      ScanFits(data, End(RecordAt(data, cursor)), room - 1);
    }
  }

  /** A substream is open when its BOF is the last BOF or EOF record. */
  predicate OpenAfter(records: seq<Record>) {
    records != [] &&
    var last := records[|records| - 1];
    last.kind == BOF || (last.kind != EOF && OpenAfter(records[..|records| - 1]))
  }

  lemma OpenNext(records: seq<Record>, i: nat)
    requires i < |records|
    ensures OpenAfter(records[..i + 1]) == (records[i].kind == BOF
                                            || (records[i].kind != EOF && OpenAfter(records[..i])))
  {
    TakeTake(records, i, i + 1);
  }

  function BlockersAt(data: Bytes, records: seq<Record>, i: nat): set<Blocker>
    requires i < |records| && AllFit(data, records)
  {
    RecordBlockers(data, i == 0, OpenAfter(records[..i]), records[i])
  }

  function BlockersOf(data: Bytes, records: seq<Record>): set<Blocker>
    requires AllFit(data, records)
  {
    if records == [] then {}
    else BlockersOf(data, records[..|records| - 1]) + BlockersAt(data, records, |records| - 1)
  }

  lemma {:induction false} BlockerComesFromRecord(data: Bytes, records: seq<Record>, b: Blocker)
    requires AllFit(data, records)
    ensures b in BlockersOf(data, records) <==> exists i | 0 <= i < |records| :: b in BlockersAt(data, records, i)
  {
    hide RecordBlockers, OpenAfter;
    if records != [] {
      var init := records[..|records| - 1];
      BlockerComesFromRecord(data, init, b);
      forall i | 0 <= i < |init| ensures BlockersAt(data, init, i) == BlockersAt(data, records, i) {
        assert init[..i] == records[..i];
      }
    }
  }

  function AddType(types: map<int, TypeRow>, r: Record): map<int, TypeRow> {
    if r.kind in types then types[r.kind := types[r.kind].(count := types[r.kind].count + 1, last := r.offset)]
    else types[r.kind := TypeRow(1, r.offset, r.offset)]
  }

  function Types(records: seq<Record>): map<int, TypeRow> {
    if records == [] then map[] else AddType(Types(records[..|records| - 1]), records[|records| - 1])
  }

  function CountOf(types: map<int, TypeRow>, kind: int): nat {
    if kind in types then types[kind].count else 0
  }

  /** The type table counts every record of a kind, and names the first and the last of them. */
  lemma {:induction false} TypesCount(records: seq<Record>, kind: int)
    ensures CountOf(Types(records), kind) == CountIf(records, (r: Record) => r.kind == kind)
    ensures kind in Types(records) <==> exists i | 0 <= i < |records| :: records[i].kind == kind
    ensures kind in Types(records) ==>
              exists i, j :: 0 <= i <= j < |records| && OuterMost(records, kind, i, j)
                && Types(records)[kind].first == records[i].offset && Types(records)[kind].last == records[j].offset
  {
    if records != [] {
      var init, n := records[..|records| - 1], |records| - 1;
      TypesCount(init, kind);
      assert forall i | 0 <= i < n :: init[i] == records[i];
      if kind in Types(init) {
        var i, j :| 0 <= i <= j < n && OuterMost(init, kind, i, j)
                    && Types(init)[kind].first == init[i].offset && Types(init)[kind].last == init[j].offset;
        assert OuterMost(records, kind, i, if records[n].kind == kind then n else j);
      } else if records[n].kind == kind {
        assert forall k | 0 <= k < n :: init[k].kind != kind;
        assert OuterMost(records, kind, n, n);
      }
    }
  }

  /** `i` and `j` are the first and last records of the kind. */
  predicate OuterMost(records: seq<Record>, kind: int, i: int, j: int) {
    && 0 <= i <= j < |records| && records[i].kind == kind && records[j].kind == kind
    && forall k | 0 <= k < |records| && records[k].kind == kind :: i <= k <= j
  }

  function AddBof(data: Bytes, bofs: map<int, Label>, r: Record): map<int, Label>
    requires End(r) <= |data|
  {
    if r.kind == BOF && r.size >= 4 then bofs[r.offset := BofLabel(U16(data, r.offset + 6))] else bofs
  }

  /** The labels of the BOF records that are long enough to have one, by offset. */
  function Bofs(data: Bytes, records: seq<Record>): map<int, Label>
    requires AllFit(data, records)
  {
    if records == [] then map[] else AddBof(data, Bofs(data, records[..|records| - 1]), records[|records| - 1])
  }

  function AddBound(data: Bytes, bounds: seq<(Label, int)>, r: Record): seq<(Label, int)>
    requires End(r) <= |data|
  {
    if r.kind == BOUNDSHEET && r.size >= 8 then bounds + [(SheetLabel(U8(data, r.offset + 9)), U32(data, r.offset + 4))]
    else bounds
  }

  /** What the BOUNDSHEET records say: a sheet type and the offset of its BOF. */
  function Bounds(data: Bytes, records: seq<Record>): seq<(Label, int)>
    requires AllFit(data, records)
  {
    if records == [] then [] else AddBound(data, Bounds(data, records[..|records| - 1]), records[|records| - 1])
  }

  function StopBlockers(stop: Stop): set<Blocker> {
    match stop
    case RecordLimit => {RecordLimitExceeded}
    case ShortHeader => {TruncatedHeader}
    case ShortPayload => {TruncatedPayload}
    case _ => {}
  }

  predicate Mismatched(bofs: map<int, Label>, bounds: seq<(Label, int)>) {
    exists b | b in bounds :: b.1 !in bofs || bofs[b.1] != b.0
  }

  predicate Stray(bofs: map<int, Label>, bounds: seq<(Label, int)>) {
    exists p | p in bofs :: bofs[p] != Globals && Targetless(bounds, p)
  }

  predicate Targetless(bounds: seq<(Label, int)>, p: int) {
    forall b | b in bounds :: b.1 != p
  }

  /** What is known only after the last record: the sheet directory must agree with the substreams found. */
  function EndBlockers(records: nat, isOpen: bool, bofs: map<int, Label>, bounds: seq<(Label, int)>): set<Blocker> {
    When(records == 0, NoRecords) + When(isOpen, MissingEof)
    + When(Mismatched(bofs, bounds), TargetMismatch) + When(Stray(bofs, bounds), UnlistedSubstream)
  }

  function FramedBytes(records: seq<Record>): nat {
    if records == [] then 0 else End(records[|records| - 1])
  }

  function ReportOf(data: Bytes, limits: Limits): Report {
    var s := if |data| > limits.maxStream then Scanned([], AtEnd) else Scan(data, 0, limits.maxRecords);
    ScanFits(data, 0, limits.maxRecords);
    var framed := FramedBytes(s.records);
    Report(
      When(|data| > limits.maxStream, StreamLimit) + BlockersOf(data, s.records) + StopBlockers(s.stop)
      + EndBlockers(|s.records|, OpenAfter(s.records), Bofs(data, s.records), Bounds(data, s.records)),
      framed == |data| && s.records != [] && s.stop != Encrypted,
      |s.records|, framed, |data|,
      if s.stop == ShortPayload && HasHeader(data, framed) then Some(RecordAt(data, framed)) else None,
      s.stop == Encrypted, Types(s.records))
  }

  // ----- The sheet directory, on the bytes -----

  /** The records that the scan reports on. */
  function RecordsScanned(data: Bytes, limits: Limits): (records: seq<Record>)
    ensures AllFit(data, records)
  {
    ScanFits(data, 0, limits.maxRecords);
    if |data| > limits.maxStream then [] else Scan(data, 0, limits.maxRecords).records
  }

  /** A BOUNDSHEET that is long enough to name a type and an offset. */
  predicate IsEntry(r: Record) { r.kind == BOUNDSHEET && r.size >= 8 }

  /** A BOF that is long enough to name its substream. */
  predicate IsSubstream(r: Record) { r.kind == BOF && r.size >= 4 }

  /** The entry holds the offset of the substream. */
  predicate PointsAt(data: Bytes, entry: Record, r: Record)
    requires End(entry) <= |data| && End(r) <= |data| && IsEntry(entry)
  {
    IsSubstream(r) && U32(data, entry.offset + 4) == r.offset
  }

  // Worksheet, macro sheet, chart and module: the type that an entry gives and the substream of the BOF it points at.
  // A type and a substream that are both outside the known ones also agree.
  predicate Agree(sheet: int, substream: int) {
    || (sheet, substream) in {(0, 16), (1, 64), (2, 32), (6, 6)}
    || (sheet !in {0, 1, 2, 6} && substream !in {5, 6, 16, 32, 64})
  }

  /** Entry `i` points at no substream of its type. */
  ghost predicate EntryFails(data: Bytes, records: seq<Record>, i: nat)
    requires AllFit(data, records) && i < |records| && IsEntry(records[i])
  {
    forall j | 0 <= j < |records| && PointsAt(data, records[i], records[j]) ::
      !Agree(U8(data, records[i].offset + 9), U16(data, records[j].offset + 6))
  }

  ghost predicate Misdirected(data: Bytes, records: seq<Record>)
    requires AllFit(data, records)
  {
    exists i | 0 <= i < |records| && IsEntry(records[i]) :: EntryFails(data, records, i)
  }

  /** No entry points at record `j`. */
  ghost predicate EntriesMiss(data: Bytes, records: seq<Record>, j: nat)
    requires AllFit(data, records) && j < |records|
  {
    forall i | 0 <= i < |records| && IsEntry(records[i]) :: !PointsAt(data, records[i], records[j])
  }

  /** Some substream other than the globals is not pointed at. */
  ghost predicate Unlisted(data: Bytes, records: seq<Record>)
    requires AllFit(data, records)
  {
    exists j | 0 <= j < |records| && IsSubstream(records[j]) ::
      U16(data, records[j].offset + 6) != 5 && EntriesMiss(data, records, j)
  }

  predicate OffsetsDiffer(records: seq<Record>) {
    forall i, j | 0 <= i < j < |records| :: records[i].offset != records[j].offset
  }

  lemma {:induction false} ScanOffsets(data: Bytes, cursor: nat, room: int)
    requires cursor <= |data|
    ensures var records := Scan(data, cursor, room).records;
            OffsetsDiffer(records) && forall i | 0 <= i < |records| :: records[i].offset >= cursor
    decreases |data| - cursor
  {
    if cursor < |data| && HasHeader(data, cursor) && End(RecordAt(data, cursor)) <= |data| {
      ScanOffsets(data, End(RecordAt(data, cursor)), room - 1);
    }
  }

  lemma LabelsAgree(sheet: int, substream: int)
    ensures SheetLabel(sheet) == BofLabel(substream) <==> Agree(sheet, substream)
    ensures BofLabel(substream) == Globals <==> substream == 5
  {
  }

  /** The table of substreams, entry by entry. */
  lemma {:induction false} BofsHold(data: Bytes, records: seq<Record>)
    requires AllFit(data, records) && OffsetsDiffer(records)
    ensures forall p :: p in Bofs(data, records) <==>
                        exists j | 0 <= j < |records| && IsSubstream(records[j]) :: records[j].offset == p
    ensures forall j | 0 <= j < |records| && IsSubstream(records[j]) ::
              && records[j].offset in Bofs(data, records)
              && Bofs(data, records)[records[j].offset] == BofLabel(U16(data, records[j].offset + 6))
  {
    if records != [] {
      BofsHold(data, records[..|records| - 1]);
      hide U16, BofLabel;
    }
  }

  /** The directory, entry by entry. */
  lemma {:induction false} BoundsHold(data: Bytes, records: seq<Record>)
    requires AllFit(data, records)
    ensures forall b :: b in Bounds(data, records) <==>
                        exists i | 0 <= i < |records| && IsEntry(records[i]) :: b == BoundOf(data, records[i])
  {
    if records != [] {
      BoundsHold(data, records[..|records| - 1]);
      hide U8, U32, SheetLabel;
    }
  }

  function BoundOf(data: Bytes, entry: Record): (Label, int)
    requires End(entry) <= |data| && IsEntry(entry)
  {
    (SheetLabel(U8(data, entry.offset + 9)), U32(data, entry.offset + 4))
  }

  lemma MismatchIsMisdirected(data: Bytes, records: seq<Record>)
    requires AllFit(data, records) && OffsetsDiffer(records)
    ensures Mismatched(Bofs(data, records), Bounds(data, records)) <==> Misdirected(data, records)
  {
    var bofs, bounds := Bofs(data, records), Bounds(data, records);
    BofsHold(data, records);
    BoundsHold(data, records);
    hide Bofs, Bounds, U8, U16, U32, BofLabel, SheetLabel, Agree;
    forall i | 0 <= i < |records| && IsEntry(records[i])
      ensures BoundOf(data, records[i]) in bounds
      ensures EntryFails(data, records, i) <==>
              var b := BoundOf(data, records[i]); b.1 !in bofs || bofs[b.1] != b.0
    {
      forall j | 0 <= j < |records| && PointsAt(data, records[i], records[j])
        ensures bofs[records[j].offset] == BoundOf(data, records[i]).0 <==>
                Agree(U8(data, records[i].offset + 9), U16(data, records[j].offset + 6))
      {
        LabelsAgree(U8(data, records[i].offset + 9), U16(data, records[j].offset + 6));
      }
    }
  }

  lemma MissedIsTargetless(data: Bytes, records: seq<Record>, j: nat)
    requires AllFit(data, records) && j < |records| && IsSubstream(records[j])
    ensures Targetless(Bounds(data, records), records[j].offset) <==> EntriesMiss(data, records, j)
  {
    BoundsHold(data, records);
    hide Bounds, U8, U32, SheetLabel;
    if !EntriesMiss(data, records, j) {
      var i :| 0 <= i < |records| && IsEntry(records[i]) && PointsAt(data, records[i], records[j]);
      assert BoundOf(data, records[i]) in Bounds(data, records);
    }
  }

  lemma StrayIsUnlisted(data: Bytes, records: seq<Record>)
    requires AllFit(data, records) && OffsetsDiffer(records)
    ensures Stray(Bofs(data, records), Bounds(data, records)) <==> Unlisted(data, records)
  {
    var bofs, bounds := Bofs(data, records), Bounds(data, records);
    BofsHold(data, records);
    hide Bofs, Bounds, U8, U16, U32, BofLabel, Targetless, EntriesMiss, OffsetsDiffer;
    forall j | 0 <= j < |records| && IsSubstream(records[j])
      ensures bofs[records[j].offset] == Globals <==> U16(data, records[j].offset + 6) == 5
      ensures Targetless(bounds, records[j].offset) <==> EntriesMiss(data, records, j)
    {
      LabelsAgree(0, U16(data, records[j].offset + 6));
      MissedIsTargetless(data, records, j);
    }
    if Stray(bofs, bounds) {
      var p :| p in bofs && bofs[p] != Globals && Targetless(bounds, p);
      var j :| 0 <= j < |records| && IsSubstream(records[j]) && records[j].offset == p;
    }
  }

  /** The blockers that no record raises by itself. */
  predicate OfTheStream(b: Blocker) {
    b in {StreamLimit, RecordLimitExceeded, TruncatedHeader, TruncatedPayload, NoRecords, MissingEof, TargetMismatch,
          UnlistedSubstream}
  }

  lemma KindRaisesItsOwn(data: Bytes, first: bool, isOpen: bool, r: Record)
    requires End(r) <= |data|
    ensures forall b <- KindBlockers(data, first, isOpen, r) :: !OfTheStream(b)
  {
    hide U16, U8, Passive, Special, SubrecordBlockers;
  }

  lemma RecordsRaiseTheirOwn(data: Bytes, records: seq<Record>, b: Blocker)
    requires AllFit(data, records) && OfTheStream(b)
    ensures b !in BlockersOf(data, records)
  {
    hide BlockersOf, BlockersAt;
    if b in BlockersOf(data, records) {
      BlockerComesFromRecord(data, records, b);
      var i :| 0 <= i < |records| && b in BlockersAt(data, records, i);
      RecordRaisesItsOwn(data, records, i, b);
    }
  }

  lemma RecordRaisesItsOwn(data: Bytes, records: seq<Record>, i: nat, b: Blocker)
    requires AllFit(data, records) && i < |records| && OfTheStream(b)
    ensures b !in BlockersAt(data, records, i)
  {
    hide KindBlockers, Passive, Special, OpenAfter;
    KindRaisesItsOwn(data, i == 0, OpenAfter(records[..i]), records[i]);
  }

  // The two blockers of the sheet directory, on the bytes: some BOUNDSHEET points at no substream of its type, and some
  // substream other than the globals is not pointed at.
  lemma SheetDirectory(data: Bytes, limits: Limits)
    ensures TargetMismatch in ReportOf(data, limits).blockers <==> Misdirected(data, RecordsScanned(data, limits))
    ensures UnlistedSubstream in ReportOf(data, limits).blockers <==> Unlisted(data, RecordsScanned(data, limits))
  {
    var records := RecordsScanned(data, limits);
    ScanOffsets(data, 0, limits.maxRecords);
    MismatchIsMisdirected(data, records);
    StrayIsUnlisted(data, records);
    RecordsRaiseTheirOwn(data, records, TargetMismatch);
    RecordsRaiseTheirOwn(data, records, UnlistedSubstream);
    hide Misdirected, Unlisted, BlockersOf, Bofs, Bounds, OpenAfter, Scan, Types, Mismatched, Stray, OffsetsDiffer,
      StopBlockers;
  }

  /** Where a scan stops: before a record that it does not take, at the end, or after an encrypted record. */
  lemma {:induction false} ScanStopsWhere(data: Bytes, cursor: nat, room: int)
    requires cursor <= |data|
    ensures var s := Scan(data, cursor, room);
            var end := if s.records == [] then cursor else End(s.records[|s.records| - 1]);
            && end <= |data|
            && (s.stop == Encrypted <==> s.records != [] && s.records[|s.records| - 1].kind == FILEPASS)
            && (s.stop != Encrypted ==> StopsHere(data, end, room - |s.records|, s.stop))
    decreases |data| - cursor
  {
    if cursor < |data| && room > 0 && HasHeader(data, cursor) && End(RecordAt(data, cursor)) <= |data| {
      var r := RecordAt(data, cursor);
      ScanStopsWhere(data, End(r), room - 1);
      var s, rest := Scan(data, cursor, room), Scan(data, End(r), room - 1);
      if r.kind != FILEPASS && rest.records != [] {
        assert s.records[|s.records| - 1] == rest.records[|rest.records| - 1];
      }
    }
  }

  lemma StopBlockersReported(data: Bytes, limits: Limits, b: Blocker)
    requires |data| <= limits.maxStream && b in {RecordLimitExceeded, TruncatedHeader, TruncatedPayload}
    ensures b in ReportOf(data, limits).blockers <==> b in StopBlockers(Scan(data, 0, limits.maxRecords).stop)
  {
    var s := Scan(data, 0, limits.maxRecords);
    ScanFits(data, 0, limits.maxRecords);
    RecordsRaiseTheirOwn(data, s.records, b);
    hide StopBlockers, BlockersOf, Bofs, Bounds, OpenAfter, Scan, Types, Mismatched, Stray;
  }

  lemma ReportFields(data: Bytes, limits: Limits)
    requires |data| <= limits.maxStream
    ensures var s, report := Scan(data, 0, limits.maxRecords), ReportOf(data, limits);
            && report.framed == (if s.records == [] then 0 else End(s.records[|s.records| - 1]))
            && report.records == |s.records| && report.encrypted == (s.stop == Encrypted)
  {
    hide StopBlockers, BlockersOf, EndBlockers, Bofs, Bounds, OpenAfter, Scan, Types;
  }

  // Why a scan within the stream limit stops, on the bytes that it leaves: one record too many, a header that is cut
  // off, or a payload that is cut off.
  lemma StopsMean(data: Bytes, limits: Limits)
    requires |data| <= limits.maxStream
    ensures var report := ReportOf(data, limits);
            var left := |data| - report.framed;
            && left >= 0
            && (RecordLimitExceeded in report.blockers <==>
                left > 0 && !report.encrypted && report.records >= limits.maxRecords)
            && (TruncatedHeader in report.blockers <==>
                0 < left < 4 && !report.encrypted && report.records < limits.maxRecords)
            && (TruncatedPayload in report.blockers <==>
                && left >= 4 && !report.encrypted && report.records < limits.maxRecords
                && U16(data, report.framed + 2) > left - 4)
  {
    ScanStopsWhere(data, 0, limits.maxRecords);
    ReportFields(data, limits);
    StopBlockersReported(data, limits, RecordLimitExceeded);
    StopBlockersReported(data, limits, TruncatedHeader);
    StopBlockersReported(data, limits, TruncatedPayload);
    hide ReportOf, Scan, U16;
  }

  // ----- The scan itself -----

  /** The blockers of a BOF record, raised one by one. */
  method ScanBof(data: Bytes, first: bool, isOpen: bool, r: Record) returns (found: set<Blocker>)
    requires End(r) <= |data|
    ensures found == BofBlockers(data, first, isOpen, r)
  {
    found := {};
    hide U16;
    if isOpen { found := found + {NestedBof}; }
    if r.size != 16 { found := found + {MalformedBof}; }
    if r.size >= 4 {
      var version, substream := U16(data, r.offset + 4), U16(data, r.offset + 6);
      if version != 0x0600 { found := found + {UnsupportedVersion}; }
      if BofLabel(substream) == UnknownLabel { found := found + {UnclassifiedBof}; }
      if substream in {6, 64} { found := found + {MacroSubstream}; }
      if first && substream != 5 { found := found + {MissingGlobals}; }
    }
  }

  /** `_boundsheet`. */
  method ScanBoundsheet(data: Bytes, r: Record) returns (found: set<Blocker>)
    requires End(r) <= |data|
    ensures found == BoundsheetBlockers(data, r)
  {
    if r.size < 8 { return {TruncatedBoundsheet}; }
    var body := r.offset + 4;
    var visibility, sheet := U8(data, body + 4), U8(data, body + 5);
    var chars, options := U8(data, body + 6), U8(data, body + 7);
    found := {};
    if visibility > 2 || options > 1 || r.size != 8 + chars * (if options % 2 == 1 then 2 else 1) || chars == 0 {
      found := found + {MalformedBoundsheet};
    }
    if SheetLabel(sheet) == UnknownLabel { found := found + {UnclassifiedSheet}; }
    if sheet in {1, 6} { found := found + {MacroSheet}; }
  }

  /** `_formula_cache`. */
  method ScanFormula(data: Bytes, r: Record) returns (found: set<Blocker>)
    requires End(r) <= |data|
    ensures found == FormulaBlockers(data, r)
  {
    found := {FormulaPresent};
    var body := r.offset + 4;
    if r.size < 22 || U16(data, body + 20) > r.size - 22 { return found + {TruncatedFormula}; }
    if U8(data, body + 12) == 0xFF && U8(data, body + 13) == 0xFF {
      if U8(data, body + 6) !in {0, 1, 2, 3} { found := found + {UnclassifiedFormulaCache}; }
    } else if U8(data, body + 13) % 128 == 127 && U8(data, body + 12) / 16 == 15 {
      found := found + {NonfiniteFormulaCache};
    }
  }

  /** `_object_type`: walk the subrecords until one does not fit. */
  method ScanObject(data: Bytes, r: Record) returns (found: set<Blocker>)
    requires End(r) <= |data|
    ensures found == {ObjectPresent} + SubrecordBlockers(data, r.offset + 4, End(r), false)
  {
    found := {ObjectPresent};
    var cursor, seen := r.offset + 4, false;
    hide U16;
    while cursor < End(r)
      invariant cursor <= End(r)
      invariant {ObjectPresent} + SubrecordBlockers(data, r.offset + 4, End(r), false) ==
                found + SubrecordBlockers(data, cursor, End(r), seen)
    {
      if End(r) - cursor < 4 || U16(data, cursor + 2) > End(r) - cursor - 4 { return found + {TruncatedObject}; }
      var sub, size := U16(data, cursor), U16(data, cursor + 2);
      cursor := cursor + 4;
      if sub == FT_CMO {
        if size != 18 || seen { found := found + {MalformedObject}; }
        seen := seen || size == 18;
      }
      cursor := cursor + size;
    }
  }

  /** The blockers of one framed record, and whether a substream is open behind it. */
  method ScanRecord(data: Bytes, first: bool, isOpen: bool, r: Record) returns (found: set<Blocker>, nowOpen: bool)
    requires End(r) <= |data|
    ensures found == RecordBlockers(data, first, isOpen, r)
    ensures nowOpen == (r.kind == BOF || (r.kind != EOF && isOpen))
  {
    found, nowOpen := {}, isOpen;
    hide BofBlockers, BoundsheetBlockers, FormulaBlockers, SubrecordBlockers, U16;
    if first && r.kind != BOF { found := found + {MissingInitialBof}; }
    if !Passive(r.kind) && !Special(r.kind) { found := found + {UnclassifiedType}; }
    if !isOpen && r.kind != BOF { found := found + {OutsideSubstream}; }
    if r.size > MAX_PAYLOAD { found := found + {Oversize}; }
    if r.kind == BOF {
      var more := ScanBof(data, first, isOpen, r);
      found, nowOpen := found + more, true;
    } else if r.kind == EOF {
      if r.size != 0 { found := found + {MalformedEof}; }
      nowOpen := false;
    } else if r.kind == BOUNDSHEET {
      var more := ScanBoundsheet(data, r);
      found := found + more;
    } else if r.kind == FORMULA {
      var more := ScanFormula(data, r);
      found := found + more;
    } else if r.kind == OBJ {
      var more := ScanObject(data, r);
      found := found + more;
    } else if r.kind == SUPBOOK {
      found := found + {SupbookPresent};
    } else if r.kind == EXTERNSHEET {
      found := found + {ExternSheetPresent};
      if r.size < 2 || r.size != 2 + 6 * U16(data, r.offset + 4) { found := found + {MalformedExternSheet}; }
    } else if r.kind == FILEPASS {
      found := found + {FilepassPresent};
    } else if Special(r.kind) {
      found := found + {ActiveOrContext(r.kind)};
    }
  }

  /** Records already scanned, put before what the scan still finds. */
  function Before(done: seq<Record>, rest: Scanned): Scanned {
    Scanned(done + rest.records, rest.stop)
  }

  lemma BeforeAgain(done: seq<Record>, next: seq<Record>, rest: Scanned)
    ensures Before(done, Before(next, rest)) == Before(done + next, rest)
  {
    assert done + (next + rest.records) == (done + next) + rest.records;
  }

  predicate ScanGoesOn(data: Bytes, limits: Limits, done: seq<Record>, cursor: nat) {
    && cursor <= |data|
    && Scan(data, 0, limits.maxRecords) == Before(done, Scan(data, cursor, limits.maxRecords - |done|))
  }

  lemma ScanStarts(data: Bytes, limits: Limits)
    ensures ScanGoesOn(data, limits, [], 0)
  {
    assert [] + Scan(data, 0, limits.maxRecords).records == Scan(data, 0, limits.maxRecords).records;
  }

  /** One more record, when the scan does not stop before it. */
  lemma ScanNext(data: Bytes, limits: Limits, done: seq<Record>, cursor: nat)
    requires ScanGoesOn(data, limits, done, cursor) && cursor < |data| && |done| < limits.maxRecords
    requires HasHeader(data, cursor) && End(RecordAt(data, cursor)) <= |data|
    ensures var r := RecordAt(data, cursor);
            if r.kind == FILEPASS then Scan(data, 0, limits.maxRecords) == Scanned(done + [r], Encrypted)
            else ScanGoesOn(data, limits, done + [r], End(r))
  {
    var r := RecordAt(data, cursor);
    var here := Scan(data, cursor, limits.maxRecords - |done|);
    var rest := if r.kind == FILEPASS then Scanned([], Encrypted)
      else Scan(data, End(r), limits.maxRecords - |done| - 1);
    assert here == Before([r], rest) by { assert [r] + [] == [r]; }
    hide Scan;
    BeforeAgain(done, [r], rest);
    assert (done + [r]) + [] == done + [r];
  }

  /** Why the scan stops at `cursor` without one more record, if it does. */
  predicate StopsHere(data: Bytes, cursor: nat, room: int, stop: Stop) {
    match stop
    case AtEnd => cursor == |data|
    case RecordLimit => cursor < |data| && room <= 0
    case ShortHeader => cursor < |data| && room > 0 && !HasHeader(data, cursor)
    case ShortPayload => cursor < |data| && room > 0 && HasHeader(data, cursor) && End(RecordAt(data, cursor)) > |data|
    case Encrypted => false
  }

  lemma ScanStops(data: Bytes, limits: Limits, done: seq<Record>, cursor: nat, stop: Stop)
    requires ScanGoesOn(data, limits, done, cursor) && StopsHere(data, cursor, limits.maxRecords - |done|, stop)
    ensures Scan(data, 0, limits.maxRecords) == Scanned(done, stop)
  {
    assert done + [] == done;
  }

  lemma ScanEnds(data: Bytes, limits: Limits, done: seq<Record>)
    requires ScanGoesOn(data, limits, done, |data|)
    ensures Scan(data, 0, limits.maxRecords) == Scanned(done, AtEnd)
  {
    ScanStops(data, limits, done, |data|, AtEnd);
  }

  lemma BlockersNext(data: Bytes, done: seq<Record>, r: Record)
    requires AllFit(data, done) && End(r) <= |data|
    ensures AllFit(data, done + [r])
    ensures BlockersOf(data, done + [r]) == BlockersOf(data, done) +
            RecordBlockers(data, done == [], OpenAfter(done), r)
    ensures OpenAfter(done + [r]) == (r.kind == BOF || (r.kind != EOF && OpenAfter(done)))
  {
    hide RecordBlockers;
    assert (done + [r])[..|done|] == done;
  }

  lemma TablesNext(data: Bytes, done: seq<Record>, r: Record)
    requires AllFit(data, done) && End(r) <= |data|
    ensures AllFit(data, done + [r]) && Types(done + [r]) == AddType(Types(done), r)
    ensures Bofs(data, done + [r]) == AddBof(data, Bofs(data, done), r)
    ensures Bounds(data, done + [r]) == AddBound(data, Bounds(data, done), r)
  {
    hide AddType, AddBof, AddBound;
    assert (done + [r])[..|done|] == done;
  }

  /** What the scan has gathered from the records behind it. */
  datatype Gathered = Gathered(
    blockers: set<Blocker>, isOpen: bool, types: map<int, TypeRow>, bofs: map<int, Label>, bounds: seq<(Label, int)>)

  function GatheredFrom(data: Bytes, records: seq<Record>): Gathered
    requires AllFit(data, records)
  {
    Gathered(BlockersOf(data, records), OpenAfter(records), Types(records), Bofs(data, records), Bounds(data, records))
  }

  /** One record added to what has been gathered. */
  method Gather(data: Bytes, ghost done: seq<Record>, g: Gathered, first: bool, r: Record) returns (next: Gathered)
    requires AllFit(data, done) && End(r) <= |data| && g == GatheredFrom(data, done) && first == (done == [])
    ensures AllFit(data, done + [r]) && next == GatheredFrom(data, done + [r])
  {
    BlockersNext(data, done, r);
    TablesNext(data, done, r);
    hide RecordBlockers, AddType, AddBof, AddBound, BlockersOf, OpenAfter, Types, Bofs, Bounds;
    var found, nowOpen := ScanRecord(data, first, g.isOpen, r);
    next := Gathered(g.blockers + found, nowOpen, AddType(g.types, r), AddBof(data, g.bofs, r),
                     AddBound(data, g.bounds, r));
  }

  /** What keeps the scan from taking a record at `cursor`, if anything. */
  method Obstacle(data: Bytes, cursor: nat, room: int) returns (stop: Stop)
    requires cursor < |data|
    ensures stop != AtEnd ==> StopsHere(data, cursor, room, stop)
    ensures stop == AtEnd ==> room > 0 && HasHeader(data, cursor) && End(RecordAt(data, cursor)) <= |data|
  {
    if room <= 0 {
      stop := RecordLimit;
    } else if |data| - cursor < 4 {
      stop := ShortHeader;
    } else if U16(data, cursor + 2) > |data| - cursor - 4 {
      stop := ShortPayload;
    } else {
      stop := AtEnd;
    }
  }

  /** `scan_biff8_records`: stop at a limit, a framing error or an encrypted remainder. */
  method ScanBiff8Records(data: Bytes, limits: Limits) returns (report: Report)
    ensures report == ReportOf(data, limits)
    ensures TargetMismatch in report.blockers <==> Misdirected(data, RecordsScanned(data, limits))
    ensures UnlistedSubstream in report.blockers <==> Unlisted(data, RecordsScanned(data, limits))
  {
    SheetDirectory(data, limits);
    hide ReportOf, Misdirected, Unlisted, RecordsScanned;
    var g := Gathered({}, false, map[], map[], []);
    var cursor, count, stop := 0, 0, AtEnd;
    ghost var done: seq<Record> := [];
    if |data| > limits.maxStream {
      g := g.(blockers := {StreamLimit});
    } else {
      ScanStarts(data, limits);
      assert g == GatheredFrom(data, []);
      hide Scan, GatheredFrom, U16, ScanGoesOn, StopsHere;
      while cursor < |data| && stop == AtEnd
        invariant cursor <= |data| && count == |done| && cursor == FramedBytes(done)
        invariant if stop == AtEnd then ScanGoesOn(data, limits, done, cursor)
                  else Scan(data, 0, limits.maxRecords) == Scanned(done, stop)
        invariant AllFit(data, done) && g == GatheredFrom(data, done)
        decreases |data| - cursor, if stop == AtEnd then 1 else 0
      {
        stop := Obstacle(data, cursor, limits.maxRecords - count);
        if stop != AtEnd {
          ScanStops(data, limits, done, cursor, stop);
        } else {
          var r := RecordAt(data, cursor);
          ScanNext(data, limits, done, cursor);
          g := Gather(data, done, g, count == 0, r);
          done := done + [r];
          cursor, count := End(r), count + 1;
          if r.kind == FILEPASS { stop := Encrypted; }
        }
      }
      if stop == AtEnd { ScanEnds(data, limits, done); }
    }
    report := Finish(data, limits, Scanned(done, stop), g, count, cursor, stop);
  }

  /** The report, once the scan has stopped. */
  method Finish(data: Bytes, limits: Limits, ghost s: Scanned, g: Gathered, count: nat, cursor: nat, stop: Stop)
    returns (report: Report)
    requires s == if |data| > limits.maxStream then Scanned([], AtEnd) else Scan(data, 0, limits.maxRecords)
    requires AllFit(data, s.records) && count == |s.records| && cursor == FramedBytes(s.records) && stop == s.stop
    requires g == GatheredFrom(data, s.records).(
               blockers := When(|data| > limits.maxStream, StreamLimit) + BlockersOf(data, s.records))
    ensures report == ReportOf(data, limits)
  {
    var blockers := g.blockers + StopBlockers(stop) + EndBlockers(count, g.isOpen, g.bofs, g.bounds);
    var truncated := if stop == ShortPayload && HasHeader(data, cursor) then Some(RecordAt(data, cursor)) else None;
    report := Report(blockers, cursor == |data| && count > 0 && stop != Encrypted, count, cursor, |data|, truncated,
      stop == Encrypted, g.types);
  }
}
