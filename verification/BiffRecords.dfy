/** BIFF8 record framing ([MS-XLS] section 2.1.4), and the strict guard on the framed records. */
module BiffRecords {
  // A record is a two-byte kind, a two-byte size and a payload. The guard is stated on each record and
  // its predecessor.
  import opened Basics

  type Bytes = seq<byte>

  datatype Record = Record(offset: nat, kind: int, size: nat)

  const BOF := 0x0809
  const EOF := 0x000A
  const CONTINUE := 0x003C
  const PLS := 0x004D
  const SETUP := 0x00A1
  const FILEPASS := 0x002F
  const BOUNDSHEET := 0x0085

  const MAX_PAYLOAD := 8224
  const MAX_STREAM := 256 * 1024 * 1024

  function U8(data: Bytes, i: nat): int
    requires i < |data|
  {
    data[i] as int
  }

  /** Little-endian, as `<H`. */
  function U16(data: Bytes, i: nat): (v: int)
    requires i + 2 <= |data|
    ensures 0 <= v < 0x1_0000
  {
    data[i] as int + 0x100 * data[i + 1] as int
  }

  function U32(data: Bytes, i: nat): int
    requires i + 4 <= |data|
  {
    U16(data, i) + 0x1_0000 * U16(data, i + 2)
  }

  predicate HasHeader(data: Bytes, cursor: nat) {
    cursor + 4 <= |data|
  }

  function RecordAt(data: Bytes, cursor: nat): Record
    requires HasHeader(data, cursor)
  {
    Record(cursor, U16(data, cursor), U16(data, cursor + 2))
  }

  function End(r: Record): nat {
    r.offset + 4 + r.size
  }

  /** The records from `cursor` to the end of the data, if they fill it exactly. */
  function Frames(data: Bytes, cursor: nat): (f: Option<seq<Record>>)
    requires cursor <= |data|
    decreases |data| - cursor
  {
    if cursor == |data| then Some([])
    else if !HasHeader(data, cursor) || End(RecordAt(data, cursor)) > |data| then None
    else
      var rest := Frames(data, End(RecordAt(data, cursor)));
      if rest.None? then None else Some([RecordAt(data, cursor)] + rest.value)
  }

  /** Records already framed, put before what follows. */
  function Prepend(done: seq<Record>, rest: Option<seq<Record>>): Option<seq<Record>> {
    if rest.None? then None else Some(done + rest.value)
  }

  /** One more record framed. */
  lemma FrameNext(data: Bytes, done: seq<Record>, cursor: nat)
    requires cursor < |data| && HasHeader(data, cursor) && End(RecordAt(data, cursor)) <= |data|
    ensures Prepend(done, Frames(data, cursor)) ==
            Prepend(done + [RecordAt(data, cursor)], Frames(data, End(RecordAt(data, cursor))))
  {
    var r := RecordAt(data, cursor);
    var rest := Frames(data, End(r));
    if rest.Some? {
      assert done + ([r] + rest.value) == (done + [r]) + rest.value;
    }
  }

  /** Every framed record lies inside the data, and the records are adjacent. */
  lemma {:induction false} FramesFit(data: Bytes, cursor: nat, i: nat)
    requires cursor <= |data| && Frames(data, cursor).Some? && i < |Frames(data, cursor).value|
    ensures var f := Frames(data, cursor).value;
            && cursor <= f[i].offset && End(f[i]) <= |data|
            && HasHeader(data, f[i].offset) && f[i] == RecordAt(data, f[i].offset)
            && f[i].offset == (if i == 0 then cursor else End(f[i - 1]))
    decreases |data| - cursor
  {
    if i > 0 {
      FramesFit(data, End(RecordAt(data, cursor)), i - 1);
    }
  }

  /** Records take at least four bytes each. */
  lemma {:induction false} FramesCount(data: Bytes, cursor: nat)
    requires cursor <= |data| && Frames(data, cursor).Some?
    ensures 4 * |Frames(data, cursor).value| <= |data| - cursor
    decreases |data| - cursor
  {
    if cursor < |data| {
      FramesCount(data, End(RecordAt(data, cursor)));
    }
  }

  // ----- The strict guard -----

  predicate Forbidden(kind: int) {
    kind in {0x0006, 0x0017, 0x0018, 0x0023, 0x002F, 0x005D, 0x01AE, 0x01B8, 0x0221, 0x0236, 0x04BC}
  }

  /** A BIFF8 globals or worksheet BOF; the first one of a stream is the globals. */
  predicate BofOk(data: Bytes, r: Record)
    requires End(r) <= |data|
  {
    && r.size == 16
    && U16(data, r.offset + 4) == 0x0600
    && U16(data, r.offset + 6) in {5, 16}
    && (r.offset == 0 ==> U16(data, r.offset + 6) == 5)
  }

  /** What the guard demands of a record, given only the kind of the record before it. */
  predicate GuardStep(data: Bytes, allowed: set<int>, previous: Option<int>, r: Record)
    requires End(r) <= |data|
  {
    && r.size <= MAX_PAYLOAD
    && r.kind in allowed && !Forbidden(r.kind)
    && (previous == Some(CONTINUE) && r.kind != CONTINUE ==> r.kind == SETUP)
    && (r.kind == CONTINUE ==> previous == Some(CONTINUE) || previous == Some(PLS))
    && (r.kind == BOF <==> previous.None? || previous == Some(EOF))
    && (r.kind == BOF ==> BofOk(data, r))
    && (r.kind == EOF ==> r.size == 0)
  }

  function KindBefore(records: seq<Record>, i: nat): Option<int>
    requires i <= |records|
  {
    if i == 0 then None else Some(records[i - 1].kind)
  }

  predicate AllFit(data: Bytes, records: seq<Record>) {
    forall i | 0 <= i < |records| :: End(records[i]) <= |data|
  }

  predicate GuardAt(data: Bytes, allowed: set<int>, records: seq<Record>, i: nat)
    requires AllFit(data, records) && i < |records|
  {
    GuardStep(data, allowed, KindBefore(records, i), records[i])
  }

  predicate GuardAll(data: Bytes, allowed: set<int>, records: seq<Record>)
    requires AllFit(data, records)
  {
    forall i | 0 <= i < |records| :: GuardAt(data, allowed, records, i)
  }

  /** What `guard_biff` accepts: local conditions on adjacent records, and a stream that ends in EOF. */
  predicate Guarded(data: Bytes, allowed: set<int>) {
    && 0 < |data| <= MAX_STREAM
    && var f := Frames(data, 0);
       && f.Some? && f.value != [] && f.value[|f.value| - 1].kind == EOF
       && AllFit(data, f.value) && GuardAll(data, allowed, f.value)
  }

  lemma FramesAllFit(data: Bytes)
    requires Frames(data, 0).Some?
    ensures AllFit(data, Frames(data, 0).value)
  {
    forall i | 0 <= i < |Frames(data, 0).value| ensures End(Frames(data, 0).value[i]) <= |data| {
      FramesFit(data, 0, i);
    }
  }
}
