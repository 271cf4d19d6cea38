/** `guard_biff` of ren_workbook_reader.py. */
module WorkbookGuard {
  import opened Basics
  import opened BiffRecords

  /** The loop state after the framed records: one pass over bytes, remembering one kind, one flag and one base. */
  predicate StateAfter(records: seq<Record>, isOpen: bool, previous: Option<int>, base: Option<int>) {
    && previous == KindBefore(records, |records|)
    && (isOpen <==> previous.Some? && previous != Some(EOF))
    && (previous == Some(CONTINUE) ==> base == Some(PLS))
  }

  /** One record against the loop state: the body of the loop once the framing is known to be sound. */
  method CheckRecord(data: Bytes, allowed: set<int>, cursor: nat, isOpen: bool, previous: Option<int>,
                     base: Option<int>)
    returns (ok: bool, nowOpen: bool, nextBase: Option<int>)
    requires HasHeader(data, cursor) && End(RecordAt(data, cursor)) <= |data|
    requires isOpen <==> previous.Some? && previous != Some(EOF)
    requires previous == Some(CONTINUE) ==> base == Some(PLS)
    requires RecordAt(data, cursor).size <= MAX_PAYLOAD
    ensures ok <==> GuardStep(data, allowed, previous, RecordAt(data, cursor))
    ensures ok ==> (nowOpen <==> RecordAt(data, cursor).kind != EOF)
    ensures ok && RecordAt(data, cursor).kind == CONTINUE ==> nextBase == Some(PLS)
  {
    var kind, size := U16(data, cursor), U16(data, cursor + 2);
    ok, nowOpen, nextBase := false, isOpen, base;
    if kind !in allowed || Forbidden(kind) { return; }
    if previous == Some(CONTINUE) && kind != CONTINUE && kind != SETUP { return; }
    if kind == CONTINUE {
      if previous != Some(CONTINUE) { nextBase := previous; }
      if nextBase != Some(PLS) { return; }
    }
    if kind == BOF {
      if isOpen || size != 16 { return; }
      var version, substream := U16(data, cursor + 4), U16(data, cursor + 6);
      if version != 0x0600 || substream !in {5, 16} || (cursor == 0 && substream != 5) { return; }
      nowOpen := true;
    } else if !isOpen {
      return;
    } else if kind == EOF {
      if size != 0 { return; }
      nowOpen := false;
    }
    ok := true;
  }

  method GuardBiff(data: Bytes, allowed: set<int>) returns (ok: bool)
    ensures ok <==> Guarded(data, allowed)
  {
    if |data| == 0 || |data| > MAX_STREAM { return false; }
    var cursor, isOpen := 0, false;
    var previous: Option<int>, base: Option<int> := None, None;
    ghost var done: seq<Record> := [];
    assert Frames(data, 0) == Prepend([], Frames(data, 0)) by {
      if Frames(data, 0).Some? { assert [] + Frames(data, 0).value == Frames(data, 0).value; }
    }
    hide Frames, Guarded, GuardAll, GuardStep, U16;
    while cursor < |data|
      invariant cursor <= |data| && (cursor == 0 <==> done == [])
      invariant Frames(data, 0) == Prepend(done, Frames(data, cursor))
      invariant AllFit(data, done) && GuardAll(data, allowed, done)
      invariant StateAfter(done, isOpen, previous, base)
      decreases |data| - cursor
    {
      RejectHere(data, allowed, done, cursor);
      if |data| - cursor < 4 { return false; }
      var end := cursor + 4 + U16(data, cursor + 2);
      if U16(data, cursor + 2) > MAX_PAYLOAD || end > |data| { return false; }
      var admitted, nowOpen, nextBase := CheckRecord(data, allowed, cursor, isOpen, previous, base);
      if !admitted { return false; }
      GuardNext(data, allowed, done, RecordAt(data, cursor));
      FrameNext(data, done, cursor);
      done := done + [RecordAt(data, cursor)];
      previous, cursor, isOpen, base := Some(U16(data, cursor)), end, nowOpen, nextBase;
    }
    GuardedAtEnd(data, allowed, done);
    return !isOpen && previous == Some(EOF);
  }

  /** At the end of the data the framed records are all there are. */
  lemma GuardedAtEnd(data: Bytes, allowed: set<int>, done: seq<Record>)
    requires 0 < |data| <= MAX_STREAM && Frames(data, 0) == Prepend(done, Frames(data, |data|))
    requires AllFit(data, done) && GuardAll(data, allowed, done)
    ensures Guarded(data, allowed) <==> KindBefore(done, |done|) == Some(EOF)
  {
    assert done + [] == done;
  }

  /** A record that cannot be framed, or fails its local conditions, makes the whole stream unacceptable. */
  lemma RejectHere(data: Bytes, allowed: set<int>, done: seq<Record>, cursor: nat)
    requires cursor < |data|
    requires Frames(data, 0) == Prepend(done, Frames(data, cursor))
    ensures Guarded(data, allowed) ==> HasHeader(data, cursor)
    ensures Guarded(data, allowed) ==>
              End(RecordAt(data, cursor)) <= |data| && RecordAt(data, cursor).size <= MAX_PAYLOAD
              && GuardStep(data, allowed, KindBefore(done, |done|), RecordAt(data, cursor))
  {
    var f := Frames(data, 0);
    if Guarded(data, allowed) {
      assert f.value[|done|] == RecordAt(data, cursor);
      assert GuardAt(data, allowed, f.value, |done|);
    }
  }

  lemma GuardNext(data: Bytes, allowed: set<int>, done: seq<Record>, r: Record)
    requires AllFit(data, done) && GuardAll(data, allowed, done)
    requires End(r) <= |data| && GuardStep(data, allowed, KindBefore(done, |done|), r)
    ensures AllFit(data, done + [r]) && GuardAll(data, allowed, done + [r])
  {
    hide GuardStep;
    var next := done + [r];
    forall i | 0 <= i < |next|
      ensures GuardAt(data, allowed, next, i)
    {
      assert KindBefore(next, i) == KindBefore(done, i);
      if i < |done| {
        assert GuardAt(data, allowed, done, i) && next[i] == done[i];
      }
    }
  }
}
