/** The CONTINUE chains ([MS-XLS] section 2.4.58) of a record sequence, per ren_static_context.py. */
module ContinueChains {
  import opened Basics
  import opened BiffRecords

  /** One maximal run of CONTINUE records, with the records around it. */
  datatype Chain = Chain(offset: nat, predecessor: Option<int>, records: nat, payload: nat, following: Option<int>)

  datatype Context = Context(recordsFramed: nat, bytesFramed: nat, chains: seq<Chain>)

  /** The kind of the last record that is not a CONTINUE. */
  function Predecessor(records: seq<Record>): Option<int> {
    if records == [] then None
    else
      var last := records[|records| - 1];
      if last.kind != CONTINUE then Some(last.kind) else Predecessor(records[..|records| - 1])
  }

  /** The chains after one more record, as the loop keeps them. */
  function NextChains(chains: seq<Chain>, previous: Option<int>, predecessor: Option<int>, r: Record): seq<Chain>
    requires previous == Some(CONTINUE) ==> chains != []
  {
    if r.kind == CONTINUE then
      if previous == Some(CONTINUE) then
        var last := chains[|chains| - 1];
        chains[..|chains| - 1] + [last.(records := last.records + 1, payload := last.payload + r.size)]
      else chains + [Chain(r.offset, predecessor, 1, r.size, None)]
    else if previous == Some(CONTINUE) then
      chains[..|chains| - 1] + [chains[|chains| - 1].(following := Some(r.kind))]
    else chains
  }

  function Chains(records: seq<Record>): (chains: seq<Chain>)
    ensures KindBefore(records, |records|) == Some(CONTINUE) ==> chains != []
  {
    if records == [] then []
    else
      var n := |records| - 1;
      NextChains(Chains(records[..n]), KindBefore(records, n), Predecessor(records[..n]), records[n])
  }

  function RecordsIn(chains: seq<Chain>): nat {
    if chains == [] then 0 else RecordsIn(chains[..|chains| - 1]) + chains[|chains| - 1].records
  }

  predicate IsContinue(r: Record) { r.kind == CONTINUE }

  /** One more record adds one to the last chain, a new chain, or nothing. */
  lemma NextCounts(chains: seq<Chain>, previous: Option<int>, predecessor: Option<int>, r: Record)
    requires previous == Some(CONTINUE) ==> chains != []
    ensures RecordsIn(NextChains(chains, previous, predecessor, r)) == RecordsIn(chains) +
            (if r.kind == CONTINUE then 1 else 0)
  {
    var next := NextChains(chains, previous, predecessor, r);
    if |next| > |chains| {
      assert next[..|chains|] == chains;
    } else if previous == Some(CONTINUE) {
      assert next[..|chains| - 1] == chains[..|chains| - 1];
    }
  }

  /** The chains account for every CONTINUE record. */
  lemma {:induction false} ChainsCountContinues(records: seq<Record>)
    ensures RecordsIn(Chains(records)) == CountIf(records, IsContinue)
  {
    if records != [] {
      var n := |records| - 1;
      ChainsCountContinues(records[..n]);
      NextCounts(Chains(records[..n]), KindBefore(records, n), Predecessor(records[..n]), records[n]);
    }
  }

  function PayloadIn(records: seq<Record>, first: nat, last: nat): nat
    requires first <= last <= |records|
  {
    if first == last then 0 else PayloadIn(records, first, last - 1) + records[last - 1].size
  }

  lemma {:induction false} PayloadStays(init: seq<Record>, records: seq<Record>, first: nat, last: nat)
    requires first <= last <= |init| && init <= records
    ensures PayloadIn(records, first, last) == PayloadIn(init, first, last)
  {
    if first < last { PayloadStays(init, records, first, last - 1); }
  }

  /** What chain `c` says about the records: it is the run `first..last`, bounded by what is not a CONTINUE. */
  predicate Describes(records: seq<Record>, c: Chain, first: nat, last: nat) {
    && first < last <= |records| && c.records == last - first && c.offset == records[first].offset
    && c.payload == PayloadIn(records, first, last)
    && (forall i | first <= i < last :: records[i].kind == CONTINUE)
    && c.predecessor == KindBefore(records, first) && c.predecessor != Some(CONTINUE)
    && (if last == |records| then c.following == None
        else c.following == Some(records[last].kind) && records[last].kind != CONTINUE)
  }

  ghost predicate Described(records: seq<Record>, c: Chain) {
    exists first: nat, last: nat :: Describes(records, c, first, last)
  }

  // Every reported chain is a maximal run, with the record before it and the record after it; only the last
  // may be open.
  ghost predicate AllDescribed(records: seq<Record>, chains: seq<Chain>) {
    && (forall j | 0 <= j < |chains| :: Described(records, chains[j]))
    && (forall j | 0 <= j < |chains| - 1 :: chains[j].following.Some?)
    && (chains != [] ==> (chains[|chains| - 1].following == None <==> KindBefore(records, |records|) == Some(CONTINUE)))
  }

  lemma {:induction false} ChainsAreMaximalRuns(records: seq<Record>)
    ensures AllDescribed(records, Chains(records))
  {
    if records != [] {
      var n := |records| - 1;
      ChainsAreMaximalRuns(records[..n]);
      assert KindBefore(records, n) == KindBefore(records[..n], n) && records[..n] + [records[n]] == records;
      if KindBefore(records, n) != Some(CONTINUE) { PredecessorIsLast(records[..n]); }
      NextIsDescribed(records[..n], records[n], Chains(records[..n]), Predecessor(records[..n]));
    }
  }

  lemma PredecessorIsLast(records: seq<Record>)
    requires KindBefore(records, |records|) != Some(CONTINUE)
    ensures Predecessor(records) == KindBefore(records, |records|)
  {
  }

  lemma NextIsDescribed(init: seq<Record>, r: Record, chains: seq<Chain>, predecessor: Option<int>)
    requires AllDescribed(init, chains)
    requires KindBefore(init, |init|) == Some(CONTINUE) ==> chains != []
    requires KindBefore(init, |init|) != Some(CONTINUE) ==> predecessor == KindBefore(init, |init|)
    ensures AllDescribed(init + [r], NextChains(chains, KindBefore(init, |init|), predecessor, r))
  {
    var records, previous := init + [r], KindBefore(init, |init|);
    var after := NextChains(chains, previous, predecessor, r);
    forall j | 0 <= j < |after|
      ensures Described(records, after[j])
    {
      if j < |chains| {
        assert Described(init, chains[j]);
        ChainAfter(init, r, chains[j]);
      } else {
        assert PayloadIn(records, |init|, |init|) == 0;
        assert Describes(records, after[j], |init|, |init| + 1);
      }
    }
  }

  /** How a described chain changes when one record is added: an open chain grows or is closed, a closed one stays. */
  lemma ChainAfter(init: seq<Record>, r: Record, c: Chain)
    requires Described(init, c)
    ensures Described(init + [r],
                      if c.following.Some? then c
                      else if r.kind == CONTINUE then c.(records := c.records + 1, payload := c.payload + r.size)
                      else c.(following := Some(r.kind)))
  {
    var records := init + [r];
    var first: nat, last: nat :| Describes(init, c, first, last);
    assert forall i | 0 <= i < |init| :: records[i] == init[i];
    assert KindBefore(records, first) == KindBefore(init, first);
    PayloadStays(init, records, first, last);
    var end := if c.following.None? && r.kind == CONTINUE then last + 1 else last;
    assert Describes(records, if c.following.Some? then c
                              else if r.kind == CONTINUE then
                                c.(records := c.records + 1, payload := c.payload + r.size)
                              else c.(following := Some(r.kind)), first, end);
  }

  /** Under the guard every chain follows a PLS record and precedes a SETUP record. */
  lemma GuardedChains(data: Bytes, allowed: set<int>)
    requires Guarded(data, allowed)
    ensures forall j | 0 <= j < |Chains(Frames(data, 0).value)| ::
              var c := Chains(Frames(data, 0).value)[j];
              c.records > 0 && c.predecessor == Some(PLS) && c.following == Some(SETUP)
  {
    var f := Frames(data, 0).value;
    ChainsAreMaximalRuns(f);
    forall j | 0 <= j < |Chains(f)|
      ensures var c := Chains(f)[j]; c.records > 0 && c.predecessor == Some(PLS) && c.following == Some(SETUP)
    {
      assert Described(f, Chains(f)[j]);
      var first: nat, last: nat :| Describes(f, Chains(f)[j], first, last);
      assert GuardAt(data, allowed, f, first);
      assert last < |f|;
      assert GuardAt(data, allowed, f, last);
    }
  }

  predicate Readable(r: Record) { r.size <= MAX_PAYLOAD && r.kind != FILEPASS }

  /** Framing fails, or a record is oversize or encrypted: the diagnosis raises. */
  predicate ContextFails(data: Bytes) {
    var f := Frames(data, 0);
    f.None? || exists i | 0 <= i < |f.value| :: !Readable(f.value[i])
  }

  function ContextOf(data: Bytes): Context
    requires Frames(data, 0).Some?
  {
    var f := Frames(data, 0).value;
    Context(|f|, |data|, Chains(f))
  }

  /** Whatever the guard accepts, the diagnosis frames without error. */
  lemma GuardedContext(data: Bytes, allowed: set<int>)
    requires Guarded(data, allowed)
    ensures !ContextFails(data)
  {
    var f := Frames(data, 0).value;
    forall i | 0 <= i < |f| ensures Readable(f[i]) {
      assert GuardAt(data, allowed, f, i);
    }
  }

  /** The chain list after one record: a chain grows, starts or is closed. */
  method ExtendChains(chains: seq<Chain>, previous: Option<int>, predecessor: Option<int>, r: Record)
    returns (next: seq<Chain>)
    requires previous == Some(CONTINUE) ==> chains != []
    ensures next == NextChains(chains, previous, predecessor, r)
  {
    next := chains;
    if r.kind == CONTINUE {
      if previous == Some(CONTINUE) {
        var last := chains[|chains| - 1];
        next := chains[..|chains| - 1] + [last.(records := last.records + 1, payload := last.payload + r.size)];
      } else {
        next := chains + [Chain(r.offset, predecessor, 1, r.size, None)];
      }
    } else if previous == Some(CONTINUE) {
      next := chains[..|chains| - 1] + [chains[|chains| - 1].(following := Some(r.kind))];
    }
  }

  /** A record that cannot be framed, or must not be read, fails the diagnosis. */
  lemma FailHere(data: Bytes, done: seq<Record>, cursor: nat)
    requires cursor < |data| && Frames(data, 0) == Prepend(done, Frames(data, cursor))
    requires HasHeader(data, cursor) && End(RecordAt(data, cursor)) <= |data| ==> !Readable(RecordAt(data, cursor))
    ensures ContextFails(data)
  {
    if Frames(data, 0).Some? {
      assert Frames(data, 0).value[|done|] == RecordAt(data, cursor);
    }
  }

  lemma ContextAtEnd(data: Bytes, done: seq<Record>)
    requires Frames(data, 0) == Prepend(done, Frames(data, |data|))
    requires forall i | 0 <= i < |done| :: Readable(done[i])
    ensures !ContextFails(data) && Frames(data, 0) == Some(done)
  {
    assert done + [] == done;
  }

  lemma ChainsNext(done: seq<Record>, r: Record)
    ensures Chains(done + [r]) == NextChains(Chains(done), KindBefore(done, |done|), Predecessor(done), r)
    ensures Predecessor(done + [r]) == if r.kind == CONTINUE then Predecessor(done) else Some(r.kind)
  {
    assert (done + [r])[..|done|] == done;
    assert KindBefore(done + [r], |done|) == KindBefore(done, |done|);
  }

  /** `continuation_context`: headers only. */
  method ContinuationContext(data: Bytes) returns (r: Result<Context>)
    ensures r.Failure? <==> ContextFails(data)
    ensures r.Success? ==> r.value == ContextOf(data)
  {
    var cursor, count := 0, 0;
    var predecessor: Option<int>, previous: Option<int>, chains: seq<Chain> := None, None, [];
    ghost var done: seq<Record> := [];
    if Frames(data, 0).Some? { assert [] + Frames(data, 0).value == Frames(data, 0).value; }
    hide Frames, Chains, Predecessor, NextChains, ContextFails;
    while cursor < |data|
      invariant cursor <= |data| && count == |done|
      invariant Frames(data, 0) == Prepend(done, Frames(data, cursor))
      invariant forall i | 0 <= i < |done| :: Readable(done[i])
      invariant previous == KindBefore(done, |done|) && predecessor == Predecessor(done) && chains == Chains(done)
      decreases |data| - cursor
    {
      if |data| - cursor < 4 {
        FailHere(data, done, cursor);
        return Failure("truncated record header");
      }
      var r := RecordAt(data, cursor);
      if r.size > MAX_PAYLOAD || cursor + 4 + r.size > |data| {
        FailHere(data, done, cursor);
        return Failure("invalid record framing");
      }
      if r.kind == FILEPASS {
        FailHere(data, done, cursor);
        return Failure("encrypted FILEPASS");
      }
      FrameNext(data, done, cursor);
      ChainsNext(done, r);
      chains := ExtendChains(chains, previous, predecessor, r);
      predecessor := if r.kind == CONTINUE then predecessor else Some(r.kind);
      done := done + [r];
      previous, cursor, count := Some(r.kind), cursor + 4 + r.size, count + 1;
    }
    ContextAtEnd(data, done);
    return Success(Context(count, cursor, chains));
  }
}
