/** The fingerprint index and the anchor confirmation of ren_overlap_index.py. */
module OverlapIndex {
  import opened Basics
  import opened Winnowing
  import opened Confirmation

  /** Compare the eight seed rows, stopping at the first that differs. */
  method ConfirmSeed(left: seq<Row>, right: seq<Row>, a: int, b: int) returns (r: Result<bool>)
    requires InRange(left, right, a, b)
    ensures r.Failure? <==> !ValidOver(left, right, a, b, 0, Min(K, SpanEnd(left, right, a, b, 0) + 1))
    ensures r.Success? ==> (r.value <==> EqualOver(left, right, a, b, 0, K))
  {
    var shift := 0;
    while shift < K
      invariant 0 <= shift <= K
      invariant SpanEnd(left, right, a, b, 0) == SpanEnd(left, right, a, b, shift)
      invariant ValidOver(left, right, a, b, 0, shift)
    {
      if !ValidAt(left, right, a, b, shift) { return Failure("invalid readback token"); }
      if !EqualAt(left, right, a, b, shift) { return Success(false); }
      shift := shift + 1;
    }
    return Success(true);
  }

  /** Walk back at most 24 rows. */
  method ExtendBack(left: seq<Row>, right: seq<Row>, a: int, b: int) returns (r: Result<int>)
    requires InRange(left, right, a, b)
    ensures r.Failure? <==> !ValidOver(left, right, a, b, Max(Lo(a, b), SpanStart(left, right, a, b, 0) - 1), 0)
    ensures r.Success? ==> -r.value == SpanStart(left, right, a, b, 0)
  {
    var before, shift := 0, 1;
    while shift <= REACH
      invariant 0 <= before <= REACH && shift == before + 1 && Lo(a, b) <= -before
      invariant SpanStart(left, right, a, b, 0) == SpanStart(left, right, a, b, -before)
      invariant ValidOver(left, right, a, b, -before, 0)
    {
      if a - shift < 0 || b - shift < 0 { break; }
      if !ValidAt(left, right, a, b, -shift) { return Failure("invalid readback token"); }
      if !EqualAt(left, right, a, b, -shift) { break; }
      before := shift;
      shift := shift + 1;
    }
    return Success(before);
  }

  /** Walk on at most 24 rows past the seed. */
  method ExtendForward(left: seq<Row>, right: seq<Row>, a: int, b: int) returns (r: Result<int>)
    requires InRange(left, right, a, b)
    ensures r.Failure? <==> !ValidOver(left, right, a, b, K,
                                       Min(Hi(left, right, a, b), SpanEnd(left, right, a, b, K) + 1))
    ensures r.Success? ==> K + r.value == SpanEnd(left, right, a, b, K)
  {
    var after, shift := 0, 0;
    while shift < REACH
      invariant 0 <= after <= REACH && shift == after && K + after <= Hi(left, right, a, b)
      invariant SpanEnd(left, right, a, b, K) == SpanEnd(left, right, a, b, K + after)
      invariant ValidOver(left, right, a, b, K, K + after)
    {
      var x, y := a + K + shift, b + K + shift;
      if x >= |left| || y >= |right| { break; }
      if !ValidAt(left, right, a, b, K + shift) { return Failure("invalid readback token"); }
      if !EqualAt(left, right, a, b, K + shift) { break; }
      after := shift + 1;
      shift := shift + 1;
    }
    return Success(after);
  }

  /** The second pass over the whole span. */
  method CompareEnergy(left: seq<Row>, right: seq<Row>, a: int, b: int, before: int, after: int) returns (m: Match)
    requires InRange(left, right, a, b)
    requires Lo(a, b) <= -before <= 0 <= K + after <= Hi(left, right, a, b)
    ensures m == MatchOf(left, right, a, b, -before, K + after)
  {
    var compared, missing, mismatches := 0, 0, 0;
    hide EqualOver;
    for s := -before to K + after
      invariant missing == MissingIn(left, right, a, b, -before, s)
      invariant compared == s + before - missing
      invariant mismatches == MismatchIn(left, right, a, b, -before, s)
    {
      var x, y := left[a + s].energy, right[b + s].energy;
      if x.None? || y.None? {
        missing := missing + 1;
      } else {
        compared := compared + 1;
        mismatches := mismatches + if x != y then 1 else 0;
      }
    }
    return Match(a - before, b - before, before + K + after, compared, missing, mismatches);
  }

  /** `confirm_anchor`: seed, then back, then forward, then the energy of the whole span. */
  method ConfirmAnchor(left: seq<Row>, right: seq<Row>, a: int, b: int) returns (r: Result<Option<Match>>)
    ensures r.Failure? <==>
            !InRange(left, right, a, b)
            || !ValidOver(left, right, a, b, TouchedFrom(left, right, a, b), TouchedTo(left, right, a, b))
    ensures r.Success? ==> r.value == Verdict(left, right, a, b)
  {
    if !InRange(left, right, a, b) { return Failure("anchor out of bounds"); }
    TouchedParts(left, right, a, b);
    var seed := ConfirmSeed(left, right, a, b);
    if seed.Failure? { return Failure(seed.error); }
    if !seed.value { return Success(None); }
    var before := ExtendBack(left, right, a, b);
    if before.Failure? { return Failure(before.error); }
    var after := ExtendForward(left, right, a, b);
    if after.Failure? { return Failure(after.error); }
    SpanIsMaximal(left, right, a, b);
    VerdictOfSpan(left, right, a, b, -before.value, K + after.value);
    if before.value + K + after.value < GUARANTEED_LENGTH { return Success(None); }
    var m := CompareEnergy(left, right, a, b, before.value, after.value);
    return Success(Some(m));
  }

  // ----- The fingerprint index -----

  datatype Entry = Entry(digest: Digest, gid: nat, offset: int)

  /** One candidate: equal digests at offset `a` of group `ga` and offset `b` of the later group `gb`. */
  datatype Candidate = Candidate(ga: nat, a: int, gb: nat, b: int)

  /** What `add` accepts for a group of `rows` rows. */
  predicate Indexable(rows: int, fingerprints: seq<Fingerprint>) {
    && (forall j | 0 <= j < |fingerprints| :: 0 <= fingerprints[j].offset <= rows - K)
    && (forall i, j | 0 <= i < j < |fingerprints| :: fingerprints[i].offset < fingerprints[j].offset)
    && (rows >= GUARANTEED_LENGTH ==> fingerprints != [])
  }

  function Tagged(gid: nat, fingerprints: seq<Fingerprint>): (e: seq<Entry>)
    ensures |e| == |fingerprints|
    ensures forall j | 0 <= j < |e| :: e[j] == Entry(fingerprints[j].digest, gid, fingerprints[j].offset)
  {
    seq(|fingerprints|, j requires 0 <= j < |fingerprints| =>
      Entry(fingerprints[j].digest, gid, fingerprints[j].offset))
  }

  lemma TaggedSnoc(gid: nat, fingerprints: seq<Fingerprint>, j: nat)
    requires j < |fingerprints|
    ensures Tagged(gid, fingerprints[..j + 1]) ==
            Tagged(gid, fingerprints[..j]) + [Entry(fingerprints[j].digest, gid, fingerprints[j].offset)]
  {
  }

  /** `SELECT offset,digest FROM fingerprints WHERE gid=? ORDER BY offset`, on rows inserted in offset order. */
  function Stored(entries: seq<Entry>, gid: nat): seq<Fingerprint> {
    if entries == [] then []
    else
      var rest := Stored(entries[..|entries| - 1], gid);
      var last := entries[|entries| - 1];
      if last.gid == gid then rest + [Fingerprint(last.offset, last.digest)] else rest
  }

  lemma {:induction false} StoredAfterAdd(entries: seq<Entry>, gid: nat, fingerprints: seq<Fingerprint>, other: nat)
    ensures Stored(entries + Tagged(gid, fingerprints), other) ==
            Stored(entries, other) + if other == gid then fingerprints else []
  {
    var t := Tagged(gid, fingerprints);
    if fingerprints == [] {
      assert entries + t == entries;
    } else {
      var init := fingerprints[..|fingerprints| - 1];
      StoredAfterAdd(entries, gid, init, other);
      assert (entries + t)[..|entries + t| - 1] == entries + Tagged(gid, init);
      assert fingerprints == init + [fingerprints[|fingerprints| - 1]];
    }
  }

  lemma {:induction false} StoredMember(entries: seq<Entry>, gid: nat, f: Fingerprint)
    ensures f in Stored(entries, gid) <==> Entry(f.digest, gid, f.offset) in entries
  {
    if entries != [] {
      StoredMember(entries[..|entries| - 1], gid, f);
      assert entries == entries[..|entries| - 1] + [entries[|entries| - 1]];
    }
  }

  /** The join condition of `pairs`. */
  ghost predicate Joins(entries: seq<Entry>, c: Candidate) {
    && c.ga < c.gb
    && exists digest :: Entry(digest, c.ga, c.a) in entries && Entry(digest, c.gb, c.b) in entries
  }

  /** Some enumeration of the join: every cross-group equal-digest pair once, and nothing else. */
  ghost predicate Enumerates(entries: seq<Entry>, pairs: seq<Candidate>) {
    && (forall c :: c in pairs <==> Joins(entries, c))
    && (forall i, j | 0 <= i < j < |pairs| :: pairs[i] != pairs[j])
  }

  // ----- One such enumeration: the nested-loop join -----

  predicate Matches(x: Entry, y: Entry, c: Candidate) {
    x.digest == y.digest && x.gid < y.gid && c == Candidate(x.gid, x.offset, y.gid, y.offset)
  }

  predicate Distinct(pairs: seq<Candidate>) {
    forall i, j | 0 <= i < j < |pairs| :: pairs[i] != pairs[j]
  }

  /** The inner loop: `x` against every entry. */
  function JoinRow(x: Entry, entries: seq<Entry>, pairs: seq<Candidate>): seq<Candidate> {
    if entries == [] then pairs
    else
      var before, y := JoinRow(x, entries[..|entries| - 1], pairs), entries[|entries| - 1];
      var c := Candidate(x.gid, x.offset, y.gid, y.offset);
      if Matches(x, y, c) && c !in before then before + [c] else before
  }

  /** The outer loop, over the first `n` entries. */
  function JoinRows(entries: seq<Entry>, n: nat): seq<Candidate>
    requires n <= |entries|
  {
    if n == 0 then [] else JoinRow(entries[n - 1], entries, JoinRows(entries, n - 1))
  }

  function NestedJoin(entries: seq<Entry>): seq<Candidate> {
    JoinRows(entries, |entries|)
  }

  lemma {:induction false} JoinRowMembers(x: Entry, entries: seq<Entry>, pairs: seq<Candidate>, c: Candidate)
    requires Distinct(pairs)
    ensures Distinct(JoinRow(x, entries, pairs))
    ensures c in JoinRow(x, entries, pairs) <==> c in pairs || exists y | y in entries :: Matches(x, y, c)
  {
    if entries != [] {
      var init, y := entries[..|entries| - 1], entries[|entries| - 1];
      JoinRowMembers(x, init, pairs, c);
      assert entries == init + [y];
    }
  }

  lemma {:induction false} JoinRowsMembers(entries: seq<Entry>, n: nat, c: Candidate)
    requires n <= |entries|
    ensures Distinct(JoinRows(entries, n))
    ensures c in JoinRows(entries, n) <==> exists x, y | x in entries[..n] && y in entries :: Matches(x, y, c)
  {
    if n > 0 {
      JoinRowsMembers(entries, n - 1, c);
      JoinRowMembers(entries[n - 1], entries, JoinRows(entries, n - 1), c);
      assert entries[..n] == entries[..n - 1] + [entries[n - 1]];
    }
  }

  /** The join exists: for every index the nested loop lists every joined pair once, and nothing else. */
  lemma NestedJoinEnumerates()
    ensures forall entries :: Enumerates(entries, NestedJoin(entries))
  {
    forall entries
      ensures Enumerates(entries, NestedJoin(entries))
    {
      var n := |entries|;
      assert entries[..n] == entries;
      JoinRowsMembers(entries, n, Candidate(0, 0, 0, 0));
      forall c
        ensures c in NestedJoin(entries) <==> Joins(entries, c)
      {
        JoinRowsMembers(entries, n, c);
        MatchIsJoin(entries, c);
      }
    }
  }

  lemma MatchIsJoin(entries: seq<Entry>, c: Candidate)
    ensures Joins(entries, c) <==> exists x, y | x in entries && y in entries :: Matches(x, y, c)
  {
    if Joins(entries, c) {
      var digest :| Entry(digest, c.ga, c.a) in entries && Entry(digest, c.gb, c.b) in entries;
      assert Matches(Entry(digest, c.ga, c.a), Entry(digest, c.gb, c.b), c);
    }
    if x, y :| x in entries && y in entries && Matches(x, y, c) {
      assert x == Entry(x.digest, c.ga, c.a) && y == Entry(x.digest, c.gb, c.b);
    }
  }

  /** The local index, with one atomic insert per group. */
  class DiskIndex {
    var groups: map<nat, nat>
    var entries: seq<Entry>

    constructor ()
      ensures groups == map[] && entries == []
    {
      groups, entries := map[], [];
    }

    method Add(gid: int, rows: int, fingerprints: seq<Fingerprint>) returns (ok: bool)
      modifies this
      ensures ok <==> gid >= 0 && rows >= 0 && gid !in old(groups) && Indexable(rows, fingerprints)
      ensures ok ==> groups == old(groups)[gid := rows] && entries == old(entries) + Tagged(gid, fingerprints)
      ensures !ok ==> groups == old(groups) && entries == old(entries)
    {
      if gid < 0 || rows < 0 || gid in groups { return false; }
      var savedGroups, savedEntries := groups, entries;
      groups := groups[gid := rows];
      var previous := -1;
      for j := 0 to |fingerprints|
        invariant groups == old(groups)[gid := rows] && entries == old(entries) + Tagged(gid, fingerprints[..j])
        invariant previous == if j == 0 then -1 else fingerprints[j - 1].offset
        invariant forall i | 0 <= i < j :: 0 <= fingerprints[i].offset <= previous <= rows - K
        invariant forall i, k | 0 <= i < k < j :: fingerprints[i].offset < fingerprints[k].offset
      {
        var f := fingerprints[j];
        if !(previous < f.offset <= rows - K) {
          groups, entries := savedGroups, savedEntries;
          return false;
        }
        entries := entries + [Entry(f.digest, gid, f.offset)];
        TaggedSnoc(gid, fingerprints, j);
        previous := f.offset;
      }
      if rows >= GUARANTEED_LENGTH && previous == -1 {
        groups, entries := savedGroups, savedEntries;
        return false;
      }
      assert fingerprints[..|fingerprints|] == fingerprints;
      return true;
    }
  }

  // ----- Source positions -----

  /** One sheet of one member, with its number of data rows. */
  datatype Span = Span(member: string, sheet: int, name: string, rows: int)

  /** The source row behind a group offset; data rows start at row 2 of a sheet. */
  datatype Position = Position(member: string, sheet: int, name: string, row: int)

  function SpanPositions(span: Span): (p: seq<Position>)
    ensures |p| == Max(0, span.rows)
    ensures forall i | 0 <= i < |p| :: p[i] == Position(span.member, span.sheet, span.name, i + 2)
  {
    seq(Max(0, span.rows), i => Position(span.member, span.sheet, span.name, i + 2))
  }

  /** Every source row of a group, in the order the source must emit them. */
  function Positions(spans: seq<Span>): seq<Position> {
    if spans == [] then [] else SpanPositions(spans[0]) + Positions(spans[1..])
  }

  /** Every span before the one that holds `offset`, and that one, has at least one row. */
  predicate ReachableOffset(spans: seq<Span>, offset: int) {
    && spans != [] && spans[0].rows >= 1
    && (offset < spans[0].rows || ReachableOffset(spans[1..], offset - spans[0].rows))
  }

  method SourcePosition(spans: seq<Span>, offset: int) returns (r: Result<Position>)
    ensures r.Success? <==> offset >= 0 && ReachableOffset(spans, offset)
    ensures r.Success? ==> offset < |Positions(spans)| && r.value == Positions(spans)[offset]
  {
    if offset < 0 { return Failure("invalid offset"); }
    var remaining := offset;
    for i := 0 to |spans|
      invariant 0 <= remaining <= offset
      invariant ReachableOffset(spans, offset) == ReachableOffset(spans[i..], remaining)
      invariant remaining < |Positions(spans[i..])| ==>
                  offset < |Positions(spans)| && Positions(spans)[offset] == Positions(spans[i..])[remaining]
    {
      var span := spans[i];
      assert spans[i..][0] == span && spans[i..][1..] == spans[i + 1..];
      if span.rows < 1 { return Failure("invalid span"); }
      if remaining < span.rows {
        return Success(Position(span.member, span.sheet, span.name, remaining + 2));
      }
      remaining := remaining - span.rows;
    }
    return Failure("offset outside group");
  }

  /** With every span nonempty, an offset maps to a source row exactly when it lies inside the group. */
  lemma {:induction false} OffsetsReachable(spans: seq<Span>, offset: nat)
    requires forall i | 0 <= i < |spans| :: spans[i].rows >= 1
    ensures ReachableOffset(spans, offset) <==> offset < |Positions(spans)|
  {
    if spans != [] && offset >= spans[0].rows {
      OffsetsReachable(spans[1..], offset - spans[0].rows);
    }
  }
}
