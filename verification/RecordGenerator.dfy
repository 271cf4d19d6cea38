/** The generator `record_rows` of ren_target_group.py, pulled row by row while it fills the group's lists. */
module RecordGenerator {
  import opened Basics
  import opened StepEvidence
  import opened GroupObservations
  import opened GroupEvents

  // ----- One event -----

  /** The lists that the generator fills, and the key of the row it yielded last. */
  datatype Collected = Collected(
    previous: Option<Key>, extras: seq<Extra>, summaries: seq<Summary>, summaryPlaces: seq<Location>,
    cycles: seq<CycleRow>, cyclePlaces: seq<Location>)

  predicate Holds(st: Collected, c: Contents) {
    && st.extras == Extras(c.records)
    && st.previous == (if c.records == [] then None else Some(c.records[|c.records| - 1].row.key))
    && st.summaries == c.summaries && st.summaryPlaces == c.summaryPlaces
    && st.cycles == c.cycles && st.cyclePlaces == c.cyclePlaces
  }

  /** The row of a record event, which the generator yields. */
  function RowIn(e: Event): Option<Row> {
    if e.RecordEvent? then Some(e.row) else None
  }

  method TakeEvent(st: Collected, ghost c: Contents, member: string, e: Event) returns (next: Collected)
    requires Holds(st, c)
    ensures Holds(next, AddEvent(c, member, e))
  {
    var place := Place(member, e.position);
    match e
    case StepEvent(_, summary) =>
      next := st.(summaries := st.summaries + [summary], summaryPlaces := st.summaryPlaces + [place]);
    case CycleEvent(_, cycle) =>
      next := st.(cycles := st.cycles + [cycle], cyclePlaces := st.cyclePlaces + [place]);
    case RecordEvent(_, row, energy) =>
      ghost var r := Located(place, row, energy);
      ExtrasNext(c.records, r);
      var extras := st.extras;
      if st.previous != Some(row.key) {
        extras := extras + [Extra(row.key, place, place, 0, energy, energy, 0)];
      }
      var n := |extras| - 1;
      var item := extras[n];
      item := item.(last := place, lastEnergy := energy, rows := item.rows + 1,
                    missing := item.missing + if energy.None? then 1 else 0);
      next := st.(extras := extras[..n] + [item], previous := Some(row.key));
  }

  lemma RowsAfterEvent(c: Contents, member: string, e: Event)
    ensures RowsOf(AddEvent(c, member, e).records) ==
            RowsOf(c.records) + if e.RecordEvent? then [e.row] else []
  {
    if e.RecordEvent? {
      RowsNext(c.records, Located(Place(member, e.position), e.row, e.energy));
    }
  }

  // ----- Where the generator stands -----

  /** Members finished, the open stream with the events taken from it, and everything filled so far. */
  datatype Progress = Progress(
    member: nat, open: Option<seq<Event>>, at: nat, counts: Coverage, collected: Collected, coverage: seq<Coverage>)

  const START := Progress(0, None, 0, Coverage("", 0, 0, 0), Collected(None, [], [], [], [], []), [])

  /** The open stream is the one of the next member, and its first events stand where the schema says. */
  predicate OpenOk(s: Sources, p: Progress)
    requires p.open.Some?
  {
    && p.member < |s.members| && s.members[p.member] in s.schemas
    && s.load(s.members[p.member]) == Success(p.open.value)
    && var expected := Positions(s.schemas[s.members[p.member]]);
       && p.at <= |p.open.value| && p.at <= |expected|
       && (forall j | 0 <= j < p.at :: At(p.open.value[j], expected[j]))
       && p.counts == CoverageOf(s.members[p.member], p.open.value[..p.at])
  }

  predicate Placed(s: Sources, p: Progress) {
    && p.member <= |s.members| && Readable(s, p.member) && p.coverage == CoverageUpTo(s, p.member)
    && (p.open.Some? ==> OpenOk(s, p))
  }

  /** What has been read of the sources so far. */
  function ReadSoFar(s: Sources, p: Progress): Contents
    requires Placed(s, p)
  {
    var c := ContentsOf(s, p.member);
    if p.open.None? then c else AddStream(c, s.members[p.member], p.open.value[..p.at])
  }

  predicate Reached(s: Sources, p: Progress) {
    ValidSources(s) && Placed(s, p) && Holds(p.collected, ReadSoFar(s, p))
  }

  function RowsSoFar(s: Sources, p: Progress): seq<Row>
    requires Placed(s, p)
  {
    RowsOf(ReadSoFar(s, p).records)
  }

  predicate Finished(s: Sources, p: Progress) {
    p.member == |s.members| && p.open.None?
  }

  /** Whatever has been read is the beginning of what readable sources hold. */
  lemma ReadIsPrefix(s: Sources, p: Progress)
    requires Placed(s, p) && Readable(s, |s.members|)
    ensures RowsSoFar(s, p) <= RowsOf(ContentsOf(s, |s.members|).records)
  {
    var n := |s.members|;
    ContentsGrow(s, p.member, n);
    if p.open.Some? {
      var m := s.members[p.member];
      ContentsGrow(s, p.member + 1, n);
      assert ReadableMember(s, m);
      StreamGrows(ContentsOf(s, p.member), m, p.open.value, p.at);
    }
    hide ContentsOf, AddStream, Readable, ReadableMember;
    assert forall a: seq<Located>, b: seq<Located> | a <= b :: RowsOf(a) <= RowsOf(b);
  }

  // ----- The moves between two rows -----

  /** How much is left: members, then events of the open one. */
  function EventsLeft(s: Sources, p: Progress): nat {
    if p.open.Some? then if p.at <= |p.open.value| then |p.open.value| - p.at else 0
    else if p.member < |s.members| && s.load(s.members[p.member]).Success? then
      |s.load(s.members[p.member]).value| + 1
    else 0
  }

  predicate Closer(s: Sources, p: Progress, q: Progress) {
    q.member > p.member || (q.member == p.member && EventsLeft(s, q) < EventsLeft(s, p))
  }

  method OpenMember(s: Sources, p: Progress) returns (ok: bool, next: Progress)
    requires Reached(s, p) && p.open.None? && p.member < |s.members|
    ensures !ok ==> !Readable(s, |s.members|)
    ensures ok ==> Reached(s, next) && RowsSoFar(s, next) == RowsSoFar(s, p) && Closer(s, p, next)
  {
    var m := s.members[p.member];
    var loaded := s.load(m);
    next := p;
    if loaded.Failure? {
      assert !ReadableMember(s, m);
      return false, next;
    }
    assert loaded.value[..0] == [];
    next := p.(open := Some(loaded.value), at := 0, counts := Coverage(m, 0, 0, 0));
    ok := true;
  }

  method CloseMember(s: Sources, p: Progress) returns (next: Progress)
    requires Reached(s, p) && p.open.Some? && p.at == |p.open.value|
    requires p.at == |Positions(s.schemas[s.members[p.member]])|
    ensures Reached(s, next) && RowsSoFar(s, next) == RowsSoFar(s, p) && Closer(s, p, next)
  {
    ReadableNext(s, p.member);
    var m := s.members[p.member];
    assert p.open.value[..p.at] == p.open.value;
    assert ReadableMember(s, m);
    hide Holds, CoverageOf, AddStream, Positions;
    next := p.(member := p.member + 1, open := None, coverage := p.coverage + [p.counts]);
  }

  method TakeOne(s: Sources, p: Progress) returns (next: Progress)
    requires Reached(s, p) && p.open.Some? && p.at < |p.open.value|
    requires var expected := Positions(s.schemas[s.members[p.member]]);
             p.at < |expected| && At(p.open.value[p.at], expected[p.at])
    ensures Reached(s, next) && Closer(s, p, next)
    ensures var row := RowIn(p.open.value[p.at]);
            RowsSoFar(s, next) == RowsSoFar(s, p) + if row.Some? then [row.value] else []
  {
    hide Holds, AddEvent, CoverageOf, AddStream, ContentsOf, CoverageUpTo, Positions, RowsOf, Readable, CountEvent, At;
    var m, stream := s.members[p.member], p.open.value;
    ghost var c := ContentsOf(s, p.member);
    AddStreamNext(c, m, stream, p.at);
    CoverageNext(m, stream, p.at);
    RowsAfterEvent(AddStream(c, m, stream[..p.at]), m, stream[p.at]);
    var collected := TakeEvent(p.collected, AddStream(c, m, stream[..p.at]), m, stream[p.at]);
    next := p.(at := p.at + 1, counts := CountEvent(p.counts, stream[p.at]), collected := collected);
  }

  // ----- The generator -----

  datatype Pulled = Yielded(row: Row) | Exhausted | Raised(error: string)

  class RecordRows {
    const s: Sources
    var progress: Progress

    ghost predicate Valid()
      reads this
    {
      Reached(s, progress)
    }

    ghost function Rows(): seq<Row>
      reads this
      requires Valid()
    {
      RowsSoFar(s, progress)
    }

    constructor (s: Sources)
      requires ValidSources(s)
      ensures this.s == s && Valid() && Rows() == [] && progress == START
    {
      this.s, progress := s, START;
    }

    /** Runs to the next record row, filling the lists on the way, or to the end, or to the first mismatch. */
    method Next() returns (r: Pulled)
      requires Valid()
      modifies this
      ensures r.Raised? ==> !Readable(s, |s.members|)
      ensures !r.Raised? ==> Valid() && Rows() == old(Rows()) + if r.Yielded? then [r.row] else []
      ensures r.Yielded? ==> Closer(s, old(progress), progress)
      ensures r.Exhausted? ==> Finished(s, progress)
    {
      hide Reached, RowsSoFar, EventsLeft;
      while true
        invariant Valid() && Rows() == old(Rows())
        invariant progress == old(progress) || Closer(s, old(progress), progress)
        decreases |s.members| - progress.member, EventsLeft(s, progress)
      {
        PlacedInside(s, progress);
        if progress.open.None? {
          if progress.member == |s.members| { return Exhausted; }
          var ok, next := OpenMember(s, progress);
          if !ok { return Raised("unreadable member"); }
          progress := next;
        } else {
          var stream, expected := progress.open.value, Positions(s.schemas[s.members[progress.member]]);
          if progress.at == |stream| == |expected| {
            progress := CloseMember(s, progress);
          } else if progress.at == |stream| || progress.at == |expected|
            || !At(stream[progress.at], expected[progress.at]) {
            Uncovered(s, progress);
            return Raised("group event coverage mismatch");
          } else {
            var row := RowIn(stream[progress.at]);
            progress := TakeOne(s, progress);
            if row.Some? { return Yielded(row.value); }
          }
        }
      }
    }
  }

  lemma PlacedInside(s: Sources, p: Progress)
    requires Reached(s, p)
    ensures ValidSources(s) && p.member <= |s.members|
    ensures p.open.Some? ==>
              && p.member < |s.members| && s.members[p.member] in s.schemas
              && p.at <= |p.open.value| && p.at <= |Positions(s.schemas[s.members[p.member]])|
  {
  }

  /** The open stream and the schema do not match, so its member is unreadable. */
  lemma Uncovered(s: Sources, p: Progress)
    requires Reached(s, p) && p.open.Some?
    requires var stream, expected := p.open.value, Positions(s.schemas[s.members[p.member]]);
             if p.at < |stream| && p.at < |expected| then !At(stream[p.at], expected[p.at]) else |stream| != |expected|
    ensures !Readable(s, |s.members|)
  {
    assert !ReadableMember(s, s.members[p.member]);
  }
}
