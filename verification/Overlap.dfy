/** The fingerprinter of ren_overlap.py, its oracle, and the verifier of ren_overlap_pipeline.py. */
module Overlap {
  import opened Basics
  import opened Winnowing

  // ----- The production fingerprinter -----

  method Shingles(hash: ShingleHash, tokens: seq<Token>, k: int) returns (r: Result<seq<Fingerprint>>)
    ensures r.Failure? <==> k < 1 || !ValidTokens(tokens)
    ensures r.Success? ==> var d := Digests(hash, tokens, k);
              |r.value| == |d| && forall i | 0 <= i < |d| :: r.value[i] == Fingerprint(i, d[i])
  {
    if k < 1 { return Failure("invalid shingle length"); }
    ghost var d := Digests(hash, tokens, k);
    var recent: seq<Token>, out: seq<Fingerprint> := [], [];
    for offset := 0 to |tokens|
      invariant ValidTokens(tokens[..offset])
      invariant recent == tokens[Max(0, offset - k)..offset]
      invariant |out| == Max(0, offset - k + 1)
      invariant |out| <= |d| && forall i | 0 <= i < |out| :: out[i] == Fingerprint(i, d[i])
    {
      var token := tokens[offset];
      if !ValidToken(token) { return Failure("invalid canonical token"); }
      AppendBoundedKeepsTail(tokens, offset, k);
      recent := AppendBounded(recent, token, k);
      if |recent| == k {
        DigestAt(hash, tokens, k, offset - k + 1);
        out := out + [Fingerprint(offset - k + 1, hash(recent))];
      }
    }
    assert tokens[..|tokens|] == tokens;
    return Success(out);
  }

  /** Drop what the newcomer dominates, then append it. */
  method PushMinimum(before: seq<Fingerprint>, offset: int, digest: Digest, ghost lo: int, ghost d: seq<Digest>)
    returns (minima: seq<Fingerprint>)
    requires 0 <= lo <= offset < |d| && digest == d[offset]
    requires DequeHolds(d, lo, offset, before)
    ensures DequeHolds(d, lo, offset + 1, minima)
  {
    minima := before;
    while minima != [] && minima[|minima| - 1].digest >= digest
      invariant minima <= before
      invariant forall j | |minima| <= j < |before| :: before[j].digest >= digest
      decreases |minima|
    {
      minima := minima[..|minima| - 1];
    }
    DequePush(d, lo, offset, before, minima);
    minima := minima + [Fingerprint(offset, digest)];
  }

  /** Expire the front once it has left the window that starts at `hi`. */
  method ExpireFront(before: seq<Fingerprint>, offset: int, window: int, ghost lo: int, ghost hi: int,
                     ghost d: seq<Digest>)
    returns (minima: seq<Fingerprint>)
    requires 0 <= lo <= hi <= offset < |d| && hi == Max(0, offset + 1 - window)
    requires DequeHolds(d, lo, offset + 1, before)
    ensures DequeHolds(d, hi, offset + 1, minima)
    ensures minima != [] && 0 <= minima[0].offset < |d| && minima[0].digest == d[minima[0].offset]
    ensures offset >= window - 1 ==> Selects(d, window, offset - window + 1, minima[0].offset)
  {
    minima := before;
    ghost var from := lo;
    DequeFront(d, from, offset + 1, minima);
    while minima[0].offset <= offset - window
      invariant 0 <= from <= hi
      invariant DequeHolds(d, from, offset + 1, minima)
      invariant minima != []
      decreases |minima|
    {
      DequeExpire(d, from, offset + 1, minima);
      from, minima := minima[0].offset + 1, minima[1..];
    }
    DequeTrim(d, from, hi, offset + 1, minima);
  }

  /** The monotonic-deque fingerprinter. */
  method Winnow(hash: ShingleHash, tokens: seq<Token>, k: int, window: int) returns (r: Result<seq<Fingerprint>>)
    ensures r.Failure? <==> window < 1 || k < 1 || !ValidTokens(tokens)
    ensures r.Success? ==> WinnowedTokens(hash, tokens, k, window, r.value)
  {
    if window < 1 { return Failure("invalid fingerprint window"); }
    var shingles := Shingles(hash, tokens, k);
    if shingles.Failure? { return Failure(shingles.error); }
    var out := SelectMinima(shingles.value, window, Digests(hash, tokens, k));
    return Success(out);
  }

  /** Emit the selection of the window that ends at `n`, unless it is the last one emitted. */
  method EmitUnlessLast(chosen: Fingerprint, before: seq<Fingerprint>, ghost window: int, ghost n: int,
                        ghost d: seq<Digest>)
    returns (out: seq<Fingerprint>)
    requires 1 <= window <= n + 1 && n < |d| && WinnowedUpTo(d, n, window, before)
    requires Selects(d, window, n - window + 1, chosen.offset) && chosen.digest == d[chosen.offset]
    ensures WinnowedUpTo(d, n + 1, window, out)
  {
    EmitNext(d, window, n, before, chosen.offset);
    var emitted := if before == [] then -1 else before[|before| - 1].offset;
    out := if chosen.offset != emitted then before + [chosen] else before;
  }

  /** The loop of `winnow` over the stream of shingles. */
  method SelectMinima(shingles: seq<Fingerprint>, window: int, ghost d: seq<Digest>) returns (out: seq<Fingerprint>)
    requires window >= 1
    requires |shingles| == |d| && forall i | 0 <= i < |d| :: shingles[i] == Fingerprint(i, d[i])
    ensures Winnowed(d, window, out)
  {
    var minima: seq<Fingerprint> := [];
    out := [];
    for offset := 0 to |shingles|
      invariant DequeHolds(d, Max(0, offset - window), offset, minima)
      invariant WinnowedUpTo(d, offset, window, out)
    {
      minima := PushMinimum(minima, offset, shingles[offset].digest, Max(0, offset - window), d);
      minima := ExpireFront(minima, offset, window, Max(0, offset - window), Max(0, offset + 1 - window), d);
      if offset >= window - 1 {
        out := EmitUnlessLast(minima[0], out, window, offset, d);
      } else {
        NothingSelected(d, offset, offset + 1, window, out);
      }
    }
  }

  // ----- The two independent fingerprinters -----

  /** The small oracle: all digests first, then one minimum per window. */
  method ReferenceWinnow(hash: ShingleHash, tokens: seq<Token>, k: int, window: int)
    returns (r: Result<seq<Fingerprint>>)
    ensures r.Failure? <==> window < 1 || k < 1 || !ValidTokens(tokens)
    ensures r.Success? ==> WinnowedTokens(hash, tokens, k, window, r.value)
  {
    if k < 1 || window < 1 { return Failure("invalid fingerprint parameters"); }
    if !ValidTokens(tokens) { return Failure("invalid canonical token"); }
    var d := Digests(hash, tokens, k);
    var result: seq<Fingerprint> := [];
    NothingSelected(d, 0, Min(|d|, window - 1), window, result);
    for start := 0 to Max(0, |d| - window + 1)
      invariant WinnowedUpTo(d, Min(|d|, start + window - 1), window, result)
    {
      var index := RightmostMin(d, start, start + window);
      EmitNext(d, window, start + window - 1, result, index);
      if result == [] || result[|result| - 1].offset != index {
        result := result + [Fingerprint(index, d[index])];
      }
    }
    return Success(result);
  }

  /** `min(windows, key=(digest, -position))` over one full bounded deque. */
  method WindowMinimum(windows: seq<Fingerprint>, ghost start: nat, ghost d: seq<Digest>) returns (chosen: Fingerprint)
    requires windows != [] && WindowsHold(d, start, windows)
    ensures Selects(d, |windows|, start, chosen.offset) && chosen.digest == d[chosen.offset]
  {
    var values := seq(|windows|, i requires 0 <= i < |windows| => windows[i].digest);
    var least := RightmostMin(values, 0, |values|);
    chosen := windows[least];
    ShiftedMin(d, values, start, least);
  }

  /** The bounded second pass over the spool: two bounded deques and a plain window minimum. */
  method ReferenceFingerprints(hash: ShingleHash, tokens: seq<Token>) returns (out: seq<Fingerprint>)
    ensures WinnowedTokens(hash, tokens, K, WINDOW, out)
  {
    ghost var d := Digests(hash, tokens, K);
    var recent: seq<Token>, windows: seq<Fingerprint> := [], [];
    out := [];
    assert WindowsHold(d, 0, []) && WinnowedUpTo(d, 0, WINDOW, []);
    hide Digests, WindowsHold, WinnowedUpTo, Selects;
    for row := 0 to |tokens|
      invariant recent == tokens[Max(0, row - K)..row]
      invariant |windows| == Min(Max(0, row - K + 1), WINDOW)
      invariant WindowsHold(d, Max(0, row - K + 1) - |windows|, windows)
      invariant WinnowedUpTo(d, Max(0, row - K + 1), WINDOW, out)
    {
      AppendBoundedKeepsTail(tokens, row, K);
      recent := AppendBounded(recent, tokens[row], K);
      if |recent| != K { continue; }
      var position := row - K + 1;
      DigestAt(hash, tokens, K, position);
      var next := Fingerprint(position, hash(recent));
      WindowsSlide(d, position - |windows|, windows, next, WINDOW);
      windows := AppendBounded(windows, next, WINDOW);
      if |windows| == WINDOW {
        var chosen := WindowMinimum(windows, position - WINDOW + 1, d);
        out := EmitUnlessLast(chosen, out, WINDOW, position, d);
      } else {
        NothingSelected(d, position, position + 1, WINDOW, out);
      }
    }
  }

  // ----- Exact confirmation of two finite projections -----

  /** The element at which `ConfirmProjection` stops is reached only through equal valid tokens. */
  predicate ReachesInvalid(left: seq<Token>, right: seq<Token>, n: int) {
    && 0 <= n < |left| && n < |right|
    && left[..n] == right[..n]
    && (!ValidToken(left[n]) || !ValidToken(right[n]))
  }

  method ConfirmProjection(left: seq<Token>, right: seq<Token>, minimum: int) returns (r: Result<bool>)
    ensures r.Failure? <==> minimum < 1 || exists n :: ReachesInvalid(left, right, n)
    ensures r.Success? ==> (r.value <==> left == right && |left| >= minimum)
  {
    if minimum < 1 { return Failure("invalid minimum"); }
    var count := 0;
    while count < |left| || count < |right|
      invariant 0 <= count <= |left| && count <= |right|
      invariant left[..count] == right[..count] && ValidTokens(left[..count])
      decreases |left| + |right| - count
    {
      if count >= |left| || count >= |right| {
        StopsCleanly(left, right, count);
        return Success(false);
      }
      var a, b := left[count], right[count];
      if !ValidToken(a) || !ValidToken(b) {
        assert ReachesInvalid(left, right, count);
        return Failure("invalid canonical token");
      }
      if a != b {
        StopsCleanly(left, right, count);
        return Success(false);
      }
      assert left[..count + 1] == left[..count] + [a];
      assert right[..count + 1] == right[..count] + [b];
      count := count + 1;
    }
    assert left == left[..count] && right == right[..count];
    StopsCleanly(left, right, count);
    return Success(count >= minimum);
  }

  lemma StopsCleanly(left: seq<Token>, right: seq<Token>, count: int)
    requires 0 <= count <= |left| && count <= |right|
    requires left[..count] == right[..count] && ValidTokens(left[..count])
    requires count == |left| || count == |right|
             || (left[count] != right[count] && ValidToken(left[count]) && ValidToken(right[count]))
    ensures !exists n :: ReachesInvalid(left, right, n)
  {
    forall n | 0 <= n < |left| && n < |right|
      ensures !ReachesInvalid(left, right, n)
    {
      if n < count {
        assert left[..count][n] == left[n] && right[..count][n] == right[n];
      } else if n > count {
        assert left[..n][count] == left[count] && right[..n][count] == right[count];
      }
    }
  }
}
