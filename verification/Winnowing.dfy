/** What winnowing selects, apart from any way to compute it, for an arbitrary hash function. */
module Winnowing {
  // The hash is a parameter: nothing below needs more of it than that it is a function.
  import opened Basics

  const K := 8
  const WINDOW := 25
  const GUARANTEED_LENGTH := K + WINDOW - 1
  const TOKEN_BYTES := 40

  type Token = seq<byte>

  /** A digest is compared only for equality and order, so a number stands for its 32 bytes. */
  type Digest = nat

  /** The digest of the joined tokens of one shingle. */
  type ShingleHash = seq<Token> -> Digest

  datatype Fingerprint = Fingerprint(offset: int, digest: Digest)

  predicate ValidToken(t: Token) {
    |t| == TOKEN_BYTES
  }

  predicate ValidTokens(tokens: seq<Token>) {
    forall i | 0 <= i < |tokens| :: ValidToken(tokens[i])
  }

  // ----- What a fingerprint sequence is -----

  /** Digests of every contiguous shingle of `k` tokens, in order of offset. */
  function Digests(hash: ShingleHash, tokens: seq<Token>, k: nat): (d: seq<Digest>)
    requires k >= 1
    ensures |d| == Max(0, |tokens| - k + 1)
  {
    if |tokens| < k then []
    else Digests(hash, tokens[..|tokens| - 1], k) + [hash(tokens[|tokens| - k..])]
  }

  lemma {:induction false} DigestAt(hash: ShingleHash, tokens: seq<Token>, k: nat, i: nat)
    requires k >= 1 && i + k <= |tokens|
    ensures Digests(hash, tokens, k)[i] == hash(tokens[i..i + k])
  {
    if i + k < |tokens| {
      DigestAt(hash, tokens[..|tokens| - 1], k, i);
      assert tokens[..|tokens| - 1][i..i + k] == tokens[i..i + k];
    } else {
      assert tokens[i..i + k] == tokens[i..];
    }
  }

  /** `x` is the rightmost position of the minimum of `d[lo..hi]`. */
  predicate IsRightmostMin(d: seq<Digest>, lo: int, hi: int, x: int) {
    && 0 <= lo <= x < hi <= |d|
    && (forall i | lo <= i <= x :: d[x] <= d[i])
    && (forall i | x < i < hi :: d[x] < d[i])
  }

  /** `x` is selected by the full window that starts at `start`. */
  predicate Selects(d: seq<Digest>, window: int, start: int, x: int) {
    IsRightmostMin(d, start, start + window, x)
  }

  /** Offsets grow strictly, and every fingerprint carries the digest of its offset. */
  predicate Ordered(d: seq<Digest>, out: seq<Fingerprint>) {
    && (forall j | 0 <= j < |out| :: 0 <= out[j].offset < |d| && out[j].digest == d[out[j].offset])
    && (forall i, j | 0 <= i < j < |out| :: out[i].offset < out[j].offset)
  }

  /** Some full window of `d[..n]` selects `x`. */
  ghost predicate Selected(d: seq<Digest>, n: int, window: int, x: int) {
    exists start | start <= n - window :: Selects(d, window, start, x)
  }

  /** The selection of the window at `start` is in the output. */
  predicate Covers(d: seq<Digest>, window: int, start: int, out: seq<Fingerprint>) {
    exists j | 0 <= j < |out| :: Selects(d, window, start, out[j].offset)
  }

  /** `out` lists, in order and once each, exactly the positions that some full window of `d[..n]` selects. */
  ghost predicate WinnowedUpTo(d: seq<Digest>, n: int, window: int, out: seq<Fingerprint>) {
    && n <= |d|
    && Ordered(d, out)
    && (forall j | 0 <= j < |out| :: Selected(d, n, window, out[j].offset))
    && (forall start | 0 <= start <= n - window :: Covers(d, window, start, out))
  }

  ghost predicate Winnowed(d: seq<Digest>, window: int, out: seq<Fingerprint>) {
    WinnowedUpTo(d, |d|, window, out)
  }

  /** Winnowing of tokens, as the production code, the oracle and the index verifier all compute it. */
  ghost predicate WinnowedTokens(hash: ShingleHash, tokens: seq<Token>, k: int, window: int, out: seq<Fingerprint>)
    requires k >= 1
  {
    Winnowed(Digests(hash, tokens, k), window, out)
  }

  // ----- Facts about the selection -----

  /** The rightmost minimum, as `min(range(lo, hi), key=(digest, -index))` finds it. */
  function RightmostMin(d: seq<Digest>, lo: int, hi: int): (x: int)
    requires 0 <= lo < hi <= |d|
    ensures IsRightmostMin(d, lo, hi, x)
    decreases hi - lo
  {
    if hi == lo + 1 then lo
    else
      var x := RightmostMin(d, lo, hi - 1);
      if d[hi - 1] <= d[x] then hi - 1 else x
  }

  lemma SelectsUnique(d: seq<Digest>, window: int, start: int, x: int, y: int)
    requires Selects(d, window, start, x) && Selects(d, window, start, y)
    ensures x == y
  {
    var dx, dy := d[x], d[y];
  }

  /** Sliding the window right never moves the selection left. */
  lemma SelectionMovesRight(d: seq<Digest>, window: int, start: int, x: int, y: int)
    requires Selects(d, window, start, x) && Selects(d, window, start + 1, y)
    ensures x <= y
  {
    var dx, dy := d[x], d[y];
  }

  /** Every position in `a` occurs in `b`. */
  lemma Includes(d: seq<Digest>, window: int, a: seq<Fingerprint>, b: seq<Fingerprint>, i: nat) returns (j: nat)
    requires Winnowed(d, window, a) && Winnowed(d, window, b) && i < |a|
    ensures j < |b| && b[j] == a[i]
  {
    var selected := Selected(d, |d|, window, a[i].offset);
    var s :| s <= |d| - window && Selects(d, window, s, a[i].offset);
    var covered := Covers(d, window, s, b);
    var j0 :| 0 <= j0 < |b| && Selects(d, window, s, b[j0].offset);
    SelectsUnique(d, window, s, a[i].offset, b[j0].offset);
    j := j0;
  }

  lemma {:induction false} SharedPrefix(d: seq<Digest>, window: int, a: seq<Fingerprint>, b: seq<Fingerprint>, n: nat)
    requires Winnowed(d, window, a) && Winnowed(d, window, b) && n <= |a|
    ensures n <= |b| && forall m | 0 <= m < n :: a[m] == b[m]
  {
    if n > 0 {
      SharedPrefix(d, window, a, b, n - 1);
      var j := Includes(d, window, a, b, n - 1);
      var i := Includes(d, window, b, a, n - 1);
    }
  }

  /** Two winnowings of the same digests are the same sequence. */
  lemma WinnowedUnique(d: seq<Digest>, window: int, a: seq<Fingerprint>, b: seq<Fingerprint>)
    requires Winnowed(d, window, a) && Winnowed(d, window, b)
    ensures a == b
  {
    SharedPrefix(d, window, a, b, |a|);
    SharedPrefix(d, window, b, a, |b|);
  }

  // ----- The winnowing guarantee -----

  /** `n` equal consecutive tokens, at `a` on the left and `b` on the right. */
  predicate SharedRun(left: seq<Token>, right: seq<Token>, a: int, b: int, n: int) {
    && 0 <= a <= a + n <= |left|
    && 0 <= b <= b + n <= |right|
    && left[a..a + n] == right[b..b + n]
  }

  lemma RunSharesDigests(hash: ShingleHash, left: seq<Token>, right: seq<Token>, a: int, b: int, k: nat, n: int, i: int)
    requires k >= 1 && SharedRun(left, right, a, b, n) && 0 <= i <= n - k
    ensures 0 <= a + i < |Digests(hash, left, k)| && 0 <= b + i < |Digests(hash, right, k)|
    ensures Digests(hash, left, k)[a + i] == Digests(hash, right, k)[b + i]
  {
    SubrunSlice(left, a, n, i, k);
    SubrunSlice(right, b, n, i, k);
    DigestAt(hash, left, k, a + i);
    DigestAt(hash, right, k, b + i);
  }

  lemma SubrunSlice(s: seq<Token>, a: int, n: int, i: int, k: int)
    requires 0 <= a && 0 <= n && a + n <= |s| && 0 <= i <= i + k <= n
    ensures s[a..a + n][i..i + k] == s[a + i..a + i + k]
  {
    var whole, part := s[a..a + n], s[a + i..a + i + k];
    forall j | 0 <= j < k ensures whole[i..i + k][j] == part[j] {
      assert whole[i + j] == s[a + (i + j)];
    }
  }

  /** The whole run selects the same relative position on both sides, ties included. */
  lemma RunSelectsTogether(hash: ShingleHash, left: seq<Token>, right: seq<Token>, a: int, b: int, k: nat, window: nat,
                           x: int)
    requires k >= 1 && window >= 1 && SharedRun(left, right, a, b, k + window - 1)
    requires Selects(Digests(hash, left, k), window, a, x)
    ensures Selects(Digests(hash, right, k), window, b, x - a + b)
    ensures Digests(hash, left, k)[x] == Digests(hash, right, k)[x - a + b]
  {
    var dl, dr := Digests(hash, left, k), Digests(hash, right, k);
    var n := k + window - 1;
    forall i | b <= i < b + window
      ensures 0 <= i < |dr| && dr[i] == dl[i - b + a]
    {
      RunSharesDigests(hash, left, right, a, b, k, n, i - b);
    }
  }

  // Two token sequences that share any run of `k + window - 1` tokens both emit a fingerprint
  // with the same digest at the same relative position `at` inside that run.
  lemma WinnowingGuarantee(hash: ShingleHash, left: seq<Token>, right: seq<Token>, a: int, b: int, k: nat, window: nat,
                           fl: seq<Fingerprint>, fr: seq<Fingerprint>)
    returns (i: nat, j: nat)
    requires k >= 1 && window >= 1 && SharedRun(left, right, a, b, k + window - 1)
    requires WinnowedTokens(hash, left, k, window, fl) && WinnowedTokens(hash, right, k, window, fr)
    ensures i < |fl| && j < |fr|
    ensures fl[i].digest == fr[j].digest
    ensures fl[i].offset - a == fr[j].offset - b
    ensures 0 <= fl[i].offset - a < window
  {
    var dl, dr := Digests(hash, left, k), Digests(hash, right, k);
    assert Covers(dl, window, a, fl);
    var i0 :| 0 <= i0 < |fl| && Selects(dl, window, a, fl[i0].offset);
    var x := fl[i0].offset;
    RunSelectsTogether(hash, left, right, a, b, k, window, x);
    assert Covers(dr, window, b, fr);
    var j0 :| 0 <= j0 < |fr| && Selects(dr, window, b, fr[j0].offset);
    SelectsUnique(dr, window, b, x - a + b, fr[j0].offset);
    i, j := i0, j0;
  }

  /** What `DiskIndex.add` demands of a winnowing, for every stream of `rows` tokens. */
  lemma WinnowingIsIndexable(hash: ShingleHash, tokens: seq<Token>, k: nat, window: nat, out: seq<Fingerprint>)
    requires k >= 1 && window >= 1 && WinnowedTokens(hash, tokens, k, window, out)
    ensures forall j | 0 <= j < |out| :: 0 <= out[j].offset <= |tokens| - k
    ensures forall i, j | 0 <= i < j < |out| :: out[i].offset < out[j].offset
    ensures out == [] <==> |tokens| < k + window - 1
  {
    var d := Digests(hash, tokens, k);
    if |tokens| >= k + window - 1 {
      assert Covers(d, window, 0, out);
    } else if out != [] {
      assert Selected(d, |d|, window, out[0].offset);
    }
  }

  // ----- Bounded deques -----

  /** `deque(maxlen=bound).append(x)`. */
  function AppendBounded<T>(q: seq<T>, x: T, bound: nat): seq<T> {
    if |q| < bound then q + [x] else (q + [x])[1..]
  }

  /** A bounded deque fed from a stream always holds the last `bound` items. */
  lemma AppendBoundedKeepsTail<T>(s: seq<T>, n: nat, bound: nat)
    requires n < |s| && bound >= 1
    ensures AppendBounded(s[Max(0, n - bound)..n], s[n], bound) == s[Max(0, n + 1 - bound)..n + 1]
  {
  }

  // ----- Incremental selection: what a streaming loop keeps -----

  /** What the loops do with the selection of the window that ends at `n`: append it unless it was emitted last. */
  function Emit(d: seq<Digest>, out: seq<Fingerprint>, x: int): seq<Fingerprint>
    requires 0 <= x < |d|
  {
    if out != [] && out[|out| - 1].offset == x then out else out + [Fingerprint(x, d[x])]
  }

  /** Emitting the selection of the next window keeps the output exact. */
  lemma EmitNext(d: seq<Digest>, window: int, n: int, out: seq<Fingerprint>, x: int)
    requires 1 <= window <= n + 1 && n < |d|
    requires WinnowedUpTo(d, n, window, out)
    requires Selects(d, window, n - window + 1, x)
    ensures WinnowedUpTo(d, n + 1, window, Emit(d, out, x))
  {
    var next := Emit(d, out, x);
    if out != [] {
      LastSelection(d, n, window, out);
      SelectionMovesRight(d, window, n - window, out[|out| - 1].offset, x);
    }
    EmitCovers(d, window, n, out, x);
    assert Ordered(d, next);
    assert Selected(d, n + 1, window, x);
    forall j | 0 <= j < |next|
      ensures Selected(d, n + 1, window, next[j].offset)
    {
      if j < |out| { assert Selected(d, n, window, out[j].offset); }
    }
  }

  lemma EmitCovers(d: seq<Digest>, window: int, n: int, out: seq<Fingerprint>, x: int)
    requires Selects(d, window, n - window + 1, x)
    requires forall start | 0 <= start <= n - window :: Covers(d, window, start, out)
    ensures forall start | 0 <= start <= n + 1 - window :: Covers(d, window, start, Emit(d, out, x))
  {
    var next := Emit(d, out, x);
    assert next[|next| - 1].offset == x;
    forall start | 0 <= start <= n + 1 - window
      ensures Covers(d, window, start, next)
    {
      if start <= n - window {
        assert Covers(d, window, start, out);
        var j :| 0 <= j < |out| && Selects(d, window, start, out[j].offset);
        assert next[j] == out[j];
      }
    }
  }

  /** The selections of the windows of `d[..n]`, emitted one after the other. */
  function Selections(d: seq<Digest>, window: nat, n: nat): seq<Fingerprint>
    requires window >= 1 && n <= |d|
  {
    if n < window then []
    else Emit(d, Selections(d, window, n - 1), RightmostMin(d, n - window, n))
  }

  lemma {:induction false} SelectionsWinnow(d: seq<Digest>, window: nat, n: nat)
    requires window >= 1 && n <= |d|
    ensures WinnowedUpTo(d, n, window, Selections(d, window, n))
  {
    if n < window {
      NothingSelected(d, 0, n, window, []);
    } else {
      SelectionsWinnow(d, window, n - 1);
      EmitNext(d, window, n - 1, Selections(d, window, n - 1), RightmostMin(d, n - window, n));
    }
  }

  /** The last fingerprint is the selection of the last full window. */
  lemma LastSelection(d: seq<Digest>, n: int, window: int, out: seq<Fingerprint>)
    requires 1 <= window && WinnowedUpTo(d, n, window, out) && out != []
    ensures window <= n && Selects(d, window, n - window, out[|out| - 1].offset)
  {
    var last := out[|out| - 1].offset;
    assert Selected(d, n, window, last);
    var s :| s <= n - window && Selects(d, window, s, last);
    assert Covers(d, window, n - window, out);
    var j :| 0 <= j < |out| && Selects(d, window, n - window, out[j].offset);
    SelectionsMonotone(d, window, s, n - window, last, out[j].offset);
  }

  lemma {:induction false} SelectionsMonotone(d: seq<Digest>, window: int, s: int, t: int, x: int, y: int)
    requires s <= t && Selects(d, window, s, x) && Selects(d, window, t, y)
    ensures x <= y
    decreases t - s
  {
    if s == t {
      SelectsUnique(d, window, s, x, y);
    } else {
      var z := RightmostMin(d, s + 1, s + 1 + window);
      SelectionMovesRight(d, window, s, x, z);
      SelectionsMonotone(d, window, s + 1, t, z, y);
    }
  }

  /** Before the first full window there is nothing to emit. */
  lemma NothingSelected(d: seq<Digest>, n: int, m: int, window: int, out: seq<Fingerprint>)
    requires n <= m < window && m <= |d| && WinnowedUpTo(d, n, window, out)
    ensures WinnowedUpTo(d, m, window, out)
  {
  }

  // ----- The monotonic deque -----

  /** `x` is smaller than everything after it, up to `n`: what the deque keeps. */
  predicate SuffixMinimum(d: seq<Digest>, n: int, x: int) {
    0 <= x < n <= |d| && forall i | x < i < n :: d[x] < d[i]
  }

  /** The deque lists exactly the suffix minima of `d[lo..n]`, in order. */
  ghost predicate DequeHolds(d: seq<Digest>, lo: int, n: int, minima: seq<Fingerprint>) {
    && Ordered(d, minima)
    && (forall j | 0 <= j < |minima| :: lo <= minima[j].offset && SuffixMinimum(d, n, minima[j].offset))
    && (forall x | lo <= x < n && SuffixMinimum(d, n, x) :: Holds(minima, x))
  }

  predicate Holds(minima: seq<Fingerprint>, x: int) {
    exists j | 0 <= j < |minima| :: minima[j].offset == x
  }

  /** The front of the deque is the rightmost minimum. */
  lemma DequeFront(d: seq<Digest>, lo: int, n: int, minima: seq<Fingerprint>)
    requires 0 <= lo < n <= |d| && DequeHolds(d, lo, n, minima)
    ensures |minima| > 0 && IsRightmostMin(d, lo, n, minima[0].offset)
  {
    var m := RightmostMin(d, lo, n);
    assert SuffixMinimum(d, n, m);
    assert Holds(minima, m);
    assert SuffixMinimum(d, n, minima[0].offset);
  }

  /** Dropping the tail that is not below the newcomer, then appending it, keeps the deque exact. */
  lemma DequePush(d: seq<Digest>, lo: int, n: int, minima: seq<Fingerprint>, kept: seq<Fingerprint>)
    requires 0 <= lo <= n < |d| && DequeHolds(d, lo, n, minima)
    requires kept <= minima
    requires forall j | |kept| <= j < |minima| :: minima[j].digest >= d[n]
    requires kept != [] ==> kept[|kept| - 1].digest < d[n]
    ensures DequeHolds(d, lo, n + 1, kept + [Fingerprint(n, d[n])])
  {
    var next := kept + [Fingerprint(n, d[n])];
    forall j | 0 <= j < |kept|
      ensures SuffixMinimum(d, n + 1, kept[j].offset)
    {
      assert kept[j] == minima[j];
      assert kept[|kept| - 1] == minima[|kept| - 1];
      assert kept[j].digest <= kept[|kept| - 1].digest;
    }
    forall x | lo <= x < n + 1 && SuffixMinimum(d, n + 1, x)
      ensures Holds(next, x)
    {
      if x == n {
        assert next[|kept|].offset == x;
      } else {
        assert SuffixMinimum(d, n, x);
        assert Holds(minima, x);
        var j :| 0 <= j < |minima| && minima[j].offset == x;
        assert d[x] < d[n];
        assert next[j].offset == x;
      }
    }
  }

  /** Popping a front that is not the newest entry keeps the deque exact above it. */
  lemma DequeExpire(d: seq<Digest>, lo: int, n: int, minima: seq<Fingerprint>)
    requires 0 <= lo < n <= |d| && minima != [] && minima[0].offset + 1 < n && DequeHolds(d, lo, n, minima)
    ensures DequeHolds(d, minima[0].offset + 1, n, minima[1..]) && minima[1..] != []
  {
    var hi, rest := minima[0].offset + 1, minima[1..];
    forall x | hi <= x < n && SuffixMinimum(d, n, x)
      ensures Holds(rest, x)
    {
      assert Holds(minima, x);
      var j :| 0 <= j < |minima| && minima[j].offset == x;
      assert rest[j - 1].offset == x;
    }
    DequeFront(d, hi, n, rest);
  }

  /** A deque whose front already lies in the window is exact for that window. */
  lemma DequeTrim(d: seq<Digest>, lo: int, hi: int, n: int, minima: seq<Fingerprint>)
    requires 0 <= lo <= hi < n <= |d| && minima != [] && minima[0].offset >= hi && DequeHolds(d, lo, n, minima)
    ensures DequeHolds(d, hi, n, minima) && IsRightmostMin(d, hi, n, minima[0].offset)
  {
    DequeFront(d, hi, n, minima);
  }

  /** A bounded deque of consecutive fingerprints, the first of them at `start`. */
  predicate WindowsHold(d: seq<Digest>, start: int, windows: seq<Fingerprint>) {
    && 0 <= start <= start + |windows| <= |d|
    && forall i | 0 <= i < |windows| :: windows[i].offset == start + i && windows[i].digest == d[windows[i].offset]
  }

  lemma WindowsSlide(d: seq<Digest>, start: int, windows: seq<Fingerprint>, next: Fingerprint, bound: nat)
    requires WindowsHold(d, start, windows) && |windows| <= bound && bound >= 1
    requires next.offset == start + |windows| < |d| && next.digest == d[next.offset]
    ensures WindowsHold(d, if |windows| < bound then start else start + 1, AppendBounded(windows, next, bound))
  {
  }

  /** A minimum found in a copy of one window is the selection of that window. */
  lemma ShiftedMin(d: seq<Digest>, values: seq<Digest>, start: int, x: int)
    requires 0 <= start <= start + |values| <= |d| && values == d[start..start + |values|]
    requires IsRightmostMin(values, 0, |values|, x)
    ensures Selects(d, |values|, start, start + x)
  {
    forall i | start <= i < start + |values| ensures d[i] == values[i - start] {}
  }

  /** The fingerprints of a token sequence with the fixed parameters of the index. */
  function Fingerprints(hash: ShingleHash, tokens: seq<Token>): seq<Fingerprint> {
    Selections(Digests(hash, tokens, K), WINDOW, |Digests(hash, tokens, K)|)
  }

  lemma WinnowedIsFingerprints(hash: ShingleHash, tokens: seq<Token>, out: seq<Fingerprint>)
    ensures WinnowedTokens(hash, tokens, K, WINDOW, out) <==> out == Fingerprints(hash, tokens)
  {
    var d := Digests(hash, tokens, K);
    SelectionsWinnow(d, WINDOW, |d|);
    if WinnowedTokens(hash, tokens, K, WINDOW, out) {
      WinnowedUnique(d, WINDOW, out, Fingerprints(hash, tokens));
    }
  }

  /** The three fingerprinters are one function: whatever two of them return, the sequences are equal. */
  lemma FingerprintersAgree(hash: ShingleHash, tokens: seq<Token>, k: int, window: int, a: seq<Fingerprint>,
                            b: seq<Fingerprint>)
    requires k >= 1
    requires WinnowedTokens(hash, tokens, k, window, a) && WinnowedTokens(hash, tokens, k, window, b)
    ensures a == b
  {
    WinnowedUnique(Digests(hash, tokens, k), window, a, b);
  }
}
