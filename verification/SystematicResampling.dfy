// `_systematic_resample` of sn1_synthetic_models.py: evenly spaced positions looked up in the cumulative weights.
// Every index is drawn a number of times next to its expected number, whatever the random offset is, and in order.
module SystematicResampling {
  import opened Basics

  /** The sum of the first `n` weights. */
  function Sum(w: seq<real>, n: nat): real
    requires n <= |w|
  {
    if n == 0 then 0.0 else Sum(w, n - 1) + w[n - 1]
  }

  /** Weights that are not negative and sum to one. */
  predicate Weights(w: seq<real>) {
    && w != [] && (forall i | 0 <= i < |w| :: w[i] >= 0.0)
    && Sum(w, |w|) == 1.0
  }

  /** `np.cumsum(weights)` with its last entry set to one. */
  function Cumulative(w: seq<real>): (c: seq<real>)
    ensures |c| == |w|
  {
    seq(|w|, i requires 0 <= i < |w| => if i == |w| - 1 then 1.0 else Sum(w, i + 1))
  }

  /** `np.searchsorted(c, x, side="right")`: where the first entry above `x` is. */
  function SearchRight(c: seq<real>, x: real): (i: nat)
    ensures i <= |c| && (forall j | 0 <= j < i :: c[j] <= x) && (i < |c| ==> c[i] > x)
  {
    if c == [] || c[0] > x then 0 else 1 + SearchRight(c[1..], x)
  }

  function PositionAt(u: real, k: nat, n: nat): real
    requires n > 0
  {
    (u + k as real) / n as real
  }

  function Resample(w: seq<real>, u: real): (picks: seq<nat>)
    requires w != []
    ensures |picks| == |w|
  {
    seq(|w|, k requires 0 <= k < |w| => SearchRight(Cumulative(w), PositionAt(u, k, |w|)))
  }

  // ----- Range and order -----

  lemma {:induction false} SumGrows(w: seq<real>, m: nat, n: nat)
    requires m <= n <= |w| && forall i | 0 <= i < |w| :: w[i] >= 0.0
    ensures Sum(w, m) <= Sum(w, n)
  {
    if m < n { SumGrows(w, m, n - 1); }
  }

  /** `i` is picked exactly for positions between the sums before and after weight `i`. */
  lemma PickedBetween(w: seq<real>, x: real, i: nat)
    requires Weights(w) && 0.0 <= x < 1.0 && i < |w|
    ensures SearchRight(Cumulative(w), x) == i <==> Sum(w, i) <= x < Sum(w, i + 1)
    ensures SearchRight(Cumulative(w), x) < |w|
  {
    var c, at := Cumulative(w), SearchRight(Cumulative(w), x);
    assert forall j | 0 <= j < |w| :: c[j] == Sum(w, j + 1);
    assert c[|w| - 1] == 1.0;
    if at < i {
      SumGrows(w, at + 1, i);
    } else if i < at {
      assert c[i] <= x;
    } else if i > 0 {
      assert c[i - 1] <= x;
    }
  }

  lemma PositionsAreInside(u: real, k: nat, n: nat)
    requires 0.0 <= u < 1.0 && k < n
    ensures 0.0 <= PositionAt(u, k, n) < 1.0
  {
    var x, m := PositionAt(u, k, n), n as real;
    assert x * m == u + k as real;
    assert k as real <= m - 1.0;
    assert x < 0.0 ==> x * m < 0.0;
    assert x >= 1.0 ==> x * m >= m;
  }

  lemma PositionsRise(u: real, j: nat, k: nat, n: nat)
    requires j <= k && n > 0
    ensures PositionAt(u, j, n) <= PositionAt(u, k, n)
  {
    var x, y, m := PositionAt(u, j, n), PositionAt(u, k, n), n as real;
    assert x * m == u + j as real && y * m == u + k as real;
    assert x > y ==> x * m > y * m;
  }

  /** A later position is found no earlier. */
  lemma {:induction false} SearchRises(c: seq<real>, x: real, y: real)
    requires x <= y
    ensures SearchRight(c, x) <= SearchRight(c, y)
  {
    if c != [] && c[0] <= x { SearchRises(c[1..], x, y); }
  }

  /** Every pick is an index, and the picks never go back. */
  lemma PicksAreOrdered(w: seq<real>, u: real)
    requires Weights(w) && 0.0 <= u < 1.0
    ensures forall k | 0 <= k < |w| :: Resample(w, u)[k] < |w|
    ensures forall j, k | 0 <= j < k < |w| :: Resample(w, u)[j] <= Resample(w, u)[k]
  {
    var picks, n := Resample(w, u), |w|;
    forall k | 0 <= k < n ensures picks[k] < n {
      PositionsAreInside(u, k, n);
      PickedBetween(w, PositionAt(u, k, n), 0);
    }
    forall j, k | 0 <= j < k < n ensures picks[j] <= picks[k] {
      PositionsRise(u, j, k, n);
      SearchRises(Cumulative(w), PositionAt(u, j, n), PositionAt(u, k, n));
    }
  }

  // ----- Counts -----

  function Ceiling(x: real): int {
    -(-x).Floor
  }

  /** An integer is at least a real exactly when it is at least its ceiling. */
  lemma CeilingIsLeast(x: real, k: int)
    ensures x <= k as real <==> Ceiling(x) <= k
  {
  }

  /** The sum before weight `i`, in units of positions. */
  function Mark(w: seq<real>, i: nat): real
    requires i <= |w|
  {
    |w| as real * Sum(w, i)
  }

  /** How many picks weight `i` deserves. */
  function Expected(w: seq<real>, i: nat): real
    requires i < |w|
  {
    |w| as real * w[i]
  }

  lemma MarkNext(w: seq<real>, i: nat)
    requires i < |w|
    ensures Mark(w, i + 1) == Mark(w, i) + Expected(w, i)
  {
    Distribute(|w| as real, Sum(w, i), w[i]);
  }

  lemma Distribute(n: real, a: real, b: real)
    ensures n * (a + b) == n * a + n * b
  {
  }

  lemma ScaleBounds(n: real, s: real)
    requires n > 0.0 && 0.0 <= s <= 1.0
    ensures 0.0 <= n * s <= n
  {
  }

  lemma MarkIsInside(w: seq<real>, i: nat)
    requires Weights(w) && i <= |w|
    ensures 0.0 <= Mark(w, i) <= |w| as real
  {
    SumGrows(w, 0, i);
    SumGrows(w, i, |w|);
    ScaleBounds(|w| as real, Sum(w, i));
  }

  lemma ExpectedIsNonnegative(w: seq<real>, i: nat)
    requires Weights(w) && i < |w|
    ensures Expected(w, i) >= 0.0
  {
    var n, x := |w| as real, w[i];
    assert n * x >= 0.0;
  }

  /** The first position index whose position reaches the sum before weight `i`. */
  function FirstAt(w: seq<real>, u: real, i: nat): int
    requires i <= |w|
  {
    Ceiling(Mark(w, i) - u)
  }

  lemma ScaleCompares(s: real, x: real, n: real)
    requires n > 0.0
    ensures s <= x <==> n * s <= n * x
  {
    if s <= x { assert n * (x - s) >= 0.0; } else { assert n * (s - x) > 0.0; }
  }

  lemma PositionScales(u: real, k: nat, n: nat)
    requires n > 0
    ensures n as real * PositionAt(u, k, n) == u + k as real
  {
  }

  lemma ReachesSum(w: seq<real>, u: real, i: nat, k: nat)
    requires w != [] && i <= |w|
    ensures Sum(w, i) <= PositionAt(u, k, |w|) <==> FirstAt(w, u, i) <= k
  {
    ScaleCompares(Sum(w, i), PositionAt(u, k, |w|), |w| as real);
    PositionScales(u, k, |w|);
    assert Mark(w, i) == |w| as real * Sum(w, i);
    CeilingIsLeast(Mark(w, i) - u, k);
    hide Mark, Sum, PositionAt, Ceiling;
  }

  lemma {:induction false} CountInterval(picks: seq<nat>, i: nat, lo: nat, hi: nat)
    requires lo <= hi <= |picks|
    requires forall k | 0 <= k < |picks| :: picks[k] == i <==> lo <= k < hi
    ensures CountIf(picks, x => x == i) == hi - lo
  {
    if picks != [] {
      var init := picks[..|picks| - 1];
      if hi == |picks| && lo < hi {
        CountInterval(init, i, lo, hi - 1);
      } else if hi == |picks| {
        CountInterval(init, i, lo - 1, hi - 1);
      } else {
        CountInterval(init, i, lo, hi);
      }
    }
  }

  lemma CeilingInside(x: real, n: nat)
    requires -1.0 < x <= n as real
    ensures 0 <= Ceiling(x) <= n
  {
    CeilingIsLeast(x, -1);
    CeilingIsLeast(x, n);
    hide Ceiling;
  }

  lemma CeilingDifference(a: real, d: real)
    ensures d.Floor <= Ceiling(a + d) - Ceiling(a) <= Ceiling(d) <= d.Floor + 1
  {
  }

  lemma FirstIsInside(w: seq<real>, u: real, i: nat)
    requires Weights(w) && 0.0 <= u < 1.0 && i <= |w|
    ensures 0 <= FirstAt(w, u, i) <= |w|
  {
    MarkIsInside(w, i);
    hide Mark, Ceiling;
    CeilingInside(Mark(w, i) - u, |w|);
  }

  lemma FirstAdvances(w: seq<real>, u: real, i: nat)
    requires i < |w|
    ensures Expected(w, i).Floor <= FirstAt(w, u, i + 1) - FirstAt(w, u, i) <= Ceiling(Expected(w, i))
    ensures Ceiling(Expected(w, i)) <= Expected(w, i).Floor + 1
  {
    MarkNext(w, i);
    hide Mark, Expected, Ceiling;
    CeilingDifference(Mark(w, i) - u, Expected(w, i));
    assert Mark(w, i + 1) - u == (Mark(w, i) - u) + Expected(w, i);
  }

  /** How often `i` is picked, exactly. */
  lemma PickCount(w: seq<real>, u: real, i: nat)
    requires Weights(w) && 0.0 <= u < 1.0 && i < |w|
    ensures CountIf(Resample(w, u), x => x == i) == FirstAt(w, u, i + 1) - FirstAt(w, u, i)
  {
    var picks, lo, hi := Resample(w, u), FirstAt(w, u, i), FirstAt(w, u, i + 1);
    FirstIsInside(w, u, i);
    FirstIsInside(w, u, i + 1);
    FirstAdvances(w, u, i);
    ExpectedIsNonnegative(w, i);
    hide FirstAt, Ceiling, Expected;
    forall k | 0 <= k < |picks| ensures picks[k] == i <==> lo <= k < hi {
      PositionsAreInside(u, k, |w|);
      PickedBetween(w, PositionAt(u, k, |w|), i);
      ReachesSum(w, u, i, k);
      ReachesSum(w, u, i + 1, k);
    }
    CountInterval(picks, i, lo, hi);
  }

  /** Systematic resampling is fair: index `i` is picked its expected number of times, rounded down or up. */
  lemma ResamplingIsFair(w: seq<real>, u: real, i: nat)
    requires Weights(w) && 0.0 <= u < 1.0 && i < |w|
    ensures var count := CountIf(Resample(w, u), x => x == i);
            count == Expected(w, i).Floor || count == Ceiling(Expected(w, i))
  {
    PickCount(w, u, i);
    FirstAdvances(w, u, i);
    hide *;
  }
}
