/** `holm_rejections` of design_simulation.py, against closed testing by Bonferroni intersection tests. */
module HolmTesting {
  // Closed testing rejects a hypothesis when every intersection hypothesis that contains it is rejected
  // by its Bonferroni test.
  import opened Basics

  function AllIndices(n: nat): (s: set<nat>)
    ensures |s| == n && forall i: nat :: i in s <==> i < n
  {
    if n == 0 then {} else AllIndices(n - 1) + {n - 1}
  }

  /** The Bonferroni test of the intersection over `s`: some p-value is at most alpha over the size. */
  ghost predicate Bonferroni(p: seq<real>, alpha: real, s: set<nat>) {
    |s| > 0 && exists j: nat :: j in s && j < |p| && p[j] <= alpha / |s| as real
  }

  ghost predicate ClosedRejects(p: seq<real>, alpha: real, i: nat) {
    forall s: set<nat> | i in s && s <= AllIndices(|p|) :: Bonferroni(p, alpha, s)
  }

  /** An order of the indices that sorts the p-values; ties may stand in any order. */
  ghost predicate Sorts(p: seq<real>, order: seq<nat>) {
    && |order| == |p|
    && (forall r | 0 <= r < |order| :: order[r] < |p|)
    && (forall r, t | 0 <= r < t < |order| :: order[r] != order[t] && p[order[r]] <= p[order[t]])
  }

  /** The test at one rank passes. */
  predicate Passes(p: seq<real>, alpha: real, order: seq<nat>, r: nat)
    requires r < |order| == |p| && order[r] < |p|
  {
    p[order[r]] <= alpha / (|p| - r) as real
  }

  /** The step-down reaches rank `r` and rejects there. */
  ghost predicate Reaches(p: seq<real>, alpha: real, order: seq<nat>, r: nat)
    requires Sorts(p, order)
  {
    r < |order| && forall k: nat | k <= r :: Passes(p, alpha, order, k)
  }

  // ----- Ranks and tails -----

  ghost function Rank(p: seq<real>, order: seq<nat>, i: nat): (r: nat)
    requires Sorts(p, order) && i < |p|
    ensures r < |order| && order[r] == i
  {
    OrderCoversAll(p, order, i);
    var r: nat :| r < |order| && order[r] == i;
    r
  }

  /** The indices at ranks `from` and later. */
  function TailSet(order: seq<nat>, from: nat): set<nat>
    requires from <= |order|
  {
    set r | from <= r < |order| :: order[r]
  }

  lemma {:induction false} TailSize(order: seq<nat>, from: nat)
    requires from <= |order| && forall r, t | 0 <= r < t < |order| :: order[r] != order[t]
    ensures |TailSet(order, from)| == |order| - from
    decreases |order| - from
  {
    if from == |order| {
      assert TailSet(order, from) == {};
    } else {
      TailSize(order, from + 1);
      assert TailSet(order, from) == {order[from]} + TailSet(order, from + 1);
    }
  }

  lemma SubsetSize(a: set<nat>, b: set<nat>)
    requires a <= b
    ensures |a| <= |b| && (|a| == |b| ==> a == b)
  {
    assert b == a + (b - a) && |b| == |a| + |b - a|;
  }

  lemma OrderCoversAll(p: seq<real>, order: seq<nat>, i: nat)
    requires Sorts(p, order) && i < |p|
    ensures exists r: nat :: r < |order| && order[r] == i
  {
    TailSize(order, 0);
    SubsetSize(TailSet(order, 0), AllIndices(|p|));
    assert i in TailSet(order, 0);
  }

  // ----- Holm is closed testing, for a nonnegative level -----

  lemma QuotientTest(x: real, alpha: real, m: real)
    requires m > 0.0
    ensures x <= alpha / m <==> x * m <= alpha
  {
    assert alpha / m * m == alpha;
    if x <= alpha / m { assert x * m <= alpha / m * m; }
    if x * m <= alpha { assert x * m / m <= alpha / m; assert x * m / m == x; }
  }

  /** A smaller divisor leaves a larger threshold, when the level is not negative. */
  lemma ThresholdGrows(alpha: real, m: real, n: real)
    requires 0.0 < m <= n && alpha >= 0.0
    ensures alpha / n <= alpha / m
  {
    var t := alpha / n;
    assert t * n == alpha;
    assert t < 0.0 ==> t * n < 0.0;
    assert t * m <= t * n;
    QuotientTest(t, alpha, m);
  }

  /** The least rank of a nonempty set of indices. */
  lemma {:induction false} LeastRank(p: seq<real>, order: seq<nat>, s: set<nat>, r: nat) returns (k: nat)
    requires Sorts(p, order) && r < |order| && order[r] in s && s <= AllIndices(|p|)
    ensures k <= r && order[k] in s && s <= TailSet(order, k)
  {
    k := 0;
    while order[k] !in s
      invariant k <= r && forall j | 0 <= j < k :: order[j] !in s
      decreases r - k
    {
      k := k + 1;
    }
    forall i | i in s ensures i in TailSet(order, k) {
      OrderCoversAll(p, order, i);
    }
  }

  lemma SetIsTested(p: seq<real>, alpha: real, order: seq<nat>, r: nat, s: set<nat>)
    requires Sorts(p, order) && alpha >= 0.0 && Reaches(p, alpha, order, r)
    requires order[r] in s && s <= AllIndices(|p|)
    ensures Bonferroni(p, alpha, s)
  {
    var k := LeastRank(p, order, s, r);
    TailSize(order, k);
    SubsetSize(s, TailSet(order, k));
    assert s != {};
    assert Passes(p, alpha, order, k);
    ThresholdGrows(alpha, |s| as real, (|p| - k) as real);
    assert order[k] in s && p[order[k]] <= alpha / |s| as real;
  }

  lemma ReachedIsClosed(p: seq<real>, alpha: real, order: seq<nat>, r: nat)
    requires Sorts(p, order) && alpha >= 0.0 && r < |order| && Reaches(p, alpha, order, r)
    ensures ClosedRejects(p, alpha, order[r])
  {
    hide Bonferroni, Reaches;
    forall s: set<nat> | order[r] in s && s <= AllIndices(|p|)
      ensures Bonferroni(p, alpha, s)
    {
      SetIsTested(p, alpha, order, r, s);
    }
  }

  lemma UnreachedIsNotClosed(p: seq<real>, alpha: real, order: seq<nat>, k: nat, r: nat)
    requires Sorts(p, order) && k <= r < |order| && !Passes(p, alpha, order, k)
    ensures !ClosedRejects(p, alpha, order[r])
  {
    var s := TailSet(order, k);
    TailSize(order, k);
    assert order[r] in s && s <= AllIndices(|p|);
    assert !Bonferroni(p, alpha, s);
  }

  /** Step-down and closed testing reject the same hypotheses, whatever the order of ties. */
  lemma HolmIsClosed(p: seq<real>, alpha: real, order: seq<nat>, r: nat)
    requires Sorts(p, order) && alpha >= 0.0 && r < |order|
    ensures Reaches(p, alpha, order, r) <==> ClosedRejects(p, alpha, order[r])
  {
    if Reaches(p, alpha, order, r) {
      ReachedIsClosed(p, alpha, order, r);
    } else {
      var k: nat :| k <= r && !Passes(p, alpha, order, k);
      UnreachedIsNotClosed(p, alpha, order, k, r);
    }
  }

  // ----- A negative level -----

  /** The indices whose p-values lie above the level. */
  function AboveSet(p: seq<real>, alpha: real): set<nat> {
    set i: nat | i < |p| && p[i] > alpha
  }

  // No p-value lies above a negative level but within the threshold that the step-down grants it.
  // With `alpha >= 0` nothing is asked of the p-values.
  predicate Unambiguous(p: seq<real>, alpha: real) {
    var above := AboveSet(p, alpha);
    alpha >= 0.0 || above == {} || forall i | i in above :: p[i] > alpha / |above| as real
  }

  lemma NegativeThreshold(alpha: real, m: nat)
    requires alpha < 0.0 && m > 0
    ensures alpha <= alpha / m as real
  {
    assert alpha * m as real <= alpha;
    QuotientTest(alpha, alpha, m as real);
  }

  /** Below zero, closed testing keeps only the p-values that meet the whole level alone. */
  lemma NegativeClosed(p: seq<real>, alpha: real, i: nat)
    requires alpha < 0.0 && i < |p|
    ensures ClosedRejects(p, alpha, i) <==> p[i] <= alpha
  {
    if ClosedRejects(p, alpha, i) {
      assert Bonferroni(p, alpha, {i});
      assert alpha / 1.0 == alpha;
    }
    if p[i] <= alpha {
      forall s: set<nat> | i in s && s <= AllIndices(|p|) ensures Bonferroni(p, alpha, s) {
        assert s != {};
        NegativeThreshold(alpha, |s|);
        assert i in s && p[i] <= alpha / |s| as real;
      }
    }
  }

  /** The ranks split where the sorted p-values pass the level, and the upper part is the set above it. */
  lemma SplitRank(p: seq<real>, alpha: real, order: seq<nat>) returns (c: nat)
    requires Sorts(p, order)
    ensures c <= |order| && |AboveSet(p, alpha)| == |order| - c && AboveSet(p, alpha) == TailSet(order, c)
    ensures forall r | 0 <= r < |order| :: p[order[r]] > alpha <==> r >= c
  {
    c := 0;
    while c < |order| && p[order[c]] <= alpha
      invariant c <= |order| && forall r | 0 <= r < c :: p[order[r]] <= alpha
    {
      c := c + 1;
    }
    forall r | c <= r < |order| ensures p[order[r]] > alpha {
      assert r > c ==> p[order[c]] <= p[order[r]];
    }
    forall i: nat ensures i in AboveSet(p, alpha) <==> i in TailSet(order, c) {
      if i < |p| { OrderCoversAll(p, order, i); }
    }
    assert AboveSet(p, alpha) == TailSet(order, c);
    TailSize(order, c);
  }

  ghost predicate AgreesAt(p: seq<real>, alpha: real, order: seq<nat>, r: nat)
    requires Sorts(p, order) && r < |order|
  {
    Reaches(p, alpha, order, r) <==> ClosedRejects(p, alpha, order[r])
  }

  lemma NegativeRank(p: seq<real>, alpha: real, order: seq<nat>, c: nat, r: nat)
    requires Sorts(p, order) && alpha < 0.0 && c <= |order| && r < |order|
    requires forall t | 0 <= t < |order| :: p[order[t]] > alpha <==> t >= c
    ensures AgreesAt(p, alpha, order, r) <==> r < c || !Reaches(p, alpha, order, r)
    ensures r < c ==> Reaches(p, alpha, order, r)
    ensures r >= c && Reaches(p, alpha, order, r) ==> Passes(p, alpha, order, c)
    ensures r == c && Passes(p, alpha, order, c) ==> Reaches(p, alpha, order, r)
  {
    NegativeClosed(p, alpha, order[r]);
    hide ClosedRejects;
    forall k: nat | k <= r && k < c ensures Passes(p, alpha, order, k) {
      NegativeThreshold(alpha, |p| - k);
    }
  }

  // Exactly when the step-down is closed testing: always for a nonnegative level, and for a negative one
  // as long as no p-value lies between the level and its share.
  lemma HolmIsClosedTesting(p: seq<real>, alpha: real, order: seq<nat>)
    requires Sorts(p, order)
    ensures (forall r: nat | r < |order| :: AgreesAt(p, alpha, order, r)) <==> Unambiguous(p, alpha)
  {
    hide Reaches, ClosedRejects, Passes;
    if alpha >= 0.0 {
      forall r: nat | r < |order| ensures AgreesAt(p, alpha, order, r) {
        HolmIsClosed(p, alpha, order, r);
      }
    } else {
      var c := SplitRank(p, alpha, order);
      forall r: nat | r < |order|
        ensures AgreesAt(p, alpha, order, r) <==> r < c || !Reaches(p, alpha, order, r)
        ensures r >= c && Reaches(p, alpha, order, r) ==> Passes(p, alpha, order, c)
        ensures r == c && Passes(p, alpha, order, c) ==> Reaches(p, alpha, order, r)
      {
        NegativeRank(p, alpha, order, c, r);
      }
      assert c < |order| ==> (AgreesAt(p, alpha, order, c) <==> !Passes(p, alpha, order, c));
      SplitIsUnambiguous(p, alpha, order, c);
    }
  }

  lemma SplitIsUnambiguous(p: seq<real>, alpha: real, order: seq<nat>, c: nat)
    requires Sorts(p, order) && alpha < 0.0 && c <= |order| == |p|
    requires AboveSet(p, alpha) == TailSet(order, c) && |AboveSet(p, alpha)| == |order| - c
    ensures Unambiguous(p, alpha) <==> c == |order| || !Passes(p, alpha, order, c)
  {
    if c < |order| {
      assert order[c] in TailSet(order, c);
    }
  }

  predicate Probabilities(p: seq<real>) {
    forall i | 0 <= i < |p| :: 0.0 <= p[i] <= 1.0
  }

  /** On p-values proper the step-down is closed testing at every level, negative ones included. */
  lemma ProbabilitiesAgree(p: seq<real>, alpha: real, order: seq<nat>, r: nat)
    requires Probabilities(p) && Sorts(p, order) && r < |order|
    ensures AgreesAt(p, alpha, order, r)
  {
    hide AgreesAt;
    assert Unambiguous(p, alpha) by {
      var above := AboveSet(p, alpha);
      if alpha < 0.0 && above != {} {
        NegativeQuotient(alpha, |above|);
      }
    }
    HolmIsClosedTesting(p, alpha, order);
  }

  lemma NegativeQuotient(alpha: real, m: nat)
    requires alpha < 0.0 && m > 0
    ensures alpha / m as real < 0.0
  {
  }

  // Two numbers below zero, which no test returns, where a negative level tells the two apart: only the
  // step-down rejects.
  lemma NegativeLevelDiffers()
    ensures Sorts([-0.7, -0.7], [0, 1]) && Reaches([-0.7, -0.7], -1.0, [0, 1], 0)
    ensures !ClosedRejects([-0.7, -0.7], -1.0, 0) && !AgreesAt([-0.7, -0.7], -1.0, [0, 1], 0)
  {
    assert -1.0 / 2.0 == -0.5;
    NegativeClosed([-0.7, -0.7], -1.0, 0);
  }

  // ----- The procedure -----

  /** What the step-down rejects, told by index. */
  ghost predicate HolmRejects(p: seq<real>, alpha: real, order: seq<nat>, i: nat)
    requires Sorts(p, order) && i < |p|
  {
    Reaches(p, alpha, order, Rank(p, order, i))
  }

  lemma RankIsUnique(p: seq<real>, order: seq<nat>, r: nat)
    requires Sorts(p, order) && r < |order|
    ensures Rank(p, order, order[r]) == r
  {
  }

  /** `order` sorts the first `n` p-values. */
  ghost predicate SortsFirst(p: seq<real>, order: seq<nat>, n: nat)
    requires n <= |p|
  {
    && |order| == n && (forall r | 0 <= r < n :: order[r] < n)
    && (forall r, t | 0 <= r < t < n :: order[r] != order[t] && p[order[r]] <= p[order[t]])
  }

  /** `np.argsort(p, kind="stable")`, by insertion from the right: an equal value stays behind its elders. */
  method ArgSort(p: seq<real>) returns (order: seq<nat>)
    ensures Sorts(p, order)
  {
    order := [];
    for n := 0 to |p|
      invariant SortsFirst(p, order, n)
    {
      var at := n;
      while at > 0 && p[n] < p[order[at - 1]]
        invariant at <= n && forall r | at <= r < n :: p[n] < p[order[r]]
      {
        at := at - 1;
      }
      InsertSorts(p, order, n, at);
      order := order[..at] + [n] + order[at..];
    }
  }

  lemma InsertSorts(p: seq<real>, order: seq<nat>, n: nat, at: nat)
    requires n < |p| && SortsFirst(p, order, n) && at <= n
    requires forall r | at <= r < n :: p[n] < p[order[r]]
    requires at > 0 ==> p[order[at - 1]] <= p[n]
    ensures SortsFirst(p, order[..at] + [n] + order[at..], n + 1)
  {
    var more := order[..at] + [n] + order[at..];
    assert forall r | 0 <= r < at :: more[r] == order[r];
    assert forall r | at < r <= n :: more[r] == order[r - 1];
    forall r | 0 <= r < at ensures p[order[r]] <= p[n] {
      assert r < at - 1 ==> p[order[r]] <= p[order[at - 1]];
    }
  }

  // The loop of `holm_rejections` over one sorted order: test against a rising threshold, stop at the first
  // failure.
  method StepDown(p: seq<real>, alpha: real, order: seq<nat>) returns (rejected: array<bool>)
    requires Sorts(p, order)
    ensures fresh(rejected) && rejected.Length == |p|
    ensures forall i: nat | i < |p| :: rejected[i] <==> HolmRejects(p, alpha, order, i)
  {
    rejected := new bool[|p|](_ => false);
    var rank := 0;
    hide Rank;
    while rank < |order| && p[order[rank]] <= alpha / (|p| - rank) as real
      invariant rank <= |order| && forall k: nat | k < rank :: Passes(p, alpha, order, k)
      invariant forall r | 0 <= r < |order| :: rejected[order[r]] <==> r < rank
    {
      rejected[order[rank]] := true;
      rank := rank + 1;
    }
    forall i: nat | i < |p| ensures rejected[i] <==> HolmRejects(p, alpha, order, i) {
      var r := Rank(p, order, i);
      assert order[r] == i && (r >= rank ==> !Passes(p, alpha, order, rank));
    }
  }

  // `holm_rejections`: exactly the hypotheses that closed testing rejects, for a nonnegative level or proper
  // p-values.
  method HolmRejections(p: seq<real>, alpha: real) returns (rejected: seq<bool>)
    ensures |rejected| == |p|
    ensures alpha >= 0.0 || Probabilities(p) ==> forall i: nat | i < |p| :: rejected[i] <==> ClosedRejects(p, alpha, i)
  {
    var order := ArgSort(p);
    var flags := StepDown(p, alpha, order);
    rejected := flags[..];
    if alpha >= 0.0 || Probabilities(p) {
      hide ClosedRejects, Sorts;
      forall i: nat | i < |p| ensures rejected[i] <==> ClosedRejects(p, alpha, i) {
        assert rejected[i] == flags[i];
        HolmByIndex(p, alpha, order, i);
      }
    }
  }

  lemma HolmByIndex(p: seq<real>, alpha: real, order: seq<nat>, i: nat)
    requires Sorts(p, order) && (alpha >= 0.0 || Probabilities(p)) && i < |p|
    ensures HolmRejects(p, alpha, order, i) <==> ClosedRejects(p, alpha, i)
  {
    if alpha >= 0.0 {
      HolmIsClosed(p, alpha, order, Rank(p, order, i));
    } else {
      ProbabilitiesAgree(p, alpha, order, Rank(p, order, i));
    }
  }

  /** The rejected set does not depend on how ties are ordered. */
  lemma TiesDoNotMatter(p: seq<real>, alpha: real, order: seq<nat>, other: seq<nat>, i: nat)
    requires Sorts(p, order) && Sorts(p, other) && (alpha >= 0.0 || Probabilities(p)) && i < |p|
    ensures HolmRejects(p, alpha, order, i) <==> HolmRejects(p, alpha, other, i)
  {
    HolmByIndex(p, alpha, order, i);
    HolmByIndex(p, alpha, other, i);
  }

  /** Lowering p-values never takes a rejection away: at a nonnegative level, or for p-values proper at any level. */
  lemma LoweringKeepsRejections(p: seq<real>, q: seq<real>, alpha: real, order: seq<nat>, lower: seq<nat>, i: nat)
    requires Sorts(p, order) && Sorts(q, lower) && |q| == |p| && i < |p|
    requires alpha >= 0.0 || (Probabilities(p) && Probabilities(q))
    requires forall j | 0 <= j < |p| :: q[j] <= p[j]
    requires HolmRejects(p, alpha, order, i)
    ensures HolmRejects(q, alpha, lower, i)
  {
    HolmByIndex(p, alpha, order, i);
    HolmByIndex(q, alpha, lower, i);
    hide HolmRejects;
    forall s: set<nat> | i in s && s <= AllIndices(|q|) ensures Bonferroni(q, alpha, s) {
      assert Bonferroni(p, alpha, s);
      var j: nat :| j in s && j < |p| && p[j] <= alpha / |s| as real;
      assert q[j] <= alpha / |s| as real;
    }
  }

  ghost predicate Lowers(p: seq<real>, q: seq<real>) {
    |q| == |p| && forall j | 0 <= j < |p| :: q[j] <= p[j]
  }

  /** Lowering p-values keeps this rejection. */
  ghost predicate Keeps(alpha: real, p: seq<real>, q: seq<real>, order: seq<nat>, lower: seq<nat>, i: nat) {
    Sorts(p, order) && Sorts(q, lower) && i < |p| && Lowers(p, q) && HolmRejects(p, alpha, order, i)
    ==> HolmRejects(q, alpha, lower, i)
  }

  ghost predicate AlwaysKeeps(alpha: real, n: nat) {
    forall p: seq<real>, q: seq<real>, order: seq<nat>, lower: seq<nat>, i: nat | |p| == n ::
      Keeps(alpha, p, q, order, lower, i)
  }

  /** A negative level makes later thresholds lower: an overtaken hypothesis loses its rejection. */
  lemma OvertakenIsLost(alpha: real, n: nat)
    requires alpha < 0.0 && n >= 2
    ensures !AlwaysKeeps(alpha, n)
  {
    var a := alpha / n as real;
    var p := seq(n, i => if i == 0 then a else 1.0);
    var q := seq(n, i => if i == 0 then a else if i == 1 then alpha else 1.0);
    var order: seq<nat> := seq(n, i requires 0 <= i < n => i);
    var lower: seq<nat> := seq(n, i requires 0 <= i < n => if i == 0 then 1 else if i == 1 then 0 else i);
    NegativeThreshold(alpha, n);
    assert alpha <= a < 0.0 by { assert a * n as real == alpha; }
    assert Sorts(p, order) && Sorts(q, lower) && Lowers(p, q);
    assert order[0] == 0 && lower[1] == 0;
    RankIsUnique(p, order, 0);
    RankIsUnique(q, lower, 1);
    assert HolmRejects(p, alpha, order, 0);
    assert !Passes(q, alpha, lower, 1) by {
      QuotientTest(a, alpha, (n - 1) as real);
      assert a * n as real == alpha && a * (n - 1) as real == alpha - a;
    }
    assert !Keeps(alpha, p, q, order, lower, 0);
  }

  lemma SingleIsKept(alpha: real, p: seq<real>, q: seq<real>, order: seq<nat>, lower: seq<nat>, i: nat)
    requires |p| < 2
    ensures Keeps(alpha, p, q, order, lower, i)
  {
    if Sorts(p, order) && Sorts(q, lower) && i < |p| && Lowers(p, q) && HolmRejects(p, alpha, order, i) {
      assert Rank(p, order, i) == 0 && Rank(q, lower, i) == 0;
      assert Passes(p, alpha, order, 0);
    }
  }

  /** Over all reals, lowering keeps every rejection exactly for nonnegative levels and single hypotheses. */
  lemma LoweringIsSafe(alpha: real, n: nat)
    ensures AlwaysKeeps(alpha, n) <==> alpha >= 0.0 || n < 2
  {
    if alpha >= 0.0 || n < 2 {
      forall p: seq<real>, q: seq<real>, order: seq<nat>, lower: seq<nat>, i: nat | |p| == n
        ensures Keeps(alpha, p, q, order, lower, i)
      {
        if n < 2 {
          SingleIsKept(alpha, p, q, order, lower, i);
        } else if Sorts(p, order) && Sorts(q, lower) && i < |p| && Lowers(p, q) && HolmRejects(p, alpha, order, i) {
          LoweringKeepsRejections(p, q, alpha, order, lower, i);
        }
      }
    } else {
      OvertakenIsLost(alpha, n);
    }
  }

  // ----- Choosing one candidate -----

  /** The first candidate with the least mean loss among those allowed. */
  predicate FirstBest(allowed: seq<bool>, losses: seq<real>, w: nat)
    requires |allowed| == |losses|
  {
    && w < |allowed| && allowed[w]
    && (forall j | 0 <= j < |allowed| && allowed[j] :: losses[w] <= losses[j])
    && (forall j | 0 <= j < w && allowed[j] :: losses[w] < losses[j])
  }

  predicate NoneAllowed(allowed: seq<bool>) {
    forall j | 0 <= j < |allowed| :: !allowed[j]
  }

  method FindBest(allowed: seq<bool>, losses: seq<real>) returns (best: Option<nat>)
    requires |allowed| == |losses|
    ensures best.None? <==> NoneAllowed(allowed)
    ensures best.Some? ==> FirstBest(allowed, losses, best.value)
  {
    best := None;
    for i := 0 to |allowed|
      invariant best.None? ==> forall j | 0 <= j < i :: !allowed[j]
      invariant best.Some? ==> best.value < i && allowed[best.value]
      invariant best.Some? ==> forall j | 0 <= j < i && allowed[j] :: losses[best.value] <= losses[j]
      invariant best.Some? ==> forall j | 0 <= j < best.value && allowed[j] :: losses[best.value] < losses[j]
    {
      if allowed[i] && (best.None? || losses[i] < losses[best.value]) { best := Some(i); }
    }
  }

  /** `w` beats every other passing candidate, and its runner-up significantly. */
  ghost predicate Wins(rejected: seq<bool>, losses: seq<real>, alpha: real, headToHead: (nat, nat) -> real, w: nat)
    requires |rejected| == |losses|
  {
    && FirstBest(rejected, losses, w)
    && (NoneAllowed(rejected[w := false])
        || exists r: nat :: FirstBest(rejected[w := false], losses, r) && headToHead(r, w) <= alpha)
  }

  /** The selection in `decide_losses`: `headToHead(r, w)` is the p-value of candidate `w` against `r`. */
  method SelectCandidate(rejected: seq<bool>, losses: seq<real>, alpha: real, headToHead: (nat, nat) -> real)
    returns (selected: Option<nat>)
    requires |rejected| == |losses|
    ensures forall w: nat :: selected == Some(w) <==> Wins(rejected, losses, alpha, headToHead, w)
  {
    var winner := FindBest(rejected, losses);
    selected := None;
    if winner.Some? {
      var runner := FindBest(rejected[winner.value := false], losses);
      if runner.None? || headToHead(runner.value, winner.value) <= alpha { selected := winner; }
    }
  }
}
