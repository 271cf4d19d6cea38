// `_rls_point` of sn1_synthetic_models.py over the reals: the recursion, the batch normal equations it solves,
// and the weighted cost it minimises.
module RecursiveLeastSquares {
  import opened Basics
  import opened PlaneAlgebra

  const PRIOR := 10000.0
  const ZERO := Vec(0.0, 0.0)

  datatype State = State(theta: Vec, covariance: Mat)

  function Design(i: nat): Vec { Vec(1.0, i as real) }

  function Start(prefix: seq<real>): State
    requires |prefix| >= 2
  {
    State(Vec(prefix[0], prefix[1] - prefix[0]), Scale(PRIOR, IDENTITY))
  }

  function Denominator(forgetting: real, covariance: Mat, f: Vec): real {
    forgetting + Dot(f, Apply(covariance, f))
  }

  function Gain(forgetting: real, covariance: Mat, f: Vec): Vec
    requires Denominator(forgetting, covariance, f) != 0.0
  {
    DivideVec(Apply(covariance, f), Denominator(forgetting, covariance, f))
  }

  /** One observation. */
  function Step(forgetting: real, st: State, f: Vec, y: real): State
    requires forgetting != 0.0 && Denominator(forgetting, st.covariance, f) != 0.0
  {
    var gain := Gain(forgetting, st.covariance, f);
    State(
      Plus(st.theta, Times(y - Dot(f, st.theta), gain)),
      DivideMat(Difference(st.covariance, Mul(Outer(gain, f), st.covariance)), forgetting))
  }

  // ----- The batch problem -----

  /** `lambda^n P0^-1 + sum lambda^(n-1-i) f_i f_iT`, by its recurrence. */
  function Information(forgetting: real, n: nat): Mat {
    if n == 0 then Scale(1.0 / PRIOR, IDENTITY) else Updated(Information(forgetting, n - 1), forgetting, Design(n - 1))
  }

  /** The right-hand side of the weighted normal equations. */
  function Moments(forgetting: real, prefix: seq<real>, n: nat): Vec
    requires |prefix| >= 2 && n <= |prefix|
  {
    if n == 0 then Apply(Information(forgetting, 0), Start(prefix).theta)
    else Plus(Times(forgetting, Moments(forgetting, prefix, n - 1)), Times(prefix[n - 1], Design(n - 1)))
  }

  // The exponentially weighted squared error of the line with level and slope `theta`; at first only its distance from
  // the line through the first two values counts, and little.
  function Cost(forgetting: real, prefix: seq<real>, n: nat, theta: Vec): real
    requires |prefix| >= 2 && n <= |prefix|
  {
    if n == 0 then
      var level, slope := theta.x - prefix[0], theta.y - (prefix[1] - prefix[0]);
      (level * level + slope * slope) / 10000.0
    else
      var residual := prefix[n - 1] - (theta.x + theta.y * (n - 1) as real);
      forgetting * Cost(forgetting, prefix, n - 1, theta) + residual * residual
  }

  /** The state after `n` observations solves the batch problem: the covariance inverts the information. */
  ghost predicate Solves(forgetting: real, prefix: seq<real>, n: nat, st: State)
    requires |prefix| >= 2 && n <= |prefix|
  {
    && Symmetric(st.covariance) && PositiveDefinite(Information(forgetting, n))
    && Mul(Information(forgetting, n), st.covariance) == IDENTITY
    && Apply(Information(forgetting, n), st.theta) == Moments(forgetting, prefix, n)
  }

  // ----- One step -----

  /** Applying the information undoes the covariance. */
  lemma Undoes(a: Mat, p: Mat, v: Vec)
    requires Mul(a, p) == IDENTITY
    ensures Apply(a, Apply(p, v)) == v
  {
    ApplyMul(a, p, v);
    ApplyIdentity(v);
    hide Apply, Mul;
  }

  lemma ApplyZero(m: Mat)
    ensures Apply(m, ZERO) == ZERO
  {
  }

  /** The covariance is positive definite too, so the denominator exceeds the forgetting factor. */
  lemma CovariancePositive(a: Mat, p: Mat)
    requires PositiveDefinite(a) && Mul(a, p) == IDENTITY && Symmetric(p)
    ensures PositiveDefinite(p)
  {
    hide Apply, Mul;
    forall v: Vec | v != ZERO ensures Quad(p, v) > 0.0 {
      var w := Apply(p, v);
      Undoes(a, p, v);
      ApplyZero(a);
      DotCommutes(v, w);
      assert Quad(p, v) == Quad(a, w);
    }
  }

  lemma DenominatorPositive(forgetting: real, a: Mat, p: Mat, f: Vec)
    requires forgetting > 0.0 && PositiveDefinite(a) && Mul(a, p) == IDENTITY && Symmetric(p) && f != ZERO
    ensures Denominator(forgetting, p, f) > forgetting
  {
    CovariancePositive(a, p);
    assert Quad(p, f) > 0.0;
    hide Apply, Mul;
  }

  /** The updated information takes the gain to the design vector. */
  lemma GainSolves(forgetting: real, a: Mat, p: Mat, f: Vec)
    requires Mul(a, p) == IDENTITY && Denominator(forgetting, p, f) != 0.0
    ensures Apply(Updated(a, forgetting, f), Gain(forgetting, p, f)) == f
  {
    var v, s, g, b := Apply(p, f), Denominator(forgetting, p, f), Gain(forgetting, p, f), Updated(a, forgetting, f);
    Undoes(a, p, f);
    ApplyUpdated(a, forgetting, f, v);
    assert Apply(b, v) == Plus(Times(forgetting, f), Times(Dot(f, v), f));
    CollectTimes(forgetting, Dot(f, v), f);
    DivideVecBack(v, s);
    ApplyTimes(b, s, g);
    hide Apply, Updated, Gain, Dot, Times, Plus;
    CancelVec(s, Apply(b, g), f);
  }

  lemma CollectTimes(s: real, t: real, v: Vec)
    ensures Plus(Times(s, v), Times(t, v)) == Times(s + t, v)
  {
  }

  /** The updated covariance inverts the updated information. */
  lemma CovarianceInverts(forgetting: real, a: Mat, st: State, f: Vec, y: real)
    requires forgetting != 0.0 && Mul(a, st.covariance) == IDENTITY && Denominator(forgetting, st.covariance, f) != 0.0
    ensures Mul(Updated(a, forgetting, f), Step(forgetting, st, f, y).covariance) == IDENTITY
  {
    var p, g, b := st.covariance, Gain(forgetting, st.covariance, f), Updated(a, forgetting, f);
    var correction := Mul(Outer(g, f), p);
    var next := Step(forgetting, st, f, y).covariance;
    GainSolves(forgetting, a, p, f);
    MulUpdated(a, forgetting, f, p);
    MulOuter(b, g, f, p);
    MulDifference(b, p, correction);
    SumDifference(Scale(forgetting, IDENTITY), Mul(Outer(f, f), p));
    DivideMatBack(Difference(p, correction), forgetting);
    MulScale(b, forgetting, next);
    hide *;
    CancelMat(forgetting, Mul(b, next), IDENTITY);
  }

  lemma SymmetricRows(p: Mat, f: Vec)
    requires Symmetric(p)
    ensures Dot(f, Left(p)) == Apply(p, f).x && Dot(f, Right(p)) == Apply(p, f).y
  {
  }

  lemma CrossRatios(x: real, y: real, s: real)
    requires s != 0.0
    ensures y * (x / s) == x * (y / s)
  {
  }

  /** What is subtracted from a symmetric covariance is symmetric. */
  lemma CorrectionIsSymmetric(p: Mat, f: Vec, s: real)
    requires Symmetric(p) && s != 0.0
    ensures Symmetric(Mul(Outer(DivideVec(Apply(p, f), s), f), p))
  {
    var v := Apply(p, f);
    var g := DivideVec(v, s);
    MulColumns(Outer(g, f), p);
    ApplyOuter(g, f, Left(p));
    ApplyOuter(g, f, Right(p));
    SymmetricRows(p, f);
    CrossRatios(v.x, v.y, s);
    hide Apply, Mul, Outer, Dot;
  }

  lemma CovarianceStaysSymmetric(forgetting: real, st: State, f: Vec, y: real)
    requires forgetting != 0.0 && Symmetric(st.covariance) && Denominator(forgetting, st.covariance, f) != 0.0
    ensures Symmetric(Step(forgetting, st, f, y).covariance)
  {
    CorrectionIsSymmetric(st.covariance, f, Denominator(forgetting, st.covariance, f));
    hide Apply, Mul, Outer, Dot;
  }

  /** The normal equations carry over. */
  lemma NormalEquations(forgetting: real, a: Mat, st: State, f: Vec, y: real, moments: Vec)
    requires forgetting != 0.0 && Mul(a, st.covariance) == IDENTITY && Denominator(forgetting, st.covariance, f) != 0.0
    requires Apply(a, st.theta) == moments
    ensures Apply(Updated(a, forgetting, f), Step(forgetting, st, f, y).theta) ==
              Plus(Times(forgetting, moments), Times(y, f))
  {
    var g, b := Gain(forgetting, st.covariance, f), Updated(a, forgetting, f);
    var r := y - Dot(f, st.theta);
    GainSolves(forgetting, a, st.covariance, f);
    ApplyUpdated(a, forgetting, f, st.theta);
    ApplyPlus(b, st.theta, Times(r, g));
    ApplyTimes(b, r, g);
    CollectTimes(Dot(f, st.theta), r, f);
    PlusAssociates(Times(forgetting, moments), Times(Dot(f, st.theta), f), Times(r, f));
    hide Apply, Updated, Gain, Dot, Times, Plus, Mul;
  }

  lemma PlusAssociates(u: Vec, v: Vec, w: Vec)
    ensures Plus(Plus(u, v), w) == Plus(u, Plus(v, w))
  {
  }

  lemma InformationStaysPositive(forgetting: real, a: Mat, f: Vec)
    requires forgetting > 0.0 && PositiveDefinite(a)
    ensures PositiveDefinite(Updated(a, forgetting, f))
  {
    assert Symmetric(Updated(a, forgetting, f));
    hide Updated, Quad, Dot;
    forall v: Vec | v != ZERO ensures Quad(Updated(a, forgetting, f), v) > 0.0 {
      QuadUpdated(a, forgetting, f, v);
      ProductPositive(forgetting, Quad(a, v));
      var square := SquareSign(Dot(f, v));
    }
  }

  lemma DesignIsNonzero(i: nat)
    ensures Design(i) != ZERO
  {
  }

  lemma SolvesStep(forgetting: real, prefix: seq<real>, n: nat, st: State)
    requires forgetting > 0.0 && |prefix| >= 2 && n < |prefix| && Solves(forgetting, prefix, n, st)
    ensures Denominator(forgetting, st.covariance, Design(n)) > forgetting
    ensures Solves(forgetting, prefix, n + 1, Step(forgetting, st, Design(n), prefix[n]))
  {
    var a, f := Information(forgetting, n), Design(n);
    DesignIsNonzero(n);
    DenominatorPositive(forgetting, a, st.covariance, f);
    CovarianceInverts(forgetting, a, st, f, prefix[n]);
    CovarianceStaysSymmetric(forgetting, st, f, prefix[n]);
    NormalEquations(forgetting, a, st, f, prefix[n], Moments(forgetting, prefix, n));
    InformationStaysPositive(forgetting, a, f);
    hide Apply, Mul, Step, Updated, Denominator, Design, Quad;
  }

  lemma SolvesStart(forgetting: real, prefix: seq<real>)
    requires |prefix| >= 2
    ensures Solves(forgetting, prefix, 0, Start(prefix))
  {
    var a := Information(forgetting, 0);
    assert a == Mat(0.0001, 0.0, 0.0, 0.0001);
    assert Det(a) > 0.0;
    MinorsMakePositive(a);
  }

  /** The state after `n` observations. It is always defined: the denominator stays above the forgetting factor. */
  ghost function StateAfter(forgetting: real, prefix: seq<real>, n: nat): (st: State)
    requires |prefix| >= 2 && n <= |prefix| && forgetting > 0.0
    ensures Solves(forgetting, prefix, n, st)
  {
    if n == 0 then
      SolvesStart(forgetting, prefix);
      Start(prefix)
    else
      var before := StateAfter(forgetting, prefix, n - 1);
      SolvesStep(forgetting, prefix, n - 1, before);
      Step(forgetting, before, Design(n - 1), prefix[n - 1])
  }

  /** Symmetric and positive definite after any number of observations. */
  lemma CovarianceStaysPositive(forgetting: real, prefix: seq<real>, n: nat)
    requires |prefix| >= 2 && n <= |prefix| && forgetting > 0.0
    ensures PositiveDefinite(StateAfter(forgetting, prefix, n).covariance)
  {
    var st := StateAfter(forgetting, prefix, n);
    assert Solves(forgetting, prefix, n, st);
    CovariancePositive(Information(forgetting, n), st.covariance);
    hide StateAfter, Information, Mul, Quad;
  }

  /** A straight line read off `horizon` steps after `last`. */
  function ForecastAt(theta: Vec, last: int, horizon: int): real {
    theta.x + theta.y * (last + horizon) as real
  }

  function Forecasts(theta: Vec, last: int, horizons: seq<int>): seq<real> {
    seq(|horizons|, i requires 0 <= i < |horizons| => ForecastAt(theta, last, horizons[i]))
  }

  /** The only line with the least cost. */
  ghost predicate LeastCost(forgetting: real, prefix: seq<real>, best: Vec)
    requires |prefix| >= 2
  {
    forall theta | theta != best :: Cost(forgetting, prefix, |prefix|, best) < Cost(forgetting, prefix, |prefix|, theta)
  }

  /** The values of that line, as many steps after the last value as the horizons say. */
  ghost predicate OnBestLine(forgetting: real, prefix: seq<real>, horizons: seq<int>, values: seq<real>)
    requires |prefix| >= 2
  {
    exists best | LeastCost(forgetting, prefix, best) ::
      && |values| == |horizons|
      && forall k | 0 <= k < |values| :: values[k] == best.x + best.y * (|prefix| - 1 + horizons[k]) as real
  }

  lemma StateIsBest(forgetting: real, prefix: seq<real>, horizons: seq<int>)
    requires |prefix| >= 2 && forgetting > 0.0
    ensures OnBestLine(forgetting, prefix, horizons,
                       Forecasts(StateAfter(forgetting, prefix, |prefix|).theta, |prefix| - 1, horizons))
  {
    var st := StateAfter(forgetting, prefix, |prefix|);
    hide Solves, Cost, StateAfter;
    forall theta | theta != st.theta
      ensures Cost(forgetting, prefix, |prefix|, st.theta) < Cost(forgetting, prefix, |prefix|, theta)
    {
      StateMinimisesCost(forgetting, prefix, |prefix|, st, theta);
    }
    assert LeastCost(forgetting, prefix, st.theta);
    hide LeastCost;
  }

  lemma StateBegins(forgetting: real, prefix: seq<real>)
    requires |prefix| >= 2 && forgetting > 0.0
    ensures StateAfter(forgetting, prefix, 0) ==
            State(Vec(prefix[0], prefix[1] - prefix[0]), Scale(PRIOR, IDENTITY))
  {
    hide Solves;
  }

  /** One observation of the loop: the gain, the parameters, the covariance. */
  method Update(ghost prefix: seq<real>, ghost n: nat, st: State, design: Vec, y: real, forgetting: real)
    returns (next: State)
    requires forgetting > 0.0 && |prefix| >= 2 && n < |prefix| && design == Design(n) && y == prefix[n]
             && st == StateAfter(forgetting, prefix, n)
    ensures next == StateAfter(forgetting, prefix, n + 1)
  {
    StateNext(forgetting, prefix, n);
    hide StateAfter, Solves, Apply, Mul, Outer, Difference, Dot, Plus, Times, Design;
    var denominator := forgetting + Dot(design, Apply(st.covariance, design));
    var gain := DivideVec(Apply(st.covariance, design), denominator);
    next := State(Plus(st.theta, Times(y - Dot(design, st.theta), gain)),
                  DivideMat(Difference(st.covariance, Mul(Outer(gain, design), st.covariance)), forgetting));
  }

  /** The loop of `_rls_point`: one pass over the prefix, which needs two values to start from. */
  method Fit(prefix: seq<real>, forgetting: real) returns (st: State)
    requires forgetting > 0.0 && |prefix| >= 2
    ensures st == StateAfter(forgetting, prefix, |prefix|)
  {
    hide *;
    StateBegins(forgetting, prefix);
    st := State(Vec(prefix[0], prefix[1] - prefix[0]), Scale(PRIOR, IDENTITY));
    for index := 0 to |prefix|
      invariant StateAfter(forgetting, prefix, index) == st
    {
      st := Update(prefix, index, st, Design(index), prefix[index], forgetting);
    }
  }

  /** `_rls_point`: the forecasts are values of the only line with the least cost. */
  method RlsPoint(prefix: seq<real>, horizons: seq<int>, forgetting: real) returns (r: Result<seq<real>>)
    requires forgetting > 0.0
    ensures r.Failure? <==> |prefix| < 2
    ensures r.Success? ==> r.value == Forecasts(StateAfter(forgetting, prefix, |prefix|).theta, |prefix| - 1, horizons)
    ensures r.Success? ==> OnBestLine(forgetting, prefix, horizons, r.value)
  {
    if |prefix| < 2 { return Failure("index out of bounds"); }
    hide *;
    var st := Fit(prefix, forgetting);
    StateIsBest(forgetting, prefix, horizons);
    return Success(Forecasts(st.theta, |prefix| - 1, horizons));
  }

  // ----- The information in closed form -----

  function Power(x: real, n: nat): real {
    if n == 0 then 1.0 else x * Power(x, n - 1)
  }

  lemma PowerNext(x: real, n: nat)
    ensures Power(x, n + 1) == x * Power(x, n)
  {
  }

  /** `sum over i < k of lambda^(n-1-i) f_i f_iT`. */
  function WeightedSum(forgetting: real, n: nat, k: nat): Mat
    requires k <= n
  {
    if k == 0 then Scale(0.0, IDENTITY)
    else Sum(WeightedSum(forgetting, n, k - 1), Scale(Power(forgetting, n - k), Outer(Design(k - 1), Design(k - 1))))
  }

  lemma ScaleSum(s: real, m: Mat, n: Mat)
    ensures Scale(s, Sum(m, n)) == Sum(Scale(s, m), Scale(s, n))
  {
  }

  lemma ScaleTwice(s: real, t: real, st: real, m: Mat)
    requires st == s * t
    ensures Scale(s, Scale(t, m)) == Scale(st, m)
  {
    Associate(s, t, m.a);
    Associate(s, t, m.b);
    Associate(s, t, m.c);
    Associate(s, t, m.d);
  }

  lemma ScaleNothing(s: real)
    ensures Scale(s, Scale(0.0, IDENTITY)) == Scale(0.0, IDENTITY)
  {
  }

  lemma ScaleOne(m: Mat)
    ensures Scale(1.0, m) == m
  {
  }

  lemma WeightedNext(forgetting: real, n: nat, k: nat)
    requires k < n
    ensures WeightedSum(forgetting, n, k + 1) ==
            Sum(WeightedSum(forgetting, n, k), Scale(Power(forgetting, n - k - 1), Outer(Design(k), Design(k))))
  {
  }

  lemma {:induction false} WeightsAge(forgetting: real, n: nat, k: nat)
    requires k <= n
    ensures WeightedSum(forgetting, n + 1, k) == Scale(forgetting, WeightedSum(forgetting, n, k))
  {
    hide *;
    if k == 0 {
      WeightedNone(forgetting, n);
      WeightedNone(forgetting, n + 1);
      ScaleNothing(forgetting);
    } else {
      var o, age := Outer(Design(k - 1), Design(k - 1)), n - k;
      WeightsAge(forgetting, n, k - 1);
      WeightedNext(forgetting, n, k - 1);
      WeightedNext(forgetting, n + 1, k - 1);
      PowerNext(forgetting, age);
      ScaleSum(forgetting, WeightedSum(forgetting, n, k - 1), Scale(Power(forgetting, age), o));
      ScaleTwice(forgetting, Power(forgetting, age), Power(forgetting, age + 1), o);
    }
  }

  lemma WeightedNone(forgetting: real, n: nat)
    ensures WeightedSum(forgetting, n, 0) == Scale(0.0, IDENTITY)
  {
  }

  lemma SumAssociates(m: Mat, n: Mat, k: Mat)
    ensures Sum(Sum(m, n), k) == Sum(m, Sum(n, k))
  {
  }

  lemma SumNothing(m: Mat)
    ensures Sum(m, Scale(0.0, IDENTITY)) == m
  {
  }

  lemma InformationNext(forgetting: real, n: nat)
    ensures Information(forgetting, n + 1) == Updated(Information(forgetting, n), forgetting, Design(n))
  {
  }

  lemma UpdatedSum(m: Mat, s: real, f: Vec)
    ensures Updated(m, s, f) == Sum(Scale(s, m), Outer(f, f))
  {
  }

  lemma PowerNone(x: real)
    ensures Power(x, 0) == 1.0
  {
  }

  /** The recurrence unrolled: every design vector weighs by its age, and the prior fades. */
  lemma {:induction false} InformationIsWeightedSum(forgetting: real, n: nat)
    ensures Information(forgetting, n) ==
            Sum(Scale(Power(forgetting, n), Information(forgetting, 0)), WeightedSum(forgetting, n, n))
  {
    hide *;
    var prior := Information(forgetting, 0);
    PowerNone(forgetting);
    if n == 0 {
      ScaleOne(prior);
      SumNothing(prior);
      WeightedNone(forgetting, 0);
    } else {
      var m := n - 1;
      var o, w := Outer(Design(m), Design(m)), WeightedSum(forgetting, m, m);
      InformationIsWeightedSum(forgetting, m);
      InformationNext(forgetting, m);
      UpdatedSum(Information(forgetting, m), forgetting, Design(m));
      WeightsAge(forgetting, m, m);
      WeightedNext(forgetting, n, m);
      ScaleSum(forgetting, Scale(Power(forgetting, m), prior), w);
      PowerNext(forgetting, m);
      ScaleTwice(forgetting, Power(forgetting, m), Power(forgetting, n), prior);
      ScaleOne(o);
      SumAssociates(Scale(Power(forgetting, n), prior), Scale(forgetting, w), o);
    }
  }

  // ----- The minimised cost -----

  /** The part of the cost that does not depend on the parameters. */
  function CostConstant(forgetting: real, prefix: seq<real>, n: nat): real
    requires |prefix| >= 2 && n <= |prefix|
  {
    if n == 0 then Quad(Information(forgetting, 0), Start(prefix).theta)
    else forgetting * CostConstant(forgetting, prefix, n - 1) + prefix[n - 1] * prefix[n - 1]
  }

  lemma DotMinus(v: Vec, u: Vec, w: Vec)
    ensures Dot(v, Minus(u, w)) == Dot(v, u) - Dot(v, w)
  {
    RowDifference(v.x, u.x, w.x, v.y, u.y, w.y);
  }

  lemma ApplyMinus(m: Mat, u: Vec, v: Vec)
    ensures Apply(m, Minus(u, v)) == Minus(Apply(m, u), Apply(m, v))
  {
    RowDifference(m.a, u.x, v.x, m.b, u.y, v.y);
    RowDifference(m.c, u.x, v.x, m.d, u.y, v.y);
  }

  lemma SymmetricForm(m: Mat, u: Vec, v: Vec)
    requires Symmetric(m)
    ensures Dot(u, Apply(m, v)) == Dot(v, Apply(m, u))
  {
    Distribute(m.a * v.x, m.b * v.y, u.x);
    Distribute(m.c * v.x, m.d * v.y, u.y);
    Distribute(m.a * u.x, m.b * u.y, v.x);
    Distribute(m.c * u.x, m.d * u.y, v.y);
  }

  lemma QuadMinus(m: Mat, u: Vec, w: Vec)
    requires Symmetric(m)
    ensures Quad(m, Minus(u, w)) == Quad(m, u) - 2.0 * Dot(Apply(m, w), u) + Quad(m, w)
  {
    var d := Minus(u, w);
    ApplyMinus(m, u, w);
    DotMinus(d, Apply(m, u), Apply(m, w));
    DotCommutes(d, Apply(m, u));
    DotCommutes(d, Apply(m, w));
    DotMinus(Apply(m, u), u, w);
    DotMinus(Apply(m, w), u, w);
    DotCommutes(Apply(m, u), u);
    DotCommutes(Apply(m, u), w);
    DotCommutes(Apply(m, w), w);
    DotCommutes(Apply(m, w), u);
    SymmetricForm(m, u, w);
    hide Apply, Dot, Minus, Symmetric;
  }

  lemma SquaredResidual(y: real, d: real)
    ensures (y - d) * (y - d) == d * d - 2.0 * (y * d) + y * y
  {
  }

  lemma CostNext(forgetting: real, prefix: seq<real>, n: nat, theta: Vec)
    requires |prefix| >= 2 && n < |prefix|
    ensures var y, d := prefix[n], Dot(Design(n), theta);
            && Cost(forgetting, prefix, n + 1, theta) == forgetting * Cost(forgetting, prefix, n, theta) +
                 (y - d) * (y - d)
            && CostConstant(forgetting, prefix, n + 1) == forgetting * CostConstant(forgetting, prefix, n) + y * y
  {
    DesignDot(n, theta);
    hide Dot, Quad, Information, Design, Start;
  }

  lemma DesignDot(i: nat, theta: Vec)
    ensures Dot(Design(i), theta) == theta.x + theta.y * i as real
  {
  }

  lemma PriorForm(d: Vec)
    ensures Quad(Scale(1.0 / PRIOR, IDENTITY), d) == (d.x * d.x + d.y * d.y) / 10000.0
  {
    assert Apply(Scale(1.0 / PRIOR, IDENTITY), d) == Vec(d.x / 10000.0, d.y / 10000.0);
  }

  lemma MomentsNext(forgetting: real, prefix: seq<real>, n: nat)
    requires |prefix| >= 2 && n < |prefix|
    ensures Moments(forgetting, prefix, n + 1) ==
            Plus(Times(forgetting, Moments(forgetting, prefix, n)), Times(prefix[n], Design(n)))
  {
  }

  lemma CostAtStart(forgetting: real, prefix: seq<real>, theta: Vec)
    requires |prefix| >= 2
    ensures var a, start := Information(forgetting, 0), Start(prefix).theta;
            && Symmetric(a) && Cost(forgetting, prefix, 0, theta) == Quad(a, Minus(theta, start))
            && Moments(forgetting, prefix, 0) == Apply(a, start)
                 && CostConstant(forgetting, prefix, 0) == Quad(a, start)
  {
    PriorForm(Minus(theta, Start(prefix).theta));
    hide Quad, Apply;
  }

  /** The cost is a quadratic whose form is the information and whose slope is the moments. */
  lemma {:induction false} CostIsQuadratic(forgetting: real, prefix: seq<real>, n: nat, theta: Vec)
    requires |prefix| >= 2 && n <= |prefix|
    ensures Cost(forgetting, prefix, n, theta) ==
            Quad(Information(forgetting, n), theta) - 2.0 * Dot(Moments(forgetting, prefix, n), theta)
            + CostConstant(forgetting, prefix, n)
  {
    hide *;
    if n == 0 {
      CostAtStart(forgetting, prefix, theta);
      QuadMinus(Information(forgetting, 0), theta, Start(prefix).theta);
    } else {
      var m := n - 1;
      var f, y, b := Design(m), prefix[m], Moments(forgetting, prefix, m);
      CostIsQuadratic(forgetting, prefix, m, theta);
      CostNext(forgetting, prefix, m, theta);
      MomentsNext(forgetting, prefix, m);
      InformationNext(forgetting, m);
      QuadUpdated(Information(forgetting, m), forgetting, f, theta);
      MomentsDot(forgetting, b, y, f, theta);
      CostStep(forgetting, y, Dot(f, theta), Cost(forgetting, prefix, m, theta),
        Quad(Information(forgetting, m), theta), Dot(b, theta), CostConstant(forgetting, prefix, m),
        Cost(forgetting, prefix, n, theta), Quad(Information(forgetting, n), theta),
        Dot(Moments(forgetting, prefix, n), theta), CostConstant(forgetting, prefix, n));
    }
  }

  /** One more residual, term by term. */
  lemma CostStep(s: real, y: real, d: real, cost: real, form: real, slope: real, rest: real,
                 costNext: real, formNext: real, slopeNext: real, restNext: real)
    requires cost == form - 2.0 * slope + rest && costNext == s * cost + (y - d) * (y - d)
    requires formNext == s * form + d * d && slopeNext == s * slope + y * d && restNext == s * rest + y * y
    ensures costNext == formNext - 2.0 * slopeNext + restNext
  {
    calc {
      costNext;
      s * cost + (y - d) * (y - d);
      { CollectCost(s, cost, form, slope, rest); SquaredResidual(y, d); }
      (s * form - 2.0 * (s * slope) + s * rest) + (d * d - 2.0 * (y * d) + y * y);
      formNext - 2.0 * slopeNext + restNext;
    }
  }

  lemma MomentsDot(forgetting: real, b: Vec, y: real, f: Vec, theta: Vec)
    ensures Dot(Plus(Times(forgetting, b), Times(y, f)), theta) == forgetting * Dot(b, theta) + y * Dot(f, theta)
  {
    DotCommutes(Plus(Times(forgetting, b), Times(y, f)), theta);
    DotPlus(theta, Times(forgetting, b), Times(y, f));
    DotTimes(theta, forgetting, b);
    DotTimes(theta, y, f);
    DotCommutes(theta, b);
    DotCommutes(theta, f);
    hide Dot, Plus, Times;
  }

  lemma CollectCost(s: real, cost: real, q: real, d: real, c: real)
    requires cost == q - 2.0 * d + c
    ensures s * cost == s * q - 2.0 * (s * d) + s * c
  {
  }

  /** The cost anywhere is the cost at the recursion's parameters, plus the information's form of the distance. */
  lemma CostFromState(forgetting: real, prefix: seq<real>, n: nat, st: State, theta: Vec)
    requires |prefix| >= 2 && n <= |prefix| && Solves(forgetting, prefix, n, st)
    ensures Cost(forgetting, prefix, n, theta) ==
            Cost(forgetting, prefix, n, st.theta) + Quad(Information(forgetting, n), Minus(theta, st.theta))
  {
    hide *;
    var a := Information(forgetting, n);
    SolvesParts(forgetting, prefix, n, st, ZERO);
    CostIsQuadratic(forgetting, prefix, n, theta);
    CostIsQuadratic(forgetting, prefix, n, st.theta);
    FormAtPoint(a, st.theta);
    QuadMinus(a, theta, st.theta);
  }

  /** The recursion refines batch least squares: its parameters are the only ones with the least weighted cost. */
  lemma StateMinimisesCost(forgetting: real, prefix: seq<real>, n: nat, st: State, theta: Vec)
    requires |prefix| >= 2 && n <= |prefix| && Solves(forgetting, prefix, n, st) && theta != st.theta
    ensures Cost(forgetting, prefix, n, theta) > Cost(forgetting, prefix, n, st.theta)
  {
    hide *;
    CostFromState(forgetting, prefix, n, st, theta);
    DistinctDiffer(theta, st.theta);
    SolvesParts(forgetting, prefix, n, st, Minus(theta, st.theta));
  }

  lemma SolvesParts(forgetting: real, prefix: seq<real>, n: nat, st: State, d: Vec)
    requires |prefix| >= 2 && n <= |prefix| && Solves(forgetting, prefix, n, st)
    ensures var a := Information(forgetting, n);
            && Symmetric(a) && Apply(a, st.theta) == Moments(forgetting, prefix, n)
            && (d != ZERO ==> Quad(a, d) > 0.0)
  {
    hide Quad, Apply, Mul, Information, Moments;
  }

  lemma FormAtPoint(m: Mat, v: Vec)
    ensures Dot(Apply(m, v), v) == Quad(m, v)
  {
    DotCommutes(v, Apply(m, v));
    hide Dot, Apply;
  }

  lemma DistinctDiffer(u: Vec, v: Vec)
    ensures u != v ==> Minus(u, v) != ZERO
  {
    if Minus(u, v) == ZERO {
      assert u.x == v.x && u.y == v.y;
      assert u == Vec(v.x, v.y) == v;
    }
  }

  // ----- Affine prefixes -----

  predicate OnLine(y: real, a: real, b: real, i: int) { y == a + b * i as real }

  predicate Affine(prefix: seq<real>, a: real, b: real) {
    forall i | 0 <= i < |prefix| :: OnLine(prefix[i], a, b, i)
  }

  lemma StateNext(forgetting: real, prefix: seq<real>, n: nat)
    requires |prefix| >= 2 && n < |prefix| && forgetting > 0.0
    ensures var before := StateAfter(forgetting, prefix, n);
            && Denominator(forgetting, before.covariance, Design(n)) != 0.0
            && StateAfter(forgetting, prefix, n + 1) == Step(forgetting, before, Design(n), prefix[n])
  {
    SolvesStep(forgetting, prefix, n, StateAfter(forgetting, prefix, n));
    hide Solves, Denominator, Design, Step;
  }

  lemma LineStart(forgetting: real, prefix: seq<real>, a: real, b: real)
    requires |prefix| >= 2 && forgetting > 0.0 && Affine(prefix, a, b)
    ensures StateAfter(forgetting, prefix, 0).theta == Vec(a, b)
  {
    assert OnLine(prefix[0], a, b, 0) && OnLine(prefix[1], a, b, 1);
    hide Solves;
  }

  /** On a straight line every innovation is zero, and the parameters stay those of the line. */
  lemma {:induction false} StaysOnLine(forgetting: real, prefix: seq<real>, n: nat, a: real, b: real)
    requires |prefix| >= 2 && n <= |prefix| && forgetting > 0.0 && Affine(prefix, a, b)
    ensures StateAfter(forgetting, prefix, n).theta == Vec(a, b)
  {
    if n == 0 {
      LineStart(forgetting, prefix, a, b);
    } else {
      assert OnLine(prefix[n - 1], a, b, n - 1);
      hide *;
      StaysOnLine(forgetting, prefix, n - 1, a, b);
      StateNext(forgetting, prefix, n - 1);
      LineAt(prefix[n - 1], a, b, n - 1);
      StepOnLine(forgetting, StateAfter(forgetting, prefix, n - 1), Design(n - 1), prefix[n - 1]);
    }
  }

  lemma LineAt(y: real, a: real, b: real, i: nat)
    requires OnLine(y, a, b, i)
    ensures Dot(Design(i), Vec(a, b)) == y
  {
  }

  lemma StepOnLine(forgetting: real, st: State, f: Vec, y: real)
    requires forgetting != 0.0 && Denominator(forgetting, st.covariance, f) != 0.0 && Dot(f, st.theta) == y
    ensures Step(forgetting, st, f, y).theta == st.theta
  {
    NoInnovation(st.theta, Gain(forgetting, st.covariance, f));
    hide Gain, Dot, Times, Plus, Mul, Outer, Apply, Denominator;
  }

  lemma NoInnovation(theta: Vec, gain: Vec)
    ensures Plus(theta, Times(0.0, gain)) == theta
  {
  }
}
