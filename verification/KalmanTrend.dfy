// `_kalman_prediction` of models.py: a local-trend filter whose covariance stays positive definite, so that the
// innovation variance it divides by is positive.
module KalmanTrend {
  import opened Basics
  import opened PlaneAlgebra
  import opened RecursiveLeastSquares

  datatype Config = Config(qLevel: real, qSlope: real, r: real)

  datatype Filter = Filter(state: Vec, covariance: Mat)

  const TRANSITION := Mat(1.0, 1.0, 0.0, 1.0)
  const OBSERVED := Vec(1.0, 0.0)

  /** Noise levels that are not negative, an observation noise that is positive, and a positive scale. */
  predicate Noisy(config: Config, scale: real) {
    config.qLevel >= 0.0 && config.qSlope >= 0.0 && config.r > 0.0 && scale > 0.0
  }

  function Transpose(m: Mat): Mat { Mat(m.a, m.c, m.b, m.d) }

  function Start(prefix: seq<real>, scale: real): Filter
    requires prefix != []
  {
    Filter(Vec(prefix[0], if |prefix| > 1 then prefix[1] - prefix[0] else 0.0),
           Scale(scale * scale, Mat(10.0, 0.0, 0.0, 10.0)))
  }

  /** The covariance one step ahead. */
  function Predicted(p: Mat, config: Config, scale: real): Mat {
    Sum(Mul(Mul(TRANSITION, p), Transpose(TRANSITION)),
        Scale(scale * scale, Mat(config.qLevel, 0.0, 0.0, config.qSlope)))
  }

  function InnovationVariance(p: Mat, config: Config, scale: real): real {
    Dot(OBSERVED, Apply(p, OBSERVED)) + scale * scale * config.r
  }

  /** The covariance after an observation with gain `g`. */
  function Corrected(p: Mat, g: Vec): Mat {
    Mul(Difference(IDENTITY, Outer(g, OBSERVED)), p)
  }

  function Observe(f: Filter, y: real, config: Config, scale: real): Filter
    requires InnovationVariance(Predicted(f.covariance, config, scale), config, scale) != 0.0
  {
    var ahead, p := Apply(TRANSITION, f.state), Predicted(f.covariance, config, scale);
    var gain := DivideVec(Apply(p, OBSERVED), InnovationVariance(p, config, scale));
    Filter(Plus(ahead, Times(y - Dot(OBSERVED, ahead), gain)), Corrected(p, gain))
  }

  // ----- Prediction keeps the covariance positive -----

  /** The covariance of level plus slope and of the slope, each with its noise. */
  function Spread(p: Mat, config: Config, scale: real): Mat {
    Mat(p.a + p.c + p.b + p.d + scale * scale * config.qLevel, p.b + p.d,
        p.c + p.d, p.d + scale * scale * config.qSlope)
  }

  lemma PredictedEntries(p: Mat, config: Config, scale: real)
    ensures Predicted(p, config, scale) == Spread(p, config, scale)
  {
    TransitionEntries(p);
    hide Mul, Transpose;
  }

  lemma TransitionEntries(p: Mat)
    ensures Mul(Mul(TRANSITION, p), Transpose(TRANSITION)) == Mat(p.a + p.c + p.b + p.d, p.b + p.d, p.c + p.d, p.d)
  {
    assert Mul(TRANSITION, p) == Mat(p.a + p.c, p.b + p.d, p.c, p.d);
  }

  lemma ProductNonnegative(x: real, y: real)
    requires x >= 0.0 && y >= 0.0
    ensures x * y >= 0.0
  {
  }

  lemma TransitionDeterminant(a: real, b: real, d: real)
    ensures (a + b + b + d) * d - (b + d) * (b + d) == a * d - b * b
  {
  }

  lemma DiagonalAdds(a: real, b: real, d: real, q: real, s: real)
    ensures (a + q) * (d + s) - b * b == (a * d - b * b) + q * (d + s) + s * a
  {
  }

  lemma FormAtOnes(p: Mat)
    ensures Quad(p, Vec(1.0, 1.0)) == p.a + p.c + p.b + p.d && Quad(p, Vec(0.0, 1.0)) == p.d
  {
  }

  lemma PredictionKeepsPositive(p: Mat, config: Config, scale: real)
    requires PositiveDefinite(p) && Noisy(config, scale)
    ensures PositiveDefinite(Predicted(p, config, scale))
  {
    hide Quad, Mul, Predicted;
    var next := Predicted(p, config, scale);
    PredictedEntries(p, config, scale);
    FormAtOnes(p);
    PositiveMakesMinors(p);
    assert Vec(1.0, 1.0) != ZERO && Vec(0.0, 1.0) != ZERO;
    var q, s, r := NoiseSigns(config, scale);
    PredictionMinors(p.a, p.b, p.d, q, s, next);
    hide Det;
    MinorsMakePositive(next);
  }

  lemma NoiseSigns(config: Config, scale: real) returns (q: real, s: real, r: real)
    requires Noisy(config, scale)
    ensures q == scale * scale * config.qLevel && s == scale * scale * config.qSlope && r == scale * scale * config.r
    ensures q >= 0.0 && s >= 0.0 && r > 0.0
  {
    var variance := SquareSign(scale);
    q, s, r := variance * config.qLevel, variance * config.qSlope, variance * config.r;
    ProductNonnegative(variance, config.qLevel);
    ProductNonnegative(variance, config.qSlope);
    ProductPositive(variance, config.r);
  }

  lemma PredictionMinors(a: real, b: real, d: real, q: real, s: real, next: Mat)
    requires a * d - b * b > 0.0 && a + b + b + d > 0.0 && d > 0.0 && q >= 0.0 && s >= 0.0
    requires next == Mat(a + b + b + d + q, b + d, b + d, d + s)
    ensures next.a > 0.0 && Det(next) > 0.0
  {
    var sum := a + b + b + d;
    TransitionDeterminant(a, b, d);
    DiagonalAdds(sum, b + d, d, q, s);
    ProductNonnegative(q, d + s);
    ProductNonnegative(s, sum);
  }

  // ----- Correction keeps the covariance positive -----

  lemma CorrectedEntries(p: Mat, g: Vec)
    ensures Corrected(p, g) == Mat((1.0 - g.x) * p.a, (1.0 - g.x) * p.b, p.c - g.y * p.a, p.d - g.y * p.b)
  {
    assert Difference(IDENTITY, Outer(g, OBSERVED)) == Mat(1.0 - g.x, 0.0, -g.y, 1.0);
    MulLower(1.0 - g.x, -g.y, p);
    Negate(g.y, p.a);
    Negate(g.y, p.b);
    hide Mul, Outer, Difference;
  }

  lemma MulLower(t: real, u: real, p: Mat)
    ensures Mul(Mat(t, 0.0, u, 1.0), p) == Mat(t * p.a, t * p.b, u * p.a + p.c, u * p.b + p.d)
  {
  }

  lemma Negate(x: real, y: real)
    ensures (-x) * y == -(x * y)
  {
  }

  lemma CorrectedDeterminant(a: real, b: real, d: real, t: real, u: real)
    requires u * a == t * b
    ensures ((1.0 - t) * a) * (d - u * b) - ((1.0 - t) * b) * (b - u * a) == (1.0 - t) * (a * d - b * b)
  {
    Associate(1.0 - t, a, d - u * b);
    Associate(1.0 - t, b, b - u * a);
    assert a * (d - u * b) == a * d - (u * a) * b;
    assert b * (b - u * a) == b * b - (u * a) * b;
    Distribute(a * (d - u * b), -(b * (b - u * a)), 1.0 - t);
  }

  /** The gain's share of the variance, and what is left of it. */
  lemma GainShares(a: real, b: real, r: real, t: real, u: real)
    requires a > 0.0 && r > 0.0 && t == a / (a + r) && u == b / (a + r)
    ensures 0.0 < 1.0 - t && u * a == t * b && b - u * a == (1.0 - t) * b
  {
    var s := a + r;
    assert t * s == a && u * s == b;
    assert (1.0 - t) * s == r;
    if 1.0 - t <= 0.0 { ProductNonnegative(t - 1.0, s); }
    CrossRatios(b, a, s);
  }

  lemma ObservedVariance(p: Mat, config: Config, scale: real)
    ensures InnovationVariance(p, config, scale) == p.a + scale * scale * config.r
    ensures Apply(p, OBSERVED) == Vec(p.a, p.c)
  {
  }

  /** The corrected entries and their minors. */
  lemma CorrectedMinors(p: Mat, r: real, g: Vec)
    requires Symmetric(p) && p.a > 0.0 && Det(p) > 0.0 && r > 0.0
    requires g == Vec(p.a / (p.a + r), p.c / (p.a + r))
    ensures var next := Corrected(p, g);
            Symmetric(next) && next.a > 0.0 && Det(next) > 0.0 && Det(next) == (1.0 - g.x) * Det(p)
  {
    GainShares(p.a, p.b, r, g.x, g.y);
    CorrectedEntries(p, g);
    CorrectedDeterminant(p.a, p.b, p.d, g.x, g.y);
    ProductPositive(1.0 - g.x, p.a);
    ProductPositive(1.0 - g.x, Det(p));
    hide Corrected;
  }

  lemma GainEntries(p: Mat, config: Config, scale: real, r: real)
    requires r == scale * scale * config.r && p.a + r != 0.0
    ensures && InnovationVariance(p, config, scale) == p.a + r
            && DivideVec(Apply(p, OBSERVED), p.a + r) == Vec(p.a / (p.a + r), p.c / (p.a + r))
  {
    ObservedVariance(p, config, scale);
    hide Apply, InnovationVariance;
  }

  /** An observation leaves a positive definite covariance, smaller in determinant by the share of the noise. */
  lemma CorrectionKeepsPositive(p: Mat, config: Config, scale: real)
    requires PositiveDefinite(p) && Noisy(config, scale)
    ensures InnovationVariance(p, config, scale) > 0.0
    ensures var g := DivideVec(Apply(p, OBSERVED), InnovationVariance(p, config, scale));
            PositiveDefinite(Corrected(p, g)) && Det(Corrected(p, g)) == (1.0 - g.x) * Det(p)
  {
    hide *;
    PositiveMakesMinors(p);
    PositiveIsSymmetric(p);
    var q, s, r := NoiseSigns(config, scale);
    GainEntries(p, config, scale, r);
    var g := DivideVec(Apply(p, OBSERVED), InnovationVariance(p, config, scale));
    CorrectedMinors(p, r, g);
    MinorsMakePositive(Corrected(p, g));
  }

  lemma PositiveIsSymmetric(p: Mat)
    requires PositiveDefinite(p)
    ensures Symmetric(p)
  {
  }

  // ----- Correction is a least-squares update -----

  lemma CorrectedIsDifference(p: Mat, g: Vec)
    ensures Corrected(p, g) == Difference(p, Mul(Outer(g, OBSERVED), p))
  {
    var o := Outer(g, OBSERVED);
    MulColumns(Difference(IDENTITY, o), p);
    MulColumns(o, p);
    SumColumns(p, Mul(o, p));
    ApplyDifference(IDENTITY, o, Left(p));
    ApplyDifference(IDENTITY, o, Right(p));
    ApplyIdentity(Left(p));
    ApplyIdentity(Right(p));
    hide Mul, Outer, Apply, Minus, Difference, Left, Right;
    ByColumns(Corrected(p, g), Difference(p, Mul(o, p)));
  }

  lemma ApplyDifference(m: Mat, n: Mat, v: Vec)
    ensures Apply(Difference(m, n), v) == Minus(Apply(m, v), Apply(n, v))
  {
    Distribute(m.a, -n.a, v.x);
    Distribute(m.b, -n.b, v.y);
    Distribute(m.c, -n.c, v.x);
    Distribute(m.d, -n.d, v.y);
  }

  /** One correction of the filter, with noise `r`, is one recursive least-squares step before its rescaling. */
  lemma CorrectionIsStep(p: Mat, ahead: Vec, y: real, r: real, g: Vec)
    requires r != 0.0 && Denominator(r, p, OBSERVED) != 0.0 && g == Gain(r, p, OBSERVED)
    ensures var st := Step(r, State(ahead, p), OBSERVED, y);
            && Plus(ahead, Times(y - Dot(OBSERVED, ahead), g)) == st.theta
            && Corrected(p, g) == Scale(r, st.covariance)
  {
    CorrectedIsDifference(p, g);
    DivideMatBack(Difference(p, Mul(Outer(g, OBSERVED), p)), r);
    hide Corrected, Mul, Outer, Difference, Apply, Dot, Gain, Denominator, DivideMat, Plus, Times;
  }

  // What the filter knows after an observation, in terms of precision: the prior precision `a` plus the
  // observation's, and a state that weighs the prediction and the observation by them.
  lemma CorrectionAddsPrecision(a: Mat, p: Mat, ahead: Vec, y: real, r: real, g: Vec)
    requires Mul(a, p) == IDENTITY && r != 0.0 && Denominator(r, p, OBSERVED) != 0.0 && g == Gain(r, p, OBSERVED)
    ensures Mul(Updated(a, r, OBSERVED), Corrected(p, g)) == Scale(r, IDENTITY)
    ensures Apply(Updated(a, r, OBSERVED), Plus(ahead, Times(y - Dot(OBSERVED, ahead), g)))
            == Plus(Times(r, Apply(a, ahead)), Times(y, OBSERVED))
  {
    hide *;
    var st := State(ahead, p);
    CorrectionIsStep(p, ahead, y, r, g);
    CovarianceInverts(r, a, st, OBSERVED, y);
    MulScale(Updated(a, r, OBSERVED), r, Step(r, st, OBSERVED, y).covariance);
    NormalEquations(r, a, st, OBSERVED, y, Apply(a, ahead));
  }

  // ----- The filter -----

  lemma StartIsPositive(prefix: seq<real>, scale: real)
    requires prefix != [] && scale > 0.0
    ensures PositiveDefinite(Start(prefix, scale).covariance)
  {
    var variance := SquareSign(scale);
    var p := Start(prefix, scale).covariance;
    assert p == Mat(variance * 10.0, 0.0, 0.0, variance * 10.0);
    ProductPositive(variance, 10.0);
    ProductPositive(p.a, p.d);
    assert Det(p) == p.a * p.d;
    hide Det;
    MinorsMakePositive(p);
  }

  lemma ObserveKeepsPositive(f: Filter, y: real, config: Config, scale: real)
    requires PositiveDefinite(f.covariance) && Noisy(config, scale)
    ensures InnovationVariance(Predicted(f.covariance, config, scale), config, scale) > 0.0
    ensures PositiveDefinite(Observe(f, y, config, scale).covariance)
  {
    PredictionKeepsPositive(f.covariance, config, scale);
    CorrectionKeepsPositive(Predicted(f.covariance, config, scale), config, scale);
    hide Predicted, InnovationVariance, Corrected, PositiveDefinite, Dot, Apply;
  }

  /** The filter after the first `n` values. It is always defined: the innovation variance stays positive. */
  ghost function FilterAfter(prefix: seq<real>, n: nat, config: Config, scale: real): (f: Filter)
    requires 1 <= n <= |prefix| && Noisy(config, scale)
    ensures PositiveDefinite(f.covariance)
  {
    if n == 1 then
      StartIsPositive(prefix, scale);
      Start(prefix, scale)
    else
      var before := FilterAfter(prefix, n - 1, config, scale);
      ObserveKeepsPositive(before, prefix[n - 1], config, scale);
      Observe(before, prefix[n - 1], config, scale)
  }

  lemma FilterNext(prefix: seq<real>, n: nat, config: Config, scale: real)
    requires 1 <= n < |prefix| && Noisy(config, scale)
    ensures var before := FilterAfter(prefix, n, config, scale);
            && InnovationVariance(Predicted(before.covariance, config, scale), config, scale) > 0.0
            && FilterAfter(prefix, n + 1, config, scale) == Observe(before, prefix[n], config, scale)
  {
    ObserveKeepsPositive(FilterAfter(prefix, n, config, scale), prefix[n], config, scale);
    hide Predicted, InnovationVariance, PositiveDefinite, Observe;
  }

  // ----- What the filter computes -----

  /** How badly `theta` fits: its distance from the prediction, by the precision `a`, and its squared residual. */
  function StepCost(a: Mat, ahead: Vec, y: real, r: real, theta: Vec): real
    requires r != 0.0
  {
    Quad(a, Minus(theta, ahead)) + (y - theta.x) * (y - theta.x) / r
  }

  /** The only minimiser of the cost of a step. */
  ghost predicate BestFit(a: Mat, ahead: Vec, y: real, r: real, best: Vec)
    requires r != 0.0
  {
    forall theta: Vec | theta != best :: StepCost(a, ahead, y, r, best) < StepCost(a, ahead, y, r, theta)
  }

  /** The new state is the best fit to a prediction and an observation; the new precision is the sum of theirs. */
  ghost predicate Combines(predicted: Mat, ahead: Vec, y: real, r: real, next: Filter) {
    && Det(predicted) != 0.0 && r != 0.0
    && var a := Inverse(predicted);
       var precision := Mat(a.a + 1.0 / r, a.b, a.c, a.d);
       && BestFit(a, ahead, y, r, next.state)
       && Det(precision) != 0.0 && next.covariance == Inverse(precision)
  }

  function Noise(config: Config, scale: real): real { scale * scale * config.r }

  /** One step of a filter, without its gain: the level gains the slope, then prediction and observation combine. */
  ghost predicate FilterStep(before: Filter, y: real, config: Config, scale: real, next: Filter) {
    Combines(Spread(before.covariance, config, scale), Vec(before.state.x + before.state.y, before.state.y), y,
             Noise(config, scale), next)
  }

  /** The first value, with the first difference as slope; either variance is ten times the squared scale. */
  predicate Begins(prefix: seq<real>, scale: real, f: Filter)
    requires prefix != []
  {
    && f.state.x == prefix[0] && f.state.y == (if |prefix| > 1 then prefix[1] - prefix[0] else 0.0)
    && f.covariance == Mat(10.0 * (scale * scale), 0.0, 0.0, 10.0 * (scale * scale))
  }

  /** A filter over a prefix makes one step for every value after the first. */
  ghost predicate FilterRun(run: seq<Filter>, prefix: seq<real>, config: Config, scale: real)
    requires prefix != [] && Noisy(config, scale)
  {
    && |run| == |prefix|
    && Begins(prefix, scale, run[0])
    && forall i | 1 <= i < |run| :: FilterStep(run[i - 1], prefix[i], config, scale, run[i])
  }

  lemma CostTimesNoise(form: real, square: real, r: real)
    requires r != 0.0
    ensures r * (form + square / r) == r * form + square
  {
    assert r * (square / r) == square;
    Distribute(form, square / r, r);
  }

  /** The cost, times the noise, is a quadratic with the updated precision and the weighed moments. */
  lemma StepCostIsQuadratic(a: Mat, ahead: Vec, y: real, r: real, theta: Vec)
    requires Symmetric(a) && r != 0.0
    ensures r * StepCost(a, ahead, y, r, theta) ==
            Quad(Updated(a, r, OBSERVED), theta)
            - 2.0 * Dot(Plus(Times(r, Apply(a, ahead)), Times(y, OBSERVED)), theta)
            + (r * Quad(a, ahead) + y * y)
  {
    var form := Quad(a, Minus(theta, ahead));
    ObservedPart(theta);
    CostTimesNoise(form, (y - theta.x) * (y - theta.x), r);
    hide *;
    QuadMinus(a, theta, ahead);
    QuadUpdated(a, r, OBSERVED, theta);
    MomentsDot(r, Apply(a, ahead), y, OBSERVED, theta);
    CostStep(r, y, theta.x, form, Quad(a, theta), Dot(Apply(a, ahead), theta), Quad(a, ahead),
      r * StepCost(a, ahead, y, r, theta), Quad(Updated(a, r, OBSERVED), theta),
      Dot(Plus(Times(r, Apply(a, ahead)), Times(y, OBSERVED)), theta), r * Quad(a, ahead) + y * y);
  }

  lemma ObservedPart(theta: Vec)
    ensures Dot(OBSERVED, theta) == theta.x
  {
  }

  /** A state that solves the weighed equations is the best fit. */
  lemma SolutionIsBest(a: Mat, ahead: Vec, y: real, r: real, best: Vec)
    requires PositiveDefinite(a) && r > 0.0
    requires Apply(Updated(a, r, OBSERVED), best) == Plus(Times(r, Apply(a, ahead)), Times(y, OBSERVED))
    ensures BestFit(a, ahead, y, r, best)
  {
    InformationStaysPositive(r, a, OBSERVED);
    hide Updated, Apply, PositiveDefinite, StepCost, Plus, Times;
    forall theta: Vec | theta != best
      ensures StepCost(a, ahead, y, r, best) < StepCost(a, ahead, y, r, theta)
    {
      SolutionIsBetter(a, ahead, y, r, best, theta);
    }
  }

  lemma SolutionIsBetter(a: Mat, ahead: Vec, y: real, r: real, best: Vec, theta: Vec)
    requires PositiveDefinite(a) && PositiveDefinite(Updated(a, r, OBSERVED)) && r > 0.0 && theta != best
    requires Apply(Updated(a, r, OBSERVED), best) == Plus(Times(r, Apply(a, ahead)), Times(y, OBSERVED))
    ensures StepCost(a, ahead, y, r, best) < StepCost(a, ahead, y, r, theta)
  {
    hide *;
    var u := Updated(a, r, OBSERVED);
    PositiveIsSymmetric(a);
    PositiveIsSymmetric(u);
    DistinctDiffer(theta, best);
    FormIsPositive(u, Minus(theta, best));
    StepCostIsQuadratic(a, ahead, y, r, theta);
    StepCostIsQuadratic(a, ahead, y, r, best);
    FormAtPoint(u, best);
    QuadMinus(u, theta, best);
    BelowByNoise(r, StepCost(a, ahead, y, r, best), StepCost(a, ahead, y, r, theta));
  }

  lemma FormIsPositive(m: Mat, v: Vec)
    requires PositiveDefinite(m) && v != ZERO
    ensures Quad(m, v) > 0.0
  {
  }

  lemma BelowByNoise(r: real, x: real, y: real)
    requires r > 0.0 && r * x < r * y
    ensures x < y
  {
    if x >= y { ProductNonnegative(r, x - y); }
  }

  lemma ScaleMul(s: real, m: Mat, n: Mat)
    ensures Mul(Scale(s, m), n) == Scale(s, Mul(m, n))
  {
    MulColumns(Scale(s, m), n);
    MulColumns(m, n);
    ApplyScale(s, m, Left(n));
    ApplyScale(s, m, Right(n));
    ScaleColumns(s, Mul(m, n));
    hide *;
    ByColumns(Mul(Scale(s, m), n), Scale(s, Mul(m, n)));
  }

  lemma SquareFactor(s: real, x: real, y: real)
    ensures (s * x) * (s * y) == (s * s) * (x * y)
  {
    Associate(s, x, s * y);
    assert x * (s * y) == s * (x * y);
    Associate(s, s, x * y);
  }

  lemma DetScale(s: real, m: Mat)
    requires Det(m) == 0.0
    ensures Det(Scale(s, m)) == 0.0
  {
    SquareFactor(s, m.a, m.d);
    SquareFactor(s, m.b, m.c);
  }

  lemma UpdatedIsScaled(a: Mat, r: real)
    requires r != 0.0
    ensures Updated(a, r, OBSERVED) == Scale(r, Mat(a.a + 1.0 / r, a.b, a.c, a.d))
  {
    Distribute(a.a, 1.0 / r, r);
  }

  /** The corrected covariance inverts the precision of the prediction plus that of the observation. */
  lemma PrecisionInverts(a: Mat, r: real, c: Mat)
    requires PositiveDefinite(a) && r > 0.0 && Mul(Updated(a, r, OBSERVED), c) == Scale(r, IDENTITY)
    ensures var precision := Mat(a.a + 1.0 / r, a.b, a.c, a.d);
            Det(precision) != 0.0 && c == Inverse(precision)
  {
    var precision := Mat(a.a + 1.0 / r, a.b, a.c, a.d);
    InformationStaysPositive(r, a, OBSERVED);
    PositiveMakesMinors(Updated(a, r, OBSERVED));
    UpdatedIsScaled(a, r);
    ScaleMul(r, precision, c);
    CancelMat(r, Mul(precision, c), IDENTITY);
    if Det(precision) == 0.0 { DetScale(r, precision); }
    hide *;
    InverseIsUnique(precision, c);
  }

  lemma InverseStaysPositive(p: Mat)
    requires PositiveDefinite(p)
    ensures Det(p) != 0.0 && PositiveDefinite(Inverse(p)) && Mul(Inverse(p), p) == IDENTITY
  {
    PositiveMakesMinors(p);
    InverseUndoes(p);
    assert Symmetric(Inverse(p));
    hide PositiveDefinite, Det, Mul;
    CovariancePositive(p, Inverse(p));
  }

  /** The gain of the filter is that of the recursive step. */
  lemma GainAgrees(p: Mat, config: Config, scale: real, r: real)
    requires r == scale * scale * config.r && InnovationVariance(p, config, scale) != 0.0
    ensures Denominator(r, p, OBSERVED) == InnovationVariance(p, config, scale)
    ensures DivideVec(Apply(p, OBSERVED), InnovationVariance(p, config, scale)) == Gain(r, p, OBSERVED)
  {
    hide Dot, Apply;
  }

  lemma AheadOf(v: Vec)
    ensures Apply(TRANSITION, v) == Vec(v.x + v.y, v.y)
  {
  }

  /** A correction by the gain combines prediction and observation. */
  lemma CorrectionCombines(p: Mat, ahead: Vec, y: real, r: real, gain: Vec)
    requires PositiveDefinite(p) && r > 0.0 && Denominator(r, p, OBSERVED) != 0.0 && gain == Gain(r, p, OBSERVED)
    ensures Combines(p, ahead, y, r,
                     Filter(Plus(ahead, Times(y - Dot(OBSERVED, ahead), gain)), Corrected(p, gain)))
  {
    InverseStaysPositive(p);
    hide PositiveDefinite, Corrected, Dot, Apply, Det, Inverse, BestFit, Updated, Plus, Times, Gain, Denominator, Scale,
      Mul;
    CorrectionAddsPrecision(Inverse(p), p, ahead, y, r, gain);
    SolutionIsBest(Inverse(p), ahead, y, r, Plus(ahead, Times(y - Dot(OBSERVED, ahead), gain)));
    PrecisionInverts(Inverse(p), r, Corrected(p, gain));
  }

  lemma ObserveParts(f: Filter, y: real, config: Config, scale: real, p: Mat, gain: Vec)
    requires p == Predicted(f.covariance, config, scale) && InnovationVariance(p, config, scale) != 0.0
    requires gain == DivideVec(Apply(p, OBSERVED), InnovationVariance(p, config, scale))
    ensures var ahead := Vec(f.state.x + f.state.y, f.state.y);
            Observe(f, y, config, scale) ==
            Filter(Plus(ahead, Times(y - Dot(OBSERVED, ahead), gain)), Corrected(p, gain))
  {
    AheadOf(f.state);
    hide Predicted, InnovationVariance, Corrected, Dot, Apply, Plus, Times, DivideVec;
  }

  /** One round of the filter is a step. */
  lemma ObserveIsStep(f: Filter, y: real, config: Config, scale: real)
    requires PositiveDefinite(f.covariance) && Noisy(config, scale)
    requires InnovationVariance(Predicted(f.covariance, config, scale), config, scale) != 0.0
    ensures FilterStep(f, y, config, scale, Observe(f, y, config, scale))
  {
    var p := Predicted(f.covariance, config, scale);
    var q, s, r := NoiseSigns(config, scale);
    assert r == Noise(config, scale);
    PredictedEntries(f.covariance, config, scale);
    hide Spread, Noise, Combines, Predicted, InnovationVariance, PositiveDefinite, Apply, DivideVec, Observe, Gain,
      Denominator, Plus, Times, Dot, Corrected;
    PredictionKeepsPositive(f.covariance, config, scale);
    var gain := DivideVec(Apply(p, OBSERVED), InnovationVariance(p, config, scale));
    GainAgrees(p, config, scale, r);
    CorrectionCombines(p, Vec(f.state.x + f.state.y, f.state.y), y, r, gain);
    ObserveParts(f, y, config, scale, p, gain);
  }

  /** The states after one, two and more values, up to `n`. */
  ghost function RunOf(prefix: seq<real>, n: nat, config: Config, scale: real): (run: seq<Filter>)
    requires 1 <= n <= |prefix| && Noisy(config, scale)
    ensures |run| == n && forall i | 0 <= i < n :: run[i] == FilterAfter(prefix, i + 1, config, scale)
  {
    seq(n, i requires 0 <= i < n => FilterAfter(prefix, i + 1, config, scale))
  }

  /** The filter of the loop is a filter over the prefix. */
  lemma LoopIsRun(prefix: seq<real>, config: Config, scale: real)
    requires prefix != [] && Noisy(config, scale)
    ensures FilterRun(RunOf(prefix, |prefix|, config, scale), prefix, config, scale)
  {
    var run := RunOf(prefix, |prefix|, config, scale);
    assert FilterAfter(prefix, 1, config, scale) == Start(prefix, scale);
    assert Begins(prefix, scale, Start(prefix, scale));
    hide FilterAfter, FilterStep, InnovationVariance, Predicted, PositiveDefinite, Observe, Noisy, Begins, Start;
    forall i | 1 <= i < |run|
      ensures FilterStep(run[i - 1], prefix[i], config, scale, run[i])
    {
      FilterNext(prefix, i, config, scale);
      ObserveIsStep(run[i - 1], prefix[i], config, scale);
    }
  }

  /** The level that a filter over the prefix ends with, plus its slope for every step. */
  ghost predicate FilterForecast(prefix: seq<real>, horizon: int, config: Config, scale: real, y: real)
    requires prefix != [] && Noisy(config, scale)
  {
    exists run: seq<Filter> | FilterRun(run, prefix, config, scale) ::
      y == run[|prefix| - 1].state.x + horizon as real * run[|prefix| - 1].state.y
  }

  lemma LoopForecasts(prefix: seq<real>, horizon: int, config: Config, scale: real)
    requires prefix != [] && Noisy(config, scale)
    ensures FilterForecast(prefix, horizon, config, scale,
                           Ahead(FilterAfter(prefix, |prefix|, config, scale).state, horizon))
  {
    hide *;
    LoopIsRun(prefix, config, scale);
    var run := RunOf(prefix, |prefix|, config, scale);
    RunForecasts(run, prefix, horizon, config, scale);
  }

  lemma RunForecasts(run: seq<Filter>, prefix: seq<real>, horizon: int, config: Config, scale: real)
    requires prefix != [] && Noisy(config, scale) && FilterRun(run, prefix, config, scale)
    ensures FilterForecast(prefix, horizon, config, scale, Ahead(run[|prefix| - 1].state, horizon))
  {
    hide FilterStep, Begins, Noisy;
  }

  lemma {:induction false} RunsAgree(run: seq<Filter>, other: seq<Filter>, prefix: seq<real>, config: Config,
                                     scale: real, n: nat)
    requires prefix != [] && Noisy(config, scale) && n <= |prefix|
    requires FilterRun(run, prefix, config, scale) && FilterRun(other, prefix, config, scale)
    ensures run[..n] == other[..n]
  {
    if n > 0 {
      RunsAgree(run, other, prefix, config, scale, n - 1);
      if n > 1 {
        var i := n - 1;
        assert run[i - 1] == run[..n - 1][i - 1] == other[..n - 1][i - 1] == other[i - 1];
        hide FilterStep;
        assert FilterStep(run[i - 1], prefix[i], config, scale, run[i]);
        assert FilterStep(other[i - 1], prefix[i], config, scale, other[i]);
        StepIsUnique(run[i - 1], prefix[i], config, scale, run[i], other[i]);
      }
      assert run[..n] == run[..n - 1] + [run[n - 1]] && other[..n] == other[..n - 1] + [other[n - 1]];
    }
  }

  /** There is only one filter over a prefix. */
  lemma RunIsUnique(run: seq<Filter>, other: seq<Filter>, prefix: seq<real>, config: Config, scale: real)
    requires prefix != [] && Noisy(config, scale)
    requires FilterRun(run, prefix, config, scale) && FilterRun(other, prefix, config, scale)
    ensures run == other
  {
    RunsAgree(run, other, prefix, config, scale, |prefix|);
    assert run[..|prefix|] == run && other[..|prefix|] == other;
  }

  lemma CombinesOnce(predicted: Mat, ahead: Vec, y: real, r: real, next: Filter, other: Filter)
    requires Combines(predicted, ahead, y, r, next) && Combines(predicted, ahead, y, r, other)
    ensures next == other
  {
    BestIsUnique(Inverse(predicted), ahead, y, r, next.state, other.state);
    hide BestFit, Inverse, Det;
  }

  lemma StepIsUnique(before: Filter, y: real, config: Config, scale: real, next: Filter, other: Filter)
    requires FilterStep(before, y, config, scale, next) && FilterStep(before, y, config, scale, other)
    ensures next == other
  {
    hide Combines, Spread, Noise;
    CombinesOnce(Spread(before.covariance, config, scale), Vec(before.state.x + before.state.y, before.state.y), y,
                 Noise(config, scale), next, other);
  }

  lemma BestIsBelow(a: Mat, ahead: Vec, y: real, r: real, best: Vec, theta: Vec)
    requires r != 0.0 && BestFit(a, ahead, y, r, best)
    ensures best != theta ==> StepCost(a, ahead, y, r, best) < StepCost(a, ahead, y, r, theta)
  {
  }

  lemma BestIsUnique(a: Mat, ahead: Vec, y: real, r: real, best: Vec, other: Vec)
    requires r != 0.0 && BestFit(a, ahead, y, r, best) && BestFit(a, ahead, y, r, other)
    ensures best == other
  {
    hide StepCost;
    BestIsBelow(a, ahead, y, r, best, other);
    BestIsBelow(a, ahead, y, r, other, best);
  }

  /** One round of the loop: predict, then correct by the innovation. */
  method Advance(ghost prefix: seq<real>, ghost n: nat, f: Filter, observation: real, config: Config, scale: real)
    returns (next: Filter)
    requires 1 <= n < |prefix| && Noisy(config, scale) && observation == prefix[n]
             && f == FilterAfter(prefix, n, config, scale)
    ensures next == FilterAfter(prefix, n + 1, config, scale)
  {
    FilterNext(prefix, n, config, scale);
    hide Predicted, InnovationVariance, Corrected, PositiveDefinite, Dot, Apply, FilterAfter;
    var state, covariance := Apply(TRANSITION, f.state), Predicted(f.covariance, config, scale);
    var innovation := observation - Dot(OBSERVED, state);
    var gain := DivideVec(Apply(covariance, OBSERVED), InnovationVariance(covariance, config, scale));
    next := Filter(Plus(state, Times(innovation, gain)), Corrected(covariance, gain));
  }

  /** The level, `horizon` steps ahead. */
  function Ahead(state: Vec, horizon: int): real {
    state.x + horizon as real * state.y
  }

  /** `_kalman_prediction`: the level and the slope, carried `horizon` steps ahead. */
  method KalmanPrediction(prefix: seq<real>, horizon: int, config: Config, scale: real) returns (r: Result<real>)
    requires Noisy(config, scale)
    ensures r.Failure? <==> prefix == []
    ensures r.Success? ==>
              var f := FilterAfter(prefix, |prefix|, config, scale);
              r.value == Ahead(f.state, horizon) && PositiveDefinite(f.covariance)
    ensures r.Success? ==> FilterForecast(prefix, horizon, config, scale, r.value)
  {
    if prefix == [] { return Failure("index out of bounds"); }
    var f := Start(prefix, scale);
    assert FilterAfter(prefix, 1, config, scale) == f;
    LoopForecasts(prefix, horizon, config, scale);
    hide *;
    for index := 1 to |prefix|
      invariant FilterAfter(prefix, index, config, scale) == f
    {
      f := Advance(prefix, index, f, prefix[index], config, scale);
    }
    return Success(Ahead(f.state, horizon));
  }

  // ----- Affine prefixes -----

  lemma ObserveOnLine(f: Filter, y: real, config: Config, scale: real)
    requires InnovationVariance(Predicted(f.covariance, config, scale), config, scale) != 0.0
    requires f.state.x + f.state.y == y
    ensures Observe(f, y, config, scale).state == Vec(y, f.state.y)
  {
    var p := Predicted(f.covariance, config, scale);
    var gain := DivideVec(Apply(p, OBSERVED), InnovationVariance(p, config, scale));
    var ahead := Apply(TRANSITION, f.state);
    assert ahead == Vec(y, f.state.y) && Dot(OBSERVED, ahead) == y;
    NoInnovation(ahead, gain);
    hide Predicted, InnovationVariance, Corrected, Apply, Dot, Times, Plus;
  }

  lemma LineSteps(y: real, next: real, a: real, b: real, i: int)
    requires OnLine(y, a, b, i) && OnLine(next, a, b, i + 1)
    ensures y + b == next
  {
    assert b * (i + 1) as real == b * i as real + b;
  }

  /** On a straight line every innovation is zero: the level is the last value and the slope that of the line. */
  lemma {:induction false} FilterOnLine(prefix: seq<real>, n: nat, config: Config, scale: real, a: real, b: real)
    requires 2 <= |prefix| && 1 <= n <= |prefix| && Noisy(config, scale) && Affine(prefix, a, b)
    ensures FilterAfter(prefix, n, config, scale).state == Vec(prefix[n - 1], b)
  {
    if n == 1 {
      LineSteps(prefix[0], prefix[1], a, b, 0);
      assert FilterAfter(prefix, 1, config, scale).state == Start(prefix, scale).state;
    } else {
      LineSteps(prefix[n - 2], prefix[n - 1], a, b, n - 2);
      hide *;
      FilterOnLine(prefix, n - 1, config, scale, a, b);
      FilterNext(prefix, n - 1, config, scale);
      ObserveOnLine(FilterAfter(prefix, n - 1, config, scale), prefix[n - 1], config, scale);
    }
  }
}
