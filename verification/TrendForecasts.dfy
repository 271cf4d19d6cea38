// The trend branches of `predict_prefix` in models.py: the fits and filters that extend a straight line agree on
// every straight line, each with the line itself.
module TrendForecasts {
  import opened Basics
  import opened PlaneAlgebra
  import opened RecursiveLeastSquares
  import KalmanTrend

  // ----- The straight-line fit -----

  function SumPlaces(n: nat): real {
    if n == 0 then 0.0 else SumPlaces(n - 1) + (n - 1) as real
  }

  function SumValues(values: seq<real>, n: nat): real
    requires n <= |values|
  {
    if n == 0 then 0.0 else SumValues(values, n - 1) + values[n - 1]
  }

  /** `sum((x - x_bar) ** 2)`. */
  function Spread(n: nat, center: real): real {
    if n == 0 then 0.0 else Spread(n - 1, center) + ((n - 1) as real - center) * ((n - 1) as real - center)
  }

  /** `sum((x - x_bar) * (values - y_bar))`. */
  function Covariation(values: seq<real>, n: nat, center: real, level: real): real
    requires n <= |values|
  {
    if n == 0 then 0.0
    else Covariation(values, n - 1, center, level) + ((n - 1) as real - center) * (values[n - 1] - level)
  }

  /** `_linear_fit`: the intercept and the slope of the least-squares line. */
  function LinearFit(values: seq<real>): Vec
    requires values != []
  {
    var n := |values|;
    var center, level := SumPlaces(n) / n as real, SumValues(values, n) / n as real;
    var spread := Spread(n, center);
    var slope := if spread == 0.0 then 0.0 else Covariation(values, n, center, level) / spread;
    Vec(level - slope * center, slope)
  }

  lemma LineSum(total: real, places: real, n: real, a: real, b: real, y: real, i: real)
    requires total == a * n + b * places && y == a + b * i
    ensures total + y == a * (n + 1.0) + b * (places + i)
  {
  }

  lemma {:induction false} ValuesOnLine(values: seq<real>, n: nat, a: real, b: real)
    requires n <= |values| && Affine(values, a, b)
    ensures SumValues(values, n) == a * n as real + b * SumPlaces(n)
  {
    if n > 0 {
      ValuesOnLine(values, n - 1, a, b);
      assert OnLine(values[n - 1], a, b, n - 1);
      LineSum(SumValues(values, n - 1), SumPlaces(n - 1), (n - 1) as real, a, b, values[n - 1], (n - 1) as real);
    }
  }

  lemma TermOnLine(total: real, spread: real, b: real, d: real, e: real)
    requires total == b * spread && e == b * d
    ensures total + d * e == b * (spread + d * d)
  {
    assert d * e == b * (d * d);
  }

  lemma Deviation(y: real, level: real, a: real, b: real, i: real, center: real)
    requires y == a + b * i && level == a + b * center
    ensures y - level == b * (i - center)
  {
  }

  lemma {:induction false} CovariationOnLine(values: seq<real>, n: nat, center: real, level: real, a: real, b: real)
    requires n <= |values| && Affine(values, a, b) && level == a + b * center
    ensures Covariation(values, n, center, level) == b * Spread(n, center)
  {
    if n > 0 {
      CovariationOnLine(values, n - 1, center, level, a, b);
      assert OnLine(values[n - 1], a, b, n - 1);
      Deviation(values[n - 1], level, a, b, (n - 1) as real, center);
      TermOnLine(Covariation(values, n - 1, center, level), Spread(n - 1, center), b, (n - 1) as real - center,
                 values[n - 1] - level);
    }
  }

  /** Two different places cannot both be the center. */
  lemma {:induction false} SpreadPositive(n: nat, center: real)
    requires n >= 1
    ensures Spread(n, center) >= 0.0
    ensures n >= 2 || center != 0.0 ==> Spread(n, center) > 0.0
  {
    var square := SquareSign((n - 1) as real - center);
    if n == 1 {
      assert Spread(1, center) == 0.0 + square;
    } else {
      SpreadPositive(n - 1, center);
      assert Spread(n, center) == Spread(n - 1, center) + square;
    }
  }

  lemma MeanOnLine(total: real, places: real, n: real, a: real, b: real)
    requires n > 0.0 && total == a * n + b * places
    ensures total / n == a + b * (places / n)
  {
    var mean := places / n;
    assert mean * n == places;
    MeanScales(total, mean, n, a, b);
  }

  lemma MeanScales(total: real, mean: real, n: real, a: real, b: real)
    requires n > 0.0 && total == a * n + b * (mean * n)
    ensures total / n == a + b * mean
  {
    Distribute(a, b * mean, n);
    Associate(b, mean, n);
    Quotient(total, a + b * mean, n);
  }

  lemma Quotient(c: real, b: real, s: real)
    requires s != 0.0 && c == b * s
    ensures c / s == b
  {
  }

  lemma FitParts(covariation: real, spread: real, level: real, center: real, a: real, b: real) returns (slope: real)
    requires spread != 0.0 && covariation == b * spread && level == a + b * center
    ensures slope == covariation / spread == b && level - slope * center == a
  {
    Quotient(covariation, b, spread);
    slope := b;
  }

  /** The fit of points on a line is the line. */
  lemma FitOnLine(values: seq<real>, a: real, b: real)
    requires |values| >= 2 && Affine(values, a, b)
    ensures LinearFit(values) == Vec(a, b)
  {
    hide SumPlaces, SumValues, Spread, Covariation, Affine;
    var n := |values|;
    var center, level := SumPlaces(n) / n as real, SumValues(values, n) / n as real;
    ValuesOnLine(values, n, a, b);
    MeanOnLine(SumValues(values, n), SumPlaces(n), n as real, a, b);
    SpreadPositive(n, center);
    CovariationOnLine(values, n, center, level, a, b);
    var slope := FitParts(Covariation(values, n, center, level), Spread(n, center), level, center, a, b);
  }

  // ----- The fit minimises the squares -----

  function LineAt(line: Vec, i: int): real {
    line.x + line.y * i as real
  }

  function Residual(values: seq<real>, line: Vec, i: nat): real
    requires i < |values|
  {
    values[i] - LineAt(line, i)
  }

  /** The sum of the squared residuals of the first `n` values. */
  function SquaredError(values: seq<real>, n: nat, line: Vec): real
    requires n <= |values|
  {
    if n == 0 then 0.0
    else SquaredError(values, n - 1, line) + Residual(values, line, n - 1) * Residual(values, line, n - 1)
  }

  function ResidualSum(values: seq<real>, n: nat, line: Vec): real
    requires n <= |values|
  {
    if n == 0 then 0.0 else ResidualSum(values, n - 1, line) + Residual(values, line, n - 1)
  }

  /** The residuals, each times its distance from the center. */
  function ResidualMoment(values: seq<real>, n: nat, line: Vec, center: real): real
    requires n <= |values|
  {
    if n == 0 then 0.0
    else ResidualMoment(values, n - 1, line, center) + ((n - 1) as real - center) * Residual(values, line, n - 1)
  }

  lemma SumStep(sum: real, n: real, places: real, line: Vec, y: real, i: real)
    ensures (sum - line.x * n - line.y * places) + (y - (line.x + line.y * i))
            == (sum + y) - line.x * (n + 1.0) - line.y * (places + i)
  {
  }

  lemma {:induction false} ResidualsAddUp(values: seq<real>, n: nat, line: Vec)
    requires n <= |values|
    ensures ResidualSum(values, n, line) == SumValues(values, n) - line.x * n as real - line.y * SumPlaces(n)
  {
    if n > 0 {
      ResidualsAddUp(values, n - 1, line);
      SumStep(SumValues(values, n - 1), (n - 1) as real, SumPlaces(n - 1), line, values[n - 1], (n - 1) as real);
    }
  }

  lemma MomentStep(m0: real, c0: real, s0: real, m: real, c: real, s: real, slope: real, d: real, e: real, r: real)
    requires m0 == c0 - slope * s0 && r == e - slope * d
    requires m == m0 + d * r && c == c0 + d * e && s == s0 + d * d
    ensures m == c - slope * s
  {
    assert d * r == d * e - d * (slope * d);
    assert d * (slope * d) == slope * (d * d);
    assert slope * s == slope * s0 + slope * (d * d);
  }

  lemma CenteredResidual(values: seq<real>, line: Vec, center: real, level: real, i: nat)
    requires i < |values| && line.x == level - line.y * center
    ensures Residual(values, line, i) == (values[i] - level) - line.y * (i as real - center)
  {
    assert line.y * (i as real - center) == line.y * i as real - line.y * center;
  }

  lemma MomentParts(values: seq<real>, n: nat, line: Vec, center: real, level: real)
    requires 0 < n <= |values|
    ensures var d := (n - 1) as real - center;
            && ResidualMoment(values, n, line, center) ==
               ResidualMoment(values, n - 1, line, center) + d * Residual(values, line, n - 1)
            && Covariation(values, n, center, level) == Covariation(values, n - 1, center, level) +
                 d * (values[n - 1] - level)
            && Spread(n, center) == Spread(n - 1, center) + d * d
  {
    hide Residual;
  }

  /** The line passes through the level at the center. */
  predicate Centered(line: Vec, center: real, level: real) {
    line.x == level - line.y * center
  }

  predicate MomentBalance(values: seq<real>, n: nat, line: Vec, center: real, level: real)
    requires n <= |values|
  {
    ResidualMoment(values, n, line, center) == Covariation(values, n, center, level) - line.y * Spread(n, center)
  }

  lemma MomentsNext(values: seq<real>, n: nat, line: Vec, center: real, level: real)
    requires 0 < n <= |values| && Centered(line, center, level) && MomentBalance(values, n - 1, line, center, level)
    ensures MomentBalance(values, n, line, center, level)
  {
    hide ResidualMoment, Covariation, Spread, Residual;
    MomentParts(values, n, line, center, level);
    CenteredResidual(values, line, center, level, n - 1);
    MomentStep(
      ResidualMoment(values, n - 1, line, center), Covariation(values, n - 1, center, level), Spread(n - 1, center),
      ResidualMoment(values, n, line, center), Covariation(values, n, center, level), Spread(n, center),
      line.y, (n - 1) as real - center, values[n - 1] - level, Residual(values, line, n - 1));
  }

  lemma {:induction false} MomentsAddUp(values: seq<real>, n: nat, line: Vec, center: real, level: real)
    requires n <= |values| && Centered(line, center, level)
    ensures MomentBalance(values, n, line, center, level)
  {
    hide Centered;
    if n > 0 {
      hide MomentBalance;
      MomentsAddUp(values, n - 1, line, center, level);
      MomentsNext(values, n, line, center, level);
    }
  }

  lemma MeanCancels(sum: real, places: real, n: real, slope: real)
    requires n > 0.0
    ensures sum - (sum / n - slope * (places / n)) * n - slope * places == 0.0
  {
    var mean, level := places / n, sum / n;
    assert mean * n == places && level * n == sum;
    assert (level - slope * mean) * n == level * n - slope * (mean * n);
  }

  /** The normal equations: the residuals of the fit add up to zero, plain and centered. */
  lemma FitIsNormal(values: seq<real>)
    requires values != []
    ensures ResidualSum(values, |values|, LinearFit(values)) == 0.0
    ensures ResidualMoment(values, |values|, LinearFit(values), SumPlaces(|values|) / |values| as real) == 0.0
  {
    hide SumPlaces, SumValues, Spread, Covariation, ResidualSum, ResidualMoment;
    var n := |values|;
    var center, level := SumPlaces(n) / n as real, SumValues(values, n) / n as real;
    var line := LinearFit(values);
    ResidualsAddUp(values, n, line);
    MeanCancels(SumValues(values, n), SumPlaces(n), n as real, line.y);
    MomentsAddUp(values, n, line, center, level);
    assert MomentBalance(values, n, line, center, level);
    if Spread(n, center) == 0.0 {
      CovariationVanishes(values, center, level);
    } else {
      Multiplied(Covariation(values, n, center, level), Spread(n, center));
    }
  }

  lemma Multiplied(c: real, s: real)
    requires s != 0.0
    ensures c / s * s == c
  {
  }

  /** Without spread there is one value, at the center. */
  lemma CovariationVanishes(values: seq<real>, center: real, level: real)
    requires values != [] && Spread(|values|, center) == 0.0
    ensures Covariation(values, |values|, center, level) == 0.0
  {
    SpreadPositive(|values|, center);
    assert Covariation(values, 1, center, level) == 0.0 + (0.0 - center) * (values[0] - level);
  }

  lemma SquareStep(r: real, s: real, c: real, m: real, d: real, t: real)
    requires t == c + m * d && s == r - t
    ensures s * s == r * r - 2.0 * (c * r) - 2.0 * (m * (d * r)) + t * t
  {
    assert s * s == r * r - 2.0 * (r * t) + t * t;
    assert r * t == c * r + m * (d * r);
  }

  /** Error `f` is error `e`, less what the residual sums `w` and `m` take away, and a remainder. */
  predicate BalanceOf(e: real, f: real, w: real, m: real, c: real, tilt: real, q: real) {
    f == e - 2.0 * (c * w) - 2.0 * (tilt * m) + q
  }

  lemma ErrorStep(e0: real, f0: real, w0: real, m0: real, q0: real, e: real, f: real, w: real, m: real,
                  r: real, s: real, c: real, tilt: real, d: real, t: real, square: real)
    requires BalanceOf(e0, f0, w0, m0, c, tilt, q0)
    requires e == e0 + r * r && f == f0 + s * s && w == w0 + r && m == m0 + d * r
    requires t == c + tilt * d && s == r - t && square == t * t
    ensures BalanceOf(e, f, w, m, c, tilt, q0 + square)
  {
    SquareStep(r, s, c, tilt, d, t);
    assert c * w == c * w0 + c * r && tilt * m == tilt * m0 + tilt * (d * r);
  }

  /** How far `other` lies above `line` at the center. */
  function Shift(line: Vec, other: Vec, center: real): real {
    (other.x + other.y * center) - (line.x + line.y * center)
  }

  /** The residual from another line, and by how much it is less. */
  lemma AnotherResidual(values: seq<real>, line: Vec, other: Vec, center: real, i: nat) returns (t: real)
    requires i < |values|
    ensures t == Shift(line, other, center) + (other.y - line.y) * (i as real - center)
    ensures Residual(values, other, i) == Residual(values, line, i) - t
  {
    t := Shift(line, other, center) + (other.y - line.y) * (i as real - center);
    assert (other.y - line.y) * (i as real - center)
        == other.y * i as real - line.y * i as real - other.y * center + line.y * center;
  }

  /** The errors of two lines differ by two residual sums and a sum of squares. */
  predicate ErrorBalance(values: seq<real>, n: nat, line: Vec, other: Vec, center: real, q: real)
    requires n <= |values|
  {
    && BalanceOf(SquaredError(values, n, line), SquaredError(values, n, other), ResidualSum(values, n, line),
                 ResidualMoment(values, n, line, center), Shift(line, other, center), other.y - line.y, q)
    && q >= 0.0
  }

  lemma BalanceNext(values: seq<real>, n: nat, line: Vec, other: Vec, center: real, before: real) returns (q: real)
    requires 0 < n <= |values| && ErrorBalance(values, n - 1, line, other, center, before)
    ensures ErrorBalance(values, n, line, other, center, q)
  {
    hide *;
    var i := n - 1;
    var shift, tilt, d := Shift(line, other, center), other.y - line.y, i as real - center;
    BalanceParts(values, n, line, other, center);
    BalanceHolds(values, i, line, other, center, before);
    var t := AnotherResidual(values, line, other, center, i);
    var square := SquareSign(t);
    q := before + square;
    ErrorStep(
      SquaredError(values, i, line), SquaredError(values, i, other), ResidualSum(values, i, line),
      ResidualMoment(values, i, line, center), before,
      SquaredError(values, n, line), SquaredError(values, n, other), ResidualSum(values, n, line),
      ResidualMoment(values, n, line, center), Residual(values, line, i), Residual(values, other, i), shift, tilt, d, t,
      square);
    BalanceHolds(values, n, line, other, center, q);
  }

  lemma BalanceHolds(values: seq<real>, n: nat, line: Vec, other: Vec, center: real, q: real)
    requires n <= |values|
    ensures ErrorBalance(values, n, line, other, center, q) <==>
              && BalanceOf(SquaredError(values, n, line), SquaredError(values, n, other), ResidualSum(values, n, line),
                           ResidualMoment(values, n, line, center), Shift(line, other, center), other.y - line.y, q)
              && q >= 0.0
  {
    hide SquaredError, ResidualSum, ResidualMoment, Shift, BalanceOf;
  }

  lemma BalanceParts(values: seq<real>, n: nat, line: Vec, other: Vec, center: real)
    requires 0 < n <= |values|
    ensures var r, s := Residual(values, line, n - 1), Residual(values, other, n - 1);
            && SquaredError(values, n, line) == SquaredError(values, n - 1, line) + r * r
            && SquaredError(values, n, other) == SquaredError(values, n - 1, other) + s * s
            && ResidualSum(values, n, line) == ResidualSum(values, n - 1, line) + r
            && ResidualMoment(values, n, line, center) ==
               ResidualMoment(values, n - 1, line, center) + ((n - 1) as real - center) * r
  {
    hide Residual;
  }

  lemma {:induction false} ErrorOfAnother(values: seq<real>, n: nat, line: Vec, other: Vec, center: real)
    returns (q: real)
    requires n <= |values|
    ensures ErrorBalance(values, n, line, other, center, q)
  {
    if n == 0 {
      q := 0.0;
      assert ErrorBalance(values, 0, line, other, center, q);
    } else {
      var before := ErrorOfAnother(values, n - 1, line, other, center);
      hide ErrorBalance;
      q := BalanceNext(values, n, line, other, center, before);
    }
  }

  /** `_linear_fit` is the least-squares line: no line comes closer to the values. */
  lemma FitMinimisesError(values: seq<real>, other: Vec)
    requires values != []
    ensures SquaredError(values, |values|, LinearFit(values)) <= SquaredError(values, |values|, other)
  {
    hide LinearFit, SquaredError, ResidualSum, ResidualMoment, SumPlaces;
    var n := |values|;
    FitIsNormal(values);
    var q := ErrorOfAnother(values, n, LinearFit(values), other, SumPlaces(n) / n as real);
  }

  /** A least-squares line; a single value gets a flat one. */
  ghost predicate BestLine(values: seq<real>, line: Vec) {
    && values != []
    && (forall other: Vec :: SquaredError(values, |values|, line) <= SquaredError(values, |values|, other))
    && (|values| == 1 ==> line == Vec(values[0], 0.0))
  }

  lemma FitIsBest(values: seq<real>)
    requires values != []
    ensures BestLine(values, LinearFit(values))
  {
    forall other: Vec
      ensures SquaredError(values, |values|, LinearFit(values)) <= SquaredError(values, |values|, other)
    {
      FitMinimisesError(values, other);
    }
    if |values| == 1 {
      assert SumPlaces(1) == 0.0 && SumValues(values, 1) == values[0] && Spread(1, 0.0) == 0.0;
    }
  }

  // ----- The models -----

  datatype Model =
    | LastValue | GlobalDrift | LocalLinear(window: nat) | LocalTrendFilter(config: KalmanTrend.Config, scale: real)

  /** What the models' own configurations guarantee: a window, and noise. */
  predicate Configured(m: Model) {
    && (m.LocalLinear? ==> m.window >= 1)
    && (m.LocalTrendFilter? ==> KalmanTrend.Noisy(m.config, m.scale))
  }

  /** `values[-window:]`. */
  function Recent(values: seq<real>, window: nat): seq<real>
    requires window >= 1
  {
    if window >= |values| then values else values[|values| - window..]
  }

  function DriftSlope(values: seq<real>): real
    requires values != []
  {
    if |values| < 2 then 0.0 else (values[|values| - 1] - values[0]) / (|values| - 1) as real
  }

  /** The forecast of a configured model from a nonempty prefix. */
  ghost function Forecast(m: Model, values: seq<real>, horizon: int): real
    requires Configured(m) && values != []
  {
    match m
    case LastValue => values[|values| - 1]
    case GlobalDrift => KalmanTrend.Ahead(Vec(values[|values| - 1], DriftSlope(values)), horizon)
    case LocalLinear(window) =>
      var local := Recent(values, window);
      ForecastAt(LinearFit(local), |local| - 1, horizon)
    case LocalTrendFilter(config, scale) =>
      KalmanTrend.Ahead(KalmanTrend.FilterAfter(values, |values|, config, scale).state, horizon)
  }

  /** What a forecast means, whatever computed it. */
  ghost predicate Extrapolates(m: Model, values: seq<real>, horizon: int, y: real)
    requires Configured(m) && values != []
  {
    var first, last, steps := values[0], values[|values| - 1], |values| - 1;
    match m
    case LastValue => y == last
    case GlobalDrift =>
      // on the straight line through the first and the last value
      if steps == 0 then y == last else (y - last) * steps as real == horizon as real * (last - first)
    case LocalLinear(window) =>
      exists line :: BestLine(Recent(values, window), line) && y == LineAt(line, |Recent(values, window)| - 1 + horizon)
    case LocalTrendFilter(config, scale) =>
      // the level and slope that a filter over the values ends with
      KalmanTrend.FilterForecast(values, horizon, config, scale, y)
  }

  lemma ForecastExtrapolates(m: Model, values: seq<real>, horizon: int)
    requires Configured(m) && values != []
    ensures Extrapolates(m, values, horizon, Forecast(m, values, horizon))
  {
    match m
    case LastValue =>
    case GlobalDrift => DriftSpans(values, horizon);
    case LocalTrendFilter(config, scale) => KalmanTrend.LoopForecasts(values, horizon, config, scale);
    case LocalLinear(window) =>
      hide LinearFit, BestLine, Recent;
      FitIsBest(Recent(values, window));
      assert BestLine(Recent(values, window), LinearFit(Recent(values, window)));
  }

  lemma DriftSpans(values: seq<real>, horizon: int)
    requires values != []
    ensures Extrapolates(GlobalDrift, values, horizon, Forecast(GlobalDrift, values, horizon))
  {
    var steps, rise := |values| - 1, values[|values| - 1] - values[0];
    if steps > 0 {
      Multiplied(rise, steps as real);
      Associate(horizon as real, rise / steps as real, steps as real);
    }
  }

  // ----- Straight lines -----

  lemma RecentOnLine(values: seq<real>, window: nat, start: real, a: real, b: real)
    requires 1 <= window < |values| && Affine(values, a, b) && OnLine(start, a, b, |values| - window)
    ensures Affine(Recent(values, window), start, b)
  {
    var local, skip := Recent(values, window), |values| - window;
    forall i | 0 <= i < |local| ensures OnLine(local[i], start, b, i) {
      assert OnLine(values[skip + i], a, b, skip + i);
      assert b * (skip + i) as real == b * skip as real + b * i as real;
    }
  }

  /** The value of the line, `horizon` steps after `last`. */
  function LineAhead(a: real, b: real, last: int, horizon: int): real {
    a + b * (last + horizon) as real
  }

  lemma ReadAhead(y: real, a: real, b: real, last: int, horizon: int)
    requires OnLine(y, a, b, last)
    ensures KalmanTrend.Ahead(Vec(y, b), horizon) == LineAhead(a, b, last, horizon)
  {
    assert b * (last + horizon) as real == b * last as real + b * horizon as real;
  }

  lemma ReadFit(a: real, b: real, last: int, horizon: int)
    ensures ForecastAt(Vec(a, b), last, horizon) == LineAhead(a, b, last, horizon)
  {
  }

  lemma ReadFromRecent(start: real, a: real, b: real, skip: int, last: int, horizon: int)
    requires OnLine(start, a, b, skip)
    ensures LineAhead(start, b, last, horizon) == LineAhead(a, b, skip + last, horizon)
  {
    assert b * (skip + last + horizon) as real == b * skip as real + b * (last + horizon) as real;
  }

  lemma Rise(y: real, z: real, a: real, b: real, n: int)
    requires OnLine(y, a, b, n) && OnLine(z, a, b, 0)
    ensures y - z == b * n as real
  {
    assert b * 0 as real == 0.0;
  }

  lemma DriftOnLine(values: seq<real>, a: real, b: real)
    requires |values| >= 2 && Affine(values, a, b)
    ensures DriftSlope(values) == b
  {
    var n := |values| - 1;
    assert OnLine(values[n], a, b, n) && OnLine(values[0], a, b, 0);
    hide OnLine;
    Rise(values[n], values[0], a, b, n);
    Quotient(values[n] - values[0], b, n as real);
  }

  /** A model that looks at two or more points of the line. */
  predicate SeesTrend(m: Model) {
    m.GlobalDrift? || m.LocalTrendFilter? || (m.LocalLinear? && m.window >= 2)
  }

  /** Every trend model extends a straight line exactly, so they all agree on it. */
  lemma ForecastsExtendLine(m: Model, values: seq<real>, horizon: int, a: real, b: real)
    requires Configured(m) && SeesTrend(m) && |values| >= 2 && Affine(values, a, b)
    ensures Forecast(m, values, horizon) == LineAhead(a, b, |values| - 1, horizon)
  {
    match m
    case GlobalDrift => DriftExtends(values, horizon, a, b);
    case LocalTrendFilter(config, scale) => FilterExtends(values, horizon, config, scale, a, b);
    case LocalLinear(window) => LocalExtends(values, horizon, window, a, b);
  }

  lemma DriftExtends(values: seq<real>, horizon: int, a: real, b: real)
    requires |values| >= 2 && Affine(values, a, b)
    ensures Forecast(GlobalDrift, values, horizon) == LineAhead(a, b, |values| - 1, horizon)
  {
    var n := |values|;
    assert OnLine(values[n - 1], a, b, n - 1);
    DriftOnLine(values, a, b);
    hide DriftSlope, OnLine, LineAhead, KalmanTrend.Ahead;
    ReadAhead(values[n - 1], a, b, n - 1, horizon);
  }

  lemma FilterExtends(values: seq<real>, horizon: int, config: KalmanTrend.Config, scale: real, a: real, b: real)
    requires KalmanTrend.Noisy(config, scale) && |values| >= 2 && Affine(values, a, b)
    ensures Forecast(LocalTrendFilter(config, scale), values, horizon) == LineAhead(a, b, |values| - 1, horizon)
  {
    var n := |values|;
    assert OnLine(values[n - 1], a, b, n - 1);
    hide KalmanTrend.FilterAfter, OnLine, PositiveDefinite, LineAhead, KalmanTrend.Ahead;
    KalmanTrend.FilterOnLine(values, n, config, scale, a, b);
    ReadAhead(values[n - 1], a, b, n - 1, horizon);
  }

  lemma LocalExtends(values: seq<real>, horizon: int, window: nat, a: real, b: real)
    requires window >= 2 && |values| >= 2 && Affine(values, a, b)
    ensures Forecast(LocalLinear(window), values, horizon) == LineAhead(a, b, |values| - 1, horizon)
  {
    var n := |values|;
    if window >= n {
      FitOnLine(values, a, b);
      ReadFit(a, b, n - 1, horizon);
    } else {
      var start := values[n - window];
      assert OnLine(start, a, b, n - window);
      RecentOnLine(values, window, start, a, b);
      hide LinearFit, OnLine, LineAhead, ForecastAt, Affine;
      FitOnLine(Recent(values, window), start, b);
      ReadFit(start, b, window - 1, horizon);
      ReadFromRecent(start, a, b, n - window, window - 1, horizon);
    }
  }

  /** The recursive fit extends it too. */
  lemma RlsExtendsLine(forgetting: real, values: seq<real>, horizons: seq<int>, k: nat, a: real, b: real)
    requires forgetting > 0.0 && |values| >= 2 && Affine(values, a, b) && k < |horizons|
    ensures Forecasts(StateAfter(forgetting, values, |values|).theta, |values| - 1, horizons)[k]
            == LineAhead(a, b, |values| - 1, horizons[k])
  {
    hide StateAfter, OnLine, Solves, ForecastAt, LineAhead;
    StaysOnLine(forgetting, values, |values|, a, b);
    ReadFit(a, b, |values| - 1, horizons[k]);
  }

  // The trend branches of `predict_prefix`: the last value, the line through the first and the last value, the
  // least-squares line of the newest values, or the filter; and on a straight line all but the first extend it exactly.
  method PredictPrefix(m: Model, values: seq<real>, horizon: int) returns (r: Result<real>)
    requires Configured(m)
    ensures r.Failure? <==> horizon < 1 || values == []
    ensures r.Success? ==> r.value == Forecast(m, values, horizon) && Extrapolates(m, values, horizon, r.value)
    ensures r.Success? && SeesTrend(m) && |values| >= 2 ==>
              forall a, b | Affine(values, a, b) :: r.value == LineAhead(a, b, |values| - 1, horizon)
  {
    if horizon < 1 { return Failure("horizon must be positive"); }
    if values == [] { return Failure("index out of bounds"); }
    ForecastExtrapolates(m, values, horizon);
    if SeesTrend(m) && |values| >= 2 {
      forall a, b | Affine(values, a, b)
        ensures Forecast(m, values, horizon) == LineAhead(a, b, |values| - 1, horizon)
      {
        ForecastsExtendLine(m, values, horizon, a, b);
      }
    }
    hide LinearFit, DriftSlope, Recent, KalmanTrend.FilterAfter, KalmanTrend.Ahead, ForecastAt, Extrapolates, Affine,
      LineAhead;
    match m {
      case LastValue => return Success(values[|values| - 1]);
      case GlobalDrift =>
        var slope := DriftSlope(values);
        return Success(KalmanTrend.Ahead(Vec(values[|values| - 1], slope), horizon));
      case LocalLinear(window) =>
        var local := Recent(values, window);
        var fit := LinearFit(local);
        return Success(ForecastAt(fit, |local| - 1, horizon));
      case LocalTrendFilter(config, scale) =>
        r := KalmanTrend.KalmanPrediction(values, horizon, config, scale);
    }
  }
}
