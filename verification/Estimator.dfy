/** The Gaussian baseline, the AR(1) candidate fitted by ordinary least squares on the
    training block, and the per-event gain on the blind block. */
module Estimator {
  import opened Results
  import opened Sums

  /** A (predictor, target) pair. */
  datatype Pair = Pair(predictor: real, target: real)

  datatype FitError = TooFewObservations | ConstantTargets | ConstantPredictor | NoResidual | EmptyBlindBlock

  datatype Baseline = Baseline(mean: real, variance: real)

  datatype Ar1 = Ar1(intercept: real, coefficient: real, residualVariance: real)

  /** The natural logarithm and the value of log(2 pi), left uninterpreted. */
  datatype Logs = Logs(ln: real -> real, lnTwoPi: real)

  function X(): Pair -> real { (p: Pair) => p.predictor }

  function Y(): Pair -> real { (p: Pair) => p.target }

  function Value(): real -> real { y => y }

  function Targets(pairs: seq<Pair>): (ys: seq<real>)
    ensures |ys| == |pairs| && forall i | 0 <= i < |ys| :: ys[i] == pairs[i].target
  {
    seq(|pairs|, i requires 0 <= i < |pairs| => pairs[i].target)
  }

  function FitBaseline(targets: seq<real>): Result<Baseline, FitError> {
    var n := |targets|;
    if n < 2 then Err(TooFewObservations) else
    var mean := Fsum(targets, Value()) / (n as real);
    BaselineFrom(mean, Fsum(targets, Cross(Value(), mean, Value(), mean)) / ((n - 1) as real))
  }

  function BaselineFrom(mean: real, variance: real): Result<Baseline, FitError> {
    if variance <= 0.0 then Err(ConstantTargets) else Ok(Baseline(mean, variance))
  }

  function FitAr1(pairs: seq<Pair>): Result<Ar1, FitError> {
    if |pairs| < 3 then Err(TooFewObservations) else
    var m := MomentsOf(pairs);
    if m.sxx <= 0.0 then Err(ConstantPredictor) else
    var intercept := FittedIntercept(m);
    var residualVariance := SquaredResiduals(pairs, intercept, m.slope) / ((|pairs| - 2) as real);
    if residualVariance <= 0.0 then Err(NoResidual) else
    Ok(Ar1(intercept, m.slope, residualVariance))
  }

  /** The means, centred second moments and slope computed on the way to the fit. */
  datatype Moments = Moments(n: real, meanX: real, meanY: real, sxx: real, sxy: real, syy: real, slope: real)

  function MomentsOf(pairs: seq<Pair>): Moments
    requires pairs != []
  {
    var n := |pairs| as real;
    var meanX, meanY := Fsum(pairs, X()) / n, Fsum(pairs, Y()) / n;
    var sxx := Fsum(pairs, Cross(X(), meanX, X(), meanX));
    var sxy := Fsum(pairs, Cross(X(), meanX, Y(), meanY));
    Moments(n, meanX, meanY, sxx, sxy, Fsum(pairs, Cross(Y(), meanY, Y(), meanY)),
            if sxx != 0.0 then sxy / sxx else 0.0)
  }

  function FittedIntercept(m: Moments): real { m.meanY - m.slope * m.meanX }

  /** The sum of squared residuals that the line intercept + slope x leaves. */
  function SquaredResiduals(pairs: seq<Pair>, intercept: real, slope: real): real {
    Fsum(pairs, ResidualSq(X(), Y(), intercept, slope))
  }

  function BaselineLogDensity(m: Baseline, logs: Logs, target: real): real
    requires m.variance > 0.0
  {
    -0.5 * (logs.lnTwoPi + logs.ln(m.variance) + Sq(target - m.mean) / m.variance)
  }

  function Ar1LogDensity(m: Ar1, logs: Logs, target: real, predictor: real): real
    requires m.residualVariance > 0.0
  {
    var mean := m.intercept + m.coefficient * predictor;
    -0.5 * (logs.lnTwoPi + logs.ln(m.residualVariance) + Sq(target - mean) / m.residualVariance)
  }

  function PerEventGains(b: Baseline, c: Ar1, logs: Logs, blind: seq<Pair>): (r: Result<seq<real>, FitError>)
    requires b.variance > 0.0 && c.residualVariance > 0.0
  {
    if blind == [] then Err(EmptyBlindBlock) else
    Ok(seq(|blind|, i requires 0 <= i < |blind| =>
      Ar1LogDensity(c, logs, blind[i].target, blind[i].predictor) - BaselineLogDensity(b, logs, blind[i].target)))
  }

  // ----- what a gain measures

  lemma QuotientCompare(x: real, y: real, n: real)
    requires n > 0.0
    ensures x / n < y / n <==> x < y
  {
    if x < y { SignOfQuotient(x - y, n); } else { SignOfQuotient(y - x, n); }
    assert (x - y) / n == x / n - y / n;
  }

  /** The density of the candidate falls exactly as the target moves away from its prediction. */
  lemma DensityFallsWithDistance(c: Ar1, logs: Logs, y: real, y': real, x: real)
    requires c.residualVariance > 0.0
    ensures var prediction := c.intercept + c.coefficient * x;
            Ar1LogDensity(c, logs, y, x) > Ar1LogDensity(c, logs, y', x) <==> Sq(y - prediction) < Sq(y' - prediction)
  {
    var prediction := c.intercept + c.coefficient * x;
    QuotientCompare(Sq(y - prediction), Sq(y' - prediction), c.residualVariance);
  }

  /** At equal variances a blind event gains exactly when the candidate's prediction is closer to the
      target than the baseline's mean. */
  lemma GainRewardsCloseness(b: Baseline, c: Ar1, logs: Logs, p: Pair)
    requires b.variance == c.residualVariance && b.variance > 0.0
    ensures PerEventGains(b, c, logs, [p]).Ok?
    ensures PerEventGains(b, c, logs, [p]).value[0] > 0.0
       <==> Sq(p.target - (c.intercept + c.coefficient * p.predictor)) < Sq(p.target - b.mean)
  {
    QuotientCompare(Sq(p.target - (c.intercept + c.coefficient * p.predictor)), Sq(p.target - b.mean), b.variance);
  }

  /** The whole curve of a density: at the prediction it depends on the variance alone, and from there
      it falls by half the squared distance over the variance. */
  lemma DensityCurve(b: Baseline, c: Ar1, logs: Logs, y: real, x: real)
    requires b.variance > 0.0 && c.residualVariance > 0.0
    ensures var prediction := c.intercept + c.coefficient * x;
            && -2.0 * Ar1LogDensity(c, logs, prediction, x) == logs.lnTwoPi + logs.ln(c.residualVariance)
            && Ar1LogDensity(c, logs, prediction, x) - Ar1LogDensity(c, logs, y, x)
               == Sq(y - prediction) / c.residualVariance / 2.0
    ensures && -2.0 * BaselineLogDensity(b, logs, b.mean) == logs.lnTwoPi + logs.ln(b.variance)
            && BaselineLogDensity(b, logs, b.mean) - BaselineLogDensity(b, logs, y)
               == Sq(y - b.mean) / b.variance / 2.0
  {
    ZeroOver(c.residualVariance);
    ZeroOver(b.variance);
  }

  lemma ZeroOver(n: real)
    requires n != 0.0
    ensures Sq(0.0) / n == 0.0
  {
  }

  /** Each gain is the log likelihood ratio of its own event: the constant of the density cancels, and
      what is left compares the variances and the two scaled distances. */
  lemma GainIsLikelihoodRatio(b: Baseline, c: Ar1, logs: Logs, blind: seq<Pair>)
    requires b.variance > 0.0 && c.residualVariance > 0.0
    ensures PerEventGains(b, c, logs, blind) == Err(EmptyBlindBlock) <==> blind == []
    ensures blind != [] ==>
      var gains := PerEventGains(b, c, logs, blind).value;
      && |gains| == |blind|
      && forall i | 0 <= i < |blind| ::
           2.0 * gains[i] == logs.ln(b.variance) - logs.ln(c.residualVariance)
                             + Sq(blind[i].target - b.mean) / b.variance
                             - Sq(blind[i].target - (c.intercept + c.coefficient * blind[i].predictor))
                               / c.residualVariance
  {
  }

  // ----- when the fits succeed

  ghost predicate VariedTargets(ys: seq<real>) {
    exists i, j | 0 <= i < |ys| && 0 <= j < |ys| :: ys[i] != ys[j]
  }

  ghost predicate VariedPredictors(pairs: seq<Pair>) {
    exists i, j | 0 <= i < |pairs| && 0 <= j < |pairs| :: pairs[i].predictor != pairs[j].predictor
  }

  ghost predicate OnLine(pairs: seq<Pair>, a: real, b: real) {
    forall p | p in pairs :: p.target == a + b * p.predictor
  }

  ghost predicate Collinear(pairs: seq<Pair>) {
    exists a, b :: OnLine(pairs, a, b)
  }

  /** The sum of squared deviations from the mean is zero on constant data, positive otherwise. */
  lemma SpreadIsPositive<T>(s: seq<T>, u: T -> real, mean: real)
    requires s != [] && mean == Fsum(s, u) / (|s| as real)
    ensures Fsum(s, Cross(u, mean, u, mean)) >= 0.0
    ensures Fsum(s, Cross(u, mean, u, mean)) > 0.0
       <==> exists i, j | 0 <= i < |s| && 0 <= j < |s| :: u(s[i]) != u(s[j])
  {
    var f := Cross(u, mean, u, mean);
    forall t | t in s
      ensures f(t) >= 0.0
      ensures f(t) > 0.0 <==> u(t) != mean
    {
      SquareSign(u(t) - mean, f(t));
    }
    NonNegativeTerms(s, f);
    if forall i, j | 0 <= i < |s| && 0 <= j < |s| :: u(s[i]) == u(s[j]) {
      SumBetween(s, u, u(s[0]), u(s[0]));
      MeanOfConstant(|s| as real, u(s[0]), Fsum(s, u));
    } else {
      var i, j :| 0 <= i < |s| && 0 <= j < |s| && u(s[i]) != u(s[j]);
      assert f(s[i]) > 0.0 || f(s[j]) > 0.0;
    }
  }

  // The square and the product are passed as values of their own: the solver reasons better
  // about a name than about x * x.

  lemma SquareSign(x: real, square: real)
    requires square == x * x
    ensures square >= 0.0
    ensures square > 0.0 <==> x != 0.0
  {
    if x < 0.0 {
      PositiveProduct(-x, -x, square);
    } else if x > 0.0 {
      PositiveProduct(x, x, square);
    }
  }

  lemma PositiveProduct(p: real, q: real, product: real)
    requires p > 0.0 && q > 0.0 && product == p * q
    ensures product > 0.0
  {
  }

  lemma MeanOfConstant(n: real, c: real, total: real)
    requires n > 0.0 && total == n * c
    ensures total / n == c
  {
  }

  lemma BaselineFitsIff(ys: seq<real>)
    ensures FitBaseline(ys).Ok? <==> |ys| >= 2 && VariedTargets(ys)
    ensures FitBaseline(ys) == Err(TooFewObservations) <==> |ys| < 2
    ensures FitBaseline(ys) == Err(ConstantTargets) <==> |ys| >= 2 && !VariedTargets(ys)
    ensures FitBaseline(ys).Ok? ==> FitBaseline(ys).value.variance > 0.0
  {
    if |ys| >= 2 {
      SpreadIsPositive(ys, Value(), Fsum(ys, Value()) / (|ys| as real));
      SignOfQuotient(Fsum(ys, Cross(Value(), Fsum(ys, Value()) / (|ys| as real),
                                    Value(), Fsum(ys, Value()) / (|ys| as real))), (|ys| - 1) as real);
    }
  }

  /** The baseline is the best constant: its mean alone minimises the squared deviations, and its
      variance is that minimum over n - 1. */
  lemma BaselineMinimisesDeviations(ys: seq<real>, c: real)
    requires FitBaseline(ys).Ok?
    ensures var b := FitBaseline(ys).value;
            var around, best := Fsum(ys, Cross(Value(), c, Value(), c)), b.variance * ((|ys| - 1) as real);
            && b.mean * (|ys| as real) == Fsum(ys, Value())
            && Fsum(ys, Cross(Value(), b.mean, Value(), b.mean)) == best
            && best <= around && (best < around <==> c != b.mean)
  {
    hide FitBaseline, Fsum, Sq, VariedTargets;
    BaselineFitsIff(ys);
    var n, mean := |ys| as real, Fsum(ys, Value()) / (|ys| as real);
    var best, around := Fsum(ys, Cross(Value(), mean, Value(), mean)), Fsum(ys, Cross(Value(), c, Value(), c));
    BaselineParts(ys, mean, best);
    var square := Sq(mean - c);
    MeanDeviationsVanish(ys, Value(), mean);
    SpreadAround(ys, Value(), mean, c, square);
    PositiveMove(n, mean, c, n * square);
  }

  lemma BaselineParts(ys: seq<real>, mean: real, best: real)
    requires FitBaseline(ys).Ok? && mean == Fsum(ys, Value()) / (|ys| as real)
    requires best == Fsum(ys, Cross(Value(), mean, Value(), mean))
    ensures var b := FitBaseline(ys).value;
            |ys| >= 2 && b.mean == mean && best == b.variance * ((|ys| - 1) as real)
            && mean * (|ys| as real) == Fsum(ys, Value())
  {
    QuotientTimes(best, (|ys| - 1) as real);
    QuotientTimes(Fsum(ys, Value()), |ys| as real);
  }

  lemma PositiveMove(n: real, mean: real, c: real, moved: real)
    requires n > 0.0 && moved == n * Sq(mean - c)
    ensures moved >= 0.0
    ensures moved > 0.0 <==> c != mean
  {
    WeightedSquare(n, mean - c, Sq(mean - c), moved);
  }

  lemma SignOfQuotient(x: real, n: real)
    requires n > 0.0
    ensures x / n <= 0.0 <==> x <= 0.0
  {
  }

  // ----- ordinary least squares

  /** `best` is what the fitted line leaves, and another line a + b x that leaves `other` is
      no better, and worse unless it is the fitted one. */
  ghost predicate NoBetterLine(m: Moments, best: real, other: real, a: real, b: real) {
    && best == m.syy - m.slope * m.sxy
    && best <= other
    && (a != FittedIntercept(m) || b != m.slope ==> best < other)
  }

  lemma FittedLineIsOptimal(pairs: seq<Pair>, a: real, b: real)
    requires pairs != [] && VariedPredictors(pairs)
    ensures var m := MomentsOf(pairs);
            && m.sxx > 0.0
            && NoBetterLine(m, SquaredResiduals(pairs, FittedIntercept(m), m.slope),
                            SquaredResiduals(pairs, a, b), a, b)
  {
    var m := MomentsOf(pairs);
    SpreadIsPositive(pairs, X(), m.meanX);
    LineSplits(pairs, m, FittedIntercept(m), m.slope);
    LineSplits(pairs, m, a, b);
    CompareSplits(SquaredResiduals(pairs, FittedIntercept(m), m.slope), SquaredResiduals(pairs, a, b), m, a, b);
  }

  ghost predicate LineLeaves(m: Moments, rss: real, a: real, b: real) {
    Splits(rss, m.n, m.syy, m.sxy, m.sxx, m.slope, b, m.meanY - a - b * m.meanX)
  }

  lemma LineSplits(pairs: seq<Pair>, m: Moments, a: real, b: real)
    requires pairs != [] && m == MomentsOf(pairs) && m.sxx != 0.0
    ensures LineLeaves(m, SquaredResiduals(pairs, a, b), a, b)
  {
    LeastSquaresIdentity(pairs, X(), Y(), m.meanX, m.meanY, m.sxx, m.sxy, m.slope, a, b);
  }

  lemma CompareSplits(best: real, other: real, m: Moments, a: real, b: real)
    requires m.n > 0.0 && m.sxx > 0.0
    requires LineLeaves(m, best, FittedIntercept(m), m.slope)
    requires LineLeaves(m, other, a, b)
    ensures NoBetterLine(m, best, other, a, b)
  {
    var d, e := b - m.slope, m.meanY - a - b * m.meanX;
    PositiveWeights(m.sxx, d, m.n, e, m.sxx * Sq(d), m.n * Sq(e));
  }

  lemma PositiveWeights(p: real, d: real, n: real, e: real, slopeError: real, levelError: real)
    requires p > 0.0 && n > 0.0
    requires slopeError == p * Sq(d) && levelError == n * Sq(e)
    ensures slopeError >= 0.0 && levelError >= 0.0
    ensures d != 0.0 || e != 0.0 ==> slopeError + levelError > 0.0
  {
    WeightedSquare(p, d, Sq(d), slopeError);
    WeightedSquare(n, e, Sq(e), levelError);
  }

  lemma WeightedSquare(p: real, d: real, square: real, weighted: real)
    requires p > 0.0 && square == d * d && weighted == p * square
    ensures weighted >= 0.0
    ensures weighted > 0.0 <==> d != 0.0
  {
    SquareSign(d, square);
    if square > 0.0 { PositiveProduct(p, square, weighted); }
  }

  // ----- the AR(1) fit

  lemma ResidualsVanishOnLine(pairs: seq<Pair>, a: real, b: real)
    ensures SquaredResiduals(pairs, a, b) >= 0.0
    ensures SquaredResiduals(pairs, a, b) > 0.0 <==> !OnLine(pairs, a, b)
  {
    var f := ResidualSq(X(), Y(), a, b);
    forall p | p in pairs
      ensures f(p) >= 0.0
      ensures f(p) > 0.0 <==> p.target != a + b * p.predictor
    {
      SquareSign(p.target - a - b * p.predictor, f(p));
    }
    NonNegativeTerms(pairs, f);
  }

  /** The fit succeeds exactly on three or more pairs whose predictor varies and which no
      single line passes through, and each failure has its own cause. */
  lemma Ar1FitsIff(pairs: seq<Pair>)
    ensures FitAr1(pairs).Ok? <==> |pairs| >= 3 && VariedPredictors(pairs) && !Collinear(pairs)
    ensures FitAr1(pairs) == Err(TooFewObservations) <==> |pairs| < 3
    ensures FitAr1(pairs) == Err(ConstantPredictor) <==> |pairs| >= 3 && !VariedPredictors(pairs)
    ensures FitAr1(pairs) == Err(NoResidual) <==> |pairs| >= 3 && VariedPredictors(pairs) && Collinear(pairs)
    ensures FitAr1(pairs).Ok? ==> FitAr1(pairs).value.residualVariance > 0.0
  {
    if |pairs| >= 3 {
      var m := MomentsOf(pairs);
      SpreadIsPositive(pairs, X(), m.meanX);
      if VariedPredictors(pairs) {
        var a, b := FittedIntercept(m), m.slope;
        SignOfQuotient(SquaredResiduals(pairs, a, b), (|pairs| - 2) as real);
        ResidualsVanishOnLine(pairs, a, b);
        if Collinear(pairs) {
          var a', b' :| OnLine(pairs, a', b');
          FittedLineIsOptimal(pairs, a', b');
          ResidualsVanishOnLine(pairs, a', b');
        }
      }
    }
  }

  /** Ordinary least squares: the fitted line minimises the squared residuals, it is the only
      minimiser, and `residualVariance` is that minimum over n - 2. */
  lemma Ar1MinimisesResiduals(pairs: seq<Pair>, a: real, b: real)
    requires FitAr1(pairs).Ok?
    ensures var c := FitAr1(pairs).value;
            && SquaredResiduals(pairs, c.intercept, c.coefficient) == c.residualVariance * ((|pairs| - 2) as real)
            && SquaredResiduals(pairs, c.intercept, c.coefficient) <= SquaredResiduals(pairs, a, b)
            && (a != c.intercept || b != c.coefficient ==>
                  SquaredResiduals(pairs, c.intercept, c.coefficient) < SquaredResiduals(pairs, a, b))
  {
    Ar1FitsIff(pairs);
    FittedLineIsOptimal(pairs, a, b);
    var m := MomentsOf(pairs);
    QuotientTimes(SquaredResiduals(pairs, FittedIntercept(m), m.slope), (|pairs| - 2) as real);
  }

  lemma QuotientTimes(x: real, n: real)
    requires n != 0.0
    ensures (x / n) * n == x
  {
  }

  /** The candidate's squared error over n training pairs is at most the baseline's, and
      smaller exactly when the fitted coefficient is not zero. */
  ghost predicate Nested(c: Ar1, b: Baseline, n: nat) {
    var candidate, baseline := ((n - 2) as real) * c.residualVariance, ((n - 1) as real) * b.variance;
    && candidate <= baseline
    && (candidate < baseline <==> c.coefficient != 0.0)
  }

  /** Nesting: when the candidate can be fitted so can the baseline on the same targets, and
      the candidate's squared error is the baseline's less what the slope explains. */
  lemma CandidateNestsBaseline(pairs: seq<Pair>)
    requires FitAr1(pairs).Ok?
    ensures FitBaseline(Targets(pairs)).Ok?
    ensures Nested(FitAr1(pairs).value, FitBaseline(Targets(pairs)).value, |pairs|)
  {
    var m, c := MomentsOf(pairs), FitAr1(pairs).value;
    var best := SquaredResiduals(pairs, FittedIntercept(m), m.slope);
    FitFromMoments(pairs, m, best, c);
    NestFromMoments(m, best, |pairs|, c, m.slope * m.sxy);
    BaselineOnTargets(pairs, m.meanY, m.syy);
  }

  lemma FitFromMoments(pairs: seq<Pair>, m: Moments, best: real, c: Ar1)
    requires FitAr1(pairs) == Ok(c)
    requires m == MomentsOf(pairs) && best == SquaredResiduals(pairs, FittedIntercept(m), m.slope)
    ensures |pairs| >= 3 && m.sxx > 0.0 && m.slope == m.sxy / m.sxx
    ensures best == m.syy - m.slope * m.sxy
    ensures c.coefficient == m.slope && c.residualVariance == best / ((|pairs| - 2) as real) > 0.0
  {
    hide FitAr1, SquaredResiduals, FittedIntercept, VariedPredictors, MomentsOf;
    FitParts(pairs, m, best, c);
    BestIsExplained(pairs, m, best);
  }

  lemma BestIsExplained(pairs: seq<Pair>, m: Moments, best: real)
    requires pairs != [] && VariedPredictors(pairs)
    requires m == MomentsOf(pairs) && best == SquaredResiduals(pairs, FittedIntercept(m), m.slope)
    ensures best == m.syy - m.slope * m.sxy
  {
    hide FitAr1, SquaredResiduals, FittedIntercept, VariedPredictors, MomentsOf;
    FittedLineIsOptimal(pairs, FittedIntercept(m), m.slope);
  }

  lemma FitParts(pairs: seq<Pair>, m: Moments, best: real, c: Ar1)
    requires FitAr1(pairs) == Ok(c)
    requires pairs != [] ==> m == MomentsOf(pairs) && best == SquaredResiduals(pairs, FittedIntercept(m), m.slope)
    ensures |pairs| >= 3 && VariedPredictors(pairs) && m.sxx > 0.0 && m.slope == m.sxy / m.sxx
    ensures c.coefficient == m.slope && c.residualVariance == best / ((|pairs| - 2) as real) > 0.0
  {
    Ar1FitsIff(pairs);
    hide SquaredResiduals, VariedPredictors, Collinear;
  }

  lemma NestFromMoments(m: Moments, best: real, n: nat, c: Ar1, explained: real)
    requires n >= 3 && m.sxx > 0.0 && m.slope == m.sxy / m.sxx
    requires explained == m.slope * m.sxy && best == m.syy - explained
    requires c.coefficient == m.slope && c.residualVariance == best / ((n - 2) as real) > 0.0
    ensures m.syy / ((n - 1) as real) > 0.0
    ensures Nested(c, Baseline(m.meanY, m.syy / ((n - 1) as real)), n)
  {
    ExplainedPart(m.sxx, m.sxy, m.slope, explained);
    VariancesNest(best, m.syy, explained, n, c, Baseline(m.meanY, m.syy / ((n - 1) as real)));
  }

  lemma BaselineOnTargets(pairs: seq<Pair>, meanY: real, syy: real)
    requires |pairs| >= 2
    requires meanY == Fsum(pairs, Y()) / (|pairs| as real) && syy == Fsum(pairs, Cross(Y(), meanY, Y(), meanY))
    ensures FitBaseline(Targets(pairs)) == BaselineFrom(meanY, syy / ((|pairs| - 1) as real))
  {
    SameSums(pairs, meanY);
  }

  lemma SameSums(pairs: seq<Pair>, c: real)
    ensures Fsum(Targets(pairs), Value()) == Fsum(pairs, Y())
    ensures Fsum(Targets(pairs), Cross(Value(), c, Value(), c)) == Fsum(pairs, Cross(Y(), c, Y(), c))
  {
    var ys := Targets(pairs);
    SameTerms(ys, Value(), pairs, Y());
    var f, g := Cross(Value(), c, Value(), c), Cross(Y(), c, Y(), c);
    forall i | 0 <= i < |ys| ensures f(ys[i]) == g(pairs[i]) {
      assert ys[i] == pairs[i].target;
    }
    SameTerms(ys, f, pairs, g);
  }

  lemma VariancesNest(best: real, syy: real, explained: real, n: nat, c: Ar1, b: Baseline)
    requires n >= 3 && best == syy - explained && explained >= 0.0 && best / ((n - 2) as real) > 0.0
    requires explained > 0.0 <==> c.coefficient != 0.0
    requires c.residualVariance == best / ((n - 2) as real) && b.variance == syy / ((n - 1) as real)
    ensures b.variance > 0.0
    ensures Nested(c, b, n)
  {
    SignOfQuotient(best, (n - 2) as real);
    SignOfQuotient(syy, (n - 1) as real);
    QuotientTimes(best, (n - 2) as real);
    QuotientTimes(syy, (n - 1) as real);
  }

  lemma ExplainedPart(sxx: real, sxy: real, slope: real, explained: real)
    requires sxx > 0.0 && slope == sxy / sxx && explained == slope * sxy
    ensures explained >= 0.0 && (explained > 0.0 <==> slope != 0.0)
  {
    assert sxy == slope * sxx;
    assert explained == sxx * (slope * slope);
    WeightedSquare(sxx, slope, slope * slope, explained);
  }
}
