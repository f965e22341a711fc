/** The power outcome of one evaluation context and its classification into the three
    epistemic states, with what each state guarantees about the blind evidence. */
module Epistemic {
  import opened Results
  import opened Sums
  import opened Estimator
  import opened Power
  import opened Placebo

  datatype State = Predictable | Unresolved | PredictivelyInaccessible

  datatype Library = MvpLibrary | OtherLibrary

  datatype EvidenceError =
    | UnsupportedLibrary
    | Fit(fit: FitError)
    | Resampling(power: PowerError)

  /** The pre-registered inputs of one claim that the evidence depends on. */
  datatype Context = Context(library: Library, training: seq<Pair>, blind: seq<Pair>,
                             replicates: nat, permutations: nat, alpha: real, aRel: real)

  predicate ValidContext(c: Context) {
    && |c.training| >= 3 && c.blind != []
    && c.replicates >= 1 && c.permutations >= 1
    && 0.0 < c.alpha < 1.0
  }

  /** What the two seeded generators hand out, and the block length. */
  datatype Randomness = Randomness(blockLength: nat, draws: seq<seq<nat>>, shuffles: seq<seq<real>>)

  ghost predicate ValidRandomness(c: Context, rng: Randomness) {
    && rng.blockLength >= 2
    && |rng.draws| == c.replicates && ValidDraws(|c.blind|, rng.blockLength, rng.draws)
    && |rng.shuffles| == c.permutations && ValidShuffles(Predictors(c.blind), rng.shuffles)
  }

  datatype Evidence = Evidence(aMinus: real, aUpper: real, aStarWorst: real, meanGain: real, placeboP: real,
                               realGain: real, shuffledP95: real, sampleSize: nat, alpha: real)

  function BaselineLogs(b: Baseline, logs: Logs, blind: seq<Pair>): (r: seq<real>)
    requires b.variance > 0.0
    ensures |r| == |blind|
    ensures forall i | 0 <= i < |r| :: r[i] == BaselineLogDensity(b, logs, blind[i].target)
  {
    seq(|blind|, i requires 0 <= i < |blind| => BaselineLogDensity(b, logs, blind[i].target))
  }

  function CandidateLog(c: Ar1, logs: Logs): (real, real) -> real
    requires c.residualVariance > 0.0
  {
    (target: real, predictor: real) =>
      if c.residualVariance > 0.0 then Ar1LogDensity(c, logs, target, predictor) else 0.0
  }

  function Positive(x: real): real { if x > 0.0 then x else 0.0 }

  /** Fit on the training block, then score the blind block. */
  ghost function EvidenceFor(c: Context, logs: Logs, rng: Randomness): Result<Evidence, EvidenceError>
    requires ValidContext(c) && ValidRandomness(c, rng)
  {
    if c.library != MvpLibrary then Err(UnsupportedLibrary) else
    var baseline := FitBaseline(Targets(c.training));
    if baseline.Err? then Err(Fit(baseline.error)) else
    var candidate := FitAr1(c.training);
    if candidate.Err? then Err(Fit(candidate.error)) else
    FitsArePositive(c.training);
    ScoreBlind(c, logs, rng, baseline.value, candidate.value)
  }

  ghost function ScoreBlind(c: Context, logs: Logs, rng: Randomness, baseline: Baseline, candidate: Ar1)
    : Result<Evidence, EvidenceError>
    requires ValidContext(c) && ValidRandomness(c, rng)
    requires baseline.variance > 0.0 && candidate.residualVariance > 0.0
  {
    var gains := PerEventGains(baseline, candidate, logs, c.blind).value;
    Assemble(c, gains, Bootstrap(gains, rng.blockLength, rng.draws, c.alpha),
             PlaceboRanking(BaselineLogs(baseline, logs, c.blind), CandidateLog(candidate, logs),
                            c.blind, rng.shuffles))
  }

  /** The bootstrap comes first, so its failure is the one reported. */
  function Assemble(c: Context, gains: seq<real>, interval: Result<(real, real), PowerError>,
                    ranking: Result<Ranking, PowerError>): Result<Evidence, EvidenceError>
    requires gains != []
  {
    match interval
    case Err(e) => Err(Resampling(e))
    case Ok((lower, upper)) =>
      match ranking
      case Err(e) => Err(Resampling(e))
      case Ok(r) => Ok(Evidence(lower, upper, Positive(upper), Mean(gains), r.p, r.realGain, r.shuffledP95,
                                |c.blind|, c.alpha))
  }

  lemma FitsArePositive(training: seq<Pair>)
    ensures FitBaseline(Targets(training)).Ok? ==> FitBaseline(Targets(training)).value.variance > 0.0
    ensures FitAr1(training).Ok? ==> FitAr1(training).value.residualVariance > 0.0
  {
    BaselineFitsIff(Targets(training));
    Ar1FitsIff(training);
  }

  /** What the evidence of a context is made of: the fitted models and their gains on the blind block,
      the two ends of the bootstrap interval of those gains, their mean, and the rank of the real
      predictors among the shuffled ones. */
  ghost predicate Contents(c: Context, logs: Logs, rng: Randomness, e: Evidence)
    requires ValidContext(c) && ValidRandomness(c, rng)
  {
    exists baseline, candidate, gains ::
      Behind(c, logs, baseline, candidate, gains) && ContentsOf(c, logs, rng, e, baseline, candidate, gains)
  }

  ghost predicate ContentsOf(c: Context, logs: Logs, rng: Randomness, e: Evidence, baseline: Baseline, candidate: Ar1,
                             gains: seq<real>)
    requires ValidContext(c) && ValidRandomness(c, rng) && Behind(c, logs, baseline, candidate, gains)
  {
    && BootstrapInterval(gains, rng.blockLength, rng.draws, c.alpha, e.aMinus, e.aUpper)
    && (e.aUpper > 0.0 ==> e.aStarWorst == e.aUpper) && (e.aUpper <= 0.0 ==> e.aStarWorst == 0.0)
    && e.meanGain * (|c.blind| as real) == Fsum(gains, Value())
    && Ranks(Ranking(e.placeboP, e.realGain, e.shuffledP95), BaselineLogs(baseline, logs, c.blind),
             CandidateLog(candidate, logs), c.blind, rng.shuffles)
    && e.sampleSize == |c.blind| && e.alpha == c.alpha
  }

  method PowerOutcomeFor(c: Context, logs: Logs, rng: Randomness) returns (r: Result<Evidence, EvidenceError>)
    requires ValidContext(c) && ValidRandomness(c, rng)
    ensures r == EvidenceFor(c, logs, rng)
    ensures r.Ok? <==>
      && c.library == MvpLibrary
      && VariedPredictors(c.training) && !Collinear(c.training)
      && |c.blind| >= 2
    ensures r.Ok? ==> Contents(c, logs, rng, r.value)
    ensures r.Ok? ==>
      (StateOf(c, r.value) == Predictable <==>
        r.value.aMinus > 0.0 && r.value.placeboP < c.alpha && r.value.realGain > r.value.shuffledP95)
    ensures r.Ok? && StateOf(c, r.value) == Predictable ==>
      VariedPredictors(c.blind) && 1.0 / ((c.permutations + 1) as real) < c.alpha
    ensures r.Ok? ==>
      (StateOf(c, r.value) == PredictivelyInaccessible <==>
        r.value.aMinus <= 0.0 && 0.0 < c.aRel && r.value.aUpper < c.aRel)
  {
    WhatEvidenceMeans(c, logs, rng);
    hide Contents, Collinear, VariedPredictors;
    if c.library != MvpLibrary { return Err(UnsupportedLibrary); }
    var baseline := FitBaseline(Targets(c.training));
    if baseline.Err? { return Err(Fit(baseline.error)); }
    var candidate := FitAr1(c.training);
    if candidate.Err? { return Err(Fit(candidate.error)); }
    FitsArePositive(c.training);
    r := ScoreBlindBlock(c, logs, rng, baseline.value, candidate.value);
  }

  method ScoreBlindBlock(c: Context, logs: Logs, rng: Randomness, baseline: Baseline, candidate: Ar1)
    returns (r: Result<Evidence, EvidenceError>)
    requires ValidContext(c) && ValidRandomness(c, rng)
    requires baseline.variance > 0.0 && candidate.residualVariance > 0.0
    ensures r == ScoreBlind(c, logs, rng, baseline, candidate)
  {
    var gains := PerEventGains(baseline, candidate, logs, c.blind).value;
    var interval := CircularBlockBootstrap(gains, rng.blockLength, rng.draws, c.alpha);
    var ranking := DeterministicPlacebo(BaselineLogs(baseline, logs, c.blind), CandidateLog(candidate, logs),
                                        c.blind, rng.shuffles);
    r := Assemble(c, gains, interval, ranking);
  }

  // ----- classification

  predicate ConfirmatoryPass(e: Evidence, alpha: real) {
    e.placeboP < alpha && e.realGain > e.shuffledP95
  }

  function Classify(e: Evidence, aRel: real, confirmatoryPass: bool): State {
    if e.aMinus > 0.0 then
      if !confirmatoryPass then Unresolved else Predictable
    else if e.aStarWorst >= aRel then Unresolved
    else PredictivelyInaccessible
  }

  /** The epistemic state the coordinator assigns to the evidence of a context. */
  function StateOf(c: Context, e: Evidence): State {
    Classify(e, c.aRel, ConfirmatoryPass(e, c.alpha))
  }

  // ----- what the evidence of a context guarantees

  /** The fitted models and blind gains behind successful evidence. */
  ghost predicate Behind(c: Context, logs: Logs, baseline: Baseline, candidate: Ar1, gains: seq<real>) {
    && FitBaseline(Targets(c.training)) == Ok(baseline)
    && FitAr1(c.training) == Ok(candidate)
    && baseline.variance > 0.0 && candidate.residualVariance > 0.0
    && PerEventGains(baseline, candidate, logs, c.blind) == Ok(gains)
  }

  lemma EvidenceParts(c: Context, logs: Logs, rng: Randomness)
    returns (baseline: Baseline, candidate: Ar1, gains: seq<real>)
    requires ValidContext(c) && ValidRandomness(c, rng)
    requires EvidenceFor(c, logs, rng).Ok?
    ensures Behind(c, logs, baseline, candidate, gains)
    ensures EvidenceFor(c, logs, rng) == ScoreBlind(c, logs, rng, baseline, candidate)
  {
    FitsArePositive(c.training);
    baseline := FitBaseline(Targets(c.training)).value;
    candidate := FitAr1(c.training).value;
    gains := PerEventGains(baseline, candidate, logs, c.blind).value;
  }

  /** Evidence is produced exactly for the registered library on at least two blind pairs whose
      training block can be fitted: a varying predictor and no line through every pair. */
  lemma EvidenceIff(c: Context, logs: Logs, rng: Randomness)
    requires ValidContext(c) && ValidRandomness(c, rng)
    ensures EvidenceFor(c, logs, rng).Ok? <==>
              && c.library == MvpLibrary
              && VariedPredictors(c.training) && !Collinear(c.training)
              && |c.blind| >= 2
  {
    Ar1FitsIff(c.training);
    FitsArePositive(c.training);
    if FitAr1(c.training).Ok? {
      CandidateNestsBaseline(c.training);
    }
  }

  /** The sandwich, end to end: for every seed the interval lies within the blind gains, and the
      mean gain that is reported is the gain the placebo ranks. */
  lemma EvidenceIsBracketedByGains(c: Context, logs: Logs, rng: Randomness, lo: real, hi: real)
    requires ValidContext(c) && ValidRandomness(c, rng)
    requires EvidenceFor(c, logs, rng).Ok?
    ensures var baseline, candidate := FitBaseline(Targets(c.training)).value, FitAr1(c.training).value;
            var e := EvidenceFor(c, logs, rng).value;
            && Behind(c, logs, baseline, candidate, PerEventGains(baseline, candidate, logs, c.blind).value)
            && e.meanGain == e.realGain
            && ((forall g | g in PerEventGains(baseline, candidate, logs, c.blind).value :: lo <= g <= hi)
                ==> lo <= e.aMinus <= hi && lo <= e.aUpper <= hi && lo <= e.meanGain <= hi
                    && (c.alpha <= 0.5 ==> e.aMinus <= e.aUpper))
  {
    var baseline, candidate, gains := EvidenceParts(c, logs, rng);
    GainsAreDifferences(c, logs, baseline, candidate, gains);
    if forall g | g in gains :: lo <= g <= hi {
      BootstrapSandwich(gains, rng.blockLength, rng.draws, c.alpha, lo, hi);
      MeanBetween(gains, lo, hi);
    }
  }

  lemma GainsAreDifferences(c: Context, logs: Logs, baseline: Baseline, candidate: Ar1, gains: seq<real>)
    requires Behind(c, logs, baseline, candidate, gains) && c.blind != []
    ensures gains != []
    ensures Mean(gains) == Advantage(BaselineLogs(baseline, logs, c.blind), CandidateLog(candidate, logs),
                                     Targets(c.blind), Predictors(c.blind))
  {
    var d := Differences(BaselineLogs(baseline, logs, c.blind), CandidateLog(candidate, logs),
                         Targets(c.blind), Predictors(c.blind));
    forall i | 0 <= i < |gains| ensures gains[i] == d[i] {}
    assert gains == d;
  }

  /** PREDICTABLE, for every seed, needs real evidence: some blind gain is positive, the fitted
      coefficient is not zero, the blind predictor varies, and alpha exceeds
      1/(permutations + 1). */
  lemma PredictableNeedsSignal(c: Context, logs: Logs, rng: Randomness)
    returns (baseline: Baseline, candidate: Ar1, gains: seq<real>)
    requires ValidContext(c) && ValidRandomness(c, rng)
    requires EvidenceFor(c, logs, rng).Ok?
    requires StateOf(c, EvidenceFor(c, logs, rng).value) == Predictable
    ensures Behind(c, logs, baseline, candidate, gains)
    ensures exists g | g in gains :: g > 0.0
    ensures candidate.coefficient != 0.0
    ensures VariedPredictors(c.blind)
    ensures 1.0 / ((c.permutations + 1) as real) < c.alpha
  {
    hide FitBaseline, FitAr1, Bootstrap, PlaceboRanking, Assemble, Confirmed, PositiveLower, StateOf;
    hide EvidenceFor, NoSignal, VariedPredictors, CandidateLog;
    baseline, candidate, gains := EvidenceParts(c, logs, rng);
    var baselineLog, candidateLog := BaselineLogs(baseline, logs, c.blind), CandidateLog(candidate, logs);
    var interval := Bootstrap(gains, rng.blockLength, rng.draws, c.alpha);
    var ranking := PlaceboRanking(baselineLog, candidateLog, c.blind, rng.shuffles);
    AssembledPredictable(c, gains, interval, ranking);
    PositiveLowerQuantile(gains, rng.blockLength, rng.draws, c.alpha);
    ConfirmedNeedsSignal(baselineLog, candidateLog, c.blind, rng.shuffles, c.alpha);
    ConfirmedNeedsPermutations(baselineLog, candidateLog, c.blind, rng.shuffles, c.alpha);
    SignalNeedsSlopeAndVariation(candidate, logs, c.blind);
  }

  predicate Confirmed(ranking: Result<Ranking, PowerError>, alpha: real) {
    ranking.Ok? && ranking.value.p < alpha && ranking.value.realGain > ranking.value.shuffledP95
  }

  predicate PositiveLower(interval: Result<(real, real), PowerError>) {
    interval.Ok? && interval.value.0 > 0.0
  }

  lemma AssembledPredictable(c: Context, gains: seq<real>, interval: Result<(real, real), PowerError>,
                             ranking: Result<Ranking, PowerError>)
    requires gains != []
    requires Assemble(c, gains, interval, ranking).Ok?
    requires StateOf(c, Assemble(c, gains, interval, ranking).value) == Predictable
    ensures PositiveLower(interval) && Confirmed(ranking, c.alpha)
  {
  }

  lemma PositiveLowerQuantile(gains: seq<real>, blockLength: nat, draws: seq<seq<nat>>, alpha: real)
    requires blockLength >= 2 && ValidDraws(|gains|, blockLength, draws) && 0.0 < alpha < 1.0
    requires PositiveLower(Bootstrap(gains, blockLength, draws, alpha))
    ensures exists g | g in gains :: g > 0.0
  {
    if forall g | g in gains :: g <= 0.0 {
      var low := Lowest(gains);
      BootstrapSandwich(gains, blockLength, draws, alpha, low, 0.0);
    }
  }

  lemma ConfirmedNeedsSignal(baselineLog: seq<real>, candidateLog: (real, real) -> real, blind: seq<Pair>,
                             shuffles: seq<seq<real>>, alpha: real)
    requires |baselineLog| == |blind| && blind != [] && shuffles != []
    requires ValidShuffles(Predictors(blind), shuffles)
    requires Confirmed(PlaceboRanking(baselineLog, candidateLog, blind, shuffles), alpha)
    ensures !NoSignal(candidateLog, blind)
  {
    if NoSignal(candidateLog, blind) {
      NoSignalIsNeverConfirmed(baselineLog, candidateLog, blind, shuffles);
    }
  }

  lemma ConfirmedNeedsPermutations(baselineLog: seq<real>, candidateLog: (real, real) -> real, blind: seq<Pair>,
                                   shuffles: seq<seq<real>>, alpha: real)
    requires |baselineLog| == |blind| && blind != [] && shuffles != []
    requires forall s | s in shuffles :: |s| == |blind|
    requires Confirmed(PlaceboRanking(baselineLog, candidateLog, blind, shuffles), alpha)
    ensures 1.0 / ((|shuffles| + 1) as real) < alpha
  {
    hide Rank, Nulls, Advantage;
    PlaceboRange(Nulls(baselineLog, candidateLog, Targets(blind), shuffles),
                 Advantage(baselineLog, candidateLog, Targets(blind), Predictors(blind)));
  }

  lemma {:induction false} Lowest(s: seq<real>) returns (low: real)
    ensures forall x | x in s :: low <= x
  {
    if s == [] { return 0.0; }
    var rest := Lowest(s[1..]);
    low := if rest < s[0] then rest else s[0];
    assert s == [s[0]] + s[1..];
  }

  lemma SignalNeedsSlopeAndVariation(candidate: Ar1, logs: Logs, blind: seq<Pair>)
    requires candidate.residualVariance > 0.0
    requires !NoSignal(CandidateLog(candidate, logs), blind)
    ensures candidate.coefficient != 0.0 && VariedPredictors(blind)
  {
    var f := CandidateLog(candidate, logs);
    var t, p, q :| t in blind && p in blind && q in blind && f(t.target, p.predictor) != f(t.target, q.predictor);
    var i, j :| 0 <= i < |blind| && 0 <= j < |blind| && blind[i] == p && blind[j] == q;
    if candidate.coefficient == 0.0 {
      FlatCandidate(candidate, logs, t.target, p.predictor, q.predictor);
    }
  }

  lemma FlatCandidate(candidate: Ar1, logs: Logs, y: real, x: real, x': real)
    requires candidate.residualVariance > 0.0 && candidate.coefficient == 0.0
    ensures CandidateLog(candidate, logs)(y, x) == CandidateLog(candidate, logs)(y, x')
  {
    assert candidate.coefficient * x == 0.0 && candidate.coefficient * x' == 0.0;
  }

  /** INACCESSIBLE, for every seed, means the interval was bounded away from the required
      advantage: the required advantage is positive and the upper quantile falls below it; and a
      required advantage that is not positive can never be declared inaccessible. */
  lemma InaccessibleIsExcluded(e: Evidence, c: Context)
    requires e.aStarWorst == Positive(e.aUpper)
    ensures StateOf(c, e) == PredictivelyInaccessible
       <==> e.aMinus <= 0.0 && 0.0 < c.aRel && e.aUpper < c.aRel
  {
  }

  lemma EvidenceWorstIsPositivePart(c: Context, logs: Logs, rng: Randomness)
    requires ValidContext(c) && ValidRandomness(c, rng)
    requires EvidenceFor(c, logs, rng).Ok?
    ensures var e := EvidenceFor(c, logs, rng).value;
            e.aStarWorst == Positive(e.aUpper)
  {
    var baseline, candidate, gains := EvidenceParts(c, logs, rng);
  }

  /** What successful evidence is made of, for every seed. */
  lemma EvidenceContents(c: Context, logs: Logs, rng: Randomness)
    requires ValidContext(c) && ValidRandomness(c, rng)
    requires EvidenceFor(c, logs, rng).Ok?
    ensures Contents(c, logs, rng, EvidenceFor(c, logs, rng).value)
  {
    hide EvidenceFor, ContentsOf;
    var baseline, candidate, gains := EvidenceParts(c, logs, rng);
    ScoredContents(c, logs, rng, baseline, candidate, gains);
  }

  lemma ScoredContents(c: Context, logs: Logs, rng: Randomness, baseline: Baseline, candidate: Ar1, gains: seq<real>)
    requires ValidContext(c) && ValidRandomness(c, rng) && Behind(c, logs, baseline, candidate, gains)
    requires ScoreBlind(c, logs, rng, baseline, candidate).Ok?
    ensures ContentsOf(c, logs, rng, ScoreBlind(c, logs, rng, baseline, candidate).value, baseline, candidate, gains)
  {
    hide FitBaseline, FitAr1, Bootstrap, PlaceboRanking, BootstrapInterval, Ranks, Assemble, Fsum;
    hide BaselineLogDensity, Ar1LogDensity, CandidateLog, ValidDraws, Targets;
    var baselineLog, candidateLog := BaselineLogs(baseline, logs, c.blind), CandidateLog(candidate, logs);
    BootstrapTails(gains, rng.blockLength, rng.draws, c.alpha);
    PlaceboCounts(baselineLog, candidateLog, c.blind, rng.shuffles);
    AssembledFrom(c, gains, Bootstrap(gains, rng.blockLength, rng.draws, c.alpha),
                  PlaceboRanking(baselineLog, candidateLog, c.blind, rng.shuffles));
  }

  lemma AssembledFrom(c: Context, gains: seq<real>, interval: Result<(real, real), PowerError>,
                      ranking: Result<Ranking, PowerError>)
    requires gains != [] && |gains| == |c.blind| && Assemble(c, gains, interval, ranking).Ok?
    ensures var e := Assemble(c, gains, interval, ranking).value;
            && interval == Ok((e.aMinus, e.aUpper))
            && ranking == Ok(Ranking(e.placeboP, e.realGain, e.shuffledP95))
            && (e.aUpper > 0.0 ==> e.aStarWorst == e.aUpper) && (e.aUpper <= 0.0 ==> e.aStarWorst == 0.0)
            && e.meanGain * (|c.blind| as real) == Fsum(gains, Value())
            && e.sampleSize == |c.blind| && e.alpha == c.alpha
  {
    hide Fsum;
    QuotientTimes(Fsum(gains, Value()), |gains| as real);
  }

  /** Which error is reported: the library is looked at first, then the baseline, then the candidate,
      and the resampling only fails for want of two blind pairs. */
  lemma EvidenceErrors(c: Context, logs: Logs, rng: Randomness)
    requires ValidContext(c) && ValidRandomness(c, rng)
    ensures var r := EvidenceFor(c, logs, rng);
            var varied := c.library == MvpLibrary && VariedTargets(Targets(c.training));
            && (r == Err(UnsupportedLibrary) <==> c.library != MvpLibrary)
            && (r == Err(Fit(ConstantTargets)) <==>
                  c.library == MvpLibrary && !VariedTargets(Targets(c.training)))
            && (r == Err(Fit(ConstantPredictor)) <==> varied && !VariedPredictors(c.training))
            && (r == Err(Fit(NoResidual)) <==> varied && VariedPredictors(c.training) && Collinear(c.training))
            && (r == Err(Resampling(TooFewGains)) <==>
                  varied && VariedPredictors(c.training) && !Collinear(c.training) && |c.blind| < 2)
  {
    BaselineFitsIff(Targets(c.training));
    Ar1FitsIff(c.training);
    FitsArePositive(c.training);
    hide FitBaseline, FitAr1, VariedTargets, VariedPredictors, Collinear, Quantile, ReplicateMean, Advantage;
  }

  /** The three states, each by its own condition on the evidence. */
  lemma StateIff(c: Context, e: Evidence)
    ensures StateOf(c, e) == Predictable <==>
              e.aMinus > 0.0 && e.placeboP < c.alpha && e.realGain > e.shuffledP95
    ensures StateOf(c, e) == PredictivelyInaccessible <==> e.aMinus <= 0.0 && e.aStarWorst < c.aRel
    ensures StateOf(c, e) == Unresolved <==>
              || (e.aMinus > 0.0 && (e.placeboP >= c.alpha || e.realGain <= e.shuffledP95))
              || (e.aMinus <= 0.0 && e.aStarWorst >= c.aRel)
  {
  }

  /** What the caller of the power gate learns, whatever the seeds: when evidence exists, and what
      its two decisive states say. */
  lemma WhatEvidenceMeans(c: Context, logs: Logs, rng: Randomness)
    requires ValidContext(c) && ValidRandomness(c, rng)
    ensures EvidenceFor(c, logs, rng).Ok? <==>
      && c.library == MvpLibrary
      && VariedPredictors(c.training) && !Collinear(c.training)
      && |c.blind| >= 2
    ensures EvidenceFor(c, logs, rng).Ok? ==> Contents(c, logs, rng, EvidenceFor(c, logs, rng).value)
    ensures EvidenceFor(c, logs, rng).Ok? && StateOf(c, EvidenceFor(c, logs, rng).value) == Predictable ==>
      VariedPredictors(c.blind) && 1.0 / ((c.permutations + 1) as real) < c.alpha
    ensures EvidenceFor(c, logs, rng).Ok? ==>
      var e := EvidenceFor(c, logs, rng).value;
      StateOf(c, e) == PredictivelyInaccessible <==> e.aMinus <= 0.0 && 0.0 < c.aRel && e.aUpper < c.aRel
  {
    hide EvidenceFor, StateOf, Collinear, VariedPredictors, Contents;
    EvidenceIff(c, logs, rng);
    if EvidenceFor(c, logs, rng).Ok? {
      EvidenceContents(c, logs, rng);
      EvidenceWorstIsPositivePart(c, logs, rng);
      InaccessibleIsExcluded(EvidenceFor(c, logs, rng).value, c);
      if StateOf(c, EvidenceFor(c, logs, rng).value) == Predictable {
        var baseline, candidate, gains := PredictableNeedsSignal(c, logs, rng);
      }
    }
  }
}
