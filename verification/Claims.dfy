/** One item of an evaluation batch: the short circuits before the science, and the evaluated
    claim that everything downstream consumes. */
module Claims {
  import opened Results
  import opened Estimator
  import opened Authority
  import opened Horizon
  import E = Epistemic
  import Canonical

  datatype Channel = Channel(name: string, lag: int)

  datatype Observation = Observation(reference: string, provenance: string, relevance: real)

  datatype RegimeInput = RegimeInput(distance: real, theta: real, beatsFluctuation: bool,
                                     highPredictionError: bool, modelDisagreement: bool)

  datatype Envelope = Envelope(subject: string, authority: AuthorityContext)

  datatype ItemContext = ItemContext(
    channels: seq<Channel>, observedAtOffset: int,
    observations: seq<Observation>, rhoMin: real,
    regime: RegimeInput, horizonPoints: seq<Point>,
    evidence: E.Context,
    expectation: Expectation, bindingKind: BoundKind)

  datatype Item =
    | UpstreamUnavailable(reference: string)
    | Ready(envelope: Envelope, context: ItemContext)

  predicate ValidItem(item: Item) {
    item.Ready? ==>
      && Canonical.Sha256(item.envelope.subject) && ValidAuthority(item.envelope.authority)
      && item.context.channels != []
      && E.ValidContext(item.context.evidence)
  }

  /** The components of an evaluated claim. */
  datatype Evaluation = Evaluation(subject: string, regime: Regime, evidence: E.Evidence, uncertainty: (real, real),
                                   horizon: Spectrum, state: E.State, approval: ApprovalOutcome)

  datatype Outcome =
    | Unavailable(reference: string)
    | CausallyRejected(subject: string, rejected: seq<Channel>)
    | Evaluated(evaluation: Evaluation)

  datatype EvaluationError =
    | NoObservations | RepeatedObservation
    | NoEvidence(evidence: E.EvidenceError)
    | NoSpectrum(horizon: HorizonError)
    | BadExpectation

  // ----- the stages

  function Rejected(channels: seq<Channel>, offset: int): seq<Channel> {
    if channels == [] then [] else
    (if offset < channels[0].lag then [channels[0]] else []) + Rejected(channels[1..], offset)
  }

  lemma {:induction false} RejectedIff(channels: seq<Channel>, offset: int)
    ensures forall c :: c in Rejected(channels, offset) <==> c in channels && offset < c.lag
  {
    if channels != [] {
      RejectedIff(channels[1..], offset);
      assert channels == [channels[0]] + channels[1..];
    }
  }

  predicate DistinctReferences(observations: seq<Observation>) {
    forall i, j | 0 <= i < j < |observations| :: observations[i].reference != observations[j].reference
  }

  function RegimeOf(r: RegimeInput): Regime {
    if r.distance > r.theta && r.beatsFluctuation then ShiftCandidate else NoShift
  }

  /** One outcome per item; the first failing stage is the one reported. */
  ghost function EvaluateItem(item: Item, logs: Logs, rng: E.Randomness): Result<Outcome, EvaluationError>
    requires ValidItem(item)
    requires item.Ready? ==> E.ValidRandomness(item.context.evidence, rng)
  {
    if item.UpstreamUnavailable? then Ok(Unavailable(item.reference)) else
    var c, envelope := item.context, item.envelope;
    var rejected := Rejected(c.channels, c.observedAtOffset);
    if rejected != [] then Ok(CausallyRejected(envelope.subject, rejected))
    else if c.observations == [] then Err(NoObservations)
    else if !DistinctReferences(c.observations) then Err(RepeatedObservation)
    else Assess(envelope, c, E.EvidenceFor(c.evidence, logs, rng))
  }

  function Assess(envelope: Envelope, c: ItemContext, evidence: Result<E.Evidence, E.EvidenceError>)
    : (r: Result<Outcome, EvaluationError>)
    ensures r.Ok? ==> r.value.Evaluated?
  {
    match evidence
    case Err(e) => Err(NoEvidence(e))
    case Ok(evidence) =>
      match SpectrumOf(c.horizonPoints)
      case Err(e) => Err(NoSpectrum(e))
      case Ok(horizon) =>
        match ApprovalStep(envelope.authority, c.expectation, c.bindingKind)
        case Err(_) => Err(BadExpectation)
        case Ok(approval) =>
          Ok(Evaluated(Evaluation(envelope.subject, RegimeOf(c.regime), evidence, (evidence.aMinus, evidence.aUpper),
                                  horizon, E.StateOf(c.evidence, evidence), approval)))
  }

  // ----- what an evaluated claim guarantees

  /** Some blind gain of the fitted models is positive, the fitted coefficient is not zero, the
      blind predictor varies and the permutations can reach the significance level. */
  ghost predicate Signal(c: E.Context, logs: Logs) {
    exists baseline, candidate, gains ::
      && E.Behind(c, logs, baseline, candidate, gains)
      && (exists g | g in gains :: g > 0.0)
      && candidate.coefficient != 0.0
      && VariedPredictors(c.blind)
      && 1.0 / ((c.permutations + 1) as real) < c.alpha
  }

  /** The first defect of the step's own list, whatever else is wrong. */
  ghost predicate FirstDefect(authority: AuthorityContext, c: ItemContext, outcome: ApprovalOutcome) {
    exists k | 0 <= k < |STEP_PRECEDENCE| ::
      && outcome == STEP_PRECEDENCE[k]
      && HasStepDefect(authority, c.expectation, c.bindingKind, STEP_PRECEDENCE[k])
      && forall j | 0 <= j < k :: !HasStepDefect(authority, c.expectation, c.bindingKind, STEP_PRECEDENCE[j])
  }

  /** What the evaluation says about the claim: the regime, the bounds and the state as the thresholds
      and the evidence have them, the approval as the envelope has it. */
  ghost predicate Grounded(e: Evaluation, envelope: Envelope, c: ItemContext, signal: bool) {
    && e.subject == envelope.subject
    && (e.regime == ShiftCandidate <==> c.regime.distance > c.regime.theta && c.regime.beatsFluctuation)
    && e.uncertainty == (e.evidence.aMinus, e.evidence.aUpper)
    && SpectrumOf(c.horizonPoints) == Ok(e.horizon)
    && (e.state == E.Predictable <==>
          e.evidence.aMinus > 0.0 && e.evidence.placeboP < c.evidence.alpha
          && e.evidence.realGain > e.evidence.shuffledP95)
    && (e.state == E.Predictable ==> signal)
    && (e.state == E.PredictivelyInaccessible <==>
          e.evidence.aMinus <= 0.0 && 0.0 < c.evidence.aRel && e.evidence.aUpper < c.evidence.aRel)
    && FirstDefect(envelope.authority, c, e.approval)
    && (e.approval == Valid <==>
          && envelope.authority.status == AssertedAuthorized && envelope.authority.approval.Some?
          && envelope.authority.approval.value.boundTo.kind == c.bindingKind
          && Certifies(envelope.authority.approval.value, c.expectation))
  }

  /** For every seed, an evaluated claim comes from causally available channels only, carries the
      evidence of its own context, and says what the thresholds, that evidence, the evaluated points
      and the envelope's approval say. PREDICTABLE needs real blind signal. */
  lemma EvaluatedClaim(item: Item, logs: Logs, rng: E.Randomness)
    requires ValidItem(item) && item.Ready? && E.ValidRandomness(item.context.evidence, rng)
    requires EvaluateItem(item, logs, rng).Ok? && EvaluateItem(item, logs, rng).value.Evaluated?
    ensures forall channel | channel in item.context.channels :: channel.lag <= item.context.observedAtOffset
    ensures var e := EvaluateItem(item, logs, rng).value.evaluation;
            && Grounded(e, item.envelope, item.context, Signal(item.context.evidence, logs))
            && E.EvidenceFor(item.context.evidence, logs, rng) == Ok(e.evidence)
            && E.Contents(item.context.evidence, logs, rng, e.evidence)
  {
    hide E.EvidenceFor, Assess, Signal, Grounded, E.Contents;
    var c := item.context;
    NothingRejected(c);
    SignalOf(c.evidence, logs, rng);
    AssessIsGrounded(item.envelope, c, E.EvidenceFor(c.evidence, logs, rng), Signal(c.evidence, logs));
  }

  lemma NothingRejected(c: ItemContext)
    requires Rejected(c.channels, c.observedAtOffset) == []
    ensures forall channel | channel in c.channels :: channel.lag <= c.observedAtOffset
  {
    RejectedIff(c.channels, c.observedAtOffset);
  }

  lemma SignalOf(c: E.Context, logs: Logs, rng: E.Randomness)
    requires E.ValidContext(c) && E.ValidRandomness(c, rng)
    ensures var evidence := E.EvidenceFor(c, logs, rng);
            evidence.Ok? ==> && evidence.value.aStarWorst == E.Positive(evidence.value.aUpper)
                             && E.Contents(c, logs, rng, evidence.value)
                             && (E.StateOf(c, evidence.value) == E.Predictable ==> Signal(c, logs))
  {
    if E.EvidenceFor(c, logs, rng).Ok? {
      E.EvidenceWorstIsPositivePart(c, logs, rng);
      E.EvidenceContents(c, logs, rng);
      if E.StateOf(c, E.EvidenceFor(c, logs, rng).value) == E.Predictable {
        var baseline, candidate, gains := E.PredictableNeedsSignal(c, logs, rng);
      }
    }
  }

  lemma AssessIsGrounded(envelope: Envelope, c: ItemContext, evidence: Result<E.Evidence, E.EvidenceError>,
                         signal: bool)
    requires ValidAuthority(envelope.authority)
    requires evidence.Ok? ==> && evidence.value.aStarWorst == E.Positive(evidence.value.aUpper)
                              && (E.StateOf(c.evidence, evidence.value) == E.Predictable ==> signal)
    ensures var outcome := Assess(envelope, c, evidence);
            outcome.Ok? ==> && outcome.value.Evaluated? && evidence == Ok(outcome.value.evaluation.evidence)
                            && Grounded(outcome.value.evaluation, envelope, c, signal)
  {
    hide FirstDefect, SpectrumOf, ApprovalStep, E.StateOf, Certifies;
    if Assess(envelope, c, evidence).Ok? {
      E.InaccessibleIsExcluded(evidence.value, c.evidence);
      E.StateIff(c.evidence, evidence.value);
      StepIsFirstDefect(envelope.authority, c);
      ApprovalStepIff(envelope.authority, c.expectation, c.bindingKind, c.expectation.at, 0);
      WellFormedWhenValid(envelope.authority, c);
    }
  }

  lemma StepIsFirstDefect(authority: AuthorityContext, c: ItemContext)
    requires ApprovalStep(authority, c.expectation, c.bindingKind).Ok?
    ensures FirstDefect(authority, c, ApprovalStep(authority, c.expectation, c.bindingKind).value)
  {
    hide HasStepDefect, ApprovalStep;
    var outcome := ApprovalStep(authority, c.expectation, c.bindingKind).value;
    var k :| 0 <= k < |STEP_PRECEDENCE| && outcome == STEP_PRECEDENCE[k] by { Listed(outcome); }
    FirstStepDefectWins(authority, c.expectation, c.bindingKind, k);
  }

  lemma WellFormedWhenValid(authority: AuthorityContext, c: ItemContext)
    requires ApprovalStep(authority, c.expectation, c.bindingKind).Ok?
    ensures ReachesExpectation(authority, c.bindingKind) ==> ValidExpectation(c.expectation)
  {
    FirstStepDefectWins(authority, c.expectation, c.bindingKind, 0);
  }

  lemma Listed(outcome: ApprovalOutcome)
    ensures outcome in STEP_PRECEDENCE
  {
  }

  /** Which error or outcome an item gets, the first failing stage before the later ones: the channels,
      the observations, the evidence, the horizon, the expectation. */
  lemma EvaluationStages(item: Item, logs: Logs, rng: E.Randomness)
    requires ValidItem(item)
    requires item.Ready? ==> E.ValidRandomness(item.context.evidence, rng)
    ensures item.UpstreamUnavailable? ==> EvaluateItem(item, logs, rng) == Ok(Unavailable(item.reference))
    ensures item.Ready? ==>
      var r, c := EvaluateItem(item, logs, rng), item.context;
      var available := forall channel | channel in c.channels :: channel.lag <= c.observedAtOffset;
      var repeated := exists i, j :: && 0 <= i < j < |c.observations|
                                     && c.observations[i].reference == c.observations[j].reference;
      var observed := available && c.observations != [] && !repeated;
      var evidence, horizon := E.EvidenceFor(c.evidence, logs, rng), SpectrumOf(c.horizonPoints);
      var malformed := ReachesExpectation(item.envelope.authority, c.bindingKind) && !ValidExpectation(c.expectation);
      && (r == Err(NoObservations) <==> available && c.observations == [])
      && (r == Err(RepeatedObservation) <==>
            available && c.observations != [] && repeated)
      && (r.Err? && r.error.NoEvidence? <==> observed && evidence.Err?)
      && (r.Err? && r.error.NoEvidence? ==> r.error == NoEvidence(evidence.error))
      && (r.Err? && r.error.NoSpectrum? <==> observed && evidence.Ok? && horizon.Err?)
      && (r.Err? && r.error.NoSpectrum? ==> r.error == NoSpectrum(horizon.error))
      && (r == Err(BadExpectation) <==> observed && evidence.Ok? && horizon.Ok? && malformed)
      && (r.Ok? && r.value.Evaluated? <==> observed && evidence.Ok? && horizon.Ok? && !malformed)
      && (r.Ok? ==> !r.value.Unavailable?)
  {
    if item.Ready? {
      hide E.EvidenceFor, SpectrumOf, ApprovalStep, E.StateOf, ValidExpectation, E.ValidContext;
      hide ValidAuthority;
      NothingRejectedIff(item.context);
      FirstStepDefectWins(item.envelope.authority, item.context.expectation, item.context.bindingKind, 0);
    }
  }

  lemma NothingRejectedIff(c: ItemContext)
    ensures Rejected(c.channels, c.observedAtOffset) == []
       <==> forall channel | channel in c.channels :: channel.lag <= c.observedAtOffset
  {
    RejectedIff(c.channels, c.observedAtOffset);
    var rejected := Rejected(c.channels, c.observedAtOffset);
    if rejected != [] { assert rejected[0] in rejected; }
  }

  /** An item is causally rejected exactly when some channel is observed with too little lag; the
      outcome then names its subject and exactly the late channels, in their order, and nothing of the
      evidence, the horizon or the approval is consulted. */
  lemma CausalRejectionIff(item: Item, logs: Logs, rng: E.Randomness, k: nat)
    requires ValidItem(item) && item.Ready? && E.ValidRandomness(item.context.evidence, rng)
    requires k <= |item.context.channels|
    ensures EvaluateItem(item, logs, rng).Ok? && EvaluateItem(item, logs, rng).value.CausallyRejected?
       <==> exists channel :: channel in item.context.channels && item.context.observedAtOffset < channel.lag
    ensures EvaluateItem(item, logs, rng).Ok? && EvaluateItem(item, logs, rng).value.CausallyRejected? ==>
      var outcome, offset := EvaluateItem(item, logs, rng).value, item.context.observedAtOffset;
      && outcome.subject == item.envelope.subject
      && (forall channel :: channel in outcome.rejected <==> channel in item.context.channels && offset < channel.lag)
      && outcome.rejected
         == Rejected(item.context.channels[..k], offset) + Rejected(item.context.channels[k..], offset)
  {
    hide E.EvidenceFor, Assess, ValidAuthority, E.ValidContext, E.ValidRandomness, DistinctReferences, Rejected;
    var c := item.context;
    RejectedIff(c.channels, c.observedAtOffset);
    NothingRejectedIff(c);
    RejectedCuts(c.channels, c.observedAtOffset, k);
  }

  lemma RejectedCuts(channels: seq<Channel>, offset: int, k: nat)
    requires k <= |channels|
    ensures Rejected(channels, offset) == Rejected(channels[..k], offset) + Rejected(channels[k..], offset)
  {
    hide Rejected;
    assert channels == channels[..k] + channels[k..];
    RejectedConcat(channels[..k], channels[k..], offset);
  }

  lemma {:induction false} RejectedConcat(a: seq<Channel>, b: seq<Channel>, offset: int)
    ensures Rejected(a + b, offset) == Rejected(a, offset) + Rejected(b, offset)
  {
    if a == [] {
      assert a + b == b;
    } else {
      assert (a + b)[1..] == a[1..] + b;
      RejectedConcat(a[1..], b, offset);
    }
  }
}
