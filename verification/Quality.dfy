/** Validation of optional guidance, the quality result, and the counterfactual set of the three
    alternatives it governs. */
module Quality {
  import opened Results
  import opened Canonical
  import opened Authority
  import opened Protection
  import opened Burden
  import C = Conflict

  datatype Guidance = Guidance(reference: string, authority: string, provenance: string, jurisdiction: string,
                               version: int, validFrom: Option<Instant>, validUntil: Option<Instant>)

  datatype GuidanceOutcome =
    | ValidGuidance | MissingGuidance | Stale | InvalidGuidance | JurisdictionDiffers | VersionDiffers

  datatype Disposition = UseProceduralDetail | ReferToCompetentAuthority | AbstainFromProceduralDetail

  datatype GuidanceExpectation = GuidanceExpectation(at: Instant, jurisdiction: string, version: int)

  function ValidateGuidance(guidance: Option<Guidance>, e: GuidanceExpectation): GuidanceOutcome {
    if guidance.None? then MissingGuidance else
    var g := guidance.value;
    if Blank(g.reference) || Blank(g.authority) then InvalidGuidance
    else if Blank(g.provenance) || g.version < 1 then InvalidGuidance
    else if g.validFrom.None? || g.validUntil.None? then InvalidGuidance
    else if g.validUntil.value <= g.validFrom.value then InvalidGuidance
    else if g.jurisdiction != e.jurisdiction then JurisdictionDiffers
    else if g.version != e.version then VersionDiffers
    else if e.at < g.validFrom.value || e.at >= g.validUntil.value then Stale
    else ValidGuidance
  }

  /** Whether the reference is well formed at all, apart from what the caller expects. */
  predicate WellFormedGuidance(g: Guidance) {
    && !Blank(g.reference) && !Blank(g.authority) && !Blank(g.provenance) && g.version >= 1
    && g.validFrom.Some? && g.validUntil.Some? && g.validFrom.value < g.validUntil.value
  }

  /** Guidance is valid exactly when it is present, well formed, of the expected jurisdiction and
      version, and in force; the instants at which it is valid are the half-open window it states,
      and outside that window it is stale. */
  lemma GuidanceValidIff(guidance: Option<Guidance>, e: GuidanceExpectation, at: Instant)
    ensures ValidateGuidance(guidance, e) == ValidGuidance
       <==> && guidance.Some? && WellFormedGuidance(guidance.value)
            && guidance.value.jurisdiction == e.jurisdiction && guidance.value.version == e.version
            && guidance.value.validFrom.value <= e.at < guidance.value.validUntil.value
    ensures ValidateGuidance(guidance, e) == MissingGuidance <==> guidance.None?
    ensures ValidateGuidance(guidance, e) == InvalidGuidance <==> guidance.Some? && !WellFormedGuidance(guidance.value)
    ensures ValidateGuidance(guidance, e) == JurisdictionDiffers
       <==> guidance.Some? && WellFormedGuidance(guidance.value) && guidance.value.jurisdiction != e.jurisdiction
    ensures ValidateGuidance(guidance, e) == VersionDiffers
       <==> && guidance.Some? && WellFormedGuidance(guidance.value)
            && guidance.value.jurisdiction == e.jurisdiction && guidance.value.version != e.version
    ensures ValidateGuidance(guidance, e) == ValidGuidance ==>
      ValidateGuidance(guidance, e.(at := at))
        == if guidance.value.validFrom.value <= at < guidance.value.validUntil.value then ValidGuidance else Stale
  {
  }

  datatype QualityResult = QualityResult(outcome: GuidanceOutcome, disposition: Disposition, completeAnswer: bool,
                                         proceduralDetail: bool)

  function RecommendationQuality(p: ProtectionSet, guidance: Option<Guidance>, e: GuidanceExpectation): QualityResult {
    var outcome := ValidateGuidance(guidance, e);
    QualityResult(outcome,
                  match outcome
                  case ValidGuidance => UseProceduralDetail
                  case MissingGuidance => AbstainFromProceduralDetail
                  case _ => ReferToCompetentAuthority,
                  CompleteAnswer(p), outcome == ValidGuidance)
  }

  // ----- the counterfactual set

  datatype Course = Course(kind: Alternative, key: C.Key, cost: Option<real>, reversible: bool, description: string)

  /** What the constructor of an alternative accepts; an absent cost is unknown, not zero. */
  predicate ValidAlternative(o: Course) { o.kind == ReversibleEscalation ==> o.reversible }

  datatype Counterfactual = Counterfactual(alternatives: seq<Course>, endorsement: bool, completeAnswer: bool,
                                           quality: QualityResult)

  datatype CounterfactualError = MissingAlternative | UnjustifiedAsymmetry

  predicate HasKind(alternatives: seq<Course>, kind: Alternative) { exists o | o in alternatives :: o.kind == kind }

  predicate OneKey(alternatives: seq<Course>) {
    forall o, p | o in alternatives && p in alternatives :: o.key == p.key
  }

  function CounterfactualSet(alternatives: seq<Course>, p: ProtectionSet, quality: QualityResult,
                             justification: Option<string>): Result<Counterfactual, CounterfactualError>
  {
    if exists kind: Alternative :: !HasKind(alternatives, kind) then Err(MissingAlternative)
    else if !OneKey(alternatives) && (justification.None? || justification.value == "") then Err(UnjustifiedAsymmetry)
    else Ok(Counterfactual(alternatives, quality.outcome == ValidGuidance, CompleteAnswer(p), quality))
  }

  /** A counterfactual set is built exactly when all three kinds are present and either every
      alternative shares one key or the asymmetry is justified; it endorses exactly what the quality
      result endorses, by the same disposition, and is complete exactly when the quality is. */
  lemma CounterfactualIff(alternatives: seq<Course>, p: ProtectionSet, guidance: Option<Guidance>,
                          e: GuidanceExpectation, justification: Option<string>)
    ensures var quality := RecommendationQuality(p, guidance, e);
            var built := CounterfactualSet(alternatives, p, quality, justification);
            && (built == Err(MissingAlternative) <==> !(forall kind: Alternative :: HasKind(alternatives, kind)))
            && (built.Ok? <==>
                  && (forall kind: Alternative :: HasKind(alternatives, kind))
                  && (|| (forall o, p | o in alternatives && p in alternatives :: o.key == p.key)
                      || (justification.Some? && justification.value != "")))
            && (built.Ok? ==>
                  && built.value.alternatives == alternatives && built.value.quality == quality
                  && (built.value.endorsement <==> ValidateGuidance(guidance, e) == ValidGuidance)
                  && (built.value.completeAnswer <==> CompleteAnswer(p))
                  && (built.value.endorsement <==> quality.proceduralDetail)
                  && (built.value.endorsement <==> quality.disposition == UseProceduralDetail)
                  && built.value.completeAnswer == quality.completeAnswer
                  && (quality.disposition == AbstainFromProceduralDetail <==> guidance.None?))
  {
    hide CompleteAnswer;
  }

  /** The first alternative of a kind. */
  function OfKind(alternatives: seq<Course>, kind: Alternative): (r: Course)
    requires HasKind(alternatives, kind)
    ensures r in alternatives && r.kind == kind
  {
    if alternatives[0].kind == kind then alternatives[0] else
    assert alternatives == [alternatives[0]] + alternatives[1..];
    OfKind(alternatives[1..], kind)
  }
}
