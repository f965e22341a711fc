/** The row constraints of human protection events in SQL's three truth values: a CHECK refuses a
    row only when it is false, so an unknown result accepts it. */
module ProtectionRows {
  import opened Results
  import opened Canonical

  datatype Tri = True | False | Unknown

  function Known(b: bool): Tri { if b then True else False }

  function Not(a: Tri): Tri { match a case True => False case False => True case Unknown => Unknown }

  function And(a: Tri, b: Tri): Tri {
    if a == False || b == False then False else if a == True && b == True then True else Unknown
  }

  function Or(a: Tri, b: Tri): Tri { Not(And(Not(a), Not(b))) }

  function Equal<T(==)>(a: Option<T>, b: Option<T>): Tri {
    if a.None? || b.None? then Unknown else Known(a.value == b.value)
  }

  function In<T(==)>(a: Option<T>, values: set<T>): Tri { if a.None? then Unknown else Known(a.value in values) }

  function IsNull<T>(a: Option<T>): Tri { Known(a.None?) }

  predicate Passes(check: Tri) { check != False }

  // ----- the row

  /** Text columns with a vocabulary: the texts the checks name, and any other text. */
  datatype Outcome = Allowed | Blocked | ReviewRequired | OtherOutcome(text: string)

  datatype Engagement = OperationalEnablement | Analytical | Preventive | Unspecified | OtherEngagement(text: string)

  datatype Gate = G1 | G2 | G3 | G4 | OtherGate(text: string)

  type Id = nat

  datatype Row = Row(schedule: Option<Id>, step: Option<Id>, attempt: Option<Id>, bindingAttempt: Option<Id>,
                     objective: string, fingerprint: string, fingerprintAlgo: string,
                     binding: string, bindingAlgo: string,
                     outcome: Outcome, engagement: Option<Engagement>, boundaryVersion: int, classifier: string,
                     operation: string, gate: Gate, producer: string, pauseApplied: bool, revoked: int)

  function OutcomeIs(r: Row, o: Outcome): Tri { Known(r.outcome == o) }

  function GateIs(r: Row, g: Gate): Tri { Known(r.gate == g) }

  function NotOutcome(r: Row, o: Outcome): Tri { Not(OutcomeIs(r, o)) }

  function NotGate(r: Row, g: Gate): Tri { Not(GateIs(r, g)) }

  const BLOCKING := {OperationalEnablement, Unspecified}

  // ----- the thirty checks, in the order of the schema

  /** Vocabularies, versions, digests and counts. */
  predicate FirstThirteen(r: Row) {
    && Passes(In(Some(r.outcome), {Allowed, Blocked, ReviewRequired}))
    && Passes(Or(IsNull(r.engagement), In(r.engagement, {OperationalEnablement, Analytical, Preventive, Unspecified})))
    && Passes(In(Some(r.gate), {G1, G2, G3, G4}))
    && Passes(Equal(Some(r.producer), Some("orchestration.protection.bridge.v1")))
    && Passes(In(Some(r.operation), {"expose"}))
    && Passes(In(Some(r.fingerprintAlgo), {"1"}))
    && Passes(In(Some(r.bindingAlgo), {"1"}))
    && Passes(Known(r.boundaryVersion > 0))
    && Passes(Known(Sha256(r.objective)))
    && Passes(Known(Sha256(r.fingerprint)))
    && Passes(Known(Sha256(r.binding)))
    && Passes(Not(Equal(Some(r.classifier), Some(""))))
    && Passes(Known(r.revoked >= 0))
  }

  /** The check as first created: membership of a null engagement is unknown. */
  function BlockedEngagement(r: Row): Tri { Or(NotOutcome(r, Blocked), In(r.engagement, BLOCKING)) }

  predicate PauseAndRevocation(r: Row) {
    && Passes(Or(NotOutcome(r, Allowed), Not(Known(r.pauseApplied))))
    && Passes(Or(NotOutcome(r, Allowed), Known(r.revoked == 0)))
    && Passes(Or(Or(NotOutcome(r, Blocked), GateIs(r, G1)), Known(r.pauseApplied)))
    && Passes(Or(Or(NotOutcome(r, ReviewRequired), GateIs(r, G1)), Known(r.pauseApplied)))
    && Passes(Or(NotOutcome(r, ReviewRequired), Known(r.revoked == 0)))
  }

  predicate GatePositions(r: Row) {
    && Passes(Or(NotGate(r, G1), IsNull(r.schedule)))
    && Passes(Or(GateIs(r, G1), Not(IsNull(r.schedule))))
    && Passes(Or(NotGate(r, G1), IsNull(r.step)))
    && Passes(Or(GateIs(r, G1), Not(IsNull(r.step))))
    && Passes(Or(NotGate(r, G1), Not(Known(r.pauseApplied))))
  }

  predicate AttemptBinding(r: Row) {
    && Passes(Or(IsNull(r.attempt), And(GateIs(r, G3), OutcomeIs(r, Allowed))))
    && Passes(Or(Not(And(GateIs(r, G3), OutcomeIs(r, Allowed))), Not(IsNull(r.attempt))))
    && Passes(Or(OutcomeIs(r, Allowed), IsNull(r.attempt)))
    && Passes(Or(NotGate(r, G3), Not(IsNull(r.bindingAttempt))))
    && Passes(Or(GateIs(r, G3), IsNull(r.bindingAttempt)))
    && Passes(Or(IsNull(r.attempt), Equal(r.attempt, r.bindingAttempt)))
  }

  /** Accepted by the checks as first created. */
  predicate AcceptedBefore(r: Row) {
    && FirstThirteen(r) && Passes(BlockedEngagement(r)) && PauseAndRevocation(r) && GatePositions(r)
    && AttemptBinding(r)
  }

  // ----- the corrected set

  function BlockedEngagementCorrected(r: Row): Tri {
    Or(NotOutcome(r, Blocked), And(Not(IsNull(r.engagement)), In(r.engagement, BLOCKING)))
  }

  function AllowedNoEngagement(r: Row): Tri { Or(NotOutcome(r, Allowed), IsNull(r.engagement)) }

  predicate Accepted(r: Row) {
    && FirstThirteen(r) && Passes(BlockedEngagementCorrected(r)) && PauseAndRevocation(r) && GatePositions(r)
    && AttemptBinding(r) && Passes(AllowedNoEngagement(r))
  }

  // ----- what acceptance means, in two values

  /** Vocabularies and formats. */
  predicate WellTyped(r: Row) {
    && !r.outcome.OtherOutcome? && !r.gate.OtherGate?
    && (r.engagement.Some? ==> !r.engagement.value.OtherEngagement?)
    && r.producer == "orchestration.protection.bridge.v1" && r.operation == "expose"
    && r.fingerprintAlgo == "1" && r.bindingAlgo == "1"
    && r.boundaryVersion > 0 && r.classifier != "" && r.revoked >= 0
    && Sha256(r.objective) && Sha256(r.fingerprint) && Sha256(r.binding)
  }

  predicate Meaning(r: Row) {
    && (r.pauseApplied <==> r.gate != G1 && r.outcome != Allowed)
    && (r.attempt.Some? <==> r.gate == G3 && r.outcome == Allowed)
    && (r.attempt.Some? ==> r.attempt == r.bindingAttempt)
    && (r.bindingAttempt.Some? <==> r.gate == G3)
    && (r.schedule.Some? <==> r.gate != G1)
    && (r.step.Some? <==> r.gate != G1)
    && (r.outcome != Blocked ==> r.revoked == 0)
  }

  lemma FirstThirteenIff(r: Row)
    ensures FirstThirteen(r) <==> WellTyped(r)
  {
  }

  lemma RestIff(r: Row)
    requires !r.outcome.OtherOutcome? && !r.gate.OtherGate?
    ensures PauseAndRevocation(r) && GatePositions(r) && AttemptBinding(r) <==> Meaning(r)
  {
  }

  /** The corrected checks, with null counted as acceptance, accept exactly the rows with: an
      attempt when and only when an allowed third gate, and then the binding attempt; a pause when
      and only when not the first gate and not allowed; a schedule and a step when and only when
      not the first gate; revocations only when blocked; a blocking engagement when blocked, and
      none at all when allowed. */
  lemma AcceptedIff(r: Row)
    ensures Accepted(r) <==>
      && WellTyped(r) && Meaning(r)
      && (r.outcome == Blocked ==> r.engagement.Some? && r.engagement.value in BLOCKING)
      && (r.outcome == Allowed ==> r.engagement.None?)
  {
    FirstThirteenIff(r);
    if WellTyped(r) { RestIff(r); }
    hide FirstThirteen, WellTyped, PauseAndRevocation, GatePositions, AttemptBinding, Meaning;
  }

  /** The correction only refuses: what it refuses of the rows accepted before is exactly the
      blocked event with a null engagement and the allowed event with one. */
  lemma CorrectionIff(r: Row)
    ensures Accepted(r) ==> AcceptedBefore(r)
    ensures AcceptedBefore(r) && !Accepted(r) <==>
      && AcceptedBefore(r)
      && ((r.outcome == Blocked && r.engagement.None?) || (r.outcome == Allowed && r.engagement.Some?))
  {
    hide FirstThirteen, PauseAndRevocation, GatePositions, AttemptBinding;
  }

  /** The hole that the correction closes: a blocked event that names no engagement. */
  lemma NullWasAccepted(digest: string)
    requires Sha256(digest)
    ensures var r := Row(Some(1), Some(2), None, None, digest, digest, "1", digest, "1", Blocked, None, 1, "v1",
                         "expose", G2,
                         "orchestration.protection.bridge.v1", true, 0);
            BlockedEngagement(r) == Unknown && AcceptedBefore(r) && !Accepted(r)
  {
    var r := Row(Some(1), Some(2), None, None, digest, digest, "1", digest, "1", Blocked, None, 1, "v1", "expose", G2,
                 "orchestration.protection.bridge.v1", true, 0);
    FirstThirteenIff(r);
    RestIff(r);
  }
}
