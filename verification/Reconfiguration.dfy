/** The two governed gates over the reconfiguration log: promotion of a candidate and rollback
    to an earlier one, each checking, reading the current version and appending. */
module Reconfiguration {
  import opened Results
  import opened Canonical
  import opened Authority
  import opened EventLog
  import opened Horizon
  import opened Claims
  import E = Epistemic

  datatype Candidate = Candidate(subject: string, payload: Payload, expectedVersion: int, proposedVersion: int)

  /** What the candidate's constructor accepts. */
  predicate ValidCandidate(c: Candidate) {
    && !Blank(c.payload.modelRef) && !Blank(c.payload.validationRef) && !Blank(c.payload.costRef)
    && !Blank(c.payload.responsibleRef) && !Blank(c.payload.rollbackPlanRef)
    && c.payload.hypothesisRefs != []
    && (forall h | h in c.payload.hypothesisRefs :: !Blank(h))
    && SortedSet(c.payload.hypothesisRefs) == c.payload.hypothesisRefs
    && Sha256(c.subject) && Sha256(c.payload.sha256)
    && c.expectedVersion >= 0 && c.proposedVersion == c.expectedVersion + 1
  }

  datatype RollbackRequest = RollbackRequest(id: Id, subject: string, rollbackOf: Id, expectedVersion: int,
                                             requiredScope: seq<string>, expectedJurisdiction: Option<string>,
                                             recordedAt: Instant)

  datatype GateOutcome = GateOutcome(decision: Decision, eventId: Option<Id>, subject: string, version: Option<int>)

  datatype GateError = SubjectMismatch | BadArgument | LogFailure(error: LogError)

  /** A gate refuses before reading the log, or goes on with the approval that backs it. */
  datatype Verdict = Refuse(decision: Decision) | Proceed(approval: Approval)

  predicate BoundToCandidate(a: Option<Approval>, candidate: Id, version: int) {
    a.Some? && a.value.boundTo == Bound(PromotionCandidate, candidate) && a.value.version == version
  }

  function StampOf(a: Approval): Stamp {
    Stamp(a.reference, a.version, a.scope, a.jurisdiction, a.boundTo.kind, a.boundTo.ref)
  }

  // ----- promotion

  function PromotionVerdict(e: Evaluation, authority: AuthorityContext, c: Candidate): Result<Verdict, GateError> {
    if c.subject != e.subject then Err(SubjectMismatch)
    else if e.regime != ShiftCandidate then Ok(Refuse(NotApplicable))
    else if e.evidence.aMinus <= 0.0 || e.state != E.Predictable then Ok(Refuse(RejectedValidation))
    else if e.approval != Valid || !BoundToCandidate(authority.approval, c.payload.candidateRef, c.proposedVersion) then
      Ok(Refuse(RejectedApproval))
    else Ok(Proceed(authority.approval.value))
  }

  function PromotionEvent(c: Candidate, a: Approval, id: Id, at: Instant): Event {
    Event(id, c.subject, Promote, c.expectedVersion, c.proposedVersion, c.payload, StampOf(a), None, at)
  }

  // ----- rollback

  function RollbackVerdict(request: RollbackRequest, authority: AuthorityContext, target: Option<Event>)
    : Result<Verdict, GateError>
  {
    if target.None? then Ok(Refuse(RejectedApproval)) else
    var candidate, version := target.value.payload.candidateRef, request.expectedVersion + 1;
    var expectation := Expectation(request.recordedAt, version, request.requiredScope, request.expectedJurisdiction);
    match ValidateApproval(authority, expectation, Bound(PromotionCandidate, candidate))
    case Err(_) => Err(BadArgument)
    case Ok(outcome) =>
      if outcome == Valid && target.value.subject == request.subject
         && BoundToCandidate(authority.approval, candidate, version)
      then Ok(Proceed(authority.approval.value))
      else Ok(Refuse(RejectedApproval))
  }

  function RollbackEvent(request: RollbackRequest, a: Approval, target: Event): Event {
    Event(request.id, request.subject, Rollback, request.expectedVersion, request.expectedVersion + 1, target.payload,
          StampOf(a), Some(target.id), request.recordedAt)
  }

  // ----- reading the current version, then appending

  function Lost(log: seq<Event>, subject: string): GateOutcome {
    GateOutcome(LostConcurrentRace, if Latest(log, subject).None? then None else Some(Latest(log, subject).value.id),
                subject, Some(CurrentVersion(log, subject)))
  }

  function Report(appended: Result<Appended, LogError>, subject: string, actual: int): Result<GateOutcome, GateError> {
    match appended
    case Err(e) => Err(LogFailure(e))
    case Ok(a) => Ok(match a.event
                     case None => GateOutcome(a.decision, None, subject, Some(actual))
                     case Some(x) => GateOutcome(a.decision, Some(x.id), subject, Some(x.toVersion)))
  }

  function SubmitOutcome(log: seq<Event>, e: Event): Result<GateOutcome, GateError> {
    if CurrentVersion(log, e.subject) != e.fromVersion then Ok(Lost(log, e.subject))
    else Report(AppendResult(log, e), e.subject, e.fromVersion)
  }

  function SubmitLog(log: seq<Event>, e: Event): seq<Event> {
    if CurrentVersion(log, e.subject) != e.fromVersion then log else LogAfter(log, e)
  }

  method Submit(repository: Repository, e: Event) returns (r: Result<GateOutcome, GateError>)
    modifies repository
    ensures r == SubmitOutcome(old(repository.log), e)
    ensures repository.log == SubmitLog(old(repository.log), e)
  {
    var current := repository.Current(e.subject);
    var actual := if current.Some? then current.value.toVersion else 0;
    if actual != e.fromVersion {
      return Ok(GateOutcome(LostConcurrentRace, if current.None? then None else Some(current.value.id), e.subject,
                            Some(actual)));
    }
    var appended := repository.Append(e);
    r := Report(appended, e.subject, actual);
  }

  // ----- the gates

  function PromoteOutcome(log: seq<Event>, e: Evaluation, authority: AuthorityContext, c: Candidate, id: Id,
                          at: Instant)
    : Result<GateOutcome, GateError>
  {
    match PromotionVerdict(e, authority, c)
    case Err(error) => Err(error)
    case Ok(Refuse(decision)) => Ok(GateOutcome(decision, None, c.subject, None))
    case Ok(Proceed(a)) => SubmitOutcome(log, PromotionEvent(c, a, id, at))
  }

  function PromoteLog(log: seq<Event>, e: Evaluation, authority: AuthorityContext, c: Candidate, id: Id, at: Instant)
    : seq<Event>
  {
    var verdict := PromotionVerdict(e, authority, c);
    if verdict.Ok? && verdict.value.Proceed?
    then SubmitLog(log, PromotionEvent(c, verdict.value.approval, id, at))
    else log
  }

  method PromoteGate(repository: Repository, e: Evaluation, authority: AuthorityContext, c: Candidate, id: Id,
                     at: Instant)
    returns (r: Result<GateOutcome, GateError>)
    requires ValidCandidate(c) && ValidAuthority(authority)
    modifies repository
    ensures r == PromoteOutcome(old(repository.log), e, authority, c, id, at)
    ensures repository.log == PromoteLog(old(repository.log), e, authority, c, id, at)
  {
    if c.subject != e.subject { return Err(SubjectMismatch); }
    if e.regime != ShiftCandidate { return Ok(GateOutcome(NotApplicable, None, c.subject, None)); }
    if e.evidence.aMinus <= 0.0 || e.state != E.Predictable {
      return Ok(GateOutcome(RejectedValidation, None, c.subject, None));
    }
    if e.approval != Valid || !BoundToCandidate(authority.approval, c.payload.candidateRef, c.proposedVersion) {
      return Ok(GateOutcome(RejectedApproval, None, c.subject, None));
    }
    r := Submit(repository, PromotionEvent(c, authority.approval.value, id, at));
  }

  function RollbackOutcome(log: seq<Event>, request: RollbackRequest, authority: AuthorityContext)
    : Result<GateOutcome, GateError>
  {
    match RollbackVerdict(request, authority, Find(log, request.rollbackOf))
    case Err(error) => Err(error)
    case Ok(Refuse(decision)) => Ok(GateOutcome(decision, None, request.subject, None))
    case Ok(Proceed(a)) => SubmitOutcome(log, RollbackEvent(request, a, Find(log, request.rollbackOf).value))
  }

  function RollbackLog(log: seq<Event>, request: RollbackRequest, authority: AuthorityContext): seq<Event> {
    var target := Find(log, request.rollbackOf);
    var verdict := RollbackVerdict(request, authority, target);
    if verdict.Ok? && verdict.value.Proceed?
    then SubmitLog(log, RollbackEvent(request, verdict.value.approval, target.value))
    else log
  }

  method RollbackGate(repository: Repository, request: RollbackRequest, authority: AuthorityContext)
    returns (r: Result<GateOutcome, GateError>)
    requires ValidAuthority(authority)
    modifies repository
    ensures r == RollbackOutcome(old(repository.log), request, authority)
    ensures repository.log == RollbackLog(old(repository.log), request, authority)
  {
    var target := repository.Get(request.rollbackOf);
    var verdict := RollbackVerdict(request, authority, target);
    match verdict
    case Err(error) => r := Err(error);
    case Ok(Refuse(decision)) => r := Ok(GateOutcome(decision, None, request.subject, None));
    case Ok(Proceed(a)) => r := Submit(repository, RollbackEvent(request, a, target.value));
  }

  // ----- events built by the gates are proposals for the log they were built on

  lemma ScopeColumn(scope: seq<string>)
    requires scope != [] && StrictlyIncreasing(scope) && forall item | item in scope :: !Blank(item)
    ensures CanonicalColumn(scope)
  {
    IncreasingIffSortedSet(scope);
    forall item | item in scope ensures !SqlBlank(item) { NotBlank(item); }
  }

  lemma NotBlank(s: string)
    requires !Blank(s)
    ensures !SqlBlank(s)
  {
    var c :| c in s && !IsSpace(c);
  }

  lemma CandidatePayload(c: Candidate)
    requires ValidCandidate(c)
    ensures CanonicalColumn(c.payload.hypothesisRefs)
    ensures !SqlBlank(c.payload.modelRef) && !SqlBlank(c.payload.validationRef) && !SqlBlank(c.payload.costRef)
    ensures !SqlBlank(c.payload.responsibleRef) && !SqlBlank(c.payload.rollbackPlanRef)
  {
    IncreasingIffSortedSet(c.payload.hypothesisRefs);
    ScopeColumn(c.payload.hypothesisRefs);
    NotBlank(c.payload.modelRef);
    NotBlank(c.payload.validationRef);
    NotBlank(c.payload.costRef);
    NotBlank(c.payload.responsibleRef);
    NotBlank(c.payload.rollbackPlanRef);
  }

  lemma PromotionIsWellBound(c: Candidate, a: Approval, id: Id, at: Instant)
    requires ValidCandidate(c) && ValidApproval(a)
    requires BoundToCandidate(Some(a), c.payload.candidateRef, c.proposedVersion)
    ensures WellBound(PromotionEvent(c, a, id, at))
  {
    CandidatePayload(c);
    ScopeColumn(a.scope);
  }

  lemma RollbackIsWellBound(request: RollbackRequest, a: Approval, target: Event)
    requires WellBound(target) && target.subject == request.subject && ValidApproval(a)
    requires BoundToCandidate(Some(a), target.payload.candidateRef, request.expectedVersion + 1)
    ensures WellBound(RollbackEvent(request, a, target))
  {
    ScopeColumn(a.scope);
  }

  lemma StoredIsWellBound(log: seq<Event>, id: Id)
    requires Safe(log) && Find(log, id).Some?
    ensures WellBound(Find(log, id).value)
  {
    var k :| 0 <= k < |log| && log[k] == Find(log, id).value;
    SafeAt(log, k);
  }

  /** Submitting an event that is well bound keeps the log safe, violates no constraint, and
      commits exactly when the expected version is current and the id is new. It is never
      reported as a replay: an id already in the log is always an identity mismatch here. */
  lemma SubmitIsSafe(log: seq<Event>, e: Event)
    requires Safe(log) && WellBound(e) && Reactivates(log, e)
    ensures Safe(SubmitLog(log, e))
    ensures SubmitOutcome(log, e) != Err(LogFailure(ConstraintViolation))
    ensures var commits := CurrentVersion(log, e.subject) == e.fromVersion && Find(log, e.id).None?;
            && SubmitLog(log, e) == (if commits then log + [e] else log)
            && (commits <==>
                  SubmitOutcome(log, e) == Ok(GateOutcome(Promoted, Some(e.id), e.subject, Some(e.toVersion))))
            && (commits <==> SubmitOutcome(log, e).Ok? && SubmitOutcome(log, e).value.decision == Promoted)
    ensures SubmitOutcome(log, e).Ok? ==> SubmitOutcome(log, e).value.decision in {Promoted, LostConcurrentRace}
  {
    CurrentIsCount(log, e.subject);
    if CurrentVersion(log, e.subject) == e.fromVersion {
      AppendIsSafe(log, e);
      if e in log {
        VersionsAreOneToN(log, e.subject, e.toVersion);
      }
    }
  }

  /** What a committed promotion is built from. */
  predicate Promotable(e: Evaluation, authority: AuthorityContext, c: Candidate) {
    && e.subject == c.subject && e.regime == ShiftCandidate
    && e.evidence.aMinus > 0.0 && e.state == E.Predictable
    && e.approval == Valid && BoundToCandidate(authority.approval, c.payload.candidateRef, c.proposedVersion)
  }

  /** The promotion gate keeps the log safe, never reports a replay, and promotes exactly the
      blind, powerful, validly approved candidate of a shifting regime whose expected version is
      current and whose event id is new. Any other call leaves the log as it was. */
  lemma PromotionGate(log: seq<Event>, e: Evaluation, authority: AuthorityContext, c: Candidate, id: Id, at: Instant)
    requires Safe(log) && ValidCandidate(c) && ValidAuthority(authority)
    ensures var outcome := PromoteOutcome(log, e, authority, c, id, at);
            var after := PromoteLog(log, e, authority, c, id, at);
            var promoted := outcome.Ok? && outcome.value.decision == Promoted;
            && Safe(after)
            && (promoted <==> && Promotable(e, authority, c)
                              && CurrentVersion(log, c.subject) == c.expectedVersion && Find(log, id).None?)
            && after == (if promoted then log + [PromotionEvent(c, authority.approval.value, id, at)] else log)
            && outcome != Err(LogFailure(ConstraintViolation))
            && (outcome.Ok? ==> outcome.value.decision != Replayed)
  {
    hide SubmitOutcome, SubmitLog, WellBound, Safe, ValidCandidate;
    if Promotable(e, authority, c) {
      var event := PromotionEvent(c, authority.approval.value, id, at);
      PromotionIsWellBound(c, authority.approval.value, id, at);
      SubmitIsSafe(log, event);
    }
  }

  /** What the event of a committed promotion carries: every reference of the candidate under its own
      name, the whole approval that backs it, and nothing of a rollback. */
  predicate RecordsPromotion(x: Event, c: Candidate, a: Approval, id: Id, at: Instant) {
    && x.id == id && x.recordedAt == at && x.subject == c.subject
    && x.kind == Promote && x.rollbackOf.None?
    && x.fromVersion == c.expectedVersion && x.toVersion == c.proposedVersion
    && x.payload == c.payload
    && RecordsApproval(x.stamp, a)
  }

  predicate RecordsApproval(stamp: Stamp, a: Approval) {
    && stamp.reference == a.reference && stamp.version == a.version
    && stamp.scope == a.scope && stamp.jurisdiction == a.jurisdiction
    && stamp.boundKind == a.boundTo.kind && stamp.boundRef == a.boundTo.ref
  }

  /** A committed promotion appends one event, current from then on, that records the candidate and
      the approval as they were given; the answer names it and its version. */
  lemma PromotionIsRecorded(log: seq<Event>, e: Evaluation, authority: AuthorityContext, c: Candidate, id: Id,
                            at: Instant)
    requires Safe(log) && ValidCandidate(c) && ValidAuthority(authority)
    requires PromoteOutcome(log, e, authority, c, id, at).Ok?
    requires PromoteOutcome(log, e, authority, c, id, at).value.decision == Promoted
    ensures var after := PromoteLog(log, e, authority, c, id, at);
            && |after| == |log| + 1 && after[..|log|] == log
            && RecordsPromotion(after[|log|], c, authority.approval.value, id, at)
            && Latest(after, c.subject) == Some(after[|log|])
    ensures PromoteOutcome(log, e, authority, c, id, at)
         == Ok(GateOutcome(Promoted, Some(id), c.subject, Some(c.proposedVersion)))
  {
    PromotionGate(log, e, authority, c, id, at);
  }

  /** The answer of a call that promotes nothing: a refusal names no event and no version; a lost race
      names the version now current, which is the number of events of the subject, and its event. */
  predicate RefusalReports(outcome: GateOutcome, log: seq<Event>, subject: string) {
    && outcome.subject == subject
    && (outcome.decision in {NotApplicable, RejectedValidation, RejectedApproval} ==>
          outcome.eventId.None? && outcome.version.None?)
    && (outcome.decision == LostConcurrentRace ==>
          && outcome.version == Some(Versions(log, subject))
          && (outcome.eventId.Some? <==> Versions(log, subject) > 0)
          && (outcome.eventId.Some? ==>
                exists x :: x in log && x.id == outcome.eventId.value && x.subject == subject
                            && x.toVersion == Versions(log, subject)))
  }

  lemma RefusalsReport(log: seq<Event>, e: Evaluation, authority: AuthorityContext, c: Candidate, id: Id, at: Instant)
    requires Safe(log) && ValidCandidate(c) && ValidAuthority(authority)
    requires PromoteOutcome(log, e, authority, c, id, at).Ok?
    ensures RefusalReports(PromoteOutcome(log, e, authority, c, id, at).value, log, c.subject)
  {
    hide Safe, WellBound, ValidCandidate, AppendResult, CurrentVersion;
    if Promotable(e, authority, c) {
      var event := PromotionEvent(c, authority.approval.value, id, at);
      PromotionIsWellBound(c, authority.approval.value, id, at);
      SubmitReports(log, event);
    }
  }

  lemma SubmitReports(log: seq<Event>, e: Event)
    requires Safe(log) && WellBound(e) && Reactivates(log, e) && SubmitOutcome(log, e).Ok?
    ensures RefusalReports(SubmitOutcome(log, e).value, log, e.subject)
  {
    hide Safe, WellBound, Reactivates;
    SubmitIsSafe(log, e);
    CurrentIsCount(log, e.subject);
    SubmitRefusals(log, e);
    if CurrentVersion(log, e.subject) != e.fromVersion && Latest(log, e.subject).Some? {
      var x := Latest(log, e.subject).value;
      assert x in log && x.subject == e.subject && x.toVersion == Versions(log, e.subject);
    }
  }

  /** Which refusal the promotion gate gives: the regime is judged before the evidence, the evidence
      before the approval, and only an accepted candidate is measured against the log. */
  lemma PromotionRefusals(log: seq<Event>, e: Evaluation, authority: AuthorityContext, c: Candidate, id: Id,
                          at: Instant)
    requires Safe(log) && ValidCandidate(c) && ValidAuthority(authority)
    ensures var outcome := PromoteOutcome(log, e, authority, c, id, at);
            var shifts := e.regime == ShiftCandidate;
            var proven := e.evidence.aMinus > 0.0 && e.state == E.Predictable;
            && (outcome == Err(SubjectMismatch) <==> c.subject != e.subject)
            && (outcome.Ok? && outcome.value.decision == NotApplicable <==> c.subject == e.subject && !shifts)
            && (outcome.Ok? && outcome.value.decision == RejectedValidation <==>
                  c.subject == e.subject && shifts && !proven)
            && (outcome.Ok? && outcome.value.decision == RejectedApproval <==>
                  c.subject == e.subject && shifts && proven && !Promotable(e, authority, c))
            && (outcome.Ok? && outcome.value.decision == LostConcurrentRace <==>
                  Promotable(e, authority, c) && CurrentVersion(log, c.subject) != c.expectedVersion)
            && (outcome == Err(LogFailure(IdentityMismatch)) <==>
                  && Promotable(e, authority, c) && CurrentVersion(log, c.subject) == c.expectedVersion
                  && Find(log, id).Some?)
  {
    hide Safe, WellBound, ValidCandidate;
    if Promotable(e, authority, c) {
      var event := PromotionEvent(c, authority.approval.value, id, at);
      PromotionIsWellBound(c, authority.approval.value, id, at);
      SubmitRefusals(log, event);
    }
  }

  lemma SubmitRefusals(log: seq<Event>, e: Event)
    requires Safe(log) && WellBound(e) && Reactivates(log, e)
    ensures SubmitOutcome(log, e).Ok? && SubmitOutcome(log, e).value.decision == LostConcurrentRace
       <==> CurrentVersion(log, e.subject) != e.fromVersion
    ensures SubmitOutcome(log, e) == Err(LogFailure(IdentityMismatch))
       <==> CurrentVersion(log, e.subject) == e.fromVersion && Find(log, e.id).Some?
    ensures SubmitOutcome(log, e).Err? ==> SubmitOutcome(log, e).error == LogFailure(IdentityMismatch)
    ensures SubmitOutcome(log, e).Ok? ==> SubmitOutcome(log, e).value.decision in {Promoted, LostConcurrentRace}
  {
    SubmitIsSafe(log, e);
    CurrentIsCount(log, e.subject);
    if CurrentVersion(log, e.subject) == e.fromVersion && Find(log, e.id).None? {
      AppendIsSafe(log, e);
    }
  }

  /** The rollback gate keeps the log safe and commits exactly when an earlier event of the same
      subject is named, an authorised approval certifies the request for that event's candidate
      at the next version, and the expected version is current under a new id. */
  lemma RollbackGateIff(log: seq<Event>, request: RollbackRequest, authority: AuthorityContext)
    requires Safe(log) && ValidAuthority(authority)
    ensures var outcome, after := RollbackOutcome(log, request, authority), RollbackLog(log, request, authority);
            var target, a := Find(log, request.rollbackOf), authority.approval;
            var expectation := Expectation(request.recordedAt, request.expectedVersion + 1, request.requiredScope,
                                           request.expectedJurisdiction);
            var committed := outcome.Ok? && outcome.value.decision == Promoted;
            && Safe(after)
            && (committed <==>
                  && target.Some? && target.value.subject == request.subject
                  && ValidExpectation(expectation) && authority.status == AssertedAuthorized
                  && a.value.boundTo == Bound(PromotionCandidate, target.value.payload.candidateRef)
                  && Certifies(a.value, expectation)
                  && CurrentVersion(log, request.subject) == request.expectedVersion && Find(log, request.id).None?)
            && after == (if committed then log + [RollbackEvent(request, a.value, target.value)] else log)
            && outcome != Err(LogFailure(ConstraintViolation))
            && (outcome.Ok? ==> outcome.value.decision != Replayed)
  {
    hide SubmitOutcome, SubmitLog, WellBound, Safe;
    var target := Find(log, request.rollbackOf);
    var verdict := RollbackVerdict(request, authority, target);
    if verdict.Ok? && verdict.value.Proceed? {
      StoredIsWellBound(log, request.rollbackOf);
      RollbackIsWellBound(request, verdict.value.approval, target.value);
      SubmitIsSafe(log, RollbackEvent(request, verdict.value.approval, target.value));
    }
  }

  /** Which refusal the rollback gate gives: without a target nothing else is looked at, a malformed
      request is an error, and only an accepted one is measured against the log. */
  lemma RollbackRefusals(log: seq<Event>, request: RollbackRequest, authority: AuthorityContext)
    requires Safe(log) && ValidAuthority(authority)
    ensures var outcome := RollbackOutcome(log, request, authority);
            var target, a := Find(log, request.rollbackOf), authority.approval;
            var expectation := Expectation(request.recordedAt, request.expectedVersion + 1, request.requiredScope,
                                           request.expectedJurisdiction);
            var backed := && target.Some? && target.value.subject == request.subject
                          && ValidExpectation(expectation) && authority.status == AssertedAuthorized
                          && a.value.boundTo == Bound(PromotionCandidate, target.value.payload.candidateRef)
                          && Certifies(a.value, expectation);
            && (outcome == Err(BadArgument) <==> target.Some? && !ValidExpectation(expectation))
            && (outcome.Ok? && outcome.value.decision == RejectedApproval <==>
                  target.None? || (ValidExpectation(expectation) && !backed))
            && (outcome.Ok? && outcome.value.decision == LostConcurrentRace <==>
                  backed && CurrentVersion(log, request.subject) != request.expectedVersion)
            && (outcome == Err(LogFailure(IdentityMismatch)) <==>
                  backed && CurrentVersion(log, request.subject) == request.expectedVersion
                  && Find(log, request.id).Some?)
            && (outcome.Ok? ==> RefusalReports(outcome.value, log, request.subject))
  {
    hide SubmitOutcome, WellBound, Safe, CurrentVersion;
    var target := Find(log, request.rollbackOf);
    var verdict := RollbackVerdict(request, authority, target);
    if verdict.Ok? && verdict.value.Proceed? {
      var event := RollbackEvent(request, verdict.value.approval, target.value);
      StoredIsWellBound(log, request.rollbackOf);
      RollbackIsWellBound(request, verdict.value.approval, target.value);
      SubmitRefusals(log, event);
      if SubmitOutcome(log, event).Ok? { SubmitReports(log, event); }
    }
  }

  /** What the event of a committed rollback carries: the payload of its target, under the target's
      id, and the whole approval that backs it. */
  predicate RecordsRollback(x: Event, request: RollbackRequest, a: Approval, target: Event) {
    && x.id == request.id && x.recordedAt == request.recordedAt && x.subject == request.subject
    && x.kind == Rollback && x.rollbackOf == Some(request.rollbackOf) && target.id == request.rollbackOf
    && x.fromVersion == request.expectedVersion && x.toVersion == request.expectedVersion + 1
    && x.payload == target.payload
    && RecordsApproval(x.stamp, a)
  }

  /** A committed rollback makes the payload of its target the current one again, at the next
      version, under a new event. */
  lemma RollbackReactivates(log: seq<Event>, request: RollbackRequest, authority: AuthorityContext)
    requires Safe(log) && ValidAuthority(authority)
    requires RollbackOutcome(log, request, authority).Ok?
    requires RollbackOutcome(log, request, authority).value.decision == Promoted
    ensures var after := RollbackLog(log, request, authority);
            && |after| == |log| + 1 && after[..|log|] == log
            && Find(log, request.rollbackOf).Some?
            && RecordsRollback(after[|log|], request, authority.approval.value, Find(log, request.rollbackOf).value)
            && Latest(after, request.subject) == Some(after[|log|])
            && CurrentVersion(after, request.subject) == CurrentVersion(log, request.subject) + 1
            && Find(after, request.rollbackOf) == Find(log, request.rollbackOf)
    ensures RollbackOutcome(log, request, authority)
         == Ok(GateOutcome(Promoted, Some(request.id), request.subject, Some(request.expectedVersion + 1)))
  {
    RollbackGateIff(log, request, authority);
    var e := RollbackEvent(request, authority.approval.value, Find(log, request.rollbackOf).value);
    assert (log + [e])[..|log|] == log;
  }

  /** Submitting the very same promotion again loses the race against itself: the answer names
      the event now current, and the log does not change. */
  lemma ResubmissionLoses(log: seq<Event>, e: Evaluation, authority: AuthorityContext, c: Candidate, id: Id,
                          at: Instant)
    requires Safe(log) && ValidCandidate(c) && ValidAuthority(authority)
    requires PromoteOutcome(log, e, authority, c, id, at).Ok?
    requires PromoteOutcome(log, e, authority, c, id, at).value.decision == Promoted
    ensures var after := PromoteLog(log, e, authority, c, id, at);
            && PromoteLog(after, e, authority, c, id, at) == after
            && PromoteOutcome(after, e, authority, c, id, at)
                 == Ok(GateOutcome(LostConcurrentRace, Some(id), c.subject, Some(c.proposedVersion)))
  {
    PromotionGate(log, e, authority, c, id, at);
    var event := PromotionEvent(c, authority.approval.value, id, at);
    assert (log + [event])[..|log|] == log;
  }
}
