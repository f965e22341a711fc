/** Approvals carried by an envelope, and the validator that reads them: it reports the most
    structural defect first and never grants anything. */
module Authority {
  import opened Results
  import opened Canonical

  type Id = nat
  type Instant = int

  const MAX_VERSION := 2147483647
  const MAX_SCOPE_ITEMS := 32
  const MAX_REFERENCE_LENGTH := 255

  datatype BoundKind = ProposedBound | PromotionCandidate

  datatype Bound = Bound(kind: BoundKind, ref: Id)

  datatype Approval = Approval(reference: string, version: int, scope: seq<string>, expiry: Option<Instant>,
                               jurisdiction: Option<string>, boundTo: Bound)

  datatype Status = Unknown | AssertedAuthorized | AssertedNotAuthorized

  datatype AuthorityContext = AuthorityContext(status: Status, approval: Option<Approval>)

  datatype ApprovalOutcome =
    | Valid | Missing | NotAuthorized | Expired | VersionMismatch | OutOfScope | JurisdictionMismatch
    | BindingMismatch

  // ----- what the constructors accept

  predicate OpaqueReference(s: string) { !Blank(s) && |s| <= MAX_REFERENCE_LENGTH }

  predicate ValidVersion(v: int) { 1 <= v <= MAX_VERSION }

  predicate ValidScope(s: seq<string>) {
    && 0 < |s| <= MAX_SCOPE_ITEMS
    && (forall item | item in s :: OpaqueReference(item))
    && StrictlyIncreasing(s)
  }

  predicate ValidApproval(a: Approval) {
    && OpaqueReference(a.reference) && ValidVersion(a.version) && ValidScope(a.scope)
    && (a.jurisdiction.Some? ==> OpaqueReference(a.jurisdiction.value))
  }

  predicate ValidAuthority(c: AuthorityContext) {
    && (c.approval.Some? ==> ValidApproval(c.approval.value) && c.status != Unknown)
    && (c.status == AssertedAuthorized ==> c.approval.Some?)
  }

  /** The same, spelled out. */
  lemma ConstructorsAccept(a: Approval, c: AuthorityContext)
    ensures ValidApproval(a) <==>
      && !Blank(a.reference) && |a.reference| <= 255 && 1 <= a.version <= 2147483647
      && 1 <= |a.scope| <= 32 && StrictlyIncreasing(a.scope)
      && (forall item | item in a.scope :: !Blank(item) && |item| <= 255)
      && (a.jurisdiction.Some? ==> !Blank(a.jurisdiction.value) && |a.jurisdiction.value| <= 255)
    ensures ValidAuthority(c) <==>
      && (c.status == AssertedAuthorized ==> c.approval.Some?)
      && (c.status == Unknown ==> c.approval.None?)
      && (c.approval.Some? ==> ValidApproval(c.approval.value))
  {
  }

  // ----- validation

  predicate Within(part: seq<string>, whole: seq<string>) { forall item | item in part :: item in whole }

  datatype Expectation = Expectation(at: Instant, version: int, scope: seq<string>, jurisdiction: Option<string>)

  predicate ValidExpectation(e: Expectation) {
    && ValidVersion(e.version) && ValidScope(e.scope)
    && (e.jurisdiction.Some? ==> OpaqueReference(e.jurisdiction.value))
  }

  /** What makes a request well formed: a version that fits, one to 32 references in order, and a
      jurisdiction that is a reference if there is one. */
  lemma ExpectationIff(e: Expectation)
    ensures ValidExpectation(e) <==>
      && 1 <= e.version <= 2147483647
      && 1 <= |e.scope| <= 32 && StrictlyIncreasing(e.scope)
      && (forall item | item in e.scope :: !Blank(item) && |item| <= 255)
      && (e.jurisdiction.Some? ==> !Blank(e.jurisdiction.value) && |e.jurisdiction.value| <= 255)
  {
  }

  datatype ArgumentError = InvalidArgument

  function ValidateApproval(c: AuthorityContext, e: Expectation, binding: Bound)
    : Result<ApprovalOutcome, ArgumentError>
  {
    if !ValidExpectation(e) then Err(InvalidArgument) else
    match c.approval
    case None => Ok(Missing)
    case Some(a) =>
      Ok(if c.status != AssertedAuthorized then NotAuthorized
         else if a.boundTo != binding then BindingMismatch
         else if a.version != e.version then VersionMismatch
         else if e.jurisdiction.Some? && a.jurisdiction != e.jurisdiction then JurisdictionMismatch
         else if !Within(e.scope, a.scope) then OutOfScope
         else if a.expiry.Some? && a.expiry.value <= e.at then Expired
         else Valid)
  }

  /** The step of the evaluation: the expected binding is whatever the approval is bound to, so
      only its kind is checked here. */
  function ApprovalStep(c: AuthorityContext, e: Expectation, kind: BoundKind): Result<ApprovalOutcome, ArgumentError> {
    if c.approval.None? then Ok(Missing)
    else if c.approval.value.boundTo.kind != kind then Ok(BindingMismatch)
    else ValidateApproval(c, e, c.approval.value.boundTo)
  }

  /** The outcomes in the order in which the validator prefers to report them. */
  const PRECEDENCE: seq<ApprovalOutcome> :=
    [Missing, NotAuthorized, BindingMismatch, VersionMismatch, JurisdictionMismatch, OutOfScope, Expired, Valid]

  /** Whether the defect that an outcome reports is present, whatever else is wrong. */
  predicate HasDefect(c: AuthorityContext, e: Expectation, binding: Bound, outcome: ApprovalOutcome) {
    match outcome
    case Missing => c.approval.None?
    case NotAuthorized => c.status != AssertedAuthorized
    case BindingMismatch => c.approval.Some? && c.approval.value.boundTo != binding
    case VersionMismatch => c.approval.Some? && c.approval.value.version != e.version
    case JurisdictionMismatch =>
      c.approval.Some? && e.jurisdiction.Some? && c.approval.value.jurisdiction != e.jurisdiction
    case OutOfScope => c.approval.Some? && !Within(e.scope, c.approval.value.scope)
    case Expired => c.approval.Some? && c.approval.value.expiry.Some? && c.approval.value.expiry.value <= e.at
    case Valid => true
  }

  /** With several defects at once the first of the list is the one reported, and only that one. */
  lemma FirstDefectWins(c: AuthorityContext, e: Expectation, binding: Bound, k: nat)
    requires ValidExpectation(e) && k < |PRECEDENCE|
    ensures ValidateApproval(c, e, binding) == Ok(PRECEDENCE[k])
       <==> HasDefect(c, e, binding, PRECEDENCE[k]) && forall j | 0 <= j < k :: !HasDefect(c, e, binding, PRECEDENCE[j])
  {
    hide Within, ValidExpectation;
    assert PRECEDENCE[0] == Missing && PRECEDENCE[1] == NotAuthorized && PRECEDENCE[2] == BindingMismatch
        && PRECEDENCE[3] == VersionMismatch && PRECEDENCE[4] == JurisdictionMismatch && PRECEDENCE[5] == OutOfScope
        && PRECEDENCE[6] == Expired && PRECEDENCE[7] == Valid;
    var outcome := ValidateApproval(c, e, binding).value;
    var i := if outcome == Missing then 0 else if outcome == NotAuthorized then 1
             else if outcome == BindingMismatch then 2
             else if outcome == VersionMismatch then 3 else if outcome == JurisdictionMismatch then 4
             else if outcome == OutOfScope then 5 else if outcome == Expired then 6 else 7;
    assert outcome == PRECEDENCE[i] && HasDefect(c, e, binding, PRECEDENCE[i]);
    assert forall j | 0 <= j < i :: !HasDefect(c, e, binding, PRECEDENCE[j]);
    if i < k { assert HasDefect(c, e, binding, PRECEDENCE[i]); }
  }

  /** The same for the step of the evaluation, which judges the kind of the binding first and never
      what it refers to. */
  const STEP_PRECEDENCE: seq<ApprovalOutcome> :=
    [Missing, BindingMismatch, NotAuthorized, VersionMismatch, JurisdictionMismatch, OutOfScope, Expired, Valid]

  predicate HasStepDefect(c: AuthorityContext, e: Expectation, kind: BoundKind, outcome: ApprovalOutcome) {
    if outcome == BindingMismatch then c.approval.Some? && c.approval.value.boundTo.kind != kind
    else HasDefect(c, e, Bound(kind, 0), outcome)
  }

  /** The expectation is looked at only for an approval of the expected kind; only then can it be
      refused as malformed. */
  predicate ReachesExpectation(c: AuthorityContext, kind: BoundKind) {
    c.approval.Some? && c.approval.value.boundTo.kind == kind
  }

  /** The step reports the first defect of its own list, whatever else is wrong. */
  lemma FirstStepDefectWins(c: AuthorityContext, e: Expectation, kind: BoundKind, k: nat)
    requires k < |STEP_PRECEDENCE|
    ensures ApprovalStep(c, e, kind).Err? <==> ReachesExpectation(c, kind) && !ValidExpectation(e)
    ensures ApprovalStep(c, e, kind) == Ok(STEP_PRECEDENCE[k])
       <==> && !ApprovalStep(c, e, kind).Err?
            && HasStepDefect(c, e, kind, STEP_PRECEDENCE[k])
            && forall j | 0 <= j < k :: !HasStepDefect(c, e, kind, STEP_PRECEDENCE[j])
  {
    hide Within, ValidExpectation;
    assert STEP_PRECEDENCE[0] == Missing && STEP_PRECEDENCE[1] == BindingMismatch && STEP_PRECEDENCE[2] == NotAuthorized
        && STEP_PRECEDENCE[3] == VersionMismatch && STEP_PRECEDENCE[4] == JurisdictionMismatch
        && STEP_PRECEDENCE[5] == OutOfScope && STEP_PRECEDENCE[6] == Expired && STEP_PRECEDENCE[7] == Valid;
    if ApprovalStep(c, e, kind).Ok? {
      var outcome := ApprovalStep(c, e, kind).value;
      var i := if outcome == Missing then 0 else if outcome == BindingMismatch then 1
               else if outcome == NotAuthorized then 2
               else if outcome == VersionMismatch then 3 else if outcome == JurisdictionMismatch then 4
               else if outcome == OutOfScope then 5 else if outcome == Expired then 6 else 7;
      assert outcome == STEP_PRECEDENCE[i] && HasStepDefect(c, e, kind, STEP_PRECEDENCE[i]);
      assert forall j | 0 <= j < i :: !HasStepDefect(c, e, kind, STEP_PRECEDENCE[j]);
      if i < k { assert HasStepDefect(c, e, kind, STEP_PRECEDENCE[i]); }
    }
  }

  /** What a valid outcome certifies about the approval. */
  predicate Certifies(a: Approval, e: Expectation) {
    && a.version == e.version
    && (e.jurisdiction.Some? ==> a.jurisdiction == e.jurisdiction)
    && Within(e.scope, a.scope)
    && (a.expiry.Some? ==> e.at < a.expiry.value)
  }

  /** The step accepts exactly the well-formed requests whose authorised approval is of the
      expected kind and certifies every expectation, and it accepts at every earlier instant
      too. The reference it is bound to plays no part: binding to a particular object is left
      to the gates. */
  lemma ApprovalStepIff(c: AuthorityContext, e: Expectation, kind: BoundKind, earlier: Instant, ref: Id)
    requires ValidAuthority(c) && earlier <= e.at
    ensures ApprovalStep(c, e, kind) == Ok(Valid)
       <==> && ValidExpectation(e) && c.status == AssertedAuthorized
            && c.approval.value.boundTo.kind == kind && Certifies(c.approval.value, e)
    ensures ApprovalStep(c, e, kind) == Ok(Valid) ==> ApprovalStep(c, e.(at := earlier), kind) == Ok(Valid)
    ensures c.approval.Some? ==>
      var a := c.approval.value;
      ApprovalStep(c.(approval := Some(a.(boundTo := Bound(a.boundTo.kind, ref)))), e, kind)
        == ApprovalStep(c, e, kind)
  {
  }
}
