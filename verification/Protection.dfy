/** Assertiveness of one claim, and the protective candidates whose materiality is derived from
    it: supported by a competent authority, not supported, or unresolved. */
module Protection {
  import opened Results
  import opened Canonical
  import opened Authority
  import opened Claims
  import E = Epistemic
  import C = Conflict

  datatype Route = Predict | Reconfigure | Investigate | Robust

  datatype Assertiveness = Assertiveness(conclusion: string, constraint: string, uncertainty: (real, real),
                                         authorized: bool, nextRoute: Route, conflict: C.Assessment)

  function RouteFor(state: E.State): Route {
    match state
    case Predictable => Predict
    case Unresolved => Investigate
    case PredictivelyInaccessible => Robust
  }

  function AssertivenessOf(e: Evaluation, conclusion: string, constraint: string, conflict: C.Assessment)
    : Assertiveness
  {
    Assertiveness(conclusion,
                  if C.Blocks(conflict) then "conflito real entre alegações; " + constraint else constraint,
                  e.uncertainty, e.approval == Valid,
                  if C.Blocks(conflict) then Investigate else RouteFor(e.state),
                  conflict)
  }

  /** What assertiveness says of a claim: its next route is to investigate exactly on a real conflict or
      an unresolved state, and otherwise the route of the state; it is authorised exactly by a valid
      approval; and a real conflict is stated before the decisive constraint. */
  lemma AssertivenessMeans(e: Evaluation, conclusion: string, constraint: string, conflict: C.Assessment)
    ensures var a := AssertivenessOf(e, conclusion, constraint, conflict);
            && a.conclusion == conclusion && a.conflict == conflict && a.uncertainty == e.uncertainty
            && (a.authorized <==> e.approval == Valid)
            && (a.nextRoute == Investigate <==> C.Blocks(conflict) || e.state == E.Unresolved)
            && (a.nextRoute == Predict <==> !C.Blocks(conflict) && e.state == E.Predictable)
            && (a.nextRoute == Robust <==> !C.Blocks(conflict) && e.state == E.PredictivelyInaccessible)
            && (!C.Blocks(conflict) ==> a.constraint == constraint)
            && (C.Blocks(conflict) ==> a.constraint == "conflito real entre alegações; " + constraint)
  {
  }

  // ----- the authority behind a material effect

  datatype MaterialityAuthority = MaterialityAuthority(reference: string, authority: string, jurisdiction: string,
                                                       version: int, scope: seq<string>,
                                                       validFrom: Option<Instant>, validUntil: Option<Instant>)

  datatype Failure =
    | ApprovalNotValid(outcome: ApprovalOutcome) | NoAuthority | NoBinding | EmptyAuthority | UnboundReference
    | VersionDiverges | JurisdictionDiverges | ScopeExceedsApproval | ScopeInsufficient
    | WindowMissing | WindowIncoherent | OutsideWindow | WindowExceedsApproval

  function AuthorityFailure(authority: Option<MaterialityAuthority>, outcome: ApprovalOutcome,
                            binding: Option<Approval>, at: Instant, requiredScope: seq<string>): Option<Failure>
  {
    if outcome != Valid then Some(ApprovalNotValid(outcome))
    else if authority.None? then Some(NoAuthority)
    else if binding.None? then Some(NoBinding)
    else BoundFailure(authority.value, binding.value, at, requiredScope)
  }

  function BoundFailure(m: MaterialityAuthority, a: Approval, at: Instant, requiredScope: seq<string>)
    : Option<Failure>
  {
    if Blank(m.reference) || Blank(m.authority) then Some(EmptyAuthority)
    else if m.reference != a.reference then Some(UnboundReference)
    else if m.version < 1 || m.version != a.version then Some(VersionDiverges)
    else if Some(m.jurisdiction) != a.jurisdiction then Some(JurisdictionDiverges)
    else if !Within(m.scope, a.scope) then Some(ScopeExceedsApproval)
    else if !Within(requiredScope, m.scope) then Some(ScopeInsufficient)
    else if m.validFrom.None? || m.validUntil.None? then Some(WindowMissing)
    else if m.validUntil.value <= m.validFrom.value then Some(WindowIncoherent)
    else if at < m.validFrom.value || at >= m.validUntil.value then Some(OutsideWindow)
    else if a.expiry.Some? && m.validUntil.value > a.expiry.value then Some(WindowExceedsApproval)
    else None
  }

  /** An authority in force under an approval: named, of the same reference, version and
      jurisdiction, within the approval's scope and covering what is required, in a window that
      holds the instant and ends no later than the approval. */
  predicate Sustains(m: MaterialityAuthority, a: Approval, at: Instant, requiredScope: seq<string>) {
    && !Blank(m.reference) && !Blank(m.authority)
    && m.reference == a.reference && m.version == a.version && m.version >= 1 && Some(m.jurisdiction) == a.jurisdiction
    && Within(m.scope, a.scope) && Within(requiredScope, m.scope)
    && m.validFrom.Some? && m.validUntil.Some? && m.validFrom.value <= at < m.validUntil.value
    && (a.expiry.Some? ==> m.validUntil.value <= a.expiry.value)
  }

  /** The chain of checks finds no failure exactly for an authority in force under a valid approval
      whose binding was kept; then the approval itself has not expired and covers the required
      scope. The separate test of an incoherent window only changes the reason reported. */
  lemma SustainedAuthority(authority: Option<MaterialityAuthority>, outcome: ApprovalOutcome, binding: Option<Approval>,
                           at: Instant, requiredScope: seq<string>)
    ensures AuthorityFailure(authority, outcome, binding, at, requiredScope).None?
       <==> && outcome == Valid && authority.Some? && binding.Some?
            && Sustains(authority.value, binding.value, at, requiredScope)
    ensures AuthorityFailure(authority, outcome, binding, at, requiredScope).None? ==>
      && (binding.value.expiry.Some? ==> at < binding.value.expiry.value)
      && Within(requiredScope, binding.value.scope)
  {
    hide Blank;
  }

  /** The failures of a named authority in the order in which they are looked for. */
  const FAILURES: seq<Failure> :=
    [EmptyAuthority, UnboundReference, VersionDiverges, JurisdictionDiverges, ScopeExceedsApproval, ScopeInsufficient,
     WindowMissing, WindowIncoherent, OutsideWindow, WindowExceedsApproval]

  /** Whether the defect that a failure reports is present, whatever else is wrong. */
  predicate HasFailure(m: MaterialityAuthority, a: Approval, at: Instant, requiredScope: seq<string>, f: Failure) {
    match f
    case EmptyAuthority => Blank(m.reference) || Blank(m.authority)
    case UnboundReference => m.reference != a.reference
    case VersionDiverges => m.version < 1 || m.version != a.version
    case JurisdictionDiverges => Some(m.jurisdiction) != a.jurisdiction
    case ScopeExceedsApproval => !Within(m.scope, a.scope)
    case ScopeInsufficient => !Within(requiredScope, m.scope)
    case WindowMissing => m.validFrom.None? || m.validUntil.None?
    case WindowIncoherent =>
      m.validFrom.Some? && m.validUntil.Some? && m.validUntil.value <= m.validFrom.value
    case OutsideWindow =>
      m.validFrom.Some? && m.validUntil.Some? && !(m.validFrom.value <= at < m.validUntil.value)
    case WindowExceedsApproval =>
      m.validUntil.Some? && a.expiry.Some? && m.validUntil.value > a.expiry.value
    case _ => false
  }

  /** Which failure is reported: an approval that is not valid comes before a missing authority, that
      before a missing binding, and the rest in the order of the list, the first one present. */
  lemma FirstFailureWins(authority: Option<MaterialityAuthority>, outcome: ApprovalOutcome, binding: Option<Approval>,
                         at: Instant, requiredScope: seq<string>, k: nat)
    requires k < |FAILURES|
    ensures var r := AuthorityFailure(authority, outcome, binding, at, requiredScope);
            && (forall o :: r == Some(ApprovalNotValid(o)) <==> o == outcome && o != Valid)
            && (r == Some(NoAuthority) <==> outcome == Valid && authority.None?)
            && (r == Some(NoBinding) <==> outcome == Valid && authority.Some? && binding.None?)
            && (r == Some(FAILURES[k]) <==>
                  && outcome == Valid && authority.Some? && binding.Some?
                  && HasFailure(authority.value, binding.value, at, requiredScope, FAILURES[k])
                  && forall j | 0 <= j < k ::
                       !HasFailure(authority.value, binding.value, at, requiredScope, FAILURES[j]))
  {
    hide Blank, Within;
    if outcome == Valid && authority.Some? && binding.Some? {
      FirstBoundFailure(authority.value, binding.value, at, requiredScope, k);
    }
  }

  lemma FirstBoundFailure(m: MaterialityAuthority, a: Approval, at: Instant, requiredScope: seq<string>, k: nat)
    requires k < |FAILURES|
    ensures var r := BoundFailure(m, a, at, requiredScope);
            && (r.Some? ==> r.value in FAILURES)
            && (r == Some(FAILURES[k]) <==>
                  && HasFailure(m, a, at, requiredScope, FAILURES[k])
                  && forall j | 0 <= j < k :: !HasFailure(m, a, at, requiredScope, FAILURES[j]))
  {
    hide Blank, Within;
    assert FAILURES[0] == EmptyAuthority && FAILURES[1] == UnboundReference && FAILURES[2] == VersionDiverges
        && FAILURES[3] == JurisdictionDiverges && FAILURES[4] == ScopeExceedsApproval
        && FAILURES[5] == ScopeInsufficient && FAILURES[6] == WindowMissing && FAILURES[7] == WindowIncoherent
        && FAILURES[8] == OutsideWindow && FAILURES[9] == WindowExceedsApproval;
    var r := BoundFailure(m, a, at, requiredScope);
    if r.Some? {
      var i := if r.value == EmptyAuthority then 0 else if r.value == UnboundReference then 1
               else if r.value == VersionDiverges then 2 else if r.value == JurisdictionDiverges then 3
               else if r.value == ScopeExceedsApproval then 4 else if r.value == ScopeInsufficient then 5
               else if r.value == WindowMissing then 6 else if r.value == WindowIncoherent then 7
               else if r.value == OutsideWindow then 8 else 9;
      assert r.value == FAILURES[i] && HasFailure(m, a, at, requiredScope, FAILURES[i]);
      assert forall j | 0 <= j < i :: !HasFailure(m, a, at, requiredScope, FAILURES[j]);
      if i < k { assert HasFailure(m, a, at, requiredScope, FAILURES[i]); }
    }
  }

  // ----- classification of one candidate

  datatype Candidate = Candidate(identifier: string, reason: string, provenance: string, materialEffect: bool,
                                 authority: Option<MaterialityAuthority>, owner: Option<string>,
                                 timeWindow: Option<string>, reversibility: Option<string>,
                                 triggers: seq<string>, incompatibleWith: seq<string>)

  predicate ValidCandidate(c: Candidate) {
    && c.identifier != "" && c.reason != "" && c.provenance != ""
    && c.identifier !in c.incompatibleWith
    && forall i, j | 0 <= i < j < |c.incompatibleWith| :: c.incompatibleWith[i] != c.incompatibleWith[j]
  }

  datatype Materiality = Supported | NotSupported | Unsettled

  datatype Motive =
    | NoMaterialEffect | Unsustained(failure: Failure) | ConflictingClaims | Unauthorized | MissingMetadata | Sustained
    | IncompatibleAction

  datatype Classified = Classified(candidate: Candidate, materiality: Materiality, motive: Motive)

  /** What the constructor demands of a supported candidate. */
  predicate ConstructorAccepts(c: Classified) {
    c.materiality == Supported ==>
      && c.candidate.authority.Some? && c.candidate.owner.Some? && c.candidate.timeWindow.Some?
      && c.candidate.reversibility.Some? && c.candidate.triggers != []
  }

  /** Everything the classification reads besides the candidate. */
  datatype Setting = Setting(assertiveness: Assertiveness, approval: ApprovalOutcome, binding: Option<Approval>,
                             conflict: C.Assessment, at: Instant, requiredScope: seq<string>)

  function FailureOf(c: Candidate, s: Setting): Option<Failure> {
    AuthorityFailure(c.authority, s.approval, s.binding, s.at, s.requiredScope)
  }

  predicate MetadataComplete(c: Candidate) {
    c.owner.Some? && c.timeWindow.Some? && c.reversibility.Some? && c.triggers != []
  }

  function Classify(c: Candidate, s: Setting): (r: Classified)
    ensures ConstructorAccepts(r)
  {
    if !c.materialEffect then Classified(c, NotSupported, NoMaterialEffect)
    else if FailureOf(c, s).Some? then Classified(c, Unsettled, Unsustained(FailureOf(c, s).value))
    else if C.Blocks(s.conflict) then Classified(c, Unsettled, ConflictingClaims)
    else if !s.assertiveness.authorized then Classified(c, Unsettled, Unauthorized)
    else if !MetadataComplete(c) then Classified(c, Unsettled, MissingMetadata)
    else Classified(c, Supported, Sustained)
  }

  // ----- the protection set

  datatype Coverage = NothingAssessed | InventoryWithoutProvenance | MissingFronts(identifiers: seq<string>)

  datatype ProtectionSet = ProtectionSet(accepted: seq<Classified>, rejected: seq<Classified>,
                                         unresolved: seq<Classified>, coverage: Option<Coverage>)

  predicate CompleteAnswer(p: ProtectionSet) { p.unresolved == [] && p.coverage.None? }

  function ClassifyAll(candidates: seq<Candidate>, s: Setting): (r: seq<Classified>)
    ensures |r| == |candidates|
    ensures forall i | 0 <= i < |r| :: r[i] == Classify(candidates[i], s)
  {
    seq(|candidates|, i requires 0 <= i < |candidates| => Classify(candidates[i], s))
  }

  function Select(all: seq<Classified>, m: Materiality): seq<Classified> {
    if all == [] then [] else (if all[0].materiality == m then [all[0]] else []) + Select(all[1..], m)
  }

  function Id(c: Classified): string { c.candidate.identifier }

  predicate Opposed(a: Classified, b: Classified) { Id(b) in a.candidate.incompatibleWith }

  /** Accepted identifiers that clash with an accepted candidate, in either direction. */
  function ClashingIds(accepted: seq<Classified>): set<string> {
    set a, b | a in accepted && b in accepted && (Opposed(a, b) || Opposed(b, a)) :: Id(a)
  }

  /** The last accepted candidate under an identifier, as the dictionary keeps it. */
  function LastUnder(accepted: seq<Classified>, id: string): (r: Option<Classified>)
    ensures r.Some? ==> r.value in accepted && Id(r.value) == id
    ensures r.None? ==> forall c | c in accepted :: Id(c) != id
  {
    if accepted == [] then None else
    var n := |accepted| - 1;
    if Id(accepted[n]) == id then Some(accepted[n]) else LastUnder(accepted[..n], id)
  }

  function Settle(c: Classified, accepted: seq<Classified>): (r: Classified)
    ensures ConstructorAccepts(c) ==> ConstructorAccepts(r)
  {
    if Id(c) in ClashingIds(accepted) && LastUnder(accepted, Id(c)).Some? then
      LastUnder(accepted, Id(c)).value.(materiality := Unsettled, motive := IncompatibleAction)
    else c
  }

  function SettleAll(all: seq<Classified>, accepted: seq<Classified>): (r: seq<Classified>)
    ensures |r| == |all|
    ensures forall i | 0 <= i < |r| :: r[i] == Settle(all[i], accepted)
  {
    seq(|all|, i requires 0 <= i < |all| => Settle(all[i], accepted))
  }

  function Missing(required: seq<string>, candidates: seq<Candidate>): seq<string> {
    if required == [] then [] else
    (if exists c | c in candidates :: c.identifier == required[0] then [] else [required[0]])
    + Missing(required[1..], candidates)
  }

  function CoverageOf(candidates: seq<Candidate>, required: seq<string>, inventory: Option<string>): Option<Coverage> {
    if candidates == [] && required == [] then Some(NothingAssessed)
    else if required != [] && (inventory.None? || inventory.value == "") then Some(InventoryWithoutProvenance)
    else if Missing(required, candidates) != [] then Some(MissingFronts(Missing(required, candidates)))
    else None
  }

  function Finals(candidates: seq<Candidate>, s: Setting): seq<Classified> {
    var all := ClassifyAll(candidates, s);
    SettleAll(all, Select(all, Supported))
  }

  function Protect(candidates: seq<Candidate>, s: Setting, required: seq<string>, inventory: Option<string>)
    : ProtectionSet
  {
    var finals := Finals(candidates, s);
    ProtectionSet(Select(finals, Supported), Select(finals, NotSupported), Select(finals, Unsettled),
                  CoverageOf(candidates, required, inventory))
  }

  // ----- what the set guarantees

  lemma {:induction false} SelectMembers(all: seq<Classified>, m: Materiality)
    ensures forall c :: c in Select(all, m) <==> c in all && c.materiality == m
  {
    if all != [] {
      SelectMembers(all[1..], m);
      assert all == [all[0]] + all[1..];
    }
  }

  lemma {:induction false} SelectCounts(all: seq<Classified>)
    ensures |Select(all, Supported)| + |Select(all, NotSupported)| + |Select(all, Unsettled)| == |all|
  {
    if all != [] { SelectCounts(all[1..]); }
  }

  /** The three lists add up to the candidates, so none is lost or merged; each holds the records of its
      own materiality, and cutting the records anywhere cuts each list, so they keep their order. */
  lemma CountsAddUp(candidates: seq<Candidate>, s: Setting, required: seq<string>, inventory: Option<string>, k: nat)
    requires k <= |candidates|
    ensures var p, finals := Protect(candidates, s, required, inventory), Finals(candidates, s);
            && |p.accepted| + |p.rejected| + |p.unresolved| == |finals| == |candidates|
            && (forall c :: c in p.accepted <==> c in finals && c.materiality == Supported)
            && (forall c :: c in p.rejected <==> c in finals && c.materiality == NotSupported)
            && (forall c :: c in p.unresolved <==> c in finals && c.materiality == Unsettled)
            && p.accepted == Select(finals[..k], Supported) + Select(finals[k..], Supported)
            && p.rejected == Select(finals[..k], NotSupported) + Select(finals[k..], NotSupported)
            && p.unresolved == Select(finals[..k], Unsettled) + Select(finals[k..], Unsettled)
  {
    var finals := Finals(candidates, s);
    SelectCounts(finals);
    SelectMembers(finals, Supported);
    SelectMembers(finals, NotSupported);
    SelectMembers(finals, Unsettled);
    assert finals == finals[..k] + finals[k..];
    SelectConcat(finals[..k], finals[k..], Supported);
    SelectConcat(finals[..k], finals[k..], NotSupported);
    SelectConcat(finals[..k], finals[k..], Unsettled);
  }

  lemma AcceptedSurvives(candidates: seq<Candidate>, s: Setting, c: Classified)
    ensures var accepted := Select(ClassifyAll(candidates, s), Supported);
            c in Select(Finals(candidates, s), Supported) <==> c in accepted && Id(c) !in ClashingIds(accepted)
  {
    var all := ClassifyAll(candidates, s);
    var accepted := Select(all, Supported);
    var finals := Finals(candidates, s);
    SelectMembers(all, Supported);
    SelectMembers(finals, Supported);
    if c in Select(finals, Supported) {
      var i :| 0 <= i < |finals| && finals[i] == c;
      assert all[i] in all;
    }
    if c in accepted && Id(c) !in ClashingIds(accepted) {
      var i :| 0 <= i < |all| && all[i] == c;
      assert finals[i] == c;
    }
  }

  /** No two accepted candidates are incompatible in either direction, even when identifiers are
      repeated. */
  lemma AcceptedAreCompatible(candidates: seq<Candidate>, s: Setting, required: seq<string>, inventory: Option<string>,
                              a: Classified, b: Classified)
    requires a in Protect(candidates, s, required, inventory).accepted
    requires b in Protect(candidates, s, required, inventory).accepted
    ensures !Opposed(a, b) && !Opposed(b, a)
  {
    AcceptedSurvives(candidates, s, a);
    AcceptedSurvives(candidates, s, b);
  }

  predicate Acceptable(c: Candidate, s: Setting) {
    && c.materialEffect && FailureOf(c, s).None? && !C.Blocks(s.conflict)
    && s.assertiveness.authorized && MetadataComplete(c)
  }

  /** Some acceptable candidate under this identifier clashes with an acceptable one. */
  ghost predicate Clash(candidates: seq<Candidate>, s: Setting, id: string) {
    exists a, b :: a in candidates && Acceptable(a, s) && b in candidates && Acceptable(b, s)
                   && a.identifier == id && (b.identifier in a.incompatibleWith || a.identifier in b.incompatibleWith)
  }

  lemma SupportedIff(d: Candidate, s: Setting)
    ensures Classify(d, s).candidate == d
    ensures Classify(d, s).materiality == Supported <==> Acceptable(d, s)
  {
    hide AuthorityFailure;
  }

  lemma AcceptedFrom(candidates: seq<Candidate>, s: Setting, d: Candidate)
    ensures Classify(d, s) in Select(ClassifyAll(candidates, s), Supported) <==> d in candidates && Acceptable(d, s)
  {
    hide Classify, Acceptable;
    var all := ClassifyAll(candidates, s);
    SelectMembers(all, Supported);
    SupportedIff(d, s);
    if d in candidates {
      var i :| 0 <= i < |candidates| && candidates[i] == d;
      assert all[i] in all;
    }
    if Classify(d, s) in all {
      var i :| 0 <= i < |all| && all[i] == Classify(d, s);
      SupportedIff(candidates[i], s);
    }
  }

  lemma AcceptedIsClassified(candidates: seq<Candidate>, s: Setting, y: Classified)
    requires y in Select(ClassifyAll(candidates, s), Supported)
    ensures y == Classify(y.candidate, s)
  {
    hide Classify;
    var all := ClassifyAll(candidates, s);
    SelectMembers(all, Supported);
    var i :| 0 <= i < |all| && all[i] == y;
    SupportedIff(candidates[i], s);
  }

  lemma ClashIff(candidates: seq<Candidate>, s: Setting, id: string)
    ensures id in ClashingIds(Select(ClassifyAll(candidates, s), Supported)) <==> Clash(candidates, s, id)
  {
    var accepted := Select(ClassifyAll(candidates, s), Supported);
    if id in ClashingIds(accepted) {
      var x, y :| x in accepted && y in accepted && (Opposed(x, y) || Opposed(y, x)) && Id(x) == id;
      AcceptedIsClassified(candidates, s, x);
      AcceptedIsClassified(candidates, s, y);
      AcceptedFrom(candidates, s, x.candidate);
      AcceptedFrom(candidates, s, y.candidate);
    }
    if Clash(candidates, s, id) {
      var a, b :| a in candidates && Acceptable(a, s) && b in candidates && Acceptable(b, s)
                  && a.identifier == id && (b.identifier in a.incompatibleWith || a.identifier in b.incompatibleWith);
      AcceptedFrom(candidates, s, a);
      AcceptedFrom(candidates, s, b);
      var x, y := Classify(a, s), Classify(b, s);
      assert Opposed(x, y) || Opposed(y, x);
    }
  }

  /** Nothing is withheld without cause: a candidate is accepted exactly when it claims a material
      effect, its authority is sustained, no real conflict blocks it, the claim is authorised, its
      metadata is complete and nothing acceptable clashes with its identifier. */
  lemma AcceptedIff(candidates: seq<Candidate>, s: Setting, required: seq<string>, inventory: Option<string>,
                    c: Candidate)
    ensures Classify(c, s) in Protect(candidates, s, required, inventory).accepted
       <==> c in candidates && Acceptable(c, s) && !Clash(candidates, s, c.identifier)
  {
    AcceptedFrom(candidates, s, c);
    AcceptedSurvives(candidates, s, Classify(c, s));
    ClashIff(candidates, s, c.identifier);
  }

  /** A real conflict, an approval that is not valid or a lost binding accepts nothing. */
  lemma NothingAcceptedWithout(candidates: seq<Candidate>, s: Setting, required: seq<string>, inventory: Option<string>)
    requires C.Blocks(s.conflict) || s.approval != Valid || s.binding.None?
    ensures Protect(candidates, s, required, inventory).accepted == []
  {
    var finals := Finals(candidates, s);
    forall c | c in finals ensures c.materiality != Supported {
      var i :| 0 <= i < |finals| && finals[i] == c;
      assert Classify(candidates[i], s).materiality != Supported;
    }
    NoneSelected(finals, Supported);
  }

  lemma {:induction false} MissingMembers(required: seq<string>, candidates: seq<Candidate>, id: string)
    ensures id in Missing(required, candidates)
       <==> id in required && forall c | c in candidates :: c.identifier != id
  {
    if required != [] {
      MissingMembers(required[1..], candidates, id);
      assert required == [required[0]] + required[1..];
    }
  }

  lemma {:induction false} MissingConcat(a: seq<string>, b: seq<string>, candidates: seq<Candidate>)
    ensures Missing(a + b, candidates) == Missing(a, candidates) + Missing(b, candidates)
  {
    if a == [] {
      assert a + b == b;
    } else {
      assert (a + b)[1..] == a[1..] + b;
      MissingConcat(a[1..], b, candidates);
    }
  }

  /** When coverage is complete, and what is said when it is not: nothing was assessed at all, the
      required fronts come without provenance of their inventory, or these fronts, in their order, have
      no candidate. */
  lemma CoverageIff(candidates: seq<Candidate>, s: Setting, required: seq<string>, inventory: Option<string>, k: nat)
    requires k <= |required|
    ensures var coverage := Protect(candidates, s, required, inventory).coverage;
            var nothing := candidates == [] && required == [];
            var unproven := required != [] && (inventory.None? || inventory.value == "");
            var covered := forall id | id in required :: exists c :: c in candidates && c.identifier == id;
            && (coverage == Some(NothingAssessed) <==> nothing)
            && (coverage == Some(InventoryWithoutProvenance) <==> unproven)
            && (coverage.None? <==> !nothing && !unproven && covered)
            && (coverage.Some? && coverage.value.MissingFronts? <==> !unproven && !covered)
            && (coverage.Some? && coverage.value.MissingFronts? ==>
                  && (forall id :: id in coverage.value.identifiers <==>
                        id in required && forall c | c in candidates :: c.identifier != id)
                  && coverage.value.identifiers
                     == Missing(required[..k], candidates) + Missing(required[k..], candidates))
  {
    hide Finals;
    assert required == required[..k] + required[k..];
    MissingConcat(required[..k], required[k..], candidates);
    forall id
      ensures id in Missing(required, candidates)
         <==> id in required && forall c | c in candidates :: c.identifier != id
    {
      MissingMembers(required, candidates, id);
    }
    if Missing(required, candidates) != [] { assert Missing(required, candidates)[0] in Missing(required, candidates); }
  }

  /** Where each candidate ends up: under a clashing identifier it is unresolved, whatever it claimed;
      elsewhere it is supported exactly when acceptable, not supported exactly when it claims no
      effect, and keeps its own data. */
  lemma FinalMeans(candidates: seq<Candidate>, s: Setting, i: nat)
    requires i < |candidates|
    ensures var final, c := Finals(candidates, s)[i], candidates[i];
            var clash := Clash(candidates, s, c.identifier);
            && (final.materiality == Supported <==> !clash && Acceptable(c, s))
            && (final.materiality == NotSupported <==> !clash && !c.materialEffect)
            && (final.materiality == Unsettled <==> clash || (c.materialEffect && !Acceptable(c, s)))
            && (final.motive == IncompatibleAction <==> clash)
            && (!clash ==> final.candidate == c)
            && final.candidate.identifier == c.identifier
  {
    hide Clash, Select, ClashingIds, AuthorityFailure, LastUnder, Blank;
    var c := candidates[i];
    var accepted := Select(ClassifyAll(candidates, s), Supported);
    ClashIff(candidates, s, c.identifier);
    if Clash(candidates, s, c.identifier) { ClashingIsUnder(accepted, c.identifier); }
  }

  /** The last acceptable candidate under an identifier. */
  ghost predicate LastAcceptable(candidates: seq<Candidate>, s: Setting, id: string, c: Candidate) {
    exists j | 0 <= j < |candidates| ::
      && candidates[j] == c && c.identifier == id && Acceptable(c, s)
      && forall k | j < k < |candidates| :: candidates[k].identifier != id || !Acceptable(candidates[k], s)
  }

  /** A clashing identifier carries the record of its last acceptable candidate, as the dictionary of
      accepted records keeps it. */
  lemma ClashCarriesLast(candidates: seq<Candidate>, s: Setting, i: nat)
    requires i < |candidates| && Clash(candidates, s, candidates[i].identifier)
    ensures LastAcceptable(candidates, s, candidates[i].identifier, Finals(candidates, s)[i].candidate)
  {
    hide Clash, Select, AuthorityFailure, LastAcceptable, Classify;
    var accepted := Select(ClassifyAll(candidates, s), Supported);
    ClashIff(candidates, s, candidates[i].identifier);
    ClashingIsUnder(accepted, candidates[i].identifier);
    SupportedIff(candidates[i], s);
    LastUnderIsLast(candidates, s, candidates[i].identifier);
  }

  lemma {:induction false} LastUnderIsLast(candidates: seq<Candidate>, s: Setting, id: string)
    ensures var last := LastUnder(Select(ClassifyAll(candidates, s), Supported), id);
            last.Some? ==> LastAcceptable(candidates, s, id, last.value.candidate)
  {
    hide Classify, Acceptable;
    if candidates != [] {
      var n := |candidates| - 1;
      var all := ClassifyAll(candidates, s);
      LastUnderIsLast(candidates[..n], s, id);
      assert all == all[..n] + all[n..];
      SelectConcat(all[..n], all[n..], Supported);
      assert all[..n] == ClassifyAll(candidates[..n], s) && all[n..] == [all[n]];
      SupportedIff(candidates[n], s);
      var init, accepted := Select(all[..n], Supported), Select(all, Supported);
      if Acceptable(candidates[n], s) {
        assert accepted == init + [all[n]] && accepted[..|accepted| - 1] == init;
      } else {
        assert accepted == init;
      }
    }
  }

  lemma ClashingIsUnder(accepted: seq<Classified>, id: string)
    requires id in ClashingIds(accepted)
    ensures LastUnder(accepted, id).Some?
  {
  }

  /** Why a candidate on its own is not accepted: the first obstacle in this order. */
  lemma MotiveIff(c: Candidate, s: Setting)
    ensures var motive, failure := Classify(c, s).motive, FailureOf(c, s);
            var sustained := c.materialEffect && failure.None?;
            && (motive == NoMaterialEffect <==> !c.materialEffect)
            && (motive.Unsustained? <==> c.materialEffect && failure.Some?)
            && (motive.Unsustained? ==> motive == Unsustained(failure.value))
            && (motive == ConflictingClaims <==> sustained && C.Blocks(s.conflict))
            && (motive == Unauthorized <==> sustained && !C.Blocks(s.conflict) && !s.assertiveness.authorized)
            && (motive == MissingMetadata <==>
                  sustained && !C.Blocks(s.conflict) && s.assertiveness.authorized && !MetadataComplete(c))
            && (motive == Sustained <==> Acceptable(c, s))
            && motive != IncompatibleAction
  {
    hide AuthorityFailure;
  }

  /** A protective answer is complete exactly when every candidate that claims an effect is acceptable,
      no identifier clashes, and coverage is complete. */
  lemma CompleteIff(candidates: seq<Candidate>, s: Setting, required: seq<string>, inventory: Option<string>)
    ensures CompleteAnswer(Protect(candidates, s, required, inventory))
       <==> && (forall c | c in candidates :: c.materialEffect ==> Acceptable(c, s))
            && (forall c | c in candidates :: !Clash(candidates, s, c.identifier))
            && CoverageOf(candidates, required, inventory).None?
  {
    hide Clash, CoverageOf, Acceptable;
    var finals := Finals(candidates, s);
    SelectMembers(finals, Unsettled);
    if Select(finals, Unsettled) != [] {
      var x := Select(finals, Unsettled)[0];
      assert x in Select(finals, Unsettled);
      var i :| 0 <= i < |finals| && finals[i] == x;
      FinalMeans(candidates, s, i);
      assert candidates[i] in candidates;
    } else {
      forall c | c in candidates
        ensures (c.materialEffect ==> Acceptable(c, s)) && !Clash(candidates, s, c.identifier)
      {
        var i :| 0 <= i < |candidates| && candidates[i] == c;
        FinalMeans(candidates, s, i);
        assert finals[i] in finals;
      }
    }
  }

  /** The lists keep the order of the candidates: cutting the records anywhere cuts each list. */
  lemma {:induction false} SelectConcat(a: seq<Classified>, b: seq<Classified>, m: Materiality)
    ensures Select(a + b, m) == Select(a, m) + Select(b, m)
  {
    if a == [] {
      assert a + b == b;
    } else {
      assert (a + b)[1..] == a[1..] + b;
      SelectConcat(a[1..], b, m);
    }
  }

  /** Every classified record satisfies the constructor of the type, in every list. */
  lemma ConstructorNeverFails(candidates: seq<Candidate>, s: Setting, i: nat)
    requires i < |candidates|
    ensures forall c | c == ClassifyAll(candidates, s)[i] || c == Finals(candidates, s)[i] ::
              c.materiality == Supported ==>
                && c.candidate.authority.Some? && c.candidate.owner.Some? && c.candidate.timeWindow.Some?
                && c.candidate.reversibility.Some? && c.candidate.triggers != []
  {
  }

  /** A candidate without material effect stays rejected exactly when its identifier is not that
      of an accepted candidate withdrawn for incompatibility: reclassification is by identifier,
      so a namesake is carried away with it. */
  lemma RejectedStaysIff(candidates: seq<Candidate>, s: Setting, i: nat)
    requires i < |candidates| && !candidates[i].materialEffect
    ensures Finals(candidates, s)[i].materiality == NotSupported <==> !Clash(candidates, s, candidates[i].identifier)
  {
    hide AuthorityFailure, Clash;
    ClashIff(candidates, s, candidates[i].identifier);
    var accepted := Select(ClassifyAll(candidates, s), Supported);
    if LastUnder(accepted, candidates[i].identifier).None? {
      assert candidates[i].identifier !in ClashingIds(accepted);
    }
  }

  predicate DistinctIdentifiers(candidates: seq<Candidate>) {
    forall i, j | 0 <= i < j < |candidates| :: candidates[i].identifier != candidates[j].identifier
  }

  /** With distinct identifiers every record keeps the data of its own candidate, and rejection is
      never disturbed. */
  lemma DistinctAreKept(candidates: seq<Candidate>, s: Setting, i: nat)
    requires DistinctIdentifiers(candidates) && i < |candidates|
    ensures Finals(candidates, s)[i].candidate == candidates[i]
    ensures Finals(candidates, s)[i].materiality == NotSupported <==> !candidates[i].materialEffect
  {
    hide AuthorityFailure, ClashingIds, LastUnder, Select, DistinctIdentifiers, ConstructorAccepts;
    if LastUnder(Select(ClassifyAll(candidates, s), Supported), candidates[i].identifier).Some? {
      OnlyOneUnder(candidates, s, i);
    }
  }

  lemma OnlyOneUnder(candidates: seq<Candidate>, s: Setting, i: nat)
    requires DistinctIdentifiers(candidates) && i < |candidates|
    requires LastUnder(Select(ClassifyAll(candidates, s), Supported), candidates[i].identifier).Some?
    ensures LastUnder(Select(ClassifyAll(candidates, s), Supported), candidates[i].identifier).value
         == Classify(candidates[i], s)
    ensures Acceptable(candidates[i], s)
  {
    hide ClassifyAll, Classify, Acceptable;
    var found := LastUnder(Select(ClassifyAll(candidates, s), Supported), candidates[i].identifier).value;
    AcceptedIsClassified(candidates, s, found);
    AcceptedFrom(candidates, s, found.candidate);
    var j :| 0 <= j < |candidates| && candidates[j] == found.candidate;
    assert j == i;
  }

  /** The smallest case of a namesake: "a" and "b" are accepted but incompatible, and a second "a"
      that claims no effect is no longer reported as rejected. */
  lemma NamesakeIsCarriedAway(s: Setting, a: Candidate, b: Candidate, namesake: Candidate)
    requires Acceptable(a, s) && Acceptable(b, s) && a.identifier in b.incompatibleWith
    requires !namesake.materialEffect && namesake.identifier == a.identifier
    ensures Protect([a, b, namesake], s, [], None).rejected == []
    ensures |Protect([a, b, namesake], s, [], None).unresolved| == 3
  {
    var candidates := [a, b, namesake];
    var accepted := Select(ClassifyAll(candidates, s), Supported);
    AcceptedFrom(candidates, s, a);
    AcceptedFrom(candidates, s, b);
    var x, y := Classify(a, s), Classify(b, s);
    assert Opposed(y, x);
    assert Id(x) in ClashingIds(accepted) && Id(y) in ClashingIds(accepted);
    var finals := Finals(candidates, s);
    forall i | 0 <= i < 3 ensures finals[i].materiality == Unsettled { }
    NoneSelected(finals, NotSupported);
    NoneSelected(finals, Supported);
    SelectCounts(finals);
  }

  lemma {:induction false} NoneSelected(all: seq<Classified>, m: Materiality)
    requires forall c | c in all :: c.materiality != m
    ensures Select(all, m) == []
  {
    if all != [] { NoneSelected(all[1..], m); }
  }
}
