/** The final route of an evaluated claim: one of four, or abstention with its limits explained.
    One list of limits is shared and appended to by every step. */
module Routing {
  import opened Results
  import opened Authority
  import opened Claims
  import opened Protection
  import opened Burden
  import opened Quality
  import E = Epistemic
  import C = Conflict
  import L = EventLog
  import R = Reconfiguration

  datatype Limit =
    | RealConflict | Incommensurable(dimensions: set<C.Dimension>)
    | NotApproved(outcome: ApprovalOutcome) | UnresolvedProtection | NoProceduralDetail(guidance: GuidanceOutcome)
    | ProbabilityNotValidated | TradeOffs | VulnerableIncidence
    | IncompleteProtection | GuidanceWithholds(guidance: GuidanceOutcome) | IncomparableBurden(note: Note)
    | AllDominated | NoDecisiveCriterion(alternatives: seq<Alternative>)
    | InactionKept | EscalationNotReversible | EscalationKept
    | NoSafeRoute

  class LimitList {
    var items: seq<Limit>

    constructor ()
      ensures items == []
    {
      items := [];
    }

    method Add(limit: Limit)
      modifies this
      ensures items == old(items) + [limit]
    {
      items := items + [limit];
    }
  }

  datatype FinalRoute = FinalRoute(route: Option<Route>, recommended: Option<Alternative>, limits: seq<Limit>,
                                   revalidated: Route, conflict: C.Assessment)

  // ----- choosing an alternative

  predicate WellFormed(cf: Counterfactual) {
    && (forall kind: Alternative :: HasKind(cf.alternatives, kind))
    && (forall o | o in cf.alternatives :: ValidAlternative(o))
  }

  /** The recommended alternative, and the limit that explains the choice. */
  function Choice(cf: Counterfactual, burden: Comparison): (Option<Alternative>, seq<Limit>)
    requires forall kind: Alternative :: HasKind(cf.alternatives, kind)
  {
    var standing := NonDominated(burden);
    if !cf.completeAnswer then (None, [IncompleteProtection])
    else if !cf.endorsement then (None, [GuidanceWithholds(cf.quality.outcome)])
    else if burden.incomparable != [] then (None, [IncomparableBurden(burden.incomparable[0])])
    else if standing == [] then (None, [AllDominated])
    else if |standing| > 1 then (None, [NoDecisiveCriterion(standing)])
    else match standing[0]
         case Inaction => (Some(Inaction), [InactionKept])
         case ReversibleEscalation =>
           if !OfKind(cf.alternatives, ReversibleEscalation).reversible then (None, [EscalationNotReversible])
           else (Some(ReversibleEscalation), [EscalationKept])
         case FullAction => (Some(FullAction), [])
  }

  method ChooseAlternative(cf: Counterfactual, burden: Comparison, limits: LimitList) returns (r: Option<Alternative>)
    requires forall kind: Alternative :: HasKind(cf.alternatives, kind)
    modifies limits
    ensures r == Choice(cf, burden).0
    ensures limits.items == old(limits.items) + Choice(cf, burden).1
  {
    if !cf.completeAnswer {
      limits.Add(IncompleteProtection);
      return None;
    }
    if !cf.endorsement {
      limits.Add(GuidanceWithholds(cf.quality.outcome));
      return None;
    }
    if burden.incomparable != [] {
      limits.Add(IncomparableBurden(burden.incomparable[0]));
      return None;
    }
    var standing := NonDominated(burden);
    if standing == [] {
      limits.Add(AllDominated);
      return None;
    }
    if |standing| > 1 {
      limits.Add(NoDecisiveCriterion(standing));
      return None;
    }
    var only := standing[0];
    if only == Inaction {
      limits.Add(InactionKept);
    } else if only == ReversibleEscalation {
      if !OfKind(cf.alternatives, only).reversible {
        limits.Add(EscalationNotReversible);
        return None;
      }
      limits.Add(EscalationKept);
    }
    return Some(only);
  }

  /** For every comparison the pipeline can build: an alternative is recommended exactly when the
      protective answer is complete, the guidance endorses it, all burdens are comparable and it
      alone is not dominated; it is then the least burdensome one. All being dominated, and an
      irreversible escalation, never happen. */
  lemma RecommendedIsLeast(cf: Counterfactual, burden: Comparison, m: Alternative)
    requires WellFormed(cf) && Complete(burden.entries) && Burden.Describes(burden, burden.entries)
    ensures Choice(cf, burden).0 == Some(m)
       <==> cf.completeAnswer && cf.endorsement && burden.incomparable == [] && NonDominated(burden) == [m]
    ensures Choice(cf, burden).0 == Some(m) ==>
      forall other: Alternative | other != m :: Dominates(V(burden.entries, other), V(burden.entries, m))
    ensures AllDominated !in Choice(cf, burden).1 && EscalationNotReversible !in Choice(cf, burden).1
  {
    hide Dominates;
    hide Burden.Describes;
    SomeAlternativeStands(burden, burden.entries);
    forall other: Alternative | other != m && NonDominated(burden) == [m]
      ensures Dominates(V(burden.entries, other), V(burden.entries, m))
    {
      SoleAlternativeIsLeast(burden, burden.entries, m, other);
    }
    assert ValidAlternative(OfKind(cf.alternatives, ReversibleEscalation));
  }

  // ----- the route

  /** The parts the final routing reads. */
  datatype Parts = Parts(evaluation: Evaluation, reconfiguration: Option<R.GateOutcome>, assertiveness: Assertiveness,
                         quality: QualityResult, counterfactual: Counterfactual, burden: Comparison,
                         conflict: C.Assessment)

  predicate PromotedBy(reconfiguration: Option<R.GateOutcome>) {
    reconfiguration.Some? && reconfiguration.value.decision == L.Promoted
  }

  function If(c: bool, limit: Limit): seq<Limit> { if c then [limit] else [] }

  /** The limits stated before an alternative is chosen, after those already listed. */
  function WithContext(limits: seq<Limit>, p: Parts): seq<Limit> {
    Stated(limits, C.Blocks(p.conflict), p.conflict.dimensions, p.evaluation.approval, !p.quality.completeAnswer,
           p.quality.outcome, exists e | e in p.burden.entries :: !e.1.probabilityValidated, p.burden.tradeOffs != [],
           exists e | e in p.burden.entries :: TouchesVulnerable(e.1))
  }

  function Stated(limits: seq<Limit>, blocked: bool, dimensions: set<C.Dimension>, approval: ApprovalOutcome,
                  unresolved: bool, guidance: GuidanceOutcome, unvalidated: bool, traded: bool, vulnerable: bool)
    : seq<Limit>
  {
    limits + If(blocked, RealConflict)
    + If(dimensions != {}, Incommensurable(dimensions))
    + If(approval != Valid, NotApproved(approval))
    + If(unresolved, UnresolvedProtection)
    + If(guidance != ValidGuidance, NoProceduralDetail(guidance))
    + If(unvalidated, ProbabilityNotValidated)
    + If(traded, TradeOffs)
    + If(vulnerable, VulnerableIncidence)
  }

  method AddIf(c: bool, limit: Limit, limits: LimitList)
    modifies limits
    ensures limits.items == old(limits.items) + If(c, limit)
  {
    if c { limits.Add(limit); }
  }

  method StateContext(p: Parts, limits: LimitList)
    modifies limits
    ensures limits.items == WithContext(old(limits.items), p)
  {
    hide Stated, TouchesVulnerable;
    StateLimits(limits, C.Blocks(p.conflict), p.conflict.dimensions, p.evaluation.approval, !p.quality.completeAnswer,
                p.quality.outcome, exists e | e in p.burden.entries :: !e.1.probabilityValidated,
                p.burden.tradeOffs != [], exists e | e in p.burden.entries :: TouchesVulnerable(e.1));
  }

  method StateLimits(limits: LimitList, blocked: bool, dimensions: set<C.Dimension>, approval: ApprovalOutcome,
                     unresolved: bool, guidance: GuidanceOutcome, unvalidated: bool, traded: bool, vulnerable: bool)
    modifies limits
    ensures limits.items == Stated(old(limits.items), blocked, dimensions, approval, unresolved, guidance, unvalidated,
                                   traded, vulnerable)
  {
    hide If;
    AddIf(blocked, RealConflict, limits);
    AddIf(dimensions != {}, Incommensurable(dimensions), limits);
    AddIf(approval != Valid, NotApproved(approval), limits);
    AddIf(unresolved, UnresolvedProtection, limits);
    AddIf(guidance != ValidGuidance, NoProceduralDetail(guidance), limits);
    AddIf(unvalidated, ProbabilityNotValidated, limits);
    AddIf(traded, TradeOffs, limits);
    AddIf(vulnerable, VulnerableIncidence, limits);
  }

  function Conservatism(r: Route): nat {
    match r case Predict => 0 case Reconfigure => 1 case Robust => 2 case Investigate => 3
  }

  function MoreConservative(route: Option<Route>, next: Route): Route {
    if route.Some? && Conservatism(route.value) > Conservatism(next) then route.value else next
  }

  /** Of the delivered route and the next one the more conservative is revalidated: to investigate wins
      over all, robustness over the other two, reconfiguration over prediction, and no route at all
      yields to the next one. */
  lemma MoreConservativeIff(route: Option<Route>, next: Route)
    ensures var r := MoreConservative(route, next);
            var either := (x: Route) => next == x || route == Some(x);
            && (r == Investigate <==> either(Investigate))
            && (r == Robust <==> !either(Investigate) && either(Robust))
            && (r == Reconfigure <==> !either(Investigate) && !either(Robust) && either(Reconfigure))
            && (r == Predict <==> next == Predict && (route.None? || route == Some(Predict)))
  {
  }

  /** Delivers the result; the list gains a last entry only if an abstention had no limit. */
  method Deliver(route: Option<Route>, chosen: Option<Alternative>, p: Parts, limits: LimitList) returns (r: FinalRoute)
    modifies limits
    ensures r.route == route && r.limits == limits.items && r.conflict == p.conflict
    ensures r.recommended == if route.None? then None else chosen
    ensures limits.items == old(limits.items) + If(route.None? && old(limits.items) == [], NoSafeRoute)
    ensures r.revalidated == MoreConservative(route, p.assertiveness.nextRoute)
  {
    var revalidated := p.assertiveness.nextRoute;
    if route.Some? && Conservatism(route.value) > Conservatism(revalidated) { revalidated := route.value; }
    if route.None? && limits.items == [] { limits.Add(NoSafeRoute); }
    r := FinalRoute(route, if route.None? then None else chosen, limits.items, revalidated, p.conflict);
  }

  function RouteOf(p: Parts): Option<Route> {
    var approved := p.evaluation.approval == Valid;
    if C.Blocks(p.conflict) then None
    else if PromotedBy(p.reconfiguration) && p.quality.completeAnswer && approved then Some(Reconfigure)
    else match p.evaluation.state
         case Predictable => Some(Predict)
         case Unresolved => Some(Investigate)
         case PredictivelyInaccessible => if approved && p.quality.completeAnswer then Some(Robust) else None
  }

  method FinalRouting(p: Parts) returns (r: FinalRoute)
    requires forall kind: Alternative :: HasKind(p.counterfactual.alternatives, kind)
    ensures r.route == RouteOf(p) && r.conflict == p.conflict
    ensures r.recommended == if r.route.None? then None else Choice(p.counterfactual, p.burden).0
    ensures r.limits == WithContext([], p) + Choice(p.counterfactual, p.burden).1
    ensures r.route.None? ==> r.limits != []
    ensures r.revalidated == MoreConservative(r.route, p.assertiveness.nextRoute)
  {
    var limits := new LimitList();
    StateContext(p, limits);
    var chosen := ChooseAlternative(p.counterfactual, p.burden, limits);
    AbstentionIsExplained(p);
    var approved := p.evaluation.approval == Valid;
    if C.Blocks(p.conflict) {
      r := Deliver(None, chosen, p, limits);
      return;
    }
    if PromotedBy(p.reconfiguration) && p.quality.completeAnswer && approved {
      r := Deliver(Some(Reconfigure), chosen, p, limits);
      return;
    }
    if p.evaluation.state == E.Predictable {
      r := Deliver(Some(Predict), chosen, p, limits);
      return;
    }
    if p.evaluation.state == E.Unresolved {
      r := Deliver(Some(Investigate), chosen, p, limits);
      return;
    }
    if approved && p.quality.completeAnswer {
      r := Deliver(Some(Robust), chosen, p, limits);
      return;
    }
    r := Deliver(None, chosen, p, limits);
  }

  /** Abstention always comes with a limit already stated, so the fallback entry is never
      added. */
  lemma AbstentionIsExplained(p: Parts)
    ensures RouteOf(p).None? ==> WithContext([], p) != []
    ensures NoSafeRoute !in WithContext([], p)
  {
    hide WithContext;
    ContextIff(p, NoSafeRoute);
    ContextIff(p, RealConflict);
    ContextIff(p, UnresolvedProtection);
    ContextIff(p, NotApproved(p.evaluation.approval));
  }

  /** The place of a context limit in the order in which they are stated. */
  function Stage(limit: Limit): int {
    match limit
    case RealConflict => 0 case Incommensurable(_) => 1 case NotApproved(_) => 2 case UnresolvedProtection => 3
    case NoProceduralDetail(_) => 4 case ProbabilityNotValidated => 5 case TradeOffs => 6 case VulnerableIncidence => 7
    case _ => 8
  }

  /** Every limit comes before those of later stages, and all before stage k. */
  predicate StagedBelow(limits: seq<Limit>, k: int) {
    && (forall i, j | 0 <= i < j < |limits| :: Stage(limits[i]) < Stage(limits[j]))
    && forall limit | limit in limits :: Stage(limit) < k
  }

  lemma OneMoreLimit(limits: seq<Limit>, c: bool, added: Limit, limit: Limit)
    requires StagedBelow(limits, Stage(added))
    ensures StagedBelow(limits + If(c, added), Stage(added) + 1)
    ensures limit in limits + If(c, added) <==> limit in limits || (c && limit == added)
  {
    forall l | l in limits ensures Stage(l) < Stage(added) + 1 { }
    assert forall i | 0 <= i < |limits| :: limits[i] in limits;
  }

  predicate Applies(limit: Limit, p: Parts) {
    match limit
    case RealConflict => C.Blocks(p.conflict)
    case Incommensurable(dimensions) => dimensions != {} && dimensions == p.conflict.dimensions
    case NotApproved(outcome) => outcome != Valid && outcome == p.evaluation.approval
    case UnresolvedProtection => !p.quality.completeAnswer
    case NoProceduralDetail(guidance) => guidance != ValidGuidance && guidance == p.quality.outcome
    case ProbabilityNotValidated => exists e | e in p.burden.entries :: !e.1.probabilityValidated
    case TradeOffs => p.burden.tradeOffs != []
    case VulnerableIncidence => exists e | e in p.burden.entries :: TouchesVulnerable(e.1)
    case _ => false
  }

  /** Each context limit is stated exactly when it applies, once and in order of stage, and nothing
      else is. */
  lemma ContextIff(p: Parts, limit: Limit)
    ensures StagedBelow(WithContext([], p), 8)
    ensures limit in WithContext([], p) <==> Applies(limit, p)
  {
    hide StagedBelow, Stated, TouchesVulnerable;
    StatedIff(C.Blocks(p.conflict), p.conflict.dimensions, p.evaluation.approval, !p.quality.completeAnswer,
              p.quality.outcome, exists e | e in p.burden.entries :: !e.1.probabilityValidated,
              p.burden.tradeOffs != [], exists e | e in p.burden.entries :: TouchesVulnerable(e.1), limit);
  }

  lemma StatedIff(blocked: bool, dimensions: set<C.Dimension>, approval: ApprovalOutcome, unresolved: bool,
                  guidance: GuidanceOutcome, unvalidated: bool, traded: bool, vulnerable: bool, limit: Limit)
    ensures var limits := Stated([], blocked, dimensions, approval, unresolved, guidance, unvalidated, traded,
                                 vulnerable);
            && StagedBelow(limits, 8)
            && (limit in limits <==>
                  || (limit == RealConflict && blocked)
                  || (limit == Incommensurable(dimensions) && dimensions != {})
                  || (limit == NotApproved(approval) && approval != Valid)
                  || (limit == UnresolvedProtection && unresolved)
                  || (limit == NoProceduralDetail(guidance) && guidance != ValidGuidance)
                  || (limit == ProbabilityNotValidated && unvalidated)
                  || (limit == TradeOffs && traded)
                  || (limit == VulnerableIncidence && vulnerable))
  {
    hide StagedBelow, If;
    var l4 := FirstLimits(blocked, dimensions, approval, unresolved, limit);
    LastLimits(guidance, unvalidated, traded, vulnerable, limit, l4,
               Stated([], blocked, dimensions, approval, unresolved, guidance, unvalidated, traded, vulnerable));
  }

  lemma FirstLimits(blocked: bool, dimensions: set<C.Dimension>, approval: ApprovalOutcome, unresolved: bool,
                    limit: Limit) returns (l4: seq<Limit>)
    ensures l4 == [] + If(blocked, RealConflict) + If(dimensions != {}, Incommensurable(dimensions))
                  + If(approval != Valid, NotApproved(approval)) + If(unresolved, UnresolvedProtection)
    ensures StagedBelow(l4, 4)
    ensures limit in l4
       <==> || (limit == RealConflict && blocked)
            || (limit == Incommensurable(dimensions) && dimensions != {})
            || (limit == NotApproved(approval) && approval != Valid)
            || (limit == UnresolvedProtection && unresolved)
  {
    assert StagedBelow([], 0);
    hide StagedBelow, If;
    OneMoreLimit([], blocked, RealConflict, limit);
    var l1 := [] + If(blocked, RealConflict);
    OneMoreLimit(l1, dimensions != {}, Incommensurable(dimensions), limit);
    var l2 := l1 + If(dimensions != {}, Incommensurable(dimensions));
    OneMoreLimit(l2, approval != Valid, NotApproved(approval), limit);
    var l3 := l2 + If(approval != Valid, NotApproved(approval));
    OneMoreLimit(l3, unresolved, UnresolvedProtection, limit);
    l4 := l3 + If(unresolved, UnresolvedProtection);
  }

  lemma LastLimits(guidance: GuidanceOutcome, unvalidated: bool, traded: bool, vulnerable: bool, limit: Limit,
                   l4: seq<Limit>, l8: seq<Limit>)
    requires StagedBelow(l4, 4)
    requires l8 == l4 + If(guidance != ValidGuidance, NoProceduralDetail(guidance))
                   + If(unvalidated, ProbabilityNotValidated) + If(traded, TradeOffs)
                   + If(vulnerable, VulnerableIncidence)
    ensures StagedBelow(l8, 8)
    ensures limit in l8
       <==> || limit in l4
            || (limit == NoProceduralDetail(guidance) && guidance != ValidGuidance)
            || (limit == ProbabilityNotValidated && unvalidated)
            || (limit == TradeOffs && traded)
            || (limit == VulnerableIncidence && vulnerable)
  {
    hide StagedBelow, If;
    OneMoreLimit(l4, guidance != ValidGuidance, NoProceduralDetail(guidance), limit);
    var l5 := l4 + If(guidance != ValidGuidance, NoProceduralDetail(guidance));
    OneMoreLimit(l5, unvalidated, ProbabilityNotValidated, limit);
    var l6 := l5 + If(unvalidated, ProbabilityNotValidated);
    OneMoreLimit(l6, traded, TradeOffs, limit);
    var l7 := l6 + If(traded, TradeOffs);
    OneMoreLimit(l7, vulnerable, VulnerableIncidence, limit);
  }

  lemma ChoiceIsNoContext(cf: Counterfactual, burden: Comparison)
    requires forall kind: Alternative :: HasKind(cf.alternatives, kind)
    ensures forall limit | limit in Choice(cf, burden).1 :: Stage(limit) == 8
  {
  }

  /** The limit that comes with the choice: each obstacle has its own, the first one in this order is
      the one stated, inaction and escalation are stated when kept, and full action needs no limit. */
  lemma ChoiceExplains(cf: Counterfactual, burden: Comparison)
    requires WellFormed(cf) && Complete(burden.entries) && Burden.Describes(burden, burden.entries)
    ensures var (choice, limits) := Choice(cf, burden);
            var standing := NonDominated(burden);
            var comparable := cf.completeAnswer && cf.endorsement && burden.incomparable == [];
            && (limits == [IncompleteProtection] <==> !cf.completeAnswer)
            && (limits == [GuidanceWithholds(cf.quality.outcome)] <==> cf.completeAnswer && !cf.endorsement)
            && (cf.completeAnswer && cf.endorsement && burden.incomparable != [] ==>
                  limits == [IncomparableBurden(burden.incomparable[0])])
            && (limits == [NoDecisiveCriterion(standing)] <==> comparable && |standing| > 1)
            && (forall i, j | 0 <= i < j < |standing| :: Rank(standing[i]) < Rank(standing[j]))
            && (limits == [InactionKept] <==> choice == Some(Inaction))
            && (limits == [EscalationKept] <==> choice == Some(ReversibleEscalation))
            && (limits == [] <==> choice == Some(FullAction))
            && (choice.Some? <==> comparable && |standing| == 1)
  {
    hide Burden.Describes;
    SomeAlternativeStands(burden, burden.entries);
    assert ValidAlternative(OfKind(cf.alternatives, ReversibleEscalation));
  }

  /** The claim gets no route exactly on a real conflict, or when it is inaccessible without an
      approval backed by complete protection. Reconfiguration needs a promoted sidecar, a valid
      approval and complete protection, and takes precedence; each of the other three is the route of
      its own state, robustness also needing approval and complete protection. */
  lemma RouteIff(p: Parts)
    ensures RouteOf(p).None?
       <==> || C.Blocks(p.conflict)
            || (p.evaluation.state == E.PredictivelyInaccessible
                && !(p.evaluation.approval == Valid && p.quality.completeAnswer))
    ensures RouteOf(p) == Some(Reconfigure)
       <==> && !C.Blocks(p.conflict) && PromotedBy(p.reconfiguration)
            && p.evaluation.approval == Valid && p.quality.completeAnswer
    ensures RouteOf(p) == Some(Robust)
       <==> && !C.Blocks(p.conflict) && !PromotedBy(p.reconfiguration)
            && p.evaluation.state == E.PredictivelyInaccessible
            && p.evaluation.approval == Valid && p.quality.completeAnswer
    ensures RouteOf(p) == Some(Predict)
       <==> !C.Blocks(p.conflict) && RouteOf(p) != Some(Reconfigure) && p.evaluation.state == E.Predictable
    ensures RouteOf(p) == Some(Investigate)
       <==> !C.Blocks(p.conflict) && RouteOf(p) != Some(Reconfigure) && p.evaluation.state == E.Unresolved
  {
  }
}
