/** The coordinator: the reconfiguration sidecar of a batch, the routing of each item from its
    own outcome, sidecar, approval and conflict assessment, and what a route certifies end to
    end. */
module Coordinator {
  import opened Results
  import opened Canonical
  import opened Authority
  import opened Claims
  import opened EventLog
  import R = Reconfiguration
  import P = Protection
  import B = Burden
  import Q = Quality
  import T = Routing
  import C = Conflict
  import E = Epistemic
  import Estimator

  datatype Instruction = Instruction(candidate: R.Candidate, id: Id, at: Instant)

  /** One position of a batch: the item, its scientific outcome and what was proposed for it. */
  datatype Entry = Entry(item: Item, outcome: Outcome, instruction: Option<Instruction>)

  datatype Sidecar =
    | UnavailableSidecar(reference: string)
    | RejectedSidecar(subject: string)
    | EvaluatedSidecar(gate: R.GateOutcome)

  /** Evaluated outcomes come from ready items, and candidates were accepted by their
      constructor. */
  predicate ValidEntry(e: Entry) {
    && ValidItem(e.item)
    && (e.outcome.Evaluated? ==> e.item.Ready?)
    && (e.instruction.Some? ==> R.ValidCandidate(e.instruction.value.candidate))
  }

  predicate Proposes(e: Entry) { e.outcome.Evaluated? && e.instruction.Some? }

  // ----- the sidecar

  function NothingProposed(e: Evaluation): R.GateOutcome { R.GateOutcome(NotApplicable, None, e.subject, None) }

  function SidecarOf(log: seq<Event>, e: Entry): Result<Sidecar, R.GateError>
    requires ValidEntry(e)
  {
    match e.outcome
    case Unavailable(reference) => Ok(UnavailableSidecar(reference))
    case CausallyRejected(subject, _) => Ok(RejectedSidecar(subject))
    case Evaluated(evaluation) =>
      if e.instruction.None? then Ok(EvaluatedSidecar(NothingProposed(evaluation))) else
      match GateOf(log, e)
      case Err(error) => Err(error)
      case Ok(gate) => Ok(EvaluatedSidecar(gate))
  }

  function GateOf(log: seq<Event>, e: Entry): Result<R.GateOutcome, R.GateError>
    requires ValidEntry(e) && Proposes(e)
  {
    var i := e.instruction.value;
    R.PromoteOutcome(log, e.outcome.evaluation, e.item.envelope.authority, i.candidate, i.id, i.at)
  }

  function SidecarLog(log: seq<Event>, e: Entry): seq<Event>
    requires ValidEntry(e)
  {
    if !Proposes(e) then log else
    var i := e.instruction.value;
    R.PromoteLog(log, e.outcome.evaluation, e.item.envelope.authority, i.candidate, i.id, i.at)
  }

  predicate ValidBatch(entries: seq<Entry>) { forall e | e in entries :: ValidEntry(e) }

  /** The batch runs in order and stops at the first gate that fails. */
  function BatchResult(log: seq<Event>, entries: seq<Entry>): (r: Result<seq<Sidecar>, R.GateError>)
    requires ValidBatch(entries)
    ensures r.Ok? ==> |r.value| == |entries|
  {
    if entries == [] then Ok([]) else
    var n := |entries| - 1;
    match BatchResult(log, entries[..n])
    case Err(error) => Err(error)
    case Ok(earlier) =>
      match SidecarOf(BatchLog(log, entries[..n]), entries[n])
      case Err(error) => Err(error)
      case Ok(sidecar) => Ok(earlier + [sidecar])
  }

  function BatchLog(log: seq<Event>, entries: seq<Entry>): seq<Event>
    requires ValidBatch(entries)
  {
    if entries == [] then log else
    var n := |entries| - 1;
    var before := BatchLog(log, entries[..n]);
    if BatchResult(log, entries[..n]).Err? then before else SidecarLog(before, entries[n])
  }

  method ReconfigureBatch(entries: seq<Entry>, repository: Repository) returns (r: Result<seq<Sidecar>, R.GateError>)
    requires ValidBatch(entries)
    modifies repository
    ensures r == BatchResult(old(repository.log), entries)
    ensures repository.log == BatchLog(old(repository.log), entries)
  {
    var sidecar: seq<Sidecar> := [];
    for n := 0 to |entries|
      invariant BatchResult(old(repository.log), entries[..n]) == Ok(sidecar)
      invariant repository.log == BatchLog(old(repository.log), entries[..n])
    {
      assert entries[n] in entries;
      assert entries[..n + 1][..n] == entries[..n];
      var step := ReconfigureItem(entries[n], repository);
      if step.Err? {
        StopsAt(old(repository.log), entries, n);
        return Err(step.error);
      }
      sidecar := sidecar + [step.value];
    }
    assert entries[..|entries|] == entries;
    return Ok(sidecar);
  }

  method ReconfigureItem(e: Entry, repository: Repository) returns (r: Result<Sidecar, R.GateError>)
    requires ValidEntry(e)
    modifies repository
    ensures r == SidecarOf(old(repository.log), e)
    ensures repository.log == SidecarLog(old(repository.log), e)
  {
    match e.outcome
    case Unavailable(reference) => return Ok(UnavailableSidecar(reference));
    case CausallyRejected(subject, _) => return Ok(RejectedSidecar(subject));
    case Evaluated(evaluation) =>
      if e.instruction.None? { return Ok(EvaluatedSidecar(NothingProposed(evaluation))); }
      var i := e.instruction.value;
      var gate := R.PromoteGate(repository, evaluation, e.item.envelope.authority, i.candidate, i.id, i.at);
      if gate.Err? { return Err(gate.error); }
      return Ok(EvaluatedSidecar(gate.value));
  }

  /** A failing position decides the rest of the batch. */
  lemma {:induction false} StopsAt(log: seq<Event>, entries: seq<Entry>, n: nat)
    requires ValidBatch(entries) && n < |entries|
    requires BatchResult(log, entries[..n]).Ok? && SidecarOf(BatchLog(log, entries[..n]), entries[n]).Err?
    ensures BatchResult(log, entries) == Err(SidecarOf(BatchLog(log, entries[..n]), entries[n]).error)
    ensures BatchLog(log, entries) == SidecarLog(BatchLog(log, entries[..n]), entries[n])
    decreases |entries|
  {
    hide SidecarOf, SidecarLog, ValidEntry;
    var m := |entries| - 1;
    if n < m {
      assert entries[..m][..n] == entries[..n];
      StopsAt(log, entries[..m], n);
    }
  }

  predicate Promoted(s: Sidecar) { s.EvaluatedSidecar? && s.gate.decision == EventLog.Promoted }

  function EventOf(e: Entry): Event
    requires Proposes(e) && e.item.Ready? && e.item.envelope.authority.approval.Some?
  {
    var i := e.instruction.value;
    R.PromotionEvent(i.candidate, e.item.envelope.authority.approval.value, i.id, i.at)
  }

  /** What a promoted position certifies. */
  predicate Earned(e: Entry) {
    && Proposes(e) && e.item.Ready?
    && R.Promotable(e.outcome.evaluation, e.item.envelope.authority, e.instruction.value.candidate)
  }

  /** The event a position appends, if it was promoted. */
  function OwnEvent(e: Entry, s: Sidecar): seq<Event> { if Promoted(s) && Earned(e) then [EventOf(e)] else [] }

  /** The events the promoted positions of a batch append, in order. */
  function PromotedEvents(entries: seq<Entry>, sidecar: seq<Sidecar>): seq<Event>
    requires |entries| == |sidecar|
  {
    if entries == [] then [] else
    var n := |entries| - 1;
    PromotedEvents(entries[..n], sidecar[..n]) + OwnEvent(entries[n], sidecar[n])
  }

  lemma OneSidecar(log: seq<Event>, e: Entry)
    requires Safe(log) && ValidEntry(e)
    ensures Safe(SidecarLog(log, e))
    ensures SidecarOf(log, e).Ok? ==> SidecarLog(log, e) == log + OwnEvent(e, SidecarOf(log, e).value)
    ensures SidecarOf(log, e).Ok? && Promoted(SidecarOf(log, e).value) ==> Earned(e)
    ensures SidecarOf(log, e).Err? ==> SidecarLog(log, e) == log
    ensures SidecarOf(log, e) != Err(R.LogFailure(ConstraintViolation))
  {
    hide Safe;
    hide R.PromoteOutcome;
    hide R.PromoteLog;
    if Proposes(e) {
      var i := e.instruction.value;
      R.PromotionGate(log, e.outcome.evaluation, e.item.envelope.authority, i.candidate, i.id, i.at);
    }
  }

  /** Items that are unavailable or causally rejected neither read nor write the log. */
  lemma NotEvaluatedIsInert(log: seq<Event>, other: seq<Event>, e: Entry)
    requires ValidEntry(e) && !e.outcome.Evaluated?
    ensures SidecarOf(log, e) == SidecarOf(other, e)
    ensures SidecarLog(log, e) == log
    ensures SidecarOf(log, e).Ok? && !Promoted(SidecarOf(log, e).value)
  {
  }

  /** On a safe log the batch keeps the log safe and never rewrites it. When it completes, the
      sidecar is aligned with the items, the log has grown by exactly the events of the promoted
      positions in order, and each of these was earned. */
  lemma {:induction false} BatchIsSafe(log: seq<Event>, entries: seq<Entry>)
    requires Safe(log) && ValidBatch(entries)
    ensures Safe(BatchLog(log, entries)) && log <= BatchLog(log, entries)
    ensures BatchResult(log, entries).Ok? ==>
      && BatchLog(log, entries) == log + PromotedEvents(entries, BatchResult(log, entries).value)
      && forall i | 0 <= i < |entries| && Promoted(BatchResult(log, entries).value[i]) :: Earned(entries[i])
  {
    hide ValidEntry, Earned, Promoted, SidecarOf, SidecarLog, OwnEvent, Safe;
    if entries != [] {
      var n := |entries| - 1;
      var init, last := entries[..n], entries[n];
      assert last in entries;
      BatchIsSafe(log, init);
      OneSidecar(BatchLog(log, init), last);
      if BatchResult(log, entries).Ok? {
        var sidecar := BatchResult(log, entries).value;
        assert sidecar[..n] == BatchResult(log, init).value;
        forall i | 0 <= i < |entries| && Promoted(sidecar[i]) ensures Earned(entries[i]) {
          if i < n { assert sidecar[i] == sidecar[..n][i] && entries[i] == init[i]; }
        }
      }
    }
  }

  /** The approval each position hands on: only that of a ready item that was evaluated. */
  function Binding(e: Entry): Option<Approval> {
    if e.item.Ready? && e.outcome.Evaluated? then e.item.envelope.authority.approval else None
  }

  // ----- routing one item

  datatype Governed = Governed(conclusion: string, key: C.Key, constraint: string,
                               protections: seq<P.Candidate>, requiredScope: seq<string>,
                               requiredIdentifiers: seq<string>, inventory: Option<string>,
                               guidance: Option<Q.Guidance>, guidanceJurisdiction: string, guidanceVersion: int,
                               alternatives: seq<Q.Course>, justification: Option<string>, burdens: B.Entries)

  predicate ValidGoverned(g: Governed) {
    && !Blank(g.conclusion) && !Blank(g.constraint)
    && (forall c | c in g.protections :: P.ValidCandidate(c))
    && (forall o | o in g.alternatives :: Q.ValidAlternative(o))
    && (forall i, j | 0 <= i < j < |g.requiredIdentifiers| :: g.requiredIdentifiers[i] != g.requiredIdentifiers[j])
    && (g.requiredIdentifiers != [] ==> g.inventory.Some? && !Blank(g.inventory.value))
  }

  datatype RoutingOutcome =
    | UnavailableRoute(reference: string)
    | RejectedRoute(subject: string)
    | Final(result: T.FinalRoute)

  datatype RoutingError = NoGovernedInput | NoConflictAssessment | BadCounterfactual(c: Q.CounterfactualError)
                        | BadBurden(b: B.ComparisonError)

  /** The protective set of an item, derived from its own assertiveness and approval. */
  function ProtectionFor(e: Evaluation, g: Governed, binding: Option<Approval>, conflict: C.Assessment, at: Instant)
    : P.ProtectionSet
  {
    var a := P.AssertivenessOf(e, g.conclusion, g.constraint, conflict);
    P.Protect(g.protections, P.Setting(a, e.approval, binding, conflict, at, g.requiredScope), g.requiredIdentifiers,
              g.inventory)
  }

  /** The guidance given with the item is valid for it at that instant. */
  predicate Endorsed(g: Governed, at: Instant) {
    && g.guidance.Some? && Q.WellFormedGuidance(g.guidance.value)
    && g.guidance.value.jurisdiction == g.guidanceJurisdiction && g.guidance.value.version == g.guidanceVersion
    && g.guidance.value.validFrom.value <= at < g.guidance.value.validUntil.value
  }

  function QualityFor(e: Evaluation, g: Governed, binding: Option<Approval>, conflict: C.Assessment, at: Instant)
    : Q.QualityResult
  {
    Q.RecommendationQuality(ProtectionFor(e, g, binding, conflict, at), g.guidance,
                            Q.GuidanceExpectation(at, g.guidanceJurisdiction, g.guidanceVersion))
  }

  /** Only an evaluated sidecar reaches the routing. */
  function GateFor(s: Option<Sidecar>): Option<R.GateOutcome> {
    if s.Some? && s.value.EvaluatedSidecar? then Some(s.value.gate) else None
  }

  /** What the pipeline hands to the final routing, with the burden comparison left open. */
  ghost predicate Assembled(p: T.Parts, e: Evaluation, g: Governed, s: Option<Sidecar>, binding: Option<Approval>,
                            conflict: C.Assessment, at: Instant)
  {
    && p.evaluation == e && p.conflict == conflict && p.reconfiguration == GateFor(s)
    && p.assertiveness.conclusion == g.conclusion && p.assertiveness.conflict == conflict
    && p.assertiveness.uncertainty == e.uncertainty && (p.assertiveness.authorized <==> e.approval == Valid)
    && (!C.Blocks(conflict) ==> p.assertiveness.constraint == g.constraint)
    && p.assertiveness.nextRoute == (if C.Blocks(conflict) then P.Investigate else P.RouteFor(e.state))
    && p.quality == QualityFor(e, g, binding, conflict, at)
    && p.counterfactual.alternatives == g.alternatives
    && p.counterfactual.endorsement == (p.quality.outcome == Q.ValidGuidance)
    && p.counterfactual.completeAnswer == p.quality.completeAnswer && p.counterfactual.quality == p.quality
    && T.WellFormed(p.counterfactual)
    && B.Complete(g.burdens) && B.Describes(p.burden, g.burdens) && B.NoRepetition(g.burdens)
  }

  ghost predicate RoutedFrom(r: T.FinalRoute, p: T.Parts)
    requires forall kind: B.Alternative :: Q.HasKind(p.counterfactual.alternatives, kind)
  {
    && r.route == T.RouteOf(p) && r.conflict == p.conflict
    && r.recommended == (if r.route.None? then None else T.Choice(p.counterfactual, p.burden).0)
    && r.limits == T.WithContext([], p) + T.Choice(p.counterfactual, p.burden).1
    && r.revalidated == T.MoreConservative(r.route, p.assertiveness.nextRoute)
  }

  ghost predicate Routed(r: T.FinalRoute, e: Evaluation, g: Governed, s: Option<Sidecar>, binding: Option<Approval>,
                         conflict: C.Assessment, at: Instant)
  {
    exists p :: Assembled(p, e, g, s, binding, conflict, at) && RoutedFrom(r, p)
  }

  /** Why an evaluated item is not routed: the first of these in order. */
  ghost predicate FailsWith(outcome: Outcome, governed: Option<Governed>, error: RoutingError) {
    && outcome.Evaluated?
    && if governed.None? then error == NoGovernedInput
       else var g := governed.value;
            var kinds := forall kind: B.Alternative :: Q.HasKind(g.alternatives, kind);
            var justified := Q.OneKey(g.alternatives) || (g.justification.Some? && g.justification.value != "");
            || (!kinds && error == BadCounterfactual(Q.MissingAlternative))
            || (kinds && !justified && error == BadCounterfactual(Q.UnjustifiedAsymmetry))
            || (kinds && justified && !B.Complete(g.burdens) && error == BadBurden(B.MissingVector))
            || (kinds && justified && B.Complete(g.burdens) && !B.NoRepetition(g.burdens)
                && error == BadBurden(B.RepeatedVector))
  }

  method RouteItem(outcome: Outcome, governed: Option<Governed>, sidecar: Option<Sidecar>, binding: Option<Approval>,
                   conflict: Option<C.Assessment>, at: Instant) returns (r: Result<RoutingOutcome, RoutingError>)
    requires governed.Some? ==> ValidGoverned(governed.value)
    ensures outcome.Unavailable? ==> r == Ok(UnavailableRoute(outcome.reference))
    ensures outcome.CausallyRejected? ==> r == Ok(RejectedRoute(outcome.subject))
    ensures outcome.Evaluated? && governed.None? ==> r == Err(NoGovernedInput)
    ensures outcome.Evaluated? && governed.Some? ==> (r == Err(NoConflictAssessment) <==> conflict.None?)
    ensures outcome.Evaluated? && r.Ok? ==>
      && governed.Some? && conflict.Some? && r.value.Final?
      && Routed(r.value.result, outcome.evaluation, governed.value, sidecar, binding, conflict.value, at)
    ensures r.Ok? && r.value.Final? ==> outcome.Evaluated?
    ensures conflict.Some? || !outcome.Evaluated? || governed.None? ==>
      (forall error :: r == Err(error) <==> FailsWith(outcome, governed, error))
  {
    match outcome
    case Unavailable(reference) => return Ok(UnavailableRoute(reference));
    case CausallyRejected(subject, _) => return Ok(RejectedRoute(subject));
    case Evaluated(evaluation) =>
      if governed.None? { return Err(NoGovernedInput); }
      if conflict.None? { return Err(NoConflictAssessment); }
      r := RouteEvaluated(evaluation, governed.value, sidecar, binding, conflict.value, at);
  }

  method RouteEvaluated(e: Evaluation, g: Governed, sidecar: Option<Sidecar>, binding: Option<Approval>,
                        conflict: C.Assessment, at: Instant) returns (r: Result<RoutingOutcome, RoutingError>)
    requires ValidGoverned(g)
    ensures r.Ok? ==> r.value.Final? && Routed(r.value.result, e, g, sidecar, binding, conflict, at)
    ensures forall error :: r == Err(error) <==> FailsWith(Evaluated(e), Some(g), error)
  {
    hide P.AuthorityFailure;
    hide P.Classify;
    hide T.WithContext;
    hide T.Choice;
    hide B.Describes;
    var assertiveness := P.AssertivenessOf(e, g.conclusion, g.constraint, conflict);
    var protection := ProtectionFor(e, g, binding, conflict, at);
    var quality := QualityFor(e, g, binding, conflict, at);
    var counterfactual := Q.CounterfactualSet(g.alternatives, protection, quality, g.justification);
    if counterfactual.Err? { return Err(BadCounterfactual(counterfactual.error)); }
    var burden := B.Compare(g.burdens);
    if burden.Err? {
      assert burden.error == if B.Complete(g.burdens) then B.RepeatedVector else B.MissingVector;
      return Err(BadBurden(burden.error));
    }
    var p := T.Parts(e, GateFor(sidecar), assertiveness, quality, counterfactual.value, burden.value, conflict);
    var result := T.FinalRouting(p);
    assert Assembled(p, e, g, sidecar, binding, conflict, at);
    assert RoutedFrom(result, p);
    return Ok(Final(result));
  }

  // ----- routing a batch

  function Comparable(e: Entry, g: Option<Governed>): C.Entry {
    if e.outcome.Evaluated? && g.Some? then C.Comparable(C.Claim(e.outcome.evaluation, g.value.key, g.value.conclusion))
    else C.Preserved(e.outcome)
  }

  function Comparables(entries: seq<Entry>, governed: seq<Option<Governed>>): (r: seq<C.Entry>)
    requires |entries| == |governed|
    ensures |r| == |entries| && forall i | 0 <= i < |r| :: r[i] == Comparable(entries[i], governed[i])
  {
    seq(|entries|, i requires 0 <= i < |entries| => Comparable(entries[i], governed[i]))
  }

  /** The position carries an evaluated claim and its governed input. */
  predicate Claimed(entries: seq<Entry>, governed: seq<Option<Governed>>, i: nat)
    requires |entries| == |governed| && i < |entries|
  {
    entries[i].outcome.Evaluated? && governed[i].Some?
  }

  /** Some claim of the batch has the same key and another conclusion. */
  ghost predicate Contradicted(entries: seq<Entry>, governed: seq<Option<Governed>>, i: nat)
    requires |entries| == |governed| && i < |entries|
  {
    && Claimed(entries, governed, i)
    && exists j :: && 0 <= j < |entries| && Claimed(entries, governed, j)
                   && governed[j].value.key == governed[i].value.key
                   && governed[j].value.conclusion != governed[i].value.conclusion
  }

  /** What the assessment of a position must be, from the batch alone: there is one exactly for a
      claim; it is a real conflict exactly when contradicted and never a false one; it compares
      exactly the claims of the same key, and preserves exactly the outcomes without a claim. */
  ghost predicate AssessedFrom(entries: seq<Entry>, governed: seq<Option<Governed>>, i: nat, a: Option<C.Assessment>)
    requires |entries| == |governed| && i < |entries|
  {
    && (a.Some? <==> Claimed(entries, governed, i))
    && (a.Some? ==>
          && a.value.status == (if Contradicted(entries, governed, i) then C.RealConflict else C.NoConflict)
          && a.value.dimensions == {}
          && (forall x :: x in a.value.compared <==> SharesKey(entries, governed, i, x))
          && (forall o :: o in a.value.preserved <==> Unclaimed(entries, governed, o)))
  }

  ghost predicate SharesKey(entries: seq<Entry>, governed: seq<Option<Governed>>, i: nat, x: C.Claim)
    requires |entries| == |governed| && i < |entries| && Claimed(entries, governed, i)
  {
    exists j :: && 0 <= j < |entries| && Claimed(entries, governed, j)
                && governed[j].value.key == governed[i].value.key
                && x.evaluation == entries[j].outcome.evaluation
                && x.key == governed[j].value.key && x.conclusion == governed[j].value.conclusion
  }

  ghost predicate Unclaimed(entries: seq<Entry>, governed: seq<Option<Governed>>, o: Outcome)
    requires |entries| == |governed|
  {
    exists j :: 0 <= j < |entries| && !Claimed(entries, governed, j) && entries[j].outcome == o
  }

  /** Two claims of the batch differ in this dimension of their keys. */
  ghost predicate KeysDiffer(entries: seq<Entry>, governed: seq<Option<Governed>>, d: C.Dimension)
    requires |entries| == |governed|
  {
    exists i, j :: && 0 <= i < |entries| && 0 <= j < |entries|
                   && Claimed(entries, governed, i) && Claimed(entries, governed, j)
                   && C.Differ(governed[i].value.key, governed[j].value.key, d)
  }

  lemma ConflictFrom(entries: seq<Entry>, governed: seq<Option<Governed>>, i: nat, a: Option<C.Assessment>)
    requires |entries| == |governed| && i < |entries|
    requires C.Assessed(Comparables(entries, governed), i, a)
    ensures a.Some? <==> Claimed(entries, governed, i)
    ensures a.Some? ==>
      && a.value.status == (if Contradicted(entries, governed, i) then C.RealConflict else C.NoConflict)
      && a.value.dimensions == {}
  {
    hide C.Assessed;
    var all := Comparables(entries, governed);
    C.GroupedItem(all, i, a);
    assert forall j | 0 <= j < |entries| :: all[j].Comparable? <==> Claimed(entries, governed, j);
    assert forall j | 0 <= j < |entries| && Claimed(entries, governed, j) ::
        all[j].claim.key == governed[j].value.key && all[j].claim.conclusion == governed[j].value.conclusion;
  }

  lemma ComparedFrom(entries: seq<Entry>, governed: seq<Option<Governed>>, i: nat, a: C.Assessment, x: C.Claim)
    requires |entries| == |governed| && i < |entries| && Claimed(entries, governed, i)
    requires C.Assessed(Comparables(entries, governed), i, Some(a))
    ensures x in a.compared <==> SharesKey(entries, governed, i, x)
  {
    var all := Comparables(entries, governed);
    var key := governed[i].value.key;
    assert x in a.compared <==> x in C.AsSet(a.compared);
    if x in C.Peers(all, key) {
      var e :| e in all && e.Comparable? && e.claim.key == key && e.claim == x;
      var j :| 0 <= j < |all| && all[j] == e;
      assert Claimed(entries, governed, j);
    }
    if SharesKey(entries, governed, i, x) {
      var j :| && 0 <= j < |entries| && Claimed(entries, governed, j)
               && governed[j].value.key == key && x.evaluation == entries[j].outcome.evaluation
               && x.key == governed[j].value.key && x.conclusion == governed[j].value.conclusion;
      assert all[j] in all && all[j].claim == x;
    }
  }

  lemma PreservedFrom(entries: seq<Entry>, governed: seq<Option<Governed>>, o: Outcome)
    requires |entries| == |governed|
    ensures o in C.PreservedOf(Comparables(entries, governed)) <==> Unclaimed(entries, governed, o)
  {
    var all := Comparables(entries, governed);
    C.PreservedMembers(all, o);
    assert forall j | 0 <= j < |entries| :: all[j].Preserved? <==> !Claimed(entries, governed, j);
    assert forall j | 0 <= j < |entries| && !Claimed(entries, governed, j) :: all[j].outcome == entries[j].outcome;
  }

  lemma IsAssessedFrom(entries: seq<Entry>, governed: seq<Option<Governed>>, i: nat, a: Option<C.Assessment>)
    requires |entries| == |governed| && i < |entries|
    requires C.Assessed(Comparables(entries, governed), i, a)
    ensures AssessedFrom(entries, governed, i, a)
  {
    hide SharesKey, Unclaimed, Contradicted, Claimed;
    ConflictFrom(entries, governed, i, a);
    if a.Some? {
      forall x ensures x in a.value.compared <==> SharesKey(entries, governed, i, x) {
        ComparedFrom(entries, governed, i, a.value, x);
      }
      forall o ensures o in a.value.preserved <==> Unclaimed(entries, governed, o) {
        AssessedPreserves(entries, governed, i, a);
        PreservedFrom(entries, governed, o);
      }
    }
  }

  lemma AssessedPreserves(entries: seq<Entry>, governed: seq<Option<Governed>>, i: nat, a: Option<C.Assessment>)
    requires |entries| == |governed| && i < |entries| && a.Some?
    requires C.Assessed(Comparables(entries, governed), i, a)
    ensures a.value.preserved == C.PreservedOf(Comparables(entries, governed))
  {
  }

  lemma ClaimIsAt(entries: seq<Entry>, governed: seq<Option<Governed>>, key: C.Key)
    requires |entries| == |governed|
    ensures (exists a :: a in C.AllClaims(Comparables(entries, governed)) && a.key == key)
       <==> exists i :: 0 <= i < |entries| && Claimed(entries, governed, i) && governed[i].value.key == key
  {
    var all := Comparables(entries, governed);
    if a :| a in C.AllClaims(all) && a.key == key {
      var i :| 0 <= i < |all| && all[i].Comparable? && all[i].claim == a;
      assert Claimed(entries, governed, i);
    }
    if i :| 0 <= i < |entries| && Claimed(entries, governed, i) && governed[i].value.key == key {
      assert all[i] in all && all[i].claim in C.AllClaims(all);
    }
  }

  lemma DecomposedFrom(entries: seq<Entry>, governed: seq<Option<Governed>>, d: C.Dimension)
    requires |entries| == |governed|
    ensures d in C.AllPairs(C.AllClaims(Comparables(entries, governed))) <==> KeysDiffer(entries, governed, d)
  {
    hide C.Differ, Comparables, C.AllClaims;
    var claims := C.AllClaims(Comparables(entries, governed));
    if C.Diverge(claims, d) {
      var a, b :| a in claims && b in claims && C.Differ(a.key, b.key, d);
      ClaimIsAt(entries, governed, a.key);
      ClaimIsAt(entries, governed, b.key);
    }
    if KeysDiffer(entries, governed, d) {
      var i, j :| && 0 <= i < |entries| && 0 <= j < |entries|
                  && Claimed(entries, governed, i) && Claimed(entries, governed, j)
                  && C.Differ(governed[i].value.key, governed[j].value.key, d);
      ClaimIsAt(entries, governed, governed[i].value.key);
      ClaimIsAt(entries, governed, governed[j].value.key);
    }
  }

  /** What one position of the routed batch must be. */
  ghost predicate PositionRouted(r: RoutingOutcome, e: Entry, g: Option<Governed>, s: Sidecar,
                                 conflict: Option<C.Assessment>, at: Instant)
  {
    match e.outcome
    case Unavailable(reference) => r == UnavailableRoute(reference)
    case CausallyRejected(subject, _) => r == RejectedRoute(subject)
    case Evaluated(evaluation) =>
      && g.Some? && conflict.Some? && r.Final?
      && Routed(r.result, evaluation, g.value, Some(s), Binding(e), conflict.value, at)
  }

  ghost predicate FirstFailure(entries: seq<Entry>, governed: seq<Option<Governed>>, error: RoutingError)
    requires |entries| == |governed|
  {
    exists i | 0 <= i < |entries| ::
      FailsWith(entries[i].outcome, governed[i], error) && NoneFails(entries, governed, i)
  }

  ghost predicate NoneFails(entries: seq<Entry>, governed: seq<Option<Governed>>, n: nat)
    requires |entries| == |governed| && n <= |entries|
  {
    forall i, error | 0 <= i < n :: !FailsWith(entries[i].outcome, governed[i], error)
  }

  /** No route and no recommendation, and the claim goes back to be investigated. */
  predicate Withheld(r: RoutingOutcome) {
    r.Final? && r.result.route.None? && r.result.recommended.None? && r.result.revalidated == P.Investigate
  }

  lemma ConflictWithholds(r: T.FinalRoute, e: Evaluation, g: Governed, s: Option<Sidecar>, binding: Option<Approval>,
                          conflict: C.Assessment, at: Instant)
    requires Routed(r, e, g, s, binding, conflict, at) && C.Blocks(conflict)
    ensures Withheld(Final(r))
  {
    hide P.CompleteAnswer, T.WithContext, T.Choice, B.Describes;
    hide ProtectionFor;
    var p :| Assembled(p, e, g, s, binding, conflict, at) && RoutedFrom(r, p);
    T.RouteIff(p);
    T.MoreConservativeIff(r.route, p.assertiveness.nextRoute);
  }

  datatype BatchError = Misaligned | ItemFailed(error: RoutingError)

  /** One outcome per item, in order, each assessed against the items that share its key. An
      evaluated item with its governed input never lacks an assessment. */
  method RouteBatch(entries: seq<Entry>, sidecar: seq<Sidecar>, governed: seq<Option<Governed>>, at: Instant)
    returns (r: Result<seq<RoutingOutcome>, BatchError>, conflicts: seq<Option<C.Assessment>>,
             decomposed: set<C.Dimension>)
    requires |sidecar| == |entries|
    requires forall g | g in governed :: g.Some? ==> ValidGoverned(g.value)
    ensures r == Err(Misaligned) <==> |governed| != |entries|
    ensures |governed| == |entries| ==>
      && |conflicts| == |entries|
      && (forall i | 0 <= i < |entries| :: C.Assessed(Comparables(entries, governed), i, conflicts[i]))
      && (forall i | 0 <= i < |entries| :: AssessedFrom(entries, governed, i, conflicts[i]))
      && (forall d :: d in decomposed <==> KeysDiffer(entries, governed, d))
    ensures |governed| == |entries| ==>
      forall error :: r == Err(ItemFailed(error)) <==> FirstFailure(entries, governed, error)
    ensures r.Ok? ==>
      && |r.value| == |entries| == |conflicts|
      && forall i | 0 <= i < |entries| ::
           && PositionRouted(r.value[i], entries[i], governed[i], sidecar[i], conflicts[i], at)
           && (Contradicted(entries, governed, i) ==> Withheld(r.value[i]))
  {
    hide Routed, FailsWith, ValidGoverned, AssessedFrom, Contradicted, KeysDiffer;
    hide C.Assessed;
    if |governed| != |entries| { return Err(Misaligned), [], {}; }
    conflicts, decomposed := C.AssessBatch(Comparables(entries, governed));
    forall i | 0 <= i < |entries| ensures AssessedFrom(entries, governed, i, conflicts[i]) {
      IsAssessedFrom(entries, governed, i, conflicts[i]);
    }
    forall d ensures d in decomposed <==> KeysDiffer(entries, governed, d) { DecomposedFrom(entries, governed, d); }
    r := RouteInOrder(entries, sidecar, governed, conflicts, at);
    if r.Ok? {
      forall i | 0 <= i < |entries| && Contradicted(entries, governed, i) ensures Withheld(r.value[i]) {
        ContradictedIsWithheld(entries, governed, i, r.value[i], sidecar[i], conflicts[i], at);
      }
    }
  }

  lemma ContradictedIsWithheld(entries: seq<Entry>, governed: seq<Option<Governed>>, i: nat, r: RoutingOutcome,
                               s: Sidecar, conflict: Option<C.Assessment>, at: Instant)
    requires |entries| == |governed| && i < |entries| && Contradicted(entries, governed, i)
    requires AssessedFrom(entries, governed, i, conflict)
    requires PositionRouted(r, entries[i], governed[i], s, conflict, at)
    ensures Withheld(r)
  {
    hide Routed, SharesKey, Unclaimed;
    ConflictWithholds(r.result, entries[i].outcome.evaluation, governed[i].value, Some(s), Binding(entries[i]),
                      conflict.value, at);
  }

  method RouteInOrder(entries: seq<Entry>, sidecar: seq<Sidecar>, governed: seq<Option<Governed>>,
                      conflicts: seq<Option<C.Assessment>>, at: Instant)
    returns (r: Result<seq<RoutingOutcome>, BatchError>)
    requires |sidecar| == |governed| == |conflicts| == |entries|
    requires forall g | g in governed :: g.Some? ==> ValidGoverned(g.value)
    requires forall i | 0 <= i < |entries| :: AssessedFrom(entries, governed, i, conflicts[i])
    ensures r != Err(Misaligned)
    ensures forall error :: r == Err(ItemFailed(error)) <==> FirstFailure(entries, governed, error)
    ensures r.Ok? ==>
      && |r.value| == |entries|
      && forall i | 0 <= i < |entries| ::
           PositionRouted(r.value[i], entries[i], governed[i], sidecar[i], conflicts[i], at)
  {
    hide Routed, FailsWith, ValidGoverned, Contradicted, SharesKey, Unclaimed;
    var outcomes: seq<RoutingOutcome> := [];
    for i := 0 to |entries|
      invariant |outcomes| == i && NoneFails(entries, governed, i)
      invariant forall k | 0 <= k < i ::
                  PositionRouted(outcomes[k], entries[k], governed[k], sidecar[k], conflicts[k], at)
    {
      assert governed[i] in governed;
      var routed := RouteItem(entries[i].outcome, governed[i], Some(sidecar[i]), Binding(entries[i]), conflicts[i], at);
      if routed.Err? {
        assert FailsWith(entries[i].outcome, governed[i], routed.error);
        OneFailure(entries, governed, i, routed.error);
        return Err(ItemFailed(routed.error));
      }
      outcomes := outcomes + [routed.value];
    }
    return Ok(outcomes);
  }

  lemma OneFailure(entries: seq<Entry>, governed: seq<Option<Governed>>, i: nat, error: RoutingError)
    requires |entries| == |governed| && i < |entries| && NoneFails(entries, governed, i)
    requires FailsWith(entries[i].outcome, governed[i], error)
    ensures forall other :: FirstFailure(entries, governed, other) <==> other == error
  {
    forall other ensures FirstFailure(entries, governed, other) <==> other == error {
      if FirstFailure(entries, governed, other) {
        var j :| 0 <= j < |entries| && FailsWith(entries[j].outcome, governed[j], other)
                 && NoneFails(entries, governed, j);
        assert j == i;
      }
    }
  }

  // ----- end to end

  /** RECONFIGURE, seen from the log: the event of the item's own candidate was appended to a log
      that stays safe; the claim is PREDICTABLE with a positive lower bound in a shifting regime;
      its approval is valid and bound to that candidate at that version; the protection is complete
      and no real conflict stands. */
  lemma ReconfigureIsEarned(log: seq<Event>, entries: seq<Entry>, i: nat, r: RoutingOutcome, g: Option<Governed>,
                            conflict: Option<C.Assessment>, at: Instant)
    requires Safe(log) && ValidBatch(entries) && BatchResult(log, entries).Ok? && i < |entries|
    requires PositionRouted(r, entries[i], g, BatchResult(log, entries).value[i], conflict, at)
    requires r.Final? && r.result.route == Some(P.Reconfigure)
    ensures Safe(BatchLog(log, entries)) && log <= BatchLog(log, entries)
    ensures Earned(entries[i]) && OwnEvent(entries[i], BatchResult(log, entries).value[i]) == [EventOf(entries[i])]
    ensures EventOf(entries[i]) in BatchLog(log, entries)
    ensures conflict.Some? && !C.Blocks(conflict.value)
    ensures g.Some? && P.CompleteAnswer(ProtectionFor(entries[i].outcome.evaluation, g.value, Binding(entries[i]),
                                                      conflict.value, at))
  {
    hide Safe, Routed, ProtectionFor;
    hide P.CompleteAnswer;
    var sidecar := BatchResult(log, entries).value;
    BatchIsSafe(log, entries);
    ReconfigureNeeds(r.result, entries[i].outcome.evaluation, g.value, sidecar[i], Binding(entries[i]),
                     conflict.value, at);
    PromotedIsLogged(entries, sidecar, i);
  }

  /** What the sidecar of each position says: its reference or subject when there is no claim, that
      nothing applies when nothing was proposed, and otherwise what the promotion gate answered on the
      log as the earlier positions left it. */
  lemma {:induction false} EachSidecar(log: seq<Event>, entries: seq<Entry>, i: nat)
    requires ValidBatch(entries) && BatchResult(log, entries).Ok? && i < |entries|
    ensures var e, s, before := entries[i], BatchResult(log, entries).value[i], BatchLog(log, entries[..i]);
            && (e.outcome.Unavailable? ==> s == UnavailableSidecar(e.outcome.reference))
            && (e.outcome.CausallyRejected? ==> s == RejectedSidecar(e.outcome.subject))
            && (e.outcome.Evaluated? ==> s.EvaluatedSidecar?)
            && (e.outcome.Evaluated? && e.instruction.None? ==>
                  s.gate == R.GateOutcome(NotApplicable, None, e.outcome.evaluation.subject, None))
            && (e.outcome.Evaluated? && e.instruction.Some? ==>
                  && e.item.Ready?
                  && var n := e.instruction.value;
                     R.PromoteOutcome(before, e.outcome.evaluation, e.item.envelope.authority, n.candidate, n.id, n.at)
                       == Ok(s.gate))
    decreases |entries|
  {
    hide R.PromoteOutcome, R.PromoteLog;
    var n := |entries| - 1;
    assert entries[n] in entries && entries[i] in entries && ValidEntry(entries[i]);
    if i < n {
      EachSidecar(log, entries[..n], i);
      assert entries[..n][..i] == entries[..i];
    }
  }

  /** The candidate's version is still next and its id still new when its turn comes. */
  predicate OnItsTurn(log: seq<Event>, entries: seq<Entry>, i: nat)
    requires ValidBatch(entries) && i < |entries| && Proposes(entries[i])
  {
    var n, before := entries[i].instruction.value, BatchLog(log, entries[..i]);
    CurrentVersion(before, n.candidate.subject) == n.candidate.expectedVersion && Find(before, n.id).None?
  }

  lemma PromotedIff(log: seq<Event>, entries: seq<Entry>, i: nat)
    requires Safe(log) && ValidBatch(entries) && BatchResult(log, entries).Ok? && i < |entries|
    ensures Promoted(BatchResult(log, entries).value[i]) <==> Earned(entries[i]) && OnItsTurn(log, entries, i)
  {
    hide R.PromoteOutcome, R.PromoteLog, R.Promotable;
    hide Safe, BatchResult, BatchLog;
    EachSidecar(log, entries, i);
    if Proposes(entries[i]) {
      assert ValidEntry(entries[i]);
      assert forall e | e in entries[..i] :: e in entries;
      BatchIsSafe(log, entries[..i]);
      var n := entries[i].instruction.value;
      R.PromotionGate(BatchLog(log, entries[..i]), entries[i].outcome.evaluation, entries[i].item.envelope.authority,
                      n.candidate, n.id, n.at);
    }
  }

  /** A protective candidate is acceptable in a batch exactly when it claims an effect under an authority
      in force at that instant, within the valid approval of the very item, and covering the scope its
      governed input requires, with complete metadata and no real conflict. */
  predicate AcceptableHere(e: Entry, g: Governed, conflict: C.Assessment, at: Instant, c: P.Candidate) {
    && e.outcome.Evaluated? && e.item.Ready? && e.outcome.evaluation.approval == Valid
    && e.item.envelope.authority.approval.Some? && c.authority.Some?
    && P.Sustains(c.authority.value, e.item.envelope.authority.approval.value, at, g.requiredScope)
    && c.materialEffect && P.MetadataComplete(c) && !C.Blocks(conflict)
  }

  /** Two acceptable candidates, the first under this identifier, are incompatible. */
  ghost predicate ClashHere(e: Entry, g: Governed, conflict: C.Assessment, at: Instant, id: string) {
    exists a, b ::
      && a in g.protections && AcceptableHere(e, g, conflict, at, a)
      && b in g.protections && AcceptableHere(e, g, conflict, at, b)
      && a.identifier == id && (b.identifier in a.incompatibleWith || a.identifier in b.incompatibleWith)
  }

  /** The protection of a position is complete exactly when something was assessed, every candidate
      that claims an effect is acceptable, none clashes, and every required front has a candidate. */
  lemma ProtectionMeans(e: Entry, g: Governed, conflict: C.Assessment, at: Instant)
    requires e.outcome.Evaluated? && ValidEntry(e) && ValidGoverned(g)
    ensures P.CompleteAnswer(ProtectionFor(e.outcome.evaluation, g, Binding(e), conflict, at))
       <==> && (g.protections != [] || g.requiredIdentifiers != [])
            && (forall id | id in g.requiredIdentifiers :: exists c :: c in g.protections && c.identifier == id)
            && (forall c | c in g.protections :: c.materialEffect ==> AcceptableHere(e, g, conflict, at, c))
            && (forall c | c in g.protections :: !ClashHere(e, g, conflict, at, c.identifier))
  {
    var a := P.AssertivenessOf(e.outcome.evaluation, g.conclusion, g.constraint, conflict);
    var s := P.Setting(a, e.outcome.evaluation.approval, Binding(e), conflict, at, g.requiredScope);
    hide P.CompleteAnswer, P.Finals, P.Missing, P.MetadataComplete, P.Sustains, P.AuthorityFailure;
    hide Blank;
    P.CompleteIff(g.protections, s, g.requiredIdentifiers, g.inventory);
    P.CoverageIff(g.protections, s, g.requiredIdentifiers, g.inventory, 0);
    forall c ensures P.Acceptable(c, s) <==> AcceptableHere(e, g, conflict, at, c) {
      P.SustainedAuthority(c.authority, s.approval, s.binding, at, g.requiredScope);
    }
    hide P.Acceptable, AcceptableHere;
    forall id ensures P.Clash(g.protections, s, id) <==> ClashHere(e, g, conflict, at, id) { }
  }

  /** RECONFIGURE, exactly: a position of the batch is routed to it when its candidate was earned, its
      turn found the version still next and the id still new, no real conflict stands and the protection
      is complete; nothing else is needed and nothing less will do. */
  lemma ReconfigureIff(log: seq<Event>, entries: seq<Entry>, i: nat, r: RoutingOutcome, g: Option<Governed>,
                       conflict: Option<C.Assessment>, at: Instant)
    requires Safe(log) && ValidBatch(entries) && BatchResult(log, entries).Ok? && i < |entries|
    requires PositionRouted(r, entries[i], g, BatchResult(log, entries).value[i], conflict, at) && r.Final?
    ensures r.result.route == Some(P.Reconfigure)
       <==> && Earned(entries[i]) && OnItsTurn(log, entries, i) && !C.Blocks(conflict.value)
            && P.CompleteAnswer(ProtectionFor(entries[i].outcome.evaluation, g.value, Binding(entries[i]),
                                              conflict.value, at))
  {
    hide Safe, Routed, ProtectionFor, BatchResult, BatchLog;
    hide P.CompleteAnswer;
    PromotedIff(log, entries, i);
    RoutedMeans(r.result, entries[i].outcome.evaluation, g.value, Some(BatchResult(log, entries).value[i]),
                Binding(entries[i]), conflict.value, at);
  }

  /** What a final route says, from the claim, the sidecar, the approval and the assessment: which of
      the four routes it is or none, what goes back to be revalidated, and each context limit. */
  lemma RoutedMeans(r: T.FinalRoute, e: Evaluation, g: Governed, s: Option<Sidecar>, binding: Option<Approval>,
                    conflict: C.Assessment, at: Instant)
    requires Routed(r, e, g, s, binding, conflict, at)
    ensures var blocked, complete := C.Blocks(conflict), P.CompleteAnswer(ProtectionFor(e, g, binding, conflict, at));
            var backed := e.approval == Valid && complete;
            var promoted := s.Some? && Promoted(s.value);
            && r.conflict == conflict
            && (r.route == Some(P.Reconfigure) <==> !blocked && promoted && backed)
            && (r.route == Some(P.Predict) <==> !blocked && !(promoted && backed) && e.state == E.Predictable)
            && (r.route == Some(P.Investigate) <==> !blocked && !(promoted && backed) && e.state == E.Unresolved)
            && (r.route == Some(P.Robust) <==>
                  !blocked && !promoted && backed && e.state == E.PredictivelyInaccessible)
            && (r.route.None? <==> blocked || (e.state == E.PredictivelyInaccessible && !backed))
    ensures r.revalidated == P.Investigate <==> C.Blocks(conflict) || e.state == E.Unresolved
    ensures T.RealConflict in r.limits <==> C.Blocks(conflict)
    ensures T.NotApproved(e.approval) in r.limits <==> e.approval != Valid
  {
    hide P.CompleteAnswer, T.WithContext, T.Choice, B.Describes;
    hide ProtectionFor, T.StagedBelow;
    hide B.TouchesVulnerable;
    var p :| Assembled(p, e, g, s, binding, conflict, at) && RoutedFrom(r, p);
    T.RouteIff(p);
    T.MoreConservativeIff(r.route, p.assertiveness.nextRoute);
    T.ContextIff(p, T.RealConflict);
    T.ContextIff(p, T.NotApproved(e.approval));
    T.ChoiceIsNoContext(p.counterfactual, p.burden);
  }

  /** RECONFIGURE, seen from the data: what a promoted position certifies about the claim rests on
      a regime that passed both tests and on real signal in the blind block, for every seed. */
  lemma EarnedHasSignal(e: Entry, logs: Estimator.Logs, rng: E.Randomness)
    requires ValidEntry(e) && Earned(e)
    requires E.ValidRandomness(e.item.context.evidence, rng) && EvaluateItem(e.item, logs, rng) == Ok(e.outcome)
    ensures e.item.context.regime.distance > e.item.context.regime.theta && e.item.context.regime.beatsFluctuation
    ensures Signal(e.item.context.evidence, logs)
    ensures e.outcome.evaluation.evidence.aMinus > 0.0
  {
    hide EvaluateItem, Signal;
    hide E.ValidRandomness;
    EvaluatedClaim(e.item, logs, rng);
  }

  lemma ReconfigureNeeds(r: T.FinalRoute, e: Evaluation, g: Governed, s: Sidecar, binding: Option<Approval>,
                         conflict: C.Assessment, at: Instant)
    requires Routed(r, e, g, Some(s), binding, conflict, at) && r.route == Some(P.Reconfigure)
    ensures Promoted(s) && !C.Blocks(conflict) && e.approval == Valid
    ensures P.CompleteAnswer(ProtectionFor(e, g, binding, conflict, at))
  {
    hide P.CompleteAnswer;
    hide ProtectionFor;
    var p :| Assembled(p, e, g, Some(s), binding, conflict, at) && RoutedFrom(r, p);
    T.RouteIff(p);
  }

  lemma {:induction false} PromotedIsLogged(entries: seq<Entry>, sidecar: seq<Sidecar>, i: nat)
    requires |entries| == |sidecar| && i < |entries|
    requires Promoted(sidecar[i]) && Earned(entries[i])
    ensures EventOf(entries[i]) in PromotedEvents(entries, sidecar)
  {
    var n := |entries| - 1;
    if i < n { PromotedIsLogged(entries[..n], sidecar[..n], i); }
  }

  /** Whatever is recommended inside a batch is the least burdensome alternative of its item, backed
      by valid guidance and complete protection; the incommensurable limit never appears, and an
      abstention is always explained. */
  lemma BatchRecommendation(entries: seq<Entry>, governed: seq<Option<Governed>>, i: nat, r: RoutingOutcome, s: Sidecar,
                            conflict: Option<C.Assessment>, at: Instant, m: B.Alternative)
    requires |governed| == |entries| && i < |entries| && r.Final?
    requires PositionRouted(r, entries[i], governed[i], s, conflict, at)
    requires C.Assessed(Comparables(entries, governed), i, conflict)
    ensures governed[i].Some? && B.Complete(governed[i].value.burdens)
    ensures r.result.recommended == Some(m) ==>
      && (forall other: B.Alternative | other != m ::
            B.Dominates(B.V(governed[i].value.burdens, other), B.V(governed[i].value.burdens, m)))
      && Endorsed(governed[i].value, at)
      && P.CompleteAnswer(ProtectionFor(entries[i].outcome.evaluation, governed[i].value, Binding(entries[i]),
                                        conflict.value, at))
    ensures r.result.route.None? ==> r.result.limits != []
    ensures r.result.conflict.dimensions == {}
  {
    C.GroupedItem(Comparables(entries, governed), i, conflict);
    RecommendationMeans(r.result, entries[i].outcome.evaluation, governed[i].value, Some(s), Binding(entries[i]),
                        conflict.value, at, m);
  }

  lemma RecommendationMeans(r: T.FinalRoute, e: Evaluation, g: Governed, s: Option<Sidecar>, binding: Option<Approval>,
                            conflict: C.Assessment, at: Instant, m: B.Alternative)
    requires Routed(r, e, g, s, binding, conflict, at)
    ensures B.Complete(g.burdens) && r.conflict == conflict
    ensures r.recommended == Some(m) ==>
      && (forall other: B.Alternative | other != m :: B.Dominates(B.V(g.burdens, other), B.V(g.burdens, m)))
      && Endorsed(g, at)
      && P.CompleteAnswer(ProtectionFor(e, g, binding, conflict, at))
    ensures r.route.None? ==> r.limits != []
  {
    hide P.CompleteAnswer;
    hide ProtectionFor;
    hide B.Dominates;
    hide Q.ValidateGuidance, Q.WellFormedGuidance;
    Q.GuidanceValidIff(g.guidance, Q.GuidanceExpectation(at, g.guidanceJurisdiction, g.guidanceVersion), at);
    var p :| Assembled(p, e, g, s, binding, conflict, at) && RoutedFrom(r, p);
    assert p.burden.entries == g.burdens;
    T.RecommendedIsLeast(p.counterfactual, p.burden, m);
    T.AbstentionIsExplained(p);
  }
}
