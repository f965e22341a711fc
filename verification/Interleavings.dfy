/** Any number of clients run the two gates at once, each inside its own database transaction.
    A gate reads, and later appends; between the two every other client may act. Appended
    events stay private until their transaction commits, and an insert waits while another
    transaction holds one of its keys. */
module Interleavings {
  import opened Results
  import opened Canonical
  import opened Authority
  import opened EventLog
  import opened Reconfiguration
  import Claims

  type Client = nat

  /** Where a gate stopped: after reading the rollback target, or with its event ready. */
  datatype Pending =
    | Fetched(request: RollbackRequest, authority: AuthorityContext, target: Option<Event>)
    | Drafted(event: Event)

  datatype Session = Session(own: seq<Event>, pending: Option<Pending>)

  datatype World = World(committed: seq<Event>, sessions: map<Client, Session>)

  datatype Step =
    | StartPromotion(client: Client, evaluation: Claims.Evaluation, authority: AuthorityContext, candidate: Candidate,
                     id: Id, at: Instant)
    | FetchTarget(client: Client, request: RollbackRequest, authority: AuthorityContext)
    | CheckRollback(client: Client)
    | Append(client: Client)
    | Commit(client: Client)
    | Abort(client: Client)

  const FRESH := Session([], None)

  function SessionOf(w: World, c: Client): Session { if c in w.sessions then w.sessions[c] else FRESH }

  function Visible(w: World, c: Client): seq<Event> { w.committed + SessionOf(w, c).own }

  function With(w: World, c: Client, s: Session): World { w.(sessions := w.sessions[c := s]) }

  function SetPending(w: World, c: Client, p: Option<Pending>): World { With(w, c, SessionOf(w, c).(pending := p)) }

  predicate Clashes(x: Event, e: Event) { x.id == e.id || SameVersion(x, e) }

  /** Another open transaction holds a key of the event. */
  predicate Waits(w: World, c: Client, e: Event) {
    exists d | d in w.sessions :: d != c && exists x | x in w.sessions[d].own :: Clashes(x, e)
  }

  /** After its checks a gate reads the current version and drafts the event, or gives up. */
  function Draft(log: seq<Event>, e: Event): Option<Pending> {
    if CurrentVersion(log, e.subject) == e.fromVersion then Some(Drafted(e)) else None
  }

  function Next(w: World, step: Step): World {
    match step
    case StartPromotion(c, evaluation, authority, candidate, id, at) =>
      var verdict := PromotionVerdict(evaluation, authority, candidate);
      SetPending(w, c, if verdict.Ok? && verdict.value.Proceed?
                       then Draft(Visible(w, c), PromotionEvent(candidate, verdict.value.approval, id, at))
                       else None)
    case FetchTarget(c, request, authority) =>
      SetPending(w, c, Some(Fetched(request, authority, Find(Visible(w, c), request.rollbackOf))))
    case CheckRollback(c) =>
      (match SessionOf(w, c).pending
       case Some(Fetched(request, authority, target)) =>
         var verdict := RollbackVerdict(request, authority, target);
         SetPending(w, c, if verdict.Ok? && verdict.value.Proceed?
                          then Draft(Visible(w, c), RollbackEvent(request, verdict.value.approval, target.value))
                          else None)
       case _ => w)
    case Append(c) =>
      (match SessionOf(w, c).pending
       case Some(Drafted(e)) =>
         if Find(Visible(w, c), e.id).None? && Waits(w, c, e) then w else
         var own := SessionOf(w, c).own;
         With(w, c, Session(if LogAfter(Visible(w, c), e) == Visible(w, c) then own else own + [e], None))
       case _ => w)
    case Commit(c) => World(Visible(w, c), w.sessions[c := FRESH])
    case Abort(c) => With(w, c, FRESH)
  }

  predicate ValidStep(step: Step) {
    match step
    case StartPromotion(_, _, authority, candidate, _, _) => ValidCandidate(candidate) && ValidAuthority(authority)
    case FetchTarget(_, _, authority) => ValidAuthority(authority)
    case _ => true
  }

  predicate ValidRun(steps: seq<Step>) { forall s | s in steps :: ValidStep(s) }

  function Run(steps: seq<Step>): World {
    if steps == [] then World([], map[]) else Next(Run(steps[..|steps| - 1]), steps[|steps| - 1])
  }

  // ----- two blocks of events on one committed log

  lemma {:induction false} FindConcat(a: seq<Event>, b: seq<Event>, id: Id)
    ensures Find(a + b, id) == if Find(b, id).Some? then Find(b, id) else Find(a, id)
  {
    if b == [] {
      assert a + b == a;
    } else {
      assert (a + b)[..|a + b| - 1] == a + b[..|b| - 1];
      FindConcat(a, b[..|b| - 1], id);
    }
  }

  lemma {:induction false} VersionsConcat(a: seq<Event>, b: seq<Event>, subject: string)
    ensures Versions(a + b, subject) == Versions(a, subject) + Versions(b, subject)
  {
    if b == [] {
      assert a + b == a;
    } else {
      assert (a + b)[..|a + b| - 1] == a + b[..|b| - 1];
      VersionsConcat(a, b[..|b| - 1], subject);
    }
  }

  /** No id and no subject in common. */
  ghost predicate Apart(a: seq<Event>, b: seq<Event>) {
    forall x, y | x in a && y in b :: x.id != y.id && x.subject != y.subject
  }

  lemma {:induction false} NoneOf(a: seq<Event>, subject: string)
    requires forall x | x in a :: x.subject != subject
    ensures Versions(a, subject) == 0
  {
    if a != [] { NoneOf(a[..|a| - 1], subject); }
  }

  lemma NewBlockIds(committed: seq<Event>, a: seq<Event>, id: Id)
    requires Safe(committed + a) && Find(a, id).Some?
    ensures Find(committed, id).None?
  {
    hide Safe;
    if Find(committed, id).Some? {
      var i :| 0 <= i < |committed| && committed[i] == Find(committed, id).value;
      var j :| 0 <= j < |a| && a[j] == Find(a, id).value;
      LaterIsGreater(committed + a, i, |committed| + j);
    }
  }

  /** What a reader of `committed + b` knows survives when block a commits in between. */
  lemma InsertionKeeps(committed: seq<Event>, a: seq<Event>, b: seq<Event>, id: Id, subject: string)
    requires Safe(committed + a) && Apart(a, b)
    ensures Find(committed + b, id).Some? ==> Find(committed + a + b, id) == Find(committed + b, id)
    ensures Versions(committed + a + b, subject) >= Versions(committed + b, subject)
  {
    FindConcat(committed, b, id);
    FindConcat(committed + a, b, id);
    FindConcat(committed, a, id);
    if Find(a, id).Some? { NewBlockIds(committed, a, id); }
    VersionsConcat(committed, b, subject);
    VersionsConcat(committed + a, b, subject);
    VersionsConcat(committed, a, subject);
  }

  lemma ProposalSurvives(committed: seq<Event>, a: seq<Event>, b: seq<Event>, e: Event)
    requires Safe(committed + a) && Apart(a, b) && Proposed(committed + b, e)
    ensures Proposed(committed + a + b, e)
  {
    InsertionKeeps(committed, a, b, e.id, e.subject);
    if e.rollbackOf.Some? { InsertionKeeps(committed, a, b, e.rollbackOf.value, e.subject); }
  }

  lemma ExtensionSurvives(committed: seq<Event>, a: seq<Event>, b: seq<Event>, e: Event)
    requires Safe(committed + a) && Apart(a, b + [e]) && Extends(committed + b, e)
    ensures Extends(committed + a + b, e)
  {
    hide WellBound, Safe;
    assert e in b + [e];
    forall x, y | x in a && y in b ensures x.id != y.id && x.subject != y.subject { assert y in b + [e]; }
    ProposalSurvives(committed, a, b, e);
    FindConcat(committed, b, e.id);
    FindConcat(committed + a, b, e.id);
    FindConcat(committed, a, e.id);
    VersionsConcat(committed, b, e.subject);
    VersionsConcat(committed + a, b, e.subject);
    VersionsConcat(committed, a, e.subject);
    NoneOf(a, e.subject);
  }

  /** Two private blocks that are safe on the same committed log, and apart, are safe one after
      the other. */
  lemma {:induction false} BlocksCompose(committed: seq<Event>, a: seq<Event>, b: seq<Event>)
    requires Safe(committed + a) && Safe(committed + b) && Apart(a, b)
    ensures Safe(committed + a + b)
  {
    hide Extends;
    if b == [] {
      assert committed + a + b == committed + a;
    } else {
      var init, last := b[..|b| - 1], b[|b| - 1];
      assert b == init + [last];
      assert (committed + b)[..|committed + b| - 1] == committed + init;
      forall x, y | x in a && y in init ensures x.id != y.id && x.subject != y.subject { assert y in b; }
      BlocksCompose(committed, a, init);
      ExtensionSurvives(committed, a, init, last);
      SafeSnoc(committed + a + init, last);
      assert committed + a + init + [last] == committed + a + b;
    }
  }

  /** A private block that touches a subject holds the subject's next version. */
  lemma {:induction false} FirstOfSubject(committed: seq<Event>, b: seq<Event>, subject: string)
    requires Safe(committed + b) && Versions(b, subject) > 0
    ensures exists x :: x in b && x.subject == subject && x.toVersion == Versions(committed, subject) + 1
  {
    hide WellBound, Reactivates;
    var init, last := b[..|b| - 1], b[|b| - 1];
    assert b == init + [last];
    assert (committed + b)[..|committed + b| - 1] == committed + init;
    if Versions(init, subject) > 0 {
      FirstOfSubject(committed, init, subject);
      var x :| x in init && x.subject == subject && x.toVersion == Versions(committed, subject) + 1;
      assert x in b;
    } else {
      VersionsConcat(committed, init, subject);
      assert last in b;
    }
  }

  // ----- the invariant

  ghost predicate PendingOk(log: seq<Event>, p: Option<Pending>) {
    match p
    case None => true
    case Some(Drafted(e)) => Proposed(log, e)
    case Some(Fetched(request, authority, target)) =>
      && ValidAuthority(authority)
      && (target.Some? ==> WellBound(target.value) && Find(log, target.value.id) == target)
  }

  ghost predicate SessionOk(committed: seq<Event>, s: Session) {
    Safe(committed + s.own) && PendingOk(committed + s.own, s.pending)
  }

  ghost predicate Consistent(w: World) {
    && Safe(w.committed)
    && (forall c | c in w.sessions :: SessionOk(w.committed, w.sessions[c]))
    && (forall c, d | c in w.sessions && d in w.sessions && c != d :: Apart(w.sessions[c].own, w.sessions[d].own))
  }

  lemma SessionIsOk(w: World, c: Client)
    requires Consistent(w)
    ensures SessionOk(w.committed, SessionOf(w, c))
    ensures forall d | d in w.sessions && d != c :: Apart(SessionOf(w, c).own, w.sessions[d].own)
  {
    assert w.committed + [] == w.committed;
  }

  lemma WithKeepsOk(w: World, c: Client, s: Session)
    requires Consistent(w) && SessionOk(w.committed, s)
    requires forall d | d in w.sessions && d != c :: Apart(s.own, w.sessions[d].own)
    ensures Consistent(With(w, c, s))
  {
    hide SessionOk, Safe;
    var w' := With(w, c, s);
    forall x, y | x in w'.sessions && y in w'.sessions && x != y ensures Apart(w'.sessions[x].own, w'.sessions[y].own) {
      if y == c { assert Apart(s.own, w.sessions[x].own); }
    }
  }

  lemma PendingKeepsOk(w: World, c: Client, p: Option<Pending>)
    requires Consistent(w) && PendingOk(Visible(w, c), p)
    ensures Consistent(SetPending(w, c, p))
  {
    SessionIsOk(w, c);
    WithKeepsOk(w, c, SessionOf(w, c).(pending := p));
  }

  lemma StartKeepsOk(w: World, step: Step)
    requires Consistent(w) && ValidStep(step) && step.StartPromotion?
    ensures Consistent(Next(w, step))
  {
    var c := step.client;
    SessionIsOk(w, c);
    var verdict := PromotionVerdict(step.evaluation, step.authority, step.candidate);
    if verdict.Ok? && verdict.value.Proceed? {
      PromotionIsWellBound(step.candidate, verdict.value.approval, step.id, step.at);
      CurrentIsCount(Visible(w, c), step.candidate.subject);
      PendingKeepsOk(w, c, Draft(Visible(w, c),
                                 PromotionEvent(step.candidate, verdict.value.approval, step.id, step.at)));
    } else {
      PendingKeepsOk(w, c, None);
    }
  }

  lemma FetchKeepsOk(w: World, step: Step)
    requires Consistent(w) && ValidStep(step) && step.FetchTarget?
    ensures Consistent(Next(w, step))
  {
    var c := step.client;
    SessionIsOk(w, c);
    var target := Find(Visible(w, c), step.request.rollbackOf);
    if target.Some? { StoredIsWellBound(Visible(w, c), step.request.rollbackOf); }
    PendingKeepsOk(w, c, Some(Fetched(step.request, step.authority, target)));
  }

  lemma CheckKeepsOk(w: World, c: Client)
    requires Consistent(w)
    ensures Consistent(Next(w, CheckRollback(c)))
  {
    hide Safe, WellBound, Apart;
    SessionIsOk(w, c);
    match SessionOf(w, c).pending
    case Some(Fetched(request, authority, target)) =>
      var verdict := RollbackVerdict(request, authority, target);
      if verdict.Ok? && verdict.value.Proceed? {
        RollbackIsWellBound(request, verdict.value.approval, target.value);
        CurrentIsCount(Visible(w, c), request.subject);
        PendingKeepsOk(w, c, Draft(Visible(w, c), RollbackEvent(request, verdict.value.approval, target.value)));
      } else {
        PendingKeepsOk(w, c, None);
      }
    case _ =>
  }

  lemma AppendKeepsOk(w: World, c: Client)
    requires Consistent(w)
    ensures Consistent(Next(w, Append(c)))
  {
    hide Safe, WellBound, RowAccepted, Apart, AppendResult;
    SessionIsOk(w, c);
    match SessionOf(w, c).pending
    case Some(Drafted(e)) =>
      var log, own := Visible(w, c), SessionOf(w, c).own;
      if !(Find(log, e.id).None? && Waits(w, c, e)) {
        AppendIsSafe(log, e);
        if LogAfter(log, e) == log {
          WithKeepsOk(w, c, Session(own, None));
        } else {
          assert w.committed + (own + [e]) == log + [e];
          forall d | d in w.sessions && d != c ensures Apart(own + [e], w.sessions[d].own) {
            NoWaitNoClash(w, c, d, e);
          }
          WithKeepsOk(w, c, Session(own + [e], None));
        }
      }
    case _ =>
  }

  lemma NoWaitNoClash(w: World, c: Client, d: Client, e: Event)
    requires Consistent(w) && d in w.sessions && d != c
    requires !Waits(w, c, e) && e.toVersion == Versions(Visible(w, c), e.subject) + 1
    ensures Apart(SessionOf(w, c).own + [e], w.sessions[d].own)
  {
    hide Safe, PendingOk, WellBound;
    var own, theirs := SessionOf(w, c).own, w.sessions[d].own;
    SessionIsOk(w, c);
    assert Apart(own, theirs);
    forall y | y in theirs ensures y.id != e.id && y.subject != e.subject {
      assert !Clashes(y, e);
      if y.subject == e.subject {
        NoneOf(own, e.subject);
        VersionsConcat(w.committed, own, e.subject);
        Occurs(theirs, y);
        FirstOfSubject(w.committed, theirs, e.subject);
      }
    }
  }

  lemma {:induction false} Occurs(b: seq<Event>, y: Event)
    requires y in b
    ensures Versions(b, y.subject) > 0
  {
    assert b == b[..|b| - 1] + [b[|b| - 1]];
    if y in b[..|b| - 1] { Occurs(b[..|b| - 1], y); }
  }

  lemma CommitKeepsOk(w: World, c: Client)
    requires Consistent(w)
    ensures Consistent(Next(w, Commit(c)))
  {
    hide Safe, Waits;
    var w' := Next(w, Commit(c));
    SessionIsOk(w, c);
    assert Visible(w, c) + [] == Visible(w, c);
    forall d | d in w'.sessions && d != c ensures SessionOk(w'.committed, w'.sessions[d]) {
      BlocksCompose(w.committed, SessionOf(w, c).own, w.sessions[d].own);
      PendingSurvives(w.committed, SessionOf(w, c).own, w.sessions[d].own, w.sessions[d].pending);
    }
  }

  lemma PendingSurvives(committed: seq<Event>, a: seq<Event>, b: seq<Event>, p: Option<Pending>)
    requires Safe(committed + a) && Apart(a, b) && PendingOk(committed + b, p)
    ensures PendingOk(committed + a + b, p)
  {
    match p
    case None =>
    case Some(Drafted(e)) => ProposalSurvives(committed, a, b, e);
    case Some(Fetched(request, authority, target)) =>
      if target.Some? { InsertionKeeps(committed, a, b, target.value.id, request.subject); }
  }

  lemma NextKeepsOk(w: World, step: Step)
    requires Consistent(w) && ValidStep(step)
    ensures Consistent(Next(w, step))
  {
    match step
    case StartPromotion(_, _, _, _, _, _) => StartKeepsOk(w, step);
    case FetchTarget(_, _, _) => FetchKeepsOk(w, step);
    case CheckRollback(c) => CheckKeepsOk(w, c);
    case Append(c) => AppendKeepsOk(w, c);
    case Commit(c) => CommitKeepsOk(w, c);
    case Abort(c) =>
      assert w.committed + [] == w.committed;
      WithKeepsOk(w, c, FRESH);
  }

  lemma {:induction false} RunIsOk(steps: seq<Step>)
    requires ValidRun(steps)
    ensures Consistent(Run(steps))
  {
    if steps != [] {
      RunIsOk(steps[..|steps| - 1]);
      assert steps[|steps| - 1] in steps;
      NextKeepsOk(Run(steps[..|steps| - 1]), steps[|steps| - 1]);
    }
  }

  // ----- what holds over every run

  /** After any interleaving of promotions, rollbacks, commits and aborts: the versions of a
      subject are exactly 1..n, the current one is n, every event carries the approval of its
      own version and candidate, and no approval version is spent twice on a subject. */
  lemma EveryRunIsSafe(steps: seq<Step>, subject: string, v: int, a: Event, b: Event)
    requires ValidRun(steps)
    ensures var log := Run(steps).committed;
            && Safe(log)
            && ((exists e :: e in log && e.subject == subject && e.toVersion == v)
                  <==> 1 <= v <= Versions(log, subject))
            && CurrentVersion(log, subject) == Versions(log, subject)
            && (a in log ==> a.stamp.version == a.toVersion && a.stamp.boundRef == a.payload.candidateRef)
            && (a in log && b in log && a.subject == b.subject && a.stamp.version == b.stamp.version ==> a == b)
  {
    var log := Run(steps).committed;
    RunIsOk(steps);
    VersionsAreOneToN(log, subject, v);
    CurrentIsCount(log, subject);
    if a in log {
      var i :| 0 <= i < |log| && log[i] == a;
      SafeAt(log, i);
      if b in log && a.subject == b.subject && a.stamp.version == b.stamp.version { ApprovalSpentOnce(log, a, b); }
    }
  }

  lemma CommittedGrows(w: World, step: Step)
    ensures w.committed <= Next(w, step).committed
  {
    hide PromotionVerdict, RollbackVerdict, Draft, AppendResult, Waits;
  }

  /** A committed event never changes and never leaves: the committed log only grows. */
  lemma {:induction false} HistoryIsImmutable(steps: seq<Step>, k: nat)
    requires k <= |steps|
    ensures Run(steps[..k]).committed <= Run(steps).committed
    decreases |steps|
  {
    hide Next;
    if k == |steps| {
      assert steps[..k] == steps;
    } else {
      var init := steps[..|steps| - 1];
      HistoryIsImmutable(init, k);
      assert init[..k] == steps[..k];
      CommittedGrows(Run(init), steps[|steps| - 1]);
    }
  }

  /** Every committed rollback descends, through strictly lower versions of its own subject and
      payload, from a promotion. */
  lemma EveryRollbackDescends(steps: seq<Step>, k: nat) returns (chain: seq<nat>)
    requires ValidRun(steps) && k < |Run(steps).committed|
    ensures chain != [] && chain[0] == k && Ancestry(Run(steps).committed, chain, Run(steps).committed[k])
  {
    RunIsOk(steps);
    chain := AncestryOf(Run(steps).committed, k, Run(steps).committed[k]);
  }

  /** Whatever happened since the read, the append of a drafted event violates no constraint; it
      is committed to the transaction exactly when its id is new and its version is still next,
      replayed exactly when another client already stored that very event, and otherwise lost
      or refused without touching the log. */
  lemma EveryAppendIsDecided(steps: seq<Step>, c: Client, e: Event)
    requires ValidRun(steps) && SessionOf(Run(steps), c).pending == Some(Drafted(e))
    ensures var log := Visible(Run(steps), c);
            var r := AppendResult(log, e);
            && r != Err(ConstraintViolation)
            && (r == Ok(Appended(Promoted, Some(e))) <==>
                  Find(log, e.id).None? && e.toVersion == Versions(log, e.subject) + 1)
            && (r == Ok(Appended(Replayed, Some(e))) <==> e in log)
            && (r.Ok? && r.value.decision == LostConcurrentRace <==>
                  Find(log, e.id).None? && e.toVersion <= Versions(log, e.subject))
            && (r.Ok? && r.value.decision == LostConcurrentRace ==>
                  && r.value.event.Some? && r.value.event.value in log && r.value.event.value.subject == e.subject
                  && r.value.event.value.toVersion == Versions(log, e.subject))
            && (r == Err(IdentityMismatch) <==> Find(log, e.id).Some? && e !in log)
  {
    hide Safe, RowAccepted, Reactivates;
    var w := Run(steps);
    var log := Visible(w, c);
    RunIsOk(steps);
    SessionIsOk(w, c);
    AppendIsSafe(log, e);
    if e in log { FindExact(log, e); }
    if AppendResult(log, e).Ok? && AppendResult(log, e).value.decision == LostConcurrentRace {
      LostNamesCurrent(log, e);
    }
  }

  /** An append of a new id stands still exactly while another open transaction holds an event of the same
      id, or of the same version of the same subject. */
  lemma AppendWaitsIff(w: World, c: Client, e: Event)
    requires SessionOf(w, c).pending == Some(Drafted(e)) && Find(Visible(w, c), e.id).None?
    ensures Next(w, Append(c)) == w
       <==> exists d, x :: && d in w.sessions && d != c && x in w.sessions[d].own
                           && (x.id == e.id || (x.subject == e.subject && x.toVersion == e.toVersion))
  {
    hide AppendResult;
    if d, x :| && d in w.sessions && d != c && x in w.sessions[d].own
               && (x.id == e.id || (x.subject == e.subject && x.toVersion == e.toVersion))
    {
      assert Clashes(x, e);
      assert Waits(w, c, e);
    }
    assert !Waits(w, c, e) ==> SessionOf(Next(w, Append(c)), c).pending.None?;
  }

  function References(p: Payload): seq<string> {
    [p.modelRef, p.validationRef, p.costRef, p.responsibleRef, p.rollbackPlanRef]
  }

  /** Every committed event, over any interleaving, is a row that its table is meant to hold: one version
      further, a rollback exactly when it names its target, digests as digests, no blank reference, both
      text columns in canonical form, and an approval of a promotion candidate. */
  lemma EveryEventIsARow(steps: seq<Step>, e: Event, item: string)
    requires ValidRun(steps) && e in Run(steps).committed
    ensures e.fromVersion >= 0 && e.toVersion == e.fromVersion + 1
    ensures e.kind == Promote <==> e.rollbackOf.None?
    ensures Sha256(e.subject) && Sha256(e.payload.sha256)
    ensures e.stamp.version >= 1 && e.stamp.boundKind == PromotionCandidate
    ensures item in References(e.payload) ==> !SqlBlank(item)
    ensures e.payload.hypothesisRefs != [] && StrictlyIncreasing(e.payload.hypothesisRefs)
    ensures e.stamp.scope != [] && StrictlyIncreasing(e.stamp.scope)
    ensures item in e.payload.hypothesisRefs + e.stamp.scope ==> !Blank(item) && !SqlBlank(item)
  {
    hide Safe, Reactivates, Sha256, SqlBlank, Blank, StrictlyIncreasing;
    var log := Run(steps).committed;
    RunIsOk(steps);
    var i :| 0 <= i < |log| && log[i] == e;
    SafeAt(log, i);
    assert RowAccepted(e);
  }

  // ----- the steps and the gates

  lemma DraftAppendCommit(w: World, c: Client, e: Event)
    requires w.sessions == map[c := Session([], Draft(w.committed, e))]
    ensures Next(Next(w, Append(c)), Commit(c)).committed == SubmitLog(w.committed, e)
  {
    hide AppendResult;
    assert w.committed + [] == w.committed;
    assert !Waits(w, c, e) && Visible(w, c) == w.committed;
    AppendAddsOrKeeps(w.committed, e);
    hide LogAfter, Waits;
    if CurrentVersion(w.committed, e.subject) == e.fromVersion {
      var own := if LogAfter(w.committed, e) == w.committed then [] else [e];
      assert [] + [e] == [e];
      assert Next(w, Append(c)).sessions == map[c := Session(own, None)];
    }
  }

  lemma AppendAddsOrKeeps(log: seq<Event>, e: Event)
    ensures LogAfter(log, e) == log || LogAfter(log, e) == log + [e]
  {
  }

  /** Alone, the three steps of a promotion leave the log exactly as the promotion gate does. */
  lemma PromotionAlone(w: World, step: Step)
    requires w.sessions == map[] && step.StartPromotion?
    ensures Next(Next(Next(w, step), Append(step.client)), Commit(step.client)).committed
         == PromoteLog(w.committed, step.evaluation, step.authority, step.candidate, step.id, step.at)
  {
    hide PromotionVerdict, LogAfter, SubmitLog;
    var c := step.client;
    assert w.committed + [] == w.committed;
    var verdict := PromotionVerdict(step.evaluation, step.authority, step.candidate);
    if verdict.Ok? && verdict.value.Proceed? {
      DraftAppendCommit(Next(w, step), c, PromotionEvent(step.candidate, verdict.value.approval, step.id, step.at));
    } else {
      assert Next(w, step).sessions == map[c := Session([], None)];
    }
  }

  /** Alone, the four steps of a rollback leave the log exactly as the rollback gate does. */
  lemma RollbackAlone(w: World, step: Step)
    requires w.sessions == map[] && step.FetchTarget?
    ensures Next(Next(Next(Next(w, step), CheckRollback(step.client)), Append(step.client)),
                 Commit(step.client)).committed
         == RollbackLog(w.committed, step.request, step.authority)
  {
    hide ValidateApproval, LogAfter, SubmitLog;
    var c := step.client;
    assert w.committed + [] == w.committed;
    var target := Find(w.committed, step.request.rollbackOf);
    var fetched := Next(w, step);
    assert fetched.sessions == map[c := Session([], Some(Fetched(step.request, step.authority, target)))];
    var verdict := RollbackVerdict(step.request, step.authority, target);
    var checked := Next(fetched, CheckRollback(c));
    if verdict.Ok? && verdict.value.Proceed? {
      DraftAppendCommit(checked, c, RollbackEvent(step.request, verdict.value.approval, target.value));
    } else {
      assert checked.sessions == map[c := Session([], None)];
    }
  }
}
