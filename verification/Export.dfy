/** Exactly-once export of a handoff: claim the command key, run the effect, commit. Calls of both
    channels interleave freely, each in one database transaction that may abort at any point. */
module Export {
  import opened Results

  type Id = nat
  type Client = nat
  type Schedule = nat
  type Step = nat

  /** The idempotency scope; the operation is always the export of a handoff. */
  datatype Scope = Scope(principal: nat, key: string)

  datatype Request = Request(principal: nat, key: string, schedule: Schedule, step: Step)

  /** What the request digest is taken over; the digest is idealised as injective. */
  datatype Fingerprint = Fingerprint(schedule: Schedule, step: Step, sealer: nat)

  function ScopeOf(r: Request): Scope { Scope(r.principal, r.key) }

  function FingerprintOf(r: Request): Fingerprint { Fingerprint(r.schedule, r.step, r.principal) }

  datatype Receipt = Receipt(fingerprint: Fingerprint, outcome: Id)

  /** A handoff attempt; its origin is the command that created it. */
  datatype Attempt = Attempt(step: Step, isOpen: bool, origin: Scope)

  datatype Db = Db(receipts: map<Scope, Receipt>, attempts: map<Id, Attempt>)

  /** The partial index on open attempts already holds an entry for the step. */
  predicate HasOpen(attempts: map<Id, Attempt>, step: Step) {
    exists a | a in attempts :: attempts[a].isOpen && attempts[a].step == step
  }

  datatype Outcome = Success(attempt: Id, replayed: bool) | Conflict | Blocked | Failed

  // ----- one call at a time

  datatype Verdict = Allow | Block | Refuse

  /** The whole supervised call when nothing else runs: the first gate, the claim, and inside the
      claim the third gate and the seal; whatever does not succeed leaves the tables alone. */
  function SupervisedCall(db: Db, r: Request, g2: Verdict, g3: Verdict, newId: Id): (Db, Outcome) {
    var scope := ScopeOf(r);
    if g2 != Allow then (db, if g2 == Block then Blocked else Failed)
    else if scope in db.receipts then
      (db, if db.receipts[scope].fingerprint != FingerprintOf(r) then Conflict
       else Success(db.receipts[scope].outcome, true))
    else if g3 != Allow then (db, if g3 == Block then Blocked else Failed)
    else if HasOpen(db.attempts, r.step) then (db, Failed)
    else (Recorded(db, r, newId), Success(newId, false))
  }

  /** The whole manual call when nothing else runs: the replay is looked for before anything is
      judged, then the preflight, the claim, and the preflight once more inside the effect. */
  function ManualCall(db: Db, r: Request, preflight: Verdict, again: Verdict, newId: Id): (Db, Outcome) {
    var scope := ScopeOf(r);
    if scope in db.receipts then
      (db, if db.receipts[scope].fingerprint != FingerprintOf(r) then Conflict
       else Success(db.receipts[scope].outcome, true))
    else if preflight != Allow then (db, if preflight == Block then Blocked else Failed)
    else if HasOpen(db.attempts, r.step) then (db, Failed)
    else if again != Allow then (db, if again == Block then Blocked else Failed)
    else (Recorded(db, r, newId), Success(newId, false))
  }

  function Recorded(db: Db, r: Request, attempt: Id): Db {
    Db(db.receipts[ScopeOf(r) := Receipt(FingerprintOf(r), attempt)],
       db.attempts[attempt := Attempt(r.step, true, ScopeOf(r))])
  }

  /** The tables as one session changes them. */
  class Session {
    var receipts: map<Scope, Receipt>
    var attempts: map<Id, Attempt>

    ghost function Contents(): Db
      reads this
    {
      Db(receipts, attempts)
    }

    constructor (db: Db)
      ensures Contents() == db
    {
      receipts, attempts := db.receipts, db.attempts;
    }

    /** Inserts the receipt, or takes the one already there. */
    method ClaimCommand(scope: Scope, fingerprint: Fingerprint, proposed: Id) returns (receipt: Receipt, claimed: bool)
      modifies this`receipts
      ensures claimed <==> scope !in old(receipts)
      ensures receipts == if claimed then old(receipts)[scope := receipt] else old(receipts)
      ensures receipt == if claimed then Receipt(fingerprint, proposed) else old(receipts)[scope]
    {
      claimed := scope !in receipts;
      if claimed { receipts := receipts[scope := Receipt(fingerprint, proposed)]; }
      receipt := receipts[scope];
    }

    /** The third gate, then the seal under the index of one open attempt per step. */
    method ExportStep(r: Request, g3: Verdict, attempt: Id) returns (error: Option<Outcome>)
      modifies this`attempts
      ensures error == if g3 != Allow then Some(if g3 == Block then Blocked else Failed)
                       else if HasOpen(old(attempts), r.step) then Some(Failed) else None
      ensures attempts == if error.None? then old(attempts)[attempt := Attempt(r.step, true, ScopeOf(r))]
                          else old(attempts)
    {
      if g3 != Allow { return Some(if g3 == Block then Blocked else Failed); }
      if HasOpen(attempts, r.step) { return Some(Failed); }
      attempts := attempts[attempt := Attempt(r.step, true, ScopeOf(r))];
      return None;
    }

    /** Whether the call is already decided: a replay ends in the attempt of its own receipt and a
        conflict in a conflict, whatever any preflight, any gate or any new identifier would be;
        otherwise nothing is recorded under the scope and the preflight alone can refuse it. */
    method FindReplay(r: Request) returns (found: Result<bool, Outcome>)
      ensures found.Err? ==> found.error == Conflict
      ensures found == Ok(false) <==> ScopeOf(r) !in receipts
      ensures found == Ok(true) ==> forall p, a, id ::
        ManualCall(Contents(), r, p, a, id) == (Contents(), Success(receipts[ScopeOf(r)].outcome, true))
      ensures found.Err? ==> forall p, a, id :: ManualCall(Contents(), r, p, a, id) == (Contents(), Conflict)
      ensures found == Ok(false) ==> forall a, id :: ManualCall(Contents(), r, Block, a, id) == (Contents(), Blocked)
    {
      if ScopeOf(r) !in receipts { return Ok(false); }
      if receipts[ScopeOf(r)].fingerprint != FingerprintOf(r) { return Err(Conflict); }
      return Ok(true);
    }

    /** The replay is resolved before any precondition of a new request; what fails after the claim
        rolls the whole session back. */
    method ExportManual(r: Request, preflight: Verdict, again: Verdict, newId: Id) returns (outcome: Outcome)
      modifies this
      ensures (Contents(), outcome) == ManualCall(old(Contents()), r, preflight, again, newId)
    {
      var replay := FindReplay(r);
      if replay.Err? { return replay.error; }
      if !replay.value {
        if preflight != Allow { return if preflight == Block then Blocked else Failed; }
        if HasOpen(attempts, r.step) { return Failed; }
      }
      outcome := ExportOnce(r, again, newId);
    }

    /** The claim, the effect only for the caller that inserted the receipt, and the rollback of
        both when the effect raises. */
    method ExportOnce(r: Request, gate: Verdict, newId: Id) returns (outcome: Outcome)
      modifies this
      ensures (Contents(), outcome) == SupervisedCall(old(Contents()), r, Allow, gate, newId)
    {
      var receiptsBefore, attemptsBefore := receipts, attempts;
      var receipt, claimed := ClaimCommand(ScopeOf(r), FingerprintOf(r), newId);
      if !claimed {
        if receipt.fingerprint != FingerprintOf(r) { return Conflict; }
        return Success(receipt.outcome, true);
      }
      var error := ExportStep(r, gate, newId);
      if error.Some? {
        receipts, attempts := receiptsBefore, attemptsBefore;
        return error.value;
      }
      return Success(newId, false);
    }

    /** The first gate comes before the claim, so a request it refuses never spends the key. */
    method ExportSupervised(r: Request, g2: Verdict, g3: Verdict, newId: Id) returns (outcome: Outcome)
      modifies this
      ensures (Contents(), outcome) == SupervisedCall(old(Contents()), r, g2, g3, newId)
    {
      if g2 != Allow { return if g2 == Block then Blocked else Failed; }
      outcome := ExportOnce(r, g3, newId);
    }
  }

  // ----- many calls at once

  datatype Channel = Http | Mcp

  /** How far a call has come. */
  datatype Phase =
    | Begun                     // nothing read yet
    | Unlocked                  // no receipt found, schedule not locked
    | Cleared                   // may claim
    | Claimed(attempt: Id)      // inserted the receipt, effect still to run
    | Sealed(attempt: Id)       // created the attempt, not committed
    | Replaying(attempt: Id)    // found its own receipt

  datatype Call = Call(channel: Channel, request: Request, phase: Phase, locked: bool)

  datatype Finished = Finished(request: Request, outcome: Outcome)

  datatype World = World(db: Db, calls: map<Client, Call>, history: seq<Finished>)

  datatype Action =
    | Read
    | Lock(preflight: Verdict)
    | FirstGate(verdict: Verdict)
    | Claim(newId: Id)
    | Effect(verdict: Verdict)
    | Commit
    | Abort

  datatype Move =
    | Begin(client: Client, channel: Channel, request: Request)
    | Advance(client: Client, action: Action)
    | CloseAttempt(attempt: Id)

  predicate HoldsClaim(p: Phase) { p.Claimed? || p.Sealed? || p.Replaying? }

  /** Another call holds the receipt row of this scope. */
  predicate ScopeHeld(w: World, c: Client, scope: Scope) {
    exists d | d in w.calls :: d != c && ScopeOf(w.calls[d].request) == scope && HoldsClaim(w.calls[d].phase)
  }

  predicate ScheduleHeld(w: World, c: Client, schedule: Schedule) {
    exists d | d in w.calls :: d != c && w.calls[d].locked && w.calls[d].request.schedule == schedule
  }

  /** Another call holds the step, having sealed an attempt it has not committed. */
  predicate StepHeld(w: World, c: Client, step: Step) {
    exists d | d in w.calls :: d != c && w.calls[d].phase.Sealed? && w.calls[d].request.step == step
  }

  /** Identifiers are never handed out twice. */
  predicate Unused(w: World, id: Id) {
    && id !in w.db.attempts
    && forall d | d in w.calls :: HoldsClaim(w.calls[d].phase) ==> w.calls[d].phase.attempt != id
  }

  function End(w: World, c: Client, outcome: Outcome): World
    requires c in w.calls
  {
    World(w.db, w.calls - {c}, w.history + [Finished(w.calls[c].request, outcome)])
  }

  function To(w: World, c: Client, phase: Phase): World
    requires c in w.calls
  {
    w.(calls := w.calls[c := w.calls[c].(phase := phase)])
  }

  /** A found receipt settles the call: another request's receipt is a conflict, the same request's
      one goes straight to the claim. */
  function OnReceipt(w: World, c: Client): World
    requires c in w.calls && ScopeOf(w.calls[c].request) in w.db.receipts
  {
    if w.db.receipts[ScopeOf(w.calls[c].request)].fingerprint != FingerprintOf(w.calls[c].request)
    then End(w, c, Conflict)
    else To(w, c, Cleared)
  }

  function NextRead(w: World, c: Client): World
    requires c in w.calls
  {
    var call := w.calls[c];
    if !(call.channel.Http? && call.phase.Begun?) then w
    else if ScopeOf(call.request) in w.db.receipts then OnReceipt(w, c)
    else To(w, c, Unlocked)
  }

  /** The schedule is locked, the receipt read again, and only then is a new request judged. */
  function NextLock(w: World, c: Client, preflight: Verdict): World
    requires c in w.calls
  {
    var call := w.calls[c];
    if !(call.channel.Http? && call.phase.Unlocked?) || ScheduleHeld(w, c, call.request.schedule) then w else
    var locked := w.(calls := w.calls[c := call.(locked := true)]);
    if ScopeOf(call.request) in w.db.receipts then OnReceipt(locked, c)
    else if preflight == Block then End(locked, c, Blocked)
    else if preflight == Refuse || HasOpen(w.db.attempts, call.request.step) then End(locked, c, Failed)
    else To(locked, c, Cleared)
  }

  function NextGate(w: World, c: Client, verdict: Verdict): World
    requires c in w.calls
  {
    var call := w.calls[c];
    if !(call.channel.Mcp? && call.phase.Begun?) then w
    else if verdict == Allow then To(w, c, Cleared)
    else End(w, c, if verdict == Block then Blocked else Failed)
  }

  function NextClaim(w: World, c: Client, newId: Id): World
    requires c in w.calls
  {
    var call := w.calls[c];
    var scope := ScopeOf(call.request);
    if !call.phase.Cleared? || ScopeHeld(w, c, scope) || !Unused(w, newId) then w
    else if scope !in w.db.receipts then To(w, c, Claimed(newId))
    else if w.db.receipts[scope].fingerprint != FingerprintOf(call.request) then End(w, c, Conflict)
    else To(w, c, Replaying(w.db.receipts[scope].outcome))
  }

  function NextEffect(w: World, c: Client, verdict: Verdict): World
    requires c in w.calls
  {
    var call := w.calls[c];
    if !call.phase.Claimed? then w
    else if verdict == Block then End(w, c, Blocked)
    else if verdict == Refuse then End(w, c, Failed)
    else if StepHeld(w, c, call.request.step) then w
    else if HasOpen(w.db.attempts, call.request.step) then End(w, c, Failed)
    else To(w, c, Sealed(call.phase.attempt))
  }

  function NextCommit(w: World, c: Client): World
    requires c in w.calls
  {
    var call := w.calls[c];
    match call.phase
    case Sealed(attempt) => End(w.(db := Recorded(w.db, call.request, attempt)), c, Success(attempt, false))
    case Replaying(attempt) => End(w, c, Success(attempt, true))
    case _ => w
  }

  function Next(w: World, m: Move): World {
    match m
    case Begin(c, channel, request) =>
      if c in w.calls then w else w.(calls := w.calls[c := Call(channel, request, Begun, false)])
    case CloseAttempt(a) =>
      if a !in w.db.attempts then w else
      w.(db := w.db.(attempts := w.db.attempts[a := w.db.attempts[a].(isOpen := false)]))
    case Advance(c, action) => if c in w.calls then Act(w, c, action) else w
  }

  function Act(w: World, c: Client, action: Action): World
    requires c in w.calls
  {
    match action
    case Read => NextRead(w, c)
    case Lock(preflight) => NextLock(w, c, preflight)
    case FirstGate(verdict) => NextGate(w, c, verdict)
    case Claim(newId) => NextClaim(w, c, newId)
    case Effect(verdict) => NextEffect(w, c, verdict)
    case Commit => NextCommit(w, c)
    case Abort => End(w, c, Failed)
  }

  const EMPTY := World(Db(map[], map[]), map[], [])

  function Run(moves: seq<Move>): World {
    if moves == [] then EMPTY else Next(Run(moves[..|moves| - 1]), moves[|moves| - 1])
  }

  // ----- the invariant

  /** Receipts and attempts go together, one for one, and a step has at most one open attempt. */
  ghost predicate DbOk(db: Db) {
    && (forall s | s in db.receipts ::
          && db.receipts[s].outcome in db.attempts
          && db.attempts[db.receipts[s].outcome].origin == s
          && db.attempts[db.receipts[s].outcome].step == db.receipts[s].fingerprint.step)
    && (forall a | a in db.attempts ::
          db.attempts[a].origin in db.receipts && db.receipts[db.attempts[a].origin].outcome == a)
    && (forall a, b | a in db.attempts && b in db.attempts && db.attempts[a].isOpen && db.attempts[b].isOpen
          && db.attempts[a].step == db.attempts[b].step :: a == b)
  }

  ghost predicate CallOk(db: Db, call: Call) {
    var scope := ScopeOf(call.request);
    match call.phase
    case Claimed(attempt) => scope !in db.receipts && attempt !in db.attempts
    case Sealed(attempt) => scope !in db.receipts && attempt !in db.attempts && !HasOpen(db.attempts, call.request.step)
    case Replaying(attempt) =>
      scope in db.receipts && db.receipts[scope] == Receipt(FingerprintOf(call.request), attempt)
    case _ => true
  }

  /** Two calls never hold the same receipt row, never create the same attempt, and never seal
      attempts of the same step. */
  ghost predicate Exclusive(a: Call, b: Call) {
    && (HoldsClaim(a.phase) && HoldsClaim(b.phase) ==> ScopeOf(a.request) != ScopeOf(b.request))
    && (HoldsClaim(a.phase) && HoldsClaim(b.phase) && !a.phase.Replaying? && !b.phase.Replaying? ==>
          a.phase.attempt != b.phase.attempt)
    && (a.phase.Sealed? && b.phase.Sealed? ==> a.request.step != b.request.step)
  }

  ghost predicate HistoryOk(db: Db, f: Finished) {
    && (f.outcome.Success? ==>
          ScopeOf(f.request) in db.receipts
          && db.receipts[ScopeOf(f.request)] == Receipt(FingerprintOf(f.request), f.outcome.attempt))
    && (f.outcome.Conflict? ==>
          ScopeOf(f.request) in db.receipts && db.receipts[ScopeOf(f.request)].fingerprint != FingerprintOf(f.request))
  }

  ghost predicate Inv(w: World) {
    && DbOk(w.db)
    && (forall c | c in w.calls :: CallOk(w.db, w.calls[c]))
    && (forall c, d | c in w.calls && d in w.calls && c != d :: Exclusive(w.calls[c], w.calls[d]))
    && (forall f | f in w.history :: HistoryOk(w.db, f))
  }

  lemma EndKeepsInv(w: World, c: Client, outcome: Outcome)
    requires Inv(w) && c in w.calls && HistoryOk(w.db, Finished(w.calls[c].request, outcome))
    ensures Inv(End(w, c, outcome))
  {
    hide DbOk, CallOk, Exclusive, HistoryOk;
  }

  lemma ToKeepsInv(w: World, c: Client, call: Call)
    requires Inv(w) && c in w.calls && CallOk(w.db, call)
    requires forall d | d in w.calls && d != c :: Exclusive(call, w.calls[d]) && Exclusive(w.calls[d], call)
    ensures Inv(w.(calls := w.calls[c := call]))
  {
    hide DbOk, CallOk, Exclusive, HistoryOk;
  }

  lemma QuietKeepsInv(w: World, c: Client, call: Call)
    requires Inv(w) && c in w.calls && !HoldsClaim(call.phase)
    ensures Inv(w.(calls := w.calls[c := call]))
  {
    hide DbOk, HistoryOk;
    ToKeepsInv(w, c, call);
  }

  lemma ReceiptKeepsInv(w: World, c: Client)
    requires Inv(w) && c in w.calls && ScopeOf(w.calls[c].request) in w.db.receipts
    ensures Inv(OnReceipt(w, c))
  {
    hide DbOk, CallOk, Exclusive, Inv;
    if w.db.receipts[ScopeOf(w.calls[c].request)].fingerprint != FingerprintOf(w.calls[c].request) {
      EndKeepsInv(w, c, Conflict);
    } else {
      QuietKeepsInv(w, c, w.calls[c].(phase := Cleared));
    }
  }

  lemma LockKeepsInv(w: World, c: Client, preflight: Verdict)
    requires Inv(w) && c in w.calls
    ensures Inv(NextLock(w, c, preflight))
  {
    hide DbOk, CallOk, Exclusive, Inv;
    var call := w.calls[c];
    if call.channel.Http? && call.phase.Unlocked? && !ScheduleHeld(w, c, call.request.schedule) {
      var locked := w.(calls := w.calls[c := call.(locked := true)]);
      QuietKeepsInv(w, c, call.(locked := true));
      if ScopeOf(call.request) in w.db.receipts {
        ReceiptKeepsInv(locked, c);
      } else {
        EndKeepsInv(locked, c, Blocked);
        EndKeepsInv(locked, c, Failed);
        QuietKeepsInv(locked, c, locked.calls[c].(phase := Cleared));
      }
    }
  }

  lemma ClaimKeepsInv(w: World, c: Client, newId: Id)
    requires Inv(w) && c in w.calls
    ensures Inv(NextClaim(w, c, newId))
  {
    hide DbOk;
    var call := w.calls[c];
    var scope := ScopeOf(call.request);
    if call.phase.Cleared? && !ScopeHeld(w, c, scope) && Unused(w, newId) {
      if scope !in w.db.receipts {
        ToKeepsInv(w, c, call.(phase := Claimed(newId)));
      } else if w.db.receipts[scope].fingerprint != FingerprintOf(call.request) {
        EndKeepsInv(w, c, Conflict);
      } else {
        ToKeepsInv(w, c, call.(phase := Replaying(w.db.receipts[scope].outcome)));
      }
    }
  }

  lemma EffectKeepsInv(w: World, c: Client, verdict: Verdict)
    requires Inv(w) && c in w.calls
    ensures Inv(NextEffect(w, c, verdict))
  {
    hide DbOk;
    var call := w.calls[c];
    if call.phase.Claimed? {
      EndKeepsInv(w, c, Blocked);
      EndKeepsInv(w, c, Failed);
      if !StepHeld(w, c, call.request.step) && !HasOpen(w.db.attempts, call.request.step) {
        SealIsExclusive(w, c);
        ToKeepsInv(w, c, call.(phase := Sealed(call.phase.attempt)));
      }
    }
  }

  lemma SealIsExclusive(w: World, c: Client)
    requires Inv(w) && c in w.calls && w.calls[c].phase.Claimed? && !StepHeld(w, c, w.calls[c].request.step)
    ensures var call := w.calls[c].(phase := Sealed(w.calls[c].phase.attempt));
            forall d | d in w.calls && d != c :: Exclusive(call, w.calls[d]) && Exclusive(w.calls[d], call)
  {
    hide DbOk, CallOk, HistoryOk;
    var call := w.calls[c].(phase := Sealed(w.calls[c].phase.attempt));
    forall d | d in w.calls && d != c ensures Exclusive(call, w.calls[d]) && Exclusive(w.calls[d], call) {
      assert Exclusive(w.calls[c], w.calls[d]) && Exclusive(w.calls[d], w.calls[c]);
    }
  }

  lemma RecordedIsOk(db: Db, r: Request, attempt: Id)
    requires DbOk(db) && ScopeOf(r) !in db.receipts && attempt !in db.attempts && !HasOpen(db.attempts, r.step)
    ensures DbOk(Recorded(db, r, attempt))
  {
  }

  /** What other calls rely on survives the commit of one that excludes them. */
  lemma CallSurvivesCommit(db: Db, mine: Call, other: Call)
    requires CallOk(db, mine) && mine.phase.Sealed? && CallOk(db, other) && Exclusive(mine, other)
    ensures CallOk(Recorded(db, mine.request, mine.phase.attempt), other)
  {
  }

  lemma HistorySurvives(db: Db, r: Request, attempt: Id, f: Finished)
    requires ScopeOf(r) !in db.receipts && HistoryOk(db, f)
    ensures HistoryOk(Recorded(db, r, attempt), f)
  {
  }

  lemma CommitKeepsInv(w: World, c: Client)
    requires Inv(w) && c in w.calls
    ensures Inv(NextCommit(w, c))
  {
    var call := w.calls[c];
    if call.phase.Replaying? {
      ReplayingIsRecorded(w.db, call);
      EndKeepsInv(w, c, Success(call.phase.attempt, true));
    } else if call.phase.Sealed? {
      SealedCommits(w, c);
    }
  }

  lemma ReplayingIsRecorded(db: Db, call: Call)
    requires CallOk(db, call) && call.phase.Replaying?
    ensures HistoryOk(db, Finished(call.request, Success(call.phase.attempt, true)))
  {
  }

  lemma SealedCommits(w: World, c: Client)
    requires Inv(w) && c in w.calls && w.calls[c].phase.Sealed?
    ensures Inv(NextCommit(w, c))
  {
    var call := w.calls[c];
    var db := Recorded(w.db, call.request, call.phase.attempt);
    assert ScopeOf(call.request) !in w.db.receipts by { assert CallOk(w.db, call); }
    RecordedIsOk(w.db, call.request, call.phase.attempt);
    forall d | d in w.calls && d != c ensures CallOk(db, w.calls[d]) {
      CallSurvivesCommit(w.db, call, w.calls[d]);
    }
    forall f | f in w.history ensures HistoryOk(db, f) {
      HistorySurvives(w.db, call.request, call.phase.attempt, f);
    }
    var done := Finished(call.request, Success(call.phase.attempt, false));
    assert HistoryOk(db, done);
    hide DbOk, CallOk, Exclusive, HistoryOk, Recorded;
    var w' := NextCommit(w, c);
    assert w'.db == db && w'.calls == w.calls - {c} && w'.history == w.history + [done];
  }

  lemma CloseKeepsInv(w: World, a: Id)
    requires Inv(w) && a in w.db.attempts
    ensures Inv(Next(w, CloseAttempt(a)))
  {
    var db := w.db.(attempts := w.db.attempts[a := w.db.attempts[a].(isOpen := false)]);
    forall c | c in w.calls ensures CallOk(db, w.calls[c]) {
      CallSurvivesClose(w.db, a, w.calls[c]);
    }
    forall f | f in w.history ensures HistoryOk(db, f) {
      assert HistoryOk(w.db, f);
    }
    hide CallOk, Exclusive, HistoryOk;
  }

  lemma CallSurvivesClose(db: Db, a: Id, call: Call)
    requires a in db.attempts && CallOk(db, call)
    ensures CallOk(db.(attempts := db.attempts[a := db.attempts[a].(isOpen := false)]), call)
  {
  }

  lemma BeginKeepsInv(w: World, m: Move)
    requires Inv(w) && m.Begin?
    ensures Inv(Next(w, m))
  {
    hide DbOk, HistoryOk;
  }

  lemma ActKeepsInv(w: World, c: Client, action: Action)
    requires Inv(w) && c in w.calls
    ensures Inv(Act(w, c, action))
  {
    hide Inv, CallOk, Exclusive, DbOk;
    match action
    case Read =>
      if ScopeOf(w.calls[c].request) in w.db.receipts { ReceiptKeepsInv(w, c); }
      QuietKeepsInv(w, c, w.calls[c].(phase := Unlocked));
    case Lock(preflight) => LockKeepsInv(w, c, preflight);
    case FirstGate(_) =>
      EndKeepsInv(w, c, Blocked);
      EndKeepsInv(w, c, Failed);
      QuietKeepsInv(w, c, w.calls[c].(phase := Cleared));
    case Claim(newId) => ClaimKeepsInv(w, c, newId);
    case Effect(verdict) => EffectKeepsInv(w, c, verdict);
    case Commit => CommitKeepsInv(w, c);
    case Abort => EndKeepsInv(w, c, Failed);
  }

  lemma NextKeepsInv(w: World, m: Move)
    requires Inv(w)
    ensures Inv(Next(w, m))
  {
    hide Inv, CallOk, Exclusive, DbOk;
    match m
    case Begin(_, _, _) => BeginKeepsInv(w, m);
    case CloseAttempt(a) => if a in w.db.attempts { CloseKeepsInv(w, a); }
    case Advance(c, action) => if c in w.calls { ActKeepsInv(w, c, action); }
  }

  lemma {:induction false} RunKeepsInv(moves: seq<Move>)
    ensures Inv(Run(moves))
  {
    if moves != [] {
      RunKeepsInv(moves[..|moves| - 1]);
      NextKeepsInv(Run(moves[..|moves| - 1]), moves[|moves| - 1]);
    }
  }

  // ----- what holds over every interleaving

  /** The effect of a command commits at most once: two attempts with one origin are one attempt. A
      receipt and its attempt are committed together or not at all. */
  lemma EffectCommitsOnce(moves: seq<Move>, a: Id, b: Id)
    requires var db := Run(moves).db; a in db.attempts && b in db.attempts
    ensures var db := Run(moves).db;
            && (db.attempts[a].origin == db.attempts[b].origin ==> a == b)
            && db.attempts[a].origin in db.receipts && db.receipts[db.attempts[a].origin].outcome == a
    ensures forall s | s in Run(moves).db.receipts :: Run(moves).db.receipts[s].outcome in Run(moves).db.attempts
  {
    RunKeepsInv(moves);
  }

  /** A call that produced its effect, rather than replaying one. */
  predicate Produced(f: Finished) { f.outcome.Success? && !f.outcome.replayed }

  /** Every committed attempt was reported by a call that produced it. */
  ghost predicate AllReported(w: World) {
    forall a | a in w.db.attempts ::
      exists f :: && f in w.history && Produced(f)
                  && f.outcome.attempt == a && ScopeOf(f.request) == w.db.attempts[a].origin
  }

  /** No two calls produced an effect under one scope. */
  ghost predicate ProducedOnce(history: seq<Finished>) {
    forall i, j | 0 <= i < j < |history| && Produced(history[i]) && Produced(history[j]) ::
      ScopeOf(history[i].request) != ScopeOf(history[j].request)
  }

  /** Over every interleaving the effect of a scope runs to completion in at most one call, and a
      call that was blocked, failed, conflicted or replayed left no attempt: every committed attempt
      belongs to the one call that reported producing it. */
  lemma {:induction false} EffectsAreReported(moves: seq<Move>)
    ensures AllReported(Run(moves)) && ProducedOnce(Run(moves).history)
  {
    if moves != [] {
      var before, m := Run(moves[..|moves| - 1]), moves[|moves| - 1];
      EffectsAreReported(moves[..|moves| - 1]);
      RunKeepsInv(moves[..|moves| - 1]);
      if m.Advance? && m.action.Commit? && m.client in before.calls && before.calls[m.client].phase.Sealed? {
        CommitIsReported(before, m.client);
      } else {
        hide Inv;
        QuietStepIsReported(before, m);
      }
    }
  }

  lemma CommitIsReported(w: World, c: Client)
    requires Inv(w) && AllReported(w) && ProducedOnce(w.history) && c in w.calls && w.calls[c].phase.Sealed?
    ensures AllReported(NextCommit(w, c)) && ProducedOnce(NextCommit(w, c).history)
  {
    var call := w.calls[c];
    assert CallOk(w.db, call);
    var done := Finished(call.request, Success(call.phase.attempt, false));
    var after := NextCommit(w, c);
    assert after.history == w.history + [done];
    forall f | f in w.history && Produced(f) ensures ScopeOf(f.request) != ScopeOf(done.request) {
      assert HistoryOk(w.db, f);
    }
    assert done in after.history && Produced(done);
    forall a | a in after.db.attempts
      ensures exists f :: f in after.history && Produced(f) && f.outcome.attempt == a
                          && ScopeOf(f.request) == after.db.attempts[a].origin
    {
      if a in w.db.attempts {
        var f :| && f in w.history && Produced(f)
                 && f.outcome.attempt == a && ScopeOf(f.request) == w.db.attempts[a].origin;
        assert f in after.history;
      }
    }
  }

  /** Any other move neither creates an attempt nor reports producing one. */
  lemma QuietStepIsReported(w: World, m: Move)
    requires AllReported(w) && ProducedOnce(w.history)
    requires !(m.Advance? && m.action.Commit? && m.client in w.calls && w.calls[m.client].phase.Sealed?)
    ensures AllReported(Next(w, m)) && ProducedOnce(Next(w, m).history)
  {
    QuietStep(w, m);
    hide Next;
    var after := Next(w, m);
    if |after.history| == |w.history| + 1 {
      assert after.history == w.history + [after.history[|w.history|]];
    }
    forall a | a in after.db.attempts
      ensures exists f :: f in after.history && Produced(f) && f.outcome.attempt == a
                          && ScopeOf(f.request) == after.db.attempts[a].origin
    {
      var f :| f in w.history && Produced(f) && f.outcome.attempt == a && ScopeOf(f.request) == w.db.attempts[a].origin;
      assert f in after.history;
    }
  }

  lemma QuietStep(w: World, m: Move)
    requires !(m.Advance? && m.action.Commit? && m.client in w.calls && w.calls[m.client].phase.Sealed?)
    ensures forall a | a in Next(w, m).db.attempts ::
              a in w.db.attempts && Next(w, m).db.attempts[a].origin == w.db.attempts[a].origin
    ensures w.history <= Next(w, m).history && |Next(w, m).history| <= |w.history| + 1
    ensures |Next(w, m).history| == |w.history| + 1 ==> !Produced(Next(w, m).history[|w.history|])
  {
    hide HasOpen, ScopeHeld, ScheduleHeld, StepHeld, Unused, Recorded;
  }

  /** Every success under one principal and key reports the same attempt of the same request; a
      request that differs never succeeds under a key that did; and a conflict is always a key
      committed for a different request. */
  lemma SuccessesAgree(moves: seq<Move>, f: Finished, g: Finished)
    requires f in Run(moves).history && g in Run(moves).history && ScopeOf(f.request) == ScopeOf(g.request)
    requires f.outcome.Success?
    ensures g.outcome.Success? ==> g.outcome.attempt == f.outcome.attempt && g.request == f.request
    ensures g.outcome.Conflict? ==> g.request != f.request
    ensures f.outcome.attempt in Run(moves).db.attempts
    ensures Run(moves).db.attempts[f.outcome.attempt].origin == ScopeOf(f.request)
    ensures Run(moves).db.attempts[f.outcome.attempt].step == f.request.step
  {
    RunKeepsInv(moves);
    assert HistoryOk(Run(moves).db, f) && HistoryOk(Run(moves).db, g);
  }

  /** What a call may do next is fixed by its channel and phase; any other move leaves the world as it
      is. */
  lemma NotItsTurn(w: World, c: Client, verdict: Verdict, newId: Id)
    requires c in w.calls
    ensures var call := w.calls[c];
            && (!(call.channel == Http && call.phase.Begun?) ==> Next(w, Advance(c, Read)) == w)
            && (!(call.channel == Http && call.phase.Unlocked?) ==> Next(w, Advance(c, Lock(verdict))) == w)
            && (!(call.channel == Mcp && call.phase.Begun?) ==> Next(w, Advance(c, FirstGate(verdict))) == w)
            && (!call.phase.Cleared? ==> Next(w, Advance(c, Claim(newId))) == w)
            && (!call.phase.Claimed? ==> Next(w, Advance(c, Effect(verdict))) == w)
            && (!call.phase.Sealed? && !call.phase.Replaying? ==> Next(w, Advance(c, Commit)) == w)
  {
    hide HasOpen, ScopeHeld, ScheduleHeld, StepHeld, Unused;
  }

  /** A manual call that has claimed its key for a new effect holds the lock of its schedule. */
  ghost predicate ClaimsLocked(db: Db, call: Call) {
    call.channel == Http && !call.locked ==>
      && !call.phase.Claimed? && !call.phase.Sealed?
      && (call.phase.Cleared? ==> ScopeOf(call.request) in db.receipts)
  }

  /** Two calls never hold the lock of one schedule at a time, and no new effect comes without it. */
  ghost predicate LocksOk(w: World) {
    && (forall c, d | c in w.calls && d in w.calls && c != d && w.calls[c].locked && w.calls[d].locked ::
          w.calls[c].request.schedule != w.calls[d].request.schedule)
    && (forall c | c in w.calls :: ClaimsLocked(w.db, w.calls[c]))
  }

  lemma {:induction false} LocksAreExclusive(moves: seq<Move>)
    ensures LocksOk(Run(moves))
  {
    if moves != [] {
      LocksAreExclusive(moves[..|moves| - 1]);
      NextKeepsLocks(Run(moves[..|moves| - 1]), moves[|moves| - 1]);
    }
  }

  lemma NextKeepsLocks(w: World, m: Move)
    requires LocksOk(w)
    ensures LocksOk(Next(w, m))
  {
    hide HasOpen, Act, Recorded;
    match m
    case Begin(_, _, _) =>
    case CloseAttempt(_) =>
    case Advance(c, action) => if c in w.calls { ActKeepsLocks(w, c, action); }
  }

  lemma EndKeepsLocks(w: World, c: Client, outcome: Outcome)
    requires LocksOk(w) && c in w.calls
    ensures LocksOk(End(w, c, outcome))
  {
    hide ClaimsLocked;
  }

  lemma SetKeepsLocks(w: World, c: Client, call: Call)
    requires LocksOk(w) && ClaimsLocked(w.db, call) && (call.locked ==> !ScheduleHeld(w, c, call.request.schedule))
    ensures LocksOk(w.(calls := w.calls[c := call]))
  {
    hide ClaimsLocked;
  }

  lemma PhaseKeepsLocks(w: World, c: Client, phase: Phase)
    requires LocksOk(w) && c in w.calls && ClaimsLocked(w.db, w.calls[c].(phase := phase))
    ensures LocksOk(To(w, c, phase))
  {
    hide ClaimsLocked;
    SetKeepsLocks(w, c, w.calls[c].(phase := phase));
  }

  lemma LockKeepsLocks(w: World, c: Client, preflight: Verdict)
    requires LocksOk(w) && c in w.calls
    ensures LocksOk(NextLock(w, c, preflight))
  {
    var call := w.calls[c];
    hide LocksOk, HasOpen, ScheduleHeld;
    if call.channel.Http? && call.phase.Unlocked? && !ScheduleHeld(w, c, call.request.schedule) {
      var locked := w.(calls := w.calls[c := call.(locked := true)]);
      SetKeepsLocks(w, c, call.(locked := true));
      EndKeepsLocks(locked, c, Conflict);
      EndKeepsLocks(locked, c, Blocked);
      EndKeepsLocks(locked, c, Failed);
      PhaseKeepsLocks(locked, c, Cleared);
    }
  }

  lemma CommitKeepsLocks(w: World, c: Client)
    requires LocksOk(w) && c in w.calls
    ensures LocksOk(NextCommit(w, c))
  {
    var call := w.calls[c];
    if call.phase.Sealed? {
      var db := Recorded(w.db, call.request, call.phase.attempt);
      forall d | d in w.calls ensures ClaimsLocked(db, w.calls[d]) { assert ClaimsLocked(w.db, w.calls[d]); }
      assert LocksOk(w.(db := db)) by { hide ClaimsLocked; }
      hide LocksOk;
      EndKeepsLocks(w.(db := db), c, Success(call.phase.attempt, false));
    } else if call.phase.Replaying? {
      EndKeepsLocks(w, c, Success(call.phase.attempt, true));
    }
  }

  lemma ActKeepsLocks(w: World, c: Client, action: Action)
    requires LocksOk(w) && c in w.calls
    ensures LocksOk(Act(w, c, action))
  {
    assert ClaimsLocked(w.db, w.calls[c]);
    hide LocksOk, HasOpen, ScopeHeld, ScheduleHeld, StepHeld, Unused, Recorded;
    EndKeepsLocks(w, c, Conflict);
    EndKeepsLocks(w, c, Blocked);
    EndKeepsLocks(w, c, Failed);
    match action
    case Read =>
      if w.calls[c].phase.Begun? { PhaseKeepsLocks(w, c, Unlocked); }
      if ScopeOf(w.calls[c].request) in w.db.receipts { PhaseKeepsLocks(w, c, Cleared); }
    case Lock(preflight) => LockKeepsLocks(w, c, preflight);
    case FirstGate(_) => if w.calls[c].channel.Mcp? { PhaseKeepsLocks(w, c, Cleared); }
    case Claim(newId) =>
      if w.calls[c].phase.Cleared? {
        if ScopeOf(w.calls[c].request) in w.db.receipts {
          PhaseKeepsLocks(w, c, Replaying(w.db.receipts[ScopeOf(w.calls[c].request)].outcome));
        } else {
          PhaseKeepsLocks(w, c, Claimed(newId));
        }
      }
    case Effect(_) => if w.calls[c].phase.Claimed? { PhaseKeepsLocks(w, c, Sealed(w.calls[c].phase.attempt)); }
    case Commit => CommitKeepsLocks(w, c);
    case Abort =>
  }

  /** No step ever has two open attempts. */
  lemma OneOpenAttempt(moves: seq<Move>, a: Id, b: Id)
    requires var db := Run(moves).db; a in db.attempts && b in db.attempts
    requires var db := Run(moves).db;
             db.attempts[a].isOpen && db.attempts[b].isOpen && db.attempts[a].step == db.attempts[b].step
    ensures a == b
  {
    RunKeepsInv(moves);
  }

  /** No call ever changes a committed receipt: the claim's upsert rewrites only a timestamp. The
      table has no trigger of its own, so this is what the calls keep, not what the schema enforces. */
  lemma {:induction false} ReceiptsArePermanent(moves: seq<Move>, k: nat, s: Scope)
    requires k <= |moves| && s in Run(moves[..k]).db.receipts
    ensures s in Run(moves).db.receipts && Run(moves).db.receipts[s] == Run(moves[..k]).db.receipts[s]
    decreases |moves|
  {
    if k == |moves| {
      assert moves[..k] == moves;
    } else {
      var init := moves[..|moves| - 1];
      assert init[..k] == moves[..k];
      ReceiptsArePermanent(init, k, s);
      RunKeepsInv(init);
      ReceiptStays(Run(init), moves[|moves| - 1], s);
    }
  }

  lemma ReceiptStays(w: World, m: Move, s: Scope)
    requires Inv(w) && s in w.db.receipts
    ensures s in Next(w, m).db.receipts && Next(w, m).db.receipts[s] == w.db.receipts[s]
  {
    if m.Advance? && m.client in w.calls && w.calls[m.client].phase.Sealed? {
      assert CallOk(w.db, w.calls[m.client]);
    }
  }

  /** A block by the third gate leaves no claim and no attempt behind: the tables are as they were
      and the key is free, held by nobody. */
  lemma BlockLeavesKeyFree(moves: seq<Move>, c: Client)
    requires c in Run(moves).calls && Run(moves).calls[c].phase.Claimed?
    ensures var w, scope := Run(moves), ScopeOf(Run(moves).calls[c].request);
            var blocked := Next(w, Advance(c, Effect(Block)));
            && blocked.db == w.db && blocked.history == w.history + [Finished(w.calls[c].request, Blocked)]
            && c !in blocked.calls && scope !in blocked.db.receipts && !ScopeHeld(blocked, c, scope)
  {
    var w := Run(moves);
    RunKeepsInv(moves);
    assert CallOk(w.db, w.calls[c]);
    assert forall d | d in w.calls && d != c :: Exclusive(w.calls[c], w.calls[d]);
  }

  /** The moves of one supervised call by a client. */
  function Supervised(w: World, c: Client, r: Request, g2: Verdict, g3: Verdict, newId: Id): World {
    var gated := Next(Next(w, Begin(c, Mcp, r)), Advance(c, FirstGate(g2)));
    var claimed := Next(gated, Advance(c, Claim(newId)));
    Next(Next(claimed, Advance(c, Effect(g3))), Advance(c, Commit))
  }

  /** On a key that is free and a step that nobody holds, any client's supervised call that both
      gates allow succeeds with a new attempt, whatever other calls are in progress: so a request
      that was blocked can be presented again under the same key. */
  lemma FreeKeySucceeds(w: World, c: Client, r: Request, newId: Id)
    requires c !in w.calls && ScopeOf(r) !in w.db.receipts && !ScopeHeld(w, c, ScopeOf(r))
    requires !StepHeld(w, c, r.step) && !HasOpen(w.db.attempts, r.step) && Unused(w, newId)
    ensures Supervised(w, c, r, Allow, Allow, newId)
         == World(Recorded(w.db, r, newId), w.calls, w.history + [Finished(r, Success(newId, false))])
  {
    hide Recorded, HasOpen, ScopeHeld, StepHeld, Unused;
    var cleared := w.(calls := w.calls[c := Call(Mcp, r, Cleared, false)]);
    var claimed := w.(calls := w.calls[c := Call(Mcp, r, Claimed(newId), false)]);
    var sealed := w.(calls := w.calls[c := Call(Mcp, r, Sealed(newId), false)]);
    assert Next(Next(w, Begin(c, Mcp, r)), Advance(c, FirstGate(Allow))) == cleared;
    OthersUnmoved(w, c, r, Cleared, newId);
    assert Next(cleared, Advance(c, Claim(newId))) == claimed;
    OthersUnmoved(w, c, r, Claimed(newId), newId);
    assert Next(claimed, Advance(c, Effect(Allow))) == sealed;
    assert sealed.calls - {c} == w.calls;
    assert Next(sealed, Advance(c, Commit))
        == World(Recorded(w.db, r, newId), w.calls, w.history + [Finished(r, Success(newId, false))]);
    hide Next;
  }

  lemma OthersUnmoved(w: World, c: Client, r: Request, phase: Phase, newId: Id)
    requires c !in w.calls && !ScopeHeld(w, c, ScopeOf(r)) && !StepHeld(w, c, r.step) && Unused(w, newId)
    ensures var w' := w.(calls := w.calls[c := Call(Mcp, r, phase, false)]);
            !ScopeHeld(w', c, ScopeOf(r)) && !StepHeld(w', c, r.step) && (phase.Cleared? ==> Unused(w', newId))
  {
  }

  /** The second read, under the schedule lock, turns the loser of a race between identical calls
      into a replay: whatever the preflight would have said of a new request, it ends in the
      attempt of the winner. */
  lemma RaceLoserReplays(w: World, c: Client, preflight: Verdict, newId: Id)
    requires c in w.calls && w.calls[c].channel == Http && w.calls[c].phase.Unlocked?
    requires !ScheduleHeld(w, c, w.calls[c].request.schedule) && !ScopeHeld(w, c, ScopeOf(w.calls[c].request))
    requires ScopeOf(w.calls[c].request) in w.db.receipts && Unused(w, newId)
    requires w.db.receipts[ScopeOf(w.calls[c].request)].fingerprint == FingerprintOf(w.calls[c].request)
    ensures var r := w.calls[c].request;
            var done := Next(Next(Next(w, Advance(c, Lock(preflight))), Advance(c, Claim(newId))), Advance(c, Commit));
            && done.db == w.db
            && done.history == w.history + [Finished(r, Success(w.db.receipts[ScopeOf(r)].outcome, true))]
  {
    var r := w.calls[c].request;
    var cleared := Next(w, Advance(c, Lock(preflight)));
    assert cleared.calls[c] == Call(Http, r, Cleared, true);
    assert forall d | d in cleared.calls && d != c :: d in w.calls && cleared.calls[d] == w.calls[d];
    var replaying := Next(cleared, Advance(c, Claim(newId)));
    assert replaying.calls[c] == Call(Http, r, Replaying(w.db.receipts[ScopeOf(r)].outcome), true);
  }

  /** A key committed for another request always ends the call in a conflict that changes nothing,
      wherever the call finds out: at its first read, at the second one under the lock, whatever the
      preflight would have said, or at the claim. */
  lemma OtherRequestConflicts(w: World, c: Client, preflight: Verdict, newId: Id)
    requires c in w.calls && ScopeOf(w.calls[c].request) in w.db.receipts
    requires w.db.receipts[ScopeOf(w.calls[c].request)].fingerprint != FingerprintOf(w.calls[c].request)
    ensures var call := w.calls[c];
            var conflict := World(w.db, w.calls - {c}, w.history + [Finished(call.request, Conflict)]);
            && (call.channel == Http && call.phase.Begun? ==> Next(w, Advance(c, Read)) == conflict)
            && (call.channel == Http && call.phase.Unlocked? && !ScheduleHeld(w, c, call.request.schedule) ==>
                  Next(w, Advance(c, Lock(preflight))) == conflict)
            && (call.phase.Cleared? && !ScopeHeld(w, c, ScopeOf(call.request)) && Unused(w, newId) ==>
                  Next(w, Advance(c, Claim(newId))) == conflict)
  {
    hide ScheduleHeld, ScopeHeld, Unused;
    var locked := w.(calls := w.calls[c := w.calls[c].(locked := true)]);
    assert locked.calls - {c} == w.calls - {c};
  }

  /** Alone, the moves of a supervised call do to the tables what the sequential call does. */
  lemma AloneIsSequential(w: World, c: Client, r: Request, g2: Verdict, g3: Verdict, newId: Id)
    requires w.calls == map[] && newId !in w.db.attempts
    ensures var (db, outcome) := SupervisedCall(w.db, r, g2, g3, newId);
            Supervised(w, c, r, g2, g3, newId) == World(db, map[], w.history + [Finished(r, outcome)])
  {
    hide HasOpen, Recorded;
    if g2 == Allow {
      if ScopeOf(r) !in w.db.receipts && g3 == Allow && !HasOpen(w.db.attempts, r.step) {
        FreeKeySucceeds(w, c, r, newId);
      } else {
        RefusedAlone(w, c, r, g3, newId);
      }
    }
  }

  lemma RefusedAlone(w: World, c: Client, r: Request, g3: Verdict, newId: Id)
    requires w.calls == map[] && newId !in w.db.attempts
    requires ScopeOf(r) in w.db.receipts || g3 != Allow || HasOpen(w.db.attempts, r.step)
    ensures var (db, outcome) := SupervisedCall(w.db, r, Allow, g3, newId);
            Supervised(w, c, r, Allow, g3, newId) == World(db, map[], w.history + [Finished(r, outcome)])
  {
    hide HasOpen, Recorded;
    var cleared := Next(Next(w, Begin(c, Mcp, r)), Advance(c, FirstGate(Allow)));
    assert cleared.calls == map[c := Call(Mcp, r, Cleared, false)];
    var claimed := Next(cleared, Advance(c, Claim(newId)));
    if ScopeOf(r) in w.db.receipts {
      assert claimed.calls == if w.db.receipts[ScopeOf(r)].fingerprint != FingerprintOf(r) then map[]
                              else map[c := Call(Mcp, r, Replaying(w.db.receipts[ScopeOf(r)].outcome), false)];
    } else {
      assert claimed.calls == map[c := Call(Mcp, r, Claimed(newId), false)];
    }
  }

  /** The moves of one manual call by a client. */
  function Manual(w: World, c: Client, r: Request, preflight: Verdict, again: Verdict, newId: Id): World {
    var locked := Next(Next(Next(w, Begin(c, Http, r)), Advance(c, Read)), Advance(c, Lock(preflight)));
    Next(Next(Next(locked, Advance(c, Claim(newId))), Advance(c, Effect(again))), Advance(c, Commit))
  }

  /** Alone, the moves of a manual call do to the tables what the sequential call does. */
  lemma ManualAloneIsSequential(w: World, c: Client, r: Request, preflight: Verdict, again: Verdict, newId: Id)
    requires w.calls == map[] && newId !in w.db.attempts
    ensures var (db, outcome) := ManualCall(w.db, r, preflight, again, newId);
            Manual(w, c, r, preflight, again, newId) == World(db, map[], w.history + [Finished(r, outcome)])
  {
    hide HasOpen, Recorded;
    var begun := Next(w, Begin(c, Http, r));
    assert begun.calls == map[c := Call(Http, r, Begun, false)];
    var read := Next(begun, Advance(c, Read));
    if ScopeOf(r) in w.db.receipts {
      if w.db.receipts[ScopeOf(r)].fingerprint == FingerprintOf(r) {
        assert read.calls == map[c := Call(Http, r, Cleared, false)];
        assert Next(read, Advance(c, Claim(newId))).calls
            == map[c := Call(Http, r, Replaying(w.db.receipts[ScopeOf(r)].outcome), false)];
      } else {
        assert read.calls == map[];
      }
    } else {
      assert read.calls == map[c := Call(Http, r, Unlocked, false)];
      ManualFresh(w, c, r, preflight, again, newId);
    }
  }

  lemma ManualFresh(w: World, c: Client, r: Request, preflight: Verdict, again: Verdict, newId: Id)
    requires w.calls == map[] && newId !in w.db.attempts && ScopeOf(r) !in w.db.receipts
    ensures var read := w.(calls := map[c := Call(Http, r, Unlocked, false)]);
            var claimed := Next(Next(read, Advance(c, Lock(preflight))), Advance(c, Claim(newId)));
            var (db, outcome) := ManualCall(w.db, r, preflight, again, newId);
            Next(Next(claimed, Advance(c, Effect(again))), Advance(c, Commit))
              == World(db, map[], w.history + [Finished(r, outcome)])
  {
    hide HasOpen, Recorded;
    var read := w.(calls := map[c := Call(Http, r, Unlocked, false)]);
    var locked := Next(read, Advance(c, Lock(preflight)));
    if preflight == Allow && !HasOpen(w.db.attempts, r.step) {
      assert locked.calls == map[c := Call(Http, r, Cleared, true)];
      var claimed := Next(locked, Advance(c, Claim(newId)));
      assert claimed.calls == map[c := Call(Http, r, Claimed(newId), true)];
    } else {
      assert locked.calls == map[];
    }
  }
}
