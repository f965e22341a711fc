/** Service delegations under arbitrary SQL from any number of concurrent sessions: the lifecycle
    trigger, the row checks, the partial index on active rows, and the foreign key to the consuming
    attempt that is checked at commit. */
module Delegations {
  import opened Results
  import opened Canonical

  type Id = nat
  type Instant = int

  datatype State = Active | Consumed | Revoked | Expired

  datatype Binding = Binding(schedule: Id, step: Id, contentSha256: string, scope: string, grantedBy: string,
                             validUntil: Instant, createdAt: Instant)

  datatype Delegation = Delegation(binding: Binding, state: State, consumedAt: Option<Instant>, consumedBy: Option<Id>)

  datatype Route = Route(step: Id, schedule: Id)

  datatype Db = Db(delegations: map<Id, Delegation>, attempts: map<Id, Route>)

  datatype Statement =
    | InsertDelegation(id: Id, row: Delegation)
    | UpdateDelegation(id: Id, newId: Id, row: Delegation)
    | DeleteDelegation(id: Id)
    | TruncateDelegations
    | InsertAttempt(attempt: Id, route: Route)
    | DeleteAttempt(attempt: Id)

  predicate RowChecks(d: Delegation) {
    && |d.binding.contentSha256| == 64 && !SqlBlank(d.binding.grantedBy)
    && (d.state == Consumed <==> d.consumedAt.Some?)
    && (d.state == Consumed <==> d.consumedBy.Some?)
  }

  /** The key of the index over active rows. */
  function ActiveKey(d: Delegation): (Id, Id, string) { (d.binding.schedule, d.binding.step, d.binding.scope) }

  predicate ActiveKeyFree(delegations: map<Id, Delegation>, d: Delegation) {
    d.state == Active ==>
      forall x | x in delegations && delegations[x].state == Active :: ActiveKey(delegations[x]) != ActiveKey(d)
  }

  /** What the trigger lets an UPDATE do. */
  predicate GuardAllows(id: Id, before: Delegation, newId: Id, after: Delegation) {
    && before.state == Active
    && after.state in {Consumed, Revoked, Expired}
    && newId == id && after.binding == before.binding
  }

  /** The state after a statement, or nothing when the database raises. */
  function Execute(db: Db, s: Statement): Option<Db> {
    match s
    case InsertDelegation(id, row) =>
      if id in db.delegations || !RowChecks(row) || !ActiveKeyFree(db.delegations, row) then None
      else Some(db.(delegations := db.delegations[id := row]))
    case UpdateDelegation(id, newId, row) =>
      if id !in db.delegations then Some(db)
      else if !GuardAllows(id, db.delegations[id], newId, row) || !RowChecks(row) then None
      else Some(db.(delegations := db.delegations[id := row]))
    case DeleteDelegation(id) => if id in db.delegations then None else Some(db)
    case TruncateDelegations => None
    case InsertAttempt(a, route) => if a in db.attempts then None else Some(db.(attempts := db.attempts[a := route]))
    case DeleteAttempt(a) => Some(db.(attempts := db.attempts - {a}))
  }

  /** Checked at commit: each consumed delegation names an attempt of its own step and schedule. */
  predicate ReferencesHold(db: Db) {
    forall x | x in db.delegations && db.delegations[x].consumedBy.Some? ::
      && db.delegations[x].consumedBy.value in db.attempts
      && db.attempts[db.delegations[x].consumedBy.value]
         == Route(db.delegations[x].binding.step, db.delegations[x].binding.schedule)
  }

  // ----- concurrent sessions

  type Client = nat

  /** What a session has written and not committed. */
  datatype Overlay = Overlay(rows: map<Id, Delegation>, added: map<Id, Route>, removed: set<Id>)

  const NOTHING := Overlay(map[], map[], {})

  datatype World = World(committed: Db, sessions: map<Client, Overlay>)

  datatype Step = Run(client: Client, statement: Statement) | Commit(client: Client) | Rollback(client: Client)

  const EMPTY := Db(map[], map[])

  function OverlayOf(w: World, c: Client): Overlay { if c in w.sessions then w.sessions[c] else NOTHING }

  /** The latest committed rows under the session's own writes. */
  function View(db: Db, o: Overlay): Db {
    Db(db.delegations + o.rows, (db.attempts - o.removed) + o.added)
  }

  /** The session's writes after an accepted statement. */
  function Write(db: Db, o: Overlay, s: Statement): Overlay {
    match s
    case InsertDelegation(id, row) => o.(rows := o.rows[id := row])
    case UpdateDelegation(id, _, row) => if id in View(db, o).delegations then o.(rows := o.rows[id := row]) else o
    case InsertAttempt(a, route) => o.(added := o.added[a := route])
    case DeleteAttempt(a) => o.(removed := o.removed + {a}, added := o.added - {a})
    case _ => o
  }

  /** A dirty row of another session that occupies a key of the index: active there, or still active
      in the committed version it replaces. */
  predicate OccupiesKey(db: Db, o: Overlay, x: Id, d: Delegation) {
    && x in o.rows && ActiveKey(o.rows[x]) == ActiveKey(d)
    && (o.rows[x].state == Active || (x in db.delegations && db.delegations[x].state == Active))
  }

  /** The statement must wait for the other session: it needs a row or a key that the other has
      written and not committed. */
  predicate WaitsFor(db: Db, o: Overlay, s: Statement) {
    match s
    case InsertDelegation(id, row) =>
      id in o.rows || (row.state == Active && exists x | x in o.rows :: OccupiesKey(db, o, x, row))
    case UpdateDelegation(id, _, _) => id in o.rows && id in db.delegations
    case DeleteDelegation(id) => id in o.rows && id in db.delegations
    case TruncateDelegations => o != NOTHING
    case InsertAttempt(a, _) => a in o.added || a in o.removed
    case DeleteAttempt(a) => a in o.removed
  }

  predicate Waits(w: World, c: Client, s: Statement) {
    exists d | d in w.sessions :: d != c && WaitsFor(w.committed, w.sessions[d], s)
  }

  function Discard(w: World, c: Client): World { w.(sessions := w.sessions - {c}) }

  /** A statement that raises and a deferred check that fails abort their transaction. */
  function Next(w: World, step: Step): World {
    match step
    case Run(c, s) =>
      var o := OverlayOf(w, c);
      if Waits(w, c, s) then w
      else if Execute(View(w.committed, o), s).None? then Discard(w, c)
      else w.(sessions := w.sessions[c := Write(w.committed, o, s)])
    case Commit(c) =>
      var merged := View(w.committed, OverlayOf(w, c));
      if ReferencesHold(merged) then World(merged, w.sessions - {c}) else Discard(w, c)
    case Rollback(c) => Discard(w, c)
  }

  function After(steps: seq<Step>): World {
    if steps == [] then World(EMPTY, map[]) else Next(After(steps[..|steps| - 1]), steps[|steps| - 1])
  }

  // ----- what every state satisfies

  predicate Sound(db: Db) {
    && (forall x | x in db.delegations :: RowChecks(db.delegations[x]))
    && (forall x, y | x in db.delegations && y in db.delegations
          && db.delegations[x].state == Active && db.delegations[y].state == Active
          && ActiveKey(db.delegations[x]) == ActiveKey(db.delegations[y]) :: x == y)
  }

  /** The later row is the earlier one, or its single transition out of the active state. */
  predicate OneTransition(before: Delegation, after: Delegation) {
    after == before || (before.state == Active && after.state != Active && after.binding == before.binding)
  }

  /** No delegation is lost, and each made at most one transition. */
  predicate Evolves(before: Db, after: Db) {
    forall x | x in before.delegations ::
      x in after.delegations && OneTransition(before.delegations[x], after.delegations[x])
  }

  lemma ExecuteIsSound(db: Db, s: Statement)
    requires Sound(db) && Execute(db, s).Some?
    ensures Sound(Execute(db, s).value) && Evolves(db, Execute(db, s).value)
  {
    hide RowChecks;
  }

  lemma EvolvesTransitively(a: Db, b: Db, c: Db)
    requires Evolves(a, b) && Evolves(b, c)
    ensures Evolves(a, c)
  {
  }

  lemma ItselfEvolves(db: Db)
    ensures Evolves(db, db)
  {
  }

  /** A session's writes put together what its statements executed. */
  lemma WriteIsExecute(db: Db, o: Overlay, s: Statement)
    requires Execute(View(db, o), s).Some?
    ensures View(db, Write(db, o, s)) == Execute(View(db, o), s).value
  {
    hide RowChecks, ActiveKeyFree, GuardAllows;
    match s
    case InsertDelegation(id, row) => WriteRow(db, o, id, row);
    case UpdateDelegation(id, _, row) => WriteRow(db, o, id, row);
    case InsertAttempt(a, route) => WriteAttempt(db, o, a, route);
    case DeleteAttempt(a) => WriteAttempt(db, o, a, Route(0, 0));
    case _ =>
  }

  lemma WriteRow(db: Db, o: Overlay, id: Id, row: Delegation)
    ensures View(db, o.(rows := o.rows[id := row]))
         == View(db, o).(delegations := View(db, o).delegations[id := row])
  {
    assert db.delegations + o.rows[id := row] == (db.delegations + o.rows)[id := row];
  }

  lemma WriteAttempt(db: Db, o: Overlay, a: Id, route: Route)
    ensures View(db, o.(added := o.added[a := route])).attempts == View(db, o).attempts[a := route]
    ensures View(db, o.(removed := o.removed + {a}, added := o.added - {a})).attempts == View(db, o).attempts - {a}
  {
    assert (db.attempts - o.removed) + o.added[a := route] == ((db.attempts - o.removed) + o.added)[a := route];
    assert (db.attempts - (o.removed + {a})) + (o.added - {a}) == ((db.attempts - o.removed) + o.added) - {a};
  }

  /** What a session sees is sound, and its rows are at most one transition away from the committed
      ones they replace. */
  predicate SessionOk(db: Db, o: Overlay) { Sound(View(db, o)) && Evolves(db, View(db, o)) }

  /** Two sessions never write the same row, nor rows active under the same key. */
  predicate Apart(a: Overlay, b: Overlay) {
    && (forall x | x in a.rows :: x !in b.rows)
    && (forall x, y | x in a.rows && y in b.rows && a.rows[x].state == Active && b.rows[y].state == Active ::
          ActiveKey(a.rows[x]) != ActiveKey(b.rows[y]))
  }

  predicate Consistent(w: World) {
    && Sound(w.committed) && ReferencesHold(w.committed)
    && (forall c | c in w.sessions :: SessionOk(w.committed, w.sessions[c]))
    && (forall c, d | c in w.sessions && d in w.sessions && c != d :: Apart(w.sessions[c], w.sessions[d]))
  }

  lemma OwnSession(w: World, c: Client)
    requires Consistent(w)
    ensures SessionOk(w.committed, OverlayOf(w, c))
    ensures forall d | d in w.sessions && d != c :: Apart(OverlayOf(w, c), w.sessions[d])
  {
    hide Sound, Evolves, ReferencesHold;
    if c !in w.sessions {
      assert View(w.committed, NOTHING) == w.committed;
      ItselfEvolves(w.committed);
    }
  }

  lemma WriteKeepsApart(db: Db, o: Overlay, other: Overlay, s: Statement)
    requires Apart(o, other) && Execute(View(db, o), s).Some? && !WaitsFor(db, other, s)
    ensures Apart(Write(db, o, s), other)
  {
    hide RowChecks, ActiveKeyFree;
    if s.InsertDelegation? && s.row.state == Active {
      forall y | y in other.rows && other.rows[y].state == Active ensures ActiveKey(s.row) != ActiveKey(other.rows[y]) {
        assert !OccupiesKey(db, other, y, s.row);
      }
    }
  }

  lemma WriteKeepsSession(db: Db, o: Overlay, s: Statement)
    requires SessionOk(db, o) && Execute(View(db, o), s).Some?
    ensures SessionOk(db, Write(db, o, s))
  {
    hide Sound, Evolves, Execute;
    WriteIsExecute(db, o, s);
    ExecuteIsSound(View(db, o), s);
    EvolvesTransitively(db, View(db, o), View(db, Write(db, o, s)));
  }

  lemma ApartIsSymmetric(a: Overlay, b: Overlay)
    requires Apart(a, b)
    ensures Apart(b, a)
  {
  }

  lemma RunKeepsConsistent(w: World, c: Client, s: Statement)
    requires Consistent(w)
    ensures Consistent(Next(w, Run(c, s)))
  {
    hide Sound, ReferencesHold, Execute, WaitsFor, View, Write, Apart;
    var o := OverlayOf(w, c);
    OwnSession(w, c);
    if !Waits(w, c, s) && Execute(View(w.committed, o), s).Some? {
      WriteKeepsSession(w.committed, o, s);
      forall d | d in w.sessions && d != c
        ensures Apart(Write(w.committed, o, s), w.sessions[d]) && Apart(w.sessions[d], Write(w.committed, o, s))
      {
        WriteKeepsApart(w.committed, o, w.sessions[d], s);
        ApartIsSymmetric(Write(w.committed, o, s), w.sessions[d]);
      }
    }
  }

  /** A session that excludes the one that commits keeps what it has. */
  lemma SessionSurvives(db: Db, mine: Overlay, other: Overlay)
    requires SessionOk(db, mine) && SessionOk(db, other) && Apart(mine, other)
    ensures SessionOk(View(db, mine), other)
  {
    hide RowChecks;
    var merged := View(db, mine);
    var view := View(merged, other);
    forall x | x in view.delegations ensures RowChecks(view.delegations[x]) {
      assert x in other.rows ==> view.delegations[x] == View(db, other).delegations[x];
      assert x !in other.rows ==> view.delegations[x] == merged.delegations[x];
    }
    forall x, y | x in view.delegations && y in view.delegations && x != y
                  && view.delegations[x].state == Active && view.delegations[y].state == Active
      ensures ActiveKey(view.delegations[x]) != ActiveKey(view.delegations[y])
    {
      KeysStayApart(db, mine, other, x, y);
    }
    forall x | x in merged.delegations ensures OneTransition(merged.delegations[x], view.delegations[x]) {
      if x in other.rows { assert x in db.delegations; }
    }
  }

  lemma KeysStayApart(db: Db, mine: Overlay, other: Overlay, x: Id, y: Id)
    requires Sound(View(db, mine)) && Sound(View(db, other)) && Apart(mine, other) && x != y
    requires var all := View(View(db, mine), other).delegations;
             x in all && y in all && all[x].state == Active && all[y].state == Active
    ensures var all := View(View(db, mine), other).delegations; ActiveKey(all[x]) != ActiveKey(all[y])
  {
    hide RowChecks;
    var all := View(View(db, mine), other).delegations;
    var first, second := View(db, mine).delegations, View(db, other).delegations;
    if x !in mine.rows && y !in mine.rows {
      assert all[x] == second[x] && all[y] == second[y];
    } else if x !in other.rows && y !in other.rows {
      assert all[x] == first[x] && all[y] == first[y];
    } else {
      assert (x in mine.rows && y in other.rows) || (y in mine.rows && x in other.rows);
    }
  }

  lemma CommitKeepsConsistent(w: World, c: Client)
    requires Consistent(w)
    ensures Consistent(Next(w, Commit(c)))
    ensures Evolves(w.committed, Next(w, Commit(c)).committed)
  {
    hide Sound, ReferencesHold, Apart, View, Evolves;
    OwnSession(w, c);
    ItselfEvolves(w.committed);
    forall d | d in w.sessions && d != c ensures SessionOk(View(w.committed, OverlayOf(w, c)), w.sessions[d]) {
      SessionSurvives(w.committed, OverlayOf(w, c), w.sessions[d]);
    }
  }

  lemma NextIsConsistent(w: World, step: Step)
    requires Consistent(w)
    ensures Consistent(Next(w, step)) && Evolves(w.committed, Next(w, step).committed)
  {
    hide Sound, ReferencesHold, Apart, SessionOk, Evolves;
    match step
    case Run(c, s) =>
      RunKeepsConsistent(w, c, s);
      ItselfEvolves(w.committed);
    case Commit(c) => CommitKeepsConsistent(w, c);
    case Rollback(_) => ItselfEvolves(w.committed);
  }

  lemma {:induction false} AfterIsConsistent(steps: seq<Step>)
    ensures Consistent(After(steps))
  {
    hide Consistent, Next, Evolves;
    if steps == [] {
      EmptyIsConsistent();
    } else {
      AfterIsConsistent(steps[..|steps| - 1]);
      NextIsConsistent(After(steps[..|steps| - 1]), steps[|steps| - 1]);
    }
  }

  lemma EmptyIsConsistent()
    ensures Consistent(World(EMPTY, map[]))
  {
  }

  lemma {:induction false} CommittedEvolves(steps: seq<Step>, k: nat)
    requires k <= |steps|
    ensures Evolves(After(steps[..k]).committed, After(steps).committed)
    decreases |steps|
  {
    hide Consistent, Next, Evolves;
    if k == |steps| {
      assert steps[..k] == steps;
      ItselfEvolves(After(steps).committed);
    } else {
      var init := steps[..|steps| - 1];
      assert init[..k] == steps[..k];
      CommittedEvolves(init, k);
      AfterIsConsistent(init);
      NextIsConsistent(After(init), steps[|steps| - 1]);
      EvolvesTransitively(After(steps[..k]).committed, After(init).committed, After(steps).committed);
    }
  }

  // ----- over every interleaving of sessions

  /** Whatever the sessions do, a committed delegation is never deleted, its binding never changes,
      and it changes state at most once: once it is terminal it is frozen entirely. */
  lemma SingleUse(steps: seq<Step>, k: nat, x: Id)
    requires k <= |steps| && x in After(steps[..k]).committed.delegations
    ensures x in After(steps).committed.delegations
    ensures var before, after := After(steps[..k]).committed.delegations[x], After(steps).committed.delegations[x];
            && after.binding == before.binding
            && (before.state != Active ==> after == before)
            && (after.state == Active ==> after == before)
  {
    CommittedEvolves(steps, k);
  }

  /** Delegated for one schedule, step and scope. */
  predicate SameStep(a: Delegation, b: Delegation) {
    a.binding.schedule == b.binding.schedule && a.binding.step == b.binding.step && a.binding.scope == b.binding.scope
  }

  /** At every commit: at most one delegation is active per schedule, step and scope; and a
      delegation is consumed exactly when it names, with the instant, an existing attempt of its
      own step and schedule. */
  lemma CommittedState(steps: seq<Step>, x: Id, y: Id)
    requires x in After(steps).committed.delegations && y in After(steps).committed.delegations
    ensures var db := After(steps).committed; var d := db.delegations[x];
            && (d.state == Active && db.delegations[y].state == Active && SameStep(d, db.delegations[y]) ==> x == y)
            && (d.state == Consumed <==> d.consumedBy.Some?) && (d.state == Consumed <==> d.consumedAt.Some?)
            && (d.state == Consumed ==>
                  d.consumedBy.value in db.attempts
                  && db.attempts[d.consumedBy.value] == Route(d.binding.step, d.binding.schedule))
  {
    AfterIsConsistent(steps);
    assert RowChecks(After(steps).committed.delegations[x]);
  }

  // ----- what is legal is accepted

  /** An update of a stored row is accepted exactly when the row is active and stays itself in id and
      binding, goes to one of the three terminal states, and is stamped exactly when consumed. */
  lemma UpdateAcceptedIff(db: Db, x: Id, newId: Id, row: Delegation)
    requires Sound(db) && x in db.delegations
    ensures Execute(db, UpdateDelegation(x, newId, row)).Some?
       <==> && db.delegations[x].state == Active
            && newId == x && row.binding == db.delegations[x].binding
            && (|| (row.state == Consumed && row.consumedAt.Some? && row.consumedBy.Some?)
                || (row.state in {Revoked, Expired} && row.consumedAt.None? && row.consumedBy.None?))
    ensures Execute(db, UpdateDelegation(x, newId, row)).Some? ==>
      Execute(db, UpdateDelegation(x, newId, row)).value == db.(delegations := db.delegations[x := row])
  {
    hide SqlBlank;
    assert RowChecks(db.delegations[x]);
  }

  /** A delegation is inserted exactly under a new id, with a digest of 64 characters, a grantor that is
      not blank, both stamps exactly when consumed, and, if active, without another active one for its step. */
  lemma InsertAcceptedIff(db: Db, x: Id, row: Delegation)
    ensures Execute(db, InsertDelegation(x, row)).Some?
       <==> && x !in db.delegations && |row.binding.contentSha256| == 64 && !SqlBlank(row.binding.grantedBy)
            && (row.state == Consumed <==> row.consumedAt.Some?) && (row.consumedAt.Some? <==> row.consumedBy.Some?)
            && (row.state == Active ==>
                  forall y | y in db.delegations && db.delegations[y].state == Active ::
                    !SameStep(db.delegations[y], row))
    ensures Execute(db, InsertDelegation(x, row)).Some? ==>
      Execute(db, InsertDelegation(x, row)).value == db.(delegations := db.delegations[x := row])
  {
    hide SqlBlank;
  }

  /** Whom a statement waits for: a session that has written the same committed row, or a row that holds
      its step in the index of active delegations, there or in the version it replaces; inserting an id
      waits for whoever has inserted it, and truncation for anyone who has written at all. */
  lemma WaitsIff(db: Db, o: Overlay, x: Id, newId: Id, row: Delegation, route: Route)
    ensures WaitsFor(db, o, InsertDelegation(x, row))
       <==> || x in o.rows
            || (row.state == Active
                && exists y :: && y in o.rows && SameStep(o.rows[y], row)
                               && (|| o.rows[y].state == Active
                                   || (y in db.delegations && db.delegations[y].state == Active)))
    ensures WaitsFor(db, o, UpdateDelegation(x, newId, row)) <==> x in o.rows && x in db.delegations
    ensures WaitsFor(db, o, DeleteDelegation(x)) <==> x in o.rows && x in db.delegations
    ensures WaitsFor(db, o, TruncateDelegations) <==> o.rows != map[] || o.added != map[] || o.removed != {}
    ensures WaitsFor(db, o, InsertAttempt(x, route)) <==> x in o.added || x in o.removed
    ensures WaitsFor(db, o, DeleteAttempt(x)) <==> x in o.removed
  {
    if y :| && y in o.rows && SameStep(o.rows[y], row)
            && (o.rows[y].state == Active || (y in db.delegations && db.delegations[y].state == Active))
    {
      assert OccupiesKey(db, o, y, row);
    }
  }

  /** Deleting a stored delegation and truncating the table are refused; what is not stored is neither
      deleted nor updated; attempts are inserted under new ids and deleted freely until a commit. */
  lemma OtherStatements(db: Db, x: Id, newId: Id, row: Delegation, route: Route)
    ensures Execute(db, DeleteDelegation(x)) == if x in db.delegations then None else Some(db)
    ensures Execute(db, TruncateDelegations).None?
    ensures x !in db.delegations ==> Execute(db, UpdateDelegation(x, newId, row)) == Some(db)
    ensures Execute(db, InsertAttempt(x, route))
         == if x in db.attempts then None else Some(Db(db.delegations, db.attempts[x := route]))
    ensures Execute(db, DeleteAttempt(x)) == Some(Db(db.delegations, db.attempts - {x}))
  {
  }

  /** Any session may consume an active delegation under a new attempt of its own step and schedule:
      when no other session has written either, the three statements commit exactly that. */
  lemma ConsumptionCommits(w: World, c: Client, x: Id, attempt: Id, at: Instant)
    requires Sound(w.committed) && ReferencesHold(w.committed) && c !in w.sessions
    requires x in w.committed.delegations && w.committed.delegations[x].state == Active
    requires attempt !in w.committed.attempts
    requires forall d | d in w.sessions ::
               x !in w.sessions[d].rows && attempt !in w.sessions[d].added && attempt !in w.sessions[d].removed
    ensures var before := w.committed.delegations[x];
            var used := before.(state := Consumed, consumedAt := Some(at), consumedBy := Some(attempt));
            var route := Route(before.binding.step, before.binding.schedule);
            var done := Next(Next(Next(w, Run(c, InsertAttempt(attempt, route))),
                                  Run(c, UpdateDelegation(x, x, used))), Commit(c));
            && done.committed == Db(w.committed.delegations[x := used], w.committed.attempts[attempt := route])
            && done.sessions == w.sessions
  {
    var db, before := w.committed, w.committed.delegations[x];
    var used := before.(state := Consumed, consumedAt := Some(at), consumedBy := Some(attempt));
    var route := Route(before.binding.step, before.binding.schedule);
    hide Next, Sound, Execute, SessionOk, Apart, ReferencesHold, View;
    var one := Next(w, Run(c, InsertAttempt(attempt, route)));
    var two := Next(one, Run(c, UpdateDelegation(x, x, used)));
    AttemptIsWritten(w, c, attempt, route);
    ConsumptionIsWritten(w, one, c, x, attempt, route, used);
    ReferencesStillHold(db, x, used, attempt);
    WritesCommit(w, two, c, Db(db.delegations[x := used], db.attempts[attempt := route]),
                 Overlay(map[x := used], map[attempt := route], {}));
  }

  lemma AttemptIsWritten(w: World, c: Client, attempt: Id, route: Route)
    requires c !in w.sessions && attempt !in w.committed.attempts
    requires forall d | d in w.sessions :: attempt !in w.sessions[d].added && attempt !in w.sessions[d].removed
    ensures Next(w, Run(c, InsertAttempt(attempt, route)))
         == w.(sessions := w.sessions[c := Overlay(map[], map[attempt := route], {})])
  {
    assert View(w.committed, NOTHING) == w.committed;
    assert !Waits(w, c, InsertAttempt(attempt, route));
    assert NOTHING.added[attempt := route] == map[attempt := route];
  }

  lemma ConsumptionIsWritten(w: World, one: World, c: Client, x: Id, attempt: Id, route: Route, used: Delegation)
    requires Sound(w.committed) && x in w.committed.delegations && w.committed.delegations[x].state == Active
    requires one == w.(sessions := w.sessions[c := Overlay(map[], map[attempt := route], {})])
    requires used.binding == w.committed.delegations[x].binding
    requires used.state == Consumed && used.consumedAt.Some? && used.consumedBy.Some?
    requires forall d | d in w.sessions :: x !in w.sessions[d].rows
    ensures Next(one, Run(c, UpdateDelegation(x, x, used)))
         == w.(sessions := w.sessions[c := Overlay(map[x := used], map[attempt := route], {})])
  {
    var view := Db(w.committed.delegations, w.committed.attempts[attempt := route]);
    assert View(w.committed, Overlay(map[], map[attempt := route], {})) == view;
    UpdateAcceptedIff(view, x, x, used);
    hide Sound, Execute;
    assert !Waits(one, c, UpdateDelegation(x, x, used));
    hide Waits;
    assert Write(w.committed, one.sessions[c], UpdateDelegation(x, x, used))
        == Overlay(map[x := used], map[attempt := route], {});
  }

  lemma WritesCommit(w: World, two: World, c: Client, after: Db, all: Overlay)
    requires c !in w.sessions && two == w.(sessions := w.sessions[c := all])
    requires after.delegations == w.committed.delegations + all.rows
    requires after.attempts == w.committed.attempts + all.added && all.removed == {}
    requires ReferencesHold(after)
    ensures Next(two, Commit(c)) == World(after, w.sessions)
  {
    hide ReferencesHold;
    assert View(w.committed, all) == after;
    assert two.sessions - {c} == w.sessions;
  }

  lemma ReferencesStillHold(db: Db, x: Id, used: Delegation, attempt: Id)
    requires ReferencesHold(db) && attempt !in db.attempts && used.consumedBy == Some(attempt)
    ensures ReferencesHold(Db(db.delegations[x := used],
                              db.attempts[attempt := Route(used.binding.step, used.binding.schedule)]))
  {
  }
}
