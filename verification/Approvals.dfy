/** Approval records under arbitrary SQL: one transition out of the active state, an immutable
    binding, and no row-level deletion. */
module Approvals {
  import opened Results

  type Id = nat
  type Instant = int

  datatype State = Active | Consumed | Revoked

  /** The columns the trigger compares. */
  datatype Binding = Binding(nonce: Id, operation: string, principal: string, assurance: string, workspace: Id,
                             purpose: string, channel: string, governance: string,
                             itemCount: int, volumeKnown: bool, bytesTotal: Option<int>,
                             materializedAt: Instant, authenticatedAt: Instant, issuedAt: Instant, confirmedAt: Instant,
                             expiresAt: Instant)

  datatype Record = Record(binding: Binding, createdAt: Instant, state: State, consumedAt: Option<Instant>,
                           revokedAt: Option<Instant>)

  type Table = map<Id, Record>

  datatype Statement =
    | Insert(id: Id, row: Record)
    | Update(id: Id, newId: Id, row: Record)
    | Delete(id: Id)
    | Truncate(alongside: set<Referrer>, cascade: bool)

  /** The two tables that refer to this one. */
  datatype Referrer = Targets | GovernanceItems

  predicate StampsMatchState(r: Record) {
    match r.state
    case Active => r.consumedAt.None? && r.revokedAt.None?
    case Consumed => r.consumedAt.Some? && r.revokedAt.None?
    case Revoked => r.revokedAt.Some? && r.consumedAt.None?
  }

  predicate RowChecks(id: Id, r: Record) {
    var b := r.binding;
    && b.nonce != id && b.itemCount >= 0
    && (if b.volumeKnown then b.bytesTotal.Some? && b.bytesTotal.value >= 0 else b.bytesTotal.None?)
    && b.materializedAt <= b.authenticatedAt <= b.confirmedAt
    && b.materializedAt <= b.issuedAt <= b.confirmedAt < b.expiresAt
    && StampsMatchState(r)
  }

  predicate NonceFree(t: Table, id: Id, r: Record) {
    forall x | x in t && x != id :: t[x].binding.nonce != r.binding.nonce
  }

  /** What the trigger lets an UPDATE do. The creation instant is not among the columns it
      compares. */
  predicate GuardAllows(id: Id, before: Record, newId: Id, after: Record) {
    && newId == id && after.binding == before.binding
    && before.state == Active
    && (after.state == Consumed ==> after.consumedAt.Some? && after.revokedAt.None?)
    && (after.state == Revoked ==> after.revokedAt.Some? && after.consumedAt.None?)
    && after.state != Active
  }

  /** A TRUNCATE of this table is refused while a table that refers to it is neither named in the
      same statement nor reached by CASCADE; no trigger stands in the way of one that covers both. */
  predicate Clears(s: Statement) { s.Truncate? && (s.cascade || s.alongside == {Targets, GovernanceItems}) }

  /** Row triggers guard UPDATE and DELETE. */
  function Execute(t: Table, s: Statement): Option<Table> {
    match s
    case Insert(id, row) =>
      if id in t || !RowChecks(id, row) || !NonceFree(t, id, row) then None else Some(t[id := row])
    case Update(id, newId, row) =>
      if id !in t then Some(t)
      else if !GuardAllows(id, t[id], newId, row) || !RowChecks(id, row) then None
      else Some(t[id := row])
    case Delete(id) => if id in t then None else Some(t)
    case Truncate(_, _) => if Clears(s) then Some(map[]) else None
  }

  datatype World = World(committed: Table, working: Table)

  datatype Step = Run(statement: Statement) | Commit | Rollback

  function Next(w: World, step: Step): World {
    match step
    case Run(s) =>
      (match Execute(w.working, s)
       case Some(t) => World(w.committed, t)
       case None => World(w.committed, w.committed))
    case Commit => World(w.working, w.working)
    case Rollback => World(w.committed, w.committed)
  }

  function After(w: World, steps: seq<Step>): World {
    if steps == [] then w else Next(After(w, steps[..|steps| - 1]), steps[|steps| - 1])
  }

  /** The later record is the earlier one, or its single transition out of the active state. */
  predicate OneTransition(before: Record, after: Record) {
    || after == before
    || (before.state == Active && after.state != Active && after.binding == before.binding && StampsMatchState(after))
  }

  predicate Evolves(before: Table, after: Table) {
    forall x | x in before :: x in after && OneTransition(before[x], after[x])
  }

  lemma ExecuteEvolves(t: Table, s: Statement)
    requires Execute(t, s).Some? && !Clears(s)
    ensures Evolves(t, Execute(t, s).value)
  {
  }

  lemma EvolvesTransitively(a: Table, b: Table, c: Table)
    requires Evolves(a, b) && Evolves(b, c)
    ensures Evolves(a, c)
  {
  }

  lemma ItselfEvolves(t: Table)
    ensures Evolves(t, t)
  {
  }

  // ----- which truncations take effect

  /** The open transaction has executed a clearing truncation. */
  predicate Clearing(t: Table, steps: seq<Step>) {
    if steps == [] then false else
    var init, last := steps[..|steps| - 1], steps[|steps| - 1];
    && last.Run? && Execute(After(World(t, t), init).working, last.statement).Some?
    && (Clears(last.statement) || Clearing(t, init))
  }

  /** Some transaction that executed a clearing truncation has committed. */
  predicate Cleared(t: Table, steps: seq<Step>) {
    if steps == [] then false else
    var init, last := steps[..|steps| - 1], steps[|steps| - 1];
    Cleared(t, init) || (last == Commit && Clearing(t, init))
  }

  /** Unless a transaction that executed a clearing truncation commits: over any statements, commits
      and rollbacks no committed record is lost, its binding never changes, and it leaves the active
      state at most once, after which nothing of it changes. */
  lemma {:induction false} SingleUse(t: Table, steps: seq<Step>)
    requires !Cleared(t, steps)
    ensures Evolves(t, After(World(t, t), steps).committed)
    ensures !Clearing(t, steps) ==> Evolves(After(World(t, t), steps).committed, After(World(t, t), steps).working)
  {
    ItselfEvolves(t);
    if steps != [] {
      var init, last := steps[..|steps| - 1], steps[|steps| - 1];
      var before := After(World(t, t), init);
      SingleUse(t, init);
      hide Evolves, Execute, Clears;
      ItselfEvolves(before.committed);
      ItselfEvolves(before.working);
      if !Clearing(t, init) { EvolvesTransitively(t, before.committed, before.working); }
      if last.Run? && !Clearing(t, steps) && Execute(before.working, last.statement).Some? {
        ExecuteEvolves(before.working, last.statement);
        EvolvesTransitively(before.committed, before.working, Execute(before.working, last.statement).value);
      }
    }
  }

  predicate NeverInserted(steps: seq<Step>, x: Id) {
    forall s | s in steps && s.Run? && s.statement.Insert? :: s.statement.id != x
  }

  /** A committed record that is not inserted again is lost exactly when a transaction that executed
      a clearing truncation commits; inside a transaction it is gone exactly since that truncation
      ran. */
  lemma {:induction false} LostIffCleared(t: Table, steps: seq<Step>, x: Id)
    requires x in t && NeverInserted(steps, x)
    ensures x !in After(World(t, t), steps).committed <==> Cleared(t, steps)
    ensures x !in After(World(t, t), steps).working <==> Cleared(t, steps) || Clearing(t, steps)
  {
    if steps != [] {
      var init, last := steps[..|steps| - 1], steps[|steps| - 1];
      assert last in steps;
      LostIffCleared(t, init, x);
      if last.Run? { OneStatement(After(World(t, t), init).working, last.statement, x); }
      hide Execute, Clears;
    }
  }

  /** One statement makes a row disappear exactly when it clears the table. */
  lemma OneStatement(t: Table, s: Statement, x: Id)
    requires s.Insert? ==> s.id != x
    ensures Execute(t, s).Some? ==> (x in Execute(t, s).value <==> x in t && !Clears(s))
  {
  }

  /** The failing inputs: truncating the table with CASCADE, or without it but together with both
      tables that refer to it, empties any table of approvals at the next commit; naming fewer
      tables is refused. */
  lemma BothTruncationsClear(t: Table, alongside: set<Referrer>)
    ensures After(World(t, t), [Run(Truncate(alongside, true)), Commit]).committed == map[]
    ensures After(World(t, t), [Run(Truncate({Targets, GovernanceItems}, false)), Commit]).committed == map[]
    ensures alongside != {Targets, GovernanceItems} ==>
      After(World(t, t), [Run(Truncate(alongside, false)), Commit]).committed == t
  {
    TwoSteps(World(t, t), Run(Truncate(alongside, true)), Commit);
    TwoSteps(World(t, t), Run(Truncate({Targets, GovernanceItems}, false)), Commit);
    TwoSteps(World(t, t), Run(Truncate(alongside, false)), Commit);
  }

  lemma TwoSteps(w: World, first: Step, second: Step)
    ensures After(w, [first, second]) == Next(Next(w, first), second)
  {
    var steps := [first, second];
    assert steps[..1] == [first] && steps[..1][..0] == [];
    assert After(w, steps[..1]) == Next(w, first);
  }

  // ----- what is legal is accepted

  /** An update of a stored record is accepted exactly when the record is active and stays itself in id
      and binding, and it is stamped as consumed or as revoked and as nothing else. */
  lemma UpdateAcceptedIff(t: Table, x: Id, newId: Id, row: Record)
    requires x in t && RowChecks(x, t[x])
    ensures Execute(t, Update(x, newId, row)).Some?
       <==> && t[x].state == Active && newId == x && row.binding == t[x].binding
            && (|| (row.state == Consumed && row.consumedAt.Some? && row.revokedAt.None?)
                || (row.state == Revoked && row.revokedAt.Some? && row.consumedAt.None?))
    ensures Execute(t, Update(x, newId, row)).Some? ==> Execute(t, Update(x, newId, row)).value == t[x := row]
  {
  }

  /** The row checks, spelled out. */
  predicate Fits(id: Id, r: Record) {
    var b := r.binding;
    && b.nonce != id && b.itemCount >= 0
    && (b.volumeKnown <==> b.bytesTotal.Some?) && (b.bytesTotal.Some? ==> b.bytesTotal.value >= 0)
    && b.materializedAt <= b.authenticatedAt && b.authenticatedAt <= b.confirmedAt
    && b.materializedAt <= b.issuedAt && b.issuedAt <= b.confirmedAt && b.confirmedAt < b.expiresAt
    && (r.consumedAt.Some? <==> r.state == Consumed) && (r.revokedAt.Some? <==> r.state == Revoked)
  }

  /** A record is inserted exactly under a new id and an unused nonce that is not its own id, with a
      count that is not negative, a volume exactly when it is known, its instants in order, and the
      stamps of its state and no others. */
  lemma InsertAcceptedIff(t: Table, id: Id, r: Record)
    ensures Execute(t, Insert(id, r)).Some?
       <==> && id !in t && Fits(id, r)
            && (forall x | x in t :: t[x].binding.nonce != r.binding.nonce)
    ensures Execute(t, Insert(id, r)).Some? ==> Execute(t, Insert(id, r)).value == t[id := r]
  {
  }

  /** Deleting a stored record is refused, and what is not stored is neither deleted nor updated. */
  lemma MissingIsUntouched(t: Table, id: Id, newId: Id, r: Record)
    ensures Execute(t, Delete(id)) == if id in t then None else Some(t)
    ensures id !in t ==> Execute(t, Update(id, newId, r)) == Some(t)
  {
  }

  /** The whole life of an approval goes through: inserted active under an unused nonce, committed,
      then consumed or revoked once, and committed as such. */
  lemma LifeCompletes(t: Table, x: Id, b: Binding, createdAt: Instant, at: Instant, revoked: bool)
    requires x !in t && b.nonce != x && forall y | y in t :: t[y].binding.nonce != b.nonce
    requires b.itemCount >= 0 && (b.volumeKnown <==> b.bytesTotal.Some?)
    requires b.bytesTotal.Some? ==> b.bytesTotal.value >= 0
    requires b.materializedAt <= b.authenticatedAt && b.materializedAt <= b.issuedAt
    requires b.authenticatedAt <= b.confirmedAt && b.issuedAt <= b.confirmedAt && b.confirmedAt < b.expiresAt
    ensures var active := Record(b, createdAt, Active, None, None);
            var last := if revoked then Record(b, createdAt, Revoked, None, Some(at))
                        else Record(b, createdAt, Consumed, Some(at), None);
            After(World(t, t), [Run(Insert(x, active)), Commit, Run(Update(x, x, last)), Commit]).committed
              == t[x := last]
  {
    var active := Record(b, createdAt, Active, None, None);
    var last := if revoked then Record(b, createdAt, Revoked, None, Some(at))
                else Record(b, createdAt, Consumed, Some(at), None);
    var steps := [Run(Insert(x, active)), Commit, Run(Update(x, x, last)), Commit];
    assert steps[..3][..2] == [Run(Insert(x, active)), Commit] && steps[..3] == steps[..|steps| - 1];
    TwoSteps(World(t, t), Run(Insert(x, active)), Commit);
    var after := t[x := active];
    assert After(World(t, t), steps[..3][..2]) == World(after, after);
    assert after[x := last] == t[x := last];
  }
}
