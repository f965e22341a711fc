/** Human protection events and their critical capabilities: two append-only tables whose joint
    coherence is checked when a transaction commits, possibly against an outdated view. */
module ProtectionLedger {
  import Rows = ProtectionRows

  type Id = nat

  datatype Capability = ChildExploitation | MinorTargeting | MassDestruction | CatastrophicHarm

  datatype Cap = Cap(event: Id, ordinal: int, capability: Capability)

  datatype Db = Db(events: map<Id, Rows.Row>, caps: set<Cap>)

  datatype Statement = InsertEvent(id: Id, row: Rows.Row) | InsertCap(cap: Cap) | UpdateDeleteOrTruncate

  // ----- keys and row checks

  /** Primary key (event, ordinal) and unique key (event, capability). */
  predicate KeysUnique(caps: set<Cap>) {
    forall a, b | && a in caps && b in caps && a.event == b.event
                  && (a.ordinal == b.ordinal || a.capability == b.capability) :: a == b
  }

  function CapsOf(caps: set<Cap>, e: Id): set<Cap> { set c | c in caps && c.event == e }

  function Ordinals(caps: set<Cap>): set<int> { set c | c in caps :: c.ordinal }

  // ----- the deferred check

  /** `coalesce(max(ordinal), -1)` */
  ghost predicate IsMax(caps: set<Cap>, m: int) {
    if caps == {} then m == -1
    else (exists c :: c in caps && c.ordinal == m) && forall c | c in caps :: c.ordinal <= m
  }

  /** The trigger, for the event of an inserted row: it counts the capabilities and compares the
      greatest ordinal with the count. */
  ghost predicate TriggerAccepts(db: Db, e: Id) {
    e in db.events ==>
      var rows := CapsOf(db.caps, e);
      && (db.events[e].outcome == Rows.Blocked ==> |rows| >= 1)
      && (db.events[e].outcome != Rows.Blocked ==> |rows| == 0)
      && (|rows| > 0 ==> IsMax(rows, |rows| - 1))
  }

  function UpTo(n: nat): (r: set<int>)
    ensures forall x :: x in r <==> 0 <= x < n
    ensures |r| == n
  {
    if n == 0 then {} else UpTo(n - 1) + {n - 1}
  }

  /** What the check is for: a blocked event has capabilities, any other has none, and the ordinals
      are exactly 0 to n-1. */
  ghost predicate Coherent(db: Db, e: Id)
    requires e in db.events
  {
    var rows := CapsOf(db.caps, e);
    && (db.events[e].outcome == Rows.Blocked <==> rows != {})
    && Ordinals(rows) == UpTo(|rows|)
  }

  // ----- a transaction

  /** Its inserts, and the committed state its queries see. */
  datatype Tx = Tx(view: Db, statements: seq<Statement>)

  function Events(s: seq<Statement>): map<Id, Rows.Row> {
    if s == [] then map[] else
    var n := |s| - 1;
    if s[n].InsertEvent? then Events(s[..n])[s[n].id := s[n].row] else Events(s[..n])
  }

  function Caps(s: seq<Statement>): set<Cap> {
    if s == [] then {} else
    var n := |s| - 1;
    if s[n].InsertCap? then Caps(s[..n]) + {s[n].cap} else Caps(s[..n])
  }

  /** Each statement against the rows that exist when it runs: its own earlier ones and every
      committed one, since keys are enforced whatever the view. */
  predicate StatementsRun(db: Db, view: Db, s: seq<Statement>) {
    s == [] ||
    var n := |s| - 1;
    && StatementsRun(db, view, s[..n])
    && match s[n]
       case InsertEvent(id, row) => id !in db.events && id !in Events(s[..n]) && Rows.Accepted(row)
       case InsertCap(c) =>
         && c.ordinal >= 0 && c !in db.caps && c !in Caps(s[..n])
         && KeysUnique(db.caps + Caps(s[..n]) + {c})
         && (c.event in view.events || c.event in Events(s[..n]))
       case UpdateDeleteOrTruncate => false
  }

  /** The committed state with the transaction's rows. */
  function With(db: Db, s: seq<Statement>): Db { Db(db.events + Events(s), db.caps + Caps(s)) }

  ghost predicate Touched(s: seq<Statement>, e: Id) { e in Events(s) || exists c :: c in Caps(s) && c.event == e }

  ghost predicate Commits(db: Db, tx: Tx) {
    && StatementsRun(db, tx.view, tx.statements)
    && forall e | Touched(tx.statements, e) :: TriggerAccepts(With(tx.view, tx.statements), e)
  }

  // ----- the database over time

  /** Each transaction commits or aborts; its view is any earlier committed state. */
  datatype Step = Step(seen: nat, statements: seq<Statement>)

  const EMPTY := Db(map[], {})

  ghost function Run(steps: seq<Step>): (history: seq<Db>)
    ensures |history| == |steps| + 1
  {
    if steps == [] then [EMPTY] else
    var n := |steps| - 1;
    var history := Run(steps[..n]);
    var view := history[if steps[n].seen < |history| then steps[n].seen else |history| - 1];
    var now := history[|history| - 1];
    history + [if Commits(now, Tx(view, steps[n].statements)) then With(now, steps[n].statements) else now]
  }

  ghost predicate Good(db: Db) {
    && KeysUnique(db.caps)
    && (forall c | c in db.caps :: c.event in db.events && c.ordinal >= 0)
    && (forall e | e in db.events :: Coherent(db, e) && Rows.Accepted(db.events[e]))
  }

  /** The later state keeps every row of the earlier one. */
  ghost predicate Grows(before: Db, after: Db) {
    && (forall e | e in before.events :: e in after.events && after.events[e] == before.events[e])
    && before.caps <= after.caps
  }

  // ----- pigeonhole

  lemma {:induction false} BoundedSet(s: set<int>, n: nat)
    requires forall x | x in s :: 0 <= x < n
    ensures |s| <= n
    ensures |s| == n ==> s == UpTo(n)
  {
    if n == 0 {
      forall x ensures x !in s { }
    } else if n - 1 in s {
      BoundedSet(s - {n - 1}, n - 1);
      assert s == (s - {n - 1}) + {n - 1};
    } else {
      BoundedSet(s, n - 1);
    }
  }

  lemma {:induction false} OrdinalsCount(caps: set<Cap>, e: Id)
    requires KeysUnique(caps) && forall c | c in caps :: c.event == e
    ensures |Ordinals(caps)| == |caps|
  {
    if c :| c in caps {
      OrdinalsCount(caps - {c}, e);
      assert Ordinals(caps) == Ordinals(caps - {c}) + {c.ordinal};
    }
  }

  lemma {:induction false} CapabilitiesCount(caps: set<Cap>, e: Id)
    requires KeysUnique(caps) && forall c | c in caps :: c.event == e
    ensures |caps| == |set c | c in caps :: c.capability|
  {
    if c :| c in caps {
      CapabilitiesCount(caps - {c}, e);
      assert (set x | x in caps :: x.capability) == (set x | x in caps - {c} :: x.capability) + {c.capability};
    }
  }

  lemma {:induction false} Smaller<T>(a: set<T>, b: set<T>)
    requires a <= b
    ensures |a| <= |b|
    ensures |a| == |b| ==> a == b
  {
    if x :| x in a { Smaller(a - {x}, b - {x}); }
  }

  /** Counting and comparing the maximum, over unique non-negative ordinals, says exactly that the
      ordinals are 0 to n-1. */
  lemma CheckIsExact(rows: set<Cap>, e: Id)
    requires KeysUnique(rows) && forall c | c in rows :: c.event == e && c.ordinal >= 0
    ensures (|rows| > 0 ==> IsMax(rows, |rows| - 1)) <==> Ordinals(rows) == UpTo(|rows|)
  {
    OrdinalsCount(rows, e);
    var n := |rows|;
    if n > 0 {
      if IsMax(rows, n - 1) {
        forall x | x in Ordinals(rows) ensures 0 <= x < n { }
        BoundedSet(Ordinals(rows), n);
      }
      if Ordinals(rows) == UpTo(n) {
        assert n - 1 in Ordinals(rows);
        forall c | c in rows ensures c.ordinal <= n - 1 { assert c.ordinal in Ordinals(rows); }
      }
    } else {
      assert rows == {};
    }
  }

  lemma TriggerIsCoherence(db: Db, e: Id)
    requires KeysUnique(db.caps) && e in db.events && forall c | c in db.caps :: c.ordinal >= 0
    ensures TriggerAccepts(db, e) <==> Coherent(db, e)
  {
    var rows := CapsOf(db.caps, e);
    CheckIsExact(rows, e);
    assert rows != {} <==> |rows| > 0;
  }

  // ----- statements

  lemma {:induction false} RunStatements(db: Db, view: Db, s: seq<Statement>)
    requires StatementsRun(db, view, s) && KeysUnique(db.caps) && Grows(view, db)
    ensures Ran(db, view, s)
    ensures forall id | id in Events(s) :: Rows.Accepted(Events(s)[id])
  {
    hide Rows.Accepted;
    if s == [] {
      assert db.caps + Caps(s) == db.caps;
    } else {
      var n := |s| - 1;
      RunStatements(db, view, s[..n]);
      if s[n].InsertCap? { assert db.caps + Caps(s) == db.caps + Caps(s[..n]) + {s[n].cap}; }
    }
  }

  lemma SubsetKeysUnique(part: set<Cap>, whole: set<Cap>)
    requires part <= whole && KeysUnique(whole)
    ensures KeysUnique(part)
  {
  }

  lemma OneUnderOrdinal(caps: set<Cap>, a: Cap, b: Cap)
    requires KeysUnique(caps) && a in caps && b in caps && a.event == b.event && a.ordinal == b.ordinal
    ensures a == b
  {
  }

  /** The transaction's own rows hold the first ordinal its view does not have. */
  lemma NextOrdinal(seen: set<Cap>, own: set<Cap>) returns (c: Cap)
    requires seen !! own && own != {}
    requires Ordinals(seen) == UpTo(|seen|) && Ordinals(seen + own) == UpTo(|seen + own|)
    ensures c in own && c.ordinal == |seen|
  {
    assert |seen + own| == |seen| + |own| && |own| > 0;
    assert |seen| in Ordinals(seen + own);
    c :| c in seen + own && c.ordinal == |seen|;
    assert c.ordinal !in Ordinals(seen);
  }

  /** An outdated view cannot mislead the check: if a transaction adds capabilities to an event and
      its view accepts them, the view already had every committed capability of that event. */
  lemma SeenIsAll(seen: set<Cap>, now: set<Cap>, own: set<Cap>, e: Id)
    requires seen <= now && now !! own && own != {} && KeysUnique(now + own)
    requires forall c | c in now + own :: c.event == e
    requires Ordinals(seen) == UpTo(|seen|) && Ordinals(now) == UpTo(|now|)
    requires Ordinals(seen + own) == UpTo(|seen + own|)
    ensures seen == now
  {
    hide KeysUnique;
    var c := NextOrdinal(seen, own);
    forall d | d in now ensures d.ordinal != |seen| {
      if d.ordinal == |seen| { OneUnderOrdinal(now + own, c, d); }
    }
    assert |seen| !in Ordinals(now);
    Smaller(seen, now);
  }

  /** What a transaction whose statements ran knows. */
  ghost predicate Ran(db: Db, view: Db, s: seq<Statement>) {
    && KeysUnique(db.caps + Caps(s)) && Caps(s) !! db.caps
    && (forall c | c in Caps(s) :: c.ordinal >= 0 && (c.event in view.events || c.event in Events(s)))
    && (forall id | id in Events(s) :: id !in db.events)
  }

  lemma UntouchedStays(db: Db, view: Db, s: seq<Statement>, e: Id)
    requires Good(db) && Ran(db, view, s) && e in db.events && CapsOf(Caps(s), e) == {}
    ensures Coherent(With(db, s), e)
  {
    hide KeysUnique;
    hide Rows.Accepted;
    assert e !in Events(s);
    assert CapsOf(With(db, s).caps, e) == CapsOf(db.caps, e);
    assert Coherent(db, e);
  }

  lemma NewEventCoheres(db: Db, view: Db, s: seq<Statement>, e: Id)
    requires Good(db) && Good(view) && Grows(view, db) && Ran(db, view, s) && e in Events(s)
    requires Coherent(With(view, s), e)
    ensures Coherent(With(db, s), e)
  {
    hide KeysUnique, Coherent;
    hide Rows.Accepted;
    assert CapsOf(With(db, s).caps, e) == CapsOf(Caps(s), e);
    assert CapsOf(With(view, s).caps, e) == CapsOf(Caps(s), e);
    SameRowsSameCoherence(With(view, s), With(db, s), e);
  }

  lemma SameRowsSameCoherence(a: Db, b: Db, e: Id)
    requires e in a.events && e in b.events && a.events[e] == b.events[e] && CapsOf(a.caps, e) == CapsOf(b.caps, e)
    requires Coherent(a, e)
    ensures Coherent(b, e)
  {
  }

  lemma OldEventCoheres(db: Db, view: Db, s: seq<Statement>, e: Id)
    requires Good(db) && Good(view) && Grows(view, db) && Ran(db, view, s) && e !in Events(s)
    requires e in db.events && CapsOf(Caps(s), e) != {} && e in view.events && Coherent(With(view, s), e)
    ensures Coherent(With(db, s), e)
  {
    hide Rows.Accepted;
    hide KeysUnique, Good;
    var seen, now, own := CapsOf(view.caps, e), CapsOf(db.caps, e), CapsOf(Caps(s), e);
    assert CapsOf(With(view, s).caps, e) == seen + own;
    assert CapsOf(With(db, s).caps, e) == now + own;
    SubsetKeysUnique(now + own, db.caps + Caps(s));
    OrdinalsOfGood(db, e);
    OrdinalsOfGood(view, e);
    CoherentOrdinals(With(view, s), e);
    hide Coherent;
    SeenIsAll(seen, now, own, e);
    SameRowsSameCoherence(With(view, s), With(db, s), e);
  }

  lemma CoherentOrdinals(db: Db, e: Id)
    requires e in db.events && Coherent(db, e)
    ensures Ordinals(CapsOf(db.caps, e)) == UpTo(|CapsOf(db.caps, e)|)
  {
  }

  lemma OrdinalsOfGood(db: Db, e: Id)
    requires Good(db) && e in db.events
    ensures Ordinals(CapsOf(db.caps, e)) == UpTo(|CapsOf(db.caps, e)|)
  {
    assert Coherent(db, e);
  }

  lemma ViewCoheres(db: Db, tx: Tx, e: Id)
    requires Good(db) && Good(tx.view) && Grows(tx.view, db) && Commits(db, tx) && Ran(db, tx.view, tx.statements)
    requires Touched(tx.statements, e)
    ensures e in With(tx.view, tx.statements).events && Coherent(With(tx.view, tx.statements), e)
  {
    hide Rows.Accepted;
    SubsetKeysUnique(tx.view.caps + Caps(tx.statements), db.caps + Caps(tx.statements));
    hide KeysUnique, Coherent, TriggerAccepts;
    TriggerIsCoherence(With(tx.view, tx.statements), e);
  }

  lemma CommitKeepsCoherent(db: Db, tx: Tx, e: Id)
    requires Good(db) && Good(tx.view) && Grows(tx.view, db) && Commits(db, tx) && Ran(db, tx.view, tx.statements)
    requires e in With(db, tx.statements).events
    ensures Coherent(With(db, tx.statements), e)
  {
    hide Good, Grows, Coherent, KeysUnique, Commits;
    var s := tx.statements;
    if e in Events(s) {
      ViewCoheres(db, tx, e);
      NewEventCoheres(db, tx.view, s, e);
    } else if CapsOf(Caps(s), e) == {} {
      UntouchedStays(db, tx.view, s, e);
    } else {
      var c :| c in CapsOf(Caps(s), e);
      assert Touched(s, e);
      ViewCoheres(db, tx, e);
      OldEventCoheres(db, tx.view, s, e);
    }
  }

  lemma CommitKeepsGood(db: Db, tx: Tx)
    requires Good(db) && Good(tx.view) && Grows(tx.view, db) && Commits(db, tx)
    ensures Good(With(db, tx.statements)) && Grows(db, With(db, tx.statements))
  {
    hide Rows.Accepted;
    hide Coherent, StatementsRun, KeysUnique, TriggerAccepts;
    RunStatements(db, tx.view, tx.statements);
    forall e | e in With(db, tx.statements).events ensures Coherent(With(db, tx.statements), e) {
      CommitKeepsCoherent(db, tx, e);
    }
  }

  lemma GrowsTransitively(a: Db, b: Db, c: Db)
    requires Grows(a, b) && Grows(b, c)
    ensures Grows(a, c)
  {
  }

  lemma {:induction false} RunIsGood(steps: seq<Step>, i: nat, j: nat)
    requires i <= j <= |steps|
    ensures Good(Run(steps)[i]) && Good(Run(steps)[j]) && Grows(Run(steps)[i], Run(steps)[j])
    decreases |steps|
  {
    hide Good, Grows, Commits, With;
    if steps == [] {
      EmptyIsGood();
    } else {
      var n := |steps| - 1;
      var history := Run(steps[..n]);
      var k := if steps[n].seen < |history| then steps[n].seen else n;
      RunIsGood(steps[..n], k, n);
      RunIsGood(steps[..n], if i <= n then i else n, n);
      RunIsGood(steps[..n], if i <= n then i else n, if j <= n then j else n);
      GrowsItself(history[n]);
      if Commits(history[n], Tx(history[k], steps[n].statements)) {
        CommitKeepsGood(history[n], Tx(history[k], steps[n].statements));
      }
      if j > n {
        GrowsItself(Run(steps)[j]);
        if i <= n { GrowsTransitively(Run(steps)[i], history[n], Run(steps)[j]); }
      }
    }
  }

  lemma EmptyIsGood()
    ensures Good(EMPTY) && Grows(EMPTY, EMPTY)
  {
  }

  lemma GrowsItself(db: Db)
    ensures Grows(db, db)
  {
  }

  /** An event is blocked exactly when it has capabilities, their ordinals are exactly 0 to n-1,
      there are at most four of them, and the row satisfies the corrected checks. */
  ghost predicate WellRecorded(db: Db, e: Id)
    requires e in db.events
  {
    var rows := CapsOf(db.caps, e);
    && (db.events[e].outcome == Rows.Blocked <==> rows != {})
    && Ordinals(rows) == UpTo(|rows|)
    && |rows| <= 4
    && Rows.Accepted(db.events[e])
  }

  /** In every committed state, whatever views the transactions had, every event is well
      recorded. */
  lemma EveryStateIsCoherent(steps: seq<Step>, i: nat)
    requires i <= |steps|
    ensures forall e | e in Run(steps)[i].events :: WellRecorded(Run(steps)[i], e)
  {
    hide Run, Good;
    RunIsGood(steps, i, i);
    GoodIsWellRecorded(Run(steps)[i]);
  }

  lemma GoodIsWellRecorded(db: Db)
    requires Good(db)
    ensures forall e | e in db.events :: WellRecorded(db, e)
  {
    hide Rows.Accepted;
    hide KeysUnique;
    forall e | e in db.events ensures WellRecorded(db, e) {
      AtMostFour(db.caps, e);
      assert Coherent(db, e);
    }
  }

  lemma AtMostFour(caps: set<Cap>, e: Id)
    requires KeysUnique(caps)
    ensures |CapsOf(caps, e)| <= 4
  {
    var rows := CapsOf(caps, e);
    SubsetKeysUnique(rows, caps);
    hide KeysUnique;
    CapabilitiesCount(rows, e);
    var kinds: set<Capability> := set c | c in rows :: c.capability;
    FourKinds(kinds);
  }

  lemma FourKinds(kinds: set<Capability>)
    ensures |kinds| <= 4
  {
    var all := {ChildExploitation, MinorTargeting, MassDestruction, CatastrophicHarm};
    forall k: Capability | k in kinds ensures k in all {
      match k case ChildExploitation => case MinorTargeting => case MassDestruction => case CatastrophicHarm =>
    }
    Smaller(kinds, all);
  }

  /** And it stays so: no committed event or capability ever changes or disappears, and an event
      that was committed blocked keeps at least the capabilities it had. */
  lemma NothingIsLost(steps: seq<Step>, i: nat, j: nat, e: Id)
    requires i <= j <= |steps| && e in Run(steps)[i].events
    ensures e in Run(steps)[j].events && Run(steps)[j].events[e] == Run(steps)[i].events[e]
    ensures CapsOf(Run(steps)[i].caps, e) <= CapsOf(Run(steps)[j].caps, e)
  {
    hide Good;
    RunIsGood(steps, i, j);
  }

  // ----- what is coherent can be recorded

  /** Inserts an event and then its capabilities, numbered from 0 in the order given. */
  function Recording(id: Id, row: Rows.Row, kinds: seq<Capability>): seq<Statement> {
    if kinds == [] then [InsertEvent(id, row)] else
    var n := |kinds| - 1;
    Recording(id, row, kinds[..n]) + [InsertCap(Cap(id, n, kinds[n]))]
  }

  function Numbered(id: Id, kinds: seq<Capability>): set<Cap> {
    set k | 0 <= k < |kinds| :: Cap(id, k, kinds[k])
  }

  ghost predicate AllDifferent(kinds: seq<Capability>) {
    forall i, j | 0 <= i < j < |kinds| :: kinds[i] != kinds[j]
  }

  lemma {:induction false} RecordingInserts(id: Id, row: Rows.Row, kinds: seq<Capability>)
    ensures Events(Recording(id, row, kinds)) == map[id := row]
    ensures Caps(Recording(id, row, kinds)) == Numbered(id, kinds)
  {
    var s := Recording(id, row, kinds);
    if kinds == [] {
      assert s[..0] == [];
    } else {
      var n := |kinds| - 1;
      RecordingInserts(id, row, kinds[..n]);
      assert s[..|s| - 1] == Recording(id, row, kinds[..n]);
      assert Numbered(id, kinds) == Numbered(id, kinds[..n]) + {Cap(id, n, kinds[n])} by {
        assert forall k | 0 <= k < n :: kinds[..n][k] == kinds[k];
      }
    }
  }

  lemma KeysStayUnique(caps: set<Cap>, id: Id, kinds: seq<Capability>)
    requires KeysUnique(caps) && forall c | c in caps :: c.event != id
    ensures KeysUnique(caps + Numbered(id, kinds)) <==> AllDifferent(kinds)
  {
    if AllDifferent(kinds) {
    } else {
      var i, j :| 0 <= i < j < |kinds| && kinds[i] == kinds[j];
      var a, b := Cap(id, i, kinds[i]), Cap(id, j, kinds[j]);
      assert a in Numbered(id, kinds) && b in Numbered(id, kinds) && a != b;
    }
  }

  lemma {:induction false} RecordingRunsIff(db: Db, view: Db, id: Id, row: Rows.Row, kinds: seq<Capability>)
    requires Good(db)
    ensures StatementsRun(db, view, Recording(id, row, kinds))
       <==> id !in db.events && Rows.Accepted(row) && AllDifferent(kinds)
  {
    hide Rows.Accepted;
    hide KeysUnique, Coherent, Numbered;
    var s := Recording(id, row, kinds);
    if kinds == [] {
      assert s[..0] == [];
    } else {
      var n := |kinds| - 1;
      var init := Recording(id, row, kinds[..n]);
      RecordingRunsIff(db, view, id, row, kinds[..n]);
      assert s[..|s| - 1] == init && s[|s| - 1] == InsertCap(Cap(id, n, kinds[n]));
      RecordingInserts(id, row, kinds[..n]);
      RecordingInserts(id, row, kinds);
      assert db.caps + Caps(init) + {Cap(id, n, kinds[n])} == db.caps + Numbered(id, kinds);
      if id !in db.events {
        KeysStayUnique(db.caps, id, kinds);
        NextIsNew(id, kinds);
      }
    }
  }

  lemma NextIsNew(id: Id, kinds: seq<Capability>)
    requires kinds != []
    ensures Cap(id, |kinds| - 1, kinds[|kinds| - 1]) !in Numbered(id, kinds[..|kinds| - 1])
    ensures AllDifferent(kinds) ==> AllDifferent(kinds[..|kinds| - 1])
  {
  }

  /** A new event can be recorded, with these capabilities and in one transaction, exactly when its row
      is accepted, the capabilities are all different, and there are some exactly when it is blocked:
      the keys, the numbering and the deferred check refuse nothing coherent, and nothing else passes. */
  lemma RecordingCommitsIff(db: Db, view: Db, id: Id, row: Rows.Row, kinds: seq<Capability>)
    requires Good(db) && Good(view) && Grows(view, db)
    ensures Commits(db, Tx(view, Recording(id, row, kinds)))
       <==> && id !in db.events && Rows.Accepted(row) && AllDifferent(kinds)
            && (row.outcome == Rows.Blocked <==> kinds != [])
    ensures With(db, Recording(id, row, kinds)) == Db(db.events[id := row], db.caps + Numbered(id, kinds))
  {
    hide Rows.Accepted;
    hide KeysUnique, Coherent, TriggerAccepts, StatementsRun, Events, Caps, Recording, Numbered, AllDifferent;
    var s := Recording(id, row, kinds);
    RecordingInserts(id, row, kinds);
    RecordingRunsIff(db, view, id, row, kinds);
    assert With(view, s) == Db(view.events[id := row], view.caps + Numbered(id, kinds));
    OnlyTouches(s, id, row, kinds);
    if id !in db.events && AllDifferent(kinds) { RecordedTriggers(view, id, row, kinds); }
  }

  lemma OnlyTouches(s: seq<Statement>, id: Id, row: Rows.Row, kinds: seq<Capability>)
    requires Events(s) == map[id := row] && Caps(s) == Numbered(id, kinds)
    ensures forall e :: Touched(s, e) <==> e == id
  {
    hide Events, Caps;
  }

  lemma RecordedTriggers(view: Db, id: Id, row: Rows.Row, kinds: seq<Capability>)
    requires id !in view.events && (forall c | c in view.caps :: c.event in view.events) && AllDifferent(kinds)
    ensures TriggerAccepts(Db(view.events[id := row], view.caps + Numbered(id, kinds)), id)
       <==> (row.outcome == Rows.Blocked <==> kinds != [])
  {
    var db := Db(view.events[id := row], view.caps + Numbered(id, kinds));
    assert CapsOf(db.caps, id) == Numbered(id, kinds);
    NumberedCount(id, kinds);
    if kinds != [] {
      var n := |kinds| - 1;
      assert Cap(id, n, kinds[n]) in Numbered(id, kinds);
      assert IsMax(Numbered(id, kinds), n);
    }
  }

  lemma {:induction false} NumberedCount(id: Id, kinds: seq<Capability>)
    ensures |Numbered(id, kinds)| == |kinds|
  {
    if kinds == [] {
      assert Numbered(id, kinds) == {};
    } else {
      var n := |kinds| - 1;
      NumberedCount(id, kinds[..n]);
      assert forall k | 0 <= k < n :: kinds[..n][k] == kinds[k];
      assert Numbered(id, kinds) == Numbered(id, kinds[..n]) + {Cap(id, n, kinds[n])};
    }
  }
}
