/** Burden vectors of six dimensions per alternative: no sum, no score, no weight, only Pareto
    dominance between comparable vectors and the trade-offs that remain. */
module Burden {
  import opened Results

  datatype Alternative = Inaction | ReversibleEscalation | FullAction

  const ALTERNATIVES: seq<Alternative> := [Inaction, ReversibleEscalation, FullAction]

  datatype Kind = Financial | Social | ServiceContinuity | Equity | OpportunityDelay | Irreversibility

  datatype Reading = Reading(magnitude: real, unit: string, source: string, sourceVersion: int, observedAt: string,
                             uncertainty: (real, real), incidence: string, vulnerable: bool)

  /** Exactly the six kinds, each once. */
  datatype Vector = Vector(financial: Reading, social: Reading, continuity: Reading, equity: Reading, delay: Reading,
                           irreversibility: Reading, probabilityValidated: bool)

  function At(v: Vector, k: Kind): Reading {
    match k
    case Financial => v.financial
    case Social => v.social
    case ServiceContinuity => v.continuity
    case Equity => v.equity
    case OpportunityDelay => v.delay
    case Irreversibility => v.irreversibility
  }

  predicate TouchesVulnerable(v: Vector) { exists k: Kind :: At(v, k).vulnerable }

  // ----- comparability

  datatype Field = UnitField | SourceField | VersionField | TimeField

  predicate Agree(a: Reading, b: Reading) {
    a.unit == b.unit && a.source == b.source && a.sourceVersion == b.sourceVersion && a.observedAt == b.observedAt
  }

  function FirstDisagreement(a: Reading, b: Reading): (r: Option<Field>)
    ensures r.None? <==> Agree(a, b)
  {
    if a.unit != b.unit then Some(UnitField)
    else if a.source != b.source then Some(SourceField)
    else if a.sourceVersion != b.sourceVersion then Some(VersionField)
    else if a.observedAt != b.observedAt then Some(TimeField)
    else None
  }

  function FailureAt(a: Vector, b: Vector, k: Kind): (r: Option<(Kind, Field)>)
    ensures r.None? <==> Agree(At(a, k), At(b, k))
  {
    match FirstDisagreement(At(a, k), At(b, k))
    case None => None
    case Some(f) => Some((k, f))
  }

  function OrElse<T>(first: Option<T>, second: Option<T>): Option<T> { if first.Some? then first else second }

  /** The first kind and field that disagree, in the declared order. */
  function ComparabilityFailure(a: Vector, b: Vector): Option<(Kind, Field)> {
    OrElse(FailureAt(a, b, Financial), OrElse(FailureAt(a, b, Social), OrElse(FailureAt(a, b, ServiceContinuity),
    OrElse(FailureAt(a, b, Equity), OrElse(FailureAt(a, b, OpportunityDelay), FailureAt(a, b, Irreversibility))))))
  }

  predicate Comparable(a: Vector, b: Vector) { forall k: Kind :: Agree(At(a, k), At(b, k)) }

  /** The declared order of the kinds. */
  function Place(k: Kind): nat {
    match k
    case Financial => 0 case Social => 1 case ServiceContinuity => 2 case Equity => 3 case OpportunityDelay => 4
    case Irreversibility => 5
  }

  predicate Differ(a: Reading, b: Reading, f: Field) {
    match f
    case UnitField => a.unit != b.unit
    case SourceField => a.source != b.source
    case VersionField => a.sourceVersion != b.sourceVersion
    case TimeField => a.observedAt != b.observedAt
  }

  /** Comparable in all six dimensions by name. */
  lemma ComparableByName(a: Vector, b: Vector)
    ensures Comparable(a, b) <==>
      && Agree(a.financial, b.financial) && Agree(a.social, b.social) && Agree(a.continuity, b.continuity)
      && Agree(a.equity, b.equity) && Agree(a.delay, b.delay) && Agree(a.irreversibility, b.irreversibility)
    ensures TouchesVulnerable(a) <==>
      || a.financial.vulnerable || a.social.vulnerable || a.continuity.vulnerable || a.equity.vulnerable
      || a.delay.vulnerable || a.irreversibility.vulnerable
  {
    assert At(a, Financial) == a.financial && At(a, Social) == a.social && At(a, ServiceContinuity) == a.continuity
        && At(a, Equity) == a.equity && At(a, OpportunityDelay) == a.delay
        && At(a, Irreversibility) == a.irreversibility;
    assert At(b, Financial) == b.financial && At(b, Social) == b.social && At(b, ServiceContinuity) == b.continuity
        && At(b, Equity) == b.equity && At(b, OpportunityDelay) == b.delay
        && At(b, Irreversibility) == b.irreversibility;
  }

  /** The check finds no failure exactly when unit, source, version and time agree in all six
      dimensions; a failure it names is real, and every kind declared earlier agrees. */
  lemma ComparableIff(a: Vector, b: Vector)
    ensures ComparabilityFailure(a, b).None? <==> Comparable(a, b)
    ensures ComparabilityFailure(a, b).Some? ==>
      var (kind, field) := ComparabilityFailure(a, b).value;
      && Differ(At(a, kind), At(b, kind), field)
      && forall k: Kind | Place(k) < Place(kind) :: Agree(At(a, k), At(b, k))
    ensures ComparabilityFailure(a, b).Some? ==>
      var (kind, field) := ComparabilityFailure(a, b).value;
      && (kind == Financial ==> Differ(a.financial, b.financial, field))
      && (kind == Social ==> Differ(a.social, b.social, field))
      && (kind == ServiceContinuity ==> Differ(a.continuity, b.continuity, field))
      && (kind == Equity ==> Differ(a.equity, b.equity, field))
      && (kind == OpportunityDelay ==> Differ(a.delay, b.delay, field))
      && (kind == Irreversibility ==> Differ(a.irreversibility, b.irreversibility, field))
  {
    forall k: Kind ensures Agree(At(a, k), At(b, k)) <==> FailureAt(a, b, k).None? { }
  }

  /** Being comparable is an equivalence. */
  lemma ComparableIsEquivalence(a: Vector, b: Vector, c: Vector)
    ensures Comparable(a, a)
    ensures Comparable(a, b) ==> Comparable(b, a)
    ensures Comparable(a, b) && Comparable(b, c) ==> Comparable(a, c)
  {
    if Comparable(a, b) {
      forall k: Kind ensures Agree(At(b, k), At(a, k)) { assert Agree(At(a, k), At(b, k)); }
    }
    if Comparable(a, b) && Comparable(b, c) {
      forall k: Kind ensures Agree(At(a, k), At(c, k)) {
        assert Agree(At(a, k), At(b, k)) && Agree(At(b, k), At(c, k));
      }
    }
  }

  // ----- dominance: at least as burdensome everywhere and more so somewhere

  function Load(v: Vector, k: Kind): real { At(v, k).magnitude }

  predicate AsHeavy(a: Vector, b: Vector) { forall k: Kind :: Load(a, k) >= Load(b, k) }

  predicate HeavierSomewhere(a: Vector, b: Vector) { exists k: Kind :: Load(a, k) > Load(b, k) }

  predicate Dominates(a: Vector, b: Vector) { Comparable(a, b) && AsHeavy(a, b) && HeavierSomewhere(a, b) }

  /** No lighter in any of the six dimensions by name, and heavier in one. */
  lemma DominatesByName(a: Vector, b: Vector)
    ensures AsHeavy(a, b) <==>
      && a.financial.magnitude >= b.financial.magnitude && a.social.magnitude >= b.social.magnitude
      && a.continuity.magnitude >= b.continuity.magnitude && a.equity.magnitude >= b.equity.magnitude
      && a.delay.magnitude >= b.delay.magnitude && a.irreversibility.magnitude >= b.irreversibility.magnitude
    ensures HeavierSomewhere(a, b) <==>
      || a.financial.magnitude > b.financial.magnitude || a.social.magnitude > b.social.magnitude
      || a.continuity.magnitude > b.continuity.magnitude || a.equity.magnitude > b.equity.magnitude
      || a.delay.magnitude > b.delay.magnitude || a.irreversibility.magnitude > b.irreversibility.magnitude
    ensures Dominates(a, b) <==> Comparable(a, b) && AsHeavy(a, b) && HeavierSomewhere(a, b)
  {
    hide Comparable;
    assert Load(a, Financial) == a.financial.magnitude && Load(a, Social) == a.social.magnitude
        && Load(a, ServiceContinuity) == a.continuity.magnitude && Load(a, Equity) == a.equity.magnitude
        && Load(a, OpportunityDelay) == a.delay.magnitude && Load(a, Irreversibility) == a.irreversibility.magnitude;
    assert Load(b, Financial) == b.financial.magnitude && Load(b, Social) == b.social.magnitude
        && Load(b, ServiceContinuity) == b.continuity.magnitude && Load(b, Equity) == b.equity.magnitude
        && Load(b, OpportunityDelay) == b.delay.magnitude && Load(b, Irreversibility) == b.irreversibility.magnitude;
  }

  /** Each is heavier somewhere. */
  predicate Crosses(a: Vector, b: Vector) { Comparable(a, b) && HeavierSomewhere(a, b) && HeavierSomewhere(b, a) }

  /** Comparable vectors are equal in every magnitude, related by dominance one way, or crossed:
      exactly one of these. */
  lemma Trichotomy(a: Vector, b: Vector)
    requires Comparable(a, b)
    ensures Dominates(a, b) || Dominates(b, a) || Crosses(a, b) || forall k: Kind :: Load(a, k) == Load(b, k)
    ensures !(Dominates(a, b) && Dominates(b, a))
    ensures Crosses(a, b) ==> !Dominates(a, b) && !Dominates(b, a)
  {
    ComparableIsEquivalence(a, b, a);
    HeavierOrAs(a, b);
    HeavierOrAs(b, a);
  }

  lemma HeavierOrAs(a: Vector, b: Vector)
    ensures HeavierSomewhere(a, b) <==> !AsHeavy(b, a)
  {
    if !AsHeavy(b, a) {
      var k: Kind :| !(Load(b, k) >= Load(a, k));
      assert Load(a, k) > Load(b, k);
    }
    if HeavierSomewhere(a, b) {
      var k: Kind :| Load(a, k) > Load(b, k);
      assert !(Load(b, k) >= Load(a, k));
    }
  }

  /** Dominance is a strict partial order. */
  lemma DominanceIsStrictOrder(a: Vector, b: Vector, c: Vector)
    ensures !Dominates(a, a)
    ensures Dominates(a, b) && Dominates(b, c) ==> Dominates(a, c)
  {
    ComparableIsEquivalence(a, b, c);
    if Dominates(a, b) && Dominates(b, c) {
      forall k: Kind ensures Load(a, k) >= Load(c, k) { assert Load(a, k) >= Load(b, k) && Load(b, k) >= Load(c, k); }
      var k: Kind :| Load(a, k) > Load(b, k);
      assert Load(b, k) >= Load(c, k);
      assert Load(a, k) > Load(c, k);
    }
  }

  // ----- any finite collection of vectors

  /** The i-th vector is more burdensome than some other: it is on the dominated side. */
  predicate Beaten(s: seq<Vector>, i: nat)
    requires i < |s|
  {
    exists j | 0 <= j < |s| :: Dominates(s[i], s[j])
  }

  ghost function Below(s: seq<Vector>, i: nat): set<nat>
    requires i < |s|
  {
    set j | 0 <= j < |s| && Dominates(s[i], s[j])
  }

  /** From any vector one descends to an unbeaten one. */
  lemma {:induction false} Descend(s: seq<Vector>, i: nat) returns (m: nat)
    requires i < |s|
    ensures m < |s| && !Beaten(s, m) && (m == i || Dominates(s[i], s[m]))
    decreases |Below(s, i)|
  {
    if !Beaten(s, i) { return i; }
    var j :| 0 <= j < |s| && Dominates(s[i], s[j]);
    forall x | x in Below(s, j) ensures x in Below(s, i) { DominanceIsStrictOrder(s[i], s[j], s[x]); }
    DominanceIsStrictOrder(s[j], s[j], s[j]);
    assert j in Below(s, i) && j !in Below(s, j);
    SmallerSet(Below(s, j), Below(s, i));
    m := Descend(s, j);
    DominanceIsStrictOrder(s[i], s[j], s[m]);
  }

  lemma SmallerSet(a: set<nat>, b: set<nat>)
    requires a < b
    ensures |a| < |b|
  {
    var x :| x in b && x !in a;
    assert a <= b - {x};
    Subset(a, b - {x});
  }

  lemma {:induction false} Subset(a: set<nat>, b: set<nat>)
    requires a <= b
    ensures |a| <= |b|
  {
    if x :| x in a { Subset(a - {x}, b - {x}); }
  }

  /** Over any non-empty finite collection some vector is unbeaten, so not everything can be
      dominated; and when exactly one is unbeaten, it is the least: every other vector is at least
      as burdensome in all six dimensions and strictly more in one. */
  lemma UnbeatenIsLeast(s: seq<Vector>, m: nat)
    requires m < |s|
    requires forall i | 0 <= i < |s| && i != m :: Beaten(s, i)
    ensures !Beaten(s, m)
    ensures forall i | 0 <= i < |s| && i != m :: Dominates(s[i], s[m])
  {
    var least := Descend(s, m);
    assert least == m;
    forall i | 0 <= i < |s| && i != m ensures Dominates(s[i], s[m]) {
      var x := Descend(s, i);
      assert x == m;
    }
  }

  // ----- comparing the three alternatives

  type Entries = seq<(Alternative, Vector)>

  datatype Note = Note(left: Alternative, right: Alternative, failure: (Kind, Field))

  datatype Comparison = Comparison(entries: Entries, dominated: seq<Alternative>,
                                   tradeOffs: seq<(Alternative, Alternative)>, incomparable: seq<Note>)

  datatype ComparisonError = MissingVector | RepeatedVector

  /** `dict(entries)`: the last vector given for an alternative. */
  function VectorFor(entries: Entries, a: Alternative): (r: Option<Vector>)
    ensures r.Some? <==> exists e | e in entries :: e.0 == a
  {
    if entries == [] then None else
    var n := |entries| - 1;
    assert entries == entries[..n] + [entries[n]];
    if entries[n].0 == a then Some(entries[n].1) else VectorFor(entries[..n], a)
  }

  /** The vector found for an alternative is the last one given with it. */
  lemma {:induction false} LastVectorCounts(entries: Entries, a: Alternative, v: Vector)
    ensures VectorFor(entries, a) == Some(v)
       <==> exists i | 0 <= i < |entries| ::
              entries[i] == (a, v) && forall j | i < j < |entries| :: entries[j].0 != a
  {
    if entries != [] {
      var n := |entries| - 1;
      LastVectorCounts(entries[..n], a, v);
      assert forall i | 0 <= i < n :: entries[..n][i] == entries[i];
      if entries[n].0 != a && VectorFor(entries, a) == Some(v) {
        var i :| 0 <= i < n && entries[i] == (a, v) && forall j | i < j < n :: entries[..n][j].0 != a;
        assert forall j | i < j < |entries| :: entries[j].0 != a;
      }
    }
  }

  /** Without repetition every vector is compared under the alternative it was given with. */
  lemma OwnVector(entries: Entries, i: nat)
    requires Complete(entries) && NoRepetition(entries) && i < |entries|
    ensures V(entries, entries[i].0) == entries[i].1
  {
    LastVectorCounts(entries, entries[i].0, entries[i].1);
    assert forall j | i < j < |entries| :: entries[j].0 != entries[i].0;
  }

  predicate Complete(entries: Entries)
  {
    forall a: Alternative :: VectorFor(entries, a).Some?
  }

  function V(entries: Entries, a: Alternative): (v: Vector)
    requires Complete(entries)
  {
    VectorFor(entries, a).value
  }

  predicate NoRepetition(entries: Entries) {
    forall i, j | 0 <= i < j < |entries| :: entries[i].0 != entries[j].0
  }

  predicate Heavier(entries: Entries, a: Alternative, b: Alternative)
    requires Complete(entries)
  {
    a != b && Dominates(V(entries, a), V(entries, b))
  }

  predicate Traded(entries: Entries, a: Alternative, b: Alternative)
    requires Complete(entries)
  {
    a != b && Crosses(V(entries, a), V(entries, b))
  }

  predicate Incomparable(entries: Entries, a: Alternative, b: Alternative)
    requires Complete(entries)
  {
    a != b && !Comparable(V(entries, a), V(entries, b))
  }

  function Rank(a: Alternative): nat {
    match a case Inaction => 0 case ReversibleEscalation => 1 case FullAction => 2
  }

  predicate NotedFor(notes: seq<Note>, a: Alternative, b: Alternative) {
    exists n | n in notes :: n.left == a && n.right == b
  }

  /** Each note carries the failure of its own pair. */
  predicate NotesAreReal(entries: Entries, notes: seq<Note>)
    requires Complete(entries)
  {
    forall n | n in notes :: ComparabilityFailure(V(entries, n.left), V(entries, n.right)) == Some(n.failure)
  }

  predicate NoneTwice<T(==)>(s: seq<T>) { forall i, j | 0 <= i < j < |s| :: s[i] != s[j] }

  lemma OneMoreOnce<T>(s: seq<T>, x: T)
    requires NoneTwice(s) && x !in s
    ensures NoneTwice(s + [x])
  {
  }

  /** The comparison lists exactly the dominated alternatives, every trade-off as one unordered
      pair, and every incomparable ordered pair with its own failure; each of them once. */
  ghost predicate Describes(c: Comparison, entries: Entries)
    requires Complete(entries)
  {
    && c.entries == entries
    && (forall a :: a in c.dominated <==> exists b :: Heavier(entries, a, b))
    && (forall a, b :: (a, b) in c.tradeOffs <==> Rank(a) < Rank(b) && Traded(entries, a, b))
    && (c.incomparable == [] <==> forall a, b :: !Incomparable(entries, a, b))
    && (forall a, b :: NotedFor(c.incomparable, a, b) <==> Incomparable(entries, a, b))
    && NotesAreReal(entries, c.incomparable)
    && NoneTwice(c.dominated) && NoneTwice(c.tradeOffs) && NoneTwice(c.incomparable)
  }

  function Unless(c: Comparison, a: Alternative): (r: seq<Alternative>)
    ensures forall x :: x in r <==> x == a && a !in c.dominated
  {
    if a in c.dominated then [] else [a]
  }

  function NonDominated(c: Comparison): (r: seq<Alternative>)
    ensures forall a: Alternative :: a in r <==> a !in c.dominated
  {
    Unless(c, Inaction) + Unless(c, ReversibleEscalation) + Unless(c, FullAction)
  }

  ghost predicate Seen(a: Alternative, b: Alternative, i: nat, j: nat) {
    Rank(a) < i || (Rank(a) == i && Rank(b) < j)
  }

  ghost predicate DominatedSoFar(entries: Entries, i: nat, j: nat, dominated: seq<Alternative>)
    requires Complete(entries)
  {
    && NoneTwice(dominated)
    && forall a :: a in dominated <==> exists b :: Seen(a, b, i, j) && Heavier(entries, a, b)
  }

  ghost predicate TradedSoFar(entries: Entries, i: nat, j: nat, tradeOffs: seq<(Alternative, Alternative)>)
    requires Complete(entries)
  {
    && NoneTwice(tradeOffs)
    && forall a, b :: (a, b) in tradeOffs <==> Seen(a, b, i, j) && Rank(a) < Rank(b) && Traded(entries, a, b)
  }

  ghost predicate NotedSoFar(entries: Entries, i: nat, j: nat, incomparable: seq<Note>)
    requires Complete(entries)
  {
    && NoneTwice(incomparable) && NotesAreReal(entries, incomparable)
    && forall a, b :: NotedFor(incomparable, a, b) <==> Seen(a, b, i, j) && Incomparable(entries, a, b)
  }

  ghost predicate Progress(entries: Entries, i: nat, j: nat, dominated: seq<Alternative>,
                           tradeOffs: seq<(Alternative, Alternative)>, incomparable: seq<Note>)
    requires Complete(entries)
  {
    && DominatedSoFar(entries, i, j, dominated)
    && TradedSoFar(entries, i, j, tradeOffs)
    && NotedSoFar(entries, i, j, incomparable)
  }

  method Compare(entries: Entries) returns (r: Result<Comparison, ComparisonError>)
    ensures r == Err(MissingVector) <==> !Complete(entries)
    ensures r == Err(RepeatedVector) <==> Complete(entries) && !NoRepetition(entries)
    ensures r == Err(RepeatedVector)
       <==> Complete(entries) && exists i, j :: 0 <= i < j < |entries| && entries[i].0 == entries[j].0
    ensures r.Ok? ==> Complete(entries) && Describes(r.value, entries)
    ensures r.Ok? ==> forall i | 0 <= i < |entries| :: V(entries, entries[i].0) == entries[i].1
  {
    if !Complete(entries) { return Err(MissingVector); }
    var dominated: seq<Alternative> := [];
    var tradeOffs: seq<(Alternative, Alternative)> := [];
    var incomparable: seq<Note> := [];
    for i := 0 to 3
      invariant Progress(entries, i, 0, dominated, tradeOffs, incomparable)
    {
      for j := 0 to 3
        invariant Progress(entries, i, j, dominated, tradeOffs, incomparable)
      {
        dominated, tradeOffs, incomparable := ComparePair(entries, i, j, dominated, tradeOffs, incomparable);
      }
      NextRow(entries, i, dominated, tradeOffs, incomparable);
    }
    NoNotes(entries, incomparable);
    if !NoRepetition(entries) { return Err(RepeatedVector); }
    forall i | 0 <= i < |entries| ensures V(entries, entries[i].0) == entries[i].1 { OwnVector(entries, i); }
    return Ok(Comparison(entries, dominated, tradeOffs, incomparable));
  }

  lemma NextRow(entries: Entries, i: nat, dominated: seq<Alternative>, tradeOffs: seq<(Alternative, Alternative)>,
                incomparable: seq<Note>)
    requires Complete(entries)
    requires Progress(entries, i, 3, dominated, tradeOffs, incomparable)
    ensures Progress(entries, i + 1, 0, dominated, tradeOffs, incomparable)
  {
    forall a, b ensures Seen(a, b, i, 3) <==> Seen(a, b, i + 1, 0) { }
  }

  lemma OneMore(i: nat, j: nat, a: Alternative, b: Alternative)
    requires i == Rank(a) && j == Rank(b)
    ensures forall x, y :: Seen(x, y, i, j + 1) <==> Seen(x, y, i, j) || (x == a && y == b)
  {
    forall x, y ensures Seen(x, y, i, j + 1) <==> Seen(x, y, i, j) || (x == a && y == b) { }
  }

  lemma DominatedStep(entries: Entries, a: Alternative, b: Alternative, dominated: seq<Alternative>)
    requires Complete(entries) && DominatedSoFar(entries, Rank(a), Rank(b), dominated)
    ensures DominatedSoFar(entries, Rank(a), Rank(b) + 1,
                           if Heavier(entries, a, b) && a !in dominated then dominated + [a] else dominated)
  {
    hide Heavier, NoneTwice;
    OneMore(Rank(a), Rank(b), a, b);
    if a !in dominated { OneMoreOnce(dominated, a); }
    if Heavier(entries, a, b) { assert Seen(a, b, Rank(a), Rank(b) + 1); }
  }

  lemma TradedStep(entries: Entries, a: Alternative, b: Alternative, tradeOffs: seq<(Alternative, Alternative)>)
    requires Complete(entries) && TradedSoFar(entries, Rank(a), Rank(b), tradeOffs)
    ensures TradedSoFar(entries, Rank(a), Rank(b) + 1,
                        if Traded(entries, a, b) && (b, a) !in tradeOffs then tradeOffs + [(a, b)] else tradeOffs)
  {
    TradedBothWays(entries, a, b);
    hide Traded, NoneTwice;
    OneMore(Rank(a), Rank(b), a, b);
    if (a, b) !in tradeOffs { OneMoreOnce(tradeOffs, (a, b)); }
  }

  lemma TradedBothWays(entries: Entries, a: Alternative, b: Alternative)
    requires Complete(entries)
    ensures Traded(entries, a, b) <==> Traded(entries, b, a)
    ensures Traded(entries, a, b) ==> Rank(a) != Rank(b)
  {
    hide Comparable, HeavierSomewhere;
    ComparableIsEquivalence(V(entries, a), V(entries, b), V(entries, a));
    ComparableIsEquivalence(V(entries, b), V(entries, a), V(entries, b));
  }

  lemma NotedStep(entries: Entries, a: Alternative, b: Alternative, incomparable: seq<Note>,
                  failure: Option<(Kind, Field)>)
    requires Complete(entries) && NotedSoFar(entries, Rank(a), Rank(b), incomparable)
    requires failure == ComparabilityFailure(V(entries, a), V(entries, b))
    ensures NotedSoFar(entries, Rank(a), Rank(b) + 1,
                       if a != b && failure.Some? then incomparable + [Note(a, b, failure.value)] else incomparable)
  {
    ComparableIff(V(entries, a), V(entries, b));
    assert Incomparable(entries, a, b) <==> a != b && failure.Some?;
    hide Incomparable, ComparabilityFailure, NoneTwice;
    OneMore(Rank(a), Rank(b), a, b);
    if Incomparable(entries, a, b) {
      assert !NotedFor(incomparable, a, b);
      OneMoreOnce(incomparable, Note(a, b, failure.value));
      var longer := incomparable + [Note(a, b, failure.value)];
      forall x, y ensures NotedFor(longer, x, y) <==> NotedFor(incomparable, x, y) || (x == a && y == b) {
        assert Note(a, b, failure.value) in longer;
      }
    }
  }

  /** No pair is noted exactly when every pair is comparable. */
  lemma NoNotes(entries: Entries, incomparable: seq<Note>)
    requires Complete(entries) && NotedSoFar(entries, 3, 0, incomparable)
    ensures incomparable == [] <==> forall a, b :: !Incomparable(entries, a, b)
    ensures forall a, b :: NotedFor(incomparable, a, b) <==> Incomparable(entries, a, b)
  {
    hide Incomparable;
    forall a, b ensures Seen(a, b, 3, 0) { }
    if incomparable != [] { assert NotedFor(incomparable, incomparable[0].left, incomparable[0].right); }
  }

  /** One turn of the inner loop. */
  method ComparePair(entries: Entries, i: nat, j: nat, dominated: seq<Alternative>,
                     tradeOffs: seq<(Alternative, Alternative)>, incomparable: seq<Note>)
    returns (d: seq<Alternative>, t: seq<(Alternative, Alternative)>, n: seq<Note>)
    requires Complete(entries) && i < 3 && j < 3
    requires Progress(entries, i, j, dominated, tradeOffs, incomparable)
    ensures Progress(entries, i, j + 1, d, t, n)
  {
    hide Comparable, AsHeavy, HeavierSomewhere, V, Complete, DominatedSoFar, TradedSoFar, NotedSoFar;
    d, t, n := dominated, tradeOffs, incomparable;
    var a, b := ALTERNATIVES[i], ALTERNATIVES[j];
    var failure := ComparabilityFailure(V(entries, a), V(entries, b));
    ComparableIff(V(entries, a), V(entries, b));
    DominatedStep(entries, a, b, dominated);
    TradedStep(entries, a, b, tradeOffs);
    NotedStep(entries, a, b, incomparable, failure);
    if a == b { return; }
    if failure.Some? {
      n := n + [Note(a, b, failure.value)];
      return;
    }
    if Dominates(V(entries, a), V(entries, b)) && a !in d { d := d + [a]; }
    if Crosses(V(entries, a), V(entries, b)) && (b, a) !in t { t := t + [(a, b)]; }
  }

  // ----- which alternative stands

  ghost function Vectors(entries: Entries): seq<Vector>
    requires Complete(entries)
  {
    [V(entries, Inaction), V(entries, ReversibleEscalation), V(entries, FullAction)]
  }

  lemma BeatenIff(c: Comparison, entries: Entries, a: Alternative)
    requires Complete(entries) && Describes(c, entries)
    ensures a in c.dominated <==> Beaten(Vectors(entries), Rank(a))
  {
    hide Dominates;
    var s := Vectors(entries);
    assert s[Rank(Inaction)] == V(entries, Inaction);
    assert s[Rank(ReversibleEscalation)] == V(entries, ReversibleEscalation);
    assert s[Rank(FullAction)] == V(entries, FullAction);
    DominanceIsStrictOrder(V(entries, a), V(entries, a), V(entries, a));
    if Beaten(s, Rank(a)) {
      var j :| 0 <= j < |s| && Dominates(s[Rank(a)], s[j]);
      var b := ALTERNATIVES[j];
      assert Heavier(entries, a, b);
    }
    if a in c.dominated {
      var b :| Heavier(entries, a, b);
      assert Dominates(s[Rank(a)], s[Rank(b)]);
    }
  }

  /** The three alternatives can never all be dominated. */
  lemma SomeAlternativeStands(c: Comparison, entries: Entries)
    requires Complete(entries) && Describes(c, entries)
    ensures NonDominated(c) != []
  {
    hide Dominates, Describes;
    var m := Descend(Vectors(entries), 0);
    BeatenIff(c, entries, ALTERNATIVES[m]);
    assert ALTERNATIVES[m] in NonDominated(c);
  }

  /** An alternative that alone is not dominated is the least: every other one is comparable to it,
      at least as heavy in all six dimensions and strictly heavier in one. */
  lemma SoleAlternativeIsLeast(c: Comparison, entries: Entries, m: Alternative, other: Alternative)
    requires Complete(entries) && Describes(c, entries)
    requires NonDominated(c) == [m] && other != m
    ensures Dominates(V(entries, other), V(entries, m))
  {
    hide Dominates, Describes, Beaten;
    var s := Vectors(entries);
    forall i | 0 <= i < |s| && i != Rank(m) ensures Beaten(s, i) {
      assert ALTERNATIVES[i] !in NonDominated(c);
      BeatenIff(c, entries, ALTERNATIVES[i]);
    }
    UnbeatenIsLeast(s, Rank(m));
    assert s[Rank(other)] == V(entries, other) && s[Rank(m)] == V(entries, m);
  }
}
