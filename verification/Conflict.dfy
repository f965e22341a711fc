/** Conflict between evaluated claims: only comparable claims can conflict, and a divergence
    between incomparable ones stays decomposed into the dimensions that differ. */
module Conflict {
  import opened Results
  import opened Claims

  datatype Key = Key(target: string, population: string, jurisdiction: string, horizon: int, regime: string,
                     unit: string)

  datatype Dimension = Target | Population | Jurisdiction | HorizonDimension | RegimeDimension | Unit

  datatype Claim = Claim(evaluation: Evaluation, key: Key, conclusion: string)

  datatype Status = NoConflict | RealConflict | FalseConflict

  datatype Assessment = Assessment(status: Status, compared: seq<Claim>, dimensions: set<Dimension>,
                                   preserved: seq<Outcome>)

  predicate Blocks(a: Assessment) { a.status == RealConflict }

  predicate Differ(a: Key, b: Key, d: Dimension) {
    match d
    case Target => a.target != b.target
    case Population => a.population != b.population
    case Jurisdiction => a.jurisdiction != b.jurisdiction
    case HorizonDimension => a.horizon != b.horizon
    case RegimeDimension => a.regime != b.regime
    case Unit => a.unit != b.unit
  }

  function Incommensurable(a: Key, b: Key): set<Dimension> {
    set d: Dimension | Differ(a, b, d)
  }

  lemma SameKeyIff(a: Key, b: Key)
    ensures Incommensurable(a, b) == {} <==> a == b
    ensures Target in Incommensurable(a, b) <==> a.target != b.target
    ensures Population in Incommensurable(a, b) <==> a.population != b.population
    ensures Jurisdiction in Incommensurable(a, b) <==> a.jurisdiction != b.jurisdiction
    ensures HorizonDimension in Incommensurable(a, b) <==> a.horizon != b.horizon
    ensures RegimeDimension in Incommensurable(a, b) <==> a.regime != b.regime
    ensures Unit in Incommensurable(a, b) <==> a.unit != b.unit
  {
    if a != b {
      var d := if a.target != b.target then Target else if a.population != b.population then Population
               else if a.jurisdiction != b.jurisdiction then Jurisdiction
               else if a.horizon != b.horizon then HorizonDimension
               else if a.regime != b.regime then RegimeDimension else Unit;
      assert d in Incommensurable(a, b);
    }
  }

  // ----- the reference: all pairs

  ghost predicate Diverge(claims: set<Claim>, d: Dimension) {
    exists a, b :: a in claims && b in claims && Differ(a.key, b.key, d)
  }

  /** Every dimension in which some pair of claims differs. */
  ghost function AllPairs(claims: set<Claim>): set<Dimension> {
    set d: Dimension | Diverge(claims, d)
  }

  ghost predicate Contradictory(claims: set<Claim>) {
    exists a, b :: a in claims && b in claims && a.conclusion != b.conclusion
  }

  /** What the status must be, from the set of claims alone. */
  ghost function StatusOf(claims: set<Claim>): Status {
    if AllPairs(claims) != {} then FalseConflict
    else if Contradictory(claims) then RealConflict
    else NoConflict
  }

  function AsSet(claims: seq<Claim>): set<Claim> { set c | c in claims }

  /** Comparing every claim with the first one only. */
  ghost predicate Star(claims: seq<Claim>, k: nat, dimensions: set<Dimension>)
    requires 0 < k <= |claims|
  {
    forall d :: d in dimensions <==> exists i :: 0 < i < k && Differ(claims[0].key, claims[i].key, d)
  }

  /** Two keys that differ cannot both agree with a third one, so the star finds exactly what
      all pairs find. */
  lemma StarIsAllPairs(claims: seq<Claim>, dimensions: set<Dimension>)
    requires claims != [] && Star(claims, |claims|, dimensions)
    ensures dimensions == AllPairs(AsSet(claims))
  {
    forall d ensures d in dimensions <==> Diverge(AsSet(claims), d) {
      if d in dimensions {
        var i :| 0 < i < |claims| && Differ(claims[0].key, claims[i].key, d);
        assert claims[0] in AsSet(claims) && claims[i] in AsSet(claims);
      }
      if Diverge(AsSet(claims), d) {
        var a, b :| a in AsSet(claims) && b in AsSet(claims) && Differ(a.key, b.key, d);
        var i :| 0 <= i < |claims| && claims[i] == a;
        var j :| 0 <= j < |claims| && claims[j] == b;
        ThroughFirst(claims[0].key, a.key, b.key, d);
      }
    }
  }

  lemma ThroughFirst(first: Key, a: Key, b: Key, d: Dimension)
    requires Differ(a, b, d)
    ensures Differ(first, a, d) || Differ(first, b, d)
    ensures !Differ(first, first, d)
  {
  }

  /** The assessment compares with the first claim only; its status and its dimensions are those
      of all pairs, whatever the order. */
  method AssessConflict(claims: seq<Claim>, preserved: seq<Outcome>) returns (r: Assessment)
    ensures r.status == StatusOf(AsSet(claims)) && r.dimensions == AllPairs(AsSet(claims))
    ensures r.compared == claims && r.preserved == preserved
  {
    if |claims| < 2 {
      FewClaims(claims);
      return Assessment(NoConflict, claims, {}, preserved);
    }
    var dimensions: set<Dimension> := {};
    var reference := claims[0].key;
    for i := 1 to |claims|
      invariant Star(claims, i, dimensions)
    {
      dimensions := dimensions + Incommensurable(reference, claims[i].key);
    }
    StarIsAllPairs(claims, dimensions);
    if dimensions != {} { return Assessment(FalseConflict, claims, dimensions, preserved); }
    var conclusions := set c | c in claims :: c.conclusion;
    ManyConclusions(claims, conclusions);
    return Assessment(if |conclusions| > 1 then RealConflict else NoConflict, claims, {}, preserved);
  }

  lemma FewClaims(claims: seq<Claim>)
    requires |claims| < 2
    ensures StatusOf(AsSet(claims)) == NoConflict && AllPairs(AsSet(claims)) == {}
  {
    assert forall c | c in AsSet(claims) :: c == claims[0];
    assert forall k: Key, d :: !Differ(k, k, d);
  }

  lemma ManyConclusions(claims: seq<Claim>, conclusions: set<string>)
    requires conclusions == set c | c in claims :: c.conclusion
    ensures |conclusions| > 1 <==> Contradictory(AsSet(claims))
  {
    if Contradictory(AsSet(claims)) {
      var a, b :| a in AsSet(claims) && b in AsSet(claims) && a.conclusion != b.conclusion;
      var rest := conclusions - {a.conclusion};
      assert a.conclusion in conclusions && b.conclusion in rest;
      assert rest != {} && |rest| > 0;
    } else {
      forall x, y | x in conclusions && y in conclusions ensures x == y {
        var a :| a in claims && a.conclusion == x;
        var b :| b in claims && b.conclusion == y;
        assert a in AsSet(claims) && b in AsSet(claims);
      }
      AtMostOne(conclusions);
    }
  }

  lemma AtMostOne(s: set<string>)
    requires forall x, y | x in s && y in s :: x == y
    ensures |s| <= 1
  {
    if x :| x in s { assert s == {x}; }
  }

  /** Status and dimensions depend on the set of claims only: reordering and repeating claims
      changes neither. */
  lemma OrderIsIrrelevant(claims: seq<Claim>, others: seq<Claim>)
    requires forall c :: c in claims <==> c in others
    ensures StatusOf(AsSet(claims)) == StatusOf(AsSet(others)) && AllPairs(AsSet(claims)) == AllPairs(AsSet(others))
  {
    assert AsSet(claims) == AsSet(others);
  }

  /** A false conflict is exactly a pair of different keys; a real one is a contradiction under a
      single shared key. The dimensions are empty unless the conflict is false. */
  lemma StatusIff(claims: set<Claim>)
    ensures StatusOf(claims) == FalseConflict <==> exists a, b :: a in claims && b in claims && a.key != b.key
    ensures StatusOf(claims) == RealConflict
       <==> (forall a, b | a in claims && b in claims :: a.key == b.key) && Contradictory(claims)
    ensures StatusOf(claims) != FalseConflict <==> AllPairs(claims) == {}
  {
    if a, b :| a in claims && b in claims && a.key != b.key {
      SameKeyIff(a.key, b.key);
      var d :| d in Incommensurable(a.key, b.key);
      assert Diverge(claims, d);
      assert d in AllPairs(claims);
    } else {
      assert forall k: Key, d :: !Differ(k, k, d);
    }
  }

  // ----- a batch, grouped by key

  datatype Entry = Comparable(claim: Claim) | Preserved(outcome: Outcome)

  function InGroup(entries: seq<Entry>, key: Key): seq<nat> {
    if entries == [] then [] else
    var n := |entries| - 1;
    InGroup(entries[..n], key) + if entries[n].Comparable? && entries[n].claim.key == key then [n] else []
  }

  lemma {:induction false} InGroupIff(entries: seq<Entry>, key: Key)
    ensures forall i :: i in InGroup(entries, key) <==>
              0 <= i < |entries| && entries[i].Comparable? && entries[i].claim.key == key
  {
    if entries != [] {
      var n := |entries| - 1;
      InGroupIff(entries[..n], key);
      assert forall i | 0 <= i < n :: entries[..n][i] == entries[i];
    }
  }

  function ClaimsAt(entries: seq<Entry>, indices: seq<nat>): seq<Claim>
    requires forall i | i in indices :: i < |entries| && entries[i].Comparable?
  {
    seq(|indices|, k requires 0 <= k < |indices| => assert indices[k] in indices; entries[indices[k]].claim)
  }

  function PreservedOf(entries: seq<Entry>): seq<Outcome> {
    if entries == [] then [] else
    var n := |entries| - 1;
    PreservedOf(entries[..n]) + if entries[n].Preserved? then [entries[n].outcome] else []
  }

  lemma {:induction false} PreservedMembers(entries: seq<Entry>, o: Outcome)
    ensures o in PreservedOf(entries)
       <==> exists j :: 0 <= j < |entries| && entries[j].Preserved? && entries[j].outcome == o
  {
    if entries != [] {
      var n := |entries| - 1;
      PreservedMembers(entries[..n], o);
      assert forall j | 0 <= j < n :: entries[..n][j] == entries[j];
    }
  }

  /** The claims of the batch that share a key. */
  ghost function Peers(entries: seq<Entry>, key: Key): set<Claim> {
    set e | e in entries && e.Comparable? && e.claim.key == key :: e.claim
  }

  ghost function AllClaims(entries: seq<Entry>): set<Claim> {
    set e | e in entries && e.Comparable? :: e.claim
  }

  lemma GroupIsPeers(entries: seq<Entry>, key: Key)
    ensures forall i | i in InGroup(entries, key) :: i < |entries| && entries[i].Comparable?
    ensures AsSet(ClaimsAt(entries, InGroup(entries, key))) == Peers(entries, key)
  {
    InGroupIff(entries, key);
    var indices := InGroup(entries, key);
    var claims := ClaimsAt(entries, indices);
    forall c ensures c in claims <==> c in Peers(entries, key) {
      if c in claims {
        var k :| 0 <= k < |claims| && claims[k] == c;
        assert indices[k] in indices;
        assert entries[indices[k]] in entries;
      }
      if c in Peers(entries, key) {
        var e :| e in entries && e.Comparable? && e.claim.key == key && e.claim == c;
        var i :| 0 <= i < |entries| && entries[i] == e;
        assert i in indices;
        var k :| 0 <= k < |indices| && indices[k] == i;
        assert claims[k] == c;
      }
    }
  }

  /** What the batch assessment must be: an item with a governed, evaluated claim is assessed
      against exactly the items that share its key, and every other item has no assessment. */
  ghost predicate Assessed(entries: seq<Entry>, i: nat, a: Option<Assessment>)
    requires i < |entries|
  {
    match entries[i]
    case Preserved(_) => a == None
    case Comparable(claim) =>
      && a.Some?
      && a.value.status == StatusOf(Peers(entries, claim.key))
      && a.value.dimensions == AllPairs(Peers(entries, claim.key))
      && AsSet(a.value.compared) == Peers(entries, claim.key)
      && a.value.preserved == PreservedOf(entries)
  }

  lemma NotAssessed(entries: seq<Entry>, i: nat)
    requires i < |entries| && entries[i].Preserved?
    ensures Assessed(entries, i, None)
  {
  }

  method GroupByKey(entries: seq<Entry>) returns (keys: seq<Key>, groups: map<Key, seq<nat>>, preserved: seq<Outcome>)
    ensures preserved == PreservedOf(entries)
    ensures forall key :: key in keys <==> key in groups
    ensures forall key | key in groups :: groups[key] == InGroup(entries, key) && groups[key] != []
    ensures forall key | key !in groups :: InGroup(entries, key) == []
  {
    keys, groups, preserved := [], map[], [];
    for n := 0 to |entries|
      invariant preserved == PreservedOf(entries[..n])
      invariant forall key :: key in keys <==> key in groups
      invariant forall key | key in groups :: groups[key] == InGroup(entries[..n], key) && groups[key] != []
      invariant forall key | key !in groups :: InGroup(entries[..n], key) == []
    {
      assert entries[..n + 1][..n] == entries[..n];
      match entries[n]
      case Preserved(outcome) => preserved := preserved + [outcome];
      case Comparable(claim) =>
        if claim.key in groups {
          groups := groups[claim.key := groups[claim.key] + [n]];
        } else {
          keys := keys + [claim.key];
          groups := groups[claim.key := [n]];
        }
    }
    assert entries[..|entries|] == entries;
  }

  method AssessBatch(entries: seq<Entry>) returns (perItem: seq<Option<Assessment>>, decomposed: set<Dimension>)
    ensures |perItem| == |entries|
    ensures forall i | 0 <= i < |entries| :: Assessed(entries, i, perItem[i])
    ensures decomposed == AllPairs(AllClaims(entries))
  {
    var keys, groups, preserved := GroupByKey(entries);
    perItem := AssessGroups(entries, keys, groups, preserved);
    decomposed := DecomposeKeys(keys);
    KeysDivergeAsClaims(entries, keys, decomposed);
  }

  method AssessGroups(entries: seq<Entry>, keys: seq<Key>, groups: map<Key, seq<nat>>, preserved: seq<Outcome>)
    returns (perItem: seq<Option<Assessment>>)
    requires preserved == PreservedOf(entries)
    requires forall key | key in keys :: key in groups && groups[key] == InGroup(entries, key)
    requires forall key | InGroup(entries, key) != [] :: key in keys
    ensures |perItem| == |entries|
    ensures forall i | 0 <= i < |entries| :: Assessed(entries, i, perItem[i])
  {
    hide Assessed;
    perItem := seq(|entries|, _ => None);
    forall i | 0 <= i < |entries| && entries[i].Preserved? ensures Assessed(entries, i, perItem[i]) {
      NotAssessed(entries, i);
    }
    for n := 0 to |keys|
      invariant |perItem| == |entries|
      invariant forall i | 0 <= i < |entries| && (entries[i].Preserved? || entries[i].claim.key in keys[..n]) ::
                  Assessed(entries, i, perItem[i])
    {
      InGroupIff(entries, keys[n]);
      perItem := AssessGroup(entries, keys[n], groups[keys[n]], preserved, perItem);
      assert keys[..n + 1] == keys[..n] + [keys[n]];
    }
    assert keys[..|keys|] == keys;
    forall i | 0 <= i < |entries| && entries[i].Comparable? ensures entries[i].claim.key in keys {
      InGroupIff(entries, entries[i].claim.key);
      assert i in InGroup(entries, entries[i].claim.key);
    }
  }

  method AssessGroup(entries: seq<Entry>, key: Key, members: seq<nat>, preserved: seq<Outcome>,
                     before: seq<Option<Assessment>>) returns (perItem: seq<Option<Assessment>>)
    requires members == InGroup(entries, key) && preserved == PreservedOf(entries) && |before| == |entries|
    ensures |perItem| == |entries|
    ensures forall i | 0 <= i < |entries| && i !in members :: perItem[i] == before[i]
    ensures forall i | i in members :: i < |entries| && Assessed(entries, i, perItem[i])
  {
    GroupIsPeers(entries, key);
    InGroupIff(entries, key);
    var assessment := AssessConflict(ClaimsAt(entries, members), preserved);
    perItem := before;
    for k := 0 to |members|
      invariant |perItem| == |entries|
      invariant forall i | 0 <= i < |entries| :: perItem[i] == if i in members[..k] then Some(assessment) else before[i]
    {
      assert members[k] in members;
      assert members[..k + 1] == members[..k] + [members[k]];
      perItem := perItem[members[k] := Some(assessment)];
    }
    assert members[..|members|] == members;
  }

  ghost predicate Apart(keys: seq<Key>, d: Dimension) {
    exists a, b :: a in keys && b in keys && Differ(a, b, d)
  }

  /** Every unordered pair of group keys is compared once. */
  method DecomposeKeys(keys: seq<Key>) returns (dimensions: set<Dimension>)
    ensures forall d :: d in dimensions <==> Apart(keys, d)
  {
    dimensions := {};
    for n := 0 to |keys|
      invariant forall d :: d in dimensions <==>
                  exists i, j :: 0 <= i < n && i < j < |keys| && Differ(keys[i], keys[j], d)
    {
      for m := n + 1 to |keys|
        invariant forall d :: d in dimensions <==>
                    (exists i, j :: 0 <= i < n && i < j < |keys| && Differ(keys[i], keys[j], d))
                    || (exists j :: n < j < m && Differ(keys[n], keys[j], d))
      {
        dimensions := dimensions + Incommensurable(keys[n], keys[m]);
      }
    }
    forall d ensures d in dimensions <==> Apart(keys, d) {
      if Apart(keys, d) {
        var a, b :| a in keys && b in keys && Differ(a, b, d);
        var i :| 0 <= i < |keys| && keys[i] == a;
        var j :| 0 <= j < |keys| && keys[j] == b;
        assert i < j ==> Differ(keys[i], keys[j], d);
        assert j < i ==> Differ(keys[j], keys[i], d);
      }
    }
  }

  lemma KeysDiverge(entries: seq<Entry>, keys: seq<Key>, d: Dimension)
    requires forall key :: key in keys <==> InGroup(entries, key) != []
    ensures Apart(keys, d) <==> Diverge(AllClaims(entries), d)
  {
    forall key ensures key in keys <==> exists c :: c in AllClaims(entries) && c.key == key {
      GroupIsPeers(entries, key);
      InGroupIff(entries, key);
      if key in keys {
        var i := InGroup(entries, key)[0];
        assert i in InGroup(entries, key);
        assert entries[i] in entries;
        assert entries[i].claim in AllClaims(entries);
      }
      if c :| c in AllClaims(entries) && c.key == key {
        var e :| e in entries && e.Comparable? && e.claim == c;
        var i :| 0 <= i < |entries| && entries[i] == e;
        assert i in InGroup(entries, key);
      }
    }
    if Apart(keys, d) {
      var a, b :| a in keys && b in keys && Differ(a, b, d);
      var x :| x in AllClaims(entries) && x.key == a;
      var y :| y in AllClaims(entries) && y.key == b;
      assert Differ(x.key, y.key, d);
    }
  }

  lemma KeysDivergeAsClaims(entries: seq<Entry>, keys: seq<Key>, decomposed: set<Dimension>)
    requires forall key :: key in keys <==> InGroup(entries, key) != []
    requires forall d :: d in decomposed <==> Apart(keys, d)
    ensures decomposed == AllPairs(AllClaims(entries))
  {
    forall d ensures d in decomposed <==> Diverge(AllClaims(entries), d) { KeysDiverge(entries, keys, d); }
  }

  /** In a grouped batch no item is ever a false conflict, and an item is in real conflict exactly
      when another item has the same key and a different conclusion. */
  lemma GroupedItem(entries: seq<Entry>, i: nat, a: Option<Assessment>)
    requires i < |entries| && Assessed(entries, i, a)
    ensures a.Some? <==> entries[i].Comparable?
    ensures a.Some? ==> a.value.status != FalseConflict && a.value.dimensions == {}
    ensures a.Some? ==>
      (a.value.status == RealConflict <==>
        exists j :: 0 <= j < |entries| && entries[j].Comparable?
          && entries[j].claim.key == entries[i].claim.key && entries[j].claim.conclusion != entries[i].claim.conclusion)
  {
    if a.Some? {
      var claim := entries[i].claim;
      var peers := Peers(entries, claim.key);
      StatusIff(peers);
      assert entries[i] in entries && claim in peers;
      if Contradictory(peers) {
        var x, y :| x in peers && y in peers && x.conclusion != y.conclusion;
        var other := if x.conclusion != claim.conclusion then x else y;
        var e :| e in entries && e.Comparable? && e.claim == other;
        var j :| 0 <= j < |entries| && entries[j] == e;
      }
      if j :| 0 <= j < |entries| && entries[j].Comparable?
              && entries[j].claim.key == claim.key && entries[j].claim.conclusion != claim.conclusion {
        assert entries[j] in entries && entries[j].claim in peers;
      }
    }
  }
}
