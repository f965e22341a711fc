/** The permutation placebo: the blind predictors are shuffled without refitting, and the
    real gain is ranked among the shuffled ones. */
module Placebo {
  import opened Results
  import opened Sums
  import opened Estimator
  import opened Sorting
  import opened Power

  datatype Ranking = Ranking(p: real, realGain: real, shuffledP95: real)

  function Predictors(pairs: seq<Pair>): (xs: seq<real>)
    ensures |xs| == |pairs| && forall i | 0 <= i < |xs| :: xs[i] == pairs[i].predictor
  {
    seq(|pairs|, i requires 0 <= i < |pairs| => pairs[i].predictor)
  }

  /** Each shuffle is a rearrangement of the blind predictors. */
  ghost predicate ValidShuffles(predictors: seq<real>, shuffles: seq<seq<real>>) {
    forall s | s in shuffles :: |s| == |predictors| && multiset(s) == multiset(predictors)
  }

  function Differences(baselineLog: seq<real>, candidateLog: (real, real) -> real,
                       targets: seq<real>, predictors: seq<real>): (d: seq<real>)
    requires |baselineLog| == |targets| == |predictors|
    ensures |d| == |targets|
    ensures forall i | 0 <= i < |d| :: d[i] == candidateLog(targets[i], predictors[i]) - baselineLog[i]
  {
    seq(|targets|, i requires 0 <= i < |targets| => candidateLog(targets[i], predictors[i]) - baselineLog[i])
  }

  /** The mean log-density advantage of the candidate when it is given these predictors. */
  function Advantage(baselineLog: seq<real>, candidateLog: (real, real) -> real,
                     targets: seq<real>, predictors: seq<real>): real
    requires |baselineLog| == |targets| == |predictors| && targets != []
  {
    Mean(Differences(baselineLog, candidateLog, targets, predictors))
  }

  function Nulls(baselineLog: seq<real>, candidateLog: (real, real) -> real,
                 targets: seq<real>, shuffles: seq<seq<real>>): (r: seq<real>)
    requires |baselineLog| == |targets| && targets != []
    requires forall s | s in shuffles :: |s| == |targets|
    ensures |r| == |shuffles|
    ensures forall i | 0 <= i < |r| :: r[i] == Advantage(baselineLog, candidateLog, targets, shuffles[i])
  {
    seq(|shuffles|, i requires 0 <= i < |shuffles| => Advantage(baselineLog, candidateLog, targets, shuffles[i]))
  }

  function CountAtLeast(s: seq<real>, g: real): (count: nat)
    ensures count <= |s|
    ensures count == |s| <==> forall i | 0 <= i < |s| :: s[i] >= g
  {
    if s == [] then 0 else
    CountAtLeast(s[..|s| - 1], g) + if s[|s| - 1] >= g then 1 else 0
  }

  function Rank(nulls: seq<real>, realGain: real): Result<Ranking, PowerError> {
    RankWith(nulls, realGain, CountAtLeast(nulls, realGain))
  }

  /** The ranking when `count` shuffles did at least as well as the real predictors. */
  function RankWith(nulls: seq<real>, realGain: real, count: nat): Result<Ranking, PowerError> {
    if nulls == [] then Err(EmptySample) else
    Ok(Ranking(((1 + count) as real) / ((|nulls| + 1) as real), realGain, Quantile(Sort(AtMost, nulls), 0.95)))
  }

  function PlaceboRanking(baselineLog: seq<real>, candidateLog: (real, real) -> real, blind: seq<Pair>,
                   shuffles: seq<seq<real>>): Result<Ranking, PowerError>
    requires |baselineLog| == |blind|
    requires forall s | s in shuffles :: |s| == |blind|
  {
    if blind == [] then Err(NoBlindPairs) else
    Rank(Nulls(baselineLog, candidateLog, Targets(blind), shuffles),
         Advantage(baselineLog, candidateLog, Targets(blind), Predictors(blind)))
  }

  method DeterministicPlacebo(baselineLog: seq<real>, candidateLog: (real, real) -> real, blind: seq<Pair>,
                              shuffles: seq<seq<real>>) returns (r: Result<Ranking, PowerError>)
    requires |baselineLog| == |blind|
    requires forall s | s in shuffles :: |s| == |blind|
    ensures r == PlaceboRanking(baselineLog, candidateLog, blind, shuffles)
    ensures r.Ok? <==> blind != [] && shuffles != []
    ensures r.Ok? ==> Ranks(r.value, baselineLog, candidateLog, blind, shuffles)
  {
    hide Ranks;
    PlaceboCounts(baselineLog, candidateLog, blind, shuffles);
    if blind == [] { return Err(NoBlindPairs); }
    var targets := Targets(blind);
    var realGain := Advantage(baselineLog, candidateLog, targets, Predictors(blind));
    var nulls, count := Shuffled(baselineLog, candidateLog, targets, shuffles, realGain);
    r := RankWith(nulls, realGain, count);
  }

  /** The gain of every shuffle, and how many do at least as well as the real predictors. */
  method Shuffled(baselineLog: seq<real>, candidateLog: (real, real) -> real, targets: seq<real>,
                  shuffles: seq<seq<real>>, realGain: real) returns (nulls: seq<real>, count: nat)
    requires |baselineLog| == |targets| && targets != []
    requires forall s | s in shuffles :: |s| == |targets|
    ensures nulls == Nulls(baselineLog, candidateLog, targets, shuffles)
    ensures count == CountAtLeast(nulls, realGain)
    ensures count == |Places(nulls, realGain)|
  {
    nulls, count := [], 0;
    for k := 0 to |shuffles|
      invariant |nulls| == k && count == CountAtLeast(nulls, realGain)
      invariant forall i | 0 <= i < k :: nulls[i] == Nulls(baselineLog, candidateLog, targets, shuffles)[i]
    {
      assert shuffles[k] in shuffles;
      var gain := Advantage(baselineLog, candidateLog, targets, shuffles[k]);
      assert (nulls + [gain])[..k] == nulls;
      nulls := nulls + [gain];
      if gain >= realGain { count := count + 1; }
    }
    CountsPlaces(nulls, realGain);
  }

  /** The places of the values that are at least g. */
  function Places(s: seq<real>, g: real): set<int> { set i | 0 <= i < |s| && s[i] >= g }

  lemma {:induction false} CountsPlaces(s: seq<real>, g: real)
    ensures CountAtLeast(s, g) == |Places(s, g)|
  {
    if s == [] {
      assert Places(s, g) == {};
    } else {
      CountsPlaces(s[..|s| - 1], g);
      LastPlace(s, g);
    }
  }

  lemma LastPlace(s: seq<real>, g: real)
    requires s != []
    ensures |Places(s, g)| == |Places(s[..|s| - 1], g)| + if s[|s| - 1] >= g then 1 else 0
  {
    assert Places(s, g) == Places(s[..|s| - 1], g) + if s[|s| - 1] >= g then {|s| - 1} else {};
  }

  /** The gain of the candidate when the blind block is given these predictors. */
  function Gain(baselineLog: seq<real>, candidateLog: (real, real) -> real, blind: seq<Pair>, predictors: seq<real>)
    : real
    requires |baselineLog| == |blind| == |predictors| && blind != []
  {
    Advantage(baselineLog, candidateLog, Targets(blind), predictors)
  }

  /** The gains of the shuffles. */
  function Gains(baselineLog: seq<real>, candidateLog: (real, real) -> real, blind: seq<Pair>,
                 shuffles: seq<seq<real>>): (r: seq<real>)
    requires |baselineLog| == |blind| && blind != []
    requires forall s | s in shuffles :: |s| == |blind|
    ensures |r| == |shuffles|
    ensures forall i | 0 <= i < |r| :: r[i] == Gain(baselineLog, candidateLog, blind, shuffles[i])
  {
    Nulls(baselineLog, candidateLog, Targets(blind), shuffles)
  }

  /** What a ranking says: p counts the shuffles that did at least as well, wherever they stand, and
      the real predictors themselves; the gain is that of the real predictors; and the threshold is the
      value at level 0.95 of the shuffled gains put in order. */
  ghost predicate Ranks(r: Ranking, baselineLog: seq<real>, candidateLog: (real, real) -> real, blind: seq<Pair>,
                        shuffles: seq<seq<real>>)
    requires |baselineLog| == |blind| && blind != []
    requires forall s | s in shuffles :: |s| == |blind|
  {
    var gains := Gains(baselineLog, candidateLog, blind, shuffles);
    && r.realGain == Gain(baselineLog, candidateLog, blind, Predictors(blind))
    && r.p == ((1 + |Places(gains, r.realGain)|) as real) / ((|gains| + 1) as real)
    && exists m: seq<real> :: Rising(m) && multiset(m) == multiset(gains) && Interpolates(m, 0.95, r.shuffledP95)
  }

  lemma AdvantageIsMean(baselineLog: seq<real>, candidateLog: (real, real) -> real, targets: seq<real>,
                        predictors: seq<real>, d: seq<real>)
    requires |baselineLog| == |targets| == |predictors| == |d| && targets != []
    requires forall i | 0 <= i < |d| :: d[i] == candidateLog(targets[i], predictors[i]) - baselineLog[i]
    ensures Advantage(baselineLog, candidateLog, targets, predictors) * (|targets| as real) == Fsum(d, Value())
  {
    assert d == Differences(baselineLog, candidateLog, targets, predictors);
    QuotientTimes(Fsum(d, Value()), |targets| as real);
  }

  lemma PlaceboCounts(baselineLog: seq<real>, candidateLog: (real, real) -> real, blind: seq<Pair>,
                      shuffles: seq<seq<real>>)
    requires |baselineLog| == |blind|
    requires forall s | s in shuffles :: |s| == |blind|
    ensures var r := PlaceboRanking(baselineLog, candidateLog, blind, shuffles);
            && (r == Err(NoBlindPairs) <==> blind == [])
            && (r == Err(EmptySample) <==> blind != [] && shuffles == [])
            && (r.Ok? <==> blind != [] && shuffles != [])
            && (r.Ok? ==> Ranks(r.value, baselineLog, candidateLog, blind, shuffles))
  {
    hide Ranks, Quantile, Advantage;
    if blind != [] && shuffles != [] { PlaceboRanks(baselineLog, candidateLog, blind, shuffles); }
  }

  lemma PlaceboRanks(baselineLog: seq<real>, candidateLog: (real, real) -> real, blind: seq<Pair>,
                     shuffles: seq<seq<real>>)
    requires |baselineLog| == |blind| && blind != [] && shuffles != []
    requires forall s | s in shuffles :: |s| == |blind|
    ensures PlaceboRanking(baselineLog, candidateLog, blind, shuffles).Ok?
    ensures Ranks(PlaceboRanking(baselineLog, candidateLog, blind, shuffles).value, baselineLog, candidateLog, blind,
                  shuffles)
  {
    hide Rank, Quantile, Interpolates, Advantage, Rising, Places, Nulls, Differences, Predictors;
    var gains := Gains(baselineLog, candidateLog, blind, shuffles);
    var realGain := Gain(baselineLog, candidateLog, blind, Predictors(blind));
    RankCounts(gains, realGain);
    assert PlaceboRanking(baselineLog, candidateLog, blind, shuffles) == Rank(gains, realGain);
  }

  lemma RankCounts(gains: seq<real>, realGain: real)
    requires gains != []
    ensures var r := Rank(gains, realGain);
            && r.Ok? && r.value.realGain == realGain
            && r.value.p == ((1 + |Places(gains, realGain)|) as real)
                            / ((|gains| + 1) as real)
            && exists m: seq<real> ::
                 Rising(m) && multiset(m) == multiset(gains) && Interpolates(m, 0.95, r.value.shuffledP95)
  {
    hide Quantile, Interpolates, Rising;
    CountsPlaces(gains, realGain);
    SortRises(gains);
    QuantileInterpolates(Sort(AtMost, gains), 0.95);
  }

  // ----- the order of the shuffles

  lemma {:induction false} CountOfRearranged(s: seq<real>, t: seq<real>, g: real)
    requires multiset(s) == multiset(t)
    ensures CountAtLeast(s, g) == CountAtLeast(t, g)
  {
    if s == [] {
      assert |multiset(t)| == |t|;
    } else {
      var n := |s| - 1;
      var i := Place(s, t, n);
      CountOfRearranged(Drop(s, n), Drop(t, i), g);
      CountWithout(s, n, g);
      CountWithout(t, i, g);
    }
  }

  lemma {:induction false} CountWithout(t: seq<real>, i: nat, g: real)
    requires i < |t|
    ensures CountAtLeast(t, g) == CountAtLeast(Drop(t, i), g) + if t[i] >= g then 1 else 0
  {
    var n := |t| - 1;
    if i == n {
      assert Drop(t, i) == t[..n];
    } else {
      CountWithout(t[..n], i, g);
      assert Drop(t, i)[..n - 1] == Drop(t[..n], i);
    }
  }

  /** The ranking is a function of the shuffles taken together: their order never matters. */
  lemma ShuffleOrderIsIrrelevant(baselineLog: seq<real>, candidateLog: (real, real) -> real, blind: seq<Pair>,
                                 shuffles: seq<seq<real>>, others: seq<seq<real>>)
    requires |baselineLog| == |blind| && multiset(shuffles) == multiset(others)
    requires (forall s | s in shuffles :: |s| == |blind|) && forall s | s in others :: |s| == |blind|
    ensures PlaceboRanking(baselineLog, candidateLog, blind, shuffles)
         == PlaceboRanking(baselineLog, candidateLog, blind, others)
  {
    if blind != [] {
      var targets, realGain := Targets(blind), Advantage(baselineLog, candidateLog, Targets(blind), Predictors(blind));
      var a := Nulls(baselineLog, candidateLog, targets, shuffles);
      var b := Nulls(baselineLog, candidateLog, targets, others);
      NullsOfRearranged(baselineLog, candidateLog, targets, shuffles, others);
      RankOfRearranged(a, b, realGain);
    }
  }

  lemma NullsOfRearranged(baselineLog: seq<real>, candidateLog: (real, real) -> real, targets: seq<real>,
                          shuffles: seq<seq<real>>, others: seq<seq<real>>)
    requires |baselineLog| == |targets| && targets != [] && multiset(shuffles) == multiset(others)
    requires (forall s | s in shuffles :: |s| == |targets|) && forall s | s in others :: |s| == |targets|
    ensures multiset(Nulls(baselineLog, candidateLog, targets, shuffles))
         == multiset(Nulls(baselineLog, candidateLog, targets, others))
  {
    hide Advantage;
    var gain := (xs: seq<real>) =>
      if |xs| == |targets| then Advantage(baselineLog, candidateLog, targets, xs) else 0.0;
    var a, b := Nulls(baselineLog, candidateLog, targets, shuffles), Nulls(baselineLog, candidateLog, targets, others);
    forall i | 0 <= i < |shuffles| ensures a[i] == gain(shuffles[i]) { assert shuffles[i] in shuffles; }
    forall i | 0 <= i < |others| ensures b[i] == gain(others[i]) { assert others[i] in others; }
    assert a == Map(shuffles, gain) && b == Map(others, gain);
    MapOfRearranged(shuffles, others, gain);
  }

  lemma RankOfRearranged(a: seq<real>, b: seq<real>, g: real)
    requires multiset(a) == multiset(b)
    ensures Rank(a, g) == Rank(b, g)
  {
    hide Quantile;
    CountOfRearranged(a, b, g);
    AtMostIsTotal();
    SortSorts(AtMost, a);
    SortSorts(AtMost, b);
    SortedIsUnique(AtMost, Sort(AtMost, a), Sort(AtMost, b));
    assert |multiset(a)| == |a| && |multiset(b)| == |b|;
  }

  lemma QuotientOrder(x: real, y: real, n: real)
    requires x <= y && n > 0.0
    ensures x / n <= y / n
    ensures x < y ==> x / n < y / n
  {
    assert x / n == x * (1.0 / n) && y / n == y * (1.0 / n);
  }

  /** The placebo p-value never reaches zero: it is at least 1/(permutations + 1), at most 1,
      and 1 exactly when no shuffle does worse than the real predictors. */
  lemma PlaceboRange(nulls: seq<real>, realGain: real)
    requires nulls != []
    ensures var p := Rank(nulls, realGain).value.p;
            && 1.0 / ((|nulls| + 1) as real) <= p <= 1.0
            && (p == 1.0 <==> forall i | 0 <= i < |nulls| :: nulls[i] >= realGain)
  {
    var n := (|nulls| + 1) as real;
    var c := (1 + CountAtLeast(nulls, realGain)) as real;
    QuotientOrder(1.0, c, n);
    QuotientOrder(c, n, n);
    assert n / n == 1.0;
  }

  /** Predictors that carry no information: the candidate's density of every blind target is
      the same whichever blind predictor it is given. */
  ghost predicate NoSignal(candidateLog: (real, real) -> real, blind: seq<Pair>) {
    forall t, p, q | t in blind && p in blind && q in blind ::
      candidateLog(t.target, p.predictor) == candidateLog(t.target, q.predictor)
  }

  lemma ShuffledMember(blind: seq<Pair>, shuffle: seq<real>, i: nat) returns (p: Pair)
    requires multiset(shuffle) == multiset(Predictors(blind)) && i < |shuffle|
    ensures p in blind && p.predictor == shuffle[i]
  {
    SameMembers(shuffle, Predictors(blind), shuffle[i]);
    var k :| 0 <= k < |blind| && Predictors(blind)[k] == shuffle[i];
    p := blind[k];
  }

  /** Without signal every shuffle reproduces the real gain, so p = 1 and the real gain does
      not exceed the 95% quantile of the shuffled ones. */
  lemma NoSignalIsNeverConfirmed(baselineLog: seq<real>, candidateLog: (real, real) -> real, blind: seq<Pair>,
                                 shuffles: seq<seq<real>>)
    requires |baselineLog| == |blind| && blind != [] && shuffles != []
    requires ValidShuffles(Predictors(blind), shuffles)
    requires NoSignal(candidateLog, blind)
    ensures var r := PlaceboRanking(baselineLog, candidateLog, blind, shuffles);
            r.Ok? && r.value.p == 1.0 && r.value.shuffledP95 == r.value.realGain
  {
    var targets := Targets(blind);
    var nulls := Nulls(baselineLog, candidateLog, targets, shuffles);
    var realGain := Advantage(baselineLog, candidateLog, targets, Predictors(blind));
    forall i | 0 <= i < |nulls| ensures nulls[i] == realGain {
      assert shuffles[i] in shuffles;
      ShuffleKeepsGain(baselineLog, candidateLog, blind, shuffles[i]);
    }
    ConstantNullsRank(nulls, realGain);
  }

  lemma ShuffleKeepsGain(baselineLog: seq<real>, candidateLog: (real, real) -> real, blind: seq<Pair>,
                         shuffle: seq<real>)
    requires |baselineLog| == |blind| == |shuffle| && blind != []
    requires multiset(shuffle) == multiset(Predictors(blind))
    requires NoSignal(candidateLog, blind)
    ensures Advantage(baselineLog, candidateLog, Targets(blind), shuffle)
         == Advantage(baselineLog, candidateLog, Targets(blind), Predictors(blind))
  {
    var shuffled := Differences(baselineLog, candidateLog, Targets(blind), shuffle);
    var unshuffled := Differences(baselineLog, candidateLog, Targets(blind), Predictors(blind));
    forall i | 0 <= i < |blind| ensures shuffled[i] == unshuffled[i] {
      var p := ShuffledMember(blind, shuffle, i);
      assert blind[i] in blind;
      assert candidateLog(blind[i].target, p.predictor) == candidateLog(blind[i].target, blind[i].predictor);
    }
    assert shuffled == unshuffled;
  }

  lemma ConstantNullsRank(nulls: seq<real>, realGain: real)
    requires nulls != [] && forall i | 0 <= i < |nulls| :: nulls[i] == realGain
    ensures Rank(nulls, realGain).value.p == 1.0
    ensures Rank(nulls, realGain).value.shuffledP95 == realGain
  {
    PlaceboRange(nulls, realGain);
    var sorted := Sort(AtMost, nulls);
    AtMostIsTotal();
    SortSorts(AtMost, nulls);
    SameMembers(sorted, nulls, sorted[0]);
    SameMembers(sorted, nulls, sorted[|sorted| - 1]);
    QuantileMonotone(sorted, 0.95, 0.95);
  }
}
